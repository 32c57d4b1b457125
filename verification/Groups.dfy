/** The server's groups and clients (crates/snapcast-server/src/state.rs). */
module Groups {

  // ----- Entities -----

  datatype Volume = Volume(percent: nat, muted: bool)

  datatype ClientConfig = ClientConfig(name: string, volume: Volume, latency: int)

  datatype Client = Client(id: string, hostName: string, mac: string, connected: bool, config: ClientConfig)

  datatype Group = Group(id: string, name: string, streamId: string, muted: bool, clients: seq<string>)

  type Metadata = map<string, string>

  datatype StreamInfo = StreamInfo(id: string, status: string, uri: string, properties: Metadata)

  function DefaultConfig(): ClientConfig {
    ClientConfig("", Volume(100, false), 0)
  }

  // ----- The invariant: groups partition the clients they list -----

  ghost predicate NoRepeats(s: seq<string>) {
    forall i, j :: 0 <= i < j < |s| ==> s[i] != s[j]
  }

  ghost predicate Apart(a: Group, b: Group) {
    a.id != b.id && forall c :: c in a.clients ==> c !in b.clients
  }

  /** Unique ids, no client listed twice; groups may be empty. */
  ghost predicate Tidy(groups: seq<Group>) {
    && (forall i :: 0 <= i < |groups| ==> NoRepeats(groups[i].clients))
    && (forall i, j :: 0 <= i < j < |groups| ==> Apart(groups[i], groups[j]))
  }

  ghost predicate Partition(groups: seq<Group>) {
    Tidy(groups) && forall i :: 0 <= i < |groups| ==> groups[i].clients != []
  }

  /** Ids a caller may hand out for new groups: distinct and not yet in use. */
  ghost predicate FreshIds(newIds: seq<string>, groups: seq<Group>) {
    && NoRepeats(newIds)
    && forall k, i :: 0 <= k < |newIds| && 0 <= i < |groups| ==> newIds[k] != groups[i].id
  }

  // ----- Lookups -----

  /** Index of the first group with this id, or the number of groups. */
  function Position(groups: seq<Group>, groupId: string): (k: nat)
    ensures k <= |groups|
    ensures k < |groups| ==> groups[k].id == groupId
    ensures forall i :: 0 <= i < k ==> groups[i].id != groupId
  {
    if groups == [] then 0
    else if groups[0].id == groupId then 0
    else
      var k := Position(groups[1..], groupId);
      assert forall i :: 1 <= i < k + 1 ==> groups[i] == groups[1..][i - 1];
      k + 1
  }

  datatype Home = Nowhere | In(group: Group)

  /** The first group that lists the client. */
  function HomeOf(groups: seq<Group>, client: string): (h: Home)
    ensures h.In? ==> h.group in groups && client in h.group.clients
    ensures h.Nowhere? ==> forall g :: g in groups ==> client !in g.clients
  {
    if groups == [] then Nowhere
    else if client in groups[0].clients then In(groups[0])
    else HomeOf(groups[1..], client)
  }

  lemma {:induction false} HomeIsFirst(groups: seq<Group>, i: nat, client: string)
    requires i < |groups| && client in groups[i].clients
    requires forall j :: 0 <= j < i ==> client !in groups[j].clients
    ensures HomeOf(groups, client) == In(groups[i])
  {
    if i > 0 {
      assert forall j :: 0 <= j < i - 1 ==> groups[1..][j] == groups[j + 1];
      HomeIsFirst(groups[1..], i - 1, client);
    }
  }

  /** In a tidy list a client's home is any group that lists it. */
  lemma HomeIsUnique(groups: seq<Group>, i: nat, client: string)
    requires Tidy(groups) && i < |groups| && client in groups[i].clients
    ensures HomeOf(groups, client) == In(groups[i])
  {
    forall j | 0 <= j < i
      ensures client !in groups[j].clients
    {
      assert Apart(groups[j], groups[i]);
    }
    HomeIsFirst(groups, i, client);
  }

  lemma {:induction false} HomeOfAppend(a: seq<Group>, b: seq<Group>, client: string)
    ensures HomeOf(a + b, client) == if HomeOf(a, client).In? then HomeOf(a, client) else HomeOf(b, client)
  {
    if a == [] {
      assert a + b == b;
    } else {
      assert (a + b)[1..] == a[1..] + b;
      HomeOfAppend(a[1..], b, client);
    }
  }

  // ----- Removing -----

  /** Those of `s` in `listed`, in order. */
  function Only(s: seq<string>, listed: seq<string>): (r: seq<string>)
    ensures forall c :: c in r <==> c in s && c in listed
  {
    if s == [] then []
    else if s[0] in listed then [s[0]] + Only(s[1..], listed)
    else Only(s[1..], listed)
  }

  /** Those of `s` not in `listed`, in order. */
  function Minus(s: seq<string>, listed: seq<string>): (r: seq<string>)
    ensures forall c :: c in r <==> c in s && c !in listed
    ensures |r| <= |s|
  {
    if s == [] then []
    else if s[0] in listed then Minus(s[1..], listed)
    else [s[0]] + Minus(s[1..], listed)
  }

  function Without(s: seq<string>, client: string): seq<string> {
    Minus(s, [client])
  }

  lemma {:induction false} MinusSame(s: seq<string>, listed: seq<string>)
    requires forall c :: c in s ==> c !in listed
    ensures Minus(s, listed) == s
  {
    if s != [] {
      MinusSame(s[1..], listed);
    }
  }

  lemma {:induction false} MinusTwice(s: seq<string>, listed: seq<string>, c: string)
    ensures Without(Minus(s, listed), c) == Minus(s, listed + [c])
  {
    if s != [] {
      MinusTwice(s[1..], listed, c);
      assert s[0] in listed + [c] <==> s[0] in listed || s[0] == c;
      if s[0] !in listed {
        assert ([s[0]] + Minus(s[1..], listed))[1..] == Minus(s[1..], listed);
      }
    }
  }

  lemma {:induction false} MinusKeepsDistinct(s: seq<string>, listed: seq<string>)
    requires NoRepeats(s)
    ensures NoRepeats(Minus(s, listed)) && NoRepeats(Only(s, listed))
  {
    if s != [] {
      assert s[0] !in s[1..];
      MinusKeepsDistinct(s[1..], listed);
    }
  }

  /** The groups with one client struck off every list. */
  function Stripped(groups: seq<Group>, client: string): (r: seq<Group>)
    ensures |r| == |groups|
    ensures forall i :: 0 <= i < |r| ==> r[i] == groups[i].(clients := Without(groups[i].clients, client))
  {
    seq(|groups|, i requires 0 <= i < |groups| => groups[i].(clients := Without(groups[i].clients, client)))
  }

  /** The groups that still list somebody, in order. */
  function Occupied(groups: seq<Group>): (r: seq<Group>)
    ensures forall g :: g in r <==> g in groups && g.clients != []
  {
    if groups == [] then []
    else if groups[0].clients == [] then Occupied(groups[1..])
    else [groups[0]] + Occupied(groups[1..])
  }

  lemma TailIsTidy(groups: seq<Group>)
    requires Tidy(groups) && groups != []
    ensures Tidy(groups[1..]) && NoRepeats(groups[0].clients)
    ensures forall g :: g in groups[1..] ==> Apart(groups[0], g)
  {
  }

  lemma ConsIsPartition(g: Group, rest: seq<Group>)
    requires Partition(rest) && NoRepeats(g.clients) && g.clients != []
    requires forall h :: h in rest ==> Apart(g, h)
    ensures Partition([g] + rest)
  {
    var all := [g] + rest;
    forall i, j | 0 <= i < j < |all|
      ensures Apart(all[i], all[j])
    {
      assert all[j] == rest[j - 1];
      assert i > 0 ==> all[i] == rest[i - 1];
    }
  }

  lemma {:induction false} OccupiedIsPartition(groups: seq<Group>)
    requires Tidy(groups)
    ensures Partition(Occupied(groups))
  {
    if groups != [] {
      TailIsTidy(groups);
      OccupiedIsPartition(groups[1..]);
      if groups[0].clients != [] {
        ConsIsPartition(groups[0], Occupied(groups[1..]));
      }
    }
  }

  lemma {:induction false} HomeOfOccupied(groups: seq<Group>, client: string)
    ensures HomeOf(Occupied(groups), client) == HomeOf(groups, client)
  {
    if groups != [] {
      HomeOfOccupied(groups[1..], client);
      if groups[0].clients != [] {
        assert ([groups[0]] + Occupied(groups[1..]))[1..] == Occupied(groups[1..]);
      }
    }
  }

  /** The groups after a client is removed altogether. */
  function Removed(groups: seq<Group>, client: string): seq<Group> {
    Occupied(Stripped(groups, client))
  }

  lemma StrippedIsTidy(groups: seq<Group>, client: string)
    requires Tidy(groups)
    ensures Tidy(Stripped(groups, client))
  {
    var r := Stripped(groups, client);
    forall i | 0 <= i < |r|
      ensures NoRepeats(r[i].clients)
    {
      MinusKeepsDistinct(groups[i].clients, [client]);
    }
    forall i, j | 0 <= i < j < |r|
      ensures Apart(r[i], r[j])
    {
      assert Apart(groups[i], groups[j]);
    }
  }

  /** Removing a client leaves it nowhere, everybody else where they were, and
      the groups a partition. */
  lemma RemovedPromises(groups: seq<Group>, client: string)
    requires Partition(groups)
    ensures Partition(Removed(groups, client))
    ensures HomeOf(Removed(groups, client), client) == Nowhere
    ensures forall c :: c != client ==>
      HomeOf(Removed(groups, client), c) == Leaving(HomeOf(groups, c), client)
  {
    StrippedIsTidy(groups, client);
    var r := Stripped(groups, client);
    OccupiedIsPartition(r);
    forall c
      ensures HomeOf(Removed(groups, client), c) == HomeOf(r, c)
      ensures c != client ==> HomeOf(r, c) == Leaving(HomeOf(groups, c), client)
    {
      HomeOfOccupied(r, c);
      if c != client && exists i :: 0 <= i < |groups| && c in groups[i].clients {
        var i :| 0 <= i < |groups| && c in groups[i].clients;
        HomeIsUnique(groups, i, c);
        HomeIsUnique(r, i, c);
      }
    }
  }

  /** A home after one of its other members has left. */
  function Leaving(h: Home, client: string): Home {
    if h.In? then In(h.group.(clients := Without(h.group.clients, client))) else Nowhere
  }

  // ----- Joining: a client without a group gets one of its own -----

  function Singleton(id: string, streamId: string, client: string): Group {
    Group(id, "", streamId, false, [client])
  }

  function Joined(groups: seq<Group>, client: string, streamId: string, newId: string): seq<Group> {
    if HomeOf(groups, client).In? then groups else groups + [Singleton(newId, streamId, client)]
  }

  lemma JoinedPromises(groups: seq<Group>, client: string, streamId: string, newId: string)
    requires Partition(groups) && FreshIds([newId], groups)
    ensures Partition(Joined(groups, client, streamId, newId))
    ensures HomeOf(Joined(groups, client, streamId, newId), client)
      == if HomeOf(groups, client).In? then HomeOf(groups, client) else In(Group(newId, "", streamId, false, [client]))
    ensures forall c :: c != client ==> HomeOf(Joined(groups, client, streamId, newId), c) == HomeOf(groups, c)
  {
    var single := Singleton(newId, streamId, client);
    if HomeOf(groups, client).Nowhere? {
      forall i | 0 <= i < |groups|
        ensures Apart(groups[i], single)
      {
        assert [newId][0] != groups[i].id;
        assert groups[i] in groups;
      }
      forall c
        ensures HomeOf(groups + [single], c)
          == if HomeOf(groups, c).In? then HomeOf(groups, c) else HomeOf([single], c)
        ensures HomeOf([single], c) == if c == client then In(single) else Nowhere
      {
        HomeOfAppend(groups, [single], c);
      }
    }
  }

  // ----- Setting a group's members -----

  /** The listed clients the group does not have yet, each once, in list order. */
  function Arrivals(listed: seq<string>, members: seq<string>): (r: seq<string>)
    ensures forall c :: c in r <==> c in listed && c !in members
    ensures NoRepeats(r)
  {
    if listed == [] then []
    else
      var earlier := Arrivals(listed[..|listed| - 1], members);
      var last := listed[|listed| - 1];
      if last in members || last in earlier then earlier else earlier + [last]
  }

  /** The members of the target group that are not listed any more. */
  function Evicted(groups: seq<Group>, groupId: string, listed: seq<string>): seq<string> {
    var t := Position(groups, groupId);
    if t < |groups| then Minus(groups[t].clients, listed) else []
  }

  /** Where one group stands when the listed clients have been moved: the target
      keeps its listed members and takes the others in, every other group loses
      them. */
  function Moved(g: Group, groupId: string, kept: seq<string>, listed: seq<string>): Group {
    if g.id == groupId then g.(clients := Only(g.clients, kept) + Arrivals(listed, g.clients))
    else g.(clients := Minus(g.clients, listed))
  }

  function MovedAll(groups: seq<Group>, groupId: string, kept: seq<string>, listed: seq<string>): (r: seq<Group>)
    ensures |r| == |groups|
    ensures forall i :: 0 <= i < |r| ==> r[i] == Moved(groups[i], groupId, kept, listed)
  {
    seq(|groups|, i requires 0 <= i < |groups| => Moved(groups[i], groupId, kept, listed))
  }

  /** One new group for each evicted client, on the stream it was listening to. */
  function Singletons(newIds: seq<string>, streamId: string, evicted: seq<string>): (r: seq<Group>)
    requires |evicted| <= |newIds|
    ensures |r| == |evicted|
    ensures forall k :: 0 <= k < |r| ==> r[k] == Singleton(newIds[k], streamId, evicted[k])
  {
    seq(|evicted|, k requires 0 <= k < |evicted| => Singleton(newIds[k], streamId, evicted[k]))
  }

  function StreamOf(groups: seq<Group>, groupId: string): string {
    var t := Position(groups, groupId);
    if t < |groups| then groups[t].streamId else ""
  }

  function NewGroups(groups: seq<Group>, groupId: string, listed: seq<string>, newIds: seq<string>): seq<Group>
    requires |Evicted(groups, groupId, listed)| <= |newIds|
  {
    Singletons(newIds, StreamOf(groups, groupId), Evicted(groups, groupId, listed))
  }

  /** The whole effect of setting a group's members, group by group, before the
      groups left empty are dropped. */
  function Rearranged(groups: seq<Group>, groupId: string, listed: seq<string>, newIds: seq<string>): seq<Group>
    requires |Evicted(groups, groupId, listed)| <= |newIds|
  {
    MovedAll(groups, groupId, listed, listed) + NewGroups(groups, groupId, listed, newIds)
  }

  function Regrouped(groups: seq<Group>, groupId: string, listed: seq<string>, newIds: seq<string>): seq<Group>
    requires |Evicted(groups, groupId, listed)| <= |newIds|
  {
    Occupied(Rearranged(groups, groupId, listed, newIds))
  }

  lemma MovedIsApart(a: Group, b: Group, groupId: string, listed: seq<string>)
    requires Apart(a, b)
    ensures Apart(Moved(a, groupId, listed, listed), Moved(b, groupId, listed, listed))
  {
  }

  lemma MovedIsDistinct(g: Group, groupId: string, listed: seq<string>)
    requires NoRepeats(g.clients)
    ensures NoRepeats(Moved(g, groupId, listed, listed).clients)
  {
    MinusKeepsDistinct(g.clients, listed);
    var stay, come := Only(g.clients, listed), Arrivals(listed, g.clients);
    forall i, j | 0 <= i < j < |stay + come|
      ensures (stay + come)[i] != (stay + come)[j]
    {
      if i < |stay| <= j {
        assert stay[i] in stay && come[j - |stay|] in come;
      }
    }
  }

  lemma EvictedFromTarget(groups: seq<Group>, groupId: string, listed: seq<string>, c: string)
    requires Tidy(groups) && c in Evicted(groups, groupId, listed)
    ensures Position(groups, groupId) < |groups|
    ensures c in groups[Position(groups, groupId)].clients && c !in listed
    ensures forall i :: 0 <= i < |groups| && i != Position(groups, groupId) ==> c !in groups[i].clients
    ensures forall i :: 0 <= i < |groups| ==> c !in Moved(groups[i], groupId, listed, listed).clients
  {
    var t := Position(groups, groupId);
    forall i | 0 <= i < |groups| && i != t
      ensures c !in groups[i].clients && groups[i].id != groupId
    {
      assert if i < t then Apart(groups[i], groups[t]) else Apart(groups[t], groups[i]);
    }
  }

  lemma EvictedIsDistinct(groups: seq<Group>, groupId: string, listed: seq<string>)
    requires Tidy(groups)
    ensures NoRepeats(Evicted(groups, groupId, listed))
  {
    var t := Position(groups, groupId);
    if t < |groups| {
      MinusKeepsDistinct(groups[t].clients, listed);
    }
  }

  lemma MovedAllIsTidy(groups: seq<Group>, groupId: string, listed: seq<string>)
    requires Tidy(groups)
    ensures Tidy(MovedAll(groups, groupId, listed, listed))
  {
    var r := MovedAll(groups, groupId, listed, listed);
    forall i | 0 <= i < |r|
      ensures NoRepeats(r[i].clients)
    {
      MovedIsDistinct(groups[i], groupId, listed);
    }
    forall i, j | 0 <= i < j < |r|
      ensures Apart(r[i], r[j])
    {
      MovedIsApart(groups[i], groups[j], groupId, listed);
    }
  }

  lemma AppendIsTidy(a: seq<Group>, b: seq<Group>)
    requires Tidy(a) && Tidy(b)
    requires forall i, j :: 0 <= i < |a| && 0 <= j < |b| ==> Apart(a[i], b[j])
    ensures Tidy(a + b)
  {
    var all := a + b;
    forall i, j | 0 <= i < j < |all|
      ensures Apart(all[i], all[j])
    {
      assert i >= |a| ==> all[i] == b[i - |a|];
      assert j >= |a| ==> all[j] == b[j - |a|];
    }
  }

  lemma SingletonsAreTidy(newIds: seq<string>, streamId: string, evicted: seq<string>)
    requires NoRepeats(newIds) && NoRepeats(evicted) && |evicted| <= |newIds|
    ensures Tidy(Singletons(newIds, streamId, evicted))
  {
  }

  lemma RearrangedIsTidy(groups: seq<Group>, groupId: string, listed: seq<string>, newIds: seq<string>)
    requires Partition(groups) && FreshIds(newIds, groups)
    requires |Evicted(groups, groupId, listed)| <= |newIds|
    ensures Tidy(Rearranged(groups, groupId, listed, newIds))
  {
    var moved := MovedAll(groups, groupId, listed, listed);
    var singles := NewGroups(groups, groupId, listed, newIds);
    var evicted := Evicted(groups, groupId, listed);
    MovedAllIsTidy(groups, groupId, listed);
    EvictedIsDistinct(groups, groupId, listed);
    SingletonsAreTidy(newIds, StreamOf(groups, groupId), evicted);
    forall i, k | 0 <= i < |moved| && 0 <= k < |singles|
      ensures Apart(moved[i], singles[k])
    {
      assert evicted[k] in evicted;
      EvictedFromTarget(groups, groupId, listed, evicted[k]);
    }
    AppendIsTidy(moved, singles);
  }

  /** Whatever the request, the groups stay a partition. */
  lemma RegroupedIsPartition(groups: seq<Group>, groupId: string, listed: seq<string>, newIds: seq<string>)
    requires Partition(groups) && FreshIds(newIds, groups)
    requires |Evicted(groups, groupId, listed)| <= |newIds|
    ensures Partition(Regrouped(groups, groupId, listed, newIds))
  {
    RearrangedIsTidy(groups, groupId, listed, newIds);
    OccupiedIsPartition(Rearranged(groups, groupId, listed, newIds));
  }

  /** Where a client is after the move, seen from an index of the rearranged list. */
  lemma HomeAfterMove(groups: seq<Group>, groupId: string, listed: seq<string>, newIds: seq<string>, i: nat, c: string)
    requires Partition(groups) && FreshIds(newIds, groups)
    requires |Evicted(groups, groupId, listed)| <= |newIds|
    requires i < |Rearranged(groups, groupId, listed, newIds)|
    requires c in Rearranged(groups, groupId, listed, newIds)[i].clients
    ensures HomeOf(Regrouped(groups, groupId, listed, newIds), c)
      == In(Rearranged(groups, groupId, listed, newIds)[i])
  {
    RearrangedIsTidy(groups, groupId, listed, newIds);
    HomeIsUnique(Rearranged(groups, groupId, listed, newIds), i, c);
    HomeOfOccupied(Rearranged(groups, groupId, listed, newIds), c);
  }

  /** A listed client ends up in the target group, wherever it was before; the
      group keeps its id, name, stream and mute flag, and its members are exactly
      the listed clients, each once. */
  lemma ListedJoinTarget(groups: seq<Group>, t: nat, listed: seq<string>, newIds: seq<string>, c: string)
    requires Partition(groups) && FreshIds(newIds, groups) && t < |groups|
    requires |Evicted(groups, groups[t].id, listed)| <= |newIds|
    requires c in listed
    ensures var g := groups[t];
            var members := Only(g.clients, listed) + Arrivals(listed, g.clients);
            && HomeOf(Regrouped(groups, g.id, listed, newIds), c) == In(g.(clients := members))
            && NoRepeats(members)
            && (forall d :: d in members <==> d in listed)
  {
    var g := groups[t];
    MovedIsDistinct(g, g.id, listed);
    HomeAfterMove(groups, g.id, listed, newIds, t, c);
  }

  /** A member of the target that is not listed ends up alone in a new group on
      the stream it was listening to, unnamed and unmuted. */
  lemma UnlistedAreEvicted(groups: seq<Group>, t: nat, listed: seq<string>, newIds: seq<string>, c: string)
    requires Partition(groups) && FreshIds(newIds, groups) && t < |groups|
    requires |Evicted(groups, groups[t].id, listed)| <= |newIds|
    requires c in groups[t].clients && c !in listed
    ensures exists k :: 0 <= k < |newIds| && (
              HomeOf(Regrouped(groups, groups[t].id, listed, newIds), c)
              == In(Group(newIds[k], "", groups[t].streamId, false, [c])))
  {
    PositionIsUnique(groups, t);
    var evicted := Evicted(groups, groups[t].id, listed);
    var k :| 0 <= k < |evicted| && evicted[k] == c;
    HomeAfterMove(groups, groups[t].id, listed, newIds, |groups| + k, c);
    assert Rearranged(groups, groups[t].id, listed, newIds)[|groups| + k]
        == Singleton(newIds[k], groups[t].streamId, c);
  }

  /** Everybody else stays in the group they were in, which loses the clients that
      moved and nothing more. */
  lemma OthersStay(groups: seq<Group>, t: nat, listed: seq<string>, newIds: seq<string>, c: string)
    requires Partition(groups) && FreshIds(newIds, groups) && t < |groups|
    requires |Evicted(groups, groups[t].id, listed)| <= |newIds|
    requires c !in groups[t].clients && c !in listed
    ensures HomeOf(Regrouped(groups, groups[t].id, listed, newIds), c)
      == LeavingAll(HomeOf(groups, c), listed)
  {
    PositionIsUnique(groups, t);
    MoversOnly(groups, groups[t].id, listed, newIds, c);
  }

  /** Nobody is lost and nobody appears: after the move a client has a group
      exactly when it had one or is listed. */
  lemma MembershipAfterMove(groups: seq<Group>, t: nat, listed: seq<string>, newIds: seq<string>, c: string)
    requires Partition(groups) && FreshIds(newIds, groups) && t < |groups|
    requires |Evicted(groups, groups[t].id, listed)| <= |newIds|
    ensures HomeOf(Regrouped(groups, groups[t].id, listed, newIds), c).In?
       <==> HomeOf(groups, c).In? || c in listed
  {
    if c in listed {
      ListedJoinTarget(groups, t, listed, newIds, c);
    } else if c in groups[t].clients {
      HomeIsUnique(groups, t, c);
      UnlistedAreEvicted(groups, t, listed, newIds, c);
    } else {
      OthersStay(groups, t, listed, newIds, c);
    }
  }

  /** On an unknown group id the listed clients are put nowhere, and the others
      stay where they were. */
  lemma UnknownTargetDropsListed(groups: seq<Group>, groupId: string, listed: seq<string>, newIds: seq<string>, c: string)
    requires Partition(groups) && FreshIds(newIds, groups)
    requires Position(groups, groupId) == |groups|
    ensures HomeOf(Regrouped(groups, groupId, listed, newIds), c)
      == if c in listed then Nowhere else LeavingAll(HomeOf(groups, c), listed)
  {
    if c in listed {
      HomeOfOccupied(Rearranged(groups, groupId, listed, newIds), c);
    } else {
      MoversOnly(groups, groupId, listed, newIds, c);
    }
  }

  /** A home after the listed clients have left. */
  function LeavingAll(h: Home, listed: seq<string>): Home {
    if h.In? then In(h.group.(clients := Minus(h.group.clients, listed))) else Nowhere
  }

  lemma PositionIsUnique(groups: seq<Group>, t: nat)
    requires Tidy(groups) && t < |groups|
    ensures Position(groups, groups[t].id) == t
  {
    var k := Position(groups, groups[t].id);
    assert k < t ==> Apart(groups[k], groups[t]);
  }

  lemma MoversOnly(groups: seq<Group>, groupId: string, listed: seq<string>, newIds: seq<string>, c: string)
    requires Partition(groups) && FreshIds(newIds, groups)
    requires |Evicted(groups, groupId, listed)| <= |newIds|
    requires c !in listed
    requires forall i :: 0 <= i < |groups| && groups[i].id == groupId ==> c !in groups[i].clients
    ensures HomeOf(Regrouped(groups, groupId, listed, newIds), c) == LeavingAll(HomeOf(groups, c), listed)
  {
    var r := Rearranged(groups, groupId, listed, newIds);
    if HomeOf(groups, c).In? {
      var i :| 0 <= i < |groups| && groups[i] == HomeOf(groups, c).group;
      HomeAfterMove(groups, groupId, listed, newIds, i, c);
    } else {
      forall i | 0 <= i < |r|
        ensures c !in r[i].clients
      {
        if i < |groups| {
          assert groups[i] in groups;
        } else {
          SingletonHoldsMember(groups, groupId, listed, newIds, i - |groups|);
        }
      }
      NobodyHome(r, c);
      HomeOfOccupied(r, c);
    }
  }

  lemma NobodyHome(groups: seq<Group>, c: string)
    requires forall i :: 0 <= i < |groups| ==> c !in groups[i].clients
    ensures HomeOf(groups, c) == Nowhere
  {
  }

  /** A new group holds one client, who was a member of the target. */
  lemma SingletonHoldsMember(groups: seq<Group>, groupId: string, listed: seq<string>, newIds: seq<string>, k: nat)
    requires Tidy(groups)
    requires |Evicted(groups, groupId, listed)| <= |newIds|
    requires k < |Evicted(groups, groupId, listed)|
    ensures Position(groups, groupId) < |groups|
    ensures forall d :: d in Rearranged(groups, groupId, listed, newIds)[|groups| + k].clients ==>
      d in groups[Position(groups, groupId)].clients && groups[Position(groups, groupId)].id == groupId
  {
    var evicted := Evicted(groups, groupId, listed);
    assert evicted[k] in evicted;
    EvictedFromTarget(groups, groupId, listed, evicted[k]);
  }

  lemma NothingListed(g: Group, groupId: string)
    requires g.id == groupId
    ensures Moved(g, groupId, [], []).clients == []
  {
    var r := Only(g.clients, []) + Arrivals([], g.clients);
    assert forall c :: c !in r;
    SomeMember(r);
  }

  lemma SomeMember(s: seq<string>)
    ensures s != [] ==> exists c :: c in s
  {
    assert s != [] ==> s[0] in s;
  }

  /** The target group itself survives exactly when somebody is listed. */
  lemma EmptyListDissolvesTarget(groups: seq<Group>, t: nat, listed: seq<string>, newIds: seq<string>)
    requires Partition(groups) && FreshIds(newIds, groups) && t < |groups|
    requires |Evicted(groups, groups[t].id, listed)| <= |newIds|
    ensures (exists g :: g in Regrouped(groups, groups[t].id, listed, newIds) && g.id == groups[t].id)
       <==> listed != []
  {
    if listed != [] {
      ListedJoinTarget(groups, t, listed, newIds, listed[0]);
    } else {
      var r := Rearranged(groups, groups[t].id, listed, newIds);
      forall i | 0 <= i < |r| && r[i].id == groups[t].id
        ensures r[i].clients == []
      {
        if i < |groups| {
          NothingListed(groups[i], groups[t].id);
        }
      }
    }
  }

  // ----- One client at a time, as the program moves them -----

  ghost predicate InTarget(groups: seq<Group>, groupId: string, c: string) {
    exists g :: g in groups && g.id == groupId && c in g.clients
  }

  function AddTo(groups: seq<Group>, groupId: string, c: string): seq<Group> {
    var t := Position(groups, groupId);
    if t < |groups| then groups[t := groups[t].(clients := groups[t].clients + [c])] else groups
  }

  ghost function MovedOne(groups: seq<Group>, groupId: string, c: string): seq<Group> {
    if InTarget(groups, groupId, c) then groups else AddTo(Stripped(groups, c), groupId, c)
  }

  /** The state of the list once the unlisted members are out and a first part of
      the listed clients has been moved. */
  function Halfway(groups: seq<Group>, groupId: string, listed: seq<string>, done: seq<string>, singles: seq<Group>):
    seq<Group>
  {
    MovedAll(groups, groupId, listed, done) + singles
  }

  /** Groups that moving the listed clients into the target does not concern. */
  ghost predicate Bystanders(singles: seq<Group>, groupId: string, listed: seq<string>) {
    forall g :: g in singles ==> g.id != groupId && forall c :: c in g.clients ==> c !in listed
  }

  /** What moving one more client does to a single group. */
  lemma MovedOnce(g: Group, groupId: string, listed: seq<string>, done: seq<string>, c: string)
    requires c in listed
    ensures var now, next := Moved(g, groupId, listed, done), Moved(g, groupId, listed, done + [c]);
            && (g.id != groupId ==> next == now.(clients := Without(now.clients, c)))
            && (g.id == groupId ==> (c in now.clients <==> c in g.clients || c in done))
            && (g.id == groupId && c in now.clients ==> next == now)
            && (g.id == groupId && c !in now.clients ==> next == now.(clients := now.clients + [c]))
  {
    assert (done + [c])[..|done + [c]| - 1] == done;
    if g.id == groupId {
      var now := Moved(g, groupId, listed, done);
      if c !in now.clients {
        assert Only(g.clients, listed) + (Arrivals(done, g.clients) + [c]) == now.clients + [c];
      }
    } else {
      MinusTwice(g.clients, done, c);
    }
  }

  lemma StruckOff(g: Group, c: string)
    requires c !in g.clients
    ensures g.(clients := Without(g.clients, c)) == g
  {
    MinusSame(g.clients, [c]);
  }

  /** The groups made for the evicted clients are bystanders. */
  lemma SingletonsStandBy(groups: seq<Group>, groupId: string, listed: seq<string>, newIds: seq<string>)
    requires Partition(groups) && FreshIds(newIds, groups)
    requires |Evicted(groups, groupId, listed)| <= |newIds|
    ensures Bystanders(NewGroups(groups, groupId, listed, newIds), groupId, listed)
  {
    var evicted := Evicted(groups, groupId, listed);
    var singles := NewGroups(groups, groupId, listed, newIds);
    forall g | g in singles
      ensures g.id != groupId && forall c :: c in g.clients ==> c !in listed
    {
      var k :| 0 <= k < |singles| && singles[k] == g;
      assert evicted[k] in evicted;
    }
  }

  /** Only the target's index carries the target's id, at every stage. */
  lemma IdsStay(groups: seq<Group>, groupId: string, listed: seq<string>, done: seq<string>, singles: seq<Group>)
    requires Tidy(groups) && Bystanders(singles, groupId, listed)
    ensures var now := Halfway(groups, groupId, listed, done, singles);
            var t := Position(groups, groupId);
            forall i :: 0 <= i < |now| ==> (now[i].id == groupId <==> t < |groups| && i == t)
  {
    var t := Position(groups, groupId);
    var now := Halfway(groups, groupId, listed, done, singles);
    forall i | 0 <= i < |now|
      ensures now[i].id == groupId <==> t < |groups| && i == t
    {
      if i < |groups| {
        assert t < i ==> Apart(groups[t], groups[i]);
      } else {
        assert now[i] in singles;
      }
    }
  }

  lemma PositionAt(groups: seq<Group>, groupId: string, t: nat)
    requires forall i :: 0 <= i < |groups| ==> (groups[i].id == groupId <==> i == t)
    ensures Position(groups, groupId) == if t < |groups| then t else |groups|
  {
    assert t < |groups| ==> groups[t].id == groupId;
  }

  /** A listed client already in the target stays, and no other group changes. */
  lemma HalfwayStays(groups: seq<Group>, groupId: string, listed: seq<string>, done: seq<string>,
                     singles: seq<Group>, c: string)
    requires Tidy(groups) && Bystanders(singles, groupId, listed) && c in listed
    requires InTarget(Halfway(groups, groupId, listed, done, singles), groupId, c)
    ensures MovedAll(groups, groupId, listed, done + [c]) == MovedAll(groups, groupId, listed, done)
  {
    IdsStay(groups, groupId, listed, done, singles);
    var now := Halfway(groups, groupId, listed, done, singles);
    var t := Position(groups, groupId);
    var i :| 0 <= i < |now| && now[i].id == groupId && c in now[i].clients;
    MovedOnce(groups[t], groupId, listed, done, c);
    forall i | 0 <= i < |groups|
      ensures Moved(groups[i], groupId, listed, done + [c]) == Moved(groups[i], groupId, listed, done)
    {
      if i != t {
        MovedOnce(groups[i], groupId, listed, done, c);
        assert if i < t then Apart(groups[i], groups[t]) else Apart(groups[t], groups[i]);
        StruckOff(Moved(groups[i], groupId, listed, done), c);
      }
    }
  }

  /** The same for a client that is not in the target yet. */
  lemma MovedOver(g: Group, groupId: string, listed: seq<string>, done: seq<string>, c: string)
    requires c in listed
    requires g.id == groupId ==> c !in Moved(g, groupId, listed, done).clients
    ensures Moved(g, groupId, listed, done + [c]) == Landing(Moved(g, groupId, listed, done), groupId, c)
  {
    MovedOnce(g, groupId, listed, done, c);
    if g.id == groupId {
      StruckOff(Moved(g, groupId, listed, done), c);
    }
  }

  /** A group after the client is struck off and, in the target, appended. */
  function Landing(g: Group, groupId: string, c: string): Group {
    if g.id == groupId then g.(clients := Without(g.clients, c) + [c])
    else g.(clients := Without(g.clients, c))
  }

  lemma AddToIs(groups: seq<Group>, groupId: string, c: string, t: nat)
    requires forall i :: 0 <= i < |groups| ==> (groups[i].id == groupId <==> i == t)
    ensures AddTo(Stripped(groups, c), groupId, c)
      == seq(|groups|, i requires 0 <= i < |groups| => Landing(groups[i], groupId, c))
  {
    PositionAt(Stripped(groups, c), groupId, t);
  }

  lemma NotInTargetAt(groups: seq<Group>, groupId: string, c: string, i: nat)
    requires !InTarget(groups, groupId, c) && i < |groups|
    ensures groups[i].id == groupId ==> c !in groups[i].clients
  {
    assert groups[i] in groups;
  }

  /** The move seen at one index, in both halves of the list. */
  lemma LandingAt(groups: seq<Group>, groupId: string, listed: seq<string>, done: seq<string>,
                  singles: seq<Group>, c: string, i: nat)
    requires Tidy(groups) && Bystanders(singles, groupId, listed) && c in listed
    requires i < |Halfway(groups, groupId, listed, done, singles)|
    requires !InTarget(Halfway(groups, groupId, listed, done, singles), groupId, c)
    ensures Halfway(groups, groupId, listed, done + [c], singles)[i]
      == Landing(Halfway(groups, groupId, listed, done, singles)[i], groupId, c)
  {
    if i < |groups| {
      NotInTargetAt(Halfway(groups, groupId, listed, done, singles), groupId, c, i);
      MovedOver(groups[i], groupId, listed, done, c);
    } else {
      assert singles[i - |groups|] in singles;
      StruckOff(singles[i - |groups|], c);
    }
  }

  /** A listed client that is not in the target leaves every list and joins it. */
  lemma HalfwayMoves(groups: seq<Group>, groupId: string, listed: seq<string>, done: seq<string>,
                     singles: seq<Group>, c: string)
    requires Tidy(groups) && Bystanders(singles, groupId, listed) && c in listed
    requires !InTarget(Halfway(groups, groupId, listed, done, singles), groupId, c)
    ensures AddTo(Stripped(Halfway(groups, groupId, listed, done, singles), c), groupId, c)
      == Halfway(groups, groupId, listed, done + [c], singles)
  {
    var now := Halfway(groups, groupId, listed, done, singles);
    var next := Halfway(groups, groupId, listed, done + [c], singles);
    var t := Position(groups, groupId);
    forall i | 0 <= i < |now|
      ensures next[i] == Landing(now[i], groupId, c)
    {
      LandingAt(groups, groupId, listed, done, singles, c, i);
    }
    IdsStay(groups, groupId, listed, done, singles);
    AddToIs(now, groupId, c, if t < |groups| then t else |now|);
  }

  /** Moving the next client takes the list from one stage to the next. */
  lemma HalfwayStep(groups: seq<Group>, groupId: string, listed: seq<string>, i: nat, singles: seq<Group>)
    requires Tidy(groups) && Bystanders(singles, groupId, listed) && i < |listed|
    ensures MovedOne(Halfway(groups, groupId, listed, listed[..i], singles), groupId, listed[i])
      == Halfway(groups, groupId, listed, listed[..i + 1], singles)
  {
    assert listed[..i] + [listed[i]] == listed[..i + 1];
    if InTarget(Halfway(groups, groupId, listed, listed[..i], singles), groupId, listed[i]) {
      HalfwayStays(groups, groupId, listed, listed[..i], singles, listed[i]);
    } else {
      HalfwayMoves(groups, groupId, listed, listed[..i], singles, listed[i]);
    }
  }

  lemma NobodyMovedYet(groups: seq<Group>, groupId: string, listed: seq<string>)
    requires Partition(groups)
    ensures var t := Position(groups, groupId);
            MovedAll(groups, groupId, listed, [])
            == if t < |groups| then groups[t := groups[t].(clients := Only(groups[t].clients, listed))] else groups
  {
    var t := Position(groups, groupId);
    var r := MovedAll(groups, groupId, listed, []);
    forall i | 0 <= i < |groups|
      ensures r[i] == if i == t then groups[i].(clients := Only(groups[i].clients, listed)) else groups[i]
    {
      if i == t {
        assert Only(groups[i].clients, listed) + [] == Only(groups[i].clients, listed);
      } else {
        assert t < i ==> Apart(groups[t], groups[i]);
        MinusSame(groups[i].clients, []);
      }
    }
  }

  // ----- The state the server mutates -----

  /** Editing a group in place without touching its id or its members. */
  ghost predicate SameMembers(a: seq<Group>, b: seq<Group>) {
    && |a| == |b|
    && forall i :: 0 <= i < |a| ==> a[i].id == b[i].id && a[i].clients == b[i].clients
  }

  lemma SameMembersSamePartition(a: seq<Group>, b: seq<Group>)
    requires SameMembers(a, b) && Partition(a)
    ensures Partition(b)
  {
    forall i, j | 0 <= i < j < |b|
      ensures Apart(b[i], b[j])
    {
      assert Apart(a[i], a[j]);
    }
  }

  function Connecting(clients: map<string, Client>, id: string, hostName: string, mac: string): map<string, Client> {
    clients[id := if id in clients then clients[id].(hostName := hostName, mac := mac)
                  else Client(id, hostName, mac, false, DefaultConfig())]
  }

  function WithStream(groups: seq<Group>, groupId: string, streamId: string): seq<Group> {
    var t := Position(groups, groupId);
    if t < |groups| then groups[t := groups[t].(streamId := streamId)] else groups
  }

  class ServerState {
    var clients: map<string, Client>
    var groups: seq<Group>
    var streams: seq<StreamInfo>

    constructor (streams: seq<StreamInfo>)
      ensures clients == map[] && groups == [] && this.streams == streams
      ensures Partition(groups)
    {
      clients, groups, this.streams := map[], [], streams;
    }

    method GetOrCreateClient(id: string, hostName: string, mac: string)
      modifies this`clients
      ensures clients == Connecting(old(clients), id, hostName, mac)
    {
      if id !in clients {
        clients := clients[id := Client(id, hostName, mac, false, DefaultConfig())];
      } else {
        clients := clients[id := clients[id].(hostName := hostName, mac := mac)];
      }
    }

    method GroupForClient(client: string, defaultStream: string, newId: string) returns (index: nat)
      modifies this`groups
      ensures groups == Joined(old(groups), client, defaultStream, newId)
      ensures index < |groups| && client in groups[index].clients
      ensures forall i :: 0 <= i < index ==> client !in groups[i].clients
    {
      index := 0;
      while index < |groups| && client !in groups[index].clients
        invariant 0 <= index <= |groups|
        invariant forall i :: 0 <= i < index ==> client !in groups[i].clients
      {
        index := index + 1;
      }
      if index < |groups| {
        HomeIsFirst(groups, index, client);
      } else {
        assert forall g :: g in groups ==> client !in g.clients;
        groups := groups + [Singleton(newId, defaultStream, client)];
      }
    }

    /** Strikes one client off every list. */
    method Strike(client: string)
      modifies this`groups
      ensures groups == Stripped(old(groups), client)
    {
      ghost var before := groups;
      for i := 0 to |groups|
        invariant |groups| == |before|
        invariant forall k :: 0 <= k < i ==> groups[k] == Stripped(before, client)[k]
        invariant forall k :: i <= k < |groups| ==> groups[k] == before[k]
      {
        groups := groups[i := groups[i].(clients := Without(groups[i].clients, client))];
      }
      assert groups == Stripped(before, client);
    }

    method RemoveClientFromGroups(client: string)
      modifies this`groups
      ensures groups == Removed(old(groups), client)
    {
      Strike(client);
      groups := Occupied(groups);
    }

    method AddSingletons(newIds: seq<string>, streamId: string, evicted: seq<string>)
      requires |evicted| <= |newIds|
      modifies this`groups
      ensures groups == old(groups) + Singletons(newIds, streamId, evicted)
    {
      ghost var before := groups;
      ghost var singles := Singletons(newIds, streamId, evicted);
      for k := 0 to |evicted|
        invariant groups == before + singles[..k]
      {
        groups := groups + [Singleton(newIds[k], streamId, evicted[k])];
        assert singles[..k + 1] == singles[..k] + [singles[k]];
      }
      assert singles[..|evicted|] == singles;
    }

    /** Puts every unlisted member of the target into a new group of its own. */
    method Evict(groupId: string, listed: seq<string>, newIds: seq<string>)
      requires Partition(groups) && FreshIds(newIds, groups)
      requires |Evicted(groups, groupId, listed)| <= |newIds|
      modifies this`groups
      ensures groups == Halfway(old(groups), groupId, listed, [], NewGroups(old(groups), groupId, listed, newIds))
    {
      NobodyMovedYet(groups, groupId, listed);
      var t := Position(groups, groupId);
      if t < |groups| {
        var streamId := groups[t].streamId;
        var evicted := Minus(groups[t].clients, listed);
        groups := groups[t := groups[t].(clients := Only(groups[t].clients, listed))];
        AddSingletons(newIds, streamId, evicted);
      }
    }

    /** Moves one listed client, unless the target has it. */
    method MoveTo(groupId: string, client: string)
      modifies this`groups
      ensures groups == MovedOne(old(groups), groupId, client)
    {
      if exists g :: g in groups && g.id == groupId && client in g.clients {
        return;
      }
      Strike(client);
      var t := Position(groups, groupId);
      if t < |groups| {
        groups := groups[t := groups[t].(clients := groups[t].clients + [client])];
      }
    }

    /** Moves the listed clients one after the other. */
    method MoveAll(groupId: string, listed: seq<string>, ghost before: seq<Group>, ghost singles: seq<Group>)
      requires Tidy(before) && Bystanders(singles, groupId, listed)
      requires groups == Halfway(before, groupId, listed, [], singles)
      modifies this`groups
      ensures groups == Halfway(before, groupId, listed, listed, singles)
    {
      for i := 0 to |listed|
        invariant groups == Halfway(before, groupId, listed, listed[..i], singles)
      {
        HalfwayStep(before, groupId, listed, i, singles);
        MoveTo(groupId, listed[i]);
      }
      assert listed[..|listed|] == listed;
    }

    /** Moving the clients one at a time amounts to the rearrangement in one go. */
    method SetGroupClients(groupId: string, listed: seq<string>, newIds: seq<string>)
      requires Partition(groups) && FreshIds(newIds, groups)
      requires |Evicted(groups, groupId, listed)| <= |newIds|
      modifies this`groups
      ensures groups == Regrouped(old(groups), groupId, listed, newIds)
      ensures Partition(groups)
    {
      ghost var before := groups;
      RegroupedIsPartition(before, groupId, listed, newIds);
      SingletonsStandBy(before, groupId, listed, newIds);
      Evict(groupId, listed, newIds);
      MoveAll(groupId, listed, before, NewGroups(before, groupId, listed, newIds));
      groups := Occupied(groups);
    }

    method SetGroupStream(groupId: string, streamId: string)
      modifies this`groups
      ensures groups == WithStream(old(groups), groupId, streamId)
      ensures Partition(old(groups)) ==> Partition(groups)
    {
      var t := Position(groups, groupId);
      if t < |groups| {
        groups := groups[t := groups[t].(streamId := streamId)];
        if Partition(old(groups)) {
          SameMembersSamePartition(old(groups), groups);
        }
      }
    }
  }
}
