/** Commands, connections and the routing values cached for every session
    (crates/snapcast-server/src/command.rs, session.rs). */
module Routing {
  import opened Groups

  datatype SessionRouting = SessionRouting(streamId: string, clientMuted: bool, groupMuted: bool)

  /** Server state, and for every registered session the value last published on
      its routing channel. */
  datatype World = World(clients: map<string, Client>, groups: seq<Group>, streams: seq<StreamInfo>,
                         routes: map<string, SessionRouting>, defaultStream: string)

  datatype Event =
    | SetClientVolume(client: string, percent: nat, muted: bool)
    | SetClientLatency(client: string, latency: int)
    | SetClientName(client: string, name: string)
    | SetGroupStream(group: string, streamId: string)
    | SetGroupMute(group: string, muted: bool)
    | SetGroupName(group: string, name: string)
    | SetGroupClients(group: string, listed: seq<string>, newIds: seq<string>)
    | DeleteClient(client: string)
    | SetStreamMeta(streamId: string, metadata: Metadata)
    | RemoveStream(streamId: string)
    | Connect(client: string, hostName: string, mac: string, newId: string)
    | Disconnect(client: string)
    | ClientInfo(client: string, percent: nat, muted: bool)

  function IsMuted(clients: map<string, Client>, c: string): bool {
    c in clients && clients[c].config.volume.muted
  }

  /** The routing a client should have, given a group that lists it. */
  function RoutingIn(clients: map<string, Client>, g: Group, c: string): SessionRouting {
    SessionRouting(g.streamId, IsMuted(clients, c), g.muted)
  }

  /** What a push leaves on a session's channel: clients without a group keep the
      value they had. */
  function Refresh(clients: map<string, Client>, groups: seq<Group>, c: string, was: SessionRouting): SessionRouting {
    if HomeOf(groups, c).In? then RoutingIn(clients, HomeOf(groups, c).group, c) else was
  }

  function Refreshed(clients: map<string, Client>, groups: seq<Group>, routes: map<string, SessionRouting>,
                     ids: seq<string>): map<string, SessionRouting>
  {
    map c | c in routes :: if c in ids then Refresh(clients, groups, c, routes[c]) else routes[c]
  }

  function Members(groups: seq<Group>): (r: seq<string>)
    ensures forall c :: c in r <==> HomeOf(groups, c).In?
  {
    if groups == [] then [] else groups[0].clients + Members(groups[1..])
  }

  function PushedAll(w: World): World {
    w.(routes := Refreshed(w.clients, w.groups, w.routes, Members(w.groups)))
  }

  function PushedGroup(w: World, group: string): World {
    var t := Position(w.groups, group);
    if t < |w.groups| then w.(routes := Refreshed(w.clients, w.groups, w.routes, w.groups[t].clients)) else w
  }

  function PushedOne(w: World, client: string): World {
    w.(routes := Refreshed(w.clients, w.groups, w.routes, [client]))
  }

  // ----- One event -----

  function WithConfig(clients: map<string, Client>, c: string, config: ClientConfig): map<string, Client> {
    if c in clients then clients[c := clients[c].(config := config)] else clients
  }

  function WithVolume(clients: map<string, Client>, c: string, percent: nat, muted: bool): map<string, Client> {
    if c in clients then WithConfig(clients, c, clients[c].config.(volume := Volume(percent, muted))) else clients
  }

  function WithConnected(clients: map<string, Client>, c: string, connected: bool): map<string, Client> {
    if c in clients then clients[c := clients[c].(connected := connected)] else clients
  }

  function WithMute(groups: seq<Group>, group: string, muted: bool): seq<Group> {
    var t := Position(groups, group);
    if t < |groups| then groups[t := groups[t].(muted := muted)] else groups
  }

  function WithName(groups: seq<Group>, group: string, name: string): seq<Group> {
    var t := Position(groups, group);
    if t < |groups| then groups[t := groups[t].(name := name)] else groups
  }

  function ClearedGroup(g: Group, streamId: string): Group {
    if g.streamId == streamId then g.(streamId := "") else g
  }

  function Cleared(groups: seq<Group>, streamId: string): (r: seq<Group>)
    ensures SameMembers(groups, r)
    ensures forall i :: 0 <= i < |r| ==> r[i] == ClearedGroup(groups[i], streamId)
  {
    seq(|groups|, i requires 0 <= i < |groups| => ClearedGroup(groups[i], streamId))
  }

  /** Index of the first stream with this id, or the number of streams. */
  function StreamAt(streams: seq<StreamInfo>, id: string): (k: nat)
    ensures k <= |streams|
    ensures k < |streams| ==> streams[k].id == id
  {
    if streams == [] || streams[0].id == id then 0 else StreamAt(streams[1..], id) + 1
  }

  function WithMeta(streams: seq<StreamInfo>, id: string, metadata: Metadata): seq<StreamInfo> {
    var t := StreamAt(streams, id);
    if t < |streams| then streams[t := streams[t].(properties := metadata)] else streams
  }

  function StreamsWithout(streams: seq<StreamInfo>, id: string): (r: seq<StreamInfo>)
    ensures forall s :: s in r <==> s in streams && s.id != id
  {
    if streams == [] then []
    else if streams[0].id == id then StreamsWithout(streams[1..], id)
    else [streams[0]] + StreamsWithout(streams[1..], id)
  }

  /** Connecting: the client is known and marked connected, it has a group, and
      its session is registered with the routing that follows from both. */
  function Joining(w: World, c: string, hostName: string, mac: string, newId: string): World {
    var clients := WithConnected(Connecting(w.clients, c, hostName, mac), c, true);
    var groups := Joined(w.groups, c, w.defaultStream, newId);
    JoinedHasHome(w.groups, c, w.defaultStream, newId);
    w.(clients := clients, groups := groups,
       routes := w.routes[c := RoutingIn(clients, HomeOf(groups, c).group, c)])
  }

  lemma JoinedHasHome(groups: seq<Group>, client: string, streamId: string, newId: string)
    ensures HomeOf(Joined(groups, client, streamId, newId), client).In?
  {
    HomeOfAppend(groups, [Singleton(newId, streamId, client)], client);
  }

  /** Ids handed out for new groups are fresh, and there are enough of them. */
  ghost predicate Legal(w: World, e: Event) {
    match e
    case SetGroupClients(group, listed, newIds) =>
      FreshIds(newIds, w.groups) && |Evicted(w.groups, group, listed)| <= |newIds|
    case Connect(_, _, _, newId) => FreshIds([newId], w.groups)
    case _ => true
  }

  ghost function Step(w: World, e: Event): World
    requires Legal(w, e)
  {
    match e
    case SetClientVolume(c, percent, muted) =>
      PushedOne(w.(clients := WithVolume(w.clients, c, percent, muted)), c)
    case SetClientLatency(c, latency) =>
      if c in w.clients then w.(clients := WithConfig(w.clients, c, w.clients[c].config.(latency := latency))) else w
    case SetClientName(c, name) =>
      if c in w.clients then w.(clients := WithConfig(w.clients, c, w.clients[c].config.(name := name))) else w
    case SetGroupStream(group, streamId) =>
      PushedGroup(w.(groups := WithStream(w.groups, group, streamId)), group)
    case SetGroupMute(group, muted) =>
      PushedGroup(w.(groups := WithMute(w.groups, group, muted)), group)
    case SetGroupName(group, name) =>
      w.(groups := WithName(w.groups, group, name))
    case SetGroupClients(group, listed, newIds) =>
      PushedAll(w.(groups := Regrouped(w.groups, group, listed, newIds)))
    case DeleteClient(c) =>
      PushedAll(w.(groups := Removed(w.groups, c), clients := w.clients - {c}))
    case SetStreamMeta(streamId, metadata) =>
      w.(streams := WithMeta(w.streams, streamId, metadata))
    case RemoveStream(streamId) =>
      PushedAll(w.(streams := StreamsWithout(w.streams, streamId), groups := Cleared(w.groups, streamId)))
    case Connect(c, hostName, mac, newId) =>
      Joining(w, c, hostName, mac, newId)
    case Disconnect(c) =>
      w.(routes := w.routes - {c}, clients := WithConnected(w.clients, c, false))
    case ClientInfo(c, percent, muted) =>
      w.(clients := WithVolume(w.clients, c, percent, muted))
  }

  // ----- What holds in every reachable state -----

  ghost predicate StreamAgrees(w: World, c: string) {
    c in w.routes && HomeOf(w.groups, c).In? ==>
      && w.routes[c].streamId == HomeOf(w.groups, c).group.streamId
      && w.routes[c].groupMuted == HomeOf(w.groups, c).group.muted
  }

  ghost predicate MuteAgrees(w: World, c: string) {
    c in w.routes && HomeOf(w.groups, c).In? ==> w.routes[c].clientMuted == IsMuted(w.clients, c)
  }

  /** Every registered session whose client has a group holds that group's stream
      and mute flag, and the groups partition the clients. */
  ghost predicate Consistent(w: World) {
    Partition(w.groups) && forall c :: StreamAgrees(w, c)
  }

  ghost predicate MutesAgree(w: World) {
    forall c :: MuteAgrees(w, c)
  }

  /** After a push to everybody both kinds of agreement hold, whatever was cached. */
  lemma PushedAllAgrees(w: World)
    ensures forall c :: StreamAgrees(PushedAll(w), c) && MuteAgrees(PushedAll(w), c)
  {
  }

  lemma PushedOneAgrees(w: World, c: string, d: string)
    ensures StreamAgrees(w, d) || d == c ==> StreamAgrees(PushedOne(w, c), d)
    ensures MuteAgrees(w, d) || d == c ==> MuteAgrees(PushedOne(w, c), d)
  {
  }

  /** Editing one group changes the home of its members and of nobody else. */
  lemma HomeAfterEdit(groups: seq<Group>, t: nat, g: Group, c: string)
    requires Partition(groups) && t < |groups|
    requires g.id == groups[t].id && g.clients == groups[t].clients
    ensures Partition(groups[t := g])
    ensures HomeOf(groups[t := g], c) == if c in g.clients then In(g) else HomeOf(groups, c)
  {
    SameMembersSamePartition(groups, groups[t := g]);
    if c in g.clients {
      HomeIsUnique(groups[t := g], t, c);
    } else if HomeOf(groups, c).In? {
      var i :| 0 <= i < |groups| && groups[i] == HomeOf(groups, c).group;
      HomeIsUnique(groups[t := g], i, c);
    } else {
      NobodyHome(groups[t := g], c);
    }
  }

  /** Editing a group and pushing to its members keeps every session in step. */
  lemma EditedGroupAgrees(w: World, group: string, g: Group)
    requires Consistent(w)
    requires var t := Position(w.groups, group);
             t < |w.groups| && g.id == w.groups[t].id && g.clients == w.groups[t].clients
    ensures var t := Position(w.groups, group);
            var next := PushedGroup(w.(groups := w.groups[t := g]), group);
            Consistent(next) && forall c :: MuteAgrees(w, c) ==> MuteAgrees(next, c)
  {
    var t := Position(w.groups, group);
    var edited := w.(groups := w.groups[t := g]);
    var next := PushedGroup(edited, group);
    HomeAfterEdit(w.groups, t, g, "");
    PositionIsUnique(edited.groups, t);
    forall c
      ensures StreamAgrees(next, c) && (MuteAgrees(w, c) ==> MuteAgrees(next, c))
    {
      HomeAfterEdit(w.groups, t, g, c);
      assert StreamAgrees(w, c);
    }
  }

  /** A change of client records that mutes and unmutes nobody is invisible to the
      sessions, and so is a group's new name. */
  lemma QuietChange(w: World, clients: map<string, Client>, groups: seq<Group>)
    requires Consistent(w) && Partition(groups)
    requires forall c :: IsMuted(clients, c) == IsMuted(w.clients, c)
    requires forall c :: SameSeat(HomeOf(w.groups, c), HomeOf(groups, c))
    ensures var next := w.(clients := clients, groups := groups);
            Consistent(next) && (MutesAgree(w) <==> MutesAgree(next))
  {
    var next := w.(clients := clients, groups := groups);
    forall c
      ensures StreamAgrees(next, c) && (MuteAgrees(w, c) <==> MuteAgrees(next, c))
    {
      assert StreamAgrees(w, c) && SameSeat(HomeOf(w.groups, c), HomeOf(groups, c));
    }
  }

  ghost predicate SameSeat(a: Home, b: Home) {
    a.In? == b.In? && (a.In? ==> a.group.streamId == b.group.streamId && a.group.muted == b.group.muted)
  }

  lemma RenameKeepsSeats(groups: seq<Group>, group: string, name: string)
    requires Partition(groups)
    ensures Partition(WithName(groups, group, name))
    ensures forall c :: SameSeat(HomeOf(groups, c), HomeOf(WithName(groups, group, name), c))
  {
    var t := Position(groups, group);
    if t < |groups| {
      HomeAfterEdit(groups, t, groups[t].(name := name), "");
      forall c
        ensures SameSeat(HomeOf(groups, c), HomeOf(WithName(groups, group, name), c))
      {
        HomeAfterEdit(groups, t, groups[t].(name := name), c);
        if c in groups[t].clients {
          HomeIsUnique(groups, t, c);
        }
      }
    }
  }

  /** A group command keeps the sessions in step: its push reaches the members. */
  lemma GroupCommandKeeps(w: World, e: Event)
    requires Consistent(w)
    requires e.SetGroupStream? || e.SetGroupMute? || e.SetGroupName?
    ensures Consistent(Step(w, e)) && (MutesAgree(w) ==> MutesAgree(Step(w, e)))
  {
    var t := Position(w.groups, e.group);
    if e.SetGroupName? {
      RenameKeepsSeats(w.groups, e.group, e.name);
      QuietChange(w, w.clients, WithName(w.groups, e.group, e.name));
    } else if t < |w.groups| {
      var g := if e.SetGroupStream? then w.groups[t].(streamId := e.streamId) else w.groups[t].(muted := e.muted);
      EditedGroupAgrees(w, e.group, g);
    }
  }

  /** A structural command ends with a push to everybody, which even repairs mute
      flags that had fallen behind. */
  lemma StructuralCommandHeals(w: World, e: Event)
    requires Consistent(w) && Legal(w, e)
    requires e.SetGroupClients? || e.DeleteClient? || e.RemoveStream?
    ensures Consistent(Step(w, e)) && MutesAgree(Step(w, e))
  {
    if e.SetGroupClients? {
      RegroupedIsPartition(w.groups, e.group, e.listed, e.newIds);
      PushedAllAgrees(w.(groups := Regrouped(w.groups, e.group, e.listed, e.newIds)));
    } else if e.DeleteClient? {
      RemovedPromises(w.groups, e.client);
      PushedAllAgrees(w.(groups := Removed(w.groups, e.client), clients := w.clients - {e.client}));
    } else {
      SameMembersSamePartition(w.groups, Cleared(w.groups, e.streamId));
      PushedAllAgrees(w.(streams := StreamsWithout(w.streams, e.streamId),
                         groups := Cleared(w.groups, e.streamId)));
    }
  }

  /** Volume commands push to the one client they concern. */
  lemma VolumeCommandKeeps(w: World, e: Event)
    requires Consistent(w) && e.SetClientVolume?
    ensures Consistent(Step(w, e)) && (MutesAgree(w) ==> MutesAgree(Step(w, e)))
  {
    var changed := w.(clients := WithVolume(w.clients, e.client, e.percent, e.muted));
    forall c
      ensures StreamAgrees(Step(w, e), c) && (MuteAgrees(w, c) ==> MuteAgrees(Step(w, e), c))
    {
      assert StreamAgrees(w, c);
      assert c != e.client ==> IsMuted(changed.clients, c) == IsMuted(w.clients, c);
      PushedOneAgrees(changed, e.client, c);
    }
  }

  lemma QuietCommandKeeps(w: World, e: Event)
    requires Consistent(w)
    requires e.SetClientLatency? || e.SetClientName? || e.SetStreamMeta?
    ensures Consistent(Step(w, e)) && (MutesAgree(w) <==> MutesAgree(Step(w, e)))
  {
    if !e.SetStreamMeta? {
      QuietChange(w, Step(w, e).clients, w.groups);
    } else {
      forall c
        ensures StreamAgrees(Step(w, e), c) && (MuteAgrees(w, c) <==> MuteAgrees(Step(w, e), c))
      {
        assert StreamAgrees(w, c);
      }
    }
  }

  /** Connecting registers the session with the values the state holds. */
  lemma ConnectKeeps(w: World, e: Event)
    requires Consistent(w) && Legal(w, e) && e.Connect?
    ensures Consistent(Step(w, e)) && (MutesAgree(w) ==> MutesAgree(Step(w, e)))
    ensures e.client in Step(w, e).routes && HomeOf(Step(w, e).groups, e.client).In?
  {
    JoinedPromises(w.groups, e.client, w.defaultStream, e.newId);
    JoinedHasHome(w.groups, e.client, w.defaultStream, e.newId);
    forall c
      ensures StreamAgrees(Step(w, e), c) && (MuteAgrees(w, c) ==> MuteAgrees(Step(w, e), c))
    {
      assert StreamAgrees(w, c);
    }
  }

  lemma DisconnectKeeps(w: World, e: Event)
    requires Consistent(w) && e.Disconnect?
    ensures Consistent(Step(w, e)) && (MutesAgree(w) ==> MutesAgree(Step(w, e)))
  {
    forall c
      ensures StreamAgrees(Step(w, e), c) && (MuteAgrees(w, c) ==> MuteAgrees(Step(w, e), c))
    {
      assert StreamAgrees(w, c);
    }
  }

  /** A report by a client that contradicts the mute flag its session caches. */
  ghost predicate Contradicts(w: World, e: Event) {
    && e.ClientInfo? && e.client in w.routes && e.client in w.clients && HomeOf(w.groups, e.client).In?
    && e.muted != w.routes[e.client].clientMuted
  }

  /** A client's own report never touches stream or group mute; it leaves the mute
      flags in step exactly when it does not contradict the cached one. */
  lemma ClientInfoKeeps(w: World, e: Event)
    requires Consistent(w) && e.ClientInfo?
    ensures Consistent(Step(w, e))
    ensures MutesAgree(w) ==> (MutesAgree(Step(w, e)) <==> !Contradicts(w, e))
  {
    var next := Step(w, e);
    forall c
      ensures StreamAgrees(next, c)
      ensures c != e.client ==> (MuteAgrees(next, c) <==> MuteAgrees(w, c))
    {
      assert StreamAgrees(w, c);
    }
    assert Contradicts(w, e) ==> !MuteAgrees(next, e.client);
    if !Contradicts(w, e) && MutesAgree(w) {
      assert MuteAgrees(w, e.client);
      assert MuteAgrees(next, e.client);
    }
  }

  /** Every event keeps the groups a partition and every registered session on the
      stream and group mute flag of its client's group. */
  lemma StepKeepsConsistency(w: World, e: Event)
    requires Consistent(w) && Legal(w, e)
    ensures Consistent(Step(w, e))
    ensures MutesAgree(w) ==> (MutesAgree(Step(w, e)) <==> !Contradicts(w, e))
  {
    match e
    case SetClientVolume(_, _, _) => VolumeCommandKeeps(w, e);
    case SetClientLatency(_, _) => QuietCommandKeeps(w, e);
    case SetClientName(_, _) => QuietCommandKeeps(w, e);
    case SetStreamMeta(_, _) => QuietCommandKeeps(w, e);
    case SetGroupStream(_, _) => GroupCommandKeeps(w, e);
    case SetGroupMute(_, _) => GroupCommandKeeps(w, e);
    case SetGroupName(_, _) => GroupCommandKeeps(w, e);
    case SetGroupClients(_, _, _) => StructuralCommandHeals(w, e);
    case DeleteClient(_) => StructuralCommandHeals(w, e);
    case RemoveStream(_) => StructuralCommandHeals(w, e);
    case Connect(_, _, _, _) => ConnectKeeps(w, e);
    case Disconnect(_) => DisconnectKeeps(w, e);
    case ClientInfo(_, _, _) => ClientInfoKeeps(w, e);
  }

  // ----- Which listeners have a group at all -----

  ghost predicate HasHome(groups: seq<Group>, c: string) {
    HomeOf(groups, c).In?
  }

  /** Every registered session's client is in a group. */
  ghost predicate Seated(w: World) {
    forall c :: c in w.routes ==> HasHome(w.groups, c)
  }

  /** The two commands that leave a listener without a group: its record is deleted,
      or it is listed for a group that does not exist. */
  ghost predicate Unseats(w: World, e: Event) {
    || (e.DeleteClient? && e.client in w.routes)
    || (e.SetGroupClients? && Position(w.groups, e.group) == |w.groups|
        && exists c :: c in e.listed && c in w.routes)
  }

  lemma SameMembersSameHomes(a: seq<Group>, b: seq<Group>, c: string)
    requires SameMembers(a, b)
    ensures HasHome(a, c) <==> HasHome(b, c)
  {
    if HasHome(a, c) {
      var i :| 0 <= i < |a| && a[i] == HomeOf(a, c).group;
      assert b[i] in b;
    }
    if HasHome(b, c) {
      var i :| 0 <= i < |b| && b[i] == HomeOf(b, c).group;
      assert a[i] in a;
    }
  }

  /** Regrouping unseats exactly the clients listed for an unknown group. */
  lemma RegroupingSeats(w: World, e: Event, c: string)
    requires Consistent(w) && Legal(w, e) && e.SetGroupClients? && HasHome(w.groups, c)
    ensures HasHome(Step(w, e).groups, c) <==> !(Position(w.groups, e.group) == |w.groups| && c in e.listed)
  {
    var t := Position(w.groups, e.group);
    if t < |w.groups| {
      MembershipAfterMove(w.groups, t, e.listed, e.newIds, c);
    } else {
      UnknownTargetDropsListed(w.groups, e.group, e.listed, e.newIds, c);
    }
  }

  lemma ConnectingSeats(w: World, e: Event, c: string)
    requires Consistent(w) && Legal(w, e) && e.Connect?
    ensures HasHome(Step(w, e).groups, c) <==> HasHome(w.groups, c) || c == e.client
  {
    JoinedPromises(w.groups, e.client, w.defaultStream, e.newId);
  }

  lemma DeletingUnseats(groups: seq<Group>, client: string, c: string)
    requires Partition(groups)
    ensures HasHome(Removed(groups, client), c) <==> HasHome(groups, c) && c != client
  {
    RemovedPromises(groups, client);
  }

  /** No other event gives or takes a group. */
  lemma OthersKeepSeats(w: World, e: Event, c: string)
    requires Consistent(w) && Legal(w, e)
    requires !e.SetGroupClients? && !e.DeleteClient? && !e.Connect?
    ensures HasHome(Step(w, e).groups, c) <==> HasHome(w.groups, c)
  {
    match e
    case SetGroupStream(group, streamId) => SameMembersSameHomes(w.groups, WithStream(w.groups, group, streamId), c);
    case SetGroupMute(group, muted) => SameMembersSameHomes(w.groups, WithMute(w.groups, group, muted), c);
    case SetGroupName(group, name) => SameMembersSameHomes(w.groups, WithName(w.groups, group, name), c);
    case RemoveStream(streamId) => SameMembersSameHomes(w.groups, Cleared(w.groups, streamId), c);
    case _ =>
  }

  lemma DeleteSeats(w: World, e: Event)
    requires Consistent(w) && Seated(w) && e.DeleteClient?
    ensures Seated(Step(w, e)) <==> e.client !in w.routes
  {
    forall c | c in w.routes
      ensures HasHome(Step(w, e).groups, c) <==> c != e.client
    {
      assert HasHome(w.groups, c);
      DeletingUnseats(w.groups, e.client, c);
    }
    assert e.client in w.routes ==> e.client in Step(w, e).routes;
  }

  lemma RegroupSeats(w: World, e: Event)
    requires Consistent(w) && Legal(w, e) && Seated(w) && e.SetGroupClients?
    ensures Seated(Step(w, e)) <==> !Unseats(w, e)
  {
    var unknown := Position(w.groups, e.group) == |w.groups|;
    forall c | c in w.routes
      ensures HasHome(Step(w, e).groups, c) <==> !(unknown && c in e.listed)
    {
      assert HasHome(w.groups, c);
      RegroupingSeats(w, e, c);
    }
    assert forall c :: c in w.routes <==> c in Step(w, e).routes;
  }

  lemma OtherSeats(w: World, e: Event)
    requires Consistent(w) && Legal(w, e) && Seated(w)
    requires !e.SetGroupClients? && !e.DeleteClient?
    ensures Seated(Step(w, e))
  {
    var next := Step(w, e);
    forall c | c in next.routes
      ensures HasHome(next.groups, c)
    {
      assert c in w.routes ==> HasHome(w.groups, c);
      if e.Connect? {
        ConnectingSeats(w, e, c);
      } else {
        OthersKeepSeats(w, e, c);
      }
    }
  }

  /** A listener loses its group by those two commands and by nothing else. */
  lemma StepKeepsSeats(w: World, e: Event)
    requires Consistent(w) && Legal(w, e) && Seated(w)
    ensures Seated(Step(w, e)) <==> !Unseats(w, e)
  {
    if e.SetGroupClients? {
      RegroupSeats(w, e);
    } else if e.DeleteClient? {
      DeleteSeats(w, e);
    } else {
      OtherSeats(w, e);
    }
  }

  // ----- Whole runs -----

  ghost predicate LegalRun(w: World, events: seq<Event>)
    decreases |events|
  {
    events != [] ==> Legal(w, events[0]) && LegalRun(Step(w, events[0]), events[1..])
  }

  ghost function Run(w: World, events: seq<Event>): World
    requires LegalRun(w, events)
    decreases |events|
  {
    if events == [] then w else Run(Step(w, events[0]), events[1..])
  }

  ghost predicate ContradictedIn(w: World, events: seq<Event>)
    requires LegalRun(w, events)
    decreases |events|
  {
    events != [] && (Contradicts(w, events[0]) || ContradictedIn(Step(w, events[0]), events[1..]))
  }

  ghost predicate UnseatedIn(w: World, events: seq<Event>)
    requires LegalRun(w, events)
    decreases |events|
  {
    events != [] && (Unseats(w, events[0]) || UnseatedIn(Step(w, events[0]), events[1..]))
  }

  function EmptyServer(streams: seq<StreamInfo>, defaultStream: string): World {
    World(map[], [], streams, map[], defaultStream)
  }

  lemma {:induction false} RunKeepsConsistency(w: World, events: seq<Event>)
    requires Consistent(w) && LegalRun(w, events)
    ensures Consistent(Run(w, events))
    ensures MutesAgree(w) && !ContradictedIn(w, events) ==> MutesAgree(Run(w, events))
    decreases |events|
  {
    if events != [] {
      StepKeepsConsistency(w, events[0]);
      RunKeepsConsistency(Step(w, events[0]), events[1..]);
    }
  }

  lemma {:induction false} RunKeepsSeats(w: World, events: seq<Event>)
    requires Consistent(w) && Seated(w) && LegalRun(w, events) && !UnseatedIn(w, events)
    ensures Seated(Run(w, events))
    decreases |events|
  {
    if events != [] {
      StepKeepsConsistency(w, events[0]);
      StepKeepsSeats(w, events[0]);
      RunKeepsSeats(Step(w, events[0]), events[1..]);
    }
  }

  /** From an empty server on, for any sequence of commands, connects, disconnects
      and client reports. */
  lemma ReachableIsConsistent(streams: seq<StreamInfo>, defaultStream: string, events: seq<Event>)
    requires LegalRun(EmptyServer(streams, defaultStream), events)
    ensures var w := Run(EmptyServer(streams, defaultStream), events);
            && Consistent(w)
            && (!ContradictedIn(EmptyServer(streams, defaultStream), events) ==> MutesAgree(w))
            && (!UnseatedIn(EmptyServer(streams, defaultStream), events) ==> Seated(w))
  {
    RunKeepsConsistency(EmptyServer(streams, defaultStream), events);
    if !UnseatedIn(EmptyServer(streams, defaultStream), events) {
      RunKeepsSeats(EmptyServer(streams, defaultStream), events);
    }
  }

  // ----- What a session may hear -----

  /** The session's gate for one chunk. */
  predicate ShouldSendChunk(streamId: string, routing: SessionRouting, sendAudioToMuted: bool) {
    streamId == routing.streamId && (sendAudioToMuted || !(routing.clientMuted || routing.groupMuted))
  }

  /** A session that has taken over its cached routing plays exactly what the state
      says its client should hear. */
  lemma AudibleIffState(w: World, c: string, streamId: string, sendAudioToMuted: bool)
    requires Consistent(w) && MutesAgree(w) && c in w.routes && HomeOf(w.groups, c).In?
    ensures ShouldSendChunk(streamId, w.routes[c], sendAudioToMuted)
       <==> && streamId == HomeOf(w.groups, c).group.streamId
            && (sendAudioToMuted || (!IsMuted(w.clients, c) && !HomeOf(w.groups, c).group.muted))
  {
    assert StreamAgrees(w, c) && MuteAgrees(w, c);
  }

  /** A client that mutes itself goes on being sent audio: its report reaches the
      state and not the session. */
  lemma SelfMuteIsNotHeard(w: World, c: string, percent: nat)
    requires Consistent(w) && MutesAgree(w)
    requires c in w.routes && c in w.clients && HomeOf(w.groups, c).In?
    requires !IsMuted(w.clients, c) && !HomeOf(w.groups, c).group.muted
    ensures var next := Step(w, ClientInfo(c, percent, true));
            && IsMuted(next.clients, c)
            && ShouldSendChunk(HomeOf(next.groups, c).group.streamId, next.routes[c], false)
  {
    assert StreamAgrees(w, c) && MuteAgrees(w, c);
  }
}
