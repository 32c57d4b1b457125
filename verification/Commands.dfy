/** What every command and every event of a client makes of the server's state, field by
    field (crates/snapcast-server/src/command.rs, state.rs, session.rs). */
module Commands {
  import opened Groups
  import opened Listening
  import opened Routing
  import opened Sessions

  // ----- What stays as it is -----

  /** The same clients are known, and only this one's record may differ. */
  ghost predicate OnlyClient(w: World, next: World, c: string) {
    && next.clients.Keys == w.clients.Keys
    && forall d :: d in w.clients && d != c ==> next.clients[d] == w.clients[d]
  }

  /** A client's record differs at most in its settings. */
  predicate SameClient(a: Client, b: Client) {
    a.id == b.id && a.hostName == b.hostName && a.mac == b.mac && a.connected == b.connected
  }

  ghost predicate SameRest(w: World, next: World) {
    next.streams == w.streams && next.defaultStream == w.defaultStream
  }

  /** The session of a client is told the stream and the mute flag of its group and the
      client's own mute flag. */
  ghost predicate Told(next: World, c: string) {
    && c in next.routes && HomeOf(next.groups, c).In?
    && next.routes[c].streamId == HomeOf(next.groups, c).group.streamId
    && next.routes[c].groupMuted == HomeOf(next.groups, c).group.muted
    && next.routes[c].clientMuted == (c in next.clients && next.clients[c].config.volume.muted)
  }

  /** The same sessions are registered; those of these clients are told what holds now,
      if they have a group, and the others keep what they had. */
  ghost predicate Tells(w: World, next: World, ids: iset<string>) {
    && next.routes.Keys == w.routes.Keys
    && (forall c :: c in w.routes && c in ids && HomeOf(next.groups, c).In? ==> Told(next, c))
    && (forall c :: c in w.routes && (c !in ids || HomeOf(next.groups, c).Nowhere?) ==> next.routes[c] == w.routes[c])
  }

  // ----- Commands about one client -----

  lemma VolumeCommandDoes(w: World, c: string, percent: nat, muted: bool)
    ensures var next := Step(w, Event.SetClientVolume(c, percent, muted));
            && OnlyClient(w, next, c) && SameRest(w, next) && next.groups == w.groups
            && (c in w.clients ==>
                  && SameClient(w.clients[c], next.clients[c])
                  && next.clients[c].config.volume.percent == percent && next.clients[c].config.volume.muted == muted
                  && next.clients[c].config.name == w.clients[c].config.name
                  && next.clients[c].config.latency == w.clients[c].config.latency)
            && Tells(w, next, iset{c})
  {
  }

  lemma LatencyCommandDoes(w: World, c: string, latency: int)
    ensures var next := Step(w, Event.SetClientLatency(c, latency));
            && OnlyClient(w, next, c) && SameRest(w, next) && next.groups == w.groups && next.routes == w.routes
            && (c in w.clients ==>
                  && SameClient(w.clients[c], next.clients[c])
                  && next.clients[c].config.latency == latency
                  && next.clients[c].config.name == w.clients[c].config.name
                  && next.clients[c].config.volume == w.clients[c].config.volume)
  {
  }

  lemma NameCommandDoes(w: World, c: string, name: string)
    ensures var next := Step(w, Event.SetClientName(c, name));
            && OnlyClient(w, next, c) && SameRest(w, next) && next.groups == w.groups && next.routes == w.routes
            && (c in w.clients ==>
                  && SameClient(w.clients[c], next.clients[c])
                  && next.clients[c].config.name == name
                  && next.clients[c].config.latency == w.clients[c].config.latency
                  && next.clients[c].config.volume == w.clients[c].config.volume)
  {
  }

  /** A client's own report: the record changes, nobody is told. */
  lemma ReportDoes(w: World, c: string, percent: nat, muted: bool)
    ensures var next := Step(w, Event.ClientInfo(c, percent, muted));
            && OnlyClient(w, next, c) && SameRest(w, next) && next.groups == w.groups && next.routes == w.routes
            && (c in w.clients ==>
                  && SameClient(w.clients[c], next.clients[c])
                  && next.clients[c].config.volume.percent == percent && next.clients[c].config.volume.muted == muted
                  && next.clients[c].config.name == w.clients[c].config.name
                  && next.clients[c].config.latency == w.clients[c].config.latency)
  {
  }

  // ----- Commands about one group -----

  /** The groups are the same ones with the same members; those with another id are
      untouched. */
  ghost predicate OnlyGroup(w: World, next: World, group: string) {
    && |next.groups| == |w.groups|
    && forall i :: 0 <= i < |w.groups| ==>
         && next.groups[i].id == w.groups[i].id && next.groups[i].clients == w.groups[i].clients
         && (w.groups[i].id != group ==> next.groups[i] == w.groups[i])
  }

  /** A group with this id lists the client. */
  ghost predicate ListedIn(groups: seq<Group>, group: string, c: string) {
    exists i :: 0 <= i < |groups| && groups[i].id == group && c in groups[i].clients
  }

  ghost function MembersOf(groups: seq<Group>, group: string): iset<string> {
    iset c | ListedIn(groups, group, c)
  }

  lemma TheGroup(groups: seq<Group>, group: string)
    requires Tidy(groups)
    ensures forall i :: 0 <= i < |groups| ==> (groups[i].id == group <==> i == Position(groups, group))
    ensures var t := Position(groups, group);
            forall c :: c in MembersOf(groups, group) <==> t < |groups| && c in groups[t].clients
  {
    forall i | 0 <= i < |groups| && groups[i].id == group
      ensures i == Position(groups, group)
    {
      PositionIsUnique(groups, i);
    }
  }

  lemma GroupStreamCommandDoes(w: World, group: string, streamId: string)
    requires Partition(w.groups)
    ensures var next := Step(w, Event.SetGroupStream(group, streamId));
            && OnlyGroup(w, next, group) && SameRest(w, next) && next.clients == w.clients
            && (forall i :: 0 <= i < |w.groups| && w.groups[i].id == group ==>
                  && next.groups[i].streamId == streamId
                  && next.groups[i].name == w.groups[i].name && next.groups[i].muted == w.groups[i].muted)
            && Tells(w, next, MembersOf(w.groups, group))
  {
    TheGroup(w.groups, group);
    EditTells(w, Step(w, Event.SetGroupStream(group, streamId)), group);
  }

  lemma GroupMuteCommandDoes(w: World, group: string, muted: bool)
    requires Partition(w.groups)
    ensures var next := Step(w, Event.SetGroupMute(group, muted));
            && OnlyGroup(w, next, group) && SameRest(w, next) && next.clients == w.clients
            && (forall i :: 0 <= i < |w.groups| && w.groups[i].id == group ==>
                  && next.groups[i].muted == muted
                  && next.groups[i].name == w.groups[i].name && next.groups[i].streamId == w.groups[i].streamId)
            && Tells(w, next, MembersOf(w.groups, group))
  {
    TheGroup(w.groups, group);
    EditTells(w, Step(w, Event.SetGroupMute(group, muted)), group);
  }

  lemma GroupNameCommandDoes(w: World, group: string, name: string)
    requires Partition(w.groups)
    ensures var next := Step(w, Event.SetGroupName(group, name));
            && OnlyGroup(w, next, group) && SameRest(w, next) && next.clients == w.clients && next.routes == w.routes
            && (forall i :: 0 <= i < |w.groups| && w.groups[i].id == group ==>
                  && next.groups[i].name == name
                  && next.groups[i].muted == w.groups[i].muted && next.groups[i].streamId == w.groups[i].streamId)
  {
    TheGroup(w.groups, group);
  }

  /** A push to the members of a group whose members stay the same. */
  lemma EditTells(w: World, next: World, group: string)
    requires Partition(w.groups) && OnlyGroup(w, next, group)
    requires var t := Position(w.groups, group);
             next.routes == if t < |w.groups| then Refreshed(next.clients, next.groups, w.routes, w.groups[t].clients)
                            else w.routes
    ensures Tells(w, next, MembersOf(w.groups, group))
  {
    TheGroup(w.groups, group);
  }

  // ----- Structural commands -----

  ghost const EVERYBODY: iset<string> := iset c: string | true

  /** Setting a group's members changes groups only, as module Groups describes, and tells
      everybody who has a group. */
  lemma GroupClientsCommandDoes(w: World, group: string, listed: seq<string>, newIds: seq<string>)
    requires Legal(w, Event.SetGroupClients(group, listed, newIds))
    ensures var next := Step(w, Event.SetGroupClients(group, listed, newIds));
            && next.clients == w.clients && SameRest(w, next)
            && next.groups == Regrouped(w.groups, group, listed, newIds)
            && Tells(w, next, EVERYBODY)
  {
  }

  /** A deleted client has no record and no group; the others keep both. Its session
      stays registered. */
  lemma DeleteCommandDoes(w: World, c: string)
    requires Partition(w.groups)
    ensures var next := Step(w, Event.DeleteClient(c));
            && c !in next.clients && HomeOf(next.groups, c).Nowhere?
            && next.clients.Keys == w.clients.Keys - {c}
            && (forall d :: d in w.clients && d != c ==> next.clients[d] == w.clients[d])
            && (forall d :: d != c ==> StaysAt(HomeOf(w.groups, d), HomeOf(next.groups, d), c))
            && SameRest(w, next) && Tells(w, next, EVERYBODY)
  {
    DeletedLeaves(w.groups, c);
    PushTells(w, w.(groups := Removed(w.groups, c), clients := w.clients - {c}));
  }

  lemma PushTells(w: World, changed: World)
    requires changed.routes == w.routes
    ensures Tells(w, PushedAll(changed), EVERYBODY)
  {
  }

  lemma DeletedLeaves(groups: seq<Group>, c: string)
    requires Partition(groups)
    ensures HomeOf(Removed(groups, c), c).Nowhere?
    ensures forall d :: d != c ==> StaysAt(HomeOf(groups, d), HomeOf(Removed(groups, c), d), c)
  {
    RemovedPromises(groups, c);
  }

  /** The same home as before, except that one client is no longer listed in it. */
  ghost predicate StaysAt(before: Home, after: Home, left: string) {
    && before.In? == after.In?
    && (before.In? ==>
          var a, b := before.group, after.group;
          && b.id == a.id && b.name == a.name && b.streamId == a.streamId && b.muted == a.muted
          && left !in b.clients && forall d :: d != left ==> (d in b.clients <==> d in a.clients))
  }

  /** A removed stream is gone, and no group plays it any more; groups that did are silent,
      the others are untouched. */
  lemma RemoveStreamCommandDoes(w: World, streamId: string)
    requires streamId != ""
    ensures var next := Step(w, Event.RemoveStream(streamId));
            && (forall s :: s in next.streams <==> s in w.streams && s.id != streamId)
            && |next.groups| == |w.groups|
            && (forall i :: 0 <= i < |w.groups| ==>
                  && SameGroup(w.groups[i], next.groups[i]) && next.groups[i].streamId != streamId
                  && next.groups[i].streamId == if w.groups[i].streamId == streamId then "" else w.groups[i].streamId)
            && next.clients == w.clients && next.defaultStream == w.defaultStream && Tells(w, next, EVERYBODY)
  {
  }

  /** The same group, whatever it plays. */
  predicate SameGroup(a: Group, b: Group) {
    a.id == b.id && a.name == b.name && a.muted == b.muted && a.clients == b.clients
  }

  /** The first stream with this id gets the properties; nothing else changes. */
  lemma StreamMetaCommandDoes(w: World, streamId: string, metadata: Metadata)
    ensures var next := Step(w, Event.SetStreamMeta(streamId, metadata));
            && |next.streams| == |w.streams|
            && (forall i :: 0 <= i < |w.streams| ==>
                  && next.streams[i].id == w.streams[i].id && next.streams[i].status == w.streams[i].status
                  && next.streams[i].uri == w.streams[i].uri
                  && next.streams[i].properties
                     == if FirstStream(w.streams, streamId, i) then metadata else w.streams[i].properties)
            && next == w.(streams := next.streams)
  {
    FirstStreamIs(w.streams, streamId);
  }

  predicate FirstStream(streams: seq<StreamInfo>, id: string, i: nat)
    requires i < |streams|
  {
    streams[i].id == id && forall j :: 0 <= j < i ==> streams[j].id != id
  }

  lemma {:induction false} FirstStreamIs(streams: seq<StreamInfo>, id: string)
    ensures forall i :: 0 <= i < |streams| ==> (FirstStream(streams, id, i) <==> i == StreamAt(streams, id))
  {
    if streams != [] && streams[0].id != id {
      var rest := streams[1..];
      FirstStreamIs(rest, id);
      forall i | 0 <= i < |streams|
        ensures FirstStream(streams, id, i) <==> i == StreamAt(streams, id)
      {
        if i > 0 {
          assert FirstStream(rest, id, i - 1) <==> i - 1 == StreamAt(rest, id);
          assert forall j :: 0 <= j < i - 1 ==> rest[j] == streams[j + 1];
        }
      }
    }
  }

  // ----- Coming and going -----

  /** A client that connects is known and connected; a new one gets default settings, a
      known one keeps its own and gets its host data refreshed. Its session is told what
      holds, and nobody else is touched. */
  lemma ConnectDoes(w: World, c: string, hostName: string, mac: string, newId: string)
    requires Partition(w.groups) && FreshIds([newId], w.groups)
    ensures var next := Step(w, Connect(c, hostName, mac, newId));
            && next.clients.Keys == w.clients.Keys + {c}
            && (forall d :: d in w.clients && d != c ==> next.clients[d] == w.clients[d])
            && next.clients[c].hostName == hostName && next.clients[c].mac == mac && next.clients[c].connected
            && (c in w.clients ==>
                  next.clients[c].id == w.clients[c].id && next.clients[c].config == w.clients[c].config)
            && (c !in w.clients ==>
                  && next.clients[c].id == c && next.clients[c].config.name == "" && next.clients[c].config.latency == 0
                  && next.clients[c].config.volume.percent == 100 && !next.clients[c].config.volume.muted)
            && SameRest(w, next) && Told(next, c)
            && next.routes.Keys == w.routes.Keys + {c}
            && (forall d :: d in w.routes && d != c ==> next.routes[d] == w.routes[d])
  {
    JoinedHasHome(w.groups, c, w.defaultStream, newId);
  }

  /** A client with a group stays in it; one without gets one of its own, unnamed and
      unmuted, on the default stream. Nobody else moves. */
  lemma ConnectSeats(w: World, c: string, hostName: string, mac: string, newId: string)
    requires Partition(w.groups) && FreshIds([newId], w.groups)
    ensures var home := HomeOf(Step(w, Connect(c, hostName, mac, newId)).groups, c);
            && (HomeOf(w.groups, c).In? ==> home == HomeOf(w.groups, c))
            && (HomeOf(w.groups, c).Nowhere? ==> IsNewGroup(home, newId, w.defaultStream, c))
    ensures forall d :: d != c ==> HomeOf(Step(w, Connect(c, hostName, mac, newId)).groups, d) == HomeOf(w.groups, d)
  {
    JoinedPromises(w.groups, c, w.defaultStream, newId);
  }

  /** A group of one client's own on this stream. */
  predicate IsNewGroup(home: Home, id: string, streamId: string, c: string) {
    && home.In? && home.group.id == id && home.group.name == "" && home.group.streamId == streamId
    && !home.group.muted && home.group.clients == [c]
  }

  /** Setting a group's members leaves a member that is not listed alone in a new group on
      the stream it was listening to. */
  lemma EvictedStayOnStream(groups: seq<Group>, t: nat, listed: seq<string>, newIds: seq<string>, c: string)
    returns (k: nat)
    requires Partition(groups) && FreshIds(newIds, groups) && t < |groups|
    requires |Evicted(groups, groups[t].id, listed)| <= |newIds|
    requires c in groups[t].clients && c !in listed
    ensures k < |newIds|
    ensures IsNewGroup(HomeOf(Regrouped(groups, groups[t].id, listed, newIds), c), newIds[k], groups[t].streamId, c)
  {
    UnlistedAreEvicted(groups, t, listed, newIds, c);
    k :| 0 <= k < |newIds|
         && HomeOf(Regrouped(groups, groups[t].id, listed, newIds), c)
            == In(Group(newIds[k], "", groups[t].streamId, false, [c]));
  }

  lemma DisconnectDoes(w: World, c: string)
    ensures var next := Step(w, Disconnect(c));
            && OnlyClient(w, next, c) && SameRest(w, next) && next.groups == w.groups
            && (c in w.clients ==>
                  && !next.clients[c].connected && next.clients[c].id == w.clients[c].id
                  && next.clients[c].hostName == w.clients[c].hostName && next.clients[c].mac == w.clients[c].mac
                  && next.clients[c].config == w.clients[c].config)
            && next.routes.Keys == w.routes.Keys - {c}
            && (forall d :: d in next.routes ==> next.routes[d] == w.routes[d])
  {
  }

  // ----- What is heard of it -----

  /** A session that has taken over everything published to it. */
  ghost predicate Follows(l: Listener, c: string) {
    Tracks(l, c) && l.started && !l.session.pending
  }

  /** The session after a server event, once it has looked at its channel. */
  ghost function Afterwards(l: Listener, e: Event, c: string): Listener
    requires Possible(l, Server(e), c) && l.started
  {
    Happen(Happen(l, Server(e), c), Loop(RoutingChanged), c)
  }

  lemma FollowsAfterwards(l: Listener, e: Event, c: string)
    requires Follows(l, c) && Possible(l, Server(e), c)
    ensures var next := Afterwards(l, e, c);
            Follows(next, c) && next.world == Step(l.world, e) && next.session.routing == next.world.routes[c]
  {
    ActKeepsTracking(l, Server(e), c);
    ActKeepsTracking(Happen(l, Server(e), c), Loop(RoutingChanged), c);
  }

  /** The frames a session writes of a broadcast chunk. */
  function Hears(l: Listener, chunk: Input, toMuted: bool): seq<Frame>
    requires chunk.Broadcast?
  {
    Written(l.session, chunk, map[], toMuted)
  }

  /** Muting a client silences it, whatever it was told before, unless muted clients are
      sent audio; unmuting it lets its group's stream through again, if the group is not
      muted itself. */
  lemma MuteSilences(l: Listener, c: string, percent: nat, muted: bool, chunk: Input, toMuted: bool)
    requires Follows(l, c) && Consistent(l.world) && chunk.Broadcast?
    requires c in l.world.clients && HomeOf(l.world.groups, c).In?
    ensures var g := HomeOf(l.world.groups, c).group;
            Hears(Afterwards(l, Event.SetClientVolume(c, percent, muted), c), chunk, toMuted)
            == if chunk.streamId == g.streamId && (toMuted || (!muted && !g.muted))
               then [Chunk(chunk.streamId, chunk.timestampUsec, chunk.data)] else []
  {
    FollowsAfterwards(l, Event.SetClientVolume(c, percent, muted), c);
    VolumeCommandDoes(l.world, c, percent, muted);
  }

  /** The same for its group, whose other commands also decide on the stream. */
  lemma GroupMuteSilences(l: Listener, c: string, group: string, muted: bool, chunk: Input, toMuted: bool)
    requires Follows(l, c) && Consistent(l.world) && chunk.Broadcast?
    requires HomeOf(l.world.groups, c).In? && HomeOf(l.world.groups, c).group.id == group
    ensures var g := HomeOf(l.world.groups, c).group;
            Hears(Afterwards(l, Event.SetGroupMute(group, muted), c), chunk, toMuted)
            == if chunk.streamId == g.streamId && (toMuted || (!IsMuted(l.world.clients, c) && !muted))
               then [Chunk(chunk.streamId, chunk.timestampUsec, chunk.data)] else []
  {
    FollowsAfterwards(l, Event.SetGroupMute(group, muted), c);
    GroupMuteCommandDoes(l.world, group, muted);
    HomeEdited(l.world.groups, Step(l.world, Event.SetGroupMute(group, muted)).groups, c);
  }

  /** A client whose group is put on another stream hears that stream and no other. */
  lemma StreamCommandIsHeard(l: Listener, c: string, group: string, streamId: string, chunk: Input, toMuted: bool)
    requires Follows(l, c) && Consistent(l.world) && chunk.Broadcast?
    requires HomeOf(l.world.groups, c).In? && HomeOf(l.world.groups, c).group.id == group
    ensures var g := HomeOf(l.world.groups, c).group;
            Hears(Afterwards(l, Event.SetGroupStream(group, streamId), c), chunk, toMuted)
            == if chunk.streamId == streamId && (toMuted || (!IsMuted(l.world.clients, c) && !g.muted))
               then [Chunk(chunk.streamId, chunk.timestampUsec, chunk.data)] else []
  {
    FollowsAfterwards(l, Event.SetGroupStream(group, streamId), c);
    GroupStreamCommandDoes(l.world, group, streamId);
    HomeEdited(l.world.groups, Step(l.world, Event.SetGroupStream(group, streamId)).groups, c);
  }

  /** A home after its group was edited, its id and its members kept. */
  lemma HomeEdited(groups: seq<Group>, next: seq<Group>, c: string)
    requires Partition(groups) && |next| == |groups| && HomeOf(groups, c).In?
    requires forall i :: 0 <= i < |groups| ==> next[i].id == groups[i].id && next[i].clients == groups[i].clients
    ensures exists i :: 0 <= i < |groups| && HomeOf(groups, c) == In(groups[i]) && HomeOf(next, c) == In(next[i])
  {
    var i :| 0 <= i < |groups| && groups[i] == HomeOf(groups, c).group;
    SameMembersSamePartition(groups, next);
    HomeIsUnique(next, i, c);
  }

  /** A client new to the server hears the default stream as soon as its session's loop
      has begun, and nothing else. */
  lemma NewcomerHearsDefault(w: World, connect: Event, chunk: Input, toMuted: bool)
    requires Consistent(w) && Legal(w, connect) && connect.Connect? && chunk.Broadcast?
    requires connect.client !in w.clients && HomeOf(w.groups, connect.client).Nowhere?
    ensures var l := Happen(Connected(w, connect), Begin, connect.client);
            Hears(l, chunk, toMuted)
            == if chunk.streamId == w.defaultStream
               then [Chunk(chunk.streamId, chunk.timestampUsec, chunk.data)] else []
  {
    ConnectDoes(w, connect.client, connect.hostName, connect.mac, connect.newId);
    ConnectSeats(w, connect.client, connect.hostName, connect.mac, connect.newId);
  }

  // ----- Order -----

  /** The lists of clients, groups and streams keep their order when some are taken out:
      whoever comes last in what is left came last before. */
  lemma {:induction false} ClientsKeepOrder(s: seq<string>, x: string, listed: seq<string>)
    ensures Only(s + [x], listed) == Only(s, listed) + if x in listed then [x] else []
  {
    if s == [] {
      assert s + [x] == [x] && [x][1..] == [];
    } else {
      assert (s + [x])[1..] == s[1..] + [x];
      ClientsKeepOrder(s[1..], x, listed);
    }
  }

  lemma {:induction false} OthersKeepOrder(s: seq<string>, x: string, listed: seq<string>)
    ensures Minus(s + [x], listed) == Minus(s, listed) + if x in listed then [] else [x]
  {
    if s == [] {
      assert s + [x] == [x] && [x][1..] == [];
    } else {
      assert (s + [x])[1..] == s[1..] + [x];
      OthersKeepOrder(s[1..], x, listed);
    }
  }

  lemma {:induction false} GroupsKeepOrder(groups: seq<Group>, g: Group)
    ensures Occupied(groups + [g]) == Occupied(groups) + if g.clients != [] then [g] else []
  {
    if groups == [] {
      assert groups + [g] == [g] && [g][1..] == [];
    } else {
      assert (groups + [g])[1..] == groups[1..] + [g];
      GroupsKeepOrder(groups[1..], g);
    }
  }

  lemma {:induction false} StreamsKeepOrder(streams: seq<StreamInfo>, x: StreamInfo, id: string)
    ensures StreamsWithout(streams + [x], id) == StreamsWithout(streams, id) + if x.id == id then [] else [x]
  {
    if streams == [] {
      assert streams + [x] == [x] && [x][1..] == [];
    } else {
      assert (streams + [x])[1..] == streams[1..] + [x];
      StreamsKeepOrder(streams[1..], x, id);
    }
  }

  /** New members come in the order of the list, each once, behind those who stay; the
      groups of the evicted come behind all others. */
  lemma NewcomersComeLast(groups: seq<Group>, groupId: string, listed: seq<string>, newIds: seq<string>,
                          members: seq<string>, x: string)
    requires |Evicted(groups, groupId, listed)| <= |newIds|
    ensures Arrivals(listed + [x], members)
         == Arrivals(listed, members) + if x in members || x in listed then [] else [x]
    ensures var r := Rearranged(groups, groupId, listed, newIds);
            |r| >= |groups| && forall i :: 0 <= i < |groups| ==>
              && r[i].id == groups[i].id && r[i].name == groups[i].name
              && r[i].streamId == groups[i].streamId && r[i].muted == groups[i].muted
  {
    assert (listed + [x])[..|listed|] == listed;
  }
}
