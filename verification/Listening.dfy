/** The server and one of its sessions side by side: commands change the state and
    publish routing values while the session's loop runs
    (crates/snapcast-server/src/command.rs, session.rs). */
module Listening {
  import opened Groups
  import opened Routing
  import opened Sessions

  /** The server's world, the session of one client, and whether its loop has begun. */
  datatype Listener = Listener(world: World, session: Session, started: bool)

  /** What happens next: an event at the server, the start of the loop, or one of the
      loop's own inputs. */
  datatype Act = Server(e: Event) | Begin | Loop(input: Input)

  /** Whether an event sends a value to this client's channel: a push to it, to its
      group or to everybody, as long as it has a group. */
  ghost predicate Pushes(w: World, e: Event, c: string)
    requires Legal(w, e)
  {
    var next := Step(w, e);
    && c in w.routes && HomeOf(next.groups, c).In?
    && match e
       case SetClientVolume(client, _, _) => client == c
       case SetGroupStream(group, _) => InGroup(next.groups, group, c)
       case SetGroupMute(group, _) => InGroup(next.groups, group, c)
       case SetGroupClients(_, _, _) => true
       case DeleteClient(_) => true
       case RemoveStream(_) => true
       case _ => false
  }

  predicate InGroup(groups: seq<Group>, group: string, c: string) {
    var t := Position(groups, group);
    t < |groups| && c in groups[t].clients
  }

  /** The session stays the same one: it is neither registered anew nor removed. */
  predicate KeepsSession(e: Event, c: string) {
    (e.Connect? || e.Disconnect?) ==> e.client != c
  }

  /** Only the loop itself takes inputs, and only once it has begun and until one ends
      it; the server does the publishing. */
  ghost predicate Possible(l: Listener, a: Act, c: string) {
    match a
    case Server(e) => Legal(l.world, e) && KeepsSession(e, c)
    case Begin => !l.started
    case Loop(input) => l.started && !input.Publish? && !input.BroadcastClosed? && !input.ReadFailed?
  }

  ghost function Happen(l: Listener, a: Act, c: string): Listener
    requires Possible(l, a, c)
  {
    match a
    case Server(e) =>
      var next := Step(l.world, e);
      l.(world := next,
         session := if Pushes(l.world, e, c) && c in next.routes
                    then Advance(l.session, Publish(next.routes[c])) else l.session)
    case Begin => l.(session := l.session.(routing := l.session.channel), started := true)
    case Loop(input) => l.(session := Advance(l.session, input))
  }

  /** The channel holds what the server caches for the session, and a loop that has
      looked at everything follows it. */
  ghost predicate Tracks(l: Listener, c: string) {
    && c in l.world.routes && l.session.channel == l.world.routes[c]
    && (l.started && !l.session.pending ==> l.session.routing == l.session.channel)
  }

  /** An event that sends nothing to a client leaves its cached value alone. */
  lemma OnlyPushesPublish(w: World, e: Event, c: string)
    requires Legal(w, e) && KeepsSession(e, c) && c in w.routes
    ensures c in Step(w, e).routes
    ensures !Pushes(w, e, c) ==> Step(w, e).routes[c] == w.routes[c]
  {
  }

  lemma ActKeepsTracking(l: Listener, a: Act, c: string)
    requires Tracks(l, c) && Possible(l, a, c)
    ensures Tracks(Happen(l, a, c), c)
  {
    if a.Server? {
      OnlyPushesPublish(l.world, a.e, c);
    }
  }

  // ----- Whole runs -----

  ghost predicate PossibleRun(l: Listener, acts: seq<Act>, c: string)
    decreases |acts|
  {
    acts != [] ==> Possible(l, acts[0], c) && PossibleRun(Happen(l, acts[0], c), acts[1..], c)
  }

  ghost function AfterActs(l: Listener, acts: seq<Act>, c: string): Listener
    requires PossibleRun(l, acts, c)
    decreases |acts|
  {
    if acts == [] then l else AfterActs(Happen(l, acts[0], c), acts[1..], c)
  }

  lemma {:induction false} RunKeepsTracking(l: Listener, acts: seq<Act>, c: string)
    requires Tracks(l, c) && Consistent(l.world) && PossibleRun(l, acts, c)
    ensures Tracks(AfterActs(l, acts, c), c) && Consistent(AfterActs(l, acts, c).world)
    decreases |acts|
  {
    if acts != [] {
      ActKeepsTracking(l, acts[0], c);
      if acts[0].Server? {
        StepKeepsConsistency(l.world, acts[0].e);
      }
      RunKeepsTracking(Happen(l, acts[0], c), acts[1..], c);
    }
  }

  // ----- The client's own reports -----

  /** A report by this client that reaches its record while it has a group. */
  ghost predicate Reports(w: World, e: Event, c: string) {
    e.ClientInfo? && e.client == c && c in w.clients && HomeOf(w.groups, c).In?
  }

  /** Whether the last report of a client since the last value sent to its channel, if
      there was any, repeated the mute flag cached for it; `so` says so of what came
      before. Reports by others play no part in it. */
  ghost predicate LastReportAgrees(l: Listener, acts: seq<Act>, c: string, so: bool)
    requires PossibleRun(l, acts, c)
    decreases |acts|
  {
    if acts == [] then so
    else
      var now := if acts[0].Server? then Agreeing(l.world, acts[0].e, c, so) else so;
      LastReportAgrees(Happen(l, acts[0], c), acts[1..], c, now)
  }

  ghost predicate Agreeing(w: World, e: Event, c: string, so: bool)
    requires Legal(w, e)
  {
    if Pushes(w, e, c) then true
    else if Reports(w, e, c) && c in w.routes then e.muted == w.routes[c].clientMuted
    else so
  }

  /** A client without a group gets one only with a push, as long as it stays
      connected. */
  lemma HomeComesWithPush(w: World, e: Event, c: string)
    requires Consistent(w) && Legal(w, e) && KeepsSession(e, c) && c in w.routes
    requires HomeOf(Step(w, e).groups, c).In? && !Pushes(w, e, c)
    ensures HomeOf(w.groups, c).In?
  {
    if e.Connect? {
      ConnectingSeats(w, e, c);
    } else if !e.SetGroupClients? && !e.DeleteClient? {
      OthersKeepSeats(w, e, c);
    }
    assert HasHome(Step(w, e).groups, c);
    assert HasHome(w.groups, c);
  }

  /** One event leaves the cached mute flag of a client in step exactly as its reports
      say. */
  lemma EventAgrees(w: World, e: Event, c: string)
    requires Consistent(w) && Legal(w, e) && KeepsSession(e, c) && c in w.routes
    requires HomeOf(Step(w, e).groups, c).In?
    ensures MuteAgrees(Step(w, e), c) <==> Agreeing(w, e, c, MuteAgrees(w, c))
  {
    OnlyPushesPublish(w, e, c);
    if Pushes(w, e, c) {
      PushAgrees(w, e, c);
    } else {
      HomeComesWithPush(w, e, c);
      if !Reports(w, e, c) {
        OthersLeaveMute(w, e, c);
      }
    }
  }

  lemma PushAgrees(w: World, e: Event, c: string)
    requires Legal(w, e) && Pushes(w, e, c)
    ensures MuteAgrees(Step(w, e), c)
  {
  }

  lemma OthersLeaveMute(w: World, e: Event, c: string)
    requires Legal(w, e) && KeepsSession(e, c) && c in w.routes
    requires HomeOf(w.groups, c).In? && HomeOf(Step(w, e).groups, c).In?
    requires !Pushes(w, e, c) && !Reports(w, e, c)
    ensures IsMuted(Step(w, e).clients, c) == IsMuted(w.clients, c)
  {
  }

  lemma {:induction false} RunAgrees(l: Listener, acts: seq<Act>, c: string, so: bool)
    requires Tracks(l, c) && Consistent(l.world) && PossibleRun(l, acts, c)
    requires HomeOf(l.world.groups, c).In? ==> (MuteAgrees(l.world, c) <==> so)
    ensures var w := AfterActs(l, acts, c).world;
            HomeOf(w.groups, c).In? ==> (MuteAgrees(w, c) <==> LastReportAgrees(l, acts, c, so))
    decreases |acts|
  {
    if acts != [] {
      var next := Happen(l, acts[0], c);
      ActKeepsTracking(l, acts[0], c);
      if acts[0].Server? {
        StepKeepsConsistency(l.world, acts[0].e);
        if HomeOf(next.world.groups, c).In? {
          EventAgrees(l.world, acts[0].e, c);
          if !Pushes(l.world, acts[0].e, c) {
            HomeComesWithPush(l.world, acts[0].e, c);
          }
        }
        RunAgrees(next, acts[1..], c, Agreeing(l.world, acts[0].e, c, so));
      } else {
        RunAgrees(next, acts[1..], c, so);
      }
    }
  }

  /** The session a connect leaves behind: registered, its loop not begun. */
  ghost function Connected(w: World, e: Event): Listener
    requires Legal(w, e) && e.Connect?
  {
    var next := Step(w, e);
    Listener(next, Session(next.routes[e.client], next.routes[e.client], false), false)
  }

  /** What the state says a client is to be written of a chunk. */
  function DueToClient(w: World, c: string, toMuted: bool, chunk: Input): seq<Frame>
    requires HomeOf(w.groups, c).In? && chunk.Broadcast?
  {
    var g := HomeOf(w.groups, c).group;
    if chunk.streamId == g.streamId && (toMuted || (!IsMuted(w.clients, c) && !g.muted))
    then [Chunk(chunk.streamId, chunk.timestampUsec, chunk.data)] else []
  }

  /** What a client hears is what the state says: from any state the server can be in
      when the client connects, after any interleaving of server events with the start
      and the inputs of its session, a session that has looked at everything published
      to it writes a broadcast chunk exactly if the client's group plays that stream
      and nothing mutes it - unless only the client's own mute flag could decide and
      its last report since the last push to it contradicted the flag cached then. */
  lemma ListenerHearsState(w: World, connect: Event, acts: seq<Act>, headers: map<string, CodecInfo>, toMuted: bool,
                           chunk: Input)
    requires Consistent(w) && Legal(w, connect) && connect.Connect? && chunk.Broadcast?
    requires PossibleRun(Connected(w, connect), acts, connect.client)
    requires var l := AfterActs(Connected(w, connect), acts, connect.client);
             l.started && !l.session.pending && HomeOf(l.world.groups, connect.client).In?
    ensures var l := AfterActs(Connected(w, connect), acts, connect.client);
            var g := HomeOf(l.world.groups, connect.client).group;
            Written(l.session, chunk, headers, toMuted) == DueToClient(l.world, connect.client, toMuted, chunk)
            <==> || chunk.streamId != g.streamId || toMuted || g.muted
                 || LastReportAgrees(Connected(w, connect), acts, connect.client, true)
  {
    var start, c := Connected(w, connect), connect.client;
    ConnectKeeps(w, connect);
    assert MuteAgrees(start.world, c);
    RunKeepsTracking(start, acts, c);
    RunAgrees(start, acts, c, true);
    var l := AfterActs(start, acts, c);
    assert StreamAgrees(l.world, c);
  }
}
