/** The shared context of all sessions and the dispatcher that changes it in place
    (crates/snapcast-server/src/session.rs, command.rs), proved against the steps
    of module Routing. */
module Dispatch {
  import opened Groups
  import opened Routing

  lemma RefreshedTwice(clients: map<string, Client>, groups: seq<Group>, routes: map<string, SessionRouting>,
                       a: seq<string>, b: seq<string>)
    ensures Refreshed(clients, groups, Refreshed(clients, groups, routes, a), b)
         == Refreshed(clients, groups, routes, a + b)
  {
  }

  lemma {:induction false} MembersSnoc(groups: seq<Group>, g: Group)
    ensures Members(groups + [g]) == Members(groups) + g.clients
  {
    if groups == [] {
      assert groups + [g] == [g] && [g][1..] == [];
    } else {
      assert (groups + [g])[1..] == groups[1..] + [g];
      MembersSnoc(groups[1..], g);
    }
  }

  class SessionContext {
    const state: ServerState
    const defaultStream: string
    /** The value last published to each registered session. */
    var routes: map<string, SessionRouting>

    ghost function View(): World
      reads this, state
    {
      World(state.clients, state.groups, state.streams, routes, defaultStream)
    }

    constructor (state: ServerState, defaultStream: string)
      ensures this.state == state && this.defaultStream == defaultStream && routes == map[]
    {
      this.state, this.defaultStream, routes := state, defaultStream, map[];
    }

    method PushRouting(client: string)
      modifies this`routes
      ensures View() == PushedOne(old(View()), client)
    {
      var home := HomeOf(state.groups, client);
      if home.In? && client in routes {
        routes := routes[client := RoutingIn(state.clients, home.group, client)];
      }
      assert routes == Refreshed(state.clients, state.groups, old(routes), [client]);
    }

    /** One send per listed client that has a group and a registered session. */
    method PushEach(ids: seq<string>)
      modifies this`routes
      ensures routes == Refreshed(state.clients, state.groups, old(routes), ids)
    {
      for i := 0 to |ids|
        invariant routes == Refreshed(state.clients, state.groups, old(routes), ids[..i])
      {
        RefreshedTwice(state.clients, state.groups, old(routes), ids[..i], [ids[i]]);
        assert ids[..i] + [ids[i]] == ids[..i + 1];
        PushRouting(ids[i]);
      }
      assert ids[..|ids|] == ids;
    }

    method PushRoutingForGroup(group: string)
      modifies this`routes
      ensures View() == PushedGroup(old(View()), group)
    {
      var t := Position(state.groups, group);
      if t < |state.groups| {
        PushEach(state.groups[t].clients);
      }
    }

    method PushRoutingAll()
      modifies this`routes
      ensures View() == PushedAll(old(View()))
    {
      ghost var before := routes;
      var groups := state.groups;
      for i := 0 to |groups|
        invariant routes == Refreshed(state.clients, groups, before, Members(groups[..i]))
      {
        MembersSnoc(groups[..i], groups[i]);
        assert groups[..i] + [groups[i]] == groups[..i + 1];
        RefreshedTwice(state.clients, groups, before, Members(groups[..i]), groups[i].clients);
        PushEach(groups[i].clients);
      }
      assert groups[..|groups|] == groups;
    }

    /** The handshake: registers the client in the state and its session here. */
    method Register(client: string, hostName: string, mac: string, newId: string) returns (initial: SessionRouting)
      requires Consistent(View()) && Legal(View(), Connect(client, hostName, mac, newId))
      modifies this`routes, state`clients, state`groups
      ensures View() == Step(old(View()), Connect(client, hostName, mac, newId))
      ensures Consistent(View())
      ensures client in routes && routes[client] == initial
    {
      ghost var before := View();
      ConnectKeeps(before, Connect(client, hostName, mac, newId));
      state.GetOrCreateClient(client, hostName, mac);
      state.clients := state.clients[client := state.clients[client].(connected := true)];
      var index := state.GroupForClient(client, defaultStream, newId);
      HomeIsFirst(state.groups, index, client);
      initial := RoutingIn(state.clients, state.groups[index], client);
      routes := routes[client := initial];
    }

    /** The cleanup when a session ends. */
    method Unregister(client: string)
      modifies this`routes, state`clients
      ensures View() == Step(old(View()), Disconnect(client))
    {
      routes := routes - {client};
      if client in state.clients {
        state.clients := state.clients[client := state.clients[client].(connected := false)];
      }
    }

    /** A client reports its own volume; nothing is published. */
    method TakeClientInfo(client: string, percent: nat, muted: bool)
      modifies state`clients
      ensures View() == Step(old(View()), ClientInfo(client, percent, muted))
    {
      if client in state.clients {
        var config := state.clients[client].config.(volume := Volume(percent, muted));
        state.clients := state.clients[client := state.clients[client].(config := config)];
      }
    }
  }

  class Dispatcher {
    const ctx: SessionContext

    constructor (ctx: SessionContext)
      ensures this.ctx == ctx
    {
      this.ctx := ctx;
    }

    method SetClientVolume(client: string, percent: nat, muted: bool)
      modifies ctx`routes, ctx.state`clients
      ensures ctx.View() == Step(old(ctx.View()), Event.SetClientVolume(client, percent, muted))
    {
      ctx.TakeClientInfo(client, percent, muted);
      ctx.PushRouting(client);
    }

    method SetClientConfig(client: string, config: ClientConfig)
      modifies ctx.state`clients
      ensures ctx.state.clients == WithConfig(old(ctx.state.clients), client, config)
    {
      if client in ctx.state.clients {
        ctx.state.clients := ctx.state.clients[client := ctx.state.clients[client].(config := config)];
      }
    }

    method SetClientLatency(client: string, latency: int)
      modifies ctx.state`clients
      ensures ctx.View() == Step(old(ctx.View()), Event.SetClientLatency(client, latency))
    {
      if client in ctx.state.clients {
        SetClientConfig(client, ctx.state.clients[client].config.(latency := latency));
      }
    }

    method SetClientName(client: string, name: string)
      modifies ctx.state`clients
      ensures ctx.View() == Step(old(ctx.View()), Event.SetClientName(client, name))
    {
      if client in ctx.state.clients {
        SetClientConfig(client, ctx.state.clients[client].config.(name := name));
      }
    }

    method SetGroupStream(group: string, streamId: string)
      modifies ctx`routes, ctx.state`groups
      ensures ctx.View() == Step(old(ctx.View()), Event.SetGroupStream(group, streamId))
    {
      ctx.state.SetGroupStream(group, streamId);
      ctx.PushRoutingForGroup(group);
    }

    method SetGroupMute(group: string, muted: bool)
      modifies ctx`routes, ctx.state`groups
      ensures ctx.View() == Step(old(ctx.View()), Event.SetGroupMute(group, muted))
    {
      var groups := ctx.state.groups;
      var t := Position(groups, group);
      if t < |groups| {
        ctx.state.groups := groups[t := groups[t].(muted := muted)];
      }
      ctx.PushRoutingForGroup(group);
    }

    method SetGroupName(group: string, name: string)
      modifies ctx.state`groups
      ensures ctx.View() == Step(old(ctx.View()), Event.SetGroupName(group, name))
    {
      var groups := ctx.state.groups;
      var t := Position(groups, group);
      if t < |groups| {
        ctx.state.groups := groups[t := groups[t].(name := name)];
      }
    }

    method SetGroupClients(group: string, listed: seq<string>, newIds: seq<string>)
      requires Consistent(ctx.View()) && Legal(ctx.View(), Event.SetGroupClients(group, listed, newIds))
      modifies ctx`routes, ctx.state`groups
      ensures ctx.View() == Step(old(ctx.View()), Event.SetGroupClients(group, listed, newIds))
    {
      ctx.state.SetGroupClients(group, listed, newIds);
      ctx.PushRoutingAll();
    }

    method DeleteClient(client: string)
      modifies ctx`routes, ctx.state`groups, ctx.state`clients
      ensures ctx.View() == Step(old(ctx.View()), Event.DeleteClient(client))
    {
      ctx.state.RemoveClientFromGroups(client);
      ctx.state.clients := ctx.state.clients - {client};
      ctx.PushRoutingAll();
    }

    method SetStreamMeta(streamId: string, metadata: Metadata)
      modifies ctx.state`streams
      ensures ctx.View() == Step(old(ctx.View()), Event.SetStreamMeta(streamId, metadata))
    {
      var streams := ctx.state.streams;
      var t := StreamAt(streams, streamId);
      if t < |streams| {
        ctx.state.streams := streams[t := streams[t].(properties := metadata)];
      }
    }

    /** Takes the stream off every group that was playing it. */
    method ClearStream(streamId: string)
      modifies ctx.state`groups
      ensures ctx.state.groups == Cleared(old(ctx.state.groups), streamId)
    {
      ghost var before := ctx.state.groups;
      for i := 0 to |ctx.state.groups|
        invariant |ctx.state.groups| == |before|
        invariant forall k :: 0 <= k < i ==> ctx.state.groups[k] == ClearedGroup(before[k], streamId)
        invariant forall k :: i <= k < |before| ==> ctx.state.groups[k] == before[k]
      {
        if ctx.state.groups[i].streamId == streamId {
          ctx.state.groups := ctx.state.groups[i := ctx.state.groups[i].(streamId := "")];
        }
      }
      assert ctx.state.groups == Cleared(before, streamId);
    }

    method RemoveStream(streamId: string)
      modifies ctx`routes, ctx.state`groups, ctx.state`streams
      ensures ctx.View() == Step(old(ctx.View()), Event.RemoveStream(streamId))
    {
      ctx.state.streams := StreamsWithout(ctx.state.streams, streamId);
      ClearStream(streamId);
      ctx.PushRoutingAll();
    }

    /** One command: the step of the model, in place, with its invariant. */
    method Handle(cmd: Event)
      requires Consistent(ctx.View()) && Legal(ctx.View(), cmd)
      requires !cmd.Connect? && !cmd.Disconnect? && !cmd.ClientInfo?
      modifies ctx`routes, ctx.state
      ensures ctx.View() == Step(old(ctx.View()), cmd)
      ensures Consistent(ctx.View())
      ensures old(MutesAgree(ctx.View())) ==> MutesAgree(ctx.View())
    {
      ghost var before := ctx.View();
      StepKeepsConsistency(before, cmd);
      match cmd
      case SetClientVolume(client, percent, muted) => SetClientVolume(client, percent, muted);
      case SetClientLatency(client, latency) => SetClientLatency(client, latency);
      case SetClientName(client, name) => SetClientName(client, name);
      case SetGroupStream(group, streamId) => SetGroupStream(group, streamId);
      case SetGroupMute(group, muted) => SetGroupMute(group, muted);
      case SetGroupName(group, name) => SetGroupName(group, name);
      case SetGroupClients(group, listed, newIds) => SetGroupClients(group, listed, newIds);
      case DeleteClient(client) => DeleteClient(client);
      case SetStreamMeta(streamId, metadata) => SetStreamMeta(streamId, metadata);
      case RemoveStream(streamId) => RemoveStream(streamId);
    }
  }
}
