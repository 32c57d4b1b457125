/** What one session answers its client with, message by message, and what the client's
    clock makes of it (crates/snapcast-server/src/session.rs,
    crates/snapcast-client/src/controller.rs). */
module Replies {
  import opened ClockSync
  import opened Routing
  import opened Sessions
  import opened Timestamps
  import opened Wrappers

  // ----- One input -----

  /** What was written of one more input, and where the routing is then. */
  ghost predicate Adds(s: Session, earlier: seq<Input>, e: Input, headers: map<string, CodecInfo>, toMuted: bool,
                       frames: seq<Frame>, next: Session)
  {
    && Output(s, earlier + [e], headers, toMuted) == Output(s, earlier, headers, toMuted) + frames
    && StateAfter(s, earlier + [e]) == next
  }

  lemma TimeIsAnswered(s: Session, earlier: seq<Input>, id: nat, sent: Timeval, received: Timeval,
                       headers: map<string, CodecInfo>, toMuted: bool)
    returns (delay: Timeval)
    requires sent.Fits() && received.Fits()
    ensures Adds(s, earlier, TimeRequest(id, sent, received), headers, toMuted, [TimeReply(id, delay)],
                 StateAfter(s, earlier))
    ensures FitsI32(received.usec - sent.usec) && FitsI32(received.sec - sent.sec - received.Borrow(sent)) ==>
              delay.ToUsec() == received.ToUsec() - sent.ToUsec()
  {
    OneMore(s, earlier, TimeRequest(id, sent, received), headers, toMuted);
    MinusIsExact(received, sent);
    delay := received.Minus(sent);
  }

  lemma SettingsArePassedOn(s: Session, earlier: seq<Input>, bufferMs: int, latency: int, volume: nat, muted: bool,
                            headers: map<string, CodecInfo>, toMuted: bool)
    ensures Adds(s, earlier, SettingsUpdate(bufferMs, latency, volume, muted), headers, toMuted,
                 [Settings(bufferMs, latency, volume, muted)], StateAfter(s, earlier))
  {
    OneMore(s, earlier, SettingsUpdate(bufferMs, latency, volume, muted), headers, toMuted);
  }

  /** A chunk of the followed stream goes out as it came, unless it is muted. */
  lemma ChunksArePassedOn(s: Session, earlier: seq<Input>, streamId: string, timestampUsec: int, data: seq<int>,
                          headers: map<string, CodecInfo>, toMuted: bool)
    ensures var now := StateAfter(s, earlier);
            var heard := streamId == now.routing.streamId
                         && (toMuted || (!now.routing.clientMuted && !now.routing.groupMuted));
            Adds(s, earlier, Broadcast(streamId, timestampUsec, data), headers, toMuted,
                 if heard then [Chunk(streamId, timestampUsec, data)] else [], now)
  {
    OneMore(s, earlier, Broadcast(streamId, timestampUsec, data), headers, toMuted);
  }

  /** New routing is taken over once; if it is on another stream that has a producer, that
      stream's header goes out first. */
  lemma RoutingIsTakenOver(s: Session, earlier: seq<Input>, headers: map<string, CodecInfo>, toMuted: bool)
    ensures var now := StateAfter(s, earlier);
            var id := now.channel.streamId;
            var switched := now.pending && id != now.routing.streamId && id in headers;
            Adds(s, earlier, RoutingChanged, headers, toMuted, if switched then [Header(id, headers[id])] else [],
                 if now.pending then Session(now.channel, now.channel, false) else now)
  {
    OneMore(s, earlier, RoutingChanged, headers, toMuted);
  }

  /** Everything else writes nothing; a value published waits on the channel. */
  lemma TheRestIsSilent(s: Session, earlier: seq<Input>, e: Input, headers: map<string, CodecInfo>, toMuted: bool)
    requires e.Publish? || e.Lagged? || e.BroadcastClosed? || e.ReadFailed?
    ensures var now := StateAfter(s, earlier);
            Adds(s, earlier, e, headers, toMuted, [], if e.Publish? then Session(now.routing, e.routing, true) else now)
  {
    OneMore(s, earlier, e, headers, toMuted);
  }

  /** A session starts with the settings and, if its stream has a producer, that stream's
      header; then it copies the routing last published. */
  lemma SessionStarts(settings: Frame, initial: SessionRouting, published: seq<SessionRouting>,
                      headers: map<string, CodecInfo>, toMuted: bool)
    ensures Transcript(settings, initial, published, [], headers, toMuted)
         == [settings] + if initial.streamId in headers then [Header(initial.streamId, headers[initial.streamId])] else []
    ensures var last := if published == [] then initial else published[|published| - 1];
            Started(initial, published) == Session(last, last, published != [])
  {
  }

  /** The loop ends when the broadcast is closed or a message cannot be read, and when a
      frame is due and cannot be written; nothing else ends it. */
  lemma LoopEndsExactly(s: Session, e: Input, fails: bool, headers: map<string, CodecInfo>, toMuted: bool)
    ensures EndsLoop(s, e, fails, headers, toMuted) <==>
              || e.BroadcastClosed? || e.ReadFailed?
              || (fails && (e.TimeRequest? || e.SettingsUpdate?))
              || (fails && e.Broadcast? && e.streamId == s.routing.streamId
                  && (toMuted || (!s.routing.clientMuted && !s.routing.groupMuted)))
              || (fails && e.RoutingChanged? && s.pending && s.channel.streamId != s.routing.streamId
                  && s.channel.streamId in headers)
  {
  }

  // ----- All requests of a session -----

  datatype Request = Request(id: nat, sent: Timeval, received: Timeval)

  /** The time requests among the inputs, in order. */
  function Requests(inputs: seq<Input>): seq<Request> {
    if inputs == [] then []
    else
      var e := inputs[|inputs| - 1];
      Requests(inputs[..|inputs| - 1]) + if e.TimeRequest? then [Request(e.id, e.sent, e.received)] else []
  }

  /** The time replies among the frames, in order. */
  function Answered(frames: seq<Frame>): (r: seq<Frame>)
    ensures forall f :: f in r ==> f.TimeReply?
  {
    if frames == [] then []
    else
      var f := frames[|frames| - 1];
      Answered(frames[..|frames| - 1]) + if f.TimeReply? then [f] else []
  }

  /** The reply to a request; its delay is exact unless a field overflows. */
  ghost predicate Answers(q: Request, r: Frame) {
    && r.TimeReply? && r.refersTo == q.id
    && (q.sent.Fits() && q.received.Fits()
        && FitsI32(q.received.usec - q.sent.usec) && FitsI32(q.received.sec - q.sent.sec - q.received.Borrow(q.sent)) ==>
          r.delay.ToUsec() == q.received.ToUsec() - q.sent.ToUsec())
  }

  lemma AnsweredSnoc(frames: seq<Frame>, more: seq<Frame>)
    requires |more| <= 1
    ensures Answered(frames + more) == Answered(frames) + if more != [] && more[0].TimeReply? then more else []
  {
    if more == [] {
      assert frames + more == frames;
    } else {
      assert (frames + more)[..|frames|] == frames && more == [more[0]];
    }
  }

  lemma OneAnswer(s: Session, e: Input, headers: map<string, CodecInfo>, toMuted: bool)
    ensures var w := Written(s, e, headers, toMuted);
            && |w| <= 1 && (w != [] && w[0].TimeReply? <==> e.TimeRequest?)
            && (e.TimeRequest? ==> w != [] && Answers(Request(e.id, e.sent, e.received), w[0]))
  {
    if e.TimeRequest? && e.sent.Fits() && e.received.Fits() {
      MinusIsExact(e.received, e.sent);
    }
  }

  /** Every time request is answered once, in order, with its own id and the time it took;
      nothing else is answered. */
  lemma {:induction false} EveryRequestIsAnswered(s: Session, inputs: seq<Input>, headers: map<string, CodecInfo>,
                                                  toMuted: bool)
    ensures var asked, answered := Requests(inputs), Answered(Output(s, inputs, headers, toMuted));
            |asked| == |answered| && forall i :: 0 <= i < |asked| ==> Answers(asked[i], answered[i])
  {
    if inputs != [] {
      var earlier, e := inputs[..|inputs| - 1], inputs[|inputs| - 1];
      EveryRequestIsAnswered(s, earlier, headers, toMuted);
      var out, w := Output(s, earlier, headers, toMuted), Written(StateAfter(s, earlier), e, headers, toMuted);
      OneAnswer(StateAfter(s, earlier), e, headers, toMuted);
      AnsweredSnoc(out, w);
    }
  }

  // ----- The exchange, through the loop -----

  /** One exchange of clock readings carried by the session's loop and the client's
      handler: what the client books is the sample of the four readings. */
  method ExchangeThroughLoop(provider: TimeProvider, x: Exchange, id: nat, session: Session,
                             headers: map<string, CodecInfo>, toMuted: bool)
    requires provider.Valid() && x.Representable()
    modifies provider, provider.diffBuffer
    ensures provider.Valid() && provider.lastSync == Some(x.at)
    ensures provider.booked
         == (if old(provider.lastSync).Some? && x.at - old(provider.lastSync).value > 60_000_000
             then [] else old(provider.booked))
            + [x.Sample()]
  {
    var sent, reached := StampMessage(x.sent, x.reached);
    var answered, received := StampMessage(x.answered, x.received);
    var delay := AskSession(session, id, sent, reached, headers, toMuted);
    HandleTime(provider, delay, received, answered, x.at);
  }

  /** A session asked for the time answers with just one frame. */
  method AskSession(session: Session, id: nat, sent: Timeval, reached: Timeval, headers: map<string, CodecInfo>,
                    toMuted: bool)
    returns (delay: Timeval)
    requires sent.Fits() && reached.Fits()
    ensures delay.Fits() && delay == reached.Minus(sent)
  {
    var written, end, handled := SessionLoop(session, [TimeRequest(id, sent, reached)], _ => false, headers, toMuted);
    OnlyRequest(session, TimeRequest(id, sent, reached), headers, toMuted, handled);
    delay := written[0].delay;
  }

  lemma OnlyRequest(session: Session, e: Input, headers: map<string, CodecInfo>, toMuted: bool, handled: nat)
    requires e.TimeRequest? && handled <= 1
    requires handled < 1 ==> EndsLoop(StateAfter(session, [e][..handled]), [e][handled], false, headers, toMuted)
    ensures handled == 1
    ensures Output(session, [e][..handled], headers, toMuted) == [TimeReply(e.id, e.received.Minus(e.sent))]
  {
    assert [e][..1] == [] + [e];
    FirstInput(session, [], e, headers, toMuted);
  }
}
