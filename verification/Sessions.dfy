/** One session's loop (crates/snapcast-server/src/session.rs): what it writes to
    its client while routing values are published and chunks are broadcast. */
module Sessions {
  import opened Routing
  import opened Timestamps

  datatype CodecInfo = CodecInfo(codec: string, header: seq<int>)

  /** What goes out on the wire. A header or a chunk carries here the stream it was
      written for, which the bytes themselves do not say. */
  datatype Frame =
    | Header(streamId: string, info: CodecInfo)
    | Chunk(streamId: string, timestampUsec: int, data: seq<int>)
    | Settings(bufferMs: int, latency: int, volume: nat, muted: bool)
    | TimeReply(refersTo: nat, delay: Timeval)

  /** What can happen to a session next. `Publish` is the dispatcher at work; the
      others are arms of the loop. */
  datatype Input =
    | Publish(routing: SessionRouting)
    | RoutingChanged
    | Broadcast(streamId: string, timestampUsec: int, data: seq<int>)
    | Lagged
    | SettingsUpdate(bufferMs: int, latency: int, volume: nat, muted: bool)
    | TimeRequest(id: nat, sent: Timeval, received: Timeval)
    | BroadcastClosed
    | ReadFailed

  /** The loop's own copy of the routing, the channel it watches, and whether the
      channel holds a value the loop has not looked at. */
  datatype Session = Session(routing: SessionRouting, channel: SessionRouting, pending: bool)

  function HeaderFor(headers: map<string, CodecInfo>, streamId: string): seq<Frame> {
    if streamId in headers then [Header(streamId, headers[streamId])] else []
  }

  /** The loop's copy, the channel and the flag after one input. */
  function Advance(s: Session, e: Input): Session {
    match e
    case Publish(routing) => s.(channel := routing, pending := true)
    case RoutingChanged => if s.pending then Session(s.channel, s.channel, false) else s
    case _ => s
  }

  /** The frames one input causes. */
  function Written(s: Session, e: Input, headers: map<string, CodecInfo>, sendAudioToMuted: bool): seq<Frame> {
    match e
    case Publish(_) => []
    case Lagged => []
    case RoutingChanged =>
      if s.pending && s.channel.streamId != s.routing.streamId then HeaderFor(headers, s.channel.streamId) else []
    case Broadcast(streamId, timestampUsec, data) =>
      if ShouldSendChunk(streamId, s.routing, sendAudioToMuted) then [Chunk(streamId, timestampUsec, data)] else []
    case SettingsUpdate(bufferMs, latency, volume, muted) => [Settings(bufferMs, latency, volume, muted)]
    case TimeRequest(id, sent, received) => [TimeReply(id, received.Minus(sent))]
    case BroadcastClosed => []
    case ReadFailed => []
  }

  function StateAfter(s: Session, inputs: seq<Input>): Session {
    if inputs == [] then s else Advance(StateAfter(s, inputs[..|inputs| - 1]), inputs[|inputs| - 1])
  }

  function Output(s: Session, inputs: seq<Input>, headers: map<string, CodecInfo>, sendAudioToMuted: bool): seq<Frame> {
    if inputs == [] then []
    else
      var earlier := inputs[..|inputs| - 1];
      Output(s, earlier, headers, sendAudioToMuted)
        + Written(StateAfter(s, earlier), inputs[|inputs| - 1], headers, sendAudioToMuted)
  }

  /** The loop ends at this input: a source has failed, or the frame it causes cannot
      be written. */
  predicate EndsLoop(s: Session, e: Input, writeFails: bool, headers: map<string, CodecInfo>, sendAudioToMuted: bool) {
    e.BroadcastClosed? || e.ReadFailed? || (writeFails && Written(s, e, headers, sendAudioToMuted) != [])
  }

  /** None of these inputs ends the loop. */
  predicate GoesThrough(s: Session, inputs: seq<Input>, writeFails: nat -> bool, headers: map<string, CodecInfo>,
                        sendAudioToMuted: bool)
  {
    inputs == [] ||
    (var last := |inputs| - 1;
     && GoesThrough(s, inputs[..last], writeFails, headers, sendAudioToMuted)
     && !EndsLoop(StateAfter(s, inputs[..last]), inputs[last], writeFails(last), headers, sendAudioToMuted))
  }

  lemma OneMoreHandled(s: Session, earlier: seq<Input>, e: Input, writeFails: nat -> bool,
                       headers: map<string, CodecInfo>, toMuted: bool)
    ensures GoesThrough(s, earlier + [e], writeFails, headers, toMuted)
       <==> && GoesThrough(s, earlier, writeFails, headers, toMuted)
            && !EndsLoop(StateAfter(s, earlier), e, writeFails(|earlier|), headers, toMuted)
  {
    assert (earlier + [e])[..|earlier|] == earlier;
  }

  lemma OneMore(s: Session, earlier: seq<Input>, e: Input, headers: map<string, CodecInfo>, toMuted: bool)
    ensures StateAfter(s, earlier + [e]) == Advance(StateAfter(s, earlier), e)
    ensures Output(s, earlier + [e], headers, toMuted)
      == Output(s, earlier, headers, toMuted) + Written(StateAfter(s, earlier), e, headers, toMuted)
  {
    assert (earlier + [e])[..|earlier|] == earlier;
  }

  /** What one turn of the loop writes, and its routing afterwards. */
  method Turn(s: Session, e: Input, headers: map<string, CodecInfo>, sendAudioToMuted: bool)
    returns (frames: seq<Frame>, next: Session)
    ensures frames == Written(s, e, headers, sendAudioToMuted) && next == Advance(s, e)
  {
    frames, next := [], s;
    match e
    case Publish(value) =>
      next := Session(s.routing, value, true);
    case RoutingChanged =>
      if s.pending {
        if s.channel.streamId != s.routing.streamId && s.channel.streamId in headers {
          frames := [Header(s.channel.streamId, headers[s.channel.streamId])];
        }
        next := Session(s.channel, s.channel, false);
      }
    case Broadcast(streamId, timestampUsec, data) =>
      if ShouldSendChunk(streamId, s.routing, sendAudioToMuted) {
        frames := [Chunk(streamId, timestampUsec, data)];
      }
    case SettingsUpdate(bufferMs, latency, volume, muted) =>
      frames := [Settings(bufferMs, latency, volume, muted)];
    case TimeRequest(id, sent, received) =>
      frames := [TimeReply(id, received.Minus(sent))];
    case _ =>
  }

  /** The loop, with its local copy of the routing. It handles the inputs up to the
      first that ends it; `writeFails` tells for every input whether a frame written
      then would fail. */
  method SessionLoop(start: Session, inputs: seq<Input>, writeFails: nat -> bool, headers: map<string, CodecInfo>,
                     sendAudioToMuted: bool)
    returns (written: seq<Frame>, end: Session, handled: nat)
    ensures handled <= |inputs|
    ensures written == Output(start, inputs[..handled], headers, sendAudioToMuted)
    ensures end == StateAfter(start, inputs[..handled])
    ensures GoesThrough(start, inputs[..handled], writeFails, headers, sendAudioToMuted)
    ensures handled < |inputs| ==>
              EndsLoop(end, inputs[handled], writeFails(handled), headers, sendAudioToMuted)
  {
    written, end, handled := [], start, 0;
    while handled < |inputs|
      invariant handled <= |inputs|
      invariant end == StateAfter(start, inputs[..handled])
      invariant written == Output(start, inputs[..handled], headers, sendAudioToMuted)
      invariant GoesThrough(start, inputs[..handled], writeFails, headers, sendAudioToMuted)
    {
      var e := inputs[handled];
      if e.BroadcastClosed? || e.ReadFailed? {
        return;
      }
      var frames, next := Turn(end, e, headers, sendAudioToMuted);
      if frames != [] && writeFails(handled) {
        return;
      }
      assert inputs[..handled + 1] == inputs[..handled] + [e];
      OneMore(start, inputs[..handled], e, headers, sendAudioToMuted);
      OneMoreHandled(start, inputs[..handled], e, writeFails, headers, sendAudioToMuted);
      written, end, handled := written + frames, next, handled + 1;
    }
  }

  // ----- A whole session -----

  /** The value on the channel after the given ones have been published. */
  function Latest(initial: SessionRouting, published: seq<SessionRouting>): SessionRouting {
    if published == [] then initial else published[|published| - 1]
  }

  /** The handshake sends settings and the header of the stream the session was
      registered with; the loop then copies whatever the channel holds by then. */
  function Started(initial: SessionRouting, published: seq<SessionRouting>): Session {
    Session(Latest(initial, published), Latest(initial, published), published != [])
  }

  function Handshake(settings: Frame, initial: SessionRouting, headers: map<string, CodecInfo>): seq<Frame> {
    [settings] + HeaderFor(headers, initial.streamId)
  }

  function Transcript(settings: Frame, initial: SessionRouting, published: seq<SessionRouting>, inputs: seq<Input>,
                      headers: map<string, CodecInfo>, sendAudioToMuted: bool): seq<Frame>
  {
    Handshake(settings, initial, headers) + Output(Started(initial, published), inputs, headers, sendAudioToMuted)
  }

  // ----- Decoder safety -----

  datatype Stream = NoneYet | Of(streamId: string)

  /** The stream of the last codec header written. */
  function LastHeader(written: seq<Frame>): Stream {
    if written == [] then NoneYet
    else if written[|written| - 1].Header? then Of(written[|written| - 1].streamId)
    else LastHeader(written[..|written| - 1])
  }

  /** Every chunk is decoded with the header of its own stream. */
  ghost predicate Decodable(written: seq<Frame>) {
    forall k :: 0 <= k < |written| && written[k].Chunk? ==> LastHeader(written[..k]) == Of(written[k].streamId)
  }

  /** Every stream that produces chunks has a registered header. */
  ghost predicate ProducersRegistered(inputs: seq<Input>, headers: map<string, CodecInfo>) {
    forall e :: e in inputs && e.Broadcast? ==> e.streamId in headers
  }

  /** The header written last is that of the stream the session follows, if that
      stream has one. */
  ghost predicate InStep(written: seq<Frame>, routing: SessionRouting, headers: map<string, CodecInfo>) {
    routing.streamId in headers ==> LastHeader(written) == Of(routing.streamId)
  }

  lemma LastHeaderSnoc(written: seq<Frame>, f: Frame)
    ensures LastHeader(written + [f]) == if f.Header? then Of(f.streamId) else LastHeader(written)
  {
    assert (written + [f])[..|written|] == written;
  }

  lemma DecodableSnoc(written: seq<Frame>, f: Frame)
    requires Decodable(written)
    requires f.Chunk? ==> LastHeader(written) == Of(f.streamId)
    ensures Decodable(written + [f])
  {
    forall k | 0 <= k < |written + [f]| && (written + [f])[k].Chunk?
      ensures LastHeader((written + [f])[..k]) == Of((written + [f])[k].streamId)
    {
      assert (written + [f])[..k] == written[..k];
      assert written[..|written|] == written;
    }
  }

  /** One input keeps the decoder in step, across any switch of streams. */
  lemma InputKeepsInStep(before: seq<Frame>, s: Session, e: Input, headers: map<string, CodecInfo>, toMuted: bool)
    requires Decodable(before) && InStep(before, s.routing, headers)
    requires e.Broadcast? ==> e.streamId in headers
    ensures Decodable(before + Written(s, e, headers, toMuted))
    ensures InStep(before + Written(s, e, headers, toMuted), Advance(s, e).routing, headers)
  {
    var w := Written(s, e, headers, toMuted);
    if w == [] {
      assert before + w == before;
    } else {
      LastHeaderSnoc(before, w[0]);
      DecodableSnoc(before, w[0]);
      assert w == [w[0]];
    }
  }

  lemma {:induction false} LoopKeepsInStep(before: seq<Frame>, s: Session, inputs: seq<Input>,
                                           headers: map<string, CodecInfo>, toMuted: bool)
    requires Decodable(before) && InStep(before, s.routing, headers)
    requires ProducersRegistered(inputs, headers)
    ensures Decodable(before + Output(s, inputs, headers, toMuted))
    ensures InStep(before + Output(s, inputs, headers, toMuted), StateAfter(s, inputs).routing, headers)
  {
    if inputs == [] {
      assert before + [] == before;
    } else {
      var n := |inputs| - 1;
      LoopKeepsInStep(before, s, inputs[..n], headers, toMuted);
      var earlier := Output(s, inputs[..n], headers, toMuted);
      var w := Written(StateAfter(s, inputs[..n]), inputs[n], headers, toMuted);
      InputKeepsInStep(before + earlier, StateAfter(s, inputs[..n]), inputs[n], headers, toMuted);
      assert before + (earlier + w) == before + earlier + w;
    }
  }

  /** No registered stream but the handshake's is followed when the loop starts. */
  ghost predicate StartsInStep(initial: SessionRouting, published: seq<SessionRouting>, headers: map<string, CodecInfo>) {
    var s := Latest(initial, published).streamId;
    s == initial.streamId || s !in headers
  }

  ghost predicate AlwaysDecodable(settings: Frame, initial: SessionRouting, published: seq<SessionRouting>,
                                  headers: map<string, CodecInfo>, toMuted: bool)
  {
    forall inputs: seq<Input> :: ProducersRegistered(inputs, headers) ==>
      Decodable(Transcript(settings, initial, published, inputs, headers, toMuted))
  }

  /** Every run of a session is decodable exactly when the routing was not moved to
      another registered stream between the handshake and the start of the loop. */
  lemma DecoderSafety(settings: Frame, initial: SessionRouting, published: seq<SessionRouting>,
                      headers: map<string, CodecInfo>, toMuted: bool)
    requires settings.Settings?
    ensures AlwaysDecodable(settings, initial, published, headers, toMuted)
       <==> StartsInStep(initial, published, headers)
  {
    if StartsInStep(initial, published, headers) {
      forall inputs: seq<Input> | ProducersRegistered(inputs, headers)
        ensures Decodable(Transcript(settings, initial, published, inputs, headers, toMuted))
      {
        HandshakeInStep(settings, initial, published, headers);
        LoopKeepsInStep(Handshake(settings, initial, headers), Started(initial, published), inputs, headers, toMuted);
      }
    } else {
      SwitchedBeforeLoop(settings, initial, published, headers, toMuted);
    }
  }

  lemma HandshakeInStep(settings: Frame, initial: SessionRouting, published: seq<SessionRouting>,
                        headers: map<string, CodecInfo>)
    requires settings.Settings? && StartsInStep(initial, published, headers)
    ensures var written := Handshake(settings, initial, headers);
            Decodable(written) && InStep(written, Started(initial, published).routing, headers)
  {
    if initial.streamId in headers {
      LastHeaderSnoc([settings], Header(initial.streamId, headers[initial.streamId]));
    }
  }

  /** The inputs of the failing run: the session is unmuted on the stream it already
      follows, and that stream produces a chunk. */
  function FailingInputs(s: string): seq<Input> {
    [Publish(SessionRouting(s, false, false)), RoutingChanged, Broadcast(s, 0, [])]
  }

  lemma FirstInput(s: Session, none: seq<Input>, a: Input, headers: map<string, CodecInfo>, toMuted: bool)
    requires none == []
    ensures StateAfter(s, none + [a]) == Advance(s, a)
    ensures Output(s, none + [a], headers, toMuted) == Written(s, a, headers, toMuted)
  {
    OneMore(s, none, a, headers, toMuted);
    assert [] + Written(s, a, headers, toMuted) == Written(s, a, headers, toMuted);
  }

  lemma NextInput(s: Session, earlier: seq<Input>, now: Session, out: seq<Frame>, e: Input,
                  headers: map<string, CodecInfo>, toMuted: bool)
    requires now == StateAfter(s, earlier) && out == Output(s, earlier, headers, toMuted)
    ensures StateAfter(s, earlier + [e]) == Advance(now, e)
    ensures Output(s, earlier + [e], headers, toMuted) == out + Written(now, e, headers, toMuted)
  {
    OneMore(s, earlier, e, headers, toMuted);
  }

  lemma ThreeInputs(s: Session, a: Input, b: Input, c: Input, headers: map<string, CodecInfo>, toMuted: bool)
    ensures Output(s, [a, b, c], headers, toMuted)
      == Written(s, a, headers, toMuted) + Written(Advance(s, a), b, headers, toMuted)
       + Written(Advance(Advance(s, a), b), c, headers, toMuted)
  {
    var none: seq<Input> :| |none| == 0;
    var s1, s2 := Advance(s, a), Advance(Advance(s, a), b);
    var w1, w2 := Written(s, a, headers, toMuted), Written(s1, b, headers, toMuted);
    FirstInput(s, none, a, headers, toMuted);
    NextInput(s, none + [a], s1, w1, b, headers, toMuted);
    NextInput(s, none + [a] + [b], s2, w1 + w2, c, headers, toMuted);
    assert none + [a] + [b] + [c] == [a, b, c];
  }

  /** If a group command moves the session to another registered stream in that gap,
      the loop never sends that stream's header, and its first chunk is fed to a
      decoder set up for the old stream, or to none. */
  lemma SwitchedBeforeLoop(settings: Frame, initial: SessionRouting, published: seq<SessionRouting>,
                           headers: map<string, CodecInfo>, toMuted: bool)
    requires settings.Settings? && !StartsInStep(initial, published, headers)
    ensures var inputs := FailingInputs(Latest(initial, published).streamId);
            && ProducersRegistered(inputs, headers)
            && !Decodable(Transcript(settings, initial, published, inputs, headers, toMuted))
  {
    var s := Latest(initial, published).streamId;
    var inputs := FailingInputs(s);
    var hello := Handshake(settings, initial, headers);
    var start := Started(initial, published);
    ThreeInputs(start, inputs[0], inputs[1], inputs[2], headers, toMuted);
    assert Output(start, inputs, headers, toMuted) == [Chunk(s, 0, [])];
    var all := Transcript(settings, initial, published, inputs, headers, toMuted);
    assert all == hello + [Chunk(s, 0, [])];
    assert all[..|hello|] == hello;
    if initial.streamId in headers {
      LastHeaderSnoc([settings], Header(initial.streamId, headers[initial.streamId]));
    }
    assert LastHeader(hello) != Of(s);
    assert all[|hello|].Chunk?;
  }

  /** A session that has no unseen publication follows the published routing. */
  lemma {:induction false} SeenIsFollowed(initial: SessionRouting, published: seq<SessionRouting>, inputs: seq<Input>)
    ensures var s := StateAfter(Started(initial, published), inputs);
            !s.pending ==> s.routing == s.channel
  {
    if inputs != [] {
      SeenIsFollowed(initial, published, inputs[..|inputs| - 1]);
    }
  }
}
