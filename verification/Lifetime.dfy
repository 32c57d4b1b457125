/** The whole life of a playout stream, request by request: every byte that enters it is
    heard, dropped on purpose, or still pending, in the order it came, and whatever is
    on record happens to some stream (crates/snapcast-client/src/stream.rs). */
module Lifetime {
  import opened Arith
  import opened Bytes
  import opened Playout
  import opened SampleFormats
  import opened SyncControl
  import opened Timestamps
  import opened Wrappers

  /** What the client does to its stream. */
  datatype Request =
    | Add(chunk: PcmChunk)
    | SetBuffer(ms: int)
    | Play(now: int, dac: int, frames: nat)
    | ClearAll

  /** What the player gets: the verdict and its buffer. */
  datatype Answer = Answer(ok: bool, output: seq<byte>)

  const NO_ANSWER := Answer(true, [])

  /** What a stream is like between two requests. */
  datatype Snapshot = Snapshot(held: Held, bufferMs: int, readBuf: seq<byte>, trace: seq<Event>)

  const NEW := Snapshot(Held(None, []), 1000, [], [])

  ghost function Snap(s: Stream): Snapshot
    reads s
  {
    Snapshot(s.Holds(), s.bufferMs, s.readBuf, s.trace)
  }

  /** One request and what came of it: the stream before and after, the player's call,
      the answer, and the bytes dropped. */
  datatype Entry = Entry(request: Request, s0: Snapshot, s1: Snapshot, call: Option<Call>, answer: Answer,
                         dropped: seq<byte>)

  /** What a request does to a stream of format f. */
  ghost predicate Happened(f: SampleFormat, e: Entry) {
    match e.request
    case Add(chunk) =>
      chunk.Fits(f) && e.s1 == e.s0.(held := Held(e.s0.held.current, e.s0.held.queue + [chunk])) && Quiet(e)
    case SetBuffer(ms) =>
      e.s1 == e.s0.(bufferMs := ms) && Quiet(e)
    case ClearAll =>
      && e.s1 == e.s0.(held := Held(None, []), trace := e.s0.trace + [Cleared])
      && e.call == None && e.answer == NO_ANSWER && e.dropped == e.s0.held.Bytes()
    case Play(now, dac, frames) =>
      && Acceptable(e.request, f, e.s0.trace) && e.call.Some?
      && PlayHappened(f, now, dac, frames, e.s0, e.s1, e.call.value, e.answer, e.dropped)
  }

  ghost predicate Quiet(e: Entry) {
    e.call == None && e.answer == NO_ANSWER && e.dropped == []
  }

  /** A call was served with the chunks at hand; the player got its output, or silence;
      in hard-sync mode, and only then, bytes may have been dropped before those taken. */
  ghost predicate PlayHappened(f: SampleFormat, now: int, dac: int, frames: nat, s0: Snapshot, s1: Snapshot, call: Call,
                               answer: Answer, dropped: seq<byte>)
  {
    && CallFrom(f, now, dac, frames, s0, s1, call) && call.Served() && s1.bufferMs == s0.bufferMs
    && |call.before| == |call.after| == Times(frames, f.FrameSize())
    && answer == Answer(call.ok, if call.ok then call.after else Zeros(Times(frames, f.FrameSize())))
    && s0.held.Bytes() == dropped + call.got + s1.held.Bytes()
    && (After(s0.trace).hardSync || dropped == [])
  }

  /** The call is this request, made of the stream s0 and leaving s1. */
  ghost predicate CallFrom(f: SampleFormat, now: int, dac: int, frames: nat, s0: Snapshot, s1: Snapshot, call: Call) {
    call == Call(f, now, s0.bufferMs * 1000 - dac, frames, After(s0.trace), Next(s0.held.current, s0.held.queue), s1.held,
                 call.got, s0.readBuf, s1.readBuf, call.before, call.after, call.ok, s0.trace, s1.trace)
  }

  /** What the stream is like after the last entry. */
  function Final(log: seq<Entry>): Snapshot {
    if log == [] then NEW else log[|log| - 1].s1
  }

  /** Entry i of a log happened to what the one before it left, or to a new stream. */
  ghost predicate Linked(f: SampleFormat, log: seq<Entry>, i: nat)
    requires i < |log|
  {
    log[i].s0 == (if i == 0 then NEW else log[i - 1].s1) && Happened(f, log[i])
  }

  /** A log that starts with a new stream and in which one thing leads to the next. */
  ghost predicate History(f: SampleFormat, log: seq<Entry>) {
    forall i :: 0 <= i < |log| ==> Linked(f, log, i)
  }

  lemma HistoryBefore(f: SampleFormat, log: seq<Entry>)
    requires History(f, log) && log != []
    ensures var last := |log| - 1;
            History(f, log[..last]) && log[last].s0 == Final(log[..last]) && Happened(f, log[last])
  {
    var last := |log| - 1;
    assert Linked(f, log, last);
    forall i | 0 <= i < last
      ensures Linked(f, log[..last], i)
    {
      assert Linked(f, log, i);
    }
  }

  function Asked(log: seq<Entry>): (r: seq<Request>)
    ensures |r| == |log| && forall i :: 0 <= i < |log| ==> r[i] == log[i].request
  {
    seq(|log|, i requires 0 <= i < |log| => log[i].request)
  }

  function Answers(log: seq<Entry>): (r: seq<Answer>)
    ensures |r| == |log| && forall i :: 0 <= i < |log| ==> r[i] == log[i].answer
  {
    seq(|log|, i requires 0 <= i < |log| => log[i].answer)
  }

  lemma LogGrows(log: seq<Entry>, e: Entry)
    ensures Asked(log + [e]) == Asked(log) + [e.request] && Answers(log + [e]) == Answers(log) + [e.answer]
  {
  }

  lemma HistoryGrows(f: SampleFormat, log: seq<Entry>, e: Entry)
    requires History(f, log) && e.s0 == Final(log) && Happened(f, e)
    ensures History(f, log + [e]) && Final(log + [e]) == e.s1
  {
    forall i | 0 <= i < |log + [e]|
      ensures Linked(f, log + [e], i)
    {
      if i < |log| {
        assert Linked(f, log, i);
      }
    }
  }

  // ----- Conservation -----

  /** How bytes leave a stream. */
  datatype Piece = Heard(bytes: seq<byte>) | Dropped(bytes: seq<byte>)

  function AllBytes(pieces: seq<Piece>): seq<byte> {
    if pieces == [] then [] else AllBytes(pieces[..|pieces| - 1]) + pieces[|pieces| - 1].bytes
  }

  /** What left with one request: the bytes dropped, and then those taken by the call. */
  function LeftWith(e: Entry): seq<Piece> {
    [Dropped(e.dropped), Heard(if e.call.Some? then e.call.value.got else [])]
  }

  function AllLeft(log: seq<Entry>): seq<Piece> {
    if log == [] then [] else AllLeft(log[..|log| - 1]) + LeftWith(log[|log| - 1])
  }

  /** All audio added, in order. */
  function Added(log: seq<Entry>): seq<byte> {
    if log == [] then [] else Added(log[..|log| - 1]) + AddedBy(log[|log| - 1].request)
  }

  function AddedBy(r: Request): seq<byte> {
    if r.Add? then r.chunk.Rest() else []
  }

  lemma BytesLeft(pieces: seq<Piece>, e: Entry)
    ensures AllBytes(pieces + LeftWith(e)) == AllBytes(pieces) + LeftWith(e)[0].bytes + LeftWith(e)[1].bytes
  {
    var once := pieces + [LeftWith(e)[0]];
    var twice := pieces + LeftWith(e);
    assert twice[..|twice| - 1] == once && once[..|once| - 1] == pieces;
  }

  /** One request keeps the account: what was held and what came in is what left and
      what is held. */
  lemma EntryConserves(f: SampleFormat, e: Entry)
    requires Happened(f, e)
    ensures e.s0.held.Bytes() + AddedBy(e.request)
         == LeftWith(e)[0].bytes + LeftWith(e)[1].bytes + e.s1.held.Bytes()
  {
    match e.request
    case Add(chunk) =>
      QueueGrows(e.s0.held.queue, chunk);
      Associate(CurrentRest(e.s0.held.current), QueueRest(e.s0.held.queue), chunk.Rest());
    case _ =>
  }

  lemma Rearranged(a: seq<byte>, b: seq<byte>, c: seq<byte>, x: seq<byte>, y: seq<byte>, z: seq<byte>)
    requires b + c == x + y + z
    ensures (a + b) + c == (a + x + y) + z
  {
    assert (a + b) + c == a + (b + c);
    assert a + (x + y + z) == (a + x + y) + z;
  }

  /** Conservation over a whole life: everything added is what was heard or dropped, in
      order, followed by what is still pending. */
  lemma {:induction false} LifeConserves(f: SampleFormat, log: seq<Entry>)
    requires History(f, log)
    ensures Added(log) == AllBytes(AllLeft(log)) + Final(log).held.Bytes()
  {
    if log != [] {
      var last := |log| - 1;
      var e := log[last];
      HistoryBefore(f, log);
      LifeConserves(f, log[..last]);
      EntryConserves(f, e);
      BytesLeft(AllLeft(log[..last]), e);
      Rearranged(AllBytes(AllLeft(log[..last])), e.s0.held.Bytes(), AddedBy(e.request),
                 LeftWith(e)[0].bytes, LeftWith(e)[1].bytes, e.s1.held.Bytes());
    }
  }

  // ----- What one call keeps -----

  /** Taking up the next chunk loses nothing: the current one is used up. */
  lemma NextLosesNothing(current: Option<PcmChunk>, queue: seq<PcmChunk>)
    ensures Next(current, queue).Bytes() == CurrentRest(current) + QueueRest(queue)
  {
    if current == None || current.value.IsEnd() {
      assert CurrentRest(current) == [];
      assert [] + QueueRest(queue) == QueueRest(queue);
    }
  }

  lemma SeekKeepsTail(c: PcmChunk, frames: nat)
    ensures IsSuffix(c.Seek(frames).Rest(), c.Rest())
  {
  }

  /** What is held after the skip loop is the tail of the queue. */
  lemma {:induction false} SkippingKeepsTail(queue: seq<PcmChunk>, rate: nat, target: int)
    ensures IsSuffix(SkippedTo(queue, rate, target).Bytes(), QueueRest(queue))
    decreases |queue|
  {
    if queue == [] {
      assert SkippedTo(queue, rate, target) == Held(None, []);
    } else if Stale(queue[0], target) {
      SkippingKeepsTail(queue[1..], rate, target);
      SkipOne(queue, rate, target);
      SuffixOfAppend(queue[0].Rest(), QueueRest(queue[1..]), SkippedTo(queue, rate, target).Bytes());
    } else {
      var c := Landed(queue[0], rate, target);
      assert SkippedTo(queue, rate, target) == Held(Some(c), queue[1..]);
      if AgeAt(queue[0], target) > 0 {
        SeekKeepsTail(queue[0], UsecToFrames(AgeAt(queue[0], target), rate));
      }
      SuffixWithTail(queue[0].Rest(), c.Rest(), QueueRest(queue[1..]));
    }
  }

  lemma SkipOne(queue: seq<PcmChunk>, rate: nat, target: int)
    requires queue != [] && Stale(queue[0], target)
    ensures SkippedTo(queue, rate, target) == SkippedTo(queue[1..], rate, target)
  {
    var k := StaleCount(queue[1..], target);
    assert StaleCount(queue, target) == k + 1;
    if k < |queue[1..]| {
      assert queue[k + 1] == queue[1..][k] && queue[k + 2..] == queue[1..][k + 1..];
    }
  }

  /** The chunks a hard-sync call with this aim goes on with. */
  function AimedAt(aim: Aim, h: Held): Held {
    match aim
    case NotDue => h
    case RanOut => Held(None, [])
    case TooLate(c, queue) => Held(Some(c), queue)
    case Start(_, c, queue) => Held(Some(c), queue)
  }

  lemma AimKeepsTail(h: Held, rate: nat, frames: nat, target: int)
    requires h.current.Some? && rate > 0
    ensures IsSuffix(AimedAt(AimAt(h.current.value, h.queue, rate, frames, target), h).Bytes(), h.Bytes())
  {
    if AgeAt(h.current.value, target) > 0 {
      SkippingKeepsTail(h.queue, rate, target);
      SuffixOfAppend(h.current.value.Rest(), QueueRest(h.queue), SkippedTo(h.queue, rate, target).Bytes());
    }
  }

  lemma AimFront(h: Held, rate: nat, frames: nat, target: int) returns (aim: Aim, front: seq<byte>)
    requires h.current.Some? && rate > 0
    ensures aim == AimAt(h.current.value, h.queue, rate, frames, target)
    ensures h.Bytes() == front + AimedAt(aim, h).Bytes()
  {
    AimKeepsTail(h, rate, frames, target);
    aim := AimAt(h.current.value, h.queue, rate, frames, target);
    front := Front(h.Bytes(), AimedAt(aim, h).Bytes());
  }

  /** A call goes on from the chunks it aims at. */
  lemma GoesOnFrom(aim: Aim, frames: nat, size: nat, h0: Held, h1: Held, got: seq<byte>,
                   before: seq<byte>, after: seq<byte>, ok: bool, front: seq<byte>)
    requires h0.Bytes() == front + AimedAt(aim, h0).Bytes()
    ensures HardResult(aim, frames, size, h0, h1, got, before, after, ok) ==> h0.Bytes() == front + got + h1.Bytes()
  {
    TakesAimed(aim, frames, size, h0, h1, got, before, after, ok);
    assert front + (got + h1.Bytes()) == front + got + h1.Bytes();
  }

  lemma TakesAimed(aim: Aim, frames: nat, size: nat, h0: Held, h1: Held, got: seq<byte>,
                   before: seq<byte>, after: seq<byte>, ok: bool)
    ensures HardResult(aim, frames, size, h0, h1, got, before, after, ok) ==>
              AimedAt(aim, h0).Bytes() == got + h1.Bytes()
  {
  }

  /** A call drops some bytes from the front, in hard-sync mode, delivers the next ones,
      and keeps the rest. */
  lemma CallConserves(call: Call) returns (dropped: seq<byte>)
    ensures call.Served() ==>
              call.h0.Bytes() == dropped + call.got + call.h1.Bytes() && (call.control.hardSync || dropped == [])
  {
    dropped := [];
    if call.control.hardSync && call.Aligns() {
      dropped := HardCallConserves(call);
    } else {
      NothingDropped(call);
    }
  }

  lemma NothingDropped(call: Call)
    ensures call.Idle() || call.PlaysOn() ==> call.h0.Bytes() == [] + call.got + call.h1.Bytes()
  {
    assert [] + call.got == call.got;
    assert [] + call.h1.Bytes() == call.h1.Bytes();
  }

  lemma HardCallConserves(call: Call) returns (dropped: seq<byte>)
    requires call.h0.current.Some? && call.format.rate > 0
    ensures call.Aligns() ==> call.h0.Bytes() == dropped + call.got + call.h1.Bytes()
  {
    var aim, front := AimFront(call.h0, call.format.rate, call.frames, call.now - call.lead);
    AlignsTo(call, aim);
    GoesOnFrom(aim, call.frames, call.format.FrameSize(), call.h0, call.h1,
               call.got, call.before, call.after, call.ok, front);
    dropped := front;
  }

  lemma AlignsTo(call: Call, aim: Aim)
    requires call.h0.current.Some? && call.format.rate > 0
    requires aim == AimAt(call.h0.current.value, call.h0.queue, call.format.rate, call.frames, call.now - call.lead)
    ensures call.Aligns() ==> HardResult(aim, call.frames, call.format.FrameSize(), call.h0, call.h1, call.got,
                                         call.before, call.after, call.ok)
  {
  }

  lemma Front(all: seq<byte>, tail: seq<byte>) returns (front: seq<byte>)
    requires IsSuffix(tail, all)
    ensures all == front + tail
  {
    SuffixSplits(tail, all);
    front := all[..|all| - |tail|];
  }

  // ----- Requests -----

  /** What a stream with this record can be asked for. */
  predicate Acceptable(r: Request, f: SampleFormat, trace: seq<Event>) {
    match r
    case Add(chunk) => chunk.Fits(f)
    case Play(_, _, frames) =>
      After(trace).hardSync || (frames <= MAX_REQUEST && (frames > 0 || Due(After(trace), frames) == 0))
    case _ => true
  }

  lemma AllSilent(before: seq<byte>, n: nat, after: seq<byte>)
    requires |after| == n
    ensures Wrote(before, 0, Zeros(n), after) ==> after == Zeros(n)
  {
  }

  method HandlePlay(s: Stream, now: int, dac: int, frames: nat)
    returns (answer: Answer, ghost call: Call, ghost dropped: seq<byte>)
    requires s.Valid() && Acceptable(Play(now, dac, frames), s.format, s.trace)
    modifies s, s.miniBuffer, s.shortBuffer, s.buffer
    ensures PlayHappened(s.format, now, dac, frames, old(Snap(s)), Snap(s), call, answer, dropped)
    ensures s.Valid()
  {
    NextLosesNothing(s.current, s.chunks);
    var output := new byte[Times(frames, s.format.FrameSize())];
    answer, call := AskPlayer(s, now, dac, output, frames);
    dropped := CallConserves(call);
  }

  method AskPlayer(s: Stream, now: int, dac: int, output: array<byte>, frames: nat)
    returns (answer: Answer, ghost call: Call)
    requires s.Valid() && Acceptable(Play(now, dac, frames), s.format, s.trace)
    requires output.Length == Times(frames, s.format.FrameSize())
    modifies s, s.miniBuffer, s.shortBuffer, s.buffer, output
    ensures CallFrom(s.format, now, dac, frames, old(Snap(s)), Snap(s), call) && call.Served()
    ensures |call.before| == |call.after| == Times(frames, s.format.FrameSize())
    ensures answer == Answer(call.ok, if call.ok then call.after else Zeros(Times(frames, s.format.FrameSize())))
    ensures s.Valid() && s.bufferMs == old(s.bufferMs)
  {
    RunReaches(s.trace, s.states);
    var ok;
    ok, call := s.GetPlayerChunkOrSilence(now, dac, output, frames);
    answer := Answer(ok, output[..]);
    AllSilent(call.after, output.Length, output[..]);
  }

  method Handle(s: Stream, r: Request) returns (answer: Answer, ghost e: Entry)
    requires s.Valid() && Acceptable(r, s.format, s.trace)
    modifies s, s.miniBuffer, s.shortBuffer, s.buffer
    ensures s.Valid() && e.request == r && e.s0 == old(Snap(s)) && e.s1 == Snap(s) && e.answer == answer
    ensures Happened(s.format, e)
  {
    ghost var s0 := Snap(s);
    answer := NO_ANSWER;
    match r
    case Add(chunk) =>
      s.AddChunk(chunk);
      e := Entry(r, s0, Snap(s), None, answer, []);
    case SetBuffer(ms) =>
      s.SetBufferMs(ms);
      e := Entry(r, s0, Snap(s), None, answer, []);
    case ClearAll =>
      s.Clear();
      e := Entry(r, s0, Snap(s), None, answer, s0.held.Bytes());
    case Play(now, dac, frames) =>
      ghost var call, dropped;
      answer, call, dropped := HandlePlay(s, now, dac, frames);
      e := Entry(r, s0, Snap(s), Some(call), answer, dropped);
  }

  /** Requests that any stream accepts at any time. */
  predicate Ordinary(r: Request, f: SampleFormat) {
    match r
    case Add(chunk) => chunk.Fits(f)
    case Play(_, _, frames) => 0 < frames <= MAX_REQUEST
    case _ => true
  }

  /** One request more on the log. */
  method Apply(s: Stream, r: Request, ghost log: seq<Entry>) returns (answer: Answer, ghost log': seq<Entry>)
    requires s.Valid() && Acceptable(r, s.format, s.trace) && History(s.format, log) && Final(log) == Snap(s)
    modifies s, s.miniBuffer, s.shortBuffer, s.buffer
    ensures s.Valid() && History(s.format, log') && Final(log') == Snap(s)
    ensures Asked(log') == Asked(log) + [r] && Answers(log') == Answers(log) + [answer]
  {
    ghost var e;
    answer, e := Handle(s, r);
    HistoryGrows(s.format, log, e);
    LogGrows(log, e);
    log' := log + [e];
  }

  lemma OrdinaryIsAcceptable(r: Request, f: SampleFormat, trace: seq<Event>)
    requires Ordinary(r, f)
    ensures Acceptable(r, f, trace)
  {
  }

  /** A stream's whole life: every request is answered, and the log of what happened
      leads from the new stream to the one returned. */
  method Live(format: SampleFormat, requests: seq<Request>)
    returns (s: Stream, answers: seq<Answer>, ghost log: seq<Entry>)
    requires format.FrameSize() > 0 && format.rate > 0
    requires forall i :: 0 <= i < |requests| ==> Ordinary(requests[i], format)
    ensures s.Valid() && s.format == format && History(format, log) && Final(log) == Snap(s)
    ensures Asked(log) == requests && Answers(log) == answers
    ensures Added(log) == AllBytes(AllLeft(log)) + Final(log).held.Bytes()
  {
    s := new Stream(format);
    answers, log := [], [];
    for i := 0 to |requests|
      invariant s.Valid() && s.format == format && fresh(s)
      invariant fresh(s.miniBuffer) && fresh(s.shortBuffer) && fresh(s.buffer)
      invariant History(format, log) && Final(log) == Snap(s)
      invariant Asked(log) == requests[..i] && Answers(log) == answers
    {
      OrdinaryIsAcceptable(requests[i], format, s.trace);
      var answer;
      answer, log := Apply(s, requests[i], log);
      assert requests[..i + 1] == requests[..i] + [requests[i]];
      answers := answers + [answer];
    }
    LifeConserves(format, log);
  }

  // ----- What can be on record -----

  /** The record of a stream is a reachable run, and in normal mode what its last call
      left over is still held. */
  ghost predicate OnRecord(s: Snapshot, size: nat) {
    Reachable(s.trace) && (!After(s.trace).hardSync ==> |s.held.Bytes()| >= Times(Spare(s.trace), size))
  }

  lemma EventBooked(es: seq<Event>, e: Event)
    ensures After(es + [e]) == Step(After(es), e)
    ensures e.Played? || Spare(es + [e]) == 0
  {
    assert Before(es + [e]) == es;
  }

  lemma OneMoreEvent(es: seq<Event>, e: Event)
    ensures Reachable(es + [e]) <==> Reachable(es) && Enabled(After(es), e) && CanFollow(es, e)
  {
    assert Before(es + [e]) == es;
  }

  /** The event a call in normal mode puts on record. */
  function Booked(call: Call): Event
    requires call.h0.current.Some? && call.format.FrameSize() > 0 && call.h0.current.value.Fits(call.format)
  {
    Played(call.frames, Quot(|call.h0.Bytes()|, call.format.FrameSize()),
           call.now - call.h0.current.value.CursorUsec() - call.lead, call.now)
  }

  /** The bytes and the record of a call in normal mode. */
  ghost predicate Accounts(call: Call) {
    && call.h0.current.Some? && call.format.FrameSize() > 0 && call.h0.current.value.Fits(call.format)
    && call.trace1 == call.trace0 + [Booked(call)]
    && |call.got| == Min(Times(Wanted(call.control, call.frames), call.format.FrameSize()), |call.h0.Bytes()|)
    && |call.h0.Bytes()| == |call.got| + |call.h1.Bytes()|
  }

  lemma PlaysOnAccounts(call: Call)
    ensures call.PlaysOn() ==> Accounts(call)
  {
    if call.PlaysOn() {
      var all, rest := call.h0.Bytes(), call.h1.Bytes();
      assert all == call.got + rest;
    }
  }

  /** What a call in normal mode leaves over. */
  lemma LeftOver(call: Call, size: nat, pending: nat)
    requires size == call.format.FrameSize() && size > 0 && pending == Quot(|call.h0.Bytes()|, size)
    ensures var spare := pending - Taken(call.control, call.frames, pending);
            Accounts(call) ==>
              && Times(pending, size) <= |call.h0.Bytes()| && |call.h1.Bytes()| >= Times(spare, size)
              && (|call.h0.Bytes()| == Times(pending, size) ==> |call.h1.Bytes()| == Times(spare, size))
  {
    if Accounts(call) {
      WithinFrames(|call.h0.Bytes()|, size);
      LeftFrames(Wanted(call.control, call.frames), pending, size, |call.h0.Bytes()|, |call.got|);
    }
  }

  lemma LeftFrames(wanted: nat, pending: nat, size: nat, bytes: nat, got: nat)
    requires Times(pending, size) <= bytes < Times(pending + 1, size) && got == Min(Times(wanted, size), bytes)
    ensures bytes - got >= Times(pending - Min(wanted, pending), size)
    ensures bytes == Times(pending, size) ==> bytes - got == Times(pending - Min(wanted, pending), size)
  {
    if wanted <= pending {
      TimesMono(wanted, pending, size);
    } else {
      TimesMono(pending + 1, wanted, size);
    }
  }

  lemma WithinFrames(bytes: nat, size: nat)
    requires size > 0
    ensures Times(Quot(bytes, size), size) <= bytes < Times(Quot(bytes, size) + 1, size)
  {
    var n := Quot(bytes, size);
    QuotRem(bytes, size);
    TimesIsProduct(n, size);
    TimesSum(n, 1, size);
  }

  lemma AlignIsOnRecord(call: Call, size: nat)
    requires call.Aligns() && call.control == After(call.trace0) && After(call.trace0).hardSync && Reachable(call.trace0)
    ensures Reachable(call.trace1) && (!After(call.trace1).hardSync ==> Spare(call.trace1) == 0)
  {
    EventBooked(call.trace0, Aligned);
    OneMoreEvent(call.trace0, Aligned);
    assert call.trace0 + [] == call.trace0;
  }

  lemma PlayIsOnRecord(call: Call, s0: Snapshot, s1: Snapshot)
    requires Accounts(call) && call.trace0 == s0.trace && call.trace1 == s1.trace && call.h1 == s1.held
    requires call.control == After(s0.trace) && !After(s0.trace).hardSync
    requires |call.h0.Bytes()| == |s0.held.Bytes()| && OnRecord(s0, call.format.FrameSize())
    requires call.frames <= MAX_REQUEST && (call.frames > 0 || Due(call.control, call.frames) == 0)
    ensures OnRecord(s1, call.format.FrameSize())
  {
    var size, e := call.format.FrameSize(), Booked(call);
    LeftOver(call, size, e.pending);
    FramesHeld(Spare(s0.trace), |call.h0.Bytes()|, size);
    PlayedOnRecord(s0.trace, e, s1, size);
  }

  lemma PlayedOnRecord(es: seq<Event>, e: Event, s1: Snapshot, size: nat)
    requires e.Played?
    ensures (Reachable(es) && Enabled(After(es), e) && CanFollow(es, e) && s1.trace == es + [e]
             && |s1.held.Bytes()| >= Times(e.pending - Taken(After(es), e.frames, e.pending), size)) ==>
              OnRecord(s1, size)
  {
    OneMoreEvent(es, e);
    SpareAfter(es, e);
  }

  lemma FramesHeld(n: nat, bytes: nat, size: nat)
    requires size > 0 && Times(n, size) <= bytes
    ensures n <= Quot(bytes, size)
  {
    var q := Quot(bytes, size);
    WithinFrames(bytes, size);
    if q < n {
      TimesMono(q + 1, n, size);
    }
  }

  lemma EntryIsOnRecord(f: SampleFormat, e: Entry)
    requires f.FrameSize() > 0 && Happened(f, e) && OnRecord(e.s0, f.FrameSize())
    ensures OnRecord(e.s1, f.FrameSize())
  {
    match e.request
    case Add(chunk) => EntryConserves(f, e);
    case SetBuffer(_) =>
    case ClearAll =>
      EventBooked(e.s0.trace, Cleared);
      OneMoreEvent(e.s0.trace, Cleared);
    case Play(_, _, _) =>
      var call := e.call.value;
      NextLosesNothing(e.s0.held.current, e.s0.held.queue);
      if call.control.hardSync && call.Aligns() {
        AlignIsOnRecord(call, f.FrameSize());
      } else if !call.Idle() {
        PlaysOnAccounts(call);
        PlayIsOnRecord(call, e.s0, e.s1);
      }
  }

  /** Whatever is done to a stream, its record is a reachable run. */
  lemma {:induction false} HistoryIsReachable(f: SampleFormat, log: seq<Entry>)
    requires f.FrameSize() > 0 && History(f, log)
    ensures OnRecord(Final(log), f.FrameSize())
  {
    if log != [] {
      HistoryBefore(f, log);
      HistoryIsReachable(f, log[..|log| - 1]);
      EntryIsOnRecord(f, log[|log| - 1]);
    }
  }

  // ----- Bringing a stream to any reachable record -----

  /** The record so far, with exactly the left-over frames held in normal mode. */
  ghost predicate Stands(s: Snapshot, es: seq<Event>, size: nat) {
    s.trace == es && (!After(es).hardSync ==> |s.held.Bytes()| == Times(Spare(es), size))
  }

  /** A chunk of so many frames of this format, stamped 0. */
  predicate Spacer(c: PcmChunk, format: SampleFormat, frames: nat) {
    c.Fits(format) && c.StartUsec() == 0 && |c.Rest()| == Times(frames, format.FrameSize())
  }

  method MakeSpacer(format: SampleFormat, frames: nat) returns (c: PcmChunk)
    requires format.FrameSize() > 0 && format.rate > 0
    ensures Spacer(c, format, frames)
  {
    WholeSum(0, frames, format.FrameSize());
    c := PcmChunk(Timeval(0, 0), Zeros(Times(frames, format.FrameSize())), format, 0);
  }

  /** A time at which all these chunks are over. */
  function AfterAll(cs: seq<PcmChunk>): (t: int)
    ensures forall u, i :: t <= u && 0 <= i < |cs| ==> Stale(cs[i], u)
  {
    if cs == [] then 0
    else
      var t := AfterAll(cs[1..]);
      var own := cs[0].StartUsec() + cs[0].DurationUsec() + 1;
      if t >= own then t else own
  }

  lemma {:induction false} AllStale(cs: seq<PcmChunk>, target: int)
    requires forall i :: 0 <= i < |cs| ==> Stale(cs[i], target)
    ensures StaleCount(cs, target) == |cs|
  {
    if cs != [] {
      AllStale(cs[1..], target);
    }
  }

  /** Everything held is over at this time. */
  predicate LateFor(h: Held, t: int) {
    && (h.current.Some? ==> AgeAt(h.current.value, t) > 0) && StaleCount(h.queue, t) == |h.queue|
    && (h.current == None ==> h.queue == [])
  }

  /** A call in hard-sync mode that comes too late for everything drops everything. */
  lemma TooLateForAll(call: Call)
    ensures call.Served() && call.control.hardSync && LateFor(call.h0, call.now - call.lead) ==>
              call.h1 == Held(None, []) && call.trace1 == call.trace0
  {
    if call.Aligns() && LateFor(call.h0, call.now - call.lead) {
      assert AimAt(call.h0.current.value, call.h0.queue, call.format.rate, call.frames, call.now - call.lead) == RanOut;
      assert call.trace0 + [] == call.trace0;
    }
  }

  /** A time that is too late for everything held. */
  method TooLate(h: Held) returns (t: int)
    requires h.current == None ==> h.queue == []
    ensures LateFor(h, t)
  {
    t := AfterAll(h.queue);
    if h.current.Some? && t <= h.current.value.StartUsec() {
      t := h.current.value.StartUsec() + 1;
    }
    AllStale(h.queue, t);
  }

  method DropAll(s: Stream, ghost log: seq<Entry>) returns (ghost log': seq<Entry>)
    requires s.Valid() && History(s.format, log) && Final(log) == Snap(s) && After(s.trace).hardSync
    modifies s, s.miniBuffer, s.shortBuffer, s.buffer
    ensures s.Valid() && History(s.format, log') && Final(log') == Snap(s)
    ensures s.Holds() == Held(None, []) && s.trace == old(s.trace)
  {
    var t := TooLate(Next(s.current, s.chunks));
    var answer;
    ghost var call;
    answer, call, log' := Ask(s, Play(t, s.bufferMs * 1000, 1), log);
    TooLateForAll(call);
  }

  /** One call more on the log. */
  method Ask(s: Stream, r: Request, ghost log: seq<Entry>)
    returns (answer: Answer, ghost call: Call, ghost log': seq<Entry>)
    requires r.Play? && s.Valid() && Acceptable(r, s.format, s.trace)
    requires History(s.format, log) && Final(log) == Snap(s)
    modifies s, s.miniBuffer, s.shortBuffer, s.buffer
    ensures CallFrom(s.format, r.now, r.dac, r.frames, old(Snap(s)), Snap(s), call) && call.Served()
    ensures s.Valid() && History(s.format, log') && Final(log') == Snap(s)
  {
    ghost var e;
    answer, e := Handle(s, r);
    HistoryGrows(s.format, log, e);
    call, log' := e.call.value, log + [e];
  }

  method FeedOne(s: Stream, c: PcmChunk, ghost log: seq<Entry>) returns (ghost log': seq<Entry>)
    requires s.Valid() && c.Fits(s.format) && History(s.format, log) && Final(log) == Snap(s)
    modifies s, s.miniBuffer, s.shortBuffer, s.buffer
    ensures s.Valid() && History(s.format, log') && Final(log') == Snap(s)
    ensures s.Holds() == Held(old(s.Holds()).current, old(s.Holds()).queue + [c])
    ensures |s.Holds().Bytes()| == old(|s.Holds().Bytes()|) + |c.Rest()|
    ensures s.trace == old(s.trace) && s.bufferMs == old(s.bufferMs)
  {
    var answer;
    ghost var e;
    answer, e := Handle(s, Add(c));
    EntryConserves(s.format, e);
    HistoryGrows(s.format, log, e);
    log' := log + [e];
  }

  /** So many frames are held. */
  ghost predicate Stocked(s: Snapshot, frames: nat, size: nat) {
    |s.held.Bytes()| == Times(frames, size)
  }

  /** Behind the frames held come so many that there are `frames` of them. */
  method Feed(s: Stream, held: nat, frames: nat, ghost log: seq<Entry>) returns (ghost log': seq<Entry>)
    requires s.Valid() && History(s.format, log) && Final(log) == Snap(s)
    requires Stocked(Snap(s), held, s.format.FrameSize()) && held <= frames
    modifies s, s.miniBuffer, s.shortBuffer, s.buffer
    ensures s.chunks != [] && s.trace == old(s.trace)
    ensures Stocked(Snap(s), frames, s.format.FrameSize())
    ensures s.Valid() && History(s.format, log') && Final(log') == Snap(s)
  {
    TimesMono(held, frames, s.format.FrameSize());
    var c := MakeSpacer(s.format, frames - held);
    log' := FeedOne(s, c, log);
  }

  /** A call for one frame with nothing at hand but an empty chunk that is due now. */
  ghost predicate DueAtOnce(call: Call, c: PcmChunk) {
    && call.Served() && call.control.hardSync && call.now == call.lead && call.frames == 1
    && call.h0 == Held(Some(c), []) && Spacer(c, call.format, 0)
  }

  /** An empty chunk due now ends a hard sync. */
  lemma AlignsAtOnce(call: Call, c: PcmChunk)
    ensures DueAtOnce(call, c) ==> call.trace1 == call.trace0 + [Aligned] && call.h1.Bytes() == []
  {
    if DueAtOnce(call, c) {
      TimesIsProduct(call.format.rate, 0);
      assert AimAt(c, [], call.format.rate, call.frames, 0) == Start(0, c, []);
    }
  }

  method AlignNow(s: Stream, ghost log: seq<Entry>) returns (ghost log': seq<Entry>)
    requires s.Valid() && History(s.format, log) && Final(log) == Snap(s) && After(s.trace).hardSync
    modifies s, s.miniBuffer, s.shortBuffer, s.buffer
    ensures s.Valid() && History(s.format, log') && Final(log') == Snap(s)
    ensures s.trace == old(s.trace) + [Aligned] && s.Holds().Bytes() == []
  {
    log' := DropAll(s, log);
    var c := MakeSpacer(s.format, 0);
    log' := FeedOne(s, c, log');
    var answer;
    ghost var call;
    answer, call, log' := Ask(s, Play(0, s.bufferMs * 1000, 1), log');
    AlignsAtOnce(call, c);
  }

  /** A call that finds so many frames and measures this age. */
  ghost predicate Stages(call: Call, e: Event, size: nat) {
    && e.Played? && call.frames == e.frames && call.now == e.now && size == call.format.FrameSize()
    && Accounts(call) && |call.h0.Bytes()| == Times(e.pending, size) && call.control == After(call.trace0)
    && call.lead == e.now - call.h0.current.value.CursorUsec() - e.age
  }

  lemma PlaysAs(call: Call, e: Event, size: nat)
    requires Stages(call, e, size)
    ensures call.trace1 == call.trace0 + [e]
    ensures |call.h1.Bytes()| == Times(Spare(call.trace1), size)
  {
    QuotOfTimes(e.pending, size);
    assert Booked(call) == e;
    LeftOver(call, size, e.pending);
    SpareAfter(call.trace0, e);
  }

  lemma QuotOfTimes(n: nat, size: nat)
    requires size > 0
    ensures Quot(Times(n, size), size) == n
  {
    TimesIsProduct(n, size);
    QuotRem(n * size, size);
    DivMultiple(n, size);
  }

  lemma SpareAfter(es: seq<Event>, e: Event)
    requires e.Played?
    ensures Spare(es + [e]) == e.pending - Taken(After(es), e.frames, e.pending)
  {
    assert Before(es + [e]) == es;
  }

  method PlayAs(s: Stream, ghost es: seq<Event>, e: Event, spare: nat, ghost log: seq<Entry>)
    returns (ghost log': seq<Entry>)
    requires s.Valid() && History(s.format, log) && Final(log) == Snap(s) && s.trace == es
    requires e.Played? && Enabled(After(es), e) && CanFollow(es, e) && spare == Spare(es)
    requires Stocked(Snap(s), spare, s.format.FrameSize())
    modifies s, s.miniBuffer, s.shortBuffer, s.buffer
    ensures s.Valid() && History(s.format, log') && Final(log') == Snap(s)
    ensures s.trace == es + [e]
    ensures Stocked(Snap(s), Spare(s.trace), s.format.FrameSize())
  {
    log' := Feed(s, spare, e.pending, log);
    log' := PlayFed(s, es, e, log');
  }

  /** What a fed stream has at hand. */
  method AtHand(s: Stream) returns (h: Held)
    requires s.Valid() && s.chunks != []
    ensures h == s.Upcoming() && h.Bytes() == s.Holds().Bytes()
    ensures h.current.Some? && h.current.value.Fits(s.format)
  {
    NextLosesNothing(s.current, s.chunks);
    h := Next(s.current, s.chunks);
  }

  method PlayFed(s: Stream, ghost es: seq<Event>, e: Event, ghost log: seq<Entry>)
    returns (ghost log': seq<Entry>)
    requires s.Valid() && History(s.format, log) && Final(log) == Snap(s) && s.trace == es
    requires e.Played? && Enabled(After(es), e) && e.frames <= MAX_REQUEST
    requires s.chunks != [] && Stocked(Snap(s), e.pending, s.format.FrameSize())
    modifies s, s.miniBuffer, s.shortBuffer, s.buffer
    ensures s.Valid() && History(s.format, log') && Final(log') == Snap(s)
    ensures s.trace == es + [e]
    ensures Stocked(Snap(s), Spare(s.trace), s.format.FrameSize())
  {
    ghost var c := After(es);
    var h := AtHand(s);
    var lead := e.now - h.current.value.CursorUsec() - e.age;
    var answer;
    ghost var call;
    answer, call, log' := Ask(s, Play(e.now, s.bufferMs * 1000 - lead, e.frames), log);
    assert call.h1 == s.Holds() && call.control == c;
    PlaysOnAccounts(call);
    PlaysAs(call, e, s.format.FrameSize());
    ghost var stocked := Stocked(Snap(s), Spare(s.trace), s.format.FrameSize());
    assert stocked;
  }

  lemma {:induction false} ReachedBefore(es: seq<Event>, i: nat)
    requires Reachable(es) && i < |es|
    ensures Enabled(After(es[..i]), es[i]) && CanFollow(es[..i], es[i])
    ensures es[..i + 1] == es[..i] + [es[i]]
  {
    if i == |es| - 1 {
      assert es[..i] == Before(es);
    } else {
      ReachedBefore(Before(es), i);
      assert Before(es)[..i] == es[..i];
    }
  }

  /** Every reachable run is the record of some stream, brought there by adding chunks,
      calling, and clearing. */
  method Realise(format: SampleFormat, es: seq<Event>) returns (s: Stream, ghost log: seq<Entry>)
    requires format.FrameSize() > 0 && format.rate > 0 && Reachable(es)
    ensures s.Valid() && s.format == format && History(format, log) && Final(log) == Snap(s)
    ensures s.trace == es && s.Ctl() == After(es)
  {
    s := new Stream(format);
    log := [];
    for i := 0 to |es|
      invariant s.Valid() && s.format == format && fresh(s)
      invariant fresh(s.miniBuffer) && fresh(s.shortBuffer) && fresh(s.buffer)
      invariant History(format, log) && Final(log) == Snap(s)
      invariant Stands(Snap(s), es[..i], format.FrameSize())
    {
      ReachedBefore(es, i);
      log := Bring(s, es[..i], es[i], es[..i + 1], Spare(es[..i]), log);
    }
    assert es[..|es|] == es;
    RunReaches(s.trace, s.states);
  }

  method ForgetAll(s: Stream, ghost log: seq<Entry>) returns (ghost log': seq<Entry>)
    requires s.Valid() && History(s.format, log) && Final(log) == Snap(s)
    modifies s, s.miniBuffer, s.shortBuffer, s.buffer
    ensures s.Valid() && History(s.format, log') && Final(log') == Snap(s)
    ensures s.trace == old(s.trace) + [Cleared]
  {
    var answer;
    ghost var e;
    answer, e := Handle(s, ClearAll);
    HistoryGrows(s.format, log, e);
    log' := log + [e];
  }

  lemma ClearedStands(s: Snapshot, es: seq<Event>, size: nat)
    ensures s.trace == es + [Cleared] ==> Stands(s, es + [Cleared], size)
  {
    EventBooked(es, Cleared);
  }

  lemma AlignedStands(s: Snapshot, es: seq<Event>, size: nat)
    ensures s.trace == es + [Aligned] && s.held.Bytes() == [] ==> Stands(s, es + [Aligned], size)
  {
    EventBooked(es, Aligned);
  }

  /** One event more on record. */
  method Bring(s: Stream, ghost es: seq<Event>, e: Event, ghost es': seq<Event>, spare: nat, ghost log: seq<Entry>)
    returns (ghost log': seq<Entry>)
    requires s.Valid() && History(s.format, log) && Final(log) == Snap(s)
    requires Stands(Snap(s), es, s.format.FrameSize())
    requires Enabled(After(es), e) && CanFollow(es, e) && spare == Spare(es) && es' == es + [e]
    modifies s, s.miniBuffer, s.shortBuffer, s.buffer
    ensures Stands(Snap(s), es', s.format.FrameSize())
    ensures s.Valid() && History(s.format, log') && Final(log') == Snap(s)
  {
    ghost var size := s.format.FrameSize();
    match e {
      case Cleared =>
        log' := ForgetAll(s, log);
        ClearedStands(Snap(s), es, size);
      case Aligned =>
        log' := AlignNow(s, log);
        AlignedStands(Snap(s), es, size);
      case Played(_, _, _, _) =>
        log' := PlayAs(s, es, e, spare, log);
    }
    ghost var stands := Stands(Snap(s), es', size);
    assert stands;
  }
}
