/** When audio is heard, in the numbers the program is written with: microseconds, bytes
    and frames (crates/snapcast-client/src/stream.rs). */
module Timing {
  import opened Alignment
  import opened Arith
  import opened Bytes
  import opened Lifetime
  import opened Playout
  import opened SampleFormats
  import opened SliceEdit
  import opened SyncControl
  import opened Timestamps
  import opened Wrappers

  // ----- Sizes and durations -----

  /** A frame has a sample for every channel; samples of 24 bits take four bytes. */
  lemma SizesInNumbers(f: SampleFormat)
    ensures f.FrameSize() == f.channels * (if f.bits == 24 then 4 else f.bits / 8)
  {
    TimesIsProduct(f.channels, f.SampleSize());
  }

  /** A chunk of so many bytes holds n whole frames. */
  predicate HoldsFrames(c: PcmChunk, n: nat) {
    n * c.format.FrameSize() <= |c.data| < (n + 1) * c.format.FrameSize()
  }

  lemma FramesHeldAre(c: PcmChunk, n: nat)
    requires c.format.FrameSize() > 0 && HoldsFrames(c, n)
    ensures Quot(|c.data|, c.format.FrameSize()) == n
  {
    QuotRem(|c.data|, c.format.FrameSize());
    DivUnique(|c.data|, c.format.FrameSize(), n);
  }

  /** A chunk lasts as long as its frames, rounded down to the microsecond. */
  lemma DurationExactly(c: PcmChunk, n: nat)
    requires c.format.FrameSize() > 0 && c.format.rate > 0 && HoldsFrames(c, n)
    ensures var usec := c.DurationUsec();
            c.format.rate * usec <= n * 1_000_000 < c.format.rate * (usec + 1)
  {
    FramesHeldAre(c, n);
    Floored(n * 1_000_000, c.format.rate);
  }

  lemma Floored(a: nat, d: nat)
    requires d > 0
    ensures d * Quot(a, d) <= a < d * (Quot(a, d) + 1)
  {
    QuotRem(a, d);
    DivBounds(a, d);
  }

  /** How late a chunk's start is at this time. */
  function Lateness(c: PcmChunk, target: int): int {
    target - (c.timestamp.sec * 1_000_000 + c.timestamp.usec)
  }

  /** A chunk of n frames is over: it is late, and by no less than it lasts. */
  predicate IsOver(c: PcmChunk, n: nat, target: int) {
    Lateness(c, target) > 0 && c.format.rate * (Lateness(c, target) + 1) > n * 1_000_000
  }

  lemma StaleExactly(c: PcmChunk, n: nat, target: int)
    requires c.format.FrameSize() > 0 && c.format.rate > 0 && HoldsFrames(c, n)
    ensures AgeAt(c, target) == Lateness(c, target)
    ensures Stale(c, target) <==> IsOver(c, n, target)
  {
    DurationExactly(c, n);
    var usec, age := c.DurationUsec(), Lateness(c, target);
    if age >= usec {
      MulMono(usec + 1, age + 1, c.format.rate);
    } else {
      MulMono(age + 1, usec, c.format.rate);
    }
  }

  // ----- The skip loop -----

  /** Chunk k is the first of the queue that is not over. */
  ghost predicate FirstNotOver(queue: seq<PcmChunk>, counts: seq<nat>, target: int, k: nat)
    requires |counts| == |queue|
  {
    && k <= |queue| && (forall i :: 0 <= i < k ==> IsOver(queue[i], counts[i], target))
    && (k < |queue| ==> !IsOver(queue[k], counts[k], target))
  }

  ghost predicate Counted(queue: seq<PcmChunk>, counts: seq<nat>, f: SampleFormat) {
    && |counts| == |queue| && f.FrameSize() > 0 && f.rate > 0
    && forall i :: 0 <= i < |queue| ==> queue[i].Sound(f) && HoldsFrames(queue[i], counts[i])
  }

  lemma StaleAre(queue: seq<PcmChunk>, counts: seq<nat>, f: SampleFormat, target: int)
    requires Counted(queue, counts, f)
    ensures FirstNotOver(queue, counts, target, StaleCount(queue, target))
  {
    forall i | 0 <= i < |queue|
      ensures Stale(queue[i], target) <==> IsOver(queue[i], counts[i], target)
    {
      StaleExactly(queue[i], counts[i], target);
    }
  }

  /** Skipping throws away exactly the chunks that are over, up to the first that is not,
      and moves that one's cursor, if it is late, by the whole frames that are past, at
      most to its end. */
  lemma SkipsExactly(queue: seq<PcmChunk>, counts: seq<nat>, f: SampleFormat, target: int)
    returns (k: nat)
    requires Counted(queue, counts, f)
    ensures FirstNotOver(queue, counts, target, k)
    ensures k == |queue| ==> SkippedTo(queue, f.rate, target) == Held(None, [])
    ensures k < |queue| ==>
              exists past: nat, c: PcmChunk ::
                && SkippedTo(queue, f.rate, target) == Held(Some(c), queue[k + 1..]) && IsMoved(queue[k], c, past)
                && IsPast(f.rate, Lateness(queue[k], target), past)
  {
    StaleAre(queue, counts, f, target);
    k := StaleCount(queue, target);
    if k < |queue| {
      var age := AgeAt(queue[k], target);
      StaleExactly(queue[k], counts[k], target);
      var c := Landed(queue[k], f.rate, target);
      var past := PastFrames(f.rate, age);
      MovedBy(queue[k], f.rate, target);
      assert SkippedTo(queue, f.rate, target) == Held(Some(c), queue[k + 1..]);
    }
  }

  /** The cursor has gone on by so many frames, at most to the end. */
  predicate IsMoved(c: PcmChunk, moved: PcmChunk, past: nat) {
    moved == c.(readPos := Min(c.readPos + past * c.format.FrameSize(), |c.data|))
  }

  /** So many whole frames have gone by in this time; none if it is not over yet. */
  predicate IsPast(rate: nat, age: int, past: nat) {
    if age <= 0 then past == 0 else past * 1_000_000 <= rate * age < (past + 1) * 1_000_000
  }

  function PastFrames(rate: nat, age: int): nat {
    if age <= 0 then 0 else UsecToFrames(age, rate)
  }

  lemma MovedBy(c: PcmChunk, rate: nat, target: int)
    requires c.readPos <= |c.data|
    ensures IsMoved(c, Landed(c, rate, target), PastFrames(rate, AgeAt(c, target)))
    ensures IsPast(rate, AgeAt(c, target), PastFrames(rate, AgeAt(c, target)))
  {
    var age := AgeAt(c, target);
    if age > 0 {
      TimesIsProduct(rate, age);
      QuotRem(rate * age, MILLION);
      DivBounds(rate * age, MILLION);
      TimesIsProduct(PastFrames(rate, age), c.format.FrameSize());
    }
  }

  /** What a hard-sync call goes for: with its chunk late, the outcome of skipping;
      otherwise silence only, if the chunk is due after the end of the request, or that
      chunk, untouched. */
  lemma AimsExactly(current: PcmChunk, queue: seq<PcmChunk>, f: SampleFormat, frames: nat, target: int)
    requires current.Sound(f)
    ensures var aim := AimAt(current, queue, f.rate, frames, target);
            var age := Lateness(current, target);
            && (aim.NotDue? <==> age <= 0 && f.rate * (0 - age) > frames * 1_000_000)
            && (age <= 0 && !aim.NotDue? ==> aim.Start? && aim.chunk == current && aim.queue == queue)
            && (age > 0 ==>
                  match SkippedTo(queue, f.rate, target)
                  case Held(None, _) => aim == RanOut
                  case Held(Some(c), rest) =>
                    if Lateness(c, target) > 0 then aim == TooLate(c, rest)
                    else aim.Start? && aim.chunk == c && aim.queue == rest)
  {
    if Lateness(current, target) <= 0 {
      SilenceFits(current, queue, f.rate, frames, target);
    }
  }

  /** A call has at hand the current chunk, if anything is left of it, or else the first of
      the queue. */
  lemma AtHandExactly(current: Option<PcmChunk>, queue: seq<PcmChunk>)
    ensures current.Some? && current.value.readPos < |current.value.data| ==>
              Next(current, queue) == Held(current, queue)
    ensures current == None || current.value.readPos >= |current.value.data| ==>
              Next(current, queue) == if queue == [] then Held(None, []) else Held(Some(queue[0]), queue[1..])
  {
  }

  // ----- The edit, byte by byte -----

  /** The read buffer keeps what it held, as far as it reaches, and new room is zero. */
  lemma ResizedBytes(buf: seq<byte>, n: nat)
    ensures |Resize(buf, n)| == n
    ensures forall i :: 0 <= i < n ==> Resize(buf, n)[i] == if i < |buf| then buf[i] else 0
  {
  }

  /** Byte b of frame j. */
  function Place(j: nat, size: nat, b: nat): nat {
    j * size + b
  }

  /** Every byte of an edited output is the byte of the same place in the frame it comes
      from. */
  lemma EditedBytes(frames: nat, c: int, size: nat, buf: seq<byte>, out: seq<byte>, j: nat, b: nat)
    requires frames > 0 && frames + c > 0 && size > 0 && j < frames && b < size
    requires Edited(frames, c, size, buf, out, frames)
    ensures var i := Source(frames, c, j);
            && 0 <= i && Place(i, size, b) < |buf| && Place(j, size, b) < |out|
            && out[Place(j, size, b)] == buf[Place(i, size, b)]
  {
    assert EditedAt(frames, c, size, buf, out, j);
    var i := Source(frames, c, j);
    TimesIsProduct(i, size);
    TimesIsProduct(j, size);
    assert FrameAt(out, size, j)[b] == FrameAt(buf, size, i)[b];
  }

  // ----- When a call's audio is heard -----

  /** Frame `silent` of a request for audio that is heard from now + dac on is the one in
      whose time the chunk's start falls due, the buffer time after its stamp. */
  predicate FallsDueIn(c: PcmChunk, bufferMs: int, now: int, dac: int, silent: nat) {
    var due := c.timestamp.sec * 1_000_000 + c.timestamp.usec + bufferMs * 1000;
    silent * 1_000_000 <= c.format.rate * (due - (now + dac)) < (silent + 1) * 1_000_000
  }

  /** The call puts silence up to frame `silent`, and then, if it has any, the chunk's
      audio from its cursor on. */
  ghost predicate HeardFrom(call: Call, silent: nat, c: PcmChunk) {
    call.ok && silent < call.frames && (c.Rest() != [] ==> SilenceThenFrame(call.after, silent, c))
  }

  lemma EventShows(aim: Aim, frames: nat, trace0: seq<Event>, trace1: seq<Event>)
    requires trace1 == trace0 + AimEvents(aim, frames) && trace1 == trace0 + [Aligned]
    ensures aim.Start? && aim.silent < frames
  {
    assert |trace0 + [Aligned]| == |trace0| + 1;
  }

  lemma StartsHere(call: Call, aim: Aim)
    requires call.h0.current.Some? && call.format.rate > 0
    requires aim == AimAt(call.h0.current.value, call.h0.queue, call.format.rate, call.frames, call.now - call.lead)
    ensures call.Aligns() && call.trace1 == call.trace0 + [Aligned] ==>
              aim.Start? && aim.silent < call.frames && call.ok
  {
    if call.Aligns() && call.trace1 == call.trace0 + [Aligned] {
      EventShows(aim, call.frames, call.trace0, call.trace1);
    }
  }

  /** The chunk a call starts on, and the silence before it. */
  lemma StartFits(current: PcmChunk, queue: seq<PcmChunk>, f: SampleFormat, frames: nat, target: int, aim: Aim)
    requires AllFit(current, queue, f) && aim == AimAt(current, queue, f.rate, frames, target)
    ensures aim.Start? && aim.silent < frames ==>
              && AllFit(aim.chunk, aim.queue, f) && aim.chunk.format == f
              && FillsGap(f.rate, Lateness(aim.chunk, target), aim.silent)
  {
    if aim.Start? && aim.silent < frames {
      AimFits(current, queue, f, frames, target);
      SilenceBounds(f.rate, AgeAt(aim.chunk, target), frames);
    }
  }

  /** A start on chunks that fit is heard: silence, then the first frame left. */
  lemma StartIsHeard(aim: Aim, frames: nat, f: SampleFormat, h0: Held, h1: Held, got: seq<byte>,
                     before: seq<byte>, after: seq<byte>, ok: bool)
    requires aim.Start? && aim.silent < frames && aim.chunk.Rest() != [] && AllFit(aim.chunk, aim.queue, f)
    ensures HardResult(aim, frames, f.FrameSize(), h0, h1, got, before, after, ok) ==>
              SilenceThenFrame(after, aim.silent, aim.chunk)
  {
    if HardResult(aim, frames, f.FrameSize(), h0, h1, got, before, after, ok) {
      FirstFrame(aim.chunk, aim.queue, f);
      StartedFrames(frames, aim.silent, aim.chunk, Held(Some(aim.chunk), aim.queue), h1, got, before, after);
    }
  }

  lemma CallIsHeard(call: Call, aim: Aim)
    requires call.h0.current.Some? && call.format.rate > 0
    requires aim == AimAt(call.h0.current.value, call.h0.queue, call.format.rate, call.frames, call.now - call.lead)
    ensures (call.Aligns() && aim.Start? && aim.silent < call.frames && AllFit(aim.chunk, aim.queue, call.format)
             && aim.chunk.Rest() != []) ==>
              SilenceThenFrame(call.after, aim.silent, aim.chunk)
  {
    AlignsTo(call, aim);
    if aim.Start? && aim.silent < call.frames && AllFit(aim.chunk, aim.queue, call.format) && aim.chunk.Rest() != [] {
      StartIsHeard(aim, call.frames, call.format, call.h0, call.h1, call.got, call.before, call.after, call.ok);
    }
  }

  /** The chunk and the silence of a call that ends hard sync. */
  lemma CallHeardWhenDue(call: Call) returns (silent: nat, c: PcmChunk)
    requires call.h0.current.Some? && AllFit(call.h0.current.value, call.h0.queue, call.format)
    ensures (call.Aligns() && call.trace1 == call.trace0 + [Aligned]) ==>
              && HeardFrom(call, silent, c) && c.format == call.format
              && FillsGap(c.format.rate, Lateness(c, call.now - call.lead), silent)
  {
    var target := call.now - call.lead;
    var aim := AimAt(call.h0.current.value, call.h0.queue, call.format.rate, call.frames, target);
    StartsHere(call, aim);
    CallIsHeard(call, aim);
    StartFits(call.h0.current.value, call.h0.queue, call.format, call.frames, target, aim);
    if !aim.Start? {
      return 0, call.h0.current.value;
    }
    silent, c := aim.silent, aim.chunk;
  }

  /** The call of a request of the player. */
  ghost predicate CallOf(f: SampleFormat, e: Entry, call: Call) {
    Happened(f, e) && e.request.Play? && e.call == Some(call)
  }

  lemma CallIs(f: SampleFormat, e: Entry, call: Call)
    requires CallOf(f, e, call)
    ensures call.format == f && call.now == e.request.now && call.frames == e.request.frames
    ensures call.lead == e.s0.bufferMs * 1000 - e.request.dac && call.control == After(e.s0.trace)
    ensures call.h0 == Next(e.s0.held.current, e.s0.held.queue) && call.h1 == e.s1.held
    ensures call.trace0 == e.s0.trace && call.trace1 == e.s1.trace
    ensures e.answer.ok == call.ok && (call.ok ==> e.answer.output == call.after)
    ensures call.Served()
  {
  }

  lemma EndsAligning(call: Call)
    ensures call.Served() && call.trace1 == call.trace0 + [Aligned] ==> call.Aligns()
  {
    assert (call.trace0 + [Aligned])[|call.trace0|] == Aligned;
  }

  /** A request that ends hard sync succeeds: its output is silence up to the frame in
      whose time some chunk falls due, and then, if it has any, that chunk's audio. */
  lemma HeardWhenDue(f: SampleFormat, e: Entry, call: Call) returns (silent: nat, c: PcmChunk)
    requires CallOf(f, e, call) && e.s1.trace == e.s0.trace + [Aligned]
    requires call.h0.current.Some? ==> AllFit(call.h0.current.value, call.h0.queue, f)
    ensures e.answer.ok && silent < e.request.frames
    ensures FallsDueIn(c, e.s0.bufferMs, e.request.now, e.request.dac, silent)
    ensures c.Rest() != [] ==> SilenceThenFrame(e.answer.output, silent, c)
  {
    CallIs(f, e, call);
    EndsAligning(call);
    silent, c := CallHeardWhenDue(call);
    DueIs(c, e.s0.bufferMs, e.request.now, e.request.dac, silent);
  }

  lemma DueIs(c: PcmChunk, bufferMs: int, now: int, dac: int, silent: nat)
    ensures FillsGap(c.format.rate, Lateness(c, now - (bufferMs * 1000 - dac)), silent)
       <==> FallsDueIn(c, bufferMs, now, dac, silent)
  {
    var due := c.timestamp.sec * 1_000_000 + c.timestamp.usec + bufferMs * 1000;
    assert 0 - Lateness(c, now - (bufferMs * 1000 - dac)) == due - (now + dac);
  }

  /** Server time of a chunk's next frame. */
  function CursorTime(c: PcmChunk): int
    requires c.format.FrameSize() > 0 && c.format.rate > 0
  {
    c.timestamp.sec * 1_000_000 + c.timestamp.usec
      + (c.readPos / c.format.FrameSize()) * 1_000_000 / c.format.rate
  }

  lemma CursorIs(c: PcmChunk)
    requires c.format.FrameSize() > 0 && c.format.rate > 0
    ensures c.CursorUsec() == CursorTime(c)
  {
    QuotRem(c.readPos, c.format.FrameSize());
    QuotRem(c.readPos / c.format.FrameSize() * 1_000_000, c.format.rate);
  }

  /** What a call in normal mode puts on record: its frames, the frames it found, its
      time, and how late its chunk was. */
  ghost predicate Records(call: Call, late: int) {
    && call.format.FrameSize() > 0
    && call.trace1 == call.trace0
         + [Played(call.frames, |call.h0.Bytes()| / call.format.FrameSize(), late, call.now)]
    && (call.ok <==> -500_000 < late < 500_000)
  }

  lemma CallAge(call: Call, c: PcmChunk, late: int)
    requires call.h0.current == Some(c) && c.Fits(call.format) && late == call.now - CursorTime(c) - call.lead
    ensures call.PlaysOn() ==> Records(call, late)
  {
    CursorIs(c);
    QuotRem(|call.h0.Bytes()|, call.format.FrameSize());
    PlaysOnAccounts(call);
  }

  /** A request in normal mode with a chunk at hand goes on record with an age that says
      how much later the chunk's next frame is heard than it is due, which is the buffer
      time after its stamp; it succeeds if that is less than half a second. */
  lemma AgeIsLateness(f: SampleFormat, e: Entry, call: Call, c: PcmChunk)
    requires CallOf(f, e, call) && !After(e.s0.trace).hardSync
    requires call.h0.current == Some(c) && c.Fits(f)
    ensures Records(call, (e.request.now + e.request.dac) - (CursorTime(c) + e.s0.bufferMs * 1000))
    ensures call.trace0 == e.s0.trace && call.trace1 == e.s1.trace && call.ok == e.answer.ok
    ensures call.frames == e.request.frames && call.now == e.request.now
  {
    CallIs(f, e, call);
    CallAge(call, c, (e.request.now + e.request.dac) - (CursorTime(c) + e.s0.bufferMs * 1000));
  }

  // ----- What else comes out of a call -----

  ghost predicate AllZero(s: seq<byte>) {
    forall i :: 0 <= i < |s| ==> s[i] == 0
  }

  lemma SilentAim(aim: Aim, frames: nat, size: nat, h0: Held, h1: Held, got: seq<byte>,
                  before: seq<byte>, after: seq<byte>, ok: bool)
    requires |before| == Times(frames, size) && AimEvents(aim, frames) == []
    ensures HardResult(aim, frames, size, h0, h1, got, before, after, ok) ==>
              got == [] && (ok ==> AllZero(after)) && (ok <==> aim.NotDue? || aim.Start?)
  {
    if HardResult(aim, frames, size, h0, h1, got, before, after, ok) && aim.Start? {
      assert aim.silent == frames && Times(frames - aim.silent, size) == 0;
    }
  }

  lemma NoEventMeans(trace0: seq<Event>, trace1: seq<Event>, events: seq<Event>)
    requires trace1 == trace0 + events && trace1 == trace0
    ensures events == []
  {
    assert |trace1| == |trace0| + |events|;
  }

  lemma StaysSilent(call: Call, aim: Aim)
    requires call.h0.current.Some? && call.format.rate > 0 && call.trace1 == call.trace0
    requires aim == AimAt(call.h0.current.value, call.h0.queue, call.format.rate, call.frames, call.now - call.lead)
    requires |call.before| == Times(call.frames, call.format.FrameSize())
    ensures call.Aligns() ==>
              call.got == [] && (call.ok ==> AllZero(call.after)) && (call.ok <==> aim.NotDue? || aim.Start?)
  {
    AlignsTo(call, aim);
    NoEvent(call, aim);
    if AimEvents(aim, call.frames) == [] {
      SilentAim(aim, call.frames, call.format.FrameSize(), call.h0, call.h1, call.got,
                call.before, call.after, call.ok);
    }
  }

  lemma NoEvent(call: Call, aim: Aim)
    requires call.h0.current.Some? && call.format.rate > 0 && call.trace1 == call.trace0
    requires aim == AimAt(call.h0.current.value, call.h0.queue, call.format.rate, call.frames, call.now - call.lead)
    ensures call.Aligns() ==> AimEvents(aim, call.frames) == []
  {
    if call.Aligns() {
      NoEventMeans(call.trace0, call.trace1, AimEvents(aim, call.frames));
    }
  }

  lemma HardSyncOnRecord(call: Call)
    requires call.control.hardSync && call.Served()
    ensures call.Idle() || call.Aligns()
  {
  }

  /** Until a request ends hard sync, nothing but silence is heard. */
  lemma SilenceUntilAligned(f: SampleFormat, e: Entry, call: Call)
    requires CallOf(f, e, call) && After(e.s0.trace).hardSync && e.s1.trace == e.s0.trace
    ensures AllZero(e.answer.output) && |e.answer.output| == Times(e.request.frames, f.FrameSize()) && call.got == []
  {
    CallIs(f, e, call);
    OutputIs(f, e, call);
    HardSyncOnRecord(call);
    if call.h0.current.Some? && call.Aligns() {
      StaysSilent(call, AimAt(call.h0.current.value, call.h0.queue, f.rate, call.frames, call.now - call.lead));
    }
  }

  lemma OutputIs(f: SampleFormat, e: Entry, call: Call)
    requires CallOf(f, e, call)
    ensures |call.before| == |call.after| == Times(e.request.frames, f.FrameSize())
    ensures !call.ok ==> e.answer.output == Zeros(Times(e.request.frames, f.FrameSize()))
  {
  }

  // ----- The audio of a normal-mode call -----

  /** The bytes a call takes: those of the frames it wants, as far as there are any. */
  ghost predicate TakesFrames(call: Call, wanted: nat) {
    && call.h0.Bytes() == call.got + call.h1.Bytes()
    && |call.got| == Min(wanted * call.format.FrameSize(), |call.h0.Bytes()|)
  }

  lemma CallTakesFrames(call: Call)
    ensures call.PlaysOn() ==> TakesFrames(call, Wanted(call.control, call.frames))
  {
    TimesIsProduct(Wanted(call.control, call.frames), call.format.FrameSize());
    PlaysOnAccounts(call);
  }

  /** Without a correction due, the bytes taken are put out as they are, and the rest of the
      output stays as it was. */
  lemma PlainAudio(call: Call, i: nat)
    requires call.PlaysOn() && Due(call.control, call.frames) == 0 && i < |call.after|
    ensures |call.after| == |call.before|
    ensures call.after[i] == if i < |call.got| then call.got[i] else call.before[i]
    ensures call.buf1 == call.buf0
  {
  }

  /** Byte i of the read buffer of a corrected call: of the bytes taken, or, where the queue
      was short, of what was in the buffer before. */
  function BufferByte(call: Call, i: nat): byte {
    if i < |call.got| then call.got[i] else if i < |call.buf0| then call.buf0[i] else 0
  }

  /** With a correction due, every byte put out is the byte of the same place in the frame
      it comes from. */
  lemma CorrectedAudio(call: Call, j: nat, b: nat)
    requires call.PlaysOn() && Due(call.control, call.frames) != 0
    requires j < call.frames && b < call.format.FrameSize()
    ensures call.frames > 0 && call.frames + Clamp(Due(call.control, call.frames), call.frames) > 0
    ensures var i := Source(call.frames, Clamp(Due(call.control, call.frames), call.frames), j);
            && 0 <= i && Place(j, call.format.FrameSize(), b) < |call.after|
            && call.after[Place(j, call.format.FrameSize(), b)]
               == BufferByte(call, Place(i, call.format.FrameSize(), b))
  {
    var size, c := call.format.FrameSize(), Clamp(Due(call.control, call.frames), call.frames);
    CorrectedIs(call);
    EditedBytes(call.frames, c, size, call.buf1, call.after, j, b);
    BufferIs(call, c, Place(Source(call.frames, c, j), size, b));
  }

  lemma CorrectedIs(call: Call)
    requires call.frames > 0
    ensures call.PlaysOn() && Due(call.control, call.frames) != 0 ==>
              Corrected(call.frames, Clamp(Due(call.control, call.frames), call.frames), call.format.FrameSize(),
                        call.buf0, call.buf1, call.got, call.after)
  {
  }

  lemma BufferIs(call: Call, c: int, i: nat)
    requires call.frames > 0 && call.frames + c > 0
    requires Corrected(call.frames, c, call.format.FrameSize(), call.buf0, call.buf1, call.got, call.after)
    ensures i < |call.buf1| ==> call.buf1[i] == BufferByte(call, i)
  {
    ResizedBytes(call.buf0, Times(call.frames + c, call.format.FrameSize()));
  }

  // ----- The chunks a read leaves -----

  /** A chunk of which only the cursor has moved. */
  predicate CursorMoved(a: PcmChunk, b: PcmChunk) {
    b == a.(readPos := b.readPos)
  }

  /** A read takes chunks from the front of the queue and moves the cursor of the last one
      it gets to; stamps and data stay, and so does the order. */
  lemma {:induction false} ReadKeepsChunks(h: Held, want: nat, size: nat) returns (k: nat)
    requires size > 0 && h.current.Some?
    ensures k <= |h.queue| && Drawn(h, want, size).current.Some?
    ensures Drawn(h, want, size).queue == h.queue[k..]
    ensures CursorMoved(if k == 0 then h.current.value else h.queue[k - 1], Drawn(h, want, size).current.value)
    decreases |h.queue|
  {
    var chunk, n := ReadOff(h.current.value, want, size), FramesOff(h.current.value, want, size);
    k := 0;
    if n < want && chunk.IsEnd() && h.queue != [] {
      var rest := Held(Some(h.queue[0]), h.queue[1..]);
      var k' := ReadKeepsChunks(rest, want - n, size);
      k := k' + 1;
      assert h.queue[1..][k'..] == h.queue[k..];
      assert k' > 0 ==> h.queue[1..][k' - 1] == h.queue[k - 1];
    }
  }
}
