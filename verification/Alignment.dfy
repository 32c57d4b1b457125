/** What hard sync and soft sync achieve, in terms of the streams and chunks of
    module Playout (crates/snapcast-client/src/stream.rs). */
module Alignment {
  import opened Arith
  import opened Bytes
  import opened MedianWindow
  import opened Playout
  import opened SampleFormats
  import opened SyncControl
  import opened Timestamps
  import opened Wrappers

  // ----- Every stream object -----

  /** Soft sync of any stream, at any moment of its life: one frame in 2000 at most
      has been dropped or repeated, the drift windows all look at the same ages, and
      what was taken from the queue is what was requested plus the corrections unless
      some call found the queue short. */
  lemma StreamPromises(s: Stream)
    requires s.Valid()
    ensures 2000 * Bent(s.trace) + s.playedFrames <= Requested(s.trace)
    ensures s.correctAfterXFrames == 0 || MIN_INTERVAL <= Abs(s.correctAfterXFrames) <= MAX_INTERVAL
    ensures s.miniBuffer.buf == LastN(s.shortBuffer.buf, MINI_BUFFER_SIZE)
    ensures s.shortBuffer.buf == LastN(s.buffer.buf, SHORT_BUFFER_SIZE)
    ensures s.buffer.buf == LastN(Ages(s.trace), BUFFER_SIZE)
    ensures Consumed(s.trace) <= Requested(s.trace) + Net(s.trace)
    ensures Consumed(s.trace) == Requested(s.trace) + Net(s.trace) <==> NoUnderrun(s.trace)
    ensures NoUnderrun(s.trace) ==> 2000 * Abs(Consumed(s.trace) - Requested(s.trace)) <= Requested(s.trace)
  {
    RunReaches(s.trace, s.states);
    SourceOutputBalance(s.trace);
    SoftSyncBudgetFromStart(s.trace);
    ReachableIsBounded(s.trace);
    WindowCoherence(s.trace);
  }

  /** The bytes a normal-mode call takes are exactly the source frames that its entry
      in the record accounts for, whether or not it finds enough. */
  lemma CallTakes(format: SampleFormat, now: int, lead: int, frames: nat, c: Control, h0: Held, h1: Held,
                  got: seq<byte>, buf0: seq<byte>, buf1: seq<byte>, before: seq<byte>, after: seq<byte>,
                  ok: bool, trace0: seq<Event>, trace1: seq<Event>)
    requires h0.current.Some?
    requires SoftCall(format, now, lead, frames, c, h0, h1, got, buf0, buf1, before, after, ok, trace0, trace1)
    requires After(trace0) == c
    ensures var taken := Quot(|got|, format.FrameSize());
            && |trace1| == |trace0| + 1 && Before(trace1) == trace0 && Last(trace1).Played?
            && taken == Taken(c, frames, Last(trace1).pending)
            && Consumed(trace1) == Consumed(trace0) + taken
            && Requested(trace1) == Requested(trace0) + frames
  {
    SoftCallTakes(format, now, lead, frames, c, h0, h1, got, buf0, buf1, before, after, ok, trace0, trace1);
    FramesTaken(Wanted(c, frames), format.FrameSize(), |h0.Bytes()|, |got|);
    var e := trace1[|trace0|];
    RecordGrows(trace0, e);
  }

  lemma SoftCallTakes(format: SampleFormat, now: int, lead: int, frames: nat, c: Control, h0: Held, h1: Held,
                      got: seq<byte>, buf0: seq<byte>, buf1: seq<byte>, before: seq<byte>, after: seq<byte>,
                      ok: bool, trace0: seq<Event>, trace1: seq<Event>)
    requires h0.current.Some?
    requires SoftCall(format, now, lead, frames, c, h0, h1, got, buf0, buf1, before, after, ok, trace0, trace1)
    ensures format.FrameSize() > 0
    ensures |got| == Min(Times(Wanted(c, frames), format.FrameSize()), |h0.Bytes()|)
    ensures |trace1| == |trace0| + 1 && trace1 == trace0 + [trace1[|trace0|]]
    ensures var e := trace1[|trace0|];
            e.Played? && e.frames == frames && e.pending == Quot(|h0.Bytes()|, format.FrameSize())
  {
  }

  lemma RecordGrows(es: seq<Event>, e: Event)
    requires e.Played?
    ensures Before(es + [e]) == es && Last(es + [e]) == e
    ensures Consumed(es + [e]) == Consumed(es) + Taken(After(es), e.frames, e.pending)
    ensures Requested(es + [e]) == Requested(es) + e.frames
  {
    assert Before(es + [e]) == es;
  }

  lemma FramesTaken(wanted: nat, size: nat, pending: nat, got: nat)
    requires size > 0 && got == Min(Times(wanted, size), pending)
    ensures Quot(got, size) == Min(wanted, Quot(pending, size))
  {
    QuotRem(got, size);
    QuotRem(pending, size);
    TimesIsProduct(wanted, size);
    if pending >= Times(wanted, size) {
      DivMultiple(wanted, size);
      DivMono(wanted * size, pending, size);
    } else {
      DivMono(pending, wanted * size, size);
      DivMultiple(wanted, size);
    }
  }

  // ----- Frame times -----

  /** The time ReadNext reports for any frame of any chunk stamped by the server is
      the server's time for that frame, or one microsecond earlier. */
  lemma ReadTimeIsServerTime(startUsec: int, sizes: seq<nat>, j: nat, chunk: PcmChunk, k: nat)
    requires chunk.format.FrameSize() > 0 && chunk.format.rate > 0 && j < |sizes| && k <= sizes[j]
    requires var stamp := FrameTime(startUsec, chunk.format.rate, Total(sizes[..j]));
             FitsI32(TruncDiv(stamp, MILLION))
    requires chunk.timestamp == Timeval.FromUsec(Stamps(startUsec, chunk.format.rate, sizes)[j])
    requires chunk.readPos == Times(k, chunk.format.FrameSize())
    ensures var exact := FrameTime(startUsec, chunk.format.rate, Total(sizes[..j]) + k);
            exact - 1 <= chunk.CursorUsec() <= exact
  {
    var size := chunk.format.FrameSize();
    TimesIsProduct(k, size);
    DivMultiple(k, size);
    QuotRem(chunk.readPos, size);
    QuotRem(k * MILLION, chunk.format.rate);
    FrameTimeEndToEnd(startUsec, chunk.format.rate, sizes, j, k);
  }

  // ----- Hard sync -----

  /** Error of a start, in millionths of a frame: how late (positive) or early
      (negative) the first audible frame is, given the age of its chunk's start, the
      silent frames played before it and the frames of the chunk skipped. */
  function StartError(rate: nat, age: int, silent: nat, cursor: nat): int {
    rate * age + (silent - cursor) * MILLION
  }

  lemma SilenceBounds(rate: nat, age: int, frames: nat)
    requires age <= 0 && SilentFrames(rate, age, frames) < frames
    ensures var s := SilentFrames(rate, age, frames);
            s * MILLION <= rate * (-age) < (s + 1) * MILLION
  {
    TimesIsProduct(rate, -age);
    QuotRem(Times(rate, -age), MILLION);
  }

  /** Every chunk held fits the format. */
  ghost predicate AllFit(chunk: PcmChunk, queue: seq<PcmChunk>, f: SampleFormat) {
    chunk.Fits(f) && forall i :: 0 <= i < |queue| ==> queue[i].Fits(f)
  }

  /** The first chunk with anything left to hear. */
  function FirstAudible(chunk: PcmChunk, queue: seq<PcmChunk>): Option<PcmChunk>
    decreases |queue|
  {
    if chunk.Rest() != [] then Some(chunk)
    else if queue == [] then None
    else FirstAudible(queue[0], queue[1..])
  }

  /** The frame a chunk's cursor is on. */
  function CursorFrame(c: PcmChunk): nat
    requires c.format.FrameSize() > 0
  {
    Quot(c.readPos, c.format.FrameSize())
  }

  lemma {:induction false} WholeHasFrame(n: nat, size: nat)
    requires size > 0 && Whole(n, size)
    ensures n > 0 ==> n >= size
    ensures Times(Quot(n, size), size) == n
  {
    WholeIsMod(n, size);
    QuotRem(n, size);
    TimesIsProduct(Quot(n, size), size);
  }

  /** What is heard first: the first frame left of the first chunk that has one. */
  lemma {:induction false} FirstFrame(chunk: PcmChunk, queue: seq<PcmChunk>, f: SampleFormat)
    requires AllFit(chunk, queue, f)
    ensures FirstAudible(chunk, queue).None? <==> Held(Some(chunk), queue).Bytes() == []
    ensures FirstAudible(chunk, queue).Some? ==>
              var c := FirstAudible(chunk, queue).value;
              && c.Fits(f) && f.FrameSize() <= |c.Rest()| && f.FrameSize() <= |Held(Some(chunk), queue).Bytes()|
              && Held(Some(chunk), queue).Bytes()[..f.FrameSize()] == c.Rest()[..f.FrameSize()]
    decreases |queue|
  {
    WholeRest(chunk);
    WholeHasFrame(|chunk.Rest()|, f.FrameSize());
    if chunk.Rest() == [] && queue != [] {
      FirstFrame(queue[0], queue[1..], f);
      assert Held(Some(chunk), queue).Bytes() == Held(Some(queue[0]), queue[1..]).Bytes();
    }
  }

  /** The frame under a chunk's cursor, as bytes of the chunk. */
  lemma FrameUnderCursor(c: PcmChunk)
    requires c.Fits(c.format) && c.format.FrameSize() <= |c.Rest()|
    ensures var size := c.format.FrameSize();
            Times(CursorFrame(c), size) + size <= |c.data| && c.Rest()[..size] == FrameAt(c.data, size, CursorFrame(c))
  {
    WholeHasFrame(c.readPos, c.format.FrameSize());
  }

  /** The output begins with so many frames of silence, and then comes the frame under
      the chunk's cursor. */
  ghost predicate SilenceThenFrame(output: seq<byte>, silent: nat, c: PcmChunk) {
    var size := c.format.FrameSize();
    && size > 0 && Times(silent, size) + size <= |output|
    && (forall i :: 0 <= i < Times(silent, size) ==> output[i] == 0)
    && Times(CursorFrame(c), size) + size <= |c.data|
    && FrameAt(output, size, silent) == FrameAt(c.data, size, CursorFrame(c))
  }

  lemma RoomForOne(silent: nat, frames: nat, size: nat)
    requires silent < frames
    ensures Times(frames - silent, size) >= size
  {
    TimesIsProduct(1, size);
    TimesMono(1, frames - silent, size);
  }

  lemma AfterZeros(before: seq<byte>, n: nat, got: seq<byte>, after: seq<byte>, size: nat)
    requires Wrote(before, 0, Zeros(n) + got, after) && size <= |got|
    ensures n + size <= |after| && after[n..n + size] == got[..size]
    ensures forall i :: 0 <= i < n ==> after[i] == 0
  {
    WroteInside(before, 0, Zeros(n) + got, after, n, size);
    assert (Zeros(n) + got)[n..n + size] == got[..size];
  }

  /** Silence and then audio, frame by frame. */
  lemma StartedFrames(frames: nat, silent: nat, c: PcmChunk, from: Held, new_: Held, got: seq<byte>,
                      before: seq<byte>, after: seq<byte>)
    requires silent < frames && c.Fits(c.format) && c.format.FrameSize() <= |c.Rest()|
    requires c.format.FrameSize() <= |from.Bytes()|
    requires from.Bytes()[..c.format.FrameSize()] == c.Rest()[..c.format.FrameSize()]
    requires Started(frames, silent, c.format.FrameSize(), from, new_, got, before, after)
    ensures SilenceThenFrame(after, silent, c)
  {
    var size := c.format.FrameSize();
    RoomForOne(silent, frames, size);
    AfterZeros(before, Times(silent, size), got, after, size);
    assert got[..size] == from.Bytes()[..size];
    FrameUnderCursor(c);
  }

  /** The chunk a hard sync starts on is one of those held, untouched. */
  lemma AimFits(current: PcmChunk, queue: seq<PcmChunk>, f: SampleFormat, frames: nat, target: int)
    requires AllFit(current, queue, f) && AimAt(current, queue, f.rate, frames, target).Start?
    ensures var aim := AimAt(current, queue, f.rate, frames, target);
            && AllFit(aim.chunk, aim.queue, f) && AgeAt(aim.chunk, target) <= 0
            && aim.silent == SilentFrames(f.rate, AgeAt(aim.chunk, target), frames)
  {
  }

  /** So many frames of silence fill the time until a chunk of this age, to the frame. */
  predicate FillsGap(rate: nat, age: int, silent: nat) {
    silent * MILLION <= rate * (0 - age) < (silent + 1) * MILLION
  }

  predicate NotLate(rate: nat, age: int, silent: nat, cursor: nat) {
    StartError(rate, age, silent, cursor) <= 0
  }

  /** Not late at all, and less than one frame early. */
  predicate OnTime(rate: nat, age: int, silent: nat, cursor: nat) {
    -MILLION < StartError(rate, age, silent, cursor) <= 0
  }

  /** What a call that ends hard sync puts out: the silence that fills the time up to
      its chunk, to the frame, and then the first frame left in the first chunk that
      has one. */
  lemma HardSyncStart(format: SampleFormat, target: int, frames: nat, h0: Held, h1: Held, got: seq<byte>,
                      before: seq<byte>, after: seq<byte>, ok: bool, trace0: seq<Event>, trace1: seq<Event>)
    requires h0.current.Some? && AllFit(h0.current.value, h0.queue, format)
    requires HardCall(format, target, frames, h0, h1, got, before, after, ok, trace0, trace1)
    requires var aim := AimAt(h0.current.value, h0.queue, format.rate, frames, target);
             aim.Start? && aim.silent < frames && FirstAudible(aim.chunk, aim.queue).Some?
    ensures var aim := AimAt(h0.current.value, h0.queue, format.rate, frames, target);
            var c := FirstAudible(aim.chunk, aim.queue).value;
            && ok && trace1 == trace0 + [Aligned]
            && FillsGap(format.rate, AgeAt(aim.chunk, target), aim.silent)
            && c.Fits(format) && SilenceThenFrame(after, aim.silent, c)
  {
    var aim := AimAt(h0.current.value, h0.queue, format.rate, frames, target);
    AimFits(h0.current.value, h0.queue, format, frames, target);
    SilenceBounds(format.rate, AgeAt(aim.chunk, target), frames);
    FirstFrame(aim.chunk, aim.queue, format);
    StartedFrames(frames, aim.silent, FirstAudible(aim.chunk, aim.queue).value, Held(Some(aim.chunk), aim.queue), h1,
                  got, before, after);
  }

  /** The start in time: the cursor of the chunk decides. */
  lemma StartIsOnTime(rate: nat, age: int, silent: nat, c: PcmChunk)
    requires c.Fits(c.format) && FillsGap(rate, age, silent)
    ensures OnTime(rate, age, silent, CursorFrame(c)) <==> c.readPos == 0
    ensures NotLate(rate, age, silent, CursorFrame(c))
  {
    WholeHasFrame(c.readPos, c.format.FrameSize());
    assert rate * age == -(rate * (0 - age));
  }

  /** Hard-sync alignment: if the chunk a hard sync ends on has anything left, the
      first audible frame is that chunk's frame at its cursor. It is never late, and
      less than one frame early exactly when the chunk had not been read before: the
      age ignores the cursor, so every frame already read makes the start one more
      frame early. */
  lemma HardSyncAlignment(format: SampleFormat, target: int, frames: nat, h0: Held, h1: Held, got: seq<byte>,
                          before: seq<byte>, after: seq<byte>, ok: bool, trace0: seq<Event>, trace1: seq<Event>)
    requires h0.current.Some? && AllFit(h0.current.value, h0.queue, format)
    requires HardCall(format, target, frames, h0, h1, got, before, after, ok, trace0, trace1)
    requires var aim := AimAt(h0.current.value, h0.queue, format.rate, frames, target);
             aim.Start? && aim.silent < frames && aim.chunk.Rest() != []
    ensures var aim := AimAt(h0.current.value, h0.queue, format.rate, frames, target);
            var age := AgeAt(aim.chunk, target);
            && ok && trace1 == trace0 + [Aligned]
            && FillsGap(format.rate, age, aim.silent)
            && aim.chunk.Fits(format) && SilenceThenFrame(after, aim.silent, aim.chunk)
            && NotLate(format.rate, age, aim.silent, CursorFrame(aim.chunk))
            && (OnTime(format.rate, age, aim.silent, CursorFrame(aim.chunk)) <==> aim.chunk.readPos == 0)
  {
    var aim := AimAt(h0.current.value, h0.queue, format.rate, frames, target);
    HardSyncStart(format, target, frames, h0, h1, got, before, after, ok, trace0, trace1);
    StartIsOnTime(format.rate, AgeAt(aim.chunk, target), aim.silent, aim.chunk);
  }

  /** Whole frames due by a time, rounded down; negative for what is late. */
  function FramesAhead(rate: nat, age: int): int {
    (rate * (0 - age)) / MILLION
  }

  lemma AheadIsFloor(rate: nat, age: int)
    ensures FramesAhead(rate, age) * MILLION <= rate * (0 - age) < (FramesAhead(rate, age) + 1) * MILLION
  {
    DivBounds(rate * (0 - age), MILLION);
  }

  /** A start after so many silent frames is on time exactly if the frame under the
      cursor is that many frames ahead. */
  lemma OnTimeExactly(rate: nat, age: int, silent: nat, cursor: nat)
    ensures OnTime(rate, age, silent, cursor) <==> FramesAhead(rate, age) + cursor == silent
    ensures NotLate(rate, age, silent, cursor) <==> FramesAhead(rate, age) + cursor >= silent
  {
    AheadIsFloor(rate, age);
    assert rate * (0 - age) == -(rate * age);
  }

  /** The silence is followed by the chunk's frame at its cursor, which is on time exactly
      if it is as many frames ahead as there are silent ones, and late if fewer. */
  ghost predicate StartsWith(rate: nat, target: int, silent: nat, c: PcmChunk, after: seq<byte>) {
    c.format.FrameSize() > 0 &&
    var age, cursor := AgeAt(c, target), CursorFrame(c);
    && SilenceThenFrame(after, silent, c)
    && (OnTime(rate, age, silent, cursor) <==> FramesAhead(rate, age) + cursor == silent)
    && (NotLate(rate, age, silent, cursor) <==> FramesAhead(rate, age) + cursor >= silent)
  }

  /** Whatever chunk a hard sync ends on, the first frame heard is on time exactly if
      its chunk is as many frames ahead, with what has been read of it, as the chunk
      the silence was measured by. */
  lemma AnyStartOnTime(format: SampleFormat, target: int, frames: nat, h0: Held, h1: Held, got: seq<byte>,
                       before: seq<byte>, after: seq<byte>, ok: bool, trace0: seq<Event>, trace1: seq<Event>)
    requires h0.current.Some? && AllFit(h0.current.value, h0.queue, format)
    requires HardCall(format, target, frames, h0, h1, got, before, after, ok, trace0, trace1)
    requires var aim := AimAt(h0.current.value, h0.queue, format.rate, frames, target);
             aim.Start? && aim.silent < frames && FirstAudible(aim.chunk, aim.queue).Some?
    ensures var aim := AimAt(h0.current.value, h0.queue, format.rate, frames, target);
            && aim.silent == FramesAhead(format.rate, AgeAt(aim.chunk, target))
            && StartsWith(format.rate, target, aim.silent, FirstAudible(aim.chunk, aim.queue).value, after)
  {
    var aim := AimAt(h0.current.value, h0.queue, format.rate, frames, target);
    HardSyncStart(format, target, frames, h0, h1, got, before, after, ok, trace0, trace1);
    SilenceIsAhead(format.rate, AgeAt(aim.chunk, target), aim.silent);
    var c := FirstAudible(aim.chunk, aim.queue).value;
    OnTimeExactly(format.rate, AgeAt(c, target), aim.silent, CursorFrame(c));
  }

  lemma SilenceIsAhead(rate: nat, age: int, silent: nat)
    requires FillsGap(rate, age, silent)
    ensures silent == FramesAhead(rate, age)
  {
    DivUnique(rate * (0 - age), MILLION, silent);
  }

  /** A chunk with nothing left passes for one that is due, and hides the next one: if
      that is late by any amount, its late audio is heard behind the silence up to the
      empty chunk, and the stream counts as aligned. */
  lemma EmptyChunkHidesLateOne(format: SampleFormat, target: int, frames: nat, h0: Held, h1: Held, got: seq<byte>,
                               before: seq<byte>, after: seq<byte>, ok: bool, trace0: seq<Event>, trace1: seq<Event>)
    requires h0.current.Some? && h0.queue != [] && AllFit(h0.current.value, h0.queue, format)
    requires h0.current.value.Rest() == [] && AgeAt(h0.current.value, target) <= 0
    requires SilentFrames(format.rate, AgeAt(h0.current.value, target), frames) < frames
    requires h0.queue[0].Rest() != [] && h0.queue[0].readPos == 0 && AgeAt(h0.queue[0], target) > 0
    requires HardCall(format, target, frames, h0, h1, got, before, after, ok, trace0, trace1)
    ensures var silent := SilentFrames(format.rate, AgeAt(h0.current.value, target), frames);
            var late := AgeAt(h0.queue[0], target);
            && ok && trace1 == trace0 + [Aligned]
            && SilenceThenFrame(after, silent, h0.queue[0]) && CursorFrame(h0.queue[0]) == 0
            && StartError(format.rate, late, silent, 0) >= format.rate * late > 0
  {
    SilenceFits(h0.current.value, h0.queue, format.rate, frames, target);
    DueWithin(format.rate, 0 - AgeAt(h0.current.value, target), frames);
    assert FirstAudible(h0.current.value, h0.queue) == Some(h0.queue[0]);
    HardSyncStart(format, target, frames, h0, h1, got, before, after, ok, trace0, trace1);
    LateIsLate(format.rate, AgeAt(h0.queue[0], target), SilentFrames(format.rate, AgeAt(h0.current.value, target), frames));
  }

  lemma LateIsLate(rate: nat, late: nat, silent: nat)
    requires rate > 0 && late > 0
    ensures StartError(rate, late, silent, 0) >= rate * late > 0
  {
    MulMono(1, rate, late);
  }

  /** A chunk that is due within the request is never delayed past it: the silence
      before it fills the request only if it is due exactly at its end. */
  lemma SilenceFits(current: PcmChunk, queue: seq<PcmChunk>, rate: nat, frames: nat, target: int)
    requires rate > 0 && AgeAt(current, target) <= 0
    ensures var aim := AimAt(current, queue, rate, frames, target);
            && (aim.Start? <==> rate * (-AgeAt(current, target)) <= frames * MILLION)
            && (aim.Start? ==> aim.silent <= frames)
            && (aim.Start? ==> (aim.silent == frames <==> rate * (-AgeAt(current, target)) == frames * MILLION))
  {
    DueWithin(rate, -AgeAt(current, target), frames);
  }

  /** Rounding both ways agrees: so many microseconds fit in the time of `frames`
      frames exactly when their product with the rate does. */
  lemma DueWithin(rate: nat, early: nat, frames: nat)
    requires rate > 0
    ensures early <= FramesToUsec(frames, rate) <==> rate * early <= frames * MILLION
    ensures UsecToFrames(early, rate) >= frames <==> rate * early >= frames * MILLION
  {
    BelowQuotient(early, frames * MILLION, rate);
    TimesIsProduct(rate, early);
    BelowQuotient(frames, rate * early, MILLION);
  }

  lemma BelowQuotient(x: nat, a: nat, d: nat)
    requires d > 0
    ensures x <= Quot(a, d) <==> x * d <= a
  {
    QuotRem(a, d);
    var q := Quot(a, d);
    if x <= q {
      MulMono(x, q, d);
    } else {
      MulMono(q + 1, x, d);
      MulDistrib(q, 1, d);
    }
  }

  /** A late chunk is never started on. A start after skipping is on the first chunk
      of the queue that is not stale, not late at all, with its cursor untouched;
      everything before it was stale, everything behind it stays queued in order. */
  lemma StartsOnTime(current: PcmChunk, queue: seq<PcmChunk>, rate: nat, frames: nat, target: int)
    requires rate > 0
    ensures var aim := AimAt(current, queue, rate, frames, target);
            && (aim.Start? ==> AgeAt(aim.chunk, target) <= 0)
            && (AgeAt(current, target) > 0 ==>
                  (aim.Start? <==> exists k :: FirstPlayable(queue, target, k) && AgeAt(queue[k], target) <= 0))
            && (AgeAt(current, target) > 0 && aim.Start? ==>
                  exists k :: FirstPlayable(queue, target, k) && aim.chunk == queue[k] && aim.queue == queue[k + 1..])
  {
    var n := StaleCount(queue, target);
    if n < |queue| {
      assert FirstPlayable(queue, target, n);
    }
    forall k | FirstPlayable(queue, target, k)
      ensures k == n
    {
      FirstPlayableIs(queue, target, k);
    }
  }

  lemma FirstPlayableIs(queue: seq<PcmChunk>, target: int, k: int)
    requires FirstPlayable(queue, target, k)
    ensures k == StaleCount(queue, target)
  {
    var n := StaleCount(queue, target);
    if n < |queue| {
      assert !Stale(queue[n], target);
    }
  }

  predicate FirstPlayable(queue: seq<PcmChunk>, target: int, k: int) {
    && 0 <= k < |queue| && !Stale(queue[k], target)
    && (forall i :: 0 <= i < k ==> Stale(queue[i], target))
  }

  /** Seeking forward in a chunk that is late but not stale stays inside it, at the
      whole frame that is due. */
  lemma SeekStaysInside(c: PcmChunk, target: int)
    requires c.Fits(c.format) && c.readPos == 0
    requires AgeAt(c, target) > 0 && !Stale(c, target)
    ensures var landed := Landed(c, c.format.rate, target);
            && !landed.IsEnd()
            && landed.readPos == Times(UsecToFrames(AgeAt(c, target), c.format.rate), c.format.FrameSize())
  {
    var rate, size, age := c.format.rate, c.format.FrameSize(), AgeAt(c, target);
    var total := Quot(|c.data|, size);
    var due := UsecToFrames(age, rate);
    WholeIsMod(|c.data|, size);
    QuotRem(|c.data|, size);
    TimesIsProduct(total, size);
    DueBeforeEnd(rate, age, total);
    FrameBelow(due, total, size);
  }

  lemma FrameBelow(i: nat, n: nat, size: nat)
    requires i < n && size > 0
    ensures Times(i, size) < Times(n, size)
  {
    TimesMono(i + 1, n, size);
  }

  lemma DueBeforeEnd(rate: nat, age: nat, total: nat)
    requires rate > 0 && age < FramesToUsec(total, rate)
    ensures UsecToFrames(age, rate) < total
  {
    DueWithin(rate, age, total);
    DueWithin(rate, age + 1, total);
    assert rate * (age + 1) == rate * age + rate;
  }

  /** What becomes of a seek. The call that seeks into a late chunk returns nothing,
      and the next hard-sync call throws that chunk away and looks only at the queue
      behind it, exactly if the chunk's start is still in the past then: so whenever
      the time asked for has not gone back. */
  lemma SoughtChunkIsDiscarded(current: PcmChunk, queue: seq<PcmChunk>, rate: nat, frames: nat, target: int,
                               frames': nat, target': int)
    requires rate > 0
    requires AimAt(current, queue, rate, frames, target).TooLate?
    ensures var aim := AimAt(current, queue, rate, frames, target);
            && AgeAt(aim.chunk, target) > 0
            && (AimAt(aim.chunk, aim.queue, rate, frames', target') == Skipped(aim.queue, rate, frames', target')
                <==> AgeAt(aim.chunk, target') > 0)
            && (target <= target' ==> AgeAt(aim.chunk, target') > 0)
  {
    var aim := AimAt(current, queue, rate, frames, target);
    var k := StaleCount(queue, target);
    assert aim.chunk.StartUsec() == queue[k].StartUsec();
    SkippingShortens(aim.queue, rate, frames', target');
  }

  /** A start after skipping leaves fewer chunks queued than there were. */
  lemma SkippingShortens(queue: seq<PcmChunk>, rate: nat, frames: nat, target: int)
    ensures var aim := Skipped(queue, rate, frames, target);
            !aim.NotDue? && (aim.Start? || aim.TooLate? ==> |aim.queue| < |queue|)
  {
  }
}
