/** The playout buffer: chunks of PCM with read cursors, read in order into the
    audio player's buffers (crates/snapcast-client/src/stream.rs). */
module Playout {
  import opened Arith
  import opened Bytes
  import opened MedianWindow
  import opened SampleFormats
  import opened SliceEdit
  import opened SyncControl
  import opened Timestamps
  import opened Wrappers

  /** Whole microseconds taken by so many frames. */
  function FramesToUsec(frames: nat, rate: nat): nat
    requires rate > 0
  {
    Quot(frames * MILLION, rate)
  }

  /** Whole frames that fit in so many microseconds. */
  function UsecToFrames(usec: nat, rate: nat): nat {
    Quot(Times(rate, usec), MILLION)
  }

  /** A chunk is moved, never shared, between the queue and the reader, so it is a
      value here: advancing its cursor yields the advanced chunk. */
  datatype PcmChunk = PcmChunk(timestamp: Timeval, data: seq<byte>, format: SampleFormat, readPos: nat) {

    /** The chunk has the given format, of whatever length it is. */
    predicate Sound(f: SampleFormat) {
      format == f && f.FrameSize() > 0 && f.rate > 0 && readPos <= |data|
    }

    /** The chunk holds whole frames of the given format and its cursor is on one. */
    predicate Fits(f: SampleFormat) {
      Sound(f) && Whole(|data|, f.FrameSize()) && Whole(readPos, f.FrameSize())
    }

    /** The bytes not read yet. */
    function Rest(): seq<byte> {
      if readPos <= |data| then data[readPos..] else []
    }

    function StartUsec(): int {
      timestamp.ToUsec()
    }

    function DurationUsec(): int {
      if format.FrameSize() == 0 || format.rate == 0 then 0
      else FramesToUsec(Quot(|data|, format.FrameSize()), format.rate)
    }

    /** Server time of the next frame to be read. */
    function CursorUsec(): int
      requires format.FrameSize() > 0 && format.rate > 0
    {
      StartUsec() + FramesToUsec(Quot(readPos, format.FrameSize()), format.rate)
    }

    predicate IsEnd() {
      readPos >= |data|
    }

    /** Skip forward by `frames` frames, at most to the end. */
    function Seek(frames: nat): PcmChunk {
      this.(readPos := Min(readPos + Times(frames, format.FrameSize()), |data|))
    }

    /** Read up to `frames` frames into `output` from `start` on. */
    method ReadFrames(output: array<byte>, start: nat, frames: nat) returns (n: nat, chunk: PcmChunk)
      requires readPos <= |data| && start <= output.Length
      modifies output
      ensures format.FrameSize() == 0 ==> n == 0
      ensures format.FrameSize() > 0 ==>
                var size := format.FrameSize();
                n == Min(frames, Min(|Rest()| / size, (output.Length - start) / size))
      ensures chunk == this.(readPos := readPos + Times(n, format.FrameSize()))
      ensures Times(n, format.FrameSize()) <= |Rest()| && start + Times(n, format.FrameSize()) <= output.Length
      ensures Wrote(old(output[..]), start, Rest()[..Times(n, format.FrameSize())], output[..])
    {
      var size := format.FrameSize();
      if size == 0 {
        assert Rest()[..0] == [];
        WroteNothing(output[..], start);
        return 0, this;
      }
      var available := |data| - readPos;
      n := Min(frames, Min(available / size, (output.Length - start) / size));
      QuotientFits(n, available, size);
      QuotientFits(n, output.Length - start, size);
      var bytes := Times(n, size);
      assert Rest()[..bytes] == data[readPos..readPos + bytes];
      CopyInto(output, start, data[readPos..readPos + bytes]);
      chunk := this.(readPos := readPos + bytes);
    }
  }

  // ----- Where a hard sync starts -----

  /** Microseconds by which a chunk's start is late (positive) or early, when the
      clock reads `target` on the chunk's own time line. The read cursor plays no
      part in it. */
  function AgeAt(c: PcmChunk, target: int): int {
    target - c.StartUsec()
  }

  /** Late by its whole duration or more. */
  predicate Stale(c: PcmChunk, target: int) {
    AgeAt(c, target) > 0 && AgeAt(c, target) >= c.DurationUsec()
  }

  /** How many chunks at the front of the queue are stale. */
  function StaleCount(cs: seq<PcmChunk>, target: int): (k: nat)
    ensures k <= |cs|
    ensures forall i :: 0 <= i < k ==> Stale(cs[i], target)
    ensures k < |cs| ==> !Stale(cs[k], target)
  {
    if cs == [] || !Stale(cs[0], target) then 0 else 1 + StaleCount(cs[1..], target)
  }

  /** A playable chunk after the skip loop: a late one is sought forward. */
  function Landed(c: PcmChunk, rate: nat, target: int): PcmChunk {
    if AgeAt(c, target) > 0 then c.Seek(UsecToFrames(AgeAt(c, target), rate)) else c
  }

  /** The chunks held after the skip loop. */
  function SkippedTo(queue: seq<PcmChunk>, rate: nat, target: int): Held {
    var k := StaleCount(queue, target);
    if k == |queue| then Held(None, []) else Held(Some(Landed(queue[k], rate, target)), queue[k + 1..])
  }

  /** Frames of silence that bring a chunk due in the future to its time. */
  function SilentFrames(rate: nat, age: int, frames: nat): nat
    requires age <= 0
  {
    Min(UsecToFrames(-age, rate), frames)
  }

  /** What a call in hard-sync mode does: only silence, because nothing is due yet;
      nothing, because the queue ran out; nothing, because the first playable chunk
      is itself late; or `silent` frames of silence and then `chunk`. */
  datatype Aim =
    | NotDue
    | RanOut
    | TooLate(chunk: PcmChunk, queue: seq<PcmChunk>)
    | Start(silent: nat, chunk: PcmChunk, queue: seq<PcmChunk>)

  function AimAt(current: PcmChunk, queue: seq<PcmChunk>, rate: nat, frames: nat, target: int): Aim
    requires rate > 0
  {
    if AgeAt(current, target) < 0 - FramesToUsec(frames, rate) then NotDue
    else if AgeAt(current, target) <= 0 then
      Start(SilentFrames(rate, AgeAt(current, target), frames), current, queue)
    else Skipped(queue, rate, frames, target)
  }

  function Skipped(queue: seq<PcmChunk>, rate: nat, frames: nat, target: int): Aim {
    match SkippedTo(queue, rate, target)
    case Held(None, _) => RanOut
    case Held(Some(c), rest) =>
      if AgeAt(c, target) > 0 then TooLate(c, rest)
      else Start(SilentFrames(rate, AgeAt(c, target), frames), c, rest)
  }

  // ----- The read loop -----

  /** The state of the read loop: the chunk it reads, the queue, the frames wanted. */
  datatype Reading = Reading(chunk: PcmChunk, queue: seq<PcmChunk>, want: nat) | Finished

  /** A chunk after up to `want` frames have been read from it. */
  function ReadOff(c: PcmChunk, want: nat, size: nat): PcmChunk
    requires size > 0
  {
    c.(readPos := c.readPos + Times(FramesOff(c, want, size), size))
  }

  function FramesOff(c: PcmChunk, want: nat, size: nat): (n: nat)
    requires size > 0
    ensures n <= want
  {
    Min(want, Quot(|c.Rest()|, size))
  }

  /** One round of the loop, with room enough in the output. */
  function Round(r: Reading, size: nat): Reading
    requires size > 0
  {
    if r.Finished? || r.want == 0 then Finished
    else
      var chunk := ReadOff(r.chunk, r.want, size);
      var want := r.want - FramesOff(r.chunk, r.want, size);
      if want > 0 && chunk.IsEnd() then
        if r.queue == [] then Finished else Reading(r.queue[0], r.queue[1..], want)
      else Reading(chunk, r.queue, want)
  }

  /** What is left of the chunk is not a whole number of frames. */
  predicate Ragged(c: PcmChunk, size: nat)
    requires size > 0
  {
    Rem(|c.Rest()|, size) != 0
  }

  /** More frames are wanted than the chunks hold up to the end of the first one that
      ends in part of a frame: the loop would go round that chunk for ever. */
  predicate Stalls(c: PcmChunk, queue: seq<PcmChunk>, want: nat, size: nat)
    requires size > 0
    decreases |queue|
  {
    var n := Quot(|c.Rest()|, size);
    want > n && (Ragged(c, size) || (queue != [] && Stalls(queue[0], queue[1..], want - n, size)))
  }

  /** Reading so many frames from these chunks would not end. */
  predicate WouldStall(h: Held, want: nat, size: nat)
    requires size > 0
  {
    h.current.Some? && Stalls(h.current.value, h.queue, want, size)
  }

  /** The chunks held after a read of `want` frames. */
  function Drawn(h: Held, want: nat, size: nat): Held
    requires size > 0
    decreases |h.queue|
  {
    if h.current == None then h
    else
      var chunk := ReadOff(h.current.value, want, size);
      var n := FramesOff(h.current.value, want, size);
      if n < want && chunk.IsEnd() && h.queue != [] then
        Drawn(Held(Some(h.queue[0]), h.queue[1..]), want - n, size)
      else Held(Some(chunk), h.queue)
  }

  /** A chunk after all its whole frames have been read. */
  lemma WholeFramesRead(c: PcmChunk, size: nat)
    requires size > 0
    ensures var rest := c.(readPos := c.readPos + Times(Quot(|c.Rest()|, size), size));
            && |rest.Rest()| == Rem(|c.Rest()|, size) < size && Quot(|rest.Rest()|, size) == 0
            && Rem(|rest.Rest()|, size) == Rem(|c.Rest()|, size)
            && (rest.IsEnd() <==> !Ragged(c, size))
  {
    QuotRem(|c.Rest()|, size);
    TimesIsProduct(Quot(|c.Rest()|, size), size);
  }

  /** A read that does not stall leaves a chunk only at its end. */
  lemma RoundEnds(c: PcmChunk, queue: seq<PcmChunk>, want: nat, size: nat)
    requires size > 0 && !Stalls(c, queue, want, size)
    ensures var n := FramesOff(c, want, size);
            n < want ==>
              ReadOff(c, want, size).IsEnd() && (queue != [] ==> !Stalls(queue[0], queue[1..], want - n, size))
  {
    WholeFramesRead(c, size);
  }

  lemma DrawnNothing(h: Held, size: nat)
    requires size > 0
    ensures Drawn(h, 0, size) == h
  {
  }

  /** One round of the loop: `g` are the first bytes held, now in the output from `start`
      on, and the rest is held. */
  ghost predicate RoundTook(h0: Held, h1: Held, n: nat, g: seq<byte>, size: nat,
                            before: seq<byte>, start: nat, after: seq<byte>)
  {
    && h0.Bytes() == g + h1.Bytes() && |g| == Times(n, size) && Wrote(before, start, g, after)
  }

  /** A round after which the loop goes on with the next chunk. */
  ghost predicate GoesOn(h0: Held, h1: Held, want: nat, n: nat, size: nat)
    requires size > 0
  {
    && h0.current.Some? && h1.current.Some? && n < want && |h1.queue| < |h0.queue|
    && Round(Reading(h0.current.value, h0.queue, want), size) == Reading(h1.current.value, h1.queue, want - n)
    && !WouldStall(h1, want - n, size) && Drawn(h0, want, size) == Drawn(h1, want - n, size)
  }

  /** The last round: all frames wanted have been read, or there are no more. */
  ghost predicate Ends(h0: Held, h1: Held, want: nat, n: nat, size: nat)
    requires size > 0
  {
    && h0.current.Some? && h1.current.Some? && n <= want && Drawn(h0, want, size) == h1
    && Round(Reading(h0.current.value, h0.queue, want), size)
       == (if n == want then Reading(h1.current.value, h1.queue, 0) else Finished)
    && (n == want || h1.Bytes() == [])
  }

  /** A read that has taken `read` frames wants `left` more and will get to `end`. */
  ghost predicate Underway(h: Held, read: nat, left: nat, p: seq<byte>, before: seq<byte>, start: nat, got: seq<byte>,
                           out: seq<byte>, end: Held, size: nat)
  {
    && size > 0 && h.current.Some? && left > 0 && |got| == Times(read, size)
    && p == got + h.Bytes() && Wrote(before, start, got, out)
    && !WouldStall(h, left, size) && Drawn(h, left, size) == end
  }

  /** A read of `frames` frames has taken what there was and got to `end`. */
  ghost predicate Over(h: Held, frames: nat, p: seq<byte>, before: seq<byte>, start: nat, got: seq<byte>,
                       out: seq<byte>, end: Held, size: nat)
  {
    && |got| == Min(Times(frames, size), |p|)
    && p == got + h.Bytes() && Wrote(before, start, got, out) && h == end
  }

  /** One more round of a read that is under way. */
  ghost predicate NextRound(h0: Held, h1: Held, read: nat, left: nat, n: nat, p: seq<byte>, before: seq<byte>, start: nat,
                            got: seq<byte>, mid: seq<byte>, g: seq<byte>, after: seq<byte>, end: Held, size: nat)
  {
    && Underway(h0, read, left, p, before, start, got, mid, end, size)
    && RoundTook(h0, h1, n, g, size, mid, start + Times(read, size), after)
  }

  lemma RoundCounts(h0: Held, h1: Held, read: nat, left: nat, n: nat, p: seq<byte>, before: seq<byte>, start: nat,
                    got: seq<byte>, mid: seq<byte>, g: seq<byte>, after: seq<byte>, end: Held, size: nat)
    requires size > 0
    ensures (NextRound(h0, h1, read, left, n, p, before, start, got, mid, g, after, end, size)
             && GoesOn(h0, h1, left, n, size)) ==>
              n < left && Underway(h1, read + n, left - n, p, before, start, got + g, after, end, size)
    ensures (NextRound(h0, h1, read, left, n, p, before, start, got, mid, g, after, end, size)
             && Ends(h0, h1, left, n, size)) ==>
              Over(h1, read + left, p, before, start, got + g, after, end, size)
  {
    if NextRound(h0, h1, read, left, n, p, before, start, got, mid, g, after, end, size) {
      RoundJoins(p, before, start, got, mid, g, after, h1.Bytes());
      TimesSum(read, n, size);
      if Ends(h0, h1, left, n, size) {
        TakenAll(p, got + g, h1.Bytes(), read + n, read + left, size);
      }
    }
  }

  /** Chunks of whole frames never stall a read. */
  lemma {:induction false} WholeChunksNeverStall(c: PcmChunk, queue: seq<PcmChunk>, want: nat, f: SampleFormat)
    requires c.Fits(f) && forall i :: 0 <= i < |queue| ==> queue[i].Fits(f)
    ensures !Stalls(c, queue, want, f.FrameSize())
    decreases |queue|
  {
    WholeRest(c);
    WholeIsMod(|c.Rest()|, f.FrameSize());
    QuotRem(|c.Rest()|, f.FrameSize());
    if want > Quot(|c.Rest()|, f.FrameSize()) && queue != [] {
      WholeChunksNeverStall(queue[0], queue[1..], want - Quot(|c.Rest()|, f.FrameSize()), f);
    }
  }

  lemma QuotientFits(n: nat, a: nat, size: nat)
    requires size > 0 && n <= a / size
    ensures Times(n, size) <= a
  {
    TimesIsProduct(n, size);
    DivBounds(a, size);
    MulMono(n, a / size, size);
  }

  function CurrentRest(current: Option<PcmChunk>): seq<byte> {
    match current
    case None => []
    case Some(c) => c.Rest()
  }

  /** Everything still to be read from a queue of chunks, in order. */
  function QueueRest(cs: seq<PcmChunk>): seq<byte> {
    if cs == [] then [] else cs[0].Rest() + QueueRest(cs[1..])
  }

  lemma RoundJoins(p: seq<byte>, before: seq<byte>, start: nat, got: seq<byte>, mid: seq<byte>,
                   g: seq<byte>, after: seq<byte>, pending: seq<byte>)
    requires p == got + (g + pending)
    requires Wrote(before, start, got, mid) && Wrote(mid, start + |got|, g, after)
    ensures p == (got + g) + pending && Wrote(before, start, got + g, after)
  {
    Associate(got, g, pending);
    WroteTwice(before, start, got, mid, g, after);
  }

  lemma SkipEmpty(chunk: PcmChunk, queue: seq<PcmChunk>)
    requires chunk.IsEnd() && queue != []
    ensures chunk.Rest() + QueueRest(queue) == queue[0].Rest() + QueueRest(queue[1..])
  {
  }

  lemma TakenAll(p: seq<byte>, got: seq<byte>, pending: seq<byte>, read: nat, frames: nat, size: nat)
    requires p == got + pending && |got| == Times(read, size)
    requires read <= frames && (read == frames || pending == [])
    ensures |got| == Min(Times(frames, size), |p|)
  {
    TimesMono(read, frames, size);
  }

  lemma Associate(a: seq<byte>, b: seq<byte>, c: seq<byte>)
    ensures (a + b) + c == a + (b + c)
  {
  }

  /** The first n frames of `out` are the frames of `buf` that Source names. */
  ghost predicate Edited(frames: nat, c: int, size: nat, buf: seq<byte>, out: seq<byte>, n: nat)
    requires frames > 0 && frames + c > 0
  {
    && n <= frames && |buf| == Times(frames + c, size) && Times(frames, size) <= |out|
    && forall j :: 0 <= j < n ==> EditedAt(frames, c, size, buf, out, j)
  }

  ghost predicate EditedAt(frames: nat, c: int, size: nat, buf: seq<byte>, out: seq<byte>, j: nat)
    requires frames > 0 && frames + c > 0
  {
    var i := Source(frames, c, j);
    && i >= 0 && Times(i, size) + size <= |buf| && Times(j, size) + size <= |out|
    && FrameAt(out, size, j) == FrameAt(buf, size, i)
  }

  /** Copying one slice settles its frames and keeps those settled before. */
  lemma SliceCopied(frames: nat, c: int, size: nat, buf: seq<byte>, before: seq<byte>, after: seq<byte>, n: nat)
    requires frames > 0 && frames + c > 0 && n <= Abs(c)
    requires Edited(frames, c, size, buf, before, Settled(frames, c, n))
    requires var p := SliceAt(frames, c, n);
             && Times(p.src, size) + Times(p.len, size) <= |buf|
             && Wrote(before, Times(p.dst, size), Frames(buf, size, p.src, p.len), after)
    ensures Edited(frames, c, size, buf, after, Settled(frames, c, n + 1))
  {
    var p := SliceAt(frames, c, n);
    SliceInBounds(frames, c, n);
    forall j | 0 <= j < Settled(frames, c, n + 1)
      ensures EditedAt(frames, c, size, buf, after, j)
    {
      if j < p.dst {
        assert EditedAt(frames, c, size, buf, before, j);
        FrameOutside(before, Frames(buf, size, p.src, p.len), after, size, p.dst, p.len, j);
      } else {
        SliceSettles(frames, c, n, j);
        FrameInside(before, buf, after, size, p.dst, p.src, p.len, j);
      }
    }
  }

  /** Spread |c| single-frame corrections evenly over a buffer of frames + c frames
      while copying it to `output`. */
  method CopySlices(output: array<byte>, buf: seq<byte>, frames: nat, c: int, size: nat)
    requires frames > 0 && frames + c > 0 && size > 0
    requires |buf| == Times(frames + c, size) && Times(frames, size) <= output.Length
    modifies output
    ensures Edited(frames, c, size, buf, output[..], frames)
    ensures output[Times(frames, size)..] == old(output[Times(frames, size)..])
  {
    var max := if c < 0 then frames else frames + c;
    var slices := Min(Abs(c) + 1, max);
    var sliceSize := max / slices;
    SliceCount(frames, c);
    var pos := 0;
    ghost var tail := output[Times(frames, size)..];
    for n := 0 to slices
      invariant n < slices ==> pos == n * sliceSize
      invariant Edited(frames, c, size, buf, output[..], Settled(frames, c, n))
      invariant output[Times(frames, size)..] == tail
    {
      var len := if n + 1 == slices then max - pos else sliceSize;
      ghost var before := output[..];
      SliceInBounds(frames, c, n);
      assert SliceAt(frames, c, n) == if c < 0 then Slice(pos - n, pos, len) else Slice(pos, pos - n, len);
      if c < 0 {
        SliceBytes(frames, c, pos - n, pos, len, size);
        CopyInto(output, Times(pos, size), Frames(buf, size, pos - n, len));
      } else {
        SliceBytes(frames, c, pos, pos - n, len, size);
        CopyInto(output, Times(pos - n, size), Frames(buf, size, pos, len));
      }
      SliceCopied(frames, c, size, buf, before, output[..], n);
      assert (n + 1) * sliceSize == n * sliceSize + sliceSize;
      pos := pos + len;
    }
  }

  lemma SliceCount(frames: nat, c: int)
    requires frames > 0 && frames + c > 0
    ensures var max := if c < 0 then frames else frames + c;
            Min(Abs(c) + 1, max) == Abs(c) + 1 && max / (Abs(c) + 1) == SliceSize(frames, c)
    ensures Settled(frames, c, 0) == 0
  {
    SliceFits(0, Abs(c), SliceSize(frames, c));
  }

  lemma SliceBytes(frames: nat, c: int, src: nat, dst: nat, len: nat, size: nat)
    requires frames + c > 0 && src + len <= frames + c && dst + len <= frames
    ensures Times(src, size) + Times(len, size) <= Times(frames + c, size)
    ensures Times(dst, size) + Times(len, size) <= Times(frames, size)
  {
    TimesSum(src, len, size);
    TimesMono(src + len, frames + c, size);
    TimesSum(dst, len, size);
    TimesMono(dst + len, frames, size);
  }

  /** What a call finds at hand: the current chunk, or the next one if that is used up. */
  function Next(current: Option<PcmChunk>, queue: seq<PcmChunk>): Held {
    if current.Some? && !current.value.IsEnd() then Held(current, queue)
    else if queue == [] then Held(None, [])
    else Held(Some(queue[0]), queue[1..])
  }

  lemma {:induction false} QueueGrows(queue: seq<PcmChunk>, chunk: PcmChunk)
    ensures QueueRest(queue + [chunk]) == QueueRest(queue) + chunk.Rest()
  {
    if queue == [] {
      assert [chunk][1..] == [];
      assert chunk.Rest() + [] == chunk.Rest();
    } else {
      assert (queue + [chunk])[1..] == queue[1..] + [chunk];
      QueueGrows(queue[1..], chunk);
      Associate(queue[0].Rest(), QueueRest(queue[1..]), chunk.Rest());
    }
  }

  lemma StaleTail(all: seq<PcmChunk>, k: nat, target: int)
    requires k < |all|
    ensures all[k..][0] == all[k] && all[k..][1..] == all[k + 1..]
    ensures StaleCount(all[k..], target) == if Stale(all[k], target) then 1 + StaleCount(all[k + 1..], target) else 0
  {
  }

  lemma SeekFits(c: PcmChunk, f: SampleFormat, frames: nat)
    requires c.Fits(f)
    ensures c.Seek(frames).Fits(f)
  {
    WholeSum(c.readPos, frames, f.FrameSize());
  }

  /** The audible result of a corrected read: the read buffer holds the bytes taken,
      over whatever an earlier read left in it, and the output is its edit. */
  ghost predicate Corrected(frames: nat, c: int, size: nat, buf0: seq<byte>, buf: seq<byte>, got: seq<byte>, out: seq<byte>)
    requires frames > 0 && frames + c > 0
  {
    && Wrote(Resize(buf0, Times(frames + c, size)), 0, got, buf)
    && Edited(frames, c, size, buf, out, frames)
  }

  lemma RoomForFrames(frames: nat, size: nat, start: nat, length: nat)
    requires size > 0 && start + Times(frames, size) <= length
    ensures (length - start) / size >= frames
  {
    TimesIsProduct(frames, size);
    DivMono(frames * size, length - start, size);
    DivMultiple(frames, size);
  }

  lemma WholeRest(c: PcmChunk)
    requires c.Fits(c.format)
    ensures Whole(|c.Rest()|, c.format.FrameSize())
  {
    WholeDifference(|c.data|, c.readPos, c.format.FrameSize());
  }

  lemma {:induction false} WholeDifference(a: nat, b: nat, size: nat)
    requires size > 0 && b <= a && Whole(a, size) && Whole(b, size)
    ensures Whole(a - b, size)
    decreases b
  {
    if b > 0 {
      WholeDifference(a - size, b - size, size);
    }
  }

  lemma WholeSum(a: nat, n: nat, size: nat)
    requires size > 0 && Whole(a, size)
    ensures Whole(a + Times(n, size), size)
  {
    WholeIsMod(a, size);
    WholeIsMod(a + Times(n, size), size);
    TimesIsProduct(n, size);
    ModOfSum(a, n, size);
  }

  /** Reading moves the cursor over exactly the bytes read. */
  lemma CursorMoves(c: PcmChunk, want: nat)
    requires c.Sound(c.format)
    ensures var size := c.format.FrameSize();
            var bytes := Times(FramesOff(c, want, size), size);
            var moved := ReadOff(c, want, size);
            && bytes <= |c.Rest()| && moved.Sound(c.format) && (c.Fits(c.format) ==> moved.Fits(c.format))
            && c.Rest() == c.Rest()[..bytes] + moved.Rest()
  {
    var size := c.format.FrameSize();
    var n := FramesOff(c, want, size);
    QuotRem(|c.Rest()|, size);
    QuotientFits(n, |c.Rest()|, size);
    if c.Fits(c.format) {
      WholeSum(c.readPos, n, size);
    }
  }

  /** The audio of a normal-mode call in which `due` frames of correction are due:
      `got` is what was taken, `buf0` and `buf` the correction buffer, `before` and
      `after` the output. */
  ghost predicate SoftResult(due: int, frames: nat, size: nat, pending: nat, got: seq<byte>,
                             buf0: seq<byte>, buf: seq<byte>, before: seq<byte>, after: seq<byte>)
  {
    var k := Clamp(due, frames);
    && frames + k >= 0 && |got| == Min(Times(frames + k, size), pending)
    && ((due == 0 && buf == buf0 && Wrote(before, 0, got, after))
        || (due != 0 && frames > 0 && Corrected(frames, k, size, buf0, buf, got, after)))
  }

  /** What a hard-sync call with this aim leaves behind: the held chunks, the bytes
      taken, the output and the verdict. */
  ghost predicate HardResult(aim: Aim, frames: nat, size: nat, old_: Held, new_: Held, got: seq<byte>,
                             before: seq<byte>, after: seq<byte>, ok: bool)
  {
    match aim
    case NotDue => ok && got == [] && new_ == old_ && Wrote(before, 0, Zeros(Times(frames, size)), after)
    case RanOut => !ok && got == [] && new_ == Held(None, []) && after == before
    case TooLate(chunk, queue) => !ok && got == [] && new_ == Held(Some(chunk), queue) && after == before
    case Start(silent, chunk, queue) =>
      ok && silent <= frames && Started(frames, silent, size, Held(Some(chunk), queue), new_, got, before, after)
  }

  /** Silence and then the audio of `from` were written; the rest of it is kept. */
  ghost predicate Started(frames: nat, silent: nat, size: nat, from: Held, new_: Held, got: seq<byte>,
                          before: seq<byte>, after: seq<byte>)
    requires silent <= frames
  {
    && ReadAway(frames - silent, size, from, new_, got)
    && Wrote(before, 0, Zeros(Times(silent, size)) + got, after)
  }

  /** A read of so many frames took the first bytes and left these chunks. */
  ghost predicate ReadAway(frames: nat, size: nat, from: Held, new_: Held, got: seq<byte>) {
    && from.Bytes() == got + new_.Bytes()
    && |got| == Min(Times(frames, size), |from.Bytes()|)
    && size > 0 && new_ == Drawn(from, frames, size)
  }

  lemma StartedBy(frames: nat, silent: nat, size: nat, from: Held, new_: Held, got: seq<byte>,
                  before: seq<byte>, mid: seq<byte>, after: seq<byte>)
    requires silent <= frames && ReadAway(frames - silent, size, from, new_, got)
    requires Wrote(before, 0, Zeros(Times(silent, size)), mid) && Wrote(mid, Times(silent, size), got, after)
    ensures Started(frames, silent, size, from, new_, got, before, after)
  {
    WroteTwice(before, 0, Zeros(Times(silent, size)), mid, got, after);
  }

  /** A whole call in hard-sync mode, from the chunks h0 to the chunks h1. */
  ghost predicate HardCall(format: SampleFormat, target: int, frames: nat, h0: Held, h1: Held, got: seq<byte>,
                           before: seq<byte>, after: seq<byte>, ok: bool, trace0: seq<Event>, trace1: seq<Event>)
    requires h0.current.Some? && format.rate > 0
  {
    var aim := AimAt(h0.current.value, h0.queue, format.rate, frames, target);
    && HardResult(aim, frames, format.FrameSize(), h0, h1, got, before, after, ok)
    && trace1 == trace0 + AimEvents(aim, frames)
  }

  /** A whole call in normal mode: the bytes taken, the audio written, the age
      measured and booked, and the verdict. `lead` is the playout delay. */
  ghost predicate SoftCall(format: SampleFormat, now: int, lead: int, frames: nat, c: Control, h0: Held, h1: Held,
                           got: seq<byte>, buf0: seq<byte>, buf1: seq<byte>, before: seq<byte>, after: seq<byte>,
                           ok: bool, trace0: seq<Event>, trace1: seq<Event>)
    requires h0.current.Some?
  {
    h0.current.value.Fits(format) &&
    var age := now - h0.current.value.CursorUsec() - lead;
    && h0.Bytes() == got + h1.Bytes() && h1 == Drawn(h0, Wanted(c, frames), format.FrameSize())
    && SoftResult(Due(c, frames), frames, format.FrameSize(), |h0.Bytes()|, got, buf0, buf1, before, after)
    && ok == (Abs(age) < 500_000)
    && trace1 == trace0 + [Played(frames, Quot(|h0.Bytes()|, format.FrameSize()), age, now)]
  }

  /** One call of the player: what was asked, what the stream was like before and
      after it, and what came of it. `lead` is the playout delay. */
  datatype Call = Call(format: SampleFormat, now: int, lead: int, frames: nat, control: Control, h0: Held, h1: Held,
                       got: seq<byte>, buf0: seq<byte>, buf1: seq<byte>, before: seq<byte>, after: seq<byte>,
                       ok: bool, trace0: seq<Event>, trace1: seq<Event>)
  {
    /** What a call has to do: nothing, with no chunk at hand; align, in hard-sync
        mode; play on otherwise. */
    ghost predicate Served() {
      Idle() || (control.hardSync && Aligns()) || (!control.hardSync && PlaysOn())
    }

    ghost predicate Idle() {
      && h0.current == None && !ok && got == [] && h1 == h0
      && trace1 == trace0 && buf1 == buf0 && after == before
    }

    ghost predicate Aligns() {
      && h0.current.Some? && format.rate > 0 && buf1 == buf0
      && HardCall(format, now - lead, frames, h0, h1, got, before, after, ok, trace0, trace1)
    }

    ghost predicate PlaysOn() {
      && h0.current.Some?
      && SoftCall(format, now, lead, frames, control, h0, h1, got, buf0, buf1, before, after, ok, trace0, trace1)
    }
  }

  /** The chunks a stream holds. */
  datatype Held = Held(current: Option<PcmChunk>, queue: seq<PcmChunk>) {
    function Bytes(): seq<byte> {
      CurrentRest(current) + QueueRest(queue)
    }
  }

  /** The events a hard-sync call with this aim adds to the record. */
  function AimEvents(aim: Aim, frames: nat): seq<Event> {
    if aim.Start? && aim.silent < frames then [Aligned] else []
  }

  class Stream {
    const format: SampleFormat
    var chunks: seq<PcmChunk>
    var current: Option<PcmChunk>
    var bufferMs: int
    var hardSync: bool
    const miniBuffer: DoubleBuffer
    const shortBuffer: DoubleBuffer
    const buffer: DoubleBuffer
    var median: int
    var shortMedian: int
    var playedFrames: nat
    var correctAfterXFrames: int
    var frameDelta: int
    var readBuf: seq<byte>
    var lastLogSec: int
    /** Everything that has happened to the control state since creation. */
    ghost var trace: seq<Event>
    ghost var states: seq<Control>

    constructor (format: SampleFormat)
      requires format.FrameSize() > 0 && format.rate > 0
      ensures Valid() && this.format == format && bufferMs == 1000
      ensures chunks == [] && current == None && readBuf == [] && trace == []
      ensures fresh(miniBuffer) && fresh(shortBuffer) && fresh(buffer)
    {
      this.format := format;
      chunks := [];
      current := None;
      bufferMs := 1000;
      hardSync := true;
      miniBuffer := new DoubleBuffer(MINI_BUFFER_SIZE);
      shortBuffer := new DoubleBuffer(SHORT_BUFFER_SIZE);
      buffer := new DoubleBuffer(BUFFER_SIZE);
      median, shortMedian := 0, 0;
      playedFrames := 0;
      correctAfterXFrames := 0;
      frameDelta := 0;
      readBuf := [];
      lastLogSec := 0;
      trace := [];
      states := [INITIAL];
    }

    /** The control state of module SyncControl. */
    ghost function Ctl(): Control
      reads this, miniBuffer, shortBuffer, buffer
    {
      Control(hardSync,
              Windows(miniBuffer.buf, shortBuffer.buf, buffer.buf),
              Medians(median, shortMedian, lastLogSec),
              Books(playedFrames, correctAfterXFrames, frameDelta))
    }

    /** The three windows are separate objects of the right sizes. */
    predicate Distinct() {
      && miniBuffer.capacity == MINI_BUFFER_SIZE && shortBuffer.capacity == SHORT_BUFFER_SIZE
      && buffer.capacity == BUFFER_SIZE
      && miniBuffer != shortBuffer && shortBuffer != buffer && miniBuffer != buffer
    }

    /** The control state is the one reached by the recorded events. */
    ghost predicate Traced()
      reads this, miniBuffer, shortBuffer, buffer
    {
      && Distinct() && IsRun(trace, states) && Ctl() == states[|trace|]
    }

    ghost predicate Valid()
      reads this, miniBuffer, shortBuffer, buffer
    {
      Queued() && Traced()
    }

    /** Every held chunk fits the format. */
    ghost predicate Queued()
      reads this
    {
      && format.FrameSize() > 0 && format.rate > 0
      && (current.Some? ==> current.value.Fits(format))
      && (forall i :: 0 <= i < |chunks| ==> chunks[i].Fits(format))
    }

    /** Every held chunk has the format, of whatever length it is. */
    ghost predicate Readable()
      reads this
    {
      && format.FrameSize() > 0 && format.rate > 0
      && (current.Some? ==> current.value.Sound(format))
      && (forall i :: 0 <= i < |chunks| ==> chunks[i].Sound(format))
    }

    lemma WholeFramesDoNotStall(frames: nat)
      requires Queued()
      ensures Readable() && !WouldStall(Holds(), frames, format.FrameSize())
    {
      if current.Some? {
        WholeChunksNeverStall(current.value, chunks, frames, format);
      }
    }

    /** The bytes the stream will deliver, in order: the rest of the current chunk,
        then the queue. */
    ghost function Pending(): seq<byte>
      reads this
    {
      CurrentRest(current) + QueueRest(chunks)
    }

    ghost function Holds(): Held
      reads this
    {
      Held(current, chunks)
    }

    /** What a call will find at hand. */
    ghost function Upcoming(): Held
      reads this
    {
      Next(current, chunks)
    }

    /** Bytes a read of `frames` frames will take. */
    ghost function Takes(frames: nat): nat
      reads this
    {
      if current == None then 0 else Min(Times(frames, format.FrameSize()), |Pending()|)
    }

    /** Read what the current chunk has. */
    method ReadCurrent(output: array<byte>, start: nat, frames: nat) returns (n: nat, ghost got: seq<byte>)
      requires Readable() && current.Some?
      requires start + Times(frames, format.FrameSize()) <= output.Length
      modifies this`current, output
      ensures Readable() && (old(Queued()) ==> Queued())
      ensures current == Some(ReadOff(old(current).value, frames, format.FrameSize()))
      ensures n == FramesOff(old(current).value, frames, format.FrameSize())
      ensures old(Pending()) == got + Pending() && |got| == Times(n, format.FrameSize())
      ensures Wrote(old(output[..]), start, got, output[..])
    {
      var size := format.FrameSize();
      var before := current.value;
      QuotRem(|before.Rest()|, size);
      RoomForFrames(frames, size, start, output.Length);
      CursorMoves(before, frames);
      var chunk;
      n, chunk := before.ReadFrames(output, start, frames);
      got := before.Rest()[..Times(n, size)];
      Associate(got, chunk.Rest(), QueueRest(chunks));
      current := Some(chunk);
    }

    /** One round of ReadNext: read what the current chunk has, then move to the
        next chunk if that was not enough. `more` tells whether to go on. */
    method ReadRound(output: array<byte>, start: nat, frames: nat)
      returns (n: nat, more: bool, ghost got: seq<byte>)
      requires Readable() && current.Some? && frames > 0 && !WouldStall(Holds(), frames, format.FrameSize())
      requires start + Times(frames, format.FrameSize()) <= output.Length
      modifies this`current, this`chunks, output
      ensures RoundTook(old(Holds()), Holds(), n, got, format.FrameSize(), old(output[..]), start, output[..])
      ensures || (more && GoesOn(old(Holds()), Holds(), frames, n, format.FrameSize()))
              || (!more && Ends(old(Holds()), Holds(), frames, n, format.FrameSize()))
      ensures Readable() && n <= frames && (old(Queued()) ==> Queued())
    {
      RoundEnds(current.value, chunks, frames, format.FrameSize());
      n, got := ReadCurrent(output, start, frames);
      more := false;
      if n < frames && current.value.IsEnd() && chunks != [] {
        SkipEmpty(current.value, chunks);
        current, chunks := Some(chunks[0]), chunks[1..];
        more := true;
      }
    }

    /** One more round of a read of `frames` frames that has taken `read` so far and
        wants `left` more. */
    method ReadOn(output: array<byte>, start: nat, frames: nat, read: nat, left: nat,
                  ghost p: seq<byte>, ghost before: seq<byte>, ghost got: seq<byte>, ghost end: Held)
      returns (read': nat, left': nat, more: bool, ghost got': seq<byte>)
      requires Readable() && Underway(Holds(), read, left, p, before, start, got, output[..], end, format.FrameSize())
      requires read + left == frames && start + Times(frames, format.FrameSize()) <= output.Length
      modifies this`current, this`chunks, output
      ensures || (more && Underway(Holds(), read', left', p, before, start, got', output[..], end, format.FrameSize()))
              || (!more && Over(Holds(), frames, p, before, start, got', output[..], end, format.FrameSize()))
      ensures read' + left' == frames && (more ==> left' + |chunks| < left + |old(chunks)|)
      ensures Readable() && (old(Queued()) ==> Queued())
    {
      ghost var size := format.FrameSize();
      TimesSum(read, left, size);
      ghost var h, mid := Holds(), output[..];
      var n;
      ghost var g;
      n, more, g := ReadRound(output, start + Times(read, format.FrameSize()), left);
      RoundCounts(h, Holds(), read, left, n, p, before, start, got, mid, g, output[..], end, size);
      read', left', got' := read + n, left - n, got + g;
    }

    /** Copy the next `frames` frames to `output` from `start` on, moving to the
        next chunk whenever one is used up. Returns the server time of the first,
        and the bytes taken: whatever was pending is now either written or still
        pending, in the same order. */
    method ReadNext(output: array<byte>, start: nat, frames: nat) returns (ts: Option<int>, ghost got: seq<byte>)
      requires Readable() && !WouldStall(Holds(), frames, format.FrameSize())
      requires start + Times(frames, format.FrameSize()) <= output.Length
      modifies this`current, this`chunks, output
      ensures ts == if old(current) == None then None else Some(old(current).value.CursorUsec())
      ensures old(Pending()) == got + Pending() && |got| == old(Takes(frames))
      ensures Wrote(old(output[..]), start, got, output[..])
      ensures Holds() == Drawn(old(Holds()), frames, format.FrameSize())
      ensures Readable() && (old(Queued()) ==> Queued())
    {
      got := [];
      WroteNothing(output[..], start);
      if current == None {
        return None, [];
      }
      ts := Some(current.value.CursorUsec());
      ghost var p, before, end := Pending(), output[..], Drawn(Holds(), frames, format.FrameSize());
      DrawnNothing(Holds(), format.FrameSize());
      var read: nat, left: nat := 0, frames;
      var more := frames > 0;
      while more
        invariant Readable() && (old(Queued()) ==> Queued()) && read + left == frames
        invariant || (more && Underway(Holds(), read, left, p, before, start, got, output[..], end, format.FrameSize()))
                  || (!more && Over(Holds(), frames, p, before, start, got, output[..], end, format.FrameSize()))
        decreases more, left + |chunks|
      {
        read, left, more, got := ReadOn(output, start, frames, read, left, p, before, got, end);
      }
    }

    /** The same for chunks of whole frames, on which a read never stalls. */
    method ReadWhole(output: array<byte>, start: nat, frames: nat) returns (ts: Option<int>, ghost got: seq<byte>)
      requires Queued() && start + Times(frames, format.FrameSize()) <= output.Length
      modifies this`current, this`chunks, output
      ensures ts == if old(current) == None then None else Some(old(current).value.CursorUsec())
      ensures old(Pending()) == got + Pending() && |got| == old(Takes(frames))
      ensures Wrote(old(output[..]), start, got, output[..])
      ensures Holds() == Drawn(old(Holds()), frames, format.FrameSize())
      ensures Queued()
    {
      WholeFramesDoNotStall(frames);
      ts, got := ReadNext(output, start, frames);
    }

    // ----- Soft sync -----

    /** Read frames + c frames into the correction buffer and spread them over
        `frames` frames of output. */
    method ReadEdited(output: array<byte>, frames: nat, c: int) returns (ts: Option<int>, ghost got: seq<byte>)
      requires Queued() && Times(frames, format.FrameSize()) <= output.Length
      requires frames > 0 && frames + c > 0
      modifies this`current, this`chunks, this`readBuf, output
      ensures ts == if old(current) == None then None else Some(old(current).value.CursorUsec())
      ensures old(Pending()) == got + Pending() && |got| == old(Takes(frames + c))
      ensures Holds() == Drawn(old(Holds()), frames + c, format.FrameSize())
      ensures Corrected(frames, c, format.FrameSize(), old(readBuf), readBuf, got, output[..])
      ensures Queued()
    {
      var size := format.FrameSize();
      var toRead := frames + c;
      var resized := Resize(readBuf, Times(toRead, size));
      var buf := new byte[|resized|](i requires 0 <= i < |resized| => resized[i]);
      assert buf[..] == resized;
      ts, got := ReadWhole(buf, 0, toRead);
      ghost var h := Holds();
      CopySlices(output, buf[..], frames, c, size);
      readBuf := buf[..];
      assert Holds() == h;
    }

    /** Read `frames` frames, dropping or repeating |correction| of them. Clamping
        keeps at least one source frame; without a correction it is a plain read. */
    method ReadWithCorrection(output: array<byte>, frames: nat, correction: int)
      returns (ts: Option<int>, ghost got: seq<byte>)
      requires Queued() && Times(frames, format.FrameSize()) <= output.Length
      requires correction != 0 ==> frames > 0
      requires frames + Max(correction, 0) < 0x8000_0000
      modifies this`current, this`chunks, this`readBuf, this`frameDelta, output
      ensures ts == if old(current) == None then None else Some(old(current).value.CursorUsec())
      ensures old(Pending()) == got + Pending()
      ensures |got| == old(Takes(frames + Clamp(correction, frames)))
      ensures || (correction == 0 && readBuf == old(readBuf) && Wrote(old(output[..]), 0, got, output[..]))
              || (correction != 0 && Corrected(frames, Clamp(correction, frames), format.FrameSize(),
                                               old(readBuf), readBuf, got, output[..]))
      ensures Holds() == Drawn(old(Holds()), frames + Clamp(correction, frames), format.FrameSize())
      ensures frameDelta == old(frameDelta) - Clamp(correction, frames)
      ensures Queued()
    {
      if correction == 0 {
        ts, got := ReadWhole(output, 0, frames);
        return;
      }
      assert AsI32(frames) == frames;
      var c := Max(correction, 1 - AsI32(frames));
      frameDelta := frameDelta - c;
      ts, got := ReadEdited(output, frames, c);
    }

    /** Frames of correction due in this call. */
    method TakeCorrection(frames: nat) returns (correction: int)
      requires Bounded(Ctl()) && frames <= MAX_REQUEST
      modifies this`playedFrames
      ensures correction == Due(old(Ctl()), frames)
      ensures playedFrames == PlayedAfter(old(Ctl()), frames)
    {
      correction := 0;
      if correctAfterXFrames != 0 {
        CorrectionFits(Ctl(), frames);
        playedFrames := playedFrames + frames;
        if playedFrames >= Abs(correctAfterXFrames) {
          assert AsI32(playedFrames) == playedFrames;
          QuotRem(playedFrames, Abs(correctAfterXFrames));
          correction := TruncDiv(AsI32(playedFrames), correctAfterXFrames);
          playedFrames := playedFrames % Abs(correctAfterXFrames);
        }
      }
    }

    method SetRealSampleRate(sampleRate: real)
      requires sampleRate != 0.0
      modifies this`correctAfterXFrames
      ensures correctAfterXFrames == IntervalFor(format.rate as real, sampleRate)
    {
      var nominal := format.rate as real;
      if -F64_EPSILON < sampleRate - nominal < F64_EPSILON {
        correctAfterXFrames := 0;
      } else {
        DivReal(nominal, sampleRate);
        var ratio := nominal / sampleRate;
        correctAfterXFrames := RoundReal(ratio / (ratio - 1.0));
      }
    }

    /** Back to the nominal rate. */
    method ResetRate()
      requires format.rate > 0
      modifies this`correctAfterXFrames
      ensures correctAfterXFrames == 0
    {
      SetRealSampleRate(format.rate as real);
    }

    /** Play faster than nominal: late by the short-term median. */
    method SpeedUp()
      requires format.rate > 0 && shortMedian > CORRECTION_BEGIN_USEC
      modifies this`correctAfterXFrames
      ensures correctAfterXFrames == SoftEvery(shortMedian)
    {
      SoftInterval(format.rate, shortMedian);
      var rate := (shortMedian as real / 100.0) * RATE_CORRECTION_SCALE;
      rate := 1.0 - MinReal(rate, MAX_RATE_CORRECTION);
      SetRealSampleRate(format.rate as real * rate);
    }

    /** Play slower than nominal: early by the short-term median. */
    method SlowDown()
      requires format.rate > 0 && shortMedian < -CORRECTION_BEGIN_USEC
      modifies this`correctAfterXFrames
      ensures correctAfterXFrames == -SoftEvery(shortMedian)
    {
      SoftInterval(format.rate, shortMedian);
      var rate := ((-shortMedian) as real / 100.0) * RATE_CORRECTION_SCALE;
      rate := 1.0 + MinReal(rate, MAX_RATE_CORRECTION);
      SetRealSampleRate(format.rate as real * rate);
    }

    method ResetBuffers()
      modifies miniBuffer, shortBuffer, buffer
      ensures miniBuffer.buf == shortBuffer.buf == buffer.buf == []
    {
      buffer.Clear();
      miniBuffer.Clear();
      shortBuffer.Clear();
    }

    method UpdateBuffers(age: int)
      requires Distinct()
      modifies miniBuffer, shortBuffer, buffer
      ensures miniBuffer.buf == Push(old(miniBuffer.buf), MINI_BUFFER_SIZE, age)
      ensures shortBuffer.buf == Push(old(shortBuffer.buf), SHORT_BUFFER_SIZE, age)
      ensures buffer.buf == Push(old(buffer.buf), BUFFER_SIZE, age)
    {
      buffer.Add(age);
      miniBuffer.Add(age);
      shortBuffer.Add(age);
    }

    /** Decide on the mode and the playback rate from a freshly measured age. */
    method Decide(age: int)
      requires Distinct() && format.rate > 0
      modifies this`hardSync, this`correctAfterXFrames
      ensures hardSync == (old(hardSync) || Judge(old(Ctl()), age).Hard())
      ensures correctAfterXFrames == NewInterval(shortMedian, Judge(old(Ctl()), age))
    {
      ghost var v := Judge(Ctl(), age);
      ResetRate();
      var miniMedian := miniBuffer.MedianSimple();
      if buffer.Full() && Abs(median) > HARD_SYNC_MEDIAN_USEC && Abs(age) > HARD_SYNC_MIN_AGE_USEC {
        hardSync := true;
      } else if shortBuffer.Full() && Abs(shortMedian) > HARD_SYNC_SHORT_MEDIAN_USEC
             && Abs(age) > HARD_SYNC_MIN_AGE_USEC {
        hardSync := true;
      } else if miniBuffer.Full() && Abs(miniMedian) > HARD_SYNC_MINI_MEDIAN_USEC
             && Abs(age) > HARD_SYNC_MIN_AGE_USEC {
        hardSync := true;
      } else if Abs(age) > HARD_SYNC_AGE_USEC {
        hardSync := true;
      } else if shortBuffer.Full() {
        if shortMedian > CORRECTION_BEGIN_USEC && miniMedian > SOFT_SYNC_MIN_USEC && age > SOFT_SYNC_MIN_USEC {
          assert v == Late;
          SpeedUp();
        } else if shortMedian < -CORRECTION_BEGIN_USEC && miniMedian < -SOFT_SYNC_MIN_USEC
               && age < -SOFT_SYNC_MIN_USEC {
          assert v == Early;
          SlowDown();
        }
      }
    }

    /** The bookkeeping of a normal-mode call after its audio has been read. */
    method Measure(age: int, now: int)
      requires Distinct() && format.rate > 0
      modifies this`hardSync, this`correctAfterXFrames, this`median, this`shortMedian,
               this`frameDelta, this`lastLogSec, miniBuffer, shortBuffer, buffer
      ensures Ctl() == Adjust(old(Ctl()), age, now)
    {
      Decide(age);
      UpdateBuffers(age);
      var nowSec := TruncDiv(now, MILLION);
      if nowSec != lastLogSec {
        lastLogSec := nowSec;
        median := buffer.MedianSimple();
        shortMedian := shortBuffer.MedianSimple();
        frameDelta := 0;
      }
    }

    // ----- Hard sync -----

    /** Drop chunks that are late by their whole duration and take the first other
        one, sought forward if it is late. */
    method SkipStale(target: int)
      requires Queued()
      modifies this`current, this`chunks
      ensures Queued()
      ensures Holds() == SkippedTo(old(chunks), format.rate, target)
    {
      current := None;
      ghost var k := 0;
      ghost var all := chunks;
      var searching := true;
      while searching && chunks != []
        invariant Queued() && k <= |all|
        invariant searching ==> current == None && chunks == all[k..]
        invariant searching ==> StaleCount(all, target) == k + StaleCount(all[k..], target)
        invariant !searching ==> k < |all| && StaleCount(all, target) == k && chunks == all[k + 1..]
        invariant !searching ==> current == Some(Landed(all[k], format.rate, target))
        decreases searching, |chunks|
      {
        var c := chunks[0];
        StaleTail(all, k, target);
        chunks := chunks[1..];
        var a := AgeAt(c, target);
        if a > 0 && a < c.DurationUsec() {
          SeekFits(c, format, UsecToFrames(a, format.rate));
          current := Some(c.Seek(UsecToFrames(a, format.rate)));
          searching := false;
        } else if a <= 0 {
          current := Some(c);
          searching := false;
        } else {
          k := k + 1;
        }
      }
    }

    /** `silent` frames of silence and then audio. */
    method SilenceThenAudio(output: array<byte>, silent: nat, frames: nat) returns (ghost got: seq<byte>)
      requires Queued() && current.Some? && silent <= frames
      requires Times(frames, format.FrameSize()) <= output.Length
      modifies this`current, this`chunks, output
      ensures Started(frames, silent, format.FrameSize(), old(Holds()), Holds(), got, old(output[..]), output[..])
      ensures Queued()
    {
      var size := format.FrameSize();
      TimesMono(silent, frames, size);
      ghost var before := output[..];
      CopyInto(output, 0, Zeros(Times(silent, size)));
      ghost var mid := output[..];
      got := ReadBehind(output, silent, frames);
      StartedBy(frames, silent, size, old(Holds()), Holds(), got, before, mid, output[..]);
    }

    /** The audio behind the silence, if there is room for any. */
    method ReadBehind(output: array<byte>, silent: nat, frames: nat) returns (ghost got: seq<byte>)
      requires Queued() && current.Some? && silent <= frames
      requires Times(silent, format.FrameSize()) + Times(frames - silent, format.FrameSize()) <= output.Length
      modifies this`current, this`chunks, output
      ensures ReadAway(frames - silent, format.FrameSize(), old(Holds()), Holds(), got)
      ensures Wrote(old(output[..]), Times(silent, format.FrameSize()), got, output[..])
      ensures Queued()
    {
      if frames - silent > 0 {
        var ts;
        ts, got := ReadWhole(output, Times(silent, format.FrameSize()), frames - silent);
        return;
      }
      got := [];
      DrawnNothing(Holds(), format.FrameSize());
      WroteNothing(output[..], Times(silent, format.FrameSize()));
    }

    /** Silence up to the chunk's time, then the chunk: the end of a hard sync,
        unless the silence fills the whole request. */
    method StartChunk(output: array<byte>, frames: nat, target: int) returns (ghost got: seq<byte>)
      requires Valid() && hardSync && current.Some? && AgeAt(current.value, target) <= 0
      requires Times(frames, format.FrameSize()) <= output.Length
      modifies this`current, this`chunks, this`hardSync, this`trace, this`states, miniBuffer, shortBuffer, buffer, output
      ensures Started(frames, SilentFrames(format.rate, AgeAt(old(current).value, target), frames), format.FrameSize(),
                      old(Holds()), Holds(), got, old(output[..]), output[..])
      ensures trace == old(trace)
        + if SilentFrames(format.rate, AgeAt(old(current).value, target), frames) < frames then [Aligned] else []
      ensures Valid()
    {
      var age := AgeAt(current.value, target);
      var silent := Min(UsecToFrames(-age, format.rate), frames);
      assert silent == SilentFrames(format.rate, age, frames);
      got := SilenceThenAudio(output, silent, frames);
      FinishAlign(silent, frames);
    }

    /** Hard sync ends once audio has been started. */
    method FinishAlign(silent: nat, frames: nat)
      requires Valid() && hardSync
      modifies this`hardSync, this`trace, this`states, miniBuffer, shortBuffer, buffer
      ensures Valid() && Holds() == old(Holds())
      ensures trace == old(trace) + if silent < frames then [Aligned] else []
    {
      if silent < frames {
        EndHardSync();
      }
    }

    method EndHardSync()
      requires Valid() && hardSync
      modifies this`hardSync, this`trace, this`states, miniBuffer, shortBuffer, buffer
      ensures Valid() && trace == old(trace) + [Aligned] && Holds() == old(Holds())
    {
      RunGrows(trace, states, Aligned);
      states := states + [Step(states[|trace|], Aligned)];
      hardSync := false;
      ResetBuffers();
      trace := trace + [Aligned];
    }

    /** A hard-sync call that finds its chunk late. */
    method AlignLate(target: int, output: array<byte>, frames: nat) returns (ok: bool, ghost got: seq<byte>)
      requires Valid() && hardSync && current.Some?
      requires Times(frames, format.FrameSize()) <= output.Length
      modifies this`current, this`chunks, this`hardSync, this`trace, this`states, miniBuffer, shortBuffer, buffer, output
      ensures Valid()
      ensures var aim := Skipped(old(chunks), format.rate, frames, target);
              && HardResult(aim, frames, format.FrameSize(), old(Holds()), Holds(), got, old(output[..]), output[..], ok)
              && trace == old(trace) + AimEvents(aim, frames)
    {
      got := [];
      SkipStale(target);
      ghost var aim := Skipped(old(chunks), format.rate, frames, target);
      if current == None {
        assert aim == RanOut;
        return false, [];
      }
      if AgeAt(current.value, target) > 0 {
        assert aim == TooLate(current.value, chunks);
        return false, [];
      }
      assert aim == Start(SilentFrames(format.rate, AgeAt(current.value, target), frames), current.value, chunks);
      got := StartChunk(output, frames, target);
      ok := true;
    }

    /** A call in hard-sync mode; `target` is the server time due at the output. */
    method Align(now: int, lead: int, output: array<byte>, frames: nat) returns (ok: bool, ghost call: Call)
      requires Valid() && hardSync && current.Some?
      requires Times(frames, format.FrameSize()) <= output.Length
      modifies this`current, this`chunks, this`hardSync, this`trace, this`states, miniBuffer, shortBuffer, buffer, output
      ensures call == Call(format, now, lead, frames, old(Ctl()), old(Holds()), Holds(), call.got, readBuf, readBuf,
                           old(output[..]), output[..], ok, old(trace), trace)
      ensures call.Served()
      ensures Valid()
    {
      ghost var c, h, before, tr := Ctl(), Holds(), output[..], trace;
      ghost var got;
      ok, got := AlignTo(now - lead, output, frames);
      call := Call(format, now, lead, frames, c, h, Holds(), got, readBuf, readBuf, before, output[..], ok, tr, trace);
    }

    /** `target` is the server time due at the output. */
    method AlignTo(target: int, output: array<byte>, frames: nat) returns (ok: bool, ghost got: seq<byte>)
      requires Valid() && hardSync && current.Some?
      requires Times(frames, format.FrameSize()) <= output.Length
      modifies this`current, this`chunks, this`hardSync, this`trace, this`states, miniBuffer, shortBuffer, buffer, output
      ensures HardCall(format, target, frames, old(Holds()), Holds(), got,
                       old(output[..]), output[..], ok, old(trace), trace)
      ensures Valid()
    {
      var reqDuration: int := FramesToUsec(frames, format.rate);
      ghost var aim := AimAt(current.value, chunks, format.rate, frames, target);
      if AgeAt(current.value, target) < 0 - reqDuration {
        assert aim == NotDue;
        GetSilence(output, frames);
        return true, [];
      }
      if AgeAt(current.value, target) > 0 {
        ok, got := AlignLate(target, output, frames);
        return;
      }
      assert aim == Start(SilentFrames(format.rate, AgeAt(current.value, target), frames), current.value, chunks);
      got := StartChunk(output, frames, target);
      ok := true;
    }

    // ----- The player's calls -----

    /** The reading half of a normal-mode call: work out the correction due and read
        with it. */
    method ReadDue(output: array<byte>, frames: nat) returns (ts: Option<int>, ghost got: seq<byte>)
      requires Queued() && current.Some? && Bounded(Ctl())
      requires frames <= MAX_REQUEST && (frames > 0 || Due(Ctl(), frames) == 0)
      requires Times(frames, format.FrameSize()) <= output.Length
      modifies this`playedFrames, this`current, this`chunks, this`readBuf, this`frameDelta, output
      ensures SoftResult(Due(old(Ctl()), frames), frames, format.FrameSize(), |old(Holds()).Bytes()|, got,
                         old(readBuf), readBuf, old(output[..]), output[..])
      ensures Holds() == Drawn(old(Holds()), Wanted(old(Ctl()), frames), format.FrameSize())
      ensures old(Holds()).Bytes() == got + Holds().Bytes()
      ensures ts == Some(old(current).value.CursorUsec())
      ensures Queued() && Ctl() == Charge(old(Ctl()), frames)
    {
      CorrectionFits(Ctl(), frames);
      ghost var c, h := Ctl(), Holds();
      var correction := TakeCorrection(frames);
      assert frames + Clamp(correction, frames) == Wanted(c, frames) && Holds() == h;
      ts, got := ReadWithCorrection(output, frames, correction);
      assert h.Bytes() == got + Holds().Bytes();
    }

    /** The measuring half of a normal-mode call. */
    method Book(frames: nat, ghost pending: nat, age: int, now: int)
      requires Distinct() && format.rate > 0 && IsRun(trace, states)
      requires Ctl() == Charge(states[|trace|], frames) && Enabled(states[|trace|], Played(frames, pending, age, now))
      modifies this`hardSync, this`correctAfterXFrames, this`median, this`shortMedian,
               this`frameDelta, this`lastLogSec, this`trace, this`states, miniBuffer, shortBuffer, buffer
      ensures trace == old(trace) + [Played(frames, pending, age, now)] && Holds() == old(Holds())
      ensures Traced()
    {
      RunGrows(trace, states, Played(frames, pending, age, now));
      states := states + [Step(states[|trace|], Played(frames, pending, age, now))];
      Measure(age, now);
      trace := trace + [Played(frames, pending, age, now)];
    }

    /** A call in normal mode. `lead` is the playout delay: the buffer time less the
        time until the output is heard. */
    method PlayOn(now: int, lead: int, output: array<byte>, frames: nat) returns (ok: bool, ghost call: Call)
      requires Valid() && !hardSync && current.Some?
      requires frames <= MAX_REQUEST && (frames > 0 || Due(Ctl(), frames) == 0)
      requires Times(frames, format.FrameSize()) <= output.Length
      modifies this, miniBuffer, shortBuffer, buffer, output
      ensures call == Call(format, now, lead, frames, old(Ctl()), old(Holds()), Holds(), call.got, old(readBuf), readBuf,
                           old(output[..]), output[..], ok, old(trace), trace)
      ensures call.Served()
      ensures Valid() && bufferMs == old(bufferMs)
    {
      RunIsBounded(trace, states);
      ghost var c, h, buf, before, tr := Ctl(), Holds(), readBuf, output[..], trace;
      ghost var pending := Quot(|h.Bytes()|, format.FrameSize());
      var ts;
      ghost var got;
      ts, got := ReadDue(output, frames);
      ghost var written, buf1, h1 := output[..], readBuf, Holds();
      var age := now - ts.value - lead;
      Book(frames, pending, age, now);
      assert output[..] == written;
      ok := Abs(age) < 500_000;
      call := Call(format, now, lead, frames, c, h, h1, got, buf, buf1, before, written, ok, tr, trace);
    }

    /** Fill the request with silence, as far as the output reaches. */
    method GetSilence(output: array<byte>, frames: nat)
      modifies output
      ensures Wrote(old(output[..]), 0, Zeros(Min(Times(frames, format.FrameSize()), output.Length)), output[..])
    {
      var bytes := Times(frames, format.FrameSize());
      CopyInto(output, 0, Zeros(Min(bytes, output.Length)));
    }

    /** Move to the next chunk if there is nothing left of the current one. */
    method TakeNext()
      requires Queued()
      modifies this`current, this`chunks
      ensures Queued() && Holds() == old(Upcoming())
    {
      if current == None || current.value.IsEnd() {
        if chunks == [] {
          current := None;
        } else {
          current, chunks := Some(chunks[0]), chunks[1..];
        }
      }
    }

    /** A call with whatever is at hand. */
    method PlayHeld(now: int, lead: int, output: array<byte>, frames: nat) returns (ok: bool, ghost call: Call)
      requires Valid() && Times(frames, format.FrameSize()) <= output.Length
      requires hardSync || (frames <= MAX_REQUEST && (frames > 0 || Due(Ctl(), frames) == 0))
      modifies this, miniBuffer, shortBuffer, buffer, output
      ensures call == Call(format, now, lead, frames, old(Ctl()), old(Holds()), Holds(), call.got, old(readBuf), readBuf,
                           old(output[..]), output[..], ok, old(trace), trace)
      ensures call.Served()
      ensures Valid() && bufferMs == old(bufferMs)
    {
      if current == None {
        return false, Call(format, now, lead, frames, Ctl(), Holds(), Holds(), [], readBuf, readBuf,
                           output[..], output[..], false, trace, trace);
      }
      if hardSync {
        ok, call := Align(now, lead, output, frames);
        return;
      }
      ok, call := PlayOn(now, lead, output, frames);
    }

    /** Fill `output` with time-synchronised audio. Returns whether it may be played. */
    method GetPlayerChunk(now: int, dac: int, output: array<byte>, frames: nat)
      returns (ok: bool, ghost call: Call)
      requires Valid() && Times(frames, format.FrameSize()) <= output.Length
      requires hardSync || (frames <= MAX_REQUEST && (frames > 0 || Due(Ctl(), frames) == 0))
      modifies this, miniBuffer, shortBuffer, buffer, output
      ensures call == Call(format, now, old(bufferMs) * 1000 - dac, frames, old(Ctl()), old(Upcoming()), Holds(), call.got,
                           old(readBuf), readBuf, old(output[..]), output[..], ok, old(trace), trace)
      ensures call.Served()
      ensures Valid() && bufferMs == old(bufferMs)
    {
      TakeNext();
      assert Ctl() == old(Ctl()) && output[..] == old(output[..]);
      ok, call := PlayHeld(now, bufferMs * 1000 - dac, output, frames);
    }

    /** Like GetPlayerChunk, but an output that may not be played is overwritten with
        silence. */
    method GetPlayerChunkOrSilence(now: int, dac: int, output: array<byte>, frames: nat)
      returns (ok: bool, ghost call: Call)
      requires Valid() && Times(frames, format.FrameSize()) <= output.Length
      requires hardSync || (frames <= MAX_REQUEST && (frames > 0 || Due(Ctl(), frames) == 0))
      modifies this, miniBuffer, shortBuffer, buffer, output
      ensures call == Call(format, now, old(bufferMs) * 1000 - dac, frames, old(Ctl()), old(Upcoming()), Holds(), call.got,
                           old(readBuf), readBuf, old(output[..]), call.after, ok, old(trace), trace)
      ensures call.Served()
      ensures if ok then output[..] == call.after
              else Wrote(call.after, 0, Zeros(Times(frames, format.FrameSize())), output[..])
      ensures Valid() && bufferMs == old(bufferMs)
    {
      ok, call := GetPlayerChunk(now, dac, output, frames);
      if ok {
        return;
      }
      GetSilence(output, frames);
    }

    // ----- Feeding and resetting -----

    method AddChunk(chunk: PcmChunk)
      requires Valid() && chunk.Fits(format)
      modifies this`chunks
      ensures Valid() && chunks == old(chunks) + [chunk]
      ensures Pending() == old(Pending()) + chunk.Rest()
    {
      QueueGrows(chunks, chunk);
      Associate(CurrentRest(current), QueueRest(chunks), chunk.Rest());
      chunks := chunks + [chunk];
    }

    method SetBufferMs(ms: int)
      requires Valid()
      modifies this`bufferMs
      ensures Valid() && bufferMs == ms
    {
      bufferMs := ms;
    }

    /** Drop all audio and start over aligning; the drift windows and the rate stay. */
    method Clear()
      requires Valid()
      modifies this`chunks, this`current, this`hardSync, this`trace, this`states
      ensures Valid() && Holds() == Held(None, []) && Pending() == [] && trace == old(trace) + [Cleared]
    {
      RunGrows(trace, states, Cleared);
      states := states + [Step(states[|trace|], Cleared)];
      chunks := [];
      current := None;
      hardSync := true;
      trace := trace + [Cleared];
    }
  }
}
