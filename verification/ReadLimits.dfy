/** Inputs on which reading does not do its work: chunks that end in part of a frame,
    and requests for no frames (crates/snapcast-client/src/stream.rs). */
module ReadLimits {
  import opened Arith
  import opened Playout
  import opened SliceEdit
  import opened SyncControl

  // ----- The read loop on chunks of any length -----

  function Rounds(r: Reading, size: nat, k: nat): Reading
    requires size > 0
    decreases k
  {
    if k == 0 then r else Rounds(Round(r, size), size, k - 1)
  }

  predicate Stuck(r: Reading, size: nat)
    requires size > 0
  {
    r.Reading? && Stalls(r.chunk, r.queue, r.want, size)
  }

  lemma StuckStaysStuck(r: Reading, size: nat)
    requires size > 0 && Stuck(r, size)
    ensures Stuck(Round(r, size), size)
  {
    WholeFramesRead(r.chunk, size);
  }

  lemma {:induction false} StuckForever(r: Reading, size: nat, k: nat)
    requires size > 0 && Stuck(r, size)
    ensures !Rounds(r, size, k).Finished?
    decreases k
  {
    if k > 0 {
      StuckStaysStuck(r, size);
      StuckForever(Round(r, size), size, k - 1);
    }
  }

  lemma {:induction false} LoopEnds(r: Reading, size: nat) returns (k: nat)
    requires size > 0 && r.Reading? && !Stuck(r, size)
    ensures Rounds(r, size, k).Finished?
    decreases |r.queue|
  {
    WholeFramesRead(r.chunk, size);
    var next := Round(r, size);
    if r.want <= Quot(|r.chunk.Rest()|, size) {
      k := 2;
      assert Rounds(r, size, 2) == Rounds(next, size, 1) == Rounds(Round(next, size), size, 0);
    } else if r.queue == [] {
      k := 1;
      assert Rounds(r, size, 1) == Rounds(next, size, 0);
    } else {
      var k' := LoopEnds(next, size);
      k := k' + 1;
    }
  }

  /** The read loop ends exactly if it gets its frames before it meets a chunk that
      ends in part of a frame; otherwise it goes round that chunk for ever. */
  lemma ReadEndsExactly(chunk: PcmChunk, queue: seq<PcmChunk>, want: nat, size: nat)
    requires size > 0
    ensures (exists k :: Rounds(Reading(chunk, queue, want), size, k).Finished?) <==> !Stalls(chunk, queue, want, size)
  {
    var r := Reading(chunk, queue, want);
    if Stuck(r, size) {
      forall k
        ensures !Rounds(r, size, k).Finished?
      {
        StuckForever(r, size, k);
      }
    } else {
      var k := LoopEnds(r, size);
    }
  }

  // ----- The slice loop on requests of any length -----

  /** Where slice n of a corrected read goes, as the program works it out: its first
      frame in the output and its length. */
  function SliceTarget(frames: nat, correction: int, n: nat): (int, int)
    requires frames + Max(correction, 1 - frames) > 0
  {
    var c := Max(correction, 1 - frames);
    var max := if c < 0 then frames else frames + c;
    var slices := SliceTotal(frames, correction);
    var pos := n * (max / slices);
    (if c < 0 then pos else pos - n, if n + 1 == slices then max - pos else max / slices)
  }

  function SliceTotal(frames: nat, correction: int): (s: nat)
    requires frames + Max(correction, 1 - frames) > 0
    ensures s > 0
  {
    var c := Max(correction, 1 - frames);
    Min(Abs(c) + 1, if c < 0 then frames else frames + c)
  }

  /** Slice n is copied past the frames requested. */
  predicate WritesPast(frames: nat, correction: int, n: nat)
    requires frames + Max(correction, 1 - frames) > 0
  {
    var t := SliceTarget(frames, correction, n);
    n < SliceTotal(frames, correction) && t.0 + t.1 > frames
  }

  /** A corrected read writes past its request exactly if the request is for no frames. */
  lemma OnlyEmptyRequestsOverrun(frames: nat, correction: int)
    requires correction != 0
    ensures (exists n: nat :: WritesPast(frames, correction, n)) <==> frames == 0
  {
    if frames == 0 {
      assert SliceTotal(0, correction) == Max(correction, 1);
      assert WritesPast(0, correction, 0);
    } else {
      forall n: nat | n < SliceTotal(frames, correction)
        ensures !WritesPast(frames, correction, n)
      {
        TargetIsInside(frames, correction, n);
      }
    }
  }

  lemma TargetIsInside(frames: nat, correction: int, n: nat)
    requires frames > 0 && correction != 0 && n < SliceTotal(frames, correction)
    ensures !WritesPast(frames, correction, n)
  {
    var c := Clamp(correction, frames);
    SliceCount(frames, c);
    SliceInBounds(frames, c, n);
  }

  /** Such a request can come when a correction is due. */
  lemma EmptyRequestsCanOverrun() returns (es: seq<Event>)
    ensures Reachable(es) && !After(es).hardSync
    ensures Due(After(es), 0) != 0 && exists n: nat :: WritesPast(0, Due(After(es), 0), n)
  {
    es := EmptyRequestWithCorrectionDue();
    OnlyEmptyRequestsOverrun(0, Due(After(es), 0));
  }
}
