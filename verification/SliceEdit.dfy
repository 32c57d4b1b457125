/** Soft-sync editing: which source frame each output frame is taken from when a
    few frames are dropped or repeated at slice boundaries
    (crates/snapcast-client/src/stream.rs, read_with_correction). */
module SliceEdit {
  import opened Arith

  /** Correction limited so that at least one source frame is read. */
  function Clamp(correction: int, frames: nat): int {
    if correction == 0 then 0 else Max(correction, 1 - frames)
  }

  /** The length of every slice but the last, for a clamped correction. */
  function SliceSize(frames: nat, c: int): (s: nat)
    requires frames > 0 && frames + c > 0
    ensures s >= 1
    ensures (Abs(c) + 1) * s <= if c > 0 then frames + c else frames
  {
    var max := if c > 0 then frames + c else frames;
    DivBounds(max, Abs(c) + 1);
    DivMono(Abs(c) + 1, max, Abs(c) + 1);
    max / (Abs(c) + 1)
  }

  /** The source frame that ends up at output position j. */
  function Source(frames: nat, c: int, j: nat): int
    requires frames > 0 && frames + c > 0
  {
    var s := SliceSize(frames, c);
    if c > 0 then DropSource(c, s - 1, j) else RepeatSource(-c, s, j)
  }

  // ----- Dropping the last of each of c slices of t + 1 frames -----

  function DropSource(c: nat, t: nat, j: nat): nat {
    if j >= c * t then j + c else DropShift(c, t, j); j + j / t
  }

  predicate DropPoint(c: nat, t: nat, i: nat) {
    (i + 1) % (t + 1) == 0 && (i + 1) / (t + 1) <= c
  }

  /** Position j lies in slice n of the output, which is shifted by n frames. */
  predicate InSlice(c: nat, t: nat, j: nat, n: nat) {
    n <= c && n * t <= j && (n < c ==> j < n * t + t)
  }

  lemma DropShift(c: nat, t: nat, j: nat)
    requires j < c * t
    ensures t > 0 && InSlice(c, t, j, j / t)
  {
    if t > 0 {
      DivBounds(j, t);
      var q := j / t;
      assert (q + 1) * t == q * t + t;
      if q >= c { MulMono(c, q, t); }
    }
  }

  lemma SliceOf(c: nat, t: nat, j: nat) returns (n: nat)
    ensures InSlice(c, t, j, n) && DropSource(c, t, j) == j + n
  {
    if j >= c * t {
      n := c;
    } else {
      DropShift(c, t, j);
      n := j / t;
    }
  }

  lemma DropInSlice(c: nat, t: nat, j: nat, n: nat)
    requires InSlice(c, t, j, n)
    ensures DropSource(c, t, j) == j + n
  {
    if n < c {
      MulMono(n + 1, c, t);
      assert (n + 1) * t == n * t + t;
      DivUnique(j, t, n);
    }
  }

  lemma DropIncreasing(c: nat, t: nat, i: nat, j: nat)
    requires i < j
    ensures DropSource(c, t, i) < DropSource(c, t, j) <= j + c
  {
    var m := SliceOf(c, t, i);
    var n := SliceOf(c, t, j);
    assert (n + 1) * t == n * t + t;
    if n < m {
      MulMono(n + 1, m, t);
    }
  }

  lemma BetweenMultiples(x: nat, s: nat, n: nat)
    requires s > 0 && n * s < x
    ensures x % s == 0 ==> x / s > n
    ensures x < n * s + s ==> x % s != 0
  {
    DivBounds(x, s);
    if x / s <= n {
      MulMono(x / s, n, s);
    }
    if x < n * s + s {
      assert (n + 1) * s == n * s + s;
      DivUnique(x, s, n);
    }
  }

  lemma DropSourceIsKept(c: nat, t: nat, j: nat)
    ensures !DropPoint(c, t, DropSource(c, t, j))
  {
    var n := SliceOf(c, t, j);
    assert n * (t + 1) == n * t + n;
    BetweenMultiples(j + n + 1, t + 1, n);
  }

  /** A source frame in the last slice, ... */
  lemma KeptInLastSlice(total: nat, c: nat, t: nat, i: nat)
    requires c * (t + 1) <= i < total
    ensures c <= i && i - c < total - c && DropSource(c, t, i - c) == i
  {
    assert c * (t + 1) == c * t + c;
    DropInSlice(c, t, i - c, c);
  }

  /** ... and one in an earlier slice but not at its end, is kept. */
  lemma KeptInSlice(total: nat, c: nat, t: nat, i: nat, q: nat)
    requires q < c && c * t + c + t + 1 <= total
    requires q * t + q <= i < q * t + q + t
    ensures q <= i && i - q < total - c && DropSource(c, t, i - q) == i
  {
    MulMono(q + 1, c, t);
    assert (q + 1) * t == q * t + t;
    DropInSlice(c, t, i - q, q);
  }

  /** Where a frame that is not dropped lies in its slice. */
  lemma KeptRange(c: nat, t: nat, i: nat)
    requires !DropPoint(c, t, i)
    ensures var q := i / (t + 1);
            if q >= c then c * (t + 1) <= i else q * t + q <= i < q * t + q + t
  {
    DivBounds(i, t + 1);
    var q := i / (t + 1);
    if q >= c {
      MulMono(c, q, t + 1);
    } else {
      DivMultiple(q + 1, t + 1);
      assert (q + 1) * (t + 1) == q * t + q + t + 1;
      assert i + 1 != (q + 1) * (t + 1);
    }
  }

  lemma KeptHasPosition(total: nat, c: nat, t: nat, i: nat) returns (j: nat)
    requires c * t + c + t + 1 <= total && i < total
    requires !DropPoint(c, t, i)
    ensures j < total - c && DropSource(c, t, j) == i
  {
    KeptRange(c, t, i);
    var q := i / (t + 1);
    if q >= c {
      KeptInLastSlice(total, c, t, i);
      j := i - c;
    } else {
      KeptInSlice(total, c, t, i, q);
      j := i - q;
    }
  }

  // ----- Repeating the first of each of k slices of s frames -----

  function RepeatSource(k: nat, s: nat, j: nat): int
    requires s > 0
  {
    j - Min(k, j / s)
  }

  predicate RepeatPoint(k: nat, s: nat, j: nat)
    requires s > 0
  {
    j > 0 && j % s == 0 && j / s <= k
  }

  lemma RepeatInSlice(k: nat, s: nat, j: nat, n: nat)
    requires s > 0 && InSlice(k, s, j, n)
    ensures RepeatSource(k, s, j) == j - n
  {
    if n < k {
      assert (n + 1) * s == n * s + s;
      DivUnique(j, s, n);
    } else {
      DivMono(n * s, j, s);
      DivMultiple(n, s);
    }
  }

  /** Stepping by one passes a multiple of s or stays between two of them. */
  lemma QuotientStep(j: nat, s: nat)
    requires j > 0 && s > 0
    ensures j / s == (j - 1) / s + if j % s == 0 then 1 else 0
  {
    DivBounds(j, s);
    var q := j / s;
    assert (q + 1) * s == q * s + s;
    if j == q * s {
      assert (q - 1) * s == q * s - s;
      DivUnique(j - 1, s, q - 1);
    } else {
      DivUnique(j - 1, s, q);
    }
  }

  lemma RepeatStep(k: nat, s: nat, j: nat)
    requires s > 0 && j > 0
    ensures RepeatSource(k, s, j) == RepeatSource(k, s, j - 1) + if RepeatPoint(k, s, j) then 0 else 1
  {
    QuotientStep(j, s);
  }

  // ----- Copying slice by slice -----

  /** The plan for slice n out of |c| + 1: `len` frames go from `src` to `dst`. */
  datatype Slice = Slice(src: nat, dst: nat, len: nat)

  function SliceAt(frames: nat, c: int, n: nat): Slice
    requires frames > 0 && frames + c > 0 && n <= Abs(c)
  {
    var s := SliceSize(frames, c);
    SliceFits(n, Abs(c), s);
    var len := if n == Abs(c) then (if c > 0 then frames + c else frames) - n * s else s;
    if c < 0 then Slice(n * s - n, n * s, len) else Slice(n * s, n * s - n, len)
  }

  lemma AtLeastOnce(n: nat, s: nat)
    requires s > 0
    ensures n <= n * s
  {
    MulMono(1, s, n);
  }

  lemma SliceFits(n: nat, k: nat, s: nat)
    requires s > 0 && n <= k
    ensures n <= n * s && n * s + s <= (k + 1) * s
    ensures n < k ==> n * s + s - n <= (k + 1) * s - k
  {
    MulDistrib(n, 1, s);
    MulDistrib(n + 1, k - n, s);
    AtLeastOnce(n, s);
    AtLeastOnce(k - n, s);
  }

  /** The end of the part of the output that slices up to n settle for good. */
  function Settled(frames: nat, c: int, n: nat): nat
    requires frames > 0 && frames + c > 0 && n <= Abs(c) + 1
  {
    if n == Abs(c) + 1 then frames else SliceAt(frames, c, n).dst
  }

  /** Every slice stays inside both buffers and reaches the next one. */
  lemma SliceInBounds(frames: nat, c: int, n: nat)
    requires frames > 0 && frames + c > 0 && n <= Abs(c)
    ensures var p := SliceAt(frames, c, n);
            && p.src + p.len <= frames + c && p.dst + p.len <= frames
            && p.dst <= Settled(frames, c, n + 1) <= p.dst + p.len
  {
    var s := SliceSize(frames, c);
    SliceFits(n, Abs(c), s);
    assert (n + 1) * s == n * s + s;
  }

  /** The frames a slice settles come from where Source says. */
  lemma SliceSettles(frames: nat, c: int, n: nat, j: nat)
    requires frames > 0 && frames + c > 0 && n <= Abs(c)
    requires SliceAt(frames, c, n).dst <= j < Settled(frames, c, n + 1)
    ensures Source(frames, c, j) == SliceAt(frames, c, n).src + j - SliceAt(frames, c, n).dst
  {
    if c > 0 {
      DropSettles(frames, c, n, j);
    } else {
      RepeatSettles(frames, c, n, j);
    }
  }

  lemma DropSettles(frames: nat, c: nat, n: nat, j: nat)
    requires frames > 0 && c > 0 && n <= c
    requires SliceAt(frames, c, n).dst <= j < Settled(frames, c, n + 1)
    ensures Source(frames, c, j) == j + n
  {
    var s := SliceSize(frames, c);
    SliceStarts(n, s);
    DropInSlice(c, s - 1, j, n);
  }

  lemma SliceStarts(n: nat, s: nat)
    requires s > 0
    ensures (n + 1) * s == n * s + s && n * (s - 1) == n * s - n
  {
  }

  lemma RepeatSettles(frames: nat, c: int, n: nat, j: nat)
    requires frames > 0 && frames + c > 0 && c <= 0 && n <= -c
    requires SliceAt(frames, c, n).dst <= j < Settled(frames, c, n + 1)
    ensures Source(frames, c, j) == j - n
  {
    var s := SliceSize(frames, c);
    assert (n + 1) * s == n * s + s;
    RepeatInSlice(-c, s, j, n);
  }

  // ----- The edit as a whole -----

  /** Dropping is an order-preserving edit: later output frames come from later
      source frames, ... */
  lemma DropKeepsOrder(frames: nat, c: nat, i: nat, j: nat)
    requires frames > 0 && c > 0 && i < j < frames
    ensures 0 <= Source(frames, c, i) < Source(frames, c, j) < frames + c
  {
    DropIncreasing(c, SliceSize(frames, c) - 1, i, j);
  }

  /** ... and a source frame is left out exactly when it is the last frame of one
      of the first c slices, so exactly c frames are. */
  lemma DropEdit(frames: nat, c: nat, i: nat)
    requires frames > 0 && c > 0 && i < frames + c
    ensures (exists n: nat :: n < c && i == LastOfSlice(frames, c, n))
       <==> !(exists j :: 0 <= j < frames && Source(frames, c, j) == i)
  {
    var s := SliceSize(frames, c);
    LastOfSliceIsDropPoint(frames, c, i);
    if DropPoint(c, s - 1, i) {
      forall j | 0 <= j < frames
        ensures Source(frames, c, j) != i
      {
        DropSourceIsKept(c, s - 1, j);
      }
    } else {
      assert (c + 1) * s == c * (s - 1) + c + s;
      var j := KeptHasPosition(frames + c, c, s - 1, i);
      assert Source(frames, c, j) == i;
    }
  }

  function LastOfSlice(frames: nat, c: nat, n: nat): int
    requires frames > 0 && c > 0
  {
    (n + 1) * SliceSize(frames, c) - 1
  }

  lemma LastOfSliceIsDropPoint(frames: nat, c: nat, i: nat)
    requires frames > 0 && c > 0
    ensures (exists n: nat :: n < c && i == LastOfSlice(frames, c, n)) <==> DropPoint(c, SliceSize(frames, c) - 1, i)
  {
    var s := SliceSize(frames, c);
    if DropPoint(c, s - 1, i) {
      var q := (i + 1) / s;
      DivBounds(i + 1, s);
      assert i + 1 == q * s;
      assert q > 0;
      assert i == LastOfSlice(frames, c, q - 1);
    }
    if exists n: nat :: n < c && i == LastOfSlice(frames, c, n) {
      var n: nat :| n < c && i == LastOfSlice(frames, c, n);
      DivMultiple(n + 1, s);
    }
  }

  /** Output positions that repeat the frame before them: the first of each slice
      but the first. */
  predicate Repeats(frames: nat, c: int, j: nat)
    requires frames > 0 && frames + c > 0 && c <= 0
  {
    RepeatPoint(-c, SliceSize(frames, c), j)
  }

  /** Repeating is an order-preserving edit: output frames advance through the
      source one frame at a time, from its first frame to its last, except at the
      repeat points, where they stay. */
  lemma RepeatEdit(frames: nat, c: int, j: nat)
    requires frames > 0 && frames + c > 0 && c <= 0 && 0 < j < frames
    ensures Source(frames, c, 0) == 0
    ensures Source(frames, c, j) == Source(frames, c, j - 1) + if Repeats(frames, c, j) then 0 else 1
    ensures Source(frames, c, frames - 1) == frames + c - 1
  {
    var s := SliceSize(frames, c);
    RepeatStep(-c, s, j);
    RepeatInSlice(-c, s, 0, 0);
    assert (-c + 1) * s == -c * s + s;
    RepeatInSlice(-c, s, frames - 1, -c);
  }

  /** Every repeated frame is heard just twice unless slices are one frame long and
      at least two frames are repeated; then the first frame is heard three times. */
  lemma RepeatedOnceEach(frames: nat, c: int)
    requires frames > 0 && frames + c > 0 && c < 0
    ensures (exists j: nat :: HeardThrice(frames, c, j)) <==> SliceSize(frames, c) == 1 && -c >= 2
  {
    var s := SliceSize(frames, c);
    if s == 1 && -c >= 2 {
      assert RepeatSource(-c, 1, 0) == RepeatSource(-c, 1, 2);
      assert HeardThrice(frames, c, 0);
    }
    if exists j: nat :: HeardThrice(frames, c, j) {
      var j: nat :| HeardThrice(frames, c, j);
      ThriceMeansUnitSlices(-c, s, j);
    }
  }

  predicate HeardThrice(frames: nat, c: int, j: nat)
    requires frames > 0 && frames + c > 0
  {
    j + 2 < frames && Source(frames, c, j) == Source(frames, c, j + 2)
  }

  lemma ThriceMeansUnitSlices(k: nat, s: nat, j: nat)
    requires s > 0 && RepeatSource(k, s, j) == RepeatSource(k, s, j + 2)
    ensures s == 1 && k >= 2
  {
    RepeatStep(k, s, j + 1);
    RepeatStep(k, s, j + 2);
    QuotientStep(j + 2, s);
    DivBounds(j + 1, s);
    var q := (j + 1) / s;
    assert (q + 1) * s == q * s + s;
    assert j + 1 == q * s && j + 2 == (q + 1) * s;
  }

  /** Where every output frame comes from, in numbers: slices are as long as an even
      split into |c| + 1 allows, and every slice but the first starts one frame later,
      or one earlier, in the source than where the one before it ended. */
  lemma SourceExactly(frames: nat, c: int, j: nat)
    requires frames > 0 && frames + c > 0 && j < frames
    ensures c <= 0 ==> Source(frames, c, j) == j - Min(-c, j / (frames / (1 - c)))
    ensures c > 0 ==>
              var kept := (frames + c) / (c + 1) - 1;
              Source(frames, c, j) == j + if kept == 0 then c else Min(c, j / kept)
  {
    if c > 0 {
      var kept := SliceSize(frames, c) - 1;
      if kept > 0 {
        DivBounds(j, kept);
        if j >= c * kept {
          DivMono(c * kept, j, kept);
          DivMultiple(c, kept);
        } else {
          DropShift(c, kept, j);
        }
      }
    }
  }
}
