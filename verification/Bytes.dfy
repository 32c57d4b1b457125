/** Bytes and buffers of bytes. */
module Bytes {
  import opened Arith

  newtype byte = b: int | 0 <= b < 256

  /** `after` is `before` with `bytes` copied into it at `start`. */
  ghost predicate Wrote(before: seq<byte>, start: nat, bytes: seq<byte>, after: seq<byte>) {
    && |after| == |before| && start + |bytes| <= |after|
    && (forall i :: 0 <= i < |after| ==>
          after[i] == if start <= i < start + |bytes| then bytes[i - start] else before[i])
  }

  /** A buffer after resizing, new room being zeroed. */
  function Resize(buf: seq<byte>, n: nat): (r: seq<byte>)
    ensures |r| == n
  {
    if n <= |buf| then buf[..n] else buf + Zeros(n - |buf|)
  }

  function Zeros(n: nat): (r: seq<byte>)
    ensures |r| == n && forall i :: 0 <= i < n ==> r[i] == 0
  {
    seq(n, _ => 0)
  }

  /** The bytes of frame i in a buffer of frames of `size` bytes. */
  function FrameAt(buf: seq<byte>, size: nat, i: nat): (f: seq<byte>)
    requires Times(i, size) + size <= |buf|
    ensures |f| == size
  {
    buf[Times(i, size)..Times(i, size) + size]
  }

  method CopyInto(output: array<byte>, start: nat, bytes: seq<byte>)
    requires start + |bytes| <= output.Length
    modifies output
    ensures Wrote(old(output[..]), start, bytes, output[..])
  {
    forall i | 0 <= i < |bytes| {
      output[start + i] := bytes[i];
    }
  }

  lemma WroteNothing(buf: seq<byte>, start: nat)
    requires start <= |buf|
    ensures Wrote(buf, start, [], buf)
  {
  }

  /** Writing two runs one after the other is writing them as one. */
  lemma WroteTwice(a: seq<byte>, start: nat, x: seq<byte>, b: seq<byte>, y: seq<byte>, c: seq<byte>)
    requires Wrote(a, start, x, b) && Wrote(b, start + |x|, y, c)
    ensures Wrote(a, start, x + y, c)
  {
  }

  lemma WroteInside(before: seq<byte>, start: nat, bytes: seq<byte>, after: seq<byte>, at: nat, n: nat)
    requires Wrote(before, start, bytes, after) && start <= at && at + n <= start + |bytes|
    ensures after[at..at + n] == bytes[at - start..at - start + n]
  {
    assert forall k :: at <= k < at + n ==> after[k] == bytes[k - start];
  }

  lemma WroteOutside(before: seq<byte>, start: nat, bytes: seq<byte>, after: seq<byte>, at: nat, n: nat)
    requires Wrote(before, start, bytes, after) && at + n <= |after|
    requires at + n <= start || start + |bytes| <= at
    ensures after[at..at + n] == before[at..at + n]
  {
    assert forall k :: at <= k < at + n ==> after[k] == before[k];
  }

  /** n frames of src, from frame s on. */
  function Frames(src: seq<byte>, size: nat, s: nat, n: nat): (r: seq<byte>)
    requires Times(s, size) + Times(n, size) <= |src|
    ensures |r| == Times(n, size)
  {
    src[Times(s, size)..Times(s, size) + Times(n, size)]
  }

  lemma FrameOfFrames(src: seq<byte>, size: nat, s: nat, n: nat, k: nat)
    requires Times(s, size) + Times(n, size) <= |src| && k < n
    ensures Times(s + k, size) == Times(s, size) + Times(k, size)
    ensures Times(k, size) + size <= Times(n, size)
    ensures Frames(src, size, s, n)[Times(k, size)..Times(k, size) + size] == FrameAt(src, size, s + k)
  {
    TimesSum(s, k, size);
    FrameFits(k, n, size);
    SliceOfSlice(src, Times(s, size), Times(n, size), Times(k, size), size);
  }

  lemma SliceOfSlice(src: seq<byte>, from: nat, n: nat, at: nat, size: nat)
    requires from + n <= |src| && at + size <= n
    ensures src[from..from + n][at..at + size] == src[from + at..from + at + size]
  {
    var cut, direct := src[from..from + n][at..at + size], src[from + at..from + at + size];
    assert forall i :: 0 <= i < size ==> cut[i] == direct[i];
  }

  /** After n frames of src, from frame s on, were copied to frame d on, frame j is
      the matching frame of src inside the copied run ... */
  lemma FrameInside(before: seq<byte>, src: seq<byte>, after: seq<byte>, size: nat, d: nat, s: nat, n: nat, j: nat)
    requires Times(s, size) + Times(n, size) <= |src| && d <= j < d + n
    requires Wrote(before, Times(d, size), Frames(src, size, s, n), after)
    ensures Times(j, size) + size <= |after| && Times(s + j - d, size) + size <= |src|
    ensures FrameAt(after, size, j) == FrameAt(src, size, s + j - d)
  {
    FrameOfFrames(src, size, s, n, j - d);
    TimesSum(d, j - d, size);
    WroteInside(before, Times(d, size), Frames(src, size, s, n), after, Times(j, size), size);
  }

  /** ... and is untouched outside it. */
  lemma FrameOutside(before: seq<byte>, bytes: seq<byte>, after: seq<byte>, size: nat, d: nat, n: nat, j: nat)
    requires |bytes| == Times(n, size) && (j < d || d + n <= j)
    requires Wrote(before, Times(d, size), bytes, after)
    requires Times(j, size) + size <= |after|
    ensures FrameAt(after, size, j) == FrameAt(before, size, j)
  {
    FrameApart(d, n, j, size);
    WroteOutside(before, Times(d, size), bytes, after, Times(j, size), size);
  }

  lemma FrameApart(d: nat, n: nat, j: nat, size: nat)
    requires j < d || d + n <= j
    ensures Times(j, size) + size <= Times(d, size) || Times(d, size) + Times(n, size) <= Times(j, size)
  {
    if j < d {
      FrameFits(j, d, size);
    } else {
      TimesMono(d + n, j, size);
      TimesSum(d, n, size);
    }
  }

  /** A frame index below n fits a buffer of n frames. */
  lemma FrameFits(i: nat, n: nat, size: nat)
    requires i < n
    ensures Times(i, size) + size <= Times(n, size)
  {
    TimesMono(i + 1, n, size);
  }

  // ----- Suffixes -----

  /** `tail` is the last part of `all`. */
  predicate IsSuffix(tail: seq<byte>, all: seq<byte>) {
    |tail| <= |all| && all[|all| - |tail|..] == tail
  }

  lemma SuffixSplits(tail: seq<byte>, all: seq<byte>)
    requires IsSuffix(tail, all)
    ensures all == all[..|all| - |tail|] + tail
  {
  }

  lemma SuffixOfAppend(a: seq<byte>, b: seq<byte>, tail: seq<byte>)
    requires IsSuffix(tail, b)
    ensures IsSuffix(tail, a + b)
  {
    assert (a + b)[|a + b| - |tail|..] == b[|b| - |tail|..];
  }

  lemma SuffixWithTail(a: seq<byte>, tail: seq<byte>, b: seq<byte>)
    requires IsSuffix(tail, a)
    ensures IsSuffix(tail + b, a + b)
  {
    assert (a + b)[|a| - |tail|..] == a[|a| - |tail|..] + b;
  }
}
