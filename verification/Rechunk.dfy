/** Cutting a stream of samples into fixed blocks, however it arrives. */
module Rechunk {

  /** The full blocks of n samples at the front of s. */
  function Blocks<T>(s: seq<T>, n: nat): (r: seq<seq<T>>)
    requires n > 0
    ensures forall b :: b in r ==> |b| == n
  {
    if |s| < n then [] else [s[..n]] + Blocks(s[n..], n)
  }

  /** What the full blocks leave over. */
  function Leftover<T>(s: seq<T>, n: nat): (r: seq<T>)
    requires n > 0
    ensures |r| < n
  {
    if |s| < n then s else Leftover(s[n..], n)
  }

  function Flatten<T>(pieces: seq<seq<T>>): seq<T> {
    if pieces == [] then [] else pieces[0] + Flatten(pieces[1..])
  }

  /** Cutting loses nothing and keeps the order. */
  lemma {:induction false} BlocksLoseNothing<T>(s: seq<T>, n: nat)
    requires n > 0
    ensures Flatten(Blocks(s, n)) + Leftover(s, n) == s
  {
    if |s| >= n {
      BlocksLoseNothing(s[n..], n);
      var rest := Blocks(s[n..], n);
      assert ([s[..n]] + rest)[1..] == rest;
      assert s == s[..n] + s[n..];
    }
  }

  lemma BlockBounds(n: nat, k: nat)
    requires k > 0
    ensures k * n == (k - 1) * n + n && (k + 1) * n == k * n + n
  {
  }

  lemma SliceOfRest<T>(s: seq<T>, n: nat, i: nat, j: nat)
    requires i <= j && n + j <= |s|
    ensures s[n..][i..j] == s[n + i..n + j]
  {
  }

  /** The k-th block is the k-th stretch of n samples. */
  lemma {:induction false} BlockAt<T>(s: seq<T>, n: nat, k: nat)
    requires n > 0 && k < |Blocks(s, n)|
    ensures (k + 1) * n <= |s| && Blocks(s, n)[k] == s[k * n..(k + 1) * n]
    decreases k
  {
    if k > 0 {
      BlockAt(s[n..], n, k - 1);
      BlockBounds(n, k);
      SliceOfRest(s, n, (k - 1) * n, k * n);
    }
  }

  lemma Associate<T>(a: seq<T>, b: seq<T>, c: seq<T>)
    ensures a + (b + c) == (a + b) + c
  {
  }

  lemma FirstBlock<T>(a: seq<T>, b: seq<T>, n: nat)
    requires n > 0 && |a| >= n
    ensures Blocks(a + b, n) == [a[..n]] + Blocks(a[n..] + b, n)
    ensures Leftover(a + b, n) == Leftover(a[n..] + b, n)
  {
    assert (a + b)[..n] == a[..n] && (a + b)[n..] == a[n..] + b;
  }

  /** Cutting in two goes gives the blocks of cutting once. */
  lemma {:induction false} BlocksAppend<T>(a: seq<T>, b: seq<T>, n: nat)
    requires n > 0
    ensures Blocks(a + b, n) == Blocks(a, n) + Blocks(Leftover(a, n) + b, n)
    ensures Leftover(a + b, n) == Leftover(Leftover(a, n) + b, n)
    decreases |a|
  {
    if |a| >= n {
      FirstBlock(a, b, n);
      BlocksAppend(a[n..], b, n);
      Associate([a[..n]], Blocks(a[n..], n), Blocks(Leftover(a[n..], n) + b, n));
    } else {
      assert [] + Blocks(a + b, n) == Blocks(a + b, n);
    }
  }

  /** Part of the way through cutting: what has come out, what is still to be cut. */
  ghost predicate Cutting<T>(whole: seq<T>, done: seq<seq<T>>, rest: seq<T>, n: nat)
    requires n > 0
  {
    Blocks(whole, n) == done + Blocks(rest, n) && Leftover(whole, n) == Leftover(rest, n)
  }

  lemma CutNext<T>(whole: seq<T>, done: seq<seq<T>>, rest: seq<T>, n: nat)
    requires n > 0 && |rest| >= n && Cutting(whole, done, rest, n)
    ensures Cutting(whole, done + [rest[..n]], rest[n..], n)
  {
    assert done + ([rest[..n]] + Blocks(rest[n..], n)) == done + [rest[..n]] + Blocks(rest[n..], n);
  }

  lemma CutUp<T>(whole: seq<T>, done: seq<seq<T>>, rest: seq<T>, n: nat)
    requires n > 0 && |rest| < n && Cutting(whole, done, rest, n)
    ensures done == Blocks(whole, n) && rest == Leftover(whole, n)
  {
    assert done + [] == done;
  }

  /** More input part of the way through only adds to what is still to be cut. */
  lemma CuttingGrows<T>(whole: seq<T>, done: seq<seq<T>>, rest: seq<T>, n: nat, more: seq<T>)
    requires n > 0 && Cutting(whole, done, rest, n)
    ensures Cutting(whole + more, done, rest + more, n)
  {
    BlocksAppend(whole, more, n);
    BlocksAppend(rest, more, n);
    Associate(done, Blocks(rest, n), Blocks(Leftover(rest, n) + more, n));
  }

  /** Cutting the rest goes on with cutting the whole. */
  lemma CuttingJoins<T>(whole: seq<T>, done: seq<seq<T>>, rest: seq<T>, more: seq<seq<T>>, last: seq<T>, n: nat)
    requires n > 0 && Cutting(whole, done, rest, n) && Cutting(rest, more, last, n)
    ensures Cutting(whole, done + more, last, n)
  {
    Associate(done, more, Blocks(last, n));
  }

  lemma {:induction false} FlattenAppend<T>(a: seq<seq<T>>, b: seq<seq<T>>)
    ensures Flatten(a + b) == Flatten(a) + Flatten(b)
  {
    if a == [] {
      assert a + b == b;
    } else {
      assert (a + b)[1..] == a[1..] + b;
      FlattenAppend(a[1..], b);
      Associate(a[0], Flatten(a[1..]), Flatten(b));
    }
  }

  /** Part of the way through, what has come out and what is left make up the input. */
  lemma CuttingLosesNothing<T>(whole: seq<T>, done: seq<seq<T>>, rest: seq<T>, n: nat)
    requires n > 0 && Cutting(whole, done, rest, n)
    ensures Flatten(done) + rest == whole
    ensures forall b :: b in done ==> |b| == n
  {
    BlocksLoseNothing(whole, n);
    BlocksLoseNothing(rest, n);
    FlattenAppend(done, Blocks(rest, n));
    Associate(Flatten(done), Flatten(Blocks(rest, n)), Leftover(rest, n));
    assert forall b :: b in done ==> b in done + Blocks(rest, n);
  }

  /** An accumulator fed piece by piece: the blocks it lets out, in order. */
  function Emitted<T>(pieces: seq<seq<T>>, n: nat): seq<seq<T>>
    requires n > 0
  {
    if pieces == [] then []
    else
      var earlier := pieces[..|pieces| - 1];
      Emitted(earlier, n) + Blocks(Held(earlier, n) + pieces[|pieces| - 1], n)
  }

  /** What it still holds. */
  function Held<T>(pieces: seq<seq<T>>, n: nat): (r: seq<T>)
    requires n > 0
    ensures |r| < n
  {
    if pieces == [] then []
    else Leftover(Held(pieces[..|pieces| - 1], n) + pieces[|pieces| - 1], n)
  }

  lemma {:induction false} FlattenSnoc<T>(pieces: seq<seq<T>>, last: seq<T>)
    ensures Flatten(pieces + [last]) == Flatten(pieces) + last
  {
    if pieces == [] {
      assert pieces + [last] == [last] && [last][1..] == [];
    } else {
      assert (pieces + [last])[1..] == pieces[1..] + [last];
      FlattenSnoc(pieces[1..], last);
    }
  }

  /** However the samples are split into pieces, the blocks are those of the whole. */
  lemma {:induction false} SplitIndependence<T>(pieces: seq<seq<T>>, n: nat)
    requires n > 0
    ensures Emitted(pieces, n) == Blocks(Flatten(pieces), n)
    ensures Held(pieces, n) == Leftover(Flatten(pieces), n)
    decreases |pieces|
  {
    if pieces != [] {
      var earlier, last := pieces[..|pieces| - 1], pieces[|pieces| - 1];
      SplitIndependence(earlier, n);
      BlocksAppend(Flatten(earlier), last, n);
      FlattenSnoc(earlier, last);
      assert earlier + [last] == pieces;
    }
  }

  /** The same samples in two different splits: the same blocks, the same rest. */
  lemma SameSamplesSameBlocks<T>(a: seq<seq<T>>, b: seq<seq<T>>, n: nat)
    requires n > 0 && Flatten(a) == Flatten(b)
    ensures Emitted(a, n) == Emitted(b, n) && Held(a, n) == Held(b, n)
  {
    SplitIndependence(a, n);
    SplitIndependence(b, n);
  }
}

/** The sender that turns float samples into 20 ms chunks
    (crates/snapcast-server/src/lib.rs). */
module AudioSenders {
  import opened Arith
  import opened Rechunk
  import opened Timestamps
  import opened Wrappers

  type Sample = real

  datatype AudioFrame = AudioFrame(data: seq<Sample>, timestampUsec: int)

  /** 20 ms worth of samples. */
  function ChunkSamples(rate: nat, channels: nat): nat {
    Times(rate * 20 / 1000, channels)
  }

  /** Below 50 Hz, or without channels, a chunk would be empty. */
  lemma ChunkIsPositive(rate: nat, channels: nat)
    ensures ChunkSamples(rate, channels) > 0 <==> rate >= 50 && channels >= 1
  {
    assert rate * 20 / 1000 >= 1 <==> rate >= 50;
    TimesIsProduct(rate * 20 / 1000, channels);
    if rate >= 50 && channels >= 1 {
      MulMono(1, rate * 20 / 1000, channels);
    }
  }

  /** One round of the loop that drains full chunks of n samples: what is held after
      it, or nothing once the loop has ended. */
  function DrainRound(held: Option<seq<Sample>>, n: nat): Option<seq<Sample>> {
    if held == None || |held.value| < n then None else Some(held.value[n..])
  }

  function DrainRounds(held: Option<seq<Sample>>, n: nat, k: nat): Option<seq<Sample>>
    decreases k
  {
    if k == 0 then held else DrainRounds(DrainRound(held, n), n, k - 1)
  }

  lemma {:induction false} EmptyChunksForEver(held: seq<Sample>, k: nat)
    ensures DrainRounds(Some(held), 0, k) == Some(held)
  {
    if k > 0 {
      assert held[0..] == held;
      EmptyChunksForEver(held, k - 1);
    }
  }

  lemma {:induction false} DrainEnds(held: seq<Sample>, n: nat) returns (k: nat)
    requires n > 0
    ensures DrainRounds(Some(held), n, k) == None
    decreases |held|
  {
    if |held| < n {
      k := 1;
      assert DrainRounds(Some(held), n, 1) == DrainRounds(None, n, 0);
    } else {
      var k' := DrainEnds(held[n..], n);
      k := k' + 1;
    }
  }

  /** The sender's loop ends, whatever it holds, exactly from 50 Hz and one channel on. */
  lemma DrainEndsExactly(held: seq<Sample>, rate: nat, channels: nat)
    ensures (exists k :: DrainRounds(Some(held), ChunkSamples(rate, channels), k) == None)
       <==> rate >= 50 && channels >= 1
  {
    ChunkIsPositive(rate, channels);
    if ChunkSamples(rate, channels) > 0 {
      var k := DrainEnds(held, ChunkSamples(rate, channels));
    } else {
      forall k
        ensures DrainRounds(Some(held), 0, k) == Some(held)
      {
        EmptyChunksForEver(held, k);
      }
    }
  }

  /** Frames in a chunk of samples. */
  function FramesIn(samples: nat, channels: nat): nat {
    Quot(samples, Max(channels, 1))
  }

  lemma ChunkFrames(rate: nat, channels: nat)
    requires channels >= 1
    ensures FramesIn(ChunkSamples(rate, channels), channels) == rate / 50
  {
    TimesIsProduct(rate * 20 / 1000, channels);
    QuotRem(ChunkSamples(rate, channels), channels);
    DivMultiple(rate * 20 / 1000, channels);
    assert rate * 20 / 1000 == rate / 50;
  }

  /** A chunk is a fiftieth of a second of every channel; so many samples are a frame for
      every channel, of which there is at least one. */
  lemma ChunkInNumbers(rate: nat, channels: nat, samples: nat)
    ensures ChunkSamples(rate, channels) == (rate / 50) * channels
    ensures FramesIn(samples, channels) == samples / (if channels == 0 then 1 else channels)
  {
    TimesIsProduct(rate * 20 / 1000, channels);
    assert rate * 20 / 1000 == rate / 50;
    QuotRem(samples, Max(channels, 1));
  }

  /** The stamp of a frame, with the division by the rate out of the prover's sight. */
  function TimeOf(startUsec: int, rate: nat, frames: nat): int
    requires rate > 0
  {
    startUsec + Quot(frames * MILLION, rate)
  }

  lemma TimeOfIsFrameTime(startUsec: int, rate: nat, frames: nat)
    requires rate > 0
    ensures TimeOf(startUsec, rate, frames) == FrameTime(startUsec, rate, frames)
  {
    QuotRem(frames * MILLION, rate);
  }

  /** Consecutive blocks of equal duration with their stamps: `first` frames have
      gone before, each block lasts `per` frames. */
  function Stamp(blocks: seq<seq<Sample>>, startUsec: int, rate: nat, first: nat, per: nat): (r: seq<AudioFrame>)
    requires rate > 0
    ensures |r| == |blocks|
  {
    if blocks == [] then []
    else
      var earlier := blocks[..|blocks| - 1];
      Stamp(earlier, startUsec, rate, first, per)
        + [AudioFrame(blocks[|blocks| - 1], TimeOf(startUsec, rate, first + Times(|earlier|, per)))]
  }

  lemma {:induction false} StampedAt(blocks: seq<seq<Sample>>, startUsec: int, rate: nat, first: nat, per: nat, k: nat)
    requires rate > 0 && k < |blocks|
    ensures Stamp(blocks, startUsec, rate, first, per)[k]
      == AudioFrame(blocks[k], FrameTime(startUsec, rate, first + k * per))
  {
    TimesIsProduct(k, per);
    TimeOfIsFrameTime(startUsec, rate, first + k * per);
    if k < |blocks| - 1 {
      StampedAt(blocks[..|blocks| - 1], startUsec, rate, first, per, k);
    }
  }

  lemma StampSnoc(blocks: seq<seq<Sample>>, b: seq<Sample>, startUsec: int, rate: nat, first: nat, per: nat)
    requires rate > 0
    ensures Stamp(blocks + [b], startUsec, rate, first, per)
      == Stamp(blocks, startUsec, rate, first, per)
       + [AudioFrame(b, TimeOf(startUsec, rate, first + Times(|blocks|, per)))]
    ensures Times(|blocks + [b]|, per) == Times(|blocks|, per) + per
  {
    assert (blocks + [b])[..|blocks|] == blocks;
  }

  datatype Clock = Clock(startUsec: int, rate: nat, first: nat, per: nat)

  /** Exactly these blocks have been sent since, stamped by this clock. */
  ghost predicate Delivered(sent: seq<AudioFrame>, before: seq<AudioFrame>, done: seq<seq<Sample>>, clock: Clock) {
    clock.rate > 0 && sent == before + Stamp(done, clock.startUsec, clock.rate, clock.first, clock.per)
  }

  lemma DeliveredNext(sent: seq<AudioFrame>, before: seq<AudioFrame>, done: seq<seq<Sample>>, clock: Clock,
                      chunk: seq<Sample>)
    requires Delivered(sent, before, done, clock)
    ensures var stamp := TimeOf(clock.startUsec, clock.rate, clock.first + Times(|done|, clock.per));
            Delivered(sent + [AudioFrame(chunk, stamp)], before, done + [chunk], clock)
    ensures Times(|done + [chunk]|, clock.per) == Times(|done|, clock.per) + clock.per
  {
    StampSnoc(done, chunk, clock.startUsec, clock.rate, clock.first, clock.per);
  }

  /** What the loop of the sender achieves per round. */
  lemma OneBlockOut(whole: seq<Sample>, done: seq<seq<Sample>>, held: seq<Sample>, n: nat,
                    sent: seq<AudioFrame>, before: seq<AudioFrame>, clock: Clock)
    requires n > 0 && |held| >= n && Cutting(whole, done, held, n) && Delivered(sent, before, done, clock)
    ensures var chunk := held[..n];
            var stamp := TimeOf(clock.startUsec, clock.rate, clock.first + Times(|done|, clock.per));
            && Cutting(whole, done + [chunk], held[n..], n)
            && Delivered(sent + [AudioFrame(chunk, stamp)], before, done + [chunk], clock)
            && Times(|done + [chunk]|, clock.per) == Times(|done|, clock.per) + clock.per
  {
    CutNext(whole, done, held, n);
    DeliveredNext(sent, before, done, clock, held[..n]);
  }

  lemma {:induction false} StampAppend(a: seq<seq<Sample>>, b: seq<seq<Sample>>, startUsec: int, rate: nat,
                                       first: nat, per: nat)
    requires rate > 0
    ensures Stamp(a + b, startUsec, rate, first, per)
      == Stamp(a, startUsec, rate, first, per) + Stamp(b, startUsec, rate, first + Times(|a|, per), per)
    ensures Times(|a + b|, per) == Times(|a|, per) + Times(|b|, per)
    decreases |b|
  {
    TimesSum(|a|, |b|, per);
    if b == [] {
      assert a + b == a;
    } else {
      var n := |b| - 1;
      StampAppend(a, b[..n], startUsec, rate, first, per);
      assert (a + b)[..|a + b| - 1] == a + b[..n];
    }
  }

  /** Blocks sent under a clock, followed by more of them. */
  lemma DeliveredMore(sent: seq<AudioFrame>, before: seq<AudioFrame>, a: seq<seq<Sample>>, b: seq<seq<Sample>>,
                      clock: Clock)
    requires Delivered(sent, before, a, clock)
    ensures var count := clock.first + Times(|a|, clock.per);
            Delivered(sent + Stamp(b, clock.startUsec, clock.rate, count, clock.per), before, a + b, clock)
    ensures Times(|a + b|, clock.per) == Times(|a|, clock.per) + Times(|b|, clock.per)
  {
    StampAppend(a, b, clock.startUsec, clock.rate, clock.first, clock.per);
  }

  /** Everything taken in has gone out in blocks, but for what is held. */
  ghost predicate Progress(whole: seq<Sample>, n: nat, held: seq<Sample>,
                           sent: seq<AudioFrame>, before: seq<AudioFrame>, clock: Clock)
  {
    && n > 0 && held == Leftover(whole, n)
    && Delivered(sent, before, Blocks(whole, n), clock)
  }

  ghost function CountAfter(whole: seq<Sample>, n: nat, clock: Clock): nat
    requires n > 0
  {
    clock.first + Times(|Blocks(whole, n)|, clock.per)
  }

  lemma ProgressNext(whole: seq<Sample>, piece: seq<Sample>, n: nat, held: seq<Sample>,
                     sent: seq<AudioFrame>, before: seq<AudioFrame>, clock: Clock)
    requires Progress(whole, n, held, sent, before, clock)
    ensures var blocks := Blocks(held + piece, n);
            var count := CountAfter(whole, n, clock);
            && Progress(whole + piece, n, Leftover(held + piece, n),
                        sent + Stamp(blocks, clock.startUsec, clock.rate, count, clock.per), before, clock)
            && CountAfter(whole + piece, n, clock) == count + Times(|blocks|, clock.per)
  {
    BlocksAppend(whole, piece, n);
    DeliveredMore(sent, before, Blocks(whole, n), Blocks(held + piece, n), clock);
  }

  lemma NoBlockYet(whole: seq<Sample>, piece: seq<Sample>, n: nat)
    requires n > 0
    ensures Blocks(whole + piece, n) == [] <==> Blocks(whole, n) == [] && Blocks(Leftover(whole, n) + piece, n) == []
  {
    BlocksAppend(whole, piece, n);
  }

  /** Before the first block goes out the anchor does not matter. */
  lemma AnchorIsFree(whole: seq<Sample>, n: nat, held: seq<Sample>,
                     sent: seq<AudioFrame>, before: seq<AudioFrame>, clock: Clock, startUsec: int)
    requires Progress(whole, n, held, sent, before, clock) && Blocks(whole, n) == []
    ensures Progress(whole, n, held, sent, before, clock.(startUsec := startUsec))
  {
  }

  lemma NextPiece(held: seq<Sample>, pieces: seq<seq<Sample>>, i: nat)
    requires i < |pieces|
    ensures held + Flatten(pieces[..i + 1]) == (held + Flatten(pieces[..i])) + pieces[i]
  {
    FlattenSnoc(pieces[..i], pieces[i]);
    assert pieces[..i] + [pieces[i]] == pieces[..i + 1];
  }

  class F32AudioSender {
    const rate: nat
    const channels: nat
    const chunkSamples: nat
    var buf: seq<Sample>
    var ts: ChunkTimestamper?
    /** Everything handed to the channel so far. */
    var sent: seq<AudioFrame>

    ghost predicate Valid()
      reads this, ts
    {
      && rate >= 50 && channels >= 1
      && chunkSamples == ChunkSamples(rate, channels) > 0
      && |buf| < chunkSamples
      && (ts != null ==> ts.rate == rate)
    }

    constructor (rate: nat, channels: nat)
      requires rate >= 50 && channels >= 1
      ensures Valid() && buf == [] && ts == null && sent == []
      ensures this.rate == rate && this.channels == channels
    {
      ChunkIsPositive(rate, channels);
      this.rate, this.channels := rate, channels;
      chunkSamples := ChunkSamples(rate, channels);
      buf, ts, sent := [], null, [];
    }

    /** Frames stamped since the clock was last anchored. */
    ghost function Count(): nat
      reads this, ts
    {
      if ts == null then 0 else ts.samplesWritten
    }

    /** The anchor, or what it would become now. */
    ghost function Start(now: int): int
      reads this, ts
    {
      if ts == null then now else ts.startUsec
    }

    /** Stamps one chunk and hands it on; the clock is anchored by its first chunk. */
    method Emit(chunk: seq<Sample>, now: int)
      requires rate > 0 && (ts != null ==> ts.rate == rate)
      modifies this`ts, this`sent, ts
      ensures ts != null && ts.rate == rate && (if old(ts) != null then ts == old(ts) else fresh(ts))
      ensures Start(now) == old(Start(now))
      ensures Count() == old(Count()) + FramesIn(|chunk|, channels)
      ensures sent == old(sent) + [AudioFrame(chunk, TimeOf(old(Start(now)), rate, old(Count())))]
    {
      if ts == null {
        ts := new ChunkTimestamper(rate, now);
      }
      TimeOfIsFrameTime(ts.startUsec, rate, ts.samplesWritten);
      var stamp := ts.Next(FramesIn(|chunk|, channels));
      sent := sent + [AudioFrame(chunk, stamp)];
    }

    /** Lets out the first chunk of the buffer. */
    method EmitFull(now: int, ghost per: nat)
      requires rate > 0 && chunkSamples <= |buf| && per == FramesIn(chunkSamples, channels)
      requires ts != null ==> ts.rate == rate
      modifies this`buf, this`ts, this`sent, ts
      ensures ts != null && ts.rate == rate && (if old(ts) != null then ts == old(ts) else fresh(ts))
      ensures buf == old(buf)[chunkSamples..] && Some(buf) == DrainRound(Some(old(buf)), chunkSamples)
      ensures Start(now) == old(Start(now)) && Count() == old(Count()) + per
      ensures sent == old(sent)
        + [AudioFrame(old(buf)[..chunkSamples], TimeOf(old(Start(now)), rate, old(Count())))]
    {
      var chunk := buf[..chunkSamples];
      buf := buf[chunkSamples..];
      Emit(chunk, now);
    }

    /** Lets out every full chunk of the buffer. */
    method Drain(now: int, ghost per: nat)
      requires rate > 0 && chunkSamples > 0 && per == FramesIn(chunkSamples, channels)
      requires ts != null ==> ts.rate == rate
      modifies this`buf, this`ts, this`sent, ts
      ensures ts != null ==> ts.rate == rate
      ensures ts == old(ts) || (old(ts) == null && fresh(ts))
      ensures Start(now) == old(Start(now))
      ensures Count() == old(Count()) + Times(|Blocks(old(buf), chunkSamples)|, per)
      ensures buf == Leftover(old(buf), chunkSamples)
      ensures sent == old(sent)
        + Stamp(Blocks(old(buf), chunkSamples), old(Start(now)), rate, old(Count()), per)
    {
      ghost var whole, before, clock := buf, sent, Clock(Start(now), rate, Count(), per);
      ghost var done: seq<seq<Sample>> := [];
      while |buf| >= chunkSamples
        invariant ts != null ==> ts.rate == rate
        invariant ts == old(ts) || (old(ts) == null && fresh(ts))
        invariant Start(now) == clock.startUsec && Count() == clock.first + Times(|done|, per)
        invariant Cutting(whole, done, buf, chunkSamples)
        invariant Delivered(sent, before, done, clock)
      {
        OneBlockOut(whole, done, buf, chunkSamples, sent, before, clock);
        done := done + [buf[..chunkSamples]];
        EmitFull(now, per);
      }
      CutUp(whole, done, buf, chunkSamples);
    }

    /** Takes samples in. A gap of more than half a second since the last call
        drops what was held and starts a new clock. */
    method Send(samples: seq<Sample>, gap: bool, now: int)
      requires Valid()
      modifies this`buf, this`ts, this`sent, ts
      ensures Valid() && (ts == old(ts) || ts == null || fresh(ts))
      ensures !gap && old(ts) != null ==> ts == old(ts)
      ensures var held := if gap then [] else old(buf);
              var first := if gap then 0 else old(Count());
              var start := if gap then now else old(Start(now));
              var blocks := Blocks(held + samples, chunkSamples);
              && buf == Leftover(held + samples, chunkSamples)
              && sent == old(sent) + Stamp(blocks, start, rate, first, rate / 50)
              && Start(now) == start && Count() == first + Times(|blocks|, rate / 50)
    {
      if gap {
        ts := null;
        buf := [];
      }
      buf := buf + samples;
      ChunkFrames(rate, channels);
      Drain(now, rate / 50);
    }

    /** The state in the middle of a run without gaps. */
    ghost predicate Underway(whole: seq<Sample>, before: seq<AudioFrame>, clock: Clock)
      reads this, ts
    {
      && Valid() && clock.rate == rate && clock.per == rate / 50
      && Progress(whole, chunkSamples, buf, sent, before, clock)
      && Count() == CountAfter(whole, chunkSamples, clock)
      && (if ts != null then clock.startUsec == ts.startUsec else Blocks(whole, chunkSamples) == [])
    }

    method SendOn(piece: seq<Sample>, now: int, ghost whole: seq<Sample>, ghost before: seq<AudioFrame>,
                  ghost clock: Clock) returns (ghost next: Clock)
      requires Underway(whole, before, clock)
      modifies this`buf, this`ts, this`sent, ts
      ensures Underway(whole + piece, before, next)
      ensures if old(ts) != null then ts == old(ts) else ts == null || fresh(ts)
      ensures next == if old(ts) == null then clock.(startUsec := now) else clock
    {
      next := clock;
      if ts == null {
        AnchorIsFree(whole, chunkSamples, buf, sent, before, clock, now);
        next := clock.(startUsec := now);
      }
      ProgressNext(whole, piece, chunkSamples, buf, sent, before, next);
      NoBlockYet(whole, piece, chunkSamples);
      Send(piece, false, now);
    }

    /** A run of calls without a gap: whatever the pieces, what goes out is the
        consecutive blocks of everything taken in, on one clock. */
    method SendPieces(pieces: seq<seq<Sample>>, nows: seq<int>) returns (ghost clock: Clock)
      requires Valid() && |nows| == |pieces|
      modifies this`buf, this`ts, this`sent, ts
      ensures Underway(old(buf) + Flatten(pieces), old(sent), clock)
      ensures clock.first == old(Count()) && (old(ts) != null ==> clock.startUsec == old(ts.startUsec))
    {
      ghost var held, before := buf, sent;
      clock := Clock(Start(0), rate, Count(), rate / 50);
      assert held + Flatten(pieces[..0]) == held;
      for i := 0 to |pieces|
        invariant Underway(held + Flatten(pieces[..i]), before, clock)
        invariant if old(ts) != null then ts == old(ts) else ts == null || fresh(ts)
        invariant clock.first == old(Count()) && (old(ts) != null ==> clock.startUsec == old(ts.startUsec))
      {
        NextPiece(held, pieces, i);
        clock := SendOn(pieces[i], nows[i], held + Flatten(pieces[..i]), before, clock);
      }
      assert pieces[..|pieces|] == pieces;
    }

    /** Lets out what is held as one last short chunk. */
    method Flush(now: int)
      requires Valid()
      modifies this, ts
      ensures Valid() && buf == []
      ensures sent == if old(buf) == [] then old(sent)
                      else old(sent) + [AudioFrame(old(buf), TimeOf(old(Start(now)), rate, old(Count())))]
      ensures Count() == old(Count()) + FramesIn(|old(buf)|, channels)
    {
      if |buf| > 0 {
        var chunk := buf;
        buf := [];
        Emit(chunk, now);
      }
    }
  }
}
