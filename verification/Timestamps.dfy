/** Second/microsecond timestamps (crates/snapcast-proto/src/types.rs) and the
    sample-count clock that stamps chunks (crates/snapcast-server/src/time.rs). */
module Timestamps {
  import opened Arith

  const MILLION := 1_000_000

  predicate FitsI32(x: int) {
    -0x8000_0000 <= x < 0x8000_0000
  }

  /** A 64-bit value cast to 32 bits keeps its low half. */
  function AsI32(x: int): int {
    (x + 0x8000_0000) % 0x1_0000_0000 - 0x8000_0000
  }

  datatype Timeval = Timeval(sec: int, usec: int) {
    static function FromUsec(usec: int): Timeval {
      Timeval(AsI32(TruncDiv(usec, MILLION)), AsI32(TruncMod(usec, MILLION)))
    }

    function ToUsec(): int {
      sec * MILLION + usec
    }

    /** Both fields are 32-bit numbers. */
    predicate Fits() {
      FitsI32(sec) && FitsI32(usec)
    }

    /** Whole seconds in the sum of two microsecond fields. */
    function Carry(rhs: Timeval): int {
      if usec + rhs.usec >= MILLION then (usec + rhs.usec) / MILLION else 0
    }

    /** Seconds to borrow for the difference of two microsecond fields. */
    function Borrow(rhs: Timeval): nat {
      if usec - rhs.usec < 0 then (rhs.usec - usec + MILLION - 1) / MILLION else 0
    }

    /** The sum as the `+` operator computes it: only an overfull microsecond field is
        carried. */
    function Plus(rhs: Timeval): Timeval {
      var u := AsI32(usec + rhs.usec);
      if u >= MILLION then Timeval(AsI32(sec + rhs.sec + u / MILLION), u % MILLION)
      else Timeval(AsI32(sec + rhs.sec), u)
    }

    /** The `+` operator. */
    method Add(rhs: Timeval) returns (r: Timeval)
      requires Fits() && rhs.Fits()
      ensures r == Plus(rhs)
    {
      var s := AsI32(sec + rhs.sec);
      var u := AsI32(usec + rhs.usec);
      if u >= MILLION {
        WrapsAgain(sec + rhs.sec, 0 - TruncDiv(u, MILLION));
        s := AsI32(s + TruncDiv(u, MILLION));
        u := TruncMod(u, MILLION);
      }
      r := Timeval(s, u);
    }

    /** The difference as the `-` operator computes it, borrowing only for a negative
        microsecond field; exact unless a field wraps around. */
    function Minus(rhs: Timeval): Timeval {
      var u := AsI32(usec - rhs.usec);
      var k := if u < 0 then (-u + MILLION - 1) / MILLION else 0;
      Timeval(AsI32(sec - rhs.sec - k), u + k * MILLION)
    }

    /** The `-` operator: seconds are borrowed one at a time. */
    method Sub(rhs: Timeval) returns (r: Timeval)
      requires Fits() && rhs.Fits()
      ensures r == Minus(rhs)
    {
      var s := AsI32(sec - rhs.sec);
      var u := AsI32(usec - rhs.usec);
      ghost var k := 0;
      ghost var u0 := u;
      while u < 0
        invariant u == u0 + k * MILLION && (k > 0 ==> u < MILLION)
        invariant s == AsI32(sec - rhs.sec - k)
        decreases -u
      {
        WrapsAgain(sec - rhs.sec - k, 1);
        s := AsI32(s - 1);
        u := u + MILLION;
        k := k + 1;
      }
      r := Timeval(s, u);
    }
  }

  /** A number cut to 32 bits is the one in range that differs by a multiple of
      4,294,967,296. */
  lemma CutInNumbers(x: int)
    ensures -2_147_483_648 <= AsI32(x) <= 2_147_483_647 && (AsI32(x) - x) % 4_294_967_296 == 0
  {
  }

  /** Overflowing seconds wrap around; the microseconds are those of the exact result. */
  lemma SecondsWrap(a: Timeval, b: Timeval)
    requires a.Fits() && b.Fits()
    ensures FitsI32(a.usec + b.usec) ==>
              && (a.Plus(b).sec - (a.sec + b.sec + a.Carry(b))) % 4_294_967_296 == 0
              && a.Plus(b).usec == a.usec + b.usec - a.Carry(b) * 1_000_000
    ensures FitsI32(a.usec - b.usec) ==>
              && (a.Minus(b).sec - (a.sec - b.sec - a.Borrow(b))) % 4_294_967_296 == 0
              && a.Minus(b).usec == a.usec - b.usec + a.Borrow(b) * 1_000_000
  {
    CutInNumbers(a.sec + b.sec + a.Carry(b));
    CutInNumbers(a.sec - b.sec - a.Borrow(b));
    if FitsI32(a.usec + b.usec) {
      SumIsCut(a, b);
    }
    if FitsI32(a.usec - b.usec) {
      DifferenceIsCut(a, b);
    }
  }

  lemma SumIsCut(a: Timeval, b: Timeval)
    requires FitsI32(a.usec + b.usec)
    ensures a.Plus(b) == Timeval(AsI32(a.sec + b.sec + a.Carry(b)), a.usec + b.usec - a.Carry(b) * MILLION)
  {
    assert AsI32(a.usec + b.usec) == a.usec + b.usec;
  }

  lemma DifferenceIsCut(a: Timeval, b: Timeval)
    requires FitsI32(a.usec - b.usec)
    ensures a.Minus(b) == Timeval(AsI32(a.sec - b.sec - a.Borrow(b)), a.usec - b.usec + a.Borrow(b) * MILLION)
  {
    assert AsI32(a.usec - b.usec) == a.usec - b.usec;
  }

  /** As many seconds are carried or borrowed as bring the microseconds into place, and
      none without need. */
  lemma CarriesInNumbers(a: Timeval, b: Timeval)
    ensures var u := a.usec + b.usec - a.Carry(b) * 1_000_000;
            if a.usec + b.usec < 1_000_000 then a.Carry(b) == 0 else 0 <= u < 1_000_000
    ensures var u := a.usec - b.usec + a.Borrow(b) * 1_000_000;
            if a.usec - b.usec >= 0 then a.Borrow(b) == 0 else 0 <= u < 1_000_000
  {
  }

  lemma WrapsAgain(x: int, d: int)
    ensures AsI32(AsI32(x) - d) == AsI32(x - d)
  {
  }

  /** A sum is exact exactly when no field overflows; its microsecond field is below
      one million, and not negative if the others were not. */
  lemma PlusIsExact(a: Timeval, b: Timeval)
    requires a.Fits() && b.Fits()
    ensures a.Plus(b).usec < MILLION
    ensures a.Plus(b).ToUsec() == a.ToUsec() + b.ToUsec()
       <==> FitsI32(a.usec + b.usec) && FitsI32(a.sec + b.sec + a.Carry(b))
    ensures 0 <= a.usec < MILLION && 0 <= b.usec < MILLION ==> 0 <= a.Plus(b).usec
  {
  }

  /** A difference is exact exactly when no field overflows; its microsecond field is
      never negative, and below one million if anything was borrowed. */
  lemma MinusIsExact(a: Timeval, b: Timeval)
    requires a.Fits() && b.Fits()
    ensures 0 <= a.Minus(b).usec
    ensures a.Minus(b).ToUsec() == a.ToUsec() - b.ToUsec()
       <==> FitsI32(a.usec - b.usec) && FitsI32(a.sec - b.sec - a.Borrow(b))
    ensures a.usec < b.usec && FitsI32(a.usec - b.usec) ==> a.Minus(b).usec < MILLION
  {
  }

  /** Clock readings that are not negative and fit the wire have exact differences. */
  lemma ReadingsSubtract(a: int, b: int)
    requires 0 <= a && 0 <= b && FitsI32(TruncDiv(a, MILLION)) && FitsI32(TruncDiv(b, MILLION))
    ensures Timeval.FromUsec(a).Fits() && Timeval.FromUsec(b).Fits()
    ensures Timeval.FromUsec(a).Minus(Timeval.FromUsec(b)).ToUsec() == a - b
  {
    UsecRoundTrip(a);
    UsecRoundTrip(b);
    MinusIsExact(Timeval.FromUsec(a), Timeval.FromUsec(b));
  }

  /** Converting microseconds to a timestamp and back is the identity exactly as
      long as the whole seconds fit 32 bits. */
  lemma UsecRoundTrip(usec: int)
    ensures Timeval.FromUsec(usec).ToUsec() == usec <==> FitsI32(TruncDiv(usec, MILLION))
  {
    var q := TruncDiv(usec, MILLION);
    var m := TruncMod(usec, MILLION);
    assert usec == q * MILLION + m && -MILLION < m < MILLION;
    assert AsI32(m) == m;
    assert FitsI32(AsI32(q));
    if FitsI32(q) {
      assert AsI32(q) == q;
    }
  }

  /** A timestamp in numbers: seconds and microseconds, split toward zero. */
  lemma TimevalInNumbers(tv: Timeval, usec: int)
    ensures tv.ToUsec() == tv.sec * 1_000_000 + tv.usec
    ensures FitsI32(TruncDiv(usec, 1_000_000)) ==>
              var split := Timeval.FromUsec(usec);
              && split.sec * 1_000_000 + split.usec == usec && -1_000_000 < split.usec < 1_000_000
              && (split.usec > 0 ==> usec > 0) && (split.usec < 0 ==> usec < 0)
    ensures FitsI32(usec) <==> -2_147_483_648 <= usec <= 2_147_483_647
  {
    UsecRoundTrip(usec);
  }

  /** Two normalised timestamps with the same microsecond count are equal. */
  lemma ToUsecInjective(a: Timeval, b: Timeval)
    requires 0 <= a.usec < MILLION && 0 <= b.usec < MILLION
    requires a.ToUsec() == b.ToUsec()
    ensures a == b
  {
  }

  // ----- Stamping chunks by sample count -----

  /** The server's time for the frame with this absolute index. */
  function FrameTime(startUsec: int, rate: nat, frameIndex: nat): int
    requires rate > 0
  {
    startUsec + frameIndex * MILLION / rate
  }

  /** The server's time in numbers: frame 0 comes at the start, and so many frames later
      as many microseconds as they last, rounded down. */
  lemma FrameTimeInNumbers(startUsec: int, rate: nat, frameIndex: nat)
    requires rate > 0
    ensures var later := FrameTime(startUsec, rate, frameIndex) - startUsec;
            rate * later <= frameIndex * 1_000_000 < rate * (later + 1)
    ensures FrameTime(startUsec, rate, 0) == startUsec
  {
    DivBounds(frameIndex * 1_000_000, rate);
    DivUnique(0, rate, 0);
  }

  class ChunkTimestamper {
    var startUsec: int
    var samplesWritten: nat
    const rate: nat

    constructor (rate: nat, now: int)
      ensures this.rate == rate && startUsec == now && samplesWritten == 0
    {
      this.rate := rate;
      startUsec := now;
      samplesWritten := 0;
    }

    method Next(frames: nat) returns (ts: int)
      requires rate > 0
      modifies this`samplesWritten
      ensures ts == FrameTime(startUsec, rate, old(samplesWritten))
      ensures samplesWritten == old(samplesWritten) + frames
    {
      ts := startUsec + TruncDiv(samplesWritten * MILLION, rate);
      samplesWritten := samplesWritten + frames;
    }

    method Reset(now: int)
      modifies this`startUsec, this`samplesWritten
      ensures startUsec == now && samplesWritten == 0
    {
      startUsec := now;
      samplesWritten := 0;
    }
  }

  function Total(sizes: seq<nat>): nat {
    if sizes == [] then 0 else Total(sizes[..|sizes| - 1]) + sizes[|sizes| - 1]
  }

  /** The stamps of consecutive chunks of the given sizes. */
  function Stamps(startUsec: int, rate: nat, sizes: seq<nat>): (s: seq<int>)
    requires rate > 0
    ensures |s| == |sizes|
  {
    if sizes == [] then []
    else
      var before := sizes[..|sizes| - 1];
      Stamps(startUsec, rate, before) + [FrameTime(startUsec, rate, Total(before))]
  }

  /** Stamping is what repeated calls of Next produce. */
  method StampAll(now: int, rate: nat, sizes: seq<nat>) returns (stamps: seq<int>)
    requires rate > 0
    ensures stamps == Stamps(now, rate, sizes)
  {
    var stamper := new ChunkTimestamper(rate, now);
    stamps := [];
    for i := 0 to |sizes|
      invariant stamper.startUsec == now && stamper.rate == rate
      invariant stamper.samplesWritten == Total(sizes[..i])
      invariant stamps == Stamps(now, rate, sizes[..i])
    {
      var ts := stamper.Next(sizes[i]);
      stamps := stamps + [ts];
      assert sizes[..i + 1][..i] == sizes[..i];
    }
    assert sizes[..|sizes|] == sizes;
  }

  /** The time a player gives to the frame at `cursor` of a received chunk: the
      chunk's stamp as carried on the wire, plus the duration of the cursor. */
  function PlayedFrameTime(stamp: Timeval, cursor: nat, rate: nat): int
    requires rate > 0
  {
    stamp.ToUsec() + cursor * MILLION / rate
  }

  lemma {:induction false} StampAt(startUsec: int, rate: nat, sizes: seq<nat>, j: nat)
    requires rate > 0 && j < |sizes|
    ensures Stamps(startUsec, rate, sizes)[j] == FrameTime(startUsec, rate, Total(sizes[..j]))
  {
    if j < |sizes| - 1 {
      StampAt(startUsec, rate, sizes[..|sizes| - 1], j);
      assert sizes[..|sizes| - 1][..j] == sizes[..j];
    }
  }

  /** No drift accumulates: however the audio was cut into chunks, the time given
      to any frame from its chunk's stamp is the server's time for that frame's
      absolute index, or one microsecond before it. */
  lemma FrameTimeEndToEnd(startUsec: int, rate: nat, sizes: seq<nat>, j: nat, cursor: nat)
    requires rate > 0 && j < |sizes| && cursor <= sizes[j]
    requires FitsI32(TruncDiv(FrameTime(startUsec, rate, Total(sizes[..j])), MILLION))
    ensures var played := PlayedFrameTime(Timeval.FromUsec(Stamps(startUsec, rate, sizes)[j]), cursor, rate);
            var exact := FrameTime(startUsec, rate, Total(sizes[..j]) + cursor);
            exact - 1 <= played <= exact
  {
    StampAt(startUsec, rate, sizes, j);
    UsecRoundTrip(Stamps(startUsec, rate, sizes)[j]);
    SumOfFloors(Total(sizes[..j]) * MILLION, cursor * MILLION, rate);
  }

  lemma SumOfFloors(a: nat, b: nat, d: nat)
    requires d > 0
    ensures (a + b) / d - 1 <= a / d + b / d <= (a + b) / d
  {
    DivBounds(a, d);
    DivBounds(b, d);
    MulDistrib(a / d, b / d, d);
    MulDistrib(a / d + b / d, 1, d);
    MulDistrib(a / d + b / d, 2, d);
    MulDistrib(a / d, 1, d);
    MulDistrib(b / d, 1, d);
    var q := a / d + b / d;
    if a + b < (q + 1) * d {
      DivUnique(a + b, d, q);
    } else {
      MulDistrib(q + 1, 1, d);
      DivUnique(a + b, d, q + 1);
    }
  }
}
