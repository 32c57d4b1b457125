/** The mode machine of the playout stream: when it re-aligns hard, when it bends
    the playback rate, and by how much (crates/snapcast-client/src/stream.rs).
    The audio itself is in module Playout; here only the control state moves. */
module SyncControl {
  import opened Arith
  import opened MedianWindow
  import opened SliceEdit

  const CORRECTION_BEGIN_USEC := 100
  const HARD_SYNC_MEDIAN_USEC := 2000
  const HARD_SYNC_SHORT_MEDIAN_USEC := 5000
  const HARD_SYNC_MINI_MEDIAN_USEC := 50000
  const HARD_SYNC_AGE_USEC := 500_000
  const HARD_SYNC_MIN_AGE_USEC := 500
  const SOFT_SYNC_MIN_USEC := 50
  const MAX_RATE_CORRECTION := 0.0005
  const RATE_CORRECTION_SCALE := 0.00005
  const MINI_BUFFER_SIZE := 20
  const SHORT_BUFFER_SIZE := 100
  const BUFFER_SIZE := 500
  const F64_EPSILON := 0.0000000000000002220446049250313
  /** The largest request for which no cast to a signed 32-bit count wraps. */
  const MAX_REQUEST := 2_146_410_432
  const MIN_INTERVAL := 2000
  const MAX_INTERVAL := 19802

  /** The fields of a stream that decide its behaviour: the three drift windows, ... */
  datatype Windows = Windows(mini: seq<int>, short: seq<int>, long: seq<int>)

  /** ... the medians taken from them at the last log line, ... */
  datatype Medians = Medians(long: int, short: int, lastLogSec: int)

  /** ... and the books of soft sync. `interval` is correct_after_x_frames: 0, or the
      number of frames per repeated (negative) or removed (positive) frame. */
  datatype Books = Books(playedFrames: nat, interval: int, frameDelta: int)

  datatype Control = Control(hardSync: bool, windows: Windows, medians: Medians, books: Books)

  const NO_AGES := Windows([], [], [])
  const INITIAL := Control(true, NO_AGES, Medians(0, 0, 0), Books(0, 0, 0))

  // ----- One call in normal mode -----

  /** Frames of correction due in a call for `frames` frames, before clamping. */
  function Due(c: Control, frames: nat): int {
    if c.books.interval == 0 || c.books.playedFrames + frames < Abs(c.books.interval) then 0
    else if c.books.interval > 0 then Quot(c.books.playedFrames + frames, c.books.interval)
    else -(Quot(c.books.playedFrames + frames, -c.books.interval) as int)
  }

  function PlayedAfter(c: Control, frames: nat): nat {
    if c.books.interval == 0 then c.books.playedFrames
    else if c.books.playedFrames + frames < Abs(c.books.interval) then c.books.playedFrames + frames
    else Rem(c.books.playedFrames + frames, Abs(c.books.interval))
  }

  /** correct_after_x_frames for a real playback rate. */
  function IntervalFor(nominal: real, sampleRate: real): int
    requires sampleRate != 0.0
  {
    if -F64_EPSILON < sampleRate - nominal < F64_EPSILON then 0
    else
      var ratio := nominal / sampleRate;
      DivReal(nominal, sampleRate);
      RoundReal(ratio / (ratio - 1.0))
  }

  function MinReal(a: real, b: real): real {
    if a <= b then a else b
  }

  /** The playback rate soft sync asks for at a short-term drift of m. */
  function SoftRate(nominal: nat, m: int): real {
    var bend := MinReal((Abs(m) as real / 100.0) * RATE_CORRECTION_SCALE, MAX_RATE_CORRECTION);
    nominal as real * if m > 0 then 1.0 - bend else 1.0 + bend
  }

  datatype Verdict = LongDrift | ShortDrift | MiniDrift | FarOff | Late | Early | InStep {
    predicate Hard() {
      LongDrift? || ShortDrift? || MiniDrift? || FarOff?
    }
  }

  function Judge(c: Control, age: int): Verdict {
    if |c.windows.long| >= BUFFER_SIZE && Abs(c.medians.long) > HARD_SYNC_MEDIAN_USEC && Abs(age) > HARD_SYNC_MIN_AGE_USEC
    then LongDrift
    else if |c.windows.short| >= SHORT_BUFFER_SIZE && Abs(c.medians.short) > HARD_SYNC_SHORT_MEDIAN_USEC
            && Abs(age) > HARD_SYNC_MIN_AGE_USEC
    then ShortDrift
    else if |c.windows.mini| >= MINI_BUFFER_SIZE && Abs(MedianOf(c.windows.mini)) > HARD_SYNC_MINI_MEDIAN_USEC
            && Abs(age) > HARD_SYNC_MIN_AGE_USEC
    then MiniDrift
    else if Abs(age) > HARD_SYNC_AGE_USEC then FarOff
    else if |c.windows.short| >= SHORT_BUFFER_SIZE && c.medians.short > CORRECTION_BEGIN_USEC
            && MedianOf(c.windows.mini) > SOFT_SYNC_MIN_USEC && age > SOFT_SYNC_MIN_USEC
    then Late
    else if |c.windows.short| >= SHORT_BUFFER_SIZE && c.medians.short < -CORRECTION_BEGIN_USEC
            && MedianOf(c.windows.mini) < -SOFT_SYNC_MIN_USEC && age < -SOFT_SYNC_MIN_USEC
    then Early
    else InStep
  }

  /** 2000000 / min(|m|, 1000), rounded: frames per corrected frame at drift m. */
  function SoftEvery(m: int): int
    requires m != 0
  {
    var k := Min(Abs(m), 1000);
    Quot(2 * 2_000_000 + k, 2 * k)
  }

  /** The correction interval a verdict leaves behind. */
  function NewInterval(shortMedian: int, v: Verdict): int {
    if shortMedian == 0 then 0
    else match v
      case Late => SoftEvery(shortMedian)
      case Early => -SoftEvery(shortMedian)
      case _ => 0
  }

  /** The control state once a normal-mode call has measured an age. */
  function Adjust(c: Control, age: int, now: int): Control
  {
    var v := Judge(c, age);
    var long := Push(c.windows.long, BUFFER_SIZE, age);
    var short := Push(c.windows.short, SHORT_BUFFER_SIZE, age);
    var logs := TruncDiv(now, 1_000_000) != c.medians.lastLogSec;
    Control(
      c.hardSync || v.Hard(),
      Windows(Push(c.windows.mini, MINI_BUFFER_SIZE, age), short, long),
      if logs then Medians(MedianOf(long), MedianOf(short), TruncDiv(now, 1_000_000)) else c.medians,
      Books(c.books.playedFrames, NewInterval(c.medians.short, v), if logs then 0 else c.books.frameDelta))
  }

  /** The control state after a completed normal-mode call. */
  function Play(c: Control, frames: nat, age: int, now: int): Control
  {
    Adjust(Charge(c, frames), age, now)
  }

  /** The correction of a call entered in the books. */
  function Charge(c: Control, frames: nat): Control {
    c.(books := Books(PlayedAfter(c, frames), c.books.interval, c.books.frameDelta - Clamp(Due(c, frames), frames)))
  }

  // ----- Runs -----

  /** What can happen to the control state. `pending` is the number of source frames
      the stream held when the call came. */
  datatype Event =
    | Cleared
    | Aligned
    | Played(frames: nat, pending: nat, age: int, now: int)

  function Step(c: Control, e: Event): Control
  {
    match e
    case Cleared => c.(hardSync := true)
    case Aligned => c.(hardSync := false, windows := NO_AGES)
    case Played(frames, _, age, now) => Play(c, frames, age, now)
  }

  function After(es: seq<Event>): Control
  {
    if es == [] then INITIAL else Step(After(Before(es)), Last(es))
  }

  function Before(es: seq<Event>): seq<Event>
    requires es != []
  {
    es[..|es| - 1]
  }

  function Last(es: seq<Event>): Event
    requires es != []
  {
    es[|es| - 1]
  }

  /** Calls align only in hard-sync mode and play only out of it. A call for no
      frames at a moment when a correction is due is outside the contract: the
      edit would write a frame the output has no room for. */
  predicate Enabled(c: Control, e: Event) {
    match e
    case Cleared => true
    case Aligned => c.hardSync
    case Played(frames, _, _, _) => !c.hardSync && (frames > 0 || Due(c, frames) == 0)
  }

  ghost predicate Legal(es: seq<Event>)
  {
    es == [] || (Legal(Before(es)) && Enabled(After(Before(es)), Last(es)))
  }

  /** The states of a run, one more than its events: the same as Legal and After,
      in the form an object can carry along. */
  ghost predicate IsRun(es: seq<Event>, states: seq<Control>) {
    && |states| == |es| + 1 && states[0] == INITIAL
    && forall i {:trigger es[i]} :: 0 <= i < |es| ==> Enabled(states[i], es[i]) && states[i + 1] == Step(states[i], es[i])
  }

  lemma {:induction false} RunReaches(es: seq<Event>, states: seq<Control>)
    requires IsRun(es, states)
    ensures Legal(es) && After(es) == states[|es|]
  {
    if es != [] {
      var n := |es| - 1;
      assert forall i :: 0 <= i < n ==> Before(es)[i] == es[i];
      RunReaches(Before(es), states[..n + 1]);
      assert Last(es) == es[n];
    }
  }

  lemma RunGrows(es: seq<Event>, states: seq<Control>, e: Event)
    requires IsRun(es, states) && Enabled(states[|es|], e)
    ensures IsRun(es + [e], states + [Step(states[|es|], e)])
  {
  }

  /** Frames requested by normal-mode calls. */
  function Requested(es: seq<Event>): nat {
    if es == [] then 0 else Requested(Before(es)) + if Last(es).Played? then Last(es).frames else 0
  }

  /** Correction applied by the last event, in frames, with its sign. */
  function Applied(es: seq<Event>): int
    requires es != []
  {
    if Last(es).Played? then Clamp(Due(After(Before(es)), Last(es).frames), Last(es).frames) else 0
  }

  /** Total number of frames dropped or repeated. */
  function Bent(es: seq<Event>): nat
  {
    if es == [] then 0 else Bent(Before(es)) + Abs(Applied(es))
  }

  /** Frames dropped minus frames repeated. */
  function Net(es: seq<Event>): int
  {
    if es == [] then 0 else Net(Before(es)) + Applied(es)
  }

  /** Source frames a call asks for: those requested and those to be dropped, less
      those to be repeated. */
  function Wanted(c: Control, frames: nat): nat {
    frames + Clamp(Due(c, frames), frames)
  }

  /** Source frames a call finds. */
  function Taken(c: Control, frames: nat, pending: nat): nat {
    Min(Wanted(c, frames), pending)
  }

  /** Frames that are surely still held after a run: what its last call left over. */
  function Spare(es: seq<Event>): nat {
    if es == [] || !Last(es).Played? then 0
    else Last(es).pending - Taken(After(Before(es)), Last(es).frames, Last(es).pending)
  }

  /** No request is too long for the counters, and no call finds fewer frames than
      the one before it left over. */
  predicate CanFollow(es: seq<Event>, e: Event) {
    e.Played? ==> e.frames <= MAX_REQUEST && e.pending >= Spare(es)
  }

  /** The runs that streams can have on record. */
  ghost predicate Reachable(es: seq<Event>) {
    es == [] || (Reachable(Before(es)) && Enabled(After(Before(es)), Last(es)) && CanFollow(Before(es), Last(es)))
  }

  lemma {:induction false} ReachableIsLegal(es: seq<Event>)
    requires Reachable(es)
    ensures Legal(es)
  {
    if es != [] {
      ReachableIsLegal(Before(es));
    }
  }

  /** A reachable run after which nothing need be left. */
  ghost predicate Tidy(es: seq<Event>) {
    Reachable(es) && Spare(es) == 0
  }

  /** Source frames taken from the queue by normal-mode calls. */
  function Consumed(es: seq<Event>): nat {
    if es == [] then 0
    else if Last(es).Played? then
      Consumed(Before(es)) + Taken(After(Before(es)), Last(es).frames, Last(es).pending)
    else Consumed(Before(es))
  }

  /** No call found the queue short. */
  predicate NoUnderrun(es: seq<Event>)
  {
    es == [] || (NoUnderrun(Before(es))
                 && (Last(es).Played? ==> Last(es).pending >= Wanted(After(Before(es)), Last(es).frames)))
  }

  /** Ages measured since playback was last aligned. */
  function Ages(es: seq<Event>): seq<int> {
    if es == [] then [] else NextAges(Ages(Before(es)), Last(es))
  }

  function NextAges(ages: seq<int>, e: Event): seq<int> {
    match e
    case Cleared => ages
    case Aligned => []
    case Played(_, _, age, _) => ages + [age]
  }

  // ----- The correction interval -----

  lemma MulPositive(a: real, b: real)
    requires a > 0.0 && b > 0.0
    ensures a * b > 0.0
  {
  }

  lemma DivReal(a: real, b: real)
    requires b != 0.0
    ensures (a / b) * b == a
  {
  }

  lemma OrderScaled(x: real, y: real, k: real)
    requires x <= y && k > 0.0
    ensures x * k <= y * k
  {
    if x < y {
      MulPositive(y - x, k);
    }
  }

  lemma OrderByProduct(x: real, y: real, k: real)
    requires k > 0.0 && x * k <= y * k
    ensures x <= y
  {
    if y < x {
      MulPositive(x - y, k);
    }
  }

  /** The nominal rate cancels: bending the rate by r changes one frame in 1/r. */
  lemma RatioCancels(n: real, r: real)
    requires n > 0.0 && r != 0.0 && r < 1.0
    ensures n * (1.0 - r) != 0.0
    ensures var ratio := n / (n * (1.0 - r));
            ratio != 1.0 && ratio / (ratio - 1.0) == 1.0 / r
  {
    MulPositive(n, 1.0 - r);
    var ratio := n / (n * (1.0 - r));
    DivReal(n, n * (1.0 - r));
    assert n * (ratio * (1.0 - r) - 1.0) == 0.0;
    assert ratio * (1.0 - r) == 1.0;
    assert ratio - 1.0 == ratio * r;
    assert ratio != 0.0;
    assert ratio * r != 0.0;
    assert (1.0 / r) * (ratio * r) == ratio;
  }

  /** The size of the bend at drift m, as a fraction of the nominal rate. */
  lemma BendIs(m: int)
    requires Abs(m) > CORRECTION_BEGIN_USEC
    ensures MinReal((Abs(m) as real / 100.0) * RATE_CORRECTION_SCALE, MAX_RATE_CORRECTION)
         == Min(Abs(m), 1000) as real / 2_000_000.0
  {
  }

  lemma SoftEveryBounds(m: int)
    requires Abs(m) > CORRECTION_BEGIN_USEC
    ensures MIN_INTERVAL <= SoftEvery(m) <= MAX_INTERVAL
  {
    var k := Min(Abs(m), 1000);
    var q := SoftEvery(m);
    QuotBounds(2 * 2_000_000 + k, 2 * k);
    MulDistrib(q, 1, 2 * k);
    if q < MIN_INTERVAL {
      MulMono(q + 1, MIN_INTERVAL, 2 * k);
    }
    if q > MAX_INTERVAL {
      MulMono(MAX_INTERVAL + 1, q, 2 * k);
    }
  }

  /** Rounding the real quotient is rounding the integer one. */
  lemma RoundedQuotient(a: nat, k: nat)
    requires k > 0
    ensures RoundReal(a as real / k as real) == Quot(2 * a + k, 2 * k)
  {
    var q := Quot(2 * a + k, 2 * k);
    QuotBounds(2 * a + k, 2 * k);
    HalfStep(a, k, q);
    RoundsTo(a, k, q);
  }

  /** a / k is at most half a step away from q. */
  predicate WithinHalf(a: nat, k: nat, q: nat) {
    (q as real - 0.5) * k as real <= a as real < (q as real + 0.5) * k as real
  }

  lemma RoundsTo(a: nat, k: nat, q: nat)
    requires k > 0 && WithinHalf(a, k, q)
    ensures RoundReal(a as real / k as real) == q
  {
    QuotientBetween(a as real, k as real, q as real - 0.5, q as real + 0.5);
    QuotientBetween(a as real, k as real, 0.0, q as real + 0.5);
    RoundedTo(a as real / k as real, q);
  }

  lemma RoundedTo(x: real, q: nat)
    requires q as real - 0.5 <= x < q as real + 0.5 && x >= 0.0
    ensures RoundReal(x) == q
  {
  }

  lemma QuotientBetween(a: real, k: real, lo: real, hi: real)
    requires k > 0.0 && lo * k <= a < hi * k
    ensures lo <= a / k < hi
  {
    DivReal(a, k);
    OrderByProduct(lo, a / k, k);
    StrictOrderByProduct(a / k, hi, k);
  }

  lemma HalfStep(a: nat, k: nat, q: nat)
    requires q * (2 * k) <= 2 * a + k < q * (2 * k) + 2 * k
    ensures WithinHalf(a, k, q)
  {
    assert q * (2 * k) == 2 * (q * k);
    ScaledHalves(q, k);
  }

  lemma ScaledHalves(q: nat, k: nat)
    ensures (q as real - 0.5) * k as real == (q * k) as real - 0.5 * k as real
    ensures (q as real + 0.5) * k as real == (q * k) as real + 0.5 * k as real
  {
    assert q as real * k as real == (q * k) as real;
  }

  lemma StrictOrderByProduct(x: real, y: real, k: real)
    requires k > 0.0 && x * k < y * k
    ensures x < y
  {
    if y <= x {
      OrderScaled(y, x, k);
    }
  }

  /** A rate bent by r, well above rounding noise, asks for one frame in 1/r. */
  lemma BentInterval(n: real, r: real)
    requires n >= 1.0 && (r >= 0.00005 || r <= -0.00005) && r < 1.0
    ensures n * (1.0 - r) != 0.0
    ensures IntervalFor(n, n * (1.0 - r)) == RoundReal(1.0 / r)
  {
    RatioCancels(n, r);
    assert n * (1.0 - r) - n == -(n * r);
    if r > 0.0 {
      OrderByFactor(n, r);
    } else {
      OrderByFactor(n, -r);
      assert n * (-r) == -(n * r);
    }
  }

  lemma OrderByFactor(n: real, r: real)
    requires n >= 1.0 && r >= 0.0
    ensures n * r >= r
  {
  }

  /** The signed bend at drift m: positive when late. */
  function Bend(m: int): real {
    var k := Min(Abs(m), 1000) as real / 2_000_000.0;
    if m > 0 then k else -k
  }

  lemma SoftRateIs(nominal: nat, m: int)
    requires Abs(m) > CORRECTION_BEGIN_USEC
    ensures SoftRate(nominal, m) == nominal as real * (1.0 - Bend(m))
  {
    BendIs(m);
  }

  /** The playback rate soft sync asks for at drift m comes down to correcting one
      frame in round(2000000 / min(|m|, 1000)): removing frames when late, repeating
      them when early. The nominal rate does not matter. */
  lemma SoftInterval(nominal: nat, m: int)
    requires nominal > 0 && Abs(m) > CORRECTION_BEGIN_USEC
    ensures SoftRate(nominal, m) != 0.0
    ensures IntervalFor(nominal as real, SoftRate(nominal, m)) == if m > 0 then SoftEvery(m) else -SoftEvery(m)
  {
    SoftRateIs(nominal, m);
    BentInterval(nominal as real, Bend(m));
    InverseOfBend(m);
  }

  lemma InverseOfBend(m: int)
    requires Abs(m) > CORRECTION_BEGIN_USEC
    ensures Bend(m) != 0.0
    ensures RoundReal(1.0 / Bend(m)) == if m > 0 then SoftEvery(m) else -SoftEvery(m)
  {
    var k := Min(Abs(m), 1000);
    var b := k as real / 2_000_000.0;
    DivReal(1.0, b);
    DivReal(2_000_000.0, k as real);
    InverseOf(k as real, 1.0 / b);
    RoundedQuotient(2_000_000, k);
    NegatedInverse(b);
  }

  lemma InverseOf(k: real, x: real)
    requires k > 0.0 && x * (k / 2_000_000.0) == 1.0
    ensures x == 2_000_000.0 / k
  {
    DivReal(2_000_000.0, k);
    var y := 2_000_000.0 / k;
    assert (x - y) * k == 0.0;
  }

  lemma NegatedInverse(b: real)
    requires b > 0.0
    ensures 1.0 / (-b) == -(1.0 / b)
  {
    DivReal(1.0, b);
    DivReal(1.0, -b);
    var x, y := 1.0 / (-b), 1.0 / b;
    assert (x + y) * b == 0.0;
    if x + y > 0.0 {
      MulPositive(x + y, b);
    } else if x + y < 0.0 {
      MulPositive(-(x + y), b);
    }
  }

  // ----- What every reachable state keeps -----

  predicate Bounded(c: Control) {
    && (c.books.interval == 0 || MIN_INTERVAL <= Abs(c.books.interval) <= MAX_INTERVAL)
    && c.books.playedFrames < MAX_INTERVAL
  }

  lemma NewIntervalBounded(c: Control, age: int)
    ensures var i := NewInterval(c.medians.short, Judge(c, age));
            i == 0 || MIN_INTERVAL <= Abs(i) <= MAX_INTERVAL
  {
    var v := Judge(c, age);
    if v == Late || v == Early {
      SoftEveryBounds(c.medians.short);
    }
  }

  lemma BudgetStep(p: nat, d: nat)
    requires d >= MIN_INTERVAL
    ensures MIN_INTERVAL * Quot(p, d) + Rem(p, d) <= p
  {
    QuotRem(p, d);
    MulMono(MIN_INTERVAL, d, Quot(p, d));
  }

  /** One call pays for its correction: every dropped or repeated frame uses up at
      least 2000 played frames. */
  lemma CallBudget(c: Control, frames: nat)
    requires Bounded(c) && (frames > 0 || Due(c, frames) == 0)
    ensures 2000 * Abs(Clamp(Due(c, frames), frames)) + PlayedAfter(c, frames) <= c.books.playedFrames + frames
    ensures PlayedAfter(c, frames) < MAX_INTERVAL
  {
    if c.books.interval != 0 && c.books.playedFrames + frames >= Abs(c.books.interval) {
      var p := c.books.playedFrames + frames;
      var d := Abs(c.books.interval);
      QuotRem(p, d);
      BudgetStep(p, d);
      assert Abs(Due(c, frames)) == Quot(p, d);
    }
  }

  /** No count leaves 32 bits while a correction is worked out and applied. */
  lemma CorrectionFits(c: Control, frames: nat)
    requires Bounded(c) && frames <= MAX_REQUEST
    ensures c.books.playedFrames + frames < 0x8000_0000
    ensures frames + Max(Due(c, frames), 0) < 0x8000_0000
  {
    if c.books.interval > 0 {
      BudgetStep(c.books.playedFrames + frames, c.books.interval);
    }
  }

  lemma {:induction false} ReachableIsBounded(es: seq<Event>)
    requires Legal(es)
    ensures Bounded(After(es))
  {
    if es != [] {
      ReachableIsBounded(Before(es));
      var c := After(Before(es));
      if Last(es).Played? {
        CallBudget(c, Last(es).frames);
        NewIntervalBounded(Charge(c, Last(es).frames), Last(es).age);
      }
    }
  }

  lemma RunIsBounded(es: seq<Event>, states: seq<Control>)
    requires IsRun(es, states)
    ensures Bounded(states[|es|])
  {
    RunReaches(es, states);
    ReachableIsBounded(es);
  }

  /** Soft sync never bends playback by more than 0.05 percent: over every stretch
      of every run, 2000 times the number of corrected frames is at most the number
      of frames requested in it plus the few carried in from before it, however
      often the interval changed between calls. */
  lemma {:induction false} SoftSyncBudget(es: seq<Event>, i: nat)
    requires Legal(es) && i <= |es|
    ensures Bent(es) >= Bent(es[..i]) && Requested(es) >= Requested(es[..i])
    ensures 2000 * (Bent(es) - Bent(es[..i])) + After(es).books.playedFrames
         <= Requested(es) - Requested(es[..i]) + After(es[..i]).books.playedFrames
  {
    if i == |es| {
      assert es[..i] == es;
    } else {
      SoftSyncBudget(Before(es), i);
      assert Before(es)[..i] == es[..i];
      var c := After(Before(es));
      ReachableIsBounded(Before(es));
      if Last(es).Played? {
        CallBudget(c, Last(es).frames);
      }
    }
  }

  /** The same from the creation of the stream, where nothing is carried in. */
  lemma SoftSyncBudgetFromStart(es: seq<Event>)
    requires Legal(es)
    ensures 2000 * Bent(es) + After(es).books.playedFrames <= Requested(es)
    ensures After(es).books.playedFrames < MAX_INTERVAL
  {
    SoftSyncBudget(es, 0);
    assert es[..0] == [];
    ReachableIsBounded(es);
  }

  lemma {:induction false} NetWithinBent(es: seq<Event>)
    ensures Abs(Net(es)) <= Bent(es)
  {
    if es != [] {
      NetWithinBent(Before(es));
    }
  }

  lemma {:induction false} QueueGivesAtMost(es: seq<Event>)
    ensures Consumed(es) <= Requested(es) + Net(es)
    ensures Consumed(es) == Requested(es) + Net(es) <==> NoUnderrun(es)
  {
    if es != [] {
      QueueGivesAtMost(Before(es));
      if Last(es).Played? {
        GivesWhatItHas(After(Before(es)), Last(es).frames, Last(es).pending);
      }
    }
  }

  lemma GivesWhatItHas(c: Control, frames: nat, pending: nat)
    ensures Taken(c, frames, pending) <= Wanted(c, frames)
    ensures Taken(c, frames, pending) == Wanted(c, frames) <==> pending >= Wanted(c, frames)
  {
  }

  /** Source and output balance: the queue never gives more than the frames requested
      plus the corrections, and gives exactly that many if and only if no call ever
      found it short; then source and output differ by at most one frame in 2000. */
  lemma {:induction false} SourceOutputBalance(es: seq<Event>)
    requires Legal(es)
    ensures Consumed(es) <= Requested(es) + Net(es)
    ensures Consumed(es) == Requested(es) + Net(es) <==> NoUnderrun(es)
    ensures NoUnderrun(es) ==> 2000 * Abs(Consumed(es) - Requested(es)) <= Requested(es)
  {
    QueueGivesAtMost(es);
    SoftSyncBudgetFromStart(es);
    NetWithinBent(es);
  }

  lemma {:induction false} WindowsFollowAges(es: seq<Event>)
    ensures After(es).windows == WindowsOf(Ages(es))
  {
    if es != [] {
      WindowsFollowAges(Before(es));
      WindowsStep(After(Before(es)), Last(es), Ages(Before(es)));
    }
  }

  function WindowsOf(ages: seq<int>): Windows {
    Windows(LastN(ages, MINI_BUFFER_SIZE), LastN(ages, SHORT_BUFFER_SIZE), LastN(ages, BUFFER_SIZE))
  }

  lemma WindowsStep(c: Control, e: Event, ages: seq<int>)
    requires c.windows == WindowsOf(ages)
    ensures Step(c, e).windows == WindowsOf(NextAges(ages, e))
  {
    if e.Played? {
      PushLastN(ages, MINI_BUFFER_SIZE, e.age);
      PushLastN(ages, SHORT_BUFFER_SIZE, e.age);
      PushLastN(ages, BUFFER_SIZE, e.age);
    }
  }

  /** The three windows are the newest 20, 100 and 500 ages of one history, the
      ages measured since playback was last aligned. */
  lemma WindowCoherence(es: seq<Event>)
    ensures After(es).windows == WindowsOf(Ages(es))
    ensures After(es).windows.mini == LastN(After(es).windows.short, MINI_BUFFER_SIZE)
    ensures After(es).windows.short == LastN(After(es).windows.long, SHORT_BUFFER_SIZE)
  {
    WindowsFollowAges(es);
    SmallerWindowIsSuffix(Ages(es), MINI_BUFFER_SIZE, SHORT_BUFFER_SIZE);
    SmallerWindowIsSuffix(Ages(es), SHORT_BUFFER_SIZE, BUFFER_SIZE);
  }

  /** A hard sync asked for by a median needs at least 20 completed calls since the
      last alignment (100 for the short-term median, 500 for the long-term one). */
  lemma MedianTriggerNeedsHistory(es: seq<Event>, age: int)
    ensures Judge(After(es), age) == MiniDrift ==> |Ages(es)| >= MINI_BUFFER_SIZE
    ensures Judge(After(es), age) == ShortDrift ==> |Ages(es)| >= SHORT_BUFFER_SIZE
    ensures Judge(After(es), age) == LongDrift ==> |Ages(es)| >= BUFFER_SIZE
    ensures Judge(After(es), age) in {Late, Early} ==> |Ages(es)| >= SHORT_BUFFER_SIZE
  {
    WindowCoherence(es);
  }

  // ----- Stale medians -----

  /** How many ages had been measured since the last alignment when the long- and
      short-term medians were last recomputed; 0 if they have not been since. */
  function MeasuredAtRefresh(es: seq<Event>): nat
  {
    if es == [] then 0
    else match Last(es)
      case Cleared => MeasuredAtRefresh(Before(es))
      case Aligned => 0
      case Played(_, _, _, now) =>
        if TruncDiv(now, 1_000_000) != After(Before(es)).medians.lastLogSec then |Ages(es)|
        else MeasuredAtRefresh(Before(es))
  }

  /** The medians in force at the last alignment. */
  function Carried(es: seq<Event>): (int, int)
  {
    if es == [] then (0, 0)
    else if Last(es).Aligned? then (After(es).medians.long, After(es).medians.short)
    else Carried(Before(es))
  }

  /** The medians the triggers look at are those of the ages known at the last
      recomputation since the alignment; if there has been none, they are still
      those from before the alignment, although the windows were emptied. */
  lemma {:induction false} MediansInForce(es: seq<Event>)
    requires Legal(es)
    ensures var k := MeasuredAtRefresh(es);
            && k <= |Ages(es)|
            && (After(es).medians.long, After(es).medians.short)
               == if k > 0 then (MedianOf(LastN(Ages(es)[..k], BUFFER_SIZE)),
                                 MedianOf(LastN(Ages(es)[..k], SHORT_BUFFER_SIZE)))
                  else Carried(es)
  {
    if es != [] {
      MediansInForce(Before(es));
      var k := MeasuredAtRefresh(Before(es));
      if Last(es).Played? {
        WindowCoherence(es);
        assert Ages(es)[..|Ages(es)|] == Ages(es);
        assert Ages(es)[..k] == Ages(Before(es))[..k];
      }
    }
  }

  /** Ages that set the stale median, and ages that stay below its threshold. */
  predicate Misleading(late: int, mild: int, now: int) {
    && HARD_SYNC_SHORT_MEDIAN_USEC < late <= HARD_SYNC_AGE_USEC
    && HARD_SYNC_MIN_AGE_USEC < mild < HARD_SYNC_MEDIAN_USEC
    && TruncDiv(now, 1_000_000) != 0
  }

  /** The state of such a stream after n of the mild measurements. */
  predicate HoldsStaleMedian(c: Control, n: nat, late: int, mild: int, now: int) {
    && !c.hardSync && c.medians.short == late && c.medians.lastLogSec == TruncDiv(now, 1_000_000) && c.books.interval == 0
    && |c.windows.long| == |c.windows.short| == n && |c.windows.mini| == Min(n, MINI_BUFFER_SIZE)
    && (forall i :: 0 <= i < |c.windows.mini| ==> c.windows.mini[i] == mild)
  }

  lemma StaleStep(c: Control, n: nat, late: int, mild: int, now: int)
    requires Misleading(late, mild, now) && HoldsStaleMedian(c, n, late, mild, now) && n < SHORT_BUFFER_SIZE
    ensures HoldsStaleMedian(Play(c, 1, mild, now), n + 1, late, mild, now)
  {
    if n >= MINI_BUFFER_SIZE {
      CountConstant(c.windows.mini, mild);
      MedianInMajority(c.windows.mini, mild, mild);
    }
    assert Judge(c, mild) == InStep;
  }

  /** A call that finds just the frames it asks for. */
  predicate TakesAll(c: Control, e: Event)
    requires e.Played?
  {
    e.frames <= MAX_REQUEST && Due(c, e.frames) == 0 && e.pending == e.frames
  }

  lemma AfterAppend(es: seq<Event>, e: Event)
    ensures After(es + [e]) == Step(After(es), e)
    ensures Legal(es + [e]) <==> Legal(es) && Enabled(After(es), e)
    ensures Ages(es + [e]) == NextAges(Ages(es), e)
    ensures Tidy(es) && Enabled(After(es), e) && (e.Played? ==> TakesAll(After(es), e)) ==> Tidy(es + [e])
  {
    assert Before(es + [e]) == es;
  }

  /** Aligned, with nothing measured since. */
  predicate Fresh(c: Control) {
    !c.hardSync && |c.windows.mini| == |c.windows.short| == |c.windows.long| == 0 && c.books.interval == 0
  }

  /** The short-term median was last recomputed at `now` and came out as `age`. */
  predicate Remembers(c: Control, age: int, now: int) {
    c.medians.short == age && c.medians.lastLogSec == TruncDiv(now, 1_000_000) && c.books.interval == 0
  }

  lemma FirstMeasurement(c: Control, frames: nat, age: int, now: int)
    requires Fresh(c)
    requires Abs(age) <= HARD_SYNC_AGE_USEC && TruncDiv(now, 1_000_000) != c.medians.lastLogSec
    ensures Remembers(Play(c, frames, age, now), age, now)
  {
    assert Judge(Charge(c, frames), age) == InStep;
    assert Push([], SHORT_BUFFER_SIZE, age) == [age];
    SingleMedian(age);
  }

  lemma SingleMedian(v: int)
    ensures MedianOf([v]) == v
  {
    assert [v][1..] == [];
    assert CountBelow([v], v) == 0 && CountBelow([v], v + 1) == 1;
    MedianRank([v], v);
  }

  lemma FirstAlignment() returns (es: seq<Event>)
    ensures Tidy(es) && Fresh(After(es)) && After(es).medians.lastLogSec == 0
    ensures After(es).books.playedFrames == 0
  {
    var empty: seq<Event> :| |empty| == 0;
    AfterAppend(empty, Aligned);
    es := empty + [Aligned];
  }

  lemma LateOnce(before: seq<Event>, e: Event) returns (es: seq<Event>)
    requires Tidy(before) && Fresh(After(before)) && After(before).medians.lastLogSec == 0
    requires e.Played? && 0 < e.frames == e.pending <= MAX_REQUEST
    requires HARD_SYNC_SHORT_MEDIAN_USEC < e.age <= HARD_SYNC_AGE_USEC && TruncDiv(e.now, 1_000_000) != 0
    ensures Tidy(es) && Remembers(After(es), e.age, e.now)
  {
    AfterAppend(before, e);
    FirstMeasurement(After(before), e.frames, e.age, e.now);
    es := before + [e];
  }

  lemma ClearedAndAligned(before: seq<Event>) returns (es: seq<Event>)
    requires Tidy(before)
    ensures Tidy(es) && Ages(es) == []
    ensures After(es) == After(before).(hardSync := false, windows := NO_AGES)
  {
    AfterAppend(before, Cleared);
    es := before + [Cleared];
    AfterAppend(es, Aligned);
    es := es + [Aligned];
  }

  /** A stream can have been late once and then been cleared and aligned anew, ... */
  lemma StaleStart(late: int, mild: int, now: int) returns (es: seq<Event>)
    requires Misleading(late, mild, now)
    ensures Tidy(es) && HoldsStaleMedian(After(es), 0, late, mild, now) && Ages(es) == []
  {
    es := FirstAlignment();
    es := LateOnce(es, Played(1, 1, late, now));
    es := ClearedAndAligned(es);
  }

  /** ... and then measure the milder age again and again within the same second. */
  lemma {:induction false} StaleRun(start: seq<Event>, n: nat, late: int, mild: int, now: int) returns (es: seq<Event>)
    requires n <= SHORT_BUFFER_SIZE && Misleading(late, mild, now)
    requires Tidy(start) && HoldsStaleMedian(After(start), 0, late, mild, now) && Ages(start) == []
    ensures Tidy(es) && HoldsStaleMedian(After(es), n, late, mild, now)
    ensures |Ages(es)| == n && (forall i :: 0 <= i < n ==> Ages(es)[i] == mild)
  {
    es := start;
    if n > 0 {
      var before := StaleRun(start, n - 1, late, mild, now);
      AfterAppend(before, Played(1, 1, mild, now));
      StaleStep(After(before), n - 1, late, mild, now);
      es := before + [Played(1, 1, mild, now)];
    }
  }

  lemma {:induction false} CountConstant(s: seq<int>, v: int)
    requires forall i :: 0 <= i < |s| ==> s[i] == v
    ensures CountIn(s, v, v) == |s|
  {
    if s != [] {
      CountConstant(s[1..], v);
    }
  }

  /** The windows guard the triggers only by their length, so a stale median can
      throw away a good alignment: every age since the alignment is below the 2 ms
      of the long-term threshold, and the next call still asks for a hard sync. */
  lemma StaleMedianTrigger(late: int, mild: int, now: int)
    requires Misleading(late, mild, now)
    ensures exists es ::
              && Reachable(es) && !After(es).hardSync
              && (forall i :: 0 <= i < |Ages(es)| ==> Ages(es)[i] == mild)
              && Judge(After(es), mild) == ShortDrift
  {
    var start := StaleStart(late, mild, now);
    var es := StaleRun(start, SHORT_BUFFER_SIZE, late, mild, now);
    assert Judge(After(es), mild) == ShortDrift;
  }

  // ----- Which requests can hear a frame three times -----

  /** After this run a call for so many frames repeats a frame twice over. */
  ghost predicate RepeatsTwice(es: seq<Event>, frames: nat, j: nat) {
    && Reachable(es) && !After(es).hardSync && frames > 0
    && HeardThrice(frames, Clamp(Due(After(es), frames), frames), j)
  }

  lemma CorrectionsDue(c: Control, frames: nat)
    requires Bounded(c)
    ensures MIN_INTERVAL * Abs(Due(c, frames)) <= c.books.playedFrames + frames
  {
    if Due(c, frames) != 0 {
      BudgetStep(c.books.playedFrames + frames, Abs(c.books.interval));
    }
  }

  lemma NotThriceForward(frames: nat, c: int, j: nat)
    requires frames > 0 && c >= 0
    ensures !HeardThrice(frames, c, j)
  {
    if c > 0 && j + 2 < frames {
      DropKeepsOrder(frames, c, j, j + 2);
    }
    if c == 0 && j + 2 < frames {
      RepeatEdit(frames, 0, j + 1);
      RepeatEdit(frames, 0, j + 2);
      NoRepeatPoints(frames, j + 1);
    }
  }

  lemma NoRepeatPoints(frames: nat, j: nat)
    requires 0 < j < frames
    ensures !Repeats(frames, 0, j)
  {
    assert SliceSize(frames, 0) == frames;
  }

  /** A request of 20 frames or more never hears a frame three times. */
  lemma LongRequestsRepeatOnce(es: seq<Event>, frames: nat, j: nat)
    requires Legal(es) && frames >= 20
    ensures !HeardThrice(frames, Clamp(Due(After(es), frames), frames), j)
  {
    ReachableIsBounded(es);
    CorrectionsDue(After(es), frames);
    SlicesLongEnough(frames, Due(After(es), frames), After(es).books.playedFrames, j);
  }

  lemma SlicesLongEnough(frames: nat, due: int, played: nat, j: nat)
    requires frames >= 20 && played < MAX_INTERVAL && MIN_INTERVAL * Abs(due) <= played + frames
    ensures !HeardThrice(frames, Clamp(due, frames), j)
  {
    var c := Clamp(due, frames);
    if c >= 0 {
      NotThriceForward(frames, c, j);
    } else {
      assert 2 * (-c + 1) <= frames;
      UnitSlices(frames, -c);
      RepeatedOnceEach(frames, c);
    }
  }

  lemma UnitSlices(frames: nat, k: nat)
    requires 0 < k < frames
    ensures SliceSize(frames, 0 - k) == 1 <==> frames < 2 * (k + 1)
  {
    var q := frames / (k + 1);
    DivBounds(frames, k + 1);
    if q >= 2 {
      MulMono(2, q, k + 1);
    }
  }

  /** Aligned, with the soft-sync counters of before. */
  predicate Realigned(c: Control, sec: int) {
    && !c.hardSync && |c.windows.mini| == |c.windows.short| == |c.windows.long| == 0
    && c.medians.lastLogSec != sec
  }

  /** A stream that has measured the same small drift n times. */
  predicate Drifting(c: Control, n: nat, drift: int, sec: int, played: nat) {
    && !c.hardSync && c.books == Books(played, 0, c.books.frameDelta)
    && c.medians == Medians(drift, drift, sec)
    && |c.windows.long| == |c.windows.short| == n && |c.windows.mini| == Min(n, MINI_BUFFER_SIZE)
    && (forall i :: 0 <= i < |c.windows.mini| ==> c.windows.mini[i] == drift)
  }

  /** Drifts early enough for a correction and too little for a hard sync. */
  predicate SmallDrift(drift: int) {
    -1000 <= drift < -CORRECTION_BEGIN_USEC
  }

  lemma DriftStarts(c: Control, drift: int, now: int)
    requires SmallDrift(drift) && Realigned(c, TruncDiv(now, 1_000_000)) && Due(c, 1) == 0
    ensures Drifting(Play(c, 1, drift, now), 1, drift, TruncDiv(now, 1_000_000), PlayedAfter(c, 1))
  {
    assert Judge(Charge(c, 1), drift) == InStep;
    assert Push([], SHORT_BUFFER_SIZE, drift) == [drift];
    assert Push([], BUFFER_SIZE, drift) == [drift];
    SingleMedian(drift);
  }

  lemma DriftContinues(c: Control, n: nat, drift: int, now: int, played: nat)
    requires SmallDrift(drift) && Drifting(c, n, drift, TruncDiv(now, 1_000_000), played) && n < SHORT_BUFFER_SIZE
    ensures Drifting(Play(c, 1, drift, now), n + 1, drift, TruncDiv(now, 1_000_000), played)
  {
    if n >= MINI_BUFFER_SIZE {
      CountConstant(c.windows.mini, drift);
      MedianInMajority(c.windows.mini, drift, drift);
    }
    assert Judge(Charge(c, 1), drift) == InStep;
  }

  lemma DriftCorrected(c: Control, drift: int, frames: nat, now: int, played: nat)
    requires SmallDrift(drift)
    requires Drifting(c, SHORT_BUFFER_SIZE, drift, TruncDiv(now, 1_000_000), played)
    ensures var next := Play(c, frames, drift, now);
            !next.hardSync && next.books.interval == -SoftEvery(drift) && next.books.playedFrames == played
            && next.medians.lastLogSec == TruncDiv(now, 1_000_000)
  {
    CountConstant(c.windows.mini, drift);
    MedianInMajority(c.windows.mini, drift, drift);
    assert Judge(Charge(c, frames), drift) == Early;
  }

  lemma {:induction false} DriftFor(start: seq<Event>, n: nat, drift: int, now: int, played: nat)
    returns (es: seq<Event>)
    requires 1 <= n <= SHORT_BUFFER_SIZE && SmallDrift(drift) && Tidy(start)
    requires Realigned(After(start), TruncDiv(now, 1_000_000)) && Due(After(start), 1) == 0
    requires played == PlayedAfter(After(start), 1)
    ensures Tidy(es) && Drifting(After(es), n, drift, TruncDiv(now, 1_000_000), played)
    decreases n
  {
    if n == 1 {
      AfterAppend(start, Played(1, 1, drift, now));
      DriftStarts(After(start), drift, now);
      es := start + [Played(1, 1, drift, now)];
    } else {
      var before := DriftFor(start, n - 1, drift, now, played);
      AfterAppend(before, Played(1, 1, drift, now));
      DriftContinues(After(before), n - 1, drift, now, played);
      es := before + [Played(1, 1, drift, now)];
    }
  }

  /** A correction interval set by a steady drift, with the frame counter kept. */
  lemma SetInterval(start: seq<Event>, drift: int, now: int, played: nat) returns (es: seq<Event>)
    requires SmallDrift(drift) && Tidy(start)
    requires Realigned(After(start), TruncDiv(now, 1_000_000)) && Due(After(start), 1) == 0
    requires played == PlayedAfter(After(start), 1)
    ensures Tidy(es) && !After(es).hardSync
    ensures After(es).books.interval == -SoftEvery(drift) && After(es).books.playedFrames == played
    ensures After(es).medians.lastLogSec == TruncDiv(now, 1_000_000)
  {
    var before := DriftFor(start, SHORT_BUFFER_SIZE, drift, now, played);
    AfterAppend(before, Played(1, 1, drift, now));
    DriftCorrected(After(before), drift, 1, now, played);
    es := before + [Played(1, 1, drift, now)];
  }

  /** The correction interval has been long, most of it has been counted, and then a
      larger drift has made it short. */
  lemma ShrunkInterval(slow: int, fast: int, first: int, second: int, count: nat) returns (es: seq<Event>)
    requires SmallDrift(slow) && SmallDrift(fast) && 0 < count < SoftEvery(slow)
    requires TruncDiv(first, 1_000_000) != 0 && TruncDiv(first, 1_000_000) != TruncDiv(second, 1_000_000)
    ensures Tidy(es) && !After(es).hardSync
    ensures After(es).books.interval == -SoftEvery(fast) && After(es).books.playedFrames == count
  {
    es := FirstAlignment();
    es := SetInterval(es, slow, first, 0);
    es := CountedUp(es, count, first);
    es := ClearedAndAligned(es);
    es := SetInterval(es, fast, second, count);
  }

  lemma LongestAndShortest(slow: int, fast: int)
    requires slow == -101 && fast == -1000
    ensures SmallDrift(slow) && SoftEvery(slow) == MAX_INTERVAL
    ensures SmallDrift(fast) && SoftEvery(fast) == MIN_INTERVAL
  {
    QuotRem(2 * 2_000_000 + 101, 2 * 101);
    QuotRem(2 * 2_000_000 + 1000, 2 * 1000);
  }

  lemma FromLongestToShortest() returns (es: seq<Event>)
    ensures Tidy(es) && !After(es).hardSync
    ensures After(es).books.interval == -MIN_INTERVAL && After(es).books.playedFrames == 18000
  {
    LongestAndShortest(-101, -1000);
    es := ShrunkInterval(-101, -1000, 1_000_000, 2_000_000, 18000);
  }

  lemma CountedUp(before: seq<Event>, frames: nat, now: int) returns (es: seq<Event>)
    requires Tidy(before) && !After(before).hardSync && After(before).books.playedFrames == 0
    requires 0 < frames < Abs(After(before).books.interval)
    requires After(before).medians.lastLogSec == TruncDiv(now, 1_000_000)
    ensures Tidy(es) && After(es).books.playedFrames == frames && After(es).books.interval == 0
    ensures After(es).medians.lastLogSec == TruncDiv(now, 1_000_000)
  {
    ReachableIsLegal(before);
    ReachableIsBounded(before);
    AfterAppend(before, Played(frames, frames, 0, now));
    assert Judge(Charge(After(before), frames), 0) == InStep;
    es := before + [Played(frames, frames, 0, now)];
  }

  /** From there on every request of 3 to 19 frames repeats its first frame twice. */
  lemma ShortRequestRepeatsTwice(frames: nat)
    requires 3 <= frames <= 19
    ensures exists es :: RepeatsTwice(es, frames, 0)
  {
    var es := FromLongestToShortest();
    NineDue(After(es), frames);
    NineRepeated(frames, 9);
    assert RepeatsTwice(es, frames, 0);
  }

  lemma NineDue(c: Control, frames: nat)
    requires frames <= 19 && c.books.interval == -MIN_INTERVAL && c.books.playedFrames == 18000
    ensures Due(c, frames) == -9
  {
    QuotRem(18000 + frames, 2000);
  }

  lemma NineRepeated(frames: nat, due: nat)
    requires 3 <= frames <= 19 && due == 9
    ensures HeardThrice(frames, Clamp(0 - due, frames), 0)
  {
    var k := Min(due, frames - 1);
    UnitSlices(frames, k);
    FirstHeardThrice(frames, k);
  }

  lemma FirstHeardThrice(frames: nat, k: nat)
    requires 2 <= k < frames && SliceSize(frames, 0 - k) == 1
    ensures HeardThrice(frames, 0 - k, 0)
  {
    assert RepeatSource(k, 1, 0) == RepeatSource(k, 1, 2);
  }

  /** A frame can be heard three times in some reachable state exactly if the request
      is for 3 to 19 frames. */
  lemma HeardThriceExactly(frames: nat)
    ensures (exists es, j :: RepeatsTwice(es, frames, j)) <==> 3 <= frames <= 19
  {
    if 3 <= frames <= 19 {
      ShortRequestRepeatsTwice(frames);
    } else {
      forall es, j | Reachable(es) && frames > 0
        ensures !HeardThrice(frames, Clamp(Due(After(es), frames), frames), j)
      {
        if frames >= 20 {
          ReachableIsLegal(es);
          LongRequestsRepeatOnce(es, frames, j);
        }
      }
    }
  }

  /** A call for no frames can come while a correction is due. */
  lemma EmptyRequestWithCorrectionDue() returns (es: seq<Event>)
    ensures Tidy(es) && !After(es).hardSync && Due(After(es), 0) == -9
  {
    es := FromLongestToShortest();
    NineDue(After(es), 0);
  }
}
