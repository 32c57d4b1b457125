/** What soft sync and the mode machine come to, in the numbers the program is written
    with (crates/snapcast-client/src/stream.rs). */
module Steering {
  import opened Arith
  import opened MedianWindow
  import opened SyncControl

  // ----- What a call decides on -----

  /** The newest ages, at most so many. */
  function Newest(ages: seq<int>, n: nat): seq<int> {
    if |ages| <= n then ages else ages[|ages| - n..]
  }

  /** The four ways out of normal mode, for a call that measures `age` after `n` calls
      since the last alignment: the median of the newest 20 ages and the two medians
      last recomputed are `mini`, `short` and `long`. */
  predicate OutOfSync(n: nat, mini: int, short: int, long: int, age: int) {
    || Abs(age) > 500_000
    || (Abs(age) > 500
        && ((n >= 500 && Abs(long) > 2000) || (n >= 100 && Abs(short) > 5000) || (n >= 20 && Abs(mini) > 50_000)))
  }

  /** Late enough, by all three measures, to play faster. */
  predicate RunsLate(n: nat, mini: int, short: int, age: int) {
    n >= 100 && short > 100 && mini > 50 && age > 50
  }

  /** Early enough, by all three measures, to play slower. */
  predicate RunsEarly(n: nat, mini: int, short: int, age: int) {
    n >= 100 && short < -100 && mini < -50 && age < -50
  }

  lemma WindowsInNumbers(es: seq<Event>)
    ensures After(es).windows == Windows(Newest(Ages(es), 20), Newest(Ages(es), 100), Newest(Ages(es), 500))
  {
    WindowsFollowAges(es);
  }

  lemma NextEvent(es: seq<Event>, e: Event)
    ensures After(es + [e]) == Step(After(es), e)
    ensures Ages(es + [e]) == NextAges(Ages(es), e)
    ensures Legal(es + [e]) <==> Legal(es) && Enabled(After(es), e)
  {
    AfterAppend(es, e);
  }

  /** A normal-mode call ends in hard-sync mode exactly if one of the four triggers
      fires; in particular whenever it is off by more than half a second. */
  lemma HardSyncExactly(es: seq<Event>, e: Event)
    requires Legal(es + [e]) && e.Played?
    ensures var m := After(es).medians;
            After(es + [e]).hardSync
            <==> OutOfSync(|Ages(es)|, MedianOf(Newest(Ages(es), 20)), m.short, m.long, e.age)
    ensures Abs(e.age) > 500_000 ==> After(es + [e]).hardSync
  {
    NextEvent(es, e);
    WindowsInNumbers(es);
  }

  /** The interval a normal-mode call leaves behind: positive exactly if the stream is
      late, negative exactly if it is early, by all measures and without a hard sync;
      the shorter the larger the short-term median, from 101 microseconds to 1000. */
  lemma RateFollowsDrift(es: seq<Event>, e: Event)
    requires Legal(es + [e]) && e.Played?
    ensures var m := After(es).medians;
            var mini := MedianOf(Newest(Ages(es), 20));
            var interval := After(es + [e]).books.interval;
            && (interval > 0 <==> !After(es + [e]).hardSync && RunsLate(|Ages(es)|, mini, m.short, e.age))
            && (interval < 0 <==> !After(es + [e]).hardSync && RunsEarly(|Ages(es)|, mini, m.short, e.age))
            && (interval != 0 ==> Abs(interval) == Rounded(2_000_000, Min(Abs(m.short), 1000)))
  {
    NextEvent(es, e);
    WindowsInNumbers(es);
    if Abs(After(es).medians.short) > 100 {
      RoundedIsSoftEvery(After(es).medians.short);
    }
  }

  /** a / b, rounded to the nearest integer, halves up. */
  function Rounded(a: nat, b: nat): nat
    requires b > 0
  {
    (2 * a + b) / (2 * b)
  }

  lemma RoundedIsNearest(a: nat, b: nat)
    requires b > 0
    ensures 2 * b * Rounded(a, b) <= 2 * a + b < 2 * b * (Rounded(a, b) + 1)
  {
    DivBounds(2 * a + b, 2 * b);
  }

  lemma RoundedIsSoftEvery(m: int)
    requires Abs(m) > 100
    ensures SoftEvery(m) == Rounded(2_000_000, Min(Abs(m), 1000)) && SoftEvery(m) >= 2000
  {
    var k := Min(Abs(m), 1000);
    QuotRem(2 * 2_000_000 + k, 2 * k);
    SoftEveryBounds(m);
  }

  // ----- What a call takes -----

  /** The correction due and the frames carried over account for all frames counted:
      one frame per interval, and less than an interval is carried. */
  lemma CorrectionExactly(c: Control, frames: nat)
    ensures c.books.interval == 0 ==> Due(c, frames) == 0 && PlayedAfter(c, frames) == c.books.playedFrames
    ensures c.books.interval != 0 ==>
              && Due(c, frames) * c.books.interval + PlayedAfter(c, frames) == c.books.playedFrames + frames
              && 0 <= PlayedAfter(c, frames) < Abs(c.books.interval)
  {
    if c.books.interval != 0 {
      QuotRem(c.books.playedFrames + frames, Abs(c.books.interval));
    }
  }

  /** A call takes the frames requested, those due to be dropped more or those due to be
      repeated fewer, but at least one. */
  lemma WantedExactly(c: Control, frames: nat)
    requires frames > 0
    ensures Wanted(c, frames) == Max(frames + Due(c, frames), 1)
  {
  }

  lemma DueSign(c: Control, frames: nat)
    ensures Due(c, frames) > 0 ==> c.books.interval > 0
    ensures Due(c, frames) < 0 ==> c.books.interval < 0
  {
    CorrectionExactly(c, frames);
  }

  /** After a call a stream takes more source frames than requested only if the call was
      late, and fewer only if it was early, by more than 50 microseconds. */
  lemma CorrectsTowardsZero(es: seq<Event>, e: Event, frames: nat)
    requires Legal(es + [e]) && e.Played? && frames > 0
    ensures Due(After(es + [e]), frames) > 0 ==> e.age > 50
    ensures Due(After(es + [e]), frames) < 0 ==> e.age < -50
    ensures Wanted(After(es + [e]), frames) > frames ==> e.age > 50
    ensures Wanted(After(es + [e]), frames) < frames ==> e.age < -50
  {
    RateFollowsDrift(es, e);
    DueSign(After(es + [e]), frames);
  }

  // ----- A steady drift -----

  /** All ages measured since the last alignment are this one. */
  ghost predicate Steady(es: seq<Event>, drift: int) {
    forall i :: 0 <= i < |Ages(es)| ==> Ages(es)[i] == drift
  }

  lemma MedianOfConstant(s: seq<int>, v: int)
    requires s != [] && forall i :: 0 <= i < |s| ==> s[i] == v
    ensures MedianOf(s) == v
  {
    CountConstant(s, v);
    MedianInMajority(s, v, v);
  }

  lemma SteadyMedians(es: seq<Event>, drift: int)
    requires Legal(es) && Steady(es, drift) && Ages(es) != []
    ensures MedianOf(Newest(Ages(es), 20)) == drift
    ensures MeasuredAtRefresh(es) > 0 ==> After(es).medians.short == After(es).medians.long == drift
  {
    MedianOfConstant(Newest(Ages(es), 20), drift);
    MediansInForce(es);
    var k := MeasuredAtRefresh(es);
    if k > 0 {
      MedianOfConstant(LastN(Ages(es)[..k], BUFFER_SIZE), drift);
      MedianOfConstant(LastN(Ages(es)[..k], SHORT_BUFFER_SIZE), drift);
    }
  }

  /** A steady drift of 101 to 1000 microseconds, once it has lasted 100 calls and the
      medians have been recomputed since the alignment, sets one corrected frame per
      2,000,000 / drift frames, rounded: dropped if the stream is late, repeated if it is
      early, however the calls were spaced. */
  lemma SteadyDriftIsCorrected(es: seq<Event>, e: Event, drift: int)
    requires Legal(es + [e]) && e.Played? && e.age == drift && Steady(es, drift) && 100 < Abs(drift) <= 1000
    requires |Ages(es)| >= 100 && MeasuredAtRefresh(es) > 0
    ensures !After(es + [e]).hardSync
    ensures After(es + [e]).books.interval
         == if drift > 0 then Rounded(2_000_000, drift) else 0 - Rounded(2_000_000, -drift)
  {
    SteadyMedians(es, drift);
    HardSyncExactly(es, e);
    RateFollowsDrift(es, e);
    NotInHardSync(es, e);
  }

  lemma NotInHardSync(es: seq<Event>, e: Event)
    requires Legal(es + [e]) && e.Played?
    ensures !After(es).hardSync
  {
    NextEvent(es, e);
  }

  /** So a later call for at least an interval takes more frames than requested from a
      stream that is late, and fewer from one that is early. */
  lemma SteadyDriftTakesMore(es: seq<Event>, e: Event, drift: int, frames: nat)
    requires Legal(es + [e]) && e.Played? && e.age == drift && Steady(es, drift) && 100 < Abs(drift) <= 1000
    requires |Ages(es)| >= 100 && MeasuredAtRefresh(es) > 0 && frames >= Rounded(2_000_000, Abs(drift))
    ensures if drift > 0 then Wanted(After(es + [e]), frames) > frames else Wanted(After(es + [e]), frames) < frames
  {
    SteadyDriftIsCorrected(es, e, drift);
    RoundedIsSoftEvery(drift);
    AtLeastOneDue(After(es + [e]), frames);
  }

  lemma AtLeastOneDue(c: Control, frames: nat)
    requires Abs(c.books.interval) >= 2000 && frames >= Abs(c.books.interval)
    ensures if c.books.interval > 0 then Wanted(c, frames) > frames else Wanted(c, frames) < frames
  {
    var p, d := c.books.playedFrames + frames, Abs(c.books.interval);
    QuotRem(p, d);
    assert Quot(p, d) == Quot(p - d, d) + 1;
  }

  // ----- The medians -----

  /** A call recomputes the medians exactly if it comes in another second than the last
      recomputation, from the newest 500 and 100 ages with its own; the second it came
      in is remembered. */
  lemma MediansEverySecond(es: seq<Event>, e: Event)
    requires Legal(es + [e]) && e.Played?
    ensures var before, after := After(es).medians, After(es + [e]).medians;
            && after.lastLogSec == TruncDiv(e.now, 1_000_000)
            && (before.lastLogSec != TruncDiv(e.now, 1_000_000) ==>
                  && after.long == MedianOf(Newest(Ages(es) + [e.age], 500))
                  && after.short == MedianOf(Newest(Ages(es) + [e.age], 100)))
            && (before.lastLogSec == TruncDiv(e.now, 1_000_000) ==> after == before)
  {
    NextEvent(es, e);
    WindowsInNumbers(es + [e]);
  }

  /** The frames dropped and repeated are netted up until the medians are recomputed. */
  lemma DeltaCounts(es: seq<Event>, e: Event)
    requires Legal(es + [e]) && e.Played?
    ensures After(es + [e]).books.frameDelta
         == if After(es).medians.lastLogSec != TruncDiv(e.now, 1_000_000) then 0
            else After(es).books.frameDelta + e.frames - Wanted(After(es), e.frames)
    ensures After(es + [e]).books.playedFrames == PlayedAfter(After(es), e.frames)
  {
    NextEvent(es, e);
  }

  /** Clearing asks for a hard sync and keeps everything else; an alignment ends it and
      forgets the ages. */
  lemma OtherEvents(es: seq<Event>)
    ensures After(es + [Cleared]) == After(es).(hardSync := true)
    ensures After(es + [Aligned]) == After(es).(hardSync := false, windows := Windows([], [], []))
  {
    NextEvent(es, Cleared);
    NextEvent(es, Aligned);
  }

  lemma StartsAligning(es: seq<Event>)
    requires es == []
    ensures After(es).hardSync && Ages(es) == [] && After(es).books == Books(0, 0, 0)
    ensures After(es).medians == Medians(0, 0, 0) && After(es).windows == Windows([], [], [])
  {
  }
}
