/** The bounded window of measurements behind every drift and clock estimate
    (crates/snapcast-client/src/double_buffer.rs). */
module MedianWindow {
  import opened Arith

  // ----- The window as a value -----

  /** The window after one more value: the oldest is dropped when it is full. */
  function Push(window: seq<int>, capacity: nat, value: int): seq<int> {
    (if |window| >= capacity && |window| > 0 then window[1..] else window) + [value]
  }

  function PushAll(window: seq<int>, capacity: nat, values: seq<int>): seq<int> {
    if values == [] then window
    else Push(PushAll(window, capacity, values[..|values| - 1]), capacity, values[|values| - 1])
  }

  /** The last n entries of a history, or all of it when it is shorter. */
  function LastN(history: seq<int>, n: nat): seq<int> {
    if |history| <= n then history else history[|history| - n..]
  }

  predicate IsSorted(s: seq<int>) {
    forall i, j :: 0 <= i < j < |s| ==> s[i] <= s[j]
  }

  function Insert(s: seq<int>, x: int): (r: seq<int>)
    ensures |r| == |s| + 1
  {
    if s == [] || x <= s[0] then [x] + s else [s[0]] + Insert(s[1..], x)
  }

  /** What the library sort returns. */
  function Sorted(s: seq<int>): (r: seq<int>)
    ensures |r| == |s|
  {
    if s == [] then [] else Insert(Sorted(s[1..]), s[0])
  }

  function Sum(s: seq<int>): int {
    if s == [] then 0 else s[0] + Sum(s[1..])
  }

  /** How many entries lie in [lo, hi]. */
  function CountIn(s: seq<int>, lo: int, hi: int): nat {
    if s == [] then 0 else (if lo <= s[0] <= hi then 1 else 0) + CountIn(s[1..], lo, hi)
  }

  /** How many entries are below v. */
  function CountBelow(s: seq<int>, v: int): nat {
    if s == [] then 0 else (if s[0] < v then 1 else 0) + CountBelow(s[1..], v)
  }

  /** v has rank k in s: at most k entries lie strictly below it, and more than k
      lie at or below it. At most one value has a given rank. */
  predicate HasRank(s: seq<int>, k: nat, v: int) {
    CountBelow(s, v) <= k < CountBelow(s, v + 1)
  }

  /** The entry of rank k, counting from 0 in ascending order. */
  function OrderStatistic(s: seq<int>, k: nat): int
    requires k < |s|
  {
    Sorted(s)[k]
  }

  /** The plain median; an empty window reports 0. */
  function MedianOf(s: seq<int>): int {
    if s == [] then 0 else OrderStatistic(s, |s| / 2)
  }

  /** Whether averaging mean_count values around the middle stays inside the window. */
  predicate MeanInRange(length: nat, meanCount: nat) {
    meanCount <= 1 || length < meanCount || length / 2 + meanCount / 2 < length
  }

  class DoubleBuffer {
    const capacity: nat
    var buf: seq<int>

    constructor (capacity: nat)
      ensures this.capacity == capacity && buf == []
    {
      this.capacity := capacity;
      buf := [];
    }

    method Add(value: int)
      modifies this
      ensures buf == Push(old(buf), capacity, value)
    {
      if |buf| >= capacity {
        if buf != [] {
          buf := buf[1..];
        }
      }
      buf := buf + [value];
    }

    method Median(meanCount: nat) returns (m: int)
      requires MeanInRange(|buf|, meanCount)
      ensures buf == [] ==> m == 0
      ensures buf != [] && (meanCount <= 1 || |buf| < meanCount) ==> m == MedianOf(buf)
      ensures 1 < meanCount <= |buf| ==>
                m == TruncDiv(Sum(Sorted(buf)[|buf| / 2 - meanCount / 2..|buf| / 2 + meanCount / 2 + 1]), meanCount)
      ensures 1 < meanCount <= |buf| && meanCount % 2 == 1 ==>
                OrderStatistic(buf, |buf| / 2 - meanCount / 2) <= m <= OrderStatistic(buf, |buf| / 2 + meanCount / 2)
    {
      if buf == [] {
        return 0;
      }
      var sorted := Sorted(buf);
      if meanCount <= 1 || |sorted| < meanCount {
        m := sorted[|sorted| / 2];
      } else {
        var mid := |sorted| / 2;
        var half := meanCount / 2;
        var low := mid - half;
        var high := mid + half;
        var sum := Sum(sorted[low..high + 1]);
        m := TruncDiv(sum, meanCount);
        if meanCount % 2 == 1 {
          MiddleAverage(buf, low, high, meanCount);
        }
      }
    }

    method MedianSimple() returns (m: int)
      ensures m == MedianOf(buf)
    {
      m := Median(1);
    }

    method Clear()
      modifies this
      ensures buf == []
    {
      buf := [];
    }

    predicate Full()
      reads this
    {
      |buf| >= capacity
    }
  }

  // ----- Windows and histories -----

  lemma PushLastN(h: seq<int>, n: nat, v: int)
    requires n > 0
    ensures Push(LastN(h, n), n, v) == LastN(h + [v], n)
  {
    if |h| >= n {
      assert LastN(h, n)[1..] == h[|h| - n + 1..];
      assert (h + [v])[|h| + 1 - n..] == h[|h| - n + 1..] + [v];
    }
  }

  /** A buffer of capacity 0 holds one value all the same. */
  lemma PushAtZero(h: seq<int>, v: int)
    ensures Push(LastN(h, 1), 0, v) == Push(LastN(h, 1), 1, v)
  {
  }

  /** However many values have been added since the last clear, the window holds
      exactly the newest of them. A buffer of capacity 0 still holds one. */
  lemma {:induction false} WindowIsLastN(capacity: nat, history: seq<int>)
    ensures PushAll([], capacity, history) == LastN(history, Max(capacity, 1))
  {
    if history != [] {
      var n := |history| - 1;
      WindowIsLastN(capacity, history[..n]);
      PushLastN(history[..n], Max(capacity, 1), history[n]);
      PushAtZero(history[..n], history[n]);
      assert history == history[..n] + [history[n]];
    }
  }

  /** Two windows over one history: the smaller one is a suffix of the larger. */
  lemma SmallerWindowIsSuffix(history: seq<int>, small: nat, large: nat)
    requires small <= large
    ensures LastN(LastN(history, large), small) == LastN(history, small)
  {
  }

  // ----- Sorting -----

  lemma {:induction false} InsertKeeps(s: seq<int>, x: int)
    requires IsSorted(s)
    ensures IsSorted(Insert(s, x))
    ensures forall lo, hi :: CountIn(Insert(s, x), lo, hi) == CountIn([x] + s, lo, hi)
    ensures forall v :: CountBelow(Insert(s, x), v) == CountBelow([x] + s, v)
    ensures forall y :: y in Insert(s, x) ==> y == x || y in s
  {
    assert ([x] + s)[1..] == s;
    if s == [] || x <= s[0] {
    } else {
      InsertKeeps(s[1..], x);
      var t := Insert(s[1..], x);
      assert ([x] + s[1..])[1..] == s[1..];
      assert ([s[0]] + t)[1..] == t;
      forall y | y in t ensures s[0] <= y {
      }
    }
  }

  lemma {:induction false} SortedKeeps(s: seq<int>)
    ensures IsSorted(Sorted(s))
    ensures forall lo, hi :: CountIn(Sorted(s), lo, hi) == CountIn(s, lo, hi)
    ensures forall v :: CountBelow(Sorted(s), v) == CountBelow(s, v)
  {
    if s != [] {
      SortedKeeps(s[1..]);
      InsertKeeps(Sorted(s[1..]), s[0]);
      assert ([s[0]] + Sorted(s[1..]))[1..] == Sorted(s[1..]);
    }
  }

  /** In a sorted list, an index splits the list around any value. */
  lemma {:induction false} CountBelowSorted(t: seq<int>, k: nat, v: int)
    requires IsSorted(t) && k <= |t|
    ensures (k < |t| && v <= t[k]) ==> CountBelow(t, v) <= k
    ensures (k > 0 && t[k - 1] < v) ==> CountBelow(t, v) >= k
  {
    if t != [] {
      if k == 0 {
        if v <= t[0] {
          CountBelowSorted(t[1..], 0, v);
          if |t| > 1 {
            assert t[1..][0] == t[1];
          }
        }
      } else {
        CountBelowSorted(t[1..], k - 1, v);
        assert k < |t| ==> t[1..][k - 1] == t[k];
        assert k > 1 ==> t[1..][k - 2] == t[k - 1];
        assert k > 1 ==> t[0] <= t[k - 1];
      }
    }
  }

  /** The k-th entry of the sorted window is its order statistic of rank k. */
  lemma SortedRank(s: seq<int>, k: nat)
    requires k < |s|
    ensures HasRank(s, k, OrderStatistic(s, k))
  {
    SortedKeeps(s);
    var t := Sorted(s);
    CountBelowSorted(t, k, t[k]);
    CountBelowSorted(t, k + 1, t[k] + 1);
  }

  lemma {:induction false} CountBelowMono(s: seq<int>, u: int, v: int)
    requires u <= v
    ensures CountBelow(s, u) <= CountBelow(s, v)
    decreases |s|
  {
    if s != [] {
      CountBelowMono(s[1..], u, v);
    }
  }

  lemma RankIsUnique(s: seq<int>, k: nat, u: int, v: int)
    requires HasRank(s, k, u) && HasRank(s, k, v)
    ensures u == v
  {
    if u < v {
      CountBelowMono(s, u + 1, v);
    } else if v < u {
      CountBelowMono(s, v + 1, u);
    }
  }

  // ----- What the median promises -----

  /** The median is the order statistic of rank floor(length / 2). */
  lemma MedianRank(s: seq<int>, m: int)
    requires s != []
    ensures m == MedianOf(s) <==> HasRank(s, |s| / 2, m)
  {
    SortedRank(s, |s| / 2);
    if HasRank(s, |s| / 2, m) {
      RankIsUnique(s, |s| / 2, m, MedianOf(s));
    }
  }

  lemma RemoveMatching(a: seq<int>, b: seq<int>, j: nat)
    requires a != [] && j < |b| && b[j] == a[0]
    requires multiset(a) == multiset(b)
    ensures multiset(a[1..]) == multiset(b[..j] + b[j + 1..])
  {
    assert a == [a[0]] + a[1..];
    assert b == b[..j] + [b[j]] + b[j + 1..];
    var m := multiset(b[..j]) + multiset(b[j + 1..]);
    assert multiset(a) == multiset{a[0]} + multiset(a[1..]);
    assert multiset(b) == multiset{a[0]} + m;
    forall x
      ensures multiset(a[1..])[x] == m[x]
    {
      assert multiset(a)[x] == multiset(b)[x];
    }
  }

  lemma {:induction false} CountBelowPermutation(a: seq<int>, b: seq<int>, v: int)
    requires multiset(a) == multiset(b)
    ensures CountBelow(a, v) == CountBelow(b, v)
  {
    if a == [] {
      assert |multiset(b)| == 0;
    } else {
      assert a[0] in multiset(b);
      var j :| 0 <= j < |b| && b[j] == a[0];
      RemoveMatching(a, b, j);
      CountBelowPermutation(a[1..], b[..j] + b[j + 1..], v);
      CountBelowConcat(b[..j], b[j + 1..], v);
      CountBelowSplit(b, j, v);
    }
  }

  lemma CountBelowSplit(b: seq<int>, j: nat, v: int)
    requires j < |b|
    ensures CountBelow(b, v) == CountBelow(b[..j], v) + (if b[j] < v then 1 else 0) + CountBelow(b[j + 1..], v)
  {
    assert b == b[..j] + b[j..];
    CountBelowConcat(b[..j], b[j..], v);
    assert b[j..][1..] == b[j + 1..];
  }

  lemma {:induction false} CountBelowConcat(a: seq<int>, b: seq<int>, v: int)
    ensures CountBelow(a + b, v) == CountBelow(a, v) + CountBelow(b, v)
  {
    if a == [] {
      assert a + b == b;
    } else {
      assert (a + b)[1..] == a[1..] + b;
      CountBelowConcat(a[1..], b, v);
    }
  }

  /** The order in which measurements arrived does not matter. */
  lemma MedianIgnoresOrder(a: seq<int>, b: seq<int>)
    requires multiset(a) == multiset(b)
    ensures MedianOf(a) == MedianOf(b)
  {
    assert |a| == |multiset(a)| == |multiset(b)| == |b|;
    if a != [] {
      var m := MedianOf(a);
      MedianRank(a, m);
      CountBelowPermutation(a, b, m);
      CountBelowPermutation(a, b, m + 1);
      MedianRank(b, m);
    }
  }

  lemma {:induction false} CountInVersusBelow(s: seq<int>, lo: int, hi: int)
    requires lo <= hi + 1
    ensures CountIn(s, lo, hi) + CountBelow(s, lo) == CountBelow(s, hi + 1)
    ensures CountBelow(s, hi + 1) <= |s|
  {
    if s != [] {
      CountInVersusBelow(s[1..], lo, hi);
    }
  }

  /** A value of middle rank is not below a strict majority, nor above it. */
  lemma RankInMajority(s: seq<int>, lo: int, hi: int, m: int)
    requires lo <= hi && 2 * CountIn(s, lo, hi) > |s| && HasRank(s, |s| / 2, m)
    ensures lo <= m <= hi
  {
    CountInVersusBelow(s, lo, hi);
    if m < lo {
      CountBelowMono(s, m + 1, lo);
    } else if m > hi {
      CountBelowMono(s, hi + 1, m);
    }
  }

  /** Any interval holding a strict majority of the window holds its median,
      whatever the remaining entries are. */
  lemma MedianInMajority(s: seq<int>, lo: int, hi: int)
    requires 2 * CountIn(s, lo, hi) > |s|
    ensures lo <= MedianOf(s) <= hi
  {
    if lo > hi {
      EmptyIntervalCount(s, lo, hi);
    } else {
      assert s != [];
      SortedRank(s, |s| / 2);
      RankInMajority(s, lo, hi, MedianOf(s));
    }
  }

  lemma {:induction false} EmptyIntervalCount(s: seq<int>, lo: int, hi: int)
    requires lo > hi
    ensures CountIn(s, lo, hi) == 0
  {
    if s != [] {
      EmptyIntervalCount(s[1..], lo, hi);
    }
  }

  /** Averaging runs past the window exactly when mean_count is even and equals
      the number of stored values. */
  lemma MeanInRangeExactly(length: nat, meanCount: nat)
    requires length > 0
    ensures MeanInRange(length, meanCount) <==> !(meanCount > 0 && meanCount % 2 == 0 && meanCount == length)
  {
  }

  lemma {:induction false} SumBounds(s: seq<int>, lo: int, hi: int)
    requires forall i :: 0 <= i < |s| ==> lo <= s[i] <= hi
    ensures lo * |s| <= Sum(s) <= hi * |s|
  {
    if s != [] {
      SumBounds(s[1..], lo, hi);
      MulDistrib(|s| - 1, 1, lo);
      MulDistrib(|s| - 1, 1, hi);
    }
  }

  /** The truncated mean of a run of sorted values lies between its ends. */
  lemma RunAverage(t: seq<int>, low: nat, high: nat, n: nat)
    requires IsSorted(t) && low <= high < |t| && n == high + 1 - low
    ensures t[low] <= TruncDiv(Sum(t[low..high + 1]), n) <= t[high]
  {
    var run := t[low..high + 1];
    SumBounds(run, t[low], t[high]);
    AverageBetween(Sum(run), n, t[low], t[high]);
  }

  lemma MiddleAverage(s: seq<int>, low: nat, high: nat, n: nat)
    requires low <= high < |s| && n == high + 1 - low
    ensures OrderStatistic(s, low) <= TruncDiv(Sum(Sorted(s)[low..high + 1]), n) <= OrderStatistic(s, high)
  {
    SortedKeeps(s);
    RunAverage(Sorted(s), low, high, n);
  }

  lemma AverageBetween(sum: int, n: nat, lo: int, hi: int)
    requires n > 0 && lo * n <= sum <= hi * n
    ensures lo <= TruncDiv(sum, n) <= hi
  {
    if sum >= 0 {
      DivMono(sum, hi * n, n);
      DivMultiple(hi, n);
      DivMono(lo * n, sum, n);
      DivMultiple(lo, n);
    } else {
      DivMono(-sum, -lo * n, n);
      DivMultiple(-lo, n);
      DivMono(-hi * n, -sum, n);
      DivMultiple(-hi, n);
    }
  }
}
