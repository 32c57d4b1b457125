/** Clock synchronisation: the stamped Time exchange between client and server and
    the median filter that turns it into one clock offset
    (crates/snapcast-client/src/time_provider.rs and the Time arms of
    crates/snapcast-server/src/session.rs and crates/snapcast-client/src/controller.rs). */
module ClockSync {
  import opened Arith
  import opened MedianWindow
  import opened Timestamps
  import opened Wrappers

  const WINDOW_SIZE := 200
  const GAP_USEC := 60_000_000

  // ----- One exchange -----

  /** Not negative, and the whole seconds fit 32 bits. */
  predicate IsReading(usec: int) {
    0 <= usec && FitsI32(TruncDiv(usec, MILLION))
  }

  /** One Time exchange. `sent` and `received` are client clock readings,
      `reached` and `answered` server clock readings, all in microseconds;
      `at` is the instant the client books the sample. */
  datatype Exchange = Exchange(sent: int, reached: int, answered: int, received: int, at: int) {

    /** Every reading is one a monotonic clock gives and a timestamp can hold. */
    predicate Representable() {
      IsReading(sent) && IsReading(reached) && IsReading(answered) && IsReading(received)
    }

    /** Delay on the way to the server, if the server clock is ahead by theta. */
    function Forward(theta: real): real {
      (reached - sent) as real - theta
    }

    /** Delay on the way back. */
    function Backward(theta: real): real {
      (received - answered) as real + theta
    }

    /** The two delays differ by at most 2 * eps. */
    predicate Balanced(theta: real, eps: real) {
      -2.0 * eps <= Forward(theta) - Backward(theta) <= 2.0 * eps
    }

    /** The offset sample this exchange yields, in whole microseconds. */
    function Sample(): int {
      TruncReal(((reached - sent) - (received - answered)) as real / 2.0)
    }
  }

  /** v is less than eps + 1 away from theta. */
  predicate Near(v: int, theta: real, eps: real) {
    theta - eps - 1.0 < v as real < theta + eps + 1.0
  }

  /** A balanced exchange gives a sample less than eps + 1 away from the offset. */
  lemma BalancedSample(x: Exchange, theta: real, eps: real)
    requires x.Balanced(theta, eps)
    ensures Near(x.Sample(), theta, eps)
  {
    var exact := ((x.reached - x.sent) - (x.received - x.answered)) as real / 2.0;
    assert exact - theta == (x.Forward(theta) - x.Backward(theta)) / 2.0;
  }

  // ----- Runs of exchanges -----

  /** The exchanges that still count after a run: those since the last silence of
      more than a minute. */
  function Counted(run: seq<Exchange>): (s: seq<Exchange>) {
    if run == [] then []
    else
      var n := |run| - 1;
      if n > 0 && run[n].at - run[n - 1].at > GAP_USEC then [run[n]]
      else Counted(run[..n]) + [run[n]]
  }

  function Samples(xs: seq<Exchange>): (s: seq<int>)
    ensures |s| == |xs| && forall i :: 0 <= i < |xs| ==> s[i] == xs[i].Sample()
  {
    seq(|xs|, i requires 0 <= i < |xs| => xs[i].Sample())
  }

  /** The exchanges whose samples are in the window after a run. */
  function Window(run: seq<Exchange>): seq<Exchange> {
    var c := Counted(run);
    if |c| <= WINDOW_SIZE then c else c[|c| - WINDOW_SIZE..]
  }

  /** The offset published after a run. */
  function Estimate(run: seq<Exchange>): int {
    MedianOf(Samples(Window(run)))
  }

  /** No two consecutive exchanges are more than a minute apart. */
  predicate NoGap(run: seq<Exchange>) {
    forall i :: 1 <= i < |run| ==> run[i].at - run[i - 1].at <= 60_000_000
  }

  lemma CountedSnoc(run: seq<Exchange>, x: Exchange)
    ensures Counted(run + [x])
         == if run != [] && x.at - run[|run| - 1].at > 60_000_000 then [x] else Counted(run) + [x]
  {
    assert (run + [x])[..|run|] == run;
  }

  lemma {:induction false} CountedSinceGap(before: seq<Exchange>, since: seq<Exchange>)
    requires since != [] && NoGap(since)
    requires before != [] ==> since[0].at - before[|before| - 1].at > 60_000_000
    ensures Counted(before + since) == since
  {
    var earlier, x := since[..|since| - 1], since[|since| - 1];
    assert before + since == (before + earlier) + [x];
    CountedSnoc(before + earlier, x);
    if earlier != [] {
      CountedSinceGap(before, earlier);
      assert earlier[|earlier| - 1] == since[|since| - 2];
    }
  }

  /** The newest 200 exchanges since the last gap of more than 60,000,000 microseconds
      decide, in the order they came; what came before the gap does not. */
  lemma WindowInNumbers(before: seq<Exchange>, since: seq<Exchange>)
    requires since != [] && NoGap(since)
    requires before != [] ==> since[0].at - before[|before| - 1].at > 60_000_000
    ensures Window(before + since) == if |since| <= 200 then since else since[|since| - 200..]
    ensures |since| == 1 ==> Estimate(before + since) == since[0].Sample()
  {
    CountedSinceGap(before, since);
    if |since| == 1 {
      OnlyOne(Samples(since), since[0].Sample());
    }
  }

  lemma OnlyOne(s: seq<int>, v: int)
    requires s == [v]
    ensures MedianOf(s) == v
  {
    assert s[1..] == [];
    assert CountBelow(s, v) == 0 && CountBelow(s, v + 1) == 1;
    MedianRank(s, v);
  }

  function CountBalanced(xs: seq<Exchange>, theta: real, eps: real): nat {
    if xs == [] then 0
    else (if xs[0].Balanced(theta, eps) then 1 else 0) + CountBalanced(xs[1..], theta, eps)
  }

  lemma {:induction false} BalancedAreClose(xs: seq<Exchange>, theta: real, eps: real, lo: int, hi: int)
    requires forall v :: Near(v, theta, eps) ==> lo <= v <= hi
    ensures CountBalanced(xs, theta, eps) <= CountIn(Samples(xs), lo, hi)
  {
    if xs != [] {
      BalancedAreClose(xs[1..], theta, eps, lo, hi);
      assert Samples(xs)[1..] == Samples(xs[1..]);
      if xs[0].Balanced(theta, eps) {
        BalancedSample(xs[0], theta, eps);
        assert lo <= Samples(xs)[0] <= hi;
      }
    }
  }

  /** Clock-offset error bound: if a strict majority of the exchanges in the window
      are balanced within 2 * eps, the published offset is less than eps + 1
      microsecond from the true one, whatever the other exchanges were. */
  lemma OffsetErrorBound(run: seq<Exchange>, theta: real, eps: real)
    requires 2 * CountBalanced(Window(run), theta, eps) > |Window(run)|
    ensures Near(Estimate(run), theta, eps)
  {
    var lo := (theta - eps - 1.0).Floor + 1;
    var hi := -((-theta - eps - 1.0).Floor + 1);
    forall v | Near(v, theta, eps)
      ensures lo <= v <= hi
    {
      assert (-v) as real > -theta - eps - 1.0;
    }
    BalancedAreClose(Window(run), theta, eps, lo, hi);
    MedianInMajority(Samples(Window(run)), lo, hi);
  }

  /** A majority is needed: with only half of the exchanges balanced the published
      offset can be wrong by any amount two clocks can differ by. */
  lemma HalfIsNotEnough(error: nat, delay: nat, at: nat)
    requires error > 0 && IsReading(at + 2 * delay + 2 * error)
    ensures exists run: seq<Exchange> ::
              && (forall i :: 0 <= i < |run| ==> run[i].Representable())
              && 2 * CountBalanced(Window(run), 0.0, 0.0) == |Window(run)|
              && Estimate(run) == error
  {
    var good := Exchange(at, at + delay, at + delay, at + 2 * delay, at);
    var bad := Exchange(at, at + delay + 2 * error, at + delay + 2 * error, at + 2 * delay + 2 * error, at);
    EarlierReadings(at + 2 * delay + 2 * error);
    assert good.Sample() == 0 && bad.Sample() == error;
    TwoExchanges(good, bad);
    var run := [good, bad];
    assert forall i :: 0 <= i < |run| ==> run[i].Representable();
    assert 2 * CountBalanced(Window(run), 0.0, 0.0) == |Window(run)|;
  }

  lemma EarlierReadings(usec: int)
    requires IsReading(usec)
    ensures forall u :: 0 <= u <= usec ==> IsReading(u)
  {
    forall u | 0 <= u <= usec
      ensures IsReading(u)
    {
      DivMono(u, usec, MILLION);
    }
  }

  lemma TwoExchanges(a: Exchange, b: Exchange)
    requires b.at - a.at <= GAP_USEC && a.Sample() < b.Sample()
    ensures Window([a, b]) == [a, b]
    ensures Estimate([a, b]) == b.Sample()
    ensures CountBalanced([a, b], 0.0, 0.0)
         == (if a.Balanced(0.0, 0.0) then 1 else 0) + (if b.Balanced(0.0, 0.0) then 1 else 0)
  {
    assert [a, b][..1] == [a];
    assert Counted([a]) == Counted([a][..0]) + [a];
    assert [a, b][1..] == [b];
    assert [b][1..] == [];
    var s := Samples([a, b]);
    var v := b.Sample();
    assert s == [a.Sample(), v];
    assert s[1..] == [v] && [v][1..] == [];
    assert CountBelow([v], v) == 0 && CountBelow([v], v + 1) == 1;
    assert CountBelow(s, v) == 1 && CountBelow(s, v + 1) == 2;
    MedianRank(s, v);
    assert CountBalanced([b], 0.0, 0.0) == if b.Balanced(0.0, 0.0) then 1 else 0;
  }

  // ----- The filter object -----

  class TimeProvider {
    const diffBuffer: DoubleBuffer
    var diffToServerUsec: int
    var lastSync: Option<int>
    /** Samples booked since the window was last cleared. */
    ghost var booked: seq<int>

    ghost predicate Valid()
      reads this, diffBuffer
    {
      && diffBuffer.capacity == WINDOW_SIZE
      && diffBuffer.buf == LastN(booked, WINDOW_SIZE)
      && (booked == [] <==> lastSync.None?)
      && diffToServerUsec == MedianOf(diffBuffer.buf)
    }

    constructor ()
      ensures Valid() && booked == [] && lastSync.None? && fresh(diffBuffer)
    {
      diffBuffer := new DoubleBuffer(WINDOW_SIZE);
      diffToServerUsec := 0;
      lastSync := None;
      booked := [];
    }

    /** Book a sample taken at instant `now`. */
    method SetDiffMs(ms: real, now: int)
      requires Valid()
      modifies this, diffBuffer
      ensures Valid() && lastSync == Some(now)
      ensures booked
           == (if old(lastSync).Some? && now - old(lastSync).value > GAP_USEC then [] else old(booked))
              + [TruncReal(ms * 1000.0)]
    {
      if lastSync.Some? && now - lastSync.value > GAP_USEC && diffBuffer.buf != [] {
        diffToServerUsec := TruncReal(ms * 1000.0);
        diffBuffer.Clear();
        booked := [];
      }
      lastSync := Some(now);

      diffBuffer.Add(TruncReal(ms * 1000.0));
      booked := booked + [TruncReal(ms * 1000.0)];
      var median := diffBuffer.MedianSimple();
      diffToServerUsec := median;
    }

    /** Book the latency pair of one exchange. */
    method SetDiff(c2s: Timeval, s2c: Timeval, now: int)
      requires Valid()
      modifies this, diffBuffer
      ensures Valid() && lastSync == Some(now)
      ensures booked
           == (if old(lastSync).Some? && now - old(lastSync).value > GAP_USEC then [] else old(booked))
              + [TruncReal((c2s.ToUsec() - s2c.ToUsec()) as real / 2.0)]
    {
      var diffMs := (c2s.sec as real / 2.0 - s2c.sec as real / 2.0) * 1000.0
                    + (c2s.usec as real / 2.0 - s2c.usec as real / 2.0) / 1000.0;
      assert diffMs * 1000.0 == (c2s.ToUsec() - s2c.ToUsec()) as real / 2.0;
      SetDiffMs(diffMs, now);
    }
  }

  // ----- The protocol -----

  /** The server's answer to a Time message: how long the request took, by the two
      clocks as read. */
  method AnswerTime(received: Timeval, sent: Timeval) returns (latency: Timeval)
    requires received.Fits() && sent.Fits()
    ensures latency == received.Minus(sent)
  {
    latency := received.Sub(sent);
  }

  /** The client's handling of the answer. */
  method HandleTime(provider: TimeProvider, latency: Timeval, received: Timeval, sent: Timeval, now: int)
    requires provider.Valid() && received.Fits() && sent.Fits()
    modifies provider, provider.diffBuffer
    ensures provider.Valid() && provider.lastSync == Some(now)
    ensures provider.booked
         == (if old(provider.lastSync).Some? && now - old(provider.lastSync).value > GAP_USEC
             then [] else old(provider.booked))
            + [TruncReal((latency.ToUsec() - received.Minus(sent).ToUsec()) as real / 2.0)]
  {
    var s2c := received.Sub(sent);
    provider.SetDiff(latency, s2c, now);
  }

  /** The messages of one exchange: the server answers, the client books. */
  method Relay(provider: TimeProvider, sent: Timeval, reached: Timeval, answered: Timeval, received: Timeval, at: int,
               ghost forth: int, ghost back: int)
    requires provider.Valid() && sent.Fits() && reached.Fits() && answered.Fits() && received.Fits()
    requires reached.Minus(sent).ToUsec() == forth && received.Minus(answered).ToUsec() == back
    modifies provider, provider.diffBuffer
    ensures provider.Valid() && provider.lastSync == Some(at)
    ensures provider.booked
         == (if old(provider.lastSync).Some? && at - old(provider.lastSync).value > GAP_USEC
             then [] else old(provider.booked))
            + [TruncReal((forth - back) as real / 2.0)]
  {
    var latency := AnswerTime(reached, sent);
    HandleTime(provider, latency, received, answered, at);
  }

  /** One exchange: the client stamps `sent`, the server answers with the latency
      it saw and stamps `answered`, the client stamps `received` and books. */
  method RunExchange(provider: TimeProvider, x: Exchange)
    requires provider.Valid() && x.Representable()
    modifies provider, provider.diffBuffer
    ensures provider.Valid() && provider.lastSync == Some(x.at)
    ensures provider.booked
         == (if old(provider.lastSync).Some? && x.at - old(provider.lastSync).value > GAP_USEC
             then [] else old(provider.booked))
            + [x.Sample()]
  {
    var sent, reached := StampMessage(x.sent, x.reached);
    var answered, received := StampMessage(x.answered, x.received);
    Relay(provider, sent, reached, answered, received, x.at, x.reached - x.sent, x.received - x.answered);
  }

  /** The stamps a message gets when it is sent and when it arrives. */
  method StampMessage(sentUsec: int, receivedUsec: int) returns (sent: Timeval, received: Timeval)
    requires IsReading(sentUsec) && IsReading(receivedUsec)
    ensures sent.Fits() && received.Fits()
    ensures received.Minus(sent).ToUsec() == receivedUsec - sentUsec
  {
    ReadingsSubtract(receivedUsec, sentUsec);
    sent, received := Timeval.FromUsec(sentUsec), Timeval.FromUsec(receivedUsec);
  }

  /** Every run of exchanges, played through the messages both sides stamp, leaves
      the client publishing exactly Estimate(run). */
  method Synchronise(run: seq<Exchange>) returns (offset: int)
    requires forall i :: 0 <= i < |run| ==> run[i].Representable()
    ensures offset == Estimate(run)
  {
    var provider := new TimeProvider();
    for i := 0 to |run|
      invariant provider.Valid() && fresh(provider) && fresh(provider.diffBuffer)
      invariant provider.booked == Samples(Counted(run[..i]))
      invariant provider.lastSync == if i == 0 then None else Some(run[i - 1].at)
    {
      CountedStep(run, i);
      RunExchange(provider, run[i]);
    }
    assert run[..|run|] == run;
    offset := provider.diffToServerUsec;
    assert LastN(Samples(Counted(run)), WINDOW_SIZE) == Samples(Window(run));
  }

  lemma CountedStep(run: seq<Exchange>, i: nat)
    requires i < |run|
    ensures Samples(Counted(run[..i + 1]))
         == (if i > 0 && run[i].at - run[i - 1].at > GAP_USEC then [] else Samples(Counted(run[..i])))
            + [run[i].Sample()]
  {
    assert run[..i + 1][..i] == run[..i];
    assert run[..0] == [];
  }
}
