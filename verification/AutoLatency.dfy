/** Automatic latency increase after repeated underruns. Times are nanoseconds of one monotone clock. */
module AutoLatency {
  import opened Points

  const SAMPLE_WINDOW := 2_000_000_000
  const RAISE_INTERVAL := 3_000_000_000

  datatype Latency = Latency(ms: nat, lastIncrease: int, lastSample: int, accumulated: nat)

  /** One shortfall reported by the point callback. */
  datatype Underrun = Underrun(now: int, missing: nat, minimumRequired: nat, targetPoints: nat)

  function Threshold(u: Underrun): nat {
    Max(u.minimumRequired / 2, Max(100, u.targetPoints / 3))
  }

  function OnUnderrun(enabled: bool, maxMs: nat, s: Latency, u: Underrun): Latency {
    if !enabled || u.minimumRequired == 0 then s
    else
      var carried := if u.now - s.lastSample > SAMPLE_WINDOW then 0 else s.accumulated;
      var sampled := s.(lastSample := u.now, accumulated := carried + u.missing);
      if u.now - s.lastIncrease < RAISE_INTERVAL then sampled
      else if sampled.accumulated < Threshold(u) then sampled
      else if s.ms >= maxMs then sampled.(accumulated := 0)
      else sampled.(ms := Min(maxMs, s.ms + Max(10, s.ms / 10)), lastIncrease := u.now, accumulated := 0)
  }

  function Run(enabled: bool, maxMs: nat, s: Latency, us: seq<Underrun>): Latency {
    if us == [] then s
    else OnUnderrun(enabled, maxMs, Run(enabled, maxMs, s, us[..|us| - 1]), us[|us| - 1])
  }

  /** Underrun `k` of the run raised the latency. */
  predicate Raised(enabled: bool, maxMs: nat, s: Latency, us: seq<Underrun>, k: nat)
    requires k < |us|
  {
    Run(enabled, maxMs, s, us[..k + 1]).ms != Run(enabled, maxMs, s, us[..k]).ms
  }

  function RaiseCount(enabled: bool, maxMs: nat, s: Latency, us: seq<Underrun>): nat {
    if us == [] then 0
    else RaiseCount(enabled, maxMs, s, us[..|us| - 1])
         + if Raised(enabled, maxMs, s, us, |us| - 1) then 1 else 0
  }

  function Missing(us: seq<Underrun>): nat {
    if us == [] then 0 else Missing(us[..|us| - 1]) + us[|us| - 1].missing
  }

  /** Latency stays between its start and the cap, and at most ceil((cap - start) / 10) raises happen. */
  lemma {:induction false} LatencyBounds(enabled: bool, maxMs: nat, s: Latency, us: seq<Underrun>)
    requires s.ms <= maxMs
    ensures s.ms <= Run(enabled, maxMs, s, us).ms <= maxMs
    ensures RaiseCount(enabled, maxMs, s, us)
         <= (maxMs - s.ms + 9) / 10 - (maxMs - Run(enabled, maxMs, s, us).ms + 9) / 10
    ensures RaiseCount(enabled, maxMs, s, us) <= (maxMs - s.ms + 9) / 10
  {
    if us != [] {
      LatencyBounds(enabled, maxMs, s, us[..|us| - 1]);
      assert us[..|us| - 1 + 1] == us;
    }
  }

  lemma {:induction false} LatencyNeverDecreases(enabled: bool, maxMs: nat, s: Latency, us: seq<Underrun>, j: nat, k: nat)
    requires s.ms <= maxMs && j <= k <= |us|
    ensures Run(enabled, maxMs, s, us[..j]).ms <= Run(enabled, maxMs, s, us[..k]).ms
    decreases k
  {
    if j < k {
      LatencyNeverDecreases(enabled, maxMs, s, us, j, k - 1);
      LatencyBounds(enabled, maxMs, s, us[..k - 1]);
      assert us[..k][..k - 1] == us[..k - 1];
    }
  }

  /** The clock of the last raise is the start value or the time of some earlier raise of the run. */
  lemma {:induction false} LastIncreaseIsLastRaise(enabled: bool, maxMs: nat, s: Latency, us: seq<Underrun>, j: nat)
    requires s.ms <= maxMs && j < |us|
    requires Raised(enabled, maxMs, s, us, j)
    requires forall k :: j < k < |us| ==> !Raised(enabled, maxMs, s, us, k)
    ensures Run(enabled, maxMs, s, us).lastIncrease == us[j].now
    decreases |us|
  {
    var n := |us| - 1;
    var front := us[..n];
    LatencyBounds(enabled, maxMs, s, front);
    assert us[..n + 1] == us;
    RaiseSetsClock(enabled, maxMs, Run(enabled, maxMs, s, front), us[n]);
    if j < n {
      QuietInPrefix(enabled, maxMs, s, us, j);
      LastIncreaseIsLastRaise(enabled, maxMs, s, front, j);
      assert !Raised(enabled, maxMs, s, us, n);
    }
  }

  lemma QuietInPrefix(enabled: bool, maxMs: nat, s: Latency, us: seq<Underrun>, j: nat)
    requires j < |us| - 1 && Raised(enabled, maxMs, s, us, j)
    requires forall k :: j < k < |us| ==> !Raised(enabled, maxMs, s, us, k)
    ensures var front := us[..|us| - 1];
      Raised(enabled, maxMs, s, front, j) && forall k :: j < k < |front| ==> !Raised(enabled, maxMs, s, front, k)
  {
    var n := |us| - 1;
    RaisedInPrefix(enabled, maxMs, s, us, n, j);
    forall k | j < k < n ensures !Raised(enabled, maxMs, s, us[..n], k) {
      RaisedInPrefix(enabled, maxMs, s, us, n, k);
    }
  }

  lemma RaiseSetsClock(enabled: bool, maxMs: nat, s: Latency, u: Underrun)
    ensures var after := OnUnderrun(enabled, maxMs, s, u);
      if after.ms == s.ms then after.lastIncrease == s.lastIncrease else after.lastIncrease == u.now
  {}

  lemma RaisedInPrefix(enabled: bool, maxMs: nat, s: Latency, us: seq<Underrun>, n: nat, k: nat)
    requires k < n <= |us|
    ensures Raised(enabled, maxMs, s, us[..n], k) == Raised(enabled, maxMs, s, us, k)
  {
    assert us[..n][..k + 1] == us[..k + 1] && us[..n][..k] == us[..k];
  }

  /** Two consecutive raises are at least three seconds apart. */
  lemma {:induction false} RaisesAreSpaced(enabled: bool, maxMs: nat, s: Latency, us: seq<Underrun>, j: nat, k: nat)
    requires s.ms <= maxMs && j < k < |us|
    requires Raised(enabled, maxMs, s, us, j) && Raised(enabled, maxMs, s, us, k)
    requires forall l :: j < l < k ==> !Raised(enabled, maxMs, s, us, l)
    ensures us[k].now - us[j].now >= RAISE_INTERVAL
  {
    var front := us[..k];
    forall l | 0 <= l < k ensures Raised(enabled, maxMs, s, front, l) == Raised(enabled, maxMs, s, us, l) {
      RaisedInPrefix(enabled, maxMs, s, us, k, l);
    }
    LastIncreaseIsLastRaise(enabled, maxMs, s, front, j);
    assert us[..k + 1][..k] == front;
  }

  /** Underruns `from..` of the run form one burst: counted, close together, and not interrupted by a raise. */
  predicate Burst(enabled: bool, maxMs: nat, s: Latency, us: seq<Underrun>, from: nat) {
    && from <= |us|
    && (forall k :: from < k < |us| ==> us[k].minimumRequired > 0 ==>
          us[k].now - Run(enabled, maxMs, s, us[..k]).lastSample <= SAMPLE_WINDOW)
    && (forall k :: from <= k < |us| ==> !Raised(enabled, maxMs, s, us, k))
  }

  lemma BurstGrows(maxMs: nat, s: Latency, us: seq<Underrun>, from: nat)
    requires us != [] && from < |us|
    requires Burst(true, maxMs, s, us[..|us| - 1], from)
    requires !Raised(true, maxMs, s, us, |us| - 1)
    requires from < |us| - 1 ==>
               us[|us| - 1].now - Run(true, maxMs, s, us[..|us| - 1]).lastSample <= SAMPLE_WINDOW
    ensures Burst(true, maxMs, s, us, from)
  {
    var front := us[..|us| - 1];
    forall k | from <= k < |us| ensures !Raised(true, maxMs, s, us, k) {
      if k < |front| {
        RaisedInPrefix(true, maxMs, s, us, |front|, k);
        assert !Raised(true, maxMs, s, front, k);
      }
    }
    forall k | from < k < |us| && us[k].minimumRequired > 0
      ensures us[k].now - Run(true, maxMs, s, us[..k]).lastSample <= SAMPLE_WINDOW
    {
      if k < |front| {
        assert front[..k] == us[..k] && front[k] == us[k];
      }
    }
  }

  /** What one underrun does to the accumulated shortfall. */
  lemma AccumulatedStep(maxMs: nat, s: Latency, u: Underrun)
    requires u.minimumRequired > 0
    ensures var sampled := (if u.now - s.lastSample > SAMPLE_WINDOW then 0 else s.accumulated) + u.missing;
            var after := OnUnderrun(true, maxMs, s, u);
            after.accumulated == 0 || (after.accumulated == sampled && after.ms == s.ms)
  {}

  lemma {:induction false} AccumulatedIsABurst(maxMs: nat, s: Latency, us: seq<Underrun>) returns (from: nat)
    requires s.accumulated == 0
    requires forall k :: 0 <= k < |us| ==> us[k].minimumRequired > 0
    ensures Burst(true, maxMs, s, us, from)
    ensures Run(true, maxMs, s, us).accumulated == Missing(us[from..])
  {
    if us == [] {
      return 0;
    }
    var n := |us| - 1;
    var front, u := us[..n], us[n];
    from := AccumulatedIsABurst(maxMs, s, front);
    var before := Run(true, maxMs, s, front);
    AccumulatedStep(maxMs, before, u);
    if Run(true, maxMs, s, us).accumulated == 0 {
      return |us|;
    }
    if u.now - before.lastSample > SAMPLE_WINDOW {
      from := n;
    }
    assert us[..n + 1] == us;
    MissingOneMore(us, from, n);
    BurstGrows(maxMs, s, us, from);
  }

  /** A raise happens only when one burst of close shortfalls, the raising one included, adds up to the threshold. */
  lemma RaiseNeedsThreshold(maxMs: nat, s: Latency, us: seq<Underrun>, k: nat) returns (from: nat)
    requires s.accumulated == 0 && k < |us|
    requires forall l :: 0 <= l < |us| ==> us[l].minimumRequired > 0
    requires Raised(true, maxMs, s, us, k)
    ensures from <= k && Burst(true, maxMs, s, us[..k], from)
    ensures Missing(us[from..k + 1]) >= Threshold(us[k])
    ensures from < k ==> us[k].now - Run(true, maxMs, s, us[..k]).lastSample <= SAMPLE_WINDOW
  {
    var front := us[..k];
    from := AccumulatedIsABurst(maxMs, s, front);
    var before := Run(true, maxMs, s, front);
    assert us[..k + 1][..k] == front;
    RaiseReaches(maxMs, before, us[k]);
    if us[k].now - before.lastSample > SAMPLE_WINDOW {
      from := k;
    }
    MissingOneMore(us, from, k);
  }

  lemma RaiseReaches(maxMs: nat, s: Latency, u: Underrun)
    requires OnUnderrun(true, maxMs, s, u).ms != s.ms
    ensures (if u.now - s.lastSample > SAMPLE_WINDOW then 0 else s.accumulated) + u.missing >= Threshold(u)
  {}

  lemma MissingOneMore(us: seq<Underrun>, from: nat, k: nat)
    requires from <= k < |us|
    ensures Missing(us[from..k + 1]) == Missing(us[..k][from..]) + us[k].missing
  {
    assert us[from..k + 1][..k - from] == us[..k][from..];
  }

  // --- one shortfall, exactly ---

  /** Shortfall carried over from a sample at most two seconds old, and the new one. */
  function Total(s: Latency, u: Underrun): nat {
    if u.now - s.lastSample > 2_000_000_000 then u.missing else s.accumulated + u.missing
  }

  /** Three seconds since the last raise, and enough points missing to act on. */
  predicate Overdue(s: Latency, u: Underrun) {
    && u.now - s.lastIncrease >= 3_000_000_000
    && Total(s, u) >= 100 && Total(s, u) >= u.minimumRequired / 2 && Total(s, u) >= u.targetPoints / 3
  }

  /**
   * What a shortfall may do to the latency. It raises it if and only if it is overdue and the cap is not reached,
   * by a tenth but at least 10 ms, up to the cap; it always restarts the sample window, and the sum starts again
   * whenever it was enough to act on.
   */
  predicate RightAfter(enabled: bool, maxMs: nat, s: Latency, u: Underrun, after: Latency) {
    if !enabled || u.minimumRequired == 0 then after == s
    else
      && (after.ms != s.ms <==> Overdue(s, u) && s.ms < maxMs)
      && (after.ms != s.ms ==> after.ms <= maxMs && after.ms - s.ms <= Max(10, s.ms / 10)
                               && (after.ms == maxMs || after.ms - s.ms == Max(10, s.ms / 10)))
      && (after.ms != s.ms ==> after.ms > s.ms)
      && after.lastIncrease == (if after.ms != s.ms then u.now else s.lastIncrease)
      && after.lastSample == u.now
      && after.accumulated == (if Overdue(s, u) then 0 else Total(s, u))
  }

  /** There is one right outcome, and it is the one computed. */
  lemma OnlyRightAfter(enabled: bool, maxMs: nat, s: Latency, u: Underrun, after: Latency)
    ensures RightAfter(enabled, maxMs, s, u, after) <==> after == OnUnderrun(enabled, maxMs, s, u)
  {
    var right := OnUnderrun(enabled, maxMs, s, u);
    assert RightAfter(enabled, maxMs, s, u, right);
    if RightAfter(enabled, maxMs, s, u, after) {
      assert after.ms == right.ms && after.accumulated == right.accumulated;
    }
  }

  lemma RightAfterUnderrun(enabled: bool, maxMs: nat, s: Latency, u: Underrun)
    ensures RightAfter(enabled, maxMs, s, u, OnUnderrun(enabled, maxMs, s, u))
  {
    OnlyRightAfter(enabled, maxMs, s, u, OnUnderrun(enabled, maxMs, s, u));
  }

  /** A raise takes the latency to the lower of the cap and itself plus a tenth, at least 10 ms. */
  lemma RaiseExactly(maxMs: nat, s: Latency, u: Underrun)
    requires u.minimumRequired > 0 && Overdue(s, u) && s.ms < maxMs
    ensures OnUnderrun(true, maxMs, s, u)
         == Latency(Min(maxMs, s.ms + Max(10, s.ms / 10)), u.now, u.now, 0)
  {}
}
