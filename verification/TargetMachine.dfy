/**
 * Any number of threads on one target: submitters, resetters, status readers and hardware callbacks.
 * A run is any interleaving of their steps that respects the queue lock.
 */
module TargetMachine {
  import opened Points
  import opened AutoLatency
  import opened TargetState
  import opened TargetSteps
  import opened TargetInvariants

  datatype Machine = Machine(shared: Shared, threads: seq<Pc>)

  function InitialTarget(rate: nat, latency: Latency): Target {
    Target([], None, None, false, true, rate, rate, 0, latency, Stats(0, 0, 0, 0, 0, 0, 0, 0, 0, 0))
  }

  predicate Init(c: Config, m: Machine) {
    && (forall id :: 0 <= id < |m.threads| ==> m.threads[id] == Idle)
    && m.shared.target == InitialTarget(m.shared.target.rate, m.shared.target.latency)
    && m.shared.target.latency.ms <= c.maxLatencyMs && RatesInRange(c, m.shared.target)
    && m.shared.history == History({}, [], 0, [], 0, 0, 0, 0, m.shared.target.latency, [])
    && m.shared.lock.None?
  }

  predicate Enabled(m: Machine, id: nat) {
    id < |m.threads| && (Waits(m.threads[id]) ==> m.shared.lock.None?)
  }

  function Apply(c: Config, m: Machine, id: nat, e: Env): Machine
    requires ValidConfig(c) && Enabled(m, id)
  {
    var o := Step(c, id, m.shared, m.threads[id], e);
    Machine(o.shared.(now := e.now), m.threads[id := o.pc])
  }

  predicate StepOf(c: Config, m: Machine, m': Machine, id: nat, e: Env)
    requires ValidConfig(c)
  {
    Enabled(m, id) && m.shared.now <= e.now && m' == Apply(c, m, id, e)
  }

  ghost predicate Next(c: Config, m: Machine, m': Machine)
    requires ValidConfig(c)
  {
    exists id: nat, e: Env :: StepOf(c, m, m', id, e)
  }

  ghost predicate IsRun(c: Config, run: seq<Machine>)
    requires ValidConfig(c)
  {
    && |run| > 0 && Init(c, run[0])
    && forall i :: 0 <= i < |run| - 1 ==> StepAt(c, run, i)
  }

  ghost predicate StepAt(c: Config, run: seq<Machine>, i: nat)
    requires ValidConfig(c) && i + 1 < |run|
  {
    Next(c, run[i], run[i + 1])
  }

  function TotalInFlight(threads: seq<Pc>): nat {
    if threads == [] then 0 else TotalInFlight(threads[..|threads| - 1]) + InFlight(threads[|threads| - 1])
  }

  lemma {:induction false} InFlightChanges(threads: seq<Pc>, id: nat, pc: Pc)
    requires id < |threads|
    ensures TotalInFlight(threads[id := pc]) == TotalInFlight(threads) - InFlight(threads[id]) + InFlight(pc)
  {
    var n := |threads| - 1;
    if id == n {
      assert threads[id := pc][..n] == threads[..n];
    } else {
      assert threads[id := pc][..n] == threads[..n][id := pc];
      InFlightChanges(threads[..n], id, pc);
    }
  }

  predicate Locked(m: Machine) {
    && (m.shared.lock.Some? ==> m.shared.lock.value < |m.threads|)
    && forall id :: 0 <= id < |m.threads| ==> (Holds(m.threads[id]) <==> m.shared.lock == Some(id))
  }

  predicate Bounded(c: Config, m: Machine) {
    || |m.shared.target.queue| <= c.maxQueuedPoints
    || exists id :: 0 <= id < |m.threads| && MidDrop(m.threads[id])
  }

  predicate Conserved(m: Machine) {
    m.shared.target.stats.receivedPoints == Settled(m.shared) + TotalInFlight(m.threads)
  }

  predicate Inv(c: Config, m: Machine) {
    && Locked(m) && Bounded(c, m) && Conserved(m)
    && Ordered(m.shared) && Accounted(m.shared) && LatencyFollows(c, m.shared) && RatesInRange(c, m.shared.target)
    && m.shared.history.firstLatency.ms <= c.maxLatencyMs
    && (forall p :: p in m.shared.history.log ==> p in m.shared.history.offered)
    && forall id :: 0 <= id < |m.threads| ==>
         WellSized(c, m.shared, m.threads[id]) && FromOffers(m.shared, m.threads[id])
  }

  lemma {:induction false} InitInFlight(threads: seq<Pc>)
    requires forall id :: 0 <= id < |threads| ==> threads[id] == Idle
    ensures TotalInFlight(threads) == 0
  {
    if threads != [] { InitInFlight(threads[..|threads| - 1]); }
  }

  lemma InitInv(c: Config, m: Machine)
    requires ValidConfig(c) && Init(c, m)
    ensures Inv(c, m)
  {
    InitInFlight(m.threads);
  }

  lemma StepKeepsLocked(c: Config, m: Machine, id: nat, e: Env)
    requires ValidConfig(c) && Enabled(m, id) && Locked(m)
    ensures Locked(Apply(c, m, id, e))
  {
    StepKeepsLock(c, id, m.shared, m.threads[id], e);
  }

  lemma StepKeepsBounded(c: Config, m: Machine, id: nat, e: Env)
    requires ValidConfig(c) && Enabled(m, id) && Locked(m) && Bounded(c, m)
    requires WellSized(c, m.shared, m.threads[id])
    ensures Bounded(c, Apply(c, m, id, e))
  {
    var pc := m.threads[id];
    var m' := Apply(c, m, id, e);
    StepKeepsSizes(c, id, m.shared, pc, e);
    if |m.shared.target.queue| <= c.maxQueuedPoints || MidDrop(pc) {
      assert m'.threads[id] == Step(c, id, m.shared, pc, e).pc;
    } else {
      var other :| 0 <= other < |m.threads| && MidDrop(m.threads[other]);
      assert Holds(m.threads[other]) && other != id;
      assert m'.threads[other] == m.threads[other];
    }
  }

  lemma StepKeepsCarried(c: Config, m: Machine, id: nat, e: Env)
    requires ValidConfig(c) && Enabled(m, id) && Inv(c, m)
    ensures var m' := Apply(c, m, id, e);
      && (forall p :: p in m'.shared.history.log ==> p in m'.shared.history.offered)
      && forall k :: 0 <= k < |m'.threads| ==>
           WellSized(c, m'.shared, m'.threads[k]) && FromOffers(m'.shared, m'.threads[k])
  {
    var m' := Apply(c, m, id, e);
    StepKeepsOffers(c, id, m.shared, m.threads[id], e);
    StepKeepsSizes(c, id, m.shared, m.threads[id], e);
    forall k | 0 <= k < |m'.threads|
      ensures WellSized(c, m'.shared, m'.threads[k]) && FromOffers(m'.shared, m'.threads[k])
    {
      if k != id { assert m'.threads[k] == m.threads[k]; }
    }
  }

  /** History is only ever added to. */
  predicate Extends(m: Machine, m': Machine) {
    && |m.threads| == |m'.threads|
    && m.shared.history.log <= m'.shared.history.log
    && m.shared.history.out <= m'.shared.history.out
    && m.shared.history.underruns <= m'.shared.history.underruns
    && m.shared.history.firstLatency == m'.shared.history.firstLatency
  }

  lemma StepKeepsInv(c: Config, m: Machine, m': Machine)
    requires ValidConfig(c) && Next(c, m, m') && Inv(c, m)
    ensures Inv(c, m') && Extends(m, m')
  {
    var id: nat, e: Env :| StepOf(c, m, m', id, e);
    var s, pc := m.shared, m.threads[id];
    StepKeepsLocked(c, m, id, e);
    StepKeepsBounded(c, m, id, e);
    StepKeepsCarried(c, m, id, e);
    StepConserves(c, id, s, pc, e);
    InFlightChanges(m.threads, id, Step(c, id, s, pc, e).pc);
    StepKeepsOrder(c, id, s, pc, e);
    StepKeepsAccounts(c, id, s, pc, e);
    StepKeepsLatency(c, id, s, pc, e);
    StepKeepsRates(c, id, s, pc, e);
  }

  lemma RunStep(c: Config, run: seq<Machine>, i: nat)
    requires ValidConfig(c) && IsRun(c, run) && i + 1 < |run| && Inv(c, run[i])
    ensures Inv(c, run[i + 1]) && Extends(run[i], run[i + 1])
  {
    assert StepAt(c, run, i);
    StepKeepsInv(c, run[i], run[i + 1]);
  }

  lemma ExtendsSelf(m: Machine)
    ensures Extends(m, m)
  {}

  lemma RunExtendsStep(c: Config, run: seq<Machine>, i: nat, j: nat)
    requires ValidConfig(c) && IsRun(c, run) && i <= j && j + 1 < |run| && Extends(run[i], run[j])
    ensures Extends(run[i], run[j + 1])
  {
    RunInv(c, run, j);
    RunStep(c, run, j);
    ExtendsFurther(run[i], run[j], run[j + 1]);
  }

  lemma ExtendsFurther(m: Machine, m': Machine, m'': Machine)
    requires Extends(m, m') && Extends(m', m'')
    ensures Extends(m, m'')
  {}

  /** Every invariant holds at every point of every interleaving. */
  lemma {:induction false} RunInv(c: Config, run: seq<Machine>, i: nat)
    requires ValidConfig(c) && IsRun(c, run) && i < |run|
    ensures Inv(c, run[i])
  {
    if i == 0 {
      InitInv(c, run[0]);
    } else {
      RunInv(c, run, i - 1);
      RunStep(c, run, i - 1);
    }
  }

  lemma {:induction false} RunExtends(c: Config, run: seq<Machine>, i: nat, j: nat)
    requires ValidConfig(c) && IsRun(c, run) && i <= j < |run|
    ensures Extends(run[i], run[j])
    decreases j
  {
    if i == j {
      ExtendsSelf(run[i]);
    } else {
      RunExtends(c, run, i, j - 1);
      RunExtendsStep(c, run, i, j - 1);
    }
  }

  // --- the promises, read off the invariant ---

  /** No interleaving creates or loses a point: the counters fall short of what was received by exactly the
      points superseded, truncated, cleared, handed on as whole frames, or still in flight. */
  lemma PointsAreConserved(c: Config, run: seq<Machine>, i: nat)
    requires ValidConfig(c) && IsRun(c, run) && i < |run|
    ensures var m := run[i]; var h, n := m.shared.history, m.shared.target.stats;
      && n.receivedPoints == n.emittedPoints + n.droppedPoints + |m.shared.target.queue|
                             + h.superseded + h.truncated + h.cleared + h.handed + TotalInFlight(m.threads)
      && n.emittedPoints + n.droppedPoints + |m.shared.target.queue| <= n.receivedPoints
  {
    RunInv(c, run, i);
  }

  /** Whoever can take the lock finds at most maxQueuedPoints points, whatever the rate and latency did. */
  lemma QueueStaysBounded(c: Config, run: seq<Machine>, i: nat)
    requires ValidConfig(c) && IsRun(c, run) && i < |run|
    requires run[i].shared.lock.None?
    ensures |run[i].shared.target.queue| <= c.maxQueuedPoints
  {
    RunInv(c, run, i);
  }

  /** The real points handed out are an order-preserving, duplicate-free subsequence of those queued, the queue
      is what follows them, every lit point was submitted, and padding is dark and holds the last position. */
  lemma OutputFollowsInput(c: Config, run: seq<Machine>, i: nat)
    requires ValidConfig(c) && IsRun(c, run) && i < |run|
    ensures var h := run[i].shared.history;
      && h.head <= |h.log| && run[i].shared.target.queue == h.log[h.head..]
      && RisingBelow(h.out, h.log, h.head)
      && (forall k :: 0 <= k < |h.out| && h.out[k].Real? ==> h.out[k].point in h.offered)
      && (forall k :: 0 <= k < |h.out| && h.out[k].Padding? ==>
            IsDark(h.out[k].point) && h.out[k].point == Fallback(LastReal(h.out[..k])))
      && run[i].shared.target.stats.emittedPoints == CountReal(h.out)
      && run[i].shared.target.stats.blankFillPoints == CountPadding(h.out)
      && run[i].shared.target.stats.underrunPoints == CountPadding(h.out)
  {
    RunInv(c, run, i);
  }

  /** In every interleaving, a target that obeys rate commands has an output and a commanded rate within bounds. */
  lemma RatesStayInRange(c: Config, run: seq<Machine>, i: nat)
    requires ValidConfig(c) && IsRun(c, run) && i < |run| && !c.isAvb
    ensures 1000 <= run[i].shared.target.rate <= c.maxPointRate
    ensures 1000 <= run[i].shared.target.commandedRate <= c.maxPointRate
  {
    RunInv(c, run, i);
  }

  /** A callback that returns without a permitted short read honours its request. */
  lemma CallbacksHonourRequests(c: Config, run: seq<Machine>, i: nat, id: nat)
    requires ValidConfig(c) && IsRun(c, run) && i < |run| && id < |run[i].threads|
    requires run[i].threads[id].InFill? && run[i].threads[id].f.FReturn?
    ensures var f := run[i].threads[id].f;
      && |f.batch| <= Max(f.req.minimum, f.req.maximum)
      && (!f.short ==> f.req.minimum <= |f.batch|)
  {
    RunInv(c, run, i);
    assert WellSized(c, run[i].shared, run[i].threads[id]);
  }

  /** Latency never decreases, never passes the cap, and is raised a bounded number of times in any run. */
  lemma LatencyOverRuns(c: Config, run: seq<Machine>, i: nat, j: nat)
    requires ValidConfig(c) && IsRun(c, run) && i <= j < |run|
    ensures var h := run[j].shared.history; var first := h.firstLatency;
      && run[0].shared.target.latency == first
      && run[i].shared.target.latency.ms <= run[j].shared.target.latency.ms <= c.maxLatencyMs
      && run[j].shared.target.latency == AutoLatency.Run(c.autoLatency, c.maxLatencyMs, first, h.underruns)
      && RaiseCount(c.autoLatency, c.maxLatencyMs, first, h.underruns) <= (c.maxLatencyMs - first.ms + 9) / 10
  {
    RunInv(c, run, i);
    RunInv(c, run, j);
    RunExtends(c, run, 0, j);
    RunExtends(c, run, i, j);
    var us := run[j].shared.history.underruns;
    var n := |run[i].shared.history.underruns|;
    LatencyBounds(c.autoLatency, c.maxLatencyMs, run[j].shared.history.firstLatency, us);
    assert us[..n] == run[i].shared.history.underruns && us[..|us|] == us;
    LatencyNeverDecreases(c.autoLatency, c.maxLatencyMs, run[j].shared.history.firstLatency, us, n, |us|);
  }
}
