/**
 * Paced time against real time. A tick counts the whole microseconds of its gap and forgets the rest, so playback
 * lags behind rate times elapsed time by what was forgotten: exactly when that shows, and how much it can be.
 */
module EtherDreamPacing {
  import opened Points
  import opened EtherDream
  import opened EtherDreamPlayback

  const BILLION := POINT_UNIT * NANOS_PER_MICRO

  /** Billionths of a point that real time asks for by `now`. */
  function IdealBillionths(d: Device, from: int, now: int): int {
    d.accumulator * NANOS_PER_MICRO + (now - from) * d.rate
  }

  /** The points that real time asks for. */
  function IdealCount(d: Device, from: int, now: int): int {
    IdealBillionths(d, from, now) / BILLION
  }

  /** Every gap between ticks is a whole number of microseconds. */
  predicate WholeGaps(es: seq<Event>, from: int) {
    forall k :: 0 <= k < |es| && es[k].Tick? ==> (es[k].now - LastTime(es[..k], from)) % NANOS_PER_MICRO == 0
  }

  lemma WholeGapsOneMore(es: seq<Event>, from: int)
    requires es != []
    ensures var n := |es| - 1;
      WholeGaps(es, from) <==>
        WholeGaps(es[..n], from) && (es[n].Tick? ==> (es[n].now - LastTime(es[..n], from)) % NANOS_PER_MICRO == 0)
  {
    var front := es[..|es| - 1];
    assert forall k :: 0 <= k < |front| ==> front[..k] == es[..k];
  }

  /** What the gaps lose: less than a microsecond each, and nothing exactly when they are whole. */
  lemma {:induction false} LossOfTicks(es: seq<Event>, from: int)
    requires Steady(es, from)
    ensures 0 <= LostNanos(es, from) <= (NANOS_PER_MICRO - 1) * TickCount(es)
    ensures LostNanos(es, from) == 0 <==> WholeGaps(es, from)
  {
    if es != [] {
      var n := |es| - 1;
      LossOfTicks(es[..n], from);
      WholeGapsOneMore(es, from);
      if es[n].Tick? {
        LastTimeInOrder(es[..n], from, es[n].now);
      }
    }
  }

  /** The arithmetic of the lag, `lost` billionths behind. */
  lemma LagOf(ideal: int, counted: nat, lost: nat)
    requires ideal == counted * NANOS_PER_MICRO + lost
    ensures counted / POINT_UNIT <= ideal / BILLION
    ensures counted / POINT_UNIT == ideal / BILLION <==> ideal % BILLION >= lost
    ensures (ideal / BILLION - counted / POINT_UNIT) * BILLION < lost + BILLION
  {
    assert counted * NANOS_PER_MICRO / BILLION == counted / POINT_UNIT;
  }

  lemma Regrouped(counted: int, rate: int)
    ensures (NANOS_PER_MICRO * counted) * rate == (counted * rate) * NANOS_PER_MICRO
  {}

  lemma IdealSplits(d: Device, from: int, es: seq<Event>)
    ensures IdealBillionths(d, from, LastTime(es, from))
         == TotalUnits(d, from, es) * NANOS_PER_MICRO + LostNanos(es, from) * d.rate
  {
    var counted, lost := CountedMicros(es, from), LostNanos(es, from);
    assert LastTime(es, from) - from == NANOS_PER_MICRO * counted + lost;
    Distribute(NANOS_PER_MICRO * counted, lost, d.rate);
    Regrouped(counted, d.rate);
  }

  lemma SteadyWithTick(es: seq<Event>, from: int, now: int)
    requires Steady(es, from) && from <= now && forall k :: 0 <= k < |es| && es[k].Tick? ==> es[k].now <= now
    ensures Steady(es + [Tick(now)], from)
  {}

  lemma LostTimesRate(lost: nat, ticks: nat, rate: nat)
    requires lost <= (NANOS_PER_MICRO - 1) * ticks && ticks > 0 && rate > 0
    ensures 0 <= lost * rate < NANOS_PER_MICRO * ticks * rate
  {
    var spare := NANOS_PER_MICRO * ticks - lost;
    assert spare * rate == NANOS_PER_MICRO * ticks * rate - lost * rate;
    assert spare > 0;
  }

  /** How what was sent compares with what real time asks for. */
  predicate LagsBy(sent: int, given: int, ideal: int, lag: int, playing: bool, underflow: bool) {
    && sent <= ideal / BILLION
    && (playing ==> (sent == ideal / BILLION <==> ideal % BILLION >= lag))
    && (playing ==> (ideal / BILLION - sent) * BILLION < lag + BILLION)
    && (underflow ==> ideal / BILLION > given)
  }

  lemma LagFollows(counted: nat, given: nat, ideal: int, lag: nat, playing: bool, underflow: bool)
    requires ideal == counted * NANOS_PER_MICRO + lag
    requires (playing <==> counted / POINT_UNIT <= given) && (underflow <==> counted / POINT_UNIT > given)
    ensures LagsBy(Min(counted / POINT_UNIT, given), given, ideal, lag, playing, underflow)
  {
    LagOf(ideal, counted, lag);
  }

  /** The loss of a run of ticks, in billionths of a point. */
  lemma LossAtRate(d: Device, from: int, es: seq<Event>, now: int)
    requires Steady(es, from) && d.rate > 0
    requires from <= now && forall k :: 0 <= k < |es| && es[k].Tick? ==> es[k].now <= now
    ensures var all := es + [Tick(now)]; var lag := LostNanos(all, from) * d.rate;
      && 0 <= lag < NANOS_PER_MICRO * TickCount(all) * d.rate
      && (WholeGaps(all, from) ==> lag == 0)
  {
    var all := es + [Tick(now)];
    SteadyWithTick(es, from, now);
    LossOfTicks(all, from);
    assert all[..|all| - 1] == es;
    LostTimesRate(LostNanos(all, from), TickCount(all), d.rate);
  }

  /** The lag after the ticks of `es`, in billionths of a point. */
  function Lag(d: Device, from: int, es: seq<Event>): int {
    LostNanos(es, from) * d.rate
  }

  lemma PacedLag(o: Options, d: Device, from: int, es: seq<Event>, now: int)
    requires Paced(o, d, from, es, now) && Lag(d, from, es + [Tick(now)]) >= 0
    ensures var all := es + [Tick(now)]; var after := Final(o, d, all);
      LagsBy(SentCount(o, d, all), |d.buffer| + AcceptedCount(o, d, es), IdealBillionths(d, from, now),
             Lag(d, from, all), after.playback == Playing, after.underflowFlag)
  {
    var all := es + [Tick(now)];
    OneMore(o, d, from, es, Tick(now));
    IdealSplits(d, from, all);
    LagFollows(TotalUnits(d, from, all), |d.buffer| + AcceptedCount(o, d, es), IdealBillionths(d, from, now),
               Lag(d, from, all), Final(o, d, all).playback == Playing, Final(o, d, all).underflowFlag);
  }

  /**
   * Playback never runs ahead of real time. The lag is the forgotten time at the current rate, less than one
   * millionth of a point per tick and unit of rate; as long as points last, what was sent is the floor of initial
   * fraction plus rate times elapsed time exactly when the fraction then reached covers the lag.
   */
  lemma PacingLag(o: Options, d: Device, from: int, es: seq<Event>, now: int)
    requires ValidOptions(o) && DeviceInv(o, d) && d.playback == Playing && d.light == Ready
    requires d.rates == [] && d.lastTick == Some(from) && Steady(es, from)
    requires from <= now && forall k :: 0 <= k < |es| && es[k].Tick? ==> es[k].now <= now
    requires forall k :: 0 <= k <= |es| ==> Final(o, d, es[..k]).playback == Playing
    ensures var all := es + [Tick(now)]; var after := Final(o, d, all);
      && 0 <= Lag(d, from, all) < NANOS_PER_MICRO * TickCount(all) * d.rate
      && LagsBy(SentCount(o, d, all), |d.buffer| + AcceptedCount(o, d, es), IdealBillionths(d, from, now),
                Lag(d, from, all), after.playback == Playing, after.underflowFlag)
  {
    LossAtRate(d, from, es, now);
    PacedByCountedTime(o, d, from, es, now);
    PacedLag(o, d, from, es, now);
  }

  /** Gaps of whole microseconds never drift. */
  lemma WholeGapsDoNotDrift(o: Options, d: Device, from: int, es: seq<Event>, now: int)
    requires ValidOptions(o) && DeviceInv(o, d) && d.playback == Playing && d.light == Ready
    requires d.rates == [] && d.lastTick == Some(from) && Steady(es, from)
    requires from <= now && forall k :: 0 <= k < |es| && es[k].Tick? ==> es[k].now <= now
    requires forall k :: 0 <= k <= |es| ==> Final(o, d, es[..k]).playback == Playing
    requires WholeGaps(es + [Tick(now)], from) && Final(o, d, es + [Tick(now)]).playback == Playing
    ensures SentCount(o, d, es + [Tick(now)]) == IdealCount(d, from, now)
  {
    LossAtRate(d, from, es, now);
    PacingLag(o, d, from, es, now);
  }

  // --- an input that drifts ---

  const DRIFT_RATE := 100000
  const DRIFT_GAP := 10999

  /** `n` ticks, one every 10999 nanoseconds after `from`. */
  function DriftTicks(from: int, n: nat): (es: seq<Event>)
    ensures |es| == n
  {
    if n == 0 then [] else DriftTicks(from, n - 1) + [Tick(from + n * DRIFT_GAP)]
  }

  lemma DriftTicksOneMore(from: int, n: nat)
    ensures DriftTicks(from, n + 1) == DriftTicks(from, n) + [Tick(from + (n + 1) * DRIFT_GAP)]
    ensures DriftTicks(from, n + 1)[..n] == DriftTicks(from, n)
  {}

  lemma {:induction false} DriftTicksSteady(from: int, n: nat)
    ensures var es := DriftTicks(from, n);
      Steady(es, from) && forall k :: 0 <= k < n ==> es[k].Tick? && es[k].now <= from + n * DRIFT_GAP
  {
    if n > 0 {
      DriftTicksSteady(from, n - 1);
      DriftTicksOneMore(from, n - 1);
      SteadyWithTick(DriftTicks(from, n - 1), from, from + n * DRIFT_GAP);
    }
  }

  lemma {:induction false} DriftingTicks(from: int, n: nat)
    ensures CountedMicros(DriftTicks(from, n), from) == 10 * n
    ensures LastTime(DriftTicks(from, n), from) == from + n * DRIFT_GAP
  {
    if n > 0 {
      DriftingTicks(from, n - 1);
      DriftTicksOneMore(from, n - 1);
    }
  }

  lemma {:induction false} NothingAccepted(o: Options, d: Device, from: int, n: nat)
    ensures AcceptedCount(o, d, DriftTicks(from, n)) == 0
  {
    if n > 0 {
      NothingAccepted(o, d, from, n - 1);
      DriftTicksOneMore(from, n - 1);
    }
  }

  predicate PlaysThrough(o: Options, d: Device, es: seq<Event>) {
    forall k :: 0 <= k <= |es| ==> Final(o, d, es[..k]).playback == Playing
  }

  lemma PlaysOn(o: Options, d: Device, es: seq<Event>, e: Event)
    requires PlaysThrough(o, d, es) && Final(o, d, es + [e]).playback == Playing
    ensures PlaysThrough(o, d, es + [e])
  {
    var all := es + [e];
    forall k | 0 <= k <= |all| ensures Final(o, d, all[..k]).playback == Playing {
      if k <= |es| {
        assert all[..k] == es[..k];
      } else {
        assert all[..k] == all;
      }
    }
  }

  lemma TenMicrosAreOnePoint(n: nat)
    ensures (10 * n * DRIFT_RATE) / POINT_UNIT == n
    ensures (n * DRIFT_GAP * DRIFT_RATE) / BILLION == n * 10999 / 10000
  {
    assert 10 * n * DRIFT_RATE == n * POINT_UNIT;
    assert n * DRIFT_GAP * DRIFT_RATE == (n * 10999) * 100000;
  }

  lemma OnePointPerTick(d: Device, from: int, n: nat)
    requires d.rate == DRIFT_RATE && d.accumulator == 0
    ensures TotalUnits(d, from, DriftTicks(from, n)) / POINT_UNIT == n
    ensures IdealCount(d, from, from + n * DRIFT_GAP) == n * 10999 / 10000
  {
    DriftingTicks(from, n);
    TenMicrosAreOnePoint(n);
  }

  /** One point per tick so far, and still playing. */
  predicate Drifting(o: Options, d: Device, from: int, n: nat) {
    var es := DriftTicks(from, n);
    SentCount(o, d, es) == n && PlaysThrough(o, d, es)
  }

  /** What the next tick of a drifting device sends, by its pacing. */
  lemma NextDriftTick(o: Options, d: Device, from: int, n: nat, now: int)
    requires d.rate == DRIFT_RATE && d.accumulator == 0 && n < |d.buffer| && now == from + (n + 1) * DRIFT_GAP
    requires Paced(o, d, from, DriftTicks(from, n), now)
    ensures DriftTicks(from, n + 1) == DriftTicks(from, n) + [Tick(now)]
    ensures var es := DriftTicks(from, n + 1); SentCount(o, d, es) == n + 1 && Final(o, d, es).playback == Playing
  {
    DriftTicksOneMore(from, n);
    OnePointPerTick(d, from, n + 1);
    NothingAccepted(o, d, from, n);
  }

  lemma DriftStep(o: Options, d: Device, from: int, n: nat)
    requires DriftStart(o, d, from) && n < |d.buffer| && Drifting(o, d, from, n)
    ensures Drifting(o, d, from, n + 1)
  {
    var now := from + (n + 1) * DRIFT_GAP;
    DriftPaced(o, d, from, n, now);
    NextDriftTick(o, d, from, n, now);
    PlaysOn(o, d, DriftTicks(from, n), Tick(now));
  }

  predicate DriftStart(o: Options, d: Device, from: int) {
    && ValidOptions(o) && DeviceInv(o, d) && d.playback == Playing && d.light == Ready
    && d.rates == [] && d.lastTick == Some(from) && d.rate == DRIFT_RATE && d.accumulator == 0
  }

  /** Such a device is four events away from a new session. */
  lemma DriftIsReachable(o: Options, points: seq<BufferedPoint>, from: int)
    requires ValidOptions(o) && o.maxPointRate >= DRIFT_RATE && 0 < |points| <= o.bufferCapacity
    ensures var d := Final(o, FreshDevice(o), [Do(Prepare), Do(Data(points)), Do(Begin(DRIFT_RATE)), Tick(from)]);
      DriftStart(o, d, from) && d.buffer == points
  {
    var es := [Do(Prepare), Do(Data(points)), Do(Begin(DRIFT_RATE)), Tick(from)];
    ReachableStates(o, es);
    assert es[..3] == [Do(Prepare), Do(Data(points)), Do(Begin(DRIFT_RATE))];
    assert es[..3][..2] == [Do(Prepare), Do(Data(points))] && es[..3][..2][..1] == [Do(Prepare)];
    assert es[..3][..2][..1][..0] == [];
    assert Final(o, FreshDevice(o), es[..3][..2][..1]) == DoPrepare(FreshDevice(o)).device;
    assert Final(o, FreshDevice(o), es[..3][..2]).buffer == points;
  }

  lemma DriftPaced(o: Options, d: Device, from: int, n: nat, now: int)
    requires DriftStart(o, d, from) && Drifting(o, d, from, n)
    ensures Paced(o, d, from, DriftTicks(from, n), now)
  {
    DriftTicksSteady(from, n);
    PacedByCountedTime(o, d, from, DriftTicks(from, n), now);
  }

  lemma {:induction false} DriftsOn(o: Options, d: Device, from: int, n: nat)
    requires DriftStart(o, d, from) && n <= |d.buffer|
    ensures Drifting(o, d, from, n)
  {
    if n > 0 {
      DriftsOn(o, d, from, n - 1);
      DriftStep(o, d, from, n - 1);
    }
  }

  /**
   * At 100000 points per second and a tick every 10999 ns, one point goes out per tick although 1.0999 are due:
   * the lag grows with every tick, and 1000 ticks are 99 points behind.
   */
  lemma PacingDrifts(o: Options, d: Device, from: int, n: nat)
    requires DriftStart(o, d, from) && n <= |d.buffer|
    ensures Drifting(o, d, from, n) && IdealCount(d, from, from + n * DRIFT_GAP) == n * 10999 / 10000
  {
    DriftsOn(o, d, from, n);
    OnePointPerTick(d, from, n);
  }
}
