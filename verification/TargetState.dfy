/**
 * The state of one linked target and the atomic pieces its operations are made of: one piece is a
 * single atomic access outside the queue lock, or the part of a critical section that no other
 * thread can split. The class LiberaTarget runs the pieces one after another; TargetMachine
 * interleaves them between threads.
 */
module TargetState {
  import opened Points
  import opened LiveLimit
  import opened BoundaryDrop
  import opened AutoLatency

  const IDLE_THRESHOLD := 2_000_000_000
  const TWO_TO_THE_32 := 0x1_0000_0000

  datatype Config = Config(
    maxQueuedPoints: nat, maxPointRate: nat, isAvb: bool, autoLatency: bool, maxLatencyMs: nat)

  /** What the constructor establishes: see LinkRuntime.cpp:507-513. */
  predicate ValidConfig(c: Config) {
    c.maxQueuedPoints >= 1000 && c.maxPointRate >= 1000
  }

  /** The counters shown to the user; 64 bits wide in the source, unbounded here. */
  datatype Stats = Stats(
    receivedSlices: nat,
    receivedFrames: nat,
    receivedPoints: nat,
    receivedLitPoints: nat,
    callbackCalls: nat,
    underrunEvents: nat,
    underrunPoints: nat,
    emittedPoints: nat,
    blankFillPoints: nat,
    droppedPoints: nat)

  /** `last` and `lastInputAt` are None while the source's haveLastOutputPoint_ and hasSeenInput_ are false. */
  datatype Target = Target(
    queue: seq<LaserPoint>,
    last: Option<LaserPoint>,
    lastInputAt: Option<int>,
    frameReplacement: bool,
    buffering: bool,
    rate: nat,
    commandedRate: nat,
    downstream: nat,
    latency: Latency,
    stats: Stats)

  datatype FillRequest = FillRequest(minimum: nat, maximum: nat, allowShortRead: bool)

  datatype Slice = Slice(points: seq<LaserPoint>, durationUs: nat)

  // --- rates and limits ---

  /** 0 means "no usable rate"; the result is narrowed to 32 bits as in the source. */
  function InferredRate(pointCount: nat, durationUs: nat): nat {
    if pointCount == 0 || durationUs == 0 then 0
    else ((2000000 * pointCount + durationUs) / (2 * durationUs)) % TWO_TO_THE_32
  }

  function CommandedRate(effective: Option<nat>, pointCount: nat, durationUs: nat): nat {
    if effective.Some? then effective.value else InferredRate(pointCount, durationUs)
  }

  /** `hardwareRate` is what the controller reports back; only AVB targets believe it. */
  function UpdateRate(c: Config, s: Target, commanded: nat, hardwareRate: nat): Target
    requires ValidConfig(c)
  {
    if commanded == 0 then s
    else
      var proposed := Clamp(commanded, 1000, c.maxPointRate);
      if proposed == s.rate then s.(commandedRate := proposed)
      else s.(commandedRate := proposed, rate := if c.isAvb then hardwareRate else proposed)
  }

  function Distance(a: int, b: int): nat {
    if a <= b then b - a else a - b
  }

  /**
   * A rate update touches nothing but the two rates. A command of zero is ignored; any other is replaced by the
   * nearest rate the controller can do, and becomes the output rate unless an AVB device reports its own.
   */
  lemma RateUpdateIsNearest(c: Config, s: Target, commanded: nat, hardwareRate: nat)
    requires ValidConfig(c)
    ensures var s' := UpdateRate(c, s, commanded, hardwareRate);
      && s' == s.(rate := s'.rate, commandedRate := s'.commandedRate)
      && (commanded == 0 ==> s' == s)
      && (commanded > 0 ==>
            && 1000 <= s'.commandedRate <= c.maxPointRate
            && (forall r :: 1000 <= r <= c.maxPointRate ==>
                  Distance(commanded, s'.commandedRate) <= Distance(commanded, r))
            && (!c.isAvb ==> s'.rate == s'.commandedRate))
      && (c.isAvb && commanded > 0 ==> s'.rate == if s'.commandedRate == s.rate then s.rate else hardwareRate)
  {}

  /** The rate that plays `pointCount` points in `durationUs` microseconds, to the nearest point per second. */
  lemma InferredRateIsNearest(pointCount: nat, durationUs: nat) returns (exact: nat)
    requires pointCount > 0 && durationUs > 0
    ensures 0 < 2 * (exact * durationUs - 1000000 * pointCount) + durationUs <= 2 * durationUs
    ensures InferredRate(pointCount, durationUs) == exact % 0x1_0000_0000
  {
    exact := (2000000 * pointCount + durationUs) / (2 * durationUs);
    var rest := (2000000 * pointCount + durationUs) % (2 * durationUs);
    assert exact * (2 * durationUs) + rest == 2000000 * pointCount + durationUs;
    assert 2 * (exact * durationUs) == exact * (2 * durationUs);
  }

  /** Without points or without a duration there is no rate; a rate that came with the submission is taken as it is. */
  lemma NoInferredRate(effective: Option<nat>, pointCount: nat, durationUs: nat)
    ensures pointCount == 0 || durationUs == 0 ==> InferredRate(pointCount, durationUs) == 0
    ensures effective.Some? ==> CommandedRate(effective, pointCount, durationUs) == effective.value
    ensures effective.None? ==> CommandedRate(effective, pointCount, durationUs) == InferredRate(pointCount, durationUs)
  {}

  /** Twice the buffering target, but at least a tenth of a second, between 1000 and the whole queue. */
  lemma ContinuousLimitInTime(c: Config, target: nat, rate: nat, minimum: nat)
    requires ValidConfig(c) && 1000 <= target <= c.maxQueuedPoints && IsLeastLimit(minimum, rate, 100)
    ensures ContinuousLimit(c, target, rate) == Min(c.maxQueuedPoints, Max(2 * target, minimum))
  {
    LeastLimitOf(rate, 100, minimum);
    LiveLimitExact(target, rate, CONTINUOUS_MULTIPLIER, CONTINUOUS_MINIMUM_MS, c.maxQueuedPoints);
  }

  /** The buffering target, but at least a twentieth of a second. */
  lemma ReplacementLimitInTime(c: Config, target: nat, rate: nat, minimum: nat)
    requires ValidConfig(c) && 1000 <= target <= c.maxQueuedPoints && IsLeastLimit(minimum, rate, 50)
    ensures ReplacementLimit(c, target, rate) == Min(c.maxQueuedPoints, Max(target, minimum))
  {
    LeastLimitOf(rate, 50, minimum);
    LiveLimitExact(target, rate, REPLACEMENT_MULTIPLIER, REPLACEMENT_MINIMUM_MS, c.maxQueuedPoints);
  }

  /** What a target that obeys rate commands plays at is always a rate the controller can do. */
  predicate RatesInRange(c: Config, s: Target) {
    !c.isAvb ==> 1000 <= s.rate <= c.maxPointRate && 1000 <= s.commandedRate <= c.maxPointRate
  }

  function TargetPoints(c: Config, s: Target): (t: nat)
    requires ValidConfig(c)
    ensures 1000 <= t <= c.maxQueuedPoints
  {
    TargetBufferedPoints(s.rate, s.latency.ms, c.maxQueuedPoints)
  }

  function ContinuousLimit(c: Config, target: nat, rate: nat): (limit: nat)
    requires ValidConfig(c)
    ensures 1000 <= limit <= c.maxQueuedPoints
  {
    LivePointLimit(target, rate, CONTINUOUS_MULTIPLIER, CONTINUOUS_MINIMUM_MS, c.maxQueuedPoints)
  }

  function ReplacementLimit(c: Config, target: nat, rate: nat): (limit: nat)
    requires ValidConfig(c)
    ensures 1000 <= limit <= c.maxQueuedPoints
  {
    LivePointLimit(target, rate, REPLACEMENT_MULTIPLIER, REPLACEMENT_MINIMUM_MS, c.maxQueuedPoints)
  }

  /** The point-callback buffer level the controller reports, cached for the next callback. */
  function Observe(s: Target, downstream: nat): Target {
    s.(downstream := downstream)
  }

  // --- pieces of the submissions ---

  function Announce(s: Target, slices: nat, frames: nat, points: nat): Target {
    s.(stats := s.stats.(receivedSlices := s.stats.receivedSlices + slices,
                         receivedFrames := s.stats.receivedFrames + frames,
                         receivedPoints := s.stats.receivedPoints + points))
  }

  function AnnounceLit(s: Target, lit: nat): Target {
    s.(stats := s.stats.(receivedLitPoints := s.stats.receivedLitPoints + lit))
  }

  function Enqueue(s: Target, points: seq<LaserPoint>, now: int): Target {
    s.(queue := s.queue + points, lastInputAt := Some(now))
  }

  function CountDropped(s: Target, n: nat): Target {
    s.(stats := s.stats.(droppedPoints := s.stats.droppedPoints + n))
  }

  function DropFront(s: Target, n: nat): Target
    requires n <= |s.queue|
  {
    CountDropped(s.(queue := s.queue[n..]), n)
  }

  function DropToLimit(s: Target, limit: nat): Target {
    DropFront(s, DropCount(s.queue, limit))
  }

  function SwapIn(s: Target, frame: seq<LaserPoint>, now: int): Target {
    s.(queue := frame, lastInputAt := Some(now))
  }

  /** Points popped from a swapped-in frame so that it fits beside what the controller still holds. */
  function TrimCount(queued: nat, downstream: nat, maxQueued: nat): (n: nat)
    ensures n <= queued
    ensures queued - n + downstream <= maxQueued || n == queued
    ensures n > 0 ==> queued - n + 1 + downstream > maxQueued
  {
    if queued + downstream <= maxQueued then 0
    else Min(queued, queued + downstream - maxQueued)
  }

  function TrimSwapped(c: Config, s: Target, downstream: nat): Target {
    DropFront(s, TrimCount(|s.queue|, downstream, c.maxQueuedPoints))
  }

  function ClearForFrame(s: Target, now: int): Target {
    s.(queue := [], lastInputAt := Some(now))
  }

  function ClearForReset(s: Target): Target {
    s.(queue := [], lastInputAt := None, last := None)
  }

  function ResetRates(s: Target): Target {
    s.(commandedRate := s.rate, downstream := 0)
  }

  // --- pieces of the point callback ---

  function CountCall(s: Target): Target {
    s.(stats := s.stats.(callbackCalls := s.stats.callbackCalls + 1))
  }

  predicate AwaitingInput(s: Target, now: int, threshold: nat) {
    s.lastInputAt.None? || (s.queue == [] && now - s.lastInputAt.value >= threshold)
  }

  predicate ShortAllowed(s: Target, req: FillRequest, now: int) {
    req.allowShortRead && !AwaitingInput(s, now, IDLE_THRESHOLD)
  }

  predicate MustHold(s: Target, frameReplacement: bool, shortAllowed: bool, buffered: nat, target: nat) {
    !frameReplacement && !shortAllowed && s.buffering && buffered < target
  }

  function CountUnderrun(s: Target, missing: nat): Target {
    s.(stats := s.stats.(underrunEvents := s.stats.underrunEvents + 1,
                         underrunPoints := s.stats.underrunPoints + missing,
                         blankFillPoints := s.stats.blankFillPoints + missing))
  }

  /** Stop buffering and take `n` points off the front. */
  function Emit(s: Target, n: nat): Target
    requires n <= |s.queue|
  {
    s.(buffering := false,
       queue := s.queue[n..],
       stats := s.stats.(emittedPoints := s.stats.emittedPoints + n),
       last := if n > 0 then Some(s.queue[n - 1]) else s.last)
  }

  /** The end of a callback that emitted `written` points: pad or accept the shortfall. */
  function Settle(c: Config, s: Target, req: FillRequest, written: nat,
                  frameReplacement: bool, shortAllowed: bool, target: nat, now: int): Target
  {
    if written >= req.minimum then s
    else if shortAllowed then
      if frameReplacement then s else s.(buffering := true)
    else
      var missing := req.minimum - written;
      var latency := if frameReplacement then s.latency
                     else OnUnderrun(c.autoLatency, c.maxLatencyMs, s.latency,
                                     Underrun(now, missing, req.minimum, target));
      CountUnderrun(s, missing).(latency := latency, buffering := !frameReplacement)
  }

  function Padding(s: Target, req: FillRequest, written: nat, shortAllowed: bool): seq<LaserPoint> {
    if written >= req.minimum || shortAllowed then [] else Repeat(Fallback(s.last), req.minimum - written)
  }
}
