/**
 * What each operation of a target leaves behind, field by field, in terms of points, time and rates rather than of
 * the functions that compute it.
 */
module TargetPromises {
  import opened Points
  import opened LiveLimit
  import opened AutoLatency
  import opened BoundaryDrop
  import opened TargetState
  import opened LiberaTarget

  /** `t` is the number of points that the latency plays at the current rate. */
  predicate IsBufferingTarget(c: Config, s: Target, t: nat) {
    IsNearestWithin(t, s.rate * s.latency.ms, 1000, Max(1000, c.maxQueuedPoints - 1))
  }

  lemma BufferingTargetIs(c: Config, s: Target, t: nat)
    requires ValidConfig(c)
    ensures IsBufferingTarget(c, s, t) <==> t == TargetPoints(c, s)
  {
    TargetIsLatency(s.rate, s.latency.ms, c.maxQueuedPoints, t);
  }

  // --- the callback ---

  /** A short read is accepted only from a source that has sent something, and within two seconds of an empty queue. */
  predicate MayComeUpShort(s: Target, req: FillRequest, now: int) {
    req.allowShortRead && s.lastInputAt.Some? && (s.queue == [] ==> now - s.lastInputAt.value < 2_000_000_000)
  }

  /** Still filling up: the queue and what the controller holds are together below the buffering target. */
  predicate HoldsBack(s: Target, req: FillRequest, now: int, t: nat) {
    s.buffering && !s.frameReplacement && !MayComeUpShort(s, req, now) && |s.queue| + s.downstream < t
  }

  /** What a callback hands out. */
  predicate HandsOut(s: Target, req: FillRequest, short: bool, n: nat, last: Option<LaserPoint>, out: seq<LaserPoint>) {
    out == s.queue[..Min(n, |s.queue|)] + Repeat(Fallback(last), if short then 0 else Max(0, req.minimum - n))
  }

  predicate FillCounted(s: Target, s': Target, n: nat, padded: nat, underrun: bool) {
    s'.stats == s.stats.(
      callbackCalls := s.stats.callbackCalls + 1,
      emittedPoints := s.stats.emittedPoints + n,
      blankFillPoints := s.stats.blankFillPoints + padded,
      underrunPoints := s.stats.underrunPoints + padded,
      underrunEvents := s.stats.underrunEvents + if underrun then 1 else 0)
  }

  /**
   * A callback with buffering target `t`: it pads if and only if it holds back; otherwise it empties the queue as far
   * as the request allows, and pads what is still missing unless a short read will do. It buffers afterwards exactly
   * when it came up short outside a frame, and only such a shortfall that it padded counts towards more latency.
   */
  predicate FilledRightly(c: Config, s: Target, req: FillRequest, now: int, t: nat, s': Target, out: seq<LaserPoint>) {
    var short, held := MayComeUpShort(s, req, now), HoldsBack(s, req, now, t);
    var n := if held then 0 else Min(req.maximum, |s.queue|);
    var padded := if short then 0 else Max(0, req.minimum - n);
    && s'.queue == s.queue[n..]
    && s'.last == (if n > 0 then Some(s.queue[n - 1]) else s.last)
    && HandsOut(s, req, short, n, s'.last, out)
    && (s'.buffering <==> held || (!s.frameReplacement && n < req.minimum))
    && (if held || padded == 0 || s.frameReplacement then s'.latency == s.latency
        else RightAfter(c.autoLatency, c.maxLatencyMs, s.latency, Underrun(now, padded, req.minimum, t), s'.latency))
    && FillCounted(s, s', n, padded, held || padded > 0)
    && s'.lastInputAt == s.lastInputAt && s'.frameReplacement == s.frameReplacement
    && s'.rate == s.rate && s'.commandedRate == s.commandedRate && s'.downstream == s.downstream
  }

  lemma HeldRightly(c: Config, s: Target, req: FillRequest, now: int, t: nat)
    requires HoldsBack(s, req, now, t)
    ensures FilledRightly(c, s, req, now, t, CountUnderrun(CountCall(s), req.minimum),
                          Repeat(Fallback(s.last), req.minimum))
  {
    assert s.queue[..0] + Repeat(Fallback(s.last), req.minimum) == Repeat(Fallback(s.last), req.minimum);
  }

  lemma EmittedRightly(c: Config, s: Target, req: FillRequest, now: int, t: nat, short: bool)
    requires !HoldsBack(s, req, now, t) && short == MayComeUpShort(s, req, now)
    ensures var n := Min(req.maximum, |s.queue|); var s2 := Emit(CountCall(s), n);
      FilledRightly(c, s, req, now, t, Settle(c, s2, req, n, s.frameReplacement, short, t, now),
                    s.queue[..n] + Padding(s2, req, n, short))
  {
    var n := Min(req.maximum, |s.queue|);
    if n < req.minimum && !short {
      var u := Underrun(now, req.minimum - n, req.minimum, t);
      OnlyRightAfter(c.autoLatency, c.maxLatencyMs, s.latency, u, OnUnderrun(c.autoLatency, c.maxLatencyMs, s.latency, u));
    } else {
      assert s.queue[..n] + Repeat(Fallback(Emit(CountCall(s), n).last), 0) == s.queue[..n];
    }
  }

  lemma FillExactly(c: Config, s: Target, req: FillRequest, now: int, t: nat)
    requires ValidConfig(c) && req.maximum > 0 && IsBufferingTarget(c, s, t)
    ensures var (s', out) := AfterFill(c, s, req, now); FilledRightly(c, s, req, now, t, s', out)
  {
    BufferingTargetIs(c, s, t);
    FillAtRightly(c, s, req, now, t);
  }

  lemma FillAtRightly(c: Config, s: Target, req: FillRequest, now: int, t: nat)
    ensures var (s', out) := FillAt(c, CountCall(s), req, ShortAllowed(CountCall(s), req, now), t, now);
      FilledRightly(c, s, req, now, t, s', out)
  {
    if HoldsBack(s, req, now, t) {
      HeldRightly(c, s, req, now, t);
    } else {
      EmittedRightly(c, s, req, now, t, ShortAllowed(CountCall(s), req, now));
    }
  }

  // --- the submissions ---

  /** A submission leaves what was handed out, the latency and the counters of the callback alone. */
  predicate OutputUntouched(s: Target, s': Target) {
    && s'.last == s.last && s'.latency == s.latency
    && s'.stats.callbackCalls == s.stats.callbackCalls && s'.stats.emittedPoints == s.stats.emittedPoints
    && s'.stats.blankFillPoints == s.stats.blankFillPoints && s'.stats.underrunEvents == s.stats.underrunEvents
    && s'.stats.underrunPoints == s.stats.underrunPoints
  }

  predicate Received(s: Target, s': Target, slices: nat, frames: nat, points: seq<LaserPoint>) {
    && s'.stats.receivedSlices == s.stats.receivedSlices + slices
    && s'.stats.receivedFrames == s.stats.receivedFrames + frames
    && s'.stats.receivedPoints == s.stats.receivedPoints + |points|
    && s'.stats.receivedLitPoints == s.stats.receivedLitPoints + CountLit(points)
  }

  /** The two rates are those that a command leaves; see RateUpdateIsNearest. */
  predicate RatesUpdated(c: Config, s: Target, s': Target, commanded: nat, hardwareRate: nat)
    requires ValidConfig(c)
  {
    var updated := UpdateRate(c, s, commanded, hardwareRate);
    s'.rate == updated.rate && s'.commandedRate == updated.commandedRate
  }

  /**
   * A continuous submission: the rate is updated first; the points go to the back of the queue; then the queue is cut
   * to twice the buffering target, or a tenth of a second if that is more. It ends frame mode, not buffering.
   */
  lemma ContinuousExactly(c: Config, s: Target, points: seq<LaserPoint>, commanded: nat,
                          hardwareRate: nat, downstream: nat, now: int, t: nat, minimum: nat)
    requires ValidConfig(c)
    requires var s' := AfterContinuous(c, s, points, commanded, hardwareRate, downstream, now);
      IsBufferingTarget(c, s', t) && IsLeastLimit(minimum, s'.rate, 100)
    ensures var s' := AfterContinuous(c, s, points, commanded, hardwareRate, downstream, now);
      var n := s'.stats.droppedPoints - s.stats.droppedPoints;
      && OutputUntouched(s, s') && Received(s, s', 1, 0, points)
      && RatesUpdated(c, s, s', commanded, hardwareRate)
      && s'.lastInputAt == Some(now) && !s'.frameReplacement && s'.buffering == s.buffering
      && s'.downstream == downstream
      && 0 <= n <= |s.queue + points| && s'.queue == (s.queue + points)[n..]
      && IsCut(s.queue + points, Min(c.maxQueuedPoints, Max(2 * t, minimum)), n)
  {
    var s' := AfterContinuous(c, s, points, commanded, hardwareRate, downstream, now);
    ContinuousKeepsSuffix(c, s, points, commanded, hardwareRate, downstream, now);
    BufferingTargetIs(c, s', t);
    ContinuousLimitInTime(c, t, s'.rate, minimum);
    ContinuousBooks(c, s, points, commanded, hardwareRate, downstream, now);
  }

  lemma ContinuousBooks(c: Config, s: Target, points: seq<LaserPoint>, commanded: nat,
                        hardwareRate: nat, downstream: nat, now: int)
    requires ValidConfig(c)
    ensures var s' := AfterContinuous(c, s, points, commanded, hardwareRate, downstream, now);
      && OutputUntouched(s, s') && Received(s, s', 1, 0, points)
      && RatesUpdated(c, s, s', commanded, hardwareRate)
      && s'.lastInputAt == Some(now) && !s'.frameReplacement && s'.buffering == s.buffering
      && s'.downstream == downstream
  {}

  /** `n` points less, and no more than that, fit beside what the controller holds. */
  predicate FitsBeside(kept: nat, n: nat, downstream: nat, maxQueued: nat) {
    && n <= kept && (n == kept || kept - n + downstream <= maxQueued)
    && (n > 0 ==> kept - n + 1 + downstream > maxQueued)
  }

  /**
   * A frame replacement: the first points of the frame, as many as the buffering target or a twentieth of a second
   * at the rate before, replace the queue; the fewest possible are dropped from the front so that it fits beside
   * what the controller holds. The rate follows last.
   */
  lemma ReplaceExactly(c: Config, s: Target, slices: seq<Slice>, hardwareRate: nat, downstream: nat, now: int,
                       t: nat, minimum: nat)
    requires ValidConfig(c) && IsBufferingTarget(c, s, t) && IsLeastLimit(minimum, s.rate, 50)
    ensures var points := Flatten(slices);
      var s' := AfterReplace(c, s, slices, hardwareRate, downstream, now);
      var kept := Min(|points|, Min(c.maxQueuedPoints, Max(t, minimum)));
      var n := s'.stats.droppedPoints - s.stats.droppedPoints;
      && n >= 0 && FitsBeside(kept, n, downstream, c.maxQueuedPoints) && s'.queue == points[n..kept]
      && OutputUntouched(s, s') && Received(s, s', ValidSlices(slices), 1, points)
      && RatesUpdated(c, s, s', InferredRate(|points|, TotalDuration(slices)), hardwareRate)
      && s'.lastInputAt == Some(now) && s'.frameReplacement && !s'.buffering && s'.downstream == downstream
  {
    BufferingTargetIs(c, s, t);
    ReplacementLimitInTime(c, t, s.rate, minimum);
    ReplaceQueues(c, s, slices, hardwareRate, downstream, now);
    ReplaceBooks(c, s, slices, hardwareRate, downstream, now);
  }

  lemma ReplaceQueues(c: Config, s: Target, slices: seq<Slice>, hardwareRate: nat, downstream: nat, now: int)
    requires ValidConfig(c)
    ensures var points := Flatten(slices);
      var s' := AfterReplace(c, s, slices, hardwareRate, downstream, now);
      var kept := Min(|points|, ReplacementLimit(c, TargetPoints(c, s), s.rate));
      var n := s'.stats.droppedPoints - s.stats.droppedPoints;
      n >= 0 && FitsBeside(kept, n, downstream, c.maxQueuedPoints) && s'.queue == points[n..kept]
  {
    var points := Flatten(slices);
    var admitted := AdmitFrame(s, points, Truncated(c, s, points), ValidSlices(slices), downstream, now);
    var trimmed := TrimSwapped(c, admitted, downstream);
    TrimExactly(c, admitted, downstream);
    RateUpdateIsNearest(c, trimmed, InferredRate(|points|, TotalDuration(slices)), hardwareRate);
    FrontOf(points, |admitted.queue|, trimmed.stats.droppedPoints - admitted.stats.droppedPoints);
  }

  lemma FrontOf(points: seq<LaserPoint>, kept: nat, n: nat)
    requires n <= kept <= |points|
    ensures points[..kept][n..] == points[n..kept]
  {}

  lemma ReplaceBooks(c: Config, s: Target, slices: seq<Slice>, hardwareRate: nat, downstream: nat, now: int)
    requires ValidConfig(c)
    ensures var points := Flatten(slices);
      var s' := AfterReplace(c, s, slices, hardwareRate, downstream, now);
      && OutputUntouched(s, s') && Received(s, s', ValidSlices(slices), 1, points)
      && RatesUpdated(c, s, s', InferredRate(|points|, TotalDuration(slices)), hardwareRate)
      && s'.lastInputAt == Some(now) && s'.frameReplacement && !s'.buffering && s'.downstream == downstream
  {}

  lemma TrimExactly(c: Config, s: Target, downstream: nat)
    ensures var s' := TrimSwapped(c, s, downstream); var n := s'.stats.droppedPoints - s.stats.droppedPoints;
      n >= 0 && FitsBeside(|s.queue|, n, downstream, c.maxQueuedPoints) && s'.queue == s.queue[n..]
  {}

  /**
   * A whole frame: the queue is cleared uncounted, frame mode and buffering end, and the frame counts as dropped
   * when the controller refuses it.
   */
  lemma FrameExactly(c: Config, s: Target, slices: seq<Slice>, commanded: nat, hardwareRate: nat,
                     accepted: bool, downstream: nat, now: int)
    requires ValidConfig(c)
    ensures var points := Flatten(slices);
      var s' := AfterFrame(c, s, slices, commanded, hardwareRate, accepted, downstream, now);
      && s'.queue == []
      && s'.stats.droppedPoints == s.stats.droppedPoints + (if accepted then 0 else |points|)
      && OutputUntouched(s, s') && Received(s, s', ValidSlices(slices), 1, points)
      && RatesUpdated(c, s, s', commanded, hardwareRate)
      && s'.lastInputAt == Some(now) && !s'.frameReplacement && !s'.buffering && s'.downstream == downstream
  {}

  /** A reset forgets input and output and buffers anew; rate, latency and counters stay. */
  lemma ResetExactly(s: Target)
    ensures AfterReset(s) == Target([], None, None, false, true, s.rate, s.rate, 0, s.latency, s.stats)
  {}

  /** What a submission reports: of an accepted one, the points that its drops did not outweigh. */
  lemma ResultExactly(accepted: bool, submitted: nat, dropped: nat)
    ensures var r := MakeResult(accepted, submitted, dropped);
      && r.accepted == accepted && r.submittedPoints == submitted && r.droppedPoints == dropped
      && r.acceptedPoints == if accepted then Max(0, submitted - dropped) else 0
  {}

  // --- gathering a frame ---

  /** Only nonempty slices count, and all their points do, in order. */
  lemma {:induction false} GatherSplits(a: seq<Slice>, b: seq<Slice>)
    ensures Flatten(a + b) == Flatten(a) + Flatten(b)
    ensures ValidSlices(a + b) == ValidSlices(a) + ValidSlices(b)
    ensures TotalDuration(a + b) == TotalDuration(a) + TotalDuration(b)
  {
    if b == [] {
      assert a + b == a;
    } else {
      assert (a + b)[..|a + b| - 1] == a + b[..|b| - 1];
      GatherSplits(a, b[..|b| - 1]);
    }
  }

  lemma GatherOne(slice: Slice)
    ensures Flatten([slice]) == slice.points
    ensures ValidSlices([slice]) == if slice.points == [] then 0 else 1
    ensures TotalDuration([slice]) == if slice.points == [] then 0 else slice.durationUs
  {
    assert [slice][..0] == [];
  }
}
