/**
 * The target sink as an object: its submissions and its point callback, each run without interleaving.
 * Every method is tied to the composition of the atomic pieces in TargetState.
 */
module LiberaTarget {
  import opened Points
  import opened LiveLimit
  import opened BoundaryDrop
  import opened AutoLatency
  import opened TargetState

  datatype SubmissionResult = SubmissionResult(
    accepted: bool, submittedPoints: nat, acceptedPoints: nat, droppedPoints: nat)

  function MakeResult(accepted: bool, submitted: nat, dropped: nat): SubmissionResult {
    SubmissionResult(accepted, submitted, if accepted then submitted - Min(submitted, dropped) else 0, dropped)
  }

  function Flatten(slices: seq<Slice>): seq<LaserPoint> {
    if slices == [] then [] else Flatten(slices[..|slices| - 1]) + slices[|slices| - 1].points
  }

  function ValidSlices(slices: seq<Slice>): nat {
    if slices == [] then 0
    else ValidSlices(slices[..|slices| - 1]) + if slices[|slices| - 1].points == [] then 0 else 1
  }

  function TotalDuration(slices: seq<Slice>): nat {
    if slices == [] then 0
    else TotalDuration(slices[..|slices| - 1])
         + if slices[|slices| - 1].points == [] then 0 else slices[|slices| - 1].durationUs
  }

  lemma {:induction false} CountLitAppend(a: seq<LaserPoint>, b: seq<LaserPoint>)
    ensures CountLit(a + b) == CountLit(a) + CountLit(b)
  {
    if b == [] {
      assert a + b == a;
    } else {
      assert (a + b)[..|a + b| - 1] == a + b[..|b| - 1];
      CountLitAppend(a, b[..|b| - 1]);
    }
  }

  // --- whole operations as functions of the state before ---

  /** A continuous submission up to the point where its points are all queued. */
  function Admit(c: Config, s: Target, points: seq<LaserPoint>, commanded: nat,
                 hardwareRate: nat, downstream: nat, now: int): Target
    requires ValidConfig(c)
  {
    var s1 := Announce(s.(frameReplacement := false), 1, 0, |points|);
    var s2 := Observe(UpdateRate(c, s1, commanded, hardwareRate), downstream);
    Enqueue(AnnounceLit(s2, CountLit(points)), points, now)
  }

  function LimitNow(c: Config, s: Target): (limit: nat)
    requires ValidConfig(c)
    ensures 1000 <= limit <= c.maxQueuedPoints
  {
    ContinuousLimit(c, TargetPoints(c, s), s.rate)
  }

  function AfterContinuous(c: Config, s: Target, points: seq<LaserPoint>, commanded: nat,
                           hardwareRate: nat, downstream: nat, now: int): Target
    requires ValidConfig(c)
  {
    var s1 := Admit(c, s, points, commanded, hardwareRate, downstream, now);
    DropToLimit(s1, LimitNow(c, s1))
  }

  /** A frame replacement up to the point where the frame is queued. */
  function AdmitFrame(s: Target, points: seq<LaserPoint>, frame: seq<LaserPoint>, validSlices: nat,
                      downstream: nat, now: int): Target
  {
    var s1 := Announce(s.(frameReplacement := true, buffering := false), validSlices, 1, |points|);
    SwapIn(Observe(AnnounceLit(s1, CountLit(points)), downstream), frame, now)
  }

  function Truncated(c: Config, s: Target, points: seq<LaserPoint>): (frame: seq<LaserPoint>)
    requires ValidConfig(c)
    ensures frame <= points && |frame| <= c.maxQueuedPoints
  {
    points[..Min(|points|, ReplacementLimit(c, TargetPoints(c, s), s.rate))]
  }

  function AfterReplace(c: Config, s: Target, slices: seq<Slice>, hardwareRate: nat,
                        downstream: nat, now: int): Target
    requires ValidConfig(c)
  {
    var points := Flatten(slices);
    var s1 := AdmitFrame(s, points, Truncated(c, s, points), ValidSlices(slices), downstream, now);
    UpdateRate(c, TrimSwapped(c, s1, downstream), InferredRate(|points|, TotalDuration(slices)), hardwareRate)
  }

  /** A frame handed to the controller's own queue, up to that queue's answer. */
  function AdmitWhole(c: Config, s: Target, points: seq<LaserPoint>, validSlices: nat,
                      commanded: nat, hardwareRate: nat, now: int): Target
    requires ValidConfig(c)
  {
    var s1 := Announce(s.(frameReplacement := false, buffering := false), validSlices, 1, |points|);
    ClearForFrame(UpdateRate(c, AnnounceLit(s1, CountLit(points)), commanded, hardwareRate), now)
  }

  function AfterFrame(c: Config, s: Target, slices: seq<Slice>, commanded: nat, hardwareRate: nat,
                      accepted: bool, downstream: nat, now: int): Target
    requires ValidConfig(c)
  {
    var points := Flatten(slices);
    var s1 := AdmitWhole(c, s, points, ValidSlices(slices), commanded, hardwareRate, now);
    Observe(CountDropped(s1, if accepted then 0 else |points|), downstream)
  }

  function AfterReset(s: Target): Target {
    ResetRates(ClearForReset(s).(buffering := true, frameReplacement := false))
  }

  /** A counted callback, given whether it may come up short and how many points should be buffered. */
  function FillAt(c: Config, s: Target, req: FillRequest, short: bool, target: nat, now: int)
    : (Target, seq<LaserPoint>)
  {
    if MustHold(s, s.frameReplacement, short, |s.queue| + s.downstream, target) then
      (CountUnderrun(s, req.minimum), Repeat(Fallback(s.last), req.minimum))
    else
      var written := Min(req.maximum, |s.queue|);
      var s2 := Emit(s, written);
      (Settle(c, s2, req, written, s.frameReplacement, short, target, now),
       s.queue[..written] + Padding(s2, req, written, short))
  }

  /** One point callback: the state after it and the points it handed out. */
  function AfterFill(c: Config, s: Target, req: FillRequest, now: int): (Target, seq<LaserPoint>)
    requires ValidConfig(c)
  {
    if req.maximum == 0 then (s, [])
    else
      var s1 := CountCall(s);
      FillAt(c, s1, req, ShortAllowed(s1, req, now), TargetPoints(c, s1), now)
  }

  class LiberaTarget {
    const config: Config
    var pendingPoints: seq<LaserPoint>
    var lastOutputPoint: Option<LaserPoint>
    var lastInputAt: Option<int>
    var frameReplacementMode: bool
    var buffering: bool
    var currentPointRate: nat
    var commandedInputPps: nat
    var lastObservedDownstream: nat
    var latency: Latency
    var stats: Stats

    ghost function State(): Target
      reads this
    {
      Target(pendingPoints, lastOutputPoint, lastInputAt, frameReplacementMode, buffering,
             currentPointRate, commandedInputPps, lastObservedDownstream, latency, stats)
    }

    /** `maxPointRate` is what the controller declares: 0 or at least 1000. */
    constructor (maxPointRate: nat, isAvb: bool, controllerRate: nat,
                 maxQueuedPoints: nat, latencyMs: nat, maxLatencyMs: nat, autoLatency: bool)
      requires maxPointRate == 0 || maxPointRate >= 1000
      ensures ValidConfig(config) && latencyMs <= config.maxLatencyMs
      ensures config.maxLatencyMs == Max(maxLatencyMs, latencyMs)
      ensures State().queue == [] && State().last.None? && State().buffering && State().latency == Latency(latencyMs, 0, 0, 0)
      ensures State().rate >= 1000 && (!isAvb ==> State().rate <= config.maxPointRate)
      ensures State().commandedRate == State().rate
    {
      var rateCap := if maxPointRate > 0 then maxPointRate else 100000;
      var initialRate := if isAvb then controllerRate else Min(30000, rateCap);
      var startingRate := Max(initialRate, 1000);
      config := Config(Max(maxQueuedPoints, 1000), rateCap, isAvb, autoLatency, Max(maxLatencyMs, latencyMs));
      pendingPoints, lastOutputPoint, lastInputAt := [], None, None;
      frameReplacementMode, buffering := false, true;
      currentPointRate, commandedInputPps, lastObservedDownstream := startingRate, startingRate, 0;
      latency := Latency(latencyMs, 0, 0, 0);
      stats := Stats(0, 0, 0, 0, 0, 0, 0, 0, 0, 0);
    }

    method MaybeUpdatePointRate(commanded: nat, hardwareRate: nat)
      requires ValidConfig(config)
      modifies this`currentPointRate, this`commandedInputPps
      ensures State() == UpdateRate(config, old(State()), commanded, hardwareRate)
    {
      if commanded == 0 {
        return;
      }
      var proposed := Clamp(commanded, 1000, config.maxPointRate);
      commandedInputPps := proposed;
      if proposed == currentPointRate {
        return;
      }
      currentPointRate := if config.isAvb then hardwareRate else proposed;
    }

    method PushBack(points: seq<LaserPoint>)
      modifies this`pendingPoints
      ensures pendingPoints == old(pendingPoints) + points
    {
      for k := 0 to |points|
        invariant pendingPoints == old(pendingPoints) + points[..k]
      {
        pendingPoints := pendingPoints + [points[k]];
      }
    }

    /** Pop `n` points and count them as dropped. */
    method PopFront(n: nat)
      requires n <= |pendingPoints|
      modifies this`pendingPoints, this`stats
      ensures State() == DropFront(old(State()), n)
    {
      var dropCount := 0;
      while pendingPoints != [] && dropCount < n
        modifies this`pendingPoints
        invariant 0 <= dropCount <= n
        invariant pendingPoints == old(pendingPoints)[dropCount..]
      {
        pendingPoints := pendingPoints[1..];
        dropCount := dropCount + 1;
      }
      if dropCount > 0 {
        stats := stats.(droppedPoints := stats.droppedPoints + dropCount);
      }
    }

    method LiveContinuousPointLimit() returns (limit: nat)
      requires ValidConfig(config)
      ensures 1000 <= limit && limit == LimitNow(config, State())
    {
      var target := TargetBufferedPoints(currentPointRate, latency.ms, config.maxQueuedPoints);
      limit := ContinuousLimit(config, target, currentPointRate);
    }

    /** The search of the drop loop: first boundary at or after the excess, with its blank run counted back. */
    method FindDrop(limit: nat) returns (drop: nat)
      ensures drop == DropCount(pendingPoints, limit)
    {
      drop := 0;
      if |pendingPoints| <= limit {
        return;
      }
      drop := |pendingPoints| - limit;
      var searchStart := Min(Max(drop, 1), |pendingPoints|);
      var i := searchStart;
      while i < |pendingPoints|
        invariant 1 <= searchStart <= i <= |pendingPoints|
        invariant drop == |pendingPoints| - limit
        invariant FirstBoundary(pendingPoints, searchStart) == FirstBoundary(pendingPoints, i)
      {
        if !IsBlankForBoundary(pendingPoints[i]) && IsBlankForBoundary(pendingPoints[i - 1]) {
          var blankRun, j := 0, i;
          while j > 0 && IsBlankForBoundary(pendingPoints[j - 1])
            invariant 0 <= j <= i && blankRun == i - j
            invariant forall k :: j <= k < i ==> IsBlankForBoundary(pendingPoints[k])
          {
            j := j - 1;
            blankRun := blankRun + 1;
          }
          if blankRun >= 2 {
            assert IsBoundary(pendingPoints, i);
            return i;
          }
        }
        assert !IsBoundary(pendingPoints, i);
        i := i + 1;
      }
    }

    /** Announce and queue the points; the limit is the one in force once the rate is updated. */
    method AdmitPoints(points: seq<LaserPoint>, commanded: nat, hardwareRate: nat, downstream: nat, now: int)
        returns (limit: nat)
      requires ValidConfig(config)
      modifies this
      ensures State() == Admit(config, old(State()), points, commanded, hardwareRate, downstream, now)
      ensures 1000 <= limit && limit == LimitNow(config, State())
    {
      frameReplacementMode := false;
      stats := stats.(receivedSlices := stats.receivedSlices + 1,
                      receivedPoints := stats.receivedPoints + |points|);
      assert State() == Announce(old(State()).(frameReplacement := false), 1, 0, |points|);
      MaybeUpdatePointRate(commanded, hardwareRate);
      lastObservedDownstream := downstream;
      limit := LiveContinuousPointLimit();
      stats := stats.(receivedLitPoints := stats.receivedLitPoints + CountLit(points));
      lastInputAt := Some(now);
      PushBack(points);
    }

    method SubmitContinuous(points: seq<LaserPoint>, effectiveRate: Option<nat>, durationUs: nat,
                            hardwareRate: nat, downstream: nat, now: int) returns (r: SubmissionResult)
      requires ValidConfig(config)
      modifies this
      ensures points == [] ==> State() == Observe(old(State()), downstream) && r == MakeResult(false, 0, 0)
      ensures points != [] ==>
        && State() == AfterContinuous(config, old(State()), points,
                        CommandedRate(effectiveRate, |points|, durationUs), hardwareRate, downstream, now)
        && r == MakeResult(true, |points|, stats.droppedPoints - old(stats.droppedPoints))
    {
      if |points| == 0 {
        lastObservedDownstream := downstream;
        return MakeResult(false, 0, 0);
      }
      var limit := AdmitPoints(points, CommandedRate(effectiveRate, |points|, durationUs),
                               hardwareRate, downstream, now);
      var drop := FindDrop(limit);
      PopFront(drop);
      r := MakeResult(true, |points|, drop);
    }

    /** Gather the nonempty slices of a frame. */
    static method Gather(slices: seq<Slice>)
        returns (points: seq<LaserPoint>, lit: nat, validSlices: nat, durationUs: nat)
      ensures points == Flatten(slices) && lit == CountLit(points)
      ensures validSlices == ValidSlices(slices) && durationUs == TotalDuration(slices)
    {
      points, lit, validSlices, durationUs := [], 0, 0, 0;
      for k := 0 to |slices|
        invariant points == Flatten(slices[..k]) && lit == CountLit(points)
        invariant validSlices == ValidSlices(slices[..k]) && durationUs == TotalDuration(slices[..k])
      {
        assert slices[..k + 1][..k] == slices[..k];
        var slice := slices[k];
        if slice.points != [] {
          CountLitAppend(points, slice.points);
          validSlices := validSlices + 1;
          durationUs := durationUs + slice.durationUs;
          lit := lit + CountLit(slice.points);
          points := points + slice.points;
        }
      }
      assert slices[..|slices|] == slices;
    }

    method TrimToFit(downstream: nat) returns (dropCount: nat)
      requires ValidConfig(config)
      modifies this`pendingPoints, this`stats
      ensures State() == TrimSwapped(config, old(State()), downstream)
      ensures dropCount == stats.droppedPoints - old(stats.droppedPoints)
    {
      dropCount := 0;
      while pendingPoints != [] && |pendingPoints| + downstream > config.maxQueuedPoints
        modifies this`pendingPoints
        invariant dropCount <= TrimCount(|old(pendingPoints)|, downstream, config.maxQueuedPoints)
        invariant pendingPoints == old(pendingPoints)[dropCount..]
      {
        pendingPoints := pendingPoints[1..];
        dropCount := dropCount + 1;
      }
      if dropCount > 0 {
        stats := stats.(droppedPoints := stats.droppedPoints + dropCount);
      }
    }

    method QueueFrame(points: seq<LaserPoint>, replacement: seq<LaserPoint>, lit: nat, validSlices: nat,
                      downstream: nat, now: int)
      requires lit == CountLit(points)
      modifies this
      ensures State() == AdmitFrame(old(State()), points, replacement, validSlices, downstream, now)
    {
      frameReplacementMode := true;
      buffering := false;
      stats := stats.(receivedSlices := stats.receivedSlices + validSlices,
                      receivedFrames := stats.receivedFrames + 1,
                      receivedPoints := stats.receivedPoints + |points|,
                      receivedLitPoints := stats.receivedLitPoints + lit);
      lastObservedDownstream := downstream;
      lastInputAt := Some(now);
      pendingPoints := replacement;
    }

    method ReplaceFrame(slices: seq<Slice>, hardwareRate: nat, downstream: nat, now: int)
        returns (r: SubmissionResult)
      requires ValidConfig(config)
      modifies this
      ensures Flatten(slices) == [] ==>
        State() == Observe(old(State()), downstream) && r == MakeResult(false, 0, 0)
      ensures Flatten(slices) != [] ==>
        && State() == AfterReplace(config, old(State()), slices, hardwareRate, downstream, now)
        && r == MakeResult(true, |Flatten(slices)|, stats.droppedPoints - old(stats.droppedPoints))
    {
      var points, lit, validSlices, durationUs := Gather(slices);
      if points == [] {
        lastObservedDownstream := downstream;
        return MakeResult(false, 0, 0);
      }
      var target := TargetBufferedPoints(currentPointRate, latency.ms, config.maxQueuedPoints);
      var limit := ReplacementLimit(config, target, currentPointRate);
      var replacement := points;
      if |replacement| > limit {
        replacement := replacement[..limit];
      }
      assert replacement == Truncated(config, State(), points);
      QueueFrame(points, replacement, lit, validSlices, downstream, now);
      var dropCount := TrimToFit(downstream);
      MaybeUpdatePointRate(InferredRate(|points|, durationUs), hardwareRate);
      r := MakeResult(true, |points|, dropCount);
    }

    method AnnounceWhole(points: nat, lit: nat, validSlices: nat)
      modifies this`frameReplacementMode, this`buffering, this`stats
      ensures State() == AnnounceLit(Announce(old(State()).(frameReplacement := false, buffering := false),
                                              validSlices, 1, points), lit)
    {
      frameReplacementMode := false;
      buffering := false;
      stats := stats.(receivedSlices := stats.receivedSlices + validSlices,
                      receivedFrames := stats.receivedFrames + 1,
                      receivedPoints := stats.receivedPoints + points);
      stats := stats.(receivedLitPoints := stats.receivedLitPoints + lit);
    }

    method SendWhole(points: seq<LaserPoint>, lit: nat, validSlices: nat, commanded: nat,
                     hardwareRate: nat, accepted: bool, now: int) returns (dropped: nat)
      requires ValidConfig(config) && lit == CountLit(points)
      modifies this
      ensures State() == CountDropped(
                AdmitWhole(config, old(State()), points, validSlices, commanded, hardwareRate, now), dropped)
      ensures dropped == if accepted then 0 else |points|
    {
      AnnounceWhole(|points|, lit, validSlices);
      MaybeUpdatePointRate(commanded, hardwareRate);
      pendingPoints := [];
      lastInputAt := Some(now);
      dropped := CountRefused(accepted, |points|);
    }

    method CountRefused(accepted: bool, count: nat) returns (dropped: nat)
      modifies this`stats
      ensures dropped == (if accepted then 0 else count) && State() == CountDropped(old(State()), dropped)
    {
      dropped := if accepted then 0 else count;
      if !accepted {
        stats := stats.(droppedPoints := stats.droppedPoints + dropped);
      }
    }

    /** `accepted` is the answer of the controller's own frame queue. */
    method SubmitFrame(slices: seq<Slice>, effectiveRate: Option<nat>, hardwareRate: nat,
                       accepted: bool, downstream: nat, now: int) returns (r: SubmissionResult)
      requires ValidConfig(config)
      modifies this
      ensures Flatten(slices) == [] ==>
        State() == Observe(old(State()), downstream) && r == MakeResult(false, 0, 0)
      ensures Flatten(slices) != [] ==>
        && State() == AfterFrame(config, old(State()), slices,
                        CommandedRate(effectiveRate, |Flatten(slices)|, TotalDuration(slices)),
                        hardwareRate, accepted, downstream, now)
        && r == MakeResult(accepted, |Flatten(slices)|, if accepted then 0 else |Flatten(slices)|)
    {
      var points, lit, validSlices, durationUs := Gather(slices);
      if points == [] {
        lastObservedDownstream := downstream;
        return MakeResult(false, 0, 0);
      }
      var commanded := CommandedRate(effectiveRate, |points|, durationUs);
      var dropped := SendWhole(points, lit, validSlices, commanded, hardwareRate, accepted, now);
      lastObservedDownstream := downstream;
      r := MakeResult(accepted, |points|, dropped);
    }

    method Reset()
      modifies this
      ensures State() == AfterReset(old(State()))
    {
      pendingPoints := [];
      lastInputAt := None;
      lastOutputPoint := None;
      buffering := true;
      frameReplacementMode := false;
      commandedInputPps := currentPointRate;
      lastObservedDownstream := 0;
    }

    method MaybeIncreaseLatencyOnUnderrun(missing: nat, minimumRequired: nat, targetPoints: nat, now: int)
      modifies this`latency
      ensures State() == old(State()).(latency :=
                OnUnderrun(config.autoLatency, config.maxLatencyMs, old(State()).latency,
                           Underrun(now, missing, minimumRequired, targetPoints)))
      ensures RightAfter(config.autoLatency, config.maxLatencyMs, old(latency),
                         Underrun(now, missing, minimumRequired, targetPoints), latency)
    {
      RightAfterUnderrun(config.autoLatency, config.maxLatencyMs, latency,
                         Underrun(now, missing, minimumRequired, targetPoints));
      if !config.autoLatency || minimumRequired == 0 {
        return;
      }
      if now - latency.lastSample > SAMPLE_WINDOW {
        latency := latency.(accumulated := 0);
      }
      latency := latency.(lastSample := now, accumulated := latency.accumulated + missing);
      if now - latency.lastIncrease < RAISE_INTERVAL {
        return;
      }
      var threshold := Max(minimumRequired / 2, Max(100, targetPoints / 3));
      if latency.accumulated < threshold {
        return;
      }
      var before := latency.ms;
      if before >= config.maxLatencyMs {
        latency := latency.(accumulated := 0);
        return;
      }
      var after := Min(config.maxLatencyMs, before + Max(10, before / 10));
      latency := latency.(ms := after, lastIncrease := now, accumulated := 0);
    }

    method AppendFallbackPoints(points: seq<LaserPoint>, count: nat) returns (padded: seq<LaserPoint>)
      ensures padded == points + Repeat(Fallback(State().last), count)
    {
      var fallback := DEFAULT_POINT;
      if lastOutputPoint.Some? {
        fallback := lastOutputPoint.value.(r := 0.0, g := 0.0, b := 0.0, i := 0.0);
      }
      padded := points + Repeat(fallback, count);
    }

    method TakeFront(n: nat) returns (out: seq<LaserPoint>)
      requires n <= |pendingPoints|
      modifies this`pendingPoints, this`stats, this`buffering, this`lastOutputPoint
      ensures out == old(pendingPoints)[..n]
      ensures State() == Emit(old(State()), n)
    {
      buffering := false;
      out := [];
      for k := 0 to n
        modifies this`pendingPoints
        invariant out == old(pendingPoints)[..k] && pendingPoints == old(pendingPoints)[k..]
      {
        out := out + [pendingPoints[0]];
        pendingPoints := pendingPoints[1..];
      }
      stats := stats.(emittedPoints := stats.emittedPoints + n);
      if n > 0 {
        lastOutputPoint := Some(out[|out| - 1]);
      }
    }

    /** After the real points: pad with fallback points, or leave a permitted short read as it is. */
    method PadOrRequestMore(req: FillRequest, points: seq<LaserPoint>, frameReplacement: bool,
                            allowShortRead: bool, targetPoints: nat, now: int)
        returns (out: seq<LaserPoint>)
      modifies this`stats, this`buffering, this`latency
      ensures State() == Settle(config, old(State()), req, |points|, frameReplacement, allowShortRead,
                                targetPoints, now)
      ensures out == points + Padding(old(State()), req, |points|, allowShortRead)
    {
      out := points;
      if |points| < req.minimum {
        var blankCount := req.minimum - |points|;
        if allowShortRead {
          if !frameReplacement {
            buffering := true;
          }
        } else {
          stats := stats.(underrunEvents := stats.underrunEvents + 1,
                          underrunPoints := stats.underrunPoints + blankCount);
          if !frameReplacement {
            MaybeIncreaseLatencyOnUnderrun(blankCount, req.minimum, targetPoints, now);
          }
          out := AppendFallbackPoints(out, blankCount);
          stats := stats.(blankFillPoints := stats.blankFillPoints + blankCount);
          buffering := !frameReplacement;
        }
      }
    }

    /** The hardware callback; the caller passes an empty output vector. */
    method FillFromQueue(req: FillRequest, now: int) returns (out: seq<LaserPoint>)
      requires ValidConfig(config)
      modifies this
      ensures (State(), out) == AfterFill(config, old(State()), req, now)
    {
      out := [];
      if req.maximum == 0 {
        return;
      }
      stats := stats.(callbackCalls := stats.callbackCalls + 1);
      ghost var called := State();
      var availableAtStart := |pendingPoints|;
      var targetPoints := TargetBufferedPoints(currentPointRate, latency.ms, config.maxQueuedPoints);
      var frameReplacement := frameReplacementMode;
      var sourceIdle := lastInputAt.None? || (pendingPoints == [] && now - lastInputAt.value >= IDLE_THRESHOLD);
      var allowShortRead := req.allowShortRead && !sourceIdle;
      if !frameReplacement && !allowShortRead && buffering
         && availableAtStart + lastObservedDownstream < targetPoints {
        stats := stats.(underrunEvents := stats.underrunEvents + 1,
                        underrunPoints := stats.underrunPoints + req.minimum);
        out := AppendFallbackPoints(out, req.minimum);
        stats := stats.(blankFillPoints := stats.blankFillPoints + req.minimum);
        assert State() == CountUnderrun(called, req.minimum);
        assert out == Repeat(Fallback(called.last), req.minimum);
        return;
      }
      var toWrite := Min(req.maximum, |pendingPoints|);
      out := TakeFront(toWrite);
      out := PadOrRequestMore(req, out, frameReplacement, allowShortRead, targetPoints, now);
    }
  }

  // --- what single operations promise ---

  lemma LimitCoversTarget(c: Config, s: Target)
    requires ValidConfig(c)
    ensures TargetPoints(c, s) <= LimitNow(c, s)
  {
    LiveLimitExact(TargetPoints(c, s), s.rate, CONTINUOUS_MULTIPLIER, CONTINUOUS_MINIMUM_MS, c.maxQueuedPoints);
  }

  lemma DropToLimitIsCut(s: Target, limit: nat)
    requires limit >= 1
    ensures var s' := DropToLimit(s, limit);
            var n := s'.stats.droppedPoints - s.stats.droppedPoints;
      && 0 <= n <= |s.queue| && IsCut(s.queue, limit, n) && s'.queue == s.queue[n..]
      && s'.rate == s.rate && s'.latency == s.latency
  {
    DropIsCut(s.queue, limit);
  }

  /** The queue of `s` is what is left of `queued` after the right cut for the limit now in force. */
  ghost predicate RightlyCut(c: Config, queued: seq<LaserPoint>, s: Target, n: int)
    requires ValidConfig(c)
  {
    && 0 <= n <= |queued| && s.queue == queued[n..]
    && IsCut(queued, LimitNow(c, s), n)
    && TargetPoints(c, s) <= LimitNow(c, s) <= c.maxQueuedPoints
  }

  /** Boundary drop: the queue after a continuous submission is the right cut of everything that was waiting. */
  lemma ContinuousKeepsSuffix(c: Config, s: Target, points: seq<LaserPoint>, commanded: nat,
                              hardwareRate: nat, downstream: nat, now: int)
    requires ValidConfig(c)
    ensures var s' := AfterContinuous(c, s, points, commanded, hardwareRate, downstream, now);
            RightlyCut(c, s.queue + points, s', s'.stats.droppedPoints - s.stats.droppedPoints)
  {
    var s1 := Admit(c, s, points, commanded, hardwareRate, downstream, now);
    AdmitEffect(c, s, points, commanded, hardwareRate, downstream, now);
    DropKeepsSuffix(c, s1);
  }

  lemma DropKeepsSuffix(c: Config, s: Target)
    requires ValidConfig(c)
    ensures var s' := DropToLimit(s, LimitNow(c, s));
            RightlyCut(c, s.queue, s', s'.stats.droppedPoints - s.stats.droppedPoints)
  {
    DropToLimitIsCut(s, LimitNow(c, s));
    SameLimit(c, s, DropToLimit(s, LimitNow(c, s)));
    LimitCoversTarget(c, s);
  }

  lemma AdmitEffect(c: Config, s: Target, points: seq<LaserPoint>, commanded: nat,
                    hardwareRate: nat, downstream: nat, now: int)
    requires ValidConfig(c)
    ensures var s1 := Admit(c, s, points, commanded, hardwareRate, downstream, now);
      s1.queue == s.queue + points && s1.stats.droppedPoints == s.stats.droppedPoints
  {}

  lemma SameLimit(c: Config, s: Target, s': Target)
    requires ValidConfig(c) && s.rate == s'.rate && s.latency == s'.latency
    ensures TargetPoints(c, s) == TargetPoints(c, s') && LimitNow(c, s) == LimitNow(c, s')
  {}

  /** A queue at its live limit always ends the buffering hold. */
  lemma FullQueueEndsHold(c: Config, s: Target, req: FillRequest, now: int)
    requires ValidConfig(c) && req.maximum > 0
    requires |s.queue| >= LimitNow(c, s)
    ensures AfterFill(c, s, req, now).0.stats.emittedPoints == s.stats.emittedPoints + Min(req.maximum, |s.queue|)
    ensures AfterFill(c, s, req, now).0.stats.emittedPoints > s.stats.emittedPoints
  {
    LimitCoversTarget(c, s);
  }

  /** The end of a callback: what is padded, and which state it leaves. */
  predicate SettledWell(s: Target, s': Target, padding: seq<LaserPoint>, req: FillRequest, written: nat,
                        frameReplacement: bool, short: bool)
  {
    && s'.queue == s.queue && s'.last == s.last && s'.stats.emittedPoints == s.stats.emittedPoints
    && (short ==> padding == []) && (!short ==> written + |padding| >= req.minimum)
    && written + |padding| <= Max(written, req.minimum)
    && s'.stats.blankFillPoints - s.stats.blankFillPoints == |padding|
    && s'.stats.underrunPoints - s.stats.underrunPoints == |padding|
    && (forall k :: 0 <= k < |padding| ==> padding[k] == Fallback(s.last))
    && (!s.buffering ==> (s'.buffering <==> !frameReplacement && written < req.minimum))
  }

  lemma SettlePads(c: Config, s: Target, req: FillRequest, written: nat,
                   frameReplacement: bool, short: bool, target: nat, now: int)
    ensures SettledWell(s, Settle(c, s, req, written, frameReplacement, short, target, now),
                        Padding(s, req, written, short), req, written, frameReplacement, short)
  {}

  /** What one callback owes its caller, `emitted` real points being handed out. */
  predicate FillKept(s: Target, s': Target, out: seq<LaserPoint>, req: FillRequest, short: bool, emitted: int) {
    && |out| <= req.maximum
    && (!short ==> |out| >= req.minimum)
    && emitted == s'.stats.emittedPoints - s.stats.emittedPoints
    && |out| == emitted + (s'.stats.blankFillPoints - s.stats.blankFillPoints)
    && s'.stats.blankFillPoints - s.stats.blankFillPoints == s'.stats.underrunPoints - s.stats.underrunPoints
    && 0 <= emitted <= |s.queue| && emitted <= |out| && s.queue == out[..emitted] + s'.queue
    && (forall k :: emitted <= k < |out| ==> out[k] == Fallback(s'.last) && !IsLit(out[k]))
    && (emitted > 0 ==> s'.last == Some(out[emitted - 1]))
  }

  lemma HeldFillKept(s: Target, req: FillRequest)
    requires req.minimum <= req.maximum
    ensures FillKept(s, CountUnderrun(s, req.minimum), Repeat(Fallback(s.last), req.minimum), req, false, 0)
  {}

  lemma EmittedFillKept(s: Target, s': Target, padding: seq<LaserPoint>, req: FillRequest,
                        frameReplacement: bool, short: bool)
    requires req.minimum <= req.maximum
    requires var n := Min(req.maximum, |s.queue|); SettledWell(Emit(s, n), s', padding, req, n, frameReplacement, short)
    ensures var n := Min(req.maximum, |s.queue|); FillKept(s, s', s.queue[..n] + padding, req, short, n)
  {
    var n := Min(req.maximum, |s.queue|);
    var out := s.queue[..n] + padding;
    assert out[..n] == s.queue[..n] && s.queue == s.queue[..n] + s.queue[n..];
    forall k | n <= k < |out| ensures out[k] == Fallback(s'.last) && !IsLit(out[k]) {
      assert out[k] == padding[k - n];
    }
  }

  lemma FillAtKept(c: Config, s: Target, req: FillRequest, short: bool, target: nat, now: int)
    requires req.minimum <= req.maximum
    ensures var (s', out) := FillAt(c, s, req, short, target, now);
            var held := MustHold(s, s.frameReplacement, short, |s.queue| + s.downstream, target);
            var emitted := if held then 0 else Min(req.maximum, |s.queue|);
      && FillKept(s, s', out, req, short, emitted)
      && (held ==> s'.buffering && s'.queue == s.queue)
      && (!held ==> (s'.buffering <==> !s.frameReplacement && emitted < req.minimum))
  {
    if MustHold(s, s.frameReplacement, short, |s.queue| + s.downstream, target) {
      HeldFillKept(s, req);
    } else {
      var n := Min(req.maximum, |s.queue|);
      SettlePads(c, Emit(s, n), req, n, s.frameReplacement, short, target, now);
      EmittedFillKept(s, Settle(c, Emit(s, n), req, n, s.frameReplacement, short, target, now),
                      Padding(Emit(s, n), req, n, short), req, s.frameReplacement, short);
    }
  }

  /** The whole contract of one callback. */
  lemma FillContract(c: Config, s: Target, req: FillRequest, now: int)
    requires ValidConfig(c) && req.maximum > 0 && req.minimum <= req.maximum
    ensures var (s', out) := AfterFill(c, s, req, now);
            var short := ShortAllowed(s, req, now);
            var held := MustHold(s, s.frameReplacement, short, |s.queue| + s.downstream, TargetPoints(c, s));
            var emitted := if held then 0 else Min(req.maximum, |s.queue|);
      && FillKept(s, s', out, req, short, emitted)
      && (held ==> s'.buffering && s'.queue == s.queue)
      && (!held ==> (s'.buffering <==> !s.frameReplacement && emitted < req.minimum))
  {
    FillAtKept(c, CountCall(s), req, ShortAllowed(s, req, now), TargetPoints(c, s), now);
  }
}
