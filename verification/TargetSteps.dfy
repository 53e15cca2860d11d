/**
 * The operations of a target cut into the steps that other threads can come between: every atomic
 * access outside the queue lock is a step of its own, and so is every part of a critical section
 * that touches the unlocked flags. A step sees the shared state and the program counter of one thread.
 */
module TargetSteps {
  import opened Points
  import opened LiveLimit
  import opened BoundaryDrop
  import opened AutoLatency
  import opened TargetState

  datatype Op =
    | SubmitContinuous(points: seq<LaserPoint>, commanded: nat)
    | ReplaceFrame(points: seq<LaserPoint>, slices: nat, commanded: nat)
    | SubmitFrame(points: seq<LaserPoint>, slices: nat, commanded: nat)
    | Reset
    | Fill(req: FillRequest)
    | Status

  datatype ContinuousPc =
    | CAnnounce(points: seq<LaserPoint>, commanded: nat)
    | CRate(points: seq<LaserPoint>, commanded: nat)
    | CObserve(points: seq<LaserPoint>)
    | CTarget(points: seq<LaserPoint>)
    | CLimit(points: seq<LaserPoint>, target: nat)
    | CEnqueue(points: seq<LaserPoint>, limit: nat)
    | CDrop(limit: nat)

  datatype ReplacePc =
    | RTarget(points: seq<LaserPoint>, slices: nat, commanded: nat)
    | RLimit(points: seq<LaserPoint>, slices: nat, commanded: nat, target: nat)
    | RMode(points: seq<LaserPoint>, slices: nat, commanded: nat, limit: nat)
    | RBuffering(points: seq<LaserPoint>, slices: nat, commanded: nat, limit: nat)
    | RAnnounce(points: seq<LaserPoint>, slices: nat, commanded: nat, limit: nat)
    | RObserve(frame: seq<LaserPoint>, commanded: nat)
    | RSwap(frame: seq<LaserPoint>, commanded: nat, downstream: nat)
    | RTrim(commanded: nat, downstream: nat)
    | RRate(commanded: nat)

  datatype WholePc =
    | WMode(points: seq<LaserPoint>, slices: nat, commanded: nat)
    | WBuffering(points: seq<LaserPoint>, slices: nat, commanded: nat)
    | WAnnounce(points: seq<LaserPoint>, slices: nat, commanded: nat)
    | WRate(points: seq<LaserPoint>, commanded: nat)
    | WClear(points: seq<LaserPoint>)
    | WSend(points: seq<LaserPoint>)

  datatype ResetPc = ZClear | ZBuffering | ZMode | ZRates

  datatype FillPc =
    | FCount(req: FillRequest)
    | FObserve(req: FillRequest)
    | FLock(req: FillRequest, downstream: nat)
    | FMode(req: FillRequest, downstream: nat, target: nat)
    | FHold(req: FillRequest, downstream: nat, target: nat, replacement: bool, short: bool)
    | FEmit(req: FillRequest, target: nat, replacement: bool, short: bool)
    | FSettle(req: FillRequest, target: nat, replacement: bool, short: bool, batch: seq<LaserPoint>)
    | FReturn(req: FillRequest, short: bool, batch: seq<LaserPoint>)

  datatype Pc =
    | Idle
    | InContinuous(c: ContinuousPc)
    | InReplace(r: ReplacePc)
    | InWhole(w: WholePc)
    | InReset(z: ResetPc)
    | InFill(f: FillPc)
    | InStatus

  /** What the environment decides for one step. */
  datatype Env = Env(now: int, hardwareRate: nat, downstream: nat, accepted: bool, op: Op)

  /** One point handed to the hardware, or the mark of a reset between two of them. */
  datatype OutEvent = Real(index: nat, point: LaserPoint) | Padding(point: LaserPoint) | Forgotten

  /**
   * What the counters of the source do not record: every point ever queued, how many of those have left
   * the queue, everything handed out, the losses that droppedPoints_ leaves out, and every shortfall
   * reported to the latency control since it held firstLatency.
   */
  datatype History = History(
    offered: set<LaserPoint>, log: seq<LaserPoint>, head: nat, out: seq<OutEvent>,
    superseded: nat, truncated: nat, cleared: nat, handed: nat,
    firstLatency: Latency, underruns: seq<Underrun>)

  datatype Shared = Shared(target: Target, history: History, lock: Option<nat>, now: int)

  datatype Outcome = Outcome(shared: Shared, pc: Pc)

  predicate Holds(pc: Pc) {
    match pc
    case InContinuous(c) => c.CDrop?
    case InReplace(r) => r.RTrim?
    case InFill(f) => f.FMode? || f.FHold? || f.FEmit? || f.FSettle? || f.FReturn?
    case _ => false
  }

  /** The next step takes the queue lock, in one go or to keep it for more steps. */
  predicate Waits(pc: Pc) {
    match pc
    case InContinuous(c) => c.CEnqueue?
    case InReplace(r) => r.RSwap?
    case InWhole(w) => w.WClear?
    case InReset(z) => z.ZClear?
    case InFill(f) => f.FLock?
    case _ => false
  }

  function Begin(op: Op): Pc {
    match op
    case SubmitContinuous(points, commanded) =>
      if points == [] then Idle else InContinuous(CAnnounce(points, commanded))
    case ReplaceFrame(points, slices, commanded) =>
      if points == [] then Idle else InReplace(RTarget(points, slices, commanded))
    case SubmitFrame(points, slices, commanded) =>
      if points == [] then Idle else InWhole(WMode(points, slices, commanded))
    case Reset => InReset(ZClear)
    case Fill(req) => if req.maximum == 0 then Idle else InFill(FCount(req))
    case Status => InStatus
  }

  function OpPoints(op: Op): seq<LaserPoint> {
    match op
    case SubmitContinuous(points, _) => points
    case ReplaceFrame(points, _, _) => points
    case SubmitFrame(points, _, _) => points
    case _ => []
  }

  function OnTarget(s: Shared, t: Target): Shared { s.(target := t) }

  /** Points `head..` of the log become the queue after `n` of them left it. */
  function Advance(h: History, n: nat): History { h.(head := h.head + n) }

  function StepContinuous(c: Config, id: nat, s: Shared, pc: ContinuousPc, e: Env): Outcome
    requires ValidConfig(c)
  {
    match pc
    case CAnnounce(points, commanded) =>
      // the mode store at the head of the operation happened when it began
      Outcome(OnTarget(s, Announce(s.target, 1, 0, |points|)), InContinuous(CRate(points, commanded)))
    case CRate(points, commanded) =>
      Outcome(OnTarget(s, UpdateRate(c, s.target, commanded, e.hardwareRate)), InContinuous(CObserve(points)))
    case CObserve(points) =>
      Outcome(OnTarget(s, Observe(s.target, e.downstream)), InContinuous(CTarget(points)))
    case CTarget(points) =>
      Outcome(s, InContinuous(CLimit(points, TargetPoints(c, s.target))))
    case CLimit(points, target) =>
      Outcome(OnTarget(s, AnnounceLit(s.target, CountLit(points))),
              InContinuous(CEnqueue(points, ContinuousLimit(c, target, s.target.rate))))
    case CEnqueue(points, limit) =>
      Outcome(s.(target := Enqueue(s.target, points, e.now),
                 history := s.history.(log := s.history.log + points), lock := Some(id)),
              InContinuous(CDrop(limit)))
    case CDrop(limit) =>
      Outcome(s.(target := DropToLimit(s.target, limit),
                 history := Advance(s.history, DropCount(s.target.queue, limit)), lock := None),
              Idle)
  }

  function StepReplace(c: Config, id: nat, s: Shared, pc: ReplacePc, e: Env): Outcome
    requires ValidConfig(c)
  {
    match pc
    case RTarget(points, slices, commanded) =>
      Outcome(s, InReplace(RLimit(points, slices, commanded, TargetPoints(c, s.target))))
    case RLimit(points, slices, commanded, target) =>
      Outcome(s, InReplace(RMode(points, slices, commanded, ReplacementLimit(c, target, s.target.rate))))
    case RMode(points, slices, commanded, limit) =>
      Outcome(OnTarget(s, s.target.(frameReplacement := true)),
              InReplace(RBuffering(points, slices, commanded, limit)))
    case RBuffering(points, slices, commanded, limit) =>
      Outcome(OnTarget(s, s.target.(buffering := false)),
              InReplace(RAnnounce(points, slices, commanded, limit)))
    case RAnnounce(points, slices, commanded, limit) =>
      var kept := Min(|points|, limit);
      Outcome(s.(target := AnnounceLit(Announce(s.target, slices, 1, |points|), CountLit(points)),
                 history := s.history.(truncated := s.history.truncated + |points| - kept)),
              InReplace(RObserve(points[..kept], commanded)))
    case RObserve(frame, commanded) =>
      Outcome(OnTarget(s, Observe(s.target, e.downstream)), InReplace(RSwap(frame, commanded, e.downstream)))
    case RSwap(frame, commanded, downstream) =>
      Outcome(s.(target := SwapIn(s.target, frame, e.now),
                 history := s.history.(log := s.history.log + frame, head := |s.history.log|,
                                       superseded := s.history.superseded + |s.target.queue|),
                 lock := Some(id)),
              InReplace(RTrim(commanded, downstream)))
    case RTrim(commanded, downstream) =>
      var n := TrimCount(|s.target.queue|, downstream, c.maxQueuedPoints);
      Outcome(s.(target := TrimSwapped(c, s.target, downstream),
                 history := Advance(s.history, n), lock := None),
              InReplace(RRate(commanded)))
    case RRate(commanded) =>
      Outcome(OnTarget(s, UpdateRate(c, s.target, commanded, e.hardwareRate)), Idle)
  }

  function StepWhole(c: Config, s: Shared, pc: WholePc, e: Env): Outcome
    requires ValidConfig(c)
  {
    match pc
    case WMode(points, slices, commanded) =>
      Outcome(OnTarget(s, s.target.(frameReplacement := false)), InWhole(WBuffering(points, slices, commanded)))
    case WBuffering(points, slices, commanded) =>
      Outcome(OnTarget(s, s.target.(buffering := false)), InWhole(WAnnounce(points, slices, commanded)))
    case WAnnounce(points, slices, commanded) =>
      Outcome(OnTarget(s, AnnounceLit(Announce(s.target, slices, 1, |points|), CountLit(points))),
              InWhole(WRate(points, commanded)))
    case WRate(points, commanded) =>
      Outcome(OnTarget(s, UpdateRate(c, s.target, commanded, e.hardwareRate)), InWhole(WClear(points)))
    case WClear(points) =>
      Outcome(s.(target := ClearForFrame(s.target, e.now),
                 history := s.history.(head := |s.history.log|,
                                       cleared := s.history.cleared + |s.target.queue|)),
              InWhole(WSend(points)))
    case WSend(points) =>
      if e.accepted then
        Outcome(s.(history := s.history.(handed := s.history.handed + |points|)), Idle)
      else
        Outcome(OnTarget(s, CountDropped(s.target, |points|)), Idle)
  }

  function StepReset(s: Shared, pc: ResetPc): Outcome {
    match pc
    case ZClear =>
      Outcome(s.(target := ClearForReset(s.target),
                 history := s.history.(head := |s.history.log|, out := s.history.out + [Forgotten],
                                       cleared := s.history.cleared + |s.target.queue|)),
              InReset(ZBuffering))
    case ZBuffering => Outcome(OnTarget(s, s.target.(buffering := true)), InReset(ZMode))
    case ZMode => Outcome(OnTarget(s, s.target.(frameReplacement := false)), InReset(ZRates))
    case ZRates => Outcome(OnTarget(s, ResetRates(s.target)), Idle)
  }

  function Reals(points: seq<LaserPoint>, first: nat): (r: seq<OutEvent>)
    ensures |r| == |points| && forall k :: 0 <= k < |r| ==> r[k] == Real(first + k, points[k])
  {
    seq(|points|, k requires 0 <= k < |points| => Real(first + k, points[k]))
  }

  function Paddings(points: seq<LaserPoint>): (r: seq<OutEvent>)
    ensures |r| == |points| && forall k :: 0 <= k < |r| ==> r[k] == Padding(points[k])
  {
    seq(|points|, k requires 0 <= k < |points| => Padding(points[k]))
  }

  /** The shortfall that a callback reports to the latency control, if any. */
  function Reported(req: FillRequest, written: nat, replacement: bool, short: bool, target: nat, now: int):
    seq<Underrun>
  {
    if written >= req.minimum || short || replacement then []
    else [Underrun(now, req.minimum - written, req.minimum, target)]
  }

  function StepFill(c: Config, id: nat, s: Shared, pc: FillPc, e: Env): Outcome
    requires ValidConfig(c)
  {
    match pc
    case FCount(req) => Outcome(OnTarget(s, CountCall(s.target)), InFill(FObserve(req)))
    case FObserve(req) => Outcome(s, InFill(FLock(req, s.target.downstream)))
    case FLock(req, downstream) =>
      Outcome(s.(lock := Some(id)), InFill(FMode(req, downstream, TargetPoints(c, s.target))))
    case FMode(req, downstream, target) =>
      Outcome(s, InFill(FHold(req, downstream, target, s.target.frameReplacement,
                              ShortAllowed(s.target, req, e.now))))
    case FHold(req, downstream, target, replacement, short) =>
      if MustHold(s.target, replacement, short, |s.target.queue| + downstream, target) then
        var batch := Repeat(Fallback(s.target.last), req.minimum);
        Outcome(s.(target := CountUnderrun(s.target, req.minimum),
                   history := s.history.(out := s.history.out + Paddings(batch))),
                InFill(FReturn(req, short, batch)))
      else
        Outcome(s, InFill(FEmit(req, target, replacement, short)))
    case FEmit(req, target, replacement, short) =>
      var n := Min(req.maximum, |s.target.queue|);
      var batch := s.target.queue[..n];
      Outcome(s.(target := Emit(s.target, n),
                 history := Advance(s.history, n).(out := s.history.out + Reals(batch, s.history.head))),
              InFill(FSettle(req, target, replacement, short, batch)))
    case FSettle(req, target, replacement, short, batch) =>
      var padding := TargetState.Padding(s.target, req, |batch|, short);
      Outcome(s.(target := Settle(c, s.target, req, |batch|, replacement, short, target, e.now),
                 history := s.history.(
                   out := s.history.out + Paddings(padding),
                   underruns := s.history.underruns
                                + Reported(req, |batch|, replacement, short, target, e.now))),
              InFill(FReturn(req, short, batch + padding)))
    case FReturn(req, short, batch) => Outcome(s.(lock := None), Idle)
  }

  /** One step of thread `id`. Starting an operation also runs its first store. */
  function Step(c: Config, id: nat, s: Shared, pc: Pc, e: Env): Outcome
    requires ValidConfig(c)
  {
    match pc
    case Idle =>
      var pc' := Begin(e.op);
      var offered := s.(history := s.history.(offered := s.history.offered + set p | p in OpPoints(e.op)));
      Outcome(if pc'.InContinuous? then OnTarget(offered, s.target.(frameReplacement := false)) else offered, pc')
    case InContinuous(k) => StepContinuous(c, id, s, k, e)
    case InReplace(k) => StepReplace(c, id, s, k, e)
    case InWhole(k) => StepWhole(c, s, k, e)
    case InReset(k) => StepReset(s, k)
    case InFill(k) => StepFill(c, id, s, k, e)
    case InStatus => Outcome(OnTarget(s, Observe(s.target, e.downstream)), Idle)
  }
}
