/**
 * What one step of one thread keeps: conservation of points, the order in which they are handed out,
 * the meaning of the padding, and the size of the queue.
 */
module TargetInvariants {
  import opened Points
  import opened LiveLimit
  import opened BoundaryDrop
  import opened AutoLatency
  import opened TargetState
  import opened TargetSteps

  // --- conservation ---

  /** Points announced by an operation under way that have not reached the queue, the controller or a loss. */
  function InFlight(pc: Pc): nat {
    match pc
    case InContinuous(CRate(points, _)) => |points|
    case InContinuous(CObserve(points)) => |points|
    case InContinuous(CTarget(points)) => |points|
    case InContinuous(CLimit(points, _)) => |points|
    case InContinuous(CEnqueue(points, _)) => |points|
    case InReplace(RObserve(frame, _)) => |frame|
    case InReplace(RSwap(frame, _, _)) => |frame|
    case InWhole(WRate(points, _)) => |points|
    case InWhole(WClear(points)) => |points|
    case InWhole(WSend(points)) => |points|
    case _ => 0
  }

  /** Every received point that has settled somewhere. */
  function Settled(s: Shared): nat {
    s.target.stats.emittedPoints + s.target.stats.droppedPoints + |s.target.queue|
    + s.history.superseded + s.history.truncated + s.history.cleared + s.history.handed
  }

  lemma StepConserves(c: Config, id: nat, s: Shared, pc: Pc, e: Env)
    requires ValidConfig(c)
    ensures var o := Step(c, id, s, pc, e);
      o.shared.target.stats.receivedPoints - Settled(o.shared) - InFlight(o.pc)
      == s.target.stats.receivedPoints - Settled(s) - InFlight(pc)
  {
    match pc
    case InContinuous(k) => ContinuousConserves(c, id, s, k, e);
    case InReplace(k) => ReplaceConserves(c, id, s, k, e);
    case InFill(k) => FillConserves(c, id, s, k, e);
    case InWhole(k) => WholeConserves(c, s, k, e);
    case InReset(k) =>
    case Idle => BeginConserves(c, id, s, e);
    case InStatus =>
  }

  lemma BeginConserves(c: Config, id: nat, s: Shared, e: Env)
    requires ValidConfig(c)
    ensures var o := Step(c, id, s, Idle, e);
      InFlight(o.pc) == 0 && Settled(o.shared) == Settled(s)
      && o.shared.target.stats == s.target.stats
  {}

  lemma WholeConserves(c: Config, s: Shared, k: WholePc, e: Env)
    requires ValidConfig(c)
    ensures var o := StepWhole(c, s, k, e);
      o.shared.target.stats.receivedPoints - Settled(o.shared) - InFlight(o.pc)
      == s.target.stats.receivedPoints - Settled(s) - InFlight(InWhole(k))
  {}

  lemma ContinuousConserves(c: Config, id: nat, s: Shared, k: ContinuousPc, e: Env)
    requires ValidConfig(c)
    ensures var o := StepContinuous(c, id, s, k, e);
      o.shared.target.stats.receivedPoints - Settled(o.shared) - InFlight(o.pc)
      == s.target.stats.receivedPoints - Settled(s) - InFlight(InContinuous(k))
  {}

  lemma ReplaceConserves(c: Config, id: nat, s: Shared, k: ReplacePc, e: Env)
    requires ValidConfig(c)
    ensures var o := StepReplace(c, id, s, k, e);
      o.shared.target.stats.receivedPoints - Settled(o.shared) - InFlight(o.pc)
      == s.target.stats.receivedPoints - Settled(s) - InFlight(InReplace(k))
  {}

  lemma FillConserves(c: Config, id: nat, s: Shared, k: FillPc, e: Env)
    requires ValidConfig(c)
    ensures var o := StepFill(c, id, s, k, e);
      o.shared.target.stats.receivedPoints - Settled(o.shared) - InFlight(o.pc)
      == s.target.stats.receivedPoints - Settled(s) - InFlight(InFill(k))
  {}

  // --- order ---

  /** The indices of the real points handed out so far rise strictly and stay below `bound`. */
  predicate RisingBelow(out: seq<OutEvent>, log: seq<LaserPoint>, bound: nat) {
    && bound <= |log|
    && (forall k :: 0 <= k < |out| && out[k].Real? ==> out[k].index < bound && out[k].point == log[out[k].index])
    && (forall j, k :: 0 <= j < k < |out| && out[j].Real? && out[k].Real? ==> out[j].index < out[k].index)
  }

  predicate Ordered(s: Shared) {
    && s.history.head <= |s.history.log|
    && s.target.queue == s.history.log[s.history.head..]
    && RisingBelow(s.history.out, s.history.log, s.history.head)
  }

  lemma MoreReals(out: seq<OutEvent>, log: seq<LaserPoint>, head: nat, n: nat)
    requires RisingBelow(out, log, head) && head + n <= |log|
    ensures RisingBelow(out + Reals(log[head..head + n], head), log, head + n)
  {}

  lemma MoreOthers(out: seq<OutEvent>, more: seq<OutEvent>, log: seq<LaserPoint>, head: nat)
    requires RisingBelow(out, log, head) && forall k :: 0 <= k < |more| ==> !more[k].Real?
    ensures RisingBelow(out + more, log, head)
  {}

  lemma LongerLog(out: seq<OutEvent>, log: seq<LaserPoint>, more: seq<LaserPoint>, head: nat, head': nat)
    requires RisingBelow(out, log, head) && head <= head' <= |log + more|
    ensures RisingBelow(out, log + more, head')
  {}

  lemma StepKeepsOrder(c: Config, id: nat, s: Shared, pc: Pc, e: Env)
    requires ValidConfig(c) && Ordered(s)
    ensures Ordered(Step(c, id, s, pc, e).shared)
    ensures s.history.log <= Step(c, id, s, pc, e).shared.history.log
    ensures s.history.out <= Step(c, id, s, pc, e).shared.history.out
  {
    var h := s.history;
    match pc
    case InContinuous(k) => ContinuousKeepsOrder(c, id, s, k, e);
    case InReplace(k) => ReplaceKeepsOrder(c, id, s, k, e);
    case InWhole(k) =>
      if k.WClear? { LongerLog(h.out, h.log, [], h.head, |h.log|); assert h.log + [] == h.log; }
    case InReset(k) =>
      if k.ZClear? {
        LongerLog(h.out, h.log, [], h.head, |h.log|);
        assert h.log + [] == h.log;
        MoreOthers(h.out, [Forgotten], h.log, |h.log|);
      }
    case InFill(k) => FillKeepsOrder(c, id, s, k, e);
    case _ =>
  }

  lemma HeadMoves(out: seq<OutEvent>, log: seq<LaserPoint>, head: nat, head': nat)
    requires RisingBelow(out, log, head) && head <= head' <= |log|
    ensures RisingBelow(out, log, head')
  {}

  lemma ContinuousKeepsOrder(c: Config, id: nat, s: Shared, k: ContinuousPc, e: Env)
    requires ValidConfig(c) && Ordered(s)
    ensures var s' := StepContinuous(c, id, s, k, e).shared;
      Ordered(s') && s.history.log <= s'.history.log && s.history.out == s'.history.out
  {
    var h := s.history;
    if k.CEnqueue? { LongerLog(h.out, h.log, k.points, h.head, h.head); }
    if k.CDrop? { HeadMoves(h.out, h.log, h.head, StepContinuous(c, id, s, k, e).shared.history.head); }
  }

  lemma ReplaceKeepsOrder(c: Config, id: nat, s: Shared, k: ReplacePc, e: Env)
    requires ValidConfig(c) && Ordered(s)
    ensures var s' := StepReplace(c, id, s, k, e).shared;
      Ordered(s') && s.history.log <= s'.history.log && s.history.out == s'.history.out
  {
    var h := s.history;
    if k.RSwap? { LongerLog(h.out, h.log, k.frame, h.head, |h.log|); }
    if k.RTrim? { HeadMoves(h.out, h.log, h.head, StepReplace(c, id, s, k, e).shared.history.head); }
  }

  lemma FillKeepsOrder(c: Config, id: nat, s: Shared, k: FillPc, e: Env)
    requires ValidConfig(c) && Ordered(s)
    ensures Ordered(StepFill(c, id, s, k, e).shared)
    ensures s.history.out <= StepFill(c, id, s, k, e).shared.history.out
    ensures s.history.log == StepFill(c, id, s, k, e).shared.history.log
  {
    var h := s.history;
    match k
    case FHold(req, _, _, _, _) =>
      MoreOthers(h.out, Paddings(Repeat(Fallback(s.target.last), req.minimum)), h.log, h.head);
    case FEmit(req, _, _, _) =>
      var n := Min(req.maximum, |s.target.queue|);
      assert s.target.queue[..n] == h.log[h.head..h.head + n];
      MoreReals(h.out, h.log, h.head, n);
    case FSettle(req, _, _, short, batch) =>
      MoreOthers(h.out, Paddings(TargetState.Padding(s.target, req, |batch|, short)), h.log, h.head);
    case _ =>
  }

  // --- what the padding shows ---

  /** The last real point handed out since the last reset. */
  function LastReal(out: seq<OutEvent>): Option<LaserPoint> {
    if out == [] then None
    else match out[|out| - 1]
      case Real(_, p) => Some(p)
      case Padding(_) => LastReal(out[..|out| - 1])
      case Forgotten => None
  }

  predicate PaddedWell(out: seq<OutEvent>) {
    forall k :: 0 <= k < |out| && out[k].Padding? ==> out[k].point == Fallback(LastReal(out[..k]))
  }

  function CountReal(out: seq<OutEvent>): nat {
    if out == [] then 0 else CountReal(out[..|out| - 1]) + if out[|out| - 1].Real? then 1 else 0
  }

  function CountPadding(out: seq<OutEvent>): nat {
    if out == [] then 0 else CountPadding(out[..|out| - 1]) + if out[|out| - 1].Padding? then 1 else 0
  }

  predicate Accounted(s: Shared) {
    && s.target.last == LastReal(s.history.out)
    && PaddedWell(s.history.out)
    && s.target.stats.emittedPoints == CountReal(s.history.out)
    && s.target.stats.blankFillPoints == CountPadding(s.history.out)
    && s.target.stats.underrunPoints == s.target.stats.blankFillPoints
  }

  lemma {:induction false} AppendPaddings(out: seq<OutEvent>, n: nat)
    requires PaddedWell(out)
    ensures var more := out + Paddings(Repeat(Fallback(LastReal(out)), n));
      PaddedWell(more) && LastReal(more) == LastReal(out)
      && CountReal(more) == CountReal(out) && CountPadding(more) == CountPadding(out) + n
  {
    var p := Fallback(LastReal(out));
    if n == 0 {
      assert out + Paddings(Repeat(p, 0)) == out;
    } else {
      AppendPaddings(out, n - 1);
      PadOneMore(out, p, n);
    }
  }

  lemma PadOneMore(out: seq<OutEvent>, p: LaserPoint, n: nat)
    requires n > 0
    requires var front := out + Paddings(Repeat(p, n - 1)); PaddedWell(front) && p == Fallback(LastReal(front))
    ensures var front, more := out + Paddings(Repeat(p, n - 1)), out + Paddings(Repeat(p, n));
      PaddedWell(more) && LastReal(more) == LastReal(front)
      && CountReal(more) == CountReal(front) && CountPadding(more) == CountPadding(front) + 1
  {
    PaddingsOneMore(out, p, n);
    AppendOne(out + Paddings(Repeat(p, n - 1)), Padding(p));
  }

  lemma PaddingsOneMore(out: seq<OutEvent>, p: LaserPoint, n: nat)
    requires n > 0
    ensures out + Paddings(Repeat(p, n)) == out + Paddings(Repeat(p, n - 1)) + [Padding(p)]
  {}

  lemma AppendOne(out: seq<OutEvent>, x: OutEvent)
    requires PaddedWell(out) && (x.Padding? ==> x.point == Fallback(LastReal(out)))
    ensures var more := out + [x];
      && PaddedWell(more)
      && LastReal(more) == (match x case Real(_, p) => Some(p) case Padding(_) => LastReal(out) case Forgotten => None)
      && CountReal(more) == CountReal(out) + (if x.Real? then 1 else 0)
      && CountPadding(more) == CountPadding(out) + (if x.Padding? then 1 else 0)
  {
    var more := out + [x];
    assert more[..|more| - 1] == out;
    forall k | 0 <= k < |more| && more[k].Padding? ensures more[k].point == Fallback(LastReal(more[..k])) {
      if k < |out| {
        assert more[..k] == out[..k];
      }
    }
  }

  lemma {:induction false} AppendReals(out: seq<OutEvent>, points: seq<LaserPoint>, first: nat)
    requires PaddedWell(out)
    ensures var more := out + Reals(points, first);
      PaddedWell(more)
      && LastReal(more) == (if points == [] then LastReal(out) else Some(points[|points| - 1]))
      && CountReal(more) == CountReal(out) + |points| && CountPadding(more) == CountPadding(out)
  {
    if points == [] {
      assert out + Reals(points, first) == out;
    } else {
      var n := |points| - 1;
      AppendReals(out, points[..n], first);
      var front := out + Reals(points[..n], first);
      assert out + Reals(points, first) == front + [Real(first + n, points[n])];
      AppendOne(front, Real(first + n, points[n]));
    }
  }

  /** Nothing that the accounts speak of differs. */
  predicate SameAccounts(s: Shared, s': Shared) {
    && s'.history.out == s.history.out && s'.target.last == s.target.last
    && s'.target.stats.emittedPoints == s.target.stats.emittedPoints
    && s'.target.stats.blankFillPoints == s.target.stats.blankFillPoints
    && s'.target.stats.underrunPoints == s.target.stats.underrunPoints
  }

  lemma SameIsAccounted(s: Shared, s': Shared)
    requires Accounted(s) && SameAccounts(s, s')
    ensures Accounted(s')
  {}

  lemma ResetKeepsAccounts(s: Shared)
    requires Accounted(s)
    ensures Accounted(StepReset(s, ZClear).shared)
  {
    AppendOne(s.history.out, Forgotten);
  }

  lemma SubmissionsKeepAccounts(c: Config, id: nat, s: Shared, pc: Pc, e: Env)
    requires ValidConfig(c) && !pc.InFill? && !(pc.InReset? && pc.z.ZClear?)
    ensures SameAccounts(s, Step(c, id, s, pc, e).shared)
  {
    match pc
    case InContinuous(k) => ContinuousKeepsAccounts(c, id, s, k, e);
    case InReplace(k) => ReplaceKeepsAccounts(c, id, s, k, e);
    case InWhole(k) => WholeKeepsAccounts(c, s, k, e);
    case _ =>
  }

  lemma WholeKeepsAccounts(c: Config, s: Shared, k: WholePc, e: Env)
    requires ValidConfig(c)
    ensures SameAccounts(s, StepWhole(c, s, k, e).shared)
  {}

  lemma ContinuousKeepsAccounts(c: Config, id: nat, s: Shared, k: ContinuousPc, e: Env)
    requires ValidConfig(c)
    ensures SameAccounts(s, StepContinuous(c, id, s, k, e).shared)
  {}

  lemma ReplaceKeepsAccounts(c: Config, id: nat, s: Shared, k: ReplacePc, e: Env)
    requires ValidConfig(c)
    ensures SameAccounts(s, StepReplace(c, id, s, k, e).shared)
  {}

  lemma StepKeepsAccounts(c: Config, id: nat, s: Shared, pc: Pc, e: Env)
    requires ValidConfig(c) && Accounted(s)
    ensures Accounted(Step(c, id, s, pc, e).shared)
  {
    if pc.InFill? {
      FillKeepsAccounts(c, id, s, pc.f, e);
    } else if pc.InReset? && pc.z.ZClear? {
      ResetKeepsAccounts(s);
    } else {
      SubmissionsKeepAccounts(c, id, s, pc, e);
      SameIsAccounted(s, Step(c, id, s, pc, e).shared);
    }
  }

  lemma FillKeepsAccounts(c: Config, id: nat, s: Shared, k: FillPc, e: Env)
    requires ValidConfig(c) && Accounted(s)
    ensures Accounted(StepFill(c, id, s, k, e).shared)
  {
    match k
    case FHold(_, _, _, _, _) => HoldKeepsAccounts(c, id, s, k, e);
    case FEmit(_, _, _, _) => EmitKeepsAccounts(c, id, s, k, e);
    case FSettle(_, _, _, _, _) => SettleKeepsAccounts(c, id, s, k, e);
    case _ => SameIsAccounted(s, StepFill(c, id, s, k, e).shared);
  }

  lemma HoldKeepsAccounts(c: Config, id: nat, s: Shared, k: FillPc, e: Env)
    requires ValidConfig(c) && Accounted(s) && k.FHold?
    ensures Accounted(StepFill(c, id, s, k, e).shared)
  {
    if MustHold(s.target, k.replacement, k.short, |s.target.queue| + k.downstream, k.target) {
      AppendPaddings(s.history.out, k.req.minimum);
    }
  }

  lemma EmitKeepsAccounts(c: Config, id: nat, s: Shared, k: FillPc, e: Env)
    requires ValidConfig(c) && Accounted(s) && k.FEmit?
    ensures Accounted(StepFill(c, id, s, k, e).shared)
  {
    AppendReals(s.history.out, s.target.queue[..Min(k.req.maximum, |s.target.queue|)], s.history.head);
  }

  lemma SettleKeepsAccounts(c: Config, id: nat, s: Shared, k: FillPc, e: Env)
    requires ValidConfig(c) && Accounted(s) && k.FSettle?
    ensures Accounted(StepFill(c, id, s, k, e).shared)
  {
    var s' := StepFill(c, id, s, k, e).shared;
    if |k.batch| >= k.req.minimum || k.short {
      assert s.history.out + Paddings([]) == s.history.out;
      SameIsAccounted(s, s');
    } else {
      var missing := k.req.minimum - |k.batch|;
      AppendPaddings(s.history.out, missing);
      assert s'.history.out == s.history.out + Paddings(Repeat(Fallback(s.target.last), missing));
      assert s'.target.stats == CountUnderrun(s.target, missing).stats && s'.target.last == s.target.last;
    }
  }

  // --- sizes ---

  predicate MidDrop(pc: Pc) {
    (pc.InContinuous? && pc.c.CDrop?) || (pc.InReplace? && pc.r.RTrim?)
  }

  /** What a program counter carries: limits in range, frames that fit, batches that honour their request. */
  predicate WellSized(c: Config, s: Shared, pc: Pc) {
    match pc
    case InContinuous(CLimit(_, target)) => 1000 <= target <= c.maxQueuedPoints
    case InContinuous(CEnqueue(_, limit)) => 1000 <= limit <= c.maxQueuedPoints
    case InContinuous(CDrop(limit)) => 1000 <= limit <= c.maxQueuedPoints
    case InReplace(RMode(_, _, _, limit)) => limit <= c.maxQueuedPoints
    case InReplace(RBuffering(_, _, _, limit)) => limit <= c.maxQueuedPoints
    case InReplace(RAnnounce(_, _, _, limit)) => limit <= c.maxQueuedPoints
    case InReplace(RObserve(frame, _)) => |frame| <= c.maxQueuedPoints
    case InReplace(RSwap(frame, _, _)) => |frame| <= c.maxQueuedPoints
    case InFill(FSettle(req, _, _, _, batch)) => |batch| <= req.maximum
    case InFill(FReturn(req, short, batch)) =>
      |batch| <= Max(req.minimum, req.maximum) && (short || |batch| >= req.minimum)
    case _ => true
  }

  lemma StepKeepsSizes(c: Config, id: nat, s: Shared, pc: Pc, e: Env)
    requires ValidConfig(c) && WellSized(c, s, pc)
    ensures SizesKept(c, s, pc, Step(c, id, s, pc, e))
  {
    if pc.InContinuous? {
      ContinuousKeepsSizes(c, id, s, pc.c, e);
    } else if pc.InReplace? {
      ReplaceKeepsSizes(c, id, s, pc.r, e);
    } else if pc.InFill? {
      FillKeepsSizes(c, id, s, pc.f, e);
    }
  }

  /** What a step of `pc` to `o` keeps of the sizes. */
  predicate SizesKept(c: Config, s: Shared, pc: Pc, o: Outcome)
  {
    && WellSized(c, o.shared, o.pc)
    && (!Holds(pc) && !Waits(pc) ==> o.shared.target.queue == s.target.queue)
    && (|s.target.queue| <= c.maxQueuedPoints || MidDrop(pc) ==>
          MidDrop(o.pc) || |o.shared.target.queue| <= c.maxQueuedPoints)
  }

  lemma FillKeepsSizes(c: Config, id: nat, s: Shared, k: FillPc, e: Env)
    requires ValidConfig(c) && WellSized(c, s, InFill(k))
    ensures SizesKept(c, s, InFill(k), StepFill(c, id, s, k, e))
  {}

  lemma ContinuousKeepsSizes(c: Config, id: nat, s: Shared, k: ContinuousPc, e: Env)
    requires ValidConfig(c) && WellSized(c, s, InContinuous(k))
    ensures SizesKept(c, s, InContinuous(k), StepContinuous(c, id, s, k, e))
  {
    if k.CDrop? {
      DropIsCut(s.target.queue, k.limit);
    }
  }

  lemma ReplaceKeepsSizes(c: Config, id: nat, s: Shared, k: ReplacePc, e: Env)
    requires ValidConfig(c) && WellSized(c, s, InReplace(k))
    ensures SizesKept(c, s, InReplace(k), StepReplace(c, id, s, k, e))
  {}

  // --- where points come from ---

  function Carried(pc: Pc): seq<LaserPoint> {
    match pc
    case InContinuous(k) => if k.CDrop? then [] else k.points
    case InReplace(k) =>
      if k.RObserve? || k.RSwap? then k.frame else if k.RTrim? || k.RRate? then [] else k.points
    case InWhole(k) => k.points
    case _ => []
  }

  predicate FromOffers(s: Shared, pc: Pc) {
    && (forall p :: p in Carried(pc) ==> p in s.history.offered)
    && (forall p :: p in s.history.log ==> p in s.history.offered)
  }

  lemma StepKeepsOffers(c: Config, id: nat, s: Shared, pc: Pc, e: Env)
    requires ValidConfig(c) && FromOffers(s, pc)
    ensures FromOffers(Step(c, id, s, pc, e).shared, Step(c, id, s, pc, e).pc)
    ensures s.history.offered <= Step(c, id, s, pc, e).shared.history.offered
  {}

  // --- locking and latency ---

  lemma StepKeepsLock(c: Config, id: nat, s: Shared, pc: Pc, e: Env)
    requires ValidConfig(c) && (Waits(pc) ==> s.lock.None?)
    requires Holds(pc) <==> s.lock == Some(id)
    ensures var o := Step(c, id, s, pc, e);
      && (Holds(o.pc) <==> o.shared.lock == Some(id))
      && (!Holds(pc) && !Holds(o.pc) ==> o.shared.lock == s.lock)
      && (Holds(o.pc) && !Holds(pc) ==> s.lock.None?)
      && (Holds(pc) && !Holds(o.pc) ==> o.shared.lock.None?)
  {}

  /** The latency is the one that the reported shortfalls lead to. */
  predicate LatencyFollows(c: Config, s: Shared) {
    s.target.latency == Run(c.autoLatency, c.maxLatencyMs, s.history.firstLatency, s.history.underruns)
  }

  lemma StepKeepsLatency(c: Config, id: nat, s: Shared, pc: Pc, e: Env)
    requires ValidConfig(c) && LatencyFollows(c, s)
    ensures LatencyFollows(c, Step(c, id, s, pc, e).shared)
    ensures s.history.underruns <= Step(c, id, s, pc, e).shared.history.underruns
    ensures s.history.firstLatency == Step(c, id, s, pc, e).shared.history.firstLatency
  {
    match pc
    case InFill(k) => FillKeepsLatency(c, id, s, k, e);
    case _ => QuietAboutLatency(c, id, s, pc, e);
  }

  lemma QuietAboutLatency(c: Config, id: nat, s: Shared, pc: Pc, e: Env)
    requires ValidConfig(c) && !pc.InFill?
    ensures var s' := Step(c, id, s, pc, e).shared;
      SameLatency(s, s')
  {
    match pc
    case InContinuous(k) => ContinuousKeepsLatency(c, id, s, k, e);
    case InReplace(k) => ReplaceKeepsLatency(c, id, s, k, e);
    case _ =>
  }

  predicate SameLatency(s: Shared, s': Shared) {
    && s'.target.latency == s.target.latency && s'.history.underruns == s.history.underruns
    && s'.history.firstLatency == s.history.firstLatency
  }

  lemma ContinuousKeepsLatency(c: Config, id: nat, s: Shared, k: ContinuousPc, e: Env)
    requires ValidConfig(c)
    ensures SameLatency(s, StepContinuous(c, id, s, k, e).shared)
  {}

  lemma ReplaceKeepsLatency(c: Config, id: nat, s: Shared, k: ReplacePc, e: Env)
    requires ValidConfig(c)
    ensures SameLatency(s, StepReplace(c, id, s, k, e).shared)
  {}

  lemma FillKeepsLatency(c: Config, id: nat, s: Shared, k: FillPc, e: Env)
    requires ValidConfig(c) && LatencyFollows(c, s)
    ensures LatencyFollows(c, StepFill(c, id, s, k, e).shared)
    ensures s.history.underruns <= StepFill(c, id, s, k, e).shared.history.underruns
    ensures s.history.firstLatency == StepFill(c, id, s, k, e).shared.history.firstLatency
  {
    var us := s.history.underruns;
    if k.FSettle? {
      var more := Reported(k.req, |k.batch|, k.replacement, k.short, k.target, e.now);
      if more == [] {
        assert us + more == us;
      } else {
        assert (us + more)[..|us + more| - 1] == us;
      }
    }
  }

  // --- rates ---

  lemma StepKeepsRates(c: Config, id: nat, s: Shared, pc: Pc, e: Env)
    requires ValidConfig(c) && RatesInRange(c, s.target)
    ensures RatesInRange(c, Step(c, id, s, pc, e).shared.target)
  {
    match pc
    case InContinuous(k) => if !k.CRate? { RatesStay(c, id, s, pc, e); }
    case InReplace(k) => if !k.RRate? { RatesStay(c, id, s, pc, e); }
    case InWhole(k) => if !k.WRate? { RatesStay(c, id, s, pc, e); }
    case InReset(k) => if !k.ZRates? { RatesStay(c, id, s, pc, e); }
    case _ => RatesStay(c, id, s, pc, e);
  }

  /** The steps that set a rate. */
  predicate SetsRate(pc: Pc) {
    (pc.InContinuous? && pc.c.CRate?) || (pc.InReplace? && pc.r.RRate?) || (pc.InWhole? && pc.w.WRate?)
    || (pc.InReset? && pc.z.ZRates?)
  }

  lemma RatesStay(c: Config, id: nat, s: Shared, pc: Pc, e: Env)
    requires ValidConfig(c) && !SetsRate(pc)
    ensures var t := Step(c, id, s, pc, e).shared.target;
      t.rate == s.target.rate && t.commandedRate == s.target.commandedRate
  {}
}
