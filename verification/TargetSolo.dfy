/**
 * The two forms of a target agree: an operation whose steps nobody comes between leaves exactly the state
 * that the class promises for the whole call.
 */
module TargetSolo {
  import opened Points
  import opened LiveLimit
  import opened BoundaryDrop
  import opened TargetState
  import opened TargetSteps
  import LiberaTarget

  /** Thread `id` runs alone, at most `n` steps, until it is idle again. */
  function Solo(c: Config, id: nat, s: Shared, pc: Pc, e: Env, n: nat): Outcome
    requires ValidConfig(c)
    decreases n
  {
    if n == 0 || pc == Idle then Outcome(s, pc)
    else
      var o := Step(c, id, s, pc, e);
      Solo(c, id, o.shared, o.pc, e, n - 1)
  }

  /** Begin the operation of `e` and run it to its end. */
  function Call(c: Config, id: nat, s: Shared, e: Env): Outcome
    requires ValidConfig(c)
  {
    var o := Step(c, id, s, Idle, e);
    Solo(c, id, o.shared, o.pc, e, 9)
  }

  /** A continuous submission on its own: what the method of the class promises. */
  lemma ContinuousAlone(c: Config, id: nat, s: Shared, e: Env)
    requires ValidConfig(c) && e.op.SubmitContinuous? && e.op.points != []
    ensures var o := Call(c, id, s, e);
      o.pc == Idle && o.shared.lock == None && o.shared.target
        == LiberaTarget.AfterContinuous(c, s.target, e.op.points, e.op.commanded, e.hardwareRate, e.downstream, e.now)
  {}

  /** The second half of a replacement: from the downstream query on. */
  lemma ReplaceRest(c: Config, id: nat, s: Shared, e: Env, frame: seq<LaserPoint>, commanded: nat)
    requires ValidConfig(c)
    ensures var o := Solo(c, id, s, InReplace(RObserve(frame, commanded)), e, 4);
      o.pc == Idle && o.shared.lock == None && o.shared.target
        == UpdateRate(c, TrimSwapped(c, SwapIn(Observe(s.target, e.downstream), frame, e.now), e.downstream),
                      commanded, e.hardwareRate)
  {}

  /** A replacement whose limit is known, up to the announcement. */
  lemma ReplaceMoved(c: Config, id: nat, s: Shared, e: Env, op: Op, limit: nat) returns (announced: Shared)
    requires ValidConfig(c) && op.ReplaceFrame?
    ensures announced.target
         == AnnounceLit(Announce(s.target.(frameReplacement := true, buffering := false), op.slices, 1, |op.points|),
                        CountLit(op.points))
    ensures Solo(c, id, s, InReplace(RMode(op.points, op.slices, op.commanded, limit)), e, 7)
         == Solo(c, id, announced, InReplace(RObserve(op.points[..Min(|op.points|, limit)], op.commanded)), e, 4)
  {
    var t := s.target.(frameReplacement := true, buffering := false);
    announced := s.(
      target := AnnounceLit(Announce(t, op.slices, 1, |op.points|), CountLit(op.points)),
      history := s.history.(truncated := s.history.truncated + |op.points| - Min(|op.points|, limit)));
  }

  /** The first half: the frame is truncated and announced. */
  lemma ReplaceAnnounced(c: Config, id: nat, s: Shared, e: Env) returns (announced: Shared)
    requires ValidConfig(c) && e.op.ReplaceFrame? && e.op.points != []
    ensures announced.target
         == AnnounceLit(Announce(s.target.(frameReplacement := true, buffering := false), e.op.slices, 1,
                                 |e.op.points|), CountLit(e.op.points))
    ensures Call(c, id, s, e)
         == Solo(c, id, announced,
                 InReplace(RObserve(LiberaTarget.Truncated(c, s.target, e.op.points), e.op.commanded)), e, 4)
  {
    var begun := Step(c, id, s, Idle, e).shared;
    announced := ReplaceMoved(c, id, begun, e, e.op, ReplacementLimit(c, TargetPoints(c, s.target), s.target.rate));
  }

  /** A frame replacement on its own. */
  lemma ReplaceAlone(c: Config, id: nat, s: Shared, e: Env, slices: seq<Slice>)
    requires ValidConfig(c) && LiberaTarget.Flatten(slices) != []
    requires e.op == ReplaceFrame(LiberaTarget.Flatten(slices), LiberaTarget.ValidSlices(slices),
                       InferredRate(|LiberaTarget.Flatten(slices)|, LiberaTarget.TotalDuration(slices)))
    ensures var o := Call(c, id, s, e);
      o.pc == Idle && o.shared.lock == None && o.shared.target
        == LiberaTarget.AfterReplace(c, s.target, slices, e.hardwareRate, e.downstream, e.now)
  {
    var announced := ReplaceAnnounced(c, id, s, e);
    ReplaceRest(c, id, announced, e, LiberaTarget.Truncated(c, s.target, e.op.points), e.op.commanded);
  }

  /** A whole frame on its own; the status query that ends the call is a step of its own in the fine form. */
  lemma FrameAlone(c: Config, id: nat, s: Shared, e: Env, slices: seq<Slice>)
    requires ValidConfig(c) && s.lock.None? && e.op.SubmitFrame? && LiberaTarget.Flatten(slices) != []
    requires e.op.points == LiberaTarget.Flatten(slices) && e.op.slices == LiberaTarget.ValidSlices(slices)
    ensures var o := Call(c, id, s, e);
      o.pc == Idle && o.shared.lock == None && Observe(o.shared.target, e.downstream)
        == LiberaTarget.AfterFrame(c, s.target, slices, e.op.commanded, e.hardwareRate, e.accepted, e.downstream, e.now)
  {}

  /** A reset on its own. */
  lemma ResetAlone(c: Config, id: nat, s: Shared, e: Env)
    requires ValidConfig(c) && s.lock.None? && e.op.Reset?
    ensures var o := Call(c, id, s, e);
      o.pc == Idle && o.shared.lock == None && o.shared.target == LiberaTarget.AfterReset(s.target)
  {}

  /** `more` records that exactly these points went out. */
  predicate Records(more: seq<OutEvent>, points: seq<LaserPoint>) {
    |more| == |points| && forall k :: 0 <= k < |more| ==> !more[k].Forgotten? && more[k].point == points[k]
  }

  lemma RecordsOf(before: seq<OutEvent>, batch: seq<LaserPoint>, padding: seq<LaserPoint>, first: nat)
    ensures Records((before + Reals(batch, first) + Paddings(padding))[|before|..], batch + padding)
    ensures Records((before + Paddings(padding))[|before|..], padding)
  {
    var more := Reals(batch, first) + Paddings(padding);
    assert (before + Reals(batch, first) + Paddings(padding))[|before|..] == more;
    assert forall k :: 0 <= k < |more| ==> more[k].point == (batch + padding)[k];
    assert (before + Paddings(padding))[|before|..] == Paddings(padding);
  }

  predicate HandedOut(s: Shared, o: Outcome, t: Target, out: seq<LaserPoint>) {
    && o.pc == Idle && o.shared.lock == None && o.shared.target == t
    && |s.history.out| <= |o.shared.history.out| && Records(o.shared.history.out[|s.history.out|..], out)
  }

  lemma FillHeld(c: Config, id: nat, s: Shared, e: Env, req: FillRequest, target: nat, short: bool)
    requires ValidConfig(c)
    requires MustHold(s.target, s.target.frameReplacement, short, |s.target.queue| + s.target.downstream, target)
    ensures var pc := InFill(FHold(req, s.target.downstream, target, s.target.frameReplacement, short));
      HandedOut(s, Solo(c, id, s, pc, e, 5), CountUnderrun(s.target, req.minimum),
                Repeat(Fallback(s.target.last), req.minimum))
  {
    RecordsOf(s.history.out, [], Repeat(Fallback(s.target.last), req.minimum), 0);
  }

  /** From the decision to emit on, with the mode read before. */
  lemma FillEmits(c: Config, id: nat, s: Shared, e: Env, req: FillRequest, target: nat, replacement: bool, short: bool)
    requires ValidConfig(c)
    ensures var n := Min(req.maximum, |s.target.queue|); var t := Emit(s.target, n);
      HandedOut(s, Solo(c, id, s, InFill(FEmit(req, target, replacement, short)), e, 4),
                Settle(c, t, req, n, replacement, short, target, e.now),
                s.target.queue[..n] + TargetState.Padding(t, req, n, short))
  {
    var n := Min(req.maximum, |s.target.queue|);
    RecordsOf(s.history.out, s.target.queue[..n], TargetState.Padding(Emit(s.target, n), req, n, short),
              s.history.head);
  }

  /** A callback that holds the lock and has decided whether a short read is allowed. */
  lemma FillRest(c: Config, id: nat, s: Shared, e: Env, req: FillRequest, target: nat, short: bool)
    requires ValidConfig(c)
    ensures var pc := InFill(FHold(req, s.target.downstream, target, s.target.frameReplacement, short));
      var (t, out) := LiberaTarget.FillAt(c, s.target, req, short, target, e.now);
      HandedOut(s, Solo(c, id, s, pc, e, 5), t, out)
  {
    if MustHold(s.target, s.target.frameReplacement, short, |s.target.queue| + s.target.downstream, target) {
      FillHeld(c, id, s, e, req, target, short);
    } else {
      FillEmits(c, id, s, e, req, target, s.target.frameReplacement, short);
    }
  }

  /** A callback on its own: the same state, and the same points handed out. */
  lemma FillAlone(c: Config, id: nat, s: Shared, e: Env)
    requires ValidConfig(c) && e.op.Fill? && e.op.req.maximum > 0
    ensures var o := Call(c, id, s, e); var (t, out) := LiberaTarget.AfterFill(c, s.target, e.op.req, e.now);
      HandedOut(s, o, t, out)
  {
    var locked := FillLocked(c, id, s, e);
    FillRest(c, id, locked, e, e.op.req, TargetPoints(c, CountCall(s.target)),
             ShortAllowed(CountCall(s.target), e.op.req, e.now));
  }

  /** The steps of a callback up to its decision. */
  lemma FillLocked(c: Config, id: nat, s: Shared, e: Env) returns (locked: Shared)
    requires ValidConfig(c) && e.op.Fill? && e.op.req.maximum > 0
    ensures locked.target == CountCall(s.target) && locked.history.out == s.history.out
    ensures Call(c, id, s, e)
         == Solo(c, id, locked,
                 InFill(FHold(e.op.req, s.target.downstream, TargetPoints(c, CountCall(s.target)),
                              s.target.frameReplacement, ShortAllowed(CountCall(s.target), e.op.req, e.now))), e, 5)
  {
    var begun := Step(c, id, s, Idle, e).shared;
    locked := begun.(target := CountCall(s.target), lock := Some(id));
  }
}
