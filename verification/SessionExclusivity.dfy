/**
 * One protocol endpoint with any number of session threads competing for it. A run is any interleaving of
 * their steps; the log records who took and released the endpoint and every call to the shared sink.
 */
module SessionExclusivity {
  import opened Points
  import opened FiniteSets
  import opened LiberaSession

  const MAX_SOCKETS := 32

  datatype SinkEvent = SinkReset | SinkInput(call: SinkCall)

  datatype LogEntry = Acquired(id: nat) | Released(id: nat) | Called(id: nat, event: SinkEvent)

  /** Where a session thread is in its life; Done remembers whether it ever owned the endpoint. */
  datatype Pc =
    | AwaitingHello
    | Trying(hello: Hello)
    | Opening(hello: Hello)
    | Accepting(session: Session)
    | AwaitingReady(session: Session)
    | Streaming(session: Session)
    | Closing
    | Releasing
    | Done(owned: bool)
    | Gone(owned: bool)

  datatype Server = Server(owned: bool, threads: seq<Pc>, active: set<nat>, log: seq<LogEntry>)

  /** What the network does for one step: whether the read or write worked, and what was read. */
  datatype Env = Env(ok: bool, hello: Hello, record: Record)

  predicate Owns(pc: Pc) {
    pc.Opening? || pc.Accepting? || pc.AwaitingReady? || pc.Streaming? || pc.Closing? || pc.Releasing?
  }

  function Inputs(id: nat, calls: seq<SinkCall>): (entries: seq<LogEntry>)
    ensures |entries| == |calls|
  {
    seq(|calls|, k requires 0 <= k < |calls| => Called(id, SinkInput(calls[k])))
  }

  function Move(s: Server, id: nat, pc: Pc): Server
    requires id < |s.threads|
  {
    s.(threads := s.threads[id := pc])
  }

  function Log(s: Server, entries: seq<LogEntry>): Server {
    s.(log := s.log + entries)
  }

  function Step(l: Limits, s: Server, id: nat, e: Env): Server
    requires ValidLimits(l) && id < |s.threads|
  {
    match s.threads[id]
    case AwaitingHello => Move(s, id, if e.ok then Trying(e.hello) else Done(false))
    case Trying(hello) =>
      if s.owned then Move(s, id, Done(false))
      else Log(Move(s, id, Opening(hello)), [Acquired(id)]).(owned := true)
    case Opening(hello) => Log(Move(s, id, Accepting(Opened(l, hello))), [Called(id, SinkReset)])
    case Accepting(session) => Move(s, id, if e.ok then AwaitingReady(session) else Closing)
    case AwaitingReady(session) => Move(s, id, if e.ok then Streaming(session) else Closing)
    case Streaming(session) =>
      if !e.ok then Move(s, id, Closing)
      else
        var h := Handle(l, session, e.record);
        Log(Move(s, id, if h.ok then Streaming(h.session) else Closing), Inputs(id, h.calls))
    case Closing => Log(Move(s, id, Releasing), [Called(id, SinkReset)])
    case Releasing => Log(Move(s, id, Done(true)), [Released(id)]).(owned := false)
    case Done(owned) => Move(s, id, Gone(owned)).(active := s.active - {id})
    case Gone(_) => s
  }

  /** The accept loop starts a thread for a new connection unless too many sockets are open. */
  function Accept(s: Server): Server {
    if |s.active| >= MAX_SOCKETS then s
    else s.(threads := s.threads + [AwaitingHello], active := s.active + {|s.threads|})
  }

  ghost predicate Next(l: Limits, s: Server, s': Server)
    requires ValidLimits(l)
  {
    s' == Accept(s) || exists id: nat, e: Env :: id < |s.threads| && s' == Step(l, s, id, e)
  }

  ghost predicate IsRun(l: Limits, run: seq<Server>)
    requires ValidLimits(l)
  {
    && |run| > 0 && run[0] == Server(false, [], {}, [])
    && forall i :: 0 <= i < |run| - 1 ==> StepAt(l, run, i)
  }

  ghost predicate StepAt(l: Limits, run: seq<Server>, i: nat)
    requires ValidLimits(l) && i + 1 < |run|
  {
    Next(l, run[i], run[i + 1])
  }

  // --- the log as a sequence of complete sessions ---

  /** How a log ends: free, just taken by someone, in someone's session, or out of order. */
  datatype Phase = Free | Taken(id: nat) | InSession(id: nat, clean: bool) | Broken

  function After(phase: Phase, x: LogEntry): Phase {
    match x
    case Acquired(id) => if phase == Free then Taken(id) else Broken
    case Released(id) => if phase == InSession(id, true) then Free else Broken
    case Called(id, event) =>
      if phase == Taken(id) && event == SinkReset then InSession(id, true)
      else if phase.InSession? && phase.id == id then InSession(id, event == SinkReset)
      else Broken
  }

  function PhaseOf(log: seq<LogEntry>): Phase {
    if log == [] then Free else After(PhaseOf(log[..|log| - 1]), log[|log| - 1])
  }

  lemma PhaseOneMore(log: seq<LogEntry>, x: LogEntry)
    ensures PhaseOf(log + [x]) == After(PhaseOf(log), x)
  {
    assert (log + [x])[..|log|] == log;
  }

  /** The phase that a thread's position stands for. */
  predicate Agrees(pc: Pc, id: nat, phase: Phase) {
    match pc
    case Opening(_) => phase == Taken(id)
    case Accepting(_) => phase.InSession? && phase.id == id
    case AwaitingReady(_) => phase.InSession? && phase.id == id
    case Streaming(_) => phase.InSession? && phase.id == id
    case Closing => phase.InSession? && phase.id == id
    case Releasing => phase == InSession(id, true)
    case _ => !((phase.Taken? || phase.InSession?) && phase.id == id)
  }

  function Count(log: seq<LogEntry>, x: LogEntry): nat {
    if log == [] then 0 else Count(log[..|log| - 1], x) + if log[|log| - 1] == x then 1 else 0
  }

  lemma CountOneMore(log: seq<LogEntry>, more: seq<LogEntry>, x: LogEntry)
    requires |more| <= 1
    ensures Count(log + more, x) == Count(log, x) + if more == [x] then 1 else 0
  {
    if more == [] {
      assert log + more == log;
    } else {
      assert (log + more)[..|log|] == log;
    }
  }

  function WasOwner(pc: Pc): bool {
    match pc
    case Done(owned) => owned
    case Gone(owned) => owned
    case _ => false
  }

  predicate Counted(log: seq<LogEntry>, id: nat, pc: Pc) {
    && Count(log, Acquired(id)) == (if Owns(pc) || WasOwner(pc) then 1 else 0)
    && Count(log, Released(id)) == (if WasOwner(pc) then 1 else 0)
  }

  /** The flag, the log and the threads' positions tell the same story. */
  predicate Serial(s: Server) {
    && PhaseOf(s.log) != Broken
    && (s.owned <==> PhaseOf(s.log) != Free)
    && (forall id :: 0 <= id < |s.threads| ==> Agrees(s.threads[id], id, PhaseOf(s.log)))
    && (PhaseOf(s.log).Taken? || PhaseOf(s.log).InSession? ==> PhaseOf(s.log).id < |s.threads|)
  }

  ghost predicate CountsHold(s: Server) {
    && (forall id :: 0 <= id < |s.threads| ==> Counted(s.log, id, s.threads[id]))
    && (forall id: nat :: id >= |s.threads| ==> Count(s.log, Acquired(id)) == 0 && Count(s.log, Released(id)) == 0)
  }

  ghost predicate SocketsHold(s: Server) {
    && (forall id :: 0 <= id < |s.threads| && !s.threads[id].Gone? ==> id in s.active)
    && (forall id :: id in s.active ==> id < |s.threads| && !s.threads[id].Gone?)
    && |s.active| <= MAX_SOCKETS
  }

  function SessionIn(pc: Pc): Option<Session> {
    match pc
    case Accepting(session) => Some(session)
    case AwaitingReady(session) => Some(session)
    case Streaming(session) => Some(session)
    case _ => None
  }

  predicate SessionsHold(l: Limits, s: Server)
    requires ValidLimits(l)
  {
    forall id :: 0 <= id < |s.threads| && SessionIn(s.threads[id]).Some? ==>
      SessionInv(l, SessionIn(s.threads[id]).value)
  }

  ghost predicate Inv(l: Limits, s: Server)
    requires ValidLimits(l)
  {
    Serial(s) && CountsHold(s) && SocketsHold(s) && SessionsHold(l, s)
  }

  /** What one step appends to the log: nothing, or one entry of the stepping thread. */
  function Appended(l: Limits, s: Server, id: nat, e: Env): seq<LogEntry>
    requires ValidLimits(l) && id < |s.threads|
  {
    match s.threads[id]
    case Trying(_) => if s.owned then [] else [Acquired(id)]
    case Opening(_) => [Called(id, SinkReset)]
    case Streaming(session) => if e.ok then Inputs(id, Handle(l, session, e.record).calls) else []
    case Closing => [Called(id, SinkReset)]
    case Releasing => [Released(id)]
    case _ => []
  }

  lemma StepAppends(l: Limits, s: Server, id: nat, e: Env)
    requires ValidLimits(l) && id < |s.threads| && SessionsHold(l, s)
    ensures Step(l, s, id, e).log == s.log + Appended(l, s, id, e)
    ensures |Appended(l, s, id, e)| <= 1
    ensures s.threads[id].Streaming? && Appended(l, s, id, e) != [] ==>
              Appended(l, s, id, e)[0].Called? && Appended(l, s, id, e)[0].id == id
              && Appended(l, s, id, e)[0].event.SinkInput?
  {
    if s.threads[id].Streaming? {
      HandleKeepsInv(l, s.threads[id].session, e.record);
    }
    assert s.log + [] == s.log;
  }

  lemma StepKeepsSerial(l: Limits, s: Server, id: nat, e: Env)
    requires ValidLimits(l) && id < |s.threads| && SessionsHold(l, s) && Serial(s)
    ensures Serial(Step(l, s, id, e))
  {
    var more := Appended(l, s, id, e);
    StepAppends(l, s, id, e);
    if more == [] {
      assert s.log + more == s.log;
    } else {
      assert more == [more[0]];
      PhaseOneMore(s.log, more[0]);
    }
    var s' := Step(l, s, id, e);
    assert Agrees(s.threads[id], id, PhaseOf(s.log));
    StepMoves(l, s, id, e);
    OwnStepAgrees(l, s, id, e);
    forall k | 0 <= k < |s'.threads| ensures Agrees(s'.threads[k], k, PhaseOf(s'.log)) {
      assert Agrees(s.threads[k], k, PhaseOf(s.log));
      if k != id {
        OthersStillAgree(s.threads[k], k, id, PhaseOf(s.log), more);
      }
    }
  }

  /** The phase after at most one more entry. */
  function PhaseAfter(phase: Phase, more: seq<LogEntry>): Phase {
    if more == [] then phase else After(phase, more[0])
  }

  lemma OthersStillAgree(pc: Pc, k: nat, id: nat, phase: Phase, more: seq<LogEntry>)
    requires k != id && Agrees(pc, k, phase) && PhaseAfter(phase, more) != Broken
    requires more != [] ==> more[0].id == id
    ensures Agrees(pc, k, PhaseAfter(phase, more))
  {}

  lemma OwnStepAgrees(l: Limits, s: Server, id: nat, e: Env)
    requires ValidLimits(l) && id < |s.threads| && SessionsHold(l, s) && Serial(s)
    ensures var s' := Step(l, s, id, e); var phase := PhaseAfter(PhaseOf(s.log), Appended(l, s, id, e));
      && Agrees(s'.threads[id], id, phase) && phase != Broken && (s'.owned <==> phase != Free)
      && (Appended(l, s, id, e) != [] ==> Appended(l, s, id, e)[0].id == id)
      && (phase.Taken? || phase.InSession? ==> phase.id < |s.threads|)
  {
    StepAppends(l, s, id, e);
    assert Agrees(s.threads[id], id, PhaseOf(s.log));
  }

  lemma StepKeepsCounts(l: Limits, s: Server, id: nat, e: Env)
    requires ValidLimits(l) && id < |s.threads| && SessionsHold(l, s) && CountsHold(s)
    ensures CountsHold(Step(l, s, id, e))
  {
    var s' := Step(l, s, id, e);
    StepAppends(l, s, id, e);
    StepCounts(l, s, id, e);
    StepMoves(l, s, id, e);
    MovedCounts(s, s', id, s'.threads[id], Appended(l, s, id, e));
  }

  /** A step moves its own thread only, and closes at most its own socket. */
  lemma StepMoves(l: Limits, s: Server, id: nat, e: Env)
    requires ValidLimits(l) && id < |s.threads|
    ensures var s' := Step(l, s, id, e);
      && s'.threads == s.threads[id := s'.threads[id]]
      && s'.active == (if s.threads[id].Done? then s.active - {id} else s.active)
      && (s'.threads[id].Gone? <==> s.threads[id].Done? || s.threads[id].Gone?)
  {}

  predicate CountsAs(pc: Pc, pc': Pc, id: nat, more: seq<LogEntry>) {
    && (Owns(pc') || WasOwner(pc') <==> Owns(pc) || WasOwner(pc) || more == [Acquired(id)])
    && (WasOwner(pc') <==> WasOwner(pc) || more == [Released(id)])
    && (more == [Acquired(id)] ==> !Owns(pc) && !WasOwner(pc))
    && (more == [Released(id)] ==> !WasOwner(pc))
  }

  lemma MovedCounts(s: Server, s': Server, id: nat, pc': Pc, more: seq<LogEntry>)
    requires CountsHold(s) && id < |s.threads| && s'.threads == s.threads[id := pc'] && s'.log == s.log + more
    requires |more| <= 1 && CountsAs(s.threads[id], pc', id, more)
    requires forall k: nat :: k != id ==> more != [Acquired(k)] && more != [Released(k)]
    ensures CountsHold(s')
  {
    forall k | 0 <= k < |s'.threads| ensures Counted(s'.log, k, s'.threads[k]) {
      assert Counted(s.log, k, s.threads[k]);
      CountOneMore(s.log, more, Acquired(k));
      CountOneMore(s.log, more, Released(k));
    }
    forall k: nat | k >= |s'.threads| ensures Count(s'.log, Acquired(k)) == 0 && Count(s'.log, Released(k)) == 0 {
      CountOneMore(s.log, more, Acquired(k));
      CountOneMore(s.log, more, Released(k));
    }
  }

  /** A thread's position moves past an acquisition or a release exactly when it logs one. */
  lemma StepCounts(l: Limits, s: Server, id: nat, e: Env)
    requires ValidLimits(l) && id < |s.threads| && SessionsHold(l, s)
    ensures CountsAs(s.threads[id], Step(l, s, id, e).threads[id], id, Appended(l, s, id, e))
    ensures forall k: nat :: k != id ==>
      Appended(l, s, id, e) != [Acquired(k)] && Appended(l, s, id, e) != [Released(k)]
  {
    StepAppends(l, s, id, e);
  }

  lemma StepKeepsSockets(l: Limits, s: Server, id: nat, e: Env)
    requires ValidLimits(l) && id < |s.threads| && SocketsHold(s)
    ensures SocketsHold(Step(l, s, id, e))
  {
    var s' := Step(l, s, id, e);
    StepMoves(l, s, id, e);
    SubsetIsNoLarger(s'.active, s.active);
  }

  lemma StepKeepsSessions(l: Limits, s: Server, id: nat, e: Env)
    requires ValidLimits(l) && id < |s.threads| && SessionsHold(l, s)
    ensures SessionsHold(l, Step(l, s, id, e))
  {
    if s.threads[id].Streaming? {
      HandleKeepsInv(l, s.threads[id].session, e.record);
    }
  }

  lemma AcceptKeepsInv(l: Limits, s: Server)
    requires ValidLimits(l) && Inv(l, s)
    ensures Inv(l, Accept(s))
  {
    AcceptKeepsSockets(s);
    AcceptKeepsCounts(s);
  }

  lemma AcceptKeepsSockets(s: Server)
    requires SocketsHold(s)
    ensures SocketsHold(Accept(s))
  {}

  lemma AcceptKeepsCounts(s: Server)
    requires CountsHold(s)
    ensures CountsHold(Accept(s))
  {}

  lemma {:induction false} RunInv(l: Limits, run: seq<Server>, i: nat)
    requires ValidLimits(l) && IsRun(l, run) && i < |run|
    ensures Inv(l, run[i])
  {
    if i > 0 {
      RunInv(l, run, i - 1);
      var s := run[i - 1];
      assert StepAt(l, run, i - 1);
      if run[i] == Accept(s) {
        AcceptKeepsInv(l, s);
      } else {
        var id: nat, e: Env :| id < |s.threads| && run[i] == Step(l, s, id, e);
        StepKeepsSerial(l, s, id, e);
        StepKeepsCounts(l, s, id, e);
        StepKeepsSockets(l, s, id, e);
        StepKeepsSessions(l, s, id, e);
      }
    }
  }

  // --- the promises ---

  /** At most one thread is between acquiring and releasing, and the flag says whether there is one. */
  lemma OneOwner(l: Limits, run: seq<Server>, i: nat)
    requires ValidLimits(l) && IsRun(l, run) && i < |run|
    ensures var s := run[i];
      && (forall a, b :: 0 <= a < |s.threads| && 0 <= b < |s.threads| && Owns(s.threads[a]) && Owns(s.threads[b]) ==> a == b)
      && (s.owned <==> exists id :: 0 <= id < |s.threads| && Owns(s.threads[id]))
      && |s.active| <= 32
  {
    RunInv(l, run, i);
    var s := run[i];
    var phase := PhaseOf(s.log);
    forall a | 0 <= a < |s.threads| && Owns(s.threads[a]) ensures (phase.Taken? || phase.InSession?) && phase.id == a {
      assert Agrees(s.threads[a], a, phase);
    }
    if s.owned {
      assert Agrees(s.threads[phase.id], phase.id, phase);
      assert Owns(s.threads[phase.id]);
    }
  }

  /** Nothing was acquired or released between `a` and `k`. */
  predicate StillHeld(log: seq<LogEntry>, a: nat, k: nat) {
    forall j :: a < j < k && j < |log| ==> log[j].Called?
  }

  lemma {:induction false} HeldSince(log: seq<LogEntry>) returns (a: nat)
    requires PhaseOf(log).Taken? || PhaseOf(log).InSession?
    ensures a < |log| && log[a] == Acquired(PhaseOf(log).id) && StillHeld(log, a, |log|)
  {
    var n := |log| - 1;
    if log[n].Acquired? {
      a := n;
    } else {
      a := HeldSince(log[..n]);
      assert forall j :: a < j < n ==> log[j] == log[..n][j];
    }
  }

  lemma {:induction false} NeverBrokenBefore(log: seq<LogEntry>, k: nat)
    requires PhaseOf(log) != Broken && k <= |log|
    ensures PhaseOf(log[..k]) != Broken
    decreases |log|
  {
    if k < |log| {
      NeverBrokenBefore(log[..|log| - 1], k);
      assert log[..|log| - 1][..k] == log[..k];
    } else {
      assert log[..k] == log;
    }
  }

  /** Every call to the sink is made by the thread that owns the endpoint, after that thread reset the sink. */
  lemma SinkCallsByOwner(l: Limits, run: seq<Server>, i: nat, k: nat) returns (a: nat)
    requires ValidLimits(l) && IsRun(l, run) && i < |run| && k < |run[i].log| && run[i].log[k].Called?
    ensures var log := run[i].log;
      && a < k && log[a] == Acquired(log[k].id) && StillHeld(log, a, k)
      && (log[k].event.SinkInput? ==> a + 1 < k && log[a + 1] == Called(log[k].id, SinkReset))
  {
    RunInv(l, run, i);
    var log := run[i].log;
    NeverBrokenBefore(log, k + 1);
    assert log[..k + 1][..k] == log[..k];
    a := HeldSince(log[..k]);
    assert forall j :: a <= j < k ==> log[j] == log[..k][j];
    if log[k].event.SinkInput? {
      FirstCallIsReset(log[..k], a);
    }
  }

  lemma {:induction false} FirstCallIsReset(log: seq<LogEntry>, a: nat)
    requires a < |log| && PhaseOf(log).InSession? && log[a] == Acquired(PhaseOf(log).id) && StillHeld(log, a, |log|)
    ensures a + 1 < |log| && log[a + 1] == Called(log[a].id, SinkReset)
  {
    var n := |log| - 1;
    if PhaseOf(log[..n]).InSession? {
      assert forall j :: a < j < n ==> log[j] == log[..n][j];
      FirstCallIsReset(log[..n], a);
    } else {
      assert PhaseOf(log[..n]).Taken?;
    }
  }

  lemma {:induction false} CleanEndsWithReset(log: seq<LogEntry>)
    requires PhaseOf(log).InSession? && PhaseOf(log).clean
    ensures log != [] && log[|log| - 1] == Called(PhaseOf(log).id, SinkReset)
  {}

  /** The sink has been reset since the last input it was given. */
  ghost predicate ResetSinceInput(log: seq<LogEntry>) {
    forall k :: 0 <= k < |log| && log[k].Called? && log[k].event.SinkInput? ==>
      exists r :: k < r < |log| && log[r].Called? && log[r].event == SinkReset
                  && forall j :: r < j < |log| ==> !log[j].Called?
  }

  /** Whenever the endpoint is free, the sink has been reset since its last input. */
  lemma FreeMeansReset(l: Limits, run: seq<Server>, i: nat)
    requires ValidLimits(l) && IsRun(l, run) && i < |run| && !run[i].owned
    ensures ResetSinceInput(run[i].log)
  {
    RunInv(l, run, i);
    var log := run[i].log;
    if log != [] {
      var n := |log| - 1;
      assert log[n].Released?;
      CleanEndsWithReset(log[..n]);
      var r := n - 1;
      assert log[r] == log[..n][r];
      assert forall j :: r < j < |log| ==> !log[j].Called?;
    }
  }

  /** A thread that has finished acquired and released equally often: once each, or never. */
  lemma ReleasedExactlyOnce(l: Limits, run: seq<Server>, i: nat, id: nat)
    requires ValidLimits(l) && IsRun(l, run) && i < |run| && id < |run[i].threads|
    requires run[i].threads[id].Done? || run[i].threads[id].Gone?
    ensures var log := run[i].log;
      Count(log, Released(id)) == Count(log, Acquired(id)) && Count(log, Acquired(id)) <= 1
  {
    RunInv(l, run, i);
    assert Counted(run[i].log, id, run[i].threads[id]);
  }

  /** Every release comes straight after a reset of the sink by the same thread. */
  lemma ReleaseFollowsReset(l: Limits, run: seq<Server>, i: nat, k: nat)
    requires ValidLimits(l) && IsRun(l, run) && i < |run| && k < |run[i].log| && run[i].log[k].Released?
    ensures k > 0 && run[i].log[k - 1] == Called(run[i].log[k].id, SinkReset)
  {
    RunInv(l, run, i);
    var log := run[i].log;
    NeverBrokenBefore(log, k + 1);
    assert log[..k + 1][..k] == log[..k];
    CleanEndsWithReset(log[..k]);
  }
}
