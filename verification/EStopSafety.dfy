/**
 * End to end: the virtual Ether Dream on its io thread (thread 0), its sink, and any number of hardware
 * callbacks and status readers on the other threads, interleaved at every step of the sink. The journal
 * records what the io thread accepted, when an emergency stop returned, and every batch handed out.
 */
module EStopSafety {
  import opened Points
  import EtherDream
  import opened TargetState
  import opened TargetSteps
  import opened TargetInvariants
  import opened TargetMachine

  datatype Entry =
    | EstopReturned
    | SessionAccepted
    | ClearAccepted
    | PrepareAccepted
    | DataAccepted
    | BeginAccepted
    | HandedOut(points: seq<LaserPoint>)

  /** Where the io thread is: between events, about to call the sink, or waiting for that call. */
  datatype Io = IoIdle | IoCalls(op: Op, stopping: bool) | IoInSink(stopping: bool)

  datatype System = System(
    device: EtherDream.Device, connected: bool, io: Io, machine: Machine, journal: seq<Entry>)

  function EntriesFor(e: EtherDream.Event, r: EtherDream.Reaction): seq<Entry> {
    match e
    case Connected => [SessionAccepted]
    case Do(command) =>
      if r.response != Some(EtherDream.ACK) then []
      else if command.Clear? then [ClearAccepted]
      else if command.Prepare? then [PrepareAccepted]
      else if command.Data? && command.points != [] then [DataAccepted]
      else if command.Begin? || command.Update? then [BeginAccepted]
      else []
    case _ => []
  }

  predicate Possible(s: System, e: EtherDream.Event) {
    match e
    case Tick(_) => true
    case Connected => !s.connected
    case _ => s.connected
  }

  function Connection(s: System, e: EtherDream.Event): bool {
    if e.Connected? then true else if e.Disconnected? then false else s.connected
  }

  predicate IsEstop(e: EtherDream.Event) { e.Do? && e.command.EmergencyStop? }

  function AfterEvent(o: EtherDream.Options, s: System, e: EtherDream.Event): System {
    var r := EtherDream.React(o, s.device, e);
    s.(device := r.device,
       connected := Connection(s, e),
       io := match r.sink
             case NoCall => IoIdle
             case ResetSink => IoCalls(Reset, IsEstop(e))
             case Submit(points, rate) => IoCalls(SubmitContinuous(points, rate), false),
       journal := s.journal + EntriesFor(e, r))
  }

  /** Threads other than the io thread only fill and look. */
  predicate AllowedOp(s: System, id: nat, e: Env) {
    if id == 0 then s.io.IoCalls? && e.op == s.io.op else e.op.Fill? || e.op.Status?
  }

  function AfterTargetStep(c: Config, s: System, id: nat, e: Env): System
    requires ValidConfig(c) && Enabled(s.machine, id)
  {
    var pc := s.machine.threads[id];
    s.(machine := Apply(c, s.machine, id, e),
       io := if id == 0 && s.io.IoCalls? then IoInSink(s.io.stopping) else s.io,
       journal := if pc.InFill? && pc.f.FReturn? then s.journal + [HandedOut(pc.f.batch)] else s.journal)
  }

  function AfterReturn(s: System): System
    requires s.io.IoInSink?
  {
    s.(io := IoIdle, journal := if s.io.stopping then s.journal + [EstopReturned] else s.journal)
  }

  predicate EventStep(o: EtherDream.Options, s: System, s': System, e: EtherDream.Event) {
    s.io == IoIdle && Possible(s, e) && s' == AfterEvent(o, s, e)
  }

  predicate ThreadStep(c: Config, s: System, s': System, id: nat, e: Env)
    requires ValidConfig(c)
  {
    && Enabled(s.machine, id) && s.machine.shared.now <= e.now
    && (s.machine.threads[id] == Idle ==> AllowedOp(s, id, e))
    && s' == AfterTargetStep(c, s, id, e)
  }

  predicate ReturnStep(s: System, s': System) {
    |s.machine.threads| > 0 && s.machine.threads[0] == Idle && s.io.IoInSink? && s' == AfterReturn(s)
  }

  ghost predicate SystemNext(o: EtherDream.Options, c: Config, s: System, s': System)
    requires ValidConfig(c)
  {
    || (exists e :: EventStep(o, s, s', e))
    || (exists id: nat, e: Env :: ThreadStep(c, s, s', id, e))
    || ReturnStep(s, s')
  }

  predicate SystemInit(o: EtherDream.Options, c: Config, s: System) {
    && s.device == EtherDream.FreshDevice(o) && !s.connected && s.io == IoIdle && s.journal == []
    && |s.machine.threads| > 0 && Init(c, s.machine)
  }

  ghost predicate IsSystemRun(o: EtherDream.Options, c: Config, run: seq<System>)
    requires ValidConfig(c)
  {
    && |run| > 0 && SystemInit(o, c, run[0])
    && forall i :: 0 <= i < |run| - 1 ==> SystemStepAt(o, c, run, i)
  }

  ghost predicate SystemStepAt(o: EtherDream.Options, c: Config, run: seq<System>, i: nat)
    requires ValidConfig(c) && i + 1 < |run|
  {
    SystemNext(o, c, run[i], run[i + 1])
  }

  // --- how far a journal has got towards lighting up again ---

  function Forward(level: nat, x: Entry): nat {
    match x
    case SessionAccepted => if level == 0 then 1 else level
    case ClearAccepted => if level == 0 then 1 else level
    case PrepareAccepted => if level == 1 then 2 else level
    case DataAccepted => if level == 2 then 3 else level
    case BeginAccepted => if level == 3 then 4 else level
    case _ => level
  }

  function Progress(entries: seq<Entry>): (level: nat)
    ensures level <= 4
  {
    if entries == [] then 0 else Forward(Progress(entries[..|entries| - 1]), entries[|entries| - 1])
  }

  /** The progress since journal entry `i` after at most one more entry. */
  lemma ProgressSince(journal: seq<Entry>, more: seq<Entry>, i: nat)
    requires i < |journal| && |more| <= 1
    ensures Progress((journal + more)[i + 1..])
         == if more == [] then Progress(journal[i + 1..]) else Forward(Progress(journal[i + 1..]), more[0])
  {
    var tail := journal[i + 1..];
    assert (journal + more)[i + 1..] == tail + more;
    if more == [] {
      assert tail + more == tail;
    } else {
      assert (tail + more)[..|tail + more| - 1] == tail;
    }
  }

  /** `entries` contains, in this order: a clear or a new session, a prepare, data, and a begin. */
  ghost predicate Rearmed(entries: seq<Entry>) {
    exists a, b, c, d :: 0 <= a < b < c < d < |entries|
      && (entries[a] == ClearAccepted || entries[a] == SessionAccepted)
      && entries[b] == PrepareAccepted && entries[c] == DataAccepted && entries[d] == BeginAccepted
  }

  lemma {:induction false} ProgressWitness(entries: seq<Entry>) returns (a: int, b: int, c: int, d: int)
    ensures Progress(entries) >= 1 ==>
      0 <= a < |entries| && (entries[a] == ClearAccepted || entries[a] == SessionAccepted)
    ensures Progress(entries) >= 2 ==> a < b < |entries| && entries[b] == PrepareAccepted
    ensures Progress(entries) >= 3 ==> b < c < |entries| && entries[c] == DataAccepted
    ensures Progress(entries) >= 4 ==> c < d < |entries| && entries[d] == BeginAccepted
  {
    a, b, c, d := 0, 0, 0, 0;
    if entries != [] {
      var n := |entries| - 1;
      a, b, c, d := ProgressWitness(entries[..n]);
      var before, after := Progress(entries[..n]), Progress(entries);
      if before == 0 && after == 1 { a := n; }
      if before == 1 && after == 2 { b := n; }
      if before == 2 && after == 3 { c := n; }
      if before == 3 && after == 4 { d := n; }
    }
  }

  lemma FullProgressIsRearmed(entries: seq<Entry>)
    requires Progress(entries) == 4
    ensures Rearmed(entries)
  {
    var a, b, c, d := ProgressWitness(entries);
    assert entries[b] == PrepareAccepted && entries[c] == DataAccepted && entries[d] == BeginAccepted;
  }

  // --- darkness ---

  predicate AllDark(points: seq<LaserPoint>) {
    forall k :: 0 <= k < |points| ==> IsDark(points[k])
  }

  predicate DarkBatch(pc: Pc) {
    match pc
    case InFill(FSettle(_, _, _, _, batch)) => AllDark(batch)
    case InFill(FReturn(_, _, batch)) => AllDark(batch)
    case _ => true
  }

  /** Nothing lit can come out: the queue is empty and no callback holds a lit point. */
  predicate Quiet(m: Machine) {
    m.shared.target.queue == [] && forall id :: 0 <= id < |m.threads| ==> DarkBatch(m.threads[id])
  }

  predicate Carries(s: System) {
    (s.io.IoCalls? && s.io.op.SubmitContinuous?)
    || (|s.machine.threads| > 0 && s.machine.threads[0].InContinuous?)
  }

  lemma QuietStep(c: Config, id: nat, s: Shared, pc: Pc, e: Env)
    requires ValidConfig(c) && s.target.queue == [] && DarkBatch(pc)
    requires pc.InFill? || pc.InReset? || pc.InStatus? || (pc.Idle? && (e.op.Fill? || e.op.Status? || e.op.Reset?))
    ensures var o := Step(c, id, s, pc, e); o.shared.target.queue == [] && DarkBatch(o.pc)
  {}

  lemma ClearStepQuiets(c: Config, m: Machine, id: nat, e: Env)
    requires ValidConfig(c) && Enabled(m, id) && Locked(m)
    requires m.threads[id] == InReset(ZClear)
    ensures Quiet(Apply(c, m, id, e))
  {
    forall k | 0 <= k < |m.threads| ensures DarkBatch(Apply(c, m, id, e).threads[k]) {
      assert !Holds(m.threads[k]);
    }
  }

  // --- the invariant ---

  predicate Roles(s: System) {
    && |s.machine.threads| > 0
    && (s.machine.threads[0].Idle? || s.machine.threads[0].InContinuous? || s.machine.threads[0].InReset?)
    && (forall id :: 0 < id < |s.machine.threads| ==>
          s.machine.threads[id].Idle? || s.machine.threads[id].InFill? || s.machine.threads[id].InStatus?)
    && (!s.io.IoInSink? ==> s.machine.threads[0] == Idle)
    && (s.io.IoCalls? ==> s.io.op.Reset? || (s.io.op.SubmitContinuous? && s.io.op.points != []))
  }

  /** An emergency stop has begun and not yet returned. */
  predicate Stopping(s: System) {
    (s.io.IoCalls? && s.io.stopping) || (s.io.IoInSink? && s.io.stopping)
  }

  predicate StoppingInv(s: System) {
    Stopping(s) && |s.machine.threads| > 0 ==>
      && s.device.light == EtherDream.Estop
      && (s.io.IoCalls? ==> s.io.op.Reset?)
      && !s.machine.threads[0].InContinuous?
      && (s.io.IoInSink? && s.machine.threads[0] != InReset(ZClear) ==> Quiet(s.machine))
  }

  predicate QuietUntil(s: System, level: nat) {
    && (level == 0 ==> s.device.light == EtherDream.Estop)
    && (level <= 1 ==> s.device.playback == EtherDream.Idle)
    && (level <= 2 ==> s.device.buffer == [])
    && (level <= 3 ==> s.device.playback != EtherDream.Playing && Quiet(s.machine) && !Carries(s))
  }

  predicate StopsHold(s: System) {
    forall i :: 0 <= i < |s.journal| && s.journal[i] == EstopReturned ==>
      QuietUntil(s, Progress(s.journal[i + 1..]))
  }

  predicate BatchesDark(s: System) {
    forall i, j :: 0 <= i < j < |s.journal| ==>
      s.journal[i] == EstopReturned && s.journal[j].HandedOut? && !AllDark(s.journal[j].points) ==>
        Progress(s.journal[i + 1..j]) == 4
  }

  predicate SafeInv(o: EtherDream.Options, s: System) {
    && EtherDream.DeviceInv(o, s.device) && Locked(s.machine) && Roles(s)
    && StoppingInv(s) && StopsHold(s) && BatchesDark(s)
  }

  /** Appending at most one entry keeps what was known about older stops and batches. */
  lemma BatchesStayDark(s: System, s': System, more: seq<Entry>)
    requires BatchesDark(s) && StopsHold(s) && s'.journal == s.journal + more && |more| <= 1
    requires more != [] && more[0].HandedOut? && Quiet(s.machine) ==> AllDark(more[0].points)
    ensures BatchesDark(s')
  {
    var n := |s.journal|;
    forall i, j | 0 <= i < j < |s'.journal| && s'.journal[i] == EstopReturned && s'.journal[j].HandedOut?
                  && !AllDark(s'.journal[j].points)
      ensures Progress(s'.journal[i + 1..j]) == 4
    {
      assert s'.journal[i] == s.journal[i];
      if j < n {
        assert s'.journal[j] == s.journal[j] && s'.journal[i + 1..j] == s.journal[i + 1..j];
      } else {
        assert s'.journal[j] == more[0] && s'.journal[i + 1..j] == s.journal[i + 1..];
        assert QuietUntil(s, Progress(s.journal[i + 1..]));
      }
    }
  }

  lemma EventKeepsStops(o: EtherDream.Options, s: System, e: EtherDream.Event, i: nat)
    requires EtherDream.ValidOptions(o) && EtherDream.DeviceInv(o, s.device) && Roles(s) && s.io == IoIdle
    requires i < |s.journal| && s.journal[i] == EstopReturned
    requires QuietUntil(s, Progress(s.journal[i + 1..]))
    ensures var s' := AfterEvent(o, s, e); QuietUntil(s', Progress(s'.journal[i + 1..]))
  {
    var s' := AfterEvent(o, s, e);
    var r := EtherDream.React(o, s.device, e);
    var more := EntriesFor(e, r);
    ProgressSince(s.journal, more, i);
    if Progress(s.journal[i + 1..]) <= 3 {
      QuietDeviceEvent(o, s.device, e);
    }
  }

  /** A device that is not playing never submits, and starts playing only through an accepted begin with data. */
  lemma QuietDeviceEvent(o: EtherDream.Options, d: EtherDream.Device, e: EtherDream.Event)
    requires EtherDream.DeviceInv(o, d) && d.playback != EtherDream.Playing
    ensures var r := EtherDream.React(o, d, e); var accepted := EntriesFor(e, r);
      && !r.sink.Submit?
      && (r.device.playback == EtherDream.Playing ==> accepted == [BeginAccepted] && d.buffer != [])
      && (r.device.buffer != d.buffer && r.device.buffer != [] ==> accepted == [DataAccepted])
      && (d.playback == EtherDream.Idle && r.device.playback != EtherDream.Idle ==>
            accepted == [PrepareAccepted] && d.light == EtherDream.Ready && r.device.buffer == [])
      && (d.light == EtherDream.Estop && r.device.light == EtherDream.Ready ==>
            accepted == [ClearAccepted] || accepted == [SessionAccepted])
      && (accepted == [BeginAccepted] ==> d.buffer != [] && d.playback != EtherDream.Idle)
      && (accepted == [DataAccepted] ==> d.playback != EtherDream.Idle)
      && (accepted == [PrepareAccepted] ==> d.light == EtherDream.Ready && d.playback == EtherDream.Idle)
  {}

  lemma EventKeepsSafe(o: EtherDream.Options, s: System, s': System, e: EtherDream.Event)
    requires EtherDream.ValidOptions(o) && SafeInv(o, s) && EventStep(o, s, s', e)
    ensures SafeInv(o, s')
  {
    var r := EtherDream.React(o, s.device, e);
    EtherDream.ReactKeepsInv(o, s.device, e);
    BatchesStayDark(s, s', EntriesFor(e, r));
    forall i | 0 <= i < |s'.journal| && s'.journal[i] == EstopReturned
      ensures QuietUntil(s', Progress(s'.journal[i + 1..]))
    {
      assert i < |s.journal| && s.journal[i] == EstopReturned;
      EventKeepsStops(o, s, e, i);
    }
  }

  lemma ReturnKeepsSafe(o: EtherDream.Options, s: System, s': System)
    requires SafeInv(o, s) && ReturnStep(s, s')
    ensures SafeInv(o, s')
  {
    var more := if s.io.stopping then [EstopReturned] else [];
    assert s'.journal == s.journal + more;
    BatchesStayDark(s, s', more);
    ReturnKeepsStops(o, s, s');
  }

  lemma ReturnKeepsStops(o: EtherDream.Options, s: System, s': System)
    requires SafeInv(o, s) && ReturnStep(s, s')
    ensures StopsHold(s')
  {
    forall i | 0 <= i < |s'.journal| && s'.journal[i] == EstopReturned
      ensures QuietUntil(s', Progress(s'.journal[i + 1..]))
    {
      ReturnKeepsStop(o, s, s', i);
    }
  }

  lemma ReturnKeepsStop(o: EtherDream.Options, s: System, s': System, i: nat)
    requires SafeInv(o, s) && ReturnStep(s, s') && i < |s'.journal| && s'.journal[i] == EstopReturned
    ensures QuietUntil(s', Progress(s'.journal[i + 1..]))
  {
    var more := if s.io.stopping then [EstopReturned] else [];
    assert s'.journal == s.journal + more;
    if i < |s.journal| {
      assert s.journal[i] == EstopReturned;
      ProgressSince(s.journal, more, i);
    } else {
      assert s'.journal[i + 1..] == [];
    }
  }

  lemma ThreadKeepsRoles(c: Config, s: System, s': System, id: nat, e: Env)
    requires ValidConfig(c) && Roles(s) && Locked(s.machine) && ThreadStep(c, s, s', id, e)
    ensures Roles(s') && Locked(s'.machine)
  {
    StepKeepsLocked(c, s.machine, id, e);
    forall k | 0 < k < |s'.machine.threads|
      ensures s'.machine.threads[k].Idle? || s'.machine.threads[k].InFill? || s'.machine.threads[k].InStatus?
    {
      if k != id { assert s'.machine.threads[k] == s.machine.threads[k]; }
    }
  }

  lemma ThreadKeepsQuiet(c: Config, s: System, s': System, id: nat, e: Env)
    requires ValidConfig(c) && Roles(s) && ThreadStep(c, s, s', id, e) && Quiet(s.machine) && !Carries(s)
    ensures Quiet(s'.machine) && !Carries(s')
  {
    var pc := s.machine.threads[id];
    QuietStep(c, id, s.machine.shared, pc, e);
    forall k | 0 <= k < |s'.machine.threads| ensures DarkBatch(s'.machine.threads[k]) {
      if k != id { assert s'.machine.threads[k] == s.machine.threads[k]; }
    }
  }

  lemma ThreadKeepsStopping(c: Config, s: System, s': System, id: nat, e: Env)
    requires ValidConfig(c) && Roles(s) && Locked(s.machine) && ThreadStep(c, s, s', id, e) && StoppingInv(s)
    ensures StoppingInv(s')
  {
    if Stopping(s') {
      assert Stopping(s);
      if s.machine.threads[id] == InReset(ZClear) {
        ClearStepQuiets(c, s.machine, id, e);
      } else if s.io.IoInSink? && s.machine.threads[0] != InReset(ZClear) {
        ThreadKeepsQuiet(c, s, s', id, e);
      }
    }
  }

  lemma ThreadKeepsStop(c: Config, s: System, s': System, id: nat, e: Env, i: nat)
    requires ValidConfig(c) && Roles(s) && ThreadStep(c, s, s', id, e)
    requires i < |s.journal| && QuietUntil(s, Progress(s.journal[i + 1..]))
    ensures QuietUntil(s', Progress(s'.journal[i + 1..]))
  {
    var pc := s.machine.threads[id];
    var more := if pc.InFill? && pc.f.FReturn? then [HandedOut(pc.f.batch)] else [];
    assert s'.journal == s.journal + more;
    ProgressSince(s.journal, more, i);
    if Progress(s.journal[i + 1..]) <= 3 {
      ThreadKeepsQuiet(c, s, s', id, e);
    }
  }

  lemma ThreadKeepsBatches(c: Config, s: System, s': System, id: nat, e: Env)
    requires ValidConfig(c) && ThreadStep(c, s, s', id, e) && BatchesDark(s) && StopsHold(s)
    ensures BatchesDark(s')
  {
    var pc := s.machine.threads[id];
    var more := if pc.InFill? && pc.f.FReturn? then [HandedOut(pc.f.batch)] else [];
    assert s'.journal == s.journal + more;
    assert Quiet(s.machine) ==> DarkBatch(pc);
    BatchesStayDark(s, s', more);
  }

  lemma ThreadKeepsSafe(o: EtherDream.Options, c: Config, s: System, s': System, id: nat, e: Env)
    requires ValidConfig(c) && SafeInv(o, s) && ThreadStep(c, s, s', id, e)
    ensures SafeInv(o, s')
  {
    ThreadKeepsRoles(c, s, s', id, e);
    ThreadKeepsStopping(c, s, s', id, e);
    ThreadKeepsBatches(c, s, s', id, e);
    forall i | 0 <= i < |s'.journal| && s'.journal[i] == EstopReturned
      ensures QuietUntil(s', Progress(s'.journal[i + 1..]))
    {
      assert i < |s.journal| && s.journal[i] == EstopReturned;
      ThreadKeepsStop(c, s, s', id, e, i);
    }
  }

  lemma SystemStepKeepsSafe(o: EtherDream.Options, c: Config, s: System, s': System)
    requires EtherDream.ValidOptions(o) && ValidConfig(c) && SafeInv(o, s) && SystemNext(o, c, s, s')
    ensures SafeInv(o, s')
  {
    if ReturnStep(s, s') {
      ReturnKeepsSafe(o, s, s');
    } else if e :| EventStep(o, s, s', e) {
      EventKeepsSafe(o, s, s', e);
    } else {
      var id: nat, e: Env :| ThreadStep(c, s, s', id, e);
      ThreadKeepsSafe(o, c, s, s', id, e);
    }
  }

  lemma {:induction false} SystemRunIsSafe(o: EtherDream.Options, c: Config, run: seq<System>, i: nat)
    requires EtherDream.ValidOptions(o) && ValidConfig(c) && IsSystemRun(o, c, run) && i < |run|
    ensures SafeInv(o, run[i])
  {
    if i > 0 {
      SystemRunIsSafe(o, c, run, i - 1);
      assert SystemStepAt(o, c, run, i - 1);
      SystemStepKeepsSafe(o, c, run[i - 1], run[i]);
    }
  }

  /**
   * Emergency stop, end to end: after the handler has returned, every batch a hardware callback hands out is
   * dark, until a clear or a new session, then an accepted prepare, then accepted data, then an accepted begin
   * have come in that order since.
   */
  lemma EmergencyStopHolds(o: EtherDream.Options, c: Config, run: seq<System>, n: nat, i: nat, j: nat)
    requires EtherDream.ValidOptions(o) && ValidConfig(c) && IsSystemRun(o, c, run) && n < |run|
    requires i < j < |run[n].journal|
    requires run[n].journal[i] == EstopReturned && run[n].journal[j].HandedOut?
    ensures AllDark(run[n].journal[j].points) || Rearmed(run[n].journal[i + 1..j])
  {
    SystemRunIsSafe(o, c, run, n);
    if !AllDark(run[n].journal[j].points) {
      FullProgressIsRearmed(run[n].journal[i + 1..j]);
    }
  }
}
