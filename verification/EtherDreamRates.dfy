/** Which rate the virtual Ether Dream plays at: the rate queue over whole runs. */
module EtherDreamRates {
  import opened Points
  import opened EtherDream

  // --- one drain ---

  /** Of the 16 control bits the top one asks for a rate change. */
  lemma MarkIsTopBit(p: BufferedPoint)
    requires p.control < 65536
    ensures ChangesRate(p) <==> p.control >= 32768
  {}

  /** Points of `ps` that ask for the next queued rate. */
  function Marks(ps: seq<BufferedPoint>): nat {
    if ps == [] then 0 else Marks(ps[..|ps| - 1]) + if ChangesRate(ps[|ps| - 1]) then 1 else 0
  }

  /** The rates that draining `n` points takes: one per marked point while any is queued. */
  function TakenBy(d: Device, n: nat): (m: nat)
    requires n <= |d.buffer|
    ensures m <= |d.rates|
  {
    Min(Marks(d.buffer[..n]), |d.rates|)
  }

  /** Rates come off the front of the queue; the last one taken is in force, and taking one restarts the clock. */
  predicate DrainedRightly(d: Device, d': Device, n: nat)
    requires n <= |d.buffer|
  {
    var m := TakenBy(d, n);
    && d'.rates == d.rates[m..]
    && d'.rate == (if m == 0 then d.rate else d.rates[m - 1])
    && d'.lastTick == (if m == 0 then d.lastTick else None)
    && d'.accumulator == (if m == 0 then d.accumulator else 0)
    && d'.buffer == d.buffer[n..]
  }

  lemma MarksOneMore(ps: seq<BufferedPoint>, n: nat)
    requires n < |ps|
    ensures Marks(ps[..n + 1]) == Marks(ps[..n]) + if ChangesRate(ps[n]) then 1 else 0
  {
    assert ps[..n + 1][..n] == ps[..n];
  }

  lemma OneMoreDrained(d: Device, d1: Device, n: nat)
    requires n < |d.buffer| && DrainedRightly(d, d1, n)
    ensures DrainedRightly(d, DrainOne(d1), n + 1)
  {
    MarksOneMore(d.buffer, n);
    assert d1.buffer[0] == d.buffer[n];
    var m := TakenBy(d, n);
    if ChangesRate(d.buffer[n]) && m < |d.rates| {
      assert d1.rates[0] == d.rates[m] && d1.rates[1..] == d.rates[m + 1..];
    }
  }

  lemma {:induction false} DrainTakesInOrder(d: Device, n: nat)
    requires n <= |d.buffer|
    ensures DrainedRightly(d, Drain(d, n), n)
  {
    if n == 0 {
      assert d.rates[0..] == d.rates && d.buffer[0..] == d.buffer && d.buffer[..0] == [];
    } else {
      DrainTakesInOrder(d, n - 1);
      OneMoreDrained(d, Drain(d, n - 1), n - 1);
    }
  }

  // --- whole runs ---

  /**
   * The device beside a plain account of its rates: those accepted since the last accepted prepare, how many of them
   * points have taken since, and the rate that should be in force.
   */
  datatype Account = Account(device: Device, offered: seq<nat>, taken: nat, inForce: nat)

  /** How many points a reaction sent. */
  function SentBy(r: Reaction): nat {
    if r.sink.Submit? then |r.sink.points| else 0
  }

  function Accepted(r: Reaction): bool {
    r.response == Some(ACK)
  }

  /** Bookkeeping that looks at the points sent and at the answers, never at the device's own queue of rates. */
  function AccountOn(o: Options, a: Account, e: Event): Account {
    var r := React(o, a.device, e);
    match e
    case Connected => Account(r.device, [], 0, Min(30000, o.maxPointRate))
    case Tick(_) =>
      var marks := Marks(a.device.buffer[..Min(SentBy(r), |a.device.buffer|)]);
      var taken := Min(|a.offered|, a.taken + marks);
      Account(r.device, a.offered, taken, if 0 < taken && a.taken < taken then a.offered[taken - 1] else a.inForce)
    case Disconnected => a.(device := r.device)
    case Do(command) =>
      if !Accepted(r) then a.(device := r.device)
      else
        match command
        case Prepare => Account(r.device, [], 0, a.inForce)
        case QueueRate(rate) => a.(device := r.device, offered := a.offered + [rate])
        case Begin(rate) => a.(device := r.device, inForce := rate)
        case Update(rate) => a.(device := r.device, inForce := rate)
        case _ => a.(device := r.device)
  }

  function AccountAll(o: Options, es: seq<Event>): Account {
    if es == [] then Account(FreshDevice(o), [], 0, Min(30000, o.maxPointRate))
    else AccountOn(o, AccountAll(o, es[..|es| - 1]), es[|es| - 1])
  }

  /** Taken rates followed by the queue are the accepted ones, in order, and the right rate is in force. */
  predicate Settled(a: Account) {
    && a.taken <= |a.offered|
    && (a.device.playback != Idle ==> a.device.rates == a.offered[a.taken..])
    && a.device.rate == a.inForce
  }

  lemma TickRates(o: Options, d: Device, now: int, units: nat)
    requires DeviceInv(o, d) && d.playback == Playing
    ensures var r := PlayDue(d, now, units); var n := Min(units / POINT_UNIT, |d.buffer|); var m := TakenBy(d, n);
      && SentBy(r) == n
      && r.device.rates == d.rates[m..] && r.device.rate == (if m == 0 then d.rate else d.rates[m - 1])
      && (r.sink.Submit? ==> r.sink.rate == r.device.rate)
      && (m > 0 ==> r.device.lastTick.None? && r.device.accumulator == 0)
      && (m == 0 && r.device.playback == Playing ==> r.device.lastTick == Some(now))
  {
    var timed := d.(lastTick := Some(now), accumulator := units % POINT_UNIT);
    var n := Min(units / POINT_UNIT, |d.buffer|);
    PlayDueEffect(o, d, now, units);
    DrainTakesInOrder(timed, n);
    if n == 0 {
      assert d.buffer[..0] == [] && d.rates[0..] == d.rates;
    }
  }

  lemma TickSettles(o: Options, a: Account, now: int)
    requires DeviceInv(o, a.device) && Settled(a)
    ensures Settled(AccountOn(o, a, Tick(now)))
  {
    var d := a.device;
    if d.playback == Playing && d.lastTick.Some? {
      TickRates(o, d, now, DueUnits(d, now));
      var n := Min(DueUnits(d, now) / POINT_UNIT, |d.buffer|);
      TakingMore(a.offered, a.taken, TakenBy(d, n));
    } else {
      assert d.buffer[..0] == [];
    }
  }

  lemma TakingMore(offered: seq<nat>, taken: nat, m: nat)
    requires taken + m <= |offered|
    ensures offered[taken..][m..] == offered[taken + m..]
    ensures m > 0 ==> offered[taken..][m - 1] == offered[taken + m - 1]
  {}

  lemma CommandSettles(o: Options, a: Account, command: Command)
    requires DeviceInv(o, a.device) && Settled(a)
    ensures Settled(AccountOn(o, a, Do(command)))
  {
    if command.QueueRate? {
      assert (a.offered + [command.rate])[a.taken..] == a.offered[a.taken..] + [command.rate];
    }
  }

  /**
   * Over whole runs, rates are taken in the order they were accepted since the last prepare: one for each marked
   * point sent while any was queued. The rate in force is the last one taken, or the one of a later begin or update.
   */
  lemma {:induction false} RatesTakenInOrder(o: Options, es: seq<Event>)
    requires ValidOptions(o)
    ensures Settled(AccountAll(o, es)) && DeviceInv(o, AccountAll(o, es).device)
    ensures AccountAll(o, es).device == Final(o, FreshDevice(o), es)
  {
    if es != [] {
      var front, e := es[..|es| - 1], es[|es| - 1];
      RatesTakenInOrder(o, front);
      var a := AccountAll(o, front);
      ReactKeepsInv(o, a.device, e);
      match e
      case Tick(now) => TickSettles(o, a, now);
      case Do(command) => CommandSettles(o, a, command);
      case _ =>
    }
  }

  /** The sink is told the rate in force after the points sent, and a rate change among them restarts the clock. */
  lemma SinkIsToldTheRate(o: Options, es: seq<Event>, now: int)
    requires ValidOptions(o)
    ensures var a := AccountAll(o, es); var after := AccountOn(o, a, Tick(now)); var r := React(o, a.device, Tick(now));
      && (r.sink.Submit? ==> r.sink.rate == after.inForce)
      && (after.taken > a.taken ==> r.device.lastTick.None? && r.device.accumulator == 0)
  {
    RatesTakenInOrder(o, es);
    var a := AccountAll(o, es);
    var d := a.device;
    TickSettles(o, a, now);
    if d.playback == Playing && d.lastTick.Some? {
      TickRates(o, d, now, DueUnits(d, now));
    } else {
      assert d.buffer[..0] == [];
    }
  }

  // --- answers ---

  /** When each command is accepted, on any reachable device. */
  predicate MayAccept(o: Options, d: Device, command: Command) {
    match command
    case Prepare => d.light == Ready && d.playback == Idle
    case Begin(rate) => d.playback == Prepared && d.buffer != [] && 0 < rate <= o.maxPointRate
    case Update(rate) => d.playback != Idle && d.buffer != [] && 0 < rate <= o.maxPointRate
    case QueueRate(rate) => d.playback != Idle && |d.rates| < 100 && 0 < rate <= o.maxPointRate
    case Data(points) => d.playback != Idle && |d.buffer| + |points| <= o.bufferCapacity
    case Stop => d.playback != Idle
    case Ping => true
    case Clear => true
    case EmergencyStop => true
    case Version => false
  }

  /** Refused for want of room, as opposed to refused as invalid. */
  predicate LacksRoom(o: Options, d: Device, command: Command) {
    match command
    case QueueRate(rate) => d.playback != Idle && 0 < rate <= o.maxPointRate && |d.rates| >= 100
    case Data(points) => d.playback != Idle && |d.buffer| + |points| > o.bufferCapacity
    case _ => false
  }

  /** Every command is accepted exactly when the state allows it, and a refused one changes nothing. */
  lemma AnswersExactly(o: Options, es: seq<Event>, command: Command)
    requires ValidOptions(o)
    ensures var d := Final(o, FreshDevice(o), es); var r := React(o, d, Do(command));
      && (r.response == Some('a') <==> MayAccept(o, d, command))
      && (r.response == Some('F') <==> LacksRoom(o, d, command))
      && (r.response == None <==> command.Version?)
      && (r.response != Some('a') ==> r.device == d && r.sink == NoCall)
  {
    ReachableStates(o, es);
  }

  /**
   * What an accepted command leaves: a prepare empties everything for a new stream; a begin or update plays at its
   * rate, with a clock that starts at the next tick; stops leave the light engine and the flags of the last stream.
   */
  lemma AcceptedExactly(o: Options, es: seq<Event>, command: Command)
    requires ValidOptions(o) && MayAccept(o, Final(o, FreshDevice(o), es), command)
    ensures var d := Final(o, FreshDevice(o), es); var r := React(o, d, Do(command)); var d' := r.device;
      match command
      case Prepare =>
        && r.sink == ResetSink && d'.playback == Prepared && d'.count == 0 && d'.lastTick.None?
        && d'.buffer == [] && d'.rates == [] && !d'.underflowFlag && d'.rate == d.rate
      case Stop =>
        && r.sink == ResetSink && d'.playback == Idle && d'.buffer == [] && d'.rates == []
        && d'.light == d.light && d'.count == d.count && d'.rate == d.rate && d'.underflowFlag == d.underflowFlag
      case EmergencyStop =>
        && r.sink == ResetSink && d'.playback == Idle && d'.buffer == [] && d'.rates == []
        && d'.light == Estop && d'.count == d.count && d'.rate == d.rate && d'.underflowFlag == d.underflowFlag
      case Clear =>
        && r.sink == (if d.playback == Idle then ResetSink else NoCall)
        && d'.light == Ready && !d'.underflowFlag && d'.playback == d.playback && d'.buffer == d.buffer
        && d'.rates == (if d.playback == Idle then [] else d.rates)
        && d'.count == d.count && d'.rate == d.rate && d'.lastTick == d.lastTick && d'.accumulator == d.accumulator
      case Begin(rate) => r.sink == NoCall && d' == d.(playback := Playing, shutterFlag := true, rate := rate, lastTick := None)
      case Update(rate) => r.sink == NoCall && d' == d.(playback := Playing, shutterFlag := true, rate := rate, lastTick := None)
      case QueueRate(rate) => r.sink == NoCall && d' == d.(rates := d.rates + [rate])
      case Data(points) => r.sink == NoCall && d' == d.(buffer := d.buffer + points)
      case Ping => r.sink == NoCall && d' == d
  {
    ReachableStates(o, es);
  }

  /** The first tick of a stream, or after a rate change, only starts the clock. */
  lemma FirstTickStartsClock(o: Options, d: Device, now: int)
    requires DeviceInv(o, d) && d.playback == Playing && d.lastTick.None?
    ensures React(o, d, Tick(now)) == Reaction(d.(lastTick := Some(now)), None, NoCall)
  {}

  /** A tick does nothing to a device that is not playing. */
  lemma IdleTicksDoNothing(o: Options, d: Device, now: int)
    requires d.playback != Playing
    ensures React(o, d, Tick(now)) == Reaction(d, None, NoCall)
  {}

  /** Connecting starts from scratch; a lost connection stops playback and resets the sink. */
  lemma ConnectionsExactly(o: Options, es: seq<Event>)
    requires ValidOptions(o)
    ensures var d := Final(o, FreshDevice(o), es); var up, down := React(o, d, Connected), React(o, d, Disconnected);
      && up.device.light == Ready && up.device.playback == Idle && up.device.count == 0 && up.device.rates == []
      && up.device.rate == Min(30000, o.maxPointRate) && up.response == Some('a') && up.sink == NoCall
      && down.device.playback == Idle && down.device.light == d.light && down.device.buffer == []
      && down.device.rates == [] && down.response == None && down.sink == ResetSink
  {
    ReachableStates(o, es);
  }

  // --- status ---

  /** What a status response says. */
  predicate TellsState(d: Device, s: Status) {
    && s.light == d.light && s.lightFlags == (if d.light == Estop then 1 else 0)
    && s.playback == (if d.playback == Idle then 0 else if d.playback == Prepared then 1 else 2)
    && s.playbackFlags == (if d.playback == Playing then 1 else 0) + (if d.underflowFlag then 2 else 0)
                          + (if d.light == Estop then 4 else 0)
    && s.fullness == |d.buffer|
    && s.count == (if d.playback == Playing then d.count else 0)
  }

  lemma StatusTells(o: Options, d: Device)
    requires ValidOptions(o) && DeviceInv(o, d)
    ensures TellsState(d, StatusOf(d)) && StatusOf(d).rate == if d.playback == Idle then 0 else d.rate
  {}

  /** Every status response tells the truth about the device, and the rate is the one that should be in force. */
  lemma StatusTellsState(o: Options, es: seq<Event>)
    requires ValidOptions(o)
    ensures var d := Final(o, FreshDevice(o), es);
      && TellsState(d, StatusOf(d))
      && StatusOf(d).rate == if d.playback == Idle then 0 else AccountAll(o, es).inForce
  {
    RatesTakenInOrder(o, es);
    StatusTells(o, AccountAll(o, es).device);
  }
}
