/**
 * The virtual Ether Dream DAC: commands and timer ticks, serialised on one io thread, as functions of
 * the device state. Times are nanoseconds, of which a tick counts whole microseconds; the playback
 * accumulator counts millionths of a point.
 */
module EtherDream {
  import opened Points

  const MAX_RATE_QUEUE := 100
  const RATE_CHANGE_BIT := 0x8000
  const POINT_UNIT := 1000000
  const NANOS_PER_MICRO := 1000
  const COUNT_WRAP := 0x1_0000_0000
  const ACK: char := 'a'
  const INVALID: char := 'I'
  const FULL: char := 'F'

  datatype LightEngine = Ready | Estop

  datatype Playback = Idle | Prepared | Playing

  datatype BufferedPoint = BufferedPoint(point: LaserPoint, control: nat)

  datatype Options = Options(bufferCapacity: nat, maxPointRate: nat)

  predicate ValidOptions(o: Options) {
    1 <= o.bufferCapacity <= 0xFFFF && 1000 <= o.maxPointRate < COUNT_WRAP
  }

  /** `lastTick` is None while the playback clock is not valid. */
  datatype Device = Device(
    light: LightEngine,
    playback: Playback,
    lightEstopFlag: bool,
    shutterFlag: bool,
    underflowFlag: bool,
    estopFlag: bool,
    rate: nat,
    count: nat,
    buffer: seq<BufferedPoint>,
    rates: seq<nat>,
    lastTick: Option<int>,
    accumulator: nat)

  /** Decoded commands; every unknown command byte is an emergency stop. */
  datatype Command =
    | Ping
    | Version
    | Prepare
    | Begin(rate: nat)
    | Update(rate: nat)
    | QueueRate(rate: nat)
    | Data(points: seq<BufferedPoint>)
    | Stop
    | Clear
    | EmergencyStop

  datatype Event = Do(command: Command) | Tick(now: int) | Connected | Disconnected

  datatype SinkCall = NoCall | ResetSink | Submit(points: seq<LaserPoint>, rate: nat)

  /** `response` is None where the device sends no status response. */
  datatype Reaction = Reaction(device: Device, response: Option<char>, sink: SinkCall)

  predicate ChangesRate(p: BufferedPoint) {
    (p.control / RATE_CHANGE_BIT) % 2 == 1
  }

  function LaserPoints(ps: seq<BufferedPoint>): (r: seq<LaserPoint>)
    ensures |r| == |ps| && forall k :: 0 <= k < |r| ==> r[k] == ps[k].point
  {
    seq(|ps|, k requires 0 <= k < |ps| => ps[k].point)
  }

  function FreshDevice(o: Options): Device {
    Device(Ready, Idle, false, false, false, false, Min(30000, o.maxPointRate), 0, [], [], None, 0)
  }

  function StopPlayback(d: Device): Device {
    d.(playback := Idle, shutterFlag := false, buffer := [], rates := [], lastTick := None, accumulator := 0)
  }

  predicate BeginAllowed(o: Options, d: Device, rate: nat, update: bool) {
    0 < rate <= o.maxPointRate && d.light == Ready && (update || d.playback == Prepared) && d.buffer != []
  }

  function StartPlaying(d: Device, rate: nat): Device {
    d.(rate := rate, playback := Playing, shutterFlag := true, lastTick := None)
  }

  function DoBegin(o: Options, d: Device, rate: nat, update: bool): Reaction {
    if BeginAllowed(o, d, rate, update) then Reaction(StartPlaying(d, rate), Some(ACK), NoCall)
    else Reaction(d, Some(INVALID), NoCall)
  }

  function DoQueueRate(o: Options, d: Device, rate: nat): Reaction {
    if d.playback == Idle || rate == 0 || rate > o.maxPointRate then Reaction(d, Some(INVALID), NoCall)
    else if |d.rates| >= MAX_RATE_QUEUE then Reaction(d, Some(FULL), NoCall)
    else Reaction(d.(rates := d.rates + [rate]), Some(ACK), NoCall)
  }

  function DoData(o: Options, d: Device, points: seq<BufferedPoint>): Reaction {
    if d.playback == Idle || d.light != Ready then Reaction(d, Some(INVALID), NoCall)
    else if |d.buffer| + |points| > o.bufferCapacity then Reaction(d, Some(FULL), NoCall)
    else Reaction(d.(buffer := d.buffer + points), Some(ACK), NoCall)
  }

  function DoPrepare(d: Device): Reaction {
    if d.light == Ready && d.playback == Idle then
      Reaction(d.(buffer := [], rates := [], count := 0, underflowFlag := false, estopFlag := false,
                  shutterFlag := false, playback := Prepared, lastTick := None), Some(ACK), ResetSink)
    else Reaction(d, Some(INVALID), NoCall)
  }

  function DoStop(d: Device): Reaction {
    if d.playback != Idle then Reaction(StopPlayback(d), Some(ACK), ResetSink)
    else Reaction(d, Some(INVALID), NoCall)
  }

  function DoClear(d: Device): Reaction {
    var cleared := d.(light := Ready, lightEstopFlag := false, underflowFlag := false, estopFlag := false);
    if d.playback == Idle then
      Reaction(cleared.(buffer := [], rates := [], lastTick := None), Some(ACK), ResetSink)
    else Reaction(cleared, Some(ACK), NoCall)
  }

  function DoEmergencyStop(d: Device): Reaction {
    Reaction(StopPlayback(d.(light := Estop, lightEstopFlag := true, estopFlag := true)), Some(ACK), ResetSink)
  }

  function DoCommand(o: Options, d: Device, command: Command): Reaction {
    match command
    case Ping => Reaction(d, Some(ACK), NoCall)
    case Version => Reaction(d, None, NoCall)
    case Prepare => DoPrepare(d)
    case Begin(rate) => DoBegin(o, d, rate, false)
    case Update(rate) => DoBegin(o, d, rate, true)
    case QueueRate(rate) => DoQueueRate(o, d, rate)
    case Data(points) => DoData(o, d, points)
    case Stop => DoStop(d)
    case Clear => DoClear(d)
    case EmergencyStop => DoEmergencyStop(d)
  }

  /** Take one point off the buffer; a marked point also takes the next queued rate. */
  function DrainOne(d: Device): Device
    requires d.buffer != []
  {
    var popped := d.(buffer := d.buffer[1..], count := (d.count + 1) % COUNT_WRAP);
    if ChangesRate(d.buffer[0]) && d.rates != [] then
      popped.(rate := d.rates[0], rates := d.rates[1..], lastTick := None, accumulator := 0)
    else popped
  }

  function Drain(d: Device, n: nat): (d': Device)
    requires n <= |d.buffer|
    ensures d'.buffer == d.buffer[n..]
  {
    if n == 0 then d else DrainOne(Drain(d, n - 1))
  }

  /** The whole microseconds of a gap between two ticks; the rest of the gap is forgotten. */
  function WholeMicros(gap: int): nat {
    if gap < 0 then 0 else gap / NANOS_PER_MICRO
  }

  /** Millionths of a point due once a tick arrives at `now`. */
  function DueUnits(d: Device, now: int): nat {
    if d.lastTick.None? then d.accumulator else d.accumulator + WholeMicros(now - d.lastTick.value) * d.rate
  }

  function Underflow(d: Device): Device {
    d.(playback := Idle, shutterFlag := false, underflowFlag := true, lastTick := None, accumulator := 0)
  }

  /** What a tick does once it knows how many millionths are due. */
  function PlayDue(d: Device, now: int, units: nat): Reaction {
    var due := units / POINT_UNIT;
    var timed := d.(lastTick := Some(now), accumulator := units % POINT_UNIT);
    if due == 0 then Reaction(timed, None, NoCall)
    else
      var n := Min(due, |d.buffer|);
      var drained := Drain(timed, n);
      var points := LaserPoints(d.buffer[..n]);
      Reaction(if n < due then Underflow(drained) else drained, None,
               if points == [] then NoCall else Submit(points, drained.rate))
  }

  function PlayTick(d: Device, now: int): Reaction {
    if d.playback != Playing || d.rate == 0 then Reaction(d, None, NoCall)
    else if d.lastTick.None? then Reaction(d.(lastTick := Some(now)), None, NoCall)
    else PlayDue(d, now, DueUnits(d, now))
  }

  /** A new session forgets everything, an emergency stop included; losing a session stops playback. */
  function React(o: Options, d: Device, e: Event): Reaction {
    match e
    case Do(command) => DoCommand(o, d, command)
    case Tick(now) => PlayTick(d, now)
    case Connected => Reaction(FreshDevice(o), Some(ACK), NoCall)
    case Disconnected => Reaction(StopPlayback(d), None, ResetSink)
  }

  // --- status ---

  datatype Status = Status(
    light: LightEngine, playback: nat, lightFlags: nat, playbackFlags: nat, fullness: nat, rate: nat, count: nat)

  function StatusOf(d: Device): Status {
    Status(d.light,
           match d.playback { case Idle => 0 case Prepared => 1 case Playing => 2 },
           if d.lightEstopFlag then 1 else 0,
           (if d.shutterFlag then 1 else 0) + (if d.underflowFlag then 2 else 0) + (if d.estopFlag then 4 else 0),
           Min(|d.buffer|, 0xFFFF),
           if d.playback == Idle then 0 else d.rate,
           if d.playback == Playing then d.count else 0)
  }

  // --- what every reachable state satisfies ---

  predicate DeviceInv(o: Options, d: Device) {
    && (d.light == Estop ==> d.playback == Idle)
    && (d.estopFlag <==> d.light == Estop) && (d.lightEstopFlag <==> d.light == Estop)
    && (d.shutterFlag <==> d.playback == Playing)
    && (d.underflowFlag ==> d.playback == Idle)
    && (d.playback == Idle ==> d.buffer == [] && d.accumulator == 0 && d.lastTick.None?)
    && |d.buffer| <= o.bufferCapacity
    && |d.rates| <= MAX_RATE_QUEUE
    && (forall k :: 0 <= k < |d.rates| ==> 0 < d.rates[k] <= o.maxPointRate)
    && 0 < d.rate <= o.maxPointRate
    && d.accumulator < POINT_UNIT && d.count < COUNT_WRAP
  }

  function Final(o: Options, d: Device, es: seq<Event>): Device {
    if es == [] then d else React(o, Final(o, d, es[..|es| - 1]), es[|es| - 1]).device
  }

  lemma DrainOneKeeps(o: Options, d: Device)
    requires d.buffer != [] && d.playback == Playing && DeviceInv(o, d)
    ensures var d' := DrainOne(d);
      DeviceInv(o, d') && d'.playback == Playing && d'.light == d.light && d'.underflowFlag == d.underflowFlag
  {}

  lemma {:induction false} DrainKeeps(o: Options, d: Device, n: nat)
    requires n <= |d.buffer| && d.playback == Playing && DeviceInv(o, d)
    ensures DeviceInv(o, Drain(d, n)) && Drain(d, n).playback == Playing && Drain(d, n).light == d.light
    ensures Drain(d, n).underflowFlag == d.underflowFlag
  {
    if n > 0 {
      DrainKeeps(o, d, n - 1);
      DrainOneKeeps(o, Drain(d, n - 1));
    }
  }

  lemma {:induction false} DrainCounts(d: Device, n: nat)
    requires n <= |d.buffer| && d.count < COUNT_WRAP
    ensures Drain(d, n).count == (d.count + n) % COUNT_WRAP
  {
    if n > 0 {
      DrainCounts(d, n - 1);
      DrainOneCounts(Drain(d, n - 1));
      CountWraps(d.count + (n - 1), 1);
    }
  }

  lemma DrainOneCounts(d: Device)
    requires d.buffer != []
    ensures DrainOne(d).count == (d.count + 1) % COUNT_WRAP
  {}

  lemma CountWraps(a: nat, b: nat)
    ensures (a % COUNT_WRAP + b) % COUNT_WRAP == (a + b) % COUNT_WRAP
  {}

  /** What a tick leaves and sends, whatever the amount due. */
  lemma PlayDueEffect(o: Options, d: Device, now: int, units: nat)
    requires DeviceInv(o, d) && d.playback == Playing
    ensures var r := PlayDue(d, now, units); var n := Min(units / POINT_UNIT, |d.buffer|);
      && DeviceInv(o, r.device) && r.device.light == d.light
      && r.device.buffer == d.buffer[n..] && r.device.count == (d.count + n) % COUNT_WRAP
      && r.sink == (if n == 0 then NoCall else Submit(LaserPoints(d.buffer[..n]), r.device.rate))
      && (r.device.playback == Playing <==> units / POINT_UNIT <= |d.buffer|)
      && (r.device.playback != Playing ==> r.device.playback == Idle && r.device.underflowFlag && n == |d.buffer|)
      && (r.device.underflowFlag ==> r.device.playback != Playing)
  {
    var timed := d.(lastTick := Some(now), accumulator := units % POINT_UNIT);
    var n := Min(units / POINT_UNIT, |d.buffer|);
    assert DeviceInv(o, timed);
    DrainKeeps(o, timed, n);
    DrainCounts(timed, n);
    if n == 0 { assert d.buffer[0..] == d.buffer; }
  }

  lemma TickKeepsInv(o: Options, d: Device, now: int)
    requires DeviceInv(o, d)
    ensures DeviceInv(o, PlayTick(d, now).device)
  {
    if d.playback == Playing && d.lastTick.Some? {
      PlayDueEffect(o, d, now, DueUnits(d, now));
    }
  }

  lemma ReactKeepsInv(o: Options, d: Device, e: Event)
    requires ValidOptions(o) && DeviceInv(o, d)
    ensures DeviceInv(o, React(o, d, e).device)
  {
    if e.Tick? { TickKeepsInv(o, d, e.now); }
  }

  /** Whatever the commands, ticks and connections, the device stays in a sane state. */
  lemma {:induction false} ReachableStates(o: Options, es: seq<Event>)
    requires ValidOptions(o)
    ensures DeviceInv(o, Final(o, FreshDevice(o), es))
  {
    if es != [] {
      ReachableStates(o, es[..|es| - 1]);
      ReactKeepsInv(o, Final(o, FreshDevice(o), es[..|es| - 1]), es[|es| - 1]);
    }
  }

  /** Consequence: playback starts only from Prepared with data, or by an update while already playing or prepared. */
  lemma NeverPlaysFromIdle(o: Options, es: seq<Event>, e: Event)
    requires ValidOptions(o)
    ensures var d := Final(o, FreshDevice(o), es);
      React(o, d, e).device.playback == Playing ==> d.playback != Idle && d.light == Ready
  {
    ReachableStates(o, es);
  }
}
