/** The virtual Ether Dream as an object that updates its fields in place and drives a target sink. */
module EtherDreamDevice {
  import opened Points
  import opened EtherDream
  import TargetState
  import LiberaTarget

  class VirtualEtherDreamDevice {
    const options: Options
    const sink: LiberaTarget.LiberaTarget
    var lightEngineState: LightEngine
    var playbackState: Playback
    var lightEngineEstop: bool
    var flagShutter: bool
    var flagUnderflow: bool
    var flagEstop: bool
    var pointRate: nat
    var pointCount: nat
    var pointBuffer: seq<BufferedPoint>
    var pointRateQueue: seq<nat>
    var lastPlaybackAt: Option<int>
    var playbackAccumulator: nat

    ghost function State(): Device
      reads this
    {
      Device(lightEngineState, playbackState, lightEngineEstop, flagShutter, flagUnderflow, flagEstop,
             pointRate, pointCount, pointBuffer, pointRateQueue, lastPlaybackAt, playbackAccumulator)
    }

    constructor (options: Options, sink: LiberaTarget.LiberaTarget)
      requires ValidOptions(options)
      ensures this.options == options && this.sink == sink
      ensures State() == FreshDevice(options)
    {
      this.options, this.sink := options, sink;
      lightEngineState, playbackState := Ready, Idle;
      lightEngineEstop, flagShutter, flagUnderflow, flagEstop := false, false, false, false;
      pointRate, pointCount := Min(30000, options.maxPointRate), 0;
      pointBuffer, pointRateQueue, lastPlaybackAt, playbackAccumulator := [], [], None, 0;
    }

    method ReadBegin(rate: nat, update: bool) returns (response: char)
      modifies this
      ensures var r := DoBegin(options, old(State()), rate, update);
        State() == r.device && Some(response) == r.response
    {
      response := INVALID;
      if rate > 0 && rate <= options.maxPointRate && lightEngineState == Ready
         && (update || playbackState == Prepared) && |pointBuffer| > 0 {
        pointRate := rate;
        playbackState := Playing;
        flagShutter := true;
        lastPlaybackAt := None;
        response := ACK;
      }
    }

    method ReadRateChange(rate: nat) returns (response: char)
      modifies this`pointRateQueue
      ensures var r := DoQueueRate(options, old(State()), rate);
        State() == r.device && Some(response) == r.response
    {
      response := INVALID;
      if playbackState != Idle && rate > 0 && rate <= options.maxPointRate {
        if |pointRateQueue| >= MAX_RATE_QUEUE {
          response := FULL;
        } else {
          pointRateQueue := pointRateQueue + [rate];
          response := ACK;
        }
      }
    }

    method ReadDataPayload(decoded: seq<BufferedPoint>) returns (response: char)
      modifies this`pointBuffer
      ensures var r := DoData(options, old(State()), decoded);
        State() == r.device && Some(response) == r.response
    {
      response := INVALID;
      if playbackState != Idle && lightEngineState == Ready {
        if |pointBuffer| + |decoded| > options.bufferCapacity {
          response := FULL;
        } else {
          for k := 0 to |decoded|
            invariant pointBuffer == old(pointBuffer) + decoded[..k]
          {
            pointBuffer := pointBuffer + [decoded[k]];
          }
          response := ACK;
        }
      }
    }

    /** The locked part shared by stop, emergency stop and the loss of a session. */
    method StopPlaybackLocked()
      modifies this
      ensures State() == StopPlayback(old(State()))
    {
      playbackState := Idle;
      flagShutter := false;
      pointBuffer := [];
      pointRateQueue := [];
      lastPlaybackAt := None;
      playbackAccumulator := 0;
    }

    /** The locked part of a prepare. */
    method PrepareLocked() returns (response: char)
      modifies this
      ensures var r := DoPrepare(old(State())); State() == r.device && Some(response) == r.response
    {
      response := INVALID;
      if lightEngineState == Ready && playbackState == Idle {
        pointBuffer := [];
        pointRateQueue := [];
        pointCount := 0;
        flagUnderflow, flagEstop, flagShutter := false, false, false;
        playbackState := Prepared;
        lastPlaybackAt := None;
        response := ACK;
      }
    }

    method HandlePrepare() returns (response: char)
      modifies this, sink
      ensures var r := DoPrepare(old(State())); State() == r.device && Some(response) == r.response
      ensures sink.State() == if response == ACK then LiberaTarget.AfterReset(old(sink.State())) else old(sink.State())
    {
      response := PrepareLocked();
      if response == ACK {
        sink.Reset();
      }
    }

    method HandleStop() returns (response: char)
      modifies this, sink
      ensures var r := DoStop(old(State())); State() == r.device && Some(response) == r.response
      ensures sink.State() == if response == ACK then LiberaTarget.AfterReset(old(sink.State())) else old(sink.State())
    {
      response := INVALID;
      if playbackState == Prepared || playbackState == Playing {
        StopPlaybackLocked();
        response := ACK;
      }
      if response == ACK {
        sink.Reset();
      }
    }

    /** The locked part of a clear. */
    method ClearLocked() returns (shouldResetTarget: bool)
      modifies this
      ensures State() == DoClear(old(State())).device && (shouldResetTarget <==> old(playbackState) == Idle)
    {
      shouldResetTarget := false;
      lightEngineState := Ready;
      lightEngineEstop := false;
      flagUnderflow, flagEstop := false, false;
      if playbackState == Idle {
        pointBuffer := [];
        pointRateQueue := [];
        lastPlaybackAt := None;
        shouldResetTarget := true;
      }
    }

    method HandleClear() returns (response: char)
      modifies this, sink
      ensures var r := DoClear(old(State())); State() == r.device && Some(response) == r.response
      ensures sink.State() == if old(playbackState) == Idle then LiberaTarget.AfterReset(old(sink.State()))
                              else old(sink.State())
    {
      var shouldResetTarget := ClearLocked();
      if shouldResetTarget {
        sink.Reset();
      }
      response := ACK;
    }

    method HandleEmergencyStop() returns (response: char)
      modifies this, sink
      ensures var r := DoEmergencyStop(old(State())); State() == r.device && Some(response) == r.response
      ensures sink.State() == LiberaTarget.AfterReset(old(sink.State()))
    {
      lightEngineState := Estop;
      lightEngineEstop := true;
      flagEstop := true;
      StopPlaybackLocked();
      sink.Reset();
      response := ACK;
    }

    method ClearSession()
      modifies this, sink
      ensures State() == StopPlayback(old(State()))
      ensures sink.State() == LiberaTarget.AfterReset(old(sink.State()))
    {
      StopPlaybackLocked();
      sink.Reset();
    }

    /** A new session; the sink was reset when the previous one ended. */
    method ResetState()
      modifies this
      ensures State() == FreshDevice(options)
    {
      lightEngineState, playbackState := Ready, Idle;
      lightEngineEstop := false;
      flagShutter, flagUnderflow, flagEstop := false, false, false;
      pointRate := Min(30000, options.maxPointRate);
      pointCount := 0;
      pointBuffer := [];
      pointRateQueue := [];
      playbackAccumulator := 0;
      lastPlaybackAt := None;
    }

    method DrainPoint() returns (point: BufferedPoint)
      requires pointBuffer != []
      modifies this
      ensures State() == DrainOne(old(State())) && point == old(pointBuffer)[0]
    {
      point := pointBuffer[0];
      pointBuffer := pointBuffer[1..];
      pointCount := (pointCount + 1) % COUNT_WRAP;
      if ChangesRate(point) && pointRateQueue != [] {
        pointRate := pointRateQueue[0];
        pointRateQueue := pointRateQueue[1..];
        lastPlaybackAt := None;
        playbackAccumulator := 0;
      }
    }

    method DrainPoints(toDrain: nat) returns (points: seq<LaserPoint>)
      requires toDrain <= |pointBuffer|
      modifies this
      ensures State() == Drain(old(State()), toDrain)
      ensures points == LaserPoints(old(pointBuffer)[..toDrain])
    {
      points := [];
      for k := 0 to toDrain
        invariant State() == Drain(old(State()), k) && pointBuffer == old(pointBuffer)[k..]
        invariant points == LaserPoints(old(pointBuffer)[..k])
      {
        var point := DrainPoint();
        points := points + [point.point];
      }
    }

    /** The part of a tick after the elapsed time is known. */
    method TakeUnits(now: int, units: nat) returns (points: seq<LaserPoint>)
      modifies this
      ensures var r := PlayDue(old(State()), now, units);
        State() == r.device && r.sink == if points == [] then NoCall else Submit(points, pointRate)
    {
      points := [];
      lastPlaybackAt := Some(now);
      var pointsDue := units / POINT_UNIT;
      playbackAccumulator := units % POINT_UNIT;
      if pointsDue == 0 {
        return;
      }
      var toDrain := Min(pointsDue, |pointBuffer|);
      points := DrainPoints(toDrain);
      if toDrain < pointsDue {
        playbackState := Idle;
        flagShutter := false;
        flagUnderflow := true;
        lastPlaybackAt := None;
        playbackAccumulator := 0;
      }
    }

    /** The part of a tick under the state lock; the rate sent along is the one in force afterwards. */
    method TakeDuePoints(now: int) returns (points: seq<LaserPoint>, effectiveRate: nat)
      modifies this
      ensures var r := PlayTick(old(State()), now);
        State() == r.device && r.sink == if points == [] then NoCall else Submit(points, effectiveRate)
    {
      points, effectiveRate := [], 0;
      if playbackState != Playing || pointRate == 0 {
        return;
      }
      if lastPlaybackAt.None? {
        lastPlaybackAt := Some(now);
        return;
      }
      var elapsed := WholeMicros(now - lastPlaybackAt.value);
      var units := playbackAccumulator + elapsed * pointRate;
      assert units == DueUnits(State(), now);
      points := TakeUnits(now, units);
      effectiveRate := pointRate;
    }

    /** `sinkNow`, `hardwareRate` and `downstream` are what the sink reads from its own surroundings. */
    method PlaybackTick(now: int, hardwareRate: nat, downstream: nat, sinkNow: int)
      requires TargetState.ValidConfig(sink.config)
      modifies this, sink
      ensures var r := PlayTick(old(State()), now);
        && State() == r.device
        && sink.State() == if r.sink.Submit?
             then LiberaTarget.AfterContinuous(sink.config, old(sink.State()), r.sink.points,
                                               if r.sink.rate > 0 then r.sink.rate else options.maxPointRate,
                                               hardwareRate, downstream, sinkNow)
             else old(sink.State())
    {
      var points, effectiveRate := TakeDuePoints(now);
      if points != [] {
        var rate := if effectiveRate > 0 then effectiveRate else options.maxPointRate;
        // the duration is not used by a sink that is told the rate
        var _ := sink.SubmitContinuous(points, Some(rate), 1, hardwareRate, downstream, sinkNow);
      }
    }
  }
}
