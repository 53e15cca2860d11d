/** What playback of the virtual Ether Dream promises over whole runs: lossless order, flow control, pacing. */
module EtherDreamPlayback {
  import opened Points
  import opened EtherDream

  // --- lossless first-in first-out ---

  /** The device with the data accepted and the points sent to the sink since the last accepted prepare. */
  datatype Journal = Journal(device: Device, accepted: seq<BufferedPoint>, sent: seq<LaserPoint>)

  function PlayOn(o: Options, p: Journal, e: Event): Journal {
    var r := React(o, p.device, e);
    var restarted := e == Connected || (e == Do(Prepare) && r.response == Some(ACK));
    Journal(r.device,
            if restarted then []
            else if e.Do? && e.command.Data? && r.response == Some(ACK) then p.accepted + e.command.points
            else p.accepted,
            if restarted then [] else if r.sink.Submit? then p.sent + r.sink.points else p.sent)
  }

  function PlayAll(o: Options, es: seq<Event>): Journal {
    if es == [] then Journal(FreshDevice(o), [], [])
    else PlayOn(o, PlayAll(o, es[..|es| - 1]), es[|es| - 1])
  }

  predicate Lossless(p: Journal) {
    && p.sent <= LaserPoints(p.accepted)
    && (p.device.playback != Idle ==> p.sent + LaserPoints(p.device.buffer) == LaserPoints(p.accepted))
    && (p.device.underflowFlag ==> p.sent == LaserPoints(p.accepted))
    && p.device.count == |p.sent| % COUNT_WRAP
  }

  lemma SendingIsLossless(o: Options, p: Journal, now: int, units: nat)
    requires DeviceInv(o, p.device) && Lossless(p) && p.device.playback == Playing
    ensures var r := PlayDue(p.device, now, units);
      Lossless(Journal(r.device, p.accepted, if r.sink.Submit? then p.sent + r.sink.points else p.sent))
  {
    PlayDueEffect(o, p.device, now, units);
    var n := Min(units / POINT_UNIT, |p.device.buffer|);
    SentMoves(p.sent, p.device.buffer, n);
    CountWraps(|p.sent|, n);
  }

  /** The first `n` points of the buffer move to what was sent. */
  lemma SentMoves(sent: seq<LaserPoint>, buffer: seq<BufferedPoint>, n: nat)
    requires n <= |buffer|
    ensures sent + LaserPoints(buffer) == (sent + LaserPoints(buffer[..n])) + LaserPoints(buffer[n..])
    ensures n == 0 ==> sent + LaserPoints(buffer[..n]) == sent
    ensures n == |buffer| ==> sent + LaserPoints(buffer) == sent + LaserPoints(buffer[..n])
  {
    PointsOfBoth(buffer[..n], buffer[n..]);
    assert buffer == buffer[..n] + buffer[n..];
    AppendBoth(sent, LaserPoints(buffer[..n]), LaserPoints(buffer[n..]));
    assert n == |buffer| ==> buffer[..n] == buffer;
    assert n == 0 ==> LaserPoints(buffer[..n]) == [];
  }

  lemma TickIsLossless(o: Options, p: Journal, now: int)
    requires DeviceInv(o, p.device) && Lossless(p)
    ensures Lossless(PlayOn(o, p, Tick(now)))
  {
    if p.device.playback == Playing && p.device.lastTick.Some? {
      SendingIsLossless(o, p, now, DueUnits(p.device, now));
    }
  }

  lemma PointsOfBoth(a: seq<BufferedPoint>, b: seq<BufferedPoint>)
    ensures LaserPoints(a + b) == LaserPoints(a) + LaserPoints(b)
  {}

  lemma AppendBoth(sent: seq<LaserPoint>, waiting: seq<LaserPoint>, more: seq<LaserPoint>)
    ensures sent + (waiting + more) == (sent + waiting) + more
  {}

  lemma DataIsLossless(o: Options, p: Journal, points: seq<BufferedPoint>)
    requires DeviceInv(o, p.device) && Lossless(p)
    ensures Lossless(PlayOn(o, p, Do(Data(points))))
  {
    PointsOfBoth(p.accepted, points);
    PointsOfBoth(p.device.buffer, points);
    AppendBoth(p.sent, LaserPoints(p.device.buffer), LaserPoints(points));
  }

  lemma EventIsLossless(o: Options, p: Journal, e: Event)
    requires DeviceInv(o, p.device) && Lossless(p)
    ensures Lossless(PlayOn(o, p, e))
  {
    if e.Tick? {
      TickIsLossless(o, p, e.now);
    } else if e.Do? && e.command.Data? {
      DataIsLossless(o, p, e.command.points);
    } else {
      OtherIsLossless(o, p, e);
    }
  }

  lemma OtherIsLossless(o: Options, p: Journal, e: Event)
    requires DeviceInv(o, p.device) && Lossless(p) && !e.Tick? && !(e.Do? && e.command.Data?)
    ensures Lossless(PlayOn(o, p, e))
  {}

  /**
   * Since the last accepted prepare nothing is lost, repeated or reordered: while not stopped, what was sent
   * followed by the buffer is all the data accepted; after a stop what was sent is a prefix of it; after an
   * underflow it is the whole of it; and the point counter counts what was sent.
   */
  lemma {:induction false} PlaybackIsLossless(o: Options, es: seq<Event>)
    requires ValidOptions(o)
    ensures Lossless(PlayAll(o, es)) && DeviceInv(o, PlayAll(o, es).device)
    ensures PlayAll(o, es).device == Final(o, FreshDevice(o), es)
  {
    if es != [] {
      var front := es[..|es| - 1];
      PlaybackIsLossless(o, front);
      EventIsLossless(o, PlayAll(o, front), es[|es| - 1]);
      ReactKeepsInv(o, PlayAll(o, front).device, es[|es| - 1]);
    }
  }

  // --- flow control ---

  /** Points that the events add to the buffer of a device in state `d`. */
  function AcceptedCount(o: Options, d: Device, es: seq<Event>): nat {
    if es == [] then 0
    else
      var front := es[..|es| - 1];
      var e := es[|es| - 1];
      AcceptedCount(o, d, front)
      + if e.Do? && e.command.Data? && React(o, Final(o, d, front), e).response == Some(ACK)
        then |e.command.points| else 0
  }

  lemma TickShrinksBuffer(d: Device, now: int)
    ensures |PlayTick(d, now).device.buffer| <= |d.buffer|
  {
    if d.playback == Playing && d.rate != 0 && d.lastTick.Some? {
      var units := DueUnits(d, now);
      var timed := d.(lastTick := Some(now), accumulator := units % POINT_UNIT);
      var n := Min(units / POINT_UNIT, |d.buffer|);
      assert |Drain(timed, n).buffer| <= |d.buffer|;
    }
  }

  lemma EventGrowsByAccepted(o: Options, d: Device, e: Event)
    ensures |React(o, d, e).device.buffer| <= |d.buffer|
         + if e.Do? && e.command.Data? && React(o, d, e).response == Some(ACK) then |e.command.points| else 0
  {
    if e.Tick? { TickShrinksBuffer(d, e.now); }
  }

  lemma {:induction false} BufferGrowsByAccepted(o: Options, d: Device, es: seq<Event>)
    ensures |Final(o, d, es).buffer| <= |d.buffer| + AcceptedCount(o, d, es)
  {
    if es != [] {
      BufferGrowsByAccepted(o, d, es[..|es| - 1]);
      EventGrowsByAccepted(o, Final(o, d, es[..|es| - 1]), es[|es| - 1]);
    }
  }

  /**
   * A sender that trusts the fullness of an earlier response is never told 'F': if `f` points were reported
   * and `k` accepted since, `n` more with f + k + n within capacity are not refused for space, whatever ticks,
   * rate changes, stops or connections came in between. A refusal for space changes nothing.
   */
  lemma FlowControlIsSound(o: Options, before: seq<Event>, es: seq<Event>, points: seq<BufferedPoint>)
    requires ValidOptions(o)
    ensures var d := Final(o, FreshDevice(o), before);
            var r := React(o, Final(o, d, es), Do(Data(points)));
      && (StatusOf(d).fullness + AcceptedCount(o, d, es) + |points| <= o.bufferCapacity ==> r.response != Some(FULL))
      && (r.response == Some(FULL) ==> r.device == Final(o, d, es))
      && (r.response == Some(ACK) ==> |r.device.buffer| == |Final(o, d, es).buffer| + |points|)
  {
    ReachableStates(o, before);
    BufferGrowsByAccepted(o, Final(o, FreshDevice(o), before), es);
  }

  // --- pacing ---

  /** Events that leave the rate alone: ticks at non-decreasing times, data and status requests. */
  predicate Steady(es: seq<Event>, from: int) {
    && (forall k :: 0 <= k < |es| ==>
          es[k].Tick? || (es[k].Do? && (es[k].command.Data? || es[k].command.Ping? || es[k].command.Version?)))
    && (forall j, k :: 0 <= j < k < |es| && es[j].Tick? && es[k].Tick? ==> es[j].now <= es[k].now)
    && (forall k :: 0 <= k < |es| && es[k].Tick? ==> from <= es[k].now)
  }

  function SentCount(o: Options, d: Device, es: seq<Event>): nat {
    if es == [] then 0
    else
      var front := es[..|es| - 1];
      var r := React(o, Final(o, d, front), es[|es| - 1]);
      SentCount(o, d, front) + if r.sink.Submit? then |r.sink.points| else 0
  }

  /** The time of the last tick, or `from` when there was none. */
  function LastTime(es: seq<Event>, from: int): int {
    if es == [] then from
    else if es[|es| - 1].Tick? then es[|es| - 1].now
    else LastTime(es[..|es| - 1], from)
  }

  lemma {:induction false} LastTimeInOrder(es: seq<Event>, from: int, bound: int)
    requires Steady(es, from) && from <= bound
    requires forall k :: 0 <= k < |es| && es[k].Tick? ==> es[k].now <= bound
    ensures from <= LastTime(es, from) <= bound
  {
    if es != [] && !es[|es| - 1].Tick? { LastTimeInOrder(es[..|es| - 1], from, bound); }
  }

  /** Whole microseconds counted by the ticks, each gap on its own. */
  function CountedMicros(es: seq<Event>, from: int): nat {
    if es == [] then 0
    else
      var front := es[..|es| - 1];
      CountedMicros(front, from)
      + if es[|es| - 1].Tick? then WholeMicros(es[|es| - 1].now - LastTime(front, from)) else 0
  }

  function TickCount(es: seq<Event>): nat {
    if es == [] then 0 else TickCount(es[..|es| - 1]) + if es[|es| - 1].Tick? then 1 else 0
  }

  /** Nanoseconds that the truncation of each gap has dropped so far. */
  function LostNanos(es: seq<Event>, from: int): int {
    LastTime(es, from) - from - NANOS_PER_MICRO * CountedMicros(es, from)
  }

  /** Millionths of a point that the ticks have made due since the tick at `from`. */
  function TotalUnits(d: Device, from: int, es: seq<Event>): nat {
    d.accumulator + CountedMicros(es, from) * d.rate
  }

  /** A playing device at a constant rate, some ticks later and not yet out of points. */
  predicate OnPace(o: Options, d: Device, from: int, es: seq<Event>) {
    var d' := Final(o, d, es);
    && DeviceInv(o, d') && d'.playback == Playing && d'.light == Ready && d'.rates == [] && d'.rate == d.rate
    && d'.lastTick == Some(LastTime(es, from))
    && SentCount(o, d, es) * POINT_UNIT + d'.accumulator == TotalUnits(d, from, es)
    && |d'.buffer| == |d.buffer| + AcceptedCount(o, d, es) - SentCount(o, d, es)
  }

  lemma OneMore(o: Options, d: Device, from: int, es: seq<Event>, e: Event)
    ensures var all := es + [e]; var r := React(o, Final(o, d, es), e);
      && Final(o, d, all) == r.device
      && SentCount(o, d, all) == SentCount(o, d, es) + (if r.sink.Submit? then |r.sink.points| else 0)
      && AcceptedCount(o, d, all) == AcceptedCount(o, d, es)
           + (if e.Do? && e.command.Data? && r.response == Some(ACK) then |e.command.points| else 0)
      && LastTime(all, from) == (if e.Tick? then e.now else LastTime(es, from))
      && CountedMicros(all, from)
         == CountedMicros(es, from) + (if e.Tick? then WholeMicros(e.now - LastTime(es, from)) else 0)
      && TickCount(all) == TickCount(es) + (if e.Tick? then 1 else 0)
  {
    var all := es + [e];
    assert all[..|all| - 1] == es && all[|all| - 1] == e;
  }

  lemma {:induction false} DrainAtConstantRate(d: Device, n: nat)
    requires n <= |d.buffer| && d.rates == []
    ensures var d' := Drain(d, n);
      d' == d.(buffer := d.buffer[n..], count := d'.count)
  {
    if n > 0 { DrainAtConstantRate(d, n - 1); }
  }

  /** What a tick of a steadily playing device does, in terms of the millionths due. */
  lemma SteadyDue(o: Options, d: Device, now: int, units: nat)
    requires DeviceInv(o, d) && d.playback == Playing && d.rates == [] && units / POINT_UNIT <= |d.buffer|
    ensures var d' := PlayDue(d, now, units).device;
      && d'.lastTick == Some(now) && d'.rate == d.rate && d'.rates == []
      && d'.accumulator == units % POINT_UNIT
  {
    DrainAtConstantRate(d.(lastTick := Some(now), accumulator := units % POINT_UNIT), units / POINT_UNIT);
  }

  lemma UnitsSplit(d: Device, d1: Device, from: int, es: seq<Event>, now: int)
    requires d1.rate == d.rate && d1.lastTick == Some(LastTime(es, from))
    requires CountedMicros(es + [Tick(now)], from)
          == CountedMicros(es, from) + WholeMicros(now - LastTime(es, from))
    ensures DueUnits(d1, now) - d1.accumulator == TotalUnits(d, from, es + [Tick(now)]) - TotalUnits(d, from, es)
  {
    Distribute(CountedMicros(es, from), WholeMicros(now - LastTime(es, from)), d.rate);
  }

  lemma Distribute(a: int, b: int, rate: int)
    ensures (a + b) * rate == a * rate + b * rate
  {}

  lemma WholeAndFraction(sent: nat, acc: nat, units: nat, before: int, total: int)
    requires sent * POINT_UNIT + acc == before && units - acc == total - before
    ensures total >= 0 && total / POINT_UNIT == sent + units / POINT_UNIT
    ensures total % POINT_UNIT == units % POINT_UNIT
    ensures (sent + units / POINT_UNIT) * POINT_UNIT + units % POINT_UNIT == total
  {}

  /** The outcome of a tick at `now` after the events `es` of a steadily playing device. */
  predicate Paced(o: Options, d: Device, from: int, es: seq<Event>, now: int) {
    var all := es + [Tick(now)];
    var whole := TotalUnits(d, from, all) / POINT_UNIT;
    var given := |d.buffer| + AcceptedCount(o, d, es);
    && (Final(o, d, all).playback == Playing <==> whole <= given)
    && SentCount(o, d, all) == Min(whole, given)
    && (Final(o, d, all).underflowFlag <==> whole > given)
  }

  lemma NextTick(o: Options, d: Device, from: int, es: seq<Event>, now: int)
    requires OnPace(o, d, from, es)
    ensures Paced(o, d, from, es, now)
    ensures Final(o, d, es + [Tick(now)]).playback == Playing ==> OnPace(o, d, from, es + [Tick(now)])
  {
    var d1 := Final(o, d, es);
    OneMore(o, d, from, es, Tick(now));
    TotalAfterTick(o, d, from, es, now);
    SteadyTick(o, d1, now);
  }

  lemma TotalAfterTick(o: Options, d: Device, from: int, es: seq<Event>, now: int)
    requires OnPace(o, d, from, es)
    ensures var units := DueUnits(Final(o, d, es), now); var total := TotalUnits(d, from, es + [Tick(now)]);
      && total / POINT_UNIT == SentCount(o, d, es) + units / POINT_UNIT
      && (SentCount(o, d, es) + units / POINT_UNIT) * POINT_UNIT + units % POINT_UNIT == total
  {
    var d1 := Final(o, d, es);
    OneMore(o, d, from, es, Tick(now));
    UnitsSplit(d, d1, from, es, now);
    WholeAndFraction(SentCount(o, d, es), d1.accumulator, DueUnits(d1, now),
                     TotalUnits(d, from, es), TotalUnits(d, from, es + [Tick(now)]));
  }

  /** One tick of a device that plays at a constant rate. */
  lemma SteadyTick(o: Options, d: Device, now: int)
    requires DeviceInv(o, d) && d.playback == Playing && d.light == Ready && d.rates == [] && d.lastTick.Some?
    ensures var r := React(o, d, Tick(now)); var units := DueUnits(d, now);
      var n := Min(units / POINT_UNIT, |d.buffer|);
      && (if r.sink.Submit? then |r.sink.points| else 0) == n && |r.device.buffer| == |d.buffer| - n
      && (r.device.playback == Playing <==> units / POINT_UNIT <= |d.buffer|)
      && (r.device.underflowFlag <==> units / POINT_UNIT > |d.buffer|)
      && (r.device.playback == Playing ==>
            && DeviceInv(o, r.device) && r.device.light == Ready && r.device.rates == [] && r.device.rate == d.rate
            && r.device.lastTick == Some(now) && r.device.accumulator == units % POINT_UNIT)
  {
    var units := DueUnits(d, now);
    PlayDueEffect(o, d, now, units);
    assert React(o, d, Tick(now)) == PlayDue(d, now, units);
    if units / POINT_UNIT <= |d.buffer| {
      SteadyDue(o, d, now, units);
    }
  }

  lemma NextOther(o: Options, d: Device, from: int, es: seq<Event>, e: Event)
    requires ValidOptions(o) && OnPace(o, d, from, es)
    requires e.Do? && (e.command.Data? || e.command.Ping? || e.command.Version?)
    ensures OnPace(o, d, from, es + [e])
  {
    OneMore(o, d, from, es, e);
  }

  lemma {:induction false} PaceHolds(o: Options, d: Device, from: int, es: seq<Event>)
    requires ValidOptions(o) && DeviceInv(o, d) && d.playback == Playing && d.light == Ready
    requires d.rates == [] && d.lastTick == Some(from) && Steady(es, from)
    requires forall k :: 0 <= k <= |es| ==> Final(o, d, es[..k]).playback == Playing
    ensures OnPace(o, d, from, es)
  {
    if es != [] {
      var n := |es| - 1;
      var front, e := es[..n], es[n];
      forall k | 0 <= k <= n ensures Final(o, d, front[..k]).playback == Playing {
        assert front[..k] == es[..k];
      }
      PaceHolds(o, d, from, front);
      assert es[..|es|] == es && front + [e] == es;
      if e.Tick? {
        NextTick(o, d, from, front, e.now);
      } else {
        NextOther(o, d, from, front, e);
      }
    }
  }

  /**
   * Pacing by counted time: however the ticks are spaced and the data arrives, a device playing at a constant
   * rate has sent exactly the floor of its initial fraction plus rate times the whole microseconds of every gap,
   * and it runs out exactly at the first tick where that total exceeds everything it was given.
   */
  lemma PacedByCountedTime(o: Options, d: Device, from: int, es: seq<Event>, now: int)
    requires ValidOptions(o) && DeviceInv(o, d) && d.playback == Playing && d.light == Ready
    requires d.rates == [] && d.lastTick == Some(from) && Steady(es, from)
    requires forall k :: 0 <= k <= |es| ==> Final(o, d, es[..k]).playback == Playing
    ensures Paced(o, d, from, es, now)
  {
    PaceHolds(o, d, from, es);
    NextTick(o, d, from, es, now);
  }
}
