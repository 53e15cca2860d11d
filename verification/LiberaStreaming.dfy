/**
 * What a whole Libera-protocol session hands to the sink, and at which rate, in terms of the records alone.
 */
module LiberaStreaming {
  import opened Points
  import opened LiberaSession

  // --- the rate in force ---

  function WithinLimits(l: Limits, rate: nat): nat {
    Max(l.minPointRate, Min(rate, l.maxPointRate))
  }

  function RequestedRate(r: Record): nat {
    match r
    case StreamConfig(_, _, rate) => rate
    case FrameMarker(marker) => marker.pointRate
    case _ => 0
  }

  /** The last rate that a configuration or a marker asked for, within the limits, or the opening rate. */
  function RateInForce(l: Limits, opening: nat, rs: seq<Record>): nat {
    if rs == [] then opening
    else
      var requested := RequestedRate(rs[|rs| - 1]);
      if requested != 0 then WithinLimits(l, requested) else RateInForce(l, opening, rs[..|rs| - 1])
  }

  /** Sessions count frames when the last configuration asked for counted or marked frames. */
  function Counts(mode: StreamMode): bool {
    mode == FrameByCount || mode == MarkedPointStream
  }

  /** A frame's own rate is in force while it is being assembled. */
  predicate PendingRateHolds(l: Limits, s: Session) {
    s.pending.Some? && s.pending.value.marker.pointRate != 0 ==>
      s.rate == WithinLimits(l, s.pending.value.marker.pointRate)
  }

  lemma RecordKeepsRate(l: Limits, s: Session, r: Record)
    requires ValidLimits(l) && PendingRateHolds(l, s) && Handle(l, s, r).ok
    ensures var h := Handle(l, s, r);
      && PendingRateHolds(l, h.session)
      && h.session.rate == (if RequestedRate(r) != 0 then WithinLimits(l, RequestedRate(r)) else s.rate)
      && (forall c :: c in h.calls && c.SubmitContinuous? ==> c.rate == s.rate)
      && (forall c :: c in h.calls && c.SubmitFrame? ==> c.rate == s.rate)
  {}

  lemma RunOf(l: Limits, s: Session, front: seq<Record>, x: Record)
    requires ValidLimits(l) && Run(l, s, front + [x]).ok
    ensures Run(l, s, front).ok && Handle(l, Run(l, s, front).session, x).ok
    ensures var before := Run(l, s, front); var h := Handle(l, before.session, x);
      Run(l, s, front + [x]) == Handled(true, h.session, before.calls + h.calls)
  {
    assert (front + [x])[..|front|] == front;
  }

  /** Along every run the session's rate is the one last asked for. */
  lemma {:induction false} RateIsLastRequest(l: Limits, s: Session, rs: seq<Record>)
    requires ValidLimits(l) && s.pending.None? && Run(l, s, rs).ok
    ensures Run(l, s, rs).session.rate == RateInForce(l, s.rate, rs)
    ensures PendingRateHolds(l, Run(l, s, rs).session)
  {
    if rs != [] {
      var front, x := rs[..|rs| - 1], rs[|rs| - 1];
      assert rs == front + [x];
      RunOf(l, s, front, x);
      RateIsLastRequest(l, s, front);
      RecordKeepsRate(l, Run(l, s, front).session, x);
    }
  }

  /** Whatever a record makes the session submit goes out at the rate in force when it came. */
  lemma SubmissionsCarryRateInForce(l: Limits, s: Session, front: seq<Record>, x: Record, c: SinkCall)
    requires ValidLimits(l) && s.pending.None? && Run(l, s, front + [x]).ok
    requires c in Handle(l, Run(l, s, front).session, x).calls && !c.ScannerSync?
    ensures c.rate == RateInForce(l, s.rate, front)
  {
    RunOf(l, s, front, x);
    RateIsLastRequest(l, s, front);
    RecordKeepsRate(l, Run(l, s, front).session, x);
  }

  /** The limits in force are the option's, both capped by what the target can do when it says so. */
  lemma LimitsExactly(targetMax: nat, optionMin: nat, optionMax: nat, maxFrame: nat, maxChannels: nat)
    requires 1 <= optionMin <= optionMax
    ensures var l := EffectiveLimits(targetMax, optionMin, optionMax, maxFrame, maxChannels);
      && l.maxPointRate <= optionMax && l.minPointRate <= optionMin && l.minPointRate <= l.maxPointRate
      && (targetMax > 0 ==> l.maxPointRate <= targetMax)
      && (l.maxPointRate == optionMax || (targetMax > 0 && l.maxPointRate == targetMax))
      && (l.minPointRate == optionMin || l.minPointRate == l.maxPointRate)
      && l.maxFramePoints == maxFrame && l.maxUserChannels == maxChannels
  {}

  /** A session opens without a frame, at its own default rate or 30000, within the limits. */
  lemma OpeningExactly(l: Limits, hello: Hello)
    requires ValidLimits(l)
    ensures var s := Opened(l, hello);
      && s.pending.None? && (s.mode == FrameByCount <==> Counts(hello.mode))
      && s.channels <= hello.channels && s.channels <= l.maxUserChannels
      && (s.channels == hello.channels || s.channels == l.maxUserChannels)
      && s.rate == WithinLimits(l, if hello.defaultPointRate == 0 then 30000 else hello.defaultPointRate)
  {}

  /** A configuration drops a frame under assembly and sets mode, channels and, unless zero, the rate. */
  lemma ConfigurationExactly(l: Limits, s: Session, mode: StreamMode, channels: nat, rate: nat)
    requires ValidLimits(l)
    ensures var h := Handle(l, s, StreamConfig(mode, channels, rate));
      && h.ok && h.calls == [] && h.session.pending.None?
      && (h.session.mode == FrameByCount <==> Counts(mode))
      && (h.session.mode == RawPointStream <==> !Counts(mode))
      && h.session.channels == Min(channels, l.maxUserChannels)
      && h.session.rate == if rate == 0 then s.rate else WithinLimits(l, rate)
  {}

  // --- nothing is lost ---

  /** All points handed to the sink, frames and streamed points alike, in order. */
  function Delivered(calls: seq<SinkCall>): seq<LaserPoint> {
    if calls == [] then []
    else
      Delivered(calls[..|calls| - 1])
      + match calls[|calls| - 1]
        case SubmitContinuous(points, _) => points
        case SubmitFrame(points, _, _) => points
        case ScannerSync(_, _) => []
  }

  function Pending(s: Session): seq<LaserPoint> {
    if s.pending.Some? then s.pending.value.points else []
  }

  /** No configuration arrives while points of an unfinished frame are waiting. */
  predicate NoFrameCutShort(l: Limits, s: Session, rs: seq<Record>)
    requires ValidLimits(l)
  {
    forall k :: 0 <= k < |rs| && rs[k].StreamConfig? ==> Pending(Run(l, s, rs[..k]).session) == []
  }

  lemma DeliveredMore(calls: seq<SinkCall>, more: seq<SinkCall>)
    requires |more| <= 1
    ensures Delivered(calls + more) == Delivered(calls) + Delivered(more)
  {
    if more == [] {
      assert calls + more == calls;
    } else {
      assert (calls + more)[..|calls + more| - 1] == calls && more[..0] == [];
    }
  }

  lemma RecordLosesNothing(l: Limits, s: Session, r: Record)
    requires ValidLimits(l) && Handle(l, s, r).ok && (r.StreamConfig? ==> Pending(s) == [])
    requires s.pending.None? || s.mode == FrameByCount
    ensures var h := Handle(l, s, r);
      Delivered(h.calls) + Pending(h.session) == Pending(s) + (if r.Points? then r.points else [])
      && |h.calls| <= 1
  {
    var calls := Handle(l, s, r).calls;
    if calls != [] {
      assert calls == [calls[0]] && calls[..0] == [];
    }
  }

  lemma Regroup(a: seq<LaserPoint>, b: seq<LaserPoint>, c: seq<LaserPoint>, p: seq<LaserPoint>,
                d: seq<LaserPoint>, x: seq<LaserPoint>, start: seq<LaserPoint>, got: seq<LaserPoint>)
    requires a + p == start + got && b + c == p + x && d == a + b
    ensures d + c == start + (got + x)
  {
    assert (a + b) + c == a + (b + c);
    assert a + (p + x) == (a + p) + x;
  }

  /**
   * Over a whole session nothing is lost, repeated or reordered: the points handed to the sink, streamed or as
   * frames, followed by those of the frame under assembly, are the points received.
   */
  lemma {:induction false} SessionLosesNothing(l: Limits, s: Session, rs: seq<Record>)
    requires ValidLimits(l) && SessionInv(l, s) && Run(l, s, rs).ok && NoFrameCutShort(l, s, rs)
    ensures var r := Run(l, s, rs); Delivered(r.calls) + Pending(r.session) == Pending(s) + PointsIn(rs)
  {
    if rs != [] {
      var n := |rs| - 1;
      var front, x := rs[..n], rs[n];
      assert rs == front + [x];
      RunOf(l, s, front, x);
      FrontNotCutShort(l, s, rs);
      SessionLosesNothing(l, s, front);
      RunKeepsInv(l, s, front);
      var before := Run(l, s, front);
      var h := Handle(l, before.session, x);
      assert Run(l, s, rs[..n]) == before;
      RecordLosesNothing(l, before.session, x);
      DeliveredMore(before.calls, h.calls);
      Regroup(Delivered(before.calls), Delivered(h.calls), Pending(h.session), Pending(before.session),
              Delivered(before.calls + h.calls), if x.Points? then x.points else [], Pending(s), PointsIn(front));
    }
  }

  lemma FrontNotCutShort(l: Limits, s: Session, rs: seq<Record>)
    requires ValidLimits(l) && rs != [] && NoFrameCutShort(l, s, rs)
    ensures NoFrameCutShort(l, s, rs[..|rs| - 1])
  {
    var front := rs[..|rs| - 1];
    forall k | 0 <= k < |front| && front[k].StreamConfig? ensures Pending(Run(l, s, front[..k]).session) == [] {
      assert front[..k] == rs[..k] && rs[k] == front[k];
    }
  }

  // --- a raw stream, call by call ---

  /** Records of a raw stream: no marker, and no configuration that counts frames. */
  predicate StaysRaw(rs: seq<Record>) {
    forall k :: 0 <= k < |rs| ==> !rs[k].FrameMarker? && (rs[k].StreamConfig? ==> !Counts(rs[k].mode))
  }

  /** One call for each nonempty points record, at the rate then in force, and one for each scanner setting. */
  function RawCalls(l: Limits, opening: nat, rs: seq<Record>): seq<SinkCall> {
    if rs == [] then []
    else
      var front, x := rs[..|rs| - 1], rs[|rs| - 1];
      RawCalls(l, opening, front)
      + if x.Points? && x.points != [] then [SubmitContinuous(x.points, RateInForce(l, opening, front))]
        else if x.SetScannerSync? then [ScannerSync(x.offsetNs, x.enabled)]
        else []
  }

  /** A raw stream reaches the sink record by record, in order, each at the rate in force. */
  lemma {:induction false} RawStreamArrives(l: Limits, s: Session, rs: seq<Record>)
    requires ValidLimits(l) && s.mode == RawPointStream && s.pending.None? && StaysRaw(rs) && Run(l, s, rs).ok
    ensures var r := Run(l, s, rs);
      r.session.mode == RawPointStream && r.session.pending.None? && r.calls == RawCalls(l, s.rate, rs)
  {
    if rs != [] {
      var front, x := rs[..|rs| - 1], rs[|rs| - 1];
      assert rs == front + [x];
      RunOf(l, s, front, x);
      RawStreamArrives(l, s, front);
      RateIsLastRequest(l, s, front);
    }
  }

  /** Scanner settings reach the sink in every mode, in order and unchanged. */
  function ScannerCalls(calls: seq<SinkCall>): seq<SinkCall> {
    if calls == [] then []
    else
      ScannerCalls(calls[..|calls| - 1]) + if calls[|calls| - 1].ScannerSync? then [calls[|calls| - 1]] else []
  }

  function ScannerSettings(rs: seq<Record>): seq<SinkCall> {
    if rs == [] then []
    else
      ScannerSettings(rs[..|rs| - 1])
      + if rs[|rs| - 1].SetScannerSync? then [ScannerSync(rs[|rs| - 1].offsetNs, rs[|rs| - 1].enabled)] else []
  }

  lemma ScannerMore(calls: seq<SinkCall>, more: seq<SinkCall>)
    requires |more| <= 1
    ensures ScannerCalls(calls + more) == ScannerCalls(calls) + if more != [] && more[0].ScannerSync? then more else []
  {
    if more == [] {
      assert calls + more == calls;
    } else {
      assert (calls + more)[..|calls + more| - 1] == calls && more == [more[0]];
    }
  }

  lemma {:induction false} ScannerSettingsArrive(l: Limits, s: Session, rs: seq<Record>)
    requires ValidLimits(l) && Run(l, s, rs).ok
    ensures ScannerCalls(Run(l, s, rs).calls) == ScannerSettings(rs)
  {
    if rs != [] {
      var front, x := rs[..|rs| - 1], rs[|rs| - 1];
      assert rs == front + [x];
      RunOf(l, s, front, x);
      ScannerSettingsArrive(l, s, front);
      ScannerRecord(l, Run(l, s, front).session, x);
      ScannerMore(Run(l, s, front).calls, Handle(l, Run(l, s, front).session, x).calls);
    }
  }

  lemma ScannerRecord(l: Limits, s: Session, r: Record)
    requires ValidLimits(l)
    ensures var calls := Handle(l, s, r).calls;
      && |calls| <= 1
      && (if calls != [] && calls[0].ScannerSync? then calls else [])
         == (if r.SetScannerSync? then [ScannerSync(r.offsetNs, r.enabled)] else [])
  {}

  // --- what ends a session ---

  /** A record that the session cannot honour in its present state. */
  predicate Refused(l: Limits, s: Session, r: Record) {
    match r
    case FrameMarker(marker) =>
      marker.count == 0 || marker.count > l.maxFramePoints || s.mode != FrameByCount || s.pending.Some?
    case Points(points) =>
      if s.pending.Some? then |Pending(s)| + |points| > s.pending.value.marker.count else s.mode == FrameByCount
    case Ping(wellFormed, answered) => !wellFormed || !answered
    case Close => true
    case Malformed => true
    case _ => false
  }

  /** A session ends at the first record it refuses, which changes nothing, and none is handled after it. */
  lemma {:induction false} EndsAtFirstRefusal(l: Limits, s: Session, rs: seq<Record>) returns (n: nat)
    requires ValidLimits(l) && SessionInv(l, s)
    ensures n <= |rs| && Run(l, s, rs[..n]).ok
    ensures n < |rs| ==> Refused(l, Run(l, s, rs[..n]).session, rs[n])
    ensures n == |rs| <==> Run(l, s, rs).ok
    ensures Run(l, s, rs).calls == Run(l, s, rs[..n]).calls && Run(l, s, rs).session == Run(l, s, rs[..n]).session
  {
    if rs == [] {
      n := 0;
    } else {
      var front, x := rs[..|rs| - 1], rs[|rs| - 1];
      n := EndsAtFirstRefusal(l, s, front);
      RunKeepsInv(l, s, front);
      RefusalIsExact(l, Run(l, s, front).session, x);
      HandleKeepsInv(l, Run(l, s, front).session, x);
      assert front[..n] == rs[..n];
      if Run(l, s, front).ok {
        assert front[..|front|] == front;
        if Handle(l, Run(l, s, front).session, x).ok {
          n := |rs|;
          assert rs[..n] == rs;
        }
      }
    }
  }

  lemma RefusalIsExact(l: Limits, s: Session, r: Record)
    requires ValidLimits(l) && SessionInv(l, s)
    ensures Handle(l, s, r).ok <==> !Refused(l, s, r)
  {}
}
