/** One Libera-protocol session: its state, its record handlers, and counted-frame assembly across records. */
module LiberaSession {
  import opened Points

  const DEFAULT_POINT_RATE := 30000

  datatype StreamMode = RawPointStream | FrameByCount | MarkedPointStream | OtherMode

  datatype Limits = Limits(minPointRate: nat, maxPointRate: nat, maxFramePoints: nat, maxUserChannels: nat)

  predicate ValidLimits(l: Limits) {
    1 <= l.minPointRate <= l.maxPointRate
  }

  /** The limits in force: the host's own options, whose minimum is positive, narrowed by what the target can do. */
  function EffectiveLimits(targetMax: nat, optionMin: nat, optionMax: nat, maxFrame: nat, maxChannels: nat):
    (l: Limits)
    requires 1 <= optionMin
    ensures ValidLimits(l) && l.minPointRate <= optionMin
  {
    var hi := Max(1, Min(if targetMax > 0 then targetMax else optionMax, optionMax));
    Limits(Min(optionMin, hi), hi, maxFrame, maxChannels)
  }

  datatype Hello = Hello(mode: StreamMode, channels: nat, defaultPointRate: nat)

  datatype Marker = Marker(count: nat, pointRate: nat, beginTimeNs: nat)

  datatype PendingFrame = PendingFrame(marker: Marker, points: seq<LaserPoint>)

  datatype Session = Session(mode: StreamMode, channels: nat, rate: nat, pending: Option<PendingFrame>)

  /** Decoded records. Malformed stands for any payload the codec refuses, whatever the record type. */
  datatype Record =
    | StreamConfig(mode: StreamMode, channels: nat, defaultPointRate: nat)
    | SetScannerSync(offsetNs: int, enabled: bool)
    | FrameMarker(marker: Marker)
    | Points(points: seq<LaserPoint>)
    | Ping(wellFormed: bool, answered: bool)
    | Close
    | Unknown
    | Malformed

  datatype SinkCall =
    | SubmitContinuous(points: seq<LaserPoint>, rate: nat)
    | SubmitFrame(points: seq<LaserPoint>, rate: nat, beginTimeNs: nat)
    | ScannerSync(offsetNs: int, enabled: bool)

  /** `ok` is false where the session must end. */
  datatype Handled = Handled(ok: bool, session: Session, calls: seq<SinkCall>)

  function AcceptedMode(requested: StreamMode): StreamMode {
    if requested == FrameByCount || requested == MarkedPointStream then FrameByCount else RawPointStream
  }

  function ClampRate(l: Limits, rate: nat): (r: nat)
    requires ValidLimits(l)
    ensures l.minPointRate <= r <= l.maxPointRate
  {
    Clamp(rate, l.minPointRate, l.maxPointRate)
  }

  function Opened(l: Limits, hello: Hello): Session
    requires ValidLimits(l)
  {
    Session(AcceptedMode(hello.mode), Min(l.maxUserChannels, hello.channels),
            ClampRate(l, if hello.defaultPointRate == 0 then DEFAULT_POINT_RATE else hello.defaultPointRate), None)
  }

  function RateOr(l: Limits, requested: nat, current: nat): nat
    requires ValidLimits(l)
  {
    if requested != 0 then ClampRate(l, requested) else current
  }

  function HandleMarker(l: Limits, s: Session, marker: Marker): Handled
    requires ValidLimits(l)
  {
    if marker.count == 0 || marker.count > l.maxFramePoints || s.mode != FrameByCount || s.pending.Some? then
      Handled(false, s, [])
    else
      Handled(true, s.(pending := Some(PendingFrame(marker, [])), rate := RateOr(l, marker.pointRate, s.rate)), [])
  }

  function HandlePoints(l: Limits, s: Session, points: seq<LaserPoint>): Handled
    requires ValidLimits(l)
  {
    match s.pending
    case Some(frame) =>
      var expected := frame.marker.count;
      var gathered := frame.points + points;
      if expected == 0 || |gathered| > expected then Handled(false, s, [])
      else if |gathered| < expected then Handled(true, s.(pending := Some(frame.(points := gathered))), [])
      else
        Handled(true, s.(pending := None),
                [SubmitFrame(gathered, RateOr(l, frame.marker.pointRate, s.rate), frame.marker.beginTimeNs)])
    case None =>
      if s.mode == FrameByCount then Handled(false, s, [])
      else Handled(true, s, if points == [] then [] else [SubmitContinuous(points, s.rate)])
  }

  function Handle(l: Limits, s: Session, r: Record): Handled
    requires ValidLimits(l)
  {
    match r
    case StreamConfig(mode, channels, rate) =>
      Handled(true, Session(AcceptedMode(mode), Min(l.maxUserChannels, channels), RateOr(l, rate, s.rate), None), [])
    case SetScannerSync(offset, enabled) => Handled(true, s, [ScannerSync(offset, enabled)])
    case FrameMarker(marker) => HandleMarker(l, s, marker)
    case Points(points) => HandlePoints(l, s, points)
    case Ping(wellFormed, answered) => Handled(wellFormed && answered, s, [])
    case Close => Handled(false, s, [])
    case Unknown => Handled(true, s, [])
    case Malformed => Handled(false, s, [])
  }

  /** The same handlers on the session object that they update in place; `calls` are those made to the sink. */
  class SessionState {
    const limits: Limits
    var streamMode: StreamMode
    var userChannelCount: nat
    var pointRate: nat
    var pendingFrame: Option<PendingFrame>
    var calls: seq<SinkCall>

    ghost function State(): Session
      reads this
    {
      Session(streamMode, userChannelCount, pointRate, pendingFrame)
    }

    constructor (limits: Limits, hello: Hello)
      requires ValidLimits(limits)
      ensures this.limits == limits && State() == Opened(limits, hello) && calls == []
    {
      this.limits := limits;
      streamMode := AcceptedMode(hello.mode);
      userChannelCount := Min(limits.maxUserChannels, hello.channels);
      pointRate := ClampRate(limits, if hello.defaultPointRate == 0 then DEFAULT_POINT_RATE else hello.defaultPointRate);
      pendingFrame := None;
      calls := [];
    }

    method HandleFrameMarker(marker: Marker) returns (ok: bool)
      requires ValidLimits(limits)
      modifies this`pendingFrame, this`pointRate
      ensures Handled(ok, State(), []) == HandleMarker(limits, old(State()), marker)
    {
      if marker.count == 0 || marker.count > limits.maxFramePoints {
        return false;
      }
      if streamMode != FrameByCount || pendingFrame.Some? {
        return false;
      }
      pendingFrame := Some(PendingFrame(marker, []));
      if marker.pointRate != 0 {
        pointRate := ClampRate(limits, marker.pointRate);
      }
      ok := true;
    }

    method SubmitPendingFrame()
      requires ValidLimits(limits) && pendingFrame.Some?
      modifies this`pendingFrame, this`calls
      ensures pendingFrame.None?
      ensures var frame := old(pendingFrame).value;
        calls == old(calls) + if frame.points == [] then []
                              else [SubmitFrame(frame.points, RateOr(limits, frame.marker.pointRate, pointRate),
                                                frame.marker.beginTimeNs)]
    {
      var frame := pendingFrame.value;
      pendingFrame := None;
      if frame.points == [] {
        return;
      }
      var rate := if frame.marker.pointRate != 0 then ClampRate(limits, frame.marker.pointRate) else pointRate;
      calls := calls + [SubmitFrame(frame.points, rate, frame.marker.beginTimeNs)];
    }

    method HandlePointsRecord(points: seq<LaserPoint>) returns (ok: bool)
      requires ValidLimits(limits)
      modifies this`pendingFrame, this`calls
      ensures var h := HandlePoints(limits, old(State()), points);
        ok == h.ok && State() == h.session && calls == old(calls) + h.calls
    {
      if pendingFrame.Some? {
        var frame := pendingFrame.value;
        var expected := frame.marker.count;
        if expected == 0 || |frame.points| > expected || |points| > expected - |frame.points| {
          return false;
        }
        pendingFrame := Some(frame.(points := frame.points + points));
        if |frame.points + points| == expected {
          SubmitPendingFrame();
        }
        return true;
      }
      if streamMode == FrameByCount {
        return false;
      }
      if points != [] {
        calls := calls + [SubmitContinuous(points, pointRate)];
      }
      ok := true;
    }

    method HandleRecord(r: Record) returns (ok: bool)
      requires ValidLimits(limits)
      modifies this
      ensures var h := Handle(limits, old(State()), r);
        ok == h.ok && State() == h.session && calls == old(calls) + h.calls
    {
      match r
      case StreamConfig(mode, channels, rate) =>
        streamMode := AcceptedMode(mode);
        userChannelCount := Min(limits.maxUserChannels, channels);
        if rate != 0 {
          pointRate := ClampRate(limits, rate);
        }
        pendingFrame := None;
        ok := true;
      case SetScannerSync(offset, enabled) =>
        calls := calls + [ScannerSync(offset, enabled)];
        ok := true;
      case FrameMarker(marker) => ok := HandleFrameMarker(marker);
      case Points(points) => ok := HandlePointsRecord(points);
      case Ping(wellFormed, answered) => ok := wellFormed && answered;
      case Close => ok := false;
      case Unknown => ok := true;
      case Malformed => ok := false;
    }
  }

  // --- whole sessions ---

  /** Records are handled in order until one ends the session. */
  function Run(l: Limits, s: Session, rs: seq<Record>): Handled
    requires ValidLimits(l)
  {
    if rs == [] then Handled(true, s, [])
    else
      var before := Run(l, s, rs[..|rs| - 1]);
      if !before.ok then before
      else
        var h := Handle(l, before.session, rs[|rs| - 1]);
        Handled(h.ok, h.session, before.calls + h.calls)
  }

  predicate SessionInv(l: Limits, s: Session)
    requires ValidLimits(l)
  {
    && l.minPointRate <= s.rate <= l.maxPointRate
    && s.channels <= l.maxUserChannels
    && (s.mode == FrameByCount || s.mode == RawPointStream)
    && (s.pending.Some? ==>
          && s.mode == FrameByCount
          && |s.pending.value.points| < s.pending.value.marker.count <= l.maxFramePoints)
  }

  lemma HandleKeepsInv(l: Limits, s: Session, r: Record)
    requires ValidLimits(l) && SessionInv(l, s)
    ensures SessionInv(l, Handle(l, s, r).session)
    ensures |Handle(l, s, r).calls| <= 1
    ensures !Handle(l, s, r).ok ==> Handle(l, s, r).session == s && Handle(l, s, r).calls == []
  {}

  /** A pending frame is always in counted mode and short of its count; the rate stays within the limits. */
  lemma {:induction false} RunKeepsInv(l: Limits, s: Session, rs: seq<Record>)
    requires ValidLimits(l) && SessionInv(l, s)
    ensures SessionInv(l, Run(l, s, rs).session)
  {
    if rs != [] {
      RunKeepsInv(l, s, rs[..|rs| - 1]);
      HandleKeepsInv(l, Run(l, s, rs[..|rs| - 1]).session, rs[|rs| - 1]);
    }
  }

  function PointsIn(rs: seq<Record>): seq<LaserPoint> {
    if rs == [] then []
    else PointsIn(rs[..|rs| - 1]) + if rs[|rs| - 1].Points? then rs[|rs| - 1].points else []
  }

  predicate NoBreak(rs: seq<Record>) {
    forall k :: 0 <= k < |rs| ==> !rs[k].StreamConfig? && !rs[k].FrameMarker?
  }

  /** `points` is the frame announced by record `m` of `rs` and completed by its last record. */
  predicate AssembledAt(rs: seq<Record>, m: nat, points: seq<LaserPoint>, beginTimeNs: nat) {
    && m + 1 < |rs| && rs[m].FrameMarker? && rs[|rs| - 1].Points?
    && NoBreak(rs[m + 1..])
    && points == PointsIn(rs[m + 1..]) && |points| == rs[m].marker.count
    && beginTimeNs == rs[m].marker.beginTimeNs
  }

  lemma NoBreakGrows(rs: seq<Record>, m: nat)
    requires m < |rs| - 1 && NoBreak(rs[..|rs| - 1][m + 1..])
    requires !rs[|rs| - 1].StreamConfig? && !rs[|rs| - 1].FrameMarker?
    ensures NoBreak(rs[m + 1..])
    ensures PointsIn(rs[m + 1..])
         == PointsIn(rs[..|rs| - 1][m + 1..]) + if rs[|rs| - 1].Points? then rs[|rs| - 1].points else []
  {
    var tail := rs[m + 1..];
    assert tail[..|tail| - 1] == rs[..|rs| - 1][m + 1..];
    assert forall k :: 0 <= k < |tail| - 1 ==> tail[k] == rs[..|rs| - 1][m + 1..][k];
  }

  /** The frame being assembled holds exactly the points received since its marker. */
  lemma {:induction false} PendingSinceMarker(l: Limits, s: Session, rs: seq<Record>) returns (m: nat)
    requires ValidLimits(l) && s.pending.None?
    requires Run(l, s, rs).ok && Run(l, s, rs).session.pending.Some?
    ensures m < |rs| && rs[m] == FrameMarker(Run(l, s, rs).session.pending.value.marker)
    ensures NoBreak(rs[m + 1..])
    ensures Run(l, s, rs).session.pending.value.points == PointsIn(rs[m + 1..])
  {
    var n := |rs| - 1;
    var before := Run(l, s, rs[..n]);
    if rs[n].FrameMarker? {
      m := n;
      assert rs[n + 1..] == [];
    } else {
      m := PendingSinceMarker(l, s, rs[..n]);
      NoBreakGrows(rs, m);
    }
  }

  /** Where a delivered frame came from: the marker and the record that completed it. */
  lemma {:induction false} FrameOrigin(l: Limits, s: Session, rs: seq<Record>, k: nat) returns (m: nat, e: nat)
    requires ValidLimits(l) && SessionInv(l, s) && s.pending.None?
    requires k < |Run(l, s, rs).calls| && Run(l, s, rs).calls[k].SubmitFrame?
    ensures e < |rs|
    ensures var call := Run(l, s, rs).calls[k];
      AssembledAt(rs[..e + 1], m, call.points, call.beginTimeNs)
      && l.minPointRate <= call.rate <= l.maxPointRate
  {
    var n := |rs| - 1;
    var before := Run(l, s, rs[..n]);
    RunKeepsInv(l, s, rs[..n]);
    if !before.ok || k < |before.calls| {
      m, e := FrameOrigin(l, s, rs[..n], k);
      assert rs[..n][..e + 1] == rs[..e + 1];
    } else {
      HandleKeepsInv(l, before.session, rs[n]);
      m := PendingSinceMarker(l, s, rs[..n]);
      e := n;
      assert rs[..n + 1] == rs;
      NoBreakGrows(rs, m);
    }
  }

  // --- the other direction: a counted frame arrives whole, however it is split ---

  /** Records that may come while a frame is assembled: its points, and records that leave it alone. */
  predicate Harmless(rs: seq<Record>) {
    forall k :: 0 <= k < |rs| ==>
      rs[k].Points? || rs[k].SetScannerSync? || rs[k].Unknown? || rs[k] == Ping(true, true)
  }

  function FramesOf(calls: seq<SinkCall>): seq<SinkCall> {
    if calls == [] then []
    else FramesOf(calls[..|calls| - 1])
         + if calls[|calls| - 1].SubmitFrame? then [calls[|calls| - 1]] else []
  }

  lemma FramesOfOneMore(calls: seq<SinkCall>, more: seq<SinkCall>)
    requires |more| <= 1
    ensures FramesOf(calls + more) == FramesOf(calls) + FramesOf(more)
  {
    if more == [] {
      assert calls + more == calls;
    } else {
      assert (calls + more)[..|calls + more| - 1] == calls && more[..0] == [];
    }
  }

  /** Some prefix of the records carries exactly `count` points. */
  ghost predicate Reaches(rs: seq<Record>, count: nat) {
    exists k :: 0 <= k <= |rs| && |PointsIn(rs[..k])| == count
  }

  lemma {:induction false} PrefixesGrow(rs: seq<Record>, j: nat, k: nat)
    requires j <= k <= |rs|
    ensures PointsIn(rs[..j]) <= PointsIn(rs[..k])
    decreases k
  {
    if j < k {
      PrefixesGrow(rs, j, k - 1);
      assert rs[..k][..k - 1] == rs[..k - 1];
    }
  }

  function Leading(points: seq<LaserPoint>, n: nat): seq<LaserPoint> {
    points[..Min(|points|, n)]
  }

  /** What a session that has just opened a frame does with the records that follow. */
  ghost predicate Assembles(l: Limits, start: Session, marker: Marker, body: seq<Record>)
    requires ValidLimits(l)
  {
    var r := Run(l, start, body);
    var got := PointsIn(body);
    if |got| < marker.count then
      r.ok && r.session == start.(pending := Some(PendingFrame(marker, got))) && FramesOf(r.calls) == []
    else if Reaches(body, marker.count) then
      && r.session == start.(pending := None)
      && FramesOf(r.calls)
         == [SubmitFrame(Leading(got, marker.count), RateOr(l, marker.pointRate, start.rate), marker.beginTimeNs)]
    else
      !r.ok && FramesOf(r.calls) == []
  }

  lemma ReachesOneMore(body: seq<Record>, count: nat)
    requires body != []
    ensures Reaches(body, count) <==> Reaches(body[..|body| - 1], count) || |PointsIn(body)| == count
  {
    assert body[..|body|] == body;
    if Reaches(body, count) {
      var k :| 0 <= k <= |body| && |PointsIn(body[..k])| == count;
      if k < |body| { ReachesBefore(body, k, count); }
    }
    if Reaches(body[..|body| - 1], count) {
      ReachesStill(body, count);
    }
  }

  lemma ReachesBefore(body: seq<Record>, k: nat, count: nat)
    requires k < |body| && |PointsIn(body[..k])| == count
    ensures Reaches(body[..|body| - 1], count)
  {
    var front := body[..|body| - 1];
    assert front[..k] == body[..k];
  }

  lemma ReachesStill(body: seq<Record>, count: nat)
    requires body != [] && Reaches(body[..|body| - 1], count)
    ensures Reaches(body, count)
  {
    var front := body[..|body| - 1];
    var k :| 0 <= k <= |front| && |PointsIn(front[..k])| == count;
    assert front[..k] == body[..k];
  }

  lemma ReachesWithin(body: seq<Record>, count: nat)
    requires Reaches(body, count)
    ensures |PointsIn(body)| >= count
  {
    var k :| 0 <= k <= |body| && |PointsIn(body[..k])| == count;
    PrefixesGrow(body, k, |body|);
    assert body[..|body|] == body;
  }

  lemma RunOneMore(l: Limits, s: Session, front: seq<Record>, x: Record)
    requires ValidLimits(l)
    ensures var before := Run(l, s, front); var h := Handle(l, before.session, x);
      && Run(l, s, front + [x]) == (if !before.ok then before
                                    else Handled(h.ok, h.session, before.calls + h.calls))
      && (before.ok ==> FramesOf(Run(l, s, front + [x]).calls) == FramesOf(before.calls) + FramesOf(h.calls))
      && PointsIn(front + [x]) == PointsIn(front) + (if x.Points? then x.points else [])
  {
    var all := front + [x];
    assert all[..|all| - 1] == front && all[|all| - 1] == x;
    HandledOnce(l, Run(l, s, front).session, x);
    FramesOfOneMore(Run(l, s, front).calls, Handle(l, Run(l, s, front).session, x).calls);
  }

  /** One harmless record while a frame is being assembled. */
  lemma HandleWhilePending(l: Limits, s: Session, marker: Marker, got: seq<LaserPoint>, x: Record)
    requires ValidLimits(l) && |got| < marker.count && Harmless([x])
    requires s.pending == Some(PendingFrame(marker, got))
    ensures var h := Handle(l, s, x); var all := got + if x.Points? then x.points else [];
      && (|all| < marker.count ==>
            h.ok && h.session == s.(pending := Some(PendingFrame(marker, all))) && FramesOf(h.calls) == [])
      && (|all| == marker.count ==>
            && h.session == s.(pending := None)
            && FramesOf(h.calls) == [SubmitFrame(all, RateOr(l, marker.pointRate, s.rate), marker.beginTimeNs)])
      && (|all| > marker.count ==> !h.ok && FramesOf(h.calls) == [])
  {
    assert x == [x][0];
    assert got + [] == got;
    HandledOnce(l, s, x);
  }

  /** The frame is still short: the next record may extend, complete or overfill it. */
  lemma ShortFrameStep(l: Limits, start: Session, marker: Marker, front: seq<Record>, x: Record)
    requires ValidLimits(l) && marker.count > 0 && start.mode == FrameByCount && Harmless([x])
    requires Assembles(l, start, marker, front) && |PointsIn(front)| < marker.count
    ensures Assembles(l, start, marker, front + [x])
  {
    var body := front + [x];
    assert body[..|body| - 1] == front;
    RunOneMore(l, start, front, x);
    HandleWhilePending(l, Run(l, start, front).session, marker, PointsIn(front), x);
    ReachesOneMore(body, marker.count);
    if Reaches(front, marker.count) { ReachesWithin(front, marker.count); }
    assert |PointsIn(body)| == marker.count ==> Leading(PointsIn(body), marker.count) == PointsIn(body);
  }

  lemma NothingAfterFrame(l: Limits, s: Session, x: Record)
    requires ValidLimits(l) && s.mode == FrameByCount && s.pending.None? && Harmless([x])
    ensures Handle(l, s, x).session == s && FramesOf(Handle(l, s, x).calls) == []
  {
    assert x == [x][0];
    HandledOnce(l, s, x);
  }

  /** The frame is already delivered, or the session already over: nothing more comes out. */
  lemma SettledFrameStep(l: Limits, start: Session, marker: Marker, front: seq<Record>, x: Record)
    requires ValidLimits(l) && marker.count > 0 && start.mode == FrameByCount && Harmless([x])
    requires Assembles(l, start, marker, front) && |PointsIn(front)| >= marker.count
    ensures Assembles(l, start, marker, front + [x])
  {
    var body := front + [x];
    assert body[..|body| - 1] == front && front[..|front|] == front;
    RunOneMore(l, start, front, x);
    ReachesOneMore(body, marker.count);
    assert Reaches(front, marker.count) <== |PointsIn(front[..|front|])| == marker.count;
    if Reaches(front, marker.count) {
      NothingAfterFrame(l, Run(l, start, front).session, x);
      assert Leading(PointsIn(body), marker.count) == Leading(PointsIn(front), marker.count);
    }
  }

  lemma {:induction false} AssemblyOutcome(l: Limits, start: Session, marker: Marker, body: seq<Record>)
    requires ValidLimits(l) && marker.count > 0 && start.mode == FrameByCount && Harmless(body)
    requires start.pending == Some(PendingFrame(marker, []))
    ensures Assembles(l, start, marker, body)
  {
    if body != [] {
      var n := |body| - 1;
      AssemblyOutcome(l, start, marker, body[..n]);
      assert body == body[..n] + [body[n]];
      if |PointsIn(body[..n])| < marker.count {
        ShortFrameStep(l, start, marker, body[..n], body[n]);
      } else {
        SettledFrameStep(l, start, marker, body[..n], body[n]);
      }
    }
  }

  lemma HandledOnce(l: Limits, s: Session, r: Record)
    requires ValidLimits(l)
    ensures var calls := Handle(l, s, r).calls;
      |calls| <= 1 && FramesOf(calls) == if calls != [] && calls[0].SubmitFrame? then calls else []
  {
    var calls := Handle(l, s, r).calls;
    if calls != [] { assert calls[..0] == [] && calls == [calls[0]]; }
  }

  lemma {:induction false} RunAfterFirst(l: Limits, s: Session, first: Record, rest: seq<Record>)
    requires ValidLimits(l) && Handle(l, s, first).ok && Handle(l, s, first).calls == []
    ensures Run(l, s, [first] + rest) == Run(l, Handle(l, s, first).session, rest)
  {
    var all := [first] + rest;
    if rest == [] {
      assert all[..0] == [];
    } else {
      assert all[..|all| - 1] == [first] + rest[..|rest| - 1];
      RunAfterFirst(l, s, first, rest[..|rest| - 1]);
    }
  }

  /**
   * A counted frame arrives whole or not at all, however its points are split over records and whatever
   * harmless records come between: it is delivered exactly when some record completes its count.
   */
  lemma CountedFrameArrives(l: Limits, s: Session, marker: Marker, body: seq<Record>)
    requires ValidLimits(l) && s.mode == FrameByCount && s.pending.None?
    requires 0 < marker.count <= l.maxFramePoints && Harmless(body)
    ensures FramesOf(Run(l, s, [FrameMarker(marker)] + body).calls)
         == if Reaches(body, marker.count)
            then [SubmitFrame(Leading(PointsIn(body), marker.count), RateOr(l, marker.pointRate, s.rate),
                              marker.beginTimeNs)]
            else []
  {
    RunAfterFirst(l, s, FrameMarker(marker), body);
    var start := HandleMarker(l, s, marker).session;
    AssemblyOutcome(l, start, marker, body);
    if Reaches(body, marker.count) { ReachesWithin(body, marker.count); }
    assert RateOr(l, marker.pointRate, start.rate) == RateOr(l, marker.pointRate, s.rate);
  }
}
