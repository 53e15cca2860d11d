/** Saving and loading the AVB settings: exactly which settings survive, and what happens to the others. */
module AvbRoundTrip {
  import opened Points
  import opened AvbSettings

  predicate PlainId(id: string) {
    id != [] && NEWLINE !in id
  }

  /** Settings that a saved file can carry. */
  predicate Savable(s: Settings) {
    && (forall k :: 0 <= k < |s.devices| ==> PlainId(s.devices[k].uid) && 1 <= s.devices[k].rate <= MAX_RATE)
    && (forall k :: 0 <= k < |s.halfXY| ==> PlainId(s.halfXY[k]))
  }

  // --- quoting ---

  lemma {:induction false} QuotedReadsBack(text: string, rest: string)
    ensures ReadQuotedBody(Escaped(text) + [QUOTE] + rest) == Some((text, rest))
  {
    var all := Escaped(text) + [QUOTE] + rest;
    if text == [] {
      assert all == [QUOTE] + rest && all[1..] == rest;
    } else {
      QuotedReadsBack(text[1..], rest);
      var tail := Escaped(text[1..]) + [QUOTE] + rest;
      if text[0] == QUOTE || text[0] == ESCAPE {
        assert all == [ESCAPE, text[0]] + tail;
        assert all[0] == ESCAPE && all[1] == text[0] && all[2..] == tail;
      } else {
        assert all == [text[0]] + tail;
        assert all[0] == text[0] && all[1..] == tail;
      }
      assert [text[0]] + text[1..] == text;
    }
  }

  lemma {:induction false} UnterminatedFails(text: string)
    ensures ReadQuotedBody(Escaped(text)) == None
  {
    if text != [] {
      UnterminatedFails(text[1..]);
      var all, tail := Escaped(text), Escaped(text[1..]);
      if text[0] == QUOTE || text[0] == ESCAPE {
        assert all == [ESCAPE, text[0]] + tail && all[2..] == tail;
      } else {
        assert all == [text[0]] + tail && all[1..] == tail;
      }
    }
  }

  // --- numbers and words ---

  lemma {:induction false} DigitRunOf(digits: string, rest: string)
    requires forall k :: 0 <= k < |digits| ==> IsDigit(digits[k])
    requires rest == [] || !IsDigit(rest[0])
    ensures DigitRun(digits + rest) == |digits|
  {
    if digits == [] {
      assert digits + rest == rest;
    } else {
      assert (digits + rest)[1..] == digits[1..] + rest;
      DigitRunOf(digits[1..], rest);
    }
  }

  lemma {:induction false} DecimalReadsBack(n: nat)
    ensures ValueOf(Decimal(n)) == n
  {
    if n < 10 {
      assert [Digit(n)][..0] == [];
    } else {
      DecimalReadsBack(n / 10);
      var all := Decimal(n / 10) + [Digit(n % 10)];
      assert all[..|all| - 1] == Decimal(n / 10);
    }
  }

  lemma NumberReadsBack(n: nat)
    ensures ReadNumber([' '] + Decimal(n)) == Some((n, []))
  {
    var s := [' '] + Decimal(n);
    assert s[1..] == Decimal(n);
    assert IsDigit(Decimal(n)[0]);
    assert SkipSpace(s) == Decimal(n);
    DigitRunOf(Decimal(n), []);
    assert Decimal(n) + [] == Decimal(n);
    DecimalReadsBack(n);
    assert Decimal(n)[..|Decimal(n)|] == Decimal(n) && Decimal(n)[|Decimal(n)|..] == [];
  }

  lemma {:induction false} WordLengthOf(word: string, rest: string)
    requires forall k :: 0 <= k < |word| ==> !IsSpace(word[k])
    ensures WordLength(word + [' '] + rest) == |word|
  {
    if word == [] {
      assert word + [' '] + rest == [' '] + rest;
    } else {
      assert (word + [' '] + rest)[1..] == word[1..] + [' '] + rest;
      WordLengthOf(word[1..], rest);
    }
  }

  /** A line that begins with a keyword and a quoted text. */
  lemma KeywordLine(word: string, id: string, rest: string)
    requires word != [] && word[0] != '#' && forall k :: 0 <= k < |word| ==> !IsSpace(word[k])
    ensures ParseLine(word + [' '] + Quoted(id) + rest) == ParseFields(word, id, rest)
  {
    var line := word + [' '] + Quoted(id) + rest;
    var after := Quoted(id) + rest;
    assert line == word + [' '] + after;
    WordLengthOf(word, after);
    assert line[..|word|] == word && line[|word|..] == [' '] + after;
    assert SkipSpace(line) == line;
    QuotedLine(id, rest);
  }

  lemma QuotedLine(id: string, rest: string)
    ensures ReadQuoted([' '] + (Quoted(id) + rest)) == Some((id, rest))
  {
    var after := Quoted(id) + rest;
    assert ([' '] + after)[1..] == after && after[0] == QUOTE;
    assert SkipSpace([' '] + after) == SkipSpace(after) == after;
    assert after[1..] == Escaped(id) + [QUOTE] + rest;
    QuotedReadsBack(id, rest);
  }

  lemma UnterminatedLine(word: string, text: string)
    requires word != [] && word[0] != '#' && forall k :: 0 <= k < |word| ==> !IsSpace(word[k])
    ensures ParseLine(word + [' '] + [QUOTE] + Escaped(text)) == BadLine
  {
    var after := [QUOTE] + Escaped(text);
    var line := word + [' '] + [QUOTE] + Escaped(text);
    assert line == word + [' '] + after;
    WordLengthOf(word, after);
    assert line[|word|..] == [' '] + after && SkipSpace(line) == line;
    assert ([' '] + after)[1..] == after && after[0] == QUOTE && after[1..] == Escaped(text);
    assert SkipSpace([' '] + after) == SkipSpace(after) == after;
    UnterminatedFails(text);
  }

  lemma DeviceRecordReads(d: DeviceConfig)
    ensures ParseLine(DeviceRecord(d))
         == if d.uid != [] && 1 <= d.rate <= MAX_RATE then DeviceLine(d) else BadLine
  {
    var rest := [' '] + Decimal(d.rate);
    assert DeviceRecord(d) == "device" + [' '] + Quoted(d.uid) + rest;
    KeywordLine("device", d.uid, rest);
    NumberReadsBack(d.rate);
  }

  lemma HalfXYRecordReads(id: string)
    ensures ParseLine(HalfXYRecord(id)) == if id != [] then HalfXYLine(id) else BadLine
  {
    assert HalfXYRecord(id) == "half-xy" + [' '] + Quoted(id) + [];
    KeywordLine("half-xy", id, []);
  }

  // --- lines ---

  function DeviceRecords(devices: seq<DeviceConfig>): (r: seq<string>)
    ensures |r| == |devices| && forall k :: 0 <= k < |r| ==> r[k] == DeviceRecord(devices[k])
  {
    if devices == [] then [] else DeviceRecords(devices[..|devices| - 1]) + [DeviceRecord(devices[|devices| - 1])]
  }

  function HalfXYRecords(ids: seq<string>): (r: seq<string>)
    ensures |r| == |ids| && forall k :: 0 <= k < |r| ==> r[k] == HalfXYRecord(ids[k])
  {
    if ids == [] then [] else HalfXYRecords(ids[..|ids| - 1]) + [HalfXYRecord(ids[|ids| - 1])]
  }

  /** The records of a file, the header first. */
  function Records(s: Settings): seq<string> {
    [Header()] + DeviceRecords(s.devices) + HalfXYRecords(s.halfXY)
  }

  /** Every record followed by a newline. */
  function Joined(records: seq<string>): string {
    if records == [] then [] else Joined(records[..|records| - 1]) + records[|records| - 1] + [NEWLINE]
  }

  lemma {:induction false} DevicesAreJoined(devices: seq<DeviceConfig>)
    ensures DevicesText(devices) == Joined(DeviceRecords(devices))
  {
    if devices != [] {
      var n := |devices| - 1;
      DevicesAreJoined(devices[..n]);
      assert DeviceRecords(devices)[..n] == DeviceRecords(devices[..n]);
    }
  }

  lemma {:induction false} HalfXYsAreJoined(ids: seq<string>)
    ensures HalfXYText(ids) == Joined(HalfXYRecords(ids))
  {
    if ids != [] {
      var n := |ids| - 1;
      HalfXYsAreJoined(ids[..n]);
      assert HalfXYRecords(ids)[..n] == HalfXYRecords(ids[..n]);
    }
  }

  lemma PrintedIsJoined(s: Settings)
    ensures Printed(s) == Joined(Records(s))
  {
    DevicesAreJoined(s.devices);
    HalfXYsAreJoined(s.halfXY);
    JoinedSplits([Header()] + DeviceRecords(s.devices), HalfXYRecords(s.halfXY));
    JoinedHead(Header(), DeviceRecords(s.devices));
  }

  lemma {:induction false} LineLengthOf(line: string, rest: string)
    requires NEWLINE !in line
    ensures LineLength(line + [NEWLINE] + rest) == |line|
  {
    if line == [] {
      assert line + [NEWLINE] + rest == [NEWLINE] + rest;
    } else {
      assert (line + [NEWLINE] + rest)[1..] == line[1..] + [NEWLINE] + rest;
      LineLengthOf(line[1..], rest);
    }
  }

  lemma FirstLine(line: string, rest: string)
    requires NEWLINE !in line
    ensures Lines(line + [NEWLINE] + rest) == [line] + Lines(rest)
  {
    var t := line + [NEWLINE] + rest;
    LineLengthOf(line, rest);
    assert t[..|line|] == line && t[|line| + 1..] == rest;
  }

  lemma Regroup(a: string, b: string, c: string, d: string)
    ensures (a + b + c) + d == a + (b + c + d)
  {}

  lemma JoinedOneMore(front: seq<string>, last: string, rest: string)
    ensures Joined(front + [last]) + rest == Joined(front) + (last + [NEWLINE] + rest)
  {
    assert (front + [last])[..|front|] == front;
    Regroup(Joined(front), last, [NEWLINE], rest);
  }

  lemma SplitAround(lines: seq<string>, k: nat)
    requires k < |lines|
    ensures lines == (lines[..k] + [lines[k]]) + lines[k + 1..]
    ensures lines == lines[..k] + ([lines[k]] + lines[k + 1..])
  {}

  lemma LinesStep(front: seq<string>, last: string, rest: string)
    requires NEWLINE !in last
    ensures front + Lines(last + [NEWLINE] + rest) == (front + [last]) + Lines(rest)
  {
    FirstLine(last, rest);
  }

  lemma {:induction false} LinesOfJoined(records: seq<string>, rest: string)
    requires forall k :: 0 <= k < |records| ==> NEWLINE !in records[k]
    ensures Lines(Joined(records) + rest) == records + Lines(rest)
  {
    if records == [] {
      assert Joined(records) + rest == rest;
    } else {
      var n := |records| - 1;
      var front, last := records[..n], records[n];
      assert records == front + [last];
      JoinedOneMore(front, last, rest);
      LinesOfJoined(front, last + [NEWLINE] + rest);
      LinesStep(front, last, rest);
    }
  }

  lemma {:induction false} JoinedSplits(a: seq<string>, b: seq<string>)
    ensures Joined(a + b) == Joined(a) + Joined(b)
  {
    if b == [] {
      assert a + b == a;
    } else {
      assert (a + b)[..|a + b| - 1] == a + b[..|b| - 1];
      JoinedSplits(a, b[..|b| - 1]);
    }
  }

  // --- newlines inside printed records ---

  lemma {:induction false} EscapedHasNewline(s: string)
    ensures NEWLINE in Escaped(s) <==> NEWLINE in s
  {
    if s != [] { EscapedHasNewline(s[1..]); }
  }

  lemma {:induction false} EscapedSplits(a: string, b: string)
    ensures Escaped(a + b) == Escaped(a) + Escaped(b)
  {
    if a == [] {
      assert a + b == b;
    } else {
      assert (a + b)[1..] == a[1..] + b;
      EscapedSplits(a[1..], b);
    }
  }

  lemma EscapedNewline(rest: string)
    ensures Escaped([NEWLINE] + rest) == [NEWLINE] + Escaped(rest)
  {
    assert ([NEWLINE] + rest)[1..] == rest;
  }

  lemma SplitAtNewline(id: string) returns (before: string, after: string)
    requires NEWLINE in id
    ensures NEWLINE !in before && id == before + ([NEWLINE] + after)
  {
    var n := LineLength(id);
    assert id[..|id|] == id;
    before, after := id[..n], id[n + 1..];
  }

  /** The first newline of an id survives escaping where it stands. */
  lemma EscapedAround(id: string) returns (before: string, after: string)
    requires NEWLINE in id
    ensures NEWLINE !in before && Escaped(id) == Escaped(before) + [NEWLINE] + Escaped(after)
  {
    before, after := SplitAtNewline(id);
    EscapedSplits(before, [NEWLINE] + after);
    EscapedNewline(after);
  }

  lemma RegroupRecord(head: string, a: string, b: string, rest: string)
    ensures head + ([QUOTE] + (a + [NEWLINE] + b) + [QUOTE]) + rest
         == (head + [QUOTE] + a) + [NEWLINE] + (b + [QUOTE] + rest)
  {}

  /** A record whose id contains a newline leaves an unterminated quote on its first line. */
  lemma BrokenRecord(word: string, id: string, rest: string) returns (line: string, more: string)
    requires NEWLINE in id && NEWLINE !in word
    requires word != [] && word[0] != '#' && forall k :: 0 <= k < |word| ==> !IsSpace(word[k])
    ensures word + [' '] + Quoted(id) + rest == line + [NEWLINE] + more && NEWLINE !in line
    ensures ParseLine(line) == BadLine
  {
    var before, after := EscapedAround(id);
    RegroupRecord(word + [' '], Escaped(before), Escaped(after), rest);
    line := word + [' '] + [QUOTE] + Escaped(before);
    more := Escaped(after) + [QUOTE] + rest;
    EscapedHasNewline(before);
    UnterminatedLine(word, before);
  }

  // --- what a load does with printed records ---

  /** The lines of a printed file, up to and including the first record that a line parser cannot read. */
  lemma FirstBadRecord(records: seq<string>, k: nat, line: string, more: string)
    requires k < |records| && forall j :: 0 <= j < k ==> NEWLINE !in records[j]
    requires records[k] + [NEWLINE] == line + [NEWLINE] + more && NEWLINE !in line
    requires ParseLine(line) == BadLine
    ensures Parsed(Joined(records)).InvalidLine?
  {
    var good, after := records[..k], records[k + 1..];
    SplitAround(records, k);
    JoinedSplits(good, [records[k]] + after);
    JoinedHead(records[k], after);
    var rest := more + Joined(after);
    RegroupHead(records[k] + [NEWLINE], line, more, Joined(after));
    LinesOfJoined(good, line + [NEWLINE] + rest);
    LinesStep(good, line, rest);
    BadEnds(good, line);
    CollectStopsAt(good + [line], Lines(rest));
  }

  lemma RegroupHead(head: string, line: string, more: string, after: string)
    requires head == line + [NEWLINE] + more
    ensures head + after == line + [NEWLINE] + (more + after)
  {}

  lemma JoinedHead(record: string, after: seq<string>)
    ensures Joined([record] + after) == (record + [NEWLINE]) + Joined(after)
  {
    JoinedSplits([record], after);
    assert [record][..0] == [];
    assert Joined([record]) == record + [NEWLINE];
  }

  lemma BadEnds(good: seq<string>, line: string)
    requires ParseLine(line) == BadLine
    ensures Collect(good + [line]).InvalidLine?
  {
    assert (good + [line])[..|good|] == good;
  }

  lemma AllReadable(records: seq<string>)
    requires forall k :: 0 <= k < |records| ==> NEWLINE !in records[k]
    ensures Parsed(Joined(records)) == Collect(records)
  {
    LinesOfJoined(records, []);
    assert Joined(records) + [] == Joined(records) && records + Lines([]) == records;
  }

  lemma {:induction false} HasNoNewline(n: nat)
    ensures NEWLINE !in Decimal(n)
  {}

  lemma DeviceRecordLines(d: DeviceConfig)
    ensures NEWLINE in DeviceRecord(d) <==> NEWLINE in d.uid
  {
    EscapedHasNewline(d.uid);
    HasNoNewline(d.rate);
  }

  lemma HalfXYRecordLines(id: string)
    ensures NEWLINE in HalfXYRecord(id) <==> NEWLINE in id
  {
    EscapedHasNewline(id);
  }

  lemma HeaderSubject()
    ensures |HEADER_SUBJECT| > 0 && HEADER_SUBJECT[0] == '#' && NEWLINE !in HEADER_SUBJECT
  {}

  lemma HeaderRest()
    ensures NEWLINE !in HEADER_REST
  {}

  lemma CommentIsSkipped(line: string)
    requires line != [] && line[0] == '#'
    ensures ParseLine(line) == Skipped && Collect([line]) == Ok(Settings([], []))
  {
    assert SkipSpace(line) == line;
    assert [line][..0] == [];
  }

  lemma HeaderIsSkipped()
    ensures Collect([Header()]) == Ok(Settings([], [])) && NEWLINE !in Header()
  {
    HeaderSubject();
    HeaderRest();
    CommentIsSkipped(Header());
  }

  lemma CollectOneMore(lines: seq<string>, line: string)
    requires Collect(lines).Ok?
    ensures var s := Collect(lines).settings;
      Collect(lines + [line]) == match ParseLine(line)
        case Skipped => Ok(s)
        case DeviceLine(config) => Ok(s.(devices := s.devices + [config]))
        case HalfXYLine(id) => Ok(s.(halfXY := s.halfXY + [id]))
        case BadLine => InvalidLine(|lines| + 1)
  {
    assert (lines + [line])[..|lines|] == lines;
  }

  lemma CollectDevice(lines: seq<string>, s: Settings, d: DeviceConfig)
    requires Collect(lines) == Ok(s) && d.uid != [] && 1 <= d.rate <= MAX_RATE
    ensures Collect(lines + [DeviceRecord(d)]) == Ok(s.(devices := s.devices + [d]))
  {
    DeviceRecordReads(d);
    CollectOneMore(lines, DeviceRecord(d));
  }

  lemma CollectController(lines: seq<string>, s: Settings, id: string)
    requires Collect(lines) == Ok(s) && id != []
    ensures Collect(lines + [HalfXYRecord(id)]) == Ok(s.(halfXY := s.halfXY + [id]))
  {
    HalfXYRecordReads(id);
    CollectOneMore(lines, HalfXYRecord(id));
  }

  lemma RegroupLines(a: seq<string>, b: seq<string>, c: seq<string>)
    ensures a + (b + c) == (a + b) + c
  {}

  lemma {:induction false} CollectDevices(lines: seq<string>, devices: seq<DeviceConfig>)
    requires Collect(lines) == Ok(Settings([], []))
    requires forall k :: 0 <= k < |devices| ==> devices[k].uid != [] && 1 <= devices[k].rate <= MAX_RATE
    ensures Collect(lines + DeviceRecords(devices)) == Ok(Settings(devices, []))
  {
    if devices == [] {
      assert lines + DeviceRecords(devices) == lines;
    } else {
      var n := |devices| - 1;
      CollectDevices(lines, devices[..n]);
      CollectDevicesOneMore(lines, devices[..n], devices[n]);
      assert devices[..n] + [devices[n]] == devices;
    }
  }

  lemma CollectDevicesOneMore(lines: seq<string>, devices: seq<DeviceConfig>, d: DeviceConfig)
    requires d.uid != [] && 1 <= d.rate <= MAX_RATE && Collect(lines + DeviceRecords(devices)) == Ok(Settings(devices, []))
    ensures Collect(lines + DeviceRecords(devices + [d])) == Ok(Settings(devices + [d], []))
  {
    assert (devices + [d])[..|devices|] == devices;
    CollectDevice(lines + DeviceRecords(devices), Settings(devices, []), d);
    RegroupLines(lines, DeviceRecords(devices), [DeviceRecord(d)]);
  }

  lemma {:induction false} CollectHalfXY(lines: seq<string>, devices: seq<DeviceConfig>, ids: seq<string>)
    requires Collect(lines) == Ok(Settings(devices, []))
    requires forall k :: 0 <= k < |ids| ==> ids[k] != []
    ensures Collect(lines + HalfXYRecords(ids)) == Ok(Settings(devices, ids))
  {
    if ids == [] {
      assert lines + HalfXYRecords(ids) == lines;
    } else {
      var n := |ids| - 1;
      CollectHalfXY(lines, devices, ids[..n]);
      CollectHalfXYOneMore(lines, devices, ids[..n], ids[n]);
      assert ids[..n] + [ids[n]] == ids;
    }
  }

  lemma CollectHalfXYOneMore(lines: seq<string>, devices: seq<DeviceConfig>, ids: seq<string>, id: string)
    requires id != [] && Collect(lines + HalfXYRecords(ids)) == Ok(Settings(devices, ids))
    ensures Collect(lines + HalfXYRecords(ids + [id])) == Ok(Settings(devices, ids + [id]))
  {
    assert (ids + [id])[..|ids|] == ids;
    CollectController(lines + HalfXYRecords(ids), Settings(devices, ids), id);
    RegroupLines(lines, HalfXYRecords(ids), [HalfXYRecord(id)]);
  }

  lemma RecordAt(s: Settings, k: nat)
    requires k < |Records(s)|
    ensures |Records(s)| == 1 + |s.devices| + |s.halfXY|
    ensures Records(s)[k] == if k == 0 then Header()
                             else if k <= |s.devices| then DeviceRecord(s.devices[k - 1])
                             else HalfXYRecord(s.halfXY[k - 1 - |s.devices|])
  {}

  predicate IdHasNewline(s: Settings, k: nat)
    requires k < 1 + |s.devices| + |s.halfXY|
  {
    if k == 0 then false
    else if k <= |s.devices| then NEWLINE in s.devices[k - 1].uid
    else NEWLINE in s.halfXY[k - 1 - |s.devices|]
  }

  lemma RecordLines(s: Settings, k: nat)
    requires k < |Records(s)|
    ensures |Records(s)| == 1 + |s.devices| + |s.halfXY|
    ensures NEWLINE in Records(s)[k] <==> IdHasNewline(s, k)
  {
    RecordAt(s, k);
    if k == 0 {
      HeaderIsSkipped();
    } else if k <= |s.devices| {
      DeviceRecordLines(s.devices[k - 1]);
    } else {
      HalfXYRecordLines(s.halfXY[k - 1 - |s.devices|]);
    }
  }

  lemma SavableSurvives(s: Settings)
    requires Savable(s)
    ensures Parsed(Printed(s)) == Ok(s)
  {
    PrintedIsJoined(s);
    forall k | 0 <= k < |Records(s)| ensures NEWLINE !in Records(s)[k] {
      RecordLines(s, k);
    }
    AllReadable(Records(s));
    HeaderIsSkipped();
    CollectDevices([Header()], s.devices);
    CollectHalfXY([Header()] + DeviceRecords(s.devices), s.devices, s.halfXY);
  }

  lemma BadLineIsFound(lines: seq<string>, k: nat)
    requires k < |lines| && ParseLine(lines[k]) == BadLine
    ensures Collect(lines).InvalidLine?
  {
    var upTo := lines[..k] + [lines[k]];
    BadEnds(lines[..k], lines[k]);
    CollectStopsAt(upTo, lines[k + 1..]);
    SplitAround(lines, k);
  }

  /** A record that cannot be read back although it is one line. */
  lemma UnreadableRecord(s: Settings) returns (k: nat)
    requires !Savable(s) && forall j :: 0 <= j < |Records(s)| ==> NEWLINE !in Records(s)[j]
    ensures k < |Records(s)| && ParseLine(Records(s)[k]) == BadLine
  {
    if i :| 0 <= i < |s.devices| && !(PlainId(s.devices[i].uid) && 1 <= s.devices[i].rate <= MAX_RATE) {
      k := 1 + i;
      RecordLines(s, k);
      RecordAt(s, k);
      DeviceRecordReads(s.devices[i]);
    } else {
      var i :| 0 <= i < |s.halfXY| && !PlainId(s.halfXY[i]);
      k := 1 + |s.devices| + i;
      RecordLines(s, k);
      RecordAt(s, k);
      HalfXYRecordReads(s.halfXY[i]);
    }
  }

  lemma {:induction false} FirstWithNewline(records: seq<string>, from: nat) returns (k: nat)
    requires from <= |records| && forall j :: 0 <= j < from ==> NEWLINE !in records[j]
    ensures k <= |records| && (k < |records| ==> NEWLINE in records[k])
    ensures forall j :: 0 <= j < k ==> NEWLINE !in records[j]
    decreases |records| - from
  {
    if from == |records| || NEWLINE in records[from] {
      k := from;
    } else {
      k := FirstWithNewline(records, from + 1);
    }
  }

  lemma BrokenDevice(d: DeviceConfig) returns (line: string, more: string)
    requires NEWLINE in d.uid
    ensures DeviceRecord(d) == line + [NEWLINE] + more && NEWLINE !in line && ParseLine(line) == BadLine
  {
    line, more := BrokenRecord("device", d.uid, [' '] + Decimal(d.rate));
    assert DeviceRecord(d) == "device" + [' '] + Quoted(d.uid) + ([' '] + Decimal(d.rate));
  }

  lemma BrokenHalfXY(id: string) returns (line: string, more: string)
    requires NEWLINE in id
    ensures HalfXYRecord(id) == line + [NEWLINE] + more && NEWLINE !in line && ParseLine(line) == BadLine
  {
    line, more := BrokenRecord("half-xy", id, []);
    assert HalfXYRecord(id) == "half-xy" + [' '] + Quoted(id) + [];
  }

  lemma BrokenRecordSplits(s: Settings, k: nat) returns (line: string, more: string)
    requires k < |Records(s)| && NEWLINE in Records(s)[k]
    ensures Records(s)[k] == line + [NEWLINE] + more && NEWLINE !in line && ParseLine(line) == BadLine
  {
    RecordLines(s, k);
    RecordAt(s, k);
    if k <= |s.devices| {
      line, more := BrokenDevice(s.devices[k - 1]);
    } else {
      line, more := BrokenHalfXY(s.halfXY[k - 1 - |s.devices|]);
    }
  }

  lemma BrokenRecordFails(s: Settings, k: nat)
    requires k < |Records(s)| && NEWLINE in Records(s)[k]
    requires forall j :: 0 <= j < k ==> NEWLINE !in Records(s)[j]
    ensures Parsed(Joined(Records(s))).InvalidLine?
  {
    var line, more := BrokenRecordSplits(s, k);
    var record := Records(s)[k];
    assert record + [NEWLINE] == line + [NEWLINE] + (more + [NEWLINE]);
    FirstBadRecord(Records(s), k, line, more + [NEWLINE]);
  }

  /**
   * The round trip, exactly: loading a saved file gives back both lists, in order and with every quote,
   * backslash and space, if and only if every id is nonempty and free of newlines and every rate fits;
   * otherwise the load is refused as a whole.
   */
  lemma RoundTrip(s: Settings)
    ensures Parsed(Printed(s)) == Ok(s) <==> Savable(s)
    ensures !Savable(s) ==> Parsed(Printed(s)).InvalidLine?
  {
    if Savable(s) {
      SavableSurvives(s);
    } else {
      PrintedIsJoined(s);
      var k := FirstWithNewline(Records(s), 0);
      if k < |Records(s)| {
        BrokenRecordFails(s, k);
      } else {
        AllReadable(Records(s));
        var j := UnreadableRecord(s);
        BadLineIsFound(Records(s), j);
      }
    }
  }

  /** All or nothing: one malformed line anywhere refuses the whole text. */
  lemma OneBadLineRefusesAll(text: string, k: nat)
    requires k < |Lines(text)| && ParseLine(Lines(text)[k]) == BadLine
    ensures Parsed(text).InvalidLine?
  {
    BadLineIsFound(Lines(text), k);
  }
}
