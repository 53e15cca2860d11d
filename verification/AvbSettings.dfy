/**
 * The AVB settings file: a printer and a line parser over characters, with std::quoted escaping and a
 * load that applies either the whole file or nothing of it.
 */
module AvbSettings {
  import opened Points

  const MAX_RATE := 0xFFFF_FFFF
  const HEADER_SUBJECT := "# Libera Link AVB interfaces "
  const HEADER_REST := "and per-bank output settings"
  const QUOTE: char := '"'
  const ESCAPE: char := '\\'
  const NEWLINE: char := '\n'

  datatype DeviceConfig = DeviceConfig(uid: string, rate: nat)

  datatype Settings = Settings(devices: seq<DeviceConfig>, halfXY: seq<string>)

  datatype Loaded = Ok(settings: Settings) | InvalidLine(number: nat)

  datatype LineResult = Skipped | DeviceLine(config: DeviceConfig) | HalfXYLine(id: string) | BadLine

  // --- printing ---

  function Escaped(s: string): string {
    if s == [] then []
    else (if s[0] == QUOTE || s[0] == ESCAPE then [ESCAPE, s[0]] else [s[0]]) + Escaped(s[1..])
  }

  function Quoted(s: string): string {
    [QUOTE] + Escaped(s) + [QUOTE]
  }

  function Digit(d: nat): (c: char)
    requires d < 10
    ensures IsDigit(c) && DigitValue(c) == d
  {
    ('0' as int + d) as char
  }

  function Decimal(n: nat): (s: string)
    ensures s != [] && forall k :: 0 <= k < |s| ==> IsDigit(s[k])
  {
    if n < 10 then [Digit(n)] else Decimal(n / 10) + [Digit(n % 10)]
  }

  function DeviceRecord(d: DeviceConfig): string {
    "device" + [' '] + Quoted(d.uid) + [' '] + Decimal(d.rate)
  }

  function HalfXYRecord(id: string): string {
    "half-xy" + [' '] + Quoted(id)
  }

  function Header(): string {
    HEADER_SUBJECT + HEADER_REST
  }

  function DevicesText(devices: seq<DeviceConfig>): string {
    if devices == [] then []
    else DevicesText(devices[..|devices| - 1]) + DeviceRecord(devices[|devices| - 1]) + [NEWLINE]
  }

  function HalfXYText(ids: seq<string>): string {
    if ids == [] then [] else HalfXYText(ids[..|ids| - 1]) + HalfXYRecord(ids[|ids| - 1]) + [NEWLINE]
  }

  function Printed(s: Settings): string {
    Header() + [NEWLINE] + DevicesText(s.devices) + HalfXYText(s.halfXY)
  }

  // --- parsing, with the rules of the standard input streams ---

  predicate IsSpace(c: char) {
    c == ' ' || c == '\t' || c == '\n' || c == '\r' || c as int == 11 || c as int == 12
  }

  predicate IsDigit(c: char) { '0' <= c <= '9' }

  function DigitValue(c: char): nat
    requires IsDigit(c)
  {
    c as int - '0' as int
  }

  function SkipSpace(s: string): string {
    if s != [] && IsSpace(s[0]) then SkipSpace(s[1..]) else s
  }

  /** Length of the run of non-space characters at the front. */
  function WordLength(s: string): (n: nat)
    ensures n <= |s|
  {
    if s == [] || IsSpace(s[0]) then 0 else 1 + WordLength(s[1..])
  }

  function DigitRun(s: string): (n: nat)
    ensures n <= |s| && forall k :: 0 <= k < n ==> IsDigit(s[k])
  {
    if s == [] || !IsDigit(s[0]) then 0 else 1 + DigitRun(s[1..])
  }

  function ValueOf(digits: string): nat
    requires forall k :: 0 <= k < |digits| ==> IsDigit(digits[k])
  {
    if digits == [] then 0 else ValueOf(digits[..|digits| - 1]) * 10 + DigitValue(digits[|digits| - 1])
  }

  /** After an opening quote: the text up to the closing one, and what follows it. */
  function ReadQuotedBody(s: string): Option<(string, string)> {
    if s == [] then None
    else if s[0] == QUOTE then Some(([], s[1..]))
    else if s[0] == ESCAPE then
      if |s| == 1 then None
      else match ReadQuotedBody(s[2..])
        case None => None
        case Some((text, rest)) => Some(([s[1]] + text, rest))
    else match ReadQuotedBody(s[1..])
      case None => None
      case Some((text, rest)) => Some(([s[0]] + text, rest))
  }

  /** std::quoted on input: a quoted text, or one bare word. */
  function ReadQuoted(line: string): Option<(string, string)> {
    var s := SkipSpace(line);
    if s == [] then None
    else if s[0] == QUOTE then ReadQuotedBody(s[1..])
    else Some((s[..WordLength(s)], s[WordLength(s)..]))
  }

  /** A signed decimal number of any size; sizes beyond 64 bits fail in the source and are out of range here. */
  function ReadNumber(line: string): Option<(int, string)> {
    var s := SkipSpace(line);
    var signed := s != [] && (s[0] == '-' || s[0] == '+');
    var digits := if signed then s[1..] else s;
    var n := DigitRun(digits);
    if n == 0 then None
    else
      var value: int := ValueOf(digits[..n]);
      Some((if signed && s[0] == '-' then -value else value, digits[n..]))
  }

  function ParseFields(kind: string, id: string, rest: string): LineResult {
    if id == [] then BadLine
    else if kind == "device" then
      match ReadNumber(rest)
      case None => BadLine
      case Some((rate, tail)) =>
        if 0 < rate <= MAX_RATE && SkipSpace(tail) == [] then DeviceLine(DeviceConfig(id, rate)) else BadLine
    else if kind == "half-xy" && SkipSpace(rest) == [] then HalfXYLine(id)
    else BadLine
  }

  function ParseLine(line: string): LineResult {
    var s := SkipSpace(line);
    if s == [] || s[0] == '#' then Skipped
    else
      match ReadQuoted(s[WordLength(s)..])
      case None => BadLine
      case Some((id, rest)) => ParseFields(s[..WordLength(s)], id, rest)
  }

  /** Length of the first line, its newline not counted. */
  function LineLength(t: string): (n: nat)
    ensures n <= |t| && NEWLINE !in t[..n] && (n < |t| ==> t[n] == NEWLINE)
  {
    if t == [] || t[0] == NEWLINE then 0
    else
      var n := LineLength(t[1..]);
      assert t[..1 + n] == [t[0]] + t[1..][..n];
      1 + n
  }

  /** std::getline until it fails: a final line need not end in a newline. */
  function Lines(t: string): seq<string>
    decreases |t|
  {
    if t == [] then []
    else
      var n := LineLength(t);
      [t[..n]] + if n < |t| then Lines(t[n + 1..]) else []
  }

  function Collect(lines: seq<string>): Loaded {
    if lines == [] then Ok(Settings([], []))
    else
      match Collect(lines[..|lines| - 1])
      case InvalidLine(number) => InvalidLine(number)
      case Ok(s) =>
        match ParseLine(lines[|lines| - 1])
        case Skipped => Ok(s)
        case DeviceLine(config) => Ok(s.(devices := s.devices + [config]))
        case HalfXYLine(id) => Ok(s.(halfXY := s.halfXY + [id]))
        case BadLine => InvalidLine(|lines|)
  }

  function Parsed(text: string): Loaded {
    Collect(Lines(text))
  }

  /** The backend's two lists, with the file operations that fill and print them. */
  class AvbManager {
    var configuredDevices: seq<DeviceConfig>
    var halfXYControllers: seq<string>

    ghost function State(): Settings
      reads this
    {
      Settings(configuredDevices, halfXYControllers)
    }

    /** `text` is None when there is no file; reading a line that is not valid leaves everything as it was. */
    method Load(text: Option<string>) returns (ok: bool, badLine: nat)
      modifies this
      ensures text.None? ==> ok && State() == old(State())
      ensures text.Some? ==>
        match Parsed(text.value)
        case Ok(s) => ok && State() == s
        case InvalidLine(number) => !ok && badLine == number && State() == old(State())
    {
      ok, badLine := true, 0;
      if text.None? {
        return;
      }
      var lines := Lines(text.value);
      var configs: seq<DeviceConfig>, halfXY: seq<string> := [], [];
      var lineNumber := 0;
      while lineNumber < |lines|
        invariant 0 <= lineNumber <= |lines|
        invariant Collect(lines[..lineNumber]) == Ok(Settings(configs, halfXY))
      {
        assert lines[..lineNumber + 1][..lineNumber] == lines[..lineNumber];
        var line := lines[lineNumber];
        lineNumber := lineNumber + 1;
        match ParseLine(line)
        case Skipped =>
        case DeviceLine(config) => configs := configs + [config];
        case HalfXYLine(id) => halfXY := halfXY + [id];
        case BadLine =>
          assert Collect(lines[..lineNumber]) == InvalidLine(lineNumber);
          CollectStopsAt(lines[..lineNumber], lines[lineNumber..]);
          assert lines == lines[..lineNumber] + lines[lineNumber..];
          return false, lineNumber;
      }
      assert lines[..|lines|] == lines;
      configuredDevices := configs;
      halfXYControllers := halfXY;
    }

    method WriteDevices(before: string) returns (text: string)
      ensures text == before + DevicesText(configuredDevices)
    {
      text := before;
      for k := 0 to |configuredDevices|
        invariant text == before + DevicesText(configuredDevices[..k])
      {
        DevicesOneMore(before, configuredDevices, k);
        text := text + DeviceRecord(configuredDevices[k]) + [NEWLINE];
      }
      assert configuredDevices[..|configuredDevices|] == configuredDevices;
    }

    method WriteHalfXY(before: string) returns (text: string)
      ensures text == before + HalfXYText(halfXYControllers)
    {
      text := before;
      for k := 0 to |halfXYControllers|
        invariant text == before + HalfXYText(halfXYControllers[..k])
      {
        HalfXYOneMore(before, halfXYControllers, k);
        text := text + HalfXYRecord(halfXYControllers[k]) + [NEWLINE];
      }
      assert halfXYControllers[..|halfXYControllers|] == halfXYControllers;
    }

    method Save() returns (text: string)
      ensures text == Printed(State())
    {
      text := Header() + [NEWLINE];
      text := WriteDevices(text);
      text := WriteHalfXY(text);
    }
  }

  lemma RegroupLast(a: string, b: string, c: string, d: string)
    ensures a + b + c + d == a + (b + c + d)
  {}

  lemma DevicesOneMore(before: string, devices: seq<DeviceConfig>, k: nat)
    requires k < |devices|
    ensures before + DevicesText(devices[..k]) + DeviceRecord(devices[k]) + [NEWLINE]
         == before + DevicesText(devices[..k + 1])
  {
    assert devices[..k + 1][..k] == devices[..k];
    RegroupLast(before, DevicesText(devices[..k]), DeviceRecord(devices[k]), [NEWLINE]);
  }

  lemma HalfXYOneMore(before: string, ids: seq<string>, k: nat)
    requires k < |ids|
    ensures before + HalfXYText(ids[..k]) + HalfXYRecord(ids[k]) + [NEWLINE] == before + HalfXYText(ids[..k + 1])
  {
    assert ids[..k + 1][..k] == ids[..k];
    RegroupLast(before, HalfXYText(ids[..k]), HalfXYRecord(ids[k]), [NEWLINE]);
  }

  lemma {:induction false} CollectStopsAt(lines: seq<string>, more: seq<string>)
    requires Collect(lines).InvalidLine?
    ensures Collect(lines + more) == Collect(lines)
  {
    if more == [] {
      assert lines + more == lines;
    } else {
      assert (lines + more)[..|lines + more| - 1] == lines + more[..|more| - 1];
      CollectStopsAt(lines, more[..|more| - 1]);
    }
  }
}
