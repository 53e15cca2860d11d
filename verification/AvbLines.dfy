/** How single lines of the AVB settings file read, and which line a refusal names. */
module AvbLines {
  import opened Points
  import opened AvbSettings
  import opened AvbRoundTrip

  /** The line number reported is that of the first malformed line. */
  lemma {:induction false} FirstBadLineIsReported(lines: seq<string>, n: nat)
    ensures Collect(lines) == InvalidLine(n) <==>
      && 1 <= n <= |lines| && ParseLine(lines[n - 1]) == BadLine
      && forall k :: 0 <= k < n - 1 ==> ParseLine(lines[k]) != BadLine
  {
    if lines != [] {
      var m := |lines| - 1;
      var front := lines[..m];
      FirstBadLineIsReported(front, n);
      if Collect(front).InvalidLine? {
        FirstBadLineIsReported(front, Collect(front).number);
      } else {
        ReadableLines(front);
      }
    }
  }

  lemma {:induction false} ReadableLines(lines: seq<string>)
    requires Collect(lines).Ok?
    ensures forall k :: 0 <= k < |lines| ==> ParseLine(lines[k]) != BadLine
  {
    if lines != [] {
      ReadableLines(lines[..|lines| - 1]);
    }
  }

  /** Blank lines and lines that begin with `#` after any blanks are skipped, and only those. */
  lemma {:induction false} SkippedExactly(blanks: string, rest: string)
    requires forall k :: 0 <= k < |blanks| ==> IsSpace(blanks[k])
    requires rest == [] || !IsSpace(rest[0])
    ensures ParseLine(blanks + rest) == Skipped <==> rest == [] || rest[0] == '#'
  {
    SkipsBlanks(blanks, rest);
  }

  lemma {:induction false} SkipsBlanks(blanks: string, rest: string)
    requires forall k :: 0 <= k < |blanks| ==> IsSpace(blanks[k])
    requires rest == [] || !IsSpace(rest[0])
    ensures SkipSpace(blanks + rest) == rest
  {
    if blanks == [] {
      assert blanks + rest == rest;
    } else {
      assert (blanks + rest)[1..] == blanks[1..] + rest;
      SkipsBlanks(blanks[1..], rest);
    }
  }

  /** After a half-XY id nothing but blanks may follow, and the same holds of other keywords: they are refused. */
  lemma HalfXYLineExactly(id: string, rest: string)
    ensures ParseLine("half-xy" + [' '] + Quoted(id) + rest)
         == if id != [] && SkipSpace(rest) == [] then HalfXYLine(id) else BadLine
  {
    KeywordLine("half-xy", id, rest);
  }

  lemma UnknownKeywordRefused(word: string, id: string, rest: string)
    requires word != [] && word[0] != '#' && forall k :: 0 <= k < |word| ==> !IsSpace(word[k])
    requires word != "device" && word != "half-xy"
    ensures ParseLine(word + [' '] + Quoted(id) + rest) == BadLine
  {
    KeywordLine(word, id, rest);
  }

  /** The text of one device record. */
  lemma DeviceAsWritten()
    ensures DeviceRecord(DeviceConfig(['a', '"'], 305)) == "device \"a\\\"\" 305"
  {
    var id := ['a', '"'];
    assert id[1..] == ['"'] && id[1..][1..] == [];
    assert Escaped(id) == ['a', '\\', '"'];
    assert Decimal(3) == "3" && Decimal(30) == "30" && Decimal(305) == "305";
  }

  /** The text of one half-XY record. */
  lemma HalfXYAsWritten()
    ensures HalfXYRecord(['b', ' ', '\\']) == "half-xy \"b \\\\\""
  {
    var id := ['b', ' ', '\\'];
    assert id[1..] == [' ', '\\'] && id[1..][1..] == ['\\'] && id[1..][1..][1..] == [];
    assert Escaped(id) == ['b', ' ', '\\', '\\'];
  }
}
