/**
  The line parser of the audit-exception list: a small subset of YAML, records of
  `key: value` lines that start with a dash.
 */
module AuditExceptionParser {

  import opened Text

  type Record = map<string, string>

  // ---------------------------------------------------------------- one line

  predicate StartsWith(s: string, prefix: string) {
    |prefix| <= |s| && s[..|prefix|] == prefix
  }

  function Unquoted(value: string): string {
    if value != "" && value[0] == value[|value| - 1] && value[0] in {'"', '\''} then
      if |value| == 1 then "" else value[1..|value| - 1]
    else value
  }

  /** The position of the first colon, |line| if there is none. */
  function Colon(line: string): (i: nat)
    ensures i <= |line| && ':' !in line[..i] && (i < |line| ==> line[i] == ':')
  {
    if line == "" || line[0] == ':' then 0
    else
      var i := 1 + Colon(line[1..]);
      assert line[..i] == [line[0]] + line[1..][..i - 1];
      i
  }

  /** None is the error for a line without a colon. */
  function SplitKv(line: string): Option<(string, string)> {
    var i := Colon(line);
    if i == |line| then None else Some((Trim(line[..i]), Unquoted(Trim(line[i + 1..]))))
  }

  // ---------------------------------------------------------------- the loop

  datatype State = State(current: Option<Record>, exceptions: seq<Record>)

  /** `current` joins the list unless it is missing or empty. */
  function Flushed(s: State): seq<Record> {
    if s.current.Some? && s.current.value != map[] then s.exceptions + [s.current.value] else s.exceptions
  }

  predicate Skipped(line: string) {
    || line == "" || StartsWith(line, "#")
    || StartsWith(line, "version:") || StartsWith(line, "exceptions:")
  }

  /** One trimmed line. */
  function Step(s: State, line: string): Option<State> {
    if Skipped(line) then Some(s)
    else if StartsWith(line, "- ") then
      var rest := Trim(line[2..]);
      if rest == "" then Some(State(Some(map[]), Flushed(s)))
      else
        var kv := SplitKv(rest);
        if kv.None? then None else Some(State(Some(map[kv.value.0 := kv.value.1]), Flushed(s)))
    else if s.current.Some? && Colon(line) < |line| then
      var kv := SplitKv(line).value;
      Some(s.(current := Some(s.current.value[kv.0 := kv.1])))
    else Some(s)
  }

  function RunTrimmed(s: State, lines: seq<string>): Option<State>
    decreases |lines|
  {
    if lines == [] then Some(s)
    else
      var next := Step(s, lines[0]);
      if next.None? then None else RunTrimmed(next.value, lines[1..])
  }

  function Trimmed(lines: seq<string>): seq<string> {
    seq(|lines|, i requires 0 <= i < |lines| => Trim(lines[i]))
  }

  /** The records that a run from `s` leaves behind, if it does not fail. */
  function RecordsAfter(s: State, lines: seq<string>): Option<seq<Record>> {
    var end := RunTrimmed(s, lines);
    if end.None? then None else Some(Flushed(end.value))
  }

  /** The records of a file, given line by line. */
  function Parsed(lines: seq<string>): Option<seq<Record>> {
    RecordsAfter(State(None, []), Trimmed(lines))
  }

  method ParseExceptions(lines: seq<string>) returns (result: Option<seq<Record>>)
    ensures result == Parsed(lines)
  {
    var exceptions: seq<Record>, current: Option<Record> := [], None;
    for i := 0 to |lines|
      invariant RunTrimmed(State(None, []), Trimmed(lines))
             == RunTrimmed(State(current, exceptions), Trimmed(lines)[i..])
    {
      var line := Trim(lines[i]);
      ghost var before, left := State(current, exceptions), Trimmed(lines)[i..];
      assert left[0] == line && left[1..] == Trimmed(lines)[i + 1..];
      if Skipped(line) {
        continue;
      }
      if StartsWith(line, "- ") {
        if current.Some? && current.value != map[] {
          exceptions := exceptions + [current.value];
        }
        current := Some(map[]);
        line := Trim(line[2..]);
        if line != "" {
          var kv := SplitKv(line);
          if kv.None? {
            return None;
          }
          current := Some(current.value[kv.value.0 := kv.value.1]);
        }
        assert Step(before, left[0]) == Some(State(current, exceptions));
        continue;
      }
      if current.Some? && Colon(line) < |line| {
        var kv := SplitKv(line);
        current := Some(current.value[kv.value.0 := kv.value.1]);
      }
      assert Step(before, left[0]) == Some(State(current, exceptions));
    }
    if current.Some? && current.value != map[] {
      exceptions := exceptions + [current.value];
    }
    return Some(exceptions);
  }

  // --------------------------------------------------------------- rendering

  datatype Pair = Pair(key: string, value: string)

  function Line(pair: Pair): string {
    pair.key + ": \"" + pair.value + "\""
  }

  /** The lines of a record: the first one starts with a dash. */
  function RenderedRecord(pairs: seq<Pair>): seq<string> {
    seq(|pairs|, i requires 0 <= i < |pairs| => (if i == 0 then "- " else "") + Line(pairs[i]))
  }

  function Rendered(records: seq<seq<Pair>>): seq<string> {
    if records == [] then [] else RenderedRecord(records[0]) + Rendered(records[1..])
  }

  /** What a list of pairs means as a record: a repeated key keeps its last value. */
  function Meaning(pairs: seq<Pair>): Record {
    if pairs == [] then map[]
    else
      var last := pairs[|pairs| - 1];
      Meaning(pairs[..|pairs| - 1])[last.key := last.value]
  }

  function Meanings(records: seq<seq<Pair>>): seq<Record> {
    seq(|records|, i requires 0 <= i < |records| => Meaning(records[i]))
  }

  predicate PlainKey(key: string) {
    ':' !in key && Solid(key)
  }

  /** A key that cannot follow the first line of a record: its line would mean something else. */
  predicate Reserved(key: string) {
    key == "version" || key == "exceptions" || StartsWith(key, "#") || StartsWith(key, "- ")
  }

  predicate Writable(pairs: seq<Pair>) {
    pairs != [] && forall i :: 0 <= i < |pairs| ==> PlainKey(pairs[i].key) && (i > 0 ==> !Reserved(pairs[i].key))
  }

  /** Lines that the parser skips in every state: blank, comments, headers, and undashed lines without a colon. */
  predicate Noise(line: string) {
    Skipped(line) || (!StartsWith(line, "- ") && ':' !in line)
  }

  /** The trimmed lines that are not noise. */
  function Content(lines: seq<string>): seq<string> {
    if lines == [] then []
    else
      var line := Trim(lines[0]);
      (if Noise(line) then [] else [line]) + Content(lines[1..])
  }

  // --------------------------------------------------------------- round trip

  lemma {:induction false} FirstColon(line: string, key: string)
    requires ':' !in key && StartsWith(line, key) && |key| < |line| && line[|key|] == ':'
    ensures Colon(line) == |key|
    decreases |key|
  {
  }

  lemma SplitLine(pair: Pair)
    requires PlainKey(pair.key)
    ensures SplitKv(Line(pair)) == Some((pair.key, pair.value))
  {
    var line, quoted := Line(pair), "\"" + pair.value + "\"";
    FirstColon(line, pair.key);
    assert line[..|pair.key|] == pair.key && line[|pair.key| + 1..] == " " + quoted;
    TrimIndented(" ", quoted);
    assert quoted[1..|quoted| - 1] == pair.value;
    TrimSolid(pair.key);
  }

  lemma TrimSolid(s: string)
    requires Solid(s)
    ensures Trim(s) == s
  {
  }

  lemma LineShape(pair: Pair)
    requires PlainKey(pair.key)
    ensures Solid(Line(pair)) && Line(pair) != "" && ':' in Line(pair)
    ensures !Reserved(pair.key) ==> !Skipped(Line(pair)) && !StartsWith(Line(pair), "- ")
  {
    var line, n := Line(pair), |pair.key|;
    assert line[n] == ':' && line[|line| - 1] == '"' && line[..n] == pair.key;
    HeaderKey(line, pair.key, "version");
    HeaderKey(line, pair.key, "exceptions");
    if StartsWith(line, "- ") {
      assert n != 0 && line[1] == ' ' && n != 1;
      assert pair.key[..2] == line[..2];
    }
    if StartsWith(line, "#") {
      assert line[0] == '#' && pair.key[..1] == line[..1];
    }
  }

  lemma HeaderKey(line: string, key: string, header: string)
    requires ':' !in key && ':' !in header && StartsWith(line, key) && |key| < |line| && line[|key|] == ':'
    ensures StartsWith(line, header + ":") ==> key == header
  {
    if StartsWith(line, header + ":") {
      var prefix := header + ":";
      assert line[..|prefix|][..|header|] == header && line[..|prefix|][|header|] == ':';
      assert line[..|header|] == header;
      FirstColon(line, key);
      FirstColon(line, header);
    }
  }

  lemma OtherStart(line: string, prefix: string)
    requires line != "" && prefix != "" && line[0] != prefix[0]
    ensures !StartsWith(line, prefix)
  {
  }

  lemma FirstLineStep(s: State, pair: Pair)
    requires PlainKey(pair.key)
    ensures Step(s, "- " + Line(pair)) == Some(State(Some(map[pair.key := pair.value]), Flushed(s)))
    ensures Trim("- " + Line(pair)) == "- " + Line(pair) && !Noise("- " + Line(pair))
  {
    var line := "- " + Line(pair);
    LineShape(pair);
    SplitLine(pair);
    assert line[0] == '-' && line[..2] == "- " && line[2..] == Line(pair);
    OtherStart(line, "#");
    OtherStart(line, "version:");
    OtherStart(line, "exceptions:");
    TrimSolid(Line(pair));
    assert Solid(line) by { assert line[|line| - 1] == Line(pair)[|Line(pair)| - 1]; }
    TrimSolid(line);
  }

  lemma LaterLineStep(s: State, pair: Pair)
    requires PlainKey(pair.key) && !Reserved(pair.key)
    ensures s.current.Some? ==>
      Step(s, Line(pair)) == Some(State(Some(s.current.value[pair.key := pair.value]), s.exceptions))
    ensures Trim(Line(pair)) == Line(pair) && !Noise(Line(pair))
  {
    LineShape(pair);
    SplitLine(pair);
    TrimSolid(Line(pair));
  }

  /** The restriction on later keys is exact: the line of a reserved key never adds its pair to the record. */
  lemma LaterKeyIff(s: State, pair: Pair)
    requires PlainKey(pair.key) && s.current.Some? && s.current.value != map[] && pair.key !in s.current.value
    ensures Step(s, Line(pair)) == Some(State(Some(s.current.value[pair.key := pair.value]), s.exceptions))
       <==> !Reserved(pair.key)
  {
    if !Reserved(pair.key) {
      LaterLineStep(s, pair);
    } else {
      ReservedIsLost(s, pair, State(Some(s.current.value[pair.key := pair.value]), s.exceptions));
    }
  }

  lemma ReservedIsLost(s: State, pair: Pair, next: State)
    requires PlainKey(pair.key) && Reserved(pair.key)
    requires s.current.Some? && s.current.value != map[] && pair.key !in s.current.value
    requires next.current.Some? && pair.key in next.current.value && next.exceptions == s.exceptions
    ensures Step(s, Line(pair)) != Some(next)
  {
    var line, n := Line(pair), |pair.key|;
    assert line[..n] == pair.key && line[..n + 1] == pair.key + ":";
    assert StartsWith(pair.key, "- ") ==> line[..2] == pair.key[..2];
    assert StartsWith(pair.key, "#") ==> line[..1] == pair.key[..1];
    assert Skipped(line) || StartsWith(line, "- ");
    assert |Flushed(s)| > |next.exceptions|;
  }

  lemma {:induction false} RunAppend(s: State, a: seq<string>, b: seq<string>)
    ensures RunTrimmed(s, a + b)
         == var mid := RunTrimmed(s, a); if mid.None? then None else RunTrimmed(mid.value, b)
    decreases |a|
  {
    if a == [] {
      assert a + b == b;
    } else {
      assert (a + b)[0] == a[0] && (a + b)[1..] == a[1..] + b;
      var next := Step(s, a[0]);
      if next.Some? {
        RunAppend(next.value, a[1..], b);
      }
    }
  }

  /** Running over a rendered record flushes the record before it and makes this one current. */
  lemma {:induction false} RunRecord(s: State, pairs: seq<Pair>)
    requires Writable(pairs)
    ensures RunTrimmed(s, RenderedRecord(pairs)) == Some(State(Some(Meaning(pairs)), Flushed(s)))
    decreases |pairs|
  {
    var init, last := pairs[..|pairs| - 1], pairs[|pairs| - 1];
    if |pairs| == 1 {
      FirstRun(s, last);
      assert RenderedRecord(pairs) == ["- " + Line(last)];
      assert Meaning(init) == map[];
    } else {
      RunRecord(s, init);
      LaterRun(State(Some(Meaning(init)), Flushed(s)), last);
      assert "" + Line(last) == Line(last);
      assert RenderedRecord(pairs) == RenderedRecord(init) + [Line(last)];
      RunAppend(s, RenderedRecord(init), [Line(last)]);
    }
  }

  lemma FirstRun(s: State, pair: Pair)
    requires PlainKey(pair.key)
    ensures RunTrimmed(s, ["- " + Line(pair)]) == Some(State(Some(map[pair.key := pair.value]), Flushed(s)))
  {
    FirstLineStep(s, pair);
    RunOne(s, "- " + Line(pair));
  }

  lemma LaterRun(s: State, pair: Pair)
    requires PlainKey(pair.key) && !Reserved(pair.key) && s.current.Some?
    ensures RunTrimmed(s, [Line(pair)])
         == Some(State(Some(s.current.value[pair.key := pair.value]), s.exceptions))
  {
    LaterLineStep(s, pair);
    RunOne(s, Line(pair));
  }

  lemma RunOne(s: State, line: string)
    ensures RunTrimmed(s, [line]) == Step(s, line)
  {
  }

  ghost predicate AllWritable(records: seq<seq<Pair>>) {
    forall i :: 0 <= i < |records| ==> Writable(records[i])
  }

  lemma {:induction false} RunRendered(s: State, records: seq<seq<Pair>>)
    requires AllWritable(records)
    ensures RecordsAfter(s, Rendered(records)) == Some(Flushed(s) + Meanings(records))
    decreases |records|
  {
    if records != [] {
      var first, rest := records[0], records[1..];
      var mid := State(Some(Meaning(first)), Flushed(s));
      RunRecord(s, first);
      RunAppend(s, RenderedRecord(first), Rendered(rest));
      RunRendered(mid, rest);
      MeaningNonempty(first);
      assert RunTrimmed(s, RenderedRecord(first)) == Some(mid);
      assert RunTrimmed(s, Rendered(records)) == RunTrimmed(mid, Rendered(rest));
      assert Flushed(mid) == Flushed(s) + [Meaning(first)];
      MeaningsStep(records, Flushed(s));
    } else {
      assert Flushed(s) + Meanings(records) == Flushed(s);
    }
  }

  lemma MeaningsStep(records: seq<seq<Pair>>, before: seq<Record>)
    requires records != []
    ensures before + [Meaning(records[0])] + Meanings(records[1..]) == before + Meanings(records)
  {
  }

  lemma MeaningNonempty(pairs: seq<Pair>)
    requires pairs != []
    ensures Meaning(pairs) != map[]
  {
    assert pairs[|pairs| - 1].key in Meaning(pairs);
  }

  /** Only the content of the lines matters. */
  lemma {:induction false} RunContent(s: State, lines: seq<string>)
    ensures RunTrimmed(s, Trimmed(lines)) == RunTrimmed(s, Content(lines))
    decreases |lines|
  {
    if lines != [] {
      var line := Trim(lines[0]);
      assert Trimmed(lines)[0] == line && Trimmed(lines)[1..] == Trimmed(lines[1..]);
      var next := Step(s, line);
      if Noise(line) {
        assert next == Some(s) by { if Colon(line) < |line| { assert line[Colon(line)] in line; } }
        assert Content(lines) == Content(lines[1..]);
        RunContent(s, lines[1..]);
      } else {
        assert Content(lines) == [line] + Content(lines[1..]);
        assert Content(lines)[1..] == Content(lines[1..]);
        if next.Some? {
          RunContent(next.value, lines[1..]);
        }
      }
    }
  }

  lemma ParseRenderedFrom(s: State, lines: seq<string>, records: seq<seq<Pair>>)
    requires AllWritable(records) && Content(lines) == Rendered(records)
    ensures RecordsAfter(s, Trimmed(lines)) == Some(Flushed(s) + Meanings(records))
  {
    RunContent(s, lines);
    RunRendered(s, records);
  }

  /**
    Round trip: lines whose content, once trimmed and cleared of noise, is the
    rendering of some records are parsed to exactly those records.
  */
  lemma ParseRendered(lines: seq<string>, records: seq<seq<Pair>>)
    requires AllWritable(records)
    requires Content(lines) == Rendered(records)
    ensures Parsed(lines) == Some(Meanings(records))
  {
    var start := State(None, []);
    ParseRenderedFrom(start, lines, records);
    assert Flushed(start) + Meanings(records) == Meanings(records);
  }

  // ------------------------------------------------------------- whole files

  /** Text mode reading; a line break of two characters yields an additional blank line here, which is skipped. */
  function LinesOf(text: string): (lines: seq<string>)
    ensures lines != []
    decreases |text|
  {
    if |text| == 0 then [""]
    else
      var lines := LinesOf(text[1..]);
      if text[0] in {'\n', '\r'} then [""] + lines else [[text[0]] + lines[0]] + lines[1..]
  }

  function Joined(lines: seq<string>): string
    decreases |lines|
  {
    if |lines| == 0 then "" else lines[0] + "\n" + Joined(lines[1..])
  }

  predicate OneLine(s: string) {
    '\n' !in s && '\r' !in s
  }

  lemma {:induction false} LinesOfFirst(line: string, text: string)
    requires OneLine(line)
    ensures LinesOf(line + "\n" + text) == [line] + LinesOf(text)
    decreases |line|
  {
    var all := line + "\n" + text;
    if |line| == 0 {
      assert all[0] == '\n' && all[1..] == text;
    } else {
      assert all[0] == line[0] && all[1..] == line[1..] + "\n" + text;
      LinesOfFirst(line[1..], text);
      assert [line[0]] + line[1..] == line;
    }
  }

  lemma {:induction false} LinesOfJoined(lines: seq<string>)
    requires forall i :: 0 <= i < |lines| ==> OneLine(lines[i])
    ensures LinesOf(Joined(lines)) == lines + [""]
    decreases |lines|
  {
    if |lines| != 0 {
      LinesOfJoined(lines[1..]);
      LinesOfFirst(lines[0], Joined(lines[1..]));
      assert [lines[0]] + (lines[1..] + [""]) == lines + [""];
    }
  }

  lemma {:induction false} ContentAppend(a: seq<string>, b: seq<string>)
    ensures Content(a + b) == Content(a) + Content(b)
    decreases |a|
  {
    if a == [] {
      assert a + b == b;
    } else {
      assert (a + b)[0] == a[0] && (a + b)[1..] == a[1..] + b;
      ContentAppend(a[1..], b);
    }
  }

  predicate Blank(s: string) {
    forall i :: 0 <= i < |s| ==> IsSpace(s[i])
  }

  /** Each line indented in its own way, after its own gap of other lines. */
  function Woven(lines: seq<string>, indents: seq<string>, gaps: seq<seq<string>>): seq<string>
    requires |lines| == |indents| == |gaps|
    decreases |lines|
  {
    if |lines| == 0 then []
    else gaps[0] + [indents[0] + lines[0]] + Woven(lines[1..], indents[1..], gaps[1..])
  }

  ghost predicate NoiseGap(gap: seq<string>) {
    forall i :: 0 <= i < |gap| ==> OneLine(gap[i]) && Noise(Trim(gap[i]))
  }

  ghost predicate BlankIndent(s: string) {
    Blank(s) && OneLine(s)
  }

  ghost predicate ContentLine(line: string) {
    line != "" && Solid(line) && !Noise(line) && OneLine(line)
  }

  lemma {:induction false} GapContent(gap: seq<string>)
    requires NoiseGap(gap)
    ensures Content(gap) == []
    decreases |gap|
  {
    if gap != [] {
      GapContent(gap[1..]);
    }
  }

  lemma {:induction false} WovenContent(lines: seq<string>, indents: seq<string>, gaps: seq<seq<string>>)
    requires |lines| == |indents| == |gaps|
    requires forall i :: 0 <= i < |lines| ==> ContentLine(lines[i]) && BlankIndent(indents[i]) && NoiseGap(gaps[i])
    ensures Content(Woven(lines, indents, gaps)) == lines
    ensures forall i :: 0 <= i < |Woven(lines, indents, gaps)| ==> OneLine(Woven(lines, indents, gaps)[i])
    decreases |lines|
  {
    if |lines| != 0 {
      var rest := Woven(lines[1..], indents[1..], gaps[1..]);
      WovenContent(lines[1..], indents[1..], gaps[1..]);
      GapContent(gaps[0]);
      var line := indents[0] + lines[0];
      assert Trim(line) == lines[0] by {
        BlankChars(indents[0]);
        TrimIndented(indents[0], lines[0]);
      }
      ContentAppend(gaps[0] + [line], rest);
      ContentAppend(gaps[0], [line]);
      assert Content([line]) == [lines[0]] + Content([line][1..]);
    }
  }

  lemma BlankChars(s: string)
    requires Blank(s)
    ensures forall c :: c in s ==> IsSpace(c)
  {
  }

  ghost predicate OneLinePairs(pairs: seq<Pair>) {
    forall i :: 0 <= i < |pairs| ==> OneLine(pairs[i].key) && OneLine(pairs[i].value)
  }

  lemma RenderedRecordLines(s: State, pairs: seq<Pair>)
    requires Writable(pairs) && OneLinePairs(pairs)
    ensures forall i :: 0 <= i < |pairs| ==> ContentLine(RenderedRecord(pairs)[i])
  {
    forall i | 0 <= i < |pairs|
      ensures ContentLine(RenderedRecord(pairs)[i])
    {
      RenderedLine(s, pairs[i], i == 0);
    }
  }

  lemma RenderedLine(s: State, pair: Pair, first: bool)
    requires PlainKey(pair.key) && OneLine(pair.key) && OneLine(pair.value) && (!first ==> !Reserved(pair.key))
    ensures ContentLine((if first then "- " else "") + Line(pair))
  {
    LineShape(pair);
    LineIsOneLine(pair);
    if first {
      FirstLineStep(s, pair);
      DashedLine(Line(pair));
    } else {
      LaterLineStep(s, pair);
      assert "" + Line(pair) == Line(pair);
    }
  }

  lemma LineIsOneLine(pair: Pair)
    requires OneLine(pair.key) && OneLine(pair.value)
    ensures OneLine(Line(pair))
  {
  }

  lemma DashedLine(line: string)
    requires line != "" && Solid(line) && OneLine(line)
    ensures Solid("- " + line) && OneLine("- " + line)
  {
  }

  lemma {:induction false} RenderedLines(records: seq<seq<Pair>>)
    requires AllWritable(records) && forall i :: 0 <= i < |records| ==> OneLinePairs(records[i])
    ensures forall i :: 0 <= i < |Rendered(records)| ==> ContentLine(Rendered(records)[i])
    decreases |records|
  {
    if records != [] {
      RenderedRecordLines(State(None, []), records[0]);
      RenderedLines(records[1..]);
    }
  }

  /**
    Round trip for whole files: any rendering of records, each line indented at
    will and blank lines, comments or headers put in front of any of them and at
    the end, is read back as those records.
  */
  lemma FileRoundTrip(records: seq<seq<Pair>>, indents: seq<string>, gaps: seq<seq<string>>, end: seq<string>)
    requires AllWritable(records) && forall i :: 0 <= i < |records| ==> OneLinePairs(records[i])
    requires |indents| == |gaps| == |Rendered(records)| && NoiseGap(end)
    requires forall i :: 0 <= i < |indents| ==> BlankIndent(indents[i]) && NoiseGap(gaps[i])
    ensures Parsed(LinesOf(Joined(Woven(Rendered(records), indents, gaps) + end))) == Some(Meanings(records))
  {
    var lines := Woven(Rendered(records), indents, gaps);
    RenderedLines(records);
    WovenContent(Rendered(records), indents, gaps);
    LinesOfJoined(lines + end);
    GapContent(end);
    ContentAppend(lines, end);
    ContentAppend(lines + end, [""]);
    assert Content([""]) == Content([""][1..]);
    ParseRendered(lines + end + [""], records);
  }
}
