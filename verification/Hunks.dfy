/** Reading the base-side line ranges out of a zero-context git diff. */
module Hunks {
  import opened Records
  import opened Decimal

  /** 1-based, inclusive, on the base side. */
  datatype LineRange = LineRange(start: int, end: int)

  datatype Failure = BeforeFileHeader | MalformedHeader | StartOutOfRange | CountOutOfRange

  datatype ParseResult =
    | Parsed(hunks: map<string, seq<LineRange>>)
    | Rejected(failure: Failure, line: string)

  const DEV_NULL := "/dev/null"

  function TrimPrefix(s: string, prefix: string): string {
    if prefix <= s then s[|prefix|..] else s
  }

  /** Split at every newline; there is always at least one line. */
  function Lines(s: string): (lines: seq<string>)
    ensures lines != []
  {
    if s == "" then [""]
    else
      var rest := Lines(s[1..]);
      if s[0] == '\n' then [""] + rest else [[s[0]] + rest[0]] + rest[1..]
  }

  function LeadingDigits(s: string): (n: nat)
    ensures n <= |s| && AllDigits(s[..n]) && (n < |s| ==> !IsDigit(s[n]))
  {
    if s == "" || !IsDigit(s[0]) then 0
    else
      assert s[..LeadingDigits(s[1..]) + 1] == [s[0]] + s[1..][..LeadingDigits(s[1..])];
      LeadingDigits(s[1..]) + 1
  }

  datatype Numbers = Numbers(start: string, count: string)

  function MatchCount(start: string, tail: string): (r: Option<Numbers>)
    ensures r.Some? ==> r.value.start == start && AllDigits(r.value.count)
  {
    if " +" <= tail then Some(Numbers(start, ""))
    else if !("," <= tail) then None
    else
      var rest := tail[1..];
      var n := LeadingDigits(rest);
      if n > 0 && " +" <= rest[n..] then Some(Numbers(start, rest[..n])) else None
  }

  /** "@@ -", digits, optionally a comma and digits, then " +". */
  function MatchHeader(line: string): (r: Option<Numbers>)
    ensures r.Some? ==> AllDigits(r.value.start) && r.value.start != "" && AllDigits(r.value.count)
  {
    if !("@@ -" <= line) then None
    else
      var rest := line[4..];
      var n := LeadingDigits(rest);
      if n == 0 then None else MatchCount(rest[..n], rest[n..])
  }

  /** 64-bit addition. */
  function Wrap(n: int): (w: int)
    ensures -MAX_INT64 - 1 <= w <= MAX_INT64
    ensures -MAX_INT64 - 1 <= n <= MAX_INT64 ==> w == n
    ensures (n - w) % 0x1_0000_0000_0000_0000 == 0
  {
    (n + MAX_INT64 + 1) % (2 * MAX_INT64 + 2) - MAX_INT64 - 1
  }

  /** An insertion is placed at the line before it. */
  function RangeOf(start: int, count: int): LineRange {
    if count == 0 then LineRange(start, start) else LineRange(start, Wrap(start + count - 1))
  }

  function File(hunks: map<string, seq<LineRange>>, path: string, r: LineRange): map<string, seq<LineRange>> {
    hunks[path := (if path in hunks then hunks[path] else []) + [r]]
  }

  /** What the scan remembers between lines. */
  datatype State = State(oldPath: string, current: string, hunks: map<string, seq<LineRange>>)

  datatype Scan = Next(state: State) | Stop(failure: Failure, line: string)

  function ReadHeader(st: State, line: string): Scan {
    if st.current == "" || st.current == DEV_NULL then Stop(BeforeFileHeader, line)
    else match MatchHeader(line)
         case None => Stop(MalformedHeader, line)
         case Some(numbers) =>
           match ParseInt(numbers.start)
           case None => Stop(StartOutOfRange, line)
           case Some(start) =>
             match (if numbers.count == "" then Some(1) else ParseInt(numbers.count))
             case None => Stop(CountOutOfRange, line)
             case Some(count) => Next(st.(hunks := File(st.hunks, st.current, RangeOf(start, count))))
  }

  function ReadLine(st: State, line: string): Scan {
    if "--- " <= line then Next(st.(oldPath := TrimPrefix(TrimPrefix(line, "--- "), "a/"), current := ""))
    else if "+++ " <= line then
      var newPath := TrimPrefix(TrimPrefix(line, "+++ "), "b/");
      Next(st.(current := if newPath == DEV_NULL then st.oldPath else newPath))
    else if "@@ " <= line then ReadHeader(st, line)
    else Next(st)
  }

  function ReadLines(st: State, lines: seq<string>): Scan
    decreases |lines|
  {
    if lines == [] then Next(st)
    else match ReadLine(st, lines[0])
         case Next(st') => ReadLines(st', lines[1..])
         case Stop(failure, line) => Stop(failure, line)
  }

  const START := State("", "", map[])

  function Parse(out: string): ParseResult {
    match ReadLines(START, Lines(out))
    case Next(st) => Parsed(st.hunks)
    case Stop(failure, line) => Rejected(failure, line)
  }

  method ParseHunks(out: string) returns (r: ParseResult)
    ensures r == Parse(out)
  {
    hide MatchHeader, ParseInt, RangeOf, TrimPrefix, Lines;
    var hunks: map<string, seq<LineRange>> := map[];
    var oldPath, newPath, current := "", "", "";
    var lines := Lines(out);
    assert lines[0..] == lines;
    for k := 0 to |lines|
      invariant ReadLines(START, lines) == ReadLines(State(oldPath, current, hunks), lines[k..])
    {
      var line := lines[k];
      assert lines[k..][0] == line && lines[k..][1..] == lines[k + 1..];
      if "--- " <= line {
        oldPath := TrimPrefix(TrimPrefix(line, "--- "), "a/");
        current := "";
      } else if "+++ " <= line {
        newPath := TrimPrefix(TrimPrefix(line, "+++ "), "b/");
        current := newPath;
        if newPath == DEV_NULL {
          current := oldPath;
        }
      } else if "@@ " <= line {
        if current == "" || current == DEV_NULL {
          return Rejected(BeforeFileHeader, line);
        }
        var numbers := MatchHeader(line);
        if numbers.None? {
          return Rejected(MalformedHeader, line);
        }
        var start := ParseInt(numbers.value.start);
        if start.None? {
          return Rejected(StartOutOfRange, line);
        }
        var count := Some(1);
        if numbers.value.count != "" {
          count := ParseInt(numbers.value.count);
          if count.None? {
            return Rejected(CountOutOfRange, line);
          }
        }
        var range := RangeOf(start.value, count.value);
        hunks := hunks[current := (if current in hunks then hunks[current] else []) + [range]];
      }
    }
    return Parsed(hunks);
  }

  /** A range is well formed exactly when its last line fits 64 bits. */
  lemma RangeOrdered(start: int, count: int)
    requires 0 <= start <= MAX_INT64 && 0 <= count <= MAX_INT64
    ensures RangeOf(start, count).start <= RangeOf(start, count).end <==>
            count == 0 || start + count - 1 <= MAX_INT64
  {
  }

  // ---- a diff as git prints it

  datatype Side = Absent | Present(path: string)

  datatype BodyLine = Removed(text: string) | Added(text: string) | NoNewline

  /** tail is whatever follows " +" on the header line. */
  datatype Hunk = Hunk(start: nat, count: nat, tail: string, body: seq<BodyLine>)

  /** Bare stands for a file without textual changes: binary, empty or only its mode changed. */
  datatype FileDiff =
    | Text(preamble: seq<string>, before: Side, after: Side, hunks: seq<Hunk>)
    | Bare(preamble: seq<string>)

  function BodyText(b: BodyLine): string {
    match b
    case Removed(text) => "-" + text
    case Added(text) => "+" + text
    case NoNewline => "\\ No newline at end of file"
  }

  function BodyTexts(body: seq<BodyLine>): (lines: seq<string>)
    ensures |lines| == |body| && forall k | 0 <= k < |body| :: lines[k] == BodyText(body[k])
  {
    seq(|body|, k requires 0 <= k < |body| => BodyText(body[k]))
  }

  /** git leaves out a count of one. */
  function HeaderText(h: Hunk): string {
    "@@ -" + Format(h.start) + CountText(if h.count == 1 then "" else Format(h.count), h.tail)
  }

  function HunkTexts(hunks: seq<Hunk>): seq<string> {
    if hunks == [] then []
    else [HeaderText(hunks[0])] + BodyTexts(hunks[0].body) + HunkTexts(hunks[1..])
  }

  function SideText(marker: string, prefix: string, side: Side): string {
    marker + if side.Absent? then DEV_NULL else prefix + side.path
  }

  function FileTexts(f: FileDiff): seq<string> {
    match f
    case Bare(preamble) => preamble
    case Text(preamble, before, after, hunks) =>
      preamble + [SideText("--- ", "a/", before), SideText("+++ ", "b/", after)] + HunkTexts(hunks)
  }

  function DiffTexts(diff: seq<FileDiff>): seq<string> {
    if diff == [] then [] else FileTexts(diff[0]) + DiffTexts(diff[1..])
  }

  function Join(lines: seq<string>): string {
    if lines == [] then "" else if |lines| == 1 then lines[0] else lines[0] + "\n" + Join(lines[1..])
  }

  function Render(diff: seq<FileDiff>): string {
    Join(DiffTexts(diff))
  }

  // ---- which diffs

  predicate HeaderLike(line: string) {
    "--- " <= line || "+++ " <= line || "@@ " <= line
  }

  predicate OneLine(s: string) {
    '\n' !in s
  }

  predicate PlainSide(s: Side) {
    s.Present? ==> s.path != "" && s.path != DEV_NULL && OneLine(s.path)
  }

  predicate Fits(h: Hunk) {
    && h.start <= MAX_INT64 && h.count <= MAX_INT64 && h.start + h.count - 1 <= MAX_INT64
    && OneLine(h.tail) && forall b <- h.body :: OneLine(BodyText(b))
  }

  predicate PlainFile(f: FileDiff) {
    && (forall line <- f.preamble :: OneLine(line) && !HeaderLike(line))
    && (f.Text? ==> PlainSide(f.before) && PlainSide(f.after) && (f.before.Present? || f.after.Present?)
                    && forall h <- f.hunks :: Fits(h))
  }

  function PathOf(f: FileDiff): string
    requires f.Text?
  {
    if f.after.Present? then f.after.path else if f.before.Present? then f.before.path else DEV_NULL
  }

  function OldPathOf(f: FileDiff): string
    requires f.Text?
  {
    if f.before.Present? then f.before.path else DEV_NULL
  }

  /** The path a diff body was last taken to announce, and the old path announced before it. */
  datatype Names = Names(oldPath: string, current: string)

  predicate LooksOld(b: BodyLine) {
    b.Removed? && "-- " <= b.text
  }

  predicate LooksNew(b: BodyLine) {
    b.Added? && "++ " <= b.text
  }

  /** Decided by the last body line that looks like a file header, and by nothing else in the body. */
  function BodyNames(names: Names, body: seq<BodyLine>): Names {
    if body == [] then names
    else
      var last := body[|body| - 1];
      var before := BodyNames(names, body[..|body| - 1]);
      if LooksOld(last) then Names(TrimPrefix(last.text[3..], "a/"), "")
      else if LooksNew(last) then
        var path := TrimPrefix(last.text[3..], "b/");
        Names(before.oldPath, if path == DEV_NULL then before.oldPath else path)
      else before
  }

  /** No body but the last leaves the scan on another path than the file's own. */
  predicate Steady(names: Names, path: string, hunks: seq<Hunk>)
    decreases |hunks|
  {
    hunks == [] ||
    (var after := BodyNames(names, hunks[0].body);
     (|hunks| > 1 ==> after.current == path) && Steady(after, path, hunks[1..]))
  }

  predicate SteadyFile(f: FileDiff) {
    f.Text? ==> Steady(Names(OldPathOf(f), PathOf(f)), PathOf(f), f.hunks)
  }

  /** No removed line starts with "-- " and no added one with "++ ". */
  predicate PlainBody(body: seq<BodyLine>) {
    forall b <- body :: (b.Removed? ==> !("-- " <= b.text)) && (b.Added? ==> !("++ " <= b.text))
  }

  // ---- what the parser should find

  function Ranges(hunks: seq<Hunk>): (r: seq<LineRange>)
    ensures |r| == |hunks|
    ensures forall k | 0 <= k < |hunks| ::
              r[k] == LineRange(hunks[k].start, if hunks[k].count == 0 then hunks[k].start
                                                else hunks[k].start + hunks[k].count - 1)
  {
    seq(|hunks|, k requires 0 <= k < |hunks| =>
      LineRange(hunks[k].start, if hunks[k].count == 0 then hunks[k].start else hunks[k].start + hunks[k].count - 1))
  }

  function FileAll(found: map<string, seq<LineRange>>, path: string, ranges: seq<LineRange>):
    map<string, seq<LineRange>>
  {
    if ranges == [] then found else found[path := (if path in found then found[path] else []) + ranges]
  }

  /** Every range under its own file's path, in order. */
  function Expected(found: map<string, seq<LineRange>>, diff: seq<FileDiff>): map<string, seq<LineRange>>
    decreases |diff|
  {
    if diff == [] then found
    else Expected(if diff[0].Text? then FileAll(found, PathOf(diff[0]), Ranges(diff[0].hunks)) else found, diff[1..])
  }

  // ---- splitting what was joined

  lemma {:induction false} LinesOfLine(line: string)
    requires OneLine(line)
    ensures Lines(line) == [line]
  {
    if line != "" {
      assert line[0] in line;
      LinesOfLine(line[1..]);
      assert [line[0]] + line[1..] == line;
    }
  }

  lemma {:induction false} LinesOfMore(line: string, rest: string)
    requires OneLine(line)
    ensures Lines(line + "\n" + rest) == [line] + Lines(rest)
  {
    var s := line + "\n" + rest;
    if line == "" {
      assert s[1..] == rest;
    } else {
      assert line[0] in line;
      LinesOfMore(line[1..], rest);
      assert s[1..] == line[1..] + "\n" + rest;
      assert s[0] == line[0] && [line[0]] + line[1..] == line;
    }
  }

  lemma {:induction false} LinesJoin(lines: seq<string>)
    requires lines != [] && forall line <- lines :: OneLine(line)
    ensures Lines(Join(lines)) == lines
  {
    if |lines| == 1 {
      LinesOfLine(lines[0]);
    } else {
      LinesJoin(lines[1..]);
      LinesOfMore(lines[0], Join(lines[1..]));
    }
  }

  // ---- reading line by line

  lemma {:induction false} ReadSplits(st: State, a: seq<string>, b: seq<string>)
    ensures ReadLines(st, a + b) ==
            match ReadLines(st, a)
            case Next(st') => ReadLines(st', b)
            case Stop(failure, line) => Stop(failure, line)
    decreases |a|
  {
    hide ReadLine;
    if a == [] {
      assert a + b == b;
    } else {
      assert (a + b)[1..] == a[1..] + b;
      var first := ReadLine(st, a[0]);
      if first.Next? {
        ReadSplits(first.state, a[1..], b);
      }
    }
  }

  lemma {:induction false} ReadPreamble(st: State, lines: seq<string>)
    requires forall line <- lines :: !HeaderLike(line)
    ensures ReadLines(st, lines) == Next(st)
    decreases |lines|
  {
    if lines != [] {
      assert lines[0] in lines && ReadLine(st, lines[0]) == Next(st);
      ReadPreamble(st, lines[1..]);
    }
  }

  lemma ReadBodyLine(st: State, b: BodyLine)
    ensures var names := BodyNames(Names(st.oldPath, st.current), [b]);
            ReadLine(st, BodyText(b)) == Next(State(names.oldPath, names.current, st.hunks))
  {
    var line := BodyText(b);
    assert line[0] == if b.Removed? then '-' else if b.Added? then '+' else '\\';
    assert "--- "[0] == '-' && "+++ "[0] == '+' && "@@ "[0] == '@';
    assert [b][..0] == [];
    if b.Removed? {
      MarkerShifted(line, b.text, "--- ", "-- ");
    } else if b.Added? {
      MarkerShifted(line, b.text, "+++ ", "++ ");
    }
  }

  /** A line starts with the marker exactly when its text starts with the marker's rest. */
  lemma MarkerShifted(line: string, text: string, marker: string, rest: string)
    requires |marker| == 4 && |rest| == 3 && marker[1..] == rest && line == [marker[0]] + text
    ensures marker <= line <==> rest <= text
    ensures marker <= line ==> line[4..] == text[3..]
  {
    assert marker == [marker[0]] + rest;
    if marker <= line {
      assert line[..4][1..] == rest && text[..3] == line[..4][1..];
    }
    if rest <= text {
      assert line[..4] == [marker[0]] + text[..3];
    }
  }

  lemma {:induction false} ReadBody(st: State, body: seq<BodyLine>)
    ensures var names := BodyNames(Names(st.oldPath, st.current), body);
            ReadLines(st, BodyTexts(body)) == Next(State(names.oldPath, names.current, st.hunks))
    decreases |body|
  {
    hide ReadLine, BodyText, LooksOld, LooksNew, TrimPrefix;
    if body != [] {
      var init, last := body[..|body| - 1], body[|body| - 1];
      ReadBody(st, init);
      var names := BodyNames(Names(st.oldPath, st.current), init);
      var mid := State(names.oldPath, names.current, st.hunks);
      ReadBodyLine(mid, last);
      assert BodyTexts(body) == BodyTexts(init) + [BodyText(last)];
      ReadSplits(st, BodyTexts(init), [BodyText(last)]);
      assert [last][..0] == [] && ReadLines(mid, [BodyText(last)]) == ReadLine(mid, BodyText(last));
    }
  }

  lemma {:induction false} LeadingDigitsOf(digits: string, rest: string)
    requires AllDigits(digits) && (rest != "" ==> !IsDigit(rest[0]))
    ensures LeadingDigits(digits + rest) == |digits|
  {
    if digits == "" {
      assert digits + rest == rest;
    } else {
      LeadingDigitsOf(digits[1..], rest);
      assert (digits + rest)[1..] == digits[1..] + rest;
      assert IsDigit(digits[0]);
    }
  }

  /** What follows the start on a header line. */
  function CountText(count: string, tail: string): string {
    (if count == "" then "" else "," + count) + " +" + tail
  }

  lemma MatchCountRendered(start: string, count: string, tail: string)
    requires AllDigits(count)
    ensures MatchCount(start, CountText(count, tail)) == Some(Numbers(start, count))
  {
    hide LeadingDigits;
    var text := CountText(count, tail);
    var end := " +" + tail;
    assert end[0] == ' ' && end[1] == '+';
    if count == "" {
      assert text == end;
    } else {
      assert text == "," + (count + end);
      assert text[0] == ',' && text[1..] == count + end;
      LeadingDigitsOf(count, end);
      assert (count + end)[..|count|] == count && (count + end)[|count|..] == end;
    }
  }

  lemma MatchRendered(start: string, count: string, tail: string)
    requires AllDigits(start) && start != "" && AllDigits(count)
    ensures MatchHeader("@@ -" + start + CountText(count, tail)) == Some(Numbers(start, count))
  {
    hide LeadingDigits, MatchCount, AllDigits;
    var rest := start + CountText(count, tail);
    var line := "@@ -" + start + CountText(count, tail);
    assert line == "@@ -" + rest && line[4..] == rest;
    assert CountText(count, tail)[0] == if count == "" then ' ' else ',';
    LeadingDigitsOf(start, CountText(count, tail));
    assert rest[..|start|] == start && rest[|start|..] == CountText(count, tail);
    MatchCountRendered(start, count, tail);
  }

  /** A line is a hunk header exactly when it is one of those; nothing else is accepted. */
  lemma MatchesIffRendered(line: string, numbers: Numbers)
    ensures MatchHeader(line) == Some(numbers) <==>
            && AllDigits(numbers.start) && numbers.start != "" && AllDigits(numbers.count)
            && exists tail :: IsHeader(line, numbers, tail)
  {
    hide MatchHeader, CountText, AllDigits;
    if tail :| IsHeader(line, numbers, tail) && AllDigits(numbers.start) && numbers.start != ""
               && AllDigits(numbers.count) {
      MatchRendered(numbers.start, numbers.count, tail);
    }
    if MatchHeader(line) == Some(numbers) {
      MatchedHeader(line, numbers);
    }
  }

  lemma MatchedHeader(line: string, numbers: Numbers)
    requires MatchHeader(line) == Some(numbers)
    ensures exists tail :: IsHeader(line, numbers, tail)
  {
    hide LeadingDigits, AllDigits, CountText, MatchCount;
    var rest := line[4..];
    var n := LeadingDigits(rest);
    var tail := MatchedCount(rest[..n], rest[n..], numbers);
    assert line == "@@ -" + rest;
    hide MatchHeader;
    assert rest == numbers.start + CountText(numbers.count, tail);
    Regrouped("@@ -", numbers.start, CountText(numbers.count, tail));
    assert IsHeader(line, numbers, tail);
  }

  lemma Regrouped(a: string, b: string, c: string)
    ensures a + (b + c) == a + b + c
  {
  }

  ghost predicate IsHeader(line: string, numbers: Numbers, tail: string) {
    line == "@@ -" + numbers.start + CountText(numbers.count, tail)
  }

  lemma MatchedCount(start: string, text: string, numbers: Numbers) returns (tail: string)
    requires MatchCount(start, text) == Some(numbers)
    ensures text == CountText(numbers.count, tail)
  {
    hide LeadingDigits, AllDigits;
    if " +" <= text {
      tail := text[2..];
      assert text == " +" + tail;
    } else {
      var rest := text[1..];
      var n := LeadingDigits(rest);
      var end := rest[n..];
      tail := end[2..];
      assert end == " +" + tail;
      assert rest == rest[..n] + end;
      assert text == "," + rest;
      Regrouped("," , rest[..n], end);
      Regrouped("," + rest[..n], " +", tail);
    }
  }

  lemma ReadRendered(st: State, h: Hunk)
    requires Fits(h) && st.current != "" && st.current != DEV_NULL
    ensures ReadLine(st, HeaderText(h)) ==
            Next(st.(hunks := File(st.hunks, st.current, Ranges([h])[0])))
  {
    hide MatchHeader, ParseInt, Format;
    FormatValue(h.start);
    FormatValue(h.count);
    ParseFormat(h.start);
    ParseFormat(h.count);
    MatchRendered(Format(h.start), if h.count == 1 then "" else Format(h.count), h.tail);
    assert HeaderText(h)[0] == '@' && HeaderText(h)[..3] == "@@ ";
  }

  lemma RejectsOutside(st: State, h: Hunk)
    requires st.current == "" || st.current == DEV_NULL
    ensures ReadLine(st, HeaderText(h)).Stop?
  {
    assert HeaderText(h)[0] == '@' && HeaderText(h)[..3] == "@@ ";
  }

  // ---- the hunks of one file

  lemma ReadHunk(st: State, hunks: seq<Hunk>)
    requires hunks != [] && Fits(hunks[0]) && st.current != "" && st.current != DEV_NULL
    ensures var names := BodyNames(Names(st.oldPath, st.current), hunks[0].body);
            ReadLines(st, HunkTexts(hunks)) ==
            ReadLines(State(names.oldPath, names.current, File(st.hunks, st.current, Ranges(hunks)[0])),
                      HunkTexts(hunks[1..]))
  {
    hide ReadLine, HeaderText, BodyNames, BodyTexts;
    var header, body, rest := HeaderText(hunks[0]), BodyTexts(hunks[0].body), HunkTexts(hunks[1..]);
    assert Ranges([hunks[0]])[0] == Ranges(hunks)[0];
    ReadRendered(st, hunks[0]);
    assert HunkTexts(hunks) == [header] + (body + rest);
    var filed := st.(hunks := File(st.hunks, st.current, Ranges(hunks)[0]));
    assert ([header] + (body + rest))[1..] == body + rest;
    ReadBody(filed, hunks[0].body);
    ReadSplits(filed, body, rest);
  }

  lemma NothingToRead(st: State, path: string)
    ensures HunkTexts([]) == [] && ReadLines(st, []) == Next(st) && FileAll(st.hunks, path, []) == st.hunks
  {
  }

  lemma FileAllSplits(found: map<string, seq<LineRange>>, path: string, first: LineRange, rest: seq<LineRange>)
    ensures FileAll(File(found, path, first), path, rest) == FileAll(found, path, [first] + rest)
  {
    var before := if path in found then found[path] else [];
    assert before + [first] + rest == before + ([first] + rest);
    var filed := File(found, path, first);
    assert filed[path] == before + [first];
    assert found[path := before + [first]][path := before + [first] + rest] == found[path := before + [first] + rest];
    if rest == [] {
      assert before + [first] + rest == before + [first];
    }
  }

  lemma {:induction false} ReadHunks(st: State, path: string, hunks: seq<Hunk>)
    requires path != "" && path != DEV_NULL && (hunks != [] ==> st.current == path)
    requires (forall h <- hunks :: Fits(h)) && Steady(Names(st.oldPath, st.current), path, hunks)
    ensures var r := ReadLines(st, HunkTexts(hunks));
            r.Next? && r.state.hunks == FileAll(st.hunks, path, Ranges(hunks))
    decreases |hunks|
  {
    hide BodyNames, Fits, ReadLines, HunkTexts, File, FileAll;
    if hunks == [] {
      assert HunkTexts(hunks) == [] && ReadLines(st, []) == Next(st) && FileAll(st.hunks, path, []) == st.hunks by {
        NothingToRead(st, path);
      }
    } else {
      ReadHunk(st, hunks);
      var names := BodyNames(Names(st.oldPath, st.current), hunks[0].body);
      var filed := File(st.hunks, path, Ranges(hunks)[0]);
      ReadHunks(State(names.oldPath, names.current, filed), path, hunks[1..]);
      assert Ranges(hunks) == [Ranges(hunks)[0]] + Ranges(hunks[1..]);
      FileAllSplits(st.hunks, path, Ranges(hunks)[0], Ranges(hunks[1..]));
    }
  }

  lemma ReadSides(st: State, f: FileDiff)
    requires f.Text? && PlainFile(f)
    ensures ReadLines(st, [SideText("--- ", "a/", f.before), SideText("+++ ", "b/", f.after)]) ==
            Next(State(OldPathOf(f), PathOf(f), st.hunks))
  {
    hide SideText, TrimPrefix;
    var minus, plus := SideText("--- ", "a/", f.before), SideText("+++ ", "b/", f.after);
    SideRead("--- ", "a/", f.before);
    SideRead("+++ ", "b/", f.after);
    assert minus[0] == '-' && plus[0] == '+';
    var between := State(OldPathOf(f), "", st.hunks);
    assert ReadLine(st, minus) == Next(between);
    assert ReadLine(between, plus) == Next(State(OldPathOf(f), PathOf(f), st.hunks));
    hide ReadLine;
    assert [minus, plus][1..] == [plus];
    assert ReadLines(between, [plus]) == Next(State(OldPathOf(f), PathOf(f), st.hunks));
  }

  lemma SideRead(marker: string, prefix: string, side: Side)
    requires |prefix| == 2 && prefix[1] == '/' && prefix[0] != '/' && PlainSide(side)
    ensures marker <= SideText(marker, prefix, side)
    ensures TrimPrefix(TrimPrefix(SideText(marker, prefix, side), marker), prefix) ==
            if side.Absent? then DEV_NULL else side.path
  {
    var line := SideText(marker, prefix, side);
    assert line[|marker|..] == if side.Absent? then DEV_NULL else prefix + side.path;
  }

  lemma ReadFileHeader(st: State, f: FileDiff)
    requires f.Text? && PlainFile(f)
    ensures ReadLines(st, FileTexts(f)) == ReadLines(State(OldPathOf(f), PathOf(f), st.hunks), HunkTexts(f.hunks))
  {
    hide ReadLine, SideText, HunkTexts, ReadLines;
    var sides := [SideText("--- ", "a/", f.before), SideText("+++ ", "b/", f.after)];
    ReadSplits(st, f.preamble + sides, HunkTexts(f.hunks));
    ReadSplits(st, f.preamble, sides);
    ReadPreamble(st, f.preamble);
    ReadSides(st, f);
  }

  lemma ReadFile(st: State, f: FileDiff)
    requires PlainFile(f) && SteadyFile(f)
    ensures var r := ReadLines(st, FileTexts(f));
            r.Next? && r.state.hunks == Expected(st.hunks, [f])
  {
    hide ReadLine, HunkTexts, ReadLines, Steady, Fits;
    assert [f][1..] == [];
    match f
    case Bare(preamble) => ReadPreamble(st, preamble);
    case Text(_, _, _, hunks) =>
      ReadFileHeader(st, f);
      ReadHunks(State(OldPathOf(f), PathOf(f), st.hunks), PathOf(f), hunks);
  }

  lemma {:induction false} ReadDiff(st: State, diff: seq<FileDiff>)
    requires forall f <- diff :: PlainFile(f) && SteadyFile(f)
    ensures var r := ReadLines(st, DiffTexts(diff));
            r.Next? && r.state.hunks == Expected(st.hunks, diff)
    decreases |diff|
  {
    hide FileTexts, PlainFile, SteadyFile;
    if diff != [] {
      ReadFile(st, diff[0]);
      assert [diff[0]][1..] == [];
      ReadSplits(st, FileTexts(diff[0]), DiffTexts(diff[1..]));
      ReadDiff(ReadLines(st, FileTexts(diff[0])).state, diff[1..]);
    }
  }

  // ---- the text as a whole

  lemma OneLineConcat(a: string, b: string)
    requires OneLine(a) && OneLine(b)
    ensures OneLine(a + b)
  {
  }

  lemma DigitsOneLine(n: nat)
    ensures OneLine(Format(n))
  {
    FormatValue(n);
  }

  lemma HeaderOneLine(h: Hunk)
    requires OneLine(h.tail)
    ensures OneLine(HeaderText(h))
  {
    hide OneLine;
    var count := if h.count == 1 then "" else Format(h.count);
    assert OneLine("@@ -") && OneLine("") && OneLine(",") && OneLine(" +") by {
      ShortOneLine();
    }
    DigitsOneLine(h.start);
    DigitsOneLine(h.count);
    OneLineConcat(",", count);
    OneLineConcat(if count == "" then "" else "," + count, " +");
    OneLineConcat((if count == "" then "" else "," + count) + " +", h.tail);
    OneLineConcat("@@ -", Format(h.start));
    OneLineConcat("@@ -" + Format(h.start), CountText(count, h.tail));
  }

  lemma ShortOneLine()
    ensures OneLine("@@ -") && OneLine("") && OneLine(",") && OneLine(" +")
  {
  }

  lemma {:induction false} HunkTextsOneLine(hunks: seq<Hunk>)
    requires forall h <- hunks :: Fits(h)
    ensures forall line <- HunkTexts(hunks) :: OneLine(line)
  {
    hide OneLine, HeaderText, BodyText;
    if hunks != [] {
      var h := hunks[0];
      assert Fits(h);
      HunkTextsOneLine(hunks[1..]);
      HeaderOneLine(h);
      forall line | line in BodyTexts(h.body)
        ensures OneLine(line)
      {
        var k :| 0 <= k < |h.body| && BodyTexts(h.body)[k] == line;
        assert h.body[k] in h.body && OneLine(BodyText(h.body[k]));
      }
    }
  }

  lemma FileTextsOneLine(f: FileDiff)
    requires PlainFile(f)
    ensures forall line <- FileTexts(f) :: OneLine(line)
  {
    hide Fits, HunkTexts, OneLine;
    if f.Text? {
      HunkTextsOneLine(f.hunks);
      SideOneLine("--- ", "a/", f.before);
      SideOneLine("+++ ", "b/", f.after);
    }
  }

  lemma SideOneLine(marker: string, prefix: string, side: Side)
    requires OneLine(marker) && OneLine(prefix) && PlainSide(side)
    ensures OneLine(SideText(marker, prefix, side))
  {
  }

  lemma {:induction false} DiffTextsOneLine(diff: seq<FileDiff>)
    requires forall f <- diff :: PlainFile(f)
    ensures forall line <- DiffTexts(diff) :: OneLine(line)
  {
    hide PlainFile, FileTexts, OneLine;
    if diff != [] {
      DiffTextsOneLine(diff[1..]);
      FileTextsOneLine(diff[0]);
    }
  }

  lemma ParseIsRead(diff: seq<FileDiff>)
    requires forall f <- diff :: PlainFile(f)
    ensures Parse(Render(diff)) == match ReadLines(START, DiffTexts(diff))
                                   case Next(st) => Parsed(st.hunks)
                                   case Stop(failure, line) => Rejected(failure, line)
  {
    hide ReadLine, PlainFile, DiffTexts;
    if DiffTexts(diff) == [] {
      assert Lines("") == [""];
      ReadPreamble(START, [""]);
    } else {
      DiffTextsOneLine(diff);
      LinesJoin(DiffTexts(diff));
    }
  }

  /** Reading a printed diff gives back every base-side range under its own file's path, in order. */
  lemma RoundTrip(diff: seq<FileDiff>)
    requires forall f <- diff :: PlainFile(f) && SteadyFile(f)
    ensures Parse(Render(diff)) == Parsed(Expected(map[], diff))
  {
    hide ReadLines, PlainFile, SteadyFile, Expected, Render, Parse;
    ParseIsRead(diff);
    ReadDiff(START, diff);
  }

  // ---- bodies that look like headers

  lemma {:induction false} PlainBodyKeeps(names: Names, body: seq<BodyLine>)
    requires PlainBody(body)
    ensures BodyNames(names, body) == names
    decreases |body|
  {
    if body != [] {
      assert body[|body| - 1] in body;
      PlainBodyKeeps(names, body[..|body| - 1]);
    }
  }

  /** Plain bodies never confuse the scan. */
  lemma {:induction false} PlainIsSteady(names: Names, hunks: seq<Hunk>)
    requires forall h <- hunks :: PlainBody(h.body)
    ensures Steady(names, names.current, hunks)
    decreases |hunks|
  {
    hide BodyNames, PlainBody;
    if hunks != [] {
      PlainBodyKeeps(names, hunks[0].body);
      PlainIsSteady(names, hunks[1..]);
    }
  }

  /** So every diff with plain bodies makes the round trip. */
  lemma PlainRoundTrip(diff: seq<FileDiff>)
    requires forall f <- diff :: PlainFile(f) && (f.Text? ==> forall h <- f.hunks :: PlainBody(h.body))
    ensures Parse(Render(diff)) == Parsed(Expected(map[], diff))
  {
    hide PlainFile, PlainBody, Steady, Parse, Render, Expected;
    forall f | f in diff
      ensures SteadyFile(f)
    {
      if f.Text? {
        PlainIsSteady(Names(OldPathOf(f), PathOf(f)), f.hunks);
      }
    }
    RoundTrip(diff);
  }

  lemma {:induction false} KeysStay(st: State, lines: seq<string>, path: string)
    requires path in st.hunks && ReadLines(st, lines).Next?
    ensures path in ReadLines(st, lines).state.hunks
    decreases |lines|
  {
    hide MatchHeader, ParseInt, TrimPrefix;
    if lines != [] {
      KeysStay(ReadLine(st, lines[0]).state, lines[1..], path);
    }
  }

  lemma {:induction false} ReadUnsteady(st: State, path: string, hunks: seq<Hunk>)
    requires path != "" && path != DEV_NULL && st.current == path
    requires (forall h <- hunks :: Fits(h)) && !Steady(Names(st.oldPath, st.current), path, hunks)
    ensures var r := ReadLines(st, HunkTexts(hunks));
            r.Next? ==> exists other <- r.state.hunks :: other != path
    decreases |hunks|
  {
    hide BodyNames, Fits, ReadLine;
    ReadHunk(st, hunks);
    var names := BodyNames(Names(st.oldPath, st.current), hunks[0].body);
    var rest := hunks[1..];
    var next := State(names.oldPath, names.current, File(st.hunks, path, Ranges(hunks)[0]));
    if names.current == path {
      ReadUnsteady(next, path, rest);
    } else if names.current == "" || names.current == DEV_NULL {
      RejectsOutside(next, rest[0]);
    } else {
      ReadHunk(next, rest);
      var names' := BodyNames(names, rest[0].body);
      var filed := State(names'.oldPath, names'.current, File(next.hunks, names.current, Ranges(rest)[0]));
      if ReadLines(filed, HunkTexts(rest[1..])).Next? {
        KeysStay(filed, HunkTexts(rest[1..]), names.current);
      }
    }
  }

  /** For one file the round trip holds exactly when no body but the last leaves the scan on another path. */
  lemma FileRoundTripIffSteady(f: FileDiff)
    requires f.Text? && PlainFile(f)
    ensures Parse(Render([f])) == Parsed(Expected(map[], [f])) <==> SteadyFile(f)
  {
    hide ReadLines, ReadLine, Render, Parse, Steady, Fits, HunkTexts, FileTexts;
    if SteadyFile(f) {
      RoundTrip([f]);
    } else {
      ParseIsRead([f]);
      assert [f][1..] == [] && DiffTexts([f]) == FileTexts(f) + [] == FileTexts(f);
      ReadFileHeader(START, f);
      ReadUnsteady(State(OldPathOf(f), PathOf(f), map[]), PathOf(f), f.hunks);
      assert [f][1..] == [] && Expected(map[], [f]) == FileAll(map[], PathOf(f), Ranges(f.hunks));
      assert forall other <- Expected(map[], [f]) :: other == PathOf(f);
    }
  }

  /**
   * Removing a line that starts with "-- ", such as an SQL comment, ahead of another change to the same
   * file makes the whole diff unreadable.
   */
  lemma RemovedCommentRejected(f: FileDiff, text: string)
    requires f.Text? && PlainFile(f) && |f.hunks| >= 2 && f.hunks[0].body == [Removed("-- " + text)]
    ensures Parse(Render([f])) == Rejected(BeforeFileHeader, HeaderText(f.hunks[1]))
  {
    hide ReadLine, Render, Parse, Fits, FileTexts, HeaderText, HunkTexts, ReadLines;
    ParseIsRead([f]);
    assert [f][1..] == [] && DiffTexts([f]) == FileTexts(f) + [] == FileTexts(f);
    ReadFileHeader(START, f);
    var st := State(OldPathOf(f), PathOf(f), map[]);
    assert Fits(f.hunks[0]);
    ReadHunk(st, f.hunks);
    CommentClears(Names(OldPathOf(f), PathOf(f)), text);
    var names := BodyNames(Names(OldPathOf(f), PathOf(f)), f.hunks[0].body);
    HeaderOutside(State(names.oldPath, names.current, File(map[], PathOf(f), Ranges(f.hunks)[0])), f.hunks[1..]);
  }

  lemma CommentClears(names: Names, text: string)
    ensures BodyNames(names, [Removed("-- " + text)]).current == ""
  {
  }

  lemma HeaderOutside(st: State, hunks: seq<Hunk>)
    requires hunks != [] && st.current == ""
    ensures ReadLines(st, HunkTexts(hunks)) == Stop(BeforeFileHeader, HeaderText(hunks[0]))
  {
    assert HeaderText(hunks[0])[0] == '@' && HeaderText(hunks[0])[..3] == "@@ ";
  }

  // ---- ordered ranges

  ghost predicate Ordered(hunks: map<string, seq<LineRange>>) {
    forall path <- hunks, r <- hunks[path] :: r.start <= r.end
  }

  /** Start and count of a header, as far as they parse, end within 64 bits. */
  predicate EndsInRange(line: string) {
    match MatchHeader(line)
    case None => true
    case Some(numbers) =>
      var start := ParseInt(numbers.start);
      var count := if numbers.count == "" then Some(1) else ParseInt(numbers.count);
      start.Some? && count.Some? ==> start.value + count.value - 1 <= MAX_INT64
  }

  lemma DigitsNotNegative(s: string)
    requires AllDigits(s)
    ensures ParseInt(s).Some? ==> 0 <= ParseInt(s).value <= MAX_INT64
  {
    if s != "" {
      assert s[0] in s;
    }
  }

  lemma ReadOrdered(st: State, line: string)
    requires Ordered(st.hunks) && ReadLine(st, line).Next? && EndsInRange(line)
    ensures Ordered(ReadLine(st, line).state.hunks)
  {
    hide MatchHeader, ParseInt, TrimPrefix, AllDigits;
    if MatchHeader(line).Some? {
      DigitsNotNegative(MatchHeader(line).value.start);
      DigitsNotNegative(MatchHeader(line).value.count);
    }
  }

  lemma {:induction false} AllOrdered(st: State, lines: seq<string>)
    requires Ordered(st.hunks) && ReadLines(st, lines).Next? && forall line <- lines :: EndsInRange(line)
    ensures Ordered(ReadLines(st, lines).state.hunks)
    decreases |lines|
  {
    hide ReadLine, EndsInRange, Ordered;
    if lines != [] {
      assert lines[0] in lines;
      ReadOrdered(st, lines[0]);
      AllOrdered(ReadLine(st, lines[0]).state, lines[1..]);
    }
  }

  /** Whatever text is read, every range it yields is well formed if its header's numbers are. */
  lemma ParsedRangesOrdered(out: string)
    requires Parse(out).Parsed? && forall line <- Lines(out) :: EndsInRange(line)
    ensures Ordered(Parse(out).hunks)
  {
    hide ReadLine, EndsInRange, Lines;
    AllOrdered(START, Lines(out));
  }
}
