/** `CodeAnalyzer._parse_diff`: reads the unified-diff text of one file and
    returns its changed sections (hunks). A line of the form
    `@@ -<old start>[,<old count>] +<new start>[,<new count>] @@<text>`
    (the hunk-header form of unified diffs) opens a hunk; the lines that
    follow it and begin with '+', '-' or ' ' are its body; a hunk is emitted
    when the next header or the end of the text is reached, and only if its
    body is not empty. Text before the first header is ignored. */
module DiffParser {
  import opened Wrappers
  import opened Text

  /** The numbers and the trailing text of one hunk-header line. */
  datatype HunkHeader = HunkHeader(oldStart: nat, oldCount: nat, newStart: nat, newCount: nat, tail: string)

  /** One changed section as `_parse_diff` records it. */
  datatype Hunk = Hunk(oldStart: nat, oldCount: nat, newStart: nat, newCount: nat,
                       header: string, snippet: Option<string>)

  /** The `max_snippet_length` and `include_snippets` settings. */
  datatype SnippetSettings = SnippetSettings(maxLength: nat, enabled: bool)

  /* ----------------------------------------------------------------------
     Hunk-header lines: `@@ -(\d+),?(\d*) \+(\d+),?(\d*) @@(.*)`, matched at
     the start of the line
     ---------------------------------------------------------------------- */

  /** `(\d+)`: a non-empty run of digits, its value and the text after it. */
  function ReadNumber(s: string): Option<(nat, string)> {
    var k := DigitSpan(s);
    if k == 0 then None else Some((DigitsValue(s[..k]), s[k..]))
  }

  /** `,?(\d*)`: an optional comma and a possibly empty run of digits; an
      empty run stands for a count of 1. */
  function ReadCount(s: string): (nat, string) {
    var t := if |s| > 0 && s[0] == ',' then s[1..] else s;
    var k := DigitSpan(t);
    (if k == 0 then 1 else DigitsValue(t[..k]), t[k..])
  }

  /** The match of the hunk-header pattern at the start of `line`, if any.
      Greedy digit runs make the match unique, so backtracking never yields
      a different reading. */
  function ParseHunkHeader(line: string): Option<HunkHeader> {
    if StartsWith(line, "@@ -") then ParseOldRange(line[4..]) else None
  }

  /** `(\d+),?(\d*)` for the old range, then the rest of the header. */
  function ParseOldRange(s: string): Option<HunkHeader> {
    match ReadNumber(s)
    case None => None
    case Some(start) =>
      var count := ReadCount(start.1);
      ParseNewRange(start.0, count.0, count.1)
  }

  /** ` \+` and then the new range. */
  function ParseNewRange(oldStart: nat, oldCount: nat, s: string): Option<HunkHeader> {
    if StartsWith(s, " +") then ParseNewNumbers(oldStart, oldCount, s[2..]) else None
  }

  /** `(\d+),?(\d*)` for the new range, then the rest of the header. */
  function ParseNewNumbers(oldStart: nat, oldCount: nat, s: string): Option<HunkHeader> {
    match ReadNumber(s)
    case None => None
    case Some(start) =>
      var count := ReadCount(start.1);
      ParseHeaderEnd(oldStart, oldCount, start.0, count.0, count.1)
  }

  /** ` @@(.*)`: the closing marker and the text after it. */
  function ParseHeaderEnd(oldStart: nat, oldCount: nat, newStart: nat, newCount: nat, s: string): Option<HunkHeader> {
    if StartsWith(s, " @@") then Some(HunkHeader(oldStart, oldCount, newStart, newCount, s[3..])) else None
  }

  /** The header line a diff tool writes for `h`, with both counts. */
  function HeaderLine(h: HunkHeader): string {
    "@@ -" + NatToString(h.oldStart) + "," + NatToString(h.oldCount)
    + " +" + NatToString(h.newStart) + "," + NatToString(h.newCount) + " @@" + h.tail
  }

  /** The header line with both counts omitted. */
  function ShortHeaderLine(oldStart: nat, newStart: nat, tail: string): string {
    "@@ -" + NatToString(oldStart) + " +" + NatToString(newStart) + " @@" + tail
  }

  /* ----------------------------------------------------------------------
     Hunk records and snippets
     ---------------------------------------------------------------------- */

  predicate IsBodyLine(line: string) {
    |line| > 0 && (line[0] == '+' || line[0] == '-' || line[0] == ' ')
  }

  predicate IsHeaderLine(line: string) {
    ParseHunkHeader(line).Some?
  }

  /** The body lines joined with newlines; when longer than `maxLength`, its
      first `maxLength` characters followed by "...". */
  function Snippet(body: seq<string>, maxLength: nat): (r: string)
    ensures |r| <= maxLength + 3
    ensures |Join("\n", body)| <= maxLength ==> r == Join("\n", body)
    ensures |Join("\n", body)| > maxLength ==>
              |r| == maxLength + 3 && r[..maxLength] == Join("\n", body)[..maxLength] && r[maxLength..] == "..."
  {
    var text := Join("\n", body);
    if |text| > maxLength then text[..maxLength] + "..." else text
  }

  /** The record for a hunk with header `h` and body `body`; the header text
      is stripped, the snippet left out when snippets are disabled. */
  function MakeHunk(h: HunkHeader, body: seq<string>, settings: SnippetSettings): Hunk {
    Hunk(h.oldStart, h.oldCount, h.newStart, h.newCount, Strip(h.tail),
         if settings.enabled then Some(Snippet(body, settings.maxLength)) else None)
  }

  /** The hunk for `h`, if its body is not empty. */
  function Emit(h: HunkHeader, body: seq<string>, settings: SnippetSettings): seq<Hunk> {
    if body == [] then [] else [MakeHunk(h, body, settings)]
  }

  /* ----------------------------------------------------------------------
     The scan, one line at a time: `current_hunk`, `hunk_lines` and
     `changed_sections`
     ---------------------------------------------------------------------- */

  datatype ScanState = ScanState(current: Option<HunkHeader>, body: seq<string>, hunks: seq<Hunk>)

  const Start := ScanState(None, [], [])

  /** The hunks known once the scan stops here: the open hunk is emitted if
      it has a body. */
  function Close(st: ScanState, settings: SnippetSettings): seq<Hunk> {
    if st.current.Some? && st.body != [] then st.hunks + [MakeHunk(st.current.value, st.body, settings)]
    else st.hunks
  }

  /** One iteration of the loop over lines. */
  function Step(st: ScanState, line: string, settings: SnippetSettings): ScanState {
    match ParseHunkHeader(line)
    case Some(h) => ScanState(Some(h), [], Close(st, settings))
    case None => if st.current.Some? && IsBodyLine(line) then st.(body := st.body + [line]) else st
  }

  function Scan(st: ScanState, lines: seq<string>, settings: SnippetSettings): ScanState
    decreases |lines|
  {
    if lines == [] then st else Scan(Step(st, lines[0], settings), lines[1..], settings)
  }

  /** The hunks of a diff already split into lines. */
  function HunksOfLines(lines: seq<string>, settings: SnippetSettings): seq<Hunk> {
    Close(Scan(Start, lines, settings), settings)
  }

  /** The hunks of a diff text, split at '\n' as `diff_output.split('\n')`. */
  function HunksOf(diffText: string, settings: SnippetSettings): seq<Hunk> {
    HunksOfLines(Split(diffText, '\n'), settings)
  }

  /** `_parse_diff`. */
  method ParseDiff(diffText: string, settings: SnippetSettings) returns (changedSections: seq<Hunk>)
    ensures changedSections == HunksOf(diffText, settings)
  {
    var lines := Split(diffText, '\n');
    changedSections := [];
    var currentHunk: Option<HunkHeader> := None;
    var hunkLines: seq<string> := [];
    var i := 0;
    while i < |lines|
      invariant 0 <= i <= |lines|
      invariant Scan(ScanState(currentHunk, hunkLines, changedSections), lines[i..], settings)
                == Scan(Start, lines, settings)
    {
      var line := lines[i];
      assert lines[i..][1..] == lines[i + 1..];
      var m := ParseHunkHeader(line);
      if m.Some? {
        if currentHunk.Some? && hunkLines != [] {
          changedSections := changedSections + [MakeHunk(currentHunk.value, hunkLines, settings)];
        }
        currentHunk := m;
        hunkLines := [];
      } else if currentHunk.Some? {
        if IsBodyLine(line) {
          hunkLines := hunkLines + [line];
        }
      }
      i := i + 1;
    }
    if currentHunk.Some? && hunkLines != [] {
      changedSections := changedSections + [MakeHunk(currentHunk.value, hunkLines, settings)];
    }
  }

  /* ----------------------------------------------------------------------
     Reference definition: one segment per header line
     ---------------------------------------------------------------------- */

  /** The index of the first header line, or |lines| if there is none. */
  function NextHeader(lines: seq<string>): (k: nat)
    ensures k <= |lines|
    decreases |lines|
  {
    if lines == [] then 0
    else if IsHeaderLine(lines[0]) then 0
    else 1 + NextHeader(lines[1..])
  }

  /** The lines that begin with '+', '-' or ' ', in order. */
  function BodyLines(lines: seq<string>): seq<string>
    decreases |lines|
  {
    if lines == [] then []
    else (if IsBodyLine(lines[0]) then [lines[0]] else []) + BodyLines(lines[1..])
  }

  /** Hunks read segment by segment: lines before a header are skipped; a
      header line owns the body lines up to the next header and yields a hunk
      when it owns at least one. */
  function Segments(lines: seq<string>, settings: SnippetSettings): seq<Hunk>
    decreases |lines|
  {
    if lines == [] then []
    else
      match ParseHunkHeader(lines[0])
      case None => Segments(lines[1..], settings)
      case Some(h) =>
        var k := 1 + NextHeader(lines[1..]);
        Emit(h, BodyLines(lines[1..k]), settings) + Segments(lines[k..], settings)
  }

  /** The number of header lines. */
  function HeaderCount(lines: seq<string>): nat
    decreases |lines|
  {
    if lines == [] then 0 else (if IsHeaderLine(lines[0]) then 1 else 0) + HeaderCount(lines[1..])
  }

  /** A line that can change the result: a header or a body line. */
  predicate Relevant(line: string) {
    IsHeaderLine(line) || IsBodyLine(line)
  }

  function RelevantLines(lines: seq<string>): seq<string>
    decreases |lines|
  {
    if lines == [] then []
    else (if Relevant(lines[0]) then [lines[0]] else []) + RelevantLines(lines[1..])
  }

  /* ----------------------------------------------------------------------
     Lemmas: header lines
     ---------------------------------------------------------------------- */

  lemma ReadNumberOf(n: nat, rest: string)
    requires rest == [] || !IsDigit(rest[0])
    ensures ReadNumber(NatToString(n) + rest) == Some((n, rest))
  {
    var d := NatToString(n);
    DigitSpanOf(d, rest);
    assert (d + rest)[..|d|] == d;
    assert (d + rest)[|d|..] == rest;
    NatToStringValue(n);
  }

  lemma ReadCountOf(n: nat, rest: string)
    requires rest == [] || !IsDigit(rest[0])
    ensures ReadCount("," + NatToString(n) + rest) == (n, rest)
  {
    var d := NatToString(n);
    assert ("," + d + rest)[1..] == d + rest;
    DigitSpanOf(d, rest);
    assert (d + rest)[..|d|] == d;
    assert (d + rest)[|d|..] == rest;
    NatToStringValue(n);
  }

  lemma ReadCountOmitted(rest: string)
    requires rest == [] || (rest[0] != ',' && !IsDigit(rest[0]))
    ensures ReadCount(rest) == (1, rest)
  {
    DigitSpanOf([], rest);
    assert [] + rest == rest;
  }

  lemma HeaderEndOf(a: nat, b: nat, c: nat, d: nat, tail: string)
    ensures ParseHeaderEnd(a, b, c, d, " @@" + tail) == Some(HunkHeader(a, b, c, d, tail))
  {
    assert (" @@" + tail)[..3] == " @@";
    assert (" @@" + tail)[3..] == tail;
  }

  lemma NewNumbersOf(a: nat, b: nat, c: nat, rest: string)
    requires rest == [] || !IsDigit(rest[0])
    ensures ParseNewNumbers(a, b, NatToString(c) + rest)
            == ParseHeaderEnd(a, b, c, ReadCount(rest).0, ReadCount(rest).1)
  {
    ReadNumberOf(c, rest);
  }

  lemma NewRangeOf(a: nat, b: nat, c: nat, rest: string)
    requires rest == [] || !IsDigit(rest[0])
    ensures ParseNewRange(a, b, " +" + (NatToString(c) + rest))
            == ParseHeaderEnd(a, b, c, ReadCount(rest).0, ReadCount(rest).1)
  {
    var t := NatToString(c) + rest;
    assert (" +" + t)[..2] == " +";
    assert (" +" + t)[2..] == t;
    NewNumbersOf(a, b, c, rest);
  }

  lemma OldRangeOf(a: nat, rest: string)
    requires rest == [] || !IsDigit(rest[0])
    ensures ParseOldRange(NatToString(a) + rest) == ParseNewRange(a, ReadCount(rest).0, ReadCount(rest).1)
  {
    ReadNumberOf(a, rest);
  }

  lemma HeaderStartOf(rest: string)
    ensures ParseHunkHeader("@@ -" + rest) == ParseOldRange(rest)
  {
    assert ("@@ -" + rest)[..4] == "@@ -";
    assert ("@@ -" + rest)[4..] == rest;
  }

  /** A header line written with both counts is read back as written. */
  lemma HeaderRoundTrip(h: HunkHeader)
    ensures ParseHunkHeader(HeaderLine(h)) == Some(h)
  {
    var r4 := " @@" + h.tail;
    var r3 := "," + NatToString(h.newCount) + r4;
    var r2 := " +" + (NatToString(h.newStart) + r3);
    var r1 := "," + NatToString(h.oldCount) + r2;
    assert HeaderLine(h) == "@@ -" + (NatToString(h.oldStart) + r1);
    HeaderStartOf(NatToString(h.oldStart) + r1);
    OldRangeOf(h.oldStart, r1);
    ReadCountOf(h.oldCount, r2);
    NewRangeOf(h.oldStart, h.oldCount, h.newStart, r3);
    ReadCountOf(h.newCount, r4);
    HeaderEndOf(h.oldStart, h.oldCount, h.newStart, h.newCount, h.tail);
  }

  /** Omitted counts are read as 1. */
  lemma OmittedCountsAreOne(oldStart: nat, newStart: nat, tail: string)
    ensures ParseHunkHeader(ShortHeaderLine(oldStart, newStart, tail))
            == Some(HunkHeader(oldStart, 1, newStart, 1, tail))
  {
    var r4 := " @@" + tail;
    var r2 := " +" + (NatToString(newStart) + r4);
    assert ShortHeaderLine(oldStart, newStart, tail) == "@@ -" + (NatToString(oldStart) + r2);
    HeaderStartOf(NatToString(oldStart) + r2);
    OldRangeOf(oldStart, r2);
    assert r2[0] == ' ';
    ReadCountOmitted(r2);
    NewRangeOf(oldStart, 1, newStart, r4);
    assert r4[0] == ' ';
    ReadCountOmitted(r4);
    HeaderEndOf(oldStart, 1, newStart, 1, tail);
  }

  /** A typical header line: both ranges are read, and the function name
      after the closing marker is kept as the header text. */
  lemma ExampleHeader()
    ensures ParseHunkHeader("@@ -10,3 +10,4 @@ funcName") == Some(HunkHeader(10, 3, 10, 4, " funcName"))
  {
    var h := HunkHeader(10, 3, 10, 4, " funcName");
    assert NatToString(10) == "10" by {
      assert NatToString(10) == NatToString(1) + [DigitChar(0)];
    }
    assert HeaderLine(h) == "@@ -10,3 +10,4 @@ funcName";
    HeaderRoundTrip(h);
  }

  /** The header text of that hunk is the bare function name. */
  lemma ExampleHeaderText()
    ensures Strip(" funcName") == "funcName"
  {
    var name, s := "funcName", " funcName";
    assert IsSpace(s[0]) && s[1..] == name && !IsSpace(name[0]);
    assert LeadingSpaces(s) == 1;
    assert !IsSpace(s[|s| - 1]);
    assert s[1..9] == name;
  }

  /** A body line never reads as a header line. */
  lemma BodyLineIsNoHeader(line: string)
    requires IsBodyLine(line)
    ensures !IsHeaderLine(line)
  {
    assert !StartsWith(line, "@@ -") by {
      if |line| >= 4 {
        assert line[..4][0] == line[0];
      }
    }
  }

  /* ----------------------------------------------------------------------
     Lemmas: the scan equals the segment reading
     ---------------------------------------------------------------------- */

  /** A reachable scan state: no body is collected outside a hunk. */
  predicate Tidy(st: ScanState) {
    st.current.None? ==> st.body == []
  }

  /** What the scan still emits from `st` over `lines`, in segment terms. */
  function Pending(st: ScanState, lines: seq<string>, settings: SnippetSettings): seq<Hunk> {
    match st.current
    case None => Segments(lines, settings)
    case Some(h) =>
      var k := NextHeader(lines);
      Emit(h, st.body + BodyLines(lines[..k]), settings) + Segments(lines[k..], settings)
  }

  lemma BodyLinesCons(line: string, rest: seq<string>)
    ensures BodyLines([line] + rest) == (if IsBodyLine(line) then [line] else []) + BodyLines(rest)
  {
    assert ([line] + rest)[1..] == rest;
  }

  /** The segment reading at a header line: the body up to the next header
      line, then the segments from there. */
  lemma SegmentsAt(lines: seq<string>, settings: SnippetSettings)
    requires lines != [] && IsHeaderLine(lines[0])
    ensures var rest := lines[1..];
            Segments(lines, settings)
            == Emit(ParseHunkHeader(lines[0]).value, BodyLines(rest[..NextHeader(rest)]), settings)
               + Segments(rest[NextHeader(rest)..], settings)
  {
    var rest := lines[1..];
    var k := NextHeader(rest);
    assert lines[1..1 + k] == rest[..k];
    assert lines[1 + k..] == rest[k..];
  }

  /** The segment reading at a header line is what an open hunk with an
      empty body still emits. */
  lemma SegmentsAtHeader(lines: seq<string>, h: HunkHeader, hunks: seq<Hunk>, settings: SnippetSettings)
    requires lines != [] && ParseHunkHeader(lines[0]) == Some(h)
    ensures Segments(lines, settings) == Pending(ScanState(Some(h), [], hunks), lines[1..], settings)
  {
    SegmentsAt(lines, settings);
    var rest := lines[1..];
    var k := NextHeader(rest);
    assert [] + BodyLines(rest[..k]) == BodyLines(rest[..k]);
  }

  lemma PendingBeforeHeader(st: ScanState, lines: seq<string>, settings: SnippetSettings)
    requires st.current.Some? && NextHeader(lines) == 0
    ensures Pending(st, lines, settings) == Emit(st.current.value, st.body, settings) + Segments(lines, settings)
  {
    assert lines[..0] == [] && lines[0..] == lines;
    assert st.body + [] == st.body;
  }

  lemma CloseOpen(st: ScanState, settings: SnippetSettings)
    requires st.current.Some?
    ensures Close(st, settings) == st.hunks + Emit(st.current.value, st.body, settings)
  {
    assert st.hunks + [] == st.hunks;
  }

  lemma SeqAssoc(a: seq<Hunk>, b: seq<Hunk>, c: seq<Hunk>)
    ensures a + (b + c) == a + b + c
  {
  }

  /** Before a header line the open hunk is closed. */
  lemma PendingBeforeHeaderClosed(st: ScanState, lines: seq<string>, settings: SnippetSettings)
    requires Tidy(st) && NextHeader(lines) == 0
    ensures st.hunks + Pending(st, lines, settings) == Close(st, settings) + Segments(lines, settings)
  {
    if st.current.Some? {
      PendingBeforeHeader(st, lines, settings);
      CloseOpen(st, settings);
      SeqAssoc(st.hunks, Emit(st.current.value, st.body, settings), Segments(lines, settings));
    }
  }

  /** At a header line the open hunk is closed. */
  lemma PendingAtHeader(st: ScanState, lines: seq<string>, settings: SnippetSettings)
    requires Tidy(st) && lines != [] && IsHeaderLine(lines[0])
    ensures st.hunks + Pending(st, lines, settings) == Close(st, settings) + Segments(lines, settings)
  {
    assert NextHeader(lines) == 0;
    PendingBeforeHeaderClosed(st, lines, settings);
  }

  /** Any other line is collected into the open hunk or dropped. */
  lemma PendingAtOther(st: ScanState, lines: seq<string>, settings: SnippetSettings)
    requires Tidy(st) && lines != [] && !IsHeaderLine(lines[0])
    ensures Pending(st, lines, settings) == Pending(Step(st, lines[0], settings), lines[1..], settings)
  {
    if st.current.Some? {
      var line, rest := lines[0], lines[1..];
      var k := NextHeader(rest);
      var extra := if IsBodyLine(line) then [line] else [];
      assert Step(st, line, settings).body == st.body + extra;
      assert NextHeader(lines) == 1 + k;
      assert lines[..1 + k] == [line] + rest[..k];
      BodyLinesCons(line, rest[..k]);
      assert lines[1 + k..] == rest[k..];
      assert st.body + extra + BodyLines(rest[..k]) == st.body + (extra + BodyLines(rest[..k]));
    }
  }

  lemma {:induction false} ScanIsSegments(st: ScanState, lines: seq<string>, settings: SnippetSettings)
    requires Tidy(st)
    ensures Close(Scan(st, lines, settings), settings) == st.hunks + Pending(st, lines, settings)
    decreases |lines|
  {
    if lines == [] {
      assert lines[..0] == [] && lines[0..] == [];
      assert st.body + [] == st.body;
    } else {
      var next := Step(st, lines[0], settings);
      ScanIsSegments(next, lines[1..], settings);
      match ParseHunkHeader(lines[0]) {
        case Some(h) =>
          SegmentsAtHeader(lines, h, Close(st, settings), settings);
          PendingAtHeader(st, lines, settings);
        case None =>
          PendingAtOther(st, lines, settings);
      }
    }
  }

  /** `_parse_diff` reads a diff segment by segment: the loop's result equals
      the reference definition. */
  lemma ParseIsSegments(lines: seq<string>, settings: SnippetSettings)
    ensures HunksOfLines(lines, settings) == Segments(lines, settings)
  {
    ScanIsSegments(Start, lines, settings);
    assert [] + Segments(lines, settings) == Segments(lines, settings);
  }

  /* ----------------------------------------------------------------------
     Lemmas: what the parser promises
     ---------------------------------------------------------------------- */

  lemma {:induction false} SegmentsPreamble(preamble: seq<string>, lines: seq<string>, settings: SnippetSettings)
    requires forall j :: 0 <= j < |preamble| ==> !IsHeaderLine(preamble[j])
    ensures Segments(preamble + lines, settings) == Segments(lines, settings)
    decreases |preamble|
  {
    if preamble != [] {
      var all := preamble + lines;
      assert all[0] == preamble[0] && all[1..] == preamble[1..] + lines;
      SegmentsPreamble(preamble[1..], lines, settings);
    } else {
      assert preamble + lines == lines;
    }
  }

  /** Lines before the first header line never contribute to any hunk. */
  lemma PreambleIgnored(preamble: seq<string>, lines: seq<string>, settings: SnippetSettings)
    requires forall j :: 0 <= j < |preamble| ==> !IsHeaderLine(preamble[j])
    ensures HunksOfLines(preamble + lines, settings) == HunksOfLines(lines, settings)
  {
    ParseIsSegments(preamble + lines, settings);
    ParseIsSegments(lines, settings);
    SegmentsPreamble(preamble, lines, settings);
  }

  /** A diff without any header line has no hunks; in particular the empty
      diff text has none. */
  lemma NoHeaderNoHunks(diffText: string, settings: SnippetSettings)
    requires forall j :: 0 <= j < |Split(diffText, '\n')| ==> !IsHeaderLine(Split(diffText, '\n')[j])
    ensures HunksOf(diffText, settings) == []
  {
    var lines := Split(diffText, '\n');
    PreambleIgnored(lines, [], settings);
    assert lines + [] == lines;
  }

  lemma {:induction false} HeaderCountSplit(lines: seq<string>, k: nat)
    requires k <= |lines|
    ensures HeaderCount(lines) == HeaderCount(lines[..k]) + HeaderCount(lines[k..])
    decreases k
  {
    if k > 0 {
      HeaderCountSplit(lines[1..], k - 1);
      assert lines[1..][..k - 1] == lines[..k][1..];
      assert lines[1..][k - 1..] == lines[k..];
    } else {
      assert lines[..0] == [] && lines[0..] == lines;
    }
  }

  /** There are never more hunks than header lines. */
  lemma {:induction false} SegmentsBound(lines: seq<string>, settings: SnippetSettings)
    ensures |Segments(lines, settings)| <= HeaderCount(lines)
    decreases |lines|
  {
    if lines != [] {
      match ParseHunkHeader(lines[0]) {
        case None =>
          SegmentsBound(lines[1..], settings);
        case Some(h) =>
          var k := 1 + NextHeader(lines[1..]);
          SegmentsBound(lines[k..], settings);
          HeaderCountSplit(lines, k);
          assert HeaderCount(lines[..k]) >= 1 by {
            assert lines[..k][0] == lines[0];
          }
      }
    }
  }

  lemma HunkBound(diffText: string, settings: SnippetSettings)
    ensures |HunksOf(diffText, settings)| <= HeaderCount(Split(diffText, '\n'))
  {
    ParseIsSegments(Split(diffText, '\n'), settings);
    SegmentsBound(Split(diffText, '\n'), settings);
  }

  lemma {:induction false} ScanSkipsIrrelevant(st: ScanState, lines: seq<string>, settings: SnippetSettings)
    ensures Scan(st, lines, settings) == Scan(st, RelevantLines(lines), settings)
    decreases |lines|
  {
    if lines != [] {
      ScanSkipsIrrelevant(Step(st, lines[0], settings), lines[1..], settings);
      var r := RelevantLines(lines[1..]);
      if Relevant(lines[0]) {
        assert ([lines[0]] + r)[1..] == r;
      } else {
        ScanSkipsIrrelevant(st, lines[1..], settings);
        assert [] + r == r;
      }
    }
  }

  /** Lines that are neither header nor body lines (not starting with '+',
      '-' or ' ') are dropped: removing them changes nothing. */
  lemma IrrelevantLinesDropped(lines: seq<string>, settings: SnippetSettings)
    ensures HunksOfLines(lines, settings) == HunksOfLines(RelevantLines(lines), settings)
  {
    ScanSkipsIrrelevant(Start, lines, settings);
  }

  lemma {:induction false} QuietLines(lines: seq<string>)
    requires forall j :: 0 <= j < |lines| ==> !IsHeaderLine(lines[j]) && !IsBodyLine(lines[j])
    ensures NextHeader(lines) == |lines| && BodyLines(lines) == []
    decreases |lines|
  {
    if lines != [] {
      QuietLines(lines[1..]);
    }
  }

  lemma {:induction false} AllBodyLines(lines: seq<string>)
    requires forall j :: 0 <= j < |lines| ==> IsBodyLine(lines[j])
    ensures NextHeader(lines) == |lines| && BodyLines(lines) == lines
    decreases |lines|
  {
    if lines != [] {
      BodyLineIsNoHeader(lines[0]);
      AllBodyLines(lines[1..]);
      assert lines == [lines[0]] + lines[1..];
    }
  }

  /** A header followed only by lines that are neither headers nor body lines
      emits no hunk at all. */
  lemma HeaderWithoutBody(header: string, others: seq<string>, settings: SnippetSettings)
    requires IsHeaderLine(header)
    requires forall j :: 0 <= j < |others| ==> !IsHeaderLine(others[j]) && !IsBodyLine(others[j])
    ensures HunksOfLines([header] + others, settings) == []
  {
    var lines := [header] + others;
    ParseIsSegments(lines, settings);
    QuietLines(others);
    assert lines[0] == header && lines[1..] == others;
    SegmentsAt(lines, settings);
    assert others[..|others|] == others && others[|others|..] == [];
  }

  /** A header followed by body lines gives exactly one hunk, with the
      header's numbers, its stripped text and the snippet of those lines. */
  lemma SingleHunk(header: string, body: seq<string>, settings: SnippetSettings)
    requires IsHeaderLine(header)
    requires body != [] && forall j :: 0 <= j < |body| ==> IsBodyLine(body[j])
    ensures HunksOfLines([header] + body, settings)
            == [MakeHunk(ParseHunkHeader(header).value, body, settings)]
  {
    var lines := [header] + body;
    ParseIsSegments(lines, settings);
    AllBodyLines(body);
    assert lines[0] == header && lines[1..] == body;
    SegmentsAt(lines, settings);
    assert body[..|body|] == body && body[|body|..] == [];
  }
}
