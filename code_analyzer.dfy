/** `CodeAnalyzer` (analysis/code_analyzer.py): ranks the changes of a commit
    by size, analyses the largest ones (language, hunks, a one-sentence
    summary) and writes a detailed multi-line summary of the commit. The
    diff text of a file (`git show`) and the pygments lexer name of a file
    are inputs. */
module CodeAnalyzer {
  import opened Wrappers
  import opened Text
  import opened Counting
  import opened DiffParser
  import opened Records

  /** The `analysis` settings read in the constructor. */
  datatype AnalysisSettings = AnalysisSettings(
    detailLevel: string,
    maxFiles: nat,
    maxChangesPerFile: nat,
    includeSnippets: bool,
    maxSnippetLength: nat)

  /** The defaults used when the configuration has no `analysis` values. */
  const DefaultSettings := AnalysisSettings("detailed", 5, 3, true, 100)

  /** What the analyzer gets from outside the program: the diff text of each
      file of the commit (a path that is absent stands for a failing
      `git show`) and the name of the pygments lexer for a file name (absent
      when pygments finds none). */
  datatype Sources = Sources(fileDiffs: map<string, string>, lexerNames: map<string, string>)

  /* ----------------------------------------------------------------------
     _detect_language
     ---------------------------------------------------------------------- */

  /** The fallback table of `_detect_language`, by lower-cased extension. */
  const LanguageMap: map<string, string> := map[
    ".py" := "Python", ".js" := "JavaScript", ".ts" := "TypeScript",
    ".jsx" := "React JSX", ".tsx" := "React TSX", ".java" := "Java",
    ".c" := "C", ".cpp" := "C++", ".cs" := "C#", ".go" := "Go",
    ".rb" := "Ruby", ".php" := "PHP", ".html" := "HTML", ".css" := "CSS",
    ".scss" := "SCSS", ".md" := "Markdown", ".json" := "JSON",
    ".xml" := "XML", ".yaml" := "YAML", ".yml" := "YAML", ".sql" := "SQL",
    ".sh" := "Shell", ".bat" := "Batch", ".ps1" := "PowerShell"]

  /** The table entry for an extension, "Unknown" without one. */
  function FallbackLanguage(ext: string): string {
    if ext in LanguageMap then LanguageMap[ext] else "Unknown"
  }

  /** The lexer's name when pygments knows the file name, otherwise the
      table entry for the lower-cased extension. */
  function DetectLanguage(path: string, sources: Sources): string {
    if path in sources.lexerNames then sources.lexerNames[path]
    else FallbackLanguage(Lower(Extension(path)))
  }

  lemma AppPyFacts()
    ensures '/' !in "App.PY" && "App.PY"[0] != '.' && "App.PY"[3] == '.'
    ensures '.' !in "App.PY"[4..] && "App.PY"[3..] == ".PY"
  {
    assert "App.PY"[4..] == "PY";
  }

  lemma ExtensionOfAppPy(dir: string)
    ensures Extension(dir + "/" + "App.PY") == ".PY"
  {
    AppPyFacts();
    ExtensionOfJoined(dir, "App.PY", 3);
  }

  lemma FallbackOfUpperPy()
    ensures FallbackLanguage(Lower(".PY")) == "Python"
  {
    assert Lower(".PY") == ".py";
  }

  /** Without a lexer, letter case does not matter: paths that agree up to
      case are given the same language, as the fallback looks up the
      lower-cased extension. */
  lemma FallbackIgnoresCase(p: string, q: string, sources: Sources)
    requires p !in sources.lexerNames && q !in sources.lexerNames && Lower(p) == Lower(q)
    ensures DetectLanguage(p, sources) == DetectLanguage(q, sources)
  {
    LowerExtension(p, q);
  }

  /** For instance `App.PY` is Python. */
  lemma UpperCasePython(dir: string, sources: Sources)
    requires dir + "/" + "App.PY" !in sources.lexerNames
    ensures DetectLanguage(dir + "/" + "App.PY", sources) == "Python"
  {
    ExtensionOfAppPy(dir);
    FallbackOfUpperPy();
  }

  /** A hidden file such as ".py" has no extension, so its language is
      unknown without a lexer. */
  lemma FallbackHiddenFile(dir: string, sources: Sources)
    requires dir + "/" + ".py" !in sources.lexerNames
    ensures DetectLanguage(dir + "/" + ".py", sources) == "Unknown"
  {
    assert ".py"[1..] == "py";
    ExtensionOfHidden(dir, ".py");
    assert Lower("") == "";
  }

  /* ----------------------------------------------------------------------
     _generate_file_summary
     ---------------------------------------------------------------------- */

  /** `sum(section['new_count'] for section in sections)`. */
  function NewLines(sections: seq<Hunk>): nat
    decreases |sections|
  {
    if sections == [] then 0 else sections[0].newCount + NewLines(sections[1..])
  }

  /** The number of lines that start with `c`. */
  function CountStarting(lines: seq<string>, c: char): nat
    decreases |lines|
  {
    if lines == [] then 0
    else (if StartsWith(lines[0], [c]) then 1 else 0) + CountStarting(lines[1..], c)
  }

  /** The snippet lines of all sections that start with `c`, a section
      without a snippet counting as the empty text. */
  function MarkedLines(sections: seq<Hunk>, c: char): nat
    decreases |sections|
  {
    if sections == [] then 0
    else CountStarting(Split(sections[0].snippet.GetOr(""), '\n'), c) + MarkedLines(sections[1..], c)
  }

  /** The non-empty section headers, in order. */
  function Headers(sections: seq<Hunk>): seq<string>
    decreases |sections|
  {
    if sections == [] then []
    else (if sections[0].header != "" then [sections[0].header] else []) + Headers(sections[1..])
  }

  /** `function_changes[:3]`. */
  function ShownHeaders(hs: seq<string>): (r: seq<string>)
    ensures |r| <= 3 && |r| <= |hs| && r == hs[..|r|]
    ensures |hs| <= 3 ==> r == hs
  {
    if |hs| <= 3 then hs else hs[..3]
  }

  /** The headers joined with ", ", followed by " and N more" for the N
      headers beyond the third. */
  function HeaderList(hs: seq<string>): string {
    var shown := Join(", ", ShownHeaders(hs));
    if |hs| > 3 then shown + " and " + NatToString(|hs| - 3) + " more" else shown
  }

  function CountsText(language: string, additions: nat, deletions: nat): string {
    "Modified " + language + " file with " + NatToString(additions) + " additions and "
    + NatToString(deletions) + " deletions"
  }

  /** `_generate_file_summary`, reading a missing snippet as the empty text
      (see `FileSummaryAsWritten` for the code as written). */
  function FileSummary(path: string, changeType: ChangeType, sections: seq<Hunk>,
                       language: string, detailLevel: string): string
  {
    match changeType
    case Added => "Added new " + language + " file with " + NatToString(NewLines(sections)) + " lines"
    case Deleted => "Deleted " + language + " file"
    case Renamed => "Renamed file to " + Basename(path)
    case Modified =>
      var additions := MarkedLines(sections, '+');
      var deletions := MarkedLines(sections, '-');
      if detailLevel == "basic" then CountsText(language, additions, deletions)
      else
        var hs := Headers(sections);
        if hs != [] then "Modified " + language + " file: changes in " + HeaderList(hs)
        else CountsText(language, additions, deletions) + " in " + NatToString(|sections|) + " sections"
  }

  predicate SnippetsPresent(sections: seq<Hunk>) {
    forall i :: 0 <= i < |sections| ==> sections[i].snippet.Some?
  }

  /** `_generate_file_summary` as written: for a modified file it calls
      `.split` on every snippet before anything else, which raises
      AttributeError (None here) when a snippet is None, as it is whenever
      snippets are disabled. */
  function FileSummaryAsWritten(path: string, changeType: ChangeType, sections: seq<Hunk>,
                                language: string, detailLevel: string): Option<string>
  {
    if changeType == Modified && !SnippetsPresent(sections) then None
    else Some(FileSummary(path, changeType, sections, language, detailLevel))
  }

  /* ----------------------------------------------------------------------
     _get_significant_files
     ---------------------------------------------------------------------- */

  /** The sort key: insertions plus deletions. */
  function Weight(c: ChangeRecord): nat {
    c.insertions + c.deletions
  }

  /** Inserts `c` in front of the first entry that does not outweigh it. */
  function InsertByWeight(c: ChangeRecord, sorted: seq<ChangeRecord>): seq<ChangeRecord>
    decreases |sorted|
  {
    if sorted == [] || Weight(sorted[0]) <= Weight(c) then [c] + sorted
    else [sorted[0]] + InsertByWeight(c, sorted[1..])
  }

  /** `sorted(changes, key=Weight, reverse=True)`: heaviest first, equal
      weights in their original order. */
  function SortByWeight(cs: seq<ChangeRecord>): seq<ChangeRecord>
    decreases |cs|
  {
    if cs == [] then [] else InsertByWeight(cs[0], SortByWeight(cs[1..]))
  }

  /** `_get_significant_files`: the `maxFiles` heaviest changes. */
  function SignificantFiles(cs: seq<ChangeRecord>, maxFiles: nat): seq<ChangeRecord> {
    var sorted := SortByWeight(cs);
    if maxFiles < |sorted| then sorted[..maxFiles] else sorted
  }

  predicate Heaviest(s: seq<ChangeRecord>) {
    forall i, j :: 0 <= i < j < |s| ==> Weight(s[i]) >= Weight(s[j])
  }

  /** The entries of weight `w`, in order. */
  function OfWeight(s: seq<ChangeRecord>, w: nat): seq<ChangeRecord>
    decreases |s|
  {
    if s == [] then [] else (if Weight(s[0]) == w then [s[0]] else []) + OfWeight(s[1..], w)
  }

  /* ----------------------------------------------------------------------
     _analyze_file
     ---------------------------------------------------------------------- */

  /** `_analyze_file`: None when the diff cannot be read or is empty. */
  function AnalyzeFile(change: ChangeRecord, sources: Sources, settings: AnalysisSettings): (r: Option<FileAnalysis>)
    ensures change.changeType == Deleted ==>
              r == Some(FileAnalysis(change.path, Deleted, DetectLanguage(change.path, sources),
                                     "File was deleted", None, 0, change.deletions))
    ensures change.changeType != Deleted ==>
              (r.None? <==> change.path !in sources.fileDiffs || sources.fileDiffs[change.path] == "")
    ensures r.Some? ==> r.value.path == change.path && r.value.changeType == change.changeType
    ensures r.Some? ==> r.value.language == DetectLanguage(change.path, sources)
    ensures r.Some? && change.changeType != Deleted ==>
              var all := HunksOf(sources.fileDiffs[change.path], SnippetSettings(settings.maxSnippetLength, settings.includeSnippets));
              && r.value.changedSections.Some?
              && |r.value.changedSections.value| == (if |all| < settings.maxChangesPerFile then |all| else settings.maxChangesPerFile)
              && r.value.changedSections.value == all[..|r.value.changedSections.value|]
              && r.value.summary == FileSummary(change.path, change.changeType, r.value.changedSections.value,
                                                DetectLanguage(change.path, sources), settings.detailLevel)
              && r.value.insertions == change.insertions && r.value.deletions == change.deletions
  {
    var path := change.path;
    if change.changeType == Deleted then
      Some(FileAnalysis(path, Deleted, DetectLanguage(path, sources), "File was deleted", None, 0, change.deletions))
    else
      var language := DetectLanguage(path, sources);
      if path !in sources.fileDiffs || sources.fileDiffs[path] == "" then None
      else
        var all := HunksOf(sources.fileDiffs[path], SnippetSettings(settings.maxSnippetLength, settings.includeSnippets));
        var sections := if |all| > settings.maxChangesPerFile then all[..settings.maxChangesPerFile] else all;
        Some(FileAnalysis(path, change.changeType, language,
                          FileSummary(path, change.changeType, sections, language, settings.detailLevel),
                          Some(sections), change.insertions, change.deletions))
  }

  /** The analyses of `cs` that succeed, in order. */
  function AnalysesOf(cs: seq<ChangeRecord>, sources: Sources, settings: AnalysisSettings): seq<FileAnalysis>
    decreases |cs|
  {
    if cs == [] then []
    else
      var init := AnalysesOf(cs[..|cs| - 1], sources, settings);
      match AnalyzeFile(cs[|cs| - 1], sources, settings)
      case Some(fa) => init + [fa]
      case None => init
  }

  /* ----------------------------------------------------------------------
     _generate_detailed_summary
     ---------------------------------------------------------------------- */

  function AnalysisInsertions(fas: seq<FileAnalysis>): nat
    decreases |fas|
  {
    if fas == [] then 0 else AnalysisInsertions(fas[..|fas| - 1]) + fas[|fas| - 1].insertions
  }

  function AnalysisDeletions(fas: seq<FileAnalysis>): nat
    decreases |fas|
  {
    if fas == [] then 0 else AnalysisDeletions(fas[..|fas| - 1]) + fas[|fas| - 1].deletions
  }

  function Languages(fas: seq<FileAnalysis>): seq<string> {
    seq(|fas|, i requires 0 <= i < |fas| => fas[i].language)
  }

  /** The `- path: summary` line of one analysis. */
  function FileLine(fa: FileAnalysis): string {
    "- " + fa.path + ": " + fa.summary
  }

  function FileLines(fas: seq<FileAnalysis>): seq<string> {
    seq(|fas|, i requires 0 <= i < |fas| => FileLine(fas[i]))
  }

  function TotalsLine(fas: seq<FileAnalysis>): string {
    "Changed " + NatToString(|fas|) + " files with " + NatToString(AnalysisInsertions(fas))
    + " additions and " + NatToString(AnalysisDeletions(fas)) + " deletions."
  }

  const NoChangesMessage := "No significant code changes detected."

  /** The lines of the detailed summary of a non-empty list of analyses. */
  function DetailedLines(fas: seq<FileAnalysis>): seq<string> {
    var fileTypes := TallyOf(Languages(fas));
    [TotalsLine(fas)]
    + (if |fileTypes| > 1 then ["File types: " + Describe(fileTypes)] else [])
    + ["\nFile changes:"]
    + FileLines(fas)
  }

  function DetailedSummaryOf(fas: seq<FileAnalysis>): string {
    if fas == [] then NoChangesMessage else Join("\n", DetailedLines(fas))
  }

  /** `_generate_detailed_summary`. */
  method DetailedSummary(fas: seq<FileAnalysis>) returns (r: string)
    ensures r == DetailedSummaryOf(fas)
  {
    if fas == [] {
      return NoChangesMessage;
    }
    var summaryLines := [TotalsLine(fas)];
    var fileTypes := CountLanguages(fas);
    if |fileTypes| > 1 {
      summaryLines := summaryLines + ["File types: " + Describe(fileTypes)];
    }
    summaryLines := summaryLines + ["\nFile changes:"];
    var head := summaryLines;
    for i := 0 to |fas|
      invariant summaryLines == head + FileLines(fas[..i])
    {
      FileLinesStep(fas, i);
      summaryLines := summaryLines + [FileLine(fas[i])];
    }
    assert fas[..|fas|] == fas;
    assert summaryLines == DetailedLines(fas);
    r := Join("\n", summaryLines);
  }

  /** The `file_types` loop of `_generate_detailed_summary`. */
  method CountLanguages(fas: seq<FileAnalysis>) returns (fileTypes: seq<Entry>)
    ensures fileTypes == TallyOf(Languages(fas))
  {
    fileTypes := [];
    for i := 0 to |fas|
      invariant fileTypes == TallyOf(Languages(fas)[..i])
    {
      assert Languages(fas)[..i + 1][..i] == Languages(fas)[..i];
      fileTypes := Bump(fileTypes, fas[i].language);
    }
    assert Languages(fas)[..|fas|] == Languages(fas);
  }

  lemma FileLinesStep(fas: seq<FileAnalysis>, i: nat)
    requires i < |fas|
    ensures FileLines(fas[..i + 1]) == FileLines(fas[..i]) + [FileLine(fas[i])]
  {
  }

  /* ----------------------------------------------------------------------
     analyze_changes
     ---------------------------------------------------------------------- */

  /** `analyze_changes` without the AI summary: a record without changes is
      returned as it is; otherwise the significant files are analysed and the
      analyses and the detailed summary are added. */
  method AnalyzeChanges(commit: CommitRecord, sources: Sources, settings: AnalysisSettings)
    returns (enhanced: CommitRecord)
    ensures commit.changes == [] ==> enhanced == commit
    ensures commit.changes != [] ==>
              var analyses := AnalysesOf(SignificantFiles(commit.changes, settings.maxFiles), sources, settings);
              enhanced == commit.(fileAnalyses := Some(analyses), detailedSummary := Some(DetailedSummaryOf(analyses)))
  {
    enhanced := commit;
    if commit.changes == [] {
      return;
    }
    var significant := SignificantFiles(commit.changes, settings.maxFiles);
    var fileAnalyses := AnalyzeFiles(significant, sources, settings);
    var detailed := DetailedSummary(fileAnalyses);
    enhanced := enhanced.(fileAnalyses := Some(fileAnalyses), detailedSummary := Some(detailed));
  }

  /** The loop of `analyze_changes` over the significant files: the analyses
      that succeed, in order. */
  method AnalyzeFiles(significant: seq<ChangeRecord>, sources: Sources, settings: AnalysisSettings)
    returns (fileAnalyses: seq<FileAnalysis>)
    ensures fileAnalyses == AnalysesOf(significant, sources, settings)
  {
    fileAnalyses := [];
    for i := 0 to |significant|
      invariant fileAnalyses == AnalysesOf(significant[..i], sources, settings)
    {
      assert significant[..i + 1][..i] == significant[..i];
      var fileAnalysis := AnalyzeFile(significant[i], sources, settings);
      if fileAnalysis.Some? {
        fileAnalyses := fileAnalyses + [fileAnalysis.value];
      }
    }
    assert significant[..|significant|] == significant;
  }

  /* ======================================================================
     Lemmas
     ====================================================================== */

  /* --- file summaries --------------------------------------------------- */

  /** The line count of an added file adds up over its hunks. */
  lemma {:induction false} NewLinesAppend(a: seq<Hunk>, b: seq<Hunk>)
    ensures NewLines(a + b) == NewLines(a) + NewLines(b)
    decreases |a|
  {
    if a == [] {
      assert a + b == b;
    } else {
      assert (a + b)[1..] == a[1..] + b;
      NewLinesAppend(a[1..], b);
    }
  }

  /** A renamed file is reported by its base name only. */
  lemma RenamedSummary(dir: string, name: string, sections: seq<Hunk>, language: string, detailLevel: string)
    requires '/' !in name
    ensures FileSummary(dir + "/" + name, Renamed, sections, language, detailLevel) == "Renamed file to " + name
  {
    BasenameOfJoined(dir, name);
  }

  lemma {:induction false} CountStartingAppend(a: seq<string>, b: seq<string>, c: char)
    ensures CountStarting(a + b, c) == CountStarting(a, c) + CountStarting(b, c)
    decreases |a|
  {
    if a == [] {
      assert a + b == b;
    } else {
      assert (a + b)[1..] == a[1..] + b;
      CountStartingAppend(a[1..], b, c);
    }
  }

  /** For a hunk whose snippet was not cut short, the '+' and '-' counts of
      the summary are exactly the added and removed lines of the hunk. */
  lemma UntruncatedSnippetCounts(h: HunkHeader, body: seq<string>, maxLength: nat, c: char)
    requires body != [] && forall i :: 0 <= i < |body| ==> '\n' !in body[i]
    requires |Join("\n", body)| <= maxLength
    ensures MarkedLines([MakeHunk(h, body, SnippetSettings(maxLength, true))], c) == CountStarting(body, c)
  {
    SplitOfJoin(body, '\n');
    assert Split(Join("\n", body), '\n') == body;
    var hunk := MakeHunk(h, body, SnippetSettings(maxLength, true));
    assert [hunk][1..] == [];
  }

  /** The non-empty headers are kept, in order, and nothing else. */
  lemma {:induction false} HeadersKept(sections: seq<Hunk>, x: string)
    ensures x in Headers(sections) <==> x != "" && exists i :: 0 <= i < |sections| && sections[i].header == x
    decreases |sections|
  {
    if sections != [] {
      HeadersKept(sections[1..], x);
      if exists i :: 0 <= i < |sections| && sections[i].header == x {
        var i :| 0 <= i < |sections| && sections[i].header == x;
        if i > 0 {
          assert sections[1..][i - 1].header == x;
        }
      }
      if exists i :: 0 <= i < |sections[1..]| && sections[1..][i].header == x {
        var i :| 0 <= i < |sections[1..]| && sections[1..][i].header == x;
        assert sections[i + 1].header == x;
      }
    }
  }

  /** A detailed summary names at most three headers and reports how many
      more there are. */
  lemma HeaderListShape(hs: seq<string>)
    ensures |hs| <= 3 ==> HeaderList(hs) == Join(", ", hs)
    ensures |hs| > 3 ==> HeaderList(hs) == Join(", ", hs[..3]) + " and " + NatToString(|hs| - 3) + " more"
    ensures |hs| > 3 ==> DigitsValue(NatToString(|hs| - 3)) + 3 == |hs|
  {
    if |hs| > 3 {
      NatToStringValue(|hs| - 3);
    }
  }

  /** The summary as written and the corrected one agree whenever every
      section has a snippet. */
  lemma AsWrittenAgrees(path: string, changeType: ChangeType, sections: seq<Hunk>, language: string, detailLevel: string)
    requires changeType != Modified || SnippetsPresent(sections)
    ensures FileSummaryAsWritten(path, changeType, sections, language, detailLevel)
            == Some(FileSummary(path, changeType, sections, language, detailLevel))
  {
  }

  lemma {:induction false} NoSnippetsNoMarks(sections: seq<Hunk>, c: char)
    requires forall i :: 0 <= i < |sections| ==> sections[i].snippet.None?
    ensures MarkedLines(sections, c) == 0
    decreases |sections|
  {
    if sections != [] {
      NoSnippetsNoMarks(sections[1..], c);
      assert sections[0].snippet.GetOr("") == "";
      assert Split("", '\n') == [""];
      assert [""][1..] == [];
      assert CountStarting([""], c) == 0;
    }
  }

  lemma {:induction false} DisabledSnippetsAbsent(lines: seq<string>, maxLength: nat)
    ensures forall i :: 0 <= i < |HunksOfLines(lines, SnippetSettings(maxLength, false))| ==>
              HunksOfLines(lines, SnippetSettings(maxLength, false))[i].snippet.None?
  {
    var settings := SnippetSettings(maxLength, false);
    ParseIsSegments(lines, settings);
    SegmentsWithoutSnippets(lines, settings);
  }

  lemma {:induction false} SegmentsWithoutSnippets(lines: seq<string>, settings: SnippetSettings)
    requires !settings.enabled
    ensures forall i :: 0 <= i < |Segments(lines, settings)| ==> Segments(lines, settings)[i].snippet.None?
    decreases |lines|
  {
    if lines != [] {
      match ParseHunkHeader(lines[0]) {
        case None =>
          SegmentsWithoutSnippets(lines[1..], settings);
        case Some(h) =>
          var k := 1 + NextHeader(lines[1..]);
          SegmentsWithoutSnippets(lines[k..], settings);
      }
    }
  }

  /** With snippets disabled, a modified file with at least one hunk makes
      the summary as written raise. */
  lemma SnippetsDisabledFinding(path: string, diffText: string, language: string, detailLevel: string, maxLength: nat)
    requires HunksOf(diffText, SnippetSettings(maxLength, false)) != []
    ensures FileSummaryAsWritten(path, Modified, HunksOf(diffText, SnippetSettings(maxLength, false)), language, detailLevel).None?
  {
    var sections := HunksOf(diffText, SnippetSettings(maxLength, false));
    DisabledSnippetsAbsent(Split(diffText, '\n'), maxLength);
    assert sections[0].snippet.None?;
  }

  /** With snippets disabled, the corrected summary of a modified file
      reports zero additions and zero deletions at the basic level. */
  lemma SnippetsDisabledCorrected(path: string, diffText: string, language: string, maxLength: nat)
    ensures FileSummary(path, Modified, HunksOf(diffText, SnippetSettings(maxLength, false)), language, "basic")
            == CountsText(language, 0, 0)
  {
    var sections := HunksOf(diffText, SnippetSettings(maxLength, false));
    DisabledSnippetsAbsent(Split(diffText, '\n'), maxLength);
    NoSnippetsNoMarks(sections, '+');
    NoSnippetsNoMarks(sections, '-');
  }

  /* --- significant files ------------------------------------------------ */

  lemma HeadHeaviest(s: seq<ChangeRecord>)
    requires Heaviest(s) && s != []
    ensures forall y :: y in s ==> Weight(y) <= Weight(s[0])
  {
    forall y | y in s ensures Weight(y) <= Weight(s[0]) {
      var k :| 0 <= k < |s| && s[k] == y;
      assert k == 0 || Weight(s[0]) >= Weight(s[k]);
    }
  }

  lemma HeaviestCons(x: ChangeRecord, t: seq<ChangeRecord>)
    requires Heaviest(t) && forall y :: y in t ==> Weight(y) <= Weight(x)
    ensures Heaviest([x] + t)
  {
    var s := [x] + t;
    forall i, j | 0 <= i < j < |s| ensures Weight(s[i]) >= Weight(s[j]) {
      assert s[j] == t[j - 1] && t[j - 1] in t;
      if i > 0 {
        assert s[i] == t[i - 1];
      }
    }
  }

  lemma {:induction false} InsertByWeightPerm(c: ChangeRecord, s: seq<ChangeRecord>)
    ensures multiset(InsertByWeight(c, s)) == multiset(s) + multiset{c}
    decreases |s|
  {
    if s != [] && Weight(s[0]) > Weight(c) {
      InsertByWeightPerm(c, s[1..]);
      assert s == [s[0]] + s[1..];
    }
  }

  lemma {:induction false} InsertByWeightFacts(c: ChangeRecord, s: seq<ChangeRecord>)
    requires Heaviest(s)
    ensures Heaviest(InsertByWeight(c, s))
    ensures multiset(InsertByWeight(c, s)) == multiset(s) + multiset{c}
    decreases |s|
  {
    InsertByWeightPerm(c, s);
    if s == [] {
      HeaviestCons(c, s);
    } else if Weight(s[0]) <= Weight(c) {
      HeadHeaviest(s);
      HeaviestCons(c, s);
    } else {
      HeadHeaviest(s);
      assert Heaviest(s[1..]) by {
        forall i, j | 0 <= i < j < |s[1..]| ensures Weight(s[1..][i]) >= Weight(s[1..][j]) {
          assert s[1..][i] == s[i + 1] && s[1..][j] == s[j + 1];
        }
      }
      InsertByWeightFacts(c, s[1..]);
      var t := InsertByWeight(c, s[1..]);
      forall x | x in t ensures Weight(x) <= Weight(s[0]) {
        assert x in multiset(t);
        assert x in multiset(s[1..]) || x == c;
        assert x in s[1..] ==> x in s;
      }
      HeaviestCons(s[0], t);
    }
  }

  /** The ranking is a non-increasing rearrangement of the changes. */
  lemma {:induction false} SortByWeightFacts(cs: seq<ChangeRecord>)
    ensures Heaviest(SortByWeight(cs))
    ensures multiset(SortByWeight(cs)) == multiset(cs)
    decreases |cs|
  {
    if cs != [] {
      SortByWeightFacts(cs[1..]);
      InsertByWeightFacts(cs[0], SortByWeight(cs[1..]));
      assert cs == [cs[0]] + cs[1..];
    }
  }

  lemma OfWeightCons(x: ChangeRecord, t: seq<ChangeRecord>, w: nat)
    ensures OfWeight([x] + t, w) == (if Weight(x) == w then [x] else []) + OfWeight(t, w)
  {
    assert ([x] + t)[1..] == t;
  }

  lemma {:induction false} InsertByWeightStable(c: ChangeRecord, s: seq<ChangeRecord>, w: nat)
    ensures OfWeight(InsertByWeight(c, s), w) == (if Weight(c) == w then [c] else []) + OfWeight(s, w)
    decreases |s|
  {
    if s == [] || Weight(s[0]) <= Weight(c) {
      OfWeightCons(c, s, w);
    } else {
      InsertByWeightStable(c, s[1..], w);
      OfWeightCons(s[0], InsertByWeight(c, s[1..]), w);
      OfWeightCons(s[0], s[1..], w);
      assert s == [s[0]] + s[1..];
      assert Weight(c) == w ==> Weight(s[0]) != w;
    }
  }

  /** Changes of equal weight keep their original order (Python's sort is
      stable). */
  lemma {:induction false} SortByWeightStable(cs: seq<ChangeRecord>, w: nat)
    ensures OfWeight(SortByWeight(cs), w) == OfWeight(cs, w)
    decreases |cs|
  {
    if cs != [] {
      SortByWeightStable(cs[1..], w);
      InsertByWeightStable(cs[0], SortByWeight(cs[1..]), w);
    }
  }

  lemma SortByWeightLength(cs: seq<ChangeRecord>)
    ensures |SortByWeight(cs)| == |cs|
  {
    SortByWeightFacts(cs);
    assert |multiset(SortByWeight(cs))| == |multiset(cs)|;
  }

  /** `_get_significant_files` keeps min(n, maxFiles) changes of the input,
      heaviest first, and no dropped change outweighs a kept one. */
  lemma SignificantFilesFacts(cs: seq<ChangeRecord>, maxFiles: nat)
    ensures |SignificantFiles(cs, maxFiles)| == (if maxFiles < |cs| then maxFiles else |cs|)
    ensures Heaviest(SignificantFiles(cs, maxFiles))
    ensures multiset(SignificantFiles(cs, maxFiles)) <= multiset(cs)
    ensures forall i :: 0 <= i < |SignificantFiles(cs, maxFiles)| ==> SignificantFiles(cs, maxFiles)[i] in cs
    ensures forall i, j :: 0 <= i < |SignificantFiles(cs, maxFiles)| <= j < |SortByWeight(cs)| ==>
              Weight(SortByWeight(cs)[j]) <= Weight(SignificantFiles(cs, maxFiles)[i])
  {
    var sorted := SortByWeight(cs);
    SortByWeightFacts(cs);
    SortByWeightLength(cs);
    var n := if maxFiles < |cs| then maxFiles else |cs|;
    assert SignificantFiles(cs, maxFiles) == sorted[..n];
    HeaviestPrefix(sorted, n);
    PrefixDrawn(sorted, cs, n);
  }

  /** A prefix of a ranking is a ranking, and outweighs what follows it. */
  lemma HeaviestPrefix(sorted: seq<ChangeRecord>, n: nat)
    requires Heaviest(sorted) && n <= |sorted|
    ensures Heaviest(sorted[..n])
    ensures forall i, j :: 0 <= i < n <= j < |sorted| ==> Weight(sorted[j]) <= Weight(sorted[..n][i])
  {
  }

  /** A prefix of a rearrangement of `cs` is drawn from `cs`. */
  lemma PrefixDrawn(sorted: seq<ChangeRecord>, cs: seq<ChangeRecord>, n: nat)
    requires multiset(sorted) == multiset(cs) && n <= |sorted|
    ensures multiset(sorted[..n]) <= multiset(cs)
    ensures forall i :: 0 <= i < n ==> sorted[..n][i] in cs
  {
    var r := sorted[..n];
    assert sorted == r + sorted[n..];
    assert multiset(sorted) == multiset(r) + multiset(sorted[n..]);
    forall i | 0 <= i < n ensures r[i] in cs {
      assert r[i] in multiset(r);
      assert r[i] in multiset(cs);
    }
  }

  /* --- file analysis ---------------------------------------------------- */

  /** A deleted file's analysis does not depend on any diff text. */
  lemma DeletedIgnoresDiff(change: ChangeRecord, sources: Sources, diffs: map<string, string>, settings: AnalysisSettings)
    requires change.changeType == Deleted
    ensures AnalyzeFile(change, sources, settings) == AnalyzeFile(change, sources.(fileDiffs := diffs), settings)
  {
  }

  /** Failed analyses are dropped: no more analyses than files, each about
      one of the files. */
  lemma {:induction false} AnalysesBound(cs: seq<ChangeRecord>, sources: Sources, settings: AnalysisSettings)
    ensures |AnalysesOf(cs, sources, settings)| <= |cs|
    ensures forall k :: 0 <= k < |AnalysesOf(cs, sources, settings)| ==>
              exists i :: 0 <= i < |cs| && AnalysesOf(cs, sources, settings)[k].path == cs[i].path
    decreases |cs|
  {
    if cs != [] {
      var init := cs[..|cs| - 1];
      AnalysesBound(init, sources, settings);
      var a := AnalysesOf(cs, sources, settings);
      forall k | 0 <= k < |a| ensures exists i :: 0 <= i < |cs| && a[k].path == cs[i].path {
        if k < |AnalysesOf(init, sources, settings)| {
          var i :| 0 <= i < |init| && AnalysesOf(init, sources, settings)[k].path == init[i].path;
          assert a[k].path == cs[i].path;
        } else {
          assert a[k].path == cs[|cs| - 1].path;
        }
      }
    }
  }

  /** The analyses of two runs of files, one after the other, are those of
      the first run followed by those of the second: each kept analysis stands
      where its file stood. */
  lemma {:induction false} AnalysesAppend(x: seq<ChangeRecord>, y: seq<ChangeRecord>, sources: Sources,
                                          settings: AnalysisSettings)
    ensures AnalysesOf(x + y, sources, settings) == AnalysesOf(x, sources, settings) + AnalysesOf(y, sources, settings)
    decreases |y|
  {
    if y == [] {
      assert x + y == x;
    } else {
      var init := y[..|y| - 1];
      assert (x + y)[..|x + y| - 1] == x + init;
      assert (x + y)[|x + y| - 1] == y[|y| - 1];
      AnalysesAppend(x, init, sources, settings);
    }
  }

  /** `analyze_changes` reports at most `maxFiles` file analyses, each about
      one of the commit's changed paths. */
  lemma AnalyzeChangesBound(commit: CommitRecord, sources: Sources, settings: AnalysisSettings)
    ensures |AnalysesOf(SignificantFiles(commit.changes, settings.maxFiles), sources, settings)| <= settings.maxFiles
    ensures forall k :: 0 <= k < |AnalysesOf(SignificantFiles(commit.changes, settings.maxFiles), sources, settings)| ==>
              AnalysesOf(SignificantFiles(commit.changes, settings.maxFiles), sources, settings)[k].path in Paths(commit.changes)
  {
    var significant := SignificantFiles(commit.changes, settings.maxFiles);
    SignificantFilesFacts(commit.changes, settings.maxFiles);
    AnalysesBound(significant, sources, settings);
    var analyses := AnalysesOf(significant, sources, settings);
    forall k | 0 <= k < |analyses| ensures analyses[k].path in Paths(commit.changes) {
      var j :| 0 <= j < |significant| && analyses[k].path == significant[j].path;
      assert significant[j] in commit.changes;
      var i :| 0 <= i < |commit.changes| && commit.changes[i] == significant[j];
    }
  }

  /* --- detailed summary ------------------------------------------------- */

  /** The detailed summary: the totals line first, a "File types" line
      exactly when more than one language occurs, then a "File changes"
      heading and one line per analysis, in order. */
  lemma DetailedLinesShape(fas: seq<FileAnalysis>)
    requires fas != []
    ensures var lines := DetailedLines(fas);
      var extra := if Several(Languages(fas)) then 1 else 0;
      && |lines| == |fas| + 2 + extra
      && lines[0] == TotalsLine(fas)
      && (Several(Languages(fas)) ==> lines[1] == "File types: " + Describe(TallyOf(Languages(fas))))
      && lines[1 + extra] == "\nFile changes:"
      && forall k :: 0 <= k < |fas| ==> lines[2 + extra + k] == FileLine(fas[k])
  {
    TallySeveral(Languages(fas));
  }

  /** Each language in the "File types" line is listed once, in order of
      first appearance, with the number of analyses in that language. */
  lemma FileTypesCounts(fas: seq<FileAnalysis>, language: string)
    ensures Keys(TallyOf(Languages(fas))) == FirstOccurrences(Languages(fas))
    ensures CountOf(TallyOf(Languages(fas)), language) == multiset(Languages(fas))[language]
  {
    TallyKeys(Languages(fas));
    TallyCounts(Languages(fas), language);
  }

  lemma {:induction false} AnalysisTotalsAppend(a: seq<FileAnalysis>, b: seq<FileAnalysis>)
    ensures AnalysisInsertions(a + b) == AnalysisInsertions(a) + AnalysisInsertions(b)
    ensures AnalysisDeletions(a + b) == AnalysisDeletions(a) + AnalysisDeletions(b)
    decreases |b|
  {
    if b == [] {
      assert a + b == a;
    } else {
      AnalysisTotalsAppend(a, b[..|b| - 1]);
      assert (a + b)[..|a + b| - 1] == a + b[..|b| - 1];
    }
  }
}
