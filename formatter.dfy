/** `Formatter` (jira/formatter.py): renders a commit analysis into a JIRA
    comment by substituting placeholders into a template, and renders a push
    analysis into a comment listing its commits and the files they touched. */
module Formatter {
  import opened Wrappers
  import opened Text
  import opened Records

  /** The comment template used when the configuration has none. */
  const DefaultTemplate: string := Flatten(DefaultPieces())

  /** A `CommentFormatter`. `isoDate(d)` is
      `datetime.fromisoformat(d).strftime('%Y-%m-%d %H:%M:%S')`, None where
      `fromisoformat` raises. */
  datatype CommentFormatter = CommentFormatter(template: string, isoDate: string -> Option<string>)

  /** `CommentFormatter.__init__`, given `comment.template` from the
      configuration ("" when unset). */
  function NewFormatter(configured: string, isoDate: string -> Option<string>): (f: CommentFormatter)
    ensures f.template != ""
    ensures configured != "" ==> f.template == configured
    ensures configured == "" ==> f.template == DefaultTemplate
  {
    CommentFormatter(if configured == "" then DefaultTemplate else configured, isoDate)
  }

  /* ----------------------------------------------------------------------
     The values substituted into a commit comment
     ---------------------------------------------------------------------- */

  /** `commit_hash[:7]`. */
  function ShortHash(hash: string): (r: string)
    ensures StartsWith(hash, r)
    ensures |r| == if |hash| < 7 then |hash| else 7
  {
    if |hash| <= 7 then hash else hash[..7]
  }

  /** `author.split('<')[0].strip()`: the name in front of the e-mail. */
  function AuthorName(author: string): string {
    Strip(Split(author, '<')[0])
  }

  /** The formatted date, or the stored text where it is not ISO 8601. */
  function DisplayDate(f: CommentFormatter, date: string): string {
    match f.isoDate(date)
    case Some(d) => d
    case None => date
  }

  /** The summary shown: the detailed summary, else the AI summary, else the
      basic summary. */
  function SummaryText(c: CommitRecord): string {
    if c.detailedSummary.Some? then c.detailedSummary.value
    else if c.aiSummary.Some? then c.aiSummary.value
    else c.summary
  }

  function UrlText(c: CommitRecord): string {
    c.commitUrl.GetOr("#")
  }

  /* ----------------------------------------------------------------------
     _format_files_changed
     ---------------------------------------------------------------------- */

  function AnalysisLine(fa: FileAnalysis): string {
    "* " + fa.path + " - " + fa.summary
  }

  /** What a change line says after the path. */
  function ChangeText(ch: ChangeRecord): string {
    match ch.changeType
    case Added => "Added (" + NatToString(ch.insertions) + " lines)"
    case Deleted => "Deleted (" + NatToString(ch.deletions) + " lines)"
    case Renamed => "Renamed"
    case Modified => "Modified (+" + NatToString(ch.insertions) + ", -" + NatToString(ch.deletions) + ")"
  }

  function ChangeLine(ch: ChangeRecord): string {
    "* " + ch.path + " - " + ChangeText(ch)
  }

  /** One line per file analysis when the commit has file analyses (even an
      empty list of them), else one line per change entry. */
  function FileLinesOf(c: CommitRecord): seq<string> {
    match c.fileAnalyses
    case Some(fas) => seq(|fas|, i requires 0 <= i < |fas| => AnalysisLine(fas[i]))
    case None => seq(|c.changes|, i requires 0 <= i < |c.changes| => ChangeLine(c.changes[i]))
  }

  function FilesChangedOf(c: CommitRecord): string {
    Join("\n", FileLinesOf(c))
  }

  /** `_format_files_changed`. */
  method FormatFilesChanged(c: CommitRecord) returns (r: string)
    ensures r == FilesChangedOf(c)
  {
    var fileLines: seq<string> := [];
    if c.fileAnalyses.Some? {
      var fas := c.fileAnalyses.value;
      for i := 0 to |fas|
        invariant fileLines == seq(i, k requires 0 <= k < i => AnalysisLine(fas[k]))
      {
        fileLines := fileLines + [AnalysisLine(fas[i])];
      }
      assert fileLines == FileLinesOf(c);
    } else {
      for i := 0 to |c.changes|
        invariant fileLines == seq(i, k requires 0 <= k < i => ChangeLine(c.changes[k]))
      {
        var change := c.changes[i];
        var text;
        match change.changeType {
          case Added => text := "Added (" + NatToString(change.insertions) + " lines)";
          case Deleted => text := "Deleted (" + NatToString(change.deletions) + " lines)";
          case Renamed => text := "Renamed";
          case Modified => text := "Modified (+" + NatToString(change.insertions) + ", -" + NatToString(change.deletions) + ")";
        }
        fileLines := fileLines + ["* " + change.path + " - " + text];
      }
      assert fileLines == FileLinesOf(c);
    }
    r := Join("\n", fileLines);
  }

  /* ----------------------------------------------------------------------
     format_commit_comment
     ---------------------------------------------------------------------- */

  /** `format_commit_comment`: the placeholders are replaced one after the
      other, each in the text the previous replacements produced. */
  function FormatCommitComment(f: CommentFormatter, c: CommitRecord): string {
    var c1 := ReplaceAll(f.template, Brace("commit_hash"), ShortHash(c.hash));
    var c2 := ReplaceAll(c1, Brace("commit_message"), Strip(c.message));
    var c3 := ReplaceAll(c2, Brace("author"), AuthorName(c.author));
    var c4 := ReplaceAll(c3, Brace("date"), DisplayDate(f, c.date));
    var c5 := ReplaceAll(c4, Brace("summary"), SummaryText(c));
    var c6 := ReplaceAll(c5, Brace("files_changed"), FilesChangedOf(c));
    ReplaceAll(c6, Brace("commit_url"), UrlText(c))
  }

  /* ----------------------------------------------------------------------
     format_push_comment
     ---------------------------------------------------------------------- */

  /** `s` is in ascending order without repetitions. */
  predicate StrictlySorted(s: seq<string>) {
    forall i, j :: 0 <= i < j < |s| ==> Below(s[i], s[j])
  }

  /** Inserts `x` into the ascending `s` unless it is already there. */
  function InsertSorted(s: seq<string>, x: string): seq<string>
    decreases |s|
  {
    if s == [] then [x]
    else if x == s[0] then s
    else if Below(x, s[0]) then [x] + s
    else [s[0]] + InsertSorted(s[1..], x)
  }

  /** `sorted(set(xs))`. */
  function SortedSet(xs: seq<string>): seq<string>
    decreases |xs|
  {
    if xs == [] then [] else InsertSorted(SortedSet(xs[..|xs| - 1]), xs[|xs| - 1])
  }

  /** The paths of all changes of all commits, in order. */
  function AllPaths(commits: seq<CommitRecord>): seq<string>
    decreases |commits|
  {
    if commits == [] then []
    else
      var cs := commits[|commits| - 1].changes;
      AllPaths(commits[..|commits| - 1]) + seq(|cs|, i requires 0 <= i < |cs| => cs[i].path)
  }

  function CommitLine(f: CommentFormatter, c: CommitRecord): string {
    "* [" + ShortHash(c.hash) + "|" + UrlText(c) + "] - " + Split(c.message, '\n')[0]
    + " - by " + AuthorName(c.author) + " on " + DisplayDate(f, c.date)
  }

  /** `CommitLine` for the formatter `f`, as a function of the commit. */
  function LineOf(f: CommentFormatter): CommitRecord -> string {
    c => CommitLine(f, c)
  }

  /** `g` applied to each of the first `n` commits. */
  function MapPrefix(g: CommitRecord -> string, commits: seq<CommitRecord>, n: nat): seq<string>
    requires n <= |commits|
  {
    seq(n, k requires 0 <= k < n => g(commits[k]))
  }

  /** The first `n` commit lines. */
  function CommitLines(f: CommentFormatter, commits: seq<CommitRecord>, n: nat): seq<string>
    requires n <= |commits|
  {
    MapPrefix(LineOf(f), commits, n)
  }

  /** The first `n` file lines. */
  function FileLines(files: seq<string>, n: nat): seq<string>
    requires n <= |files|
  {
    seq(n, k requires 0 <= k < n => "* " + files[k])
  }

  lemma MapPrefixStep(g: CommitRecord -> string, commits: seq<CommitRecord>, i: nat)
    requires i < |commits|
    ensures MapPrefix(g, commits, i + 1) == MapPrefix(g, commits, i) + [g(commits[i])]
  {
  }

  lemma MapPrefixAt(g: CommitRecord -> string, commits: seq<CommitRecord>, n: nat)
    requires n <= |commits|
    ensures |MapPrefix(g, commits, n)| == n
    ensures forall k :: 0 <= k < n ==> MapPrefix(g, commits, n)[k] == g(commits[k])
  {
  }

  lemma FileLinesStep(files: seq<string>, i: nat)
    requires i < |files|
    ensures FileLines(files, i + 1) == FileLines(files, i) + ["* " + files[i]]
  {
  }

  /** The lines of a comment for several commits. */
  function PushLines(summary: string, commitLines: seq<string>, files: seq<string>): seq<string> {
    ["*Code changes pushed with multiple commits*", "", "h2. Push Summary", summary, "", "h3. Commits"]
    + commitLines + ["", "h3. File Changes"] + FileLines(files, |files|)
  }

  function PushLinesOf(f: CommentFormatter, p: PushRecord): seq<string> {
    PushLines(p.summary, CommitLines(f, p.commits, |p.commits|), SortedSet(AllPaths(p.commits)))
  }

  function PushCommentOf(f: CommentFormatter, p: PushRecord): string {
    if |p.commits| == 0 then "No commits to analyze."
    else if |p.commits| == 1 then FormatCommitComment(f, p.commits[0])
    else Join("\n", PushLinesOf(f, p))
  }

  /** `sorted(all_files)`. */
  method SortPaths(allFiles: set<string>) returns (sorted: seq<string>)
    ensures StrictlySorted(sorted)
    ensures forall x :: x in sorted <==> x in allFiles
  {
    sorted := [];
    var rest := allFiles;
    while rest != {}
      invariant StrictlySorted(sorted)
      invariant forall x :: x in sorted <==> x in allFiles && x !in rest
      invariant rest <= allFiles
      decreases |rest|
    {
      var x :| x in rest;
      InsertSortedFacts(sorted, x);
      sorted := InsertSorted(sorted, x);
      rest := rest - {x};
    }
  }

  /** The `all_files` loop of `format_push_comment`: the set of the paths of
      all changes of all commits. */
  method CollectPaths(commits: seq<CommitRecord>) returns (allFiles: set<string>)
    ensures allFiles == Elements(AllPaths(commits))
  {
    allFiles := {};
    for i := 0 to |commits|
      invariant allFiles == Elements(AllPaths(commits[..i]))
    {
      AllPathsStep(commits, i);
      var done := AllPaths(commits[..i]);
      var cs := commits[i].changes;
      for j := 0 to |cs|
        invariant allFiles == Elements(done) + set k | 0 <= k < j :: cs[k].path
      {
        allFiles := allFiles + {cs[j].path};
      }
      ElementsOfPaths(done, cs);
    }
    assert commits[..|commits|] == commits;
    assert allFiles == Elements(AllPaths(commits));
  }

  /** `format_push_comment`. */
  method FormatPushComment(f: CommentFormatter, p: PushRecord) returns (r: string)
    ensures r == PushCommentOf(f, p)
  {
    var commits := p.commits;
    if |commits| == 0 {
      return "No commits to analyze.";
    }
    if |commits| == 1 {
      return FormatCommitComment(f, commits[0]);
    }
    var header := ["*Code changes pushed with multiple commits*", "", "h2. Push Summary", p.summary, "", "h3. Commits"];
    var commentLines := header;
    for i := 0 to |commits|
      invariant commentLines == header + CommitLines(f, commits, i)
    {
      var commit := commits[i];
      var hashShort := ShortHash(commit.hash);
      var message := Split(commit.message, '\n')[0];
      var author := AuthorName(commit.author);
      var date := DisplayDate(f, commit.date);
      var commitUrl := UrlText(commit);
      MapPrefixStep(LineOf(f), commits, i);
      commentLines := commentLines + ["* [" + hashShort + "|" + commitUrl + "] - " + message + " - by " + author + " on " + date];
    }
    commentLines := commentLines + ["", "h3. File Changes"];
    var allFiles := CollectPaths(commits);
    var sorted := SortPaths(allFiles);
    SortedSetFacts(AllPaths(commits));
    SortedUnique(sorted, SortedSet(AllPaths(commits)));
    var head := commentLines;
    for i := 0 to |sorted|
      invariant commentLines == head + FileLines(sorted, i)
    {
      FileLinesStep(sorted, i);
      commentLines := commentLines + ["* " + sorted[i]];
    }
    r := Join("\n", commentLines);
  }

  function Elements(s: seq<string>): set<string> {
    set x | x in s
  }

  /* ======================================================================
     Lemmas
     ====================================================================== */

  /* --- single values ---------------------------------------------------- */

  /** The author text `name <email>` written by the git analyzer gives back
      the name, stripped. */
  lemma AuthorOfRecord(name: string, email: string)
    requires '<' !in name
    ensures AuthorName(name + " <" + email + ">") == Strip(name + " ")
  {
    assert name + " <" + email + ">" == (name + " ") + ['<'] + (email + ">");
    assert '<' !in name + " ";
    SplitAfterPiece(name + " ", email + ">", '<');
  }

  /** Trailing blanks do not change a stripped name. */
  lemma StripTrailingSpace(name: string)
    ensures Strip(name + " ") == Strip(name)
  {
    var t := name + " ";
    assert t[..|t| - 1] == name;
    LeadingSpacesAppendSpace(name);
    var i, j := LeadingSpaces(name), TrailingStart(name);
    if i < j {
      assert t[i..j] == name[i..j];
    }
  }

  lemma {:induction false} LeadingSpacesAppendSpace(s: string)
    ensures LeadingSpaces(s + " ") == if LeadingSpaces(s) == |s| then |s| + 1 else LeadingSpaces(s)
    decreases |s|
  {
    if |s| > 0 && IsSpace(s[0]) {
      assert (s + " ")[1..] == s[1..] + " ";
      LeadingSpacesAppendSpace(s[1..]);
    } else if |s| == 0 {
      assert " "[1..] == "";
    }
  }

  /** The author shown for a record written by the git analyzer is the
      author's stripped name. */
  lemma CommentAuthor(name: string, email: string)
    requires '<' !in name
    ensures AuthorName(name + " <" + email + ">") == Strip(name)
  {
    AuthorOfRecord(name, email);
    StripTrailingSpace(name);
  }

  /** The shown summary prefers the detailed summary, then the AI summary,
      and falls back to the basic summary only when neither exists. */
  lemma SummaryPrecedence(c: CommitRecord, detailed: string, ai: string)
    ensures SummaryText(c.(detailedSummary := Some(detailed))) == detailed
    ensures SummaryText(c.(detailedSummary := None, aiSummary := Some(ai))) == ai
    ensures SummaryText(c.(detailedSummary := None, aiSummary := None)) == c.summary
  {
  }

  /* --- files changed ---------------------------------------------------- */

  lemma NoNewlineInNumber(n: nat)
    ensures '\n' !in NatToString(n)
  {
  }

  lemma ChangeLineShape(ch: ChangeRecord)
    requires '\n' !in ch.path
    ensures StartsWith(ChangeLine(ch), "* " + ch.path + " - ")
    ensures '\n' !in ChangeLine(ch)
  {
    NoNewlineInNumber(ch.insertions);
    NoNewlineInNumber(ch.deletions);
    var head := "* " + ch.path + " - ";
    assert '\n' !in ChangeText(ch);
    assert (head + ChangeText(ch))[..|head|] == head;
  }

  /** Without file analyses, the files-changed text splits back into one line
      per change, line i starting with the i-th path. */
  lemma FilesChangedLines(c: CommitRecord)
    requires c.fileAnalyses.None? && |c.changes| > 0
    requires forall i :: 0 <= i < |c.changes| ==> '\n' !in c.changes[i].path
    ensures |Split(FilesChangedOf(c), '\n')| == |c.changes|
    ensures forall i :: 0 <= i < |c.changes| ==>
              Split(FilesChangedOf(c), '\n')[i] == ChangeLine(c.changes[i])
              && StartsWith(Split(FilesChangedOf(c), '\n')[i], "* " + c.changes[i].path + " - ")
  {
    var lines := FileLinesOf(c);
    forall i | 0 <= i < |lines| ensures '\n' !in lines[i] && StartsWith(lines[i], "* " + c.changes[i].path + " - ") {
      ChangeLineShape(c.changes[i]);
    }
    SplitOfJoin(lines, '\n');
  }

  /** With file analyses, each analysis gives one line `* path - summary`;
      the change entries are not used. */
  lemma FilesChangedFromAnalyses(c: CommitRecord, changes: seq<ChangeRecord>)
    requires c.fileAnalyses.Some?
    ensures FilesChangedOf(c) == FilesChangedOf(c.(changes := changes))
    ensures |FileLinesOf(c)| == |c.fileAnalyses.value|
    ensures c.fileAnalyses.value == [] ==> FilesChangedOf(c) == ""
  {
  }

  /* --- template substitution -------------------------------------------- */

  predicate BraceFree(s: string) {
    '{' !in s
  }

  /** A placeholder's name: no brace in it. */
  predicate NameOk(n: string) {
    '{' !in n && '}' !in n
  }

  /** The placeholder `{n}`. */
  function Brace(n: string): (p: string)
    ensures |p| == |n| + 2
  {
    "{" + n + "}"
  }

  /** `{name}`: braces only at the two ends. */
  predicate Placeholder(p: string) {
    && |p| >= 2 && p[0] == '{' && p[|p| - 1] == '}'
    && forall i :: 0 < i < |p| - 1 ==> p[i] != '{' && p[i] != '}'
  }

  lemma PlaceholderOf(n: string)
    requires NameOk(n)
    ensures Placeholder(Brace(n))
  {
    var p := Brace(n);
    forall i | 0 < i < |p| - 1 ensures p[i] != '{' && p[i] != '}' {
      assert p[i] == n[i - 1];
    }
  }

  /** A template cut into brace-free text and named placeholders. */
  datatype Piece = Lit(text: string) | Hole(name: string)

  function Render(x: Piece): string {
    match x
    case Lit(t) => t
    case Hole(n) => Brace(n)
  }

  function Flatten(ps: seq<Piece>): string
    decreases |ps|
  {
    if ps == [] then "" else Render(ps[0]) + Flatten(ps[1..])
  }

  predicate WellFormed(ps: seq<Piece>) {
    forall i :: 0 <= i < |ps| ==> (ps[i].Lit? ==> BraceFree(ps[i].text)) && (ps[i].Hole? ==> NameOk(ps[i].name))
  }

  /** The pieces with the placeholder named `n` filled in by `rep`. */
  function Fill(ps: seq<Piece>, n: string, rep: string): (r: seq<Piece>)
    ensures |r| == |ps|
  {
    seq(|ps|, i requires 0 <= i < |ps| => if ps[i] == Hole(n) then Lit(rep) else ps[i])
  }

  lemma BraceFreeAbsent(s: string, p: string)
    requires BraceFree(s) && |p| > 0 && p[0] == '{'
    ensures !Contains(s, p)
  {
  }

  lemma ClosedPlaceholders(q: string, p: string)
    requires Placeholder(q) && Placeholder(p) && q != p
    ensures !Contains(q, p)
  {
  }

  /** A placeholder occurs in another placeholder only if they are equal. */
  lemma PlaceholderInPlaceholder(m: string, n: string)
    requires NameOk(m) && NameOk(n) && m != n
    ensures !Contains(Brace(m), Brace(n))
  {
    PlaceholderOf(m);
    PlaceholderOf(n);
    assert Brace(m)[1..|m| + 1] == m;
    assert Brace(n)[1..|n| + 1] == n;
    ClosedPlaceholders(Brace(m), Brace(n));
  }

  /** No occurrence of `p` in `x + y` starts in `x` and ends in `y`. */
  predicate NoneStraddles(x: string, y: string, p: string) {
    forall i :: 0 <= i < |x| && |x| < i + |p| ==> !OccursAt(x + y, p, i)
  }

  /** Dropping a prefix of `x` keeps the parts apart. */
  lemma NoneStraddlesShift(x: string, y: string, p: string, k: nat)
    requires k <= |x| && NoneStraddles(x, y, p)
    ensures NoneStraddles(x[k..], y, p)
  {
    var s := x + y;
    assert s[k..] == x[k..] + y;
    forall i | 0 <= i < |x[k..]| && |x[k..]| < i + |p| ensures !OccursAt(x[k..] + y, p, i) {
      OccursShift(s, p, k, i);
    }
  }

  /** Replacing in a concatenation is replacing in each part, provided no
      occurrence straddles the two. */
  lemma {:induction false} ReplaceConcat(x: string, y: string, p: string, rep: string)
    requires |p| > 0 && NoneStraddles(x, y, p)
    ensures ReplaceAll(x + y, p, rep) == ReplaceAll(x, p, rep) + ReplaceAll(y, p, rep)
    decreases |x|
  {
    var s := x + y;
    if |x| == 0 {
      assert s == y;
    } else if |s| < |p| {
    } else if s[..|p|] == p {
      assert OccursAt(s, p, 0);
      assert x[..|p|] == p;
      assert s[|p|..] == x[|p|..] + y;
      NoneStraddlesShift(x, y, p, |p|);
      ReplaceConcat(x[|p|..], y, p, rep);
    } else {
      assert s[1..] == x[1..] + y;
      assert |x| >= |p| ==> x[..|p|] == s[..|p|];
      NoneStraddlesShift(x, y, p, 1);
      ReplaceConcat(x[1..], y, p, rep);
      assert x == [x[0]] + x[1..];
    }
  }

  lemma ReplaceWhole(p: string, rep: string)
    requires |p| > 0
    ensures ReplaceAll(p, p, rep) == rep
  {
    assert p[..|p|] == p;
    assert p[|p|..] == "";
  }

  /** No occurrence of a placeholder starts inside one piece and ends in the
      next. */
  lemma NoStraddle(x0: Piece, y: string, n: string)
    requires (x0.Lit? ==> BraceFree(x0.text)) && (x0.Hole? ==> NameOk(x0.name)) && NameOk(n)
    ensures NoneStraddles(Render(x0), y, Brace(n))
  {
    var x, p := Render(x0), Brace(n);
    forall i | 0 <= i < |x| && |x| < i + |p| ensures !OccursAt(x + y, p, i) {
      assert p[0] == '{';
      assert i + |p| <= |x + y| ==> (x + y)[i..i + |p|][0] == x[i] && (x + y)[i..i + |p|][|x| - 1 - i] == x[|x| - 1];
      if x0.Lit? {
        assert x[i] in x;
      } else if i == 0 {
        assert x[|x| - 1] == '}';
        assert p[|x| - 1] == n[|x| - 2];
        assert n[|x| - 2] in n;
      } else {
        var m := x0.name;
        assert x[i] == '}' || x[i] == m[i - 1];
        assert i < |x| - 1 ==> m[i - 1] in m;
      }
    }
  }

  /** Replacing a placeholder in a well-formed template replaces exactly the
      pieces that are that placeholder. */
  lemma {:induction false} ReplaceFlatten(ps: seq<Piece>, n: string, rep: string)
    requires WellFormed(ps) && NameOk(n) && BraceFree(rep)
    ensures ReplaceAll(Flatten(ps), Brace(n), rep) == Flatten(Fill(ps, n, rep))
    ensures WellFormed(Fill(ps, n, rep))
    decreases |ps|
  {
    if ps != [] {
      var p := Brace(n);
      var x := Render(ps[0]);
      var y := Flatten(ps[1..]);
      NoStraddle(ps[0], y, n);
      ReplaceConcat(x, y, p, rep);
      match ps[0] {
        case Lit(t) => BraceFreeAbsent(t, p); ReplaceAbsent(t, p, rep);
        case Hole(m) =>
          if m == n {
            ReplaceWhole(p, rep);
          } else {
            PlaceholderInPlaceholder(m, n);
            ReplaceAbsent(x, p, rep);
          }
      }
      ReplaceFlatten(ps[1..], n, rep);
      assert Fill(ps, n, rep)[1..] == Fill(ps[1..], n, rep);
    }
  }

  /** The default template, cut into its text and its placeholders:
      the lines "", "*Code changes pushed by {author} on {date}*", "",
      "*Commit:* {commit_hash}", "*Message:* {commit_message}", "",
      "h2. Summary of Changes", "{summary}", "", "h3. Files Changed",
      "{files_changed}", "", "[View full changes|{commit_url}]", each ended
      by a line break. */
  function DefaultPieces(): seq<Piece> {
    [ Lit("\n*Code changes pushed by "), Hole("author"), Lit(" on "), Hole("date"),
      Lit("*\n\n*Commit:* "), Hole("commit_hash"), Lit("\n*Message:* "), Hole("commit_message"),
      Lit("\n\nh2. Summary of Changes\n"), Hole("summary"), Lit("\n\nh3. Files Changed\n"),
      Hole("files_changed"), Lit("\n\n[View full changes|"), Hole("commit_url"), Lit("]\n") ]
  }

  lemma HeadTextsBraceFree()
    ensures BraceFree("\n*Code changes pushed by ") && BraceFree(" on ") && BraceFree("*\n\n*Commit:* ")
    ensures BraceFree("\n*Message:* ")
  {
  }

  lemma TailTextsBraceFree()
    ensures BraceFree("\n\nh2. Summary of Changes\n") && BraceFree("\n\nh3. Files Changed\n")
    ensures BraceFree("\n\n[View full changes|") && BraceFree("]\n")
  {
  }

  lemma HeadNamesOk()
    ensures NameOk("commit_hash") && NameOk("commit_message") && NameOk("author") && NameOk("date")
  {
  }

  lemma TailNamesOk()
    ensures NameOk("summary") && NameOk("files_changed") && NameOk("commit_url")
  {
  }

  lemma PlaceholderNamesOk()
    ensures NameOk("commit_hash") && NameOk("commit_message") && NameOk("author") && NameOk("date")
    ensures NameOk("summary") && NameOk("files_changed") && NameOk("commit_url")
  {
    HeadNamesOk();
    TailNamesOk();
  }

  lemma DefaultPiecesFacts()
    ensures WellFormed(DefaultPieces())
  {
    HeadTextsBraceFree();
    TailTextsBraceFree();
    PlaceholderNamesOk();
  }

  /** The comment built from the default template, as a text. */
  function DefaultComment(author: string, date: string, hash: string, message: string,
                          summary: string, files: string, url: string): string
  {
    Concat([ "\n*Code changes pushed by ", author, " on ", date, "*\n\n*Commit:* ", hash,
             "\n*Message:* ", message, "\n\nh2. Summary of Changes\n", summary,
             "\n\nh3. Files Changed\n", files, "\n\n[View full changes|", url, "]\n" ])
  }

  /** The default pieces with all seven placeholders filled in, in the order
      `format_commit_comment` fills them. */
  function FilledPieces(author: string, date: string, hash: string, message: string,
                        summary: string, files: string, url: string): seq<Piece>
  {
    Fill(Fill(Fill(Fill(Fill(Fill(Fill(DefaultPieces(),
      "commit_hash", hash), "commit_message", message), "author", author),
      "date", date), "summary", summary), "files_changed", files), "commit_url", url)
  }

  /** The first four replacements fill the placeholders of the first lines. */
  lemma FilledHead(hash: string, message: string, author: string, date: string)
    ensures Fill(Fill(Fill(Fill(DefaultPieces(), "commit_hash", hash), "commit_message", message), "author", author), "date", date)
            == [ Lit("\n*Code changes pushed by "), Lit(author), Lit(" on "), Lit(date),
                 Lit("*\n\n*Commit:* "), Lit(hash), Lit("\n*Message:* "), Lit(message),
                 Lit("\n\nh2. Summary of Changes\n"), Hole("summary"), Lit("\n\nh3. Files Changed\n"),
                 Hole("files_changed"), Lit("\n\n[View full changes|"), Hole("commit_url"), Lit("]\n") ]
  {
  }

  /** The last three replacements fill the remaining placeholders. */
  lemma FilledTail(ps: seq<Piece>, summary: string, files: string, url: string)
    requires |ps| == 15 && ps[9] == Hole("summary") && ps[11] == Hole("files_changed") && ps[13] == Hole("commit_url")
    requires forall i :: 0 <= i < 15 && i != 9 && i != 11 && i != 13 ==> ps[i].Lit?
    ensures var r := Fill(Fill(Fill(ps, "summary", summary), "files_changed", files), "commit_url", url);
            && |r| == 15 && r[9] == Lit(summary) && r[11] == Lit(files) && r[13] == Lit(url)
            && forall i :: 0 <= i < 15 && i != 9 && i != 11 && i != 13 ==> r[i] == ps[i]
  {
  }

  lemma FilledDefault(author: string, date: string, hash: string, message: string,
                      summary: string, files: string, url: string)
    ensures Flatten(FilledPieces(author, date, hash, message, summary, files, url))
            == DefaultComment(author, date, hash, message, summary, files, url)
  {
    var texts := [ "\n*Code changes pushed by ", author, " on ", date, "*\n\n*Commit:* ", hash,
                   "\n*Message:* ", message, "\n\nh2. Summary of Changes\n", summary,
                   "\n\nh3. Files Changed\n", files, "\n\n[View full changes|", url, "]\n" ];
    var head := Fill(Fill(Fill(Fill(DefaultPieces(), "commit_hash", hash), "commit_message", message), "author", author), "date", date);
    FilledHead(hash, message, author, date);
    FilledTail(head, summary, files, url);
    var lits := seq(15, i requires 0 <= i < 15 => Lit(texts[i]));
    var r := FilledPieces(author, date, hash, message, summary, files, url);
    forall i | 0 <= i < 15 ensures r[i] == lits[i] {
      if i != 9 && i != 11 && i != 13 {
        assert r[i] == head[i];
      }
    }
    assert r == lits;
    FlattenLits(texts);
  }

  function Concat(ss: seq<string>): string
    decreases |ss|
  {
    if ss == [] then "" else ss[0] + Concat(ss[1..])
  }

  lemma {:induction false} FlattenLits(ss: seq<string>)
    ensures Flatten(seq(|ss|, i requires 0 <= i < |ss| => Lit(ss[i]))) == Concat(ss)
    decreases |ss|
  {
    if ss != [] {
      var ps := seq(|ss|, i requires 0 <= i < |ss| => Lit(ss[i]));
      assert ps[1..] == seq(|ss[1..]|, i requires 0 <= i < |ss[1..]| => Lit(ss[1..][i]));
      FlattenLits(ss[1..]);
    }
  }

  /** Each replacement of `format_commit_comment` on the default template
      fills one placeholder of the pieces. */
  lemma DefaultReplacements(f: CommentFormatter, c: CommitRecord)
    requires f.template == DefaultTemplate
    requires BraceFree(ShortHash(c.hash)) && BraceFree(Strip(c.message)) && BraceFree(AuthorName(c.author))
    requires BraceFree(DisplayDate(f, c.date)) && BraceFree(SummaryText(c)) && BraceFree(FilesChangedOf(c))
    requires BraceFree(UrlText(c))
    ensures FormatCommitComment(f, c)
            == Flatten(FilledPieces(AuthorName(c.author), DisplayDate(f, c.date), ShortHash(c.hash), Strip(c.message),
                                    SummaryText(c), FilesChangedOf(c), UrlText(c)))
  {
    DefaultPiecesFacts();
    PlaceholderNamesOk();
    var p0 := DefaultPieces();
    ReplaceFlatten(p0, "commit_hash", ShortHash(c.hash));
    var p1 := Fill(p0, "commit_hash", ShortHash(c.hash));
    ReplaceFlatten(p1, "commit_message", Strip(c.message));
    var p2 := Fill(p1, "commit_message", Strip(c.message));
    ReplaceFlatten(p2, "author", AuthorName(c.author));
    var p3 := Fill(p2, "author", AuthorName(c.author));
    ReplaceFlatten(p3, "date", DisplayDate(f, c.date));
    var p4 := Fill(p3, "date", DisplayDate(f, c.date));
    ReplaceFlatten(p4, "summary", SummaryText(c));
    var p5 := Fill(p4, "summary", SummaryText(c));
    ReplaceFlatten(p5, "files_changed", FilesChangedOf(c));
    var p6 := Fill(p5, "files_changed", FilesChangedOf(c));
    ReplaceFlatten(p6, "commit_url", UrlText(c));
  }

  /** With the default template, a comment is the default layout with the
      short hash, stripped message, author name, date, summary, file lines
      and URL in their places, provided none of these values holds a '{'. */
  lemma DefaultCommentLayout(f: CommentFormatter, c: CommitRecord)
    requires f.template == DefaultTemplate
    requires BraceFree(ShortHash(c.hash)) && BraceFree(Strip(c.message)) && BraceFree(AuthorName(c.author))
    requires BraceFree(DisplayDate(f, c.date)) && BraceFree(SummaryText(c)) && BraceFree(FilesChangedOf(c))
    requires BraceFree(UrlText(c))
    ensures FormatCommitComment(f, c)
            == DefaultComment(AuthorName(c.author), DisplayDate(f, c.date), ShortHash(c.hash), Strip(c.message),
                              SummaryText(c), FilesChangedOf(c), UrlText(c))
  {
    DefaultReplacements(f, c);
    FilledDefault(AuthorName(c.author), DisplayDate(f, c.date), ShortHash(c.hash), Strip(c.message),
                  SummaryText(c), FilesChangedOf(c), UrlText(c));
  }

  /** A template without any placeholder is returned unchanged. */
  lemma PlainTemplate(f: CommentFormatter, c: CommitRecord)
    requires BraceFree(f.template)
    ensures FormatCommitComment(f, c) == f.template
  {
    var t := f.template;
    BraceFreeAbsent(t, Brace("commit_hash"));
    ReplaceAbsent(t, Brace("commit_hash"), ShortHash(c.hash));
    BraceFreeAbsent(t, Brace("commit_message"));
    ReplaceAbsent(t, Brace("commit_message"), Strip(c.message));
    BraceFreeAbsent(t, Brace("author"));
    ReplaceAbsent(t, Brace("author"), AuthorName(c.author));
    BraceFreeAbsent(t, Brace("date"));
    ReplaceAbsent(t, Brace("date"), DisplayDate(f, c.date));
    BraceFreeAbsent(t, Brace("summary"));
    ReplaceAbsent(t, Brace("summary"), SummaryText(c));
    BraceFreeAbsent(t, Brace("files_changed"));
    ReplaceAbsent(t, Brace("files_changed"), FilesChangedOf(c));
    BraceFreeAbsent(t, Brace("commit_url"));
    ReplaceAbsent(t, Brace("commit_url"), UrlText(c));
  }

  /** `t` holds only the placeholder `{m}`; replacing `{n}` for another name
      leaves it alone. */
  lemma OtherPlaceholder(m: string, n: string, rep: string)
    requires NameOk(m) && NameOk(n) && m != n
    ensures ReplaceAll(Brace(m), Brace(n), rep) == Brace(m)
  {
    PlaceholderInPlaceholder(m, n);
    ReplaceAbsent(Brace(m), Brace(n), rep);
  }

  /** The replacements are sequential: a commit message that itself holds
      "{summary}" shows the summary in its place. */
  lemma MessageExpandsLaterPlaceholder(f: CommentFormatter, c: CommitRecord)
    requires f.template == Brace("commit_message") && Strip(c.message) == Brace("summary")
    requires BraceFree(SummaryText(c))
    ensures FormatCommitComment(f, c) == SummaryText(c)
  {
    PlaceholderNamesOk();
    OtherPlaceholder("commit_message", "commit_hash", ShortHash(c.hash));
    ReplaceWhole(Brace("commit_message"), Brace("summary"));
    OtherPlaceholder("summary", "author", AuthorName(c.author));
    OtherPlaceholder("summary", "date", DisplayDate(f, c.date));
    ReplaceWhole(Brace("summary"), SummaryText(c));
    var s := SummaryText(c);
    BraceFreeAbsent(s, Brace("files_changed"));
    ReplaceAbsent(s, Brace("files_changed"), FilesChangedOf(c));
    BraceFreeAbsent(s, Brace("commit_url"));
    ReplaceAbsent(s, Brace("commit_url"), UrlText(c));
  }

  /* --- push comment ----------------------------------------------------- */

  lemma {:induction false} InsertSortedFacts(s: seq<string>, x: string)
    requires StrictlySorted(s)
    ensures StrictlySorted(InsertSorted(s, x))
    ensures forall y :: y in InsertSorted(s, x) <==> y == x || y in s
    decreases |s|
  {
    if s != [] && x != s[0] && !Below(x, s[0]) {
      InsertSortedFacts(s[1..], x);
      var r := InsertSorted(s, x);
      BelowTotal(x, s[0]);
      forall i, j | 0 <= i < j < |r| ensures Below(r[i], r[j]) {
        if i == 0 {
          var y := r[j];
          assert y in InsertSorted(s[1..], x);
          if y != x {
            var k :| 0 <= k < |s[1..]| && s[1..][k] == y;
            assert s[k + 1] == y;
          }
        } else {
          assert r[i] == InsertSorted(s[1..], x)[i - 1];
        }
      }
      forall y ensures y in r <==> y == x || y in s {
        assert y in s <==> y == s[0] || y in s[1..] by {
          assert s == [s[0]] + s[1..];
        }
      }
    } else if s != [] && x != s[0] {
      var r := [x] + s;
      forall i, j | 0 <= i < j < |r| ensures Below(r[i], r[j]) {
        if i == 0 && j > 1 {
          BelowTransitive(x, s[0], s[j - 1]);
        }
      }
    }
  }

  lemma {:induction false} SortedSetFacts(xs: seq<string>)
    ensures StrictlySorted(SortedSet(xs))
    ensures forall y :: y in SortedSet(xs) <==> y in xs
    decreases |xs|
  {
    if xs != [] {
      var init := xs[..|xs| - 1];
      SortedSetFacts(init);
      InsertSortedFacts(SortedSet(init), xs[|xs| - 1]);
      assert xs == init + [xs[|xs| - 1]];
    }
  }

  /** Two ascending lists without repetitions that hold the same strings are
      equal: `sorted` of a set does not depend on the set's order. */
  lemma {:induction false} SortedUnique(a: seq<string>, b: seq<string>)
    requires StrictlySorted(a) && StrictlySorted(b)
    requires forall y :: y in a <==> y in b
    ensures a == b
    decreases |a|
  {
    assert a != [] ==> a[0] in b;
    assert b != [] ==> b[0] in a;
    if a != [] && b != [] {
      var i :| 0 <= i < |a| && a[i] == b[0];
      var j :| 0 <= j < |b| && b[j] == a[0];
      BelowAsymmetric(a[0], b[0]);
      assert a[0] == b[0];
      forall y ensures y in a[1..] <==> y in b[1..] {
        if y in a[1..] {
          var i :| 0 <= i < |a[1..]| && a[1..][i] == y;
          assert Below(a[0], a[i + 1]);
          BelowIrreflexive(y);
          assert y in b;
          var j :| 0 <= j < |b| && b[j] == y;
          assert j != 0;
          assert b[1..][j - 1] == y;
        }
        if y in b[1..] {
          var j :| 0 <= j < |b[1..]| && b[1..][j] == y;
          assert Below(b[0], b[j + 1]);
          BelowIrreflexive(y);
          assert y in a;
          var i :| 0 <= i < |a| && a[i] == y;
          assert i != 0;
          assert a[1..][i - 1] == y;
        }
      }
      SortedUnique(a[1..], b[1..]);
      assert a == [a[0]] + a[1..];
      assert b == [b[0]] + b[1..];
    }
  }

  lemma ElementsOfPaths(done: seq<string>, cs: seq<ChangeRecord>)
    ensures Elements(done + seq(|cs|, k requires 0 <= k < |cs| => cs[k].path))
            == Elements(done) + set k | 0 <= k < |cs| :: cs[k].path
  {
    var tail := seq(|cs|, k requires 0 <= k < |cs| => cs[k].path);
    forall x | x in Elements(done + tail) ensures x in Elements(done) + set k | 0 <= k < |cs| :: cs[k].path {
      assert x in done || x in tail;
      if x !in done {
        var k :| 0 <= k < |tail| && tail[k] == x;
        assert cs[k].path == x;
      }
    }
    forall x | x in set k | 0 <= k < |cs| :: cs[k].path ensures x in Elements(done + tail) {
      var k :| 0 <= k < |cs| && cs[k].path == x;
      assert tail[k] == x;
      assert (done + tail)[|done| + k] == x;
    }
  }

  lemma AllPathsStep(commits: seq<CommitRecord>, i: nat)
    requires i < |commits|
    ensures var cs := commits[i].changes;
      AllPaths(commits[..i + 1]) == AllPaths(commits[..i]) + seq(|cs|, k requires 0 <= k < |cs| => cs[k].path)
  {
    assert commits[..i + 1][..i] == commits[..i];
  }

  /** The file list of a push comment names every changed path exactly once,
      in ascending order. */
  lemma PushFileList(commits: seq<CommitRecord>, path: string)
    ensures StrictlySorted(SortedSet(AllPaths(commits)))
    ensures path in SortedSet(AllPaths(commits))
            <==> exists i, k :: 0 <= i < |commits| && 0 <= k < |commits[i].changes| && commits[i].changes[k].path == path
  {
    SortedSetFacts(AllPaths(commits));
    AllPathsMembers(commits, path);
  }

  lemma {:induction false} AllPathsMembers(commits: seq<CommitRecord>, path: string)
    ensures path in AllPaths(commits)
            <==> exists i, k :: 0 <= i < |commits| && 0 <= k < |commits[i].changes| && commits[i].changes[k].path == path
    decreases |commits|
  {
    if commits != [] {
      var n := |commits| - 1;
      var init := commits[..n];
      AllPathsMembers(init, path);
      var cs := commits[n].changes;
      PathsOfChanges(cs, path);
      TouchedSplit(commits, path);
      assert AllPaths(commits) == AllPaths(init) + seq(|cs|, k requires 0 <= k < |cs| => cs[k].path);
    }
  }

  lemma PathsOfChanges(cs: seq<ChangeRecord>, path: string)
    ensures path in seq(|cs|, k requires 0 <= k < |cs| => cs[k].path)
            <==> exists k :: 0 <= k < |cs| && cs[k].path == path
  {
    var tail := seq(|cs|, k requires 0 <= k < |cs| => cs[k].path);
    if path in tail {
      var k :| 0 <= k < |tail| && tail[k] == path;
      assert cs[k].path == path;
    }
    if exists k :: 0 <= k < |cs| && cs[k].path == path {
      var k :| 0 <= k < |cs| && cs[k].path == path;
      assert tail[k] == path;
    }
  }

  /** A path is changed by some commit exactly when it is changed by one of
      the earlier commits or by the last. */
  lemma TouchedSplit(commits: seq<CommitRecord>, path: string)
    requires commits != []
    ensures var n := |commits| - 1;
            (exists i, k :: 0 <= i < |commits| && 0 <= k < |commits[i].changes| && commits[i].changes[k].path == path)
            <==> (|| (exists i, k :: 0 <= i < n && 0 <= k < |commits[..n][i].changes| && commits[..n][i].changes[k].path == path)
                  || (exists k :: 0 <= k < |commits[n].changes| && commits[n].changes[k].path == path))
  {
    var n := |commits| - 1;
    var init := commits[..n];
    if exists i, k :: 0 <= i < |commits| && 0 <= k < |commits[i].changes| && commits[i].changes[k].path == path {
      var i, k :| 0 <= i < |commits| && 0 <= k < |commits[i].changes| && commits[i].changes[k].path == path;
      if i < n {
        assert init[i] == commits[i];
      }
    }
    if exists i, k :: 0 <= i < n && 0 <= k < |init[i].changes| && init[i].changes[k].path == path {
      var i, k :| 0 <= i < n && 0 <= k < |init[i].changes| && init[i].changes[k].path == path;
      assert commits[i] == init[i];
    }
  }

  /** A push comment: a fixed text without commits, the single commit's
      comment for one commit, and otherwise the header, one line per commit
      in order, and one line per distinct changed path. */
  lemma PushCommentShape(f: CommentFormatter, p: PushRecord)
    ensures |p.commits| == 0 ==> PushCommentOf(f, p) == "No commits to analyze."
    ensures |p.commits| == 1 ==> PushCommentOf(f, p) == FormatCommitComment(f, p.commits[0])
    ensures |PushLinesOf(f, p)| == 8 + |p.commits| + |Elements(AllPaths(p.commits))|
    ensures forall i :: 0 <= i < |p.commits| ==> PushLinesOf(f, p)[6 + i] == CommitLine(f, p.commits[i])
    ensures forall j :: 0 <= j < |Elements(AllPaths(p.commits))| ==>
              PushLinesOf(f, p)[8 + |p.commits| + j] == "* " + SortedSet(AllPaths(p.commits))[j]
  {
    PushLinesShape(f, p);
  }

  lemma PushLinesShape(f: CommentFormatter, p: PushRecord)
    ensures |PushLinesOf(f, p)| == 8 + |p.commits| + |Elements(AllPaths(p.commits))|
    ensures forall i :: 0 <= i < |p.commits| ==> PushLinesOf(f, p)[6 + i] == CommitLine(f, p.commits[i])
    ensures forall j :: 0 <= j < |Elements(AllPaths(p.commits))| ==>
              PushLinesOf(f, p)[8 + |p.commits| + j] == "* " + SortedSet(AllPaths(p.commits))[j]
  {
    var files := SortedSet(AllPaths(p.commits));
    FilesCount(p.commits);
    var cl := CommitLines(f, p.commits, |p.commits|);
    MapPrefixAt(LineOf(f), p.commits, |p.commits|);
    PushLinesLayout(p.summary, cl, files);
    assert PushLinesOf(f, p) == PushLines(p.summary, cl, files);
    forall i | 0 <= i < |p.commits| ensures PushLinesOf(f, p)[6 + i] == CommitLine(f, p.commits[i]) {
      assert cl[i] == LineOf(f)(p.commits[i]);
    }
  }

  /** The file list names each changed path once. */
  lemma FilesCount(commits: seq<CommitRecord>)
    ensures |SortedSet(AllPaths(commits))| == |Elements(AllPaths(commits))|
  {
    var files := SortedSet(AllPaths(commits));
    SortedSetFacts(AllPaths(commits));
    DistinctCount(files);
    assert Elements(files) == Elements(AllPaths(commits));
  }

  /** Where the commit lines and the file lines sit in a push comment. */
  lemma PushLinesLayout(summary: string, commitLines: seq<string>, files: seq<string>)
    ensures var lines := PushLines(summary, commitLines, files);
            && |lines| == 8 + |commitLines| + |files|
            && (forall i :: 0 <= i < |commitLines| ==> lines[6 + i] == commitLines[i])
            && (forall j :: 0 <= j < |files| ==> lines[8 + |commitLines| + j] == "* " + files[j])
  {
    var head := ["*Code changes pushed with multiple commits*", "", "h2. Push Summary", summary, "", "h3. Commits"];
    var fl := FileLines(files, |files|);
    var lines := PushLines(summary, commitLines, files);
    Layout(head, commitLines, ["", "h3. File Changes"], fl);
    forall i | 0 <= i < |commitLines| ensures lines[6 + i] == commitLines[i] {
      assert lines[|head| + i] == commitLines[i];
    }
    forall j | 0 <= j < |files| ensures lines[8 + |commitLines| + j] == "* " + files[j] {
      assert lines[|head| + |commitLines| + 2 + j] == fl[j];
    }
  }

  lemma Layout(a: seq<string>, b: seq<string>, c: seq<string>, d: seq<string>)
    ensures |a + b + c + d| == |a| + |b| + |c| + |d|
    ensures forall i :: 0 <= i < |b| ==> (a + b + c + d)[|a| + i] == b[i]
    ensures forall j :: 0 <= j < |d| ==> (a + b + c + d)[|a| + |b| + |c| + j] == d[j]
  {
  }

  /** A list without repetitions has as many elements as its set. */
  lemma {:induction false} DistinctCount(s: seq<string>)
    requires StrictlySorted(s)
    ensures |Elements(s)| == |s|
    decreases |s|
  {
    if s != [] {
      StrictlySortedTail(s);
      DistinctCount(s[1..]);
      HeadNotInTail(s);
      ElementsCons(s);
    }
  }

  lemma StrictlySortedTail(s: seq<string>)
    requires s != [] && StrictlySorted(s)
    ensures StrictlySorted(s[1..])
  {
  }

  lemma HeadNotInTail(s: seq<string>)
    requires s != [] && StrictlySorted(s)
    ensures s[0] !in s[1..]
  {
    if s[0] in s[1..] {
      var k :| 0 <= k < |s[1..]| && s[1..][k] == s[0];
      assert Below(s[0], s[k + 1]);
      BelowIrreflexive(s[0]);
    }
  }

  lemma ElementsCons(s: seq<string>)
    requires s != []
    ensures Elements(s) == {s[0]} + Elements(s[1..])
  {
    assert s == [s[0]] + s[1..];
  }
}
