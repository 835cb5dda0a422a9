/** `GitAnalyzer` (git/analyzer.py): reads the ticket keys of a commit
    message, lists the changed files of a commit (skipping ignored paths),
    summarises a commit and a push, and derives the web URL of a commit from
    the remote URL. Commits, their diff entries and the remote URL are
    inputs; glob matching and a configured ticket regex are given functions. */
module GitAnalyzer {
  import opened Wrappers
  import opened Text
  import opened Counting
  import opened Records

  /** One entry of `parents[0].diff(commit)`; "" stands for an absent path. */
  datatype DiffEntry = DiffEntry(
    aPath: string,
    bPath: string,
    newFile: bool,
    deletedFile: bool,
    renamed: bool,
    insertions: nat,
    deletions: nat)

  /** What GitPython reports about one commit. */
  datatype CommitInfo = CommitInfo(
    hash: string,
    authorName: string,
    authorEmail: string,
    date: string,
    message: string,
    parentCount: nat,
    entries: seq<DiffEntry>)

  /** `project.ticket_pattern`: the default `([A-Z]+-\d+)`, or a configured
      regex given by its `findall`. */
  datatype TicketPattern = DefaultPattern | CustomPattern(findAll: string -> seq<string>)

  /** The analyzer's settings; `glob` is `fnmatch.fnmatch(path, pattern)`. */
  datatype GitSettings = GitSettings(
    ticketPattern: TicketPattern,
    projectKeys: seq<string>,
    ignorePatterns: seq<string>,
    maxCommits: nat,
    analyzeMerges: bool,
    glob: (string, string) -> bool)

  /** `commit.parents[0]` raises IndexError for a root commit. */
  datatype GitError = NoParent(hash: string)

  /* ----------------------------------------------------------------------
     Ticket keys: `findall` of `[A-Z]+-\d+`
     ---------------------------------------------------------------------- */

  predicate IsUpper(ch: char) {
    'A' <= ch <= 'Z'
  }

  /** Length of the longest prefix of `s` made of letters A to Z. */
  function UpperSpan(s: string): (k: nat)
    ensures k <= |s|
    ensures forall i :: 0 <= i < k ==> IsUpper(s[i])
    ensures k < |s| ==> !IsUpper(s[k])
    decreases |s|
  {
    if |s| > 0 && IsUpper(s[0]) then UpperSpan(s[1..]) + 1 else 0
  }

  /** A ticket key: capital letters, '-', digits. */
  predicate IsTicketKey(t: string) {
    var u := UpperSpan(t);
    0 < u && u + 1 < |t| && t[u] == '-' && AllDigits(t[u + 1..])
  }

  /** The length of the match of `[A-Z]+-\d+` at the start of `s`, 0 if there
      is none; the greedy runs make it the only possible match there. */
  function TicketAt(s: string): (n: nat)
    ensures n <= |s|
    ensures n > 0 ==> IsTicketKey(s[..n]) && (n == |s| || !IsDigit(s[n]))
  {
    var u := UpperSpan(s);
    if 0 < u && u < |s| && s[u] == '-' then
      var d := DigitSpan(s[u + 1..]);
      if d > 0 then
        var n := u + 1 + d;
        assert UpperSpan(s[..n]) == u by {
          UpperSpanPrefix(s, u, n);
        }
        assert s[..n][u + 1..] == s[u + 1..][..d];
        n
      else 0
    else 0
  }

  lemma {:induction false} UpperSpanPrefix(s: string, u: nat, n: nat)
    requires u == UpperSpan(s) && u < n <= |s|
    ensures UpperSpan(s[..n]) == u
    decreases u
  {
    if u > 0 {
      assert s[..n][1..] == s[1..][..n - 1];
      UpperSpanPrefix(s[1..], u - 1, n - 1);
    }
  }

  /** `re.findall(r'([A-Z]+-\d+)', s)`: leftmost matches, left to right,
      without overlap. */
  function FindTickets(s: string): seq<string>
    decreases |s|
  {
    if s == [] then []
    else
      var n := TicketAt(s);
      if n > 0 then [s[..n]] + FindTickets(s[n..]) else FindTickets(s[1..])
  }

  /** The matches of the configured pattern. */
  function Matches(message: string, pattern: TicketPattern): seq<string> {
    match pattern
    case DefaultPattern => FindTickets(message)
    case CustomPattern(findAll) => findAll(message)
  }

  /** `match.startswith(key + '-')` for some configured key. */
  predicate HasProjectKey(m: string, keys: seq<string>) {
    exists k :: 0 <= k < |keys| && StartsWith(m, keys[k] + "-")
  }

  /** The matches that start with some `key + '-'`, in order. */
  function KeepKeyed(ms: seq<string>, keys: seq<string>): seq<string>
    decreases |ms|
  {
    if ms == [] then []
    else KeepKeyed(ms[..|ms| - 1], keys) + (if HasProjectKey(ms[|ms| - 1], keys) then [ms[|ms| - 1]] else [])
  }

  function TicketIdsOf(message: string, settings: GitSettings): seq<string> {
    var ms := Matches(message, settings.ticketPattern);
    if settings.projectKeys == [] then ms else KeepKeyed(ms, settings.projectKeys)
  }

  /** `extract_ticket_ids`. */
  method ExtractTicketIds(message: string, settings: GitSettings) returns (ids: seq<string>)
    ensures ids == TicketIdsOf(message, settings)
  {
    var matches := Matches(message, settings.ticketPattern);
    var keys := settings.projectKeys;
    if keys == [] {
      return matches;
    }
    var filtered: seq<string> := [];
    for i := 0 to |matches|
      invariant filtered == KeepKeyed(matches[..i], keys)
    {
      assert matches[..i + 1][..i] == matches[..i];
      var match_ := matches[i];
      var j := 0;
      while j < |keys|
        invariant 0 <= j <= |keys|
        invariant filtered == KeepKeyed(matches[..i], keys)
        invariant forall k :: 0 <= k < j ==> !StartsWith(match_, keys[k] + "-")
      {
        if StartsWith(match_, keys[j] + "-") {
          assert HasProjectKey(match_, keys);
          filtered := filtered + [match_];
          break;
        }
        j := j + 1;
      }
      assert filtered == KeepKeyed(matches[..i + 1], keys);
    }
    assert matches[..|matches|] == matches;
    ids := filtered;
  }

  /* ----------------------------------------------------------------------
     Ignored files, change types, the changes of a commit
     ---------------------------------------------------------------------- */

  /** `should_ignore_file`: the patterns are tried in order until one
      matches. */
  function ShouldIgnore(path: string, patterns: seq<string>, glob: (string, string) -> bool): (r: bool)
    ensures r <==> exists i :: 0 <= i < |patterns| && glob(path, patterns[i])
    decreases |patterns|
  {
    if patterns == [] then false
    else if glob(path, patterns[0]) then true
    else
      var r := ShouldIgnore(path, patterns[1..], glob);
      assert r ==> exists i :: 0 <= i < |patterns| && glob(path, patterns[i]) by {
        if r {
          var i :| 0 <= i < |patterns[1..]| && glob(path, patterns[1..][i]);
          assert glob(path, patterns[i + 1]);
        }
      }
      r
  }

  /** `_get_change_type`: the flags decide in the order new, deleted,
      renamed. */
  function ChangeTypeOf(e: DiffEntry): (t: ChangeType)
    ensures t == Added <==> e.newFile
    ensures t == Deleted <==> !e.newFile && e.deletedFile
    ensures t == Renamed <==> !e.newFile && !e.deletedFile && e.renamed
    ensures t == Modified <==> !e.newFile && !e.deletedFile && !e.renamed
  {
    if e.newFile then Added
    else if e.deletedFile then Deleted
    else if e.renamed then Renamed
    else Modified
  }

  /** An entry is skipped when either of its present paths is ignored. */
  predicate Skipped(e: DiffEntry, settings: GitSettings) {
    || (e.aPath != "" && ShouldIgnore(e.aPath, settings.ignorePatterns, settings.glob))
    || (e.bPath != "" && ShouldIgnore(e.bPath, settings.ignorePatterns, settings.glob))
  }

  /** The change entry of a diff entry: the new path, or the old one when
      there is no new path. */
  function RecordOf(e: DiffEntry): ChangeRecord {
    ChangeRecord(ChangeTypeOf(e), if e.bPath != "" then e.bPath else e.aPath, e.insertions, e.deletions)
  }

  function ChangesOf(entries: seq<DiffEntry>, settings: GitSettings): seq<ChangeRecord>
    decreases |entries|
  {
    if entries == [] then []
    else
      var last := entries[|entries| - 1];
      ChangesOf(entries[..|entries| - 1], settings) + (if Skipped(last, settings) then [] else [RecordOf(last)])
  }

  /** The loop over the diff entries in `analyze_commit`. */
  method CollectChanges(entries: seq<DiffEntry>, settings: GitSettings) returns (changes: seq<ChangeRecord>)
    ensures changes == ChangesOf(entries, settings)
  {
    changes := [];
    for i := 0 to |entries|
      invariant changes == ChangesOf(entries[..i], settings)
    {
      assert entries[..i + 1][..i] == entries[..i];
      var diff := entries[i];
      if diff.aPath != "" && ShouldIgnore(diff.aPath, settings.ignorePatterns, settings.glob) {
        continue;
      }
      if diff.bPath != "" && ShouldIgnore(diff.bPath, settings.ignorePatterns, settings.glob) {
        continue;
      }
      changes := changes + [RecordOf(diff)];
    }
    assert entries[..|entries|] == entries;
  }

  /* ----------------------------------------------------------------------
     _generate_summary
     ---------------------------------------------------------------------- */

  /** The extension of a changed path, empty when it has none. */
  function PathExtension(c: ChangeRecord): string {
    Extension(c.path)
  }

  /** The non-empty values of `f` over `cs`, in order. */
  function NonEmptyImages(cs: seq<ChangeRecord>, f: ChangeRecord -> string): seq<string>
    decreases |cs|
  {
    if cs == [] then []
    else
      var v := f(cs[|cs| - 1]);
      NonEmptyImages(cs[..|cs| - 1], f) + (if v != "" then [v] else [])
  }

  /** The non-empty extensions of the changed paths, in order. */
  function ExtensionsOf(changes: seq<ChangeRecord>): seq<string> {
    NonEmptyImages(changes, PathExtension)
  }

  function CommitTotalsLine(changes: seq<ChangeRecord>): string {
    "Changed " + NatToString(|changes|) + " files with " + NatToString(Insertions(changes))
    + " additions and " + NatToString(Deletions(changes)) + " deletions."
  }

  function SummaryLines(changes: seq<ChangeRecord>): seq<string> {
    var fileTypes := TallyOf(ExtensionsOf(changes));
    [CommitTotalsLine(changes)] + (if |fileTypes| > 1 then ["File types: " + Describe(fileTypes)] else [])
  }

  function CommitSummaryOf(changes: seq<ChangeRecord>): string {
    Join("\n", SummaryLines(changes))
  }

  /** `_generate_summary`. */
  method GenerateSummary(changes: seq<ChangeRecord>) returns (summary: string)
    ensures summary == CommitSummaryOf(changes)
  {
    var fileTypes := CountExtensions(changes);
    var summaryLines := [CommitTotalsLine(changes)];
    if |fileTypes| > 1 {
      summaryLines := summaryLines + ["File types: " + Describe(fileTypes)];
    }
    assert summaryLines == SummaryLines(changes);
    summary := Join("\n", summaryLines);
  }

  /** The `file_types` loop of `_generate_summary`. */
  method CountExtensions(changes: seq<ChangeRecord>) returns (fileTypes: seq<Entry>)
    ensures fileTypes == TallyOf(ExtensionsOf(changes))
  {
    fileTypes := [];
    for i := 0 to |changes|
      invariant fileTypes == TallyOf(ExtensionsOf(changes[..i]))
    {
      var ext := PathExtension(changes[i]);
      TallyStep(changes, i, ext);
      if ext != "" {
        fileTypes := Bump(fileTypes, ext);
      }
    }
    assert changes[..|changes|] == changes;
  }

  /* ----------------------------------------------------------------------
     analyze_commit
     ---------------------------------------------------------------------- */

  const MergeSkippedSummary := "Merge commit (skipped analysis)"

  function CommitAnalysisOf(c: CommitInfo, settings: GitSettings): Result<CommitRecord, GitError> {
    if !settings.analyzeMerges && c.parentCount > 1 then
      Ok(CommitRecord(c.hash, "", "", "", true, [], [], MergeSkippedSummary, None, None, None, None))
    else if c.parentCount == 0 then Err(NoParent(c.hash))
    else
      var changes := ChangesOf(c.entries, settings);
      Ok(CommitRecord(c.hash, c.authorName + " <" + c.authorEmail + ">", c.date, c.message,
                      c.parentCount > 1, TicketIdsOf(c.message, settings), changes,
                      CommitSummaryOf(changes), None, None, None, None))
  }

  /** `analyze_commit`. */
  method AnalyzeCommit(c: CommitInfo, settings: GitSettings) returns (r: Result<CommitRecord, GitError>)
    ensures r == CommitAnalysisOf(c, settings)
  {
    if !settings.analyzeMerges && c.parentCount > 1 {
      return Ok(CommitRecord(c.hash, "", "", "", true, [], [], MergeSkippedSummary, None, None, None, None));
    }
    var ticketIds := ExtractTicketIds(c.message, settings);
    if c.parentCount == 0 {
      return Err(NoParent(c.hash));
    }
    var changes := CollectChanges(c.entries, settings);
    var summary := GenerateSummary(changes);
    r := Ok(CommitRecord(c.hash, c.authorName + " <" + c.authorEmail + ">", c.date, c.message,
                         c.parentCount > 1, ticketIds, changes, summary, None, None, None, None));
  }

  /* ----------------------------------------------------------------------
     analyze_push
     ---------------------------------------------------------------------- */

  /** The commits analysed: at most the first `maxCommits`. */
  function Kept(commits: seq<CommitInfo>, maxCommits: nat): seq<CommitInfo> {
    if |commits| > maxCommits then commits[..maxCommits] else commits
  }

  /** The analyses of `cs` in order; the first failure aborts. */
  function AnalyzeAll(cs: seq<CommitInfo>, settings: GitSettings): Result<seq<CommitRecord>, GitError>
    decreases |cs|
  {
    if cs == [] then Ok([])
    else
      match AnalyzeAll(cs[..|cs| - 1], settings)
      case Err(e) => Err(e)
      case Ok(rs) =>
        match CommitAnalysisOf(cs[|cs| - 1], settings)
        case Err(e) => Err(e)
        case Ok(r) => Ok(rs + [r])
  }

  function TicketUnion(rs: seq<CommitRecord>): set<string>
    decreases |rs|
  {
    if rs == [] then {}
    else TicketUnion(rs[..|rs| - 1]) + Elements(rs[|rs| - 1].ticketIds)
  }

  function Elements(ids: seq<string>): set<string> {
    set t | t in ids
  }

  /** All change entries of the analyses, in order. */
  function AllChanges(rs: seq<CommitRecord>): seq<ChangeRecord>
    decreases |rs|
  {
    if rs == [] then [] else AllChanges(rs[..|rs| - 1]) + rs[|rs| - 1].changes
  }

  function PushSummary(commitCount: nat, rs: seq<CommitRecord>): string {
    var all := AllChanges(rs);
    "Push contains " + NatToString(commitCount) + " commits affecting " + NatToString(|Paths(all)|)
    + " files with " + NatToString(Insertions(all)) + " additions and " + NatToString(Deletions(all)) + " deletions."
  }

  function PushAnalysisOf(baseRef: string, headRef: string, commits: seq<CommitInfo>, settings: GitSettings)
    : Result<PushRecord, GitError>
  {
    var kept := Kept(commits, settings.maxCommits);
    match AnalyzeAll(kept, settings)
    case Err(e) => Err(e)
    case Ok(rs) => Ok(PushRecord(baseRef, headRef, rs, TicketUnion(rs), PushSummary(|kept|, rs)))
  }

  /** The totals loop of `analyze_push`: the distinct paths and the line
      counts over all changes of all analysed commits. */
  method CountPushTotals(commitAnalyses: seq<CommitRecord>)
    returns (totalFiles: set<string>, totalInsertions: nat, totalDeletions: nat)
    ensures totalFiles == Paths(AllChanges(commitAnalyses))
    ensures totalInsertions == Insertions(AllChanges(commitAnalyses))
    ensures totalDeletions == Deletions(AllChanges(commitAnalyses))
  {
    totalFiles := {};
    totalInsertions := 0;
    totalDeletions := 0;
    for i := 0 to |commitAnalyses|
      invariant totalFiles == Paths(AllChanges(commitAnalyses[..i]))
      invariant totalInsertions == Insertions(AllChanges(commitAnalyses[..i]))
      invariant totalDeletions == Deletions(AllChanges(commitAnalyses[..i]))
    {
      AllChangesStep(commitAnalyses, i);
      var done := AllChanges(commitAnalyses[..i]);
      var cs := commitAnalyses[i].changes;
      assert done + cs[..0] == done;
      for j := 0 to |cs|
        invariant totalFiles == Paths(done + cs[..j])
        invariant totalInsertions == Insertions(done + cs[..j])
        invariant totalDeletions == Deletions(done + cs[..j])
      {
        ChangeStep(done, cs, j);
        totalFiles := totalFiles + {cs[j].path};
        totalInsertions := totalInsertions + cs[j].insertions;
        totalDeletions := totalDeletions + cs[j].deletions;
      }
      assert cs[..|cs|] == cs;
    }
    assert commitAnalyses[..|commitAnalyses|] == commitAnalyses;
  }

  /** `analyze_push`, given the commits of `base..head` in walk order. */
  method AnalyzePush(baseRef: string, headRef: string, commits: seq<CommitInfo>, settings: GitSettings)
    returns (r: Result<PushRecord, GitError>)
    ensures r == PushAnalysisOf(baseRef, headRef, commits, settings)
  {
    var kept := commits;
    if |kept| > settings.maxCommits {
      kept := kept[..settings.maxCommits];
    }
    var commitAnalyses: seq<CommitRecord> := [];
    var allTicketIds: set<string> := {};
    for i := 0 to |kept|
      invariant AnalyzeAll(kept[..i], settings) == Ok(commitAnalyses)
      invariant allTicketIds == TicketUnion(commitAnalyses)
    {
      var analysis := AnalyzeCommit(kept[i], settings);
      if analysis.Err? {
        AnalyzeAllStepErr(kept, i, settings, analysis.error);
        return Err(analysis.error);
      }
      AnalyzeAllStep(kept, i, settings, commitAnalyses, analysis.value);
      TicketUnionStep(commitAnalyses, analysis.value);
      commitAnalyses := commitAnalyses + [analysis.value];
      allTicketIds := allTicketIds + Elements(analysis.value.ticketIds);
    }
    assert kept[..|kept|] == kept;
    var totalFiles, totalInsertions, totalDeletions := CountPushTotals(commitAnalyses);
    var summary := "Push contains " + NatToString(|kept|) + " commits affecting " + NatToString(|totalFiles|)
      + " files with " + NatToString(totalInsertions) + " additions and " + NatToString(totalDeletions) + " deletions.";
    r := Ok(PushRecord(baseRef, headRef, commitAnalyses, allTicketIds, summary));
  }

  /** One more successful commit analysis extends the records. */
  lemma AnalyzeAllStep(cs: seq<CommitInfo>, i: nat, settings: GitSettings, rs: seq<CommitRecord>, a: CommitRecord)
    requires i < |cs| && AnalyzeAll(cs[..i], settings) == Ok(rs)
    requires CommitAnalysisOf(cs[i], settings) == Ok(a)
    ensures AnalyzeAll(cs[..i + 1], settings) == Ok(rs + [a])
  {
    assert cs[..i + 1][..i] == cs[..i];
  }

  lemma TicketUnionStep(rs: seq<CommitRecord>, a: CommitRecord)
    ensures TicketUnion(rs + [a]) == TicketUnion(rs) + Elements(a.ticketIds)
  {
    assert (rs + [a])[..|rs|] == rs;
  }

  /** A failing commit analysis fails the whole push. */
  lemma AnalyzeAllStepErr(cs: seq<CommitInfo>, i: nat, settings: GitSettings, e: GitError)
    requires i < |cs| && AnalyzeAll(cs[..i], settings).Ok?
    requires CommitAnalysisOf(cs[i], settings) == Err(e)
    ensures AnalyzeAll(cs, settings) == Err(e)
  {
    assert cs[..i + 1][..i] == cs[..i];
    AnalyzeAllErrSticks(cs, i + 1, settings, e);
  }

  lemma AllChangesStep(rs: seq<CommitRecord>, i: nat)
    requires i < |rs|
    ensures AllChanges(rs[..i + 1]) == AllChanges(rs[..i]) + rs[i].changes
  {
    assert rs[..i + 1][..i] == rs[..i];
  }

  lemma ChangeStep(done: seq<ChangeRecord>, cs: seq<ChangeRecord>, j: nat)
    requires j < |cs|
    ensures Paths(done + cs[..j + 1]) == Paths(done + cs[..j]) + {cs[j].path}
    ensures Insertions(done + cs[..j + 1]) == Insertions(done + cs[..j]) + cs[j].insertions
    ensures Deletions(done + cs[..j + 1]) == Deletions(done + cs[..j]) + cs[j].deletions
  {
    assert done + cs[..j + 1] == done + cs[..j] + [cs[j]];
    PathsAppend(done + cs[..j], [cs[j]]);
    assert Paths([cs[j]]) == {cs[j].path} by {
      assert [cs[j]][0].path == cs[j].path;
    }
    SumsAppend(done + cs[..j], [cs[j]]);
    assert [cs[j]][..0] == [];
  }

  /* ----------------------------------------------------------------------
     get_commit_url
     ---------------------------------------------------------------------- */

  /** `site + strip(repo_path) + commitPath + hash`, where `repo_path` is
      `split(sep)[1]` of the remote URL (None where that raises IndexError). */
  function WebUrl(field: Option<string>, site: string, commitPath: string, hash: string,
                  strip: string -> string): Option<string>
  {
    match field
    case None => None
    case Some(repoPath) => Some(site + strip(repoPath) + commitPath + hash)
  }

  /** `repo_path.replace('.git', '')`, as written: every ".git" goes. */
  function RemoveGitText(repoPath: string): string {
    ReplaceAll(repoPath, ".git", "")
  }

  /** What that call is evidently for: dropping the ".git" suffix of a clone
      URL, and nothing else. */
  function RemoveGitSuffix(repoPath: string): string {
    if |repoPath| >= 4 && repoPath[|repoPath| - 4..] == ".git" then repoPath[..|repoPath| - 4] else repoPath
  }

  /** The host cases of `get_commit_url`, in the order they are checked, with
      `strip` applied to the repository path. `remote` is the URL of the
      `origin` remote, None when there is no such remote. */
  function CommitUrlWith(remote: Option<string>, hash: string, strip: string -> string): Option<string> {
    match remote
    case None => None
    case Some(url) =>
      if StartsWith(url, "git@github.com:") then
        WebUrl(SecondField(url, "git@github.com:"), "https://github.com/", "/commit/", hash, strip)
      else if Contains(url, "github.com") then
        WebUrl(SecondField(url, "github.com/"), "https://github.com/", "/commit/", hash, strip)
      else if Contains(url, "gitlab.com") then
        WebUrl(SecondField(url, "gitlab.com/"), "https://gitlab.com/", "/-/commit/", hash, strip)
      else if Contains(url, "bitbucket.org") then
        WebUrl(SecondField(url, "bitbucket.org/"), "https://bitbucket.org/", "/commits/", hash, strip)
      else None
  }

  /** `get_commit_url` as written. */
  function CommitUrl(remote: Option<string>, hash: string): Option<string> {
    CommitUrlWith(remote, hash, RemoveGitText)
  }

  /** `get_commit_url` with only the ".git" suffix dropped. */
  function IntendedCommitUrl(remote: Option<string>, hash: string): Option<string> {
    CommitUrlWith(remote, hash, RemoveGitSuffix)
  }

  /* ======================================================================
     Lemmas
     ====================================================================== */

  /* --- ticket keys ------------------------------------------------------ */

  /** Every default match is a ticket key. */
  lemma {:induction false} FindTicketsKeys(s: string)
    ensures forall i :: 0 <= i < |FindTickets(s)| ==> IsTicketKey(FindTickets(s)[i])
    decreases |s|
  {
    if s != [] {
      var n := TicketAt(s);
      if n > 0 {
        FindTicketsKeys(s[n..]);
      } else {
        FindTicketsKeys(s[1..]);
      }
    }
  }

  /** A message without '-' holds no ticket key. */
  lemma {:induction false} NoDashNoTickets(s: string)
    requires '-' !in s
    ensures FindTickets(s) == []
    decreases |s|
  {
    if s != [] {
      assert TicketAt(s) == 0 by {
        var u := UpperSpan(s);
        if 0 < u < |s| {
          assert s[u] in s;
        }
      }
      NoDashNoTickets(s[1..]);
    }
  }

  lemma {:induction false} KeepKeyedCount(ms: seq<string>, keys: seq<string>, x: string)
    ensures multiset(KeepKeyed(ms, keys))[x] == if HasProjectKey(x, keys) then multiset(ms)[x] else 0
    decreases |ms|
  {
    if ms != [] {
      var init := ms[..|ms| - 1];
      KeepKeyedCount(init, keys, x);
      assert ms == init + [ms[|ms| - 1]];
    }
  }

  /** With project keys, each match is kept exactly as often as it occurs if
      it starts with some `key + '-'`, and dropped otherwise; without keys
      all matches are kept in order. */
  lemma TicketIdsCount(message: string, settings: GitSettings, x: string)
    ensures settings.projectKeys == [] ==> TicketIdsOf(message, settings) == Matches(message, settings.ticketPattern)
    ensures settings.projectKeys != [] ==>
              multiset(TicketIdsOf(message, settings))[x]
              == if HasProjectKey(x, settings.projectKeys) then multiset(Matches(message, settings.ticketPattern))[x] else 0
  {
    KeepKeyedCount(Matches(message, settings.ticketPattern), settings.projectKeys, x);
  }

  /** `idx` picks `sub` out of `ms` at strictly increasing positions. */
  predicate Embeds(idx: seq<nat>, sub: seq<string>, ms: seq<string>) {
    && |idx| == |sub|
    && (forall k :: 0 <= k < |idx| ==> idx[k] < |ms| && ms[idx[k]] == sub[k])
    && (forall k, l :: 0 <= k < l < |idx| ==> idx[k] < idx[l])
  }

  lemma EmbedsKeep(idx: seq<nat>, sub: seq<string>, ms: seq<string>, x: string)
    requires Embeds(idx, sub, ms)
    ensures Embeds(idx + [|ms|], sub + [x], ms + [x])
  {
    var idx', sub', ms' := idx + [|ms|], sub + [x], ms + [x];
    forall k | 0 <= k < |idx'| ensures idx'[k] < |ms'| && ms'[idx'[k]] == sub'[k] {
      if k < |idx| {
        assert idx'[k] == idx[k] && sub'[k] == sub[k];
      }
    }
  }

  lemma EmbedsSkip(idx: seq<nat>, sub: seq<string>, ms: seq<string>, x: string)
    requires Embeds(idx, sub, ms)
    ensures Embeds(idx, sub, ms + [x])
  {
    forall k | 0 <= k < |idx| ensures (ms + [x])[idx[k]] == sub[k] {
      assert idx[k] < |ms|;
    }
  }

  /** The kept matches appear in the same order as in the match list. */
  lemma {:induction false} KeepKeyedOrder(ms: seq<string>, keys: seq<string>)
    ensures exists idx: seq<nat> :: Embeds(idx, KeepKeyed(ms, keys), ms)
    decreases |ms|
  {
    if ms == [] {
      var idx: seq<nat> := [];
      assert Embeds(idx, KeepKeyed(ms, keys), ms);
    } else {
      var init, x := ms[..|ms| - 1], ms[|ms| - 1];
      assert ms == init + [x];
      KeepKeyedOrder(init, keys);
      var idx: seq<nat> :| Embeds(idx, KeepKeyed(init, keys), init);
      if HasProjectKey(x, keys) {
        EmbedsKeep(idx, KeepKeyed(init, keys), init, x);
        assert Embeds(idx + [|init|], KeepKeyed(ms, keys), ms);
      } else {
        EmbedsSkip(idx, KeepKeyed(init, keys), init, x);
        assert Embeds(idx, KeepKeyed(ms, keys), ms);
      }
    }
  }

  /* --- changes of a commit ---------------------------------------------- */

  /** No recorded change has an ignored path, and every change comes from a
      diff entry that was not skipped. */
  lemma {:induction false} ChangesNotIgnored(entries: seq<DiffEntry>, settings: GitSettings)
    ensures forall k :: 0 <= k < |ChangesOf(entries, settings)| ==>
              ChangesOf(entries, settings)[k].path != "" ==>
                !ShouldIgnore(ChangesOf(entries, settings)[k].path, settings.ignorePatterns, settings.glob)
    ensures forall k :: 0 <= k < |ChangesOf(entries, settings)| ==>
              exists i :: 0 <= i < |entries| && !Skipped(entries[i], settings) && ChangesOf(entries, settings)[k] == RecordOf(entries[i])
    ensures |ChangesOf(entries, settings)| <= |entries|
    decreases |entries|
  {
    if entries != [] {
      var init := entries[..|entries| - 1];
      var last := entries[|entries| - 1];
      ChangesNotIgnored(init, settings);
      var before := ChangesOf(init, settings);
      var cs := ChangesOf(entries, settings);
      assert cs == before + (if Skipped(last, settings) then [] else [RecordOf(last)]);
      forall k | 0 <= k < |cs|
        ensures exists i :: 0 <= i < |entries| && !Skipped(entries[i], settings) && cs[k] == RecordOf(entries[i])
      {
        if k < |before| {
          var i :| 0 <= i < |init| && !Skipped(init[i], settings) && before[k] == RecordOf(init[i]);
          assert entries[i] == init[i];
          assert cs[k] == before[k];
          assert 0 <= i < |entries| && !Skipped(entries[i], settings) && cs[k] == RecordOf(entries[i]);
        } else {
          var i := |entries| - 1;
          assert 0 <= i < |entries| && !Skipped(entries[i], settings) && cs[k] == RecordOf(entries[i]);
        }
      }
      forall k | 0 <= k < |cs| && cs[k].path != ""
        ensures !ShouldIgnore(cs[k].path, settings.ignorePatterns, settings.glob)
      {
        var i :| 0 <= i < |entries| && !Skipped(entries[i], settings) && cs[k] == RecordOf(entries[i]);
        if entries[i].bPath != "" {
          assert cs[k].path == entries[i].bPath;
        } else {
          assert cs[k].path == entries[i].aPath;
        }
      }
    } else {
      assert ChangesOf(entries, settings) == [];
    }
  }

  /* --- commit summary --------------------------------------------------- */

  lemma ExtensionsStep(changes: seq<ChangeRecord>, i: nat, ext: string)
    requires i < |changes| && ext == PathExtension(changes[i])
    ensures ExtensionsOf(changes[..i + 1]) == ExtensionsOf(changes[..i]) + (if ext != "" then [ext] else [])
  {
    assert changes[..i + 1][..i] == changes[..i];
  }

  lemma TallyStep(changes: seq<ChangeRecord>, i: nat, ext: string)
    requires i < |changes| && ext == PathExtension(changes[i])
    ensures TallyOf(ExtensionsOf(changes[..i + 1]))
            == if ext != "" then Bump(TallyOf(ExtensionsOf(changes[..i])), ext) else TallyOf(ExtensionsOf(changes[..i]))
  {
    ExtensionsStep(changes, i, ext);
    if ext != "" {
      TallyAppend(ExtensionsOf(changes[..i]), ext);
    } else {
      assert ExtensionsOf(changes[..i]) + [] == ExtensionsOf(changes[..i]);
    }
  }

  /** The extension breakdown lists exactly the non-empty extensions. */
  lemma ExtensionsCounted(changes: seq<ChangeRecord>, x: string)
    ensures x in ExtensionsOf(changes) <==> x != "" && exists i :: 0 <= i < |changes| && PathExtension(changes[i]) == x
  {
    NonEmptyImagesMembers(changes, PathExtension, x);
  }

  lemma {:induction false} NonEmptyImagesMembers(cs: seq<ChangeRecord>, f: ChangeRecord -> string, x: string)
    ensures x in NonEmptyImages(cs, f) <==> x != "" && exists i :: 0 <= i < |cs| && f(cs[i]) == x
    decreases |cs|
  {
    if cs != [] {
      var init := cs[..|cs| - 1];
      NonEmptyImagesMembers(init, f, x);
      if exists i :: 0 <= i < |cs| && f(cs[i]) == x {
        var i :| 0 <= i < |cs| && f(cs[i]) == x;
        if i < |init| {
          assert init[i] == cs[i];
        }
      }
      if exists i :: 0 <= i < |init| && f(init[i]) == x {
        var i :| 0 <= i < |init| && f(init[i]) == x;
        assert init[i] == cs[i];
      }
    }
  }

  /** The commit summary starts with the totals line and has a second line
      of file types exactly when two different non-empty extensions occur;
      each extension is counted as often as it occurs. */
  lemma CommitSummaryShape(changes: seq<ChangeRecord>, x: string)
    ensures SummaryLines(changes)[0] == CommitTotalsLine(changes)
    ensures |SummaryLines(changes)| == 2 <==> Several(ExtensionsOf(changes))
    ensures |SummaryLines(changes)| <= 2
    ensures CountOf(TallyOf(ExtensionsOf(changes)), x) == multiset(ExtensionsOf(changes))[x]
  {
    TallySeveral(ExtensionsOf(changes));
    TallyCounts(ExtensionsOf(changes), x);
  }

  /* --- commit analysis -------------------------------------------------- */

  /** With merge analysis off, a merge commit's record is the fixed skipped
      record, whatever its message and diff say. */
  lemma MergeSkipped(c: CommitInfo, settings: GitSettings, message: string, entries: seq<DiffEntry>)
    requires !settings.analyzeMerges && c.parentCount > 1
    ensures CommitAnalysisOf(c, settings) == CommitAnalysisOf(c.(message := message, entries := entries), settings)
    ensures CommitAnalysisOf(c, settings).Ok?
    ensures var r := CommitAnalysisOf(c, settings).value;
      r.isMerge && r.ticketIds == [] && r.changes == [] && r.summary == MergeSkippedSummary && r.hash == c.hash
  {
  }

  /* --- push analysis ---------------------------------------------------- */

  /** Once a prefix of the commits fails, the whole push fails with the
      same error. */
  lemma {:induction false} AnalyzeAllErrSticks(cs: seq<CommitInfo>, n: nat, settings: GitSettings, e: GitError)
    requires 0 < n <= |cs| && AnalyzeAll(cs[..n], settings) == Err(e)
    ensures AnalyzeAll(cs, settings) == Err(e)
    decreases |cs| - n
  {
    if n == |cs| {
      assert cs[..n] == cs;
    } else {
      assert cs[..n + 1][..n] == cs[..n];
      AnalyzeAllErrSticks(cs, n + 1, settings, e);
    }
  }

  /** A successful push analysis has one record per kept commit, with the
      commit's hash, in walk order. */
  lemma {:induction false} AnalyzeAllFacts(cs: seq<CommitInfo>, settings: GitSettings)
    requires AnalyzeAll(cs, settings).Ok?
    ensures |AnalyzeAll(cs, settings).value| == |cs|
    ensures forall i :: 0 <= i < |cs| ==>
              CommitAnalysisOf(cs[i], settings) == Ok(AnalyzeAll(cs, settings).value[i])
    decreases |cs|
  {
    if cs != [] {
      var init := cs[..|cs| - 1];
      AnalyzeAllFacts(init, settings);
    }
  }

  lemma {:induction false} AnalyzeAllSucceeds(cs: seq<CommitInfo>, settings: GitSettings)
    requires forall i :: 0 <= i < |cs| ==> CommitAnalysisOf(cs[i], settings).Ok?
    ensures AnalyzeAll(cs, settings).Ok?
    decreases |cs|
  {
    if cs != [] {
      AnalyzeAllSucceeds(cs[..|cs| - 1], settings);
    }
  }

  /** A push keeps exactly the first `maxCommits` commits (all when there are
      fewer), analyses them in walk order, and fails exactly when one of them
      fails. */
  lemma PushTruncation(baseRef: string, headRef: string, commits: seq<CommitInfo>, settings: GitSettings)
    ensures |Kept(commits, settings.maxCommits)| == if |commits| > settings.maxCommits then settings.maxCommits else |commits|
    ensures forall i :: 0 <= i < |Kept(commits, settings.maxCommits)| ==> Kept(commits, settings.maxCommits)[i] == commits[i]
    ensures PushAnalysisOf(baseRef, headRef, commits, settings).Ok?
            <==> forall i :: 0 <= i < |Kept(commits, settings.maxCommits)| ==>
                   CommitAnalysisOf(Kept(commits, settings.maxCommits)[i], settings).Ok?
    ensures PushAnalysisOf(baseRef, headRef, commits, settings).Ok? ==>
              PushAnalysisOf(baseRef, headRef, commits, settings).value.commits == AnalyzeAll(Kept(commits, settings.maxCommits), settings).value
  {
    var kept := Kept(commits, settings.maxCommits);
    if AnalyzeAll(kept, settings).Ok? {
      AnalyzeAllFacts(kept, settings);
    }
    if forall i :: 0 <= i < |kept| ==> CommitAnalysisOf(kept[i], settings).Ok? {
      AnalyzeAllSucceeds(kept, settings);
    }
  }

  /** The push's ticket keys are the union of the commits' ticket keys. */
  lemma {:induction false} TicketUnionMembers(rs: seq<CommitRecord>, t: string)
    ensures t in TicketUnion(rs) <==> exists i :: 0 <= i < |rs| && t in rs[i].ticketIds
    decreases |rs|
  {
    if rs != [] {
      var init := rs[..|rs| - 1];
      TicketUnionMembers(init, t);
      if exists i :: 0 <= i < |rs| && t in rs[i].ticketIds {
        var i :| 0 <= i < |rs| && t in rs[i].ticketIds;
        if i < |init| {
          assert t in init[i].ticketIds;
        }
      }
      if exists i :: 0 <= i < |init| && t in init[i].ticketIds {
        var i :| 0 <= i < |init| && t in init[i].ticketIds;
        assert t in rs[i].ticketIds;
      }
    }
  }

  lemma PathsAppend(a: seq<ChangeRecord>, b: seq<ChangeRecord>)
    ensures Paths(a + b) == Paths(a) + Paths(b)
  {
    forall x | x in Paths(a + b) ensures x in Paths(a) + Paths(b) {
      var i :| 0 <= i < |a + b| && (a + b)[i].path == x;
      if i >= |a| {
        assert b[i - |a|].path == x;
      }
    }
    forall x | x in Paths(b) ensures x in Paths(a + b) {
      var i :| 0 <= i < |b| && b[i].path == x;
      assert (a + b)[i + |a|].path == x;
    }
    forall x | x in Paths(a) ensures x in Paths(a + b) {
      var i :| 0 <= i < |a| && a[i].path == x;
      assert (a + b)[i].path == x;
    }
  }

  /** The push summary counts each path once, so it never reports more files
      than there are change entries, and its line totals add up commit by
      commit. */
  lemma {:induction false} PushTotals(rs: seq<CommitRecord>)
    ensures |Paths(AllChanges(rs))| <= |AllChanges(rs)|
    ensures rs != [] ==>
              Insertions(AllChanges(rs)) == Insertions(AllChanges(rs[..|rs| - 1])) + Insertions(rs[|rs| - 1].changes)
    ensures rs != [] ==>
              Paths(AllChanges(rs)) == Paths(AllChanges(rs[..|rs| - 1])) + Paths(rs[|rs| - 1].changes)
  {
    PathsBound(AllChanges(rs));
    if rs != [] {
      SumsAppend(AllChanges(rs[..|rs| - 1]), rs[|rs| - 1].changes);
      PathsAppend(AllChanges(rs[..|rs| - 1]), rs[|rs| - 1].changes);
    }
  }

  /* --- commit URLs ------------------------------------------------------ */

  /** Removing ".git" from `repo + ".git"` leaves `repo` when `repo` itself
      has no ".git"; so does dropping the suffix. */
  lemma DropGitSuffix(repo: string)
    requires !Contains(repo, ".git")
    ensures RemoveGitText(repo + ".git") == repo == RemoveGitSuffix(repo + ".git")
  {
    var s := repo + ".git";
    forall i | 0 <= i < |repo| ensures !OccursAt(s, ".git", i) {
      if i + 4 <= |repo| {
        assert s[i..i + 4] == repo[i..i + 4];
        assert !OccursAt(repo, ".git", i);
      } else {
        var k := |repo| - i;
        assert s[i..i + 4][k] == s[|repo|] == '.';
        assert ".git"[k] != '.';
      }
    }
    ReplaceSkipsPrefix(repo, ".git", ".git", "");
    assert ".git"[..4] == ".git";
    assert ".git"[4..] == "";
    assert repo + "" == repo;
    assert s[..|s| - 4] == repo;
  }

  /** The two ways of removing ".git" agree when what dropping the suffix
      leaves holds no further ".git". */
  lemma StripsAgree(repoPath: string)
    requires !Contains(RemoveGitSuffix(repoPath), ".git")
    ensures RemoveGitText(repoPath) == RemoveGitSuffix(repoPath)
  {
    var kept := RemoveGitSuffix(repoPath);
    if kept == repoPath {
      ReplaceAbsent(repoPath, ".git", "");
    } else {
      assert repoPath == kept + ".git";
      DropGitSuffix(kept);
    }
  }

  /** `split(sep)[1]` of `lead + sep + rest`, where `sep` does not occur
      before the end of `lead` and not in `rest`, is `rest`. */
  lemma FieldAfter(lead: string, sep: string, rest: string)
    requires |sep| > 0
    requires forall j :: 0 <= j < |lead| ==> !OccursAt(lead + sep, sep, j)
    requires !Contains(rest, sep)
    ensures SecondField(lead + sep + rest, sep) == Some(rest)
  {
    var s := lead + sep + rest;
    assert s[|lead|..|lead| + |sep|] == sep;
    assert OccursAt(s, sep, |lead|);
    forall j | 0 <= j < |lead| ensures !OccursAt(s, sep, j) {
      assert s[j..j + |sep|] == (lead + sep)[j..j + |sep|];
      assert !OccursAt(lead + sep, sep, j);
    }
    var f := Find(s, sep);
    assert f == Some(|lead|);
    assert s[|lead| + |sep|..] == rest;
  }

  /** A separator whose first character is not in `lead` does not occur in
      `lead + sep` before the end of `lead`. */
  lemma NoEarlyOccurrence(lead: string, sep: string)
    requires |sep| > 0 && sep[0] !in lead
    ensures forall j :: 0 <= j < |lead| ==> !OccursAt(lead + sep, sep, j)
  {
    forall j | 0 <= j < |lead| ensures !OccursAt(lead + sep, sep, j) {
    }
  }

  /** `split(sep)[1]` of `lead + sep + rest`, with `sep` neither before the
      end of `lead` nor in `rest`, gives the page of `strip(rest)`. */
  lemma HostField(lead: string, sep: string, rest: string, site: string, commitPath: string, hash: string,
                  strip: string -> string)
    requires |sep| > 0
    requires forall j :: 0 <= j < |lead| ==> !OccursAt(lead + sep, sep, j)
    requires !Contains(rest, sep)
    ensures WebUrl(SecondField(lead + sep + rest, sep), site, commitPath, hash, strip)
            == Some(site + strip(rest) + commitPath + hash)
  {
    FieldAfter(lead, sep, rest);
  }

  lemma SshUrlWith(rest: string, hash: string, strip: string -> string)
    requires !Contains(rest, "git@github.com:")
    ensures CommitUrlWith(Some("git@github.com:" + rest), hash, strip)
            == Some("https://github.com/" + strip(rest) + "/commit/" + hash)
  {
    var url := "git@github.com:" + rest;
    assert url == [] + "git@github.com:" + rest;
    assert url[..15] == "git@github.com:";
    HostField([], "git@github.com:", rest, "https://github.com/", "/commit/", hash, strip);
  }

  /** A GitHub SSH remote gives the github.com commit page of whatever
      follows the host, with ".git" removed: every occurrence as written, the
      suffix only as intended. The two agree when only a suffix is there to
      drop. */
  lemma SshRemoteUrl(rest: string, hash: string)
    requires !Contains(rest, "git@github.com:")
    ensures CommitUrl(Some("git@github.com:" + rest), hash)
            == Some("https://github.com/" + ReplaceAll(rest, ".git", "") + "/commit/" + hash)
    ensures IntendedCommitUrl(Some("git@github.com:" + rest), hash)
            == Some("https://github.com/" + RemoveGitSuffix(rest) + "/commit/" + hash)
    ensures !Contains(RemoveGitSuffix(rest), ".git") ==>
              CommitUrl(Some("git@github.com:" + rest), hash) == IntendedCommitUrl(Some("git@github.com:" + rest), hash)
  {
    SshUrlWith(rest, hash, RemoveGitText);
    SshUrlWith(rest, hash, RemoveGitSuffix);
    if !Contains(RemoveGitSuffix(rest), ".git") {
      StripsAgree(rest);
    }
  }

  lemma HttpsUrlWith(host: string, rest: string, hash: string, site: string, commitPath: string,
                     strip: string -> string)
    requires |host| > 0 && host[0] !in "https://" && host[|host| - 1] == '/'
    requires !Contains(rest, host)
    requires CommitUrlWith(Some("https://" + host + rest), hash, strip)
             == WebUrl(SecondField("https://" + host + rest, host), site, commitPath, hash, strip)
    ensures CommitUrlWith(Some("https://" + host + rest), hash, strip) == Some(site + strip(rest) + commitPath + hash)
  {
    NoEarlyOccurrence("https://", host);
    HostField("https://", host, rest, site, commitPath, hash, strip);
  }

  lemma GithubUrlWith(rest: string, hash: string, strip: string -> string)
    requires !Contains(rest, "github.com/")
    ensures CommitUrlWith(Some("https://github.com/" + rest), hash, strip)
            == Some("https://github.com/" + strip(rest) + "/commit/" + hash)
  {
    var url := "https://github.com/" + rest;
    assert url == "https://" + "github.com/" + rest;
    assert !StartsWith(url, "git@github.com:") by {
      assert url[0] == 'h';
    }
    assert OccursAt(url, "github.com", 8) by {
      assert url[8..18] == "github.com";
    }
    HttpsUrlWith("github.com/", rest, hash, "https://github.com/", "/commit/", strip);
  }

  /** A GitHub HTTPS remote, with or without ".git", gives the same page. */
  lemma GithubRemoteUrl(rest: string, hash: string)
    requires !Contains(rest, "github.com/")
    ensures CommitUrl(Some("https://github.com/" + rest), hash)
            == Some("https://github.com/" + ReplaceAll(rest, ".git", "") + "/commit/" + hash)
    ensures IntendedCommitUrl(Some("https://github.com/" + rest), hash)
            == Some("https://github.com/" + RemoveGitSuffix(rest) + "/commit/" + hash)
    ensures !Contains(RemoveGitSuffix(rest), ".git") ==>
              CommitUrl(Some("https://github.com/" + rest), hash) == IntendedCommitUrl(Some("https://github.com/" + rest), hash)
  {
    GithubUrlWith(rest, hash, RemoveGitText);
    GithubUrlWith(rest, hash, RemoveGitSuffix);
    if !Contains(RemoveGitSuffix(rest), ".git") {
      StripsAgree(rest);
    }
  }

  lemma GitlabUrlWith(rest: string, hash: string, strip: string -> string)
    requires !Contains(rest, "gitlab.com/") && !Contains("https://gitlab.com/" + rest, "github.com")
    ensures CommitUrlWith(Some("https://gitlab.com/" + rest), hash, strip)
            == Some("https://gitlab.com/" + strip(rest) + "/-/commit/" + hash)
  {
    var url := "https://gitlab.com/" + rest;
    assert url == "https://" + "gitlab.com/" + rest;
    assert !StartsWith(url, "git@github.com:") by {
      assert url[0] == 'h';
    }
    assert OccursAt(url, "gitlab.com", 8) by {
      assert url[8..18] == "gitlab.com";
    }
    HttpsUrlWith("gitlab.com/", rest, hash, "https://gitlab.com/", "/-/commit/", strip);
  }

  /** A GitLab remote gives the GitLab commit page, provided nothing in the
      URL mentions github.com (which is checked first). */
  lemma GitlabRemoteUrl(rest: string, hash: string)
    requires !Contains(rest, "gitlab.com/") && !Contains("https://gitlab.com/" + rest, "github.com")
    ensures CommitUrl(Some("https://gitlab.com/" + rest), hash)
            == Some("https://gitlab.com/" + ReplaceAll(rest, ".git", "") + "/-/commit/" + hash)
    ensures IntendedCommitUrl(Some("https://gitlab.com/" + rest), hash)
            == Some("https://gitlab.com/" + RemoveGitSuffix(rest) + "/-/commit/" + hash)
    ensures !Contains(RemoveGitSuffix(rest), ".git") ==>
              CommitUrl(Some("https://gitlab.com/" + rest), hash) == IntendedCommitUrl(Some("https://gitlab.com/" + rest), hash)
  {
    GitlabUrlWith(rest, hash, RemoveGitText);
    GitlabUrlWith(rest, hash, RemoveGitSuffix);
    if !Contains(RemoveGitSuffix(rest), ".git") {
      StripsAgree(rest);
    }
  }

  lemma BitbucketUrlWith(rest: string, hash: string, strip: string -> string)
    requires !Contains(rest, "bitbucket.org/")
    requires !Contains("https://bitbucket.org/" + rest, "github.com")
    requires !Contains("https://bitbucket.org/" + rest, "gitlab.com")
    ensures CommitUrlWith(Some("https://bitbucket.org/" + rest), hash, strip)
            == Some("https://bitbucket.org/" + strip(rest) + "/commits/" + hash)
  {
    var url := "https://bitbucket.org/" + rest;
    assert url == "https://" + "bitbucket.org/" + rest;
    assert !StartsWith(url, "git@github.com:") by {
      assert url[0] == 'h';
    }
    assert OccursAt(url, "bitbucket.org", 8) by {
      assert url[8..21] == "bitbucket.org";
    }
    HttpsUrlWith("bitbucket.org/", rest, hash, "https://bitbucket.org/", "/commits/", strip);
  }

  /** A Bitbucket remote gives the Bitbucket commit page, provided the URL
      mentions neither github.com nor gitlab.com. */
  lemma BitbucketRemoteUrl(rest: string, hash: string)
    requires !Contains(rest, "bitbucket.org/")
    requires !Contains("https://bitbucket.org/" + rest, "github.com")
    requires !Contains("https://bitbucket.org/" + rest, "gitlab.com")
    ensures CommitUrl(Some("https://bitbucket.org/" + rest), hash)
            == Some("https://bitbucket.org/" + ReplaceAll(rest, ".git", "") + "/commits/" + hash)
    ensures IntendedCommitUrl(Some("https://bitbucket.org/" + rest), hash)
            == Some("https://bitbucket.org/" + RemoveGitSuffix(rest) + "/commits/" + hash)
    ensures !Contains(RemoveGitSuffix(rest), ".git") ==>
              CommitUrl(Some("https://bitbucket.org/" + rest), hash) == IntendedCommitUrl(Some("https://bitbucket.org/" + rest), hash)
  {
    BitbucketUrlWith(rest, hash, RemoveGitText);
    BitbucketUrlWith(rest, hash, RemoveGitSuffix);
    if !Contains(RemoveGitSuffix(rest), ".git") {
      StripsAgree(rest);
    }
  }

  /** Removing ".git" skips a prefix without '.', then removes the first
      occurrence. */
  lemma RemoveGitAfter(a: string, b: string)
    requires '.' !in a
    ensures RemoveGitText(a + ".git" + b) == a + RemoveGitText(b)
  {
    var s := a + (".git" + b);
    assert a + ".git" + b == s;
    forall i | 0 <= i < |a| ensures !OccursAt(s, ".git", i) {
      assert s[i] == a[i];
    }
    ReplaceSkipsPrefix(a, ".git" + b, ".git", "");
    assert (".git" + b)[..4] == ".git" && (".git" + b)[4..] == b;
  }

  /** A text without ':' holds no GitHub SSH host. */
  lemma NoSshHost(rest: string)
    requires ':' !in rest
    ensures !Contains(rest, "git@github.com:")
  {
    forall i | 0 <= i <= |rest| - 15 ensures !OccursAt(rest, "git@github.com:", i) {
      assert rest[i + 14] in rest;
    }
  }

  /** Both ways of removing ".git" from `<a>.git<b>.git`; the text has a
      ':' only where `a` or `b` has one. */
  lemma InnerGitStrips(a: string, b: string, rest: string)
    requires '.' !in a && !Contains(b, ".git") && rest == a + ".git" + b + ".git"
    ensures RemoveGitText(rest) == a + b
    ensures RemoveGitSuffix(rest) == a + ".git" + b
    ensures ':' in rest ==> ':' in a || ':' in b
  {
    assert rest == a + ".git" + (b + ".git");
    RemoveGitAfter(a, b + ".git");
    DropGitSuffix(b);
    assert rest[..|rest| - 4] == a + ".git" + b;
  }

  /** A GitHub SSH remote whose repository name holds ".git" before the
      suffix, as in `<a>.git<b>.git`: as written the page is that of `<a><b>`;
      dropping only the suffix gives the page of `<a>.git<b>`. */
  lemma InnerGitRemoved(a: string, b: string, rest: string, hash: string)
    requires '.' !in a && ':' !in a && ':' !in b && !Contains(b, ".git")
    requires rest == a + ".git" + b + ".git"
    ensures CommitUrl(Some("git@github.com:" + rest), hash) == Some("https://github.com/" + (a + b) + "/commit/" + hash)
    ensures IntendedCommitUrl(Some("git@github.com:" + rest), hash)
            == Some("https://github.com/" + (a + ".git" + b) + "/commit/" + hash)
  {
    InnerGitStrips(a, b, rest);
    SshPagesOf(rest, hash, a + b, a + ".git" + b);
  }

  /** The pages of a GitHub SSH remote whose path has no ':', given what
      each way of removing ".git" leaves of the path. */
  lemma SshPagesOf(rest: string, hash: string, written: string, intended: string)
    requires ':' !in rest && RemoveGitText(rest) == written && RemoveGitSuffix(rest) == intended
    ensures CommitUrl(Some("git@github.com:" + rest), hash) == Some("https://github.com/" + written + "/commit/" + hash)
    ensures IntendedCommitUrl(Some("git@github.com:" + rest), hash)
            == Some("https://github.com/" + intended + "/commit/" + hash)
  {
    NoSshHost(rest);
    SshRemoteUrl(rest, hash);
  }

  /** For instance the GitHub Pages repository `alice/alice.github.io`: as
      written its commits link to `alice/alicehub.io`. */
  lemma PagesRemoteFinding(hash: string)
    ensures CommitUrl(Some("git@github.com:alice/alice.github.io.git"), hash)
            == Some("https://github.com/alice/alicehub.io/commit/" + hash)
    ensures IntendedCommitUrl(Some("git@github.com:alice/alice.github.io.git"), hash)
            == Some("https://github.com/alice/alice.github.io/commit/" + hash)
  {
    PagesNames("alice/alice", "hub.io", "alice/alice.github.io.git");
    InnerGitRemoved("alice/alice", "hub.io", "alice/alice.github.io.git", hash);
    PagesUrls("alice/alice.github.io.git", "alice/alicehub.io", "alice/alice.github.io");
  }

  /** The pieces of the Pages example. */
  lemma PagesNames(a: string, b: string, rest: string)
    requires a == "alice/alice" && b == "hub.io" && rest == "alice/alice.github.io.git"
    ensures '.' !in a && ':' !in a && ':' !in b && !Contains(b, ".git")
    ensures rest == a + ".git" + b + ".git"
    ensures a + b == "alice/alicehub.io" && a + ".git" + b == "alice/alice.github.io"
  {
    assert b[3..] == ".io";
    AbsentByLastChar(b, ".git");
  }

  /** The URLs of the Pages example, cut where the model builds them. */
  lemma PagesUrls(rest: string, written: string, intended: string)
    requires rest == "alice/alice.github.io.git" && written == "alice/alicehub.io" && intended == "alice/alice.github.io"
    ensures "git@github.com:alice/alice.github.io.git" == "git@github.com:" + rest
    ensures "https://github.com/alice/alicehub.io/commit/" == "https://github.com/" + written + "/commit/"
    ensures "https://github.com/alice/alice.github.io/commit/" == "https://github.com/" + intended + "/commit/"
  {
    JoinedLiteral("git@github.com:", rest, "git@github.com:alice/alice.github.io.git");
    JoinedLiteral("https://github.com/", written, "https://github.com/alice/alicehub.io");
    JoinedLiteral("https://github.com/" + written, "/commit/", "https://github.com/alice/alicehub.io/commit/");
    JoinedLiteral("https://github.com/", intended, "https://github.com/alice/alice.github.io");
    JoinedLiteral("https://github.com/" + intended, "/commit/", "https://github.com/alice/alice.github.io/commit/");
  }

  /** `s` is `u + v` when it has their length and their characters. */
  lemma JoinedLiteral(u: string, v: string, s: string)
    requires |s| == |u| + |v| && s[..|u|] == u && s[|u|..] == v
    ensures s == u + v
  {
  }

  /** As intended, the page of a repository cloned over SSH or HTTPS from
      GitHub is that of its whole path, whatever the path holds besides the
      host's separator. */
  lemma IntendedRemoteUrl(repo: string, hash: string)
    requires !Contains(repo + ".git", "git@github.com:") && !Contains(repo + ".git", "github.com/")
    ensures IntendedCommitUrl(Some("git@github.com:" + repo + ".git"), hash)
            == Some("https://github.com/" + repo + "/commit/" + hash)
    ensures IntendedCommitUrl(Some("https://github.com/" + repo + ".git"), hash)
            == Some("https://github.com/" + repo + "/commit/" + hash)
  {
    var rest := repo + ".git";
    assert "git@github.com:" + repo + ".git" == "git@github.com:" + rest;
    assert "https://github.com/" + repo + ".git" == "https://github.com/" + rest;
    SshRemoteUrl(rest, hash);
    GithubRemoteUrl(rest, hash);
    assert rest[..|rest| - 4] == repo;
  }

  /** A URL that mentions github.com is always given a github.com page (or
      none), whatever other host it mentions. */
  lemma GithubFirst(url: string, hash: string)
    requires Contains(url, "github.com")
    ensures CommitUrl(Some(url), hash).Some? ==> StartsWith(CommitUrl(Some(url), hash).value, "https://github.com/")
  {
    var r := CommitUrl(Some(url), hash);
    if r.Some? {
      assert (r.value)[..19] == "https://github.com/";
    }
  }

  /** A remote on none of the three hosts has no commit URL, and neither has
      a host name without the '/' that follows it. */
  lemma UnknownRemote(url: string, hash: string)
    requires !Contains(url, "github.com") && !Contains(url, "gitlab.com") && !Contains(url, "bitbucket.org")
    ensures CommitUrl(Some(url), hash) == None
    ensures CommitUrl(None, hash) == None
  {
    if StartsWith(url, "git@github.com:") {
      assert url[4..14] == "git@github.com:"[4..14];
      assert OccursAt(url, "github.com", 4);
    }
  }

  /** A GitHub HTTPS remote without a '/' after the host has no commit URL:
      the split raises IndexError. */
  lemma MissingSeparator(url: string, hash: string)
    requires !StartsWith(url, "git@github.com:") && Contains(url, "github.com") && !Contains(url, "github.com/")
    ensures CommitUrl(Some(url), hash) == None
  {
  }

  lemma BareGithubFacts(url: string)
    requires url == "https://github.com"
    ensures Contains(url, "github.com") && !Contains(url, "github.com/") && !StartsWith(url, "git@github.com:")
  {
    assert OccursAt(url, "github.com", 8) by {
      assert url[8..18] == "github.com";
    }
    assert url[10..] == "thub.com";
    AbsentByLastChar(url, "github.com/");
    assert url[0] == 'h';
  }

  /** For instance "https://github.com". */
  lemma MissingSeparatorExample(url: string, hash: string)
    requires url == "https://github.com"
    ensures CommitUrl(Some(url), hash) == None
  {
    BareGithubFacts(url);
    MissingSeparator(url, hash);
  }
}
