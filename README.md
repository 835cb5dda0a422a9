# jira-update core, modelled in Dafny

jira-update is a Git hook. After a push it reads the JIRA ticket keys in the
commit messages, analyses what the commits changed and posts a comment on
each ticket. This project models the part of the hook that turns commits
into comment text, and proves properties of it:

- **Git analysis** (`GitAnalyzer`, git/analyzer.py):
  - ticket keys in commit messages, including the project-key filter;
  - ignored paths and change types;
  - the per-commit summary and the push analysis;
  - the web URL of a commit.
- **Code analysis** (`CodeAnalyzer`, analysis/code_analyzer.py):
  - ranking the changed files by size;
  - analysing a file: its language, its diff hunks and a one-line summary;
  - the detailed summary of a commit.
  - The unified-diff hunk parser `_parse_diff` is its own module, `DiffParser`.
- **Comment formatting** (`Formatter`, jira/formatter.py):
  - the placeholder template of a commit comment;
  - the "files changed" list;
  - the comment for a push with several commits.
- **Configuration** (`Configuration`, utils/config.py):
  - validation of the loaded YAML document;
  - `Config.get`;
  - the `get_config` singleton.

Shared pieces:

- `Records` holds the dictionaries passed between these parts, as datatypes.
- `Counting` is the insertion-ordered `file_types` counter both analyzers build.
- `Text` states the Python string operations the code relies on: `split`,
  `join`, `strip`, `replace`, `in`, `os.path.basename`,
  `os.path.splitext`, `lower`, `str(int)` and string ordering.

Where the source works by looping and appending, the model is a method with
a loop. Each such method is proved equal to a functional specification, and
the properties are proved about that specification. Examples are
`ParseDiff`, `ExtractTicketIds`, `AnalyzePush`, `FormatPushComment` and
`DetailedSummary`. `Config` is a class whose constant fields its constructor
sets from the validated document. The `get_config` registry is a class whose
`instance` field `GetConfig` updates.

Some things the code reaches outside Python for. They are inputs to the
model:

- the commits, their diff entries and the `origin` remote URL;
- the per-file diff text and the pygments lexer name of a file;
- `fnmatch`;
- a configured ticket regex, given by its `findall`;
- `datetime.fromisoformat(...).strftime(...)`;
- the YAML file loader.

## Model

| member | source | states |
|---|---|---|
| `CodeAnalyzer.AnalyzeChanges` | src/jira_update/analysis/code_analyzer.py:49-89 | a commit without changes is returned unchanged; otherwise the record gains the analyses of the significant files (failed analyses dropped, order kept) and the detailed summary of those analyses, and nothing else changes |
| `CodeAnalyzer.AnalyzeChangesBound` | src/jira_update/analysis/code_analyzer.py:66-74 | at most `max_files` file analyses are reported, each about a path the commit changed |
| `CodeAnalyzer.AnalyzeFiles` | src/jira_update/analysis/code_analyzer.py:69-74 | the loop over the significant files returns exactly the specified analyses |
| `CodeAnalyzer.AnalysesBound` | src/jira_update/analysis/code_analyzer.py:69-74 | the loop keeps no more analyses than files and every kept analysis is about one of the given files |
| `CodeAnalyzer.AnalysesAppend` | src/jira_update/analysis/code_analyzer.py:69-74 | the analyses of two runs of files are those of the first run followed by those of the second, so each kept analysis stands in its file's place |
| `CodeAnalyzer.SortByWeightFacts` | src/jira_update/analysis/code_analyzer.py:101-106 | the ranking is a permutation of the changes in non-increasing order of insertions plus deletions |
| `CodeAnalyzer.SortByWeightStable` | src/jira_update/analysis/code_analyzer.py:101-106 | changes of equal weight keep their input order, as Python's stable `sorted` does with `reverse=True` |
| `CodeAnalyzer.SignificantFilesFacts` | src/jira_update/analysis/code_analyzer.py:91-109 | `_get_significant_files` returns min(n, max_files) of the changes, heaviest first, drawn from the input without duplication, and no dropped change outweighs a kept one |
| `CodeAnalyzer.AnalyzeFile` | src/jira_update/analysis/code_analyzer.py:111-162 | a deleted file gets the fixed "File was deleted" analysis with 0 insertions; otherwise the result is None exactly when the diff is missing or empty, and the sections are the first `max_changes_per_file` parsed hunks with the change's counts; every analysis has the detected language, and the summary of a kept file is the file summary of those sections |
| `CodeAnalyzer.DeletedIgnoresDiff` | src/jira_update/analysis/code_analyzer.py:125-134 | the analysis of a deleted file does not depend on any diff text |
| `CodeAnalyzer.FallbackIgnoresCase` | src/jira_update/analysis/code_analyzer.py:174-206 | without a pygments lexer the language depends only on the lower-cased path: two paths that lower-case alike get the same language |
| `CodeAnalyzer.UpperCasePython` | src/jira_update/analysis/code_analyzer.py:174-206 | without a lexer, `dir/App.PY` is Python |
| `CodeAnalyzer.FallbackHiddenFile` | src/jira_update/analysis/code_analyzer.py:177-206 | a hidden file such as `dir/.py` has no extension, so without a lexer its language is "Unknown" |
| `CodeAnalyzer.RenamedSummary` | src/jira_update/analysis/code_analyzer.py:314-323 | a renamed file is summarised by its base name only |
| `CodeAnalyzer.UntruncatedSnippetCounts` | src/jira_update/analysis/code_analyzer.py:326-329 | for a snippet that was not cut short, the '+' and '-' counts of the summary are exactly the added and removed lines of the hunk |
| `CodeAnalyzer.HeadersKept` | src/jira_update/analysis/code_analyzer.py:335-339 | a header is listed if and only if it is non-empty and belongs to some section |
| `CodeAnalyzer.HeaderListShape` | src/jira_update/analysis/code_analyzer.py:341-345 | at most three headers are named; beyond three, " and N more" follows, with N plus 3 equal to the number of headers |
| `CodeAnalyzer.AsWrittenAgrees` | src/jira_update/analysis/code_analyzer.py:300-347 | the summary as written and the corrected summary agree whenever the file is not modified or every section has a snippet |
| `CodeAnalyzer.SnippetsDisabledFinding` | src/jira_update/analysis/code_analyzer.py:326-328 | with `include_snippets` off, a modified file with a hunk makes the summary as written fail, at every detail level |
| `CodeAnalyzer.SnippetsDisabledCorrected` | src/jira_update/analysis/code_analyzer.py:326-332 | with `include_snippets` off, the corrected summary of a modified file reports 0 additions and 0 deletions at the basic level |
| `CodeAnalyzer.DisabledSnippetsAbsent` | src/jira_update/analysis/code_analyzer.py:260-296 | with `include_snippets` off every parsed hunk has no snippet |
| `CodeAnalyzer.DetailedSummary` | src/jira_update/analysis/code_analyzer.py:349-390 | the loops build exactly the specified summary: the fixed message for no analyses, else the joined summary lines |
| `CodeAnalyzer.CountLanguages` | src/jira_update/analysis/code_analyzer.py:373-377 | the `file_types` loop builds the counter of the analyses' languages |
| `CodeAnalyzer.DetailedLinesShape` | src/jira_update/analysis/code_analyzer.py:361-390 | the totals line comes first; a "File types" line appears exactly when two languages differ; then the "File changes" heading and one `- path: summary` line per analysis, in order |
| `CodeAnalyzer.FileTypesCounts` | src/jira_update/analysis/code_analyzer.py:373-381 | the languages of the "File types" line are listed once each, in order of first appearance, each with the number of analyses in that language |
| `DiffParser.ParseDiff` | src/jira_update/analysis/code_analyzer.py:231-298 | the loop over the lines returns exactly the hunks of the specification |
| `DiffParser.ParseIsSegments` | src/jira_update/analysis/code_analyzer.py:246-298 | the loop's result equals an independent reading segment by segment: each header with the body lines up to the next header, emitted when that body is not empty |
| `DiffParser.ScanIsSegments` | src/jira_update/analysis/code_analyzer.py:250-296 | from any reachable state, running the loop and closing the last hunk gives the hunks already found followed by the segment reading of the remaining lines |
| `DiffParser.Snippet` | src/jira_update/analysis/code_analyzer.py:256-258 | the snippet is the joined body when it fits `max_snippet_length`; otherwise it is the first `max_snippet_length` characters followed by "..." |
| `DiffParser.HeaderRoundTrip` | src/jira_update/analysis/code_analyzer.py:244-276 | a header line written with both counts is read back with exactly its four numbers and trailing text |
| `DiffParser.OmittedCountsAreOne` | src/jira_update/analysis/code_analyzer.py:270-273 | a header line with both counts omitted is read with counts 1 |
| `DiffParser.ExampleHeader` | src/jira_update/analysis/code_analyzer.py:244-276 | `@@ -10,3 +10,4 @@ funcName` is read as (10, 3, 10, 4, " funcName") |
| `DiffParser.ExampleHeaderText` | src/jira_update/analysis/code_analyzer.py:265 | the recorded header of that hunk is the stripped text "funcName" |
| `DiffParser.BodyLineIsNoHeader` | src/jira_update/analysis/code_analyzer.py:252-281 | a line starting with '+', '-' or ' ' never matches the header pattern |
| `DiffParser.PreambleIgnored` | src/jira_update/analysis/code_analyzer.py:278-281 | lines before the first header (file headers, `diff --git` and so on) never change the result |
| `DiffParser.NoHeaderNoHunks` | src/jira_update/analysis/code_analyzer.py:246-298 | a diff without header lines has no hunks |
| `DiffParser.HunkBound` | src/jira_update/analysis/code_analyzer.py:253-296 | there are never more hunks than header lines |
| `DiffParser.IrrelevantLinesDropped` | src/jira_update/analysis/code_analyzer.py:278-281 | lines that are neither headers nor body lines can be removed without changing the result |
| `DiffParser.HeaderWithoutBody` | src/jira_update/analysis/code_analyzer.py:255-284 | a header whose body is empty gives no hunk |
| `DiffParser.SingleHunk` | src/jira_update/analysis/code_analyzer.py:284-296 | a header followed by body lines gives exactly one hunk, holding the header's numbers and all of those lines |
| `GitAnalyzer.ExtractTicketIds` | src/jira_update/git/analyzer.py:45-68 | the loop returns exactly the specified matches: all of them without project keys, else those that start with some key and '-' |
| `GitAnalyzer.FindTicketsKeys` | src/jira_update/git/analyzer.py:33-55 | every match of the default pattern is capital letters, '-', digits |
| `GitAnalyzer.NoDashNoTickets` | src/jira_update/git/analyzer.py:33-55 | a message without '-' holds no ticket key |
| `GitAnalyzer.TicketIdsCount` | src/jira_update/git/analyzer.py:57-68 | without project keys every match is returned; with them, each match is kept exactly as often as it occurs if it starts with some key and '-', and never otherwise |
| `GitAnalyzer.KeepKeyedOrder` | src/jira_update/git/analyzer.py:60-66 | the kept matches appear in the order of the match list |
| `GitAnalyzer.ShouldIgnore` | src/jira_update/git/analyzer.py:70-83 | a path is ignored if and only if some pattern matches it |
| `GitAnalyzer.ChangeTypeOf` | src/jira_update/git/analyzer.py:145-162 | the change type is decided by the flags in the order new, deleted, renamed, each case if and only if |
| `GitAnalyzer.CollectChanges` | src/jira_update/git/analyzer.py:111-129 | the loop records exactly the specified change entries |
| `GitAnalyzer.ChangesNotIgnored` | src/jira_update/git/analyzer.py:113-129 | no recorded change has an ignored path; every change comes, in order, from an entry that was not skipped; there are no more changes than entries |
| `GitAnalyzer.GenerateSummary` | src/jira_update/git/analyzer.py:164-194 | the loops build exactly the specified commit summary |
| `GitAnalyzer.CountExtensions` | src/jira_update/git/analyzer.py:179-183 | the `file_types` loop builds the counter of the non-empty extensions of the changed paths |
| `GitAnalyzer.ExtensionsCounted` | src/jira_update/git/analyzer.py:179-183 | an extension is counted if and only if it is non-empty and is the extension of a changed path |
| `GitAnalyzer.CommitSummaryShape` | src/jira_update/git/analyzer.py:185-194 | the summary starts with the totals line; a second, "File types" line appears exactly when two different extensions occur; each extension's count is its number of occurrences |
| `GitAnalyzer.AnalyzeCommit` | src/jira_update/git/analyzer.py:85-143 | the result is the specified record: a fixed record for a skipped merge, an error for a root commit, and otherwise author, tickets, changes and summary |
| `GitAnalyzer.MergeSkipped` | src/jira_update/git/analyzer.py:97-106 | with merge analysis off, a merge commit's record does not depend on its message or its diff, and it has no tickets, no changes and the fixed summary |
| `GitAnalyzer.CountPushTotals` | src/jira_update/git/analyzer.py:225-234 | the nested loop yields the set of changed paths and the summed insertions and deletions over all changes of all commits |
| `GitAnalyzer.AnalyzePush` | src/jira_update/git/analyzer.py:196-245 | the loop returns exactly the specified push analysis |
| `GitAnalyzer.PushTruncation` | src/jira_update/git/analyzer.py:211-223 | exactly the first `max_commits` commits are analysed, all of them when there are fewer; the push succeeds if and only if each of those commit analyses does, and then holds their records in order |
| `GitAnalyzer.AnalyzeAllErrSticks` | src/jira_update/git/analyzer.py:220-223 | once a commit's analysis fails, the whole push fails with that error |
| `GitAnalyzer.AnalyzeAllFacts` | src/jira_update/git/analyzer.py:217-223 | a successful push has one record per analysed commit, the i-th being that commit's analysis |
| `GitAnalyzer.AnalyzeAllSucceeds` | src/jira_update/git/analyzer.py:217-223 | when every commit's analysis succeeds, the push analysis succeeds |
| `GitAnalyzer.TicketUnionMembers` | src/jira_update/git/analyzer.py:218-243 | a key is among the push's ticket keys if and only if some commit lists it |
| `GitAnalyzer.PushTotals` | src/jira_update/git/analyzer.py:225-237 | the push counts each path once, so never more files than changes, and its totals extend commit by commit |
| `GitAnalyzer.DropGitSuffix` | src/jira_update/git/analyzer.py:264 | removing ".git" from `repo + ".git"` leaves `repo` when `repo` holds no ".git", and so does dropping only the suffix |
| `GitAnalyzer.StripsAgree` | src/jira_update/git/analyzer.py:264 | `replace('.git', '')` and dropping the ".git" suffix agree when what dropping the suffix leaves holds no ".git" |
| `GitAnalyzer.SshRemoteUrl` | src/jira_update/git/analyzer.py:262-265 | a GitHub SSH remote `git@github.com:<rest>` gives `https://github.com/<rest with every ".git" removed>/commit/<hash>`; dropping only the suffix gives the page of `<rest>` without its ".git" suffix; the two agree when no other ".git" is left |
| `GitAnalyzer.GithubRemoteUrl` | src/jira_update/git/analyzer.py:266-269 | a GitHub HTTPS remote `https://github.com/<rest>` gives the same pages, as written and as intended |
| `GitAnalyzer.GitlabRemoteUrl` | src/jira_update/git/analyzer.py:270-273 | a GitLab remote gives `https://gitlab.com/<rest with every ".git" removed>/-/commit/<hash>` when the URL does not mention github.com, and the suffix-only page as intended |
| `GitAnalyzer.BitbucketRemoteUrl` | src/jira_update/git/analyzer.py:274-277 | a Bitbucket remote gives `https://bitbucket.org/<rest with every ".git" removed>/commits/<hash>` when the URL mentions neither github.com nor gitlab.com, and the suffix-only page as intended |
| `GitAnalyzer.RemoveGitAfter` | src/jira_update/git/analyzer.py:264 | `replace('.git', '')` removes the first ".git" after a prefix without '.' and goes on with the rest |
| `GitAnalyzer.InnerGitRemoved` | src/jira_update/git/analyzer.py:262-265 | for an SSH remote `<a>.git<b>.git`, the page as written is that of `<a><b>`, while dropping only the suffix gives that of `<a>.git<b>` |
| `GitAnalyzer.PagesRemoteFinding` | src/jira_update/git/analyzer.py:262-265 | the remote `git@github.com:alice/alice.github.io.git` links as written to `alice/alicehub.io`, and as intended to `alice/alice.github.io` |
| `GitAnalyzer.IntendedRemoteUrl` | src/jira_update/git/analyzer.py:262-269 | with only the suffix dropped, a GitHub SSH or HTTPS remote `<repo>.git` gives the page of `<repo>`, whatever ".git" text the repository name holds |
| `GitAnalyzer.GithubFirst` | src/jira_update/git/analyzer.py:262-269 | a URL that mentions github.com is only ever given a github.com page, whatever else it mentions |
| `GitAnalyzer.UnknownRemote` | src/jira_update/git/analyzer.py:257-283 | a remote on none of the three hosts, and a missing `origin`, give no URL |
| `GitAnalyzer.MissingSeparator` | src/jira_update/git/analyzer.py:257-283 | a URL that mentions github.com without a following '/' and is not SSH gives no URL: the `split(...)[1]` raises and the error is caught |
| `GitAnalyzer.MissingSeparatorExample` | src/jira_update/git/analyzer.py:257-283 | `https://github.com` gives no commit URL |
| `Formatter.NewFormatter` | src/jira_update/jira/formatter.py:18-38 | the template is the configured one when it is non-empty, else the default template; it is never empty |
| `Formatter.ShortHash` | src/jira_update/jira/formatter.py:52 | the short hash is the first min(7, n) characters of the hash |
| `Formatter.CommentAuthor` | src/jira_update/jira/formatter.py:54 | for an author written as `name <email>` by the git analyzer, the comment shows the stripped name |
| `Formatter.AuthorOfRecord` | src/jira_update/git/analyzer.py:136 | splitting the analyzer's `name <email>` text at '<' gives back the name and the space before the e-mail |
| `Formatter.SummaryPrecedence` | src/jira_update/jira/formatter.py:64-70 | the detailed summary wins over the AI summary, which wins over the basic summary |
| `Formatter.FormatFilesChanged` | src/jira_update/jira/formatter.py:155-190 | the loops build exactly the specified list: one line per file analysis when there are analyses, else one line per change |
| `Formatter.ChangeLineShape` | src/jira_update/jira/formatter.py:181-188 | each change line starts with `* path - ` and has no line break |
| `Formatter.FilesChangedLines` | src/jira_update/jira/formatter.py:173-190 | without analyses, the text splits back into exactly one line per change, in order |
| `Formatter.FilesChangedFromAnalyses` | src/jira_update/jira/formatter.py:167-172 | with analyses, the change list is not consulted; there is one line per analysis, and an empty list of analyses gives the empty text |
| `Formatter.ReplaceFlatten` | src/jira_update/jira/formatter.py:79-86 | in a well-formed template, `replace('{name}', v)` with a brace-free `v` fills exactly the placeholders with that name and keeps the template well formed |
| `Formatter.DefaultReplacements` | src/jira_update/jira/formatter.py:79-86 | on the default template the seven replacements fill the seven placeholders in template order, when no value holds a brace |
| `Formatter.DefaultCommentLayout` | src/jira_update/jira/formatter.py:25-88 | with the default template and brace-free values, the comment is the default layout with the author, date, short hash, stripped message, summary, file list and URL in place |
| `Formatter.PlainTemplate` | src/jira_update/jira/formatter.py:79-86 | a template without braces is returned unchanged |
| `Formatter.MessageExpandsLaterPlaceholder` | src/jira_update/jira/formatter.py:79-86 | the replacements are sequential: a commit message that reads `{summary}` is itself replaced by the summary |
| `Formatter.CollectPaths` | src/jira_update/jira/formatter.py:143-147 | the loop collects exactly the set of all paths of all commits |
| `Formatter.SortPaths` | src/jira_update/jira/formatter.py:150 | the paths come out in ascending order without repetitions, and they are exactly the set's members |
| `Formatter.SortedSetFacts` | src/jira_update/jira/formatter.py:150 | `sorted(set(xs))` is ascending without repetitions and holds exactly the members of `xs` |
| `Formatter.SortedUnique` | src/jira_update/jira/formatter.py:150 | two ascending lists without repetitions with the same members are equal, so the sorted file list is unique |
| `Formatter.FormatPushComment` | src/jira_update/jira/formatter.py:90-153 | the loops build exactly the specified push comment |
| `Formatter.PushCommentShape` | src/jira_update/jira/formatter.py:100-153 | no commits give the fixed text; one commit gives that commit's comment; otherwise there are eight fixed lines, one line per commit in order, and one `* path` line per distinct path in ascending order |
| `Formatter.PushFileList` | src/jira_update/jira/formatter.py:143-151 | the file list is ascending, and a path is listed if and only if some change of some commit has it |
| `Counting.Tally` | src/jira_update/git/analyzer.py:179-183 | the counting loop builds the specified counter |
| `Counting.TallyKeys` | src/jira_update/analysis/code_analyzer.py:374-380 | the counter's keys are the distinct inputs in order of first appearance, as a dict keeps them |
| `Counting.TallyCounts` | src/jira_update/analysis/code_analyzer.py:374-377 | each count is the number of times its key occurs |
| `Counting.TallyTotal` | src/jira_update/analysis/code_analyzer.py:374-377 | the counts add up to the number of inputs |
| `Counting.TallySeveral` | src/jira_update/git/analyzer.py:190 | the counter has more than one entry if and only if two inputs differ |
| `Records.PathsBound` | src/jira_update/git/analyzer.py:226-236 | there are never more distinct paths than changes |
| `Text.Strip` | src/jira_update/jira/formatter.py:53 | the result neither starts nor ends with whitespace and is what remains of the text once its leading and trailing whitespace is removed |
| `Text.Split` | src/jira_update/jira/formatter.py:124 | `split` gives at least one piece, and no piece holds the separator |
| `Text.SecondField` | src/jira_update/git/analyzer.py:264 | `split(sep)[1]` exists exactly when the separator occurs; it holds no separator and runs from the end of the first occurrence up to the next occurrence or the end of the text |
| `Text.Basename` | src/jira_update/analysis/code_analyzer.py:314 | the base name is the longest suffix without '/' |
| `Text.Extension` | src/jira_update/git/analyzer.py:181 | the extension is empty or a suffix starting with its only '.', holding no '/' and preceded by a character that is neither '.' nor '/' |
| `Text.ExtensionExact` | src/jira_update/git/analyzer.py:181 | the extension is non-empty if and only if the base name has a '.' after a character other than '.'; the character before it lies in the base name |
| `Text.LowerExtension` | src/jira_update/analysis/code_analyzer.py:179 | two paths that lower-case alike have extensions that lower-case alike |
| `Text.Lower` | src/jira_update/analysis/code_analyzer.py:179 | `lower()` changes each character on its own and keeps the length |
| `Configuration.ValidateAccepts` | src/jira_update/utils/config.py:56-94 | validation succeeds if and only if the document has the three sections, a JIRA URL, the settings of a supported authentication method and a `keys` list |
| `Configuration.MissingSectionOrder` | src/jira_update/utils/config.py:63-67 | sections are checked in the order jira, project, git, and the first missing one is reported |
| `Configuration.BasicIsDefault` | src/jira_update/utils/config.py:74-77 | without `auth_method` the method is basic, so a missing username is reported |
| `Configuration.UnsupportedMethod` | src/jira_update/utils/config.py:74-87 | an authentication method other than basic or oauth is rejected with that method |
| `Configuration.OAuthFieldOrder` | src/jira_update/utils/config.py:78-85 | OAuth fields are checked in order: with `access_token` present and `access_token_secret` absent, the latter is reported |
| `Configuration.FirstMissingReports` | src/jira_update/utils/config.py:83-85 | the first absent field of the list is the one reported |
| `Configuration.KeysMustBeList` | src/jira_update/utils/config.py:93-94 | project keys written as a single string are rejected |
| `Configuration.In` | src/jira_update/utils/config.py:71 | `in` tests key membership on a mapping, and has no answer (TypeError) for values other than mappings, strings and lists |
| `Configuration.EffectivePath` | src/jira_update/utils/config.py:31 | an absent or empty path means `config.yaml`; any other path is kept |
| `Configuration.LoadConfig` | src/jira_update/utils/config.py:24-96 | a configuration is built if and only if the file loads and validates; the load error or the first validation error is returned otherwise |
| `Configuration.Config.Get` | src/jira_update/utils/config.py:121-139 | a missing section gives the default; no key gives the whole section; a key gives the entry or the default; a section that is not a mapping fails |
| `Configuration.ValidatedLookups` | src/jira_update/utils/config.py:121-139 | after validation `get('jira', 'url')` succeeds with the URL and `get('project', 'keys')` succeeds with a list |
| `Configuration.GitSectionUnchecked` | src/jira_update/utils/config.py:133-139 | validation does not look inside `git`: a non-mapping `git` section passes, and later lookups in it fail |
| `Configuration.ConfigRegistry.GetConfig` | src/jira_update/utils/config.py:162-175 | the first successful call builds and keeps the configuration; later calls return that same object and ignore their path; a failing call leaves none behind |

## Left out

- Running git and reading files (`git show`, `iter_commits`, `repo.commit`, the remote lookup, opening the YAML file) are not modelled; their results are inputs.
- Lexer lookup through pygments is an input map from path to lexer name.
- `fnmatch`, a configured ticket regex and `datetime` parsing and formatting are abstract function parameters. Only the default ticket pattern `([A-Z]+-\d+)` is scanned explicitly, over ASCII.
- `_load_config` and YAML parsing (utils/config.py:36-54) are a `load` function from a path to a document or an error. YAML mapping keys are strings only.
- `Configuration.LoadConfig` and `Configuration.ConfigRegistry.GetConfig`: `_setup_credentials` (utils/config.py:98-119), which the constructor runs after validation (utils/config.py:31-33), is not modelled, so their "if and only if" claims more success than the constructor has. Two of its failures are dropped: an AttributeError when `advanced` is present but not a mapping (utils/config.py:102), and the ConfigError raised with `use_keyring` on, basic authentication and no password in the file or the keyring (utils/config.py:116-117). Its keyring lookup and its write of the password into the `jira` section are dropped too, so `Config` keeps the validated document unchanged.
- `set_credential` (utils/config.py:141-155) talks to the system keyring, which is not part of this model.
- `_generate_ai_summary` (analysis/code_analyzer.py:392-450) and the AI branch of `analyze_changes` call an external service; the model never adds an `ai_summary`. The formatter still reads one if present.
- Logging is left out everywhere.
- `Text.Lower`: lower-cases ASCII letters only, not full Unicode case mapping.
- `GitAnalyzer.FindTickets`: `\d` is ASCII digits only, not every Unicode digit.
- `DiffParser.ReadNumber` and `DiffParser.DigitSpan`: the `\d` of the hunk-header pattern (analysis/code_analyzer.py:244) is ASCII digits only, and `int(...)` of those digits (analysis/code_analyzer.py:270-273) is read as an ASCII decimal.
- The settings `max_files`, `max_changes_per_file`, `max_snippet_length` and `max_commits` are natural numbers. Python's meaning of a negative slice bound is not modelled.
- Python's integers are unbounded, and so are Dafny's, so no integer width applies.
- `commit_url` is an optional text, absent meaning '#'. A present key whose value is None (which main.py can store) is not modelled.
- `analyze_commit` on a commit hash that git cannot resolve is not modelled; commits come from `iter_commits`.
- `Formatter.DefaultReplacements`: proved only for substituted values that contain no brace. Values that contain a placeholder are covered by `Formatter.MessageExpandsLaterPlaceholder`, not in general.
- `CodeAnalyzer.AnalyzeFile`: a modified file with a kept hunk and `include_snippets` off makes the source raise AttributeError in `_generate_file_summary` (see Findings). The model gives such a file the corrected summary instead of modelling the exception.
- `CodeAnalyzer.AnalyzeChanges`: composes `CodeAnalyzer.AnalyzeFile`, so in the same case it returns analyses with the corrected summary where the source raises.

## Findings

| source | as written | input that shows it | evidently intended | confidence | as-written member | corrected member |
|---|---|---|---|---|---|---|
| src/jira_update/analysis/code_analyzer.py:326-328 | `section.get('snippet', '').split('\n')` runs on every section of a modified file; `_parse_diff` stores `snippet: None` when `include_snippets` is off (line 266), and `None.split` raises AttributeError | `include_snippets: false` and a modified file whose diff has at least one non-empty hunk | a missing snippet counts as empty text, so the summary reports 0 additions and 0 deletions | not executed | `CodeAnalyzer.SnippetsDisabledFinding` | `CodeAnalyzer.SnippetsDisabledCorrected` |
| src/jira_update/git/analyzer.py:262-265 | `.replace('.git', '')` removes every ".git" of the repository path, not only the suffix | the remote `git@github.com:alice/alice.github.io.git` gives a commit URL under `alice/alicehub.io` | drop only the trailing ".git", giving a URL under `alice/alice.github.io` | not executed | `GitAnalyzer.PagesRemoteFinding` | `GitAnalyzer.IntendedRemoteUrl` |
