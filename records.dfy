/** The dictionaries the analyzers pass to one another and to the comment
    formatter, as datatypes: one change of a commit, the analysis of one
    changed file, the analysis of a commit and of a push. */
module Records {
  import opened Wrappers
  import DiffParser

  /** The `type` strings 'added', 'deleted', 'renamed' and 'modified'. */
  datatype ChangeType = Added | Deleted | Renamed | Modified

  /** A `change` entry of a commit analysis. */
  datatype ChangeRecord = ChangeRecord(changeType: ChangeType, path: string, insertions: nat, deletions: nat)

  /** A `file_analysis` entry. `changedSections` is None for a deleted file,
      whose analysis has no `changed_sections` key. */
  datatype FileAnalysis = FileAnalysis(
    path: string,
    changeType: ChangeType,
    language: string,
    summary: string,
    changedSections: Option<seq<DiffParser.Hunk>>,
    insertions: nat,
    deletions: nat)

  /** A commit analysis. A commit skipped as a merge has no `author`, `date`
      or `message` key; they are "" here, which is what the formatter reads
      for an absent key. `commitUrl`, `fileAnalyses`, `detailedSummary` and
      `aiSummary` are keys added later, None while absent. */
  datatype CommitRecord = CommitRecord(
    hash: string,
    author: string,
    date: string,
    message: string,
    isMerge: bool,
    ticketIds: seq<string>,
    changes: seq<ChangeRecord>,
    summary: string,
    commitUrl: Option<string>,
    fileAnalyses: Option<seq<FileAnalysis>>,
    detailedSummary: Option<string>,
    aiSummary: Option<string>)

  /** A push analysis; `ticket_ids` comes from a set, so its order is not
      part of the result. */
  datatype PushRecord = PushRecord(
    baseRef: string,
    headRef: string,
    commits: seq<CommitRecord>,
    ticketIds: set<string>,
    summary: string)

  /** The sum of `insertions` over `cs`. */
  function Insertions(cs: seq<ChangeRecord>): nat
    decreases |cs|
  {
    if cs == [] then 0 else Insertions(cs[..|cs| - 1]) + cs[|cs| - 1].insertions
  }

  /** The sum of `deletions` over `cs`. */
  function Deletions(cs: seq<ChangeRecord>): nat
    decreases |cs|
  {
    if cs == [] then 0 else Deletions(cs[..|cs| - 1]) + cs[|cs| - 1].deletions
  }

  /** The set of paths of `cs`. */
  function Paths(cs: seq<ChangeRecord>): set<string> {
    set i | 0 <= i < |cs| :: cs[i].path
  }

  lemma {:induction false} SumsAppend(a: seq<ChangeRecord>, b: seq<ChangeRecord>)
    ensures Insertions(a + b) == Insertions(a) + Insertions(b)
    ensures Deletions(a + b) == Deletions(a) + Deletions(b)
    decreases |b|
  {
    if b == [] {
      assert a + b == a;
    } else {
      var bInit := b[..|b| - 1];
      SumsAppend(a, bInit);
      assert (a + b)[..|a + b| - 1] == a + bInit;
    }
  }

  /** A push touches at most as many distinct paths as it has changes. */
  lemma {:induction false} PathsBound(cs: seq<ChangeRecord>)
    ensures |Paths(cs)| <= |cs|
    decreases |cs|
  {
    if cs != [] {
      var init := cs[..|cs| - 1];
      PathsBound(init);
      assert Paths(cs) == Paths(init) + {cs[|cs| - 1].path} by {
        forall x | x in Paths(cs) ensures x in Paths(init) + {cs[|cs| - 1].path} {
          var i :| 0 <= i < |cs| && cs[i].path == x;
          if i < |cs| - 1 {
            assert init[i].path == x;
          }
        }
        forall x | x in Paths(init) ensures x in Paths(cs) {
          var i :| 0 <= i < |init| && init[i].path == x;
          assert cs[i].path == x;
        }
      }
    } else {
      assert Paths(cs) == {};
    }
  }
}
