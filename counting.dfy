/** The `file_types` counters of both analyzers: a Python dict that maps a
    key (a language or a file extension) to how often it was seen, filled by
    `d[k] = d.get(k, 0) + 1` in a loop and later read in insertion order. The
    dict is modelled as a sequence of entries in insertion order. */
module Counting {
  import opened Text

  /** One entry `key: n` of the counter. */
  datatype Entry = Entry(key: string, n: nat)

  function Keys(t: seq<Entry>): seq<string> {
    seq(|t|, i requires 0 <= i < |t| => t[i].key)
  }

  /** `t.get(k, 0)`. */
  function CountOf(t: seq<Entry>, k: string): nat {
    if t == [] then 0 else if t[0].key == k then t[0].n else CountOf(t[1..], k)
  }

  /** The sum of all counts. */
  function Total(t: seq<Entry>): nat {
    if t == [] then 0 else t[0].n + Total(t[1..])
  }

  /** `t[k] = t.get(k, 0) + 1`: an existing key keeps its place, a new key is
      appended. */
  function Bump(t: seq<Entry>, k: string): seq<Entry> {
    if t == [] then [Entry(k, 1)]
    else if t[0].key == k then [Entry(k, t[0].n + 1)] + t[1..]
    else [t[0]] + Bump(t[1..], k)
  }

  /** The counter after counting every element of `ks`, in order. */
  function TallyOf(ks: seq<string>): seq<Entry>
    decreases |ks|
  {
    if ks == [] then [] else Bump(TallyOf(ks[..|ks| - 1]), ks[|ks| - 1])
  }

  /** The counting loop: `for k in ks: t[k] = t.get(k, 0) + 1`. */
  method Tally(ks: seq<string>) returns (t: seq<Entry>)
    ensures t == TallyOf(ks)
  {
    t := [];
    for i := 0 to |ks|
      invariant t == TallyOf(ks[..i])
    {
      assert ks[..i + 1][..i] == ks[..i];
      t := Bump(t, ks[i]);
    }
    assert ks[..|ks|] == ks;
  }

  /** `", ".join(f"{count} {key}" for key, count in t.items())`. */
  function Describe(t: seq<Entry>): string {
    Join(", ", seq(|t|, i requires 0 <= i < |t| => NatToString(t[i].n) + " " + t[i].key))
  }

  /* ----------------------------------------------------------------------
     Reference definitions
     ---------------------------------------------------------------------- */

  /** The distinct elements of `ks`, in order of first appearance. */
  function FirstOccurrences(ks: seq<string>): seq<string>
    decreases |ks|
  {
    if ks == [] then []
    else
      var d := FirstOccurrences(ks[..|ks| - 1]);
      if ks[|ks| - 1] in d then d else d + [ks[|ks| - 1]]
  }

  predicate Distinct(s: seq<string>) {
    forall i, j :: 0 <= i < j < |s| ==> s[i] != s[j]
  }

  /** `ks` holds at least two different values. */
  predicate Several(ks: seq<string>) {
    exists i, j :: 0 <= i < |ks| && 0 <= j < |ks| && ks[i] != ks[j]
  }

  /* ----------------------------------------------------------------------
     Lemmas
     ---------------------------------------------------------------------- */

  lemma {:induction false} BumpKeys(t: seq<Entry>, k: string)
    ensures Keys(Bump(t, k)) == if k in Keys(t) then Keys(t) else Keys(t) + [k]
    decreases |t|
  {
    if t != [] && t[0].key != k {
      BumpKeys(t[1..], k);
      assert Keys(t) == [t[0].key] + Keys(t[1..]);
      assert Keys(Bump(t, k)) == [t[0].key] + Keys(Bump(t[1..], k));
    } else if t != [] {
      assert Keys(t)[0] == k;
      assert Keys(Bump(t, k)) == Keys(t);
    }
  }

  lemma {:induction false} BumpCount(t: seq<Entry>, k: string, x: string)
    ensures CountOf(Bump(t, k), x) == CountOf(t, x) + (if x == k then 1 else 0)
    decreases |t|
  {
    if t != [] && t[0].key != k {
      BumpCount(t[1..], k, x);
      assert Bump(t, k)[1..] == Bump(t[1..], k);
    } else if t != [] {
      assert Bump(t, k)[1..] == t[1..];
    }
  }

  lemma {:induction false} BumpTotal(t: seq<Entry>, k: string)
    ensures Total(Bump(t, k)) == Total(t) + 1
    decreases |t|
  {
    if t != [] && t[0].key != k {
      BumpTotal(t[1..], k);
      assert Bump(t, k)[1..] == Bump(t[1..], k);
    } else if t != [] {
      assert Bump(t, k)[1..] == t[1..];
    }
  }

  lemma TallyAppend(ks: seq<string>, k: string)
    ensures TallyOf(ks + [k]) == Bump(TallyOf(ks), k)
  {
    assert (ks + [k])[..|ks|] == ks;
  }

  /** The counter's keys are the distinct inputs in first-appearance order,
      which is the order Python's dict iterates them in. */
  lemma {:induction false} TallyKeys(ks: seq<string>)
    ensures Keys(TallyOf(ks)) == FirstOccurrences(ks)
    decreases |ks|
  {
    if ks != [] {
      TallyKeys(ks[..|ks| - 1]);
      BumpKeys(TallyOf(ks[..|ks| - 1]), ks[|ks| - 1]);
    }
  }

  /** Every count is the number of times its key occurs in the input. */
  lemma {:induction false} TallyCounts(ks: seq<string>, x: string)
    ensures CountOf(TallyOf(ks), x) == multiset(ks)[x]
    decreases |ks|
  {
    if ks != [] {
      var init := ks[..|ks| - 1];
      TallyCounts(init, x);
      BumpCount(TallyOf(init), ks[|ks| - 1], x);
      assert ks == init + [ks[|ks| - 1]];
      assert multiset(ks) == multiset(init) + multiset{ks[|ks| - 1]};
    }
  }

  /** The counts add up to the number of inputs. */
  lemma {:induction false} TallyTotal(ks: seq<string>)
    ensures Total(TallyOf(ks)) == |ks|
    decreases |ks|
  {
    if ks != [] {
      TallyTotal(ks[..|ks| - 1]);
      BumpTotal(TallyOf(ks[..|ks| - 1]), ks[|ks| - 1]);
    }
  }

  /** First occurrences are duplicate-free and hold exactly the inputs. */
  lemma {:induction false} FirstOccurrencesFacts(ks: seq<string>)
    ensures Distinct(FirstOccurrences(ks))
    ensures forall x :: x in FirstOccurrences(ks) <==> x in ks
    decreases |ks|
  {
    if ks != [] {
      var init := ks[..|ks| - 1];
      FirstOccurrencesFacts(init);
      assert ks == init + [ks[|ks| - 1]];
    }
  }

  /** The counter has more than one entry exactly when the input holds two
      different values. */
  lemma TallySeveral(ks: seq<string>)
    ensures |TallyOf(ks)| > 1 <==> Several(ks)
  {
    TallyKeys(ks);
    FirstOccurrencesFacts(ks);
    var d := FirstOccurrences(ks);
    assert |Keys(TallyOf(ks))| == |TallyOf(ks)|;
    if |d| > 1 {
      assert d[0] in ks && d[1] in ks && d[0] != d[1];
      var i :| 0 <= i < |ks| && ks[i] == d[0];
      var j :| 0 <= j < |ks| && ks[j] == d[1];
      assert ks[i] != ks[j];
    }
    if Several(ks) {
      var i, j :| 0 <= i < |ks| && 0 <= j < |ks| && ks[i] != ks[j];
      assert ks[i] in d && ks[j] in d;
    }
  }
}
