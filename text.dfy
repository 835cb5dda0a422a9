/** The Python string operations the hook relies on, stated over `string`
    (a sequence of Unicode scalar values, as a Python `str` is). Each function
    models one built-in: `str.split` with a one-character separator,
    `str.join`, `str.strip`, `str.startswith`, `in`, `str.find`,
    `str.split(sep)[1]`, `str.replace`, `str(n)` for a natural number,
    `os.path.basename`, `os.path.splitext` and the order `<` on `str`. */
module Text {
  import opened Wrappers

  /* ----------------------------------------------------------------------
     Prefixes and occurrences
     ---------------------------------------------------------------------- */

  /** Python's `s.startswith(p)`. */
  predicate StartsWith(s: string, p: string) {
    |p| <= |s| && s[..|p|] == p
  }

  /** `p` occurs in `s` starting at index `i`. */
  predicate OccursAt(s: string, p: string, i: int) {
    0 <= i && i + |p| <= |s| && s[i..i + |p|] == p
  }

  /** Python's `p in s`. */
  predicate Contains(s: string, p: string) {
    exists i :: 0 <= i <= |s| - |p| && OccursAt(s, p, i)
  }

  /** `p` cannot occur where its last character never appears late enough. */
  lemma AbsentByLastChar(s: string, p: string)
    requires |p| > 0 && |p| - 1 <= |s| && p[|p| - 1] !in s[|p| - 1..]
    ensures !Contains(s, p)
  {
    forall i | 0 <= i <= |s| - |p| ensures !OccursAt(s, p, i) {
      assert s[i..i + |p|][|p| - 1] == s[|p| - 1..][i];
    }
  }

  /** Python's `s.find(p)`: the first index at which `p` occurs, if any. */
  function Find(s: string, p: string): (r: Option<nat>)
    ensures r.Some? ==> OccursAt(s, p, r.value)
    ensures r.Some? ==> forall j :: 0 <= j < r.value ==> !OccursAt(s, p, j)
    ensures r.None? <==> !Contains(s, p)
    decreases |s|
  {
    if |s| < |p| then None
    else if s[..|p|] == p then Some(0)
    else
      var tail := Find(s[1..], p);
      OccursShiftAll(s, p);
      assert !OccursAt(s, p, 0);
      if tail.None? then None else Some(tail.value + 1)
  }

  /** An occurrence in `s[k..]` is an occurrence in `s`, `k` places on. */
  lemma OccursShift(s: string, p: string, k: nat, i: int)
    requires k <= |s|
    ensures OccursAt(s[k..], p, i) <==> 0 <= i && OccursAt(s, p, i + k)
  {
    if 0 <= i && i + k + |p| <= |s| {
      assert s[k..][i..i + |p|] == s[i + k..i + k + |p|];
    }
  }

  lemma OccursShiftAll(s: string, p: string)
    requires |s| > 0
    ensures forall j :: OccursAt(s[1..], p, j) ==> OccursAt(s, p, j + 1)
    ensures forall j :: 1 <= j && OccursAt(s, p, j) ==> OccursAt(s[1..], p, j - 1)
  {
    forall j ensures OccursAt(s[1..], p, j) ==> OccursAt(s, p, j + 1) {
      OccursShift(s, p, 1, j);
    }
    forall j | 1 <= j ensures OccursAt(s, p, j) ==> OccursAt(s[1..], p, j - 1) {
      OccursShift(s, p, 1, j - 1);
    }
  }

  /** A prefix of `s` that ends before the first occurrence of `p` holds
      none. */
  lemma NoOccurrenceBefore(s: string, p: string, j: nat)
    requires |p| > 0 && j <= |s|
    requires forall k :: 0 <= k < j ==> !OccursAt(s, p, k)
    ensures !Contains(s[..j], p)
  {
    forall k | 0 <= k <= j - |p| ensures !OccursAt(s[..j], p, k) {
      assert s[..j][k..k + |p|] == s[k..k + |p|];
      assert !OccursAt(s, p, k);
    }
  }

  /** An occurrence of `p` in `a + b` that starts inside `a` and reaches into
      `b` contains the last character of `p` inside `b`; so if `a` has no
      occurrence and that character is not in `b`, neither has `a + b`'s
      first part beyond `b`'s own occurrences. */
  lemma {:induction false} NoOccurrenceAcross(a: string, b: string, p: string)
    requires |p| > 0 && !Contains(a, p) && !Contains(b, p)
    requires p[|p| - 1] !in b
    ensures !Contains(a + b, p)
  {
    forall i | 0 <= i <= |a + b| - |p| ensures !OccursAt(a + b, p, i) {
      if i + |p| <= |a| {
        assert (a + b)[i..i + |p|] == a[i..i + |p|];
        assert !OccursAt(a, p, i);
      } else if i >= |a| {
        assert (a + b)[i..i + |p|] == b[i - |a|..i - |a| + |p|];
        assert !OccursAt(b, p, i - |a|);
      } else {
        assert (a + b)[i + |p| - 1] == b[i + |p| - 1 - |a|];
      }
    }
  }

  /* ----------------------------------------------------------------------
     split / join
     ---------------------------------------------------------------------- */

  /** Python's `sep.join(parts)`. */
  function Join(sep: string, parts: seq<string>): string
    decreases |parts|
  {
    if |parts| == 0 then ""
    else if |parts| == 1 then parts[0]
    else parts[0] + sep + Join(sep, parts[1..])
  }

  /** Python's `s.split(c)` for a one-character separator: the pieces of `s`
      between the occurrences of `c`; never empty (`"".split(c) == [""]`). */
  function Split(s: string, c: char): (r: seq<string>)
    ensures |r| >= 1
    ensures forall i :: 0 <= i < |r| ==> c !in r[i]
    decreases |s|
  {
    if |s| == 0 then [""]
    else if s[0] == c then [""] + Split(s[1..], c)
    else
      var rest := Split(s[1..], c);
      [[s[0]] + rest[0]] + rest[1..]
  }

  lemma JoinConsHead(sep: string, x: string, parts: seq<string>)
    requires |parts| >= 1
    ensures Join(sep, [x + parts[0]] + parts[1..]) == x + Join(sep, parts)
  {
    var q := [x + parts[0]] + parts[1..];
    if |parts| > 1 {
      assert q[1..] == parts[1..];
    }
  }

  /** Splitting on `c` and joining the pieces with `c` gives back the text. */
  lemma {:induction false} SplitJoin(s: string, c: char)
    ensures Join([c], Split(s, c)) == s
    decreases |s|
  {
    if |s| > 0 {
      var rest := Split(s[1..], c);
      SplitJoin(s[1..], c);
      if s[0] == c {
        var r := [""] + rest;
        assert r[1..] == rest;
        assert Join([c], r) == "" + [c] + Join([c], rest);
        assert s == [c] + s[1..];
      } else {
        JoinConsHead([c], [s[0]], rest);
        assert s == [s[0]] + s[1..];
      }
    }
  }

  lemma {:induction false} SplitAfterPiece(x: string, rest: string, c: char)
    requires c !in x
    ensures Split(x + [c] + rest, c) == [x] + Split(rest, c)
    decreases |x|
  {
    if |x| == 0 {
      assert x + [c] + rest == [c] + rest;
      assert ([c] + rest)[1..] == rest;
    } else {
      var s := x + [c] + rest;
      assert s[1..] == x[1..] + [c] + rest;
      SplitAfterPiece(x[1..], rest, c);
      assert [x[0]] + x[1..] == x;
    }
  }

  lemma {:induction false} SplitWithout(x: string, c: char)
    requires c !in x
    ensures Split(x, c) == [x]
    decreases |x|
  {
    if |x| > 0 {
      SplitWithout(x[1..], c);
      assert [x[0]] + x[1..] == x;
    }
  }

  /** Joining pieces that do not contain `c` with `c` and splitting again on
      `c` gives back the pieces. */
  lemma {:induction false} SplitOfJoin(parts: seq<string>, c: char)
    requires |parts| >= 1
    requires forall i :: 0 <= i < |parts| ==> c !in parts[i]
    ensures Split(Join([c], parts), c) == parts
    decreases |parts|
  {
    if |parts| == 1 {
      SplitWithout(parts[0], c);
    } else {
      SplitOfJoin(parts[1..], c);
      SplitAfterPiece(parts[0], Join([c], parts[1..]), c);
      assert parts == [parts[0]] + parts[1..];
    }
  }

  /** The piece before the first `c` (Python's `s.split(c)[0]`) is a prefix of
      `s` that stops at the first `c`. */
  lemma {:induction false} SplitHead(s: string, c: char)
    ensures StartsWith(s, Split(s, c)[0])
    ensures |Split(s, c)[0]| < |s| ==> s[|Split(s, c)[0]|] == c
    decreases |s|
  {
    if |s| > 0 && s[0] != c {
      SplitHead(s[1..], c);
    }
  }

  /** Python's `s.split(sep)[1]` for a non-empty separator: the text between
      the first and the second occurrence of `sep` (or the end of `s`); None
      where Python raises IndexError because `sep` does not occur. */
  function SecondField(s: string, sep: string): (r: Option<string>)
    requires |sep| > 0
    ensures r.Some? <==> Contains(s, sep)
    ensures r.Some? ==> !Contains(r.value, sep)
    ensures r.Some? ==> exists i :: OccursAt(s, sep, i) && StartsWith(s[i + |sep|..], r.value)
    ensures r.Some? ==> FieldAt(s, sep, Find(s, sep).value, r.value)
  {
    match Find(s, sep)
    case None => None
    case Some(i) =>
      var rest := s[i + |sep|..];
      match Find(rest, sep)
      case None =>
        assert rest[..|rest|] == rest;
        Some(rest)
      case Some(j) =>
        NoOccurrenceBefore(rest, sep, j);
        FieldEnd(s, sep, i, j);
        Some(rest[..j])
  }

  /** `f` starts right after the occurrence of `sep` at `i` and runs to the
      next occurrence of `sep` or to the end of `s`. */
  predicate FieldAt(s: string, sep: string, i: nat, f: string) {
    i + |sep| <= |s| && StartsWith(s[i + |sep|..], f)
    && (i + |sep| + |f| == |s| || OccursAt(s, sep, i + |sep| + |f|))
  }

  /** A field that stops at an occurrence of `sep` in the rest of `s` stops
      at an occurrence in `s`. */
  lemma FieldEnd(s: string, sep: string, i: nat, j: nat)
    requires i + |sep| <= |s| && OccursAt(s[i + |sep|..], sep, j)
    ensures FieldAt(s, sep, i, s[i + |sep|..][..j])
  {
    var k := i + |sep|;
    assert s[k + j..k + j + |sep|] == s[k..][j..j + |sep|];
  }

  /* ----------------------------------------------------------------------
     replace
     ---------------------------------------------------------------------- */

  /** Python's `s.replace(p, rep)` for a non-empty pattern: scan left to
      right, replacing each non-overlapping occurrence of `p`. */
  function ReplaceAll(s: string, p: string, rep: string): string
    requires |p| > 0
    decreases |s|
  {
    if |s| < |p| then s
    else if s[..|p|] == p then rep + ReplaceAll(s[|p|..], p, rep)
    else [s[0]] + ReplaceAll(s[1..], p, rep)
  }

  /** A text in which the pattern does not occur is left unchanged. */
  lemma {:induction false} ReplaceAbsent(s: string, p: string, rep: string)
    requires |p| > 0 && !Contains(s, p)
    ensures ReplaceAll(s, p, rep) == s
    decreases |s|
  {
    if |s| >= |p| {
      assert !OccursAt(s, p, 0);
      assert !Contains(s[1..], p) by {
        forall k | OccursAt(s[1..], p, k) ensures false {
          assert s[1..][k..k + |p|] == s[k + 1..k + 1 + |p|];
          assert OccursAt(s, p, k + 1);
        }
      }
      ReplaceAbsent(s[1..], p, rep);
      assert s == [s[0]] + s[1..];
    }
  }

  /** Characters in front of the first occurrence pass through unchanged. */
  lemma {:induction false} ReplaceSkipsPrefix(a: string, b: string, p: string, rep: string)
    requires |p| > 0
    requires forall i :: 0 <= i < |a| ==> !OccursAt(a + b, p, i)
    ensures ReplaceAll(a + b, p, rep) == a + ReplaceAll(b, p, rep)
    decreases |a|
  {
    if |a| > 0 {
      var s := a + b;
      var t := a[1..] + b;
      assert s[1..] == t;
      assert !OccursAt(s, p, 0);
      if |s| < |p| {
        assert ReplaceAll(s, p, rep) == s;
        ReplaceAbsent(b, p, rep);
        assert ReplaceAll(b, p, rep) == b;
      } else {
        assert s[..|p|] != p;
        assert ReplaceAll(s, p, rep) == [s[0]] + ReplaceAll(t, p, rep);
        forall i | 0 <= i < |a[1..]| ensures !OccursAt(t, p, i) {
          if OccursAt(t, p, i) {
            assert s[i + 1..i + 1 + |p|] == t[i..i + |p|];
            assert OccursAt(s, p, i + 1);
          }
        }
        ReplaceSkipsPrefix(a[1..], b, p, rep);
        calc {
          ReplaceAll(a + b, p, rep);
          [s[0]] + ReplaceAll(t, p, rep);
          [a[0]] + (a[1..] + ReplaceAll(b, p, rep));
          ([a[0]] + a[1..]) + ReplaceAll(b, p, rep);
          { assert [a[0]] + a[1..] == a; }
          a + ReplaceAll(b, p, rep);
        }
      }
    } else {
      assert a + b == b;
    }
  }

  /* ----------------------------------------------------------------------
     strip
     ---------------------------------------------------------------------- */

  /** Python's `str.isspace` for one character: the ASCII whitespace and
      separator controls and the Unicode space separators. */
  predicate IsSpace(ch: char) {
    var c := ch as int;
    c == 32 || 9 <= c <= 13 || 28 <= c <= 31 || c == 0x85 || c == 0xA0 || c == 0x1680
    || 0x2000 <= c <= 0x200A || c == 0x2028 || c == 0x2029 || c == 0x202F || c == 0x205F
    || c == 0x3000
  }

  /** The number of whitespace characters `s` starts with. */
  function LeadingSpaces(s: string): (n: nat)
    ensures n <= |s|
    ensures forall k :: 0 <= k < n ==> IsSpace(s[k])
    ensures n < |s| ==> !IsSpace(s[n])
    decreases |s|
  {
    if |s| > 0 && IsSpace(s[0]) then LeadingSpaces(s[1..]) + 1 else 0
  }

  /** Where the whitespace `s` ends with begins. */
  function TrailingStart(s: string): (n: nat)
    ensures n <= |s|
    ensures forall k :: n <= k < |s| ==> IsSpace(s[k])
    ensures n > 0 ==> !IsSpace(s[n - 1])
    decreases |s|
  {
    if |s| > 0 && IsSpace(s[|s| - 1]) then TrailingStart(s[..|s| - 1]) else |s|
  }

  /** `r` is the part of `s` that starts at `i`, everything around it in `s`
      being whitespace. */
  predicate TrimmedAt(s: string, r: string, i: int) {
    && 0 <= i <= |s| - |r| && r == s[i..i + |r|]
    && (forall k :: 0 <= k < i ==> IsSpace(s[k]))
    && (forall k :: i + |r| <= k < |s| ==> IsSpace(s[k]))
  }

  /** Python's `s.strip()`: `s` without its leading and trailing whitespace. */
  function Strip(s: string): (r: string)
    ensures r == [] || (!IsSpace(r[0]) && !IsSpace(r[|r| - 1]))
    ensures TrimmedAt(s, r, LeadingSpaces(s))
  {
    var i := LeadingSpaces(s);
    var j := TrailingStart(s);
    if j <= i then [] else s[i..j]
  }

  /* ----------------------------------------------------------------------
     Decimal numbers
     ---------------------------------------------------------------------- */

  predicate IsDigit(ch: char) {
    '0' <= ch <= '9'
  }

  predicate AllDigits(s: string) {
    forall i :: 0 <= i < |s| ==> IsDigit(s[i])
  }

  function DigitChar(d: nat): (ch: char)
    requires d < 10
    ensures IsDigit(ch) && ch as int - '0' as int == d
  {
    (48 + d) as char
  }

  /** Python's `str(n)` (equally `f"{n}"`) for a natural number. */
  function NatToString(n: nat): (r: string)
    ensures |r| >= 1 && AllDigits(r)
    ensures |r| > 1 ==> r[0] != '0'
    decreases n
  {
    if n < 10 then [DigitChar(n)] else NatToString(n / 10) + [DigitChar(n % 10)]
  }

  /** Python's `int(s)` for a non-empty run of ASCII digits. */
  function DigitsValue(s: string): nat
    requires AllDigits(s)
    decreases |s|
  {
    if s == [] then 0
    else DigitsValue(s[..|s| - 1]) * 10 + (s[|s| - 1] as int - '0' as int)
  }

  /** `int(str(n)) == n`. */
  lemma {:induction false} NatToStringValue(n: nat)
    ensures DigitsValue(NatToString(n)) == n
    decreases n
  {
    var r := NatToString(n);
    if n >= 10 {
      NatToStringValue(n / 10);
      assert r[..|r| - 1] == NatToString(n / 10);
    }
  }

  /** Length of the longest prefix of `s` made of ASCII digits. */
  function DigitSpan(s: string): (k: nat)
    ensures k <= |s| && AllDigits(s[..k])
    ensures k < |s| ==> !IsDigit(s[k])
    decreases |s|
  {
    if |s| > 0 && IsDigit(s[0]) then
      var k := DigitSpan(s[1..]) + 1;
      assert s[..k] == [s[0]] + s[1..][..k - 1];
      k
    else 0
  }

  /** A digit run followed by a non-digit is read back exactly. */
  lemma {:induction false} DigitSpanOf(d: string, rest: string)
    requires AllDigits(d)
    requires rest == [] || !IsDigit(rest[0])
    ensures DigitSpan(d + rest) == |d|
    decreases |d|
  {
    if |d| > 0 {
      assert (d + rest)[1..] == d[1..] + rest;
      DigitSpanOf(d[1..], rest);
    }
  }

  /* ----------------------------------------------------------------------
     Paths
     ---------------------------------------------------------------------- */

  /** `os.path.basename(p)` on POSIX: the longest suffix of `p` without '/'. */
  function Basename(p: string): (r: string)
    ensures '/' !in r
    ensures |r| <= |p| && r == p[|p| - |r|..]
    ensures |r| < |p| ==> p[|p| - |r| - 1] == '/'
    decreases |p|
  {
    if p == [] || p[|p| - 1] == '/' then []
    else
      var t := Basename(p[..|p| - 1]);
      SuffixStep(p, t);
      t + [p[|p| - 1]]
  }

  lemma SuffixStep(p: string, t: string)
    requires |p| > 0 && |t| < |p| && t == p[..|p| - 1][|p| - 1 - |t|..]
    ensures t + [p[|p| - 1]] == p[|p| - |t| - 1..]
  {
    assert p[..|p| - 1][|p| - 1 - |t|..] == p[|p| - 1 - |t|..|p| - 1];
  }

  /** The base name of `dir/name` is `name`. */
  lemma {:induction false} BasenameOfJoined(dir: string, name: string)
    requires '/' !in name
    ensures Basename(dir + "/" + name) == name
    decreases |name|
  {
    var p := dir + "/" + name;
    if name != [] {
      var init := name[..|name| - 1];
      assert p[..|p| - 1] == dir + "/" + init;
      BasenameOfJoined(dir, init);
      assert init + [name[|name| - 1]] == name;
    }
  }

  /** When `s[d]` is the last '.' of `s`, `LastIndexOf` finds it. */
  lemma LastDotAt(s: string, d: nat)
    requires d < |s| && s[d] == '.' && '.' !in s[d + 1..]
    ensures LastIndexOf(s, '.') == Some(d)
  {
    var r := LastIndexOf(s, '.');
    assert s[d] in s;
    forall k | d < k < |s| ensures s[k] != '.' {
      assert s[k] == s[d + 1..][k - d - 1];
    }
    forall k | r.value < k < |s| ensures s[k] != '.' {
      assert s[k] == s[r.value + 1..][k - r.value - 1];
    }
  }

  /** With its last '.' at `d` after a non-dot first character, the
      extension of `dir/name` is `name[d..]`. */
  lemma ExtensionOfJoined(dir: string, name: string, d: nat)
    requires '/' !in name && d < |name| && name[d] == '.' && '.' !in name[d + 1..]
    requires 0 < d && name[0] != '.'
    ensures Extension(dir + "/" + name) == name[d..]
  {
    BasenameOfJoined(dir, name);
    LastDotAt(name, d);
    assert name[..d][0] == name[0];
  }

  /** A base name whose only '.' is its first character has no extension. */
  lemma ExtensionOfHidden(dir: string, name: string)
    requires '/' !in name && |name| > 0 && name[0] == '.' && '.' !in name[1..]
    ensures Extension(dir + "/" + name) == ""
  {
    BasenameOfJoined(dir, name);
    LastDotAt(name, 0);
    assert AllDots(name[..0]);
  }

  /** The last index of `c` in `s`, if any. */
  function LastIndexOf(s: string, c: char): (r: Option<nat>)
    ensures r.Some? ==> r.value < |s| && s[r.value] == c && c !in s[r.value + 1..]
    ensures r.None? ==> c !in s
    decreases |s|
  {
    if s == [] then None
    else if s[|s| - 1] == c then Some(|s| - 1)
    else
      var r := LastIndexOf(s[..|s| - 1], c);
      assert s == s[..|s| - 1] + [s[|s| - 1]];
      if r.Some? then
        assert s[r.value + 1..] == s[..|s| - 1][r.value + 1..] + [s[|s| - 1]];
        r
      else r
  }

  predicate AllDots(s: string) {
    forall k :: 0 <= k < |s| ==> s[k] == '.'
  }

  /** `os.path.splitext(p)[1]` on POSIX: from the last '.' of the final path
      component to the end, unless that component holds nothing but dots
      before it (so ".bashrc" and "..x" have no extension). */
  function Extension(p: string): (r: string)
    ensures |r| <= |p| && r == p[|p| - |r|..]
    ensures r == [] || (r[0] == '.' && '.' !in r[1..] && '/' !in r)
    ensures r != [] ==> exists k :: 0 <= k < |p| - |r| && p[k] !in "./"
  {
    var base := Basename(p);
    match LastIndexOf(base, '.')
    case None => ""
    case Some(d) =>
      if AllDots(base[..d]) then ""
      else
        ExtensionOfBase(p, base, d);
        base[d..]
  }

  /** The extension is exactly what `splitext` takes: it is non-empty if and
      only if some '.' of the final component has a non-dot character of
      that component before it, and then (by `Extension`'s contract) it runs
      from the last '.' to the end, with a non-dot character of the final
      component in front of it. */
  lemma ExtensionExact(p: string)
    ensures Extension(p) != [] <==> DotAfterNonDot(p, |p| - |Basename(p)|)
    ensures Extension(p) != [] ==>
              exists k :: |p| - |Basename(p)| <= k < |p| - |Extension(p)| && p[k] != '.'
  {
    var base := Basename(p);
    var r := Extension(p);
    var last := LastIndexOf(base, '.');
    if last.None? {
      assert r == [];
      NoDotInBase(p, base);
    } else if AllDots(base[..last.value]) {
      assert r == [];
      DotsBeforeLast(p, base, last.value);
    } else {
      assert r == base[last.value..];
      NonDotBefore(p, base, last.value, r);
    }
  }

  /** The non-dot character in front of the last '.' of the final component,
      and the pair it forms with that '.'. */
  lemma NonDotBefore(p: string, base: string, d: nat, r: string)
    requires |base| <= |p| && base == p[|p| - |base|..]
    requires d < |base| && base[d] == '.' && !AllDots(base[..d]) && r == base[d..]
    ensures exists k :: |p| - |base| <= k < |p| - |r| && p[k] != '.'
    ensures DotAfterNonDot(p, |p| - |base|)
  {
    var o := |p| - |base|;
    var k :| 0 <= k < d && base[..d][k] != '.';
    assert p[o + k] == base[k] != '.';
    assert p[o + d] == base[d];
  }

  /** Some '.' of `s` at or after `from` has a non-dot character before it
      that is also at or after `from`. */
  predicate DotAfterNonDot(s: string, from: nat) {
    exists d, k :: from <= k < d < |s| && s[k] != '.' && s[d] == '.'
  }

  /** A final component without '.' has no dot for an extension to start at. */
  lemma NoDotInBase(p: string, base: string)
    requires |base| <= |p| && base == p[|p| - |base|..] && '.' !in base
    ensures !DotAfterNonDot(p, |p| - |base|)
  {
    forall d | |p| - |base| <= d < |p| ensures p[d] != '.' {
      assert p[d] == base[d - (|p| - |base|)];
    }
  }

  /** When the final component is all dots before its last '.', every dot of
      it has only dots in front of it. */
  lemma DotsBeforeLast(p: string, base: string, d: nat)
    requires |base| <= |p| && base == p[|p| - |base|..]
    requires d < |base| && '.' !in base[d + 1..] && AllDots(base[..d])
    ensures !DotAfterNonDot(p, |p| - |base|)
  {
    var o := |p| - |base|;
    forall x | d < x < |base| ensures base[x] != '.' {
      assert base[x] == base[d + 1..][x - d - 1];
    }
    forall e, k | o <= k < e < |p| && p[e] == '.' ensures p[k] == '.' {
      assert p[e] == base[e - o];
      assert p[k] == base[k - o] == base[..d][k - o];
    }
  }

  lemma ExtensionOfBase(p: string, base: string, d: nat)
    requires |base| <= |p| && base == p[|p| - |base|..] && '/' !in base
    requires d < |base| && base[d] == '.' && '.' !in base[d + 1..]
    requires !AllDots(base[..d])
    ensures base[d..] == p[|p| - |base[d..]|..]
    ensures '.' !in base[d..][1..] && '/' !in base[d..]
    ensures exists k :: 0 <= k < |p| - |base[d..]| && p[k] !in "./"
  {
    var r := base[d..];
    assert p[|p| - |r|..] == p[|p| - |base|..][d..];
    assert r[1..] == base[d + 1..];
    assert forall x :: x in r ==> x in base;
    var k :| 0 <= k < d && base[k] != '.';
    assert p[|p| - |base| + k] == base[k];
    assert base[k] in base;
  }

  /** ASCII lower-casing of one character. */
  function LowerChar(ch: char): char {
    if 'A' <= ch <= 'Z' then (ch as int + 32) as char else ch
  }

  /** Python's `s.lower()` on ASCII letters. */
  function Lower(s: string): (r: string)
    ensures |r| == |s|
    ensures forall i :: 0 <= i < |s| ==> r[i] == LowerChar(s[i])
  {
    seq(|s|, i requires 0 <= i < |s| => LowerChar(s[i]))
  }

  /** Texts that agree up to letter case have '.' and '/' at the same
      places, so their extensions agree up to letter case too. */
  lemma LowerExtension(p: string, q: string)
    requires Lower(p) == Lower(q)
    ensures Lower(Extension(p)) == Lower(Extension(q))
  {
    LowerKeepsShape(p, q);
    SameShapeExtension(p, q);
    LowerSuffix(p, q, |Extension(p)|);
  }

  lemma LowerKeepsShape(p: string, q: string)
    requires Lower(p) == Lower(q)
    ensures SameShape(p, q)
  {
    forall i | 0 <= i < |p|
      ensures (p[i] == '.' <==> q[i] == '.') && (p[i] == '/' <==> q[i] == '/')
    {
      assert LowerChar(p[i]) == Lower(p)[i] == LowerChar(q[i]);
    }
  }

  /** Suffixes of equal length of texts equal up to case are equal up to
      case. */
  lemma LowerSuffix(p: string, q: string, n: nat)
    requires Lower(p) == Lower(q) && n <= |p|
    ensures Lower(p[|p| - n..]) == Lower(q[|q| - n..])
  {
    var sp, sq := p[|p| - n..], q[|q| - n..];
    forall m | 0 <= m < n ensures LowerChar(sp[m]) == LowerChar(sq[m]) {
      assert Lower(p)[|p| - n + m] == Lower(q)[|q| - n + m];
    }
  }

  /** `p` and `q` have '.' and '/' at the same places. */
  predicate SameShape(p: string, q: string) {
    |p| == |q|
    && forall i :: 0 <= i < |p| ==> (p[i] == '.' <==> q[i] == '.') && (p[i] == '/' <==> q[i] == '/')
  }

  /** Texts with '.' and '/' at the same places have extensions of the same
      length. */
  lemma SameShapeExtension(p: string, q: string)
    requires SameShape(p, q)
    ensures |Extension(p)| == |Extension(q)|
  {
    SameShapeBasename(p, q);
    SameShapeBasename(q, p);
    ExtensionExact(p);
    ExtensionExact(q);
    SameShapeDots(p, q, |p| - |Basename(p)|);
    if Extension(p) != [] {
      LastDotFirst(p, q);
      LastDotFirst(q, p);
    }
  }

  lemma SameShapeDots(p: string, q: string, o: nat)
    requires SameShape(p, q)
    ensures DotAfterNonDot(p, o) <==> DotAfterNonDot(q, o)
  {
    if DotAfterNonDot(p, o) {
      var d, k :| o <= k < d < |p| && p[k] != '.' && p[d] == '.';
      assert q[k] != '.' && q[d] == '.';
    }
    if DotAfterNonDot(q, o) {
      var d, k :| o <= k < d < |q| && q[k] != '.' && q[d] == '.';
      assert p[k] != '.' && p[d] == '.';
    }
  }

  /** A non-empty extension of `p` starts no later than that of a text with
      the same dots: `p` has no '.' after the first character of `q`'s. */
  lemma LastDotFirst(p: string, q: string)
    requires SameShape(p, q) && Extension(p) != [] && Extension(q) != []
    ensures |Extension(p)| >= |Extension(q)|
  {
    var eq := Extension(q);
    forall t | |q| - |eq| < t < |q| ensures p[t] != '.' {
      assert q[t] == eq[1..][t - (|q| - |eq|) - 1];
    }
  }

  /** Texts with '/' at the same places have base names of the same length
      (stated one way; the other follows by swapping). */
  lemma SameShapeBasename(p: string, q: string)
    requires SameShape(p, q)
    ensures |Basename(p)| >= |Basename(q)|
  {
    var bq := Basename(q);
    var o := |q| - |bq|;
    forall t | o <= t < |p| ensures p[t] != '/' {
      assert bq[t - o] in bq;
      assert q[t] == bq[t - o];
    }
    BasenameCovers(p, |bq|);
  }

  /** A final run of `n` characters without '/' lies inside the base name. */
  lemma BasenameCovers(p: string, n: nat)
    requires n <= |p| && forall t :: |p| - n <= t < |p| ==> p[t] != '/'
    ensures |Basename(p)| >= n
  {
  }

  /* ----------------------------------------------------------------------
     The order `<` on str
     ---------------------------------------------------------------------- */

  /** Python's `a < b` on `str`: lexicographic by code point, a proper prefix
      before its extensions. */
  predicate Below(a: string, b: string)
    decreases |a|
  {
    if |a| == 0 then |b| > 0
    else |b| > 0 && (a[0] < b[0] || (a[0] == b[0] && Below(a[1..], b[1..])))
  }

  lemma {:induction false} BelowIrreflexive(a: string)
    ensures !Below(a, a)
    decreases |a|
  {
    if |a| > 0 {
      BelowIrreflexive(a[1..]);
    }
  }

  lemma {:induction false} BelowTransitive(a: string, b: string, c: string)
    requires Below(a, b) && Below(b, c)
    ensures Below(a, c)
    decreases |a|
  {
    if |a| > 0 && a[0] == b[0] && b[0] == c[0] {
      BelowTransitive(a[1..], b[1..], c[1..]);
    }
  }

  lemma {:induction false} BelowTotal(a: string, b: string)
    ensures a == b || Below(a, b) || Below(b, a)
    decreases |a|
  {
    if |a| > 0 && |b| > 0 && a[0] == b[0] {
      BelowTotal(a[1..], b[1..]);
      if a[1..] == b[1..] {
        assert a == [a[0]] + a[1..] && b == [b[0]] + b[1..];
      }
    }
  }

  lemma {:induction false} BelowAsymmetric(a: string, b: string)
    ensures Below(a, b) ==> !Below(b, a)
    decreases |a|
  {
    if |a| > 0 && |b| > 0 && a[0] == b[0] {
      BelowAsymmetric(a[1..], b[1..]);
    }
  }
}
