/**
 * The string operations the sanitisers, the save step and the upload
 * client are built from: trimming with a given whitespace class,
 * filtering, single-character replacement, searching and suffix tests.
 * Strings are sequences of Unicode scalar values, which is what Python
 * `str` indexes and, for the ASCII results the JavaScript code keeps,
 * what its UTF-16 indices count as well.
 */
module Text {

  /** Every character of `s` satisfies `p`. */
  ghost predicate All(s: string, p: char -> bool) {
    forall i :: 0 <= i < |s| ==> p(s[i])
  }

  /** The characters Python's `str.isspace()` accepts; `str.strip()` without arguments removes these. */
  predicate IsPySpace(c: char) {
    || ('\t' <= c <= '\r')
    || ('\U{1C}' <= c <= '\U{1F}')
    || c == ' ' || c == '\U{85}' || c == '\U{A0}' || c == '\U{1680}'
    || ('\U{2000}' <= c <= '\U{200A}')
    || c == '\U{2028}' || c == '\U{2029}' || c == '\U{202F}' || c == '\U{205F}' || c == '\U{3000}'
  }

  /** WhiteSpace and LineTerminator of ECMAScript, which `String.prototype.trim` removes. */
  predicate IsJsSpace(c: char) {
    || c == '\t' || c == '\n' || c == '\U{B}' || c == '\U{C}' || c == '\r'
    || c == ' ' || c == '\U{A0}' || c == '\U{1680}'
    || ('\U{2000}' <= c <= '\U{200A}')
    || c == '\U{2028}' || c == '\U{2029}' || c == '\U{202F}' || c == '\U{205F}' || c == '\U{3000}'
    || c == '\U{FEFF}'
  }

  predicate IsQuote(c: char) {
    c == '"' || c == '\''
  }

  predicate NotQuote(c: char) {
    !IsQuote(c)
  }

  /** Number of leading characters of `s` in the class `ws`. */
  function LeadingCount(s: string, ws: char -> bool): (n: nat)
    ensures n <= |s|
    ensures All(s[..n], ws)
    ensures n < |s| ==> !ws(s[n])
    decreases |s|
  {
    if |s| > 0 && ws(s[0]) then 1 + LeadingCount(s[1..], ws) else 0
  }

  /** Number of trailing characters of `s` in the class `ws`. */
  function TrailingCount(s: string, ws: char -> bool): (n: nat)
    ensures n <= |s|
    ensures All(s[|s| - n..], ws)
    ensures n < |s| ==> !ws(s[|s| - n - 1])
    decreases |s|
  {
    if |s| > 0 && ws(s[|s| - 1]) then 1 + TrailingCount(s[..|s| - 1], ws) else 0
  }

  /** Python's `str.strip()` when `ws` is `IsPySpace`, JavaScript's `trim()` when it is `IsJsSpace`. */
  function Trim(s: string, ws: char -> bool): (r: string)
    ensures |r| <= |s|
    ensures |r| > 0 ==> !ws(r[0]) && !ws(r[|r| - 1])
    ensures All(s, ws) ==> r == []
    ensures |s| == 0 || (!ws(s[0]) && !ws(s[|s| - 1])) ==> r == s
  {
    TrimEnd(TrimStart(s, ws), ws)
  }

  function TrimStart(s: string, ws: char -> bool): string {
    s[LeadingCount(s, ws)..]
  }

  function TrimEnd(s: string, ws: char -> bool): string {
    s[..|s| - TrailingCount(s, ws)]
  }

  /** The characters of `s` that satisfy `keep`, in their original order. */
  function Filter(s: string, keep: char -> bool): (r: string)
    ensures |r| <= |s|
    ensures All(r, keep)
    ensures All(s, keep) ==> r == s
    decreases |s|
  {
    if s == [] then []
    else
      assert s == [s[0]] + s[1..];
      (if keep(s[0]) then [s[0]] else []) + Filter(s[1..], keep)
  }

  /** Python `s.replace(a, b)` and JavaScript `s.replace(/a/g, b)` for single characters. */
  function Replace(s: string, from: char, to: char): (r: string)
    ensures |r| == |s|
    ensures forall i :: 0 <= i < |s| ==> r[i] == (if s[i] == from then to else s[i])
    decreases |s|
  {
    if s == [] then [] else [if s[0] == from then to else s[0]] + Replace(s[1..], from, to)
  }

  /** `t` occurs in `s` starting at index `i`. */
  ghost predicate OccursAt(s: string, t: string, i: int) {
    0 <= i <= |s| - |t| && s[i..i + |t|] == t
  }

  /** JavaScript `s.includes(t)`. */
  function Contains(s: string, t: string): (r: bool)
    ensures r <==> exists i :: OccursAt(s, t, i)
    decreases |s|
  {
    if |t| > |s| then false
    else if s[..|t|] == t then
      assert OccursAt(s, t, 0);
      true
    else
      assert forall i :: OccursAt(s, t, i) ==> i >= 1 && OccursAt(s[1..], t, i - 1);
      assert forall i :: OccursAt(s[1..], t, i) ==> OccursAt(s, t, i + 1);
      Contains(s[1..], t)
  }

  predicate EndsWith(s: string, suffix: string) {
    |suffix| <= |s| && s[|s| - |suffix|..] == suffix
  }

  /** ASCII case folding; enough for matching the ASCII file extensions the save steps test. */
  function LowerAscii(c: char): char {
    if 'A' <= c <= 'Z' then (c as int + 32) as char else c
  }

  function Lower(s: string): (r: string)
    ensures |r| == |s|
    ensures forall i :: 0 <= i < |s| ==> r[i] == LowerAscii(s[i])
    decreases |s|
  {
    if s == [] then [] else [LowerAscii(s[0])] + Lower(s[1..])
  }

  /** Index of the last character satisfying `p`, or -1 (Python `rfind` on a character class). */
  function LastIndex(s: string, p: char -> bool): (k: int)
    ensures -1 <= k < |s|
    ensures k >= 0 ==> p(s[k])
    ensures forall i :: k < i < |s| ==> !p(s[i])
  {
    LastIndexBelow(s, p, |s|)
  }

  /** Index of the last character before `n` satisfying `p`, or -1. */
  function LastIndexBelow(s: string, p: char -> bool, n: nat): (k: int)
    requires n <= |s|
    ensures -1 <= k < n
    ensures k >= 0 ==> p(s[k])
    ensures forall i :: k < i < n ==> !p(s[i])
    decreases n
  {
    if n == 0 then -1
    else if p(s[n - 1]) then n - 1
    else LastIndexBelow(s, p, n - 1)
  }

  // ---------------------------------------------------------------------
  // Lemmas

  lemma {:induction false} AllAppend(x: string, y: string, p: char -> bool)
    requires All(x, p) && All(y, p)
    ensures All(x + y, p)
  {
  }

  lemma {:induction false} AllWeaken(s: string, p: char -> bool, q: char -> bool)
    requires All(s, p) && forall c :: p(c) ==> q(c)
    ensures All(s, q)
  {
  }

  lemma {:induction false} LeadingSkips(w: string, y: string, ws: char -> bool)
    requires All(w, ws)
    ensures LeadingCount(w + y, ws) == |w| + LeadingCount(y, ws)
    decreases |w|
  {
    if |w| == 0 {
      assert w + y == y;
    } else {
      assert (w + y)[0] == w[0];
      assert (w + y)[1..] == w[1..] + y;
      LeadingSkips(w[1..], y, ws);
    }
  }

  lemma {:induction false} LeadingAppend(y: string, z: string, ws: char -> bool)
    ensures LeadingCount(y + z, ws) == if LeadingCount(y, ws) == |y| then |y| + LeadingCount(z, ws) else LeadingCount(y, ws)
    decreases |y|
  {
    if |y| == 0 {
      assert y + z == z;
    } else if ws(y[0]) {
      assert (y + z)[0] == y[0];
      assert (y + z)[1..] == y[1..] + z;
      LeadingAppend(y[1..], z, ws);
    } else {
      assert (y + z)[0] == y[0];
    }
  }

  lemma {:induction false} TrailingSkips(y: string, w: string, ws: char -> bool)
    requires All(w, ws)
    ensures TrailingCount(y + w, ws) == |w| + TrailingCount(y, ws)
    decreases |w|
  {
    if |w| == 0 {
      assert y + w == y;
    } else {
      var w' := w[..|w| - 1];
      assert (y + w)[|y + w| - 1] == w[|w| - 1];
      assert (y + w)[..|y + w| - 1] == y + w';
      TrailingSkips(y, w', ws);
    }
  }

  lemma {:induction false} TrimStartSkips(w: string, z: string, ws: char -> bool)
    requires All(w, ws)
    ensures TrimStart(w + z, ws) == TrimStart(z, ws)
  {
    LeadingSkips(w, z, ws);
    assert (w + z)[|w| + LeadingCount(z, ws)..] == z[LeadingCount(z, ws)..];
  }

  lemma {:induction false} TrimEndSkips(z: string, w: string, ws: char -> bool)
    requires All(w, ws)
    ensures TrimEnd(z + w, ws) == TrimEnd(z, ws)
  {
    TrailingSkips(z, w, ws);
    assert (z + w)[..|z| - TrailingCount(z, ws)] == z[..|z| - TrailingCount(z, ws)];
  }

  lemma {:induction false} TrimTrailingPadding(y: string, w: string, ws: char -> bool)
    requires All(w, ws)
    ensures Trim(y + w, ws) == Trim(y, ws)
  {
    LeadingAppend(y, w, ws);
    var n := LeadingCount(y, ws);
    if n == |y| {
      LeadingSkips(w, [], ws);
      assert w + [] == w;
      assert TrimStart(y + w, ws) == [];
      assert TrimStart(y, ws) == [];
    } else {
      assert TrimStart(y + w, ws) == y[n..] + w;
      TrimEndSkips(y[n..], w, ws);
    }
  }

  /** Characters of the trimmed class around a text never reach the trimmed result. */
  lemma {:induction false} TrimIgnoresPadding(w: string, y: string, w': string, ws: char -> bool)
    requires All(w, ws) && All(w', ws)
    ensures Trim(w + y + w', ws) == Trim(y, ws)
  {
    var z := y + w';
    assert w + y + w' == w + z;
    TrimStartSkips(w, z, ws);
    assert Trim(w + z, ws) == TrimEnd(TrimStart(z, ws), ws);
    TrimTrailingPadding(y, w', ws);
  }

  /** Cutting a string into a prefix, a middle and a suffix of given lengths loses nothing. */
  lemma {:induction false} SplitThree(s: string, n: nat, m: nat) returns (a: string, b: string)
    requires n <= |s| && m <= |s| - n
    ensures a == s[..n] && b == s[n..][|s| - n - m..]
    ensures s == a + s[n..][..|s| - n - m] + b
  {
    var t := s[n..];
    a := s[..n];
    b := t[|t| - m..];
    assert t == t[..|t| - m] + b;
    assert s == a + t;
  }

  /** Every string is its trimmed part with characters of the trimmed class on both sides. */
  lemma {:induction false} TrimSplit(s: string, ws: char -> bool)
    returns (a: string, b: string)
    ensures s == a + Trim(s, ws) + b
    ensures All(a, ws) && All(b, ws)
  {
    var t := TrimStart(s, ws);
    var n := |s| - |t|;
    assert t == s[n..];
    var m := |t| - |Trim(s, ws)|;
    a, b := SplitThree(s, n, m);
  }

  /** Trimming a trimmed text changes nothing. */
  lemma {:induction false} TrimIsStable(s: string, ws: char -> bool)
    ensures Trim(Trim(s, ws), ws) == Trim(s, ws)
  {
  }

  lemma {:induction false} FilterAppend(x: string, y: string, keep: char -> bool)
    ensures Filter(x + y, keep) == Filter(x, keep) + Filter(y, keep)
    decreases |x|
  {
    if x == [] {
      assert x + y == y;
    } else {
      var head := if keep(x[0]) then [x[0]] else [];
      assert (x + y)[0] == x[0];
      assert (x + y)[1..] == x[1..] + y;
      assert Filter(x + y, keep) == head + Filter(x[1..] + y, keep);
      FilterAppend(x[1..], y, keep);
      assert Filter(x, keep) == head + Filter(x[1..], keep);
      assert head + (Filter(x[1..], keep) + Filter(y, keep)) == (head + Filter(x[1..], keep)) + Filter(y, keep);
    }
  }

  /** Filtering keeps exactly the characters of `s` that satisfy `keep`. */
  lemma {:induction false} FilterMembers(s: string, keep: char -> bool)
    ensures forall c :: c in Filter(s, keep) <==> c in s && keep(c)
    decreases |s|
  {
    if s != [] {
      assert s == [s[0]] + s[1..];
      FilterMembers(s[1..], keep);
    }
  }

  /** ... and keeps every occurrence of them. */
  lemma {:induction false} FilterCounts(s: string, keep: char -> bool)
    ensures forall c :: keep(c) ==> multiset(Filter(s, keep))[c] == multiset(s)[c]
    decreases |s|
  {
    if s != [] {
      assert s == [s[0]] + s[1..];
      FilterCounts(s[1..], keep);
      assert multiset(s) == multiset([s[0]]) + multiset(s[1..]);
    }
  }

  lemma {:induction false} ReplaceAppend(x: string, y: string, from: char, to: char)
    ensures Replace(x + y, from, to) == Replace(x, from, to) + Replace(y, from, to)
  {
    var l := Replace(x + y, from, to);
    var r := Replace(x, from, to) + Replace(y, from, to);
    assert |l| == |r|;
    forall i | 0 <= i < |l|
      ensures l[i] == r[i]
    {
      if i < |x| {
        assert (x + y)[i] == x[i];
      } else {
        assert (x + y)[i] == y[i - |x|];
      }
    }
  }

  lemma {:induction false} ReplaceAbsent(s: string, from: char, to: char)
    requires from !in s
    ensures Replace(s, from, to) == s
  {
  }
}
