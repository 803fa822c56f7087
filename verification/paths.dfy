/**
 * Removing the last extension from a filename, as the two upload clients
 * do to derive a document title: Python's `os.path.splitext(p)[0]` and
 * Node's `path.parse(p).name` (POSIX flavour). They agree on ordinary
 * names and differ on names made of leading dots.
 */
module Paths {
  import opened Text

  /** The operating system family, as Python's `os.name` reports it. */
  datatype Platform = Nt | Posix

  function PlatformOf(osName: string): Platform {
    if osName == "nt" then Nt else Posix
  }

  predicate IsDot(c: char) {
    c == '.'
  }

  predicate IsSlash(c: char) {
    c == '/'
  }

  predicate NotSlash(c: char) {
    c != '/'
  }

  /** Path separators of `posixpath` and of `ntpath` (which also accepts '/'). */
  predicate IsPosixSep(c: char) {
    c == '/'
  }

  predicate IsNtSep(c: char) {
    c == '\\' || c == '/'
  }

  function SepOf(platform: Platform): char -> bool {
    if platform == Nt then IsNtSep else IsPosixSep
  }

  /**
   * Some character of the last component of `p` (as `isSep` splits it)
   * before its last dot is not a dot; only then does that dot start an
   * extension. A name made of leading dots, like `.bashrc`, has none.
   */
  ghost predicate StemHasNonDot(p: string, isSep: char -> bool) {
    exists j :: LastIndex(p, isSep) < j < LastIndex(p, IsDot) && !IsDot(p[j])
  }

  /**
   * `os.path.splitext(p)[0]`: the last dot starts the extension when it
   * lies after the last separator and some character between that
   * separator and the dot is not a dot; otherwise there is no extension.
   */
  function SplitExtRoot(p: string, isSep: char -> bool): (root: string)
    ensures root <= p
    ensures root != p <==> StemHasNonDot(p, isSep)
    ensures root != p ==> |root| == LastIndex(p, IsDot)
    ensures root != p ==> p[|root|] == '.' && forall i :: |root| < i < |p| ==> !IsDot(p[i]) && !isSep(p[i])
  {
    var sepIndex := LastIndex(p, isSep);
    var dotIndex := LastIndex(p, IsDot);
    if dotIndex > sepIndex && LeadingCount(p[sepIndex + 1..dotIndex], IsDot) < dotIndex - sepIndex - 1 then
      var n := LeadingCount(p[sepIndex + 1..dotIndex], IsDot);
      assert p[sepIndex + 1 + n] == p[sepIndex + 1..dotIndex][n];
      p[..dotIndex]
    else
      NoStemNonDot(p, isSep);
      p
  }

  /** The Python title for a filename on the given platform. */
  function PyTitle(filename: string, platform: Platform): string {
    SplitExtRoot(filename, SepOf(platform))
  }

  /** The last component of `p` once trailing slashes are dropped; "" when nothing else is left. */
  function LastComponent(p: string): (base: string)
    ensures NoSlash(base)
    ensures |base| <= |p|
  {
    ComponentEndingAt(p, LastIndex(p, NotSlash) + 1)
  }

  /** The characters of `p` before `end` and after the last slash before `end`. */
  function ComponentEndingAt(p: string, end: nat): (c: string)
    requires end <= |p|
    ensures NoSlash(c)
  {
    p[LastIndex(p[..end], IsSlash) + 1..end]
  }

  /**
   * The base `path.posix.parse` takes, and the distance from the place
   * Node takes as the component start to that base. The distance is 1
   * only when the root slash is that place, as in `/..`.
   */
  function NodeBase(p: string): (r: (string, nat))
    ensures r.1 <= 1 && (r.1 == 1 ==> |p| > 0 && p[0] == '/')
  {
    if |p| == 0 then ("", 0)
    else
      var start0 := if p[0] == '/' then 1 else 0;
      var e := LastIndex(p[start0..], NotSlash);
      if e < 0 then ("", 0)
      else NodeBaseEndingAt(p, start0, start0 + e + 1)
  }

  /**
   * The base ending before `end`, scanning back no further than `start0`
   * (just after a root slash), and the distance from the place Node takes
   * as the component start: `startPart` stays 0 when no slash is found.
   */
  function NodeBaseEndingAt(p: string, start0: nat, end: nat): (r: (string, nat))
    requires start0 < end <= |p|
    ensures r.1 <= start0
  {
    var s := LastIndex(p[start0..end], IsSlash);
    var startPart := if s < 0 then 0 else start0 + s + 1;
    var start := if s < 0 then start0 else startPart;
    (p[start..end], start - startPart)
  }

  /** The base Node takes is the last component. */
  lemma {:induction false} NodeBaseIsLastComponent(p: string)
    ensures NodeBase(p).0 == LastComponent(p)
  {
    if |p| == 0 {
      EmptyPathHasNoComponent(p);
    } else {
      var start0 := if p[0] == '/' then 1 else 0;
      var e := LastIndex(p[start0..], NotSlash);
      NodeEndAgrees(p, start0);
      if e < 0 {
        NodeBaseNotFound(p, start0);
      } else {
        NodeBaseFoundIsLastComponent(p, start0, e);
      }
    }
  }

  /**
   * `path.posix.parse(p).name`: trailing slashes are ignored and the last
   * component is the base; `NameOfBase` then drops its extension. Node
   * cuts wherever Python does, and keeps a base whose only dot leads it.
   */
  function NodeParseName(p: string): (name: string)
    ensures name <= LastComponent(p)
    ensures name != LastComponent(p) ==>
              && |name| > 0
              && LastComponent(p)[|name|] == '.'
              && forall i :: |name| < i < |LastComponent(p)| ==> !IsDot(LastComponent(p)[i])
    ensures StemHasNonDot(LastComponent(p), IsSlash) ==> |name| == LastIndex(LastComponent(p), IsDot)
    ensures LastIndex(LastComponent(p), IsDot) <= 0 ==> name == LastComponent(p)
  {
    NodeBaseIsLastComponent(p);
    NameOfBase(NodeBase(p).0, NodeBase(p).1)
  }

  /**
   * The name of a base `b`: its last dot starts the extension unless that
   * dot is the base's first character, or the base is `..` beginning one
   * character after the place Node took as the component start. `offset`
   * is the distance from that place to the base; it is 1 only for a path
   * like `/..`, whose component start Node leaves at the root slash, so
   * there the name is `.`.
   */
  function NameOfBase(b: string, offset: nat): (name: string)
    ensures name <= b
    ensures name != b ==> |name| > 0 && b[|name|] == '.' && forall i :: |name| < i < |b| ==> !IsDot(b[i])
    ensures StemHasNonDot(b, IsSlash) ==> |name| == LastIndex(b, IsDot)
    ensures LastIndex(b, IsDot) <= 0 ==> name == b
  {
    var d := LastIndex(b, IsDot);
    if d <= 0 || (b[0] == '.' && d == |b| - 1 && offset + d == 1) then b else b[..d]
  }

  // ---------------------------------------------------------------------
  // Lemmas

  /** The last dot of `stem + "." + ext`, when `ext` has none, is the one added. */
  lemma {:induction false} LastDotOfExtension(stem: string, ext: string)
    requires forall i :: 0 <= i < |ext| ==> !IsDot(ext[i])
    ensures LastIndex(stem + "." + ext, IsDot) == |stem|
  {
    var p := stem + "." + ext;
    forall i | |stem| < i < |p| ensures !IsDot(p[i]) {
      assert p[i] == ext[i - |stem| - 1];
    }
    LastIndexMiss(p, IsDot, |stem|);
  }

  /** Appending a dot and a separator-free extension does not move the last separator. */
  lemma {:induction false} LastSepOfExtension(stem: string, ext: string, isSep: char -> bool)
    requires !isSep('.')
    requires forall i :: 0 <= i < |ext| ==> !isSep(ext[i])
    ensures LastIndex(stem + "." + ext, isSep) == LastIndex(stem, isSep)
  {
    var p := stem + "." + ext;
    var k := LastIndex(stem, isSep);
    if k >= 0 {
      assert p[k] == stem[k];
    }
    forall i | k < i < |p| ensures !isSep(p[i]) {
      if i < |stem| {
        assert p[i] == stem[i];
      } else if i > |stem| {
        assert p[i] == ext[i - |stem| - 1];
      }
    }
    LastIndexMiss(p, isSep, k);
  }

  /** `SplitExtRoot` cuts at the last dot when a non-dot character lies between it and the last separator. */
  lemma {:induction false} SplitExtRootCuts(p: string, isSep: char -> bool, j: int)
    requires LastIndex(p, isSep) < j < LastIndex(p, IsDot) && !IsDot(p[j])
    ensures SplitExtRoot(p, isSep) == p[..LastIndex(p, IsDot)]
  {
    assert StemHasNonDot(p, isSep);
  }

  /** A stem with a non-dot character after its last separator loses exactly the extension. */
  lemma {:induction false} SplitExtRootRemovesExtension(stem: string, ext: string, isSep: char -> bool)
    requires !isSep('.')
    requires forall i :: 0 <= i < |ext| ==> !IsDot(ext[i]) && !isSep(ext[i])
    requires exists i :: LastIndex(stem, isSep) < i < |stem| && !IsDot(stem[i])
    ensures SplitExtRoot(stem + "." + ext, isSep) == stem
  {
    var p := stem + "." + ext;
    var j :| LastIndex(stem, isSep) < j < |stem| && !IsDot(stem[j]);
    assert p[..|stem|] == stem;
    assert SplitExtRoot(p, isSep) == p[..|stem|] by {
      LastDotOfExtension(stem, ext);
      LastSepOfExtension(stem, ext, isSep);
      assert p[j] == stem[j];
      SplitExtRootCuts(p, isSep, j);
    }
  }

  /** For a name without any slash the base is the whole name. */
  lemma {:induction false} NodeNameWithoutSlash(p: string)
    requires |p| > 0 && NoSlash(p)
    ensures NodeParseName(p) == NameOfBase(p, 0)
  {
    LastIndexMiss(p, NotSlash, |p| - 1);
    assert p[..|p|] == p;
    LastIndexMiss(p, IsSlash, -1);
    assert LastComponent(p) == p;
    NodeBaseIsLastComponent(p);
  }

  ghost predicate NoSlash(p: string) {
    forall i :: 0 <= i < |p| ==> !IsSlash(p[i])
  }

  /** A base with a non-dot character before its last dot loses exactly the extension. */
  lemma {:induction false} NameOfBaseRemovesExtension(stem: string, ext: string)
    requires forall i :: 0 <= i < |ext| ==> !IsDot(ext[i])
    requires exists i :: 0 <= i < |stem| && !IsDot(stem[i])
    ensures NameOfBase(stem + "." + ext, 0) == stem
  {
    var p := stem + "." + ext;
    LastDotOfExtension(stem, ext);
    var j :| 0 <= j < |stem| && !IsDot(stem[j]);
    if |stem| == 1 {
      assert p[0] == stem[0];
    }
    assert p[..|stem|] == stem;
  }

  lemma {:induction false} NodeNameOfPlain(stem: string, ext: string)
    requires forall i :: 0 <= i < |stem| ==> !IsSlash(stem[i])
    requires forall i :: 0 <= i < |ext| ==> !IsDot(ext[i]) && !IsSlash(ext[i])
    requires exists i :: 0 <= i < |stem| && !IsDot(stem[i])
    ensures NodeParseName(stem + "." + ext) == stem
  {
    var p := stem + "." + ext;
    assert NoSlash(p) by {
      forall i | 0 <= i < |p| ensures !IsSlash(p[i]) {
        if i < |stem| {
          assert p[i] == stem[i];
        } else if i > |stem| {
          assert p[i] == ext[i - |stem| - 1];
        }
      }
    }
    NodeNameWithoutSlash(p);
    NameOfBaseRemovesExtension(stem, ext);
  }

  /** On plain names (no slash) with a non-dot character before the last dot, both titles agree. */
  lemma {:induction false} TitlesAgreeOnPlainNames(stem: string, ext: string)
    requires forall i :: 0 <= i < |stem| ==> !IsSlash(stem[i])
    requires forall i :: 0 <= i < |ext| ==> !IsDot(ext[i]) && !IsSlash(ext[i])
    requires exists i :: 0 <= i < |stem| && !IsDot(stem[i])
    ensures NodeParseName(stem + "." + ext) == stem
    ensures PyTitle(stem + "." + ext, Posix) == stem
  {
    NodeNameOfPlain(stem, ext);
    PyTitleOfPlain(stem, ext);
  }

  /** The Python half of `TitlesAgreeOnPlainNames`. */
  lemma {:induction false} PyTitleOfPlain(stem: string, ext: string)
    requires forall i :: 0 <= i < |stem| ==> !IsSlash(stem[i])
    requires forall i :: 0 <= i < |ext| ==> !IsDot(ext[i]) && !IsSlash(ext[i])
    requires exists i :: 0 <= i < |stem| && !IsDot(stem[i])
    ensures PyTitle(stem + "." + ext, Posix) == stem
  {
    var j :| 0 <= j < |stem| && !IsDot(stem[j]);
    LastIndexMiss(stem, IsPosixSep, -1);
    assert LastIndex(stem, IsPosixSep) < j;
    SplitExtRootRemovesExtension(stem, ext, IsPosixSep);
  }

  /**
   * Where the two differ: for `..c`, Python sees only dots before the last
   * dot and keeps the name whole, while Node cuts at that dot and gives `.`.
   */
  lemma {:induction false} TitlesDifferOnLeadingDots(c: char)
    requires !IsDot(c) && !IsSlash(c)
    ensures PyTitle(['.', '.', c], Posix) == ['.', '.', c]
    ensures NodeParseName(['.', '.', c]) == "."
  {
    PyTitleOfLeadingDots(c);
    NodeNameOfLeadingDots(c);
  }

  /** The Python half of `TitlesDifferOnLeadingDots`. */
  lemma {:induction false} PyTitleOfLeadingDots(c: char)
    requires !IsDot(c) && !IsSlash(c)
    ensures PyTitle(['.', '.', c], Posix) == ['.', '.', c]
  {
    var p := ['.', '.', c];
    LastIndexMiss(p, IsPosixSep, -1);
    LastIndexMiss(p, IsDot, 1);
    assert !StemHasNonDot(p, IsPosixSep);
  }

  /** The Node half of `TitlesDifferOnLeadingDots`. */
  lemma {:induction false} NodeNameOfLeadingDots(c: char)
    requires !IsDot(c) && !IsSlash(c)
    ensures NodeParseName(['.', '.', c]) == "."
  {
    var p := ['.', '.', c];
    assert NoSlash(p) by {
      forall i | 0 <= i < |p| ensures !IsSlash(p[i]) {
      }
    }
    NodeNameWithoutSlash(p);
    NameOfLeadingDots(c);
  }

  lemma {:induction false} NameOfLeadingDots(c: char)
    requires !IsDot(c)
    ensures NameOfBase(['.', '.', c], 0) == "."
  {
    var p := ['.', '.', c];
    LastIndexMiss(p, IsDot, 1);
    assert p[..1] == ".";
  }

  /** Node's `/..` quirk: the root slash is taken as the component start, so the name is `.`. */
  lemma {:induction false} NodeNameOfRootParent()
    ensures NodeParseName("/..") == "."
  {
    var p := "/..";
    var q := p[1..];
    assert q == "..";
    LastIndexMiss(q, NotSlash, 1);
    assert p[1..3] == "..";
    LastIndexMiss(q, IsSlash, -1);
    assert NodeBase(p) == ("..", 1);
    LastIndexMiss(q, IsDot, 1);
    assert NameOfBase("..", 1) == ".";
  }

  /** Python and Node both keep a dot file such as `.bashrc` whole. */
  lemma {:induction false} DotFilesKeepTheirNames(name: string, platform: Platform)
    requires forall i :: 0 <= i < |name| ==> !IsDot(name[i]) && !SepOf(platform)(name[i])
    ensures PyTitle("." + name, platform) == "." + name
    ensures NodeParseName("." + name) == "." + name
  {
    var p := "." + name;
    forall i | 0 < i < |p| ensures !IsDot(p[i]) && !SepOf(platform)(p[i]) && !IsSlash(p[i]) {
      assert p[i] == name[i - 1];
    }
    LastIndexMiss(p, IsDot, 0);
    SepIsNotDotIn(platform);
    LastIndexMiss(p, SepOf(platform), -1);
    assert NoSlash(p);
    NodeNameWithoutSlash(p);
  }

  lemma {:induction false} SepIsNotDotIn(platform: Platform)
    ensures !SepOf(platform)('.') && SepOf(platform)('/')
  {
  }

  // ---------------------------------------------------------------------
  // Helpers about LastIndex and LeadingCount

  /** `LastIndex` is determined by its contract: a hit at `k` and none after it. */
  lemma {:induction false} LastIndexMiss(s: string, p: char -> bool, k: int)
    requires -1 <= k < |s|
    requires k >= 0 ==> p(s[k])
    requires forall i :: k < i < |s| ==> !p(s[i])
    ensures LastIndex(s, p) == k
  {
  }

  lemma {:induction false} LastIndexAppend(x: string, y: string, p: char -> bool)
    ensures LastIndex(x + y, p) == if LastIndex(y, p) >= 0 then |x| + LastIndex(y, p) else LastIndex(x, p)
  {
    var s := x + y;
    var ky := LastIndex(y, p);
    var kx := LastIndex(x, p);
    if ky >= 0 {
      assert s[|x| + ky] == y[ky];
      forall i | |x| + ky < i < |s| ensures !p(s[i]) {
        assert s[i] == y[i - |x|];
      }
      LastIndexMiss(s, p, |x| + ky);
    } else {
      if kx >= 0 {
        assert s[kx] == x[kx];
      }
      forall i | kx < i < |s| ensures !p(s[i]) {
        if i < |x| {
          assert s[i] == x[i];
        } else {
          assert s[i] == y[i - |x|];
        }
      }
      LastIndexMiss(s, p, kx);
    }
  }

  lemma {:induction false} LeadingCountStops(s: string, p: char -> bool, j: int)
    requires 0 <= j < |s| && !p(s[j])
    ensures LeadingCount(s, p) <= j
  {
  }

  /** When `LeadingCount` covers the whole text between separator and dot, no character there is a non-dot. */
  lemma {:induction false} NoStemNonDot(p: string, isSep: char -> bool)
    requires var k := LastIndex(p, isSep); var d := LastIndex(p, IsDot);
      d <= k || LeadingCount(p[k + 1..d], IsDot) >= d - k - 1
    ensures !StemHasNonDot(p, isSep)
  {
    var k := LastIndex(p, isSep);
    var d := LastIndex(p, IsDot);
    if k < d {
      AllDotsBetween(p, k, d);
    }
  }

  lemma {:induction false} AllDotsBetween(p: string, k: int, d: int)
    requires -1 <= k < d <= |p|
    requires LeadingCount(p[k + 1..d], IsDot) >= d - k - 1
    ensures forall j :: k < j < d ==> IsDot(p[j])
  {
    var middle := p[k + 1..d];
    assert middle[..LeadingCount(middle, IsDot)] == middle;
    forall j | k < j < d ensures IsDot(p[j]) {
      assert p[j] == middle[j - k - 1];
    }
  }

  /** Skipping a leading root slash does not change where the last non-slash is. */
  lemma {:induction false} NodeEndAgrees(p: string, start0: nat)
    requires |p| > 0 && start0 == (if p[0] == '/' then 1 else 0)
    ensures var e := LastIndex(p[start0..], NotSlash);
      && (e < 0 <==> LastIndex(p, NotSlash) < 0)
      && (e >= 0 ==> LastIndex(p, NotSlash) == start0 + e)
      && (e < 0 ==> LastComponent(p) == "")
  {
    var x := p[..start0];
    var y := p[start0..];
    assert p == x + y;
    LastIndexAppend(x, y, NotSlash);
    if start0 == 1 {
      LastIndexMiss(x, NotSlash, -1);
    }
    if LastIndex(p, NotSlash) < 0 {
      assert p[..0] == [];
    }
  }

  lemma {:induction false} EmptyPathHasNoComponent(p: string)
    requires |p| == 0
    ensures NodeBase(p).0 == LastComponent(p) == ""
  {
    assert LastComponent(p) == ComponentEndingAt(p, 0);
    assert p[..0] == [];
  }

  /** A path of slashes (after the root one) has an empty base. */
  lemma {:induction false} NodeBaseNotFound(p: string, start0: nat)
    requires |p| > 0 && start0 == (if p[0] == '/' then 1 else 0)
    requires LastIndex(p[start0..], NotSlash) < 0
    ensures NodeBase(p).0 == ""
  {
  }

  lemma {:induction false} NodeBaseFoundIsLastComponent(p: string, start0: nat, e: int)
    requires |p| > 0 && start0 == (if p[0] == '/' then 1 else 0)
    requires e == LastIndex(p[start0..], NotSlash) && e >= 0
    requires LastIndex(p, NotSlash) == start0 + e
    ensures NodeBase(p).0 == LastComponent(p)
  {
    var end := start0 + e + 1;
    NodeBaseUnfolds(p, start0, end);
    NodeBaseEndingAtComponent(p, start0, end);
    LastComponentUnfolds(p, end);
    SameString(NodeBase(p).0, NodeBaseEndingAt(p, start0, end).0, ComponentEndingAt(p, end), LastComponent(p));
  }

  /** Joins the three equalities above without unfolding anything. */
  lemma {:induction false} SameString(a: string, b: string, c: string, d: string)
    requires a == b && b == c && d == c
    ensures a == d
  {
  }

  lemma {:induction false} NodeBaseUnfolds(p: string, start0: nat, end: nat)
    requires |p| > 0 && start0 == (if p[0] == '/' then 1 else 0)
    requires end == LastIndex(p[start0..], NotSlash) + start0 + 1 && end > start0
    ensures NodeBase(p).0 == NodeBaseEndingAt(p, start0, end).0
  {
  }

  lemma {:induction false} LastComponentUnfolds(p: string, end: int)
    requires end == LastIndex(p, NotSlash) + 1
    ensures LastComponent(p) == ComponentEndingAt(p, end)
  {
    assert LastComponent(p) == ComponentEndingAt(p, LastIndex(p, NotSlash) + 1);
  }

  /** Node's base ending at `end` is the component ending there. */
  lemma {:induction false} NodeBaseEndingAtComponent(p: string, start0: nat, end: nat)
    requires |p| > 0 && start0 == (if p[0] == '/' then 1 else 0)
    requires start0 < end <= |p|
    ensures NodeBaseEndingAt(p, start0, end).0 == ComponentEndingAt(p, end)
  {
    LastSlashAfterRoot(p, start0, end);
  }

  lemma {:induction false} LastSlashAfterRoot(p: string, start0: nat, end: nat)
    requires |p| > 0 && start0 == (if p[0] == '/' then 1 else 0)
    requires start0 <= end <= |p|
    ensures var s := LastIndex(p[start0..end], IsSlash);
      LastIndex(p[..end], IsSlash) + 1 == if s < 0 then start0 else start0 + s + 1
  {
    var x := p[..start0];
    var y := p[start0..end];
    assert p[..end] == x + y;
    LastIndexAppend(x, y, IsSlash);
    if start0 == 1 {
      LastIndexMiss(x, IsSlash, 0);
    } else {
      LastIndexMiss(x, IsSlash, -1);
    }
  }
}
