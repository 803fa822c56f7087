/**
 * Normalising a provider's raw answer into a filename stem. The Python
 * client (lib/ai.py `apirequest`, and its copies in ai.py) answers
 * "absent" when the cleaned text is empty or too long; the JavaScript
 * client (src/lib/ai.js `cleanFilename`) truncates instead and falls back
 * to a fixed name. The two are kept apart on purpose: they differ in the
 * whitespace they trim, in what counts as alphanumeric, in whether a
 * trim precedes the quote removal, and in how they treat length.
 */
module Sanitizer {
  import opened Base
  import opened Text

  /** Longest stem either client lets through. */
  const MaxNameLength: nat := 50

  /** What the JavaScript client answers when nothing usable is left. */
  const FallbackName := "document"

  predicate IsAsciiAlnum(c: char) {
    ('a' <= c <= 'z') || ('A' <= c <= 'Z') || ('0' <= c <= '9')
  }

  /**
   * What every version of Python's `str.isalnum()` agrees on. The full
   * classification comes from the interpreter's Unicode database, so the
   * Python cleaning takes it as a parameter `isAlnum` and relies on no
   * more than this: ASCII letters and digits are alphanumeric, and Python
   * whitespace, both quote characters and the dot are not.
   */
  ghost predicate IsAlnumClass(isAlnum: char -> bool) {
    && (forall c :: IsAsciiAlnum(c) ==> isAlnum(c))
    && (forall c :: IsPySpace(c) ==> !isAlnum(c))
    && !isAlnum('"') && !isAlnum('\'') && !isAlnum('.')
  }

  /** `c.isalnum() or c in '_-'` */
  function PyNameChar(isAlnum: char -> bool): char -> bool {
    c => isAlnum(c) || c == '_' || c == '-'
  }

  /** The class `[a-zA-Z0-9_-]` */
  predicate IsJsNameChar(c: char) {
    IsAsciiAlnum(c) || c == '_' || c == '-'
  }

  /** What either client may surround a name with and still have it dropped. */
  predicate IsPyPadding(c: char) {
    IsPySpace(c) || IsQuote(c)
  }

  predicate IsJsPadding(c: char) {
    IsJsSpace(c) || IsQuote(c)
  }

  /** A stem the Python client can answer with. */
  ghost predicate ValidPyName(isAlnum: char -> bool, n: string) {
    0 < |n| <= MaxNameLength && All(n, PyNameChar(isAlnum))
  }

  /** A stem the JavaScript client can answer with. */
  ghost predicate ValidJsName(n: string) {
    0 < |n| <= MaxNameLength && All(n, IsJsNameChar)
  }

  /** The space-to-underscore step followed by the character filter. */
  function Underscored(core: string, keep: char -> bool): (r: string)
    ensures All(r, keep)
  {
    Filter(Replace(core, ' ', '_'), keep)
  }

  // ---------------------------------------------------------------------
  // Python: lib/ai.py apirequest, ai.py get_recommended_filename*

  /** Strip, delete both quote characters, strip again. */
  function PyCore(raw: string): string {
    Trim(Filter(Trim(raw, IsPySpace), NotQuote), IsPySpace)
  }

  /** The cleaned text whose length decides the answer. */
  function PyCleaned(isAlnum: char -> bool, raw: string): string {
    Underscored(PyCore(raw), PyNameChar(isAlnum))
  }

  /** The cleaning and the length rule; `None` is the absent recommendation. */
  function PySanitize(isAlnum: char -> bool, raw: string): (r: Option<string>)
    ensures r.None? <==> |PyCleaned(isAlnum, raw)| == 0 || |PyCleaned(isAlnum, raw)| > MaxNameLength
    ensures r.Some? ==> r.value == PyCleaned(isAlnum, raw)
    ensures r.Some? ==> ValidPyName(isAlnum, r.value)
    ensures IsAlnumClass(isAlnum) && r.Some? ==> ' ' !in r.value && '"' !in r.value && '\'' !in r.value
  {
    var cleaned := PyCleaned(isAlnum, raw);
    if 0 < |cleaned| <= MaxNameLength then
      PyNameHasNoSeparators(isAlnum, cleaned);
      Some(cleaned)
    else
      None
  }

  // ---------------------------------------------------------------------
  // JavaScript: src/lib/ai.js cleanFilename

  /** Delete both quote characters, then trim (no trim before). */
  function JsCore(raw: string): string {
    Trim(Filter(raw, NotQuote), IsJsSpace)
  }

  function JsFiltered(raw: string): string {
    Underscored(JsCore(raw), IsJsNameChar)
  }

  function CleanFilename(raw: string): (r: string)
    ensures ValidJsName(r)
    ensures JsFiltered(raw) == [] ==> r == FallbackName
    ensures 0 < |JsFiltered(raw)| <= MaxNameLength ==> r == JsFiltered(raw)
    ensures |JsFiltered(raw)| > MaxNameLength ==> r == JsFiltered(raw)[..MaxNameLength]
  {
    var filtered := JsFiltered(raw);
    if filtered == [] then
      FallbackIsValid();
      FallbackName
    else if |filtered| > MaxNameLength then
      PrefixAll(filtered, MaxNameLength, IsJsNameChar);
      filtered[..MaxNameLength]
    else
      filtered
  }

  // ---------------------------------------------------------------------
  // Lemmas

  lemma {:induction false} PyNameCharsAreNotPadding(isAlnum: char -> bool)
    requires IsAlnumClass(isAlnum)
    ensures forall c :: PyNameChar(isAlnum)(c) ==> !IsPyPadding(c) && c != ' '
  {
  }

  lemma {:induction false} JsNameCharsAreNotPadding()
    ensures forall c :: IsJsNameChar(c) ==> !IsJsPadding(c) && c != ' '
  {
  }

  /** Under any classifier Python could use, a name of allowed characters has no space and no quote. */
  lemma {:induction false} PyNameHasNoSeparators(isAlnum: char -> bool, n: string)
    requires All(n, PyNameChar(isAlnum))
    ensures IsAlnumClass(isAlnum) ==> ' ' !in n && '"' !in n && '\'' !in n
  {
    if IsAlnumClass(isAlnum) {
      forall i | 0 <= i < |n|
        ensures n[i] != ' ' && n[i] != '"' && n[i] != '\''
      {
        assert PyNameChar(isAlnum)(n[i]);
      }
    }
  }

  lemma {:induction false} FallbackIsValid()
    ensures ValidJsName(FallbackName)
  {
  }

  lemma {:induction false} PrefixAll(s: string, n: nat, p: char -> bool)
    requires n <= |s| && All(s, p)
    ensures All(s[..n], p)
  {
  }

  /** Each space of the core text becomes exactly one underscore, in place. */
  lemma {:induction false} SpaceBecomesUnderscore(a: string, b: string, keep: char -> bool)
    requires keep('_')
    ensures Underscored(a + " " + b, keep) == Underscored(a, keep) + "_" + Underscored(b, keep)
  {
    ReplaceAppend(a + " ", b, ' ', '_');
    ReplaceAppend(a, " ", ' ', '_');
    assert Replace(" ", ' ', '_') == "_";
    FilterAppend(Replace(a, ' ', '_') + "_", Replace(b, ' ', '_'), keep);
    FilterAppend(Replace(a, ' ', '_'), "_", keep);
    assert Filter("_", keep) == "_" by {
      assert "_"[1..] == [];
    }
  }

  /** A name made only of allowed characters passes the character steps unchanged. */
  lemma {:induction false} UnderscoredKeepsNames(n: string, keep: char -> bool)
    requires All(n, keep) && !keep(' ')
    ensures Underscored(n, keep) == n
  {
    assert ' ' !in n;
    ReplaceAbsent(n, ' ', '_');
  }

  /** The strip that precedes the quote removal changes nothing in the end. */
  lemma {:induction false} StripBeforeQuotesIsRedundant(x: string, ws: char -> bool)
    requires forall c :: ws(c) ==> NotQuote(c)
    ensures Trim(Filter(Trim(x, ws), NotQuote), ws) == Trim(Filter(x, NotQuote), ws)
  {
    var a, b := TrimSplit(x, ws);
    var t := Trim(x, ws);
    FilterAppend(a + t, b, NotQuote);
    FilterAppend(a, t, NotQuote);
    assert All(a, NotQuote);
    assert All(b, NotQuote);
    TrimIgnoresPadding(a, Filter(t, NotQuote), b, ws);
  }

  /** Quotes and whitespace around a text vanish once quotes are dropped and the rest trimmed. */
  lemma {:induction false} PaddingVanishes(p: string, body: string, q: string, ws: char -> bool)
    requires forall i :: 0 <= i < |p| ==> ws(p[i]) || IsQuote(p[i])
    requires forall i :: 0 <= i < |q| ==> ws(q[i]) || IsQuote(q[i])
    ensures Trim(Filter(p + body + q, NotQuote), ws) == Trim(Filter(body, NotQuote), ws)
  {
    FilterAppend(p + body, q, NotQuote);
    FilterAppend(p, body, NotQuote);
    var fp := Filter(p, NotQuote);
    var fq := Filter(q, NotQuote);
    FilterMembers(p, NotQuote);
    FilterMembers(q, NotQuote);
    assert All(fp, ws) by {
      forall i | 0 <= i < |fp| ensures ws(fp[i]) {
        assert fp[i] in fp;
      }
    }
    assert All(fq, ws) by {
      forall i | 0 <= i < |fq| ensures ws(fq[i]) {
        assert fq[i] in fq;
      }
    }
    TrimIgnoresPadding(fp, Filter(body, NotQuote), fq, ws);
  }

  lemma {:induction false} PyCorePadding(p: string, body: string, q: string)
    requires All(p, IsPyPadding) && All(q, IsPyPadding)
    ensures PyCore(p + body + q) == PyCore(body)
  {
    var x := p + body + q;
    assert forall c :: IsPySpace(c) ==> NotQuote(c);
    StripBeforeQuotesIsRedundant(x, IsPySpace);
    StripBeforeQuotesIsRedundant(body, IsPySpace);
    assert PyCore(x) == Trim(Filter(x, NotQuote), IsPySpace);
    assert PyCore(body) == Trim(Filter(body, NotQuote), IsPySpace);
    assert forall i :: 0 <= i < |p| ==> IsPySpace(p[i]) || IsQuote(p[i]);
    assert forall i :: 0 <= i < |q| ==> IsPySpace(q[i]) || IsQuote(q[i]);
    PaddingVanishes(p, body, q, IsPySpace);
  }

  /** Python: whitespace and quotes around the answer never reach the stem. */
  lemma {:induction false} PyPaddingIgnored(isAlnum: char -> bool, p: string, body: string, q: string)
    requires All(p, IsPyPadding) && All(q, IsPyPadding)
    ensures PySanitize(isAlnum, p + body + q) == PySanitize(isAlnum, body)
  {
    assert PyCore(p + body + q) == PyCore(body) by {
      PyCorePadding(p, body, q);
    }
  }

  /** Python: an answer that already is a valid stem comes back unchanged. */
  lemma {:induction false} PySanitizeKeepsValidNames(isAlnum: char -> bool, n: string)
    requires IsAlnumClass(isAlnum)
    requires ValidPyName(isAlnum, n)
    ensures PySanitize(isAlnum, n) == Some(n)
  {
    PyNameCharsAreNotPadding(isAlnum);
    assert All(n, NotQuote);
    UnderscoredKeepsNames(n, PyNameChar(isAlnum));
  }

  /** Python: sanitising a recommendation again yields the same recommendation. */
  lemma {:induction false} PySanitizeIsStable(isAlnum: char -> bool, raw: string)
    requires IsAlnumClass(isAlnum)
    requires PySanitize(isAlnum, raw).Some?
    ensures PySanitize(isAlnum, PySanitize(isAlnum, raw).value) == PySanitize(isAlnum, raw)
  {
    PySanitizeKeepsValidNames(isAlnum, PySanitize(isAlnum, raw).value);
  }

  /**
   * The shape of a typical answer, for any trimmed class `ws` and kept
   * class `keep` that agree with each other: two words and a dotted file
   * name padded with spaces become the words joined by underscores with
   * the dot deleted.
   */
  lemma {:induction false} TypicalAnswer(w1: string, w2: string, stem: string, ext: string, ws: char -> bool, keep: char -> bool)
    requires forall c :: keep(c) ==> !ws(c) && NotQuote(c) && c != ' '
    requires ws(' ') && keep('_') && !keep('.')
    requires |w1| > 0 && |ext| > 0
    requires All(w1, keep) && All(w2, keep) && All(stem, keep) && All(ext, keep)
    ensures Underscored(Trim(Filter(" " + w1 + " " + w2 + " " + stem + "." + ext + " ", NotQuote), ws), keep)
         == w1 + "_" + w2 + "_" + stem + ext
  {
    var body := w1 + " " + (w2 + " " + (stem + "." + ext));
    assert " " + w1 + " " + w2 + " " + stem + "." + ext + " " == " " + body + " ";
    TypicalCore(w1, w2, stem, ext, ws, keep);
    TypicalUnderscored(w1, w2, stem, ext, keep);
    Regroup(w1, "_", w2, "_", stem, ext);
  }

  lemma {:induction false} TypicalCore(w1: string, w2: string, stem: string, ext: string, ws: char -> bool, keep: char -> bool)
    requires forall c :: keep(c) ==> !ws(c) && NotQuote(c)
    requires ws(' ')
    requires |w1| > 0 && |ext| > 0
    requires All(w1, keep) && All(w2, keep) && All(stem, keep) && All(ext, keep)
    ensures var body := w1 + " " + (w2 + " " + (stem + "." + ext));
      Trim(Filter(" " + body + " ", NotQuote), ws) == body
  {
    var tail := stem + "." + ext;
    var body := w1 + " " + (w2 + " " + tail);
    PaddingVanishes(" ", body, " ", ws);
    AllWeaken(w1, keep, NotQuote);
    AllWeaken(w2, keep, NotQuote);
    AllWeaken(stem, keep, NotQuote);
    AllWeaken(ext, keep, NotQuote);
    AllAppend(stem, ".", NotQuote);
    AllAppend(stem + ".", ext, NotQuote);
    AllAppend(w2, " ", NotQuote);
    AllAppend(w2 + " ", tail, NotQuote);
    AllAppend(w1, " ", NotQuote);
    AllAppend(w1 + " ", w2 + " " + tail, NotQuote);
    assert body[0] == w1[0];
    assert body[|body| - 1] == ext[|ext| - 1];
  }

  lemma {:induction false} TypicalUnderscored(w1: string, w2: string, stem: string, ext: string, keep: char -> bool)
    requires keep('_') && !keep('.') && !keep(' ')
    requires All(w1, keep) && All(w2, keep) && All(stem, keep) && All(ext, keep)
    ensures Underscored(w1 + " " + (w2 + " " + (stem + "." + ext)), keep) == w1 + "_" + (w2 + "_" + (stem + ext))
  {
    var tail := stem + "." + ext;
    assert Underscored(tail, keep) == stem + ext by {
      assert ' ' !in tail by {
        assert tail == stem + ['.'] + ext;
      }
      ReplaceAbsent(tail, ' ', '_');
      FilterDropsOne(stem, '.', ext, keep);
    }
    UnderscoredKeepsNames(w1, keep);
    UnderscoredKeepsNames(w2, keep);
    SpaceBecomesUnderscore(w1, w2 + " " + tail, keep);
    SpaceBecomesUnderscore(w2, tail, keep);
  }

  lemma {:induction false} Regroup(a: string, b: string, c: string, d: string, e: string, f: string)
    ensures a + b + (c + d + (e + f)) == a + b + c + d + e + f
  {
  }

  /** Python: the typical answer, when its result is short enough. */
  lemma {:induction false} PySanitizeTypicalAnswer(isAlnum: char -> bool, w1: string, w2: string, stem: string, ext: string)
    requires IsAlnumClass(isAlnum)
    requires |w1| > 0 && |ext| > 0
    requires All(w1, PyNameChar(isAlnum)) && All(w2, PyNameChar(isAlnum))
    requires All(stem, PyNameChar(isAlnum)) && All(ext, PyNameChar(isAlnum))
    requires |w1| + |w2| + |stem| + |ext| + 2 <= MaxNameLength
    ensures PySanitize(isAlnum, " " + w1 + " " + w2 + " " + stem + "." + ext + " ")
         == Some(w1 + "_" + w2 + "_" + stem + ext)
  {
    PyCleanedTypicalAnswer(isAlnum, w1, w2, stem, ext);
  }

  lemma {:induction false} PyCleanedTypicalAnswer(isAlnum: char -> bool, w1: string, w2: string, stem: string, ext: string)
    requires IsAlnumClass(isAlnum)
    requires |w1| > 0 && |ext| > 0
    requires All(w1, PyNameChar(isAlnum)) && All(w2, PyNameChar(isAlnum))
    requires All(stem, PyNameChar(isAlnum)) && All(ext, PyNameChar(isAlnum))
    ensures PyCleaned(isAlnum, " " + w1 + " " + w2 + " " + stem + "." + ext + " ") == w1 + "_" + w2 + "_" + stem + ext
  {
    PyCoreSkipsFirstStrip(" " + w1 + " " + w2 + " " + stem + "." + ext + " ");
    PyTypicalShape(isAlnum, w1, w2, stem, ext);
  }

  lemma {:induction false} PyCoreSkipsFirstStrip(raw: string)
    ensures PyCore(raw) == Trim(Filter(raw, NotQuote), IsPySpace)
  {
    StripBeforeQuotesIsRedundant(raw, IsPySpace);
  }

  lemma {:induction false} PyTypicalShape(isAlnum: char -> bool, w1: string, w2: string, stem: string, ext: string)
    requires IsAlnumClass(isAlnum)
    requires |w1| > 0 && |ext| > 0
    requires All(w1, PyNameChar(isAlnum)) && All(w2, PyNameChar(isAlnum))
    requires All(stem, PyNameChar(isAlnum)) && All(ext, PyNameChar(isAlnum))
    ensures Underscored(Trim(Filter(" " + w1 + " " + w2 + " " + stem + "." + ext + " ", NotQuote), IsPySpace), PyNameChar(isAlnum))
         == w1 + "_" + w2 + "_" + stem + ext
  {
    PyNameCharsAreNotPadding(isAlnum);
    TypicalAnswer(w1, w2, stem, ext, IsPySpace, PyNameChar(isAlnum));
  }

  /** The answer of the sanitiser test in tests/test_ai.py, built from its words. */
  lemma {:induction false} PySanitizeTestAnswerParts(isAlnum: char -> bool)
    requires IsAlnumClass(isAlnum)
    ensures PySanitize(isAlnum, " " + "Test" + " " + "Document" + " " + "2025" + "." + "pdf" + " ")
         == Some("Test" + "_" + "Document" + "_" + "2025" + "pdf")
  {
    AsciiNameIsPyName(isAlnum, "Test");
    AsciiNameIsPyName(isAlnum, "Document");
    AsciiNameIsPyName(isAlnum, "2025");
    AsciiNameIsPyName(isAlnum, "pdf");
    PySanitizeTypicalAnswer(isAlnum, "Test", "Document", "2025", "pdf");
  }

  /** Python: `" Test Document 2025.pdf "` sanitises to `Test_Document_2025pdf`. */
  lemma {:induction false} PySanitizeTestAnswer(isAlnum: char -> bool)
    requires IsAlnumClass(isAlnum)
    ensures PySanitize(isAlnum, " Test Document 2025.pdf ") == Some("Test_Document_2025pdf")
  {
    var raw := " " + "Test" + " " + "Document" + " " + "2025" + "." + "pdf" + " ";
    assert raw == " Test Document 2025.pdf ";
    assert "Test" + "_" + "Document" + "_" + "2025" + "pdf" == "Test_Document_2025pdf";
    PySanitizeTestAnswerParts(isAlnum);
  }

  lemma {:induction false} AsciiNameIsPyName(isAlnum: char -> bool, n: string)
    requires IsAlnumClass(isAlnum)
    requires forall i :: 0 <= i < |n| ==> IsAsciiAlnum(n[i])
    ensures All(n, PyNameChar(isAlnum))
  {
  }

  /** JavaScript: the typical answer; longer results are cut to their first 50 characters. */
  lemma {:induction false} CleanFilenameTypicalAnswer(w1: string, w2: string, stem: string, ext: string)
    requires |w1| > 0 && |ext| > 0
    requires All(w1, IsJsNameChar) && All(w2, IsJsNameChar) && All(stem, IsJsNameChar) && All(ext, IsJsNameChar)
    ensures var joined := w1 + "_" + w2 + "_" + stem + ext;
      CleanFilename(" " + w1 + " " + w2 + " " + stem + "." + ext + " ")
        == if |joined| <= MaxNameLength then joined else joined[..MaxNameLength]
  {
    JsNameCharsAreNotPadding();
    TypicalAnswer(w1, w2, stem, ext, IsJsSpace, IsJsNameChar);
  }

  lemma {:induction false} FilterDropsOne(a: string, c: char, b: string, keep: char -> bool)
    requires All(a, keep) && All(b, keep) && !keep(c)
    ensures Filter(a + [c] + b, keep) == a + b
  {
    assert Filter([c], keep) == [] by {
      assert [c][1..] == [];
    }
    FilterAppend(a + [c], b, keep);
    FilterAppend(a, [c], keep);
  }

  /** JavaScript: a valid stem is its own cleaned form. */
  lemma {:induction false} CleanFilenameKeepsValidNames(n: string)
    requires ValidJsName(n)
    ensures CleanFilename(n) == n
  {
    JsNameCharsAreNotPadding();
    assert All(n, NotQuote);
    UnderscoredKeepsNames(n, IsJsNameChar);
  }

  /** JavaScript: cleaning is idempotent. */
  lemma {:induction false} CleanFilenameIdempotent(raw: string)
    ensures CleanFilename(CleanFilename(raw)) == CleanFilename(raw)
  {
    CleanFilenameKeepsValidNames(CleanFilename(raw));
  }

  /** JavaScript: whitespace and quotes around the answer never reach the stem. */
  lemma {:induction false} CleanFilenamePaddingIgnored(p: string, body: string, q: string)
    requires All(p, IsJsPadding) && All(q, IsJsPadding)
    ensures CleanFilename(p + body + q) == CleanFilename(body)
  {
    assert JsCore(p + body + q) == JsCore(body) by {
      PaddingVanishes(p, body, q, IsJsSpace);
    }
  }

  /** JavaScript: the providers' `trim()` before `cleanFilename` makes no difference. */
  lemma {:induction false} TrimBeforeCleanIsRedundant(raw: string)
    ensures CleanFilename(Trim(raw, IsJsSpace)) == CleanFilename(raw)
  {
    var a, b := TrimSplit(raw, IsJsSpace);
    assert All(a, IsJsPadding) && All(b, IsJsPadding);
    CleanFilenamePaddingIgnored(a, Trim(raw, IsJsSpace), b);
  }
}
