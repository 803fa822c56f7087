/**
 * The extension rule of the two save steps (app.py `save_scanned_image`
 * and src/renderer.js `saveFilename`): `.jpg` is appended unless the name
 * already ends, ignoring case, in an accepted extension. The two accept
 * different lists: the Electron client also accepts `.pdf`.
 */
module Extensions {
  import opened Text

  /** What both save steps append. */
  const DefaultExtension := ".jpg"

  /** The suffixes `save_scanned_image` accepts. */
  const PyImageExtensions: seq<string> := [".jpg", ".jpeg", ".png", ".bmp", ".tiff"]

  /** The alternatives of the pattern `/\.(jpg|jpeg|png|bmp|tiff|pdf)$/i` in `saveFilename`. */
  const JsImageExtensions: seq<string> := [".jpg", ".jpeg", ".png", ".bmp", ".tiff", ".pdf"]

  /**
   * `name.lower().endswith(exts)`, and the regular-expression test with the
   * `i` flag. Lower-casing ASCII letters only is exact here: every accepted
   * suffix is ASCII, and no other character lowers to a string whose last
   * character occurs in one of them (U+212A lowers to `k`, which none
   * contains, and U+0130 to `i` followed by U+0307).
   */
  predicate EndsWithAnyIgnoringCase(name: string, exts: seq<string>) {
    exists i :: 0 <= i < |exts| && EndsWith(Lower(name), exts[i])
  }

  /** The stored filename for a non-empty trimmed name. */
  function WithExtension(name: string, accepted: seq<string>): (full: string)
    requires DefaultExtension in accepted
    ensures name <= full
    ensures EndsWithAnyIgnoringCase(full, accepted)
    ensures EndsWithAnyIgnoringCase(name, accepted) <==> full == name
    ensures full != name ==> full == name + DefaultExtension
  {
    if EndsWithAnyIgnoringCase(name, accepted) then name
    else
      AppendedExtensionIsAccepted(name, accepted);
      name + DefaultExtension
  }

  // ---------------------------------------------------------------------
  // Lemmas

  lemma {:induction false} AppendedExtensionIsAccepted(name: string, accepted: seq<string>)
    requires DefaultExtension in accepted
    ensures EndsWithAnyIgnoringCase(name + DefaultExtension, accepted)
  {
    var full := name + DefaultExtension;
    var i :| 0 <= i < |accepted| && accepted[i] == DefaultExtension;
    assert Lower(full)[|full| - 4..] == DefaultExtension;
    assert EndsWith(Lower(full), accepted[i]);
  }

  /** Saving twice never appends the extension twice. */
  lemma {:induction false} WithExtensionIsIdempotent(name: string, accepted: seq<string>)
    requires DefaultExtension in accepted
    ensures WithExtension(WithExtension(name, accepted), accepted) == WithExtension(name, accepted)
  {
  }

  lemma {:induction false} DefaultIsAccepted()
    ensures DefaultExtension in PyImageExtensions && DefaultExtension in JsImageExtensions
  {
    assert PyImageExtensions[0] == DefaultExtension;
    assert JsImageExtensions[0] == DefaultExtension;
  }

  /** Where the two save steps differ: a `.pdf` name is kept by the Electron client, extended by the Tk one. */
  lemma {:induction false} PdfIsKeptOnlyByElectron(stem: string)
    ensures WithExtension(stem + ".pdf", JsImageExtensions) == stem + ".pdf"
    ensures WithExtension(stem + ".pdf", PyImageExtensions) == stem + ".pdf" + DefaultExtension
  {
    DefaultIsAccepted();
    var name := stem + ".pdf";
    var low := Lower(name);
    assert low[|low| - 4..] == ".pdf";
    assert EndsWith(low, JsImageExtensions[5]);
    forall i | 0 <= i < |PyImageExtensions|
      ensures !EndsWith(low, PyImageExtensions[i])
    {
      assert low[|low| - 1] == 'f' && low[|low| - 2] == 'd';
    }
  }
}
