/**
 * The filename recommenders. The provider SDK calls are outside the
 * model: each recommender receives what the call produced (an exception,
 * or a message whose text may be null) and the model decides what the
 * recommender returns for it. Reading the file and encoding the image,
 * which happen before the call, are reduced to whether they succeeded.
 */
module Recommender {
  import opened Base
  import opened Text
  import opened Sanitizer
  import opened Config

  /** What one chat-completion call produced. A null message content is `Ok(None)`. */
  type Completion = Reply<Option<string>>

  /** The call answered with text, so `.strip()` / `.trim()` on it does not raise. */
  predicate HasText(c: Completion) {
    c.Ok? && c.value.Some?
  }

  // ---------------------------------------------------------------------
  // lib/ai.py

  /** `apirequest`: cleans the answer; every exception propagates to the caller. */
  function ApiRequest(isAlnum: char -> bool, c: Completion): (r: Reply<Option<string>>)
    ensures r.Ok? <==> HasText(c)
    ensures r.Ok? ==> r.value == PySanitize(isAlnum, c.value.value)
    ensures r.Ok? && r.value.Some? ==> ValidPyName(isAlnum, r.value.value)
  {
    match c
    case Raised(message) => Raised(message)
    case Ok(None) => Raised("'NoneType' object has no attribute 'strip'")
    case Ok(Some(text)) => Ok(PySanitize(isAlnum, text))
  }

  /** `get_recommended_filename`: `fileOpened` says whether reading the file succeeded. */
  function GetRecommendedFilename(isAlnum: char -> bool, fileOpened: bool, c: Completion): (r: Option<string>)
    ensures r.Some? ==> ValidPyName(isAlnum, r.value)
    ensures r.Some? <==> fileOpened && HasText(c) && PySanitize(isAlnum, c.value.value).Some?
    ensures fileOpened && HasText(c) ==> r == PySanitize(isAlnum, c.value.value)
  {
    if !fileOpened then None
    else match ApiRequest(isAlnum, c)
      case Ok(name) => name
      case Raised(_) => None
  }

  /**
   * `get_recommended_filename_from_pil_image`: `encoded` says whether
   * turning the image into JPEG bytes succeeded. Any exception gives "".
   */
  function FromPilImage(isAlnum: char -> bool, encoded: bool, c: Completion): (r: Option<string>)
    ensures r == Some("") <==> !(encoded && HasText(c))
    ensures r.Some? && r.value != "" ==> ValidPyName(isAlnum, r.value)
    ensures encoded && HasText(c) ==> r == PySanitize(isAlnum, c.value.value)
  {
    if !encoded then Some("")
    else match ApiRequest(isAlnum, c)
      case Ok(name) => name
      case Raised(_) => Some("")
  }

  /** The streamed chunk texts joined in order; a chunk without text adds nothing. */
  function ConcatChunks(chunks: seq<Option<string>>): (r: string)
    ensures chunks == [] ==> r == ""
    decreases |chunks|
  {
    if chunks == [] then ""
    else
      var last := chunks[|chunks| - 1];
      ConcatChunks(chunks[..|chunks| - 1]) + (if last.Some? then last.value else "")
  }

  /**
   * `get_recommended_filename_from_pil_image_gemini`: the chunks of the
   * stream are accumulated without any cleaning; an exception anywhere,
   * even after some chunks arrived, gives "".
   */
  function GeminiFromPilImage(encoded: bool, stream: Reply<seq<Option<string>>>): (r: string)
    ensures !encoded || stream.Raised? ==> r == ""
    ensures encoded && stream.Ok? ==> r == ConcatChunks(stream.value)
  {
    if encoded && stream.Ok? then ConcatChunks(stream.value) else ""
  }

  // ---------------------------------------------------------------------
  // ai.py (the older copy)

  /** The older `get_recommended_filename`: cleaning inline, `None` on any exception. */
  function LegacyGetRecommendedFilename(isAlnum: char -> bool, fileOpened: bool, c: Completion): (r: Option<string>)
    ensures r.Some? ==> ValidPyName(isAlnum, r.value)
    ensures !(fileOpened && HasText(c)) ==> r.None?
  {
    if fileOpened && HasText(c) then PySanitize(isAlnum, c.value.value) else None
  }

  /** The older `get_recommended_filename_from_pil_image`: `None`, not "", on any exception. */
  function LegacyFromPilImage(isAlnum: char -> bool, encoded: bool, c: Completion): (r: Option<string>)
    ensures r.Some? ==> ValidPyName(isAlnum, r.value)
    ensures !(encoded && HasText(c)) ==> r.None?
  {
    if encoded && HasText(c) then PySanitize(isAlnum, c.value.value) else None
  }

  // ---------------------------------------------------------------------
  // src/lib/ai.js

  /**
   * `getRecommendedFilenameOpenAI` and `getRecommendedFilenameGemini`
   * after their SDK call: trim, clean, and "" for any error, including
   * a null message content.
   */
  function ProviderFilename(c: Completion): (r: string)
    ensures r == "" <==> !HasText(c)
    ensures HasText(c) ==> r == CleanFilename(c.value.value)
    ensures r == "" || ValidJsName(r)
  {
    if HasText(c) then
      TrimBeforeCleanIsRedundant(c.value.value);
      CleanFilename(Trim(c.value.value, IsJsSpace))
    else
      ""
  }

  /** Which provider function `getRecommendedFilename` called, and what it returned. */
  datatype Suggestion = Suggestion(called: Provider, filename: string)

  /**
   * `getRecommendedFilename`: the OpenAI function when that key is truthy,
   * else the Gemini function when that key is truthy, else "" without a call.
   * Both answers are supplied; only the called provider's is used.
   */
  function GetRecommendedFilenameJs(openaiKey: Option<string>, geminiKey: Option<string>,
                                    fromOpenAI: Completion, fromGemini: Completion): (s: Suggestion)
    ensures s.called == ActiveProvider(openaiKey, geminiKey)
    ensures s.called == NoProvider ==> s.filename == ""
    ensures s.called == OpenAI ==> s.filename == ProviderFilename(fromOpenAI)
    ensures s.called == Gemini ==> s.filename == ProviderFilename(fromGemini)
    ensures s.filename == "" || ValidJsName(s.filename)
  {
    if Truthy(openaiKey) then Suggestion(OpenAI, ProviderFilename(fromOpenAI))
    else if Truthy(geminiKey) then Suggestion(Gemini, ProviderFilename(fromGemini))
    else Suggestion(NoProvider, "")
  }

  // ---------------------------------------------------------------------
  // Lemmas

  /** The chunks are joined in stream order. */
  lemma {:induction false} ConcatChunksAppend(a: seq<Option<string>>, b: seq<Option<string>>)
    ensures ConcatChunks(a + b) == ConcatChunks(a) + ConcatChunks(b)
    decreases |b|
  {
    if b == [] {
      assert a + b == a;
    } else {
      var b' := b[..|b| - 1];
      assert (a + b)[..|a + b| - 1] == a + b';
      assert (a + b)[|a + b| - 1] == b[|b| - 1];
      ConcatChunksAppend(a, b');
    }
  }

  /** One chunk contributes its text, or nothing when its text is `None`. */
  lemma {:induction false} ConcatChunksSingle(chunk: Option<string>)
    ensures ConcatChunks([chunk]) == if chunk.Some? then chunk.value else ""
  {
    assert [chunk][..0] == [];
  }

  /** Gemini's answer is passed on as it came: spaces, quotes and dots survive. */
  lemma {:induction false} GeminiIsNotCleaned(text: string)
    ensures GeminiFromPilImage(true, Ok([Some(text)])) == text
  {
    ConcatChunksSingle(Some(text));
  }

  /** The older file-based recommender behaves exactly like the newer one. */
  lemma {:induction false} LegacyGetRecommendedFilenameAgrees(isAlnum: char -> bool, fileOpened: bool, c: Completion)
    ensures LegacyGetRecommendedFilename(isAlnum, fileOpened, c) == GetRecommendedFilename(isAlnum, fileOpened, c)
  {
  }

  /** The older image recommender differs from the newer one only in the error value. */
  lemma {:induction false} LegacyFromPilImageDiffersOnlyOnError(isAlnum: char -> bool, encoded: bool, c: Completion)
    ensures LegacyFromPilImage(isAlnum, encoded, c)
         == if FromPilImage(isAlnum, encoded, c) == Some("") then None else FromPilImage(isAlnum, encoded, c)
  {
  }

}
