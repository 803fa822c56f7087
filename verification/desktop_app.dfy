/**
 * The Tk application (app.py) as a state machine over the files on disk,
 * the scanned image, its path, the current filename, the filename entry
 * and the status line. Scanner, recommender and server answers are
 * inputs of the transitions; message boxes and image display are not
 * modelled, only the state they leave behind.
 */
module DesktopApp {
  import opened Base
  import opened Text
  import opened Config
  import opened Paths
  import opened Recommender
  import opened ScannerClient
  import opened Extensions

  /** A scanned page, as the scanner backend hands it over. */
  datatype Image = Image(id: nat)

  /** What the status line says. */
  datatype Status =
    | Ready
    | Scanned
    | ScanCancelled
    | ScanError(message: string)
    | SavedAs(filename: string)
    | Uploaded
    | UploadFailed
    | UploadErrored(error: UploadError)

  datatype AppState = AppState(
    files: set<string>,          // the files present in the working directory
    image: Option<Image>,        // `scanned_image`
    imagePath: Option<string>,   // `scanned_image_path`
    filename: Option<string>,    // `filename`; a recommender may set it to `None`
    entry: string,               // the text of the filename entry
    status: Status,
    apiUrl: Option<string>,
    apiToken: Option<string>,
    openaiKey: Option<string>,
    geminiKey: Option<string>,
    platform: Platform)

  // ---------------------------------------------------------------------
  // Transitions

  /** `main()` removes a left-over `tmp.jpg`; `__init__` starts with no image and an empty filename. */
  function Launch(files: set<string>, apiUrl: Option<string>, apiToken: Option<string>,
                  openaiKey: Option<string>, geminiKey: Option<string>, platform: Platform): (st: AppState)
    ensures st.files == files - {TempImage}
    ensures st.image.None? && st.imagePath.None? && st.filename == Some("")
  {
    AppState(files - {TempImage}, None, None, Some(""), "", Ready, apiUrl, apiToken, openaiKey, geminiKey, platform)
  }

  /** `cleanup`: removes `tmp.jpg` when it exists, and does nothing otherwise. */
  function Cleanup(st: AppState): (r: AppState)
    ensures TempImage !in r.files
    ensures forall f :: f != TempImage ==> (f in r.files <==> f in st.files)
    ensures TempImage !in st.files ==> r == st
    ensures r.(files := st.files) == st
  {
    st.(files := st.files - {TempImage})
  }

  /** The recommendation `scan_document` asks for, by the configured keys. */
  function Recommend(st: AppState, isAlnum: char -> bool, encoded: bool, completion: Completion,
                     stream: Reply<seq<Option<string>>>): (filename: Option<string>)
    ensures ActiveProvider(st.openaiKey, st.geminiKey) == OpenAI ==> filename == FromPilImage(isAlnum, encoded, completion)
    ensures ActiveProvider(st.openaiKey, st.geminiKey) == Gemini ==> filename == Some(GeminiFromPilImage(encoded, stream))
    ensures ActiveProvider(st.openaiKey, st.geminiKey) == NoProvider ==> filename == Some("")
  {
    if Truthy(st.openaiKey) then FromPilImage(isAlnum, encoded, completion)
    else if Truthy(st.geminiKey) then Some(GeminiFromPilImage(encoded, stream))
    else Some("")
  }

  /**
   * `scan_document`: removes `tmp.jpg`, then asks the backend for a page.
   * A page (which the backend has saved as `tmp.jpg`) becomes the current
   * image, a filename is recommended and shown, and the path becomes
   * `tmp.jpg`. No page means no recommendation and no path change. An
   * exception from the backend leaves the image as it was.
   */
  function Scan(st: AppState, scan: Reply<Option<Image>>, isAlnum: char -> bool, encoded: bool, completion: Completion,
                stream: Reply<seq<Option<string>>>): (r: AppState)
    ensures scan.Ok? ==> r.image == scan.value
    ensures scan.Raised? ==> r.image == st.image && r.status == ScanError(scan.message)
    ensures TempImage in r.files <==> scan.Ok? && scan.value.Some?
    ensures forall f :: f != TempImage ==> (f in r.files <==> f in st.files)
    ensures scan.Ok? && scan.value.Some? ==>
              && r.imagePath == Some(TempImage)
              && r.filename == Recommend(st, isAlnum, encoded, completion, stream)
              && r.entry == (if r.filename.Some? then r.filename.value else "")
              && r.status == Scanned
    ensures !(scan.Ok? && scan.value.Some?) ==>
              r.imagePath == st.imagePath && r.filename == st.filename && r.entry == st.entry
    ensures scan == Ok(None) ==> r.status == ScanCancelled
  {
    var cleaned := Cleanup(st);
    match scan
    case Raised(message) => cleaned.(status := ScanError(message))
    case Ok(None) => cleaned.(image := None, status := ScanCancelled)
    case Ok(Some(page)) =>
      var filename := Recommend(st, isAlnum, encoded, completion, stream);
      cleaned.(files := cleaned.files + {TempImage}, image := Some(page), filename := filename,
               entry := if filename.Some? then filename.value else "",
               imagePath := Some(TempImage), status := Scanned)
  }

  /**
   * `save_scanned_image`: nothing changes without a scanned image or with
   * an entry that strips to nothing; otherwise the stripped entry, with
   * `.jpg` appended unless it has an accepted extension, becomes the filename.
   */
  function Save(st: AppState): (r: AppState)
    ensures st.image.None? || Trim(st.entry, IsPySpace) == "" ==> r == st
    ensures st.image.Some? && Trim(st.entry, IsPySpace) != "" ==>
              r == st.(filename := Some(SavedName(st.entry)), status := SavedAs(SavedName(st.entry)))
  {
    if st.image.None? then st
    else
      var name := Trim(st.entry, IsPySpace);
      if name == "" then st
      else
        var full := SavedName(st.entry);
        st.(filename := Some(full), status := SavedAs(full))
  }

  /** The stripped entry with `.jpg` appended unless an accepted extension ends it. */
  function SavedName(entry: string): (full: string)
    ensures Trim(entry, IsPySpace) <= full
    ensures EndsWithAnyIgnoringCase(full, PyImageExtensions)
    ensures full == Trim(entry, IsPySpace) || full == Trim(entry, IsPySpace) + DefaultExtension
  {
    DefaultIsAccepted();
    WithExtension(Trim(entry, IsPySpace), PyImageExtensions)
  }

  /** `not self.scanned_image_path or not os.path.exists(self.scanned_image_path)` */
  predicate NeedsFile(st: AppState) {
    !Truthy(st.imagePath) || st.imagePath.value !in st.files
  }

  /** The status line after `upload_to_paperlessngx` returned or raised. */
  function UploadStatus(outcome: PyOutcome): (s: Status)
    ensures s == Uploaded <==> outcome.Returned? && outcome.ok
    ensures s == UploadFailed <==> outcome.Returned? && !outcome.ok
  {
    match outcome
    case Returned(ok, _, _) => if ok then Uploaded else UploadFailed
    case Threw(error) => UploadErrored(error)
  }

  /** A step of `upload_to_paperless`: the state it leaves, and the request `requests.post` was given, if any. */
  datatype UploadStep = UploadStep(state: AppState, sent: Option<PyRequest>)

  /**
   * The upload of `path` with the configured server address, token and
   * current filename. The request goes out only when the document opens.
   */
  function Send(st: AppState, path: string, post: Reply<HttpResponse>): (r: UploadStep)
    ensures r.sent.Some? <==> path in st.files
    ensures r.sent.Some? ==> r.sent.value == UploadRequest(st.apiUrl, st.apiToken, st.filename, st.platform)
    ensures r.state.imagePath == Some(path) && r.state.filename == st.filename
  {
    var upload := UploadToPaperlessngx(path, path in st.files, post);
    var sent := if path in st.files then Some(UploadRequest(st.apiUrl, st.apiToken, st.filename, st.platform)) else None;
    UploadStep(st.(imagePath := Some(path), status := UploadStatus(upload.outcome)), sent)
  }

  /**
   * `upload_to_paperless` as written. Without a usable path the user is
   * asked whether to pick a file; declining leaves `file_path` unbound, and
   * the test that reads it raises `UnboundLocalError` outside the `try`.
   * `confirm` is that answer and `chosen` the dialog's result ("" when
   * cancelled).
   */
  function UploadAsWritten(st: AppState, confirm: bool, chosen: string, post: Reply<HttpResponse>): (r: Reply<UploadStep>)
    ensures r.Raised? <==> NeedsFile(st) && !confirm
    ensures NeedsFile(st) && confirm && chosen == "" ==> r == Ok(UploadStep(st, None))
  {
    if NeedsFile(st) && !confirm then Raised("UnboundLocalError")
    else if NeedsFile(st) && chosen == "" then Ok(UploadStep(st, None))
    else Ok(Send(st, if NeedsFile(st) then chosen else st.imagePath.value, post))
  }

  /**
   * `upload_to_paperless` as intended: declining the file selection returns
   * like cancelling it does, so the transition never escapes.
   */
  function Upload(st: AppState, confirm: bool, chosen: string, post: Reply<HttpResponse>): (r: UploadStep)
    ensures NeedsFile(st) && (!confirm || chosen == "") ==> r == UploadStep(st, None)
    ensures !NeedsFile(st) ==> r.state.imagePath == st.imagePath
    ensures NeedsFile(st) && confirm && chosen != "" ==> r.state.imagePath == Some(chosen)
    ensures r.state.files == st.files && r.state.image == st.image
    ensures r.state.filename == st.filename && r.state.entry == st.entry
    ensures !(NeedsFile(st) && (!confirm || chosen == "")) ==>
              && r.state.imagePath.Some?
              && (r.sent.Some? <==> r.state.imagePath.value in st.files)
              && r.state.status
                 == UploadStatus(UploadToPaperlessngx(r.state.imagePath.value, r.state.imagePath.value in st.files, post).outcome)
    ensures r.sent.Some? ==> r.sent.value == UploadRequest(st.apiUrl, st.apiToken, st.filename, st.platform)
  {
    if NeedsFile(st) && (!confirm || chosen == "") then UploadStep(st, None)
    else Send(st, if NeedsFile(st) then chosen else st.imagePath.value, post)
  }

  // ---------------------------------------------------------------------
  // Lemmas

  /** Cleaning up twice is cleaning up once. */
  lemma {:induction false} CleanupIsIdempotent(st: AppState)
    ensures Cleanup(Cleanup(st)) == Cleanup(st)
  {
  }

  /** A scan never leaves the previous page's `tmp.jpg` behind: without a new page there is none. */
  lemma {:induction false} FailedScanLeavesNoTempImage(st: AppState, scan: Reply<Option<Image>>, isAlnum: char -> bool, encoded: bool,
                                    completion: Completion, stream: Reply<seq<Option<string>>>)
    requires scan.Raised? || scan == Ok(None)
    ensures TempImage !in Scan(st, scan, isAlnum, encoded, completion, stream).files
  {
  }

  /**
   * Round trip through save and upload: after a scanned page, a typed name
   * without an accepted extension, with a character other than a dot after
   * its last separator, is sent as the document title unchanged, to the
   * configured server with the configured token.
   */
  lemma {:induction false} SavedNameIsUploadTitle(st: AppState, confirm: bool, chosen: string, post: Reply<HttpResponse>)
    requires st.image.Some? && !NeedsFile(st)
    requires var name := Trim(st.entry, IsPySpace);
      && !EndsWithAnyIgnoringCase(name, PyImageExtensions)
      && exists i :: LastIndex(name, SepOf(st.platform)) < i < |name| && !IsDot(name[i])
    ensures var sent := Upload(Save(st), confirm, chosen, post).sent;
      && sent.Some?
      && sent.value.title == Some(Trim(st.entry, IsPySpace))
      && sent.value.url == PyStr(st.apiUrl) + DocumentEndpoint
      && sent.value.authorization == TokenScheme + PyStr(st.apiToken)
  {
    var name := Trim(st.entry, IsPySpace);
    assert Save(st).filename == Some(SavedName(st.entry));
    ExtendedNameIsTitle(name, st.platform);
  }

  /** The name part of the round trip: `.jpg` is appended and then dropped again. */
  lemma {:induction false} ExtendedNameIsTitle(name: string, platform: Platform)
    requires !EndsWithAnyIgnoringCase(name, PyImageExtensions)
    requires exists i :: LastIndex(name, SepOf(platform)) < i < |name| && !IsDot(name[i])
    ensures PyTitle(WithExtension(name, PyImageExtensions), platform) == name
  {
    DefaultIsAccepted();
    var full := WithExtension(name, PyImageExtensions);
    assert full == name + DefaultExtension;
    assert full == name + "." + "jpg";
    TitleDropsLastExtension(name, "jpg", platform);
    assert UploadRequest(None, None, Some(full), platform).title == Some(PyTitle(full, platform));
  }

  /** As written, declining the file selection escapes the handler. */
  lemma {:induction false} DecliningSelectionEscapes(st: AppState, chosen: string, post: Reply<HttpResponse>)
    requires NeedsFile(st)
    ensures UploadAsWritten(st, false, chosen, post).Raised?
    ensures Upload(st, false, chosen, post) == UploadStep(st, None)
  {
  }

  /** Everywhere else the intended upload is the upload as written. */
  lemma {:induction false} UploadAgreesWhenBound(st: AppState, confirm: bool, chosen: string, post: Reply<HttpResponse>)
    requires !NeedsFile(st) || confirm
    ensures UploadAsWritten(st, confirm, chosen, post) == Ok(Upload(st, confirm, chosen, post))
  {
  }

  /**
   * After a scanned page, an upload sends `tmp.jpg` without asking for a
   * file, with the recommended filename and the configured settings.
   */
  lemma {:induction false} ScannedPageIsUploaded(st: AppState, page: Image, isAlnum: char -> bool, encoded: bool, completion: Completion,
                              stream: Reply<seq<Option<string>>>, confirm: bool, chosen: string,
                              post: Reply<HttpResponse>)
    ensures var scanned := Scan(st, Ok(Some(page)), isAlnum, encoded, completion, stream);
      var r := Upload(scanned, confirm, chosen, post);
      && !NeedsFile(scanned)
      && r.state.imagePath == Some(TempImage)
      && r.sent == Some(UploadRequest(st.apiUrl, st.apiToken, Recommend(st, isAlnum, encoded, completion, stream), st.platform))
  {
  }
}
