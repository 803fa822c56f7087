/**
 * The Electron renderer (src/renderer.js) as a state machine over the
 * files on disk, `currentImagePath`, `currentFilename`, the filename input
 * and the status line. Every step asks the main process through the
 * handlers of `IpcHandlers`; what their collaborators produce is an input.
 */
module Renderer {
  import opened Base
  import opened Text
  import opened Config
  import opened Paths
  import opened Recommender
  import opened PaperlessClient
  import opened Extensions
  import opened IpcHandlers

  /** What the status line says, and what the last alert reported. */
  datatype Status =
    | Idle
    | ScanDone
    | ScanWasCancelled
    | ScanFailedWith(error: string)
    | NameRequired
    | SavedAs(filename: string)
    | UploadDone
    | UploadFailedWith(reply: UploadReply)

  datatype RendererState = RendererState(
    files: set<string>,        // the files present on disk
    imagePath: Option<string>, // `currentImagePath`; `null` and `undefined` are `None`
    filename: Option<string>,  // `currentFilename`
    input: string,             // `filenameInput.value`
    status: Status)

  /** Both variables start out `null`. */
  function Start(files: set<string>): (st: RendererState)
    ensures st.imagePath.None? && st.filename.None? && st.files == files
  {
    RendererState(files, None, None, "", Idle)
  }

  /**
   * `scanDocument`: a scanned path becomes the current path and the
   * suggestion fills the input. `currentFilename` is left as it was. A
   * cancelled or failed scan changes only the status.
   */
  function ScanDocumentStep(st: RendererState, scan: Reply<Option<string>>, config: Option<Settings>,
                            fromOpenAI: Completion, fromGemini: Completion): (r: RendererState)
    ensures ScanDocument(scan).ScanSucceeded? ==>
              var path := ScanDocument(scan).imagePath;
              && r.imagePath == Some(path)
              && r.files == st.files + {path}
              && r.input == GetFilenameSuggestion(config, fromOpenAI, fromGemini).filename
              && r.status == ScanDone
    ensures !ScanDocument(scan).ScanSucceeded? ==> r == st.(status := r.status)
    ensures r.filename == st.filename
  {
    match ScanDocument(scan)
    case ScanSucceeded(path) =>
      var suggestion := GetFilenameSuggestion(config, fromOpenAI, fromGemini);
      st.(files := st.files + {path}, imagePath := Some(path),
          input := if suggestion.filename != "" then suggestion.filename else "", status := ScanDone)
    case ScanCancelled => st.(status := ScanWasCancelled)
    case ScanFailed(error) => st.(status := ScanFailedWith(error))
  }

  /**
   * `saveFilename`: a trimmed input that is empty changes nothing but the
   * alert; otherwise it becomes `currentFilename`, with `.jpg` appended
   * unless it ends in one of the accepted extensions. No scan is needed.
   */
  function SaveFilename(st: RendererState): (r: RendererState)
    ensures Trim(st.input, IsJsSpace) == "" ==> r == st.(status := NameRequired)
    ensures Trim(st.input, IsJsSpace) != "" ==>
              && r.filename.Some?
              && Trim(st.input, IsJsSpace) <= r.filename.value
              && EndsWithAnyIgnoringCase(r.filename.value, JsImageExtensions)
              && r == st.(filename := r.filename, status := SavedAs(r.filename.value))
  {
    var name := Trim(st.input, IsJsSpace);
    if name == "" then st.(status := NameRequired)
    else
      DefaultIsAccepted();
      var full := WithExtension(name, JsImageExtensions);
      st.(filename := Some(full), status := SavedAs(full))
  }

  /** `!currentImagePath || !fs.existsSync(currentImagePath)` */
  predicate NeedsFile(st: RendererState) {
    !Truthy(st.imagePath) || st.imagePath.value !in st.files
  }

  /** A step of `uploadDocument`: the state it leaves, and the request that went out, if any. */
  datatype UploadStep = UploadStep(state: RendererState, sent: Option<JsRequest>)

  /** The path `uploadDocument` uploads, or `None` when it returns early after the file selection. */
  function UploadPath(st: RendererState, dialog: Reply<Dialog>): (path: Option<Option<string>>)
    ensures !NeedsFile(st) ==> path == Some(st.imagePath)
    ensures NeedsFile(st) ==> (path.Some? <==> SelectFile(dialog).FileSelected?)
    ensures NeedsFile(st) && path.Some? ==> path.value == SelectFile(dialog).filePath
  {
    if !NeedsFile(st) then Some(st.imagePath)
    else match SelectFile(dialog)
      case FileSelected(p) => Some(p)
      case _ => None
  }

  /**
   * `uploadDocument`. Without a usable path a file is selected first, and a
   * cancelled or failed selection returns with nothing changed. After a
   * successful upload the path is cleaned up and both variables become
   * `null`; after a failure they keep their values.
   */
  function UploadDocument(st: RendererState, dialog: Reply<Dialog>, config: Option<Settings>,
                          outcome: AxiosOutcome): (r: UploadStep)
    ensures UploadPath(st, dialog).None? ==> r == UploadStep(st, None)
    ensures UploadPath(st, dialog).Some? ==>
              var path := UploadPath(st, dialog).value;
              var reply := UploadToPaperlessHandler(config, path, st.filename, outcome);
              && r.sent == (if reply.Forwarded? then reply.upload.sent else None)
              && (Succeeded(reply) ==>
                    r.state == RendererState(CleanupTemp(st.files, path), None, None, st.input, UploadDone))
              && (!Succeeded(reply) ==>
                    r.state == st.(imagePath := path, status := UploadFailedWith(reply)))
  {
    match UploadPath(st, dialog)
    case None => UploadStep(st, None)
    case Some(path) =>
      var reply := UploadToPaperlessHandler(config, path, st.filename, outcome);
      var sent := if reply.Forwarded? then reply.upload.sent else None;
      if Succeeded(reply) then
        UploadStep(RendererState(CleanupTemp(st.files, path), None, None, st.input, UploadDone), sent)
      else
        UploadStep(st.(imagePath := path, status := UploadFailedWith(reply)), sent)
  }

  // ---------------------------------------------------------------------
  // Lemmas

  /** Without a configuration file the input is emptied. */
  lemma {:induction false} ScanWithoutConfigurationSuggestsNothing(st: RendererState, path: string, fromOpenAI: Completion, fromGemini: Completion)
    requires path != ""
    ensures ScanDocumentStep(st, Ok(Some(path)), None, fromOpenAI, fromGemini).input == ""
  {
  }

  /** Only the selected provider's answer can reach the input. */
  lemma {:induction false} ScanUsesSelectedProvider(st: RendererState, path: string, config: Settings,
                                 fromOpenAI: Completion, fromGemini: Completion)
    requires path != ""
    ensures var input := ScanDocumentStep(st, Ok(Some(path)), Some(config), fromOpenAI, fromGemini).input;
      && (SelectedProvider(config) == OpenAI ==> input == ProviderFilename(fromOpenAI))
      && (SelectedProvider(config) == Gemini ==> input == ProviderFilename(fromGemini))
      && (SelectedProvider(config) == NoProvider ==> input == "")
  {
  }

  /** A cancelled or failed selection uploads nothing and changes nothing. */
  lemma {:induction false} DeclinedSelectionUploadsNothing(st: RendererState, dialog: Reply<Dialog>, config: Option<Settings>,
                                        outcome: AxiosOutcome)
    requires NeedsFile(st)
    requires dialog.Raised? || dialog.value.canceled
    ensures UploadDocument(st, dialog, config, outcome) == UploadStep(st, None)
  {
  }

  /** Without a server address and token no request goes out, and the variables keep their values. */
  lemma {:induction false} NoRequestWithoutConfiguration(st: RendererState, dialog: Reply<Dialog>, config: Option<Settings>,
                                      outcome: AxiosOutcome)
    requires !Configured(config)
    ensures var r := UploadDocument(st, dialog, config, outcome);
      r.sent.None? && r.state.filename == st.filename && r.state.files == st.files
  {
  }

  /**
   * Round trip through save and upload: a typed name with no accepted
   * extension, no slash and a character other than a dot is sent as the
   * document title unchanged.
   */
  lemma {:induction false} SavedFilenameIsUploadTitle(st: RendererState, apiUrl: string, apiToken: string)
    requires var name := Trim(st.input, IsJsSpace);
      && !EndsWithAnyIgnoringCase(name, JsImageExtensions)
      && (forall i :: 0 <= i < |name| ==> !IsSlash(name[i]))
      && (exists i :: 0 <= i < |name| && !IsDot(name[i]))
    ensures UploadRequestJs(apiUrl, apiToken, SaveFilename(st).filename).title == Some(Trim(st.input, IsJsSpace))
  {
    var name := Trim(st.input, IsJsSpace);
    DefaultIsAccepted();
    assert name != "";
    assert name + DefaultExtension == name + "." + "jpg";
    TitleAgreesWithPython(name, "jpg", apiUrl, apiToken);
  }

  /**
   * A page scanned to the Windows backend's temporary file and then
   * uploaded successfully leaves no temporary file behind, and the next
   * upload asks for a file again.
   */
  lemma {:induction false} UploadedScanIsCleanedUp(st: RendererState, dir: string, config: Option<Settings>,
                                fromOpenAI: Completion, fromGemini: Completion,
                                dialog: Reply<Dialog>, status: nat, data: Json)
    requires Configured(config) && IsSuccessStatus(status)
    ensures var path := dir + TempScanFile;
      var scanned := ScanDocumentStep(st, Ok(Some(path)), config, fromOpenAI, fromGemini);
      var uploaded := UploadDocument(scanned, dialog, config, Responded(status, data)).state;
      && path in scanned.files
      && path !in uploaded.files
      && NeedsFile(uploaded)
  {
    TempScanFileIsMarked(dir);
  }
}
