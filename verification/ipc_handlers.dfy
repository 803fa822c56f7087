/**
 * The IPC handlers of the Electron main process (src/main.js). Each
 * handler turns what its collaborator produced (scanner, dialog, config
 * file, recommender, upload client) into the reply object the renderer
 * receives; an exception becomes a `success: false` reply and is never
 * passed on.
 */
module IpcHandlers {
  import opened Base
  import opened Text
  import opened Config
  import opened Sanitizer
  import opened Recommender
  import opened PaperlessClient

  /** The error `upload-to-paperless` answers when the server settings are missing. */
  const ConfigMissingMessage := "Paperless-ngx configuration missing. Please configure in Settings."

  /** The marker in the scanner's temporary file name; only such files are ever deleted. */
  const TempScanMarker := "tmp_scan"

  /** `list-scanners` */
  datatype ScannersReply = ScannersFound(scanners: seq<string>) | ScannersFailed(error: string)

  function ListScanners(scanners: Reply<seq<string>>): (r: ScannersReply)
    ensures r.ScannersFound? <==> scanners.Ok?
    ensures r.ScannersFound? ==> r.scanners == scanners.value
    ensures r.ScannersFailed? ==> r.error == scanners.message
  {
    match scanners
    case Ok(list) => ScannersFound(list)
    case Raised(message) => ScannersFailed(message)
  }

  /** `scan-document` */
  datatype ScanReply = ScanSucceeded(imagePath: string) | ScanCancelled | ScanFailed(error: string)

  /** A falsy path (none, or empty) from the scanner means the scan was cancelled. */
  function ScanDocument(scan: Reply<Option<string>>): (r: ScanReply)
    ensures r.ScanSucceeded? <==> scan.Ok? && Truthy(scan.value)
    ensures r.ScanSucceeded? ==> r.imagePath == scan.value.value && r.imagePath != ""
    ensures r.ScanCancelled? <==> scan.Ok? && !Truthy(scan.value)
    ensures r.ScanFailed? ==> r.error == scan.message
  {
    match scan
    case Raised(message) => ScanFailed(message)
    case Ok(path) => if Truthy(path) then ScanSucceeded(path.value) else ScanCancelled
  }

  /**
   * `get-filename-suggestion`: with no configuration file the answer is ""
   * and no provider is called; otherwise the dispatch of src/lib/ai.js
   * decides. Neither `loadConfig` nor the dispatch throws, so the reply is
   * always a success.
   */
  function GetFilenameSuggestion(config: Option<Settings>, fromOpenAI: Completion, fromGemini: Completion): (s: Suggestion)
    ensures config.None? ==> s == Suggestion(NoProvider, "")
    ensures config.Some? ==> s.called == SelectedProvider(config.value)
    ensures s.called == NoProvider ==> s.filename == ""
    ensures s.filename == "" || ValidJsName(s.filename)
  {
    if config.None? then Suggestion(NoProvider, "")
    else GetRecommendedFilenameJs(Get(config.value, OpenAIKey), Get(config.value, GeminiKey), fromOpenAI, fromGemini)
  }

  /** `upload-to-paperless`: the upload client's result, or a refusal without any upload. */
  datatype UploadReply = Forwarded(upload: JsUpload) | NotConfigured(error: string)

  /** The `success` field of the reply. */
  predicate Succeeded(r: UploadReply) {
    r.Forwarded? && r.upload.result.success
  }

  /** The configuration holds a truthy server address and token. */
  predicate Configured(config: Option<Settings>) {
    config.Some? && Truthy(Get(config.value, ApiUrlKey)) && Truthy(Get(config.value, ApiTokenKey))
  }

  function UploadToPaperlessHandler(config: Option<Settings>, filePath: Option<string>, filename: Option<string>,
                                    outcome: AxiosOutcome): (r: UploadReply)
    ensures r.NotConfigured? <==> !Configured(config)
    ensures r.NotConfigured? ==> r.error == ConfigMissingMessage
    ensures r.Forwarded? ==>
              r.upload == UploadToPaperless(filePath, config.value[ApiUrlKey], config.value[ApiTokenKey], filename, outcome)
  {
    if !Configured(config) then NotConfigured(ConfigMissingMessage)
    else Forwarded(UploadToPaperless(filePath, config.value[ApiUrlKey], config.value[ApiTokenKey], filename, outcome))
  }

  /** What the open-file dialog answered. */
  datatype Dialog = Dialog(canceled: bool, filePaths: seq<string>)

  /** `select-file`: the first selected path, which is `undefined` when none came back. */
  datatype SelectReply = FileSelected(filePath: Option<string>) | SelectionCancelled | SelectionFailed(error: string)

  function SelectFile(dialog: Reply<Dialog>): (r: SelectReply)
    ensures r.SelectionCancelled? <==> dialog.Ok? && dialog.value.canceled
    ensures r.SelectionFailed? <==> dialog.Raised?
    ensures r.FileSelected? ==> (r.filePath.Some? <==> |dialog.value.filePaths| > 0)
    ensures r.FileSelected? && r.filePath.Some? ==> r.filePath.value == dialog.value.filePaths[0]
  {
    match dialog
    case Raised(message) => SelectionFailed(message)
    case Ok(d) =>
      if d.canceled then SelectionCancelled
      else FileSelected(if |d.filePaths| > 0 then Some(d.filePaths[0]) else None)
  }

  /** A path `cleanup-temp` is willing to delete. */
  predicate IsTempScan(filePath: Option<string>) {
    Truthy(filePath) && Contains(filePath.value, TempScanMarker)
  }

  /**
   * `cleanup-temp`: the files left after deleting `filePath` when it is a
   * temporary scan. A failing `unlink` (the file is already gone) is
   * swallowed and leaves the files as they are.
   */
  function CleanupTemp(files: set<string>, filePath: Option<string>): (r: set<string>)
    ensures r <= files
    ensures forall f :: f in files && f !in r ==> filePath == Some(f) && IsTempScan(filePath)
    ensures IsTempScan(filePath) ==> filePath.value !in r
  {
    if IsTempScan(filePath) then files - {filePath.value} else files
  }

  // ---------------------------------------------------------------------
  // Lemmas

  /** A second cleanup of the same path finds nothing left to delete. */
  lemma {:induction false} CleanupTempIsIdempotent(files: set<string>, filePath: Option<string>)
    ensures CleanupTemp(CleanupTemp(files, filePath), filePath) == CleanupTemp(files, filePath)
  {
  }

  /** A file whose path lacks the marker, such as a document the user picked, is never deleted. */
  lemma {:induction false} UnmarkedFileIsKept(files: set<string>, filePath: string)
    requires !Contains(filePath, TempScanMarker)
    ensures CleanupTemp(files, Some(filePath)) == files
  {
  }

  /** The name the Windows backend gives every scan. */
  const TempScanFile := "tmp_scan.jpg"

  /** A scan saved under the temporary directory, whatever the directory, is deleted by the cleanup. */
  lemma {:induction false} TempScanFileIsMarked(dir: string)
    ensures IsTempScan(Some(dir + TempScanFile))
  {
    var p := dir + TempScanFile;
    assert p[|dir|..|dir| + |TempScanMarker|] == TempScanMarker;
    assert OccursAt(p, TempScanMarker, |dir|);
  }
}
