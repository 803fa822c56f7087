# Paperless-Scanner in Dafny

Paperless-Scanner scans a page, asks an AI provider (OpenAI or Google
Gemini) for a filename, and uploads the page to a Paperless-ngx server.
It has two front ends:

- a Tk desktop application in Python (`app.py`, `configwindow.py`,
  `lib/ai.py`, `lib/scanner.py`, with the older copies `ai.py` and
  `scanner.py`);
- an Electron application in JavaScript (`src/renderer.js`,
  `src/main.js`, `src/lib/ai.js`, `src/lib/paperless.js`).

This project models the logic both front ends are built on, and proves
properties about it:

- the three filename sanitisers and the provider dispatch;
- building the upload request and mapping its outcome;
- the provider-exclusivity rule of the two settings dialogs;
- the scan / save / upload / cleanup state machines of both front ends,
  and the Electron IPC handlers between them.

Hardware, AI SDKs, HTTP and widgets are outside the model. What they
produce becomes an input of the modelled functions:

- a scan result;
- a chat completion or a stream of chunks;
- an HTTP response or transport error;
- a dialog answer.

Files, one module each:

| file | module | models |
|---|---|---|
| base.dfy | `Base` | optional values, external call outcomes, JSON values, truthiness |
| text.dfy | `Text` | `strip`/`trim`, character filters and replacement, `includes`, ASCII lower-casing |
| config.dfy | `Config` | the configuration keys and the provider precedence rule |
| sanitizer.dfy | `Sanitizer` | the Python cleaning of `apirequest` and the JavaScript `cleanFilename` |
| recommender.dfy | `Recommender` | the recommenders of lib/ai.py, ai.py and src/lib/ai.js |
| paths.dfy | `Paths` | `os.path.splitext(p)[0]` and Node's `path.parse(p).name` |
| scanner_client.dfy | `ScannerClient` | backend selection and upload in lib/scanner.py and scanner.py |
| paperless_client.dfy | `PaperlessClient` | `uploadToPaperless` of src/lib/paperless.js |
| settings.dfy | `Settings` | saving the settings in configwindow.py and src/renderer.js |
| extensions.dfy | `Extensions` | the `.jpg` default extension rule of both save steps |
| desktop_app.dfy | `DesktopApp` | the Tk application of app.py as a state machine |
| ipc_handlers.dfy | `IpcHandlers` | the IPC handlers of src/main.js |
| renderer.dfy | `Renderer` | the Electron renderer of src/renderer.js as a state machine |

lib/scanner.py calls `response.json()` for every status, so an answer
whose body is not JSON raises even with status 200. In
`ScannerClient.UploadToPaperlessngx` such a body yields
`Threw(JsonDecodeError)`.

## Model

| member | source | states |
|---|---|---|
| Sanitizer.PySanitize | lib/ai.py:72-84 | `None` exactly when the cleaned text is empty or longer than 50; otherwise the cleaned text, all alphanumeric, `_` or `-` under the given `isalnum`, and with no space or quote under any classification Python can have |
| Sanitizer.PySanitizeKeepsValidNames | lib/ai.py:72-84 | a name of 1..50 allowed characters is returned unchanged |
| Sanitizer.PySanitizeIsStable | lib/ai.py:72-84 | sanitising a recommendation again yields the same recommendation |
| Sanitizer.PyPaddingIgnored | lib/ai.py:72-75 | whitespace and quotes around the answer do not change the result |
| Sanitizer.SpaceBecomesUnderscore | lib/ai.py:78-79 | each space of the quote-free, stripped text becomes exactly one `_` at its place |
| Sanitizer.StripBeforeQuotesIsRedundant | lib/ai.py:72-75 | the strip before the quote removal makes no difference to the stripped result |
| Sanitizer.PySanitizeTypicalAnswer | tests/test_ai.py:45-52 | `" w1 w2 stem.ext "` sanitises to `w1_w2_stemext` when that is at most 50 characters |
| Sanitizer.PySanitizeTestAnswer | tests/test_ai.py:45-52 | `" Test Document 2025.pdf "` sanitises to `Test_Document_2025pdf`, whatever the rest of Python's `isalnum` classification is |
| Sanitizer.PyNameHasNoSeparators | lib/ai.py:79 | an answer made of allowed characters has no space and no quote |
| Sanitizer.CleanFilename | src/lib/ai.js:21-37 | result only `[A-Za-z0-9_-]`, never empty; `document` for an empty filtered text, the filtered text up to 50 characters, its first 50 characters beyond |
| Sanitizer.CleanFilenameKeepsValidNames | src/lib/ai.js:21-37 | a name of 1..50 characters from `[A-Za-z0-9_-]` is returned unchanged |
| Sanitizer.CleanFilenameIdempotent | src/lib/ai.js:21-37 | cleaning a cleaned filename changes nothing |
| Sanitizer.CleanFilenamePaddingIgnored | src/lib/ai.js:23-26 | whitespace and quotes around the answer do not change the result, so no `_` comes from them |
| Sanitizer.CleanFilenameTypicalAnswer | src/lib/ai.js:21-37 | `" w1 w2 stem.ext "` cleans to `w1_w2_stemext`, cut to its first 50 characters |
| Sanitizer.TrimBeforeCleanIsRedundant | src/lib/ai.js:77-78 | the provider's `trim()` before `cleanFilename` makes no difference |
| Recommender.ApiRequest | lib/ai.py:33-84 | raises exactly when the completion has no text; otherwise the sanitised text |
| Recommender.GetRecommendedFilename | lib/ai.py:23-31 | `None` on any failure (file, call, no text); otherwise the sanitised answer |
| Recommender.FromPilImage | lib/ai.py:98-108 | `""` exactly on a failure; otherwise the sanitised answer |
| Recommender.ConcatChunks | lib/ai.py:140-148 | no chunks give `""` |
| Recommender.ConcatChunksAppend | lib/ai.py:140-148 | chunk texts are joined in stream order |
| Recommender.ConcatChunksSingle | lib/ai.py:148 | a chunk contributes its text, or `""` when it has none |
| Recommender.GeminiFromPilImage | lib/ai.py:129-154 | `""` when encoding or the stream raises; otherwise the concatenated chunks |
| Recommender.GeminiIsNotCleaned | lib/ai.py:148-150 | the Gemini answer reaches the caller unsanitised |
| Recommender.LegacyGetRecommendedFilename | ai.py:20-71 | `None` on any failure; otherwise a valid name or `None` |
| Recommender.LegacyGetRecommendedFilenameAgrees | ai.py:54-71 | the older file recommender returns exactly what the newer one does |
| Recommender.LegacyFromPilImage | ai.py:85-137 | `None` on any failure; otherwise a valid name or `None` |
| Recommender.LegacyFromPilImageDiffersOnlyOnError | ai.py:135-137 | the older image recommender differs from the newer one only by `None` instead of `""` on failure |
| Recommender.ProviderFilename | src/lib/ai.js:77-83 | `""` exactly when the call failed or gave no text; otherwise the cleaned answer |
| Recommender.GetRecommendedFilenameJs | src/lib/ai.js:129-137 | OpenAI when its key is truthy, else Gemini when its key is truthy, else `""` with no call; the answer is `""` or a valid name |
| Config.ActiveProvider | app.py:279-284 | OpenAI exactly when its key is truthy; Gemini exactly when only the Gemini key is truthy |
| Config.ParseProvider | configwindow.py:343-357 | `openai` and `gemini` name their providers; every other radio value means none |
| Config.ParseProviderName | configwindow.py:343-357 | reading back the stored radio value gives the provider |
| Config.SelectedProviderHasKey | src/lib/ai.js:129-137 | a selected provider has a non-empty key in the configuration |
| Paths.SplitExtRoot | lib/scanner.py:34 | the root is the name cut at its last dot exactly when some character between the last separator and that dot is not a dot; so `.bashrc` and `a/.b` are kept whole; anything cut off starts with a dot and has no further dot or separator |
| Paths.SplitExtRootRemovesExtension | lib/scanner.py:34 | `stem.ext` gives `stem` when `ext` has no dot or separator and `stem`'s last component has a non-dot character |
| Paths.NodeParseName | src/lib/paperless.js:21 | the name is a prefix of the last component once trailing slashes are dropped; anything cut off starts with a dot and has no further dot; a component with a non-dot before its last dot is cut there, and one whose only dot leads it is kept |
| Paths.NameOfBase | src/lib/paperless.js:21 | the name is a prefix of the base; anything cut off starts with a dot and has no further dot |
| Paths.NodeNameOfPlain | src/lib/paperless.js:21 | `path.parse("stem.ext").name` is `stem` for slash-free names with a non-dot character |
| Paths.TitlesAgreeOnPlainNames | src/lib/paperless.js:20-23 | on such names the Node and Python titles agree |
| Paths.TitlesDifferOnLeadingDots | src/lib/paperless.js:21 | on `..c` Python keeps the name and Node gives `.` |
| Paths.NodeNameOfRootParent | src/lib/paperless.js:21 | Node's name of `/..` is `.` |
| Paths.DotFilesKeepTheirNames | lib/scanner.py:34 | a dot file such as `.bashrc` keeps its whole name as title in both clients |
| ScannerClient.BackendFor | lib/scanner.py:10-13 | the Windows backend exactly on `nt` |
| ScannerClient.Delegate | lib/scanner.py:15-19 | `list_scanners`/`scan_image` pass on the selected backend's value or exception |
| ScannerClient.LegacyScanImage | scanner.py:17-32 | no image: `None` and no file written; an image is returned after `tmp.jpg` is written |
| ScannerClient.UploadRequest | lib/scanner.py:22-37 | URL is the server address plus the endpoint, header `Token ` plus the token; a title exactly for a truthy filename, and it is `os.path.splitext(filename)[0]` |
| ScannerClient.UrlKeepsServerAddress | lib/scanner.py:37 | the server address is recovered from the URL by dropping the endpoint |
| ScannerClient.HeaderKeepsToken | lib/scanner.py:23-25 | the token is recovered from the header by dropping `Token ` |
| ScannerClient.TitleDropsLastExtension | lib/scanner.py:31-35 | `mydoc.pdf` is sent with the title `mydoc`: only the last extension goes |
| ScannerClient.UploadToPaperlessngx | lib/scanner.py:22-45 | a missing file raises before a handle exists; a raising POST leaves the handle open; a returning POST closes it; 200 gives `(True, None, None)`, another status `(False, status, json)`; a non-JSON body raises |
| ScannerClient.OutcomeOf | lib/scanner.py:40-45 | raises exactly when the body is not JSON |
| ScannerClient.LegacyUploadRequest | scanner.py:35-42 | the same URL and header, never a title |
| ScannerClient.LegacyRequestAgrees | scanner.py:35-42 | without a filename both copies build the same request |
| ScannerClient.LegacyUploadToPaperlessngx | scanner.py:35-48 | the same outcomes; the handle is never closed |
| ScannerClient.LegacyOutcomeAgrees | scanner.py:39-48 | both copies return and raise alike and differ only in closing the handle |
| PaperlessClient.UploadRequestJs | src/lib/paperless.js:17-34 | URL and `Token ` header as in Python; a title exactly for a truthy filename, and it is `path.parse(filename).name`, a prefix of the last component |
| PaperlessClient.UploadToPaperless | src/lib/paperless.js:14-51 | a missing path fails before any request; otherwise the request is sent and the result mapped; it never rejects |
| PaperlessClient.ResultOf | src/lib/paperless.js:25-50 | success exactly on a response axios resolves (a 2xx status, or none at all), with its status and data; a rejected response gives its status and its data when truthy or the error message; no response gives `null` and the error message |
| PaperlessClient.StatuslessResponseSucceeds | src/lib/paperless.js:25-41 | a response with status `0` is resolved by axios and reported as a success with status code `0` |
| PaperlessClient.StatusErrorMessage | src/lib/paperless.js:48 | the message of a rejected status begins `Request failed with status code ` |
| PaperlessClient.StatusErrorMessageNamesStatus | src/lib/paperless.js:48 | the status reads back out of that message |
| PaperlessClient.DecimalRoundTrip | src/lib/paperless.js:48 | a number's decimal digits read back as the number |
| PaperlessClient.TitleAgreesWithPython | src/lib/paperless.js:20-23 | a plain `name.ext` gets the title `name`, the title the Python client sends |
| PaperlessClient.CreatedIsSuccessOnlyHere | src/lib/paperless.js:37-41 | status 201 succeeds here and fails in lib/scanner.py |
| Settings.Collected | configwindow.py:336-340 | exactly the entries whose stripped value is non-empty, with the stripped value |
| Settings.SaveConfig | configwindow.py:332-357 | a collected entry survives unless it is an AI key other than the selected provider's |
| Settings.SaveConfigKeepsOneAIKey | configwindow.py:342-357 | at most one AI key is saved |
| Settings.SaveConfigKeepsServerSettings | configwindow.py:342-357 | the provider branch never touches `api_url` or `api_token` |
| Settings.CollectedIsStable | configwindow.py:336-340 | collecting already saved values again changes nothing |
| Settings.Clear | configwindow.py:245-246 | empties one entry, if present; nothing else changes |
| Settings.OnProviderChange | configwindow.py:236-260 | the other provider's entry is emptied, both for `none`; nothing else changes |
| Settings.ClearingBeforeSavingIsRedundant | configwindow.py:236-260 | emptying the entries on a provider change does not change what is saved |
| Settings.SavedProviderIsReselected | configwindow.py:103-108 | reopening the dialog after a save selects the saved provider when its entry was non-empty, else none |
| Settings.InitialProvider | configwindow.py:103-108 | the initial radio value is the provider the configuration selects |
| Settings.SaveConfiguration | src/renderer.js:214-233 | both trimmed server fields always; the selected provider's trimmed key only when non-empty; nothing else |
| Settings.SaveConfigurationKeepsOneAIKey | src/renderer.js:222-233 | at most one AI key is saved |
| Settings.SavedProviderIsReselectedJs | src/renderer.js:183-189 | loading a saved form selects the provider whose key was saved |
| Settings.LoadConfigToUI | src/renderer.js:172-189 | the fields show the stored values or `""`; the radio shows the selected provider |
| Settings.InitialProvidersAgree | src/renderer.js:183-189 | the Python dialog and the Electron form start with the same provider |
| Settings.LoadThenSaveRoundTrip | src/renderer.js:172-233 | loading a saved configuration into the form and saving it returns it unchanged |
| Settings.SavedFormIsFormShaped | src/renderer.js:217-233 | every saved form has that shape |
| Extensions.WithExtension | app.py:314-316 | the name is kept exactly when it ends in an accepted extension, in any case; else `.jpg` is appended |
| Extensions.WithExtensionIsIdempotent | app.py:315-316 | saving twice never appends twice |
| Extensions.PdfIsKeptOnlyByElectron | src/renderer.js:110-114 | `x.pdf` is kept by the Electron save and extended by the Tk save |
| DesktopApp.Launch | app.py:418-421 | start-up removes `tmp.jpg` and starts with no image and an empty filename |
| DesktopApp.Cleanup | app.py:229-231 | only `tmp.jpg` is removed; a no-op when it is absent |
| DesktopApp.CleanupIsIdempotent | app.py:229-231 | cleaning up twice is cleaning up once |
| DesktopApp.Recommend | app.py:279-284 | OpenAI's answer when its key is truthy, else Gemini's, else `""` with no call |
| DesktopApp.Scan | app.py:262-300 | `tmp.jpg` is removed first; a page sets the path to `tmp.jpg`, the recommendation and the entry; no page changes no path, filename or entry |
| DesktopApp.FailedScanLeavesNoTempImage | app.py:269-274 | a scan without a new page leaves no `tmp.jpg` |
| DesktopApp.Save | app.py:302-320 | no image or a blank name changes nothing; else the stripped name, extended, becomes the filename |
| DesktopApp.SavedName | app.py:308-316 | the stripped entry, possibly with `.jpg`, always ending in an accepted extension |
| DesktopApp.SavedNameIsUploadTitle | app.py:302-320 | after a scanned page, a saved name without an accepted extension is uploaded with the typed name as title, to the configured server with the configured token |
| DesktopApp.UploadStatus | app.py:390-397 | "uploaded" exactly when the upload returned success; "failed" exactly when it returned failure |
| DesktopApp.Send | app.py:385-397 | the request goes out exactly when the document opens, to the configured address with the configured token and the current filename |
| DesktopApp.UploadAsWritten | app.py:373-401 | declining the file selection raises `UnboundLocalError`; cancelling the dialog returns unchanged |
| DesktopApp.DecliningSelectionEscapes | app.py:376-384 | as written declining escapes; the corrected upload returns unchanged |
| DesktopApp.Upload | app.py:373-401 | no usable path and no chosen file: nothing changes and nothing is sent; otherwise the path is uploaded with `self.api_url`, `self.api_token` and `self.filename`, and the status reflects the outcome |
| DesktopApp.UploadAgreesWhenBound | app.py:373-401 | wherever the variable is bound, the corrected upload is the upload as written |
| DesktopApp.ScannedPageIsUploaded | app.py:289 | after a scanned page, an upload sends `tmp.jpg` without asking, with the recommended filename |
| IpcHandlers.ListScanners | src/main.js:48-55 | the scanners, or the error; never an exception |
| IpcHandlers.ScanDocument | src/main.js:57-67 | success exactly for a truthy path; cancelled exactly for a falsy one; an exception becomes an error |
| IpcHandlers.GetFilenameSuggestion | src/main.js:69-80 | no configuration: `""` with no provider call; else the selected provider's answer |
| IpcHandlers.UploadToPaperlessHandler | src/main.js:82-103 | refused exactly when the configuration, `api_url` or `api_token` is missing; otherwise the upload client's result |
| IpcHandlers.SelectFile | src/main.js:123-142 | cancelled exactly for a cancelled dialog; else the first selected path, if any |
| IpcHandlers.CleanupTemp | src/main.js:144-152 | only a truthy path containing `tmp_scan` is deleted; nothing else is |
| IpcHandlers.CleanupTempIsIdempotent | src/main.js:144-152 | a second cleanup of the same path changes nothing |
| IpcHandlers.UnmarkedFileIsKept | src/main.js:146 | a path without `tmp_scan` is never deleted |
| IpcHandlers.TempScanFileIsMarked | src/main.js:146 | the scanner's `tmp_scan.jpg`, in any directory, is deleted by the cleanup |
| Renderer.Start | src/renderer.js:20-22 | both variables start out `null` |
| Renderer.ScanDocumentStep | src/renderer.js:70-98 | a scanned path becomes current and the suggestion fills the input; otherwise only the status changes; `currentFilename` is never touched |
| Renderer.ScanWithoutConfigurationSuggestsNothing | src/renderer.js:80-86 | without a configuration the input is emptied |
| Renderer.ScanUsesSelectedProvider | src/renderer.js:80-86 | only the selected provider's answer reaches the input |
| Renderer.SaveFilename | src/renderer.js:101-118 | a blank input changes nothing; otherwise the trimmed input, extended, becomes `currentFilename`; no scan is needed |
| Renderer.SavedFilenameIsUploadTitle | src/renderer.js:110-114 | a saved name without an accepted extension is uploaded with the typed name as title |
| Renderer.UploadPath | src/renderer.js:123-130 | the current path when usable, else the selected file; none after a cancelled or failed selection |
| Renderer.UploadDocument | src/renderer.js:121-151 | a failed selection changes nothing; a success cleans up and resets both variables; a failure keeps them |
| Renderer.DeclinedSelectionUploadsNothing | src/renderer.js:123-130 | a cancelled or failed selection sends nothing and changes nothing |
| Renderer.NoRequestWithoutConfiguration | src/main.js:85-90 | without a server address and token no request goes out and the filename is kept |
| Renderer.UploadedScanIsCleanedUp | src/renderer.js:135-146 | a scanned `tmp_scan.jpg` uploaded successfully is deleted, and the next upload asks for a file |

## Left out

- Scanner backends (WIA, pyinsane2, Edge.js) and `list_scanners`/`scan_image` beyond delegation: hardware drivers. A scan is an input (`Reply<Option<Image>>`, `Reply<Option<string>>`).
- A backend that raises after writing `tmp.jpg`: treated as writing nothing, because the backends are not modelled.
- The AI SDK calls, the prompts, model names, `max_tokens`, and the JPEG/base64 encoding: external services. The completion, the chunk stream, or whether encoding succeeded, is an input.
- HTTP and multipart transport (`requests.post`, axios, form-data): the response or transport error is an input. The document bytes are not modelled.
- Config file I/O (`load_config` in app.py and configwindow.py, src/lib/config.js, YAML). The loaded values are parameters of `DesktopApp.Launch` and of the IPC handlers. The YAML write after `save_config` is not modelled.
- `load_config` in app.py raising `KeyError` when `api_url` or `api_token` is absent: file I/O at start-up, outside the modelled transitions.
- The `load-config` and `save-config` IPC handlers: file I/O around `loadConfig`/`saveConfig`.
- The `catch` branches of `get-filename-suggestion` and `upload-to-paperless`: `loadConfig` and the functions they call never throw, so those branches cannot be reached.
- Tk and DOM widgets, message boxes, hover bindings, `center_window`, the scanner list UI, and `display_image_object` (floating-point resize ratios): presentation only. Message boxes are reduced to the status they leave.
- Sanitizer.PySanitize: Python's `isalnum` comes from the Unicode database of the running interpreter. It is a parameter; the model relies only on ASCII letters and digits being alphanumeric, and whitespace, quotes and the dot not being.
- Paths.NodeParseName: only Node's POSIX `path.parse` is modelled. On Windows Electron uses `path.win32`, which also splits at `\` and drive letters.
- DesktopApp.Upload: whether the chosen file exists is taken from the model's file set. A file the open dialog returns is assumed to be readable.

## Findings

| source | as written | input that shows it | evidently intended | confidence | as-written member | corrected member |
|---|---|---|---|---|---|---|
| app.py:376-384 | `file_path` is assigned only when the user agrees to pick a file, but it is tested whatever the answer. The test is outside the `try`, so `UnboundLocalError` escapes the button handler | no scanned image, and "Cancel" on the "select an existing file?" question | declining returns like cancelling the file dialog does | high, not executed | DesktopApp.UploadAsWritten (DesktopApp.DecliningSelectionEscapes) | DesktopApp.Upload (DesktopApp.UploadAgreesWhenBound) |
