/**
 * The Python scanner client (lib/scanner.py and its older copy
 * scanner.py): choosing the scanner backend by operating system, and
 * uploading a document to Paperless-ngx. The HTTP transport is outside
 * the model; an upload receives what `requests.post` produced (a
 * response, or an exception) and the model decides what the client
 * returns and what becomes of the opened document handle.
 */
module ScannerClient {
  import opened Base
  import opened Text
  import opened Paths

  /** The path every upload is posted to, appended to the configured server address. */
  const DocumentEndpoint := "/api/documents/post_document/"

  /** The scheme word in front of the token in the `Authorization` header. */
  const TokenScheme := "Token "

  /** The file the scanner backends write a scanned page to. */
  const TempImage := "tmp.jpg"

  // ---------------------------------------------------------------------
  // Backend selection and delegation

  /** The module bound to `scanclient` when lib/scanner.py is imported. */
  datatype Backend = WindowsBackend | LinuxBackend

  function BackendFor(platform: Platform): (b: Backend)
    ensures b == WindowsBackend <==> platform == Nt
  {
    if platform == Nt then WindowsBackend else LinuxBackend
  }

  /**
   * `list_scanners()` and `scan_image()` of lib/scanner.py: whatever the
   * selected backend answers, value or exception, is passed on unchanged.
   * Both backends' answers are supplied; only the selected one is used.
   */
  function Delegate<T>(osName: string, fromWindows: Reply<T>, fromLinux: Reply<T>): (r: Reply<T>)
    ensures osName == "nt" ==> r == fromWindows
    ensures osName != "nt" ==> r == fromLinux
  {
    match BackendFor(PlatformOf(osName))
    case WindowsBackend => fromWindows
    case LinuxBackend => fromLinux
  }

  /**
   * `scan_image()` of scanner.py: the acquisition dialog yields an image
   * or nothing; an image is saved to `tmp.jpg` before it is returned,
   * nothing leaves the files as they were.
   */
  function LegacyScanImage<Image>(acquired: Option<Image>, files: set<string>): (r: (Option<Image>, set<string>))
    ensures r.0 == acquired
    ensures acquired.None? ==> r.1 == files
    ensures acquired.Some? ==> TempImage in r.1 && r.1 - {TempImage} == files - {TempImage}
  {
    if acquired.None? then (None, files) else (acquired, files + {TempImage})
  }

  // ---------------------------------------------------------------------
  // The upload request

  /** How an f-string renders an optional text: `None` renders as the word `None`. */
  function PyStr(v: Option<string>): (r: string)
    ensures v.Some? ==> r == v.value
    ensures v.None? ==> r == "None"
  {
    if v.Some? then v.value else "None"
  }

  /** What `requests.post` is asked to send. `title` is the only form field besides the document. */
  datatype PyRequest = PyRequest(url: string, authorization: string, title: Option<string>)

  /**
   * lib/scanner.py `upload_to_paperlessngx`: the URL and header are built
   * from the configured values, and a title, the filename without its
   * last extension, is added only for a truthy filename.
   */
  function UploadRequest(apiUrl: Option<string>, apiToken: Option<string>, filename: Option<string>,
                         platform: Platform): (r: PyRequest)
    ensures r.url == PyStr(apiUrl) + DocumentEndpoint
    ensures r.authorization == TokenScheme + PyStr(apiToken)
    ensures r.title.Some? <==> Truthy(filename)
    ensures r.title.Some? ==> r.title.value == PyTitle(filename.value, platform)
    ensures r.title.Some? ==> r.title.value <= filename.value
  {
    var title := if Truthy(filename) then Some(PyTitle(filename.value, platform)) else None;
    PyRequest(PyStr(apiUrl) + DocumentEndpoint, TokenScheme + PyStr(apiToken), title)
  }

  /** scanner.py `upload_to_paperlessngx`: the same URL and header, and never a title. */
  function LegacyUploadRequest(apiUrl: Option<string>, apiToken: Option<string>): (r: PyRequest)
    ensures r.title.None?
    ensures r.url == PyStr(apiUrl) + DocumentEndpoint
    ensures r.authorization == TokenScheme + PyStr(apiToken)
  {
    PyRequest(PyStr(apiUrl) + DocumentEndpoint, TokenScheme + PyStr(apiToken), None)
  }

  // ---------------------------------------------------------------------
  // The upload outcome

  /** What the server's response body is to `response.json()`. */
  datatype Body = JsonBody(json: Json) | NotJson

  datatype HttpResponse = HttpResponse(status: int, body: Body)

  /** The exceptions an upload lets escape. */
  datatype UploadError =
    | FileNotFound(path: string)      // `open(file_path, "rb")` failed
    | TransportError(message: string) // `requests.post` raised
    | JsonDecodeError                 // `response.json()` found no JSON in the body

  /** The tuple `(success, status_code, response_json)`, or the exception raised instead. */
  datatype PyOutcome =
    | Returned(ok: bool, statusCode: Option<int>, body: Option<Json>)
    | Threw(error: UploadError)

  /** What became of the document handle opened for the request. */
  datatype Handle = NotOpened | LeftOpen | Closed

  datatype PyUpload = PyUpload(outcome: PyOutcome, handle: Handle)

  /**
   * lib/scanner.py `upload_to_paperlessngx` after the request is built.
   * `fileExists` says whether opening the document succeeds; `post` is what
   * `requests.post` produced. The handle is closed right after a POST that
   * returns, and left open when the POST raises. Both branches call
   * `response.json()`, so a body that is not JSON raises even on status 200.
   */
  function UploadToPaperlessngx(filePath: string, fileExists: bool, post: Reply<HttpResponse>): (u: PyUpload)
    ensures !fileExists ==> u == PyUpload(Threw(FileNotFound(filePath)), NotOpened)
    ensures fileExists && post.Raised? ==> u == PyUpload(Threw(TransportError(post.message)), LeftOpen)
    ensures fileExists && post.Ok? ==> u.handle == Closed
    ensures u.outcome.Returned? <==> fileExists && post.Ok? && post.value.body.JsonBody?
    ensures u.outcome.Returned? ==> (u.outcome.ok <==> post.value.status == 200)
    ensures u.outcome.Returned? && u.outcome.ok ==> u.outcome.statusCode.None? && u.outcome.body.None?
    ensures u.outcome.Returned? && !u.outcome.ok
            ==> u.outcome.statusCode == Some(post.value.status) && u.outcome.body == Some(post.value.body.json)
  {
    if !fileExists then PyUpload(Threw(FileNotFound(filePath)), NotOpened)
    else match post
      case Raised(message) => PyUpload(Threw(TransportError(message)), LeftOpen)
      case Ok(response) => PyUpload(OutcomeOf(response), Closed)
  }

  /** The status test and the `response.json()` calls shared by both copies of the client. */
  function OutcomeOf(response: HttpResponse): (o: PyOutcome)
    ensures o.Threw? <==> response.body.NotJson?
    ensures o.Threw? ==> o.error == JsonDecodeError
  {
    match response.body
    case NotJson => Threw(JsonDecodeError)
    case JsonBody(json) =>
      if response.status == 200 then Returned(true, None, None)
      else Returned(false, Some(response.status), Some(json))
  }

  /**
   * scanner.py `upload_to_paperlessngx`: the same outcome, but the handle is
   * never closed, on any path that opened it.
   */
  function LegacyUploadToPaperlessngx(filePath: string, fileExists: bool, post: Reply<HttpResponse>): (u: PyUpload)
    ensures u.handle == (if fileExists then LeftOpen else NotOpened)
    ensures !fileExists ==> u.outcome == Threw(FileNotFound(filePath))
    ensures fileExists && post.Raised? ==> u.outcome == Threw(TransportError(post.message))
    ensures fileExists && post.Ok? ==> u.outcome == OutcomeOf(post.value)
  {
    if !fileExists then PyUpload(Threw(FileNotFound(filePath)), NotOpened)
    else match post
      case Raised(message) => PyUpload(Threw(TransportError(message)), LeftOpen)
      case Ok(response) => PyUpload(OutcomeOf(response), LeftOpen)
  }

  // ---------------------------------------------------------------------
  // Lemmas

  /** The configured server address is recovered from the URL by dropping the endpoint. */
  lemma {:induction false} UrlKeepsServerAddress(apiUrl: string, apiToken: Option<string>, filename: Option<string>, platform: Platform)
    ensures var url := UploadRequest(Some(apiUrl), apiToken, filename, platform).url;
      EndsWith(url, DocumentEndpoint) && url[..|url| - |DocumentEndpoint|] == apiUrl
  {
    var url := apiUrl + DocumentEndpoint;
    assert url[..|apiUrl|] == apiUrl;
    assert url[|url| - |DocumentEndpoint|..] == DocumentEndpoint;
  }

  /** The token is recovered from the header by dropping the scheme word. */
  lemma {:induction false} HeaderKeepsToken(apiUrl: Option<string>, apiToken: string, filename: Option<string>, platform: Platform)
    ensures var h := UploadRequest(apiUrl, Some(apiToken), filename, platform).authorization;
      h[..|TokenScheme|] == TokenScheme && h[|TokenScheme|..] == apiToken
  {
    var h := TokenScheme + apiToken;
    assert h[|TokenScheme|..] == apiToken;
  }

  /** `'mydoc.pdf'` is sent with the title `'mydoc'`: only the last extension goes. */
  lemma {:induction false} TitleDropsLastExtension(stem: string, ext: string, platform: Platform)
    requires forall i :: 0 <= i < |ext| ==> !IsDot(ext[i]) && !SepOf(platform)(ext[i])
    requires exists i :: LastIndex(stem, SepOf(platform)) < i < |stem| && !IsDot(stem[i])
    ensures UploadRequest(None, None, Some(stem + "." + ext), platform).title == Some(stem)
  {
    SepIsNotDot(platform);
    SplitExtRootRemovesExtension(stem, ext, SepOf(platform));
  }

  lemma {:induction false} SepIsNotDot(platform: Platform)
    ensures !SepOf(platform)('.')
  {
  }

  /** Without a filename the two copies build the same request. */
  lemma {:induction false} LegacyRequestAgrees(apiUrl: Option<string>, apiToken: Option<string>, filename: Option<string>, platform: Platform)
    requires !Truthy(filename)
    ensures LegacyUploadRequest(apiUrl, apiToken) == UploadRequest(apiUrl, apiToken, filename, platform)
  {
  }

  /** The two copies return and raise alike; they differ only in closing the handle. */
  lemma {:induction false} LegacyOutcomeAgrees(filePath: string, fileExists: bool, post: Reply<HttpResponse>)
    ensures LegacyUploadToPaperlessngx(filePath, fileExists, post).outcome
         == UploadToPaperlessngx(filePath, fileExists, post).outcome
    ensures UploadToPaperlessngx(filePath, fileExists, post).handle == Closed
        <==> LegacyUploadToPaperlessngx(filePath, fileExists, post).handle == LeftOpen && post.Ok?
  {
  }
}
