/**
 * The JavaScript upload client (src/lib/paperless.js `uploadToPaperless`).
 * The multipart request is reduced to its URL, header and optional title;
 * what axios produced for it (a response, or an error without one) is an
 * input, and the model decides the object the function resolves to. The
 * function never rejects: every error becomes a `success: false` result.
 */
module PaperlessClient {
  import opened Base
  import opened Text
  import opened Paths
  import ScannerClient

  /**
   * The message of the `TypeError` that `fs.createReadStream` throws
   * synchronously when the path is `null` or `undefined`.
   */
  const MissingPathMessage := "The \"path\" argument must be of type string or an instance of Buffer or URL. Received undefined"

  /** The start of the message axios gives the error it raises for a non-2xx status. */
  const StatusErrorPrefix := "Request failed with status code "

  /** What axios produced: a response with its status and decoded data, or an error with no response. */
  datatype AxiosOutcome = Responded(status: nat, data: Json) | NoResponse(message: string)

  /** The `response` field of the result: the server's data, or an error message. */
  datatype ResponseValue = Data(json: Json) | Message(text: string)

  /** The object `uploadToPaperless` resolves to. */
  datatype UploadResult = UploadResult(success: bool, statusCode: Option<nat>, response: ResponseValue)

  /** What `axios.post` is asked to send. */
  datatype JsRequest = JsRequest(url: string, authorization: string, title: Option<string>)

  /** The request, if one is sent, and the result. */
  datatype JsUpload = JsUpload(sent: Option<JsRequest>, result: UploadResult)

  /**
   * Whether axios resolves a response: its `settle` resolves when the
   * response has no status (a falsy `0`) or when the default
   * `validateStatus` accepts it (a 2xx status), and rejects otherwise.
   */
  predicate IsSuccessStatus(status: nat) {
    status == 0 || 200 <= status < 300
  }

  // ---------------------------------------------------------------------
  // Decimal rendering of a status code

  function DigitChar(d: nat): (c: char)
    requires d < 10
    ensures '0' <= c <= '9'
  {
    ('0' as int + d) as char
  }

  /** `String(n)` for a non-negative integer. */
  function DecimalString(n: nat): (s: string)
    ensures |s| > 0
    ensures forall i :: 0 <= i < |s| ==> '0' <= s[i] <= '9'
    decreases n
  {
    if n < 10 then [DigitChar(n)] else DecimalString(n / 10) + [DigitChar(n % 10)]
  }

  /** Reading a string of decimal digits back as a number. */
  function DecimalValue(s: string): nat
    requires forall i :: 0 <= i < |s| ==> '0' <= s[i] <= '9'
    decreases |s|
  {
    if s == [] then 0
    else DecimalValue(s[..|s| - 1]) * 10 + (s[|s| - 1] as int - '0' as int)
  }

  /** The message axios gives a response whose status fails `validateStatus`. */
  function StatusErrorMessage(status: nat): (m: string)
    ensures StatusErrorPrefix < m
  {
    StatusErrorPrefix + DecimalString(status)
  }

  // ---------------------------------------------------------------------
  // The upload

  /** The request for the given settings: a title, `path.parse(filename).name`, only for a truthy filename. */
  function UploadRequestJs(apiUrl: string, apiToken: string, filename: Option<string>): (r: JsRequest)
    ensures r.url == apiUrl + ScannerClient.DocumentEndpoint
    ensures r.authorization == ScannerClient.TokenScheme + apiToken
    ensures r.title.Some? <==> Truthy(filename)
    ensures r.title.Some? ==> r.title.value == NodeParseName(filename.value)
    ensures r.title.Some? ==> r.title.value <= LastComponent(filename.value)
  {
    var title := if Truthy(filename) then Some(NodeParseName(filename.value)) else None;
    JsRequest(apiUrl + ScannerClient.DocumentEndpoint, ScannerClient.TokenScheme + apiToken, title)
  }

  /**
   * `uploadToPaperless(filePath, apiUrl, apiToken, filename)`. A missing
   * path throws before any request is sent. A response axios resolves
   * succeeds with its status and data. A rejected response reports its
   * (always non-zero, so truthy) status, and its data when it is truthy,
   * else the error's message; an error without a response reports `null`
   * and the error's message.
   */
  function UploadToPaperless(filePath: Option<string>, apiUrl: string, apiToken: string,
                             filename: Option<string>, outcome: AxiosOutcome): (u: JsUpload)
    ensures u.sent.Some? <==> filePath.Some?
    ensures u.sent.Some? ==> u.sent.value == UploadRequestJs(apiUrl, apiToken, filename)
    ensures filePath.None? ==> u.result == UploadResult(false, None, Message(MissingPathMessage))
    ensures filePath.Some? ==> u.result == ResultOf(outcome)
  {
    if filePath.None? then JsUpload(None, UploadResult(false, None, Message(MissingPathMessage)))
    else JsUpload(Some(UploadRequestJs(apiUrl, apiToken, filename)), ResultOf(outcome))
  }

  /** The `try` result, or the `catch` result, for what axios produced. */
  function ResultOf(outcome: AxiosOutcome): (r: UploadResult)
    ensures r.success <==> outcome.Responded? && IsSuccessStatus(outcome.status)
    ensures r.success ==> r.statusCode == Some(outcome.status) && r.response == Data(outcome.data)
    ensures outcome.NoResponse? ==> r.statusCode.None? && r.response == Message(outcome.message)
    ensures outcome.Responded? && !r.success ==>
              r.statusCode == Some(outcome.status)
              && (r.response.Data? <==> JsonTruthy(outcome.data))
              && (r.response.Data? ==> r.response.json == outcome.data)
              && (r.response.Message? ==> r.response.text == StatusErrorMessage(outcome.status))
  {
    match outcome
    case NoResponse(message) => UploadResult(false, None, Message(message))
    case Responded(status, data) =>
      if IsSuccessStatus(status) then UploadResult(true, Some(status), Data(data))
      else
        UploadResult(false,
                     Some(status),
                     if JsonTruthy(data) then Data(data) else Message(StatusErrorMessage(status)))
  }

  // ---------------------------------------------------------------------
  // Lemmas

  lemma {:induction false} DecimalValueAppend(s: string, c: char)
    requires forall i :: 0 <= i < |s| ==> '0' <= s[i] <= '9'
    requires '0' <= c <= '9'
    ensures DecimalValue(s + [c]) == DecimalValue(s) * 10 + (c as int - '0' as int)
  {
    assert (s + [c])[..|s|] == s;
  }

  /** The status in an error message reads back as the status. */
  lemma {:induction false} DecimalRoundTrip(n: nat)
    ensures DecimalValue(DecimalString(n)) == n
    decreases n
  {
    if n < 10 {
    } else {
      DecimalRoundTrip(n / 10);
      DecimalValueAppend(DecimalString(n / 10), DigitChar(n % 10));
    }
  }

  /** The status can be read back out of the message of a rejected response. */
  lemma {:induction false} StatusErrorMessageNamesStatus(status: nat)
    ensures var m := StatusErrorMessage(status);
      DecimalValue(m[|StatusErrorPrefix|..]) == status
  {
    var m := StatusErrorMessage(status);
    assert m[|StatusErrorPrefix|..] == DecimalString(status);
    DecimalRoundTrip(status);
  }

  /** A plain `name.ext` is sent with the title `name`, the same title the Python client sends. */
  lemma {:induction false} TitleAgreesWithPython(stem: string, ext: string, apiUrl: string, apiToken: string)
    requires forall i :: 0 <= i < |stem| ==> !IsSlash(stem[i])
    requires forall i :: 0 <= i < |ext| ==> !IsDot(ext[i]) && !IsSlash(ext[i])
    requires exists i :: 0 <= i < |stem| && !IsDot(stem[i])
    ensures UploadRequestJs(apiUrl, apiToken, Some(stem + "." + ext)).title == Some(stem)
    ensures UploadRequestJs(apiUrl, apiToken, Some(stem + "." + ext)).title
         == ScannerClient.UploadRequest(Some(apiUrl), Some(apiToken), Some(stem + "." + ext), Posix).title
  {
    TitlesAgreeOnPlainNames(stem, ext);
  }

  /** A response without a status is resolved by axios, so it is a success with status code `0`. */
  lemma {:induction false} StatuslessResponseSucceeds(data: Json)
    ensures ResultOf(Responded(0, data)) == UploadResult(true, Some(0), Data(data))
  {
  }

  /**
   * Where the two clients part: a success is any 2xx here but only 200 in
   * Python, and a failure always has a status there.
   */
  lemma {:induction false} CreatedIsSuccessOnlyHere(data: Json, filePath: string)
    ensures ResultOf(Responded(201, data)).success
    ensures ScannerClient.UploadToPaperlessngx(filePath, true, Ok(ScannerClient.HttpResponse(201, ScannerClient.JsonBody(data))))
         .outcome == ScannerClient.Returned(false, Some(201), Some(data))
  {
  }
}
