/**
 * The `/api/analyze-pose` route of the TypeScript server (`src/server.ts`): it checks the
 * upload and the height, forwards both to the Python service, and maps a failed call to
 * a status and a `detail` message. It also decides whether the uploaded temporary file
 * is deleted.
 *
 * The call to the Python service is a parameter: either the data it replied with, or the
 * error the call threw, described by the fields the handler reads.
 */
module AnalyzeProxy {
  import opened Wrappers
  import opened JsValues
  import PoseEndpoint

  /** The fields of a thrown error that the handler reads; `None` is `undefined`. */
  datatype ThrownError = ThrownError(
    isAxiosError: bool,
    code: Option<string>,
    message: Option<string>,
    responseDetail: Option<string>)   // error.response?.data?.detail

  /** What forwarding the request to the Python service did. */
  datatype Upstream = Replied(data: string) | Threw(error: ThrownError)

  datatype ProxyReply =
    | Forwarded(data: string)                 // 200 with the Python service's reply
    | ProxyError(status: nat, detail: string)

  /** The reply, and whether the uploaded temporary file is still on disk afterwards. */
  datatype Outcome = Outcome(reply: ProxyReply, uploadLeft: bool)

  const NoImageDetail: string := "No image file provided"
  const NoHeightDetail: string := "Height parameter is required"
  const TimeoutDetail: string := "Le microservice Python ne répond pas (timeout)."
  const RefusedDetail: string := "Connexion refusée vers le microservice Python."
  const DefaultErrorMessage: string := "Error analyzing image"

  /** An axios timeout: the abort code, or a message that mentions a timeout. */
  predicate IsTimeout(e: ThrownError) {
    e.isAxiosError && (e.code == Some("ECONNABORTED") || Includes(Or(e.message, DefaultErrorMessage), "timeout"))
  }

  predicate IsRefused(e: ThrownError) {
    e.isAxiosError && e.code == Some("ECONNREFUSED")
  }

  /** The `catch` block: timeout first, then refused connection, then everything else. */
  function ErrorReply(e: ThrownError): (r: ProxyReply)
    ensures r.ProxyError? && r.status in {500, 502, 504} && r.detail != ""
  {
    var errMsg := Or(e.message, DefaultErrorMessage);
    if IsTimeout(e) then ProxyError(504, TimeoutDetail)
    else if IsRefused(e) then ProxyError(502, RefusedDetail)
    else ProxyError(500, Or(e.responseDetail, errMsg))
  }

  /**
   * The route, for a request with or without an uploaded file and with the `height` body
   * field. A missing file or a falsy height is refused before anything is forwarded; the
   * temporary file is deleted after a reply from the service and in the `catch`, but not
   * when the height is missing.
   */
  function HandleAnalyze(hasFile: bool, height: Option<string>, upstream: Upstream): (r: Outcome)
    ensures r.reply.ProxyError? ==> r.reply.detail != ""
    ensures r.uploadLeft ==> hasFile
    ensures hasFile && Truthy(height) && upstream.Threw? ==> r == Outcome(ErrorReply(upstream.error), false)
  {
    if !hasFile then Outcome(ProxyError(400, NoImageDetail), false)
    else if !Truthy(height) then Outcome(ProxyError(400, NoHeightDetail), true)
    else
      match upstream
      case Replied(data) => Outcome(Forwarded(data), false)
      case Threw(e) => Outcome(ErrorReply(e), false)
  }

  /**
   * Both checks come before forwarding: without a file, or with a missing or empty height,
   * the reply is a 400 whatever the Python service would have done.
   */
  lemma ValidationPrecedesForwarding(hasFile: bool, height: Option<string>, upstream: Upstream, other: Upstream)
    requires !hasFile || !Truthy(height)
    ensures HandleAnalyze(hasFile, height, upstream) == HandleAnalyze(hasFile, height, other)
    ensures HandleAnalyze(hasFile, height, upstream).reply.ProxyError?
    ensures HandleAnalyze(hasFile, height, upstream).reply.status == 400
    ensures !hasFile ==> HandleAnalyze(hasFile, height, upstream).reply.detail == NoImageDetail
    ensures hasFile ==> HandleAnalyze(hasFile, height, upstream).reply.detail == NoHeightDetail
  {
  }

  /**
   * The route replies with the service's data exactly when a file was uploaded, the height
   * is non-empty and the service replied with that data.
   */
  lemma SuccessForwardsReply(hasFile: bool, height: Option<string>, upstream: Upstream, data: string)
    ensures HandleAnalyze(hasFile, height, upstream).reply == Forwarded(data) <==>
      hasFile && Truthy(height) && upstream == Replied(data)
  {
  }

  /** The status of a failed forward: 504 for a timeout, else 502 for a refused connection, else 500. */
  lemma ErrorStatusPriority(e: ThrownError)
    ensures ErrorReply(e).ProxyError?
    ensures ErrorReply(e).status == 504 <==> IsTimeout(e)
    ensures ErrorReply(e).status == 502 <==> IsRefused(e) && !IsTimeout(e)
    ensures ErrorReply(e).status == 500 <==> !IsRefused(e) && !IsTimeout(e)
    ensures !e.isAxiosError ==> ErrorReply(e).status == 500
  {
  }

  /** A refused connection whose message mentions a timeout counts as a timeout. */
  lemma TimeoutWinsOverRefused(message: string, detail: Option<string>)
    requires Includes(message, "timeout")
    ensures ErrorReply(ThrownError(true, Some("ECONNREFUSED"), Some(message), detail)) == ProxyError(504, TimeoutDetail)
  {
    assert message != "" by {
      assert |"timeout"| <= |message|;
    }
  }

  /**
   * Any other failure is a 500 whose detail is the service's own `detail` when it sent one,
   * else the error's message, else the default text.
   */
  lemma OtherErrorsCarryDetail(e: ThrownError)
    requires !IsTimeout(e) && !IsRefused(e)
    ensures Truthy(e.responseDetail) ==> ErrorReply(e) == ProxyError(500, e.responseDetail.value)
    ensures !Truthy(e.responseDetail) && Truthy(e.message) ==> ErrorReply(e) == ProxyError(500, e.message.value)
    ensures !Truthy(e.responseDetail) && !Truthy(e.message) ==> ErrorReply(e) == ProxyError(500, DefaultErrorMessage)
  {
  }

  /** Every status the route can answer with. */
  lemma StatusesAnswered(hasFile: bool, height: Option<string>, upstream: Upstream)
    ensures var r := HandleAnalyze(hasFile, height, upstream).reply;
      r.ProxyError? ==> r.status in {400, 500, 502, 504}
  {
  }

  /** The temporary file stays on disk exactly when a file was uploaded but the height was missing or empty. */
  lemma UploadLeftOnlyWithoutHeight(hasFile: bool, height: Option<string>, upstream: Upstream)
    ensures HandleAnalyze(hasFile, height, upstream).uploadLeft <==> hasFile && !Truthy(height)
  {
  }

  /**
   * The Python service's error replies reach the browser as 500: whatever error the
   * service answers with (its 400s included), when the call fails with an axios error
   * that is neither a timeout nor a refused connection and carries the service's
   * `detail`, the proxy replies 500 with that same detail.
   */
  lemma PythonErrorsBecome500(failure: PoseEndpoint.Failure, height: string, e: ThrownError)
    requires height != ""
    requires !IsTimeout(e) && !IsRefused(e)
    requires e.responseDetail == Some(PoseEndpoint.Detail(failure))
    ensures PoseEndpoint.Status(PoseEndpoint.HttpError(failure)) in {400, 500}
    ensures HandleAnalyze(true, Some(height), Threw(e)) == Outcome(ProxyError(500, PoseEndpoint.Detail(failure)), false)
  {
  }
}
