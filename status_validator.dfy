/**
 * `HttpStatusValidator`: a response passes only with a 2xx status (section
 * 15.3 of RFC 9110); any other status fails with an `IOException` whose
 * message names the status and a bounded rendering of the body.
 */
module StatusValidator {
  import opened Wrappers
  import opened JavaText
  import opened Failures
  import opened JavaHttp
  import Sequences

  /** The most characters of a body the failure message repeats. */
  const MaxBodyChars: nat := 1000

  const TruncationMarker: string := "...(truncated)"

  const EmptyBodyText: string := "<empty>"

  /**
   * `convertBodyToString`: `<empty>` for a `null` body, the body itself when
   * it has at most 1000 characters, and otherwise its first 1000 characters
   * followed by `...(truncated)`.
   */
  function RenderBody(body: Option<string>): (r: string)
    ensures |r| <= MaxBodyChars + |TruncationMarker|
    ensures body.None? ==> r == EmptyBodyText
    ensures body.Some? && |body.value| <= MaxBodyChars ==> r == body.value
    ensures body.Some? && |body.value| > MaxBodyChars ==>
              |r| == 1014 && r[..MaxBodyChars] == body.value[..MaxBodyChars]
              && r[MaxBodyChars..] == TruncationMarker
  {
    match body
    case None => EmptyBodyText
    case Some(b) =>
      if |b| > MaxBodyChars then b[..MaxBodyChars] + TruncationMarker else b
  }

  /** Rendering a rendered body again changes nothing: every rendering is a fixed point. */
  lemma RenderBodyIdempotent(body: Option<string>)
    ensures RenderBody(Some(RenderBody(body))) == RenderBody(body)
  {
    var r := RenderBody(body);
    if body.Some? && |body.value| > MaxBodyChars {
      assert r[..MaxBodyChars] + TruncationMarker == r;
    }
  }

  /** Truncation forgets everything past the first 1000 characters. */
  lemma RenderBodyKeepsOnlyTheHead(b1: string, b2: string)
    requires |b1| > MaxBodyChars && |b2| > MaxBodyChars
    requires b1[..MaxBodyChars] == b2[..MaxBodyChars]
    ensures RenderBody(Some(b1)) == RenderBody(Some(b2))
  {
  }

  const StatusPrefix: string := "HTTP request failed. Status: "

  const BodySeparator: string := ", Body: "

  /** The message of the `IOException` a failing status raises. */
  function StatusMessage(statusCode: int, body: Option<string>): (m: string)
    ensures |m| <= |StatusPrefix| + |IntToString(statusCode)| + |BodySeparator| + MaxBodyChars + |TruncationMarker|
    ensures |m| > |StatusPrefix| && m[..|StatusPrefix|] == StatusPrefix
  {
    StatusPrefix + IntToString(statusCode) + BodySeparator + RenderBody(body)
  }

  /** What a failure message reports: the status code and the rendered body. */
  datatype StatusReport = StatusReport(statusCode: int, renderedBody: string)

  /**
   * Reads what follows the fixed prefix of a failure message: the status
   * runs to the first `, Body: `, and the rest is the rendered body.
   */
  function ParseStatusTail(rest: string): (r: Option<StatusReport>)
    ensures r.Some? ==> rest == IntToString(r.value.statusCode) + BodySeparator + r.value.renderedBody
  {
    match Sequences.IndexOf(rest, BodySeparator)
    case None => None
    case Some(i) =>
      match ParseInt(rest[..i])
      case None => None
      case Some(code) =>
        if IntToString(code) != rest[..i] then None
        else
          Sequences.OccurrenceSplit(rest, BodySeparator, i);
          Some(StatusReport(code, rest[i + |BodySeparator|..]))
  }

  /** Reads a failure message back to the status and the rendered body it reports. */
  function ParseStatusMessage(message: string): (r: Option<StatusReport>)
    ensures r.Some? ==>
              message == StatusPrefix + IntToString(r.value.statusCode) + BodySeparator + r.value.renderedBody
  {
    var n := |StatusPrefix|;
    if |message| < n || message[..n] != StatusPrefix then None
    else
      Sequences.PrefixSplit(message, StatusPrefix);
      var r := ParseStatusTail(message[n..]);
      if r.Some? then
        Sequences.Regroup(StatusPrefix, IntToString(r.value.statusCode), BodySeparator, r.value.renderedBody);
        r
      else r
  }

  /** The status text holds no comma, so the first separator is the one after it. */
  lemma StatusTailRoundTrip(code: int, rendered: string, rest: string)
    requires rest == IntToString(code) + BodySeparator + rendered
    ensures ParseStatusTail(rest) == Some(StatusReport(code, rendered))
  {
    var s := IntToString(code);
    forall j: nat | j < |s| ensures !Sequences.OccursAt(rest, BodySeparator, j) {
      assert rest[j] == s[j];
      Sequences.MismatchAt(rest, BodySeparator, j, 0);
    }
    assert rest[|s|..|s| + |BodySeparator|] == BodySeparator;
    Sequences.FirstOccurrence(rest, BodySeparator, |s|);
    assert rest[..|s|] == s && rest[|s| + |BodySeparator|..] == rendered;
    IntToStringRoundTrip(code);
  }

  /** Every failure message can be read back to the status and the rendered body it reports. */
  lemma StatusMessageRoundTrip(statusCode: int, body: Option<string>)
    ensures ParseStatusMessage(StatusMessage(statusCode, body))
            == Some(StatusReport(statusCode, RenderBody(body)))
  {
    var rest := IntToString(statusCode) + BodySeparator + RenderBody(body);
    Sequences.Regroup(StatusPrefix, IntToString(statusCode), BodySeparator, RenderBody(body));
    Sequences.ConcatSlices(StatusPrefix, rest);
    StatusTailRoundTrip(statusCode, RenderBody(body), rest);
  }

  predicate IsSuccessful(statusCode: int) {
    200 <= statusCode < 300
  }

  /**
   * `checkStatus(HttpResponse)`: a `null` response fails with
   * `NullPointerException("response")`; a 2xx response is returned as it is;
   * any other fails with an `IOException` carrying `StatusMessage`.
   */
  function CheckStatus(response: Option<HttpResponse>): (r: Result<HttpResponse, Error>)
    ensures response.None? ==> r == Failure(NullPointer("response"))
    ensures response.Some? ==> (r.Success? <==> IsSuccessful(response.value.statusCode))
    ensures r.Success? ==> r.value == response.value
    ensures response.Some? && r.Failure? ==>
              r.error.HttpStatus?
              && ParseStatusMessage(r.error.message)
                 == Some(StatusReport(response.value.statusCode, RenderBody(response.value.body)))
  {
    match response
    case None => Failure(NullPointer("response"))
    case Some(resp) =>
      if resp.statusCode < 200 || resp.statusCode >= 300 then
        StatusMessageRoundTrip(resp.statusCode, resp.body);
        Failure(HttpStatus(StatusMessage(resp.statusCode, resp.body)))
      else
        Success(resp)
  }

  /** The check is idempotent: a response that passed passes again, unchanged. */
  lemma CheckStatusIdempotent(response: Option<HttpResponse>)
    requires CheckStatus(response).Success?
    ensures CheckStatus(Some(CheckStatus(response).value)) == CheckStatus(response)
  {
  }

  /** The check the future runs on its response. */
  function CheckCompleted(response: HttpResponse): Result<HttpResponse, Error> {
    CheckStatus(Some(response))
  }

  /**
   * `checkStatus(CompletableFuture)`: a `null` future fails with
   * `NullPointerException("future")` at once; otherwise the same check is
   * chained after the future with `thenApply`.
   */
  function CheckStatusAsync(future: Option<Future<HttpResponse>>): (r: Result<Future<HttpResponse>, Error>)
    ensures future.None? ==> r == Failure(NullPointer("future"))
    ensures future.Some? ==> r.Success?
    ensures future.Some? && future.value.CompletedExceptionally? ==> r.value == future.value
  {
    match future
    case None => Failure(NullPointer("future"))
    case Some(f) => Success(ThenApply(f, CheckCompleted))
  }

  /**
   * The asynchronous check agrees with the synchronous one: on a completed
   * future it completes with the response exactly when `CheckStatus` passes
   * it, and otherwise fails with the same exception.
   */
  lemma CheckStatusAsyncAgrees(response: HttpResponse)
    ensures var f := CheckStatusAsync(Some(Completed(response))).value;
            && (f.Completed? <==> CheckStatus(Some(response)).Success?)
            && (f.Completed? ==> f.value == response)
            && (f.CompletedExceptionally? ==> f.cause == CheckStatus(Some(response)).error)
  {
  }
}
