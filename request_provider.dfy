/**
 * `HttpRequestProvider`: builds the requests of the ClickUp API calls. Every
 * request carries the same two base headers, `Authorization` with the
 * resolved token and `Accept: application/json`; only the method, the
 * `Content-Type` and the body vary with the builder used.
 */
module RequestProvider {
  import opened Wrappers
  import opened Failures
  import opened JavaHttp
  import opened TokenResolver

  /** Whether `new URI(url)` accepts the text; the URI grammar is an input here. */
  type UriCheck = string -> bool

  const AuthorizationHeader: string := "Authorization"
  const AcceptHeader: string := "Accept"
  const ContentTypeHeader: string := "Content-Type"
  const JsonMediaType: string := "application/json"
  const MultipartMediaTypePrefix: string := "multipart/form-data; boundary="

  /**
   * `clickup_token.orElseGet(getClickUpToken)`: a supplied token is used
   * verbatim, even when blank; only an absent one is looked up in the
   * environment.
   */
  function ResolveToken(clickupToken: Option<string>, env: Environment): (r: Result<string, Error>)
    ensures clickupToken.Some? ==> r == Success(clickupToken.value)
    ensures clickupToken.None? ==> r == GetClickUpToken(env)
  {
    match clickupToken
    case Some(token) => Success(token)
    case None => GetClickUpToken(env)
  }

  /** The headers every builder starts with, in the order they are added. */
  function BaseHeaders(token: string): seq<Header> {
    [Header(AuthorizationHeader, token), Header(AcceptHeader, JsonMediaType)]
  }

  /**
   * `generateHttpRequestBase`: a fresh builder (method `GET`, no body) for
   * the URI, with the base headers; a URL `new URI` rejects fails with
   * `URISyntaxException` and no request.
   */
  function GenerateHttpRequestBase(url: string, token: string, validUri: UriCheck): (r: Result<HttpRequest, Error>)
    ensures r.Success? <==> validUri(url)
    ensures r.Failure? ==> r.error == UriSyntax(url)
    ensures r.Success? ==>
              r.value.uri == url && r.value.verb == GET && r.value.body.None?
              && r.value.headers == BaseHeaders(token)
  {
    if !validUri(url) then Failure(UriSyntax(url))
    else
      var builder := HttpRequest(GET, url, [], None);
      Success(AddHeader(AddHeader(builder, AuthorizationHeader, token), AcceptHeader, JsonMediaType))
  }

  /** `Builder.header(name, value)`: appends one header. */
  function AddHeader(request: HttpRequest, name: string, value: string): HttpRequest {
    request.(headers := request.headers + [Header(name, value)])
  }

  /** `Builder.GET()`, `DELETE()`, `POST(body)`, `PUT(body)`: the method and its body. */
  function SetMethod(request: HttpRequest, verb: Method, body: Option<BodyPublisher>): HttpRequest {
    request.(verb := verb, body := body)
  }

  /** The `Content-Type` value of a multipart request. */
  function MultipartContentType(boundary: string): string {
    MultipartMediaTypePrefix + boundary
  }

  /** The token, then the base builder: the steps every verb builder shares. */
  function ResolvedBase(url: string, clickupToken: Option<string>, env: Environment, validUri: UriCheck)
    : Result<HttpRequest, Error>
  {
    var token :- ResolveToken(clickupToken, env);
    GenerateHttpRequestBase(url, token, validUri)
  }

  /** `generateHttpRequestForGET`. */
  function ForGet(url: string, clickupToken: Option<string>, env: Environment, validUri: UriCheck)
    : (r: Result<HttpRequest, Error>)
    ensures r.Success? ==> r.value.verb == GET && r.value.body.None?
  {
    var base :- ResolvedBase(url, clickupToken, env, validUri);
    Success(SetMethod(base, GET, None))
  }

  /** `generateHttpRequestForDELETE`. */
  function ForDelete(url: string, clickupToken: Option<string>, env: Environment, validUri: UriCheck)
    : (r: Result<HttpRequest, Error>)
    ensures r.Success? ==> r.value.verb == DELETE && r.value.body.None?
  {
    var base :- ResolvedBase(url, clickupToken, env, validUri);
    Success(SetMethod(base, DELETE, None))
  }

  /** `generateHttpRequestForPOSTWithFileAsBody`. */
  function ForPostWithFileAsBody(url: string, boundary: string, body: BodyPublisher,
                                 clickupToken: Option<string>, env: Environment, validUri: UriCheck)
    : (r: Result<HttpRequest, Error>)
    ensures r.Success? ==> r.value.verb == POST && r.value.body == Some(body)
  {
    var base :- ResolvedBase(url, clickupToken, env, validUri);
    Success(SetMethod(AddHeader(base, ContentTypeHeader, MultipartContentType(boundary)), POST, Some(body)))
  }

  /** `generateHttpRequestForPOST`. */
  function ForPost(url: string, body: BodyPublisher, clickupToken: Option<string>, env: Environment,
                   validUri: UriCheck)
    : (r: Result<HttpRequest, Error>)
    ensures r.Success? ==> r.value.verb == POST && r.value.body == Some(body)
  {
    var base :- ResolvedBase(url, clickupToken, env, validUri);
    Success(SetMethod(AddHeader(base, ContentTypeHeader, JsonMediaType), POST, Some(body)))
  }

  /** `generateHttpRequestForPUTWithFileAsBody`. */
  function ForPutWithFileAsBody(url: string, boundary: string, body: BodyPublisher,
                                clickupToken: Option<string>, env: Environment, validUri: UriCheck)
    : (r: Result<HttpRequest, Error>)
    ensures r.Success? ==> r.value.verb == PUT && r.value.body == Some(body)
  {
    var base :- ResolvedBase(url, clickupToken, env, validUri);
    Success(SetMethod(AddHeader(base, ContentTypeHeader, MultipartContentType(boundary)), PUT, Some(body)))
  }

  /** `generateHttpRequestForPUT`. */
  function ForPut(url: string, body: BodyPublisher, clickupToken: Option<string>, env: Environment,
                  validUri: UriCheck)
    : (r: Result<HttpRequest, Error>)
    ensures r.Success? ==> r.value.verb == PUT && r.value.body == Some(body)
  {
    var base :- ResolvedBase(url, clickupToken, env, validUri);
    Success(SetMethod(AddHeader(base, ContentTypeHeader, JsonMediaType), PUT, Some(body)))
  }

  // ------------------------------------------------ the builders side by side

  /** The six builders, with the arguments that set them apart. */
  datatype Builder =
    | GetBuilder
    | DeleteBuilder
    | PostWithFileBuilder(boundary: string, body: BodyPublisher)
    | PostBuilder(body: BodyPublisher)
    | PutWithFileBuilder(boundary: string, body: BodyPublisher)
    | PutBuilder(body: BodyPublisher)

  /** Runs the builder named by `b`. */
  function Build(b: Builder, url: string, clickupToken: Option<string>, env: Environment, validUri: UriCheck)
    : Result<HttpRequest, Error>
  {
    match b
    case GetBuilder => ForGet(url, clickupToken, env, validUri)
    case DeleteBuilder => ForDelete(url, clickupToken, env, validUri)
    case PostWithFileBuilder(boundary, body) => ForPostWithFileAsBody(url, boundary, body, clickupToken, env, validUri)
    case PostBuilder(body) => ForPost(url, body, clickupToken, env, validUri)
    case PutWithFileBuilder(boundary, body) => ForPutWithFileAsBody(url, boundary, body, clickupToken, env, validUri)
    case PutBuilder(body) => ForPut(url, body, clickupToken, env, validUri)
  }

  /** The method each builder promises. */
  function ExpectedMethod(b: Builder): Method {
    match b
    case GetBuilder => GET
    case DeleteBuilder => DELETE
    case PostWithFileBuilder(_, _) => POST
    case PostBuilder(_) => POST
    case PutWithFileBuilder(_, _) => PUT
    case PutBuilder(_) => PUT
  }

  /** The `Content-Type` each builder promises, if any. */
  function ExpectedContentType(b: Builder): Option<string> {
    match b
    case GetBuilder => None
    case DeleteBuilder => None
    case PostWithFileBuilder(boundary, _) => Some(MultipartContentType(boundary))
    case PostBuilder(_) => Some(JsonMediaType)
    case PutWithFileBuilder(boundary, _) => Some(MultipartContentType(boundary))
    case PutBuilder(_) => Some(JsonMediaType)
  }

  /** The body each builder promises, if any. */
  function ExpectedBody(b: Builder): Option<BodyPublisher> {
    match b
    case GetBuilder => None
    case DeleteBuilder => None
    case PostWithFileBuilder(_, body) => Some(body)
    case PostBuilder(body) => Some(body)
    case PutWithFileBuilder(_, body) => Some(body)
    case PutBuilder(body) => Some(body)
  }

  /**
   * `HttpHeaders.firstValue(name)`, with names compared exactly: the value of
   * the first header so named. The JDK compares header names without regard
   * to case; the builders spell each name one way, so both find the same one.
   */
  function FirstValue(headers: seq<Header>, name: string): (r: Option<string>)
    ensures r.Some? <==> exists i :: 0 <= i < |headers| && headers[i].name == name
    ensures r.Some? ==> exists i :: 0 <= i < |headers| && headers[i] == Header(name, r.value)
                                    && forall k :: 0 <= k < i ==> headers[k].name != name
  {
    if headers == [] then None
    else if headers[0].name == name then Some(headers[0].value)
    else
      var r := FirstValue(headers[1..], name);
      if r.Some? then
        var i :| 0 <= i < |headers[1..]| && headers[1..][i] == Header(name, r.value)
                 && forall k :: 0 <= k < i ==> headers[1..][k].name != name;
        assert headers[i + 1] == Header(name, r.value);
        r
      else
        assert forall i :: 1 <= i < |headers| ==> headers[i] == headers[1..][i - 1];
        r
  }

  /** The headers a builder promises: the base headers, then its `Content-Type` if it has one. */
  function ExpectedHeaders(b: Builder, token: string): seq<Header> {
    match ExpectedContentType(b)
    case None => BaseHeaders(token)
    case Some(contentType) => BaseHeaders(token) + [Header(ContentTypeHeader, contentType)]
  }

  /** A successful build is the request the builder promises, whole. */
  lemma BuiltRequestIsExpected(b: Builder, url: string, clickupToken: Option<string>, env: Environment,
                               validUri: UriCheck)
    requires Build(b, url, clickupToken, env, validUri).Success?
    ensures ResolveToken(clickupToken, env).Success?
    ensures Build(b, url, clickupToken, env, validUri).value
            == HttpRequest(ExpectedMethod(b), url, ExpectedHeaders(b, ResolveToken(clickupToken, env).value),
                           ExpectedBody(b))
  {
  }

  /** In the promised headers each name occurs once, with the promised value. */
  lemma ExpectedHeadersLookup(b: Builder, token: string)
    ensures var headers := ExpectedHeaders(b, token);
            && headers[..2] == BaseHeaders(token)
            && FirstValue(headers, AuthorizationHeader) == Some(token)
            && FirstValue(headers, AcceptHeader) == Some(JsonMediaType)
            && FirstValue(headers, ContentTypeHeader) == ExpectedContentType(b)
            && |headers| == if ExpectedContentType(b).Some? then 3 else 2
  {
    var headers := ExpectedHeaders(b, token);
    assert headers[0] == Header(AuthorizationHeader, token);
    assert headers[1] == Header(AcceptHeader, JsonMediaType);
    if ExpectedContentType(b).Some? {
      assert headers[2] == Header(ContentTypeHeader, ExpectedContentType(b).value);
    }
  }

  /**
   * What every builder yields: the method, URI and body it promises; the
   * `Authorization` header with the resolved token and `Accept:
   * application/json` first; and the `Content-Type` it promises (none for
   * `GET` and `DELETE`), with no other header.
   */
  lemma BuiltRequestShape(b: Builder, url: string, clickupToken: Option<string>, env: Environment,
                          validUri: UriCheck)
    requires Build(b, url, clickupToken, env, validUri).Success?
    ensures var request := Build(b, url, clickupToken, env, validUri).value;
            var token := ResolveToken(clickupToken, env).value;
            && ResolveToken(clickupToken, env).Success?
            && request.verb == ExpectedMethod(b)
            && request.uri == url
            && request.body == ExpectedBody(b)
            && request.headers[..2] == BaseHeaders(token)
            && FirstValue(request.headers, AuthorizationHeader) == Some(token)
            && FirstValue(request.headers, AcceptHeader) == Some(JsonMediaType)
            && FirstValue(request.headers, ContentTypeHeader) == ExpectedContentType(b)
            && |request.headers| == if ExpectedContentType(b).Some? then 3 else 2
  {
    BuiltRequestIsExpected(b, url, clickupToken, env, validUri);
    ExpectedHeadersLookup(b, ResolveToken(clickupToken, env).value);
  }

  /**
   * Every builder fails exactly when the token or the URL does, and in that
   * order: a missing token is reported before an invalid URL, since the
   * token is resolved while the builder's arguments are evaluated.
   */
  lemma BuildFailures(b: Builder, url: string, clickupToken: Option<string>, env: Environment,
                      validUri: UriCheck)
    ensures var r := Build(b, url, clickupToken, env, validUri);
            && (r.Success? <==> ResolveToken(clickupToken, env).Success? && validUri(url))
            && (ResolveToken(clickupToken, env).Failure? ==> r == Failure(ResolveToken(clickupToken, env).error))
            && (ResolveToken(clickupToken, env).Success? && !validUri(url) ==> r == Failure(UriSyntax(url)))
  {
  }

  /**
   * A supplied token is used verbatim, whatever the environment holds; in
   * particular, a blank supplied token is not refused.
   */
  lemma SuppliedTokenUsedVerbatim(b: Builder, url: string, token: string, env1: Environment,
                                  env2: Environment, validUri: UriCheck)
    ensures Build(b, url, Some(token), env1, validUri) == Build(b, url, Some(token), env2, validUri)
    ensures validUri(url) ==>
              FirstValue(Build(b, url, Some(token), env1, validUri).value.headers, AuthorizationHeader)
              == Some(token)
  {
    BuildFailures(b, url, Some(token), env1, validUri);
    if validUri(url) {
      BuiltRequestShape(b, url, Some(token), env1, validUri);
    }
  }

  /** The boundary a multipart `Content-Type` value announces, if it is one. */
  function BoundaryOf(contentType: string): (r: Option<string>)
    ensures r.Some? ==> contentType == MultipartContentType(r.value)
  {
    var n := |MultipartMediaTypePrefix|;
    if |contentType| >= n && contentType[..n] == MultipartMediaTypePrefix then
      assert contentType == contentType[..n] + contentType[n..];
      Some(contentType[n..])
    else None
  }

  /** The boundary placed in a multipart `Content-Type` can be read back from it. */
  lemma BoundaryOfMultipartContentType(boundary: string)
    ensures BoundaryOf(MultipartContentType(boundary)) == Some(boundary)
  {
    var c := MultipartContentType(boundary);
    assert c[..|MultipartMediaTypePrefix|] == MultipartMediaTypePrefix;
    assert c[|MultipartMediaTypePrefix|..] == boundary;
  }
}
