/**
 * The slice of `java.net.http` and `java.util.concurrent` the uploader uses:
 * requests, responses, body publishers and completable futures, as values.
 */
module JavaHttp {
  import opened Wrappers
  import opened JavaText
  import opened UnixPaths
  import opened Failures

  datatype Method = GET | DELETE | POST | PUT

  datatype Header = Header(name: string, value: string)

  /**
   * What reading each path through `Files.newInputStream` delivers; `None`
   * when it cannot be opened or a read from it fails (a directory, say).
   */
  type FileContents = Path -> Option<seq<byte>>

  /**
   * A `BodyPublisher`. `ConcatenatedStream` is `BodyPublishers.ofInputStream`
   * over a supplier that opens the file anew on each call and chains the bytes
   * of `prefix`, the file and `suffix`; `OfBytes` is any publisher whose bytes
   * are fixed in advance (the JSON bodies callers hand in).
   */
  datatype BodyPublisher =
    | ConcatenatedStream(prefix: seq<byte>, file: Path, suffix: seq<byte>)
    | OfBytes(content: seq<byte>)

  /**
   * The bytes a subscriber reads from one invocation of the publisher's
   * supplier. A file that cannot be opened ends in `UncheckedIOException`,
   * never in an empty or partial body.
   */
  function Subscribe(p: BodyPublisher, files: FileContents): (r: Result<seq<byte>, Error>)
    ensures p.ConcatenatedStream? && files(p.file).None? ==> r == Failure(UncheckedIO)
    ensures p.ConcatenatedStream? && files(p.file).Some? ==>
              r == Success(p.prefix + files(p.file).value + p.suffix)
    ensures p.OfBytes? ==> r == Success(p.content)
  {
    match p
    case ConcatenatedStream(prefix, file, suffix) =>
      (match files(file)
       case None => Failure(UncheckedIO)
       case Some(content) => Success(prefix + content + suffix))
    case OfBytes(content) => Success(content)
  }

  /**
   * An `HttpRequest` as built: method, URI, headers and body. The headers are
   * kept in the order the builder added them.
   */
  datatype HttpRequest = HttpRequest(verb: Method, uri: string, headers: seq<Header>, body: Option<BodyPublisher>)

  /** An `HttpResponse<String>`; a `null` body is `None`. */
  datatype HttpResponse = HttpResponse(statusCode: int, body: Option<string>)

  /** What goes over the wire: the request with its body read out. */
  datatype WireRequest = WireRequest(verb: Method, uri: string, headers: seq<Header>, body: seq<byte>)

  /** The network: a response, or `None` when the exchange fails with an `IOException`. */
  type Network = WireRequest -> Option<HttpResponse>

  /** The bytes of a request's body as the client reads them; no body reads as no bytes. */
  function BodyBytes(request: HttpRequest, files: FileContents): Result<seq<byte>, Error> {
    if request.body.Some? then Subscribe(request.body.value, files) else Success([])
  }

  /** A `CompletableFuture` once it has completed. */
  datatype Future<T> = Completed(value: T) | CompletedExceptionally(cause: Error)

  /**
   * `HttpClient.sendAsync`: the body is read as the request goes out. An
   * unreadable body fails the future with the supplier's exception, a failed
   * exchange with an `IOException`; otherwise the future completes with the
   * network's response.
   */
  function SendAsync(request: HttpRequest, files: FileContents, network: Network): (f: Future<HttpResponse>)
    ensures BodyBytes(request, files).Failure? ==> f == CompletedExceptionally(BodyBytes(request, files).error)
    ensures BodyBytes(request, files).Success? ==>
              var wire := WireRequest(request.verb, request.uri, request.headers, BodyBytes(request, files).value);
              f == if network(wire).Some? then Completed(network(wire).value) else CompletedExceptionally(Transport)
  {
    match BodyBytes(request, files)
    case Failure(e) => CompletedExceptionally(e)
    case Success(bytes) =>
      (match network(WireRequest(request.verb, request.uri, request.headers, bytes))
       case None => CompletedExceptionally(Transport)
       case Some(response) => Completed(response))
  }

  /**
   * What the blocking `send` rethrows for the cause its exchange failed with:
   * an `IOException` stays one, anything else is wrapped in an `IOException`.
   */
  function BlockingFailure(cause: Error): (e: Error)
    ensures cause.UncheckedIO? ==> e == SendIO(cause)
    ensures !cause.UncheckedIO? ==> e == cause
  {
    if cause.UncheckedIO? then SendIO(cause) else cause
  }

  /** Waiting on an outcome the way the blocking `send` does. */
  function AsBlocking<T>(r: Result<T, Error>): Result<T, Error> {
    if r.Success? then r else Failure(BlockingFailure(r.error))
  }

  /**
   * `HttpClient.send`: the same exchange, waited for. An unreadable body ends
   * it without a response, in an `IOException` whose cause is the supplier's
   * `UncheckedIOException`; a failed exchange ends in an `IOException`.
   */
  function Send(request: HttpRequest, files: FileContents, network: Network): (r: Result<HttpResponse, Error>)
    ensures BodyBytes(request, files).Failure? ==> r == Failure(SendIO(UncheckedIO))
    ensures BodyBytes(request, files).Success? ==>
              var wire := WireRequest(request.verb, request.uri, request.headers, BodyBytes(request, files).value);
              r == if network(wire).Some? then Success(network(wire).value) else Failure(Transport)
  {
    match BodyBytes(request, files)
    case Failure(e) => Failure(SendIO(e))
    case Success(bytes) =>
      (match network(WireRequest(request.verb, request.uri, request.headers, bytes))
       case None => Failure(Transport)
       case Some(response) => Success(response))
  }

  /**
   * `thenApply(g)`: a failed future stays failed with its cause; an exception
   * thrown by `g` fails the new future with that cause (wrapped in a
   * `CompletionException`, which `join` unwraps to the same cause).
   */
  function ThenApply<A, B>(f: Future<A>, g: A -> Result<B, Error>): (r: Future<B>)
    ensures f.CompletedExceptionally? ==> r == CompletedExceptionally(f.cause)
    ensures f.Completed? && g(f.value).Success? ==> r == Completed(g(f.value).value)
    ensures f.Completed? && g(f.value).Failure? ==> r == CompletedExceptionally(g(f.value).error)
  {
    match f
    case CompletedExceptionally(e) => CompletedExceptionally(e)
    case Completed(v) =>
      (match g(v)
       case Success(w) => Completed(w)
       case Failure(e) => CompletedExceptionally(e))
  }

  /** `join()`: the value of a completed future, or the cause it failed with. */
  function JoinFuture<T>(f: Future<T>): (r: Result<T, Error>)
    ensures r.Success? <==> f.Completed?
    ensures f.Completed? ==> r.value == f.value
    ensures f.CompletedExceptionally? ==> r.error == f.cause
  {
    match f
    case Completed(v) => Success(v)
    case CompletedExceptionally(e) => Failure(e)
  }

  /**
   * Waiting for the asynchronous send is the blocking send: the same
   * response, or the same failure once the blocking wrapping is applied.
   */
  lemma {:induction false} JoinSendAsync(request: HttpRequest, files: FileContents, network: Network)
    ensures Send(request, files, network) == AsBlocking(JoinFuture(SendAsync(request, files, network)))
  {
    if BodyBytes(request, files).Failure? {
      assert BodyBytes(request, files).error == UncheckedIO;
    }
  }
}
