/**
 * `CreateTaskAttachments`: uploads one file as an attachment of a ClickUp
 * task. Both entry points run the same straight-line pipeline (boundary,
 * body, request) and differ only in how the request is sent and checked.
 * The UUID, environment, file system, MIME probe, network and JSON decoder
 * are inputs.
 */
module TaskAttachments {
  import opened Wrappers
  import opened JavaText
  import opened UnixPaths
  import opened Failures
  import opened JavaHttp
  import opened TokenResolver
  import opened FileResolver
  import opened UuidBoundary
  import opened ApiUrlBase
  import opened MultipartBody
  import opened MultipartReader
  import opened StatusValidator
  import opened RequestProvider
  import Sequences

  const AttachmentSegment: string := "/attachment"

  const CustomTaskIdsQuery: string := "?custom_task_ids=true&team_id="

  /**
   * `buildUrl`: the task's attachment endpoint; with a team id, the query
   * that makes the server read `taskId` as a custom task id. Both ids are
   * inserted verbatim.
   */
  function BuildUrl(taskId: string, teamId: Option<string>): (url: string)
    ensures teamId.None? ==> url == "https://api.clickup.com/api/v2/task/" + taskId + "/attachment"
    ensures teamId.Some? ==>
              url == "https://api.clickup.com/api/v2/task/" + taskId + "/attachment"
                     + "?custom_task_ids=true&team_id=" + teamId.value
  {
    TaskBaseExtendsV2Base();
    EndpointUnder(TaskApiUrlBase.GetUrl(), taskId, teamId)
  }

  /** The endpoint `buildUrl` forms, under any base URL. */
  function EndpointUnder(base: string, taskId: string, teamId: Option<string>): string {
    match teamId
    case Some(id) => base + taskId + AttachmentSegment + CustomTaskIdsQuery + id
    case None => base + taskId + AttachmentSegment
  }

  /** What an attachment URL addresses: the task id and the optional team id. */
  datatype AttachmentTarget = AttachmentTarget(taskId: string, teamId: Option<string>)

  /** The part of an endpoint after its base. */
  function EndpointTail(taskId: string, teamId: Option<string>): string {
    match teamId
    case Some(id) => taskId + AttachmentSegment + CustomTaskIdsQuery + id
    case None => taskId + AttachmentSegment
  }

  /** An endpoint is its base followed by its tail. */
  lemma EndpointSplit(base: string, taskId: string, teamId: Option<string>)
    ensures EndpointUnder(base, taskId, teamId) == base + EndpointTail(taskId, teamId)
  {
    Sequences.Assoc(base, taskId, AttachmentSegment);
    if teamId.Some? {
      Sequences.Regroup(base, taskId + AttachmentSegment, CustomTaskIdsQuery, teamId.value);
    }
  }

  /**
   * Reads the part of an endpoint after its base: the task id runs to the
   * first `/attachment`; after it comes nothing, or the custom-task-id query
   * and the team id.
   */
  function ParseEndpointTail(rest: string): (r: Option<AttachmentTarget>)
    ensures r.Some? ==> rest == EndpointTail(r.value.taskId, r.value.teamId)
  {
    match Sequences.IndexOf(rest, AttachmentSegment)
    case None => None
    case Some(i) =>
      var taskId, tail := rest[..i], rest[i + |AttachmentSegment|..];
      Sequences.OccurrenceSplit(rest, AttachmentSegment, i);
      if tail == [] then
        assert rest == taskId + AttachmentSegment + [];
        Some(AttachmentTarget(taskId, None))
      else if |tail| >= |CustomTaskIdsQuery| && tail[..|CustomTaskIdsQuery|] == CustomTaskIdsQuery then
        Sequences.PrefixSplit(tail, CustomTaskIdsQuery);
        Sequences.Regroup([], taskId + AttachmentSegment, CustomTaskIdsQuery, tail[|CustomTaskIdsQuery|..]);
        Some(AttachmentTarget(taskId, Some(tail[|CustomTaskIdsQuery|..])))
      else None
  }

  /** Reads an endpoint under `base` back to the task id and team id it was formed from. */
  function ParseEndpointUnder(base: string, url: string): (r: Option<AttachmentTarget>)
    ensures r.Some? ==> url == EndpointUnder(base, r.value.taskId, r.value.teamId)
  {
    if |url| < |base| || url[..|base|] != base then None
    else
      Sequences.PrefixSplit(url, base);
      var r := ParseEndpointTail(url[|base|..]);
      if r.Some? then
        EndpointSplit(base, r.value.taskId, r.value.teamId);
        r
      else r
  }

  /** Reads an attachment URL back to the task id and team id it was built from. */
  function ParseAttachmentUrl(url: string): (r: Option<AttachmentTarget>)
    ensures r.Some? ==> url == BuildUrl(r.value.taskId, r.value.teamId)
  {
    ParseEndpointUnder(TaskApiUrlBase.GetUrl(), url)
  }

  /** A task id without `/` ends at the first `/attachment` of its tail. */
  lemma EndpointTailRoundTrip(taskId: string, teamId: Option<string>, rest: string)
    requires Separator !in taskId
    requires rest == EndpointTail(taskId, teamId)
    ensures ParseEndpointTail(rest) == Some(AttachmentTarget(taskId, teamId))
  {
    var tail := if teamId.Some? then CustomTaskIdsQuery + teamId.value else [];
    assert rest == taskId + AttachmentSegment + tail;
    forall j: nat | j < |taskId| ensures !Sequences.OccursAt(rest, AttachmentSegment, j) {
      assert rest[j] == taskId[j];
      Sequences.MismatchAt(rest, AttachmentSegment, j, 0);
    }
    assert rest[|taskId|..|taskId| + |AttachmentSegment|] == AttachmentSegment;
    Sequences.FirstOccurrence(rest, AttachmentSegment, |taskId|);
    assert rest[..|taskId|] == taskId && rest[|taskId| + |AttachmentSegment|..] == tail;
    if teamId.Some? {
      Sequences.ConcatSlices(CustomTaskIdsQuery, teamId.value);
    }
  }

  /** Under any base, a task id without `/` and any team id read back from their endpoint. */
  lemma EndpointRoundTrip(base: string, taskId: string, teamId: Option<string>)
    requires Separator !in taskId
    ensures ParseEndpointUnder(base, EndpointUnder(base, taskId, teamId)) == Some(AttachmentTarget(taskId, teamId))
  {
    EndpointSplit(base, taskId, teamId);
    Sequences.ConcatSlices(base, EndpointTail(taskId, teamId));
    EndpointTailRoundTrip(taskId, teamId, EndpointTail(taskId, teamId));
  }

  /**
   * A task id without `/` and any team id can be read back from the URL
   * built for them; so such ids never share a URL.
   */
  lemma AttachmentUrlRoundTrip(taskId: string, teamId: Option<string>)
    requires Separator !in taskId
    ensures ParseAttachmentUrl(BuildUrl(taskId, teamId)) == Some(AttachmentTarget(taskId, teamId))
  {
    EndpointRoundTrip(TaskApiUrlBase.GetUrl(), taskId, teamId);
  }

  /**
   * Every attachment URL lies under the task base, with the task id right
   * after it, verbatim.
   */
  lemma BuildUrlUnderTaskBase(taskId: string, teamId: Option<string>)
    ensures var base, url := TaskApiUrlBase.GetUrl(), BuildUrl(taskId, teamId);
            && base == "https://api.clickup.com/api/v2/task/"
            && |url| >= |base| + |taskId| + |AttachmentSegment|
            && url[..|base|] == base
            && url[|base|..|base| + |taskId|] == taskId
  {
    TaskBaseExtendsV2Base();
    var base := TaskApiUrlBase.GetUrl();
    var tail := if teamId.Some? then CustomTaskIdsQuery + teamId.value else [];
    assert BuildUrl(taskId, teamId) == base + taskId + (AttachmentSegment + tail);
  }

  /**
   * The team-id URL is the plain one followed by the custom-task-id query,
   * which ends in the team id.
   */
  lemma TeamUrlExtendsPlainUrl(taskId: string, teamId: string)
    ensures var plain, team := BuildUrl(taskId, None), BuildUrl(taskId, Some(teamId));
            |plain| < |team| && team[..|plain|] == plain
            && team[|plain|..] == "?custom_task_ids=true&team_id=" + teamId
  {
    var plain := BuildUrl(taskId, None);
    assert BuildUrl(taskId, Some(teamId)) == plain + (CustomTaskIdsQuery + teamId);
  }

  // ------------------------------------------------------------ the pipeline

  /** The arguments of an upload call, together with the inputs that stand for the environment. */
  datatype Upload = Upload(
    taskId: string,
    filePath: string,
    clickupToken: Option<string>,
    teamId: Option<string>,
    /** The text of the random UUID the boundary is made from. */
    uuid: string,
    env: Environment,
    fileExists: ExistsPredicate,
    probe: ContentTypeProbe,
    validUri: UriCheck)

  /** The boundary of the call: generated once, used for both the body and the header. */
  function UploadBoundary(u: Upload): string {
    NewUuidBoundary(u.uuid)
  }

  /**
   * The steps both entry points share: the boundary, then the body (which
   * resolves the file), then the multipart `POST` to the attachment URL.
   */
  function PrepareUpload(u: Upload): (r: Result<HttpRequest, Error>)
    ensures GenerateRequestWithFileAsBody(UploadBoundary(u), u.filePath, u.fileExists, u.probe).Failure? ==>
              r == Failure(GenerateRequestWithFileAsBody(UploadBoundary(u), u.filePath, u.fileExists, u.probe).error)
  {
    var boundary := NewUuidBoundary(u.uuid);
    var body :- GenerateRequestWithFileAsBody(boundary, u.filePath, u.fileExists, u.probe);
    ForPostWithFileAsBody(BuildUrl(u.taskId, u.teamId), boundary, body, u.clickupToken, u.env, u.validUri)
  }

  /** What `JSON decoding` yields for a body, `None` when Jackson throws. */
  type Decoder<T> = string -> Option<T>

  /** `convertJSON(resp.body(), ...)`: a `null` body or an undecodable one fails. */
  function DecodeBody<T>(response: HttpResponse, decode: Decoder<T>): (r: Result<T, Error>)
    ensures r.Success? <==> response.body.Some? && decode(response.body.value).Some?
    ensures r.Success? ==> r.value == decode(response.body.value).value
    ensures r.Failure? ==> r.error == JsonMapping
  {
    match response.body
    case None => Failure(JsonMapping)
    case Some(text) =>
      match decode(text)
      case None => Failure(JsonMapping)
      case Some(v) => Success(v)
  }

  /**
   * `callSyncCreateTaskAttachmentAPI`: prepare, send, check the status,
   * then decode the body of the response.
   */
  function CallSync<T>(u: Upload, files: FileContents, network: Network, decode: Decoder<T>): (r: Result<T, Error>)
    ensures PrepareUpload(u).Failure? ==> r == Failure(PrepareUpload(u).error)
    ensures PrepareUpload(u).Success? && Send(PrepareUpload(u).value, files, network).Failure? ==>
              r == Failure(Send(PrepareUpload(u).value, files, network).error)
    ensures PrepareUpload(u).Success? && Send(PrepareUpload(u).value, files, network).Success?
            && IsSuccessful(Send(PrepareUpload(u).value, files, network).value.statusCode) ==>
              r == DecodeBody(Send(PrepareUpload(u).value, files, network).value, decode)
  {
    var request :- PrepareUpload(u);
    var response :- Send(request, files, network);
    var checked :- CheckStatus(Some(response));
    DecodeBody(response, decode)
  }

  /**
   * `callAsyncCreateTaskAttachmentAPI`: the same preparation, whose failures
   * are thrown at once; then the checked send and the decoding, chained on
   * the future.
   */
  function CallAsync<T>(u: Upload, files: FileContents, network: Network, decode: Decoder<T>)
    : (r: Result<Future<T>, Error>)
    ensures r.Failure? <==> PrepareUpload(u).Failure?
    ensures r.Failure? ==> r.error == PrepareUpload(u).error
  {
    var request :- PrepareUpload(u);
    var checked := CheckStatusAsync(Some(SendAsync(request, files, network))).value;
    Success(ThenApply(checked, (response: HttpResponse) => DecodeBody(response, decode)))
  }

  // ----------------------------------------------------------- lemmas

  /**
   * A response outside 2xx never reaches the decoder: the call fails with the
   * status check's exception, whatever the decoder would have done.
   */
  lemma StatusCheckedBeforeDecoding<T>(u: Upload, files: FileContents, network: Network,
                                       decode1: Decoder<T>, decode2: Decoder<T>)
    requires PrepareUpload(u).Success?
    requires Send(PrepareUpload(u).value, files, network).Success?
    requires !IsSuccessful(Send(PrepareUpload(u).value, files, network).value.statusCode)
    ensures CallSync(u, files, network, decode1) == CallSync(u, files, network, decode2)
    ensures CallSync(u, files, network, decode1)
            == Failure(CheckStatus(Some(Send(PrepareUpload(u).value, files, network).value)).error)
  {
  }

  /**
   * The asynchronous call, joined, ends as the synchronous one: the same
   * value, or the same exception once the blocking send's wrapping of an
   * unreadable body is applied.
   */
  lemma AsyncAgreesWithSync<T>(u: Upload, files: FileContents, network: Network, decode: Decoder<T>)
    ensures CallAsync(u, files, network, decode).Success? ==>
              CallSync(u, files, network, decode) == AsBlocking(JoinFuture(CallAsync(u, files, network, decode).value))
    ensures CallAsync(u, files, network, decode).Failure? ==>
              CallSync(u, files, network, decode) == Failure(CallAsync(u, files, network, decode).error)
  {
    if PrepareUpload(u).Success? {
      var request := PrepareUpload(u).value;
      JoinSendAsync(request, files, network);
      var sent := SendAsync(request, files, network);
      var checked := CheckStatusAsync(Some(sent)).value;
      var joined := ThenApply(checked, (response: HttpResponse) => DecodeBody(response, decode));
      assert CallAsync(u, files, network, decode).value == joined;
      match sent
      case CompletedExceptionally(e) =>
        assert joined == CompletedExceptionally(e);
        assert CallSync(u, files, network, decode) == Failure(BlockingFailure(e));
      case Completed(response) =>
        CheckStatusAsyncAgrees(response);
        assert Send(request, files, network) == Success(response);
        if CheckStatus(Some(response)).Success? {
          assert checked == Completed(response);
          assert CallSync(u, files, network, decode) == DecodeBody(response, decode);
          assert JoinFuture(joined) == DecodeBody(response, decode);
        } else {
          assert CallSync(u, files, network, decode) == Failure(checked.cause);
          assert JoinFuture(joined) == Failure(checked.cause);
        }
    }
  }

  /**
   * In the asynchronous call too, a response outside 2xx never reaches the
   * decoder: the future fails with the status check's exception.
   */
  lemma AsyncStatusCheckedBeforeDecoding<T>(u: Upload, files: FileContents, network: Network, decode: Decoder<T>)
    requires PrepareUpload(u).Success?
    requires Send(PrepareUpload(u).value, files, network).Success?
    requires !IsSuccessful(Send(PrepareUpload(u).value, files, network).value.statusCode)
    ensures CallAsync(u, files, network, decode).Success?
    ensures JoinFuture(CallAsync(u, files, network, decode).value)
            == Failure(CheckStatus(Some(Send(PrepareUpload(u).value, files, network).value)).error)
  {
    AsyncAgreesWithSync(u, files, network, decode);
    StatusCheckedBeforeDecoding(u, files, network, decode, decode);
  }

  /**
   * Failures before the send depend only on the call's arguments: the
   * network, the file contents and the decoder play no part in them.
   */
  lemma PreSendFailuresIgnoreNetwork<T>(u: Upload, files1: FileContents, files2: FileContents,
                                        network1: Network, network2: Network,
                                        decode1: Decoder<T>, decode2: Decoder<T>)
    requires PrepareUpload(u).Failure?
    ensures CallSync(u, files1, network1, decode1) == CallSync(u, files2, network2, decode2)
    ensures CallAsync(u, files1, network1, decode1) == CallAsync(u, files2, network2, decode2)
  {
  }

  /**
   * The request both entry points send: a multipart `POST` to the
   * attachment URL, with the resolved token, `Accept: application/json`, the
   * boundary of the call in `Content-Type`, and the body built for the file.
   */
  lemma PreparedRequestShape(u: Upload)
    requires PrepareUpload(u).Success?
    ensures GenerateRequestWithFileAsBody(UploadBoundary(u), u.filePath, u.fileExists, u.probe).Success?
    ensures ResolveToken(u.clickupToken, u.env).Success?
    ensures var request := PrepareUpload(u).value;
            && request.verb == POST
            && request.uri == BuildUrl(u.taskId, u.teamId)
            && request.body == Some(GenerateRequestWithFileAsBody(UploadBoundary(u), u.filePath, u.fileExists, u.probe).value)
            && FirstValue(request.headers, AuthorizationHeader) == Some(ResolveToken(u.clickupToken, u.env).value)
            && FirstValue(request.headers, AcceptHeader) == Some(JsonMediaType)
            && FirstValue(request.headers, ContentTypeHeader) == Some(MultipartContentType(UploadBoundary(u)))
  {
    var boundary := UploadBoundary(u);
    var body := GenerateRequestWithFileAsBody(boundary, u.filePath, u.fileExists, u.probe).value;
    BuiltRequestShape(PostWithFileBuilder(boundary, body), BuildUrl(u.taskId, u.teamId), u.clickupToken, u.env, u.validUri);
  }

  /**
   * The boundary announced in the request's `Content-Type` is the one that
   * frames its body: the body starts with its dash-boundary line and ends
   * with its close-delimiter.
   */
  lemma BoundarySharedByHeaderAndBody(u: Upload)
    requires PrepareUpload(u).Success?
    ensures var request := PrepareUpload(u).value;
            var announced := FirstValue(request.headers, ContentTypeHeader);
            && announced.Some?
            && BoundaryOf(announced.value) == Some(UploadBoundary(u))
            && request.body.Some? && request.body.value.ConcatenatedStream?
            && request.body.value.suffix == Utf8(Delimiter(UploadBoundary(u))) + Utf8(CloseMarker)
            && |request.body.value.prefix| >= |Utf8(DashBoundaryLine(UploadBoundary(u)))|
            && request.body.value.prefix[..|Utf8(DashBoundaryLine(UploadBoundary(u)))|]
               == Utf8(DashBoundaryLine(UploadBoundary(u)))
  {
    var boundary := UploadBoundary(u);
    PreparedRequestShape(u);
    BoundaryOfMultipartContentType(boundary);
    var path := GetFile(u.filePath, u.fileExists).value;
    FramingBytes(boundary, FileName(path).value, MimeType(u.probe(path)));
  }

  /** The bytes put on the wire: the prefix, the file's bytes, the suffix. */
  lemma WireBody(u: Upload, files: FileContents)
    requires PrepareUpload(u).Success?
    requires files(GetFile(u.filePath, u.fileExists).value).Some?
    ensures var path := GetFile(u.filePath, u.fileExists).value;
            var name, mime := FileName(path).value, MimeType(u.probe(path));
            BodyBytes(PrepareUpload(u).value, files)
            == Success(Utf8(Prefix(UploadBoundary(u), name, mime)) + files(path).value
                       + Utf8(Suffix(UploadBoundary(u))))
  {
    PreparedRequestShape(u);
  }

  /** A boundary made from a UUID holds no carriage return. */
  lemma UuidBoundaryHasNoCr(uuid: string)
    requires IsUuidText(uuid)
    ensures '\r' !in NewUuidBoundary(uuid)
  {
    UuidBoundaryIsRfc2046(uuid);
    var b := NewUuidBoundary(uuid);
    forall i | 0 <= i < |b| ensures b[i] != '\r' {
      assert IsBoundaryCharNoSpace(b[i]);
    }
  }

  /**
   * End to end: a receiver that reads the bytes put on the wire, under the
   * boundary announced in `Content-Type`, gets back the part's headers and
   * the file's bytes exactly, provided the UUID is a real one, the path and
   * the MIME type hold no CR, and the file does not contain the delimiter.
   */
  lemma UploadedFileReadsBack(u: Upload, files: FileContents)
    requires IsUuidText(u.uuid) && '\r' !in u.filePath
    requires PrepareUpload(u).Success?
    requires var path := GetFile(u.filePath, u.fileExists).value;
             && files(path).Some?
             && '\r' !in MimeType(u.probe(path))
             && !Sequences.Contains([13, 10] + files(path).value, Utf8(Delimiter(UploadBoundary(u))))
    ensures var request := PrepareUpload(u).value;
            var path := GetFile(u.filePath, u.fileExists).value;
            && BoundaryOf(FirstValue(request.headers, ContentTypeHeader).GetOr([])) == Some(UploadBoundary(u))
            && BodyBytes(request, files).Success?
            && ReadSinglePart(BodyBytes(request, files).value, UploadBoundary(u))
               == Some(Part(Utf8(HeaderBlock(FileName(path).value, MimeType(u.probe(path)))), files(path).value))
  {
    var boundary := UploadBoundary(u);
    var path := GetFile(u.filePath, u.fileExists).value;
    var name, mime := FileName(path).value, MimeType(u.probe(path));
    PreparedRequestShape(u);
    BoundaryOfMultipartContentType(boundary);
    WireBody(u, files);
    UuidBoundaryHasNoCr(u.uuid);
    FileNameAvoids(u.filePath, '\r');
    ReadsBackBuiltBody(boundary, name, mime, files(path).value);
  }
}
