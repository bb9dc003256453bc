# ClickUp4Java attachment uploader, modelled in Dafny

This project models how ClickUp4Java builds and checks the request that
uploads a file as a ClickUp task attachment:

- the task's attachment URL, under the constant base URLs of the API;
- the API token, taken from the caller or from `CLICKUP_TOKEN` in the environment;
- the file path, parsed as `Paths.get` does on Unix and checked for existence;
- the multipart boundary, made from a UUID;
- the single-part `multipart/form-data` body (section 5.1.1 of RFC 2046,
  section 4.2 of RFC 7578);
- the request builders with their headers;
- the status check on the response, with its bounded rendering of the body;
- the order of the synchronous and asynchronous upload pipelines.

Everything is a value. Requests, responses, body publishers and completed
futures are datatypes; each operation is a total function returning a
`Result` whose failure names the Java exception the source throws.

The file system, the environment, the UUID, `Files.probeContentType`, the
URI grammar, the network and the JSON decoder are parameters:

- `ExistsPredicate` stands for `Files.exists`.
- `FileContents` stands for `Files.newInputStream`.
- `Environment` stands for `System.getenv`.
- `ContentTypeProbe` stands for `Files.probeContentType`.
- `UriCheck` stands for `new URI`.
- `Network` stands for the exchange itself.
- `Decoder` stands for Jackson.

Modules, in dependency order:

- `Wrappers`: `Option` and `Result`.
- `Sequences`: occurrence search over sequences.
- `JavaText`: UTF-8 encoding, `isBlank`, `Integer.toString`.
- `UnixPaths`, `Failures`, `JavaHttp`.
- `ApiUrlBase`, `TokenResolver`, `FileResolver`, `UuidBoundary`.
- `MultipartBody`, and `MultipartReader`, which is its partner: an RFC 2046
  reader that takes a built body apart again.
- `StatusValidator`, `RequestProvider`, `TaskAttachments`.

Source paths below are relative to the repository root.

## Model

| member | source | states |
|---|---|---|
| ApiUrlBase.ApiUrlBase.GetUrl | clickup4java/src/main/java/engine/API_URL_BASE.java:4-15 | both bases start with `https://` and end in `/`, so a task id appended to one forms a single new path segment |
| ApiUrlBase.TaskBaseExtendsV2Base | clickup4java/src/main/java/engine/API_URL_BASE.java:4-5 | the v2 base is exactly `https://api.clickup.com/api/v2/`; the task base is the v2 base followed by `task/` |
| TokenResolver.GetClickUpToken | clickup4java/src/main/java/helpers/ResolveClickUpTokenFromSystemVariable.java:20-29 | succeeds exactly when `CLICKUP_TOKEN` is set and not blank in Java's `isBlank` sense; the value is returned untrimmed; otherwise `IllegalArgumentException` with the fixed message |
| TokenResolver.OnlyTokenVariableConsulted | clickup4java/src/main/java/helpers/ResolveClickUpTokenFromSystemVariable.java:21 | two environments that agree on `CLICKUP_TOKEN` give the same outcome |
| TokenResolver.TokenAcceptedIffScanStopsInside | clickup4java/src/main/java/helpers/ResolveClickUpTokenFromSystemVariable.java:22-28 | a set token is accepted exactly when the whitespace scan of `isBlank` stops at a character inside it |
| FileResolver.CheckIfFileExist | clickup4java/src/main/java/helpers/ResolveProvidedFilePathFromUser.java:18-23 | true exactly when the file system reports the path as existing |
| FileResolver.GetFile | clickup4java/src/main/java/helpers/ResolveProvidedFilePathFromUser.java:25-29 | a NUL in the input gives `InvalidPathException`; an existing path is returned as parsed; a missing one gives `IOException` with `File does not exist: ` and the normalised path |
| FileResolver.GetFileQueriesOnlyExistence | clickup4java/src/main/java/helpers/ResolveProvidedFilePathFromUser.java:18-29 | the outcome depends on the file system only through the existence of the one parsed path |
| UnixPaths.Get | clickup4java/src/main/java/helpers/ResolveProvidedFilePathFromUser.java:26 | `Paths.get` succeeds exactly when there is no NUL; the name elements are the non-empty pieces of the input cut at every `/`, in order; the path is absolute exactly when the input starts with `/` |
| UnixPaths.FileName | clickup4java/src/main/java/helpers/GenerateBodyPublisherForRequestWithFile.java:41 | `getFileName` is `null` exactly for the root; the empty path's file name is the empty path; otherwise it is the last name element |
| UnixPaths.FileNameOfLastSegment | clickup4java/src/main/java/helpers/GenerateBodyPublisherForRequestWithFile.java:36-41 | for a directory string without NUL and a name without `/` or NUL, the file name of `dir/name` is that name |
| UnixPaths.GetToString | clickup4java/src/main/java/helpers/ResolveProvidedFilePathFromUser.java:26-27 | parsing the string of a valid path gives back the same path |
| UnixPaths.GetIdempotent | clickup4java/src/main/java/helpers/ResolveProvidedFilePathFromUser.java:26-27 | normalising the normalised string changes nothing |
| UnixPaths.FileNameAvoids | clickup4java/src/main/java/helpers/GenerateBodyPublisherForRequestWithFile.java:41 | a character absent from the path string is absent from its file name |
| UuidBoundary.NewUuidBoundary | clickup4java/src/main/java/helpers/GenerateUUIDBoundary.java:15 | the boundary is `----Boundary` followed by exactly the UUID text, so its length is 12 plus the text's |
| UuidBoundary.NewUuidBoundaryInjective | clickup4java/src/main/java/helpers/GenerateUUIDBoundary.java:15 | distinct UUIDs give distinct boundaries |
| UuidBoundary.UuidBoundaryIsRfc2046 | clickup4java/src/main/java/helpers/GenerateUUIDBoundary.java:15 | for any text of `UUID.toString` shape, the boundary is a legal RFC 2046 boundary (1 to 70 `bchars`, not ending in a space) |
| JavaText.Utf8 | clickup4java/src/main/java/helpers/GenerateBodyPublisherForRequestWithFile.java:49-52 | `getBytes(UTF_8)` takes one to four bytes per character, exactly one per character for ASCII text |
| JavaText.IsBlankIffScansToEnd | clickup4java/src/main/java/helpers/ResolveClickUpTokenFromSystemVariable.java:22 | `isBlank` holds exactly when the scan for a non-whitespace character (`Character.isWhitespace`) runs off the end |
| JavaText.IntToString | clickup4java/src/main/java/helpers/HttpStatusValidator.java:36 | the decimal text of a status code is digits with a leading `-` exactly for a negative code, and has no leading zero except for `0` itself |
| JavaText.Utf8Concat | clickup4java/src/main/java/helpers/GenerateBodyPublisherForRequestWithFile.java:49-52 | `getBytes(UTF_8)` of a concatenation is the concatenation of the encodings |
| JavaText.IntToStringRoundTrip | clickup4java/src/main/java/helpers/HttpStatusValidator.java:36 | the decimal text of any status code reads back as that code |
| JavaHttp.Subscribe | clickup4java/src/main/java/helpers/GenerateBodyPublisherForRequestWithFile.java:46-58 | the stream is the prefix bytes, the file's bytes verbatim, then the suffix bytes; a file that cannot be opened gives `UncheckedIOException`, never a partial body |
| JavaHttp.Send | clickup4java/src/main/java/api/attachments/CreateTaskAttachments.java:68 | an unreadable body ends the blocking send without a response, in an `IOException` whose cause is the supplier's `UncheckedIOException`; otherwise the request is exchanged with its body read out, and a failed exchange is an `IOException` |
| JavaHttp.SendAsync | clickup4java/src/main/java/api/attachments/CreateTaskAttachments.java:116 | an unreadable body fails the future with the supplier's `UncheckedIOException`; otherwise the future completes with the network's response, or fails with an `IOException` |
| JavaHttp.ThenApply | clickup4java/src/main/java/helpers/HttpStatusValidator.java:49-55 | a failed future keeps its cause; otherwise the future takes the continuation's value or its exception |
| JavaHttp.JoinFuture | clickup4java/src/main/java/api/attachments/CreateTaskAttachments.java:90-93 | `join` gives the future's value exactly when it completed normally, and otherwise its cause |
| JavaHttp.JoinSendAsync | clickup4java/src/main/java/api/attachments/CreateTaskAttachments.java:61-118 | the blocking send has the asynchronous send's outcome, except that an `UncheckedIOException` cause is rethrown wrapped in an `IOException` |
| MultipartBody.MimeType | clickup4java/src/main/java/helpers/GenerateBodyPublisherForRequestWithFile.java:37 | the probed type when there is one, else `application/octet-stream` |
| MultipartBody.Prefix | clickup4java/src/main/java/helpers/GenerateBodyPublisherForRequestWithFile.java:39-42 | the prefix is the dash-boundary line, the disposition line naming field `attachment` and the file, CR LF, the content-type line, then CR LF CR LF |
| MultipartBody.Suffix | clickup4java/src/main/java/helpers/GenerateBodyPublisherForRequestWithFile.java:44 | the suffix is the RFC 2046 delimiter for the same boundary, then `--` and CR LF |
| MultipartBody.DispositionStartHasNoCr | clickup4java/src/main/java/helpers/GenerateBodyPublisherForRequestWithFile.java:41 | the fixed text of the disposition line holds no CR |
| MultipartBody.ContentTypeStartIsPlain | clickup4java/src/main/java/helpers/GenerateBodyPublisherForRequestWithFile.java:42 | the fixed text of the content-type line is ASCII and holds no CR |
| MultipartBody.GenerateRequestWithFileAsBody | clickup4java/src/main/java/helpers/GenerateBodyPublisherForRequestWithFile.java:34-59 | a path that fails to resolve fails with that error before any body exists; the root path fails with `NullPointerException`; otherwise the publisher chains the UTF-8 prefix for the file's name and MIME type, the file, and the UTF-8 suffix |
| MultipartBody.PrefixBytes | clickup4java/src/main/java/helpers/GenerateBodyPublisherForRequestWithFile.java:39-49 | the prefix bytes are the dash-boundary bytes, the header-block bytes, then CR LF CR LF |
| MultipartBody.FramingBytes | clickup4java/src/main/java/helpers/GenerateBodyPublisherForRequestWithFile.java:39-52 | the prefix bytes start with the dash-boundary line and end in a blank line, without overlap; the suffix bytes are the delimiter then the close marker |
| MultipartBody.BodyFraming | clickup4java/src/main/java/helpers/GenerateBodyPublisherForRequestWithFile.java:46-58 | the body read out is prefix, file bytes and suffix, starting with the dash-boundary line, with a blank line right before the file and ending with the close-delimiter of the same boundary |
| MultipartReader.SplitHeaders | clickup4java/src/main/java/helpers/GenerateBodyPublisherForRequestWithFile.java:42 | a part splits at its first blank line into headers and content, which concatenate back to the part; it fails exactly when the part holds no blank line |
| MultipartReader.ReadFramed | clickup4java/src/main/java/helpers/GenerateBodyPublisherForRequestWithFile.java:39-52 | a body the reader accepts is exactly the dash line, headers, blank line, content, delimiter and close marker |
| MultipartReader.ReadSinglePart | clickup4java/src/main/java/helpers/GenerateBodyPublisherForRequestWithFile.java:39-52 | the same, for the framing bytes of a given boundary |
| MultipartReader.HeaderBlockShape | clickup4java/src/main/java/helpers/GenerateBodyPublisherForRequestWithFile.java:41-42 | with no CR in the file name and the MIME type, the header block is two CR-free lines joined by CR LF, the second starting with `C` |
| MultipartReader.DelimiterShape | clickup4java/src/main/java/helpers/GenerateBodyPublisherForRequestWithFile.java:44 | with no CR in the boundary, the delimiter bytes start with CR LF `-` and hold no other CR |
| MultipartReader.ReadFramedRecovers | clickup4java/src/main/java/helpers/GenerateBodyPublisherForRequestWithFile.java:46-58 | a body framed this way reads back as its header block and content, when the delimiter does not occur in CR LF and the content |
| MultipartReader.ReadsBackBuiltBody | clickup4java/src/main/java/helpers/GenerateBodyPublisherForRequestWithFile.java:39-52 | the bytes the builder frames read back as exactly the header block and the file's bytes, when boundary, file name and MIME type hold no CR and the file does not contain the delimiter |
| StatusValidator.RenderBody | clickup4java/src/main/java/helpers/HttpStatusValidator.java:16-25 | `null` renders `<empty>`; a body of at most 1000 characters renders unchanged; a longer one renders as its first 1000 characters then `...(truncated)`, 1014 in all; never more than 1014 |
| StatusValidator.RenderBodyIdempotent | clickup4java/src/main/java/helpers/HttpStatusValidator.java:20-25 | rendering a rendered body changes nothing |
| StatusValidator.RenderBodyKeepsOnlyTheHead | clickup4java/src/main/java/helpers/HttpStatusValidator.java:22-23 | long bodies that agree on their first 1000 characters render alike |
| StatusValidator.StatusMessage | clickup4java/src/main/java/helpers/HttpStatusValidator.java:36 | the failure message starts with `HTTP request failed. Status: ` and is bounded: the prefix, the code's digits, the separator and at most 1014 characters of body |
| StatusValidator.ParseStatusMessage | clickup4java/src/main/java/helpers/HttpStatusValidator.java:36 | a message it reads is exactly the failure text for the status and rendered body it reports |
| StatusValidator.StatusMessageRoundTrip | clickup4java/src/main/java/helpers/HttpStatusValidator.java:36 | every failure message reads back to its status code and rendered body |
| StatusValidator.CheckStatus | clickup4java/src/main/java/helpers/HttpStatusValidator.java:33-39 | `null` fails with `NullPointerException("response")`; the same response is returned exactly when the status is in 200..299; any other status fails with an `IOException` whose message reads back to the status and the rendered body |
| StatusValidator.CheckStatusIdempotent | clickup4java/src/main/java/helpers/HttpStatusValidator.java:33-39 | a response that passed passes again, unchanged |
| StatusValidator.CheckStatusAsync | clickup4java/src/main/java/helpers/HttpStatusValidator.java:47-56 | a `null` future fails with `NullPointerException("future")` at once; a failed future keeps its cause |
| StatusValidator.CheckStatusAsyncAgrees | clickup4java/src/main/java/helpers/HttpStatusValidator.java:47-56 | on a completed response, the checked future completes with the response exactly when the synchronous check passes, and otherwise fails with the same exception |
| RequestProvider.ResolveToken | clickup4java/src/main/java/engine/HttpRequestProvider.java:51 | a supplied token is used verbatim; only an absent one is looked up in the environment |
| RequestProvider.GenerateHttpRequestBase | clickup4java/src/main/java/engine/HttpRequestProvider.java:29-34 | fails with `URISyntaxException` exactly when the URL is rejected; otherwise a `GET` with no body to which `Authorization` with the token, then `Accept: application/json` are added |
| RequestProvider.ForGet | clickup4java/src/main/java/engine/HttpRequestProvider.java:50-54 | a built request is a `GET` without a body |
| RequestProvider.ForDelete | clickup4java/src/main/java/engine/HttpRequestProvider.java:71-75 | a built request is a `DELETE` without a body |
| RequestProvider.ForPostWithFileAsBody | clickup4java/src/main/java/engine/HttpRequestProvider.java:94-99 | a built request is a `POST` with the given body |
| RequestProvider.ForPost | clickup4java/src/main/java/engine/HttpRequestProvider.java:116-121 | a built request is a `POST` with the given body |
| RequestProvider.ForPutWithFileAsBody | clickup4java/src/main/java/engine/HttpRequestProvider.java:140-145 | a built request is a `PUT` with the given body |
| RequestProvider.ForPut | clickup4java/src/main/java/engine/HttpRequestProvider.java:162-167 | a built request is a `PUT` with the given body |
| RequestProvider.BuiltRequestIsExpected | clickup4java/src/main/java/engine/HttpRequestProvider.java:29-167 | each of the six builders yields the request it promises: its method, the URL, its headers and its body |
| RequestProvider.BuiltRequestShape | clickup4java/src/main/java/engine/HttpRequestProvider.java:29-167 | every built request has the method of its builder (GET, DELETE, POST, POST, PUT, PUT), the URL, the promised body, the headers added first are `Authorization` with the resolved token and `Accept: application/json`, then `Content-Type` `multipart/form-data; boundary=` plus the boundary, `application/json`, or none for `GET` and `DELETE`; there are no other headers |
| RequestProvider.BuildFailures | clickup4java/src/main/java/engine/HttpRequestProvider.java:29-54 | a builder fails exactly when the token or the URL does; a missing token is reported before an invalid URL |
| RequestProvider.SuppliedTokenUsedVerbatim | clickup4java/src/main/java/engine/HttpRequestProvider.java:50-54 | with a supplied token, even a blank one, the environment plays no part and the token is the `Authorization` value |
| RequestProvider.FirstValue | clickup4java/src/main/java/engine/HttpRequestProvider.java:31-33 | a header's value is found exactly when a header of that exact name was added, and it is the value of the first one |
| RequestProvider.BoundaryOf | clickup4java/src/main/java/engine/HttpRequestProvider.java:96 | a boundary it reads from a `Content-Type` value is the one that value was built from |
| RequestProvider.BoundaryOfMultipartContentType | clickup4java/src/main/java/engine/HttpRequestProvider.java:96 | the boundary placed in the multipart `Content-Type` reads back from it |
| TaskAttachments.BuildUrl | clickup4java/src/main/java/api/attachments/CreateTaskAttachments.java:30-35 | without a team id the URL is `https://api.clickup.com/api/v2/task/`, the task id and `/attachment`; with one, that URL followed by `?custom_task_ids=true&team_id=` and the team id |
| TaskAttachments.ParseAttachmentUrl | clickup4java/src/main/java/api/attachments/CreateTaskAttachments.java:30-35 | a URL it reads is exactly the attachment URL of the ids it reports |
| TaskAttachments.EndpointRoundTrip | clickup4java/src/main/java/api/attachments/CreateTaskAttachments.java:30-35 | under any base, a task id without `/` and any team id read back from the endpoint built for them |
| TaskAttachments.AttachmentUrlRoundTrip | clickup4java/src/main/java/api/attachments/CreateTaskAttachments.java:30-35 | a task id without `/` and any team id read back from their attachment URL, so such ids never share a URL |
| TaskAttachments.BuildUrlUnderTaskBase | clickup4java/src/main/java/api/attachments/CreateTaskAttachments.java:31-34 | every attachment URL starts with the task base, followed by the task id verbatim |
| TaskAttachments.TeamUrlExtendsPlainUrl | clickup4java/src/main/java/api/attachments/CreateTaskAttachments.java:30-35 | the team-id URL is the plain one followed by exactly `?custom_task_ids=true&team_id=` and the team id |
| TaskAttachments.PrepareUpload | clickup4java/src/main/java/api/attachments/CreateTaskAttachments.java:64-67 | a body that cannot be built fails the call with that error, before the token or the URL is looked at |
| TaskAttachments.DecodeBody | clickup4java/src/main/java/api/attachments/CreateTaskAttachments.java:70 | decoding succeeds exactly when the body is present and the decoder accepts it; otherwise the JSON mapping fails |
| TaskAttachments.CallSync | clickup4java/src/main/java/api/attachments/CreateTaskAttachments.java:61-71 | preparation failures and send failures end the call with that error; a 2xx response is decoded |
| TaskAttachments.CallAsync | clickup4java/src/main/java/api/attachments/CreateTaskAttachments.java:105-118 | the call fails at once exactly when preparation fails, with that error |
| TaskAttachments.StatusCheckedBeforeDecoding | clickup4java/src/main/java/api/attachments/CreateTaskAttachments.java:68-70 | a non-2xx response ends the synchronous call with the status check's exception, whatever the decoder |
| TaskAttachments.AsyncStatusCheckedBeforeDecoding | clickup4java/src/main/java/api/attachments/CreateTaskAttachments.java:115-117 | in the asynchronous call too, a non-2xx response fails the future with the status check's exception |
| TaskAttachments.AsyncAgreesWithSync | clickup4java/src/main/java/api/attachments/CreateTaskAttachments.java:105-118 | the synchronous call ends as the asynchronous one, joined, with the blocking send's wrapping of an unreadable body applied; the asynchronous call's immediate failures are the synchronous call's failures |
| TaskAttachments.PreSendFailuresIgnoreNetwork | clickup4java/src/main/java/api/attachments/CreateTaskAttachments.java:64-67 | failures before the send do not depend on the network, the file contents or the decoder |
| TaskAttachments.PreparedRequestShape | clickup4java/src/main/java/api/attachments/CreateTaskAttachments.java:64-67 | the request sent is a `POST` to the attachment URL with the resolved token, `Accept: application/json`, the call's boundary in `Content-Type`, and the body built for the file |
| TaskAttachments.BoundarySharedByHeaderAndBody | clickup4java/src/main/java/api/attachments/CreateTaskAttachments.java:64-67 | the boundary announced in `Content-Type` is the one that frames the body: its dash line starts the body and its close-delimiter ends it |
| TaskAttachments.WireBody | clickup4java/src/main/java/api/attachments/CreateTaskAttachments.java:68 | the bytes put on the wire are the prefix, the file's bytes and the suffix |
| TaskAttachments.UuidBoundaryHasNoCr | clickup4java/src/main/java/helpers/GenerateUUIDBoundary.java:15 | a boundary made from a UUID holds no CR |
| TaskAttachments.UploadedFileReadsBack | clickup4java/src/main/java/api/attachments/CreateTaskAttachments.java:64-70 | a receiver reading the wire bytes under the boundary announced in `Content-Type` gets back the part's header block and the file's bytes exactly; this needs a real UUID, no CR in the path or MIME type, and a file that does not contain the delimiter |

## Left out

- `HttpClientProvider` (the shared HTTP/2 client and its timeout) is not part of this model. The network is an input function from the request on the wire to a response or an `IOException`.
- `ResolveJsonMappingToObjects` is not part of this model, and neither is `CreateTaskAttachmentResponse`. Jackson is an input decoder; every decoding failure, a `null` body included, is the one `RuntimeException` it throws.
- The tests and their property loading are not modelled, since they call the live API.
- Concurrency is not modelled: scheduling, cancellation and `InterruptedException` are left out. A future is modelled only once it has completed.
- JavaHttp.JoinFuture: `join` throws a `CompletionException` whose cause is the failure; the model returns that cause itself.
- JavaHttp.Send: the JDK sends the headers before it reads the body, so an unreadable body may end an exchange already begun. A file that opens but fails while it is read, such as a directory, fails only after the prefix bytes, so part of the body may have been sent; the model has one outcome for both, no response. The model consults no network then, since no response results either way. Every exception the blocking send rethrows is a fresh `IOException` around the original; the model keeps `IOException` causes as they are and wraps only the supplier's `UncheckedIOException`.
- JavaHttp.HttpRequest: headers are kept in the order the builder added them. The JDK's `HttpHeaders` is a map sorted by name without regard to case, so what carries over is each name's values, not the order between names.
- RequestProvider.FirstValue: compares names exactly, where the JDK ignores case.
- UnixPaths.Get: a character the platform's file-name charset (`sun.jnu.encoding`) cannot map also gives `InvalidPathException`; the model assumes a charset that maps every character, so only NUL is rejected.
- `null` arguments are not modelled: strings are values. A `null` task id would be written as `null` into the URL, and a `null` file path fails with `NullPointerException` in `Paths.get`.
- TaskAttachments.CallAsync: a `null` response delivered inside the future is not modelled, because `sendAsync` never completes with `null`.
- StatusValidator.RenderBody: lengths and `substring` count Unicode scalar values, not UTF-16 code units. The two differ only for characters outside the Basic Multilingual Plane.
- JavaText.Utf8: a Java string may hold an unpaired surrogate, which `getBytes(UTF_8)` encodes as `?`; a character here is a Unicode scalar value, so that case cannot arise in the model.
- TokenResolver.GetClickUpToken: `isBlank` is judged per scalar value, not per UTF-16 code unit, for the same reason.
- UnixPaths.Get: only the Unix file-system provider is modelled. Windows path syntax and other providers are left out.
- RequestProvider.GenerateHttpRequestBase: `new URI` is an input predicate. The further checks of the JDK builder are left out: an `http`/`https` scheme, a host, and legal header names and values.
- MultipartBody.GenerateRequestWithFileAsBody: the `NullPointerException` for the root path carries an empty message, not the JVM's generated one. An `IOException` from `Files.probeContentType` is left out; the probe is an input that always answers.
- MultipartBody.GenerateRequestWithFileAsBody: the file name and MIME type are inserted without escaping, as in the source. Reading the part back is proved only when they hold no CR.
- The lazy, forward-only `SequenceInputStream` is modelled as the concatenation of its three byte sequences.
