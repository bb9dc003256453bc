/**
 * `GenerateBodyPublisherForRequestWithFile.generateRequestWithFileAsBody`: a
 * one-part `multipart/form-data` body (section 4.2 of RFC 7578) framed as
 * section 5.1.1 of RFC 2046 prescribes: the dash-boundary line, the part's
 * headers, a blank line, the file's bytes, and the close-delimiter.
 */
module MultipartBody {
  import opened Wrappers
  import opened JavaText
  import opened UnixPaths
  import opened Failures
  import opened JavaHttp
  import opened FileResolver
  import Sequences

  /** The MIME type used when probing the file yields nothing. */
  const DefaultMimeType: string := "application/octet-stream"

  /** The form field the file is sent under. */
  const FieldName: string := "attachment"

  /** The disposition header up to the file name: `form-data`, field `attachment`. */
  const DispositionStart: string := "Content-Disposition: form-data; " + "name=\"" + FieldName + "\"; filename=\""

  const ContentTypeStart: string := "Content-Type: "

  /** The fixed text of the disposition header holds no carriage return. */
  lemma DispositionStartHasNoCr()
    ensures '\r' !in DispositionStart
  {
    assert '\r' !in "Content-Disposition: form-data; ";
    assert '\r' !in "name=\"" && '\r' !in FieldName && '\r' !in "\"; filename=\"";
  }

  /** The fixed text of the content-type header is ASCII and holds no carriage return. */
  lemma ContentTypeStartIsPlain()
    ensures IsAscii(ContentTypeStart) && '\r' !in ContentTypeStart
  {
  }

  /** What `Files.probeContentType` answers for each path (`None` for `null`). */
  type ContentTypeProbe = Path -> Option<string>

  /** `Optional.ofNullable(probed).orElse("application/octet-stream")`. */
  function MimeType(probed: Option<string>): (m: string)
    ensures probed.Some? ==> m == probed.value
    ensures probed.None? ==> m == "application/octet-stream"
  {
    probed.GetOr(DefaultMimeType)
  }

  // The pieces of the framing, as RFC 2046 names them.

  /** `dash-boundary CRLF`. */
  function DashBoundaryLine(boundary: string): string {
    "--" + boundary + "\r\n"
  }

  /** The part's `Content-Disposition` header line, without its line break. */
  function ContentDisposition(fileName: string): string {
    DispositionStart + fileName + "\""
  }

  /** The part's `Content-Type` header line, without its line break. */
  function ContentTypeLine(mime: string): string {
    ContentTypeStart + mime
  }

  /** The part's header block: its two header lines joined by a line break. */
  function HeaderBlock(fileName: string, mime: string): string {
    ContentDisposition(fileName) + "\r\n" + ContentTypeLine(mime)
  }

  /** `delimiter := CRLF dash-boundary`. */
  function Delimiter(boundary: string): string {
    "\r\n--" + boundary
  }

  /** What follows the last delimiter to make it the close-delimiter, then a line break. */
  const CloseMarker: string := "--\r\n"

  /** The bytes of the blank line that ends the part's headers: CR LF CR LF. */
  const BlankLineBytes: seq<byte> := [13, 10, 13, 10]

  /** The text before the file's bytes, built as the source builds it. */
  function Prefix(boundary: string, fileName: string, mime: string): (p: string)
    ensures p == DashBoundaryLine(boundary) + HeaderBlock(fileName, mime) + "\r\n\r\n"
    ensures |p| >= 4 && p[|p| - 4..] == "\r\n\r\n"
  {
    "--" + boundary + "\r\n"
    + DispositionStart + fileName + "\"\r\n"
    + ContentTypeStart + mime + "\r\n\r\n"
  }

  /** The text after the file's bytes: the close-delimiter and a line break. */
  function Suffix(boundary: string): (s: string)
    ensures s == Delimiter(boundary) + CloseMarker
  {
    "\r\n--" + boundary + "--\r\n"
  }

  /**
   * The body publisher for uploading the file at `filePath` under `boundary`.
   * A path that does not exist fails before any body exists; the root path,
   * which has no file name, fails with `NullPointerException`.
   */
  function GenerateRequestWithFileAsBody(boundary: string, filePath: string,
                                         fileExists: ExistsPredicate, probe: ContentTypeProbe)
    : (r: Result<BodyPublisher, Error>)
    ensures GetFile(filePath, fileExists).Failure? ==> r == Failure(GetFile(filePath, fileExists).error)
    ensures GetFile(filePath, fileExists).Success? ==>
              var path := GetFile(filePath, fileExists).value;
              && (FileName(path).None? ==> r == Failure(NullPointer("")))
              && (FileName(path).Some? ==>
                    r == Success(ConcatenatedStream(
                           Utf8(Prefix(boundary, FileName(path).value, MimeType(probe(path)))),
                           path,
                           Utf8(Suffix(boundary)))))
  {
    var file :- GetFile(filePath, fileExists);
    var mimeType := MimeType(probe(file));
    match FileName(file)
    case None => Failure(NullPointer(""))
    case Some(name) =>
      Success(ConcatenatedStream(Utf8(Prefix(boundary, name, mimeType)), file, Utf8(Suffix(boundary))))
  }

  /** The prefix's bytes: the dash-boundary line, the header block, then CR LF CR LF. */
  lemma PrefixBytes(boundary: string, fileName: string, mime: string)
    ensures Utf8(Prefix(boundary, fileName, mime))
            == Utf8(DashBoundaryLine(boundary)) + Utf8(HeaderBlock(fileName, mime)) + BlankLineBytes
  {
    var dash, head := DashBoundaryLine(boundary), HeaderBlock(fileName, mime);
    Utf8Concat(dash + head, "\r\n\r\n");
    Utf8Concat(dash, head);
    Utf8LineBreaks();
  }

  /** `bytes` begins with `start`. */
  predicate StartsWith(bytes: seq<byte>, start: seq<byte>) {
    |start| <= |bytes| && bytes[..|start|] == start
  }

  /** `bytes` ends with a blank line, CR LF CR LF. */
  predicate EndsWithBlankLine(bytes: seq<byte>) {
    |bytes| >= 4 && bytes[|bytes| - 4..] == BlankLineBytes
  }

  /** The framing of the bytes around the file, for any file name and MIME type. */
  lemma FramingBytes(boundary: string, fileName: string, mime: string)
    ensures |Utf8(Prefix(boundary, fileName, mime))| >= |Utf8(DashBoundaryLine(boundary))| + 4
    ensures StartsWith(Utf8(Prefix(boundary, fileName, mime)), Utf8(DashBoundaryLine(boundary)))
    ensures EndsWithBlankLine(Utf8(Prefix(boundary, fileName, mime)))
    ensures Utf8(Suffix(boundary)) == Utf8(Delimiter(boundary)) + Utf8(CloseMarker)
  {
    PrefixBytes(boundary, fileName, mime);
    var dash, head := Utf8(DashBoundaryLine(boundary)), Utf8(HeaderBlock(fileName, mime));
    Sequences.ConcatEnds(dash, head, BlankLineBytes);
    Utf8Concat(Delimiter(boundary), CloseMarker);
  }

  /**
   * Read out, the body is the prefix, then the file's bytes verbatim, then the
   * suffix; it begins with the dash-boundary line, has a blank line right
   * before the file's bytes, and ends with the close-delimiter of the same
   * boundary.
   */
  lemma BodyFraming(boundary: string, filePath: string, fileExists: ExistsPredicate,
                    probe: ContentTypeProbe, files: FileContents)
    requires GenerateRequestWithFileAsBody(boundary, filePath, fileExists, probe).Success?
    requires files(GenerateRequestWithFileAsBody(boundary, filePath, fileExists, probe).value.file).Some?
    ensures var p := GenerateRequestWithFileAsBody(boundary, filePath, fileExists, probe).value;
            var dash := Utf8(DashBoundaryLine(boundary));
            && Subscribe(p, files) == Success(p.prefix + files(p.file).value + p.suffix)
            && |p.prefix| >= |dash| + 4
            && StartsWith(p.prefix, dash)
            && EndsWithBlankLine(p.prefix)
            && p.suffix == Utf8(Delimiter(boundary)) + Utf8(CloseMarker)
  {
    var path := GetFile(filePath, fileExists).value;
    FramingBytes(boundary, FileName(path).value, MimeType(probe(path)));
  }
}
