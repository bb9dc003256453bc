/**
 * A reader for one-part `multipart/form-data` bodies, written from section
 * 5.1.1 of RFC 2046: after the dash-boundary line, the part runs up to the
 * first delimiter (`CRLF "--" boundary`), which must be the close-delimiter
 * ending the body; inside the part, the headers end at the first blank line.
 * It is the partner of the body builder: what the builder frames, it reads
 * back.
 */
module MultipartReader {
  import opened Wrappers
  import opened JavaText
  import opened Sequences
  import opened MultipartBody

  /** A body part as received: its raw header bytes and its content. */
  datatype Part = Part(headers: seq<byte>, content: seq<byte>)

  /** CR LF CR LF: the end of the last header line, then the empty line. */
  const HeaderEnd: seq<byte> := BlankLineBytes

  /** Splits a part at its first blank line into header bytes and content. */
  function SplitHeaders(part: seq<byte>): (r: Option<Part>)
    ensures r.None? <==> !Contains(part, HeaderEnd)
    ensures r.Some? ==> part == r.value.headers + HeaderEnd + r.value.content
    ensures r.Some? ==> forall j: nat :: j < |r.value.headers| ==> !OccursAt(part, HeaderEnd, j)
  {
    match IndexOf(part, HeaderEnd)
    case None => None
    case Some(j) =>
      OccurrenceSplit(part, HeaderEnd, j);
      Some(Part(part[..j], part[j + 4..]))
  }

  /**
   * The body framed by the byte strings `dash`, `delimiter` and `close`: after
   * `dash`, the part runs to the first `delimiter`, which only `close` may follow.
   */
  function ReadFramed(body: seq<byte>, dash: seq<byte>, delimiter: seq<byte>, close: seq<byte>)
    : (r: Option<Part>)
    ensures r.Some? ==> body == dash + r.value.headers + HeaderEnd + r.value.content + delimiter + close
  {
    if |body| < |dash| || body[..|dash|] != dash then None
    else
      var rest := body[|dash|..];
      match IndexOf(rest, delimiter)
      case None => None
      case Some(i) =>
        if rest[i + |delimiter|..] != close then None
        else
          match SplitHeaders(rest[..i])
          case None => None
          case Some(part) =>
            PrefixSplit(body, dash);
            OccurrenceSplit(rest, delimiter, i);
            Reassemble(body, dash, rest, rest[..i], part, delimiter, close);
            Some(part)
  }

  /** The pieces of a framed body, put back together. */
  lemma Reassemble(body: seq<byte>, dash: seq<byte>, rest: seq<byte>, inner: seq<byte>, part: Part,
                   delimiter: seq<byte>, close: seq<byte>)
    requires body == dash + rest && rest == inner + delimiter + close
    requires inner == part.headers + HeaderEnd + part.content
    ensures body == dash + part.headers + HeaderEnd + part.content + delimiter + close
  {
  }

  /** The one part of `body` under `boundary`, or `None` if the body is not so framed. */
  function ReadSinglePart(body: seq<byte>, boundary: string): (r: Option<Part>)
    ensures r.Some? ==>
              body == Utf8(DashBoundaryLine(boundary)) + r.value.headers + HeaderEnd
                      + r.value.content + Utf8(Delimiter(boundary)) + Utf8(CloseMarker)
  {
    ReadFramed(body, Utf8(DashBoundaryLine(boundary)), Utf8(Delimiter(boundary)), Utf8(CloseMarker))
  }

  // ----------------------------------------------------------- lemmas

  /**
   * The header block's bytes: a first line free of CR, CR LF, and a second
   * line free of CR that starts with `C`.
   */
  lemma HeaderBlockShape(fileName: string, mime: string) returns (first: seq<byte>, second: seq<byte>)
    requires '\r' !in fileName && '\r' !in mime
    ensures Utf8(HeaderBlock(fileName, mime)) == first + [13, 10] + second
    ensures 13 !in first && 13 !in second && |second| >= 1 && second[0] == 67
  {
    var disposition, contentType := ContentDisposition(fileName), ContentTypeLine(mime);
    Utf8Concat(disposition + "\r\n", contentType);
    Utf8Concat(disposition, "\r\n");
    Utf8LineBreaks();
    first, second := Utf8(disposition), Utf8(contentType);
    DispositionStartHasNoCr();
    ContentTypeStartIsPlain();
    Utf8Avoids(disposition, '\r');
    Utf8Avoids(contentType, '\r');
    Utf8Concat(ContentTypeStart, mime);
    Utf8Ascii(ContentTypeStart);
  }

  /**
   * The delimiter's bytes start with CR LF `-` and hold no other CR when the
   * boundary has none, so no occurrence of it overlaps a later one.
   */
  lemma DelimiterShape(boundary: string)
    requires '\r' !in boundary
    ensures var d := Utf8(Delimiter(boundary));
            && |d| >= 4 && d[0] == 13 && d[1] == 10 && d[2] == 45
            && forall m :: 1 <= m < |d| ==> d[m] != 13
  {
    Utf8Concat("\r\n--", boundary);
    Utf8Ascii("\r\n--");
    Utf8Avoids(boundary, '\r');
    var d := Utf8(Delimiter(boundary));
    forall m | 1 <= m < |d| ensures d[m] != 13 {
      if m >= 4 {
        assert d[m] == Utf8(boundary)[m - 4];
      }
    }
  }

  /**
   * After headers `first CR LF second`, a CR LF and bytes `x` that start with
   * CR, the first delimiter (which starts CR LF `-` and recurs nowhere in `x`)
   * is the one placed after `x`.
   */
  lemma {:induction false} DelimiterFoundAfterContent(first: seq<byte>, second: seq<byte>, x: seq<byte>,
                                                      delimiter: seq<byte>, close: seq<byte>,
                                                      head: seq<byte>, rest: seq<byte>, k: nat)
    requires 13 !in first && 13 !in second && |second| >= 1 && second[0] == 67
    requires |delimiter| >= 3 && delimiter[0] == 13 && delimiter[1] == 10 && delimiter[2] == 45
    requires forall m :: 1 <= m < |delimiter| ==> delimiter[m] != 13
    requires |x| >= 1 && x[0] == 13 && !Contains(x, delimiter)
    requires head == first + [13, 10] + second && rest == head + [13, 10] + x + delimiter + close
    requires k == |head| + 2 + |x|
    ensures IndexOf(rest, delimiter) == Some(k)
  {
    ScanPastLineBreak(first, [13, 10], second, [13, 10] + x + delimiter + close, delimiter);
    assert rest == first + [13, 10] + second + ([13, 10] + x + delimiter + close);
    FirstAfter(x, delimiter, close);
    assert rest == (head + [13, 10]) + (x + delimiter + close);
    forall j: nat | j < k ensures !OccursAt(rest, delimiter, j) {
      if j < |head| {
      } else if j == |head| {
        assert rest[j + 2] == (x + delimiter + close)[0] == x[0];
        MismatchAt(rest, delimiter, j, 2);
      } else if j == |head| + 1 {
        assert rest[j] == 10;
        MismatchAt(rest, delimiter, j, 0);
      } else {
        OccursShift(head + [13, 10], x + delimiter + close, delimiter, j - |head| - 2);
      }
    }
    OccursShift(head + [13, 10], x + delimiter + close, delimiter, |x|);
    FirstOccurrence(rest, delimiter, k);
  }

  /** Inside the part, the headers `first CR LF second` end at the first blank line. */
  lemma HeaderEndFoundAfterHeaders(first: seq<byte>, second: seq<byte>, content: seq<byte>)
    requires 13 !in first && 13 !in second && |second| >= 1 && second[0] == 67
    ensures var head := first + [13, 10] + second;
            IndexOf(head + HeaderEnd + content, HeaderEnd) == Some(|head|)
  {
    var head := first + [13, 10] + second;
    var part := head + HeaderEnd + content;
    ScanPastLineBreak(first, [13, 10], second, HeaderEnd + content, HeaderEnd);
    assert part == first + [13, 10] + second + (HeaderEnd + content);
    assert part[|head|..|head| + 4] == HeaderEnd;
    FirstOccurrence(part, HeaderEnd, |head|);
  }

  /** The headers `first CR LF second`, a blank line and the content split back apart. */
  lemma SplitHeadersRecovers(first: seq<byte>, second: seq<byte>, content: seq<byte>,
                             head: seq<byte>, part: seq<byte>)
    requires 13 !in first && 13 !in second && |second| >= 1 && second[0] == 67
    requires head == first + [13, 10] + second && part == head + HeaderEnd + content
    ensures SplitHeaders(part) == Some(Part(head, content))
  {
    HeaderEndFoundAfterHeaders(first, second, content);
    assert part[..|head|] == head;
    assert part[|head| + 4..] == content;
  }

  /** The framed body, regrouped as the reader takes it apart. */
  lemma FramedBodyPieces(dash: seq<byte>, head: seq<byte>, content: seq<byte>,
                         delimiter: seq<byte>, close: seq<byte>, x: seq<byte>, rest: seq<byte>, k: nat)
    requires x == [13, 10] + content && rest == head + [13, 10] + x + delimiter + close
    requires k == |head| + 2 + |x|
    ensures dash + head + HeaderEnd + content + (delimiter + close) == dash + rest
    ensures k + |delimiter| <= |rest|
    ensures rest[..k] == head + HeaderEnd + content
    ensures rest[k + |delimiter|..] == close
  {
    assert head + [13, 10] + x == head + HeaderEnd + content;
    assert rest == (head + HeaderEnd + content) + delimiter + close;
    assert rest[..k] == head + HeaderEnd + content;
  }

  /** What makes the reader succeed, step by step. */
  lemma ReadFramedSteps(body: seq<byte>, dash: seq<byte>, rest: seq<byte>, delimiter: seq<byte>,
                        close: seq<byte>, k: nat, part: Part)
    requires body == dash + rest
    requires Sequences.IndexOf(rest, delimiter) == Some(k)
    requires k + |delimiter| <= |rest| && rest[k + |delimiter|..] == close
    requires SplitHeaders(rest[..k]) == Some(part)
    ensures ReadFramed(body, dash, delimiter, close) == Some(part)
  {
    assert body[..|dash|] == dash && body[|dash|..] == rest;
  }

  /**
   * The byte-level argument: with headers `first CR LF second` as above and a
   * delimiter that starts CR LF `-` and recurs nowhere in `CR LF content`, the
   * framed body reads back as those headers and that content.
   */
  lemma ReadFramedRecovers(dash: seq<byte>, first: seq<byte>, second: seq<byte>,
                           content: seq<byte>, delimiter: seq<byte>, close: seq<byte>)
    requires 13 !in first && 13 !in second && |second| >= 1 && second[0] == 67
    requires |delimiter| >= 3 && delimiter[0] == 13 && delimiter[1] == 10 && delimiter[2] == 45
    requires forall m :: 1 <= m < |delimiter| ==> delimiter[m] != 13
    requires !Contains([13, 10] + content, delimiter)
    ensures var head := first + [13, 10] + second;
            ReadFramed(dash + head + HeaderEnd + content + (delimiter + close), dash, delimiter, close)
            == Some(Part(head, content))
  {
    var head := first + [13, 10] + second;
    var x := [13, 10] + content;
    var rest := head + [13, 10] + x + delimiter + close;
    var k := |head| + 2 + |x|;
    FramedBodyPieces(dash, head, content, delimiter, close, x, rest, k);
    DelimiterFoundAfterContent(first, second, x, delimiter, close, head, rest, k);
    SplitHeadersRecovers(first, second, content, head, rest[..k]);
    ReadFramedSteps(dash + head + HeaderEnd + content + (delimiter + close), dash, rest, delimiter, close,
                    k, Part(head, content));
  }

  /**
   * Reading back a body framed by the builder recovers the part's header
   * block and the file's bytes exactly, provided the boundary, file name and
   * MIME type hold no CR and the file does not contain the delimiter (the
   * condition section 5.1.1 of RFC 2046 places on every boundary).
   */
  lemma ReadsBackBuiltBody(boundary: string, fileName: string, mime: string, content: seq<byte>)
    requires '\r' !in boundary && '\r' !in fileName && '\r' !in mime
    requires !Contains([13, 10] + content, Utf8(Delimiter(boundary)))
    ensures ReadSinglePart(Utf8(Prefix(boundary, fileName, mime)) + content + Utf8(Suffix(boundary)), boundary)
            == Some(Part(Utf8(HeaderBlock(fileName, mime)), content))
  {
    PrefixBytes(boundary, fileName, mime);
    FramingBytes(boundary, fileName, mime);
    var first, second := HeaderBlockShape(fileName, mime);
    DelimiterShape(boundary);
    ReadFramedRecovers(Utf8(DashBoundaryLine(boundary)), first, second, content,
                       Utf8(Delimiter(boundary)), Utf8(CloseMarker));
  }
}
