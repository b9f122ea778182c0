/** The text the handlers produce: the per-part header of the MJPEG stream
    (with and without the `X-Motion` line), the part delimiter, and the JSON
    body of the status query. Each is one `snprintf` of its inputs; here each
    is a function, paired with a parser that reads it back. */
module PartFormat {
  import opened Esp
  import opened Decimal
  import opened Httpd

  const CRLF: string := "\r\n"
  const ContentTypeLine: string := "Content-Type: image/jpeg\r\n"
  const LengthKey: string := "Content-Length: "
  const MotionKey: string := "X-Motion: "

  /** The boundary parameter of the stream's content type. */
  const BoundaryToken: string := "frame"
  const StreamContentType: string := "multipart/x-mixed-replace; boundary=" + BoundaryToken

  /** The delimiter written after each part: CRLF, "--", the boundary token,
      CRLF, the form of section 5.1.1 of RFC 2046. */
  const Boundary: string := CRLF + "--" + BoundaryToken + CRLF

  /** Size of `part_buf` in both stream handlers. */
  const PartBufSize: nat := 128
  /** Size of `json` in the status handler. */
  const JsonBufSize: nat := 100

  /** "detected" or "none", the value of the X-Motion line. */
  function MotionWord(motion: bool): string {
    if motion then "detected" else "none"
  }

  /** What every part header starts with, up to the length's digits. */
  const HeaderHead: string := ContentTypeLine + LengthKey
  /** What follows the digits in a live header: the blank line closing it. */
  const PlainTail: string := CRLF + CRLF

  /** What follows the digits in a motion header. */
  function MotionTail(motion: bool): string {
    CRLF + MotionKey + MotionWord(motion) + CRLF + CRLF
  }

  /** The header the motion-detecting stream sends before each frame. */
  function MotionPartHeader(len: Uint32, motion: bool): (h: string)
    ensures |h| <= 76 < PartBufSize
  {
    RenderUint32Length(len);
    HeaderHead + (Render(len) + MotionTail(motion))
  }

  /** The header the live stream sends before each frame: no X-Motion line. */
  function PartHeader(len: Uint32): (h: string)
    ensures |h| <= 56 < PartBufSize
  {
    RenderUint32Length(len);
    HeaderHead + (Render(len) + PlainTail)
  }

  /** The body of the status query: `{"motion":<bool>,"motion_count":<uint>}`. */
  function StatusJson(motion: bool, count: Uint32): (j: string)
    ensures |j| <= 42 < JsonBufSize
  {
    RenderUint32Length(count);
    "{\"motion\":" + (if motion then "true" else "false") + ",\"motion_count\":" + Render(count) + "}"
  }

  /** `snprintf(buf, cap, ...)` of a formatted text s: what lands in the
      buffer (truncated to leave room for the terminating NUL) and what it
      returns (the untruncated length). */
  function Snprintf(cap: nat, s: string): (r: (string, nat))
    requires cap >= 1
    ensures r.1 == |s|
    ensures r.0 == s <==> |s| < cap
    ensures r.0 <= s && |r.0| == if |s| < cap then |s| else cap - 1
  {
    if |s| < cap then (s, |s|) else (s[..cap - 1], |s|)
  }

  /** `httpd_resp_send_chunk(req, part_buf, hlen)` after
      `hlen = snprintf(part_buf, PartBufSize, ...)`. A header that fits is sent
      whole with its own length; one that did not fit would be sent with a
      declared length beyond what the buffer holds. */
  function HeaderChunk(h: string): (c: Chunk)
    ensures |h| < PartBufSize ==> c == Text(h, |h|)
    ensures |h| >= PartBufSize ==> c.Text? && c.len > |c.text|
  {
    var (buf, hlen) := Snprintf(PartBufSize, h);
    Text(buf, hlen)
  }

  /** `httpd_resp_send_chunk(req, "\r\n--frame\r\n", 14)`: the declared
      length is three more than the delimiter's eleven characters, so the send
      reaches two bytes past the literal and its terminating NUL. */
  function BoundaryChunk(): (c: Chunk)
    ensures c.Text? && c.text == Boundary
    ensures |c.text| == 11 && c.len == |c.text| + 1 + 2
  {
    Text(Boundary, 14)
  }

  /** What a reader learns from a part header: the declared Content-Length
      and, when the header has an X-Motion line, its value. */
  datatype PartInfo = PartInfo(length: nat, motion: Option<bool>)

  /** The rest of s after the prefix p, if s starts with p. */
  function StripPrefix(p: string, s: string): (r: Option<string>)
    ensures r.Some? ==> s == p + r.value
  {
    if |p| <= |s| && s[..|p|] == p then
      assert s == p + s[|p|..];
      Some(s[|p|..])
    else None
  }

  lemma StripPrefixOf(p: string, t: string)
    ensures StripPrefix(p, p + t) == Some(t)
  {
    assert (p + t)[..|p|] == p;
    assert (p + t)[|p|..] == t;
  }

  /** A decimal number at the head of s, and what follows it. */
  function ParseNumber(s: string): Option<(nat, string)> {
    var ds := DigitRun(s);
    if |ds| == 0 then None else Some((Parse(ds), s[|ds|..]))
  }

  /** A rendered number followed by a non-digit is read back whole. */
  lemma ParseNumberOf(n: nat, t: string)
    requires |t| > 0 && !IsDigit(t[0])
    ensures ParseNumber(Render(n) + t) == Some((n, t))
  {
    DigitRunOfDigits(Render(n), t);
    ParseRender(n);
    assert (Render(n) + t)[|Render(n)|..] == t;
  }

  /** Reads a part header back; None for a text of another shape. */
  function ParseHeader(h: string): Option<PartInfo> {
    match StripPrefix(HeaderHead, h)
    case None => None
    case Some(body) =>
      match ParseNumber(body)
      case None => None
      case Some((n, tail)) =>
        if tail == PlainTail then Some(PartInfo(n, None))
        else if tail == MotionTail(true) then Some(PartInfo(n, Some(true)))
        else if tail == MotionTail(false) then Some(PartInfo(n, Some(false)))
        else None
  }

  /** The motion header declares the frame length and the motion flag. */
  lemma MotionPartHeaderRoundTrip(len: Uint32, motion: bool)
    ensures ParseHeader(MotionPartHeader(len, motion)) == Some(PartInfo(len, Some(motion)))
  {
    StripPrefixOf(HeaderHead, Render(len) + MotionTail(motion));
    ParseNumberOf(len, MotionTail(motion));
    TailsDiffer(motion);
  }

  lemma TailsDiffer(motion: bool)
    ensures MotionTail(motion) != PlainTail
    ensures !motion ==> MotionTail(motion) != MotionTail(true)
  {
    assert |MotionTail(motion)| > 4;
    if !motion {
      assert MotionTail(motion)[12] == 'n';
    }
  }

  /** The live header declares the frame length, has no X-Motion line and
      ends with the blank line that closes the part's headers. */
  lemma PartHeaderRoundTrip(len: Uint32)
    ensures ParseHeader(PartHeader(len)) == Some(PartInfo(len, None))
    ensures PartHeader(len)[|PartHeader(len)| - 4..] == PlainTail
  {
    StripPrefixOf(HeaderHead, Render(len) + PlainTail);
    ParseNumberOf(len, PlainTail);
  }

  /** "true" or "false" at the head of s, and what follows it. */
  function ParseBool(s: string): Option<(bool, string)> {
    match StripPrefix("true", s)
    case Some(rest) => Some((true, rest))
    case None =>
      match StripPrefix("false", s)
      case Some(rest) => Some((false, rest))
      case None => None
  }

  lemma ParseBoolOf(b: bool, t: string)
    ensures ParseBool((if b then "true" else "false") + t) == Some((b, t))
  {
    if b {
      StripPrefixOf("true", t);
    } else {
      assert ("false" + t)[3] == 's';
      StripPrefixOf("false", t);
    }
  }

  /** Reads a status body back; None for a text of another shape. */
  function ParseStatus(j: string): Option<(bool, nat)> {
    match StripPrefix("{\"motion\":", j)
    case None => None
    case Some(body) =>
      match ParseBool(body)
      case None => None
      case Some((motion, after)) =>
        match StripPrefix(",\"motion_count\":", after)
        case None => None
        case Some(num) =>
          match ParseNumber(num)
          case None => None
          case Some((count, tail)) => if tail == "}" then Some((motion, count)) else None
  }

  /** The status body carries the motion flag and the event count. */
  lemma StatusJsonRoundTrip(motion: bool, count: Uint32)
    ensures ParseStatus(StatusJson(motion, count)) == Some((motion, count))
  {
    var p := "{\"motion\":";
    var q := ",\"motion_count\":";
    var w := if motion then "true" else "false";
    assert StatusJson(motion, count) == p + (w + (q + (Render(count) + "}")));
    StripPrefixOf(p, w + (q + (Render(count) + "}")));
    ParseBoolOf(motion, q + (Render(count) + "}"));
    StripPrefixOf(q, Render(count) + "}");
    ParseNumberOf(count, "}");
  }
}
