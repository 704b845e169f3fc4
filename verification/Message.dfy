/** An HTTP message while it is being parsed: headers, the choice of body framing (section 4.4 of
    RFC 2616) and the reading of the body. */
module Message {
  import opened Text
  import Chunked

  datatype Header = Header(key: string, value: string)

  /** Split a header line at its first colon and drop the spaces before the value, unless there is
      nothing but spaces; None when there is no colon. */
  function ParseHeader(line: string): Option<Header> {
    var colon := Find(line, ":");
    if colon < 0 then None
    else
      var raw := line[colon + 1..];
      var stripped := StripSpaces(raw);
      Some(Header(line[..colon], if stripped == "" then raw else stripped))
  }

  function PrintHeader(h: Header): string {
    h.key + ": " + h.value
  }

  /** Value of the first header with an equivalent name. */
  function HeaderValue(headers: seq<Header>, name: string): Option<string> {
    if headers == [] then None
    else if EquivalentStrings(headers[0].key, name) then Some(headers[0].value)
    else HeaderValue(headers[1..], name)
  }

  predicate HasHeader(headers: seq<Header>, name: string) {
    HeaderValue(headers, name).Some?
  }

  /** A complete message; a response also carries the request it answers. */
  datatype Finished = Finished(firstLine: string, headers: seq<Header>, body: string, request: Option<Finished>)

  datatype Role = Request | Response

  /** How the end of the body is found; Unset before the headers are in and after the end. */
  datatype Framing = Unset | Known(size: nat) | Chunks(p: Chunked.Parser) | UntilEof

  datatype Phase = FirstLinePending | HeadersPending | BodyPending | Complete

  datatype Partial = Partial(phase: Phase, firstLine: string, headers: seq<Header>, body: string,
                             framing: Framing, request: Option<Finished>)

  const NEW_MESSAGE := Partial(FirstLinePending, "", [], "", Unset, None)

  predicate StartsWith(s: string, prefix: string) {
    |s| >= |prefix| && s[..|prefix|] == prefix
  }

  /** `myatoi` of a Content-Length, converted to `size_t`. */
  function LengthValue(s: string): Option<Framing> {
    match Atoi(s, 10)
    case None => None
    case Some(n) => Some(Known(n % 0x1_0000_0000_0000_0000))
  }

  function RequestFraming(firstLine: string, headers: seq<Header>): Option<Framing> {
    if StartsWith(firstLine, "GET ") || StartsWith(firstLine, "HEAD ") then Some(Known(0))
    else if StartsWith(firstLine, "POST ") then
      match HeaderValue(headers, "Content-Length")
      case None => None
      case Some(v) => LengthValue(v)
    else None
  }

  /** Second word of a status line of at least three; None where the code throws. */
  function StatusCode(firstLine: string): Option<string> {
    var tokens := Split(firstLine, ' ');
    if |tokens| < 3 then None else Some(tokens[1])
  }

  function MediaType(contentType: string): string {
    Split(contentType, ';')[0]
  }

  function ResponseFraming(firstLine: string, headers: seq<Header>, request: Finished): Option<Framing> {
    var status := StatusCode(firstLine);
    var encoding := HeaderValue(headers, "Transfer-Encoding");
    if status.None? || status.value == "" then None
    else if status.value[0] == '1' || status.value == "204" || status.value == "304"
            || StartsWith(request.firstLine, "HEAD ") then Some(Known(0))
    else if encoding.Some? && var codings := Split(encoding.value, ',');
                              EquivalentStrings(codings[|codings| - 1], "chunked") then
      Some(Chunks(Chunked.Fresh(HasHeader(headers, "Trailer"))))
    else if encoding.None? && HasHeader(headers, "Content-Length") then
      LengthValue(HeaderValue(headers, "Content-Length").value)
    else
      match HeaderValue(headers, "Content-Type")
      case None => Some(UntilEof)
      case Some(ct) =>
        if MediaType(ct) == "" || EquivalentStrings(MediaType(ct), "multipart/byteranges") then None
        else Some(UntilEof)
  }

  function ExpectedBody(role: Role, firstLine: string, headers: seq<Header>, request: Option<Finished>)
    : Option<Framing>
  {
    match role
    case Request => RequestFraming(firstLine, headers)
    case Response =>
      if request.None? then None else ResponseFraming(firstLine, headers, request.value)
  }

  /** Bytes taken from the buffer and the message after taking them; None where the code throws or
      an assertion fails. */
  function ReadBody(m: Partial, input: string): Option<(nat, Partial)> {
    match m.framing
    case Unset => None
    case Known(size) =>
      if |m.body| > size then None
      else
        var n := if size - |m.body| < |input| then size - |m.body| else |input|;
        var taken := m.(body := m.body + input[..n]);
        Some((n, if |taken.body| == size then taken.(phase := Complete, framing := Unset) else taken))
    case Chunks(p) =>
      (match Chunked.Read(p, input)
       case More(q) => Some((|input|, m.(body := m.body + input, framing := Chunks(q))))
       case Ends(offset) =>
         if offset > |input| then None
         else Some((offset, m.(body := m.body + input[..offset], phase := Complete, framing := Unset)))
       case Failed => None)
    case UntilEof => Some((|input|, m.(body := m.body + input)))
  }

  /** End of the connection; None where the code throws or an assertion fails. */
  function Eof(role: Role, m: Partial): Option<Partial> {
    match m.phase
    case FirstLinePending => Some(m)
    case HeadersPending => None
    case BodyPending =>
      if role.Response? && (m.framing.Chunks? || m.framing.UntilEof?)
      then Some(m.(phase := Complete, framing := Unset)) else None
    case Complete => None
  }

  function Finish(m: Partial): Finished {
    Finished(m.firstLine, m.headers, m.body, m.request)
  }
}
