/** Serializing messages, and what the parser makes of them again. */
module Printing {
  import opened Text
  import opened Message
  import opened Names
  import opened Sequence
  import Chunked

  function PrintHeaders(hs: seq<Header>): string {
    if hs == [] then CRLF else PrintHeader(hs[0]) + CRLF + PrintHeaders(hs[1..])
  }

  /** `HTTPMessage::str`. */
  function Print(f: Finished): string {
    f.firstLine + CRLF + PrintHeaders(f.headers) + f.body
  }

  function PrintAll(fs: seq<Finished>): string {
    if fs == [] then "" else Print(fs[0]) + PrintAll(fs[1..])
  }

  // ---------------------------------------------------------------- headers

  predicate Blank(s: string) {
    StripSpaces(s) == ""
  }

  /** A header survives printing and parsing iff its name has no colon and its value starts with
      something other than a space. */
  lemma HeaderRoundTrip(h: Header)
    ensures ParseHeader(PrintHeader(h)) == Some(h) <==>
            ':' !in h.key && h.value != "" && h.value[0] != ' '
  {
    hide StripSpaces;
    var line := PrintHeader(h);
    var colon := Find(line, ":");
    ColonFound(h);
    if ':' !in h.key {
      assert line[colon + 1..] == " " + h.value;
      assert line[..colon] == h.key;
      StripOne(h.value);
    }
  }

  lemma ColonFound(h: Header)
    ensures ':' !in h.key ==> Find(PrintHeader(h), ":") == |h.key|
    ensures ':' in h.key ==> 0 <= Find(PrintHeader(h), ":") < |h.key|
  {
    var line := PrintHeader(h);
    forall j | 0 <= j < |line|
      ensures At(line, j, ":") <==> line[j] == ':'
    {
      assert line[j..j + 1] == [line[j]];
    }
    if ':' !in h.key {
      FindUnique(line, ":", |h.key|);
    } else {
      var k :| 0 <= k < |h.key| && h.key[k] == ':';
      assert At(line, k, ":");
    }
  }

  /** Stripping a space and `v` gives `v` back iff `v` starts with something else. */
  lemma StripOne(v: string)
    ensures StripSpaces(" " + v) == StripSpaces(v)
    ensures StripSpaces(v) == v <==> v == "" || v[0] != ' '
  {
    assert (" " + v)[1..] == v;
  }

  /** What the parser produces can lose the round trip only through a value that is all spaces:
      such a value grows by a space each time. */
  ghost predicate Parsed(h: Header) {
    ':' !in h.key && Line(h.key) && Line(h.value) && (Blank(h.value) || h.value[0] != ' ')
  }

  lemma ParseHeaderParsed(line: string)
    requires Line(line) && ParseHeader(line).Some?
    ensures Parsed(ParseHeader(line).value)
  {
    hide Line, StripSpaces;
    var colon := Find(line, ":");
    LineSlice(line, 0, colon);
    LineSlice(line, colon + 1, |line|);
    assert line[0..colon] == line[..colon] && line[colon + 1..|line|] == line[colon + 1..];
    ValueIsLine(line[colon + 1..]);
    NoColonBefore(line);
  }

  lemma NoColonBefore(line: string)
    requires Find(line, ":") >= 0
    ensures ':' !in line[..Find(line, ":")]
  {
    forall j | 0 <= j < Find(line, ":")
      ensures line[j] != ':'
    {
      assert !At(line, j, ":");
      assert line[j..j + 1] == [line[j]];
    }
  }

  lemma ValueIsLine(raw: string)
    requires Line(raw)
    ensures Line(StripSpaces(raw))
  {
    var v := StripSpaces(raw);
    LineSlice(raw, |raw| - |v|, |raw|);
    assert raw[|raw| - |v|..|raw|] == v;
  }

  /** A header after one more trip through printer and parser. */
  function Reparsed(h: Header): Header {
    if Blank(h.value) then Header(h.key, " " + h.value) else h
  }

  lemma ParsedReparses(h: Header)
    requires Parsed(h)
    ensures ParseHeader(PrintHeader(h)) == Some(Reparsed(h))
  {
    hide StripSpaces, ParseHeader, PrintHeader, Line;
    if Blank(h.value) {
      BlankReparses(h);
    } else {
      NotBlank(h.value);
      HeaderRoundTrip(h);
    }
  }

  lemma BlankReparses(h: Header)
    requires ':' !in h.key && Blank(h.value)
    ensures ParseHeader(PrintHeader(h)) == Some(Header(h.key, " " + h.value))
  {
    hide StripSpaces;
    ColonFound(h);
    var line := PrintHeader(h);
    assert line[|h.key| + 1..] == " " + h.value;
    assert line[..|h.key|] == h.key;
    StripOne(h.value);
  }

  lemma NotBlank(v: string)
    requires !Blank(v)
    ensures v != ""
  {
  }

  lemma ConsSame<T>(a: T, xs: seq<T>, b: T, ys: seq<T>)
    ensures [a] + xs == [b] + ys <==> a == b && xs == ys
  {
    if [a] + xs == [b] + ys {
      assert ([a] + xs)[0] == a && ([b] + ys)[0] == b;
      assert ([a] + xs)[1..] == xs && ([b] + ys)[1..] == ys;
    }
  }

  function ReparsedHeaders(hs: seq<Header>): seq<Header> {
    if hs == [] then [] else [Reparsed(hs[0])] + ReparsedHeaders(hs[1..])
  }

  /** Only a blank value changes. */
  lemma {:induction false} ReparsedSame(hs: seq<Header>)
    ensures ReparsedHeaders(hs) == hs <==> forall k :: 0 <= k < |hs| ==> !Blank(hs[k].value)
  {
    hide Blank;
    if hs != [] {
      ReparsedSame(hs[1..]);
      ConsSame(Reparsed(hs[0]), ReparsedHeaders(hs[1..]), hs[0], hs[1..]);
      assert hs == [hs[0]] + hs[1..];
      assert Blank(hs[0].value) ==> |Reparsed(hs[0]).value| == |hs[0].value| + 1;
      forall k | 0 < k < |hs|
        ensures hs[k] == hs[1..][k - 1]
      {
      }
    }
  }

  /** Header lookup after a reprint: the same, but for the space a blank value gains. */
  lemma {:induction false} LookupReparsed(hs: seq<Header>, name: string)
    ensures HeaderValue(ReparsedHeaders(hs), name) ==
            match HeaderValue(hs, name)
            case None => None
            case Some(v) => Some(if Blank(v) then " " + v else v)
  {
    hide EquivalentStrings, Blank;
    if hs != [] {
      LookupReparsed(hs[1..], name);
      assert ReparsedHeaders(hs)[1..] == ReparsedHeaders(hs[1..]);
    }
  }

  // ---------------------------------------------------------------- messages

  /** The body has just the extent that the headers announce. */
  ghost predicate BodyFits(framing: Option<Framing>, body: string) {
    match framing
    case Some(Known(n)) => |body| == n
    case Some(Chunks(p)) => Chunked.Scan(Chunked.Feed(p.scanner, body)) == Chunked.Done(|body|)
    case _ => false
  }

  ghost predicate Answers(role: Role, request: Option<Finished>) {
    role.Response? <==> request.Some?
  }

  /** What the parser turns into complete messages other than at end of connection. */
  ghost predicate Received(role: Role, f: Finished) {
    && Line(f.firstLine)
    && (forall k :: 0 <= k < |f.headers| ==> Parsed(f.headers[k]))
    && Answers(role, f.request)
    && BodyFits(ExpectedBody(role, f.firstLine, f.headers, f.request), f.body)
  }

  /** For requests this is: GET or HEAD without a body, or POST with the body that its first
      Content-Length, in whatever spelling, announces. */
  lemma RequestsReceived(f: Finished)
    ensures Received(Request, f) <==>
              && Line(f.firstLine) && f.request == None
              && (forall k :: 0 <= k < |f.headers| ==> Parsed(f.headers[k]))
              && (if "GET " <= f.firstLine || "HEAD " <= f.firstLine then f.body == ""
                  else
                    && "POST " <= f.firstLine
                    && exists i: nat :: First(f.headers, "Content-Length", i)
                                        && LengthValue(f.headers[i].value) == Some(Known(|f.body|)))
  {
    hide Parsed, Line, HeaderValue, Atoi, First, Present;
    LookupFirst(f.headers, "Content-Length");
    if Present(f.headers, "Content-Length") {
      var i := FirstExists(f.headers, "Content-Length");
      assert f.headers[i].value == HeaderValue(f.headers, "Content-Length").value by {
        FirstBounds(f.headers, "Content-Length", i);
      }
    } else {
      forall i: nat
        ensures !First(f.headers, "Content-Length", i)
      {
        if First(f.headers, "Content-Length", i) { FirstBounds(f.headers, "Content-Length", i); }
      }
    }
  }

  ghost predicate NoBlankValues(f: Finished) {
    forall k :: 0 <= k < |f.headers| ==> !Blank(f.headers[k].value)
  }

  function ReparsedMessage(f: Finished): Finished {
    f.(headers := ReparsedHeaders(f.headers))
  }

  function ReparsedAll(fs: seq<Finished>): seq<Finished> {
    if fs == [] then [] else [ReparsedMessage(fs[0])] + ReparsedAll(fs[1..])
  }

  /** A pipeline comes back unchanged iff no header value in it is blank. */
  lemma {:induction false} PipelineSame(fs: seq<Finished>)
    ensures ReparsedAll(fs) == fs <==> forall k :: 0 <= k < |fs| ==> NoBlankValues(fs[k])
  {
    hide NoBlankValues;
    if fs != [] {
      PipelineSame(fs[1..]);
      SameMessage(fs[0]);
      ConsSame(ReparsedMessage(fs[0]), ReparsedAll(fs[1..]), fs[0], fs[1..]);
      assert fs == [fs[0]] + fs[1..];
      forall k | 0 < k < |fs|
        ensures fs[k] == fs[1..][k - 1]
      {
      }
    }
  }

  lemma SameMessage(f: Finished)
    ensures ReparsedMessage(f) == f <==> NoBlankValues(f)
  {
    ReparsedSame(f.headers);
  }

  /** The extra space never changes how the body is framed: where it could, the first parse failed. */
  lemma FramingReparsed(role: Role, firstLine: string, headers: seq<Header>, request: Option<Finished>)
    requires ExpectedBody(role, firstLine, headers, request).Some?
    ensures ExpectedBody(role, firstLine, ReparsedHeaders(headers), request) ==
            ExpectedBody(role, firstLine, headers, request)
  {
    hide ReparsedHeaders, HeaderValue, EquivalentStrings, LengthValue, Split, Blank, StatusCode, StartsWith, MediaType;
    forall name: string
      ensures HeaderValue(ReparsedHeaders(headers), name) ==
              match HeaderValue(headers, name)
              case None => None
              case Some(v) => Some(if Blank(v) then " " + v else v)
    {
      LookupReparsed(headers, name);
    }
    forall v: string | Blank(v)
      ensures LengthValue(" " + v) == LengthValue(v)
      ensures Split(v, ',') == [v] && Split(" " + v, ',') == [" " + v]
      ensures EquivalentStrings(" " + v, "chunked") == EquivalentStrings(v, "chunked")
      ensures MediaType(" " + v) == " " + v && MediaType(v) == v
      ensures !EquivalentStrings(v, "multipart/byteranges") && !EquivalentStrings(" " + v, "multipart/byteranges")
    {
      BlankFacts(v);
    }
  }

  lemma BlankFacts(v: string)
    requires Blank(v)
    ensures LengthValue(" " + v) == LengthValue(v)
    ensures Split(v, ',') == [v] && Split(" " + v, ',') == [" " + v]
    ensures EquivalentStrings(" " + v, "chunked") == EquivalentStrings(v, "chunked")
    ensures MediaType(" " + v) == " " + v && MediaType(v) == v
    ensures !EquivalentStrings(v, "multipart/byteranges") && !EquivalentStrings(" " + v, "multipart/byteranges")
  {
    assert (" " + v)[1..] == v;
    assert forall k :: 0 <= k < |v| ==> v[k] == ' ';
    CharAbsent(v, ',');
    CharAbsent(" " + v, ',');
    CharAbsent(v, ';');
    CharAbsent(" " + v, ';');
  }

  lemma PrintedHeaderIsLine(h: Header)
    requires Parsed(h)
    ensures Line(PrintHeader(h)) && PrintHeader(h) != ""
  {
    hide Line;
    LineJoin(h.key, ": ", h.value);
  }

  lemma HeaderTaken(s: State, h: Header, after: string)
    requires s.msg.phase == HeadersPending && s.buffer == PrintHeader(h) + CRLF + after && Parsed(h)
    ensures ParsingStep(s) == Again(s.(buffer := after, msg := s.msg.(headers := s.msg.headers + [Reparsed(h)])))
  {
    hide ExpectedBody, ParseHeader, PrintHeader, Parsed, Reparsed, Line, PopLine;
    PrintedHeaderIsLine(h);
    LineTaken(s, PrintHeader(h), after);
    ParsedReparses(h);
  }

  lemma BlankLineTaken(s: State, rest: string, framing: Framing)
    requires s.msg.phase == HeadersPending && s.buffer == CRLF + rest
    requires ExpectedBody(s.role, s.msg.firstLine, s.msg.headers, s.msg.request) == Some(framing)
    ensures ParsingStep(s) == Again(s.(buffer := rest, msg := s.msg.(phase := BodyPending, framing := framing)))
  {
    hide ExpectedBody, ParseHeader, PopLine;
    assert s.buffer == "" + CRLF + rest;
    LineTaken(s, "", rest);
  }

  /** Printed headers and their blank line take the parser from the first line to the body. */
  lemma {:induction false} HeadersParse(s: State, hs: seq<Header>, rest: string, framing: Framing)
    requires s.msg.phase == HeadersPending && s.buffer == PrintHeaders(hs) + rest
    requires forall k :: 0 <= k < |hs| ==> Parsed(hs[k])
    requires ExpectedBody(s.role, s.msg.firstLine, s.msg.headers + ReparsedHeaders(hs), s.msg.request) == Some(framing)
    ensures Loop(s) == Loop(s.(buffer := rest,
                               msg := s.msg.(phase := BodyPending, headers := s.msg.headers + ReparsedHeaders(hs),
                                             framing := framing)))
    decreases |hs|
  {
    hide ExpectedBody, ParsingStep, PrintHeader, Reparsed, Parsed;
    if hs == [] {
      assert s.msg.headers + [] == s.msg.headers;
      BlankLineTaken(s, rest, framing);
    } else {
      var h, after := hs[0], PrintHeaders(hs[1..]) + rest;
      assert s.buffer == PrintHeader(h) + CRLF + after;
      HeaderTaken(s, h, after);
      var t := s.(buffer := after, msg := s.msg.(headers := s.msg.headers + [Reparsed(h)]));
      assert s.msg.headers + ReparsedHeaders(hs) == t.msg.headers + ReparsedHeaders(hs[1..]);
      HeadersParse(t, hs[1..], rest, framing);
    }
  }

  /** A line in front of the buffer is what the next line step takes. */
  lemma LineTaken(s: State, line: string, rest: string)
    requires Line(line) && s.buffer == line + CRLF + rest
    ensures Find(s.buffer, CRLF) >= 0 && PopLine(s) == (line, s.(buffer := rest))
  {
    LineEnds(line, rest);
    assert s.buffer[..|line|] == line;
    assert s.buffer[|line| + 2..] == rest;
  }

  /** A fitting body in front of the buffer is read to its end and not beyond. */
  lemma BodyRead(m: Partial, body: string, rest: string)
    requires m.body == "" && m.phase == BodyPending && BodyFits(Some(m.framing), body)
    requires m.framing.Chunks? ==> m.framing.p.acked == 0
    ensures ReadBody(m, body + rest) == Some((|body|, m.(body := body, phase := Complete, framing := Unset)))
  {
    hide Chunked.Scan;
    assert (body + rest)[..|body|] == body && "" + body == body;
    if m.framing.Chunks? {
      var c := m.framing.p.scanner;
      assert Chunked.Feed(Chunked.Feed(c, body), rest) == Chunked.Feed(c, body + rest) by {
        assert (c.buffer + body) + rest == c.buffer + (body + rest);
      }
      Chunked.ScanExtends(Chunked.Feed(c, body), rest);
      ChunkedBodyNonempty(c, body);
    }
  }

  lemma ChunkedBodyNonempty(c: Chunked.Scanner, body: string)
    requires Chunked.Scan(Chunked.Feed(c, body)) == Chunked.Done(|body|)
    ensures body != ""
  {
    hide Chunked.ScanTurn;
    Chunked.ScanConserves(Chunked.Feed(c, body));
  }

  /** State after a message: it is complete, the buffer has moved on, the response has its request. */
  function Parsing(s: State, fs: seq<Finished>, rest: string): State
    requires s.role.Response? ==> |fs| <= |s.requests|
  {
    s.(buffer := rest, complete := s.complete + fs,
       requests := if s.role.Response? then s.requests[|fs|..] else s.requests)
  }

  /** State when the head of a message has been parsed and the body is next. */
  function InBody(s: State, f: Finished, framing: Framing, rest: string): State
    requires s.role.Response? ==> s.requests != []
  {
    s.(buffer := rest,
       msg := Partial(BodyPending, f.firstLine, ReparsedHeaders(f.headers), "", framing, f.request),
       requests := if s.role.Response? then s.requests[1..] else s.requests)
  }

  /** A printed first line and headers take the parser to the body. */
  lemma HeadParses(s: State, f: Finished, framing: Framing, rest: string)
    requires s.msg == NEW_MESSAGE && s.buffer == f.firstLine + CRLF + (PrintHeaders(f.headers) + rest)
    requires Line(f.firstLine) && forall k :: 0 <= k < |f.headers| ==> Parsed(f.headers[k])
    requires ExpectedBody(s.role, f.firstLine, f.headers, f.request) == Some(framing)
    requires if s.role.Response? then s.requests != [] && f.request == Some(s.requests[0]) else f.request == None
    ensures Loop(s) == Loop(InBody(s, f, framing, rest))
  {
    hide ExpectedBody, PrintHeaders, Parsed, ReparsedHeaders, Line;
    var hs, tail := ReparsedHeaders(f.headers), PrintHeaders(f.headers) + rest;
    FramingReparsed(s.role, f.firstLine, f.headers, f.request);
    LineTaken(s, f.firstLine, tail);
    var s1 := s.(buffer := tail,
                 msg := NEW_MESSAGE.(phase := HeadersPending, firstLine := f.firstLine, request := f.request),
                 requests := if s.role.Response? then s.requests[1..] else s.requests);
    assert ParsingStep(s) == Again(s1);
    assert [] + hs == hs;
    HeadersParse(s1, f.headers, rest, framing);
  }

  /** Parsing a printed message gives the message back and leaves what follows it. */
  lemma PrintedParses(s: State, f: Finished, rest: string)
    requires s.msg == NEW_MESSAGE && s.buffer == Print(f) + rest && Received(s.role, f)
    requires s.role.Response? ==> s.requests != [] && f.request == Some(s.requests[0])
    ensures Loop(s) == Loop(Parsing(s, [ReparsedMessage(f)], rest))
  {
    hide ExpectedBody, ReadBody, PrintHeaders, Parsed, ReparsedHeaders, Loop, Line;
    var framing := ExpectedBody(s.role, f.firstLine, f.headers, f.request).value;
    assert s.buffer == f.firstLine + CRLF + (PrintHeaders(f.headers) + (f.body + rest));
    HeadParses(s, f, framing, f.body + rest);
    var t := InBody(s, f, framing, f.body + rest);
    ChunksStartAtZero(s.role, f.firstLine, f.headers, f.request);
    BodyRead(t.msg, f.body, rest);
    BodyThenComplete(t, ReparsedMessage(f), rest);
  }

  lemma ChunksStartAtZero(role: Role, firstLine: string, headers: seq<Header>, request: Option<Finished>)
    ensures var f := ExpectedBody(role, firstLine, headers, request);
            f.Some? && f.value.Chunks? ==> f.value.p == Chunked.Fresh(f.value.p.scanner.trailers)
  {
    hide Split, EquivalentStrings, HeaderValue, Atoi;
  }

  lemma BodyThenComplete(s: State, f: Finished, rest: string)
    requires s.msg.phase == BodyPending && s.buffer == f.body + rest
    requires Finish(s.msg).(body := f.body) == f
    requires ReadBody(s.msg, s.buffer) == Some((|f.body|, s.msg.(body := f.body, phase := Complete, framing := Unset)))
    ensures Loop(s) == Loop(s.(buffer := rest, complete := s.complete + [f], msg := NEW_MESSAGE))
  {
    hide ReadBody;
    assert s.buffer[|f.body|..] == rest;
    var t := s.(buffer := rest, msg := s.msg.(body := f.body, phase := Complete, framing := Unset));
    assert ParsingStep(s) == Again(t);
    assert ParsingStep(t) == Again(t.(complete := s.complete + [f], msg := NEW_MESSAGE));
  }

  /** Responses come with the requests they answer, in order. */
  ghost predicate Matched(role: Role, fs: seq<Finished>, requests: seq<Finished>) {
    role.Response? ==> |fs| <= |requests| && forall k :: 0 <= k < |fs| ==> fs[k].request == Some(requests[k])
  }

  lemma ParsingTwice(s: State, f: Finished, fs: seq<Finished>, mid: string, rest: string)
    requires s.role.Response? ==> 1 + |fs| <= |s.requests|
    ensures Parsing(Parsing(s, [f], mid), fs, rest) == Parsing(s, [f] + fs, rest)
  {
    assert (s.complete + [f]) + fs == s.complete + ([f] + fs);
    if s.role.Response? {
      assert s.requests[1..][|fs|..] == s.requests[1 + |fs|..];
    }
  }

  lemma {:induction false} ReparsedCount(fs: seq<Finished>)
    ensures |ReparsedAll(fs)| == |fs|
  {
    if fs != [] {
      ReparsedCount(fs[1..]);
    }
  }

  /** Pipelines: parsing printed messages gives them back, reparsed, and leaves what follows. */
  lemma {:induction false} PipelineLoops(s: State, fs: seq<Finished>, rest: string)
    requires s.msg == NEW_MESSAGE && s.buffer == PrintAll(fs) + rest
    requires forall k :: 0 <= k < |fs| ==> Received(s.role, fs[k])
    requires Matched(s.role, fs, s.requests)
    ensures |ReparsedAll(fs)| == |fs|
    ensures Loop(s) == Loop(Parsing(s, ReparsedAll(fs), rest))
    decreases |fs|
  {
    hide Loop, Print, Received, ReparsedMessage, Parsing;
    ReparsedCount(fs);
    if fs == [] {
      assert "" + rest == rest;
      ParsingNone(s);
    } else {
      var f, mid := ReparsedMessage(fs[0]), PrintAll(fs[1..]) + rest;
      var t := Parsing(s, [f], mid);
      assert s.buffer == Print(fs[0]) + mid;
      PrintedParses(s, fs[0], mid);
      ParsingState(s, f, mid);
      PipelineLoops(t, fs[1..], rest);
      ParsingTwice(s, f, ReparsedAll(fs[1..]), mid, rest);
    }
  }

  lemma ParsingNone(s: State)
    ensures Parsing(s, [], s.buffer) == s
  {
    assert s.complete + [] == s.complete;
  }

  lemma ParsingState(s: State, f: Finished, rest: string)
    requires s.role.Response? ==> s.requests != []
    ensures var t := Parsing(s, [f], rest);
            && t.msg == s.msg && t.buffer == rest && t.role == s.role
            && (s.role.Response? ==> t.requests == s.requests[1..])
  {
  }

  lemma Idle(s: State)
    requires s.msg == NEW_MESSAGE && s.buffer == ""
    ensures Loop(s) == Some(s)
  {
  }

  /** Printing and parsing pipelines, in any fragmentation: all messages come back, nothing is left
      over, and they come back unchanged iff no header value is blank. */
  lemma PipelineRoundTrip(role: Role, fs: seq<Finished>, requests: seq<Finished>, pieces: seq<string>)
    requires forall k :: 0 <= k < |fs| ==> Received(role, fs[k])
    requires Matched(role, fs, requests)
    requires pieces != [] && forall k :: 0 <= k < |pieces| ==> pieces[k] != ""
    requires Concat(pieces) == PrintAll(fs)
    ensures var s := Start(role).(requests := requests);
            && |ReparsedAll(fs)| == |fs|
            && ParsePieces(s, pieces) == Some(Parsing(s, ReparsedAll(fs), ""))
            && (ParsePieces(s, pieces) == Some(Parsing(s, fs, "")) <==>
                forall k :: 0 <= k < |fs| ==> NoBlankValues(fs[k]))
  {
    hide Loop, ParsePieces, Received, NoBlankValues, PrintAll, ReparsedAll;
    var s := Start(role).(requests := requests);
    assert Concat(pieces) != "" by { assert pieces[0] != ""; }
    ParseAnyPieces(s, pieces);
    assert "" + PrintAll(fs) == PrintAll(fs) && PrintAll(fs) + "" == PrintAll(fs);
    PipelineLoops(s.(buffer := PrintAll(fs)), fs, "");
    Idle(Parsing(s, ReparsedAll(fs), ""));
    PipelineSame(fs);
    assert [] + fs == fs && [] + ReparsedAll(fs) == ReparsedAll(fs);
  }

  // ---------------------------------------------------------------- what the parser produces

  /** A body read so far agrees with the framing chosen from the headers. */
  ghost predicate BodySoFar(start: Option<Framing>, now: Framing, body: string) {
    match now
    case Unset => false
    case Known(n) => start == Some(now) && |body| <= n
    case Chunks(p) =>
      && start.Some? && start.value.Chunks? && start.value.p == Chunked.Fresh(p.scanner.trailers)
      && Chunked.Scan(Chunked.Feed(start.value.p.scanner, body)) == Chunked.Incomplete(p.scanner)
      && p.acked == |body| && Chunked.Settled(p)
    case UntilEof => start == Some(now)
  }

  /** The message in progress is on its way to a received message. */
  ghost predicate OnTheWay(role: Role, m: Partial) {
    if m.phase == FirstLinePending then m == NEW_MESSAGE
    else
      && Line(m.firstLine) && Answers(role, m.request)
      && (forall k :: 0 <= k < |m.headers| ==> Parsed(m.headers[k]))
      && var start := ExpectedBody(role, m.firstLine, m.headers, m.request);
      && (m.phase == HeadersPending ==> m.body == "" && m.framing == Unset)
      && (m.phase == BodyPending ==> BodySoFar(start, m.framing, m.body))
      && (m.phase == Complete ==> BodyFits(start, m.body))
  }

  ghost predicate AllReceived(s: State) {
    && OnTheWay(s.role, s.msg)
    && forall k :: 0 <= k < |s.complete| ==> Received(s.role, s.complete[k])
  }

  lemma BodyBegins(role: Role, firstLine: string, headers: seq<Header>, request: Option<Finished>)
    ensures var start := ExpectedBody(role, firstLine, headers, request);
            start.Some? ==> BodySoFar(start, start.value, "")
  {
    ChunksStartAtZero(role, firstLine, headers, request);
    ExpectedBodyIsSet(role, firstLine, headers, request);
    hide ExpectedBody;
    var start := ExpectedBody(role, firstLine, headers, request);
    if start.Some? && start.value.Chunks? {
      var c := start.value.p.scanner;
      assert Chunked.Feed(c, "") == c;
    }
  }

  lemma ExpectedBodyIsSet(role: Role, firstLine: string, headers: seq<Header>, request: Option<Finished>)
    ensures ExpectedBody(role, firstLine, headers, request) != Some(Unset)
  {
    hide Split, EquivalentStrings, HeaderValue, Atoi;
  }

  /** Reading more of the body keeps it agreeing, and ends it just where it fits. */
  lemma BodyAdvances(start: Option<Framing>, m: Partial, input: string)
    requires m.phase == BodyPending && BodySoFar(start, m.framing, m.body)
    ensures var r := ReadBody(m, input);
            r.Some? ==>
              var t := r.value.1;
              && t == m.(body := t.body, phase := t.phase, framing := t.framing)
              && (t.phase == BodyPending ==> BodySoFar(start, t.framing, t.body))
              && (t.phase == Complete ==> BodyFits(start, t.body))
              && (t.phase == BodyPending || t.phase == Complete)
  {
    if m.framing.Chunks? {
      ChunksAdvance(start.value.p.scanner, m, input);
    }
  }

  lemma ChunksAdvance(c: Chunked.Scanner, m: Partial, input: string)
    requires m.framing.Chunks? && m.phase == BodyPending && c == Chunked.Fresh(m.framing.p.scanner.trailers).scanner
    requires BodySoFar(Some(Chunks(Chunked.Parser(c, 0))), m.framing, m.body)
    ensures var start := Some(Chunks(Chunked.Parser(c, 0)));
            match Chunked.Read(m.framing.p, input)
            case More(q) => BodySoFar(start, Chunks(q), m.body + input)
            case Ends(offset) => offset <= |input| && BodyFits(start, m.body + input[..offset])
            case Failed => true
  {
    hide Chunked.ScanTurn, Chunked.Scan;
    var p := m.framing.p;
    var whole := Chunked.Feed(c, m.body + input);
    assert Chunked.Feed(Chunked.Feed(c, m.body), input) == whole;
    Chunked.ScanExtends(Chunked.Feed(c, m.body), input);
    Chunked.ReadKeepsSettled(p, input);
    Chunked.ScanConserves(whole);
    match Chunked.Read(p, input)
    case More(q) =>
    case Ends(offset) =>
      var body := m.body + input[..offset];
      assert Chunked.Feed(Chunked.Feed(c, body), input[offset..]) == whole by {
        assert body + input[offset..] == m.body + input;
      }
      Chunked.ScanLocal(Chunked.Feed(c, body), input[offset..]);
    case Failed =>
  }

  lemma FirstLineReceived(s: State)
    requires s.msg.phase == FirstLinePending && AllReceived(s) && ParsingStep(s).Again?
    ensures AllReceived(ParsingStep(s).s)
  {
    LineBefore(s.buffer);
  }

  lemma HeaderReceived(s: State)
    requires s.msg.phase == HeadersPending && AllReceived(s) && ParsingStep(s).Again?
    ensures AllReceived(ParsingStep(s).s)
  {
    hide ParseHeader, ExpectedBody, Parsed, BodySoFar, Received;
    LineBefore(s.buffer);
    var line := PopLine(s).0;
    if line == "" {
      BodyBegins(s.role, s.msg.firstLine, s.msg.headers, s.msg.request);
    } else {
      ParseHeaderParsed(line);
    }
  }

  lemma BodyReceived(s: State)
    requires s.msg.phase == BodyPending && AllReceived(s) && !ParsingStep(s).Thrown?
    ensures AllReceived(ParsingStep(s).s)
  {
    hide ReadBody, ExpectedBody, Parsed, BodySoFar, BodyFits, Received;
    BodyAdvances(ExpectedBody(s.role, s.msg.firstLine, s.msg.headers, s.msg.request), s.msg, s.buffer);
  }

  lemma StepReceived(s: State)
    requires AllReceived(s) && !ParsingStep(s).Thrown?
    ensures AllReceived(ParsingStep(s).s)
  {
    hide AllReceived;
    match s.msg.phase
    case FirstLinePending => if ParsingStep(s).Again? { FirstLineReceived(s); }
    case HeadersPending => if ParsingStep(s).Again? { HeaderReceived(s); }
    case BodyPending => BodyReceived(s);
    case Complete => CompleteReceived(s);
  }

  lemma CompleteReceived(s: State)
    requires s.msg.phase == Complete && AllReceived(s)
    ensures AllReceived(ParsingStep(s).s)
  {
    hide ExpectedBody, Parsed, BodyFits, Line;
    assert Received(s.role, Finish(s.msg));
  }

  lemma {:induction false} LoopReceived(s: State)
    requires AllReceived(s) && Loop(s).Some?
    ensures AllReceived(Loop(s).value)
    decreases |s.buffer|, PhaseRank(s.msg.phase)
  {
    hide ParsingStep, AllReceived;
    StepReceived(s);
    if ParsingStep(s).Again? {
      StepDecreases(s);
      LoopReceived(ParsingStep(s).s);
    }
  }
}
