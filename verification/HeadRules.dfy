/** What the head of a message decides, said in terms of its bytes: which method a request may have, and
    how the body of a message is framed (section 4.4 of RFC 2616). */
module HeadRules {
  import opened Text
  import opened Message
  import opened Names
  import opened Sequence
  import opened Printing
  import opened Completion
  import Chunked
  import ChunkedFraming

  // ---------------------------------------------------------------- lines

  /** A response cannot begin unless a request waits for it; it takes the oldest. */
  lemma FirstLineRules(s: State, line: string, rest: string)
    requires s.msg.phase == FirstLinePending && Line(line) && s.buffer == line + CRLF + rest
    ensures s.role.Response? && s.requests == [] ==> ParsingStep(s) == Thrown
    ensures s.role.Response? && s.requests != [] ==>
              ParsingStep(s) == Again(s.(buffer := rest, requests := s.requests[1..],
                                         msg := s.msg.(phase := HeadersPending, firstLine := line,
                                                       request := Some(s.requests[0]))))
    ensures s.role.Request? ==>
              ParsingStep(s) == Again(s.(buffer := rest, msg := s.msg.(phase := HeadersPending, firstLine := line)))
  {
    hide PopLine;
    LineTaken(s, line, rest);
  }

  /** A header line is split at its first colon; spaces before the value go, unless there is nothing else;
      a line without a colon is refused. */
  lemma HeaderLineRules(s: State, line: string, rest: string, key: string, spaces: string, value: string)
    requires s.msg.phase == HeadersPending && Line(line) && line != "" && s.buffer == line + CRLF + rest
    requires ':' !in key && forall k :: 0 <= k < |spaces| ==> spaces[k] == ' '
    ensures ':' !in line ==> ParsingStep(s) == Thrown
    ensures line == key + ":" + spaces + value && value != "" && value[0] != ' ' ==>
              ParsingStep(s) ==
              Again(s.(buffer := rest, msg := s.msg.(headers := s.msg.headers + [Header(key, value)])))
    ensures line == key + ":" + spaces ==>
              ParsingStep(s) ==
              Again(s.(buffer := rest, msg := s.msg.(headers := s.msg.headers + [Header(key, spaces)])))
  {
    hide PopLine, ParseHeader, Line;
    LineTaken(s, line, rest);
    if ':' !in line {
      NoColon(line);
    }
    if line == key + ":" + spaces + value && value != "" && value[0] != ' ' {
      ValueParsed(key, spaces, value);
    }
    if line == key + ":" + spaces {
      BlankParsed(key, spaces);
    }
  }

  lemma NoColon(line: string)
    requires ':' !in line
    ensures ParseHeader(line) == None
  {
    hide StripSpaces;
    CharAbsent(line, ':');
  }

  lemma ColonAt(key: string, raw: string)
    requires ':' !in key
    ensures Find(key + ":" + raw, ":") == |key|
    ensures (key + ":" + raw)[..|key|] == key && (key + ":" + raw)[|key| + 1..] == raw
  {
    assert forall j :: 0 <= j < |key| ==> (key + ":" + raw)[j] == key[j];
    FirstChar(key + ":" + raw, ':', |key|);
  }

  lemma {:induction false} SpacesStripped(spaces: string, value: string)
    requires forall k :: 0 <= k < |spaces| ==> spaces[k] == ' '
    requires value == "" || value[0] != ' '
    ensures StripSpaces(spaces + value) == value
    decreases |spaces|
  {
    hide StripSpaces;
    if spaces == "" {
      assert spaces + value == value;
      StripOne(value);
    } else {
      SpacesStripped(spaces[1..], value);
      assert spaces + value == " " + (spaces[1..] + value);
      StripOne(spaces[1..] + value);
    }
  }

  lemma ValueParsed(key: string, spaces: string, value: string)
    requires ':' !in key && value != "" && value[0] != ' '
    requires forall k :: 0 <= k < |spaces| ==> spaces[k] == ' '
    ensures ParseHeader(key + ":" + spaces + value) == Some(Header(key, value))
  {
    hide StripSpaces, Find;
    assert key + ":" + spaces + value == key + ":" + (spaces + value);
    ColonAt(key, spaces + value);
    SpacesStripped(spaces, value);
  }

  lemma BlankParsed(key: string, spaces: string)
    requires ':' !in key && forall k :: 0 <= k < |spaces| ==> spaces[k] == ' '
    ensures ParseHeader(key + ":" + spaces) == Some(Header(key, spaces))
  {
    hide StripSpaces, Find;
    ColonAt(key, spaces);
    SpacesStripped(spaces, "");
    assert spaces + "" == spaces;
  }

  // ---------------------------------------------------------------- the end of the headers

  /** The blank line after the headers is next. */
  predicate AtBlank(s: State, rest: string) {
    s.msg.phase == HeadersPending && s.buffer == CRLF + rest
  }

  /** It is taken, and the body framed so. */
  ghost predicate Frames(s: State, rest: string, framing: Framing) {
    ParsingStep(s) == Again(s.(buffer := rest, msg := s.msg.(phase := BodyPending, framing := framing)))
  }

  lemma HeadDecides(s: State, rest: string)
    requires AtBlank(s, rest)
    ensures match ExpectedBody(s.role, s.msg.firstLine, s.msg.headers, s.msg.request)
            case None => ParsingStep(s) == Thrown
            case Some(framing) => Frames(s, rest, framing)
  {
    hide ExpectedBody, ParseHeader, PopLine;
    assert s.buffer == "" + CRLF + rest;
    LineTaken(s, "", rest);
  }

  /** A decimal numeral in the first Content-Length fixes the length; what is no number is refused. */
  lemma LengthRules(headers: seq<Header>, i: nat, ds: seq<Digit>)
    requires First(headers, "Content-Length", i)
    ensures HeaderValue(headers, "Content-Length") == Some(headers[i].value)
    ensures Numeral(ds, 10) && headers[i].value == Spell(ds) ==>
              LengthValue(headers[i].value) ==
              if Value(ds, 10) < 0x8000_0000_0000_0000 then Some(Known(Value(ds, 10))) else None
    ensures (forall n :: Proper(n, 10) ==> Show(n) != headers[i].value) ==> LengthValue(headers[i].value) == None
  {
    hide Value, Atoi, Numeral, Spell, Proper, Show;
    LookupFirst(headers, "Content-Length");
    var v := headers[i].value;
    if Numeral(ds, 10) && v == Spell(ds) {
      LengthOfNumeral(ds);
    }
    if Atoi(v, 10).Some? {
      var n := OnlyNumbersRead(v, 10);
    }
  }

  /** The framing of a request: none for GET and HEAD, by the first Content-Length for POST, and any other
      is refused, as is a POST without a length or with one that is no number. */
  lemma RequestRules(s: State, rest: string, i: nat, ds: seq<Digit>)
    requires AtBlank(s, rest) && s.role.Request?
    ensures "GET " <= s.msg.firstLine || "HEAD " <= s.msg.firstLine ==> Frames(s, rest, Known(0))
    ensures "POST " <= s.msg.firstLine && First(s.msg.headers, "Content-Length", i) ==>
              && (Numeral(ds, 10) && s.msg.headers[i].value == Spell(ds) ==>
                    if Value(ds, 10) < 0x8000_0000_0000_0000 then Frames(s, rest, Known(Value(ds, 10)))
                    else ParsingStep(s) == Thrown)
              && ((forall n :: Proper(n, 10) ==> Show(n) != s.msg.headers[i].value) ==> ParsingStep(s) == Thrown)
    ensures "POST " <= s.msg.firstLine && !Present(s.msg.headers, "Content-Length") ==> ParsingStep(s) == Thrown
    ensures !("GET " <= s.msg.firstLine || "HEAD " <= s.msg.firstLine || "POST " <= s.msg.firstLine) ==>
              ParsingStep(s) == Thrown
  {
    hide ParsingStep, HeaderValue, LengthValue, Value, Present, Proper, Show, Spell, Numeral, StartsWith;
    var line, hs := s.msg.firstLine, s.msg.headers;
    HeadDecides(s, rest);
    Prefixes(line, "GET ");
    Prefixes(line, "HEAD ");
    Prefixes(line, "POST ");
    if "POST " <= line {
      DistinctMethods(line);
    }
    LookupFirst(hs, "Content-Length");
    if First(hs, "Content-Length", i) {
      LengthRules(hs, i, ds);
    }
  }

  lemma Prefixes(s: string, prefix: string)
    ensures StartsWith(s, prefix) <==> prefix <= s
  {
  }

  // ---------------------------------------------------------------- responses

  /** A status line: version, code and reason, the first two without spaces. */
  predicate StatusLine(line: string, version: string, code: string, reason: string) {
    ' ' !in version && ' ' !in code && line == version + " " + code + " " + reason
  }

  lemma StatusRead(line: string, version: string, code: string, reason: string)
    requires StatusLine(line, version, code, reason)
    ensures StatusCode(line) == Some(code)
  {
    hide Split;
    SplitFirst(version, ' ', code + " " + reason);
    SplitFirst(code, ' ', reason);
    assert line == version + [' '] + (code + [' '] + reason);
  }

  /** Fewer than two spaces are no status line. */
  lemma NoStatusRead(line: string)
    requires forall i, j :: 0 <= i < j < |line| ==> line[i] != ' ' || line[j] != ' '
    ensures StatusCode(line) == None
  {
    hide Split;
    if ' ' !in line {
      SplitFirst(line, ' ', "");
    } else {
      var k :| 0 <= k < |line| && line[k] == ' ';
      SplitFirst(line[..k], ' ', line[k + 1..]);
      SplitFirst(line[k + 1..], ' ', "");
      assert line == line[..k] + [' '] + line[k + 1..];
    }
  }

  /** Responses that never have a body: informational, without content, not modified, or to HEAD. */
  predicate Bodiless(code: string, request: Finished) {
    "1" <= code || code == "204" || code == "304" || "HEAD " <= request.firstLine
  }

  /** `coding` is the last one in a list of transfer codings, and chunked. */
  predicate IsLast(codings: string, coding: string) {
    LastToken(codings, ',', coding) && SameName(coding, "chunked")
  }

  /** The last transfer coding is chunked. */
  ghost predicate LastChunked(headers: seq<Header>) {
    exists i: nat, coding :: First(headers, "Transfer-Encoding", i) && IsLast(headers[i].value, coding)
  }

  /** A media type that is empty or, without a length, cannot be framed. */
  ghost predicate Unframed(headers: seq<Header>) {
    exists i: nat, media ::
      && First(headers, "Content-Type", i) && FirstToken(headers[i].value, ';', media)
      && (media == "" || SameName(media, "multipart/byteranges"))
  }

  lemma LastTokenUnique(s: string, sep: char, a: string, b: string)
    requires LastToken(s, sep, a) && LastToken(s, sep, b)
    ensures a == b
  {
    var i, j := |s| - |a|, |s| - |b|;
    assert forall k :: i <= k < |s| ==> s[k] == s[i..][k - i];
    assert forall k :: j <= k < |s| ==> s[k] == s[j..][k - j];
  }

  lemma FirstTokenUnique(s: string, sep: char, a: string, b: string)
    requires FirstToken(s, sep, a) && FirstToken(s, sep, b)
    ensures a == b
  {
    assert forall k :: 0 <= k < |a| ==> s[k] == a[k];
    assert forall k :: 0 <= k < |b| ==> s[k] == b[k];
  }

  lemma LastChunkedAt(headers: seq<Header>, i: nat)
    requires First(headers, "Transfer-Encoding", i)
    ensures var codings := Split(headers[i].value, ',');
            LastChunked(headers) <==> EquivalentStrings(codings[|codings| - 1], "chunked")
  {
    hide Split, EquivalentStrings, SameName, LastToken;
    var value := headers[i].value;
    var last := Split(value, ',')[|Split(value, ',')| - 1];
    SplitTokens(value, ',');
    NamesMatch(last, "chunked");
    if SameName(last, "chunked") {
      assert IsLast(headers[i].value, last);
    }
    if LastChunked(headers) {
      var k: nat, coding :| First(headers, "Transfer-Encoding", k) && IsLast(headers[k].value, coding);
      assert k == i;
      LastTokenUnique(value, ',', coding, last);
    }
  }

  lemma LastChunkedRead(headers: seq<Header>)
    ensures var encoding := HeaderValue(headers, "Transfer-Encoding");
            LastChunked(headers) <==>
              && encoding.Some?
              && var codings := Split(encoding.value, ','); EquivalentStrings(codings[|codings| - 1], "chunked")
  {
    hide Split, HeaderValue, EquivalentStrings, IsLast, SameName;
    LookupFirst(headers, "Transfer-Encoding");
    if Present(headers, "Transfer-Encoding") {
      var i := FirstExists(headers, "Transfer-Encoding");
      LastChunkedAt(headers, i);
    }
  }

  lemma UnframedAt(headers: seq<Header>, i: nat)
    requires First(headers, "Content-Type", i)
    ensures var media := MediaType(headers[i].value);
            Unframed(headers) <==> media == "" || EquivalentStrings(media, "multipart/byteranges")
  {
    hide Split, EquivalentStrings, SameName, FirstToken;
    var value := headers[i].value;
    SplitTokens(value, ';');
    NamesMatch(MediaType(value), "multipart/byteranges");
    if Unframed(headers) {
      var k: nat, media :|
        && First(headers, "Content-Type", k) && FirstToken(headers[k].value, ';', media)
        && (media == "" || SameName(media, "multipart/byteranges"));
      assert k == i;
      FirstTokenUnique(value, ';', media, MediaType(value));
    }
  }

  lemma UnframedRead(headers: seq<Header>)
    ensures var ct := HeaderValue(headers, "Content-Type");
            Unframed(headers) <==>
              && ct.Some?
              && (MediaType(ct.value) == "" || EquivalentStrings(MediaType(ct.value), "multipart/byteranges"))
  {
    hide MediaType, HeaderValue, EquivalentStrings, FirstToken, SameName;
    LookupFirst(headers, "Content-Type");
    if Present(headers, "Content-Type") {
      var i := FirstExists(headers, "Content-Type");
      UnframedAt(headers, i);
    }
  }

  /** A response at the end of its headers. */
  ghost predicate AtResponse(s: State, rest: string, code: string) {
    && AtBlank(s, rest) && s.role.Response? && s.msg.request.Some?
    && exists version, reason :: StatusLine(s.msg.firstLine, version, code, reason)
  }

  lemma ResponseDecides(s: State, rest: string, code: string)
    requires AtResponse(s, rest, code) && code != ""
    ensures match ResponseFraming(s.msg.firstLine, s.msg.headers, s.msg.request.value)
            case None => ParsingStep(s) == Thrown
            case Some(framing) => Frames(s, rest, framing)
    ensures StatusCode(s.msg.firstLine) == Some(code)
    ensures Bodiless(code, s.msg.request.value) <==>
            code[0] == '1' || code == "204" || code == "304" || StartsWith(s.msg.request.value.firstLine, "HEAD ")
  {
    hide ResponseFraming, ParsingStep, StartsWith, StatusLine;
    var version, reason :| StatusLine(s.msg.firstLine, version, code, reason);
    StatusRead(s.msg.firstLine, version, code, reason);
    HeadDecides(s, rest);
    Prefixes(s.msg.request.value.firstLine, "HEAD ");
  }

  /** Rule 1: an informational response, one without content or not modified, and any response to a HEAD
      request has no body, whatever its headers say. */
  lemma BodilessRule(s: State, rest: string, code: string)
    requires AtResponse(s, rest, code) && code != "" && Bodiless(code, s.msg.request.value)
    ensures Frames(s, rest, Known(0))
  {
    hide ParsingStep, StatusCode, HeaderValue, StartsWith, Bodiless, AtResponse, Split, EquivalentStrings;
    ResponseDecides(s, rest, code);
  }

  /** Rule 2: otherwise, if the last transfer coding is chunked, the body is, whatever a Content-Length
      says, with trailer lines expected iff there is a Trailer header. */
  lemma ChunkedRule(s: State, rest: string, code: string)
    requires AtResponse(s, rest, code) && code != "" && !Bodiless(code, s.msg.request.value)
    requires LastChunked(s.msg.headers)
    ensures Frames(s, rest, Chunks(Chunked.Fresh(Present(s.msg.headers, "Trailer"))))
  {
    hide ParsingStep, StatusCode, HeaderValue, StartsWith, Bodiless, AtResponse, Split, EquivalentStrings;
    hide Present, LastChunked, Chunked.Fresh, First;
    ResponseDecides(s, rest, code);
    LastChunkedRead(s.msg.headers);
    LookupFirst(s.msg.headers, "Trailer");
  }

  /** Rule 3: otherwise, without a Transfer-Encoding, the first Content-Length fixes the length if it is a
      numeral; one that is no number is refused. */
  lemma LengthRule(s: State, rest: string, code: string, i: nat, ds: seq<Digit>)
    requires AtResponse(s, rest, code) && code != "" && !Bodiless(code, s.msg.request.value)
    requires !Present(s.msg.headers, "Transfer-Encoding") && First(s.msg.headers, "Content-Length", i)
    ensures Numeral(ds, 10) && s.msg.headers[i].value == Spell(ds) ==>
              if Value(ds, 10) < 0x8000_0000_0000_0000 then Frames(s, rest, Known(Value(ds, 10)))
              else ParsingStep(s) == Thrown
    ensures (forall n :: Proper(n, 10) ==> Show(n) != s.msg.headers[i].value) ==> ParsingStep(s) == Thrown
  {
    hide ParsingStep, StatusCode, HeaderValue, StartsWith, Bodiless, AtResponse, Split, EquivalentStrings;
    hide Present, LengthValue, Value, Numeral, Spell, Proper, Show;
    ResponseDecides(s, rest, code);
    LookupFirst(s.msg.headers, "Transfer-Encoding");
    LengthRules(s.msg.headers, i, ds);
  }

  /** Rules 4 and 5: otherwise the response ends with the connection, unless its media type is
      multipart/byteranges or empty, which is refused. */
  lemma OpenEndedRule(s: State, rest: string, code: string)
    requires AtResponse(s, rest, code) && code != "" && !Bodiless(code, s.msg.request.value)
    requires !LastChunked(s.msg.headers)
    requires Present(s.msg.headers, "Transfer-Encoding") || !Present(s.msg.headers, "Content-Length")
    ensures Unframed(s.msg.headers) ==> ParsingStep(s) == Thrown
    ensures !Unframed(s.msg.headers) ==> Frames(s, rest, UntilEof)
  {
    hide ParsingStep, StatusCode, HeaderValue, StartsWith, Bodiless, AtResponse, Split, EquivalentStrings, MediaType;
    hide Present, LastChunked, Unframed, First;
    ResponseDecides(s, rest, code);
    LastChunkedRead(s.msg.headers);
    UnframedRead(s.msg.headers);
    LookupFirst(s.msg.headers, "Transfer-Encoding");
    LookupFirst(s.msg.headers, "Content-Length");
  }

  /** A status line of fewer than three words is refused, and so is an empty code. */
  lemma StatusRule(s: State, rest: string)
    requires AtBlank(s, rest) && s.role.Response? && s.msg.request.Some?
    requires (forall i, j :: 0 <= i < j < |s.msg.firstLine| ==> s.msg.firstLine[i] != ' ' || s.msg.firstLine[j] != ' ')
             || AtResponse(s, rest, "")
    ensures ParsingStep(s) == Thrown
  {
    hide ParsingStep, HeaderValue, StatusCode, StatusLine, Split;
    HeadDecides(s, rest);
    if AtResponse(s, rest, "") {
      var version, reason :| StatusLine(s.msg.firstLine, version, "", reason);
      StatusRead(s.msg.firstLine, version, "", reason);
    } else {
      NoStatusRead(s.msg.firstLine);
    }
  }

  // ---------------------------------------------------------------- whole responses

  /** The parser at the end of the headers of a response. */
  function HeadRead(f: Finished): State {
    State(Response, CRLF, [], Partial(HeadersPending, f.firstLine, f.headers, "", Unset, f.request), [])
  }

  ghost predicate Headed(f: Finished, code: string) {
    && Line(f.firstLine) && f.request.Some? && (forall k :: 0 <= k < |f.headers| ==> Parsed(f.headers[k]))
    && code != "" && exists version, reason :: StatusLine(f.firstLine, version, code, reason)
  }

  lemma HeadReadRight(f: Finished, code: string)
    requires Headed(f, code)
    ensures AtResponse(HeadRead(f), "", code)
    ensures match ExpectedBody(Response, f.firstLine, f.headers, f.request)
            case None => ParsingStep(HeadRead(f)) == Thrown
            case Some(framing) => Frames(HeadRead(f), "", framing)
  {
    hide ExpectedBody, ParsingStep, Frames, Line, Parsed;
    assert HeadRead(f).buffer == CRLF + "";
    HeadDecides(HeadRead(f), "");
  }

  lemma FramesOnce(s: State, rest: string, a: Framing, b: Framing)
    requires Frames(s, rest, a)
    ensures Frames(s, rest, b) ==> a == b
    ensures ParsingStep(s) != Thrown
  {
    hide ParsingStep;
  }

  lemma FramedSo(f: Finished, code: string, framing: Framing)
    requires Headed(f, code) && Frames(HeadRead(f), "", framing)
    ensures ExpectedBody(Response, f.firstLine, f.headers, f.request) == Some(framing)
  {
    hide ExpectedBody, ParsingStep, Frames, Headed;
    HeadReadRight(f, code);
    var e := ExpectedBody(Response, f.firstLine, f.headers, f.request);
    FramesOnce(HeadRead(f), "", framing, if e.Some? then e.value else framing);
  }

  lemma Unframable(f: Finished, code: string)
    requires Headed(f, code) && ParsingStep(HeadRead(f)) == Thrown
    ensures ExpectedBody(Response, f.firstLine, f.headers, f.request) == None
  {
    hide ExpectedBody, ParsingStep, Headed;
    HeadReadRight(f, code);
  }

  /** A response of rule 1 is complete without a body, and with none. */
  lemma BodilessReceived(f: Finished, code: string)
    requires Headed(f, code) && Bodiless(code, f.request.value)
    ensures (Received(Response, f) <==> f.body == "") && !OpenEnded(f)
  {
    hide ExpectedBody, Parsed, Line, Bodiless, Frames;
    HeadReadRight(f, code);
    BodilessRule(HeadRead(f), "", code);
    FramedSo(f, code, Known(0));
  }

  /** One of rule 2 is complete with a chunked encoding whose trailer lines are there just when there is
      a Trailer header and whose sizes do not wrap. */
  lemma ChunkedReceived(f: Finished, code: string, b: ChunkedFraming.Body)
    requires Headed(f, code) && !Bodiless(code, f.request.value) && LastChunked(f.headers)
    requires ChunkedFraming.WellFormed(b) && f.body == ChunkedFraming.Encode(b)
    ensures Received(Response, f) <==>
            (Present(f.headers, "Trailer") <==> b.trailer != []) && ChunkedFraming.Moderate(b)
  {
    hide ExpectedBody, Parsed, Line, Bodiless, Frames, LastChunked, Present, BodyFits;
    hide ChunkedFraming.WellFormed, ChunkedFraming.Encode, ChunkedFraming.Moderate;
    HeadReadRight(f, code);
    ChunkedRule(HeadRead(f), "", code);
    FramedSo(f, code, Chunks(Chunked.Fresh(Present(f.headers, "Trailer"))));
    ChunksFit(b, Present(f.headers, "Trailer"));
  }

  /** One of rule 3 is complete with just the bytes that its first Content-Length announces. */
  lemma LengthReceived(f: Finished, code: string, i: nat, ds: seq<Digit>)
    requires Headed(f, code) && !Bodiless(code, f.request.value)
    requires !Present(f.headers, "Transfer-Encoding") && First(f.headers, "Content-Length", i)
    requires Numeral(ds, 10) && f.headers[i].value == Spell(ds)
    ensures (Received(Response, f) <==> |f.body| == Value(ds, 10) < 0x8000_0000_0000_0000) && !OpenEnded(f)
  {
    hide ExpectedBody, Parsed, Line, Bodiless, Frames, Present, Value, Spell, Numeral, First;
    HeadReadRight(f, code);
    LengthRule(HeadRead(f), "", code, i, ds);
    if Value(ds, 10) < 0x8000_0000_0000_0000 {
      FramedSo(f, code, Known(Value(ds, 10)));
    } else {
      Unframable(f, code);
    }
  }

  /** Any other is complete at no point of the stream, and ends with the connection unless its media type
      is refused. */
  lemma OthersOpenEnded(f: Finished, code: string)
    requires Headed(f, code) && !Bodiless(code, f.request.value) && !LastChunked(f.headers)
    requires Present(f.headers, "Transfer-Encoding") || !Present(f.headers, "Content-Length")
    ensures !Received(Response, f) && (OpenEnded(f) <==> !Unframed(f.headers))
  {
    hide ExpectedBody, Parsed, Line, Bodiless, Frames, Present, LastChunked, Unframed;
    HeadReadRight(f, code);
    OpenEndedRule(HeadRead(f), "", code);
    if Unframed(f.headers) {
      Unframable(f, code);
    } else {
      FramedSo(f, code, UntilEof);
    }
  }

  /** So the parser takes a response of rule 1 as ended by its blank line: what follows is left for the
      next message, whatever length the headers announce. */
  lemma BodilessParses(s: State, f: Finished, code: string, rest: string)
    requires s.role.Response? && s.msg == NEW_MESSAGE && s.requests != [] && f.request == Some(s.requests[0])
    requires Headed(f, code) && Bodiless(code, s.requests[0]) && f.body == ""
    requires s.buffer == f.firstLine + CRLF + PrintHeaders(f.headers) + rest
    ensures Loop(s) == Loop(Parsing(s, [ReparsedMessage(f)], rest))
  {
    hide Loop, Headed, Bodiless, PrintHeaders, Received, ReparsedMessage;
    BodilessReceived(f, code);
    assert Print(f) == f.firstLine + CRLF + PrintHeaders(f.headers) by {
      assert f.firstLine + CRLF + PrintHeaders(f.headers) + "" == f.firstLine + CRLF + PrintHeaders(f.headers);
    }
    PrintedParses(s, f, rest);
  }
}
