/** What makes messages complete, said in terms of the bytes of a message: the numeral of a
    Content-Length, a chunked encoding, or the end of the connection. */
module Completion {
  import opened Text
  import opened Message
  import opened Names
  import opened Sequence
  import opened Printing
  import Chunked
  import ChunkedFraming

  // ---------------------------------------------------------------- by length

  /** A decimal numeral, leading zeros allowed, announces the number it stands for. */
  lemma LengthOfNumeral(ds: seq<Digit>)
    requires Numeral(ds, 10)
    ensures LengthValue(Spell(ds)) ==
            if Value(ds, 10) < 0x8000_0000_0000_0000 then Some(Known(Value(ds, 10))) else None
  {
    hide Atoi, Value;
    AtoiOfNumeral(ds, 10);
  }

  lemma DistinctMethods(firstLine: string)
    requires StartsWith(firstLine, "POST ")
    ensures !StartsWith(firstLine, "GET ") && !StartsWith(firstLine, "HEAD ")
  {
    assert firstLine[..5][0] == firstLine[0] == 'P';
    OtherStart(firstLine, "GET ");
    OtherStart(firstLine, "HEAD ");
  }

  lemma OtherStart(s: string, prefix: string)
    requires s != "" && prefix != "" && s[0] != prefix[0]
    ensures !StartsWith(s, prefix)
  {
    if |s| >= |prefix| {
      assert s[..|prefix|][0] == s[0];
    }
  }

  /** A POST with a numeral for its first Content-Length is complete with just as many bytes of body. */
  lemma PostReceived(f: Finished, i: nat, ds: seq<Digit>)
    requires Line(f.firstLine) && "POST " <= f.firstLine && f.request == None
    requires forall k :: 0 <= k < |f.headers| ==> Parsed(f.headers[k])
    requires First(f.headers, "Content-Length", i) && Numeral(ds, 10) && f.headers[i].value == Spell(ds)
    ensures Received(Request, f) <==> |f.body| == Value(ds, 10) < 0x8000_0000_0000_0000
  {
    hide HeaderValue, LengthValue, Value, Line, Parsed, Spell, SameName;
    assert StartsWith(f.firstLine, "POST ");
    DistinctMethods(f.firstLine);
    LengthOfNumeral(ds);
    LookupFirst(f.headers, "Content-Length");
  }

  /** In particular, every body can be sent: its length in decimal, under any spelling of the name, makes
      the POST complete. */
  lemma DecimalLengthReceived(firstLine: string, key: string, body: string)
    requires Line(firstLine) && "POST " <= firstLine && |body| < 0x8000_0000_0000_0000
    requires SameLetters(key, "Content-Length")
    ensures var f := Finished(firstLine, [Header(key, Spell(Decimal(|body|)))], body, None);
            Received(Request, f) && NoBlankValues(f)
  {
    hide Line, Value, Received, Decimal, Blank, HeaderValue, Parsed, Spell, SameLetters, SameName;
    var h := Header(key, Spell(Decimal(|body|)));
    LengthHeader(key, Decimal(|body|));
    SpelledAnyhow(key, "Content-Length");
    assert First([h], "Content-Length", 0);
    DecimalValue(|body|);
    PostReceived(Finished(firstLine, [h], body, None), 0, Decimal(|body|));
  }

  lemma LengthHeader(key: string, ds: seq<Digit>)
    requires SameLetters(key, "Content-Length") && Numeral(ds, 10)
    ensures Parsed(Header(key, Spell(ds))) && !Blank(Spell(ds))
  {
    hide Line, Written, SameLetters;
    WrittenReads(ds[0]);
    NumeralIsLine(ds);
    NameIsPlain(key);
    assert Spell(ds)[0] != ' ';
  }

  lemma NoReturnIsLine(s: string)
    requires forall k :: 0 <= k < |s| ==> s[k] != '\r'
    ensures Line(s)
  {
    var i := Find(s, CRLF);
    hide Find;
    CrlfAt(s, i);
  }

  lemma NumeralIsLine(ds: seq<Digit>)
    requires Numeral(ds, 10)
    ensures Line(Spell(ds))
  {
    hide Written, Line;
    forall k | 0 <= k < |ds|
      ensures Spell(ds)[k] != '\r'
    {
      WrittenReads(ds[k]);
    }
    NoReturnIsLine(Spell(ds));
  }

  lemma NameIsPlain(key: string)
    requires SameLetters(key, "Content-Length")
    ensures ':' !in key && Line(key)
  {
    hide Line;
    forall k | 0 <= k < |key|
      ensures key[k] != ':' && key[k] != '\r'
    {
      assert SameLetter(key[k], "Content-Length"[k]);
    }
    NoReturnIsLine(key);
  }

  // ---------------------------------------------------------------- by chunks

  /** The chunked encoding of a body fits iff its trailer lines are announced rightly and no chunk is
      of a size that wraps. */
  lemma ChunksFit(b: ChunkedFraming.Body, announced: bool)
    requires ChunkedFraming.WellFormed(b)
    ensures BodyFits(Some(Chunks(Chunked.Fresh(announced))), ChunkedFraming.Encode(b)) <==>
            (announced <==> b.trailer != []) && ChunkedFraming.Moderate(b)
  {
    hide ChunkedFraming.WellFormed, ChunkedFraming.Encode, ChunkedFraming.Moderate, Chunked.Scan;
    var c := Chunked.Feed(Chunked.Fresh(announced).scanner, ChunkedFraming.Encode(b));
    assert c.buffer == ChunkedFraming.Encode(b) + "";
    ChunkedFraming.BodyEnds(c, b, "");
  }

  /** So a response that its headers frame as chunked is complete with any chunked encoding whose
      trailer lines are there just when there is a Trailer header and whose sizes do not wrap. */
  lemma ChunkedResponseReceived(f: Finished, b: ChunkedFraming.Body)
    requires Line(f.firstLine) && f.request.Some? && f.body == ChunkedFraming.Encode(b)
    requires forall k :: 0 <= k < |f.headers| ==> Parsed(f.headers[k])
    requires ExpectedBody(Response, f.firstLine, f.headers, f.request) ==
             Some(Chunks(Chunked.Fresh(HasHeader(f.headers, "Trailer"))))
    requires ChunkedFraming.WellFormed(b)
    ensures Received(Response, f) <==>
            (HasHeader(f.headers, "Trailer") <==> b.trailer != []) && ChunkedFraming.Moderate(b)
  {
    hide ChunkedFraming.Moderate, ChunkedFraming.WellFormed, ChunkedFraming.Encode;
    hide ExpectedBody, Parsed, Line, HasHeader, BodyFits;
    ChunksFit(b, HasHeader(f.headers, "Trailer"));
  }

  // ---------------------------------------------------------------- by the end of the connection

  /** A response whose body is to end with the connection, or is chunked and has not ended. */
  ghost predicate OpenEnded(f: Finished) {
    && Line(f.firstLine) && f.request.Some?
    && (forall k :: 0 <= k < |f.headers| ==> Parsed(f.headers[k]))
    && match ExpectedBody(Response, f.firstLine, f.headers, f.request)
       case Some(UntilEof) => true
       case Some(Chunks(p)) => Chunked.Scan(Chunked.Feed(p.scanner, f.body)).Incomplete?
       case _ => false
  }

  /** Reading an open-ended body takes all of it and asks for more. */
  lemma OpenBodyRead(m: Partial, body: string)
    requires m.phase == BodyPending && m.body == ""
    requires match m.framing
             case UntilEof => true
             case Chunks(p) =>
               p == Chunked.Fresh(p.scanner.trailers) && Chunked.Scan(Chunked.Feed(p.scanner, body)).Incomplete?
             case _ => false
    ensures var r := ReadBody(m, body);
            && r.Some? && r.value.0 == |body|
            && r.value.1 == m.(body := body, framing := r.value.1.framing)
            && (r.value.1.framing.Chunks? || r.value.1.framing.UntilEof?)
  {
    hide Chunked.Read, Chunked.Scan;
    assert "" + body == body;
    if m.framing.Chunks? {
      ChunkedFraming.FreshSettled(m.framing.p.scanner.trailers);
      ChunkedFraming.ReadIsScan(m.framing.p, body);
    }
  }

  /** A response in its body, at the end of the connection. */
  lemma ClosesOpen(s: State, f: Finished)
    requires s.role.Response? && s.msg.phase == BodyPending && s.buffer == ""
    requires s.msg.framing.Chunks? || s.msg.framing.UntilEof?
    requires Finish(s.msg) == f
    ensures Parse(s, "") == Some(s.(complete := s.complete + [f], msg := NEW_MESSAGE))
  {
    var t := s.(msg := s.msg.(phase := Complete, framing := Unset));
    assert ParsingStep(t) == Again(s.(complete := s.complete + [f], msg := NEW_MESSAGE));
    Idle(s.(complete := s.complete + [f], msg := NEW_MESSAGE));
  }

  /** Printing an open-ended response and closing the connection completes it again. */
  lemma PrintedThenClosed(s: State, f: Finished)
    requires s.role.Response? && s.msg == NEW_MESSAGE && s.buffer == Print(f) && OpenEnded(f)
    requires s.requests != [] && f.request == Some(s.requests[0])
    ensures Loop(s).Some? && Loop(s).value.msg.phase == BodyPending
    ensures Parse(Loop(s).value, "") == Some(Parsing(s, [ReparsedMessage(f)], ""))
  {
    hide ExpectedBody, ReadBody, PrintHeaders, Parsed, ReparsedHeaders, Line, Parse, Loop, Eof, Chunked.Scan;
    var framing := ExpectedBody(s.role, f.firstLine, f.headers, f.request).value;
    assert s.buffer == f.firstLine + CRLF + (PrintHeaders(f.headers) + f.body);
    HeadParses(s, f, framing, f.body);
    var t := InBody(s, f, framing, f.body);
    ChunksStartAtZero(s.role, f.firstLine, f.headers, f.request);
    OpenBodyRead(t.msg, f.body);
    var u := t.(buffer := "", msg := ReadBody(t.msg, f.body).value.1);
    StopsInBody(t, u);
    ClosesOpen(u, ReparsedMessage(f));
  }

  lemma StopsInBody(t: State, u: State)
    requires t.msg.phase == BodyPending && u.msg.phase == BodyPending
    requires ReadBody(t.msg, t.buffer) == Some((|t.buffer|, u.msg)) && u == t.(buffer := "", msg := u.msg)
    ensures Loop(t) == Some(u)
  {
    hide ReadBody;
    assert t.buffer[|t.buffer|..] == "";
  }

  /** A call of `parse` has run its course. */
  ghost predicate Ran(s: State) {
    Loop(s) == Some(s)
  }

  lemma LoopRan(s: State)
    requires Framed(s.msg) && Loop(s).Some?
    ensures Ran(Loop(s).value)
  {
    hide Loop;
    LoopExtends(s, "");
    assert Append(s, "") == s && Append(Loop(s).value, "") == Loop(s).value;
  }

  /** The end of the connection completes the message in progress if that is an open-ended response,
      throws if it is any other message that has begun, and changes nothing between messages. */
  lemma CompletedAtEnd(s: State)
    requires Resting(s) && AllReceived(s) && Ran(s)
    ensures match s.msg.phase
            case FirstLinePending => Parse(s, "") == Some(s)
            case BodyPending =>
              if s.role.Response? && (s.msg.framing.Chunks? || s.msg.framing.UntilEof?)
              then OpenEnded(Finish(s.msg))
                   && Parse(s, "") == Some(s.(complete := s.complete + [Finish(s.msg)], msg := NEW_MESSAGE))
              else Parse(s, "") == None
            case _ => Parse(s, "") == None
  {
    hide ExpectedBody, Chunked.Scan, Line, Parsed, Received, Loop;
    if s.msg.phase == BodyPending && s.role.Response? && (s.msg.framing.Chunks? || s.msg.framing.UntilEof?) {
      hide Parse;
      ClosesOpen(s, Finish(s.msg));
    }
  }
}
