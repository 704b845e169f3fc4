/** The chunked parser finds the end of a chunked body (section 3.6.1 of RFC 2616) to the byte,
    however the stream is cut - exactly when the presence of trailer lines was announced rightly. */
module ChunkedFraming {
  import opened Text
  import opened Chunked

  /** A size line, CRLF excluded: a hexadecimal numeral and an extension. */
  datatype SizeLine = SizeLine(digits: seq<Digit>, ext: string)

  datatype Piece = Piece(size: SizeLine, data: string)

  /** A chunked body: chunks, size line of the last chunk, trailer lines. */
  datatype Body = Body(chunks: seq<Piece>, last: SizeLine, trailer: seq<string>)

  function Hdr(l: SizeLine): string {
    Spell(l.digits) + l.ext
  }

  /** Nothing, or text set off by a semicolon or a space. */
  predicate Extension(ext: string) {
    ext == "" || ((ext[0] == ';' || ext[0] == ' ') && Line(ext))
  }

  /** The numeral, leading zeros and letters of either case allowed, stands for `size`. */
  ghost predicate Announces(l: SizeLine, size: nat) {
    && Numeral(l.digits, 16) && Value(l.digits, 16) == size < 0x1_0000_0000
    && Extension(l.ext)
  }

  ghost predicate TrailerLines(ls: seq<string>) {
    forall k :: 0 <= k < |ls| ==> ls[k] != "" && Line(ls[k])
  }

  ghost predicate WellFormed(b: Body) {
    && (forall k :: 0 <= k < |b.chunks| ==> b.chunks[k].data != "" && Announces(b.chunks[k].size, |b.chunks[k].data|))
    && Announces(b.last, 0)
    && TrailerLines(b.trailer)
  }

  /** No chunk is of one of the two largest sizes that 32 bits hold. */
  ghost predicate Moderate(b: Body) {
    forall k :: 0 <= k < |b.chunks| ==> !Wraps(|b.chunks[k].data|)
  }

  // ---------------------------------------------------------------- size lines

  /** Hexadecimal digits are none of the characters that end a numeral. */
  lemma DigitsPlain(ds: seq<Digit>)
    requires Numeral(ds, 16)
    ensures forall k :: 0 <= k < |ds| ==> Spell(ds)[k] != ';' && Spell(ds)[k] != ' ' && Spell(ds)[k] != '\r'
    ensures Line(Spell(ds))
  {
    hide Written;
    forall k | 0 <= k < |ds|
      ensures Spell(ds)[k] != ';' && Spell(ds)[k] != ' ' && Spell(ds)[k] != '\r'
    {
      WrittenReads(ds[k]);
    }
    CrlfAt(Spell(ds), Find(Spell(ds), CRLF));
  }

  /** The part of a token before a space, if there is one. */
  function Clip(token: string): string {
    var space := Find(token, " ");
    if space >= 0 then token[..space] else token
  }

  /** Neither ends the size nor is part of an end. */
  ghost predicate Plain(h: string) {
    Line(h) && forall k :: 0 <= k < |h| ==> h[k] != ';' && h[k] != ' '
  }

  lemma ClipsNumeral(h: string, rest: string)
    requires Plain(h) && (rest == "" || rest[0] == ' ')
    ensures Clip(h + rest) == h
  {
    if rest == "" {
      assert h + rest == h;
      CharAbsent(h, ' ');
    } else {
      assert forall j :: 0 <= j < |h| ==> (h + rest)[j] == h[j];
      FirstChar(h + rest, ' ', |h|);
    }
  }

  /** Where the size ends in a header line: at the first semicolon, or else at CRLF. */
  function SizeEnd(hdr: string): int {
    var semi := Find(hdr, ";");
    if semi >= 0 then semi else Find(hdr, CRLF)
  }

  /** Up to there, and then up to a space, there is just the numeral. */
  lemma NumeralFound(h: string, ext: string)
    requires Plain(h) && Extension(ext) && Line(h + ext)
    ensures var hdr := h + ext + CRLF;
            0 <= SizeEnd(hdr) <= |hdr| && Clip(hdr[..SizeEnd(hdr)]) == h
  {
    hide Clip, SizeEnd, Find, Line;
    if ext != "" && ext[0] == ';' {
      EndsAtSemicolon(h, ext);
      assert (h + ext + CRLF)[..|h|] == h + "";
      ClipsNumeral(h, "");
    } else {
      EndsBehindSpace(h, ext);
      var end := SizeEnd(h + ext + CRLF);
      assert (h + ext + CRLF)[..end] == h + ext[..end - |h|];
      ClipsNumeral(h, ext[..end - |h|]);
    }
  }

  lemma EndsAtSemicolon(h: string, ext: string)
    requires Plain(h) && ext != "" && ext[0] == ';'
    ensures SizeEnd(h + ext + CRLF) == |h|
  {
    hide Find, Line;
    var hdr := h + ext + CRLF;
    assert forall j :: 0 <= j < |h| ==> hdr[j] == h[j];
    FirstChar(hdr, ';', |h|);
  }

  lemma EndsBehindSpace(h: string, ext: string)
    requires Plain(h) && (ext == "" || ext[0] == ' ') && Line(h + ext)
    ensures |h| <= SizeEnd(h + ext + CRLF) <= |h| + |ext|
    ensures ext != "" ==> SizeEnd(h + ext + CRLF) > |h|
  {
    hide Line;
    var hdr := h + ext + CRLF;
    var semi := Find(hdr, ";");
    if semi >= 0 {
      hide Find;
      assert hdr[semi] == hdr[semi..semi + 1][0] == ';';
      assert forall j :: 0 <= j < |h| ==> hdr[j] == h[j];
    } else {
      hide Find;
      LineEnds(h + ext, "");
      assert h + ext + CRLF + "" == hdr;
    }
  }

  lemma ExtendedLine(h: string, ext: string)
    requires Line(h) && Extension(ext)
    ensures Line(h + ext)
  {
    if ext == "" {
      assert h + ext == h;
    } else {
      LineSlice(ext, 1, |ext|);
      assert ext == ext[..1] + ext[1..|ext|];
      LineJoin(h, ext[..1], ext[1..|ext|]);
      assert h + ext[..1] + ext[1..|ext|] == h + ext;
    }
  }

  /** The size read from a line is the number that its hexadecimal numeral stands for, cut to 32
      bits, whatever the extension; a numeral of more than 63 bits is an exception. */
  lemma SizeOfNumeral(ds: seq<Digit>, ext: string)
    requires Numeral(ds, 16) && Extension(ext)
    ensures ChunkSize(Spell(ds) + ext + CRLF) ==
            if Value(ds, 16) < 0x8000_0000_0000_0000 then Some(Value(ds, 16) % 0x1_0000_0000) else None
  {
    hide Value, Atoi, Line, Extension, Find, ChunkSize;
    DigitsPlain(ds);
    ExtendedLine(Spell(ds), ext);
    NumeralFound(Spell(ds), ext);
    SizeIsClipped(Spell(ds) + ext + CRLF);
    AtoiOfNumeral(ds, 16);
  }

  lemma SizeIsClipped(hdr: string)
    requires 0 <= SizeEnd(hdr) <= |hdr|
    ensures ChunkSize(hdr) == match Atoi(Clip(hdr[..SizeEnd(hdr)]), 16)
                              case None => None
                              case Some(n) => Some(n % 0x1_0000_0000)
  {
    hide Find, Atoi;
  }

  /** Hence a size line is read as what it announces. */
  lemma SizeLineRead(l: SizeLine, size: nat)
    requires Announces(l, size)
    ensures Line(Hdr(l)) && ChunkSize(Hdr(l) + CRLF) == Some(size)
  {
    hide Value, ChunkSize, Line, Extension;
    DigitsPlain(l.digits);
    ExtendedLine(Spell(l.digits), l.ext);
    SizeOfNumeral(l.digits, l.ext);
  }

  // ---------------------------------------------------------------- the end of the body

  function Lines(ls: seq<string>): string {
    if ls == [] then CRLF else ls[0] + CRLF + Lines(ls[1..])
  }

  function Encode(b: Body): string
    decreases |b.chunks|
  {
    if b.chunks == [] then Hdr(b.last) + CRLF + Lines(b.trailer)
    else Hdr(b.chunks[0].size) + CRLF + b.chunks[0].data + CRLF + Encode(b.(chunks := b.chunks[1..]))
  }

  /** Where a blank line can be in a line, CRLF and more: at the end of the line if a CRLF follows,
      or in what follows. */
  lemma BlankAfterLine(l: string, rest: string, j: nat)
    requires Line(l)
    ensures At(l + CRLF + rest, j, BLANK) <==>
            (j == |l| && At(rest, 0, CRLF)) || (j >= |l| + 2 && At(rest, j - |l| - 2, BLANK))
  {
    var s, k := l + CRLF + rest, j - |l| - 2;
    LineEnds(l, rest);
    BlankAt(s, j);
    CrlfAt(s, j);
    CrlfAt(s, j + 2);
    BlankAt(rest, k);
    CrlfAt(rest, k);
    CrlfAt(rest, k + 2);
  }

  lemma LinesHead(ls: seq<string>, suffix: string)
    requires ls != []
    ensures Lines(ls) + suffix == ls[0] + CRLF + (Lines(ls[1..]) + suffix)
  {
    var l, t := ls[0] + CRLF, Lines(ls[1..]);
    assert (l + t) + suffix == l + (t + suffix);
  }

  lemma LinesSize(ls: seq<string>)
    ensures ls == [] ==> Lines(ls) == CRLF
    ensures ls != [] ==> |Lines(ls)| >= |ls[0]| + 4
  {
  }

  lemma NextLineFirst(ls: seq<string>, suffix: string)
    requires ls != [] && Line(ls[0])
    ensures Find(Lines(ls) + suffix, CRLF) == |ls[0]|
  {
    LinesHead(ls, suffix);
    LineEnds(ls[0], Lines(ls[1..]) + suffix);
  }

  /** The first blank line after trailer lines is the one that ends them. */
  lemma {:induction false} BlankLineFound(ls: seq<string>, suffix: string)
    requires ls != [] && TrailerLines(ls)
    ensures 0 <= Find(Lines(ls) + suffix, BLANK) == |Lines(ls)| - 4
  {
    var l, rest := ls[0], Lines(ls[1..]) + suffix;
    var s := l + CRLF + rest;
    LinesHead(ls, suffix);
    forall j: nat
      ensures At(s, j, BLANK) <==>
              (j == |l| && At(rest, 0, CRLF)) || (j >= |l| + 2 && At(rest, j - |l| - 2, BLANK))
    {
      BlankAfterLine(l, rest, j);
    }
    if |ls| == 1 {
      assert rest == CRLF + suffix;
      assert rest[0] == '\r' && rest[1] == '\n';
      CrlfAt(rest, 0);
      assert At(s, |l|, BLANK);
      FindUnique(s, BLANK, |l|);
    } else {
      assert TrailerLines(ls[1..]);
      BlankLineFound(ls[1..], suffix);
      NextLineFirst(ls[1..], suffix);
      assert !At(rest, 0, CRLF);
      var k := Find(rest, BLANK);
      assert At(s, |l| + 2 + k, BLANK);
      forall j: nat | j < |l| + 2 + k
        ensures !At(s, j, BLANK)
      {
        assert !At(rest, j - |l| - 2, BLANK);
      }
      FindUnique(s, BLANK, |l| + 2 + k);
    }
  }

  /** In the trailer, the parser stops at the true end iff trailer lines are there as announced. */
  lemma TrailerEnds(c: Scanner, ls: seq<string>, suffix: string)
    requires c.stage == Trailer && c.buffer == Lines(ls) + suffix
    requires TrailerLines(ls)
    ensures Scan(c) == Done(c.parsed + |Lines(ls)|) <==> (c.trailers <==> ls != [])
  {
    hide ChunkSize, Lines;
    LinesSize(ls);
    if ls == [] {
      LineEnds("", suffix);
      assert c.buffer == "" + CRLF + suffix;
    } else {
      BlankLineFound(ls, suffix);
      NextLineFirst(ls, suffix);
    }
  }

  /** A size line in front of anything is taken as one turn. */
  lemma SizeLineTaken(c: Scanner, l: SizeLine, size: nat, rest: string)
    requires c.stage == ChunkHdr && c.buffer == Hdr(l) + CRLF + rest && Announces(l, size)
    ensures ScanTurn(c) ==
            Next(Scanner(if size == 0 then Trailer else Chunk, size, rest, c.parsed + |Hdr(l)| + 2, c.trailers))
  {
    hide ChunkSize, Hdr, Announces;
    SizeLineRead(l, size);
    LineEnds(Hdr(l), rest);
    assert c.buffer[..|Hdr(l)| + 2] == Hdr(l) + CRLF;
    assert c.buffer[|Hdr(l)| + 2..] == rest;
  }

  lemma ChunkTaken(c: Scanner, data: string, rest: string)
    requires c.stage == Chunk && c.size == |data| && c.buffer == data + CRLF + rest && !Wraps(c.size)
    ensures ScanTurn(c) == Next(Scanner(ChunkHdr, c.size, rest, c.parsed + |data| + 2, c.trailers))
  {
    hide ChunkSize;
    assert c.buffer[|data|..|data| + 2] == CRLF;
    assert c.buffer[|data| + 2..] == rest;
  }

  lemma ChunkThrows(c: Scanner)
    requires c.stage == Chunk && c.buffer != "" && Wraps(c.size)
    ensures Scan(c) == Fail
  {
  }

  lemma EncodeLast(b: Body, suffix: string)
    requires b.chunks == []
    ensures Encode(b) + suffix == Hdr(b.last) + CRLF + (Lines(b.trailer) + suffix)
    ensures |Encode(b)| == |Hdr(b.last)| + 2 + |Lines(b.trailer)|
  {
    hide Hdr, Lines;
    Regroup(Hdr(b.last) + CRLF, Lines(b.trailer), suffix);
  }

  lemma Regroup(a: string, b: string, c: string)
    ensures (a + b) + c == a + (b + c)
  {
  }

  lemma EncodeHead(b: Body, suffix: string)
    requires b.chunks != []
    ensures var ch, tail := b.chunks[0], b.(chunks := b.chunks[1..]);
            && Encode(b) + suffix == Hdr(ch.size) + CRLF + (ch.data + CRLF + (Encode(tail) + suffix))
            && |Encode(b)| == |Hdr(ch.size)| + 2 + |ch.data| + 2 + |Encode(tail)|
  {
    var ch, t := b.chunks[0], Encode(b.(chunks := b.chunks[1..]));
    var h := Hdr(ch.size) + CRLF;
    assert Encode(b) == h + ch.data + CRLF + t;
    hide Hdr, Encode;
    Regroup(h + ch.data + CRLF, t, suffix);
    Regroup(h + ch.data, CRLF, t + suffix);
    Regroup(h, ch.data, CRLF + (t + suffix));
    Regroup(ch.data, CRLF, t + suffix);
  }

  lemma ModerateHead(b: Body)
    requires b.chunks != []
    ensures Moderate(b) <==> !Wraps(|b.chunks[0].data|) && Moderate(b.(chunks := b.chunks[1..]))
  {
    hide Wraps;
    var tail := b.(chunks := b.chunks[1..]);
    assert forall k :: 0 <= k < |tail.chunks| ==> tail.chunks[k] == b.chunks[k + 1];
    if !Wraps(|b.chunks[0].data|) && Moderate(tail) {
      forall k | 0 <= k < |b.chunks|
        ensures !Wraps(|b.chunks[k].data|)
      {
        if k > 0 {
          assert tail.chunks[k - 1] == b.chunks[k];
        }
      }
    }
  }

  /** Exactness on a whole buffer. */
  lemma {:induction false} BodyEnds(c: Scanner, b: Body, suffix: string)
    requires c.stage == ChunkHdr && c.buffer == Encode(b) + suffix && WellFormed(b)
    ensures Scan(c) == Done(c.parsed + |Encode(b)|) <==> (c.trailers <==> b.trailer != []) && Moderate(b)
    decreases |b.chunks|
  {
    hide ScanTurn, Encode, Lines, Hdr, Announces, Wraps, Moderate;
    if b.chunks == [] {
      EncodeLast(b, suffix);
      SizeLineTaken(c, b.last, 0, Lines(b.trailer) + suffix);
      TrailerEnds(ScanTurn(c).c, b.trailer, suffix);
      NoChunks(b);
    } else {
      EncodeHead(b, suffix);
      ModerateHead(b);
      var ch, tail := b.chunks[0], b.(chunks := b.chunks[1..]);
      var rest := Encode(tail) + suffix;
      SizeLineTaken(c, ch.size, |ch.data|, ch.data + CRLF + rest);
      var d := ScanTurn(c).c;
      if Wraps(|ch.data|) {
        ChunkThrows(d);
      } else {
        ChunkTaken(d, ch.data, rest);
        BodyEnds(ScanTurn(d).c, tail, suffix);
      }
    }
  }

  lemma NoChunks(b: Body)
    requires b.chunks == []
    ensures Moderate(b)
  {
  }

  // ---------------------------------------------------------------- what is refused

  /** The size of a line is read from what precedes a semicolon and then a space: iff that is a number in
      base 16 - blanks, a sign and a prefix allowed - that fits in 64 bits with its sign. */
  lemma SizeRules(line: string, part: string, token: string, n: Number)
    requires Line(line) && FirstToken(line, ';', part) && FirstToken(part, ' ', token)
    ensures Proper(n, 16) && Show(n) == token ==>
              ChunkSize(line + CRLF) ==
              if -0x8000_0000_0000_0000 <= Signed(n, 16) < 0x8000_0000_0000_0000
              then Some(Signed(n, 16) % 0x1_0000_0000) else None
    ensures (forall m :: Proper(m, 16) ==> Show(m) != token) ==> ChunkSize(line + CRLF) == None
  {
    hide Atoi, Signed, Show, Proper, Clip, SizeEnd, ChunkSize, Line, FirstToken;
    PartFound(line, part);
    TokenClipped(part, token);
    SizeIsClipped(line + CRLF);
    if Proper(n, 16) && Show(n) == token {
      NumberReads(n, 16);
    }
    if Atoi(token, 16).Some? {
      var m := OnlyNumbersRead(token, 16);
    }
  }

  lemma PartFound(line: string, part: string)
    requires Line(line) && FirstToken(line, ';', part)
    ensures SizeEnd(line + CRLF) == |part| <= |line| && (line + CRLF)[..|part|] == part
  {
    hide Line, Find;
    var hdr := line + CRLF;
    assert forall j :: 0 <= j < |part| ==> hdr[j] == part[j];
    if |part| < |line| {
      FirstChar(hdr, ';', |part|);
    } else {
      assert line == part;
      assert ';' !in hdr;
      CharAbsent(hdr, ';');
      LineEnds(line, "");
      assert line + CRLF + "" == hdr;
    }
  }

  lemma TokenClipped(part: string, token: string)
    requires FirstToken(part, ' ', token)
    ensures Clip(part) == token
  {
    hide Find;
    if |token| < |part| {
      assert forall j :: 0 <= j < |token| ==> part[j] == token[j];
      FirstChar(part, ' ', |token|);
    } else {
      assert part == token;
      CharAbsent(part, ' ');
    }
  }

  /** A size line that cannot be read makes the parser throw. */
  lemma UnreadableSizeThrows(c: Scanner, line: string, rest: string)
    requires c.stage == ChunkHdr && Line(line) && c.buffer == line + CRLF + rest
    requires ChunkSize(line + CRLF) == None
    ensures Scan(c) == Fail
  {
    hide ChunkSize, Line;
    LineEnds(line, rest);
    assert c.buffer[..|line| + 2] == line + CRLF;
    assert ScanTurn(c) == Bad;
  }

  /** And so does a chunk that is not followed by CRLF. */
  lemma UnendedChunkThrows(c: Scanner)
    requires c.stage == Chunk && |c.buffer| >= c.size + 2
    requires c.buffer[c.size] != '\r' || c.buffer[c.size + 1] != '\n'
    ensures Scan(c) == Fail
  {
    if !Wraps(c.size) {
      assert c.buffer[c.size..c.size + 2][0] == c.buffer[c.size];
      assert c.buffer[c.size..c.size + 2][1] == c.buffer[c.size + 1];
      assert ScanTurn(c) == Bad;
    }
  }

  // ---------------------------------------------------------------- any cutting

  /** What a caller sees who hands over piece after piece until `read` reports the end. */
  datatype Reading = Pending(p: Parser) | EndsIn(piece: nat, offset: nat) | Broken

  function ReadPieces(p: Parser, pieces: seq<string>): Reading
    decreases |pieces|
  {
    if pieces == [] then Pending(p)
    else match Read(p, pieces[0])
      case More(q) =>
        (match ReadPieces(q, pieces[1..])
         case EndsIn(i, offset) => EndsIn(i + 1, offset)
         case other => other)
      case Ends(offset) => EndsIn(0, offset)
      case Failed => Broken
  }

  /** Piecewise reading is one scan of the concatenation: the end lies in the piece, and at the
      offset, where the scan puts it; and between pieces every byte is parsed or buffered. */
  lemma {:induction false} PiecesAreOneScan(p: Parser, pieces: seq<string>)
    requires Settled(p)
    ensures MatchesScan(p, pieces, ReadPieces(p, pieces))
    decreases |pieces|
  {
    hide ScanTurn, Read;
    if pieces == [] {
      assert Feed(p.scanner, "") == p.scanner;
    } else {
      var a, b := pieces[0], Concat(pieces[1..]);
      ReadSplits(p, a, b);
      ReadKeepsSettled(p, a);
      ReadIsScan(p, a + b);
      if Read(p, a).More? {
        var q := Read(p, a).p;
        PiecesAreOneScan(q, pieces[1..]);
        ReadIsScan(q, b);
        var r := ReadPieces(q, pieces[1..]);
        if r.EndsIn? {
          assert pieces[..r.piece + 1] == [a] + pieces[1..][..r.piece];
          ConcatCons(a, pieces[1..][..r.piece]);
        }
      } else {
        assert pieces[..0] == [];
      }
    }
  }

  ghost predicate MatchesScan(p: Parser, pieces: seq<string>, r: Reading)
    requires Settled(p)
  {
    match Scan(Feed(p.scanner, Concat(pieces)))
    case Incomplete(c) => r == Pending(Parser(c, p.acked + |Concat(pieces)|)) && Settled(r.p)
    case Done(total) =>
      && r.EndsIn? && r.piece < |pieces| && 0 < r.offset <= |pieces[r.piece]|
      && p.acked + |Concat(pieces[..r.piece])| + r.offset == total
    case Fail => r == Broken
  }

  lemma ReadIsScan(p: Parser, input: string)
    requires Settled(p)
    ensures match Scan(Feed(p.scanner, input))
            case Incomplete(c) => Read(p, input) == More(Parser(c, p.acked + |input|)) && Settled(Read(p, input).p)
            case Done(total) => p.acked < total <= p.acked + |input| && Read(p, input) == Ends(total - p.acked)
            case Fail => Read(p, input) == Failed
  {
    hide ScanTurn;
    ReadKeepsSettled(p, input);
    WaitingEndsLater(p.scanner, input);
  }

  lemma ConcatCons(a: string, rest: seq<string>)
    ensures Concat([a] + rest) == a + Concat(rest)
  {
    assert ([a] + rest)[1..] == rest;
  }

  lemma FreshSettled(announced: bool)
    ensures Settled(Fresh(announced))
  {
  }

  /** Exact framing: for every well-formed body, every bytes after it and every cutting, the reported
      end is the end of the body iff trailer lines are present just when announced, and no chunk is of
      a size that wraps. */
  lemma FramingIsExact(b: Body, announced: bool, suffix: string, pieces: seq<string>)
    requires WellFormed(b) && Concat(pieces) == Encode(b) + suffix
    ensures var r := ReadPieces(Fresh(announced), pieces);
            (announced <==> b.trailer != []) && Moderate(b) <==>
            (r.EndsIn? && r.piece < |pieces| && |Concat(pieces[..r.piece])| + r.offset == |Encode(b)|)
    ensures var r := ReadPieces(Fresh(announced), pieces);
            r.EndsIn? ==> r.piece < |pieces| && 0 < r.offset <= |pieces[r.piece]|
  {
    hide ScanTurn, Scan, Encode, ReadPieces, WellFormed, Concat, Moderate;
    FreshSettled(announced);
    var p := Fresh(announced);
    BodyEnds(Feed(p.scanner, Encode(b) + suffix), b, suffix);
    PiecesAreOneScan(p, pieces);
  }

  /** Before the last byte of such a body the parser asks for more, every time. */
  lemma NoEarlyEnd(b: Body, announced: bool, pieces: seq<string>, missing: string)
    requires WellFormed(b) && (announced <==> b.trailer != []) && Moderate(b)
    requires missing != "" && Concat(pieces) + missing == Encode(b)
    ensures ReadPieces(Fresh(announced), pieces).Pending?
  {
    hide ScanTurn, Scan, Encode, ReadPieces, WellFormed, Concat, Moderate;
    FreshSettled(announced);
    var c := Feed(Fresh(announced).scanner, Concat(pieces));
    assert Feed(c, missing).buffer == Encode(b) + "";
    BodyEnds(Feed(c, missing), b, "");
    ScanExtends(c, missing);
    ScanConserves(c);
    PiecesAreOneScan(Fresh(announced), pieces);
  }

  /** A chunk of a size that wraps is refused with its first byte, whatever follows. */
  lemma WrappingChunkThrows(l: SizeLine, size: nat, announced: bool, rest: string)
    requires Announces(l, size) && Wraps(size) && rest != ""
    ensures ReadPieces(Fresh(announced), [Hdr(l) + CRLF + rest]) == Broken
  {
    hide ScanTurn, ReadPieces, Hdr, Announces;
    var s := Hdr(l) + CRLF + rest;
    var c := Feed(Fresh(announced).scanner, s);
    assert c.buffer == s by { assert "" + s == s; }
    SizeLineTaken(c, l, size, rest);
    ChunkThrows(ScanTurn(c).c);
    OnePiece(announced, s);
  }

  function AllFs(n: nat): (ds: seq<Digit>)
    ensures |ds| == n && forall k :: 0 <= k < n ==> ds[k] == Digit(15, false)
  {
    if n == 0 then [] else AllFs(n - 1) + [Digit(15, false)]
  }

  lemma {:induction false} AllFsValue(n: nat)
    ensures Value(AllFs(n), 16) == Power(16, n) - 1
  {
    if n > 0 {
      AllFsValue(n - 1);
      ValueSnoc(AllFs(n - 1), Digit(15, false), 16);
    }
  }

  /** The smaller of the two sizes: fffffffe. */
  function Wrapping(): SizeLine {
    SizeLine(AllFs(7) + [Digit(14, false)], "")
  }

  lemma WrappingAnnounced()
    ensures Announces(Wrapping(), 0xFFFF_FFFE) && Wraps(0xFFFF_FFFE)
  {
    hide Value, AllFs;
    AllFsValue(7);
    assert Power(16, 7) == 0x1000_0000;
    ValueSnoc(AllFs(7), Digit(14, false), 16);
  }

  /** The shortest size line of a last chunk. */
  const ZERO := SizeLine([Digit(0, false)], "")

  lemma ZeroAnnounced()
    ensures Announces(ZERO, 0) && Hdr(ZERO) == "0"
  {
    assert ZERO.digits[1..] == [];
  }

  /** A body of no chunks. */
  function Bodiless(trailer: seq<string>): Body {
    Body([], ZERO, trailer)
  }

  lemma BodilessEncoded()
    ensures WellFormed(Bodiless([])) && Encode(Bodiless([])) == "0\r\n\r\n"
    ensures WellFormed(Bodiless(["A"])) && Encode(Bodiless(["A"])) == "0\r\nA\r\n\r\n"
  {
    hide Announces, Hdr;
    ZeroAnnounced();
    CrlfAt("A", Find("A", CRLF));
    assert Lines(["A"]) == "A" + CRLF + CRLF by { assert ["A"][1..] == []; }
  }

  lemma LastLineTaken(c: Scanner, rest: string)
    requires c.stage == ChunkHdr && c.buffer == "0" + CRLF + rest
    ensures Scan(c) == Scan(Scanner(Trailer, 0, rest, c.parsed + 3, c.trailers))
  {
    hide ScanTurn, Hdr, Announces;
    ZeroAnnounced();
    SizeLineTaken(c, ZERO, 0, rest);
  }

  lemma OnePiece(announced: bool, s: string)
    ensures match Scan(Feed(Fresh(announced).scanner, s))
            case Incomplete(c) => ReadPieces(Fresh(announced), [s]).Pending?
            case Done(total) => ReadPieces(Fresh(announced), [s]) == EndsIn(0, total)
            case Fail => ReadPieces(Fresh(announced), [s]) == Broken
  {
    hide ScanTurn, Scan;
    FreshSettled(announced);
    PiecesAreOneScan(Fresh(announced), [s]);
    assert Concat([s]) == s by { assert [s][1..] == [] && s + "" == s; }
    assert Concat([s][..0]) == "";
  }

  /** The smallest body without trailer lines: with trailers announced the parser misses its end, and
      has not reported one when the whole body is in. */
  lemma AnnouncedButAbsent()
    ensures WellFormed(Bodiless([])) && ReadPieces(Fresh(true), [Encode(Bodiless([]))]).Pending?
  {
    hide ReadPieces, WellFormed, Encode, Scan, ScanTurn;
    BodilessEncoded();
    var s := "0\r\n\r\n";
    OnePiece(true, s);
    assert s == "0" + CRLF + CRLF && "" + s == s;
    LastLineTaken(Feed(Fresh(true).scanner, s), CRLF);
    TrailerWaits(Scanner(Trailer, 0, CRLF, 3, true));
  }

  lemma TrailerWaits(c: Scanner)
    requires c.stage == Trailer && c.trailers && 0 < |c.buffer| < 4
    ensures Scan(c) == Incomplete(c)
  {
  }

  /** A body with a trailer line that was not announced: the parser reports an end two bytes early,
      and leaves the blank line over. */
  lemma PresentButUnannounced()
    ensures var b := Bodiless(["A"]);
            && WellFormed(b) && |Encode(b)| == 8
            && ReadPieces(Fresh(false), [Encode(b)]) == EndsIn(0, 6)
  {
    hide ReadPieces, WellFormed, Encode, Scan, ScanTurn;
    BodilessEncoded();
    var s := "0\r\nA\r\n\r\n";
    OnePiece(false, s);
    assert s == "0" + CRLF + ("A" + CRLF + CRLF) && "" + s == s;
    LastLineTaken(Feed(Fresh(false).scanner, s), "A" + CRLF + CRLF);
    CrlfAt("A", Find("A", CRLF));
    LineEnds("A", CRLF);
    TrailerEndsAt(Scanner(Trailer, 0, "A" + CRLF + CRLF, 3, false), 1);
  }

  lemma TrailerEndsAt(c: Scanner, loc: nat)
    requires c.stage == Trailer && !c.trailers && c.buffer != "" && Find(c.buffer, CRLF) == loc
    ensures Scan(c) == Done(c.parsed + loc + 2)
  {
    hide Find;
  }
}
