/** The chunked-body parser: what one call of `read` does to the parser state, and why cutting
    the input differently never changes what the parser sees. */
module Chunked {
  import opened Text

  datatype Stage = ChunkHdr | Chunk | Trailer

  /** The fields of `ChunkedBodyParser` that its loop works on. */
  datatype Scanner = Scanner(stage: Stage, size: nat, buffer: string, parsed: nat, trailers: bool)

  /** All fields of `ChunkedBodyParser`. */
  datatype Parser = Parser(scanner: Scanner, acked: nat)

  function Fresh(trailers: bool): Parser {
    Parser(Scanner(ChunkHdr, 0, "", 0, trailers), 0)
  }

  /** Size announced by a chunk header line (CRLF included): hexadecimal up to ';', CRLF or a space. */
  function ChunkSize(hdr: string): Option<nat> {
    var semi := Find(hdr, ";");
    var end := if semi >= 0 then semi else Find(hdr, CRLF);
    if end < 0 then None
    else
      var token := hdr[..end];
      var space := Find(token, " ");
      match Atoi(if space >= 0 then token[..space] else token, 16)
      case None => None
      case Some(n) => Some(n % 0x1_0000_0000)
  }

  /** What ends the trailer: a blank line, or a single CRLF when no trailer was announced. */
  function Terminator(trailers: bool): string {
    if trailers then BLANK else CRLF
  }

  /** A size to which 2 cannot be added in 32 bits. The sum is then 0 or 1, so that bytes enough seem
      to be there as soon as there are any, and looking behind the chunk throws. */
  predicate Wraps(size: nat) {
    size >= 0xFFFF_FFFE
  }

  /** One turn of the loop of `read`: wait for bytes, go on, end of body after `total` bytes, or
      an exception. */
  datatype Turn = Wait | Next(c: Scanner) | End(total: nat) | Bad

  function ScanTurn(c: Scanner): Turn {
    if c.buffer == "" then Wait
    else match c.stage
      case ChunkHdr =>
        var it := Find(c.buffer, CRLF);
        if it < 0 then Wait else HdrTurn(c, it + 2, ChunkSize(c.buffer[..it + 2]))
      case Chunk =>
        if Wraps(c.size) then Bad
        else if |c.buffer| < c.size + 2 then Wait
        else if c.buffer[c.size..c.size + 2] != CRLF then Bad
        else Next(Advance(c, c.size + 2, ChunkHdr, c.size))
      case Trailer =>
        var loc := Find(c.buffer, Terminator(c.trailers));
        if loc < 0 then Wait else End(c.parsed + loc + |Terminator(c.trailers)|)
  }

  /** A header line of `n` bytes announces `size`. */
  function HdrTurn(c: Scanner, n: nat, size: Option<nat>): Turn
    requires n <= |c.buffer|
  {
    match size
    case None => Bad
    case Some(k) => Next(Advance(c, n, if k == 0 then Trailer else Chunk, k))
  }

  /** Consume `n` buffered bytes and change stage. */
  function Advance(c: Scanner, n: nat, stage: Stage, size: nat): Scanner
    requires n <= |c.buffer|
  {
    c.(stage := stage, size := size, buffer := c.buffer[n..], parsed := c.parsed + n)
  }

  /** Outcome of the whole loop. */
  datatype Scanned = Incomplete(c: Scanner) | Done(total: nat) | Fail

  function Scan(c: Scanner): Scanned
    decreases |c.buffer|
  {
    match ScanTurn(c)
    case Wait => Incomplete(c)
    case Next(d) => Scan(d)
    case End(total) => Done(total)
    case Bad => Fail
  }

  function Feed(c: Scanner, input: string): Scanner {
    c.(buffer := c.buffer + input)
  }

  /** Result of `read`: all of the input is body (`npos`), the body ends `offset` bytes into the
      input, or an exception or failed assertion. */
  datatype ReadResult = More(p: Parser) | Ends(offset: nat) | Failed

  function Read(p: Parser, input: string): ReadResult {
    match Scan(Feed(p.scanner, input))
    case Incomplete(c) => More(Parser(c, p.acked + |input|))
    case Done(total) => if total > p.acked then Ends(total - p.acked) else Failed
    case Fail => Failed
  }

  /** Bytes the scanner has been given so far. */
  function Received(c: Scanner): nat {
    c.parsed + |c.buffer|
  }

  // ---------------------------------------------------------------- cutting the input

  /** Bytes that arrive after a turn could be taken do not change it; and a turn that had to wait
      for them reaches past everything received before. */
  ghost predicate TurnIsStable(c: Scanner, more: string) {
    match (ScanTurn(c), ScanTurn(Feed(c, more)))
    case (Next(d), after) => after == Next(Feed(d, more)) && Received(d) == Received(c)
    case (End(total), after) => after == End(total) && c.parsed < total <= Received(c)
    case (Bad, after) => after == Bad
    case (Wait, Next(d)) => d.parsed > Received(c)
    case (Wait, End(total)) => total > Received(c)
    case (Wait, _) => true
  }

  lemma HdrTurnFeeds(c: Scanner, more: string, n: nat, size: Option<nat>)
    requires n <= |c.buffer|
    ensures HdrTurn(Feed(c, more), n, size) ==
            if size.None? then Bad else Next(Feed(HdrTurn(c, n, size).c, more))
    ensures size.Some? ==> Received(HdrTurn(c, n, size).c) == Received(c)
  {
    assert (c.buffer + more)[n..] == c.buffer[n..] + more;
  }

  lemma HdrTurnIsNext(c: Scanner, n: nat, size: Option<nat>)
    requires n <= |c.buffer|
    ensures size.None? ==> HdrTurn(c, n, size) == Bad
    ensures size.Some? ==> HdrTurn(c, n, size).Next? && HdrTurn(c, n, size).c.parsed == c.parsed + n
  {
  }

  /** Waiting for a header line, whatever comes completes it behind what is there. */
  lemma HdrWaits(c: Scanner, more: string)
    requires c.stage == ChunkHdr && Find(c.buffer, CRLF) < 0
    ensures TurnIsStable(c, more)
  {
    hide Find, ChunkSize, HdrTurn;
    FindExtends(c.buffer, more, CRLF);
    var all := c.buffer + more;
    var it := Find(all, CRLF);
    if it >= 0 {
      HdrTurnIsNext(Feed(c, more), it + 2, ChunkSize(all[..it + 2]));
    }
  }

  lemma HdrTurnExtends(c: Scanner, more: string)
    requires c.stage == ChunkHdr
    ensures TurnIsStable(c, more)
  {
    hide Find, ChunkSize, HdrTurn;
    FindExtends(c.buffer, more, CRLF);
    var it := Find(c.buffer, CRLF);
    if it < 0 {
      HdrWaits(c, more);
    } else {
      assert (c.buffer + more)[..it + 2] == c.buffer[..it + 2];
      HdrTurnIsNext(c, it + 2, ChunkSize(c.buffer[..it + 2]));
      HdrTurnFeeds(c, more, it + 2, ChunkSize(c.buffer[..it + 2]));
    }
  }

  lemma ChunkTurnExtends(c: Scanner, more: string)
    requires c.stage == Chunk
    ensures TurnIsStable(c, more)
  {
    if |c.buffer| >= c.size + 2 {
      assert (c.buffer + more)[c.size..c.size + 2] == c.buffer[c.size..c.size + 2];
      assert (c.buffer + more)[c.size + 2..] == c.buffer[c.size + 2..] + more;
    }
  }

  lemma TrailerTurnExtends(c: Scanner, more: string)
    requires c.stage == Trailer
    ensures TurnIsStable(c, more)
  {
    FindExtends(c.buffer, more, Terminator(c.trailers));
  }

  lemma TurnExtends(c: Scanner, more: string)
    ensures TurnIsStable(c, more)
  {
    match c.stage
    case ChunkHdr => HdrTurnExtends(c, more);
    case Chunk => ChunkTurnExtends(c, more);
    case Trailer => TrailerTurnExtends(c, more);
  }

  /** Running the loop, appending, and running it again is appending first. */
  lemma {:induction false} ScanExtends(c: Scanner, more: string)
    ensures Scan(Feed(c, more)) ==
            match Scan(c) { case Incomplete(d) => Scan(Feed(d, more)) case other => other }
    decreases |c.buffer|
  {
    TurnExtends(c, more);
    if ScanTurn(c).Next? {
      ScanExtends(ScanTurn(c).c, more);
    }
  }

  /** The loop moves bytes from the buffer to the parsed count and stops where it would stay. */
  lemma {:induction false} ScanConserves(c: Scanner)
    ensures Scan(c).Incomplete? ==>
              Received(Scan(c).c) == Received(c) && Scan(c).c.trailers == c.trailers && ScanTurn(Scan(c).c).Wait?
    ensures Scan(c).Done? ==> c.parsed < Scan(c).total <= Received(c)
    decreases |c.buffer|
  {
    TurnExtends(c, "");
    if ScanTurn(c).Next? {
      ScanConserves(ScanTurn(c).c);
    }
  }

  /** Between calls of `read`: every input byte is parsed or buffered, and the buffered bytes alone
      get the loop no further. */
  ghost predicate Settled(p: Parser) {
    Received(p.scanner) == p.acked && ScanTurn(p.scanner).Wait?
  }

  /** A waiting scanner ends the body only inside the bytes it is given next. */
  lemma WaitingEndsLater(c: Scanner, input: string)
    requires ScanTurn(c).Wait?
    ensures Scan(Feed(c, input)).Done? ==> Received(c) < Scan(Feed(c, input)).total <= Received(c) + |input|
  {
    TurnExtends(c, input);
    ScanConserves(Feed(c, input));
    if ScanTurn(Feed(c, input)).Next? {
      ScanConserves(ScanTurn(Feed(c, input)).c);
    }
  }

  /** Hence the assertion that parsed bytes exceed acknowledged bytes never fails, the reported
      offset lies inside the input, and the invariant is kept. */
  lemma ReadKeepsSettled(p: Parser, input: string)
    requires Settled(p)
    ensures Read(p, input).Failed? <==> Scan(Feed(p.scanner, input)).Fail?
    ensures Read(p, input).More? ==> Settled(Read(p, input).p)
    ensures Read(p, input).Ends? ==> 0 < Read(p, input).offset <= |input|
  {
    WaitingEndsLater(p.scanner, input);
    ScanConserves(Feed(p.scanner, input));
  }

  /** Reading `a` and then `b` is reading `a + b`: same parser state (counters included) while the
      body goes on, same end of body, same failure. */
  lemma ReadSplits(p: Parser, a: string, b: string)
    requires Settled(p)
    ensures match Read(p, a)
            case More(q) =>
              Read(p, a + b) == (match Read(q, b)
                                 case Ends(k) => Ends(|a| + k)
                                 case other => other)
            case other => Read(p, a + b) == other
  {
    assert Feed(p.scanner, a + b).buffer == Feed(Feed(p.scanner, a), b).buffer;
    ScanExtends(Feed(p.scanner, a), b);
    ReadKeepsSettled(p, a);
    if Read(p, a).More? {
      ReadKeepsSettled(Read(p, a).p, b);
    }
  }

  /** The verdict "the body ends here" depends on the bytes up to here only. */
  lemma ScanLocal(c: Scanner, more: string)
    requires Scan(Feed(c, more)) == Done(Received(c))
    ensures Scan(c) == Done(Received(c))
  {
    ScanExtends(c, more);
    ScanConserves(c);
    if Scan(c).Incomplete? {
      WaitingEndsLater(Scan(c).c, more);
    }
  }
}
