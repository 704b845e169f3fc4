/** The parser objects, updated in place as the code updates them, against their specifications. */
module HttpParser {
  import opened Text
  import opened Message
  import Chunked
  import Sequence
  import Printing

  /** What `read` returns: `npos`, an offset, or nothing because it threw. */
  datatype Verdict = Npos | Offset(n: nat) | Threw

  class ChunkedBodyParser {
    var parserBuffer: string
    var currentChunkSize: nat
    var ackedSoFar: nat
    var parsedSoFar: nat
    var state: Chunked.Stage
    const trailersEnabled: bool

    function Value(): Chunked.Parser
      reads this
    {
      Chunked.Parser(Chunked.Scanner(state, currentChunkSize, parserBuffer, parsedSoFar, trailersEnabled), ackedSoFar)
    }

    constructor (trailers: bool)
      ensures Value() == Chunked.Fresh(trailers)
    {
      parserBuffer, currentChunkSize, ackedSoFar, parsedSoFar := "", 0, 0, 0;
      state, trailersEnabled := Chunked.ChunkHdr, trailers;
    }

    method Read(input: string) returns (r: Verdict)
      modifies this
      ensures match Chunked.Read(old(Value()), input)
              case More(q) => r == Npos && Value() == q
              case Ends(offset) => r == Offset(offset)
              case Failed => r == Threw
    {
      parserBuffer := parserBuffer + input;
      ghost var start := Value().scanner;
      while parserBuffer != ""
        invariant Chunked.Scan(Value().scanner) == Chunked.Scan(start)
        invariant ackedSoFar == old(ackedSoFar)
        decreases |parserBuffer|
      {
        hide Chunked.ScanTurn;
        var verdict := Turn(|input|);
        if verdict.Some? {
          return verdict.value;
        }
      }
      ackedSoFar := ackedSoFar + |input|;
      return Npos;
    }

    /** What a pass through the switch does: nothing to return means another pass. */
    twostate predicate Turned(turn: Chunked.Turn, inputSize: nat, new r: Option<Verdict>)
      reads this
    {
      match turn
      case Wait => r == Some(Npos) && Value() == old(Value()).(acked := old(ackedSoFar) + inputSize)
      case Next(c) => r == None && Value() == old(Value()).(scanner := c) && |parserBuffer| < |old(parserBuffer)|
      case End(total) => r == Some(if total > old(ackedSoFar) then Offset(total - old(ackedSoFar)) else Threw)
      case Bad => r == Some(Threw)
    }

    method Turn(inputSize: nat) returns (r: Option<Verdict>)
      requires parserBuffer != ""
      modifies this
      ensures Turned(Chunked.ScanTurn(old(Value()).scanner), inputSize, r)
    {
      match state
      case ChunkHdr =>
        r := HdrTurn(inputSize);
      case Chunk =>
        r := ChunkTurn(inputSize);
      case Trailer =>
        var verdict := ComputeAckSize(Chunked.Terminator(trailersEnabled), inputSize);
        r := Some(verdict);
    }

    method HdrTurn(inputSize: nat) returns (r: Option<Verdict>)
      requires parserBuffer != "" && state == Chunked.ChunkHdr
      modifies this
      ensures Turned(Chunked.ScanTurn(old(Value()).scanner), inputSize, r)
    {
      hide Chunked.ChunkSize;
      var it := Find(parserBuffer, CRLF);
      if it < 0 {
        ackedSoFar := ackedSoFar + inputSize;
        return Some(Npos);
      }
      var size := Chunked.ChunkSize(parserBuffer[..it + 2]);
      if size.None? {
        return Some(Threw);
      }
      currentChunkSize := size.value;
      state := if currentChunkSize == 0 then Chunked.Trailer else Chunked.Chunk;
      parsedSoFar := parsedSoFar + (it + 2);
      parserBuffer := parserBuffer[it + 2..];
      return None;
    }

    method ChunkTurn(inputSize: nat) returns (r: Option<Verdict>)
      requires parserBuffer != "" && state == Chunked.Chunk
      modifies this
      ensures Turned(Chunked.ScanTurn(old(Value()).scanner), inputSize, r)
    {
      if Chunked.Wraps(currentChunkSize) {
        return Some(Threw);
      }
      if |parserBuffer| < currentChunkSize + 2 {
        ackedSoFar := ackedSoFar + inputSize;
        return Some(Npos);
      }
      if parserBuffer[currentChunkSize..currentChunkSize + 2] != CRLF {
        return Some(Threw);
      }
      state := Chunked.ChunkHdr;
      parsedSoFar := parsedSoFar + (currentChunkSize + 2);
      parserBuffer := parserBuffer[currentChunkSize + 2..];
      return None;
    }

    method ComputeAckSize(needle: string, inputSize: nat) returns (r: Verdict)
      modifies this`ackedSoFar, this`parsedSoFar
      ensures var loc := Find(parserBuffer, needle);
              if loc < 0 then r == Npos && ackedSoFar == old(ackedSoFar) + inputSize && parsedSoFar == old(parsedSoFar)
              else
                var total := old(parsedSoFar) + loc + |needle|;
                r == if total > old(ackedSoFar) then Offset(total - old(ackedSoFar)) else Threw
    {
      var loc := Find(parserBuffer, needle);
      if loc >= 0 {
        parsedSoFar := parsedSoFar + loc + |needle|;
        return if parsedSoFar > ackedSoFar then Offset(parsedSoFar - ackedSoFar) else Threw;
      }
      ackedSoFar := ackedSoFar + inputSize;
      return Npos;
    }
  }

  /** `body_parser_`: none, chunked, or the one of rule 5 that ends with the connection. */
  datatype BodyParser = NoParser | ChunkedParser(p: ChunkedBodyParser) | Rule5Parser

  class HttpMessage {
    const role: Role
    var state: Phase
    var firstLine: string
    var headers: seq<Header>
    var body: string
    var expectedBodySize: Option<nat>
    var bodyParser: BodyParser
    var request: Option<Finished>

    /** The objects this message owns. */
    function Parts(): set<object>
      reads this
    {
      {this} + if bodyParser.ChunkedParser? then {bodyParser.p} else {}
    }

    function BodyFraming(): Framing
      reads Parts()
    {
      if state != BodyPending then Unset
      else if expectedBodySize.Some? then Known(expectedBodySize.value)
      else match bodyParser
        case NoParser => Unset
        case ChunkedParser(p) => Chunks(p.Value())
        case Rule5Parser => UntilEof
    }

    function Value(): Partial
      reads Parts()
    {
      Partial(state, firstLine, headers, body, BodyFraming(), request)
    }

    constructor (role: Role)
      ensures Value() == NEW_MESSAGE && this.role == role
      ensures fresh(Parts())
    {
      this.role, state := role, FirstLinePending;
      firstLine, headers, body, request := "", [], "", None;
      expectedBodySize, bodyParser := None, NoParser;
    }

    method SetFirstLine(line: string)
      requires state == FirstLinePending
      modifies this`firstLine, this`state
      ensures Value() == old(Value()).(firstLine := line, phase := HeadersPending)
    {
      firstLine, state := line, HeadersPending;
    }

    method AddHeader(line: string) returns (ok: bool)
      requires state == HeadersPending
      modifies this`headers
      ensures ok <==> ParseHeader(line).Some?
      ensures ok ==> Value() == old(Value()).(headers := old(headers) + [ParseHeader(line).value])
    {
      hide ParseHeader;
      var h := ParseHeader(line);
      ok := h.Some?;
      if ok {
        headers := headers + [h.value];
      }
    }

    method DoneWithHeaders() returns (ok: bool)
      requires state == HeadersPending
      modifies this
      ensures fresh(Parts() - old(Parts()))
      ensures var f := ExpectedBody(role, old(firstLine), old(headers), old(request));
              && ok == f.Some?
              && (ok ==> Value() == old(Value()).(phase := BodyPending, framing := f.value))
    {
      hide ExpectedBody;
      Printing.ExpectedBodyIsSet(role, firstLine, headers, request);
      Printing.ChunksStartAtZero(role, firstLine, headers, request);
      state := BodyPending;
      expectedBodySize, bodyParser := None, NoParser;
      var f := ExpectedBody(role, firstLine, headers, request);
      if f.None? {
        return false;
      }
      match f.value {
        case Known(n) => expectedBodySize := Some(n);
        case Chunks(p) =>
          var parser := new ChunkedBodyParser(p.scanner.trailers);
          bodyParser := ChunkedParser(parser);
        case UntilEof => bodyParser := Rule5Parser;
        case Unset => assert false;
      }
      return true;
    }

    method ReadInBody(input: string) returns (taken: Option<nat>)
      requires state == BodyPending
      modifies Parts()
      ensures Parts() == old(Parts())
      ensures match ReadBody(old(Value()), input)
              case None => taken.None?
              case Some((n, m)) => taken == Some(n) && Value() == m
    {
      if expectedBodySize.Some? {
        var size := expectedBodySize.value;
        if |body| > size {
          return None;
        }
        var amount := if size - |body| < |input| then size - |body| else |input|;
        body := body + input[..amount];
        if |body| == size {
          state := Complete;
        }
        return Some(amount);
      }
      taken := ReadInComplexBody(input);
    }

    method ReadInComplexBody(input: string) returns (taken: Option<nat>)
      requires state == BodyPending && expectedBodySize.None?
      modifies Parts()
      ensures Parts() == old(Parts())
      ensures match ReadBody(old(Value()), input)
              case None => taken.None?
              case Some((n, m)) => taken == Some(n) && Value() == m
    {
      hide Chunked.Read;
      match bodyParser
      case NoParser => return None;
      case Rule5Parser =>
        body := body + input;
        return Some(|input|);
      case ChunkedParser(p) =>
        var amount := p.Read(input);
        match amount {
          case Npos =>
            body := body + input;
            return Some(|input|);
          case Offset(n) =>
            if n > |input| {
              return None;
            }
            body := body + input[..n];
            state := Complete;
            return Some(n);
          case Threw =>
            return None;
        }
    }

    method AtEof() returns (ok: bool)
      modifies this`state
      ensures match Eof(role, old(Value()))
              case None => !ok
              case Some(m) => ok && Value() == m
    {
      match state
      case FirstLinePending => return true;
      case HeadersPending => return false;
      case BodyPending =>
        if role.Request? || expectedBodySize.Some? || bodyParser.NoParser? {
          return false;
        }
        state := Complete;
        return true;
      case Complete => return false;
    }
  }

  /** Whether to call `parsing_step` again. */
  datatype Progress = Continue | Wait | Exception

  class HttpMessageSequence {
    const role: Role
    var buffer: string
    var completeMessages: seq<Finished>
    var messageInProgress: HttpMessage
    var requests: seq<Finished>

    function Parts(): set<object>
      reads this, messageInProgress
    {
      {this} + messageInProgress.Parts()
    }

    ghost predicate Valid()
      reads Parts()
    {
      messageInProgress.role == role
    }

    function Value(): Sequence.State
      reads Parts()
    {
      Sequence.State(role, buffer, completeMessages, messageInProgress.Value(), requests)
    }

    constructor (role: Role)
      ensures Valid() && Value() == Sequence.Start(role) && fresh(Parts())
    {
      this.role := role;
      buffer, completeMessages, requests := "", [], [];
      messageInProgress := new HttpMessage(role);
    }

    method NewRequestArrived(request: Finished)
      requires Valid()
      modifies this`requests
      ensures Valid() && Value() == old(Value()).(requests := old(requests) + [request])
      ensures Parts() == old(Parts())
    {
      requests := requests + [request];
    }

    method GetAndPopLine() returns (line: string)
      requires Valid() && Find(buffer, CRLF) >= 0
      modifies this`buffer
      ensures Valid() && Parts() == old(Parts())
      ensures (line, Value()) == Sequence.PopLine(old(Value()))
    {
      var end := Find(buffer, CRLF);
      line := buffer[..end];
      buffer := buffer[end + 2..];
    }

    /** The outcome of a step, and the state it leaves unless it threw. */
    twostate predicate Took(step: Sequence.Step, r: Progress)
      reads Parts()
    {
      && Valid() && fresh(Parts() - old(Parts()))
      && match step
         case Again(t) => r == Continue && Value() == t
         case Stop(t) => r == Wait && Value() == t
         case Thrown => r == Exception
    }

    method FirstLineStep() returns (r: Progress)
      requires Valid() && messageInProgress.state == FirstLinePending
      modifies Parts()
      ensures Took(Sequence.FirstLineStep(old(Value())), r)
    {
      if Find(buffer, CRLF) < 0 {
        return Wait;
      }
      if role.Response? {
        if requests == [] {
          return Exception;
        }
        messageInProgress.request := Some(requests[0]);
        requests := requests[1..];
      }
      var line := GetAndPopLine();
      messageInProgress.SetFirstLine(line);
      return Continue;
    }

    method HeaderStep() returns (r: Progress)
      requires Valid() && messageInProgress.state == HeadersPending
      modifies Parts()
      ensures Took(Sequence.HeaderStep(old(Value())), r)
    {
      hide ExpectedBody, ParseHeader;
      if Find(buffer, CRLF) < 0 {
        return Wait;
      }
      var line := GetAndPopLine();
      if line == "" {
        var ok := messageInProgress.DoneWithHeaders();
        return if ok then Continue else Exception;
      }
      var ok := messageInProgress.AddHeader(line);
      return if ok then Continue else Exception;
    }

    method BodyStep() returns (r: Progress)
      requires Valid() && messageInProgress.state == BodyPending
      modifies Parts()
      ensures Took(Sequence.BodyStep(old(Value())), r)
    {
      hide ReadBody;
      var taken := messageInProgress.ReadInBody(buffer);
      if taken.None? || taken.value > |buffer|
         || (taken.value < |buffer| && messageInProgress.state != Complete) {
        return Exception;
      }
      buffer := buffer[taken.value..];
      return if messageInProgress.state == Complete then Continue else Wait;
    }

    method ParsingStep() returns (r: Progress)
      requires Valid()
      modifies Parts()
      ensures Took(Sequence.ParsingStep(old(Value())), r)
    {
      hide Sequence.FirstLineStep, Sequence.HeaderStep, Sequence.BodyStep;
      match messageInProgress.state
      case FirstLinePending =>
        r := FirstLineStep();
      case HeadersPending =>
        r := HeaderStep();
      case BodyPending =>
        r := BodyStep();
      case Complete =>
        completeMessages := completeMessages + [Finish(messageInProgress.Value())];
        messageInProgress := new HttpMessage(role);
        r := Continue;
    }

    /** Feeding a buffer, or the end of the connection when it is empty. */
    method Parse(input: string) returns (ok: bool)
      requires Valid()
      modifies Parts()
      ensures Valid() && fresh(Parts() - old(Parts()))
      ensures match Sequence.Parse(old(Value()), input)
              case None => !ok
              case Some(t) => ok && Value() == t
    {
      hide Sequence.ParsingStep;
      if input == "" {
        ok := messageInProgress.AtEof();
        if !ok {
          return;
        }
      }
      buffer := buffer + input;
      ghost var start := Value();
      assert input == "" ==> buffer == old(buffer);
      assert Sequence.Parse(old(Value()), input) == Sequence.Loop(start);
      var r := Continue;
      while r == Continue
        invariant Valid() && fresh(Parts() - old(Parts()))
        invariant r != Exception
        invariant if r == Continue then Sequence.Loop(Value()) == Sequence.Loop(start)
                  else Sequence.Loop(start) == Some(Value())
        decreases r == Continue, |buffer|, Sequence.PhaseRank(messageInProgress.state)
      {
        if Sequence.ParsingStep(Value()).Again? {
          Sequence.StepDecreases(Value());
        }
        r := ParsingStep();
        if r == Exception {
          return false;
        }
      }
      return true;
    }
  }
}
