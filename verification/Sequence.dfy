/** The incremental parser of a stream of HTTP messages. */
module Sequence {
  import opened Text
  import opened Message
  import Chunked

  /** State of `HTTPMessageSequence`: unparsed bytes, messages completed so far, message in
      progress and, on the response side, requests not yet answered. */
  datatype State = State(role: Role, buffer: string, complete: seq<Finished>, msg: Partial, requests: seq<Finished>)

  function Start(role: Role): State {
    State(role, "", [], NEW_MESSAGE, [])
  }

  /** One `parsing_step`: it asks to be called again, asks to stop, or throws. */
  datatype Step = Again(s: State) | Stop(s: State) | Thrown

  function PopLine(s: State): (string, State)
    requires Find(s.buffer, CRLF) >= 0
  {
    var i := Find(s.buffer, CRLF);
    (s.buffer[..i], s.(buffer := s.buffer[i + 2..]))
  }

  function FirstLineStep(s: State): Step {
    if Find(s.buffer, CRLF) < 0 then Stop(s)
    else if s.role.Response? && s.requests == [] then Thrown
    else
      var (line, rest) := PopLine(s);
      var m := s.msg.(firstLine := line, phase := HeadersPending);
      if s.role.Request? then Again(rest.(msg := m))
      else Again(rest.(msg := m.(request := Some(s.requests[0])), requests := s.requests[1..]))
  }

  function HeaderStep(s: State): Step {
    if Find(s.buffer, CRLF) < 0 then Stop(s)
    else
      var (line, rest) := PopLine(s);
      HeaderLine(rest, line)
  }

  function HeaderLine(s: State, line: string): Step {
    if line == "" then
      match ExpectedBody(s.role, s.msg.firstLine, s.msg.headers, s.msg.request)
      case None => Thrown
      case Some(f) => Again(s.(msg := s.msg.(phase := BodyPending, framing := f)))
    else
      match ParseHeader(line)
      case None => Thrown
      case Some(h) => Again(s.(msg := s.msg.(headers := s.msg.headers + [h])))
  }

  function BodyStep(s: State): Step {
    match ReadBody(s.msg, s.buffer)
    case None => Thrown
    case Some((n, m)) =>
      if n > |s.buffer| || (n < |s.buffer| && m.phase != Complete) then Thrown
      else
        var t := s.(buffer := s.buffer[n..], msg := m);
        if m.phase == Complete then Again(t) else Stop(t)
  }

  function ParsingStep(s: State): Step {
    match s.msg.phase
    case FirstLinePending => FirstLineStep(s)
    case HeadersPending => HeaderStep(s)
    case BodyPending => BodyStep(s)
    case Complete => Again(s.(complete := s.complete + [Finish(s.msg)], msg := NEW_MESSAGE))
  }

  function PhaseRank(p: Phase): nat {
    match p
    case BodyPending => 2
    case Complete => 1
    case _ => 0
  }

  /** Every step that asks for another consumes bytes or moves a finished body along. */
  lemma StepDecreases(s: State)
    requires ParsingStep(s).Again?
    ensures var t := ParsingStep(s).s;
            |t.buffer| < |s.buffer| || (|t.buffer| == |s.buffer| && PhaseRank(t.msg.phase) < PhaseRank(s.msg.phase))
  {
    hide ExpectedBody, ParseHeader, ReadBody;
  }

  /** `while ( parsing_step() ) {}`; None where it throws. */
  function Loop(s: State): Option<State>
    decreases |s.buffer|, PhaseRank(s.msg.phase)
  {
    match ParsingStep(s)
    case Again(t) => StepDecreases(s); Loop(t)
    case Stop(t) => Some(t)
    case Thrown => None
  }

  function Append(s: State, input: string): State {
    s.(buffer := s.buffer + input)
  }

  /** `parse`: an empty buffer means the end of the connection. */
  function Parse(s: State, input: string): Option<State> {
    if input == "" then
      match Eof(s.role, s.msg)
      case None => None
      case Some(m) => Loop(s.(msg := m))
    else Loop(Append(s, input))
  }

  // ---------------------------------------------------------------- independence from fragmentation

  /** Between calls of `parse`: no complete message is held back and a chunked body has its parser
      in the state described in Chunked. */
  ghost predicate Resting(s: State) {
    && s.msg.phase != Complete
    && (s.msg.phase == BodyPending ==> s.buffer == "")
    && Framed(s.msg)
  }

  ghost predicate Framed(m: Partial) {
    m.framing.Chunks? ==> Chunked.Settled(m.framing.p)
  }

  lemma FramingStarts(role: Role, firstLine: string, headers: seq<Header>, request: Option<Finished>)
    ensures var f := ExpectedBody(role, firstLine, headers, request);
            f.Some? && f.value.Chunks? ==> Chunked.Settled(f.value.p)
  {
    hide Split, EquivalentStrings, HeaderValue, Atoi;
  }

  lemma ReadBodyFramed(m: Partial, input: string)
    requires Framed(m)
    ensures var r := ReadBody(m, input);
            r.Some? ==> Framed(r.value.1) && r.value.0 <= |input|
                        && (r.value.1.phase == Complete || r.value.1.phase == m.phase)
                        && (r.value.1.phase != Complete ==> r.value.0 == |input|)
  {
    if m.framing.Chunks? {
      hide Chunked.Read;
      Chunked.ReadKeepsSettled(m.framing.p, input);
    }
  }

  /** Reading `a` and then `b` has the outcome of reading `a + b`. */
  ghost predicate Splits(m: Partial, a: string, b: string) {
    match ReadBody(m, a)
    case None => ReadBody(m, a + b) == None
    case Some((n, m1)) =>
      if m1.phase == Complete then ReadBody(m, a + b) == Some((n, m1))
      else
        match ReadBody(m1, b)
        case None => ReadBody(m, a + b) == None
        case Some((k, m2)) => ReadBody(m, a + b) == Some((|a| + k, m2))
  }

  lemma KnownSplits(m: Partial, a: string, b: string)
    requires m.framing.Known? && m.phase == BodyPending
    ensures Splits(m, a, b)
  {
    var left := m.framing.size - |m.body|;
    if 0 <= left <= |a| {
      assert (a + b)[..left] == a[..left];
    } else if left > |a| {
      var n := if left - |a| < |b| then left - |a| else |b|;
      assert a[..|a|] == a;
      assert m.body + (a + b)[..|a| + n] == (m.body + a) + b[..n];
    }
  }

  lemma ChunksSplit(m: Partial, a: string, b: string)
    requires m.framing.Chunks? && Framed(m) && m.phase == BodyPending
    ensures Splits(m, a, b)
  {
    hide Chunked.Read;
    var p := m.framing.p;
    Chunked.ReadSplits(p, a, b);
    Chunked.ReadKeepsSettled(p, a);
    match Chunked.Read(p, a)
    case More(q) =>
      Chunked.ReadKeepsSettled(q, b);
      assert m.body + (a + b) == (m.body + a) + b;
      if Chunked.Read(q, b).Ends? {
        var k := Chunked.Read(q, b).offset;
        assert m.body + (a + b)[..|a| + k] == (m.body + a) + b[..k];
      }
    case Ends(k) =>
      assert (a + b)[..k] == a[..k];
    case Failed =>
  }

  lemma ReadBodySplits(m: Partial, a: string, b: string)
    requires Framed(m) && m.phase == BodyPending
    ensures Splits(m, a, b)
  {
    match m.framing
    case Unset =>
    case Known(_) => KnownSplits(m, a, b);
    case Chunks(_) => ChunksSplit(m, a, b);
    case UntilEof =>
      assert m.body + (a + b) == (m.body + a) + b;
  }

  /** A step that does not stop is not changed by bytes arriving later; one that stops has left the
      state in which those bytes continue exactly as if they had been there. */
  ghost predicate StepIsStable(s: State, more: string) {
    match ParsingStep(s)
    case Again(t) => ParsingStep(Append(s, more)) == Again(Append(t, more)) && Framed(t.msg)
    case Stop(t) => Resting(t) && (t == s || ParsingStep(Append(s, more)) == ParsingStep(Append(t, more)))
    case Thrown => ParsingStep(Append(s, more)) == Thrown
  }

  lemma PopLineStable(s: State, more: string)
    requires Find(s.buffer, CRLF) >= 0
    ensures Find(Append(s, more).buffer, CRLF) >= 0
    ensures PopLine(Append(s, more)) == (PopLine(s).0, Append(PopLine(s).1, more))
  {
    FindExtends(s.buffer, more, CRLF);
    var i := Find(s.buffer, CRLF);
    assert (s.buffer + more)[..i] == s.buffer[..i];
    assert (s.buffer + more)[i + 2..] == s.buffer[i + 2..] + more;
  }

  lemma FirstLineStepStable(s: State, more: string)
    requires s.msg.phase == FirstLinePending && Framed(s.msg)
    ensures StepIsStable(s, more)
  {
    hide Chunked.Settled;
    if Find(s.buffer, CRLF) >= 0 {
      PopLineStable(s, more);
      hide PopLine;
    }
  }

  lemma HeaderStepStable(s: State, more: string)
    requires s.msg.phase == HeadersPending && Framed(s.msg)
    ensures StepIsStable(s, more)
  {
    hide ParseHeader, ExpectedBody, Chunked.Settled;
    if Find(s.buffer, CRLF) >= 0 {
      PopLineStable(s, more);
      FramingStarts(s.role, s.msg.firstLine, s.msg.headers, s.msg.request);
      hide PopLine;
    }
  }

  lemma BodyStepStable(s: State, more: string)
    requires s.msg.phase == BodyPending && Framed(s.msg)
    ensures StepIsStable(s, more)
  {
    hide ReadBody, Framed, FirstLineStep, HeaderStep;
    ReadBodySplits(s.msg, s.buffer, more);
    ReadBodyFramed(s.msg, s.buffer);
    var r := ReadBody(s.msg, s.buffer);
    if r.Some? {
      var (n, m1) := r.value;
      if m1.phase == Complete {
        assert (s.buffer + more)[n..] == s.buffer[n..] + more;
      } else {
        BodyGoesOn(s, more, m1);
      }
    }
  }

  lemma BodyGoesOn(s: State, more: string, m: Partial)
    requires s.msg.phase == BodyPending && Framed(s.msg) && Framed(m) && m.phase == BodyPending
    requires ReadBody(s.msg, s.buffer) == Some((|s.buffer|, m)) && Splits(s.msg, s.buffer, more)
    ensures StepIsStable(s, more)
  {
    hide ReadBody, Framed, FirstLineStep, HeaderStep;
    var t := s.(buffer := "", msg := m);
    assert ParsingStep(s) == Stop(t);
    assert Append(t, more).buffer == more;
    ReadBodyFramed(m, more);
    if ReadBody(m, more).Some? {
      var k := ReadBody(m, more).value.0;
      assert (s.buffer + more)[|s.buffer| + k..] == more[k..];
    }
  }

  lemma StepStable(s: State, more: string)
    requires Framed(s.msg)
    ensures StepIsStable(s, more)
  {
    match s.msg.phase
    case FirstLinePending => FirstLineStepStable(s, more);
    case HeadersPending => HeaderStepStable(s, more);
    case BodyPending => BodyStepStable(s, more);
    case Complete =>
  }

  /** Looping, appending, and looping again is appending first: same completed messages, same
      message in progress, same leftover, same counters, or an exception both ways. */
  lemma {:induction false} LoopExtends(s: State, more: string)
    requires Framed(s.msg)
    ensures Loop(Append(s, more)) ==
            match Loop(s) { case None => None case Some(t) => Loop(Append(t, more)) }
    ensures Loop(s).Some? ==> Resting(Loop(s).value) && Loop(s).value.role == s.role
    decreases |s.buffer|, PhaseRank(s.msg.phase)
  {
    hide ParsingStep;
    StepStable(s, more);
    StepRole(s);
    if ParsingStep(s).Again? {
      StepDecreases(s);
      LoopExtends(ParsingStep(s).s, more);
    }
  }

  lemma StepRole(s: State)
    ensures ParsingStep(s).Again? || ParsingStep(s).Stop? ==> ParsingStep(s).s.role == s.role
  {
    hide ParseHeader, ExpectedBody, ReadBody;
  }

  /** Independence from fragmentation, on every input: exceptions included. */
  lemma ParseSplits(s: State, a: string, b: string)
    requires Resting(s) && a != "" && b != ""
    ensures Parse(s, a + b) == match Parse(s, a) { case None => None case Some(t) => Parse(t, b) }
    ensures Parse(s, a).Some? ==> Resting(Parse(s, a).value)
  {
    hide Loop;
    assert Append(s, a + b).buffer == Append(Append(s, a), b).buffer;
    LoopExtends(Append(s, a), b);
  }

  function ParsePieces(s: State, pieces: seq<string>): Option<State>
    decreases |pieces|
  {
    if pieces == [] then Some(s)
    else match Parse(s, pieces[0])
      case None => None
      case Some(t) => ParsePieces(t, pieces[1..])
  }

  /** Every cutting of a stream into nonempty pieces has the outcome of parsing it whole. */
  lemma {:induction false} ParseAnyPieces(s: State, pieces: seq<string>)
    requires Resting(s) && pieces != [] && forall k :: 0 <= k < |pieces| ==> pieces[k] != ""
    ensures ParsePieces(s, pieces) == Parse(s, Concat(pieces))
    decreases |pieces|
  {
    hide Parse, Resting;
    var a, rest := pieces[0], pieces[1..];
    if rest == [] {
      assert Concat(pieces) == a;
      ParseSplits(s, a, a);
    } else {
      assert Concat(rest) != "" by { assert rest[0] != ""; }
      ParseSplits(s, a, Concat(rest));
      if Parse(s, a).Some? {
        ParseAnyPieces(Parse(s, a).value, rest);
      }
    }
  }
}
