/** Whole runs of the HTTP parsers: matching of responses to requests, and forwarding. */
module HttpRuns {
  import opened Text
  import opened Message
  import opened Sequence
  import opened Printing
  import opened Completion

  /** What reaches a response parser: a request that was forwarded, or bytes (none at end of
      connection). */
  datatype Event = Forwarded(request: Finished) | Bytes(input: string)

  function Handle(s: State, e: Event): Option<State> {
    match e
    case Forwarded(r) => Some(s.(requests := s.requests + [r]))
    case Bytes(input) => Parse(s, input)
  }

  function Run(s: State, es: seq<Event>): Option<State>
    decreases |es|
  {
    if es == [] then Some(s)
    else match Handle(s, es[0])
      case None => None
      case Some(t) => Run(t, es[1..])
  }

  function Requests(es: seq<Event>): seq<Finished> {
    if es == [] then []
    else (if es[0].Forwarded? then [es[0].request] else []) + Requests(es[1..])
  }

  /** Number of messages that have taken their request: the complete ones and the one under way. */
  function Taken(s: State): nat {
    |s.complete| + if s.msg.phase == FirstLinePending then 0 else 1
  }

  /** The k-th response carries the k-th request, and the requests not taken wait in order. */
  ghost predicate Paired(s: State, arrived: seq<Finished>) {
    && s.role.Response?
    && Taken(s) <= |arrived| && s.requests == arrived[Taken(s)..]
    && (forall k :: 0 <= k < |s.complete| ==> s.complete[k].request == Some(arrived[k]))
    && (s.msg.phase != FirstLinePending ==> s.msg.request == Some(arrived[|s.complete|]))
  }

  lemma StepPaired(s: State, arrived: seq<Finished>)
    requires Paired(s, arrived) && !ParsingStep(s).Thrown?
    ensures Paired(ParsingStep(s).s, arrived)
  {
    hide ParseHeader, ExpectedBody, ReadBody;
    StepRole(s);
    match s.msg.phase
    case FirstLinePending => FirstLinePaired(s, arrived);
    case BodyPending => BodyKeepsRequest(s.msg, s.buffer);
    case _ =>
  }

  lemma FirstLinePaired(s: State, arrived: seq<Finished>)
    requires Paired(s, arrived) && !ParsingStep(s).Thrown? && s.msg.phase == FirstLinePending
    ensures Paired(ParsingStep(s).s, arrived)
  {
    if s.requests != [] {
      assert arrived[Taken(s)..][1..] == arrived[Taken(s) + 1..];
    }
  }

  lemma BodyKeepsRequest(m: Partial, input: string)
    requires m.phase == BodyPending
    ensures ReadBody(m, input).Some? ==>
              var t := ReadBody(m, input).value.1;
              t.request == m.request && (t.phase == BodyPending || t.phase == Complete)
  {
    hide Chunked.Read;
  }

  lemma {:induction false} LoopPaired(s: State, arrived: seq<Finished>)
    requires Paired(s, arrived) && Loop(s).Some?
    ensures Paired(Loop(s).value, arrived)
    decreases |s.buffer|, PhaseRank(s.msg.phase)
  {
    hide ParsingStep, Paired;
    StepPaired(s, arrived);
    if ParsingStep(s).Again? {
      StepDecreases(s);
      LoopPaired(ParsingStep(s).s, arrived);
    }
  }

  /** Every call of `parse`, at end of connection too, finds and leaves no message complete - so the
      assertion against that in `eof` is never reached - and keeps responses matched. */
  lemma ParseKeeps(s: State, input: string, arrived: seq<Finished>)
    requires Resting(s) && Paired(s, arrived) && Parse(s, input).Some?
    ensures Resting(Parse(s, input).value) && Paired(Parse(s, input).value, arrived)
  {
    hide Loop;
    var t := if input == "" then s.(msg := Eof(s.role, s.msg).value) else Append(s, input);
    assert Paired(t, arrived);
    LoopPaired(t, arrived);
    LoopExtends(t, "");
  }

  lemma {:induction false} RunKeeps(s: State, es: seq<Event>, arrived: seq<Finished>)
    requires Resting(s) && Paired(s, arrived) && Run(s, es).Some?
    ensures Resting(Run(s, es).value) && Paired(Run(s, es).value, arrived + Requests(es))
    decreases |es|
  {
    hide Parse, Resting, Paired;
    if es == [] {
      assert arrived + [] == arrived;
    } else {
      var t := Handle(s, es[0]).value;
      var now := if es[0].Forwarded? then [es[0].request] else [];
      HandleKeeps(s, es[0], arrived);
      RunKeeps(t, es[1..], arrived + now);
      assert (arrived + now) + Requests(es[1..]) == arrived + (now + Requests(es[1..]));
    }
  }

  lemma HandleKeeps(s: State, e: Event, arrived: seq<Finished>)
    requires Resting(s) && Paired(s, arrived) && Handle(s, e).Some?
    ensures Resting(Handle(s, e).value)
    ensures Paired(Handle(s, e).value, arrived + if e.Forwarded? then [e.request] else [])
  {
    hide Parse, Resting, Paired;
    match e
    case Forwarded(r) => ForwardKeeps(s, r, arrived);
    case Bytes(input) =>
      ParseKeeps(s, input, arrived);
      assert arrived + [] == arrived;
  }

  lemma ForwardKeeps(s: State, r: Finished, arrived: seq<Finished>)
    requires Resting(s) && Paired(s, arrived)
    ensures Resting(s.(requests := s.requests + [r])) && Paired(s.(requests := s.requests + [r]), arrived + [r])
  {
    assert (arrived + [r])[Taken(s)..] == arrived[Taken(s)..] + [r];
  }

  /** In every interleaving of forwarded requests and received bytes, ends of connection included,
      the k-th parsed response carries the k-th request. */
  lemma ResponsesMatchRequests(es: seq<Event>)
    requires Run(Start(Response), es).Some?
    ensures var t := Run(Start(Response), es).value;
            && Resting(t) && |t.complete| <= |Requests(es)|
            && forall k :: 0 <= k < |t.complete| ==> t.complete[k].request == Some(Requests(es)[k])
  {
    hide Run;
    RunKeeps(Start(Response), es, []);
    assert [] + Requests(es) == Requests(es);
  }

  /** Requests carry no request, and the queue of a request parser is never touched. */
  ghost predicate Unpaired(s: State, requests: seq<Finished>) {
    s.role.Request? && s.requests == requests
  }

  lemma {:induction false} LoopUnpaired(s: State, requests: seq<Finished>)
    requires Unpaired(s, requests) && Loop(s).Some?
    ensures Unpaired(Loop(s).value, requests)
    decreases |s.buffer|, PhaseRank(s.msg.phase)
  {
    StepUnpaired(s, requests);
    hide ParsingStep;
    if ParsingStep(s).Again? {
      StepDecreases(s);
      LoopUnpaired(ParsingStep(s).s, requests);
    }
  }

  lemma StepUnpaired(s: State, requests: seq<Finished>)
    requires Unpaired(s, requests) && !ParsingStep(s).Thrown?
    ensures Unpaired(ParsingStep(s).s, requests)
  {
    hide ParseHeader, ExpectedBody, ReadBody;
  }

  // ---------------------------------------------------------------- forwarding

  ghost predicate Pieces(pieces: seq<string>) {
    pieces != [] && forall k :: 0 <= k < |pieces| ==> pieces[k] != ""
  }

  /** A parser that is to answer the given requests. */
  function Facing(role: Role, requests: seq<Finished>): State {
    Start(role).(requests := requests)
  }

  lemma StartReceives(role: Role, requests: seq<Finished>)
    ensures Resting(Facing(role, requests)) && AllReceived(Facing(role, requests))
  {
  }

  /** What holds after parsing any pieces. */
  lemma PiecesParsed(role: Role, requests: seq<Finished>, pieces: seq<string>)
    requires Pieces(pieces) && ParsePieces(Facing(role, requests), pieces).Some?
    ensures var t := ParsePieces(Facing(role, requests), pieces).value;
            && t.role == role && Resting(t) && AllReceived(t) && Ran(t) && Matched(role, t.complete, requests)
            && (if role.Response? then Paired(t, requests) else Unpaired(t, requests))
  {
    hide Loop, ParsePieces, Received, Resting, AllReceived, OnTheWay;
    var s := Facing(role, requests);
    StartReceives(role, requests);
    assert Concat(pieces) != "" by { assert pieces[0] != ""; }
    ParseAnyPieces(s, pieces);
    var fed := Append(s, Concat(pieces));
    assert AllReceived(fed) by { FedReceives(s, Concat(pieces)); }
    LoopReceived(fed);
    LoopExtends(fed, "");
    LoopRan(fed);
    if role.Response? {
      assert requests[0..] == requests;
      LoopPaired(fed, requests);
    } else {
      LoopUnpaired(fed, requests);
    }
  }

  lemma FedReceives(s: State, input: string)
    requires AllReceived(s)
    ensures AllReceived(Append(s, input))
  {
    hide OnTheWay, Received;
  }

  /** All of `fs` parsed, and nothing left over. */
  ghost predicate ComesBack(role: Role, requests: seq<Finished>, fs: seq<Finished>, r: Option<State>) {
    && (role.Response? ==> |fs| <= |requests|)
    && r == Some(Parsing(Facing(role, requests), fs, ""))
  }

  /** Exactly which lists of messages survive: printed one after the other, cut anyhow and parsed, a
      list comes back unchanged iff each of its messages is one that the parser completes, without a
      blank header value, and the responses match the requests. */
  lemma ComesBackJustWhen(role: Role, fs: seq<Finished>, requests: seq<Finished>, pieces: seq<string>)
    requires Pieces(pieces) && Concat(pieces) == PrintAll(fs)
    ensures ComesBack(role, requests, fs, ParsePieces(Facing(role, requests), pieces)) <==>
              && Matched(role, fs, requests)
              && forall k :: 0 <= k < |fs| ==> Received(role, fs[k]) && NoBlankValues(fs[k])
  {
    hide Loop, ParsePieces, Received, NoBlankValues, PrintAll, Resting, OnTheWay, Paired, Unpaired, Ran;
    if ComesBack(role, requests, fs, ParsePieces(Facing(role, requests), pieces)) {
      PiecesParsed(role, requests, pieces);
      assert [] + fs == fs;
    }
    if Matched(role, fs, requests) && forall k :: 0 <= k < |fs| ==> Received(role, fs[k]) {
      PipelineRoundTrip(role, fs, requests, pieces);
    }
  }

  /** A request that is received and does not come back as it was: its blank value gains a space. */
  lemma BlankValueGrows()
    ensures var f := Finished("GET ", [Header("A", " ")], "", None);
            && Received(Request, f) && !NoBlankValues(f)
            && ReparsedMessage(f) == f.(headers := [Header("A", "  ")])
  {
    hide Find, Line;
    NoReturnIsLine("GET ");
    NoReturnIsLine("A");
    NoReturnIsLine(" ");
    assert Blank(" ");
    assert " " + " " == "  ";
    assert ReparsedHeaders([Header("A", " ")]) == [Header("A", "  ")] by {
      assert [Header("A", " ")][1..] == [];
    }
  }

  /** Forwarding: whatever messages a parser has completed, from whatever pieces and wherever in the
      next message it is, print to a stream that the next parser accepts, in whatever pieces, with
      all of them and nothing left over - the same messages iff no header value was blank. */
  lemma ForwardingIsTransparent(role: Role, requests: seq<Finished>, received: seq<string>, forwarded: seq<string>)
    requires Pieces(received) && Pieces(forwarded)
    requires var t := ParsePieces(Facing(role, requests), received);
             t.Some? && Concat(forwarded) == PrintAll(t.value.complete)
    ensures var s := Facing(role, requests);
            var t := ParsePieces(s, received).value;
            && ComesBack(role, requests, ReparsedAll(t.complete), ParsePieces(s, forwarded))
            && (ComesBack(role, requests, t.complete, ParsePieces(s, forwarded)) <==>
                forall k :: 0 <= k < |t.complete| ==> NoBlankValues(t.complete[k]))
            && (t.buffer == "" && t.msg.phase == FirstLinePending ==> ComesBack(role, requests, t.complete, Some(t)))
  {
    hide Loop, ParsePieces, Received, NoBlankValues, PrintAll, ReparsedAll, Resting, Paired, Unpaired, Ran, OnTheWay;
    PiecesParsed(role, requests, received);
    var t := ParsePieces(Facing(role, requests), received).value;
    PipelineRoundTrip(role, t.complete, requests, forwarded);
    if t.buffer == "" && t.msg.phase == FirstLinePending {
      AtRest(role, requests, t);
    }
  }

  /** A parser between messages with nothing in its buffer is determined by what it completed. */
  lemma AtRest(role: Role, requests: seq<Finished>, t: State)
    requires t.role == role && AllReceived(t) && t.buffer == "" && t.msg.phase == FirstLinePending
    requires if role.Response? then Paired(t, requests) else Unpaired(t, requests)
    ensures ComesBack(role, requests, t.complete, Some(t))
  {
    assert [] + t.complete == t.complete;
  }

  lemma {:induction false} PrintAllSnoc(fs: seq<Finished>, f: Finished)
    ensures PrintAll(fs + [f]) == PrintAll(fs) + Print(f)
    ensures ReparsedAll(fs + [f]) == ReparsedAll(fs) + [ReparsedMessage(f)]
  {
    hide Print, ReparsedMessage;
    if fs == [] {
      assert [f][1..] == [] && [] + [f] == [f];
      assert Print(f) + "" == Print(f) && "" + Print(f) == Print(f);
    } else {
      PrintAllSnoc(fs[1..], f);
      assert (fs + [f])[1..] == fs[1..] + [f];
      assert Print(fs[0]) + (PrintAll(fs[1..]) + Print(f)) == Print(fs[0]) + PrintAll(fs[1..]) + Print(f);
    }
  }

  /** A pipeline whose last response is open-ended comes back when the connection is closed. */
  lemma PipelineThenClosed(requests: seq<Finished>, fs: seq<Finished>, f: Finished, pieces: seq<string>)
    requires forall k :: 0 <= k < |fs| ==> Received(Response, fs[k])
    requires OpenEnded(f) && Matched(Response, fs + [f], requests)
    requires Pieces(pieces) && Concat(pieces) == PrintAll(fs + [f])
    ensures var v := ParsePieces(Facing(Response, requests), pieces);
            v.Some? && ComesBack(Response, requests, ReparsedAll(fs + [f]), Parse(v.value, ""))
  {
    hide Loop, ParsePieces, Received, PrintAll, ReparsedAll, Parse, OpenEnded, Print, ReparsedMessage;
    var s := Facing(Response, requests);
    assert Concat(pieces) != "" by { assert pieces[0] != ""; }
    ParseAnyPieces(s, pieces);
    ParseIsLoop(s, Concat(pieces));
    PrintAllSnoc(fs, f);
    assert "" + Concat(pieces) == Concat(pieces);
    MatchedFront(fs, f, requests);
    PipelineLoops(Append(s, Concat(pieces)), fs, Print(f));
    var mid := Parsing(s, ReparsedAll(fs), Print(f));
    ReparsedCount(fs);
    PrintedThenClosed(mid, f);
    ParsingSnoc(s, ReparsedAll(fs), ReparsedMessage(f), Print(f));
  }

  lemma ParseIsLoop(s: State, input: string)
    requires input != ""
    ensures Parse(s, input) == Loop(Append(s, input))
  {
    hide Loop;
  }

  lemma MatchedFront(fs: seq<Finished>, f: Finished, requests: seq<Finished>)
    requires Matched(Response, fs + [f], requests)
    ensures Matched(Response, fs, requests) && |fs| < |requests| && f.request == Some(requests[|fs|])
  {
    assert (fs + [f])[|fs|] == f;
    assert forall k :: 0 <= k < |fs| ==> (fs + [f])[k] == fs[k];
  }

  lemma ParsingSnoc(s: State, fs: seq<Finished>, f: Finished, mid: string)
    requires s.role.Response? && |fs| < |s.requests|
    ensures Parsing(Parsing(s, fs, mid), [f], "") == Parsing(s, fs + [f], "")
  {
    assert (s.complete + fs) + [f] == s.complete + (fs + [f]);
    assert s.requests[|fs|..][1..] == s.requests[|fs| + 1..];
  }

  /** A parser of responses whose connection ended. */
  lemma EndParsed(requests: seq<Finished>, received: seq<string>)
    requires Pieces(received) && ParsePieces(Facing(Response, requests), received).Some?
    requires Parse(ParsePieces(Facing(Response, requests), received).value, "").Some?
    ensures var t := ParsePieces(Facing(Response, requests), received).value;
            var u := Parse(t, "").value;
            && Matched(Response, u.complete, requests)
            && (forall k :: 0 <= k < |t.complete| ==> Received(Response, t.complete[k]))
            && (u == t || (u.complete == t.complete + [Finish(t.msg)] && OpenEnded(Finish(t.msg))))
  {
    hide Loop, ParsePieces, Received, Resting, OnTheWay, OpenEnded, Parse, Ran;
    PiecesParsed(Response, requests, received);
    var t := ParsePieces(Facing(Response, requests), received).value;
    CompletedAtEnd(t);
    ParseKeeps(t, "", requests);
  }

  /** Forwarding to the end of the connection: if it ends after any bytes without an exception, what
      was then completed - a body ended by the end included - is printed, parsed in any pieces and
      closed, and comes back, the same iff no header value was blank. */
  lemma ForwardingToTheEnd(requests: seq<Finished>, received: seq<string>, forwarded: seq<string>)
    requires Pieces(received) && Pieces(forwarded)
    requires var t := ParsePieces(Facing(Response, requests), received);
             && t.Some? && Parse(t.value, "").Some?
             && Concat(forwarded) == PrintAll(Parse(t.value, "").value.complete)
    ensures var s := Facing(Response, requests);
            var fs := Parse(ParsePieces(s, received).value, "").value.complete;
            var v := ParsePieces(s, forwarded);
            && v.Some? && ComesBack(Response, requests, ReparsedAll(fs), Parse(v.value, ""))
            && (ComesBack(Response, requests, fs, Parse(v.value, "")) <==>
                forall k :: 0 <= k < |fs| ==> NoBlankValues(fs[k]))
  {
    hide Loop, ParsePieces, Received, NoBlankValues, PrintAll, ReparsedAll, Parse, OpenEnded;
    EndParsed(requests, received);
    var s := Facing(Response, requests);
    var t := ParsePieces(s, received).value;
    var fs := Parse(t, "").value.complete;
    if fs == t.complete {
      PipelineRoundTrip(Response, fs, requests, forwarded);
      StaysIdle(ParsePieces(s, forwarded).value);
    } else {
      PipelineThenClosed(requests, t.complete, Finish(t.msg), forwarded);
    }
    SameParsing(s, fs);
  }

  lemma StaysIdle(s: State)
    requires s.msg == NEW_MESSAGE && s.buffer == ""
    ensures Parse(s, "") == Some(s)
  {
    Idle(s);
    hide Loop;
  }

  lemma SameParsing(s: State, fs: seq<Finished>)
    requires s.role.Response? && s.complete == [] && |fs| <= |s.requests|
    ensures |ReparsedAll(fs)| == |fs|
    ensures Parsing(s, ReparsedAll(fs), "") == Parsing(s, fs, "") <==>
            forall k :: 0 <= k < |fs| ==> NoBlankValues(fs[k])
  {
    hide NoBlankValues, ReparsedAll;
    ReparsedCount(fs);
    PipelineSame(fs);
    assert [] + fs == fs && [] + ReparsedAll(fs) == ReparsedAll(fs);
  }
}
