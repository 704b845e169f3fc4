/** The two delay queues: a FIFO with one delay for all, and a priority queue with a delay chosen
    packet by packet. */
module DelayQueues {
  import Text

  datatype Entry = Entry(release: nat, contents: string)

  ghost predicate Due(q: multiset<Entry>, at: nat) {
    forall e :: e in q ==> e.release <= at
  }

  ghost predicate Later(q: multiset<Entry>, at: nat) {
    forall e :: e in q ==> at < e.release
  }

  /** `out` is what a queue holding `q` emits up to time `at`, and `rest` what it keeps: exactly the
      entries due, and exactly the others. */
  ghost predicate Splits(q: multiset<Entry>, at: nat, out: multiset<Entry>, rest: multiset<Entry>) {
    q == out + rest && Due(out, at) && Later(rest, at)
  }

  /** There is just one way to split. */
  lemma SplitUnique(q: multiset<Entry>, at: nat, out: multiset<Entry>, rest: multiset<Entry>,
                    out': multiset<Entry>, rest': multiset<Entry>)
    requires Splits(q, at, out, rest) && Splits(q, at, out', rest')
    ensures out == out' && rest == rest'
  {
    forall e: Entry
      ensures out[e] == out'[e] && rest[e] == rest'[e]
    {
      assert q[e] == out[e] + rest[e] == out'[e] + rest'[e];
      if e.release <= at {
        assert e !in rest && e !in rest';
      } else {
        assert e !in out && e !in out';
      }
    }
  }

  lemma DueSeq(es: seq<Entry>, at: nat)
    ensures (forall k :: 0 <= k < |es| ==> es[k].release <= at) <==> Due(multiset(es), at)
  {
    if Due(multiset(es), at) {
      forall k | 0 <= k < |es|
        ensures es[k].release <= at
      {
        assert es[k] in multiset(es);
      }
    }
  }

  lemma LaterSeq(es: seq<Entry>, at: nat)
    requires forall k :: 0 <= k < |es| ==> at < es[k].release
    ensures Later(multiset(es), at)
  {
  }

  ghost predicate Sorted(es: seq<Entry>) {
    forall i, j :: 0 <= i < j < |es| ==> es[i].release <= es[j].release
  }

  // ---------------------------------------------------------------- FIFO

  /** Entries at the front whose time has come, up to the first whose has not. */
  function Front(q: seq<Entry>, at: nat): (n: nat)
    ensures n <= |q| && (forall k :: 0 <= k < n ==> q[k].release <= at)
    ensures n < |q| ==> at < q[n].release
  {
    if q == [] || q[0].release > at then 0 else 1 + Front(q[1..], at)
  }

  /** What is emitted up to time `at`, and what is kept. */
  function Emitted(q: seq<Entry>, at: nat): seq<Entry> {
    q[..Front(q, at)]
  }

  function Kept(q: seq<Entry>, at: nat): seq<Entry> {
    q[Front(q, at)..]
  }

  lemma SortedParts(q: seq<Entry>, n: nat)
    requires Sorted(q) && n <= |q|
    ensures Sorted(q[..n]) && Sorted(q[n..])
    ensures forall k :: n < |q| && 0 <= k < |q[n..]| ==> q[n].release <= q[n..][k].release
  {
  }

  lemma MultisetParts(q: seq<Entry>, n: nat)
    requires n <= |q|
    ensures multiset(q) == multiset(q[..n]) + multiset(q[n..])
  {
    assert q == q[..n] + q[n..];
  }

  /** Testing only the front emits everything due as long as the queue is sorted. */
  lemma FrontSplits(q: seq<Entry>, at: nat)
    requires Sorted(q)
    ensures Splits(multiset(q), at, multiset(Emitted(q, at)), multiset(Kept(q, at)))
    ensures Sorted(Kept(q, at)) && Sorted(Emitted(q, at))
  {
    hide Due, Later, Sorted;
    var n := Front(q, at);
    SortedParts(q, n);
    MultisetParts(q, n);
    DueSeq(q[..n], at);
    LaterSeq(q[n..], at);
  }

  /** A packet with the delay of its queue, or a write that ends at time `at`. */
  datatype Event = Read(now: nat, delay: nat, contents: string) | Write(at: nat)

  function Time(e: Event): nat {
    if e.Read? then e.now else e.at
  }

  ghost predicate Timed(es: seq<Event>, from: nat) {
    es != [] ==> from <= Time(es[0]) && Timed(es[1..], Time(es[0]))
  }

  /** All delays are the one given. */
  ghost predicate Constant(es: seq<Event>, delay: nat) {
    forall k :: 0 <= k < |es| && es[k].Read? ==> es[k].delay == delay
  }

  /** What the FIFO emits at each write. */
  function FifoRun(q: seq<Entry>, es: seq<Event>): seq<seq<Entry>>
    decreases |es|
  {
    if es == [] then []
    else match es[0]
      case Read(now, delay, contents) => FifoRun(q + [Entry(now + delay, contents)], es[1..])
      case Write(at) => [Emitted(q, at)] + FifoRun(Kept(q, at), es[1..])
  }

  // ---------------------------------------------------------------- priority queue

  /** The priority queue fixes no order among equal times, so runs are a relation: `outs` are
      possible emissions at the writes. Each is sorted and is what is due. */
  ghost predicate PriorityRun(q: multiset<Entry>, es: seq<Event>, outs: seq<seq<Entry>>)
    decreases |es|
  {
    if es == [] then outs == []
    else match es[0]
      case Read(now, delay, contents) => PriorityRun(q + multiset{Entry(now + delay, contents)}, es[1..], outs)
      case Write(at) =>
        && outs != [] && Sorted(outs[0])
        && exists rest :: Splits(q, at, multiset(outs[0]), rest) && PriorityRun(rest, es[1..], outs[1..])
  }

  function Flatten(outs: seq<seq<Entry>>): seq<Entry> {
    if outs == [] then [] else outs[0] + Flatten(outs[1..])
  }

  ghost predicate NotBefore(q: multiset<Entry>, low: nat) {
    forall e :: e in q ==> low <= e.release
  }

  lemma SplitBounds(q: multiset<Entry>, at: nat, out: seq<Entry>, rest: multiset<Entry>, low: nat)
    requires Splits(q, at, multiset(out), rest) && NotBefore(q, low)
    ensures NotBefore(rest, at)
    ensures forall k :: 0 <= k < |out| ==> low <= out[k].release <= at
  {
    DueSeq(out, at);
    forall k | 0 <= k < |out|
      ensures low <= out[k].release
    {
      assert out[k] in multiset(out);
      assert out[k] in q;
    }
  }

  /** Release times of the output never go back over a whole run, whatever the delays: nothing
      still queued, or yet to come, is due before something already written. */
  lemma {:induction false} OutputSorted(q: multiset<Entry>, es: seq<Event>, outs: seq<seq<Entry>>, from: nat, low: nat)
    requires PriorityRun(q, es, outs) && Timed(es, from) && low <= from && NotBefore(q, low)
    ensures Sorted(Flatten(outs)) && forall k :: 0 <= k < |Flatten(outs)| ==> low <= Flatten(outs)[k].release
    decreases |es|
  {
    hide Splits;
    if es != [] {
      match es[0]
      case Read(now, delay, contents) =>
        OutputSorted(q + multiset{Entry(now + delay, contents)}, es[1..], outs, now, low);
      case Write(at) =>
        var rest :| Splits(q, at, multiset(outs[0]), rest) && PriorityRun(rest, es[1..], outs[1..]);
        SplitBounds(q, at, outs[0], rest, low);
        OutputSorted(rest, es[1..], outs[1..], at, at);
    }
  }

  lemma WriteThenRun(q: multiset<Entry>, es: seq<Event>, out: seq<Entry>, rest: multiset<Entry>, outs: seq<seq<Entry>>)
    requires es != [] && es[0].Write? && Sorted(out) && Splits(q, es[0].at, multiset(out), rest)
    requires PriorityRun(rest, es[1..], outs)
    ensures PriorityRun(q, es, [out] + outs)
  {
    hide Splits, Sorted;
    assert ([out] + outs)[1..] == outs;
  }

  lemma ReadKeepsSorted(q: seq<Entry>, e: Entry)
    requires Sorted(q) && forall k :: 0 <= k < |q| ==> q[k].release <= e.release
    ensures Sorted(q + [e]) && multiset(q + [e]) == multiset(q) + multiset{e}
    ensures forall k :: 0 <= k < |q + [e]| ==> (q + [e])[k].release <= e.release
  {
  }

  /** With one delay for all, the FIFO's queue stays sorted and its front test emits, write by
      write, the very packets that any run of the priority queue emits, in order of release. */
  lemma {:induction false} FifoIsPriority(q: seq<Entry>, es: seq<Event>, delay: nat, from: nat)
    requires Sorted(q) && Timed(es, from) && Constant(es, delay)
    requires forall k :: 0 <= k < |q| ==> q[k].release <= from + delay
    ensures PriorityRun(multiset(q), es, FifoRun(q, es))
    decreases |es|
  {
    hide Splits, Sorted;
    if es != [] {
      assert Constant(es[1..], delay);
      match es[0]
      case Read(now, d, contents) =>
        ReadKeepsSorted(q, Entry(now + d, contents));
        FifoIsPriority(q + [Entry(now + d, contents)], es[1..], delay, now);
      case Write(at) =>
        FrontSplits(q, at);
        FifoIsPriority(Kept(q, at), es[1..], delay, at);
        WriteThenRun(multiset(q), es, Emitted(q, at), multiset(Kept(q, at)), FifoRun(Kept(q, at), es[1..]));
    }
  }

  /** Write by write, any two runs of the priority queue emit the same packets; so the FIFO does
      too where its delay is the only one. */
  lemma {:induction false} RunsAgree(q: multiset<Entry>, es: seq<Event>, a: seq<seq<Entry>>, b: seq<seq<Entry>>)
    requires PriorityRun(q, es, a) && PriorityRun(q, es, b)
    ensures |a| == |b| && forall k :: 0 <= k < |a| ==> multiset(a[k]) == multiset(b[k])
    decreases |es|
  {
    hide Splits, Sorted;
    if es != [] {
      match es[0]
      case Read(now, delay, contents) =>
        RunsAgree(q + multiset{Entry(now + delay, contents)}, es[1..], a, b);
      case Write(at) =>
        var ra :| Splits(q, at, multiset(a[0]), ra) && PriorityRun(ra, es[1..], a[1..]);
        var rb :| Splits(q, at, multiset(b[0]), rb) && PriorityRun(rb, es[1..], b[1..]);
        SplitUnique(q, at, multiset(a[0]), ra, multiset(b[0]), rb);
        RunsAgree(ra, es[1..], a[1..], b[1..]);
    }
  }

  /** The two queues emit the same packets at every write when no rule gives another delay. */
  lemma FifoEmitsAsPriority(es: seq<Event>, delay: nat, outs: seq<seq<Entry>>)
    requires Timed(es, 0) && Constant(es, delay) && PriorityRun(multiset{}, es, outs)
    ensures var fifo := FifoRun([], es);
            && |fifo| == |outs| && Sorted(Flatten(fifo))
            && forall k :: 0 <= k < |fifo| ==> multiset(fifo[k]) == multiset(outs[k])
  {
    FifoIsPriority([], es, delay, 0);
    var none: seq<Entry> := [];
    assert multiset(none) == multiset{};
    RunsAgree(multiset{}, es, FifoRun([], es), outs);
    OutputSorted(multiset{}, es, FifoRun([], es), 0, 0);
  }

  // ---------------------------------------------------------------- delays of a TCP rule

  /** A rule of one direction: its address and port, the delay up to `limit` bytes, and the delay
      from then on. */
  datatype Rule = Rule(ip: nat, port: nat, delay: nat, limit: nat, altDelay: nat)

  /** Bytes and packets counted per address and port; absent means zero. */
  datatype Counters = Counters(bytes: map<(nat, nat), nat>, packets: map<(nat, nat), nat>)

  function At(m: map<(nat, nat), nat>, key: (nat, nat)): nat {
    if key in m then m[key] else 0
  }

  /** `get_delay_for_tcp` for a packet that matches `rule`: the bytes before this packet decide. */
  function TcpDelay(c: Counters, rule: Rule, size: nat): (nat, Counters) {
    var key := (rule.ip, rule.port);
    var before := At(c.bytes, key);
    (if before < rule.limit then rule.delay else rule.altDelay,
     Counters(c.bytes[key := before + size], c.packets[key := At(c.packets, key) + 1]))
  }

  /** A packet with the rule it matches. */
  datatype Matched = Matched(rule: Rule, size: nat)

  function TcpDelays(c: Counters, ms: seq<Matched>): (r: (seq<nat>, Counters))
    ensures |r.0| == |ms|
    decreases |ms|
  {
    if ms == [] then ([], c)
    else
      var (d, c1) := TcpDelay(c, ms[0].rule, ms[0].size);
      var (ds, c2) := TcpDelays(c1, ms[1..]);
      ([d] + ds, c2)
  }

  /** Bytes and packets among `ms` for an address and port. */
  function BytesOf(ms: seq<Matched>, key: (nat, nat)): nat {
    if ms == [] then 0
    else (if (ms[0].rule.ip, ms[0].rule.port) == key then ms[0].size else 0) + BytesOf(ms[1..], key)
  }

  function PacketsOf(ms: seq<Matched>, key: (nat, nat)): nat {
    if ms == [] then 0
    else (if (ms[0].rule.ip, ms[0].rule.port) == key then 1 else 0) + PacketsOf(ms[1..], key)
  }

  /** Over any run: a packet gets its rule's first delay iff the packets before it at the same
      address and port carried fewer bytes than the limit, whatever else was sent in between; and
      the counters end as the totals. */
  lemma {:induction false} DelaysFollowBytes(c: Counters, ms: seq<Matched>, k: nat, key: (nat, nat))
    requires k < |ms| && key == (ms[k].rule.ip, ms[k].rule.port)
    ensures var rule := ms[k].rule;
            TcpDelays(c, ms).0[k] ==
            if At(c.bytes, key) + BytesOf(ms[..k], key) < rule.limit then rule.delay else rule.altDelay
    decreases |ms|
  {
    if k > 0 {
      var c1 := TcpDelay(c, ms[0].rule, ms[0].size).1;
      DelaysFollowBytes(c1, ms[1..], k - 1, key);
      assert ms[..k][1..] == ms[1..][..k - 1];
    }
  }

  lemma {:induction false} CountersAreTotals(c: Counters, ms: seq<Matched>, key: (nat, nat))
    ensures var r := TcpDelays(c, ms).1;
            && At(r.bytes, key) == At(c.bytes, key) + BytesOf(ms, key)
            && At(r.packets, key) == At(c.packets, key) + PacketsOf(ms, key)
    decreases |ms|
  {
    if ms != [] {
      CountersAreTotals(TcpDelay(c, ms[0].rule, ms[0].size).1, ms[1..], key);
    }
  }

  /** Once a connection has its second delay it never returns to the first. */
  lemma NoReturn(c: Counters, ms: seq<Matched>, j: nat, k: nat)
    requires j < k < |ms| && ms[j].rule == ms[k].rule
    ensures var rule := ms[k].rule;
            rule.delay != rule.altDelay && TcpDelays(c, ms).0[j] == rule.altDelay ==>
              TcpDelays(c, ms).0[k] == rule.altDelay
  {
    var key := (ms[k].rule.ip, ms[k].rule.port);
    DelaysFollowBytes(c, ms, j, key);
    DelaysFollowBytes(c, ms, k, key);
    BytesGrow(ms, j, k, key);
  }

  lemma {:induction false} BytesGrow(ms: seq<Matched>, j: nat, k: nat, key: (nat, nat))
    requires j <= k <= |ms|
    ensures BytesOf(ms[..j], key) <= BytesOf(ms[..k], key)
    decreases j
  {
    if j > 0 {
      assert ms[..j][1..] == ms[1..][..j - 1] && ms[..k][1..] == ms[1..][..k - 1];
      BytesGrow(ms[1..], j - 1, k - 1, key);
    }
  }

  // ---------------------------------------------------------------- the objects

  /** A clock that does not go back. */
  ghost predicate Forward(clock: nat -> nat) {
    forall i, j :: 0 <= i <= j ==> clock(i) <= clock(j)
  }

  const UINT16_MAX: nat := 65535

  /** Size of an IPv4 header without options. */
  const IP_HEADER_SIZE: nat := 20

  lemma ForwardStep(clock: nat -> nat, t: nat)
    requires Forward(clock)
    ensures clock(t) <= clock(t + 1)
  {
  }

  /** Part of the way through a write: what is out was at the front of the queue and due. */
  ghost predicate Written(start: seq<Entry>, out: seq<Entry>, q: seq<Entry>, at: nat) {
    start == out + q && forall k :: 0 <= k < |out| ==> out[k].release <= at
  }

  lemma WriteFront(start: seq<Entry>, out: seq<Entry>, q: seq<Entry>, at: nat)
    requires Written(start, out, q, at) && q != [] && q[0].release <= at
    ensures Written(start, out + [q[0]], q[1..], at)
  {
    assert out + q == (out + [q[0]]) + q[1..];
  }

  lemma WrittenLater(start: seq<Entry>, out: seq<Entry>, q: seq<Entry>, at: nat, later: nat)
    requires Written(start, out, q, at) && at <= later
    ensures Written(start, out, q, later)
  {
  }

  lemma WrittenNone(q: seq<Entry>, at: nat)
    ensures Written(q, [], q, at)
  {
    assert [] + q == q;
  }

  lemma WrittenIsFront(start: seq<Entry>, out: seq<Entry>, q: seq<Entry>, at: nat)
    requires Written(start, out, q, at) && (q != [] ==> at < q[0].release)
    ensures out == Emitted(start, at) && q == Kept(start, at)
  {
    assert forall k :: 0 <= k < |out| ==> start[k] == out[k];
    assert q != [] ==> start[|out|] == q[0];
  }

  /** Sorted, and nothing is due after `bound`. */
  ghost predicate Orderly(q: seq<Entry>, bound: nat) {
    Sorted(q) && forall k :: 0 <= k < |q| ==> q[k].release <= bound
  }

  /** Of the packets in `q` those in `out` are due, and those in `rest` are not. */
  ghost predicate SplitsInto(q: seq<Entry>, at: nat, out: seq<Entry>, rest: seq<Entry>) {
    Splits(multiset(q), at, multiset(out), multiset(rest))
  }

  lemma OrderlyWrite(q: seq<Entry>, at: nat, bound: nat, later: nat)
    requires Orderly(q, bound)
    ensures SplitsInto(q, at, Emitted(q, at), Kept(q, at))
    ensures bound <= later ==> Orderly(Kept(q, at), later)
  {
    hide Splits;
    FrontSplits(q, at);
  }

  lemma OrderlyRead(q: seq<Entry>, bound: nat, e: Entry)
    requires Orderly(q, bound) && bound <= e.release
    ensures Orderly(q + [e], e.release)
  {
    ReadKeepsSorted(q, e);
  }

  class DelayQueue {
    const delayMs: nat
    var packetQueue: seq<Entry>
    /** The last time at which a packet was read or written. */
    ghost var latest: nat

    /** The queue is sorted, and a packet read from now on belongs at its back. */
    ghost predicate Valid()
      reads this
    {
      Orderly(packetQueue, latest + delayMs)
    }

    constructor (delayMs: nat)
      ensures Valid() && this.delayMs == delayMs && packetQueue == []
    {
      this.delayMs, packetQueue, latest := delayMs, [], 0;
    }

    /** The queue stays valid as long as the clock does not go back. */
    method ReadPacket(contents: string, now: nat)
      modifies this
      ensures packetQueue == old(packetQueue) + [Entry(now + delayMs, contents)] && latest == now
      ensures old(Valid()) && old(latest) <= now ==> Valid()
    {
      if Valid() && latest <= now {
        OrderlyRead(packetQueue, latest + delayMs, Entry(now + delayMs, contents));
      }
      packetQueue := packetQueue + [Entry(now + delayMs, contents)];
      latest := now;
    }

    /** The clock is read before each packet; `at` is its last reading, and the packets written off a
        valid queue are exactly those due by then. */
    method WritePackets(clock: nat -> nat, tick: nat) returns (out: seq<Entry>, at: nat)
      requires Forward(clock)
      modifies this
      ensures clock(tick) <= at == latest
      ensures out == Emitted(old(packetQueue), at) && packetQueue == Kept(old(packetQueue), at)
      ensures old(Valid()) ==> SplitsInto(old(packetQueue), at, out, packetQueue)
      ensures old(Valid()) && old(latest) <= at ==> Valid()
    {
      hide Orderly, SplitsInto, Emitted, Kept, Written, Forward;
      ghost var start, bound := packetQueue, latest + delayMs;
      out, at := [], clock(tick);
      var t := tick;
      WrittenNone(start, at);
      while packetQueue != []
        invariant tick <= t && clock(tick) <= at <= clock(t)
        invariant Written(start, out, packetQueue, at)
        invariant latest == old(latest)
        decreases |packetQueue|
      {
        WrittenLater(start, out, packetQueue, at, clock(t));
        at := clock(t);
        ForwardStep(clock, t);
        t := t + 1;
        if packetQueue[0].release > at {
          break;
        }
        WriteFront(start, out, packetQueue, at);
        out := out + [packetQueue[0]];
        packetQueue := packetQueue[1..];
      }
      WrittenIsFront(start, out, packetQueue, at);
      latest := at;
      if Orderly(start, bound) {
        OrderlyWrite(start, at, bound, at + delayMs);
      }
    }

    /** Zero just when a write at this time would emit something. */
    method WaitTime(now: nat) returns (wait: nat)
      ensures wait == 0 <==> Front(packetQueue, now) > 0
      ensures wait > 0 && packetQueue != [] ==> packetQueue[0].release == now + wait
      ensures packetQueue == [] ==> wait == UINT16_MAX
    {
      if packetQueue == [] {
        return UINT16_MAX;
      }
      return if packetQueue[0].release <= now then 0 else packetQueue[0].release - now;
    }
  }

  /** Part of the way through a write: what is out was due, in order, and nothing left is earlier. */
  ghost predicate Emitting(start: multiset<Entry>, out: seq<Entry>, q: multiset<Entry>, at: nat) {
    && start == multiset(out) + q
    && Sorted(out) && (forall k :: 0 <= k < |out| ==> out[k].release <= at)
    && (out != [] ==> NotBefore(q, out[|out| - 1].release))
  }

  lemma NothingEmitted(q: multiset<Entry>, at: nat)
    ensures Emitting(q, [], q, at)
  {
    var none: seq<Entry> := [];
    assert multiset(none) + q == q;
  }

  lemma EmittingLater(start: multiset<Entry>, out: seq<Entry>, q: multiset<Entry>, at: nat, later: nat)
    requires Emitting(start, out, q, at) && at <= later
    ensures Emitting(start, out, q, later)
  {
    hide NotBefore;
  }

  ghost predicate Earliest(e: Entry, q: multiset<Entry>) {
    e in q && NotBefore(q, e.release)
  }

  lemma WithoutTop(q: multiset<Entry>, top: Entry)
    requires Earliest(top, q)
    ensures q == multiset{top} + (q - multiset{top}) && NotBefore(q - multiset{top}, top.release)
  {
  }

  lemma SnocSorted(out: seq<Entry>, top: Entry)
    requires Sorted(out) && (out != [] ==> out[|out| - 1].release <= top.release)
    ensures Sorted(out + [top])
  {
  }

  lemma EmitTop(start: multiset<Entry>, out: seq<Entry>, q: multiset<Entry>, at: nat, top: Entry)
    requires Emitting(start, out, q, at) && top.release <= at && Earliest(top, q)
    ensures Emitting(start, out + [top], q - multiset{top}, at)
  {
    WithoutTop(q, top);
    assert out != [] ==> out[|out| - 1].release <= top.release;
    SnocSorted(out, top);
    hide NotBefore, Earliest, Sorted;
    var rest := q - multiset{top};
    assert multiset(out + [top]) == multiset(out) + multiset{top};
    assert multiset(out) + (multiset{top} + rest) == (multiset(out) + multiset{top}) + rest;
  }

  lemma EmittedAll(start: multiset<Entry>, out: seq<Entry>, q: multiset<Entry>, at: nat)
    requires Emitting(start, out, q, at) && Later(q, at)
    ensures Sorted(out) && Splits(start, at, multiset(out), q)
  {
    hide NotBefore, Later, Due;
    DueSeq(out, at);
  }

  lemma NoneIsLater(at: nat)
    ensures Later(multiset{}, at)
  {
  }

  lemma TopIsLater(q: multiset<Entry>, top: Entry, at: nat)
    requires Earliest(top, q) && at < top.release
    ensures Later(q, at)
  {
  }

  /** IP version and protocol number of a packet, which four bytes of flags precede. */
  function Version(contents: string): nat
    requires |contents| >= IP_HEADER_SIZE
  {
    contents[4] as int % 256 / 16
  }

  function Protocol(contents: string): nat
    requires |contents| >= IP_HEADER_SIZE
  {
    contents[13] as int % 256
  }

  /** What the look-up in the rules finds for an IPv4 packet: nothing, a fixed delay, a rule of its TCP
      connection - or it throws, as for ICMP at an address that has rules but none for all ports. */
  datatype Choice = Default | Fixed(delay: nat) | Tcp(rule: Rule) | Missing

  /** The rules of a queue, as the choice they make for each packet, and the default delay. */
  datatype Rules = Rules(choose: string -> Choice, delayMs: nat)

  /** A packet that is not thrown at. */
  predicate Admitted(rules: Rules, contents: string) {
    && |contents| >= IP_HEADER_SIZE
    && (if Version(contents) == 4 then !rules.choose(contents).Missing? else Protocol(contents) == 6)
  }

  /** The rule of a TCP packet that has one. */
  function TcpRule(rules: Rules, contents: string): seq<Rule> {
    if Admitted(rules, contents) && Version(contents) == 4 && rules.choose(contents).Tcp?
    then [rules.choose(contents).rule] else []
  }

  /** Delay of a packet that is admitted, and the counters after it. */
  function Delay(rules: Rules, c: Counters, contents: string): (nat, Counters)
    requires Admitted(rules, contents)
  {
    if Version(contents) != 4 then (rules.delayMs, c)
    else
      match rules.choose(contents)
      case Fixed(delay) => (delay, c)
      case Tcp(rule) => TcpDelay(c, rule, |contents|)
      case _ => (rules.delayMs, c)
  }

  /** Packets handed to the queue, with their times. */
  datatype Incoming = Incoming(contents: string, now: nat)

  /** What reading one packet adds to the queue, if anything, and the counters after it. */
  function ReadOne(rules: Rules, c: Counters, p: Incoming): (seq<Entry>, Counters) {
    if !Admitted(rules, p.contents) then ([], c)
    else
      var (delay, d) := Delay(rules, c, p.contents);
      ([Entry(p.now + delay, p.contents)], d)
  }

  /** What becomes of a packet, by its bytes: fewer than 20 are refused. With 4 for its IP version it gets the
      delay that its rule says - the default without one - and is refused if the look-up throws. Any other
      gets the default delay if its protocol byte is 6, and is refused if not. Only a TCP rule moves counters:
      the bytes before the packet decide between its two delays. */
  lemma ReadLaw(rules: Rules, c: Counters, p: Incoming)
    ensures |p.contents| < 20 ==> ReadOne(rules, c, p) == ([], c)
    ensures |p.contents| >= 20 && 64 <= p.contents[4] as int < 80 ==>
              match rules.choose(p.contents)
              case Default => ReadOne(rules, c, p) == ([Entry(p.now + rules.delayMs, p.contents)], c)
              case Fixed(delay) => ReadOne(rules, c, p) == ([Entry(p.now + delay, p.contents)], c)
              case Missing => ReadOne(rules, c, p) == ([], c)
              case Tcp(rule) =>
                var key, r := (rule.ip, rule.port), ReadOne(rules, c, p);
                var bytes := if key in c.bytes then c.bytes[key] else 0;
                var packets := if key in c.packets then c.packets[key] else 0;
                && r.0 == [Entry(p.now + if bytes < rule.limit then rule.delay else rule.altDelay, p.contents)]
                && r.1.bytes == c.bytes[key := bytes + |p.contents|]
                && r.1.packets == c.packets[key := packets + 1]
    ensures |p.contents| >= 20 && (p.contents[4] as int < 64 || 80 <= p.contents[4] as int < 256) ==>
              && (p.contents[13] as int == 6 ==>
                    ReadOne(rules, c, p) == ([Entry(p.now + rules.delayMs, p.contents)], c))
              && (p.contents[13] as int != 6 && p.contents[13] as int < 256 ==> ReadOne(rules, c, p) == ([], c))
  {
  }

  function ReadAll(rules: Rules, c: Counters, ps: seq<Incoming>): (r: seq<seq<Entry>>)
    ensures |r| == |ps|
    decreases |ps|
  {
    if ps == [] then []
    else
      var (added, d) := ReadOne(rules, c, ps[0]);
      [added] + ReadAll(rules, d, ps[1..])
  }

  /** The TCP packets with a rule among `ps`. */
  function TcpPackets(rules: Rules, ps: seq<Incoming>): seq<Matched> {
    if ps == [] then []
    else
      var rest := TcpPackets(rules, ps[1..]);
      if TcpRule(rules, ps[0].contents) == [] then rest
      else [Matched(TcpRule(rules, ps[0].contents)[0], |ps[0].contents|)] + rest
  }

  /** Over any run: a TCP packet with a rule is released after the first delay of the rule iff the packets
      before it at the same address and port carried fewer bytes than the limit, whatever else was read
      in between. */
  lemma {:induction false} ReleasesFollowBytes(rules: Rules, c: Counters, ps: seq<Incoming>, k: nat, key: (nat, nat))
    requires k < |ps| && TcpRule(rules, ps[k].contents) != []
    requires key == (TcpRule(rules, ps[k].contents)[0].ip, TcpRule(rules, ps[k].contents)[0].port)
    ensures var rule := TcpRule(rules, ps[k].contents)[0];
            var before := At(c.bytes, key) + BytesOf(TcpPackets(rules, ps[..k]), key);
            ReadAll(rules, c, ps)[k] ==
            [Entry(ps[k].now + if before < rule.limit then rule.delay else rule.altDelay, ps[k].contents)]
    decreases |ps|
  {
    hide Admitted, Version;
    if k > 0 {
      var d := ReadOne(rules, c, ps[0]).1;
      ReadCounts(rules, c, ps[0], key);
      ReleasesFollowBytes(rules, d, ps[1..], k - 1, key);
      assert ps[..k][1..] == ps[1..][..k - 1];
      TcpPacketsHead(rules, ps[..k], key);
    }
  }

  /** Reading a packet adds its bytes to the counter of its rule. */
  lemma ReadCounts(rules: Rules, c: Counters, p: Incoming, key: (nat, nat))
    ensures At(ReadOne(rules, c, p).1.bytes, key) == At(c.bytes, key) + BytesOf(TcpPackets(rules, [p]), key)
  {
    assert [p][1..] == [];
  }

  lemma TcpPacketsHead(rules: Rules, ps: seq<Incoming>, key: (nat, nat))
    requires ps != []
    ensures BytesOf(TcpPackets(rules, ps), key) ==
            BytesOf(TcpPackets(rules, [ps[0]]), key) + BytesOf(TcpPackets(rules, ps[1..]), key)
  {
    hide TcpRule;
    assert [ps[0]][1..] == [];
    var rest := TcpPackets(rules, ps[1..]);
    if TcpRule(rules, ps[0].contents) != [] {
      var m := Matched(TcpRule(rules, ps[0].contents)[0], |ps[0].contents|);
      assert ([m] + rest)[1..] == rest && ([m] + [])[1..] == [];
    }
  }

  class AdvDelayQueue {
    const rules: Rules
    var packetQueue: multiset<Entry>
    var byteCounters: map<(nat, nat), nat>
    var pktCounters: map<(nat, nat), nat>
    var numBytes: nat

    /** A counter that is absent is zero. */
    constructor (rules: Rules)
      ensures this.rules == rules && packetQueue == multiset{}
      ensures byteCounters == map[] && pktCounters == map[] && numBytes == 0
    {
      this.rules, packetQueue := rules, multiset{};
      byteCounters, pktCounters, numBytes := map[], map[], 0;
    }

    /** `get_delay_for_tcp` once the rule of the packet is found. */
    method GetDelayForTcp(rule: Rule, size: nat) returns (delay: nat)
      modifies this`byteCounters, this`pktCounters
      ensures (delay, Counters(byteCounters, pktCounters)) ==
              TcpDelay(Counters(old(byteCounters), old(pktCounters)), rule, size)
    {
      var key := (rule.ip, rule.port);
      var bytesSent := At(byteCounters, key);
      byteCounters := byteCounters[key := bytesSent + size];
      pktCounters := pktCounters[key := At(pktCounters, key) + 1];
      if bytesSent < rule.limit {
        return rule.delay;
      } else {
        return rule.altDelay;
      }
    }

    /** `get_delay_for` a packet with an IP header: an IPv4 packet has the delay that the rules choose, any
        other with protocol number 6 the default. None where the code throws. */
    method GetDelay(contents: string) returns (delay: Text.Option<nat>)
      requires |contents| >= IP_HEADER_SIZE
      modifies this`byteCounters, this`pktCounters
      ensures delay.Some? <==> Admitted(rules, contents)
      ensures delay.None? ==> byteCounters == old(byteCounters) && pktCounters == old(pktCounters)
      ensures delay.Some? ==>
                (delay.value, Counters(byteCounters, pktCounters)) ==
                Delay(rules, Counters(old(byteCounters), old(pktCounters)), contents)
    {
      if Version(contents) != 4 {
        return if Protocol(contents) != 6 then Text.None else Text.Some(rules.delayMs);
      }
      match rules.choose(contents) {
        case Default => return Text.Some(rules.delayMs);
        case Fixed(d) => return Text.Some(d);
        case Tcp(rule) =>
          var d := GetDelayForTcp(rule, |contents|);
          return Text.Some(d);
        case Missing => return Text.None;
      }
    }

    /** The bytes are counted first; a packet that is admitted joins the queue with its release time, and
        its rule's counters move. False where the code throws. */
    method ReadPacket(contents: string, now: nat) returns (ok: bool)
      modifies this`packetQueue, this`numBytes, this`byteCounters, this`pktCounters
      ensures numBytes == old(numBytes) + |contents|
      ensures ok <==> Admitted(rules, contents)
      ensures var (added, c) := ReadOne(rules, Counters(old(byteCounters), old(pktCounters)), Incoming(contents, now));
              packetQueue == old(packetQueue) + multiset(added) && Counters(byteCounters, pktCounters) == c
    {
      numBytes := numBytes + |contents|;
      if |contents| < IP_HEADER_SIZE {
        return false;
      }
      var delay := GetDelay(contents);
      if delay.None? {
        return false;
      }
      packetQueue := packetQueue + multiset{Entry(now + delay.value, contents)};
      return true;
    }

    /** An entry with the earliest release time; which one is left open. */
    method Top() returns (e: Entry)
      requires packetQueue != multiset{}
      ensures Earliest(e, packetQueue)
    {
      ghost var m := EarliestExists(packetQueue);
      e :| e in packetQueue && forall x :: x in packetQueue ==> e.release <= x.release;
    }

    /** Writes, in order of release, exactly the packets due by the last reading of the clock. */
    method WritePackets(clock: nat -> nat, tick: nat) returns (out: seq<Entry>, at: nat)
      requires Forward(clock)
      modifies this`packetQueue
      ensures clock(tick) <= at && Sorted(out)
      ensures Splits(old(packetQueue), at, multiset(out), packetQueue)
    {
      hide Sorted, Splits, Emitting, Earliest, Later;
      out, at := [], clock(tick);
      var t := tick;
      NothingEmitted(packetQueue, at);
      while packetQueue != multiset{}
        invariant tick <= t && clock(tick) <= at <= clock(t)
        invariant Emitting(old(packetQueue), out, packetQueue, at)
        decreases |packetQueue|
      {
        EmittingLater(old(packetQueue), out, packetQueue, at, clock(t));
        at := clock(t);
        t := t + 1;
        assert clock(t - 1) <= clock(t);
        var top := Top();
        if top.release > at {
          TopIsLater(packetQueue, top, at);
          EmittedAll(old(packetQueue), out, packetQueue, at);
          return;
        }
        EmitTop(old(packetQueue), out, packetQueue, at, top);
        out := out + [top];
        packetQueue := packetQueue - multiset{top};
      }
      NoneIsLater(at);
      EmittedAll(old(packetQueue), out, packetQueue, at);
    }

    method WaitTime(now: nat) returns (wait: nat)
      ensures packetQueue == multiset{} ==> wait == UINT16_MAX
      ensures packetQueue != multiset{} ==>
                && (wait == 0 <==> exists e :: e in packetQueue && e.release <= now)
                && (wait > 0 ==> (exists e :: e in packetQueue && e.release == now + wait)
                                 && forall e :: e in packetQueue ==> now + wait <= e.release)
    {
      if packetQueue == multiset{} {
        return UINT16_MAX;
      }
      var top := Top();
      return if top.release <= now then 0 else top.release - now;
    }
  }

  lemma EarliestExists(q: multiset<Entry>) returns (m: Entry)
    requires q != multiset{}
    ensures Earliest(m, q)
    decreases |q|
  {
    var e :| e in q;
    var rest := q - multiset{e};
    assert q == rest + multiset{e};
    if rest == multiset{} {
      m := e;
    } else {
      var r := EarliestExists(rest);
      m := if e.release <= r.release then e else r;
      EarliestWith(rest, r, e);
    }
  }

  lemma EarliestWith(q: multiset<Entry>, m: Entry, e: Entry)
    requires Earliest(m, q)
    ensures Earliest(if e.release <= m.release then e else m, q + multiset{e})
  {
  }

  /** Every queue can be split: what is due comes out in order of release. */
  lemma SplitExists(q: multiset<Entry>, at: nat) returns (out: seq<Entry>, rest: multiset<Entry>)
    ensures Sorted(out) && Splits(q, at, multiset(out), rest)
    ensures forall k :: 0 <= k < |out| ==> out[k] in q
    decreases |q|
  {
    hide Sorted, Splits, Later;
    if q == multiset{} {
      NoneIsLater(at);
      out, rest := [], q;
      NoneOut(q, at);
    } else {
      var top := EarliestExists(q);
      if top.release > at {
        TopIsLater(q, top, at);
        out, rest := [], q;
        NoneOut(q, at);
      } else {
        var later;
        WithoutTop(q, top);
        later, rest := SplitExists(q - multiset{top}, at);
        ConsSorted(top, later, q - multiset{top});
        ConsSplits(top, q - multiset{top}, at, later, rest);
        out := [top] + later;
      }
    }
  }

  lemma NoneOut(q: multiset<Entry>, at: nat)
    requires Later(q, at)
    ensures var none: seq<Entry> := []; Sorted(none) && Splits(q, at, multiset(none), q)
  {
    hide Later;
    var none: seq<Entry> := [];
    assert multiset(none) + q == q;
  }

  lemma ConsSorted(top: Entry, out: seq<Entry>, q: multiset<Entry>)
    requires Sorted(out) && NotBefore(q, top.release) && forall k :: 0 <= k < |out| ==> out[k] in q
    ensures Sorted([top] + out)
  {
  }

  lemma ConsSplits(top: Entry, q: multiset<Entry>, at: nat, out: seq<Entry>, rest: multiset<Entry>)
    requires top.release <= at && Splits(q, at, multiset(out), rest)
    ensures Splits(multiset{top} + q, at, multiset([top] + out), rest)
  {
    hide Later;
    assert multiset([top] + out) == multiset{top} + multiset(out);
    assert multiset{top} + (multiset(out) + rest) == (multiset{top} + multiset(out)) + rest;
  }

  /** The priority queue has a run for every list of events: what `OutputSorted` and
      `FifoEmitsAsPriority` say of all runs is said of some. */
  lemma {:induction false} PriorityRunExists(q: multiset<Entry>, es: seq<Event>)
    ensures exists outs :: PriorityRun(q, es, outs)
    decreases |es|
  {
    hide Splits, Sorted;
    if es == [] {
      assert PriorityRun(q, es, []);
    } else {
      match es[0]
      case Read(now, delay, contents) =>
        var next := q + multiset{Entry(now + delay, contents)};
        PriorityRunExists(next, es[1..]);
        var outs :| PriorityRun(next, es[1..], outs);
        assert PriorityRun(q, es, outs);
      case Write(at) =>
        var out, rest := SplitExists(q, at);
        PriorityRunExists(rest, es[1..]);
        var outs :| PriorityRun(rest, es[1..], outs);
        WriteThenRun(q, es, out, rest, outs);
    }
  }
}
