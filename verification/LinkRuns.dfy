/** What every run of the link keeps, for all five disciplines: no packet is reordered, altered or
    duplicated, the log accounts for every packet and byte, and no packet leaves before it came. */
module LinkRuns {
  import opened Text
  import opened Packets
  import opened Discipline
  import opened Link
  import Schedule

  /** The packet in transit, if any, and the queue behind it. */
  function Waiting(t: Traffic): seq<Packet> {
    (if t.left > 0 then [t.transit] else []) + Pkts(t.queue)
  }

  function SentPackets(ds: seq<Delivery>): (ps: seq<Packet>)
    ensures |ps| == |ds| && forall k :: 0 <= k < |ds| ==> ps[k] == ds[k].packet
  {
    if ds == [] then [] else SentPackets(ds[..|ds| - 1]) + [ds[|ds| - 1].packet]
  }

  // ---------------------------------------------------------------- log totals

  /** Packets and bytes. */
  datatype Amount = Amount(packets: int, bytes: int)

  function Plus(a: Amount, b: Amount): Amount {
    Amount(a.packets + b.packets, a.bytes + b.bytes)
  }

  /** Totals of a log: what arrived, departed and was dropped. */
  datatype Totals = Totals(arrived: Amount, departed: Amount, dropped: Amount)

  function Count(t: Totals, e: LogEntry): Totals {
    match e
    case Arrival(_, size) => t.(arrived := Plus(t.arrived, Amount(1, size)))
    case Departure(_, size, _) => t.(departed := Plus(t.departed, Amount(1, size)))
    case Drop(_, packets, bytes) => t.(dropped := Plus(t.dropped, Amount(packets, bytes)))
    case Opportunity(_, _) => t
  }

  function Tally(log: seq<LogEntry>): Totals {
    if log == [] then Totals(Amount(0, 0), Amount(0, 0), Amount(0, 0))
    else Count(Tally(log[..|log| - 1]), log[|log| - 1])
  }

  lemma TallySnoc(log: seq<LogEntry>, e: LogEntry)
    ensures Tally(log + [e]) == Count(Tally(log), e)
  {
    assert (log + [e])[..|log|] == log;
  }

  function Size(ps: seq<Packet>): Amount {
    Amount(|ps|, Bytes(ps))
  }

  lemma SizeConcat(a: seq<Packet>, b: seq<Packet>)
    ensures Size(a + b) == Plus(Size(a), Size(b))
  {
    hide Bytes;
    BytesConcat(a, b);
  }

  // ---------------------------------------------------------------- the invariant

  /** Arrived = departed + dropped on arrival + waiting (a packet in transit in full) + discarded
      by the queue when asked for a packet. */
  ghost predicate Balanced(t: Traffic) {
    var n := Tally(t.log);
    n.arrived == Plus(Plus(n.departed, n.dropped), Plus(Size(Waiting(t)), Size(t.discarded)))
  }

  /** Packets pass in order, each once and unaltered; an infinite queue loses none. */
  ghost predicate Ordered(t: Traffic) {
    && Subsequence(SentPackets(t.sent) + Waiting(t), t.arrived)
    && (t.queue.Infinite? ==> SentPackets(t.sent) + Waiting(t) == t.arrived)
  }

  /** Everything waiting arrived before `bound`, and nothing departed without delay. */
  ghost predicate Causal(t: Traffic, bound: nat) {
    && (forall k :: 0 <= k < |Waiting(t)| ==> Waiting(t)[k].arrival < bound)
    && (forall k :: 0 <= k < |t.log| && t.log[k].Departure? ==> t.log[k].delay > 0)
  }

  /** The log lines of the packets sent. */
  function Lines(ds: seq<Delivery>): seq<LogEntry> {
    if ds == [] then []
    else
      var d := ds[|ds| - 1];
      Lines(ds[..|ds| - 1]) + [Departure(d.time, |d.packet.contents|, d.time - d.packet.arrival)]
  }

  function DepartureLines(log: seq<LogEntry>): seq<LogEntry> {
    if log == [] then []
    else DepartureLines(log[..|log| - 1]) + if log[|log| - 1].Departure? then [log[|log| - 1]] else []
  }

  lemma LinesSnoc(log: seq<LogEntry>, e: LogEntry, ds: seq<Delivery>, d: Delivery)
    ensures DepartureLines(log + [e]) == DepartureLines(log) + if e.Departure? then [e] else []
    ensures Lines(ds + [d]) == Lines(ds) + [Departure(d.time, |d.packet.contents|, d.time - d.packet.arrival)]
  {
    assert (log + [e])[..|log|] == log;
    assert (ds + [d])[..|ds|] == ds;
  }

  /** The departures in the log are just the packets sent, with their times and delays. */
  ghost predicate Recorded(t: Traffic) {
    DepartureLines(t.log) == Lines(t.sent)
  }

  ghost predicate Tidy(t: Traffic) {
    && Sound(t.queue) && Sendable(Waiting(t))
    && t.left <= |t.transit.contents|
    && (t.discarded != [] ==> t.queue.CoDel?)
  }

  ghost predicate Kept(t: Traffic, bound: nat) {
    Tidy(t) && Balanced(t) && Ordered(t) && Recorded(t) && Causal(t, bound)
  }

  // ---------------------------------------------------------------- loading and sending

  lemma WaitingAfterLoad(t: Traffic, env: Env)
    requires Tidy(t) && t.left == 0 && Pkts(t.queue) != []
    ensures var u, r := Load(t, env), Dequeue(t.queue, env, t.ticks);
            && Waiting(t) == [r.p] + r.discarded + Pkts(r.q)
            && Waiting(u) == [r.p] + Pkts(r.q)
            && SameKind(t.queue, u.queue) && Tidy(u) && 0 < u.left
  {
    hide Dequeue, Sound, SameKind, Pkts, Sendable, Waiting;
    DequeueLaw(t.queue, env, t.ticks);
    var r, u := Dequeue(t.queue, env, t.ticks), Load(t, env);
    WaitingIdle(t);
    SendableParts(Waiting(t), r.p, r.discarded, Pkts(r.q));
    WaitingLoaded(u);
    SendableCons(r.p, Pkts(r.q));
    KindOnly(t.queue, r.q);
  }

  lemma WaitingIdle(t: Traffic)
    requires t.left == 0
    ensures Waiting(t) == Pkts(t.queue)
  {
    hide Pkts;
    assert [] + Pkts(t.queue) == Pkts(t.queue);
  }

  lemma WaitingLoaded(t: Traffic)
    requires t.left > 0
    ensures Waiting(t) == [t.transit] + Pkts(t.queue)
  {
  }

  lemma SendableParts(ps: seq<Packet>, p: Packet, gone: seq<Packet>, rest: seq<Packet>)
    requires ps == [p] + gone + rest && Sendable(ps)
    ensures 0 < |p.contents| <= PACKET_SIZE && Sendable(rest)
  {
    assert ps[0] == p;
    assert forall k :: 0 <= k < |rest| ==> rest[k] == ps[1 + |gone| + k];
  }

  lemma SendableCons(p: Packet, ps: seq<Packet>)
    requires 0 < |p.contents| <= PACKET_SIZE && Sendable(ps)
    ensures Sendable([p] + ps)
  {
  }

  lemma KindOnly(a: Queue, b: Queue)
    requires SameKind(a, b)
    ensures a.CoDel? <==> b.CoDel?
    ensures a.Infinite? <==> b.Infinite?
  {
  }

  lemma LoadKeeps(t: Traffic, env: Env, bound: nat)
    requires Kept(t, bound) && t.left == 0 && Pkts(t.queue) != []
    ensures Kept(Load(t, env), bound)
  {
    hide Tidy, Balanced, Ordered, Causal, Waiting, Pkts, Dequeue, SameKind, Lines, DepartureLines;
    WaitingAfterLoad(t, env);
    LoadOrders(t, env);
    LoadBalances(t, env);
    LoadCausal(t, env, bound);
  }

  lemma LoadOrders(t: Traffic, env: Env)
    requires Tidy(t) && Ordered(t) && t.left == 0 && Pkts(t.queue) != []
    ensures Ordered(Load(t, env))
  {
    hide Dequeue, Tidy, SameKind, Waiting, Pkts, Subsequence, SentPackets;
    WaitingAfterLoad(t, env);
    var u, r, s := Load(t, env), Dequeue(t.queue, env, t.ticks), SentPackets(t.sent);
    KindOnly(t.queue, u.queue);
    OrderedCut(s, r.p, r.discarded, Pkts(r.q), t.arrived);
    if t.queue.Infinite? {
      InfiniteDiscardsNothing(t, env);
      assert [r.p] + [] + Pkts(r.q) == [r.p] + Pkts(r.q);
    }
  }

  lemma OrderedCut(s: seq<Packet>, p: Packet, gone: seq<Packet>, rest: seq<Packet>, ys: seq<Packet>)
    requires Subsequence(s + ([p] + gone + rest), ys)
    ensures Subsequence(s + ([p] + rest), ys)
  {
    hide Subsequence;
    assert s + ([p] + gone + rest) == (s + [p]) + gone + rest;
    assert s + ([p] + rest) == (s + [p]) + rest;
    SubsequenceCut(s + [p], gone, rest, ys);
  }

  lemma LoadCausal(t: Traffic, env: Env, bound: nat)
    requires Tidy(t) && Causal(t, bound) && t.left == 0 && Pkts(t.queue) != []
    ensures Causal(Load(t, env), bound)
  {
    hide Dequeue, Tidy, SameKind, Waiting, Pkts;
    WaitingAfterLoad(t, env);
    var u, r := Load(t, env), Dequeue(t.queue, env, t.ticks);
    forall k | 0 <= k < |Waiting(u)|
      ensures Waiting(u)[k].arrival < bound
    {
      assert Waiting(u)[k] == Waiting(t)[if k == 0 then 0 else k + |r.discarded|];
    }
  }

  lemma InfiniteDiscardsNothing(t: Traffic, env: Env)
    requires t.queue.Infinite? && Pkts(t.queue) != []
    ensures Dequeue(t.queue, env, t.ticks).discarded == []
  {
  }

  lemma LoadBalances(t: Traffic, env: Env)
    requires Tidy(t) && Balanced(t) && t.left == 0 && Pkts(t.queue) != []
    ensures Balanced(Load(t, env))
  {
    hide Dequeue, Tidy, SameKind, Waiting;
    WaitingAfterLoad(t, env);
    var r := Dequeue(t.queue, env, t.ticks);
    SizeConcat([r.p] + r.discarded, Pkts(r.q));
    SizeConcat([r.p], r.discarded);
    SizeConcat([r.p], Pkts(r.q));
    SizeConcat(t.discarded, r.discarded);
  }

  lemma SendKeeps(t: Traffic, time: nat, amount: nat, bound: nat)
    requires Kept(t, bound) && bound <= time && 0 < amount <= t.left
    ensures Kept(Send(t, time, amount), bound)
  {
    var u := Send(t, time, amount);
    assert Waiting(t)[0] == t.transit;
    if amount == t.left {
      WholePacketSent(t, time, bound);
    } else {
      assert Waiting(u) == Waiting(t);
    }
  }

  lemma WholePacketSent(t: Traffic, time: nat, bound: nat)
    requires Kept(t, bound) && bound <= time && 0 < t.left
    ensures Kept(Send(t, time, t.left), bound)
  {
    hide Tidy, Balanced, Ordered, Recorded, Causal, Waiting, Pkts, Send;
    var u, rest := Send(t, time, t.left), Pkts(t.queue);
    WaitingAfterDeparture(t, time);
    DepartureTidy(t, time);
    DepartureCausal(t, u, rest, time, bound);
    DepartureRecorded(t, time);
    DepartureBalances(t, u, rest, time);
    DepartureOrders(t, u, rest, time);
  }

  lemma WaitingAfterDeparture(t: Traffic, time: nat)
    requires 0 < t.left
    ensures Waiting(t) == [t.transit] + Pkts(t.queue) && Waiting(Send(t, time, t.left)) == Pkts(t.queue)
  {
    hide Pkts;
  }

  lemma DepartureTidy(t: Traffic, time: nat)
    requires Tidy(t) && 0 < t.left
    ensures Tidy(Send(t, time, t.left))
  {
    hide Sound, Waiting, Pkts;
    WaitingAfterDeparture(t, time);
    var rest := Pkts(t.queue);
    assert forall k :: 0 <= k < |rest| ==> rest[k] == ([t.transit] + rest)[k + 1];
  }

  lemma DepartureRecorded(t: Traffic, time: nat)
    requires Recorded(t) && 0 < t.left
    ensures Recorded(Send(t, time, t.left))
  {
    hide Lines, DepartureLines;
    var departure := Departure(time, |t.transit.contents|, time - t.transit.arrival);
    LinesSnoc(t.log, departure, t.sent, Delivery(t.transit, time));
  }

  lemma DepartureCausal(t: Traffic, u: Traffic, rest: seq<Packet>, time: nat, bound: nat)
    requires Causal(t, bound) && bound <= time && 0 < t.left && u == Send(t, time, t.left)
    requires Waiting(t) == [t.transit] + rest && Waiting(u) == rest
    ensures Causal(u, bound)
  {
    hide Waiting;
    assert ([t.transit] + rest)[0] == t.transit;
    assert forall k :: 0 <= k < |rest| ==> rest[k] == ([t.transit] + rest)[k + 1];
  }

  lemma DepartureBalances(t: Traffic, u: Traffic, rest: seq<Packet>, time: nat)
    requires Balanced(t) && 0 < t.left && u == Send(t, time, t.left)
    requires Waiting(t) == [t.transit] + rest && Waiting(u) == rest
    ensures Balanced(u)
  {
    hide Tally, Waiting, Bytes;
    TallySnoc(t.log, Departure(time, |t.transit.contents|, time - t.transit.arrival));
    SizeConcat([t.transit], rest);
    OneSize(t.transit);
  }

  lemma DepartureOrders(t: Traffic, u: Traffic, rest: seq<Packet>, time: nat)
    requires Ordered(t) && 0 < t.left && u == Send(t, time, t.left)
    requires Waiting(t) == [t.transit] + rest && Waiting(u) == rest
    ensures Ordered(u)
  {
    hide Subsequence, Waiting, SentPackets;
    SentSnoc(t.sent, Delivery(t.transit, time));
    assert SentPackets(t.sent) + [t.transit] + rest == SentPackets(t.sent) + ([t.transit] + rest);
  }

  lemma SentSnoc(ds: seq<Delivery>, d: Delivery)
    ensures SentPackets(ds + [d]) == SentPackets(ds) + [d.packet]
  {
    assert (ds + [d])[..|ds|] == ds;
  }

  lemma OneSize(p: Packet)
    ensures Size([p]) == Amount(1, |p.contents|)
  {
    assert [p][1..] == [];
    assert Bytes([p]) == |p.contents| + Bytes([p][1..]);
    assert Bytes([p][1..]) == 0;
  }

  /** The inner loop keeps the invariant; the four assertions in it hold (see LinkQueue). */
  lemma {:induction false} FillKeeps(t: Traffic, env: Env, time: nat, room: nat, bound: nat)
    requires Kept(t, bound) && bound <= time
    ensures Kept(Fill(t, env, time, room), bound)
    decreases room
  {
    hide Kept, Load, Send;
    if room != 0 && !(t.left == 0 && Pkts(t.queue) == []) {
      if t.left == 0 {
        LoadKeeps(t, env, bound);
        LoadedIsPositive(t, env, bound);
      }
      var u := if t.left == 0 then Load(t, env) else t;
      SendKeeps(u, time, Min(room, u.left), bound);
      FillKeeps(Send(u, time, Min(room, u.left)), env, time, room - Min(room, u.left), bound);
    }
  }

  lemma LoadedIsPositive(t: Traffic, env: Env, bound: nat)
    requires Kept(t, bound) && t.left == 0 && Pkts(t.queue) != []
    ensures Load(t, env).left > 0
  {
    WaitingAfterLoad(t, env);
  }

  // ---------------------------------------------------------------- the outer loop

  /** Invariant of the link: the bound on arrivals is the next delivery time. */
  ghost predicate Consistent(cfg: Schedule.Config, l: State) {
    && InRange(cfg, l)
    && match Schedule.NextTime(cfg, l.timer)
       case None => exists bound: nat :: Kept(l.traffic, bound)
       case Some(time) => Kept(l.traffic, time)
  }

  lemma LaterBound(t: Traffic, bound: nat, later: nat)
    requires Kept(t, bound) && bound <= later
    ensures Kept(t, later)
  {
    hide Tidy, Balanced, Ordered, Recorded;
  }

  lemma OpportunityLogged(t: Traffic, time: nat, bound: nat)
    requires Kept(t, bound)
    ensures Kept(t.(log := t.log + [Opportunity(time, PACKET_SIZE)]), bound)
  {
    hide Tidy, Ordered, Waiting, Size, Tally, Lines, DepartureLines;
    var u := t.(log := t.log + [Opportunity(time, PACKET_SIZE)]);
    SameWaiting(t, u);
    LinesSnoc(t.log, Opportunity(time, PACKET_SIZE), [], Delivery(t.transit, time));
    assert DepartureLines(t.log) + [] == DepartureLines(t.log);
    TallySnoc(t.log, Opportunity(time, PACKET_SIZE));
    assert Tally(u.log) == Tally(t.log);
    assert Balanced(u);
  }

  lemma SameWaiting(t: Traffic, u: Traffic)
    requires u == t.(log := u.log)
    ensures Waiting(u) == Waiting(t) && (Tidy(u) <==> Tidy(t)) && (Ordered(u) <==> Ordered(t))
  {
  }

  lemma ServeKeeps(cfg: Schedule.Config, l: State, env: Env)
    requires Consistent(cfg, l) && !l.timer.finished
    ensures Consistent(cfg, Serve(cfg, l, env))
  {
    hide Fill, Kept;
    var time := Schedule.NextTime(cfg, l.timer).value;
    var t := l.traffic.(log := l.traffic.log + [Opportunity(time, PACKET_SIZE)]);
    OpportunityLogged(l.traffic, time, time);
    FillKeeps(t, env, time, PACKET_SIZE, time);
    Schedule.UseIsLater(cfg, l.timer);
    var r := Serve(cfg, l, env);
    if !r.timer.finished {
      LaterBound(r.traffic, time, Schedule.NextTime(cfg, r.timer).value);
    }
  }

  lemma {:induction false} RationalizeKeeps(cfg: Schedule.Config, l: State, env: Env, now: nat)
    requires Consistent(cfg, l)
    ensures Consistent(cfg, Rationalize(cfg, l, env, now))
    decreases !l.timer.finished, if l.timer.base <= now then now - l.timer.base + 1 else 0,
              |cfg.schedule| - l.timer.next
  {
    hide Consistent, Serve;
    ConsistentInRange(cfg, l);
    if Schedule.Due(cfg, l.timer, now) {
      TimerDecreases(cfg, l.timer, now);
      ServeKeeps(cfg, l, env);
      ServeTimer(cfg, l, env);
      RationalizeKeeps(cfg, Serve(cfg, l, env), env, now);
    }
  }

  lemma ConsistentInRange(cfg: Schedule.Config, l: State)
    requires Consistent(cfg, l)
    ensures InRange(cfg, l)
  {
  }

  lemma ServeTimer(cfg: Schedule.Config, l: State, env: Env)
    requires Schedule.InRange(cfg, l.timer) && !l.timer.finished
    ensures Serve(cfg, l, env).timer == Schedule.Use(cfg, l.timer)
  {
    hide Fill;
  }

  // ---------------------------------------------------------------- arrivals

  /** The packet in transit as a sequence. */
  function InTransit(t: Traffic): seq<Packet> {
    if t.left > 0 then [t.transit] else []
  }

  lemma WaitingParts(t: Traffic)
    ensures Waiting(t) == InTransit(t) + Pkts(t.queue)
    ensures forall s: seq<Packet> :: s + Waiting(t) == (s + InTransit(t)) + Pkts(t.queue)
  {
  }

  /** A suffix of what follows `s` still follows it in order. */
  lemma SuffixOrdered(s: seq<Packet>, all: seq<Packet>, r: seq<Packet>, ys: seq<Packet>)
    requires Subsequence(s + all, ys) && SuffixOf(r, all)
    ensures Subsequence(s + r, ys)
  {
    hide Subsequence;
    var k := |all| - |r|;
    assert s + all == s + all[..k] + r;
    SubsequenceCut(s, all[..k], r, ys);
  }

  /** A packet that arrives joins at the back of what is in order, and may push out the front. */
  lemma ArrivalOrdered(s: seq<Packet>, ps: seq<Packet>, p: Packet, r: seq<Packet>, ys: seq<Packet>)
    requires Subsequence(s + ps, ys) && (r == ps || SuffixOf(r, ps + [p]))
    ensures Subsequence(s + r, ys + [p])
  {
    hide Subsequence, SuffixOf;
    SubsequenceSnoc(s + ps, ys, p);
    if r != ps {
      assert (s + ps) + [p] == s + (ps + [p]);
      SuffixOrdered(s, ps + [p], r, ys + [p]);
    }
  }

  lemma AdmitOrders(t: Traffic, p: Packet, env: Env, now: nat)
    requires Tidy(t) && Ordered(t)
    ensures Ordered(Admit(t, p, env, now))
  {
    hide Enqueue, Sound, SameKind, Subsequence, Waiting, SentPackets, DropRecord, InTransit, SuffixOf, Pkts;
    var q, u := Enqueue(t.queue, p, env, t.ticks), Admit(t, p, env, now);
    EnqueueLaw(t.queue, p, env, t.ticks);
    KindOnly(t.queue, q);
    WaitingParts(t);
    WaitingParts(u);
    SameTransit(t, u);
    var s, ps := SentPackets(t.sent) + InTransit(t), Pkts(t.queue);
    ArrivalOrdered(s, ps, p, Pkts(q), t.arrived);
    assert t.queue.Infinite? ==> s + ps + [p] == s + (ps + [p]);
  }

  lemma SameTransit(t: Traffic, u: Traffic)
    requires t.left == u.left && t.transit == u.transit
    ensures InTransit(t) == InTransit(u)
  {
  }

  lemma AdmitBalances(t: Traffic, p: Packet, env: Env, now: nat)
    requires Tidy(t) && Balanced(t)
    ensures Balanced(Admit(t, p, env, now))
  {
    hide Enqueue, Sound, Tally, Waiting, Bytes, Pkts;
    var q, u := Enqueue(t.queue, p, env, t.ticks), Admit(t, p, env, now);
    EnqueueGrowth(t.queue, p, env, t.ticks);
    WaitingParts(t);
    WaitingParts(u);
    SizeConcat(InTransit(t), Pkts(t.queue));
    SizeConcat(InTransit(t), Pkts(q));
    TallyArrival(t.log, t.queue, p, q, now);
  }

  /** The log entries of an arrival: the packet in, and out again whatever the queue lost. */
  lemma TallyArrival(log: seq<LogEntry>, before: Queue, p: Packet, after: Queue, now: nat)
    requires |Pkts(after)| <= |Pkts(before)| + 1 && Bytes(Pkts(after)) <= Bytes(Pkts(before)) + |p.contents|
    ensures var n, m := Tally(log), Tally(log + [Arrival(now, |p.contents|)] + DropRecord(before, p, after, now));
            && m.arrived == Plus(n.arrived, Amount(1, |p.contents|)) && m.departed == n.departed
            && m.dropped == Plus(n.dropped, Amount(|Pkts(before)| + 1 - |Pkts(after)|,
                                                   Bytes(Pkts(before)) + |p.contents| - Bytes(Pkts(after))))
  {
    hide Tally, Bytes, Pkts;
    var arrival, drops := Arrival(now, |p.contents|), DropRecord(before, p, after, now);
    TallySnoc(log, arrival);
    if drops == [] {
      assert log + [arrival] + drops == log + [arrival];
    } else {
      TallySnoc(log + [arrival], drops[0]);
      assert drops == [drops[0]];
    }
  }

  lemma AdmitTidy(t: Traffic, p: Packet, env: Env, now: nat)
    requires Tidy(t) && 0 < |p.contents| <= PACKET_SIZE
    ensures Tidy(Admit(t, p, env, now))
  {
    hide Enqueue, Sound, DropRecord;
    var q := Enqueue(t.queue, p, env, t.ticks);
    EnqueueLaw(t.queue, p, env, t.ticks);
    AdmittedWere(t, p, env, now);
  }

  /** What waits after an arrival waited before or is what arrived. */
  lemma AdmittedWere(t: Traffic, p: Packet, env: Env, now: nat)
    requires Tidy(t)
    ensures var u := Admit(t, p, env, now);
            forall k :: 0 <= k < |Waiting(u)| ==> Waiting(u)[k] == p || Waiting(u)[k] in Waiting(t)
  {
    hide Enqueue, Sound, DropRecord, SameKind;
    var q := Enqueue(t.queue, p, env, t.ticks);
    EnqueueLaw(t.queue, p, env, t.ticks);
    var all := Pkts(t.queue) + [p];
    forall x | x in Pkts(q)
      ensures x == p || x in Pkts(t.queue)
    {
      if Pkts(q) != Pkts(t.queue) {
        assert x in all;
      }
    }
  }

  lemma AdmitRecords(t: Traffic, p: Packet, env: Env, now: nat)
    requires Recorded(t)
    ensures Recorded(Admit(t, p, env, now))
  {
    hide Enqueue, Lines, DepartureLines;
    var arrival, drops := Arrival(now, |p.contents|), DropRecord(t.queue, p, Enqueue(t.queue, p, env, t.ticks), now);
    var none := Delivery(p, now);
    LinesSnoc(t.log, arrival, [], none);
    assert DepartureLines(t.log) + [] == DepartureLines(t.log);
    if drops == [] {
      assert t.log + [arrival] + drops == t.log + [arrival];
    } else {
      LinesSnoc(t.log + [arrival], drops[0], [], none);
      assert drops == [drops[0]];
    }
  }

  lemma AdmitKeeps(t: Traffic, p: Packet, env: Env, now: nat, bound: nat)
    requires Kept(t, bound) && 0 < |p.contents| <= PACKET_SIZE && p.arrival < bound
    ensures Kept(Admit(t, p, env, now), bound)
  {
    hide Tidy, Balanced, Ordered, Recorded, Enqueue, Waiting;
    AdmitTidy(t, p, env, now);
    AdmitRecords(t, p, env, now);
    AdmitBalances(t, p, env, now);
    AdmitOrders(t, p, env, now);
    AdmittedWere(t, p, env, now);
  }

  /** The caller hands over what it read from the tunnel device, which is never empty. */
  lemma ReceiveKeeps(cfg: Schedule.Config, l: State, contents: string, env: Env, now: nat)
    requires Consistent(cfg, l) && contents != "" && Receive(cfg, l, contents, env, now).Some?
    ensures Consistent(cfg, Receive(cfg, l, contents, env, now).value)
  {
    hide Rationalize, Kept, Admit;
    RationalizeKeeps(cfg, l, env, now);
    var r := Rationalize(cfg, l, env, now);
    var p := Packet(contents, now);
    if r.timer.finished {
      var bound: nat :| Kept(r.traffic, bound);
      var later := if bound > now then bound else now + 1;
      LaterBound(r.traffic, bound, later);
      AdmitKeeps(r.traffic, p, env, now, later);
    } else {
      AdmitKeeps(r.traffic, p, env, now, Schedule.NextTime(cfg, r.timer).value);
    }
  }

  // ---------------------------------------------------------------- runs

  ghost predicate NonEmpty(es: seq<Event>) {
    forall k :: 0 <= k < |es| && es[k].Incoming? ==> es[k].contents != ""
  }

  lemma {:induction false} RunKeeps(cfg: Schedule.Config, l: State, w: World, es: seq<Event>)
    requires Consistent(cfg, l) && NonEmpty(es) && Run(cfg, l, w, es).Some?
    ensures Consistent(cfg, Run(cfg, l, w, es).value)
    decreases |es|
  {
    hide Consistent, Rationalize, Receive;
    ConsistentInRange(cfg, l);
    if es != [] {
      var env := Readings(w, es[0].now);
      match es[0] {
      case Poll(now) => RationalizeKeeps(cfg, l, env, now);
      case Incoming(now, contents) => ReceiveKeeps(cfg, l, contents, env, now);
      }
      RunKeeps(cfg, Handle(cfg, l, w, es[0]).value, w, es[1..]);
    }
  }

  ghost predicate Empty(q: Queue) {
    Pkts(q) == [] && Sound(q)
  }

  lemma StartConsistent(cfg: Schedule.Config, queue: Queue, base: nat)
    requires Schedule.Valid(cfg) && Empty(queue)
    ensures Consistent(cfg, Start(queue, base))
  {
    hide Kept;
    var time := cfg.schedule[0] + base;
    NothingYet(Start(queue, base).traffic, time);
  }

  lemma NothingYet(t: Traffic, bound: nat)
    requires Empty(t.queue) && t == Traffic(t.queue, Packet("", 0), 0, [], [], [], [], 0)
    ensures Kept(t, bound)
  {
    hide Sound, Pkts;
    assert Waiting(t) == [] && SentPackets([]) == [];
    hide Waiting, SentPackets;
    NoSize();
    assert [] + Waiting(t) == [];
    assert Picks<Packet>([], [], []);
  }

  lemma NoSize()
    ensures Size([]) == Amount(0, 0)
  {
  }

  /** Every run from a fresh link, with any discipline, keeps the invariant. */
  lemma EveryRun(cfg: Schedule.Config, queue: Queue, base: nat, w: World, es: seq<Event>)
    requires Schedule.Valid(cfg) && Empty(queue) && NonEmpty(es)
    requires Run(cfg, Start(queue, base), w, es).Some?
    ensures Consistent(cfg, Run(cfg, Start(queue, base), w, es).value)
  {
    StartConsistent(cfg, queue, base);
    RunKeeps(cfg, Start(queue, base), w, es);
  }

  /** Order and integrity: what was sent is a subsequence of what arrived, and for the infinite
      queue a prefix of it. */
  lemma SentInOrder(cfg: Schedule.Config, l: State)
    requires Consistent(cfg, l)
    ensures Subsequence(SentPackets(l.traffic.sent), l.traffic.arrived)
    ensures l.traffic.queue.Infinite? ==> SentPackets(l.traffic.sent) <= l.traffic.arrived
  {
    hide Waiting, SentPackets, Recorded, Causal, Balanced, Tidy;
    var t := l.traffic;
    var s := SentPackets(t.sent);
    assert s + Waiting(t) + [] == s + Waiting(t);
    SubsequenceCut(s, Waiting(t), [], t.arrived);
    assert s + [] == s;
  }

  /** The log balances - arrivals equal departures, drops and what is waiting - in packets and in
      bytes, iff the queue discarded nothing when asked for packets. */
  lemma LogBalances(cfg: Schedule.Config, l: State)
    requires Consistent(cfg, l)
    ensures var n := Tally(l.traffic.log);
            n.arrived == Plus(Plus(n.departed, n.dropped), Size(Waiting(l.traffic))) <==> l.traffic.discarded == []
    ensures !l.traffic.queue.CoDel? ==> l.traffic.discarded == []
    ensures Balanced(l.traffic)
  {
    hide Kept;
    var bound: nat :| Kept(l.traffic, bound);
    TrafficBalances(l.traffic, bound);
  }

  lemma TrafficBalances(t: Traffic, bound: nat)
    requires Kept(t, bound)
    ensures var n := Tally(t.log);
            n.arrived == Plus(Plus(n.departed, n.dropped), Size(Waiting(t))) <==> t.discarded == []
    ensures !t.queue.CoDel? ==> t.discarded == []
    ensures Balanced(t)
  {
    hide Tally, Waiting, Ordered, Recorded, Causal, Sound, Sendable, Bytes;
    NoSize();
    assert Size(t.discarded) == Amount(0, 0) <==> t.discarded == [] by {
      if t.discarded == [] { NoSize(); }
    }
  }

  /** Nothing leaves before it came: every delay logged is positive, and whatever waits arrived
      before the next delivery time. */
  lemma NothingLeavesEarly(cfg: Schedule.Config, l: State)
    requires Consistent(cfg, l)
    ensures forall k :: 0 <= k < |l.traffic.log| && l.traffic.log[k].Departure? ==> l.traffic.log[k].delay > 0
    ensures !l.timer.finished ==>
              forall k :: 0 <= k < |Waiting(l.traffic)| ==>
                            Waiting(l.traffic)[k].arrival < Schedule.NextTime(cfg, l.timer).value
  {
    hide Tidy, Balanced, Ordered, Recorded;
  }

  /** The log lists the packets sent, in order. */
  lemma LogListsSent(cfg: Schedule.Config, l: State)
    requires Consistent(cfg, l)
    ensures DepartureLines(l.traffic.log) == Lines(l.traffic.sent)
  {
    hide Tidy, Balanced, Ordered, Causal;
  }

  // ---------------------------------------------------------------- what arrived

  function PacketsOf(es: seq<Event>): seq<Packet> {
    if es == [] then []
    else (if es[0].Incoming? then [Packet(es[0].contents, es[0].now)] else []) + PacketsOf(es[1..])
  }

  lemma {:induction false} FillArrived(t: Traffic, env: Env, time: nat, room: nat)
    ensures Fill(t, env, time, room).arrived == t.arrived
    decreases room
  {
    hide Dequeue;
    if room != 0 && !(t.left == 0 && Pkts(t.queue) == []) {
      var u := if t.left == 0 then Load(t, env) else t;
      if u.left != 0 {
        FillArrived(Send(u, time, Min(room, u.left)), env, time, room - Min(room, u.left));
      }
    }
  }

  lemma {:induction false} RationalizeArrived(cfg: Schedule.Config, l: State, env: Env, now: nat)
    requires InRange(cfg, l)
    ensures Rationalize(cfg, l, env, now).traffic.arrived == l.traffic.arrived
    decreases !l.timer.finished, if l.timer.base <= now then now - l.timer.base + 1 else 0,
              |cfg.schedule| - l.timer.next
  {
    hide Fill;
    if Schedule.Due(cfg, l.timer, now) {
      TimerDecreases(cfg, l.timer, now);
      var time := Schedule.NextTime(cfg, l.timer).value;
      FillArrived(l.traffic.(log := l.traffic.log + [Opportunity(time, PACKET_SIZE)]), env, time, PACKET_SIZE);
      RationalizeArrived(cfg, Serve(cfg, l, env), env, now);
    }
  }

  lemma HandleArrived(cfg: Schedule.Config, l: State, w: World, e: Event)
    requires InRange(cfg, l) && Handle(cfg, l, w, e).Some?
    ensures Handle(cfg, l, w, e).value.traffic.arrived == l.traffic.arrived + PacketsOf([e])
  {
    hide Rationalize, Enqueue, DropRecord;
    RationalizeArrived(cfg, l, Readings(w, e.now), e.now);
    assert [e][1..] == [];
  }

  /** The arrivals recorded are those of the run. */
  lemma {:induction false} RunArrived(cfg: Schedule.Config, l: State, w: World, es: seq<Event>)
    requires InRange(cfg, l) && Run(cfg, l, w, es).Some?
    ensures Run(cfg, l, w, es).value.traffic.arrived == l.traffic.arrived + PacketsOf(es)
    decreases |es|
  {
    hide Handle;
    if es == [] {
      assert l.traffic.arrived + [] == l.traffic.arrived;
    } else {
      HandleArrived(cfg, l, w, es[0]);
      RunArrived(cfg, Handle(cfg, l, w, es[0]).value, w, es[1..]);
      PacketsOfHead(es);
      assert l.traffic.arrived + PacketsOf([es[0]]) + PacketsOf(es[1..]) ==
             l.traffic.arrived + (PacketsOf([es[0]]) + PacketsOf(es[1..]));
    }
  }

  lemma PacketsOfHead(es: seq<Event>)
    requires es != []
    ensures PacketsOf(es) == PacketsOf([es[0]]) + PacketsOf(es[1..])
  {
    assert [es[0]][1..] == [];
  }

  /** Order over whole runs, for every discipline: the packets sent are a subsequence of the
      packets of the run, and with an infinite queue the first of them. */
  lemma RunSendsInOrder(cfg: Schedule.Config, queue: Queue, base: nat, w: World, es: seq<Event>)
    requires Schedule.Valid(cfg) && Empty(queue) && NonEmpty(es)
    requires Run(cfg, Start(queue, base), w, es).Some?
    ensures var t := Run(cfg, Start(queue, base), w, es).value.traffic;
            && Subsequence(SentPackets(t.sent), PacketsOf(es))
            && (t.queue.Infinite? ==> SentPackets(t.sent) <= PacketsOf(es))
  {
    hide Run, Consistent, Subsequence, SentPackets;
    var l := Start(queue, base);
    EveryRun(cfg, queue, base, w, es);
    RunArrived(cfg, l, w, es);
    assert [] + PacketsOf(es) == PacketsOf(es);
    SentInOrder(cfg, Run(cfg, l, w, es).value);
  }

  /** Conservation over whole runs, for every discipline: what arrived is what departed, was dropped
      on arrival, waits, or was discarded by the queue when asked for packets, which only CoDel does
      (LinkDiscards says when); the log lists the packets sent, and every logged delay is positive. */
  lemma RunConserves(cfg: Schedule.Config, queue: Queue, base: nat, w: World, es: seq<Event>)
    requires Schedule.Valid(cfg) && Empty(queue) && NonEmpty(es)
    requires Run(cfg, Start(queue, base), w, es).Some?
    ensures var t := Run(cfg, Start(queue, base), w, es).value.traffic;
            var n := Tally(t.log);
            && n.arrived == Plus(Plus(n.departed, n.dropped), Plus(Size(Waiting(t)), Size(t.discarded)))
            && (n.arrived == Plus(Plus(n.departed, n.dropped), Size(Waiting(t))) <==> t.discarded == [])
            && (!t.queue.CoDel? ==> t.discarded == [])
            && DepartureLines(t.log) == Lines(t.sent)
            && forall k :: 0 <= k < |t.log| && t.log[k].Departure? ==> t.log[k].delay > 0
  {
    hide Run, Consistent, Tally, Waiting, Lines, DepartureLines;
    EveryRun(cfg, queue, base, w, es);
    var l := Run(cfg, Start(queue, base), w, es).value;
    LogBalances(cfg, l);
    LogListsSent(cfg, l);
    NothingLeavesEarly(cfg, l);
  }
}
