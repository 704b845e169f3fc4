/** What the log of a link says, line by line: the arrivals of the run, and the opportunities used, each at
    the time that the schedule gives it. */
module LinkLog {
  import opened Text
  import opened Packets
  import opened Discipline
  import opened Link
  import opened LinkRuns
  import Schedule

  function ArrivalLines(log: seq<LogEntry>): seq<LogEntry> {
    if log == [] then []
    else ArrivalLines(log[..|log| - 1]) + if log[|log| - 1].Arrival? then [log[|log| - 1]] else []
  }

  function OpportunityLines(log: seq<LogEntry>): seq<LogEntry> {
    if log == [] then []
    else OpportunityLines(log[..|log| - 1]) + if log[|log| - 1].Opportunity? then [log[|log| - 1]] else []
  }

  lemma LinesOfSnoc(log: seq<LogEntry>, e: LogEntry)
    ensures ArrivalLines(log + [e]) == ArrivalLines(log) + if e.Arrival? then [e] else []
    ensures OpportunityLines(log + [e]) == OpportunityLines(log) + if e.Opportunity? then [e] else []
  {
    assert (log + [e])[..|log|] == log;
  }

  /** The lines for packets that arrived. */
  function Arrived(ps: seq<Packet>): seq<LogEntry> {
    if ps == [] then []
    else Arrived(ps[..|ps| - 1]) + [Arrival(ps[|ps| - 1].arrival, |ps[|ps| - 1].contents|)]
  }

  /** The lines for the first `n` opportunities of a schedule, at their times. */
  function Used(cfg: Schedule.Config, start: Schedule.Timer, n: nat): seq<LogEntry>
    requires Schedule.InRange(cfg, start)
  {
    if n == 0 then []
    else
      Used(cfg, start, n - 1)
      + match Schedule.NextTime(cfg, Schedule.UseMany(cfg, start, n - 1))
        case None => []
        case Some(time) => [Opportunity(time, 1504)]
  }

  /** The log lists arrivals and opportunities so, `n` of them having been used. */
  ghost predicate Listed(cfg: Schedule.Config, start: Schedule.Timer, n: nat, l: State)
    requires Schedule.InRange(cfg, start)
  {
    && l.timer == Schedule.UseMany(cfg, start, n)
    && OpportunityLines(l.traffic.log) == Used(cfg, start, n)
    && ArrivalLines(l.traffic.log) == Arrived(l.traffic.arrived)
  }

  /** The inner loop logs departures only. */
  lemma {:induction false} FillLogs(t: Traffic, env: Env, time: nat, room: nat)
    ensures ArrivalLines(Fill(t, env, time, room).log) == ArrivalLines(t.log)
    ensures OpportunityLines(Fill(t, env, time, room).log) == OpportunityLines(t.log)
    decreases room
  {
    hide Load, Send, Pkts, ArrivalLines, OpportunityLines;
    if room != 0 && !(t.left == 0 && Pkts(t.queue) == []) {
      if t.left == 0 {
        LoadLogs(t, env);
      }
      var u := if t.left == 0 then Load(t, env) else t;
      if u.left != 0 {
        SendLogs(u, time, Min(room, u.left));
        FillLogs(Send(u, time, Min(room, u.left)), env, time, room - Min(room, u.left));
      }
    }
  }

  lemma LoadLogs(t: Traffic, env: Env)
    requires Pkts(t.queue) != []
    ensures Load(t, env).log == t.log
  {
    hide Dequeue;
  }

  lemma SendLogs(t: Traffic, time: nat, amount: nat)
    requires amount <= t.left
    ensures ArrivalLines(Send(t, time, amount).log) == ArrivalLines(t.log)
    ensures OpportunityLines(Send(t, time, amount).log) == OpportunityLines(t.log)
  {
    hide ArrivalLines, OpportunityLines;
    LinesOfSnoc(t.log, Departure(time, |t.transit.contents|, time - t.transit.arrival));
    assert ArrivalLines(t.log) + [] == ArrivalLines(t.log) && OpportunityLines(t.log) + [] == OpportunityLines(t.log);
  }

  lemma ServeLogs(cfg: Schedule.Config, l: State, env: Env)
    requires Schedule.InRange(cfg, l.timer) && !l.timer.finished
    ensures var r, time := Serve(cfg, l, env), Schedule.NextTime(cfg, l.timer).value;
            && r.timer == Schedule.Use(cfg, l.timer) && r.traffic.arrived == l.traffic.arrived
            && OpportunityLines(r.traffic.log) == OpportunityLines(l.traffic.log) + [Opportunity(time, 1504)]
            && ArrivalLines(r.traffic.log) == ArrivalLines(l.traffic.log)
  {
    hide Fill, ArrivalLines, OpportunityLines;
    var time := Schedule.NextTime(cfg, l.timer).value;
    var t := l.traffic.(log := l.traffic.log + [Opportunity(time, PACKET_SIZE)]);
    LinesOfSnoc(l.traffic.log, Opportunity(time, PACKET_SIZE));
    assert ArrivalLines(l.traffic.log) + [] == ArrivalLines(l.traffic.log);
    FillLogs(t, env, time, PACKET_SIZE);
    FillArrived(t, env, time, PACKET_SIZE);
  }

  lemma {:induction false} CatchUpLists(cfg: Schedule.Config, start: Schedule.Timer, n: nat, l: State, env: Env,
                                        now: nat) returns (m: nat)
    requires InRange(cfg, l) && Schedule.InRange(cfg, start) && Listed(cfg, start, n, l)
    ensures m >= n && Listed(cfg, start, m, Rationalize(cfg, l, env, now))
    ensures forall k :: n <= k < m ==> Schedule.Due(cfg, Schedule.UseMany(cfg, start, k), now)
    decreases !l.timer.finished, if l.timer.base <= now then now - l.timer.base + 1 else 0,
              |cfg.schedule| - l.timer.next
  {
    hide Serve, ArrivalLines, OpportunityLines, Arrived;
    m := n;
    if Schedule.Due(cfg, l.timer, now) {
      TimerDecreases(cfg, l.timer, now);
      ServeLogs(cfg, l, env);
      Schedule.UseManyStep(cfg, start, n);
      m := CatchUpLists(cfg, start, n + 1, Serve(cfg, l, env), env, now);
    }
  }

  /** An arrival is logged with its time and size, and behind it, iff the queue lost anything, what it lost:
      packets and bytes that were queued or arrived and are not queued now. */
  lemma AdmitLogs(t: Traffic, p: Packet, env: Env, now: nat)
    requires Sound(t.queue)
    ensures var u := Admit(t, p, env, now);
            var packets := |Pkts(t.queue)| + 1 - |Pkts(u.queue)|;
            var bytes := Bytes(Pkts(t.queue)) + |p.contents| - Bytes(Pkts(u.queue));
            && packets >= 0 && bytes >= 0
            && u.log == t.log + [Arrival(now, |p.contents|)]
                        + if packets == 0 && bytes == 0 then [] else [Drop(now, packets, bytes)]
  {
    hide Enqueue, Sound, Bytes, Pkts;
    EnqueueGrowth(t.queue, p, env, t.ticks);
  }

  lemma AdmitLists(t: Traffic, p: Packet, env: Env)
    requires ArrivalLines(t.log) == Arrived(t.arrived)
    ensures var u := Admit(t, p, env, p.arrival);
            ArrivalLines(u.log) == Arrived(u.arrived) && OpportunityLines(u.log) == OpportunityLines(t.log)
  {
    hide Enqueue, ArrivalLines, OpportunityLines, DropRecord;
    var q := Enqueue(t.queue, p, env, t.ticks);
    var arrival, drops := Arrival(p.arrival, |p.contents|), DropRecord(t.queue, p, q, p.arrival);
    LinesOfSnoc(t.log, arrival);
    assert OpportunityLines(t.log) + [] == OpportunityLines(t.log);
    assert (t.arrived + [p])[..|t.arrived|] == t.arrived;
    DropsOnly(t.queue, p, q, p.arrival);
    if drops == [] {
      assert t.log + [arrival] + drops == t.log + [arrival];
    } else {
      assert drops == [drops[0]];
      LinesOfSnoc(t.log + [arrival], drops[0]);
      assert ArrivalLines(t.log + [arrival]) + [] == ArrivalLines(t.log + [arrival]);
    }
  }

  lemma DropsOnly(before: Queue, p: Packet, after: Queue, now: nat)
    ensures var drops := DropRecord(before, p, after, now); drops == [] || (|drops| == 1 && drops[0].Drop?)
  {
    hide Bytes, Pkts;
  }

  lemma HandleLists(cfg: Schedule.Config, start: Schedule.Timer, n: nat, l: State, w: World, e: Event)
    returns (m: nat)
    requires InRange(cfg, l) && Schedule.InRange(cfg, start) && Listed(cfg, start, n, l)
    requires Handle(cfg, l, w, e).Some?
    ensures m >= n && Listed(cfg, start, m, Handle(cfg, l, w, e).value)
  {
    hide Rationalize, ArrivalLines, OpportunityLines, Arrived, Used, Admit;
    var env := Readings(w, e.now);
    m := CatchUpLists(cfg, start, n, l, env, e.now);
    if e.Incoming? {
      AdmitLists(Rationalize(cfg, l, env, e.now).traffic, Packet(e.contents, e.now), env);
    }
  }

  lemma {:induction false} RunLists(cfg: Schedule.Config, start: Schedule.Timer, n: nat, l: State, w: World,
                                    es: seq<Event>) returns (m: nat)
    requires InRange(cfg, l) && Schedule.InRange(cfg, start) && Listed(cfg, start, n, l)
    requires Run(cfg, l, w, es).Some?
    ensures m >= n && Listed(cfg, start, m, Run(cfg, l, w, es).value)
    decreases |es|
  {
    hide Handle, Listed;
    m := n;
    if es != [] {
      m := HandleLists(cfg, start, n, l, w, es[0]);
      m := RunLists(cfg, start, m, Handle(cfg, l, w, es[0]).value, w, es[1..]);
    }
  }

  /** In every run from a fresh link the log lists the packets of the run as they came, and the opportunities
      used: the first so many of the schedule, at their times and of 1504 bytes each. */
  lemma LogListsEvents(cfg: Schedule.Config, queue: Queue, base: nat, w: World, es: seq<Event>) returns (n: nat)
    requires Schedule.Valid(cfg) && Run(cfg, Start(queue, base), w, es).Some?
    ensures var r := Run(cfg, Start(queue, base), w, es).value;
            && ArrivalLines(r.traffic.log) == Arrived(PacketsOf(es))
            && OpportunityLines(r.traffic.log) == Used(cfg, Schedule.Timer(0, base, false), n)
            && r.timer == Schedule.UseMany(cfg, Schedule.Timer(0, base, false), n)
  {
    hide Run, ArrivalLines, OpportunityLines, Arrived, Schedule.UseMany;
    var start, l := Schedule.Timer(0, base, false), Start(queue, base);
    Schedule.UseNone(cfg, start);
    assert Listed(cfg, start, 0, l) by { EmptyLog(); }
    n := RunLists(cfg, start, 0, l, w, es);
    RunArrived(cfg, l, w, es);
    assert [] + PacketsOf(es) == PacketsOf(es);
  }

  lemma EmptyLog()
    ensures ArrivalLines([]) == [] && OpportunityLines([]) == [] && Arrived([]) == []
  {
  }
}
