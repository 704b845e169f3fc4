/** When the log of a link balances. Only CoDel loses packets without a line in the log, and what
    makes it do so can be read off the queue before each dequeue. */
module LinkDiscards {
  import opened Text
  import opened Packets
  import opened Discipline
  import opened Link
  import opened LinkRuns
  import opened LinkDepartures
  import Codel
  import Schedule

  /** The log accounts for all: arrivals equal departures, drops and what is waiting. */
  ghost predicate Accounted(t: Traffic) {
    var n := Tally(t.log);
    n.arrived == Plus(Plus(n.departed, n.dropped), Size(Waiting(t)))
  }

  /** Asked for a packet now, the queue would discard others. */
  predicate Guarded(t: Traffic, env: Env)
    requires Pkts(t.queue) != []
  {
    t.queue.CoDel? && Codel.DropGuard(t.queue.c, Clock(env, t.ticks))
  }

  lemma LoadDiscards(t: Traffic, env: Env)
    requires Pkts(t.queue) != [] && Sound(t.queue)
    ensures Load(t, env).discarded == t.discarded + Dequeue(t.queue, env, t.ticks).discarded
    ensures Dequeue(t.queue, env, t.ticks).discarded != [] <==> Guarded(t, env)
    ensures Load(t, env).discarded == t.discarded <==> !Guarded(t, env)
  {
    hide Codel.Dequeue, Codel.DropGuard, Sound, SameKind;
    DequeueLaw(t.queue, env, t.ticks);
    var d := Dequeue(t.queue, env, t.ticks).discarded;
    if t.queue.CoDel? {
      Codel.DropsJustUponGuard(t.queue.c, Clock(env, t.ticks));
    }
    if d == [] {
      assert t.discarded + [] == t.discarded;
    } else {
      assert |t.discarded + d| > |t.discarded|;
    }
  }

  /** Taking a packet out of the queue keeps the log balanced iff no discard is due. */
  lemma LoadUnbalances(t: Traffic, env: Env)
    requires Tidy(t) && t.left == 0 && Pkts(t.queue) != [] && Accounted(t)
    ensures Accounted(Load(t, env)) <==> !Guarded(t, env)
  {
    hide Dequeue, Waiting, SameKind, Tally, Bytes, Sound, Sendable, Guarded;
    WaitingAfterLoad(t, env);
    LoadDiscards(t, env);
    var r := Dequeue(t.queue, env, t.ticks);
    SizeConcat([r.p] + r.discarded, Pkts(r.q));
    SizeConcat([r.p], r.discarded);
    SizeConcat([r.p], Pkts(r.q));
    assert Load(t, env).log == t.log;
    if r.discarded == [] {
      NoSize();
    }
  }

  // ---------------------------------------------------------------- whole runs

  /** No dequeue of one opportunity meets the guard. */
  predicate FillQuiet(t: Traffic, env: Env, time: nat, room: nat)
    decreases room
  {
    if room == 0 || (t.left == 0 && Pkts(t.queue) == []) then true
    else
      && (t.left == 0 ==> !Guarded(t, env))
      && var u := if t.left == 0 then Load(t, env) else t;
         u.left == 0 || FillQuiet(Send(u, time, Min(room, u.left)), env, time, room - Min(room, u.left))
  }

  predicate ServeQuiet(cfg: Schedule.Config, l: State, env: Env)
    requires Schedule.InRange(cfg, l.timer) && !l.timer.finished
  {
    var time := Schedule.NextTime(cfg, l.timer).value;
    FillQuiet(l.traffic.(log := l.traffic.log + [Opportunity(time, PACKET_SIZE)]), env, time, PACKET_SIZE)
  }

  ghost predicate RationalizeQuiet(cfg: Schedule.Config, l: State, env: Env, now: nat)
    requires InRange(cfg, l)
    decreases !l.timer.finished, if l.timer.base <= now then now - l.timer.base + 1 else 0,
              |cfg.schedule| - l.timer.next
  {
    Schedule.Due(cfg, l.timer, now) ==>
      && ServeQuiet(cfg, l, env)
      && (TimerDecreases(cfg, l.timer, now); RationalizeQuiet(cfg, Serve(cfg, l, env), env, now))
  }

  /** No dequeue of the run meets the guard. */
  ghost predicate RunQuiet(cfg: Schedule.Config, l: State, w: World, es: seq<Event>)
    requires InRange(cfg, l) && Run(cfg, l, w, es).Some?
    decreases |es|
  {
    es != [] ==>
      && RationalizeQuiet(cfg, l, Readings(w, es[0].now), es[0].now)
      && RunQuiet(cfg, Handle(cfg, l, w, es[0]).value, w, es[1..])
  }

  lemma {:induction false} FillQuietExact(t: Traffic, env: Env, time: nat, room: nat)
    requires Steady(t)
    ensures var r := Fill(t, env, time, room);
            t.discarded <= r.discarded && (FillQuiet(t, env, time, room) <==> r.discarded == t.discarded)
    decreases room
  {
    hide Load, Guarded, Send, Backlog, SameKind, Sendable, Sound;
    FillDiscards(t, env, time, room);
    if room != 0 && !(t.left == 0 && Pkts(t.queue) == []) {
      if t.left == 0 {
        LoadKeepsBacklog(t, env);
        LoadDiscards(t, env);
      }
      var u := if t.left == 0 then Load(t, env) else t;
      var v := Send(u, time, Min(room, u.left));
      SendKeepsQueue(u, time, Min(room, u.left));
      SteadyQueue(u, v);
      FillQuietExact(v, env, time, room - Min(room, u.left));
    }
  }

  lemma ServeQuietExact(cfg: Schedule.Config, l: State, env: Env)
    requires Schedule.InRange(cfg, l.timer) && !l.timer.finished && Steady(l.traffic)
    ensures var r := Serve(cfg, l, env).traffic;
            && l.traffic.discarded <= r.discarded
            && (ServeQuiet(cfg, l, env) <==> r.discarded == l.traffic.discarded)
  {
    hide Fill, FillQuiet, Sound, Sendable;
    var time := Schedule.NextTime(cfg, l.timer).value;
    FillQuietExact(l.traffic.(log := l.traffic.log + [Opportunity(time, PACKET_SIZE)]), env, time, PACKET_SIZE);
  }

  lemma {:induction false} RationalizeQuietExact(cfg: Schedule.Config, l: State, env: Env, now: nat)
    requires InRange(cfg, l) && Steady(l.traffic)
    ensures var r := Rationalize(cfg, l, env, now).traffic;
            && l.traffic.discarded <= r.discarded
            && (RationalizeQuiet(cfg, l, env, now) <==> r.discarded == l.traffic.discarded)
    decreases !l.timer.finished, if l.timer.base <= now then now - l.timer.base + 1 else 0,
              |cfg.schedule| - l.timer.next
  {
    hide Serve, ServeQuiet, Steady;
    if Schedule.Due(cfg, l.timer, now) {
      TimerDecreases(cfg, l.timer, now);
      ServeTimer(cfg, l, env);
      ServeQuietExact(cfg, l, env);
      ServeDiscards(cfg, l, env);
      RationalizeQuietExact(cfg, Serve(cfg, l, env), env, now);
    }
  }

  lemma ConsistentSteady(cfg: Schedule.Config, l: State)
    requires Consistent(cfg, l)
    ensures InRange(cfg, l) && Steady(l.traffic)
  {
    hide Balanced, Ordered, Recorded, Causal, Sound;
    var t := l.traffic;
    assert forall k :: 0 <= k < |Pkts(t.queue)| ==>
        Pkts(t.queue)[k] == Waiting(t)[if t.left > 0 then k + 1 else k];
  }

  lemma HandleDiscards(cfg: Schedule.Config, l: State, w: World, e: Event)
    requires InRange(cfg, l) && Handle(cfg, l, w, e).Some?
    ensures Handle(cfg, l, w, e).value.traffic.discarded ==
            Rationalize(cfg, l, Readings(w, e.now), e.now).traffic.discarded
  {
    hide Rationalize, Enqueue, DropRecord;
  }

  lemma HandleKeeps(cfg: Schedule.Config, l: State, w: World, e: Event)
    requires Consistent(cfg, l) && (e.Incoming? ==> e.contents != "")
    requires InRange(cfg, l) && Handle(cfg, l, w, e).Some?
    ensures Consistent(cfg, Handle(cfg, l, w, e).value)
  {
    hide Consistent, Rationalize, Receive;
    match e {
    case Poll(now) => RationalizeKeeps(cfg, l, Readings(w, now), now);
    case Incoming(now, contents) => ReceiveKeeps(cfg, l, contents, Readings(w, now), now);
    }
  }

  lemma {:induction false} RunQuietExact(cfg: Schedule.Config, l: State, w: World, es: seq<Event>)
    requires Consistent(cfg, l) && NonEmpty(es)
    requires InRange(cfg, l) && Run(cfg, l, w, es).Some?
    ensures var t := Run(cfg, l, w, es).value.traffic;
            && l.traffic.discarded <= t.discarded
            && (RunQuiet(cfg, l, w, es) <==> t.discarded == l.traffic.discarded)
    decreases |es|
  {
    hide Consistent, Rationalize, RationalizeQuiet, Handle, Steady, Readings;
    if es != [] {
      ConsistentSteady(cfg, l);
      RationalizeQuietExact(cfg, l, Readings(w, es[0].now), es[0].now);
      HandleDiscards(cfg, l, w, es[0]);
      HandleKeeps(cfg, l, w, es[0]);
      RunQuietExact(cfg, Handle(cfg, l, w, es[0]).value, w, es[1..]);
    }
  }

  /** Conservation over whole runs, for every discipline: the log balances, in packets and in bytes,
      iff no dequeue of the run met CoDel's guard. Without CoDel it always balances. */
  lemma RunBalances(cfg: Schedule.Config, queue: Queue, base: nat, w: World, es: seq<Event>)
    requires Schedule.Valid(cfg) && Empty(queue) && NonEmpty(es)
    requires Run(cfg, Start(queue, base), w, es).Some?
    ensures Accounted(Run(cfg, Start(queue, base), w, es).value.traffic) <==>
            RunQuiet(cfg, Start(queue, base), w, es)
    ensures !Run(cfg, Start(queue, base), w, es).value.traffic.queue.CoDel? ==>
              RunQuiet(cfg, Start(queue, base), w, es)
  {
    hide Run, RunQuiet, Consistent, Tally, Waiting, Lines, DepartureLines;
    StartConsistent(cfg, queue, base);
    RunQuietExact(cfg, Start(queue, base), w, es);
    RunConserves(cfg, queue, base, w, es);
  }
}
