/** What CoDel does on a link, over whole runs: it discards packets just upon persistent delay, as the
    readings of the clock show it, which the link takes when events are handled. */
module LinkPersistence {
  import opened Text
  import opened Packets
  import opened Dropping
  import opened Discipline
  import opened Link
  import opened LinkRuns
  import Codel
  import Schedule

  /** The readings do not go back. */
  ghost predicate Forward(history: seq<Codel.Sighting>) {
    forall i, j :: 0 <= i < j < |history| ==> history[i].time <= history[j].time
  }

  lemma ForwardParts(a: seq<Codel.Sighting>, b: seq<Codel.Sighting>)
    requires Forward(a + b)
    ensures Forward(a)
    ensures b != [] ==> Codel.Chronological(a, b[0].time)
  {
    assert forall i :: 0 <= i < |a| ==> (a + b)[i] == a[i];
    if b != [] {
      assert (a + b)[|a|] == b[0];
    }
  }

  // ---------------------------------------------------------------- what the queue sees

  /** What the queue sees when a packet is taken out, during one opportunity, while the link catches up,
      and over a run. */
  function LoadSeen(t: Traffic, env: Env): seq<Codel.Sighting>
    requires Pkts(t.queue) != []
  {
    if t.queue.CoDel? then Codel.Dequeue(t.queue.c, Clock(env, t.ticks)).seen else []
  }

  function FillSeen(t: Traffic, env: Env, time: nat, room: nat): seq<Codel.Sighting>
    decreases room
  {
    if room == 0 || (t.left == 0 && Pkts(t.queue) == []) then []
    else
      var seen, u := if t.left == 0 then LoadSeen(t, env) else [], if t.left == 0 then Load(t, env) else t;
      if u.left == 0 then seen
      else seen + FillSeen(Send(u, time, Min(room, u.left)), env, time, room - Min(room, u.left))
  }

  /** The link with the opportunity at hand in its log. */
  function Opened(cfg: Schedule.Config, l: State): Traffic
    requires Schedule.InRange(cfg, l.timer) && !l.timer.finished
  {
    l.traffic.(log := l.traffic.log + [Opportunity(Schedule.NextTime(cfg, l.timer).value, PACKET_SIZE)])
  }

  function ServeSeen(cfg: Schedule.Config, l: State, env: Env): seq<Codel.Sighting>
    requires Schedule.InRange(cfg, l.timer) && !l.timer.finished
  {
    FillSeen(Opened(cfg, l), env, Schedule.NextTime(cfg, l.timer).value, PACKET_SIZE)
  }

  ghost function CatchUpSeen(cfg: Schedule.Config, l: State, env: Env, now: nat): seq<Codel.Sighting>
    requires InRange(cfg, l)
    decreases !l.timer.finished, if l.timer.base <= now then now - l.timer.base + 1 else 0,
              |cfg.schedule| - l.timer.next
  {
    if Schedule.Due(cfg, l.timer, now) then
      TimerDecreases(cfg, l.timer, now);
      ServeSeen(cfg, l, env) + CatchUpSeen(cfg, Serve(cfg, l, env), env, now)
    else []
  }

  ghost function RunSeen(cfg: Schedule.Config, l: State, w: World, es: seq<Event>): seq<Codel.Sighting>
    requires InRange(cfg, l) && Run(cfg, l, w, es).Some?
    decreases |es|
  {
    if es == [] then []
    else
      CatchUpSeen(cfg, l, Readings(w, es[0].now), es[0].now) + RunSeen(cfg, Handle(cfg, l, w, es[0]).value, w, es[1..])
  }

  // ---------------------------------------------------------------- what it does about it

  /** After the sightings `history`, taking the next packet discards others iff the queue is above target
      and every `dodequeue` has seen it so for at least an interval - and, while dropping already, the next
      drop is due. */
  ghost predicate JustLoad(t: Traffic, env: Env, history: seq<Codel.Sighting>)
    requires t.queue.CoDel? && Pkts(t.queue) != []
  {
    var c, now := t.queue.c, Clock(env, t.ticks);
    var d := Codel.Dequeue(c, now);
    && d.seen != [] && d.seen[0].time == now
    && (Load(t, env).discarded != t.discarded <==>
        d.seen[0].above && Codel.Persistent(history, c.interval, now) && (c.dropping ==> now >= c.dropNext))
  }

  ghost predicate FillJust(t: Traffic, env: Env, time: nat, room: nat, history: seq<Codel.Sighting>)
    decreases room
  {
    room == 0 || (t.left == 0 && Pkts(t.queue) == []) ||
    (&& t.queue.CoDel?
     && (t.left == 0 ==> JustLoad(t, env, history))
     && var seen, u := if t.left == 0 then LoadSeen(t, env) else [], if t.left == 0 then Load(t, env) else t;
        u.left == 0
        || FillJust(Send(u, time, Min(room, u.left)), env, time, room - Min(room, u.left), history + seen))
  }

  ghost predicate CatchUpJust(cfg: Schedule.Config, l: State, env: Env, now: nat, history: seq<Codel.Sighting>)
    requires InRange(cfg, l)
    decreases !l.timer.finished, if l.timer.base <= now then now - l.timer.base + 1 else 0,
              |cfg.schedule| - l.timer.next
  {
    Schedule.Due(cfg, l.timer, now) ==>
      && FillJust(Opened(cfg, l), env, Schedule.NextTime(cfg, l.timer).value, PACKET_SIZE, history)
      && (TimerDecreases(cfg, l.timer, now);
          CatchUpJust(cfg, Serve(cfg, l, env), env, now, history + ServeSeen(cfg, l, env)))
  }

  /** So it is at every packet taken in a run. */
  ghost predicate RunJust(cfg: Schedule.Config, l: State, w: World, es: seq<Event>, history: seq<Codel.Sighting>)
    requires InRange(cfg, l) && Run(cfg, l, w, es).Some?
    decreases |es|
  {
    es != [] ==>
      var env := Readings(w, es[0].now);
      && CatchUpJust(cfg, l, env, es[0].now, history)
      && RunJust(cfg, Handle(cfg, l, w, es[0]).value, w, es[1..], history + CatchUpSeen(cfg, l, env, es[0].now))
  }

  // ---------------------------------------------------------------- the invariant

  /** The deadline of the queue follows from what it has seen. */
  ghost predicate Follows(q: Queue, history: seq<Codel.Sighting>) {
    q.CoDel? && q.c.interval > 0 && Codel.Tracked(q.c, history)
  }

  lemma {:induction false} LoopSees(d: Codel.Dequeued, now: nat)
    requires d.c.dropping ==> d.c.pkts != []
    ensures d.seen <= Codel.DropLoop(d, now).seen
    decreases |d.c.pkts|
  {
    hide Codel.Spacing;
    if d.c.dropping && now >= d.c.dropNext {
      var r := Codel.DoDequeue(d.c, now);
      var c := r.c.(count := d.c.count + 1);
      var next :=
        if r.okToDrop then c.(dropNext := Codel.ControlLaw(c.interval, c.dropNext, c.count))
        else c.(dropping := false);
      LoopSees(Codel.Dequeued(d.p, next, d.dropped + [r.p], d.seen + [r.sighting]), now);
    }
  }

  lemma DequeueSees(c: Codel.State, now: nat)
    requires c.pkts != []
    ensures Codel.Dequeue(c, now).seen != [] && Codel.Dequeue(c, now).seen[0].time == now
  {
    hide Codel.DropLoop, Codel.ResumeCount, Codel.Spacing, Codel.DoDequeue;
    Codel.SightingFacts(c, now);
    var r := Codel.DoDequeue(c, now);
    if c.dropping {
      LoopSees(Codel.Dequeued(r.p, r.c.(dropping := r.okToDrop), [], [r.sighting]), now);
    }
  }

  lemma LoadFollows(t: Traffic, env: Env, history: seq<Codel.Sighting>, more: seq<Codel.Sighting>)
    requires Pkts(t.queue) != [] && Follows(t.queue, history)
    requires Forward(history + (LoadSeen(t, env) + more))
    ensures JustLoad(t, env, history) && Follows(Load(t, env).queue, history + LoadSeen(t, env))
  {
    hide Codel.Dequeue, Codel.Tracked, Codel.Persistent, Codel.Chronological, Forward;
    var c, now := t.queue.c, Clock(env, t.ticks);
    DequeueSees(c, now);
    ForwardParts(history, LoadSeen(t, env) + more);
    Codel.DequeueTracked(c, now, history);
    var d := Codel.Dequeue(c, now).dropped;
    if d == [] {
      assert t.discarded + [] == t.discarded;
    } else {
      assert |t.discarded + d| > |t.discarded|;
    }
  }

  lemma {:induction false} FillFollows(t: Traffic, env: Env, time: nat, room: nat, history: seq<Codel.Sighting>,
                                       more: seq<Codel.Sighting>)
    requires Follows(t.queue, history) && Forward(history + (FillSeen(t, env, time, room) + more))
    ensures FillJust(t, env, time, room, history)
    ensures Follows(Fill(t, env, time, room).queue, history + FillSeen(t, env, time, room))
    decreases room
  {
    hide LoadSeen, Load, Send, JustLoad, Follows, Forward, Pkts;
    if room == 0 || (t.left == 0 && Pkts(t.queue) == []) {
      assert history + [] == history;
    } else {
      var seen, u := if t.left == 0 then LoadSeen(t, env) else [], if t.left == 0 then Load(t, env) else t;
      var n := Min(room, u.left);
      var later := if u.left == 0 then [] else FillSeen(Send(u, time, n), env, time, room - n);
      assert seen + later == FillSeen(t, env, time, room) by { assert seen + [] == seen; }
      Regroup(history, seen, later, more);
      if t.left == 0 {
        LoadFollows(t, env, history, later + more);
      } else {
        assert history + [] == history;
      }
      IsCoDel(t.queue, history);
      if u.left != 0 {
        SendOnly(u, time, n);
        FillFollows(Send(u, time, n), env, time, room - n, history + seen, more);
      }
    }
  }

  lemma Regroup(a: seq<Codel.Sighting>, b: seq<Codel.Sighting>, c: seq<Codel.Sighting>, d: seq<Codel.Sighting>)
    ensures a + (b + c + d) == a + (b + (c + d)) == (a + b) + (c + d)
    ensures (a + b) + c == a + (b + c)
  {
  }

  lemma IsCoDel(q: Queue, history: seq<Codel.Sighting>)
    requires Follows(q, history)
    ensures q.CoDel?
  {
  }

  lemma ServeFollows(cfg: Schedule.Config, l: State, env: Env, history: seq<Codel.Sighting>,
                     more: seq<Codel.Sighting>)
    requires Schedule.InRange(cfg, l.timer) && !l.timer.finished
    requires Follows(l.traffic.queue, history) && Forward(history + (ServeSeen(cfg, l, env) + more))
    ensures FillJust(Opened(cfg, l), env, Schedule.NextTime(cfg, l.timer).value, PACKET_SIZE, history)
    ensures Follows(Serve(cfg, l, env).traffic.queue, history + ServeSeen(cfg, l, env))
  {
    hide Fill, FillSeen, FillJust, Follows, Forward;
    FillFollows(Opened(cfg, l), env, Schedule.NextTime(cfg, l.timer).value, PACKET_SIZE, history, more);
  }

  lemma {:induction false} CatchUpFollows(cfg: Schedule.Config, l: State, env: Env, now: nat,
                                          history: seq<Codel.Sighting>, more: seq<Codel.Sighting>)
    requires InRange(cfg, l)
    requires Follows(l.traffic.queue, history) && Forward(history + (CatchUpSeen(cfg, l, env, now) + more))
    ensures CatchUpJust(cfg, l, env, now, history)
    ensures Follows(Rationalize(cfg, l, env, now).traffic.queue, history + CatchUpSeen(cfg, l, env, now))
    decreases !l.timer.finished, if l.timer.base <= now then now - l.timer.base + 1 else 0,
              |cfg.schedule| - l.timer.next
  {
    hide Serve, ServeSeen, FillJust, Follows, Forward, Opened;
    if Schedule.Due(cfg, l.timer, now) {
      TimerDecreases(cfg, l.timer, now);
      ServeTimer(cfg, l, env);
      var seen, later := ServeSeen(cfg, l, env), CatchUpSeen(cfg, Serve(cfg, l, env), env, now);
      Regroup(history, seen, later, more);
      ServeFollows(cfg, l, env, history, later + more);
      CatchUpFollows(cfg, Serve(cfg, l, env), env, now, history + seen, more);
    } else {
      assert history + [] == history;
    }
  }

  lemma AdmitFollows(t: Traffic, p: Packet, env: Env, now: nat, history: seq<Codel.Sighting>)
    requires Follows(t.queue, history)
    ensures Follows(Admit(t, p, env, now).queue, history)
  {
    hide DropRecord, Codel.Tracked, Codel.Enqueue;
    Codel.EnqueueParts(t.queue.c, p);
    Codel.TrackedOnly(t.queue.c, Codel.Enqueue(t.queue.c, p), history);
  }

  lemma HandleFollows(cfg: Schedule.Config, l: State, w: World, e: Event, history: seq<Codel.Sighting>)
    requires InRange(cfg, l) && Handle(cfg, l, w, e).Some?
    requires Follows(Rationalize(cfg, l, Readings(w, e.now), e.now).traffic.queue, history)
    ensures Follows(Handle(cfg, l, w, e).value.traffic.queue, history)
  {
    hide Rationalize, Admit, Follows;
    var env := Readings(w, e.now);
    if e.Incoming? {
      AdmitFollows(Rationalize(cfg, l, env, e.now).traffic, Packet(e.contents, e.now), env, e.now, history);
    }
  }

  lemma {:induction false} RunFollows(cfg: Schedule.Config, l: State, w: World, es: seq<Event>,
                                      history: seq<Codel.Sighting>)
    requires InRange(cfg, l) && Run(cfg, l, w, es).Some?
    requires Follows(l.traffic.queue, history) && Forward(history + RunSeen(cfg, l, w, es))
    ensures RunJust(cfg, l, w, es, history)
    decreases |es|
  {
    hide Handle, CatchUpSeen, CatchUpJust, Follows, Forward, Rationalize;
    if es != [] {
      var env, r := Readings(w, es[0].now), Handle(cfg, l, w, es[0]).value;
      var seen, later := CatchUpSeen(cfg, l, env, es[0].now), RunSeen(cfg, r, w, es[1..]);
      CatchUpFollows(cfg, l, env, es[0].now, history, later);
      HandleFollows(cfg, l, w, es[0], history + seen);
      assert (history + seen) + later == history + (seen + later);
      RunFollows(cfg, r, w, es[1..], history + seen);
    }
  }

  /** On a link CoDel drops just upon persistent delay: in every run from a fresh link in which the
      readings of the clock do not go back, at every packet taken out of the queue others are discarded
      iff the queue has been above target, at every look at it, for at least an interval - and, while
      dropping already, the next drop is due. */
  lemma DropsJustUponPersistentDelay(cfg: Schedule.Config, limits: Limits, target: nat, interval: nat, base: nat,
                                     w: World, es: seq<Event>)
    requires Schedule.Valid(cfg) && interval > 0
    requires var l := Start(CoDel(Codel.Start(limits, target, interval)), base);
             Run(cfg, l, w, es).Some? && Forward(RunSeen(cfg, l, w, es))
    ensures RunJust(cfg, Start(CoDel(Codel.Start(limits, target, interval)), base), w, es, [])
  {
    hide Run, RunSeen, RunJust, Forward;
    var l := Start(CoDel(Codel.Start(limits, target, interval)), base);
    Codel.StartTracked(limits, target, interval);
    assert [] + RunSeen(cfg, l, w, es) == RunSeen(cfg, l, w, es);
    RunFollows(cfg, l, w, es, []);
  }
}
