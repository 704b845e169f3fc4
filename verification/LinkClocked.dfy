/** CoDel and PIE read the clock, so with them the moment of a poll matters. Here is when;
    CodelScenario and PieScenario are runs in which it does. */
module LinkClocked {
  import opened Packets
  import opened Discipline
  import opened Link
  import opened LinkRuns
  import Codel
  import CodelClock
  import Pie
  import Schedule

  // ---------------------------------------------------------------- when a reading matters

  /** Taking a packet out of a CoDel queue at two readings of the clock after the arrivals has the
      same outcome iff the state agrees on them. */
  lemma CodelMoment(t: Traffic, early: Env, late: Env)
    requires t.queue.CoDel? && t.queue.c.pkts != [] && t.queue.c.interval > 0
    requires CodelClock.AfterArrivals(t.queue.c.pkts, Clock(early, t.ticks), Clock(late, t.ticks))
    ensures Load(t, early) == Load(t, late) <==>
            CodelClock.Agrees(t.queue.c, Clock(early, t.ticks), Clock(late, t.ticks))
  {
    hide Codel.Dequeue, CodelClock.AfterArrivals, CodelClock.Agrees, Clock;
    CodelClock.MomentMatters(t.queue.c, Clock(early, t.ticks), Clock(late, t.ticks));
  }

  /** Admitting a packet to a PIE queue at two readings, with one random number, has the same outcome
      iff the same number of updates is due. */
  lemma PieMoment(t: Traffic, p: Packet, early: Env, late: Env, now: nat)
    requires t.queue.PIE? && early.random(t.ticks) == late.random(t.ticks)
    ensures Admit(t, p, early, now) == Admit(t, p, late, now) <==>
            Pie.Due(t.queue.s.lastUpdate, Clock(early, t.ticks)) == Pie.Due(t.queue.s.lastUpdate, Clock(late, t.ticks))
  {
    hide Pie.Enqueue, Pie.Due, Clock, DropRecord;
    Pie.ArrivalMomentMatters(t.queue.s, p, Clock(early, t.ticks), Clock(late, t.ticks), early.random(t.ticks));
  }

  /** Taking a packet out of a PIE queue has the same outcome if the queue agrees on the readings - and
      only if, unless the meter stops while updates are due. */
  lemma PieTakeMoment(t: Traffic, early: Env, late: Env)
    requires t.queue.PIE? && t.queue.s.pkts != [] && t.queue.s.dqTstamp < 0x1_0000_0000
    ensures QueueAgrees(t.queue, early, late, t.ticks) ==> Load(t, early) == Load(t, late)
    ensures var s := t.queue.s;
            var rest := s.(pkts := s.pkts[1..]);
            || Pie.Due(s.lastUpdate, Clock(early, t.ticks + 1)) == 0
            || !Pie.StopsMeter(rest, |s.pkts[0].contents|) ==>
              (Load(t, early) == Load(t, late) <==> QueueAgrees(t.queue, early, late, t.ticks))
  {
    hide Pie.Dequeue, Pie.Due, Pie.StopsMeter, Pie.DequeueAgrees, Clock;
    Pie.DequeueMomentMatters(t.queue.s, Clock(early, t.ticks), Clock(early, t.ticks + 1),
                             Clock(late, t.ticks), Clock(late, t.ticks + 1));
  }

  // ---------------------------------------------------------------- when a poll matters

  /** The queue cannot tell the readings of two moments apart when it is asked for a packet. */
  ghost predicate QueueAgrees(q: Queue, early: Env, late: Env, tick: nat)
    requires Pkts(q) != []
  {
    match q
    case CoDel(c) =>
      var t1, t2 := Clock(early, tick), Clock(late, tick);
      t1 == t2 || (c.interval > 0 && CodelClock.AfterArrivals(c.pkts, t1, t2) && CodelClock.Agrees(c, t1, t2))
    case PIE(s) =>
      && s.dqTstamp < 0x1_0000_0000
      && Pie.DequeueAgrees(s, Clock(early, tick), Clock(early, tick + 1), Clock(late, tick), Clock(late, tick + 1))
    case _ => true
  }

  lemma AgreeingLoad(t: Traffic, early: Env, late: Env)
    requires Pkts(t.queue) != [] && QueueAgrees(t.queue, early, late, t.ticks)
    ensures Load(t, early) == Load(t, late)
  {
    hide Codel.Dequeue, Pie.Dequeue, CodelClock.AfterArrivals, CodelClock.Agrees, Pie.DequeueAgrees, Clock;
    match t.queue {
    case CoDel(c) =>
      if Clock(early, t.ticks) != Clock(late, t.ticks) {
        CodelMoment(t, early, late);
      }
    case PIE(s) => PieTakeMoment(t, early, late);
    case _ => ClockFreeIgnoresEnv(t.queue, t.transit, early, late, t.ticks);
    }
  }

  /** At every packet that one opportunity takes the queue cannot tell the readings apart. */
  ghost predicate FillAgrees(t: Traffic, early: Env, late: Env, time: nat, room: nat)
    decreases room
  {
    if room == 0 || (t.left == 0 && Pkts(t.queue) == []) then true
    else
      && (t.left == 0 ==> QueueAgrees(t.queue, early, late, t.ticks))
      && var u := if t.left == 0 then Load(t, early) else t;
         u.left == 0 || FillAgrees(Send(u, time, Min(room, u.left)), early, late, time, room - Min(room, u.left))
  }

  ghost predicate ServeAgrees(cfg: Schedule.Config, l: State, early: Env, late: Env)
    requires Schedule.InRange(cfg, l.timer) && !l.timer.finished
  {
    var time := Schedule.NextTime(cfg, l.timer).value;
    var t := l.traffic.(log := l.traffic.log + [Opportunity(time, PACKET_SIZE)]);
    FillAgrees(t, early, late, time, PACKET_SIZE)
  }

  /** Nor can it at any packet taken when the link is emulated up to `now`. */
  ghost predicate TakesAlike(cfg: Schedule.Config, l: State, early: Env, late: Env, now: nat)
    requires InRange(cfg, l)
    decreases !l.timer.finished, if l.timer.base <= now then now - l.timer.base + 1 else 0,
              |cfg.schedule| - l.timer.next
  {
    Schedule.Due(cfg, l.timer, now) ==>
      && ServeAgrees(cfg, l, early, late)
      && (TimerDecreases(cfg, l.timer, now); TakesAlike(cfg, Serve(cfg, l, early), early, late, now))
  }

  lemma {:induction false} FillAlike(t: Traffic, early: Env, late: Env, time: nat, room: nat)
    requires FillAgrees(t, early, late, time, room)
    ensures Fill(t, early, time, room) == Fill(t, late, time, room)
    decreases room
  {
    hide Load, Send, Pkts, QueueAgrees;
    if room != 0 && !(t.left == 0 && Pkts(t.queue) == []) {
      if t.left == 0 {
        AgreeingLoad(t, early, late);
      }
      var u := if t.left == 0 then Load(t, early) else t;
      if u.left != 0 {
        FillAlike(Send(u, time, Min(room, u.left)), early, late, time, room - Min(room, u.left));
      }
    }
  }

  lemma ServeAlike(cfg: Schedule.Config, l: State, early: Env, late: Env)
    requires Schedule.InRange(cfg, l.timer) && !l.timer.finished && ServeAgrees(cfg, l, early, late)
    ensures Serve(cfg, l, early) == Serve(cfg, l, late)
  {
    hide Fill, FillAgrees;
    var time := Schedule.NextTime(cfg, l.timer).value;
    var t := l.traffic.(log := l.traffic.log + [Opportunity(time, PACKET_SIZE)]);
    FillAlike(t, early, late, time, PACKET_SIZE);
  }

  lemma {:induction false} RationalizeAlike(cfg: Schedule.Config, l: State, early: Env, late: Env, now: nat)
    requires InRange(cfg, l) && TakesAlike(cfg, l, early, late, now)
    ensures Rationalize(cfg, l, early, now) == Rationalize(cfg, l, late, now)
    decreases !l.timer.finished, if l.timer.base <= now then now - l.timer.base + 1 else 0,
              |cfg.schedule| - l.timer.next
  {
    hide Serve, ServeAgrees;
    if Schedule.Due(cfg, l.timer, now) {
      TimerDecreases(cfg, l.timer, now);
      ServeTimer(cfg, l, early);
      ServeAlike(cfg, l, early, late);
      RationalizeAlike(cfg, Serve(cfg, l, early), early, late, now);
    }
  }

  /** A poll at `t1` makes no difference to a later event at `t2`, with any of the five queues, if at
      every packet the poll takes the queue cannot tell its readings from those of the event. With the
      three queues without a clock that is always so; and a poll that finds no opportunity due takes
      none. */
  lemma PollVanishes(cfg: Schedule.Config, l: State, poll: Env, next: Env, t1: nat, t2: nat)
    requires InRange(cfg, l) && t1 <= t2 && TakesAlike(cfg, l, poll, next, t1)
    ensures Rationalize(cfg, Rationalize(cfg, l, poll, t1), next, t2) == Rationalize(cfg, l, next, t2)
    ensures !Schedule.Due(cfg, l.timer, t1) ==> Rationalize(cfg, l, poll, t1) == l
  {
    hide Serve, TakesAlike;
    RationalizeAlike(cfg, l, poll, next, t1);
    RationalizeResumes(cfg, l, next, t1, t2);
  }
}
