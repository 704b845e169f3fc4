/** What worked-out runs of the link are made of: a clock that stands still, packets of the largest
    size, arrivals at time 0, and one opportunity at a time. */
module Scenarios {
  import opened Text
  import opened Packets
  import opened Discipline
  import opened Link
  import Schedule

  /** The clock stands still while an event is handled, and every random number is 0. */
  function Still(): World {
    World((tick: nat) => 0, (tick: nat) => 0.0)
  }

  function Letters(n: nat): (s: string)
    ensures |s| == n
  {
    if n == 0 then "" else ['x'] + Letters(n - 1)
  }

  /** A packet of the largest size. */
  function Full(): Packet {
    Packet(Letters(PACKET_SIZE), 0)
  }

  function Copies(n: nat): (ps: seq<Packet>)
    ensures |ps| == n && Bytes(ps) == n * PACKET_SIZE
  {
    hide Letters;
    if n == 0 then [] else [Full()] + Copies(n - 1)
  }

  lemma {:induction false} CopiesSnoc(n: nat)
    ensures Copies(n) + [Full()] == Copies(n + 1)
    ensures Copies(n + 1)[0] == Full() && Copies(n + 1)[1..] == Copies(n)
  {
    hide Full;
    if n == 0 {
      assert Copies(0 + 1) == [Full()] + Copies(0);
    } else {
      CopiesSnoc(n - 1);
      assert Copies(n + 1) == [Full()] + Copies(n);
      assert [Full()] + (Copies(n - 1) + [Full()]) == [Full()] + Copies(n - 1) + [Full()];
    }
  }

  /** `n` full packets at time 0. */
  function Arriving(n: nat): (es: seq<Event>)
    ensures |es| == n && forall k :: 0 <= k < n ==> es[k] == Incoming(0, Full().contents)
  {
    if n == 0 then [] else [Incoming(0, Full().contents)] + Arriving(n - 1)
  }

  lemma {:induction false} RunConcat(cfg: Schedule.Config, l: State, w: World, es: seq<Event>, fs: seq<Event>)
    requires InRange(cfg, l)
    ensures Run(cfg, l, w, es + fs) ==
            if Run(cfg, l, w, es).Some? then Run(cfg, Run(cfg, l, w, es).value, w, fs) else None
    decreases |es|
  {
    hide Handle;
    if es == [] {
      assert es + fs == fs;
    } else {
      assert (es + fs)[0] == es[0] && (es + fs)[1..] == es[1..] + fs;
      if Handle(cfg, l, w, es[0]).Some? {
        RunConcat(cfg, Handle(cfg, l, w, es[0]).value, w, es[1..], fs);
      }
    }
  }

  lemma {:induction false} ArrivalsConcat(es: seq<Event>, fs: seq<Event>)
    ensures Arrivals(es + fs) == Arrivals(es) + Arrivals(fs)
  {
    if es == [] {
      assert es + fs == fs && [] + Arrivals(fs) == Arrivals(fs);
    } else {
      assert (es + fs)[0] == es[0] && (es + fs)[1..] == es[1..] + fs;
      ArrivalsConcat(es[1..], fs);
      var head := if es[0].Incoming? then [es[0]] else [];
      assert head + (Arrivals(es[1..]) + Arrivals(fs)) == head + Arrivals(es[1..]) + Arrivals(fs);
    }
  }

  lemma TimedCons(e: Event, es: seq<Event>, from: nat, until: nat)
    requires from <= e.now <= until && Timed(es, e.now, until)
    ensures Timed([e] + es, from, until)
  {
    assert ([e] + es)[1..] == es;
  }

  lemma {:induction false} TimedAfter(n: nat, es: seq<Event>, until: nat)
    requires Timed(es, 0, until)
    ensures Timed(Arriving(n) + es, 0, until)
  {
    hide Full, Timed;
    if n == 0 {
      assert Arriving(0) + es == es;
    } else {
      TimedAfter(n - 1, es, until);
      var e := Incoming(0, Full().contents);
      TimedCons(e, Arriving(n - 1) + es, 0, until);
      assert Arriving(n) + es == [e] + (Arriving(n - 1) + es);
    }
  }

  /** Nothing is due: an event at that time finds the link as it was. */
  lemma RationalizeIdle(cfg: Schedule.Config, l: State, env: Env, now: nat)
    requires InRange(cfg, l) && !Schedule.Due(cfg, l.timer, now)
    ensures Rationalize(cfg, l, env, now) == l
  {
  }

  lemma RationalizeOnce(cfg: Schedule.Config, l: State, env: Env, now: nat)
    requires InRange(cfg, l) && Schedule.Due(cfg, l.timer, now)
    ensures Rationalize(cfg, l, env, now) == Rationalize(cfg, Serve(cfg, l, env), env, now)
  {
    hide Serve;
  }

  /** An opportunity that takes a whole full packet out of the queue. */
  lemma ServeFull(cfg: Schedule.Config, l: State, env: Env)
    requires Schedule.InRange(cfg, l.timer) && !l.timer.finished && l.traffic.left == 0
    requires Pkts(l.traffic.queue) != [] && |Dequeue(l.traffic.queue, env, l.traffic.ticks).p.contents| == PACKET_SIZE
    ensures var r, d := Serve(cfg, l, env), Dequeue(l.traffic.queue, env, l.traffic.ticks);
            && r.timer == Schedule.Use(cfg, l.timer)
            && r.traffic.queue == d.q && r.traffic.left == 0
            && r.traffic.discarded == l.traffic.discarded + d.discarded
  {
    hide Dequeue, Schedule.Use;
    var time := Schedule.NextTime(cfg, l.timer).value;
    var t := l.traffic.(log := l.traffic.log + [Opportunity(time, PACKET_SIZE)]);
    FillFull(t, env, time);
  }

  lemma FillFull(t: Traffic, env: Env, time: nat)
    requires t.left == 0 && Pkts(t.queue) != [] && |Dequeue(t.queue, env, t.ticks).p.contents| == PACKET_SIZE
    ensures var r, d := Fill(t, env, time, PACKET_SIZE), Dequeue(t.queue, env, t.ticks);
            r.queue == d.q && r.left == 0 && r.discarded == t.discarded + d.discarded
  {
    hide Dequeue;
    var u := Load(t, env);
    var v := Send(u, time, PACKET_SIZE);
    assert Fill(t, env, time, PACKET_SIZE) == Fill(v, env, time, 0);
  }

  lemma FullFacts()
    ensures Full().arrival == 0 && |Full().contents| == PACKET_SIZE
  {
  }

  lemma PollOnce(cfg: Schedule.Config, l: State, now: nat)
    requires InRange(cfg, l)
    ensures Run(cfg, l, Still(), [Poll(now)]) == Some(Rationalize(cfg, l, Readings(Still(), now), now))
  {
    hide Rationalize;
    assert [Poll(now)][1..] == [];
  }

  lemma NoArrivals(now: nat)
    ensures Arrivals([Poll(now)]) == []
  {
    assert [Poll(now)][1..] == [];
  }

  lemma RunOne(cfg: Schedule.Config, l: State, e: Event)
    requires InRange(cfg, l)
    ensures Run(cfg, l, Still(), [e]) == Handle(cfg, l, Still(), e)
  {
    hide Handle;
    assert [e][1..] == [];
  }

  lemma PollTwice(cfg: Schedule.Config, l: State, first: nat, second: nat)
    requires InRange(cfg, l)
    ensures Run(cfg, l, Still(), [Poll(first), Poll(second)]) ==
            Some(Rationalize(cfg, Rationalize(cfg, l, Readings(Still(), first), first),
                             Readings(Still(), second), second))
  {
    hide Rationalize;
    assert [Poll(first), Poll(second)][1..] == [Poll(second)];
    PollOnce(cfg, Rationalize(cfg, l, Readings(Still(), first), first), second);
  }
}
