/** A CoDel link whose run comes out differently when it is polled on the way. */
module CodelScenario {
  import opened Text
  import opened Packets
  import opened Dropping
  import opened Discipline
  import opened Link
  import opened LinkRuns
  import opened LinkDiscards
  import opened Scenarios
  import Codel
  import Schedule

  /** Two opportunities, at 10 and at 20. */
  const TWICE := Schedule.Config([10, 20], false)

  function QueueOf(n: nat, firstAbove: nat): Codel.State {
    Codel.Start(Limits(10, 0), 1, 1).(pkts := Copies(n), firstAbove := firstAbove)
  }

  ghost predicate Stage(l: State, timer: Schedule.Timer, n: nat, firstAbove: nat, lost: nat) {
    && l.timer == timer && l.traffic.left == 0 && |l.traffic.discarded| == lost
    && l.traffic.queue == CoDel(QueueOf(n, firstAbove))
  }

  /** A dequeue with packets left above target, at a time when no deadline has passed. */
  lemma Waits(n: nat, firstAbove: nat, now: nat)
    requires n >= 2 && 1 <= now < 100 && (firstAbove == 0 || now < firstAbove)
    ensures var c := QueueOf(n + 1, firstAbove);
            && c.pkts != [] && Codel.Dequeue(c, now).dropped == [] && Codel.Dequeue(c, now).p == Full()
            && Codel.Dequeue(c, now).c == QueueOf(n, if firstAbove == 0 then now + 1 else firstAbove)
  {
    hide Copies, Full;
    CopiesSnoc(n);
    assert Full().arrival == 0 by { FullFacts(); }
  }

  /** A dequeue past the deadline with three packets queued hands out one and discards one. */
  lemma Drops(firstAbove: nat, now: nat)
    requires 0 < firstAbove <= now < 100
    ensures var c := QueueOf(3, firstAbove);
            && c.pkts != [] && Codel.Dequeue(c, now).p == Full()
            && |Codel.Dequeue(c, now).dropped| == 1 && |Codel.Dequeue(c, now).c.pkts| == 1
  {
    hide Copies, Full, Codel.Spacing, Codel.ResumeCount;
    CopiesSnoc(2);
    CopiesSnoc(1);
    assert Full().arrival == 0 by { FullFacts(); }
  }

  lemma Arrives(l: State, n: nat)
    requires Stage(l, Schedule.Timer(0, 0, false), n, 0, 0) && n < 10
    ensures InRange(TWICE, l)
    ensures var r := Handle(TWICE, l, Still(), Incoming(0, Full().contents));
            r.Some? && Stage(r.value, Schedule.Timer(0, 0, false), n + 1, 0, 0)
  {
    hide Copies, Letters, Rationalize, DropRecord;
    RationalizeIdle(TWICE, l, Readings(Still(), 0), 0);
    CopiesSnoc(n);
  }

  lemma {:induction false} ArrivingMany(l: State, n: nat, k: nat)
    requires Stage(l, Schedule.Timer(0, 0, false), n, 0, 0) && n + k <= 10
    ensures InRange(TWICE, l)
    ensures var r := Run(TWICE, l, Still(), Arriving(k));
            r.Some? && Stage(r.value, Schedule.Timer(0, 0, false), n + k, 0, 0)
    decreases k
  {
    hide Handle, Full, Stage;
    assert InRange(TWICE, l) by { StageInRange(l, n); }
    if k > 0 {
      Arrives(l, n);
      ArrivingMany(Handle(TWICE, l, Still(), Incoming(0, Full().contents)).value, n + 1, k - 1);
      assert Arriving(k)[1..] == Arriving(k - 1);
    }
  }

  lemma StageInRange(l: State, n: nat)
    requires Stage(l, Schedule.Timer(0, 0, false), n, 0, 0)
    ensures InRange(TWICE, l)
  {
  }

  lemma Serves(l: State, timer: Schedule.Timer, n: nat, firstAbove: nat, env: Env, now: nat)
    requires Stage(l, timer, n + 1, firstAbove, 0) && Schedule.InRange(TWICE, timer) && !timer.finished
    requires n >= 2 && 1 <= now < 100 && Clock(env, l.traffic.ticks) == now
    requires firstAbove == 0 || now < firstAbove
    ensures Stage(Serve(TWICE, l, env), Schedule.Use(TWICE, timer), n,
                       if firstAbove == 0 then now + 1 else firstAbove, 0)
  {
    hide Copies, Full, Codel.Dequeue, Schedule.Use, Serve;
    Waits(n, firstAbove, now);
    FullFacts();
    ServeFull(TWICE, l, env);
  }

  lemma ServesDropping(l: State, timer: Schedule.Timer, firstAbove: nat, env: Env, now: nat)
    requires Stage(l, timer, 3, firstAbove, 0) && Schedule.InRange(TWICE, timer) && !timer.finished
    requires 0 < firstAbove <= now < 100 && Clock(env, l.traffic.ticks) == now
    ensures var r := Serve(TWICE, l, env);
            && r.timer == Schedule.Use(TWICE, timer) && |r.traffic.discarded| == 1
            && |Pkts(r.traffic.queue)| == 1 && r.traffic.queue.CoDel?
  {
    hide Copies, Full, Codel.Dequeue, Schedule.Use, Serve;
    Drops(firstAbove, now);
    FullFacts();
    ServeFull(TWICE, l, env);
  }

  /** Polled at 10 the queue sets its deadline then, and discards a packet at 20. */
  lemma Polled(l: State)
    requires Stage(l, Schedule.Timer(0, 0, false), 4, 0, 0)
    ensures InRange(TWICE, l)
    ensures var r := Rationalize(TWICE, Rationalize(TWICE, l, Readings(Still(), 10), 10), Readings(Still(), 20), 20);
            |r.traffic.discarded| == 1 && |Pkts(r.traffic.queue)| == 1
  {
    hide Copies, Full, Serve, Rationalize;
    var at10, at20 := Readings(Still(), 10), Readings(Still(), 20);
    Serves(l, l.timer, 3, 0, at10, 10);
    var m := Serve(TWICE, l, at10);
    RationalizeOnce(TWICE, l, at10, 10);
    RationalizeIdle(TWICE, m, at10, 10);
    ServesDropping(m, m.timer, 11, at20, 20);
    RationalizeOnce(TWICE, m, at20, 20);
    RationalizeIdle(TWICE, Serve(TWICE, m, at20), at20, 20);
  }

  /** Not looked at before 20 it sets its deadline then, and discards nothing. */
  lemma Unpolled(l: State)
    requires Stage(l, Schedule.Timer(0, 0, false), 4, 0, 0)
    ensures InRange(TWICE, l)
    ensures var r := Rationalize(TWICE, l, Readings(Still(), 20), 20);
            |r.traffic.discarded| == 0 && |Pkts(r.traffic.queue)| == 2
  {
    hide Copies, Full, Serve, Rationalize;
    var at20 := Readings(Still(), 20);
    Serves(l, l.timer, 3, 0, at20, 20);
    var m := Serve(TWICE, l, at20);
    RationalizeOnce(TWICE, l, at20, 20);
    Serves(m, m.timer, 2, 21, at20, 20);
    RationalizeOnce(TWICE, m, at20, 20);
    RationalizeIdle(TWICE, Serve(TWICE, m, at20), at20, 20);
  }

  function TheLink(): State {
    Start(CoDel(QueueOf(0, 0)), 0)
  }

  /** Four packets at 0, and a look at the link at 10 or not. */
  function TheRun(polled: bool): seq<Event> {
    if polled then Arriving(4) + [Poll(10)] else Arriving(4)
  }

  lemma AfterArrivals()
    ensures InRange(TWICE, TheLink())
    ensures var m := Run(TWICE, TheLink(), Still(), Arriving(4));
            && m.Some? && Stage(m.value, Schedule.Timer(0, 0, false), 4, 0, 0) && InRange(TWICE, m.value)
            && Run(TWICE, TheLink(), Still(), TheRun(true)) ==
               Some(Rationalize(TWICE, m.value, Readings(Still(), 10), 10))
  {
    hide Rationalize, Handle, Stage, Full;
    var l := TheLink();
    assert Stage(l, Schedule.Timer(0, 0, false), 0, 0, 0) by { FreshStage(); }
    ArrivingMany(l, 0, 4);
    var m := Run(TWICE, l, Still(), Arriving(4)).value;
    RunConcat(TWICE, l, Still(), Arriving(4), [Poll(10)]);
    PollOnce(TWICE, m, 10);
  }

  /** Polling matters with CoDel: the same four arrivals leave one packet waiting at 20 or two, as
      the link was polled at 10 or not. */
  lemma PollingMatters()
    ensures InRange(TWICE, TheLink()) && Arrivals(TheRun(true)) == Arrivals(TheRun(false))
    ensures Timed(TheRun(true), 0, 20) && Timed(TheRun(false), 0, 20)
    ensures var polled := Outcome(TWICE, TheLink(), Still(), TheRun(true), 20);
            var left := Outcome(TWICE, TheLink(), Still(), TheRun(false), 20);
            && polled.Some? && |Pkts(polled.value.traffic.queue)| == 1 && |polled.value.traffic.discarded| == 1
            && left.Some? && |Pkts(left.value.traffic.queue)| == 2 && |left.value.traffic.discarded| == 0
  {
    hide Rationalize, Handle, Stage, Full, Run;
    AfterArrivals();
    var m := Run(TWICE, TheLink(), Still(), Arriving(4)).value;
    Polled(m);
    Unpolled(m);
    ArrivalsConcat(Arriving(4), [Poll(10)]);
    NoArrivals(10);
    assert Arrivals(Arriving(4)) + [] == Arrivals(Arriving(4));
    assert [Poll(10)][1..] == [] && Arriving(4) + [] == Arriving(4);
    TimedAfter(4, [Poll(10)], 20);
    TimedAfter(4, [], 20);
  }

  /** So the log of a CoDel link can fail to balance: it does not in the first of these runs, and
      does in the second. */
  lemma LogUnbalanced()
    ensures InRange(TWICE, TheLink())
    ensures var x := Run(TWICE, TheLink(), Still(), TheRun(true) + [Poll(20)]);
            x.Some? && !Accounted(x.value.traffic)
    ensures var y := Run(TWICE, TheLink(), Still(), TheRun(false) + [Poll(20)]);
            y.Some? && Accounted(y.value.traffic)
  {
    hide Rationalize, Stage, Full, Run, Tally, Waiting, Lines, DepartureLines, NonEmpty, Codel.Start;
    PollingMatters();
    var l := TheLink();
    forall polled: bool
      ensures RunAndPoll(polled)
    {
      RunEnds(polled);
    }
    assert RunAndPoll(true) && RunAndPoll(false);
  }

  /** Polled at 20, a run ends in its outcome, and its log balances iff nothing was discarded. */
  ghost predicate RunAndPoll(polled: bool)
    requires InRange(TWICE, TheLink())
  {
    var x := Run(TWICE, TheLink(), Still(), TheRun(polled) + [Poll(20)]);
    && x == Outcome(TWICE, TheLink(), Still(), TheRun(polled), 20)
    && (x.Some? ==> (Accounted(x.value.traffic) <==> x.value.traffic.discarded == []))
  }

  lemma RunEnds(polled: bool)
    requires InRange(TWICE, TheLink())
    ensures RunAndPoll(polled)
  {
    hide Rationalize, Full, Run, Tally, Waiting, Lines, DepartureLines;
    var l, es := TheLink(), TheRun(polled);
    RunConcat(TWICE, l, Still(), es, [Poll(20)]);
    if Run(TWICE, l, Still(), es).Some? {
      PollOnce(TWICE, Run(TWICE, l, Still(), es).value, 20);
    }
    if Run(TWICE, l, Still(), es + [Poll(20)]).Some? {
      RunNonEmpty(polled);
      EmptyQueue();
      RunConserves(TWICE, l.traffic.queue, 0, Still(), es + [Poll(20)]);
    }
  }

  lemma RunNonEmpty(polled: bool)
    ensures NonEmpty(TheRun(polled) + [Poll(20)])
  {
    hide Full;
    FullFacts();
  }

  lemma EmptyQueue()
    ensures Empty(TheLink().traffic.queue) && Schedule.Valid(TWICE)
  {
  }

  lemma FreshStage()
    ensures Stage(TheLink(), Schedule.Timer(0, 0, false), 0, 0, 0)
  {
  }
}
