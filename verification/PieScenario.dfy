/** A PIE link whose run comes out differently when it is polled on the way. */
module PieScenario {
  import opened Text
  import opened Packets
  import opened Dropping
  import opened Discipline
  import opened Link
  import opened Scenarios
  import Pie
  import Schedule

  /** An opportunity at 10 and ten at 50: enough for one sample of the departure rate. */
  const ELEVEN := Schedule.Config([10, 50, 50, 50, 50, 50, 50, 50, 50, 50, 50], false)

  function QueueOf(n: nat, count: nat, stamp: nat, last: nat): Pie.State {
    Pie.Start(Limits(100, 0), 20, 100, 0).(pkts := Copies(n), dqCount := count, dqTstamp := stamp, lastUpdate := last)
  }

  ghost predicate Stage(l: State, timer: Schedule.Timer, n: nat, count: nat, stamp: nat, last: nat) {
    && l.timer == timer && l.traffic.left == 0 && l.traffic.queue == PIE(QueueOf(n, count, stamp, last))
  }

  /** Time of the last update once the queue has caught up. */
  function Caught(last: nat, now: nat): nat {
    last + Pie.T_UPDATE * Pie.Due(last, now)
  }

  /** Without a rate the probability stays 0. */
  lemma {:induction false} CatchesUp(n: nat, count: nat, stamp: nat, last: nat, now: nat)
    ensures Pie.CatchUp(QueueOf(n, count, stamp, last), now) == QueueOf(n, count, stamp, Caught(last, now))
    decreases now - last
  {
    hide Copies;
    if now - last > Pie.T_UPDATE {
      UpdatesOnce(n, count, stamp, last);
      CatchesUp(n, count, stamp, last + Pie.T_UPDATE, now);
      assert Pie.Due(last, now) == 1 + Pie.Due(last + Pie.T_UPDATE, now);
    }
  }

  lemma UpdatesOnce(n: nat, count: nat, stamp: nat, last: nat)
    ensures Pie.Update(QueueOf(n, count, stamp, last)) == QueueOf(n, count, stamp, last + Pie.T_UPDATE)
  {
    hide Copies, Bytes;
  }

  /** The rate meter starts, runs on, or finds no time gone by since it started. */
  lemma Measures(n: nat, count: nat, stamp: nat, last: nat, now: nat)
    requires n >= 11 && stamp <= now < 100 && (count == Pie.DQ_COUNT_INVALID || count <= 15040)
    requires count == Pie.DQ_COUNT_INVALID || count + PACKET_SIZE <= Pie.DQ_THRESHOLD || stamp == now
    ensures Pie.Measure(QueueOf(n, count, stamp, last), PACKET_SIZE, now) ==
            if count == Pie.DQ_COUNT_INVALID then QueueOf(n, PACKET_SIZE, now, last)
            else QueueOf(n, count + PACKET_SIZE, stamp, last)
  {
    hide Bytes, Pie.Sample;
    var s := QueueOf(n, count, stamp, last);
    assert Bytes(s.pkts) == n * PACKET_SIZE;
    hide Copies;
  }

  lemma TakesFront(n: nat, count: nat, stamp: nat, last: nat)
    ensures var s := QueueOf(n + 1, count, stamp, last);
            s.pkts != [] && s.pkts[0] == Full() && s.(pkts := s.pkts[1..]) == QueueOf(n, count, stamp, last)
  {
    hide Copies, Full;
    CopiesSnoc(n);
  }

  /** A dequeue while there is no sample yet. */
  lemma Takes(n: nat, count: nat, stamp: nat, last: nat, now: nat)
    requires n >= 11 && stamp <= now < 100 && (count == Pie.DQ_COUNT_INVALID || count <= 15040)
    requires count == Pie.DQ_COUNT_INVALID || count + PACKET_SIZE <= Pie.DQ_THRESHOLD || stamp == now
    ensures var s := QueueOf(n + 1, count, stamp, last);
            && s.pkts != []
            && Pie.Dequeue(s, now, now) ==
               (Full(), if count == Pie.DQ_COUNT_INVALID then QueueOf(n, PACKET_SIZE, now, Caught(last, now))
                        else QueueOf(n, count + PACKET_SIZE, stamp, Caught(last, now)))
  {
    hide Pie.CatchUp, Pie.Measure, QueueOf, Full;
    TakesFront(n, count, stamp, last);
    FullFacts();
    Measures(n, count, stamp, last, now);
    var starts := count == Pie.DQ_COUNT_INVALID;
    CatchesUp(n, if starts then PACKET_SIZE else count + PACKET_SIZE, if starts then now else stamp, last, now);
  }

  /** The queue after the sample taken at 50, and after the update at 60. */
  function AfterSample(): Pie.State {
    QueueOf(29, 0, 50, 30).(avgRate := 413)
  }

  function Wary(): Pie.State {
    AfterSample().(lastUpdate := 60, qdelay := 105, dropProb := 1.0)
  }

  /** The eleventh packet since 10, taken at 50, gives a sample of 16544 bytes in 40 milliseconds. */
  lemma TakesSample()
    ensures var s := QueueOf(30, 15040, 10, 30);
            s.pkts != [] && Pie.Dequeue(s, 50, 50) == (Full(), AfterSample())
  {
    hide Pie.CatchUp, Full, Copies;
    TakesFront(29, 15040, 10, 30);
    FullFacts();
    MeasuresRate();
    assert Pie.CatchUp(AfterSample(), 50) == AfterSample() by { NothingDue(AfterSample(), 50); }
  }

  lemma MeasuresRate()
    ensures Pie.Measure(QueueOf(29, 15040, 10, 30), PACKET_SIZE, 50) == AfterSample()
  {
    hide Bytes;
    assert Bytes(QueueOf(29, 15040, 10, 30).pkts) == 29 * PACKET_SIZE;
    hide Copies;
  }

  lemma NothingDue(s: Pie.State, now: nat)
    requires now <= s.lastUpdate + Pie.T_UPDATE
    ensures Pie.CatchUp(s, now) == s
  {
    hide Pie.Update;
  }

  /** With a rate, the delay is seen: at 70 the probability is 1. */
  lemma GrowsWary()
    ensures Pie.CatchUp(AfterSample(), 70) == Wary()
  {
    hide Bytes;
    assert Bytes(AfterSample().pkts) == 29 * PACKET_SIZE;
    hide Copies, Pie.CatchUp;
    assert Pie.Update(AfterSample()) == Wary();
    OneUpdate();
    NothingDue(Wary(), 70);
  }

  lemma OneUpdate()
    ensures Pie.CatchUp(AfterSample(), 70) == Pie.CatchUp(Pie.Update(AfterSample()), 70)
  {
    hide Pie.Update, Copies;
  }

  lemma Arrives(l: State, n: nat)
    requires Stage(l, Schedule.Timer(0, 0, false), n, Pie.DQ_COUNT_INVALID, 0, 0) && n < 100
    ensures InRange(ELEVEN, l)
    ensures var r := Handle(ELEVEN, l, Still(), Incoming(0, Full().contents));
            && r.Some?
            && Stage(r.value, Schedule.Timer(0, 0, false), n + 1, Pie.DQ_COUNT_INVALID, 0, 0)
  {
    hide Copies, Letters, Rationalize, DropRecord, Pie.CatchUp;
    RationalizeIdle(ELEVEN, l, Readings(Still(), 0), 0);
    NothingDue(l.traffic.queue.s, 0);
    CopiesSnoc(n);
  }

  lemma {:induction false} ArrivingMany(l: State, n: nat, k: nat)
    requires Stage(l, Schedule.Timer(0, 0, false), n, Pie.DQ_COUNT_INVALID, 0, 0) && n + k <= 100
    ensures InRange(ELEVEN, l)
    ensures var r := Run(ELEVEN, l, Still(), Arriving(k));
            && r.Some?
            && Stage(r.value, Schedule.Timer(0, 0, false), n + k, Pie.DQ_COUNT_INVALID, 0, 0)
    decreases k
  {
    hide Handle, Full, Stage;
    assert InRange(ELEVEN, l) by { StageInRange(l, Schedule.Timer(0, 0, false), n, Pie.DQ_COUNT_INVALID, 0, 0); }
    if k > 0 {
      Arrives(l, n);
      ArrivingMany(Handle(ELEVEN, l, Still(), Incoming(0, Full().contents)).value, n + 1, k - 1);
      assert Arriving(k)[1..] == Arriving(k - 1);
    }
  }

  lemma StageInRange(l: State, timer: Schedule.Timer, n: nat, count: nat, stamp: nat, last: nat)
    requires Stage(l, timer, n, count, stamp, last) && timer.next < 11
    ensures InRange(ELEVEN, l)
  {
  }

  /** One opportunity without a sample. */
  lemma Serves(l: State, timer: Schedule.Timer, n: nat, count: nat, stamp: nat, last: nat, env: Env, now: nat)
    requires Stage(l, timer, n + 1, count, stamp, last) && timer.next < 11 && !timer.finished
    requires forall tick: nat :: Clock(env, tick) == now
    requires n >= 11 && stamp <= now < 100 && (count == Pie.DQ_COUNT_INVALID || count <= 15040)
    requires count == Pie.DQ_COUNT_INVALID || count + PACKET_SIZE <= Pie.DQ_THRESHOLD || stamp == now
    ensures var starts := count == Pie.DQ_COUNT_INVALID;
            Stage(Serve(ELEVEN, l, env), Schedule.Use(ELEVEN, timer), n,
                     if starts then PACKET_SIZE else count + PACKET_SIZE,
                     if starts then now else stamp, Caught(last, now))
  {
    hide Full, Pie.Dequeue, QueueOf, Schedule.Use, Serve, Caught, Clock;
    Takes(n, count, stamp, last, now);
    FullFacts();
    assert Clock(env, l.traffic.ticks) == now && Clock(env, l.traffic.ticks + 1) == now;
    ServeFull(ELEVEN, l, env);
  }

  /** After `i` opportunities since the meter started at `stamp`. */
  ghost predicate Metered(l: State, i: nat, stamp: nat, last: nat)
    requires i <= 11
  {
    Stage(l, Schedule.Timer(if i < 11 then i else 0, 0, i == 11), 40 - i, i * PACKET_SIZE, stamp, last)
  }

  /** Up to the tenth packet the meter only counts. */
  lemma {:induction false} RunsOn(l: State, i: nat, stamp: nat, last: nat, env: Env, now: nat) returns (m: State)
    requires 1 <= i <= 10 && Metered(l, i, stamp, last) && Pie.Due(last, now) == 0
    requires stamp <= now && 50 <= now < 100 && forall tick: nat :: Clock(env, tick) == now
    ensures Metered(m, 10, stamp, last) && InRange(ELEVEN, l) && InRange(ELEVEN, m)
    ensures Rationalize(ELEVEN, l, env, now) == Rationalize(ELEVEN, m, env, now)
    decreases 10 - i
  {
    hide Serve, Rationalize, Stage, Clock;
    StageInRange(l, Schedule.Timer(i, 0, false), 40 - i, i * PACKET_SIZE, stamp, last);
    m := l;
    if i < 10 {
      Serves(l, Schedule.Timer(i, 0, false), 39 - i, i * PACKET_SIZE, stamp, last, env, now);
      StageTimer(l, i, 40 - i, i * PACKET_SIZE, stamp, last);
      RationalizeOnce(ELEVEN, l, env, now);
      m := RunsOn(Serve(ELEVEN, l, env), i + 1, stamp, last, env, now);
    }
  }

  lemma StageTimer(l: State, i: nat, n: nat, count: nat, stamp: nat, last: nat)
    requires i < 11 && Stage(l, Schedule.Timer(i, 0, false), n, count, stamp, last)
    ensures InRange(ELEVEN, l) && forall now :: now >= 50 ==> Schedule.Due(ELEVEN, l.timer, now)
    ensures Schedule.Use(ELEVEN, l.timer) == Schedule.Timer(if i < 10 then i + 1 else 0, 0, i == 10)
    ensures l.timer == Schedule.Timer(i, 0, false)
  {
    hide QueueOf;
  }

  /** The first opportunity starts the meter. */
  lemma Starts(l: State, env: Env, now: nat)
    requires Stage(l, Schedule.Timer(0, 0, false), 40, Pie.DQ_COUNT_INVALID, 0, 0)
    requires 10 <= now < 100 && forall tick: nat :: Clock(env, tick) == now
    ensures InRange(ELEVEN, l)
    ensures Metered(Serve(ELEVEN, l, env), 1, now, Caught(0, now)) && InRange(ELEVEN, Serve(ELEVEN, l, env))
    ensures Rationalize(ELEVEN, l, env, now) == Rationalize(ELEVEN, Serve(ELEVEN, l, env), env, now)
  {
    hide Serve, Stage, Clock, Rationalize, Caught;
    StageInRange(l, Schedule.Timer(0, 0, false), 40, Pie.DQ_COUNT_INVALID, 0, 0);
    Serves(l, Schedule.Timer(0, 0, false), 39, Pie.DQ_COUNT_INVALID, 0, 0, env, now);
    StageTimer(l, 0, 40, Pie.DQ_COUNT_INVALID, 0, 0);
    var m := Serve(ELEVEN, l, env);
    StageInRange(m, Schedule.Timer(1, 0, false), 39, PACKET_SIZE, now, Caught(0, now));
    FirstDue(l.timer, now);
    RationalizeOnce(ELEVEN, l, env, now);
  }

  lemma FirstDue(timer: Schedule.Timer, now: nat)
    requires timer == Schedule.Timer(0, 0, false) && now >= 10
    ensures Schedule.Due(ELEVEN, timer, now)
  {
  }

  /** Not looked at before 70, the queue hands out eleven packets in no time and learns no rate. */
  lemma Unpolled(l: State)
    requires Stage(l, Schedule.Timer(0, 0, false), 40, Pie.DQ_COUNT_INVALID, 0, 0)
    ensures InRange(ELEVEN, l)
    ensures Metered(Rationalize(ELEVEN, l, Readings(Still(), 70), 70), 11, 70, 60)
  {
    hide Serve, Stage, Rationalize;
    var env := Readings(Still(), 70);
    StageTimer(l, 0, 40, Pie.DQ_COUNT_INVALID, 0, 0);
    Starts(l, env, 70);
    var m := RunsOn(Serve(ELEVEN, l, env), 1, 70, 60, env, 70);
    Serves(m, Schedule.Timer(10, 0, false), 29, 15040, 70, 60, env, 70);
    StageTimer(m, 10, 30, 15040, 70, 60);
    RationalizeOnce(ELEVEN, m, env, 70);
    StageParts(Serve(ELEVEN, m, env), Schedule.Timer(0, 0, true), 29, 16544, 70, 60);
    UsedUp(Serve(ELEVEN, m, env), env, 70);
  }

  /** Once the trace is used up nothing more is served. */
  lemma UsedUp(l: State, env: Env, now: nat)
    requires l.timer == Schedule.Timer(0, 0, true)
    ensures InRange(ELEVEN, l) && Rationalize(ELEVEN, l, env, now) == l
  {
  }

  /** Looked at at 10 and at 50, it learns that eleven packets took 40 milliseconds. */
  lemma Polled(l: State)
    requires Stage(l, Schedule.Timer(0, 0, false), 40, Pie.DQ_COUNT_INVALID, 0, 0)
    ensures InRange(ELEVEN, l)
    ensures var r := Rationalize(ELEVEN, Rationalize(ELEVEN, l, Readings(Still(), 10), 10), Readings(Still(), 50), 50);
            r.timer == Schedule.Timer(0, 0, true) && r.traffic.queue == PIE(AfterSample())
  {
    hide Serve, Stage, Rationalize, AfterSample;
    var at10, at50 := Readings(Still(), 10), Readings(Still(), 50);
    StageTimer(l, 0, 40, Pie.DQ_COUNT_INVALID, 0, 0);
    Starts(l, at10, 10);
    var m := Serve(ELEVEN, l, at10);
    StageTimer(m, 1, 39, PACKET_SIZE, 10, 0);
    RationalizeIdle(ELEVEN, m, at10, 10);
    Serves(m, Schedule.Timer(1, 0, false), 38, PACKET_SIZE, 10, 0, at50, 50);
    RationalizeOnce(ELEVEN, m, at50, 50);
    var k := RunsOn(Serve(ELEVEN, m, at50), 2, 10, 30, at50, 50);
    StageTimer(k, 10, 30, 15040, 10, 30);
    RationalizeOnce(ELEVEN, k, at50, 50);
    ServesSample(k, at50);
    UsedUp(Serve(ELEVEN, k, at50), at50, 50);
  }

  lemma ServesSample(l: State, env: Env)
    requires Metered(l, 10, 10, 30) && forall tick: nat :: Clock(env, tick) == 50
    ensures Schedule.InRange(ELEVEN, l.timer) && !l.timer.finished
    ensures Serve(ELEVEN, l, env).timer == Schedule.Timer(0, 0, true)
    ensures Serve(ELEVEN, l, env).traffic.queue == PIE(AfterSample())
  {
    hide Serve, Pie.Dequeue, Full, AfterSample, QueueOf, Clock;
    TakesSample();
    FullFacts();
    StageTimer(l, 10, 30, 15040, 10, 30);
    assert Clock(env, l.traffic.ticks) == 50 && Clock(env, l.traffic.ticks + 1) == 50;
    ServeFull(ELEVEN, l, env);
  }

  lemma StageParts(l: State, timer: Schedule.Timer, n: nat, count: nat, stamp: nat, last: nat)
    requires Stage(l, timer, n, count, stamp, last)
    ensures l.timer == timer && l.traffic.queue == PIE(QueueOf(n, count, stamp, last))
  {
    hide QueueOf;
  }

  /** The same packet, arriving at 70, is refused by the queue that knows its delay ... */
  lemma Refuses(l: State)
    requires l.timer == Schedule.Timer(0, 0, true) && l.traffic.queue == PIE(AfterSample())
    ensures InRange(ELEVEN, l)
    ensures var r := Handle(ELEVEN, l, Still(), Incoming(70, Full().contents));
            r.Some? && r.value.timer == l.timer && |Pkts(r.value.traffic.queue)| == 29
  {
    hide Rationalize, DropRecord, Pie.CatchUp, Copies, Bytes, Letters;
    UsedUp(l, Readings(Still(), 70), 70);
    GrowsWary();
    WaryRefuses();
  }

  lemma WaryRefuses()
    ensures Pie.DropEarly(Wary(), 0.0) && |Wary().pkts| == 29
  {
    hide Bytes;
    assert Bytes(Wary().pkts) == 29 * PACKET_SIZE;
    hide Copies;
  }

  /** ... and accepted by the one that does not. */
  lemma Accepts(l: State)
    requires l.timer == Schedule.Timer(0, 0, true) && l.traffic.queue == PIE(QueueOf(29, 16544, 70, 60))
    ensures InRange(ELEVEN, l)
    ensures var r := Handle(ELEVEN, l, Still(), Incoming(70, Full().contents));
            r.Some? && r.value.timer == l.timer && |Pkts(r.value.traffic.queue)| == 30
  {
    hide Rationalize, DropRecord, Pie.CatchUp, Copies, Bytes, Letters;
    UsedUp(l, Readings(Still(), 70), 70);
    NothingDue(l.traffic.queue.s, 70);
  }

  function TheLink(): State {
    Start(PIE(QueueOf(0, Pie.DQ_COUNT_INVALID, 0, 0)), 0)
  }

  /** Forty packets at 0 and one at 70, and two looks at the link between or none. */
  function TheRun(polled: bool): seq<Event> {
    Arriving(40) + (if polled then [Poll(10), Poll(50)] else []) + [Incoming(70, Full().contents)]
  }

  /** Polling matters with PIE: with the same arrivals the last packet is refused or accepted, as the
      link was polled meanwhile or not. */
  lemma PollingMatters()
    ensures InRange(ELEVEN, TheLink()) && Arrivals(TheRun(true)) == Arrivals(TheRun(false))
    ensures Timed(TheRun(true), 0, 70) && Timed(TheRun(false), 0, 70)
    ensures var polled := Outcome(ELEVEN, TheLink(), Still(), TheRun(true), 70);
            var left := Outcome(ELEVEN, TheLink(), Still(), TheRun(false), 70);
            && polled.Some? && |Pkts(polled.value.traffic.queue)| == 29
            && left.Some? && |Pkts(left.value.traffic.queue)| == 30
  {
    hide Rationalize, Handle, Stage, Full, Run, Arrivals, Timed;
    AfterArrivals();
    var m := Run(ELEVEN, TheLink(), Still(), Arriving(40)).value;
    RunPolled(m);
    RunUnpolled(m);
    RunTimed(true);
    RunTimed(false);
  }

  lemma AfterArrivals()
    ensures InRange(ELEVEN, TheLink())
    ensures var r := Run(ELEVEN, TheLink(), Still(), Arriving(40));
            r.Some? && Stage(r.value, Schedule.Timer(0, 0, false), 40, Pie.DQ_COUNT_INVALID, 0, 0)
  {
    hide Run, Arriving;
    ArrivingMany(TheLink(), 0, 40);
  }

  lemma RunPolled(m: State)
    requires Stage(m, Schedule.Timer(0, 0, false), 40, Pie.DQ_COUNT_INVALID, 0, 0)
    requires InRange(ELEVEN, TheLink()) && Run(ELEVEN, TheLink(), Still(), Arriving(40)) == Some(m)
    ensures var polled := Outcome(ELEVEN, TheLink(), Still(), TheRun(true), 70);
            polled.Some? && |Pkts(polled.value.traffic.queue)| == 29
  {
    hide Rationalize, Handle, Stage, Full, Run, AfterSample, Pkts;
    var polls, last := [Poll(10), Poll(50)], Incoming(70, Full().contents);
    Polled(m);
    RunConcat(ELEVEN, TheLink(), Still(), Arriving(40), polls);
    RunConcat(ELEVEN, TheLink(), Still(), Arriving(40) + polls, [last]);
    PollTwice(ELEVEN, m, 10, 50);
    var k := Run(ELEVEN, m, Still(), polls).value;
    RunOne(ELEVEN, k, last);
    Refuses(k);
    UsedUp(Handle(ELEVEN, k, Still(), last).value, Readings(Still(), 70), 70);
  }

  lemma RunUnpolled(m: State)
    requires Stage(m, Schedule.Timer(0, 0, false), 40, Pie.DQ_COUNT_INVALID, 0, 0)
    requires InRange(ELEVEN, TheLink()) && Run(ELEVEN, TheLink(), Still(), Arriving(40)) == Some(m)
    ensures var left := Outcome(ELEVEN, TheLink(), Still(), TheRun(false), 70);
            left.Some? && |Pkts(left.value.traffic.queue)| == 30
  {
    hide Rationalize, Handle, Stage, Full, Run, QueueOf, Pkts;
    var last := Incoming(70, Full().contents);
    Unpolled(m);
    var k := Rationalize(ELEVEN, m, Readings(Still(), 70), 70);
    StageParts(k, Schedule.Timer(0, 0, true), 29, 16544, 70, 60);
    assert Arriving(40) + [] + [last] == Arriving(40) + [last];
    RunConcat(ELEVEN, TheLink(), Still(), Arriving(40), [last]);
    RunOne(ELEVEN, m, last);
    HandleResumes(m, last);
    Accepts(k);
    UsedUp(Handle(ELEVEN, k, Still(), last).value, Readings(Still(), 70), 70);
  }

  /** Handling an event begins by emulating up to its time. */
  lemma HandleResumes(l: State, e: Event)
    requires InRange(ELEVEN, l)
    ensures Handle(ELEVEN, l, Still(), e) ==
            Handle(ELEVEN, Rationalize(ELEVEN, l, Readings(Still(), e.now), e.now), Still(), e)
  {
    hide Rationalize, Admit;
    var env := Readings(Still(), e.now);
    RationalizeIdle(ELEVEN, Rationalize(ELEVEN, l, env, e.now), env, e.now);
  }

  lemma RunTimed(polled: bool)
    ensures Timed(TheRun(polled), 0, 70)
    ensures Arrivals(TheRun(polled)) == Arrivals(Arriving(40) + [Incoming(70, Full().contents)])
  {
    hide Full, Arrivals, Timed;
    var polls, last := if polled then [Poll(10), Poll(50)] else [], [Incoming(70, Full().contents)];
    ArrivalsConcat(Arriving(40) + polls, last);
    ArrivalsConcat(Arriving(40), polls);
    ArrivalsConcat(Arriving(40), last);
    PollsOnly(polled);
    assert Arrivals(Arriving(40)) + [] == Arrivals(Arriving(40));
    assert Arriving(40) + polls + last == Arriving(40) + (polls + last);
    PollsTimed(polled, Full().contents);
    TimedAfter(40, polls + last, 70);
  }

  lemma PollsOnly(polled: bool)
    ensures Arrivals(if polled then [Poll(10), Poll(50)] else []) == []
  {
    assert [Poll(10), Poll(50)][1..] == [Poll(50)];
    NoArrivals(50);
  }

  lemma PollsTimed(polled: bool, contents: string)
    ensures Timed((if polled then [Poll(10), Poll(50)] else []) + [Incoming(70, contents)], 0, 70)
  {
    var last := [Incoming(70, contents)];
    assert last[1..] == [];
    assert Timed(last, 0, 70) && Timed(last, 50, 70);
    assert ([Poll(10), Poll(50)] + last)[1..] == [Poll(50)] + last;
    assert ([Poll(50)] + last)[1..] == last;
    assert [] + last == last;
  }
}
