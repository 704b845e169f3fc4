/** The emulated link: a queue served by the opportunities of a trace. */
module Link {
  import opened Text
  import opened Packets
  import opened Discipline
  import Schedule

  datatype Delivery = Delivery(packet: Packet, time: nat)

  datatype LogEntry =
    | Arrival(time: nat, size: nat)
    | Drop(time: nat, packets: nat, bytes: nat)
    | Opportunity(time: nat, size: nat)
    | Departure(time: nat, size: nat, delay: int)

  /** The queue, the packet in transit with its bytes still to send, and the history of the run:
      packets sent, the log, packets a queue discarded when asked for one, packets arrived, and
      readings taken of clock and random numbers. */
  datatype Traffic = Traffic(queue: Queue, transit: Packet, left: nat, sent: seq<Delivery>, log: seq<LogEntry>,
                             discarded: seq<Packet>, arrived: seq<Packet>, ticks: nat)

  datatype State = State(timer: Schedule.Timer, traffic: Traffic)

  function Start(queue: Queue, base: nat): State {
    State(Schedule.Timer(0, base, false), Traffic(queue, Packet("", 0), 0, [], [], [], [], 0))
  }

  /** Put the next packet of the queue in transit. */
  function Load(t: Traffic, env: Env): Traffic
    requires Pkts(t.queue) != []
  {
    var r := Dequeue(t.queue, env, t.ticks);
    t.(queue := r.q, transit := r.p, left := |r.p.contents|,
       discarded := t.discarded + r.discarded, ticks := t.ticks + 2)
  }

  /** Send bytes of the packet in transit; with its last byte it departs. */
  function Send(t: Traffic, time: nat, amount: nat): Traffic
    requires amount <= t.left
  {
    if amount < t.left then t.(left := t.left - amount)
    else t.(left := 0, sent := t.sent + [Delivery(t.transit, time)],
            log := t.log + [Departure(time, |t.transit.contents|, time - t.transit.arrival)])
  }

  function Min(a: nat, b: nat): nat {
    if a < b then a else b
  }

  /** The inner loop of `rationalize`: use up to `room` bytes of one opportunity. An empty packet
      in transit would fail an assertion there; here it ends the loop. */
  function Fill(t: Traffic, env: Env, time: nat, room: nat): Traffic
    decreases room
  {
    if room == 0 || (t.left == 0 && Pkts(t.queue) == []) then t
    else
      var u := if t.left == 0 then Load(t, env) else t;
      if u.left == 0 then u
      else Fill(Send(u, time, Min(room, u.left)), env, time, room - Min(room, u.left))
  }

  ghost predicate InRange(cfg: Schedule.Config, l: State) {
    Schedule.Valid(cfg) && Schedule.InRange(cfg, l.timer)
  }

  /** One pass of the outer loop: burn the opportunity at hand, at its own time. */
  function Serve(cfg: Schedule.Config, l: State, env: Env): State
    requires Schedule.InRange(cfg, l.timer) && !l.timer.finished
  {
    var time := Schedule.NextTime(cfg, l.timer).value;
    State(Schedule.Use(cfg, l.timer),
          Fill(l.traffic.(log := l.traffic.log + [Opportunity(time, PACKET_SIZE)]), env, time, PACKET_SIZE))
  }

  /** `rationalize`: emulate the link up to `now`. */
  function Rationalize(cfg: Schedule.Config, l: State, env: Env, now: nat): (r: State)
    requires InRange(cfg, l)
    ensures InRange(cfg, r) && !Schedule.Due(cfg, r.timer, now)
    decreases !l.timer.finished, if l.timer.base <= now then now - l.timer.base + 1 else 0,
              |cfg.schedule| - l.timer.next
  {
    if Schedule.Due(cfg, l.timer, now) then
      TimerDecreases(cfg, l.timer, now);
      Rationalize(cfg, Serve(cfg, l, env), env, now)
    else l
  }

  lemma TimerDecreases(cfg: Schedule.Config, t: Schedule.Timer, now: nat)
    requires Schedule.Valid(cfg) && Schedule.InRange(cfg, t) && Schedule.Due(cfg, t, now)
    ensures var u := Schedule.Use(cfg, t);
            || u.finished
            || (!u.finished && u.base == t.base && u.next > t.next)
            || (!u.finished && t.base <= now && u.base > t.base)
  {
    Schedule.SmallMod(t.next + 1, |cfg.schedule|);
  }

  /** Bytes and packets that a queue lost when a packet arrived. */
  function DropRecord(before: Queue, p: Packet, after: Queue, now: nat): seq<LogEntry> {
    var packets := |Pkts(before)| + 1 - |Pkts(after)|;
    var bytes := Bytes(Pkts(before)) + |p.contents| - Bytes(Pkts(after));
    if packets > 0 || bytes > 0 then
      [Drop(now, if packets > 0 then packets else 0, if bytes > 0 then bytes else 0)]
    else []
  }

  function Admit(t: Traffic, p: Packet, env: Env, now: nat): Traffic {
    var q := Enqueue(t.queue, p, env, t.ticks);
    t.(queue := q, log := t.log + [Arrival(now, |p.contents|)] + DropRecord(t.queue, p, q, now),
       arrived := t.arrived + [p], ticks := t.ticks + 1)
  }

  /** `read_packet`: None where it throws. */
  function Receive(cfg: Schedule.Config, l: State, contents: string, env: Env, now: nat): Option<State>
    requires InRange(cfg, l)
  {
    if |contents| > PACKET_SIZE then None
    else
      var r := Rationalize(cfg, l, env, now);
      Some(r.(traffic := Admit(r.traffic, Packet(contents, now), env, now)))
  }

  /** A packet is received, or the time until the next event is asked for. */
  datatype Event = Incoming(now: nat, contents: string) | Poll(now: nat)

  /** The clock and the random numbers of a run: a reading taken while an event is handled is the
      time of the event and the time gone by since it began. */
  datatype World = World(lag: nat -> nat, random: nat -> real)

  /** The readings while an event of time `now` is handled. */
  function Readings(w: World, now: nat): Env {
    Env(now, w.lag, w.random)
  }

  function Handle(cfg: Schedule.Config, l: State, w: World, e: Event): (r: Option<State>)
    requires InRange(cfg, l)
    ensures r.Some? ==> InRange(cfg, r.value)
  {
    match e
    case Poll(now) => Some(Rationalize(cfg, l, Readings(w, now), now))
    case Incoming(now, contents) => Receive(cfg, l, contents, Readings(w, now), now)
  }

  function Run(cfg: Schedule.Config, l: State, w: World, es: seq<Event>): (r: Option<State>)
    requires InRange(cfg, l)
    ensures r.Some? ==> InRange(cfg, r.value)
    decreases |es|
  {
    if es == [] then Some(l)
    else match Handle(cfg, l, w, es[0])
      case None => None
      case Some(r) => Run(cfg, r, w, es[1..])
  }

  // ---------------------------------------------------------------- schedule

  /** The next `n` opportunities, with nothing arriving. */
  function ServeMany(cfg: Schedule.Config, l: State, env: Env, n: nat): State
    requires Schedule.InRange(cfg, l.timer)
    decreases n
  {
    if n == 0 || l.timer.finished then l else ServeMany(cfg, Serve(cfg, l, env), env, n - 1)
  }

  /** The schedule has `n` more opportunities. */
  ghost predicate Available(cfg: Schedule.Config, t: Schedule.Timer, n: nat)
    requires Schedule.InRange(cfg, t)
    decreases n
  {
    n == 0 || (!t.finished && Available(cfg, Schedule.Use(cfg, t), n - 1))
  }

  /** Emulating up to `now` serves exactly the opportunities due by then, one by one, and ends
      with one that is not due. */
  lemma {:induction false} RationalizeServesDue(cfg: Schedule.Config, l: State, env: Env, now: nat) returns (n: nat)
    requires InRange(cfg, l)
    ensures Available(cfg, l.timer, n)
    ensures Rationalize(cfg, l, env, now) == ServeMany(cfg, l, env, n)
    ensures Rationalize(cfg, l, env, now).timer == Schedule.UseMany(cfg, l.timer, n)
    ensures forall k: nat :: k < n ==> Schedule.Due(cfg, Schedule.UseMany(cfg, l.timer, k), now)
    ensures !Schedule.Due(cfg, Schedule.UseMany(cfg, l.timer, n), now)
    decreases !l.timer.finished, if l.timer.base <= now then now - l.timer.base + 1 else 0,
              |cfg.schedule| - l.timer.next
  {
    hide Fill;
    n := 0;
    if Schedule.Due(cfg, l.timer, now) {
      TimerDecreases(cfg, l.timer, now);
      n := RationalizeServesDue(cfg, Serve(cfg, l, env), env, now);
      n := n + 1;
      forall k: nat | k < n
        ensures Schedule.Due(cfg, Schedule.UseMany(cfg, l.timer, k), now)
      {
        if k > 0 {
          assert Schedule.UseMany(cfg, l.timer, k) == Schedule.UseMany(cfg, Schedule.Use(cfg, l.timer), k - 1);
        }
      }
    }
  }

  // ---------------------------------------------------------------- independence from polling

  /** Under the same readings, stopping at an earlier time on the way changes nothing. */
  lemma {:induction false} RationalizeResumes(cfg: Schedule.Config, l: State, env: Env, t1: nat, t2: nat)
    requires InRange(cfg, l) && t1 <= t2
    ensures Rationalize(cfg, Rationalize(cfg, l, env, t1), env, t2) == Rationalize(cfg, l, env, t2)
    decreases !l.timer.finished, if l.timer.base <= t1 then t1 - l.timer.base + 1 else 0, |cfg.schedule| - l.timer.next
  {
    hide Fill;
    if Schedule.Due(cfg, l.timer, t1) {
      TimerDecreases(cfg, l.timer, t1);
      RationalizeResumes(cfg, Serve(cfg, l, env), env, t1, t2);
    }
  }

  lemma LoadIgnoresEnv(t: Traffic, env: Env, other: Env)
    requires ClockFree(t.queue) && Pkts(t.queue) != []
    ensures Load(t, env) == Load(t, other) && ClockFree(Load(t, env).queue)
  {
    hide Dequeue, ClockFree, Pkts;
    ClockFreeIgnoresEnv(t.queue, t.transit, env, other, t.ticks);
  }

  lemma SendOnly(t: Traffic, time: nat, amount: nat)
    requires amount <= t.left
    ensures Send(t, time, amount).queue == t.queue
  {
  }

  /** A queue without a clock makes the readings of the clock irrelevant, and stays such a queue. */
  lemma {:induction false} FillIgnoresEnv(t: Traffic, env: Env, other: Env, time: nat, room: nat)
    requires ClockFree(t.queue)
    ensures Fill(t, env, time, room) == Fill(t, other, time, room)
    ensures ClockFree(Fill(t, env, time, room).queue)
    decreases room
  {
    hide Load, Send, ClockFree, Pkts;
    if room != 0 && !(t.left == 0 && Pkts(t.queue) == []) {
      if t.left == 0 {
        LoadIgnoresEnv(t, env, other);
      }
      var u := if t.left == 0 then Load(t, env) else t;
      if u.left != 0 {
        SendOnly(u, time, Min(room, u.left));
        FillIgnoresEnv(Send(u, time, Min(room, u.left)), env, other, time, room - Min(room, u.left));
      }
    }
  }

  lemma {:induction false} RationalizeIgnoresEnv(cfg: Schedule.Config, l: State, env: Env, other: Env, now: nat)
    requires InRange(cfg, l) && ClockFree(l.traffic.queue)
    ensures Rationalize(cfg, l, env, now) == Rationalize(cfg, l, other, now)
    ensures ClockFree(Rationalize(cfg, l, env, now).traffic.queue)
    decreases !l.timer.finished, if l.timer.base <= now then now - l.timer.base + 1 else 0,
              |cfg.schedule| - l.timer.next
  {
    hide Fill, ClockFree;
    if Schedule.Due(cfg, l.timer, now) {
      TimerDecreases(cfg, l.timer, now);
      var time := Schedule.NextTime(cfg, l.timer).value;
      var t := l.traffic.(log := l.traffic.log + [Opportunity(time, PACKET_SIZE)]);
      FillIgnoresEnv(t, env, other, time, PACKET_SIZE);
      RationalizeIgnoresEnv(cfg, Serve(cfg, l, env), env, other, now);
    }
  }

  /** With a queue without a clock, stopping at an earlier time on the way changes nothing, whatever
      the clock shows in the three calls. */
  lemma RationalizeConfluent(cfg: Schedule.Config, l: State, first: Env, second: Env, only: Env, t1: nat, t2: nat)
    requires InRange(cfg, l) && ClockFree(l.traffic.queue) && t1 <= t2
    ensures Rationalize(cfg, Rationalize(cfg, l, first, t1), second, t2) == Rationalize(cfg, l, only, t2)
  {
    hide Rationalize, ClockFree;
    RationalizeIgnoresEnv(cfg, l, first, only, t1);
    RationalizeIgnoresEnv(cfg, Rationalize(cfg, l, first, t1), second, only, t2);
    RationalizeResumes(cfg, l, only, t1, t2);
  }

  /** Event times do not go back and lie between two bounds. */
  ghost predicate Timed(es: seq<Event>, from: nat, until: nat) {
    if es == [] then from <= until
    else from <= es[0].now <= until && Timed(es[1..], es[0].now, until)
  }

  function Arrivals(es: seq<Event>): seq<Event> {
    if es == [] then []
    else (if es[0].Incoming? then [es[0]] else []) + Arrivals(es[1..])
  }

  /** Run the events and emulate up to `until`. */
  function Outcome(cfg: Schedule.Config, l: State, w: World, es: seq<Event>, until: nat): Option<State>
    requires InRange(cfg, l)
  {
    match Run(cfg, l, w, es)
    case None => None
    case Some(r) => Some(Rationalize(cfg, r, Readings(w, until), until))
  }

  /** Handling an event depends on the clock no more than the queue does. */
  lemma HandleIgnoresWorld(cfg: Schedule.Config, l: State, w: World, other: World, e: Event)
    requires InRange(cfg, l) && ClockFree(l.traffic.queue)
    ensures Handle(cfg, l, w, e) == Handle(cfg, l, other, e)
    ensures Handle(cfg, l, w, e).Some? ==> ClockFree(Handle(cfg, l, w, e).value.traffic.queue)
  {
    hide Rationalize, Enqueue, ClockFree;
    var env, alt := Readings(w, e.now), Readings(other, e.now);
    RationalizeIgnoresEnv(cfg, l, env, alt, e.now);
    if e.Incoming? {
      var r := Rationalize(cfg, l, env, e.now);
      ClockFreeIgnoresEnv(r.traffic.queue, Packet(e.contents, e.now), env, alt, r.traffic.ticks);
    }
  }

  /** A poll before the first event makes no difference in the end. */
  lemma FirstPollVanishes(cfg: Schedule.Config, l: State, w: World, from: nat, es: seq<Event>, until: nat)
    requires InRange(cfg, l) && ClockFree(l.traffic.queue) && Timed(es, from, until)
    ensures Outcome(cfg, Rationalize(cfg, l, Readings(w, from), from), w, es, until) == Outcome(cfg, l, w, es, until)
  {
    hide Rationalize, ClockFree, Readings;
    var next := if es == [] then until else es[0].now;
    RationalizeConfluent(cfg, l, Readings(w, from), Readings(w, next), Readings(w, next), from, next);
  }

  /** With a queue without a clock, all polls vanish. */
  lemma {:induction false} PollsVanish(cfg: Schedule.Config, l: State, w: World, es: seq<Event>, from: nat, until: nat)
    requires InRange(cfg, l) && ClockFree(l.traffic.queue) && Timed(es, from, until)
    ensures Outcome(cfg, l, w, es, until) == Outcome(cfg, l, w, Arrivals(es), until)
    decreases |es|
  {
    hide Rationalize, ClockFree, Readings;
    if es != [] {
      var rest := es[1..];
      HandleIgnoresWorld(cfg, l, w, w, es[0]);
      match es[0]
      case Poll(now) =>
        FirstPollVanishes(cfg, l, w, now, rest, until);
        PollsVanish(cfg, l, w, rest, now, until);
        assert [] + Arrivals(rest) == Arrivals(rest);
      case Incoming(now, contents) =>
        var r := Handle(cfg, l, w, es[0]);
        assert Arrivals(es)[0] == es[0] && Arrivals(es)[1..] == Arrivals(rest);
        if r.Some? {
          PollsVanish(cfg, r.value, w, rest, now, until);
        }
    }
  }

  lemma {:induction false} RunIgnoresWorld(cfg: Schedule.Config, l: State, w: World, other: World, es: seq<Event>)
    requires InRange(cfg, l) && ClockFree(l.traffic.queue)
    ensures Run(cfg, l, w, es) == Run(cfg, l, other, es)
    ensures Run(cfg, l, w, es).Some? ==> ClockFree(Run(cfg, l, w, es).value.traffic.queue)
    decreases |es|
  {
    hide Handle, ClockFree;
    if es != [] {
      HandleIgnoresWorld(cfg, l, w, other, es[0]);
      if Handle(cfg, l, w, es[0]).Some? {
        RunIgnoresWorld(cfg, Handle(cfg, l, w, es[0]).value, w, other, es[1..]);
      }
    }
  }

  /** Polling independence: with an infinite, drop-tail or drop-head queue, the same timed arrivals
      give the same log, the same packets sent in the same order at the same times and the same
      state of the link, wherever polls fall and whatever the clock shows meanwhile. CodelScenario and
      PieScenario show that this fails with CoDel and with PIE, LinkClocked when. */
  lemma PollingIndependence(cfg: Schedule.Config, l: State, w: World, es: seq<Event>, other: World, fs: seq<Event>,
                            until: nat)
    requires InRange(cfg, l) && ClockFree(l.traffic.queue)
    requires Timed(es, 0, until) && Timed(fs, 0, until) && Arrivals(es) == Arrivals(fs)
    ensures Outcome(cfg, l, w, es, until) == Outcome(cfg, l, other, fs, until)
  {
    hide Run, Rationalize, ClockFree;
    PollsVanish(cfg, l, w, es, 0, until);
    PollsVanish(cfg, l, other, fs, 0, until);
    RunIgnoresWorld(cfg, l, w, other, Arrivals(es));
    var r := Run(cfg, l, w, Arrivals(es));
    if r.Some? {
      RationalizeIgnoresEnv(cfg, r.value, Readings(w, until), Readings(other, until), until);
    }
  }
}
