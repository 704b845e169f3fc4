/** When packets depart, with no arrivals in between: an opportunity is used as far as packets last,
    whatever the queue, and departure times have a closed form as long as the queue discards nothing
    - which only CoDel ever does. */
module LinkDepartures {
  import opened Packets
  import opened Discipline
  import opened Link
  import opened LinkRuns
  import Schedule

  /** A packet with the bytes of it still to be sent. */
  datatype Job = Job(packet: Packet, bytes: nat)

  function Jobs(ps: seq<Packet>): (js: seq<Job>)
    ensures |js| == |ps| && forall k :: 0 <= k < |ps| ==> js[k] == Job(ps[k], |ps[k].contents|)
  {
    if ps == [] then [] else [Job(ps[0], |ps[0].contents|)] + Jobs(ps[1..])
  }

  /** Everything waiting: the packet in transit, then the queue. */
  function Backlog(t: Traffic): seq<Job> {
    (if t.left > 0 then [Job(t.transit, t.left)] else []) + Jobs(Pkts(t.queue))
  }

  /** Bytes of the first `n` jobs. */
  function Cumulative(js: seq<Job>, n: nat): nat
    requires n <= |js|
  {
    if n == 0 then 0 else js[0].bytes + Cumulative(js[1..], n - 1)
  }

  /** Reference behaviour: send `room` bytes of the jobs in order; the packets finished, and what
      is left. */
  function Drain(js: seq<Job>, room: nat): (seq<Packet>, seq<Job>)
    decreases |js|
  {
    if js == [] then ([], [])
    else if room < js[0].bytes then ([], [js[0].(bytes := js[0].bytes - room)] + js[1..])
    else
      var (done, rest) := Drain(js[1..], room - js[0].bytes);
      ([js[0].packet] + done, rest)
  }

  function Deliveries(ps: seq<Packet>, time: nat): (ds: seq<Delivery>)
    ensures |ds| == |ps| && forall k :: 0 <= k < |ps| ==> ds[k] == Delivery(ps[k], time)
  {
    if ps == [] then [] else [Delivery(ps[0], time)] + Deliveries(ps[1..], time)
  }

  /** A sound queue of sendable packets. */
  ghost predicate Steady(t: Traffic) {
    Sound(t.queue) && Sendable(Pkts(t.queue))
  }

  /** Loading a packet that the queue gives without discarding any leaves the backlog as it is. */
  lemma LoadKeepsBacklog(t: Traffic, env: Env)
    requires Steady(t) && t.left == 0 && Pkts(t.queue) != []
    ensures var u := Load(t, env);
            && Steady(u) && 0 < u.left && u.sent == t.sent && t.discarded <= u.discarded
            && SameKind(t.queue, u.queue) && (!t.queue.CoDel? ==> u.discarded == t.discarded)
            && (u.discarded == t.discarded ==> Backlog(u) == Backlog(t))
  {
    hide Dequeue, Sound, SameKind, Pkts, Backlog, Sendable;
    DequeueLaw(t.queue, env, t.ticks);
    var r, ps := Dequeue(t.queue, env, t.ticks), Pkts(t.queue);
    SendableParts(ps, r.p, r.discarded, Pkts(r.q));
    assert t.discarded + [] == t.discarded;
    if r.discarded == [] {
      assert [r.p] + [] + Pkts(r.q) == [r.p] + Pkts(r.q);
      BacklogLoaded(t, Load(t, env), r.p);
    } else {
      assert |t.discarded + r.discarded| > |t.discarded|;
    }
  }

  lemma BacklogLoaded(t: Traffic, u: Traffic, p: Packet)
    requires t.left == 0 && 0 < u.left == |p.contents| && u.transit == p
    requires Pkts(t.queue) == [p] + Pkts(u.queue)
    ensures Backlog(u) == Backlog(t)
  {
    hide Jobs, Pkts;
    JobsCons(p, Pkts(u.queue));
    assert [] + Jobs(Pkts(t.queue)) == Jobs(Pkts(t.queue));
  }

  lemma JobsCons(p: Packet, ps: seq<Packet>)
    ensures Jobs([p] + ps) == [Job(p, |p.contents|)] + Jobs(ps)
  {
    assert ([p] + ps)[1..] == ps;
  }

  lemma SendKeepsQueue(t: Traffic, time: nat, amount: nat)
    requires amount <= t.left
    ensures Send(t, time, amount).queue == t.queue && Send(t, time, amount).discarded == t.discarded
  {
  }

  /** What a queue has discarded only grows, and stays the same but for CoDel. */
  lemma {:induction false} FillDiscards(t: Traffic, env: Env, time: nat, room: nat)
    requires Steady(t)
    ensures var r := Fill(t, env, time, room);
            && t.discarded <= r.discarded && Steady(r) && (r.queue.CoDel? <==> t.queue.CoDel?)
            && (!t.queue.CoDel? ==> r.discarded == t.discarded)
    decreases room
  {
    hide Load, Steady, Send, Backlog, SameKind;
    if room != 0 && !(t.left == 0 && Pkts(t.queue) == []) {
      if t.left == 0 {
        LoadKeepsBacklog(t, env);
        KindOnly(t.queue, Load(t, env).queue);
      }
      var u := if t.left == 0 then Load(t, env) else t;
      var v := Send(u, time, Min(room, u.left));
      SendKeepsQueue(u, time, Min(room, u.left));
      SteadyQueue(u, v);
      FillDiscards(v, env, time, room - Min(room, u.left));
    }
  }

  /** Draining exactly nothing. */
  lemma DrainNothing(js: seq<Job>)
    requires forall k :: 0 <= k < |js| ==> js[k].bytes > 0
    ensures Drain(js, 0) == ([], js)
  {
    if js != [] {
      assert [js[0].(bytes := js[0].bytes - 0)] + js[1..] == js;
    }
  }

  /** Discarding nothing on the way, the inner loop is the reference drain of the backlog. */
  lemma {:induction false} FillDrains(t: Traffic, env: Env, time: nat, room: nat)
    requires Steady(t) && Fill(t, env, time, room).discarded == t.discarded
    ensures var r := Fill(t, env, time, room);
            var (done, rest) := Drain(Backlog(t), room);
            Steady(r) && r.sent == t.sent + Deliveries(done, time) && Backlog(r) == rest
    decreases room
  {
    hide Load, Send, Backlog, Drain, Deliveries, Steady, SameKind;
    if t.left == 0 && Pkts(t.queue) == [] {
      EmptyBacklog(t, room, time);
    } else if room == 0 {
      BacklogPositive(t);
      DrainNothing(Backlog(t));
      NoDeliveries(t, time);
    } else {
      if t.left == 0 {
        LoadKeepsBacklog(t, env);
      }
      var u := if t.left == 0 then Load(t, env) else t;
      var amount := Min(room, u.left);
      var v := Send(u, time, amount);
      SendDrains(u, time, room);
      SendKeepsQueue(u, time, amount);
      FillDiscards(v, env, time, room - amount);
      FillDrains(v, env, time, room - amount);
    }
  }

  lemma EmptyBacklog(t: Traffic, room: nat, time: nat)
    requires t.left == 0 && Pkts(t.queue) == []
    ensures Drain(Backlog(t), room) == ([], []) && Backlog(t) == [] && t.sent + Deliveries([], time) == t.sent
  {
    assert Jobs([]) == [];
  }

  lemma NoDeliveries(t: Traffic, time: nat)
    ensures t.sent + Deliveries([], time) == t.sent
  {
  }

  lemma BacklogPositive(t: Traffic)
    requires Steady(t)
    ensures forall k :: 0 <= k < |Backlog(t)| ==> Backlog(t)[k].bytes > 0
  {
  }

  /** Sending from the packet in transit is draining from the first job. */
  ghost predicate SentAsDrained(u: Traffic, v: Traffic, time: nat, room: nat, after: nat) {
    var (d1, r1) := Drain(Backlog(v), after);
    && Steady(v) && Drain(Backlog(u), room).1 == r1
    && u.sent + Deliveries(Drain(Backlog(u), room).0, time) == v.sent + Deliveries(d1, time)
  }

  lemma SendDrains(u: Traffic, time: nat, room: nat)
    requires Steady(u) && 0 < u.left && 0 < room
    ensures var amount := Min(room, u.left);
            SentAsDrained(u, Send(u, time, amount), time, room, room - amount)
  {
    if u.left <= room {
      SendWhole(u, time, room);
    } else {
      SendPart(u, time, room);
    }
  }

  lemma DrainCons(j: Job, js: seq<Job>, room: nat)
    requires j.bytes <= room
    ensures Drain([j] + js, room) == ([j.packet] + Drain(js, room - j.bytes).0, Drain(js, room - j.bytes).1)
  {
    assert ([j] + js)[1..] == js;
  }

  lemma DeliveriesCons(p: Packet, ps: seq<Packet>, time: nat)
    ensures Deliveries([p] + ps, time) == [Delivery(p, time)] + Deliveries(ps, time)
  {
    assert ([p] + ps)[1..] == ps;
  }

  lemma SendWhole(u: Traffic, time: nat, room: nat)
    requires Steady(u) && 0 < u.left <= room
    ensures SentAsDrained(u, Send(u, time, u.left), time, room, room - u.left)
  {
    hide Steady, Jobs, Drain, Deliveries;
    var v, tail := Send(u, time, u.left), Jobs(Pkts(u.queue));
    SteadyQueue(u, v);
    assert Backlog(v) == tail;
    DrainCons(Job(u.transit, u.left), tail, room);
    var done := Drain(tail, room - u.left).0;
    DeliveriesCons(u.transit, done, time);
    assert u.sent + ([Delivery(u.transit, time)] + Deliveries(done, time)) ==
           u.sent + [Delivery(u.transit, time)] + Deliveries(done, time);
  }

  lemma SendPart(u: Traffic, time: nat, room: nat)
    requires Steady(u) && 0 < room < u.left
    ensures SentAsDrained(u, Send(u, time, room), time, room, 0)
  {
    hide Steady, Jobs;
    var v, tail := Send(u, time, room), Jobs(Pkts(u.queue));
    SteadyQueue(u, v);
    assert Backlog(v) == [Job(u.transit, u.left - room)] + tail;
    assert Backlog(u) == [Job(u.transit, u.left)] + tail;
    assert ([Job(u.transit, u.left)] + tail)[1..] == tail;
    BacklogPositive(v);
    DrainNothing(Backlog(v));
  }

  lemma SteadyQueue(u: Traffic, v: Traffic)
    requires Steady(u) && v.queue == u.queue
    ensures Steady(v)
  {
  }

  /** Which jobs a drain finishes, and how much nearer the others have come. */
  lemma {:induction false} DrainFinishes(js: seq<Job>, room: nat, i: nat)
    requires i < |js| && forall k :: 0 <= k < |js| ==> js[k].bytes > 0
    ensures var (done, rest) := Drain(js, room);
            && |done| + |rest| == |js|
            && (i < |done| <==> Cumulative(js, i + 1) <= room)
            && (if i < |done| then done[i] == js[i].packet
                else rest[i - |done|].packet == js[i].packet
                     && Cumulative(rest, i - |done| + 1) == Cumulative(js, i + 1) - room)
    decreases |js|
  {
    if room < js[0].bytes {
      var rest := [js[0].(bytes := js[0].bytes - room)] + js[1..];
      assert rest[1..] == js[1..];
    } else {
      var (done, rest) := Drain(js[1..], room - js[0].bytes);
      if i > 0 {
        DrainFinishes(js[1..], room - js[0].bytes, i - 1);
      } else {
        DrainLength(js[1..], room - js[0].bytes);
      }
    }
  }

  lemma {:induction false} DrainLength(js: seq<Job>, room: nat)
    ensures var (done, rest) := Drain(js, room); |done| + |rest| == |js|
    decreases |js|
  {
    if js != [] && room >= js[0].bytes {
      DrainLength(js[1..], room - js[0].bytes);
    }
  }

  // ---------------------------------------------------------------- whole opportunities

  /** Time of the k-th upcoming opportunity, counting from 0. */
  function UpcomingTime(cfg: Schedule.Config, t: Schedule.Timer, k: nat): nat
    requires Schedule.InRange(cfg, t) && Available(cfg, t, k + 1)
    decreases k
  {
    if k == 0 then Schedule.NextTime(cfg, t).value else UpcomingTime(cfg, Schedule.Use(cfg, t), k - 1)
  }

  /** Opportunities that `bytes` bytes take: the quotient by the packet size, rounded up. */
  function Opportunities(bytes: nat): nat {
    (bytes + PACKET_SIZE - 1) / PACKET_SIZE
  }

  /** One opportunity in terms of the backlog. */
  lemma ServeDrains(cfg: Schedule.Config, l: State, env: Env)
    requires Schedule.InRange(cfg, l.timer) && !l.timer.finished && Steady(l.traffic)
    requires Serve(cfg, l, env).traffic.discarded == l.traffic.discarded
    ensures var r := Serve(cfg, l, env);
            var (done, rest) := Drain(Backlog(l.traffic), PACKET_SIZE);
            && r.timer == Schedule.Use(cfg, l.timer) && Steady(r.traffic) && Backlog(r.traffic) == rest
            && r.traffic.sent == l.traffic.sent + Deliveries(done, Schedule.NextTime(cfg, l.timer).value)
  {
    hide Fill, Drain;
    var time := Schedule.NextTime(cfg, l.timer).value;
    FillDrains(l.traffic.(log := l.traffic.log + [Opportunity(time, PACKET_SIZE)]), env, time, PACKET_SIZE);
  }

  lemma ServeDiscards(cfg: Schedule.Config, l: State, env: Env)
    requires Schedule.InRange(cfg, l.timer) && !l.timer.finished && Steady(l.traffic)
    ensures var t, r := l.traffic, Serve(cfg, l, env).traffic;
            && t.discarded <= r.discarded && Steady(r) && (r.queue.CoDel? <==> t.queue.CoDel?)
            && (!t.queue.CoDel? ==> r.discarded == t.discarded)
  {
    hide Fill, Sound, Sendable;
    var time := Schedule.NextTime(cfg, l.timer).value;
    FillDiscards(l.traffic.(log := l.traffic.log + [Opportunity(time, PACKET_SIZE)]), env, time, PACKET_SIZE);
  }

  lemma {:induction false} ServeManyDiscards(cfg: Schedule.Config, l: State, env: Env, n: nat)
    requires Schedule.InRange(cfg, l.timer) && Steady(l.traffic)
    ensures var t, r := l.traffic, ServeMany(cfg, l, env, n).traffic;
            t.discarded <= r.discarded && (!t.queue.CoDel? ==> r.discarded == t.discarded)
    decreases n
  {
    hide Serve, Steady;
    if n > 0 && !l.timer.finished {
      ServeDiscards(cfg, l, env);
      ServeTimer(cfg, l, env);
      ServeManyDiscards(cfg, Serve(cfg, l, env), env, n - 1);
    }
  }

  /** Nothing is discarded in any of the next `n` opportunities: always so but with CoDel. */
  ghost predicate Undisturbed(cfg: Schedule.Config, l: State, env: Env, n: nat)
    requires Schedule.InRange(cfg, l.timer)
  {
    l.traffic.queue.CoDel? ==> ServeMany(cfg, l, env, n).traffic.discarded == l.traffic.discarded
  }

  lemma UndisturbedStep(cfg: Schedule.Config, l: State, env: Env, n: nat)
    requires Schedule.InRange(cfg, l.timer) && Steady(l.traffic) && !l.timer.finished
    requires n > 0 && Undisturbed(cfg, l, env, n)
    ensures var r := Serve(cfg, l, env);
            && r.traffic.discarded == l.traffic.discarded && Steady(r.traffic)
            && Schedule.InRange(cfg, r.timer) && Undisturbed(cfg, r, env, n - 1)
  {
    hide Serve, Steady;
    ServeDiscards(cfg, l, env);
    ServeTimer(cfg, l, env);
    ServeManyDiscards(cfg, Serve(cfg, l, env), env, n - 1);
  }

  /** Departure times in closed form: with nothing arriving and nothing discarded, the i-th packet
      waiting departs at exactly the opportunity that brings the bytes sent up to its last byte -
      the ceil(S / 1504)-th, S being the bytes waiting up to and including it - and not before. */
  lemma {:induction false} DepartureTime(cfg: Schedule.Config, l: State, env: Env, n: nat, i: nat)
    requires Schedule.InRange(cfg, l.timer) && Steady(l.traffic) && Available(cfg, l.timer, n)
    requires Undisturbed(cfg, l, env, n) && i < |Backlog(l.traffic)|
    ensures var s, t := l.traffic, ServeMany(cfg, l, env, n).traffic;
            var k := Opportunities(Cumulative(Backlog(s), i + 1));
            && |s.sent| <= |t.sent|
            && (|s.sent| + i < |t.sent| <==> k <= n)
            && (k <= n ==>
                  && 1 <= k && Available(cfg, l.timer, k)
                  && t.sent[|s.sent| + i] == Delivery(Backlog(s)[i].packet, UpcomingTime(cfg, l.timer, k - 1)))
    ensures l.traffic.sent <= ServeMany(cfg, l, env, n).traffic.sent
    decreases n
  {
    hide Drain, Serve, Backlog, Steady, Undisturbed;
    var js := Backlog(l.traffic);
    BacklogPositive(l.traffic);
    CumulativePositive(js, i);
    if n > 0 {
      UndisturbedStep(cfg, l, env, n);
      ServeDrains(cfg, l, env);
      var r := Serve(cfg, l, env);
      var (done, rest) := Drain(js, PACKET_SIZE);
      DrainFinishes(js, PACKET_SIZE, i);
      SentGrows(cfg, r, env, n - 1);
      if i < |done| {
        assert Opportunities(Cumulative(js, i + 1)) == 1;
      } else {
        DepartureTime(cfg, r, env, n - 1, i - |done|);
        OneFewer(Cumulative(js, i + 1));
      }
    }
  }

  lemma CumulativePositive(js: seq<Job>, i: nat)
    requires i < |js| && js[0].bytes > 0
    ensures Cumulative(js, i + 1) > 0
  {
  }

  lemma OneFewer(bytes: nat)
    requires bytes > PACKET_SIZE
    ensures Opportunities(bytes) == Opportunities(bytes - PACKET_SIZE) + 1
    ensures Opportunities(bytes - PACKET_SIZE) >= 1
  {
  }

  /** Packets once sent stay sent. */
  lemma {:induction false} SentGrows(cfg: Schedule.Config, l: State, env: Env, n: nat)
    requires Schedule.InRange(cfg, l.timer) && Steady(l.traffic) && Undisturbed(cfg, l, env, n)
    ensures l.traffic.sent <= ServeMany(cfg, l, env, n).traffic.sent
    decreases n
  {
    hide Serve, Drain, Steady, Undisturbed;
    if n > 0 && !l.timer.finished {
      UndisturbedStep(cfg, l, env, n);
      ServeDrains(cfg, l, env);
      SentGrows(cfg, Serve(cfg, l, env), env, n - 1);
    }
  }

  // ---------------------------------------------------------------- work conservation

  /** Bytes put on the link: of the packets sent, and of the one in transit. */
  function Progress(t: Traffic): int {
    Bytes(SentPackets(t.sent)) + if t.left > 0 then |t.transit.contents| - t.left else 0
  }

  lemma LoadNoProgress(t: Traffic, env: Env)
    requires Tidy(t) && t.left == 0 && Pkts(t.queue) != []
    ensures var u := Load(t, env); Tidy(u) && 0 < u.left && Progress(u) == Progress(t)
  {
    hide Dequeue, Tidy, Waiting, SameKind;
    WaitingAfterLoad(t, env);
  }

  lemma SendProgress(t: Traffic, time: nat, amount: nat)
    requires Tidy(t) && 0 < amount <= t.left
    ensures var u := Send(t, time, amount); Tidy(u) && Progress(u) == Progress(t) + amount
  {
    hide SentPackets, Sound;
    var u := Send(t, time, amount);
    assert forall k :: 0 <= k < |Pkts(t.queue)| ==> Pkts(t.queue)[k] == Waiting(t)[k + 1];
    if amount == t.left {
      SentSnoc(t.sent, Delivery(t.transit, time));
      BytesSnoc(SentPackets(t.sent), t.transit);
    } else {
      assert Waiting(u) == Waiting(t);
    }
  }

  /** For all five queues, the inner loop puts `room` bytes on the link, or leaves nothing waiting
      and puts on fewer. */
  lemma {:induction false} FillWorks(t: Traffic, env: Env, time: nat, room: nat)
    requires Tidy(t)
    ensures var r := Fill(t, env, time, room);
            && Tidy(r) && Progress(t) <= Progress(r) <= Progress(t) + room
            && (Progress(r) < Progress(t) + room ==> Waiting(r) == [])
    decreases room
  {
    hide Load, Send, Tidy, Progress;
    if room != 0 && t.left == 0 && Pkts(t.queue) == [] {
      NothingWaiting(t);
    } else if room != 0 {
      if t.left == 0 {
        LoadNoProgress(t, env);
      }
      var u := if t.left == 0 then Load(t, env) else t;
      SendProgress(u, time, Min(room, u.left));
      FillWorks(Send(u, time, Min(room, u.left)), env, time, room - Min(room, u.left));
    }
  }

  lemma NothingWaiting(t: Traffic)
    requires t.left == 0 && Pkts(t.queue) == []
    ensures Waiting(t) == []
  {
  }

  /** Work conservation: with any of the five queues, an opportunity leaves bytes unused only if
      queue and transit slot are empty at its end. */
  lemma ServeConservesWork(cfg: Schedule.Config, l: State, env: Env)
    requires Schedule.InRange(cfg, l.timer) && !l.timer.finished && Tidy(l.traffic)
    ensures var t, r := l.traffic, Serve(cfg, l, env).traffic;
            && Tidy(r) && Progress(t) <= Progress(r) <= Progress(t) + PACKET_SIZE
            && (Progress(r) < Progress(t) + PACKET_SIZE ==> r.left == 0 && Pkts(r.queue) == [])
  {
    hide Fill, Pkts;
    var time := Schedule.NextTime(cfg, l.timer).value;
    var t := l.traffic.(log := l.traffic.log + [Opportunity(time, PACKET_SIZE)]);
    SameWaiting(l.traffic, t);
    FillWorks(t, env, time, PACKET_SIZE);
  }
}
