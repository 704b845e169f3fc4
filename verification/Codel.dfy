/** Controlled delay (section 5 of RFC 8289) as the queue implements it: the head of the line is
    always handed out, and packets dropped are those behind it. */
module Codel {
  import opened Packets
  import opened Dropping

  datatype State = State(limits: Limits, target: nat, interval: nat, pkts: seq<Packet>,
                         firstAbove: nat, dropNext: nat, count: nat, lastCount: nat, dropping: bool)

  function Start(limits: Limits, target: nat, interval: nat): State {
    State(limits, target, interval, [], 0, 0, 0, 0, false)
  }

  /** `uint64_t` difference of times. */
  function Elapsed(now: nat, since: nat): nat {
    (now - since) % 0x1_0000_0000_0000_0000
  }

  /** Greatest integer whose square does not exceed `n`. */
  function Root(n: nat): (r: nat)
    ensures r * r <= n < (r + 1) * (r + 1)
  {
    if n == 0 then 0
    else
      var r := Root(n - 1);
      if (r + 1) * (r + 1) <= n then r + 1 else r
  }

  /** Whole milliseconds of interval / sqrt(count). */
  function Spacing(interval: nat, count: nat): nat
    requires count >= 1
  {
    Root(interval * interval / count)
  }

  function ControlLaw(interval: nat, t: nat, count: nat): nat
    requires count >= 1
  {
    t + Spacing(interval, count)
  }

  /** What one `dodequeue` saw: its time, and whether the packet had waited at least the target
      while more than one opportunity's worth of bytes stayed behind. */
  datatype Sighting = Sighting(time: nat, above: bool)

  datatype Popped = Popped(p: Packet, okToDrop: bool, c: State, sighting: Sighting)

  function DoDequeue(c: State, now: nat): (r: Popped)
    requires c.pkts != []
    ensures [r.p] + r.c.pkts == c.pkts && r.c == c.(pkts := r.c.pkts, firstAbove := r.c.firstAbove)
    ensures r.okToDrop ==> r.c.pkts != []
  {
    var p, rest := c.pkts[0], c.(pkts := c.pkts[1..]);
    var above := Elapsed(now, p.arrival) >= c.target && Bytes(rest.pkts) > PACKET_SIZE;
    if rest.pkts == [] then Popped(p, false, rest.(firstAbove := 0), Sighting(now, false))
    else if !above then Popped(p, false, rest.(firstAbove := 0), Sighting(now, above))
    else if c.firstAbove == 0 then Popped(p, false, rest.(firstAbove := now + c.interval), Sighting(now, above))
    else Popped(p, now >= c.firstAbove, rest, Sighting(now, above))
  }

  /** Outcome of a dequeue: the packet handed out, the packets discarded behind it, what was seen. */
  datatype Dequeued = Dequeued(p: Packet, c: State, dropped: seq<Packet>, seen: seq<Sighting>)

  /** The loop that drops while the time for the next drop has come. */
  function DropLoop(d: Dequeued, now: nat): Dequeued
    requires d.c.dropping ==> d.c.pkts != []
    decreases |d.c.pkts|
  {
    if !d.c.dropping || now < d.c.dropNext then d
    else
      var r := DoDequeue(d.c, now);
      var c := r.c.(count := d.c.count + 1);
      var next :=
        if r.okToDrop then c.(dropNext := ControlLaw(c.interval, c.dropNext, c.count)) else c.(dropping := false);
      DropLoop(Dequeued(d.p, next, d.dropped + [r.p], d.seen + [r.sighting]), now)
  }

  /** Count to resume with when dropping starts again soon after it stopped. */
  function ResumeCount(c: State, now: nat): (n: nat)
    ensures n >= 1
  {
    var delta := (c.count - c.lastCount) % 0x1_0000_0000;
    if delta > 1 && Elapsed(now, c.dropNext) < (16 * c.interval) % 0x1_0000_0000 then delta else 1
  }

  function Dequeue(c: State, now: nat): Dequeued
    requires c.pkts != []
  {
    var r := DoDequeue(c, now);
    var d := Dequeued(r.p, r.c, [], [r.sighting]);
    if c.dropping then
      DropLoop(d.(c := d.c.(dropping := r.okToDrop)), now)
    else if r.okToDrop then
      var r2 := DoDequeue(r.c, now);
      var n := ResumeCount(c, now);
      Dequeued(r.p, r2.c.(dropping := true, count := n, lastCount := n, dropNext := ControlLaw(c.interval, now, n)),
               [r2.p], [r.sighting, r2.sighting])
    else d
  }

  function Enqueue(c: State, p: Packet): State {
    if GoodWith(c.limits, Bytes(c.pkts) + |p.contents|, |c.pkts| + 1) then c.(pkts := c.pkts + [p]) else c
  }

  // ---------------------------------------------------------------- the control law

  /** The integer form is the floor of the real quotient: d <= interval / sqrt(count) < d + 1. */
  lemma SpacingIsFloor(interval: nat, count: nat)
    requires count >= 1
    ensures var d := Spacing(interval, count);
            d * d * count <= interval * interval < (d + 1) * (d + 1) * count
  {
    var n := interval * interval;
    var q := n / count;
    var d := Root(q);
    hide Root;
    QuotientBounds(n, count);
    MulMono(d * d, q, count);
    MulMono(q + 1, (d + 1) * (d + 1), count);
  }

  lemma QuotientBounds(n: nat, k: nat)
    requires k > 0
    ensures n / k * k <= n < (n / k + 1) * k
  {
  }

  lemma MulMono(a: nat, b: nat, k: nat)
    requires a <= b
    ensures a * k <= b * k
  {
  }

  /** Drops come no further apart as their count grows. */
  lemma SpacingShrinks(interval: nat, count: nat, more: nat)
    requires 1 <= count <= more
    ensures Spacing(interval, more) <= Spacing(interval, count)
  {
    SpacingIsFloor(interval, count);
    SpacingIsFloor(interval, more);
    hide Spacing;
    var a, b := Spacing(interval, count), Spacing(interval, more);
    if b > a {
      SquareMono(a + 1, b);
      MulMono((a + 1) * (a + 1), b * b, count);
      MulMonoRight(b * b, count, more);
    }
  }

  lemma MulMonoRight(k: nat, a: nat, b: nat)
    requires a <= b
    ensures k * a <= k * b
  {
  }

  lemma SquareMono(a: nat, b: nat)
    requires a <= b
    ensures a * a <= b * b
  {
    MulMono(a, b, a);
    MulMonoRight(b, a, b);
  }

  // ---------------------------------------------------------------- safety

  /** Counts never cross, the drop state is only entered with packets queued and limits hold. */
  ghost predicate Safe(c: State) {
    c.lastCount <= c.count && Good(c.limits, c.pkts)
  }

  /** The packets removed are the head of the queue, in order: first the one handed out, then the
      dropped ones. */
  ghost predicate Conserves(before: State, d: Dequeued) {
    && before.pkts == [d.p] + d.dropped + d.c.pkts
    && d.c == before.(pkts := d.c.pkts, firstAbove := d.c.firstAbove, dropNext := d.c.dropNext,
                      count := d.c.count, lastCount := d.c.lastCount, dropping := d.c.dropping)
  }

  lemma {:induction false} DropLoopConserves(before: State, d: Dequeued, now: nat)
    requires d.c.dropping ==> d.c.pkts != []
    requires Conserves(before, d)
    ensures Conserves(before, DropLoop(d, now))
    ensures d.c.lastCount <= d.c.count ==> DropLoop(d, now).c.lastCount <= DropLoop(d, now).c.count
    decreases |d.c.pkts|
  {
    hide Spacing;
    if d.c.dropping && now >= d.c.dropNext {
      var r := DoDequeue(d.c, now);
      var c := r.c.(count := d.c.count + 1);
      var next :=
        if r.okToDrop then c.(dropNext := ControlLaw(c.interval, c.dropNext, c.count)) else c.(dropping := false);
      var e := Dequeued(d.p, next, d.dropped + [r.p], d.seen + [r.sighting]);
      assert [d.p] + e.dropped + next.pkts == [d.p] + d.dropped + d.c.pkts;
      DropLoopConserves(before, e, now);
    }
  }

  lemma {:induction false} DropLoopKeepsPacket(d: Dequeued, now: nat)
    requires d.c.dropping ==> d.c.pkts != []
    ensures DropLoop(d, now).p == d.p
    decreases |d.c.pkts|
  {
    hide Spacing;
    if d.c.dropping && now >= d.c.dropNext {
      var r := DoDequeue(d.c, now);
      var c := r.c.(count := d.c.count + 1);
      var next :=
        if r.okToDrop then c.(dropNext := ControlLaw(c.interval, c.dropNext, c.count)) else c.(dropping := false);
      DropLoopKeepsPacket(Dequeued(d.p, next, d.dropped + [r.p], d.seen + [r.sighting]), now);
    }
  }

  /** Every dequeue from a nonempty queue is safe: it keeps the counts and the limits in order, and
      accounts for every packet. */
  lemma DequeueSafe(c: State, now: nat)
    requires c.pkts != [] && Safe(c)
    ensures Conserves(c, Dequeue(c, now)) && Safe(Dequeue(c, now).c)
  {
    hide Spacing, Elapsed;
    var r := DoDequeue(c, now);
    var d := Dequeued(r.p, r.c, [], [r.sighting]);
    assert [r.p] + [] + r.c.pkts == c.pkts;
    if c.dropping {
      DropLoopConserves(c, d.(c := d.c.(dropping := r.okToDrop)), now);
    } else if r.okToDrop {
      var r2 := DoDequeue(r.c, now);
      assert [r.p] + [r2.p] + r2.c.pkts == c.pkts;
    }
    GoodSuffix(c.limits, [Dequeue(c, now).p] + Dequeue(c, now).dropped, Dequeue(c, now).c.pkts);
  }

  lemma EnqueueSafe(c: State, p: Packet)
    requires Safe(c)
    ensures Safe(Enqueue(c, p))
  {
    BytesSnoc(c.pkts, p);
  }

  /** What makes a dequeue drop, to be seen before it: the deadline has passed, the head has waited
      at least the target, more than one opportunity's bytes are behind it, and, when dropping
      already, the next drop is due. */
  predicate DropGuard(c: State, now: nat)
    requires c.pkts != []
  {
    && c.firstAbove != 0 && now >= c.firstAbove
    && Elapsed(now, c.pkts[0].arrival) >= c.target
    && Bytes(c.pkts[1..]) > PACKET_SIZE
    && (c.dropping ==> now >= c.dropNext)
  }

  lemma DropsJustUponGuard(c: State, now: nat)
    requires c.pkts != []
    ensures Dequeue(c, now).dropped != [] <==> DropGuard(c, now)
  {
    hide Spacing, ResumeCount, Elapsed, DoDequeue, Bytes;
    SightingFacts(c, now);
    var r := DoDequeue(c, now);
    if c.dropping {
      LoopDropsWhenDue(Dequeued(r.p, r.c.(dropping := r.okToDrop), [], [r.sighting]), now);
    }
  }

  lemma {:induction false} LoopDropsWhenDue(d: Dequeued, now: nat)
    requires d.c.dropping ==> d.c.pkts != []
    ensures |DropLoop(d, now).dropped| >= |d.dropped|
    ensures DropLoop(d, now).dropped != d.dropped <==> d.c.dropping && now >= d.c.dropNext
    decreases |d.c.pkts|
  {
    hide Spacing;
    if d.c.dropping && now >= d.c.dropNext {
      var r := DoDequeue(d.c, now);
      var c := r.c.(count := d.c.count + 1);
      var next :=
        if r.okToDrop then c.(dropNext := ControlLaw(c.interval, c.dropNext, c.count)) else c.(dropping := false);
      LoopDropsWhenDue(Dequeued(d.p, next, d.dropped + [r.p], d.seen + [r.sighting]), now);
    }
  }

  /** After a dequeue the next drop, if dropping goes on, is not overdue. */
  lemma NextDropNotOverdue(c: State, now: nat)
    requires c.pkts != []
    ensures var d := Dequeue(c, now).c; d.dropping ==> now <= d.dropNext
  {
    hide DoDequeue, Spacing, ResumeCount;
    var r := DoDequeue(c, now);
    if c.dropping {
      LoopCatchesUp(Dequeued(r.p, r.c.(dropping := r.okToDrop), [], [r.sighting]), now);
    }
  }

  lemma {:induction false} LoopCatchesUp(d: Dequeued, now: nat)
    requires d.c.dropping ==> d.c.pkts != []
    ensures DropLoop(d, now).c.dropping ==> now < DropLoop(d, now).c.dropNext
    decreases |d.c.pkts|
  {
    hide Spacing;
    if d.c.dropping && now >= d.c.dropNext {
      var r := DoDequeue(d.c, now);
      var c := r.c.(count := d.c.count + 1);
      var next :=
        if r.okToDrop then c.(dropNext := ControlLaw(c.interval, c.dropNext, c.count)) else c.(dropping := false);
      LoopCatchesUp(Dequeued(d.p, next, d.dropped + [r.p], d.seen + [r.sighting]), now);
    }
  }

  // ---------------------------------------------------------------- persistent delay

  /** From position `i` of the history on, every `dodequeue` saw the queue above target. */
  ghost predicate AboveSince(history: seq<Sighting>, i: nat) {
    i < |history| && forall j :: i <= j < |history| ==> history[j].above
  }

  /** The unbroken series of such sightings that the history ends with begins at `i`. */
  ghost predicate SeriesStart(history: seq<Sighting>, i: nat) {
    AboveSince(history, i) && (i == 0 || !history[i - 1].above)
  }

  /** For at least one interval up to `now`, every `dodequeue` saw the queue above target. */
  ghost predicate Persistent(history: seq<Sighting>, interval: nat, now: nat) {
    exists i: nat :: AboveSince(history, i) && history[i].time + interval <= now
  }

  /** The deadline is one interval after the start of the series at the end of the history; there is
      none without such a series. */
  ghost predicate Tracked(c: State, history: seq<Sighting>) {
    if history == [] || !history[|history| - 1].above then c.firstAbove == 0
    else exists i: nat :: SeriesStart(history, i) && c.firstAbove == history[i].time + c.interval
  }

  ghost predicate Chronological(history: seq<Sighting>, now: nat) {
    && (forall i, j :: 0 <= i < j < |history| ==> history[i].time <= history[j].time)
    && (forall i :: 0 <= i < |history| ==> history[i].time <= now)
  }

  lemma SeriesGrows(history: seq<Sighting>, s: Sighting, i: nat)
    requires s.above
    requires SeriesStart(history, i) || (i == |history| && (history == [] || !history[|history| - 1].above))
    ensures i <= |history| && SeriesStart(history + [s], i)
    ensures (history + [s])[i].time == if i < |history| then history[i].time else s.time
  {
  }

  /** The series' start is the earliest sighting of any series that reaches the end. */
  lemma SeriesDecides(history: seq<Sighting>, start: nat, interval: nat, now: nat)
    requires SeriesStart(history, start) && Chronological(history, now)
    ensures Persistent(history, interval, now) <==> history[start].time + interval <= now
  {
    if Persistent(history, interval, now) {
      var i: nat :| AboveSince(history, i) && history[i].time + interval <= now;
      assert start <= i;
    }
  }

  /** One `dodequeue` keeps the deadline, and allows a drop iff it sees the queue above target and
      so did every one before it for at least an interval. */
  lemma DoDequeueTracked(c: State, now: nat, history: seq<Sighting>)
    requires c.pkts != [] && c.interval > 0 && Tracked(c, history) && Chronological(history, now)
    ensures var r := DoDequeue(c, now);
            && Tracked(r.c, history + [r.sighting]) && Chronological(history + [r.sighting], now)
            && r.sighting.time == now
            && (r.okToDrop <==> r.sighting.above && Persistent(history, c.interval, now))
  {
    hide Elapsed, Bytes, Persistent;
    SightingFacts(c, now);
    var r := DoDequeue(c, now);
    if history == [] || !history[|history| - 1].above {
      NoSeries(history, c.interval, now);
      if r.sighting.above {
        SeriesGrows(history, r.sighting, |history|);
      }
    } else {
      var i: nat :| SeriesStart(history, i) && c.firstAbove == history[i].time + c.interval;
      SeriesDecides(history, i, c.interval, now);
      if r.sighting.above {
        SeriesGrows(history, r.sighting, i);
      }
    }
  }

  lemma NoSeries(history: seq<Sighting>, interval: nat, now: nat)
    requires history == [] || !history[|history| - 1].above
    ensures !Persistent(history, interval, now)
  {
  }

  /** A `dodequeue` in terms of what it saw. */
  lemma SightingFacts(c: State, now: nat)
    requires c.pkts != []
    ensures var r := DoDequeue(c, now);
            && r.sighting.time == now
            && r.sighting.above == (Elapsed(now, c.pkts[0].arrival) >= c.target && Bytes(c.pkts[1..]) > PACKET_SIZE)
            && r.c.firstAbove == (if !r.sighting.above then 0
                                  else if c.firstAbove == 0 then now + c.interval else c.firstAbove)
            && (r.okToDrop <==> r.sighting.above && c.firstAbove != 0 && now >= c.firstAbove)
  {
    hide Elapsed;
  }

  lemma {:induction false} DropLoopTracked(d: Dequeued, now: nat, history: seq<Sighting>)
    requires d.c.dropping ==> d.c.pkts != []
    requires d.c.interval > 0 && d.seen != []
    requires Tracked(d.c, history + d.seen) && Chronological(history + d.seen, now)
    ensures var e := DropLoop(d, now);
            && Tracked(e.c, history + e.seen) && Chronological(history + e.seen, now) && e.c.interval == d.c.interval
            && e.seen != [] && e.seen[0] == d.seen[0] && |e.dropped| >= |d.dropped|
            && (e.dropped != d.dropped <==> d.c.dropping && now >= d.c.dropNext)
            && (e.dropped == d.dropped || |e.dropped| > |d.dropped|)
    decreases |d.c.pkts|
  {
    hide Spacing, Tracked, Persistent, Chronological, DoDequeue;
    if d.c.dropping && now >= d.c.dropNext {
      DoDequeueTracked(d.c, now, history + d.seen);
      var r := DoDequeue(d.c, now);
      var c := r.c.(count := d.c.count + 1);
      var next :=
        if r.okToDrop then c.(dropNext := ControlLaw(c.interval, c.dropNext, c.count)) else c.(dropping := false);
      TrackedOnly(r.c, next, history + d.seen + [r.sighting]);
      assert history + (d.seen + [r.sighting]) == history + d.seen + [r.sighting];
      DropLoopTracked(Dequeued(d.p, next, d.dropped + [r.p], d.seen + [r.sighting]), now, history);
    }
  }

  lemma TrackedOnly(a: State, b: State, history: seq<Sighting>)
    requires Tracked(a, history) && a.firstAbove == b.firstAbove && a.interval == b.interval
    ensures Tracked(b, history)
  {
  }

  /** A dequeue discards packets iff it finds the queue above target, and so did every `dodequeue`
      for at least an interval - and, while already dropping, the next drop is due. */
  lemma DequeueTracked(c: State, now: nat, history: seq<Sighting>)
    requires c.pkts != [] && c.interval > 0 && Tracked(c, history) && Chronological(history, now)
    ensures var d := Dequeue(c, now);
            && Tracked(d.c, history + d.seen) && Chronological(history + d.seen, now) && d.c.interval == c.interval
            && d.seen != [] && d.seen[0].time == now
            && (d.dropped != [] <==>
                  && d.seen[0].above && Persistent(history, c.interval, now)
                  && (c.dropping ==> now >= c.dropNext))
  {
    hide Spacing, ResumeCount, Tracked, DoDequeue, Persistent, Chronological;
    DoDequeueTracked(c, now, history);
    var r := DoDequeue(c, now);
    var d := Dequeued(r.p, r.c, [], [r.sighting]);
    if c.dropping {
      var e := d.(c := d.c.(dropping := r.okToDrop));
      TrackedOnly(r.c, e.c, history + [r.sighting]);
      DropLoopTracked(e, now, history);
    } else if r.okToDrop {
      DoDequeueTracked(r.c, now, history + [r.sighting]);
      var r2 := DoDequeue(r.c, now);
      TrackedOnly(r2.c, Dequeue(c, now).c, history + [r.sighting] + [r2.sighting]);
      assert history + [r.sighting, r2.sighting] == history + [r.sighting] + [r2.sighting];
    }
  }

  /** What happens to a queue: packets arrive, and a packet is asked for, which the link does only
      while there is one. */
  datatype Event = Arrive(p: Packet) | Ask(now: nat)

  /** The clock does not go back. */
  ghost predicate Timed(es: seq<Event>, from: nat) {
    es != [] ==>
      && (es[0].Ask? ==> from <= es[0].now)
      && Timed(es[1..], if es[0].Ask? then es[0].now else from)
  }

  function Run(c: State, history: seq<Sighting>, es: seq<Event>): (State, seq<Sighting>)
    decreases |es|
  {
    if es == [] then (c, history)
    else match es[0]
      case Arrive(p) => Run(Enqueue(c, p), history, es[1..])
      case Ask(now) =>
        if c.pkts == [] then Run(c, history, es[1..])
        else
          var d := Dequeue(c, now);
          Run(d.c, history + d.seen, es[1..])
  }

  lemma LaterStill(history: seq<Sighting>, now: nat, later: nat)
    requires Chronological(history, now) && now <= later
    ensures Chronological(history, later)
  {
  }

  /** Time of the last request of a run. */
  function LastAsk(es: seq<Event>, from: nat): nat {
    if es == [] then from else LastAsk(es[1..], if es[0].Ask? then es[0].now else from)
  }

  lemma {:induction false} RunTracked(c: State, history: seq<Sighting>, es: seq<Event>, from: nat)
    requires Tracked(c, history) && Safe(c) && c.interval > 0
    requires Chronological(history, from) && Timed(es, from)
    ensures var (t, h) := Run(c, history, es);
            && Tracked(t, h) && Safe(t) && t.interval == c.interval
            && Chronological(h, LastAsk(es, from))
    decreases |es|
  {
    hide Tracked, Safe, Dequeue, Enqueue, Chronological, Persistent;
    if es != [] {
      match es[0]
      case Arrive(p) =>
        EnqueueSafe(c, p);
        EnqueueParts(c, p);
        TrackedOnly(c, Enqueue(c, p), history);
        RunTracked(Enqueue(c, p), history, es[1..], from);
      case Ask(now) =>
        LaterStill(history, from, now);
        if c.pkts == [] {
          RunTracked(c, history, es[1..], now);
        } else {
          DequeueTracked(c, now, history);
          DequeueSafe(c, now);
          var d := Dequeue(c, now);
          RunTracked(d.c, history + d.seen, es[1..], now);
        }
    }
  }

  lemma EnqueueParts(c: State, p: Packet)
    ensures Enqueue(c, p) == c.(pkts := Enqueue(c, p).pkts)
    ensures Enqueue(c, p).pkts == c.pkts || Enqueue(c, p).pkts == c.pkts + [p]
  {
  }

  lemma StartTracked(limits: Limits, target: nat, interval: nat)
    ensures var c := Start(limits, target, interval); Tracked(c, []) && Safe(c) && Chronological([], 0)
  {
  }

  /** CoDel drops just upon persistent delay, in every run from an empty queue under a clock that
      does not go back (the constructor refuses an interval of zero): a dequeue discards packets iff
      some `dodequeue` at t0, t0 + interval <= now, began an unbroken series of them, up to the first
      one of this dequeue, that all saw the packet's wait reach the target and more than one
      opportunity's bytes left queued - and the next drop is due, when dropping already. */
  lemma DropsJustUponPersistentDelay(limits: Limits, target: nat, interval: nat, es: seq<Event>, now: nat)
    requires interval > 0 && Timed(es, 0) && LastAsk(es, 0) <= now
    requires Run(Start(limits, target, interval), [], es).0.pkts != []
    ensures var (c, history) := Run(Start(limits, target, interval), [], es);
            var d := Dequeue(c, now);
            && d.seen != [] && d.seen[0].time == now
            && (d.dropped != [] <==>
                  && d.seen[0].above && Persistent(history, interval, now)
                  && (c.dropping ==> now >= c.dropNext))
  {
    hide Run, Dequeue, Persistent, Tracked, Safe, Chronological;
    var start := Start(limits, target, interval);
    StartTracked(limits, target, interval);
    RunTracked(start, [], es, 0);
    var (c, history) := Run(start, [], es);
    LaterStill(history, LastAsk(es, 0), now);
    DequeueTracked(c, now, history);
  }
}
