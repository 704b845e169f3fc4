/** CoDel's count of drops: what it counts over whole runs, what it resumes with when dropping starts again,
    and when the next drop is due. */
module CodelCounts {
  import opened Packets
  import opened Dropping
  import opened Codel
  import opened CodelClock

  // ---------------------------------------------------------------- the loop

  /** Every pass of the loop counts one. */
  lemma {:induction false} LoopCounts(d: Dequeued, now: nat)
    requires d.c.dropping ==> d.c.pkts != []
    ensures var r := DropLoop(d, now);
            && |r.seen| >= |d.seen| && r.c.count == d.c.count + |r.seen| - |d.seen|
            && r.c.lastCount == d.c.lastCount && (!d.c.dropping ==> r == d)
    decreases |d.c.pkts|
  {
    hide Spacing;
    if d.c.dropping && now >= d.c.dropNext {
      var r := DoDequeue(d.c, now);
      var c := r.c.(count := d.c.count + 1);
      var next :=
        if r.okToDrop then c.(dropNext := ControlLaw(c.interval, c.dropNext, c.count)) else c.(dropping := false);
      LoopCounts(Dequeued(d.p, next, d.dropped + [r.p], d.seen + [r.sighting]), now);
    }
  }

  /** The spacings of the next `m` drops after `count` of them. */
  function SpacingSum(interval: nat, count: nat, m: nat): nat
    decreases m
  {
    if m == 0 then 0 else Spacing(interval, count + 1) + SpacingSum(interval, count + 1, m - 1)
  }

  /** One pass of the loop. */
  lemma OnePass(d: Dequeued, now: nat)
    requires d.c.dropping && d.c.pkts != []
    ensures var e := DropOnce(d, now);
            && e.c.count == d.c.count + 1 && e.c.interval == d.c.interval && |e.seen| == |d.seen| + 1
            && (e.c.dropping ==>
                  e.c.pkts != [] && e.c.dropNext == d.c.dropNext + Spacing(d.c.interval, d.c.count + 1))
            && (!e.c.dropping ==> e.c.dropNext == d.c.dropNext)
  {
    hide Spacing;
  }

  /** Every pass but one that stops moves the next drop by the spacing of its count. */
  lemma {:induction false} LoopSchedules(d: Dequeued, now: nat)
    requires d.c.dropping && d.c.pkts != []
    ensures var r := DropLoop(d, now);
            var k := |r.seen| - |d.seen|;
            && k >= 0 && (!r.c.dropping ==> k > 0)
            && r.c.dropNext == d.c.dropNext + SpacingSum(d.c.interval, d.c.count, if r.c.dropping then k else k - 1)
    decreases |d.c.pkts|
  {
    hide Spacing, DropLoop, DropOnce;
    if now < d.c.dropNext {
      NotDue(d, now);
    } else {
      var e := DropOnce(d, now);
      OnePass(d, now);
      PassShrinks(d, now);
      LoopUnfolds(d, now);
      LoopCounts(e, now);
      if e.c.dropping {
        LoopSchedules(e, now);
      }
    }
  }

  lemma NotDue(d: Dequeued, now: nat)
    requires d.c.dropping && d.c.pkts != [] && now < d.c.dropNext
    ensures DropLoop(d, now) == d
  {
  }

  lemma PassShrinks(d: Dequeued, now: nat)
    requires d.c.pkts != []
    ensures |DropOnce(d, now).c.pkts| < |d.c.pkts|
  {
    hide Spacing, DoDequeue;
  }

  // ---------------------------------------------------------------- one dequeue

  /** While dropping, every look but the first counts one; when dropping starts both counts become equal;
      otherwise nothing changes. */
  lemma DequeueCounts(c: State, now: nat)
    requires c.pkts != []
    ensures var d := Dequeue(c, now);
            && d.seen != []
            && (c.dropping ==> d.c.count == c.count + |d.seen| - 1 && d.c.lastCount == c.lastCount)
            && (!c.dropping && d.c.dropping ==> d.c.count == d.c.lastCount >= 1)
            && (!c.dropping && !d.c.dropping ==> d.c.count == c.count && d.c.lastCount == c.lastCount)
  {
    hide DoDequeue, DropLoop, Spacing, ResumeCount;
    var r := DoDequeue(c, now);
    if c.dropping {
      LoopCounts(Dequeued(r.p, r.c.(dropping := r.okToDrop), [], [r.sighting]), now);
    }
  }

  /** While dropping, the next drop moves by the spacings of the drops made. */
  lemma DequeueSchedules(c: State, now: nat)
    requires c.pkts != [] && c.dropping
    ensures var d := Dequeue(c, now);
            var k := |d.seen| - 1;
            && k >= 0
            && d.c.dropNext ==
               c.dropNext + SpacingSum(c.interval, c.count, if d.c.dropping then k else if k > 0 then k - 1 else 0)
  {
    hide DoDequeue, DropLoop, Spacing, SpacingSum;
    var r := DoDequeue(c, now);
    var d := Dequeued(r.p, r.c.(dropping := r.okToDrop), [], [r.sighting]);
    LoopCounts(d, now);
    if r.okToDrop {
      LoopSchedules(d, now);
    } else {
      NoSpacings(c.interval, c.count);
    }
  }

  lemma NoSpacings(interval: nat, count: nat)
    ensures SpacingSum(interval, count, 0) == 0
  {
  }

  /** Dropping starts just when the guard holds and it was not going on. */
  lemma StartsUponGuard(c: State, now: nat)
    requires c.pkts != [] && !c.dropping
    ensures Dequeue(c, now).c.dropping <==> DropGuard(c, now)
  {
    hide Spacing, ResumeCount, Elapsed, DoDequeue, Bytes, DropLoop;
    SightingFacts(c, now);
  }

  /** What dropping starts with, in the widths of the fields: the drops since it last started, if they were
      more than one and the last one was due less than 16 intervals ago, or else 1; and the next drop is due
      after the whole part of interval / sqrt(count). */
  lemma ResumesInWidth(c: State, now: nat)
    requires c.pkts != [] && !c.dropping && DropGuard(c, now)
    ensures var d := Dequeue(c, now).c;
            var drops, since := (c.count - c.lastCount) % 0x1_0000_0000, (now - c.dropNext) % 0x1_0000_0000_0000_0000;
            && d.count == (if drops > 1 && since < 16 * c.interval % 0x1_0000_0000 then drops else 1)
            && d.lastCount == d.count && d.dropNext == now + Spacing(c.interval, d.count)
  {
    hide Spacing, DoDequeue, Bytes, DropLoop;
    StartsUponGuard(c, now);
    SightingFacts(c, now);
  }

  /** The same in plain numbers, for counts and times that fit. */
  lemma ResumesWith(c: State, now: nat)
    requires c.pkts != [] && !c.dropping && DropGuard(c, now)
    requires c.lastCount <= c.count < 0x1_0000_0000 && 16 * c.interval < 0x1_0000_0000
    requires c.dropNext <= now < c.dropNext + 0x1_0000_0000_0000_0000
    ensures var d := Dequeue(c, now).c;
            var drops, since, wait := c.count - c.lastCount, now - c.dropNext, d.dropNext - now;
            && d.dropping && d.lastCount == d.count
            && d.count == (if drops > 1 && since < 16 * c.interval then drops else 1)
            && wait >= 0
            && wait * wait * d.count <= c.interval * c.interval < (wait + 1) * (wait + 1) * d.count
  {
    hide Spacing, DropGuard, Dequeue;
    StartsUponGuard(c, now);
    ResumesInWidth(c, now);
    Fits(c.count - c.lastCount, 16 * c.interval, now - c.dropNext);
    WaitIsFloor(c.interval, Dequeue(c, now).c.count, Dequeue(c, now).c.dropNext - now);
  }

  lemma Fits(drops: nat, interval: nat, since: nat)
    requires drops < 0x1_0000_0000 && interval < 0x1_0000_0000 && since < 0x1_0000_0000_0000_0000
    ensures drops % 0x1_0000_0000 == drops && interval % 0x1_0000_0000 == interval
    ensures since % 0x1_0000_0000_0000_0000 == since
  {
  }

  lemma WaitIsFloor(interval: nat, count: nat, wait: nat)
    requires count >= 1 && wait == Spacing(interval, count)
    ensures wait * wait * count <= interval * interval < (wait + 1) * (wait + 1) * count
  {
    hide Spacing;
    SpacingIsFloor(interval, count);
  }

  // ---------------------------------------------------------------- whole runs

  /** Looks that the loop took since dropping last started. */
  function LoopLooks(c: State, now: nat, before: nat): nat
    requires c.pkts != []
  {
    var d := Dequeue(c, now);
    if c.dropping then before + if d.seen == [] then 0 else |d.seen| - 1
    else if d.c.dropping then 0
    else before
  }

  function LooksSince(c: State, es: seq<Event>, before: nat): nat
    decreases |es|
  {
    if es == [] then before
    else match es[0]
      case Arrive(p) => LooksSince(Enqueue(c, p), es[1..], before)
      case Ask(now) =>
        if c.pkts == [] then LooksSince(c, es[1..], before)
        else LooksSince(Dequeue(c, now).c, es[1..], LoopLooks(c, now, before))
  }

  lemma {:induction false} RunCounts(c: State, history: seq<Sighting>, es: seq<Event>, before: nat)
    requires c.count - c.lastCount == before
    ensures var t := Run(c, history, es).0; t.count - t.lastCount == LooksSince(c, es, before)
    decreases |es|
  {
    hide Dequeue, Enqueue;
    if es != [] {
      match es[0]
      case Arrive(p) =>
        EnqueueParts(c, p);
        RunCounts(Enqueue(c, p), history, es[1..], before);
      case Ask(now) =>
        if c.pkts == [] {
          RunCounts(c, history, es[1..], before);
        } else {
          DequeueCounts(c, now);
          RunCounts(Dequeue(c, now).c, history + Dequeue(c, now).seen, es[1..], LoopLooks(c, now, before));
        }
    }
  }

  /** In every run from an empty queue the count exceeds the last one by the number of packets that the loop
      took since dropping last started: what dropping resumes with counts just these. */
  lemma CountIsLooks(limits: Limits, target: nat, interval: nat, es: seq<Event>)
    ensures var t := Run(Start(limits, target, interval), [], es).0;
            t.count - t.lastCount == LooksSince(Start(limits, target, interval), es, 0)
  {
    hide Run, LooksSince;
    RunCounts(Start(limits, target, interval), [], es, 0);
  }
}
