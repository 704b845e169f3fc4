/** When the moment of a CoDel dequeue matters: the exact condition, on the state before it, under
    which two readings of the clock lead to different packets or a different state. */
module CodelClock {
  import opened Packets
  import opened Dropping
  import opened Codel

  /** Readings that follow the arrival of every packet, within the range of the clock. */
  ghost predicate AfterArrivals(ps: seq<Packet>, t1: nat, t2: nat) {
    && t1 < t2
    && forall k :: 0 <= k < |ps| ==> ps[k].arrival <= t1 && t2 < ps[k].arrival + 0x1_0000_0000_0000_0000
  }

  /** The head is judged alike at both times: too few bytes are behind it, or it has not waited long
      enough even at the later one, or it has at the earlier one and the deadline lies on the same
      side of both. */
  predicate HeadAgrees(c: State, t1: nat, t2: nat)
    requires c.pkts != []
  {
    || Bytes(c.pkts[1..]) <= PACKET_SIZE
    || t2 - c.pkts[0].arrival < c.target
    || (c.target <= t1 - c.pkts[0].arrival && c.firstAbove != 0 && (t2 < c.firstAbove || c.firstAbove <= t1))
  }

  /** While dropping with the deadline passed: no further drop is due at either time, or one is due
      at both, the packet is judged alike, and so on behind it. */
  predicate LoopAgrees(c: State, t1: nat, t2: nat)
    requires c.dropping ==> c.pkts != []
    decreases |c.pkts|
  {
    if !c.dropping || t2 < c.dropNext then true
    else if t1 < c.dropNext then false
    else HeadAgrees(c, t1, t2) && LoopAgrees(AfterDrop(c, t1), t1, t2)
  }

  /** The state after one drop of the loop. */
  function AfterDrop(c: State, now: nat): (r: State)
    requires c.pkts != []
    ensures |r.pkts| < |c.pkts| && (r.dropping && c.dropping ==> r.pkts != [])
  {
    var r := DoDequeue(c, now);
    var d := r.c.(count := c.count + 1);
    if r.okToDrop then d.(dropNext := ControlLaw(d.interval, d.dropNext, d.count)) else d.(dropping := false)
  }

  /** The dequeue comes out alike at both times: the head is judged alike and there is no drop to
      decide on - or, while dropping, the drops agree. Starting to drop never agrees, as the time of
      the next drop is counted from the reading. */
  predicate Agrees(c: State, t1: nat, t2: nat)
    requires c.pkts != []
  {
    && HeadAgrees(c, t1, t2)
    && (DoDequeue(c, t1).okToDrop ==> c.dropping && LoopAgrees(DoDequeue(c, t1).c, t1, t2))
  }

  lemma ElapsedPlain(now: nat, since: nat)
    requires since <= now < since + 0x1_0000_0000_0000_0000
    ensures Elapsed(now, since) == now - since
  {
  }

  /** One `dodequeue` agrees iff its head does; where it does not, the later reading leaves a
      deadline that the earlier one does not leave, or drops where the other does not. */
  lemma HeadDecides(c: State, t1: nat, t2: nat)
    requires c.pkts != [] && c.interval > 0 && AfterArrivals(c.pkts, t1, t2)
    ensures var a, b := DoDequeue(c, t1), DoDequeue(c, t2);
            && a.p == b.p && a.c.pkts == b.c.pkts
            && (HeadAgrees(c, t1, t2) <==> a.okToDrop == b.okToDrop && a.c == b.c)
            && (!HeadAgrees(c, t1, t2) ==> !a.okToDrop && (b.okToDrop || a.c.firstAbove != b.c.firstAbove))
            && (b.okToDrop ==> b.c.firstAbove != 0)
            && (a.okToDrop ==> b.okToDrop && a.c.firstAbove != 0 && a.c.firstAbove <= t1)
  {
    hide Elapsed, Bytes;
    ElapsedPlain(t1, c.pkts[0].arrival);
    ElapsedPlain(t2, c.pkts[0].arrival);
    SightingFacts(c, t1);
    SightingFacts(c, t2);
  }

  lemma {:induction false} LoopShrinks(d: Dequeued, now: nat)
    requires d.c.dropping ==> d.c.pkts != []
    ensures |DropLoop(d, now).c.pkts| <= |d.c.pkts|
    ensures d.c.dropping && now >= d.c.dropNext ==> |DropLoop(d, now).c.pkts| < |d.c.pkts|
    decreases |d.c.pkts|
  {
    hide DoDequeue, ControlLaw;
    if d.c.dropping && now >= d.c.dropNext {
      LoopShrinks(DropOnce(d, now), now);
    }
  }

  /** One pass of the loop. */
  function DropOnce(d: Dequeued, now: nat): Dequeued
    requires d.c.pkts != []
  {
    var r := DoDequeue(d.c, now);
    Dequeued(d.p, AfterDrop(d.c, now), d.dropped + [r.p], d.seen + [r.sighting])
  }

  /** Drop loops at two times from one state end alike iff they agree. */
  lemma {:induction false} LoopDecides(d: Dequeued, e: Dequeued, t1: nat, t2: nat)
    requires d.c == e.c && d.dropped == e.dropped && d.c.interval > 0
    requires d.c.dropping ==> d.c.pkts != [] && d.c.firstAbove != 0 && d.c.firstAbove <= t1
    requires AfterArrivals(d.c.pkts, t1, t2)
    ensures LoopAgrees(d.c, t1, t2) <==> DropLoop(d, t1).c == DropLoop(e, t2).c
    ensures LoopAgrees(d.c, t1, t2) ==> DropLoop(d, t1).dropped == DropLoop(e, t2).dropped
    decreases |d.c.pkts|
  {
    hide ControlLaw, Bytes, DoDequeue, HeadAgrees;
    var c := d.c;
    LoopShrinks(e, t2);
    if c.dropping && c.dropNext <= t1 {
      HeadDecides(c, t1, t2);
      var d1, e1 := DropOnce(d, t1), DropOnce(e, t2);
      LoopUnfolds(d, t1);
      LoopUnfolds(e, t2);
      if HeadAgrees(c, t1, t2) {
        StillAfter(c.pkts, d1.c.pkts, t1, t2);
        LoopDecides(d1, e1, t1, t2);
      } else {
        assert !d1.c.dropping && DropLoop(d1, t1) == d1;
        StoppedDiffers(d1, e1, t2);
      }
    }
  }

  lemma StillAfter(ps: seq<Packet>, rest: seq<Packet>, t1: nat, t2: nat)
    requires AfterArrivals(ps, t1, t2) && ps != [] && [ps[0]] + rest == ps
    ensures AfterArrivals(rest, t1, t2)
  {
    assert forall k :: 0 <= k < |rest| ==> rest[k] == ps[k + 1];
  }

  lemma LoopUnfolds(d: Dequeued, now: nat)
    requires d.c.dropping && d.c.pkts != [] && now >= d.c.dropNext
    ensures DropLoop(d, now) == DropLoop(DropOnce(d, now), now)
  {
    hide DoDequeue, ControlLaw;
  }

  /** A loop that stopped below target differs from one that went on. */
  lemma StoppedDiffers(d: Dequeued, e: Dequeued, now: nat)
    requires !d.c.dropping && |e.c.pkts| == |d.c.pkts|
    requires e.c.dropping ==> e.c.pkts != []
    requires e.c.dropping || e.c.firstAbove != d.c.firstAbove
    ensures DropLoop(e, now).c != d.c
  {
    LoopShrinks(e, now);
    hide DoDequeue, ControlLaw;
  }

  /** Exactly when the moment matters: for any state and any two readings after the arrivals, the
      dequeue hands out the same packet and leaves the same state iff the readings agree; and then
      it drops the same packets. */
  lemma MomentMatters(c: State, t1: nat, t2: nat)
    requires c.pkts != [] && c.interval > 0 && AfterArrivals(c.pkts, t1, t2)
    ensures Dequeue(c, t1).p == Dequeue(c, t2).p
    ensures Agrees(c, t1, t2) <==> Dequeue(c, t1).c == Dequeue(c, t2).c
    ensures Agrees(c, t1, t2) ==> Dequeue(c, t1).dropped == Dequeue(c, t2).dropped
  {
    hide ControlLaw, Bytes, DoDequeue, HeadAgrees, DropLoop;
    HeadDecides(c, t1, t2);
    var a, b := DoDequeue(c, t1), DoDequeue(c, t2);
    if c.dropping {
      var d := Dequeued(a.p, a.c.(dropping := a.okToDrop), [], [a.sighting]);
      var e := Dequeued(b.p, b.c.(dropping := b.okToDrop), [], [b.sighting]);
      DropLoopKeepsPacket(d, t1);
      DropLoopKeepsPacket(e, t2);
      if HeadAgrees(c, t1, t2) {
        StillAfter(c.pkts, d.c.pkts, t1, t2);
        LoopDecides(d, e, t1, t2);
        if !a.okToDrop {
          LoopIdle(d, t1);
        } else {
          assert d.c == a.c;
        }
      } else {
        LoopIdle(d, t1);
        StoppedDiffers(d, e, t2);
      }
    } else if a.okToDrop {
      StartsDiffer(c, t1, t2);
    } else if b.okToDrop {
      assert |Dequeue(c, t2).c.pkts| < |a.c.pkts|;
    }
  }

  lemma LoopIdle(d: Dequeued, now: nat)
    requires !d.c.dropping
    ensures DropLoop(d, now) == d
  {
  }

  /** Starting to drop at different times leaves different counts or next drops. */
  lemma StartsDiffer(c: State, t1: nat, t2: nat)
    requires c.pkts != [] && t1 < t2 && !c.dropping
    requires DoDequeue(c, t1).okToDrop && DoDequeue(c, t2).okToDrop
    ensures Dequeue(c, t1).c != Dequeue(c, t2).c
  {
    hide DoDequeue, ResumeCount, Spacing;
  }

  /** While no drop of the loop is due the condition is flat: the moment matters iff enough bytes are
      behind the head, it has waited long enough at the later time, and it had not at the earlier,
      or no deadline was set, or one passes between the two times, or dropping starts. */
  lemma MomentMattersFlat(c: State, t1: nat, t2: nat)
    requires c.pkts != [] && c.interval > 0 && AfterArrivals(c.pkts, t1, t2)
    requires c.dropping ==> t1 < c.dropNext
    ensures Dequeue(c, t1).c != Dequeue(c, t2).c <==>
              && Bytes(c.pkts[1..]) > PACKET_SIZE && t2 - c.pkts[0].arrival >= c.target
              && (|| t1 - c.pkts[0].arrival < c.target
                  || c.firstAbove == 0
                  || (t2 >= c.firstAbove && (t1 < c.firstAbove || !c.dropping || t2 >= c.dropNext)))
  {
    hide Dequeue, Bytes, Elapsed;
    MomentMatters(c, t1, t2);
    ElapsedPlain(t1, c.pkts[0].arrival);
    SightingFacts(c, t1);
  }
}
