/** The CoDel queue object, updated in place, against its specification. */
module CodelQueue {
  import opened Packets
  import opened Dropping
  import Codel

  class CodelPacketQueue {
    const target: nat
    const interval: nat
    const base: DroppingPacketQueue
    var firstAboveTime: nat
    var dropNext: nat
    var count: nat
    var lastCount: nat
    var dropping: bool

    ghost predicate Valid()
      reads this, base
    {
      base.Valid() && Codel.Safe(Value())
    }

    function Value(): Codel.State
      reads this, base
    {
      Codel.State(base.limits, target, interval, base.internalQueue,
                  firstAboveTime, dropNext, count, lastCount, dropping)
    }

    constructor (limits: Limits, target: nat, interval: nat)
      ensures Valid() && Value() == Codel.Start(limits, target, interval) && fresh(base)
    {
      this.target, this.interval := target, interval;
      base := new DroppingPacketQueue(limits);
      firstAboveTime, dropNext, count, lastCount, dropping := 0, 0, 0, 0, false;
    }

    method DoDequeue(now: nat) returns (p: Packet, okToDrop: bool)
      requires base.Valid() && base.internalQueue != [] && Good(base.limits, base.internalQueue)
      modifies this`firstAboveTime, base
      ensures base.Valid() && Good(base.limits, base.internalQueue)
      ensures var r := Codel.DoDequeue(old(Value()), now);
              p == r.p && okToDrop == r.okToDrop && Value() == r.c
    {
      var met;
      p, met := base.Dequeue();
      GoodSuffix(base.limits, [p], base.internalQueue);
      assert met;
      okToDrop := false;
      if base.internalQueue == [] {
        firstAboveTime := 0;
        return;
      }
      var sojournTime := Codel.Elapsed(now, p.arrival);
      if sojournTime < target || base.queueSizeInBytes <= PACKET_SIZE {
        firstAboveTime := 0;
      } else if firstAboveTime == 0 {
        firstAboveTime := now + interval;
      } else if now >= firstAboveTime {
        okToDrop := true;
      }
    }

    /** The packet returned is the first one taken; the ones the inner calls take are discarded. */
    method Dequeue(now: nat) returns (p: Packet)
      requires Valid() && base.internalQueue != []
      modifies this, base
      ensures Valid()
      ensures p == Codel.Dequeue(old(Value()), now).p && Value() == Codel.Dequeue(old(Value()), now).c
    {
      hide Codel.ControlLaw, Codel.DoDequeue, Codel.DropLoop, Codel.Conserves;
      ghost var start := Value();
      Codel.DequeueSafe(start, now);
      ghost var r := Codel.DoDequeue(start, now);
      var ok;
      p, ok := DoDequeue(now);
      if dropping {
        if !ok {
          dropping := false;
        }
        assert Value() == r.c.(dropping := r.okToDrop);
        DropWhileDue(now, Codel.Dequeued(p, Value(), [], [r.sighting]));
        Codel.DropLoopKeepsPacket(Codel.Dequeued(p, r.c.(dropping := r.okToDrop), [], [r.sighting]), now);
      } else if ok {
        var q, again := DoDequeue(now);
        dropping := true;
        var delta := (count - lastCount) % 0x1_0000_0000;
        count := if delta > 1 && Codel.Elapsed(now, dropNext) < (16 * interval) % 0x1_0000_0000 then delta else 1;
        dropNext := Codel.ControlLaw(interval, now, count);
        lastCount := count;
      }
    }

    /** The loop of `dequeue`; `start` is what it has done so far. */
    method DropWhileDue(now: nat, ghost start: Codel.Dequeued)
      requires base.Valid() && Good(base.limits, base.internalQueue)
      requires dropping ==> base.internalQueue != []
      requires start.c == Value()
      modifies this, base
      ensures base.Valid()
      ensures Value() == Codel.DropLoop(start, now).c
    {
      hide Codel.Spacing, Codel.DoDequeue;
      ghost var d := start;
      while now >= dropNext && dropping
        invariant base.Valid() && Good(base.limits, base.internalQueue)
        invariant dropping ==> base.internalQueue != []
        invariant d.c == Value()
        invariant Codel.DropLoop(d, now) == Codel.DropLoop(start, now)
        decreases |base.internalQueue|
      {
        ghost var seen := Codel.DoDequeue(d.c, now).sighting;
        var q, again := DoDequeue(now);
        count := count + 1;
        if !again {
          dropping := false;
        } else {
          dropNext := Codel.ControlLaw(interval, dropNext, count);
        }
        d := Codel.Dequeued(d.p, Value(), d.dropped + [q], d.seen + [seen]);
      }
    }

    method Enqueue(p: Packet)
      requires Valid()
      modifies base
      ensures Valid() && Value() == Codel.Enqueue(old(Value()), p)
    {
      Codel.EnqueueSafe(Value(), p);
      if GoodWith(base.limits, base.queueSizeInBytes + |p.contents|, base.queueSizeInPackets + 1) {
        base.Accept(p);
      }
    }
  }
}
