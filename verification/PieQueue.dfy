/** The PIE queue object, updated in place, against its specification. */
module PieQueue {
  import opened Packets
  import opened Dropping
  import Pie

  class PiePacketQueue {
    const qdelayRef: nat
    const maxBurst: nat
    const base: DroppingPacketQueue
    var dropProb: real
    var burstAllowance: nat
    var qdelayOld: nat
    var currentQdelay: nat
    var dqCount: nat
    var dqTstamp: nat
    var avgDqRate: nat
    var lastUpdate: nat

    ghost predicate Valid()
      reads this, base
    {
      base.Valid() && Pie.Bounded(Value())
    }

    ghost function Value(): Pie.State
      reads this, base
    {
      Pie.State(base.limits, qdelayRef, maxBurst, base.internalQueue, dropProb, burstAllowance, qdelayOld,
                currentQdelay, dqCount, dqTstamp, avgDqRate, lastUpdate)
    }

    constructor (limits: Limits, qdelayRef: nat, maxBurst: nat, now: nat)
      ensures Valid() && Value() == Pie.Start(limits, qdelayRef, maxBurst, now) && fresh(base)
    {
      this.qdelayRef, this.maxBurst := qdelayRef, maxBurst;
      base := new DroppingPacketQueue(limits);
      dropProb, burstAllowance, qdelayOld, currentQdelay := 0.0, 0, 0, 0;
      dqCount, dqTstamp, avgDqRate, lastUpdate := Pie.DQ_COUNT_INVALID, 0, 0, now;
    }

    /** The part of a pass that moves the drop probability. */
    method AdjustProb()
      requires base.Valid()
      modifies this`dropProb
      ensures dropProb == Pie.NewProb(old(Value()).(qdelay := qdelayOld), currentQdelay)
    {
      hide Pie.Adjustment, Bytes;
      var updateProb := currentQdelay != 0 || base.queueSizeInBytes == 0;
      dropProb := dropProb + Pie.Adjustment(dropProb, currentQdelay, qdelayRef, qdelayOld);
      if dropProb < 0.0 {
        dropProb := 0.0;
      } else if dropProb > 1.0 {
        dropProb := 1.0;
        updateProb := false;
      }
      if currentQdelay == 0 && qdelayOld == 0 && updateProb {
        dropProb := dropProb * 0.98;
      }
    }

    /** One pass of the catch-up loop. */
    method Update()
      requires base.Valid()
      modifies this
      ensures Value() == Pie.Update(old(Value()))
    {
      hide Pie.NewProb, Pie.Signed32, Bytes;
      qdelayOld := currentQdelay;
      if avgDqRate > 0 {
        currentQdelay := base.queueSizeInBytes / avgDqRate;
      } else {
        currentQdelay := 0;
      }
      AdjustProb();
      Pie.NewProbIgnoresOld(Value().(qdelay := qdelayOld, dropProb := old(dropProb)), old(Value()), currentQdelay);
      burstAllowance := Pie.Max0(Pie.Signed32(burstAllowance) - Pie.T_UPDATE);
      lastUpdate := lastUpdate + Pie.T_UPDATE;
      if dropProb == 0.0 && currentQdelay < qdelayRef / 2 && qdelayOld < qdelayRef / 2 && avgDqRate > 0 {
        dqCount := Pie.DQ_COUNT_INVALID;
        avgDqRate := 0;
        burstAllowance := maxBurst;
      }
    }

    method CalculateDropProb(now: nat)
      requires base.Valid()
      modifies this
      ensures Value() == Pie.CatchUp(old(Value()), now)
    {
      hide Pie.NewProb;
      while now - lastUpdate > Pie.T_UPDATE
        invariant base.Valid()
        invariant Pie.CatchUp(Value(), now) == Pie.CatchUp(old(Value()), now)
        decreases now - lastUpdate
      {
        Update();
      }
    }

    method Enqueue(p: Packet, now: nat, random: real)
      requires Valid()
      modifies this, base
      ensures Valid() && Value() == Pie.Enqueue(old(Value()), p, now, random)
    {
      hide Pie.CatchUp, Pie.Bounded, Pie.DropEarly;
      Pie.EnqueueBounded(Value(), p, now, random);
      CalculateDropProb(now);
      ghost var t := Value();
      if !GoodWith(base.limits, base.queueSizeInBytes + |p.contents|, base.queueSizeInPackets + 1) {
        return;
      }
      var drop := DropEarly(random);
      if !drop {
        base.Accept(p);
      }
    }

    method DropEarly(random: real) returns (drop: bool)
      requires base.Valid()
      ensures drop == Pie.DropEarly(Value(), random)
    {
      if burstAllowance > 0 {
        return false;
      }
      if qdelayOld < qdelayRef / 2 && dropProb < 0.2 {
        return false;
      }
      if base.queueSizeInBytes < 2 * PACKET_SIZE {
        return false;
      }
      return random < dropProb;
    }

    method Dequeue(measured: nat, now: nat) returns (p: Packet)
      requires Valid() && base.internalQueue != []
      modifies this, base
      ensures Valid() && (p, Value()) == Pie.Dequeue(old(Value()), measured, now)
    {
      hide Pie.CatchUp, Pie.Bounded, Pie.Measure;
      Pie.DequeueBounded(Value(), measured, now);
      var met;
      p, met := base.Dequeue();
      Measure(|p.contents|, measured % 0x1_0000_0000);
      CalculateDropProb(now);
    }

    /** The middle part of `dequeue`: rate measurement and burst allowance. */
    method Measure(size: nat, now: nat)
      requires base.Valid()
      modifies this
      ensures Value() == Pie.Measure(old(Value()), size, now)
    {
      hide Pie.Sample, Bytes;
      if base.queueSizeInBytes >= Pie.DQ_THRESHOLD && dqCount == Pie.DQ_COUNT_INVALID {
        dqTstamp := now;
        dqCount := 0;
      }
      if dqCount != Pie.DQ_COUNT_INVALID {
        dqCount := (dqCount + size) % 0x1_0000_0000;
        if dqCount > Pie.DQ_THRESHOLD {
          var dtime := (now - dqTstamp) % 0x1_0000_0000;
          if dtime > 0 {
            TakeSample(dtime, now);
          }
        }
      }
    }

    /** The moving average, in shifts. */
    method UpdateAverage(rateSample: nat)
      modifies this`avgDqRate
      ensures avgDqRate == Pie.Average(old(avgDqRate), rateSample)
    {
      if avgDqRate == 0 {
        avgDqRate := rateSample;
      } else {
        avgDqRate := (avgDqRate - avgDqRate / 8) + rateSample / 8;
      }
    }

    method TakeSample(dtime: nat, now: nat)
      requires base.Valid() && dtime > 0
      modifies this
      ensures Value() == Pie.Sample(old(Value()), dtime, now)
    {
      hide Bytes, Pie.Average;
      UpdateAverage(dqCount / dtime);
      if base.queueSizeInBytes < Pie.DQ_THRESHOLD {
        dqCount := Pie.DQ_COUNT_INVALID;
      } else {
        dqCount := 0;
        dqTstamp := now;
      }
      if burstAllowance > 0 {
        if burstAllowance > dtime {
          burstAllowance := burstAllowance - dtime;
        } else {
          burstAllowance := 0;
        }
      }
    }
  }
}
