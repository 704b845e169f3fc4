/** The link object, updated in place, against its specification. The queue behind it is a value of
    Discipline.Queue: the call through the abstract queue interface is the match on it. */
module LinkQueue {
  import opened Text
  import opened Packets
  import opened Discipline
  import opened Link
  import opened LinkRuns
  import Schedule

  function Contents(ds: seq<Delivery>): (cs: seq<string>)
    ensures |cs| == |ds| && forall k :: 0 <= k < |ds| ==> cs[k] == ds[k].packet.contents
  {
    if ds == [] then [] else Contents(ds[..|ds| - 1]) + [ds[|ds| - 1].packet.contents]
  }

  lemma ContentsSnoc(ds: seq<Delivery>, d: Delivery)
    ensures Contents(ds + [d]) == Contents(ds) + [d.packet.contents]
  {
    assert (ds + [d])[..|ds|] == ds;
  }

  lemma StartIsConsistent(cfg: Schedule.Config, queue: Queue, base: nat)
    ensures Schedule.Valid(cfg) && Empty(queue) ==> Consistent(cfg, Start(queue, base)) && Contents([]) == [] + []
  {
    if Schedule.Valid(cfg) && Empty(queue) {
      StartConsistent(cfg, queue, base);
    }
  }

  class LinkQueue {
    const cfg: Schedule.Config
    var nextDelivery: nat
    var baseTimestamp: nat
    var finished: bool
    var packetQueue: Queue
    var packetInTransit: Packet
    var packetInTransitBytesLeft: nat
    var outputQueue: seq<string>
    var log: seq<LogEntry>
    var ticks: nat
    ghost var sent: seq<Delivery>
    ghost var discarded: seq<Packet>
    ghost var arrived: seq<Packet>
    ghost var written: seq<string>

    function Timer(): Schedule.Timer
      reads this
    {
      Schedule.Timer(nextDelivery, baseTimestamp, finished)
    }

    ghost function Flow(): Traffic
      reads this
    {
      Traffic(packetQueue, packetInTransit, packetInTransitBytesLeft, sent, log, discarded, arrived, ticks)
    }

    ghost function Value(): State
      reads this
    {
      State(Timer(), Flow())
    }

    /** The output queue holds what was sent and not yet written. */
    ghost predicate Output()
      reads this
    {
      Contents(sent) == written + outputQueue
    }

    ghost predicate Valid()
      reads this
    {
      Consistent(cfg, Value()) && Output()
    }

    constructor (cfg: Schedule.Config, queue: Queue, base: nat)
      requires Schedule.Valid(cfg) && Empty(queue)
      ensures Valid() && Value() == Start(queue, base) && outputQueue == []
    {
      hide Consistent, Empty, Schedule.Valid;
      this.cfg := cfg;
      nextDelivery, baseTimestamp, finished := 0, base, false;
      packetQueue, packetInTransit, packetInTransitBytesLeft := queue, Packet("", 0), 0;
      outputQueue, log, ticks := [], [], 0;
      sent, discarded, arrived, written := [], [], [], [];
      new;
      StartIsConsistent(cfg, queue, base);
    }

    method UseADeliveryOpportunity()
      requires Schedule.InRange(cfg, Timer()) && !finished
      modifies this`nextDelivery, this`baseTimestamp, this`finished, this`log
      ensures Timer() == Schedule.Use(cfg, old(Timer()))
      ensures log == old(log) + [Opportunity(Schedule.NextTime(cfg, old(Timer())).value, PACKET_SIZE)]
    {
      log := log + [Opportunity(Schedule.NextTime(cfg, Timer()).value, PACKET_SIZE)];
      nextDelivery := (nextDelivery + 1) % |cfg.schedule|;
      if nextDelivery == 0 {
        if cfg.repeat {
          baseTimestamp := baseTimestamp + Schedule.Last(cfg.schedule);
        } else {
          finished := true;
        }
      }
    }

    /** Take the next packet off the queue. */
    method DequeuePacket(env: Env)
      requires Pkts(packetQueue) != []
      modifies this`packetQueue, this`packetInTransit, this`packetInTransitBytesLeft, this`ticks, this`discarded
      ensures Flow() == Load(old(Flow()), env)
    {
      hide Dequeue;
      var r := Dequeue(packetQueue, env, ticks);
      packetQueue, packetInTransit, packetInTransitBytesLeft := r.q, r.p, |r.p.contents|;
      ticks := ticks + 2;
      discarded := discarded + r.discarded;
    }

    /** Send bytes of the packet in transit; when it is all sent, log it and put it out. */
    method SendBytes(amount: nat, time: nat)
      requires amount <= packetInTransitBytesLeft && Output()
      modifies this`packetInTransitBytesLeft, this`sent, this`log, this`outputQueue
      ensures Flow() == Send(old(Flow()), time, amount) && Output()
    {
      hide Contents;
      packetInTransitBytesLeft := packetInTransitBytesLeft - amount;
      if packetInTransitBytesLeft == 0 {
        log := log + [Departure(time, |packetInTransit.contents|, time - packetInTransit.arrival)];
        ContentsSnoc(sent, Delivery(packetInTransit, time));
        sent := sent + [Delivery(packetInTransit, time)];
        outputQueue := outputQueue + [packetInTransit.contents];
      }
    }

    /** The inner loop of `rationalize`, with its four assertions. */
    method FillOpportunity(env: Env, time: nat)
      requires Kept(Flow(), time) && Output()
      modifies this`packetQueue, this`packetInTransit, this`packetInTransitBytesLeft, this`ticks,
               this`discarded, this`sent, this`log, this`outputQueue
      ensures Flow() == Fill(old(Flow()), env, time, PACKET_SIZE) && Output()
    {
      hide Kept, Load, Send;
      var bytesLeft := PACKET_SIZE;
      while bytesLeft > 0
        invariant Kept(Flow(), time) && Output()
        invariant Fill(Flow(), env, time, bytesLeft) == Fill(old(Flow()), env, time, PACKET_SIZE)
      {
        if packetInTransitBytesLeft == 0 {
          if Pkts(packetQueue) == [] {
            break;
          }
          LoadKeeps(Flow(), env, time);
          LoadedIsPositive(Flow(), env, time);
          DequeuePacket(env);
        }
        InTransitFits(Flow(), time);
        assert packetInTransit.arrival <= time;
        assert packetInTransitBytesLeft <= PACKET_SIZE;
        assert packetInTransitBytesLeft > 0;
        assert packetInTransitBytesLeft <= |packetInTransit.contents|;
        var amountToSend := Min(bytesLeft, packetInTransitBytesLeft);
        SendKeeps(Flow(), time, amountToSend, time);
        SendBytes(amountToSend, time);
        bytesLeft := bytesLeft - amountToSend;
      }
    }

    /** Emulate the link up to `now`. */
    method Rationalize(env: Env, now: nat)
      requires Valid()
      modifies this
      ensures Valid() && Value() == Link.Rationalize(cfg, old(Value()), env, now)
      ensures written == old(written)
    {
      hide Consistent, Fill, Kept;
      ConsistentInRange(cfg, Value());
      while Schedule.Due(cfg, Timer(), now)
        invariant Valid() && InRange(cfg, Value()) && written == old(written)
        invariant Link.Rationalize(cfg, Value(), env, now) == Link.Rationalize(cfg, old(Value()), env, now)
        decreases !finished, if baseTimestamp <= now then now - baseTimestamp + 1 else 0, |cfg.schedule| - nextDelivery
      {
        ghost var before := Value();
        TimerDecreases(cfg, Timer(), now);
        ServeKeeps(cfg, before, env);
        var time := Schedule.NextTime(cfg, Timer()).value;
        NextKept(cfg, before, time);
        UseADeliveryOpportunity();
        OpportunityLogged(before.traffic, time, time);
        FillOpportunity(env, time);
        assert Value() == Serve(cfg, before, env);
      }
    }

    /** `read_packet`; false where it throws. The contents are what a read of the device gave. */
    method ReadPacket(contents: string, env: Env, now: nat) returns (ok: bool)
      requires Valid() && contents != ""
      modifies this
      ensures ok <==> |contents| <= PACKET_SIZE
      ensures Valid() && Value() == if ok then Receive(cfg, old(Value()), contents, env, now).value else old(Value())
      ensures written == old(written)
    {
      hide Consistent, Enqueue, Link.Rationalize, Admit;
      ConsistentInRange(cfg, Value());
      if |contents| > PACKET_SIZE {
        return false;
      }
      ReceiveKeeps(cfg, Value(), contents, env, now);
      Rationalize(env, now);
      ConsistentSound(cfg, Value());
      AdmitPacket(Packet(contents, now), env, now);
      return true;
    }

    /** The rest of `read_packet`: log the arrival, enqueue, and log what the queue lost. */
    method AdmitPacket(p: Packet, env: Env, now: nat)
      requires Sound(packetQueue) && Output()
      modifies this`packetQueue, this`log, this`ticks, this`arrived
      ensures Flow() == Admit(old(Flow()), p, env, now) && Output()
    {
      hide Enqueue, Sound, Bytes, Pkts;
      log := log + [Arrival(now, |p.contents|)];
      var bytesBefore, packetsBefore := Bytes(Pkts(packetQueue)), |Pkts(packetQueue)|;
      EnqueueGrowth(packetQueue, p, env, ticks);
      packetQueue := Enqueue(packetQueue, p, env, ticks);
      ticks := ticks + 1;
      assert |Pkts(packetQueue)| <= packetsBefore + 1;
      assert Bytes(Pkts(packetQueue)) <= bytesBefore + |p.contents|;
      var missingPackets := packetsBefore + 1 - |Pkts(packetQueue)|;
      var missingBytes := bytesBefore + |p.contents| - Bytes(Pkts(packetQueue));
      if missingPackets > 0 || missingBytes > 0 {
        log := log + [Drop(now, missingPackets, missingBytes)];
      }
      arrived := arrived + [p];
      assert forall xs: seq<LogEntry> :: xs + [] == xs;
    }

    /** Hand over all output, in order. */
    method WritePackets() returns (out: seq<string>)
      requires Valid()
      modifies this`outputQueue, this`written
      ensures Valid() && outputQueue == [] && out == old(outputQueue) && written == old(written) + out
      ensures Value() == old(Value()) && Contents(sent) == written
    {
      hide Consistent;
      out := [];
      while outputQueue != []
        invariant out + outputQueue == old(outputQueue)
        invariant written == old(written) + out
        invariant Value() == old(Value())
        decreases |outputQueue|
      {
        out := out + [outputQueue[0]];
        written := written + [outputQueue[0]];
        outputQueue := outputQueue[1..];
      }
      assert old(written) + old(outputQueue) == written + outputQueue;
    }

    /** `next_delivery_time`: the largest 64-bit number when the trace is used up. */
    function NextDeliveryTime(): nat
      requires nextDelivery < |cfg.schedule|
      reads this
    {
      if finished then 0xFFFF_FFFF_FFFF_FFFF else cfg.schedule[nextDelivery] + baseTimestamp
    }

    /** Catches up first. Then the next opportunity, if there is one, lies ahead, and the answer is the
        time to it, cut to 32 bits; without one it is the time to the end of the clock, cut too. */
    method WaitTime(env: Env, now: nat) returns (wait: nat)
      requires Valid() && now < 0xFFFF_FFFF_FFFF_FFFF
      modifies this
      ensures Valid() && Value() == Link.Rationalize(cfg, old(Value()), env, now) && written == old(written)
      ensures InRange(cfg, Value())
      ensures match Schedule.NextTime(cfg, Timer())
              case None => wait == (0xFFFF_FFFF_FFFF_FFFF - now) % 0x1_0000_0000
              case Some(time) => now < time && wait == (time - now) % 0x1_0000_0000
    {
      hide Consistent, Fill;
      ConsistentInRange(cfg, Value());
      Rationalize(env, now);
      ConsistentInRange(cfg, Value());
      var time := NextDeliveryTime();
      wait := 0;
      if time > now {
        wait := (time - now) % 0x1_0000_0000;
      }
    }
  }

  lemma InTransitFits(t: Traffic, time: nat)
    requires Kept(t, time) && t.left > 0
    ensures t.transit.arrival < time && t.left <= |t.transit.contents| <= PACKET_SIZE
  {
    hide Balanced, Ordered, Recorded;
    assert Waiting(t)[0] == t.transit;
  }

  lemma NextKept(cfg: Schedule.Config, l: State, time: nat)
    requires Consistent(cfg, l) && Schedule.NextTime(cfg, l.timer) == Some(time)
    ensures Kept(l.traffic, time)
  {
  }

  lemma ConsistentSound(cfg: Schedule.Config, l: State)
    requires Consistent(cfg, l)
    ensures Sound(l.traffic.queue)
  {
    hide Balanced, Ordered, Recorded, Causal;
  }
}
