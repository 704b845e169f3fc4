/** Queues with a limit on packets or bytes: drop-tail, drop-head, and what CoDel and PIE build on. */
module Dropping {
  import opened Packets

  /** Limits on packets and on bytes; 0 means no limit. */
  datatype Limits = Limits(packets: nat, bytes: nat)

  predicate GoodWith(limits: Limits, bytes: nat, packets: nat) {
    && (limits.bytes != 0 ==> bytes <= limits.bytes)
    && (limits.packets != 0 ==> packets <= limits.packets)
  }

  predicate Good(limits: Limits, ps: seq<Packet>) {
    GoodWith(limits, Bytes(ps), |ps|)
  }

  /** Taking packets off the front keeps the limits. */
  lemma GoodSuffix(limits: Limits, front: seq<Packet>, rest: seq<Packet>)
    requires Good(limits, front + rest)
    ensures Good(limits, rest)
  {
    BytesConcat(front, rest);
  }

  /** Drop-tail: a packet that does not fit is not queued. */
  function TailEnqueue(limits: Limits, ps: seq<Packet>, p: Packet): seq<Packet> {
    if GoodWith(limits, Bytes(ps) + |p.contents|, |ps| + 1) then ps + [p] else ps
  }

  /** Heads are dropped until the rest fits. */
  function DropHeads(limits: Limits, ps: seq<Packet>): (r: seq<Packet>)
    ensures Good(limits, r) && |r| <= |ps| && r == ps[|ps| - |r|..]
    ensures forall k :: 0 <= k < |ps| - |r| ==> !Good(limits, ps[k..])
    decreases |ps|
  {
    if Good(limits, ps) then
      assert ps[0..] == ps;
      ps
    else
      var r := DropHeads(limits, ps[1..]);
      assert forall k :: 0 < k < |ps| - |r| ==> ps[k..] == ps[1..][k - 1..];
      assert ps[0..] == ps;
      r
  }

  function HeadEnqueue(limits: Limits, ps: seq<Packet>, p: Packet): seq<Packet> {
    DropHeads(limits, ps + [p])
  }

  /** Drop-tail in plain numbers: a packet is queued iff one more packet is at most the packet limit and
      its bytes with those queued are at most the byte limit, where there are such limits. */
  lemma TailAdmission(limits: Limits, ps: seq<Packet>, p: Packet)
    ensures TailEnqueue(limits, ps, p) ==
            if (limits.packets == 0 || |ps| + 1 <= limits.packets)
               && (limits.bytes == 0 || Bytes(ps) + |p.contents| <= limits.bytes)
            then ps + [p] else ps
  {
    hide Bytes;
  }

  /** One limit or the other is exceeded. */
  predicate Exceeds(limits: Limits, ps: seq<Packet>) {
    (limits.packets != 0 && |ps| > limits.packets) || (limits.bytes != 0 && Bytes(ps) > limits.bytes)
  }

  /** Drop-head in plain numbers: what is left is the longest suffix, the packet that arrived included, that
      exceeds neither limit. */
  lemma HeadAdmission(limits: Limits, ps: seq<Packet>, p: Packet)
    ensures var all, r := ps + [p], HeadEnqueue(limits, ps, p);
            && |r| <= |all| && r == all[|all| - |r|..] && !Exceeds(limits, r)
            && forall k :: 0 <= k < |all| - |r| ==> Exceeds(limits, all[k..])
  {
    hide Bytes, DropHeads;
    var all, r := ps + [p], HeadEnqueue(limits, ps, p);
    assert r == DropHeads(limits, all) && Good(limits, r);
    forall k | 0 <= k < |all| - |r|
      ensures Exceeds(limits, all[k..])
    {
      assert !Good(limits, all[k..]);
    }
  }

  class DroppingPacketQueue {
    const limits: Limits
    var queueSizeInBytes: int
    var queueSizeInPackets: int
    var internalQueue: seq<Packet>

    ghost predicate Valid()
      reads this
    {
      queueSizeInBytes == Bytes(internalQueue) && queueSizeInPackets == |internalQueue|
    }

    constructor (limits: Limits)
      ensures Valid() && this.limits == limits && internalQueue == []
    {
      this.limits := limits;
      queueSizeInBytes, queueSizeInPackets, internalQueue := 0, 0, [];
    }

    method Accept(p: Packet)
      requires Valid()
      modifies this
      ensures Valid() && internalQueue == old(internalQueue) + [p]
    {
      BytesSnoc(internalQueue, p);
      queueSizeInBytes := queueSizeInBytes + |p.contents|;
      queueSizeInPackets := queueSizeInPackets + 1;
      internalQueue := internalQueue + [p];
    }

    /** `ok` tells whether the closing assertion, that the limits are met, holds. */
    method Dequeue() returns (p: Packet, ok: bool)
      requires Valid() && internalQueue != []
      modifies this
      ensures Valid() && old(internalQueue) == [p] + internalQueue
      ensures ok <==> (limits.packets == 0 || |internalQueue| <= limits.packets)
                      && (limits.bytes == 0 || Bytes(internalQueue) <= limits.bytes)
    {
      p := internalQueue[0];
      internalQueue := internalQueue[1..];
      queueSizeInBytes := queueSizeInBytes - |p.contents|;
      queueSizeInPackets := queueSizeInPackets - 1;
      ok := GoodWith(limits, queueSizeInBytes, queueSizeInPackets);
    }

    method EnqueueDropTail(p: Packet)
      requires Valid() && Good(limits, internalQueue)
      modifies this
      ensures Valid() && internalQueue == TailEnqueue(limits, old(internalQueue), p)
      ensures internalQueue ==
              if (limits.packets == 0 || |old(internalQueue)| + 1 <= limits.packets)
                 && (limits.bytes == 0 || Bytes(old(internalQueue)) + |p.contents| <= limits.bytes)
              then old(internalQueue) + [p] else old(internalQueue)
      ensures Good(limits, internalQueue)
    {
      hide Bytes;
      BytesSnoc(internalQueue, p);
      if GoodWith(limits, queueSizeInBytes + |p.contents|, queueSizeInPackets + 1) {
        Accept(p);
      }
    }

    /** `ok` is false when the assertion in a dequeue of the loop fails, which is just when more
        than one head would have to go. */
    method EnqueueDropHead(p: Packet) returns (ok: bool)
      requires Valid()
      modifies this
      ensures ok <==> !Exceeds(limits, old(internalQueue) + [p]) || !Exceeds(limits, (old(internalQueue) + [p])[1..])
      ensures ok ==> Valid() && internalQueue == HeadEnqueue(limits, old(internalQueue), p)
    {
      ghost var all := internalQueue + [p];
      Accept(p);
      ok := true;
      ghost var gone := 0;
      while !GoodWith(limits, queueSizeInBytes, queueSizeInPackets)
        invariant Valid() && gone <= |all| && internalQueue == all[gone..]
        invariant gone == 0 || (gone == 1 && !Good(limits, all) && Good(limits, all[1..]))
        invariant HeadEnqueue(limits, old(internalQueue), p) == DropHeads(limits, internalQueue)
        decreases |internalQueue|
      {
        var head;
        head, ok := Dequeue();
        gone := gone + 1;
        if !ok {
          return;
        }
      }
    }
  }

  /** With a limit on packets alone, one head at most has to go, so no assertion fails. */
  lemma PacketLimitDropsOneHead(limits: Limits, ps: seq<Packet>, p: Packet)
    requires limits.bytes == 0 && Good(limits, ps)
    ensures Good(limits, ps + [p]) || Good(limits, (ps + [p])[1..])
  {
  }

  /** With a limit on bytes two heads can have to go: a limit of 1500 bytes, two packets of 700
      queued, and one of 1500 arriving. */
  lemma ByteLimitCanNeedTwoHeads()
    ensures exists limits: Limits, ps: seq<Packet>, p: Packet ::
              && Good(limits, ps) && |p.contents| <= PACKET_SIZE
              && !Good(limits, ps + [p]) && !Good(limits, (ps + [p])[1..])
  {
    var limits := Limits(0, 1500);
    var a, p := Packet(seq(700, _ => 'a'), 0), Packet(seq(1500, _ => 'b'), 0);
    var ps := [a, a];
    BytesConcat([a], [a]);
    BytesSnoc(ps, p);
    BytesSnoc([a], p);
    assert ps == [a] + [a] && (ps + [p])[1..] == [a] + [p];
    assert Bytes([a]) == 700;
    assert Good(limits, ps) && !Good(limits, ps + [p]) && !Good(limits, (ps + [p])[1..]);
  }
}
