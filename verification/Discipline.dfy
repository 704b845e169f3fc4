/** The five queue disciplines behind the one interface through which the link sees them. */
module Discipline {
  import opened Packets
  import opened Dropping
  import Codel
  import Pie

  datatype Queue =
    | Infinite(pkts: seq<Packet>)
    | DropTail(limits: Limits, pkts: seq<Packet>)
    | DropHead(limits: Limits, pkts: seq<Packet>)
    | CoDel(c: Codel.State)
    | PIE(s: Pie.State)

  function Pkts(q: Queue): seq<Packet> {
    match q
    case CoDel(c) => c.pkts
    case PIE(s) => s.pkts
    case _ => q.pkts
  }

  /** The disciplines that never look at the clock. */
  predicate ClockFree(q: Queue) {
    q.Infinite? || q.DropTail? || q.DropHead?
  }

  /** What a queue is handed in addition to packets while a call at time `now` is handled: the time
      gone by at each reading of the clock since the call, and random numbers, in the order in which
      they are taken. */
  datatype Env = Env(now: nat, lag: nat -> nat, random: nat -> real)

  function Clock(env: Env, tick: nat): nat {
    env.now + env.lag(tick)
  }

  function Enqueue(q: Queue, p: Packet, env: Env, tick: nat): Queue {
    match q
    case Infinite(ps) => Infinite(ps + [p])
    case DropTail(limits, ps) => DropTail(limits, TailEnqueue(limits, ps, p))
    case DropHead(limits, ps) => DropHead(limits, HeadEnqueue(limits, ps, p))
    case CoDel(c) => CoDel(Codel.Enqueue(c, p))
    case PIE(s) => PIE(Pie.Enqueue(s, p, Clock(env, tick), env.random(tick)))
  }

  /** The packet handed out, the queue left, and the packets discarded on the way. */
  datatype Taken = Taken(p: Packet, q: Queue, discarded: seq<Packet>)

  function Dequeue(q: Queue, env: Env, tick: nat): Taken
    requires Pkts(q) != []
  {
    match q
    case Infinite(ps) => Taken(ps[0], Infinite(ps[1..]), [])
    case DropTail(limits, ps) => Taken(ps[0], DropTail(limits, ps[1..]), [])
    case DropHead(limits, ps) => Taken(ps[0], DropHead(limits, ps[1..]), [])
    case CoDel(c) =>
      var d := Codel.Dequeue(c, Clock(env, tick));
      Taken(d.p, CoDel(d.c), d.dropped)
    case PIE(s) =>
      var (p, t) := Pie.Dequeue(s, Clock(env, tick), Clock(env, tick + 1));
      Taken(p, PIE(t), [])
  }

  /** Invariants of the queue objects. */
  ghost predicate Sound(q: Queue) {
    match q
    case Infinite(_) => true
    case DropTail(limits, ps) => Good(limits, ps)
    case DropHead(limits, ps) => Good(limits, ps)
    case CoDel(c) => Codel.Safe(c)
    case PIE(s) => Pie.Bounded(s)
  }

  predicate SameKind(a: Queue, b: Queue) {
    && (a.Infinite? <==> b.Infinite?) && (a.DropTail? <==> b.DropTail?) && (a.DropHead? <==> b.DropHead?)
    && (a.CoDel? <==> b.CoDel?) && (a.PIE? <==> b.PIE?)
  }

  /** Dequeuing takes packets off the front in order: one is handed out, and only CoDel discards
      any behind it. */
  lemma DequeueLaw(q: Queue, env: Env, tick: nat)
    requires Pkts(q) != [] && Sound(q)
    ensures var r := Dequeue(q, env, tick);
            && Pkts(q) == [r.p] + r.discarded + Pkts(r.q)
            && (r.discarded != [] ==> q.CoDel?)
            && SameKind(q, r.q) && Sound(r.q)
  {
    hide Codel.Dequeue, Codel.Safe, Pie.Bounded, Pie.Dequeue, Bytes, Good;
    match q
    case Infinite(ps) => Front(Limits(0, 0), ps);
    case DropTail(limits, ps) => Front(limits, ps);
    case DropHead(limits, ps) => Front(limits, ps);
    case CoDel(c) => Codel.DequeueSafe(c, Clock(env, tick));
    case PIE(s) =>
      Pie.DequeueBounded(s, Clock(env, tick), Clock(env, tick + 1));
      assert [Dequeue(q, env, tick).p] + [] == [Dequeue(q, env, tick).p];
  }

  lemma Front(limits: Limits, ps: seq<Packet>)
    requires ps != []
    ensures ps == [ps[0]] + [] + ps[1..]
    ensures Good(limits, ps) ==> Good(limits, ps[1..])
  {
    assert ps == [ps[0]] + ps[1..];
    if Good(limits, ps) {
      GoodSuffix(limits, [ps[0]], ps[1..]);
    }
  }

  ghost predicate SuffixOf(xs: seq<Packet>, ys: seq<Packet>) {
    |xs| <= |ys| && xs == ys[|ys| - |xs|..]
  }

  /** Enqueuing leaves a suffix of the queue with the packet at its back, or the queue as it was. */
  lemma EnqueueLaw(q: Queue, p: Packet, env: Env, tick: nat)
    requires Sound(q)
    ensures var r := Enqueue(q, p, env, tick);
            && SameKind(q, r) && Sound(r)
            && (Pkts(r) == Pkts(q) || SuffixOf(Pkts(r), Pkts(q) + [p]))
            && (q.Infinite? ==> Pkts(r) == Pkts(q) + [p])
  {
    hide Codel.Enqueue, Codel.Safe, Pie.Bounded, Pie.Enqueue, TailEnqueue, HeadEnqueue, Good;
    WholeIsSuffix(Pkts(q) + [p]);
    match q
    case Infinite(ps) =>
    case DropTail(limits, ps) => TailAdmits(limits, ps, p);
    case DropHead(limits, ps) => HeadAdmits(limits, ps, p);
    case CoDel(c) =>
      Codel.EnqueueSafe(c, p);
      Codel.EnqueueParts(c, p);
    case PIE(s) =>
      Pie.EnqueueBounded(s, p, Clock(env, tick), env.random(tick));
  }

  lemma WholeIsSuffix(ps: seq<Packet>)
    ensures SuffixOf(ps, ps)
  {
  }

  lemma TailAdmits(limits: Limits, ps: seq<Packet>, p: Packet)
    requires Good(limits, ps)
    ensures var r := TailEnqueue(limits, ps, p); Good(limits, r) && (r == ps || r == ps + [p])
  {
    hide Bytes;
    BytesSnoc(ps, p);
  }

  lemma HeadAdmits(limits: Limits, ps: seq<Packet>, p: Packet)
    ensures var r := HeadEnqueue(limits, ps, p); Good(limits, r) && SuffixOf(r, ps + [p])
  {
    hide Good;
  }

  /** Admission in plain numbers, for each discipline: the infinite queue takes every packet; drop-tail and
      CoDel, and PIE unless it drops early, take one that fits under both limits; drop-head takes it, and
      keeps the longest suffix that fits. */
  lemma ArrivalLaw(q: Queue, p: Packet, env: Env, tick: nat)
    ensures var ps, r := Pkts(q), Pkts(Enqueue(q, p, env, tick));
            match q
            case Infinite(_) => r == ps + [p]
            case DropHead(limits, _) =>
              && SuffixOf(r, ps + [p]) && !Exceeds(limits, r)
              && forall k :: 0 <= k < |ps| + 1 - |r| ==> Exceeds(limits, (ps + [p])[k..])
            case DropTail(limits, _) =>
              r == if (limits.packets == 0 || |ps| + 1 <= limits.packets)
                      && (limits.bytes == 0 || Bytes(ps) + |p.contents| <= limits.bytes)
                   then ps + [p] else ps
            case CoDel(c) =>
              r == if (c.limits.packets == 0 || |ps| + 1 <= c.limits.packets)
                      && (c.limits.bytes == 0 || Bytes(ps) + |p.contents| <= c.limits.bytes)
                   then ps + [p] else ps
            case PIE(s) =>
              r == if (s.limits.packets == 0 || |ps| + 1 <= s.limits.packets)
                      && (s.limits.bytes == 0 || Bytes(ps) + |p.contents| <= s.limits.bytes)
                      && !Pie.DropEarly(Pie.CatchUp(s, Clock(env, tick)), env.random(tick))
                   then ps + [p] else ps
  {
    hide Bytes, DropHeads, Pie.CatchUp, Pie.DropEarly;
    match q
    case Infinite(_) =>
    case DropHead(limits, ps) => HeadAdmission(limits, ps, p);
    case DropTail(limits, ps) => TailAdmission(limits, ps, p);
    case CoDel(c) => TailAdmission(c.limits, c.pkts, p);
    case PIE(s) =>
      Pie.CatchUpKeeps(s, Clock(env, tick));
      TailAdmission(s.limits, s.pkts, p);
  }

  /** So the queue grows by at most the packet that arrived: the assertions after an enqueue hold. */
  lemma EnqueueGrowth(q: Queue, p: Packet, env: Env, tick: nat)
    requires Sound(q)
    ensures var r := Enqueue(q, p, env, tick);
            |Pkts(r)| <= |Pkts(q)| + 1 && Bytes(Pkts(r)) <= Bytes(Pkts(q)) + |p.contents|
  {
    hide Enqueue, Sound, SameKind;
    EnqueueLaw(q, p, env, tick);
    BytesSnoc(Pkts(q), p);
    var r, all := Enqueue(q, p, env, tick), Pkts(q) + [p];
    if Pkts(r) != Pkts(q) {
      SuffixBytes(Pkts(r), all);
    }
  }

  lemma SuffixBytes(xs: seq<Packet>, ys: seq<Packet>)
    requires SuffixOf(xs, ys)
    ensures Bytes(xs) <= Bytes(ys)
  {
    var k := |ys| - |xs|;
    assert ys == ys[..k] + xs;
    BytesConcat(ys[..k], xs);
  }

  /** Without a clock the readings do not matter. */
  lemma ClockFreeIgnoresEnv(q: Queue, p: Packet, env: Env, other: Env, tick: nat)
    requires ClockFree(q)
    ensures Enqueue(q, p, env, tick) == Enqueue(q, p, other, tick) && ClockFree(Enqueue(q, p, env, tick))
    ensures Pkts(q) != [] ==>
              && Dequeue(q, env, tick) == Dequeue(q, other, tick)
              && ClockFree(Dequeue(q, env, tick).q)
  {
  }
}
