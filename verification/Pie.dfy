/** PIE (section 4.2 of RFC 8033) as the queue implements it: the timer of the standard is replaced
    by catching up on missed updates at every enqueue and dequeue. */
module Pie {
  import opened Packets
  import opened Dropping

  const T_UPDATE: nat := 30
  const DQ_THRESHOLD: nat := 16384
  const DQ_COUNT_INVALID: nat := 0xFFFF_FFFF

  datatype State = State(limits: Limits, qdelayRef: nat, maxBurst: nat, pkts: seq<Packet>,
                         dropProb: real, burst: nat, qdelayOld: nat, qdelay: nat,
                         dqCount: nat, dqTstamp: nat, avgRate: nat, lastUpdate: nat)

  function Start(limits: Limits, qdelayRef: nat, maxBurst: nat, now: nat): State {
    State(limits, qdelayRef, maxBurst, [], 0.0, 0, 0, 0, DQ_COUNT_INVALID, 0, 0, now)
  }

  /** A 32-bit pattern read as a signed number. */
  function Signed32(x: int): int {
    var u := x % 0x1_0000_0000;
    if u < 0x8000_0000 then u else u - 0x1_0000_0000
  }

  function Max0(x: int): nat {
    if x > 0 then x else 0
  }

  /** Change of the drop probability asked for by the delays. */
  function Adjustment(dropProb: real, qdelay: nat, qdelayRef: nat, qdelayOld: nat): real {
    var p := 0.125 * (Signed32(qdelay - qdelayRef) as real) + 1.25 * (Signed32(qdelay - qdelayOld) as real);
    if dropProb < 0.01 then p / 128.0 else if dropProb < 0.1 then p / 32.0 else p / 16.0
  }

  /** The new probability: adjusted, clamped to [0, 1], and decayed while the queue stays idle. */
  function NewProb(s: State, qdelay: nat): real {
    var p := s.dropProb + Adjustment(s.dropProb, qdelay, s.qdelayRef, s.qdelay);
    var updateProb := !(qdelay == 0 && Bytes(s.pkts) != 0) && !(p > 1.0);
    var clamped := if p < 0.0 then 0.0 else if p > 1.0 then 1.0 else p;
    if qdelay == 0 && s.qdelay == 0 && updateProb then clamped * 0.98 else clamped
  }

  lemma NewProbIgnoresOld(a: State, b: State, qdelay: nat)
    requires a.(qdelayOld := b.qdelayOld) == b
    ensures NewProb(a, qdelay) == NewProb(b, qdelay)
  {
    hide Adjustment, Bytes;
  }

  /** Milliseconds that the queue takes at the average rate. */
  function Delay(s: State): nat {
    if s.avgRate > 0 then Bytes(s.pkts) / s.avgRate else 0
  }

  /** The queue has been idle enough to begin a new measurement and a new burst allowance. */
  predicate Resets(s: State) {
    NewProb(s, Delay(s)) == 0.0 && Delay(s) < s.qdelayRef / 2 && s.qdelay < s.qdelayRef / 2 && s.avgRate > 0
  }

  /** One pass of the loop in `calculate_drop_prob`. */
  function Update(s: State): State {
    var t := s.(qdelayOld := s.qdelay, qdelay := Delay(s), dropProb := NewProb(s, Delay(s)),
                burst := Max0(Signed32(s.burst) - T_UPDATE), lastUpdate := s.lastUpdate + T_UPDATE);
    if Resets(s) then t.(dqCount := DQ_COUNT_INVALID, avgRate := 0, burst := s.maxBurst) else t
  }

  /** `calculate_drop_prob` at time `now`. */
  function CatchUp(s: State, now: nat): State
    decreases now - s.lastUpdate
  {
    if now - s.lastUpdate > T_UPDATE then CatchUp(Update(s), now) else s
  }

  /** Whether the packet is to be dropped, given a random number in [0, 1). */
  predicate DropEarly(s: State, random: real) {
    && s.burst == 0
    && !(s.qdelayOld < s.qdelayRef / 2 && s.dropProb < 0.2)
    && Bytes(s.pkts) >= 2 * PACKET_SIZE
    && random < s.dropProb
  }

  function Enqueue(s: State, p: Packet, now: nat, random: real): State {
    var t := CatchUp(s, now);
    if GoodWith(t.limits, Bytes(t.pkts) + |p.contents|, |t.pkts| + 1) && !DropEarly(t, random)
    then t.(pkts := t.pkts + [p]) else t
  }

  /** Moving average of the dequeue rate, in shifts of 3 bits. */
  function Average(avg: nat, sample: nat): nat {
    if avg == 0 then sample else avg - avg / 8 + sample / 8
  }

  /** Rate measurement after a packet of `size` bytes left at time `now` (32-bit). */
  function Measure(s: State, size: nat, now: nat): State {
    var start := if Bytes(s.pkts) >= DQ_THRESHOLD && s.dqCount == DQ_COUNT_INVALID
                 then s.(dqTstamp := now, dqCount := 0) else s;
    if start.dqCount == DQ_COUNT_INVALID then start
    else
      var t := start.(dqCount := (start.dqCount + size) % 0x1_0000_0000);
      var dtime := (now - t.dqTstamp) % 0x1_0000_0000;
      if t.dqCount <= DQ_THRESHOLD || dtime == 0 then t else Sample(t, dtime, now)
  }

  /** A rate sample over `dtime` milliseconds. */
  function Sample(s: State, dtime: nat, now: nat): State
    requires dtime > 0
  {
    var sample := s.dqCount / dtime;
    var t := s.(avgRate := Average(s.avgRate, sample),
                burst := if s.burst > dtime then s.burst - dtime else 0);
    if Bytes(s.pkts) < DQ_THRESHOLD then t.(dqCount := DQ_COUNT_INVALID) else t.(dqCount := 0, dqTstamp := now)
  }

  /** Dequeue; the clock is read before measuring and again before catching up. */
  function Dequeue(s: State, measured: nat, now: nat): (Packet, State)
    requires s.pkts != []
  {
    var p := s.pkts[0];
    (p, CatchUp(Measure(s.(pkts := s.pkts[1..]), |p.contents|, measured % 0x1_0000_0000), now))
  }

  // ---------------------------------------------------------------- steering

  /** The signed number of a 32-bit pattern: congruent to it, and within 2^31 of zero. */
  lemma SignedIs(x: int)
    ensures -0x8000_0000 <= Signed32(x) < 0x8000_0000 && (x - Signed32(x)) % 0x1_0000_0000 == 0
  {
  }

  /** The two are less than 2^31 apart, either way. */
  predicate Near(a: nat, b: nat) {
    -0x8000_0000 <= a - b < 0x8000_0000
  }

  lemma NearSigned(a: nat, b: nat)
    requires Near(a, b)
    ensures Signed32(a - b) == a - b
  {
  }

  /** The size of a step. The delay is the bytes queued over the average rate, 0 without one. The
      probability moves by the delay's excess over the reference plus ten times its rise, by a 1024th, a
      256th or a 128th of that as it is below 1 percent, below 10 percent, or not; is cut at 0 and 1; and
      decays by 2 percent just when nothing is queued and both delays are 0. */
  lemma StepSize(s: State)
    requires 0.0 <= s.dropProb <= 1.0
    requires var delay := if s.avgRate > 0 then Bytes(s.pkts) / s.avgRate else 0;
             Near(delay, s.qdelayRef) && Near(delay, s.qdelay)
    ensures var delay := if s.avgRate > 0 then Bytes(s.pkts) / s.avgRate else 0;
            var push := (delay - s.qdelayRef + 10 * (delay - s.qdelay)) as real;
            var share := if s.dropProb < 0.01 then 1024.0 else if s.dropProb < 0.1 then 256.0 else 128.0;
            var moved := s.dropProb + push / share;
            var cut := if moved < 0.0 then 0.0 else if moved > 1.0 then 1.0 else moved;
            && Update(s).qdelay == delay && Update(s).qdelayOld == s.qdelay
            && Update(s).dropProb ==
               if Bytes(s.pkts) == 0 && delay == 0 && s.qdelay == 0 then cut * 0.98 else cut
  {
    hide Bytes, Signed32, Max0, Adjustment, NewProb;
    var delay := Delay(s);
    NearSigned(delay, s.qdelayRef);
    NearSigned(delay, s.qdelay);
    AdjustmentIs(s.dropProb, delay, s.qdelayRef, s.qdelay);
    ProbIs(s, delay);
    assert Update(s).dropProb == NewProb(s, delay);
  }

  lemma AdjustmentIs(dropProb: real, qdelay: nat, qdelayRef: nat, qdelayOld: nat)
    requires Near(qdelay, qdelayRef) && Near(qdelay, qdelayOld)
    ensures var push := (qdelay - qdelayRef + 10 * (qdelay - qdelayOld)) as real;
            Adjustment(dropProb, qdelay, qdelayRef, qdelayOld) ==
            if dropProb < 0.01 then push / 1024.0 else if dropProb < 0.1 then push / 256.0 else push / 128.0
  {
    hide Signed32;
    NearSigned(qdelay, qdelayRef);
    NearSigned(qdelay, qdelayOld);
  }

  lemma ProbIs(s: State, qdelay: nat)
    requires 0.0 <= s.dropProb <= 1.0 && Near(qdelay, s.qdelayRef) && Near(qdelay, s.qdelay)
    ensures var moved := s.dropProb + Adjustment(s.dropProb, qdelay, s.qdelayRef, s.qdelay);
            var cut := if moved < 0.0 then 0.0 else if moved > 1.0 then 1.0 else moved;
            NewProb(s, qdelay) == if Bytes(s.pkts) == 0 && qdelay == 0 && s.qdelay == 0 then cut * 0.98 else cut
  {
    hide Bytes, Signed32, Adjustment;
    AdjustmentIs(s.dropProb, qdelay, s.qdelayRef, s.qdelay);
  }

  /** What else an update does: 30 milliseconds are accounted for; the burst allowance goes down by as many,
      and measuring begins anew, with the whole allowance, just when the probability has come to 0 with both
      delays below half the reference and a rate known. */
  lemma UpdateElse(s: State)
    requires s.burst < 0x8000_0000
    ensures var u := Update(s);
            var idle := u.dropProb == 0.0 && u.qdelay < s.qdelayRef / 2 && s.qdelay < s.qdelayRef / 2 && s.avgRate > 0;
            && u.lastUpdate == s.lastUpdate + 30
            && u.burst == (if idle then s.maxBurst else if s.burst > 30 then s.burst - 30 else 0)
            && u.avgRate == (if idle then 0 else s.avgRate)
            && u.dqCount == (if idle then 0xFFFF_FFFF else s.dqCount)
            && u.dqTstamp == s.dqTstamp && u.pkts == s.pkts
            && u.limits == s.limits && u.qdelayRef == s.qdelayRef && u.maxBurst == s.maxBurst
  {
    hide NewProb, Bytes;
  }

  /** The controller steers by the signs of two differences as 32-bit numbers, delay less reference
      and delay less last delay: if neither is negative it never lowers the probability, if neither is
      positive it never raises it, and if both are zero the probability stays. */
  lemma SteersBySigns(s: State, qdelay: nat)
    requires 0.0 <= s.dropProb <= 1.0
    ensures var above, rise := Signed32(qdelay - s.qdelayRef), Signed32(qdelay - s.qdelay);
            && (above >= 0 && rise >= 0 && qdelay > 0 ==> NewProb(s, qdelay) >= s.dropProb)
            && (above <= 0 && rise <= 0 ==> NewProb(s, qdelay) <= s.dropProb)
            && (above == 0 && rise == 0 && qdelay > 0 ==> NewProb(s, qdelay) == s.dropProb)
  {
    hide Bytes, Signed32;
  }

  /** Hence it steers the right way while the differences fit: a delay at or above the reference that
      is not falling never lowers the probability, one at or below it that is not rising never raises
      it, and at the reference and steady the probability stays. */
  lemma Steers(s: State, qdelay: nat)
    requires 0.0 <= s.dropProb <= 1.0 && Near(qdelay, s.qdelayRef) && Near(qdelay, s.qdelay)
    ensures qdelay >= s.qdelayRef && qdelay >= s.qdelay && qdelay > 0 ==> NewProb(s, qdelay) >= s.dropProb
    ensures qdelay <= s.qdelayRef && qdelay <= s.qdelay ==> NewProb(s, qdelay) <= s.dropProb
    ensures qdelay == s.qdelayRef == s.qdelay && qdelay > 0 ==> NewProb(s, qdelay) == s.dropProb
  {
    hide NewProb, Signed32;
    NearSigned(qdelay, s.qdelayRef);
    NearSigned(qdelay, s.qdelay);
    SteersBySigns(s, qdelay);
  }

  /** And it can steer the wrong way where one does not fit: a delay 2^31 above the reference, not
      falling, takes any probability below 1 to 0. */
  lemma SteersWrongWay(s: State)
    requires 0.0 <= s.dropProb < 1.0 && s.qdelay == s.qdelayRef + 0x8000_0000
    ensures NewProb(s, s.qdelay) == 0.0
  {
    hide Bytes;
  }

  // ---------------------------------------------------------------- catching up

  function Updates(s: State, n: nat): State
    decreases n
  {
    if n == 0 then s else Updates(Update(s), n - 1)
  }

  /** Updates due at `now`: ceil((now - last) / 30) - 1 of them. */
  function Due(last: nat, now: nat): nat {
    if now <= last then 0 else (now - last + T_UPDATE - 1) / T_UPDATE - 1
  }

  /** Catching up runs exactly the updates due and never overtakes the clock. */
  lemma {:induction false} CatchUpIsDue(s: State, now: nat)
    ensures CatchUp(s, now) == Updates(s, Due(s.lastUpdate, now))
    ensures CatchUp(s, now).lastUpdate == s.lastUpdate + T_UPDATE * Due(s.lastUpdate, now)
    ensures s.lastUpdate <= now ==> CatchUp(s, now).lastUpdate <= now <= CatchUp(s, now).lastUpdate + T_UPDATE
    decreases now - s.lastUpdate
  {
    hide NewProb;
    if now - s.lastUpdate > T_UPDATE {
      CatchUpIsDue(Update(s), now);
      assert Due(s.lastUpdate, now) == 1 + Due(s.lastUpdate + T_UPDATE, now);
    }
  }

  /** Catching up is confluent: stopping at an earlier time on the way changes nothing. */
  lemma {:induction false} CatchUpConfluent(s: State, t1: nat, t2: nat)
    requires t1 <= t2
    ensures CatchUp(CatchUp(s, t1), t2) == CatchUp(s, t2)
    decreases t1 - s.lastUpdate
  {
    hide NewProb;
    if t1 - s.lastUpdate > T_UPDATE {
      CatchUpConfluent(Update(s), t1, t2);
    }
  }

  // ---------------------------------------------------------------- when the moment matters

  /** Catching up at two times ends alike iff the same number of updates is due; so does an arrival. */
  lemma MomentMatters(s: State, t1: nat, t2: nat)
    ensures CatchUp(s, t1) == CatchUp(s, t2) <==> Due(s.lastUpdate, t1) == Due(s.lastUpdate, t2)
  {
    hide Updates, CatchUp;
    CatchUpIsDue(s, t1);
    CatchUpIsDue(s, t2);
  }

  lemma ArrivalMomentMatters(s: State, p: Packet, t1: nat, t2: nat, random: real)
    ensures Enqueue(s, p, t1, random) == Enqueue(s, p, t2, random) <==> Due(s.lastUpdate, t1) == Due(s.lastUpdate, t2)
  {
    hide CatchUp, DropEarly, Bytes, Due;
    MomentMatters(s, t1, t2);
    CatchUpIsDue(s, t1);
    CatchUpIsDue(s, t2);
  }

  /** The average rate after `n` bytes have been counted in `dtime` milliseconds: no time, no sample. */
  function RateAfter(s: State, n: nat, dtime: nat): nat {
    if dtime == 0 then s.avgRate else Average(s.avgRate, n / dtime)
  }

  /** Bytes counted with a packet of `size` bytes. */
  function Counted(s: State, size: nat): nat {
    (s.dqCount + size) % 0x1_0000_0000
  }

  /** The running meter comes to the bytes of a sample and then stops. */
  predicate StopsMeter(s: State, size: nat) {
    s.dqCount != DQ_COUNT_INVALID && Counted(s, size) > DQ_THRESHOLD && Bytes(s.pkts) < DQ_THRESHOLD
  }

  /** The rate meter cannot tell two 32-bit readings apart: it stays idle, or runs on without a sample,
      or stops and leaves the same average and burst allowance. */
  predicate MeterAgrees(s: State, size: nat, t1: nat, t2: nat) {
    || t1 == t2
    || (s.dqCount == DQ_COUNT_INVALID && Bytes(s.pkts) < DQ_THRESHOLD)
    || (s.dqCount != DQ_COUNT_INVALID && Counted(s, size) <= DQ_THRESHOLD)
    || (StopsMeter(s, size)
        && var n, d1, d2 := Counted(s, size), (t1 - s.dqTstamp) % 0x1_0000_0000, (t2 - s.dqTstamp) % 0x1_0000_0000;
           && RateAfter(s, n, d1) == RateAfter(s, n, d2)
           && Max0(s.burst - d1) == Max0(s.burst - d2)
           && (n == DQ_COUNT_INVALID || (d1 != 0 && d2 != 0)))
  }

  /** Measuring at two readings leaves the same state iff the meter agrees on them. Where it does not,
      and does not stop, it remembers the reading. */
  lemma MeterMomentMatters(s: State, size: nat, t1: nat, t2: nat)
    requires t1 < 0x1_0000_0000 && t2 < 0x1_0000_0000 && s.dqTstamp < 0x1_0000_0000
    ensures Measure(s, size, t1) == Measure(s, size, t2) <==> MeterAgrees(s, size, t1, t2)
    ensures !MeterAgrees(s, size, t1, t2) && !StopsMeter(s, size) ==>
              Measure(s, size, t1).dqTstamp != Measure(s, size, t2).dqTstamp
  {
    hide Measure, Sampled, Bytes, Average;
    if t1 != t2 {
      if s.dqCount == DQ_COUNT_INVALID {
        MeterIdle(s, size, t1);
        MeterIdle(s, size, t2);
      } else {
        MeterRunning(s, size, t1);
        MeterRunning(s, size, t2);
        var n := Counted(s, size);
        ApartMod(t1, t2, s.dqTstamp);
        if n > DQ_THRESHOLD {
          SampleMoment(s.(dqCount := n), (t1 - s.dqTstamp) % 0x1_0000_0000, (t2 - s.dqTstamp) % 0x1_0000_0000, t1, t2);
        }
      }
    }
  }

  /** An idle meter starts when enough bytes are queued. */
  lemma MeterIdle(s: State, size: nat, now: nat)
    requires s.dqCount == DQ_COUNT_INVALID
    ensures if Bytes(s.pkts) < DQ_THRESHOLD then Measure(s, size, now) == s
            else Measure(s, size, now).dqTstamp == now
  {
    hide Sample, Bytes;
  }

  lemma MeterRunning(s: State, size: nat, now: nat)
    requires s.dqCount != DQ_COUNT_INVALID
    ensures var n := Counted(s, size);
            Measure(s, size, now) ==
            if n <= DQ_THRESHOLD then s.(dqCount := n)
            else Sampled(s.(dqCount := n), (now - s.dqTstamp) % 0x1_0000_0000, now)
  {
    hide Sample, Bytes;
  }

  /** The rate meter in plain numbers, after a packet of `size` bytes has left at the 32-bit time `now`. Idle,
      it starts when at least 16384 bytes are queued. Running, it counts the packet; with more than 16384
      bytes counted and time gone by since its start it takes the bytes over the time as a sample, shortens
      the burst allowance by the time, and starts anew if at least 16384 bytes are queued, else stops. */
  lemma MeasureIs(s: State, size: nat, now: nat)
    requires now < 0x1_0000_0000 && s.dqTstamp <= now && size <= 16384
    requires s.dqCount == 0xFFFF_FFFF || s.dqCount + size < 0xFFFF_FFFF
    ensures var m := Measure(s, size, now);
            var n, time := s.dqCount + size, now - s.dqTstamp;
            if s.dqCount == 0xFFFF_FFFF then
              m == if Bytes(s.pkts) < 16384 then s else s.(dqCount := size, dqTstamp := now)
            else if n <= 16384 || time == 0 then m == s.(dqCount := n)
            else
              && m.avgRate == Average(s.avgRate, n / time)
              && m.burst == (if s.burst > time then s.burst - time else 0)
              && m.dqCount == (if Bytes(s.pkts) < 16384 then 0xFFFF_FFFF else 0)
              && m.dqTstamp == (if Bytes(s.pkts) < 16384 then s.dqTstamp else now)
              && m == s.(avgRate := m.avgRate, burst := m.burst, dqCount := m.dqCount, dqTstamp := m.dqTstamp)
  {
    hide Measure, Sample, Average, Bytes;
    if s.dqCount == DQ_COUNT_INVALID {
      MeterStarts(s, size, now);
    } else {
      MeterRunning(s, size, now);
      SmallModulo(s.dqCount + size, now - s.dqTstamp);
      if s.dqCount + size > DQ_THRESHOLD && now > s.dqTstamp {
        SampleIs(s.(dqCount := s.dqCount + size), now - s.dqTstamp, now);
      }
    }
  }

  lemma SmallModulo(a: nat, b: nat)
    requires a < 0x1_0000_0000 && b < 0x1_0000_0000
    ensures a % 0x1_0000_0000 == a && b % 0x1_0000_0000 == b
  {
  }

  lemma MeterStarts(s: State, size: nat, now: nat)
    requires s.dqCount == DQ_COUNT_INVALID && size <= 16384
    ensures Measure(s, size, now) == if Bytes(s.pkts) < 16384 then s else s.(dqCount := size, dqTstamp := now)
  {
    hide Sample, Bytes;
    SmallModulo(size, 0);
  }

  lemma SampleIs(s: State, time: nat, now: nat)
    requires time > 0
    ensures Sample(s, time, now) ==
            s.(avgRate := Average(s.avgRate, s.dqCount / time), burst := if s.burst > time then s.burst - time else 0,
               dqCount := if Bytes(s.pkts) < 16384 then 0xFFFF_FFFF else 0,
               dqTstamp := if Bytes(s.pkts) < 16384 then s.dqTstamp else now)
  {
    hide Average, Bytes;
  }

  lemma ApartMod(t1: nat, t2: nat, since: nat)
    requires t1 != t2 && t1 < 0x1_0000_0000 && t2 < 0x1_0000_0000 && since < 0x1_0000_0000
    ensures (t1 - since) % 0x1_0000_0000 != (t2 - since) % 0x1_0000_0000
    ensures (t1 - since) % 0x1_0000_0000 == 0 <==> t1 == since
    ensures (t2 - since) % 0x1_0000_0000 == 0 <==> t2 == since
  {
  }

  /** A reading that gives no time gives no sample. */
  function Sampled(s: State, dtime: nat, now: nat): State {
    if dtime == 0 then s else Sample(s, dtime, now)
  }

  lemma SampleMoment(s: State, d1: nat, d2: nat, t1: nat, t2: nat)
    requires t1 != t2 && (d1 == 0 <==> t1 == s.dqTstamp) && (d2 == 0 <==> t2 == s.dqTstamp)
    ensures Sampled(s, d1, t1) == Sampled(s, d2, t2) <==>
              && Bytes(s.pkts) < DQ_THRESHOLD
              && RateAfter(s, s.dqCount, d1) == RateAfter(s, s.dqCount, d2)
              && Max0(s.burst - d1) == Max0(s.burst - d2)
              && (s.dqCount == DQ_COUNT_INVALID || (d1 != 0 && d2 != 0))
    ensures Bytes(s.pkts) >= DQ_THRESHOLD ==> Sampled(s, d1, t1).dqTstamp != Sampled(s, d2, t2).dqTstamp
  {
    hide Bytes, Average;
  }

  /** A dequeue cannot tell two pairs of readings apart: the meter agrees on the first ones, and the same
      number of updates is due at the second ones. */
  predicate DequeueAgrees(s: State, m1: nat, n1: nat, m2: nat, n2: nat)
    requires s.pkts != []
  {
    && MeterAgrees(s.(pkts := s.pkts[1..]), |s.pkts[0].contents|, m1 % 0x1_0000_0000, m2 % 0x1_0000_0000)
    && Due(s.lastUpdate, n1) == Due(s.lastUpdate, n2)
  }

  /** Then it hands out the same packet and leaves the same state. The converse holds unless the meter
      stops and updates are due, which can wipe out what it measured. */
  lemma DequeueMomentMatters(s: State, m1: nat, n1: nat, m2: nat, n2: nat)
    requires s.pkts != [] && s.dqTstamp < 0x1_0000_0000
    ensures DequeueAgrees(s, m1, n1, m2, n2) ==> Dequeue(s, m1, n1) == Dequeue(s, m2, n2)
    ensures var rest, size := s.(pkts := s.pkts[1..]), |s.pkts[0].contents|;
            Due(s.lastUpdate, n1) == 0 || !StopsMeter(rest, size) ==>
              (Dequeue(s, m1, n1) == Dequeue(s, m2, n2) <==> DequeueAgrees(s, m1, n1, m2, n2))
  {
    hide CatchUp, Due, Measure, Updates, MeterAgrees, StopsMeter;
    var rest, size := s.(pkts := s.pkts[1..]), |s.pkts[0].contents|;
    var a, b := Measure(rest, size, m1 % 0x1_0000_0000), Measure(rest, size, m2 % 0x1_0000_0000);
    MeterMomentMatters(rest, size, m1 % 0x1_0000_0000, m2 % 0x1_0000_0000);
    MeasureKeepsUpdate(rest, size, m1 % 0x1_0000_0000);
    MeasureKeepsUpdate(rest, size, m2 % 0x1_0000_0000);
    CatchUpIsDue(a, n1);
    CatchUpIsDue(b, n2);
    CatchUpKeepsStamp(a, n1);
    CatchUpKeepsStamp(b, n2);
    NoUpdates(a);
    NoUpdates(b);
  }

  lemma NoUpdates(s: State)
    ensures Updates(s, 0) == s
  {
  }

  lemma MeasureKeepsUpdate(s: State, size: nat, now: nat)
    ensures Measure(s, size, now).lastUpdate == s.lastUpdate
  {
    hide Bytes, Average;
  }

  lemma {:induction false} CatchUpKeepsStamp(s: State, now: nat)
    ensures CatchUp(s, now).dqTstamp == s.dqTstamp
    decreases now - s.lastUpdate
  {
    hide NewProb, Bytes;
    if now - s.lastUpdate > T_UPDATE {
      CatchUpKeepsStamp(Update(s), now);
    }
  }

  /** In the case left, the converse can fail: a meter that stops as the queue runs empty tells two
      readings apart, and the update due resets the average that it left. */
  lemma UpdateCanHide(s: State, p: Packet)
    requires s == Start(Limits(0, 0), 20, 100, 380).(pkts := [p], dqCount := 15040) && |p.contents| == PACKET_SIZE
    ensures !DequeueAgrees(s, 400, 411, 410, 411)
    ensures Dequeue(s, 400, 411) == Dequeue(s, 410, 411)
  {
    var rest := s.(pkts := []);
    assert s.pkts[1..] == [];
    var a, b := Measure(rest, PACKET_SIZE, 400), Measure(rest, PACKET_SIZE, 410);
    assert a == rest.(dqCount := DQ_COUNT_INVALID, avgRate := 41);
    assert b == rest.(dqCount := DQ_COUNT_INVALID, avgRate := 40);
    assert Update(a) == Update(b);
    hide Update, Measure;
    OneUpdate(a, 411);
    OneUpdate(b, 411);
  }

  lemma OneUpdate(s: State, now: nat)
    requires T_UPDATE < now - s.lastUpdate <= 2 * T_UPDATE
    ensures CatchUp(s, now) == Update(s)
  {
    assert Update(s).lastUpdate == s.lastUpdate + T_UPDATE;
    hide Update;
  }

  // ---------------------------------------------------------------- early drops

  /** An arrival is queued iff one more packet is at most the packet limit and its bytes with those queued
      are at most the byte limit - and, at the caught-up state, the random number does not lie below a drop
      probability in force: no burst allowance left, at least two packets' bytes queued, and a delay or a
      probability that is not small. Hence never for a probability of 0. */
  lemma RefusedJust(s: State, p: Packet, now: nat, random: real)
    requires Bounded(s) && 0.0 <= random < 1.0
    ensures var t, r := CatchUp(s, now), Enqueue(s, p, now, random).pkts;
            && (r == s.pkts + [p] <==>
                  && (s.limits.packets == 0 || |s.pkts| + 1 <= s.limits.packets)
                  && (s.limits.bytes == 0 || Bytes(s.pkts) + |p.contents| <= s.limits.bytes)
                  && !(random < t.dropProb && t.burst == 0 && Bytes(s.pkts) >= 3008
                       && (t.dropProb >= 0.2 || t.qdelayOld >= s.qdelayRef / 2)))
            && (r == s.pkts + [p] || r == s.pkts)
  {
    hide CatchUp, Bytes, Bounded;
    CatchUpBounded(s, now);
    CatchUpParameters(s, now);
    assert |s.pkts + [p]| != |s.pkts|;
  }

  lemma {:induction false} CatchUpKeeps(s: State, now: nat)
    ensures CatchUp(s, now).limits == s.limits && CatchUp(s, now).pkts == s.pkts
    decreases now - s.lastUpdate
  {
    hide NewProb, Bytes;
    if now - s.lastUpdate > T_UPDATE {
      CatchUpKeeps(Update(s), now);
    }
  }

  lemma {:induction false} CatchUpParameters(s: State, now: nat)
    ensures CatchUp(s, now).qdelayRef == s.qdelayRef && CatchUp(s, now).maxBurst == s.maxBurst
    decreases now - s.lastUpdate
  {
    hide NewProb;
    if now - s.lastUpdate > T_UPDATE {
      CatchUpParameters(Update(s), now);
    }
  }

  /** A burst allowance protects arrivals until that many milliseconds of updates have passed:
      meanwhile only the limits refuse a packet, whatever the delay and the random numbers. Once an
      update is due this takes a maximum that is positive as a signed 32-bit number. */
  lemma BurstProtects(s: State, p: Packet, now: nat, random: real)
    requires Bounded(s) && s.burst > T_UPDATE * Due(s.lastUpdate, now)
    requires s.maxBurst < 0x8000_0000 || Due(s.lastUpdate, now) == 0
    ensures Enqueue(s, p, now, random).pkts ==
            if (s.limits.packets == 0 || |s.pkts| + 1 <= s.limits.packets)
               && (s.limits.bytes == 0 || Bytes(s.pkts) + |p.contents| <= s.limits.bytes)
            then s.pkts + [p] else s.pkts
  {
    hide CatchUp, Bytes, Bounded, Due, Updates;
    CatchUpBounded(s, now);
    if Due(s.lastUpdate, now) == 0 {
      CatchUpIsDue(s, now);
      NoUpdates(s);
    } else {
      BurstLasts(s, now);
    }
  }

  /** An allowance of 2^31 and more is gone with the next update, unless that begins a new one. */
  lemma HugeBurstVanishes(s: State)
    requires 0x8000_0000 <= s.burst < 0x1_0000_0000
    ensures Update(s).burst == if Resets(s) then s.maxBurst else 0
  {
    hide NewProb, Bytes;
  }

  lemma {:induction false} BurstLasts(s: State, now: nat)
    requires Bounded(s) && s.maxBurst < 0x8000_0000
    ensures CatchUp(s, now).burst >= s.burst - T_UPDATE * Due(s.lastUpdate, now)
    decreases now - s.lastUpdate
  {
    hide NewProb, Bytes, Resets;
    if now - s.lastUpdate > T_UPDATE {
      UpdateBounded(s);
      UpdateKeepsBurst(s);
      BurstLasts(Update(s), now);
      assert Due(s.lastUpdate, now) == 1 + Due(s.lastUpdate + T_UPDATE, now);
    }
  }

  lemma UpdateKeepsBurst(s: State)
    requires s.burst <= s.maxBurst < 0x8000_0000
    ensures Update(s).burst >= s.burst - T_UPDATE && Update(s).maxBurst == s.maxBurst
    ensures Update(s).lastUpdate == s.lastUpdate + T_UPDATE
  {
    hide NewProb, Bytes;
  }

  // ---------------------------------------------------------------- bounds on reachable states

  /** What holds in every reachable state. */
  ghost predicate Bounded(s: State) {
    && 0.0 <= s.dropProb <= 1.0
    && s.burst <= s.maxBurst
    && s.dqCount < 0x1_0000_0000 && s.dqTstamp < 0x1_0000_0000
    && Good(s.limits, s.pkts)
  }

  lemma UpdateBounded(s: State)
    requires Bounded(s)
    ensures Bounded(Update(s))
  {
    hide Adjustment, Bytes;
  }

  lemma {:induction false} CatchUpBounded(s: State, now: nat)
    requires Bounded(s)
    ensures Bounded(CatchUp(s, now)) && CatchUp(s, now).pkts == s.pkts
    ensures CatchUp(s, now).limits == s.limits
    decreases now - s.lastUpdate
  {
    hide NewProb, Bounded;
    if now - s.lastUpdate > T_UPDATE {
      UpdateBounded(s);
      CatchUpBounded(Update(s), now);
    }
  }

  lemma MeasureBounded(s: State, size: nat, now: nat)
    requires Bounded(s) && now < 0x1_0000_0000
    ensures Bounded(Measure(s, size, now)) && Measure(s, size, now).pkts == s.pkts
    ensures Measure(s, size, now).limits == s.limits
  {
    hide Average, Bytes;
  }

  lemma DequeueBounded(s: State, measured: nat, now: nat)
    requires s.pkts != [] && Bounded(s)
    ensures var (p, t) := Dequeue(s, measured, now); Bounded(t) && s.pkts == [p] + t.pkts && t.limits == s.limits
  {
    hide Measure, CatchUp;
    var rest := s.(pkts := s.pkts[1..]);
    GoodSuffix(s.limits, [s.pkts[0]], s.pkts[1..]);
    assert [s.pkts[0]] + s.pkts[1..] == s.pkts;
    MeasureBounded(rest, |s.pkts[0].contents|, measured % 0x1_0000_0000);
    CatchUpBounded(Measure(rest, |s.pkts[0].contents|, measured % 0x1_0000_0000), now);
  }

  lemma EnqueueBounded(s: State, p: Packet, now: nat, random: real)
    requires Bounded(s)
    ensures Bounded(Enqueue(s, p, now, random)) && Enqueue(s, p, now, random).limits == s.limits
    ensures Enqueue(s, p, now, random).pkts in {s.pkts, s.pkts + [p]}
  {
    hide CatchUp, DropEarly;
    CatchUpBounded(s, now);
    BytesSnoc(s.pkts, p);
  }

  // ---------------------------------------------------------------- the average rate

  /** The shifted average stays between the old average and the sample. */
  lemma AverageBetween(avg: nat, sample: nat)
    ensures avg != 0 ==> (avg <= Average(avg, sample) <= sample || sample <= Average(avg, sample) <= avg)
    ensures avg == 0 ==> Average(avg, sample) == sample
  {
  }

  /** The average is seven eighths of the old one and an eighth of the sample, to within a unit. */
  lemma AverageWeighs(avg: nat, sample: nat)
    requires avg > 0
    ensures 7 * avg + sample - 8 < 8 * Average(avg, sample) < 7 * avg + sample + 8
  {
  }

  /** `x` lies between the smallest and the largest sample. */
  ghost predicate Between(x: nat, samples: seq<nat>) {
    && (exists i :: 0 <= i < |samples| && samples[i] <= x)
    && (exists i :: 0 <= i < |samples| && x <= samples[i])
  }

  /** The average agrees with the samples since it was last reset. */
  ghost predicate Averaged(avg: nat, samples: seq<nat>) {
    if samples == [] then avg == 0 else Between(avg, samples)
  }

  lemma AverageBounded(avg: nat, sample: nat, samples: seq<nat>)
    requires Averaged(avg, samples)
    ensures Averaged(Average(avg, sample), samples + [sample])
  {
    hide Average;
    AverageBetween(avg, sample);
    var more := samples + [sample];
    assert more[|samples|] == sample;
    if samples != [] {
      var i :| 0 <= i < |samples| && samples[i] <= avg;
      var j :| 0 <= j < |samples| && avg <= samples[j];
      assert more[i] == samples[i] && more[j] == samples[j];
    }
  }

  /** The sample that measuring takes, if any. */
  function NewSamples(s: State, size: nat, now: nat): seq<nat> {
    if s.dqCount == DQ_COUNT_INVALID then []
    else
      var n, dtime := Counted(s, size), (now - s.dqTstamp) % 0x1_0000_0000;
      if n <= DQ_THRESHOLD || dtime == 0 then [] else [n / dtime]
  }

  /** The samples since the last reset, after catching up. */
  function SamplesKept(s: State, now: nat, samples: seq<nat>): seq<nat>
    decreases now - s.lastUpdate
  {
    if now - s.lastUpdate > T_UPDATE then SamplesKept(Update(s), now, if Resets(s) then [] else samples)
    else samples
  }

  lemma MeasureAveraged(s: State, size: nat, now: nat, samples: seq<nat>)
    requires Averaged(s.avgRate, samples)
    ensures Averaged(Measure(s, size, now).avgRate, samples + NewSamples(s, size, now))
  {
    hide Averaged, Measure, Average;
    assert samples + [] == samples;
    MeasuredRate(s, size, now);
    var n, dtime := Counted(s, size), (now - s.dqTstamp) % 0x1_0000_0000;
    if NewSamples(s, size, now) != [] {
      AverageBounded(s.avgRate, n / dtime, samples);
    }
  }

  lemma MeasuredRate(s: State, size: nat, now: nat)
    ensures Measure(s, size, now).avgRate ==
            var n, dtime := Counted(s, size), (now - s.dqTstamp) % 0x1_0000_0000;
            if s.dqCount == DQ_COUNT_INVALID || n <= DQ_THRESHOLD then s.avgRate else RateAfter(s, n, dtime)
  {
    hide Bytes, Average;
  }

  lemma {:induction false} CatchUpAveraged(s: State, now: nat, samples: seq<nat>)
    requires Averaged(s.avgRate, samples)
    ensures Averaged(CatchUp(s, now).avgRate, SamplesKept(s, now, samples))
    decreases now - s.lastUpdate
  {
    hide NewProb, Bytes, Resets;
    if now - s.lastUpdate > T_UPDATE {
      CatchUpAveraged(Update(s), now, if Resets(s) then [] else samples);
    }
  }

  datatype Event = Arrive(p: Packet, now: nat, random: real) | Ask(measured: nat, now: nat)

  /** One event, and the samples since the last reset: packets arrive and, while there are some, are
      asked for. */
  function Handle(s: State, samples: seq<nat>, e: Event): (State, seq<nat>) {
    match e
    case Arrive(p, now, random) => (Enqueue(s, p, now, random), SamplesKept(s, now, samples))
    case Ask(measured, now) =>
      if s.pkts == [] then (s, samples)
      else
        var rest, size, time := s.(pkts := s.pkts[1..]), |s.pkts[0].contents|, measured % 0x1_0000_0000;
        (Dequeue(s, measured, now).1,
         SamplesKept(Measure(rest, size, time), now, samples + NewSamples(rest, size, time)))
  }

  function Run(s: State, samples: seq<nat>, es: seq<Event>): (State, seq<nat>)
    decreases |es|
  {
    if es == [] then (s, samples)
    else
      var (t, more) := Handle(s, samples, es[0]);
      Run(t, more, es[1..])
  }

  lemma HandleBounded(s: State, samples: seq<nat>, e: Event)
    requires Bounded(s) && Averaged(s.avgRate, samples)
    ensures var (t, more) := Handle(s, samples, e); Bounded(t) && Averaged(t.avgRate, more)
  {
    hide Bounded, CatchUp, Measure, DropEarly, Bytes, Averaged, NewSamples, SamplesKept;
    match e
    case Arrive(p, now, random) =>
      EnqueueBounded(s, p, now, random);
      CatchUpAveraged(s, now, samples);
    case Ask(measured, now) =>
      if s.pkts != [] {
        DequeueBounded(s, measured, now);
        var rest, size, time := s.(pkts := s.pkts[1..]), |s.pkts[0].contents|, measured % 0x1_0000_0000;
        MeasureAveraged(rest, size, time, samples);
        CatchUpAveraged(Measure(rest, size, time), now, samples + NewSamples(rest, size, time));
      }
  }

  lemma {:induction false} RunBounded(s: State, samples: seq<nat>, es: seq<Event>)
    requires Bounded(s) && Averaged(s.avgRate, samples)
    ensures var (t, all) := Run(s, samples, es); Bounded(t) && Averaged(t.avgRate, all)
    decreases |es|
  {
    hide Bounded, Handle, Averaged;
    if es != [] {
      HandleBounded(s, samples, es[0]);
      var (t, more) := Handle(s, samples, es[0]);
      RunBounded(t, more, es[1..]);
    }
  }

  /** In every run from an empty queue the drop probability stays in [0, 1], the burst allowance
      within its maximum, and the average rate between the extreme samples since its last reset. */
  lemma EveryRunBounded(limits: Limits, qdelayRef: nat, maxBurst: nat, start: nat, es: seq<Event>)
    ensures var (t, samples) := Run(Start(limits, qdelayRef, maxBurst, start), [], es);
            Bounded(t) && Averaged(t.avgRate, samples)
  {
    StartBounded(limits, qdelayRef, maxBurst, start);
    RunBounded(Start(limits, qdelayRef, maxBurst, start), [], es);
  }

  lemma StartBounded(limits: Limits, qdelayRef: nat, maxBurst: nat, now: nat)
    ensures var s := Start(limits, qdelayRef, maxBurst, now); Bounded(s) && Averaged(s.avgRate, [])
  {
  }
}
