/** The cyclic schedule of delivery opportunities. */
module Schedule {
  import opened Text

  /** Trace, one time a line, and whether it is repeated. */
  datatype Config = Config(schedule: seq<nat>, repeat: bool)

  function Last(xs: seq<nat>): nat
    requires xs != []
  {
    xs[|xs| - 1]
  }

  /** What the constructor accepts. */
  ghost predicate ValidTrace(xs: seq<nat>) {
    && xs != [] && Last(xs) > 0
    && forall i, j :: 0 <= i < j < |xs| ==> xs[i] <= xs[j]
  }

  ghost predicate Valid(cfg: Config) {
    ValidTrace(cfg.schedule)
  }

  datatype Timer = Timer(next: nat, base: nat, finished: bool)

  predicate InRange(cfg: Config, t: Timer) {
    t.next < |cfg.schedule|
  }

  /** Time of the next opportunity; None when a trace that is not repeated is used up. */
  function NextTime(cfg: Config, t: Timer): Option<nat>
    requires InRange(cfg, t)
  {
    if t.finished then None else Some(cfg.schedule[t.next] + t.base)
  }

  /** Whether an opportunity is due at `now`. */
  predicate Due(cfg: Config, t: Timer, now: nat)
    requires InRange(cfg, t)
  {
    NextTime(cfg, t).Some? && NextTime(cfg, t).value <= now
  }

  function Use(cfg: Config, t: Timer): (r: Timer)
    requires InRange(cfg, t)
    ensures InRange(cfg, r)
  {
    var n := (t.next + 1) % |cfg.schedule|;
    if n != 0 then t.(next := n)
    else if cfg.repeat then Timer(0, t.base + Last(cfg.schedule), t.finished)
    else Timer(0, t.base, true)
  }

  function UseMany(cfg: Config, t: Timer, n: nat): (r: Timer)
    requires InRange(cfg, t)
    ensures InRange(cfg, r)
    decreases n
  {
    if n == 0 then t else UseMany(cfg, Use(cfg, t), n - 1)
  }

  lemma {:induction false} UseManyStep(cfg: Config, t: Timer, n: nat)
    requires InRange(cfg, t)
    ensures UseMany(cfg, t, n + 1) == Use(cfg, UseMany(cfg, t, n))
    decreases n
  {
    if n != 0 {
      UseManyStep(cfg, Use(cfg, t), n - 1);
    }
  }

  /** Using an opportunity never makes the next one earlier, and a finished trace stays finished. */
  lemma UseIsLater(cfg: Config, t: Timer)
    requires Valid(cfg) && InRange(cfg, t)
    ensures t.finished ==> Use(cfg, t).finished
    ensures var now, later := NextTime(cfg, t), NextTime(cfg, Use(cfg, t));
            now.Some? && later.Some? ==> now.value <= later.value
  {
  }

  lemma SmallMod(n: nat, len: nat)
    requires 0 < n <= len
    ensures n < len ==> n % len == n
    ensures n == len ==> n % len == 0
  {
  }

  /** After q whole rounds and r more opportunities of a repeated trace. */
  lemma {:induction false} AfterRounds(cfg: Config, base: nat, q: nat, r: nat, n: nat)
    requires Valid(cfg) && cfg.repeat && r < |cfg.schedule| && n == q * |cfg.schedule| + r
    ensures UseMany(cfg, Timer(0, base, false), n) == Timer(r, base + q * Last(cfg.schedule), false)
    decreases n
  {
    hide UseMany;
    var start, len := Timer(0, base, false), |cfg.schedule|;
    if n == 0 {
      NoRounds(q, len);
      assert UseMany(cfg, start, 0) == start by { UseNone(cfg, start); }
    } else {
      UseManyStep(cfg, start, n - 1);
      if r > 0 {
        AfterRounds(cfg, base, q, r - 1, n - 1);
        SmallMod(r, len);
      } else {
        OneRoundLess(q, len);
        OneRoundLess(q, Last(cfg.schedule));
        AfterRounds(cfg, base, q - 1, len - 1, n - 1);
        SmallMod(len, len);
      }
    }
  }

  lemma UseNone(cfg: Config, t: Timer)
    requires InRange(cfg, t)
    ensures UseMany(cfg, t, 0) == t
  {
  }

  lemma NoRounds(q: nat, len: nat)
    requires q * len == 0 && len > 0
    ensures q == 0
  {
  }

  lemma OneRoundLess(q: nat, len: nat)
    requires q * len > 0 || q > 0
    ensures q > 0 && (q - 1) * len + len == q * len
  {
  }

  /** A trace that is not repeated: each line is used at most once, in order. */
  lemma {:induction false} AfterLines(cfg: Config, base: nat, n: nat)
    requires Valid(cfg) && !cfg.repeat
    ensures var t := UseMany(cfg, Timer(0, base, false), n);
            if n < |cfg.schedule| then t == Timer(n, base, false) else t.finished
    decreases n
  {
    hide UseMany;
    var start := Timer(0, base, false);
    if n == 0 {
      UseNone(cfg, start);
    } else {
      UseManyStep(cfg, start, n - 1);
      AfterLines(cfg, base, n - 1);
      if n <= |cfg.schedule| {
        SmallMod(n, |cfg.schedule|);
      }
    }
  }

  /** Closed form: the time of the opportunity that follows the first n. */
  lemma ClosedForm(cfg: Config, base: nat, n: nat)
    requires Valid(cfg)
    ensures var len := |cfg.schedule|;
            NextTime(cfg, UseMany(cfg, Timer(0, base, false), n)) ==
            if cfg.repeat then Some(base + n / len * Last(cfg.schedule) + cfg.schedule[n % len])
            else if n < len then Some(base + cfg.schedule[n])
            else None
  {
    hide UseMany;
    if cfg.repeat {
      AfterRounds(cfg, base, n / |cfg.schedule|, n % |cfg.schedule|, n);
    } else {
      AfterLines(cfg, base, n);
    }
  }

  // ---------------------------------------------------------------- reading a trace

  /** A line as the constructor reads it; None where it throws. */
  function Time(line: string): Option<nat> {
    if line == "" then None
    else match Atoi(line, 10)
      case None => None
      case Some(ms) => Some(ms % 0x1_0000_0000_0000_0000)
  }

  /** A line is read iff it is a number - blanks, a sign and a numeral - that fits in 64 bits with its sign,
      and then as that number, cut to 64 bits. */
  lemma TimeLaw(line: string, n: Number)
    ensures Proper(n, 10) && Show(n) == line ==>
              Time(line) ==
              if -0x8000_0000_0000_0000 <= Signed(n, 10) < 0x8000_0000_0000_0000
              then Some(Signed(n, 10) % 0x1_0000_0000_0000_0000) else None
    ensures (forall m :: Proper(m, 10) ==> Show(m) != line) ==> Time(line) == None
  {
    hide Atoi, Signed, Show, Proper;
    if Proper(n, 10) && Show(n) == line {
      NumberReads(n, 10);
      ShowNonempty(n, 10);
    }
    if Atoi(line, 10).Some? {
      var m := OnlyNumbersRead(line, 10);
    }
  }

  /** The lines are the times of a valid trace. */
  ghost predicate Accepted(lines: seq<string>, trace: seq<nat>) {
    && |lines| == |trace| && (forall k :: 0 <= k < |lines| ==> Time(lines[k]) == Some(trace[k]))
    && ValidTrace(trace)
  }

  /** A file is accepted iff every line is a numeral and the times form a valid trace: a line that is
      empty, no numeral or out of order, and an empty or all-zero file, are refused. */
  method LoadTrace(lines: seq<string>) returns (trace: Option<seq<nat>>)
    ensures trace.Some? ==> Accepted(lines, trace.value)
    ensures trace.None? ==> forall xs :: !Accepted(lines, xs)
  {
    hide Time;
    var schedule: seq<nat> := [];
    for i := 0 to |lines|
      invariant |schedule| == i && forall k :: 0 <= k < i ==> Time(lines[k]) == Some(schedule[k])
      invariant forall a, b :: 0 <= a < b < i ==> schedule[a] <= schedule[b]
    {
      var time := Time(lines[i]);
      if time.None? {
        return None;
      }
      var ms := time.value;
      if schedule != [] {
        if ms < Last(schedule) {
          OutOfOrder(lines, schedule, i);
          return None;
        }
      }
      schedule := schedule + [ms];
    }
    if schedule == [] || Last(schedule) == 0 {
      AcceptedOnce(lines, schedule);
      return None;
    }
    return Some(schedule);
  }

  lemma OutOfOrder(lines: seq<string>, front: seq<nat>, i: nat)
    requires front != [] && |front| == i < |lines|
    requires forall k :: 0 <= k < i ==> Time(lines[k]) == Some(front[k])
    requires Time(lines[i]).Some? && Time(lines[i]).value < Last(front)
    ensures forall xs :: !Accepted(lines, xs)
  {
    hide Time;
    forall xs: seq<nat>
      ensures !Accepted(lines, xs)
    {
      if |lines| == |xs| && forall k :: 0 <= k < |lines| ==> Time(lines[k]) == Some(xs[k]) {
        assert Some(xs[i - 1]) == Time(lines[i - 1]) == Some(front[i - 1]);
        assert Some(xs[i]) == Time(lines[i]);
        assert xs[i - 1] > xs[i];
      }
    }
  }

  lemma AcceptedOnce(lines: seq<string>, times: seq<nat>)
    requires |lines| == |times| && forall k :: 0 <= k < |lines| ==> Time(lines[k]) == Some(times[k])
    ensures forall xs :: Accepted(lines, xs) ==> xs == times
  {
    hide Time, ValidTrace;
    forall xs | Accepted(lines, xs)
      ensures xs == times
    {
      assert forall k :: 0 <= k < |xs| ==> Some(xs[k]) == Time(lines[k]) == Some(times[k]);
    }
  }

  /** A trace written in decimal loads as itself, iff it is valid. */
  lemma DecimalTraceLoads(xs: seq<nat>, lines: seq<string>)
    requires |lines| == |xs|
    requires forall k :: 0 <= k < |xs| ==> xs[k] < 0x8000_0000_0000_0000 && lines[k] == Spell(Decimal(xs[k]))
    ensures Accepted(lines, xs) <==> ValidTrace(xs)
    ensures forall ys :: Accepted(lines, ys) ==> ys == xs
  {
    hide Time, ValidTrace, Spell, Decimal;
    forall k | 0 <= k < |lines|
      ensures Time(lines[k]) == Some(xs[k])
    {
      DecimalTime(xs[k]);
    }
    AcceptedOnce(lines, xs);
  }

  lemma DecimalTime(n: nat)
    requires n < 0x8000_0000_0000_0000
    ensures Time(Spell(Decimal(n))) == Some(n)
  {
    hide Atoi, Decimal;
    DecimalRoundTrip(n);
    assert Spell(Decimal(n)) != "";
  }
}
