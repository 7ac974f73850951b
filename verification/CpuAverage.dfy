/** The CPU load average of a node (node/internal/status/collector.go): an exponential moving
    average over deltas of 64-bit counters whose sums may wrap. Reals stand for float64. */
module CpuAverage {
  import opened Prelude

  const TWO64: int := 0x1_0000_0000_0000_0000

  type U64 = x: int | 0 <= x < 0x1_0000_0000_0000_0000 witness 0

  /** An integer as uint64 arithmetic yields it: reduced modulo 2^64. */
  function Wrap(x: int): U64
    decreases x < 0, if x < 0 then -x else x
  {
    if x < 0 then Wrap(x + TWO64)
    else if x >= TWO64 then Wrap(x - TWO64)
    else x
  }

  datatype CpuSample = CpuSample(user: U64, nice: U64, system: U64, idle: U64,
                                 iowait: U64, irq: U64, softirq: U64, steal: U64)
  {
    /** The mathematical sums, which may exceed 64 bits. */
    function TrueBusy(): int {
      user + nice + system + irq + softirq + steal
    }

    function TrueIdle(): int {
      idle + iowait
    }

    function Total(): U64 {
      Wrap(TrueBusy() + TrueIdle())
    }

    function Busy(): U64 {
      Wrap(TrueBusy())
    }
  }

  /** uint64 subtraction. */
  function Minus(a: U64, b: U64): U64 {
    Wrap(a - b)
  }

  const EMA_ALPHA := 0.3

  datatype State = State(prev: Option<CpuSample>, ema: real)

  /** Go's math.Round: half away from zero. */
  function Round(x: real): real {
    if x >= 0.0 then (x + 0.5).Floor as real else -((-x + 0.5).Floor as real)
  }

  function Percentage(dBusy: U64, dTotal: U64): real
    requires dTotal != 0
  {
    dBusy as real / dTotal as real * 100.0
  }

  function RawPercent(prev: CpuSample, cur: CpuSample): real
    requires Minus(cur.Total(), prev.Total()) != 0
  {
    Percentage(Minus(cur.Busy(), prev.Busy()), Minus(cur.Total(), prev.Total()))
  }

  /** The counters moved, so this reading contributes to the average. */
  predicate Counts(prev: Option<CpuSample>, reading: Option<CpuSample>) {
    prev.Some? && reading.Some? && Minus(reading.value.Total(), prev.value.Total()) != 0
  }

  function Blend(raw: real, ema: real): real {
    EMA_ALPHA * raw + (1.0 - EMA_ALPHA) * ema
  }

  /** State after one reading; a failed reading is None. */
  function Next(st: State, reading: Option<CpuSample>): State {
    State(if reading.Some? then reading else st.prev,
          if Counts(st.prev, reading) then Blend(RawPercent(st.prev.value, reading.value), st.ema) else st.ema)
  }

  /** The value reported for one reading: zero for the first, the unrounded average when nothing
      new was learnt, the average rounded to two digits otherwise. */
  function Reported(st: State, reading: Option<CpuSample>): real {
    if reading.None? then st.ema
    else if st.prev.None? then 0.0
    else if Counts(st.prev, reading) then Round(Next(st, reading).ema * 100.0) / 100.0
    else st.ema
  }

  class Sampler {
    var prevCPU: CpuSample
    var prevCPUSet: bool
    var cpuEMA: real

    ghost function Abstract(): State
      reads this
    {
      State(if prevCPUSet then Some(prevCPU) else None, cpuEMA)
    }

    constructor ()
      ensures Abstract() == State(None, 0.0)
    {
      prevCPU := CpuSample(0, 0, 0, 0, 0, 0, 0, 0);
      prevCPUSet := false;
      cpuEMA := 0.0;
    }

    method SampleCPU(reading: Option<CpuSample>) returns (percent: real)
      modifies this
      ensures Abstract() == Next(old(Abstract()), reading)
      ensures percent == Reported(old(Abstract()), reading)
    {
      if reading.None? {
        return cpuEMA;
      }
      var cur := reading.value;
      if !prevCPUSet {
        prevCPU := cur;
        prevCPUSet := true;
        return 0.0;
      }
      var dTotal := Minus(cur.Total(), prevCPU.Total());
      var dBusy := Minus(cur.Busy(), prevCPU.Busy());
      prevCPU := cur;
      if dTotal == 0 {
        return cpuEMA;
      }
      cpuEMA := Blend(Percentage(dBusy, dTotal), cpuEMA);
      return Round(cpuEMA * 100.0) / 100.0;
    }
  }

  // ---------- one step ----------

  /** No counter went back and the machine did less than 2^64 ticks in between. */
  predicate Advances(prev: CpuSample, cur: CpuSample) {
    && prev.user <= cur.user && prev.nice <= cur.nice && prev.system <= cur.system && prev.idle <= cur.idle
    && prev.iowait <= cur.iowait && prev.irq <= cur.irq && prev.softirq <= cur.softirq && prev.steal <= cur.steal
    && Ticks(prev, cur) < TWO64
  }

  lemma {:induction false} WrapLeft(a: int, b: int)
    ensures Wrap(Wrap(a) - b) == Wrap(a - b)
    decreases a < 0, if a < 0 then -a else a
  {
    if a < 0 {
      WrapLeft(a + TWO64, b);
      WrapPeriod(a - b);
    } else if a >= TWO64 {
      WrapLeft(a - TWO64, b);
      WrapPeriod(a - b - TWO64);
    }
  }

  lemma {:induction false} WrapRight(a: int, b: int)
    ensures Wrap(a - Wrap(b)) == Wrap(a - b)
    decreases b < 0, if b < 0 then -b else b
  {
    if b < 0 {
      WrapRight(a, b + TWO64);
      WrapPeriod(a - b - TWO64);
    } else if b >= TWO64 {
      WrapRight(a, b - TWO64);
      WrapPeriod(a - b);
    }
  }

  lemma WrapPeriod(x: int)
    ensures Wrap(x + TWO64) == Wrap(x)
  {
  }

  lemma WrapDelta(a: int, b: int)
    requires 0 <= a - b < TWO64
    ensures Minus(Wrap(a), Wrap(b)) == a - b
  {
    MinusWrapped(a, b);
  }

  /** The true tick count between two samples. */
  function Ticks(prev: CpuSample, cur: CpuSample): int {
    cur.TrueBusy() - prev.TrueBusy() + cur.TrueIdle() - prev.TrueIdle()
  }

  /** Wrapped sums lose nothing: as long as the true differences fit 64 bits, the wrapped
      differences are the true ones. */
  lemma WrappedDeltas(prev: CpuSample, cur: CpuSample)
    requires 0 <= cur.TrueBusy() - prev.TrueBusy() < TWO64 && 0 <= Ticks(prev, cur) < TWO64
    ensures Minus(cur.Busy(), prev.Busy()) == cur.TrueBusy() - prev.TrueBusy()
    ensures Minus(cur.Total(), prev.Total()) == Ticks(prev, cur)
  {
    var b, b' := prev.TrueBusy(), cur.TrueBusy();
    var t, t' := prev.TrueBusy() + prev.TrueIdle(), cur.TrueBusy() + cur.TrueIdle();
    WrapDelta(b', b);
    WrapDelta(t', t);
  }

  lemma RatioBound(b: real, t: real)
    requires 0.0 <= b && 0.0 < t
    ensures 0.0 <= b / t * 100.0
    ensures b / t * 100.0 <= 100.0 <==> b <= t
  {
    var r := b / t;
    assert r * t == b;
    if r > 1.0 {
      assert (r - 1.0) * t > 0.0;
    } else {
      assert (1.0 - r) * t >= 0.0;
    }
  }

  lemma RawInRange(prev: CpuSample, cur: CpuSample)
    requires Advances(prev, cur) && Minus(cur.Total(), prev.Total()) != 0
    ensures 0.0 <= RawPercent(prev, cur) <= 100.0
  {
    WrappedDeltas(prev, cur);
    RatioBound(Minus(cur.Busy(), prev.Busy()) as real, Minus(cur.Total(), prev.Total()) as real);
  }

  /** How often x goes round 2^64, counting down for negative x. */
  function Turns(x: int): int
    decreases x < 0, if x < 0 then -x else x
  {
    if x < 0 then Turns(x + TWO64) - 1
    else if x >= TWO64 then Turns(x - TWO64) + 1
    else 0
  }

  lemma {:induction false} WrapByTurns(x: int)
    ensures Wrap(x) == x - Turns(x) * TWO64
    decreases x < 0, if x < 0 then -x else x
  {
    if x < 0 {
      WrapByTurns(x + TWO64);
    } else if x >= TWO64 {
      WrapByTurns(x - TWO64);
    }
  }

  lemma SmallTurns(x: int)
    requires -TWO64 < x < TWO64
    ensures Turns(x) == if x < 0 then -1 else 0
  {
  }

  lemma MinusWrapped(a: int, b: int)
    ensures Minus(Wrap(a), Wrap(b)) == Wrap(a - b)
  {
    WrapLeft(a, Wrap(b));
    WrapRight(a, b);
  }

  /** Ticks spent busy and idle between two samples, negative when counters went back. */
  function BusyDelta(prev: CpuSample, cur: CpuSample): int {
    cur.TrueBusy() - prev.TrueBusy()
  }

  function IdleDelta(prev: CpuSample, cur: CpuSample): int {
    cur.TrueIdle() - prev.TrueIdle()
  }

  lemma DeltasAreWrapped(prev: CpuSample, cur: CpuSample)
    ensures Minus(cur.Busy(), prev.Busy()) == Wrap(BusyDelta(prev, cur))
    ensures Minus(cur.Total(), prev.Total()) == Wrap(Ticks(prev, cur))
  {
    var b, b' := prev.TrueBusy(), cur.TrueBusy();
    var t, t' := prev.TrueBusy() + prev.TrueIdle(), cur.TrueBusy() + cur.TrueIdle();
    MinusWrapped(b', b);
    MinusWrapped(t', t);
  }

  /** For all pairs of samples that count, whatever their counters did: the percentage is at most 100 if
      and only if the idle ticks make up for the turns the total made more often than the busy sum. */
  lemma RawInRangeIff(prev: CpuSample, cur: CpuSample)
    requires Minus(cur.Total(), prev.Total()) != 0
    ensures 0.0 <= RawPercent(prev, cur)
    ensures RawPercent(prev, cur) <= 100.0
       <==> IdleDelta(prev, cur) >= (Turns(Ticks(prev, cur)) - Turns(BusyDelta(prev, cur))) * TWO64
  {
    var b, t := BusyDelta(prev, cur), Ticks(prev, cur);
    DeltasAreWrapped(prev, cur);
    WrapByTurns(b);
    WrapByTurns(t);
    RatioBound(Wrap(b) as real, Wrap(t) as real);
  }

  /** The same for differences below 2^64, by direction. While busy sum and total move the same way, the
      percentage is at most 100 if and only if the idle sum did not go back. When only the total goes back,
      the total wraps and the percentage stays at most 100 unless the busy sum exceeds what is left. When
      only the busy sum goes back, it wraps and the percentage exceeds 100 unless the idle ticks reach 2^64. */
  lemma RawInRangeByDirection(prev: CpuSample, cur: CpuSample)
    requires Minus(cur.Total(), prev.Total()) != 0
    requires -TWO64 < BusyDelta(prev, cur) < TWO64 && -TWO64 < Ticks(prev, cur) < TWO64
    ensures var busy, ticks, idle := BusyDelta(prev, cur), Ticks(prev, cur), IdleDelta(prev, cur);
            RawPercent(prev, cur) <= 100.0
            <==> (if (busy < 0) == (ticks < 0) then idle >= 0
                  else if ticks < 0 then busy <= TWO64 + ticks
                  else idle >= TWO64)
  {
    RawInRangeIff(prev, cur);
    SmallTurns(BusyDelta(prev, cur));
    SmallTurns(Ticks(prev, cur));
  }

  /** One tick of idle time taken back while two busy ticks pass reads as 200 percent. */
  lemma IdleGoingBackOvershoots()
    ensures var prev, cur := CpuSample(0, 0, 0, 10, 0, 0, 0, 0), CpuSample(2, 0, 0, 9, 0, 0, 0, 0);
            Minus(cur.Total(), prev.Total()) != 0 && RawPercent(prev, cur) == 200.0
  {
    var prev, cur := CpuSample(0, 0, 0, 10, 0, 0, 0, 0), CpuSample(2, 0, 0, 9, 0, 0, 0, 0);
    WrappedDeltas(prev, cur);
    var dBusy, dTotal := Minus(cur.Busy(), prev.Busy()), Minus(cur.Total(), prev.Total());
    assert dBusy == 2 && dTotal == 1;
    assert Percentage(2, 1) == 200.0;
  }

  /** Ten ticks of idle time taken back hide behind the wrapped total, one busy tick taken back shows. */
  lemma WrapHidesIdleAndShowsBusy()
    ensures var prev, cur := CpuSample(0, 0, 0, 10, 0, 0, 0, 0), CpuSample(1, 0, 0, 0, 0, 0, 0, 0);
            Minus(cur.Total(), prev.Total()) != 0 && RawPercent(prev, cur) <= 100.0
    ensures var prev, cur := CpuSample(1, 0, 0, 0, 0, 0, 0, 0), CpuSample(0, 0, 0, 10, 0, 0, 0, 0);
            Minus(cur.Total(), prev.Total()) != 0 && RawPercent(prev, cur) > 100.0
  {
    var a, b := CpuSample(0, 0, 0, 10, 0, 0, 0, 0), CpuSample(1, 0, 0, 0, 0, 0, 0, 0);
    DeltasAreWrapped(a, b);
    RawInRangeByDirection(a, b);
    var c, d := CpuSample(1, 0, 0, 0, 0, 0, 0, 0), CpuSample(0, 0, 0, 10, 0, 0, 0, 0);
    DeltasAreWrapped(c, d);
    RawInRangeByDirection(c, d);
  }

  // ---------- one step in the counters themselves ----------

  /** What the fields of a sample mean: six of the eight counters are busy time. */
  lemma RawFromCounters(prev: CpuSample, cur: CpuSample)
    requires Advances(prev, cur) && Minus(cur.Total(), prev.Total()) != 0
    ensures var busy := (cur.user - prev.user) + (cur.nice - prev.nice) + (cur.system - prev.system)
                        + (cur.irq - prev.irq) + (cur.softirq - prev.softirq) + (cur.steal - prev.steal);
            var all := busy + (cur.idle - prev.idle) + (cur.iowait - prev.iowait);
            all > 0 && RawPercent(prev, cur) == busy as real / all as real * 100.0
  {
    WrappedDeltas(prev, cur);
  }

  /** Waiting for the disk is idle time, kernel and interrupt time is not. */
  lemma WaitingIsIdle(prev: CpuSample, idle: U64, iowait: U64)
    requires prev.idle <= idle && prev.iowait <= iowait && 0 < idle - prev.idle + iowait - prev.iowait < TWO64
    ensures var cur := prev.(idle := idle, iowait := iowait);
            Minus(cur.Total(), prev.Total()) != 0 && RawPercent(prev, cur) == 0.0
  {
    var cur := prev.(idle := idle, iowait := iowait);
    WrappedDeltas(prev, cur);
  }

  lemma WorkIsBusy(prev: CpuSample, cur: CpuSample)
    requires Advances(prev, cur) && cur.idle == prev.idle && cur.iowait == prev.iowait
    requires cur.user + cur.nice + cur.system + cur.irq + cur.softirq + cur.steal
             > prev.user + prev.nice + prev.system + prev.irq + prev.softirq + prev.steal
    ensures Minus(cur.Total(), prev.Total()) != 0 && RawPercent(prev, cur) == 100.0
  {
    WrappedDeltas(prev, cur);
    AllOfIt(Minus(cur.Total(), prev.Total()));
  }

  lemma AllOfIt(d: U64)
    requires d != 0
    ensures Percentage(d, d) == 100.0
  {
    var x := d as real;
    assert x / x == 1.0;
  }

  /** Every reading of a machine whose counters advance moves the average by three tenths towards the raw
      percentage, and becomes the sample the next one is compared with. */
  lemma ReadingMovesAverage(prev: CpuSample, cur: CpuSample, ema: real)
    requires Advances(prev, cur) && Ticks(prev, cur) > 0
    ensures Minus(cur.Total(), prev.Total()) != 0
    ensures Next(State(Some(prev), ema), Some(cur)) == State(Some(cur), 0.3 * RawPercent(prev, cur) + 0.7 * ema)
  {
    WrappedDeltas(prev, cur);
  }

  /** The first reading is only remembered, a failed one changes nothing, and one without ticks only replaces
      the sample. */
  lemma ReadingsWithoutEffect(st: State, cur: CpuSample)
    ensures Next(st, None) == st && Reported(st, None) == st.ema
    ensures st.prev == None ==> Next(st, Some(cur)) == State(Some(cur), st.ema) && Reported(st, Some(cur)) == 0.0
    ensures st.prev.Some? && Minus(cur.Total(), st.prev.value.Total()) == 0 ==>
              Next(st, Some(cur)) == State(Some(cur), st.ema) && Reported(st, Some(cur)) == st.ema
  {
  }

  // ---------- whole runs ----------

  function Run(st: State, readings: seq<Option<CpuSample>>): State
    decreases |readings|
  {
    if readings == [] then st else Run(Next(st, readings[0]), readings[1..])
  }

  /** The raw percentages that entered the average, in order. */
  function Raws(prev: Option<CpuSample>, readings: seq<Option<CpuSample>>): seq<real>
    decreases |readings|
  {
    if readings == [] then []
    else
      var reading := readings[0];
      (if Counts(prev, reading) then [RawPercent(prev.value, reading.value)] else []) +
      Raws(if reading.Some? then reading else prev, readings[1..])
  }

  predicate AllAdvance(prev: Option<CpuSample>, readings: seq<Option<CpuSample>>)
    decreases |readings|
  {
    if readings == [] then true
    else
      var reading := readings[0];
      && (prev.Some? && reading.Some? ==> Advances(prev.value, reading.value))
      && AllAdvance(if reading.Some? then reading else prev, readings[1..])
  }

  function Pow(b: real, k: nat): real {
    if k == 0 then 1.0 else b * Pow(b, k - 1)
  }

  /** x after k readings: 0.7^k * x. */
  function Decay(x: real, k: nat): real {
    if k == 0 then x else (1.0 - EMA_ALPHA) * Decay(x, k - 1)
  }

  lemma {:induction false} DecayIsPower(x: real, k: nat)
    ensures Decay(x, k) == Pow(1.0 - EMA_ALPHA, k) * x
  {
    if k > 0 {
      DecayIsPower(x, k - 1);
    }
  }

  lemma {:induction false} DecaySum(x: real, y: real, k: nat)
    ensures Decay(x + y, k) == Decay(x, k) + Decay(y, k)
  {
    if k > 0 {
      DecaySum(x, y, k - 1);
    }
  }

  lemma {:induction false} DecayLater(x: real, k: nat)
    ensures Decay((1.0 - EMA_ALPHA) * x, k) == Decay(x, k + 1)
  {
    if k > 0 {
      DecayLater(x, k - 1);
    }
  }

  /** The closed form of the average of raws, oldest first, without the initial term: every raw
      percentage weighs 0.3 * 0.7^j, j counting the readings after it. */
  function Weighted(raws: seq<real>): real {
    if raws == [] then 0.0
    else Decay(EMA_ALPHA * raws[0], |raws| - 1) + Weighted(raws[1..])
  }

  predicate Percent(x: real) {
    0.0 <= x <= 100.0
  }

  lemma RoundedPercent(x: real)
    requires Percent(x)
    ensures Percent(Round(x * 100.0) / 100.0)
    ensures -0.005 <= Round(x * 100.0) / 100.0 - x <= 0.005
  {
    var y := x * 100.0;
    assert 0.0 <= y <= 10000.0;
    assert (y + 0.5).Floor <= 10000;
  }

  /** Everything reported along a run, each value with the average it was taken from. */
  function Reports(st: State, readings: seq<Option<CpuSample>>): seq<(real, real)>
    decreases |readings|
  {
    if readings == [] then []
    else
      var next := Next(st, readings[0]);
      (if st.prev.None? && readings[0].Some? then [] else [(Reported(st, readings[0]), next.ema)]) +
      Reports(next, readings[1..])
  }

  ghost predicate Faithful(report: (real, real)) {
    Percent(report.0) && Percent(report.1) && -0.005 <= report.0 - report.1 <= 0.005
  }

  lemma StepStaysPercent(st: State, reading: Option<CpuSample>)
    requires Percent(st.ema)
    requires st.prev.Some? && reading.Some? ==> Advances(st.prev.value, reading.value)
    ensures Percent(Next(st, reading).ema)
    ensures Counts(st.prev, reading) ==> Percent(RawPercent(st.prev.value, reading.value))
    ensures st.prev.Some? || reading.None? ==> Faithful((Reported(st, reading), Next(st, reading).ema))
  {
    if Counts(st.prev, reading) {
      RawInRange(st.prev.value, reading.value);
      RoundedPercent(Next(st, reading).ema);
    }
  }

  /** Over every run whose counters advance, however often the sums wrap, the average and each raw
      percentage stay percentages, and so does every report, which after the first reading (reported
      as zero) is within half a hundredth of the average. */
  lemma {:induction false} RunStaysPercent(st: State, readings: seq<Option<CpuSample>>)
    requires Percent(st.ema) && AllAdvance(st.prev, readings)
    ensures Percent(Run(st, readings).ema)
    ensures forall r | r in Raws(st.prev, readings) :: Percent(r)
    ensures forall r | r in Reports(st, readings) :: Faithful(r)
    decreases |readings|
  {
    if readings != [] {
      StepStaysPercent(st, readings[0]);
      RunStaysPercent(Next(st, readings[0]), readings[1..]);
    }
  }

  /** The recurrence on the raw percentages alone. */
  function Fold(raws: seq<real>, ema: real): real
    decreases |raws|
  {
    if raws == [] then ema else Fold(raws[1..], Blend(raws[0], ema))
  }

  lemma {:induction false} RunIsFold(st: State, readings: seq<Option<CpuSample>>)
    ensures Run(st, readings).ema == Fold(Raws(st.prev, readings), st.ema)
    decreases |readings|
  {
    if readings != [] {
      var next := Next(st, readings[0]);
      RunIsFold(next, readings[1..]);
      var rest := Raws(next.prev, readings[1..]);
      if Counts(st.prev, readings[0]) {
        var raw := RawPercent(st.prev.value, readings[0].value);
        FoldCons(raw, rest, st.ema);
      } else {
        assert Raws(st.prev, readings) == rest;
      }
    }
  }

  lemma FoldCons(raw: real, rest: seq<real>, ema: real)
    ensures Fold([raw] + rest, ema) == Fold(rest, Blend(raw, ema))
  {
    assert ([raw] + rest)[1..] == rest;
  }

  lemma {:induction false} FoldClosedForm(raws: seq<real>, ema: real)
    ensures Fold(raws, ema) == Decay(ema, |raws|) + Weighted(raws)
    decreases |raws|
  {
    if raws != [] {
      FoldClosedForm(raws[1..], Blend(raws[0], ema));
      DecaySum(EMA_ALPHA * raws[0], (1.0 - EMA_ALPHA) * ema, |raws| - 1);
      DecayLater(ema, |raws| - 1);
    }
  }

  /** The weight of the j-th reading from the end, in numbers. */
  lemma WeightsInNumbers(x: real, j: nat)
    ensures Decay(EMA_ALPHA * x, j) == 0.3 * x * Pow(0.7, j)
  {
    DecayIsPower(EMA_ALPHA * x, j);
    assert Pow(0.7, j) * (0.3 * x) == 0.3 * x * Pow(0.7, j);
  }

  /** The average equals its closed form: geometric weights on the raw percentages and 0.7^k on
      the average it started from. */
  lemma RunClosedForm(st: State, readings: seq<Option<CpuSample>>)
    ensures Run(st, readings).ema
         == Decay(st.ema, |Raws(st.prev, readings)|) + Weighted(Raws(st.prev, readings))
  {
    RunIsFold(st, readings);
    FoldClosedForm(Raws(st.prev, readings), st.ema);
  }

  lemma FoldsConverge(raws: seq<real>, ema: real, ema': real)
    ensures Fold(raws, ema) - Fold(raws, ema') == Decay(ema - ema', |raws|)
  {
    FoldClosedForm(raws, ema);
    FoldClosedForm(raws, ema');
    DecaySum(ema - ema', ema', |raws|);
  }

  /** Two runs over the same readings from different averages approach each other by exactly 0.7
      with every reading that counts. */
  lemma RunsConverge(st: State, st': State, readings: seq<Option<CpuSample>>, raws: seq<real>)
    requires st.prev == st'.prev && raws == Raws(st.prev, readings)
    ensures Run(st, readings).ema - Run(st', readings).ema == Decay(st.ema - st'.ema, |raws|)
  {
    FoldsConverge(raws, st.ema, st'.ema);
    RunIsFold(st, readings);
    RunIsFold(st', readings);
  }
}
