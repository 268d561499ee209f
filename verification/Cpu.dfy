/** CPU usage from two readings of the kernel's counters, with the wrap-around of their 64-bit arithmetic.

  Readings are keyed by parsed names; the floating-point conversions are idealised to real numbers.
*/
module Cpu {
  import opened Common
  import Ema

  const WORD: nat := 0x1_0000_0000_0000_0000

  type uint64 = n: nat | n < 0x1_0000_0000_0000_0000

  datatype Stat = Stat(user: uint64, nice: uint64, system: uint64, idle: uint64,
                       iowait: uint64, irq: uint64, softirq: uint64, steal: uint64)

  datatype Name = Total | Core(n: nat)

  type Reading = map<Name, Stat>

  /** The true sum; the machine's is its remainder. */
  function TrueSum(s: Stat): nat {
    s.user + s.nice + s.system + s.idle + s.iowait + s.irq + s.softirq + s.steal
  }

  function SumCPU(s: Stat): uint64 {
    TrueSum(s) % WORD
  }

  function SumIdle(s: Stat): uint64 {
    (s.idle + s.iowait) % WORD
  }

  function Minus(a: uint64, b: uint64): uint64 {
    (a - b) % WORD
  }

  function DeltaTotal(prev: Stat, curr: Stat): uint64 {
    Minus(SumCPU(curr), SumCPU(prev))
  }

  function DeltaIdle(prev: Stat, curr: Stat): uint64 {
    Minus(SumIdle(curr), SumIdle(prev))
  }

  function Usage(total: uint64, idle: uint64): real
    requires total > 0
  {
    (total as real - idle as real) / total as real * 100.0
  }

  /** The usage between two readings of the same counters; none where no time passed. */
  function Between(prev: Stat, curr: Stat): real {
    if DeltaTotal(prev, curr) > 0 then Usage(DeltaTotal(prev, curr), DeltaIdle(prev, curr)) else 0.0
  }

  /** The usage that two readings give one name. */
  function Raw(last: Reading, curr: Reading, name: Name): real {
    if name in last && name in curr then Between(last[name], curr[name]) else 0.0
  }

  ghost predicate HasCores(curr: Reading, count: nat) {
    && (forall n: nat :: Core(n) in curr ==> n < count)
    && (count > 0 ==> Core(count - 1) in curr)
  }

  class CPUUsageState {
    var last: Option<Reading>

    constructor ()
      ensures last == None
    {
      last := None;
    }

    /** The first reading, and any without cores, give nothing; only the latter is also forgotten. */
    method Calculate(curr: Reading) returns (coreAvg: real, perCore: seq<real>)
      modifies this
      ensures old(last) == None ==> coreAvg == 0.0 && perCore == [] && last == Some(curr)
      ensures old(last).Some? && HasCores(curr, 0) ==> coreAvg == 0.0 && perCore == [] && last == old(last)
      ensures old(last).Some? && !HasCores(curr, 0) ==>
                && coreAvg == Raw(old(last).value, curr, Total)
                && HasCores(curr, |perCore|)
                && (forall n: nat :: n < |perCore| ==> perCore[n] == Raw(old(last).value, curr, Core(n)))
                && (Total !in curr || Total !in old(last).value ==> coreAvg == 0.0)
                && (forall n: nat :: n < |perCore| && (Core(n) !in curr || Core(n) !in old(last).value) ==>
                      perCore[n] == 0.0)
                && last == Some(curr)
    {
      if last.None? {
        last := Some(curr);
        return 0.0, [];
      }
      var count := CountCores(curr);
      if count == 0 {
        return 0.0, [];
      }
      var cores := FillCores(last.value, curr, count);
      coreAvg := 0.0;
      if Total in curr && Total in last.value {
        coreAvg := Between(last.value[Total], curr[Total]);
      }
      last := Some(curr);
      return coreAvg, cores[..];
    }
  }

  /** One more than the largest core index. */
  method CountCores(curr: Reading) returns (count: nat)
    ensures HasCores(curr, count)
  {
    count := 0;
    var pending := curr.Keys;
    while pending != {}
      invariant pending <= curr.Keys
      invariant forall n: nat :: Core(n) in curr && Core(n) !in pending ==> n < count
      invariant count > 0 ==> Core(count - 1) in curr
      decreases |pending|
    {
      var name :| name in pending;
      pending := pending - {name};
      if name.Core? && name.n >= count {
        count := name.n + 1;
      }
    }
  }

  method FillCores(last: Reading, curr: Reading, count: nat) returns (perCore: array<real>)
    requires HasCores(curr, count)
    ensures fresh(perCore) && perCore.Length == count
    ensures forall n: nat :: n < count ==> perCore[n] == Raw(last, curr, Core(n))
  {
    perCore := new real[count](_ => 0.0);
    var pending := curr.Keys;
    while pending != {}
      invariant pending <= curr.Keys
      invariant forall n: nat :: n < count ==>
                  perCore[n] == if Core(n) in pending then 0.0 else Raw(last, curr, Core(n))
      decreases |pending|
    {
      var name :| name in pending;
      pending := pending - {name};
      if name.Core? && name in last {
        perCore[name.n] := Between(last[name], curr[name]);
      }
    }
  }

  // ---------------------------------------------------------------- when the result is a percentage

  lemma SignOfFactor(a: real, t: real)
    requires t > 0.0
    ensures a * t >= 0.0 <==> a >= 0.0
  {
  }

  lemma Quotient(p: real, t: real)
    requires t > 0.0
    ensures p / t >= 0.0 <==> p >= 0.0
    ensures p <= t ==> p / t <= 1.0
  {
    var q := p / t;
    assert q * t == p;
    SignOfFactor(q, t);
    SignOfFactor(1.0 - q, t);
    assert (1.0 - q) * t == t - p;
  }

  /** A usage is never above 100, and it is a percentage exactly when no more idle time than time passed. */
  lemma UsageIsPercentageIff(total: uint64, idle: uint64)
    requires total > 0
    ensures Usage(total, idle) <= 100.0
    ensures Usage(total, idle) >= 0.0 <==> idle <= total
  {
    var u := (total as real - idle as real) / total as real;
    Quotient(total as real - idle as real, total as real);
    assert Usage(total, idle) == u * 100.0;
  }

  /** Every counter grew, or stayed, and the sum still fits. */
  predicate Grew(prev: Stat, curr: Stat) {
    && prev.user <= curr.user && prev.nice <= curr.nice && prev.system <= curr.system && prev.idle <= curr.idle
    && prev.iowait <= curr.iowait && prev.irq <= curr.irq && prev.softirq <= curr.softirq && prev.steal <= curr.steal
    && TrueSum(curr) < WORD
  }

  lemma SmallRemainder(n: nat)
    requires n < WORD
    ensures n % WORD == n
  {
  }

  lemma GrowthIsExact(prev: Stat, curr: Stat)
    requires Grew(prev, curr)
    ensures DeltaTotal(prev, curr) == TrueSum(curr) - TrueSum(prev)
    ensures DeltaIdle(prev, curr) == (curr.idle + curr.iowait) - (prev.idle + prev.iowait)
    ensures DeltaIdle(prev, curr) <= DeltaTotal(prev, curr)
  {
    SmallRemainder(TrueSum(curr));
    SmallRemainder(TrueSum(prev));
    SmallRemainder(curr.idle + curr.iowait);
    SmallRemainder(prev.idle + prev.iowait);
    SmallRemainder(TrueSum(curr) - TrueSum(prev));
    SmallRemainder((curr.idle + curr.iowait) - (prev.idle + prev.iowait));
  }

  lemma HundredTimes(p: real, t: real)
    requires t > 0.0
    ensures (p / t * 100.0) * t == 100.0 * p
  {
    var q := p / t;
    assert q * t == p;
    assert (q * 100.0) * t == 100.0 * (q * t);
  }

  predicate IsPercentageOf(usage: real, busy: int, all: int) {
    usage * all as real == 100.0 * busy as real
  }

  lemma UsageOfShare(total: uint64, idle: uint64)
    requires total > 0 && idle <= total
    ensures IsPercentageOf(Usage(total, idle), total - idle, total)
    ensures idle == 0 ==> Usage(total, idle) == 100.0
    ensures idle == total ==> Usage(total, idle) == 0.0
  {
    HundredTimes(total as real - idle as real, total as real);
    assert total as real - idle as real == (total - idle) as real;
    assert idle == 0 ==> (total as real - idle as real) / total as real == 1.0;
  }

  /** The ticks between two readings that were neither idle nor a wait for input or output, and those that were. */
  ghost predicate Split(prev: Stat, curr: Stat, busy: int, idle: int) {
    && busy == (curr.user - prev.user) + (curr.nice - prev.nice) + (curr.system - prev.system)
               + (curr.irq - prev.irq) + (curr.softirq - prev.softirq) + (curr.steal - prev.steal)
    && idle == (curr.idle - prev.idle) + (curr.iowait - prev.iowait)
  }

  lemma GrowthInTicks(prev: Stat, curr: Stat, busy: int, idle: int)
    requires Grew(prev, curr) && Split(prev, curr, busy, idle)
    ensures DeltaTotal(prev, curr) == busy + idle && DeltaIdle(prev, curr) == idle && busy >= 0
  {
    GrowthIsExact(prev, curr);
  }

  lemma BetweenIsUsage(prev: Stat, curr: Stat, total: uint64, idle: uint64)
    requires DeltaTotal(prev, curr) == total && DeltaIdle(prev, curr) == idle
    ensures Between(prev, curr) == if total > 0 then Usage(total, idle) else 0.0
  {
  }

  lemma ShareOf(usage: real, total: uint64, busy: int, idle: uint64)
    requires total == busy + idle && busy >= 0 && usage == if total > 0 then Usage(total, idle) else 0.0
    ensures IsPercentageOf(usage, busy, busy + idle)
    ensures busy > 0 && idle == 0 ==> usage == 100.0
    ensures busy == 0 ==> usage == 0.0
  {
    if total > 0 {
      UsageOfShare(total, idle);
    }
  }

  /** For counters that only grow, the usage is the hundredfold share of the busy ticks in all ticks: no idle time gives
      100, nothing but idle time gives 0. */
  lemma UsageIsBusyShare(prev: Stat, curr: Stat, busy: int, idle: int)
    requires Grew(prev, curr) && Split(prev, curr, busy, idle)
    ensures IsPercentageOf(Between(prev, curr), busy, busy + idle)
    ensures busy > 0 && idle == 0 ==> Between(prev, curr) == 100.0
    ensures busy == 0 ==> Between(prev, curr) == 0.0
  {
    var total, usage := DeltaTotal(prev, curr), Between(prev, curr);
    GrowthInTicks(prev, curr, busy, idle);
    BetweenIsUsage(prev, curr, total, idle);
    ShareOf(usage, total, busy, idle);
  }

  // ---------------------------------------------------------------- runs

  /** The reading remembered after these. */
  ghost function Stored(readings: seq<Reading>): Option<Reading> {
    if readings == [] then
      None
    else
      var before, curr := Stored(readings[..|readings| - 1]), readings[|readings| - 1];
      if before.Some? && HasCores(curr, 0) then before else Some(curr)
  }

  /** What the latest reading reports for a name. */
  ghost function Reported(readings: seq<Reading>, name: Name): real
    requires readings != []
  {
    var before, curr := Stored(readings[..|readings| - 1]), readings[|readings| - 1];
    if before.None? || HasCores(curr, 0) then 0.0 else Raw(before.value, curr, name)
  }

  /** The latest reading has a slot for the name: the average always has, a core only below the largest index. */
  ghost predicate HasSlot(readings: seq<Reading>, name: Name)
    requires readings != []
  {
    name.Total? ||
    (Stored(readings[..|readings| - 1]).Some? && exists n :: Core(n) in readings[|readings| - 1] && name.n <= n)
  }

  /** The samples that reach the smoother of a name. */
  ghost function Samples(readings: seq<Reading>, times: seq<real>, name: Name): seq<Ema.Sample>
    requires |readings| == |times|
  {
    if readings == [] then
      []
    else
      var n := |readings| - 1;
      var rest := Samples(readings[..n], times[..n], name);
      if HasSlot(readings, name) then rest + [Ema.Sample(Reported(readings, name), times[n])] else rest
  }

  ghost predicate Counting(readings: seq<Reading>, name: Name) {
    forall i, j :: 0 <= i < j < |readings| && name in readings[i] && name in readings[j] ==>
      Grew(readings[i][name], readings[j][name])
  }

  lemma {:induction false} StoredWasRead(readings: seq<Reading>)
    ensures Stored(readings).Some? ==> Stored(readings).value in readings
  {
    if readings != [] {
      StoredWasRead(readings[..|readings| - 1]);
      if Stored(readings[..|readings| - 1]).Some? {
        assert Stored(readings[..|readings| - 1]).value in readings[..|readings| - 1];
      }
    }
  }

  lemma ReportIsPercentage(readings: seq<Reading>, name: Name)
    requires readings != [] && Counting(readings, name)
    ensures 0.0 <= Reported(readings, name) <= 100.0
  {
    var n := |readings| - 1;
    var before, curr := Stored(readings[..n]), readings[n];
    StoredWasRead(readings[..n]);
    if before.Some? && name in before.value && name in curr && DeltaTotal(before.value[name], curr[name]) > 0 {
      var i :| 0 <= i < n && readings[i] == before.value;
      GrowthIsExact(readings[i][name], curr[name]);
      UsageIsPercentageIff(DeltaTotal(before.value[name], curr[name]), DeltaIdle(before.value[name], curr[name]));
    }
  }

  lemma {:induction false} SamplesArePercentages(readings: seq<Reading>, times: seq<real>, name: Name)
    requires |readings| == |times| && Counting(readings, name)
    ensures forall s :: s in Samples(readings, times, name) ==> 0.0 <= s.x <= 100.0
  {
    if readings != [] {
      SamplesArePercentages(readings[..|readings| - 1], times[..|readings| - 1], name);
      ReportIsPercentage(readings, name);
    }
  }

  /** In every run over counters that only grow, the smoothed usage of every name is a percentage, cores that come and
      go, readings without cores and clocks that step back included. */
  lemma SmoothedUsageIsPercentage(exp: Ema.Exponential, e: Ema.State, readings: seq<Reading>, times: seq<real>,
                                  name: Name)
    requires Ema.IsExponential(exp) && e.tau > 0.0 && !e.init
    requires |readings| == |times| && Counting(readings, name)
    requires Samples(readings, times, name) != []
    ensures 0.0 <= Ema.After(exp, e, Samples(readings, times, name)).value <= 100.0
  {
    SamplesArePercentages(readings, times, name);
    Ema.StaysWithinSamples(exp, e, Samples(readings, times, name), 0.0, 100.0);
  }

  /** A counter that steps back breaks it: one tick less of iowait, nothing else but one tick of work. */
  lemma ShrinkingIowaitIsNegative(prev: Stat, curr: Stat)
    requires prev == Stat(0, 0, 0, 0, 1, 0, 0, 0) && curr == Stat(2, 0, 0, 0, 0, 0, 0, 0)
    ensures DeltaTotal(prev, curr) == 1 && DeltaIdle(prev, curr) == WORD - 1
    ensures Usage(DeltaTotal(prev, curr), DeltaIdle(prev, curr)) < 0.0
  {
    SmallRemainder(1);
    assert (0 - 1) % WORD == WORD - 1;
    UsageIsPercentageIff(1, WORD - 1);
  }
}
