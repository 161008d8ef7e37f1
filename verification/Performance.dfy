/** The warm-up and measuring loops of ngcc_run_performance_op. */
module Performance {
  import opened Options
  import opened Stats
  import opened Spread
  import opened Median

  /** One call of the harness: the n-th call of the operation, the n-th reading of the clock in
      milliseconds, the cycles of an iteration when the counter could be opened, and whether the two
      sample arrays could be allocated. */
  datatype Bench = Bench(iterations: nat, bytesPerOp: nat, op: nat -> int, clock: nat -> Option<real>,
                         cycles: Option<nat -> nat>, keepTimes: bool, keepCycles: bool) {
    function Warmup(): (w: nat)
      ensures w >= 10 && (w > 10 ==> 100 * w <= iterations < 100 * (w + 1))
    {
      if iterations / 100 < 10 then 10 else iterations / 100
    }

    function Ms(i: nat, j: nat): real {
      clock(j).GetOr(0.0) - clock(i).GetOr(0.0)
    }

    /** The times of the first n iterations. */
    function Times(n: nat): (r: seq<real>)
      ensures |r| == n
    {
      if n == 0 then [] else Times(n - 1) + [Ms(2 * n - 1, 2 * n)]
    }

    function CycleSamples(n: nat): (r: seq<real>)
      ensures |r| == if cycles.Some? then n else 0
    {
      if n == 0 || cycles.None? then [] else CycleSamples(n - 1) + [cycles.value(n - 1) as real]
    }

    ghost predicate Warm() {
      forall i :: 0 <= i < Warmup() ==> op(i) == 0
    }

    /** The operation returned 0 and the clock was read before and after it. */
    predicate Ran(i: nat) {
      op(Warmup() + i) == 0 && clock(2 * i + 1).Some? && clock(2 * i + 2).Some?
    }

    ghost predicate Clean(n: nat) {
      forall i :: 0 <= i < n ==> Ran(i)
    }

    /** A clock that never runs backwards. */
    ghost predicate Monotonic() {
      forall i: nat, j: nat :: i < j && clock(i).Some? && clock(j).Some? ==> clock(i).value <= clock(j).value
    }

    /** Every call returned 0 and every reading of the clock succeeded. */
    ghost predicate Succeeds() {
      iterations > 0 && Warm() && Clean(iterations)
      && clock(0).Some? && clock(2 * iterations + 1).Some?
    }
  }

  datatype Summary = Summary(mean: real, stddev: real, min: real, max: real, cv: real, median: real)

  /** Without the samples at hand the mean stands in for their median. */
  function SummaryOf(sqrt: real -> real, s: seq<real>, kept: bool): Summary {
    Summary(Mean(s), Stddev(sqrt, s), Min(s), Max(s), Cv(sqrt, s), if kept then MedianOf(s) else Mean(s))
  }

  datatype Result = Result(iterations: nat, warmup: nat, elapsedMs: real, opsPerSec: real, bytesPerSec: real,
                           mbPerSec: real, time: Summary, cycles: Summary, cyclesPerByte: real)

  /** Rates over the whole measuring loop, zero when the clock did not advance. */
  predicate Rates(b: Bench, r: Result) {
    && r.elapsedMs == b.Ms(0, 2 * b.iterations + 1)
    && (r.elapsedMs > 0.0 ==> r.opsPerSec * r.elapsedMs == b.iterations as real * 1000.0)
    && (r.elapsedMs <= 0.0 ==> r.opsPerSec == 0.0)
    && r.bytesPerSec == r.opsPerSec * b.bytesPerOp as real
    && r.mbPerSec * 1000000.0 == r.bytesPerSec
    && (r.cycles.mean > 0.0 && b.bytesPerOp > 0 ==> r.cyclesPerByte * b.bytesPerOp as real == r.cycles.mean)
    && (r.cycles.mean <= 0.0 || b.bytesPerOp == 0 ==> r.cyclesPerByte == 0.0)
  }

  /** The figures of one statistic, with the median of the samples it was fed when they were kept. */
  method Summarize(sqrt: real -> real, st: RunningStats, samples: array?<real>, ghost s: seq<real>)
    returns (f: Summary)
    requires st.Describes(s) && (samples != null ==> samples[..] == s)
    modifies samples
    ensures f == SummaryOf(sqrt, s, samples != null)
  {
    hide Mean, Deviation, Min, Max, MedianOf, Sort;
    var stddev := if st.count < 2 then 0.0 else sqrt(st.Variance());
    var cv := if st.mean > 0.0 then stddev / st.mean * 100.0 else 0.0;
    var mean, min, max := st.mean, st.min, st.max;
    var median := mean;
    if samples != null {
      median := ComputeMedian(samples);
    }
    f := Summary(mean, stddev, min, max, cv, median);
  }

  method WarmUp(b: Bench) returns (ok: bool)
    ensures ok <==> b.Warm()
  {
    var i := 0;
    while i < b.Warmup()
      invariant i <= b.Warmup() && forall k :: 0 <= k < i ==> b.op(k) == 0
    {
      if b.op(i) != 0 {
        return false;
      }
      i := i + 1;
    }
    return true;
  }

  /** The running statistics and the sample arrays of a measuring loop. */
  class Recorder {
    const timeStats: RunningStats
    const cycleStats: RunningStats
    const timeSamples: array?<real>
    const cycleSamples: array?<real>

    ghost predicate Valid(b: Bench) {
      timeStats != cycleStats && (timeSamples != null ==> timeSamples != cycleSamples)
      && (timeSamples != null <==> b.keepTimes) && (cycleSamples != null <==> b.keepCycles && b.cycles.Some?)
      && (timeSamples != null ==> timeSamples.Length == b.iterations)
      && (cycleSamples != null ==> cycleSamples.Length == b.iterations)
    }

    /** The statistics and the filled part of each array are those of the first n iterations. */
    ghost predicate Holds(b: Bench, n: nat)
      reads timeStats, cycleStats, timeSamples, cycleSamples
    {
      Valid(b) && n <= b.iterations
      && timeStats.Describes(b.Times(n)) && cycleStats.Describes(b.CycleSamples(n))
      && (timeSamples != null ==> timeSamples[..n] == b.Times(n))
      && (cycleSamples != null ==> cycleSamples[..n] == b.CycleSamples(n))
    }

    constructor (b: Bench)
      ensures Holds(b, 0)
      ensures fresh(timeStats) && fresh(cycleStats)
      ensures (timeSamples != null ==> fresh(timeSamples)) && (cycleSamples != null ==> fresh(cycleSamples))
    {
      timeStats := new RunningStats();
      cycleStats := new RunningStats();
      timeSamples, cycleSamples := null, null;
      if b.keepTimes {
        timeSamples := new real[b.iterations];
      }
      if b.keepCycles && b.cycles.Some? {
        cycleSamples := new real[b.iterations];
      }
    }

    method Record(b: Bench, n: nat, time: real)
      requires Holds(b, n) && n < b.iterations && time == b.Ms(2 * n + 1, 2 * n + 2)
      modifies timeStats, cycleStats, timeSamples, cycleSamples
      ensures Holds(b, n + 1)
    {
      hide RunningStats.Describes;
      timeStats.Update(time, b.Times(n));
      if timeSamples != null {
        timeSamples[n] := time;
        assert timeSamples[..n + 1] == timeSamples[..n] + [time];
      }
      if b.cycles.Some? {
        var value := b.cycles.value(n) as real;
        cycleStats.Update(value, b.CycleSamples(n));
        if cycleSamples != null {
          cycleSamples[n] := value;
          assert cycleSamples[..n + 1] == cycleSamples[..n] + [value];
        }
      }
    }

    lemma Full(b: Bench)
      requires Holds(b, b.iterations)
      ensures timeSamples != null ==> timeSamples[..] == b.Times(b.iterations)
      ensures cycleSamples != null ==> cycleSamples[..] == b.CycleSamples(b.iterations)
    {
      hide RunningStats.Describes, Bench.Times, Bench.CycleSamples;
      var n := b.iterations;
      if timeSamples != null {
        assert timeSamples[..] == timeSamples[..n];
      }
      if cycleSamples != null {
        assert cycleSamples[..] == cycleSamples[..n];
      }
    }
  }

  /** The measuring loop, after reading 0 of the clock. */
  method Measure(b: Bench, rec: Recorder) returns (ok: bool)
    requires rec.Holds(b, 0)
    modifies rec.timeStats, rec.cycleStats, rec.timeSamples, rec.cycleSamples
    ensures ok <==> b.Clean(b.iterations)
    ensures ok ==> rec.Holds(b, b.iterations)
  {
    hide Recorder.Holds, Bench.Warmup;
    var w := b.Warmup();
    var i := 0;
    while i < b.iterations
      invariant i <= b.iterations && b.Clean(i) && rec.Holds(b, i)
    {
      assert b.Clean(b.iterations) ==> b.Ran(i);
      var start := b.clock(2 * i + 1);
      if start.None? {
        return false;
      }
      if b.op(w + i) != 0 {
        return false;
      }
      var end := b.clock(2 * i + 2);
      if end.None? {
        return false;
      }
      rec.Record(b, i, end.value - start.value);
      i := i + 1;
    }
    return true;
  }

  /** What becomes of the caller's result: not touched, cleared with its two counts, or filled in. */
  datatype Outcome = Untouched | Started(iterations: nat, warmup: nat) | Finished(result: Result)

  /** ngcc_run_performance_op. */
  method RunPerformance(b: Bench, sqrt: real -> real) returns (rc: int, out: Outcome)
    ensures rc == if b.Succeeds() then 0 else -1
    ensures out == Untouched <==> b.iterations == 0 || !b.Warm()
    ensures out.Started? ==> rc == -1 && out == Started(b.iterations, b.Warmup())
    ensures out.Finished? <==> rc == 0
    ensures out.Finished? ==> Reports(b, sqrt, out.result)
  {
    hide Bench.Warm, Bench.Clean, Bench.Warmup, Recorder.Holds, SummaryOf, Bench.Times, Bench.CycleSamples;
    if b.iterations == 0 {
      return -1, Untouched;
    }
    var warm := WarmUp(b);
    if !warm {
      return -1, Untouched;
    }
    var rec := new Recorder(b);
    if b.clock(0).None? {
      return -1, Started(b.iterations, b.Warmup());
    }
    var ok := Measure(b, rec);
    if !ok || b.clock(2 * b.iterations + 1).None? {
      return -1, Started(b.iterations, b.Warmup());
    }
    var time, cycles := SummarizeBoth(b, sqrt, rec);
    var r := Report(b, time, cycles);
    return 0, Finished(r);
  }

  ghost predicate Reports(b: Bench, sqrt: real -> real, r: Result) {
    Rates(b, r) && r.iterations == b.iterations && r.warmup == b.Warmup()
    && r.time == SummaryOf(sqrt, b.Times(b.iterations), b.keepTimes)
    && r.cycles == SummaryOf(sqrt, b.CycleSamples(b.iterations), b.keepCycles)
  }

  method SummarizeBoth(b: Bench, sqrt: real -> real, rec: Recorder) returns (time: Summary, cycles: Summary)
    requires rec.Holds(b, b.iterations)
    modifies rec.timeSamples, rec.cycleSamples
    ensures time == SummaryOf(sqrt, b.Times(b.iterations), b.keepTimes)
    ensures cycles == SummaryOf(sqrt, b.CycleSamples(b.iterations), b.keepCycles)
  {
    rec.Full(b);
    NoCycleFigures(b, sqrt);
    hide RunningStats.Describes, SummaryOf, Bench.Times, Bench.CycleSamples;
    time := Summarize(sqrt, rec.timeStats, rec.timeSamples, b.Times(b.iterations));
    cycles := Summarize(sqrt, rec.cycleStats, rec.cycleSamples, b.CycleSamples(b.iterations));
  }

  /** Without a counter all figures are 0, with or without an array. */
  lemma NoCycleFigures(b: Bench, sqrt: real -> real)
    ensures b.cycles.None? ==>
      forall kept :: SummaryOf(sqrt, b.CycleSamples(b.iterations), kept) == Summary(0.0, 0.0, 0.0, 0.0, 0.0, 0.0)
  {}

  method Report(b: Bench, time: Summary, cycles: Summary) returns (r: Result)
    ensures Rates(b, r) && r.iterations == b.iterations && r.warmup == b.Warmup()
    ensures r.time == time && r.cycles == cycles
  {
    var elapsed, n, bytes := b.Ms(0, 2 * b.iterations + 1), b.iterations as real, b.bytesPerOp as real;
    var opsPerSec, bytesPerSec, mbPerSec, cyclesPerByte := 0.0, 0.0, 0.0, 0.0;
    if elapsed > 0.0 {
      opsPerSec := n * 1000.0 / elapsed;
    }
    if b.bytesPerOp > 0 && elapsed > 0.0 {
      bytesPerSec := n * bytes * 1000.0 / elapsed;
      mbPerSec := bytesPerSec / 1000000.0;
      RateTimesBytes(n, bytes, elapsed);
    }
    if cycles.mean > 0.0 && b.bytesPerOp > 0 {
      cyclesPerByte := cycles.mean / bytes;
    }
    r := Result(b.iterations, b.Warmup(), elapsed, opsPerSec, bytesPerSec, mbPerSec, time, cycles, cyclesPerByte);
  }

  lemma RateTimesBytes(n: real, b: real, t: real)
    requires t != 0.0
    ensures n * b * 1000.0 / t == (n * 1000.0 / t) * b
  {
    var q := n * 1000.0 / t;
    assert q * t == n * 1000.0;
    assert (q * b) * t == n * b * 1000.0;
  }

  // ----- what the figures mean together -----

  /** The reported median lies between the reported extremes, and so does the mean. */
  lemma FiguresOrdered(sqrt: real -> real, s: seq<real>, kept: bool)
    ensures var f := SummaryOf(sqrt, s, kept);
      f.min <= f.median <= f.max && f.min <= f.mean <= f.max && (IsSqrt(sqrt) ==> f.stddev >= 0.0)
  {
    hide Min, Max, MedianOf, Mean, Variance;
    VarianceIsNotNegative(s);
    if s != [] {
      MedianWithinExtremes(s);
      MeanWithinExtremes(s);
    } else {
      NoSamples(s);
    }
  }

  lemma NoSamples(s: seq<real>)
    requires s == []
    ensures Min(s) == Max(s) == Mean(s) == MedianOf(s) == 0.0
  {}

  lemma {:induction false} SumBetween(s: seq<real>, lo: real, hi: real)
    requires forall x :: x in s ==> lo <= x <= hi
    ensures |s| as real * lo <= Sum(s) <= |s| as real * hi
  {
    if s != [] {
      var init, x := s[..|s| - 1], s[|s| - 1];
      forall y | y in init
        ensures lo <= y <= hi
      {
        assert y in s;
      }
      SumBetween(init, lo, hi);
      OneMore(|init|, lo);
      OneMore(|init|, hi);
      assert x in s;
    }
  }

  lemma OneMore(n: nat, x: real)
    ensures (n + 1) as real * x == n as real * x + x
  {
    assert (n + 1) as real == n as real + 1.0;
  }

  lemma MeanWithinExtremes(s: seq<real>)
    requires s != []
    ensures Min(s) <= Mean(s) <= Max(s)
  {
    hide Min, Max, Sum, Mean;
    MinMaxAreExtremes(s);
    SumBetween(s, Min(s), Max(s));
    MeanTimesCount(s);
    MultiplyBothSides(|s| as real, Min(s), Mean(s));
    MultiplyBothSides(|s| as real, Mean(s), Max(s));
  }

  lemma MultiplyBothSides(n: real, x: real, y: real)
    requires n > 0.0 && n * x <= n * y
    ensures x <= y
  {
    if x > y {
      Positive(n, x - y);
    }
  }

  lemma SumNext(s: seq<real>, x: real)
    ensures Sum(s + [x]) == Sum(s) + x
  {
    assert (s + [x])[..|s|] == s;
  }

  lemma BetweenIterations(b: Bench, n: nat)
    requires b.Clean(n + 1) && b.clock(0).Some? && b.Monotonic()
    ensures b.Ms(0, 2 * n) + b.Ms(2 * n + 1, 2 * n + 2) <= b.Ms(0, 2 * n + 2)
  {
    assert b.Ran(n) && (n > 0 ==> b.Ran(n - 1));
    assert b.clock(2 * n).Some? && b.clock(2 * n).value <= b.clock(2 * n + 1).value;
  }

  /** With a clock that never runs backwards, the iterations fit into the elapsed time. */
  lemma {:induction false} TimesFit(b: Bench, n: nat)
    requires b.Clean(n) && b.clock(0).Some?
    requires b.Monotonic()
    ensures Sum(b.Times(n)) <= b.Ms(0, 2 * n)
  {
    if n > 0 {
      TimesFit(b, n - 1);
      hide Bench.Ms;
      SumNext(b.Times(n - 1), b.Ms(2 * n - 1, 2 * n));
      hide Sum, Bench.Times;
      BetweenIterations(b, n - 1);
    }
  }

  /** So the throughput is at most the reciprocal of the mean time. */
  lemma ThroughputFitsMeanTime(b: Bench, sqrt: real -> real, r: Result)
    requires b.Succeeds() && Reports(b, sqrt, r)
    requires b.Monotonic()
    ensures r.opsPerSec * r.time.mean <= 1000.0
  {
    hide Sum, Bench.Times, Bench.Clean, Bench.Warmup, Mean, Stddev, Cv, Min, Max, MedianOf;
    var n, s := b.iterations as real, b.Times(b.iterations);
    TimesFit(b, b.iterations);
    MeanTimesCount(s);
    LastReadings(b);
    if r.elapsedMs > 0.0 {
      RateBound(r.opsPerSec, r.elapsedMs, n, r.time.mean);
    }
  }

  lemma LastReadings(b: Bench)
    requires b.Succeeds()
    requires b.Monotonic()
    ensures b.Ms(0, 2 * b.iterations) <= b.Ms(0, 2 * b.iterations + 1)
  {
    assert b.Ran(b.iterations - 1);
  }

  lemma RateBound(rate: real, elapsed: real, n: real, mean: real)
    requires elapsed > 0.0 && n > 0.0 && rate * elapsed == n * 1000.0 && n * mean <= elapsed
    ensures rate * mean <= 1000.0
  {
    if rate <= 0.0 {
      NotPositive(elapsed, rate);
      assert false;
    }
    assert rate * (n * mean) <= rate * elapsed by {
      MultiplyLe(rate, n * mean, elapsed);
    }
    assert n * (rate * mean) == rate * (n * mean);
    MultiplyBothSides(n, rate * mean, 1000.0);
  }

  lemma MultiplyLe(a: real, x: real, y: real)
    requires a > 0.0 && x <= y
    ensures a * x <= a * y
  {}

  // ----- the samples one by one -----

  /** Sample i is the time between the two readings around iteration i. */
  lemma {:induction false} TimeIs(b: Bench, n: nat, i: nat)
    requires i < n && b.clock(2 * i + 1).Some? && b.clock(2 * i + 2).Some?
    ensures b.Times(n)[i] == b.clock(2 * i + 2).value - b.clock(2 * i + 1).value
  {
    if i < n - 1 {
      TimeIs(b, n - 1, i);
    }
  }

  lemma {:induction false} CyclesAre(b: Bench, n: nat, i: nat)
    requires i < n && b.cycles.Some?
    ensures b.CycleSamples(n)[i] == b.cycles.value(i) as real
  {
    if i < n - 1 {
      CyclesAre(b, n - 1, i);
    }
  }

  /** The figures of samples: extremes, the mean by their sum and the spread by the mean, and the median
      of any ascending arrangement or, without the samples at hand, the mean. */
  lemma SummaryIs(sqrt: real -> real, s: seq<real>, t: seq<real>, kept: bool)
    requires s != [] && IsSqrt(sqrt) && multiset(t) == multiset(s) && Sorted(t)
    ensures var f := SummaryOf(sqrt, s, kept);
      && f.min == t[0] && f.max == t[|t| - 1]
      && f.mean * |s| as real == Sum(s)
      && f.stddev >= 0.0 && f.stddev * f.stddev == Variance(s)
      && (if f.mean > 0.0 then f.cv * f.mean == 100.0 * f.stddev else f.cv == 0.0)
      && f.median == if !kept then f.mean
                     else if |t| % 2 == 1 then t[|t| / 2] else (t[|t| / 2 - 1] + t[|t| / 2]) / 2.0
  {
    hide Min, Max, MedianOf, Mean, Sum, Variance, Stddev, Cv;
    SpreadIs(sqrt, s);
    MedianIs(s, t);
    MeanTimesCount(s);
    MinMaxAreExtremes(s);
    EndsAreExtremes(s, t);
  }

  lemma EndsAreExtremes(s: seq<real>, t: seq<real>)
    requires s != [] && multiset(t) == multiset(s) && Sorted(t)
    ensures t != [] && Min(s) == t[0] && Max(s) == t[|t| - 1]
  {
    hide Min, Max, Sorted;
    MinMaxAreExtremes(s);
    SameLength(s, t);
    assert multiset(s)[Min(s)] > 0 && multiset(s)[Max(s)] > 0;
    assert multiset(t)[t[0]] > 0 && multiset(t)[t[|t| - 1]] > 0;
    assert t[0] in s && t[|t| - 1] in s && Min(s) in t && Max(s) in t;
    Bounds(t, Min(s), Max(s));
  }

  lemma Bounds(t: seq<real>, lo: real, hi: real)
    requires Sorted(t) && t != [] && lo in t && hi in t
    ensures t[0] <= lo && hi <= t[|t| - 1]
  {}
}
