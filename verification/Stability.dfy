/** The result of ngcc_run_stability. */
module Stability {
  import opened Options
  import opened CString
  import opened Schedule
  import opened Stats
  import opened Spread
  import opened Sampling

  const REASON_LEN: nat := 256

  datatype Thresholds = Thresholds(throughputCv: real, cyclesCv: real, timeCv: real,
                                   rssPercent: real, rssBytes: nat, errorRate: real)

  /** ngcc_stability_thresholds_set_defaults. */
  const DEFAULTS := Thresholds(5.0, 5.0, 5.0, 1.0, 100000, 0.0)

  datatype Figures = Figures(mean: real, stddev: real, min: real, max: real, cv: real)

  function FiguresOf(sqrt: real -> real, s: seq<real>): Figures {
    Figures(Mean(s), Stddev(sqrt, s), Min(s), Max(s), Cv(sqrt, s))
  }

  /** The figures of one running statistic, as the result stores them. */
  method Summarize(sqrt: real -> real, st: RunningStats, ghost s: seq<real>) returns (f: Figures)
    requires st.Describes(s)
    ensures f == FiguresOf(sqrt, s)
  {
    hide Mean, Deviation, Min, Max;
    var stddev := if st.count < 2 then 0.0 else sqrt(st.Variance());
    var cv := if st.mean > 0.0 then stddev * 100.0 / st.mean else 0.0;
    f := Figures(st.mean, stddev, st.min, st.max, cv);
  }

  // ----- memory -----

  datatype Growth = Growth(start: nat, end: nat, bytes: nat, percent: real, stable: bool)

  /** ngcc_evaluate_rss_stability. */
  function EvaluateRss(start: nat, end: nat, limits: Thresholds): (g: Growth)
    ensures start + g.bytes == (if end > start then end else start) && g.percent >= 0.0
    ensures g.stable ==> start > 0 && end > 0 && g.percent * start as real == g.bytes as real * 100.0
  {
    var grown := if end > start then end - start else 0;
    if start == 0 || end == 0 then Growth(start, end, grown, 0.0, false)
    else
      var percent := grown as real * 100.0 / start as real;
      Growth(start, end, grown, percent, percent < limits.rssPercent && grown < limits.rssBytes)
  }

  /** Memory is stable if it was measured, the limits allow some growth, and the difference, negative
      when memory shrank, is below both of them. */
  lemma MemoryStableIff(start: nat, end: nat, limits: Thresholds)
    ensures EvaluateRss(start, end, limits).stable
       <==> && start > 0 && end > 0
            && 0 < limits.rssBytes && 0.0 < limits.rssPercent
            && end - start < limits.rssBytes
            && (end - start) as real * 100.0 < limits.rssPercent * start as real
  {
    if start > 0 && end > 0 {
      var grown := if end > start then end - start else 0;
      QuotientBelow(grown as real * 100.0, start as real, limits.rssPercent);
      CompareProducts(limits.rssPercent, start as real);
    }
  }

  lemma CompareProducts(a: real, b: real)
    requires b > 0.0
    ensures 0.0 < a * b <==> 0.0 < a
  {}

  lemma QuotientBelow(a: real, b: real, c: real)
    requires b > 0.0
    ensures a / b < c <==> a < c * b
  {
    var q := a / b;
    assert q * b == a;
    if q < c {
      Positive(c - q, b);
    } else if q > c {
      Positive(q - c, b);
    }
  }

  // ----- the result -----

  datatype Result = Result(
    casesRun: nat, totalExecutions: nat, sampleCount: nat, errorCount: nat, errorRate: real,
    elapsed: real, interrupted: bool, failed: bool,
    time: Figures, throughput: Figures, byteRate: Figures, bytesPerCase: nat,
    cyclesAvailable: bool, cycles: Figures, memory: Growth,
    performanceStable: bool, correctnessStable: bool, isStable: bool, status: string)

  /** What a run is given besides the schedule of its clock and stop flag. */
  datatype Setting = Setting(outcome: nat -> int, bytes: nat, counter: Counter,
                             rssStart: nat, rssEnd: nat, limits: Thresholds, sqrt: real -> real)

  predicate ValidArguments(s: Schedule) {
    s.maxCases > 0 && s.maxSeconds > 0.0 && s.targetMs > 0.0
  }

  /** Four of these fit the buffer of the result. */
  predicate Short(s: string) {
    4 * |s| < REASON_LEN && '\0' !in s
  }

  function PerformanceReason(stable: bool): (r: string)
    ensures Short(r)
  {
    if stable then "" else "performance fluctuation; "
  }

  function MemoryReason(g: Growth): (r: string)
    ensures Short(r)
  {
    if g.start == 0 || g.end == 0 then "rss measurement unavailable; "
    else if g.stable then "" else "memory growth; "
  }

  function ErrorReason(stable: bool): (r: string)
    ensures Short(r)
  {
    if stable then "" else "runtime errors; "
  }

  function CycleReason(counter: Counter): (r: string)
    ensures Short(r)
  {
    if counter.Unavailable? then "cycle counter unavailable; " else ""
  }

  /** The reasons listed for a result. */
  function Reasons(r: Result, counter: Counter): string {
    PerformanceReason(r.performanceStable) + MemoryReason(r.memory)
    + ErrorReason(r.correctnessStable) + CycleReason(counter)
  }

  /** The counts agree with the cases that ran. */
  ghost predicate Counts(s: Schedule, x: Setting, r: Result) {
    var run := s.Whole();
    && r.casesRun == r.totalExecutions == TotalOf(run.batches)
    && r.errorCount == Failures(x.outcome, 0, r.casesRun)
    && (r.errorRate * r.totalExecutions as real == r.errorCount as real * 100.0)
    && (r.totalExecutions == 0 ==> r.errorRate == 0.0)
    && (r.interrupted <==> run.ending == Interrupted)
    && (r.failed <==> run.ending == ClockFailed)
    && r.elapsed == if s.clock(run.readings).Some? then s.Between(0, run.readings) else 0.0
  }

  /** Every figure is that of the samples its batches give. */
  ghost predicate Measures(s: Schedule, x: Setting, r: Result) {
    var bs := s.Whole().batches;
    && r.sampleCount == |Collect(TimeOf(s, x.outcome), bs)|
    && r.time == FiguresOf(x.sqrt, Collect(TimeOf(s, x.outcome), bs))
    && r.throughput == FiguresOf(x.sqrt, Collect(RateOf(s, x.outcome), bs))
    && r.byteRate == FiguresOf(x.sqrt, Collect(ByteRateOf(s, x.outcome, x.bytes), bs))
    && r.cycles == FiguresOf(x.sqrt, Collect(CyclesOf(s, x.outcome, x.counter), bs))
    && r.bytesPerCase == x.bytes
    && r.cyclesAvailable == x.counter.Counting?
    && r.memory == EvaluateRss(x.rssStart, x.rssEnd, x.limits)
  }

  /** The verdict follows from the figures and the thresholds. */
  predicate Judged(x: Setting, r: Result) {
    && (r.performanceStable <==> r.throughput.cv < x.limits.throughputCv && r.time.cv < x.limits.timeCv
                                 && (r.cyclesAvailable ==> r.cycles.cv < x.limits.cyclesCv))
    && (r.correctnessStable <==> r.errorRate <= x.limits.errorRate)
    && (r.isStable <==> r.performanceStable && r.memory.stable && r.correctnessStable)
    && r.status == if r.isStable then "STABLE" else "UNSTABLE"
  }

  lemma NoCycles(s: Schedule, outcome: nat -> int, counter: Counter, bs: seq<Batch>)
    requires !counter.Counting?
    ensures Collect(CyclesOf(s, outcome, counter), bs) == []
  {
    if bs != [] {
      NoCycles(s, outcome, counter, bs[..|bs| - 1]);
    }
  }

  /** One append that fits is never cut short. */
  method AppendShort(dst: array<char>, reason: string)
    requires |Text(dst[..])| + |reason| < dst.Length && '\0' !in reason
    modifies dst
    ensures Text(dst[..]) == old(Text(dst[..])) + reason
  {
    AppendReason(dst, reason);
  }

  method ListReasons(reasons: array<char>, r: Result, counter: Counter)
    requires reasons.Length == REASON_LEN && Text(reasons[..]) == ""
    modifies reasons
    ensures Text(reasons[..]) == Reasons(r, counter)
  {
    hide Text, PerformanceReason, MemoryReason, ErrorReason, CycleReason;
    AppendShort(reasons, PerformanceReason(r.performanceStable));
    AppendShort(reasons, MemoryReason(r.memory));
    AppendShort(reasons, ErrorReason(r.correctnessStable));
    AppendShort(reasons, CycleReason(counter));
  }

  /** ngcc_run_stability, with the result it fills in once its first clock reading succeeds. */
  method RunStability(s: Schedule, x: Setting, reasons: array<char>) returns (rc: int, result: Option<Result>)
    requires reasons.Length == REASON_LEN
    modifies reasons
    ensures result.Some? <==> ValidArguments(s) && s.clock(0).Some?
    ensures rc == if result.Some? && !result.value.failed then 0 else -1
    ensures result.Some? ==> Counts(s, x, result.value) && Measures(s, x, result.value) && Judged(x, result.value)
    ensures result.Some? ==> Text(reasons[..]) == Reasons(result.value, x.counter)
    ensures !ValidArguments(s) ==> reasons[..] == old(reasons[..])
  {
    if s.maxCases == 0 || s.maxSeconds <= 0.0 || s.targetMs <= 0.0 {
      return -1, None;
    }
    reasons[0] := '\0';
    assert Text(reasons[..]) == "";
    if s.clock(0).None? {
      return -1, None;
    }
    hide *;
    hide Counts, Measures, Judged;
    var cases, executions, errors, interrupted, failed, t, m := RunLoop(s, x.outcome, x.bytes, x.counter);
    var r := Assemble(s, x, cases, executions, errors, interrupted, failed, t, m);
    ListReasons(reasons, r, x.counter);
    return if r.failed then -1 else 0, Some(r);
  }

  method ErrorRate(errors: nat, executions: nat) returns (rate: real)
    ensures executions == 0 ==> rate == 0.0
    ensures errors <= executions ==> rate * executions as real == errors as real * 100.0
  {
    rate := if executions > 0 then errors as real * 100.0 / executions as real else 0.0;
  }

  /** The tail of the run: the figures, the memory check and the verdict. */
  method Assemble(s: Schedule, x: Setting, cases: nat, executions: nat, errors: nat,
                  interrupted: bool, failed: bool, t: nat, m: Meters) returns (r: Result)
    requires var run := s.Whole();
      && cases == executions == TotalOf(run.batches)
      && errors == Failures(x.outcome, 0, cases)
      && (interrupted <==> run.ending == Interrupted)
      && (failed <==> run.ending == ClockFailed)
      && t == run.readings
      && m.Describe(s, x.outcome, x.bytes, x.counter, run.batches)
    ensures Counts(s, x, r) && Measures(s, x, r) && Judged(x, r)
  {
    hide Schedule.Whole, Meters.Describe, RunningStats.Describes, FiguresOf, Collect, EvaluateRss, Successes, Run.Total;
    var time, throughput, byteRate, cycles := SummarizeAll(s, x, m);
    var last := s.clock(t);
    var elapsed := if last.Some? then last.value - s.Seconds(0) else 0.0;
    var errorRate := ErrorRate(errors, executions);
    var memory := EvaluateRss(x.rssStart, x.rssEnd, x.limits);
    var cyclesAvailable := x.counter.Counting?;
    var performanceStable := throughput.cv < x.limits.throughputCv && time.cv < x.limits.timeCv
                             && (!cyclesAvailable || cycles.cv < x.limits.cyclesCv);
    var correctnessStable := errorRate <= x.limits.errorRate;
    var isStable := performanceStable && memory.stable && correctnessStable;
    r := Result(cases, executions, m.sampleCount, errors, errorRate, elapsed, interrupted, failed,
                time, throughput, byteRate, x.bytes, cyclesAvailable, cycles, memory,
                performanceStable, correctnessStable, isStable,
                if isStable then "STABLE" else "UNSTABLE");
  }

  method SummarizeAll(s: Schedule, x: Setting, m: Meters)
    returns (time: Figures, throughput: Figures, byteRate: Figures, cycles: Figures)
    requires m.Describe(s, x.outcome, x.bytes, x.counter, s.Whole().batches)
    ensures var bs := s.Whole().batches;
      && m.sampleCount == |Collect(TimeOf(s, x.outcome), bs)|
      && time == FiguresOf(x.sqrt, Collect(TimeOf(s, x.outcome), bs))
      && throughput == FiguresOf(x.sqrt, Collect(RateOf(s, x.outcome), bs))
      && byteRate == FiguresOf(x.sqrt, Collect(ByteRateOf(s, x.outcome, x.bytes), bs))
      && cycles == FiguresOf(x.sqrt, Collect(CyclesOf(s, x.outcome, x.counter), bs))
  {
    hide FiguresOf, Schedule.Whole, Collect;
    ghost var bs := s.Whole().batches;
    time := Summarize(x.sqrt, m.time, Collect(TimeOf(s, x.outcome), bs));
    throughput := Summarize(x.sqrt, m.rate, Collect(RateOf(s, x.outcome), bs));
    byteRate := Summarize(x.sqrt, m.byteRate, Collect(ByteRateOf(s, x.outcome, x.bytes), bs));
    if x.counter.Counting? {
      cycles := Summarize(x.sqrt, m.cycles, Collect(CyclesOf(s, x.outcome, x.counter), bs));
    } else {
      NoCycles(s, x.outcome, x.counter, bs);
      NoFigures(x.sqrt);
      cycles := Figures(0.0, 0.0, 0.0, 0.0, 0.0);
    }
  }

  lemma NoFigures(sqrt: real -> real)
    ensures FiguresOf(sqrt, []) == Figures(0.0, 0.0, 0.0, 0.0, 0.0)
  {}
}
