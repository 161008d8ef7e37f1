/** What holds of every stability result, for any clock, stop flag and outcome of the cases. */
module StabilityLaws {
  import opened Options
  import opened Schedule
  import opened Stats
  import opened Spread
  import opened Sampling
  import opened Stability

  ghost predicate Reports(s: Schedule, x: Setting, r: Result) {
    Counts(s, x, r) && Measures(s, x, r) && Judged(x, r)
  }

  // ----- accounting -----

  function TotalOk(outcome: nat -> int, bs: seq<Batch>): nat {
    if bs == [] then 0 else TotalOk(outcome, bs[..|bs| - 1]) + Ok(outcome, bs[|bs| - 1])
  }

  lemma {:induction false} OkAddsUp(outcome: nat -> int, bs: seq<Batch>)
    requires Run(bs, AllCases, 0, 0).CoversFrom(0)
    ensures TotalOk(outcome, bs) == Successes(outcome, 0, TotalOf(bs))
  {
    hide Successes;
    NoCases(outcome, 0);
    if bs != [] {
      var last := bs[|bs| - 1];
      CoversInit(bs);
      hide Run.CoversFrom;
      OkAddsUp(outcome, bs[..|bs| - 1]);
      SuccessesAdd(outcome, 0, last.first, last.size);
    }
  }

  lemma CoversInit(bs: seq<Batch>)
    requires bs != [] && Run(bs, AllCases, 0, 0).CoversFrom(0)
    ensures var init := bs[..|bs| - 1];
      Run(init, AllCases, 0, 0).CoversFrom(0) && bs[|bs| - 1].first == TotalOf(init)
  {}

  /** Every execution is counted once: as an error or in the successes of its batch. */
  lemma EachCaseCountedOnce(s: Schedule, x: Setting, r: Result)
    requires Counts(s, x, r)
    ensures r.casesRun == r.totalExecutions <= s.maxCases
    ensures r.errorCount + TotalOk(x.outcome, s.Whole().batches) == r.totalExecutions
  {
    hide Successes, TotalOk, Schedule.RunFrom, Schedule.Whole;
    var bs := s.Whole().batches;
    assert Run(bs, AllCases, 0, 0).CoversFrom(0);
    OkAddsUp(x.outcome, bs);
  }

  lemma RateInRange(rate: real, errors: nat, n: nat)
    requires errors <= n && rate * n as real == errors as real * 100.0 && (n == 0 ==> rate == 0.0)
    ensures 0.0 <= rate <= 100.0
    ensures rate == 0.0 <==> errors == 0
    ensures rate == 100.0 <==> n > 0 && errors == n
  {
    if n > 0 {
      CompareRate(rate, 0.0, n as real);
      CompareRate(rate, 100.0, n as real);
    }
  }

  lemma CompareRate(a: real, b: real, d: real)
    requires d > 0.0
    ensures a < b <==> a * d < b * d
    ensures a == b <==> a * d == b * d
  {
    if a < b {
      Positive(b - a, d);
      assert (b - a) * d == b * d - a * d;
    } else if b < a {
      Positive(a - b, d);
      assert (a - b) * d == a * d - b * d;
    }
  }

  /** The error rate is a percentage: 0 when no case failed and 100 when every case that ran did. */
  lemma ErrorRateIsPercentage(s: Schedule, x: Setting, r: Result)
    requires Counts(s, x, r)
    ensures 0.0 <= r.errorRate <= 100.0
    ensures r.errorRate == 0.0 <==> r.errorCount == 0
    ensures r.errorRate == 100.0 <==> r.casesRun > 0 && r.errorCount == r.casesRun
  {
    hide Successes, Schedule.Whole;
    RateInRange(r.errorRate, r.errorCount, r.totalExecutions);
  }

  /** With the default error threshold of 0 a single failed case makes a run incorrect. */
  lemma DefaultAllowsNoError(s: Schedule, x: Setting, r: Result)
    requires Reports(s, x, r) && x.limits.errorRate == DEFAULTS.errorRate
    ensures r.correctnessStable <==> forall i :: 0 <= i < r.casesRun ==> x.outcome(i) == 0
  {
    hide Successes, Schedule.Whole, Measures;
    ErrorRateIsPercentage(s, x, r);
    AllSucceed(x.outcome, r.casesRun);
  }

  lemma {:induction false} AllSucceed(outcome: nat -> int, n: nat)
    ensures Successes(outcome, 0, n) == n <==> forall i :: 0 <= i < n ==> outcome(i) == 0
  {
    if n > 0 {
      AllSucceed(outcome, n - 1);
    }
  }

  // ----- what failing cases change -----

  /** Whatever the cases return, the same ones run and the run ends in the same way. */
  lemma FailuresDoNotEndRun(s: Schedule, x: Setting, y: Setting, r: Result, q: Result)
    requires Counts(s, x, r) && Counts(s, y, q)
    ensures r.casesRun == q.casesRun && r.totalExecutions == q.totalExecutions
    ensures r.elapsed == q.elapsed && r.interrupted == q.interrupted && r.failed == q.failed
  {}

  // ----- the two throughputs -----

  /** With bytes to count, the byte throughput varies by the same percentage as the case throughput. */
  lemma ByteRateVariesAlike(s: Schedule, x: Setting, r: Result)
    requires Measures(s, x, r) && IsSqrt(x.sqrt) && x.bytes > 0
    ensures r.byteRate.cv == r.throughput.cv
    ensures r.byteRate.mean == r.bytesPerCase as real * r.throughput.mean
  {
    hide Mean, Min, Max, Stddev, Cv, Scale, Schedule.Whole, Collect;
    var bs, b := s.Whole().batches, x.bytes as real;
    var rates := Collect(RateOf(s, x.outcome), bs);
    ByteRatesAreScaled(s, x.outcome, x.bytes, bs);
    Measured(s, x, r);
    CvIsScaleFree(x.sqrt, rates, b);
    MeanScales(rates, b);
  }

  lemma Measured(s: Schedule, x: Setting, r: Result)
    requires Measures(s, x, r)
    ensures var bs := s.Whole().batches;
      var rates, byteRates := Collect(RateOf(s, x.outcome), bs), Collect(ByteRateOf(s, x.outcome, x.bytes), bs);
      && r.throughput.cv == Cv(x.sqrt, rates) && r.byteRate.cv == Cv(x.sqrt, byteRates)
      && r.throughput.mean == Mean(rates) && r.byteRate.mean == Mean(byteRates)
  {
    hide Mean, Min, Max, Stddev, Cv, Schedule.Whole, Collect;
  }

  // ----- runs without a sample -----

  lemma {:induction false} NoSuccessNoSample(s: Schedule, x: Setting, bs: seq<Batch>)
    requires forall b :: b in bs ==> Ok(x.outcome, b) == 0
    ensures Collect(TimeOf(s, x.outcome), bs) == Collect(RateOf(s, x.outcome), bs) == []
    ensures Collect(CyclesOf(s, x.outcome, x.counter), bs) == []
  {
    if bs != [] {
      hide Ok;
      NoSuccessNoSample(s, x, bs[..|bs| - 1]);
    }
  }

  lemma {:induction false} NoBatchSucceeds(outcome: nat -> int, bs: seq<Batch>)
    requires TotalOk(outcome, bs) == 0
    ensures forall b :: b in bs ==> Ok(outcome, b) == 0
  {
    if bs != [] {
      var init := bs[..|bs| - 1];
      NoBatchSucceeds(outcome, init);
      assert bs == init + [bs[|bs| - 1]];
    }
  }

  /** Thresholds above a variation of 0. */
  predicate SomeVariationAllowed(x: Setting) {
    x.limits.throughputCv > 0.0 && x.limits.timeCv > 0.0 && (x.counter.Counting? ==> x.limits.cyclesCv > 0.0)
  }

  /** A run without one success, if only because no case ran, counts as one without variation. */
  lemma NoSuccessIsSteady(s: Schedule, x: Setting, r: Result)
    requires Reports(s, x, r) && r.errorCount == r.casesRun
    ensures r.sampleCount == 0 && (r.performanceStable <==> SomeVariationAllowed(x))
  {
    hide Schedule.Whole, Collect, FiguresOf, TotalOk, Successes, EvaluateRss, Run.Total;
    var bs := s.Whole().batches;
    EachCaseCountedOnce(s, x, r);
    NoBatchSucceeds(x.outcome, bs);
    NoSuccessNoSample(s, x, bs);
    NoFigures(x.sqrt);
  }

  /** What the schedule shows of a run without a case. */
  predicate EndsAtOnce(s: Schedule) {
    s.stop(0) || s.clock(1).None? || s.Between(0, 1) >= s.maxSeconds || s.clock(2).None?
  }

  lemma NoCaseRunsIff(s: Schedule, x: Setting, r: Result)
    requires ValidArguments(s) && Counts(s, x, r)
    ensures r.casesRun == 0 <==> EndsAtOnce(s)
  {
    hide Schedule.RunFrom;
    NoCaseIff(s);
  }

  /** Without a case a run is STABLE if and only if its memory is and the thresholds allow no errors
      and some variation, as the default ones do. */
  lemma EmptyRunIsStable(s: Schedule, x: Setting, r: Result)
    requires ValidArguments(s) && Reports(s, x, r) && EndsAtOnce(s)
    ensures r.status == "STABLE"
       <==> EvaluateRss(x.rssStart, x.rssEnd, x.limits).stable && SomeVariationAllowed(x) && x.limits.errorRate >= 0.0
  {
    hide Schedule.Whole, Successes, Collect, FiguresOf, EvaluateRss, EndsAtOnce;
    NoCaseRunsIff(s, x, r);
    NoSuccessIsSteady(s, x, r);
    ErrorRateIsPercentage(s, x, r);
    StatusesDiffer();
  }

  lemma StatusesDiffer()
    ensures "STABLE" != "UNSTABLE"
  {
    assert "STABLE"[0] != "UNSTABLE"[0];
  }

  // ----- the reasons -----

  /** An unstable result lists a reason, and a stable one lists only a missing cycle counter. */
  lemma ReasonsIffUnstable(s: Schedule, x: Setting, r: Result)
    requires Reports(s, x, r)
    ensures Reasons(r, x.counter) == "" <==> r.isStable && !x.counter.Unavailable?
  {
    hide Schedule.Whole, Counts;
    MemoryReasonIffUnstable(x, r);
    EmptyConcat(PerformanceReason(r.performanceStable), MemoryReason(r.memory));
    EmptyConcat(PerformanceReason(r.performanceStable) + MemoryReason(r.memory), ErrorReason(r.correctnessStable));
    EmptyConcat(PerformanceReason(r.performanceStable) + MemoryReason(r.memory) + ErrorReason(r.correctnessStable),
                CycleReason(x.counter));
  }

  lemma MemoryReasonIffUnstable(x: Setting, r: Result)
    requires r.memory == EvaluateRss(x.rssStart, x.rssEnd, x.limits)
    ensures MemoryReason(r.memory) == "" <==> r.memory.stable
  {}

  lemma EmptyConcat(s: string, t: string)
    ensures s + t == "" <==> s == "" && t == ""
  {
    assert |s + t| == |s| + |t|;
  }

  // ----- the status in the report -----

  datatype Status = Pass | Fail | Stopped

  /** run_stability_for_test of main.c. */
  function StatusOf(rc: int, r: Result): Status {
    if rc != 0 then Fail
    else if r.interrupted then Stopped
    else if r.status == "UNSTABLE" then Fail
    else Pass
  }

  /** The report passes a run without a single case if and only if the time was up at the first check,
      memory is stable and the thresholds allow no errors and some variation. */
  lemma EmptyPassIff(s: Schedule, x: Setting, r: Result, rc: int)
    requires ValidArguments(s) && Reports(s, x, r) && rc == (if r.failed then -1 else 0)
    ensures r.casesRun == 0 && StatusOf(rc, r) == Pass
       <==> && !s.stop(0) && s.clock(1).Some? && s.Between(0, 1) >= s.maxSeconds
            && EvaluateRss(x.rssStart, x.rssEnd, x.limits).stable && SomeVariationAllowed(x) && x.limits.errorRate >= 0.0
  {
    hide Successes, Collect, FiguresOf, EvaluateRss, SomeVariationAllowed, Reports;
    assert Counts(s, x, r) && (r.status == "STABLE" || r.status == "UNSTABLE") by {
      ReportsMore(s, x, r);
    }
    hide Measures;
    NoCaseRunsIff(s, x, r);
    StatusesDiffer();
    if EndsAtOnce(s) {
      EmptyRunIsStable(s, x, r);
      EndsAtOnceAs(s);
    }
    hide Schedule.Whole;
  }

  lemma ReportsMore(s: Schedule, x: Setting, r: Result)
    requires Reports(s, x, r)
    ensures Counts(s, x, r) && (r.status == "STABLE" || r.status == "UNSTABLE")
  {
    hide Counts, Measures;
  }

  /** How a run without a case ends. */
  lemma EndsAtOnceAs(s: Schedule)
    requires s.maxCases > 0 && EndsAtOnce(s)
    ensures s.Whole().ending
         == if s.stop(0) then Interrupted
            else if s.clock(1).None? || s.Between(0, 1) < s.maxSeconds then ClockFailed
            else TimeUp
  {}

  /** An hour's run whose first check of the clock comes after the hour. */
  const LATE := Schedule((i: nat) => Some(3600.0 * i as real), (i: nat) => false, 1000, 3600.0, 100.0)

  /** It passes under the default thresholds although no case has run, whatever the cases would return. */
  method LatePasses(outcome: nat -> int, bytes: nat, sqrt: real -> real, reasons: array<char>)
    returns (rc: int, r: Result)
    requires reasons.Length == REASON_LEN
    modifies reasons
    ensures r.casesRun == 0 && StatusOf(rc, r) == Pass
  {
    var x := Setting(outcome, bytes, Disabled, 1000000, 1000000, DEFAULTS, sqrt);
    var result;
    rc, result := RunStability(LATE, x, reasons);
    r := result.value;
    MemoryStableIff(1000000, 1000000, DEFAULTS);
    EmptyPassIff(LATE, x, r, rc);
  }

  /** A passing run ended by its own limits; its failed cases, its memory and its variation are within
      the thresholds, the byte throughput included; and no reason but a missing cycle counter is listed. */
  lemma PassMeans(s: Schedule, x: Setting, r: Result, rc: int)
    requires Reports(s, x, r) && rc == (if r.failed then -1 else 0)
    requires StatusOf(rc, r) == Pass
    ensures var run := s.Whole();
      (run.ending == AllCases && r.casesRun == s.maxCases)
      || (run.ending == TimeUp && run.readings > 0 && s.Between(0, run.readings - 1) >= s.maxSeconds)
    ensures r.errorCount as real * 100.0 <= x.limits.errorRate * r.casesRun as real
    ensures x.limits.errorRate == 0.0 ==> forall i :: 0 <= i < r.casesRun ==> x.outcome(i) == 0
    ensures r.memory.stable && r.throughput.cv < x.limits.throughputCv && r.time.cv < x.limits.timeCv
    ensures IsSqrt(x.sqrt) && x.bytes > 0 ==> r.byteRate.cv < x.limits.throughputCv
    ensures Reasons(r, x.counter) == CycleReason(x.counter)
  {
    hide FiguresOf, Collect, EvaluateRss, Successes, Schedule.RunFrom;
    EndingIsEarned(s, 0, 1, 0);
    if x.limits.errorRate == 0.0 {
      DefaultAllowsNoError(s, x, r);
    }
    if IsSqrt(x.sqrt) && x.bytes > 0 {
      ByteRateVariesAlike(s, x, r);
    }
    RateScales(r.errorRate, x.limits.errorRate, r.casesRun);
    MemoryReasonIffUnstable(x, r);
  }

  lemma RateScales(a: real, b: real, n: nat)
    requires a <= b
    ensures a * n as real <= b * n as real
  {}

  /** With the default error threshold a failed case fails the report, unless the run was stopped. */
  lemma FailedCaseFailsReport(s: Schedule, x: Setting, r: Result, rc: int, i: nat)
    requires Reports(s, x, r) && x.limits.errorRate == DEFAULTS.errorRate && rc == (if r.failed then -1 else 0)
    requires i < r.casesRun && x.outcome(i) != 0
    ensures StatusOf(rc, r) == if r.interrupted && !r.failed then Stopped else Fail
  {
    hide Schedule.Whole, Measures, Successes;
    DefaultAllowsNoError(s, x, r);
  }

  // ----- the default thresholds -----

  /** Judged by the defaults a run is stable if and only if no case failed, every variation is below five
      percent, and memory was measured and grew by less than a hundredth and less than 100000 bytes. */
  lemma DefaultVerdict(s: Schedule, x: Setting, r: Result)
    requires Reports(s, x, r) && x.limits == DEFAULTS
    ensures r.status == "STABLE"
       <==> && (forall i :: 0 <= i < r.casesRun ==> x.outcome(i) == 0)
            && r.throughput.cv < 5.0 && r.time.cv < 5.0 && (x.counter.Counting? ==> r.cycles.cv < 5.0)
            && x.rssStart > 0 && x.rssEnd > 0
            && x.rssEnd - x.rssStart < 100_000
            && (x.rssEnd - x.rssStart) as real * 100.0 < x.rssStart as real
  {
    hide Counts, EvaluateRss, Cv, Collect, Schedule.Whole;
    DefaultAllowsNoError(s, x, r);
    MemoryStableIff(x.rssStart, x.rssEnd, DEFAULTS);
    StatusesDiffer();
  }

  /** The text of the reasons, for each cause and for all of them together. */
  lemma ReasonTexts(r: Result, counter: Counter)
    ensures var text := Reasons(r, counter);
      var p, c, u := r.performanceStable, r.correctnessStable, counter.Unavailable?;
      var unread := r.memory.start == 0 || r.memory.end == 0;
      && (p && c && !u && !unread && r.memory.stable ==> text == "")
      && (!p && c && !u && !unread && r.memory.stable ==> text == "performance fluctuation; ")
      && (p && !c && !u && !unread && r.memory.stable ==> text == "runtime errors; ")
      && (p && c && !u && !unread && !r.memory.stable ==> text == "memory growth; ")
      && (p && c && u && !unread && r.memory.stable ==> text == "cycle counter unavailable; ")
      && (!p && !c && u && unread ==>
          text == "performance fluctuation; " + "rss measurement unavailable; "
                  + "runtime errors; " + "cycle counter unavailable; ")
  {}
}
