/** The sampling loops of ngcc_run_stability. */
module Sampling {
  import opened Options
  import opened Schedule
  import opened Stats

  /** The cycle counter; a running one gives the cycles of the batch that starts with a case. */
  datatype Counter = Disabled | Unavailable | Counting(cycles: nat -> nat)

  /** How many of n cases from number first return 0. */
  function Successes(outcome: nat -> int, first: nat, n: nat): (r: nat)
    ensures r <= n
  {
    if n == 0 then 0
    else Successes(outcome, first, n - 1) + (if outcome(first + n - 1) == 0 then 1 else 0)
  }

  function Failures(outcome: nat -> int, first: nat, n: nat): nat {
    n - Successes(outcome, first, n)
  }

  lemma {:induction false} SuccessesAdd(outcome: nat -> int, first: nat, m: nat, n: nat)
    ensures Successes(outcome, first, m + n) == Successes(outcome, first, m) + Successes(outcome, first + m, n)
  {
    if n > 0 {
      SuccessesAdd(outcome, first, m, n - 1);
    }
  }

  // ----- what a batch contributes -----

  function Optional(o: Option<real>): seq<real> {
    match o
    case None => []
    case Some(x) => [x]
  }

  /** One sample from each batch that gives one. */
  function Collect(f: Batch -> Option<real>, bs: seq<Batch>): (r: seq<real>)
    ensures |r| <= |bs|
  {
    if bs == [] then [] else Collect(f, bs[..|bs| - 1]) + Optional(f(bs[|bs| - 1]))
  }

  lemma CollectNext(f: Batch -> Option<real>, bs: seq<Batch>, b: Batch)
    ensures f(b).None? ==> Collect(f, bs + [b]) == Collect(f, bs)
    ensures f(b).Some? ==> Collect(f, bs + [b]) == Collect(f, bs) + [f(b).value]
  {
    assert (bs + [b])[..|bs|] == bs;
  }

  function Ok(outcome: nat -> int, b: Batch): nat {
    Successes(outcome, b.first, b.size)
  }

  /** A batch counts when its end was timed and a case succeeded. */
  predicate Sampled(s: Schedule, outcome: nat -> int, b: Batch) {
    s.Measured(b) && Ok(outcome, b) > 0
  }

  /** Milliseconds per successful case. */
  function TimeOf(s: Schedule, outcome: nat -> int): Batch -> Option<real> {
    b => if Sampled(s, outcome, b) then Some(s.Ms(b) / Ok(outcome, b) as real) else None
  }

  /** Successful cases per second, when time has passed. */
  function RateOf(s: Schedule, outcome: nat -> int): Batch -> Option<real> {
    b =>
      if Sampled(s, outcome, b) && s.Ms(b) > 0.0 then Some(Ok(outcome, b) as real * 1000.0 / s.Ms(b))
      else None
  }

  function Times(o: Option<real>, b: real): Option<real> {
    if o.Some? then Some(Scaled(o.value, b)) else None
  }

  /** Bytes per second. */
  function ByteRateOf(s: Schedule, outcome: nat -> int, bytes: nat): Batch -> Option<real> {
    b => if bytes > 0 then Times(RateOf(s, outcome)(b), bytes as real) else None
  }

  /** Cycles per successful case. */
  function CyclesOf(s: Schedule, outcome: nat -> int, counter: Counter): Batch -> Option<real> {
    b =>
      if Sampled(s, outcome, b) && counter.Counting?
      then Some(counter.cycles(b.first) as real / Ok(outcome, b) as real)
      else None
  }

  lemma {:induction false} CollectScales(f: Batch -> Option<real>, g: Batch -> Option<real>, b: real, bs: seq<Batch>)
    requires forall x :: g(x) == Times(f(x), b)
    ensures Collect(g, bs) == Scale(Collect(f, bs), b)
  {
    if bs != [] {
      var n := |bs| - 1;
      CollectScales(f, g, b, bs[..n]);
      ScaleAppends(Collect(f, bs[..n]), f(bs[n]), b);
    }
  }

  lemma ScaleAppends(r: seq<real>, o: Option<real>, b: real)
    ensures Scale(r + Optional(o), b) == Scale(r, b) + Optional(Times(o, b))
  {
    hide Scale, Scaled;
    if o.Some? {
      ScaleNext(r, o.value, b);
    } else {
      assert r + [] == r;
    }
  }

  /** The byte rates are the case rates times the bytes of a case. */
  lemma ByteRatesAreScaled(s: Schedule, outcome: nat -> int, bytes: nat, bs: seq<Batch>)
    requires bytes > 0
    ensures Collect(ByteRateOf(s, outcome, bytes), bs) == Scale(Collect(RateOf(s, outcome), bs), bytes as real)
  {
    CollectScales(RateOf(s, outcome), ByteRateOf(s, outcome, bytes), bytes as real, bs);
  }

  /** Only sampled batches give rates, so there are at most as many rates as times. */
  lemma {:induction false} FewerRatesThanTimes(s: Schedule, outcome: nat -> int, bs: seq<Batch>)
    ensures |Collect(RateOf(s, outcome), bs)| <= |Collect(TimeOf(s, outcome), bs)|
  {
    if bs != [] {
      FewerRatesThanTimes(s, outcome, bs[..|bs| - 1]);
    }
  }

  // ----- the loops -----

  lemma NoCases(outcome: nat -> int, first: nat)
    ensures Successes(outcome, first, 0) == 0
  {}

  lemma OneMoreOutcome(outcome: nat -> int, first: nat, n: nat)
    ensures Successes(outcome, first, n + 1)
         == Successes(outcome, first, n) + (if outcome(first + n) == 0 then 1 else 0)
  {}

  /** n cases of a batch have run and none has ended it. */
  ghost predicate Going(s: Schedule, first: nat, c: nat, look: nat, n: nat) {
    first + n < s.maxCases && s.Size(first, c, look, 1) == s.Size(first, c, look, n + 1)
  }

  lemma Start(s: Schedule, first: nat, c: nat, look: nat)
    requires first < s.maxCases
    ensures Going(s, first, c, look, 0)
  {}

  lemma StillRoom(s: Schedule, first: nat, c: nat, look: nat, n: nat)
    requires Going(s, first, c, look, n)
    ensures first + n < s.maxCases
  {}

  lemma OneMoreCase(s: Schedule, first: nat, c: nat, look: nat, n: nat)
    requires Going(s, first, c, look, n) && !s.Ends(first, c, look, n + 1)
    ensures Going(s, first, c, look, n + 1)
  {}

  lemma BatchIs(s: Schedule, first: nat, c: nat, look: nat, n: nat)
    requires Going(s, first, c, look, n) && s.Ends(first, c, look, n + 1)
    ensures var halted, t := s.Halts(first, look, n + 1), c + n + 1;
      s.NextBatch(first, c, look) == Batch(first, n + 1, c, if halted then t else t + 1, !halted && s.clock(t).None?)
  {}

  /** The checks after a case: whether it is the last of its batch. */
  method AfterCase(s: Schedule, cases: nat, c: nat, t: nat, look: nat) returns (last: bool, failed: bool, t': nat)
    ensures var halted := s.stop(look) || cases >= s.maxCases;
      && (last <==> halted || s.Late(c, t))
      && (failed <==> !halted && s.clock(t).None?)
      && t' == if halted then t else t + 1
  {
    if s.stop(look) || cases >= s.maxCases {
      return true, false, t;
    }
    var now := s.clock(t);
    if now.None? {
      return true, true, t + 1;
    }
    var batchMs := (now.value - s.Seconds(c)) * 1000.0;
    if batchMs >= s.targetMs {
      return true, false, t + 1;
    }
    var elapsed := now.value - s.Seconds(0);
    last, failed, t' := elapsed >= s.maxSeconds, false, t + 1;
  }

  /** The inner loop: one batch, from clock reading c and a look at the stop flag before it. */
  method RunBatch(s: Schedule, outcome: nat -> int, casesRun: nat, totalExecutions: nat, errorCount: nat,
                  c: nat, look: nat)
    returns (cases: nat, executions: nat, errors: nat, batchOk: nat, batchFailed: bool, t: nat, looks: nat)
    requires casesRun == totalExecutions < s.maxCases
    ensures var b := s.NextBatch(casesRun, c, look);
      && cases == executions == casesRun + b.size
      && batchOk == Ok(outcome, b)
      && errors == errorCount + Failures(outcome, b.first, b.size)
      && batchFailed == b.failed && t == b.end && looks == look + b.size + 1
  {
    hide Schedule.NextBatch, Schedule.RunFrom, Schedule.Late, Going, Successes;
    Start(s, casesRun, c, look);
    NoCases(outcome, casesRun);
    cases, executions, errors, batchOk, batchFailed := casesRun, totalExecutions, errorCount, 0, false;
    t, looks := c + 1, look + 1;
    ghost var n := 0;
    while true
      invariant cases == executions == casesRun + n
      invariant batchOk == Successes(outcome, casesRun, n)
      invariant errors == errorCount + n - batchOk
      invariant t == c + n + 1 && looks == look + n + 1
      invariant Going(s, casesRun, c, look, n)
      decreases s.maxCases - cases
    {
      StillRoom(s, casesRun, c, look, n);
      OneMoreOutcome(outcome, casesRun, n);
      var rc := outcome(executions);
      executions := executions + 1;
      if rc != 0 {
        errors := errors + 1;
      } else {
        batchOk := batchOk + 1;
      }
      cases := cases + 1;
      var last;
      last, batchFailed, t := AfterCase(s, cases, c, t, looks);
      looks := looks + 1;
      if last {
        BatchIs(s, casesRun, c, look, n);
        break;
      }
      OneMoreCase(s, casesRun, c, look, n);
      n := n + 1;
    }
  }

  /** The four running statistics of a run. */
  class Meters {
    const time: RunningStats
    const rate: RunningStats
    const byteRate: RunningStats
    const cycles: RunningStats
    var sampleCount: nat

    ghost predicate Apart() {
      time != rate && time != byteRate && time != cycles
      && rate != byteRate && rate != cycles && byteRate != cycles
    }

    /** Every statistic is that of the samples of the batches so far. */
    ghost predicate Describe(s: Schedule, outcome: nat -> int, bytes: nat, counter: Counter, bs: seq<Batch>)
      reads this, time, rate, byteRate, cycles
    {
      Apart()
      && time.Describes(Collect(TimeOf(s, outcome), bs))
      && rate.Describes(Collect(RateOf(s, outcome), bs))
      && byteRate.Describes(Collect(ByteRateOf(s, outcome, bytes), bs))
      && cycles.Describes(Collect(CyclesOf(s, outcome, counter), bs))
      && sampleCount == time.count
    }

    constructor (ghost s: Schedule, ghost outcome: nat -> int, ghost bytes: nat, ghost counter: Counter)
      ensures Describe(s, outcome, bytes, counter, [])
      ensures fresh(time) && fresh(rate) && fresh(byteRate) && fresh(cycles)
    {
      time := new RunningStats();
      rate := new RunningStats();
      byteRate := new RunningStats();
      cycles := new RunningStats();
      sampleCount := 0;
    }

    /** What a batch whose end was timed adds. */
    method Record(s: Schedule, ghost outcome: nat -> int, bytes: nat, counter: Counter,
                  ghost bs: seq<Batch>, b: Batch, batchOk: nat)
      requires Describe(s, outcome, bytes, counter, bs)
      requires s.Measured(b) && batchOk == Ok(outcome, b)
      modifies this, time, rate, byteRate, cycles
      ensures Describe(s, outcome, bytes, counter, bs + [b])
    {
      hide RunningStats.Describes, Collect, Ok, Scaled, Schedule.Ms, Schedule.RunFrom;
      CollectNext(TimeOf(s, outcome), bs, b);
      CollectNext(RateOf(s, outcome), bs, b);
      CollectNext(ByteRateOf(s, outcome, bytes), bs, b);
      CollectNext(CyclesOf(s, outcome, counter), bs, b);
      ghost var times := Collect(TimeOf(s, outcome), bs);
      ghost var rates := Collect(RateOf(s, outcome), bs);
      ghost var byteRates := Collect(ByteRateOf(s, outcome, bytes), bs);
      ghost var cycleSamples := Collect(CyclesOf(s, outcome, counter), bs);
      var batchMs := s.Ms(b);
      if batchOk > 0 {
        var avgCaseMs := batchMs / batchOk as real;
        sampleCount := sampleCount + 1;
        time.Update(avgCaseMs, times);
        if batchMs > 0.0 {
          var throughput := batchOk as real * 1000.0 / batchMs;
          rate.Update(throughput, rates);
          if bytes > 0 {
            byteRate.Update(Scaled(throughput, bytes as real), byteRates);
          }
        }
        if counter.Counting? {
          cycles.Update(counter.cycles(b.first) as real / batchOk as real, cycleSamples);
        }
      }
    }
  }

  function TotalOf(bs: seq<Batch>): nat {
    Run(bs, AllCases, 0, 0).Total(0)
  }

  /** The batches so far and the rest from here are the whole run. */
  ghost predicate Reached(s: Schedule, done: seq<Batch>, cases: nat, t: nat, look: nat) {
    cases <= s.maxCases && s.Whole() == After(done, s.RunFrom(cases, t, look))
  }

  lemma StopBefore(s: Schedule, done: seq<Batch>, cases: nat, t: nat, look: nat)
    requires Reached(s, done, cases, t, look) && s.Before(cases, t, look).Some?
    ensures var r := s.Before(cases, t, look).value; s.Whole() == r.(batches := done)
  {
    hide Schedule.Before, Schedule.Whole;
    assert done + [] == done;
  }

  lemma StopBehind(s: Schedule, done: seq<Batch>, cases: nat, t: nat, look: nat)
    requires Reached(s, done, cases, t, look) && s.Before(cases, t, look).None?
    requires var b := s.NextBatch(cases, t + 1, look); s.Behind(b, look + b.size + 1).Some?
    ensures var b := s.NextBatch(cases, t + 1, look);
      var r := s.Behind(b, look + b.size + 1).value; s.Whole() == r.(batches := done + [b])
  {
    hide Schedule.NextBatch, Schedule.Before, Schedule.Behind, Schedule.Whole, Run.Total, Run.CoversFrom;
  }

  lemma GoOn(s: Schedule, done: seq<Batch>, cases: nat, t: nat, look: nat)
    requires Reached(s, done, cases, t, look) && s.Before(cases, t, look).None?
    requires var b := s.NextBatch(cases, t + 1, look); s.Behind(b, look + b.size + 1).None?
    ensures var b := s.NextBatch(cases, t + 1, look);
      Reached(s, done + [b], cases + b.size, b.end + 1, look + b.size + 2)
  {
    hide Schedule.NextBatch, Schedule.Before, Schedule.Behind, Schedule.Whole, Run.Total, Run.CoversFrom;
    var b := s.NextBatch(cases, t + 1, look);
    var rest := s.RunFrom(cases + b.size, b.end + 1, look + b.size + 2);
    assert done + ([b] + rest.batches) == (done + [b]) + rest.batches;
  }

  /** The checks before a batch: how the run ends here, or the clock reading that starts the batch. */
  method StartBatch(s: Schedule, cases: nat, t: nat, look: nat) returns (ending: Option<Ending>, t': nat)
    ensures match s.Before(cases, t, look)
      case Some(r) => ending == Some(r.ending) && t' == r.readings
      case None => ending == None && t' == t + 2
  {
    if s.stop(look) {
      return Some(Interrupted), t;
    }
    if cases >= s.maxCases {
      return Some(AllCases), t;
    }
    var now := s.clock(t);
    if now.None? {
      return Some(ClockFailed), t + 1;
    }
    var elapsed := now.value - s.Seconds(0);
    if elapsed >= s.maxSeconds {
      return Some(TimeUp), t + 1;
    }
    if s.clock(t + 1).None? {
      return Some(ClockFailed), t + 2;
    }
    return None, t + 2;
  }

  /** What follows a batch: its end is timed, its samples recorded, and the run may end. */
  method EndBatch(s: Schedule, ghost outcome: nat -> int, bytes: nat, counter: Counter,
                  ghost done: seq<Batch>, b: Batch, batchOk: nat, look: nat, m: Meters)
    returns (ending: Option<Ending>)
    requires m.Describe(s, outcome, bytes, counter, done) && batchOk == Ok(outcome, b)
    modifies m, m.time, m.rate, m.byteRate, m.cycles
    ensures m.Describe(s, outcome, bytes, counter, done + [b])
    ensures match s.Behind(b, look)
      case Some(r) => ending == Some(r.ending)
      case None => ending == None
  {
    hide Meters.Describe, Ok;
    if s.clock(b.end).None? {
      RecordNothing(m, s, outcome, bytes, counter, done, b);
      return Some(ClockFailed);
    }
    m.Record(s, outcome, bytes, counter, done, b, batchOk);
    if b.failed {
      return Some(ClockFailed);
    }
    return if s.stop(look) then Some(Interrupted) else None;
  }

  /** The outer loop; reading 0 of the clock has been taken. */
  method RunLoop(s: Schedule, outcome: nat -> int, bytes: nat, counter: Counter)
    returns (cases: nat, executions: nat, errors: nat, interrupted: bool, failed: bool, t: nat, m: Meters)
    ensures var r := s.Whole();
      && cases == executions == TotalOf(r.batches)
      && errors == Failures(outcome, 0, cases)
      && (interrupted <==> r.ending == Interrupted)
      && (failed <==> r.ending == ClockFailed)
      && t == r.readings
      && m.Describe(s, outcome, bytes, counter, r.batches)
    ensures fresh(m) && fresh(m.time) && fresh(m.rate) && fresh(m.byteRate) && fresh(m.cycles)
  {
    hide Schedule.RunFrom, Schedule.NextBatch, Schedule.Before, Schedule.Behind, Schedule.Whole;
    hide Reached, Meters.Describe, Successes;
    WholeRun(s);
    var look := 0;
    cases, executions, errors, t := 0, 0, 0, 1;
    NoCases(outcome, 0);
    m := new Meters(s, outcome, bytes, counter);
    ghost var done: seq<Batch> := [];
    var ending;
    while true
      invariant cases == executions == TotalOf(done) <= s.maxCases
      invariant errors == Failures(outcome, 0, cases)
      invariant Reached(s, done, cases, t, look)
      invariant m.Describe(s, outcome, bytes, counter, done)
      invariant fresh(m) && fresh(m.time) && fresh(m.rate) && fresh(m.byteRate) && fresh(m.cycles)
      decreases s.maxCases - cases
    {
      ghost var t0, look0 := t, look;
      ending, t := StartBatch(s, cases, t, look);
      if ending.Some? {
        StopBefore(s, done, cases, t0, look0);
        break;
      }
      var first, start, batchOk, batchFailed := cases, t - 1, 0, false;
      cases, executions, errors, batchOk, batchFailed, t, look :=
        RunBatch(s, outcome, cases, executions, errors, start, look);
      var b := Batch(first, cases - first, start, t, batchFailed);
      assert b == s.NextBatch(first, start, look0);
      SuccessesAdd(outcome, 0, first, b.size);
      ending := EndBatch(s, outcome, bytes, counter, done, b, batchOk, look, m);
      t, look := t + 1, look + 1;
      if ending.Some? {
        StopBehind(s, done, first, t0, look0);
        done := done + [b];
        break;
      }
      GoOn(s, done, first, t0, look0);
      done := done + [b];
    }
    interrupted, failed := ending == Some(Interrupted), ending == Some(ClockFailed);
  }

  lemma WholeRun(s: Schedule)
    ensures Reached(s, [], 0, 1, 0)
  {}

  /** A batch whose end was not timed adds nothing. */
  lemma RecordNothing(m: Meters, s: Schedule, outcome: nat -> int, bytes: nat, counter: Counter,
                      bs: seq<Batch>, b: Batch)
    requires m.Describe(s, outcome, bytes, counter, bs) && !s.Measured(b)
    ensures m.Describe(s, outcome, bytes, counter, bs + [b])
  {
    hide RunningStats.Describes, Collect;
    CollectNext(TimeOf(s, outcome), bs, b);
    CollectNext(RateOf(s, outcome), bs, b);
    CollectNext(ByteRateOf(s, outcome, bytes), bs, b);
    CollectNext(CyclesOf(s, outcome, counter), bs, b);
  }
}
