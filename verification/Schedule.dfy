/** What the clock and the stop flag make of a stability run, whatever the cases return. */
module Schedule {
  import opened Options

  /** The n-th reading of the clock in seconds, the n-th look at the stop flag, and the limits. */
  datatype Schedule = Schedule(clock: nat -> Option<real>, stop: nat -> bool,
                               maxCases: nat, maxSeconds: real, targetMs: real) {
    function Seconds(i: nat): real {
      clock(i).GetOr(0.0)
    }

    /** Seconds between two readings of the clock. */
    function Between(i: nat, j: nat): real {
      Seconds(j) - Seconds(i)
    }

    /** Reading i ends the batch begun at reading c: no clock, long enough a batch, or time is up. */
    predicate Late(c: nat, i: nat) {
      clock(i).None? || Between(c, i) * 1000.0 >= targetMs || Between(0, i) >= maxSeconds
    }

    /** Case n of a batch needs no reading of the clock to be its last. */
    predicate Halts(first: nat, look: nat, n: nat) {
      stop(look + n) || first + n >= maxCases
    }

    predicate Ends(first: nat, c: nat, look: nat, n: nat) {
      Halts(first, look, n) || Late(c, c + n)
    }

    /** The number of cases in a batch that has run n: it stops at the first one that ends it. */
    function Size(first: nat, c: nat, look: nat, n: nat): (r: nat)
      requires first + n <= maxCases
      ensures n <= r && first + r <= maxCases && Ends(first, c, look, r)
      ensures forall k :: n <= k < r ==> !Ends(first, c, look, k)
      decreases maxCases - first - n
    {
      if Ends(first, c, look, n) then n else Size(first, c, look, n + 1)
    }

    /** The batch that starts with case first, clock reading c and a look at the stop flag. */
    function NextBatch(first: nat, c: nat, look: nat): (b: Batch)
      requires first < maxCases
      ensures b.first == first && b.start == c && 0 < b.size <= maxCases - first
    {
      var n := Size(first, c, look, 1);
      var halted := Halts(first, look, n);
      Batch(first, n, c, if halted then c + n else c + n + 1, !halted && clock(c + n).None?)
    }

    /** A measured batch has a reading of the clock at its end. */
    predicate Measured(b: Batch) {
      clock(b.end).Some?
    }

    function Ms(b: Batch): real {
      Between(b.start, b.end) * 1000.0
    }

    /** What ends the run before another batch begins. */
    function Before(first: nat, t: nat, look: nat): (r: Option<Run>)
      ensures r.Some? ==> r.value.batches == []
      ensures r.None? ==> first < maxCases && clock(t).Some? && clock(t + 1).Some?
    {
      if stop(look) then Some(Run([], Interrupted, t, look + 1))
      else if first >= maxCases then Some(Run([], AllCases, t, look + 1))
      else if clock(t).None? then Some(Run([], ClockFailed, t + 1, look + 1))
      else if Between(0, t) >= maxSeconds then Some(Run([], TimeUp, t + 1, look + 1))
      else if clock(t + 1).None? then Some(Run([], ClockFailed, t + 2, look + 1))
      else None
    }

    /** What ends it right after a batch: a clock that failed, without a look at the flag, or the flag. */
    function Behind(b: Batch, look: nat): (r: Option<Run>)
      ensures r.Some? ==> r.value.batches == [b] && r.value.readings == b.end + 1
      ensures r.None? ==> Measured(b) && !b.failed
    {
      if !Measured(b) || b.failed then Some(Run([b], ClockFailed, b.end + 1, look))
      else if stop(look) then Some(Run([b], Interrupted, b.end + 1, look + 1))
      else None
    }

    /** The rest of the run from case first, clock reading t and a look at the stop flag. */
    function RunFrom(first: nat, t: nat, look: nat): (r: Run)
      requires first <= maxCases
      ensures r.CoversFrom(first) && first <= r.Total(first) <= maxCases
      decreases maxCases - first
    {
      if Before(first, t, look).Some? then Before(first, t, look).value
      else
        var b := NextBatch(first, t + 1, look);
        if Behind(b, look + b.size + 1).Some? then Behind(b, look + b.size + 1).value
        else
          var rest := RunFrom(first + b.size, b.end + 1, look + b.size + 2);
          rest.(batches := [b] + rest.batches)
    }

    /** The whole run; reading 0 of the clock has set its origin. */
    function Whole(): (r: Run)
      ensures r.CoversFrom(0) && r.Total(0) <= maxCases
    {
      RunFrom(0, 1, 0)
    }
  }

  /** Cases first to first + size, between two readings of the clock. */
  datatype Batch = Batch(first: nat, size: nat, start: nat, end: nat, failed: bool)

  datatype Ending = AllCases | TimeUp | Interrupted | ClockFailed

  /** The batches, why they ended, and how often the clock was read and the flag looked at. */
  datatype Run = Run(batches: seq<Batch>, ending: Ending, readings: nat, looks: nat) {
    function Total(first: nat): nat {
      if batches == [] then first
      else
        var b := batches[|batches| - 1];
        b.first + b.size
    }

    /** The batches are non-empty and follow one another without gap or overlap. */
    predicate CoversFrom(first: nat) {
      (forall b :: b in batches ==> b.size > 0)
      && (batches != [] ==> batches[0].first == first)
      && forall i :: 0 < i < |batches| ==> batches[i].first == batches[i - 1].first + batches[i - 1].size
    }
  }

  /** The rest of a run, after the batches that came before it. */
  function After(done: seq<Batch>, rest: Run): Run {
    rest.(batches := done + rest.batches)
  }

  /** What the run itself saw when it ended: its last look at the flag, or its last readings. */
  predicate Earned(s: Schedule, r: Run, total: nat) {
    match r.ending
    case AllCases => total == s.maxCases && LastLook(s, r, false)
    case TimeUp =>
      r.readings > 0 && s.clock(r.readings - 1).Some? && s.Between(0, r.readings - 1) >= s.maxSeconds
      && LastLook(s, r, false)
    case Interrupted => LastLook(s, r, true)
    case ClockFailed =>
      r.readings > 1 && (s.clock(r.readings - 1).None? || (r.readings > 2 && s.clock(r.readings - 2).None?))
  }

  predicate LastLook(s: Schedule, r: Run, raised: bool) {
    r.looks > 0 && s.stop(r.looks - 1) == raised
  }

  lemma EarnedBefore(s: Schedule, first: nat, t: nat, look: nat)
    requires first <= s.maxCases && t > 0 && s.Before(first, t, look).Some?
    ensures var r := s.Before(first, t, look).value; Earned(s, r, r.Total(first))
  {}

  lemma EarnedBehind(s: Schedule, b: Batch, look: nat)
    requires s.Behind(b, look).Some? && b.end > 1 && (b.failed ==> s.clock(b.end - 1).None?)
    ensures var r := s.Behind(b, look).value; Earned(s, r, r.Total(b.first))
  {}

  /** The readings of a batch: its end comes after its start, and only a failed batch has one without
      a clock, the one before its end. */
  lemma BatchReadings(s: Schedule, first: nat, c: nat, look: nat)
    requires first < s.maxCases
    ensures var b := s.NextBatch(first, c, look);
      && b.end > c
      && (b.failed ==> s.clock(b.end - 1).None?)
      && (!b.failed ==> forall k :: c < k < b.end ==> s.clock(k).Some?)
  {
    var n := s.Size(first, c, look, 1);
    forall k | c < k < c + n
      ensures s.clock(k).Some?
    {
      assert !s.Ends(first, c, look, k - c);
    }
  }

  lemma Longer(b: Batch, rest: Run)
    ensures var r := rest.(batches := [b] + rest.batches);
      r.Total(b.first) == rest.Total(b.first + b.size)
  {}

  lemma EarnedLonger(s: Schedule, b: Batch, rest: Run)
    requires Earned(s, rest, rest.Total(b.first + b.size))
    ensures var r := rest.(batches := [b] + rest.batches); Earned(s, r, r.Total(b.first))
  {
    Longer(b, rest);
  }

  /** The run ends only with its cases used up or the clock past the limit, or because its last look
      at the flag or one of its last two readings of the clock says so. */
  lemma {:induction false} EndingIsEarned(s: Schedule, first: nat, t: nat, look: nat)
    requires first <= s.maxCases && t > 0
    ensures var r := s.RunFrom(first, t, look); Earned(s, r, r.Total(first))
    decreases s.maxCases - first
  {
    hide Schedule.NextBatch, Schedule.Behind, Earned, Run.Total, Run.CoversFrom;
    if s.Before(first, t, look).Some? {
      EarnedBefore(s, first, t, look);
    } else {
      var b := s.NextBatch(first, t + 1, look);
      hide Schedule.Before;
      BatchReadings(s, first, t + 1, look);
      if s.Behind(b, look + b.size + 1).Some? {
        EarnedBehind(s, b, look + b.size + 1);
      } else {
        EndingIsEarned(s, first + b.size, b.end + 1, look + b.size + 2);
        EarnedLonger(s, b, s.RunFrom(first + b.size, b.end + 1, look + b.size + 2));
      }
    }
  }

  ghost predicate ReadingsSucceed(s: Schedule, from: nat, to: nat) {
    forall k :: from <= k < to ==> s.clock(k).Some?
  }

  lemma SucceedBefore(s: Schedule, first: nat, t: nat, look: nat)
    requires s.Before(first, t, look).Some?
    ensures var r := s.Before(first, t, look).value; r.ending != ClockFailed ==> ReadingsSucceed(s, t, r.readings)
  {}

  lemma SucceedBatch(s: Schedule, first: nat, t: nat, look: nat)
    requires s.Before(first, t, look).None?
    ensures var b := s.NextBatch(first, t + 1, look);
      s.Measured(b) && !b.failed ==> ReadingsSucceed(s, t, b.end + 1)
  {
    hide Schedule.NextBatch, Schedule.Before;
    BatchReadings(s, first, t + 1, look);
  }

  /** If it does not end with a failed clock, no reading it took has failed. */
  lemma {:induction false} EveryReadingSucceeds(s: Schedule, first: nat, t: nat, look: nat)
    requires first <= s.maxCases
    ensures var r := s.RunFrom(first, t, look); r.ending != ClockFailed ==> ReadingsSucceed(s, t, r.readings)
    decreases s.maxCases - first
  {
    hide Schedule.NextBatch, Schedule.Before, Run.Total, Run.CoversFrom;
    if s.Before(first, t, look).Some? {
      SucceedBefore(s, first, t, look);
    } else {
      var b := s.NextBatch(first, t + 1, look);
      SucceedBatch(s, first, t, look);
      if s.Behind(b, look + b.size + 1).None? {
        hide Schedule.Behind;
        EveryReadingSucceeds(s, first + b.size, b.end + 1, look + b.size + 2);
      }
    }
  }

  /** The run ends with a failed clock if and only if a reading it took failed. */
  lemma ClockFailedIff(s: Schedule)
    ensures s.Whole().ending == ClockFailed <==> !ReadingsSucceed(s, 1, s.Whole().readings)
  {
    hide Schedule.RunFrom;
    EndingIsEarned(s, 0, 1, 0);
    EveryReadingSucceeds(s, 0, 1, 0);
  }

  /** With a flag that stays raised and a clock that did not fail, the run is interrupted if and only
      if one of its looks saw the flag. */
  lemma InterruptedIff(s: Schedule)
    requires forall i: nat, j: nat :: i < j && s.stop(i) ==> s.stop(j)
    requires s.Whole().ending != ClockFailed
    ensures s.Whole().ending == Interrupted <==> exists k :: 0 <= k < s.Whole().looks && s.stop(k)
  {
    hide Schedule.RunFrom;
    EndingIsEarned(s, 0, 1, 0);
  }

  /** When none of its looks sees the flag and none of its readings fails, a run ends by its limits. */
  lemma UndisturbedRun(s: Schedule)
    requires forall k :: 0 <= k < s.Whole().looks ==> !s.stop(k)
    requires ReadingsSucceed(s, 1, s.Whole().readings)
    ensures var r := s.Whole();
      || (r.ending == AllCases && r.Total(0) == s.maxCases)
      || (r.ending == TimeUp && r.readings > 0 && s.Between(0, r.readings - 1) >= s.maxSeconds)
  {
    hide Schedule.RunFrom;
    EndingIsEarned(s, 0, 1, 0);
    ClockFailedIff(s);
  }

  // ----- runs without a case -----

  /** No case runs if and only if the first look sees the flag, the time is up at the first check, or
      one of the first two readings after the origin fails. */
  lemma NoCaseIff(s: Schedule)
    requires s.maxCases > 0
    ensures s.Whole().Total(0) == 0
       <==> s.stop(0) || s.clock(1).None? || s.Between(0, 1) >= s.maxSeconds || s.clock(2).None?
  {
    var bs := s.Whole().batches;
    assert bs != [] ==> bs[|bs| - 1] in bs;
  }
}
