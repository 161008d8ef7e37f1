/** The runs of the stability loops, and what a batch is measured at, on clock readings and looks alone. */
module ScheduleLaws {
  import opened Options
  import opened Schedule
  import opened Sampling
  import opened Stats

  /** Seconds on the clock at reading i. */
  function At(s: Schedule, i: nat): real {
    match s.clock(i)
    case Some(x) => x
    case None => 0.0
  }

  /** After k cases of a batch another one follows. */
  ghost predicate GoesOn(s: Schedule, b: Batch, look: nat, k: nat) {
    !s.stop(look + k)
    && b.first + k < s.maxCases
    && s.clock(b.start + k).Some?
    && (At(s, b.start + k) - At(s, b.start)) * 1000.0 < s.targetMs
    && At(s, b.start + k) - At(s, 0) < s.maxSeconds
  }

  /** The flag, or the last of the cases, spares the batch its own reading after the last case. */
  ghost predicate Spared(s: Schedule, b: Batch, look: nat) {
    s.stop(look + b.size) || b.first + b.size == s.maxCases
  }

  /** The batch may begin at clock reading t with a look at the flag. */
  ghost predicate Begins(s: Schedule, b: Batch, t: nat, look: nat) {
    !s.stop(look)
    && b.first < s.maxCases
    && s.clock(t).Some?
    && At(s, t) - At(s, 0) < s.maxSeconds
    && b.start == t + 1
    && s.clock(b.start).Some?
  }

  /** The batch has every case that follows another, and no more; look is the one before it. */
  ghost predicate Filled(s: Schedule, b: Batch, look: nat) {
    && b.size > 0
    && (forall k :: 0 < k < b.size ==> GoesOn(s, b, look, k))
    && !GoesOn(s, b, look, b.size)
    && b.first + b.size <= s.maxCases
    && b.end == b.start + b.size + (if Spared(s, b, look) then 0 else 1)
    && (b.failed <==> !Spared(s, b, look) && s.clock(b.start + b.size).None?)
  }

  /** The run goes on after the batch; look is the one before it. */
  ghost predicate Continues(s: Schedule, b: Batch, look: nat) {
    s.clock(b.end).Some? && !b.failed && !s.stop(look + b.size + 1)
  }

  // ----- one batch -----

  lemma GoesOnIff(s: Schedule, b: Batch, look: nat, k: nat)
    requires b.first + k <= s.maxCases
    ensures GoesOn(s, b, look, k) <==> !s.Ends(b.first, b.start, look, k)
  {
    assert s.Seconds(b.start + k) == At(s, b.start + k);
    assert s.Seconds(b.start) == At(s, b.start);
    assert s.Seconds(0) == At(s, 0);
  }

  lemma NextIsFilled(s: Schedule, first: nat, c: nat, look: nat)
    requires first < s.maxCases
    ensures Filled(s, s.NextBatch(first, c, look), look)
  {
    hide Schedule.Ends, GoesOn;
    var b := s.NextBatch(first, c, look);
    forall k | 0 < k <= b.size
      ensures GoesOn(s, b, look, k) <==> k < b.size
    {
      GoesOnIff(s, b, look, k);
    }
  }

  lemma FilledIsNext(s: Schedule, b: Batch, look: nat)
    requires b.first < s.maxCases && Filled(s, b, look)
    ensures b == s.NextBatch(b.first, b.start, look)
  {
    hide Schedule.Ends, GoesOn;
    var n := s.Size(b.first, b.start, look, 1);
    GoesOnIff(s, b, look, b.size);
    if n < b.size {
      GoesOnIff(s, b, look, n);
    }
    assert n == b.size;
  }

  // ----- the run -----

  /** Batch i comes after the one before it, or at case first and reading t, is filled, and is the last
      or goes on. The looks are twice the batches and d ahead of the cases. */
  ghost predicate Fits(s: Schedule, bs: seq<Batch>, i: nat, first: nat, t: nat, d: nat)
    requires i < |bs|
  {
    var look := bs[i].first + 2 * i + d;
    && bs[i].first == (if i == 0 then first else bs[i - 1].first + bs[i - 1].size)
    && Begins(s, bs[i], if i == 0 then t else bs[i - 1].end + 1, look)
    && Filled(s, bs[i], look)
    && (i + 1 < |bs| ==> Continues(s, bs[i], look))
  }

  ghost predicate Follow(s: Schedule, bs: seq<Batch>, first: nat, t: nat, d: nat) {
    forall i :: 0 <= i < |bs| ==> Fits(s, bs, i, first, t, d)
  }

  /** How a run stops before a batch, with that many cases behind it. */
  ghost predicate StopsBefore(s: Schedule, r: Run, cases: nat, t: nat, look: nat) {
    if s.stop(look) then r.ending == Interrupted && r.readings == t && r.looks == look + 1
    else if cases == s.maxCases then r.ending == AllCases && r.readings == t && r.looks == look + 1
    else if s.clock(t).None? then r.ending == ClockFailed && r.readings == t + 1 && r.looks == look + 1
    else if At(s, t) - At(s, 0) >= s.maxSeconds
    then r.ending == TimeUp && r.readings == t + 1 && r.looks == look + 1
    else
      s.clock(t + 1).None? && r.ending == ClockFailed && r.readings == t + 2 && r.looks == look + 1
  }

  /** How a run stops right after a batch; look is the one before it. */
  ghost predicate StopsBehind(s: Schedule, r: Run, b: Batch, look: nat) {
    r.readings == b.end + 1
    && if s.clock(b.end).None? || b.failed
       then r.ending == ClockFailed && r.looks == look + b.size + 1
       else s.stop(look + b.size + 1) && r.ending == Interrupted && r.looks == look + b.size + 2
  }

  ghost predicate Closes(s: Schedule, r: Run, first: nat, t: nat, d: nat) {
    if r.batches == [] then StopsBefore(s, r, first, t, first + d)
    else
      var n := |r.batches| - 1;
      var b := r.batches[n];
      var look := b.first + 2 * n + d;
      if Continues(s, b, look) then StopsBefore(s, r, b.first + b.size, b.end + 1, look + b.size + 2)
      else StopsBehind(s, r, b, look)
  }

  lemma BeforeIff(s: Schedule, r: Run, first: nat, t: nat, look: nat)
    requires first <= s.maxCases && r.batches == []
    ensures StopsBefore(s, r, first, t, look) <==> s.Before(first, t, look) == Some(r)
  {
    assert s.Between(0, t) == At(s, t) - At(s, 0);
  }

  lemma BeginsIff(s: Schedule, b: Batch, t: nat, look: nat)
    ensures Begins(s, b, t, look) <==> s.Before(b.first, t, look).None? && b.start == t + 1
  {
    assert s.Between(0, t) == At(s, t) - At(s, 0);
  }

  lemma BehindIff(s: Schedule, b: Batch, look: nat)
    ensures Continues(s, b, look) <==> s.Behind(b, look + b.size + 1).None?
    ensures forall r: Run :: r.batches == [b] && !Continues(s, b, look) ==>
      (StopsBehind(s, r, b, look) <==> s.Behind(b, look + b.size + 1) == Some(r))
  {}

  /** The run without its first batch. */
  function Rest(r: Run): Run
    requires r.batches != []
  {
    r.(batches := r.batches[1..])
  }

  lemma FitsInTail(s: Schedule, bs: seq<Batch>, i: nat, first: nat, t: nat, d: nat)
    requires 0 < i < |bs|
    ensures Fits(s, bs, i, first, t, d)
       <==> Fits(s, bs[1..], i - 1, bs[0].first + bs[0].size, bs[0].end + 1, d + 2)
  {
    hide Begins, Filled, Continues;
    var tail := bs[1..];
    assert tail[i - 1] == bs[i] && bs[i].first + 2 * i + d == tail[i - 1].first + 2 * (i - 1) + (d + 2);
    assert i > 1 ==> tail[i - 2] == bs[i - 1];
  }

  /** Batches follow one another if the first one fits and the others follow from where it ends. */
  lemma FollowTail(s: Schedule, bs: seq<Batch>, first: nat, t: nat, d: nat)
    requires bs != []
    ensures Follow(s, bs, first, t, d)
       <==> (Fits(s, bs, 0, first, t, d) && Follow(s, bs[1..], bs[0].first + bs[0].size, bs[0].end + 1, d + 2))
  {
    hide Fits;
    var tail := bs[1..];
    var next, reading, apart := bs[0].first + bs[0].size, bs[0].end + 1, d + 2;
    forall i | 0 < i < |bs|
      ensures Fits(s, bs, i, first, t, d) <==> Fits(s, tail, i - 1, next, reading, apart)
    {
      FitsInTail(s, bs, i, first, t, d);
    }
    if Follow(s, bs, first, t, d) {
      forall j | 0 <= j < |tail|
        ensures Fits(s, tail, j, next, reading, apart)
      {
        assert Fits(s, bs, j + 1, first, t, d);
      }
    }
  }

  lemma ClosesTail(s: Schedule, r: Run, first: nat, t: nat, d: nat)
    requires r.batches != [] && (|r.batches| > 1 || Continues(s, r.batches[0], r.batches[0].first + d))
    ensures var b := r.batches[0];
      Closes(s, r, first, t, d) <==> Closes(s, Rest(r), b.first + b.size, b.end + 1, d + 2)
  {
    hide StopsBefore, StopsBehind, Continues;
    var tail := r.batches[1..];
    if |r.batches| > 1 {
      assert tail[|tail| - 1] == r.batches[|r.batches| - 1];
      assert 2 * (|tail| - 1) + (d + 2) == 2 * (|r.batches| - 1) + d;
      StopsOf(s, r, Rest(r));
    } else {
      StopsOf(s, r, Rest(r));
    }
  }

  lemma StopsOf(s: Schedule, r: Run, q: Run)
    requires r.ending == q.ending && r.readings == q.readings && r.looks == q.looks
    ensures forall cases: nat, t: nat, look: nat :: StopsBefore(s, r, cases, t, look) <==> StopsBefore(s, q, cases, t, look)
    ensures forall b, look: nat :: StopsBehind(s, r, b, look) <==> StopsBehind(s, q, b, look)
  {}

  lemma OneBatch(s: Schedule, r: Run, b: Batch, first: nat, t: nat, d: nat)
    requires r.batches == [b] && !Continues(s, b, b.first + d)
    ensures Closes(s, r, first, t, d) <==> StopsBehind(s, r, b, b.first + d)
  {}

  lemma NoBatch(s: Schedule, r: Run, first: nat, t: nat, d: nat)
    requires r.batches == []
    ensures Follow(s, r.batches, first, t, d)
    ensures Closes(s, r, first, t, d) <==> StopsBefore(s, r, first, t, first + d)
  {}

  lemma {:induction false} RunFits(s: Schedule, first: nat, t: nat, d: nat)
    requires first <= s.maxCases
    ensures var r := s.RunFrom(first, t, first + d); Follow(s, r.batches, first, t, d) && Closes(s, r, first, t, d)
    decreases s.maxCases - first
  {
    hide Begins, Filled, Continues, Follow, Closes, StopsBefore, StopsBehind;
    hide Schedule.NextBatch, Schedule.Before, Schedule.Behind, Run.Total, Run.CoversFrom;
    var look := first + d;
    var r := s.RunFrom(first, t, look);
    if s.Before(first, t, look).Some? {
      NoBatch(s, r, first, t, d);
      BeforeIff(s, r, first, t, look);
    } else {
      var b := s.NextBatch(first, t + 1, look);
      BeginsIff(s, b, t, look);
      NextIsFilled(s, first, t + 1, look);
      BehindIff(s, b, look);
      FollowTail(s, r.batches, first, t, d);
      if s.Behind(b, look + b.size + 1).Some? {
        OneBatch(s, r, b, first, t, d);
        NoBatch(s, Rest(r), b.first + b.size, b.end + 1, d + 2);
      } else {
        var rest := s.RunFrom(first + b.size, b.end + 1, look + b.size + 2);
        RunFits(s, first + b.size, b.end + 1, d + 2);
        assert look + b.size + 2 == first + b.size + (d + 2);
        assert Rest(r) == rest;
        ClosesTail(s, r, first, t, d);
      }
    }
  }

  lemma {:induction false} FitsOnly(s: Schedule, r: Run, first: nat, t: nat, d: nat)
    requires first <= s.maxCases && Follow(s, r.batches, first, t, d) && Closes(s, r, first, t, d)
    ensures r == s.RunFrom(first, t, first + d)
    decreases s.maxCases - first
  {
    hide Begins, Filled, Continues, Follow, Closes, StopsBefore, StopsBehind;
    hide Schedule.NextBatch, Schedule.Before, Schedule.Behind, Run.Total, Run.CoversFrom;
    var look := first + d;
    if r.batches == [] {
      NoBatch(s, r, first, t, d);
      BeforeIff(s, r, first, t, look);
    } else {
      var b := r.batches[0];
      FollowTail(s, r.batches, first, t, d);
      BeginsIff(s, b, t, look);
      BeforeNone(s, first, t, look);
      FilledIsNext(s, b, look);
      BehindIff(s, b, look);
      if Continues(s, b, look) {
        ClosesTail(s, r, first, t, d);
        FitsOnly(s, Rest(r), first + b.size, b.end + 1, d + 2);
        assert look + b.size + 2 == first + b.size + (d + 2);
        assert r.batches == [b] + Rest(r).batches;
      } else {
        assert r.batches == [b];
        OneBatch(s, r, b, first, t, d);
      }
    }
  }

  lemma BeforeNone(s: Schedule, first: nat, t: nat, look: nat)
    requires s.Before(first, t, look).None?
    ensures first < s.maxCases
  {}

  /** A run is the one of the schedule if and only if its batches follow one another, each holding all
      the cases it should, and it closes as the flag, the cases and the clock say. */
  lemma WholeIff(s: Schedule, r: Run)
    ensures r == s.Whole() <==> Follow(s, r.batches, 0, 1, 0) && Closes(s, r, 0, 1, 0)
  {
    hide Follow, Closes, Schedule.RunFrom;
    RunFits(s, 0, 1, 0);
    if Follow(s, r.batches, 0, 1, 0) && Closes(s, r, 0, 1, 0) {
      FitsOnly(s, r, 0, 1, 0);
    }
  }

  /** No batch goes on past its target, its time, its cases, the flag or a failed reading, and each
      goes on until one of them. */
  lemma BatchesAreFull(s: Schedule, i: nat)
    requires i < |s.Whole().batches|
    ensures var b := s.Whole().batches[i];
      && (forall j :: b.start < j < b.start + b.size ==>
           && s.clock(j).Some?
           && b.first + (j - b.start) < s.maxCases
           && s.Between(b.start, j) * 1000.0 < s.targetMs
           && s.Between(0, j) < s.maxSeconds
           && !s.stop(b.first + 2 * i + (j - b.start)))
      && (|| b.first + b.size == s.maxCases
          || s.clock(b.start + b.size).None?
          || s.Between(b.start, b.start + b.size) * 1000.0 >= s.targetMs
          || s.Between(0, b.start + b.size) >= s.maxSeconds
          || s.stop(b.first + 2 * i + b.size))
  {
    hide Follow, Closes, Schedule.Whole, Schedule.Between, GoesOn;
    WholeIff(s, s.Whole());
    FollowsFilled(s, s.Whole().batches, i);
    var b := s.Whole().batches[i];
    var look := b.first + 2 * i;
    GoesOnBetween(s, b, look, b.size);
    forall j | b.start < j < b.start + b.size
      ensures && s.clock(j).Some?
              && b.first + (j - b.start) < s.maxCases
              && s.Between(b.start, j) * 1000.0 < s.targetMs
              && s.Between(0, j) < s.maxSeconds
              && !s.stop(b.first + 2 * i + (j - b.start))
    {
      GoesOnBetween(s, b, look, j - b.start);
    }
  }

  lemma FollowsFilled(s: Schedule, bs: seq<Batch>, i: nat)
    requires i < |bs| && Follow(s, bs, 0, 1, 0)
    ensures Filled(s, bs[i], bs[i].first + 2 * i)
  {
    assert Fits(s, bs, i, 0, 1, 0);
  }

  lemma GoesOnBetween(s: Schedule, b: Batch, look: nat, k: nat)
    ensures GoesOn(s, b, look, k)
       <==> && !s.stop(look + k)
            && b.first + k < s.maxCases
            && s.clock(b.start + k).Some?
            && s.Between(b.start, b.start + k) * 1000.0 < s.targetMs
            && s.Between(0, b.start + k) < s.maxSeconds
  {
    BetweenIs(s, b.start, b.start + k);
    BetweenIs(s, 0, b.start + k);
    hide Schedule.Between;
  }

  lemma BetweenIs(s: Schedule, i: nat, j: nat)
    ensures s.Between(i, j) == At(s, j) - At(s, i)
  {}

  // ----- what a batch is measured at -----

  /** The cases of a batch that return 0, as a set of case numbers. */
  ghost function Succeeding(outcome: nat -> int, first: nat, n: nat): set<nat> {
    set k | first <= k < first + n && outcome(k) == 0
  }

  lemma {:induction false} SuccessesAre(outcome: nat -> int, first: nat, n: nat)
    ensures Successes(outcome, first, n) == |Succeeding(outcome, first, n)|
  {
    if n == 0 {
      assert Succeeding(outcome, first, n) == {};
    } else {
      SuccessesAre(outcome, first, n - 1);
      var less := Succeeding(outcome, first, n - 1);
      if outcome(first + n - 1) == 0 {
        assert Succeeding(outcome, first, n) == less + {first + n - 1};
      } else {
        assert Succeeding(outcome, first, n) == less;
      }
    }
  }

  /** A batch gives samples if and only if its end was timed and a case succeeded, and the samples are
      what the two readings and the succeeding cases say. */
  lemma SamplesOf(s: Schedule, outcome: nat -> int, counter: Counter, b: Batch, x: real)
    requires s.clock(b.start) == Some(x)
    ensures var n := |Succeeding(outcome, b.first, b.size)|;
      match s.clock(b.end)
      case None =>
        TimeOf(s, outcome)(b) == RateOf(s, outcome)(b) == CyclesOf(s, outcome, counter)(b) == None
      case Some(y) =>
        && TimeOf(s, outcome)(b) == (if n > 0 then Some(1000.0 * (y - x) / n as real) else None)
        && RateOf(s, outcome)(b) == (if n > 0 && y > x then Some(n as real / (y - x)) else None)
        && (match counter
            case Counting(cycles) =>
              CyclesOf(s, outcome, counter)(b) == (if n > 0 then Some(cycles(b.first) as real / n as real) else None)
            case _ => CyclesOf(s, outcome, counter)(b) == None)
  {
    hide Ok;
    SuccessesAre(outcome, b.first, b.size);
    OkIs(outcome, b);
    if s.clock(b.end).Some? {
      var y := s.clock(b.end).value;
      var n := |Succeeding(outcome, b.first, b.size)|;
      if y > x {
        Cancels(n as real, y - x);
      }
    }
  }

  lemma ByteSampleOf(s: Schedule, outcome: nat -> int, bytes: nat, b: Batch)
    ensures ByteRateOf(s, outcome, bytes)(b)
         == (match RateOf(s, outcome)(b)
             case Some(r) => (if bytes > 0 then Some(r * bytes as real) else None)
             case None => None)
  {
    var r := RateOf(s, outcome)(b);
    assert ByteRateOf(s, outcome, bytes)(b) == (if bytes > 0 then Times(r, bytes as real) else None);
    if r.Some? {
      assert Times(r, bytes as real) == Some(Scaled(r.value, bytes as real));
      assert Scaled(r.value, bytes as real) == r.value * bytes as real;
    }
  }

  lemma OkIs(outcome: nat -> int, b: Batch)
    ensures Ok(outcome, b) == Successes(outcome, b.first, b.size)
  {}

  lemma Cancels(n: real, d: real)
    requires d > 0.0
    ensures n * 1000.0 / (d * 1000.0) == n / d
  {
    assert n * 1000.0 == (n / d) * (d * 1000.0);
  }

  lemma CollectOne(f: Batch -> Option<real>, b: Batch)
    ensures Collect(f, [b]) == (match f(b) case Some(x) => [x] case None => [])
  {
    assert [b][..0] == [];
  }

  lemma CollectLast(f: Batch -> Option<real>, bs: seq<Batch>, b: Batch)
    ensures Collect(f, bs + [b]) == Collect(f, bs) + Collect(f, [b])
  {
    hide Collect;
    CollectNext(f, bs, b);
    CollectOne(f, b);
    assert Collect(f, bs) + [] == Collect(f, bs);
  }

  /** The samples of a run are those of its batches, in order. */
  lemma {:induction false} CollectJoins(f: Batch -> Option<real>, a: seq<Batch>, c: seq<Batch>)
    ensures Collect(f, a + c) == Collect(f, a) + Collect(f, c)
  {
    hide Collect;
    if c == [] {
      assert a + c == a;
      CollectNothing(f);
    } else {
      var n := |c| - 1;
      var init, b := c[..n], c[n];
      assert c == init + [b] && a + c == (a + init) + [b];
      CollectJoins(f, a, init);
      CollectLast(f, a + init, b);
      CollectLast(f, init, b);
    }
  }

  lemma CollectNothing(f: Batch -> Option<real>)
    ensures Collect(f, []) == []
  {}
}
