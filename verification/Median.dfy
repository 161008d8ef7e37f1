/** compute_median of bench_core.c. */
module Median {
  import opened Stats

  predicate Sorted(s: seq<real>) {
    forall i, j :: 0 <= i < j < |s| ==> s[i] <= s[j]
  }

  function Insert(s: seq<real>, x: real): (r: seq<real>)
    ensures |r| == |s| + 1
  {
    if s == [] || s[|s| - 1] <= x then s + [x] else Insert(s[..|s| - 1], x) + [s[|s| - 1]]
  }

  /** The samples in ascending order. */
  function Sort(s: seq<real>): (r: seq<real>)
    ensures |r| == |s|
  {
    if s == [] then [] else Insert(Sort(s[..|s| - 1]), s[|s| - 1])
  }

  lemma {:induction false} InsertElements(s: seq<real>, x: real)
    ensures multiset(Insert(s, x)) == multiset(s) + multiset{x}
  {
    if s != [] && s[|s| - 1] > x {
      var init, last := s[..|s| - 1], s[|s| - 1];
      InsertElements(init, x);
      assert s == init + [last];
    }
  }

  lemma {:induction false} InsertSorts(s: seq<real>, x: real)
    requires Sorted(s)
    ensures Sorted(Insert(s, x))
  {
    if s != [] && s[|s| - 1] > x {
      var init, last := s[..|s| - 1], s[|s| - 1];
      InsertSorts(init, x);
      InsertElements(init, x);
      forall i | 0 <= i < |s|
        ensures Insert(init, x)[i] <= last
      {
        assert Insert(init, x)[i] in multiset(Insert(init, x));
      }
      AppendSorted(Insert(init, x), last);
    }
  }

  lemma AppendSorted(s: seq<real>, x: real)
    requires Sorted(s) && forall i :: 0 <= i < |s| ==> s[i] <= x
    ensures Sorted(s + [x])
  {}

  lemma {:induction false} SortSorts(s: seq<real>)
    ensures Sorted(Sort(s)) && multiset(Sort(s)) == multiset(s)
  {
    if s != [] {
      SortSorts(s[..|s| - 1]);
      InsertSorts(Sort(s[..|s| - 1]), s[|s| - 1]);
      InsertElements(Sort(s[..|s| - 1]), s[|s| - 1]);
      assert s == s[..|s| - 1] + [s[|s| - 1]];
    }
  }

  /** Whatever sorting procedure is used, its result is this one. */
  lemma {:induction false} SortedIsUnique(s: seq<real>, t: seq<real>)
    requires Sorted(s) && Sorted(t) && multiset(s) == multiset(t)
    ensures s == t
    decreases |s|
  {
    SameLength(s, t);
    if s != [] {
      var n := |s| - 1;
      SameLast(s, t);
      WithoutLast(s);
      WithoutLast(t);
      InitSorted(s);
      InitSorted(t);
      hide Sorted;
      SortedIsUnique(s[..n], t[..n]);
      SnocEqual(s, t);
    }
  }

  lemma SameLast(s: seq<real>, t: seq<real>)
    requires Sorted(s) && Sorted(t) && multiset(s) == multiset(t) && s != [] && t != []
    ensures s[|s| - 1] == t[|t| - 1]
  {
    hide Sorted;
    assert s[|s| - 1] in multiset(s) && t[|t| - 1] in multiset(t);
    LastIsGreatest(s, t[|t| - 1]);
    LastIsGreatest(t, s[|s| - 1]);
  }

  lemma InitSorted(s: seq<real>)
    requires Sorted(s) && s != []
    ensures Sorted(s[..|s| - 1])
  {}

  lemma SnocEqual(s: seq<real>, t: seq<real>)
    requires |s| == |t| > 0 && s[..|s| - 1] == t[..|t| - 1] && s[|s| - 1] == t[|t| - 1]
    ensures s == t
  {
    assert s == s[..|s| - 1] + [s[|s| - 1]];
    assert t == t[..|t| - 1] + [t[|t| - 1]];
  }

  lemma SameLength(s: seq<real>, t: seq<real>)
    requires multiset(s) == multiset(t)
    ensures |s| == |t|
  {
    assert |s| == |multiset(s)| == |multiset(t)| == |t|;
  }

  lemma WithoutLast(s: seq<real>)
    requires s != []
    ensures multiset(s[..|s| - 1]) == multiset(s) - multiset{s[|s| - 1]}
  {
    assert s == s[..|s| - 1] + [s[|s| - 1]];
  }

  lemma LastIsGreatest(s: seq<real>, x: real)
    requires Sorted(s) && s != [] && x in multiset(s)
    ensures x <= s[|s| - 1]
  {
    assert x in s;
  }

  /** The middle value, or the mean of the two middle ones; 0 for no samples. */
  function MedianOf(s: seq<real>): real {
    if s == [] then 0.0
    else
      var t, n := Sort(s), |s|;
      if n % 2 != 0 then t[n / 2] else (t[n / 2 - 1] + t[n / 2]) * 0.5
  }

  /** qsort by compare_double. */
  method QSort(values: array<real>)
    modifies values
    ensures values[..] == Sort(old(values[..]))
  {
    var sorted := Sort(values[..]);
    forall i | 0 <= i < values.Length {
      values[i] := sorted[i];
    }
  }

  /** compute_median, sorting its argument. */
  method ComputeMedian(values: array<real>) returns (m: real)
    modifies values
    ensures m == MedianOf(old(values[..]))
    ensures values[..] == Sort(old(values[..]))
  {
    var count := values.Length;
    if count == 0 {
      assert values[..] == [];
      return 0.0;
    }
    QSort(values);
    if count % 2 != 0 {
      m := values[count / 2];
    } else {
      m := (values[count / 2 - 1] + values[count / 2]) * 0.5;
    }
  }

  /** The median does not depend on the order of the samples. */
  lemma MedianIgnoresOrder(s: seq<real>, t: seq<real>)
    requires multiset(s) == multiset(t)
    ensures MedianOf(s) == MedianOf(t)
  {
    SortSorts(s);
    SortSorts(t);
    SortedIsUnique(Sort(s), Sort(t));
    SameLength(s, t);
  }

  lemma MedianBetweenNeighbours(s: seq<real>)
    requires s != []
    ensures Sort(s)[(|s| - 1) / 2] <= MedianOf(s) <= Sort(s)[|s| / 2]
  {
    hide Sort;
    SortSorts(s);
  }

  /** It lies between the minimum and the maximum. */
  lemma MedianWithinExtremes(s: seq<real>)
    requires s != []
    ensures Min(s) <= MedianOf(s) <= Max(s)
  {
    hide Sort, MedianOf, Min, Max;
    SortSorts(s);
    MinMaxAreExtremes(s);
    MedianBetweenNeighbours(s);
    InSort(s, (|s| - 1) / 2);
    InSort(s, |s| / 2);
  }

  lemma InSort(s: seq<real>, i: nat)
    requires i < |s|
    ensures Sort(s)[i] in s
  {
    hide Sort;
    SortSorts(s);
    assert Sort(s)[i] in multiset(Sort(s));
  }

  // ----- half on either side -----

  function CountBelow(s: seq<real>, x: real): nat {
    if s == [] then 0 else CountBelow(s[..|s| - 1], x) + (if s[|s| - 1] < x then 1 else 0)
  }

  function CountAbove(s: seq<real>, x: real): nat {
    if s == [] then 0 else CountAbove(s[..|s| - 1], x) + (if s[|s| - 1] > x then 1 else 0)
  }

  lemma {:induction false} CountsOfInsert(s: seq<real>, y: real, x: real)
    ensures CountBelow(Insert(s, y), x) == CountBelow(s, x) + (if y < x then 1 else 0)
    ensures CountAbove(Insert(s, y), x) == CountAbove(s, x) + (if y > x then 1 else 0)
  {
    if s == [] || s[|s| - 1] <= y {
      assert (s + [y])[..|s|] == s;
    } else {
      var init, last := s[..|s| - 1], s[|s| - 1];
      CountsOfInsert(init, y, x);
      assert (Insert(init, y) + [last])[..|s|] == Insert(init, y);
    }
  }

  lemma {:induction false} CountsOfSort(s: seq<real>, x: real)
    ensures CountBelow(Sort(s), x) == CountBelow(s, x) && CountAbove(Sort(s), x) == CountAbove(s, x)
  {
    if s != [] {
      CountsOfSort(s[..|s| - 1], x);
      CountsOfInsert(Sort(s[..|s| - 1]), s[|s| - 1], x);
    }
  }

  /** In a sorted sequence whose entry k is at least x, at most k entries are below x. */
  lemma {:induction false} FewBelow(s: seq<real>, k: nat, x: real)
    requires Sorted(s) && k < |s| && x <= s[k]
    ensures CountBelow(s, x) <= k
  {
    var n := |s| - 1;
    if n == k {
      CountBelowLength(s[..n], x);
    } else {
      FewBelow(s[..n], k, x);
    }
  }

  lemma {:induction false} CountBelowLength(s: seq<real>, x: real)
    ensures CountBelow(s, x) <= |s|
  {
    if s != [] {
      CountBelowLength(s[..|s| - 1], x);
    }
  }

  /** And if entry k is at most x, at most the later ones are above it. */
  lemma {:induction false} FewAbove(s: seq<real>, k: nat, x: real)
    requires Sorted(s) && k < |s| && s[k] <= x
    ensures CountAbove(s, x) <= |s| - 1 - k
  {
    var n := |s| - 1;
    if n == k {
      NoneAbove(s, x);
    } else {
      FewAbove(s[..n], k, x);
    }
  }

  lemma {:induction false} NoneAbove(s: seq<real>, x: real)
    requires forall i :: 0 <= i < |s| ==> s[i] <= x
    ensures CountAbove(s, x) == 0
  {
    if s != [] {
      NoneAbove(s[..|s| - 1], x);
    }
  }

  /** At most half of the samples lie below the median, and at most half above it. */
  lemma MedianHalves(s: seq<real>)
    ensures 2 * CountBelow(s, MedianOf(s)) <= |s| && 2 * CountAbove(s, MedianOf(s)) <= |s|
  {
    if s != [] {
      var x := MedianOf(s);
      SortSorts(s);
      MedianBetweenNeighbours(s);
      CountsOfSort(s, x);
      FewBelow(Sort(s), |s| / 2, x);
      FewAbove(Sort(s), (|s| - 1) / 2, x);
    }
  }

  // ----- whatever the sorting procedure -----

  /** The median is the middle value of any ascending arrangement of the samples, or half the sum of
      the two middle ones. */
  lemma MedianIs(s: seq<real>, t: seq<real>)
    requires multiset(t) == multiset(s) && forall i, j :: 0 <= i < j < |t| ==> t[i] <= t[j]
    ensures |t| == |s|
    ensures MedianOf(s) ==
      if |t| == 0 then 0.0
      else if |t| % 2 == 1 then t[|t| / 2]
      else (t[|t| / 2 - 1] + t[|t| / 2]) / 2.0
  {
    SortSorts(s);
    SameLength(s, t);
    SortedIsUnique(Sort(s), t);
    hide Sort;
  }

  /** Every sample with its sign changed. */
  function Negated(s: seq<real>): (r: seq<real>)
    ensures |r| == |s|
  {
    if s == [] then [] else Negated(s[..|s| - 1]) + [-s[|s| - 1]]
  }

  function Backwards(s: seq<real>): (r: seq<real>)
    ensures |r| == |s|
  {
    if s == [] then [] else [s[|s| - 1]] + Backwards(s[..|s| - 1])
  }

  lemma {:induction false} NegatedAt(s: seq<real>, i: nat)
    requires i < |s|
    ensures Negated(s)[i] == -s[i]
  {
    if i < |s| - 1 {
      NegatedAt(s[..|s| - 1], i);
    }
  }

  lemma {:induction false} BackwardsAt(s: seq<real>, i: nat)
    requires i < |s|
    ensures Backwards(s)[i] == s[|s| - 1 - i]
  {
    if i > 0 {
      BackwardsAt(s[..|s| - 1], i - 1);
    }
  }

  lemma CountAppended(s: seq<real>, y: real, x: real)
    ensures multiset(s + [y])[x] == multiset(s)[x] + (if x == y then 1 else 0)
  {}

  /** How often x occurs, sign changed. */
  lemma {:induction false} NegatedElements(s: seq<real>, x: real)
    ensures multiset(Negated(s))[x] == multiset(s)[-x]
  {
    if s != [] {
      var init, last := s[..|s| - 1], s[|s| - 1];
      NegatedElements(init, x);
      assert s == init + [last];
      CountAppended(init, last, -x);
      CountAppended(Negated(init), -last, x);
    }
  }

  lemma {:induction false} BackwardsElements(s: seq<real>)
    ensures multiset(Backwards(s)) == multiset(s)
  {
    if s != [] {
      var init, last := s[..|s| - 1], s[|s| - 1];
      BackwardsElements(init);
      assert s == init + [last];
    }
  }

  /** The sorted samples backwards, signs changed, are the sorted negated samples. */
  lemma NegatedSort(s: seq<real>)
    ensures multiset(Negated(Backwards(Sort(s)))) == multiset(Negated(s))
  {
    hide Sort, Negated, Backwards;
    SortSorts(s);
    var t := Sort(s);
    var u := Negated(Backwards(t));
    BackwardsElements(t);
    forall x
      ensures multiset(u)[x] == multiset(Negated(s))[x]
    {
      NegatedElements(Backwards(t), x);
      NegatedElements(s, x);
    }
  }

  /** Changing the sign of all samples changes that of the median. */
  lemma MedianNegates(s: seq<real>)
    ensures MedianOf(Negated(s)) == -MedianOf(s)
  {
    hide Sort, Negated, Backwards, MedianOf;
    SortSorts(s);
    var t := Sort(s);
    NegatedSort(s);
    NegatedBackwards(t);
    MedianIs(s, t);
    MedianIs(Negated(s), Negated(Backwards(t)));
  }

  lemma NegatedBackwards(t: seq<real>)
    ensures forall i :: 0 <= i < |t| ==> Negated(Backwards(t))[i] == -t[|t| - 1 - i]
    ensures Sorted(t) ==> Sorted(Negated(Backwards(t)))
  {
    forall i | 0 <= i < |t|
      ensures Negated(Backwards(t))[i] == -t[|t| - 1 - i]
    {
      NegatedAt(Backwards(t), i);
      BackwardsAt(t, i);
    }
  }
}
