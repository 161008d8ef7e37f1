/** The running statistics of stats_util.c, over the reals. */
module Stats {

  // ----- what they should be -----

  function Sum(s: seq<real>): real {
    if s == [] then 0.0 else Sum(s[..|s| - 1]) + s[|s| - 1]
  }

  function SumOfSquares(s: seq<real>): real {
    if s == [] then 0.0 else SumOfSquares(s[..|s| - 1]) + s[|s| - 1] * s[|s| - 1]
  }

  function Mean(s: seq<real>): real {
    if s == [] then 0.0 else Sum(s) / |s| as real
  }

  /** The sum of squared deviations from c. */
  function Deviation(s: seq<real>, c: real): real {
    if s == [] then 0.0 else Deviation(s[..|s| - 1], c) + (s[|s| - 1] - c) * (s[|s| - 1] - c)
  }

  function Min(s: seq<real>): real {
    if s == [] then 0.0
    else if |s| == 1 then s[0]
    else
      var m, x := Min(s[..|s| - 1]), s[|s| - 1];
      if x < m then x else m
  }

  function Max(s: seq<real>): real {
    if s == [] then 0.0
    else if |s| == 1 then s[0]
    else
      var m, x := Max(s[..|s| - 1]), s[|s| - 1];
      if x > m then x else m
  }

  lemma {:induction false} MinMaxAreExtremes(s: seq<real>)
    requires s != []
    ensures Min(s) in s && Max(s) in s
    ensures forall x :: x in s ==> Min(s) <= x <= Max(s)
  {
    if |s| > 1 {
      var init := s[..|s| - 1];
      MinMaxAreExtremes(init);
      assert s == init + [s[|s| - 1]];
    }
  }

  // ----- Welford's step -----

  /** Deviation from c in terms of the sums. */
  function Expanded(squares: real, sum: real, n: real, c: real): real {
    squares - 2.0 * c * sum + n * c * c
  }

  lemma {:induction false} DeviationExpanded(s: seq<real>, c: real)
    ensures Deviation(s, c) == Expanded(SumOfSquares(s), Sum(s), |s| as real, c)
  {
    if s != [] {
      var n, x := |s| - 1, s[|s| - 1];
      assert |s| as real == |s[..n]| as real + 1.0;
      hide Expanded;
      DeviationExpanded(s[..n], c);
      ExpandStep(x, c, SumOfSquares(s[..n]), Sum(s[..n]), |s[..n]| as real);
    }
  }

  lemma ExpandStep(x: real, c: real, q: real, sum: real, n: real)
    ensures Expanded(q, sum, n, c) + (x - c) * (x - c) == Expanded(q + x * x, sum + x, n + 1.0, c)
  {
    assert (x - c) * (x - c) == x * x - 2.0 * (c * x) + c * c;
    assert 2.0 * c * (sum + x) == 2.0 * c * sum + 2.0 * (c * x);
    assert (n + 1.0) * c * c == n * c * c + c * c;
  }

  /** The algebra of one update: n samples with mean u, and a new value v. */
  lemma WelfordAlgebra(n: real, u: real, v: real, u': real, squares: real, sum: real)
    requires sum == n * u && sum + v == (n + 1.0) * u'
    ensures Expanded(squares + v * v, sum + v, n + 1.0, u') == Expanded(squares, sum, n, u) + (v - u) * (v - u')
  {
    var p := n * u * u;
    var q := n * u * u';
    assert u * sum == p && u' * sum == q;
    assert u' * (sum + v) == q + u' * v;
    assert (n + 1.0) * u' * u' == u' * (sum + v);
    assert u * (sum + v) == (n + 1.0) * u' * u == q + u' * u;
    assert u * (sum + v) == p + u * v;
    assert (v - u) * (v - u') == v * v - v * u' - u * v + u * u';
  }

  lemma MeanTimesCount(s: seq<real>)
    ensures |s| as real * Mean(s) == Sum(s)
  {}

  lemma NextMean(s: seq<real>, v: real)
    ensures Mean(s + [v]) == Mean(s) + (v - Mean(s)) / (|s| + 1) as real
  {
    var n, u := |s| as real, Mean(s);
    assert (s + [v])[..|s|] == s;
    MeanTimesCount(s);
    assert (|s| + 1) as real == n + 1.0;
    assert (n + 1.0) * (u + (v - u) / (n + 1.0)) == (n + 1.0) * u + (v - u);
    assert (n + 1.0) * u == n * u + u;
    MeanTimesCount(s + [v]);
    CancelFactor(n + 1.0, Mean(s + [v]), u + (v - u) / (n + 1.0));
  }

  lemma CancelFactor(n: real, x: real, y: real)
    requires n > 0.0 && n * x == n * y
    ensures x == y
  {}

  lemma WelfordStep(s: seq<real>, v: real)
    ensures var u, u' := Mean(s), Mean(s + [v]);
      Deviation(s + [v], u') == Deviation(s, u) + (v - u) * (v - u')
  {
    hide Sum, SumOfSquares, Mean, Deviation, Expanded;
    var u, u', t := Mean(s), Mean(s + [v]), s + [v];
    OneMoreSample(s, v);
    DeviationExpanded(s, u);
    DeviationExpanded(t, u');
    MeanTimesCount(s);
    MeanTimesCount(t);
    WelfordAlgebra(|s| as real, u, v, u', SumOfSquares(s), Sum(s));
  }

  lemma OneMoreSample(s: seq<real>, v: real)
    ensures Sum(s + [v]) == Sum(s) + v && SumOfSquares(s + [v]) == SumOfSquares(s) + v * v
    ensures |s + [v]| as real == |s| as real + 1.0
  {
    assert (s + [v])[..|s|] == s;
  }

  /** running_stats_t. */
  class RunningStats {
    var count: nat
    var mean: real
    var m2: real
    var min: real
    var max: real

    /** The record holds exactly the statistics of the samples. */
    ghost predicate Describes(s: seq<real>)
      reads this
    {
      count == |s| && mean == Mean(s) && m2 == Deviation(s, Mean(s)) && min == Min(s) && max == Max(s)
    }

    constructor ()
      ensures Describes([])
    {
      count, mean, m2, min, max := 0, 0.0, 0.0, 0.0, 0.0;
    }

    /** stats_update. */
    method Update(value: real, ghost s: seq<real>)
      requires Describes(s)
      modifies this
      ensures Describes(s + [value]) && count == old(count) + 1
    {
      assert (s + [value])[..|s|] == s;
      NextMean(s, value);
      WelfordStep(s, value);
      if count == 0 {
        FirstSample(s, value);
        count, mean, m2, min, max := 1, value, 0.0, value, value;
        return;
      }
      count := count + 1;
      var delta := value - mean;
      mean := mean + delta / count as real;
      var delta2 := value - mean;
      m2 := m2 + delta * delta2;
      if value < min {
        min := value;
      }
      if value > max {
        max := value;
      }
    }

    /** The variance whose root stats_stddev takes; below two samples it takes none. */
    function Variance(): real
      reads this
    {
      if count < 2 then 0.0 else m2 / (count - 1) as real
    }
  }

  lemma FirstSample(s: seq<real>, v: real)
    requires s == []
    ensures Sum(s + [v]) == v && Mean(s + [v]) == v && Deviation(s + [v], v) == 0.0
  {
    assert (s + [v])[..0] == [];
  }

  // ----- scaling -----

  function Scaled(x: real, b: real): real {
    x * b
  }

  function Scale(s: seq<real>, b: real): (r: seq<real>)
    ensures |r| == |s|
  {
    if s == [] then [] else Scale(s[..|s| - 1], b) + [Scaled(s[|s| - 1], b)]
  }

  lemma ScaleNext(s: seq<real>, x: real, b: real)
    ensures Scale(s + [x], b) == Scale(s, b) + [Scaled(x, b)]
  {
    hide Scaled;
    assert (s + [x])[..|s|] == s;
  }

  lemma {:induction false} SumScales(s: seq<real>, b: real)
    ensures Sum(Scale(s, b)) == b * Sum(s)
  {
    if s != [] {
      var init, x := s[..|s| - 1], s[|s| - 1];
      SumScales(init, b);
      DistributeReal(b, Sum(init), x);
      assert Scale(s, b)[..|s| - 1] == Scale(s[..|s| - 1], b);
    }
  }

  lemma MeanScales(s: seq<real>, b: real)
    ensures Mean(Scale(s, b)) == b * Mean(s)
  {
    SumScales(s, b);
  }

  lemma SquareScales(x: real, c: real, b: real)
    ensures (x * b - b * c) * (x * b - b * c) == b * b * ((x - c) * (x - c))
  {
    assert x * b - b * c == b * (x - c);
  }

  lemma DistributeReal(a: real, x: real, y: real)
    ensures a * (x + y) == a * x + a * y
  {}

  function Square(x: real): real {
    x * x
  }

  lemma DeviationNext(s: seq<real>, x: real, c: real)
    ensures Deviation(s + [x], c) == Deviation(s, c) + Square(x - c)
  {
    assert (s + [x])[..|s|] == s;
  }

  lemma ScaledStep(d: real, x: real, c: real, b: real)
    ensures Scaled(d, Square(b)) + Square(Scaled(x, b) - Scaled(c, b)) == Scaled(d + Square(x - c), Square(b))
  {
    SquareScales(x, c, b);
    DistributeReal(b * b, d, (x - c) * (x - c));
  }

  /** The induction, with the products kept folded. */
  lemma {:induction false} ScaledDeviation(s: seq<real>, c: real, b: real)
    ensures Deviation(Scale(s, b), Scaled(c, b)) == Scaled(Deviation(s, c), Square(b))
  {
    if s != [] {
      var init, x := s[..|s| - 1], s[|s| - 1];
      assert s == init + [x];
      hide Deviation, Scale, Scaled, Square;
      ScaledDeviation(init, c, b);
      ScaleNext(init, x, b);
      DeviationNext(Scale(init, b), Scaled(x, b), Scaled(c, b));
      DeviationNext(init, x, c);
      ScaledStep(Deviation(init, c), x, c, b);
    }
  }

  lemma DeviationScales(s: seq<real>, c: real, b: real)
    ensures Deviation(Scale(s, b), b * c) == b * b * Deviation(s, c)
  {
    ScaledDeviation(s, c, b);
    hide Deviation, Scale;
  }

  /** Scaling every sample by b scales the mean by b and the sum of squared deviations by its square. */
  lemma StatisticsScale(s: seq<real>, b: real)
    ensures Mean(Scale(s, b)) == b * Mean(s)
    ensures Deviation(Scale(s, b), Mean(Scale(s, b))) == b * b * Deviation(s, Mean(s))
  {
    MeanScales(s, b);
    DeviationScales(s, Mean(s), b);
  }
}
