/** Standard deviation and coefficient of variation, with the square root as a parameter. */
module Spread {
  import opened Stats

  predicate IsRoot(r: real, x: real) {
    r >= 0.0 && r * r == x
  }

  ghost predicate IsSqrt(sqrt: real -> real) {
    forall x: real :: x >= 0.0 ==> IsRoot(sqrt(x), x)
  }

  function Variance(s: seq<real>): real {
    if |s| < 2 then 0.0 else Deviation(s, Mean(s)) / (|s| - 1) as real
  }

  /** stats_stddev. */
  function Stddev(sqrt: real -> real, s: seq<real>): real {
    if |s| < 2 then 0.0 else sqrt(Variance(s))
  }

  /** The coefficient of variation in percent, left at 0 for a mean that is not positive. */
  function Cv(sqrt: real -> real, s: seq<real>): real {
    if Mean(s) > 0.0 then Stddev(sqrt, s) * 100.0 / Mean(s) else 0.0
  }

  lemma {:induction false} DeviationIsNotNegative(s: seq<real>, c: real)
    ensures Deviation(s, c) >= 0.0
  {
    if s != [] {
      DeviationIsNotNegative(s[..|s| - 1], c);
      SquareIsNotNegative(s[|s| - 1] - c);
    }
  }

  lemma SquareIsNotNegative(x: real)
    ensures x * x >= 0.0
  {}

  lemma SquareGrows(a: real, b: real)
    requires a >= 0.0 && b >= 0.0
    ensures a > b ==> a * a > b * b
  {
    var d, e := a - b, a + b;
    assert d * e == a * a - b * b;
    if a > b {
      Positive(d, e);
    }
  }

  lemma RootIsUnique(a: real, b: real, x: real)
    requires IsRoot(a, x) && IsRoot(b, x)
    ensures a == b
  {
    SquareGrows(a, b);
    SquareGrows(b, a);
  }

  lemma Positive(a: real, b: real)
    requires a > 0.0 && b > 0.0
    ensures a * b > 0.0
  {}

  lemma VarianceScales(s: seq<real>, b: real)
    ensures Variance(Scale(s, b)) == b * b * Variance(s)
  {
    hide Mean, Deviation, Scale;
    StatisticsScale(s, b);
    if |s| >= 2 {
      var t, n := Scale(s, b), (|s| - 1) as real;
      assert Variance(t) == Deviation(t, Mean(t)) / n;
      DivideProduct(b * b, Deviation(s, Mean(s)), n);
      assert Variance(s) == Deviation(s, Mean(s)) / n;
    } else {
      TimesZero(b * b);
    }
  }

  lemma TimesZero(a: real)
    ensures a * 0.0 == 0.0
  {}

  lemma DivideProduct(a: real, x: real, n: real)
    requires n != 0.0
    ensures (a * x) / n == a * (x / n)
  {
    assert (a * (x / n)) * n == a * (x / n * n) == a * x;
  }

  lemma RootScales(r: real, x: real, b: real)
    requires IsRoot(r, x) && b >= 0.0
    ensures IsRoot(b * r, b * b * x)
  {
    assert (b * r) * (b * r) == b * b * (r * r);
  }

  lemma StddevScales(sqrt: real -> real, s: seq<real>, b: real)
    requires IsSqrt(sqrt) && b > 0.0
    ensures Stddev(sqrt, Scale(s, b)) == b * Stddev(sqrt, s)
  {
    hide Mean, Deviation, Scale;
    if |s| >= 2 {
      VarianceScales(s, b);
      VarianceIsNotNegative(s);
      VarianceIsNotNegative(Scale(s, b));
      hide Variance;
      RootScales(sqrt(Variance(s)), Variance(s), b);
      RootIsUnique(sqrt(Variance(Scale(s, b))), b * sqrt(Variance(s)), Variance(Scale(s, b)));
    }
  }

  lemma VarianceIsNotNegative(s: seq<real>)
    ensures Variance(s) >= 0.0
  {
    DeviationIsNotNegative(s, Mean(s));
  }

  /** Samples scaled by a positive factor vary by the same percentage. */
  lemma CvIsScaleFree(sqrt: real -> real, s: seq<real>, b: real)
    requires IsSqrt(sqrt) && b > 0.0
    ensures Cv(sqrt, Scale(s, b)) == Cv(sqrt, s)
  {
    hide Mean, Deviation, Scale, Stddev;
    StddevScales(sqrt, s, b);
    StatisticsScale(s, b);
    if Mean(s) > 0.0 {
      Positive(b, Mean(s));
      CancelScale(b, Stddev(sqrt, s), Mean(s));
    } else {
      NotPositive(b, Mean(s));
    }
  }

  lemma NotPositive(b: real, m: real)
    requires b > 0.0 && m <= 0.0
    ensures b * m <= 0.0
  {}

  lemma CancelScale(b: real, x: real, m: real)
    requires b > 0.0 && m > 0.0 && b * m > 0.0
    ensures (b * x) * 100.0 / (b * m) == x * 100.0 / m
  {
    var q := x * 100.0 / m;
    assert q * m == x * 100.0;
    assert q * (b * m) == (b * x) * 100.0;
  }

  // ----- the figures from the sums -----

  /** n (n - 1) times the variance is n times the sum of the squares less the square of the sum. */
  lemma VarianceFromSums(s: seq<real>)
    requires |s| >= 2
    ensures |s| as real * (|s| as real - 1.0) * Variance(s) == |s| as real * SumOfSquares(s) - Sum(s) * Sum(s)
  {
    hide Mean, Sum, SumOfSquares, Deviation;
    var n, m, d := |s| as real, Mean(s), Deviation(s, Mean(s));
    DeviationExpanded(s, m);
    MeanTimesCount(s);
    assert (|s| - 1) as real == n - 1.0;
    assert (n - 1.0) * Variance(s) == d;
    Multiplied(n, m, d, SumOfSquares(s), Sum(s));
    assert n * (n - 1.0) * Variance(s) == n * ((n - 1.0) * Variance(s));
  }

  lemma Multiplied(n: real, m: real, d: real, squares: real, sum: real)
    requires d == Expanded(squares, sum, n, m) && n * m == sum
    ensures n * d == n * squares - sum * sum
  {
    assert n * (2.0 * m * sum) == 2.0 * (n * m) * sum;
    assert n * (n * m * m) == (n * m) * (n * m);
  }

  /** The standard deviation squared is the variance, and the coefficient of variation times the mean is
      a hundred standard deviations. */
  lemma SpreadIs(sqrt: real -> real, s: seq<real>)
    requires IsSqrt(sqrt)
    ensures Stddev(sqrt, s) >= 0.0 && Stddev(sqrt, s) * Stddev(sqrt, s) == Variance(s)
    ensures |s| < 2 ==> Variance(s) == 0.0
    ensures if Mean(s) > 0.0 then Cv(sqrt, s) * Mean(s) == 100.0 * Stddev(sqrt, s) else Cv(sqrt, s) == 0.0
  {
    hide Mean, Deviation;
    VarianceIsNotNegative(s);
    if |s| >= 2 {
      assert IsRoot(sqrt(Variance(s)), Variance(s));
    }
  }
}
