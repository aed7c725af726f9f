/**
 * The numpy reductions the scaler and the metrics rely on, over reals:
 * np.sum, np.mean and the population variance that np.std (ddof = 0) is the square root of.
 */
module Statistics {

  /** np.sum of a flat sequence. */
  function Sum(s: seq<real>): real
  {
    if s == [] then 0.0 else s[0] + Sum(s[1..])
  }

  lemma {:induction false} SumAppend(a: seq<real>, b: seq<real>)
    ensures Sum(a + b) == Sum(a) + Sum(b)
  {
    if a == [] {
      assert a + b == b;
    } else {
      assert (a + b)[1..] == a[1..] + b;
      SumAppend(a[1..], b);
    }
  }

  /** Summing |s| copies of v gives |s| * v. */
  lemma {:induction false} SumOfConstant(s: seq<real>, v: real)
    requires forall k :: 0 <= k < |s| ==> s[k] == v
    ensures Sum(s) == |s| as real * v
  {
    if s != [] {
      SumOfConstant(s[1..], v);
    }
  }

  /** A sum of nonnegative terms is nonnegative, and zero exactly when every term is. */
  lemma {:induction false} SumOfNonnegative(s: seq<real>)
    requires forall k :: 0 <= k < |s| ==> s[k] >= 0.0
    ensures Sum(s) >= 0.0
    ensures Sum(s) == 0.0 <==> forall k :: 0 <= k < |s| ==> s[k] == 0.0
  {
    if s != [] {
      SumOfNonnegative(s[1..]);
      assert forall k :: 1 <= k < |s| ==> s[k] == s[1..][k - 1];
    }
  }

  /** np.mean. */
  function Mean(s: seq<real>): real
    requires |s| > 0
  {
    Sum(s) / |s| as real
  }

  /** The mean of a constant sequence is that constant. */
  lemma MeanOfConstant(s: seq<real>, v: real)
    requires |s| > 0
    requires forall k :: 0 <= k < |s| ==> s[k] == v
    ensures Mean(s) == v
  {
    SumOfConstant(s, v);
  }

  function Square(x: real): real
  {
    x * x
  }

  /** The squared distance of each element from m. */
  function SquaredDeviations(s: seq<real>, m: real): (d: seq<real>)
    ensures |d| == |s|
    ensures forall k :: 0 <= k < |s| ==> d[k] == Square(s[k] - m)
  {
    seq(|s|, k requires 0 <= k < |s| => Square(s[k] - m))
  }

  /** A square is nonnegative, and zero only for zero. */
  lemma SquareNonnegative(x: real)
    ensures Square(x) >= 0.0
    ensures Square(x) == 0.0 <==> x == 0.0
  {
    if x < 0.0 {
      var p := PositiveProduct(-x, -x);
      assert x * x == p;
    } else if x > 0.0 {
      var p := PositiveProduct(x, x);
    }
  }

  /** The product is returned as a value of its own: a bare `a * a > 0.0` fact is lost to the solver's rewriting. */
  lemma PositiveProduct(a: real, b: real) returns (p: real)
    requires a > 0.0 && b > 0.0
    ensures p == a * b && p > 0.0
  {
    p := a * b;
  }

  /** Population variance, the square of np.std with its default ddof = 0. */
  function Variance(s: seq<real>): (v: real)
    requires |s| > 0
    ensures v >= 0.0
  {
    var d := SquaredDeviations(s, Mean(s));
    forall k | 0 <= k < |d| ensures d[k] >= 0.0 { SquareNonnegative(s[k] - Mean(s)); }
    SumOfNonnegative(d);
    Sum(d) / |s| as real
  }

  /** Zero spread: the variance vanishes exactly when every element equals the mean. */
  lemma VarianceZeroIff(s: seq<real>)
    requires |s| > 0
    ensures Variance(s) == 0.0 <==> forall k :: 0 <= k < |s| ==> s[k] == Mean(s)
  {
    var d := SquaredDeviations(s, Mean(s));
    forall k | 0 <= k < |d| ensures d[k] >= 0.0 && (d[k] == 0.0 <==> s[k] == Mean(s)) {
      SquareNonnegative(s[k] - Mean(s));
    }
    SumOfNonnegative(d);
  }

  /** A constant sequence has that constant as mean and no spread. */
  lemma StatisticsOfConstant(s: seq<real>, v: real)
    requires |s| > 0
    requires forall k :: 0 <= k < |s| ==> s[k] == v
    ensures Mean(s) == v && Variance(s) == 0.0
  {
    MeanOfConstant(s, v);
    VarianceZeroIff(s);
  }

  /** The z-score of one value: its distance from m in units of sd. */
  function Standardize(v: real, m: real, sd: real): real
    requires sd != 0.0
  {
    (v - m) / sd
  }

  /** One denormalised value: the inverse of Standardize. */
  function Unstandardize(v: real, m: real, sd: real): real
  {
    v * sd + m
  }

  /** The two maps undo each other for a nonzero sd. */
  lemma StandardizeInverse(v: real, m: real, sd: real)
    requires sd != 0.0
    ensures Unstandardize(Standardize(v, m, sd), m, sd) == v
    ensures Standardize(Unstandardize(v, m, sd), m, sd) == v
  {
  }

  /** Every element of s standardised against m and sd. */
  function StandardizeAll(s: seq<real>, m: real, sd: real): (t: seq<real>)
    requires sd != 0.0
    ensures |t| == |s| && forall k :: 0 <= k < |s| ==> t[k] == Standardize(s[k], m, sd)
  {
    seq(|s|, k requires 0 <= k < |s| => Standardize(s[k], m, sd))
  }

  /** Every b[k] times d is a[k]'s distance from m. */
  predicate CentredMultiples(a: seq<real>, b: seq<real>, m: real, d: real)
  {
    |a| == |b| && forall k :: 0 <= k < |a| ==> b[k] * d == a[k] - m
  }

  /** Each standardised value times sd is the value's distance from m. */
  lemma StandardizedTimesSd(s: seq<real>, m: real, sd: real)
    requires sd != 0.0
    ensures CentredMultiples(s, StandardizeAll(s, m, sd), m, sd)
  {
    var t := StandardizeAll(s, m, sd);
    forall k | 0 <= k < |s|
      ensures t[k] * sd == s[k] - m
    {
      assert t[k] == (s[k] - m) / sd;
    }
  }

  /** Standardising is affine, so it commutes with summing: the sum of b times d is the sum of a less |a| * m. */
  lemma {:induction false} SumOfCentredMultiples(a: seq<real>, b: seq<real>, m: real, d: real)
    requires CentredMultiples(a, b, m, d)
    ensures Sum(b) * d == Sum(a) - |a| as real * m
  {
    if a != [] {
      assert CentredMultiples(a[1..], b[1..], m, d);
      SumOfCentredMultiples(a[1..], b[1..], m, d);
      assert Sum(a) == a[0] + Sum(a[1..]) && Sum(b) == b[0] + Sum(b[1..]);
      CentredStep(b[0], Sum(b[1..]), Sum(b), a[0], Sum(a[1..]), Sum(a), (|a| - 1) as real, |a| as real, m, d);
    }
  }

  /** One step of SumOfCentredMultiples: the head joins the tail. */
  lemma CentredStep(b0: real, tailB: real, sumB: real, a0: real, tailA: real, sumA: real, n: real, count: real, m: real, d: real)
    requires sumB == b0 + tailB && sumA == a0 + tailA && count == n + 1.0
    requires b0 * d == a0 - m && tailB * d == tailA - n * m
    ensures sumB * d == sumA - count * m
  {
    assert sumB * d == b0 * d + tailB * d;
  }

  /** Dividing every term by c divides the sum by c. */
  lemma {:induction false} SumOfQuotients(a: seq<real>, b: seq<real>, c: real)
    requires c != 0.0 && |a| == |b|
    requires forall k :: 0 <= k < |a| ==> b[k] == a[k] / c
    ensures Sum(b) == Sum(a) / c
  {
    if a != [] {
      SumOfQuotients(a[1..], b[1..], c);
    }
  }

  /** Standardised against its own mean, a sequence has mean zero. */
  lemma MeanOfStandardized(s: seq<real>, sd: real)
    requires |s| > 0 && sd != 0.0
    ensures Mean(StandardizeAll(s, Mean(s), sd)) == 0.0
  {
    var t := StandardizeAll(s, Mean(s), sd);
    StandardizedTimesSd(s, Mean(s), sd);
    SumOfCentredMultiples(s, t, Mean(s), sd);
    assert Sum(s) - |s| as real * Mean(s) == 0.0;
    ZeroProduct(Sum(t), sd);
  }

  lemma ZeroProduct(a: real, b: real)
    requires b != 0.0 && a * b == 0.0
    ensures a == 0.0
  {
    assert a == a * b / b;
  }

  /** Standardised against its own mean and std, a sequence has variance one. */
  lemma VarianceOfStandardized(s: seq<real>, sd: real)
    requires |s| > 0 && sd != 0.0 && Square(sd) == Variance(s)
    ensures Variance(StandardizeAll(s, Mean(s), sd)) == 1.0
  {
    var m := Mean(s);
    var t := StandardizeAll(s, m, sd);
    MeanOfStandardized(s, sd);
    var d := SquaredDeviations(s, m);
    var e := SquaredDeviations(t, Mean(t));
    SquareNonnegative(sd);
    forall k | 0 <= k < |s|
      ensures e[k] == d[k] / Square(sd)
    {
      assert t[k] - Mean(t) == (s[k] - m) / sd;
      SquareOfQuotient(s[k] - m, sd);
    }
    SumOfQuotients(d, e, Square(sd));
    assert Variance(t) == (Sum(d) / Square(sd)) / |s| as real;
    assert Variance(s) == Sum(d) / |s| as real;
    QuotientOfQuotient(Sum(d), Square(sd), |s| as real);
  }

  lemma SquareOfQuotient(a: real, b: real)
    requires b != 0.0
    ensures Square(b) != 0.0 && Square(a / b) == Square(a) / Square(b)
  {
    SquareNonnegative(b);
    assert (a / b) * (a / b) * (b * b) == a * a;
  }

  /** When a / n is b, a / b is n, so (a / b) / n is one. */
  lemma QuotientOfQuotient(a: real, b: real, n: real)
    requires b != 0.0 && n != 0.0 && a / n == b
    ensures (a / b) / n == 1.0
  {
    assert a == b * n;
    assert a / b == n;
  }
}
