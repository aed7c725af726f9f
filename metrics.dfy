/**
 * The two error measures of mlp4.py: my_metric, the mean absolute error over a whole batch,
 * and get_score, one minus the sum of relative errors divided by the fixed constant 60.
 * Both walk the matrices in row-major order, as numpy's whole-array reductions do.
 */
module Metrics {
  import opened Wrappers
  import opened Matrices
  import opened Statistics

  function Abs(v: real): real
  {
    if v < 0.0 then -v else v
  }

  /** Both matrices hold rows of one shape, as the elementwise difference needs. */
  predicate SameShape(a: Matrix, b: Matrix)
  {
    a.Valid() && b.Valid() && a.rows == b.rows && a.cols == b.cols
  }

  /** `np.abs(t - p)`, entry by entry. */
  function AbsErrors(t: seq<real>, p: seq<real>): (e: seq<real>)
    requires |t| == |p|
    ensures |e| == |t|
    ensures forall k :: 0 <= k < |e| ==> e[k] >= 0.0 && (e[k] == 0.0 <==> t[k] == p[k])
  {
    seq(|t|, k requires 0 <= k < |t| => Abs(t[k] - p[k]))
  }

  /** my_metric: np.mean(np.abs(y_true - y_pred)); None where numpy's mean of no entries is NaN. */
  function MeanAbsError(yTrue: Matrix, yPred: Matrix): (r: Option<real>)
    requires SameShape(yTrue, yPred)
    ensures r.Some? <==> yTrue.rows > 0 && yTrue.cols > 0
    ensures r.Some? ==> r.value >= 0.0
  {
    RowMajorLength(yTrue);
    RowMajorLength(yPred);
    MulPositive(yTrue.rows, yTrue.cols);
    var e := AbsErrors(RowMajor(yTrue.cells), RowMajor(yPred.cells));
    SumOfNonnegative(e);
    if |e| == 0 then None else Some(Mean(e))
  }

  /** Two matrices of one shape with the same row-major entries are equal. */
  lemma RowMajorInjective(a: Matrix, b: Matrix)
    requires SameShape(a, b) && RowMajor(a.cells) == RowMajor(b.cells)
    ensures a == b
  {
    forall r, c | 0 <= r < a.rows && 0 <= c < a.cols
      ensures a.cells[r][c] == b.cells[r][c]
    {
      RowMajorAt(a, r, c);
      RowMajorAt(b, r, c);
    }
    MatrixEquality(a, b);
  }

  /** The mean absolute error of a nonempty batch is zero exactly when the prediction is exact. */
  lemma MeanAbsErrorZeroIff(yTrue: Matrix, yPred: Matrix)
    requires SameShape(yTrue, yPred) && yTrue.rows > 0 && yTrue.cols > 0
    ensures MeanAbsError(yTrue, yPred) == Some(0.0) <==> yTrue == yPred
  {
    var t, p := RowMajor(yTrue.cells), RowMajor(yPred.cells);
    RowMajorLength(yTrue);
    RowMajorLength(yPred);
    var e := AbsErrors(t, p);
    SumOfNonnegative(e);
    if MeanAbsError(yTrue, yPred) == Some(0.0) {
      assert Sum(e) == 0.0;
      assert t == p;
      RowMajorInjective(yTrue, yPred);
    }
  }

  /** No entry is zero: get_score divides by every entry of y_true. */
  predicate NoZeroEntries(m: Matrix)
  {
    m.Valid() && forall r, c :: 0 <= r < m.rows && 0 <= c < m.cols ==> m.cells[r][c] != 0.0
  }

  /** Every entry is positive, as sales volumes are. */
  predicate PositiveEntries(m: Matrix)
  {
    m.Valid() && forall r, c :: 0 <= r < m.rows && 0 <= c < m.cols ==> m.cells[r][c] > 0.0
  }

  /** `np.abs(p - t) / t`, entry by entry. */
  function RelativeErrors(t: seq<real>, p: seq<real>): (e: seq<real>)
    requires |t| == |p| && forall k :: 0 <= k < |t| ==> t[k] != 0.0
    ensures |e| == |t|
  {
    seq(|t|, k requires 0 <= k < |t| => Abs(p[k] - t[k]) / t[k])
  }

  /** Row-major order lists nothing but the matrix's entries. */
  lemma RowMajorEntry(m: Matrix, k: nat)
    requires m.Valid() && k < |RowMajor(m.cells)|
    ensures exists r, c :: 0 <= r < m.rows && 0 <= c < m.cols && RowMajor(m.cells)[k] == m.cells[r][c]
  {
    RowMajorLength(m);
    var r, c := SplitIndex(k, m.rows, m.cols);
    RowMajorAt(m, r, c);
  }

  /** Row-major order of a matrix with no zero entry has no zero element. */
  lemma RowMajorNonzero(m: Matrix)
    requires NoZeroEntries(m)
    ensures forall k :: 0 <= k < |RowMajor(m.cells)| ==> RowMajor(m.cells)[k] != 0.0
  {
    forall k | 0 <= k < |RowMajor(m.cells)| {
      RowMajorEntry(m, k);
    }
  }

  /** Row-major order of a matrix with positive entries has positive elements. */
  lemma RowMajorPositive(m: Matrix)
    requires PositiveEntries(m)
    ensures forall k :: 0 <= k < |RowMajor(m.cells)| ==> RowMajor(m.cells)[k] > 0.0
  {
    forall k | 0 <= k < |RowMajor(m.cells)| {
      RowMajorEntry(m, k);
    }
  }

  /** get_score: 1 - sum(|y_pred - y_true| / y_true) / 60, the sum of ratios over a fixed 60. */
  function Score(yTrue: Matrix, yPred: Matrix): (r: real)
    requires SameShape(yTrue, yPred) && NoZeroEntries(yTrue)
    ensures PositiveEntries(yTrue) ==> r <= 1.0
  {
    RowMajorLength(yTrue);
    RowMajorLength(yPred);
    RowMajorNonzero(yTrue);
    var total := Sum(RelativeErrors(RowMajor(yTrue.cells), RowMajor(yPred.cells)));
    assert PositiveEntries(yTrue) ==> total >= 0.0 by {
      if PositiveEntries(yTrue) {
        RowMajorPositive(yTrue);
        RelativeErrorsSum(RowMajor(yTrue.cells), RowMajor(yPred.cells));
      }
    }
    1.0 - total / 60.0
  }

  /** An exact prediction scores 1. */
  lemma ScoreOfExact(y: Matrix)
    requires NoZeroEntries(y)
    ensures Score(y, y) == 1.0
  {
    RowMajorLength(y);
    RowMajorNonzero(y);
    var t := RowMajor(y.cells);
    SumOfConstant(RelativeErrors(t, t), 0.0);
  }

  /** A relative error against a positive truth is nonnegative, and zero only for an exact value. */
  lemma RelativeErrorSign(t: real, p: real)
    requires t > 0.0
    ensures Abs(p - t) / t >= 0.0
    ensures Abs(p - t) / t == 0.0 <==> p == t
  {
    if p != t {
      var q := PositiveQuotient(Abs(p - t), t);
    }
  }

  lemma PositiveQuotient(a: real, b: real) returns (q: real)
    requires a > 0.0 && b > 0.0
    ensures q == a / b && q > 0.0
  {
    q := a / b;
  }

  /** Against positive truths the summed relative error is nonnegative, and zero exactly for an exact prediction. */
  lemma RelativeErrorsSum(t: seq<real>, p: seq<real>)
    requires |t| == |p| && forall k :: 0 <= k < |t| ==> t[k] > 0.0
    ensures Sum(RelativeErrors(t, p)) >= 0.0
    ensures Sum(RelativeErrors(t, p)) == 0.0 <==> t == p
  {
    var e := RelativeErrors(t, p);
    forall k | 0 <= k < |e|
      ensures e[k] >= 0.0 && (e[k] == 0.0 <==> t[k] == p[k])
    {
      RelativeErrorSign(t[k], p[k]);
    }
    SumOfNonnegative(e);
  }

  /** With positive truths the score is at most 1, and equals 1 exactly when the prediction is exact. */
  lemma ScoreAtMostOne(yTrue: Matrix, yPred: Matrix)
    requires SameShape(yTrue, yPred) && PositiveEntries(yTrue)
    ensures Score(yTrue, yPred) <= 1.0
    ensures Score(yTrue, yPred) == 1.0 <==> yTrue == yPred
  {
    RowMajorLength(yTrue);
    RowMajorLength(yPred);
    RowMajorPositive(yTrue);
    RelativeErrorsSum(RowMajor(yTrue.cells), RowMajor(yPred.cells));
    if Score(yTrue, yPred) == 1.0 {
      RowMajorInjective(yTrue, yPred);
    }
  }
}
