/**
 * How main in mlp4.py chains the scaler: it fits the tables on the twelve history months,
 * standardises history and target months with range(0, 12), and denormalises the network's
 * predictions with the same tables before measuring them against the true targets.
 * The network itself is not modelled; the lemmas here say what holds whatever it predicts,
 * and what an exact prediction would give.
 */
module Pipeline {
  import opened Wrappers
  import opened Matrices
  import opened Statistics
  import opened Scaler
  import opened Metrics

  /** `range(0, n)`. */
  function Range(n: nat): (r: seq<int>)
    ensures |r| == n && forall c :: 0 <= c < n ==> r[c] == c
  {
    seq(n, c requires 0 <= c < n => c)
  }

  /** range(0, 12) sends each of twelve columns to its own month slot. */
  lemma RangeIsCalendarMap()
    ensures CalendarMap(Range(Months))
  {
    forall c | 0 <= c < Months
      ensures Range(Months)[c] == c % Months
    {
      DivModUnique(c, Months, 0, c);
    }
  }

  /**
   * Lines 74-79 of main: with tables fitted on the history months x[:, :12] and no month of zero
   * spread, the standardised history has mean 0 and variance 1 in every month, scaling the target
   * months x[:, 12:] succeeds, and denormalising those standardised targets gives y_true back, at
   * mean absolute error 0.
   */
  lemma MainScaling(x: Matrix, sigma: seq<real>)
    requires x.Valid() && x.cols == 24 && x.rows > 0
    requires Fit(ColumnSlice(x, 0, 12)).Ok?
    requires IsStdDev(sigma, Fit(ColumnSlice(x, 0, 12)).value.variance)
    requires forall i :: 0 <= i < Months ==> Fit(ColumnSlice(x, 0, 12)).value.variance[i] != 0.0
    ensures SigmasNonzero(sigma, Range(Months))
    ensures ScaledTo(ColumnSlice(x, 0, 12), Fit(ColumnSlice(x, 0, 12)).value.mu, sigma, Range(Months)).Ok?
    ensures Fit(ScaledTo(ColumnSlice(x, 0, 12), Fit(ColumnSlice(x, 0, 12)).value.mu, sigma, Range(Months)).value)
      == Ok(Stats(seq(Months, i => 0.0), seq(Months, i => 1.0)))
    ensures ScaledTo(ColumnSlice(x, 12, 24), Fit(ColumnSlice(x, 0, 12)).value.mu, sigma, Range(Months)).Ok?
    ensures ScaledBack(
      ScaledTo(ColumnSlice(x, 12, 24), Fit(ColumnSlice(x, 0, 12)).value.mu, sigma, Range(Months)).value,
      Fit(ColumnSlice(x, 0, 12)).value.mu, sigma, Range(Months)) == Ok(ColumnSlice(x, 12, 24))
    ensures MeanAbsError(ColumnSlice(x, 12, 24), ColumnSlice(x, 12, 24)) == Some(0.0)
  {
    var history, targets := ColumnSlice(x, 0, 12), ColumnSlice(x, 12, 24);
    var st := Fit(history).value;
    RangeIsCalendarMap();
    FittedScalingStandardises(history, sigma, Range(Months));
    var fitted := Fit(ScaledTo(history, st.mu, sigma, Range(Months)).value).value;
    assert fitted.mu == seq(Months, i => 0.0);
    assert fitted.variance == seq(Months, i => 1.0);
    CalendarMapLookup(st.mu, sigma, Range(Months)) by {
      forall t | 0 <= t < Months ensures sigma[t] != 0.0 {
        StdDevZeroIff(sigma, st.variance, t);
      }
    }
    ScaleRoundTrip(targets, st.mu, sigma, Range(Months));
    MeanAbsErrorZeroIff(targets, targets);
  }

  /** The two rows 1..24 and 25..48 as one matrix; fitting uses its first twelve columns. */
  function ExampleMatrix(): (m: Matrix)
    ensures m.Valid() && m.rows == 2 && m.cols == 24
  {
    Matrix(2, 24, [seq(24, c => (c + 1) as real), seq(24, c => (c + 25) as real)])
  }

  /** Two samples have their midpoint as mean and half their distance, squared, as variance. */
  lemma PairStatistics(a: real, b: real)
    ensures Mean([a, b]) == (a + b) / 2.0
    ensures Variance([a, b]) == Square((b - a) / 2.0)
  {
    var s := [a, b];
    SumOfPair(a, b);
    var d := SquaredDeviations(s, Mean(s));
    assert d == [Square((a - b) / 2.0), Square((b - a) / 2.0)];
    SumOfPair(Square((a - b) / 2.0), Square((b - a) / 2.0));
  }

  lemma SumOfPair(a: real, b: real)
    ensures Sum([a, b]) == a + b
  {
    var s := [a, b];
    assert s[1..] == [b] && s[1..][1..] == [];
    assert Sum(s[1..]) == b + Sum(s[1..][1..]);
    assert Sum(s) == s[0] + Sum(s[1..]);
  }

  /** Fitting the history months of that matrix: month i has the values i + 1 and i + 25, mean i + 13, variance 144. */
  lemma ExampleFit()
    ensures Fit(ColumnSlice(ExampleMatrix(), 0, 12))
      == Ok(Stats(seq(Months, i => (i + 13) as real), seq(Months, i => 144.0)))
  {
    var h := ColumnSlice(ExampleMatrix(), 0, 12);
    var mu, variance := seq(Months, i => (i + 13) as real), seq(Months, i => 144.0);
    forall i | 0 <= i < Months
      ensures MonthMean(h, i) == mu[i] && MonthVariance(h, i) == variance[i]
    {
      ExampleMonth(i);
    }
    FitTables(h, mu, variance);
  }

  /** Month i of the history holds the two values i + 1 and i + 25. */
  lemma ExampleMonth(i: nat)
    requires i < Months
    ensures ColumnSlice(ExampleMatrix(), 0, 12).Valid()
    ensures MonthMean(ColumnSlice(ExampleMatrix(), 0, 12), i) == (i + 13) as real
    ensures MonthVariance(ColumnSlice(ExampleMatrix(), 0, 12), i) == 144.0
  {
    var h := ColumnSlice(ExampleMatrix(), 0, 12);
    var a, b := (i + 1) as real, (i + 25) as real;
    assert h.rows == 2 && h.cols == 12 && SlotColumn(i, 0) == i;
    assert h.cells[0][i] == a && h.cells[1][i] == b;
    SlotSamplesAt(h, i, 0, 0);
    SlotSamplesAt(h, i, 1, 0);
    var s := SlotSamples(h, i);
    assert |s| == 2 && s[0] == a && s[1] == b;
    assert s == [a, b];
    PairStatistics(a, b);
    assert Square((b - a) / 2.0) == Square(12.0);
  }
}
