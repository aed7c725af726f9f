/**
 * The per-calendar-month standardisation scaler of mlp4.py: scale_fit computes, for each of the
 * twelve month offsets, the mean and spread of the columns i, i + 12, i + 24, ...; scale_to
 * standardises a matrix column by column through a column-to-offset map; scale_back undoes it.
 *
 * Values are reals. np.std is the square root of the population variance; the model's fit returns
 * the variance, and IsStdDev says what a sigma table computed from it is.
 */
module Scaler {
  import opened Wrappers
  import opened Matrices
  import opened Statistics

  /** One statistics slot per calendar month. */
  const Months: nat := 12

  /** Why a scaler call yields no tables or no matrix. */
  datatype ScaleError =
    | ColumnsNotMultipleOfMonths  // the assert guarding scale_fit
    | NoSamples                   // an empty selection: numpy's mean and std would be NaN
    | ColumnCountMismatch         // the assert guarding scale_to and scale_back
    | MonthOutOfRange             // indexing mu or sigma with month_range[i] raises IndexError

  /** The two 12-slot tables of scale_fit: per-month means and variances (std squared). */
  datatype Stats = Stats(mu: seq<real>, variance: seq<real>)

  // ---------------------------------------------------------------------------------------------
  // scale_fit

  /** Column j of the block structure for month offset i: the list `i + 12 * j` of scale_fit. */
  function SlotColumn(i: nat, j: nat): nat
  {
    i + Months * j
  }

  /** `x[:, [i + 12 * j for j in range(cols // 12)]]`: the columns of month offset i. */
  function Gather(x: Matrix, i: nat): (g: Matrix)
    requires x.Valid() && x.cols % Months == 0 && i < Months
    ensures g.Valid() && g.rows == x.rows && g.cols == x.cols / Months
  {
    Matrix(x.rows, x.cols / Months,
      seq(x.rows, r requires 0 <= r < x.rows =>
        seq(x.cols / Months, j requires 0 <= j < x.cols / Months => x.cells[r][SlotColumn(i, j)])))
  }

  /** The entries of month offset i, in the order numpy reduces them. */
  function SlotSamples(x: Matrix, i: nat): (s: seq<real>)
    requires x.Valid() && x.cols % Months == 0 && i < Months
    ensures |s| == x.rows * (x.cols / Months)
    ensures x.rows > 0 && x.cols > 0 ==> |s| > 0
  {
    var g := Gather(x, i);
    RowMajorLength(g);
    MulPositive(g.rows, g.cols);
    RowMajor(g.cells)
  }

  /** The mean of month offset i's samples: `np.mean(x[:, [i + 12 * j ...]])`. */
  function MonthMean(x: Matrix, i: nat): real
    requires x.Valid() && x.cols % Months == 0 && i < Months && x.rows > 0 && x.cols > 0
  {
    Mean(SlotSamples(x, i))
  }

  /** The population variance of month offset i's samples, the square of `np.std(...)`. */
  function MonthVariance(x: Matrix, i: nat): real
    requires x.Valid() && x.cols % Months == 0 && i < Months && x.rows > 0 && x.cols > 0
  {
    Variance(SlotSamples(x, i))
  }

  /** scale_fit: the means and variances of the twelve month offsets. */
  function Fit(x: Matrix): (r: Result<Stats, ScaleError>)
    requires x.Valid()
    ensures r == Err(ColumnsNotMultipleOfMonths) <==> x.cols % Months != 0
    ensures r == Err(NoSamples) <==> x.cols % Months == 0 && (x.rows == 0 || x.cols == 0)
    ensures r.Ok? ==> |r.value.mu| == Months && |r.value.variance| == Months
    ensures r.Ok? ==> forall i :: 0 <= i < Months ==> r.value.variance[i] >= 0.0
  {
    if x.cols % Months != 0 then Err(ColumnsNotMultipleOfMonths)
    else if x.rows == 0 || x.cols == 0 then Err(NoSamples)
    else Ok(Stats(
      seq(Months, i requires 0 <= i < Months => MonthMean(x, i)),
      seq(Months, i requires 0 <= i < Months => MonthVariance(x, i))))
  }

  /** The samples of offset i are exactly the entries x[r][i + 12 * j], row by row. */
  lemma SlotSamplesAt(x: Matrix, i: nat, r: nat, j: nat)
    requires x.Valid() && x.cols % Months == 0 && i < Months
    requires r < x.rows && j < x.cols / Months
    ensures r * (x.cols / Months) + j < |SlotSamples(x, i)|
    ensures SlotSamples(x, i)[r * (x.cols / Months) + j] == x.cells[r][SlotColumn(i, j)]
  {
    RowMajorAt(Gather(x, i), r, j);
  }

  /** Every column belongs to exactly one month offset: column c is position c / 12 of offset c % 12. */
  lemma ColumnInExactlyOneSlot(cols: nat, c: nat)
    requires cols % Months == 0 && c < cols
    ensures c % Months < Months && c / Months < cols / Months
    ensures SlotColumn(c % Months, c / Months) == c
    ensures forall i: nat, j: nat :: i < Months && SlotColumn(i, j) == c ==> i == c % Months && j == c / Months
  {
    forall i: nat, j: nat | i < Months && SlotColumn(i, j) == c
      ensures i == c % Months && j == c / Months
    {
      DivModUnique(c, Months, j, i);
    }
  }

  /** Entry (r, c) is among the samples of month c % 12, at position r * (cols / 12) + c / 12. */
  lemma EntryInItsMonthSlot(x: Matrix, r: nat, c: nat)
    requires x.Valid() && x.cols % Months == 0 && r < x.rows && c < x.cols
    ensures c % Months < Months && c / Months < x.cols / Months
    ensures r * (x.cols / Months) + c / Months < |SlotSamples(x, c % Months)|
    ensures SlotSamples(x, c % Months)[r * (x.cols / Months) + c / Months] == x.cells[r][c]
  {
    ColumnInExactlyOneSlot(x.cols, c);
    SlotSamplesAt(x, c % Months, r, c / Months);
  }

  /** On a matrix whose entries all equal v, every month's mean is v and its variance is zero. */
  lemma FitOfConstant(x: Matrix, v: real)
    requires x.Valid() && Fit(x).Ok?
    requires forall r, c :: 0 <= r < x.rows && 0 <= c < x.cols ==> x.cells[r][c] == v
    ensures forall i :: 0 <= i < Months ==> Fit(x).value.mu[i] == v && Fit(x).value.variance[i] == 0.0
  {
    forall i | 0 <= i < Months
      ensures Fit(x).value.mu[i] == v && Fit(x).value.variance[i] == 0.0
    {
      SlotSamplesOfConstant(x, i, v);
      StatisticsOfConstant(SlotSamples(x, i), v);
    }
  }

  lemma SlotSamplesOfConstant(x: Matrix, i: nat, v: real)
    requires x.Valid() && x.cols % Months == 0 && i < Months
    requires forall r, c :: 0 <= r < x.rows && 0 <= c < x.cols ==> x.cells[r][c] == v
    ensures forall n :: 0 <= n < |SlotSamples(x, i)| ==> SlotSamples(x, i)[n] == v
  {
    var s := SlotSamples(x, i);
    var k := x.cols / Months;
    forall n | 0 <= n < |s|
      ensures s[n] == v
    {
      MulPositive(x.rows, k);
      DivBelow(n, k, x.rows);
      DivMod(n, k);
      SlotSamplesAt(x, i, n / k, n % k);
    }
  }

  /** sigma is np.std of the fitted variances: a nonnegative square root, slot by slot. */
  predicate IsStdDev(sigma: seq<real>, variance: seq<real>)
  {
    |sigma| == |variance| &&
    forall i :: 0 <= i < |sigma| ==> sigma[i] >= 0.0 && Square(sigma[i]) == variance[i]
  }

  /** A slot's std is zero exactly when its variance is: the zero-spread case that makes scale_to divide by zero. */
  lemma StdDevZeroIff(sigma: seq<real>, variance: seq<real>, i: nat)
    requires IsStdDev(sigma, variance) && i < |sigma|
    ensures sigma[i] == 0.0 <==> variance[i] == 0.0
  {
    SquareNonnegative(sigma[i]);
  }

  /**
   * scale_fit over an array: fills two fresh 12-slot tables, one month offset per iteration.
   * The variance table stands for sigma squared.
   */
  method ScaleFit(x: array2<real>) returns (r: Result<(array<real>, array<real>), ScaleError>)
    ensures r.Ok? ==> fresh(r.value.0) && fresh(r.value.1)
    ensures Fit(FromArray(x)) == match r
      case Ok(tables) => Ok(Stats(tables.0[..], tables.1[..]))
      case Err(e) => Err(e)
  {
    if x.Length1 % Months != 0 {
      return Err(ColumnsNotMultipleOfMonths);
    }
    if x.Length0 == 0 || x.Length1 == 0 {
      return Err(NoSamples);
    }
    var mu, variance := FillTables(FromArray(x));
    return Ok((mu, variance));
  }

  /** The loop of scale_fit: month offset i's mean and variance go into slot i of two fresh tables. */
  method FillTables(m: Matrix) returns (mu: array<real>, variance: array<real>)
    requires m.Valid() && m.cols % Months == 0 && m.rows > 0 && m.cols > 0
    ensures fresh(mu) && fresh(variance)
    ensures Fit(m) == Ok(Stats(mu[..], variance[..]))
  {
    mu := new real[Months];
    variance := new real[Months];
    for i := 0 to Months
      invariant forall t :: 0 <= t < i ==> mu[t] == MonthMean(m, t)
      invariant forall t :: 0 <= t < i ==> variance[t] == MonthVariance(m, t)
    {
      mu[i] := MonthMean(m, i);
      variance[i] := MonthVariance(m, i);
    }
    FitTables(m, mu[..], variance[..]);
  }

  /** Two 12-slot tables holding each month's mean and variance are what Fit returns. */
  lemma FitTables(x: Matrix, mu: seq<real>, variance: seq<real>)
    requires x.Valid() && x.cols % Months == 0 && x.rows > 0 && x.cols > 0
    requires |mu| == Months && forall t :: 0 <= t < Months ==> mu[t] == MonthMean(x, t)
    requires |variance| == Months && forall t :: 0 <= t < Months ==> variance[t] == MonthVariance(x, t)
    ensures Fit(x) == Ok(Stats(mu, variance))
  {
    assert mu == Fit(x).value.mu;
    assert variance == Fit(x).value.variance;
  }

  // ---------------------------------------------------------------------------------------------
  // scale_to and scale_back

  /** Python accepts an index k into a table of n entries when -n <= k < n. */
  predicate InBounds(k: int, n: nat)
  {
    -(n as int) <= k < n
  }

  /** `t[k]` with Python's reading of a negative index as counted from the end. */
  function Lookup(t: seq<real>, k: int): (v: real)
    requires InBounds(k, |t|)
    ensures v == t[k % |t|]
  {
    if k < 0 then
      DivModUnique(k + |t|, |t|, 0, k + |t|);
      t[|t| + k]
    else
      DivModUnique(k, |t|, 0, k);
      t[k]
  }

  /** Every entry of the month map indexes both tables. */
  predicate MonthsIndexable(monthRange: seq<int>, mu: seq<real>, sigma: seq<real>)
  {
    forall k :: 0 <= k < |monthRange| ==> InBounds(monthRange[k], |mu|) && InBounds(monthRange[k], |sigma|)
  }

  /** No column is divided by a zero std (numpy would produce inf or NaN there). */
  predicate SigmasNonzero(sigma: seq<real>, monthRange: seq<int>)
  {
    forall k :: 0 <= k < |monthRange| && InBounds(monthRange[k], |sigma|) ==> Lookup(sigma, monthRange[k]) != 0.0
  }

  /** Why scale_to and scale_back fail, in the order the source meets the conditions. */
  function ScaleCheck(x: Matrix, mu: seq<real>, sigma: seq<real>, monthRange: seq<int>): Option<ScaleError>
  {
    if x.cols != |monthRange| then Some(ColumnCountMismatch)
    else if !MonthsIndexable(monthRange, mu, sigma) then Some(MonthOutOfRange)
    else None
  }

  /**
   * scale_to: column c becomes (x[:, c] - mu[month_range[c]]) / sigma[month_range[c]].
   * Only a call that gets past the assert and every index, and has rows to divide, needs nonzero stds.
   */
  function ScaledTo(x: Matrix, mu: seq<real>, sigma: seq<real>, monthRange: seq<int>): (r: Result<Matrix, ScaleError>)
    requires x.Valid()
    requires ScaleCheck(x, mu, sigma, monthRange).None? && x.rows > 0 ==> SigmasNonzero(sigma, monthRange)
    ensures r.Err? <==> ScaleCheck(x, mu, sigma, monthRange).Some?
    ensures r.Err? ==> r.error == ScaleCheck(x, mu, sigma, monthRange).value
    ensures r.Ok? ==> r.value.Valid() && r.value.rows == x.rows && r.value.cols == x.cols
  {
    match ScaleCheck(x, mu, sigma, monthRange)
    case Some(e) => Err(e)
    case None => Ok(Matrix(x.rows, x.cols,
      seq(x.rows, r requires 0 <= r < x.rows =>
        seq(x.cols, c requires 0 <= c < x.cols =>
          Standardize(x.cells[r][c], Lookup(mu, monthRange[c]), Lookup(sigma, monthRange[c]))))))
  }

  /** scale_back: column c becomes xs[:, c] * sigma[month_range[c]] + mu[month_range[c]]. */
  function ScaledBack(xs: Matrix, mu: seq<real>, sigma: seq<real>, monthRange: seq<int>): (r: Result<Matrix, ScaleError>)
    requires xs.Valid()
    ensures r.Err? <==> ScaleCheck(xs, mu, sigma, monthRange).Some?
    ensures r.Err? ==> r.error == ScaleCheck(xs, mu, sigma, monthRange).value
    ensures r.Ok? ==> r.value.Valid() && r.value.rows == xs.rows && r.value.cols == xs.cols
  {
    match ScaleCheck(xs, mu, sigma, monthRange)
    case Some(e) => Err(e)
    case None => Ok(Matrix(xs.rows, xs.cols,
      seq(xs.rows, r requires 0 <= r < xs.rows =>
        seq(xs.cols, c requires 0 <= c < xs.cols =>
          Unstandardize(xs.cells[r][c], Lookup(mu, monthRange[c]), Lookup(sigma, monthRange[c]))))))
  }

  /**
   * A zero std is harmless when the column count is wrong or a map entry is out of range:
   * the assert or the index fails before any division, whatever sigma holds.
   */
  lemma ScaledToChecksBeforeDividing(x: Matrix, mu: seq<real>, sigma: seq<real>, monthRange: seq<int>)
    requires x.Valid() && ScaleCheck(x, mu, sigma, monthRange).Some?
    ensures ScaledTo(x, mu, sigma, monthRange) == Err(ScaleCheck(x, mu, sigma, monthRange).value)
  {
  }

  /** Nor when x has no rows: there is nothing to divide, and the result is the empty matrix of x's shape. */
  lemma ScaledToWithoutRows(x: Matrix, mu: seq<real>, sigma: seq<real>, monthRange: seq<int>)
    requires x.Valid() && x.rows == 0 && ScaleCheck(x, mu, sigma, monthRange).None?
    ensures ScaledTo(x, mu, sigma, monthRange) == Ok(Matrix(0, x.cols, []))
  {
  }

  /** Both cases with a zero std: a column-count mismatch, an out-of-range month, and a matrix without rows. */
  lemma ScaledToZeroStdExamples()
    ensures ScaledTo(Matrix(1, 2, [[1.0, 2.0]]), [0.0], [0.0], [0]) == Err(ColumnCountMismatch)
    ensures ScaledTo(Matrix(1, 1, [[1.0]]), [0.0], [0.0], [1]) == Err(MonthOutOfRange)
    ensures ScaledTo(Matrix(0, 1, []), [5.0], [0.0], [0]) == Ok(Matrix(0, 1, []))
  {
    assert [1][0] == 1 && !InBounds(1, 1);
    ScaledToChecksBeforeDividing(Matrix(1, 1, [[1.0]]), [0.0], [0.0], [1]);
    ScaledToWithoutRows(Matrix(0, 1, []), [5.0], [0.0], [0]);
  }

  /** Round trip: scale_back undoes scale_to whenever no std used is zero. */
  lemma ScaleRoundTrip(x: Matrix, mu: seq<real>, sigma: seq<real>, monthRange: seq<int>)
    requires x.Valid() && SigmasNonzero(sigma, monthRange)
    requires ScaledTo(x, mu, sigma, monthRange).Ok?
    ensures ScaledBack(ScaledTo(x, mu, sigma, monthRange).value, mu, sigma, monthRange) == Ok(x)
  {
    var xs := ScaledTo(x, mu, sigma, monthRange).value;
    var y := ScaledBack(xs, mu, sigma, monthRange).value;
    forall r, c | 0 <= r < x.rows && 0 <= c < x.cols
      ensures y.cells[r][c] == x.cells[r][c]
    {
      StandardizeInverse(x.cells[r][c], Lookup(mu, monthRange[c]), Lookup(sigma, monthRange[c]));
    }
    MatrixEquality(y, x);
  }

  /** The converse round trip: scale_to undoes scale_back under the same condition. */
  lemma ScaleBackRoundTrip(xs: Matrix, mu: seq<real>, sigma: seq<real>, monthRange: seq<int>)
    requires xs.Valid() && SigmasNonzero(sigma, monthRange)
    requires ScaledBack(xs, mu, sigma, monthRange).Ok?
    ensures ScaledTo(ScaledBack(xs, mu, sigma, monthRange).value, mu, sigma, monthRange) == Ok(xs)
  {
    var x := ScaledBack(xs, mu, sigma, monthRange).value;
    var y := ScaledTo(x, mu, sigma, monthRange).value;
    forall r, c | 0 <= r < xs.rows && 0 <= c < xs.cols
      ensures y.cells[r][c] == xs.cells[r][c]
    {
      StandardizeInverse(xs.cells[r][c], Lookup(mu, monthRange[c]), Lookup(sigma, monthRange[c]));
    }
    MatrixEquality(y, xs);
  }

  /**
   * Column c of scale_to's result depends only on column c of the input and on which
   * mean and std the map sends column c to: matrices and tables that agree there give the same column.
   */
  lemma ScaledColumnIsLocal(
    x: Matrix, mu: seq<real>, sigma: seq<real>,
    y: Matrix, mu': seq<real>, sigma': seq<real>,
    monthRange: seq<int>, c: nat)
    requires x.Valid() && y.Valid() && x.rows == y.rows && x.cols == y.cols && c < x.cols
    requires SigmasNonzero(sigma, monthRange) && SigmasNonzero(sigma', monthRange)
    requires ScaledTo(x, mu, sigma, monthRange).Ok? && ScaledTo(y, mu', sigma', monthRange).Ok?
    requires forall r :: 0 <= r < x.rows ==> x.cells[r][c] == y.cells[r][c]
    requires Lookup(mu, monthRange[c]) == Lookup(mu', monthRange[c])
    requires Lookup(sigma, monthRange[c]) == Lookup(sigma', monthRange[c])
    ensures forall r :: 0 <= r < x.rows ==>
      ScaledTo(x, mu, sigma, monthRange).value.cells[r][c] == ScaledTo(y, mu', sigma', monthRange).value.cells[r][c]
  {
  }

  /**
   * scale_to over arrays: checks the shape and the month map, allocates a zero matrix of x's shape
   * and fills it column by column.
   */
  method ScaleTo(x: array2<real>, mu: array<real>, sigma: array<real>, monthRange: seq<int>)
    returns (r: Result<array2<real>, ScaleError>)
    requires ScaleCheck(FromArray(x), mu[..], sigma[..], monthRange).None? && x.Length0 > 0 ==>
      SigmasNonzero(sigma[..], monthRange)
    ensures r.Ok? ==> fresh(r.value)
    ensures ScaledTo(FromArray(x), mu[..], sigma[..], monthRange) == match r
      case Ok(xs) => Ok(FromArray(xs))
      case Err(e) => Err(e)
  {
    if x.Length1 != |monthRange| {
      return Err(ColumnCountMismatch);
    }
    if !MonthsIndexable(monthRange, mu[..], sigma[..]) {
      return Err(MonthOutOfRange);
    }
    var xs := new real[x.Length0, x.Length1];
    for i := 0 to x.Length1
      invariant forall row, c :: 0 <= row < x.Length0 && 0 <= c < i ==>
        xs[row, c] == Standardize(x[row, c], Lookup(mu[..], monthRange[c]), Lookup(sigma[..], monthRange[c]))
    {
      var month := monthRange[i];
      var m := if month < 0 then mu[mu.Length + month] else mu[month];
      var s := if month < 0 then sigma[sigma.Length + month] else sigma[month];
      assert m == Lookup(mu[..], month) && s == Lookup(sigma[..], month);
      StandardizeColumn(x, xs, i, m, s);
    }
    MatrixEquality(FromArray(xs), ScaledTo(FromArray(x), mu[..], sigma[..], monthRange).value);
    return Ok(xs);
  }

  /** The inner loop of scale_to: standardizes column i of x into column i of xs, leaving its other columns alone. */
  method StandardizeColumn(x: array2<real>, xs: array2<real>, i: nat, m: real, s: real)
    requires xs != x && xs.Length0 == x.Length0 && xs.Length1 == x.Length1 && i < x.Length1
    requires x.Length0 > 0 ==> s != 0.0
    modifies xs
    ensures forall row :: 0 <= row < x.Length0 ==> xs[row, i] == Standardize(x[row, i], m, s)
    ensures forall row, c :: 0 <= row < x.Length0 && 0 <= c < x.Length1 && c != i ==> xs[row, c] == old(xs[row, c])
  {
    for row := 0 to x.Length0
      invariant forall rr :: 0 <= rr < row ==> xs[rr, i] == Standardize(x[rr, i], m, s)
      invariant forall rr, c :: 0 <= rr < x.Length0 && 0 <= c < x.Length1 && c != i ==> xs[rr, c] == old(xs[rr, c])
    {
      xs[row, i] := Standardize(x[row, i], m, s);
    }
  }

  /** scale_back over arrays: the same walk, multiplying by the std and adding the mean. */
  method ScaleBack(xs: array2<real>, mu: array<real>, sigma: array<real>, monthRange: seq<int>)
    returns (r: Result<array2<real>, ScaleError>)
    ensures r.Ok? ==> fresh(r.value)
    ensures ScaledBack(FromArray(xs), mu[..], sigma[..], monthRange) == match r
      case Ok(x) => Ok(FromArray(x))
      case Err(e) => Err(e)
  {
    if xs.Length1 != |monthRange| {
      return Err(ColumnCountMismatch);
    }
    var x := new real[xs.Length0, xs.Length1];
    for i := 0 to xs.Length1
      invariant forall k :: 0 <= k < i ==> InBounds(monthRange[k], mu.Length) && InBounds(monthRange[k], sigma.Length)
      invariant forall row, c :: 0 <= row < xs.Length0 && 0 <= c < i ==>
        x[row, c] == Unstandardize(xs[row, c], Lookup(mu[..], monthRange[c]), Lookup(sigma[..], monthRange[c]))
    {
      var month := monthRange[i];
      if !InBounds(month, mu.Length) || !InBounds(month, sigma.Length) {
        return Err(MonthOutOfRange);
      }
      var m := if month < 0 then mu[mu.Length + month] else mu[month];
      var s := if month < 0 then sigma[sigma.Length + month] else sigma[month];
      assert m == Lookup(mu[..], month) && s == Lookup(sigma[..], month);
      for row := 0 to xs.Length0
        invariant forall rr, c :: 0 <= rr < xs.Length0 && 0 <= c < i ==>
          x[rr, c] == Unstandardize(xs[rr, c], Lookup(mu[..], monthRange[c]), Lookup(sigma[..], monthRange[c]))
        invariant forall rr :: 0 <= rr < row ==> x[rr, i] == Unstandardize(xs[rr, i], m, s)
      {
        x[row, i] := Unstandardize(xs[row, i], m, s);
      }
    }
    MatrixEquality(FromArray(x), ScaledBack(FromArray(xs), mu[..], sigma[..], monthRange).value);
    return Ok(x);
  }

  // ---------------------------------------------------------------------------------------------
  // scale_fit and scale_to together

  /** The map main passes with 12-column matrices, range(0, 12), generalised: column c reads slot c % 12. */
  predicate CalendarMap(monthRange: seq<int>)
  {
    forall c :: 0 <= c < |monthRange| ==> monthRange[c] == c % Months
  }

  /** A calendar map indexes 12-slot tables in range, at slot c % 12. */
  lemma CalendarMapLookup(mu: seq<real>, sigma: seq<real>, monthRange: seq<int>)
    requires |mu| == Months && |sigma| == Months && forall t :: 0 <= t < Months ==> sigma[t] != 0.0
    requires CalendarMap(monthRange)
    ensures MonthsIndexable(monthRange, mu, sigma) && SigmasNonzero(sigma, monthRange)
    ensures forall c :: 0 <= c < |monthRange| ==>
      Lookup(mu, monthRange[c]) == mu[c % Months] && Lookup(sigma, monthRange[c]) == sigma[c % Months]
  {
  }

  /** Under a calendar map, entry (r, i + 12 * j) of the scaled matrix is standardised by slot i. */
  lemma ScaledSlotEntry(x: Matrix, mu: seq<real>, sigma: seq<real>, monthRange: seq<int>, i: nat, r: nat, j: nat)
    requires x.Valid() && x.cols % Months == 0 && i < Months && r < x.rows && j < x.cols / Months
    requires |mu| == Months && |sigma| == Months && forall t :: 0 <= t < Months ==> sigma[t] != 0.0
    requires |monthRange| == x.cols && CalendarMap(monthRange)
    ensures SigmasNonzero(sigma, monthRange) && ScaledTo(x, mu, sigma, monthRange).Ok?
    ensures SlotColumn(i, j) < x.cols
    ensures ScaledTo(x, mu, sigma, monthRange).value.cells[r][SlotColumn(i, j)]
      == Standardize(x.cells[r][SlotColumn(i, j)], mu[i], sigma[i])
  {
    CalendarMapLookup(mu, sigma, monthRange);
    DivModUnique(SlotColumn(i, j), Months, j, i);
  }

  /** Under a calendar map, month offset i of the scaled matrix is offset i of x, standardised by slot i. */
  lemma SlotSamplesOfScaled(x: Matrix, mu: seq<real>, sigma: seq<real>, monthRange: seq<int>, i: nat)
    requires x.Valid() && x.cols % Months == 0 && i < Months
    requires |mu| == Months && |sigma| == Months && forall t :: 0 <= t < Months ==> sigma[t] != 0.0
    requires |monthRange| == x.cols && CalendarMap(monthRange)
    ensures SigmasNonzero(sigma, monthRange) && ScaledTo(x, mu, sigma, monthRange).Ok?
    ensures SlotSamples(ScaledTo(x, mu, sigma, monthRange).value, i) == StandardizeAll(SlotSamples(x, i), mu[i], sigma[i])
  {
    CalendarMapLookup(mu, sigma, monthRange);
    var xs := ScaledTo(x, mu, sigma, monthRange).value;
    var a, b := SlotSamples(xs, i), StandardizeAll(SlotSamples(x, i), mu[i], sigma[i]);
    forall n | 0 <= n < |a|
      ensures a[n] == b[n]
    {
      ScaledSlotSample(x, mu, sigma, monthRange, i, n);
    }
  }

  lemma ScaledSlotSample(x: Matrix, mu: seq<real>, sigma: seq<real>, monthRange: seq<int>, i: nat, n: nat)
    requires x.Valid() && x.cols % Months == 0 && i < Months && n < |SlotSamples(x, i)|
    requires |mu| == Months && |sigma| == Months && forall t :: 0 <= t < Months ==> sigma[t] != 0.0
    requires |monthRange| == x.cols && CalendarMap(monthRange)
    ensures SigmasNonzero(sigma, monthRange) && ScaledTo(x, mu, sigma, monthRange).Ok?
    ensures SlotSamples(ScaledTo(x, mu, sigma, monthRange).value, i)[n] == Standardize(SlotSamples(x, i)[n], mu[i], sigma[i])
  {
    var k := x.cols / Months;
    var xs := ScaledTo(x, mu, sigma, monthRange).value;
    var r, j := SplitIndex(n, x.rows, k);
    SlotSamplesAt(xs, i, r, j);
    assert SlotSamples(xs, i)[n] == xs.cells[r][SlotColumn(i, j)];
    SlotSamplesAt(x, i, r, j);
    assert SlotSamples(x, i)[n] == x.cells[r][SlotColumn(i, j)];
    ScaledSlotEntry(x, mu, sigma, monthRange, i, r, j);
  }

  /**
   * Fitting the scaled training data gives means 0 and variances 1: scale_to with scale_fit's own
   * tables standardises every month offset, provided no offset has zero spread.
   */
  lemma FittedScalingStandardises(x: Matrix, sigma: seq<real>, monthRange: seq<int>)
    requires x.Valid() && Fit(x).Ok?
    requires IsStdDev(sigma, Fit(x).value.variance)
    requires forall i :: 0 <= i < Months ==> Fit(x).value.variance[i] != 0.0
    requires |monthRange| == x.cols && CalendarMap(monthRange)
    ensures SigmasNonzero(sigma, monthRange)
    ensures ScaledTo(x, Fit(x).value.mu, sigma, monthRange).Ok?
    ensures Fit(ScaledTo(x, Fit(x).value.mu, sigma, monthRange).value).Ok?
    ensures forall i :: 0 <= i < Months ==>
      Fit(ScaledTo(x, Fit(x).value.mu, sigma, monthRange).value).value.mu[i] == 0.0 &&
      Fit(ScaledTo(x, Fit(x).value.mu, sigma, monthRange).value).value.variance[i] == 1.0
  {
    var st := Fit(x).value;
    forall t | 0 <= t < Months ensures sigma[t] != 0.0 {
      StdDevZeroIff(sigma, st.variance, t);
    }
    SlotSamplesOfScaled(x, st.mu, sigma, monthRange, 0);
    var xs := ScaledTo(x, st.mu, sigma, monthRange).value;
    forall i | 0 <= i < Months
      ensures Fit(xs).value.mu[i] == 0.0 && Fit(xs).value.variance[i] == 1.0
    {
      SlotSamplesOfScaled(x, st.mu, sigma, monthRange, i);
      MeanOfStandardized(SlotSamples(x, i), sigma[i]);
      VarianceOfStandardized(SlotSamples(x, i), sigma[i]);
    }
  }
}
