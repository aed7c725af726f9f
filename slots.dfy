/**
 * The twelve month offsets of scale_fit partition a matrix's entries: each entry is a sample of
 * exactly one offset, once. Stated for any additive measure of a sequence (its sum, how often a
 * value occurs in it) and proved by induction over rows, and within a row over its blocks of
 * twelve columns.
 */
module MonthSlots {
  import opened Matrices
  import opened Statistics
  import opened Scaler

  /** f measures sequences additively: nothing for the empty sequence, a + b is f(a) + f(b). */
  ghost predicate Additive(f: seq<real> -> real)
  {
    f([]) == 0.0 && forall a: seq<real>, b: seq<real> :: f(a + b) == f(a) + f(b)
  }

  /** The measure f summed over the samples of the first n month offsets of x. */
  function SlotMeasure(x: Matrix, n: nat, f: seq<real> -> real): real
    requires x.Valid() && x.cols % Months == 0 && n <= Months
  {
    if n == 0 then 0.0 else SlotMeasure(x, n - 1, f) + f(SlotSamples(x, n - 1))
  }

  lemma Regroup(all: real, first: real, rest: real, a: real, b: real)
    requires all == first + rest
    ensures all + (a + b) == (first + a) + (rest + b)
  {
  }

  lemma AddEqual(p: real, q: real, a: real, b: real)
    requires p == q && a == b
    ensures p + a == q + b
  {
  }

  // ---------------------------------------------------------------------------------------------
  // One row

  /** A row's entries for month i: `row[i + 12 * j]` for j < k. */
  function RowSlot(row: seq<real>, i: nat, k: nat): (s: seq<real>)
    requires i < Months && Months * k <= |row|
    ensures |s| == k
  {
    seq(k, j requires 0 <= j < k => row[SlotColumn(i, j)])
  }

  /** The measure f summed over a row's entries for the first n months. */
  function RowSlotMeasure(row: seq<real>, k: nat, n: nat, f: seq<real> -> real): real
    requires n <= Months && Months * k <= |row|
  {
    if n == 0 then 0.0 else RowSlotMeasure(row, k, n - 1, f) + f(RowSlot(row, n - 1, k))
  }

  /** One more block adds one entry to a row's month i. */
  lemma MeasureRowSlotGrow(row: seq<real>, i: nat, k: nat, f: seq<real> -> real)
    requires Additive(f) && i < Months && 0 < k && Months * k <= |row|
    ensures f(RowSlot(row, i, k)) == f(RowSlot(row, i, k - 1)) + f([row[SlotColumn(i, k - 1)]])
  {
    assert RowSlot(row, i, k) == RowSlot(row, i, k - 1) + [row[SlotColumn(i, k - 1)]];
  }

  lemma MeasureSliceGrow(s: seq<real>, b: nat, n: nat, f: seq<real> -> real)
    requires Additive(f) && 0 < n && b + n <= |s|
    ensures f(s[b .. b + n]) == f(s[b .. b + (n - 1)]) + f([s[b + (n - 1)]])
  {
    assert s[b .. b + n] == s[b .. b + (n - 1)] + [s[b + (n - 1)]];
  }

  /** Widening every month of a row by one block, starting at b, adds the first n entries of that block. */
  lemma {:induction false} RowSlotMeasureStep(row: seq<real>, k: nat, n: nat, b: nat, f: seq<real> -> real)
    requires Additive(f) && 0 < k && n <= Months && Months * k <= |row| && b == Months * (k - 1)
    ensures RowSlotMeasure(row, k, n, f) == RowSlotMeasure(row, k - 1, n, f) + f(row[b .. b + n])
  {
    if n > 0 {
      RowSlotMeasureStep(row, k, n - 1, b, f);
      MeasureRowSlotGrow(row, n - 1, k, f);
      MeasureSliceGrow(row, b, n, f);
      assert SlotColumn(n - 1, k - 1) == b + (n - 1);
      Regroup(RowSlotMeasure(row, k, n - 1, f), RowSlotMeasure(row, k - 1, n - 1, f),
              f(row[b .. b + (n - 1)]), f(RowSlot(row, n - 1, k - 1)), f([row[b + (n - 1)]]));
    } else {
      assert row[b .. b] == [];
    }
  }

  lemma {:induction false} RowSlotMeasureEmpty(row: seq<real>, n: nat, f: seq<real> -> real)
    requires Additive(f) && n <= Months
    ensures RowSlotMeasure(row, 0, n, f) == 0.0
  {
    if n > 0 {
      RowSlotMeasureEmpty(row, n - 1, f);
      assert RowSlot(row, n - 1, 0) == [];
    }
  }

  /** The twelve months of a row's first k blocks hold exactly the entries of those blocks. */
  lemma {:induction false} RowSlotMeasureOfBlocks(row: seq<real>, k: nat, f: seq<real> -> real)
    requires Additive(f) && Months * k <= |row|
    ensures RowSlotMeasure(row, k, Months, f) == f(row[.. Months * k])
  {
    if k == 0 {
      RowSlotMeasureEmpty(row, Months, f);
      assert row[.. 0] == [];
    } else {
      var b := Months * (k - 1);
      RowSlotMeasureOfBlocks(row, k - 1, f);
      RowSlotMeasureStep(row, k, Months, b, f);
      assert row[.. Months * k] == row[.. b] + row[b .. b + Months];
    }
  }

  // ---------------------------------------------------------------------------------------------
  // All rows

  /** Every row has w entries. */
  predicate RowsOfWidth(cells: seq<seq<real>>, w: nat)
  {
    |cells| == 0 || (|cells[0]| == w && RowsOfWidth(cells[1..], w))
  }

  /** Month i's entries of every row, row after row. */
  function RowSlots(cells: seq<seq<real>>, i: nat, k: nat): seq<real>
    requires i < Months
    requires RowsOfWidth(cells, Months * k)
  {
    if |cells| == 0 then [] else RowSlot(cells[0], i, k) + RowSlots(cells[1..], i, k)
  }

  /** The measure f summed over the first n months' entries of every row. */
  function RowSlotsMeasure(cells: seq<seq<real>>, k: nat, n: nat, f: seq<real> -> real): real
    requires n <= Months
    requires RowsOfWidth(cells, Months * k)
  {
    if n == 0 then 0.0 else RowSlotsMeasure(cells, k, n - 1, f) + f(RowSlots(cells, n - 1, k))
  }

  /** Gathering row by row yields the samples of scale_fit's column selection, in the same order. */
  lemma {:induction false} SlotSamplesByRows(x: Matrix, i: nat)
    requires x.Valid() && x.cols % Months == 0 && i < Months
    ensures RowsOfWidth(x.cells, Months * (x.cols / Months))
    ensures SlotSamples(x, i) == RowSlots(x.cells, i, x.cols / Months)
    decreases x.rows
  {
    if x.rows > 0 {
      var t := Matrix(x.rows - 1, x.cols, x.cells[1..]);
      SlotSamplesByRows(t, i);
      var g := Gather(x, i);
      assert g.cells[0] == RowSlot(x.cells[0], i, x.cols / Months);
      assert g.cells[1..] == Gather(t, i).cells;
    }
  }

  /** Splitting off the first row splits every month's measure the same way. */
  lemma {:induction false} RowSlotsMeasureFirstRow(cells: seq<seq<real>>, k: nat, n: nat, f: seq<real> -> real)
    requires Additive(f) && n <= Months && |cells| > 0
    requires RowsOfWidth(cells, Months * k)
    ensures RowSlotsMeasure(cells, k, n, f)
      == RowSlotMeasure(cells[0], k, n, f) + RowSlotsMeasure(cells[1..], k, n, f)
  {
    if n > 0 {
      var head, tail := RowSlot(cells[0], n - 1, k), RowSlots(cells[1..], n - 1, k);
      RowSlotsMeasureFirstRow(cells, k, n - 1, f);
      assert RowSlots(cells, n - 1, k) == head + tail;
      Regroup(RowSlotsMeasure(cells, k, n - 1, f), RowSlotMeasure(cells[0], k, n - 1, f),
              RowSlotsMeasure(cells[1..], k, n - 1, f), f(head), f(tail));
    }
  }

  lemma {:induction false} RowSlotsMeasureNoRows(cells: seq<seq<real>>, k: nat, n: nat, f: seq<real> -> real)
    requires Additive(f) && n <= Months && |cells| == 0
    ensures RowSlotsMeasure(cells, k, n, f) == 0.0
  {
    if n > 0 {
      RowSlotsMeasureNoRows(cells, k, n - 1, f);
    }
  }

  /** Over all rows, the twelve months hold exactly the entries of the rows. */
  lemma {:induction false} RowSlotsPartition(cells: seq<seq<real>>, k: nat, f: seq<real> -> real)
    requires Additive(f) && RowsOfWidth(cells, Months * k)
    ensures RowSlotsMeasure(cells, k, Months, f) == f(RowMajor(cells))
  {
    if |cells| == 0 {
      RowSlotsMeasureNoRows(cells, k, Months, f);
    } else {
      RowSlotsMeasureFirstRow(cells, k, Months, f);
      RowSlotMeasureOfBlocks(cells[0], k, f);
      assert cells[0][.. Months * k] == cells[0];
      RowSlotsPartition(cells[1..], k, f);
      assert RowMajor(cells) == cells[0] + RowMajor(cells[1..]);
    }
  }

  lemma {:induction false} SlotMeasureByRows(x: Matrix, n: nat, f: seq<real> -> real)
    requires x.Valid() && x.cols % Months == 0 && n <= Months
    ensures RowsOfWidth(x.cells, Months * (x.cols / Months))
    ensures SlotMeasure(x, n, f) == RowSlotsMeasure(x.cells, x.cols / Months, n, f)
  {
    var k := x.cols / Months;
    if n == 0 {
      SlotSamplesByRows(x, 0);
    } else {
      SlotMeasureByRows(x, n - 1, f);
      SlotSamplesByRows(x, n - 1);
      AddEqual(SlotMeasure(x, n - 1, f), RowSlotsMeasure(x.cells, k, n - 1, f),
               f(SlotSamples(x, n - 1)), f(RowSlots(x.cells, n - 1, k)));
    }
  }

  /**
   * The twelve month offsets partition the matrix: any additive measure of their sample lists,
   * added up, is that measure of all of x's entries.
   */
  lemma SlotsPartition(x: Matrix, f: seq<real> -> real)
    requires x.Valid() && x.cols % Months == 0 && Additive(f)
    ensures SlotMeasure(x, Months, f) == f(RowMajor(x.cells))
  {
    SlotMeasureByRows(x, Months, f);
    RowSlotsPartition(x.cells, x.cols / Months, f);
  }

  // ---------------------------------------------------------------------------------------------
  // Two measures

  /** How often v occurs in s. */
  function Count(s: seq<real>, v: real): nat
  {
    if |s| == 0 then 0 else (if s[0] == v then 1 else 0) + Count(s[1..], v)
  }

  lemma {:induction false} CountAppend(a: seq<real>, b: seq<real>, v: real)
    ensures Count(a + b, v) == Count(a, v) + Count(b, v)
  {
    if |a| > 0 {
      CountAppend(a[1..], b, v);
      assert (a + b)[1..] == a[1..] + b;
    } else {
      assert a + b == b;
    }
  }

  /**
   * Every entry is a sample of exactly one month offset: each value occurs among the twelve
   * sample lists, taken together, exactly as often as it occurs in x.
   */
  lemma SlotsPartitionEntries(x: Matrix, v: real)
    requires x.Valid() && x.cols % Months == 0
    ensures SlotMeasure(x, Months, s => Count(s, v) as real) == Count(RowMajor(x.cells), v) as real
  {
    var f := s => Count(s, v) as real;
    forall a: seq<real>, b: seq<real>
      ensures f(a + b) == f(a) + f(b)
    {
      CountAppend(a, b, v);
    }
    SlotsPartition(x, f);
  }

  /** The twelve offsets' sample sums add up to the sum of all of x's entries. */
  lemma SlotsPartitionSum(x: Matrix)
    requires x.Valid() && x.cols % Months == 0
    ensures SlotMeasure(x, Months, Sum) == Sum(RowMajor(x.cells))
  {
    forall a: seq<real>, b: seq<real>
      ensures Sum(a + b) == Sum(a) + Sum(b)
    {
      SumAppend(a, b);
    }
    SlotsPartition(x, Sum);
  }
}
