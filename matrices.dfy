/**
 * Two-dimensional numpy arrays of floats, modelled as a shape plus rows of reals,
 * and the two orders in which numpy walks their entries.
 */
module Matrices {

  /** A matrix of `rows` by `cols` entries, held row by row. */
  datatype Matrix = Matrix(rows: nat, cols: nat, cells: seq<seq<real>>) {
    /** The shape agrees with the rows held. */
    predicate Valid() {
      |cells| == rows && forall r :: 0 <= r < rows ==> |cells[r]| == cols
    }
  }

  /** The matrix an `array2` currently holds. */
  function FromArray(a: array2<real>): (m: Matrix)
    reads a
    ensures m.Valid() && m.rows == a.Length0 && m.cols == a.Length1
    ensures forall r, c :: 0 <= r < a.Length0 && 0 <= c < a.Length1 ==> m.cells[r][c] == a[r, c]
  {
    Matrix(a.Length0, a.Length1,
      seq(a.Length0, r reads a requires 0 <= r < a.Length0 =>
        seq(a.Length1, c reads a requires 0 <= c < a.Length1 => a[r, c])))
  }

  /** Two valid matrices of one shape are equal when their entries are. */
  lemma {:induction false} MatrixEquality(m: Matrix, n: Matrix)
    requires m.Valid() && n.Valid() && m.rows == n.rows && m.cols == n.cols
    requires forall r, c :: 0 <= r < m.rows && 0 <= c < m.cols ==> m.cells[r][c] == n.cells[r][c]
    ensures m == n
  {
    forall r | 0 <= r < m.rows
      ensures m.cells[r] == n.cells[r]
    {
      assert |m.cells[r]| == |n.cells[r]|;
    }
    assert m.cells == n.cells;
  }

  /** `x[:, lo:hi]`: the columns lo up to hi, with Python's clamping of the bounds to the shape. */
  function ColumnSlice(x: Matrix, lo: nat, hi: nat): (s: Matrix)
    requires x.Valid()
    ensures s.Valid() && s.rows == x.rows
    ensures lo <= hi <= x.cols ==> s.cols == hi - lo
    ensures forall r, c :: 0 <= r < s.rows && 0 <= c < s.cols ==> lo + c < x.cols && s.cells[r][c] == x.cells[r][lo + c]
  {
    var h := if hi < x.cols then hi else x.cols;
    var l := if lo < h then lo else h;
    Matrix(x.rows, h - l,
      seq(x.rows, r requires 0 <= r < x.rows => x.cells[r][l..h]))
  }

  /** The entries in row-major (C) order: the order in which numpy reduces a whole array. */
  function RowMajor(cells: seq<seq<real>>): seq<real>
  {
    if cells == [] then [] else cells[0] + RowMajor(cells[1..])
  }

  /** Row-major order holds every entry once: `rows * cols` of them, entry (r, c) at r * cols + c. */
  lemma {:induction false} RowMajorLength(m: Matrix)
    requires m.Valid()
    ensures |RowMajor(m.cells)| == m.rows * m.cols
    decreases m.rows
  {
    if m.rows > 0 {
      RowMajorLength(Matrix(m.rows - 1, m.cols, m.cells[1..]));
      MulSucc(m.rows - 1, m.cols);
    }
  }

  /** One more row adds one row's worth of entries. */
  lemma MulSucc(a: nat, b: nat)
    ensures (a + 1) * b == a * b + b
  {
  }

  lemma {:induction false} RowMajorAt(m: Matrix, r: nat, c: nat)
    requires m.Valid() && r < m.rows && c < m.cols
    ensures |RowMajor(m.cells)| == m.rows * m.cols
    ensures r * m.cols + c < m.rows * m.cols
    ensures RowMajor(m.cells)[r * m.cols + c] == m.cells[r][c]
    decreases r
  {
    RowMajorLength(m);
    MulSucc(r, m.cols);
    MulMonotone(r + 1, m.rows, m.cols);
    if r > 0 {
      var tail := Matrix(m.rows - 1, m.cols, m.cells[1..]);
      RowMajorAt(tail, r - 1, c);
      MulSucc(r - 1, m.cols);
      assert RowMajor(m.cells) == m.cells[0] + RowMajor(tail.cells);
    }
  }

  /** A product of naturals is positive exactly when both factors are. */
  lemma MulPositive(a: nat, b: nat)
    ensures a * b > 0 <==> a > 0 && b > 0
  {
    if a > 0 && b > 0 {
      MulMonotone(1, a, b);
    }
  }

  lemma MulMonotone(a: nat, b: nat, c: nat)
    requires a <= b
    ensures a * c <= b * c
  {
  }

  /** Column `j`, top to bottom. */
  function Column(m: Matrix, j: nat): (col: seq<real>)
    requires m.Valid() && j < m.cols
    ensures |col| == m.rows
  {
    seq(m.rows, r requires 0 <= r < m.rows => m.cells[r][j])
  }

  /** The first `w` columns one after another: column-major (Fortran) order. */
  function ColumnMajor(m: Matrix, w: nat): seq<real>
    requires m.Valid() && w <= m.cols
  {
    if w == 0 then [] else ColumnMajor(m, w - 1) + Column(m, w - 1)
  }

  lemma {:induction false} ColumnMajorLength(m: Matrix, w: nat)
    requires m.Valid() && w <= m.cols
    ensures |ColumnMajor(m, w)| == m.rows * w
  {
    if w > 0 {
      ColumnMajorLength(m, w - 1);
    }
  }

  /** Quotient and remainder are determined by any decomposition k == q * n + r with r < n. */
  lemma {:induction false} DivModUnique(k: nat, n: nat, q: nat, r: nat)
    requires 0 < n && r < n && k == q * n + r
    ensures k / n == q && k % n == r
  {
    MulGap(k / n, q, n);
    MulGap(q, k / n, n);
  }

  /** Euclidean division of k by n. */
  lemma DivMod(k: nat, n: nat)
    requires 0 < n
    ensures k == (k / n) * n + k % n && k % n < n
  {
  }

  /** An index below rows * n has its quotient by n below rows. */
  lemma DivBelow(k: nat, n: nat, rows: nat)
    requires 0 < n && k < rows * n
    ensures k / n < rows
  {
    MulGap(rows - 1, k / n, n);
    MulSucc(rows - 1, n);
  }

  /** An index below rows * cols is row r, column c of that grid, with r = k / cols and c = k % cols. */
  lemma SplitIndex(k: nat, rows: nat, cols: nat) returns (r: nat, c: nat)
    requires k < rows * cols
    ensures r < rows && c < cols && k == r * cols + c
  {
    MulPositive(rows, cols);
    r, c := k / cols, k % cols;
    DivBelow(k, cols, rows);
    DivMod(k, cols);
  }

  /** Distinct multiples of n lie at least n apart. */
  lemma MulGap(a: nat, b: nat, n: nat)
    ensures a < b ==> a * n + n <= b * n
  {
    if a < b {
      MulSucc(a, n);
      MulMonotone(a + 1, b, n);
    }
  }

  /** Position k of the column-major order holds entry (k % rows, k / rows). */
  lemma {:induction false} ColumnMajorAt(m: Matrix, w: nat, k: nat)
    requires m.Valid() && w <= m.cols && k < m.rows * w
    ensures m.rows > 0 && k / m.rows < w && |ColumnMajor(m, w)| == m.rows * w
    ensures ColumnMajor(m, w)[k] == m.cells[k % m.rows][k / m.rows]
  {
    ColumnMajorLength(m, w);
    ColumnMajorLength(m, w - 1);
    var front := m.rows * (w - 1);
    assert m.rows * w == front + m.rows;
    if k < front {
      ColumnMajorAt(m, w - 1, k);
    } else {
      DivModUnique(k, m.rows, w - 1, k - front);
    }
  }
}
