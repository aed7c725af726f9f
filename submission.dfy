/**
 * The hand-off at the end of main in mlp4.py: the first four predicted months of every group,
 * `np.reshape(y_eval[:, :4], (1320*4), order='F')`, i.e. flattened column by column.
 */
module Submission {
  import opened Wrappers
  import opened Matrices

  /** Prediction months kept for the results file. */
  const Horizon: nat := 4

  /** Number of (model, region) groups the results file holds. */
  const Groups: nat := 1320

  /** Length of the flat result vector: Groups * Horizon. */
  const ResultLength: nat := 5280

  function Min(a: nat, b: nat): nat
  {
    if a < b then a else b
  }

  /**
   * `y_eval[:, :4]` keeps min(cols, 4) columns; the reshape to 5280 values succeeds only when
   * that slice holds exactly 5280 entries (None stands for numpy's ValueError). The values come
   * in Fortran order: all rows of the first column, then of the second, and so on.
   */
  function ResultVector(yEval: Matrix): (r: Option<seq<real>>)
    requires yEval.Valid()
    ensures r.Some? <==> yEval.rows * Min(yEval.cols, Horizon) == ResultLength
    ensures r.Some? ==> |r.value| == ResultLength
    ensures r.Some? ==> forall k :: 0 <= k < ResultLength ==>
      yEval.rows > 0 && k / yEval.rows < yEval.cols && r.value[k] == yEval.cells[k % yEval.rows][k / yEval.rows]
  {
    var w := Min(yEval.cols, Horizon);
    if yEval.rows * w == ResultLength then
      ColumnMajorLength(yEval, w);
      forall k | 0 <= k < ResultLength
        ensures yEval.rows > 0 && k / yEval.rows < w && ColumnMajor(yEval, w)[k] == yEval.cells[k % yEval.rows][k / yEval.rows]
      {
        ColumnMajorAt(yEval, w, k);
      }
      Some(ColumnMajor(yEval, w))
    else
      None
  }

  /**
   * For the evaluation predictions main produces (1320 groups, at least four months), the reshape
   * succeeds and entry k is month k / 1320 of group k % 1320.
   */
  lemma ResultVectorOfEvaluation(yEval: Matrix)
    requires yEval.Valid() && yEval.rows == Groups && yEval.cols >= Horizon
    ensures ResultVector(yEval).Some?
    ensures forall k :: 0 <= k < ResultLength ==>
      k / Groups < Horizon && ResultVector(yEval).value[k] == yEval.cells[k % Groups][k / Groups]
  {
    forall k | 0 <= k < ResultLength
      ensures k / Groups < Horizon
    {
      DivBelow(k, Groups, Horizon);
    }
  }
}
