/** Dense vectors and matrices over exact reals, standing in for the numpy and dask arrays. */
module LinAlg {
  import opened Outcome

  type Vector = seq<real>
  type Matrix = seq<Vector>

  /** Number of columns, read off the first row (an empty matrix is taken as 0 wide). */
  function Width(a: Matrix): nat
  {
    if |a| == 0 then 0 else |a[0]|
  }

  /** Every row has the same length, as in any numpy or zarr array. */
  predicate IsRectangular(a: Matrix)
  {
    forall i :: 0 <= i < |a| ==> |a[i]| == Width(a)
  }

  function Dot(a: Vector, b: Vector): real
    requires |a| == |b|
  {
    if |a| == 0 then 0.0 else Dot(a[..|a| - 1], b[..|b| - 1]) + a[|a| - 1] * b[|b| - 1]
  }

  /** `np.dot(a, x)`: fails unless every row of `a` is as long as `x`. */
  function MatVec(a: Matrix, x: Vector): (r: Result<Vector>)
    ensures r.Ok? <==> forall i :: 0 <= i < |a| ==> |a[i]| == |x|
    ensures r.Ok? ==> |r.value| == |a|
    ensures r.Err? ==> r == Err(ShapeMismatch)
  {
    if forall i :: 0 <= i < |a| ==> |a[i]| == |x| then
      Ok(seq(|a|, i requires 0 <= i < |a| => Dot(a[i], x)))
    else
      Err(ShapeMismatch)
  }

  /** `np.vstack` and `da.vstack`: the rows of each block, block after block. */
  function VStack(blocks: seq<Matrix>): Matrix
  {
    if |blocks| == 0 then [] else VStack(blocks[..|blocks| - 1]) + blocks[|blocks| - 1]
  }

  /** Stacking one-row blocks gives the matrix whose row `i` is the one row of block `i`. */
  lemma {:induction false} VStackOfRows(blocks: seq<Matrix>)
    requires forall i :: 0 <= i < |blocks| ==> |blocks[i]| == 1
    ensures |VStack(blocks)| == |blocks|
    ensures forall i :: 0 <= i < |blocks| ==> VStack(blocks)[i] == blocks[i][0]
  {
    if |blocks| > 0 {
      VStackOfRows(blocks[..|blocks| - 1]);
    }
  }

  /** Column `j` of `a`. */
  function Column(a: Matrix, j: nat): Vector
    requires IsRectangular(a) && j < Width(a)
  {
    seq(|a|, i requires 0 <= i < |a| => a[i][j])
  }

  /** The first `n` columns of `a`, stacked one after another. */
  function ColumnsUpTo(a: Matrix, n: nat): Vector
    requires IsRectangular(a) && n <= Width(a)
  {
    if n == 0 then [] else ColumnsUpTo(a, n - 1) + Column(a, n - 1)
  }

  /** SimPEG's `mkvc`: flatten a matrix in column-major (Fortran) order. */
  function Mkvc(a: Matrix): Vector
    requires IsRectangular(a)
  {
    ColumnsUpTo(a, Width(a))
  }

  /** Flattening a one-column matrix lists its single entries in row order. */
  lemma MkvcOfColumn(a: Matrix)
    requires |a| > 0 && IsRectangular(a) && Width(a) == 1
    ensures |Mkvc(a)| == |a|
    ensures forall i :: 0 <= i < |a| ==> Mkvc(a)[i] == a[i][0]
  {
    assert Mkvc(a) == ColumnsUpTo(a, 0) + Column(a, 0);
  }

  /** Sum over the first `n` rows of `a[i][j]` squared. */
  function ColumnSquares(a: Matrix, j: nat, n: nat): real
    requires n <= |a| && IsRectangular(a) && j < Width(a)
  {
    if n == 0 then 0.0 else ColumnSquares(a, j, n - 1) + a[n - 1][j] * a[n - 1][j]
  }

  /** `da.sum(a ** 2, 0)`: the sum of squares of each column. */
  function ColumnSumSquares(a: Matrix): (r: Vector)
    requires IsRectangular(a)
    ensures |r| == Width(a)
  {
    seq(Width(a), j requires 0 <= j < Width(a) => ColumnSquares(a, j, |a|))
  }

  /** Every column sum of squares is non-negative. */
  lemma {:induction false} ColumnSquaresNonNegative(a: Matrix, j: nat, n: nat)
    requires n <= |a| && IsRectangular(a) && j < Width(a)
    ensures ColumnSquares(a, j, n) >= 0.0
  {
    if n > 0 {
      ColumnSquaresNonNegative(a, j, n - 1);
      var x := a[n - 1][j];
      if x < 0.0 {
        assert x * x == (-x) * (-x);
      }
    }
  }

  /** Entrywise product, `diag(w) * v`. */
  function Scale(w: Vector, v: Vector): (r: Vector)
    requires |w| == |v|
    ensures |r| == |v|
  {
    seq(|v|, i requires 0 <= i < |v| => w[i] * v[i])
  }

  /** The diagonal of `aᵀ · diag(w) · a`: entry `j` is column `j` dotted with `diag(w)` times
      column `j`. */
  function WeightedGramDiag(w: Vector, a: Matrix): (r: Vector)
    requires IsRectangular(a) && |w| == |a|
    ensures |r| == Width(a)
  {
    seq(Width(a), j requires 0 <= j < Width(a) => Dot(Column(a, j), Scale(w, Column(a, j))))
  }

  /** Identity matrix of size `n`. */
  function Identity(n: nat): Matrix
  {
    seq(n, i => seq(n, j => if i == j then 1.0 else 0.0))
  }
}
