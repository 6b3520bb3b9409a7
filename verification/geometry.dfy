/** The geometry adapter of the forward operator: active-cell selection, the active-cell
    projector, and the restriction of the mesh's per-cell corner arrays to active cells. */
module Geometry {
  import opened Outcome
  import opened LinAlg
  import opened Arith

  /** Lower and upper bound of every cell along each axis, one entry per cell: the
      arrays `xn1, xn2, yn1, yn2, zn1, zn2` (or, once restricted, `Xn`, `Yn`, `Zn`). */
  datatype Corners = Corners(xLo: Vector, xHi: Vector, yLo: Vector, yHi: Vector, zLo: Vector, zHi: Vector)

  predicate WellFormed(c: Corners)
  {
    && |c.xHi| == |c.xLo|
    && |c.yLo| == |c.xLo|
    && |c.yHi| == |c.xLo|
    && |c.zLo| == |c.xLo|
    && |c.zHi| == |c.xLo|
  }

  function CellCount(c: Corners): nat
  {
    |c.xLo|
  }

  /** How far the equivalent-source layer pushes every cell's lower z bound down. */
  const EquivalentSourceDrop: real := 1000.0

  /** The `actInd` setting: a boolean mask over the grid, or an explicit list of cell indices. */
  datatype Selector = Mask(flags: seq<bool>) | Indices(ids: seq<int>)

  predicate InRange(inds: seq<nat>, n: nat)
  {
    forall k :: 0 <= k < |inds| ==> inds[k] < n
  }

  /** Positions of the true entries of a boolean mask, in increasing order. */
  function TrueIndices(flags: seq<bool>): (inds: seq<nat>)
    ensures StrictlyIncreasing(inds)
    ensures InRange(inds, |flags|)
    ensures forall i: nat :: i in inds <==> i < |flags| && flags[i]
    ensures |inds| == multiset(flags)[true]
  {
    if |flags| == 0 then []
    else
      var last := |flags| - 1;
      assert flags == flags[..last] + [flags[last]];
      var rest := TrueIndices(flags[..last]);
      if flags[last] then rest + [last] else rest
  }

  /** The ordered list of active cells of a grid with `meshCells` cells. Every index must name a
      grid cell, since the projector built from the list has one row per grid cell. */
  function ActiveIndices(sel: Option<Selector>, meshCells: nat): (r: Result<seq<nat>>)
    ensures r.Err? ==> r.error == OutOfRangeIndex
    ensures r.Ok? ==> InRange(r.value, meshCells)
    ensures sel.None? ==>
      r.Ok? && |r.value| == meshCells && forall k :: 0 <= k < meshCells ==> r.value[k] == k
    ensures sel.Some? && sel.value.Mask? ==>
      (r.Ok? <==> forall i :: meshCells <= i < |sel.value.flags| ==> !sel.value.flags[i])
    ensures sel.Some? && sel.value.Mask? && r.Ok? ==> r.value == TrueIndices(sel.value.flags)
    ensures sel.Some? && sel.value.Indices? ==>
      (r.Ok? <==> forall k :: 0 <= k < |sel.value.ids| ==> 0 <= sel.value.ids[k] < meshCells)
    ensures sel.Some? && sel.value.Indices? && r.Ok? ==>
      |r.value| == |sel.value.ids| && forall k :: 0 <= k < |r.value| ==> r.value[k] == sel.value.ids[k]
  {
    match sel
    case None => Ok(seq(meshCells, i requires 0 <= i < meshCells => i))
    case Some(Mask(flags)) =>
      var inds := TrueIndices(flags);
      if InRange(inds, meshCells) then Ok(inds)
      else
        var k :| 0 <= k < |inds| && inds[k] >= meshCells;
        assert inds[k] in inds;
        Err(OutOfRangeIndex)
    case Some(Indices(ids)) =>
      if forall k :: 0 <= k < |ids| ==> 0 <= ids[k] < meshCells then
        Ok(seq(|ids|, k requires 0 <= k < |ids| => ids[k] as nat))
      else Err(OutOfRangeIndex)
  }

  /** Entry (i, k) of the active-cell projector P: one exactly when grid cell i is the k-th
      active cell. */
  function ProjectorEntry(inds: seq<nat>, i: nat, k: nat): real
    requires k < |inds|
  {
    if inds[k] == i then 1.0 else 0.0
  }

  /** The sum over grid cells i < n of P[i][k] * v[i]. */
  function ProjectedSum(inds: seq<nat>, v: Vector, k: nat, n: nat): real
    requires k < |inds| && n <= |v|
  {
    if n == 0 then 0.0 else ProjectedSum(inds, v, k, n - 1) + ProjectorEntry(inds, n - 1, k) * v[n - 1]
  }

  /** Pᵀ * v: a grid-length vector carried onto the active cells. */
  function Project(inds: seq<nat>, v: Vector): (r: Vector)
    ensures |r| == |inds|
  {
    seq(|inds|, k requires 0 <= k < |inds| => ProjectedSum(inds, v, k, |v|))
  }

  lemma {:induction false} ProjectedSumPicks(inds: seq<nat>, v: Vector, k: nat, n: nat)
    requires k < |inds| && n <= |v|
    ensures ProjectedSum(inds, v, k, n) == if inds[k] < n then v[inds[k]] else 0.0
  {
    if n > 0 {
      ProjectedSumPicks(inds, v, k, n - 1);
    }
  }

  /** Entry k of Pᵀ * v is the grid entry of the k-th active cell. */
  lemma ProjectPicks(inds: seq<nat>, v: Vector)
    requires InRange(inds, |v|)
    ensures forall k :: 0 <= k < |inds| ==> Project(inds, v)[k] == v[inds[k]]
  {
    forall k | 0 <= k < |inds|
      ensures Project(inds, v)[k] == v[inds[k]]
    {
      ProjectedSumPicks(inds, v, k, |v|);
    }
  }

  /** Every entry lowered by the equivalent-source drop. */
  function Lower(v: Vector): Vector
  {
    seq(|v|, i requires 0 <= i < |v| => v[i] - EquivalentSourceDrop)
  }

  /** `Xn, Yn, Zn` of the forward operator: the corner arrays carried onto the active cells,
      with the lower z bound dropped first in equivalent-source mode. */
  function Restrict(c: Corners, inds: seq<nat>, equiSourceLayer: bool): Corners
  {
    var zLo := if equiSourceLayer then Lower(c.zLo) else c.zLo;
    Corners(Project(inds, c.xLo), Project(inds, c.xHi),
            Project(inds, c.yLo), Project(inds, c.yHi),
            Project(inds, zLo), Project(inds, c.zHi))
  }

  /** The restricted arrays have one row per active cell, row k is the grid row of the k-th
      active cell, and equivalent-source mode changes nothing but the lower z bound. */
  lemma RestrictSelectsCells(c: Corners, inds: seq<nat>, equiSourceLayer: bool)
    requires WellFormed(c) && InRange(inds, CellCount(c))
    ensures var r := Restrict(c, inds, equiSourceLayer);
      && WellFormed(r)
      && CellCount(r) == |inds|
      && forall k :: 0 <= k < |inds| ==>
        && r.xLo[k] == c.xLo[inds[k]] && r.xHi[k] == c.xHi[inds[k]]
        && r.yLo[k] == c.yLo[inds[k]] && r.yHi[k] == c.yHi[inds[k]]
        && r.zHi[k] == c.zHi[inds[k]]
        && r.zLo[k] == (if equiSourceLayer then c.zLo[inds[k]] - EquivalentSourceDrop else c.zLo[inds[k]])
  {
    var zLo := if equiSourceLayer then Lower(c.zLo) else c.zLo;
    ProjectPicks(inds, c.xLo);
    ProjectPicks(inds, c.xHi);
    ProjectPicks(inds, c.yLo);
    ProjectPicks(inds, c.yHi);
    ProjectPicks(inds, zLo);
    ProjectPicks(inds, c.zHi);
  }
}
