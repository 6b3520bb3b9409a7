/** `GravityIntegral`, the linear-operator facade: the lazily built and cached sensitivity
    matrix `G`, `fields`, and `getJtJdiag` with its cached column sums of squares. The density
    map `rhoMap` is the identity throughout. */
module GravityOperator {
  import opened Outcome
  import opened LinAlg
  import opened Geometry
  import opened Assembler

  /** The attributes of a `GravityIntegral` problem that the core reads or caches. */
  datatype GravityIntegral = GravityIntegral(
    cells: Corners,            // the mesh's corner arrays over the full grid
    actInd: Option<Selector>,
    survey: Option<seq<Loc>>,  // receiver locations of the paired survey, if any
    equiSourceLayer: bool,
    forwardOnly: bool,
    parallelized: Parallelized,
    nCpu: Option<nat>,
    maxRAM: nat,
    jPath: string,
    model: Vector,
    g: Option<Matrix>,         // `_G`
    gtgdiag: Option<Vector>)

  /** The attributes are consistent: `gtgdiag` is only ever cached as the column sums of
      squares of the cached `G`. */
  predicate Valid(op: GravityIntegral)
  {
    && WellFormed(op.cells)
    && (op.g.Some? ==> IsRectangular(op.g.value))
    && (op.gtgdiag.Some? ==> op.g.Some? && op.gtgdiag.value == ColumnSumSquares(op.g.value))
  }

  predicate Paired(op: GravityIntegral)
  {
    op.survey.Some?
  }

  /** A value returned by the operator, with the operator's new state, the store after the
      call, and how many `calcTrow` calls it issued. */
  datatype Served<T> = Served(value: T, op: GravityIntegral, store: Store, evaluated: nat)

  /** The set-up part of `Intrgl_Fwr_Op`: select the active cells, restrict the corner arrays,
      read the receivers, and describe the `Forward` job (`storeG` keeps its default, true). */
  function Prepare(op: GravityIntegral): (r: Result<Job>)
    requires WellFormed(op.cells)
    ensures r.Ok? <==> ActiveIndices(op.actInd, CellCount(op.cells)).Ok? && Paired(op)
    ensures r.Err? ==> r.error == OutOfRangeIndex || r.error == MissingSurvey
    ensures r.Err? && r.error == OutOfRangeIndex <==> ActiveIndices(op.actInd, CellCount(op.cells)).Err?
    ensures r.Ok? ==>
      && Paired(op)
      && ActiveIndices(op.actInd, CellCount(op.cells)).Ok?
      && var inds := ActiveIndices(op.actInd, CellCount(op.cells)).value;
      && r.value.cells == Restrict(op.cells, inds, op.equiSourceLayer)
      && WellFormed(r.value.cells) && CellCount(r.value.cells) == |inds|
      && r.value == Job(op.survey.value, r.value.cells, op.model, op.forwardOnly, op.parallelized,
                        op.nCpu, op.maxRAM, true, op.jPath)
  {
    match ActiveIndices(op.actInd, CellCount(op.cells))
    case Err(e) => Err(e)
    case Ok(inds) =>
      RestrictSelectsCells(op.cells, inds, op.equiSourceLayer);
      var active := Restrict(op.cells, inds, op.equiSourceLayer);
      if op.survey.None? then Err(MissingSurvey)
      else Ok(Job(op.survey.value, active, op.model, op.forwardOnly, op.parallelized,
                  op.nCpu, op.maxRAM, true, op.jPath))
  }

  /** `Intrgl_Fwr_Op(m)`: store the mapped model when one is given, then run the job. */
  function IntrglFwrOp(op: GravityIntegral, m: Option<Vector>, kernel: Kernel, store: Store, cpuCount: nat)
    : (r: Result<Served<Matrix>>)
    requires WellFormed(op.cells) && StoreWellFormed(store) && KernelShaped(kernel) && cpuCount > 0
    ensures r.Ok? ==>
      && var op1 := if m.Some? then op.(model := m.value) else op;
      && r.value.op == op1
      && Prepare(op1).Ok?
      && Calculate(kernel, Prepare(op1).value, store, cpuCount).Ok?
      && var a := Calculate(kernel, Prepare(op1).value, store, cpuCount).value;
      && r.value == Served(a.g, op1, a.store, a.evaluated)
    ensures r.Ok? ==> IsRectangular(r.value.value) && StoreWellFormed(r.value.store)
    ensures var op1 := if m.Some? then op.(model := m.value) else op;
      && (Prepare(op1).Err? ==> r == Err(Prepare(op1).error))
      && (Prepare(op1).Ok? ==>
            var a := Calculate(kernel, Prepare(op1).value, store, cpuCount);
            && (r.Ok? <==> a.Ok?)
            && (a.Err? ==> r == Err(a.error)))
  {
    var op1 := if m.Some? then op.(model := m.value) else op;
    match Prepare(op1)
    case Err(e) => Err(e)
    case Ok(job) =>
      match Calculate(kernel, job, store, cpuCount)
      case Err(e) => Err(e)
      case Ok(a) => Ok(Served(a.g, op1, a.store, a.evaluated))
  }

  /** The `G` property: refuse an unpaired problem, return the cached matrix, or build it once
      and cache it. */
  function GetG(op: GravityIntegral, kernel: Kernel, store: Store, cpuCount: nat): (r: Result<Served<Matrix>>)
    requires Valid(op) && StoreWellFormed(store) && KernelShaped(kernel) && cpuCount > 0
    ensures !Paired(op) ==> r == Err(NotPaired)
    ensures Paired(op) && op.g.Some? ==> r == Ok(Served(op.g.value, op, store, 0))
    ensures r.Ok? ==> r.value.op == op.(g := Some(r.value.value))
    ensures r.Ok? ==> Valid(r.value.op) && StoreWellFormed(r.value.store)
    ensures r.Ok? && op.g.None? ==>
      IntrglFwrOp(op, None, kernel, store, cpuCount) == Ok(Served(r.value.value, op, r.value.store, r.value.evaluated))
    ensures Paired(op) && op.g.None? ==>
      && (r.Ok? <==> IntrglFwrOp(op, None, kernel, store, cpuCount).Ok?)
      && (r.Err? ==> r == Err(IntrglFwrOp(op, None, kernel, store, cpuCount).error))
  {
    if !Paired(op) then Err(NotPaired)
    else if op.g.Some? then Ok(Served(op.g.value, op, store, 0))
    else
      match IntrglFwrOp(op, None, kernel, store, cpuCount)
      case Err(e) => Err(e)
      case Ok(s) => Ok(Served(s.value, op.(g := Some(s.value)), s.store, s.evaluated))
  }

  /** Once `G` has been served, every later access returns the same matrix without computing
      a row or touching the store, whatever the kernel or store. */
  lemma GBuiltAtMostOnce(op: GravityIntegral, kernel: Kernel, store: Store, cpuCount: nat,
                         kernel2: Kernel, store2: Store, cpuCount2: nat)
    requires Valid(op) && StoreWellFormed(store) && KernelShaped(kernel) && cpuCount > 0
    requires StoreWellFormed(store2) && KernelShaped(kernel2) && cpuCount2 > 0
    requires GetG(op, kernel, store, cpuCount).Ok?
    ensures var s := GetG(op, kernel, store, cpuCount).value;
      GetG(s.op, kernel2, store2, cpuCount2) == Ok(Served(s.value, s.op, store2, 0))
  {
  }

  /** Persistence across instances: on the dask path a fresh problem (nothing cached) that
      builds `G` leaves it at `Jpath`, and another fresh problem with the same settings then
      loads that matrix without computing a row. */
  lemma PersistedGReloaded(op: GravityIntegral, kernel: Kernel, store: Store, cpuCount: nat, kernel2: Kernel)
    requires Valid(op) && StoreWellFormed(store) && KernelShaped(kernel) && cpuCount > 0
    requires KernelShaped(kernel2)
    requires SelectBackend(op.parallelized) == Ok(Dask) && op.g.None?
    requires GetG(op, kernel, store, cpuCount).Ok?
    ensures var s := GetG(op, kernel, store, cpuCount).value;
      GetG(op, kernel2, s.store, cpuCount) == Ok(Served(s.value, s.op, s.store, 0))
  {
    var job := Prepare(op).value;
    StoreRoundTrip(kernel, job, store, cpuCount, kernel2);
  }

  /** The matrix `G` built for a paired problem without a stored matrix to pick up: one row per
      receiver, row `ii` being the kernel at receiver `ii` over the active cells' corners. */
  lemma BuiltGIsStackedRows(op: GravityIntegral, kernel: Kernel, store: Store, cpuCount: nat)
    requires Valid(op) && StoreWellFormed(store) && KernelShaped(kernel) && cpuCount > 0
    requires op.g.None? && !op.forwardOnly
    requires SelectBackend(op.parallelized) != Ok(Dask) || op.jPath !in store
    requires GetG(op, kernel, store, cpuCount).Ok?
    ensures var s := GetG(op, kernel, store, cpuCount).value;
      && var inds := ActiveIndices(op.actInd, CellCount(op.cells)).value;
      && var active := Restrict(op.cells, inds, op.equiSourceLayer);
      && |s.value| == |op.survey.value| && s.evaluated == |op.survey.value|
      && forall ii :: 0 <= ii < |s.value| ==> s.value[ii] == kernel(op.survey.value[ii], active)
  {
    var job := Prepare(op).value;
    assert !CacheHit(job, store);
  }

  /** `fields(m)`: in forward-only mode, the flattened per-receiver dot products; otherwise
      `G * m` with the cached or newly built `G`. */
  function Fields(op: GravityIntegral, m: Vector, kernel: Kernel, store: Store, cpuCount: nat)
    : (r: Result<Served<Vector>>)
    requires Valid(op) && StoreWellFormed(store) && KernelShaped(kernel) && cpuCount > 0
    ensures r.Ok? ==> Valid(r.value.op) && StoreWellFormed(r.value.store)
    ensures !op.forwardOnly && !Paired(op) ==> r == Err(NotPaired)
    ensures !op.forwardOnly ==>
      && (r.Ok? <==> GetG(op, kernel, store, cpuCount).Ok? &&
                     forall i :: 0 <= i < |GetG(op, kernel, store, cpuCount).value.value| ==>
                       |GetG(op, kernel, store, cpuCount).value.value[i]| == |m|)
      && (r.Ok? ==>
            var s := GetG(op, kernel, store, cpuCount).value;
            && r.value.op == s.op && r.value.op.g == Some(s.value)
            && r.value.store == s.store && r.value.evaluated == s.evaluated
            && MatVec(s.value, m) == Ok(r.value.value))
    ensures !op.forwardOnly && GetG(op, kernel, store, cpuCount).Err? ==>
      r == Err(GetG(op, kernel, store, cpuCount).error)
    ensures !op.forwardOnly && GetG(op, kernel, store, cpuCount).Ok? && r.Err? ==> r == Err(ShapeMismatch)
    ensures op.forwardOnly && IntrglFwrOp(op, Some(m), kernel, store, cpuCount).Err? ==>
      r == Err(IntrglFwrOp(op, Some(m), kernel, store, cpuCount).error)
    ensures op.forwardOnly ==>
      && (r.Ok? <==> IntrglFwrOp(op, Some(m), kernel, store, cpuCount).Ok?)
      && (r.Ok? ==>
            var s := IntrglFwrOp(op, Some(m), kernel, store, cpuCount).value;
            && r.value.op == op.(model := m)
            && r.value == Served(Mkvc(s.value), s.op, s.store, s.evaluated))
  {
    if op.forwardOnly then
      match IntrglFwrOp(op, Some(m), kernel, store, cpuCount)
      case Err(e) => Err(e)
      case Ok(s) => Ok(Served(Mkvc(s.value), s.op, s.store, s.evaluated))
    else
      match GetG(op, kernel, store, cpuCount)
      case Err(e) => Err(e)
      case Ok(s) =>
        match MatVec(s.value, m)
        case Err(e) => Err(e)
        case Ok(v) => Ok(Served(v, s.op, s.store, s.evaluated))
  }

  /** Forward-only `fields(m)` agrees with `G * m` for the same problem with the matrix formed
      (no stored matrix being picked up): streaming and full assembly give the same data. */
  lemma ForwardOnlyFieldsMatchG(op: GravityIntegral, m: Vector, kernel: Kernel, store: Store, cpuCount: nat)
    requires Valid(op) && StoreWellFormed(store) && KernelShaped(kernel) && cpuCount > 0
    requires op.forwardOnly
    requires SelectBackend(op.parallelized) != Ok(Dask) || op.jPath !in store
    requires Fields(op, m, kernel, store, cpuCount).Ok?
    ensures var full := op.(forwardOnly := false, g := None, gtgdiag := None);
      && GetG(full, kernel, store, cpuCount).Ok?
      && MatVec(GetG(full, kernel, store, cpuCount).value.value, m) == Ok(Fields(op, m, kernel, store, cpuCount).value.value)
  {
    var op1 := op.(model := m);
    var full := op.(forwardOnly := false, g := None, gtgdiag := None);
    var served := IntrglFwrOp(op, Some(m), kernel, store, cpuCount);
    assert served.Ok?;
    var streamJob := Prepare(op1).value;
    var fullJob := streamJob.(forwardOnly := false, model := op.model);
    assert Prepare(full) == Ok(fullJob);
    StreamingMatchesFormed(kernel, streamJob, store, cpuCount, op.model);
    var streamed := Calculate(kernel, streamJob, store, cpuCount).value.g;
    var formed := Calculate(kernel, fullJob, store, cpuCount).value.g;
    assert served.value.value == streamed;
    var fields := Mkvc(streamed);
    assert Fields(op, m, kernel, store, cpuCount).value.value == fields;
    assert IntrglFwrOp(full, None, kernel, store, cpuCount).Ok?;
    assert GetG(full, kernel, store, cpuCount).value.value == formed;
    StackedIsRectangular(streamed, kernel, streamJob);
    MkvcOfColumn(streamed);
    assert MatVec(formed, m).Ok?;
    assert MatVec(formed, m).value == fields;
  }

  /** Sum over rows i < n of `gtg[i] * d[i][j]^2`. */
  function WeightedColumnSquares(gtg: Vector, d: Matrix, j: nat, n: nat): real
    requires n <= |gtg| && |gtg| == |d| && IsRectangular(d) && j < Width(d)
  {
    if n == 0 then 0.0 else WeightedColumnSquares(gtg, d, j, n - 1) + gtg[n - 1] * (d[n - 1][j] * d[n - 1][j])
  }

  /** The diagonal of `JᵀJ` from the cached column sums: scale row `i` of the map derivative by
      the square root of `gtg[i]`, square every entry and sum each column. For non-negative
      `gtg` the square of `sqrt(gtg[i]) * d[i][j]` is `gtg[i] * d[i][j]^2`, which is what is
      summed here. The derivative needs one row per entry of `gtg`. */
  function JtJDiag(gtg: Vector, d: Matrix): (r: Result<Vector>)
    requires IsRectangular(d)
    ensures r.Ok? <==> |d| == |gtg|
    ensures r.Ok? ==> r.value == WeightedGramDiag(gtg, d)
    ensures r.Err? ==> r == Err(ShapeMismatch)
  {
    if |d| != |gtg| then Err(ShapeMismatch)
    else
      var r := seq(Width(d), j requires 0 <= j < Width(d) => WeightedColumnSquares(gtg, d, j, |d|));
      JtJDiagIsWeightedGram(gtg, d, r);
      Ok(r)
  }

  /** The running sum is the dot product of the leading parts of column `j` and of
      `diag(gtg)` times column `j`. */
  lemma {:induction false} WeightedColumnSquaresIsDot(gtg: Vector, d: Matrix, j: nat, n: nat)
    requires n <= |gtg| && |gtg| == |d| && IsRectangular(d) && j < Width(d)
    ensures WeightedColumnSquares(gtg, d, j, n) == Dot(Column(d, j)[..n], Scale(gtg, Column(d, j))[..n])
  {
    var c, sc := Column(d, j), Scale(gtg, Column(d, j));
    if n > 0 {
      WeightedColumnSquaresIsDot(gtg, d, j, n - 1);
      assert c[..n][..n - 1] == c[..n - 1];
      assert sc[..n][..n - 1] == sc[..n - 1];
      var x, w := d[n - 1][j], gtg[n - 1];
      assert c[n - 1] == x && sc[n - 1] == w * x;
      assert x * (w * x) == w * (x * x);
    }
  }

  lemma JtJDiagIsWeightedGram(gtg: Vector, d: Matrix, r: Vector)
    requires IsRectangular(d) && |d| == |gtg|
    requires r == seq(Width(d), j requires 0 <= j < Width(d) => WeightedColumnSquares(gtg, d, j, |d|))
    ensures r == WeightedGramDiag(gtg, d)
  {
    var ref := WeightedGramDiag(gtg, d);
    forall j | 0 <= j < Width(d)
      ensures r[j] == ref[j]
    {
      WeightedColumnSquaresIsDot(gtg, d, j, |d|);
      var c := Column(d, j);
      assert c[..|d|] == c;
      assert Scale(gtg, c)[..|d|] == Scale(gtg, c);
    }
  }

  lemma {:induction false} WeightedColumnSquaresOfIdentity(gtg: Vector, j: nat, n: nat)
    requires n <= |gtg| && j < |gtg|
    ensures WeightedColumnSquares(gtg, Identity(|gtg|), j, n) == if j < n then gtg[j] else 0.0
  {
    if n > 0 {
      WeightedColumnSquaresOfIdentity(gtg, j, n - 1);
      var e := Identity(|gtg|)[n - 1][j];
      if n - 1 == j {
        assert e == 1.0;
      } else {
        assert e == 0.0;
      }
    }
  }

  /** With the identity as the model map's derivative, the JtJ diagonal is the cached column
      sums of squares themselves. */
  lemma JtJDiagOfIdentity(gtg: Vector)
    ensures JtJDiag(gtg, Identity(|gtg|)) == Ok(gtg)
  {
    var id := Identity(|gtg|);
    assert IsRectangular(id) && Width(id) == |gtg|;
    assert |id| == |gtg|;
    var r := JtJDiag(gtg, id).value;
    assert |r| == |gtg|;
    forall j | 0 <= j < |gtg|
      ensures r[j] == gtg[j]
    {
      WeightedColumnSquaresOfIdentity(gtg, j, |gtg|);
    }
    assert r == gtg;
  }

  /** `getJtJdiag(m, W)`: record the model, compute `gtgdiag` from `G` on the first call only,
      and scale it by the model map's derivative `dmudm`. `W` is read but plays no part in the
      result. */
  function GetJtJdiag(op: GravityIntegral, m: Vector, dmudm: Matrix, w: Option<Matrix>,
                      kernel: Kernel, store: Store, cpuCount: nat): (r: Result<Served<Vector>>)
    requires Valid(op) && StoreWellFormed(store) && KernelShaped(kernel) && cpuCount > 0
    requires IsRectangular(dmudm)
    ensures r.Ok? ==> Valid(r.value.op) && StoreWellFormed(r.value.store)
    ensures r.Ok? ==> r.value.op.gtgdiag.Some? && r.value.op.model == m
    ensures r.Ok? ==> JtJDiag(r.value.op.gtgdiag.value, dmudm) == Ok(r.value.value)
    ensures op.gtgdiag.Some? ==>
      (r.Ok? <==> |dmudm| == |op.gtgdiag.value|) &&
      (r.Ok? ==> r.value.op == op.(model := m) && r.value.store == store && r.value.evaluated == 0) &&
      (r.Err? ==> r == Err(ShapeMismatch))
    ensures r.Ok? && op.gtgdiag.None? ==>
      && GetG(op.(model := m), kernel, store, cpuCount).Ok?
      && var s := GetG(op.(model := m), kernel, store, cpuCount).value;
      && r.value.op == s.op.(gtgdiag := Some(ColumnSumSquares(s.value)))
      && r.value.store == s.store && r.value.evaluated == s.evaluated
    ensures op.gtgdiag.None? ==>
      && var g := GetG(op.(model := m), kernel, store, cpuCount);
      && (r.Ok? <==> g.Ok? && |dmudm| == Width(g.value.value))
      && (g.Err? ==> r == Err(g.error))
      && (g.Ok? && r.Err? ==> r == Err(ShapeMismatch))
  {
    var op1 := op.(model := m);
    if op1.gtgdiag.Some? then
      match JtJDiag(op1.gtgdiag.value, dmudm)
      case Err(e) => Err(e)
      case Ok(v) => Ok(Served(v, op1, store, 0))
    else
      match GetG(op1, kernel, store, cpuCount)
      case Err(e) => Err(e)
      case Ok(s) =>
        var gtg := ColumnSumSquares(s.value);
        match JtJDiag(gtg, dmudm)
        case Err(e) => Err(e)
        case Ok(v) => Ok(Served(v, s.op.(gtgdiag := Some(gtg)), s.store, s.evaluated))
  }

  /** With an identity derivative, `getJtJdiag` returns `gtgdiag`. */
  lemma JtJdiagWithIdentityIsGtg(op: GravityIntegral, m: Vector, dmudm: Matrix, w: Option<Matrix>,
                                 kernel: Kernel, store: Store, cpuCount: nat)
    requires Valid(op) && StoreWellFormed(store) && KernelShaped(kernel) && cpuCount > 0
    requires dmudm == Identity(|dmudm|)
    ensures var r := GetJtJdiag(op, m, dmudm, w, kernel, store, cpuCount);
      r.Ok? ==> r.value.op.gtgdiag == Some(r.value.value)
  {
    var r := GetJtJdiag(op, m, dmudm, w, kernel, store, cpuCount);
    if r.Ok? {
      JtJDiagOfIdentity(r.value.op.gtgdiag.value);
    }
  }

  /** Every `gtgdiag` a consistent problem caches is non-negative, so the square root taken
      of it is real and squares back to it. */
  lemma CachedGtgNonNegative(op: GravityIntegral)
    requires Valid(op) && op.gtgdiag.Some?
    ensures forall j :: 0 <= j < |op.gtgdiag.value| ==> op.gtgdiag.value[j] >= 0.0
  {
    var g := op.g.value;
    forall j | 0 <= j < |op.gtgdiag.value|
      ensures op.gtgdiag.value[j] >= 0.0
    {
      ColumnSquaresNonNegative(g, j, |g|);
    }
  }
}
