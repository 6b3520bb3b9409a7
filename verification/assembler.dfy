/** `Forward.calculate`: plan the chunks, pick the execution backend, and stack one row per
    receiver, loading from or saving to the path-keyed store on the dask path. */
module Assembler {
  import opened Outcome
  import opened LinAlg
  import opened Geometry
  import opened ChunkPlanner
  import opened Progress

  /** A receiver location (one row of `rxLoc`). */
  datatype Loc = Loc(x: real, y: real, z: real)

  /** The prism formula of `calcTrow`, left uninterpreted: the response at a receiver of every
      cell of the given (active-cell) corner arrays, for the configured field component. */
  type Kernel = (Loc, Corners) -> Vector

  /** The one fact used about the prism formula: the row it fills has one entry per cell. */
  ghost predicate KernelShaped(kernel: Kernel)
  {
    forall l, c :: |kernel(l, c)| == CellCount(c)
  }

  /** The `parallelized` setting: unset (None), a boolean, or a string. */
  datatype Parallelized = NotSet | Flag(on: bool) | Named(name: string)

  /** Python truthiness of the setting. */
  predicate Truthy(p: Parallelized)
  {
    match p
    case NotSet => false
    case Flag(on) => on
    case Named(name) => name != ""
  }

  /** How `format` renders the setting in the assertion message. */
  function Shown(p: Parallelized): string
  {
    match p
    case NotSet => "None"
    case Flag(on) => if on then "True" else "False"
    case Named(name) => name
  }

  datatype Backend = Dask | Multiprocessing | Sequential

  /** The assertion message; the adjacent string literals of the source join without a space. */
  const BackendMessage: string := "'parallelization' must be 'dask', 'multiprocessing' or NoneValue provided -> "

  predicate EndsWith(s: string, suffix: string)
  {
    |suffix| <= |s| && s[|s| - |suffix|..] == suffix
  }

  /** Backend dispatch: a falsy setting runs sequentially; a truthy one must be one of the
      strings "dask" or "multiprocessing", or the assertion fails naming the value given. */
  function SelectBackend(p: Parallelized): (r: Result<Backend>)
    ensures r == Ok(Sequential) <==> !Truthy(p)
    ensures r == Ok(Dask) <==> p == Named("dask")
    ensures r == Ok(Multiprocessing) <==> p == Named("multiprocessing")
    ensures r.Err? <==> Truthy(p) && p != Named("dask") && p != Named("multiprocessing")
    ensures r.Err? ==> r.error.UnsupportedBackend? && EndsWith(r.error.message, Shown(p))
  {
    if !Truthy(p) then Ok(Sequential)
    else if p == Named("dask") then Ok(Dask)
    else if p == Named("multiprocessing") then Ok(Multiprocessing)
    else
      var shown := Shown(p);
      var message := BackendMessage + shown;
      assert message[|message| - |shown|..] == shown;
      Err(UnsupportedBackend(message))
  }

  /** The on-disk store: a chunked array per path. Only existence and contents are modelled. */
  type Store = map<string, Matrix>

  predicate StoreWellFormed(store: Store)
  {
    forall path :: path in store ==> IsRectangular(store[path])
  }

  /** The attributes of a `Forward` job. */
  datatype Job = Job(
    rxLoc: seq<Loc>,
    cells: Corners,
    model: Vector,
    forwardOnly: bool,
    parallelized: Parallelized,
    nCpu: Option<nat>,
    maxRAM: nat,
    storeG: bool,
    jPath: string)

  /** In forward-only mode the model has one value per active cell (otherwise `np.dot`
      refuses the shapes). */
  predicate ModelAligned(job: Job)
  {
    job.forwardOnly ==> |job.model| == CellCount(job.cells)
  }

  /** The rows can be formed. */
  ghost predicate RowsDefined(kernel: Kernel, job: Job)
  {
    KernelShaped(kernel) && ModelAligned(job)
  }

  /** `calcTrow`: the kernel's row, or in forward-only mode its dot product with the model. */
  function CalcTrow(kernel: Kernel, job: Job, rx: Loc): Vector
    requires RowsDefined(kernel, job)
  {
    var row := kernel(rx, job.cells);
    if job.forwardOnly then [Dot(row, job.model)] else row
  }

  /** The reference every backend must meet: row `ii` is `calcTrow(rxLoc[ii])`. */
  predicate Stacked(g: Matrix, kernel: Kernel, job: Job)
    requires RowsDefined(kernel, job)
  {
    |g| == |job.rxLoc| && forall ii :: 0 <= ii < |g| ==> g[ii] == CalcTrow(kernel, job, job.rxLoc[ii])
  }

  /** The one-row block `calcTrow` returns for a receiver. */
  function RowBlock(kernel: Kernel, job: Job, rx: Loc): Matrix
    requires RowsDefined(kernel, job)
  {
    [CalcTrow(kernel, job, rx)]
  }

  /** Block `ii` is the block of receiver `ii`, for every receiver. */
  predicate InReceiverOrder(blocks: seq<Matrix>, kernel: Kernel, job: Job)
    requires RowsDefined(kernel, job)
  {
    |blocks| == |job.rxLoc| && forall ii :: 0 <= ii < |blocks| ==> blocks[ii] == RowBlock(kernel, job, job.rxLoc[ii])
  }

  /** Stacking the receivers' blocks in order meets the reference. */
  lemma StackInReceiverOrder(blocks: seq<Matrix>, kernel: Kernel, job: Job)
    requires RowsDefined(kernel, job) && InReceiverOrder(blocks, kernel, job)
    ensures Stacked(VStack(blocks), kernel, job)
  {
    VStackOfRows(blocks);
  }

  /** The dask path: one delayed one-row block per receiver index, stacked with `da.vstack`. */
  function DaskRows(kernel: Kernel, job: Job): (g: Matrix)
    requires RowsDefined(kernel, job)
    ensures Stacked(g, kernel, job)
  {
    var blocks := seq(|job.rxLoc|, ii requires 0 <= ii < |job.rxLoc| => RowBlock(kernel, job, job.rxLoc[ii]));
    StackInReceiverOrder(blocks, kernel, job);
    VStack(blocks)
  }

  /** `pool.map(calcTrow, locs)`: results come back in submission order. */
  function PoolMap(kernel: Kernel, job: Job, locs: seq<Loc>): (blocks: seq<Matrix>)
    requires RowsDefined(kernel, job)
    ensures |blocks| == |locs|
    ensures forall i :: 0 <= i < |locs| ==> blocks[i] == RowBlock(kernel, job, locs[i])
  {
    if |locs| == 0 then [] else [RowBlock(kernel, job, locs[0])] + PoolMap(kernel, job, locs[1..])
  }

  /** The multiprocessing path: map the receivers over the pool, then `np.vstack` the results. */
  function PoolRows(kernel: Kernel, job: Job): (g: Matrix)
    requires RowsDefined(kernel, job)
    ensures Stacked(g, kernel, job)
  {
    var blocks := PoolMap(kernel, job, job.rxLoc);
    StackInReceiverOrder(blocks, kernel, job);
    VStack(blocks)
  }

  /** The sequential loop from iteration `ii` on: append the block of receiver `ii`, then call
      `progress(ii, nD)`. Returns the blocks and the deciles reported. */
  function SequentialFrom(kernel: Kernel, job: Job, ii: nat, result: seq<Matrix>, rep: Reporter, reports: seq<nat>)
    : (seq<Matrix>, seq<nat>)
    requires RowsDefined(kernel, job) && ii <= |job.rxLoc|
    decreases |job.rxLoc| - ii
  {
    if ii == |job.rxLoc| then (result, reports)
    else
      var tick := Tick(rep, ii, |job.rxLoc|);
      SequentialFrom(kernel, job, ii + 1, result + [RowBlock(kernel, job, job.rxLoc[ii])],
                     tick.0, reports + Emitted(tick.1))
  }

  lemma {:induction false} SequentialFromStacks(kernel: Kernel, job: Job, ii: nat, result: seq<Matrix>,
                                                rep: Reporter, reports: seq<nat>)
    requires RowsDefined(kernel, job) && ii <= |job.rxLoc|
    requires |result| == ii
    requires forall k :: 0 <= k < ii ==> result[k] == RowBlock(kernel, job, job.rxLoc[k])
    requires Trace(rep, reports) == Run(|job.rxLoc|, ii)
    ensures var out := SequentialFrom(kernel, job, ii, result, rep, reports);
      InReceiverOrder(out.0, kernel, job) && out.1 == Run(|job.rxLoc|, |job.rxLoc|).reports
    decreases |job.rxLoc| - ii
  {
    if ii < |job.rxLoc| {
      var tick := Tick(rep, ii, |job.rxLoc|);
      SequentialFromStacks(kernel, job, ii + 1, result + [RowBlock(kernel, job, job.rxLoc[ii])],
                           tick.0, reports + Emitted(tick.1));
    }
  }

  /** The whole sequential path from a fresh reporter (`progressIndex = -1`), then `np.vstack`. */
  function SequentialRows(kernel: Kernel, job: Job): (out: (Matrix, seq<nat>))
    requires RowsDefined(kernel, job)
    ensures Stacked(out.0, kernel, job)
    ensures out.1 == Run(|job.rxLoc|, |job.rxLoc|).reports
  {
    SequentialFromStacks(kernel, job, 0, [], Fresh, []);
    var out := SequentialFrom(kernel, job, 0, [], Fresh, []);
    StackInReceiverOrder(out.0, kernel, job);
    (VStack(out.0), out.1)
  }

  /** Whatever the backend, the stacked matrix is the same: row `ii` comes from receiver `ii`. */
  lemma BackendsAgree(kernel: Kernel, job: Job)
    requires RowsDefined(kernel, job)
    ensures DaskRows(kernel, job) == PoolRows(kernel, job)
    ensures DaskRows(kernel, job) == SequentialRows(kernel, job).0
  {
  }

  /** A stacked matrix is rectangular: as wide as the active cells, or one wide in forward-only mode. */
  lemma StackedIsRectangular(g: Matrix, kernel: Kernel, job: Job)
    requires RowsDefined(kernel, job) && Stacked(g, kernel, job) && |g| > 0
    ensures IsRectangular(g)
    ensures Width(g) == if job.forwardOnly then 1 else CellCount(job.cells)
  {
  }

  /** `n_cpu`, defaulting to the host's CPU count. */
  function Workers(job: Job, cpuCount: nat): nat
  {
    if job.nCpu.Some? then job.nCpu.value else cpuCount
  }

  /** The dask backend finds a matrix already at the job's path. */
  predicate CacheHit(job: Job, store: Store)
  {
    SelectBackend(job.parallelized) == Ok(Dask) && job.jPath in store
  }

  /** What `calculate` returns, the store after it, the chunk plan, how many `calcTrow` calls
      were issued, and the deciles the sequential path reported. */
  datatype Assembly = Assembly(g: Matrix, store: Store, plan: ChunkPlan, evaluated: nat, reports: seq<nat>)

  /** `Forward.calculate`: default the worker count, plan the chunks, dispatch on the backend,
      and stack one row per receiver (or load the stored matrix on the dask path). */
  function Calculate(kernel: Kernel, job: Job, store: Store, cpuCount: nat): (r: Result<Assembly>)
    requires KernelShaped(kernel) && cpuCount > 0
    ensures r.Ok? <==>
      && Workers(job, cpuCount) > 0
      && Returns(|job.rxLoc|, CellCount(job.cells), Workers(job, cpuCount), job.maxRAM)
      && SelectBackend(job.parallelized).Ok?
      && (CacheHit(job, store) || (|job.rxLoc| > 0 && ModelAligned(job)))
    ensures r == Err(ZeroWorkers) <==> Workers(job, cpuCount) == 0
    ensures Workers(job, cpuCount) > 0 ==>
      (r == Err(NeverReturns) <==> !Returns(|job.rxLoc|, CellCount(job.cells), Workers(job, cpuCount), job.maxRAM))
    ensures r.Err? && r.error.UnsupportedBackend? ==> SelectBackend(job.parallelized) == Err(r.error)
    ensures Workers(job, cpuCount) > 0 && SelectBackend(job.parallelized).Err?
            && Returns(|job.rxLoc|, CellCount(job.cells), Workers(job, cpuCount), job.maxRAM) ==>
      r == Err(SelectBackend(job.parallelized).error)
    ensures r.Ok? ==> Workers(job, cpuCount) > 0 && SelectBackend(job.parallelized).Ok?
    ensures r.Ok? ==>
      PlanChunks(|job.rxLoc|, CellCount(job.cells), Workers(job, cpuCount), job.maxRAM) == Some(r.value.plan)
    ensures r.Ok? && CacheHit(job, store) ==>
      r.value.g == store[job.jPath] && r.value.store == store && r.value.evaluated == 0
    ensures r.Ok? && !CacheHit(job, store) ==>
      && RowsDefined(kernel, job)
      && Stacked(r.value.g, kernel, job)
      && r.value.evaluated == |job.rxLoc| > 0
      && r.value.store == (if SelectBackend(job.parallelized) == Ok(Dask) && job.storeG
                           then store[job.jPath := r.value.g] else store)
    ensures r.Ok? ==>
      r.value.reports == if SelectBackend(job.parallelized) == Ok(Sequential) && !CacheHit(job, store)
                         then Run(|job.rxLoc|, |job.rxLoc|).reports else []
    ensures r == Err(NothingToStack) <==>
      && Workers(job, cpuCount) > 0
      && Returns(|job.rxLoc|, CellCount(job.cells), Workers(job, cpuCount), job.maxRAM)
      && SelectBackend(job.parallelized).Ok? && !CacheHit(job, store) && |job.rxLoc| == 0
    ensures r == Err(ShapeMismatch) <==>
      && Workers(job, cpuCount) > 0
      && Returns(|job.rxLoc|, CellCount(job.cells), Workers(job, cpuCount), job.maxRAM)
      && SelectBackend(job.parallelized).Ok? && !CacheHit(job, store) && |job.rxLoc| > 0
      && !ModelAligned(job)
    ensures r.Ok? && StoreWellFormed(store) ==> IsRectangular(r.value.g) && StoreWellFormed(r.value.store)
  {
    var nD, nC, nCpu := |job.rxLoc|, CellCount(job.cells), Workers(job, cpuCount);
    if nCpu == 0 then Err(ZeroWorkers)
    else match PlanChunks(nD, nC, nCpu, job.maxRAM)
      case None => Err(NeverReturns)
      case Some(plan) =>
        match SelectBackend(job.parallelized)
        case Err(e) => Err(e)
        case Ok(backend) =>
          if backend == Dask && job.jPath in store then
            Ok(Assembly(store[job.jPath], store, plan, 0, []))
          else if nD == 0 then Err(NothingToStack)
          else if !ModelAligned(job) then Err(ShapeMismatch)
          else match backend
            case Dask =>
              var g := DaskRows(kernel, job);
              StackedIsRectangular(g, kernel, job);
              Ok(Assembly(g, if job.storeG then store[job.jPath := g] else store, plan, nD, []))
            case Multiprocessing =>
              var g := PoolRows(kernel, job);
              StackedIsRectangular(g, kernel, job);
              Ok(Assembly(g, store, plan, nD, []))
            case Sequential =>
              var out := SequentialRows(kernel, job);
              StackedIsRectangular(out.0, kernel, job);
              Ok(Assembly(out.0, store, plan, nD, out.1))
  }

  /** The same job run streaming (forward-only) and with the matrix formed: when no stored
      matrix is picked up, both succeed together, and each streamed entry is the dot product of
      the formed row with the model. */
  lemma StreamingMatchesFormed(kernel: Kernel, job: Job, store: Store, cpuCount: nat, formedModel: Vector)
    requires KernelShaped(kernel) && cpuCount > 0
    requires job.forwardOnly && !CacheHit(job, store)
    requires Calculate(kernel, job, store, cpuCount).Ok?
    ensures var formedJob := job.(forwardOnly := false, model := formedModel);
      && Calculate(kernel, formedJob, store, cpuCount).Ok?
      && var streamed := Calculate(kernel, job, store, cpuCount).value.g;
      && var formed := Calculate(kernel, formedJob, store, cpuCount).value.g;
      && |streamed| == |formed| == |job.rxLoc|
      && forall ii :: 0 <= ii < |formed| ==>
           |formed[ii]| == |job.model| && streamed[ii] == [Dot(formed[ii], job.model)]
  {
    var formedJob := job.(forwardOnly := false, model := formedModel);
    assert !CacheHit(formedJob, store);
    var streamed := Calculate(kernel, job, store, cpuCount).value.g;
    var formed := Calculate(kernel, formedJob, store, cpuCount).value.g;
    forall ii | 0 <= ii < |formed|
      ensures |formed[ii]| == |job.model| && streamed[ii] == [Dot(formed[ii], job.model)]
    {
      assert formed[ii] == kernel(job.rxLoc[ii], job.cells);
    }
  }

  /** The path-keyed store on the dask path with `storeG` set: after one run the matrix sits at
      the job's path, and a later run with that store loads it back without computing a row,
      whatever kernel it is given (existence of the path is the whole cache key). */
  lemma StoreRoundTrip(kernel: Kernel, job: Job, store: Store, cpuCount: nat, kernel2: Kernel)
    requires KernelShaped(kernel) && KernelShaped(kernel2) && cpuCount > 0
    requires SelectBackend(job.parallelized) == Ok(Dask) && job.storeG
    requires Calculate(kernel, job, store, cpuCount).Ok?
    ensures var first := Calculate(kernel, job, store, cpuCount).value;
      && job.jPath in first.store && first.store[job.jPath] == first.g
      && Calculate(kernel2, job, first.store, cpuCount) == Ok(Assembly(first.g, first.store, first.plan, 0, []))
  {
  }
}
