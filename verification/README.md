# Gravity sensitivity assembler: a verified model

This project is a Dafny model of the bookkeeping around the integral-form gravity forward
operator `GravityIntegral` and its `Forward` job in SimPEG. The operator assembles a dense
sensitivity matrix `G` of shape (receivers × active cells). The model covers:

- **Active-cell selection and geometry restriction** (`Geometry`). A boolean mask or an index
  list becomes the ordered list of active cells. The active-cell projector `P` is modelled entry
  by entry, and `Pᵀ` carries the mesh's per-cell corner arrays onto the active cells. In
  equivalent-source mode every lower z bound drops by 1000.
- **The chunk planner** (`ChunkPlanner`). It works in whole bytes, with `maxRAM` in whole
  gigabytes of 10^9 bytes. The number of chunks starts at `n_cpu` and doubles while a block per
  worker is over budget. The first step truncates and later steps round up. The loop's
  non-termination is exposed as `None`, not hidden behind a precondition.
- **Backend dispatch and ordered stacking** (`Assembler`). There are three paths: dask,
  multiprocessing and sequential. Each builds row `ii` from receiver `ii`. The prism formula of
  `calcTrow` is a function-valued parameter (`Kernel`), not interpreted. In forward-only mode a
  row is its dot product with the model.
- **The path-keyed store.** The store is a map from path to matrix. A present path is loaded and
  no row is computed. Otherwise the matrix is built, and it is written to the path when `storeG`
  is set.
- **The decile progress reporter** (`Progress`): the `progressIndex` state machine.
- **The operator facade** (`GravityOperator`). It covers the lazily built and cached `G`,
  `fields`, and `getJtJdiag` with its cached column sums of squares `gtgdiag`. The density map
  `rhoMap` is the identity.

All operations are pure functions over immutable values. The operator's attributes are a
record (`GravityIntegral`), and every call returns the record's new state together with the
store after the call and the number of `calcTrow` calls it issued (one per receiver when the
matrix is built, none when it is cached or loaded). Python exceptions become
`Outcome.Failure` values. The planner's endless loop becomes `Failure.NeverReturns`.

Behaviour of the code worth knowing:

- A bad backend setting fails an `assert`, so the error is an `AssertionError`. Its message
  ends with the value given, such as `True` or a misspelt name.
- The planner's loop can run forever. This happens when the first plan is over budget and the
  budget is below one float64 per worker (`8 * n_cpu` bytes), as
  `ChunkPlanner.PlannerNeverFits` shows.
- The first planner step truncates. A chunk length is 0 when there are fewer receivers (or
  cells) than workers.
- Out-of-range active indices are refused by scipy when the projector `P` is built.
- Forward-only mode still goes through the store. On the dask path an existing `Jpath` is
  loaded and passed to `mkvc` even in forward-only mode.
- Building with no receivers fails, because stacking an empty list of rows raises.

## Model

| member | source | states |
|---|---|---|
| Geometry.TrueIndices | SimPEG/PF/Gravity.py:140-143 | The indices taken from a boolean mask are strictly increasing and all within the mask. `i` is among them exactly when `mask[i]` is true, and there are as many as the mask has true entries. |
| Geometry.ActiveIndices | SimPEG/PF/Gravity.py:138-157 | Without `actInd` the active list is `0..mesh.nC-1`. A mask gives its true positions, and an index list is kept as given. A mask with a true entry at or beyond `mesh.nC`, or an index list with an entry outside the grid, fails with `OutOfRangeIndex`, and only then. |
| Geometry.ProjectPicks | SimPEG/PF/Gravity.py:154-157 | Entry `k` of `Pᵀ·v`, with `P` the 0/1 projector built from the active list, is the grid entry of the `k`-th active cell. |
| Geometry.RestrictSelectsCells | SimPEG/PF/Gravity.py:179-185 | The restricted corner arrays have one row per active cell. Row `k` is the full-grid row of active cell `inds[k]`. Equivalent-source mode lowers only the lower z bound, by 1000; every other bound is unchanged. |
| ChunkPlanner.ChunkCountIsPowerMultiple | SimPEG/PF/Gravity.py:244-248 | After `k` rounds the number of chunks is `n_cpu * 2^k`. |
| ChunkPlanner.ChunksNeverGrow | SimPEG/PF/Gravity.py:245-249 | Another round never lengthens a chunk. This includes the step from the truncating first plan to the first rounded-up one, whenever the first chunk is non-empty. |
| ChunkPlanner.OverBudgetBelowAxis | SimPEG/PF/Gravity.py:247-250 | If the budget holds one element per worker and a round is over budget, the number of chunks is still below the longer axis. Each doubling therefore brings the loop closer to its end. |
| ChunkPlanner.SearchFrom | SimPEG/PF/Gravity.py:247-250 | The loop rounds from `k` on stop at the first round whose plan fits. Every earlier round was over budget, and the final chunk lengths are no longer than in any round passed. |
| ChunkPlanner.PlanChunks | SimPEG/PF/Gravity.py:244-250 | A plan is returned exactly when the loop terminates (the first plan fits, or the budget is at least `8 * n_cpu` bytes). The plan is the loop's state after some number of doublings, and its block per worker fits the budget. Every earlier round was over budget, and chunks never grew. When any doubling happened, the block is strictly smaller than the first plan's. |
| ChunkPlanner.PlannerNeverFits | SimPEG/PF/Gravity.py:246-250 | When the loop does not terminate by the above condition, no round's plan ever fits, so the source's `while` loop spins forever. |
| Progress.Tick | SimPEG/PF/Gravity.py:393-396 | `progressIndex` becomes the larger of itself and the current decile. A report is made exactly when it moves, and the report is the new decile. |
| Progress.RunReportsEachDecileOnce | SimPEG/PF/Gravity.py:303-306 | Over the calls `progress(ii, nD)` for `ii = 0..nD-1` from `progressIndex = -1`, the reports are strictly increasing and each is in `0..9`. The first report is 0. A decile is reported exactly when some call reaches it, so no decile is reported twice. |
| Assembler.SelectBackend | SimPEG/PF/Gravity.py:252-263 | A falsy setting (`None`, `False`, `""`) runs sequentially, and the strings `"dask"` and `"multiprocessing"` select their paths. Any other truthy value, including `True`, fails with a message that ends with the value as `format` renders it. |
| LinAlg.VStackOfRows | SimPEG/PF/Gravity.py:273-276 | Stacking one-row blocks gives one row per block, with row `i` being the single row of block `i`. |
| Assembler.DaskRows | SimPEG/PF/Gravity.py:271-276 | `da.vstack` of the one-row blocks, one per receiver index, has row `ii` equal to `calcTrow(rxLoc[ii])`. |
| Assembler.PoolMap | SimPEG/PF/Gravity.py:293-295 | `pool.map` over the receiver list keeps submission order: result `i` is the block `calcTrow(locs[i])`. |
| Assembler.PoolRows | SimPEG/PF/Gravity.py:293-299 | `np.vstack` of the pool's results has row `ii` equal to `calcTrow(rxLoc[ii])`. |
| Assembler.SequentialRows | SimPEG/PF/Gravity.py:303-308 | The sequential loop's stack has row `ii` equal to `calcTrow(rxLoc[ii])`. Its reports are those of the progress reporter run over `0..nD-1`. |
| Assembler.BackendsAgree | SimPEG/PF/Gravity.py:263-308 | The three backends produce the same matrix. |
| Assembler.Calculate | SimPEG/PF/Gravity.py:236-310 | Characterises `calculate` in full: `n_cpu == 0` fails, and a non-terminating planner is reported. A bad backend fails with the dispatch error. An existing `Jpath` on the dask path is loaded with no row computed and the store untouched. Otherwise the result has `nD > 0` rows, row `ii` is `calcTrow(rxLoc[ii])`, one `calcTrow` call per receiver is issued, and the store gains the matrix at `Jpath` exactly when the path is dask with `storeG`. No receivers, or a forward-only model of the wrong length, fails. The plan is the planner's, and only the sequential path reports progress. |
| Assembler.StreamingMatchesFormed | SimPEG/PF/Gravity.py:377-380 | Run forward-only and with the matrix formed, the same job succeeds in both modes together. Each streamed entry is `dot(row, model)` of the formed row. |
| Assembler.StoreRoundTrip | SimPEG/PF/Gravity.py:265-289 | On the dask path with `storeG`, after one run the matrix sits at `Jpath`. A second run with that store returns it without computing a row, whatever kernel it is given. |
| GravityOperator.Prepare | SimPEG/PF/Gravity.py:138-199 | The job gets the restricted corner arrays of the selected cells and the paired survey's receivers. `storeG` keeps its default of true. It succeeds exactly when the selection is in range and a survey is paired. Otherwise it fails with `OutOfRangeIndex` or `MissingSurvey`, and with no other error. |
| GravityOperator.IntrglFwrOp | SimPEG/PF/Gravity.py:118-204 | `Intrgl_Fwr_Op` records a given model and then runs exactly the prepared job. It succeeds exactly when preparing and calculating both succeed, and a failure of either is passed through unchanged. The result is a rectangular matrix, and the store stays well formed. |
| GravityOperator.GetG | SimPEG/PF/Gravity.py:107-116 | An unpaired problem raises `NotPaired`. A cached `G` is returned unchanged, with no row computed. Otherwise `G` is built once by `Intrgl_Fwr_Op` and cached. The build succeeds exactly when that call does, and its error is passed through unchanged. |
| GravityOperator.GBuiltAtMostOnce | SimPEG/PF/Gravity.py:112-116 | After `G` has been served once, any later access returns the same matrix and computes nothing. |
| GravityOperator.PersistedGReloaded | SimPEG/PF/Gravity.py:265-289 | On the dask path, a fresh problem that built `G` leaves it in the store. Another fresh problem with the same settings reloads it without computing a row. |
| GravityOperator.BuiltGIsStackedRows | SimPEG/PF/Gravity.py:107-116 | A freshly built `G` with no stored matrix picked up has one row per receiver. Row `ii` is the kernel at receiver `ii` over the active cells' corner arrays. |
| GravityOperator.Fields | SimPEG/PF/Gravity.py:41-54 | Outside forward-only mode, `fields(m)` fails exactly when reading `G` fails (`NotPaired` for an unpaired problem) or a row of `G` is not as long as `m`. A failure to read `G` is passed through unchanged, and a length mismatch is `ShapeMismatch`. Otherwise it is `G·m`, where `G` is the matrix the `G` property serves, with that property's state, store and work. In forward-only mode it succeeds exactly when `Intrgl_Fwr_Op(m)` does, passes that call's failure through unchanged, and otherwise returns that call's result flattened, with `m` recorded as the model. |
| GravityOperator.ForwardOnlyFieldsMatchG | SimPEG/PF/Gravity.py:41-54 | With the identity map and no stored matrix picked up, forward-only `fields(m)` equals `G·m` for the same problem with the matrix formed. |
| GravityOperator.JtJDiag | SimPEG/PF/Gravity.py:83 | The product needs one row of the map derivative `d` per `gtgdiag` entry, and fails with `ShapeMismatch` otherwise. It is the diagonal of `dᵀ·diag(gtgdiag)·d`: entry `j` is column `j` of `d` dotted with `diag(gtgdiag)` times that column. |
| GravityOperator.JtJDiagOfIdentity | SimPEG/PF/Gravity.py:83 | With the identity as derivative, the diagonal is `gtgdiag` itself. |
| GravityOperator.GetJtJdiag | SimPEG/PF/Gravity.py:62-83 | The call records `m`. Once `gtgdiag` is cached, it is reused whatever `m`, `W` or the derivative, with no row computed and the store untouched. Otherwise `G` is read through the `G` property, with that property's state, store and work, and `gtgdiag` is cached as the column sums of squares of that `G`. That call succeeds exactly when reading `G` succeeds and the derivative has one row per column of `G`. A failure to read `G` is passed through unchanged. Whether cached or not, a derivative of the wrong height fails with `ShapeMismatch`. `W` plays no part in the result. |
| GravityOperator.CachedGtgNonNegative | SimPEG/PF/Gravity.py:70-83 | Every `gtgdiag` a consistent problem holds is the column sums of squares of its `G`, so each entry is non-negative and its square root is real. |
| GravityOperator.JtJdiagWithIdentityIsGtg | SimPEG/PF/Gravity.py:67-83 | With an identity derivative, `getJtJdiag` returns the cached `gtgdiag`. |

## Left out

- The prism formula of `calcTrow` (lines 333-375) uses floating-point logarithms and arctangents with an epsilon regularisation. It is a parameter of the model. The only fact assumed is that it gives one entry per active cell.
- `rxType` only picks which prism formula is used, so it is folded into the kernel parameter.
- dask, multiprocessing and zarr mechanics are left out: delayed graphs, worker pools, `rechunk` to the planned chunk shape, and the on-disk format. The store is a map from path to matrix. Rechunking changes layout, not entries. What dask does with a zero chunk length is not modelled.
- Floating point is left out. The planner compares exact integers where the source compares `totRAM` (scaled by 1e-9) with `maxRAM` in floating point. `progress` uses exact `floor(10 * ind / total)`. The float32 casts of `Jvec`/`Jtvec` are outside the model.
- `maxRAM` and `n_cpu` are natural numbers. Fractional or negative settings are not modelled.
- `multiprocessing.cpu_count()` is the parameter `cpuCount`, taken as at least 1.
- GravityOperator.JtJDiag: there are no square roots over exact reals. The contract states the diagonal of `dᵀ·diag(gtgdiag)·d`. That equals the source's squared `sqrt(gtgdiag[i]) * d[i][j]` summed over `i` when `gtgdiag` is non-negative, which `GravityOperator.CachedGtgNonNegative` proves for every cached `gtgdiag`.
- The TreeMesh corner branch and the tensor-mesh node vectors (lines 161-177) are external mesh geometry. The full-grid corner arrays are an input.
- `getJ`, `Jvec` and `Jtvec` are products with `G` through the external map derivative, together with float32 casts, and are left out. `modelMap` is a trivial getter.
- `Problem3D_Diff` is a separate PDE solve and is left out.
- `rhoMap` is the identity. `fields` maps `m`, and `Intrgl_Fwr_Op` maps the model again, so forward-only fields equal `G·m` only for the identity map.
- State a Python method changes before it raises is not kept on the failure path. A failing call returns only the failure. This covers three cases:
  - `self.model`, set before a later step raises.
  - In `getJtJdiag`, `_G` and `gtgdiag` are cached before the final product can raise on a mis-shaped derivative. The source's retry then computes nothing; the model's retry rebuilds `G`.
  - On the dask path, `da.to_zarr` may create `Jpath` before a failing compute. The source's next run would then be a cache hit; in the model the store is unchanged.
- GravityOperator.Fields: in forward-only mode the model takes `mkvc` to flatten its argument in column-major order. On the dask path when `Jpath` is already stored, that argument is the dask array `da.from_zarr` returns, not a numpy array. `mkvc` is not part of this model, so whether it accepts a dask array, and how it flattens one, is assumed rather than modelled.
- Prints and progress bars are left out. The sequential path's decile reports are returned as a list instead of printed.
- Matrices are sequences of rows, so an empty matrix has no column count. Stored matrices are assumed rectangular, as any zarr array is.
- Assembler.Calculate: `evaluated` counts the `calcTrow` calls the code issues, one per receiver. On the dask path the rows are `dask.delayed(..., pure=True)` tasks, and dask may merge tasks whose receiver locations are identical, so fewer kernel evaluations can run. That merging is not modelled.
- Assembler.Calculate: on the dask path in forward-only mode, each delayed block is declared with shape `(1, nC)`, but `calcTrow` returns a single dot product. The model stacks the single values into one column, as the multiprocessing and sequential paths do. What dask's `rechunk` and `to_zarr` make of the mismatched declared shape is not modelled. This also limits `Assembler.StreamingMatchesFormed` and `GravityOperator.ForwardOnlyFieldsMatchG` on the dask path.
- Division is read with Python 3 semantics: `/` is true division, then `int`, `np.ceil` or `np.floor`. The file imports only `print_function` from `__future__`. Under Python 2 the divisions of `nD` and `nC` by `nChunks`, and `ind / total` in `progress`, are integer divisions, so the rounded-up steps would truncate and `progress` would report only 0. That reading is not modelled.
- Interrupted writes to the store, and a store at `Jpath` written by a different problem, are not detected by the source. The model likewise keys the store by path only.
