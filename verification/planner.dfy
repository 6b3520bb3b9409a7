/** The chunk planner of `Forward.calculate`: starting from one chunk per worker, double the
    number of chunks until a block of the dense float64 matrix per worker fits the memory budget.
    Sizes are whole bytes and the budget is `maxRAM` whole gigabytes of 10^9 bytes. */
module ChunkPlanner {
  import opened Outcome
  import opened Arith

  const BytesPerGB: nat := 1_000_000_000

  /** Bytes per matrix entry (float64). */
  const ElementBytes: nat := 8

  /** The planner's state after `doublings` rounds of its loop. */
  datatype ChunkPlan = ChunkPlan(doublings: nat, nChunks: nat, rowChunk: nat, colChunk: nat)

  function Pow2(k: nat): (p: nat)
    ensures p >= 1
  {
    if k == 0 then 1 else 2 * Pow2(k - 1)
  }

  function Budget(maxRAM: nat): nat
  {
    maxRAM * BytesPerGB
  }

  /** Estimated memory of one block per worker: `rowChunk * colChunk * 8 * n_cpu` bytes. */
  function Footprint(rowChunk: nat, colChunk: nat, nCpu: nat): nat
  {
    Mul(Mul(rowChunk, colChunk), ElementBytes * nCpu)
  }

  /** `nChunks` after `k` rounds: it starts at `n_cpu` and doubles each round. */
  function ChunkCount(nCpu: nat, k: nat): (n: nat)
    ensures n >= nCpu
  {
    if k == 0 then nCpu else 2 * ChunkCount(nCpu, k - 1)
  }

  /** Chunk length along an axis of `total` entries after `k` rounds: the initial plan truncates
      the quotient by the number of chunks, and every plan inside the loop rounds it up. */
  function ChunkLen(total: nat, nCpu: nat, k: nat): nat
    requires nCpu > 0
  {
    if k == 0 then Quot(total, nCpu) else CeilDiv(total, ChunkCount(nCpu, k))
  }

  function Step(nD: nat, nC: nat, nCpu: nat, k: nat): ChunkPlan
    requires nCpu > 0
  {
    ChunkPlan(k, ChunkCount(nCpu, k), ChunkLen(nD, nCpu, k), ChunkLen(nC, nCpu, k))
  }

  /** The plan after `k` rounds stays within the budget, so the loop stops there. */
  predicate Fits(nD: nat, nC: nat, nCpu: nat, maxRAM: nat, k: nat)
    requires nCpu > 0
  {
    Footprint(ChunkLen(nD, nCpu, k), ChunkLen(nC, nCpu, k), nCpu) <= Budget(maxRAM)
  }

  /** The planner's loop terminates: either the first plan fits, or the budget holds one
      element per worker, which every rounded-up plan eventually reaches. */
  predicate Returns(nD: nat, nC: nat, nCpu: nat, maxRAM: nat)
    requires nCpu > 0
  {
    Fits(nD, nC, nCpu, maxRAM, 0) || ElementBytes * nCpu <= Budget(maxRAM)
  }

  /** The number of chunks is always `n_cpu * 2^k`. */
  lemma {:induction false} ChunkCountIsPowerMultiple(nCpu: nat, k: nat)
    ensures ChunkCount(nCpu, k) == nCpu * Pow2(k)
  {
    if k > 0 {
      ChunkCountIsPowerMultiple(nCpu, k - 1);
      assert nCpu * Pow2(k) == 2 * (nCpu * Pow2(k - 1));
    }
  }

  lemma FootprintOfSmallChunks(a: nat, b: nat, nCpu: nat)
    ensures a == 0 || b == 0 ==> Footprint(a, b, nCpu) == 0
    ensures a >= 1 && b >= 1 ==> Footprint(a, b, nCpu) >= ElementBytes * nCpu
    ensures a <= 1 && b <= 1 ==> Footprint(a, b, nCpu) <= ElementBytes * nCpu
  {
    MulIsProduct(a, b);
    MulIsProduct(a * b, ElementBytes * nCpu);
    if a >= 1 && b >= 1 {
      MulMonotone(1, a, b);
      MulMonotone(1, a * b, ElementBytes * nCpu);
    }
    if a <= 1 && b <= 1 {
      if a == 1 && b == 1 {
        assert a * b == 1;
      } else {
        assert a == 0 || b == 0;
      }
    }
  }

  /** A smaller footprint means a smaller block. */
  lemma FootprintOrder(a: nat, b: nat, a0: nat, b0: nat, nCpu: nat)
    ensures Footprint(a, b, nCpu) < Footprint(a0, b0, nCpu) ==> a * b < a0 * b0
  {
    MulIsProduct(a, b);
    MulIsProduct(a * b, ElementBytes * nCpu);
    MulIsProduct(a0, b0);
    MulIsProduct(a0 * b0, ElementBytes * nCpu);
    if a * b >= a0 * b0 {
      MulMonotone(a0 * b0, a * b, ElementBytes * nCpu);
    }
  }

  /** When a plan is over a budget that holds one element per worker, some chunk length is at
      least two, so the number of chunks is still below the longer axis. */
  lemma OverBudgetBelowAxis(nD: nat, nC: nat, nCpu: nat, maxRAM: nat, k: nat)
    requires nCpu > 0 && ElementBytes * nCpu <= Budget(maxRAM)
    requires !Fits(nD, nC, nCpu, maxRAM, k)
    ensures ChunkCount(nCpu, k) < nD || ChunkCount(nCpu, k) < nC
  {
    var a, b := ChunkLen(nD, nCpu, k), ChunkLen(nC, nCpu, k);
    FootprintOfSmallChunks(a, b, nCpu);
    if k == 0 {
      QuotIsDivision(nD, nCpu);
      QuotIsDivision(nC, nCpu);
      if a >= 2 {
        DivAtLeastTwo(nD, nCpu);
      } else {
        DivAtLeastTwo(nC, nCpu);
      }
    } else {
      if a >= 2 {
        CeilDivAtLeastTwo(nD, ChunkCount(nCpu, k));
      } else {
        CeilDivAtLeastTwo(nC, ChunkCount(nCpu, k));
      }
    }
  }

  /** One more round never makes a chunk longer (for the first round, once the chunk is
      non-empty, which holds whenever that plan was over budget). */
  lemma ChunksNeverGrow(total: nat, nCpu: nat, k: nat)
    requires nCpu > 0
    requires k > 0 || ChunkLen(total, nCpu, 0) >= 1
    ensures ChunkLen(total, nCpu, k + 1) <= ChunkLen(total, nCpu, k)
  {
    var c := ChunkCount(nCpu, k);
    assert ChunkCount(nCpu, k + 1) == 2 * c;
    if k == 0 {
      var q := total / nCpu;
      QuotIsDivision(total, nCpu);
      assert q * nCpu + total % nCpu == total;
      MulMonotone(q + 1, 2 * q, nCpu);
      assert total < (q + 1) * nCpu;
      CeilDivLeast(total, 2 * c, q);
    } else {
      var x := CeilDiv(total, c);
      CeilDivCovers(total, c);
      MulMonotone(c, 2 * c, x);
      CeilDivLeast(total, 2 * c, x);
    }
  }

  /** How far the number of chunks is from the longer axis: the measure that makes the search end. */
  function Gap(nD: nat, nC: nat, nCpu: nat, k: nat): nat
  {
    var longest := if nD < nC then nC else nD;
    if ChunkCount(nCpu, k) < longest then longest - ChunkCount(nCpu, k) else 0
  }

  /** The rounds of the planner's loop from round `k` on: the first round at or after `k` whose
      plan fits, with every chunk length no longer than in any round before it. */
  function SearchFrom(nD: nat, nC: nat, nCpu: nat, maxRAM: nat, k: nat): (stop: nat)
    requires nCpu > 0 && k >= 1 && ElementBytes * nCpu <= Budget(maxRAM)
    ensures k <= stop
    ensures Fits(nD, nC, nCpu, maxRAM, stop)
    ensures forall j :: k <= j < stop ==> !Fits(nD, nC, nCpu, maxRAM, j)
    ensures forall j :: k <= j <= stop ==>
      ChunkLen(nD, nCpu, stop) <= ChunkLen(nD, nCpu, j) && ChunkLen(nC, nCpu, stop) <= ChunkLen(nC, nCpu, j)
    decreases Gap(nD, nC, nCpu, k)
  {
    if Fits(nD, nC, nCpu, maxRAM, k) then k
    else
      OverBudgetBelowAxis(nD, nC, nCpu, maxRAM, k);
      ChunksNeverGrow(nD, nCpu, k);
      ChunksNeverGrow(nC, nCpu, k);
      SearchFrom(nD, nC, nCpu, maxRAM, k + 1)
  }

  /** The whole planner: the plan its loop ends with, or None when the loop never ends. */
  function PlanChunks(nD: nat, nC: nat, nCpu: nat, maxRAM: nat): (r: Option<ChunkPlan>)
    requires nCpu > 0
    ensures r.Some? <==> Returns(nD, nC, nCpu, maxRAM)
    ensures r.Some? ==> r.value == Step(nD, nC, nCpu, r.value.doublings)
    ensures r.Some? ==> Footprint(r.value.rowChunk, r.value.colChunk, nCpu) <= Budget(maxRAM)
    ensures r.Some? ==> forall j :: 0 <= j < r.value.doublings ==> !Fits(nD, nC, nCpu, maxRAM, j)
    ensures r.Some? ==> forall j :: 0 <= j <= r.value.doublings ==>
      r.value.rowChunk <= ChunkLen(nD, nCpu, j) && r.value.colChunk <= ChunkLen(nC, nCpu, j)
    ensures r.Some? && r.value.doublings > 0 ==>
      r.value.rowChunk * r.value.colChunk < ChunkLen(nD, nCpu, 0) * ChunkLen(nC, nCpu, 0)
  {
    if Fits(nD, nC, nCpu, maxRAM, 0) then Some(Step(nD, nC, nCpu, 0))
    else if ElementBytes * nCpu > Budget(maxRAM) then None
    else
      var a0, b0 := ChunkLen(nD, nCpu, 0), ChunkLen(nC, nCpu, 0);
      FootprintOfSmallChunks(a0, b0, nCpu);
      ChunksNeverGrow(nD, nCpu, 0);
      ChunksNeverGrow(nC, nCpu, 0);
      var stop := SearchFrom(nD, nC, nCpu, maxRAM, 1);
      FootprintOrder(ChunkLen(nD, nCpu, stop), ChunkLen(nC, nCpu, stop), a0, b0, nCpu);
      Some(Step(nD, nC, nCpu, stop))
  }

  /** When the budget is below one element per worker and the first plan does not fit, no round
      of the loop ever fits: the source's while loop spins forever. */
  lemma PlannerNeverFits(nD: nat, nC: nat, nCpu: nat, maxRAM: nat, k: nat)
    requires nCpu > 0 && !Returns(nD, nC, nCpu, maxRAM)
    ensures !Fits(nD, nC, nCpu, maxRAM, k)
  {
    if k > 0 {
      var a0, b0 := ChunkLen(nD, nCpu, 0), ChunkLen(nC, nCpu, 0);
      FootprintOfSmallChunks(a0, b0, nCpu);
      CeilDivPositive(nD, ChunkCount(nCpu, k));
      CeilDivPositive(nC, ChunkCount(nCpu, k));
      FootprintOfSmallChunks(ChunkLen(nD, nCpu, k), ChunkLen(nC, nCpu, k), nCpu);
    }
  }
}
