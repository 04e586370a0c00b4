/** What the count of the pipelined scan means for the fee ledger. */
module FeeScan {
  import opened TileGrid
  import opened ScanSetup
  import Fee
  import FeeRuns
  import FeeOvercount

  /** The matrix size T that the ledger is told. */
  function Matrix(g: Grid): nat { g.rows * g.cols }

  predicate Fits(g: Grid) {
    g.Valid() && Fee.FEE_PERIOD * Matrix(g) + ScanCount(g) <= Fee.UINT64_MAX
  }

  lemma MatrixIsNotEmpty(g: Grid)
    requires g.Valid()
    ensures Matrix(g) > 0
  {
  }

  predicate Exact(g: Grid)
    requires g.Valid()
  {
    Aligned(g.rows, g.rowBatch, g.gridM) && Aligned(g.cols, g.colBatch, g.gridN) && g.expand == 1
  }

  /** The ledger charges every tile exactly, in every run of the client whose scans report the grid's own count,
      if and only if the grid is aligned and no thread shares its work. The same holds of all runs whose scans
      report at most that count, as a scan that ends early does. */
  lemma ExactIfAligned(g: Grid, pools: nat)
    requires Fits(g)
    ensures FeeOvercount.SteadyNeverSaturates(pools, Matrix(g), ScanCount(g)) <==> Exact(g)
    ensures FeeOvercount.NeverSaturates(pools, Matrix(g), ScanCount(g)) <==> Exact(g)
  {
    MatrixIsNotEmpty(g);
    CountIsExact(g);
    hide ScanCount;
    FeeOvercount.ExactUpToOneMatrix(pools, Matrix(g), ScanCount(g));
    hide FeeOvercount.SteadyNeverSaturates, FeeOvercount.NeverSaturates;
  }

  /** Every other grid has a run, of scans that each report its count, in which the first fee scan pays at least
      50 times the surplus of one scan more than is owed. */
  lemma OvercountOverpays(g: Grid, pools: nat) returns (acts: seq<FeeRuns.Action>)
    requires Fits(g) && !Exact(g)
    ensures FeeOvercount.EachAttempt(acts, ScanCount(g)) && ScanCount(g) > Matrix(g)
    ensures FeeRuns.Run(true, pools, Matrix(g), acts).overpaid >= Fee.FEE_PERIOD / 2 * (ScanCount(g) - Matrix(g))
  {
    MatrixIsNotEmpty(g);
    CountIsExact(g);
    hide ScanCount, FeeRuns.Run;
    acts := FeeOvercount.SteadyRunOverpays(pools, Matrix(g), ScanCount(g));
  }

  /** On the smallest matrices with a kernel of 32x32 and a row batch of 3, where each scan counts 5504 tiles for
      4096: in every run, every fee scan pays at least 135297 tiles more than is owed. */
  lemma UnalignedOverpays(pools: nat, acts: seq<FeeRuns.Action>)
    requires FeeOvercount.EachAttempt(acts, 5504)
    ensures UNALIGNED.Valid() && Provable(SubTileOf(UNALIGNED)) && SizesFit(UNALIGNED) && Whole(UNALIGNED)
    ensures var g := GridOf(UNALIGNED); g.Valid() && Matrix(g) == 4096 && ScanCount(g) == 5504
    ensures FeeRuns.Run(true, pools, 4096, acts).overpaid >= 135297 * FeeOvercount.FeeScans(pools, 4096, acts)
  {
    UnalignedIsSetUp();
    UnalignedOvercounts();
    hide ScanCount, FeeRuns.Run, SubTileOf, FeeOvercount.FeeScans;
    FeeOvercount.EveryFeeScanOverpays(pools, 4096, acts, 5504);
  }
}
