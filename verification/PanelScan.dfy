/** The panels of the pipelined scan, and what a run of it counts. */
module PanelScan {
  import opened Arith
  import opened MixedRadix
  import opened TileGrid
  import opened ScanPipeline
  import opened ScanEnds
  import opened ScanCounts

  // ------------------------------------------------------------------------------------------
  // The panel list

  function PanelTotal(g: Grid): nat
    requires g.Valid()
  {
    g.PanelRows() * g.PanelCols()
  }

  /** Panel number `k`, row by row. */
  function PanelNo(g: Grid, k: nat): Panel
    requires g.Valid() && k < PanelTotal(g)
  {
    SplitJoin(k, g.PanelRows(), g.PanelCols());
    PanelAt(g, Hi(k, g.PanelCols()), Lo(k, g.PanelCols()))
  }

  /** The tile counts of the panels, in the order in which the scan runs them. */
  function Counts(g: Grid): (counts: seq<nat>)
    requires g.Valid()
    ensures |counts| == PanelTotal(g) > 0
  {
    SomePanels(g);
    seq(PanelTotal(g), k requires 0 <= k < PanelTotal(g) => PanelCount(g, PanelNo(g, k).rows, PanelNo(g, k).cols))
  }

  /** What one entry of the panel list holds. */
  datatype PanelJob = PanelJob(panel: Panel, tileCount: nat)

  lemma NumberOf(g: Grid, ri: nat, ci: nat)
    requires g.Valid() && ri < g.PanelRows() && ci < g.PanelCols()
    ensures Join(ri, ci, g.PanelCols()) < PanelTotal(g)
    ensures PanelNo(g, Join(ri, ci, g.PanelCols())) == PanelAt(g, ri, ci)
  {
    JoinBound(ri, ci, g.PanelRows(), g.PanelCols());
    JoinSplit(ri, ci, g.PanelCols());
  }

  ghost predicate Listed(g: Grid, panels: seq<PanelJob>, n: nat)
    requires g.Valid()
  {
    && |panels| == n <= PanelTotal(g)
    && forall k: nat :: k < n ==> panels[k].panel == PanelNo(g, k) && panels[k].tileCount == Counts(g)[k]
  }

  /** The panels of one row of the grid, put behind those before it. */
  method AppendRow(g: Grid, rpi0: nat, subM: nat, subN: nat, isNMK: bool, panels: seq<PanelJob>, ghost ri: nat)
    returns (more: seq<PanelJob>)
    requires g.Valid() && subM > 0 && subN > 0 && ri < g.PanelRows() && rpi0 == ri * g.rowBatch && rpi0 < g.rows
    requires Listed(g, panels, Join(ri, 0, g.PanelCols()))
    ensures Listed(g, more, Join(ri + 1, 0, g.PanelCols()))
  {
    more := panels;
    ChunkPositive(g.rows, g.rowBatch, ri);
    var rowBatch: nat := Min(g.rowBatch, g.rows - rpi0);
    var cpi0: nat := 0;
    ghost var ci := 0;
    hide Counts, PanelNo, Join;
    NextChunk(g.cols, g.colBatch, 0);
    while cpi0 < g.cols
      invariant cpi0 == ci * g.colBatch && ci <= g.PanelCols() && (cpi0 < g.cols <==> ci < g.PanelCols())
      invariant Listed(g, more, Join(ri, ci, g.PanelCols()))
      decreases g.PanelCols() - ci
    {
      NextChunk(g.cols, g.colBatch, ci);
      NextChunk(g.cols, g.colBatch, ci + 1);
      ChunkPositive(g.cols, g.colBatch, ci);
      var colBatch: nat := Min(g.colBatch, g.cols - cpi0);
      SidesDivide(rowBatch, subM);
      SidesDivide(colBatch, subN);
      var _, _, count := ComputeTileGrid(rowBatch * subM, colBatch * subN, subM, subN, g, isNMK);
      var entry := PanelJob(Panel(rpi0, cpi0, rowBatch, colBatch), count);
      EntryListed(g, more, ri, ci, entry);
      more := more + [entry];
      cpi0, ci := cpi0 + g.colBatch, ci + 1;
      JoinStep(ri, ci - 1, g.PanelCols());
    }
    JoinNext(ri, g.PanelCols());
  }

  lemma SidesDivide(batch: nat, sub: nat)
    requires sub > 0
    ensures batch * sub % sub == 0 && Hi(batch * sub, sub) == batch
  {
    DivUnique(batch * sub, sub, batch, 0);
  }

  lemma EntryListed(g: Grid, panels: seq<PanelJob>, ri: nat, ci: nat, entry: PanelJob)
    requires g.Valid() && ri < g.PanelRows() && ci < g.PanelCols()
    requires Listed(g, panels, Join(ri, ci, g.PanelCols()))
    requires entry.panel == PanelAt(g, ri, ci)
    requires entry.tileCount == PanelCount(g, entry.panel.rows, entry.panel.cols)
    ensures Listed(g, panels + [entry], Join(ri, ci, g.PanelCols()) + 1)
  {
    NumberOf(g, ri, ci);
  }

  /** The list the pipelined scan makes before it starts: every panel once, row by row, each with the
      count of its whole sub-grids. */
  method ListPanels(g: Grid, subM: nat, subN: nat, isNMK: bool) returns (panels: seq<PanelJob>)
    requires g.Valid() && subM > 0 && subN > 0
    ensures |panels| == PanelTotal(g) > 0
    ensures forall k: nat :: k < |panels| ==> panels[k].panel == PanelNo(g, k) && panels[k].tileCount == Counts(g)[k]
  {
    panels := [];
    var rpi0: nat := 0;
    ghost var ri := 0;
    NextChunk(g.rows, g.rowBatch, 0);
    SomePanels(g);
    while rpi0 < g.rows
      invariant rpi0 == ri * g.rowBatch && ri <= g.PanelRows() && (rpi0 < g.rows <==> ri < g.PanelRows())
      invariant Listed(g, panels, Join(ri, 0, g.PanelCols()))
      decreases g.PanelRows() - ri
    {
      NextChunk(g.rows, g.rowBatch, ri);
      NextChunk(g.rows, g.rowBatch, ri + 1);
      panels := AppendRow(g, rpi0, subM, subN, isNMK, panels, ri);
      rpi0, ri := rpi0 + g.rowBatch, ri + 1;
    }
  }

  lemma SomePanels(g: Grid)
    requires g.Valid()
    ensures g.PanelRows() > 0 && g.PanelCols() > 0 && PanelTotal(g) > 0
  {
    DivUpBounds(g.rows, g.rowBatch);
    DivUpBounds(g.cols, g.colBatch);
    MulMonotone(g.PanelRows(), 1, g.PanelCols());
  }

  // ------------------------------------------------------------------------------------------
  // The sum of the counts

  /** What the panels from (`ri`, `ci`) on count. */
  function CountFrom(g: Grid, ri: nat, ci: nat): nat
    requires g.Valid() && ri < g.PanelRows() && ci < g.PanelCols()
  {
    ChunkPositive(g.rows, g.rowBatch, ri);
    ColsFrom(g, Min(g.rowBatch, g.rows - ri * g.rowBatch), ci * g.colBatch) + RowsFrom(g, (ri + 1) * g.rowBatch)
  }

  lemma CountStep(g: Grid, ri: nat, ci: nat)
    requires g.Valid() && ri < g.PanelRows() && ci < g.PanelCols()
    ensures var p := PanelAt(g, ri, ci);
            CountFrom(g, ri, ci) == PanelCount(g, p.rows, p.cols)
              + if ci + 1 < g.PanelCols() then CountFrom(g, ri, ci + 1)
                else if ri + 1 < g.PanelRows() then CountFrom(g, ri + 1, 0)
                else 0
  {
    ChunkPositive(g.rows, g.rowBatch, ri);
    ChunkPositive(g.cols, g.colBatch, ci);
    hide ColsFrom, RowsFrom, RowCount, PanelCount;
    var rowBatch := Min(g.rowBatch, g.rows - ri * g.rowBatch);
    ColsFollow(g, rowBatch, ci * g.colBatch);
    NextChunk(g.cols, g.colBatch, ci);
    NextChunk(g.cols, g.colBatch, ci + 1);
    NextChunk(g.rows, g.rowBatch, ri);
    NextChunk(g.rows, g.rowBatch, ri + 1);
    ColsEnd(g, ri * g.rowBatch);
    RowsEnd(g);
    if ri + 1 < g.PanelRows() {
      RowsFollow(g, (ri + 1) * g.rowBatch);
      ColsEnd(g, (ri + 1) * g.rowBatch);
      NextChunk(g.rows, g.rowBatch, ri + 2);
    }
  }

  /** What the panels from number `k` on count. */
  function CountAfter(g: Grid, k: nat): nat
    requires g.Valid()
  {
    if k >= PanelTotal(g) then 0
    else
      SplitJoin(k, g.PanelRows(), g.PanelCols());
      CountFrom(g, Hi(k, g.PanelCols()), Lo(k, g.PanelCols()))
  }

  lemma CountAfterStep(g: Grid, k: nat)
    requires g.Valid() && k < PanelTotal(g)
    ensures CountAfter(g, k) == Counts(g)[k] + CountAfter(g, k + 1)
  {
    var cols := g.PanelCols();
    SplitJoin(k, g.PanelRows(), cols);
    SplitNext(k, cols);
    CountStep(g, Hi(k, cols), Lo(k, cols));
    hide CountFrom, PanelCount;
    var (ri, ci) := (Hi(k, cols), Lo(k, cols));
    if ci + 1 < cols {
      JoinBound(ri, ci + 1, g.PanelRows(), cols);
    } else if ri + 1 < g.PanelRows() {
      JoinBound(ri + 1, 0, g.PanelRows(), cols);
    }
    assert k == ri * cols + ci;
    MulDistributes(cols, ri, 1);
  }

  lemma {:induction false} CountPrefix(g: Grid, k: nat)
    requires g.Valid() && k <= PanelTotal(g)
    ensures Sum(Counts(g)[..k]) + CountAfter(g, k) == ScanCount(g)
  {
    hide CountFrom, ScanCount, Counts;
    if k == 0 {
      WholeCount(g);
    } else {
      CountPrefix(g, k - 1);
      CountAfterStep(g, k - 1);
      assert Counts(g)[..k][..k - 1] == Counts(g)[..k - 1];
    }
  }

  lemma WholeCount(g: Grid)
    requires g.Valid()
    ensures CountAfter(g, 0) == ScanCount(g)
  {
    SomePanels(g);
    JoinSplit(0, 0, g.PanelCols());
    RowsEnd(g);
    RowsFollow(g, 0);
    ColsEnd(g, 0);
    hide ColsFrom, RowsFrom, RowCount, ScanCount;
  }

  /** The panels together count what the synchronous scan counts. */
  lemma PanelsCount(g: Grid)
    requires g.Valid()
    ensures Sum(Counts(g)) == ScanCount(g)
  {
    SomePanels(g);
    CountPrefix(g, PanelTotal(g));
    hide Counts, CountFrom, ScanCount;
    assert Counts(g)[..PanelTotal(g)] == Counts(g);
  }

  // ------------------------------------------------------------------------------------------
  // What a run reports

  /** A successful pipelined scan without a hit reports the count of all whole sub-grids. That is the
      number of tiles if and only if each side is one chunk or a multiple of the sub-grid and no thread
      shares its work, and more otherwise: unlike the synchronous scan, this one does not check. */
  lemma PipelinedCount(g: Grid, hit: Content -> bool, acts: seq<Action>)
    requires g.Valid()
    requires var h := Run(Job(Counts(g), hit), acts).h; h.pc == Returned && h.ok && !h.found
    ensures var scanned := Run(Job(Counts(g), hit), acts).h.scanned;
            && scanned == ScanCount(g) >= g.rows * g.cols
            && (scanned == g.rows * g.cols <==>
                  Aligned(g.rows, g.rowBatch, g.gridM) && Aligned(g.cols, g.colBatch, g.gridN) && g.expand == 1)
  {
    hide Inv, Counts, ScanCount;
    PanelsCount(g);
    CountIsExact(g);
    ScanReportsHits(Job(Counts(g), hit), acts);
  }

  /** Such a run exists on every grid, so every grid that does not meet the condition is over-counted. */
  lemma PipelinedCountReached(g: Grid, hit: Content -> bool) returns (acts: seq<Action>)
    requires g.Valid() && !SomeHit(Job(Counts(g), hit))
    ensures var h := Run(Job(Counts(g), hit), acts).h;
            h.pc == Returned && h.ok && !h.found && h.scanned == ScanCount(g)
  {
    hide Inv, Counts, ScanCount, SomeHit;
    var job := Job(Counts(g), hit);
    PanelsCount(g);
    assert Run(job, []).h.ok;
    acts := CanReturn(job, []);
    assert [] + acts == acts;
    ScanReportsHits(job, acts);
  }

  /** With a hit it reports the panels of the grid up to the first with a hit, which is left out if its jackpot
      ran early: at most what the whole grid counts. */
  lemma PipelinedHitCount(g: Grid, hit: Content -> bool, acts: seq<Action>, f: nat)
    requires g.Valid() && FirstHit(Job(Counts(g), hit), f)
    requires var h := Run(Job(Counts(g), hit), acts).h; h.pc == Returned && h.ok
    ensures var scanned := Run(Job(Counts(g), hit), acts).h.scanned;
            && (scanned == Sum(Counts(g)[..f + 1]) || (f > 0 && scanned == Sum(Counts(g)[..f])))
            && scanned <= ScanCount(g)
  {
    hide Inv, Counts, ScanCount;
    HitIsCounted(Job(Counts(g), hit), acts, f);
    CountPrefix(g, f + 1);
    CountPrefix(g, f);
  }
}
