/** How a scan cuts the tile grid into panels or macro batches, and what it counts. */
module TileGrid {
  import opened Arith
  import opened MixedRadix

  /** The hash tile grid, the batch sizes, and the kernel's sub-grid: one thread's register tile is
      gridM by gridN hash tiles. `expand` threads share the work of one. */
  datatype Grid = Grid(rows: nat, cols: nat, rowBatch: nat, colBatch: nat, gridM: nat, gridN: nat, expand: nat)
  {
    predicate Valid() {
      && rowBatch > 0 && colBatch > 0 && gridM > 0 && gridN > 0 && rows > 0 && cols > 0 && expand > 0
      && rows % gridM == 0 && cols % gridN == 0
    }

    function PanelCols(): nat requires colBatch > 0 { DivUp(cols, colBatch) }
    function PanelRows(): nat requires rowBatch > 0 { DivUp(rows, rowBatch) }
  }

  function DivUp(a: nat, b: nat): nat
    requires b > 0
  {
    Hi(a + b - 1, b)
  }

  datatype Panel = Panel(tr: nat, tc: nat, rows: nat, cols: nat)

  predicate Covers(p: Panel, r: nat, c: nat) {
    p.tr <= r < p.tr + p.rows && p.tc <= c < p.tc + p.cols
  }

  /** Chunk `k` of `total` in steps of `batch`. */
  function Chunk(total: nat, batch: nat, k: nat): int { Min(batch, total - k * batch) }

  function PanelAt(g: Grid, ri: nat, ci: nat): Panel
    requires g.Valid() && ri < g.PanelRows() && ci < g.PanelCols()
  {
    ChunkPositive(g.rows, g.rowBatch, ri);
    ChunkPositive(g.cols, g.colBatch, ci);
    Panel(ri * g.rowBatch, ci * g.colBatch, Chunk(g.rows, g.rowBatch, ri), Chunk(g.cols, g.colBatch, ci))
  }

  lemma DivUpBounds(a: nat, b: nat)
    requires b > 0
    ensures DivUp(a, b) * b >= a
    ensures a > 0 ==> (DivUp(a, b) - 1) * b < a && DivUp(a, b) > 0
  {
    var q := (a + b - 1) / b;
    assert a + b - 1 == b * q + (a + b - 1) % b;
    MulDistributes(b, q, -1);
  }

  lemma ChunkPositive(total: nat, batch: nat, k: nat)
    requires batch > 0 && k < DivUp(total, batch)
    ensures 0 < Chunk(total, batch, k) <= batch && k * batch < total
  {
    if total > 0 {
      DivUpBounds(total, batch);
      MulMonotone(batch, k, DivUp(total, batch) - 1);
    } else {
      DivUnique(batch - 1, batch, 0, batch - 1);
    }
  }

  /** Position `x` lies in chunk `x / batch` and in no other. */
  lemma InOneChunk(total: nat, batch: nat, x: nat, k: nat)
    requires batch > 0 && x < total && k < DivUp(total, batch)
    ensures k * batch <= x < k * batch + Chunk(total, batch, k) <==> k == Hi(x, batch)
    ensures Hi(x, batch) < DivUp(total, batch)
  {
    DivUpBounds(total, batch);
    DivBelow(x, DivUp(total, batch), batch);
    WhichChunk(batch, x, k);
  }

  lemma WhichChunk(batch: nat, x: nat, k: nat)
    requires batch > 0
    ensures k * batch <= x < k * batch + batch <==> k == Hi(x, batch)
  {
    assert x == batch * (x / batch) + x % batch;
    if k * batch <= x < k * batch + batch {
      DivUnique(x, batch, k, x - k * batch);
    }
  }

  /** Every tile of the grid is in exactly one panel. */
  lemma PanelsPartition(g: Grid, r: nat, c: nat, ri: nat, ci: nat)
    requires g.Valid() && r < g.rows && c < g.cols && ri < g.PanelRows() && ci < g.PanelCols()
    ensures Covers(PanelAt(g, ri, ci), r, c) <==> ri == Hi(r, g.rowBatch) && ci == Hi(c, g.colBatch)
    ensures Hi(r, g.rowBatch) < g.PanelRows() && Hi(c, g.colBatch) < g.PanelCols()
  {
    InOneChunk(g.rows, g.rowBatch, r, ri);
    InOneChunk(g.cols, g.colBatch, c, ci);
  }

  // ------------------------------------------------------------------------------------------
  // What a panel counts

  /** Tiles launched along one side of a panel: whole sub-grids. */
  function Launched(batch: nat, grid: nat): nat
    requires grid > 0
  {
    DivUp(batch, grid) * grid
  }

  lemma LaunchedAtLeast(batch: nat, grid: nat)
    requires grid > 0
    ensures Launched(batch, grid) >= batch
    ensures Launched(batch, grid) == batch <==> batch % grid == 0
  {
    DivUpBounds(batch, grid);
    var q := DivUp(batch, grid);
    if batch % grid == 0 {
      var d := batch / grid;
      assert batch == grid * d;
      MulDistributes(grid, d, 1);
      DivUnique(batch + grid - 1, grid, d, grid - 1);
    }
    if q * grid == batch {
      DivUnique(batch, grid, q, 0);
    }
  }

  /** `compute_tile_grid_` for sides given in matrix rows and columns. The factor for shared work goes
      to the column threads, or to the row threads of a kernel that walks N first. */
  method ComputeTileGrid(m: nat, n: nat, subM: nat, subN: nat, g: Grid, isNMK: bool)
    returns (tileRows: nat, tileCols: nat, count: nat)
    requires g.Valid() && subM > 0 && subN > 0
    requires m % subM == 0 && n % subN == 0
    ensures count == PanelCount(g, Hi(m, subM), Hi(n, subN))
  {
    Threads(m, g.gridM, subM);
    Threads(n, g.gridN, subN);
    hide Hi, DivUp, Launched;
    var threadsM, threadsN := DivUp(m, g.gridM * subM), DivUp(n, g.gridN * subN);
    CountOf(threadsM, threadsN, g.gridM, g.gridN, g.expand);
    if isNMK { threadsM, threadsN := threadsN, threadsM; }
    threadsN := threadsN * g.expand;
    if isNMK {
      tileRows, tileCols := threadsN, threadsM;
    } else {
      tileRows, tileCols := threadsM, threadsN;
    }
    tileRows := tileRows * (if g.gridM > 1 then g.gridM else 1);
    tileCols := tileCols * (if g.gridN > 1 then g.gridN else 1);
    count := tileRows * tileCols;
  }

  lemma Threads(m: nat, grid: nat, sub: nat)
    requires grid > 0 && sub > 0 && m % sub == 0
    ensures grid * sub > 0 && DivUp(m, grid * sub) * grid == Launched(Hi(m, sub), grid)
  {
    assert m == Hi(m, sub) * sub;
    DivUpScales(Hi(m, sub), grid, sub);
  }

  function PanelCount(g: Grid, rows: nat, cols: nat): nat
    requires g.gridM > 0 && g.gridN > 0
  {
    Launched(rows, g.gridM) * Launched(cols, g.gridN) * g.expand
  }

  lemma DivUpScales(b: nat, grid: nat, sub: nat)
    requires grid > 0 && sub > 0
    ensures grid * sub > 0 && DivUp(b * sub, grid * sub) == DivUp(b, grid)
  {
    MulMonotone(sub, 1, grid);
    var q := DivUp(b, grid);
    var rest := b + grid - 1 - grid * q;
    assert 0 <= rest < grid by { assert b + grid - 1 == grid * ((b + grid - 1) / grid) + (b + grid - 1) % grid; }
    MulDistributes(sub, b, grid - 1 - grid * q);
    MulDistributes(sub, grid - 1, -(grid * q));
    MulAssociates(sub, grid, q);
    assert b * sub + grid * sub - 1 == (grid * sub) * q + (rest * sub + sub - 1);
    MulMonotone(sub, rest, grid - 1);
    MulMonotone(sub, 0, rest);
    DivUnique(b * sub + grid * sub - 1, grid * sub, q, rest * sub + sub - 1);
  }

  lemma CountOf(tm: nat, tn: nat, gm: nat, gn: nat, e: nat)
    ensures tm * gm * (tn * e * gn) == tm * gm * (tn * gn) * e
    ensures tm * e * gm * (tn * gn) == tm * gm * (tn * gn) * e
  {
    assert tn * e * gn == tn * gn * e by { MulAssociates(tn, e, gn); MulAssociates(tn, gn, e); }
    assert tm * e * gm == tm * gm * e by { MulAssociates(tm, e, gm); MulAssociates(tm, gm, e); }
    MulAssociates(tm * gm, tn * gn, e);
    MulAssociates(tm * gm, e, tn * gn);
  }

  // ------------------------------------------------------------------------------------------
  // What a whole scan counts

  /** Tiles launched along one side in all chunks from position `from`. */
  function LaunchedFrom(total: nat, batch: nat, grid: nat, from: nat): nat
    requires batch > 0 && grid > 0
    decreases if from < total then total - from else 0
  {
    if from >= total then 0
    else Launched(Min(batch, total - from), grid) + LaunchedFrom(total, batch, grid, from + batch)
  }

  predicate Aligned(total: nat, batch: nat, grid: nat)
    requires grid > 0
  {
    total <= batch || batch % grid == 0
  }

  lemma {:induction false} LaunchedFromBound(total: nat, batch: nat, grid: nat, from: nat)
    requires batch > 0 && grid > 0 && from <= total
    ensures LaunchedFrom(total, batch, grid, from) >= total - from
    ensures (total - from) % grid == 0 && Aligned(total - from, batch, grid) ==>
      LaunchedFrom(total, batch, grid, from) == total - from
    ensures from < total && !Aligned(total - from, batch, grid) ==>
      LaunchedFrom(total, batch, grid, from) > total - from
    decreases total - from
  {
    hide Launched;
    if from < total {
      LaunchedAtLeast(Min(batch, total - from), grid);
      if from + batch <= total {
        LaunchedFromBound(total, batch, grid, from + batch);
        if batch % grid == 0 && (total - from) % grid == 0 {
          Subtracts(total - from, batch, grid);
        }
      }
    }
  }

  lemma Subtracts(x: int, y: int, d: int)
    requires d > 0 && x % d == 0 && y % d == 0
    ensures (x - y) % d == 0
  {
    assert x == d * (x / d) && y == d * (y / d);
    MulDistributes(d, x / d, -(y / d));
    DivUnique(x - y, d, x / d - y / d, 0);
  }

  function ScanCount(g: Grid): nat
    requires g.Valid()
  {
    LaunchedFrom(g.rows, g.rowBatch, g.gridM, 0) * LaunchedFrom(g.cols, g.colBatch, g.gridN, 0) * g.expand
  }

  /** A scan without a hit counts at least every tile, and exactly every tile if and only if each side is
      one chunk or made of whole sub-grids, and no thread shares its work. */
  lemma CountIsExact(g: Grid)
    requires g.Valid()
    ensures ScanCount(g) >= g.rows * g.cols
    ensures ScanCount(g) == g.rows * g.cols <==>
              Aligned(g.rows, g.rowBatch, g.gridM) && Aligned(g.cols, g.colBatch, g.gridN) && g.expand == 1
  {
    LaunchedFromBound(g.rows, g.rowBatch, g.gridM, 0);
    LaunchedFromBound(g.cols, g.colBatch, g.gridN, 0);
    var (m, n) := (LaunchedFrom(g.rows, g.rowBatch, g.gridM, 0), LaunchedFrom(g.cols, g.colBatch, g.gridN, 0));
    ProductGrows(g.rows, m, g.cols, n);
    ProductGrows(g.rows * g.cols, m * n, 1, g.expand);
  }

  lemma ProductGrows(a: nat, a': nat, b: nat, b': nat)
    requires 0 < a <= a' && 0 < b <= b'
    ensures 0 < a * b <= a' * b'
    ensures a * b == a' * b' <==> a == a' && b == b'
  {
    MulDistributes(b, a, a' - a);
    MulDistributes(a', b, b' - b);
    MulMonotone(b, 0, a' - a);
    MulMonotone(a', 0, b' - b);
    MulMonotone(a, 1, b);
    if a' > a { MulMonotone(b, 1, a' - a); }
    if b' > b { MulMonotone(a', 1, b' - b); }
  }

  // ------------------------------------------------------------------------------------------
  // The panels, one after the other

  /** Some panel of the grid has the property: a hit, say. */
  ghost predicate SomePanelHits(g: Grid, hit: Panel -> bool)
    requires g.Valid()
  {
    exists ri: nat, ci: nat :: ri < g.PanelRows() && ci < g.PanelCols() && hit(PanelAt(g, ri, ci))
  }

  /** Positions step through the chunks, and stop after the last. */
  lemma NextChunk(total: nat, batch: nat, k: nat)
    requires batch > 0 && total > 0
    ensures k * batch < total <==> k < DivUp(total, batch)
    ensures k * batch + batch == (k + 1) * batch
  {
    DivUpBounds(total, batch);
    if k < DivUp(total, batch) {
      MulMonotone(batch, k, DivUp(total, batch) - 1);
    } else {
      MulMonotone(batch, DivUp(total, batch), k);
    }
  }

  function RowCount(g: Grid, rpi0: nat): nat
    requires g.Valid() && rpi0 < g.rows
  {
    Launched(Min(g.rowBatch, g.rows - rpi0), g.gridM) * LaunchedFrom(g.cols, g.colBatch, g.gridN, 0) * g.expand
  }

  function ColsFrom(g: Grid, rowBatch: nat, from: nat): nat
    requires g.Valid()
  {
    Launched(rowBatch, g.gridM) * LaunchedFrom(g.cols, g.colBatch, g.gridN, from) * g.expand
  }

  lemma ColsFollow(g: Grid, rowBatch: nat, from: nat)
    requires g.Valid() && from < g.cols
    ensures ColsFrom(g, rowBatch, from)
            == PanelCount(g, rowBatch, Min(g.colBatch, g.cols - from)) + ColsFrom(g, rowBatch, from + g.colBatch)
  {
    hide Launched;
    AddsUp(Launched(rowBatch, g.gridM), Launched(Min(g.colBatch, g.cols - from), g.gridN),
           LaunchedFrom(g.cols, g.colBatch, g.gridN, from + g.colBatch), g.expand);
  }

  lemma ColsEnd(g: Grid, rpi0: nat)
    requires g.Valid() && rpi0 < g.rows
    ensures ColsFrom(g, Min(g.rowBatch, g.rows - rpi0), 0) == RowCount(g, rpi0)
    ensures forall rowBatch: nat, from: nat :: from >= g.cols ==> ColsFrom(g, rowBatch, from) == 0
  {
  }

  lemma AddsUp(side: nat, head: nat, tail: nat, e: nat)
    ensures side * head * e + side * tail * e == side * (head + tail) * e
    ensures head * side * e + tail * side * e == (head + tail) * side * e
  {
    MulDistributes(side, head, tail);
    MulDistributes(e, side * head, side * tail);
    MulDistributes(e, head * side, tail * side);
  }

  function RowsFrom(g: Grid, from: nat): nat
    requires g.Valid()
  {
    LaunchedFrom(g.rows, g.rowBatch, g.gridM, from) * LaunchedFrom(g.cols, g.colBatch, g.gridN, 0) * g.expand
  }

  lemma RowsFollow(g: Grid, from: nat)
    requires g.Valid() && from < g.rows
    ensures RowsFrom(g, from) == RowCount(g, from) + RowsFrom(g, from + g.rowBatch)
  {
    hide Launched;
    AddsUp(LaunchedFrom(g.cols, g.colBatch, g.gridN, 0), Launched(Min(g.rowBatch, g.rows - from), g.gridM),
           LaunchedFrom(g.rows, g.rowBatch, g.gridM, from + g.rowBatch), g.expand);
  }

  lemma RowsEnd(g: Grid)
    requires g.Valid()
    ensures RowsFrom(g, 0) == ScanCount(g) && forall from: nat :: from >= g.rows ==> RowsFrom(g, from) == 0
  {
  }
}
