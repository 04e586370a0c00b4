/** The synchronous scan: one panel after the other, until a hit, a cancellation or a failing panel. */
module SyncScan {
  import opened MixedRadix
  import opened ScanPipeline
  import opened TileGrid
  import opened PanelScan

  /** The tiles of the first `k` panels, as they are counted. */
  function CountTo(g: Grid, k: nat): nat
    requires g.Valid() && k <= PanelTotal(g)
  {
    Sum(Counts(g)[..k])
  }

  lemma CountNext(g: Grid, k: nat)
    requires g.Valid() && k < PanelTotal(g)
    ensures CountTo(g, k + 1) == CountTo(g, k) + PanelCount(g, PanelNo(g, k).rows, PanelNo(g, k).cols)
  {
    assert Counts(g)[..k + 1][..k] == Counts(g)[..k];
  }

  lemma CountWhole(g: Grid)
    requires g.Valid()
    ensures CountTo(g, PanelTotal(g)) == ScanCount(g) && CountTo(g, 0) == 0
  {
    SomePanels(g);
    PanelsCount(g);
    assert Counts(g)[..PanelTotal(g)] == Counts(g);
  }

  ghost predicate NoHitUpTo(g: Grid, hit: Panel -> bool, k: nat)
    requires g.Valid()
  {
    forall j: nat :: j < k && j < PanelTotal(g) ==> !hit(PanelNo(g, j))
  }

  /** Panel number `k` is the first with a hit. */
  ghost predicate FirstHit(g: Grid, hit: Panel -> bool, k: nat)
    requires g.Valid()
  {
    k < PanelTotal(g) && hit(PanelNo(g, k)) && NoHitUpTo(g, hit, k)
  }

  /** What a success says: the count of all panels up to the first with a hit, or of all. */
  ghost predicate Reported(g: Grid, hit: Panel -> bool, found: bool, tiles: nat)
    requires g.Valid()
  {
    && (found <==> exists k: nat :: FirstHit(g, hit, k))
    && (forall k: nat :: FirstHit(g, hit, k) ==> tiles == CountTo(g, k + 1))
    && (!found ==> tiles == ScanCount(g) == g.rows * g.cols)
  }

  /** What cuts a scan short. */
  ghost predicate Interrupted(g: Grid, cancelled: (nat, nat) -> bool, fails: Panel -> bool)
    requires g.Valid()
  {
    (exists r: nat, c: nat :: cancelled(r, c)) || SomePanelHits(g, fails)
  }

  /** One row of panels. */
  method ScanPanelRow(g: Grid, hit: Panel -> bool, cancelled: (nat, nat) -> bool, fails: Panel -> bool, rpi0: nat,
                      scanned: nat, ghost ri: nat)
    returns (stopped: bool, found: bool, tiles: nat, ghost k: nat)
    requires g.Valid() && ri < g.PanelRows() && rpi0 == ri * g.rowBatch && rpi0 < g.rows
    requires Join(ri, 0, g.PanelCols()) <= PanelTotal(g) && scanned == CountTo(g, Join(ri, 0, g.PanelCols()))
    requires NoHitUpTo(g, hit, Join(ri, 0, g.PanelCols()))
    ensures stopped ==> !found && Interrupted(g, cancelled, fails)
    ensures found ==> k < PanelTotal(g) && FirstHit(g, hit, k) && tiles == CountTo(g, k + 1)
    ensures !stopped && !found ==> k == Join(ri + 1, 0, g.PanelCols()) <= PanelTotal(g)
    ensures !stopped && !found ==> NoHitUpTo(g, hit, k) && tiles == CountTo(g, k)
  {
    ChunkPositive(g.rows, g.rowBatch, ri);
    hide Launched, PanelCount, CountTo, PanelNo, Counts, Join, PanelTotal, NoHitUpTo;
    var rowBatch := if rpi0 + g.rowBatch > g.rows then g.rows - rpi0 else g.rowBatch;
    var cpi0 := 0;
    ghost var ci := 0;
    stopped, found, tiles := false, false, scanned;
    k := Join(ri, 0, g.PanelCols());
    while cpi0 < g.cols && !found
      invariant cpi0 == ci * g.colBatch && ci <= g.PanelCols() && k <= PanelTotal(g)
      invariant found ==> FirstHit(g, hit, k) && tiles == CountTo(g, k + 1)
      invariant !found ==> k == Join(ri, ci, g.PanelCols()) && NoHitUpTo(g, hit, k) && tiles == CountTo(g, k)
      decreases if found then 0 else 1, g.cols - cpi0
    {
      if cancelled(rpi0, cpi0) { return true, false, 0, k; }
      NextChunk(g.cols, g.colBatch, ci);
      var colBatch := if cpi0 + g.colBatch > g.cols then g.cols - cpi0 else g.colBatch;
      var panel := Panel(rpi0, cpi0, rowBatch, colBatch);
      assert panel == PanelAt(g, ri, ci);
      if fails(panel) { return true, false, 0, k; }
      NumberOf(g, ri, ci);
      CountNext(g, k);
      tiles := tiles + PanelCount(g, rowBatch, colBatch);
      if hit(panel) {
        found := true;
      } else {
        NoHitNext(g, hit, k);
        JoinStep(ri, ci, g.PanelCols());
        k := k + 1;
      }
      cpi0, ci := cpi0 + g.colBatch, ci + 1;
    }
    NextChunk(g.cols, g.colBatch, ci);
    JoinNext(ri, g.PanelCols());
  }

  lemma NoHitNext(g: Grid, hit: Panel -> bool, k: nat)
    requires g.Valid() && NoHitUpTo(g, hit, k) && k < PanelTotal(g) && !hit(PanelNo(g, k))
    ensures NoHitUpTo(g, hit, k + 1)
  {
  }

  /** The scan, with the count it reports: nothing when it is cut short, all panels up to the first hit when there
      is one. It succeeds without a hit only when it has launched every tile exactly once, so it refuses every
      grid whose batches are not made of whole sub-grids. */
  method ScanForShare(g: Grid, hit: Panel -> bool, cancelled: (nat, nat) -> bool, fails: Panel -> bool)
    returns (ok: bool, found: bool, tiles: nat)
    requires g.Valid()
    ensures ok ==> Reported(g, hit, found, tiles)
    ensures !ok ==> (tiles == 0 && Interrupted(g, cancelled, fails)) || tiles == ScanCount(g) != g.rows * g.cols
  {
    CountWhole(g);
    hide Launched, ScanCount, CountTo, Counts, Join, FirstHit, NoHitUpTo, SomePanelHits, Reported, PanelTotal;
    NoHitAtFirst(g, hit);
    var rpi0 := 0;
    ghost var ri: nat, k: nat := 0, 0;
    found, tiles := false, 0;
    JoinZero(g.PanelCols());
    while rpi0 < g.rows && !found
      invariant rpi0 == ri * g.rowBatch && ri <= g.PanelRows() && k <= PanelTotal(g)
      invariant found ==> k < PanelTotal(g) && FirstHit(g, hit, k) && tiles == CountTo(g, k + 1)
      invariant !found ==> k == Join(ri, 0, g.PanelCols()) && NoHitUpTo(g, hit, k) && tiles == CountTo(g, k)
      decreases if found then 0 else 1, g.rows - rpi0
    {
      if cancelled(rpi0, 0) { return false, false, 0; }
      NextChunk(g.rows, g.rowBatch, ri);
      var stopped, hitHere, counted;
      stopped, hitHere, counted, k := ScanPanelRow(g, hit, cancelled, fails, rpi0, tiles, ri);
      if stopped { return false, false, 0; }
      found, tiles := hitHere, counted;
      rpi0, ri := rpi0 + g.rowBatch, ri + 1;
    }
    NextChunk(g.rows, g.rowBatch, ri);
    ok := found || tiles == g.rows * g.cols;
    if found {
      ReportsHit(g, hit, k);
    } else {
      RowsDone(g);
      if ok { ReportsNone(g, hit); }
    }
  }

  lemma ReportsHit(g: Grid, hit: Panel -> bool, k: nat)
    requires g.Valid() && FirstHit(g, hit, k)
    ensures Reported(g, hit, true, CountTo(g, k + 1))
  {
    hide CountTo, ScanCount;
    OneFirstHit(g, hit, k);
  }

  lemma ReportsNone(g: Grid, hit: Panel -> bool)
    requires g.Valid() && NoHitUpTo(g, hit, PanelTotal(g)) && ScanCount(g) == g.rows * g.cols
    ensures Reported(g, hit, false, ScanCount(g))
  {
    hide CountTo, ScanCount;
    NoFirstHit(g, hit);
  }

  lemma NoHitAtFirst(g: Grid, hit: Panel -> bool)
    requires g.Valid()
    ensures NoHitUpTo(g, hit, 0)
  {
  }

  lemma JoinZero(n: nat)
    ensures Join(0, 0, n) == 0
  {
  }

  lemma RowsDone(g: Grid)
    requires g.Valid()
    ensures Join(g.PanelRows(), 0, g.PanelCols()) == PanelTotal(g)
  {
  }

  lemma OneFirstHit(g: Grid, hit: Panel -> bool, k: nat)
    requires g.Valid() && FirstHit(g, hit, k)
    ensures forall j: nat :: FirstHit(g, hit, j) ==> j == k
  {
  }

  lemma NoFirstHit(g: Grid, hit: Panel -> bool)
    requires g.Valid() && NoHitUpTo(g, hit, PanelTotal(g))
    ensures forall j: nat :: !FirstHit(g, hit, j)
  {
  }

  /** A first hit is the first panel, in the order of the scan, of all those with a hit; so there is one exactly if
      some panel has a hit. */
  lemma {:induction false} SomeFirstHit(g: Grid, hit: Panel -> bool)
    requires g.Valid()
    ensures SomePanelHits(g, hit) <==> exists k: nat :: FirstHit(g, hit, k)
  {
    if k: nat :| FirstHit(g, hit, k) {
      SplitJoin(k, g.PanelRows(), g.PanelCols());
    }
    if SomePanelHits(g, hit) {
      var ri: nat, ci: nat :| ri < g.PanelRows() && ci < g.PanelCols() && hit(PanelAt(g, ri, ci));
      NumberOf(g, ri, ci);
      var k := Earliest(g, hit, Join(ri, ci, g.PanelCols()));
    }
  }

  lemma {:induction false} Earliest(g: Grid, hit: Panel -> bool, n: nat) returns (k: nat)
    requires g.Valid() && n < PanelTotal(g) && hit(PanelNo(g, n))
    ensures FirstHit(g, hit, k)
  {
    hide PanelNo;
    k := 0;
    while !hit(PanelNo(g, k))
      invariant k <= n && NoHitUpTo(g, hit, k)
      decreases n - k
    {
      k := k + 1;
    }
  }
}
