/**
 Two ways to the same tile hashes: the naive triple loop over the plain matrices, and the blocked
 loop over the packed operands. Both are proved to leave HashXor in every slot.
 */
module MacroXor {
  import opened Arith
  import opened Bits
  import opened MixedRadix
  import opened Config
  import opened Layout
  import opened Prepack
  import opened TileHash

  /** The sizes of one scan: the tile shape, the number of depth panels and the macro grid. */
  datatype Scan = Scan(shape: Shape, blocksK: nat, macroRows: nat, macroCols: nat)
  {
    predicate Valid() {
      && shape.Fits() && IsSupportedTile(shape.mr, shape.nr) && blocksK > 0
    }

    function Depth(): nat { blocksK * shape.kr }
    function Rows(): nat { macroRows * shape.macroM }
    function Cols(): nat { macroCols * shape.macroN }

    function A(): Blocks requires Valid() {
      Blocks(shape.mr, shape.MicroPerMacroM(), shape.KGroups(), blocksK, macroRows)
    }
    function B(): Blocks requires Valid() {
      Blocks(shape.nr, shape.MicroPerMacroN(), shape.KGroups(), blocksK, macroCols)
    }

    function TileRows(): nat requires Valid() { macroRows * shape.MicroPerMacroM() }
    function TileCols(): nat requires Valid() { macroCols * (shape.macroN / shape.HashNr()) }
    function TileCount(): nat requires Valid() { TileRows() * TileCols() }
  }

  /** Every layout that can be selected, at every depth and macro grid, is one this model covers. */
  lemma SelectableLayoutsScan(l: Layout, blocksK: nat, macroRows: nat, macroCols: nat)
    requires l.Valid() && blocksK > 0
    ensures Scan(l.Current(), blocksK, macroRows, macroCols).Valid()
    ensures Scan(l.Current(), K_DIM / R_RANK, macroRows, macroCols).Depth() == K_DIM
  {
    l.BlocksFill();
  }

  /** The value of hash tile (`tr`, `tc`) at milestone `ms`. */
  function HashXor(g: Scan, a: seq<int8>, b: seq<int8>, ms: nat, tr: nat, tc: nat): uint32
    requires g.Valid()
  {
    CellsXor(a, b, g.Depth(), tr * g.shape.mr, tc * g.shape.HashNr(), g.shape.mr, (ms + 1) * g.shape.kr,
             g.shape.mr * g.shape.HashNr())
  }

  /** Its slot in the output. */
  function Slot(g: Scan, ms: nat, tr: nat, tc: nat): nat
    requires g.Valid()
  {
    Join(ms, Join(tr, tc, g.TileCols()), g.TileCount())
  }

  predicate InGrid(g: Scan, ms: nat, tr: nat, tc: nat)
    requires g.Valid()
  {
    ms < g.blocksK && tr < g.TileRows() && tc < g.TileCols()
  }

  predicate SlotHolds(g: Scan, a: seq<int8>, b: seq<int8>, out: seq<uint32>, ms: nat, tr: nat, tc: nat)
    requires g.Valid()
  {
    Slot(g, ms, tr, tc) < |out| && out[Slot(g, ms, tr, tc)] == HashXor(g, a, b, ms, tr, tc)
  }

  ghost predicate AllHashed(g: Scan, a: seq<int8>, b: seq<int8>, out: seq<uint32>)
    requires g.Valid()
  {
    && |out| == g.blocksK * g.TileCount()
    && forall ms: nat, tr: nat, tc: nat :: InGrid(g, ms, tr, tc) ==> SlotHolds(g, a, b, out, ms, tr, tc)
  }

  lemma SlotBound(g: Scan, ms: nat, tr: nat, tc: nat)
    requires g.Valid() && InGrid(g, ms, tr, tc)
    ensures Join(tr, tc, g.TileCols()) < g.TileCount()
    ensures Slot(g, ms, tr, tc) < g.blocksK * g.TileCount()
  {
    JoinBound(tr, tc, g.TileRows(), g.TileCols());
    JoinBound(ms, Join(tr, tc, g.TileCols()), g.blocksK, g.TileCount());
  }

  lemma SlotInjective(g: Scan, ms: nat, tr: nat, tc: nat, ms': nat, tr': nat, tc': nat)
    requires g.Valid() && InGrid(g, ms, tr, tc) && InGrid(g, ms', tr', tc')
    requires Slot(g, ms, tr, tc) == Slot(g, ms', tr', tc')
    ensures ms == ms' && tr == tr' && tc == tc'
  {
    SlotBound(g, ms, tr, tc);
    SlotBound(g, ms', tr', tc');
    JoinInjective(ms, Join(tr, tc, g.TileCols()), ms', Join(tr', tc', g.TileCols()), g.TileCount());
    JoinInjective(tr, tc, tr', tc', g.TileCols());
  }

  /** Two outputs that both hold every hash are equal: the grid covers every slot. */
  lemma HashesDetermineOutput(g: Scan, a: seq<int8>, b: seq<int8>, x: seq<uint32>, y: seq<uint32>)
    requires g.Valid() && AllHashed(g, a, b, x) && AllHashed(g, a, b, y)
    ensures x == y
  {
    hide HashXor, Join, Hi, Lo;
    forall s: nat | s < |x|
      ensures x[s] == y[s]
    {
      SplitJoin(s, g.blocksK, g.TileCount());
      var (ms, id) := (Hi(s, g.TileCount()), Lo(s, g.TileCount()));
      SplitJoin(id, g.TileRows(), g.TileCols());
      var (tr, tc) := (Hi(id, g.TileCols()), Lo(id, g.TileCols()));
      assert SlotHolds(g, a, b, x, ms, tr, tc) && SlotHolds(g, a, b, y, ms, tr, tc);
    }
  }

  // ------------------------------------------------------------------------------------------
  // The naive loop

  /** Every entry of C holds its dot product up to `depth`, row-major. */
  ghost predicate Accumulated(a: seq<int8>, b: seq<int8>, k: nat, n: nat, m: nat, c: seq<int>, depth: nat) {
    forall i: nat :: i < m ==> RowIs(a, b, k, n, c, i, 0, n, depth)
  }

  predicate EntryIs(a: seq<int8>, b: seq<int8>, k: nat, n: nat, c: seq<int>, i: nat, j: nat, depth: nat) {
    Join(i, j, n) < |c| && c[Join(i, j, n)] == Dot(a, b, k, i, j, depth)
  }

  method ExtendDot(a: seq<int8>, b: seq<int8>, k: nat, i: nat, j: nat, start: int, k0: nat, k1: nat) returns (acc: int)
    requires start == Dot(a, b, k, i, j, k0) && k0 <= k1 <= k
    requires (i + 1) * k <= |a| && (j + 1) * k <= |b|
    ensures acc == Dot(a, b, k, i, j, k1)
  {
    acc := start;
    for d := k0 to k1
      invariant acc == Dot(a, b, k, i, j, d)
    {
      var x: int := a[i * k + d];
      var y: int := b[d + j * k];
      assert x == Entry(a, k, i, d) && y == Entry(b, k, j, d);
      acc := acc + x * y;
    }
  }

  ghost predicate RowIs(a: seq<int8>, b: seq<int8>, k: nat, n: nat, c: seq<int>, i: nat, from: nat, to: nat,
                        depth: nat) {
    forall j: nat :: from <= j < to ==> EntryIs(a, b, k, n, c, i, j, depth)
  }

  method AdvanceRow(a: seq<int8>, b: seq<int8>, k: nat, n: nat, m: nat, i: nat, partial: array<int>, k0: nat, k1: nat)
    requires |a| == m * k && |b| == n * k && partial.Length == m * n && i < m && k0 <= k1 <= k
    requires RowIs(a, b, k, n, partial[..], i, 0, n, k0)
    modifies partial
    ensures RowIs(a, b, k, n, partial[..], i, 0, n, k1)
    ensures forall e :: 0 <= e < i * n || i * n + n <= e < partial.Length ==> partial[e] == old(partial[e])
  {
    hide Dot;
    MulMonotone(n, i + 1, m);
    MulMonotone(k, i + 1, m);
    for j := 0 to n
      invariant RowIs(a, b, k, n, partial[..], i, 0, j, k1)
      invariant RowIs(a, b, k, n, partial[..], i, j, n, k0)
      invariant forall e :: 0 <= e < i * n || i * n + n <= e < partial.Length ==> partial[e] == old(partial[e])
    {
      MulMonotone(k, j + 1, n);
      ghost var before := partial[..];
      assert EntryIs(a, b, k, n, before, i, j, k0);
      var acc := ExtendDot(a, b, k, i, j, partial[i * n + j], k0, k1);
      partial[i * n + j] := acc;
      EntryAdvanced(a, b, k, n, i, j, before, partial[..], k0, k1);
    }
  }

  lemma EntryAdvanced(a: seq<int8>, b: seq<int8>, k: nat, n: nat, i: nat, j: nat, was: seq<int>, now: seq<int>,
                      k0: nat, k1: nat)
    requires j < n && Join(i, j, n) < |was| && now == was[Join(i, j, n) := Dot(a, b, k, i, j, k1)]
    requires RowIs(a, b, k, n, was, i, 0, j, k1) && RowIs(a, b, k, n, was, i, j, n, k0)
    ensures RowIs(a, b, k, n, now, i, 0, j + 1, k1) && RowIs(a, b, k, n, now, i, j + 1, n, k0)
  {
    hide Dot;
    assert forall q: nat :: q < n ==>
             (EntryIs(a, b, k, n, was, i, q, k0) && q != j ==> EntryIs(a, b, k, n, now, i, q, k0));
    assert forall q: nat :: q < n ==>
             (EntryIs(a, b, k, n, was, i, q, k1) && q != j ==> EntryIs(a, b, k, n, now, i, q, k1));
  }

  method AdvanceMilestone(a: seq<int8>, b: seq<int8>, k: nat, n: nat, m: nat, partial: array<int>, k0: nat, k1: nat)
    requires |a| == m * k && |b| == n * k && partial.Length == m * n && k0 <= k1 <= k
    requires Accumulated(a, b, k, n, m, partial[..], k0)
    modifies partial
    ensures Accumulated(a, b, k, n, m, partial[..], k1)
  {
    hide Dot, EntryIs;
    for i := 0 to m
      invariant forall r: nat :: r < i ==> RowIs(a, b, k, n, partial[..], r, 0, n, k1)
      invariant forall r: nat :: i <= r < m ==> RowIs(a, b, k, n, partial[..], r, 0, n, k0)
    {
      ghost var before := partial[..];
      AdvanceRow(a, b, k, n, m, i, partial, k0, k1);
      OtherRowsKept(a, b, k, n, m, i, before, partial[..], k0);
      OtherRowsKept(a, b, k, n, m, i, before, partial[..], k1);
    }
  }

  lemma OtherRowsKept(a: seq<int8>, b: seq<int8>, k: nat, n: nat, m: nat, i: nat, was: seq<int>, now: seq<int>,
                      depth: nat)
    requires |was| == |now| == m * n && i < m
    requires forall e :: 0 <= e < i * n || i * n + n <= e < |now| ==> now[e] == was[e]
    ensures forall r: nat :: r < m && r != i && RowIs(a, b, k, n, was, r, 0, n, depth) ==>
      RowIs(a, b, k, n, now, r, 0, n, depth)
  {
    hide Dot;
    forall r: nat, j: nat | r < m && r != i && j < n && EntryIs(a, b, k, n, was, r, j, depth)
      ensures EntryIs(a, b, k, n, now, r, j, depth)
    {
      if r < i {
        JoinOrder(r, j, i, 0, n);
      } else {
        MulMonotone(n, i + 1, r);
      }
    }
  }

  method TileCells(g: Scan, a: seq<int8>, b: seq<int8>, partial: seq<int>, tr: nat, tc: nat, ghost depth: nat)
    returns (cells: array<int>)
    requires g.Valid() && tr < g.TileRows() && tc < g.TileCols() && |partial| == g.Rows() * g.Cols()
    requires Accumulated(a, b, g.Depth(), g.Cols(), g.Rows(), partial, depth)
    ensures fresh(cells) && cells.Length == g.shape.mr * g.shape.HashNr()
    ensures HoldsDots(cells[..], a, b, g.Depth(), tr * g.shape.mr, tc * g.shape.HashNr(), g.shape.mr, depth)
  {
    hide Dot, Accumulated, Hi, Lo, FirstDots;
    var (mr, nr) := (g.shape.mr, g.shape.HashNr());
    var (row0, col0) := (tr * mr, tc * nr);
    TileInside(g, tr, tc);
    cells := new int[mr * nr](_ => 0);
    NoDots(cells[..], a, b, g.Depth(), row0, col0, mr, depth);
    for j := 0 to nr
      invariant FirstDots(cells[..], a, b, g.Depth(), row0, col0, mr, depth, Join(j, 0, mr))
    {
      for i := 0 to mr
        invariant FirstDots(cells[..], a, b, g.Depth(), row0, col0, mr, depth, Join(j, i, mr))
      {
        JoinBound(j, i, nr, mr);
        JoinSplit(j, i, mr);
        EntryAt(a, b, g.Depth(), g.Cols(), g.Rows(), partial, row0 + i, col0 + j, depth);
        ghost var before := cells[..];
        cells[j * mr + i] := partial[(row0 + i) * g.Cols() + (col0 + j)];
        OneMoreDot(before, cells[..], a, b, g.Depth(), row0, col0, mr, depth, j, i);
      }
      JoinNext(j, mr);
    }
    AllDots(cells[..], a, b, g.Depth(), row0, col0, mr, depth);
  }

  lemma NoDots(cells: seq<int>, a: seq<int8>, b: seq<int8>, k: nat, row0: nat, col0: nat, mr: nat, depth: nat)
    requires mr > 0
    ensures FirstDots(cells, a, b, k, row0, col0, mr, depth, Join(0, 0, mr))
  {
  }

  lemma AllDots(cells: seq<int>, a: seq<int8>, b: seq<int8>, k: nat, row0: nat, col0: nat, mr: nat, depth: nat)
    requires mr > 0 && FirstDots(cells, a, b, k, row0, col0, mr, depth, |cells|)
    ensures HoldsDots(cells, a, b, k, row0, col0, mr, depth)
  {
  }

  lemma OneMoreDot(was: seq<int>, now: seq<int>, a: seq<int8>, b: seq<int8>, k: nat, row0: nat, col0: nat, mr: nat,
                   depth: nat, j: nat, i: nat)
    requires i < mr && Join(j, i, mr) < |was| && FirstDots(was, a, b, k, row0, col0, mr, depth, Join(j, i, mr))
    requires now == was[Join(j, i, mr) := Dot(a, b, k, row0 + i, col0 + j, depth)]
    ensures FirstDots(now, a, b, k, row0, col0, mr, depth, Join(j, i + 1, mr))
  {
    hide Dot, Hi, Lo;
    JoinSplit(j, i, mr);
    JoinStep(j, i, mr);
  }

  ghost predicate FirstDots(cells: seq<int>, a: seq<int8>, b: seq<int8>, k: nat, row0: nat, col0: nat, mr: nat,
                            depth: nat, n: nat)
    requires mr > 0
  {
    n <= |cells| && forall e: nat :: e < n ==> cells[e] == Dot(a, b, k, row0 + Lo(e, mr), col0 + Hi(e, mr), depth)
  }

  lemma EntryAt(a: seq<int8>, b: seq<int8>, k: nat, n: nat, m: nat, c: seq<int>, i: nat, j: nat, depth: nat)
    requires Accumulated(a, b, k, n, m, c, depth) && i < m && j < n
    ensures i * n + j < |c| && c[i * n + j] == Dot(a, b, k, i, j, depth)
  {
    hide Dot;
    assert RowIs(a, b, k, n, c, i, 0, n, depth);
    assert EntryIs(a, b, k, n, c, i, j, depth);
  }

  lemma GridSizes(g: Scan)
    requires g.Valid()
    ensures g.TileRows() * g.shape.mr == g.Rows() && g.TileCols() * g.shape.HashNr() == g.Cols()
    ensures g.A().Lines() == g.Rows() && g.B().Lines() == g.Cols()
    ensures g.A().K() == g.B().K() == g.Depth()
  {
    var s := g.shape;
    assert s.MicroPerMacroM() * s.mr == s.macroM;
    assert s.MicroPerMacroN() * s.nr == s.macroN;
    assert s.macroN / s.HashNr() * s.HashNr() == s.macroN;
    assert s.KGroups() * RANK == s.kr;
    MulAssociates(g.macroRows, s.MicroPerMacroM(), s.mr);
    MulAssociates(g.macroCols, s.MicroPerMacroN(), s.nr);
    MulAssociates(g.macroCols, s.macroN / s.HashNr(), s.HashNr());
    MulAssociates(g.blocksK, s.KGroups(), RANK);
  }

  lemma TileInside(g: Scan, tr: nat, tc: nat)
    requires g.Valid() && tr < g.TileRows() && tc < g.TileCols()
    ensures tr * g.shape.mr + g.shape.mr <= g.Rows()
    ensures tc * g.shape.HashNr() + g.shape.HashNr() <= g.Cols()
  {
    GridSizes(g);
    MulMonotone(g.shape.mr, tr + 1, g.TileRows());
    MulMonotone(g.shape.HashNr(), tc + 1, g.TileCols());
  }

  /** Slots of milestone `ms`, the first `tiles` of them in scan order. */
  ghost predicate TilesHashed(g: Scan, a: seq<int8>, b: seq<int8>, out: seq<uint32>, ms: nat, tiles: nat)
    requires g.Valid()
  {
    forall tr: nat, tc: nat :: InGrid(g, ms, tr, tc) && Join(tr, tc, g.TileCols()) < tiles ==>
      SlotHolds(g, a, b, out, ms, tr, tc)
  }

  /** All slots of the first `ms` milestones. */
  ghost predicate Earlier(g: Scan, a: seq<int8>, b: seq<int8>, out: seq<uint32>, ms: nat)
    requires g.Valid()
  {
    forall m: nat :: m < ms ==> TilesHashed(g, a, b, out, m, g.TileCount())
  }

  method HashTile(g: Scan, a: seq<int8>, b: seq<int8>, partial: seq<int>, out: array<uint32>, ms: nat, tr: nat, tc: nat)
    requires g.Valid() && InGrid(g, ms, tr, tc) && |partial| == g.Rows() * g.Cols()
    requires Accumulated(a, b, g.Depth(), g.Cols(), g.Rows(), partial, (ms + 1) * g.shape.kr)
    requires out.Length == g.blocksK * g.TileCount() && Slot(g, ms, tr, tc) < out.Length
    modifies out
    ensures out[..] == old(out[..])[Slot(g, ms, tr, tc) := HashXor(g, a, b, ms, tr, tc)]
  {
    hide Accumulated, HoldsDots;
    var depth := (ms + 1) * g.shape.kr;
    var cells := TileCells(g, a, b, partial, tr, tc, depth);
    var x := XorTileHost(cells);
    XorOfDots(cells[..], a, b, g.Depth(), tr * g.shape.mr, tc * g.shape.HashNr(), g.shape.mr, depth, cells.Length);
    SlotBound(g, ms, tr, tc);
    out[ms * g.TileCount() + (tr * g.TileCols() + tc)] := x;
  }

  lemma TileAdded(g: Scan, a: seq<int8>, b: seq<int8>, was: seq<uint32>, now: seq<uint32>, ms: nat, tr: nat, tc: nat)
    requires g.Valid() && InGrid(g, ms, tr, tc) && |was| == g.blocksK * g.TileCount()
    requires Slot(g, ms, tr, tc) < |was|
    requires now == was[Slot(g, ms, tr, tc) := HashXor(g, a, b, ms, tr, tc)]
    ensures TilesHashed(g, a, b, was, ms, Join(tr, tc, g.TileCols())) ==>
              TilesHashed(g, a, b, now, ms, Join(tr, tc, g.TileCols()) + 1)
    ensures Earlier(g, a, b, was, ms) ==> Earlier(g, a, b, now, ms)
  {
    hide HashXor, Slot;
    forall m: nat, r: nat, c: nat | InGrid(g, m, r, c) && SlotHolds(g, a, b, was, m, r, c)
      ensures SlotHolds(g, a, b, now, m, r, c)
    {
      if Slot(g, m, r, c) == Slot(g, ms, tr, tc) {
        SlotInjective(g, m, r, c, ms, tr, tc);
      }
    }
    forall m: nat | m < ms && TilesHashed(g, a, b, was, m, g.TileCount())
      ensures TilesHashed(g, a, b, now, m, g.TileCount())
    {
      forall r: nat, c: nat | InGrid(g, m, r, c) && Join(r, c, g.TileCols()) < g.TileCount()
        ensures SlotHolds(g, a, b, now, m, r, c)
      {
        assert SlotHolds(g, a, b, was, m, r, c);
      }
    }
    if TilesHashed(g, a, b, was, ms, Join(tr, tc, g.TileCols())) {
      forall r: nat, c: nat | InGrid(g, ms, r, c) && Join(r, c, g.TileCols()) < Join(tr, tc, g.TileCols()) + 1
        ensures SlotHolds(g, a, b, now, ms, r, c)
      {
        if Join(r, c, g.TileCols()) == Join(tr, tc, g.TileCols()) {
          JoinInjective(r, c, tr, tc, g.TileCols());
        }
      }
    }
  }

  method HashMilestone(g: Scan, a: seq<int8>, b: seq<int8>, partial: seq<int>, out: array<uint32>, ms: nat)
    requires g.Valid() && ms < g.blocksK && |partial| == g.Rows() * g.Cols()
    requires Accumulated(a, b, g.Depth(), g.Cols(), g.Rows(), partial, (ms + 1) * g.shape.kr)
    requires out.Length == g.blocksK * g.TileCount()
    requires Earlier(g, a, b, out[..], ms)
    modifies out
    ensures Earlier(g, a, b, out[..], ms + 1)
  {
    hide Accumulated, TilesHashed, HashXor, Slot, Earlier, InGrid, Join;
    NoTiles(g, a, b, out[..], ms);
    for tr := 0 to g.TileRows()
      invariant Earlier(g, a, b, out[..], ms)
      invariant TilesHashed(g, a, b, out[..], ms, Join(tr, 0, g.TileCols()))
    {
      for tc := 0 to g.TileCols()
        invariant Earlier(g, a, b, out[..], ms)
        invariant TilesHashed(g, a, b, out[..], ms, Join(tr, tc, g.TileCols()))
      {
        ghost var before := out[..];
        InGridAt(g, ms, tr, tc);
        HashTile(g, a, b, partial, out, ms, tr, tc);
        TileAdded(g, a, b, before, out[..], ms, tr, tc);
        JoinStep(tr, tc, g.TileCols());
      }
      JoinNext(tr, g.TileCols());
    }
    MilestoneDone(g, a, b, out[..], ms);
  }

  lemma InGridAt(g: Scan, ms: nat, tr: nat, tc: nat)
    requires g.Valid() && ms < g.blocksK && tr < g.TileRows() && tc < g.TileCols()
    ensures InGrid(g, ms, tr, tc) && Slot(g, ms, tr, tc) < g.blocksK * g.TileCount()
  {
    SlotBound(g, ms, tr, tc);
  }

  lemma MilestoneDone(g: Scan, a: seq<int8>, b: seq<int8>, out: seq<uint32>, ms: nat)
    requires g.Valid() && Earlier(g, a, b, out, ms)
    requires TilesHashed(g, a, b, out, ms, Join(g.TileRows(), 0, g.TileCols()))
    ensures Earlier(g, a, b, out, ms + 1)
  {
    hide TilesHashed;
    assert Join(g.TileRows(), 0, g.TileCols()) == g.TileCount();
  }

  lemma NoTiles(g: Scan, a: seq<int8>, b: seq<int8>, out: seq<uint32>, ms: nat)
    requires g.Valid()
    ensures TilesHashed(g, a, b, out, ms, Join(0, 0, g.TileCols()))
  {
  }

  lemma NoMilestones(g: Scan, a: seq<int8>, b: seq<int8>, out: seq<uint32>)
    requires g.Valid()
    ensures Earlier(g, a, b, out, 0)
  {
  }

  lemma AllMilestones(g: Scan, a: seq<int8>, b: seq<int8>, out: seq<uint32>)
    requires g.Valid() && |out| == g.blocksK * g.TileCount()
    requires Earlier(g, a, b, out, g.blocksK)
    ensures AllHashed(g, a, b, out)
  {
    hide HashXor, Slot;
    forall ms: nat, tr: nat, tc: nat | InGrid(g, ms, tr, tc)
      ensures SlotHolds(g, a, b, out, ms, tr, tc)
    {
      SlotBound(g, ms, tr, tc);
      assert TilesHashed(g, a, b, out, ms, g.TileCount());
    }
  }

  /** The naive reference: dot products over the plain matrices, hashed after every milestone. */
  method ReferenceMilestoneTileXor(g: Scan, a: seq<int8>, b: seq<int8>, out: array<uint32>)
    requires g.Valid() && |a| == g.Rows() * g.Depth() && |b| == g.Cols() * g.Depth()
    requires out.Length == g.blocksK * g.TileCount()
    modifies out
    ensures AllHashed(g, a, b, out[..])
  {
    hide Accumulated, TilesHashed, AllHashed, Earlier;
    NoMilestones(g, a, b, out[..]);
    var partial := new int[g.Rows() * g.Cols()](_ => 0);
    NothingAccumulated(a, b, g.Depth(), g.Cols(), g.Rows(), partial[..]);
    for ms := 0 to g.blocksK
      invariant Accumulated(a, b, g.Depth(), g.Cols(), g.Rows(), partial[..], ms * g.shape.kr)
      invariant Earlier(g, a, b, out[..], ms)
    {
      MulMonotone(g.shape.kr, ms + 1, g.blocksK);
      MulDistributes(g.shape.kr, ms, 1);
      AdvanceMilestone(a, b, g.Depth(), g.Cols(), g.Rows(), partial, ms * g.shape.kr, (ms + 1) * g.shape.kr);
      HashMilestone(g, a, b, partial[..], out, ms);
    }
    AllMilestones(g, a, b, out[..]);
  }

  lemma NothingAccumulated(a: seq<int8>, b: seq<int8>, k: nat, n: nat, m: nat, c: seq<int>)
    requires |c| == m * n && forall e :: 0 <= e < |c| ==> c[e] == 0
    ensures Accumulated(a, b, k, n, m, c, 0)
  {
    forall i: nat, j: nat | i < m && j < n
      ensures EntryIs(a, b, k, n, c, i, j, 0)
    {
      JoinBound(i, j, m, n);
    }
  }
}
