/** The blocked hash loop over the packed operands, and its agreement with the naive one. */
module BlockedXor {
  import opened Arith
  import opened Bits
  import opened MixedRadix
  import opened Layout
  import opened Prepack
  import opened TileHash
  import opened MacroXor

  // ------------------------------------------------------------------------------------------
  // One register tile

  predicate CellHolds(cells: seq<int>, a: seq<int8>, b: seq<int8>, k: nat, row0: nat, col0: nat, mr: nat, d0: nat,
                      d1: nat, e: nat)
    requires mr > 0 && e < |cells|
  {
    cells[e] == Dot(a, b, k, row0 + Lo(e, mr), col0 + Hi(e, mr), d1)
                - Dot(a, b, k, row0 + Lo(e, mr), col0 + Hi(e, mr), d0)
  }

  /** The accumulators `from` to `to` hold the steps of depth from `d0` to `d1`, column by column. */
  ghost predicate CellsHold(cells: seq<int>, a: seq<int8>, b: seq<int8>, k: nat, row0: nat, col0: nat, mr: nat,
                            d0: nat, d1: nat, from: nat, to: nat)
    requires mr > 0
  {
    to <= |cells| && forall e: nat :: from <= e < to ==> CellHolds(cells, a, b, k, row0, col0, mr, d0, d1, e)
  }

  ghost predicate HoldsSteps(cells: seq<int>, a: seq<int8>, b: seq<int8>, k: nat, row0: nat, col0: nat, mr: nat,
                             d0: nat, d1: nat)
    requires mr > 0
  {
    CellsHold(cells, a, b, k, row0, col0, mr, d0, d1, 0, |cells|)
  }

  predicate StepHolds(src: seq<int8>, k: nat, line: nat, depth: nat, packed: seq<int8>, at: nat, ko: nat) {
    at + ko < |packed| && packed[at + ko] == Entry(src, k, line, depth + ko)
  }

  /** RANK steps of one line, next to each other. */
  ghost predicate LineHolds(src: seq<int8>, k: nat, line: nat, depth: nat, packed: seq<int8>, at: nat) {
    forall ko: nat :: ko < RANK ==> StepHolds(src, k, line, depth, packed, at, ko)
  }

  /** One cell over one group of RANK steps. */
  method AddSteps(acc: array<int>, e: nat, aPre: seq<int8>, aAt: nat, bPre: seq<int8>, bAt: nat,
                  ghost a: seq<int8>, ghost b: seq<int8>, ghost k: nat, ghost row: nat, ghost col: nat,
                  ghost depth: nat)
    requires e < acc.Length
    requires LineHolds(a, k, row, depth, aPre, aAt) && LineHolds(b, k, col, depth, bPre, bAt)
    modifies acc
    ensures acc[..] ==
            old(acc[..])[e := old(acc[e]) + Dot(a, b, k, row, col, depth + RANK) - Dot(a, b, k, row, col, depth)]
  {
    ghost var before := acc[..];
    for ko := 0 to RANK
      invariant acc[..] == before[e := before[e] + Dot(a, b, k, row, col, depth + ko) - Dot(a, b, k, row, col, depth)]
    {
      assert StepHolds(a, k, row, depth, aPre, aAt, ko) && StepHolds(b, k, col, depth, bPre, bAt, ko);
      var x: int := aPre[aAt + ko];
      var y: int := bPre[bAt + ko];
      acc[e] := acc[e] + x * y;
    }
  }

  /** One group: every cell of the register tile advances by RANK steps. */
  method AddGroup(acc: array<int>, mr: nat, nr: nat, aPre: seq<int8>, aAt: nat, bPre: seq<int8>, bAt: nat,
                  ghost a: seq<int8>, ghost b: seq<int8>, ghost k: nat, ghost row0: nat, ghost col0: nat,
                  ghost d0: nat, ghost depth: nat)
    requires mr > 0 && acc.Length == nr * mr
    requires GroupHolds(a, k, row0, depth, mr, aPre, aAt) && GroupHolds(b, k, col0, depth, nr, bPre, bAt)
    requires HoldsSteps(acc[..], a, b, k, row0, col0, mr, d0, depth)
    modifies acc
    ensures HoldsSteps(acc[..], a, b, k, row0, col0, mr, d0, depth + RANK)
  {
    hide Dot, CellsHold, GroupHolds;
    NoCells(acc[..], a, b, k, row0, col0, mr, d0, depth + RANK);
    for j := 0 to nr
      invariant CellsHold(acc[..], a, b, k, row0, col0, mr, d0, depth + RANK, 0, Join(j, 0, mr))
      invariant CellsHold(acc[..], a, b, k, row0, col0, mr, d0, depth, Join(j, 0, mr), acc.Length)
    {
      for i := 0 to mr
        invariant CellsHold(acc[..], a, b, k, row0, col0, mr, d0, depth + RANK, 0, Join(j, i, mr))
        invariant CellsHold(acc[..], a, b, k, row0, col0, mr, d0, depth, Join(j, i, mr), acc.Length)
      {
        ghost var before := acc[..];
        JoinBound(j, i, nr, mr);
        GroupLine(a, k, row0, depth, mr, aPre, aAt, i);
        GroupLine(b, k, col0, depth, nr, bPre, bAt, j);
        AddSteps(acc, j * mr + i, aPre, aAt + i * RANK, bPre, bAt + j * RANK, a, b, k, row0 + i, col0 + j, depth);
        CellAdvanced(before, acc[..], a, b, k, row0, col0, mr, d0, depth, i, j);
        JoinStep(j, i, mr);
      }
      JoinNext(j, mr);
    }
  }

  lemma NoCells(cells: seq<int>, a: seq<int8>, b: seq<int8>, k: nat, row0: nat, col0: nat, mr: nat, d0: nat, d1: nat)
    requires mr > 0
    ensures CellsHold(cells, a, b, k, row0, col0, mr, d0, d1, 0, Join(0, 0, mr))
  {
  }

  lemma GroupLine(src: seq<int8>, k: nat, line0: nat, k0: nat, height: nat, tile: seq<int8>, at: nat, r: nat)
    requires GroupHolds(src, k, line0, k0, height, tile, at) && r < height
    ensures LineHolds(src, k, line0 + r, k0, tile, at + r * RANK)
  {
    var (line, start) := (line0 + r, at + r * RANK);
    forall ko: nat | ko < RANK
      ensures StepHolds(src, k, line, k0, tile, start, ko)
    {
      assert Copied(src, k, line0 + r, k0 + ko, tile, at + Join(r, ko, RANK));
    }
  }

  lemma CellAdvanced(was: seq<int>, now: seq<int>, a: seq<int8>, b: seq<int8>, k: nat, row0: nat, col0: nat, mr: nat,
                     d0: nat, depth: nat, i: nat, j: nat)
    requires mr > 0 && i < mr && Join(j, i, mr) < |was|
    requires CellsHold(was, a, b, k, row0, col0, mr, d0, depth + RANK, 0, Join(j, i, mr))
    requires CellsHold(was, a, b, k, row0, col0, mr, d0, depth, Join(j, i, mr), |was|)
    requires now == was[Join(j, i, mr) := was[Join(j, i, mr)] + Dot(a, b, k, row0 + i, col0 + j, depth + RANK)
                                          - Dot(a, b, k, row0 + i, col0 + j, depth)]
    ensures CellsHold(now, a, b, k, row0, col0, mr, d0, depth + RANK, 0, Join(j, i, mr) + 1)
    ensures CellsHold(now, a, b, k, row0, col0, mr, d0, depth, Join(j, i, mr) + 1, |was|)
  {
    hide Dot, Join, Lo, Hi;
    var (p, d1) := (Join(j, i, mr), depth + RANK);
    JoinSplit(j, i, mr);
    assert CellHolds(was, a, b, k, row0, col0, mr, d0, depth, p);
    assert forall e: nat :: e < p ==> (CellHolds(was, a, b, k, row0, col0, mr, d0, d1, e)
                                       ==> CellHolds(now, a, b, k, row0, col0, mr, d0, d1, e));
    assert forall e: nat :: p < e < |was| ==> (CellHolds(was, a, b, k, row0, col0, mr, d0, depth, e)
                                               ==> CellHolds(now, a, b, k, row0, col0, mr, d0, depth, e));
  }

  /** The packed operand holds each group where the blocked loop looks for it. */
  lemma PackedGroup(g: Blocks, src: seq<int8>, out: seq<int8>, im: nat, kb: nat, kg: nat, tr: nat)
    requires g.Valid() && IsPacked(g, src, out) && InRange(g, Cell(im, kb, kg, tr, 0, 0))
    ensures GroupHolds(src, g.K(), Join(im, tr, g.micro) * g.height, Join(kb, kg, g.groups) * RANK, g.height, out,
                       (im * g.blocksK + kb) * g.Block() + kg * g.Strip() + tr * g.KgBytes())
  {
    StripStart(g, im, kb, kg, tr);
    forall r: nat, ko: nat | r < g.height && ko < RANK
      ensures Copied(src, g.K(), Join(im, tr, g.micro) * g.height + r, Join(kb, kg, g.groups) * RANK + ko, out,
                     StripOf(g, Cell(im, kb, kg, tr, 0, 0)) * g.KgBytes() + Join(r, ko, RANK))
    {
      var c := Cell(im, kb, kg, tr, r, ko);
      StripBound(g, c);
      assert Copied(src, g.K(), Line(g, c), Depth(g, c), out, Packed(g, c));
    }
  }

  /** Where the blocked loop reads A and B for one group of a register tile. */
  function GroupAt(g: Blocks, im: nat, kb: nat, kg: nat, tr: nat): nat {
    (im * g.blocksK + kb) * g.Block() + kg * g.Strip() + tr * g.KgBytes()
  }

  lemma GroupsThere(g: Scan, aPre: seq<int8>, bPre: seq<int8>, im: nat, jm: nat, tr: nat, tc: nat, kb: nat, kg: nat,
                    a: seq<int8>, b: seq<int8>)
    requires g.Valid() && IsPacked(g.A(), a, aPre) && IsPacked(g.B(), b, bPre)
    requires im < g.macroRows && jm < g.macroCols && tr < g.A().micro && tc < g.B().micro && kb < g.blocksK
    requires kg < g.shape.KGroups()
    ensures var depth := Join(kb, kg, g.shape.KGroups()) * RANK;
            && GroupHolds(a, g.Depth(), RowOf(g, im, tr), depth, g.shape.mr, aPre, GroupAt(g.A(), im, kb, kg, tr))
            && GroupHolds(b, g.Depth(), ColOf(g, jm, tc), depth, g.shape.nr, bPre, GroupAt(g.B(), jm, kb, kg, tc))
  {
    hide GroupHolds, IsPacked;
    GridSizes(g);
    PackedGroup(g.A(), a, aPre, im, kb, kg, tr);
    PackedGroup(g.B(), b, bPre, jm, kb, kg, tc);
  }

  /** One panel of depth for the register tile (`tr`, `tc`) of macro block (`im`, `jm`). */
  method AddPanel(g: Scan, acc: array<int>, aPre: seq<int8>, bPre: seq<int8>, im: nat, jm: nat, tr: nat, tc: nat,
                  kb: nat, ghost a: seq<int8>, ghost b: seq<int8>)
    requires g.Valid() && IsPacked(g.A(), a, aPre) && IsPacked(g.B(), b, bPre)
    requires im < g.macroRows && jm < g.macroCols && tr < g.A().micro && tc < g.B().micro && kb < g.blocksK
    requires acc.Length == g.shape.nr * g.shape.mr && forall e :: 0 <= e < acc.Length ==> acc[e] == 0
    modifies acc
    ensures HoldsSteps(acc[..], a, b, g.Depth(), RowOf(g, im, tr), ColOf(g, jm, tc), g.shape.mr, kb * g.shape.kr,
                       (kb + 1) * g.shape.kr)
  {
    NoSteps(acc[..], a, b, g.Depth(), RowOf(g, im, tr), ColOf(g, jm, tc), g.shape.mr, kb * g.shape.kr);
    hide GroupHolds, Dot, IsPacked, HoldsSteps, Join, GroupAt, RowOf, ColOf;
    PanelDepth(g, kb);
    for kg := 0 to g.shape.KGroups()
      invariant HoldsSteps(acc[..], a, b, g.Depth(), RowOf(g, im, tr), ColOf(g, jm, tc), g.shape.mr, kb * g.shape.kr,
                           Join(kb, kg, g.shape.KGroups()) * RANK)
    {
      GroupsThere(g, aPre, bPre, im, jm, tr, tc, kb, kg, a, b);
      AddGroup(acc, g.shape.mr, g.shape.nr, aPre, GroupAt(g.A(), im, kb, kg, tr), bPre, GroupAt(g.B(), jm, kb, kg, tc),
               a, b, g.Depth(), RowOf(g, im, tr), ColOf(g, jm, tc), kb * g.shape.kr,
               Join(kb, kg, g.shape.KGroups()) * RANK);
      JoinStep(kb, kg, g.shape.KGroups());
    }
  }

  lemma NoSteps(cells: seq<int>, a: seq<int8>, b: seq<int8>, k: nat, row0: nat, col0: nat, mr: nat, d: nat)
    requires mr > 0 && forall e :: 0 <= e < |cells| ==> cells[e] == 0
    ensures HoldsSteps(cells, a, b, k, row0, col0, mr, d, d)
  {
  }

  function RowOf(g: Scan, im: nat, tr: nat): nat requires g.Valid() { Join(im, tr, g.A().micro) * g.shape.mr }
  function ColOf(g: Scan, jm: nat, tc: nat): nat requires g.Valid() { Join(jm, tc, g.B().micro) * g.shape.nr }

  lemma PanelDepth(g: Scan, kb: nat)
    requires g.Valid()
    ensures Join(kb, 0, g.shape.KGroups()) * RANK == kb * g.shape.kr
    ensures Join(kb, g.shape.KGroups(), g.shape.KGroups()) * RANK == (kb + 1) * g.shape.kr
  {
    assert g.A().groups * RANK == g.shape.kr;
    MulAssociates(kb, g.A().groups, RANK);
    MulAssociates(kb + 1, g.A().groups, RANK);
    JoinNext(kb, g.A().groups);
  }

  method AddTile(cells: array<int>, panel: array<int>, ghost a: seq<int8>, ghost b: seq<int8>, ghost k: nat,
                 ghost row0: nat, ghost col0: nat, mr: nat, ghost d0: nat, ghost d1: nat)
    requires mr > 0 && cells != panel && cells.Length == panel.Length
    requires HoldsDots(cells[..], a, b, k, row0, col0, mr, d0) && HoldsSteps(panel[..], a, b, k, row0, col0, mr, d0, d1)
    modifies cells
    ensures HoldsDots(cells[..], a, b, k, row0, col0, mr, d1)
  {
    hide Dot;
    for e := 0 to cells.Length
      invariant forall i: nat :: i < e ==> cells[i] == Dot(a, b, k, row0 + Lo(i, mr), col0 + Hi(i, mr), d1)
      invariant forall i: nat :: e <= i < cells.Length ==>
                  cells[i] == Dot(a, b, k, row0 + Lo(i, mr), col0 + Hi(i, mr), d0)
    {
      assert CellHolds(panel[..], a, b, k, row0, col0, mr, d0, d1, e);
      cells[e] := cells[e] + panel[e];
    }
  }

  /** The value of a hash tile after the first `tiles` of its register tiles. */
  function PartXor(g: Scan, a: seq<int8>, b: seq<int8>, ms: nat, tr: nat, tc: nat, tiles: nat): uint32
    requires g.Valid()
  {
    CellsXor(a, b, g.Depth(), tr * g.shape.mr, tc * g.shape.HashNr(), g.shape.mr, (ms + 1) * g.shape.kr,
             tiles * g.shape.nr * g.shape.mr)
  }

  function RegisterXor(g: Scan, a: seq<int8>, b: seq<int8>, ms: nat, row0: nat, col0: nat): uint32
    requires g.Valid()
  {
    CellsXor(a, b, g.Depth(), row0, col0, g.shape.mr, (ms + 1) * g.shape.kr, g.shape.nr * g.shape.mr)
  }

  /** The first column of the register tile that follows `tiles` others in hash tile (`tr`, `tc`). */
  function ColumnAfter(g: Scan, tc: nat, tiles: nat): nat { tc * g.shape.HashNr() + tiles * g.shape.nr }

  lemma PartXorAdds(g: Scan, a: seq<int8>, b: seq<int8>, ms: nat, tr: nat, tc: nat, tiles: nat)
    requires g.Valid()
    ensures PartXor(g, a, b, ms, tr, tc, tiles + 1)
            == Xor32(PartXor(g, a, b, ms, tr, tc, tiles),
                     RegisterXor(g, a, b, ms, tr * g.shape.mr, ColumnAfter(g, tc, tiles)))
  {
    hide CellsXor;
    var (mr, nr) := (g.shape.mr, g.shape.nr);
    MulDistributes(nr, tiles, 1);
    MulDistributes(mr, tiles * nr, nr);
    CellsXorSideBySide(a, b, g.Depth(), tr * mr, tc * g.shape.HashNr(), mr, (ms + 1) * g.shape.kr, tiles * nr, nr * mr);
  }

  lemma PartXorFirst(g: Scan, a: seq<int8>, b: seq<int8>, ms: nat, tr: nat, tc: nat)
    requires g.Valid()
    ensures PartXor(g, a, b, ms, tr, tc, 1) == RegisterXor(g, a, b, ms, tr * g.shape.mr, ColumnAfter(g, tc, 0))
  {
    hide CellsXor;
  }

  lemma PartXorAll(g: Scan, a: seq<int8>, b: seq<int8>, ms: nat, tr: nat, tc: nat)
    requires g.Valid()
    ensures PartXor(g, a, b, ms, tr, tc, g.shape.RegisterTilesPerHash()) == HashXor(g, a, b, ms, tr, tc)
  {
    hide CellsXor;
    TilesNest(g.shape);
  }

  // ------------------------------------------------------------------------------------------
  // One register tile through all milestones

  predicate PartHolds(g: Scan, a: seq<int8>, b: seq<int8>, out: seq<uint32>, ms: nat, tr: nat, tc: nat, tiles: nat)
    requires g.Valid()
  {
    Slot(g, ms, tr, tc) < |out| && out[Slot(g, ms, tr, tc)] == PartXor(g, a, b, ms, tr, tc, tiles)
  }

  /** Before and after register tile number `tiles` of a hash tile, at the milestones from `from`
      to `to`; a first tile needs nothing before it. */
  ghost predicate PartsHold(g: Scan, a: seq<int8>, b: seq<int8>, out: seq<uint32>, from: nat, to: nat, tr: nat, tc: nat,
                            tiles: nat)
    requires g.Valid()
  {
    tiles > 0 ==> forall ms: nat :: from <= ms < to ==> PartHolds(g, a, b, out, ms, tr, tc, tiles)
  }

  /** Only slots of hash tile (`tr`, `tc`) differ. */
  ghost predicate OthersKept(g: Scan, was: seq<uint32>, now: seq<uint32>, tr: nat, tc: nat)
    requires g.Valid()
  {
    && |was| == |now|
    && forall ms: nat, r: nat, c: nat :: InGrid(g, ms, r, c) && (r != tr || c != tc) ==> SlotKept(g, was, now, ms, r, c)
  }

  predicate SlotKept(g: Scan, was: seq<uint32>, now: seq<uint32>, ms: nat, tr: nat, tc: nat)
    requires g.Valid()
  {
    Slot(g, ms, tr, tc) < |was| && Slot(g, ms, tr, tc) < |now| && now[Slot(g, ms, tr, tc)] == was[Slot(g, ms, tr, tc)]
  }

  function Combine(first: bool, stored: uint32, x: uint32): uint32 { if first then x else Xor32(stored, x) }

  /** The end of one panel: the register tile's value is stored, or combined with what is there. */
  method StoreXor(g: Scan, out: array<uint32>, at: nat, first: bool, x: uint32,
                  ghost a: seq<int8>, ghost b: seq<int8>, ghost ms: nat, ghost tr: nat, ghost tc: nat, ghost tiles: nat)
    requires g.Valid() && InGrid(g, ms, tr, tc) && at == Slot(g, ms, tr, tc) < out.Length
    requires out.Length == g.blocksK * g.TileCount() && first == (tiles == 0)
    requires x == RegisterXor(g, a, b, ms, tr * g.shape.mr, ColumnAfter(g, tc, tiles))
    requires PartsHold(g, a, b, out[..], 0, ms, tr, tc, tiles + 1)
    requires PartsHold(g, a, b, out[..], ms, g.blocksK, tr, tc, tiles)
    modifies out
    ensures PartsHold(g, a, b, out[..], 0, ms + 1, tr, tc, tiles + 1)
    ensures PartsHold(g, a, b, out[..], ms + 1, g.blocksK, tr, tc, tiles)
    ensures OthersKept(g, old(out[..]), out[..], tr, tc)
  {
    hide PartXor, RegisterXor, ColumnAfter, OthersKept, PartsHold, Slot;
    ghost var before := out[..];
    PartValue(g, a, b, before, ms, tr, tc, tiles, x);
    hide Combine;
    out[at] := Combine(first, out[at], x);
    PartStored(g, a, b, before, out[..], ms, tr, tc, tiles);
  }

  lemma PartValue(g: Scan, a: seq<int8>, b: seq<int8>, out: seq<uint32>, ms: nat, tr: nat, tc: nat, tiles: nat,
                  x: uint32)
    requires g.Valid() && ms < g.blocksK && x == RegisterXor(g, a, b, ms, tr * g.shape.mr, ColumnAfter(g, tc, tiles))
    requires Slot(g, ms, tr, tc) < |out| && PartsHold(g, a, b, out, ms, g.blocksK, tr, tc, tiles)
    ensures PartXor(g, a, b, ms, tr, tc, tiles + 1) == Combine(tiles == 0, out[Slot(g, ms, tr, tc)], x)
  {
    hide PartXor, RegisterXor, ColumnAfter;
    if tiles == 0 {
      PartXorFirst(g, a, b, ms, tr, tc);
    } else {
      assert PartHolds(g, a, b, out, ms, tr, tc, tiles);
      PartXorAdds(g, a, b, ms, tr, tc, tiles);
    }
  }

  lemma PartStored(g: Scan, a: seq<int8>, b: seq<int8>, was: seq<uint32>, now: seq<uint32>, ms: nat, tr: nat, tc: nat,
                   tiles: nat)
    requires g.Valid() && InGrid(g, ms, tr, tc) && |was| == g.blocksK * g.TileCount()
    requires Slot(g, ms, tr, tc) < |was| && now == was[Slot(g, ms, tr, tc) := PartXor(g, a, b, ms, tr, tc, tiles + 1)]
    requires PartsHold(g, a, b, was, 0, ms, tr, tc, tiles + 1)
    requires PartsHold(g, a, b, was, ms, g.blocksK, tr, tc, tiles)
    ensures PartsHold(g, a, b, now, 0, ms + 1, tr, tc, tiles + 1)
    ensures PartsHold(g, a, b, now, ms + 1, g.blocksK, tr, tc, tiles)
    ensures OthersKept(g, was, now, tr, tc)
  {
    hide PartXor, Slot;
    forall m: nat, r: nat, c: nat | InGrid(g, m, r, c) && !(m == ms && r == tr && c == tc)
      ensures SlotKept(g, was, now, m, r, c)
    {
      SlotAt(g, m, r, c);
      if Slot(g, m, r, c) == Slot(g, ms, tr, tc) {
        SlotInjective(g, m, r, c, ms, tr, tc);
      }
    }
    forall m: nat | m < g.blocksK && m != ms
      ensures SlotKept(g, was, now, m, tr, tc)
    {
    }
    if tiles > 0 {
      forall m: nat | ms + 1 <= m < g.blocksK
        ensures PartHolds(g, a, b, now, m, tr, tc, tiles)
      {
        assert SlotKept(g, was, now, m, tr, tc) && PartHolds(g, a, b, was, m, tr, tc, tiles);
      }
    }
    var more := tiles + 1;
    forall m: nat | m < ms + 1
      ensures PartHolds(g, a, b, now, m, tr, tc, more)
    {
      if m < ms {
        assert SlotKept(g, was, now, m, tr, tc) && PartHolds(g, a, b, was, m, tr, tc, tiles + 1);
      }
    }
  }

  lemma SlotAt(g: Scan, ms: nat, tr: nat, tc: nat)
    requires g.Valid() && InGrid(g, ms, tr, tc)
    ensures Slot(g, ms, tr, tc) < g.blocksK * g.TileCount()
  {
    SlotBound(g, ms, tr, tc);
  }

  /** One panel of a register tile, added to its accumulators, and their value. */
  method HashPanel(g: Scan, cells: array<int>, aPre: seq<int8>, bPre: seq<int8>, im: nat, jm: nat, tr: nat, tc: nat,
                   kb: nat, ghost a: seq<int8>, ghost b: seq<int8>) returns (x: uint32)
    requires g.Valid() && IsPacked(g.A(), a, aPre) && IsPacked(g.B(), b, bPre)
    requires im < g.macroRows && jm < g.macroCols && tr < g.A().micro && tc < g.B().micro && kb < g.blocksK
    requires cells.Length == g.shape.nr * g.shape.mr
    requires HoldsDots(cells[..], a, b, g.Depth(), RowOf(g, im, tr), ColOf(g, jm, tc), g.shape.mr, kb * g.shape.kr)
    modifies cells
    ensures HoldsDots(cells[..], a, b, g.Depth(), RowOf(g, im, tr), ColOf(g, jm, tc), g.shape.mr, (kb + 1) * g.shape.kr)
    ensures x == RegisterXor(g, a, b, kb, RowOf(g, im, tr), ColOf(g, jm, tc))
  {
    hide IsPacked, HoldsDots, HoldsSteps, RowOf, ColOf, RegisterXor;
    var panel := new int[g.shape.nr * g.shape.mr](_ => 0);
    AddPanel(g, panel, aPre, bPre, im, jm, tr, tc, kb, a, b);
    AddTile(cells, panel, a, b, g.Depth(), RowOf(g, im, tr), ColOf(g, jm, tc), g.shape.mr, kb * g.shape.kr,
            (kb + 1) * g.shape.kr);
    x := XorTileHost(cells);
    RegisterXorOf(g, a, b, cells[..], kb, RowOf(g, im, tr), ColOf(g, jm, tc));
  }

  /** All milestones of the register tile (`tr`, `tc`) of macro block (`im`, `jm`), which is number
      `tiles` of hash tile (`hr`, `hc`). */
  method HashRegisterTile(g: Scan, aPre: seq<int8>, bPre: seq<int8>, out: array<uint32>, im: nat, jm: nat, tr: nat,
                          tc: nat, hr: nat, hc: nat, first: bool, ghost a: seq<int8>, ghost b: seq<int8>,
                          ghost tiles: nat)
    requires g.Valid() && IsPacked(g.A(), a, aPre) && IsPacked(g.B(), b, bPre)
    requires im < g.macroRows && jm < g.macroCols && tr < g.A().micro && tc < g.B().micro
    requires hr < g.TileRows() && hc < g.TileCols() && first == (tiles == 0)
    requires hr * g.shape.mr == RowOf(g, im, tr) && ColumnAfter(g, hc, tiles) == ColOf(g, jm, tc)
    requires out.Length == g.blocksK * g.TileCount()
    requires PartsHold(g, a, b, out[..], 0, g.blocksK, hr, hc, tiles)
    modifies out
    ensures PartsHold(g, a, b, out[..], 0, g.blocksK, hr, hc, tiles + 1)
    ensures OthersKept(g, old(out[..]), out[..], hr, hc)
  {
    var cells := new int[g.shape.nr * g.shape.mr](_ => 0);
    NoDots(cells[..], a, b, g.Depth(), RowOf(g, im, tr), ColOf(g, jm, tc), g.shape.mr);
    NoParts(g, a, b, out[..], hr, hc, tiles + 1);
    hide IsPacked, HoldsDots, HoldsSteps, PartsHold, OthersKept, RowOf, ColOf, ColumnAfter, RegisterXor, Slot;
    ghost var before := out[..];
    NothingElseChanged(g, before, hr, hc);
    for kb := 0 to g.blocksK
      invariant HoldsDots(cells[..], a, b, g.Depth(), RowOf(g, im, tr), ColOf(g, jm, tc), g.shape.mr, kb * g.shape.kr)
      invariant PartsHold(g, a, b, out[..], 0, kb, hr, hc, tiles + 1)
      invariant PartsHold(g, a, b, out[..], kb, g.blocksK, hr, hc, tiles)
      invariant OthersKept(g, before, out[..], hr, hc)
    {
      var x := HashPanel(g, cells, aPre, bPre, im, jm, tr, tc, kb, a, b);
      SlotOf(g, kb, hr, hc);
      ghost var mid := out[..];
      StoreXor(g, out, kb * g.TileCount() + (hr * g.TileCols() + hc), first, x, a, b, kb, hr, hc, tiles);
      OthersKeptTwice(g, before, mid, out[..], hr, hc);
    }
  }

  lemma NoDots(cells: seq<int>, a: seq<int8>, b: seq<int8>, k: nat, row0: nat, col0: nat, mr: nat)
    requires mr > 0 && forall e :: 0 <= e < |cells| ==> cells[e] == 0
    ensures HoldsDots(cells, a, b, k, row0, col0, mr, 0)
  {
  }

  lemma NoParts(g: Scan, a: seq<int8>, b: seq<int8>, out: seq<uint32>, tr: nat, tc: nat, tiles: nat)
    requires g.Valid()
    ensures PartsHold(g, a, b, out, 0, 0, tr, tc, tiles)
  {
  }

  lemma NothingElseChanged(g: Scan, out: seq<uint32>, tr: nat, tc: nat)
    requires g.Valid() && |out| == g.blocksK * g.TileCount()
    ensures OthersKept(g, out, out, tr, tc)
  {
    hide Slot;
    forall ms: nat, r: nat, c: nat | InGrid(g, ms, r, c)
      ensures SlotKept(g, out, out, ms, r, c)
    {
      SlotAt(g, ms, r, c);
    }
  }

  lemma OthersKeptTwice(g: Scan, x: seq<uint32>, y: seq<uint32>, z: seq<uint32>, tr: nat, tc: nat)
    requires g.Valid() && OthersKept(g, x, y, tr, tc) && OthersKept(g, y, z, tr, tc)
    ensures OthersKept(g, x, z, tr, tc)
  {
    hide Slot;
    forall ms: nat, r: nat, c: nat | InGrid(g, ms, r, c) && (r != tr || c != tc)
      ensures SlotKept(g, x, z, ms, r, c)
    {
      assert SlotKept(g, x, y, ms, r, c) && SlotKept(g, y, z, ms, r, c);
    }
  }

  lemma RegisterXorOf(g: Scan, a: seq<int8>, b: seq<int8>, cells: seq<int>, ms: nat, row0: nat, col0: nat)
    requires g.Valid() && |cells| == g.shape.nr * g.shape.mr
    requires HoldsDots(cells, a, b, g.Depth(), row0, col0, g.shape.mr, (ms + 1) * g.shape.kr)
    ensures XorOf(cells, |cells|) == RegisterXor(g, a, b, ms, row0, col0)
  {
    XorOfDots(cells, a, b, g.Depth(), row0, col0, g.shape.mr, (ms + 1) * g.shape.kr, |cells|);
  }

  lemma SlotOf(g: Scan, ms: nat, tr: nat, tc: nat)
    requires g.Valid() && ms < g.blocksK && tr < g.TileRows() && tc < g.TileCols()
    ensures ms * g.TileCount() + (tr * g.TileCols() + tc) == Slot(g, ms, tr, tc) < g.blocksK * g.TileCount()
  {
    SlotAt(g, ms, tr, tc);
  }

  // ------------------------------------------------------------------------------------------
  // One macro block: register tiles column by column

  function PerMacro(g: Scan): nat requires g.Valid() { g.shape.macroN / g.shape.HashNr() }

  /** How many register tiles of local hash tile (`r`, `h`) come before register tile (`tr`, `tc`). */
  function Done(g: Scan, tr: nat, tc: nat, r: nat, h: nat): nat
    requires g.Valid()
  {
    var (per, columns) := (g.shape.RegisterTilesPerHash(), if r < tr then tc + 1 else tc);
    if columns <= per * h then 0 else if columns >= per * h + per then per else columns - per * h
  }

  /** The hash tiles of block (`im`, `jm`) when register tile (`tr`, `tc`) is next. */
  ghost predicate BlockHolds(g: Scan, a: seq<int8>, b: seq<int8>, out: seq<uint32>, im: nat, jm: nat, tr: nat, tc: nat)
    requires g.Valid()
  {
    forall r: nat, h: nat :: r < g.A().micro && h < PerMacro(g) ==>
      PartsHold(g, a, b, out, 0, g.blocksK, Join(im, r, g.A().micro), Join(jm, h, PerMacro(g)), Done(g, tr, tc, r, h))
  }

  lemma BlockAdvances(g: Scan, a: seq<int8>, b: seq<int8>, was: seq<uint32>, now: seq<uint32>, im: nat, jm: nat,
                      tr: nat, tc: nat, h: nat, tiles: nat)
    requires g.Valid() && im < g.macroRows && jm < g.macroCols && tr < g.A().micro && h < PerMacro(g)
    requires tc == Join(h, tiles, g.shape.RegisterTilesPerHash()) && tiles < g.shape.RegisterTilesPerHash()
    requires BlockHolds(g, a, b, was, im, jm, tr, tc)
    requires PartsHold(g, a, b, now, 0, g.blocksK, Join(im, tr, g.A().micro), Join(jm, h, PerMacro(g)), tiles + 1)
    requires OthersKept(g, was, now, Join(im, tr, g.A().micro), Join(jm, h, PerMacro(g)))
    ensures BlockHolds(g, a, b, now, im, jm, tr + 1, tc)
  {
    hide PartsHold, OthersKept;
    forall r: nat, h': nat | r < g.A().micro && h' < PerMacro(g)
      ensures PartsHold(g, a, b, now, 0, g.blocksK, Join(im, r, g.A().micro), Join(jm, h', PerMacro(g)),
                        Done(g, tr + 1, tc, r, h'))
    {
      DoneAdvances(g, tr, tc, h, tiles, r, h');
      if r != tr || h' != h {
        InBlock(g, im, jm, r, h');
        if Join(im, r, g.A().micro) == Join(im, tr, g.A().micro)
           && Join(jm, h', PerMacro(g)) == Join(jm, h, PerMacro(g)) {
          JoinInjective(im, r, im, tr, g.A().micro);
          JoinInjective(jm, h', jm, h, PerMacro(g));
        }
        PartsKept(g, a, b, was, now, Join(im, tr, g.A().micro), Join(jm, h, PerMacro(g)),
                  Join(im, r, g.A().micro), Join(jm, h', PerMacro(g)), Done(g, tr, tc, r, h'));
      }
    }
  }

  lemma InBlock(g: Scan, im: nat, jm: nat, r: nat, h: nat)
    requires g.Valid() && im < g.macroRows && jm < g.macroCols && r < g.A().micro && h < PerMacro(g)
    ensures Join(im, r, g.A().micro) < g.TileRows() && Join(jm, h, PerMacro(g)) < g.TileCols()
  {
    JoinBound(im, r, g.macroRows, g.A().micro);
    JoinBound(jm, h, g.macroCols, PerMacro(g));
  }

  lemma PartsKept(g: Scan, a: seq<int8>, b: seq<int8>, was: seq<uint32>, now: seq<uint32>, tr: nat, tc: nat, r: nat,
                  c: nat, tiles: nat)
    requires g.Valid() && OthersKept(g, was, now, tr, tc) && (r != tr || c != tc) && r < g.TileRows()
             && c < g.TileCols()
    requires PartsHold(g, a, b, was, 0, g.blocksK, r, c, tiles)
    ensures PartsHold(g, a, b, now, 0, g.blocksK, r, c, tiles)
  {
    hide Slot, PartXor;
    if tiles > 0 {
      forall ms: nat | ms < g.blocksK
        ensures PartHolds(g, a, b, now, ms, r, c, tiles)
      {
        assert SlotKept(g, was, now, ms, r, c) && PartHolds(g, a, b, was, ms, r, c, tiles);
      }
    }
  }

  lemma DoneAdvances(g: Scan, tr: nat, tc: nat, h: nat, tiles: nat, r: nat, h': nat)
    requires g.Valid() && tiles < g.shape.RegisterTilesPerHash() && tc == Join(h, tiles, g.shape.RegisterTilesPerHash())
    ensures Done(g, tr + 1, tc, r, h') == if r == tr && h' == h then tiles + 1 else Done(g, tr, tc, r, h')
    ensures Done(g, tr, tc, tr, h) == tiles
  {
    var per := g.shape.RegisterTilesPerHash();
    if h' < h {
      MulMonotone(per, h' + 1, h);
    } else if h' > h {
      MulMonotone(per, h + 1, h');
    }
  }

  lemma NextColumn(g: Scan, a: seq<int8>, b: seq<int8>, out: seq<uint32>, im: nat, jm: nat, tc: nat)
    requires g.Valid() && BlockHolds(g, a, b, out, im, jm, g.A().micro, tc)
    ensures BlockHolds(g, a, b, out, im, jm, 0, tc + 1)
  {
    hide PartsHold;
    forall r: nat, h: nat | r < g.A().micro && h < PerMacro(g)
      ensures Done(g, g.A().micro, tc, r, h) == Done(g, 0, tc + 1, r, h)
    {
    }
  }

  lemma BlockBegins(g: Scan, a: seq<int8>, b: seq<int8>, out: seq<uint32>, im: nat, jm: nat)
    requires g.Valid()
    ensures BlockHolds(g, a, b, out, im, jm, 0, 0)
  {
  }

  ghost predicate BlockHashed(g: Scan, a: seq<int8>, b: seq<int8>, out: seq<uint32>, im: nat, jm: nat)
    requires g.Valid()
  {
    forall ms: nat, r: nat, h: nat :: ms < g.blocksK && r < g.A().micro && h < PerMacro(g) ==>
      SlotHolds(g, a, b, out, ms, Join(im, r, g.A().micro), Join(jm, h, PerMacro(g)))
  }

  lemma BlockEnds(g: Scan, a: seq<int8>, b: seq<int8>, out: seq<uint32>, im: nat, jm: nat)
    requires g.Valid() && BlockHolds(g, a, b, out, im, jm, 0, g.B().micro)
    ensures BlockHashed(g, a, b, out, im, jm)
  {
    hide Slot, PartXor, HashXor;
    var per := g.shape.RegisterTilesPerHash();
    PerBlock(g);
    forall ms: nat, r: nat, h: nat | ms < g.blocksK && r < g.A().micro && h < PerMacro(g)
      ensures SlotHolds(g, a, b, out, ms, Join(im, r, g.A().micro), Join(jm, h, PerMacro(g)))
    {
      MulMonotone(per, h + 1, PerMacro(g));
      assert Done(g, 0, g.B().micro, r, h) == per;
      PartXorAll(g, a, b, ms, Join(im, r, g.A().micro), Join(jm, h, PerMacro(g)));
      assert PartHolds(g, a, b, out, ms, Join(im, r, g.A().micro), Join(jm, h, PerMacro(g)), per);
    }
  }

  /** A macro block holds whole hash tiles. */
  lemma PerBlock(g: Scan)
    requires g.Valid()
    ensures g.shape.RegisterTilesPerHash() > 0
    ensures g.B().micro == g.shape.RegisterTilesPerHash() * PerMacro(g)
  {
    TilesNest(g.shape);
    var (per, nr) := (g.shape.RegisterTilesPerHash(), g.shape.nr);
    assert PerMacro(g) * g.shape.HashNr() == g.shape.macroN;
    MulAssociates(PerMacro(g), per, nr);
    DivUnique(g.shape.macroN, nr, PerMacro(g) * per, 0);
  }

  /** Register tile column `tc` of a block lies in hash tile column `tc / per`. */
  lemma RegisterInHash(g: Scan, jm: nat, tc: nat)
    requires g.Valid() && tc < g.B().micro && g.shape.RegisterTilesPerHash() > 0
    ensures var per := g.shape.RegisterTilesPerHash();
            && Hi(tc, per) < PerMacro(g) && Lo(tc, per) < per && tc == Join(Hi(tc, per), Lo(tc, per), per)
            && Hi(jm * g.B().micro + tc, per) == Join(jm, Hi(tc, per), PerMacro(g))
            && ColumnAfter(g, Join(jm, Hi(tc, per), PerMacro(g)), Lo(tc, per)) == ColOf(g, jm, tc)
  {
    var (per, nr) := (g.shape.RegisterTilesPerHash(), g.shape.nr);
    var (h, c, hc) := (Hi(tc, per), Lo(tc, per), Join(jm, Hi(tc, per), PerMacro(g)));
    PerBlock(g);
    SplitJoin(tc, PerMacro(g), per);
    TilesNest(g.shape);
    MulAssociates(jm, PerMacro(g), per);
    MulDistributes(per, jm * PerMacro(g), h);
    assert jm * g.B().micro + tc == Join(hc, c, per);
    JoinSplit(hc, c, per);
    MulAssociates(hc, per, nr);
    MulDistributes(nr, hc * per, c);
  }

  predicate InMacro(g: Scan, im: nat, jm: nat, tr: nat, tc: nat)
    requires g.Valid() && g.A().micro > 0 && PerMacro(g) > 0
  {
    Hi(tr, g.A().micro) == im && Hi(tc, PerMacro(g)) == jm
  }

  /** Only slots of macro block (`im`, `jm`) differ. */
  ghost predicate OutsideKept(g: Scan, was: seq<uint32>, now: seq<uint32>, im: nat, jm: nat)
    requires g.Valid() && g.A().micro > 0 && PerMacro(g) > 0
  {
    && |was| == |now|
    && forall ms: nat, tr: nat, tc: nat :: InGrid(g, ms, tr, tc) && !InMacro(g, im, jm, tr, tc) ==>
      SlotKept(g, was, now, ms, tr, tc)
  }

  lemma OutsideKeptAfter(g: Scan, x: seq<uint32>, y: seq<uint32>, z: seq<uint32>, im: nat, jm: nat, tr: nat, tc: nat)
    requires g.Valid() && g.A().micro > 0 && PerMacro(g) > 0
    requires OutsideKept(g, x, y, im, jm) && OthersKept(g, y, z, tr, tc) && InMacro(g, im, jm, tr, tc)
    ensures OutsideKept(g, x, z, im, jm)
  {
    hide Slot;
    forall ms: nat, r: nat, c: nat | InGrid(g, ms, r, c) && !InMacro(g, im, jm, r, c)
      ensures SlotKept(g, x, z, ms, r, c)
    {
      assert SlotKept(g, x, y, ms, r, c) && SlotKept(g, y, z, ms, r, c);
    }
  }

  lemma OutsideKeptFirst(g: Scan, out: seq<uint32>, im: nat, jm: nat)
    requires g.Valid() && g.A().micro > 0 && PerMacro(g) > 0 && |out| == g.blocksK * g.TileCount()
    ensures OutsideKept(g, out, out, im, jm)
  {
    hide Slot;
    forall ms: nat, r: nat, c: nat | InGrid(g, ms, r, c)
      ensures SlotKept(g, out, out, ms, r, c)
    {
      SlotAt(g, ms, r, c);
    }
  }

  lemma MicroPositive(g: Scan)
    requires g.Valid()
    ensures g.A().micro > 0 && g.B().micro > 0 && PerMacro(g) > 0
  {
  }

  /** One work item of a macro block. */
  method HashWorkItem(g: Scan, aPre: seq<int8>, bPre: seq<int8>, out: array<uint32>, im: nat, jm: nat, tr: nat, tc: nat,
                      ghost a: seq<int8>, ghost b: seq<int8>)
    requires g.Valid() && IsPacked(g.A(), a, aPre) && IsPacked(g.B(), b, bPre)
    requires g.A().micro > 0 && PerMacro(g) > 0
    requires im < g.macroRows && jm < g.macroCols && tr < g.A().micro && tc < g.B().micro
    requires out.Length == g.blocksK * g.TileCount()
    requires BlockHolds(g, a, b, out[..], im, jm, tr, tc)
    modifies out
    ensures BlockHolds(g, a, b, out[..], im, jm, tr + 1, tc)
    ensures OutsideKept(g, old(out[..]), out[..], im, jm)
  {
    hide IsPacked, PartsHold, OthersKept, OutsideKept, ColOf, ColumnAfter;
    PerBlock(g);
    RegisterInHash(g, jm, tc);
    var per := g.shape.RegisterTilesPerHash();
    var trGlobal := im * g.A().micro + tr;
    var hashTc := Hi(jm * g.B().micro + tc, per);
    ghost var (h, tiles) := (Hi(tc, per), Lo(tc, per));
    ghost var before := out[..];
    InBlock(g, im, jm, tr, h);
    DoneAdvances(g, tr, tc, h, tiles, tr, h);
    JoinSplit(im, tr, g.A().micro);
    JoinSplit(jm, h, PerMacro(g));
    OutsideKeptFirst(g, before, im, jm);
    HashRegisterTile(g, aPre, bPre, out, im, jm, tr, tc, trGlobal, hashTc, Lo(tc, per) == 0, a, b, tiles);
    BlockAdvances(g, a, b, before, out[..], im, jm, tr, tc, h, tiles);
    OutsideKeptAfter(g, before, before, out[..], im, jm, trGlobal, hashTc);
  }

  lemma OutsideKeptTwice(g: Scan, x: seq<uint32>, y: seq<uint32>, z: seq<uint32>, im: nat, jm: nat)
    requires g.Valid() && g.A().micro > 0 && PerMacro(g) > 0
    requires OutsideKept(g, x, y, im, jm) && OutsideKept(g, y, z, im, jm)
    ensures OutsideKept(g, x, z, im, jm)
  {
    hide Slot;
    forall ms: nat, r: nat, c: nat | InGrid(g, ms, r, c) && !InMacro(g, im, jm, r, c)
      ensures SlotKept(g, x, z, ms, r, c)
    {
      assert SlotKept(g, x, y, ms, r, c) && SlotKept(g, y, z, ms, r, c);
    }
  }

  method HashMacroBlock(g: Scan, aPre: seq<int8>, bPre: seq<int8>, out: array<uint32>, im: nat, jm: nat,
                        ghost a: seq<int8>, ghost b: seq<int8>)
    requires g.Valid() && IsPacked(g.A(), a, aPre) && IsPacked(g.B(), b, bPre)
    requires g.A().micro > 0 && PerMacro(g) > 0
    requires im < g.macroRows && jm < g.macroCols
    requires out.Length == g.blocksK * g.TileCount()
    modifies out
    ensures BlockHashed(g, a, b, out[..], im, jm)
    ensures OutsideKept(g, old(out[..]), out[..], im, jm)
  {
    BlockBegins(g, a, b, out[..], im, jm);
    hide IsPacked, BlockHolds, BlockHashed, OutsideKept;
    var rows := g.A().micro;
    ghost var before := out[..];
    OutsideKeptFirst(g, before, im, jm);
    for lid := 0 to g.B().micro * rows
      invariant BlockHolds(g, a, b, out[..], im, jm, Lo(lid, rows), Hi(lid, rows))
      invariant OutsideKept(g, before, out[..], im, jm)
    {
      SplitJoin(lid, g.B().micro, rows);
      ghost var mid := out[..];
      HashWorkItem(g, aPre, bPre, out, im, jm, Lo(lid, rows), Hi(lid, rows), a, b);
      OutsideKeptTwice(g, before, mid, out[..], im, jm);
      SplitNext(lid, rows);
      if Lo(lid, rows) + 1 == rows {
        NextColumn(g, a, b, out[..], im, jm, Hi(lid, rows));
      }
    }
    JoinSplit(g.B().micro, 0, rows);
    BlockEnds(g, a, b, out[..], im, jm);
  }

  /** The macro blocks before number `mb`, counted down the columns. */
  ghost predicate BlocksHashed(g: Scan, a: seq<int8>, b: seq<int8>, out: seq<uint32>, mb: nat)
    requires g.Valid()
  {
    forall im: nat, jm: nat :: im < g.macroRows && jm < g.macroCols && Join(jm, im, g.macroRows) < mb ==>
      BlockHashed(g, a, b, out, im, jm)
  }

  lemma BlockAdded(g: Scan, a: seq<int8>, b: seq<int8>, was: seq<uint32>, now: seq<uint32>, im: nat, jm: nat)
    requires g.Valid() && g.A().micro > 0 && PerMacro(g) > 0 && im < g.macroRows && jm < g.macroCols
    requires BlocksHashed(g, a, b, was, Join(jm, im, g.macroRows)) && OutsideKept(g, was, now, im, jm)
    requires BlockHashed(g, a, b, now, im, jm)
    ensures BlocksHashed(g, a, b, now, Join(jm, im, g.macroRows) + 1)
  {
    hide BlockHashed;
    forall i: nat, j: nat | i < g.macroRows && j < g.macroCols
                           && Join(j, i, g.macroRows) < Join(jm, im, g.macroRows) + 1
      ensures BlockHashed(g, a, b, now, i, j)
    {
      if i != im || j != jm {
        if Join(j, i, g.macroRows) == Join(jm, im, g.macroRows) {
          JoinInjective(j, i, jm, im, g.macroRows);
        }
        BlockKept(g, a, b, was, now, im, jm, i, j);
      }
    }
  }

  lemma BlockKept(g: Scan, a: seq<int8>, b: seq<int8>, was: seq<uint32>, now: seq<uint32>, im: nat, jm: nat, i: nat,
                  j: nat)
    requires g.Valid() && g.A().micro > 0 && PerMacro(g) > 0
    requires (i != im || j != jm) && i < g.macroRows && j < g.macroCols
    requires BlockHashed(g, a, b, was, i, j) && OutsideKept(g, was, now, im, jm)
    ensures BlockHashed(g, a, b, now, i, j)
  {
    hide Slot, HashXor, Join, Hi;
    forall ms: nat, r: nat, h: nat | ms < g.blocksK && r < g.A().micro && h < PerMacro(g)
      ensures SlotHolds(g, a, b, now, ms, Join(i, r, g.A().micro), Join(j, h, PerMacro(g)))
    {
      InBlock(g, i, j, r, h);
      JoinSplit(i, r, g.A().micro);
      JoinSplit(j, h, PerMacro(g));
      var (tr, tc) := (Join(i, r, g.A().micro), Join(j, h, PerMacro(g)));
      assert SlotHolds(g, a, b, was, ms, tr, tc) && InGrid(g, ms, tr, tc) && !InMacro(g, im, jm, tr, tc);
      assert SlotKept(g, was, now, ms, tr, tc);
    }
  }

  lemma AllBlocks(g: Scan, a: seq<int8>, b: seq<int8>, out: seq<uint32>)
    requires g.Valid() && g.A().micro > 0 && PerMacro(g) > 0 && |out| == g.blocksK * g.TileCount()
    requires BlocksHashed(g, a, b, out, g.macroCols * g.macroRows)
    ensures AllHashed(g, a, b, out)
  {
    hide SlotHolds, Slot, Join, Hi, Lo;
    forall ms: nat, tr: nat, tc: nat | InGrid(g, ms, tr, tc)
      ensures SlotHolds(g, a, b, out, ms, tr, tc)
    {
      var (im, r) := (Hi(tr, g.A().micro), Lo(tr, g.A().micro));
      var (jm, h) := (Hi(tc, PerMacro(g)), Lo(tc, PerMacro(g)));
      SplitJoin(tr, g.macroRows, g.A().micro);
      SplitJoin(tc, g.macroCols, PerMacro(g));
      JoinBound(jm, im, g.macroCols, g.macroRows);
      assert BlockHashed(g, a, b, out, im, jm);
      assert SlotHolds(g, a, b, out, ms, Join(im, r, g.A().micro), Join(jm, h, PerMacro(g)));
    }
  }

  /** The blocked reference: macro blocks in order, each over the packed operands. */
  method ReferenceMacroTileXorCoalesced(g: Scan, aPre: seq<int8>, bPre: seq<int8>, out: array<uint32>,
                                        ghost a: seq<int8>, ghost b: seq<int8>)
    requires g.Valid() && IsPacked(g.A(), a, aPre) && IsPacked(g.B(), b, bPre)
    requires out.Length == g.blocksK * g.TileCount()
    modifies out
    ensures AllHashed(g, a, b, out[..])
  {
    hide IsPacked, BlockHashed, OutsideKept, AllHashed;
    MicroPositive(g);
    for mb := 0 to g.macroCols * g.macroRows
      invariant BlocksHashed(g, a, b, out[..], mb)
    {
      SplitJoin(mb, g.macroCols, g.macroRows);
      var (jm, im) := (Hi(mb, g.macroRows), Lo(mb, g.macroRows));
      ghost var before := out[..];
      HashMacroBlock(g, aPre, bPre, out, im, jm, a, b);
      BlockAdded(g, a, b, before, out[..], im, jm);
    }
    AllBlocks(g, a, b, out[..]);
  }

  /** Packing both operands and hashing block by block gives what the naive loop gives, for every
      matrix, every accepted shape and every size made of whole macro blocks. */
  method CompareScans(g: Scan, a: seq<int8>, b: seq<int8>) returns (naive: array<uint32>, blocked: array<uint32>)
    requires g.Valid() && |a| == g.Rows() * g.Depth() && |b| == g.Cols() * g.Depth()
    ensures naive[..] == blocked[..] && AllHashed(g, a, b, blocked[..])
  {
    GridSizes(g);
    MicroPositive(g);
    var aPre := PrepackCoalesced(a, g.A());
    var bPre := PrepackCoalesced(b, g.B());
    naive := new uint32[g.blocksK * g.TileCount()](_ => 0);
    blocked := new uint32[g.blocksK * g.TileCount()](_ => 0);
    hide IsPacked, AllHashed;
    ReferenceMacroTileXorCoalesced(g, aPre[..], bPre[..], blocked, a, b);
    ReferenceMilestoneTileXor(g, a, b, naive);
    HashesDetermineOutput(g, a, b, naive[..], blocked[..]);
  }
}
