/** The grids the oneDNN scan can have: hash tiles cut from the kernel's register tile, the checks on the matrix
    sizes, and the batch sizes of the command line. */
module ScanSetup {
  import opened Arith
  import opened Bits
  import opened Wrappers
  import opened Config
  import opened TileGrid

  const MILESTONE_K: nat := 128
  const PP_ROW_PERIOD: nat := 128
  const PP_COL_PERIOD: nat := 256
  const MATRIX_UNIT: nat := 1024
  const ONEDNN_PERIOD_BATCH_MAX: nat := 4096
  const REGISTER_MAX: nat := 256

  /** How a register tile is cut into hash tiles. */
  datatype Split = Native | Both(maxCols: nat) | Vertical

  datatype SubTile = SubTile(m: nat, n: nat, gridM: nat, gridN: nat)

  /** What the kernel catalogue, the environment and the command line fix. */
  datatype Settings = Settings(
    mUnits: nat,
    nUnits: nat,
    unrollM: nat,
    unrollN: nat,
    unrollK: nat,
    wgExpand: int,
    split: Split,
    rowBatch: int,
    colBatch: int)
  {
    function M(): nat { mUnits * MATRIX_UNIT }

    function N(): nat { nUnits * MATRIX_UNIT }

    predicate Valid() {
      && mUnits > 0 && nUnits > 0 && 0 < unrollM && 0 < unrollN <= REGISTER_MAX
      && (split.Both? ==> split.maxCols > 0)
    }
  }

  // ------------------------------------------------------------------------------------------
  // Hash tiles

  /** `x` halved until it is at most `cap`. */
  function Halved(x: nat, cap: nat): (r: nat)
    ensures r <= x && r <= cap && (x > 0 && cap > 0 ==> r > 0)
  {
    if x <= cap then x else Halved(x / 2, cap)
  }

  /** A multiple of the cap is cut straight to it. */
  function Cut(x: nat, cap: nat): (r: nat)
    requires cap > 0
    ensures r <= x && r <= cap && (x > 0 ==> r > 0)
  {
    if x > cap && x % cap == 0 then cap else Halved(x, cap)
  }

  /** A side that is no multiple of the cap is halved just as often as it takes. */
  lemma {:induction false} HalvedMeaning(x: nat, cap: nat) returns (e: nat)
    requires cap > 0
    ensures Halved(x, cap) == x / Pow2(e) && (e > 0 ==> x / Pow2(e - 1) > cap)
  {
    if x <= cap {
      e := 0;
    } else {
      e := HalvedMeaning(x / 2, cap);
      DivDiv(x, 2, Pow2(e));
      if e > 0 { DivDiv(x, 2, Pow2(e - 1)); } else { assert Pow2(0) == 1; }
      e := e + 1;
    }
  }

  lemma CutMeaning(x: nat, cap: nat)
    requires cap > 0
    ensures Cut(x, cap) == if x > cap && x % cap == 0 then cap else Halved(x, cap)
    ensures x <= cap ==> Cut(x, cap) == x
  {
  }

  method CutSide(x: nat, cap: nat) returns (sub: nat)
    requires cap > 0
    ensures sub == Cut(x, cap)
  {
    sub := if x > cap && x % cap == 0 then cap else x;
    while sub > cap
      invariant Halved(sub, cap) == Cut(x, cap)
    {
      sub := sub / 2;
    }
  }

  /** `m` halved until the tile has at most 256 cells. */
  method CutRows(m: nat, n: nat) returns (sub: nat)
    requires 0 < n <= REGISTER_MAX
    ensures sub == Halved(m, 256 / n)
  {
    ghost var cap := 256 / n;
    sub := m;
    FitsRows(sub, n);
    while sub * n > 256
      invariant sub * n > 256 <==> sub > cap
      invariant Halved(sub, cap) == Halved(m, cap)
      decreases sub
    {
      sub := sub / 2;
      FitsRows(sub, n);
    }
  }

  lemma FitsRows(m: nat, n: nat)
    requires n > 0
    ensures m * n <= 256 <==> m <= 256 / n
  {
    var q := 256 / n;
    assert 256 == n * q + 256 % n;
    if m <= q { MulMonotone(n, m, q); } else { MulMonotone(n, q + 1, m); MulDistributes(n, q, 1); }
  }

  function SubTileOf(s: Settings): (d: SubTile)
    requires s.Valid()
    ensures d.m > 0 && d.n > 0 && d.gridM > 0 && d.gridN > 0
  {
    if s.split.Native? || s.unrollM * s.unrollN < 256 then SubTile(s.unrollM, s.unrollN, 1, 1)
    else if s.split.Both? then
      var m, n := Cut(s.unrollM, 16), Cut(s.unrollN, s.split.maxCols);
      AtLeastOnce(s.unrollM, m);
      AtLeastOnce(s.unrollN, n);
      SubTile(m, n, s.unrollM / m, s.unrollN / n)
    else
      SomeRows(s.unrollN);
      var m := Halved(s.unrollM, 256 / s.unrollN);
      AtLeastOnce(s.unrollM, m);
      SubTile(m, s.unrollN, s.unrollM / m, 1)
  }

  lemma AtLeastOnce(x: nat, d: nat)
    requires 0 < d
    ensures d <= x ==> x / d >= 1
  {
    if d <= x {
      DivMonotone(d, x, d);
      DivUnique(d, d, 1, 0);
    }
  }

  lemma SomeRows(n: nat)
    requires 0 < n <= REGISTER_MAX
    ensures 256 / n > 0
  {
    AtLeastOnce(256, n);
  }

  /** `compute_xor_subtile_dims`. */
  method ComputeXorSubtileDims(s: Settings) returns (d: SubTile)
    requires s.Valid()
    ensures d == SubTileOf(s)
  {
    if s.split.Native? || s.unrollM * s.unrollN < 256 { return SubTile(s.unrollM, s.unrollN, 1, 1); }
    if s.split.Both? {
      var m := CutSide(s.unrollM, 16);
      var n := CutSide(s.unrollN, s.split.maxCols);
      d := SubTile(m, n, s.unrollM / m, s.unrollN / n);
    } else {
      SomeRows(s.unrollN);
      var m := CutRows(s.unrollM, s.unrollN);
      d := SubTile(m, s.unrollN, s.unrollM / m, 1);
    }
  }

  /** `cp_contiguous_tile_layout_for_shape`: a hash tile that proofs can express. */
  predicate Provable(d: SubTile) {
    (d.m, d.n) in {(4, 8), (4, 64), (8, 8), (8, 16), (16, 16)}
  }

  lemma ProvableShapes(d: SubTile)
    ensures Provable(d) <==>
              (d.m == 4 && (d.n == 8 || d.n == 64)) || (d.m == 8 && (d.n == 8 || d.n == 16)) || (d.m == d.n == 16)
  {
  }

  // ------------------------------------------------------------------------------------------
  // The checks

  function ClampBatch(batch: int): (r: nat)
    ensures 1 <= r <= ONEDNN_PERIOD_BATCH_MAX
  {
    if batch < 1 then 1 else if batch > ONEDNN_PERIOD_BATCH_MAX then ONEDNN_PERIOD_BATCH_MAX else batch
  }

  predicate SizesFit(s: Settings)
    requires s.Valid()
  {
    var d := SubTileOf(s);
    && s.unrollK > 0 && K_DIM % s.unrollK == 0 && (MILESTONE_K % s.unrollK == 0 || s.unrollK % MILESTONE_K == 0)
    && s.M() % s.unrollM == 0 && s.N() % s.unrollN == 0 && s.M() % d.m == 0 && s.N() % d.n == 0
    && PP_ROW_PERIOD % d.m == 0 && PP_COL_PERIOD % d.n == 0
  }

  /** The grid of accepted settings. */
  function GridOf(s: Settings): Grid
    requires s.Valid()
  {
    var d := SubTileOf(s);
    Grid(s.M() / d.m, s.N() / d.n, ClampBatch(s.rowBatch), ClampBatch(s.colBatch), d.gridM, d.gridN,
         if s.wgExpand > 0 then s.wgExpand else 1)
  }

  /** The register tile is a whole grid of hash tiles. */
  predicate Whole(s: Settings)
    requires s.Valid()
  {
    s.unrollM % SubTileOf(s).m == 0 && s.unrollN % SubTileOf(s).n == 0
  }

  /** `setup_dims_`, after the check that the hash tile is provable: the grid it sets up, or a refusal. */
  method SetupDims(s: Settings) returns (grid: Option<Grid>)
    requires s.Valid()
    ensures grid == if Provable(SubTileOf(s)) && SizesFit(s) then Some(GridOf(s)) else None
    ensures grid.Some? && Whole(s) ==> grid.value.Valid() && grid.value.rows >= 64 && grid.value.cols >= 16
  {
    var d := ComputeXorSubtileDims(s);
    var m, n := s.M(), s.N();
    if !Provable(d) { return None; }
    if s.unrollK == 0 || K_DIM % s.unrollK != 0 { return None; }
    if MILESTONE_K % s.unrollK != 0 && s.unrollK % MILESTONE_K != 0 { return None; }
    if m % s.unrollM != 0 || n % s.unrollN != 0 { return None; }
    if m % d.m != 0 || n % d.n != 0 { return None; }
    if PP_ROW_PERIOD % d.m != 0 || PP_COL_PERIOD % d.n != 0 { return None; }
    PeriodsFit(s.mUnits);
    PeriodsFit(s.nUnits);
    if m % PP_ROW_PERIOD != 0 || n % PP_COL_PERIOD != 0 { return None; }
    if Whole(s) { SetupIsValid(s); }
    grid := Some(Grid(m / d.m, n / d.n, ClampBatch(s.rowBatch), ClampBatch(s.colBatch), d.gridM, d.gridN,
                      if s.wgExpand > 0 then s.wgExpand else 1));
  }

  /** The check of the periods never refuses whole matrix units. */
  lemma PeriodsFit(units: nat)
    ensures units * MATRIX_UNIT % PP_ROW_PERIOD == 0 && units * MATRIX_UNIT % PP_COL_PERIOD == 0
  {
  }

  /** A side of whole register tiles is made of whole sub-grids. */
  lemma SideDivides(total: nat, unroll: nat, sub: nat)
    requires 0 < sub && 0 < unroll && unroll % sub == 0 && total % unroll == 0
    ensures total % sub == 0 && 0 < unroll / sub && total / sub % (unroll / sub) == 0
  {
    var g, q := unroll / sub, total / unroll;
    assert unroll == sub * g && total == unroll * q;
    MulAssociates(sub, g, q);
    DivUnique(total, sub, g * q, 0);
    DivUnique(g * q, g, q, 0);
  }

  lemma AtLeastUnits(units: nat, d: nat)
    requires units > 0 && 0 < d <= MATRIX_UNIT
    ensures units * MATRIX_UNIT / d >= MATRIX_UNIT / d
  {
    DivMonotone(MATRIX_UNIT, units * MATRIX_UNIT, d);
  }

  lemma SetupIsValid(s: Settings)
    requires s.Valid() && Provable(SubTileOf(s)) && SizesFit(s) && Whole(s)
    ensures GridOf(s).Valid() && GridOf(s).rows >= 64 && GridOf(s).cols >= 16
  {
    var d := SubTileOf(s);
    SideDivides(s.M(), s.unrollM, d.m);
    SideDivides(s.N(), s.unrollN, d.n);
    AtLeastUnits(s.mUnits, d.m);
    AtLeastUnits(s.nUnits, d.n);
    GridSides(s);
  }

  /** The tiles of the grid fill the matrix and the register tile, and the options are taken over. */
  lemma GridMeaning(s: Settings)
    requires s.Valid() && SizesFit(s) && Whole(s)
    ensures var (d, g) := (SubTileOf(s), GridOf(s));
            && g.rows * d.m == 1024 * s.mUnits && g.cols * d.n == 1024 * s.nUnits
            && g.gridM * d.m == s.unrollM && g.gridN * d.n == s.unrollN
            && (g.expand == 1 || g.expand == s.wgExpand > 1) && (s.wgExpand > 1 ==> g.expand == s.wgExpand)
            && (1 <= s.rowBatch <= 4096 ==> g.rowBatch == s.rowBatch)
            && (1 <= s.colBatch <= 4096 ==> g.colBatch == s.colBatch)
            && (s.rowBatch < 1 ==> g.rowBatch == 1) && (s.rowBatch > 4096 ==> g.rowBatch == 4096)
            && (s.colBatch < 1 ==> g.colBatch == 1) && (s.colBatch > 4096 ==> g.colBatch == 4096)
  {
    hide SubTileOf;
    GridSides(s);
    Exact(s.M(), SubTileOf(s).m);
    Exact(s.N(), SubTileOf(s).n);
    Exact(s.unrollM, SubTileOf(s).m);
    Exact(s.unrollN, SubTileOf(s).n);
  }

  lemma Exact(x: nat, d: nat)
    requires d > 0 && x % d == 0
    ensures x / d * d == x
  {
  }

  /** The sub-grid counts are the quotients in every way of cutting. */
  lemma GridSides(s: Settings)
    requires s.Valid() && Whole(s)
    ensures SubTileOf(s).gridM == s.unrollM / SubTileOf(s).m && SubTileOf(s).gridN == s.unrollN / SubTileOf(s).n
  {
    DivUnique(s.unrollM, s.unrollM, 1, 0);
    DivUnique(s.unrollN, s.unrollN, 1, 0);
  }

  // ------------------------------------------------------------------------------------------
  // A grid that over-counts

  /** The smallest matrices on a kernel with a register tile of 32x32, with `--row-period-batch 3`. */
  const UNALIGNED: Settings := Settings(1, 1, 32, 32, 32, 1, Both(16), 3, 512)

  lemma UnalignedIsSetUp()
    ensures UNALIGNED.Valid() && Provable(SubTileOf(UNALIGNED)) && SizesFit(UNALIGNED) && Whole(UNALIGNED)
    ensures GridOf(UNALIGNED) == Grid(64, 64, 3, 512, 2, 2, 1)
  {
    assert SubTileOf(UNALIGNED) == SubTile(16, 16, 2, 2);
  }

  lemma {:induction false} RowsOfThree(k: nat)
    requires k <= 21
    ensures LaunchedFrom(64, 3, 2, 63 - 3 * k) == 4 * k + 2
  {
    if k == 0 {
      assert LaunchedFrom(64, 3, 2, 66) == 0;
    } else {
      RowsOfThree(k - 1);
    }
  }

  lemma OneChunk(total: nat, batch: nat, grid: nat)
    requires 0 < total <= batch && grid > 0
    ensures LaunchedFrom(total, batch, grid, 0) == Launched(total, grid)
  {
    assert LaunchedFrom(total, batch, grid, batch) == 0;
  }

  /** 4096 tiles, of which 21 times three rows count as four and the last as two: 5504 are counted. */
  lemma UnalignedOvercounts()
    ensures UNALIGNED.Valid() && GridOf(UNALIGNED).Valid()
    ensures GridOf(UNALIGNED).rows * GridOf(UNALIGNED).cols == 4096 && ScanCount(GridOf(UNALIGNED)) == 5504
  {
    hide LaunchedFrom, SubTileOf;
    UnalignedIsSetUp();
    RowsOfThree(21);
    OneChunk(64, 512, 2);
  }
}
