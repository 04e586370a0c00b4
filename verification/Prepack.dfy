/**
 The blocked layout of a GEMM operand. A is stored by rows and B by columns, so one description
 serves both: a "line" is a row of A or a column of B, `height` is the register tile's side along the
 lines (kMR or kNR), `micro` the register tiles of a macro block along them.
 */
module Prepack {
  import opened Arith
  import opened MixedRadix
  import opened Layout

  type int8 = x: int | -128 <= x < 128

  datatype Blocks = Blocks(height: nat, micro: nat, groups: nat, blocksK: nat, macros: nat)
  {
    predicate Valid() { height > 0 && micro > 0 && groups > 0 && blocksK > 0 }

    function Kr(): nat { groups * RANK }
    function K(): nat { blocksK * groups * RANK }
    function Lines(): nat { macros * micro * height }

    function KgBytes(): nat { height * RANK }
    function Strip(): nat { micro * KgBytes() }
    function Block(): nat { groups * Strip() }
    function Panel(): nat { Kr() * height }
  }

  /** The six digits of a packed position, most significant first. */
  datatype Cell = Cell(im: nat, kb: nat, kg: nat, tr: nat, r: nat, ko: nat)

  predicate InRange(g: Blocks, c: Cell) {
    c.im < g.macros && c.kb < g.blocksK && c.kg < g.groups && c.tr < g.micro && c.r < g.height && c.ko < RANK
  }

  /** The number of the strip of `height * RANK` bytes that holds the cell. */
  function StripOf(g: Blocks, c: Cell): nat {
    Join(Join(Join(c.im, c.kb, g.blocksK), c.kg, g.groups), c.tr, g.micro)
  }

  function InStrip(c: Cell): nat { Join(c.r, c.ko, RANK) }

  /** Where the packed operand holds the cell. */
  function Packed(g: Blocks, c: Cell): nat { Join(StripOf(g, c), InStrip(c), g.KgBytes()) }

  function Line(g: Blocks, c: Cell): nat { Join(Join(c.im, c.tr, g.micro), c.r, g.height) }
  function Depth(g: Blocks, c: Cell): nat { Join(Join(c.kb, c.kg, g.groups), c.ko, RANK) }

  /** Where the line-major matrix holds it. */
  function Source(g: Blocks, c: Cell): nat { Join(Line(g, c), Depth(g, c), g.K()) }

  // ------------------------------------------------------------------------------------------
  // Both indices are bijections onto [0, Lines * K)

  function Digits(g: Blocks, p: nat): Cell
    requires g.Valid()
  {
    var strip, e := Hi(p, g.KgBytes()), Lo(p, g.KgBytes());
    var upper := Hi(strip, g.micro);
    var kblock := Hi(upper, g.groups);
    Cell(Hi(kblock, g.blocksK), Lo(kblock, g.blocksK), Lo(upper, g.groups), Lo(strip, g.micro), Hi(e, RANK),
         Lo(e, RANK))
  }

  function CellAt(g: Blocks, line: nat, k: nat): Cell
    requires g.Valid()
  {
    var tile, group := Hi(line, g.height), Hi(k, RANK);
    Cell(Hi(tile, g.micro), Hi(group, g.groups), Lo(group, g.groups), Lo(tile, g.micro), Lo(line, g.height),
         Lo(k, RANK))
  }

  lemma StripBound(g: Blocks, c: Cell)
    requires InRange(g, c)
    ensures StripOf(g, c) < g.macros * g.blocksK * g.groups * g.micro
    ensures InStrip(c) < g.KgBytes()
  {
    JoinBound(c.im, c.kb, g.macros, g.blocksK);
    JoinBound(Join(c.im, c.kb, g.blocksK), c.kg, g.macros * g.blocksK, g.groups);
    JoinBound(Join(Join(c.im, c.kb, g.blocksK), c.kg, g.groups), c.tr, g.macros * g.blocksK * g.groups, g.micro);
    JoinBound(c.r, c.ko, g.height, RANK);
  }

  lemma SizesAgree(g: Blocks)
    ensures g.macros * g.blocksK * g.groups * g.micro * g.KgBytes() == g.Lines() * g.K()
  {
    var (m, b, q, t, h) := (g.macros, g.blocksK, g.groups, g.micro, g.height);
    calc {
      m * b * q * t * (h * RANK);
      m * (b * q) * t * (h * RANK);
      { MulAssociates(m * (b * q), t, h * RANK); }
      m * (b * q) * (t * (h * RANK));
      { MulAssociates(t, h, RANK); }
      m * (b * q) * (t * h * RANK);
      { Shuffle(m, b * q, t * h); }
      m * (t * h) * (b * q * RANK);
      { MulAssociates(m, t, h); }
      m * t * h * (b * q * RANK);
    }
  }

  lemma Shuffle(m: int, x: int, y: int)
    ensures m * x * (y * RANK) == m * y * (x * RANK)
  {
    MulAssociates(m, x, y);
    MulAssociates(m, y, x);
  }

  lemma PackedDigits(g: Blocks, c: Cell)
    requires g.Valid() && InRange(g, c)
    ensures Digits(g, Packed(g, c)) == c && Packed(g, c) < g.Lines() * g.K()
  {
    StripBound(g, c);
    SizesAgree(g);
    JoinBound(StripOf(g, c), InStrip(c), g.macros * g.blocksK * g.groups * g.micro, g.KgBytes());
    JoinSplit(StripOf(g, c), InStrip(c), g.KgBytes());
    JoinSplit(Join(Join(c.im, c.kb, g.blocksK), c.kg, g.groups), c.tr, g.micro);
    JoinSplit(Join(c.im, c.kb, g.blocksK), c.kg, g.groups);
    JoinSplit(c.im, c.kb, g.blocksK);
    JoinSplit(c.r, c.ko, RANK);
  }

  lemma StripDigits(g: Blocks, strip: nat)
    requires g.Valid() && strip < g.macros * g.blocksK * g.groups * g.micro
    ensures var upper := Hi(strip, g.micro);
            var kblock := Hi(upper, g.groups);
            && Hi(kblock, g.blocksK) < g.macros && Lo(kblock, g.blocksK) < g.blocksK
            && Lo(upper, g.groups) < g.groups && Lo(strip, g.micro) < g.micro
            && Join(Join(Join(Hi(kblock, g.blocksK), Lo(kblock, g.blocksK), g.blocksK), Lo(upper, g.groups), g.groups),
                    Lo(strip, g.micro), g.micro) == strip
  {
    hide Join, Hi, Lo;
    var upper := Hi(strip, g.micro);
    SplitJoin(strip, g.macros * g.blocksK * g.groups, g.micro);
    SplitJoin(upper, g.macros * g.blocksK, g.groups);
    SplitJoin(Hi(upper, g.groups), g.macros, g.blocksK);
  }

  lemma DigitsPacked(g: Blocks, p: nat)
    requires g.Valid() && p < g.Lines() * g.K()
    ensures InRange(g, Digits(g, p)) && Packed(g, Digits(g, p)) == p
  {
    hide Join, Hi, Lo;
    SizesAgree(g);
    SplitJoin(p, g.macros * g.blocksK * g.groups * g.micro, g.KgBytes());
    StripDigits(g, Hi(p, g.KgBytes()));
    SplitJoin(Lo(p, g.KgBytes()), g.height, RANK);
  }

  lemma CellOfLine(g: Blocks, line: nat, k: nat)
    requires g.Valid() && line < g.Lines() && k < g.K()
    ensures var c := CellAt(g, line, k); InRange(g, c) && Line(g, c) == line && Depth(g, c) == k
  {
    SplitJoin(line, g.macros * g.micro, g.height);
    SplitJoin(Hi(line, g.height), g.macros, g.micro);
    SplitJoin(k, g.blocksK * g.groups, RANK);
    SplitJoin(Hi(k, RANK), g.blocksK, g.groups);
  }

  lemma LineOfCell(g: Blocks, c: Cell)
    requires g.Valid() && InRange(g, c)
    ensures CellAt(g, Line(g, c), Depth(g, c)) == c && Line(g, c) < g.Lines() && Depth(g, c) < g.K()
    ensures Source(g, c) < g.Lines() * g.K()
  {
    JoinSplit(Join(c.im, c.tr, g.micro), c.r, g.height);
    JoinSplit(c.im, c.tr, g.micro);
    JoinSplit(Join(c.kb, c.kg, g.groups), c.ko, RANK);
    JoinSplit(c.kb, c.kg, g.groups);
    JoinBound(c.im, c.tr, g.macros, g.micro);
    JoinBound(Join(c.im, c.tr, g.micro), c.r, g.macros * g.micro, g.height);
    JoinBound(c.kb, c.kg, g.blocksK, g.groups);
    JoinBound(Join(c.kb, c.kg, g.groups), c.ko, g.blocksK * g.groups, RANK);
    JoinBound(Line(g, c), Depth(g, c), g.Lines(), g.K());
  }

  /** Each entry of the matrix has exactly one place in the packed operand. */
  lemma PackingIsBijective(g: Blocks, line: nat, k: nat, p: nat)
    requires g.Valid() && line < g.Lines() && k < g.K() && p < g.Lines() * g.K()
    ensures p == Packed(g, CellAt(g, line, k)) <==> line == Line(g, Digits(g, p)) && k == Depth(g, Digits(g, p))
    ensures Packed(g, CellAt(g, line, k)) < g.Lines() * g.K()
    ensures Line(g, Digits(g, p)) < g.Lines() && Depth(g, Digits(g, p)) < g.K()
  {
    CellOfLine(g, line, k);
    PackedDigits(g, CellAt(g, line, k));
    DigitsPacked(g, p);
    LineOfCell(g, Digits(g, p));
  }

  // ------------------------------------------------------------------------------------------
  // Packing

  predicate Copied(src: seq<int8>, k: nat, line: nat, depth: nat, tile: seq<int8>, at: nat) {
    && Join(line, depth, k) < |src|
    && at < |tile|
    && tile[at] == src[Join(line, depth, k)]
  }

  /** `height` lines from `line0`, RANK steps of depth from `k0`, line by line. */
  predicate GroupHolds(src: seq<int8>, k: nat, line0: nat, k0: nat, height: nat, tile: seq<int8>, at: nat) {
    forall r: nat, ko: nat :: r < height && ko < RANK ==>
      Copied(src, k, line0 + r, k0 + ko, tile, at + Join(r, ko, RANK))
  }

  method PackGroup(src: seq<int8>, k: nat, line0: nat, k0: nat, height: nat, tile: array<int8>, at: nat)
    requires k0 + RANK <= k && (line0 + height) * k <= |src|
    requires at + height * RANK <= tile.Length
    modifies tile
    ensures GroupHolds(src, k, line0, k0, height, tile[..], at)
    ensures forall i :: 0 <= i < at || at + height * RANK <= i < tile.Length ==> tile[i] == old(tile[i])
  {
    for r := 0 to height
      invariant GroupHolds(src, k, line0, k0, r, tile[..], at)
      invariant forall i :: 0 <= i < at || at + r * RANK <= i < tile.Length ==> tile[i] == old(tile[i])
    {
      JoinBound(line0 + r, k0 + RANK - 1, line0 + height, k);
      ghost var before := tile[..];
      for ko := 0 to RANK
        invariant tile[..at + r * RANK] == before[..at + r * RANK]
        invariant forall i: nat :: i < ko ==> tile[at + Join(r, i, RANK)] == src[Join(line0 + r, k0 + i, k)]
        invariant forall i :: at + r * RANK + ko <= i < tile.Length ==> tile[i] == before[i]
      {
        tile[at + r * RANK + ko] := src[(line0 + r) * k + (k0 + ko)];
      }
      GroupExtends(src, k, line0, k0, r, before, tile[..], at);
    }
  }

  lemma GroupExtends(src: seq<int8>, k: nat, line0: nat, k0: nat, r: nat, before: seq<int8>, tile: seq<int8>, at: nat)
    requires GroupHolds(src, k, line0, k0, r, before, at)
    requires at + r * RANK + RANK <= |tile| == |before| && tile[..at + r * RANK] == before[..at + r * RANK]
    requires (line0 + r) * k + k0 + RANK <= |src|
    requires forall i: nat :: i < RANK ==> tile[at + Join(r, i, RANK)] == src[Join(line0 + r, k0 + i, k)]
    ensures GroupHolds(src, k, line0, k0, r + 1, tile, at)
  {
    forall r': nat, ko: nat | r' < r + 1 && ko < RANK
      ensures Copied(src, k, line0 + r', k0 + ko, tile, at + Join(r', ko, RANK))
    {
      if r' < r {
        assert Copied(src, k, line0 + r', k0 + ko, before, at + Join(r', ko, RANK));
        assert at + Join(r', ko, RANK) < at + r * RANK;
        assert tile[at + Join(r', ko, RANK)] == before[at + Join(r', ko, RANK)];
      }
    }
  }

  lemma GroupKept(src: seq<int8>, k: nat, line0: nat, k0: nat, height: nat, was: seq<int8>, at: nat, now: seq<int8>,
                  at': nat)
    requires GroupHolds(src, k, line0, k0, height, was, at)
    requires at + height * RANK <= |was| && at' + height * RANK <= |now|
    requires now[at'..at' + height * RANK] == was[at..at + height * RANK]
    ensures GroupHolds(src, k, line0, k0, height, now, at')
  {
    forall r: nat, ko: nat | r < height && ko < RANK
      ensures Copied(src, k, line0 + r, k0 + ko, now, at' + Join(r, ko, RANK))
    {
      assert Copied(src, k, line0 + r, k0 + ko, was, at + Join(r, ko, RANK));
      JoinBound(r, ko, height, RANK);
      var e := Join(r, ko, RANK);
      assert now[at' + e] == now[at'..at' + height * RANK][e] == was[at..at + height * RANK][e] == was[at + e];
    }
  }

  function GroupStart(g: Blocks, kg: nat): nat { kg * g.KgBytes() }

  lemma GroupsFollow(g: Blocks, q: nat, kg: nat)
    requires q < kg
    ensures GroupStart(g, q) + g.KgBytes() == GroupStart(g, q + 1) <= GroupStart(g, kg)
  {
    MulMonotone(g.KgBytes(), q + 1, kg);
  }

  /** The first `n` groups of a panel, one after the other. */
  predicate PanelHolds(src: seq<int8>, g: Blocks, line0: nat, kBase: nat, n: nat, tile: seq<int8>, at: nat) {
    forall kg: nat :: kg < n ==>
      GroupHolds(src, g.K(), line0, kBase + kg * RANK, g.height, tile, at + GroupStart(g, kg))
  }

  lemma PanelExtends(src: seq<int8>, g: Blocks, line0: nat, kBase: nat, n: nat, was: seq<int8>, now: seq<int8>, at: nat)
    requires PanelHolds(src, g, line0, kBase, n, was, at)
    requires GroupHolds(src, g.K(), line0, kBase + n * RANK, g.height, now, at + GroupStart(g, n))
    requires at + GroupStart(g, n) <= |was| == |now|
    requires now[..at + GroupStart(g, n)] == was[..at + GroupStart(g, n)]
    ensures PanelHolds(src, g, line0, kBase, n + 1, now, at)
  {
    hide GroupHolds, GroupStart;
    forall kg: nat | kg < n
      ensures GroupHolds(src, g.K(), line0, kBase + kg * RANK, g.height, now, at + GroupStart(g, kg))
    {
      GroupsFollow(g, kg, n);
      assert GroupHolds(src, g.K(), line0, kBase + kg * RANK, g.height, was, at + GroupStart(g, kg));
      var (from, to) := (at + GroupStart(g, kg), at + GroupStart(g, n));
      assert now[from..from + g.KgBytes()] == now[..to][from..from + g.KgBytes()];
      assert was[from..from + g.KgBytes()] == was[..to][from..from + g.KgBytes()];
      GroupKept(src, g.K(), line0, kBase + kg * RANK, g.height, was, from, now, from);
    }
  }

  method PackPanel(src: seq<int8>, g: Blocks, line0: nat, kBase: nat, tile: array<int8>, at: nat)
    requires kBase + g.Kr() <= g.K() && (line0 + g.height) * g.K() <= |src|
    requires at + GroupStart(g, g.groups) <= tile.Length
    modifies tile
    ensures PanelHolds(src, g, line0, kBase, g.groups, tile[..], at)
    ensures forall i :: 0 <= i < at || at + GroupStart(g, g.groups) <= i < tile.Length ==> tile[i] == old(tile[i])
  {
    hide GroupHolds, GroupStart;
    var end := GroupStart(g, g.groups);
    for kg := 0 to g.groups
      invariant PanelHolds(src, g, line0, kBase, kg, tile[..], at)
      invariant forall i :: 0 <= i < at || at + end <= i < tile.Length ==> tile[i] == old(tile[i])
    {
      GroupsFollow(g, kg, g.groups);
      ghost var before := tile[..];
      PackGroup(src, g.K(), line0, kBase + kg * RANK, g.height, tile, at + GroupStart(g, kg));
      PanelExtends(src, g, line0, kBase, kg, before, tile[..], at);
    }
  }

  method CopyBytes(dst: array<int8>, at: nat, src: array<int8>, from: nat, n: nat)
    requires dst != src && at + n <= dst.Length && from + n <= src.Length
    modifies dst
    ensures dst[at..at + n] == src[from..from + n]
    ensures forall i :: 0 <= i < at || at + n <= i < dst.Length ==> dst[i] == old(dst[i])
  {
    forall i | 0 <= i < n { dst[at + i] := src[from + i]; }
  }

  /** The packed operand holds every cell of its first `strips` strips. */
  ghost predicate PackedUpTo(g: Blocks, src: seq<int8>, out: seq<int8>, strips: nat) {
    forall c: Cell :: InRange(g, c) && StripOf(g, c) < strips ==>
      Copied(src, g.K(), Line(g, c), Depth(g, c), out, Packed(g, c))
  }

  lemma StripAdded(g: Blocks, src: seq<int8>, was: seq<int8>, now: seq<int8>, im: nat, kb: nat, kg: nat, tr: nat)
    requires g.Valid() && InRange(g, Cell(im, kb, kg, tr, 0, 0))
    requires var strip := StripOf(g, Cell(im, kb, kg, tr, 0, 0));
             && PackedUpTo(g, src, was, strip)
             && strip * g.KgBytes() <= |now| == |was|
             && now[..strip * g.KgBytes()] == was[..strip * g.KgBytes()]
             && GroupHolds(src, g.K(), Join(im, tr, g.micro) * g.height, Join(kb, kg, g.groups) * RANK, g.height, now,
                           strip * g.KgBytes())
    ensures PackedUpTo(g, src, now, StripOf(g, Cell(im, kb, kg, tr, 0, 0)) + 1)
  {
    var strip := StripOf(g, Cell(im, kb, kg, tr, 0, 0));
    forall c: Cell | InRange(g, c) && StripOf(g, c) < strip + 1
      ensures Copied(src, g.K(), Line(g, c), Depth(g, c), now, Packed(g, c))
    {
      StripBound(g, c);
      if StripOf(g, c) < strip {
        JoinOrder(StripOf(g, c), InStrip(c), strip, 0, g.KgBytes());
        assert now[..strip * g.KgBytes()][Packed(g, c)] == was[..strip * g.KgBytes()][Packed(g, c)];
      } else {
        JoinInjective(Join(Join(im, kb, g.blocksK), kg, g.groups), tr,
                      Join(Join(c.im, c.kb, g.blocksK), c.kg, g.groups), c.tr, g.micro);
        JoinInjective(Join(im, kb, g.blocksK), kg, Join(c.im, c.kb, g.blocksK), c.kg, g.groups);
        JoinInjective(im, kb, c.im, c.kb, g.blocksK);
        assert Copied(src, g.K(), Join(im, tr, g.micro) * g.height + c.r, Join(kb, kg, g.groups) * RANK + c.ko, now,
                      strip * g.KgBytes() + Join(c.r, c.ko, RANK));
      }
    }
  }

  /** The source's destination offset is the start of the strip. */
  lemma StripStart(g: Blocks, im: nat, kb: nat, kg: nat, tr: nat)
    ensures (im * g.blocksK + kb) * g.Block() + kg * g.Strip() + tr * g.KgBytes()
            == StripOf(g, Cell(im, kb, kg, tr, 0, 0)) * g.KgBytes()
  {
    var u := im * g.blocksK + kb;
    MulAssociates(u, g.groups, g.Strip());
    MulAssociates(u * g.groups + kg, g.micro, g.KgBytes());
    MulDistributes(g.Strip(), u * g.groups, kg);
    MulDistributes(g.KgBytes(), (u * g.groups + kg) * g.micro, tr);
  }

  lemma PanelInside(g: Blocks, c: Cell)
    requires g.Valid() && InRange(g, c)
    ensures c.kb * g.Kr() + g.Kr() <= g.K()
    ensures ((c.im * g.micro + c.tr) * g.height + g.height) * g.K() <= g.Lines() * g.K()
  {
    MulMonotone(g.Kr(), c.kb + 1, g.blocksK);
    MulDistributes(g.Kr(), c.kb, 1);
    MulAssociates(g.blocksK, g.groups, RANK);
    JoinBound(c.im, c.tr, g.macros, g.micro);
    var tile := c.im * g.micro + c.tr;
    MulMonotone(g.height, tile + 1, g.macros * g.micro);
    MulDistributes(g.height, tile, 1);
    MulMonotone(g.K(), tile * g.height + g.height, g.Lines());
  }

  lemma StripInside(g: Blocks, c: Cell)
    requires g.Valid() && InRange(g, c)
    ensures StripOf(g, c) * g.KgBytes() + g.KgBytes() <= g.Lines() * g.K()
    ensures GroupStart(g, g.groups) == g.Panel()
    ensures GroupStart(g, c.kg) + g.KgBytes() <= g.Panel()
  {
    StripBound(g, c);
    SizesAgree(g);
    MulMonotone(g.KgBytes(), StripOf(g, c) + 1, g.macros * g.blocksK * g.groups * g.micro);
    MulDistributes(g.KgBytes(), StripOf(g, c), 1);
    MulAssociates(g.groups, RANK, g.height);
    GroupsFollow(g, c.kg, g.groups);
  }

  /** The body of the packing loops: the panel of one register tile, of which one group is kept. */
  method PackStrip(src: seq<int8>, g: Blocks, im: nat, kb: nat, kg: nat, tr: nat, out: array<int8>)
    requires g.Valid() && InRange(g, Cell(im, kb, kg, tr, 0, 0))
    requires |src| == out.Length == g.Lines() * g.K()
    requires PackedUpTo(g, src, out[..], StripOf(g, Cell(im, kb, kg, tr, 0, 0)))
    modifies out
    ensures PackedUpTo(g, src, out[..], StripOf(g, Cell(im, kb, kg, tr, 0, 0)) + 1)
  {
    hide GroupHolds, PackedUpTo, GroupStart, StripOf;
    ghost var c := Cell(im, kb, kg, tr, 0, 0);
    ghost var before := out[..];
    var line0 := (im * g.micro + tr) * g.height;
    var dst := (im * g.blocksK + kb) * g.Block() + kg * g.Strip() + tr * g.KgBytes();
    StripStart(g, im, kb, kg, tr);
    PanelInside(g, c);
    StripInside(g, c);
    var tmp := new int8[g.Panel()];
    PackPanel(src, g, line0, kb * g.Kr(), tmp, 0);
    CopyBytes(out, dst, tmp, GroupStart(g, kg), g.KgBytes());
    GroupKept(src, g.K(), line0, kb * g.Kr() + kg * RANK, g.height, tmp[..], GroupStart(g, kg), out[..], dst);
    GroupDepth(g, kb, kg);
    StripAdded(g, src, before, out[..], im, kb, kg, tr);
  }

  lemma GroupDepth(g: Blocks, kb: nat, kg: nat)
    ensures kb * g.Kr() + kg * RANK == Join(kb, kg, g.groups) * RANK
  {
    MulAssociates(kb, g.groups, RANK);
  }

  function Strips(g: Blocks): nat { g.macros * g.blocksK * g.groups * g.micro }

  /** Every cell of the matrix stands at its packed place. */
  ghost predicate IsPacked(g: Blocks, src: seq<int8>, out: seq<int8>) {
    |src| == |out| == g.Lines() * g.K() && PackedUpTo(g, src, out, Strips(g))
  }

  method PackGroupRow(src: seq<int8>, g: Blocks, im: nat, kb: nat, kg: nat, out: array<int8>)
    requires g.Valid() && InRange(g, Cell(im, kb, kg, 0, 0, 0))
    requires |src| == out.Length == g.Lines() * g.K()
    requires PackedUpTo(g, src, out[..], StripOf(g, Cell(im, kb, kg, 0, 0, 0)))
    modifies out
    ensures PackedUpTo(g, src, out[..], StripOf(g, Cell(im, kb, kg + 1, 0, 0, 0)))
  {
    hide PackedUpTo;
    for tr := 0 to g.micro
      invariant PackedUpTo(g, src, out[..], StripOf(g, Cell(im, kb, kg, tr, 0, 0)))
    {
      PackStrip(src, g, im, kb, kg, tr, out);
    }
    JoinNext(Join(Join(im, kb, g.blocksK), kg, g.groups), g.micro);
  }

  method PackBlock(src: seq<int8>, g: Blocks, im: nat, kb: nat, out: array<int8>)
    requires g.Valid() && InRange(g, Cell(im, kb, 0, 0, 0, 0))
    requires |src| == out.Length == g.Lines() * g.K()
    requires PackedUpTo(g, src, out[..], StripOf(g, Cell(im, kb, 0, 0, 0, 0)))
    modifies out
    ensures PackedUpTo(g, src, out[..], StripOf(g, Cell(im, kb + 1, 0, 0, 0, 0)))
  {
    hide PackedUpTo;
    for kg := 0 to g.groups
      invariant PackedUpTo(g, src, out[..], StripOf(g, Cell(im, kb, kg, 0, 0, 0)))
    {
      PackGroupRow(src, g, im, kb, kg, out);
    }
    JoinNext(Join(im, kb, g.blocksK), g.groups);
  }

  /** The coalesced packing of either operand. */
  method PrepackCoalesced(src: seq<int8>, g: Blocks) returns (out: array<int8>)
    requires g.Valid() && |src| == g.Lines() * g.K()
    ensures fresh(out) && IsPacked(g, src, out[..])
  {
    hide StripOf;
    out := new int8[g.Lines() * g.K()](_ => 0);
    StripsBefore(g, 0);
    for im := 0 to g.macros
      invariant PackedUpTo(g, src, out[..], StripOf(g, Cell(im, 0, 0, 0, 0, 0)))
    {
      hide PackedUpTo;
      for kb := 0 to g.blocksK
        invariant PackedUpTo(g, src, out[..], StripOf(g, Cell(im, kb, 0, 0, 0, 0)))
      {
        PackBlock(src, g, im, kb, out);
      }
      StripsBefore(g, im);
    }
    StripsBefore(g, g.macros);
  }

  lemma StripsBefore(g: Blocks, im: nat)
    ensures StripOf(g, Cell(im, g.blocksK, 0, 0, 0, 0)) == StripOf(g, Cell(im + 1, 0, 0, 0, 0, 0))
    ensures StripOf(g, Cell(0, 0, 0, 0, 0, 0)) == 0
    ensures StripOf(g, Cell(g.macros, 0, 0, 0, 0, 0)) == Strips(g)
  {
    JoinNext(im, g.blocksK);
  }

  /** Every entry of the matrix, and nothing else, is in the packed operand. */
  lemma PackedHoldsMatrix(g: Blocks, src: seq<int8>, out: seq<int8>, line: nat, k: nat)
    requires g.Valid() && IsPacked(g, src, out) && line < g.Lines() && k < g.K()
    ensures var p := Packed(g, CellAt(g, line, k));
            p < |out| && Join(line, k, g.K()) < |src| && out[p] == src[Join(line, k, g.K())]
  {
    var c := CellAt(g, line, k);
    CellOfLine(g, line, k);
    StripBound(g, c);
    assert Copied(src, g.K(), Line(g, c), Depth(g, c), out, Packed(g, c));
  }

  // ------------------------------------------------------------------------------------------
  // The plain packing: one register tile after the other. It is the coalesced layout of a macro block
  // of a single register tile.

  function OneTileBlocks(height: nat, groups: nat, blocksK: nat, tiles: nat): Blocks {
    Blocks(height, 1, groups, blocksK, tiles)
  }

  lemma {:induction false} PanelAdded(g: Blocks, src: seq<int8>, was: seq<int8>, now: seq<int8>, tile: nat, kb: nat,
                                      n: nat)
    requires g.Valid() && g.micro == 1 && tile < g.macros && kb < g.blocksK && n <= g.groups
    requires var start := StripOf(g, Cell(tile, kb, 0, 0, 0, 0)) * g.KgBytes();
             && PackedUpTo(g, src, was, StripOf(g, Cell(tile, kb, 0, 0, 0, 0)))
             && start + GroupStart(g, g.groups) <= |now| == |was|
             && now[..start] == was[..start]
             && PanelHolds(src, g, tile * g.height, kb * g.Kr(), g.groups, now, start)
    ensures PackedUpTo(g, src, now, StripOf(g, Cell(tile, kb, n, 0, 0, 0)))
  {
    hide GroupHolds;
    var strip := StripOf(g, Cell(tile, kb, 0, 0, 0, 0));
    if n == 0 {
      PackedPrefix(g, src, was, now, strip);
    } else {
      PanelAdded(g, src, was, now, tile, kb, n - 1);
      var at := StripOf(g, Cell(tile, kb, n - 1, 0, 0, 0));
      assert at == strip + (n - 1);
      MulDistributes(g.KgBytes(), strip, n - 1);
      assert at * g.KgBytes() == strip * g.KgBytes() + GroupStart(g, n - 1);
      GroupsFollow(g, n - 1, g.groups);
      GroupDepth(g, kb, n - 1);
      StripAdded(g, src, now, now, tile, kb, n - 1, 0);
    }
  }

  lemma PackedPrefix(g: Blocks, src: seq<int8>, was: seq<int8>, now: seq<int8>, strips: nat)
    requires PackedUpTo(g, src, was, strips) && strips * g.KgBytes() <= |now| == |was|
    requires now[..strips * g.KgBytes()] == was[..strips * g.KgBytes()]
    ensures PackedUpTo(g, src, now, strips)
  {
    forall c: Cell | InRange(g, c) && StripOf(g, c) < strips
      ensures Copied(src, g.K(), Line(g, c), Depth(g, c), now, Packed(g, c))
    {
      StripBound(g, c);
      JoinOrder(StripOf(g, c), InStrip(c), strips, 0, g.KgBytes());
      assert now[..strips * g.KgBytes()][Packed(g, c)] == was[..strips * g.KgBytes()][Packed(g, c)];
    }
  }

  method PackTilePanel(src: seq<int8>, g: Blocks, tile: nat, kb: nat, out: array<int8>)
    requires g.Valid() && g.micro == 1 && tile < g.macros && kb < g.blocksK
    requires |src| == out.Length == g.Lines() * g.K()
    requires PackedUpTo(g, src, out[..], StripOf(g, Cell(tile, kb, 0, 0, 0, 0)))
    modifies out
    ensures PackedUpTo(g, src, out[..], StripOf(g, Cell(tile, kb + 1, 0, 0, 0, 0)))
  {
    hide PackedUpTo, PanelHolds;
    ghost var before := out[..];
    ghost var c := Cell(tile, kb, 0, 0, 0, 0);
    var idx := (tile * g.blocksK + kb) * g.Panel();
    PanelInside(g, c);
    PanelStart(g, tile, kb);
    PackPanel(src, g, tile * g.height, kb * g.Kr(), out, idx);
    PanelAdded(g, src, before, out[..], tile, kb, g.groups);
    JoinNext(Join(tile, kb, g.blocksK), g.groups);
  }

  lemma PanelStart(g: Blocks, tile: nat, kb: nat)
    requires g.Valid() && g.micro == 1 && tile < g.macros && kb < g.blocksK
    ensures (tile * g.blocksK + kb) * g.Panel() == StripOf(g, Cell(tile, kb, 0, 0, 0, 0)) * g.KgBytes()
    ensures (tile * g.blocksK + kb) * g.Panel() + GroupStart(g, g.groups) <= g.Lines() * g.K()
  {
    var u := tile * g.blocksK + kb;
    MulAssociates(g.groups, RANK, g.height);
    MulAssociates(u, g.groups, g.KgBytes());
    StripInside(g, Cell(tile, kb, g.groups - 1, 0, 0, 0));
    var last := StripOf(g, Cell(tile, kb, g.groups - 1, 0, 0, 0));
    MulDistributes(g.KgBytes(), u * g.groups, g.groups - 1);
    MulDistributes(g.KgBytes(), g.groups - 1, 1);
  }

  method PrepackAll(src: seq<int8>, height: nat, groups: nat, blocksK: nat, tiles: nat) returns (out: array<int8>)
    requires var g := OneTileBlocks(height, groups, blocksK, tiles);
             g.Valid() && |src| == g.Lines() * g.K()
    ensures fresh(out) && IsPacked(OneTileBlocks(height, groups, blocksK, tiles), src, out[..])
  {
    hide StripOf;
    var g := OneTileBlocks(height, groups, blocksK, tiles);
    out := new int8[g.Lines() * g.K()](_ => 0);
    StripsBefore(g, 0);
    for tile := 0 to tiles
      invariant PackedUpTo(g, src, out[..], StripOf(g, Cell(tile, 0, 0, 0, 0, 0)))
    {
      hide PackedUpTo;
      for kb := 0 to blocksK
        invariant PackedUpTo(g, src, out[..], StripOf(g, Cell(tile, kb, 0, 0, 0, 0)))
      {
        PackTilePanel(src, g, tile, kb, out);
      }
      StripsBefore(g, tile);
    }
    StripsBefore(g, tiles);
  }
}
