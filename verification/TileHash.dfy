/** What a hash tile's milestone value is: the exclusive or of its dot products so far. */
module TileHash {
  import opened Arith
  import opened Bits
  import opened MixedRadix
  import opened Prepack

  /** The machine word of a 32-bit accumulator. */
  function Word(x: int): uint32 {
    x % TWO32
  }

  function Entry(s: seq<int8>, k: nat, line: nat, depth: nat): int {
    if Join(line, depth, k) < |s| then s[Join(line, depth, k)] else 0
  }

  /** Row `i` of A times column `j` of B over the first `depth` steps. */
  function Dot(a: seq<int8>, b: seq<int8>, k: nat, i: nat, j: nat, depth: nat): int {
    if depth == 0 then 0
    else Dot(a, b, k, i, j, depth - 1) + Entry(a, k, i, depth - 1) * Entry(b, k, j, depth - 1)
  }

  /** A 32-bit accumulator holds every partial sum as long as the depth is below 2^17. */
  lemma {:induction false} DotFitsInt32(a: seq<int8>, b: seq<int8>, k: nat, i: nat, j: nat, depth: nat)
    requires depth < 0x2_0000
    ensures -0x8000_0000 <= Dot(a, b, k, i, j, depth) < 0x8000_0000
    ensures -0x4000 * depth <= Dot(a, b, k, i, j, depth) <= 0x4000 * depth
  {
    if depth > 0 {
      DotFitsInt32(a, b, k, i, j, depth - 1);
      ProductBound(Entry(a, k, i, depth - 1), Entry(b, k, j, depth - 1));
    }
  }

  lemma ProductBound(x: int, y: int)
    requires -128 <= x < 128 && -128 <= y < 128
    ensures -0x4000 <= x * y <= 0x4000
  {
    MulMonotone(if x >= 0 then x else -x, -128, y);
    MulMonotone(if x >= 0 then x else -x, y, 128);
    MulMonotone(128, if x >= 0 then x else -x, 128);
  }

  /** The exclusive or over the first `n` cells, column by column, of a tile `mr` rows high. */
  function CellsXor(a: seq<int8>, b: seq<int8>, k: nat, row0: nat, col0: nat, mr: nat, depth: nat, n: nat): uint32
    requires mr > 0
  {
    if n == 0 then 0
    else Xor32(CellsXor(a, b, k, row0, col0, mr, depth, n - 1),
               Word(Dot(a, b, k, row0 + Lo(n - 1, mr), col0 + Hi(n - 1, mr), depth)))
  }

  /** Tiles side by side: their values combine to that of the wider tile. */
  lemma {:induction false} CellsXorSideBySide(a: seq<int8>, b: seq<int8>, k: nat, row0: nat, col0: nat, mr: nat,
                                              depth: nat, cols: nat, n: nat)
    requires mr > 0
    ensures CellsXor(a, b, k, row0, col0, mr, depth, cols * mr + n)
            == Xor32(CellsXor(a, b, k, row0, col0, mr, depth, cols * mr),
                     CellsXor(a, b, k, row0, col0 + cols, mr, depth, n))
  {
    hide Word, Dot, Lo, Hi, Xor;
    if n > 0 {
      CellsXorSideBySide(a, b, k, row0, col0, mr, depth, cols, n - 1);
      SplitFollows(cols, n - 1, mr);
      XorAssociates(CellsXor(a, b, k, row0, col0, mr, depth, cols * mr),
                    CellsXor(a, b, k, row0, col0 + cols, mr, depth, n - 1),
                    Word(Dot(a, b, k, row0 + Lo(n - 1, mr), col0 + cols + Hi(n - 1, mr), depth)));
    } else {
      XorZero(CellsXor(a, b, k, row0, col0, mr, depth, cols * mr));
    }
  }

  lemma SplitFollows(cols: nat, e: nat, mr: nat)
    requires mr > 0
    ensures Lo(cols * mr + e, mr) == Lo(e, mr) && Hi(cols * mr + e, mr) == cols + Hi(e, mr)
  {
    assert e == mr * (e / mr) + e % mr;
    MulDistributes(mr, cols, e / mr);
    DivUnique(cols * mr + e, mr, cols + e / mr, e % mr);
  }

  /** `xor_tile_host` of the first `n` accumulators. */
  function XorOf(cells: seq<int>, n: nat): uint32
    requires n <= |cells|
  {
    if n == 0 then 0 else Xor32(XorOf(cells, n - 1), Word(cells[n - 1]))
  }

  method XorTileHost(cells: array<int>) returns (x: uint32)
    ensures x == XorOf(cells[..], cells.Length)
  {
    hide Word;
    x := 0;
    for i := 0 to cells.Length
      invariant x == XorOf(cells[..], i)
    {
      x := Xor32(x, Word(cells[i]));
    }
  }

  /** The accumulators of a tile, column by column. */
  ghost predicate HoldsDots(cells: seq<int>, a: seq<int8>, b: seq<int8>, k: nat, row0: nat, col0: nat, mr: nat,
                            depth: nat)
    requires mr > 0
  {
    forall e: nat :: e < |cells| ==> cells[e] == Dot(a, b, k, row0 + Lo(e, mr), col0 + Hi(e, mr), depth)
  }

  lemma {:induction false} XorOfDots(cells: seq<int>, a: seq<int8>, b: seq<int8>, k: nat, row0: nat, col0: nat,
                                     mr: nat, depth: nat, n: nat)
    requires mr > 0 && n <= |cells| && HoldsDots(cells, a, b, k, row0, col0, mr, depth)
    ensures XorOf(cells, n) == CellsXor(a, b, k, row0, col0, mr, depth, n)
  {
    hide Word, Dot, Lo, Hi;
    if n > 0 {
      XorOfDots(cells, a, b, k, row0, col0, mr, depth, n - 1);
    }
  }
}
