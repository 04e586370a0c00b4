/** What a hash tile's value says about the matrices, in terms of their entries. */
module TileMeaning {
  import opened Arith
  import opened Bits
  import opened MixedRadix
  import opened Prepack
  import opened TileHash
  import opened MacroXor

  predicate Int32(x: int) { -0x8000_0000 <= x < 0x8000_0000 }

  /** The word of a 32-bit number is its two's complement, and tells it apart from every other one. */
  lemma WordMeaning(x: int, y: int)
    requires Int32(x) && Int32(y)
    ensures Word(x) == if x >= 0 then x else x + 0x1_0000_0000
    ensures Word(x) == Word(y) <==> x == y
  {
  }

  /** Below depth 2^17 two accumulators with the same word are equal. */
  lemma WordsDetermine(a: seq<int8>, b: seq<int8>, a': seq<int8>, b': seq<int8>, k: nat, i: nat, j: nat, depth: nat)
    requires depth < 0x2_0000
    ensures Word(Dot(a, b, k, i, j, depth)) == Word(Dot(a', b', k, i, j, depth)) <==>
              Dot(a, b, k, i, j, depth) == Dot(a', b', k, i, j, depth)
  {
    DotFitsInt32(a, b, k, i, j, depth);
    DotFitsInt32(a', b', k, i, j, depth);
    hide Dot, Word;
    WordMeaning(Dot(a, b, k, i, j, depth), Dot(a', b', k, i, j, depth));
  }

  // ------------------------------------------------------------------------------------------
  // One dot product

  /** Where the entries of a line lie. */
  lemma EntryOfLine(s: seq<int8>, k: nat, line: nat, d: nat)
    requires d < k && line * k + k <= |s|
    ensures Entry(s, k, line, d) == s[line * k + d]
  {
  }

  /** Another entry in one place of A: within the depth and in the row itself it adds its difference times the
      matching entry of B, anywhere else nothing. */
  lemma {:induction false} EntryCounts(a: seq<int8>, b: seq<int8>, v: int8, k: nat, i: nat, j: nat, depth: nat,
                                       line: nat, d: nat)
    requires depth <= k && d < k && i * k + k <= |a| && j * k + k <= |b| && line * k + d < |a|
    ensures Dot(a[line * k + d := v], b, k, i, j, depth) ==
            Dot(a, b, k, i, j, depth) + if line == i && d < depth then (v - a[line * k + d]) * b[j * k + d] else 0
  {
    if depth > 0 {
      EntryCounts(a, b, v, k, i, j, depth - 1, line, d);
      ProductChanges(a, b, v, k, i, j, depth - 1, line, d);
      hide Entry;
    }
  }

  lemma ProductChanges(a: seq<int8>, b: seq<int8>, v: int8, k: nat, i: nat, j: nat, e: nat, line: nat, d: nat)
    requires e < k && d < k && i * k + k <= |a| && j * k + k <= |b| && line * k + d < |a|
    ensures Entry(a[line * k + d := v], k, i, e) * Entry(b, k, j, e) ==
            Entry(a, k, i, e) * Entry(b, k, j, e)
            + if line == i && d == e then (v - a[line * k + d]) * b[j * k + d] else 0
  {
    EntryOfLine(a, k, i, e);
    EntryOfLine(a[line * k + d := v], k, i, e);
    EntryOfLine(b, k, j, e);
    hide Entry;
    if line == i && d == e {
      MulDistributes(b[j * k + d], v - a[line * k + d], a[line * k + d]);
    } else if i * k + e == line * k + d {
      JoinInjective(i, e, line, d, k);
    }
  }

  /** The operands can be exchanged, so the same holds of B. */
  lemma {:induction false} DotIsSymmetric(a: seq<int8>, b: seq<int8>, k: nat, i: nat, j: nat, depth: nat)
    ensures Dot(a, b, k, i, j, depth) == Dot(b, a, k, j, i, depth)
  {
    if depth > 0 { DotIsSymmetric(a, b, k, i, j, depth - 1); }
  }

  lemma {:induction false} ZeroDot(a: seq<int8>, b: seq<int8>, k: nat, i: nat, j: nat, depth: nat)
    requires forall d: nat :: d < depth ==> Entry(a, k, i, d) == 0
    ensures Dot(a, b, k, i, j, depth) == 0
  {
    if depth > 0 { ZeroDot(a, b, k, i, j, depth - 1); }
  }

  // ------------------------------------------------------------------------------------------
  // One tile

  /** Row `row` and column `col` cross in the tile. */
  predicate InTile(g: Scan, tr: nat, tc: nat, row: nat, col: nat)
    requires g.Valid()
  {
    && tr * g.shape.mr <= row < tr * g.shape.mr + g.shape.mr
    && tc * g.shape.HashNr() <= col < tc * g.shape.HashNr() + g.shape.HashNr()
  }

  /** All dot products of the tile agree but those at (`row`, `col`). */
  ghost predicate SameBut(g: Scan, a: seq<int8>, b: seq<int8>, a': seq<int8>, b': seq<int8>, depth: nat, tr: nat,
                          tc: nat, row: nat, col: nat)
    requires g.Valid()
  {
    forall r: nat, c: nat :: InTile(g, tr, tc, r, c) && (r != row || c != col) ==>
      Dot(a, b, g.Depth(), r, c, depth) == Dot(a', b', g.Depth(), r, c, depth)
  }

  /** The value of the first `n` cells of a tile. */
  function FirstCells(g: Scan, a: seq<int8>, b: seq<int8>, depth: nat, tr: nat, tc: nat, n: nat): uint32
    requires g.Valid()
  {
    CellsXor(a, b, g.Depth(), tr * g.shape.mr, tc * g.shape.HashNr(), g.shape.mr, depth, n)
  }

  function CellWord(g: Scan, a: seq<int8>, b: seq<int8>, depth: nat, row: nat, col: nat): uint32 {
    Word(Dot(a, b, g.Depth(), row, col, depth))
  }

  /** The number of a cell within its tile, column by column. */
  function CellNo(g: Scan, tr: nat, tc: nat, row: nat, col: nat): nat
    requires g.Valid() && InTile(g, tr, tc, row, col)
  {
    Join(col - tc * g.shape.HashNr(), row - tr * g.shape.mr, g.shape.mr)
  }

  /** One more cell, and which it is. */
  lemma NextCell(g: Scan, a: seq<int8>, b: seq<int8>, depth: nat, tr: nat, tc: nat, n: nat) returns (r: nat, c: nat)
    requires g.Valid() && n < g.shape.mr * g.shape.HashNr()
    ensures InTile(g, tr, tc, r, c) && CellNo(g, tr, tc, r, c) == n
    ensures FirstCells(g, a, b, depth, tr, tc, n + 1) ==
            Xor32(FirstCells(g, a, b, depth, tr, tc, n), CellWord(g, a, b, depth, r, c))
    ensures r == tr * g.shape.mr + Lo(n, g.shape.mr) && c == tc * g.shape.HashNr() + Hi(n, g.shape.mr)
  {
    hide Word, Dot, Xor32, CellsXor, Hi, Lo, Join, InTile, CellNo;
    var (mr, nr) := (g.shape.mr, g.shape.HashNr());
    SplitJoin(n, nr, mr);
    r, c := tr * mr + Lo(n, mr), tc * nr + Hi(n, mr);
    InTileAt(g, tr, tc, Lo(n, mr), Hi(n, mr));
    CellsXorStep(a, b, g.Depth(), tr * mr, tc * nr, mr, depth, n);
  }

  lemma {:induction false} CellsXorStep(a: seq<int8>, b: seq<int8>, k: nat, row0: nat, col0: nat, mr: nat, depth: nat,
                                        n: nat)
    requires mr > 0
    ensures CellsXor(a, b, k, row0, col0, mr, depth, n + 1) ==
            Xor32(CellsXor(a, b, k, row0, col0, mr, depth, n),
                  Word(Dot(a, b, k, row0 + Lo(n, mr), col0 + Hi(n, mr), depth)))
  {
    hide Word, Dot, Xor32, Lo, Hi;
  }

  lemma InTileAt(g: Scan, tr: nat, tc: nat, i: nat, j: nat)
    requires g.Valid() && i < g.shape.mr && j < g.shape.HashNr()
    ensures var (r, c) := (tr * g.shape.mr + i, tc * g.shape.HashNr() + j);
            InTile(g, tr, tc, r, c) && CellNo(g, tr, tc, r, c) == Join(j, i, g.shape.mr)
  {
    hide Join;
    var (x, y) := (tr * g.shape.mr, tc * g.shape.HashNr());
    assert x + i - x == i && y + j - y == j;
  }

  lemma CellNoBound(g: Scan, tr: nat, tc: nat, row: nat, col: nat)
    requires g.Valid() && InTile(g, tr, tc, row, col)
    ensures CellNo(g, tr, tc, row, col) < g.shape.mr * g.shape.HashNr()
  {
    JoinBound(col - tc * g.shape.HashNr(), row - tr * g.shape.mr, g.shape.HashNr(), g.shape.mr);
  }

  lemma CellNoInjective(g: Scan, tr: nat, tc: nat, row: nat, col: nat, r: nat, c: nat)
    requires g.Valid() && InTile(g, tr, tc, row, col) && InTile(g, tr, tc, r, c)
    requires CellNo(g, tr, tc, row, col) == CellNo(g, tr, tc, r, c)
    ensures row == r && col == c
  {
    JoinInjective(col - tc * g.shape.HashNr(), row - tr * g.shape.mr, c - tc * g.shape.HashNr(), r - tr * g.shape.mr,
                  g.shape.mr);
  }

  /** Before the one cell the values agree, from it on they differ by its two words. */
  lemma {:induction false} CellsDiffer(g: Scan, a: seq<int8>, b: seq<int8>, a': seq<int8>, b': seq<int8>, depth: nat,
                                       tr: nat, tc: nat, row: nat, col: nat, n: nat)
    requires g.Valid() && n <= g.shape.mr * g.shape.HashNr() && InTile(g, tr, tc, row, col)
    requires SameBut(g, a, b, a', b', depth, tr, tc, row, col)
    ensures var (x, y) := (FirstCells(g, a, b, depth, tr, tc, n), FirstCells(g, a', b', depth, tr, tc, n));
            var (u, v) := (CellWord(g, a, b, depth, row, col), CellWord(g, a', b', depth, row, col));
            if CellNo(g, tr, tc, row, col) < n then Xor(x, v) == Xor(y, u) else x == y
  {
    hide Word, Dot, CellNo, FirstCells, InTile, Xor;
    if n > 0 {
      CellsDiffer(g, a, b, a', b', depth, tr, tc, row, col, n - 1);
      var r, c := NextCell(g, a, b, depth, tr, tc, n - 1);
      var r', c' := NextCell(g, a', b', depth, tr, tc, n - 1);
      var (x, y) := (FirstCells(g, a, b, depth, tr, tc, n - 1), FirstCells(g, a', b', depth, tr, tc, n - 1));
      var (u, v) := (CellWord(g, a, b, depth, row, col), CellWord(g, a', b', depth, row, col));
      if CellNo(g, tr, tc, row, col) == n - 1 {
        CellNoInjective(g, tr, tc, row, col, r, c);
        XorSwaps(x, u, v);
      } else {
        assert r != row || c != col;
        XorSwaps(x, CellWord(g, a, b, depth, r, c), v);
        XorSwaps(y, CellWord(g, a, b, depth, r, c), u);
      }
    } else {
      NoCells(g, a, b, depth, tr, tc);
      NoCells(g, a', b', depth, tr, tc);
    }
  }

  lemma NoCells(g: Scan, a: seq<int8>, b: seq<int8>, depth: nat, tr: nat, tc: nat)
    requires g.Valid()
    ensures FirstCells(g, a, b, depth, tr, tc, 0) == 0
  {
  }

  lemma XorSwaps(r: nat, x: nat, y: nat)
    ensures Xor(Xor(r, x), y) == Xor(Xor(r, y), x)
  {
    hide Xor;
    XorAssociates(r, x, y);
    XorAssociates(r, y, x);
    XorCommutes(x, y);
  }

  /** If all dot products of a tile but one agree at a milestone, its value there changes exactly if that one
      does: no cell of the tile is left out and no bit of its 32-bit accumulator is lost. */
  lemma OneCellCounts(g: Scan, a: seq<int8>, b: seq<int8>, a': seq<int8>, b': seq<int8>, ms: nat, tr: nat, tc: nat,
                      row: nat, col: nat)
    requires g.Valid() && (ms + 1) * g.shape.kr < 0x2_0000 && InTile(g, tr, tc, row, col)
    requires SameBut(g, a, b, a', b', (ms + 1) * g.shape.kr, tr, tc, row, col)
    ensures HashXor(g, a, b, ms, tr, tc) == HashXor(g, a', b', ms, tr, tc) <==>
              Dot(a, b, g.Depth(), row, col, (ms + 1) * g.shape.kr)
              == Dot(a', b', g.Depth(), row, col, (ms + 1) * g.shape.kr)
  {
    hide Dot, Word, Xor, CellsXor, InTile;
    var depth := (ms + 1) * g.shape.kr;
    var n := g.shape.mr * g.shape.HashNr();
    CellNoBound(g, tr, tc, row, col);
    CellsDiffer(g, a, b, a', b', depth, tr, tc, row, col, n);
    WordsDetermine(a, b, a', b', g.Depth(), row, col, depth);
    var (x, y) := (FirstCells(g, a, b, depth, tr, tc, n), FirstCells(g, a', b', depth, tr, tc, n));
    var (u, v) := (CellWord(g, a, b, depth, row, col), CellWord(g, a', b', depth, row, col));
    XorCancels(x, u, v);
    XorCancels(v, x, y);
    XorCommutes(v, x);
    XorCommutes(v, y);
  }

  // ------------------------------------------------------------------------------------------
  // Matrices of one entry

  function Zeros(n: nat): (s: seq<int8>) { seq(n, _ => 0) }

  lemma {:induction false} ZeroCells(g: Scan, b: seq<int8>, depth: nat, tr: nat, tc: nat, len: nat, n: nat)
    requires g.Valid() && n <= g.shape.mr * g.shape.HashNr()
    ensures FirstCells(g, Zeros(len), b, depth, tr, tc, n) == 0
  {
    hide Dot, Word, FirstCells, InTile, CellNo;
    if n > 0 {
      ZeroCells(g, b, depth, tr, tc, len, n - 1);
      var r, c := NextCell(g, Zeros(len), b, depth, tr, tc, n - 1);
      ZeroDot(Zeros(len), b, g.Depth(), r, c, depth);
      assert Word(0) == 0 by { WordMeaning(0, 0); }
    } else {
      NoCells(g, Zeros(len), b, depth, tr, tc);
    }
  }

  lemma LineInside(k: nat, lines: nat, line: nat)
    requires line < lines
    ensures line * k + k <= lines * k
  {
    MulMonotone(k, line + 1, lines);
    MulDistributes(k, line, 1);
  }

  /** `n` entries of which only the one at `at` may not be zero. */
  function Single(n: nat, at: nat, x: int8): (s: seq<int8>) { seq(n, i => if i == at then x else 0) }

  /** Where an entry of a line stands. */
  function Place(k: nat, line: nat, d: nat): nat { line * k + d }

  lemma PlaceInside(k: nat, lines: nat, line: nat, d: nat)
    requires line < lines && d < k
    ensures Place(k, line, d) < lines * k && line * k + k <= lines * k
  {
    LineInside(k, lines, line);
  }

  /** The dot products of a matrix with the one entry x at (`row`, `d`). */
  lemma OneEntryDot(b: seq<int8>, x: int8, k: nat, rows: nat, cols: nat, row: nat, d: nat, r: nat, c: nat, depth: nat)
    requires |b| == cols * k && d < k && depth <= k && row < rows && r < rows && c < cols
    ensures Place(k, c, d) < |b|
    ensures Dot(Single(rows * k, Place(k, row, d), x), b, k, r, c, depth) ==
            if r == row && d < depth then x * b[Place(k, c, d)] else 0
  {
    hide Dot;
    var zero := Zeros(rows * k);
    PlaceInside(k, rows, row, d);
    PlaceInside(k, rows, r, d);
    PlaceInside(k, cols, c, d);
    assert Single(rows * k, Place(k, row, d), x) == zero[Place(k, row, d) := x];
    EntryCounts(zero, b, x, k, r, c, depth, row, d);
    ZeroDot(zero, b, k, r, c, depth);
  }

  /** At depth `d`, B is zero in all columns but `col`. */
  predicate OnlyColumn(b: seq<int8>, k: nat, cols: nat, col: nat, d: nat) {
    forall c: nat :: c < cols && c != col && Place(k, c, d) < |b| ==> b[Place(k, c, d)] == 0
  }

  /** What all dot products of a tile are when only one product of entries is not zero. */
  lemma OneProductDots(g: Scan, b: seq<int8>, x: int8, row: nat, col: nat, d: nat, depth: nat, tr: nat, tc: nat)
    requires g.Valid() && |b| == g.Cols() * g.Depth() && d < g.Depth() && depth <= g.Depth()
    requires row < g.Rows() && tr < g.TileRows() && tc < g.TileCols() && InTile(g, tr, tc, row, col)
    requires OnlyColumn(b, g.Depth(), g.Cols(), col, d)
    ensures var n := g.Rows() * g.Depth();
            SameBut(g, Single(n, Place(g.Depth(), row, d), x), b, Zeros(n), b, depth, tr, tc, row, col)
  {
    hide Dot, InTile, Place, Single;
    var k := g.Depth();
    var n := g.Rows() * k;
    forall r: nat, c: nat | InTile(g, tr, tc, r, c) && (r != row || c != col)
      ensures Dot(Single(n, Place(k, row, d), x), b, k, r, c, depth) == Dot(Zeros(n), b, k, r, c, depth)
    {
      InsideMatrix(g, tr, tc, r, c);
      OneEntryDot(b, x, k, g.Rows(), g.Cols(), row, d, r, c, depth);
      ZeroDot(Zeros(n), b, k, r, c, depth);
    }
  }

  /** Over an empty background the one cell's word is the tile's value. */
  lemma OneCellValue(g: Scan, a: seq<int8>, b: seq<int8>, len: nat, depth: nat, tr: nat, tc: nat, row: nat, col: nat)
    requires g.Valid() && InTile(g, tr, tc, row, col) && SameBut(g, a, b, Zeros(len), b, depth, tr, tc, row, col)
    ensures FirstCells(g, a, b, depth, tr, tc, g.shape.mr * g.shape.HashNr()) == CellWord(g, a, b, depth, row, col)
  {
    hide Dot, Word, Xor, FirstCells, InTile, CellNo, SameBut;
    var n := g.shape.mr * g.shape.HashNr();
    CellNoBound(g, tr, tc, row, col);
    CellsDiffer(g, a, b, Zeros(len), b, depth, tr, tc, row, col, n);
    ZeroCells(g, b, depth, tr, tc, len, n);
    ZeroDot(Zeros(len), b, g.Depth(), row, col, depth);
    WordMeaning(0, 0);
    XorZero(CellWord(g, a, b, depth, row, col));
    XorZero(FirstCells(g, a, b, depth, tr, tc, n));
  }

  /** The only nonzero entry of A is x at row `row` and depth `d`, and B has y at column `col` and depth `d` and
      zeros at that depth elsewhere: the tile in which row and column cross has the word of x * y as its value
      from the milestone on that reaches depth `d`, and 0 before. */
  lemma OneProduct(g: Scan, b: seq<int8>, x: int8, y: int8, row: nat, col: nat, d: nat, ms: nat, tr: nat, tc: nat)
    requires g.Valid() && |b| == g.Cols() * g.Depth() && d < g.Depth() && ms < g.blocksK
    requires row < g.Rows() && col < g.Cols() && tr < g.TileRows() && tc < g.TileCols() && InTile(g, tr, tc, row, col)
    requires Place(g.Depth(), col, d) < |b| && b[Place(g.Depth(), col, d)] == y
    requires OnlyColumn(b, g.Depth(), g.Cols(), col, d)
    ensures var a := Single(g.Rows() * g.Depth(), Place(g.Depth(), row, d), x);
            var p := if d < (ms + 1) * g.shape.kr then x * y else 0;
            HashXor(g, a, b, ms, tr, tc) == if p >= 0 then p else p + 0x1_0000_0000
  {
    hide Dot, Word, Xor, CellsXor, FirstCells, InTile, CellNo, SameBut, HashXor, OnlyColumn, Place, Single;
    var k, depth := g.Depth(), (ms + 1) * g.shape.kr;
    MulMonotone(g.shape.kr, ms + 1, g.blocksK);
    var a := Single(g.Rows() * k, Place(k, row, d), x);
    OneProductDots(g, b, x, row, col, d, depth, tr, tc);
    OneCellValue(g, a, b, g.Rows() * k, depth, tr, tc, row, col);
    OneEntryDot(b, x, k, g.Rows(), g.Cols(), row, d, row, col, depth);
    ProductBound(x, y);
    WordMeaning(if d < depth then x * y else 0, 0);
    FirstCellsAll(g, a, b, ms, tr, tc);
  }

  lemma FirstCellsAll(g: Scan, a: seq<int8>, b: seq<int8>, ms: nat, tr: nat, tc: nat)
    requires g.Valid()
    ensures HashXor(g, a, b, ms, tr, tc) ==
            FirstCells(g, a, b, (ms + 1) * g.shape.kr, tr, tc, g.shape.mr * g.shape.HashNr())
  {
  }

  lemma InsideMatrix(g: Scan, tr: nat, tc: nat, r: nat, c: nat)
    requires g.Valid() && tr < g.TileRows() && tc < g.TileCols() && InTile(g, tr, tc, r, c)
    ensures r < g.Rows() && c < g.Cols()
  {
    TileInside(g, tr, tc);
  }
}
