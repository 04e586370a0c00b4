/**
 The shape of the keyed BLAKE3 tree: one recursive definition (section 2.1 of the BLAKE3 paper)
 and the two forms the miner computes with, the lazily merged stack and the per-level tree.

 Compression is opaque: every statement below holds for all functions `Blake3` may hold.
 */
module Blake3Tree {
  import opened Bits

  newtype byte = x: int | 0 <= x < 256

  /** 32 bytes: a chaining value, a key or a digest. */
  datatype Bytes32 = Bytes32(bytes: seq<byte>)
  type Cv = Bytes32
  type Key = Bytes32
  type Digest = Bytes32

  const ZERO32: Bytes32 := Bytes32(seq(32, _ => 0))

  /** A parent node before it is finalized: either chained into its own parent or, at the root,
      turned into the digest. */
  datatype Output = Output(left: Cv, right: Cv)

  /** The compression function under its four uses: the chaining value of chunk i, of a parent,
      the root of a parent, and the digest of a message of one chunk. */
  datatype Blake3 = Blake3(
    chunk: (Key, nat, seq<byte>) -> Cv,
    parent: Key -> Output -> Cv,
    root: Key -> Output -> Digest,
    single: (Key, seq<byte>) -> Digest)

  function KeyedParent(b: Blake3, key: Key): Output -> Cv {
    b.parent(key)
  }

  function KeyedRoot(b: Blake3, key: Key, o: Output): Digest {
    b.root(key)(o)
  }

  function KeyedSingle(b: Blake3, key: Key, bytes: seq<byte>): Digest {
    b.single(key, bytes)
  }

  function KeyedChunk(b: Blake3, key: Key, i: nat, bytes: seq<byte>): Cv {
    b.chunk(key, i, bytes)
  }

  // ------------------------------------------------------------------------------------------
  // The definition

  /** Chunks in the left subtree of n chunks: the largest power of two below n. */
  function LeftLen(n: nat): (k: nat)
    requires n >= 2
    ensures 0 < k < n <= 2 * k
  {
    if n == 2 then 1 else 2 * LeftLen((n + 1) / 2)
  }

  /** `LeftLen` is a power of two, so it is the one the paper asks for. */
  lemma {:induction false} LeftLenIsPowerOfTwo(n: nat) returns (e: nat)
    requires n >= 2
    ensures LeftLen(n) == Pow2(e) && Pow2(e) < n <= Pow2(e + 1)
  {
    if n == 2 {
      e := 0;
    } else {
      e := LeftLenIsPowerOfTwo((n + 1) / 2);
      e := e + 1;
    }
  }

  function TreeOutput(f: Output -> Cv, cvs: seq<Cv>): Output
    requires |cvs| >= 2
    decreases |cvs|, 0
  {
    var k := LeftLen(|cvs|);
    Output(TreeCv(f, cvs[..k]), TreeCv(f, cvs[k..]))
  }

  function TreeCv(f: Output -> Cv, cvs: seq<Cv>): Cv
    requires |cvs| >= 1
    decreases |cvs|, 1
  {
    if |cvs| == 1 then cvs[0] else f(TreeOutput(f, cvs))
  }

  /** The digest of a message of two or more chunks. */
  function TreeRoot(b: Blake3, key: Key, cvs: seq<Cv>): Digest
    requires |cvs| >= 2
  {
    KeyedRoot(b, key, TreeOutput(KeyedParent(b, key), cvs))
  }

  // ------------------------------------------------------------------------------------------
  // Levels: complete parents only

  function Pairs(f: Output -> Cv, l: seq<Cv>): (r: seq<Cv>)
    ensures |r| == |l| / 2
  {
    seq(|l| / 2, i requires 0 <= i < |l| / 2 => f(Output(l[2 * i], l[2 * i + 1])))
  }

  lemma {:induction false} PairsAppend(f: Output -> Cv, l: seq<Cv>, x: Cv)
    ensures |l| % 2 == 0 ==> Pairs(f, l + [x]) == Pairs(f, l)
    ensures |l| % 2 == 1 ==> Pairs(f, l + [x]) == Pairs(f, l) + [f(Output(l[|l| - 1], x))]
  {}

  /** Level j of the cached tree: the complete nodes over 2^j chunks each. */
  function Level(f: Output -> Cv, cvs: seq<Cv>, j: nat): seq<Cv>
  {
    if j == 0 then cvs else Pairs(f, Level(f, cvs, j - 1))
  }

  lemma {:induction false} LevelLength(f: Output -> Cv, cvs: seq<Cv>, j: nat)
    ensures |Level(f, cvs, j)| == Shr(|cvs|, j)
  {
    if j > 0 { LevelLength(f, cvs, j - 1); }
  }

  /** The tops of the perfect subtrees in the binary decomposition of |l|, left to right. */
  function Tops(f: Output -> Cv, l: seq<Cv>): (r: seq<Cv>)
    ensures |r| == PopCount(|l|)
    decreases |l|
  {
    if |l| == 0 then []
    else
      var p := Pairs(f, l);
      Tops(f, p) + (if |l| % 2 == 1 then [l[|l| - 1]] else [])
  }

  lemma {:induction false} TopsUnfold(f: Output -> Cv, l: seq<Cv>)
    requires |l| > 0
    ensures |l| % 2 == 0 ==> Tops(f, l) == Tops(f, Pairs(f, l))
    ensures |l| % 2 == 1 ==> Tops(f, l) == Tops(f, Pairs(f, l)) + [l[|l| - 1]]
  {}

  /** Merging a stack right to left, up to but not including the finalization of the last parent. */
  function FoldOutput(f: Output -> Cv, s: seq<Cv>): Output
    requires |s| >= 2
  {
    Output(s[0], if |s| == 2 then s[1] else f(FoldOutput(f, s[1..])))
  }

  // ------------------------------------------------------------------------------------------
  // The recursive tree is the level-by-level tree with odd nodes promoted

  function Promote(f: Output -> Cv, l: seq<Cv>): (r: seq<Cv>)
    ensures |r| == (|l| + 1) / 2
  {
    Pairs(f, l) + (if |l| % 2 == 1 then [l[|l| - 1]] else [])
  }

  lemma {:induction false} PromoteSplit(f: Output -> Cv, l: seq<Cv>, k: nat)
    requires k <= |l| && k % 2 == 0
    ensures Promote(f, l)[..k / 2] == Promote(f, l[..k])
    ensures Promote(f, l)[k / 2..] == Promote(f, l[k..])
  {
    var p := Promote(f, l);
    assert p[..k / 2] == Promote(f, l[..k]);
    var q := Promote(f, l[k..]);
    assert |p[k / 2..]| == |q|;
    forall i | 0 <= i < |q| ensures p[k / 2..][i] == q[i] {
      if 2 * i + 1 < |l| - k {
        assert l[k..][2 * i] == l[k + 2 * i] && l[k..][2 * i + 1] == l[k + 2 * i + 1];
        assert 2 * (k / 2 + i) == k + 2 * i;
      }
    }
  }

  lemma {:induction false} TreePair(f: Output -> Cv, l: seq<Cv>)
    requires |l| == 2
    ensures TreeOutput(f, l) == Output(l[0], l[1])
    ensures TreeCv(f, Promote(f, l)) == TreeCv(f, l)
  {
    assert l[..1] == [l[0]] && l[1..] == [l[1]];
    assert Promote(f, l) == [f(Output(l[0], l[1]))];
  }

  lemma TreeBySplit(f: Output -> Cv, l: seq<Cv>, k: nat)
    requires |l| >= 2 && k == LeftLen(|l|)
    ensures TreeOutput(f, l) == Output(TreeCv(f, l[..k]), TreeCv(f, l[k..]))
    ensures TreeCv(f, l) == f(TreeOutput(f, l))
  {}

  lemma {:induction false} PromoteKeepsTree(f: Output -> Cv, l: seq<Cv>)
    requires |l| >= 1
    ensures TreeCv(f, Promote(f, l)) == TreeCv(f, l)
    ensures |l| >= 3 ==> TreeOutput(f, Promote(f, l)) == TreeOutput(f, l)
    decreases |l|
  {
    if |l| == 1 {
      assert Promote(f, l) == l;
    } else if |l| == 2 {
      TreePair(f, l);
    } else {
      var k, p := LeftLen(|l|), Promote(f, l);
      assert LeftLen(|p|) == k / 2;
      hide TreeCv, TreeOutput, LeftLen, Pairs;
      PromoteSplit(f, l, k);
      PromoteKeepsTree(f, l[..k]);
      PromoteKeepsTree(f, l[k..]);
      hide Promote;
      TreeBySplit(f, l, k);
      TreeBySplit(f, p, k / 2);
    }
  }

  // ------------------------------------------------------------------------------------------
  // The stack

  lemma {:induction false} FoldMergesLast(f: Output -> Cv, s: seq<Cv>, x: Cv, y: Cv)
    requires |s| >= 1
    ensures FoldOutput(f, s + [x, y]) == FoldOutput(f, s + [f(Output(x, y))])
  {
    var z := f(Output(x, y));
    if |s| == 1 {
      assert (s + [x, y])[1..] == [x, y];
    } else {
      FoldMergesLast(f, s[1..], x, y);
      assert (s + [x, y])[1..] == s[1..] + [x, y];
      assert (s + [z])[1..] == s[1..] + [z];
    }
  }

  /** Appending a chunk to an even or an odd number of chunks, one level up. */
  lemma {:induction false} TreeOneLevelUp(f: Output -> Cv, l: seq<Cv>, x: Cv)
    requires |l| >= 2
    ensures var y := if |l| % 2 == 0 then x else f(Output(l[|l| - 1], x));
            TreeOutput(f, l + [x]) == TreeOutput(f, Pairs(f, l) + [y])
  {
    var y := if |l| % 2 == 0 then x else f(Output(l[|l| - 1], x));
    assert Promote(f, l + [x]) == Pairs(f, l) + [y];
    PromoteKeepsTree(f, l + [x]);
  }

  lemma {:induction false} StackOneLevelUp(f: Output -> Cv, l: seq<Cv>, x: Cv)
    requires |l| >= 2
    ensures |Tops(f, Pairs(f, l))| >= 1
    ensures var y := if |l| % 2 == 0 then x else f(Output(l[|l| - 1], x));
            FoldOutput(f, Tops(f, l) + [x]) == FoldOutput(f, Tops(f, Pairs(f, l)) + [y])
  {
    var t := Tops(f, Pairs(f, l));
    PopCountPositive(|l| / 2);
    if |l| % 2 == 1 {
      var last := l[|l| - 1];
      assert Tops(f, l) + [x] == t + [last, x];
      FoldMergesLast(f, t, last, x);
    } else {
      assert Tops(f, l) == t;
    }
  }

  /** The unmerged stack after the last chunk denotes the recursive tree. */
  lemma {:induction false} StackIsTree(f: Output -> Cv, l: seq<Cv>, x: Cv)
    requires |l| >= 1
    ensures |Tops(f, l)| >= 1
    ensures FoldOutput(f, Tops(f, l) + [x]) == TreeOutput(f, l + [x])
    decreases |l|
  {
    PopCountPositive(|l|);
    if |l| == 1 {
      assert Tops(f, l) + [x] == [l[0], x];
      assert (l + [x])[..1] == [l[0]] && (l + [x])[1..] == [x];
    } else {
      var y := if |l| % 2 == 0 then x else f(Output(l[|l| - 1], x));
      StackIsTree(f, Pairs(f, l), y);
      StackOneLevelUp(f, l, x);
      TreeOneLevelUp(f, l, x);
    }
  }

  /** An even number of nodes has the tops and the tree of its parents. */
  lemma {:induction false} EvenLevel(f: Output -> Cv, l: seq<Cv>)
    requires |l| % 2 == 0 && |l| >= 4
    ensures Tops(f, l) == Tops(f, Pairs(f, l))
    ensures TreeOutput(f, l) == TreeOutput(f, Pairs(f, l))
  {
    assert Promote(f, l) == Pairs(f, l);
    PromoteKeepsTree(f, l);
  }

  lemma {:induction false} OddTops(f: Output -> Cv, l: seq<Cv>)
    requires |l| % 2 == 1 && |l| >= 3
    ensures PopCount(|l|) >= 2
    ensures FoldOutput(f, Tops(f, l)) == TreeOutput(f, l)
  {
    hide TreeOutput, FoldOutput;
    var m, last := l[..|l| - 1], l[|l| - 1];
    assert l == m + [last];
    assert Pairs(f, m) == Pairs(f, l);
    assert Tops(f, m) == Tops(f, Pairs(f, l));
    PopCountPositive(|l| / 2);
    StackIsTree(f, m, last);
  }

  /** The subtree tops alone denote it too, unless there is a single top. */
  lemma {:induction false} TopsAreTree(f: Output -> Cv, l: seq<Cv>)
    requires PopCount(|l|) >= 2
    ensures |l| >= 3
    ensures FoldOutput(f, Tops(f, l)) == TreeOutput(f, l)
    decreases |l|
  {
    if |l| % 2 == 0 {
      TopsAreTree(f, Pairs(f, l));
      EvenLevel(f, l);
    } else {
      OddTops(f, l);
    }
  }

  /** Every level of a full tree with two or more nodes has the same root. */
  lemma {:induction false} FullLevel(f: Output -> Cv, l: seq<Cv>, top: nat, j: nat)
    requires |l| == Pow2(top) && j < top
    ensures |Level(f, l, j)| == Pow2(top - j)
    ensures |Level(f, l, j)| >= 2 && TreeOutput(f, Level(f, l, j)) == TreeOutput(f, l)
  {
    hide TreeOutput, Pairs;
    if j < top - 1 { assert Pow2(top - j) == 4 * Pow2(top - j - 2); } else { assert Pow2(1) == 2; }
    if j > 0 {
      FullLevel(f, l, top, j - 1);
      EvenLevel(f, Level(f, l, j - 1));
    }
  }

  /** A power of two has one top, and its root is merged from the two nodes of the level below. */
  lemma {:induction false} PowerOfTwoRoot(f: Output -> Cv, l: seq<Cv>, top: nat)
    requires |l| == Pow2(top) && top >= 1
    ensures |Level(f, l, top - 1)| == 2
    ensures Output(Level(f, l, top - 1)[0], Level(f, l, top - 1)[1]) == TreeOutput(f, l)
  {
    FullLevel(f, l, top, top - 1);
    var c := Level(f, l, top - 1);
    assert Pow2(1) == 2;
    assert c[..1] == [c[0]] && c[1..] == [c[1]];
  }
}
