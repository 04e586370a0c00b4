/**
 The root read from the levels of the tree: the nodes of the set bits of the chunk count, or for a power of two
 the two nodes below the top; and which levels that takes.
 */
module LevelRoot {
  import opened Arith
  import opened Bits
  import opened Blake3Tree
  import opened ChunkDigest

  const PEARL_MH_MAX_LEVELS: nat := 64

  /** `pearl_mh_top_level`: the level with a single complete node. */
  method TopLevel(n: nat) returns (top: nat)
    requires n >= 1
    ensures top + 1 == BitLength(n)
  {
    top := 0;
    while 2 * Pow2(top) <= n
      invariant Pow2(top) <= n
      decreases n - Pow2(top)
    {
      top := top + 1;
    }
    BitLengthOf(n, top);
  }

  lemma LevelsFit(n: nat)
    requires 0 < n < CHUNK_COUNT_LIMIT
    ensures 1 <= BitLength(n) <= PEARL_MH_MAX_LEVELS
  {
    BitLengthBounds(n);
    Pow2Values();
    if BitLength(n) > 31 { Pow2Monotone(31, BitLength(n) - 1); }
  }

  /** A read-only view of a level: at least its nodes lie from there on. */
  ghost predicate Holds(p: seq<Cv>, nodes: seq<Cv>) {
    |nodes| <= |p| && p[..|nodes|] == nodes
  }

  // ------------------------------------------------------------------------------------------
  // The root from the levels

  lemma NoNodesAbove(f: Output -> Cv, cvs: seq<Cv>, j: nat)
    requires |cvs| < Pow2(j)
    ensures Shr(|cvs|, j) == 0 && Tops(f, Level(f, cvs, j)) == []
  {
    LevelLength(f, cvs, j);
    ShrBound(|cvs|, j, j);
  }

  lemma {:induction false} LevelZero(f: Output -> Cv, cvs: seq<Cv>)
    ensures Level(f, cvs, 0) == cvs
    ensures Shr(|cvs|, 0) == |cvs|
  {}

  /** How the offset of the next subtree grows as the bits of n are read downwards. */
  lemma StartStep(n: nat, j: nat)
    ensures Shr(n, j) % 2 == 1 ==> Shr(Shr(n, j + 1) * Pow2(j + 1), j) == Shr(n, j) - 1
    ensures Shr(n, j + 1) * Pow2(j + 1) + (if Shr(n, j) % 2 == 1 then Pow2(j) else 0)
         == Shr(n, j) * Pow2(j)
  {
    var q, p := Shr(n, j + 1), Pow2(j);
    MulAssociates(q, 2, p);
    ShrShl(q * 2, j);
    MulDistributes(p, q * 2, 1);
  }

  lemma {:induction false} TopsOfLevel(f: Output -> Cv, cvs: seq<Cv>, j: nat)
    ensures var l := Level(f, cvs, j);
            Tops(f, l) == Tops(f, Level(f, cvs, j + 1)) + (if |l| % 2 == 1 then [l[|l| - 1]] else [])
  {
    var l := Level(f, cvs, j);
    if |l| > 0 {
      hide Tops;
      TopsUnfold(f, l);
    } else {
      assert Level(f, cvs, j + 1) == [];
    }
  }

  lemma {:induction false} PopCountOne(n: nat, top: nat)
    requires PopCount(n) == 1 && Pow2(top) <= n < Pow2(top + 1)
    ensures n == Pow2(top)
  {
    if top > 0 {
      if n % 2 == 1 { PopCountPositive(n / 2); }
      PopCountOne(n / 2, top - 1);
    }
  }

  /** Level `j` of the n chunks has room for its nodes, at every level read. */
  predicate LongEnough(n: nat, levels: seq<seq<Cv>>) {
    forall j :: 0 <= j < |levels| ==> Shr(n, j) <= |levels[j]|
  }

  /** The nodes that stand for the set bits of n from bit `j` up, whatever the levels hold. */
  function TopsRead(n: nat, levels: seq<seq<Cv>>, j: nat): seq<Cv>
    requires LongEnough(n, levels)
    decreases |levels| - j
  {
    if j >= |levels| then []
    else TopsRead(n, levels, j + 1) + if Shr(n, j) % 2 == 1 then [levels[j][Shr(n, j) - 1]] else []
  }

  lemma {:induction false} TopsReadCount(n: nat, levels: seq<seq<Cv>>, j: nat)
    requires LongEnough(n, levels) && n < Pow2(|levels|) && j <= |levels|
    ensures |TopsRead(n, levels, j)| == PopCount(Shr(n, j))
    decreases |levels| - j
  {
    if j < |levels| {
      TopsReadCount(n, levels, j + 1);
      hide Pow2;
    } else {
      ShrBound(n, j, j);
    }
  }

  /** Correct levels: the nodes read are the subtree tops. */
  lemma {:induction false} TopsReadAreTops(f: Output -> Cv, cvs: seq<Cv>, levels: seq<seq<Cv>>, j: nat)
    requires LongEnough(|cvs|, levels) && |cvs| < Pow2(|levels|) && j <= |levels|
    requires forall i :: 0 <= i < |levels| ==> Holds(levels[i], Level(f, cvs, i))
    ensures TopsRead(|cvs|, levels, j) == Tops(f, Level(f, cvs, j))
    decreases |levels| - j
  {
    hide Level, Tops, PopCount, Pow2, Shr;
    if j == |levels| {
      NoNodesAbove(f, cvs, j);
    } else {
      TopsReadAreTops(f, cvs, levels, j + 1);
      TopsOfLevel(f, cvs, j);
      LevelLength(f, cvs, j);
    }
  }

  /** Gathers the nodes from the highest set bit of n to the lowest. */
  method GatherTops(n: nat, levels: seq<seq<Cv>>, stack: array<Cv>) returns (s: nat)
    requires LongEnough(n, levels) && |levels| < stack.Length && n < Pow2(|levels|)
    modifies stack
    ensures s <= stack.Length && stack[..s] == TopsRead(n, levels, 0)
  {
    hide PopCount, Pow2, Shr, TopsRead;
    var start, j := 0, |levels|;
    s := 0;
    NothingAbove(n, |levels|);
    TopsReadEnd(n, levels);
    while j > 0
      invariant 0 <= j <= |levels| && s <= |levels| - j
      invariant stack[..s] == TopsRead(n, levels, j)
      invariant start == Shr(n, j) * Pow2(j)
    {
      j := j - 1;
      StartStep(n, j);
      TopsReadStep(n, levels, j);
      if Shr(n, j) % 2 == 1 {
        stack[s] := levels[j][Shr(start, j)];
        s := s + 1;
        start := start + Pow2(j);
        assert stack[..s] == stack[..s - 1] + [stack[s - 1]];
      }
    }
  }

  lemma {:induction false} TopsReadStep(n: nat, levels: seq<seq<Cv>>, j: nat)
    requires LongEnough(n, levels) && j < |levels|
    ensures Shr(n, j) % 2 == 0 ==> TopsRead(n, levels, j) == TopsRead(n, levels, j + 1)
    ensures Shr(n, j) % 2 == 1 ==>
      0 < Shr(n, j) <= |levels[j]| && TopsRead(n, levels, j) == TopsRead(n, levels, j + 1) + [levels[j][Shr(n, j) - 1]]
  {}

  lemma {:induction false} TopsReadEnd(n: nat, levels: seq<seq<Cv>>)
    requires LongEnough(n, levels)
    ensures TopsRead(n, levels, |levels|) == []
  {}

  lemma NothingAbove(n: nat, e: nat)
    requires n < Pow2(e)
    ensures Shr(n, e) == 0
  {
    ShrBound(n, e, e);
  }

  /** A single top is the root of a full tree: its two children denote the tree. */
  lemma SingleTop(f: Output -> Cv, cvs: seq<Cv>, below: nat)
    requires |cvs| >= 2 && PopCount(|cvs|) == 1 && BitLength(|cvs|) == below + 2
    ensures |Level(f, cvs, below)| == 2
    ensures FoldOutput(f, Level(f, cvs, below)) == TreeOutput(f, cvs)
  {
    hide Level, Tops, TreeOutput, FoldOutput, PopCount;
    FullTree(|cvs|, below + 1);
    hide Pow2, BitLength;
    PowerOfTwoRoot(f, cvs, below + 1);
    FoldPair(f, Level(f, cvs, below));
  }

  lemma FullTree(n: nat, top: nat)
    requires PopCount(n) == 1 && BitLength(n) == top + 1
    ensures n == Pow2(top)
  {
    hide PopCount, Pow2;
    BitLengthBounds(n);
    PopCountOne(n, top);
  }

  lemma FoldPair(f: Output -> Cv, s: seq<Cv>)
    requires |s| == 2
    ensures FoldOutput(f, s) == Output(s[0], s[1])
  {}

  /** What the root is folded from: the nodes of the set bits, or for a power of two the two nodes below the
      top. */
  function StackRead(n: nat, levels: seq<seq<Cv>>): seq<Cv>
    requires LongEnough(n, levels) && |levels| >= 2 && Shr(n, |levels| - 2) >= 2
  {
    var tops := TopsRead(n, levels, 0);
    if |tops| == 1 then levels[|levels| - 2][..2] else tops
  }

  /** Levels that a root can be read from. */
  predicate Readable(n: nat, levels: seq<seq<Cv>>) {
    n >= 2 && |levels| == BitLength(n) >= 2 && LongEnough(n, levels) && Shr(n, |levels| - 2) >= 2
  }

  /** There is a top, and there are two nodes to fold. */
  lemma StackReadCount(n: nat, levels: seq<seq<Cv>>)
    requires Readable(n, levels)
    ensures |TopsRead(n, levels, 0)| == PopCount(n) >= 1
    ensures |StackRead(n, levels)| == if PopCount(n) == 1 then 2 else PopCount(n)
  {
    BitLengthBounds(n);
    PopCountPositive(n);
    TopsReadCount(n, levels, 0);
    hide Pow2, PopCount, TopsRead, BitLength;
  }

  lemma StackReadIsTree(f: Output -> Cv, cvs: seq<Cv>, levels: seq<seq<Cv>>)
    requires Readable(|cvs|, levels)
    requires forall j :: 0 <= j < |levels| ==> Holds(levels[j], Level(f, cvs, j))
    ensures |StackRead(|cvs|, levels)| >= 2
    ensures FoldOutput(f, StackRead(|cvs|, levels)) == TreeOutput(f, cvs)
  {
    hide Level, Tops, TreeOutput, FoldOutput, PopCount, Pow2, BitLength, Shr, TopsRead, Holds, LongEnough;
    StackReadCount(|cvs|, levels);
    BitLengthBounds(|cvs|);
    if PopCount(|cvs|) == 1 {
      SingleTop(f, cvs, |levels| - 2);
      FirstNodes(levels[|levels| - 2], Level(f, cvs, |levels| - 2));
    } else {
      TopsReadAreTops(f, cvs, levels, 0);
      LevelZero(f, cvs);
      TopsAreTree(f, cvs);
    }
  }

  lemma FirstNodes(p: seq<Cv>, nodes: seq<Cv>)
    requires Holds(p, nodes)
    ensures |p| >= |nodes| && p[..|nodes|] == nodes
  {}

  /** A power of two: the single node is replaced by the two below it. */
  method OpenSingleTop(n: nat, levels: seq<seq<Cv>>, stack: array<Cv>, s: nat) returns (s': nat)
    requires Readable(n, levels) && 1 <= s <= stack.Length && stack.Length >= 2
    requires stack[..s] == TopsRead(n, levels, 0)
    modifies stack
    ensures 2 <= s' <= stack.Length && stack[..s'] == StackRead(n, levels)
  {
    s' := s;
    if s == 1 {
      var children := levels[|levels| - 2];
      stack[0] := children[0];
      stack[1] := children[1];
      s' := 2;
      assert stack[..s'] == children[..2];
    }
  }

  /** `pearl_mh_root` on any levels. */
  method ReadRoot(b: Blake3, key: Key, n: nat, levels: seq<seq<Cv>>) returns (out: Digest)
    requires Readable(n, levels) && |levels| <= PEARL_MH_MAX_LEVELS
    ensures |StackRead(n, levels)| >= 2
    ensures out == KeyedRoot(b, key, FoldOutput(KeyedParent(b, key), StackRead(n, levels)))
  {
    hide TopsRead, StackRead, FoldOutput, PopCount, Pow2, BitLength, Shr;
    BitLengthBounds(n);
    StackReadCount(n, levels);
    var stack := new Cv[PEARL_MH_MAX_LEVELS + 1](_ => ZERO32);
    var s := GatherTops(n, levels, stack);
    s := OpenSingleTop(n, levels, stack, s);
    var output := FoldStack(stack, s, KeyedParent(b, key));
    out := KeyedRoot(b, key, output);
  }

  /** `pearl_mh_root` on the levels of a tree. */
  method Root(b: Blake3, key: Key, n: nat, levels: seq<seq<Cv>>, ghost cvs: seq<Cv>)
    returns (out: Digest)
    requires n == |cvs| >= 2 && |levels| == BitLength(n) <= PEARL_MH_MAX_LEVELS
    requires forall j :: 0 <= j < |levels| ==> Holds(levels[j], Level(KeyedParent(b, key), cvs, j))
    ensures out == TreeRoot(b, key, cvs)
  {
    HeldLevelsAreReadable(KeyedParent(b, key), cvs, levels);
    hide Readable, StackRead, FoldOutput, TreeOutput, Level, Holds;
    out := ReadRoot(b, key, n, levels);
    StackReadIsTree(KeyedParent(b, key), cvs, levels);
  }

  lemma HeldLevelsAreReadable(f: Output -> Cv, cvs: seq<Cv>, levels: seq<seq<Cv>>)
    requires |cvs| >= 2 && |levels| == BitLength(|cvs|)
    requires forall j :: 0 <= j < |levels| ==> Holds(levels[j], Level(f, cvs, j))
    ensures Readable(|cvs|, levels)
  {
    hide Level, Holds, BitLength, Shr, Pow2;
    BitLengthBounds(|cvs|);
    OnlyTopIsSingle(|cvs|, 0);
    OnlyTopIsSingle(|cvs|, |levels| - 2);
    forall j | 0 <= j < |levels|
      ensures Shr(|cvs|, j) <= |levels[j]|
    {
      LevelLength(f, cvs, j);
      FirstNodes(levels[j], Level(f, cvs, j));
    }
  }

  // ------------------------------------------------------------------------------------------
  // Which levels the root needs

  /** Every level below the top has at least two nodes, the top has one. */
  lemma OnlyTopIsSingle(n: nat, j: nat)
    requires n >= 2 && j < BitLength(n)
    ensures BitLength(n) >= 2
    ensures Shr(n, j) >= 2 <==> j < BitLength(n) - 1
    ensures Shr(n, BitLength(n) - 1) == 1
  {
    var top := BitLength(n) - 1;
    BitLengthBounds(n);
    assert BitLength(n) >= 2;
    hide BitLength;
    ShrFromTop(n, top, j);
    ShrFromTop(n, top, top);
  }

  lemma ShrFromTop(n: nat, top: nat, j: nat)
    requires Pow2(top) <= n < Pow2(top + 1) && j <= top
    ensures Pow2(top - j) <= Shr(n, j) < Pow2(top - j + 1)
    ensures Shr(n, j) >= 2 <==> j < top
  {
    ShrIsDivision(n, j);
    ShrBound(n, j, top + 1);
    Pow2Add(j, top - j);
    DivMonotone(Pow2(top), n, Pow2(j));
    DivUnique(Pow2(top), Pow2(j), Pow2(top - j), 0);
    if j < top { Pow2Monotone(1, top - j); }
  }

  /** The levels agree wherever they have at least two nodes. */
  ghost predicate AgreeBelowTop(levels: seq<seq<Cv>>, levels': seq<seq<Cv>>) {
    |levels| == |levels'| && forall j :: 0 <= j < |levels| - 1 ==> levels[j] == levels'[j]
  }

  /** The root can be read without the single-node level. */
  ghost predicate TopIsNotNeeded(f: Output -> Cv, n: nat) {
    forall levels, levels' :: Readable(n, levels) && Readable(n, levels') && AgreeBelowTop(levels, levels') ==>
      SameRoot(f, n, levels, levels')
  }

  predicate SameRoot(f: Output -> Cv, n: nat, levels: seq<seq<Cv>>, levels': seq<seq<Cv>>)
    requires Readable(n, levels) && Readable(n, levels')
  {
    var (s, s') := (StackRead(n, levels), StackRead(n, levels'));
    |s| >= 2 && |s'| >= 2 && FoldOutput(f, s) == FoldOutput(f, s')
  }

  lemma {:induction false} FirstTop(n: nat, levels: seq<seq<Cv>>, j: nat)
    requires Readable(n, levels) && j < |levels|
    ensures |levels[|levels| - 1]| >= 1
    ensures TopsRead(n, levels, j) != [] && TopsRead(n, levels, j)[0] == levels[|levels| - 1][0]
    decreases |levels| - j
  {
    if j == |levels| - 1 {
      OnlyTopIsSingle(n, j);
    } else {
      FirstTop(n, levels, j + 1);
    }
  }

  /** The fold keeps its first node as the left half of the root's block. */
  lemma {:induction false} FoldKeepsFirst(f: Output -> Cv, s: seq<Cv>)
    requires |s| >= 2
    ensures FoldOutput(f, s).left == s[0]
  {
  }

  /** The levels with at least two nodes determine the root if and only if the number of chunks is a power of
      two; otherwise the root's left half is the node of the single-node level. */
  lemma TopLevelNeeded(f: Output -> Cv, n: nat)
    requires n >= 2
    ensures TopIsNotNeeded(f, n) <==> PopCount(n) == 1
    ensures PopCount(n) == 1 <==> n == Pow2(BitLength(n) - 1)
  {
    BitLengthBounds(n);
    OnlyTopIsSingle(n, BitLength(n) - 2);
    PopCountPositive(n);
    PowerHasOneBit(n);
    if PopCount(n) == 1 {
      forall levels, levels' | Readable(n, levels) && Readable(n, levels') && AgreeBelowTop(levels, levels')
        ensures SameRoot(f, n, levels, levels')
      {
        TopsReadCount(n, levels, 0);
        TopsReadCount(n, levels', 0);
      }
    } else {
      TopChangesRoot(f, n);
    }
  }

  lemma PowerHasOneBit(n: nat)
    requires n >= 2
    ensures PopCount(n) == 1 <==> n == Pow2(BitLength(n) - 1)
  {
    BitLengthBounds(n);
    if PopCount(n) == 1 {
      PopCountOne(n, BitLength(n) - 1);
    } else {
      PowersHaveOneBit(BitLength(n) - 1);
    }
  }

  lemma {:induction false} PowersHaveOneBit(e: nat)
    ensures PopCount(Pow2(e)) == 1
  {
    if e > 0 { PowersHaveOneBit(e - 1); }
  }

  /** Levels of the right lengths, all nodes zero but the single one of the top level. */
  function LevelsWithTop(n: nat, top: Cv): (levels: seq<seq<Cv>>)
    requires n >= 2
    ensures |levels| == BitLength(n) >= 2
  {
    seq(BitLength(n), j requires 0 <= j < BitLength(n) =>
      if j == BitLength(n) - 1 then [top] else seq(Shr(n, j), _ => ZERO32))
  }

  lemma LevelsWithTopAreReadable(n: nat, top: Cv)
    requires n >= 2
    ensures Readable(n, LevelsWithTop(n, top))
  {
    hide BitLength, Shr, Pow2;
    BitLengthBounds(n);
    OnlyTopIsSingle(n, 0);
    OnlyTopIsSingle(n, BitLength(n) - 2);
    hide LevelsWithTop;
    forall j | 0 <= j < BitLength(n)
      ensures Shr(n, j) <= |LevelsWithTop(n, top)[j]|
    {
      LevelOfTop(n, top, j);
    }
  }

  lemma LevelOfTop(n: nat, top: Cv, j: nat)
    requires n >= 2 && j < BitLength(n)
    ensures Shr(n, j) <= |LevelsWithTop(n, top)[j]|
  {
    OnlyTopIsSingle(n, j);
  }

  lemma FirstOfStack(n: nat, levels: seq<seq<Cv>>)
    requires Readable(n, levels) && PopCount(n) > 1
    ensures LongEnough(n, levels) && |levels[|levels| - 1]| >= 1
    ensures |StackRead(n, levels)| >= 2 && StackRead(n, levels)[0] == levels[|levels| - 1][0]
  {
    hide BitLength, Shr, PopCount, TopsRead;
    StackReadCount(n, levels);
    FirstTop(n, levels, 0);
  }

  lemma TopChangesRoot(f: Output -> Cv, n: nat)
    requires n >= 2 && PopCount(n) > 1
    ensures !TopIsNotNeeded(f, n)
  {
    hide BitLength, Shr, PopCount, TopsRead, StackRead, FoldOutput, LongEnough;
    var ones := Bytes32([1]);
    var levels, levels' := LevelsWithTop(n, ZERO32), LevelsWithTop(n, ones);
    LevelsWithTopAreReadable(n, ZERO32);
    LevelsWithTopAreReadable(n, ones);
    FirstOfStack(n, levels);
    FirstOfStack(n, levels');
    FoldKeepsFirst(f, StackRead(n, levels));
    FoldKeepsFirst(f, StackRead(n, levels'));
    assert ZERO32.bytes[0] == 0;
    assert AgreeBelowTop(levels, levels');
    assert !SameRoot(f, n, levels, levels');
  }

  /** Three chunks need it: there the root's left half is the one node of level 1. */
  lemma ThreeChunksNeedTop(f: Output -> Cv)
    ensures !TopIsNotNeeded(f, 3)
  {
    assert PopCount(3) == 2;
    TopLevelNeeded(f, 3);
  }
}
