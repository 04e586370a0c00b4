/** A whole cached tree in one buffer: the levels in order, each padded to four nodes. */
module TreeImage {
  import opened Bits
  import opened Blake3Tree

  function LevelOffset(n: nat, level: nat): nat
  {
    if level == 0 then 0 else LevelOffset(n, level - 1) + (Shr(n, level - 1) + 3) / 4 * 4
  }

  /** `pearl_matrix_tree_level_offset`. */
  method TreeLevelOffset(n: nat, level: nat) returns (off: nat)
    ensures off == LevelOffset(n, level)
  {
    off := 0;
    for j := 0 to level
      invariant off == LevelOffset(n, j)
    {
      off := off + (Shr(n, j) + 3) / 4 * 4;
    }
  }

  /** Levels start on four-node boundaries and end before the next level starts. */
  lemma {:induction false} LevelsDoNotOverlap(n: nat, j: nat, k: nat)
    requires j < k
    ensures LevelOffset(n, j) % 4 == 0
    ensures LevelOffset(n, j) + Shr(n, j) <= LevelOffset(n, k)
    ensures k == j + 1 ==> LevelOffset(n, k) < LevelOffset(n, j) + Shr(n, j) + 4
    decreases k
  {
    Aligned(n, j);
    if k > j + 1 { LevelsDoNotOverlap(n, j, k - 1); }
  }

  lemma {:induction false} Aligned(n: nat, j: nat)
    ensures LevelOffset(n, j) % 4 == 0
  {
    if j > 0 { Aligned(n, j - 1); }
  }

  ghost predicate HoldsLevel(tree: seq<Cv>, f: Output -> Cv, cvs: seq<Cv>, j: nat) {
    var off := LevelOffset(|cvs|, j);
    off + Shr(|cvs|, j) <= |tree| && tree[off..off + Shr(|cvs|, j)] == Level(f, cvs, j)
  }

  /** A buffer holding every level of the tree over cvs. */
  ghost predicate HoldsTree(tree: seq<Cv>, f: Output -> Cv, cvs: seq<Cv>) {
    forall j :: 0 <= j < BitLength(|cvs|) ==> HoldsLevel(tree, f, cvs, j)
  }

  /** The image of the first k levels, as a producer of the tree would lay it out. */
  function Image(f: Output -> Cv, cvs: seq<Cv>, k: nat, pad: Cv): (tree: seq<Cv>)
    ensures |tree| == LevelOffset(|cvs|, k)
  {
    if k == 0 then []
    else
      LevelLength(f, cvs, k - 1);
      var l := Level(f, cvs, k - 1);
      Image(f, cvs, k - 1, pad) + l + seq((|l| + 3) / 4 * 4 - |l|, _ => pad)
  }

  /** The slice of a level is found in every longer image. */
  lemma HeldInLonger(tree: seq<Cv>, more: seq<Cv>, f: Output -> Cv, cvs: seq<Cv>, j: nat)
    requires HoldsLevel(tree, f, cvs, j)
    ensures HoldsLevel(tree + more, f, cvs, j)
  {
    hide Level, Shr, LevelOffset;
    var off, end := LevelOffset(|cvs|, j), LevelOffset(|cvs|, j) + Shr(|cvs|, j);
    assert (tree + more)[off..end] == tree[off..end];
  }

  lemma {:induction false} ImageHoldsLevel(f: Output -> Cv, cvs: seq<Cv>, k: nat, pad: Cv, j: nat)
    requires j < k
    ensures HoldsLevel(Image(f, cvs, k, pad), f, cvs, j)
    decreases k
  {
    hide Level, Shr;
    var front, last := Image(f, cvs, k - 1, pad), Level(f, cvs, k - 1);
    var fill := seq((|last| + 3) / 4 * 4 - |last|, _ => pad);
    assert Image(f, cvs, k, pad) == front + last + fill;
    LevelLength(f, cvs, k - 1);
    hide Image;
    if k > j + 1 {
      ImageHoldsLevel(f, cvs, k - 1, pad, j);
      HeldInLonger(front, last, f, cvs, j);
    } else {
      assert (front + last)[|front|..|front| + |last|] == last;
    }
    HeldInLonger(front + last, fill, f, cvs, j);
  }

  /** Laying the levels out at these offsets loses none of them. */
  lemma ImageHoldsTree(f: Output -> Cv, cvs: seq<Cv>, pad: Cv)
    ensures HoldsTree(Image(f, cvs, BitLength(|cvs|), pad), f, cvs)
  {
    forall j | 0 <= j < BitLength(|cvs|)
      ensures HoldsLevel(Image(f, cvs, BitLength(|cvs|), pad), f, cvs, j)
    {
      ImageHoldsLevel(f, cvs, BitLength(|cvs|), pad, j);
    }
  }
}
