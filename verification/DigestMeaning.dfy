/**
 What the keyed digest gives the compression function, written out in its own terms, and what follows for two
 messages: equal digests of equally long messages have equal bytes if compression never collides.
 */
module DigestMeaning {
  import opened Arith
  import opened Bits
  import opened Blake3Tree
  import opened ChunkDigest

  /** The bytes of chunk `i`, zeros after the end of the message. */
  function Piece(data: seq<byte>, i: nat): (c: seq<byte>)
    ensures |c| == 1024
  {
    seq(1024, p requires 0 <= p < 1024 => if 1024 * i + p < |data| then data[1024 * i + p] else 0)
  }

  /** How many chunks a message has. */
  function Pieces(len: nat): nat { (len + 1023) / 1024 }

  lemma PiecesAreChunks(data: seq<byte>, i: nat)
    ensures NumChunks(|data|) == Pieces(|data|) && ChunkBytes(data, i) == Piece(data, i)
  {
    DivUnique(Pieces(|data|) * 1024, 1024, Pieces(|data|), 0);
  }

  /** Every chunk is compressed with its own number as the counter. */
  lemma ChunkValues(b: Blake3, key: Key, data: seq<byte>, i: nat)
    requires i < Pieces(|data|)
    ensures |ChunkCvs(b, key, data)| == Pieces(|data|)
    ensures ChunkCvs(b, key, data)[i] == b.chunk(key, i, Piece(data, i))
  {
    PiecesAreChunks(data, i);
  }

  lemma OneChunk(b: Blake3, key: Key, data: seq<byte>)
    requires 0 < |data| <= 1024
    ensures NumChunks(|data|) == 1 && FullDigest(b, key, data) == b.single(key, Piece(data, 0))
  {
    PiecesAreChunks(data, 0);
  }

  lemma TwoChunks(b: Blake3, key: Key, data: seq<byte>)
    requires 1024 < |data| <= 2048
    ensures NumChunks(|data|) == 2
    ensures FullDigest(b, key, data) ==
            b.root(key)(Output(b.chunk(key, 0, Piece(data, 0)), b.chunk(key, 1, Piece(data, 1))))
  {
    PiecesAreChunks(data, 0);
    ChunkValues(b, key, data, 0);
    ChunkValues(b, key, data, 1);
    var cvs := ChunkCvs(b, key, data);
    hide ChunkCvs;
    TreePair(KeyedParent(b, key), cvs);
  }

  // ------------------------------------------------------------------------------------------
  // The tree over any number of chunks

  /** A tree over chunk numbers. */
  datatype Node = Leaf(chunk: nat) | Inner(left: Node, right: Node)

  function Size(n: Node): (s: nat)
    ensures s > 0
  {
    match n
    case Leaf(_) => 1
    case Inner(l, r) => Size(l) + Size(r)
  }

  /** The leaves are the chunks from `from` on, in order. */
  predicate Spans(n: Node, from: nat) {
    match n
    case Leaf(i) => i == from
    case Inner(l, r) => Spans(l, from) && Spans(r, from + Size(l))
  }

  /** The shape BLAKE3 prescribes: every left subtree is as large as a power of two can be that leaves something
      to the right. */
  ghost predicate Shaped(n: Node) {
    match n
    case Leaf(_) => true
    case Inner(l, r) => Shaped(l) && Shaped(r) && Size(r) <= Size(l) && exists e: nat :: Size(l) == Pow2(e)
  }

  function Value(b: Blake3, key: Key, data: seq<byte>, n: Node): Cv {
    match n
    case Leaf(i) => b.chunk(key, i, Piece(data, i))
    case Inner(l, r) => b.parent(key)(Output(Value(b, key, data, l), Value(b, key, data, r)))
  }

  /** The values of consecutive chunks. */
  ghost predicate Covers(b: Blake3, key: Key, data: seq<byte>, cvs: seq<Cv>, from: nat) {
    forall i: nat :: i < |cvs| ==> cvs[i] == b.chunk(key, from + i, Piece(data, from + i))
  }

  lemma {:induction false} TreeOfCvs(b: Blake3, key: Key, data: seq<byte>, cvs: seq<Cv>, from: nat) returns (n: Node)
    requires |cvs| >= 1 && Covers(b, key, data, cvs, from)
    ensures Size(n) == |cvs| && Spans(n, from) && Shaped(n)
    ensures Value(b, key, data, n) == TreeCv(KeyedParent(b, key), cvs)
    ensures |cvs| >= 2 ==> n.Inner?
    ensures |cvs| >= 2 ==> TreeOutput(KeyedParent(b, key), cvs) ==
                           Output(Value(b, key, data, n.left), Value(b, key, data, n.right))
    decreases |cvs|
  {
    if |cvs| == 1 {
      n := Leaf(from);
    } else {
      var k := LeftLen(|cvs|);
      var e := LeftLenIsPowerOfTwo(|cvs|);
      hide TreeCv, TreeOutput, LeftLen, Pow2, Piece, Shaped, Spans, Size, Value, Covers;
      CoversParts(b, key, data, cvs, from, k);
      var l := TreeOfCvs(b, key, data, cvs[..k], from);
      var r := TreeOfCvs(b, key, data, cvs[k..], from + k);
      TreeBySplit(KeyedParent(b, key), cvs, k);
      n := Inner(l, r);
      InnerIs(b, key, data, l, r, from, e);
    }
  }

  lemma InnerIs(b: Blake3, key: Key, data: seq<byte>, l: Node, r: Node, from: nat, e: nat)
    requires Spans(l, from) && Spans(r, from + Size(l)) && Shaped(l) && Shaped(r)
    requires Size(r) <= Size(l) == Pow2(e)
    ensures var n := Inner(l, r);
            && Size(n) == Size(l) + Size(r) && Spans(n, from) && Shaped(n)
            && Value(b, key, data, n) == KeyedParent(b, key)(Output(Value(b, key, data, l), Value(b, key, data, r)))
  {
  }

  lemma CoversParts(b: Blake3, key: Key, data: seq<byte>, cvs: seq<Cv>, from: nat, k: nat)
    requires k <= |cvs| && Covers(b, key, data, cvs, from)
    ensures Covers(b, key, data, cvs[..k], from) && Covers(b, key, data, cvs[k..], from + k)
  {
    hide Piece;
    forall i: nat | i < |cvs| - k
      ensures cvs[k..][i] == b.chunk(key, from + k + i, Piece(data, from + k + i))
    {
      assert cvs[k + i] == b.chunk(key, from + (k + i), Piece(data, from + (k + i)));
    }
  }

  /** The digest of two or more chunks: the root compression of the two subtrees of the tree prescribed, every
      inner node of which is a parent compression and every leaf the compression of its chunk under its number. */
  lemma DigestIsTree(b: Blake3, key: Key, data: seq<byte>) returns (l: Node, r: Node)
    requires |data| > 1024
    ensures Size(Inner(l, r)) == Pieces(|data|) && Spans(Inner(l, r), 0) && Shaped(Inner(l, r))
    ensures NumChunks(|data|) >= 2
    ensures FullDigest(b, key, data) == b.root(key)(Output(Value(b, key, data, l), Value(b, key, data, r)))
  {
    PiecesAreChunks(data, 0);
    var cvs := ChunkCvs(b, key, data);
    forall i: nat | i < |cvs|
      ensures cvs[i] == b.chunk(key, 0 + i, Piece(data, 0 + i))
    {
      ChunkValues(b, key, data, i);
    }
    hide ChunkCvs, TreeOutput, TreeCv, Shaped, Spans, Size, Value;
    var n := TreeOfCvs(b, key, data, cvs, 0);
    l, r := n.left, n.right;
  }

  // ------------------------------------------------------------------------------------------
  // The shape is unique

  lemma {:induction false} Pow2Between(d: nat, e: nat, n: nat)
    requires Pow2(d) < n <= 2 * Pow2(d) && Pow2(e) < n <= 2 * Pow2(e)
    ensures d == e
  {
    if d < e { Pow2Monotone(d + 1, e); }
    if e < d { Pow2Monotone(e + 1, d); }
  }

  lemma {:induction false} OneShape(m: Node, n: Node, from: nat)
    requires Shaped(m) && Shaped(n) && Spans(m, from) && Spans(n, from) && Size(m) == Size(n)
    ensures m == n
  {
    match (m, n)
    case (Inner(l, r), Inner(l', r')) =>
      var d: nat :| Size(l) == Pow2(d);
      var e: nat :| Size(l') == Pow2(e);
      Pow2Between(d, e, Size(m));
      OneShape(l, l', from);
      OneShape(r, r', from + Size(l));
    case _ =>
  }

  // ------------------------------------------------------------------------------------------
  // Binding

  /** Under this key the four compressions never give the same for different inputs. */
  ghost predicate Collisionless(b: Blake3, key: Key) {
    && (forall i: nat, x, y :: b.chunk(key, i, x) == b.chunk(key, i, y) ==> x == y)
    && (forall x, y :: b.parent(key)(x) == b.parent(key)(y) ==> x == y)
    && (forall x, y :: b.root(key)(x) == b.root(key)(y) ==> x == y)
    && (forall x, y :: b.single(key, x) == b.single(key, y) ==> x == y)
  }

  lemma {:induction false} ValueBinds(b: Blake3, key: Key, x: seq<byte>, y: seq<byte>, n: Node, from: nat, i: nat)
    requires Collisionless(b, key) && Value(b, key, x, n) == Value(b, key, y, n)
    requires Spans(n, from) && from <= i < from + Size(n)
    ensures Piece(x, i) == Piece(y, i)
  {
    match n
    case Leaf(_) =>
    case Inner(l, r) =>
      if i < from + Size(l) { ValueBinds(b, key, x, y, l, from, i); }
      else { ValueBinds(b, key, x, y, r, from + Size(l), i); }
  }

  /** Messages of the same length with the same digest are the same, so a commitment fixes every byte of the
      matrix. */
  lemma DigestBinds(b: Blake3, key: Key, x: seq<byte>, y: seq<byte>)
    requires Collisionless(b, key) && |x| == |y| > 0
    ensures NumChunks(|x|) >= 1 && NumChunks(|y|) >= 1
    ensures FullDigest(b, key, x) == FullDigest(b, key, y) ==> x == y
  {
    PiecesAreChunks(x, 0);
    PiecesAreChunks(y, 0);
    if FullDigest(b, key, x) == FullDigest(b, key, y) {
      forall i: nat | i < Pieces(|x|)
        ensures Piece(x, i) == Piece(y, i)
      {
        PieceBinds(b, key, x, y, i);
      }
      SamePieces(x, y);
    }
  }

  lemma PieceBinds(b: Blake3, key: Key, x: seq<byte>, y: seq<byte>, i: nat)
    requires Collisionless(b, key) && |x| == |y| > 0 && i < Pieces(|x|)
    requires NumChunks(|x|) >= 1 && NumChunks(|y|) >= 1 && FullDigest(b, key, x) == FullDigest(b, key, y)
    ensures Piece(x, i) == Piece(y, i)
  {
    hide FullDigest, NumChunks, Piece;
    if |x| <= 1024 {
      OneChunk(b, key, x);
      OneChunk(b, key, y);
    } else {
      var l, r := DigestIsTree(b, key, x);
      var l', r' := DigestIsTree(b, key, y);
      OneShape(Inner(l, r), Inner(l', r'), 0);
      if i < Size(l) { ValueBinds(b, key, x, y, l, 0, i); } else { ValueBinds(b, key, x, y, r, Size(l), i); }
    }
  }

  lemma SamePieces(x: seq<byte>, y: seq<byte>)
    requires |x| == |y| && forall i: nat :: i < Pieces(|x|) ==> Piece(x, i) == Piece(y, i)
    ensures x == y
  {
    forall p: nat | p < |x|
      ensures x[p] == y[p]
    {
      var i := p / 1024;
      assert p == 1024 * i + p % 1024;
      assert i < Pieces(|x|);
      assert Piece(x, i)[p % 1024] == Piece(y, i)[p % 1024];
    }
  }
}
