/**
 The full keyed digest of a matrix: its chunks, its padding, and the root computed with the
 lazily merged stack of chaining values.
 */
module ChunkDigest {
  import opened Bits
  import opened Blake3Tree

  const B3_CHUNK: nat := 1024
  const BLAKE3_MAX_DEPTH: nat := 54
  /** Chunk counts are held in an `int`. */
  const CHUNK_COUNT_LIMIT: nat := 0x8000_0000

  function PaddedChunkLen(rawLen: nat): nat
  {
    (rawLen + B3_CHUNK - 1) / B3_CHUNK * B3_CHUNK
  }

  function NumChunks(rawLen: nat): nat
  {
    PaddedChunkLen(rawLen) / B3_CHUNK
  }

  /** Chunk i of the message, zero-padded to a whole chunk. */
  function ChunkBytes(data: seq<byte>, i: nat): (c: seq<byte>)
    ensures |c| == B3_CHUNK
  {
    seq(B3_CHUNK, p requires 0 <= p < B3_CHUNK =>
      if i * B3_CHUNK + p < |data| then data[i * B3_CHUNK + p] else 0)
  }

  function ChunkCvAt(b: Blake3, key: Key, data: seq<byte>, i: nat): Cv
  {
    KeyedChunk(b, key, i, ChunkBytes(data, i))
  }

  function ChunkCvs(b: Blake3, key: Key, data: seq<byte>): (r: seq<Cv>)
    ensures |r| == NumChunks(|data|)
  {
    seq(NumChunks(|data|), i requires 0 <= i < NumChunks(|data|) => ChunkCvAt(b, key, data, i))
  }

  /** The keyed BLAKE3 digest of the zero-padded message, by the recursive tree. */
  function FullDigest(b: Blake3, key: Key, data: seq<byte>): Digest
    requires NumChunks(|data|) >= 1
  {
    if NumChunks(|data|) == 1 then KeyedSingle(b, key, ChunkBytes(data, 0))
    else TreeRoot(b, key, ChunkCvs(b, key, data))
  }

  // ------------------------------------------------------------------------------------------
  // The stack of chaining values

  lemma {:induction false} PopCountSuccessor(n: nat)
    ensures n % 2 == 0 ==> PopCount(n + 1) == PopCount(n) + 1
    ensures n % 2 == 1 ==> PopCount(n + 1) <= PopCount(n)
  {
    if n % 2 == 1 {
      PopCountSuccessor(n / 2);
      assert (n + 1) / 2 == n / 2 + 1;
    } else {
      assert (n + 1) / 2 == n / 2;
    }
  }

  /** The stack after pushing the chunks l and before merging the last of them. */
  function Unmerged(f: Output -> Cv, l: seq<Cv>): (s: seq<Cv>)
    ensures |s| == if l == [] then 0 else PopCount(|l| - 1) + 1
  {
    if l == [] then [] else Tops(f, l[..|l| - 1]) + [l[|l| - 1]]
  }

  /** The stack is longer than it should be exactly when its last two entries are siblings. */
  lemma {:induction false} MergeNeeded(f: Output -> Cv, l: seq<Cv>)
    ensures |Unmerged(f, l)| > PopCount(|l|) <==> |l| > 0 && |l| % 2 == 0
  {
    hide PopCount;
    if l != [] { PopCountSuccessor(|l| - 1); }
  }

  /** Merging siblings gives the unmerged stack of the level above. */
  lemma {:induction false} MergeStep(f: Output -> Cv, l: seq<Cv>)
    requires |l| > 0 && |l| % 2 == 0
    ensures Tops(f, Pairs(f, l)) == Tops(f, l)
    ensures |Unmerged(f, l)| >= 2
    ensures var s := Unmerged(f, l);
            Unmerged(f, Pairs(f, l)) == s[..|s| - 2] + [f(Output(s[|s| - 2], s[|s| - 1]))]
  {
    hide Tops, Pairs, PopCount;
    var m, x := l[..|l| - 1], l[|l| - 1];
    assert m + [x] == l;
    PairsAppend(f, m, x);
    TopsUnfold(f, m);
    TopsUnfold(f, l);
    var p, z := Pairs(f, m), f(Output(m[|m| - 1], x));
    assert (p + [z])[..|p|] == p;
    assert Unmerged(f, l) == Tops(f, p) + [m[|m| - 1], x];
    assert Unmerged(f, Pairs(f, l)) == Tops(f, p) + [z];
  }

  lemma {:induction false} FullyMerged(f: Output -> Cv, l: seq<Cv>)
    requires |l| == 0 || |l| % 2 == 1
    ensures Unmerged(f, l) == Tops(f, l)
  {
    if l != [] {
      hide Tops, Pairs, PopCount;
      var m, x := l[..|l| - 1], l[|l| - 1];
      assert m + [x] == l;
      PairsAppend(f, m, x);
      TopsUnfold(f, l);
      if |m| > 0 { TopsUnfold(f, m); } else { assert m == []; }
    }
  }

  /** Merges the last chunk pushed into the stack: `l` are the chunks pushed so far. */
  method MergeCvStack(stack: array<Cv>, stackLen: nat, f: Output -> Cv, chunkCounter: nat,
                      ghost l: seq<Cv>) returns (newLen: nat)
    requires |l| == chunkCounter && stackLen <= stack.Length
    requires stack[..stackLen] == Unmerged(f, l)
    modifies stack
    ensures newLen == PopCount(chunkCounter) <= stack.Length
    ensures stack[..newLen] == Tops(f, l)
  {
    hide Tops, Pairs, PopCount, Unmerged;
    var post := PopCount(chunkCounter);
    newLen := stackLen;
    ghost var m := l;
    while newLen > post
      invariant newLen <= stack.Length
      invariant PopCount(|m|) == post
      invariant stack[..newLen] == Unmerged(f, m)
      invariant Tops(f, m) == Tops(f, l)
    {
      MergeNeeded(f, m);
      MergeStep(f, m);
      ghost var s := stack[..newLen];
      stack[newLen - 2] := f(Output(stack[newLen - 2], stack[newLen - 1]));
      newLen := newLen - 1;
      assert stack[..newLen] == s[..newLen - 1] + [f(Output(s[newLen - 1], s[newLen]))];
      m := Pairs(f, m);
    }
    MergeNeeded(f, m);
    FullyMerged(f, m);
  }

  method PushChunkCv(stack: array<Cv>, stackLen: nat, f: Output -> Cv, newCv: Cv,
                     chunkCounter: nat, ghost l: seq<Cv>) returns (newLen: nat)
    requires |l| == chunkCounter && stackLen <= stack.Length
    requires PopCount(chunkCounter) < stack.Length
    requires stack[..stackLen] == Unmerged(f, l)
    modifies stack
    ensures newLen == PopCount(chunkCounter) + 1 <= stack.Length
    ensures stack[..newLen] == Unmerged(f, l + [newCv])
  {
    hide Tops, PopCount;
    newLen := MergeCvStack(stack, stackLen, f, chunkCounter, l);
    stack[newLen] := newCv;
    newLen := newLen + 1;
    assert stack[..newLen] == stack[..newLen - 1] + [newCv];
    assert (l + [newCv])[..|l|] == l;
  }

  /** Folds a stack of two or more entries from the right into the unfinalized root. */
  method FoldStack(stack: array<Cv>, stackLen: nat, f: Output -> Cv) returns (output: Output)
    requires 2 <= stackLen <= stack.Length
    ensures output == FoldOutput(f, stack[..stackLen])
  {
    var remaining := stackLen - 2;
    output := Output(stack[remaining], stack[remaining + 1]);
    while remaining > 0
      invariant 0 <= remaining <= stackLen - 2
      invariant output == FoldOutput(f, stack[remaining..stackLen])
    {
      remaining := remaining - 1;
      assert stack[remaining..stackLen][1..] == stack[remaining + 1..stackLen];
      output := Output(stack[remaining], f(output));
    }
    assert stack[0..stackLen] == stack[..stackLen];
  }

  /** The root of two or more chunks, for every chunk count an `int` can hold. */
  method RootFromChunkCvs(b: Blake3, chunkCvs: array<Cv>, key: Key) returns (rc: int, out: Digest)
    requires chunkCvs.Length < CHUNK_COUNT_LIMIT
    ensures chunkCvs.Length <= 1 ==> rc == -1
    ensures chunkCvs.Length >= 2 ==> rc == 0 && out == TreeRoot(b, key, chunkCvs[..])
  {
    hide Tops, FoldOutput, TreeOutput, PopCount;
    out := ZERO32;
    if chunkCvs.Length <= 1 { return -1, out; }
    var f := KeyedParent(b, key);
    var stack := new Cv[BLAKE3_MAX_DEPTH + 1](_ => ZERO32);
    var stackLen, i := 0, 0;
    while i < chunkCvs.Length
      invariant 0 <= i <= chunkCvs.Length && 0 <= stackLen <= stack.Length
      invariant stack[..stackLen] == Unmerged(f, chunkCvs[..i])
    {
      StackFits(i);
      stackLen := PushChunkCv(stack, stackLen, f, chunkCvs[i], i, chunkCvs[..i]);
      i := i + 1;
      assert chunkCvs[..i - 1] + [chunkCvs[i - 1]] == chunkCvs[..i];
    }
    ghost var l := chunkCvs[..];
    assert chunkCvs[..i] == l && l[..|l| - 1] + [l[|l| - 1]] == l;
    StackIsTree(f, l[..|l| - 1], l[|l| - 1]);
    var output := FoldStack(stack, stackLen, f);
    return 0, KeyedRoot(b, key, output);
  }

  lemma {:induction false} StackFits(i: nat)
    requires i < CHUNK_COUNT_LIMIT
    ensures PopCount(i) < BLAKE3_MAX_DEPTH + 1
  {
    Pow2Values();
    PopCountBound(i, 31);
  }

  /** The whole digest from the bytes of a buffer; `oom` says that the chaining-value buffer
      cannot be allocated. */
  method KeyedMatrixDigestChunks(b: Blake3, data: array<byte>, rawLen: nat, padLen: nat, key: Key,
                                 oom: bool) returns (rc: int, out: Digest)
    requires rawLen <= data.Length && padLen == PaddedChunkLen(rawLen)
    requires NumChunks(rawLen) < CHUNK_COUNT_LIMIT
    ensures rc == if padLen == 0 || (NumChunks(rawLen) >= 2 && oom) then -1 else 0
    ensures rc == 0 ==> NumChunks(rawLen) >= 1 && out == FullDigest(b, key, data[..rawLen])
  {
    out := ZERO32;
    if padLen == 0 || padLen % B3_CHUNK != 0 { return -1, out; }
    var numChunks := padLen / B3_CHUNK;
    if numChunks == 1 {
      var chunk := CopyChunk(data, rawLen, 0);
      return 0, KeyedSingle(b, key, chunk);
    }
    if oom { return -1, out; }
    var cvs := new Cv[numChunks](_ => ZERO32);
    var i := 0;
    while i < numChunks
      invariant 0 <= i <= numChunks
      invariant forall t :: 0 <= t < i ==> cvs[t] == ChunkCvAt(b, key, data[..rawLen], t)
    {
      var chunk := CopyChunk(data, rawLen, i);
      cvs[i] := KeyedChunk(b, key, i, chunk);
      i := i + 1;
    }
    assert cvs[..] == ChunkCvs(b, key, data[..rawLen]);
    rc, out := RootFromChunkCvs(b, cvs, key);
  }

  /** One chunk, copied into a zeroed chunk-sized buffer. */
  method CopyChunk(data: array<byte>, rawLen: nat, i: nat) returns (chunk: seq<byte>)
    requires rawLen <= data.Length
    ensures chunk == ChunkBytes(data[..rawLen], i)
  {
    var off := i * B3_CHUNK;
    var zero := seq(B3_CHUNK, _ => 0 as byte);
    if off < rawLen {
      var n := rawLen - off;
      if n > B3_CHUNK { n := B3_CHUNK; }
      chunk := data[off..off + n] + zero[n..];
    } else {
      chunk := zero;
    }
    ghost var want := ChunkBytes(data[..rawLen], i);
    forall p | 0 <= p < B3_CHUNK ensures chunk[p] == want[p] {}
    assert chunk == want;
  }
}
