/**
 The incremental keyed matrix digest: level j of the cached tree holds every complete node over
 2^j chunks. After a few bytes change, only their chunks and those chunks' ancestors are hashed
 again.
 */
module MatrixHash {
  import opened Arith
  import opened Bits
  import opened Blake3Tree
  import opened ChunkDigest
  import opened DirtyList
  import opened LevelRoot
  import opened TreeImage

  // ------------------------------------------------------------------------------------------
  // Which bytes may have changed

  /** Every byte that differs lies in the chunk of some listed offset. */
  ghost predicate Covered(before: seq<byte>, after: seq<byte>, offsets: seq<nat>) {
    |before| == |after| &&
    forall p :: 0 <= p < |before| && before[p] != after[p] ==>
      p / B3_CHUNK in DirtyChunks(offsets, NumChunks(|before|))
  }

  ghost predicate AgreeOutside(s: seq<Cv>, t: seq<Cv>, idx: seq<nat>) {
    |s| == |t| && forall v :: 0 <= v < |s| && v !in idx ==> s[v] == t[v]
  }

  lemma UntouchedChunk(before: seq<byte>, after: seq<byte>, offsets: seq<nat>, i: nat)
    requires Covered(before, after, offsets) && i !in DirtyChunks(offsets, NumChunks(|before|))
    ensures ChunkBytes(before, i) == ChunkBytes(after, i)
  {
    forall p | 0 <= p < B3_CHUNK ensures ChunkBytes(before, i)[p] == ChunkBytes(after, i)[p] {
      DivUnique(i * B3_CHUNK + p, B3_CHUNK, i, p);
    }
  }

  /** Only chunks in the dirty list can have changed their chaining value. */
  lemma CleanChunksAgree(b: Blake3, key: Key, before: seq<byte>, after: seq<byte>,
                         offsets: seq<nat>, idx: seq<nat>)
    requires Covered(before, after, offsets)
    requires Elements(idx) == DirtyChunks(offsets, NumChunks(|before|))
    ensures AgreeOutside(ChunkCvs(b, key, before), ChunkCvs(b, key, after), idx)
  {
    forall i: nat | i < NumChunks(|before|) && i !in idx
      ensures ChunkCvAt(b, key, before, i) == ChunkCvAt(b, key, after, i)
    {
      assert i !in Elements(idx);
      UntouchedChunk(before, after, offsets, i);
    }
  }

  lemma OnlyDirtyChunks(offsets: seq<nat>, n: nat, idx: seq<nat>)
    requires Elements(idx) == DirtyChunks(offsets, n)
    ensures forall v :: v in idx ==> v < n
  {
    forall v | v in idx ensures v < n { assert v in Elements(idx); }
  }

  /** Dirtiness travels to the parents, and to nothing else. */
  lemma {:induction false} CleanParentsAgree(f: Output -> Cv, s: seq<Cv>, t: seq<Cv>, idx: seq<nat>, up: seq<nat>)
    requires AgreeOutside(s, t, idx)
    requires forall v :: v in idx && v / 2 < |s| / 2 ==> v / 2 in up
    ensures AgreeOutside(Pairs(f, s), Pairs(f, t), up)
  {
    forall w: nat | w < |s| / 2 && w !in up ensures Pairs(f, s)[w] == Pairs(f, t)[w] {
      assert 2 * w / 2 == w && (2 * w + 1) / 2 == w;
      assert 2 * w !in idx && 2 * w + 1 !in idx;
    }
  }

  lemma {:induction false} SameLevelSameAbove(f: Output -> Cv, s: seq<Cv>, t: seq<Cv>, j: nat, k: nat)
    requires j <= k && Level(f, s, j) == Level(f, t, j)
    ensures Level(f, s, k) == Level(f, t, k)
  {
    if j < k {
      SameLevelSameAbove(f, s, t, j, k - 1);
      hide Pairs;
    }
  }

  // ------------------------------------------------------------------------------------------
  // The cached tree

  /** Every complete parent of one level. */
  method ParentsInto(f: Output -> Cv, lo: array<Cv>, hi: array<Cv>)
    requires lo != hi && hi.Length == lo.Length / 2
    modifies hi
    ensures hi[..] == Pairs(f, lo[..])
  {
    for i := 0 to hi.Length
      invariant forall t :: 0 <= t < i ==> hi[t] == f(Output(lo[2 * t], lo[2 * t + 1]))
    {
      hi[i] := f(Output(lo[2 * i], lo[2 * i + 1]));
    }
  }

  /** Only the listed parents of one level, given that the others are up to date. */
  method ParentsAt(f: Output -> Cv, lo: array<Cv>, hi: array<Cv>, idx: array<nat>, cnt: nat)
    requires lo != hi && hi.Length == lo.Length / 2 && cnt <= idx.Length
    requires forall v :: v in idx[..cnt] ==> v < hi.Length
    requires AgreeOutside(hi[..], Pairs(f, lo[..]), idx[..cnt])
    modifies hi
    ensures hi[..] == Pairs(f, lo[..])
  {
    ghost var want := Pairs(f, lo[..]);
    for t := 0 to cnt
      invariant forall v :: 0 <= v < hi.Length && v !in idx[t..cnt] ==> hi[v] == want[v]
    {
      assert idx[t..cnt] == [idx[t]] + idx[t + 1..cnt];
      assert idx[t] in idx[..cnt];
      hi[idx[t]] := f(Output(lo[2 * idx[t]], lo[2 * idx[t] + 1]));
    }
  }

  method CopyNodes(src: seq<Cv>, off: nat, dst: array<Cv>)
    requires off + dst.Length <= |src|
    modifies dst
    ensures dst[..] == src[off..off + dst.Length]
  {
    for i := 0 to dst.Length
      invariant forall t :: 0 <= t < i ==> dst[t] == src[off + t]
    {
      dst[i] := src[off + i];
    }
  }

  method NewLevels(n: nat) returns (levels: seq<array<Cv>>)
    requires n >= 1
    ensures |levels| == BitLength(n) && fresh(levels)
    ensures forall i :: 0 <= i < |levels| ==> levels[i].Length == Shr(n, i)
    ensures forall i, k :: 0 <= i < k < |levels| ==> levels[i] != levels[k]
  {
    hide BitLength, Shr;
    var top := TopLevel(n);
    levels := [];
    for j := 0 to top + 1
      invariant |levels| == j && fresh(levels)
      invariant forall i :: 0 <= i < j ==> levels[i].Length == Shr(n, i)
      invariant forall i, k :: 0 <= i < k < j ==> levels[i] != levels[k]
    {
      var a := new Cv[Shr(n, j)](_ => ZERO32);
      levels := levels + [a];
    }
  }

  class PearlMatrixHash {
    const b: Blake3
    var valid: bool
    var key: Key
    var data: array?<byte>
    var rawLen: nat
    var numChunks: nat
    var level: seq<array<Cv>>
    var idx: array<nat>
    /** The bytes whose chunk values level 0 holds. */
    ghost var snap: seq<byte>

    ghost predicate Shaped()
      reads `numChunks, `level
    {
      && 2 <= numChunks < CHUNK_COUNT_LIMIT
      && |level| == BitLength(numChunks) && 1 <= |level| <= PEARL_MH_MAX_LEVELS
      && (forall j :: 0 <= j < |level| ==> level[j].Length == Shr(numChunks, j))
      && (forall i, j :: 0 <= i < j < |level| ==> level[i] != level[j])
    }

    ghost predicate Caches(cvs: seq<Cv>)
      reads `key, `numChunks, `level, level
    {
      && Shaped() && |cvs| == numChunks
      && forall j :: 0 <= j < |level| ==> level[j][..] == Level(KeyedParent(b, key), cvs, j)
    }

    /** The invariant of every call: a valid cache is the tree of the bytes it last saw. */
    ghost predicate Valid()
      reads this, level
    {
      valid ==> |snap| == rawLen && Caches(ChunkCvs(b, key, snap))
    }

    constructor (b: Blake3)
      ensures Valid() && !valid && this.b == b && fresh(idx) && level == []
    {
      this.b := b;
      valid, key, data, rawLen, numChunks, level, snap := false, ZERO32, null, 0, 0, [], [];
      idx := new nat[0];
    }

    method Release()
      modifies this
      ensures !valid && level == [] && fresh(idx) && idx.Length == 0
    {
      level, valid := [], false;
      idx := new nat[0];
    }

    method Invalidate()
      modifies this`valid
      ensures !valid
    {
      valid := false;
    }

    /** Allocates one array per level; `oom` makes an allocation fail. */
    method AllocLevels(oom: bool) returns (rc: int)
      requires 2 <= numChunks < CHUNK_COUNT_LIMIT
      modifies this`level
      ensures rc == if oom then -1 else 0
      ensures rc == 0 ==> Shaped() && fresh(level)
    {
      LevelsFit(numChunks);
      level := [];
      if oom { return -1; }
      level := NewLevels(numChunks);
      return 0;
    }

    lemma HalfAsLong(j: nat)
      requires Shaped() && 1 <= j < |level|
      ensures level[j - 1] != level[j] && level[j].Length == level[j - 1].Length / 2
    {}

    method BuildParents(ghost cvs: seq<Cv>)
      requires Shaped() && |cvs| == numChunks && level[0][..] == cvs
      modifies level
      ensures Caches(cvs)
    {
      var f := KeyedParent(b, key);
      LevelZero(f, cvs);
      hide Level, BitLength, Shr, Pairs;
      var j := 1;
      while j < |level|
        invariant 1 <= j <= |level|
        invariant forall t :: 0 <= t < j ==> level[t][..] == Level(f, cvs, t)
      {
        HalfAsLong(j);
        ParentsInto(f, level[j - 1], level[j]);
        LevelAbove(f, cvs, j);
        j := j + 1;
      }
    }

    /** `pearl_mh_chunk_cv`: a whole chunk is hashed where it lies, the last one from a padded copy. */
    method ChunkCv(mat: array<byte>, i: nat) returns (cv: Cv)
      requires rawLen <= mat.Length
      ensures cv == ChunkCvAt(b, key, mat[..rawLen], i)
    {
      var off := i * B3_CHUNK;
      if off + B3_CHUNK <= rawLen {
        assert mat[off..off + B3_CHUNK] == ChunkBytes(mat[..rawLen], i);
        cv := KeyedChunk(b, key, i, mat[off..off + B3_CHUNK]);
      } else {
        var chunk := CopyChunk(mat, rawLen, i);
        cv := KeyedChunk(b, key, i, chunk);
      }
    }

    method Build(mat: array<byte>, oom: bool) returns (rc: int)
      requires rawLen <= mat.Length && numChunks == NumChunks(rawLen)
      requires 2 <= numChunks < CHUNK_COUNT_LIMIT
      modifies this`level
      ensures rc == if oom then -1 else 0
      ensures rc == 0 ==> Caches(ChunkCvs(b, key, mat[..rawLen])) && fresh(level)
    {
      rc := AllocLevels(oom);
      if rc != 0 { return; }
      ghost var lv := level;
      for i := 0 to numChunks
        invariant level == lv && Shaped()
        invariant forall t :: 0 <= t < i ==> level[0][t] == ChunkCvAt(b, key, mat[..rawLen], t)
      {
        level[0][i] := ChunkCv(mat, i);
      }
      assert level[0][..] == ChunkCvs(b, key, mat[..rawLen]);
      BuildParents(ChunkCvs(b, key, mat[..rawLen]));
    }

    /** Rehashes the listed chunks. */
    method RehashChunks(mat: array<byte>, cnt: nat)
      requires rawLen <= mat.Length && numChunks == NumChunks(rawLen)
      requires Shaped() && cnt <= idx.Length
      requires forall v :: v in idx[..cnt] ==> v < numChunks
      requires AgreeOutside(level[0][..], ChunkCvs(b, key, mat[..rawLen]), idx[..cnt])
      modifies level[0]
      ensures level[0][..] == ChunkCvs(b, key, mat[..rawLen])
    {
      ghost var want := ChunkCvs(b, key, mat[..rawLen]);
      for t := 0 to cnt
        invariant forall v :: 0 <= v < numChunks && v !in idx[t..cnt] ==> level[0][v] == want[v]
      {
        assert idx[t..cnt] == [idx[t]] + idx[t + 1..cnt];
        assert idx[t] in idx[..cnt];
        level[0][idx[t]] := ChunkCv(mat, idx[t]);
      }
    }

    /** Refreshes the ancestors of the listed chunks, level by level, until none has a parent. */
    method RefreshParents(cnt0: nat, ghost before: seq<Cv>, ghost after: seq<Cv>)
      requires Shaped() && |before| == |after| == numChunks && cnt0 <= idx.Length
      requires StrictlySorted(idx[..cnt0])
      requires level[0][..] == after
      requires forall t :: 1 <= t < |level| ==> level[t][..] == Level(KeyedParent(b, key), before, t)
      requires AgreeOutside(before, after, idx[..cnt0])
      modifies level, idx
      ensures Caches(after)
    {
      var f := KeyedParent(b, key);
      LevelZero(f, before);
      LevelZero(f, after);
      hide Level, BitLength, Pairs, Shr;
      var cnt, j := cnt0, 1;
      while j < |level| && cnt > 0
        invariant 1 <= j <= |level| && 0 <= cnt <= idx.Length
        invariant StrictlySorted(idx[..cnt])
        invariant forall t :: 0 <= t < j ==> level[t][..] == Level(f, after, t)
        invariant forall t :: j <= t < |level| ==> level[t][..] == Level(f, before, t)
        invariant AgreeOutside(Level(f, before, j - 1), Level(f, after, j - 1), idx[..cnt])
      {
        ghost var dirty := idx[..cnt];
        cnt := ParentsOf(idx, cnt, level[j].Length);
        LevelAbove(f, before, j);
        LevelAbove(f, after, j);
        LevelLength(f, before, j - 1);
        HalfAsLong(j);
        CleanParentsAgree(f, Level(f, before, j - 1), Level(f, after, j - 1), dirty, idx[..cnt]);
        ParentsAt(f, level[j - 1], level[j], idx, cnt);
        j := j + 1;
      }
      if j < |level| {
        assert Level(f, before, j - 1) == Level(f, after, j - 1);
        forall t | j <= t < |level| ensures level[t][..] == Level(f, after, t) {
          SameLevelSameAbove(f, before, after, j - 1, t);
        }
      }
    }

    /** The sorted list of dirty chunks; `oom` makes the allocation of a larger scratch array fail. */
    method ListDirtyChunks(offsets: seq<nat>, oom: bool) returns (rc: int, cnt: nat)
      modifies this`idx, idx
      ensures rc == if old(idx.Length) < |offsets| && oom then -1 else 0
      ensures rc == 0 ==> cnt <= idx.Length && StrictlySorted(idx[..cnt])
      ensures rc == 0 ==> Elements(idx[..cnt]) == DirtyChunks(offsets, numChunks)
      ensures idx == old(idx) || fresh(idx)
    {
      if idx.Length < |offsets| {
        if oom {
          idx := new nat[0];
          return -1, 0;
        }
        idx := new nat[|offsets|];
      }
      cnt := CollectChunks(offsets, numChunks, idx);
      ghost var chunks := idx[..cnt];
      Sort(idx, cnt);
      cnt := Deduplicate(idx, cnt);
      assert Elements(idx[..cnt]) == Elements(chunks);
      rc := 0;
    }

    /** `pearl_mh_update`. */
    method Update(mat: array<byte>, offsets: seq<nat>, oom: bool) returns (rc: int, rehashed: nat)
      requires rawLen <= mat.Length && numChunks == NumChunks(rawLen)
      requires |snap| == rawLen && Caches(ChunkCvs(b, key, snap))
      requires Covered(snap, mat[..rawLen], offsets)
      modifies this`idx, this`snap, level, idx
      ensures rc == if old(idx.Length) < |offsets| && oom then -1 else 0
      ensures rc == 0 ==> snap == mat[..rawLen] && Caches(ChunkCvs(b, key, snap))
      ensures rc == 0 ==> rehashed == |DirtyChunks(offsets, numChunks)|
      ensures idx == old(idx) || fresh(idx)
    {
      ghost var bytes := mat[..rawLen];
      ghost var before, after := ChunkCvs(b, key, snap), ChunkCvs(b, key, bytes);
      LevelZero(KeyedParent(b, key), before);
      hide Level, Elements, Covered, DirtyChunks, ChunkCvs, BitLength, Shr;
      var cnt;
      rc, cnt := ListDirtyChunks(offsets, oom);
      rehashed := cnt;
      if rc != 0 { return; }
      StrictlySortedSize(idx[..cnt]);
      CleanChunksAgree(b, key, snap, bytes, offsets, idx[..cnt]);
      OnlyDirtyChunks(offsets, numChunks, idx[..cnt]);
      RehashChunks(mat, cnt);
      RefreshParents(cnt, before, after);
      snap := bytes;
    }

    /** The root of the cached tree. */
    method CachedRoot(ghost cvs: seq<Cv>) returns (out: Digest)
      requires Caches(cvs)
      ensures out == TreeRoot(b, key, cvs)
    {
      hide Level;
      var levels := [];
      for j := 0 to |level|
        invariant |levels| == j && forall t :: 0 <= t < j ==> levels[t] == level[t][..]
      {
        levels := levels + [level[j][..]];
      }
      out := Root(b, key, numChunks, levels, cvs);
    }

    /** Drops the cache and starts a new one for another buffer, length or key. */
    method Restart(mat: array?<byte>, len: nat, k: Key)
      modifies this
      ensures !valid && level == [] && fresh(idx)
      ensures data == mat && rawLen == len && key == k && numChunks == NumChunks(len)
    {
      Release();
      key, data, rawLen, numChunks := k, mat, len, NumChunks(len);
    }

    method FillFromTree(tree: seq<Cv>, ghost cvs: seq<Cv>)
      requires Shaped() && |cvs| == numChunks
      requires HoldsTree(tree, KeyedParent(b, key), cvs)
      modifies level
      ensures Caches(cvs)
    {
      ghost var f := KeyedParent(b, key);
      hide Level, Shr, LevelOffset, BitLength;
      var j := 0;
      while j < |level|
        invariant 0 <= j <= |level|
        invariant forall t :: 0 <= t < j ==> level[t][..] == Level(f, cvs, t)
      {
        assert HoldsLevel(tree, f, cvs, j);
        var off := TreeLevelOffset(numChunks, j);
        CopyNodes(tree, off, level[j]);
        j := j + 1;
      }
    }

    /** `pearl_matrix_hash_from_cvs`: rebuilds the cache from chunk values computed elsewhere for
        the bytes of the matrix. */
    method FromCvs(mat: array?<byte>, ghost bytes: seq<byte>, len: nat, k: Key, chunkCvs: seq<Cv>,
                   oom: bool) returns (rc: int, out: Digest)
      requires |bytes| == len && NumChunks(len) < CHUNK_COUNT_LIMIT
      requires NumChunks(len) >= 2 ==> chunkCvs == ChunkCvs(b, k, bytes)
      requires Valid()
      modifies this
      ensures rc == if NumChunks(len) <= 1 || oom then -1 else 0
      ensures rc == 0 ==> out == FullDigest(b, k, bytes)
      ensures rc == 0 ==> valid && data == mat && rawLen == len && key == k && snap == bytes
      ensures rc == -1 && NumChunks(len) >= 2 ==> !valid
      ensures NumChunks(len) <= 1 ==> unchanged(this)
      ensures Valid() && (level == old(level) || fresh(level)) && (idx == old(idx) || fresh(idx))
    {
      out := ZERO32;
      if NumChunks(len) <= 1 { return -1, out; }
      Restart(mat, len, k);
      rc := AllocLevels(oom);
      if rc != 0 {
        Release();
        return;
      }
      CopyNodes(chunkCvs, 0, level[0]);
      BuildParents(chunkCvs);
      valid, snap := true, bytes;
      out := CachedRoot(chunkCvs);
    }

    /** `pearl_matrix_hash_from_tree` with a hash to fill: keeps a copy of a tree computed elsewhere. */
    method FromTree(mat: array?<byte>, ghost bytes: seq<byte>, len: nat, k: Key, tree: seq<Cv>,
                    oom: bool) returns (rc: int, out: Digest)
      requires |bytes| == len && NumChunks(len) < CHUNK_COUNT_LIMIT
      requires NumChunks(len) >= 2 ==> HoldsTree(tree, KeyedParent(b, k), ChunkCvs(b, k, bytes))
      requires Valid()
      modifies this
      ensures rc == if NumChunks(len) <= 1 || oom then -1 else 0
      ensures rc == 0 ==> out == FullDigest(b, k, bytes)
      ensures rc == 0 ==> valid && data == mat && rawLen == len && key == k && snap == bytes
      ensures rc == -1 && NumChunks(len) >= 2 ==> !valid
      ensures NumChunks(len) <= 1 ==> unchanged(this)
      ensures Valid() && (level == old(level) || fresh(level)) && (idx == old(idx) || fresh(idx))
    {
      out := ZERO32;
      if NumChunks(len) <= 1 { return -1, out; }
      Restart(mat, len, k);
      rc := AllocLevels(oom);
      if rc != 0 {
        Release();
        return;
      }
      ghost var cvs := ChunkCvs(b, k, bytes);
      FillFromTree(tree, cvs);
      valid, snap := true, bytes;
      out := CachedRoot(cvs);
    }
  }

  /** `pearl_matrix_hash_from_tree` without a hash: the root read from the tree in place. */
  method RootOfTree(b: Blake3, key: Key, n: nat, tree: seq<Cv>, ghost cvs: seq<Cv>)
    returns (rc: int, out: Digest)
    requires n == |cvs| < CHUNK_COUNT_LIMIT
    requires n >= 2 ==> HoldsTree(tree, KeyedParent(b, key), cvs)
    ensures rc == if n <= 1 then -1 else 0
    ensures n >= 2 ==> out == TreeRoot(b, key, cvs)
  {
    out := ZERO32;
    if n <= 1 { return -1, out; }
    var levels := LevelsOfTree(KeyedParent(b, key), n, tree, cvs);
    LevelsFit(n);
    out := Root(b, key, n, levels, cvs);
    rc := 0;
  }

  method LevelsOfTree(ghost f: Output -> Cv, n: nat, tree: seq<Cv>, ghost cvs: seq<Cv>)
    returns (levels: seq<seq<Cv>>)
    requires n == |cvs| >= 1 && HoldsTree(tree, f, cvs)
    ensures |levels| == BitLength(n)
    ensures forall j :: 0 <= j < |levels| ==> Holds(levels[j], Level(f, cvs, j))
  {
    hide Level, Shr, LevelOffset, BitLength;
    var top := TopLevel(n);
    levels := [];
    for j := 0 to top + 1
      invariant |levels| == j && forall t :: 0 <= t < j ==> Holds(levels[t], Level(f, cvs, t))
    {
      var off := TreeLevelOffset(n, j);
      assert HoldsLevel(tree, f, cvs, j);
      LevelLength(f, cvs, j);
      assert tree[off..][..Shr(n, j)] == tree[off..off + Shr(n, j)];
      levels := levels + [tree[off..]];
    }
  }

  // ------------------------------------------------------------------------------------------
  // The digest call

  ghost function Footprint(h: PearlMatrixHash?): set<object?>
    reads h
  {
    if h == null then {} else {h, h.idx} + set i | 0 <= i < |h.level| :: h.level[i] as object?
  }

  /** Whether the call can reuse the cache. */
  predicate Reuses(h: PearlMatrixHash, mat: array<byte>, rawLen: nat, key: Key, offsetsNull: bool,
                   offsets: seq<nat>)
    reads h
  {
    h.valid && h.data == mat && h.rawLen == rawLen && h.key == key
    && !(|offsets| > 0 && offsetsNull)
  }

  /** A cache is reused only for its own buffer, length and key, and never when there should be offsets but none were
      passed. */
  lemma ReuseNeedsItsSubject(h: PearlMatrixHash, mat: array<byte>, rawLen: nat, key: Key, offsetsNull: bool,
                             offsets: seq<nat>)
    ensures !h.valid || h.data != mat || h.rawLen != rawLen || h.key != key ==>
              !Reuses(h, mat, rawLen, key, offsetsNull, offsets)
    ensures offsetsNull && offsets != [] ==> !Reuses(h, mat, rawLen, key, offsetsNull, offsets)
    ensures h.valid && h.data == mat && h.rawLen == rawLen && h.key == key && (offsets == [] || !offsetsNull) ==>
              Reuses(h, mat, rawLen, key, offsetsNull, offsets)
  {
  }

  /** `pearl_matrix_hash_digest`: the full keyed digest of the current bytes, whatever was cached,
      provided the offsets cover the bytes changed since the cache last saw the buffer. */
  method Digest(h: PearlMatrixHash?, b: Blake3, mat: array<byte>, rawLen: nat, key: Key,
                offsetsNull: bool, offsets: seq<nat>, oom: bool)
    returns (rc: int, out: Digest, rehashed: nat)
    requires rawLen <= mat.Length && NumChunks(rawLen) < CHUNK_COUNT_LIMIT
    requires h != null ==> h.Valid() && h.b == b
    requires h != null && NumChunks(rawLen) >= 2 && Reuses(h, mat, rawLen, key, offsetsNull, offsets)
      ==> Covered(h.snap, mat[..rawLen], offsets)
    modifies Footprint(h)
    ensures rc == 0 ==> NumChunks(rawLen) >= 1 && out == FullDigest(b, key, mat[..rawLen])
    ensures rc == 0 || rc == -1
    ensures NumChunks(rawLen) >= 1 && !oom ==> rc == 0
    ensures h != null ==> h.Valid()
    ensures h != null && NumChunks(rawLen) >= 2 && rc == 0 ==>
      h.valid && h.data == mat && h.rawLen == rawLen && h.key == key && h.snap == mat[..rawLen]
    ensures h != null && NumChunks(rawLen) >= 2 && rc != 0 ==> !h.valid
    ensures h != null && NumChunks(rawLen) >= 2 && rc == 0 ==>
      rehashed == if old(Reuses(h, mat, rawLen, key, offsetsNull, offsets))
                  then |DirtyChunks(offsets, NumChunks(rawLen))| else NumChunks(rawLen)
    ensures h != null && NumChunks(rawLen) <= 1 ==> unchanged(h)
    ensures fresh(Footprint(h) - old(Footprint(h)))
  {
    var padLen := PaddedChunkLen(rawLen);
    var n := padLen / B3_CHUNK;
    rehashed := n;
    if h == null || n <= 1 {
      rc, out := KeyedMatrixDigestChunks(b, mat, rawLen, padLen, key, oom);
      return;
    }
    out := ZERO32;
    if !Reuses(h, mat, rawLen, key, offsetsNull, offsets) {
      h.Restart(mat, rawLen, key);
      rc := h.Build(mat, oom);
      if rc != 0 {
        h.Release();
        return;
      }
      h.valid, h.snap := true, mat[..rawLen];
    } else {
      assert forall i :: 0 <= i < |h.level| ==> (h.level[i] as object?) in Footprint(h);
      rc, rehashed := h.Update(mat, offsets, oom);
      if rc != 0 {
        h.valid := false;
        return;
      }
    }
    out := h.CachedRoot(ChunkCvs(b, key, mat[..rawLen]));
  }

  lemma {:induction false} LevelAbove(f: Output -> Cv, cvs: seq<Cv>, j: nat)
    requires j >= 1
    ensures Level(f, cvs, j) == Pairs(f, Level(f, cvs, j - 1))
  {}
}
