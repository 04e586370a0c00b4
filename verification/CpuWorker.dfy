/**
 The CPU worker's commitment to signal A. One row of A is rewritten per attempt; the worker lists
 the row's bytes as dirty and lets the cached hash rehash only those, unless it cannot vouch for
 the rest of the buffer.
 */
module CpuWorker {
  import opened Arith
  import opened Config
  import opened Blake3Tree
  import opened ChunkDigest
  import opened DirtyList
  import opened MatrixHash

  const ROW_LIMIT: nat := 0x2000_0000

  /** A matrix of m rows is 4m whole chunks. */
  lemma RowsAreChunks(m: nat)
    ensures NumChunks(m * K_DIM) == 4 * m
  {
    DivUnique(m * K_DIM + B3_CHUNK - 1, B3_CHUNK, 4 * m, B3_CHUNK - 1);
    DivUnique(4 * m * B3_CHUNK, B3_CHUNK, 4 * m, 0);
  }

  /** The offsets the worker lists for one row: one per kilobyte, and the row's last byte. */
  method RowOffsets(row: nat) returns (dirty: seq<nat>)
    ensures |dirty| == 5
    ensures forall t :: 0 <= t < 4 ==> dirty[t] == row * K_DIM + t * B3_CHUNK
  {
    dirty := [];
    var base, off := row * K_DIM, 0;
    while off < K_DIM
      invariant off == |dirty| * B3_CHUNK && |dirty| <= 4
      invariant forall t :: 0 <= t < |dirty| ==> dirty[t] == base + t * B3_CHUNK
    {
      dirty := dirty + [base + off];
      off := off + B3_CHUNK;
    }
    dirty := dirty + [base + K_DIM - 1];
  }

  /** Rewriting one row changes nothing outside the chunks of those offsets. */
  lemma RowIsCovered(before: seq<byte>, after: seq<byte>, row: nat, m: nat, dirty: seq<nat>)
    requires |before| == |after| == m * K_DIM && row < m
    requires forall p :: 0 <= p < |before| && !(row * K_DIM <= p < (row + 1) * K_DIM) ==>
      before[p] == after[p]
    requires |dirty| == 5 && forall t :: 0 <= t < 4 ==> dirty[t] == row * K_DIM + t * B3_CHUNK
    ensures Covered(before, after, dirty)
  {
    RowsAreChunks(m);
    forall p | 0 <= p < |before| && before[p] != after[p]
      ensures p / B3_CHUNK in DirtyChunks(dirty, NumChunks(|before|))
    {
      var t := (p - row * K_DIM) / B3_CHUNK;
      DivUnique(p, B3_CHUNK, 4 * row + t, (p - row * K_DIM) % B3_CHUNK);
      DivUnique(dirty[t], B3_CHUNK, 4 * row + t, 0);
    }
  }

  class CpuWorker {
    const b: Blake3
    /** Whether attempts rewrite one row instead of the whole matrix. */
    const rowpoke: bool
    var aHash: PearlMatrixHash?
    var aSigHashed: array?<byte>
    var aSigM: nat
    /** The signal matrix as the last attempt left it. */
    ghost var lastA: seq<byte>

    /** The cached tree is of the buffer the last attempt left. */
    ghost predicate Vouched(h: PearlMatrixHash)
      reads this, h
    {
      aSigHashed != null && h.valid && h.data == aSigHashed && h.rawLen == aSigM * K_DIM
    }

    ghost predicate Valid()
      reads this, aHash, if aHash == null then [] else aHash.level
    {
      && (aHash != null ==> aHash.Valid() && aHash.b == b)
      && (aHash != null && Vouched(aHash) ==> aHash.snap == lastA)
    }

    constructor (b: Blake3, rowpoke: bool)
      ensures Valid() && this.b == b && this.rowpoke == rowpoke && aHash == null && aSigHashed == null
    {
      this.b, this.rowpoke := b, rowpoke;
      aHash, aSigHashed, aSigM, lastA := null, null, 0, [];
    }

    /** Rewrites the signal: one row, when the rest of the buffer is what the last attempt left, or
        all of it, unless that is cancelled. Lists the bytes a reused cache has not seen. */
    method RewriteSignal(m: nat, sig: array<byte>, row: nat, vals: seq<byte>)
      returns (ok: bool, incremental: bool, dirty: seq<nat>)
      requires m < ROW_LIMIT && sig.Length >= m * K_DIM && DrawFits(rowpoke, m, row, vals)
      requires sig == aSigHashed && m == aSigM ==> sig[..m * K_DIM] == lastA
      modifies this`aSigHashed, this`aSigM, this`lastA, sig
      ensures ok == DrawEnds(rowpoke, m, vals) && sig[..] == Drawn(old(sig[..]), rowpoke, m, row, vals)
      ensures !ok ==> aSigHashed == null
      ensures ok ==> aSigHashed == sig && aSigM == m && lastA == sig[..m * K_DIM]
      ensures incremental ==> old(aSigHashed) == sig && old(aSigM) == m
      ensures incremental && ok ==> Covered(old(lastA), sig[..m * K_DIM], dirty)
    {
      var szA := m * K_DIM;
      incremental := rowpoke && aSigHashed == sig && aSigM == m;
      aSigHashed := null;
      dirty := [];
      ghost var before := sig[..szA];
      if rowpoke { ok := FillRow(sig, m, row, vals); } else { ok := FillAll(sig, szA, vals); }
      if !ok { return; }
      aSigHashed, aSigM, lastA := sig, m, sig[..szA];
      if incremental {
        dirty := RowOffsets(row);
        RowIsCovered(before, sig[..szA], row, m, dirty);
      }
    }

    /** Hashes the signal, reusing the cache only after an incremental rewrite. The result 1 stands
        for the process ending because even the full digest failed. */
    method Commit(jobKey: Key, m: nat, sig: array<byte>, incremental: bool, dirty: seq<nat>,
                  created: bool, oom: bool, lastOom: bool) returns (rc: int, hashA: Digest)
      requires m < ROW_LIMIT && sig.Length >= m * K_DIM
      requires aSigHashed == sig && aSigM == m && lastA == sig[..m * K_DIM]
      requires aHash != null ==> aHash.Valid() && aHash.b == b
      requires aHash != null && incremental && Vouched(aHash) ==> Covered(aHash.snap, lastA, dirty)
      modifies this`aHash, Footprint(aHash)
      ensures Valid() && fresh(Footprint(aHash) - old(Footprint(aHash)))
      ensures rc == 0 || (rc == 1 && (m == 0 || (oom && lastOom)))
      ensures rc == 0 ==> m > 0 && hashA == FullDigest(b, jobKey, sig[..m * K_DIM])
    {
      hide FullDigest, Covered, PearlMatrixHash.Caches;
      var szA := m * K_DIM;
      RowsAreChunks(m);
      if aHash == null {
        if created { aHash := new PearlMatrixHash(b); }
      } else if !incremental {
        aHash.Invalidate();
      }
      var rehashed;
      rc, hashA, rehashed := MatrixHash.Digest(aHash, b, sig, szA, jobKey, false, dirty, oom);
      if rc != 0 {
        if aHash != null { aHash.Invalidate(); }
        rc, hashA := KeyedMatrixDigestChunks(b, sig, szA, PaddedChunkLen(szA), jobKey, lastOom);
        if rc != 0 { rc := 1; }
      }
    }

    /** The A side of `zero_b_prepare_attempt`. `prepared` says whether the job's B side is ready, `entropyOk`
        whether there are random bytes; `row` and `vals` are what is drawn from them, fewer values than the matrix
        has when the draw is cancelled; `created`, `oom` and `lastOom` say which allocations succeed or fail, and
        `later` how the noisy matrix built after the commitment ends. */
    method PrepareAttempt(jobKey: Key, m: nat, sig: array?<byte>, prepared: bool, entropyOk: bool, row: nat,
                          vals: seq<byte>, created: bool, oom: bool, lastOom: bool, later: int)
      returns (rc: int, hashA: Digest)
      requires m < ROW_LIMIT && (sig != null ==> sig.Length >= m * K_DIM) && DrawFits(rowpoke, m, row, vals)
      requires Valid() && later in {0, -1, -2}
      requires sig != null && sig == aSigHashed && m == aSigM ==> sig[..m * K_DIM] == lastA
      modifies this, Footprint(aHash), sig
      ensures Valid() && fresh(Footprint(aHash) - old(Footprint(aHash)))
      ensures var reached := sig != null && prepared && entropyOk;
              && (!reached ==> rc == (if sig != null && !prepared then -1 else -2)
                               && aSigHashed == old(aSigHashed) && aSigM == old(aSigM) && lastA == old(lastA)
                               && (sig != null ==> sig[..] == old(sig[..])))
              && (reached ==> sig[..] == Drawn(old(sig[..]), rowpoke, m, row, vals))
              && (reached && !DrawEnds(rowpoke, m, vals) ==> rc == -1 && aSigHashed == null)
              && (reached && DrawEnds(rowpoke, m, vals) ==>
                    && aSigHashed == sig && aSigM == m && lastA == sig[..m * K_DIM]
                    && (rc == later || (rc == 1 && (m == 0 || (oom && lastOom)))))
      ensures rc == 0 ==> m > 0 && sig != null && hashA == FullDigest(b, jobKey, sig[..m * K_DIM])
    {
      hashA := ZERO32;
      if sig == null { return -2, hashA; }
      if !prepared { return -1, hashA; }
      if !entropyOk { return -2, hashA; }
      var ok, incremental, dirty := RewriteSignal(m, sig, row, vals);
      if !ok { return -1, hashA; }
      rc, hashA := Commit(jobKey, m, sig, incremental, dirty, created, oom, lastOom);
      if rc == 0 { rc := later; }
    }
  }

  // ------------------------------------------------------------------------------------------
  // Drawing the signal

  /** One row of values, or the values drawn before the end or a cancellation. */
  predicate DrawFits(rowpoke: bool, m: nat, row: nat, vals: seq<byte>) {
    if rowpoke then m > 0 ==> row < m && |vals| == K_DIM else |vals| <= m * K_DIM
  }

  predicate DrawEnds(rowpoke: bool, m: nat, vals: seq<byte>) {
    if rowpoke then m > 0 else |vals| == m * K_DIM
  }

  /** The buffer after the draw. */
  function Drawn(data: seq<byte>, rowpoke: bool, m: nat, row: nat, vals: seq<byte>): (r: seq<byte>)
    requires |data| >= m * K_DIM && DrawFits(rowpoke, m, row, vals)
    ensures |r| == |data|
  {
    if !rowpoke then vals + data[|vals|..]
    else if m == 0 then data
    else
      MulMonotone(K_DIM, row + 1, m);
      data[..row * K_DIM] + vals + data[(row + 1) * K_DIM..]
  }

  /** The draw byte by byte: the drawn values where they belong, the old bytes everywhere else. */
  lemma DrawnMeaning(data: seq<byte>, rowpoke: bool, m: nat, row: nat, vals: seq<byte>, p: nat)
    requires |data| >= m * K_DIM && DrawFits(rowpoke, m, row, vals) && p < |data|
    ensures var from := if rowpoke then 4096 * row else 0;
            Drawn(data, rowpoke, m, row, vals)[p] ==
            if m > 0 && from <= p < from + |vals| then vals[p - from] else data[p]
  {
  }

  /** `pearl_generate_random_a`: every value is drawn anew, until the job is cancelled. */
  method FillAll(mat: array<byte>, len: nat, vals: seq<byte>) returns (ok: bool)
    requires |vals| <= len <= mat.Length
    modifies mat
    ensures ok == (|vals| == len) && mat[..] == vals + old(mat[..])[|vals|..]
  {
    for j := 0 to len
      invariant j <= |vals| && mat[..j] == vals[..j] && mat[j..] == old(mat[j..])
    {
      if j == |vals| { return false; }
      mat[j] := vals[j];
    }
    ok := true;
  }

  /** `pearl_fill_random_a_row`: one row gets new values. */
  method FillRow(mat: array<byte>, m: nat, row: nat, vals: seq<byte>) returns (ok: bool)
    requires mat.Length >= m * K_DIM && (m > 0 ==> row < m && |vals| == K_DIM)
    modifies mat
    ensures ok == (m > 0) && (!ok ==> mat[..] == old(mat[..]))
    ensures ok ==> (row + 1) * K_DIM <= mat.Length
    ensures ok ==> mat[..] == old(mat[..])[..row * K_DIM] + vals + old(mat[..])[(row + 1) * K_DIM..]
  {
    if m == 0 { return false; }
    var base := row * K_DIM;
    MulMonotone(K_DIM, row + 1, m);
    for j := 0 to K_DIM
      invariant mat[..base] == old(mat[..base]) && mat[base + j..] == old(mat[base + j..])
      invariant mat[base..base + j] == vals[..j]
    {
      mat[base + j] := vals[j];
      assert mat[base..base + j + 1] == mat[base..base + j] + [vals[j]];
    }
    assert mat[..] == mat[..base] + mat[base..base + K_DIM] + mat[base + K_DIM..];
    ok := true;
  }
}
