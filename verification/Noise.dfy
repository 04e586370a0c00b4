/** The noise of a matrix row: random sparse pairs over a random dense row. The keyed hash behind both is
    an arbitrary function from block numbers to 32 bytes. */
module Noise {
  import opened Wrappers
  import opened Arith
  import opened MixedRadix
  import opened Numerals
  import opened Bits

  const DIGEST: nat := 32
  const LINES_PER_HASH: nat := 8
  const RANGE: nat := 64
  const ZERO_PT: nat := 16

  type Digest = s: seq<nat> | |s| == 32 && Digits(s, 256) witness seq(32, _ => 0)
  type Hash = nat -> Digest

  // ------------------------------------------------------------------------------------------
  // Pairs

  ghost predicate IsRank(rank: nat) {
    rank >= 2 && rank < TWO32 && exists b: nat :: rank == Pow2(b)
  }

  /** `mul_hi_u32`. */
  function MulHi(a: nat, b: nat): nat { a * b / TWO32 }

  function First(rank: nat, w: nat): nat
    requires rank > 0
  {
    And(w, rank - 1)
  }

  /** The distance from the first index to the second. */
  function Distance(rank: nat, w: nat): nat
    requires rank > 0
  {
    1 + MulHi(rank - 1, w)
  }

  function Second(rank: nat, w: nat): nat
    requires rank > 0
  {
    Xor(First(rank, w), Distance(rank, w))
  }

  lemma DistanceBelow(rank: nat, w: nat)
    requires rank >= 2 && w < TWO32
    ensures 1 <= Distance(rank, w) < rank
  {
    MulMonotone(rank - 1, w, TWO32 - 1);
    DivBelow((rank - 1) * w, rank - 1, TWO32);
  }

  /** For every power-of-two rank from 2 up: both indices are below the rank, and they differ. */
  lemma PairIsProper(rank: nat, w: nat)
    requires IsRank(rank) && w < TWO32
    ensures First(rank, w) < rank && Second(rank, w) < rank && Second(rank, w) != First(rank, w)
  {
    var b: nat :| rank == Pow2(b);
    AndMask(w, b);
    DistanceBelow(rank, w);
    XorBound(First(rank, w), Distance(rank, w), b);
    XorChanges(First(rank, w), Distance(rank, w));
  }

  /** The word of column `col`: four bytes of its digest, least significant first. */
  function WordAt(hash: Hash, col: nat): (w: nat)
    ensures w < TWO32
  {
    var d := hash(Hi(col, LINES_PER_HASH));
    var j := 4 * Lo(col, LINES_PER_HASH);
    d[j] + d[j + 1] * 0x100 + d[j + 2] * 0x1_0000 + d[j + 3] * 0x100_0000
  }

  ghost predicate PairsHold(hash: Hash, rank: nat, pairs: seq<nat>, cols: nat)
    requires rank > 0
  {
    2 * cols <= |pairs| && forall c: nat :: c < cols ==> PairHolds(hash, rank, pairs, c)
  }

  predicate PairHolds(hash: Hash, rank: nat, pairs: seq<nat>, c: nat)
    requires rank > 0 && 2 * c + 1 < |pairs|
  {
    pairs[2 * c] == First(rank, WordAt(hash, c)) && pairs[2 * c + 1] == Second(rank, WordAt(hash, c))
  }

  /** `generate_permutation_matrix`. */
  method GeneratePermutationMatrix(hash: Hash, k: nat, rank: nat, pairs: array<nat>)
    requires IsRank(rank) && pairs.Length == 2 * k
    modifies pairs
    ensures PairsHold(hash, rank, pairs[..], k)
    ensures forall c: nat :: c < k ==> PairProper(rank, pairs[..], c)
  {
    hide First, Second, WordAt;
    var i := 0;
    while i < k
      invariant i % LINES_PER_HASH == 0 && PairsHold(hash, rank, pairs[..], if i < k then i else k)
    {
      var j := 0;
      while j < LINES_PER_HASH && i + j < k
        invariant 0 <= j <= LINES_PER_HASH && i + j <= k
        invariant PairsHold(hash, rank, pairs[..], i + j)
      {
        var w := WordAt(hash, i + j);
        ghost var before := pairs[..];
        pairs[2 * (i + j)] := First(rank, w);
        pairs[2 * (i + j) + 1] := Second(rank, w);
        PairAdded(hash, rank, before, pairs[..], i + j);
        j := j + 1;
      }
      i := i + LINES_PER_HASH;
    }
    AllProper(hash, rank, pairs[..], k);
  }

  lemma PairAdded(hash: Hash, rank: nat, was: seq<nat>, now: seq<nat>, c: nat)
    requires rank > 0 && PairsHold(hash, rank, was, c) && 2 * c + 1 < |was|
    requires now == was[2 * c := First(rank, WordAt(hash, c))][2 * c + 1 := Second(rank, WordAt(hash, c))]
    ensures PairsHold(hash, rank, now, c + 1)
  {
    hide First, Second, WordAt;
    forall e: nat | e < c + 1
      ensures PairHolds(hash, rank, now, e)
    {
      if e < c { assert PairHolds(hash, rank, was, e); }
    }
  }

  predicate PairProper(rank: nat, pairs: seq<nat>, c: nat)
    requires 2 * c + 1 < |pairs|
  {
    pairs[2 * c] < rank && pairs[2 * c + 1] < rank && pairs[2 * c] != pairs[2 * c + 1]
  }

  lemma AllProper(hash: Hash, rank: nat, pairs: seq<nat>, k: nat)
    requires IsRank(rank) && PairsHold(hash, rank, pairs, k)
    ensures forall c: nat :: c < k ==> PairProper(rank, pairs, c)
  {
    hide First, Second, WordAt;
    forall c: nat | c < k
      ensures PairProper(rank, pairs, c)
    {
      assert PairHolds(hash, rank, pairs, c);
      PairIsProper(rank, WordAt(hash, c));
    }
  }

  // ------------------------------------------------------------------------------------------
  // The dense row

  /** Entry `idx` of the endless stream of hash bytes, as a small signed number. */
  function Uniform(hash: Hash, idx: nat): (x: int)
    ensures -16 <= x <= 47
  {
    hash(Hi(idx, DIGEST))[Lo(idx, DIGEST)] % RANGE - ZERO_PT
  }

  /** How much of the slice lies before position `at` of the stream. */
  function Before(start: nat, numCols: nat, at: nat): nat {
    if at <= start then 0 else if at >= start + numCols then numCols else at - start
  }

  ghost predicate Filled(hash: Hash, start: nat, out: seq<int>, n: nat) {
    n <= |out| && forall t: nat :: t < n ==> out[t] == Uniform(hash, start + t)
  }

  /** The bytes of one digest that belong to the slice. */
  method FillFromDigest(hash: Hash, start: nat, numCols: nat, block: nat, out: array<int>)
    requires numCols <= out.Length && Filled(hash, start, out[..], Before(start, numCols, block * DIGEST))
    modifies out
    ensures Filled(hash, start, out[..], Before(start, numCols, block * DIGEST + DIGEST))
    ensures forall t :: numCols <= t < out.Length ==> out[t] == old(out[t])
  {
    hide Uniform;
    var digest := hash(block);
    var n := Before(start, numCols, block * DIGEST);
    for k := 0 to DIGEST
      invariant n == Before(start, numCols, block * DIGEST + k) && Filled(hash, start, out[..], n)
      invariant forall t :: numCols <= t < out.Length ==> out[t] == old(out[t])
    {
      var idx := block * DIGEST + k;
      if idx >= start && idx < start + numCols {
        UniformAt(hash, block, k);
        out[n] := digest[k] % RANGE - ZERO_PT;
        n := n + 1;
      }
    }
  }

  /** `generate_uniform_row`: entry `row * numCols + t` of the stream at every `t`, whether or not the slice
      starts or ends inside a digest. */
  method GenerateUniformRow(hash: Hash, row: nat, numCols: nat, out: array<int>)
    requires out.Length >= numCols && row * numCols + numCols + DIGEST < 0x8000_0000
    modifies out
    ensures forall t: nat :: t < numCols ==> out[t] == Uniform(hash, row * numCols + t)
    ensures forall t :: numCols <= t < out.Length ==> out[t] == old(out[t])
  {
    hide Uniform;
    var start := row * numCols;
    var block := start / DIGEST;
    while block * DIGEST < start + numCols
      invariant Filled(hash, start, out[..], Before(start, numCols, block * DIGEST))
      invariant forall t :: numCols <= t < out.Length ==> out[t] == old(out[t])
      decreases start + numCols - block * DIGEST
    {
      FillFromDigest(hash, start, numCols, block, out);
      block := block + 1;
    }
  }

  lemma UniformAt(hash: Hash, block: nat, k: nat)
    requires k < DIGEST
    ensures Uniform(hash, block * DIGEST + k) == hash(block)[k] % RANGE - ZERO_PT
  {
    JoinSplit(block, k, DIGEST);
    assert Join(block, k, DIGEST) == block * DIGEST + k;
  }

  // ------------------------------------------------------------------------------------------
  // Fusing

  predicate Int8(x: int) { -128 <= x < 128 }

  /** A cast to a signed byte. */
  function ToInt8(x: int): (y: int)
    ensures Int8(y) && (Int8(x) ==> y == x)
  {
    (x + 128) % 256 - 128
  }

  /** `matvec_sparse_perm`: each entry is the difference of two others, which fits a signed byte. */
  method MatvecSparsePerm(pairs: seq<nat>, k: nat, rank: nat, vec: seq<int>, out: array<int>)
    requires |pairs| == 2 * k && out.Length == k && rank <= |vec|
    requires forall c: nat :: c < k ==> PairProper(rank, pairs, c)
    requires forall t :: 0 <= t < rank ==> -16 <= vec[t] <= 47
    modifies out
    ensures forall i: nat :: i < k ==> EntryIs(pairs, vec, out[..], i)
  {
    for i := 0 to k
      invariant forall l: nat :: l < i ==> EntryIs(pairs, vec, out[..], l)
    {
      assert PairProper(rank, pairs, i);
      var pos, neg := vec[pairs[2 * i]], vec[pairs[2 * i + 1]];
      ghost var before := out[..];
      out[i] := ToInt8(pos - neg);
      forall l: nat | l < i + 1
        ensures EntryIs(pairs, vec, out[..], l)
      {
        if l < i { assert EntryIs(pairs, vec, before, l); }
      }
    }
  }

  predicate EntryIs(pairs: seq<nat>, vec: seq<int>, out: seq<int>, i: nat) {
    && 2 * i + 1 < |pairs| && pairs[2 * i] < |vec| && pairs[2 * i + 1] < |vec| && i < |out|
    && out[i] == vec[pairs[2 * i]] - vec[pairs[2 * i + 1]]
    && -63 <= out[i] <= 63
  }

  /** The exact noise at column `l`. */
  function NoiseAt(hash: Hash, pairs: seq<nat>, row: nat, rank: nat, l: nat): int
    requires 2 * l + 1 < |pairs|
  {
    Uniform(hash, row * rank + pairs[2 * l]) - Uniform(hash, row * rank + pairs[2 * l + 1])
  }

  /** A signal that is not given counts as zero. */
  function SignalAt(signal: Option<seq<int>>, i: nat): (x: int)
    requires signal.Some? ==> i < |signal.value|
  {
    if signal.Some? then signal.value[i] else 0
  }

  predicate SignalFits(signal: Option<seq<int>>, len: nat) {
    signal.Some? ==> |signal.value| == len && forall i :: 0 <= i < len ==> -64 <= signal.value[i] <= 63
  }

  predicate FusedAt(hash: Hash, pairs: seq<nat>, row: nat, rank: nat, signal: Option<seq<int>>, noisy: seq<int>,
                    at: nat, l: nat)
    requires at + l < |noisy| && SignalFits(signal, |noisy|) && 2 * l + 1 < |pairs|
  {
    Int8(noisy[at + l]) && noisy[at + l] == SignalAt(signal, at + l) + NoiseAt(hash, pairs, row, rank, l)
  }

  /** `pearl_fuse_noise_row_a_buf` and `pearl_fuse_noise_row_b_buf`, on the row that starts at `at`: every cast
      is harmless, so the row is the exact sum of signal and noise, for every signal within its seven bits. */
  method FuseNoiseRow(hash: Hash, row: nat, k: nat, rank: nat, pairs: seq<nat>, signal: Option<seq<int>>, at: nat,
                      noisy: array<int>, dense: array<int>, noise: array<int>)
    requires rank > 0 && |pairs| == 2 * k && at + k <= noisy.Length && SignalFits(signal, noisy.Length)
    requires noise.Length == k && dense.Length >= rank && row * rank + rank + DIGEST < 0x8000_0000
    requires noisy != dense && noisy != noise && dense != noise
    requires forall c: nat :: c < k ==> PairProper(rank, pairs, c)
    modifies noisy, dense, noise
    ensures FusedUpTo(hash, pairs, row, rank, signal, noisy[..], at, k)
    ensures noisy[..at] == old(noisy[..at]) && noisy[at + k..] == old(noisy[at + k..])
  {
    GenerateUniformRow(hash, row, rank, dense);
    ghost var vec := dense[..];
    MatvecSparsePerm(pairs, k, rank, dense[..], noise);
    ghost var exact := noise[..];
    ghost var was := noisy[..];
    hide Uniform, SignalFits, SignalAt, NoiseAt, FusedAt;
    for l := 0 to k
      invariant noise[..] == exact
      invariant FusedUpTo(hash, pairs, row, rank, signal, noisy[..], at, l)
      invariant noisy[..at] == was[..at] && noisy[at + k..] == was[at + k..]
    {
      ghost var before := noisy[..];
      SignalIsSmall(signal, noisy.Length, at + l);
      assert EntryIs(pairs, vec, exact, l) && PairProper(rank, pairs, l);
      NoiseIs(hash, pairs, row, rank, vec, exact, l);
      noisy[at + l] := ToInt8(SignalAt(signal, at + l) + noise[l]);
      FusedOneMore(hash, pairs, row, rank, signal, before, noisy[..], at, l);
    }
  }

  ghost predicate FusedUpTo(hash: Hash, pairs: seq<nat>, row: nat, rank: nat, signal: Option<seq<int>>,
                            noisy: seq<int>, at: nat, n: nat)
    requires at + n <= |noisy| && SignalFits(signal, |noisy|) && 2 * n <= |pairs|
  {
    forall l: nat :: l < n ==> FusedAt(hash, pairs, row, rank, signal, noisy, at, l)
  }

  lemma FusedOneMore(hash: Hash, pairs: seq<nat>, row: nat, rank: nat, signal: Option<seq<int>>, was: seq<int>,
                     now: seq<int>, at: nat, l: nat)
    requires |was| == |now| && at + l < |now| && SignalFits(signal, |now|) && 2 * l + 1 < |pairs|
    requires FusedUpTo(hash, pairs, row, rank, signal, was, at, l)
    requires now == was[at + l := SignalAt(signal, at + l) + NoiseAt(hash, pairs, row, rank, l)] && Int8(now[at + l])
    ensures FusedUpTo(hash, pairs, row, rank, signal, now, at, l + 1)
  {
    hide NoiseAt, SignalAt;
    forall m: nat | m < l + 1
      ensures FusedAt(hash, pairs, row, rank, signal, now, at, m)
    {
      if m < l { assert FusedAt(hash, pairs, row, rank, signal, was, at, m); }
    }
  }

  /** A difference of entries of the dense row is the noise. */
  lemma NoiseIs(hash: Hash, pairs: seq<nat>, row: nat, rank: nat, vec: seq<int>, exact: seq<int>, l: nat)
    requires EntryIs(pairs, vec, exact, l) && PairProper(rank, pairs, l) && rank <= |vec|
    requires forall t: nat :: t < rank ==> vec[t] == Uniform(hash, row * rank + t)
    ensures exact[l] == NoiseAt(hash, pairs, row, rank, l)
  {
    hide Uniform;
  }

  lemma SignalIsSmall(signal: Option<seq<int>>, len: nat, i: nat)
    requires SignalFits(signal, len) && i < len
    ensures (signal.Some? ==> i < |signal.value|) && -64 <= SignalAt(signal, i) <= 63
  {
  }

  // ------------------------------------------------------------------------------------------
  // The whole matrix

  /** The noise of the matrix at `row` and `l`: the difference of two random entries of the row, chosen by
      the random word of the column. `pick` and `draw` are the two keyed hashes. */
  function MatrixNoise(pick: Hash, draw: Hash, rank: nat, row: nat, l: nat): int
    requires rank > 0
  {
    Uniform(draw, row * rank + First(rank, WordAt(pick, l))) - Uniform(draw, row * rank + Second(rank, WordAt(pick, l)))
  }

  predicate NoisyAt(pick: Hash, draw: Hash, rank: nat, signal: Option<seq<int>>, k: nat, noisy: seq<int>, row: nat,
                    l: nat)
    requires rank > 0 && SignalFits(signal, |noisy|) && row * k + l < |noisy|
  {
    && Int8(noisy[row * k + l])
    && noisy[row * k + l] == SignalAt(signal, row * k + l) + MatrixNoise(pick, draw, rank, row, l)
  }

  ghost predicate RowNoisy(pick: Hash, draw: Hash, rank: nat, signal: Option<seq<int>>, k: nat, noisy: seq<int>,
                           row: nat)
    requires rank > 0 && SignalFits(signal, |noisy|) && row * k + k <= |noisy|
  {
    forall l: nat :: l < k ==> NoisyAt(pick, draw, rank, signal, k, noisy, row, l)
  }

  ghost predicate RowsNoisy(pick: Hash, draw: Hash, rank: nat, signal: Option<seq<int>>, k: nat, noisy: seq<int>,
                            rows: nat)
    requires rank > 0 && SignalFits(signal, |noisy|)
  {
    forall row: nat :: row < rows ==>
      row * k + k <= |noisy| && RowNoisy(pick, draw, rank, signal, k, noisy, row)
  }

  lemma RowAdded(pick: Hash, draw: Hash, rank: nat, signal: Option<seq<int>>, k: nat, pairs: seq<nat>,
                 was: seq<int>, now: seq<int>, row: nat)
    requires rank > 0 && |was| == |now| && SignalFits(signal, |now|) && row * k + k <= |now| && |pairs| == 2 * k
    requires RowsNoisy(pick, draw, rank, signal, k, was, row) && PairsHold(pick, rank, pairs, k)
    requires now[..row * k] == was[..row * k]
    requires FusedUpTo(draw, pairs, row, rank, signal, now, row * k, k)
    ensures RowsNoisy(pick, draw, rank, signal, k, now, row + 1)
  {
    hide Uniform, First, Second, WordAt, FusedUpTo;
    forall r: nat | r < row + 1
      ensures r * k + k <= |now| && RowNoisy(pick, draw, rank, signal, k, now, r)
    {
      if r < row {
        MulMonotone(k, r + 1, row);
        MulDistributes(k, r, 1);
        RowKept(pick, draw, rank, signal, k, was, now, row, r);
      } else {
        RowFused(pick, draw, rank, signal, k, pairs, now, row);
      }
    }
  }

  lemma RowKept(pick: Hash, draw: Hash, rank: nat, signal: Option<seq<int>>, k: nat, was: seq<int>, now: seq<int>,
                row: nat, r: nat)
    requires rank > 0 && |was| == |now| && SignalFits(signal, |now|) && r * k + k <= row * k <= |now|
    requires now[..row * k] == was[..row * k] && RowNoisy(pick, draw, rank, signal, k, was, r)
    ensures RowNoisy(pick, draw, rank, signal, k, now, r)
  {
    hide MatrixNoise, SignalAt;
    forall l: nat | l < k
      ensures NoisyAt(pick, draw, rank, signal, k, now, r, l)
    {
      assert NoisyAt(pick, draw, rank, signal, k, was, r, l);
      assert now[r * k + l] == now[..row * k][r * k + l] == was[..row * k][r * k + l];
    }
  }

  lemma RowFused(pick: Hash, draw: Hash, rank: nat, signal: Option<seq<int>>, k: nat, pairs: seq<nat>, now: seq<int>,
                 row: nat)
    requires rank > 0 && SignalFits(signal, |now|) && row * k + k <= |now| && |pairs| == 2 * k
    requires PairsHold(pick, rank, pairs, k)
    requires FusedUpTo(draw, pairs, row, rank, signal, now, row * k, k)
    ensures RowNoisy(pick, draw, rank, signal, k, now, row)
  {
    hide Uniform, First, Second, WordAt, SignalAt;
    forall l: nat | l < k
      ensures NoisyAt(pick, draw, rank, signal, k, now, row, l)
    {
      assert PairHolds(pick, rank, pairs, l) && FusedAt(draw, pairs, row, rank, signal, now, row * k, l);
    }
  }

  /** The check of `pearl_build_noisy_a` on the rank. */
  predicate RankAccepted(rank: int) {
    rank > 0 && And(rank, rank - 1) == 0 && rank % DIGEST == 0
  }

  /** The check lets exactly the powers of two from 32 up pass. */
  lemma AcceptedRanks(rank: int)
    requires rank < 0x8000_0000
    ensures RankAccepted(rank) <==> rank >= DIGEST && IsRank(rank)
  {
    hide IsRank, RankAccepted;
    if RankAccepted(rank) { AcceptedIsRank(rank); }
    if rank >= DIGEST && IsRank(rank) { RankIsAccepted(rank); }
  }

  lemma AcceptedIsRank(rank: int)
    requires RankAccepted(rank) && rank < 0x8000_0000
    ensures rank >= DIGEST && IsRank(rank)
  {
    AndWithPredecessor(rank);
    hide Pow2, And;
    assert rank == DIGEST * (rank / DIGEST);
  }

  lemma RankIsAccepted(rank: int)
    requires rank >= DIGEST && IsRank(rank)
    ensures RankAccepted(rank)
  {
    WholeDigests(rank);
    var b: nat :| rank == Pow2(b);
    AndMask(rank, b);
    hide And;
    DivUnique(rank, rank, 1, 0);
  }

  lemma WholeDigests(rank: nat)
    requires rank >= DIGEST && exists b: nat :: rank == Pow2(b)
    ensures rank % DIGEST == 0
  {
    var b: nat :| rank == Pow2(b);
    assert Pow2(5) == DIGEST;
    hide Pow2;
    if b < 5 { Pow2Smaller(b, 5); }
    Pow2Add(5, b - 5);
    DivUnique(rank, DIGEST, Pow2(b - 5), 0);
  }

  lemma Pow2Smaller(a: nat, b: nat)
    requires a < b
    ensures Pow2(a) < Pow2(b)
  {
    Pow2Monotone(a, b - 1);
  }

  /** `pearl_build_noisy_a` and, with a signal that may be absent, `pearl_build_noisy_b`: unless the rank is
      refused, memory is missing or the job is cancelled, every entry of the matrix is the exact sum of its
      signal and its noise, as a signed byte. */
  method BuildNoisy(pick: Hash, draw: Hash, m: nat, k: nat, rank: int, signal: Option<seq<int>>, noisy: array<int>,
                    pairsOom: bool, rowsOom: bool, cancelled: nat -> bool) returns (rc: int)
    requires rank < 0x8000_0000 && noisy.Length == m * k && SignalFits(signal, m * k)
    requires rank > 0 ==> m * rank + DIGEST < 0x8000_0000
    modifies noisy
    ensures rc == 0 || rc == -1
    ensures rc == 0 ==> RankAccepted(rank) && RowsNoisy(pick, draw, rank, signal, k, noisy[..], m)
    ensures rc == -1 <==> !RankAccepted(rank) || pairsOom || rowsOom || exists row: nat ::
              row < m && row % 256 == 0 && cancelled(row)
  {
    AcceptedRanks(rank);
    if !RankAccepted(rank) || pairsOom { return -1; }
    var pairs := new nat[2 * k](_ => 0);
    GeneratePermutationMatrix(pick, k, rank, pairs);
    if rowsOom { return -1; }
    var dense, noise := new int[rank](_ => 0), new int[k](_ => 0);
    hide FusedUpTo, PairsHold, PairProper, RowsNoisy, IsRank, RankAccepted, SignalFits;
    NoRows(pick, draw, rank, signal, k, noisy[..]);
    ghost var chosen := pairs[..];
    for row := 0 to m
      invariant pairs[..] == chosen && RowsNoisy(pick, draw, rank, signal, k, noisy[..], row)
      invariant forall r: nat :: r < row && r % 256 == 0 ==> !cancelled(r)
    {
      if row % 256 == 0 && cancelled(row) { return -1; }
      MulMonotone(k, row + 1, m);
      MulDistributes(k, row, 1);
      MulMonotone(rank, row + 1, m);
      MulDistributes(rank, row, 1);
      ghost var before := noisy[..];
      FuseNoiseRow(draw, row, k, rank, pairs[..], signal, row * k, noisy, dense, noise);
      assert noisy[..][..row * k] == before[..row * k];
      RowAdded(pick, draw, rank, signal, k, pairs[..], before, noisy[..], row);
    }
    rc := 0;
  }

  lemma NoRows(pick: Hash, draw: Hash, rank: nat, signal: Option<seq<int>>, k: nat, noisy: seq<int>)
    requires rank > 0 && SignalFits(signal, |noisy|)
    ensures RowsNoisy(pick, draw, rank, signal, k, noisy, 0)
  {
  }

  // ------------------------------------------------------------------------------------------
  // The noise in terms of the digests' bytes

  /** The word of a column is four bytes of one digest, least significant first; eight columns share a digest. */
  lemma WordBytes(hash: Hash, col: nat)
    ensures var (w, d, j) := (WordAt(hash, col), hash(col / 8), 4 * (col % 8));
            w % 256 == d[j] && w / 256 % 256 == d[j + 1] && w / 65536 % 256 == d[j + 2] && w / 16777216 == d[j + 3]
  {
    var (d, j) := (hash(col / 8), 4 * (col % 8));
    var (x, y, z) := (d[j + 3], d[j + 2] + d[j + 3] * 256, d[j + 1] + (d[j + 2] + d[j + 3] * 256) * 256);
    var w := WordAt(hash, col);
    assert w == d[j] + z * 256;
    DivUnique(w, 256, z, d[j]);
    DivUnique(z, 256, y, d[j + 1]);
    DivUnique(y, 256, x, d[j + 2]);
    DivDiv(w, 256, 256);
    DivDiv(w, 65536, 256);
  }

  /** The first index is the word modulo the rank; the second differs from it in the bits of one more than the
      word's share of rank - 1. */
  lemma PairMeaning(rank: nat, w: nat)
    requires IsRank(rank) && w < TWO32
    ensures First(rank, w) == w % rank
    ensures Xor(First(rank, w), Second(rank, w)) == 1 + (rank - 1) * w / 0x1_0000_0000
  {
    var b: nat :| rank == Pow2(b);
    AndMask(w, b);
    var (x, y) := (First(rank, w), Distance(rank, w));
    hide Xor;
    XorAssociates(x, x, y);
    XorSelf(x);
    XorZero(y);
  }

  /** Byte `idx` of the stream of digests. */
  function StreamByte(hash: Hash, idx: nat): (x: nat) { hash(idx / 32)[idx % 32] }

  /** A random entry is the low six bits of its byte in the stream, less 16. */
  lemma UniformMeaning(hash: Hash, idx: nat)
    ensures Uniform(hash, idx) + 16 == StreamByte(hash, idx) % 64
  {
  }

  /** The whole of it: what is added at `row` and `l`. */
  lemma MatrixNoiseMeaning(pick: Hash, draw: Hash, rank: nat, row: nat, l: nat) returns (first: nat, second: nat)
    requires IsRank(rank)
    ensures first < rank && second < rank
    ensures first == WordAt(pick, l) % rank
    ensures Xor(first, second) == 1 + (rank - 1) * WordAt(pick, l) / 0x1_0000_0000
    ensures MatrixNoise(pick, draw, rank, row, l)
            == StreamByte(draw, row * rank + first) % 64 - StreamByte(draw, row * rank + second) % 64
  {
    hide Uniform, First, Second, WordAt, Xor, StreamByte, IsRank;
    var w := WordAt(pick, l);
    assert rank > 0 by { RankPositive(rank); }
    first, second := First(rank, w), Second(rank, w);
    PairMeaning(rank, w);
    PairIsProper(rank, w);
    UniformMeaning(draw, row * rank + first);
    UniformMeaning(draw, row * rank + second);
  }

  lemma RankPositive(rank: nat)
    requires IsRank(rank)
    ensures rank > 0
  {
  }

  /** An entry of the noisy matrix in numbers; without a signal it is the noise alone. */
  lemma NoisyEntry(pick: Hash, draw: Hash, rank: nat, signal: Option<seq<int>>, k: nat, noisy: seq<int>, rows: nat,
                   row: nat, l: nat)
    requires rank > 0 && SignalFits(signal, |noisy|) && row < rows && l < k
    requires RowsNoisy(pick, draw, rank, signal, k, noisy, rows)
    ensures row * k + l < |noisy| && (signal.Some? ==> |signal.value| == |noisy|)
    ensures noisy[row * k + l] ==
            (if signal.Some? then signal.value[row * k + l] else 0) + MatrixNoise(pick, draw, rank, row, l)
    ensures -128 <= noisy[row * k + l] <= 127
  {
    hide MatrixNoise;
    assert RowNoisy(pick, draw, rank, signal, k, noisy, row);
    assert NoisyAt(pick, draw, rank, signal, k, noisy, row, l);
  }

  // ------------------------------------------------------------------------------------------
  // The two hashes

  /** The message behind a digest: the number of the digest plus one, four bytes in word `slot`, and the label. */
  function RandomMessage(index: nat, tag: seq<nat>, slot: nat): (msg: seq<nat>)
    requires |tag| == 32 && slot < 8
    ensures |msg| == 64
  {
    var n := index + 1;
    seq(64, i requires 0 <= i < 64 =>
      if i >= 32 then tag[i - 32]
      else if i == 4 * slot then n % 256
      else if i == 4 * slot + 1 then n / 256 % 256
      else if i == 4 * slot + 2 then n / 65536 % 256
      else if i == 4 * slot + 3 then n / 16777216 % 256
      else 0)
  }

  /** Number and label as they are found in the message, and nothing besides. */
  lemma MessageHolds(index: nat, tag: seq<nat>, slot: nat)
    requires |tag| == 32 && slot < 8 && index < 0x7FFF_FFFF
    ensures var m := RandomMessage(index, tag, slot);
            && m[32..] == tag
            && m[4 * slot] + 256 * m[4 * slot + 1] + 65536 * m[4 * slot + 2] + 16777216 * m[4 * slot + 3] == index + 1
            && forall i :: 0 <= i < 32 && i / 4 != slot ==> m[i] == 0
  {
    NumberBytes(index + 1);
  }

  /** `get_random_hash`. */
  method GetRandomHash(digest: (seq<nat>, seq<nat>) -> Digest, index: nat, tag: seq<nat>, key: seq<nat>, slot: nat)
    returns (out: Digest)
    requires |tag| == 32 && slot < 8 && index < 0x7FFF_FFFF
    ensures out == digest(key, RandomMessage(index, tag, slot))
  {
    var msg := new nat[64](_ => 0);
    var n := index + 1;
    msg[4 * slot], msg[4 * slot + 1] := n % 256, n / 256 % 256;
    msg[4 * slot + 2], msg[4 * slot + 3] := n / 65536 % 256, n / 16777216 % 256;
    forall i | 0 <= i < 32 { msg[32 + i] := tag[i]; }
    assert msg[..] == RandomMessage(index, tag, slot);
    out := digest(key, msg[..]);
  }

  /** No two digests of the permutation and of the dense rows come from the same message. */
  lemma MessagesDiffer(index: nat, slot: nat, index': nat, slot': nat, tag: seq<nat>)
    requires |tag| == 32 && slot < 8 && slot' < 8 && index < 0x7FFF_FFFF && index' < 0x7FFF_FFFF
    requires RandomMessage(index, tag, slot) == RandomMessage(index', tag, slot')
    ensures index == index' && slot == slot'
  {
    var (m, m') := (RandomMessage(index, tag, slot), RandomMessage(index', tag, slot'));
    NumberBytes(index + 1);
    NumberBytes(index' + 1);
    assert m[4 * slot] == m'[4 * slot] && m[4 * slot + 1] == m'[4 * slot + 1];
    assert m[4 * slot + 2] == m'[4 * slot + 2] && m[4 * slot + 3] == m'[4 * slot + 3];
  }

  lemma NumberBytes(n: nat)
    requires 0 < n < 0x8000_0000
    ensures n == n % 256 + n / 256 % 256 * 256 + n / 65536 % 256 * 65536 + n / 16777216 % 256 * 16777216
    ensures n % 256 != 0 || n / 256 % 256 != 0 || n / 65536 % 256 != 0 || n / 16777216 % 256 != 0
  {
    DivDiv(n, 256, 256);
    DivDiv(n, 65536, 256);
    var (x, y, z) := (n / 256, n / 65536, n / 16777216);
    assert n == x * 256 + n % 256 && x == y * 256 + x % 256 && y == z * 256 + y % 256 && z == z % 256;
  }

  /** The digests that carry their number in word `slot`. */
  function Digests(digest: (seq<nat>, seq<nat>) -> Digest, tag: seq<nat>, seed: seq<nat>, slot: nat): Hash
    requires |tag| == 32 && slot < 8
  {
    i => digest(seed, RandomMessage(i, tag, slot))
  }

  /** The noisy matrix of a seed: permutation digests carry their number in word 1, row digests in word 0. */
  method BuildNoisyFromSeed(digest: (seq<nat>, seq<nat>) -> Digest, tag: seq<nat>, seed: seq<nat>, m: nat, k: nat,
                            rank: int, signal: Option<seq<int>>, noisy: array<int>, pairsOom: bool, rowsOom: bool,
                            cancelled: nat -> bool)
    returns (rc: int)
    requires |tag| == 32 && rank < 0x8000_0000 && noisy.Length == m * k && SignalFits(signal, m * k)
    requires rank > 0 ==> m * rank + DIGEST < 0x8000_0000
    modifies noisy
    ensures rc == 0 ==>
      && RankAccepted(rank)
      && RowsNoisy(Digests(digest, tag, seed, 1), Digests(digest, tag, seed, 0), rank, signal, k, noisy[..], m)
  {
    rc := BuildNoisy(Digests(digest, tag, seed, 1), Digests(digest, tag, seed, 0), m, k, rank, signal, noisy,
                     pairsOom, rowsOom, cancelled);
  }
}
