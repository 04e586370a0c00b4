/** The 64-byte Quantus nonce: its layout, the threads' shares of it, and its addition. */
module Nonce {
  import opened Arith
  import opened Bits
  import opened Numerals
  import opened WideDivision

  const NONCE_BYTES: nat := 64
  const EXTRANONCE_MAX: nat := 32

  type Bytes = s: seq<nat> | Digits(s, 256) witness []

  lemma Byte256Words()
    ensures Power(256, 8) == TWO64
  {
    PowerOfPow2(8, 8);
    Pow2Values();
  }

  // ------------------------------------------------------------------------------------------
  // Addition

  /** How many values `n` bytes have. */
  function Range(n: nat): (r: nat)
    ensures r > 0
  {
    PowerPositive(256, n);
    Power(256, n)
  }

  /** The bytes up to `i` are still the old ones, `carry` is to be added to them; what is below is done. */
  ghost predicate Adding(was: seq<nat>, now: seq<nat>, i: nat, carry: nat, total: nat) {
    && |now| == |was| && i <= |was| && Digits(now, 256)
    && now[..i] == was[..i]
    && total == (FromBE(was[..i], 256) + carry) * Power(256, |was| - i) + FromBE(now[i..], 256)
  }

  lemma AddingStep(was: seq<nat>, now: seq<nat>, i: nat, carry: nat, total: nat)
    requires 0 < i && Adding(was, now, i, carry, total)
    ensures now[i - 1] == was[i - 1] && was[i - 1] < 256
    ensures var c := carry + was[i - 1]; Adding(was, now[i - 1 := c % 256], i - 1, c / 256, total)
  {
    var (c, p) := (carry + was[i - 1], Power(256, |was| - i));
    var now' := now[i - 1 := c % 256];
    assert now[i - 1] == now[..i][i - 1] == was[..i][i - 1];
    assert now'[i - 1..] == [c % 256] + now[i..] && was[..i][..i - 1] == was[..i - 1];
    FromBEConcat([c % 256], now[i..], 256);
    assert FromBE([c % 256], 256) == c % 256 by { assert [c % 256][..0] == []; }
    var front := FromBE(was[..i - 1], 256);
    assert FromBE(was[..i], 256) == front * 256 + was[i - 1];
    assert front * 256 + c == (front + c / 256) * 256 + c % 256;
    MulDistributes(p, (front + c / 256) * 256, c % 256);
    MulAssociates(front + c / 256, 256, p);
    MulAssociates(front + c / 256, p, 256);
  }

  lemma AddingEnds(was: seq<nat>, now: seq<nat>, i: nat, carry: nat, total: nat)
    requires Adding(was, now, i, carry, total) && (i == 0 || carry == 0)
    ensures FromBE(now, 256) == total % Range(|was|)
  {
    PowerPositive(256, |was|);
    FromBEBound(now, 256);
    if i == 0 {
      assert now[0..] == now && was[..0] == [];
      DivUnique(total, Power(256, |was|), carry, FromBE(now, 256));
    } else {
      assert now == now[..i] + now[i..];
      FromBEConcat(now[..i], now[i..], 256);
      DivUnique(total, Power(256, |was|), 0, total);
    }
  }

  /** What the first sum loses when it does not fit 64 bits. */
  function Cut(was: seq<nat>, add: nat): nat
    requires |was| == NONCE_BYTES
  {
    if add + was[63] < TWO64 then 0 else TWO64
  }

  ghost predicate AddState(was: seq<nat>, now: seq<nat>, i: nat, c: nat, add: nat)
    requires |was| == NONCE_BYTES && i <= NONCE_BYTES
  {
    && |now| == NONCE_BYTES && Digits(now, 256)
    && FromBE(was, 256) + add >= Cut(was, add)
    && (if i == NONCE_BYTES then now == was && c == add
       else c < 0x100_0000_0000_0000 && Adding(was, now, i, c, FromBE(was, 256) + add - Cut(was, add)))
  }

  lemma AddStateStep(was: seq<nat>, now: seq<nat>, i: nat, c: nat, add: nat)
    requires |was| == NONCE_BYTES && Digits(was, 256) && 0 < i <= NONCE_BYTES && add < TWO64
    requires AddState(was, now, i, c, add)
    ensures var sum := (c + now[i - 1]) % TWO64; AddState(was, now[i - 1 := sum % 256], i - 1, sum / 256, add)
  {
    if i == NONCE_BYTES {
      hide FromBE, Power, Adding;
      FirstByte(was, add, Cut(was, add));
    } else {
      hide FromBE, Power, Adding;
      AddingStep(was, now, i, c, FromBE(was, 256) + add - Cut(was, add));
      SumFits(c, now[i - 1]);
    }
  }

  lemma SumFits(c: nat, byte: nat)
    requires c < 0x100_0000_0000_0000 && byte < 256
    ensures (c + byte) % TWO64 == c + byte && (c + byte) / 256 < 0x100_0000_0000_0000
  {
  }

  lemma AddStateEnds(was: seq<nat>, now: seq<nat>, i: nat, c: nat, add: nat)
    requires |was| == NONCE_BYTES && Digits(was, 256) && i < NONCE_BYTES && add < TWO64
    requires AddState(was, now, i, c, add) && (i == 0 || c == 0)
    ensures FromBE(now, 256) == (FromBE(was, 256) + add - Cut(was, add)) % Range(NONCE_BYTES)
    ensures FromBE(now, 256) == (FromBE(was, 256) + add) % Range(NONCE_BYTES) <==> add + was[63] < TWO64
  {
    hide FromBE, Power;
    var total := FromBE(was, 256) + add;
    AddingEnds(was, now, i, c, total - Cut(was, add));
    CutIsSmall(was, add, Cut(was, add));
    CutShows(total, Cut(was, add), Range(NONCE_BYTES));
  }

  /** `add_be_u64`: the sum with the lowest byte is cut to 64 bits; every later one fits. The nonce
      grows by exactly `add`, modulo its range, if and only if that first sum fits too. */
  method AddBE(n: array<nat>, add: uint64)
    requires n.Length == NONCE_BYTES && Digits(n[..], 256)
    modifies n
    ensures Digits(n[..], 256)
    ensures FromBE(n[..], 256) == (FromBE(old(n[..]), 256) + add) % Range(NONCE_BYTES) <==> add + old(n[63]) < TWO64
    ensures add + old(n[63]) >= TWO64 ==>
              FromBE(old(n[..]), 256) + add >= TWO64
              && FromBE(n[..], 256) == (FromBE(old(n[..]), 256) + add - TWO64) % Range(NONCE_BYTES)
  {
    ghost var was := n[..];
    CutIsSmall(was, add, Cut(was, add));
    assert AddState(was, was, 64, add, add);
    hide AddState, FromBE, Digits;
    var c: nat := add;
    var i := 64;
    while i > 0
      invariant 0 <= i <= 64 && AddState(was, n[..], i, c, add)
      invariant i == 64 || c != 0 || i == 0
      decreases i
    {
      ghost var before := n[..];
      AddStateStep(was, before, i, c, add);
      c := (c + n[i - 1]) % TWO64;
      n[i - 1] := c % 256;
      c := c / 256;
      i := i - 1;
      if c == 0 { break; }
    }
    AddStateEnds(was, n[..], i, c, add);
    assert Digits(n[..], 256) by { AddStateDigits(was, n[..], i, c, add); }
  }

  lemma AddStateDigits(was: seq<nat>, now: seq<nat>, i: nat, c: nat, add: nat)
    requires |was| == NONCE_BYTES && i <= NONCE_BYTES && AddState(was, now, i, c, add)
    ensures Digits(now, 256)
  {
  }

  lemma CutIsSmall(was: seq<nat>, add: nat, cut: nat)
    requires |was| == 64 && Digits(was, 256) && add < TWO64
    requires cut == if add + was[63] < TWO64 then 0 else TWO64
    ensures cut <= FromBE(was, 256) + add
    ensures Range(64) > TWO64
  {
    assert FromBE(was, 256) == FromBE(was[..63], 256) * 256 + was[63];
    Byte256Words();
    PowerAdd(256, 8, 56);
    PowerPositive(256, 55);
    assert Power(256, 56) == Power(256, 55) * 256;
    MulMonotone(TWO64, 2, Power(256, 56));
  }

  /** The lowest byte, with the cut. */
  lemma FirstByte(was: seq<nat>, add: nat, cut: nat)
    requires |was| == 64 && Digits(was, 256) && add < TWO64
    requires cut == if add + was[63] < TWO64 then 0 else TWO64
    ensures FromBE(was, 256) + add >= cut
    ensures var c := (add + was[63]) % TWO64;
            c / 256 < 0x100_0000_0000_0000 && Adding(was, was[63 := c % 256], 63, c / 256, FromBE(was, 256) + add - cut)
  {
    var c := (add + was[63]) % TWO64;
    assert c == add + was[63] - cut;
    var now := was[63 := c % 256];
    assert was[..64] == was && was[..64][..63] == was[..63];
    assert now[63..] == [c % 256] && [c % 256][..0] == [];
    assert FromBE(was, 256) == FromBE(was[..63], 256) * 256 + was[63];
    assert Power(256, 1) == 256 by { assert Power(256, 0) == 1; }
    assert FromBE([c % 256], 256) == c % 256;
  }

  /** Losing 2^64 is noticed modulo any larger range. */
  lemma CutShows(total: nat, cut: nat, range: nat)
    requires cut == 0 || cut == TWO64
    requires cut <= total && range > TWO64
    ensures (total - cut) % range == total % range <==> cut == 0
  {
    var (q, q') := (total / range, (total - cut) / range);
    assert total == range * q + total % range && total - cut == range * q' + (total - cut) % range;
    if (total - cut) % range == total % range {
      MulDistributes(range, q, -q');
      assert cut == range * (q - q');
      if q - q' >= 1 { MulMonotone(range, 1, q - q'); }
      if q - q' <= -1 { MulMonotone(range, q - q', -1); }
    }
  }

  // ------------------------------------------------------------------------------------------
  // The start nonce and the thread stamp

  function Clamp(x: int, top: nat): nat { if x < 0 then 0 else if x > top then top else x }

  /** The bytes that tell miners apart: the worker's name and 8 random bytes. */
  function Salt(worker: Bytes, random: Bytes): (salt: seq<nat>)
    requires |random| == 8
    ensures |salt| == 32 && Digits(salt, 256)
  {
    var name := worker[..Min(|worker|, 32)];
    var padded := name + seq(32 - |name|, _ => 0);
    padded[..16] + random + padded[24..]
  }

  function Zeros(n: nat): seq<nat> { seq(n, _ => 0) }

  /** `build_start_nonce`: the extranonce, then the salt behind room for the thread stamp; the low 8 bytes
      stay zero. Without entropy there is no nonce, except for the mock miner, which needs none. */
  method BuildStartNonce(extranonce: Bytes, extranonceLen: int, worker: Bytes, random: Bytes, entropyOk: bool,
                         mock: bool)
    returns (ok: bool, start: array<nat>)
    requires |extranonce| == EXTRANONCE_MAX && |random| == 8
    ensures ok <==> mock || entropyOk
    ensures fresh(start) && start.Length == NONCE_BYTES && Digits(start[..], 256)
    ensures var en := Clamp(extranonceLen, EXTRANONCE_MAX);
            && start[..en] == extranonce[..en]
            && (ok ==> forall i :: 56 <= i < 64 ==> start[i] == 0)
            && (ok && !mock ==> var off := Min(en + 4, 32);
                  start[en..off] == Zeros(off - en) && start[off..off + 24] == Salt(worker, random)[..24]
                  && start[off + 24..] == Zeros(40 - off))
            && (ok && mock ==> start[en..] == Zeros(64 - en))
  {
    start := new nat[64](_ => 0);
    var en := Clamp(extranonceLen, EXTRANONCE_MAX);
    PutBytes(start, 0, extranonce[..en]);
    assert start[en..] == Zeros(64 - en);
    if mock { return true, start; }
    var saltOff := if en + 4 > 32 then 32 else en + 4;
    if !entropyOk { return false, start; }
    var salt := Salt(worker, random);
    var freeLen := NONCE_BYTES - saltOff;
    PartOfZeros(start[..], en, en, saltOff);
    PartOfZeros(start[..], en, saltOff + 24, 64);
    ghost var before := start[..];
    if freeLen > 24 {
      var copy := if freeLen - 8 > 24 then 24 else freeLen - 8;
      PutBytes(start, saltOff, salt[..copy]);
    }
    SaltPlaced(before, start[..], en, saltOff);
    ok := true;
  }

  lemma PartOfZeros(s: seq<nat>, en: nat, a: nat, b: nat)
    requires en <= a <= b <= |s| && s[en..] == Zeros(|s| - en)
    ensures s[a..b] == Zeros(b - a)
  {
    assert s[a..b] == s[en..][a - en..b - en];
  }

  /** Writing the salt changes nothing around it. */
  lemma SaltPlaced(before: seq<nat>, now: seq<nat>, en: nat, off: nat)
    requires |before| == |now| == NONCE_BYTES && en <= off <= 32
    requires now[..off] == before[..off] && now[off + 24..] == before[off + 24..]
    requires before[off + 24..64] == Zeros(40 - off)
    ensures now[..en] == before[..en] && now[en..off] == before[en..off] && now[off + 24..] == Zeros(40 - off)
    ensures forall i :: 56 <= i < 64 ==> now[i] == 0
  {
    assert now[..en] == now[..off][..en] && before[..en] == before[..off][..en];
    assert now[en..off] == now[..off][en..] && before[en..off] == before[..off][en..];
    forall i | 56 <= i < 64
      ensures now[i] == 0
    {
      assert now[i] == now[off + 24..][i - off - 24];
    }
  }

  method PutBytes(dst: array<nat>, at: nat, src: seq<nat>)
    requires at + |src| <= dst.Length && Digits(dst[..], 256) && Digits(src, 256)
    modifies dst
    ensures dst[..at] == old(dst[..at]) && dst[at..at + |src|] == src && dst[at + |src|..] == old(dst[at + |src|..])
    ensures Digits(dst[..], 256)
  {
    forall i | 0 <= i < |src| { dst[at + i] := src[i]; }
  }

  function StampBytes(tid: nat): seq<nat> {
    [tid / 0x100_0000 % 256, tid / 0x1_0000 % 256, tid / 0x100 % 256, tid % 256]
  }

  /** `stamp_thread_id`. */
  method StampThreadId(nonce: array<nat>, extranonceLen: int, tid: nat)
    requires nonce.Length == NONCE_BYTES && tid < 0x8000_0000
    modifies nonce
    ensures var off := if extranonceLen < 0 then 0 else extranonceLen;
            nonce[..] == if off > 60 then old(nonce[..])
                         else old(nonce[..])[..off] + StampBytes(tid) + old(nonce[..])[off + 4..]
  {
    var off := if extranonceLen < 0 then 0 else extranonceLen;
    if off > NONCE_BYTES - 4 { return; }
    nonce[off], nonce[off + 1], nonce[off + 2], nonce[off + 3] :=
      tid / 0x100_0000 % 256, tid / 0x1_0000 % 256, tid / 0x100 % 256, tid % 256;
  }

  lemma StampInjective(tid: nat, tid': nat)
    requires tid < 0x8000_0000 && tid' < 0x8000_0000 && StampBytes(tid) == StampBytes(tid')
    ensures tid == tid'
  {
    StampValue(tid);
    StampValue(tid');
    assert StampBytes(tid)[0] == StampBytes(tid')[0] && StampBytes(tid)[1] == StampBytes(tid')[1]
           && StampBytes(tid)[2] == StampBytes(tid')[2] && StampBytes(tid)[3] == StampBytes(tid')[3];
  }

  lemma StampValue(tid: nat)
    requires tid < 0x8000_0000
    ensures var s := StampBytes(tid); tid == s[0] * 0x100_0000 + s[1] * 0x1_0000 + s[2] * 0x100 + s[3]
  {
    var (x, y, z) := (tid / 0x100, tid / 0x100 / 0x100, tid / 0x100 / 0x100 / 0x100);
    DivDiv(tid, 0x100, 0x100);
    DivDiv(tid, 0x1_0000, 0x100);
    assert tid == x * 0x100 + tid % 256 && x == y * 0x100 + x % 256 && y == z * 0x100 + y % 256 && z == z % 256;
  }

  // ------------------------------------------------------------------------------------------
  // The ranges the threads search

  /** What a thread starts from: the common start nonce with its own stamp behind the extranonce. */
  predicate ThreadStart(start: seq<nat>, base: seq<nat>, en: nat, tid: nat) {
    && |start| == |base| == NONCE_BYTES && Digits(start, 256) && Digits(base, 256) && en <= EXTRANONCE_MAX
    && start == base[..en] + StampBytes(tid) + base[en + 4..]
    && forall i :: 56 <= i < 64 ==> base[i] == 0
  }

  /** Fewer than 2^64 steps stay in the low 8 bytes: everything above them is kept. */
  lemma UpperBytesKept(start: seq<nat>, nonce: seq<nat>, k: nat)
    requires |start| == |nonce| == NONCE_BYTES && Digits(start, 256) && Digits(nonce, 256)
    requires forall i :: 56 <= i < 64 ==> start[i] == 0
    requires k < TWO64 && FromBE(nonce, 256) == FromBE(start, 256) + k
    ensures nonce[..56] == start[..56] && FromBE(nonce[56..], 256) == k
  {
    Byte256Words();
    assert start == start[..56] + start[56..] && nonce == nonce[..56] + nonce[56..];
    FromBEConcat(start[..56], start[56..], 256);
    FromBEConcat(nonce[..56], nonce[56..], 256);
    ZerosBE(start[56..]);
    FromBEBound(nonce[56..], 256);
    DivUnique(FromBE(nonce, 256), TWO64, FromBE(start[..56], 256), k);
    DivUnique(FromBE(nonce, 256), TWO64, FromBE(nonce[..56], 256), FromBE(nonce[56..], 256));
    FromBEInjective(nonce[..56], start[..56], 256);
  }

  lemma {:induction false} ZerosBE(s: seq<nat>)
    requires forall i :: 0 <= i < |s| ==> s[i] == 0
    ensures FromBE(s, 256) == 0
  {
    if s != [] { ZerosBE(s[..|s| - 1]); }
  }

  /** Whatever the extranonce length, two threads that each take fewer than 2^64 steps never meet the same
      nonce, and every nonce keeps the extranonce. */
  lemma ThreadsAreDisjoint(base: seq<nat>, en: nat, tid: nat, tid': nat, start: seq<nat>, start': seq<nat>,
                           nonce: seq<nat>, nonce': seq<nat>, k: nat, k': nat)
    requires ThreadStart(start, base, en, tid) && ThreadStart(start', base, en, tid')
    requires tid < 0x8000_0000 && tid' < 0x8000_0000 && tid != tid' && k < TWO64 && k' < TWO64
    requires |nonce| == |nonce'| == NONCE_BYTES && Digits(nonce, 256) && Digits(nonce', 256)
    requires FromBE(nonce, 256) == FromBE(start, 256) + k && FromBE(nonce', 256) == FromBE(start', 256) + k'
    ensures nonce != nonce'
    ensures nonce[..en] == base[..en] && nonce'[..en] == base[..en]
  {
    NonceLayout(base, en, tid, start, nonce, k);
    NonceLayout(base, en, tid', start', nonce', k');
    hide FromBE, StampBytes, ThreadStart;
    if nonce == nonce' { StampInjective(tid, tid'); }
  }

  /** A thread's nonces keep the extranonce and the thread's stamp. */
  lemma NonceLayout(base: seq<nat>, en: nat, tid: nat, start: seq<nat>, nonce: seq<nat>, k: nat)
    requires ThreadStart(start, base, en, tid) && |nonce| == NONCE_BYTES && Digits(nonce, 256)
    requires k < TWO64 && FromBE(nonce, 256) == FromBE(start, 256) + k
    ensures nonce[..en] == base[..en] && nonce[en..en + 4] == StampBytes(tid)
  {
    hide FromBE;
    UpperBytesKept(start, nonce, k);
    Within(nonce, 0, en);
    Within(nonce, en, en + 4);
    Within(start, 0, en);
    Within(start, en, en + 4);
    assert start[0..en] == base[..en] && start[en..en + 4] == StampBytes(tid);
  }

  lemma Within(s: seq<nat>, a: nat, b: nat)
    requires a <= b <= 56 <= |s|
    ensures s[..56][a..b] == s[a..b]
  {
  }

  function Total(steps: seq<nat>): nat { if steps == [] then 0 else Total(steps[..|steps| - 1]) + steps[|steps| - 1] }

  lemma {:induction false} TotalOfPrefix(steps: seq<nat>, i: nat)
    requires i <= |steps|
    ensures Total(steps[..i]) <= Total(steps)
  {
    if i < |steps| {
      TotalOfPrefix(steps[..|steps| - 1], i);
      assert steps[..|steps| - 1][..i] == steps[..i];
    } else {
      assert steps[..i] == steps;
    }
  }

  /** The steps an advance takes without losing a carry or leaving the low 8 bytes. */
  predicate Steps(steps: seq<nat>) {
    (forall i :: 0 <= i < |steps| ==> steps[i] <= TWO64 - 256) && Total(steps) < TWO64
  }

  /** A thread's advances: each exact, and together the sum of the steps. */
  method Advance(n: array<nat>, steps: seq<nat>)
    requires n.Length == NONCE_BYTES && Digits(n[..], 256) && forall i :: 56 <= i < 64 ==> n[i] == 0
    requires Steps(steps)
    modifies n
    ensures Digits(n[..], 256) && FromBE(n[..], 256) == FromBE(old(n[..]), 256) + Total(steps)
    ensures n[..56] == old(n[..56])
  {
    ghost var start := n[..];
    BelowRange(start);
    TotalOfNothing();
    hide FromBE, Total, Digits;
    assert steps[..0] == [];
    for i := 0 to |steps|
      invariant Digits(n[..], 256) && FromBE(n[..], 256) == FromBE(start, 256) + Total(steps[..i])
    {
      TotalOfPrefix(steps, i + 1);
      TotalSnoc(steps, i);
      Below256(n[..]);
      AddBE(n, steps[i]);
      NoWrap(FromBE(start, 256) + Total(steps[..i + 1]));
    }
    assert steps[..|steps|] == steps;
    UpperBytesKept(start, n[..], Total(steps));
    assert n[..][..56] == n[..56] && start[..56] == old(n[..56]);
  }

  lemma Below256(n: seq<nat>)
    requires Digits(n, 256)
    ensures forall i :: 0 <= i < |n| ==> n[i] < 256
  {
  }

  lemma NoWrap(x: nat)
    ensures x < Range(NONCE_BYTES) ==> x % Range(NONCE_BYTES) == x
  {
    hide Power;
  }

  lemma TotalOfNothing()
    ensures Total([]) == 0
  {
  }

  lemma TotalSnoc(steps: seq<nat>, i: nat)
    requires i < |steps|
    ensures Total(steps[..i + 1]) == Total(steps[..i]) + steps[i]
  {
    assert steps[..i + 1][..i] == steps[..i];
  }

  /** With zero low bytes there is room for every 64-bit step below the top of the range. */
  lemma BelowRange(start: seq<nat>)
    requires |start| == NONCE_BYTES && Digits(start, 256) && forall i :: 56 <= i < 64 ==> start[i] == 0
    ensures FromBE(start, 256) + TWO64 <= Range(NONCE_BYTES)
  {
    Byte256Words();
    assert start == start[..56] + start[56..];
    FromBEConcat(start[..56], start[56..], 256);
    ZerosBE(start[56..]);
    FromBEBound(start[..56], 256);
    PowerAdd(256, 56, 8);
    MulMonotone(TWO64, FromBE(start[..56], 256) + 1, Power(256, 56));
    MulDistributes(TWO64, FromBE(start[..56], 256), 1);
  }

  /** One thread: a copy of the start nonce, stamped and then advanced. */
  method ThreadNonce(base: array<nat>, extranonceLen: int, tid: nat, steps: seq<nat>)
    returns (cur: array<nat>, ghost start: seq<nat>)
    requires base.Length == NONCE_BYTES && Digits(base[..], 256) && (forall i :: 56 <= i < 64 ==> base[i] == 0)
    requires extranonceLen <= EXTRANONCE_MAX && tid < 0x8000_0000 && Steps(steps)
    ensures fresh(cur) && cur.Length == NONCE_BYTES && Digits(cur[..], 256)
    ensures ThreadStart(start, base[..], Clamp(extranonceLen, EXTRANONCE_MAX), tid)
    ensures FromBE(cur[..], 256) == FromBE(start, 256) + Total(steps)
  {
    hide FromBE, Total;
    cur := new nat[NONCE_BYTES](i requires 0 <= i < NONCE_BYTES reads base => base[i]);
    assert cur[..] == base[..];
    StampThreadId(cur, extranonceLen, tid);
    start := cur[..];
    StampedStart(base[..], Clamp(extranonceLen, EXTRANONCE_MAX), tid, start);
    Advance(cur, steps);
  }

  lemma StampedStart(base: seq<nat>, en: nat, tid: nat, start: seq<nat>)
    requires |base| == NONCE_BYTES && Digits(base, 256) && en <= EXTRANONCE_MAX
    requires forall i :: 56 <= i < 64 ==> base[i] == 0
    requires start == base[..en] + StampBytes(tid) + base[en + 4..]
    ensures ThreadStart(start, base, en, tid)
    ensures forall i :: 56 <= i < 64 ==> start[i] == 0
  {
  }

  /** What thread `tid` has reached. */
  ghost predicate Reached(base: seq<nat>, en: nat, tid: nat, start: seq<nat>, nonce: seq<nat>) {
    && ThreadStart(start, base, en, tid) && tid < 0x8000_0000
    && |nonce| == NONCE_BYTES && Digits(nonce, 256)
    && FromBE(start, 256) <= FromBE(nonce, 256) < FromBE(start, 256) + TWO64
  }

  lemma ReachedApart(base: seq<nat>, en: nat, tid: nat, tid': nat, start: seq<nat>, start': seq<nat>,
                     nonce: seq<nat>, nonce': seq<nat>)
    requires Reached(base, en, tid, start, nonce) && Reached(base, en, tid', start', nonce') && tid != tid'
    ensures nonce != nonce' && nonce[..en] == nonce'[..en] == base[..en]
  {
    hide FromBE, ThreadStart;
    ThreadsAreDisjoint(base, en, tid, tid', start, start', nonce, nonce',
                       FromBE(nonce, 256) - FromBE(start, 256), FromBE(nonce', 256) - FromBE(start', 256));
  }

  lemma ReachedKeeps(base: seq<nat>, en: nat, tid: nat, start: seq<nat>, nonce: seq<nat>)
    requires Reached(base, en, tid, start, nonce)
    ensures nonce[..en] == base[..en]
  {
    hide FromBE, ThreadStart;
    NonceLayout(base, en, tid, start, nonce, FromBE(nonce, 256) - FromBE(start, 256));
  }

  // ------------------------------------------------------------------------------------------
  // What stands in a nonce

  /** Byte `k` of the salt: the worker's name, and from byte 16 on the random bytes. */
  function SaltByte(worker: Bytes, random: Bytes, k: nat): nat
    requires |random| == 8 && k < 24
  {
    if k >= 16 then random[k - 16] else if k < |worker| then worker[k] else 0
  }

  /** Byte `i` of the upper 56: the extranonce, the thread's number, the salt, zeros. A full extranonce leaves the
      number no room of its own: it stands on the first bytes of the salt. */
  function NonceByte(extranonce: Bytes, en: nat, worker: Bytes, random: Bytes, mock: bool, tid: nat, i: nat): nat
    requires en <= |extranonce| && |random| == 8
  {
    var off := if en + 4 > 32 then 32 else en + 4;
    if i < en then extranonce[i]
    else if i == en then tid / 0x100_0000 % 256
    else if i == en + 1 then tid / 0x1_0000 % 256
    else if i == en + 2 then tid / 0x100 % 256
    else if i == en + 3 then tid % 256
    else if !mock && off <= i < off + 24 then SaltByte(worker, random, i - off)
    else 0
  }

  ghost predicate NonceIs(nonce: seq<nat>, extranonce: Bytes, en: nat, worker: Bytes, random: Bytes, mock: bool,
                          tid: nat, advanced: nat)
    requires en <= |extranonce| && |random| == 8
  {
    && |nonce| == NONCE_BYTES
    && (forall i: nat :: i < 56 ==> nonce[i] == NonceByte(extranonce, en, worker, random, mock, tid, i))
    && FromBE(nonce[56..], 256) == advanced
  }

  /** What `build_start_nonce` leaves. */
  ghost predicate StartIs(base: seq<nat>, extranonce: Bytes, en: nat, worker: Bytes, random: Bytes, mock: bool)
    requires en <= |extranonce| && |random| == 8
  {
    && |base| == NONCE_BYTES && en <= 32 && base[..en] == extranonce[..en]
    && (!mock ==> var off := Min(en + 4, 32);
          base[en..off] == Zeros(off - en) && base[off..off + 24] == Salt(worker, random)[..24]
          && base[off + 24..] == Zeros(40 - off))
    && (mock ==> base[en..] == Zeros(64 - en))
  }

  lemma SaltAt(worker: Bytes, random: Bytes, k: nat)
    requires |random| == 8 && k < 24
    ensures Salt(worker, random)[k] == SaltByte(worker, random, k)
  {
    var name := worker[..Min(|worker|, 32)];
    var padded := name + seq(32 - |name|, _ => 0);
    assert Salt(worker, random) == padded[..16] + random + padded[24..];
    if k < 16 { assert Salt(worker, random)[k] == padded[k]; }
  }

  lemma StartBytes(base: seq<nat>, extranonce: Bytes, en: nat, worker: Bytes, random: Bytes, mock: bool, i: nat)
    requires en <= |extranonce| && |random| == 8 && StartIs(base, extranonce, en, worker, random, mock)
    requires i < 56 && (i < en || i >= en + 4)
    ensures base[i] == NonceByte(extranonce, en, worker, random, mock, 0, i)
  {
    if i < en {
      assert base[i] == base[..en][i];
    } else if mock {
      assert base[i] == base[en..][i - en];
    } else {
      var off := Min(en + 4, 32);
      if i < off + 24 {
        SaltAt(worker, random, i - off);
        assert base[i] == base[off..off + 24][i - off] == Salt(worker, random)[..24][i - off];
      } else {
        assert base[i] == base[off + 24..][i - off - 24];
      }
    }
  }

  lemma LayoutOfNonce(base: seq<nat>, extranonce: Bytes, en: nat, worker: Bytes, random: Bytes, mock: bool, tid: nat,
                      start: seq<nat>, nonce: seq<nat>, k: nat)
    requires en <= |extranonce| && |random| == 8 && StartIs(base, extranonce, en, worker, random, mock)
    requires ThreadStart(start, base, en, tid) && |nonce| == NONCE_BYTES && Digits(nonce, 256)
    requires k < TWO64 && FromBE(nonce, 256) == FromBE(start, 256) + k
    ensures NonceIs(nonce, extranonce, en, worker, random, mock, tid, k)
  {
    assert forall i :: 56 <= i < 64 ==> start[i] == 0;
    UpperBytesKept(start, nonce, k);
    hide FromBE, StartIs, Digits;
    forall i: nat | i < 56
      ensures nonce[i] == NonceByte(extranonce, en, worker, random, mock, tid, i)
    {
      assert nonce[i] == nonce[..56][i] == start[..56][i] == start[i];
      if i < en || i >= en + 4 {
        StartBytes(base, extranonce, en, worker, random, mock, i);
        assert start[i] == base[i];
      } else {
        assert start[i] == StampBytes(tid)[i - en];
      }
    }
  }

  /** `mine_job_cpu`: one start nonce, a stamped copy for every thread, and any numbers of steps: every byte of
      each thread's nonce is known, its lower 8 bytes count the steps, no two threads stand at the same nonce, and
      all keep the pool's extranonce. */
  method SearchNonces(extranonce: Bytes, extranonceLen: int, worker: Bytes, random: Bytes, entropyOk: bool, mock: bool,
                      steps: seq<seq<nat>>)
    returns (ok: bool, nonces: seq<array<nat>>)
    requires |extranonce| == EXTRANONCE_MAX && extranonceLen <= EXTRANONCE_MAX && |random| == 8
    requires |steps| < 0x8000_0000 && forall t :: 0 <= t < |steps| ==> Steps(steps[t])
    ensures ok <==> mock || entropyOk
    ensures ok ==> |nonces| == |steps| && forall t :: 0 <= t < |steps| ==> nonces[t].Length == NONCE_BYTES
    ensures ok ==> forall t, u :: 0 <= t < u < |steps| ==> nonces[t][..] != nonces[u][..]
    ensures ok ==> var en := Clamp(extranonceLen, EXTRANONCE_MAX);
                   forall t :: 0 <= t < |steps| ==>
                     && nonces[t][..en] == extranonce[..en]
                     && NonceIs(nonces[t][..], extranonce, en, worker, random, mock, t, Total(steps[t]))
  {
    var base;
    ok, base := BuildStartNonce(extranonce, extranonceLen, worker, random, entropyOk, mock);
    nonces := [];
    if !ok { return; }
    ghost var en := Clamp(extranonceLen, EXTRANONCE_MAX);
    ghost var was := base[..];
    ghost var starts := [];
    assert was[..en] == extranonce[..en];
    assert StartIs(was, extranonce, en, worker, random, mock);
    hide FromBE, ThreadStart, Reached, Digits, Total, Salt, Zeros, StartIs, NonceIs;
    for tid := 0 to |steps|
      invariant |nonces| == |starts| == tid && base[..] == was
      invariant forall t :: 0 <= t < tid ==> fresh(nonces[t]) && nonces[t].Length == NONCE_BYTES
      invariant forall t :: 0 <= t < tid ==> Reached(was, en, t, starts[t], nonces[t][..])
      invariant forall t :: 0 <= t < tid ==>
        NonceIs(nonces[t][..], extranonce, en, worker, random, mock, t, Total(steps[t]))
    {
      var cur, start := ThreadNonce(base, extranonceLen, tid, steps[tid]);
      assert Reached(was, en, tid, start, cur[..]) by { IsReached(was, en, tid, start, cur[..], steps[tid]); }
      LayoutOfNonce(was, extranonce, en, worker, random, mock, tid, start, cur[..], Total(steps[tid]));
      nonces, starts := nonces + [cur], starts + [start];
    }
    forall t, u | 0 <= t < u < |steps|
      ensures nonces[t][..] != nonces[u][..]
    {
      ReachedApart(was, en, t, u, starts[t], starts[u], nonces[t][..], nonces[u][..]);
    }
    forall t | 0 <= t < |steps|
      ensures nonces[t][..en] == extranonce[..en]
    {
      ReachedKeeps(was, en, t, starts[t], nonces[t][..]);
      assert nonces[t][..en] == nonces[t][..][..en];
    }
  }

  lemma IsReached(base: seq<nat>, en: nat, tid: nat, start: seq<nat>, nonce: seq<nat>, steps: seq<nat>)
    requires ThreadStart(start, base, en, tid) && tid < 0x8000_0000 && Steps(steps)
    requires |nonce| == NONCE_BYTES && Digits(nonce, 256)
    requires FromBE(nonce, 256) == FromBE(start, 256) + Total(steps)
    ensures Reached(base, en, tid, start, nonce)
  {
    hide FromBE, ThreadStart, Total;
  }
}
