/** The Pearl developer fee: the debt ledger and the choice of pool for a fee cycle. Work is counted in tiles. */
module Fee {
  import opened Bits

  const FEE_PERIOD: nat := 100
  const BACKOFF_MAX: nat := 64
  const UINT64_MAX: nat := 0xFFFF_FFFF_FFFF_FFFF

  /** The file-level state. Pools are numbered: `pools` of them are fixed, number `pools` is the
      user's. */
  datatype State = State(
    enabled: bool,
    authIsDev: bool,
    feeActive: bool,
    debt: nat,
    t: nat,
    poolIdx: nat,
    poolGood: nat,
    sessionDev: bool,
    gotJob: bool,
    fixedRest: nat,
    fixedBackoff: nat,
    skipRest: nat,
    skipBackoff: nat)

  function Initial(enabled: bool): State {
    State(enabled, false, false, 0, 0, 0, 0, false, false, 0, 0, 0, 0)
  }

  function NextBackoff(cycles: nat): nat {
    if cycles == 0 then 1 else if cycles * 2 < BACKOFF_MAX then cycles * 2 else BACKOFF_MAX
  }

  function Threshold(s: State): nat { FEE_PERIOD * s.t }

  function NextIsDev(s: State): bool { s.enabled && s.feeActive }

  function NeedsSwitch(s: State): bool { s.enabled && NextIsDev(s) != s.authIsDev }

  /** Settles the current fee cycle as if it had been mined. */
  function PayCycle(s: State): State {
    s.(debt := if s.debt < Threshold(s) then 0 else s.debt - Threshold(s), feeActive := false)
  }

  function SetTiles(s: State, t: nat): State {
    if t == 0 then s
    else if s.t == 0 && s.enabled then s.(t := t, debt := FEE_PERIOD / 2 * t)
    else s.(t := t)
  }

  function OnAuthorized(s: State): State { s.(authIsDev := NextIsDev(s)) }

  predicate CycleDue(s: State) {
    s.enabled && s.t != 0 && !s.feeActive && s.debt >= Threshold(s)
  }

  function Prepare(s: State, pools: nat): (r: State)
    ensures r.debt <= s.debt
  {
    if !CycleDue(s) then s
    else if s.skipRest > 0 then PayCycle(s.(skipRest := s.skipRest - 1))
    else if s.fixedRest > 0 then s.(feeActive := true, fixedRest := s.fixedRest - 1, poolIdx := pools)
    else s.(feeActive := true, poolIdx := s.poolGood)
  }

  /** Charges finished work to the wallet it was done under, saturating at both ends. */
  function NoteTiles(s: State, tiles: nat): (r: State)
    ensures s.debt <= UINT64_MAX ==> r.debt <= UINT64_MAX
  {
    if !s.enabled || tiles == 0 then s
    else if s.authIsDev then
      var debt :=
        if tiles > UINT64_MAX / FEE_PERIOD || tiles * FEE_PERIOD >= s.debt then 0 else s.debt - tiles * FEE_PERIOD;
      s.(debt := debt, feeActive := s.feeActive && debt >= Threshold(s))
    else
      var room := UINT64_MAX - s.debt;
      s.(debt := s.debt + if tiles > room then room else tiles)
  }

  function SessionPool(s: State): State {
    s.(sessionDev := NextIsDev(s), gotJob := false)
  }

  predicate OnFeePool(s: State, pools: nat) { s.sessionDev && s.poolIdx < pools }

  function SessionOk(s: State, pools: nat): State {
    if !s.sessionDev || s.gotJob then s
    else if s.poolIdx < pools then s.(gotJob := true, skipBackoff := 0, poolGood := s.poolIdx, fixedBackoff := 0)
    else s.(gotJob := true, skipBackoff := 0)
  }

  predicate SessionFailed(s: State) { s.sessionDev && !s.gotJob && s.feeActive }

  /** The end of a session: a fee session that never got a job moves on to the next pool. */
  function SessionEnd(s: State, pools: nat): (r: State)
    ensures r.debt <= s.debt
  {
    var ended := s.(sessionDev := false, gotJob := false);
    if !SessionFailed(s) then ended
    else if s.poolIdx + 1 < pools then ended.(poolIdx := s.poolIdx + 1)
    else if s.poolIdx < pools then
      var backoff := NextBackoff(s.fixedBackoff);
      ended.(poolIdx := s.poolIdx + 1, poolGood := 0, fixedBackoff := backoff, fixedRest := backoff)
    else
      var backoff := NextBackoff(s.skipBackoff);
      PayCycle(ended).(skipBackoff := backoff, skipRest := backoff)
  }

  /** What charging does, in numbers: fee work pays 100 tiles each down to 0 and ends the cycle below 100 matrices;
      user work adds its tiles up to the largest 64-bit number; nothing else changes. */
  lemma NoteMeaning(s: State, tiles: nat)
    requires s.enabled && s.debt < 0x1_0000_0000_0000_0000
    ensures var r := NoteTiles(s, tiles);
            && r == s.(debt := r.debt, feeActive := r.feeActive)
            && r.debt == (if s.authIsDev then (if 100 * tiles >= s.debt then 0 else s.debt - 100 * tiles)
                          else if s.debt + tiles > 0xFFFF_FFFF_FFFF_FFFF then 0xFFFF_FFFF_FFFF_FFFF
                          else s.debt + tiles)
            && (r.feeActive <==> s.feeActive && (s.authIsDev && tiles > 0 ==> r.debt >= 100 * s.t))
  {
  }

  // ------------------------------------------------------------------------------------------
  // The functions of the fee interface, on the state they share

  class Ledger {
    const pools: nat
    var enabled: bool
    var authIsDev: bool
    var feeActive: bool
    var debt: nat
    var t: nat
    var poolIdx: nat
    var poolGood: nat
    var sessionDev: bool
    var gotJob: bool
    var fixedRest: nat
    var fixedBackoff: nat
    var skipRest: nat
    var skipBackoff: nat

    function Now(): State
      reads this
    {
      State(enabled, authIsDev, feeActive, debt, t, poolIdx, poolGood, sessionDev, gotJob, fixedRest, fixedBackoff,
            skipRest, skipBackoff)
    }

    constructor (pools: nat, enabled: bool)
      ensures Now() == Initial(enabled) && this.pools == pools
    {
      this.pools := pools;
      this.enabled := enabled;
      authIsDev, feeActive, debt, t := false, false, 0, 0;
      poolIdx, poolGood, sessionDev, gotJob := 0, 0, false, false;
      fixedRest, fixedBackoff, skipRest, skipBackoff := 0, 0, 0, 0;
    }

    method Pay()
      modifies this`debt, this`feeActive
      ensures Now() == PayCycle(old(Now()))
    {
      var threshold := FEE_PERIOD * t;
      if debt < threshold { debt := 0; } else { debt := debt - threshold; }
      feeActive := false;
    }

    method SetTilesPerMatrix(tiles: nat)
      modifies this`t, this`debt
      ensures Now() == SetTiles(old(Now()), tiles)
    {
      if tiles == 0 { return; }
      var first := t == 0;
      t := tiles;
      if first && enabled { debt := FEE_PERIOD / 2 * tiles; }
    }

    method Authorized()
      modifies this`authIsDev
      ensures Now() == OnAuthorized(old(Now()))
    {
      authIsDev := enabled && feeActive;
    }

    method PrepareMatrix()
      modifies this`debt, this`feeActive, this`skipRest, this`fixedRest, this`poolIdx
      ensures Now() == Prepare(old(Now()), pools)
    {
      if !enabled || t == 0 { return; }
      if !feeActive && debt >= FEE_PERIOD * t {
        if skipRest > 0 {
          skipRest := skipRest - 1;
          Pay();
          return;
        }
        feeActive := true;
        if fixedRest > 0 {
          fixedRest := fixedRest - 1;
          poolIdx := pools;
        } else {
          poolIdx := poolGood;
        }
      }
    }

    method Note(tiles: nat)
      requires debt <= UINT64_MAX
      modifies this`debt, this`feeActive
      ensures Now() == NoteTiles(old(Now()), tiles) && debt <= UINT64_MAX
    {
      if !enabled || tiles == 0 { return; }
      if authIsDev {
        if tiles > UINT64_MAX / FEE_PERIOD {
          debt := 0;
        } else {
          var pay := tiles * FEE_PERIOD;
          if pay >= debt { debt := 0; } else { debt := debt - pay; }
        }
        if feeActive && debt < FEE_PERIOD * t { feeActive := false; }
      } else {
        var room := UINT64_MAX - debt;
        debt := debt + (if tiles > room then room else tiles);
      }
    }

    /** Whether the next session goes to a fixed pool, and to which. */
    method ChoosePool() returns (fixed: bool, pool: nat)
      modifies this`sessionDev, this`gotJob
      ensures Now() == SessionPool(old(Now()))
      ensures fixed == OnFeePool(Now(), pools) && (fixed ==> pool == poolIdx)
    {
      sessionDev := enabled && feeActive;
      gotJob := false;
      fixed, pool := sessionDev && poolIdx < pools, poolIdx;
    }

    method GotJob()
      modifies this`gotJob, this`skipBackoff, this`poolGood, this`fixedBackoff
      ensures Now() == SessionOk(old(Now()), pools)
    {
      if !sessionDev || gotJob { return; }
      gotJob := true;
      skipBackoff := 0;
      if poolIdx < pools {
        poolGood := poolIdx;
        fixedBackoff := 0;
      }
    }

    method EndSession() returns (failed: bool)
      modifies this
      ensures Now() == SessionEnd(old(Now()), pools) && failed == SessionFailed(old(Now()))
    {
      var dev, got := sessionDev, gotJob;
      sessionDev, gotJob := false, false;
      if !dev || got || !feeActive { return false; }
      if poolIdx < pools {
        poolIdx := poolIdx + 1;
        if poolIdx >= pools {
          poolGood := 0;
          fixedBackoff := NextBackoff(fixedBackoff);
          fixedRest := fixedBackoff;
        }
      } else {
        Pay();
        skipBackoff := NextBackoff(skipBackoff);
        skipRest := skipBackoff;
      }
      failed := true;
    }
  }

  // ------------------------------------------------------------------------------------------
  // Failover

  predicate PoolsInv(s: State, pools: nat) {
    && s.poolIdx <= pools && s.poolGood <= pools && (pools > 0 ==> s.poolGood < pools)
    && s.fixedRest <= BACKOFF_MAX && s.fixedBackoff <= BACKOFF_MAX
    && s.skipRest <= BACKOFF_MAX && s.skipBackoff <= BACKOFF_MAX
  }

  function BackoffAfter(failures: nat): nat {
    if failures == 0 then 0 else NextBackoff(BackoffAfter(failures - 1))
  }

  /** Failures in a row double the backoff from 1 up to its limit. */
  lemma {:induction false} BackoffDoubles(failures: nat)
    requires failures > 0
    ensures BackoffAfter(failures) == if Pow2(failures - 1) < BACKOFF_MAX then Pow2(failures - 1) else BACKOFF_MAX
  {
    if failures > 1 { BackoffDoubles(failures - 1); }
  }
}
