/** The runs of the client that uses the fee ledger, from session to session and attempt to attempt. */
module FeeRuns {
  import opened Arith
  import opened Fee

  datatype Wallet = UserWallet | FeeWallet

  datatype Phase =
    | Ending            // before the end of the last session is settled
    | Choosing          // before a pool is chosen
    | Dialing           // a pool is chosen
    | Connected         // before authorization
    | Online            // authorized, waiting for jobs
    | Ready             // a job is there
    | Mining

  /** The client with what it has done: whose tiles, how many settled cycles without work, what a saturating
      debt did not take in, and the current session as the pool sees it (`sent` once it was authorized). */
  datatype Client = Client(
    fee: State,
    phase: Phase,
    userTiles: nat,
    feeTiles: nat,
    skipped: nat,
    overpaid: nat,
    lost: nat,
    onFixedPool: bool,
    sent: bool,
    wallet: Wallet,
    defaultPassword: bool)

  function Launch(enabled: bool): Client {
    Client(Initial(enabled), Ending, 0, 0, 0, 0, 0, false, false, UserWallet, false)
  }

  datatype Action =
    | Settle                        // the session is over: cp_fee_session_end
    | Choose                        // cp_fee_session_pool
    | Dial(ok: bool)                // cp_pool_connect
    | Authorize(ok: bool)           // send_authorize and, unless it fails, cp_fee_on_authorized
    | Notify                        // a job arrives: cp_fee_session_ok
    | Begin                         // cp_mine_job sets the matrix size
    | Attempt(tiles: nat)           // one turn of the mining loop, with the tiles its scan counted
    | JobOver
    | Lost                          // the connection is lost

  /** A due cycle is skipped because no pool took the fee wallet before. */
  predicate Skips(s: State) { CycleDue(s) && s.skipRest > 0 }

  /** A cycle is given up because the user's pool, tried last, gave no job either. */
  predicate GivesUp(s: State, pools: nat) { SessionFailed(s) && s.poolIdx >= pools }

  /** What fee work pays beyond the debt. */
  function Surplus(debt: nat, tiles: nat): nat {
    if FEE_PERIOD * tiles > debt then FEE_PERIOD * tiles - debt else 0
  }

  /** What user work adds beyond the largest debt. */
  function Excess(debt: nat, tiles: nat): nat {
    if debt + tiles > UINT64_MAX then debt + tiles - UINT64_MAX else 0
  }

  /** The start of an attempt. */
  function Prepared(c: Client, pools: nat): Client {
    c.(fee := Prepare(c.fee, pools), skipped := if Skips(c.fee) then c.skipped + 1 else c.skipped)
  }

  /** A prepared attempt: a switch of the wallet, or work charged to the wallet of the session. */
  function Charged(c: Client, tiles: nat): Client {
    if NeedsSwitch(c.fee) then c.(phase := Ending)
    else if !c.fee.enabled then c
    else if c.fee.authIsDev then
      c.(fee := NoteTiles(c.fee, tiles), feeTiles := c.feeTiles + tiles,
         overpaid := c.overpaid + Surplus(c.fee.debt, tiles))
    else
      c.(fee := NoteTiles(c.fee, tiles), userTiles := c.userTiles + tiles, lost := c.lost + Excess(c.fee.debt, tiles))
  }

  function MineAttempt(c: Client, pools: nat, tiles: nat): Client {
    Charged(Prepared(c, pools), tiles)
  }

  predicate Offline(c: Client) { c.phase in {Ending, Choosing, Dialing, Connected} }

  /** Between sessions, up to the authorization. */
  function OfflineStep(c: Client, pools: nat, act: Action): Client {
    match (c.phase, act)
    case (Ending, Settle) =>
      c.(fee := SessionEnd(c.fee, pools), skipped := if GivesUp(c.fee, pools) then c.skipped + 1 else c.skipped,
         phase := Choosing)
    case (Choosing, Choose) =>
      var fee := SessionPool(c.fee);
      c.(fee := fee, onFixedPool := OnFeePool(fee, pools), sent := false, phase := Dialing)
    case (Dialing, Dial(ok)) => c.(phase := if ok then Connected else Ending)
    case (Connected, Authorize(ok)) =>
      var sent := c.(sent := true, wallet := if NextIsDev(c.fee) then FeeWallet else UserWallet,
                     defaultPassword := OnFeePool(c.fee, pools));
      if ok then sent.(fee := OnAuthorized(c.fee), phase := Online) else sent.(phase := Ending)
    case _ => c
  }

  /** In a session. */
  function OnlineStep(c: Client, pools: nat, t: nat, act: Action): Client {
    match act
    case Notify =>
      if c.phase in {Online, Ready} then c.(fee := SessionOk(c.fee, pools), phase := Ready) else c
    case Begin => if c.phase == Ready then c.(fee := SetTiles(c.fee, t), phase := Mining) else c
    case Attempt(tiles) => if c.phase == Mining then MineAttempt(c, pools, tiles) else c
    case JobOver => if c.phase == Mining then c.(phase := Ready) else c
    case Lost => c.(phase := Ending)
    case _ => c
  }

  /** One action of the client, with matrices of `t` tiles; what cannot happen now changes nothing. */
  function Apply(c: Client, pools: nat, t: nat, act: Action): Client {
    if Offline(c) then OfflineStep(c, pools, act) else OnlineStep(c, pools, t, act)
  }

  function RunFrom(c: Client, pools: nat, t: nat, acts: seq<Action>): Client {
    if acts == [] then c
    else Apply(RunFrom(c, pools, t, acts[..|acts| - 1]), pools, t, acts[|acts| - 1])
  }

  function Run(enabled: bool, pools: nat, t: nat, acts: seq<Action>): Client {
    RunFrom(Launch(enabled), pools, t, acts)
  }

  lemma OneMore(c: Client, pools: nat, t: nat, acts: seq<Action>, act: Action)
    ensures RunFrom(c, pools, t, acts + [act]) == Apply(RunFrom(c, pools, t, acts), pools, t, act)
  {
    assert (acts + [act])[..|acts|] == acts;
  }

  lemma {:induction false} RunOn(c: Client, pools: nat, t: nat, acts: seq<Action>, more: seq<Action>)
    ensures RunFrom(c, pools, t, acts + more) == RunFrom(RunFrom(c, pools, t, acts), pools, t, more)
  {
    if more == [] {
      assert acts + more == acts;
    } else {
      var before := more[..|more| - 1];
      RunOn(c, pools, t, acts, before);
      assert (acts + more)[..|acts + more| - 1] == acts + before;
      hide Apply;
    }
  }

  // ------------------------------------------------------------------------------------------
  // The client on the ledger

  /** One action, carried out by the functions of the fee interface. */
  method Act(ledger: Ledger, c: Client, t: nat, act: Action) returns (c': Client)
    requires ledger.Now() == c.fee && c.fee.debt <= UINT64_MAX
    modifies ledger
    ensures c' == Apply(c, ledger.pools, t, act) && ledger.Now() == c'.fee
  {
    hide OfflineStep, OnlineStep;
    if Offline(c) { c' := ActOffline(ledger, c, act); } else { c' := ActOnline(ledger, c, t, act); }
  }

  method ActOffline(ledger: Ledger, c: Client, act: Action) returns (c': Client)
    requires ledger.Now() == c.fee
    modifies ledger
    ensures c' == OfflineStep(c, ledger.pools, act) && ledger.Now() == c'.fee
  {
    hide SessionEnd, SessionPool, OnAuthorized, SessionFailed;
    c' := c;
    match (c.phase, act) {
      case (Ending, Settle) =>
        var userPool := ledger.poolIdx >= ledger.pools;
        var failed := ledger.EndSession();
        c' := c'.(skipped := if failed && userPool then c.skipped + 1 else c.skipped, phase := Choosing);
      case (Choosing, Choose) =>
        var fixed, pool := ledger.ChoosePool();
        c' := c'.(onFixedPool := fixed, sent := false, phase := Dialing);
      case (Dialing, Dial(ok)) =>
        c' := c'.(phase := if ok then Connected else Ending);
      case (Connected, Authorize(ok)) =>
        var wallet := if ledger.enabled && ledger.feeActive then FeeWallet else UserWallet;
        var fixed := ledger.sessionDev && ledger.poolIdx < ledger.pools;
        c' := c'.(sent := true, wallet := wallet, defaultPassword := fixed, phase := if ok then Online else Ending);
        if ok { ledger.Authorized(); }
      case _ =>
    }
    c' := c'.(fee := ledger.Now());
  }

  method ActOnline(ledger: Ledger, c: Client, t: nat, act: Action) returns (c': Client)
    requires ledger.Now() == c.fee && c.fee.debt <= UINT64_MAX
    modifies ledger
    ensures c' == OnlineStep(c, ledger.pools, t, act) && ledger.Now() == c'.fee
  {
    hide SessionOk, SetTiles, MineAttempt;
    c' := c;
    if act == Notify && c.phase in {Online, Ready} {
      ledger.GotJob();
      c' := c'.(phase := Ready);
    } else if act == Begin && c.phase == Ready {
      ledger.SetTilesPerMatrix(t);
      c' := c'.(phase := Mining);
    } else if act.Attempt? && c.phase == Mining {
      c' := Attempted(ledger, c, act.tiles);
    } else if act == JobOver && c.phase == Mining {
      c' := c'.(phase := Ready);
    } else if act == Lost {
      c' := c'.(phase := Ending);
    }
    c' := c'.(fee := ledger.Now());
  }

  /** One turn of the mining loop. */
  method Attempted(ledger: Ledger, c: Client, tiles: nat) returns (c': Client)
    requires ledger.Now() == c.fee && c.fee.debt <= UINT64_MAX
    modifies ledger
    ensures c' == MineAttempt(c, ledger.pools, tiles) && ledger.Now() == c'.fee
  {
    hide Prepare, Skips, Charged;
    var skipped := if Skips(ledger.Now()) then c.skipped + 1 else c.skipped;
    ledger.PrepareMatrix();
    c' := c.(fee := ledger.Now(), skipped := skipped);
    c' := Charge(ledger, c', tiles);
  }

  method Charge(ledger: Ledger, c: Client, tiles: nat) returns (c': Client)
    requires ledger.Now() == c.fee && c.fee.debt <= UINT64_MAX
    modifies ledger
    ensures c' == Charged(c, tiles) && ledger.Now() == c'.fee
  {
    hide NoteTiles, NeedsSwitch, Surplus, Excess;
    if NeedsSwitch(c.fee) { return c.(phase := Ending); }
    if !c.fee.enabled { return c; }
    ledger.Note(tiles);
    if c.fee.authIsDev {
      c' := c.(fee := ledger.Now(), feeTiles := c.feeTiles + tiles,
               overpaid := c.overpaid + Surplus(c.fee.debt, tiles));
    } else {
      c' := c.(fee := ledger.Now(), userTiles := c.userTiles + tiles, lost := c.lost + Excess(c.fee.debt, tiles));
    }
  }

  lemma AttemptKeepsDebt(c: Client, pools: nat, tiles: nat)
    requires c.fee.debt <= UINT64_MAX
    ensures MineAttempt(c, pools, tiles).fee.debt <= UINT64_MAX
  {
    hide Prepare, NoteTiles, Skips, NeedsSwitch, Surplus, Excess;
  }

  lemma ApplyKeepsDebt(c: Client, pools: nat, t: nat, act: Action)
    requires c.fee.debt <= UINT64_MAX && FEE_PERIOD * t <= UINT64_MAX
    ensures Apply(c, pools, t, act).fee.debt <= UINT64_MAX
  {
    hide SessionEnd, GivesUp, MineAttempt;
    if act.Attempt? { AttemptKeepsDebt(c, pools, act.tiles); }
  }

  /** Any run, on one ledger. */
  method RunClient(enabled: bool, pools: nat, t: nat, acts: seq<Action>) returns (ledger: Ledger, c: Client)
    requires FEE_PERIOD * t <= UINT64_MAX
    ensures fresh(ledger) && ledger.pools == pools && ledger.Now() == c.fee && c == Run(enabled, pools, t, acts)
  {
    hide Apply;
    ledger := new Ledger(pools, enabled);
    c := Launch(enabled);
    for i := 0 to |acts|
      invariant ledger.Now() == c.fee && c.fee.debt <= UINT64_MAX && ledger.pools == pools && fresh(ledger)
      invariant c == Run(enabled, pools, t, acts[..i])
    {
      assert acts[..i + 1][..i] == acts[..i];
      ApplyKeepsDebt(c, pools, t, acts[i]);
      c := Act(ledger, c, t, acts[i]);
    }
    assert acts[..|acts|] == acts;
  }

  // ------------------------------------------------------------------------------------------
  // Conservation

  /** The work a number of fee cycles stands for. */
  function Cycles(t: nat, n: nat): nat { FEE_PERIOD * t * n }

  /** The debt is exactly what seed, user work, fee work, settled cycles and saturation make it. */
  predicate Balanced(c: Client, t: nat) {
    c.fee.debt + FEE_PERIOD * c.feeTiles + Cycles(t, c.skipped) + c.lost
      == FEE_PERIOD / 2 * t + c.userTiles + c.overpaid
  }

  predicate LedgerInv(c: Client, t: nat) {
    var s := c.fee;
    && s.t in {0, t} && s.enabled && s.debt <= UINT64_MAX
    && (s.t == 0 ==> s.debt == 0 && !s.feeActive
                     && c.userTiles == c.feeTiles == c.skipped == c.overpaid == c.lost == 0)
    && (s.t != 0 ==> Balanced(c, t))
    && (s.feeActive ==> s.debt >= Threshold(s))
    && (c.phase == Mining ==> s.t == t)
  }

  /** Attempts of at most `a` tiles bound the debt. */
  predicate BoundInv(c: Client, t: nat, a: nat) {
    c.lost == 0 && c.fee.debt < FEE_PERIOD * t + a && (a <= t ==> c.overpaid == 0)
  }

  /** Pool, wallet, password and charging side of the current session agree. */
  predicate SessionInv(c: Client, pools: nat) {
    var s := c.fee;
    && (c.phase in {Dialing, Connected} ==> s.sessionDev == NextIsDev(s) && c.onFixedPool == OnFeePool(s, pools))
    && (c.sent ==> c.onFixedPool == c.defaultPassword && (c.onFixedPool ==> c.wallet == FeeWallet))
    && (c.phase in {Online, Ready, Mining} ==> c.sent && s.sessionDev == s.authIsDev == (c.wallet == FeeWallet))
  }

  predicate Inv(c: Client, pools: nat, t: nat) {
    PoolsInv(c.fee, pools) && LedgerInv(c, t) && SessionInv(c, pools)
  }

  predicate AttemptsUpTo(acts: seq<Action>, a: nat) {
    forall i :: 0 <= i < |acts| && acts[i].Attempt? ==> acts[i].tiles <= a
  }

  lemma OneMoreCycle(t: nat, n: nat)
    ensures Cycles(t, n + 1) == Cycles(t, n) + FEE_PERIOD * t
  {
    MulDistributes(FEE_PERIOD * t, n, 1);
  }

  lemma PrepareKeepsLedger(c: Client, pools: nat, t: nat)
    requires LedgerInv(c, t) && t > 0
    ensures LedgerInv(Prepared(c, pools), t)
  {
    hide Cycles;
    OneMoreCycle(t, c.skipped);
  }

  lemma FeeWorkKeepsLedger(c: Client, t: nat, tiles: nat)
    requires LedgerInv(c, t) && c.fee.t == t > 0 && c.fee.authIsDev
    ensures LedgerInv(c.(fee := NoteTiles(c.fee, tiles), feeTiles := c.feeTiles + tiles,
                         overpaid := c.overpaid + Surplus(c.fee.debt, tiles)), t)
  {
    hide Cycles;
  }

  lemma UserWorkKeepsLedger(c: Client, t: nat, tiles: nat)
    requires LedgerInv(c, t) && c.fee.t == t > 0 && !c.fee.authIsDev
    ensures LedgerInv(c.(fee := NoteTiles(c.fee, tiles), userTiles := c.userTiles + tiles,
                         lost := c.lost + Excess(c.fee.debt, tiles)), t)
  {
    hide Cycles;
  }

  /** An attempt of any size keeps the balance. */
  lemma AttemptKeepsLedger(c: Client, pools: nat, t: nat, tiles: nat)
    requires LedgerInv(c, t) && c.phase == Mining && t > 0
    ensures LedgerInv(MineAttempt(c, pools, tiles), t)
  {
    var prepared := Prepared(c, pools);
    PrepareKeepsLedger(c, pools, t);
    hide Prepare, NoteTiles, Surplus, Excess, Balanced, Skips;
    if prepared.fee.authIsDev {
      FeeWorkKeepsLedger(prepared, t, tiles);
    } else {
      UserWorkKeepsLedger(prepared, t, tiles);
    }
  }

  lemma SettleKeepsLedger(c: Client, pools: nat, t: nat)
    requires Inv(c, pools, t) && c.phase == Ending && t > 0
    ensures LedgerInv(Apply(c, pools, t, Settle), t)
  {
    hide Cycles;
    OneMoreCycle(t, c.skipped);
  }

  lemma NoCycles(t: nat)
    ensures Cycles(t, 0) == 0
  {
  }

  lemma BeginKeepsLedger(c: Client, pools: nat, t: nat)
    requires LedgerInv(c, t) && c.phase == Ready && t > 0 && FEE_PERIOD * t <= UINT64_MAX
    ensures LedgerInv(OnlineStep(c, pools, t, Begin), t)
  {
    NoCycles(t);
    hide Cycles;
  }

  lemma ApplyKeepsLedger(c: Client, pools: nat, t: nat, act: Action)
    requires Inv(c, pools, t) && t > 0 && FEE_PERIOD * t <= UINT64_MAX
    ensures LedgerInv(Apply(c, pools, t, act), t)
  {
    hide Cycles, SessionInv, PoolsInv, MineAttempt, SessionEnd, SetTiles;
    if act == Settle && c.phase == Ending {
      SettleKeepsLedger(c, pools, t);
    } else if act.Attempt? && c.phase == Mining {
      AttemptKeepsLedger(c, pools, t, act.tiles);
    } else if act == Begin && c.phase == Ready {
      BeginKeepsLedger(c, pools, t);
    }
  }

  /** With attempts of at most `a` tiles, and a no more than a whole fee cycle, no user work is lost, and with
      a at most the matrix size no fee work is. */
  lemma AttemptKeepsBound(c: Client, pools: nat, t: nat, tiles: nat, a: nat)
    requires Inv(c, pools, t) && BoundInv(c, t, a) && c.phase == Mining && tiles <= a
    requires 0 < t && a <= FEE_PERIOD * t && FEE_PERIOD * t + a <= UINT64_MAX
    ensures BoundInv(MineAttempt(c, pools, tiles), t, a)
  {
    hide Cycles, Balanced, PoolsInv, SessionInv;
  }

  lemma ApplyKeepsBound(c: Client, pools: nat, t: nat, act: Action, a: nat)
    requires Inv(c, pools, t) && BoundInv(c, t, a) && 0 < t && a <= FEE_PERIOD * t && FEE_PERIOD * t + a <= UINT64_MAX
    requires act.Attempt? ==> act.tiles <= a
    ensures BoundInv(Apply(c, pools, t, act), t, a)
  {
    if act.Attempt? && c.phase == Mining {
      AttemptKeepsBound(c, pools, t, act.tiles, a);
    }
    hide Cycles, Balanced, PoolsInv, SessionInv, MineAttempt, SessionEnd;
  }

  lemma PrepareKeepsPools(s: State, pools: nat)
    requires PoolsInv(s, pools)
    ensures PoolsInv(Prepare(s, pools), pools)
  {
  }

  lemma SessionEndKeepsPools(s: State, pools: nat)
    requires PoolsInv(s, pools)
    ensures PoolsInv(SessionEnd(s, pools), pools)
  {
  }

  lemma NoteKeepsPools(s: State, pools: nat, tiles: nat)
    requires PoolsInv(s, pools)
    ensures PoolsInv(NoteTiles(s, tiles), pools)
  {
  }

  lemma AttemptKeepsPools(c: Client, pools: nat, tiles: nat)
    requires PoolsInv(c.fee, pools)
    ensures PoolsInv(MineAttempt(c, pools, tiles).fee, pools)
  {
    hide Prepare, NoteTiles, CycleDue, PoolsInv;
    PrepareKeepsPools(c.fee, pools);
    NoteKeepsPools(Prepare(c.fee, pools), pools, tiles);
  }

  lemma OtherCallsKeepPools(s: State, pools: nat, t: nat)
    requires PoolsInv(s, pools)
    ensures PoolsInv(SetTiles(s, t), pools) && PoolsInv(OnAuthorized(s), pools)
    ensures PoolsInv(SessionPool(s), pools) && PoolsInv(SessionOk(s, pools), pools)
  {
  }

  lemma ApplyKeepsPools(c: Client, pools: nat, t: nat, act: Action)
    requires PoolsInv(c.fee, pools)
    ensures PoolsInv(Apply(c, pools, t, act).fee, pools)
  {
    OtherCallsKeepPools(c.fee, pools, t);
    hide MineAttempt, SessionEnd, SessionFailed, GivesUp, SetTiles, OnAuthorized, SessionPool, SessionOk, PoolsInv;
    SessionEndKeepsPools(c.fee, pools);
    if act.Attempt? {
      AttemptKeepsPools(c, pools, act.tiles);
    }
  }

  lemma ApplyKeepsSession(c: Client, pools: nat, t: nat, act: Action)
    requires Inv(c, pools, t)
    ensures SessionInv(Apply(c, pools, t, act), pools)
  {
    hide LedgerInv, PoolsInv, Surplus, Excess;
  }

  lemma ApplyKeepsInv(c: Client, pools: nat, t: nat, act: Action)
    requires Inv(c, pools, t) && t > 0 && FEE_PERIOD * t <= UINT64_MAX
    ensures Inv(Apply(c, pools, t, act), pools, t)
  {
    ApplyKeepsLedger(c, pools, t, act);
    ApplyKeepsPools(c, pools, t, act);
    ApplyKeepsSession(c, pools, t, act);
    hide LedgerInv, PoolsInv, SessionInv, Apply;
  }

  lemma {:induction false} RunKeepsInv(pools: nat, t: nat, acts: seq<Action>)
    requires t > 0 && FEE_PERIOD * t <= UINT64_MAX
    ensures Inv(Run(true, pools, t, acts), pools, t)
  {
    if acts != [] {
      RunKeepsInv(pools, t, acts[..|acts| - 1]);
      hide Inv;
      ApplyKeepsInv(Run(true, pools, t, acts[..|acts| - 1]), pools, t, acts[|acts| - 1]);
      hide Apply;
    } else {
      NoCycles(t);
    }
  }

  lemma {:induction false} RunKeepsBound(pools: nat, t: nat, acts: seq<Action>, a: nat)
    requires 0 < t && a <= FEE_PERIOD * t && FEE_PERIOD * t + a <= UINT64_MAX && AttemptsUpTo(acts, a)
    ensures BoundInv(Run(true, pools, t, acts), t, a)
  {
    if acts != [] {
      var before := acts[..|acts| - 1];
      RunKeepsBound(pools, t, before, a);
      RunKeepsInv(pools, t, before);
      hide Inv, BoundInv;
      ApplyKeepsBound(Run(true, pools, t, before), pools, t, acts[|acts| - 1], a);
      hide Apply;
    }
  }

  /** In every run, whatever the scans count, once the matrix size is known: the debt is what the seed, the
      user's work, the fee work, the settled cycles and the saturating ends make it, exactly. */
  lemma DebtIsBalanced(pools: nat, t: nat, acts: seq<Action>)
    requires t > 0 && FEE_PERIOD * t <= UINT64_MAX
    ensures var c := Run(true, pools, t, acts);
            c.fee.t != 0 ==>
              c.fee.debt + FEE_PERIOD * c.feeTiles + Cycles(t, c.skipped) + c.lost
              == FEE_PERIOD / 2 * t + c.userTiles + c.overpaid
  {
    RunKeepsInv(pools, t, acts);
    hide Run, Cycles;
  }

  /** With scans of at most one matrix nothing saturates: the fee paid or waived stays within 50 matrices of 1%
      of the user's work. */
  lemma FeeIsConserved(pools: nat, t: nat, acts: seq<Action>)
    requires t > 0 && FEE_PERIOD * t + t <= UINT64_MAX && AttemptsUpTo(acts, t)
    ensures var c := Run(true, pools, t, acts);
            var settled := FEE_PERIOD * c.feeTiles + Cycles(t, c.skipped);
            && (c.fee.t != 0 ==> c.fee.debt + settled == FEE_PERIOD / 2 * t + c.userTiles)
            && (c.fee.t != 0 ==> c.fee.debt < (FEE_PERIOD + 1) * t)
            && c.userTiles - (FEE_PERIOD / 2 + 1) * t <= settled <= c.userTiles + FEE_PERIOD / 2 * t
  {
    hide Cycles, PoolsInv, SessionInv, LedgerInv, BoundInv, Run;
    RunKeepsInv(pools, t, acts);
    RunKeepsBound(pools, t, acts, t);
    LedgerBounds(Run(true, pools, t, acts), t);
  }

  lemma LedgerBounds(c: Client, t: nat)
    requires LedgerInv(c, t) && BoundInv(c, t, t) && t > 0
    ensures var settled := FEE_PERIOD * c.feeTiles + Cycles(t, c.skipped);
            && (c.fee.t != 0 ==> c.fee.debt + settled == FEE_PERIOD / 2 * t + c.userTiles)
            && (c.fee.t != 0 ==> c.fee.debt < (FEE_PERIOD + 1) * t)
            && c.userTiles - (FEE_PERIOD / 2 + 1) * t <= settled <= c.userTiles + FEE_PERIOD / 2 * t
  {
    hide Cycles;
    NoCycles(t);
  }

  /** Scans may count more than one matrix, up to `a` tiles and no more than a whole fee cycle: still no user
      work is lost, but a fee attempt pays more than is owed, unnoticed, exactly if 100 times its tiles exceed
      the debt; so every fee attempt of at least T + a / 100 tiles does. */
  lemma LargeAttemptsOverpay(pools: nat, t: nat, acts: seq<Action>, a: nat, tiles: nat)
    requires 0 < t && a <= FEE_PERIOD * t && FEE_PERIOD * t + a <= UINT64_MAX && AttemptsUpTo(acts, a)
    ensures var c := Run(true, pools, t, acts); var c' := MineAttempt(c, pools, tiles);
            && c.lost == 0 && c.fee.debt < FEE_PERIOD * t + a
            && (c.phase == Mining && c'.feeTiles > c.feeTiles ==>
                  && c'.overpaid - c.overpaid == Surplus(c.fee.debt, tiles)
                  && (c'.overpaid > c.overpaid <==> FEE_PERIOD * tiles > c.fee.debt)
                  && (FEE_PERIOD * tiles >= FEE_PERIOD * t + a ==>
                        c'.overpaid > c.overpaid && c'.fee.debt == 0))
  {
    RunKeepsInv(pools, t, acts);
    RunKeepsBound(pools, t, acts, a);
    hide Run, Cycles, Balanced, PoolsInv;
  }

  /** In every run, even when the authorization cannot be sent: a fixed fee pool only sees the fee wallet with
      the default password, the user's pool only the user's password, and while online work is charged to the
      wallet it was authorized with. */
  lemma SessionsAgree(pools: nat, t: nat, acts: seq<Action>)
    requires t > 0 && FEE_PERIOD * t <= UINT64_MAX
    ensures var c := Run(true, pools, t, acts);
            && (c.sent ==> c.defaultPassword == c.onFixedPool && (c.onFixedPool ==> c.wallet == FeeWallet))
            && (c.phase in {Online, Ready, Mining} ==> c.sent && (c.fee.authIsDev <==> c.wallet == FeeWallet))
  {
    RunKeepsInv(pools, t, acts);
    hide Run, LedgerInv, PoolsInv;
  }

  /** What a session sends: the fee wallet exactly while the fee is on and a fee cycle is active, with the default
      password exactly if a fixed pool is left for it. */
  lemma WhatIsSent(pools: nat, t: nat, acts: seq<Action>, ok: bool)
    requires t > 0 && FEE_PERIOD * t <= UINT64_MAX && Run(true, pools, t, acts).phase == Connected
    ensures var s := Run(true, pools, t, acts).fee; var c' := Run(true, pools, t, acts + [Authorize(ok)]);
            && (c'.wallet == FeeWallet <==> s.enabled && s.feeActive)
            && (c'.defaultPassword <==> s.enabled && s.feeActive && s.poolIdx < pools)
            && (c'.onFixedPool <==> c'.defaultPassword) && c'.sent
  {
    RunKeepsInv(pools, t, acts);
    OneMore(Launch(true), pools, t, acts, Authorize(ok));
    hide RunFrom, LedgerInv, PoolsInv;
  }

  /** With the fee switched off nothing is charged and only the user's pool is used. */
  lemma {:induction false} DisabledFeeIsIdle(pools: nat, t: nat, acts: seq<Action>)
    ensures Idle(Run(false, pools, t, acts))
  {
    if acts != [] {
      DisabledFeeIsIdle(pools, t, acts[..|acts| - 1]);
      ApplyKeepsDisabled(Run(false, pools, t, acts[..|acts| - 1]), pools, t, acts[|acts| - 1]);
      hide Apply, Idle;
    }
  }

  predicate Idle(c: Client) {
    && !c.fee.enabled && c.fee.debt == c.feeTiles == c.skipped == 0 && !c.fee.feeActive && !c.fee.authIsDev
    && !c.fee.sessionDev && !c.onFixedPool && !c.defaultPassword && c.wallet == UserWallet
  }

  lemma ApplyKeepsDisabled(c: Client, pools: nat, t: nat, act: Action)
    requires Idle(c)
    ensures Idle(Apply(c, pools, t, act))
  {
  }
}
