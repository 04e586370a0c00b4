/** How long the fee rests after failures, counted in due fee cycles over whole runs of the client. */
module FeeRests {
  import opened Bits
  import opened Fee
  import opened FeeRuns
  import opened FeeFailover

  /** After `failures` failures in a row: 1, 2, 4 and so on up to 64. */
  function Rest(failures: nat): nat {
    if failures == 0 then 0 else if Pow2(failures - 1) < 64 then Pow2(failures - 1) else 64
  }

  /** A fee cycle is due: the fee is on and idle, and the debt has reached 100 matrices. */
  predicate CycleIsDue(c: Client) {
    c.fee.enabled && c.fee.t > 0 && !c.fee.feeActive && c.fee.debt >= 100 * c.fee.t
  }

  /** The session that ends is a fee session without a job. */
  predicate EndsWithoutJob(c: Client, act: Action) {
    act == Settle && c.phase == Ending && c.fee.sessionDev && !c.fee.gotJob && c.fee.feeActive
  }

  /** The first job of a fee session. */
  predicate FirstJob(c: Client, act: Action) {
    act == Notify && c.phase in {Online, Ready} && c.fee.sessionDev && !c.fee.gotJob
  }

  /** What has happened so far: cycles given up in a row since the last job of a fee session, due cycles skipped
      since the last of them; failures of the last fixed pool in a row since the last job from a fixed pool, and
      fee cycles started on the user's pool since the last of them. */
  datatype History = History(givenUp: nat, skipped: nat, allFailed: nat, onUserPool: nat)

  /** What one action adds, as seen from the client before and after it. */
  function Add(h: History, c: Client, pools: nat, act: Action, c': Client): History {
    if EndsWithoutJob(c, act) && c.fee.poolIdx == pools then h.(givenUp := h.givenUp + 1, skipped := 0)
    else if EndsWithoutJob(c, act) && c.fee.poolIdx + 1 == pools then
      h.(allFailed := h.allFailed + 1, onUserPool := 0)
    else if FirstJob(c, act) && c.fee.poolIdx < pools then History(0, 0, 0, 0)
    else if FirstJob(c, act) then h.(givenUp := 0, skipped := 0)
    else if act.Attempt? && c.phase == Mining && CycleIsDue(c) then
      if !c'.fee.feeActive then h.(skipped := h.skipped + 1)
      else if c'.fee.poolIdx == pools then h.(onUserPool := h.onUserPool + 1)
      else h
    else h
  }

  function Past(pools: nat, t: nat, acts: seq<Action>): History {
    if acts == [] then History(0, 0, 0, 0)
    else
      var before := acts[..|acts| - 1];
      Add(Past(pools, t, before), Run(true, pools, t, before), pools, acts[|acts| - 1], Run(true, pools, t, acts))
  }

  lemma NextRest(failures: nat)
    ensures NextBackoff(Rest(failures)) == Rest(failures + 1)
  {
    if failures > 0 {
      if Pow2(failures - 1) >= 64 { assert Pow2(failures) == 2 * Pow2(failures - 1); }
    }
  }

  /** It is the backoff that doubles with every failure. */
  lemma {:induction false} BackoffIsRest(failures: nat)
    ensures BackoffAfter(failures) == Rest(failures)
  {
    if failures > 0 {
      BackoffIsRest(failures - 1);
      NextRest(failures - 1);
    }
  }

  /** The counters of the ledger are what is left of the rests. */
  predicate RestInv(s: State, h: History, pools: nat) {
    && s.skipBackoff == Rest(h.givenUp) && h.skipped + s.skipRest == Rest(h.givenUp)
    && s.fixedBackoff == Rest(h.allFailed) && h.onUserPool + s.fixedRest == Rest(h.allFailed)
    && (s.sessionDev || s.feeActive ==> s.skipRest == 0)
    && (h.allFailed > 0 ==> s.poolGood == 0)
    && s.poolIdx <= pools && (pools > 0 ==> s.poolGood < pools)
  }

  lemma SettleKeepsRests(c: Client, h: History, pools: nat, t: nat)
    requires RestInv(c.fee, h, pools) && pools > 0 && c.phase == Ending
    ensures var c' := OfflineStep(c, pools, Settle); RestInv(c'.fee, Add(h, c, pools, Settle, c'), pools)
  {
    hide Rest, Pow2, NextBackoff;
    NextRest(h.givenUp);
    NextRest(h.allFailed);
    NoRest();
  }

  lemma NoRest()
    ensures Rest(0) == 0
  {
  }

  lemma SomeRest(failures: nat)
    requires failures > 0
    ensures Rest(failures) > 0
  {
  }

  lemma PrepareKeepsRests(c: Client, h: History, pools: nat)
    requires RestInv(c.fee, h, pools) && pools > 0
    ensures var s := Prepare(c.fee, pools);
            var h' := if !CycleIsDue(c) then h
                      else if !s.feeActive then h.(skipped := h.skipped + 1)
                      else if s.poolIdx == pools then h.(onUserPool := h.onUserPool + 1)
                      else h;
            RestInv(s, h', pools) && (CycleIsDue(c) <==> CycleDue(c.fee))
  {
    hide Rest;
  }

  /** Work is charged only while no cycle is due, so it leaves a cycle just started active. */
  lemma ChargeKeepsRests(c: Client, h: History, pools: nat, tiles: nat)
    requires RestInv(c.fee, h, pools)
    ensures var c' := Charged(c, tiles);
            && RestInv(c'.fee, h, pools) && c'.fee.poolIdx == c.fee.poolIdx
            && (!c.fee.authIsDev && c.fee.enabled ==> c'.fee.feeActive == c.fee.feeActive)
  {
    hide Rest, Surplus, Excess;
  }

  /** In a fee session no cycle is due: it is active, or the debt has been paid. */
  predicate DueInv(c: Client, t: nat) {
    && c.fee.t in {0, t} && (c.fee.feeActive || c.fee.authIsDev ==> c.fee.t == t)
    && (!Offline(c) && c.fee.authIsDev && !c.fee.feeActive ==> c.fee.debt < 100 * t)
  }

  lemma AttemptKeepsRests(c: Client, h: History, pools: nat, t: nat, tiles: nat)
    requires RestInv(c.fee, h, pools) && DueInv(c, t) && pools > 0 && t > 0 && c.phase == Mining
    ensures var c' := MineAttempt(c, pools, tiles); RestInv(c'.fee, Add(h, c, pools, Attempt(tiles), c'), pools)
  {
    PrepareKeepsRests(c, h, pools);
    var prepared := Prepared(c, pools);
    var h' := Add(h, c, pools, Attempt(tiles), prepared);
    PreparedAuth(c, pools);
    hide RestInv, Charged, Prepare;
    ChargeKeepsRests(prepared, h', pools, tiles);
  }

  lemma PreparedAuth(c: Client, pools: nat)
    ensures var p := Prepared(c, pools); p.fee.authIsDev == c.fee.authIsDev && p.fee.enabled == c.fee.enabled
  {
  }

  lemma PrepareKeepsDue(c: Client, pools: nat, t: nat)
    requires DueInv(c, t) && t > 0
    ensures DueInv(Prepared(c, pools), t)
  {
  }

  lemma ChargeKeepsDue(c: Client, t: nat, tiles: nat)
    requires DueInv(c, t) && t > 0
    ensures DueInv(Charged(c, tiles), t)
  {
    hide Surplus, Excess;
  }

  lemma ApplyKeepsDue(c: Client, pools: nat, t: nat, act: Action)
    requires DueInv(c, t) && t > 0
    ensures DueInv(Apply(c, pools, t, act), t)
  {
    if act.Attempt? {
      PrepareKeepsDue(c, pools, t);
      hide Charged, Prepared;
      ChargeKeepsDue(Prepared(c, pools), t, act.tiles);
    }
    hide MineAttempt, SessionEnd;
  }

  lemma ApplyKeepsRests(c: Client, h: History, pools: nat, t: nat, act: Action)
    requires RestInv(c.fee, h, pools) && DueInv(c, t) && GoodInv(c.fee, pools) && pools > 0 && t > 0
    ensures var c' := Apply(c, pools, t, act); RestInv(c'.fee, Add(h, c, pools, act, c'), pools)
  {
    hide Rest, Pow2;
    NoRest();
    if act.Attempt? && c.phase == Mining {
      AttemptKeepsRests(c, h, pools, t, act.tiles);
    } else if act == Settle && c.phase == Ending {
      SettleKeepsRests(c, h, pools, t);
    }
    hide MineAttempt, SessionEnd, CycleIsDue;
  }

  lemma {:induction false} RunKeepsRests(pools: nat, t: nat, acts: seq<Action>)
    requires pools > 0 && t > 0
    ensures RestInv(Run(true, pools, t, acts).fee, Past(pools, t, acts), pools) && DueInv(Run(true, pools, t, acts), t)
  {
    if acts != [] {
      var before := acts[..|acts| - 1];
      RunKeepsRests(pools, t, before);
      RunKeepsGood(pools, t, before);
      hide Apply, RestInv, DueInv, GoodInv, Add;
      ApplyKeepsRests(Run(true, pools, t, before), Past(pools, t, before), pools, t, acts[|acts| - 1]);
      ApplyKeepsDue(Run(true, pools, t, before), pools, t, acts[|acts| - 1]);
    }
  }

  /** In every run, when a fee cycle is due at an attempt: it is skipped exactly if fewer due cycles have been skipped
      since the last give-up than the give-ups in a row ask for; otherwise it starts, on the user's pool exactly if
      fewer than asked for have been since the last failure of all fixed pools, else on a fixed pool, and on the
      first one if none has given a job since. */
  lemma RestsEnd(pools: nat, t: nat, acts: seq<Action>, tiles: nat)
    requires pools > 0 && t > 0
    requires Run(true, pools, t, acts).phase == Mining && CycleIsDue(Run(true, pools, t, acts))
    ensures var past := Past(pools, t, acts); var c' := Run(true, pools, t, acts + [Attempt(tiles)]);
            && (c'.fee.feeActive <==> past.skipped >= Rest(past.givenUp))
            && (c'.fee.feeActive ==>
                  && (c'.fee.poolIdx == pools <==> past.onUserPool < Rest(past.allFailed))
                  && (c'.fee.poolIdx != pools ==>
                      c'.fee.poolIdx < pools && (past.allFailed > 0 ==> c'.fee.poolIdx == 0)))
            && (!c'.fee.feeActive ==> past.givenUp > 0 && c'.skipped == Run(true, pools, t, acts).skipped + 1)
  {
    var c := Run(true, pools, t, acts);
    RunKeepsRests(pools, t, acts);
    OneMore(Launch(true), pools, t, acts, Attempt(tiles));
    hide RunFrom, Rest;
    NoRest();
    DueAttempt(c, Past(pools, t, acts), pools, t, tiles);
  }

  lemma DueAttempt(c: Client, h: History, pools: nat, t: nat, tiles: nat)
    requires RestInv(c.fee, h, pools) && DueInv(c, t) && pools > 0 && t > 0 && c.phase == Mining && CycleIsDue(c)
    ensures var c' := MineAttempt(c, pools, tiles);
            && (c'.fee.feeActive <==> h.skipped >= Rest(h.givenUp))
            && (c'.fee.feeActive ==>
                  && (c'.fee.poolIdx == pools <==> h.onUserPool < Rest(h.allFailed))
                  && (c'.fee.poolIdx != pools ==> c'.fee.poolIdx < pools && (h.allFailed > 0 ==> c'.fee.poolIdx == 0)))
            && (!c'.fee.feeActive ==> h.givenUp > 0 && c'.skipped == c.skipped + 1)
  {
    NoRest();
    hide Rest, Surplus, Excess;
  }
}
