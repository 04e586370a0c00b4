/** Which pools the sessions of a fee cycle go to, in every run of the client. */
module FeeFailover {
  import opened Fee
  import opened FeeRuns

  // ------------------------------------------------------------------------------------------
  // A cycle without a job

  /** The session under way, or the next one, is a fee session without a job so far. */
  predicate FreshFeeSession(c: Client) {
    c.fee.feeActive && (c.phase == Choosing || (c.fee.sessionDev && !c.fee.gotJob))
  }

  /** How many sessions end in a run. */
  function Ends(c: Client, pools: nat, t: nat, acts: seq<Action>): nat {
    if acts == [] then 0
    else
      var before := acts[..|acts| - 1];
      Ends(c, pools, t, before)
      + if acts[|acts| - 1] == Settle && RunFrom(c, pools, t, before).phase == Ending then 1 else 0
  }

  /** How many sessions of the fee cycle that c is in have ended without a job. */
  function Failed(c: Client, pools: nat, t: nat, acts: seq<Action>): nat {
    var ends := Ends(c, pools, t, acts);
    if FreshFeeSession(c) || ends == 0 then ends else ends - 1
  }

  /** The client after `failed` failed sessions of the cycle it was in at c. */
  predicate Failover(c: Client, now: Client, pools: nat, failed: nat) {
    && now.phase !in {Ready, Mining} && now.fee.enabled && now.fee.t == c.fee.t
    && (failed <= pools - c.fee.poolIdx ==>
          now.fee.feeActive && now.fee.poolIdx == c.fee.poolIdx + failed && now.fee.debt == c.fee.debt)
    && (failed > pools - c.fee.poolIdx ==>
          && !now.fee.feeActive && 1 <= now.fee.skipRest == now.fee.skipBackoff
          && now.fee.debt == c.fee.debt - Threshold(c.fee)
          && (now.phase == Choosing || !now.fee.sessionDev))
  }

  /** What the number of ended sessions says about the one under way. */
  predicate Track(c: Client, now: Client, pools: nat, ends: nat) {
    now.fee.feeActive ==>
      if ends == 0 then FreshFeeSession(now) == FreshFeeSession(c) else FreshFeeSession(now)
  }

  /** A session ends. */
  lemma FailoverSettle(c: Client, now: Client, pools: nat, ends: nat)
    requires c.fee.enabled && c.fee.feeActive && c.fee.debt >= Threshold(c.fee) && c.fee.poolIdx <= pools
    requires Failover(c, now, pools, if FreshFeeSession(c) || ends == 0 then ends else ends - 1)
    requires Track(c, now, pools, ends) && now.phase == Ending
    ensures var now' := OfflineStep(now, pools, Settle);
            Failover(c, now', pools, if FreshFeeSession(c) then ends + 1 else ends) && Track(c, now', pools, ends + 1)
  {
  }

  /** Anything else that is not the arrival of a job. */
  lemma FailoverOther(c: Client, now: Client, pools: nat, t: nat, act: Action, ends: nat)
    requires act != Notify && (act == Settle ==> now.phase != Ending)
    requires Failover(c, now, pools, if FreshFeeSession(c) || ends == 0 then ends else ends - 1)
    requires Track(c, now, pools, ends)
    ensures var now' := Apply(now, pools, t, act);
            && Failover(c, now', pools, if FreshFeeSession(c) || ends == 0 then ends else ends - 1)
            && Track(c, now', pools, ends)
  {
    hide MineAttempt, SessionEnd, SetTiles, SessionOk, Threshold;
  }

  lemma FailoverStep(c: Client, now: Client, pools: nat, t: nat, act: Action, ends: nat)
    requires c.fee.enabled && c.fee.feeActive && c.fee.debt >= Threshold(c.fee) && c.fee.poolIdx <= pools
    requires act != Notify
    requires Failover(c, now, pools, if FreshFeeSession(c) || ends == 0 then ends else ends - 1)
    requires Track(c, now, pools, ends)
    ensures var ends' := ends + if act == Settle && now.phase == Ending then 1 else 0;
            var now' := Apply(now, pools, t, act);
            && Failover(c, now', pools, if FreshFeeSession(c) || ends' == 0 then ends' else ends' - 1)
            && Track(c, now', pools, ends')
  {
    hide Failover, Track, FreshFeeSession, OfflineStep, OnlineStep;
    if act == Settle && now.phase == Ending {
      FailoverSettle(c, now, pools, ends);
    } else {
      FailoverOther(c, now, pools, t, act, ends);
    }
  }

  lemma {:induction false} FailoverRun(c: Client, pools: nat, t: nat, acts: seq<Action>)
    requires c.fee.enabled && c.fee.feeActive && c.fee.debt >= Threshold(c.fee) && c.fee.poolIdx <= pools
    requires c.phase !in {Ready, Mining} && Notify !in acts
    ensures Failover(c, RunFrom(c, pools, t, acts), pools, Failed(c, pools, t, acts))
    ensures Track(c, RunFrom(c, pools, t, acts), pools, Ends(c, pools, t, acts))
  {
    if acts != [] {
      var before := acts[..|acts| - 1];
      FailoverRun(c, pools, t, before);
      FailoverStep(c, RunFrom(c, pools, t, before), pools, t, acts[|acts| - 1], Ends(c, pools, t, before));
      hide Apply, Failover, Track, FreshFeeSession;
    }
  }

  /** In every run, from any moment of a fee cycle outside mining and as long as no job arrives: each session
      that ends moves on to the next fixed pool, in order, then to the user's pool, with the debt untouched; the
      end of that one settles the cycle. The session under way at that moment only counts if it is a fee session
      without a job. */
  lemma FeeCycleIsSettled(pools: nat, t: nat, acts: seq<Action>, more: seq<Action>)
    requires t > 0 && FEE_PERIOD * t <= UINT64_MAX
    requires var c := Run(true, pools, t, acts); c.fee.feeActive && c.phase !in {Ready, Mining}
    requires Notify !in more
    ensures var c := Run(true, pools, t, acts); var now := Run(true, pools, t, acts + more);
            var failed := Failed(c, pools, t, more);
            && c.fee.poolIdx <= pools && c.fee.debt >= FEE_PERIOD * t
            && (failed <= pools - c.fee.poolIdx ==>
                  now.fee.feeActive && now.fee.poolIdx == c.fee.poolIdx + failed && now.fee.debt == c.fee.debt)
            && (failed > pools - c.fee.poolIdx ==>
                  !now.fee.feeActive && now.fee.skipRest >= 1 && now.fee.debt == c.fee.debt - FEE_PERIOD * t)
  {
    var c := Run(true, pools, t, acts);
    RunKeepsInv(pools, t, acts);
    RunOn(Launch(true), pools, t, acts, more);
    hide Failed, RunFrom, SessionInv, Cycles, Balanced;
    FailoverRun(c, pools, t, more);
  }

  // ------------------------------------------------------------------------------------------
  // The pool that works

  /** A pool that gave a job is marked, and while a fixed pool is current none of them is being rested. */
  predicate GoodInv(s: State, pools: nat) {
    && (s.poolIdx < pools ==> s.fixedRest == 0)
    && (s.sessionDev && s.gotJob && s.poolIdx < pools ==> s.poolGood == s.poolIdx)
  }

  lemma PrepareKeepsGood(s: State, pools: nat)
    requires GoodInv(s, pools)
    ensures GoodInv(Prepare(s, pools), pools)
  {
  }

  lemma NoteKeepsGood(s: State, pools: nat, tiles: nat)
    requires GoodInv(s, pools)
    ensures GoodInv(NoteTiles(s, tiles), pools)
  {
  }

  lemma AttemptKeepsGood(c: Client, pools: nat, tiles: nat)
    requires GoodInv(c.fee, pools)
    ensures GoodInv(MineAttempt(c, pools, tiles).fee, pools)
  {
    hide Prepare, NoteTiles, NeedsSwitch, Skips, Surplus, Excess, GoodInv;
    PrepareKeepsGood(c.fee, pools);
    NoteKeepsGood(Prepare(c.fee, pools), pools, tiles);
  }

  lemma ApplyKeepsGood(c: Client, pools: nat, t: nat, act: Action)
    requires GoodInv(c.fee, pools)
    ensures GoodInv(Apply(c, pools, t, act).fee, pools)
  {
    if act.Attempt? { AttemptKeepsGood(c, pools, act.tiles); }
    hide MineAttempt;
  }

  lemma {:induction false} RunKeepsGood(pools: nat, t: nat, acts: seq<Action>)
    ensures GoodInv(Run(true, pools, t, acts).fee, pools)
  {
    if acts != [] {
      var before := acts[..|acts| - 1];
      RunKeepsGood(pools, t, before);
      hide Apply, GoodInv;
      ApplyKeepsGood(Run(true, pools, t, before), pools, t, acts[|acts| - 1]);
    }
  }

  /** No fee session ends without a job. */
  predicate NoneFails(c: Client, pools: nat, t: nat, acts: seq<Action>) {
    acts == []
    || (var before := acts[..|acts| - 1];
        var now := RunFrom(c, pools, t, before);
        && NoneFails(c, pools, t, before)
        && !(acts[|acts| - 1] == Settle && now.phase == Ending && SessionFailed(now.fee)))
  }

  /** Pool `i` is current and marked. */
  predicate AtPool(s: State, i: nat) {
    s.poolIdx == s.poolGood == i && s.fixedRest == 0
  }

  lemma PrepareKeepsPool(s: State, pools: nat, i: nat)
    requires AtPool(s, i)
    ensures AtPool(Prepare(s, pools), i)
  {
  }

  lemma NoteKeepsPool(s: State, tiles: nat, i: nat)
    requires AtPool(s, i)
    ensures AtPool(NoteTiles(s, tiles), i)
  {
  }

  lemma AttemptKeepsPool(c: Client, pools: nat, tiles: nat, i: nat)
    requires AtPool(c.fee, i)
    ensures AtPool(MineAttempt(c, pools, tiles).fee, i)
  {
    hide Prepare, NoteTiles, NeedsSwitch, Skips, Surplus, Excess, AtPool;
    PrepareKeepsPool(c.fee, pools, i);
    NoteKeepsPool(Prepare(c.fee, pools), tiles, i);
  }

  lemma ApplyKeepsPool(c: Client, pools: nat, t: nat, act: Action, i: nat)
    requires AtPool(c.fee, i) && i < pools
    requires act == Settle && c.phase == Ending ==> !SessionFailed(c.fee)
    ensures AtPool(Apply(c, pools, t, act).fee, i)
  {
    if act.Attempt? { AttemptKeepsPool(c, pools, act.tiles, i); }
    hide MineAttempt;
  }

  lemma {:induction false} RunKeepsPool(c: Client, pools: nat, t: nat, acts: seq<Action>, i: nat)
    requires AtPool(c.fee, i) && i < pools && NoneFails(c, pools, t, acts)
    ensures AtPool(RunFrom(c, pools, t, acts).fee, i)
  {
    if acts != [] {
      var before := acts[..|acts| - 1];
      RunKeepsPool(c, pools, t, before, i);
      hide Apply, AtPool;
      ApplyKeepsPool(RunFrom(c, pools, t, before), pools, t, acts[|acts| - 1], i);
    }
  }

  /** In every run, from the moment a fixed pool has given a fee session its job, and as long as no fee session
      ends without one: every fee session, of this cycle after a lost connection and of all later cycles, goes to
      that pool. */
  lemma GoodPoolIsKept(pools: nat, t: nat, acts: seq<Action>, more: seq<Action>)
    requires var c := Run(true, pools, t, acts);
             c.fee.sessionDev && c.fee.gotJob && c.fee.poolIdx < pools && NoneFails(c, pools, t, more)
    ensures var c := Run(true, pools, t, acts); var now := Run(true, pools, t, acts + more);
            && now.fee.poolIdx == now.fee.poolGood == c.fee.poolIdx && now.fee.fixedRest == 0
            && (NextIsDev(now.fee) ==> OnFeePool(SessionPool(now.fee), pools))
  {
    var c := Run(true, pools, t, acts);
    RunKeepsGood(pools, t, acts);
    RunOn(Launch(true), pools, t, acts, more);
    hide RunFrom, NoneFails;
    RunKeepsPool(c, pools, t, more, c.fee.poolIdx);
  }

  /** In every run, a fee session that has had a job and is then lost has not failed: its pool is the next session's
      too, with the debt untouched and nothing given up. */
  lemma DroppedSessionReturns(pools: nat, t: nat, acts: seq<Action>)
    requires var c := Run(true, pools, t, acts); c.phase in {Online, Ready} && c.fee.sessionDev
    ensures var c := Run(true, pools, t, acts); var now := Run(true, pools, t, acts + [Notify, Lost, Settle, Choose]);
            && now.phase == Dialing && now.fee.poolIdx == c.fee.poolIdx && now.fee.debt == c.fee.debt
            && now.fee.feeActive == c.fee.feeActive && now.skipped == c.skipped
            && now.fee.skipRest == c.fee.skipRest && now.fee.fixedRest == c.fee.fixedRest
            && (now.onFixedPool <==> c.fee.enabled && c.fee.feeActive && c.fee.poolIdx < pools)
  {
    var c := Run(true, pools, t, acts);
    var a1, a2, a3 := acts + [Notify], acts + [Notify, Lost], acts + [Notify, Lost, Settle];
    assert a2 == a1 + [Lost] && a3 == a2 + [Settle] && acts + [Notify, Lost, Settle, Choose] == a3 + [Choose];
    hide RunFrom, Apply;
    OneMore(Launch(true), pools, t, acts, Notify);
    OneMore(Launch(true), pools, t, a1, Lost);
    OneMore(Launch(true), pools, t, a2, Settle);
    OneMore(Launch(true), pools, t, a3, Choose);
    JobThenLost(c, pools, t);
  }

  lemma JobThenLost(c: Client, pools: nat, t: nat)
    requires c.phase in {Online, Ready} && c.fee.sessionDev
    ensures var lost := Apply(Apply(c, pools, t, Notify), pools, t, Lost);
            var now := Apply(Apply(lost, pools, t, Settle), pools, t, Choose);
            && now.phase == Dialing && now.fee.poolIdx == c.fee.poolIdx && now.fee.debt == c.fee.debt
            && now.fee.feeActive == c.fee.feeActive && now.skipped == c.skipped
            && now.fee.skipRest == c.fee.skipRest && now.fee.fixedRest == c.fee.fixedRest
            && (now.onFixedPool <==> c.fee.enabled && c.fee.feeActive && c.fee.poolIdx < pools)
  {
    hide MineAttempt, SetTiles;
  }
}
