/** What scans that count more tiles than a matrix has do to the ledger. */
module FeeOvercount {
  import opened Arith
  import opened Fee
  import opened FeeRuns

  /** Every attempt counts exactly `a` tiles. */
  predicate EachAttempt(acts: seq<Action>, a: nat) {
    forall i :: 0 <= i < |acts| && acts[i].Attempt? ==> acts[i].tiles == a
  }

  predicate Unsaturated(c: Client) { c.overpaid == 0 && c.lost == 0 }

  /** Attempts of at most `a` tiles never make a debt or a payment saturate. */
  ghost predicate NeverSaturates(pools: nat, t: nat, a: nat) {
    forall acts :: AttemptsUpTo(acts, a) ==> Unsaturated(Run(true, pools, t, acts))
  }

  /** Attempts that all count `a` tiles do not. */
  ghost predicate SteadyNeverSaturates(pools: nat, t: nat, a: nat) {
    forall acts :: EachAttempt(acts, a) ==> Unsaturated(Run(true, pools, t, acts))
  }

  /** Both are so if and only if no scan counts more than one matrix. */
  lemma ExactUpToOneMatrix(pools: nat, t: nat, a: nat)
    requires t > 0 && FEE_PERIOD * t + t <= UINT64_MAX && FEE_PERIOD * t + a <= UINT64_MAX
    ensures NeverSaturates(pools, t, a) <==> a <= t
    ensures SteadyNeverSaturates(pools, t, a) <==> a <= t
  {
    hide Run, Inv;
    if a <= t {
      forall acts | AttemptsUpTo(acts, a)
        ensures Unsaturated(Run(true, pools, t, acts))
      {
        RunKeepsBound(pools, t, acts, t);
      }
      forall acts | EachAttempt(acts, a)
        ensures Unsaturated(Run(true, pools, t, acts))
      {
        RunKeepsBound(pools, t, acts, t);
      }
    } else {
      var acts := SteadyRunOverpays(pools, t, a);
      assert EachAttempt(acts, a) && AttemptsUpTo(acts, a) && !Unsaturated(Run(true, pools, t, acts));
    }
  }

  // ------------------------------------------------------------------------------------------
  // A run that overpays

  /** Whenever a scan counts more than the matrix has, a run in which every attempt counts just that overpays: at
      most 50 user scans reach the first fee cycle, and its fee scan pays at least 50 times the surplus too
      much. */
  lemma SteadyRunOverpays(pools: nat, t: nat, a: nat) returns (acts: seq<Action>)
    requires 0 < t < a && FEE_PERIOD * t + a <= UINT64_MAX
    ensures EachAttempt(acts, a) && Run(true, pools, t, acts).overpaid >= FEE_PERIOD / 2 * (a - t)
  {
    hide Apply, RunFrom, MiningFor, Launch, ScansToReach;
    var n := ScansToReach(FEE_PERIOD / 2 * t, a);
    ScansFit(t, a, n);
    var debt := FEE_PERIOD / 2 * t + n * a;
    var user := LOGIN + Turns(a, n);
    UserTurns(pools, t, a, n);
    var c := Run(true, pools, t, user);
    OneMore(Launch(true), pools, t, user, Attempt(a));
    FeeStarts(c, pools, t, debt, a);
    var start := Apply(c, pools, t, Attempt(a));
    var before := user + [Attempt(a)] + LOGIN;
    RunOn(Launch(true), pools, t, user + [Attempt(a)], LOGIN);
    LoginForFee(start, pools, t, debt);
    OneMore(Launch(true), pools, t, before, Attempt(a));
    FeeAttempt(Run(true, pools, t, before), pools, t, debt, a);
    acts := before + [Attempt(a)];
  }

  /** The least number of scans of `a` that make up `work`. */
  function ScansToReach(work: nat, a: nat): (n: nat)
    requires a > 0
  {
    (work + a - 1) / a
  }

  lemma ScansFit(t: nat, a: nat, n: nat)
    requires 0 < t < a && n == ScansToReach(FEE_PERIOD / 2 * t, a)
    ensures n > 0 && (n - 1) * a < FEE_PERIOD / 2 * t <= n * a
    ensures n * a <= FEE_PERIOD / 2 * a
  {
    var work := FEE_PERIOD / 2 * t;
    assert work + a - 1 == a * n + (work + a - 1) % a;
    MulDistributes(a, n, -1);
    if n > FEE_PERIOD / 2 { MulMonotone(a, FEE_PERIOD / 2, n - 1); }
    MulMonotone(a, n, FEE_PERIOD / 2);
  }

  const LOGIN: seq<Action> := [Settle, Choose, Dial(true), Authorize(true), Notify, Begin]

  function Turns(a: nat, n: nat): seq<Action> { seq(n, _ => Attempt(a)) }

  /** The six actions that open a session, one after the other. */
  lemma LoginSteps(c: Client, pools: nat, t: nat)
    ensures var c1 := Apply(c, pools, t, Settle); var c2 := Apply(c1, pools, t, Choose);
            var c3 := Apply(c2, pools, t, Dial(true)); var c4 := Apply(c3, pools, t, Authorize(true));
            RunFrom(c, pools, t, LOGIN) == Apply(Apply(c4, pools, t, Notify), pools, t, Begin)
  {
    hide Apply;
    assert LOGIN[..1] == [] + [Settle] && LOGIN[..2] == LOGIN[..1] + [Choose];
    assert LOGIN[..3] == LOGIN[..2] + [Dial(true)] && LOGIN[..4] == LOGIN[..3] + [Authorize(true)];
    assert LOGIN[..5] == LOGIN[..4] + [Notify] && LOGIN == LOGIN[..5] + [Begin];
    OneMore(c, pools, t, [], Settle);
    OneMore(c, pools, t, LOGIN[..1], Choose);
    OneMore(c, pools, t, LOGIN[..2], Dial(true));
    OneMore(c, pools, t, LOGIN[..3], Authorize(true));
    OneMore(c, pools, t, LOGIN[..4], Notify);
    OneMore(c, pools, t, LOGIN[..5], Begin);
  }

  predicate MiningFor(c: Client, t: nat, dev: bool, debt: nat) {
    && c.phase == Mining && c.fee.enabled && c.fee.t == t && c.fee.debt == debt
    && c.fee.authIsDev == c.fee.sessionDev == c.fee.feeActive == dev && c.fee.skipRest == c.fee.fixedRest == 0
    && c.overpaid == c.lost == 0
  }

  lemma LoginAsUser(pools: nat, t: nat)
    requires t > 0
    ensures MiningFor(Run(true, pools, t, LOGIN), t, false, FEE_PERIOD / 2 * t)
  {
    LoginSteps(Launch(true), pools, t);
  }

  /** User scans of `a` tiles, up to the first that reaches the threshold. */
  lemma {:induction false} UserTurns(pools: nat, t: nat, a: nat, n: nat)
    requires 0 < t && 0 < a && FEE_PERIOD * t + a <= UINT64_MAX && (n > 0 ==> (n - 1) * a < FEE_PERIOD / 2 * t)
    ensures MiningFor(Run(true, pools, t, LOGIN + Turns(a, n)), t, false, FEE_PERIOD / 2 * t + n * a)
  {
    hide Apply, RunFrom, MiningFor, Launch, LOGIN;
    if n == 0 {
      LoginAsUser(pools, t);
      assert LOGIN + Turns(a, n) == LOGIN;
    } else {
      MulMonotone(a, n - 2, n - 1);
      UserTurns(pools, t, a, n - 1);
      var before := LOGIN + Turns(a, n - 1);
      assert Turns(a, n) == Turns(a, n - 1) + [Attempt(a)];
      assert LOGIN + Turns(a, n) == before + [Attempt(a)];
      OneMore(Launch(true), pools, t, before, Attempt(a));
      MulDistributes(a, n - 1, 1);
      UserTurn(Run(true, pools, t, before), pools, t, FEE_PERIOD / 2 * t + (n - 1) * a, a);
    }
  }

  lemma UserTurn(c: Client, pools: nat, t: nat, debt: nat, a: nat)
    requires MiningFor(c, t, false, debt) && debt < FEE_PERIOD * t && FEE_PERIOD * t + a <= UINT64_MAX && t > 0
    ensures MiningFor(Apply(c, pools, t, Attempt(a)), t, false, debt + a)
  {
  }

  lemma FeeStarts(c: Client, pools: nat, t: nat, debt: nat, a: nat)
    requires MiningFor(c, t, false, debt) && t > 0 && debt >= FEE_PERIOD * t
    ensures var c' := Apply(c, pools, t, Attempt(a));
            && c'.phase == Ending && !c'.fee.sessionDev
            && c'.fee.enabled && c'.fee.feeActive && c'.fee.t == t && c'.fee.debt == debt
            && c'.fee.skipRest == c'.fee.fixedRest == 0 && c'.overpaid == c'.lost == 0
  {
  }

  lemma LoginForFee(c: Client, pools: nat, t: nat, debt: nat)
    requires c.phase == Ending && !SessionFailed(c.fee) && t > 0
    requires c.fee.enabled && c.fee.feeActive && c.fee.t == t && c.fee.debt == debt
    requires c.fee.skipRest == c.fee.fixedRest == 0 && c.overpaid == c.lost == 0
    ensures MiningFor(RunFrom(c, pools, t, LOGIN), t, true, debt)
  {
    LoginSteps(c, pools, t);
  }

  lemma FeeAttempt(c: Client, pools: nat, t: nat, debt: nat, a: nat)
    requires MiningFor(c, t, true, debt) && FEE_PERIOD * a >= debt
    ensures Apply(c, pools, t, Attempt(a)).overpaid == FEE_PERIOD * a - debt
  {
  }

  // ------------------------------------------------------------------------------------------
  // Every fee scan overpays

  /** How many scans were charged to the fee. */
  function FeeScans(pools: nat, t: nat, acts: seq<Action>): nat {
    if acts == [] then 0
    else
      var before := acts[..|acts| - 1];
      FeeScans(pools, t, before)
      + if Run(true, pools, t, acts).feeTiles > Run(true, pools, t, before).feeTiles then 1 else 0
  }

  lemma OverpayStep(c: Client, pools: nat, t: nat, act: Action, a: nat)
    requires Inv(c, pools, t) && BoundInv(c, t, a) && 0 < t && a > 0
    requires FEE_PERIOD * a >= FEE_PERIOD * t + a && (act.Attempt? ==> act.tiles == a)
    ensures var c' := Apply(c, pools, t, act);
            && (c'.feeTiles == c.feeTiles ==> c'.overpaid == c.overpaid)
            && (c'.feeTiles != c.feeTiles ==>
                  && c'.feeTiles == c.feeTiles + a
                  && c'.overpaid >= c.overpaid + (FEE_PERIOD * a - FEE_PERIOD * t - a + 1))
  {
    hide Cycles, Balanced, PoolsInv, SessionInv, SessionEnd;
  }

  predicate Overpaid(c: Client, t: nat, a: nat, scans: nat)
    requires FEE_PERIOD * a >= FEE_PERIOD * t + a
  {
    c.feeTiles == scans * a && c.overpaid >= scans * (FEE_PERIOD * a - FEE_PERIOD * t - a + 1)
  }

  lemma OverpaidStep(c: Client, pools: nat, t: nat, act: Action, a: nat, scans: nat)
    requires Inv(c, pools, t) && BoundInv(c, t, a) && 0 < t && a > 0
    requires FEE_PERIOD * a >= FEE_PERIOD * t + a && (act.Attempt? ==> act.tiles == a)
    requires Overpaid(c, t, a, scans)
    ensures var c' := Apply(c, pools, t, act);
            Overpaid(c', t, a, scans + if c'.feeTiles > c.feeTiles then 1 else 0)
  {
    OverpayStep(c, pools, t, act, a);
    hide Apply, Inv, BoundInv;
    MulDistributes(a, scans, 1);
    MulDistributes(FEE_PERIOD * a - FEE_PERIOD * t - a + 1, scans, 1);
  }

  lemma {:induction false} RunOverpays(pools: nat, t: nat, acts: seq<Action>, a: nat)
    requires 0 < t && a <= FEE_PERIOD * t && FEE_PERIOD * t + a <= UINT64_MAX && EachAttempt(acts, a)
    requires FEE_PERIOD * a >= FEE_PERIOD * t + a
    ensures Overpaid(Run(true, pools, t, acts), t, a, FeeScans(pools, t, acts))
  {
    hide Apply, Inv, BoundInv, Overpaid;
    if acts == [] {
      NothingPaid(t, a);
    } else {
      var before := acts[..|acts| - 1];
      RunOverpays(pools, t, before, a);
      RunKeepsInv(pools, t, before);
      RunKeepsBound(pools, t, before, a);
      OverpaidStep(Run(true, pools, t, before), pools, t, acts[|acts| - 1], a, FeeScans(pools, t, before));
    }
  }

  lemma NothingPaid(t: nat, a: nat)
    requires FEE_PERIOD * a >= FEE_PERIOD * t + a
    ensures Overpaid(Launch(true), t, a, 0)
  {
  }

  /** Scans of `a` tiles that are large enough, in every run: each fee scan pays at least 99 a - 100 T + 1 tiles
      more than is owed. */
  lemma EveryFeeScanOverpays(pools: nat, t: nat, acts: seq<Action>, a: nat)
    requires 0 < t && a <= FEE_PERIOD * t && FEE_PERIOD * t + a <= UINT64_MAX && EachAttempt(acts, a)
    requires FEE_PERIOD * a >= FEE_PERIOD * t + a
    ensures var c := Run(true, pools, t, acts); var scans := FeeScans(pools, t, acts);
            && c.feeTiles == scans * a && c.lost == 0
            && c.overpaid >= scans * (FEE_PERIOD * a - FEE_PERIOD * t - a + 1)
  {
    RunOverpays(pools, t, acts, a);
    RunKeepsBound(pools, t, acts, a);
    hide RunFrom, FeeScans;
  }
}
