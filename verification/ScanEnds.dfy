/** Every pipelined scan returns: no run has more than a fixed number of actions that change anything. */
module ScanEnds {
  import opened Wrappers
  import opened ScanPipeline

  predicate Effective(job: Job, s: System, act: Action)
    requires Shaped(s.d) && s.h.i <= |job.tiles| && |job.tiles| > 0
  {
    Apply(job, s, act) != s
  }

  /** How many actions of a run changed anything. */
  function Effects(job: Job, acts: seq<Action>): nat
    requires |job.tiles| > 0
  {
    if acts == [] then 0
    else
      var front := acts[..|acts| - 1];
      Effects(job, front) + if Effective(job, Run(job, front), acts[|acts| - 1]) then 1 else 0
  }

  /** At most how many steps the host has left. */
  function HostLeft(n: nat, h: Host): int {
    match h.pc
    case EnqueueGemm => 4 * (n - h.i) + 2
    case EnqueueJackpot => 4 * (n - h.i) + 1
    case EnqueueRead => 4 * (n - h.i)
    case Wait => 4 * (n - h.i) - 1
    case Drain => 1
    case Returned => 0
  }

  lemma {:induction false} ThreeEach(s: set<Cmd>, n: nat)
    requires forall c :: c in s ==> c.panel < n
    ensures |s| <= 3 * n
  {
    if n == 0 {
      assert s == {};
    } else {
      var (g, j, r) := (Gemm(n - 1), Jackpot(n - 1), Read(n - 1));
      var rest := s - {g} - {j} - {r};
      forall c | c in rest
        ensures c.panel < n - 1
      {
        assert c == match c { case Gemm(i) => Gemm(i) case Jackpot(i) => Jackpot(i) case Read(i) => Read(i) };
      }
      ThreeEach(rest, n - 1);
      RemoveOne(s, g);
      RemoveOne(s - {g}, j);
      RemoveOne(s - {g} - {j}, r);
    }
  }

  lemma RemoveOne(s: set<Cmd>, c: Cmd)
    ensures |s| <= |s - {c}| + 1
  {
    if c in s { assert s == s - {c} + {c}; } else { assert s == s - {c}; }
  }

  /** At most how many effective actions are left. */
  function ActionsLeft(n: nat, s: System): int {
    HostLeft(n, s.h) + 6 * n - |s.d.started| - |s.d.done| + (if s.d.flag then 0 else 1)
  }

  lemma ActionsLeftIsNat(job: Job, s: System)
    requires Inv(job, s.h, s.d)
    ensures 0 <= HostLeft(|job.tiles|, s.h) <= ActionsLeft(|job.tiles|, s)
  {
    StartedAreBelow(job, s.d);
    ThreeEach(s.d.started, |job.tiles|);
    ThreeEach(s.d.done, |job.tiles|);
    hide DeviceInv, Slots, Agree, ConsumedRead;
  }

  lemma StartedAreBelow(job: Job, d: Device)
    requires DeviceInv(job, d)
    ensures forall c :: c in d.started ==> c.panel < |job.tiles|
    ensures forall c :: c in d.done ==> c.panel < |job.tiles|
  {
    hide BuffersHold, SeenRight, VerdictsHold, FlagsCaused;
  }

  lemma HostStepCounts(job: Job, h: Host, found: map<nat, bool>, good: bool)
    requires 0 in found && 1 in found && HostRight(job, h)
    ensures var h' := HostStep(job, h, found, good);
            if h.pc == Returned then h' == h && Asks(job, h) == None
            else h' != h && HostLeft(|job.tiles|, h') < HostLeft(|job.tiles|, h)
  {
    hide Sum, NoHitBelow, SomeHit;
  }

  lemma HostRunsOut(job: Job, s: System, good: bool)
    requires Inv(job, s.h, s.d)
    ensures var act := HostAct(good);
            ActionsLeft(|job.tiles|, Apply(job, s, act))
            <= ActionsLeft(|job.tiles|, s) - if Effective(job, s, act) then 1 else 0
  {
    if HostReady(s.h, s.d) { HostStepCounts(job, s.h, s.d.foundHost, good); }
    hide Inv, HostStep, HostReady;
  }

  lemma StartRunsOut(job: Job, s: System, c: Cmd)
    requires Shaped(s.d) && s.h.i <= |job.tiles| && |job.tiles| > 0
    ensures var act := StartAct(c);
            ActionsLeft(|job.tiles|, Apply(job, s, act))
            <= ActionsLeft(|job.tiles|, s) - if Effective(job, s, act) then 1 else 0
  {
    hide HostMoves, HostReady, Complete, MayRaise;
  }

  lemma CompleteRunsOut(job: Job, s: System, c: Cmd)
    requires Shaped(s.d) && s.h.i <= |job.tiles| && |job.tiles| > 0
    ensures var act := CompleteAct(c);
            ActionsLeft(|job.tiles|, Apply(job, s, act))
            <= ActionsLeft(|job.tiles|, s) - if Effective(job, s, act) then 1 else 0
  {
    hide HostMoves, HostReady, MayStart, MayRaise;
  }

  lemma RaiseRunsOut(job: Job, s: System, j: nat)
    requires Shaped(s.d) && s.h.i <= |job.tiles| && |job.tiles| > 0
    ensures var act := RaiseAct(j);
            ActionsLeft(|job.tiles|, Apply(job, s, act))
            <= ActionsLeft(|job.tiles|, s) - if Effective(job, s, act) then 1 else 0
  {
    hide HostMoves, HostReady, MayStart, MayRaise;
  }

  lemma ActionsRunOut(job: Job, s: System, act: Action)
    requires Inv(job, s.h, s.d)
    ensures ActionsLeft(|job.tiles|, Apply(job, s, act))
            <= ActionsLeft(|job.tiles|, s) - if Effective(job, s, act) then 1 else 0
  {
    hide Apply, Effective, ActionsLeft;
    match act
    case HostAct(good) => HostRunsOut(job, s, good);
    case StartAct(c) => StartRunsOut(job, s, c);
    case CompleteAct(c) => CompleteRunsOut(job, s, c);
    case RaiseAct(j) => RaiseRunsOut(job, s, j);
  }

  /** In every run at most ten times the number of panels, plus three, actions change anything. */
  lemma {:induction false} EffectsAreBounded(job: Job, acts: seq<Action>)
    requires |job.tiles| > 0
    ensures Effects(job, acts) + ActionsLeft(|job.tiles|, Run(job, acts)) <= 10 * |job.tiles| + 3
    ensures Effects(job, acts) <= 10 * |job.tiles| + 3
  {
    hide Inv;
    if acts != [] {
      var front := acts[..|acts| - 1];
      EffectsAreBounded(job, front);
      ActionsRunOut(job, Run(job, front), acts[|acts| - 1]);
    }
    ActionsLeftIsNat(job, Run(job, acts));
  }

  /** What can be done next: the host's step, or else a command of the device. */
  lemma SomeActionIsEffective(job: Job, s: System) returns (act: Action)
    requires Inv(job, s.h, s.d) && s.h.pc != Returned
    ensures Effective(job, s, act) && (act.HostAct? ==> act.good)
  {
    if HostReady(s.h, s.d) {
      act := HostAct(true);
      HostStepCounts(job, s.h, s.d.foundHost, true);
      hide DeviceInv, HostStep, HostReady;
    } else {
      DeviceServes(job, s);
      var c :| c in s.d.waits && (MayStart(s.d, c) || Runs(s.d, c));
      act := if MayStart(s.d, c) then StartAct(c) else CompleteAct(c);
      DeviceActIsEffective(job, s, c);
    }
  }

  lemma DeviceActIsEffective(job: Job, s: System, c: Cmd)
    requires Shaped(s.d) && s.h.i <= |job.tiles| && |job.tiles| > 0
    ensures MayStart(s.d, c) ==> Effective(job, s, StartAct(c))
    ensures Runs(s.d, c) ==> Effective(job, s, CompleteAct(c))
  {
    if MayStart(s.d, c) { assert c in Apply(job, s, StartAct(c)).d.started; }
    if Runs(s.d, c) { assert c in Apply(job, s, CompleteAct(c)).d.done; }
  }

  /** No scan hangs: until it has returned some action changes the state, and a run has room for at most
      10 n + 3 such actions, so every run that goes on while it can returns. */
  lemma NoHang(job: Job, acts: seq<Action>)
    requires |job.tiles| > 0
    ensures Run(job, acts).h.pc == Returned || exists act :: Effective(job, Run(job, acts), act)
    ensures Effects(job, acts) <= 10 * |job.tiles| + 3
    ensures Effects(job, acts) == 10 * |job.tiles| + 3 ==> Run(job, acts).h.pc == Returned
  {
    EffectsAreBounded(job, acts);
    ActionsLeftIsNat(job, Run(job, acts));
    if Run(job, acts).h.pc != Returned {
      var act := SomeActionIsEffective(job, Run(job, acts));
    }
  }

  lemma RunMore(job: Job, acts: seq<Action>, act: Action)
    requires |job.tiles| > 0
    ensures Run(job, acts + [act]) == Apply(job, Run(job, acts), act)
  {
    hide Inv;
    assert (acts + [act])[..|acts|] == acts;
  }

  /** Every run can be continued to its return; when the driver accepts everything, to a successful one. */
  lemma {:induction false} CanReturn(job: Job, acts: seq<Action>) returns (more: seq<Action>)
    requires |job.tiles| > 0
    ensures Run(job, acts + more).h.pc == Returned
    ensures Run(job, acts).h.ok ==> Run(job, acts + more).h.ok
    decreases ActionsLeft(|job.tiles|, Run(job, acts))
  {
    hide Inv, Run, Apply, Effective, ActionsLeft;
    var s := Run(job, acts);
    ActionsLeftIsNat(job, s);
    if s.h.pc == Returned {
      more := [];
      assert acts + more == acts;
    } else {
      var act := SomeActionIsEffective(job, s);
      ActionsRunOut(job, s, act);
      GoodActKeepsOk(job, s, act);
      RunMore(job, acts, act);
      var rest := CanReturn(job, acts + [act]);
      more := [act] + rest;
      assert acts + [act] + rest == acts + more;
    }
  }

  lemma GoodActKeepsOk(job: Job, s: System, act: Action)
    requires Inv(job, s.h, s.d) && (act.HostAct? ==> act.good)
    ensures s.h.ok ==> Apply(job, s, act).h.ok
  {
    hide Inv;
  }
}
