/** What becomes of the shares: every hit is put into the queue once, and every share put there is proved and
    submitted once, in order. */
module ShareDelivery {
  import opened Wrappers
  import opened ShareQueue
  import opened ShareProtocol

  /** The shares put into the queue, in order: what is new at its end after a step of the miner. */
  function Enqueued(c: Setup, acts: seq<Action>): seq<Snapshot> {
    if acts == [] then []
    else
      var before := acts[..|acts| - 1];
      var (was, now) := (After(c, before).q.pending, After(c, acts).q.pending);
      Enqueued(c, before) + if acts[|acts| - 1].Mine? && |now| > |was| then [now[|now| - 1]] else []
  }

  /** Every step of the worker goes well. */
  predicate WorkGoesWell(acts: seq<Action>) {
    forall i :: 0 <= i < |acts| && acts[i].Work? ==> acts[i].ok
  }

  /** The proof and the submission of each share, one share after the other. */
  function Delivered(c: Setup, shares: seq<Snapshot>): seq<Event> {
    if shares == [] then []
    else
      var x := shares[|shares| - 1];
      Delivered(c, shares[..|shares| - 1])
      + [Built(x, x.job, x.job, c.InitialBt()), Submitted(x, x.job, x.job)]
  }

  /** How far the worker is with the share it has. */
  function Progress(pc: WorkerPc): nat {
    match pc
    case CheckKeyAgain => 1
    case Submit => 1
    case GiveBack => 2
    case _ => 0
  }

  ghost predicate DeliveryInv(c: Setup, s: State, shares: seq<Snapshot>) {
    var x := TheSnapshot(s);
    if x.None? then s.events == Delivered(c, shares)
    else
      && shares != [] && shares[|shares| - 1] == x.value
      && s.events == Delivered(c, shares[..|shares| - 1])
           + [Built(x.value, x.value.job, x.value.job, c.InitialBt()),
              Submitted(x.value, x.value.job, x.value.job)][..Progress(s.worker)]
  }

  // ------------------------------------------------------------------------------------------
  // Every share is delivered once

  lemma WorkDelivers(c: Setup, s: State, shares: seq<Snapshot>)
    requires Inv(c, s) && !s.workerAsleep && WorkerReady(s) && DeliveryInv(c, s, shares)
    ensures DeliveryInv(c, WorkerStep(s, true), shares)
  {
    WorkerKeepsInv(c, s, true);
    var s' := WorkerStep(s, true);
    if |s'.events| > |s.events| { assert RightJob(c, s'.events[|s.events|]); }
    hide Ownership, AtPc, SleepersWait, InOnePlace;
  }

  /** What a step of the miner puts behind the queue. */
  function Added(was: Queue, now: Queue): seq<Snapshot> {
    if |now.pending| > |was.pending| then [now.pending[|now.pending| - 1]] else []
  }

  /** Nothing happens to the shares but that one is put into an empty queue. */
  predicate OnlyAdds(s: State, s': State) {
    && s'.events == s.events && s'.snap == s.snap && s'.worker == s.worker && s'.q.inFlight == s.q.inFlight
    && if Added(s.q, s'.q) == [] then s'.q.pending == s.q.pending
       else s.q.pending == [] && s.q.inFlight == 0 && s'.q.pending == Added(s.q, s'.q)
  }

  lemma ReclaimAddsNothing(c: Setup, s: State, how: Choice)
    requires s.miner in {ReclaimBeforeScan, ReclaimOnHit, ReclaimAtEnd}
    ensures OnlyAdds(s, ReclaimStep(c, s, how))
    ensures Added(s.q, ReclaimStep(c, s, how).q) == []
  {
    hide Missing;
  }

  lemma HandOverAdds(c: Setup, s: State)
    requires Inv(c, s) && MinerReady(c, s) && s.miner in {HandOver, HandOverWitness}
    ensures OnlyAdds(s, if s.miner == HandOver then HandOverStep(c, s) else WitnessStep(s))
  {
    hide Ownership, EventsRight, SleepersWait, OfCurrentJob, Missing;
  }

  lemma JobStepAddsNothing(c: Setup, s: State, how: Choice)
    requires s.miner in {Prepared, Attempt, Scan, NotifyWorker}
    ensures OnlyAdds(s, JobStep(c, s, how))
    ensures Added(s.q, JobStep(c, s, how).q) == []
  {
  }

  lemma OuterStepAddsNothing(s: State, how: Choice)
    requires s.miner in {Between, EndJob, DrainJob, NotifyShutdown, Join, Gone}
    ensures OnlyAdds(s, OuterStep(s, how))
    ensures Added(s.q, OuterStep(s, how).q) == []
  {
    hide Drained;
  }

  lemma FreeAddsNothing(c: Setup, s: State)
    requires Inv(c, s) && s.miner == Free
    ensures OnlyAdds(s, FreeStep(s))
    ensures Added(s.q, FreeStep(s).q) == []
  {
    hide Ownership, EventsRight, SleepersWait, OfCurrentJob;
  }

  lemma MinerAdds(c: Setup, s: State, how: Choice)
    requires Inv(c, s) && !s.minerAsleep && MinerReady(c, s)
    ensures OnlyAdds(s, MinerStep(c, s, how))
  {
    match s.miner
    case ReclaimBeforeScan | ReclaimOnHit | ReclaimAtEnd => ReclaimAddsNothing(c, s, how);
    case HandOver | HandOverWitness => HandOverAdds(c, s);
    case Free => FreeAddsNothing(c, s);
    case Prepared | Attempt | Scan | NotifyWorker => JobStepAddsNothing(c, s, how);
    case Between | EndJob | DrainJob | NotifyShutdown | Join | Gone => OuterStepAddsNothing(s, how);
    hide OnlyAdds, Inv, ReclaimStep, HandOverStep, WitnessStep, FreeStep, JobStep, OuterStep;
  }

  lemma MinerDelivers(c: Setup, s: State, shares: seq<Snapshot>, how: Choice)
    requires Inv(c, s) && !s.minerAsleep && MinerReady(c, s) && DeliveryInv(c, s, shares)
    ensures var s' := MinerStep(c, s, how); DeliveryInv(c, s', shares + Added(s.q, s'.q))
  {
    MinerAdds(c, s, how);
    assert Consistent(s);
    hide MinerStep, MinerReady, Inv;
    AddingDelivers(c, s, MinerStep(c, s, how), shares, Added(s.q, MinerStep(c, s, how).q));
  }

  lemma AddingDelivers(c: Setup, s: State, s': State, shares: seq<Snapshot>, more: seq<Snapshot>)
    requires Consistent(s) && DeliveryInv(c, s, shares) && |more| <= 1
    requires s'.events == s.events && s'.snap == s.snap && s'.worker == s.worker
    requires if more == [] then s'.q.pending == s.q.pending
             else s.q.pending == [] && s.q.inFlight == 0 && s'.q.pending == more
    ensures DeliveryInv(c, s', shares + more)
  {
    hide Delivered;
    if more == [] {
      assert shares + more == shares;
    } else {
      assert (shares + more)[..|shares|] == shares;
    }
  }

  lemma ApplyDelivers(c: Setup, s: State, shares: seq<Snapshot>, act: Action)
    requires Inv(c, s) && DeliveryInv(c, s, shares) && (act.Work? ==> act.ok)
    ensures var s' := Apply(c, s, act);
            DeliveryInv(c, s', shares + if act.Mine? then Added(s.q, s'.q) else [])
  {
    assert shares + [] == shares;
    match act
    case Mine(how) =>
      if !s.minerAsleep && MinerReady(c, s) { MinerDelivers(c, s, shares, how); }
      hide MinerStep, MinerReady, OfCurrentJob, AtPc, SleepersWait, EventsRight, Ownership;
    case Work(ok) =>
      if !s.workerAsleep && WorkerReady(s) { WorkDelivers(c, s, shares); }
      hide WorkerStep, OfCurrentJob, AtPc, SleepersWait, EventsRight, Ownership;
    case WakeMiner =>
    case WakeWorker =>
  }

  lemma OneMore(c: Setup, acts: seq<Action>, act: Action)
    ensures After(c, acts + [act]) == Apply(c, After(c, acts), act)
  {
    assert (acts + [act])[..|acts|] == acts;
  }

  lemma EnqueuedNext(c: Setup, acts: seq<Action>)
    requires acts != []
    ensures var before := acts[..|acts| - 1];
            Enqueued(c, acts) == Enqueued(c, before)
              + if acts[|acts| - 1].Mine? then Added(After(c, before).q, After(c, acts).q) else []
  {
    hide After;
  }

  lemma WorkPrefix(acts: seq<Action>)
    requires acts != [] && WorkGoesWell(acts)
    ensures WorkGoesWell(acts[..|acts| - 1]) && (acts[|acts| - 1].Work? ==> acts[|acts| - 1].ok)
  {
  }

  lemma {:induction false} RunDelivers(c: Setup, acts: seq<Action>)
    requires WorkGoesWell(acts)
    ensures DeliveryInv(c, After(c, acts), Enqueued(c, acts))
  {
    if acts == [] {
      NothingYet(c);
    } else {
      hide After, Enqueued, WorkGoesWell, Apply, DeliveryInv, Inv, Added;
      var before, act := acts[..|acts| - 1], acts[|acts| - 1];
      WorkPrefix(acts);
      RunDelivers(c, before);
      assert acts == before + [act];
      OneMore(c, before, act);
      EnqueuedNext(c, acts);
      ApplyDelivers(c, After(c, before), Enqueued(c, before), act);
    }
  }

  lemma NothingYet(c: Setup)
    ensures DeliveryInv(c, After(c, []), Enqueued(c, []))
  {
  }

  /** In every interleaving in which the worker meets no failure: the events are exactly the proof and then the
      submission of every share put into the queue, each once and under its own job, in that order, up to the step
      the worker is at; when no share is waiting or in its hands, of all of them. */
  lemma EveryShareIsDelivered(c: Setup, acts: seq<Action>)
    requires WorkGoesWell(acts)
    ensures var s := After(c, acts); var shares := Enqueued(c, acts);
            && (!Busy(s) ==> s.events == Delivered(c, shares))
            && (s.worker == GiveBack ==> s.events == Delivered(c, shares))
            && (s.worker in {CheckKey, Build} ==> shares != [] && s.events == Delivered(c, shares[..|shares| - 1]))
            && (s.q.pending != [] ==> shares != [] && s.q.pending == [shares[|shares| - 1]])
  {
    RunDelivers(c, acts);
    assert Consistent(After(c, acts));
    hide After, Enqueued, Inv;
    DeliveryMeans(c, After(c, acts), Enqueued(c, acts));
  }

  lemma DeliveryMeans(c: Setup, s: State, shares: seq<Snapshot>)
    requires Consistent(s) && DeliveryInv(c, s, shares)
    ensures !Busy(s) ==> s.events == Delivered(c, shares)
    ensures s.worker == GiveBack ==> s.events == Delivered(c, shares)
    ensures s.worker in {CheckKey, Build} ==> shares != [] && s.events == Delivered(c, shares[..|shares| - 1])
    ensures s.q.pending != [] ==> shares != [] && s.q.pending == [shares[|shares| - 1]]
  {
    if shares != [] {
      var x := shares[|shares| - 1];
      var both := [Built(x, x.job, x.job, c.InitialBt()), Submitted(x, x.job, x.job)];
      assert both[..2] == both && both[..0] == [];
    }
  }

  // ------------------------------------------------------------------------------------------
  // Every hit is put into the queue

  /** Shares can be handed over at all: with a witness, or from buffers the miner has. */
  predicate CanHandOver(c: Setup) { c.ShareWitness() || !c.supportsWitness }

  /** The scan's steps that end with a hit and are not stopped. */
  function Hits(c: Setup, acts: seq<Action>): nat {
    if acts == [] then 0
    else
      var before := acts[..|acts| - 1];
      var (s, act) := (After(c, before), acts[|acts| - 1]);
      Hits(c, before)
      + if act.Mine? && !s.minerAsleep && s.miner == Scan && act.how.hit && !act.how.stop then 1 else 0
  }

  /** No hit is stopped between the scan and the hand-over. */
  predicate HitsGoOn(c: Setup, acts: seq<Action>) {
    acts == []
    || (var before := acts[..|acts| - 1];
        && HitsGoOn(c, before)
        && (After(c, before).miner == ReclaimOnHit && acts[|acts| - 1].Mine? ==> !acts[|acts| - 1].how.stop))
  }

  predicate OnItsWay(pc: MinerPc) { pc in {ReclaimOnHit, HandOver, HandOverWitness} }

  /** After a reclaim that was not cut short by a shutdown nothing is missing. */
  lemma ReclaimedAll(c: Setup, s: State)
    requires Inv(c, s) && s.miner == ReclaimOnHit && MinerReady(c, s) && CanHandOver(c)
    ensures var s' := ReclaimInto(s, c.HandoffBt()); !Missing(c, s'.hA, s'.hBt)
  {
    hide EventsRight, SleepersWait;
  }

  lemma MinerCountsHits(c: Setup, s: State, how: Choice)
    requires Inv(c, s) && !s.minerAsleep && MinerReady(c, s) && CanHandOver(c)
    requires s.miner == ReclaimOnHit ==> !how.stop
    ensures var s' := MinerStep(c, s, how);
            |Added(s.q, s'.q)| + (if OnItsWay(s'.miner) then 1 else 0)
            == (if OnItsWay(s.miner) then 1 else 0) + if s.miner == Scan && how.hit && !how.stop then 1 else 0
    ensures var s' := MinerStep(c, s, how);
            forall x :: x in Added(s.q, s'.q) ==> x.job == s.jobs && x.key == s.miningKey
  {
    if s.miner in {HandOver, HandOverWitness} {
      HandOverCounts(c, s);
    } else {
      AddsOnlyAtHandOver(c, s, how);
      WayGoesOn(c, s, how);
      hide Added;
    }
    hide Inv, MinerReady, HandOverStep, WitnessStep, ReclaimStep, FreeStep, JobStep, OuterStep;
  }

  /** A hit of the scan, and a reclaim for one, lead to the hand-over; nothing else does. */
  lemma WayGoesOn(c: Setup, s: State, how: Choice)
    requires Inv(c, s) && MinerReady(c, s) && CanHandOver(c) && s.miner !in {HandOver, HandOverWitness}
    requires s.miner == ReclaimOnHit ==> !how.stop
    ensures OnItsWay(MinerStep(c, s, how).miner) <==>
              s.miner == ReclaimOnHit || (s.miner == Scan && how.hit && !how.stop)
  {
    match s.miner
    case ReclaimBeforeScan | ReclaimOnHit | ReclaimAtEnd => ReclaimLeads(c, s, how);
    case Free =>
    case Prepared | Attempt | Scan | NotifyWorker =>
    case Between | EndJob | DrainJob | NotifyShutdown | Join | Gone =>
    hide Inv, MinerReady, ReclaimStep, Drained, BeginJob;
  }

  lemma ReclaimLeads(c: Setup, s: State, how: Choice)
    requires Inv(c, s) && MinerReady(c, s) && CanHandOver(c)
    requires s.miner in {ReclaimBeforeScan, ReclaimOnHit, ReclaimAtEnd} && (s.miner == ReclaimOnHit ==> !how.stop)
    ensures OnItsWay(ReclaimStep(c, s, how).miner) <==> s.miner == ReclaimOnHit
  {
    if s.miner == ReclaimOnHit { ReclaimedAll(c, s); }
    hide Inv, MinerReady, ReclaimInto, Missing;
  }

  lemma HandOverCounts(c: Setup, s: State)
    requires Inv(c, s) && MinerReady(c, s) && s.miner in {HandOver, HandOverWitness}
    ensures var s' := if s.miner == HandOver then HandOverStep(c, s) else WitnessStep(s);
            && |Added(s.q, s'.q)| == 1 && s'.miner == NotifyWorker
            && Added(s.q, s'.q)[0].job == s.jobs && Added(s.q, s'.q)[0].key == s.miningKey
  {
    hide EventsRight, SleepersWait, InOnePlace, Ownership;
  }

  lemma {:induction false} RunCountsHits(c: Setup, acts: seq<Action>)
    requires CanHandOver(c) && HitsGoOn(c, acts)
    ensures |Enqueued(c, acts)| + (if OnItsWay(After(c, acts).miner) then 1 else 0) == Hits(c, acts)
  {
    if acts != [] {
      var before, act := acts[..|acts| - 1], acts[|acts| - 1];
      RunCountsHits(c, before);
      var s := After(c, before);
      if act.Mine? && !s.minerAsleep && MinerReady(c, s) {
        MinerCountsHits(c, s, act.how);
      } else {
        NoHitElse(c, s, act);
      }
      hide MinerStep, Inv, WorkerStep, MinerReady, WorkerReady;
    }
  }

  /** Other actions neither find nor hand over anything. */
  lemma NoHitElse(c: Setup, s: State, act: Action)
    requires Inv(c, s) && (act.Mine? ==> s.minerAsleep || !MinerReady(c, s))
    ensures var s' := Apply(c, s, act);
            s'.miner == s.miner && (act.Mine? ==> s'.q == s.q && (s.miner != Scan || s.minerAsleep))
  {
  }

  /** In every interleaving in which no hit is stopped: each hit puts exactly one share into the queue, but for the
      one on its way there, and that share is of the job being mined. */
  lemma EveryHitIsEnqueued(c: Setup, acts: seq<Action>)
    requires CanHandOver(c) && HitsGoOn(c, acts)
    ensures |Enqueued(c, acts)| == Hits(c, acts) - if OnItsWay(After(c, acts).miner) then 1 else 0
    ensures acts != [] && |Enqueued(c, acts)| > |Enqueued(c, acts[..|acts| - 1])| ==>
              var (s, shares) := (After(c, acts[..|acts| - 1]), Enqueued(c, acts));
              shares[|shares| - 1].job == s.jobs && shares[|shares| - 1].key == s.miningKey
  {
    RunCountsHits(c, acts);
    if acts != [] && |Enqueued(c, acts)| > |Enqueued(c, acts[..|acts| - 1])| {
      RunCountsOn(c, acts);
      LastEnqueued(c, acts);
    }
  }

  lemma LastEnqueued(c: Setup, acts: seq<Action>)
    requires CanHandOver(c) && acts != [] && |Enqueued(c, acts)| > |Enqueued(c, acts[..|acts| - 1])|
    requires var (s, act) := (After(c, acts[..|acts| - 1]), acts[|acts| - 1]);
             act.Mine? && s.miner == ReclaimOnHit ==> !act.how.stop
    ensures var (s, shares) := (After(c, acts[..|acts| - 1]), Enqueued(c, acts));
            shares[|shares| - 1].job == s.jobs && shares[|shares| - 1].key == s.miningKey
  {
    var before := acts[..|acts| - 1];
    hide Apply, Inv, CanHandOver;
    StepEnqueues(c, After(c, before), acts[|acts| - 1]);
    assert Enqueued(c, acts) == Enqueued(c, before) + Added(After(c, before).q, After(c, acts).q);
  }

  lemma StepEnqueues(c: Setup, s: State, act: Action)
    requires Inv(c, s) && CanHandOver(c) && (act.Mine? && s.miner == ReclaimOnHit ==> !act.how.stop)
    ensures act.Mine? ==>
              forall x :: x in Added(s.q, Apply(c, s, act).q) ==> x.job == s.jobs && x.key == s.miningKey
  {
    if act.Mine? && !s.minerAsleep && MinerReady(c, s) {
      MinerCountsHits(c, s, act.how);
    } else {
      NoHitElse(c, s, act);
    }
    hide MinerStep, Inv, WorkerStep, MinerReady, WorkerReady, CanHandOver;
  }

  lemma RunCountsOn(c: Setup, acts: seq<Action>)
    requires HitsGoOn(c, acts) && acts != []
    ensures var (s, act) := (After(c, acts[..|acts| - 1]), acts[|acts| - 1]);
            act.Mine? && s.miner == ReclaimOnHit ==> !act.how.stop
  {
  }

  /** Without a way to hand shares over no hit ever gets into the queue: the setup asks for host buffers from a backend
      that has none. */
  lemma {:induction false} NothingIsEnqueued(c: Setup, acts: seq<Action>)
    requires !CanHandOver(c)
    ensures Enqueued(c, acts) == [] && After(c, acts).miner !in {HandOver, HandOverWitness}
  {
    if acts != [] {
      var before, act := acts[..|acts| - 1], acts[|acts| - 1];
      NothingIsEnqueued(c, before);
      var s := After(c, before);
      NeverHandsOver(c, After(c, acts));
      if act.Mine? && !s.minerAsleep && MinerReady(c, s) {
        MinerAdds(c, s, act.how);
        AddsOnlyAtHandOver(c, s, act.how);
      } else {
        NoHitElse(c, s, act);
      }
      hide MinerStep, Inv, WorkerStep, MinerReady, WorkerReady;
    }
  }

  lemma NeverHandsOver(c: Setup, s: State)
    requires Inv(c, s) && !CanHandOver(c)
    ensures s.miner !in {HandOver, HandOverWitness}
  {
    hide EventsRight, SleepersWait, OfCurrentJob;
  }

  lemma AddsOnlyAtHandOver(c: Setup, s: State, how: Choice)
    requires Inv(c, s) && !s.minerAsleep && MinerReady(c, s) && s.miner !in {HandOver, HandOverWitness}
    ensures Added(s.q, MinerStep(c, s, how).q) == []
  {
    match s.miner
    case ReclaimBeforeScan | ReclaimOnHit | ReclaimAtEnd => ReclaimAddsNothing(c, s, how);
    case Free => FreeAddsNothing(c, s);
    case Prepared | Attempt | Scan | NotifyWorker => JobStepAddsNothing(c, s, how);
    case Between | EndJob | DrainJob | NotifyShutdown | Join | Gone => OuterStepAddsNothing(s, how);
    hide OnlyAdds, Inv, Added, ReclaimStep, FreeStep, JobStep, OuterStep;
  }

  // ------------------------------------------------------------------------------------------
  // An attempt reaches its scan, and a share its pool

  /** The miner reclaims before a scan only if it writes the matrices itself. */
  lemma {:induction false} ReclaimsToWrite(c: Setup, acts: seq<Action>)
    ensures After(c, acts).miner == ReclaimBeforeScan ==> !c.DefersReclaim() && !c.ShareWitness()
  {
    if acts != [] {
      var before, act := acts[..|acts| - 1], acts[|acts| - 1];
      ReclaimsToWrite(c, before);
      hide Apply, Inv;
      StepToReclaim(c, After(c, before), act);
    }
  }

  lemma StepToReclaim(c: Setup, s: State, act: Action)
    requires Inv(c, s)
    ensures Apply(c, s, act).miner == ReclaimBeforeScan ==>
              s.miner == ReclaimBeforeScan || (!c.DefersReclaim() && !c.ShareWitness())
  {
    if act.Mine? && !s.minerAsleep && MinerReady(c, s) {
      ToReclaim(c, s, act.how);
    } else {
      NoHitElse(c, s, act);
    }
    hide MinerStep, MinerReady, WorkerReady, WorkerStep, Inv;
  }

  lemma ToReclaim(c: Setup, s: State, how: Choice)
    ensures MinerStep(c, s, how).miner == ReclaimBeforeScan ==>
              s.miner == Attempt && !c.DefersReclaim() && !c.ShareWitness()
  {
    hide ReclaimInto, Missing, Drained, BeginJob, FreeEverything, EnqueueHit;
  }

  /** In every run, an attempt that is not stopped reaches its scan: at once, or after a reclaim that brings back
      all it needs. */
  lemma AttemptScans(c: Setup, acts: seq<Action>, how: Choice)
    requires CanHandOver(c) && !how.stop
    requires var s := After(c, acts); !s.minerAsleep && MinerReady(c, s) && s.miner in {Attempt, ReclaimBeforeScan}
    ensures var s' := After(c, acts + [Mine(how)]);
            if After(c, acts).miner == Attempt && !c.DefersReclaim() && !c.ShareWitness()
            then s'.miner == ReclaimBeforeScan else s'.miner == Scan
  {
    OneMore(c, acts, Mine(how));
    ReclaimsToWrite(c, acts);
    var s := After(c, acts);
    assert Inv(c, s);
    hide After;
    if s.miner == ReclaimBeforeScan { ReclaimedForScan(c, s); }
    hide Inv, ReclaimInto, Missing, MinerReady;
  }

  lemma ReclaimedForScan(c: Setup, s: State)
    requires Inv(c, s) && s.miner == ReclaimBeforeScan && MinerReady(c, s) && CanHandOver(c) && !c.ShareWitness()
    ensures var s' := ReclaimInto(s, c.HandoffBt()); !Missing(c, s'.hA, s'.hBt)
  {
    hide EventsRight, SleepersWait;
  }

  /** The miner's free choices for a job with a hit. */
  const GO: Choice := Choice(false, true, false, "job")

  /** The system at the scan of its first job. */
  function Scanning(c: Setup): State {
    Start(c).(miner := Scan, jobs := 1, miningKey := "job",
              q := Start(c).q.(jobActive := true, jobCtx := 1, jobKey := "job"))
  }

  lemma FirstSteps(c: Setup)
    ensures var prepared := Start(c).(miner := Prepared, jobs := 1, miningKey := "job");
            && Apply(c, Start(c), Mine(GO)) == prepared
            && Consistent(prepared) && Apply(c, prepared, Mine(GO)) == Scanning(c).(miner := Attempt)
    ensures Apply(c, Scanning(c).(miner := Attempt), Mine(GO)) ==
            Scanning(c).(miner := if c.DefersReclaim() || c.ShareWitness() then Scan else ReclaimBeforeScan)
  {
  }

  lemma FirstReclaim(c: Setup)
    requires CanHandOver(c) && !c.ShareWitness()
    ensures Apply(c, Scanning(c).(miner := ReclaimBeforeScan), Mine(GO)) == Scanning(c)
  {
  }

  /** Up to the scan of the first job. */
  lemma FirstScan(c: Setup) returns (acts: seq<Action>)
    requires CanHandOver(c)
    ensures After(c, acts) == Scanning(c)
  {
    acts := [];
    assert After(c, acts) == Start(c);
    hide Inv, After, Apply, Scanning, Start;
    FirstSteps(c);
    OneMore(c, acts, Mine(GO));
    acts := acts + [Mine(GO)];
    OneMore(c, acts, Mine(GO));
    acts := acts + [Mine(GO)];
    OneMore(c, acts, Mine(GO));
    acts := acts + [Mine(GO)];
    if After(c, acts) == Scanning(c).(miner := ReclaimBeforeScan) && !c.ShareWitness() && !c.DefersReclaim() {
      OneMore(c, acts, Mine(GO));
      FirstReclaim(c);
      acts := acts + [Mine(GO)];
    } else {
      ScanningIsScanning(c);
    }
  }

  lemma ScanningIsScanning(c: Setup)
    ensures Scanning(c).(miner := Scan) == Scanning(c)
  {
  }

  /** What the first hit hands over. */
  function FirstShare(c: Setup): Snapshot {
    if c.ShareWitness() then Snapshot(1, "job", None, None)
    else Snapshot(1, "job", c.InitialA(), if c.HandoffBt() then c.InitialBt() else None)
  }

  /** The first share is in the queue, and the worker has not yet looked. */
  predicate Handed(c: Setup, s: State) {
    && s.q.pending == [FirstShare(c)] && s.q.inFlight == 0 && s.snap == None && s.events == []
    && s.worker == Idle && !s.workerAsleep && s.miningKey == "job"
  }

  lemma HitLeads(c: Setup)
    ensures Apply(c, Scanning(c), Mine(GO)) ==
            Scanning(c).(miner := if c.ShareWitness() then HandOverWitness else ReclaimOnHit)
  {
  }

  lemma ReclaimForHit(c: Setup)
    requires CanHandOver(c) && !c.ShareWitness()
    ensures Apply(c, Scanning(c).(miner := ReclaimOnHit), Mine(GO)) == Scanning(c).(miner := HandOver)
  {
  }

  lemma HitIsHanded(c: Setup)
    requires CanHandOver(c)
    ensures Handed(c, Apply(c, Scanning(c).(miner := if c.ShareWitness() then HandOverWitness else HandOver), Mine(GO)))
  {
  }

  /** Up to the hand-over of the first hit. */
  lemma FirstHandOver(c: Setup) returns (acts: seq<Action>)
    requires CanHandOver(c)
    ensures Handed(c, After(c, acts))
  {
    acts := FirstScan(c);
    hide Inv, After, Apply, Scanning, Handed;
    OneMore(c, acts, Mine(GO));
    HitLeads(c);
    acts := acts + [Mine(GO)];
    if !c.ShareWitness() {
      OneMore(c, acts, Mine(GO));
      ReclaimForHit(c);
      acts := acts + [Mine(GO)];
    }
    OneMore(c, acts, Mine(GO));
    HitIsHanded(c);
    acts := acts + [Mine(GO)];
  }

  /** The worker at its i-th step with the first share. */
  ghost predicate AtWork(c: Setup, s: State, i: nat) {
    && i <= 5 && !s.workerAsleep && s.worker == [Idle, CheckKey, Build, CheckKeyAgain, Submit, GiveBack][i]
    && TheSnapshot(s) == Some(FirstShare(c)) && s.miningKey == "job" && DeliveryInv(c, s, [FirstShare(c)])
  }

  lemma WorkGoesOn(c: Setup, s: State, i: nat)
    requires Inv(c, s) && AtWork(c, s, i) && i < 5
    ensures AtWork(c, Apply(c, s, Work(true)), i + 1)
  {
    WorkDelivers(c, s, [FirstShare(c)]);
    hide OfCurrentJob, AtPc, SleepersWait, EventsRight, Ownership, DeliveryInv, FirstShare;
  }

  lemma WorkBegins(c: Setup, s: State)
    requires Handed(c, s)
    ensures AtWork(c, s, 0)
  {
    assert [FirstShare(c)][..0] == [];
  }

  /** Every setup that can hand shares over has a run in which a share is proved and submitted. */
  lemma SomeShareIsSubmitted(c: Setup) returns (acts: seq<Action>)
    requires CanHandOver(c)
    ensures After(c, acts).events == Delivered(c, [FirstShare(c)])
  {
    acts := FirstHandOver(c);
    WorkBegins(c, After(c, acts));
    hide Apply, AtWork;
    for i := 0 to 5
      invariant AtWork(c, After(c, acts), i)
    {
      OneMore(c, acts, Work(true));
      WorkGoesOn(c, After(c, acts), i);
      acts := acts + [Work(true)];
    }
    WorkEnds(c, After(c, acts));
  }

  lemma WorkEnds(c: Setup, s: State)
    requires Consistent(s) && AtWork(c, s, 5)
    ensures s.events == Delivered(c, [FirstShare(c)])
  {
    DeliveryMeans(c, s, [FirstShare(c)]);
  }
}
