/**
 The miner thread and the proof worker as one system. Every action is one critical section of the
 queue's mutex or one stretch of code between two of them, so a run is any interleaving of the
 two threads. A thread whose wait condition does not hold falls asleep on the condition variable and
 runs again only after a notification or a spurious wake-up.
 */
module ShareProtocol {
  import opened Wrappers
  import opened ShareQueue

  /** What stays fixed for the process: the backend's answers, the command line and the two host
      buffers made at launch. */
  datatype Setup = Setup(
    cpuGen: bool,
    mock: bool,
    prefersHost: bool,
    handlesPrep: bool,
    needsHostBt: bool,
    writesHostA: bool,
    supportsWitness: bool,
    a: Buffer,
    bt: Buffer)
  {
    predicate HostMatrices() { (cpuGen || prefersHost) && !handlesPrep }

    /** A share takes B^T along with A. */
    predicate HandoffBt() {
      var zeroB := handlesPrep && !cpuGen;
      (HostMatrices() || !zeroB) && needsHostBt
    }

    predicate DefersReclaim() { !writesHostA && !HostMatrices() && !cpuGen }

    predicate ShareWitness() { supportsWitness && !HostMatrices() }

    function InitialA(): Option<Buffer> { if supportsWitness then None else Some(a) }

    function InitialBt(): Option<Buffer> { if needsHostBt then Some(bt) else None }
  }

  /** What the setup comes to: B^T is handed over unless the backend prepares the matrices itself, the reclaim is put
      off unless the host writes A, and witnesses are used unless the host makes the matrices. */
  lemma SetupMeaning(c: Setup)
    ensures c.HandoffBt() <==> c.needsHostBt && (c.cpuGen || !c.handlesPrep)
    ensures c.DefersReclaim() <==> !c.writesHostA && !c.cpuGen && (c.handlesPrep || !c.prefersHost)
    ensures c.ShareWitness() <==> c.supportsWitness && (c.handlesPrep || (!c.cpuGen && !c.prefersHost))
  {
  }

  datatype MinerPc =
    | Between | Prepared | Attempt | ReclaimBeforeScan | Scan | ReclaimOnHit | HandOver
    | HandOverWitness | NotifyWorker | EndJob | DrainJob | ReclaimAtEnd
    | NotifyShutdown | Join | Free | Gone

  datatype WorkerPc = Idle | CheckKey | Build | CheckKeyAgain | Submit | GiveBack | Finish | Exited

  /** What the worker did with a snapshot, with the job it did it for: `ctx` is the queue's job
      context when the worker read it, `mined` the miner's current job. */
  datatype Event =
    | Built(snap: Snapshot, ctx: nat, mined: nat, bt: Option<Buffer>)
    | Submitted(snap: Snapshot, ctx: nat, mined: nat)
    | Dropped(snap: Snapshot)

  datatype State = State(
    q: Queue,
    miner: MinerPc,
    minerAsleep: bool,
    worker: WorkerPc,
    workerAsleep: bool,
    snap: Option<Snapshot>,
    hA: Option<Buffer>,
    hBt: Option<Buffer>,
    jobs: nat,
    miningKey: JobKey,
    events: seq<Event>,
    globalsFreed: seq<Buffer>)

  function Start(c: Setup): State {
    State(Queue([], false, false, 0, false, None, None, 0, "", []), Between, false, Idle, false, None,
          c.InitialA(), c.InitialBt(), 0, "", [], [])
  }

  // ------------------------------------------------------------------------------------------
  // The miner

  /** How the miner's next step goes where the model leaves it open: `stop` is a cancellation, a fee
      switch, a limit or a failure; `hit` a share found; `destroy` the end of the process. */
  datatype Choice = Choice(stop: bool, hit: bool, destroy: bool, key: JobKey)

  /** What the miner waits for at its current step. A hand-over also ends at once when no job is
      active; only the miner changes that, so it cannot change during the wait. */
  predicate MinerReady(c: Setup, s: State) {
    match s.miner
    case ReclaimBeforeScan => ReclaimReady(s.q, s.hA.None?, c.HandoffBt() && s.hBt.None?)
    case ReclaimOnHit => ReclaimReady(s.q, s.hA.None?, c.HandoffBt() && s.hBt.None?)
    case ReclaimAtEnd => ReclaimReady(s.q, s.hA.None?, s.hBt.None?)
    case HandOver => !s.q.jobActive || RoomForHit(s.q)
    case HandOverWitness => !s.q.jobActive || RoomForWitness(s.q)
    case DrainJob => Drained(s.q)
    case Join => s.worker == Exited
    case _ => true
  }

  function ReclaimInto(s: State, takeBt: bool): State {
    var s' := s.(q := TakeReturned(s.q, s.hA.None?, takeBt && s.hBt.None?),
                 hA := if s.hA.None? then s.q.returnedA else s.hA);
    s'.(hBt := if takeBt && s.hBt.None? then s.q.returnedBt else s.hBt)
  }

  predicate Missing(c: Setup, hA: Option<Buffer>, hBt: Option<Buffer>) {
    hA.None? || (c.HandoffBt() && hBt.None?)
  }

  function HandOverStep(c: Setup, s: State): State {
    if !s.q.jobActive || s.q.shutdown || Missing(c, s.hA, s.hBt) then s.(miner := EndJob)
    else
      s.(q := EnqueueHit(s.q, s.hA.value, if c.HandoffBt() then s.hBt else None),
         hA := None,
         hBt := if c.HandoffBt() then None else s.hBt,
         miner := NotifyWorker)
  }

  function ReclaimStep(c: Setup, s: State, how: Choice): State
    requires s.miner in {ReclaimBeforeScan, ReclaimOnHit, ReclaimAtEnd}
  {
    if s.miner == ReclaimAtEnd then ReclaimInto(s, true).(miner := Between)
    else
      var s' := ReclaimInto(s, c.HandoffBt());
      var stop := Missing(c, s'.hA, s'.hBt) || (s.miner == ReclaimOnHit && how.stop);
      s'.(miner := if stop then EndJob else if s.miner == ReclaimOnHit then HandOver else Scan)
  }

  function WitnessStep(s: State): State {
    if !s.q.jobActive || s.q.shutdown then s.(miner := EndJob)
    else s.(q := EnqueueWitness(s.q), miner := NotifyWorker)
  }

  function FreeStep(s: State): State {
    s.(q := FreeEverything(s.q), globalsFreed := Held(s.hA) + Held(s.hBt), hA := None, hBt := None, miner := Gone)
  }

  /** The steps of a job that move no buffer. */
  function JobStep(c: Setup, s: State, how: Choice): State
    requires s.miner in {Prepared, Attempt, Scan, NotifyWorker}
  {
    if how.stop && s.miner != NotifyWorker then s.(miner := EndJob)
    else
      match s.miner
      case Prepared => s.(q := BeginJob(s.q, s.jobs, s.miningKey), miner := Attempt)
      case Attempt => s.(miner := if c.DefersReclaim() || c.ShareWitness() then Scan else ReclaimBeforeScan)
      case Scan => s.(miner := if !how.hit then Attempt else if c.ShareWitness() then HandOverWitness else ReclaimOnHit)
      case NotifyWorker => s.(workerAsleep := false, miner := if c.mock then EndJob else Attempt)
  }

  /** The steps around a job and those of the shutdown. */
  function OuterStep(s: State, how: Choice): State
    requires s.miner in {Between, EndJob, DrainJob, NotifyShutdown, Join, Gone}
  {
    match s.miner
    case Between =>
      if how.destroy then s.(q := s.q.(shutdown := true), miner := NotifyShutdown)
      else s.(miningKey := how.key, jobs := s.jobs + 1, miner := Prepared)
    case EndJob =>
      var q' := s.q.(jobActive := false);
      s.(q := q', miner := if Drained(q') then ReclaimAtEnd else DrainJob, minerAsleep := !Drained(q'))
    case DrainJob => s.(miner := ReclaimAtEnd)
    case NotifyShutdown => s.(workerAsleep := false, miner := Join)
    case Join => s.(miner := Free)
    case Gone => s
  }

  function MinerStep(c: Setup, s: State, how: Choice): State {
    match s.miner
    case ReclaimBeforeScan | ReclaimOnHit | ReclaimAtEnd => ReclaimStep(c, s, how)
    case HandOver => HandOverStep(c, s)
    case HandOverWitness => WitnessStep(s)
    case Free => FreeStep(s)
    case Prepared | Attempt | Scan | NotifyWorker => JobStep(c, s, how)
    case Between | EndJob | DrainJob | NotifyShutdown | Join | Gone => OuterStep(s, how)
  }

  // ------------------------------------------------------------------------------------------
  // The worker

  predicate WorkerReady(s: State) {
    s.worker == Idle ==> WorkForWorker(s.q)
  }

  function DropOr(s: State, snap: Snapshot, next: WorkerPc): State {
    if snap.key != s.miningKey then s.(events := s.events + [Dropped(snap)], worker := GiveBack)
    else s.(worker := next)
  }

  /** The B^T a proof is built from: the snapshot's own, else the shared one. */
  function BtForProof(s: State, snap: Snapshot): Option<Buffer> {
    if snap.bt.Some? then snap.bt else s.hBt
  }

  /** One step of the worker; with `ok` false it meets a failure, or nothing to submit to. */
  function WorkerStep(s: State, ok: bool): State
    requires WorkerReady(s)
    requires s.snap.Some? <==> s.worker in {CheckKey, Build, CheckKeyAgain, Submit, GiveBack}
    requires s.worker == Finish ==> s.q.inFlight > 0
  {
    match s.worker
    case Idle =>
      if s.q.pending == [] then s.(worker := Exited)
      else s.(q := TakeFront(s.q), snap := Some(s.q.pending[0]), worker := CheckKey)
    case CheckKey => DropOr(s, s.snap.value, if ok then Build else GiveBack)
    case Build =>
      var event := Built(s.snap.value, s.q.jobCtx, s.jobs, BtForProof(s, s.snap.value));
      s.(events := s.events + [event], worker := if ok then CheckKeyAgain else GiveBack)
    case CheckKeyAgain => DropOr(s, s.snap.value, if ok then Submit else GiveBack)
    case Submit =>
      s.(events := s.events + [Submitted(s.snap.value, s.q.jobCtx, s.jobs)], worker := GiveBack)
    case GiveBack =>
      s.(q := ReturnMatrices(s.q, s.snap.value), snap := None, minerAsleep := false, workerAsleep := false,
         worker := Finish)
    case Finish => s.(q := FinishOne(s.q), minerAsleep := false, workerAsleep := false, worker := Idle)
    case Exited => s
  }

  // ------------------------------------------------------------------------------------------
  // Runs

  datatype Action = Mine(how: Choice) | Work(ok: bool) | WakeMiner | WakeWorker

  /** One action. A thread that is asleep does not move; one that is not ready falls asleep, except
      that joining the worker is not a wait on the condition variable. */
  function Apply(c: Setup, s: State, act: Action): State
    requires Consistent(s)
  {
    match act
    case Mine(how) =>
      if s.minerAsleep then s
      else if MinerReady(c, s) then MinerStep(c, s, how)
      else s.(minerAsleep := s.miner != Join)
    case Work(ok) =>
      if s.workerAsleep then s
      else if WorkerReady(s) then WorkerStep(s, ok)
      else s.(workerAsleep := true)
    case WakeMiner => s.(minerAsleep := false)
    case WakeWorker => s.(workerAsleep := false)
  }

  // ------------------------------------------------------------------------------------------
  // The invariant

  predicate Consistent(s: State) {
    && |s.q.pending| + s.q.inFlight <= 1
    && s.q.inFlight == (if s.worker in {Idle, Exited} then 0 else 1)
    && (s.snap.Some? <==> s.worker in {CheckKey, Build, CheckKeyAgain, Submit, GiveBack})
  }

  /** A share is waiting for the worker or in its hands. */
  predicate Busy(s: State) { s.q.pending != [] || s.q.inFlight > 0 }

  function TheSnapshot(s: State): Option<Snapshot> {
    if s.q.pending != [] then Some(s.q.pending[0]) else s.snap
  }

  function LentA(s: State): Option<Buffer> {
    if TheSnapshot(s).Some? then TheSnapshot(s).value.a else None
  }

  function LentBt(s: State): Option<Buffer> {
    if TheSnapshot(s).Some? then TheSnapshot(s).value.bt else None
  }

  /** The buffer `b` is in exactly one of the three places, and nothing else is in any of them. */
  predicate InOnePlace(b: Option<Buffer>, miner: Option<Buffer>, lent: Option<Buffer>, returned: Option<Buffer>) {
    || (miner == b && lent == None && returned == None)
    || (miner == None && lent == b && returned == None)
    || (miner == None && lent == None && returned == b)
  }

  predicate Ownership(c: Setup, s: State) {
    && InOnePlace(c.InitialA(), s.hA, LentA(s), s.q.returnedA)
    && (s.q.matricesLoaned <==> LentA(s).Some?)
    && InOnePlace(c.InitialBt(), s.hBt, LentBt(s), s.q.returnedBt)
    && (TheSnapshot(s).Some? && !c.ShareWitness() ==> LentA(s).Some?)
    && (if c.HandoffBt() then (LentBt(s).Some? <==> LentA(s).Some?) && (s.q.returnedBt.Some? <==> s.q.returnedA.Some?)
        else s.hBt == c.InitialBt())
  }

  predicate InJob(pc: MinerPc) {
    pc in {Attempt, ReclaimBeforeScan, Scan, ReclaimOnHit, HandOver, HandOverWitness, NotifyWorker}
  }

  predicate Quiet(pc: MinerPc) {
    pc in {Between, Prepared, ReclaimAtEnd, NotifyShutdown, Join, Free, Gone}
  }

  predicate OfCurrentJob(s: State) {
    && (InJob(s.miner) ==> s.q.jobActive)
    && (InJob(s.miner) || Busy(s) ==> s.q.jobCtx == s.jobs && s.q.jobKey == s.miningKey)
    && (TheSnapshot(s).Some? ==> TheSnapshot(s).value.job == s.jobs && TheSnapshot(s).value.key == s.miningKey)
  }

  predicate AtPc(c: Setup, s: State) {
    && (Quiet(s.miner) ==> !Busy(s))
    && (Quiet(s.miner) && s.miner !in {ReclaimAtEnd, Gone} ==> s.hA == c.InitialA() && s.hBt == c.InitialBt())
    && (s.miner in {ReclaimOnHit, HandOver} ==> !c.ShareWitness())
    && (s.miner == HandOverWitness ==> c.ShareWitness())
    && (s.miner == HandOver || (s.miner == Scan && !c.DefersReclaim() && !c.ShareWitness()) ==>
        !Missing(c, s.hA, s.hBt))
    && (s.q.shutdown <==> s.miner in {NotifyShutdown, Join, Free, Gone})
    && (s.worker == Exited ==> s.q.shutdown)
    && (s.miner in {Free, Gone} ==> s.worker == Exited)
  }

  /** No wake-up is lost: whoever sleeps still has to wait, or is about to be notified. */
  predicate SleepersWait(c: Setup, s: State) {
    && (s.minerAsleep ==> !MinerReady(c, s) && s.miner != Join)
    && (s.workerAsleep ==> s.worker == Idle)
    && (s.workerAsleep && WorkForWorker(s.q) ==> s.miner in {NotifyWorker, NotifyShutdown})
  }

  /** A proof is built and submitted for the job its share was found in, from the buffers made at
      launch, and no share is dropped as stale. */
  predicate RightJob(c: Setup, e: Event) {
    match e
    case Built(snap, ctx, mined, bt) =>
      && snap.job == ctx == mined
      && bt == c.InitialBt()
      && snap.a == (if c.ShareWitness() then None else c.InitialA())
    case Submitted(snap, ctx, mined) => snap.job == ctx == mined
    case Dropped(_) => false
  }

  predicate EventsRight(c: Setup, events: seq<Event>) {
    forall i :: 0 <= i < |events| ==> RightJob(c, events[i])
  }

  predicate Unfreed(s: State) {
    s.q.freed == [] && s.globalsFreed == []
  }

  predicate Inv(c: Setup, s: State) {
    && Consistent(s)
    && OfCurrentJob(s)
    && AtPc(c, s)
    && SleepersWait(c, s)
    && EventsRight(c, s.events)
    && (s.miner != Gone ==> Ownership(c, s) && Unfreed(s))
    && (s.miner == Gone ==>
          && s.hA == s.hBt == s.q.returnedA == s.q.returnedBt == None
          && s.q.freed + s.globalsFreed == Held(c.InitialA()) + Held(c.InitialBt()))
  }

  lemma StartInv(c: Setup)
    ensures Inv(c, Start(c))
  {
  }

  /** With no share about, one reclaim brings back everything that was lent. */
  lemma ReclaimBringsBack(c: Setup, s: State)
    requires Consistent(s) && Ownership(c, s) && !Busy(s)
    ensures ReclaimInto(s, true).hA == c.InitialA() && ReclaimInto(s, true).hBt == c.InitialBt()
  {
  }

  lemma ReclaimKeepsOwnership(c: Setup, s: State, takeBt: bool)
    requires Consistent(s) && Ownership(c, s) && (takeBt <== c.HandoffBt())
    ensures Ownership(c, ReclaimInto(s, takeBt))
  {
  }

  lemma HandOverKeepsOwnership(c: Setup, s: State)
    requires Consistent(s) && Ownership(c, s) && s.miner == HandOver && MinerReady(c, s)
    ensures Ownership(c, HandOverStep(c, s))
  {
  }

  predicate SameHoldings(s: State, s': State) {
    && s'.q.pending == s.q.pending && s'.snap == s.snap
    && s'.hA == s.hA && s'.q.returnedA == s.q.returnedA
    && s'.hBt == s.hBt && s'.q.returnedBt == s.q.returnedBt
    && s'.q.matricesLoaned == s.q.matricesLoaned
  }

  lemma SameHoldingsSameOwnership(c: Setup, s: State, s': State)
    requires Ownership(c, s) && SameHoldings(s, s')
    ensures Ownership(c, s')
  {
    hide InOnePlace;
  }

  lemma ReclaimKeepsInv(c: Setup, s: State, how: Choice)
    requires Inv(c, s) && !s.minerAsleep && MinerReady(c, s)
    requires s.miner in {ReclaimBeforeScan, ReclaimOnHit, ReclaimAtEnd}
    ensures Inv(c, ReclaimStep(c, s, how))
  {
    hide EventsRight, Ownership, Missing;
    var takeBt := s.miner == ReclaimAtEnd || c.HandoffBt();
    ReclaimKeepsOwnership(c, s, takeBt);
    SameHoldingsSameOwnership(c, ReclaimInto(s, takeBt), ReclaimStep(c, s, how));
    if s.miner == ReclaimAtEnd {
      ReclaimBringsBack(c, s);
    }
  }

  /** A hand-over never finds a returned buffer it would have to free. */
  lemma NothingStaleAtHandOver(c: Setup, s: State)
    requires Inv(c, s) && s.miner == HandOver
    ensures s.q.returnedA == s.q.returnedBt == None
  {
    hide OfCurrentJob, SleepersWait, EventsRight;
  }

  lemma HandOverKeepsInv(c: Setup, s: State)
    requires Inv(c, s) && !s.minerAsleep && MinerReady(c, s) && s.miner == HandOver
    ensures Inv(c, HandOverStep(c, s))
  {
    hide EventsRight, InOnePlace;
    NothingStaleAtHandOver(c, s);
    HandOverKeepsOwnership(c, s);
  }

  lemma WitnessKeepsInv(c: Setup, s: State)
    requires Inv(c, s) && !s.minerAsleep && MinerReady(c, s) && s.miner == HandOverWitness
    ensures Inv(c, WitnessStep(s))
  {
    hide EventsRight;
  }

  /** The last step frees the buffers made at launch, and nothing else, once. */
  lemma FreeKeepsInv(c: Setup, s: State)
    requires Inv(c, s) && s.miner == Free
    ensures Inv(c, FreeStep(s))
  {
    hide EventsRight;
  }

  lemma JobStepKeepsInv(c: Setup, s: State, how: Choice)
    requires Inv(c, s) && !s.minerAsleep && s.miner in {Prepared, Attempt, Scan, NotifyWorker}
    ensures Inv(c, JobStep(c, s, how))
  {
    hide EventsRight, InOnePlace;
  }

  lemma OuterStepKeepsInv(c: Setup, s: State, how: Choice)
    requires Inv(c, s) && !s.minerAsleep && MinerReady(c, s)
    requires s.miner in {Between, EndJob, DrainJob, NotifyShutdown, Join, Gone}
    ensures Inv(c, OuterStep(s, how))
  {
    hide EventsRight, InOnePlace;
  }

  lemma MinerKeepsInv(c: Setup, s: State, how: Choice)
    requires Inv(c, s) && !s.minerAsleep && MinerReady(c, s)
    ensures Inv(c, MinerStep(c, s, how))
  {
    match s.miner
    case ReclaimBeforeScan | ReclaimOnHit | ReclaimAtEnd => ReclaimKeepsInv(c, s, how);
    case HandOver => HandOverKeepsInv(c, s);
    case HandOverWitness => WitnessKeepsInv(c, s);
    case Free => FreeKeepsInv(c, s);
    case Prepared | Attempt | Scan | NotifyWorker => JobStepKeepsInv(c, s, how);
    case Between | EndJob | DrainJob | NotifyShutdown | Join | Gone => OuterStepKeepsInv(c, s, how);
    hide Inv;
  }

  lemma WorkerKeepsJob(c: Setup, s: State, ok: bool)
    requires Inv(c, s) && !s.workerAsleep && WorkerReady(s)
    ensures Consistent(WorkerStep(s, ok)) && OfCurrentJob(WorkerStep(s, ok)) && AtPc(c, WorkerStep(s, ok))
  {
    hide EventsRight, SleepersWait, Ownership;
  }

  lemma WorkerKeepsSleepers(c: Setup, s: State, ok: bool)
    requires Inv(c, s) && !s.workerAsleep && WorkerReady(s)
    ensures SleepersWait(c, WorkerStep(s, ok))
  {
    hide EventsRight, OfCurrentJob, Ownership;
  }

  lemma TakeKeepsOwnership(c: Setup, s: State)
    requires Consistent(s) && Ownership(c, s) && s.worker == Idle && WorkerReady(s)
    ensures Ownership(c, WorkerStep(s, true))
  {
    hide InOnePlace;
  }

  lemma GiveBackKeepsOwnership(c: Setup, s: State)
    requires Consistent(s) && Ownership(c, s) && s.worker == GiveBack && !s.q.shutdown
    requires Unfreed(s)
    ensures Ownership(c, WorkerStep(s, true)) && Unfreed(WorkerStep(s, true))
  {
  }

  lemma WorkerKeepsOwnership(c: Setup, s: State, ok: bool)
    requires Inv(c, s) && !s.workerAsleep && WorkerReady(s) && s.miner != Gone
    ensures Ownership(c, WorkerStep(s, ok)) && Unfreed(WorkerStep(s, ok))
  {
    hide EventsRight, OfCurrentJob, SleepersWait, Ownership;
    match s.worker
    case Idle => TakeKeepsOwnership(c, s);
    case GiveBack => GiveBackKeepsOwnership(c, s);
    case _ => SameHoldingsSameOwnership(c, s, WorkerStep(s, ok));
  }

  lemma WorkerKeepsEvents(c: Setup, s: State, ok: bool)
    requires Inv(c, s) && !s.workerAsleep && WorkerReady(s)
    ensures EventsRight(c, WorkerStep(s, ok).events)
  {
    hide SleepersWait;
  }

  lemma WorkerKeepsInv(c: Setup, s: State, ok: bool)
    requires Inv(c, s) && !s.workerAsleep && WorkerReady(s)
    ensures Inv(c, WorkerStep(s, ok))
  {
    WorkerKeepsJob(c, s, ok);
    WorkerKeepsSleepers(c, s, ok);
    WorkerKeepsEvents(c, s, ok);
    if s.miner != Gone {
      WorkerKeepsOwnership(c, s, ok);
    }
    hide OfCurrentJob, SleepersWait, EventsRight, Ownership;
  }

  lemma ApplyKeepsInv(c: Setup, s: State, act: Action)
    requires Inv(c, s)
    ensures Inv(c, Apply(c, s, act))
  {
    hide OfCurrentJob, Ownership, EventsRight, AtPc;
    match act
    case Mine(how) =>
      if !s.minerAsleep && MinerReady(c, s) { MinerKeepsInv(c, s, how); } else { SleepKeepsInv(c, s, act); }
    case Work(ok) =>
      if !s.workerAsleep && WorkerReady(s) { WorkerKeepsInv(c, s, ok); } else { SleepKeepsInv(c, s, act); }
    case _ => SleepKeepsInv(c, s, act);
  }

  lemma SleepKeepsInv(c: Setup, s: State, act: Action)
    requires Inv(c, s)
    requires act.Mine? ==> s.minerAsleep || !MinerReady(c, s)
    requires act.Work? ==> s.workerAsleep || !WorkerReady(s)
    ensures Inv(c, Apply(c, s, act))
  {
    hide EventsRight, InOnePlace;
  }

  /** The system after a run: `acts` is any interleaving of the two threads, with any choices. */
  function After(c: Setup, acts: seq<Action>): (s: State)
    ensures Inv(c, s)
  {
    StartInv(c);
    if acts == [] then Start(c)
    else
      var s := After(c, acts[..|acts| - 1]);
      ApplyKeepsInv(c, s, acts[|acts| - 1]);
      Apply(c, s, acts[|acts| - 1])
  }

  // ------------------------------------------------------------------------------------------
  // One owner for each buffer

  /** Every place a buffer can be in, the freed ones included, with how often. */
  function Everywhere(s: State): multiset<Buffer> {
    Owned(s.q) + (if s.snap.Some? then Carried(s.snap.value) else multiset{})
    + multiset(Held(s.hA)) + multiset(Held(s.hBt)) + multiset(s.globalsFreed)
  }

  /** The snapshots together hold what is lent. */
  lemma SnapshotsHoldLent(s: State)
    requires Consistent(s)
    ensures multiset(Snapped(s.q.pending)) + (if s.snap.Some? then Carried(s.snap.value) else multiset{})
            == multiset(Held(LentA(s))) + multiset(Held(LentBt(s)))
  {
    if s.q.pending != [] {
      assert Snapped(s.q.pending[1..]) == [];
    }
  }

  lemma InOnePlaceCounts(b: Option<Buffer>, miner: Option<Buffer>, lent: Option<Buffer>, returned: Option<Buffer>)
    requires InOnePlace(b, miner, lent, returned)
    ensures multiset(Held(miner)) + multiset(Held(lent)) + multiset(Held(returned)) == multiset(Held(b))
  {
  }

  lemma Regroup(pending: multiset<Buffer>, snap: multiset<Buffer>, lentA: multiset<Buffer>, lentBt: multiset<Buffer>,
                hA: multiset<Buffer>, retA: multiset<Buffer>, hBt: multiset<Buffer>, retBt: multiset<Buffer>)
    requires pending + snap == lentA + lentBt
    ensures pending + retA + retBt + snap + hA + hBt == (hA + lentA + retA) + (hBt + lentBt + retBt)
  {
    forall x: Buffer
      ensures (pending + retA + retBt + snap + hA + hBt)[x] == ((hA + lentA + retA) + (hBt + lentBt + retBt))[x]
    {
      assert (pending + snap)[x] == (lentA + lentBt)[x];
    }
  }

  lemma EverywhereBeforeTheEnd(c: Setup, s: State)
    requires Inv(c, s) && s.miner != Gone
    ensures Everywhere(s) == multiset(Held(c.InitialA())) + multiset(Held(c.InitialBt()))
  {
    hide OfCurrentJob, AtPc, SleepersWait, EventsRight, Held, Snapped, InOnePlace, LentA, LentBt, Carried;
    var inSnap := if s.snap.Some? then Carried(s.snap.value) else multiset{};
    SnapshotsHoldLent(s);
    InOnePlaceCounts(c.InitialA(), s.hA, LentA(s), s.q.returnedA);
    InOnePlaceCounts(c.InitialBt(), s.hBt, LentBt(s), s.q.returnedBt);
    Regroup(multiset(Snapped(s.q.pending)), inSnap, multiset(Held(LentA(s))), multiset(Held(LentBt(s))),
            multiset(Held(s.hA)), multiset(Held(s.q.returnedA)), multiset(Held(s.hBt)), multiset(Held(s.q.returnedBt)));
    assert multiset(s.q.freed) == multiset{} && multiset(s.globalsFreed) == multiset{};
  }

  lemma EverywhereAtTheEnd(c: Setup, s: State)
    requires Inv(c, s) && s.miner == Gone
    ensures Everywhere(s) == multiset(Held(c.InitialA())) + multiset(Held(c.InitialBt()))
  {
    hide OfCurrentJob, SleepersWait, EventsRight;
    assert multiset(s.q.freed + s.globalsFreed) == multiset(s.q.freed) + multiset(s.globalsFreed);
  }

  /** In every run no buffer is lost, duplicated, or freed before the end: over all places together
      there is exactly what the process allocated at launch. */
  lemma OneOwner(c: Setup, acts: seq<Action>)
    ensures Everywhere(After(c, acts)) == multiset(Held(c.InitialA())) + multiset(Held(c.InitialBt()))
    ensures After(c, acts).miner != Gone ==> Unfreed(After(c, acts))
  {
    hide OfCurrentJob, AtPc, SleepersWait, EventsRight, Ownership, Everywhere, Held;
    if After(c, acts).miner != Gone {
      EverywhereBeforeTheEnd(c, After(c, acts));
    } else {
      EverywhereAtTheEnd(c, After(c, acts));
    }
  }

  /** Between two jobs the miner holds again everything it lent. */
  lemma BuffersBackBetweenJobs(c: Setup, acts: seq<Action>)
    requires After(c, acts).miner == Between
    ensures After(c, acts).hA == c.InitialA() && After(c, acts).hBt == c.InitialBt()
  {
  }

  /** When the process has ended, each buffer made at launch has been freed exactly once. */
  lemma FreedOnce(c: Setup, acts: seq<Action>)
    requires After(c, acts).miner == Gone
    ensures After(c, acts).q.freed + After(c, acts).globalsFreed == Held(c.InitialA()) + Held(c.InitialBt())
  {
  }

  /** The states of a process that ends before its first job. */
  function Ending(c: Setup, k: nat): State
    requires k <= 5
  {
    var s := Start(c);
    if k == 0 then s
    else
      var down := s.(q := s.q.(shutdown := true), miner := NotifyShutdown);
      if k == 1 then down
      else if k == 2 then down.(miner := Join)
      else if k == 3 then down.(miner := Join, worker := Exited)
      else if k == 4 then down.(miner := Free, worker := Exited)
      else FreeStep(down.(miner := Free, worker := Exited))
  }

  function EndingAct(k: nat, how: Choice): Action { if k == 2 then Work(true) else Mine(how) }

  lemma EndingStep(c: Setup, k: nat, how: Choice)
    requires k < 5 && how.destroy
    ensures Consistent(Ending(c, k)) && Apply(c, Ending(c, k), EndingAct(k, how)) == Ending(c, k + 1)
  {
  }

  lemma {:induction false} EndingRun(c: Setup, k: nat, how: Choice) returns (acts: seq<Action>)
    requires k <= 5 && how.destroy
    ensures After(c, acts) == Ending(c, k)
  {
    hide Inv, Ending, Apply;
    if k == 0 {
      acts := [];
      assert Ending(c, 0) == Start(c) by { EndingStart(c); }
    } else {
      var before := EndingRun(c, k - 1, how);
      EndingStep(c, k - 1, how);
      acts := before + [EndingAct(k - 1, how)];
      AfterOne(c, before, EndingAct(k - 1, how));
    }
  }

  lemma EndingStart(c: Setup)
    ensures Ending(c, 0) == Start(c)
  {
  }

  /** A run to the end exists, whatever the setup. */
  lemma EndIsReachable(c: Setup)
    ensures exists acts :: After(c, acts).miner == Gone
  {
    var acts := EndingRun(c, 5, Choice(false, false, true, ""));
    hide Inv, After;
  }

  lemma AfterOne(c: Setup, acts: seq<Action>, act: Action)
    ensures After(c, acts + [act]) == Apply(c, After(c, acts), act)
  {
    hide Inv;
    assert (acts + [act])[..|acts|] == acts;
  }

  /** While the miner writes or hands over the matrices, the worker has none of them. */
  lemma MinerWritesOnlyItsOwn(c: Setup, acts: seq<Action>)
    requires var s := After(c, acts);
             s.miner == HandOver || (s.miner == Scan && !c.DefersReclaim() && !c.ShareWitness())
    ensures var s := After(c, acts);
            && s.hA.Some? && s.hA == c.InitialA()
            && (s.snap.Some? ==> s.snap.value.a == None && s.snap.value.bt == None)
  {
    hide OfCurrentJob, SleepersWait, EventsRight;
  }

  // ------------------------------------------------------------------------------------------
  // Job isolation

  /** Every proof of every run was built, and every share submitted, for the job in which the share
      was found, and none was dropped as stale. */
  lemma SharesOfTheirJob(c: Setup, acts: seq<Action>, i: nat)
    requires i < |After(c, acts).events|
    ensures RightJob(c, After(c, acts).events[i])
  {
  }

  // ------------------------------------------------------------------------------------------
  // No deadlock

  predicate MinerMoves(c: Setup, s: State) {
    !s.minerAsleep && MinerReady(c, s) && s.miner != Gone
  }

  predicate WorkerMoves(s: State) {
    !s.workerAsleep && WorkerReady(s) && s.worker != Exited
  }

  /** Until the process has ended one of the two threads can take a step, without any spurious
      wake-up; and whenever it is not the miner it is the worker. */
  lemma NoDeadlock(c: Setup, acts: seq<Action>)
    ensures var s := After(c, acts);
            s.miner == Gone || MinerMoves(c, s) || WorkerMoves(s)
  {
    var s := After(c, acts);
    if s.miner != Gone && !MinerMoves(c, s) {
      MinerWaitsForWorker(c, s);
    }
  }

  lemma MinerWaitsForWorker(c: Setup, s: State)
    requires Inv(c, s) && s.miner != Gone && !MinerMoves(c, s)
    ensures WorkerMoves(s) && !MinerReady(c, s)
  {
    hide EventsRight;
  }

  /** How many steps the worker is at most away from having nothing to do. */
  function StepsLeft(s: State): nat {
    match s.worker
    case Idle => 7
    case CheckKey => 6
    case Build => 5
    case CheckKeyAgain => 4
    case Submit => 3
    case GiveBack => 2
    case Finish => 1
    case Exited => 0
  }

  function Working(c: Setup, s: State, oks: seq<bool>): (s': State)
    requires Inv(c, s)
    ensures Inv(c, s')
    decreases |oks|
  {
    if oks == [] then s
    else
      ApplyKeepsInv(c, s, Work(oks[0]));
      Working(c, Apply(c, s, Work(oks[0])), oks[1..])
  }

  /** Nothing the worker takes away makes the miner's condition false. */
  lemma ReadyMonotone(c: Setup, s: State, s': State)
    requires MinerReady(c, s)
    requires s'.miner == s.miner && s'.hA == s.hA && s'.hBt == s.hBt && (s.worker == Exited ==> s'.worker == Exited)
    requires s'.q.shutdown == s.q.shutdown && s'.q.jobActive == s.q.jobActive
    requires s'.q.pending == s.q.pending || (s.q.pending != [] && s'.q.pending == [])
    requires s'.q.inFlight <= s.q.inFlight || s.q.pending != []
    requires s.q.matricesLoaned || !s'.q.matricesLoaned
    requires s.q.returnedA.Some? ==> s'.q.returnedA.Some?
    requires s.q.returnedBt.Some? ==> s'.q.returnedBt.Some?
    ensures MinerReady(c, s')
  {
  }

  lemma QueueStepKeepsReady(c: Setup, s: State, ok: bool)
    requires Consistent(s) && WorkerReady(s) && MinerReady(c, s)
    requires s.worker in {Idle, GiveBack, Finish}
    ensures MinerReady(c, WorkerStep(s, ok))
  {
    hide MinerReady;
    ReadyMonotone(c, s, WorkerStep(s, ok));
  }

  lemma ProofStepKeepsReady(c: Setup, s: State, ok: bool)
    requires Consistent(s) && WorkerReady(s) && MinerReady(c, s)
    requires s.worker !in {Idle, GiveBack, Finish}
    ensures MinerReady(c, WorkerStep(s, ok))
  {
    hide MinerReady;
    var s' := WorkerStep(s, ok);
    assert s'.q == s.q;
    ReadyMonotone(c, s, s');
  }

  /** What the miner waits for stays true until the miner itself moves. */
  lemma ReadyStays(c: Setup, s: State, ok: bool)
    requires Inv(c, s) && MinerReady(c, s)
    ensures MinerReady(c, Apply(c, s, Work(ok)))
  {
    hide EventsRight, Ownership, OfCurrentJob, SleepersWait;
    if !s.workerAsleep && WorkerReady(s) {
      if s.worker in {Idle, GiveBack, Finish} { QueueStepKeepsReady(c, s, ok); } else { ProofStepKeepsReady(c, s, ok); }
    }
  }

  lemma WaitingWorkerAdvances(c: Setup, s: State, ok: bool)
    requires Inv(c, s) && s.miner != Gone && !MinerReady(c, s)
    ensures var s' := Apply(c, s, Work(ok));
            s'.miner == s.miner && (MinerReady(c, s') || StepsLeft(s') < StepsLeft(s))
  {
    hide EventsRight, InOnePlace, OfCurrentJob;
    MinerWaitsForWorker(c, s);
  }

  /** A waiting miner is served: however the worker's steps turn out, after at most seven of them
      the miner is awake and finds its condition true. */
  lemma {:induction false} MinerIsServed(c: Setup, s: State, oks: seq<bool>)
    requires Inv(c, s) && s.miner != Gone && |oks| >= StepsLeft(s)
    ensures MinerMoves(c, Working(c, s, oks))
    decreases |oks|
  {
    hide EventsRight, Ownership, OfCurrentJob;
    if MinerReady(c, s) {
      if oks != [] {
        ReadyStays(c, s, oks[0]);
        ApplyKeepsInv(c, s, Work(oks[0]));
        StillServed(c, Apply(c, s, Work(oks[0])), oks[1..]);
      }
    } else {
      MinerWaitsForWorker(c, s);
      WaitingWorkerAdvances(c, s, oks[0]);
      ApplyKeepsInv(c, s, Work(oks[0]));
      var s' := Apply(c, s, Work(oks[0]));
      if MinerReady(c, s') { StillServed(c, s', oks[1..]); } else { MinerIsServed(c, s', oks[1..]); }
    }
  }

  lemma {:induction false} StillServed(c: Setup, s: State, oks: seq<bool>)
    requires Inv(c, s) && s.miner != Gone && MinerReady(c, s)
    ensures MinerMoves(c, Working(c, s, oks))
    decreases |oks|
  {
    hide EventsRight, Ownership, OfCurrentJob;
    if oks != [] {
      ReadyStays(c, s, oks[0]);
      ApplyKeepsInv(c, s, Work(oks[0]));
      StillServed(c, Apply(c, s, Work(oks[0])), oks[1..]);
    }
  }
}
