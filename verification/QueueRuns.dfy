/** The two threads at work on one queue object: every interleaving, carried out by its methods. */
module QueueRuns {
  import opened Wrappers
  import opened ShareQueue
  import opened ShareProtocol

  /** The miner's steps that take the mutex. */
  method MinerCalls(queue: CpShareQueue, c: Setup, s: State, how: Choice) returns (s': State)
    requires queue.State() == s.q && MinerReady(c, s)
    modifies queue
    ensures s' == MinerStep(c, s, how) && queue.State() == s'.q
  {
    hide EnqueueHit, EnqueueWitness, TakeReturned, FreeEverything, BeginJob, Drained, RoomForHit, RoomForWitness,
         JobStep;
    s' := s;
    match s.miner {
      case ReclaimBeforeScan | ReclaimOnHit | ReclaimAtEnd =>
        s' := CallReclaim(queue, c, s, how);
      case HandOver =>
        s' := CallPushHit(queue, c, s);
      case HandOverWitness =>
        var ok := queue.PushWitness();
        s' := s'.(miner := if ok then NotifyWorker else EndJob);
      case Free =>
        queue.FreeAll();
        s' := s'.(globalsFreed := Held(s.hA) + Held(s.hBt), hA := None, hBt := None, miner := Gone);
      case Prepared | Attempt | Scan | NotifyWorker =>
        s' := CallBegin(queue, c, s, how);
      case Between | EndJob | DrainJob | NotifyShutdown | Join | Gone =>
        s' := CallEnd(queue, s, how);
    }
    s' := s'.(q := queue.State());
  }

  method CallReclaim(queue: CpShareQueue, c: Setup, s: State, how: Choice) returns (s': State)
    requires queue.State() == s.q && MinerReady(c, s) && s.miner in {ReclaimBeforeScan, ReclaimOnHit, ReclaimAtEnd}
    modifies queue
    ensures s' == ReclaimStep(c, s, how) && queue.State() == s'.q
  {
    hide TakeReturned, Missing, ReclaimInto;
    if s.miner == ReclaimAtEnd {
      s' := Reclaimed(queue, s, true);
      s' := s'.(miner := Between);
    } else {
      s' := Reclaimed(queue, s, c.HandoffBt());
      var stop := Missing(c, s'.hA, s'.hBt) || (s.miner == ReclaimOnHit && how.stop);
      s' := s'.(miner := if stop then EndJob else if s.miner == ReclaimOnHit then HandOver else Scan);
    }
  }

  method Reclaimed(queue: CpShareQueue, s: State, takeBt: bool) returns (s': State)
    requires queue.State() == s.q && ReclaimReady(s.q, s.hA.None?, takeBt && s.hBt.None?)
    modifies queue
    ensures s' == ReclaimInto(s, takeBt) && queue.State() == s'.q
  {
    hide ReclaimReady, TakeReturned;
    var a, bt := queue.Reclaim(s.hA, s.hBt, takeBt);
    s' := s.(q := queue.State(), hA := a, hBt := bt);
  }

  method CallPushHit(queue: CpShareQueue, c: Setup, s: State) returns (s': State)
    requires queue.State() == s.q && s.miner == HandOver && MinerReady(c, s)
    modifies queue
    ensures s' == HandOverStep(c, s) && queue.State() == s'.q
  {
    hide EnqueueHit, RoomForHit;
    s' := s;
    var ok := false;
    if !Missing(c, s.hA, s.hBt) {
      ok := queue.PushHit(s.hA.value, if c.HandoffBt() then s.hBt else None);
      if ok { s' := s'.(hA := None, hBt := if c.HandoffBt() then None else s.hBt); }
    }
    s' := s'.(q := queue.State(), miner := if ok then NotifyWorker else EndJob);
  }

  method CallBegin(queue: CpShareQueue, c: Setup, s: State, how: Choice) returns (s': State)
    requires queue.State() == s.q && s.miner in {Prepared, Attempt, Scan, NotifyWorker}
    modifies queue
    ensures s' == JobStep(c, s, how) && queue.State() == s'.q
  {
    s' := s;
    if how.stop && s.miner != NotifyWorker {
      s' := s'.(miner := EndJob);
    } else {
      match s.miner {
        case Prepared =>
          queue.Begin(s.jobs, s.miningKey);
          s' := s'.(q := queue.State(), miner := Attempt);
        case Attempt =>
          s' := s'.(miner := if c.DefersReclaim() || c.ShareWitness() then Scan else ReclaimBeforeScan);
        case Scan =>
          s' := s'.(miner := if !how.hit then Attempt else if c.ShareWitness() then HandOverWitness else ReclaimOnHit);
        case NotifyWorker =>
          s' := s'.(workerAsleep := false, miner := if c.mock then EndJob else Attempt);
      }
    }
  }

  method CallEnd(queue: CpShareQueue, s: State, how: Choice) returns (s': State)
    requires queue.State() == s.q && s.miner in {Between, EndJob, DrainJob, NotifyShutdown, Join, Gone}
    modifies queue
    ensures s' == OuterStep(s, how) && queue.State() == s'.q
  {
    s' := s;
    match s.miner {
      case Between =>
        if how.destroy {
          queue.RaiseShutdown();
          s' := s'.(q := queue.State(), miner := NotifyShutdown);
        } else {
          s' := s'.(miningKey := how.key, jobs := s.jobs + 1, miner := Prepared);
        }
      case EndJob =>
        queue.End();
        var drained := Drained(queue.State());
        s' := s'.(q := queue.State(), miner := if drained then ReclaimAtEnd else DrainJob, minerAsleep := !drained);
      case DrainJob => s' := s'.(miner := ReclaimAtEnd);
      case NotifyShutdown => s' := s'.(workerAsleep := false, miner := Join);
      case Join => s' := s'.(miner := Free);
      case Gone =>
    }
  }

  /** The worker's steps; between taking a share and giving its matrices back it only reads the queue. */
  method WorkerCalls(queue: CpShareQueue, s: State, ok: bool) returns (s': State)
    requires queue.State() == s.q && Consistent(s) && WorkerReady(s)
    modifies queue
    ensures s' == WorkerStep(s, ok) && queue.State() == s'.q
  {
    hide ReturnMatrices, TakeFront, FinishOne, BtForProof;
    s' := s;
    match s.worker {
      case Idle =>
        var snap := queue.Take();
        s' := s'.(q := queue.State(), snap := snap, worker := if snap.Some? then CheckKey else Exited);
      case CheckKey => s' := DropOr(s, s.snap.value, if ok then Build else GiveBack);
      case Build =>
        var event := Built(s.snap.value, queue.jobCtx, s.jobs, BtForProof(s, s.snap.value));
        s' := s'.(events := s.events + [event], worker := if ok then CheckKeyAgain else GiveBack);
      case CheckKeyAgain => s' := DropOr(s, s.snap.value, if ok then Submit else GiveBack);
      case Submit =>
        s' := s'.(events := s.events + [Submitted(s.snap.value, queue.jobCtx, s.jobs)], worker := GiveBack);
      case GiveBack =>
        queue.Return(s.snap.value);
        s' := s'.(q := queue.State(), snap := None, minerAsleep := false, workerAsleep := false, worker := Finish);
      case Finish =>
        queue.Finish();
        s' := s'.(q := queue.State(), minerAsleep := false, workerAsleep := false, worker := Idle);
      case Exited =>
    }
  }

  /** One action on the queue object. */
  method Act(queue: CpShareQueue, c: Setup, s: State, act: Action) returns (s': State)
    requires queue.State() == s.q && Consistent(s)
    modifies queue
    ensures s' == Apply(c, s, act) && queue.State() == s'.q
  {
    hide MinerStep, WorkerStep, MinerReady, WorkerReady;
    match act {
      case Mine(how) =>
        if s.minerAsleep {
          s' := s;
        } else if MinerReady(c, s) {
          s' := MinerCalls(queue, c, s, how);
        } else {
          s' := s.(minerAsleep := s.miner != Join);
        }
      case Work(ok) =>
        if s.workerAsleep {
          s' := s;
        } else if WorkerReady(s) {
          s' := WorkerCalls(queue, s, ok);
        } else {
          s' := s.(workerAsleep := true);
        }
      case WakeMiner => s' := s.(minerAsleep := false);
      case WakeWorker => s' := s.(workerAsleep := false);
    }
  }

  /** Any interleaving, on one queue: its state is the one every result about the protocol speaks of. So once the
      miner is gone exactly the buffers made at launch have been freed, and until then none. */
  method RunThreads(c: Setup, acts: seq<Action>) returns (queue: CpShareQueue, s: State)
    ensures s == After(c, acts) && queue.State() == s.q && fresh(queue)
    ensures s.miner == Gone ==> queue.freed + s.globalsFreed == Held(c.InitialA()) + Held(c.InitialBt())
    ensures s.miner != Gone ==> queue.freed == []
  {
    hide Apply, OfCurrentJob, AtPc, SleepersWait, EventsRight, Ownership;
    queue := new CpShareQueue();
    s := Start(c);
    for i := 0 to |acts|
      invariant fresh(queue) && queue.State() == s.q && s == After(c, acts[..i])
    {
      assert acts[..i + 1][..i] == acts[..i];
      s := Act(queue, c, s, acts[i]);
    }
    assert acts[..|acts|] == acts;
    if After(c, acts).miner == Gone { FreedOnce(c, acts); } else { NothingFreedYet(c, acts); }
  }

  lemma NothingFreedYet(c: Setup, acts: seq<Action>)
    requires After(c, acts).miner != Gone
    ensures After(c, acts).q.freed == []
  {
  }
}
