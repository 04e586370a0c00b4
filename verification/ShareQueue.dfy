/**
 The share queue: what each critical section does to its fields. Every method runs under the
 queue's mutex, after the condition it waits for holds; how the two threads interleave is the
 subject of ShareProtocol.
 */
module ShareQueue {
  import opened Wrappers

  /** A heap buffer, known by its address. */
  type Buffer = nat
  type JobKey = string

  /** A share waiting for its proof. It owns the matrices it holds; `job` names the job that was
      mined when it was enqueued. */
  datatype Snapshot = Snapshot(job: nat, key: JobKey, a: Option<Buffer>, bt: Option<Buffer>)

  datatype Queue = Queue(
    pending: seq<Snapshot>,
    shutdown: bool,
    jobActive: bool,
    inFlight: nat,
    matricesLoaned: bool,
    returnedA: Option<Buffer>,
    returnedBt: Option<Buffer>,
    jobCtx: nat,
    jobKey: JobKey,
    freed: seq<Buffer>)

  const MAX_DEPTH: nat := 1

  function Held(o: Option<Buffer>): seq<Buffer> {
    if o.Some? then [o.value] else []
  }

  function Snapped(s: seq<Snapshot>): seq<Buffer> {
    if s == [] then [] else Held(s[0].a) + Held(s[0].bt) + Snapped(s[1..])
  }

  // ------------------------------------------------------------------------------------------
  // The critical sections on values

  function BeginJob(q: Queue, ctx: nat, key: JobKey): Queue {
    q.(jobCtx := ctx, jobKey := key, jobActive := true)
  }

  predicate RoomForWitness(q: Queue) {
    q.shutdown || (|q.pending| < MAX_DEPTH && q.inFlight == 0)
  }

  predicate RoomForHit(q: Queue) {
    q.shutdown || (!q.matricesLoaned && |q.pending| < MAX_DEPTH && q.inFlight == 0)
  }

  function EnqueueWitness(q: Queue): Queue {
    q.(pending := q.pending + [Snapshot(q.jobCtx, q.jobKey, None, None)])
  }

  /** Hands the matrices over; buffers nobody reclaimed are freed first. */
  function EnqueueHit(q: Queue, a: Buffer, bt: Option<Buffer>): Queue {
    q.(freed := q.freed + Held(q.returnedA) + Held(q.returnedBt),
       returnedA := None,
       returnedBt := None,
       matricesLoaned := true,
       pending := q.pending + [Snapshot(q.jobCtx, q.jobKey, Some(a), bt)])
  }

  predicate WorkForWorker(q: Queue) {
    q.shutdown || q.pending != []
  }

  function TakeFront(q: Queue): Queue
    requires q.pending != []
  {
    q.(pending := q.pending[1..], inFlight := q.inFlight + 1)
  }

  /** One returned buffer: freed on shutdown, otherwise it replaces what the slot still held. */
  function ReturnOne(shutdown: bool, slot: Option<Buffer>, b: Option<Buffer>): (Option<Buffer>, seq<Buffer>) {
    if b.None? then (slot, [])
    else if shutdown then (slot, Held(b))
    else (b, Held(slot))
  }

  function ReturnMatrices(q: Queue, snap: Snapshot): Queue {
    var (a, freedA) := ReturnOne(q.shutdown, q.returnedA, snap.a);
    var (bt, freedBt) := ReturnOne(q.shutdown, q.returnedBt, snap.bt);
    q.(returnedA := a, returnedBt := bt, matricesLoaned := false, freed := q.freed + freedA + freedBt)
  }

  function FinishOne(q: Queue): Queue
    requires q.inFlight > 0
  {
    q.(inFlight := q.inFlight - 1)
  }

  predicate Drained(q: Queue) {
    q.pending == [] && q.inFlight == 0 && !q.matricesLoaned
  }

  /** When the reclaim wait ends, given which of the caller's buffers are missing. */
  predicate ReclaimReady(q: Queue, needA: bool, needBt: bool) {
    || q.shutdown
    || (!needA && !needBt)
    || (needA && q.returnedA.Some?)
    || (needBt && q.returnedBt.Some?)
    || !q.matricesLoaned
  }

  function TakeReturned(q: Queue, takeA: bool, takeBt: bool): Queue {
    q.(returnedA := if takeA then None else q.returnedA,
       returnedBt := if takeBt then None else q.returnedBt)
  }

  function FreeEverything(q: Queue): Queue {
    q.(pending := [],
       returnedA := None,
       returnedBt := None,
       freed := q.freed + Snapped(q.pending) + Held(q.returnedA) + Held(q.returnedBt))
  }

  // ------------------------------------------------------------------------------------------
  // Whoever the clients are and however deep the queue is, no buffer is lost or freed twice

  /** Every buffer the queue answers for, freed ones included, with how often. */
  function Owned(q: Queue): multiset<Buffer> {
    multiset(Snapped(q.pending)) + multiset(Held(q.returnedA)) + multiset(Held(q.returnedBt)) + multiset(q.freed)
  }

  function Carried(snap: Snapshot): multiset<Buffer> {
    multiset(Held(snap.a)) + multiset(Held(snap.bt))
  }

  lemma {:induction false} SnappedAppend(s: seq<Snapshot>, x: Snapshot)
    ensures multiset(Snapped(s + [x])) == multiset(Snapped(s)) + Carried(x)
  {
    if s == [] {
      assert [x][1..] == [];
    } else {
      assert (s + [x])[1..] == s[1..] + [x];
      SnappedAppend(s[1..], x);
    }
  }

  lemma EnqueueHitConserves(q: Queue, a: Buffer, bt: Option<Buffer>)
    ensures Owned(EnqueueHit(q, a, bt)) == Owned(q) + multiset{a} + multiset(Held(bt))
  {
    SnappedAppend(q.pending, Snapshot(q.jobCtx, q.jobKey, Some(a), bt));
  }

  lemma EnqueueWitnessConserves(q: Queue)
    ensures Owned(EnqueueWitness(q)) == Owned(q)
  {
    SnappedAppend(q.pending, Snapshot(q.jobCtx, q.jobKey, None, None));
  }

  lemma TakeFrontConserves(q: Queue)
    requires q.pending != []
    ensures Owned(TakeFront(q)) + Carried(q.pending[0]) == Owned(q)
  {
  }

  lemma Exchange(a: multiset<Buffer>, b: multiset<Buffer>, c: multiset<Buffer>, d: multiset<Buffer>,
                 e: multiset<Buffer>, f: multiset<Buffer>, g: multiset<Buffer>, h: multiset<Buffer>,
                 rest: multiset<Buffer>, freed: multiset<Buffer>)
    requires a + b == c + d && e + f == g + h
    ensures rest + a + e + (freed + b + f) == rest + c + g + freed + (d + h)
  {
    forall x: Buffer
      ensures (rest + a + e + (freed + b + f))[x] == (rest + c + g + freed + (d + h))[x]
    {
      assert (a + b)[x] == (c + d)[x] && (e + f)[x] == (g + h)[x];
    }
  }

  lemma ReturnOneConserves(shutdown: bool, slot: Option<Buffer>, b: Option<Buffer>)
    ensures var (slot', freed) := ReturnOne(shutdown, slot, b);
            multiset(Held(slot')) + multiset(freed) == multiset(Held(slot)) + multiset(Held(b))
  {
  }

  lemma ReturnMatricesConserves(q: Queue, snap: Snapshot)
    ensures Owned(ReturnMatrices(q, snap)) == Owned(q) + Carried(snap)
  {
    hide Snapped, Held, ReturnOne;
    var (a, freedA) := ReturnOne(q.shutdown, q.returnedA, snap.a);
    var (bt, freedBt) := ReturnOne(q.shutdown, q.returnedBt, snap.bt);
    ReturnOneConserves(q.shutdown, q.returnedA, snap.a);
    ReturnOneConserves(q.shutdown, q.returnedBt, snap.bt);
    var q' := ReturnMatrices(q, snap);
    assert q'.returnedA == a && q'.returnedBt == bt && q'.freed == q.freed + freedA + freedBt;
    assert multiset(q'.freed) == multiset(q.freed) + multiset(freedA) + multiset(freedBt);
    Exchange(multiset(Held(a)), multiset(freedA), multiset(Held(q.returnedA)), multiset(Held(snap.a)),
             multiset(Held(bt)), multiset(freedBt), multiset(Held(q.returnedBt)), multiset(Held(snap.bt)),
             multiset(Snapped(q.pending)), multiset(q.freed));
  }

  lemma TakeReturnedConserves(q: Queue, takeA: bool, takeBt: bool)
    ensures var taken := (if takeA then Held(q.returnedA) else []) + (if takeBt then Held(q.returnedBt) else []);
            Owned(TakeReturned(q, takeA, takeBt)) + multiset(taken) == Owned(q)
  {
  }

  lemma FreeEverythingConserves(q: Queue)
    ensures var end := FreeEverything(q);
            multiset(end.freed) == Owned(end) == Owned(q)
  {
  }

  // ------------------------------------------------------------------------------------------
  // The queue object

  class CpShareQueue {
    var pending: seq<Snapshot>
    var shutdown: bool
    var jobActive: bool
    var inFlight: nat
    var matricesLoaned: bool
    var returnedA: Option<Buffer>
    var returnedBt: Option<Buffer>
    var jobCtx: nat
    var jobKey: JobKey
    /** Every buffer the queue has freed, in order. */
    var freed: seq<Buffer>

    function State(): Queue
      reads this
    {
      Queue(pending, shutdown, jobActive, inFlight, matricesLoaned, returnedA, returnedBt, jobCtx,
            jobKey, freed)
    }

    constructor ()
      ensures State() == Queue([], false, false, 0, false, None, None, 0, "", [])
    {
      pending, shutdown, jobActive, inFlight, matricesLoaned := [], false, false, 0, false;
      returnedA, returnedBt, jobCtx, jobKey, freed := None, None, 0, "", [];
    }

    method Begin(ctx: nat, key: JobKey)
      modifies this
      ensures State() == BeginJob(old(State()), ctx, key)
    {
      jobCtx := ctx;
      jobKey := key;
      jobActive := true;
    }

    method End()
      modifies this
      ensures State() == old(State()).(jobActive := false)
    {
      jobActive := false;
    }

    method RaiseShutdown()
      modifies this
      ensures State() == old(State()).(shutdown := true)
    {
      shutdown := true;
    }

    /** `cp_share_queue_enqueue_hit`: without a job it does not wait. */
    method PushHit(a: Buffer, bt: Option<Buffer>) returns (ok: bool)
      requires !jobActive || RoomForHit(State())
      modifies this
      ensures ok == (old(jobActive) && !old(shutdown))
      ensures State() == if ok then EnqueueHit(old(State()), a, bt) else old(State())
    {
      if shutdown || !jobActive { return false; }
      if returnedA.Some? {
        freed := freed + [returnedA.value];
        returnedA := None;
      }
      if returnedBt.Some? {
        freed := freed + [returnedBt.value];
        returnedBt := None;
      }
      matricesLoaned := true;
      pending := pending + [Snapshot(jobCtx, jobKey, Some(a), bt)];
      ok := true;
    }

    /** `cp_share_queue_enqueue_witness`: without a job it does not wait. */
    method PushWitness() returns (ok: bool)
      requires !jobActive || RoomForWitness(State())
      modifies this
      ensures ok == (old(jobActive) && !old(shutdown))
      ensures State() == if ok then EnqueueWitness(old(State())) else old(State())
    {
      if shutdown || !jobActive { return false; }
      pending := pending + [Snapshot(jobCtx, jobKey, None, None)];
      ok := true;
    }

    /** The worker's wait: nothing to take only on shutdown. */
    method Take() returns (snap: Option<Snapshot>)
      requires WorkForWorker(State())
      modifies this
      ensures old(pending) == [] ==> snap == None && State() == old(State())
      ensures old(pending) != [] ==> snap == Some(old(pending)[0]) && State() == TakeFront(old(State()))
    {
      if shutdown && pending == [] { return None; }
      snap := Some(pending[0]);
      pending := pending[1..];
      inFlight := inFlight + 1;
    }

    method Return(snap: Snapshot)
      modifies this
      ensures State() == ReturnMatrices(old(State()), snap)
    {
      if snap.a.Some? {
        if shutdown {
          freed := freed + [snap.a.value];
        } else if returnedA.Some? {
          freed := freed + [returnedA.value];
          returnedA := snap.a;
        } else {
          returnedA := snap.a;
        }
      }
      if snap.bt.Some? {
        if shutdown {
          freed := freed + [snap.bt.value];
        } else if returnedBt.Some? {
          freed := freed + [returnedBt.value];
          returnedBt := snap.bt;
        } else {
          returnedBt := snap.bt;
        }
      }
      matricesLoaned := false;
    }

    method Finish()
      requires inFlight > 0
      modifies this
      ensures State() == FinishOne(old(State()))
    {
      inFlight := inFlight - 1;
    }

    /** The end of the wait in `cp_share_queue_reclaim_matrices`; without a second argument `btGiven` is
        false. */
    method Reclaim(a: Option<Buffer>, bt: Option<Buffer>, btGiven: bool)
      returns (a': Option<Buffer>, bt': Option<Buffer>)
      requires ReclaimReady(State(), a.None?, btGiven && bt.None?)
      modifies this
      ensures a' == if a.None? then old(returnedA) else a
      ensures bt' == if btGiven && bt.None? then old(returnedBt) else bt
      ensures State() == TakeReturned(old(State()), a.None?, btGiven && bt.None?)
    {
      a', bt' := a, bt;
      if a.None? && returnedA.Some? {
        a' := returnedA;
        returnedA := None;
      }
      if btGiven && bt.None? && returnedBt.Some? {
        bt' := returnedBt;
        returnedBt := None;
      }
    }

    method FreeFront()
      requires pending != []
      modifies this`pending, this`freed
      ensures pending == old(pending)[1..]
      ensures freed + Snapped(pending) == old(freed + Snapped(pending))
    {
      freed := freed + (Held(pending[0].a) + Held(pending[0].bt));
      pending := pending[1..];
    }

    method FreePending()
      modifies this`pending, this`freed
      ensures pending == []
      ensures freed == old(freed) + Snapped(old(pending))
    {
      while pending != []
        invariant freed + Snapped(pending) == old(freed + Snapped(pending))
        decreases |pending|
      {
        FreeFront();
      }
    }

    /** After the worker has exited: whatever the queue still owns is freed. */
    method FreeAll()
      modifies this
      ensures State() == FreeEverything(old(State()))
    {
      FreePending();
      freed := freed + Held(returnedA);
      freed := freed + Held(returnedBt);
      returnedA, returnedBt := None, None;
    }
  }
}
