/**
 The OpenCL scan: macro blocks in batches, two launches in flight on an in-order queue. The device runs
 its queue at its own pace; the host waits only for the read of the launch before.
 */
module MacroScan {
  import opened Arith

  /** A kernel over a range of macro blocks, or a read of the found flag into a host slot. */
  datatype Cmd = Launch(from: nat, to: nat) | ReadFlag(slot: nat)

  /** The commands not yet run, the flag on the device, the blocks whose kernel has run, and the two host
      slots that reads write. */
  datatype Device = Device(queue: seq<Cmd>, flag: bool, launched: nat, slots: seq<bool>)

  predicate AnyHit(hits: seq<bool>, from: nat, to: nat) {
    exists b :: from <= b < to && b < |hits| && hits[b]
  }

  /** The oldest command runs; the flag once raised stays. */
  function RunOne(hits: seq<bool>, d: Device): Device
    requires d.queue != []
  {
    var rest := d.(queue := d.queue[1..]);
    match d.queue[0]
    case Launch(from, to) => rest.(flag := d.flag || AnyHit(hits, from, to), launched := to)
    case ReadFlag(slot) => if slot < |d.slots| then rest.(slots := d.slots[slot := d.flag]) else rest
  }

  function RunSome(hits: seq<bool>, d: Device, n: nat): Device
    decreases n
  {
    if n == 0 || d.queue == [] then d else RunSome(hits, RunOne(hits, d), n - 1)
  }

  /** `clFinish`: the whole queue runs. */
  function Finish(hits: seq<bool>, d: Device): Device
    decreases |d.queue|
  {
    if d.queue == [] then d else Finish(hits, RunOne(hits, d))
  }

  /** Waiting for the event of a slot's read. */
  function WaitFor(hits: seq<bool>, d: Device, slot: nat): Device
    decreases |d.queue|
  {
    if ReadFlag(slot) in d.queue then WaitFor(hits, RunOne(hits, d), slot) else d
  }

  /** The kernels of the queue go on where the last one stopped, up to block `end`. */
  predicate Consecutive(queue: seq<Cmd>, from: nat, end: nat)
    decreases |queue|
  {
    if queue == [] then from == end
    else
      match queue[0]
      case Launch(a, b) => a == from <= b && Consecutive(queue[1..], b, end)
      case ReadFlag(_) => Consecutive(queue[1..], from, end)
  }

  /** The flag tells of the blocks launched so far, and the queue leads on to block `end`. */
  predicate Sound(hits: seq<bool>, d: Device, end: nat) {
    |d.slots| == 2 && (d.flag <==> AnyHit(hits, 0, d.launched)) && Consecutive(d.queue, d.launched, end)
  }

  /** What a slot will hold when the queue has run. */
  function Due(hits: seq<bool>, d: Device, slot: nat): bool
    requires |d.slots| == 2 && slot < 2
  {
    FinishKeepsShape(hits, d);
    Finish(hits, d).slots[slot]
  }

  lemma {:induction false} FinishKeepsShape(hits: seq<bool>, d: Device)
    requires |d.slots| == 2
    ensures |Finish(hits, d).slots| == 2 && Finish(hits, d).queue == []
    decreases |d.queue|
  {
    if d.queue != [] { FinishKeepsShape(hits, RunOne(hits, d)); }
  }

  lemma RunOneSound(hits: seq<bool>, d: Device, end: nat)
    requires Sound(hits, d, end) && d.queue != []
    ensures Sound(hits, RunOne(hits, d), end)
  {
    if d.queue[0].Launch? {
      var (from, to) := (d.queue[0].from, d.queue[0].to);
      assert AnyHit(hits, 0, to) <==> AnyHit(hits, 0, from) || AnyHit(hits, from, to);
    }
  }

  lemma {:induction false} RunSomeSound(hits: seq<bool>, d: Device, n: nat, end: nat)
    requires Sound(hits, d, end)
    ensures Sound(hits, RunSome(hits, d, n), end)
    ensures forall slot :: 0 <= slot < 2 ==> Due(hits, RunSome(hits, d, n), slot) == Due(hits, d, slot)
    ensures forall c :: c in RunSome(hits, d, n).queue ==> c in d.queue
    decreases n
  {
    if n > 0 && d.queue != [] {
      RunOneSound(hits, d, end);
      RunSomeSound(hits, RunOne(hits, d), n - 1, end);
    }
  }

  lemma {:induction false} WaitForSound(hits: seq<bool>, d: Device, slot: nat, end: nat)
    requires Sound(hits, d, end)
    ensures var d' := WaitFor(hits, d, slot);
            && Sound(hits, d', end) && ReadFlag(slot) !in d'.queue
            && (forall s :: 0 <= s < 2 ==> Due(hits, d', s) == Due(hits, d, s))
            && (forall c :: c in d'.queue ==> c in d.queue)
    decreases |d.queue|
  {
    if ReadFlag(slot) in d.queue {
      RunOneSound(hits, d, end);
      WaitForSound(hits, RunOne(hits, d), slot, end);
    }
  }

  /** Without a pending read a slot holds already what it will. */
  lemma {:induction false} NoReadNoChange(hits: seq<bool>, d: Device, slot: nat)
    requires |d.slots| == 2 && slot < 2 && ReadFlag(slot) !in d.queue
    ensures Due(hits, d, slot) == d.slots[slot]
    decreases |d.queue|
  {
    if d.queue != [] { NoReadNoChange(hits, RunOne(hits, d), slot); }
  }

  /** The host clears `slot`, and enqueues the next kernel and a read of the flag into it. */
  function Enqueue(d: Device, from: nat, to: nat, slot: nat): Device
    requires |d.slots| == 2 && slot < 2
  {
    d.(queue := d.queue + [Launch(from, to), ReadFlag(slot)], slots := d.slots[slot := false])
  }

  lemma {:induction false} ConsecutiveMore(queue: seq<Cmd>, from: nat, mid: nat, to: nat, slot: nat)
    requires Consecutive(queue, from, mid) && mid <= to
    ensures Consecutive(queue + [Launch(mid, to), ReadFlag(slot)], from, to)
    decreases |queue|
  {
    var more := queue + [Launch(mid, to), ReadFlag(slot)];
    if queue == [] {
      assert more[1..] == [ReadFlag(slot)] && more[1..][1..] == [];
    } else {
      assert more[1..] == queue[1..] + [Launch(mid, to), ReadFlag(slot)];
      match queue[0]
      case Launch(a, b) => ConsecutiveMore(queue[1..], b, mid, to, slot);
      case ReadFlag(_) => ConsecutiveMore(queue[1..], from, mid, to, slot);
    }
  }

  /** The new read will find the hits of all blocks up to `to`; the other slot is not affected, whenever
      the device gets there. */
  lemma {:induction false} EnqueueDue(hits: seq<bool>, d: Device, from: nat, to: nat, slot: nat)
    requires Sound(hits, d, from) && from <= to && slot < 2
    ensures Sound(hits, Enqueue(d, from, to, slot), to)
    ensures Due(hits, Enqueue(d, from, to, slot), slot) <==> AnyHit(hits, 0, to)
    ensures Due(hits, Enqueue(d, from, to, slot), 1 - slot) == Due(hits, d, 1 - slot)
    decreases |d.queue|
  {
    ConsecutiveMore(d.queue, d.launched, from, to, slot);
    var e := Enqueue(d, from, to, slot);
    if d.queue == [] {
      assert e.queue == [Launch(from, to), ReadFlag(slot)];
      var e1 := RunOne(hits, e);
      var e2 := RunOne(hits, e1);
      RunOneSound(hits, e, to);
      assert e2.queue == [];
      assert Finish(hits, e) == Finish(hits, e1) == Finish(hits, e2) == e2;
    } else {
      RunOneSound(hits, d, from);
      EnqueueDue(hits, RunOne(hits, d), from, to, slot);
      RunEarlier(hits, d, from, to, slot);
    }
  }

  /** Clearing the slot before or after the oldest command runs makes no difference in the end, because a read
      into the slot follows. */
  lemma RunEarlier(hits: seq<bool>, d: Device, from: nat, to: nat, slot: nat)
    requires |d.slots| == 2 && slot < 2 && d.queue != []
    ensures Finish(hits, Enqueue(d, from, to, slot)) == Finish(hits, Enqueue(RunOne(hits, d), from, to, slot))
  {
    var (x, y) := (RunOne(hits, Enqueue(d, from, to, slot)), Enqueue(RunOne(hits, d), from, to, slot));
    assert x.queue == y.queue == d.queue[1..] + [Launch(from, to), ReadFlag(slot)];
    SlotOverwritten(hits, x, y, slot);
  }

  lemma {:induction false} SlotOverwritten(hits: seq<bool>, x: Device, y: Device, slot: nat)
    requires |x.slots| == |y.slots| == 2 && slot < 2 && ReadFlag(slot) in x.queue
    requires x.queue == y.queue && x.flag == y.flag && x.launched == y.launched
             && x.slots[1 - slot] == y.slots[1 - slot]
    ensures Finish(hits, x) == Finish(hits, y)
    decreases |x.queue|
  {
    var (x', y') := (RunOne(hits, x), RunOne(hits, y));
    if x.queue[0] == ReadFlag(slot) {
      assert x' == y';
    } else {
      assert ReadFlag(slot) in x'.queue;
      SlotOverwritten(hits, x', y', slot);
    }
  }

  /** Which driver calls fail and when the scan is cancelled, by the first block of the batch; `pace` is how many
      commands the device runs meanwhile. */
  datatype Surroundings = Surroundings(
    cancelled: nat -> bool,
    launchFails: nat -> bool,
    readFails: nat -> bool,
    waitFails: nat -> bool,
    pace: nat -> nat)

  predicate FailsAt(w: Surroundings, mb: nat) {
    w.cancelled(mb) || w.launchFails(mb) || w.readFails(mb) || w.waitFails(mb)
  }

  // ------------------------------------------------------------------------------------------
  // What is counted

  /** The end of the batch that holds block `b`. */
  function BatchEnd(b: nat, macroBatch: nat, blocks: nat): int
    requires macroBatch > 0
  {
    Min(blocks, (b / macroBatch + 1) * macroBatch)
  }

  /** How many blocks are counted before the host goes on from block `mb`: all but the last batch before it. */
  function CountedBefore(mb: nat, macroBatch: nat): nat
    requires macroBatch > 0
  {
    if mb == 0 then 0 else (mb - 1) / macroBatch * macroBatch
  }

  /** The batch counted last starts at `counted` and ends at `mb`. */
  predicate AtBatch(counted: nat, mb: nat, macroBatch: nat, blocks: nat)
    requires macroBatch > 0
  {
    counted % macroBatch == 0 && counted < mb && mb == Min(blocks, counted + macroBatch)
  }

  lemma CountOfBatch(counted: nat, mb: nat, macroBatch: nat, blocks: nat)
    requires macroBatch > 0 && AtBatch(counted, mb, macroBatch, blocks)
    ensures CountedBefore(mb, macroBatch) == counted
    ensures forall b: nat :: counted <= b < mb ==> BatchEnd(b, macroBatch, blocks) == mb
  {
    var k := counted / macroBatch;
    assert counted == macroBatch * k;
    forall b: nat | counted <= b < mb
      ensures b / macroBatch == k
    {
      DivUnique(b, macroBatch, k, b - counted);
    }
    MulDistributes(macroBatch, k, 1);
  }

  lemma NextBatch(counted: nat, mb: nat, macroBatch: nat, blocks: nat)
    requires macroBatch > 0 && AtBatch(counted, mb, macroBatch, blocks) && mb < blocks
    ensures mb % macroBatch == 0
  {
    var k := counted / macroBatch;
    assert counted == macroBatch * k;
    MulDistributes(macroBatch, k, 1);
    DivUnique(mb, macroBatch, k + 1, 0);
  }

  /** The first hit, if it lies in the batch counted last, is where the count ends. */
  lemma FirstHitInBatch(hits: seq<bool>, h: nat, counted: nat, mb: nat, macroBatch: nat)
    requires macroBatch > 0 && AtBatch(counted, mb, macroBatch, |hits|)
    requires !AnyHit(hits, 0, counted) && AnyHit(hits, 0, mb)
    requires h < |hits| && hits[h] && !AnyHit(hits, 0, h)
    ensures BatchEnd(h, macroBatch, |hits|) == mb
  {
    CountOfBatch(counted, mb, macroBatch, |hits|);
  }

  /** The host between two batches: the launch in slot `prev` covers the last `batch` of `mb0` blocks, and the
      blocks before it have been counted and have no hit. */
  ghost predicate BetweenBatches(hits: seq<bool>, d: Device, mb0: nat, slot: nat, inFlight: bool, batch: nat,
                                 counted: nat) {
    && slot < 2 && mb0 <= |hits| && Sound(hits, d, mb0)
    && counted + batch == mb0 && !AnyHit(hits, 0, counted)
    && ReadFlag(slot) !in d.queue
    && (inFlight ==> (Due(hits, d, 1 - slot) <==> AnyHit(hits, 0, mb0)))
    && (!inFlight ==> mb0 == 0 && d.queue == [])
  }

  lemma Begins(hits: seq<bool>)
    ensures BetweenBatches(hits, Device([], false, 0, [false, false]), 0, 0, false, 0, 0)
  {
  }

  /** One batch: enqueue the next launch, let the device run, and look at the launch before. */
  method ScanBatch(hits: seq<bool>, w: Surroundings, macroBatch: nat, d: Device, mb0: nat, slot: nat, inFlight: bool,
                   prevBatch: nat, ghost counted: nat)
    returns (ok: bool, d': Device, batch: nat, found: bool)
    requires macroBatch > 0 && mb0 < |hits| && BetweenBatches(hits, d, mb0, slot, inFlight, prevBatch, counted)
    ensures !ok ==> FailsAt(w, mb0)
    ensures ok ==> 0 < batch && mb0 + batch == Min(|hits|, mb0 + macroBatch)
    ensures ok && inFlight ==> (found <==> AnyHit(hits, 0, mb0))
    ensures ok && !inFlight ==> !found
    ensures ok && !found ==> BetweenBatches(hits, d', mb0 + batch, 1 - slot, true, batch, mb0)
  {
    found, d', batch := false, d, 0;
    if w.cancelled(mb0) { return false, d, 0, false; }
    batch := if mb0 + macroBatch > |hits| then |hits| - mb0 else macroBatch;
    if w.launchFails(mb0) { return false, d, batch, false; }
    if w.readFails(mb0) { return false, d.(queue := d.queue + [Launch(mb0, mb0 + batch)]), batch, false; }
    var end := mb0 + batch;
    hide Due, Finish, RunSome, WaitFor, Sound, AnyHit;
    EnqueueDue(hits, d, mb0, end, slot);
    assert |d.slots| == 2 by { SoundShape(hits, d, mb0); }
    d' := Enqueue(d, mb0, end, slot);
    RunSomeSound(hits, d', w.pace(2 * mb0), end);
    d' := RunSome(hits, d', w.pace(2 * mb0));
    if inFlight {
      if w.waitFails(mb0) { return false, d', batch, false; }
      WaitForSound(hits, d', 1 - slot, end);
      d' := WaitFor(hits, d', 1 - slot);
      SoundShape(hits, d', end);
      NoReadNoChange(hits, d', 1 - slot);
      found := d'.slots[1 - slot];
      RunSomeSound(hits, d', w.pace(2 * mb0 + 1), end);
      d' := RunSome(hits, d', w.pace(2 * mb0 + 1));
    } else {
      NothingAtFirst(hits);
    }
    ok := true;
  }

  lemma SoundShape(hits: seq<bool>, d: Device, end: nat)
    requires Sound(hits, d, end)
    ensures |d.slots| == 2
  {
  }

  lemma NothingAtFirst(hits: seq<bool>)
    ensures !AnyHit(hits, 0, 0)
  {
  }

  /** `scan_for_share` of the OpenCL backend. However fast the device is, a scan that succeeds reports a hit
      exactly when some macro block has one, without a hit it has counted every block once, and it always
      returns with the queue empty, so no read lands later. */
  method ScanMacroBlocks(hits: seq<bool>, w: Surroundings, macroBatch: nat, tilesPerMacro: nat)
    returns (ok: bool, found: bool, tiles: nat, d: Device)
    requires macroBatch > 0
    ensures ok ==> (found <==> AnyHit(hits, 0, |hits|))
    ensures ok && !found ==> tiles == |hits| * tilesPerMacro
    ensures ok && found ==>
      forall h: nat :: h < |hits| && hits[h] && !AnyHit(hits, 0, h) ==>
        tiles == BatchEnd(h, macroBatch, |hits|) * tilesPerMacro
    ensures !ok ==>
      exists mb: nat :: FailsAt(w, mb) && mb <= |hits| && tiles == CountedBefore(mb, macroBatch) * tilesPerMacro
    ensures d.queue == []
  {
    d := Device([], false, 0, [false, false]);
    var mb0: nat, slot: nat, batchInFlight: nat := 0, 0, 0;
    var inFlight := false;
    found, tiles := false, 0;
    ghost var counted: nat := 0;
    Begins(hits);
    hide BetweenBatches, AnyHit, BatchEnd, CountedBefore;
    while mb0 < |hits|
      invariant mb0 <= |hits| && counted + batchInFlight == mb0 && tiles == counted * tilesPerMacro
      invariant !found && BetweenBatches(hits, d, mb0, slot, inFlight, batchInFlight, counted)
      invariant if inFlight then AtBatch(counted, mb0, macroBatch, |hits|) else counted == mb0 == 0
    {
      NowCounted(inFlight, counted, mb0, macroBatch, |hits|);
      NothingCounted(hits, d, mb0, slot, inFlight, batchInFlight, counted);
      var good, next, batch, hit := ScanBatch(hits, w, macroBatch, d, mb0, slot, inFlight, batchInFlight, counted);
      d := next;
      if !good {
        d := Drained(hits, d);
        return false, false, tiles, d;
      }
      tiles := tiles + batchInFlight * tilesPerMacro;
      MulDistributes(tilesPerMacro, counted, batchInFlight);
      if hit {
        HitStays(hits, mb0);
        forall h: nat | h < |hits| && hits[h] && !AnyHit(hits, 0, h)
          ensures tiles == BatchEnd(h, macroBatch, |hits|) * tilesPerMacro
        {
          FirstHitInBatch(hits, h, counted, mb0, macroBatch);
        }
        d := Drained(hits, d);
        return true, true, tiles, d;
      }
      counted, batchInFlight, inFlight := mb0, batch, true;
      mb0, slot := mb0 + batch, 1 - slot;
    }
    NowCounted(inFlight, counted, mb0, macroBatch, |hits|);
    NothingCounted(hits, d, mb0, slot, inFlight, batchInFlight, counted);
    if inFlight {
      if w.waitFails(mb0) {
        d := Drained(hits, d);
        return false, false, tiles, d;
      }
      found, d := LastVerdict(hits, d, mb0, slot, batchInFlight, counted);
      tiles := tiles + batchInFlight * tilesPerMacro;
      MulDistributes(tilesPerMacro, counted, batchInFlight);
      forall h: nat | found && h < |hits| && hits[h] && !AnyHit(hits, 0, h)
        ensures tiles == BatchEnd(h, macroBatch, |hits|) * tilesPerMacro
      {
        FirstHitInBatch(hits, h, counted, mb0, macroBatch);
      }
    } else {
      NothingScanned(hits, d, slot, batchInFlight, counted);
    }
    d := Drained(hits, d);
    ok := true;
  }

  /** Where the count stands when the host goes on from block `mb`. */
  lemma NowCounted(inFlight: bool, counted: nat, mb: nat, macroBatch: nat, blocks: nat)
    requires macroBatch > 0 && if inFlight then AtBatch(counted, mb, macroBatch, blocks) else counted == mb == 0
    ensures CountedBefore(mb, macroBatch) == counted
    ensures mb < blocks ==> mb % macroBatch == 0
  {
    if inFlight {
      CountOfBatch(counted, mb, macroBatch, blocks);
      if mb < blocks { NextBatch(counted, mb, macroBatch, blocks); }
    }
  }

  lemma NothingCounted(hits: seq<bool>, d: Device, mb: nat, slot: nat, inFlight: bool, batch: nat, counted: nat)
    requires BetweenBatches(hits, d, mb, slot, inFlight, batch, counted)
    ensures !AnyHit(hits, 0, counted)
  {
  }

  method Drained(hits: seq<bool>, d: Device) returns (d': Device)
    ensures d'.queue == []
  {
    d' := d;
    while d'.queue != []
      decreases |d'.queue|
    {
      d' := RunOne(hits, d');
    }
  }

  /** The wait for the last launch. */
  method LastVerdict(hits: seq<bool>, d: Device, mb0: nat, slot: nat, batch: nat, ghost counted: nat)
    returns (found: bool, d': Device)
    requires BetweenBatches(hits, d, mb0, slot, true, batch, counted)
    ensures found <==> AnyHit(hits, 0, mb0)
  {
    WaitForSound(hits, d, 1 - slot, mb0);
    hide Due, AnyHit, WaitFor;
    d' := WaitFor(hits, d, 1 - slot);
    NoReadNoChange(hits, d', 1 - slot);
    found := d'.slots[1 - slot];
  }

  lemma HitStays(hits: seq<bool>, mb0: nat)
    requires mb0 <= |hits|
    ensures AnyHit(hits, 0, mb0) ==> AnyHit(hits, 0, |hits|)
  {
  }

  lemma NothingScanned(hits: seq<bool>, d: Device, slot: nat, batch: nat, counted: nat)
    requires BetweenBatches(hits, d, |hits|, slot, false, batch, counted)
    ensures !AnyHit(hits, 0, |hits|) && |hits| == 0
  {
  }
}
