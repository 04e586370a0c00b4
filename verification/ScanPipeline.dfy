/**
 The double-buffered scan on an out-of-order device queue. The host enqueues for every panel a GEMM,
 a jackpot kernel and a read of the found flag; the device may run any enqueued command whose event
 dependency has completed. What a command waits for is taken from the host's event slots, as the
 host does.
 */
module ScanPipeline {
  import opened Wrappers

  datatype Cmd = Gemm(panel: nat) | Jackpot(panel: nat) | Read(panel: nat)

  /** What one of the two tile buffers holds: nothing yet, a GEMM's output in the making, or one. */
  datatype Content = Unwritten | Partial(panel: nat) | Output(panel: nat)

  /** The panels' tile counts, and which buffer contents the jackpot kernel answers with a hit. */
  datatype Job = Job(tiles: seq<nat>, hit: Content -> bool)

  function Slot(i: nat): nat { i % 2 }

  function Sum(s: seq<nat>): nat { if s == [] then 0 else Sum(s[..|s| - 1]) + s[|s| - 1] }

  // ------------------------------------------------------------------------------------------
  // The device

  /** The commands given to the device with what each waits for, the buffers and the found flag;
      `foundHost` is the host memory its reads write, `seen` what each jackpot kernel judged. */
  datatype Device = Device(
    waits: map<Cmd, Option<Cmd>>,
    started: set<Cmd>,
    done: set<Cmd>,
    buf: map<nat, Content>,
    flag: bool,
    foundHost: map<nat, bool>,
    seen: map<nat, Content>)

  function IdleDevice(): Device {
    Device(map[], {}, {}, map[0 := Unwritten, 1 := Unwritten], false, map[0 := false, 1 := false], map[])
  }

  predicate Shaped(d: Device) {
    0 in d.buf && 1 in d.buf && 0 in d.foundHost && 1 in d.foundHost
  }

  predicate MayStart(d: Device, c: Cmd) {
    c in d.waits && c !in d.started && (d.waits[c].None? || d.waits[c].value in d.done)
  }

  predicate Runs(d: Device, c: Cmd) { c in d.started && c !in d.done }

  function StartCmd(d: Device, c: Cmd): Device {
    var d' := d.(started := d.started + {c});
    if c.Gemm? then d'.(buf := d.buf[Slot(c.panel) := Partial(c.panel)]) else d'
  }

  /** A jackpot kernel judges what is in its buffer; a flag once raised stays. */
  function Complete(job: Job, d: Device, c: Cmd): Device
    requires Slot(c.panel) in d.buf
  {
    var d' := d.(done := d.done + {c});
    match c
    case Gemm(j) => d'.(buf := d.buf[Slot(j) := Output(j)])
    case Jackpot(j) => d'.(flag := d.flag || job.hit(d.buf[Slot(j)]), seen := d.seen[j := d.buf[Slot(j)]])
    case Read(j) => d'.(foundHost := d.foundHost[Slot(j) := d.flag])
  }

  /** A running jackpot kernel may raise the flag before it completes. */
  predicate MayRaise(job: Job, d: Device, j: nat) {
    Runs(d, Jackpot(j)) && Slot(j) in d.buf && job.hit(d.buf[Slot(j)])
  }

  function Raise(d: Device): Device { d.(flag := true) }

  /** What each command should wait for: a GEMM for the jackpot that last read its buffer. */
  function After(c: Cmd): Option<Cmd> {
    match c
    case Gemm(j) => if j < 2 then None else Some(Jackpot(j - 2))
    case Jackpot(j) => Some(Gemm(j))
    case Read(j) => Some(Jackpot(j))
  }

  predicate Due(d: Device, c: Cmd) { After(c).Some? ==> After(c).value in d.done }

  /** Every command waits for what it should, and ran only after that. */
  ghost predicate Ordered(d: Device) {
    && (forall c :: c in d.waits ==> d.waits[c] == After(c))
    && (forall c :: c in d.started ==> c in d.waits && Due(d, c))
    && (forall c :: c in d.done ==> c in d.started)
  }

  /** A buffer keeps a panel's output until the GEMM two panels later starts. */
  ghost predicate BuffersHold(d: Device) {
    forall j: nat :: Gemm(j) in d.started && Gemm(j + 2) !in d.started ==>
      Holds(d, j)
  }

  ghost predicate SeenRight(job: Job, d: Device) {
    && (forall j: nat :: Jackpot(j) in d.done ==> j in d.seen && d.seen[j] == Output(j))
    && (forall j: nat :: Jackpot(j) in d.done && job.hit(Output(j)) ==> d.flag)
  }

  ghost predicate SomeHit(job: Job) {
    exists j: nat :: j < |job.tiles| && job.hit(Output(j))
  }

  predicate Shows(d: Device, j: nat) { Slot(j) in d.foundHost && d.foundHost[Slot(j)] }

  /** A host slot that has received a panel's verdict shows its hit. */
  ghost predicate VerdictsHold(job: Job, d: Device) {
    forall j: nat :: Read(j) in d.done && job.hit(Output(j)) ==> Shows(d, j)
  }

  /** No flag is up without cause. */
  ghost predicate FlagsCaused(job: Job, d: Device) {
    && (d.flag ==> SomeHit(job))
    && (forall x :: x in d.foundHost && d.foundHost[x] ==> SomeHit(job))
  }

  ghost predicate DeviceInv(job: Job, d: Device) {
    && Shaped(d)
    && Ordered(d)
    && BuffersHold(d)
    && SeenRight(job, d)
    && VerdictsHold(job, d)
    && FlagsCaused(job, d)
    && (forall c :: c in d.waits ==> c.panel < |job.tiles| && Backed(d, c))
  }

  /** What a command waits for has been enqueued too. */
  predicate Backed(d: Device, c: Cmd) { After(c).Some? ==> After(c).value in d.waits }

  /** The commands of one buffer run in one chain. */
  lemma {:induction false} Chain(d: Device, j: nat, k: nat)
    requires Ordered(d) && Jackpot(j) in d.done && k <= j && Slot(k) == Slot(j)
    ensures Jackpot(k) in d.done && Gemm(k) in d.done
  {
    assert Due(d, Jackpot(j)) && After(Jackpot(j)) == Some(Gemm(j));
    if k < j {
      assert Due(d, Gemm(j)) && After(Gemm(j)) == Some(Jackpot(j - 2));
      Chain(d, j - 2, k);
    }
  }

  /** Of the GEMMs of a buffer before `p`, only the one just before it has not been overwritten. */
  lemma EarlierOverwritten(d: Device, j: nat, p: nat)
    requires Ordered(d) && Due(d, Gemm(p)) && j < p && Slot(j) == Slot(p)
    ensures j + 2 == p || Gemm(j + 2) in d.started
  {
    if j + 2 < p {
      Chain(d, p - 2, j + 2);
    }
  }

  /** No later GEMM of a buffer has started before `p` is done. */
  lemma LaterWaits(d: Device, j: nat, p: nat)
    requires Ordered(d) && Gemm(j) in d.started && p < j && Slot(j) == Slot(p)
    ensures Gemm(p) in d.done
  {
    assert Due(d, Gemm(j));
    Chain(d, j - 2, p);
  }

  predicate Holds(d: Device, j: nat) {
    Slot(j) in d.buf && d.buf[Slot(j)] == if Gemm(j) in d.done then Output(j) else Partial(j)
  }

  /** The GEMM of panel `p` starts or completes: the other panels it shares the buffer with have been
      overwritten already, or have not started. */
  lemma OthersNotLive(d: Device, j: nat, p: nat)
    requires Ordered(d) && Due(d, Gemm(p)) && Gemm(p) !in d.done && j != p && Slot(j) == Slot(p)
    ensures Gemm(j) !in d.started || Gemm(j + 2) in d.started || j + 2 == p
  {
    if j > p {
      if Gemm(j) in d.started { LaterWaits(d, j, p); }
    } else {
      EarlierOverwritten(d, j, p);
    }
  }

  lemma StartKeepsBuffers(d: Device, c: Cmd)
    requires Ordered(d) && BuffersHold(d) && MayStart(d, c)
    ensures BuffersHold(StartCmd(d, c))
  {
    var d' := StartCmd(d, c);
    assert Due(d, c) && c !in d.done;
    hide Ordered, Slot, After;
    forall j: nat | Gemm(j) in d'.started && Gemm(j + 2) !in d'.started
      ensures Holds(d', j)
    {
      if c.Gemm? && c.panel != j && Slot(c.panel) == Slot(j) {
        OthersNotLive(d, j, c.panel);
      }
    }
  }

  lemma CompleteKeepsBuffers(job: Job, d: Device, c: Cmd)
    requires Shaped(d) && Ordered(d) && BuffersHold(d) && Runs(d, c)
    ensures BuffersHold(Complete(job, d, c))
  {
    var d' := Complete(job, d, c);
    assert Due(d, c);
    hide Ordered, Slot, After;
    forall j: nat | Gemm(j) in d'.started && Gemm(j + 2) !in d'.started
      ensures Holds(d', j)
    {
      assert Holds(d, j);
      if c.Gemm? && c.panel != j && Slot(c.panel) == Slot(j) {
        OthersNotLive(d, j, c.panel);
      }
    }
  }

  /** While a jackpot kernel runs, its buffer holds its own panel's output. */
  lemma JackpotReadsItsPanel(d: Device, j: nat)
    requires Ordered(d) && BuffersHold(d) && Runs(d, Jackpot(j))
    ensures Slot(j) in d.buf && d.buf[Slot(j)] == Output(j)
  {
    assert Due(d, Jackpot(j)) && After(Jackpot(j)) == Some(Gemm(j));
    assert After(Gemm(j + 2)) == Some(Jackpot(j));
    assert Gemm(j + 2) in d.started ==> Due(d, Gemm(j + 2));
  }

  lemma StartKeepsDevice(job: Job, d: Device, c: Cmd)
    requires DeviceInv(job, d) && MayStart(d, c)
    ensures DeviceInv(job, StartCmd(d, c))
  {
    StartKeepsBuffers(d, c);
    hide BuffersHold;
  }

  lemma CompleteKeepsSeen(job: Job, d: Device, c: Cmd)
    requires Shaped(d) && SeenRight(job, d)
    requires c.Jackpot? ==> Slot(c.panel) in d.buf && d.buf[Slot(c.panel)] == Output(c.panel)
    ensures Slot(c.panel) in d.buf && SeenRight(job, Complete(job, d, c))
  {
    assert Slot(c.panel) in d.buf;
    hide Slot;
  }

  lemma CompleteKeepsVerdicts(job: Job, d: Device, c: Cmd)
    requires DeviceInv(job, d) && Runs(d, c)
    ensures VerdictsHold(job, Complete(job, d, c))
  {
    assert Slot(c.panel) in d.buf;
    hide BuffersHold, FlagsCaused, Slot;
    var d' := Complete(job, d, c);
    forall j: nat | Read(j) in d'.done && job.hit(Output(j))
      ensures Shows(d', j)
    {
      assert Due(d, Read(j)) && After(Read(j)) == Some(Jackpot(j));
    }
  }

  lemma CompleteKeepsCauses(job: Job, d: Device, c: Cmd)
    requires DeviceInv(job, d) && Runs(d, c)
    ensures FlagsCaused(job, Complete(job, d, c))
  {
    if c.Jackpot? {
      JackpotReadsItsPanel(d, c.panel);
      assert c.panel < |job.tiles|;
      assert job.hit(Output(c.panel)) ==> SomeHit(job);
    }
    assert Slot(c.panel) in d.buf;
    hide BuffersHold, VerdictsHold, SeenRight, Slot, SomeHit, Ordered, Due;
  }

  lemma CompleteKeepsDevice(job: Job, d: Device, c: Cmd)
    requires DeviceInv(job, d) && Runs(d, c)
    ensures DeviceInv(job, Complete(job, d, c))
  {
    CompleteKeepsBuffers(job, d, c);
    if c.Jackpot? { JackpotReadsItsPanel(d, c.panel); }
    CompleteKeepsSeen(job, d, c);
    CompleteKeepsVerdicts(job, d, c);
    CompleteKeepsCauses(job, d, c);
    hide BuffersHold, SeenRight, VerdictsHold, FlagsCaused;
  }

  lemma RaiseKeepsDevice(job: Job, d: Device, j: nat)
    requires DeviceInv(job, d) && MayRaise(job, d, j)
    ensures DeviceInv(job, Raise(d))
  {
    JackpotReadsItsPanel(d, j);
    assert j < |job.tiles| by { assert Jackpot(j).panel < |job.tiles|; }
    assert SomeHit(job);
    hide SomeHit;
  }

  lemma EnqueueKeepsDevice(job: Job, d: Device, c: Cmd)
    requires DeviceInv(job, d) && c.panel < |job.tiles| && Backed(d, c)
    ensures DeviceInv(job, d.(waits := d.waits[c := After(c)]))
  {
    hide After;
  }

  // ------------------------------------------------------------------------------------------
  // The host

  /** Two event slots, for the even and the odd panels. */
  datatype Events = Events(even: Option<Cmd>, odd: Option<Cmd>)
  {
    function At(slot: nat): Option<Cmd> { if slot == 0 then even else odd }
    function With(slot: nat, e: Option<Cmd>): Events { if slot == 0 then this.(even := e) else this.(odd := e) }
  }

  datatype HostPc = EnqueueGemm | EnqueueJackpot | EnqueueRead | Wait | Drain | Returned

  datatype Host = Host(
    pc: HostPc,
    i: nat,
    ok: bool,
    found: bool,
    scanned: nat,
    gemmEv: Events,
    jackpotEv: Events,
    readEv: Events)

  /** A command the host gives to the device, with the event it passes as its wait list. */
  datatype Request = Request(cmd: Cmd, after: Option<Cmd>)

  function FreshHost(): Host {
    var none := Events(None, None);
    Host(EnqueueGemm, 0, true, false, 0, none, none, none)
  }

  function Fail(h: Host): Host { h.(ok := false, pc := Drain) }

  function GemmRequest(h: Host): Request { Request(Gemm(h.i), h.jackpotEv.At(Slot(h.i))) }
  function JackpotRequest(h: Host): Request { Request(Jackpot(h.i), h.gemmEv.At(Slot(h.i))) }
  function ReadRequest(h: Host): Request { Request(Read(h.i), h.jackpotEv.At(Slot(h.i))) }

  /** What the host enqueues in its next step, if the driver takes it. */
  function Asks(job: Job, h: Host): Option<Request> {
    match h.pc
    case EnqueueGemm => if h.i >= |job.tiles| || h.found then None else Some(GemmRequest(h))
    case EnqueueJackpot => Some(JackpotRequest(h))
    case EnqueueRead => Some(ReadRequest(h))
    case _ => None
  }

  /** One step of the host; `good` is false when a driver call fails or the scan is cancelled. */
  function HostStep(job: Job, h: Host, found: map<nat, bool>, good: bool): Host
    requires 0 in found && 1 in found && h.i <= |job.tiles| && |job.tiles| > 0
  {
    var slot := Slot(h.i);
    match h.pc
    case EnqueueGemm =>
      if h.i >= |job.tiles| || h.found then h.(pc := Drain)
      else if !good then Fail(h)
      else
        h.(jackpotEv := h.jackpotEv.With(slot, None), gemmEv := h.gemmEv.With(slot, Some(Gemm(h.i))),
           readEv := h.readEv.With(slot, None), pc := EnqueueJackpot)
    case EnqueueJackpot =>
      if !good then Fail(h) else h.(jackpotEv := h.jackpotEv.With(slot, Some(Jackpot(h.i))), pc := EnqueueRead)
    case EnqueueRead =>
      if !good then Fail(h) else h.(readEv := h.readEv.With(slot, Some(Read(h.i))), pc := Wait)
    case Wait =>
      if h.i == 0 then h.(i := 1, pc := EnqueueGemm)
      else if !good then Fail(h)
      else h.(scanned := h.scanned + job.tiles[h.i - 1], found := found[1 - slot], i := h.i + 1, pc := EnqueueGemm)
    case Drain =>
      if h.ok && !h.found then
        var last := |job.tiles| - 1;
        h.(scanned := h.scanned + job.tiles[last], found := found[Slot(last)], pc := Returned)
      else h.(pc := Returned)
    case Returned => h
  }

  /** The host blocks in `clWaitForEvents` on the other slot's read, and in `clFinish`. */
  predicate HostReady(h: Host, d: Device) {
    match h.pc
    case Wait => h.i == 0 || (var e := h.readEv.At(1 - Slot(h.i)); e.Some? && e.value in d.done)
    case Drain => forall c :: c in d.waits ==> c in d.done
    case _ => true
  }

  predicate HostRuns(h: Host) { h.pc !in {Drain, Returned} }

  /** The commands enqueued so far while the loop runs. */
  predicate Issued(h: Host, c: Cmd) {
    match c
    case Gemm(j) => j < h.i || (j == h.i && h.pc in {EnqueueJackpot, EnqueueRead, Wait})
    case Jackpot(j) => j < h.i || (j == h.i && h.pc in {EnqueueRead, Wait})
    case Read(j) => j < h.i || (j == h.i && h.pc == Wait)
  }

  predicate JackpotSlot(h: Host, j: nat) { h.jackpotEv.At(Slot(j)) == Some(Jackpot(j)) }
  predicate ReadSlot(h: Host, j: nat) { h.readEv.At(Slot(j)) == Some(Read(j)) }

  /** While the loop runs, its event slots hold the latest event of each parity. */
  predicate Slots(h: Host) {
    && (h.i >= 1 ==> JackpotSlot(h, h.i - 1) && ReadSlot(h, h.i - 1))
    && (h.pc == EnqueueGemm && h.i >= 2 ==> JackpotSlot(h, h.i - 2))
    && (h.pc == EnqueueGemm && h.i < 2 ==> h.jackpotEv.At(Slot(h.i)) == None)
    && (h.i == 0 ==> h.jackpotEv.odd == None)
    && (h.pc == EnqueueJackpot ==> h.gemmEv.At(Slot(h.i)) == Some(Gemm(h.i)))
    && (h.pc in {EnqueueRead, Wait} ==> JackpotSlot(h, h.i))
    && (h.pc == Wait ==> ReadSlot(h, h.i))
  }

  function Consumed(h: Host): nat { if h.i == 0 then 0 else h.i - 1 }

  ghost predicate NoHitBelow(job: Job, n: nat) {
    forall j: nat :: j < n ==> !job.hit(Output(j))
  }

  ghost predicate HostRight(job: Job, h: Host) {
    && h.i <= |job.tiles| && |job.tiles| > 0
    && (h.pc in {EnqueueJackpot, EnqueueRead, Wait} ==> h.i < |job.tiles| && !h.found)
    && (HostRuns(h) ==> h.ok)
    && (h.found ==> SomeHit(job))
    && (h.pc != Returned ==> h.scanned == Sum(job.tiles[..Consumed(h)]) && (!h.found ==> NoHitBelow(job, Consumed(h))))
    && (h.pc == Drain && h.ok && !h.found ==> h.i == |job.tiles|)
    && (h.pc == Returned && h.ok && !h.found ==> h.scanned == Sum(job.tiles) && NoHitBelow(job, |job.tiles|))
  }

  ghost predicate Agree(h: Host, d: Device) {
    && (HostRuns(h) ==> forall c :: c in d.waits <==> Issued(h, c))
    && (h.pc == Drain && h.ok ==> forall j: nat :: j < h.i ==> Read(j) in d.waits)
  }

  ghost predicate ConsumedRead(i: nat, done: set<Cmd>) {
    forall j: nat :: Read(j) in done || j + 1 >= i
  }

  ghost predicate Inv(job: Job, h: Host, d: Device) {
    && DeviceInv(job, d)
    && (HostRuns(h) ==> Slots(h))
    && HostRight(job, h)
    && Agree(h, d)
    && ConsumedRead(h.i, d.done)
  }

  /** The event slots give every command the dependency it needs. */
  lemma AsksRightly(job: Job, h: Host, d: Device)
    requires HostRight(job, h) && (HostRuns(h) ==> Slots(h)) && Agree(h, d) && Asks(job, h).Some?
    ensures var r := Asks(job, h).value; r.after == After(r.cmd) && r.cmd.panel < |job.tiles| && Backed(d, r.cmd)
  {
  }

  lemma HostKeepsSlots(job: Job, h: Host, found: map<nat, bool>, good: bool)
    requires HostRight(job, h) && HostRuns(h) && Slots(h) && 0 in found && 1 in found
    ensures HostRuns(HostStep(job, h, found, good)) ==> Slots(HostStep(job, h, found, good))
  {
    hide HostRight;
    assert Slot(h.i) < 2;
    assert Slot(h.i + 1) == 1 - Slot(h.i);
    assert h.i >= 1 ==> Slot(h.i - 1) == 1 - Slot(h.i);
    assert h.i >= 2 ==> Slot(h.i - 2) == Slot(h.i);
    hide Slot;
  }

  /** The verdict the host looks at is that of the panel before, and says whether it hit. */
  lemma VerdictOfPanel(job: Job, h: Host, d: Device)
    requires Inv(job, h, d) && HostReady(h, d) && h.pc == Wait && h.i > 0
    ensures Read(h.i - 1) in d.done && d.foundHost[1 - Slot(h.i)] <== job.hit(Output(h.i - 1))
    ensures d.foundHost[1 - Slot(h.i)] ==> SomeHit(job)
  {
    assert Slot(h.i - 1) == 1 - Slot(h.i);
    hide BuffersHold, SeenRight, Ordered, Agree, HostRight;
  }

  lemma VerdictOfLast(job: Job, h: Host, d: Device)
    requires Inv(job, h, d) && HostReady(h, d) && h.pc == Drain && h.ok && !h.found
    ensures var last := |job.tiles| - 1;
            && (d.foundHost[Slot(last)] <== job.hit(Output(last)))
            && (d.foundHost[Slot(last)] ==> SomeHit(job))
  {
    hide BuffersHold, SeenRight, Ordered;
    assert Read(|job.tiles| - 1) in d.waits;
  }

  /** A consumed panel without a hit extends what is known. */
  lemma OneMore(job: Job, scanned: nat, k: nat)
    requires k < |job.tiles| && scanned == Sum(job.tiles[..k])
    ensures scanned + job.tiles[k] == Sum(job.tiles[..k + 1])
    ensures NoHitBelow(job, k) && !job.hit(Output(k)) ==> NoHitBelow(job, k + 1)
  {
    assert job.tiles[..k + 1][..k] == job.tiles[..k];
  }

  lemma WaitStepRight(job: Job, h: Host, found: map<nat, bool>, good: bool)
    requires HostRight(job, h) && h.pc == Wait && 0 in found && 1 in found
    requires h.i > 0 ==> (found[1 - Slot(h.i)] <== job.hit(Output(h.i - 1)))
    requires h.i > 0 && found[1 - Slot(h.i)] ==> SomeHit(job)
    ensures HostRight(job, HostStep(job, h, found, good))
  {
    if h.i > 0 {
      OneMore(job, h.scanned, Consumed(h));
    }
    hide NoHitBelow, Sum, SomeHit, Slot;
  }

  lemma WaitKeepsRight(job: Job, h: Host, d: Device, good: bool)
    requires Inv(job, h, d) && HostReady(h, d) && h.pc == Wait
    ensures HostRight(job, HostStep(job, h, d.foundHost, good))
  {
    if h.i > 0 {
      VerdictOfPanel(job, h, d);
    }
    hide HostRight, HostStep;
    WaitStepRight(job, h, d.foundHost, good);
  }

  lemma DrainKeepsRight(job: Job, h: Host, d: Device, good: bool)
    requires Inv(job, h, d) && HostReady(h, d) && h.pc == Drain
    ensures HostRight(job, HostStep(job, h, d.foundHost, good))
  {
    if h.ok && !h.found {
      VerdictOfLast(job, h, d);
      OneMore(job, h.scanned, Consumed(h));
      assert job.tiles[..|job.tiles|] == job.tiles;
    }
    hide DeviceInv, Slots, Agree, HostReady, NoHitBelow, Sum, SomeHit, ConsumedRead, Slot;
  }

  lemma HostKeepsRight(job: Job, h: Host, d: Device, good: bool)
    requires Inv(job, h, d) && HostReady(h, d)
    ensures HostRight(job, HostStep(job, h, d.foundHost, good))
  {
    match h.pc
    case Wait => WaitKeepsRight(job, h, d, good);
    case Drain => DrainKeepsRight(job, h, d, good);
    case _ => { hide DeviceInv, Slots, Agree, HostReady, NoHitBelow, Sum, SomeHit; }
  }

  /** One step of the whole: the host's, with what it enqueues. */
  function HostMoves(job: Job, h: Host, d: Device, good: bool): (Host, Device)
    requires 0 in d.foundHost && 1 in d.foundHost && h.i <= |job.tiles| && |job.tiles| > 0
  {
    var asks := Asks(job, h);
    (HostStep(job, h, d.foundHost, good),
     if good && asks.Some? then d.(waits := d.waits[asks.value.cmd := asks.value.after]) else d)
  }

  lemma HostKeepsAgree(job: Job, h: Host, d: Device, good: bool)
    requires Inv(job, h, d) && HostReady(h, d)
    ensures var (h', d') := HostMoves(job, h, d, good); Agree(h', d')
  {
    hide DeviceInv, Slots, HostReady, HostRight, ConsumedRead;
  }

  lemma ConsumedNext(i: nat, i': nat, done: set<Cmd>)
    requires ConsumedRead(i, done) && (i' == i || (i' == i + 1 && (i == 0 || Read(i - 1) in done)))
    ensures ConsumedRead(i', done)
  {
  }

  lemma HostKeepsConsumed(job: Job, h: Host, d: Device, good: bool)
    requires Inv(job, h, d) && HostReady(h, d)
    ensures ConsumedRead(HostStep(job, h, d.foundHost, good).i, d.done)
  {
    if h.pc == Wait && h.i > 0 {
      VerdictOfPanel(job, h, d);
    }
    HostCounts(job, h, d.foundHost, good);
    hide HostReady, HostStep, ConsumedRead, DeviceInv, Slots, Agree;
    ConsumedNext(h.i, HostStep(job, h, d.foundHost, good).i, d.done);
  }

  lemma HostCounts(job: Job, h: Host, found: map<nat, bool>, good: bool)
    requires 0 in found && 1 in found && h.i <= |job.tiles| && |job.tiles| > 0
    ensures HostStep(job, h, found, good).i == if h.pc == Wait && (h.i == 0 || good) then h.i + 1 else h.i
  {
  }

  lemma HostKeepsInv(job: Job, h: Host, d: Device, good: bool)
    requires Inv(job, h, d) && HostReady(h, d)
    ensures var (h', d') := HostMoves(job, h, d, good); Inv(job, h', d')
  {
    HostKeepsRight(job, h, d, good);
    HostKeepsAgree(job, h, d, good);
    HostKeepsConsumed(job, h, d, good);
    if HostRuns(h) {
      HostKeepsSlots(job, h, d.foundHost, good);
    }
    if Asks(job, h).Some? {
      AsksRightly(job, h, d);
      EnqueueKeepsDevice(job, d, Asks(job, h).value.cmd);
    }
    hide Slots, HostRight, Agree, ConsumedRead;
  }

  // ------------------------------------------------------------------------------------------
  // Runs

  datatype System = System(h: Host, d: Device)

  datatype Action = HostAct(good: bool) | StartAct(cmd: Cmd) | RaiseAct(panel: nat) | CompleteAct(cmd: Cmd)

  /** One action; what cannot happen yet changes nothing. */
  function Apply(job: Job, s: System, act: Action): System
    requires Shaped(s.d) && s.h.i <= |job.tiles| && |job.tiles| > 0
  {
    match act
    case HostAct(good) =>
      if HostReady(s.h, s.d) then (var (h, d) := HostMoves(job, s.h, s.d, good); System(h, d)) else s
    case StartAct(c) => if MayStart(s.d, c) then s.(d := StartCmd(s.d, c)) else s
    case RaiseAct(j) => if MayRaise(job, s.d, j) then s.(d := Raise(s.d)) else s
    case CompleteAct(c) =>
      if Runs(s.d, c) then assert Slot(c.panel) in s.d.buf; s.(d := Complete(job, s.d, c)) else s
  }

  lemma ApplyKeepsInv(job: Job, s: System, act: Action)
    requires Inv(job, s.h, s.d)
    ensures Inv(job, Apply(job, s, act).h, Apply(job, s, act).d)
  {
    match act
    case HostAct(good) => if HostReady(s.h, s.d) { HostKeepsInv(job, s.h, s.d, good); }
    case StartAct(c) => if MayStart(s.d, c) { StartKeepsDevice(job, s.d, c); }
    case RaiseAct(j) => if MayRaise(job, s.d, j) { RaiseKeepsDevice(job, s.d, j); }
    case CompleteAct(c) => if Runs(s.d, c) { CompleteKeepsDevice(job, s.d, c); }
    hide DeviceInv, HostRight, Slots;
  }

  lemma StartInv(job: Job)
    requires |job.tiles| > 0
    ensures Inv(job, FreshHost(), IdleDevice())
  {
    assert job.tiles[..0] == [];
  }

  /** The system after a run: any interleaving of the host and the device. */
  function Run(job: Job, acts: seq<Action>): (s: System)
    requires |job.tiles| > 0
    ensures Inv(job, s.h, s.d)
  {
    StartInv(job);
    if acts == [] then System(FreshHost(), IdleDevice())
    else
      var s := Run(job, acts[..|acts| - 1]);
      ApplyKeepsInv(job, s, acts[|acts| - 1]);
      Apply(job, s, acts[|acts| - 1])
  }

  /** In every run each jackpot kernel judges exactly its own panel's output, and while it runs the
      GEMM that will overwrite the buffer has not started. */
  lemma JackpotsJudgeTheirPanel(job: Job, acts: seq<Action>, j: nat)
    requires |job.tiles| > 0
    ensures var d := Run(job, acts).d;
            && (Jackpot(j) in d.done ==> j in d.seen && d.seen[j] == Output(j))
            && (Runs(d, Jackpot(j)) ==> Slot(j) in d.buf && d.buf[Slot(j)] == Output(j) && Gemm(j + 2) !in d.started)
  {
    var d := Run(job, acts).d;
    if Runs(d, Jackpot(j)) {
      JackpotReadsItsPanel(d, j);
      assert After(Gemm(j + 2)) == Some(Jackpot(j));
      assert Gemm(j + 2) in d.started ==> Due(d, Gemm(j + 2));
    }
  }

  /** When the host looks at a found slot, the read of the panel before has filled it and no other read
      that could overwrite it is pending. */
  lemma FoundSlotIsQuiet(job: Job, acts: seq<Action>, k: nat)
    requires |job.tiles| > 0
    requires var s := Run(job, acts); s.h.pc == Wait && s.h.i > 0 && HostReady(s.h, s.d)
    requires Read(k) in Run(job, acts).d.waits && Slot(k) == Slot(Run(job, acts).h.i - 1)
    ensures Read(Run(job, acts).h.i - 1) in Run(job, acts).d.done
    ensures Read(k) in Run(job, acts).d.done
  {
    QuietSlot(job, Run(job, acts).h, Run(job, acts).d, k);
  }

  lemma QuietSlot(job: Job, h: Host, d: Device, k: nat)
    requires Inv(job, h, d) && HostReady(h, d) && h.pc == Wait && h.i > 0
    requires Read(k) in d.waits && Slot(k) == Slot(h.i - 1)
    ensures Read(h.i - 1) in d.done && Read(k) in d.done
  {
    VerdictOfPanel(job, h, d);
    hide DeviceInv, HostRight, Slots, HostReady;
    assert Issued(h, Read(k));
    assert k == h.i - 1 || k < Consumed(h);
  }

  /** A scan that succeeds reports a hit exactly when some panel's output has one; without a hit
      it has counted the tiles of every panel once. */
  lemma ScanReportsHits(job: Job, acts: seq<Action>)
    requires |job.tiles| > 0 && Run(job, acts).h.pc == Returned && Run(job, acts).h.ok
    ensures Run(job, acts).h.found <==> SomeHit(job)
    ensures !Run(job, acts).h.found ==> Run(job, acts).h.scanned == Sum(job.tiles)
  {
    hide DeviceInv, Slots, Agree;
  }

  lemma {:induction false} SomeCommandMoves(job: Job, d: Device, c: Cmd)
    requires DeviceInv(job, d) && c in d.waits && c !in d.done
    ensures exists c' :: c' in d.waits && (MayStart(d, c') || Runs(d, c'))
    decreases c.panel, if c.Gemm? then 0 else if c.Jackpot? then 1 else 2
  {
    hide BuffersHold, SeenRight, VerdictsHold;
    if !MayStart(d, c) && !Runs(d, c) {
      assert After(c).Some? && Backed(d, c);
      SomeCommandMoves(job, d, After(c).value);
    }
  }

  /** Whenever the host is blocked the device can start or complete a command. */
  lemma DeviceServes(job: Job, s: System)
    requires Inv(job, s.h, s.d) && !HostReady(s.h, s.d)
    ensures exists c :: c in s.d.waits && (MayStart(s.d, c) || Runs(s.d, c))
  {
    if s.h.pc == Wait {
      assert Slot(s.h.i - 1) == 1 - Slot(s.h.i);
      assert Issued(s.h, Read(s.h.i - 1));
      SomeCommandMoves(job, s.d, Read(s.h.i - 1));
    } else {
      var c :| c in s.d.waits && c !in s.d.done;
      SomeCommandMoves(job, s.d, c);
    }
  }
}
