/** What a pipelined scan has counted when it reports a hit. */
module ScanCounts {
  import opened ScanPipeline

  /** A panel below `n` has a hit. */
  ghost predicate HitBelow(job: Job, n: nat) {
    exists j: nat :: j < n && job.hit(Output(j))
  }

  /** Some jackpot kernel that has started has a hit: only then can the flag be up. */
  ghost predicate HitStarted(job: Job, d: Device) {
    exists j: nat :: Jackpot(j) in d.started && job.hit(Output(j))
  }

  ghost predicate FlagsFromStarted(job: Job, d: Device) {
    && (d.flag ==> HitStarted(job, d))
    && (forall x :: x in d.foundHost && d.foundHost[x] ==> HitStarted(job, d))
  }

  /** A host that has found a hit has looked at panel i - 2 last, counted the panels up to it, and started panels up
      to i - 1; the panels before have none. */
  ghost predicate FoundRight(job: Job, h: Host) {
    && (h.pc != Returned && h.found ==> h.i >= 2 && NoHitBelow(job, h.i - 2) && HitBelow(job, h.i))
    && (h.pc == Returned && h.ok && h.found ==> HitCounted(job, h.scanned))
  }

  /** The count of the panels up to one before, or up to, the first hit. */
  ghost predicate HitCounted(job: Job, scanned: nat) {
    exists e: nat :: CountsTo(job, scanned, e)
  }

  ghost predicate CountsTo(job: Job, scanned: nat, e: nat) {
    1 <= e <= |job.tiles| && scanned == Sum(job.tiles[..e]) && NoHitBelow(job, e - 1) && HitBelow(job, e + 1)
  }

  ghost predicate CountInv(job: Job, s: System) {
    FlagsFromStarted(job, s.d) && FoundRight(job, s.h)
  }

  // ------------------------------------------------------------------------------------------
  // The device

  lemma StartKeepsFlags(job: Job, d: Device, c: Cmd)
    requires FlagsFromStarted(job, d)
    ensures FlagsFromStarted(job, StartCmd(d, c))
  {
    hide Slot;
    if j: nat :| Jackpot(j) in d.started && job.hit(Output(j)) {
      assert Jackpot(j) in StartCmd(d, c).started;
    }
  }

  lemma RaiseKeepsFlags(job: Job, d: Device, j: nat)
    requires DeviceInv(job, d) && FlagsFromStarted(job, d) && MayRaise(job, d, j)
    ensures FlagsFromStarted(job, Raise(d))
  {
    JackpotReadsItsPanel(d, j);
    hide DeviceInv, Slot;
    assert Jackpot(j) in d.started && job.hit(Output(j));
    assert HitStarted(job, Raise(d));
  }

  lemma CompleteKeepsFlags(job: Job, d: Device, c: Cmd)
    requires DeviceInv(job, d) && FlagsFromStarted(job, d) && Runs(d, c)
    ensures Slot(c.panel) in d.buf && FlagsFromStarted(job, Complete(job, d, c))
  {
    assert Slot(c.panel) in d.buf;
    if c.Jackpot? {
      JackpotReadsItsPanel(d, c.panel);
      assert Jackpot(c.panel) in d.started;
    }
    hide DeviceInv, Slot;
    var d' := Complete(job, d, c);
    if HitStarted(job, d) {
      var j: nat :| Jackpot(j) in d.started && job.hit(Output(j));
      assert Jackpot(j) in d'.started;
    }
  }

  // ------------------------------------------------------------------------------------------
  // The host

  /** While the loop runs, started jackpots are of panels up to the current one. */
  lemma StartedUpTo(job: Job, h: Host, d: Device)
    requires Inv(job, h, d) && HostRuns(h) && HitStarted(job, d)
    ensures HitBelow(job, h.i + 1) && HitBelow(job, |job.tiles|)
  {
    var j: nat :| Jackpot(j) in d.started && job.hit(Output(j));
    hide BuffersHold, SeenRight, VerdictsHold, FlagsCaused, Slots, HostRight, ConsumedRead;
    assert Jackpot(j) in d.waits && Issued(h, Jackpot(j)) && Jackpot(j).panel < |job.tiles|;
  }

  lemma StartedInScan(job: Job, d: Device)
    requires DeviceInv(job, d) && HitStarted(job, d)
    ensures HitBelow(job, |job.tiles|)
  {
    var j: nat :| Jackpot(j) in d.started && job.hit(Output(j));
    hide BuffersHold, SeenRight, VerdictsHold, FlagsCaused;
    assert Jackpot(j) in d.waits && Jackpot(j).panel < |job.tiles|;
  }

  lemma WaitKeepsFound(job: Job, h: Host, d: Device, good: bool)
    requires Inv(job, h, d) && FlagsFromStarted(job, d) && FoundRight(job, h) && HostReady(h, d) && h.pc == Wait
    ensures FoundRight(job, HostStep(job, h, d.foundHost, good))
  {
    if h.i > 0 && d.foundHost[1 - Slot(h.i)] {
      StartedUpTo(job, h, d);
    }
    hide DeviceInv, Slots, Agree, ConsumedRead, HostReady, Sum, HitBelow, NoHitBelow, FlagsFromStarted, SomeHit;
  }

  lemma DrainKeepsFound(job: Job, h: Host, d: Device, good: bool)
    requires Inv(job, h, d) && FlagsFromStarted(job, d) && FoundRight(job, h) && HostReady(h, d) && h.pc == Drain
    ensures FoundRight(job, HostStep(job, h, d.foundHost, good))
  {
    if h.ok && !h.found {
      LastFound(job, h, d, good);
    } else if h.ok {
      FoundBefore(job, h);
    }
    hide DeviceInv, Slots, Agree, ConsumedRead, HostReady, HostRight, Sum, HitCounted;
  }

  /** A hit seen in the loop. */
  lemma FoundBefore(job: Job, h: Host)
    requires HostRight(job, h) && FoundRight(job, h) && h.pc == Drain && h.found
    ensures HitCounted(job, h.scanned)
  {
    hide NoHitBelow, HitBelow, Sum;
    assert CountsTo(job, h.scanned, h.i - 1);
  }

  /** A hit seen after the loop. */
  lemma LastFound(job: Job, h: Host, d: Device, good: bool)
    requires Inv(job, h, d) && FlagsFromStarted(job, d) && HostReady(h, d) && h.pc == Drain && h.ok && !h.found
    ensures var h' := HostStep(job, h, d.foundHost, good); h'.found ==> HitCounted(job, h'.scanned)
  {
    var n := |job.tiles|;
    var h' := HostStep(job, h, d.foundHost, good);
    if h'.found {
      StartedInScan(job, d);
      OneMore(job, h.scanned, n - 1);
      assert job.tiles[..n] == job.tiles;
      hide DeviceInv, Slots, Agree, ConsumedRead, HostReady, Sum, NoHitBelow;
      assert CountsTo(job, h'.scanned, n);
    }
  }

  lemma HostKeepsFound(job: Job, h: Host, d: Device, good: bool)
    requires Inv(job, h, d) && FlagsFromStarted(job, d) && FoundRight(job, h) && HostReady(h, d)
    ensures FoundRight(job, HostStep(job, h, d.foundHost, good))
  {
    match h.pc
    case Wait => WaitKeepsFound(job, h, d, good);
    case Drain => DrainKeepsFound(job, h, d, good);
    case _ => { hide DeviceInv, Slots, Agree, HostReady, NoHitBelow, HitBelow, Sum, SomeHit, HitCounted; }
  }

  // ------------------------------------------------------------------------------------------
  // Runs

  lemma ApplyKeepsCount(job: Job, s: System, act: Action)
    requires Inv(job, s.h, s.d) && CountInv(job, s)
    ensures CountInv(job, Apply(job, s, act))
  {
    hide HostRight, Slots, Agree;
    match act
    case HostAct(good) =>
      if HostReady(s.h, s.d) {
        HostKeepsFound(job, s.h, s.d, good);
        hide HostStep, HostReady, DeviceInv;
      }
    case StartAct(c) => if MayStart(s.d, c) { StartKeepsFlags(job, s.d, c); }
    case RaiseAct(j) => if MayRaise(job, s.d, j) { RaiseKeepsFlags(job, s.d, j); }
    case CompleteAct(c) => if Runs(s.d, c) { CompleteKeepsFlags(job, s.d, c); }
  }

  lemma {:induction false} RunKeepsCount(job: Job, acts: seq<Action>)
    requires |job.tiles| > 0
    ensures CountInv(job, Run(job, acts))
  {
    if acts != [] {
      RunKeepsCount(job, acts[..|acts| - 1]);
      hide Inv, CountInv, Apply;
      ApplyKeepsCount(job, Run(job, acts[..|acts| - 1]), acts[|acts| - 1]);
    }
  }

  /** Panel `f` is the first with a hit. */
  ghost predicate FirstHit(job: Job, f: nat) {
    f < |job.tiles| && job.hit(Output(f)) && NoHitBelow(job, f)
  }

  /** A scan that succeeds with a hit has counted the panels up to and with the first hit; or, if the device ran that
      panel's jackpot before the host looked at the one before, only those before it, of which there are some. */
  lemma HitIsCounted(job: Job, acts: seq<Action>, f: nat)
    requires |job.tiles| > 0 && FirstHit(job, f)
    requires var h := Run(job, acts).h; h.pc == Returned && h.ok
    ensures var h := Run(job, acts).h;
            && h.found
            && (h.scanned == Sum(job.tiles[..f + 1]) || (f > 0 && h.scanned == Sum(job.tiles[..f])))
  {
    ScanReportsHits(job, acts);
    RunKeepsCount(job, acts);
    assert SomeHit(job);
    hide Inv, Run, Sum, FirstHit;
    CountsFirst(job, Run(job, acts).h.scanned, f);
  }

  lemma CountsFirst(job: Job, scanned: nat, f: nat)
    requires HitCounted(job, scanned) && FirstHit(job, f)
    ensures scanned == Sum(job.tiles[..f + 1]) || (f > 0 && scanned == Sum(job.tiles[..f]))
  {
    hide Sum;
    var e: nat :| CountsTo(job, scanned, e);
    var j: nat :| j < e + 1 && job.hit(Output(j));
  }
}
