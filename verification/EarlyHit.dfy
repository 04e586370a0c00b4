/** A run in which a pipelined scan leaves the panel of its hit out of the count. */
module EarlyHit {
  import opened Wrappers
  import opened ScanPipeline
  import opened ScanEnds

  /** Two panels, of which the second has a hit. */
  function TwoPanels(t0: nat, t1: nat): Job { Job([t0, t1], c => c == Output(1)) }

  predicate Leads(job: Job, s: System, act: Action, s': System) {
    Shaped(s.d) && s.h.i <= |job.tiles| && |job.tiles| > 0 && Apply(job, s, act) == s'
  }

  /** A run goes on as its state does. */
  lemma Follow(job: Job, acts: seq<Action>, act: Action, s: System, s': System)
    requires |job.tiles| > 0 && Run(job, acts) == s && Leads(job, s, act, s')
    ensures Run(job, acts + [act]) == s'
  {
    hide Run, Apply;
    RunMore(job, acts, act);
  }

  lemma DeviceLeads(job: Job, h: Host, d: Device, c: Cmd)
    requires |job.tiles| > 0 && h.i <= |job.tiles| && Shaped(d)
    ensures MayStart(d, c) ==> Leads(job, System(h, d), StartAct(c), System(h, StartCmd(d, c)))
    ensures Shaped(StartCmd(d, c))
    ensures Runs(d, c) ==> Leads(job, System(h, d), CompleteAct(c), System(h, Complete(job, d, c)))
  {
    hide HostMoves, HostReady, MayStart, Runs, Complete, MayRaise;
  }

  // ------------------------------------------------------------------------------------------
  // The host enqueues both panels

  const NONE: Events := Events(None, None)

  /** The host at panel `i`, with what it has enqueued. */
  function HostAt(pc: HostPc, i: nat, gemm: Events, jackpot: Events, read: Events): Host {
    Host(pc, i, true, false, 0, gemm, jackpot, read)
  }

  function Waiting(waits: map<Cmd, Option<Cmd>>): Device { IdleDevice().(waits := waits) }

  /** The states while the host enqueues, before the device has run anything. */
  function Enqueuing(k: nat): System
    requires k <= 7
  {
    var (g0, j0, r0) := (Some(Gemm(0)), Some(Jackpot(0)), Some(Read(0)));
    var (g1, j1, r1) := (Some(Gemm(1)), Some(Jackpot(1)), Some(Read(1)));
    var w1: map<Cmd, Option<Cmd>> := map[Gemm(0) := None];
    var w2 := w1[Jackpot(0) := g0];
    var w3 := w2[Read(0) := j0];
    var w5 := w3[Gemm(1) := None];
    var w6 := w5[Jackpot(1) := g1];
    if k == 0 then System(FreshHost(), IdleDevice())
    else if k == 1 then System(HostAt(EnqueueJackpot, 0, Events(g0, None), NONE, NONE), Waiting(w1))
    else if k == 2 then System(HostAt(EnqueueRead, 0, Events(g0, None), Events(j0, None), NONE), Waiting(w2))
    else if k == 3 then System(HostAt(Wait, 0, Events(g0, None), Events(j0, None), Events(r0, None)), Waiting(w3))
    else if k == 4 then
      System(HostAt(EnqueueGemm, 1, Events(g0, None), Events(j0, None), Events(r0, None)), Waiting(w3))
    else if k == 5 then
      System(HostAt(EnqueueJackpot, 1, Events(g0, g1), Events(j0, None), Events(r0, None)), Waiting(w5))
    else if k == 6 then System(HostAt(EnqueueRead, 1, Events(g0, g1), Events(j0, j1), Events(r0, None)), Waiting(w6))
    else System(HostAt(Wait, 1, Events(g0, g1), Events(j0, j1), Events(r0, r1)), Waiting(w6[Read(1) := j1]))
  }

  lemma EnqueuesNext(t0: nat, t1: nat, k: nat)
    requires k < 7
    ensures Leads(TwoPanels(t0, t1), Enqueuing(k), HostAct(true), Enqueuing(k + 1))
  {
  }

  lemma EnqueuesBoth(t0: nat, t1: nat) returns (acts: seq<Action>)
    ensures Run(TwoPanels(t0, t1), acts) == Enqueuing(7)
  {
    hide Inv;
    acts := [];
    assert Run(TwoPanels(t0, t1), acts) == Enqueuing(0);
    hide Run, Enqueuing, Leads;
    for k := 0 to 7
      invariant Run(TwoPanels(t0, t1), acts) == Enqueuing(k)
    {
      EnqueuesNext(t0, t1, k);
      Follow(TwoPanels(t0, t1), acts, HostAct(true), Enqueuing(k), Enqueuing(k + 1));
      acts := acts + [HostAct(true)];
    }
  }

  // ------------------------------------------------------------------------------------------
  // The device runs both jackpots before the first read

  const ORDER: seq<Cmd> := [Gemm(0), Jackpot(0), Gemm(1), Jackpot(1), Read(0), Read(1)]

  /** The device after the first `n` commands of that order. */
  function DeviceAfter(job: Job, n: nat): (d: Device)
    requires n <= 6
    ensures Shaped(d)
  {
    if n == 0 then Enqueuing(7).d else Complete(job, StartCmd(DeviceAfter(job, n - 1), ORDER[n - 1]), ORDER[n - 1])
  }

  /** The first `n` commands have run, and they alone. */
  predicate Ran(d: Device, n: nat)
    requires n <= 6 && Shaped(d)
  {
    && d.waits == Enqueuing(7).d.waits && d.started == d.done
    && (forall k :: 0 <= k < n ==> ORDER[k] in d.done)
    && (forall k :: n <= k < 6 ==> ORDER[k] !in d.done)
    && (n >= 3 ==> d.buf[1] == Output(1)) && (n >= 4 ==> d.flag) && (n >= 5 ==> d.foundHost[0])
  }

  lemma RunsNext(t0: nat, t1: nat, d: Device, n: nat)
    requires n < 6 && Shaped(d) && Ran(d, n)
    ensures var d' := Complete(TwoPanels(t0, t1), StartCmd(d, ORDER[n]), ORDER[n]); Shaped(d') && Ran(d', n + 1)
  {
    hide Enqueuing;
  }

  lemma {:induction false} DeviceIs(t0: nat, t1: nat, n: nat)
    requires n <= 6
    ensures Ran(DeviceAfter(TwoPanels(t0, t1), n), n)
  {
    hide StartCmd, Complete;
    if n == 0 {
      var d := Enqueuing(7).d;
      assert d.done == {} && d.started == {};
      hide Enqueuing;
      assert Ran(d, 0);
    } else {
      hide Enqueuing;
      DeviceIs(t0, t1, n - 1);
      RunsNext(t0, t1, DeviceAfter(TwoPanels(t0, t1), n - 1), n - 1);
    }
  }

  lemma WaitsFor(n: nat)
    requires n < 6
    ensures var (w, c) := (Enqueuing(7).d.waits, ORDER[n]);
            c in w && (w[c].None? || exists k: nat :: k < n && w[c].value == ORDER[k])
  {
    var w := Enqueuing(7).d.waits;
    assert w[ORDER[1]] == Some(ORDER[0]) && w[ORDER[3]] == Some(ORDER[2]);
    assert w[ORDER[4]] == Some(ORDER[1]) && w[ORDER[5]] == Some(ORDER[3]);
  }

  /** What the next command waits for is done. */
  lemma NextMayStart(t0: nat, t1: nat, n: nat)
    requires n < 6
    ensures var (d, c) := (DeviceAfter(TwoPanels(t0, t1), n), ORDER[n]);
            MayStart(d, c) && Runs(StartCmd(d, c), c)
  {
    hide Enqueuing, DeviceAfter;
    DeviceIs(t0, t1, n);
    WaitsFor(n);
  }

  lemma DeviceGoesOn(t0: nat, t1: nat, acts: seq<Action>, h: Host, n: nat) returns (more: seq<Action>)
    requires n < 6 && h.i <= 2 && Run(TwoPanels(t0, t1), acts) == System(h, DeviceAfter(TwoPanels(t0, t1), n))
    ensures Run(TwoPanels(t0, t1), more) == System(h, DeviceAfter(TwoPanels(t0, t1), n + 1))
  {
    hide Run, Leads, Complete, StartCmd, MayStart, Runs, Inv, Apply, Enqueuing;
    var (job, c) := (TwoPanels(t0, t1), ORDER[n]);
    var d := DeviceAfter(job, n);
    var mid := StartCmd(d, c);
    NextMayStart(t0, t1, n);
    DeviceLeads(job, h, d, c);
    assert DeviceAfter(job, n + 1) == Complete(job, mid, c);
    DeviceLeads(job, h, mid, c);
    hide DeviceAfter;
    Follow(job, acts, StartAct(c), System(h, d), System(h, mid));
    Follow(job, acts + [StartAct(c)], CompleteAct(c), System(h, mid), System(h, Complete(job, mid, c)));
    more := acts + [StartAct(c)] + [CompleteAct(c)];
  }

  // ------------------------------------------------------------------------------------------
  // The host sees the flag at the first panel

  /** The host after it has looked at the first panel, when it leaves the loop, and at its return. */
  function Seen(t0: nat, pc: HostPc): Host {
    Enqueuing(7).h.(pc := pc, i := 2, scanned := t0, found := true)
  }

  lemma HostSees(t0: nat, t1: nat)
    ensures var (job, d) := (TwoPanels(t0, t1), DeviceAfter(TwoPanels(t0, t1), 5));
            && Leads(job, System(Enqueuing(7).h, d), HostAct(true), System(Seen(t0, EnqueueGemm), d))
            && Leads(job, System(Seen(t0, EnqueueGemm), d), HostAct(true), System(Seen(t0, Drain), d))
  {
    DeviceIs(t0, t1, 5);
    hide DeviceAfter;
    assert ORDER[4] in DeviceAfter(TwoPanels(t0, t1), 5).done;
  }

  lemma HostReturns(t0: nat, t1: nat)
    ensures var (job, d) := (TwoPanels(t0, t1), DeviceAfter(TwoPanels(t0, t1), 6));
            Leads(job, System(Seen(t0, Drain), d), HostAct(true), System(Seen(t0, Returned), d))
  {
    DeviceIs(t0, t1, 6);
    hide DeviceAfter;
    var d := DeviceAfter(TwoPanels(t0, t1), 6);
    assert forall c :: c in d.waits ==> c in d.done by {
      assert ORDER[0] in d.done && ORDER[1] in d.done && ORDER[2] in d.done;
      assert ORDER[3] in d.done && ORDER[4] in d.done && ORDER[5] in d.done;
    }
  }

  /** Two panels, the second with a hit: there is a run that succeeds, finds the hit, and counts the first panel
      only. */
  lemma HitMayGoUncounted(t0: nat, t1: nat) returns (acts: seq<Action>)
    ensures var h := Run(TwoPanels(t0, t1), acts).h; h.pc == Returned && h.ok && h.found && h.scanned == t0
  {
    hide Run, Leads, Inv, Apply, Complete, StartCmd;
    var (job, h) := (TwoPanels(t0, t1), Enqueuing(7).h);
    acts := EnqueuesBoth(t0, t1);
    assert Enqueuing(7) == System(h, DeviceAfter(job, 0));
    hide Enqueuing, DeviceAfter;
    HostSees(t0, t1);
    HostReturns(t0, t1);
    for n := 0 to 5
      invariant Run(job, acts) == System(h, DeviceAfter(job, n))
    {
      acts := DeviceGoesOn(t0, t1, acts, h, n);
    }
    var d := DeviceAfter(job, 5);
    Follow(job, acts, HostAct(true), System(h, d), System(Seen(t0, EnqueueGemm), d));
    acts := acts + [HostAct(true)];
    Follow(job, acts, HostAct(true), System(Seen(t0, EnqueueGemm), d), System(Seen(t0, Drain), d));
    acts := acts + [HostAct(true)];
    acts := DeviceGoesOn(t0, t1, acts, Seen(t0, Drain), 5);
    var e := DeviceAfter(job, 6);
    Follow(job, acts, HostAct(true), System(Seen(t0, Drain), e), System(Seen(t0, Returned), e));
    acts := acts + [HostAct(true)];
  }
}
