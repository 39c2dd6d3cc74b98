/** Every run of the process table, on any number of CPUs and processes. */
module ProcSafety {
  import opened Options
  import opened ProcModel
  import opened CpuOwnership
  import opened ProcFamily
  import opened ProcLife

  ghost predicate Inv(s: System) {
    Cpus(s) && Table(s.procs, s.init, s.nextpid, s.reaped) && 1 <= s.nextpid
  }

  // userinit has made the first process and the CPUs enter their schedulers.
  ghost predicate Boot(s: System) {
    && s.lock == None && s.nextpid == 2 && s.reaped == [] && s.init < |s.procs|
    && (forall c :: 0 <= c < |s.cpus| ==> s.cpus[c] == Cpu(None, Idle))
    && s.procs[s.init] == Proc(Runnable, 1, true, None, NoChan, false, true, true, InForkret, NoFork)
    && (forall p :: 0 <= p < |s.procs| && p != s.init ==>
          s.procs[p] == Proc(Unused, 0, false, None, NoChan, false, false, false, InForkret, NoFork))
  }

  lemma BootHolds(s: System)
    requires Boot(s)
    ensures Inv(s)
  {
  }

  // ---- fork's three critical sections and the work between them ----

  lemma ClaimTable(s: System, c: nat, p: nat)
    requires Inv(s) && c < |s.cpus| && p < |s.procs| && s.procs[p].state == Running && s.procs[p].fork.NoFork?
    ensures var s' := DoClaim(s, c, p); Table(s'.procs, s'.init, s'.nextpid, s'.reaped)
  {
    hide Kin, Forks, Sleepers, Pids, Cpus;
    var np := FirstUnused(s.procs, 0);
    if np < |s.procs| {
      var procs' := DoClaim(s, c, p).procs;
      UnusedIsIdle(s.procs, s.init, np);
      NobodyMakes(s.procs, p, np);
      ForkKin(s.procs, procs', p, np, s.init);
      ForkForks(s.procs, procs', p, np);
      ForkSleepers(s.procs, procs', p, np);
      ForkPids(s.procs, procs', p, np, s.nextpid, s.nextpid, s.reaped);
    }
  }

  lemma UnusedIsIdle(procs: seq<Proc>, init: nat, np: nat)
    requires Kin(procs, init) && Forks(procs) && np < |procs| && procs[np].state == Unused
    ensures procs[np].fork.NoFork? && procs[np].parent == None
  {
    assert KinAt(procs, init, np) && ForkAt(procs, np);
  }

  lemma EmbryoIsIdle(procs: seq<Proc>, p: nat)
    requires Forks(procs) && p < |procs| && !procs[p].fork.NoFork?
    ensures procs[p].fork.np < |procs| && ForkAt(procs, p) && procs[procs[p].fork.np].fork.NoFork?
  {
    assert ForkAt(procs, p);
    assert ForkAt(procs, procs[p].fork.np);
  }

  lemma NumberTable(s: System, c: nat, p: nat, np: nat)
    requires Inv(s) && c < |s.cpus| && p < |s.procs| && s.procs[p].state == Running && s.procs[p].fork == Claimed(np)
    ensures np < |s.procs| && np != p
    ensures var s' := DoNumber(s, c, p, np); Table(s'.procs, s'.init, s'.nextpid, s'.reaped)
  {
    hide Kin, Forks, Sleepers, Pids, Cpus;
    EmbryoIsIdle(s.procs, p);
    var procs' := DoNumber(s, c, p, np).procs;
    MakerIsOnly(s.procs, p);
    ForkKin(s.procs, procs', p, np, s.init);
    ForkForks(s.procs, procs', p, np);
    ForkSleepers(s.procs, procs', p, np);
    ForkPids(s.procs, procs', p, np, s.nextpid, s.nextpid + 1, s.reaped);
  }

  lemma ReadyTable(s: System, c: nat, p: nat, np: nat)
    requires Inv(s) && c < |s.cpus| && p < |s.procs| && s.procs[p].state == Running && s.procs[p].fork == Built(np)
    ensures np < |s.procs| && np != p
    ensures var s' := DoReady(s, c, p, np); Table(s'.procs, s'.init, s'.nextpid, s'.reaped)
  {
    hide Kin, Forks, Sleepers, Pids, Cpus;
    EmbryoIsIdle(s.procs, p);
    var procs' := DoReady(s, c, p, np).procs;
    MakerIsOnly(s.procs, p);
    ForkKin(s.procs, procs', p, np, s.init);
    ForkForks(s.procs, procs', p, np);
    ForkSleepers(s.procs, procs', p, np);
    ForkPids(s.procs, procs', p, np, s.nextpid, s.nextpid, s.reaped);
  }

  lemma BuildTable(s: System, p: nat, np: nat, ok: bool)
    requires Inv(s) && p < |s.procs| && s.procs[p].state == Running && s.procs[p].fork == Numbered(np)
    ensures np < |s.procs| && np != p
    ensures var s' := DoBuild(s, p, np, ok); Table(s'.procs, s'.init, s'.nextpid, s'.reaped)
  {
    hide Kin, Forks, Sleepers, Pids, Cpus;
    EmbryoIsIdle(s.procs, p);
    var procs' := DoBuild(s, p, np, ok).procs;
    MakerIsOnly(s.procs, p);
    ForkKin(s.procs, procs', p, np, s.init);
    ForkForks(s.procs, procs', p, np);
    ForkSleepers(s.procs, procs', p, np);
    ForkPids(s.procs, procs', p, np, s.nextpid, s.nextpid, s.reaped);
  }

  // ---- the critical sections, one by one ----

  ghost predicate Holder(s: System, c: nat, p: nat, t: Task) {
    && Inv(s) && c < |s.cpus| && p < |s.procs| && s.cpus[c] == Cpu(Some(p), Holding(p, t))
    && s.procs[p].state == Running
    && (t.Resuming? || TaskAllowed(|s.procs|, s.init, p, s.procs[p], t))
  }

  lemma YieldKeeps(s: System, c: nat, p: nat)
    requires Holder(s, c, p, Yielding)
    ensures Inv(DoAct(s, c, p, Yielding))
  {
    hide Table, Cpus;
    var pr := s.procs[p].(state := Runnable, resume := InYield);
    OneMoves(s.procs, p, pr, s.init, s.nextpid, s.reaped);
    OneStable(s.procs, p, pr);
    SwitchCpus(s, c, p, s.procs[p := pr]);
  }

  lemma SleepKeeps(s: System, c: nat, p: nat, ch: nat)
    requires Holder(s, c, p, SleepingOn(ch))
    ensures Inv(DoAct(s, c, p, SleepingOn(ch)))
  {
    hide Table, Cpus;
    var pr := SleepProc(s.procs[p], Other(ch), InSleep);
    OneMoves(s.procs, p, pr, s.init, s.nextpid, s.reaped);
    OneStable(s.procs, p, pr);
    SwitchCpus(s, c, p, s.procs[p := pr]);
  }

  lemma WakingKeeps(s: System, c: nat, p: nat, ch: nat)
    requires Holder(s, c, p, Waking(ch))
    ensures Inv(DoAct(s, c, p, Waking(ch)))
  {
    hide Table, Cpus;
    var procs' := Wake(s.procs, Other(ch));
    WakeTable(s.procs, Other(ch), s.init, s.nextpid, s.reaped);
    assert Stable(s.procs, procs', p);
    ReleaseCpus(s, c, p, procs', s.nextpid, s.reaped);
  }

  lemma ExitKeeps(s: System, c: nat, p: nat)
    requires Holder(s, c, p, Exiting)
    ensures Inv(DoAct(s, c, p, Exiting))
  {
    hide Table, Cpus, ExitProcs;
    ExitTable(s.procs, p, s.init, s.nextpid, s.reaped);
    ExitStable(s.procs, p, s.init);
    SwitchCpus(s, c, p, ExitProcs(s.procs, p, s.init));
  }

  lemma WaitKeeps(s: System, c: nat, p: nat)
    requires Holder(s, c, p, Waiting)
    ensures Inv(DoAct(s, c, p, Waiting))
  {
    hide Table, Cpus;
    var z := FirstZombie(s.procs, p, 0);
    if z < |s.procs| {
      var procs' := s.procs[z := Reaped(s.procs[z])];
      ReapTable(s.procs, z, s.init, s.nextpid, s.reaped);
      assert Stable(s.procs, procs', p);
      ReleaseCpus(s, c, p, procs', s.nextpid, s.reaped + [s.procs[z].pid]);
    } else if !HasKid(s.procs, p) || s.procs[p].killed {
      OneStable(s.procs, p, s.procs[p]);
      assert s.procs[p := s.procs[p]] == s.procs;
      ReleaseCpus(s, c, p, s.procs, s.nextpid, s.reaped);
    } else {
      WaitSleeps(s.procs, p, s.init, s.nextpid, s.reaped);
      var pr := SleepProc(s.procs[p], Self(p), InWait);
      OneStable(s.procs, p, pr);
      SwitchCpus(s, c, p, s.procs[p := pr]);
    }
  }

  lemma ClaimKeeps(s: System, c: nat, p: nat)
    requires Holder(s, c, p, Claiming)
    ensures Inv(DoAct(s, c, p, Claiming))
  {
    hide Table, Cpus;
    ClaimTable(s, c, p);
    var q := FirstUnused(s.procs, 0);
    if q < |s.procs| {
      var qr := s.procs[q].(state := Embryo, numbered := false);
      TwoStable(s.procs, p, s.procs[p].(fork := Claimed(q)), q, qr);
      ReleaseCpus(s, c, p, DoClaim(s, c, p).procs, s.nextpid, s.reaped);
    } else {
      OneStable(s.procs, p, s.procs[p]);
      assert s.procs[p := s.procs[p]] == s.procs;
      ReleaseCpus(s, c, p, s.procs, s.nextpid, s.reaped);
    }
  }

  lemma NumberKeeps(s: System, c: nat, p: nat)
    requires Holder(s, c, p, Numbering)
    ensures Inv(DoAct(s, c, p, Numbering))
  {
    hide Table, Cpus;
    var np := s.procs[p].fork.np;
    NumberTable(s, c, p, np);
    EmbryoEntry(s, p);
    TwoStable(s.procs, p, s.procs[p].(fork := Numbered(np)), np, s.procs[np].(pid := s.nextpid, numbered := true));
    ReleaseCpus(s, c, p, DoNumber(s, c, p, np).procs, s.nextpid + 1, s.reaped);
  }

  lemma EmbryoEntry(s: System, p: nat)
    requires Inv(s) && p < |s.procs| && !s.procs[p].fork.NoFork?
    ensures s.procs[p].fork.np < |s.procs| && s.procs[s.procs[p].fork.np].state == Embryo
  {
    assert ForkAt(s.procs, p);
  }

  lemma ReadyKeeps(s: System, c: nat, p: nat)
    requires Holder(s, c, p, Readying)
    ensures Inv(DoAct(s, c, p, Readying))
  {
    hide Table, Cpus;
    var np := s.procs[p].fork.np;
    ReadyTable(s, c, p, np);
    EmbryoEntry(s, p);
    TwoStable(s.procs, p, s.procs[p].(fork := NoFork), np, s.procs[np].(state := Runnable));
    ReleaseCpus(s, c, p, DoReady(s, c, p, np).procs, s.nextpid, s.reaped);
  }

  lemma KillKeeps(s: System, c: nat, p: nat, pid: nat)
    requires Holder(s, c, p, Killing(pid))
    ensures Inv(DoAct(s, c, p, Killing(pid)))
  {
    hide Table, Cpus;
    var q := FirstPid(s.procs, pid, 0);
    if q < |s.procs| && s.procs[q].state == Sleeping {
      var qr := s.procs[q].(state := Runnable);
      OneMoves(s.procs, q, qr, s.init, s.nextpid, s.reaped);
      assert Stable(s.procs, s.procs[q := qr], p);
      ReleaseCpus(s, c, p, s.procs[q := qr], s.nextpid, s.reaped);
    } else {
      OneStable(s.procs, p, s.procs[p]);
      assert s.procs[p := s.procs[p]] == s.procs;
      ReleaseCpus(s, c, p, s.procs, s.nextpid, s.reaped);
    }
  }

  lemma ResumeKeeps(s: System, c: nat, p: nat)
    requires Holder(s, c, p, Resuming)
    ensures Inv(DoAct(s, c, p, Resuming))
  {
    hide Table;
    assert CpuAt(s.procs, s.init, s.cpus[c]);
    hide Cpus;
    OneStable(s.procs, p, s.procs[p]);
    assert s.procs[p := s.procs[p]] == s.procs;
    var pr := s.procs[p].(chan := NoChan);
    OneMoves(s.procs, p, pr, s.init, s.nextpid, s.reaped);
    OneStable(s.procs, p, pr);
    match s.procs[p].resume
    case InForkret => ReleaseCpus(s, c, p, s.procs, s.nextpid, s.reaped);
    case InYield => ReleaseCpus(s, c, p, s.procs, s.nextpid, s.reaped);
    case InSleep => ReleaseCpus(s, c, p, s.procs[p := pr], s.nextpid, s.reaped);
    case InWait => RewaitCpus(s, c, p, pr);
  }

  lemma HolderOf(s: System, c: nat)
    requires Inv(s) && c < |s.cpus| && s.cpus[c].mode.Holding?
    ensures Holder(s, c, s.cpus[c].mode.p, s.cpus[c].mode.t)
  {
    assert CpuAt(s.procs, s.init, s.cpus[c]);
  }

  lemma ActKeeps(s: System, c: nat)
    requires Inv(s) && Enabled(s, Act(c))
    ensures Inv(Do(s, Act(c)))
  {
    HolderOf(s, c);
    hide Inv, Enabled, DoAct, Holder;
    var p := s.cpus[c].mode.p;
    match s.cpus[c].mode.t
    case Yielding => YieldKeeps(s, c, p);
    case SleepingOn(ch) => SleepKeeps(s, c, p, ch);
    case Waking(ch) => WakingKeeps(s, c, p, ch);
    case Exiting => ExitKeeps(s, c, p);
    case Waiting => WaitKeeps(s, c, p);
    case Claiming => ClaimKeeps(s, c, p);
    case Numbering => NumberKeeps(s, c, p);
    case Readying => ReadyKeeps(s, c, p);
    case Killing(pid) => KillKeeps(s, c, p, pid);
    case Resuming => ResumeKeeps(s, c, p);
  }

  lemma PickKeeps(s: System, c: nat, p: nat)
    requires Inv(s) && Enabled(s, SchedPick(c, p))
    ensures Inv(Do(s, SchedPick(c, p)))
  {
    assert SleepAt(s.procs, p);
    hide Table, Cpus;
    PickCpus(s, c, p);
    OneMoves(s.procs, p, s.procs[p].(state := Running), s.init, s.nextpid, s.reaped);
  }

  lemma BuildKeeps(s: System, c: nat, ok: bool)
    requires Inv(s) && Enabled(s, Build(c, ok))
    ensures Inv(Do(s, Build(c, ok)))
  {
    assert CpuAt(s.procs, s.init, s.cpus[c]);
    hide Table, Cpus;
    var p := s.cpus[c].mode.p;
    var np := s.procs[p].fork.np;
    BuildTable(s, p, np, ok);
    EmbryoEntry(s, p);
    var s' := DoBuild(s, p, np, ok);
    TwoStable(s.procs, p, s'.procs[p], np, s'.procs[np]);
    UnlockedCpus(s, c, p, s'.procs);
  }

  lemma KilledKeeps(s: System, c: nat)
    requires Inv(s) && Enabled(s, MarkKilled(c))
    ensures Inv(Do(s, MarkKilled(c)))
  {
    assert CpuAt(s.procs, s.init, s.cpus[c]);
    hide Table, Cpus;
    var p := s.cpus[c].mode.p;
    var pr := s.procs[p].(killed := true);
    OneMoves(s.procs, p, pr, s.init, s.nextpid, s.reaped);
    OneStable(s.procs, p, pr);
    UnlockedCpus(s, c, p, s.procs[p := pr]);
  }

  lemma InterruptKeeps(s: System, ch: nat)
    requires Inv(s)
    ensures Inv(s.(procs := Wake(s.procs, Other(ch))))
  {
    hide Table, Cpus;
    var procs' := Wake(s.procs, Other(ch));
    WakeTable(s.procs, Other(ch), s.init, s.nextpid, s.reaped);
    assert Stable(s.procs, procs', |s.procs|);
    InterruptCpus(s, procs');
  }

  // Every step of every CPU keeps the invariant.
  lemma StepKeeps(s: System, st: Step)
    requires Inv(s) && Enabled(s, st)
    ensures Inv(Do(s, st))
  {
    hide Table, Cpus, DoAct, DoBuild;
    match st
    case SchedLock(_) => SchedulerCpus(s, st);
    case SchedPick(c, p) => PickKeeps(s, c, p);
    case SchedClear(_) => SchedulerCpus(s, st);
    case SchedUnlock(_) => SchedulerCpus(s, st);
    case Lock(c, t) => LockCpus(s, c, t);
    case Act(c) => ActKeeps(s, c);
    case Build(c, ok) => BuildKeeps(s, c, ok);
    case MarkKilled(c) => KilledKeeps(s, c);
    case Interrupt(ch) => InterruptKeeps(s, ch);
  }

  lemma {:induction false} RunKeeps(s: System, steps: seq<Step>)
    requires Inv(s) && Run(s, steps)
    ensures Inv(Exec(s, steps))
    decreases |steps|
  {
    hide Inv;
    if steps != [] {
      StepKeeps(s, steps[0]);
      RunKeeps(Do(s, steps[0]), steps[1..]);
    }
  }
}
