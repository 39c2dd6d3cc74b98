/** Which CPU runs which process, under the hand-over of ptable.lock through sched and scheduler. */
module CpuOwnership {
  import opened Options
  import opened ProcModel

  predicate HoldsLock(m: Mode) {
    m.Scanning? || m.Holding? || m.Returned?
  }

  predicate CpuAt(procs: seq<Proc>, init: nat, cpu: Cpu) {
    match cpu.mode
    case Idle => cpu.proc == None
    case Scanning => cpu.proc == None
    case InKernel(p) => cpu.proc == Some(p) && p < |procs| && procs[p].state == Running
    case Holding(p, t) =>
      && cpu.proc == Some(p) && p < |procs| && procs[p].state == Running
      && (if t.Resuming? then procs[p].resume.InWait? ==> procs[p].fork.NoFork?
          else TaskAllowed(|procs|, init, p, procs[p], t))
    case Returned(p) => cpu.proc == Some(p) && p < |procs| && procs[p].state != Running
  }

  // Exactly the holder of the lock is at a point where the code holds it.
  ghost predicate Locked(cpus: seq<Cpu>, lock: Option<nat>) {
    && (lock.Some? ==> lock.value < |cpus| && HoldsLock(cpus[lock.value].mode))
    && (forall c: nat :: c < |cpus| && HoldsLock(cpus[c].mode) ==> lock == Some(c))
  }

  ghost predicate Exclusive(cpus: seq<Cpu>) {
    forall c: nat, d: nat :: c < |cpus| && d < |cpus| && c != d && cpus[c].proc.Some? ==> cpus[c].proc != cpus[d].proc
  }

  ghost predicate OnCpu(cpus: seq<Cpu>, p: nat) {
    exists c: nat :: c < |cpus| && cpus[c].proc == Some(p)
  }

  ghost predicate Cpus(s: System) {
    && Locked(s.cpus, s.lock)
    && (forall c: nat :: c < |s.cpus| ==> CpuAt(s.procs, s.init, s.cpus[c]))
    && Exclusive(s.cpus)
    && (forall p: nat :: p < |s.procs| && s.procs[p].state == Running ==> OnCpu(s.cpus, p))
  }

  predicate SameRun(a: Proc, b: Proc) {
    a.state == b.state && a.fork == b.fork && a.resume == b.resume
  }

  // No running process other than p is disturbed, and none starts running.
  ghost predicate Stable(procs: seq<Proc>, procs': seq<Proc>, p: nat) {
    && |procs'| == |procs|
    && (forall q: nat :: q < |procs| && q != p && procs[q].state == Running ==> SameRun(procs[q], procs'[q]))
    && (forall q: nat :: q < |procs| && q != p && procs'[q].state == Running ==> procs[q].state == Running)
  }

  ghost predicate NotElsewhere(cpus: seq<Cpu>, c: nat, p: nat) {
    forall d: nat :: d < |cpus| && d != c ==> cpus[d].proc != Some(p)
  }

  lemma LockStep(cpus: seq<Cpu>, lock: Option<nat>, c: nat, cpu: Cpu, lock': Option<nat>)
    requires Locked(cpus, lock) && c < |cpus|
    requires HoldsLock(cpu.mode) ==> lock' == Some(c) && lock in {None, Some(c)}
    requires !HoldsLock(cpu.mode) && HoldsLock(cpus[c].mode) ==> lock' == None
    requires !HoldsLock(cpu.mode) && !HoldsLock(cpus[c].mode) ==> lock' == lock
    ensures Locked(cpus[c := cpu], lock')
  {
  }

  lemma OtherCpu(s: System, s': System, c: nat, p: nat, d: nat)
    requires Cpus(s) && c < |s.cpus| && s'.init == s.init && d < |s.cpus| && d != c
    requires Stable(s.procs, s'.procs, p) && NotElsewhere(s.cpus, c, p)
    ensures CpuAt(s'.procs, s'.init, s.cpus[d])
  {
    assert CpuAt(s.procs, s.init, s.cpus[d]);
    if s.cpus[d].proc.Some? {
      var q := s.cpus[d].proc.value;
      assert q != p && q < |s.procs|;
      assert s.procs[q].state == Running ==> SameRun(s.procs[q], s'.procs[q]);
    }
  }

  lemma StillOnCpu(s: System, s': System, c: nat, p: nat, q: nat)
    requires Cpus(s) && c < |s.cpus| && |s'.cpus| == |s.cpus| && s'.cpus == s.cpus[c := s'.cpus[c]]
    requires Stable(s.procs, s'.procs, p) && s.cpus[c].proc in {None, Some(p)}
    requires q < |s.procs| && q != p && s'.procs[q].state == Running
    ensures OnCpu(s'.cpus, q)
  {
    assert OnCpu(s.cpus, q);
    var d: nat :| d < |s.cpus| && s.cpus[d].proc == Some(q);
    assert s'.cpus[d].proc == Some(q);
  }

  // A step of CPU c that concerns process p alone; p == |procs| when it concerns none.
  lemma CpuStep(s: System, s': System, c: nat, p: nat)
    requires Cpus(s) && c < |s.cpus| && s'.init == s.init && |s'.procs| == |s.procs|
    requires |s'.cpus| == |s.cpus| && s'.cpus == s.cpus[c := s'.cpus[c]]
    requires Stable(s.procs, s'.procs, p) && NotElsewhere(s.cpus, c, p)
    requires s.cpus[c].proc in {None, Some(p)} && s'.cpus[c].proc in {None, Some(p)}
    requires CpuAt(s'.procs, s.init, s'.cpus[c]) && Locked(s'.cpus, s'.lock)
    requires p < |s.procs| && s'.procs[p].state == Running ==> s'.cpus[c].proc == Some(p)
    ensures Cpus(s')
  {
    hide CpuAt, Locked, Stable, SameRun;
    forall d: nat | d < |s'.cpus| && d != c ensures CpuAt(s'.procs, s'.init, s'.cpus[d]) {
      OtherCpu(s, s', c, p, d);
    }
    forall q: nat | q < |s'.procs| && s'.procs[q].state == Running ensures OnCpu(s'.cpus, q) {
      if q == p {
        assert s'.cpus[c].proc == Some(p);
      } else {
        StillOnCpu(s, s', c, p, q);
      }
    }
  }

  lemma Elsewhere(s: System, c: nat, p: nat)
    requires Cpus(s) && c < |s.cpus|
    requires s.cpus[c].proc == Some(p) || (s.lock == Some(c) && p < |s.procs| && s.procs[p].state != Running)
             || p == |s.procs|
    ensures NotElsewhere(s.cpus, c, p)
  {
    forall d: nat | d < |s.cpus| && d != c ensures s.cpus[d].proc != Some(p) {
      assert CpuAt(s.procs, s.init, s.cpus[d]);
    }
  }

  lemma OneStable(procs: seq<Proc>, p: nat, pr: Proc)
    requires p < |procs|
    ensures Stable(procs, procs[p := pr], p)
  {
  }

  lemma TwoStable(procs: seq<Proc>, p: nat, pr: Proc, q: nat, qr: Proc)
    requires p < |procs| && q < |procs|
    requires procs[q].state != Running && qr.state != Running
    ensures Stable(procs, procs[q := qr][p := pr], p)
  {
  }

  lemma ExitStable(procs: seq<Proc>, p: nat, init: nat)
    requires p < |procs|
    ensures Stable(procs, ExitProcs(procs, p, init), p)
    ensures ExitProcs(procs, p, init)[p].state == Zombie
  {
  }

  // ---- the scheduler's steps ----

  lemma SchedulerCpus(s: System, st: Step)
    requires Cpus(s) && Enabled(s, st)
    requires st.SchedLock? || st.SchedClear? || st.SchedUnlock?
    ensures Cpus(Do(s, st))
  {
    hide TaskAllowed, Locked;
    var s' := Do(s, st);
    var p := if st.SchedClear? then s.cpus[st.c].mode.p else |s.procs|;
    assert CpuAt(s.procs, s.init, s.cpus[st.c]);
    LockHeld(s, st.c);
    Elsewhere(s, st.c, p);
    LockStep(s.cpus, s.lock, st.c, s'.cpus[st.c], s'.lock);
    CpuStep(s, s', st.c, p);
  }

  lemma PickCpus(s: System, c: nat, p: nat)
    requires Cpus(s) && Enabled(s, SchedPick(c, p)) && (s.procs[p].resume.InWait? ==> s.procs[p].fork.NoFork?)
    ensures Cpus(Do(s, SchedPick(c, p)))
  {
    hide TaskAllowed, Locked;
    var s' := Do(s, SchedPick(c, p));
    assert CpuAt(s.procs, s.init, s.cpus[c]);
    LockHeld(s, c);
    Elsewhere(s, c, p);
    OneStable(s.procs, p, s'.procs[p]);
    LockStep(s.cpus, s.lock, c, s'.cpus[c], s'.lock);
    CpuStep(s, s', c, p);
  }

  lemma LockHeld(s: System, c: nat)
    requires Cpus(s) && c < |s.cpus|
    ensures HoldsLock(s.cpus[c].mode) <==> s.lock == Some(c)
  {
  }

  // ---- a process asks for the lock, or works without it ----

  lemma LockCpus(s: System, c: nat, t: Task)
    requires Cpus(s) && Enabled(s, Lock(c, t))
    ensures Cpus(Do(s, Lock(c, t)))
  {
    hide Locked;
    var s' := Do(s, Lock(c, t));
    assert CpuAt(s.procs, s.init, s.cpus[c]);
    var p := s.cpus[c].mode.p;
    Elsewhere(s, c, p);
    OneStable(s.procs, p, s.procs[p]);
    assert s.procs[p := s.procs[p]] == s.procs;
    LockStep(s.cpus, s.lock, c, s'.cpus[c], s'.lock);
    CpuStep(s, s', c, p);
  }

  lemma UnlockedCpus(s: System, c: nat, p: nat, procs': seq<Proc>)
    requires Cpus(s) && c < |s.cpus| && s.cpus[c].mode == InKernel(p)
    requires Stable(s.procs, procs', p) && p < |procs'| && procs'[p].state == Running
    ensures Cpus(s.(procs := procs'))
  {
    hide TaskAllowed, Locked;
    assert CpuAt(s.procs, s.init, s.cpus[c]);
    Elsewhere(s, c, p);
    assert s.cpus == s.cpus[c := s.cpus[c]];
    CpuStep(s, s.(procs := procs'), c, p);
  }

  // ---- a process holding the lock lets it go, or switches away ----

  lemma ReleaseCpus(s: System, c: nat, p: nat, procs': seq<Proc>, nextpid: nat, reaped: seq<nat>)
    requires Cpus(s) && c < |s.cpus| && s.cpus[c].mode.Holding? && s.cpus[c].mode.p == p
    requires Stable(s.procs, procs', p) && p < |procs'| && procs'[p].state == Running
    ensures Cpus(Unlock(s.(procs := procs', nextpid := nextpid, reaped := reaped), c, p))
  {
    hide TaskAllowed, Locked;
    var s' := Unlock(s.(procs := procs', nextpid := nextpid, reaped := reaped), c, p);
    assert CpuAt(s.procs, s.init, s.cpus[c]);
    LockHeld(s, c);
    Elsewhere(s, c, p);
    LockStep(s.cpus, s.lock, c, s'.cpus[c], s'.lock);
    CpuStep(s, s', c, p);
  }

  lemma SwitchCpus(s: System, c: nat, p: nat, procs': seq<Proc>)
    requires Cpus(s) && c < |s.cpus| && s.cpus[c].mode.Holding? && s.cpus[c].mode.p == p
    requires Stable(s.procs, procs', p) && p < |procs'| && procs'[p].state != Running
    ensures Cpus(SwitchAway(s.(procs := procs'), c, p))
  {
    hide TaskAllowed, Locked;
    var s' := SwitchAway(s.(procs := procs'), c, p);
    assert CpuAt(s.procs, s.init, s.cpus[c]);
    LockHeld(s, c);
    Elsewhere(s, c, p);
    LockStep(s.cpus, s.lock, c, s'.cpus[c], s'.lock);
    CpuStep(s, s', c, p);
  }

  // wait, woken, goes round its loop without letting the lock go.
  lemma RewaitCpus(s: System, c: nat, p: nat, pr: Proc)
    requires Cpus(s) && c < |s.cpus| && s.cpus[c].mode.Holding? && s.cpus[c].mode.p == p
    requires p < |s.procs| && pr.state == Running && pr.fork.NoFork?
    ensures Cpus(SetCpu(SetProc(s, p, pr), c, Some(p), Holding(p, Waiting)))
  {
    hide Locked;
    var s' := SetCpu(SetProc(s, p, pr), c, Some(p), Holding(p, Waiting));
    assert CpuAt(s.procs, s.init, s.cpus[c]);
    LockHeld(s, c);
    Elsewhere(s, c, p);
    OneStable(s.procs, p, pr);
    LockStep(s.cpus, s.lock, c, s'.cpus[c], s'.lock);
    CpuStep(s, s', c, p);
  }

  lemma InterruptCpus(s: System, procs': seq<Proc>)
    requires Cpus(s) && Stable(s.procs, procs', |s.procs|)
    ensures Cpus(s.(procs := procs'))
  {
    hide Locked;
    forall c: nat | c < |s.cpus| ensures CpuAt(procs', s.init, s.cpus[c]) {
      assert CpuAt(s.procs, s.init, s.cpus[c]);
      if s.cpus[c].proc.Some? {
        var q := s.cpus[c].proc.value;
        assert s.procs[q].state == Running ==> SameRun(s.procs[q], procs'[q]);
      }
    }
  }
}
