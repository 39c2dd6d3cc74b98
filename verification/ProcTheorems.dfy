/** What holds in every run of the process table from boot. */
module ProcTheorems {
  import opened Options
  import opened ProcModel
  import opened CpuOwnership
  import opened ProcFamily
  import opened ProcLife
  import opened ProcSafety

  ghost predicate Reachable(s: System) {
    exists boot: System, steps: seq<Step> :: Boot(boot) && Run(boot, steps) && s == Exec(boot, steps)
  }

  lemma ReachableInv(s: System)
    requires Reachable(s)
    ensures Inv(s)
  {
    hide Inv, Boot;
    var boot: System, steps: seq<Step> :| Boot(boot) && Run(boot, steps) && s == Exec(boot, steps);
    BootHolds(boot);
    RunKeeps(boot, steps);
  }

  // The exit and wait protocol: nobody sleeps in wait over an exited child, every child's parent is
  // alive, every exited process still has a parent to collect it, and none is collected twice.
  lemma ExitWaitProtocol(s: System, p: nat)
    requires Reachable(s) && p < |s.procs|
    ensures s.procs[p].state == Sleeping && s.procs[p].chan == Self(p) ==> !HasZombie(s.procs, p)
    ensures s.procs[p].state != Unused && s.procs[p].parent.Some? ==>
              s.procs[p].parent.value < |s.procs| && Alive(s.procs[s.procs[p].parent.value].state)
    ensures s.procs[p].state == Zombie ==> s.procs[p].parent.Some?
    ensures Alive(s.procs[p].state) || s.procs[p].state == Zombie ==> s.procs[p].pid !in s.reaped
    ensures NoRepeat(s.reaped)
  {
    hide HasZombie;
    ReachableInv(s);
    assert KinAt(s.procs, s.init, p) && SleepAt(s.procs, p) && PidAt(s.procs, s.nextpid, s.reaped, p);
  }

  ghost predicate OneCpu(cpus: seq<Cpu>, p: nat) {
    exists c: nat :: c < |cpus| && cpus[c].proc == Some(p) && NotElsewhere(cpus, c, p)
  }

  // Whenever ptable.lock is free, a process is RUNNING exactly when exactly one CPU's proc points to it.
  lemma RunningIsOnOneCpu(s: System, p: nat)
    requires Reachable(s) && s.lock == None && p < |s.procs|
    ensures s.procs[p].state == Running <==> OneCpu(s.cpus, p)
  {
    ReachableInv(s);
    if s.procs[p].state == Running {
      assert OnCpu(s.cpus, p);
      var c: nat :| c < |s.cpus| && s.cpus[c].proc == Some(p);
      Elsewhere(s, c, p);
    }
    if OneCpu(s.cpus, p) {
      var c: nat :| c < |s.cpus| && s.cpus[c].proc == Some(p) && NotElsewhere(s.cpus, c, p);
      LockHeld(s, c);
      assert CpuAt(s.procs, s.init, s.cpus[c]);
    }
  }

  // wait frees the stack and page directory only of a process no CPU is on any more.
  lemma WaitFreesOnlyTheStopped(s: System, c: nat, p: nat)
    requires Reachable(s) && c < |s.cpus| && p < |s.procs| && s.cpus[c].mode == Holding(p, Waiting)
    requires FirstZombie(s.procs, p, 0) < |s.procs|
    ensures !OnCpu(s.cpus, FirstZombie(s.procs, p, 0))
  {
    ReachableInv(s);
    var z := FirstZombie(s.procs, p, 0);
    LockHeld(s, c);
    assert CpuAt(s.procs, s.init, s.cpus[c]);
    Elsewhere(s, c, z);
  }

  // switchuvm's panics for a process without a stack or a page directory are unreachable.
  lemma PickedHasStack(s: System, c: nat, p: nat)
    requires Reachable(s) && Enabled(s, SchedPick(c, p))
    ensures s.procs[p].kstack && s.procs[p].pgdir
  {
    ReachableInv(s);
    assert KinAt(s.procs, s.init, p);
  }

  // Whoever holds ptable.lock has a step to take: the lock is never lost in the hand-over.
  lemma HolderCanMove(s: System, c: nat)
    requires Reachable(s) && s.lock == Some(c)
    ensures c < |s.cpus| && (Enabled(s, Act(c)) || Enabled(s, SchedClear(c)) || Enabled(s, SchedUnlock(c)))
  {
    ReachableInv(s);
    assert CpuAt(s.procs, s.init, s.cpus[c]);
  }

  // After an exit the parent is not asleep in wait, and its next round of wait collects a child.
  lemma ExitReachesParent(s: System, c: nat, p: nat, q: nat)
    requires Reachable(s) && Enabled(s, Act(c)) && s.cpus[c].mode == Holding(p, Exiting) && s.procs[p].parent == Some(q)
    ensures var procs' := Do(s, Act(c)).procs;
            && q < |procs'| && !(procs'[q].state == Sleeping && procs'[q].chan == Self(q))
            && FirstZombie(procs', q, 0) < |procs'|
  {
    ReachableInv(s);
    assert KinAt(s.procs, s.init, p);
    hide ExitProcs;
    ExitAt(s.procs, p, s.init, p);
    ExitAt(s.procs, p, s.init, q);
    assert ZombieChild(ExitProcs(s.procs, p, s.init), q, p);
  }

  // A round of wait over an exited child records exactly that child's pid and empties its entry.
  lemma WaitCollects(s: System, c: nat, p: nat, z: nat)
    requires Reachable(s) && Enabled(s, Act(c)) && s.cpus[c].mode == Holding(p, Waiting)
    requires z < |s.procs| && ZombieChild(s.procs, p, z)
    ensures var s', y := Do(s, Act(c)), FirstZombie(s.procs, p, 0);
            && y <= z && ZombieChild(s.procs, p, y)
            && s'.reaped == s.reaped + [s.procs[y].pid] && s.procs[y].pid !in s.reaped
            && s'.procs[y].state == Unused && !s'.procs[y].kstack && !s'.procs[y].pgdir
            && s'.procs[y].pid == 0 && s'.procs[y].parent == None && !s'.procs[y].killed
            && s'.cpus == s.cpus[c := Cpu(Some(p), InKernel(p))]
            && (forall q: nat :: q < |s.procs| && q != y ==> s'.procs[q] == s.procs[q])
            && s'.lock == None
  {
    ReachableInv(s);
    var y := FirstZombie(s.procs, p, 0);
    assert KinAt(s.procs, s.init, y) && PidAt(s.procs, s.nextpid, s.reaped, y);
  }
}
