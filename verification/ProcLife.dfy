/** A process is claimed, numbered, built and set running by fork, exits, and is collected by wait. */
module ProcLife {
  import opened Options
  import opened ProcModel
  import opened ProcFamily

  // ---- exit ----

  lemma WakeAt(procs: seq<Proc>, ch: Chan, q: nat)
    requires q < |procs|
    ensures var b := Wake(procs, ch)[q];
            && b == procs[q].(state := b.state)
            && b.state == (if procs[q].state == Sleeping && procs[q].chan == ch then Runnable else procs[q].state)
  {
  }

  lemma ReparentAt(procs: seq<Proc>, p: nat, init: nat, q: nat)
    requires q < |procs|
    ensures var b := Reparent(procs, p, init)[q];
            b == procs[q].(parent := if procs[q].parent == Some(p) then Some(init) else procs[q].parent)
  {
  }

  lemma ExitAt(procs: seq<Proc>, p: nat, init: nat, q: nat)
    requires p < |procs| && q < |procs|
    ensures var a, b := procs[q], ExitProcs(procs, p, init)[q];
            && b == a.(state := b.state, parent := b.parent)
            && b.parent == (if a.parent == Some(p) then Some(init) else a.parent)
            && (q == p ==> b.state == Zombie)
            && (q != p && a.state != Sleeping ==> b.state == a.state)
            && (q != p && a.state == Sleeping ==> b.state == Sleeping || b.state == Runnable)
            && (q != p && b.state == Sleeping && a.chan.Self? ==>
                  procs[p].parent != Some(a.chan.p) && (a.chan.p == init ==> !HasZombie(procs, p)))
  {
    hide Wake, Reparent, HasZombie;
    var woken := if procs[p].parent.Some? then Wake(procs, Self(procs[p].parent.value)) else procs;
    var moved := Reparent(woken, p, init);
    if procs[p].parent.Some? {
      WakeAt(procs, Self(procs[p].parent.value), q);
    }
    ReparentAt(woken, p, init, q);
    WakeAt(moved, Self(init), q);
  }

  lemma ExitKin(procs: seq<Proc>, p: nat, init: nat)
    requires Kin(procs, init) && p < |procs| && p != init && procs[p].state == Running
    ensures Kin(ExitProcs(procs, p, init), init)
  {
    hide ExitProcs;
    var procs' := ExitProcs(procs, p, init);
    ExitAt(procs, p, init, init);
    forall q: nat | q < |procs'| ensures KinAt(procs', init, q) {
      ExitAt(procs, p, init, q);
      assert KinAt(procs, init, q);
      if procs[q].parent.Some? {
        ExitAt(procs, p, init, procs[q].parent.value);
      }
    }
  }

  lemma ExitForks(procs: seq<Proc>, p: nat, init: nat)
    requires Forks(procs) && p < |procs| && procs[p].state == Running && procs[p].fork.NoFork?
    ensures Forks(ExitProcs(procs, p, init))
  {
    hide ExitProcs;
    var procs' := ExitProcs(procs, p, init);
    forall q: nat | q < |procs'| ensures ForkAt(procs', q) {
      ExitAt(procs, p, init, q);
      assert ForkAt(procs, q);
      if !procs[q].fork.NoFork? {
        ExitAt(procs, p, init, procs[q].fork.np);
      }
    }
    forall q: nat, r: nat | q < |procs'| && r < |procs'| ensures ForksApart(procs', q, r) {
      ExitAt(procs, p, init, q);
      ExitAt(procs, p, init, r);
      assert ForksApart(procs, q, r);
    }
  }

  lemma ExitPids(procs: seq<Proc>, p: nat, init: nat, nextpid: nat, reaped: seq<nat>)
    requires Pids(procs, nextpid, reaped) && p < |procs|
    ensures Pids(ExitProcs(procs, p, init), nextpid, reaped)
  {
    hide ExitProcs;
    var procs' := ExitProcs(procs, p, init);
    forall q: nat | q < |procs'| ensures PidAt(procs', nextpid, reaped, q) {
      ExitAt(procs, p, init, q);
      assert PidAt(procs, nextpid, reaped, q);
    }
    forall q: nat, r: nat | q < |procs'| && r < |procs'| ensures PidsApart(procs', q, r) {
      ExitAt(procs, p, init, q);
      ExitAt(procs, p, init, r);
      assert PidsApart(procs, q, r);
    }
  }

  // Nobody is left asleep in wait with an exited child: not the parent, and not init.
  lemma ExitLeavesNoSleeper(procs: seq<Proc>, p: nat, init: nat, q: nat)
    requires Kin(procs, init) && Sleepers(procs) && p < |procs| && q < |procs|
    ensures SleepAt(ExitProcs(procs, p, init), q)
  {
    hide ExitProcs, HasZombie, Kin;
    var procs' := ExitProcs(procs, p, init);
    ExitAt(procs, p, init, q);
    assert SleepAt(procs, q);
    if procs'[q].state == Sleeping && procs'[q].chan.Self? {
      forall z: nat | z < |procs'| ensures !ZombieChild(procs', q, z) {
        ExitAt(procs, p, init, z);
        ParentNotSelf(procs, init, z);
        NoZombie(procs, q, z);
        if q == init {
          NoZombie(procs, p, z);
        }
      }
      AllNoZombie(procs', q);
    }
  }

  lemma ParentNotSelf(procs: seq<Proc>, init: nat, z: nat)
    requires Kin(procs, init) && z < |procs|
    ensures procs[z].parent != Some(z)
  {
    assert KinAt(procs, init, z);
  }

  lemma NoZombie(procs: seq<Proc>, p: nat, z: nat)
    requires z < |procs|
    ensures !HasZombie(procs, p) ==> !ZombieChild(procs, p, z)
  {
  }

  lemma AllNoZombie(procs: seq<Proc>, p: nat)
    requires forall z: nat :: z < |procs| ==> !ZombieChild(procs, p, z)
    ensures !HasZombie(procs, p)
  {
  }

  lemma ExitTable(procs: seq<Proc>, p: nat, init: nat, nextpid: nat, reaped: seq<nat>)
    requires Table(procs, init, nextpid, reaped)
    requires p < |procs| && p != init && procs[p].state == Running && procs[p].fork.NoFork?
    ensures Table(ExitProcs(procs, p, init), init, nextpid, reaped)
  {
    hide Kin, Forks, Pids, ExitProcs, SleepAt;
    ExitKin(procs, p, init);
    ExitForks(procs, p, init);
    ExitPids(procs, p, init, nextpid, reaped);
    forall q: nat | q < |procs| ensures SleepAt(ExitProcs(procs, p, init), q) {
      ExitLeavesNoSleeper(procs, p, init, q);
    }
  }

  // ---- wait collects a zombie ----

  lemma ReapKin(procs: seq<Proc>, z: nat, init: nat)
    requires Kin(procs, init) && z < |procs| && procs[z].state == Zombie
    ensures Kin(procs[z := Reaped(procs[z])], init)
  {
    var procs' := procs[z := Reaped(procs[z])];
    forall q: nat | q < |procs'| ensures KinAt(procs', init, q) {
      assert KinAt(procs, init, q);
    }
  }

  lemma ReapForks(procs: seq<Proc>, z: nat)
    requires Forks(procs) && z < |procs| && procs[z].state == Zombie
    ensures Forks(procs[z := Reaped(procs[z])])
  {
    var procs' := procs[z := Reaped(procs[z])];
    forall q: nat | q < |procs'| ensures ForkAt(procs', q) {
      assert ForkAt(procs, q);
    }
    forall q: nat, r: nat | q < |procs'| && r < |procs'| ensures ForksApart(procs', q, r) {
      assert ForksApart(procs, q, r);
    }
  }

  lemma ReapSleepers(procs: seq<Proc>, z: nat)
    requires Sleepers(procs) && z < |procs| && procs[z].state == Zombie
    ensures Sleepers(procs[z := Reaped(procs[z])])
  {
    hide HasZombie;
    var procs' := procs[z := Reaped(procs[z])];
    forall q: nat | q < |procs'| ensures SleepAt(procs', q) {
      assert SleepAt(procs, q);
      if !HasZombie(procs, q) {
        forall y: nat | y < |procs'| ensures !ZombieChild(procs', q, y) {
          NoZombie(procs, q, y);
        }
        AllNoZombie(procs', q);
      }
    }
  }

  lemma ReapPids(procs: seq<Proc>, z: nat, nextpid: nat, reaped: seq<nat>)
    requires Pids(procs, nextpid, reaped) && z < |procs| && procs[z].numbered
    ensures Pids(procs[z := Reaped(procs[z])], nextpid, reaped + [procs[z].pid])
  {
    var procs', reaped' := procs[z := Reaped(procs[z])], reaped + [procs[z].pid];
    assert PidAt(procs, nextpid, reaped, z);
    forall q: nat | q < |procs'| ensures PidAt(procs', nextpid, reaped', q) {
      assert PidAt(procs, nextpid, reaped, q) && PidsApart(procs, q, z);
    }
    forall q: nat, r: nat | q < |procs'| && r < |procs'| ensures PidsApart(procs', q, r) {
      assert PidsApart(procs, q, r);
    }
  }

  lemma ReapTable(procs: seq<Proc>, z: nat, init: nat, nextpid: nat, reaped: seq<nat>)
    requires Table(procs, init, nextpid, reaped) && z < |procs| && procs[z].state == Zombie
    ensures Table(procs[z := Reaped(procs[z])], init, nextpid, reaped + [procs[z].pid])
  {
    hide Forks, Pids, Sleepers;
    assert KinAt(procs, init, z);
    ReapKin(procs, z, init);
    ReapForks(procs, z);
    ReapSleepers(procs, z);
    ReapPids(procs, z, nextpid, reaped);
  }

  // ---- fork ----

  // What a step of fork by p on entry np leaves alone.
  predicate ForkStep(procs: seq<Proc>, procs': seq<Proc>, p: nat, np: nat) {
    && p < |procs| && np < |procs| && np != p && |procs'| == |procs|
    && procs[p].state == Running && procs'[p] == procs[p].(fork := procs'[p].fork)
    && procs[np].state in {Unused, Embryo} && procs[np].fork.NoFork? && procs'[np].fork.NoFork?
    && procs' == procs[np := procs'[np]][p := procs'[p]]
  }

  lemma ForkOther(procs: seq<Proc>, procs': seq<Proc>, p: nat, np: nat, q: nat)
    requires ForkStep(procs, procs', p, np) && q < |procs| && q != np
    ensures procs'[q] == procs[q].(fork := procs'[q].fork) && (q != p ==> procs'[q] == procs[q])
  {
  }

  lemma ForkKin(procs: seq<Proc>, procs': seq<Proc>, p: nat, np: nat, init: nat)
    requires Kin(procs, init) && ForkStep(procs, procs', p, np)
    requires KinAt(procs', init, np)
    ensures Kin(procs', init)
  {
    hide ForkStep;
    assert np != p && |procs'| == |procs| && procs[np].state in {Unused, Embryo} by { NewEntry(procs, procs', p, np); }
    ForkOther(procs, procs', p, np, init);
    forall q: nat | q < |procs'| && q != np ensures KinAt(procs', init, q) {
      ForkOther(procs, procs', p, np, q);
      assert KinAt(procs, init, q);
      if procs[q].parent.Some? {
        ForkOther(procs, procs', p, np, procs[q].parent.value);
      }
    }
  }

  lemma NewEntry(procs: seq<Proc>, procs': seq<Proc>, p: nat, np: nat)
    requires ForkStep(procs, procs', p, np)
    ensures np != p && |procs'| == |procs| && p < |procs| && np < |procs| && procs[np].state in {Unused, Embryo}
    ensures procs[np].fork.NoFork? && procs'[np].fork.NoFork?
  {
  }

  ghost predicate OnlyMaker(procs: seq<Proc>, p: nat, np: nat) {
    forall q: nat :: q < |procs| && q != p && !procs[q].fork.NoFork? ==> procs[q].fork.np != np
  }

  lemma ForkForks(procs: seq<Proc>, procs': seq<Proc>, p: nat, np: nat)
    requires Forks(procs) && ForkStep(procs, procs', p, np) && OnlyMaker(procs, p, np)
    requires ForkAt(procs', p) && (!procs'[p].fork.NoFork? ==> procs'[p].fork.np == np)
    ensures Forks(procs')
  {
    hide ForkStep;
    NewEntry(procs, procs', p, np);
    forall q: nat | q < |procs'| && q != p ensures ForkAt(procs', q) {
      assert ForkAt(procs, q);
      if q != np {
        ForkOther(procs, procs', p, np, q);
        if !procs[q].fork.NoFork? {
          ForkOther(procs, procs', p, np, procs[q].fork.np);
        }
      }
    }
    forall q: nat, r: nat | q < |procs'| && r < |procs'| ensures ForksApart(procs', q, r) {
      assert ForksApart(procs, q, r);
      if q != np && r != np {
        ForkOther(procs, procs', p, np, q);
        ForkOther(procs, procs', p, np, r);
      }
    }
  }

  lemma ForkSleepers(procs: seq<Proc>, procs': seq<Proc>, p: nat, np: nat)
    requires Sleepers(procs) && ForkStep(procs, procs', p, np)
    requires procs'[np].state != Sleeping && procs'[np].state != Zombie
             && !(procs'[np].state == Runnable && procs'[np].resume.InWait?)
    ensures Sleepers(procs')
  {
    hide HasZombie;
    forall q: nat | q < |procs'| ensures SleepAt(procs', q) {
      assert SleepAt(procs, q);
      if q != np {
        ForkOther(procs, procs', p, np, q);
      }
      if !HasZombie(procs, q) {
        forall z: nat | z < |procs'| ensures !ZombieChild(procs', q, z) {
          NoZombie(procs, q, z);
          if z != np {
            ForkOther(procs, procs', p, np, z);
          }
        }
        AllNoZombie(procs', q);
      }
    }
  }

  lemma ForkPids(procs: seq<Proc>, procs': seq<Proc>, p: nat, np: nat, nextpid: nat, nextpid': nat, reaped: seq<nat>)
    requires Pids(procs, nextpid, reaped) && ForkStep(procs, procs', p, np) && nextpid <= nextpid'
    requires procs'[np].numbered ==>
               || (procs'[np].pid == procs[np].pid && procs[np].numbered)
               || (procs'[np].pid == nextpid && 1 <= nextpid < nextpid')
    ensures Pids(procs', nextpid', reaped)
  {
    hide ForkStep;
    NewEntry(procs, procs', p, np);
    forall q: nat | q < |procs'| ensures PidAt(procs', nextpid', reaped, q) {
      assert PidAt(procs, nextpid, reaped, q);
      if q != np {
        ForkOther(procs, procs', p, np, q);
      }
    }
    forall q: nat, r: nat | q < |procs'| && r < |procs'| ensures PidsApart(procs', q, r) {
      assert PidsApart(procs, q, r) && PidAt(procs, nextpid, reaped, q) && PidAt(procs, nextpid, reaped, r);
      if q != np {
        ForkOther(procs, procs', p, np, q);
      }
      if r != np {
        ForkOther(procs, procs', p, np, r);
      }
    }
  }

  lemma MakerIsOnly(procs: seq<Proc>, p: nat)
    requires Forks(procs) && p < |procs| && !procs[p].fork.NoFork?
    ensures OnlyMaker(procs, p, procs[p].fork.np)
  {
    forall q: nat | q < |procs| && q != p && !procs[q].fork.NoFork? ensures procs[q].fork.np != procs[p].fork.np {
      assert ForksApart(procs, p, q);
    }
  }

  lemma NobodyMakes(procs: seq<Proc>, p: nat, np: nat)
    requires Forks(procs) && np < |procs| && procs[np].state == Unused
    ensures OnlyMaker(procs, p, np)
  {
    forall q: nat | q < |procs| && q != p && !procs[q].fork.NoFork? ensures procs[q].fork.np != np {
      assert ForkAt(procs, q);
    }
  }
}
