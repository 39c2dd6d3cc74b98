/** Parents, children, sleepers, forks and process numbers: what every critical section of proc.c keeps. */
module ProcFamily {
  import opened Options
  import opened ProcModel

  // A used entry with a parent has one that is alive; an entry that can run or has run owns its stack,
  // page directory and number, and only init has no parent.
  predicate KinAt(procs: seq<Proc>, init: nat, p: nat)
    requires p < |procs|
  {
    && (procs[p].parent.Some? ==>
          && procs[p].state != Unused && procs[p].parent.value != p
          && procs[p].parent.value < |procs| && Alive(procs[procs[p].parent.value].state))
    && (Alive(procs[p].state) || procs[p].state == Zombie ==> procs[p].kstack && procs[p].pgdir && procs[p].numbered)
    && (Alive(procs[p].state) || procs[p].state == Zombie ==> p == init || procs[p].parent.Some?)
    && (procs[p].state == Unused ==> !procs[p].numbered)
  }

  ghost predicate Kin(procs: seq<Proc>, init: nat) {
    && init < |procs| && Alive(procs[init].state) && procs[init].parent == None
    && forall p: nat :: p < |procs| ==> KinAt(procs, init, p)
  }

  // A process in fork works on an EMBRYO entry of its own.
  predicate ForkAt(procs: seq<Proc>, p: nat)
    requires p < |procs|
  {
    match procs[p].fork
    case NoFork => true
    case Claimed(np) => Alive(procs[p].state) && np < |procs| && procs[np].state == Embryo && procs[np].parent == None
    case Numbered(np) =>
      Alive(procs[p].state) && np < |procs| && procs[np].state == Embryo && procs[np].parent == None
        && procs[np].numbered
    case Built(np) =>
      && Alive(procs[p].state) && np < |procs| && procs[np].state == Embryo && procs[np].parent == Some(p)
      && procs[np].numbered && procs[np].kstack && procs[np].pgdir && procs[np].resume == InForkret
  }

  predicate ForksApart(procs: seq<Proc>, p: nat, q: nat)
    requires p < |procs| && q < |procs|
  {
    !procs[p].fork.NoFork? && !procs[q].fork.NoFork? && p != q ==> procs[p].fork.np != procs[q].fork.np
  }

  ghost predicate Forks(procs: seq<Proc>) {
    && (forall p: nat :: p < |procs| ==> ForkAt(procs, p))
    && (forall p: nat, q: nat :: p < |procs| && q < |procs| ==> ForksApart(procs, p, q))
  }

  // A process asleep on itself is its own sleeper, in wait, and has no exited child to collect; a
  // process that will continue in wait is not in fork.
  ghost predicate SleepAt(procs: seq<Proc>, p: nat)
    requires p < |procs|
  {
    && (procs[p].state == Sleeping && procs[p].chan.Self? ==> procs[p].chan.p == p && !HasZombie(procs, p))
    && ((procs[p].state == Sleeping || procs[p].state == Runnable) && procs[p].resume.InWait? ==> procs[p].fork.NoFork?)
  }

  ghost predicate Sleepers(procs: seq<Proc>) {
    forall p: nat :: p < |procs| ==> SleepAt(procs, p)
  }

  predicate PidAt(procs: seq<Proc>, nextpid: nat, reaped: seq<nat>, p: nat)
    requires p < |procs|
  {
    procs[p].numbered ==> 1 <= procs[p].pid < nextpid && procs[p].pid !in reaped
  }

  predicate PidsApart(procs: seq<Proc>, p: nat, q: nat)
    requires p < |procs| && q < |procs|
  {
    procs[p].numbered && procs[q].numbered && p != q ==> procs[p].pid != procs[q].pid
  }

  ghost predicate NoRepeat(s: seq<nat>) {
    forall i: nat, j: nat :: i < j < |s| ==> s[i] != s[j]
  }

  ghost predicate Pids(procs: seq<Proc>, nextpid: nat, reaped: seq<nat>) {
    && (forall p: nat :: p < |procs| ==> PidAt(procs, nextpid, reaped, p))
    && (forall p: nat, q: nat :: p < |procs| && q < |procs| ==> PidsApart(procs, p, q))
    && NoRepeat(reaped)
    && (forall x :: x in reaped ==> 1 <= x < nextpid)
  }

  ghost predicate Table(procs: seq<Proc>, init: nat, nextpid: nat, reaped: seq<nat>) {
    Kin(procs, init) && Forks(procs) && Sleepers(procs) && Pids(procs, nextpid, reaped)
  }

  // ---- steps that only move processes between SLEEPING, RUNNABLE and RUNNING ----

  predicate SameKin(a: Proc, b: Proc) {
    && (if Alive(a.state) then Alive(b.state) else b.state == a.state)
    && b.pid == a.pid && b.numbered == a.numbered && b.parent == a.parent
    && b.kstack == a.kstack && b.pgdir == a.pgdir && b.fork == a.fork
    && (a.state == Embryo ==> b.resume == a.resume)
  }

  // b neither newly sleeps in wait nor newly sets out to continue there.
  predicate NoNewWait(a: Proc, b: Proc) {
    && (b.state == Sleeping && b.chan.Self? ==> a.state == Sleeping && a.chan == b.chan)
    && ((b.state == Sleeping || b.state == Runnable) && b.resume.InWait? ==>
          (a.state == Sleeping || a.state == Runnable) && a.resume.InWait?)
  }

  ghost predicate Moves(procs: seq<Proc>, procs': seq<Proc>) {
    && |procs'| == |procs|
    && (forall q: nat :: q < |procs| ==> SameKin(procs[q], procs'[q]))
  }

  lemma MovesKin(procs: seq<Proc>, procs': seq<Proc>, init: nat)
    requires Kin(procs, init) && Moves(procs, procs')
    ensures Kin(procs', init)
  {
    forall p: nat | p < |procs'| ensures KinAt(procs', init, p) {
      assert KinAt(procs, init, p) && SameKin(procs[p], procs'[p]);
      if procs[p].parent.Some? {
        assert SameKin(procs[procs[p].parent.value], procs'[procs[p].parent.value]);
      }
    }
    assert SameKin(procs[init], procs'[init]);
  }

  lemma MovesForks(procs: seq<Proc>, procs': seq<Proc>)
    requires Forks(procs) && Moves(procs, procs')
    ensures Forks(procs')
  {
    forall p: nat | p < |procs'| ensures ForkAt(procs', p) {
      assert ForkAt(procs, p) && SameKin(procs[p], procs'[p]);
      if !procs[p].fork.NoFork? {
        assert SameKin(procs[procs[p].fork.np], procs'[procs[p].fork.np]);
      }
    }
    forall p: nat, q: nat | p < |procs'| && q < |procs'| ensures ForksApart(procs', p, q) {
      assert ForksApart(procs, p, q) && SameKin(procs[p], procs'[p]) && SameKin(procs[q], procs'[q]);
    }
  }

  lemma MovesPids(procs: seq<Proc>, procs': seq<Proc>, nextpid: nat, reaped: seq<nat>)
    requires Pids(procs, nextpid, reaped) && Moves(procs, procs')
    ensures Pids(procs', nextpid, reaped)
  {
    forall p: nat | p < |procs'| ensures PidAt(procs', nextpid, reaped, p) {
      assert PidAt(procs, nextpid, reaped, p) && SameKin(procs[p], procs'[p]);
    }
    forall p: nat, q: nat | p < |procs'| && q < |procs'| ensures PidsApart(procs', p, q) {
      assert PidsApart(procs, p, q) && SameKin(procs[p], procs'[p]) && SameKin(procs[q], procs'[q]);
    }
  }

  lemma MovesZombie(procs: seq<Proc>, procs': seq<Proc>, p: nat)
    requires Moves(procs, procs')
    ensures HasZombie(procs', p) <==> HasZombie(procs, p)
  {
    forall q: nat | q < |procs| ensures ZombieChild(procs', p, q) <==> ZombieChild(procs, p, q) {
      assert SameKin(procs[q], procs'[q]);
    }
  }

  lemma MovesSleepers(procs: seq<Proc>, procs': seq<Proc>)
    requires Sleepers(procs) && Moves(procs, procs')
    requires forall q: nat :: q < |procs| ==> NoNewWait(procs[q], procs'[q])
    ensures Sleepers(procs')
  {
    forall p: nat | p < |procs'| ensures SleepAt(procs', p) {
      MovesZombie(procs, procs', p);
      assert SleepAt(procs, p) && SameKin(procs[p], procs'[p]) && NoNewWait(procs[p], procs'[p]);
    }
  }

  lemma MovesTable(procs: seq<Proc>, procs': seq<Proc>, init: nat, nextpid: nat, reaped: seq<nat>)
    requires Table(procs, init, nextpid, reaped) && Moves(procs, procs')
    requires forall q: nat :: q < |procs| ==> NoNewWait(procs[q], procs'[q])
    ensures Table(procs', init, nextpid, reaped)
  {
    hide Kin, Forks, Sleepers, Pids, Moves, NoNewWait;
    MovesKin(procs, procs', init);
    MovesForks(procs, procs');
    MovesPids(procs, procs', nextpid, reaped);
    MovesSleepers(procs, procs');
  }

  lemma OneMoves(procs: seq<Proc>, p: nat, pr: Proc, init: nat, nextpid: nat, reaped: seq<nat>)
    requires p < |procs| && Table(procs, init, nextpid, reaped)
    requires SameKin(procs[p], pr) && NoNewWait(procs[p], pr)
    ensures Table(procs[p := pr], init, nextpid, reaped)
  {
    hide Table, SameKin, NoNewWait;
    var procs' := procs[p := pr];
    forall q: nat | q < |procs| ensures SameKin(procs[q], procs'[q]) && NoNewWait(procs[q], procs'[q]) {
      if q != p {
        SameIsSame(procs[q]);
      }
    }
    MovesTable(procs, procs', init, nextpid, reaped);
  }

  lemma SameIsSame(a: Proc)
    ensures SameKin(a, a) && NoNewWait(a, a)
  {
  }

  lemma WakeTable(procs: seq<Proc>, ch: Chan, init: nat, nextpid: nat, reaped: seq<nat>)
    requires Table(procs, init, nextpid, reaped)
    ensures Table(Wake(procs, ch), init, nextpid, reaped)
  {
    hide Table;
    MovesTable(procs, Wake(procs, ch), init, nextpid, reaped);
  }

  // wait goes to sleep: with the lock held it has just seen that no child has exited.
  lemma WaitSleeps(procs: seq<Proc>, p: nat, init: nat, nextpid: nat, reaped: seq<nat>)
    requires p < |procs| && Table(procs, init, nextpid, reaped)
    requires procs[p].state == Running && procs[p].fork.NoFork? && !HasZombie(procs, p)
    ensures Table(procs[p := SleepProc(procs[p], Self(p), InWait)], init, nextpid, reaped)
  {
    hide Kin, Forks, Pids;
    var procs' := procs[p := SleepProc(procs[p], Self(p), InWait)];
    assert Moves(procs, procs');
    MovesKin(procs, procs', init);
    MovesForks(procs, procs');
    MovesPids(procs, procs', nextpid, reaped);
    forall q: nat | q < |procs'| ensures SleepAt(procs', q) {
      MovesZombie(procs, procs', q);
      assert SleepAt(procs, q);
    }
  }
}
