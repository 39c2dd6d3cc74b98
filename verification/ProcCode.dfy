/** The loops of proc.c over the process table, each run with ptable.lock held. */
module ProcCode {
  import opened Options
  import opened ProcModel

  datatype WaitResult = Collected(pid: nat) | Failed | MustSleep

  // The first i entries of the table passed to init.
  function ReparentTo(procs: seq<Proc>, p: nat, init: nat, i: nat): (r: seq<Proc>)
    requires i <= |procs|
    ensures |r| == |procs|
  {
    Reparent(procs[..i], p, init) + procs[i..]
  }

  ghost predicate ZombieBelow(procs: seq<Proc>, p: nat, i: nat) {
    exists q: nat :: q < i && q < |procs| && ZombieChild(procs, p, q)
  }

  // exit's table when its loop has passed i entries.
  ghost function ExitLoop(woken: seq<Proc>, p: nat, init: nat, i: nat): (r: seq<Proc>)
    requires i <= |woken|
    ensures |r| == |woken|
  {
    if ZombieBelow(woken, p, i) then Wake(ReparentTo(woken, p, init, i), Self(init)) else ReparentTo(woken, p, init, i)
  }

  lemma WakeKeepsZombies(procs: seq<Proc>, ch: Chan, p: nat)
    ensures ZombieBelow(Wake(procs, ch), p, |procs|) <==> HasZombie(procs, p)
  {
    forall q: nat | q < |procs| ensures ZombieChild(Wake(procs, ch), p, q) <==> ZombieChild(procs, p, q) {
    }
  }

  lemma ExitLoopAt(woken: seq<Proc>, p: nat, init: nat, i: nat, q: nat)
    requires i <= |woken| && q < |woken|
    ensures var a, b := woken[q], ExitLoop(woken, p, init, i)[q];
            && b == a.(state := b.state, parent := b.parent)
            && b.parent == (if q < i && a.parent == Some(p) then Some(init) else a.parent)
            && b.state == (if ZombieBelow(woken, p, i) && a.state == Sleeping && a.chan == Self(init) then Runnable
              else a.state)
  {
    hide ZombieBelow;
  }

  lemma ZombieBelowNext(procs: seq<Proc>, p: nat, i: nat)
    requires i < |procs|
    ensures ZombieBelow(procs, p, i + 1) <==> ZombieBelow(procs, p, i) || ZombieChild(procs, p, i)
  {
    if ZombieBelow(procs, p, i) {
      var q: nat :| q < i && q < |procs| && ZombieChild(procs, p, q);
      assert q < i + 1;
    }
  }

  // One turn of the loop, for an entry that is a child and for one that is not.
  lemma ExitLoopStep(woken: seq<Proc>, p: nat, init: nat, i: nat)
    requires i < |woken|
    ensures var now := ExitLoop(woken, p, init, i);
            ExitLoop(woken, p, init, i + 1) ==
            if now[i].parent != Some(p) then now
            else var moved := now[i := now[i].(parent := Some(init))];
                 if moved[i].state == Zombie then Wake(moved, Self(init)) else moved
  {
    hide ExitLoop, ZombieBelow;
    var now, next := ExitLoop(woken, p, init, i), ExitLoop(woken, p, init, i + 1);
    ZombieBelowNext(woken, p, i);
    ExitLoopAt(woken, p, init, i, i);
    var moved := now[i := now[i].(parent := Some(init))];
    var want := if now[i].parent != Some(p) then now else if moved[i].state == Zombie then Wake(moved, Self(init))
      else moved;
    forall q: nat | q < |woken| ensures next[q] == want[q] {
      ExitLoopAt(woken, p, init, i, q);
      ExitLoopAt(woken, p, init, i + 1, q);
    }
    assert next == want;
  }

  class ProcTable {
    const procs: array<Proc>

    constructor (n: nat)
      ensures procs.Length == n && fresh(procs)
      ensures forall p :: 0 <= p < n ==> procs[p].state == Unused
    {
      procs := new Proc[n](_ => Proc(Unused, 0, false, None, NoChan, false, false, false, InForkret, NoFork));
    }

    method Wakeup1(ch: Chan)
      modifies procs
      ensures procs[..] == Wake(old(procs[..]), ch)
    {
      ghost var before := procs[..];
      var p := 0;
      while p < procs.Length
        invariant 0 <= p <= procs.Length
        invariant forall q :: 0 <= q < p ==> procs[q] == Wake(before, ch)[q]
        invariant forall q :: p <= q < procs.Length ==> procs[q] == before[q]
      {
        if procs[p].state == Sleeping && procs[p].chan == ch {
          procs[p] := procs[p].(state := Runnable);
        }
        p := p + 1;
      }
    }

    // exit, once it has ptable.lock.
    method Exit(curproc: nat, init: nat)
      requires curproc < procs.Length && curproc != init
      modifies procs
      ensures procs[..] == ExitProcs(old(procs[..]), curproc, init)
    {
      ghost var before := procs[..];
      var parent := procs[curproc].parent;
      if parent.Some? {
        Wakeup1(Self(parent.value));
      }
      ghost var woken := procs[..];
      PassChildren(curproc, init);
      assert HasZombie(before, curproc) <==> ZombieBelow(woken, curproc, |woken|) by {
        if parent.Some? {
          WakeKeepsZombies(before, Self(parent.value), curproc);
        }
      }
      assert ReparentTo(woken, curproc, init, |woken|) == Reparent(woken, curproc, init) by {
        assert woken[..|woken|] == woken;
      }
      procs[curproc] := procs[curproc].(state := Zombie);
    }

    // Every child of p gets init for a parent.
    method PassChildren(curproc: nat, init: nat)
      modifies procs
      ensures procs[..] == ExitLoop(old(procs[..]), curproc, init, procs.Length)
    {
      ghost var woken := procs[..];
      var p := 0;
      assert ReparentTo(woken, curproc, init, 0) == woken;
      while p < procs.Length
        invariant 0 <= p <= procs.Length
        invariant procs[..] == ExitLoop(woken, curproc, init, p)
      {
        hide ExitLoop, Wake;
        ExitLoopStep(woken, curproc, init, p);
        ghost var now := procs[..];
        if procs[p].parent == Some(curproc) {
          procs[p] := procs[p].(parent := Some(init));
          assert procs[..] == now[p := now[p].(parent := Some(init))];
          if procs[p].state == Zombie {
            Wakeup1(Self(init));
          }
        }
        p := p + 1;
      }
    }

    // One round of wait's loop, up to the release or the sleep.
    method WaitRound(curproc: nat) returns (r: WaitResult)
      requires curproc < procs.Length
      modifies procs
      ensures var was := old(procs[..]); var z := FirstZombie(was, curproc, 0);
              if z < |was| then r == Collected(was[z].pid) && procs[..] == was[z := Reaped(was[z])]
              else procs[..] == was && r == (if !HasKid(was, curproc) || was[curproc].killed then Failed else MustSleep)
    {
      ghost var was := procs[..];
      var havekids := false;
      var p := 0;
      while p < procs.Length
        invariant 0 <= p <= procs.Length && procs[..] == was
        invariant FirstZombie(was, curproc, 0) == FirstZombie(was, curproc, p)
        invariant havekids <==> exists q :: 0 <= q < p && was[q].parent == Some(curproc)
      {
        if procs[p].parent == Some(curproc) {
          havekids := true;
          if procs[p].state == Zombie {
            r := Collected(procs[p].pid);
            procs[p] := Reaped(procs[p]);
            return;
          }
        }
        p := p + 1;
      }
      if !havekids || procs[curproc].killed {
        r := Failed;
      } else {
        r := MustSleep;
      }
    }

    // allocproc's search.
    method Claim() returns (r: Option<nat>)
      modifies procs
      ensures var was := old(procs[..]); var q := FirstUnused(was, 0);
              if q < |was| then r == Some(q) && procs[..] == was[q := was[q].(state := Embryo, numbered := false)]
              else r == None && procs[..] == was
    {
      ghost var was := procs[..];
      var p := 0;
      while p < procs.Length && procs[p].state != Unused
        invariant 0 <= p <= procs.Length && procs[..] == was
        invariant FirstUnused(was, 0) == FirstUnused(was, p)
      {
        p := p + 1;
      }
      if p < procs.Length {
        procs[p] := procs[p].(state := Embryo, numbered := false);
        r := Some(p);
      } else {
        r := None;
      }
    }

    // kill with SIGKILL: a sleeper is made runnable, wherever it sleeps.
    method Kill(pid: nat) returns (found: bool)
      modifies procs
      ensures var was := old(procs[..]); var q := FirstPid(was, pid, 0);
              && found == (q < |was|)
              && procs[..] == (if found && was[q].state == Sleeping then was[q := was[q].(state := Runnable)] else was)
    {
      ghost var was := procs[..];
      var p := 0;
      while p < procs.Length && procs[p].pid != pid
        invariant 0 <= p <= procs.Length && procs[..] == was
        invariant FirstPid(was, pid, 0) == FirstPid(was, pid, p)
      {
        p := p + 1;
      }
      found := p < procs.Length;
      if found && procs[p].state == Sleeping {
        procs[p] := procs[p].(state := Runnable);
      }
    }
  }
}
