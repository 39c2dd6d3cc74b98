/** What each step of proc.c does, in every reachable state: to the process it is about, to the lock, and that it
    does nothing else. */
module ProcEffects {
  import opened Options
  import opened ProcModel
  import opened CpuOwnership
  import opened ProcFamily
  import opened ProcLife
  import opened ProcSafety
  import opened ProcTheorems

  // ---- frames ----

  // Only entries in ps change.
  ghost predicate OnlyProcs(s: System, s': System, ps: set<nat>) {
    && |s'.procs| == |s.procs| && s'.init == s.init
    && (forall q: nat :: q < |s.procs| && q !in ps ==> s'.procs[q] == s.procs[q])
  }

  // CPU c carries on with p without the lock; no other CPU is touched.
  ghost predicate CarriesOn(s: System, s': System, c: nat, p: nat) {
    s'.lock == None && OnlyCpu(s, s', c) && s'.cpus[c] == Cpu(Some(p), InKernel(p))
  }

  // CPU c goes back to its scheduler, which has the lock now.
  ghost predicate GivesUp(s: System, s': System, c: nat, p: nat) {
    s'.lock == s.lock && OnlyCpu(s, s', c) && s'.cpus[c] == Cpu(Some(p), Returned(p))
  }

  ghost predicate OnlyCpu(s: System, s': System, c: nat) {
    && c < |s.cpus| == |s'.cpus|
    && (forall d: nat :: d < |s.cpus| && d != c ==> s'.cpus[d] == s.cpus[d])
  }

  // Nothing is numbered or collected.
  predicate SameNumbers(s: System, s': System) {
    s'.nextpid == s.nextpid && s'.reaped == s.reaped
  }

  // Process p, on CPU c, has the lock for t.
  ghost predicate At(s: System, c: nat, p: nat, t: Task) {
    Reachable(s) && c < |s.cpus| && s.cpus[c].mode == Holding(p, t)
  }

  lemma AtFacts(s: System, c: nat, p: nat, t: Task)
    requires At(s, c, p, t)
    ensures Inv(s) && Enabled(s, Act(c)) && p < |s.procs| && s.procs[p].state == Running && s.lock == Some(c)
    ensures s.cpus[c] == Cpu(Some(p), Holding(p, t)) && KinAt(s.procs, s.init, p) && ForkAt(s.procs, p)
    ensures t.Resuming? || TaskAllowed(|s.procs|, s.init, p, s.procs[p], t)
  {
    ReachableInv(s);
    assert CpuAt(s.procs, s.init, s.cpus[c]);
    LockHeld(s, c);
  }

  // ---- process numbers: no two entries ever have the same one, used or not ----

  predicate NumberAt(procs: seq<Proc>, nextpid: nat, reaped: seq<nat>, p: nat)
    requires p < |procs|
  {
    procs[p].pid != 0 ==> procs[p].pid < nextpid && procs[p].pid !in reaped
  }

  predicate NumbersApart(procs: seq<Proc>, p: nat, q: nat)
    requires p < |procs| && q < |procs|
  {
    p != q && procs[p].pid != 0 ==> procs[p].pid != procs[q].pid
  }

  ghost predicate Numbers(s: System) {
    && (forall p: nat :: p < |s.procs| ==> NumberAt(s.procs, s.nextpid, s.reaped, p))
    && (forall p: nat, q: nat :: p < |s.procs| && q < |s.procs| ==> NumbersApart(s.procs, p, q))
    && (forall x :: x in s.reaped ==> x < s.nextpid) && 1 <= s.nextpid
  }

  ghost predicate SamePids(s: System, s': System) {
    && |s'.procs| == |s.procs| && SameNumbers(s, s')
    && (forall q: nat :: q < |s.procs| ==> s'.procs[q].pid == s.procs[q].pid)
  }

  lemma SamePidsKeep(s: System, s': System)
    requires Numbers(s) && SamePids(s, s')
    ensures Numbers(s')
  {
    forall p: nat | p < |s'.procs| ensures NumberAt(s'.procs, s'.nextpid, s'.reaped, p) {
      assert NumberAt(s.procs, s.nextpid, s.reaped, p);
    }
    forall p: nat, q: nat | p < |s'.procs| && q < |s'.procs| ensures NumbersApart(s'.procs, p, q) {
      assert NumbersApart(s.procs, p, q);
    }
  }

  // One entry gets the next number, or gives its own up.
  lemma NewNumberKeeps(s: System, s': System, np: nat)
    requires Numbers(s) && np < |s.procs| == |s'.procs| && s'.nextpid == s.nextpid + 1 && s'.reaped == s.reaped
    requires s'.procs[np].pid == s.nextpid
    requires forall q: nat :: q < |s.procs| && q != np ==> s'.procs[q].pid == s.procs[q].pid
    ensures Numbers(s')
  {
    forall p: nat | p < |s'.procs| ensures NumberAt(s'.procs, s'.nextpid, s'.reaped, p) {
      assert NumberAt(s.procs, s.nextpid, s.reaped, p);
    }
    forall p: nat, q: nat | p < |s'.procs| && q < |s'.procs| ensures NumbersApart(s'.procs, p, q) {
      assert NumbersApart(s.procs, p, q) && NumberAt(s.procs, s.nextpid, s.reaped, p);
      assert NumberAt(s.procs, s.nextpid, s.reaped, q);
    }
  }

  lemma GivenUpKeeps(s: System, s': System, z: nat)
    requires Numbers(s) && z < |s.procs| == |s'.procs| && s'.nextpid == s.nextpid
    requires s'.reaped == s.reaped + [s.procs[z].pid] && s'.procs[z].pid == 0
    requires forall q: nat :: q < |s.procs| && q != z ==> s'.procs[q].pid == s.procs[q].pid
    ensures Numbers(s')
  {
    assert NumberAt(s.procs, s.nextpid, s.reaped, z);
    forall p: nat | p < |s'.procs| ensures NumberAt(s'.procs, s'.nextpid, s'.reaped, p) {
      assert NumberAt(s.procs, s.nextpid, s.reaped, p) && NumbersApart(s.procs, p, z);
    }
    forall p: nat, q: nat | p < |s'.procs| && q < |s'.procs| ensures NumbersApart(s'.procs, p, q) {
      assert NumbersApart(s.procs, p, q) && NumbersApart(s.procs, q, p);
    }
  }

  lemma ActNumbers(s: System, c: nat, p: nat, t: Task)
    requires Numbers(s) && c < |s.cpus| && p < |s.procs|
    requires t.Resuming? || TaskAllowed(|s.procs|, s.init, p, s.procs[p], t)
    ensures Numbers(DoAct(s, c, p, t))
  {
    hide Numbers, HasKid, HasZombie;
    var s' := DoAct(s, c, p, t);
    match t
    case Numbering => NewNumberKeeps(s, s', s.procs[p].fork.np);
    case Waiting =>
      var z := FirstZombie(s.procs, p, 0);
      if z < |s.procs| {
        GivenUpKeeps(s, s', z);
      } else {
        SamePidsKeep(s, s');
      }
    case Exiting =>
      hide ExitProcs;
      forall q: nat | q < |s.procs| ensures s'.procs[q].pid == s.procs[q].pid {
        ExitAt(s.procs, p, s.init, q);
      }
      SamePidsKeep(s, s');
    case _ => SamePidsKeep(s, s');
  }

  lemma StepNumbers(s: System, st: Step)
    requires Numbers(s) && Enabled(s, st)
    ensures Numbers(Do(s, st))
  {
    hide Numbers, DoAct;
    match st
    case Act(c) => ActNumbers(s, c, s.cpus[c].mode.p, s.cpus[c].mode.t);
    case _ => SamePidsKeep(s, Do(s, st));
  }

  lemma {:induction false} RunNumbers(s: System, steps: seq<Step>)
    requires Numbers(s) && Run(s, steps)
    ensures Numbers(Exec(s, steps))
    decreases |steps|
  {
    hide Numbers, Enabled, Do;
    if steps != [] {
      StepNumbers(s, steps[0]);
      RunNumbers(Do(s, steps[0]), steps[1..]);
    }
  }

  lemma ReachableNumbers(s: System)
    requires Reachable(s)
    ensures Numbers(s)
  {
    var boot: System, steps: seq<Step> :| Boot(boot) && Run(boot, steps) && s == Exec(boot, steps);
    hide Run, Exec;
    RunNumbers(boot, steps);
  }

  // ---- an entry that no process uses yet, or any more, is not marked killed ----

  predicate UnmarkedAt(pr: Proc) {
    pr.state == Unused || pr.state == Embryo ==> !pr.killed
  }

  ghost predicate Unmarked(procs: seq<Proc>) {
    forall p: nat :: p < |procs| ==> UnmarkedAt(procs[p])
  }

  lemma ActUnmarked(s: System, c: nat, p: nat, t: Task)
    requires Unmarked(s.procs) && c < |s.cpus| && p < |s.procs|
    requires t.Resuming? || TaskAllowed(|s.procs|, s.init, p, s.procs[p], t)
    ensures Unmarked(DoAct(s, c, p, t).procs)
  {
    hide HasKid, HasZombie;
    if t.Exiting? {
      hide ExitProcs;
      var s' := DoAct(s, c, p, t);
      forall q: nat | q < |s'.procs| ensures UnmarkedAt(s'.procs[q]) {
        ExitAt(s.procs, p, s.init, q);
        assert UnmarkedAt(s.procs[q]);
      }
    }
  }

  lemma StepUnmarked(s: System, st: Step)
    requires Inv(s) && Unmarked(s.procs) && Enabled(s, st)
    ensures Unmarked(Do(s, st).procs)
  {
    hide DoAct, Kin, Sleepers, Pids;
    match st
    case Act(c) => ActUnmarked(s, c, s.cpus[c].mode.p, s.cpus[c].mode.t);
    case Build(c, _) =>
      assert ForkAt(s.procs, s.cpus[c].mode.p);
      assert UnmarkedAt(s.procs[s.procs[s.cpus[c].mode.p].fork.np]);
    case MarkKilled(c) => assert CpuAt(s.procs, s.init, s.cpus[c]);
    case _ =>
  }

  lemma {:induction false} RunUnmarked(s: System, steps: seq<Step>)
    requires Inv(s) && Unmarked(s.procs) && Run(s, steps)
    ensures Unmarked(Exec(s, steps).procs)
    decreases |steps|
  {
    hide Inv, Unmarked, Enabled, Do;
    if steps != [] {
      StepKeeps(s, steps[0]);
      StepUnmarked(s, steps[0]);
      RunUnmarked(Do(s, steps[0]), steps[1..]);
    }
  }

  lemma ReachableUnmarked(s: System)
    requires Reachable(s)
    ensures Unmarked(s.procs)
  {
    var boot: System, steps: seq<Step> :| Boot(boot) && Run(boot, steps) && s == Exec(boot, steps);
    hide Run, Exec;
    BootHolds(boot);
    RunUnmarked(boot, steps);
  }

  // ---- fork ----

  ghost predicate ClaimedFor(s: System, s': System, p: nat, np: nat)
    requires p < |s.procs| && np < |s.procs|
  {
    && np != p && OnlyProcs(s, s', {p, np})
    && s'.procs[np] == s.procs[np].(state := Embryo, numbered := false)
    && s'.procs[p] == s.procs[p].(fork := Claimed(np))
  }

  // allocproc's search takes an entry nobody uses, or there is none and nothing happens.
  lemma ForkClaims(s: System, c: nat, p: nat)
    requires At(s, c, p, Claiming)
    ensures Enabled(s, Act(c))
    ensures var s' := Do(s, Act(c));
            && p < |s.procs| && CarriesOn(s, s', c, p) && SameNumbers(s, s')
            && if exists q: nat :: q < |s.procs| && s.procs[q].state == Unused
               then
                 exists np: nat :: np < |s.procs| && s.procs[np].state == Unused && ClaimedFor(s, s', p, np)
               else s'.procs == s.procs
  {
    AtFacts(s, c, p, Claiming);
    var q := FirstUnused(s.procs, 0);
    if q < |s.procs| {
      assert s.procs[q].state == Unused && q != p;
    }
  }

  // allocpid's number has never been given to anybody.
  lemma ForkNumbers(s: System, c: nat, p: nat)
    requires At(s, c, p, Numbering)
    ensures Enabled(s, Act(c))
    ensures p < |s.procs| && s.procs[p].fork.Claimed? && s.procs[p].fork.np < |s.procs| && s.procs[p].fork.np != p
    ensures var s', np := Do(s, Act(c)), s.procs[p].fork.np;
            && CarriesOn(s, s', c, p) && OnlyProcs(s, s', {p, np}) && s'.reaped == s.reaped
            && s'.procs[p] == s.procs[p].(fork := Numbered(np))
            && s'.procs[np] == s.procs[np].(pid := s'.procs[np].pid, numbered := true)
            && s'.procs[np].pid !in s.reaped && s'.procs[np].pid != 0
            && (forall q: nat :: q < |s.procs| ==> s.procs[q].pid != s'.procs[np].pid)
  {
    AtFacts(s, c, p, Numbering);
    ReachableNumbers(s);
    forall q: nat | q < |s.procs| ensures s.procs[q].pid != s.nextpid {
      assert NumberAt(s.procs, s.nextpid, s.reaped, q);
    }
  }

  // Without the lock: the child's entry is filled in, or is unused again and the fork is over.
  lemma ForkBuilds(s: System, c: nat, ok: bool)
    requires Reachable(s) && Enabled(s, Build(c, ok))
    ensures var s', p := Do(s, Build(c, ok)), s.cpus[c].mode.p; var np := s.procs[p].fork.np;
            && np != p && OnlyProcs(s, s', {p, np}) && SameNumbers(s, s') && s'.cpus == s.cpus && s'.lock == s.lock
            && (ok ==>
                  && s'.procs[p] == s.procs[p].(fork := Built(np)) && s'.procs[np].state == Embryo
                  && s'.procs[np].parent == Some(p) && s'.procs[np].kstack && s'.procs[np].pgdir
                  && s'.procs[np].pid == s.procs[np].pid && s'.procs[np].resume == InForkret)
            && (!ok ==>
                  && s'.procs[p] == s.procs[p].(fork := NoFork) && s'.procs[np].state == Unused
                  && s'.procs[np].parent == None && !s'.procs[np].kstack && s'.procs[np].pgdir == s.procs[np].pgdir)
  {
    ReachableInv(s);
    var p := s.cpus[c].mode.p;
    assert CpuAt(s.procs, s.init, s.cpus[c]) && ForkAt(s.procs, p);
  }

  // The end of fork: the child can run, with all it needs and a number of its own; nobody else is touched.
  lemma ForkReadies(s: System, c: nat, p: nat)
    requires At(s, c, p, Readying)
    ensures Enabled(s, Act(c))
    ensures p < |s.procs| && s.procs[p].fork.Built? && s.procs[p].fork.np < |s.procs| && s.procs[p].fork.np != p
    ensures var s', np := Do(s, Act(c)), s.procs[p].fork.np; var child := s'.procs[np];
            && child.state == Runnable && child.parent == Some(p) && child.kstack && child.pgdir
            && child.resume == InForkret && child.pid == s.procs[np].pid && s.procs[np].state == Embryo
            && child.pid != 0 && child.pid !in s.reaped && !child.killed
            && (forall q: nat :: q < |s.procs| && q != np ==> s'.procs[q].pid != child.pid)
            && OnlyProcs(s, s', {p, np}) && s'.procs[p] == s.procs[p].(fork := NoFork)
            && CarriesOn(s, s', c, p) && SameNumbers(s, s')
            // any CPU whose scheduler has the lock may run it
            && forall d: nat :: d < |s'.cpus| && s'.cpus[d].mode == Idle ==>
                 && Enabled(s', SchedLock(d))
                 && Enabled(Do(s', SchedLock(d)), SchedPick(d, np))
  {
    AtFacts(s, c, p, Readying);
    ReachableNumbers(s);
    ReachableUnmarked(s);
    var np := s.procs[p].fork.np;
    assert PidAt(s.procs, s.nextpid, s.reaped, np) && UnmarkedAt(s.procs[np]);
    forall q: nat | q < |s.procs| && q != np ensures s.procs[q].pid != s.procs[np].pid {
      assert NumbersApart(s.procs, np, q);
    }
  }

  // The whole of fork, with nobody in between.
  function ForkSteps(c: nat): seq<Step> {
    [Act(c), Lock(c, Numbering), Act(c), Build(c, true), Lock(c, Readying), Act(c)]
  }

  // p has come so far in its fork of np, whose entry is pr; n numbers are given out.
  function Midway(s: System, c: nat, p: nat, np: nat, pr: Proc, f: Fork, n: nat, lock: Option<nat>, mode: Mode): System
    requires c < |s.cpus| && p < |s.procs| && np < |s.procs|
  {
    System(s.procs[np := pr][p := s.procs[p].(fork := f)], s.cpus[c := Cpu(Some(p), mode)], lock, s.init, n, s.reaped)
  }

  ghost predicate Leads(s: System, st: Step, s': System) {
    Enabled(s, st) && Do(s, st) == s'
  }

  lemma ClaimLeads(s: System, c: nat, p: nat, np: nat)
    requires c < |s.cpus| && p < |s.procs| && s.cpus[c].mode == Holding(p, Claiming) && s.procs[p].fork.NoFork?
    requires s.procs[p].state != Unused && np == FirstUnused(s.procs, 0) < |s.procs|
    ensures Leads(s, Act(c), Midway(s, c, p, np, s.procs[np].(state := Embryo, numbered := false), Claimed(np),
                                    s.nextpid, None, InKernel(p)))
  {
  }

  lemma LockLeads(s: System, c: nat, p: nat, np: nat, pr: Proc, f: Fork, n: nat, t: Task)
    requires c < |s.cpus| && p < |s.procs| && np < |s.procs| && np != p && s.procs[p].state != Unused
    requires (t.Numbering? && f == Claimed(np)) || (t.Readying? && f == Built(np))
    ensures Leads(Midway(s, c, p, np, pr, f, n, None, InKernel(p)), Lock(c, t),
                  Midway(s, c, p, np, pr, f, n, Some(c), Holding(p, t)))
  {
  }

  lemma NumberLeads(s: System, c: nat, p: nat, np: nat, pr: Proc, n: nat)
    requires c < |s.cpus| && p < |s.procs| && np < |s.procs| && np != p
    ensures Leads(Midway(s, c, p, np, pr, Claimed(np), n, Some(c), Holding(p, Numbering)), Act(c),
                  Midway(s, c, p, np, pr.(pid := n, numbered := true), Numbered(np), n + 1, None, InKernel(p)))
  {
  }

  lemma BuildLeads(s: System, c: nat, p: nat, np: nat, pr: Proc, n: nat)
    requires c < |s.cpus| && p < |s.procs| && np < |s.procs| && np != p
    ensures Leads(Midway(s, c, p, np, pr, Numbered(np), n, None, InKernel(p)), Build(c, true),
                  Midway(s, c, p, np, pr.(kstack := true, pgdir := true, parent := Some(p), resume := InForkret),
                         Built(np), n, None, InKernel(p)))
  {
  }

  lemma ReadyLeads(s: System, c: nat, p: nat, np: nat, pr: Proc, n: nat)
    requires c < |s.cpus| && p < |s.procs| && np < |s.procs| && np != p
    ensures Leads(Midway(s, c, p, np, pr, Built(np), n, Some(c), Holding(p, Readying)), Act(c),
                  Midway(s, c, p, np, pr.(state := Runnable), NoFork, n, None, InKernel(p)))
  {
  }

  // ss are the states that steps go through.
  ghost predicate Chain(ss: seq<System>, steps: seq<Step>) {
    |ss| == |steps| + 1 && forall i :: 0 <= i < |steps| ==> Leads(ss[i], steps[i], ss[i + 1])
  }

  lemma {:induction false} ChainRuns(ss: seq<System>, steps: seq<Step>)
    requires Chain(ss, steps)
    ensures Run(ss[0], steps) && Exec(ss[0], steps) == ss[|steps|]
    decreases |steps|
  {
    if steps != [] {
      assert Leads(ss[0], steps[0], ss[1]);
      hide Enabled, Do;
      assert Chain(ss[1..], steps[1..]);
      ChainRuns(ss[1..], steps[1..]);
    }
  }

  // The child a fork by p makes in the entry pr, with number n.
  function Child(pr: Proc, p: nat, n: nat): Proc {
    pr.(state := Runnable, pid := n, numbered := true, kstack := true, pgdir := true, parent := Some(p),
        resume := InForkret)
  }

  ghost predicate NewChild(s: System, s': System, c: nat, p: nat, np: nat)
    requires np < |s.procs|
  {
    && np != p && OnlyProcs(s, s', {np}) && s'.procs[np] == Child(s.procs[np], p, s.nextpid)
    && CarriesOn(s, s', c, p) && s'.nextpid == s.nextpid + 1 && s'.reaped == s.reaped
  }

  lemma ForkRuns(s: System, c: nat, p: nat, np: nat)
    requires c < |s.cpus| && p < |s.procs| && s.cpus[c].mode == Holding(p, Claiming) && s.procs[p].fork.NoFork?
    requires s.procs[p].state != Unused && np == FirstUnused(s.procs, 0) < |s.procs|
    ensures Run(s, ForkSteps(c)) && np != p
    ensures Exec(s, ForkSteps(c))
            == Midway(s, c, p, np, Child(s.procs[np], p, s.nextpid), NoFork, s.nextpid + 1, None, InKernel(p))
  {
    hide Leads, Run, Exec, Midway;
    var n := s.nextpid;
    var e1 := s.procs[np].(state := Embryo, numbered := false);
    var e2 := e1.(pid := n, numbered := true);
    var e3 := e2.(kstack := true, pgdir := true, parent := Some(p), resume := InForkret);
    ClaimLeads(s, c, p, np);
    LockLeads(s, c, p, np, e1, Claimed(np), n, Numbering);
    NumberLeads(s, c, p, np, e1, n);
    BuildLeads(s, c, p, np, e2, n + 1);
    LockLeads(s, c, p, np, e3, Built(np), n + 1, Readying);
    ReadyLeads(s, c, p, np, e3, n + 1);
    var ss := [s,
               Midway(s, c, p, np, e1, Claimed(np), n, None, InKernel(p)),
               Midway(s, c, p, np, e1, Claimed(np), n, Some(c), Holding(p, Numbering)),
               Midway(s, c, p, np, e2, Numbered(np), n + 1, None, InKernel(p)),
               Midway(s, c, p, np, e3, Built(np), n + 1, None, InKernel(p)),
               Midway(s, c, p, np, e3, Built(np), n + 1, Some(c), Holding(p, Readying)),
               Midway(s, c, p, np, e3.(state := Runnable), NoFork, n + 1, None, InKernel(p))];
    ChainRuns(ss, ForkSteps(c));
    assert e3.(state := Runnable) == Child(s.procs[np], p, n);
  }

  // A fork that finds an entry and memory makes one new process in an entry nobody used, with the next number;
  // p's own entry, and every other, is as it was.
  lemma ForkMakesOneChild(s: System, c: nat, p: nat)
    requires At(s, c, p, Claiming) && FirstUnused(s.procs, 0) < |s.procs|
    ensures Run(s, ForkSteps(c)) && s.procs[FirstUnused(s.procs, 0)].state == Unused
    ensures NewChild(s, Exec(s, ForkSteps(c)), c, p, FirstUnused(s.procs, 0))
  {
    AtFacts(s, c, p, Claiming);
    hide Inv, At, Reachable, Run, Exec, Midway, KinAt, ForkAt, NewChild, ForkSteps;
    var np := FirstUnused(s.procs, 0);
    ForkRuns(s, c, p, np);
    MidwayEnds(s, c, p, np, Child(s.procs[np], p, s.nextpid));
  }

  lemma MidwayEnds(s: System, c: nat, p: nat, np: nat, pr: Proc)
    requires c < |s.cpus| && p < |s.procs| && np < |s.procs| && np != p && s.procs[p].fork == NoFork
    requires pr == Child(s.procs[np], p, s.nextpid)
    ensures NewChild(s, Midway(s, c, p, np, pr, NoFork, s.nextpid + 1, None, InKernel(p)), c, p, np)
  {
  }

  // ---- sleep and wakeup ----

  // sleep: the process is on its channel with the lock still held, so no wakeup can come in between.
  lemma SleepSleeps(s: System, c: nat, p: nat, ch: nat)
    requires At(s, c, p, SleepingOn(ch))
    ensures Enabled(s, Act(c)) && p < |s.procs|
    ensures var s' := Do(s, Act(c));
            && s'.procs[p] == s.procs[p].(state := Sleeping, chan := Other(ch), resume := InSleep)
            && OnlyProcs(s, s', {p}) && GivesUp(s, s', c, p) && SameNumbers(s, s')
            && s'.lock.Some? && !Enabled(s', Interrupt(ch))
  {
    AtFacts(s, c, p, SleepingOn(ch));
  }

  // Everybody asleep on ch can run now; everybody else is as before.
  ghost predicate Wakes(s: System, s': System, ch: nat) {
    && |s'.procs| == |s.procs|
    && forall q: nat :: q < |s.procs| ==> WakesAt(s.procs[q], s'.procs[q], ch)
  }

  predicate WakesAt(a: Proc, b: Proc, ch: nat) {
    if a.state == Sleeping && a.chan == Other(ch) then b == a.(state := Runnable) else b == a
  }

  lemma WakeupWakes(s: System, c: nat, p: nat, ch: nat)
    requires At(s, c, p, Waking(ch))
    ensures Enabled(s, Act(c)) && p < |s.procs|
    ensures Wakes(s, Do(s, Act(c)), ch) && CarriesOn(s, Do(s, Act(c)), c, p) && SameNumbers(s, Do(s, Act(c)))
  {
    AtFacts(s, c, p, Waking(ch));
    forall q: nat | q < |s.procs| ensures WakesAt(s.procs[q], Do(s, Act(c)).procs[q], ch) {
      WakeAt(s.procs, Other(ch), q);
    }
  }

  lemma InterruptWakes(s: System, ch: nat)
    requires Enabled(s, Interrupt(ch))
    ensures var s' := Do(s, Interrupt(ch));
            Wakes(s, s', ch) && s'.lock == None && s'.cpus == s.cpus && SameNumbers(s, s')
  {
    forall q: nat | q < |s.procs| ensures WakesAt(s.procs[q], Do(s, Interrupt(ch)).procs[q], ch) {
      WakeAt(s.procs, Other(ch), q);
    }
  }

  // kill with SIGKILL: of all processes the one with that number, and it only if it sleeps, can run again.
  lemma KillWakes(s: System, c: nat, p: nat, pid: nat, q: nat)
    requires At(s, c, p, Killing(pid)) && q < |s.procs|
    ensures Enabled(s, Act(c)) && p < |s.procs|
    ensures var s' := Do(s, Act(c));
            && |s'.procs| == |s.procs| && CarriesOn(s, s', c, p) && SameNumbers(s, s')
            && s'.procs[q] == if s.procs[q].pid == pid && s.procs[q].state == Sleeping
                              then s.procs[q].(state := Runnable) else s.procs[q]
  {
    AtFacts(s, c, p, Killing(pid));
    ReachableNumbers(s);
    assert KinAt(s.procs, s.init, q) && PidAt(s.procs, s.nextpid, s.reaped, q);
    var k := FirstPid(s.procs, pid, 0);
    if k < |s.procs| {
      assert KinAt(s.procs, s.init, k) && PidAt(s.procs, s.nextpid, s.reaped, k);
      assert NumbersApart(s.procs, k, q);
    }
  }

  // ---- the scheduler ----

  lemma YieldYields(s: System, c: nat, p: nat)
    requires At(s, c, p, Yielding)
    ensures Enabled(s, Act(c)) && p < |s.procs|
    ensures var s' := Do(s, Act(c));
            && s'.procs[p] == s.procs[p].(state := Runnable, resume := InYield)
            && OnlyProcs(s, s', {p}) && GivesUp(s, s', c, p) && SameNumbers(s, s')
  {
    AtFacts(s, c, p, Yielding);
  }

  // A process that is picked is the one its CPU runs.
  lemma PickedRuns(s: System, c: nat, p: nat)
    requires Reachable(s) && Enabled(s, SchedPick(c, p))
    ensures var s' := Do(s, SchedPick(c, p));
            && s'.procs[p] == s.procs[p].(state := Running) && OnlyProcs(s, s', {p}) && OnlyCpu(s, s', c)
            && s'.cpus[c] == Cpu(Some(p), Holding(p, Resuming)) && s'.lock == s.lock == Some(c) && SameNumbers(s, s')
  {
    ReachableInv(s);
    LockHeld(s, c);
  }

  // It goes on where it left off: in sleep, which forgets its channel, in wait, which still holds the lock, or
  // at the point after it let the CPU go.
  lemma ResumedGoesOn(s: System, c: nat, p: nat)
    requires At(s, c, p, Resuming)
    ensures Enabled(s, Act(c)) && p < |s.procs|
    ensures var s' := Do(s, Act(c));
            && OnlyProcs(s, s', {p}) && OnlyCpu(s, s', c) && SameNumbers(s, s')
            && match s.procs[p].resume
               case InWait =>
                 && s'.cpus[c] == Cpu(Some(p), Holding(p, Waiting)) && s'.lock == Some(c)
                 && s'.procs[p] == s.procs[p].(chan := NoChan)
               case InSleep => CarriesOn(s, s', c, p) && s'.procs[p] == s.procs[p].(chan := NoChan)
               case _ => CarriesOn(s, s', c, p) && s'.procs[p] == s.procs[p]
  {
    AtFacts(s, c, p, Resuming);
  }

  // The rest only moves the lock and the scheduler's place.
  lemma LockingOnly(s: System, st: Step)
    requires Reachable(s) && Enabled(s, st) && (st.SchedLock? || st.SchedClear? || st.SchedUnlock? || st.Lock?)
    ensures var s' := Do(s, st);
            && s'.procs == s.procs && SameNumbers(s, s') && s'.init == s.init && OnlyCpu(s, s', st.c)
            && (st.SchedLock? ==> s'.lock == Some(st.c) && s'.cpus[st.c] == Cpu(None, Scanning))
            && (st.SchedClear? ==> s'.lock == s.lock == Some(st.c) && s'.cpus[st.c] == Cpu(None, Scanning))
            && (st.SchedUnlock? ==> s'.lock == None && s'.cpus[st.c] == Cpu(None, Idle))
            && (st.Lock? ==>
                  s'.lock == Some(st.c) && s'.cpus[st.c] == s.cpus[st.c].(mode := Holding(s.cpus[st.c].mode.p, st.t)))
  {
    ReachableInv(s);
    assert CpuAt(s.procs, s.init, s.cpus[st.c]);
    LockHeld(s, st.c);
  }

  lemma MarkMarks(s: System, c: nat)
    requires Enabled(s, MarkKilled(c))
    ensures var s', p := Do(s, MarkKilled(c)), s.cpus[c].mode.p;
            && OnlyProcs(s, s', {p}) && s'.procs[p] == s.procs[p].(killed := true)
            && s'.cpus == s.cpus && s'.lock == s.lock && SameNumbers(s, s')
  {
  }

  // ---- exit and wait ----

  // An exit makes the process a zombie and init the parent of its children; it wakes its own parent out of
  // wait, and init if one of the children is a zombie, and nobody else.
  lemma ExitDoes(s: System, c: nat, p: nat, q: nat)
    requires At(s, c, p, Exiting) && q < |s.procs|
    ensures Enabled(s, Act(c)) && p < |s.procs|
    ensures var s' := Do(s, Act(c)); var a := s.procs[q];
            && |s'.procs| == |s.procs| && GivesUp(s, s', c, p) && SameNumbers(s, s')
            && s'.procs[q].parent == (if a.parent == Some(p) then Some(s.init) else a.parent)
            && s'.procs[q] == a.(state := s'.procs[q].state, parent := s'.procs[q].parent)
            && s'.procs[q].state == ExitState(s, p, q)
  {
    AtFacts(s, c, p, Exiting);
    hide ExitProcs;
    ExitAt(s.procs, p, s.init, q);
    ExitStateIs(s, p, q);
  }

  ghost function ExitState(s: System, p: nat, q: nat): PState
    requires p < |s.procs| && q < |s.procs|
  {
    var a := s.procs[q];
    if q == p then Zombie
    else if a.state == Sleeping && a.chan.Self?
            && (s.procs[p].parent == Some(a.chan.p) || (a.chan.p == s.init && HasZombie(s.procs, p))) then Runnable
    else a.state
  }

  lemma ExitStateIs(s: System, p: nat, q: nat)
    requires p < |s.procs| && q < |s.procs|
    ensures ExitProcs(s.procs, p, s.init)[q].state == ExitState(s, p, q)
  {
    hide Wake, Reparent, HasZombie;
    var woken := if s.procs[p].parent.Some? then Wake(s.procs, Self(s.procs[p].parent.value)) else s.procs;
    var moved := Reparent(woken, p, s.init);
    if s.procs[p].parent.Some? {
      WakeAt(s.procs, Self(s.procs[p].parent.value), q);
    }
    ReparentAt(woken, p, s.init, q);
    WakeAt(moved, Self(s.init), q);
  }

  // Without an exited child wait fails, exactly if there is no child at all or the caller is killed; else it sleeps.
  lemma WaitFailsOrSleeps(s: System, c: nat, p: nat)
    requires At(s, c, p, Waiting) && p < |s.procs| && !HasZombie(s.procs, p)
    ensures Enabled(s, Act(c))
    ensures var s' := Do(s, Act(c));
            && SameNumbers(s, s')
            && if !HasKid(s.procs, p) || s.procs[p].killed
               then s'.procs == s.procs && CarriesOn(s, s', c, p)
               else OnlyProcs(s, s', {p}) && GivesUp(s, s', c, p)
                    && s'.procs[p] == s.procs[p].(state := Sleeping, chan := Self(p), resume := InWait)
  {
    AtFacts(s, c, p, Waiting);
    hide HasKid;
    var z := FirstZombie(s.procs, p, 0);
    if z < |s.procs| {
      assert false;
    }
  }
}
