/** The process table of proc.c, any number of processes and CPUs, and every interleaving of their
    critical sections. ptable.lock is handed over through swtch: a process that gives up its CPU
    keeps holding it until the scheduler, or the next process to run there, lets it go. */
module ProcModel {
  import opened Options

  datatype PState = Unused | Embryo | Sleeping | Runnable | Running | Zombie

  // An address to sleep on; wait() sleeps on the process itself.
  datatype Chan = NoChan | Self(p: nat) | Other(c: nat)

  // Where a process that is not running will continue.
  datatype Resume = InForkret | InYield | InSleep | InWait

  // How far a process has come in fork(), and for which table entry.
  datatype Fork = NoFork | Claimed(np: nat) | Numbered(np: nat) | Built(np: nat)

  // struct proc; numbered says that pid belongs to the present use of the entry.
  datatype Proc = Proc(state: PState, pid: nat, numbered: bool, parent: Option<nat>, chan: Chan, killed: bool,
                       kstack: bool, pgdir: bool, resume: Resume, fork: Fork)

  // What a process wants ptable.lock for.
  datatype Task =
    | Yielding
    | SleepingOn(c: nat)
    | Waking(c: nat)
    | Exiting
    | Waiting
    | Claiming          // allocproc's search
    | Numbering         // allocpid
    | Readying          // the end of fork
    | Killing(pid: nat)
    | Resuming          // back from swtch

  datatype Mode =
    | Idle                       // in scheduler(), without the lock
    | Scanning                   // in scheduler()'s loop, with the lock
    | InKernel(p: nat)           // process p runs, without the lock
    | Holding(p: nat, t: Task)   // process p runs, with the lock
    | Returned(p: nat)           // p has switched back to the scheduler; c->proc still set

  // struct cpu
  datatype Cpu = Cpu(proc: Option<nat>, mode: Mode)

  datatype System = System(procs: seq<Proc>, cpus: seq<Cpu>, lock: Option<nat>, init: nat, nextpid: nat,
                           reaped: seq<nat>)

  datatype Step =
    | SchedLock(c: nat)
    | SchedPick(c: nat, p: nat)
    | SchedClear(c: nat)
    | SchedUnlock(c: nat)
    | Lock(c: nat, t: Task)
    | Act(c: nat)
    | Build(c: nat, ok: bool)    // fork between allocpid and its last acquire, without the lock
    | MarkKilled(c: nat)
    | Interrupt(ch: nat)         // a device interrupt calls wakeup

  predicate Alive(st: PState) {
    st.Sleeping? || st.Runnable? || st.Running?
  }

  // ---- the critical sections on the table ----

  // wakeup1
  function Wake(procs: seq<Proc>, ch: Chan): (r: seq<Proc>)
    ensures |r| == |procs|
  {
    seq(|procs|, q requires 0 <= q < |procs| =>
      if procs[q].state == Sleeping && procs[q].chan == ch then procs[q].(state := Runnable) else procs[q])
  }

  predicate ZombieChild(procs: seq<Proc>, p: nat, q: nat)
    requires q < |procs|
  {
    procs[q].parent == Some(p) && procs[q].state == Zombie
  }

  ghost predicate HasZombie(procs: seq<Proc>, p: nat) {
    exists q :: 0 <= q < |procs| && ZombieChild(procs, p, q)
  }

  ghost predicate HasKid(procs: seq<Proc>, p: nat) {
    exists q :: 0 <= q < |procs| && procs[q].parent == Some(p)
  }

  // Every child of p gets init for a parent, as exit arranges.
  function Reparent(procs: seq<Proc>, p: nat, init: nat): (r: seq<Proc>)
    ensures |r| == |procs|
  {
    seq(|procs|, q requires 0 <= q < |procs| =>
      if procs[q].parent == Some(p) then procs[q].(parent := Some(init)) else procs[q])
  }

  // exit, from wakeup1(curproc->parent) to sched().
  ghost function ExitProcs(procs: seq<Proc>, p: nat, init: nat): (r: seq<Proc>)
    requires p < |procs|
    ensures |r| == |procs|
  {
    var woken := if procs[p].parent.Some? then Wake(procs, Self(procs[p].parent.value)) else procs;
    var moved := Reparent(woken, p, init);
    var told := if HasZombie(procs, p) then Wake(moved, Self(init)) else moved;
    told[p := told[p].(state := Zombie)]
  }

  // wait's clearing of a zombie's entry.
  function Reaped(pr: Proc): Proc {
    pr.(state := Unused, pid := 0, numbered := false, parent := None, killed := false, kstack := false, pgdir := false)
  }

  function SetProc(s: System, p: nat, pr: Proc): System
    requires p < |s.procs|
  {
    s.(procs := s.procs[p := pr])
  }

  function SetCpu(s: System, c: nat, proc: Option<nat>, mode: Mode): System
    requires c < |s.cpus|
  {
    s.(cpus := s.cpus[c := Cpu(proc, mode)])
  }

  // release(&ptable.lock), then carry on.
  function Unlock(s: System, c: nat, p: nat): System
    requires c < |s.cpus|
  {
    SetCpu(s.(lock := None), c, Some(p), InKernel(p))
  }

  // sched(): swtch to the scheduler of this CPU, which now owns the lock.
  function SwitchAway(s: System, c: nat, p: nat): System
    requires c < |s.cpus|
  {
    SetCpu(s, c, Some(p), Returned(p))
  }

  function SleepProc(pr: Proc, ch: Chan, at: Resume): Proc {
    pr.(state := Sleeping, chan := ch, resume := at)
  }

  // The first zombie child of p at or after from in the table; |procs| if there is none.
  function FirstZombie(procs: seq<Proc>, p: nat, from: nat): (q: nat)
    requires from <= |procs|
    ensures from <= q <= |procs|
    ensures q < |procs| ==> ZombieChild(procs, p, q)
    ensures forall r :: from <= r < q ==> !ZombieChild(procs, p, r)
    decreases |procs| - from
  {
    if from == |procs| || ZombieChild(procs, p, from) then from else FirstZombie(procs, p, from + 1)
  }

  function FirstUnused(procs: seq<Proc>, from: nat): (q: nat)
    requires from <= |procs|
    ensures from <= q <= |procs|
    ensures q < |procs| ==> procs[q].state == Unused
    ensures forall r :: from <= r < q ==> procs[r].state != Unused
    decreases |procs| - from
  {
    if from == |procs| || procs[from].state == Unused then from else FirstUnused(procs, from + 1)
  }

  function FirstPid(procs: seq<Proc>, pid: nat, from: nat): (q: nat)
    requires from <= |procs|
    ensures from <= q <= |procs|
    ensures q < |procs| ==> procs[q].pid == pid
    ensures forall r :: from <= r < q ==> procs[r].pid != pid
    decreases |procs| - from
  {
    if from == |procs| || procs[from].pid == pid then from else FirstPid(procs, pid, from + 1)
  }

  // One round of wait's loop.
  ghost function DoWait(s: System, c: nat, p: nat): System
    requires c < |s.cpus| && p < |s.procs|
  {
    var z := FirstZombie(s.procs, p, 0);
    if z < |s.procs| then
      Unlock(SetProc(s, z, Reaped(s.procs[z])).(reaped := s.reaped + [s.procs[z].pid]), c, p)
    else if !HasKid(s.procs, p) || s.procs[p].killed then
      Unlock(s, c, p)
    else
      SwitchAway(SetProc(s, p, SleepProc(s.procs[p], Self(p), InWait)), c, p)
  }

  function DoClaim(s: System, c: nat, p: nat): System
    requires c < |s.cpus| && p < |s.procs|
  {
    var q := FirstUnused(s.procs, 0);
    if q < |s.procs| then
      var s1 := SetProc(s, q, s.procs[q].(state := Embryo, numbered := false));
      Unlock(SetProc(s1, p, s1.procs[p].(fork := Claimed(q))), c, p)
    else Unlock(s, c, p)
  }

  function DoNumber(s: System, c: nat, p: nat, np: nat): System
    requires c < |s.cpus| && p < |s.procs| && np < |s.procs|
  {
    var s1 := SetProc(s, np, s.procs[np].(pid := s.nextpid, numbered := true));
    Unlock(SetProc(s1, p, s1.procs[p].(fork := Numbered(np))).(nextpid := s.nextpid + 1), c, p)
  }

  function DoReady(s: System, c: nat, p: nat, np: nat): System
    requires c < |s.cpus| && p < |s.procs| && np < |s.procs|
  {
    var s1 := SetProc(s, np, s.procs[np].(state := Runnable));
    Unlock(SetProc(s1, p, s1.procs[p].(fork := NoFork)), c, p)
  }

  function DoKill(s: System, c: nat, p: nat, pid: nat): System
    requires c < |s.cpus|
  {
    var q := FirstPid(s.procs, pid, 0);
    if q < |s.procs| && s.procs[q].state == Sleeping
    then Unlock(SetProc(s, q, s.procs[q].(state := Runnable)), c, p)
    else Unlock(s, c, p)
  }

  function DoResume(s: System, c: nat, p: nat): System
    requires c < |s.cpus| && p < |s.procs|
  {
    match s.procs[p].resume
    case InForkret => Unlock(s, c, p)
    case InYield => Unlock(s, c, p)
    case InSleep => Unlock(SetProc(s, p, s.procs[p].(chan := NoChan)), c, p)
    case InWait => SetCpu(SetProc(s, p, s.procs[p].(chan := NoChan)), c, Some(p), Holding(p, Waiting))
  }

  // When process p, with entry pr of a table of n, may ask for the lock to do t.
  predicate TaskAllowed(n: nat, init: nat, p: nat, pr: Proc, t: Task) {
    match t
    case Exiting => p != init && pr.fork.NoFork?
    case Waiting => pr.fork.NoFork?
    case Claiming => pr.fork.NoFork?
    case Numbering => pr.fork.Claimed? && pr.fork.np < n
    case Readying => pr.fork.Built? && pr.fork.np < n
    case Resuming => false
    case _ => true
  }

  ghost function DoAct(s: System, c: nat, p: nat, t: Task): System
    requires c < |s.cpus| && p < |s.procs|
    requires t.Numbering? ==> TaskAllowed(|s.procs|, s.init, p, s.procs[p], t)
    requires t.Readying? ==> TaskAllowed(|s.procs|, s.init, p, s.procs[p], t)
  {
    match t
    case Yielding => SwitchAway(SetProc(s, p, s.procs[p].(state := Runnable, resume := InYield)), c, p)
    case SleepingOn(ch) => SwitchAway(SetProc(s, p, SleepProc(s.procs[p], Other(ch), InSleep)), c, p)
    case Waking(ch) => Unlock(s.(procs := Wake(s.procs, Other(ch))), c, p)
    case Exiting => SwitchAway(s.(procs := ExitProcs(s.procs, p, s.init)), c, p)
    case Waiting => DoWait(s, c, p)
    case Claiming => DoClaim(s, c, p)
    case Numbering => DoNumber(s, c, p, s.procs[p].fork.np)
    case Readying => DoReady(s, c, p, s.procs[p].fork.np)
    case Killing(pid) => DoKill(s, c, p, pid)
    case Resuming => DoResume(s, c, p)
  }

  // fork between allocpid and its last acquire: either everything is set up, or a kalloc or
  // copyuvm has failed and the entry is given back.
  function DoBuild(s: System, p: nat, np: nat, ok: bool): System
    requires p < |s.procs| && np < |s.procs|
  {
    if ok then
      var s1 := SetProc(s, np, s.procs[np].(kstack := true, pgdir := true, parent := Some(p), resume := InForkret));
      SetProc(s1, p, s1.procs[p].(fork := Built(np)))
    else
      var s1 := SetProc(s, np, s.procs[np].(state := Unused, numbered := false, kstack := false));
      SetProc(s1, p, s1.procs[p].(fork := NoFork))
  }

  predicate Enabled(s: System, st: Step) {
    match st
    case SchedLock(c) => c < |s.cpus| && s.cpus[c].mode == Idle && s.lock == None
    case SchedPick(c, p) =>
      c < |s.cpus| && s.cpus[c].mode == Scanning && p < |s.procs| && s.procs[p].state == Runnable
    case SchedClear(c) => c < |s.cpus| && s.cpus[c].mode.Returned?
    case SchedUnlock(c) => c < |s.cpus| && s.cpus[c].mode == Scanning
    case Lock(c, t) =>
      && c < |s.cpus| && s.cpus[c].mode.InKernel? && s.lock == None
      && s.cpus[c].mode.p < |s.procs| && TaskAllowed(|s.procs|, s.init, s.cpus[c].mode.p, s.procs[s.cpus[c].mode.p], t)
    case Act(c) =>
      && c < |s.cpus| && s.cpus[c].mode.Holding? && s.cpus[c].mode.p < |s.procs|
      && (|| s.cpus[c].mode.t.Resuming?
          || TaskAllowed(|s.procs|, s.init, s.cpus[c].mode.p, s.procs[s.cpus[c].mode.p], s.cpus[c].mode.t))
    case Build(c, _) =>
      && c < |s.cpus| && s.cpus[c].mode.InKernel? && s.cpus[c].mode.p < |s.procs|
      && (var p := s.cpus[c].mode.p;
          s.procs[p].fork.Numbered? && s.procs[p].fork.np < |s.procs|)
    case MarkKilled(c) => c < |s.cpus| && s.cpus[c].mode.InKernel? && s.cpus[c].mode.p < |s.procs|
    case Interrupt(_) => s.lock == None
  }

  ghost function Do(s: System, st: Step): System
    requires Enabled(s, st)
  {
    match st
    case SchedLock(c) => SetCpu(s.(lock := Some(c)), c, None, Scanning)
    case SchedPick(c, p) =>
      SetCpu(SetProc(s, p, s.procs[p].(state := Running)), c, Some(p), Holding(p, Resuming))
    case SchedClear(c) => SetCpu(s, c, None, Scanning)
    case SchedUnlock(c) => SetCpu(s.(lock := None), c, None, Idle)
    case Lock(c, t) => SetCpu(s.(lock := Some(c)), c, Some(s.cpus[c].mode.p), Holding(s.cpus[c].mode.p, t))
    case Act(c) => DoAct(s, c, s.cpus[c].mode.p, s.cpus[c].mode.t)
    case Build(c, ok) => DoBuild(s, s.cpus[c].mode.p, s.procs[s.cpus[c].mode.p].fork.np, ok)
    case MarkKilled(c) => SetProc(s, s.cpus[c].mode.p, s.procs[s.cpus[c].mode.p].(killed := true))
    case Interrupt(ch) => s.(procs := Wake(s.procs, Other(ch)))
  }

  ghost predicate Run(s: System, steps: seq<Step>)
    decreases |steps|
  {
    steps == [] || (Enabled(s, steps[0]) && Run(Do(s, steps[0]), steps[1..]))
  }

  ghost function Exec(s: System, steps: seq<Step>): System
    requires Run(s, steps)
    decreases |steps|
  {
    if steps == [] then s else Exec(Do(s, steps[0]), steps[1..])
  }
}
