/** What every run of a pipe guarantees, and the one exit that can strand a reader. */
module PipeTheorems {
  import opened Options
  import opened PipeRing
  import opened PipeProtocol
  import opened PipeSafety

  // Every write asked for has at most bound bytes.
  predicate Allowed(bound: nat, st: Step) {
    st.Start? && st.call.Write? ==> |st.call.buf| <= bound
  }

  ghost predicate AllAllowed(bound: nat, steps: seq<Step>) {
    forall i :: 0 <= i < |steps| ==> Allowed(bound, steps[i])
  }

  ghost predicate Reachable(bound: nat, s: Pipe) {
    exists start: Pipe, steps: seq<Step> ::
      Init(start) && Run(start, steps) && AllAllowed(bound, steps) && s == Exec(start, steps)
  }

  ghost predicate AnyReachable(s: Pipe) {
    exists start: Pipe, steps: seq<Step> :: Init(start) && Run(start, steps) && s == Exec(start, steps)
  }

  // The bytes read are a prefix of the bytes appended and at most PIPESIZE are in between, however often
  // the 32-bit counters have wrapped and whoever is killed.
  lemma Fifo(s: Pipe)
    requires AnyReachable(s)
    ensures s.taken <= s.written && |s.written| - |s.taken| <= PIPESIZE
    ensures s.ring.nread == |s.taken| % UINT && s.ring.nwrite == |s.written| % UINT
    ensures Holds(s.ring, s.written, s.taken)
  {
    var start: Pipe, steps: seq<Step> :| Init(start) && Run(start, steps) && s == Exec(start, steps);
    InitHolds(start);
    RunKeepsBase(start, steps);
  }

  // Nobody is stranded: with p->lock free, a reader is down only over an empty pipe that can still be
  // written, a writer only over a full one that can still be read, so never both.
  ghost predicate NobodyStranded(s: Pipe) {
    s.plock == None ==>
      && (forall t: nat :: t < |s.threads| && DownReader(s.threads[t]) ==> Empty(s.ring) && s.writeopen)
      && (forall t: nat :: t < |s.threads| && DownWriter(s.threads[t]) ==> Full(s.ring) && s.readopen)
      && !((exists t: nat :: t < |s.threads| && DownReader(s.threads[t]))
        && (exists t: nat :: t < |s.threads| && DownWriter(s.threads[t])))
  }

  lemma InvStrandsNobody(s: Pipe)
    requires Inv(s)
    ensures NobodyStranded(s)
  {
    TestsAreExact(s.ring, s.written, s.taken);
  }

  // ---- runs without a killed exit ----

  predicate WithinAt(bound: nat, th: Thread) {
    th.call.Write? ==> |th.call.buf| <= bound
  }

  ghost predicate Within(bound: nat, s: Pipe) {
    forall t: nat :: t < |s.threads| && !s.threads[t].at.Out? ==> WithinAt(bound, s.threads[t])
  }

  lemma WithinStep(bound: nat, s: Pipe, st: Step)
    requires Within(bound, s) && Threads(s) && Enabled(s, st) && Allowed(bound, st)
    ensures Within(bound, Do(s, st))
  {
    match st
    case Start(t, call) => assert forall u: nat :: u < |s.threads| && u != t ==> Do(s, st).threads[u] == s.threads[u];
    case Act(t) =>
      ActFrame(s, t);
      ActCall(s, t);
      hide DoAct;
      forall u: nat | u < |s.threads| && !Do(s, st).threads[u].at.Out? ensures WithinAt(bound, Do(s, st).threads[u]) {
        if u != t {
          assert SameOrWoken(s.threads[u], Do(s, st).threads[u]);
        }
      }
    case Kill(t, _) => assert forall u: nat :: u < |s.threads| && u != t ==> Do(s, st).threads[u] == s.threads[u];
  }

  // A thread keeps its call and its killed flag.
  predicate SameCall(s: Pipe, s': Pipe, t: nat) {
    && t < |s.threads| && t < |s'.threads|
    && s'.threads[t].call == s.threads[t].call && s'.threads[t].killed == s.threads[t].killed
  }

  lemma LoopCall(s: Pipe, t: nat)
    requires t < |s.threads| && |s.ring.data| == PIPESIZE
    ensures SameCall(s, InLoop(s, t, s.threads[t]), t)
    ensures s.threads[t].call.Read? ==> SameCall(s, CopyLoop(s, t, s.threads[t]), t)
  {
    hide Set, Put, Drop, Head, Full, Empty;
  }

  lemma ActCall(s: Pipe, t: nat)
    requires CanAct(s, t)
    ensures SameCall(s, DoAct(s, t), t) && !s.threads[t].at.Out?
  {
    hide InLoop, CopyLoop, Set, Wakeup;
    LoopCall(s, t);
  }

  lemma {:induction false} WithinRun(bound: nat, s: Pipe, steps: seq<Step>)
    requires bound <= PIPESIZE && Inv(s) && Within(bound, s) && Run(s, steps) && AllAllowed(bound, steps)
    ensures Inv(Exec(s, steps))
    decreases |steps|
  {
    if steps != [] {
      var st := steps[0];
      assert st.Act? ==> Tame(s.threads[st.t]);
      assert Allowed(bound, st);
      hide Inv, Within, Do;
      StepKeeps(s, st);
      assert Threads(s) by { ThreadsOf(s); }
      WithinStep(bound, s, st);
      assert AllAllowed(bound, steps[1..]);
      WithinRun(bound, Do(s, st), steps[1..]);
    }
  }

  lemma ThreadsOf(s: Pipe)
    requires Inv(s)
    ensures Threads(s)
  {
  }

  // ---- runs in which nobody is marked killed, for writes of any length ----

  ghost predicate NobodyKilled(s: Pipe) {
    forall t: nat :: t < |s.threads| ==> !s.threads[t].killed
  }

  ghost predicate NoKills(steps: seq<Step>) {
    forall i :: 0 <= i < |steps| && steps[i].Kill? ==> !steps[i].mark
  }

  lemma AliveStep(s: Pipe, st: Step)
    requires NobodyKilled(s) && Threads(s) && Enabled(s, st) && (st.Kill? ==> !st.mark)
    ensures NobodyKilled(Do(s, st))
  {
    match st
    case Start(t, call) => assert forall u: nat :: u < |s.threads| && u != t ==> Do(s, st).threads[u] == s.threads[u];
    case Act(t) =>
      ActFrame(s, t);
      ActCall(s, t);
      hide DoAct;
      forall u: nat | u < |s.threads| ensures !Do(s, st).threads[u].killed {
        if u != t {
          assert SameOrWoken(s.threads[u], Do(s, st).threads[u]);
        }
      }
    case Kill(t, _) => assert forall u: nat :: u < |s.threads| && u != t ==> Do(s, st).threads[u] == s.threads[u];
  }

  lemma {:induction false} AliveRun(s: Pipe, steps: seq<Step>)
    requires Inv(s) && NobodyKilled(s) && Run(s, steps) && NoKills(steps)
    ensures Inv(Exec(s, steps))
    decreases |steps|
  {
    if steps != [] {
      var st := steps[0];
      assert st.Act? ==> Tame(s.threads[st.t]);
      hide Inv, NobodyKilled, Do;
      StepKeeps(s, st);
      assert Threads(s) by { ThreadsOf(s); }
      AliveStep(s, st);
      assert NoKills(steps[1..]);
      AliveRun(Do(s, st), steps[1..]);
    }
  }

  // While no process is marked killed, no wakeup is lost, whatever is written; SIGKILL may wake sleepers.
  lemma NoLostWakeups(start: Pipe, steps: seq<Step>)
    requires Init(start) && Run(start, steps) && NoKills(steps)
    ensures NobodyStranded(Exec(start, steps))
  {
    InitHolds(start);
    AliveRun(start, steps);
    InvStrandsNobody(Exec(start, steps));
  }

  // ---- the flag as this kernel sets it ----

  // A process marks itself killed only on its way back to user space, and a system call made by a killed
  // process exits before it starts; only exit's closing of files still comes here.
  predicate AsHere(s: Pipe, st: Step)
    requires Enabled(s, st)
  {
    match st
    case Start(t, call) => call.Close? || !s.threads[t].killed
    case Act(_) => true
    case Kill(t, mark) => mark ==> s.threads[t].at.Out?
  }

  ghost predicate RunHere(s: Pipe, steps: seq<Step>)
    requires Run(s, steps)
    decreases |steps|
  {
    steps == [] || (AsHere(s, steps[0]) && RunHere(Do(s, steps[0]), steps[1..]))
  }

  predicate CallerAlive(th: Thread) {
    th.killed ==> th.at.Out? || th.call.Close?
  }

  ghost predicate CallersAlive(s: Pipe) {
    forall t: nat :: t < |s.threads| ==> CallerAlive(s.threads[t])
  }

  lemma HereStep(s: Pipe, st: Step)
    requires CallersAlive(s) && Threads(s) && Enabled(s, st) && AsHere(s, st)
    ensures CallersAlive(Do(s, st))
  {
    match st
    case Start(t, call) => assert forall u: nat :: u < |s.threads| && u != t ==> Do(s, st).threads[u] == s.threads[u];
    case Act(t) =>
      ActFrame(s, t);
      ActCall(s, t);
      hide DoAct;
      forall u: nat | u < |s.threads| ensures CallerAlive(Do(s, st).threads[u]) {
        assert CallerAlive(s.threads[u]);
        if u != t {
          assert SameOrWoken(s.threads[u], Do(s, st).threads[u]);
        }
      }
    case Kill(t, _) =>
      assert CallerAlive(s.threads[t]);
      assert forall u: nat :: u < |s.threads| && u != t ==> Do(s, st).threads[u] == s.threads[u];
  }

  lemma {:induction false} HereRun(s: Pipe, steps: seq<Step>)
    requires Inv(s) && CallersAlive(s) && Run(s, steps) && RunHere(s, steps)
    ensures Inv(Exec(s, steps))
    decreases |steps|
  {
    if steps != [] {
      var st := steps[0];
      assert st.Act? ==> CallerAlive(s.threads[st.t]);
      assert st.Act? ==> Tame(s.threads[st.t]);
      hide Inv, CallersAlive, Do, AsHere;
      StepKeeps(s, st);
      assert Threads(s) by { ThreadsOf(s); }
      HereStep(s, st);
      HereRun(Do(s, st), steps[1..]);
    }
  }

  // With the flag set as this kernel sets it, kills and their wakeups included, nobody is ever stranded,
  // whatever the length of the writes.
  lemma NobodyStrandedHere(start: Pipe, steps: seq<Step>)
    requires Init(start) && Run(start, steps) && RunHere(start, steps)
    ensures NobodyStranded(Exec(start, steps))
  {
    InitHolds(start);
    assert CallersAlive(start);
    HereRun(start, steps);
    InvStrandsNobody(Exec(start, steps));
  }

  // ---- pipe.c by itself, with the flag set at any time: the killed exit of pipewrite ----

  lemma {:induction false} RunAppend(s: Pipe, steps: seq<Step>, st: Step)
    requires Run(s, steps) && Enabled(Exec(s, steps), st)
    ensures Run(s, steps + [st]) && Exec(s, steps + [st]) == Do(Exec(s, steps), st)
    decreases |steps|
  {
    hide Enabled, Do;
    if steps == [] {
      assert [st][1..] == [];
    } else {
      assert (steps + [st])[1..] == steps[1..] + [st];
      RunAppend(Do(s, steps[0]), steps[1..], st);
    }
  }

  lemma ReachStep(bound: nat, s: Pipe, st: Step)
    requires Reachable(bound, s) && Enabled(s, st) && Allowed(bound, st)
    ensures Reachable(bound, Do(s, st))
  {
    hide Init, Enabled, Do;
    var start: Pipe, steps: seq<Step> :|
      Init(start) && Run(start, steps) && AllAllowed(bound, steps) && s == Exec(start, steps);
    RunAppend(start, steps, st);
    assert AllAllowed(bound, steps + [st]);
  }

  // Reader 0 is asleep over an empty pipe and nobody else is in a call.
  ghost predicate ReaderAsleep(s: Pipe) {
    && |s.threads| == 2 && s.threads[0].call == Read(1) && s.threads[0].at == Asleep && s.threads[1].at == Out
    && s.plock == None && s.tlock == None && s.readopen && s.writeopen && s.rfd && s.wfd
    && Holds(s.ring, [], []) && s.written == [] && s.taken == []
  }

  lemma SleepingReader(bound: nat) returns (s: Pipe)
    ensures Reachable(bound, s) && ReaderAsleep(s)
  {
    var zero: Byte := 0;
    var idle := Thread(Read(1), Out, 0, 0, false);
    var s0 := Pipe(Ring(seq(PIPESIZE, _ => zero), 0, 0), true, true, true, true, [idle, idle], None, None, [], []);
    assert Init(s0) && Run(s0, []) && Exec(s0, []) == s0 && AllAllowed(bound, []);
    assert Reachable(bound, s0);
    hide Reachable, Run, Exec;
    var s1 := DoStart(s0, 0, Read(1));
    ReachStep(bound, s0, Start(0, Read(1)));
    var s2 := s1.(threads := [Thread(Read(1), Loop, 0, 0, false), idle], plock := Some(0));
    assert Do(s1, Act(0)) == s2;
    ReachStep(bound, s1, Act(0));
    var s3 := s2.(threads := [Thread(Read(1), Sleep1, 0, 0, false), idle]);
    assert Do(s2, Act(0)) == s3;
    ReachStep(bound, s2, Act(0));
    s := SleepOn(bound, s3);
  }

  lemma SleepOn(bound: nat, s: Pipe) returns (s': Pipe)
    requires Reachable(bound, s) && |s.threads| == 2 && s.threads[0].call == Read(1) && s.threads[0].at == Sleep1
    requires s.plock == Some(0) && s.tlock == None && |s.ring.data| == PIPESIZE
    ensures Reachable(bound, s')
    ensures s' == s.(threads := [s.threads[0].(at := Asleep), s.threads[1]], plock := None)
  {
    hide Reachable;
    var s1 := s.(threads := [s.threads[0].(at := Sleep2), s.threads[1]], tlock := Some(0));
    assert Do(s, Act(0)) == s1;
    ReachStep(bound, s, Act(0));
    var s2 := s1.(threads := [s.threads[0].(at := Sleep3), s.threads[1]], plock := None);
    assert Do(s1, Act(0)) == s2;
    ReachStep(bound, s1, Act(0));
    s' := s2.(threads := [s.threads[0].(at := Asleep), s.threads[1]], tlock := None);
    assert Do(s2, Act(0)) == s';
    ReachStep(bound, s2, Act(0));
  }

  // A killed writer has put the first k bytes of buf in, over the sleeping reader.
  ghost predicate Filling(s: Pipe, buf: seq<Byte>, k: nat) {
    && |s.threads| == 2 && s.threads[0].call == Read(1) && s.threads[0].at == Asleep
    && k <= |buf| && s.threads[1] == Thread(Write(buf), Loop, k, 0, true)
    && s.plock == Some(1) && s.readopen
    && Holds(s.ring, buf[..k], []) && s.written == buf[..k] && s.taken == []
  }

  lemma BeginFilling(bound: nat, s: Pipe, buf: seq<Byte>) returns (s': Pipe)
    requires Reachable(bound, s) && ReaderAsleep(s) && |buf| <= bound
    ensures Reachable(bound, s') && Filling(s', buf, 0)
  {
    hide Reachable;
    var s1 := DoStart(s, 1, Write(buf));
    ReachStep(bound, s, Start(1, Write(buf)));
    var s2 := DoKill(s1, 1, true);
    ReachStep(bound, s1, Kill(1, true));
    s' := DoAct(s2, 1);
    ReachStep(bound, s2, Act(1));
  }

  lemma {:induction false} Fill(bound: nat, s: Pipe, buf: seq<Byte>, k: nat) returns (s': Pipe)
    requires Reachable(bound, s) && Filling(s, buf, k) && k <= PIPESIZE < |buf|
    ensures Reachable(bound, s') && Filling(s', buf, PIPESIZE)
    decreases PIPESIZE - k
  {
    if k == PIPESIZE {
      s' := s;
    } else {
      TestsAreExact(s.ring, s.written, s.taken);
      PutHolds(s.ring, s.written, s.taken, buf[k]);
      assert buf[..k + 1] == buf[..k] + [buf[k]];
      var next := s.(threads := [s.threads[0], s.threads[1].(i := k + 1)], ring := Put(s.ring, buf[k]),
        written := buf[..k + 1]);
      assert Do(s, Act(1)) == next;
      hide Reachable, Holds, Put;
      ReachStep(bound, s, Act(1));
      s' := Fill(bound, next, buf, k + 1);
    }
  }

  // A write of more than PIPESIZE bytes, killed over a sleeping reader, returns -1 and leaves the reader
  // asleep over a full pipe.
  lemma StrandedReader(bound: nat) returns (s: Pipe)
    requires bound > PIPESIZE
    ensures Reachable(bound, s) && s.plock == None && |s.threads| == 2 && DownReader(s.threads[0]) && Full(s.ring)
            && !NobodyStranded(s)
  {
    var zero: Byte := 0;
    var buf := seq(PIPESIZE + 1, _ => zero);
    var s1 := SleepingReader(bound);
    var s2 := BeginFilling(bound, s1, buf);
    var s3 := Fill(bound, s2, buf, 0);
    hide Reachable;
    TestsAreExact(s3.ring, s3.written, s3.taken);
    s := s3.(threads := [s3.threads[0], s3.threads[1].(at := Out)], plock := None);
    assert Do(s3, Act(1)) == s;
    ReachStep(bound, s3, Act(1));
    assert DownReader(s.threads[0]);
  }

  lemma NobodyStrandedWithin(bound: nat, s: Pipe)
    requires bound <= PIPESIZE && Reachable(bound, s)
    ensures NobodyStranded(s)
  {
    var start: Pipe, steps: seq<Step> :|
      Init(start) && Run(start, steps) && AllAllowed(bound, steps) && s == Exec(start, steps);
    InitHolds(start);
    WithinRun(bound, start, steps);
    InvStrandsNobody(s);
  }

  // With the flag set at any time, no wakeup is lost exactly when no write is longer than the pipe.
  lemma KilledExitIsHarmlessExactly(bound: nat)
    ensures (forall s: Pipe :: Reachable(bound, s) ==> NobodyStranded(s)) <==> bound <= PIPESIZE
  {
    hide Reachable, NobodyStranded;
    if bound <= PIPESIZE {
      forall s: Pipe | Reachable(bound, s) ensures NobodyStranded(s) {
        NobodyStrandedWithin(bound, s);
      }
    } else {
      var s := StrandedReader(bound);
    }
  }
}
