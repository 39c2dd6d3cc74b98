/** What log_write's capacity check, done before the lock is taken, allows when the on-disk
    log is no larger than LOGSIZE blocks, as mkfs makes it. */
module LogOverflow {
  import opened Params
  import opened Blocks
  import opened LogRecovery
  import opened LogSystem
  import opened LogHistory
  import opened LogSafety

  // The header has more entries than the log has data slots.
  predicate Overflow(s: System) {
    !Fitting(s)
  }

  lemma {:induction false} RunSnoc(s: System, steps: seq<Step>, st: Step)
    requires Run(s, steps) && Enabled(Exec(s, steps), st)
    ensures Run(s, steps + [st]) && Exec(s, steps + [st]) == Do(Exec(s, steps), st)
    decreases |steps|
  {
    hide Enabled, Do;
    var steps' := steps + [st];
    if steps == [] {
      assert steps'[0] == st && steps'[1..] == [];
    } else {
      assert steps'[0] == steps[0] && steps'[1..] == steps[1..] + [st];
      RunSnoc(Do(s, steps[0]), steps[1..], st);
    }
  }

  // ---- three operations fill the log one block at a time ----

  function Owner(j: nat): Op {
    if j < 9 then 0 else if j < 18 then 1 else 2
  }

  function Target(rg: Region, j: nat): nat {
    rg.start + rg.size + j
  }

  function TargetList(rg: Region, k: nat): seq<nat> {
    seq(k, j requires 0 <= j < k => Target(rg, j))
  }

  function FilledAdds(rg: Region, k: nat): set<(Op, nat)> {
    set j | 0 <= j < k :: (Owner(j), Target(rg, j))
  }

  function Share(rg: Region, op: Op, lo: nat, hi: nat): set<(Op, nat)> {
    set j | lo <= j < hi :: (op, Target(rg, j))
  }

  // A block different from b.
  function Other(b: Block): (r: Block)
    ensures r != b
  {
    var x: Byte := if b[0] == 0 then 1 else 0;
    b[0 := x]
  }

  ghost predicate RoomOnDisk(s0: System) {
    s0.rg.start + s0.rg.size + LOGSIZE <= |s0.disk|
  }

  // The first block after the log is written with what it holds, the others with something else.
  function Datum(s0: System, j: nat): Block
    requires s0.rg.start + s0.rg.size < |s0.disk|
  {
    var b := s0.disk[Target(s0.rg, 0)];
    if j == 0 then b else Other(b)
  }

  function WriteTo(s0: System, j: nat): Write
    requires s0.rg.start + s0.rg.size < |s0.disk|
  {
    Write(Target(s0.rg, j), Datum(s0, j))
  }

  // Three operations are active and have logged k blocks between them.
  ghost predicate Filled(s: System, s0: System, k: nat) {
    && s.rg == s0.rg && |s.disk| == |s0.disk| && s.phase.Serving? && !s.committing
    && s.lh == TargetList(s.rg, k)
    && s.ops == Ops(3, {0, 1, 2}, map[], FilledAdds(s.rg, k))
  }

  // Nothing has reached the disk, the k blocks are pinned, and the first block after the log is as it was.
  ghost predicate Pending(s: System, s0: System, k: nat) {
    && s0.rg.start + s0.rg.size < |s0.disk| && s.disk == s0.disk
    && (forall j: nat :: j < k ==> PinnedAt(s, s0, j))
    && s.hist.base == s0.disk && s.hist.committed == 0
    && Replay(s0.disk, s.hist.events)[Target(s0.rg, 0)] == Datum(s0, 0)
  }

  predicate PinnedAt(s: System, s0: System, j: nat)
    requires s0.rg.start + s0.rg.size < |s0.disk|
  {
    Target(s0.rg, j) in s.pinned && s.pinned[Target(s0.rg, j)] == Datum(s0, j)
  }

  lemma {:induction false} ShareCard(rg: Region, op: Op, lo: nat, hi: nat)
    requires lo <= hi
    ensures |Share(rg, op, lo, hi)| <= hi - lo
    decreases hi - lo
  {
    if lo == hi {
      assert Share(rg, op, lo, hi) == {};
    } else {
      ShareCard(rg, op, lo, hi - 1);
      assert Share(rg, op, lo, hi) == Share(rg, op, lo, hi - 1) + {(op, Target(rg, hi - 1))};
    }
  }

  lemma SubsetCard<T>(a: set<T>, b: set<T>)
    requires a <= b
    ensures |a| <= |b|
  {
    assert b == a + (b - a);
  }

  lemma FilledSpent(rg: Region, k: nat, op: Op)
    requires op <= 2 && k <= 28 && (op == 2 ==> k <= 27)
    ensures |Spent(FilledAdds(rg, k), op)| <= 9
  {
    var lo, hi := 9 * op, 9 * op + 9;
    ShareCard(rg, op, lo, hi);
    assert Spent(FilledAdds(rg, k), op) <= Share(rg, op, lo, hi);
    SubsetCard(Spent(FilledAdds(rg, k), op), Share(rg, op, lo, hi));
  }

  lemma OneMore(adds: set<(Op, nat)>, op: Op, b: nat)
    requires |Spent(adds, op)| <= 9
    ensures |Spent(adds + {(op, b)}, op)| <= MAXOPBLOCKS
  {
    SubsetCard(Spent(adds + {(op, b)}, op), Spent(adds, op) + {(op, b)});
  }

  lemma TargetsGrow(rg: Region, k: nat)
    ensures Absorb(TargetList(rg, k), Target(rg, k)) == TargetList(rg, k + 1)
  {
  }

  lemma FilledGrows(rg: Region, k: nat)
    ensures FilledAdds(rg, k) + {(Owner(k), Target(rg, k))} == FilledAdds(rg, k + 1)
  {
  }

  // log_write of block k, under the lock.
  lemma PendingGrows(s: System, s0: System, k: nat, op: Op)
    requires Pending(s, s0, k) && op in s.ops.checked && s.ops.checked[op] == WriteTo(s0, k)
    ensures Pending(DoAdd(s, op), s0, k + 1)
  {
    hide Replay, Datum;
    var w := WriteTo(s0, k);
    var s' := DoAdd(s, op);
    ReplaySnoc(s0.disk, s.hist.events, Wrote(op, w.b, w.data));
    forall j: nat | j < k + 1 ensures PinnedAt(s', s0, j) {
      assert j < k ==> PinnedAt(s, s0, j);
    }
  }

  lemma StartRun(s0: System) returns (steps: seq<Step>)
    requires Init(s0) && RoomOnDisk(s0)
    ensures Run(s0, steps) && Filled(Exec(s0, steps), s0, 0) && Pending(Exec(s0, steps), s0, 0)
  {
    steps := [];
    steps := steps + [BeginOp(0)];
    RunSnoc(s0, [], BeginOp(0));
    var s1 := Exec(s0, steps);
    RunSnoc(s0, steps, BeginOp(1));
    steps := steps + [BeginOp(1)];
    RunSnoc(s0, steps, BeginOp(2));
    steps := steps + [BeginOp(2)];
    assert {0} + {1} + {2} == {0, 1, 2};
    assert FilledAdds(s0.rg, 0) == {};
  }

  // One whole log_write by the owner of block k.
  lemma FillOne(s0: System, steps: seq<Step>, k: nat) returns (steps': seq<Step>)
    requires Run(s0, steps) && Filled(Exec(s0, steps), s0, k) && Pending(Exec(s0, steps), s0, k)
    requires k < 28 && k < s0.rg.size - 1 && RoomOnDisk(s0)
    ensures Run(s0, steps') && Filled(Exec(s0, steps'), s0, k + 1) && Pending(Exec(s0, steps'), s0, k + 1)
  {
    hide Pending, WriteTo;
    var rg, op, w := s0.rg, Owner(k), WriteTo(s0, k);
    assert w.b == Target(rg, k) by { Addressed(s0, k); }
    FilledSpent(rg, k, op);
    OneMore(FilledAdds(rg, k), op, Target(rg, k));
    RunSnoc(s0, steps, CheckRoom(op, w));
    var s := Exec(s0, steps);
    steps' := steps + [CheckRoom(op, w)];
    var t := Exec(s0, steps');
    CheckPending(s, s0, k, op, w);
    PendingGrows(t, s0, k, op);
    RunSnoc(s0, steps', AddBlock(op));
    steps' := steps' + [AddBlock(op)];
    TargetsGrow(rg, k);
    FilledGrows(rg, k);
    assert map[op := w] - {op} == map[];
  }

  lemma Addressed(s0: System, k: nat)
    requires s0.rg.start + s0.rg.size < |s0.disk|
    ensures WriteTo(s0, k).b == Target(s0.rg, k)
  {
  }

  lemma CheckPending(s: System, s0: System, k: nat, op: Op, w: Write)
    requires Pending(s, s0, k)
    ensures Pending(DoCheck(s, op, w), s0, k)
  {
    hide Replay, Datum, NoRoom;
    var s' := DoCheck(s, op, w);
    forall j: nat | j < k ensures PinnedAt(s', s0, j) {
      assert PinnedAt(s, s0, j);
    }
  }

  lemma {:induction false} FillRun(s0: System, k: nat) returns (steps: seq<Step>)
    requires Init(s0) && RoomOnDisk(s0) && k <= 28 && k <= s0.rg.size - 1
    ensures Run(s0, steps) && Filled(Exec(s0, steps), s0, k) && Pending(Exec(s0, steps), s0, k)
  {
    hide Filled, Pending;
    if k == 0 {
      steps := StartRun(s0);
    } else {
      steps := FillRun(s0, k - 1);
      steps := FillOne(s0, steps, k - 1);
    }
  }

  // k + 2 blocks logged, the last two by operations that both passed the check at k.
  ghost predicate Raced(s: System, s0: System, k: nat) {
    && s.phase.Serving? && !s.committing && s.rg == s0.rg && |s.disk| == |s0.disk| && s.lh == TargetList(s0.rg, k + 2)
    && s.ops == Ops(3, {0, 1, 2}, map[],
                    FilledAdds(s0.rg, k) + {(0, Target(s0.rg, k))} + {(1, Target(s0.rg, k + 1))})
  }

  // Two operations pass the check one after the other, then both append.
  lemma RaceRun(s0: System, k: nat) returns (steps: seq<Step>)
    requires Init(s0) && RoomOnDisk(s0) && k <= 28 && k < s0.rg.size - 1
    ensures Run(s0, steps) && Raced(Exec(s0, steps), s0, k) && Pending(Exec(s0, steps), s0, k + 2)
  {
    hide Pending, WriteTo;
    var rg, v, w := s0.rg, WriteTo(s0, k), WriteTo(s0, k + 1);
    assert v.b == Target(rg, k) && w.b == Target(rg, k + 1) by { Addressed(s0, k); Addressed(s0, k + 1); }
    steps := FillRun(s0, k);
    var s := Exec(s0, steps);
    FilledSpent(rg, k, 0);
    OneMore(FilledAdds(rg, k), 0, Target(rg, k));
    FilledSpent(rg, k, 1);
    OneMore(FilledAdds(rg, k), 1, Target(rg, k + 1));
    RunSnoc(s0, steps, CheckRoom(0, v));
    CheckPending(s, s0, k, 0, v);
    steps := steps + [CheckRoom(0, v)];
    var t := Exec(s0, steps);
    RunSnoc(s0, steps, CheckRoom(1, w));
    CheckPending(t, s0, k, 1, w);
    steps := steps + [CheckRoom(1, w)];
    steps := BothAppend(s0, steps, k);
  }

  lemma BothAppend(s0: System, steps: seq<Step>, k: nat) returns (steps': seq<Step>)
    requires Run(s0, steps) && RoomOnDisk(s0)
    requires var s := Exec(s0, steps);
             && Filled(s.(ops := s.ops.(checked := map[])), s0, k) && Pending(s, s0, k)
             && s.ops.checked == map[0 := WriteTo(s0, k)][1 := WriteTo(s0, k + 1)]
    ensures Run(s0, steps') && Raced(Exec(s0, steps'), s0, k) && Pending(Exec(s0, steps'), s0, k + 2)
  {
    hide Pending, WriteTo;
    var rg, v, w := s0.rg, WriteTo(s0, k), WriteTo(s0, k + 1);
    assert v.b == Target(rg, k) && w.b == Target(rg, k + 1) by { Addressed(s0, k); Addressed(s0, k + 1); }
    var s := Exec(s0, steps);
    RunSnoc(s0, steps, AddBlock(0));
    PendingGrows(s, s0, k, 0);
    steps' := steps + [AddBlock(0)];
    var t := Exec(s0, steps');
    RunSnoc(s0, steps', AddBlock(1));
    PendingGrows(t, s0, k + 1, 1);
    steps' := steps' + [AddBlock(1)];
    TargetsGrow(rg, k);
    TargetsGrow(rg, k + 1);
    assert map[0 := v][1 := w] - {0} - {1} == map[];
  }

  // ---- when the header can outgrow the log ----

  lemma NoOverflow(s0: System, steps: seq<Step>)
    requires Init(s0) && Run(s0, steps) && !(2 <= s0.rg.size <= LOGSIZE)
    requires !Exec(s0, steps).phase.Panicked?
    ensures !Overflow(Exec(s0, steps))
  {
    AccountingRun(s0, steps);
    RunKeepsBase(s0, steps);
    AccountedFits(Exec(s0, steps));
  }

  lemma AccountedFits(s: System)
    requires Accounting(s) && !s.phase.Panicked? && s.rg.size >= 1 && !(2 <= s.rg.size <= LOGSIZE)
    ensures Fitting(s)
  {
    AddsBound(s.ops.active, s.ops.adds);
  }

  ghost predicate Overflows(s0: System, steps: seq<Step>) {
    Run(s0, steps) && !Exec(s0, steps).phase.Panicked? && Overflow(Exec(s0, steps))
  }

  // Operations that keep within their budgets can overflow the on-disk log exactly when it has
  // between 2 and LOGSIZE blocks. In particular they can when mkfs makes nlog == LOGSIZE.
  lemma OverflowExactly(s0: System)
    requires Init(s0) && RoomOnDisk(s0)
    ensures (exists steps :: Overflows(s0, steps)) <==> 2 <= s0.rg.size <= LOGSIZE
  {
    if 2 <= s0.rg.size <= LOGSIZE {
      var steps := RaceRun(s0, s0.rg.size - 2);
      assert Overflows(s0, steps);
    } else {
      forall steps | Overflows(s0, steps) ensures false {
        NoOverflow(s0, steps);
      }
    }
  }

  // A call that would only be absorbed, by an operation within its budget, panics.
  ghost predicate AbsorbedPanics(s0: System, steps: seq<Step>, op: Op, w: Write) {
    && Run(s0, steps) && CanCheck(Exec(s0, steps), op, w) && w.b in Exec(s0, steps).lh
    && DoCheck(Exec(s0, steps), op, w).phase.Panicked?
  }

  // log_write refuses a full log before it looks whether the block is in it already. So an operation
  // that only logs a block again can panic, in a log of any size that can hold a block at all.
  lemma AbsorbedCallCanPanic(s0: System)
    requires Init(s0) && RoomOnDisk(s0)
    ensures (exists steps, op, w :: AbsorbedPanics(s0, steps, op, w)) <==> s0.rg.size >= 2
  {
    if s0.rg.size >= 2 {
      var steps, w := FullRun(s0);
      assert AbsorbedPanics(s0, steps, 0, w);
    } else {
      forall steps, op, w | AbsorbedPanics(s0, steps, op, w) ensures false {
        AccountingRun(s0, steps);
        RunKeepsBase(s0, steps);
      }
    }
  }

  // Operation 0 logs a block again when there is no room.
  lemma FullRun(s0: System) returns (steps: seq<Step>, w: Write)
    requires Init(s0) && RoomOnDisk(s0) && s0.rg.size >= 2
    ensures AbsorbedPanics(s0, steps, 0, w)
  {
    var rg := s0.rg;
    if rg.size == 2 {
      steps := FillRun(s0, 1);
      w := WriteTo(s0, 0);
      assert FilledAdds(rg, 1) + {(0, Target(rg, 0))} == FilledAdds(rg, 1);
      FilledSpent(rg, 1, 0);
      assert Target(rg, 0) == TargetList(rg, 1)[0];
    } else {
      var k := if rg.size > LOGSIZE then LOGSIZE - 2 else rg.size - 3;
      steps := RaceRun(s0, k);
      w := WriteTo(s0, k);
      var adds := FilledAdds(rg, k) + {(0, Target(rg, k))};
      FilledSpent(rg, k, 0);
      OneMore(FilledAdds(rg, k), 0, Target(rg, k));
      SpentOther(adds, (1, Target(rg, k + 1)), 0);
      assert adds + {(1, Target(rg, k + 1))} + {(0, Target(rg, k))} == adds + {(1, Target(rg, k + 1))};
      assert Target(rg, k) == TargetList(rg, k + 2)[k];
    }
  }

  // ---- for which logs every run is safe ----

  lemma {:induction false} FitsThroughout(s: System, steps: seq<Step>)
    requires Accounting(s) && Fitting(s) && Run(s, steps) && s.rg.size >= 1 && !(2 <= s.rg.size <= LOGSIZE)
    ensures FittingRun(s, steps)
    decreases |steps|
  {
    if steps != [] {
      var s' := Do(s, steps[0]);
      AccountingKeeps(s, steps[0]);
      StepFits(s, steps[0]);
      hide Accounting, Do, Enabled;
      FitsThroughout(s', steps[1..]);
    }
  }

  lemma StepFits(s: System, st: Step)
    requires Accounting(s) && Fitting(s) && Enabled(s, st) && s.rg.size >= 1 && !(2 <= s.rg.size <= LOGSIZE)
    ensures Fitting(Do(s, st)) && Do(s, st).rg == s.rg
  {
    AccountingKeeps(s, st);
    hide Accounting, CommitWrites, RecoverWrites;
    if !Do(s, st).phase.Panicked? {
      assert Do(s, st).rg == s.rg;
      AccountedFits(Do(s, st));
    }
  }

  // What a crash now, and ks interrupted recoveries after it, leaves: a prefix of the history, of whole
  // operations.
  ghost predicate CrashSafe(s0: System, steps: seq<Step>, ks: seq<nat>)
    requires Run(s0, steps)
  {
    var s, t := Exec(s0, steps), Told(steps);
    && t.durable <= |t.events|
    && RecoversTo(s0.rg, CrashingRecoveries(s0.rg, s.disk, ks), Replay(s0.disk, t.events[..t.durable]))
    && Whole(t.events[..t.durable], {})
    && EndsAreFinal(t.events)
  }

  // Every read of block b sees all log_write calls so far.
  ghost predicate ReadsAll(s0: System, steps: seq<Step>, b: nat)
    requires Run(s0, steps)
  {
    var s, t := Exec(s0, steps), Told(steps);
    && |s.disk| == |s0.disk|
    && (Live(s.phase) && Home(s.rg, |s.disk|, b) ==> View(s.disk, s.pinned, b) == Replay(s0.disk, t.events)[b])
  }

  lemma SafeSizes(s0: System, steps: seq<Step>, ks: seq<nat>, b: nat)
    requires Init(s0) && Run(s0, steps) && !(2 <= s0.rg.size <= LOGSIZE)
    ensures CrashSafe(s0, steps, ks) && ReadsAll(s0, steps, b)
    ensures var s := Exec(s0, steps);
            && (s.phase.Committing? ==> CanWrite(s) || CanFinish(s))
            && (s.phase.Recovering? ==> CanRedo(s) || CanServe(s))
  {
    FitsThroughout(s0, steps);
    hide Accounting, Replay, CommitFits, RecoveryFits, Told;
    EveryRunIsCrashSafe(s0, steps, ks);
    ReadsSeeEveryWrite(s0, steps, b);
    CommitterIsNeverStuck(s0, steps);
  }

  // ---- a run of a smaller log that damages a home block ----

  // commit() has made k of the log copies of an overflowing header.
  ghost predicate Copying(s: System, s0: System, k: nat) {
    && RoomOnDisk(s0) && s.rg == s0.rg && |s.disk| == |s0.disk| && k <= s0.rg.size <= LOGSIZE && 1 <= s0.rg.size
    && s.phase.Committing? && s.phase.d0 == s0.disk && s.phase.lh0 == TargetList(s0.rg, s0.rg.size) && s.phase.done == k
    && (forall j: nat :: j < s0.rg.size ==> TxnAt(s.phase.txn, s0, j))
    && (forall b :: 0 <= b < |s.disk| && !(s0.rg.start < b <= s0.rg.start + k) ==> s.disk[b] == s0.disk[b])
    && (k == s0.rg.size ==> s.disk[Target(s0.rg, 0)] == Datum(s0, s0.rg.size - 1) && Target(s0.rg, 0) !in s.pinned)
    && s.hist.base == s0.disk && s.hist.committed == 0
    && Replay(s0.disk, s.hist.events)[Target(s0.rg, 0)] == Datum(s0, 0)
  }

  predicate TxnAt(txn: map<nat, Block>, s0: System, j: nat)
    requires s0.rg.start + s0.rg.size < |s0.disk|
  {
    Target(s0.rg, j) in txn && txn[Target(s0.rg, j)] == Datum(s0, j)
  }

  lemma CopyingFits(s: System, s0: System, k: nat)
    requires Init(s0) && Copying(s, s0, k)
    ensures CommitFits(s.rg, s.phase)
  {
    var ph := s.phase;
    forall i | 0 <= i < |ph.lh0| ensures ph.lh0[i] in ph.txn {
      assert TxnAt(ph.txn, s0, i);
    }
  }

  lemma CopyNext(s: System, s0: System, k: nat)
    requires Init(s0) && Copying(s, s0, k) && k < s0.rg.size
    ensures CanWrite(s) && Copying(DoWrite(s), s0, k + 1)
  {
    CopyingFits(s, s0, k);
    var ph := s.phase;
    var ws := CommitWrites(s.rg, ph.d0, ph.lh0, ph.txn);
    assert ws[k] == LogCopies(s.rg, ph.lh0, ph.txn)[k] == Write(s.rg.start + k + 1, ph.txn[ph.lh0[k]]);
    assert TxnAt(ph.txn, s0, k);
    hide CommitWrites;
  }

  lemma {:induction false} CopyRun(s0: System, steps: seq<Step>, k: nat) returns (steps': seq<Step>)
    requires Init(s0) && Run(s0, steps) && Copying(Exec(s0, steps), s0, 0) && k <= s0.rg.size
    ensures Run(s0, steps') && Copying(Exec(s0, steps'), s0, k)
  {
    if k == 0 {
      steps' := steps;
    } else {
      steps' := CopyRun(s0, steps, k - 1);
      CopyNext(Exec(s0, steps'), s0, k - 1);
      hide Copying, CanWrite, DoWrite;
      RunSnoc(s0, steps', CommitWrite);
      steps' := steps' + [CommitWrite];
    }
  }

  // The three operations end, and the last of them commits.
  lemma EndAll(s0: System, steps: seq<Step>) returns (steps': seq<Step>)
    requires Init(s0) && RoomOnDisk(s0) && 2 <= s0.rg.size <= LOGSIZE && Run(s0, steps)
    requires Raced(Exec(s0, steps), s0, s0.rg.size - 2) && Pending(Exec(s0, steps), s0, s0.rg.size)
    ensures Run(s0, steps') && Copying(Exec(s0, steps'), s0, 0)
  {
    var s := Exec(s0, steps);
    RunSnoc(s0, steps, EndOp(0));
    ReplaySnoc(s0.disk, s.hist.events, Ended(0));
    steps' := steps + [EndOp(0)];
    var t := Exec(s0, steps');
    RunSnoc(s0, steps', EndOp(1));
    ReplaySnoc(s0.disk, t.hist.events, Ended(1));
    steps' := steps' + [EndOp(1)];
    var u := Exec(s0, steps');
    RunSnoc(s0, steps', EndOp(2));
    ReplaySnoc(s0.disk, u.hist.events, Ended(2));
    steps' := steps' + [EndOp(2)];
    forall j: nat | j < s0.rg.size ensures TxnAt(s.pinned, s0, j) {
      assert PinnedAt(s, s0, j);
    }
  }

  // The first block after the log has been overwritten with another block's copy; nothing is committed.
  lemma DamageRun(s0: System) returns (steps: seq<Step>)
    requires Init(s0) && RoomOnDisk(s0) && 2 <= s0.rg.size <= LOGSIZE
    ensures Run(s0, steps) && Copying(Exec(s0, steps), s0, s0.rg.size)
  {
    hide Raced, Pending, Copying, Init;
    steps := RaceRun(s0, s0.rg.size - 2);
    steps := EndAll(s0, steps);
    steps := CopyRun(s0, steps, s0.rg.size);
  }

  lemma DamageIsUnsafe(s0: System, steps: seq<Step>)
    requires Init(s0) && 2 <= s0.rg.size && Run(s0, steps) && Copying(Exec(s0, steps), s0, s0.rg.size)
    ensures !CrashSafe(s0, steps, []) && !ReadsAll(s0, steps, Target(s0.rg, 0))
  {
    HistoryIsTold(s0, steps);
    hide Told;
    var s, b := Exec(s0, steps), Target(s0.rg, 0);
    assert s.disk[b] == Datum(s0, s0.rg.size - 1) != Datum(s0, 0);
    assert DurablePart(s.hist) == [];
    assert s.disk[s0.rg.start] == s0.disk[s0.rg.start];
    EmptyLogRecovers(s0.rg, s.disk);
    assert Home(s0.rg, |s.disk|, b);
    assert Recover(s0.rg, s.disk)[b] == s.disk[b];
    assert CrashingRecoveries(s0.rg, s.disk, []) == s.disk;
  }

  ghost predicate AlwaysCrashSafe(s0: System) {
    forall steps, ks :: Run(s0, steps) ==> CrashSafe(s0, steps, ks)
  }

  ghost predicate AlwaysReadsAll(s0: System) {
    forall steps, b: nat :: Run(s0, steps) ==> ReadsAll(s0, steps, b)
  }

  // Every run is crash safe, and every read sees every write, exactly when the log does not have between 2
  // and LOGSIZE blocks. With the LOGSIZE blocks that mkfs gives it, neither holds.
  lemma CrashSafeExactly(s0: System)
    requires Init(s0) && RoomOnDisk(s0)
    ensures AlwaysCrashSafe(s0) <==> !(2 <= s0.rg.size <= LOGSIZE)
    ensures AlwaysReadsAll(s0) <==> !(2 <= s0.rg.size <= LOGSIZE)
  {
    hide CrashSafe, ReadsAll, Copying, Init;
    if 2 <= s0.rg.size <= LOGSIZE {
      var steps := DamageRun(s0);
      DamageIsUnsafe(s0, steps);
    } else {
      forall steps, ks | Run(s0, steps) ensures CrashSafe(s0, steps, ks) {
        SafeSizes(s0, steps, ks, 0);
      }
      forall steps, b: nat | Run(s0, steps) ensures ReadsAll(s0, steps, b) {
        SafeSizes(s0, steps, [], b);
      }
    }
  }
}
