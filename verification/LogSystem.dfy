/** log.c as a whole: any number of file-system operations running begin_op, log_write and
    end_op, the committer writing one block at a time, crashes between any two writes, and
    recovery. A run is a sequence of labelled steps. */
module LogSystem {
  import opened Params
  import opened Blocks
  import opened LogRecovery

  type Op = nat

  // What happened so far: log_write calls and ends of operations.
  datatype Event = Wrote(op: Op, b: nat, data: Block) | Ended(op: Op)

  datatype Phase =
    | Serving
      // commit() runs: disk, header and pinned blocks when it started, and its writes done so far
    | Committing(d0: Disk, lh0: seq<nat>, txn: map<nat, Block>, done: nat)
      // recover_from_log() runs: disk when it started, and its writes done so far
    | Recovering(r0: Disk, redone: nat)
    | Panicked

  // The operations between begin_op and end_op.
  datatype Ops = Ops(
    outstanding: nat,            // log.outstanding
    active: set<Op>,
    checked: map<Op, Write>,     // operations in log_write, past the capacity check
    adds: set<(Op, nat)>)        // distinct blocks logged by each active operation

  // History, for stating properties only: events[..committed] are durable.
  datatype History = History(base: Disk, events: seq<Event>, committed: nat)

  // Everything except rg, disk and hist is memory that a crash loses.
  datatype System = System(
    rg: Region,
    disk: Disk,
    lh: seq<nat>,                // log.lh
    pinned: map<nat, Block>,     // dirty buffers
    committing: bool,            // log.committing
    ops: Ops,
    phase: Phase,
    hist: History)

  datatype Step =
    | BeginOp(op: Op)
    | CheckRoom(op: Op, w: Write)  // log_write before acquire(&log.lock)
    | AddBlock(op: Op)             // log_write under the lock
    | EndOp(op: Op)
    | CommitWrite
    | CommitDone
    | Crash
    | RecoverWrite
    | RecoverDone

  // The blocks that op has logged.
  function Spent(adds: set<(Op, nat)>, op: Op): set<(Op, nat)> {
    set p | p in adds && p.0 == op
  }

  // log_write's search and append.
  function Absorb(lh: seq<nat>, b: nat): seq<nat> {
    if b in lh then lh else lh + [b]
  }

  // The log_write panic test.
  predicate NoRoom(rg: Region, lh: seq<nat>) {
    |lh| >= LOGSIZE || |lh| >= rg.size - 1
  }

  predicate Fresh(s: System, op: Op) {
    op !in s.ops.active && forall i :: 0 <= i < |s.hist.events| ==> s.hist.events[i].op != op
  }

  predicate Live(ph: Phase) {
    ph.Serving? || ph.Committing?
  }

  predicate CommitFits(rg: Region, ph: Phase) {
    && ph.Committing?
    && rg.start + |ph.lh0| < |ph.d0|
    && Encodable(ph.lh0)
    && (forall i :: 0 <= i < |ph.lh0| ==> ph.lh0[i] in ph.txn)
    && ph.done <= |CommitWrites(rg, ph.d0, ph.lh0, ph.txn)|
  }

  predicate RecoveryFits(rg: Region, ph: Phase) {
    && ph.Recovering?
    && rg.start < |ph.r0|
    && rg.start + |HeadOf(ph.r0[rg.start])| < |ph.r0|
    && ph.redone <= |RecoverWrites(rg, ph.r0)|
  }

  // -- begin_op: the branch that does not sleep

  predicate CanBegin(s: System, op: Op) {
    && Live(s.phase) && !s.committing
    && |s.lh| + (s.ops.outstanding + 1) * MAXOPBLOCKS <= LOGSIZE
    && Fresh(s, op)
  }

  function DoBegin(s: System, op: Op): System {
    s.(ops := s.ops.(outstanding := s.ops.outstanding + 1, active := s.ops.active + {op}))
  }

  // -- log_write up to acquire(&log.lock); an operation logs at most MAXOPBLOCKS distinct blocks

  predicate CanCheck(s: System, op: Op, w: Write) {
    && Live(s.phase) && op in s.ops.active && op !in s.ops.checked
    && Home(s.rg, |s.disk|, w.b)
    && |Spent(s.ops.adds + {(op, w.b)}, op)| <= MAXOPBLOCKS
  }

  function DoCheck(s: System, op: Op, w: Write): System {
    if NoRoom(s.rg, s.lh) || s.ops.outstanding < 1 then s.(phase := Panicked)
    else s.(ops := s.ops.(checked := s.ops.checked[op := w]))
  }

  // -- log_write under the lock

  predicate CanAdd(s: System, op: Op) {
    Live(s.phase) && op in s.ops.active && op in s.ops.checked
  }

  function OpsAfterAdd(o: Ops, op: Op): Ops
    requires op in o.checked
  {
    o.(checked := o.checked - {op}, adds := o.adds + {(op, o.checked[op].b)})
  }

  function DoAdd(s: System, op: Op): System
    requires op in s.ops.checked
  {
    var w := s.ops.checked[op];
    s.(lh := Absorb(s.lh, w.b),
       pinned := s.pinned[w.b := w.data],
       ops := OpsAfterAdd(s.ops, op),
       hist := Log(s.hist, Wrote(op, w.b, w.data)))
  }

  // -- end_op up to its first release(&log.lock)

  predicate CanEnd(s: System, op: Op) {
    Live(s.phase) && op in s.ops.active && op !in s.ops.checked && s.ops.outstanding >= 1
  }

  function OpsAfterEnd(o: Ops, op: Op): Ops
    requires o.outstanding >= 1
  {
    o.(outstanding := o.outstanding - 1, active := o.active - {op}, adds := o.adds - Spent(o.adds, op))
  }

  function DoEnd(s: System, op: Op): System
    requires s.ops.outstanding >= 1
  {
    if s.committing then s.(phase := Panicked) else
    var s' := s.(ops := OpsAfterEnd(s.ops, op), hist := Log(s.hist, Ended(op)));
    if s'.ops.outstanding == 0
    then s'.(committing := true, phase := Committing(s.disk, s.lh, s.pinned, 0))
    else s'
  }

  // -- commit, one bwrite at a time

  predicate CanWrite(s: System) {
    CommitFits(s.rg, s.phase) && s.phase.done < |CommitWrites(s.rg, s.phase.d0, s.phase.lh0, s.phase.txn)|
  }

  // The header write is the commit point.
  function HistAfterWrite(ph: Phase, h: History): History
    requires ph.Committing?
  {
    if ph.done == |ph.lh0| then h.(committed := |h.events|) else h
  }

  function DoWrite(s: System): System
    requires CanWrite(s)
  {
    var ph := s.phase;
    var ws := CommitWrites(s.rg, ph.d0, ph.lh0, ph.txn);
    var w := ws[ph.done];
    s.(disk := Put(s.disk, w),
       pinned := s.pinned - {w.b},
       lh := if ph.done == |ws| - 1 then [] else s.lh,
       phase := Committing(ph.d0, ph.lh0, ph.txn, ph.done + 1),
       hist := HistAfterWrite(ph, s.hist))
  }

  // -- the end of end_op, after commit

  predicate CanFinish(s: System) {
    CommitFits(s.rg, s.phase) && s.phase.done == |CommitWrites(s.rg, s.phase.d0, s.phase.lh0, s.phase.txn)|
  }

  function DoFinish(s: System): System {
    s.(committing := false, phase := Serving, hist := s.hist.(committed := |s.hist.events|))
  }

  // -- power failure and recover_from_log, one bwrite at a time

  function DoCrash(s: System): System
    requires s.hist.committed <= |s.hist.events|
  {
    System(s.rg, s.disk, [], map[], false, Ops(0, {}, map[], {}), Recovering(s.disk, 0),
           s.hist.(events := DurablePart(s.hist)))
  }

  predicate CanRedo(s: System) {
    RecoveryFits(s.rg, s.phase) && s.phase.redone < |RecoverWrites(s.rg, s.phase.r0)|
  }

  function DoRedo(s: System): System
    requires CanRedo(s)
  {
    s.(disk := Put(s.disk, RecoverWrites(s.rg, s.phase.r0)[s.phase.redone]),
       phase := Recovering(s.phase.r0, s.phase.redone + 1))
  }

  predicate CanServe(s: System) {
    RecoveryFits(s.rg, s.phase) && s.phase.redone == |RecoverWrites(s.rg, s.phase.r0)|
  }

  function Log(h: History, e: Event): History {
    h.(events := h.events + [e])
  }

  predicate Enabled(s: System, st: Step) {
    match st
    case BeginOp(op) => CanBegin(s, op)
    case CheckRoom(op, w) => CanCheck(s, op, w)
    case AddBlock(op) => CanAdd(s, op)
    case EndOp(op) => CanEnd(s, op)
    case CommitWrite => CanWrite(s)
    case CommitDone => CanFinish(s)
    case Crash => s.hist.committed <= |s.hist.events|
    case RecoverWrite => CanRedo(s)
    case RecoverDone => CanServe(s)
  }

  function Do(s: System, st: Step): System
    requires Enabled(s, st)
  {
    match st
    case BeginOp(op) => DoBegin(s, op)
    case CheckRoom(op, w) => DoCheck(s, op, w)
    case AddBlock(op) => DoAdd(s, op)
    case EndOp(op) => DoEnd(s, op)
    case CommitWrite => DoWrite(s)
    case CommitDone => DoFinish(s)
    case Crash => DoCrash(s)
    case RecoverWrite => DoRedo(s)
    case RecoverDone => s.(phase := Serving)
  }

  ghost predicate Run(s: System, steps: seq<Step>)
    decreases |steps|
  {
    steps == [] || (Enabled(s, steps[0]) && Run(Do(s, steps[0]), steps[1..]))
  }

  ghost function Exec(s: System, steps: seq<Step>): System
    requires Run(s, steps)
    decreases |steps|
  {
    if steps == [] then s else Exec(Do(s, steps[0]), steps[1..])
  }

  // A freshly made file system: empty log, nothing in memory.
  ghost predicate Init(s: System) {
    && s.rg.size >= 1 && s.rg.start + s.rg.size <= |s.disk| <= 0x1_0000_0000
    && HeadOf(s.disk[s.rg.start]) == []
    && s == System(s.rg, s.disk, [], map[], false, Ops(0, {}, map[], {}), Serving, History(s.disk, [], 0))
  }

  function DurablePart(h: History): seq<Event>
    requires h.committed <= |h.events|
  {
    h.events[..h.committed]
  }

  // ---- the accounting of log space, for a log of any size ----

  ghost predicate Distinct(lh: seq<nat>) {
    forall i, j :: 0 <= i < j < |lh| ==> lh[i] != lh[j]
  }

  ghost predicate InBudget(o: Ops) {
    && (forall op <- o.active :: |Spent(o.adds, op)| <= MAXOPBLOCKS)
    && (forall op <- o.checked :: op in o.active && |Spent(o.adds + {(op, o.checked[op].b)}, op)| <= MAXOPBLOCKS)
  }

  // lh.n plus everything the active operations may still add fits in the log.
  ghost predicate Reservation(lh: seq<nat>, o: Ops) {
    && o.outstanding == |o.active|
    && Distinct(lh)
    && (forall p <- o.adds :: p.0 in o.active && p.1 in lh)
    && |lh| + o.outstanding * MAXOPBLOCKS - |o.adds| <= LOGSIZE
  }

  ghost predicate Flags(s: System) {
    && (s.committing <==> s.phase.Committing?)
    && (!s.phase.Serving? ==> s.ops.active == {})
  }

  ghost predicate Accounting(s: System) {
    s.phase.Panicked? || (
      && Reservation(s.lh, s.ops)
      && InBudget(s.ops)
      && Flags(s)
      && (s.rg.size <= 1 ==> s.lh == [] && s.ops.checked == map[]))
  }

  lemma SpentOther(adds: set<(Op, nat)>, p: (Op, nat), op: Op)
    requires p.0 != op
    ensures Spent(adds + {p}, op) == Spent(adds, op)
  {
  }

  lemma AbsorbDistinct(lh: seq<nat>, b: nat)
    requires Distinct(lh)
    ensures Distinct(Absorb(lh, b)) && b in Absorb(lh, b)
    ensures forall c :: c in Absorb(lh, b) <==> c in lh || c == b
    ensures |Absorb(lh, b)| == |lh| + if b in lh then 0 else 1
  {
  }

  lemma AddReservation(lh: seq<nat>, o: Ops, op: Op)
    requires Reservation(lh, o) && op in o.active && op in o.checked
    ensures Reservation(Absorb(lh, o.checked[op].b), OpsAfterAdd(o, op))
  {
    var b := o.checked[op].b;
    AbsorbDistinct(lh, b);
    if (op, b) in o.adds {
      assert o.adds + {(op, b)} == o.adds;
    } else {
      assert |o.adds + {(op, b)}| == |o.adds| + 1;
    }
  }

  lemma AddBudget(o: Ops, op: Op)
    requires InBudget(o) && op in o.checked
    ensures InBudget(OpsAfterAdd(o, op))
  {
    var p := (op, o.checked[op].b);
    forall q | q in o.active && q != op ensures Spent(o.adds + {p}, q) == Spent(o.adds, q) {
      SpentOther(o.adds, p, q);
    }
    forall q | q in o.checked && q != op
      ensures |Spent(o.adds + {p} + {(q, o.checked[q].b)}, q)| <= MAXOPBLOCKS
    {
      var r := (q, o.checked[q].b);
      assert o.adds + {p} + {r} == o.adds + {r} + {p};
      SpentOther(o.adds + {r}, p, q);
    }
  }

  lemma EndReservation(lh: seq<nat>, o: Ops, op: Op)
    requires Reservation(lh, o) && InBudget(o) && op in o.active && op !in o.checked
    ensures o.outstanding >= 1
    ensures Reservation(lh, OpsAfterEnd(o, op))
  {
    var spent := Spent(o.adds, op);
    assert |o.adds - spent| == |o.adds| - |spent|;
    assert |o.active - {op}| == |o.active| - 1;
  }

  lemma EndBudget(o: Ops, op: Op)
    requires InBudget(o) && op in o.active && op !in o.checked && o.outstanding >= 1
    ensures InBudget(OpsAfterEnd(o, op))
  {
    var adds' := o.adds - Spent(o.adds, op);
    forall q | q in o.active && q != op ensures Spent(adds', q) == Spent(o.adds, q) {
    }
    forall q | q in o.checked
      ensures Spent(adds' + {(q, o.checked[q].b)}, q) == Spent(o.adds + {(q, o.checked[q].b)}, q)
    {
    }
  }

  lemma QuietReservation(lh: seq<nat>, o: Ops)
    requires Reservation(lh, o) && o.active == {}
    ensures Reservation([], o)
  {
    assert o.adds == {};
  }

  lemma BeginAccounts(s: System, op: Op)
    requires Accounting(s) && CanBegin(s, op)
    ensures Accounting(DoBegin(s, op))
  {
    assert Spent(s.ops.adds, op) == {};
  }

  lemma CheckAccounts(s: System, op: Op, w: Write)
    requires Accounting(s) && CanCheck(s, op, w)
    ensures Accounting(DoCheck(s, op, w))
  {
    var o' := s.ops.(checked := s.ops.checked[op := w]);
    assert InBudget(o') && Reservation(s.lh, o');
  }

  lemma AddAccounts(s: System, op: Op)
    requires Accounting(s) && CanAdd(s, op)
    ensures Accounting(DoAdd(s, op))
  {
    AddReservation(s.lh, s.ops, op);
    AddBudget(s.ops, op);
  }

  // The panic in end_op cannot happen: while an operation is active nobody commits.
  lemma EndAccounts(s: System, op: Op)
    requires Accounting(s) && CanEnd(s, op)
    ensures Accounting(DoEnd(s, op)) && !DoEnd(s, op).phase.Panicked?
  {
    EndReservation(s.lh, s.ops, op);
    EndBudget(s.ops, op);
    if s.ops.outstanding == 1 {
      assert s.ops.active - {op} == {};
    }
  }

  lemma WriteAccounts(s: System)
    requires Accounting(s) && CanWrite(s)
    ensures Accounting(DoWrite(s))
  {
    hide CommitWrites, InBudget;
    QuietReservation(s.lh, s.ops);
  }

  lemma AccountingKeeps(s: System, st: Step)
    requires Accounting(s) && Enabled(s, st)
    ensures Accounting(Do(s, st))
  {
    hide CommitWrites, RecoverWrites, InBudget, Reservation;
    match st
    case BeginOp(op) => BeginAccounts(s, op);
    case CheckRoom(op, w) => CheckAccounts(s, op, w);
    case AddBlock(op) => AddAccounts(s, op);
    case EndOp(op) => EndAccounts(s, op);
    case CommitWrite => WriteAccounts(s);
    case CommitDone =>
    case Crash => EmptyAccounts(s);
    case RecoverWrite =>
    case RecoverDone =>
  }

  lemma EmptyAccounts(s: System)
    requires s.hist.committed <= |s.hist.events|
    ensures Accounting(DoCrash(s))
  {
  }

  lemma {:induction false} AccountingRun(s: System, steps: seq<Step>)
    requires Accounting(s) && Run(s, steps)
    ensures Accounting(Exec(s, steps))
    decreases |steps|
  {
    hide Accounting, Enabled, Do;
    if steps != [] {
      AccountingKeeps(s, steps[0]);
      AccountingRun(Do(s, steps[0]), steps[1..]);
    }
  }

  lemma {:induction false} AddsBound(active: set<Op>, adds: set<(Op, nat)>)
    requires forall op <- active :: |Spent(adds, op)| <= MAXOPBLOCKS
    requires forall p <- adds :: p.0 in active
    ensures |adds| <= |active| * MAXOPBLOCKS
  {
    if active == {} {
      assert adds == {};
    } else {
      var op :| op in active;
      var spent := Spent(adds, op);
      var active', adds' := active - {op}, adds - spent;
      forall q | q in active' ensures Spent(adds', q) == Spent(adds, q) {
      }
      AddsBound(active', adds');
      assert |adds'| == |adds| - |spent| && |active'| == |active| - 1;
    }
  }

  // While one operation has not spent its budget, the log has room.
  lemma RoomWhileUnspent(s: System, op: Op)
    requires Accounting(s) && !s.phase.Panicked?
    requires op in s.ops.active && |Spent(s.ops.adds, op)| < MAXOPBLOCKS
    ensures |s.lh| < LOGSIZE
  {
    var o := s.ops;
    var spent := Spent(o.adds, op);
    var active', adds' := o.active - {op}, o.adds - spent;
    forall q | q in active' ensures Spent(adds', q) == Spent(o.adds, q) {
    }
    AddsBound(active', adds');
    assert |adds'| == |o.adds| - |spent| && |active'| == |o.active| - 1;
  }

  // The log_write panic, exactly. A call that adds a block, by an operation within its
  // budget, panics only for want of on-disk slots: never when log.size > LOGSIZE, and when
  // log.size == LOGSIZE just at lh.n == LOGSIZE - 1. A call that is absorbed panics in the same
  // states, and in a larger log when the header is full.
  lemma LogWritePanics(s: System, op: Op, w: Write)
    requires Accounting(s) && !s.phase.Panicked? && CanCheck(s, op, w)
    ensures w.b !in s.lh ==> (DoCheck(s, op, w).phase.Panicked? <==> |s.lh| >= s.rg.size - 1)
    ensures w.b !in s.lh && s.rg.size > LOGSIZE ==> !DoCheck(s, op, w).phase.Panicked?
    ensures w.b !in s.lh && s.rg.size == LOGSIZE ==> (DoCheck(s, op, w).phase.Panicked? <==> |s.lh| == LOGSIZE - 1)
    ensures w.b in s.lh && s.rg.size > LOGSIZE ==> (DoCheck(s, op, w).phase.Panicked? <==> |s.lh| == LOGSIZE)
    ensures w.b in s.lh && s.rg.size <= LOGSIZE ==> (DoCheck(s, op, w).phase.Panicked? <==> |s.lh| >= s.rg.size - 1)
    ensures |s.lh| <= LOGSIZE
  {
    var o := s.ops;
    assert |o.active| >= 1;
    AddsBound(o.active, o.adds);
    if w.b !in s.lh {
      var p := (op, w.b);
      assert p !in o.adds;
      assert Spent(o.adds + {p}, op) == Spent(o.adds, op) + {p};
      assert |Spent(o.adds + {p}, op)| == |Spent(o.adds, op)| + 1;
      RoomWhileUnspent(s, op);
    }
  }
}
