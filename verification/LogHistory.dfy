/** The history of a run of the log, told by the labels of its steps alone: which writes log_write was called
    with, which operations have ended, and which part of all this is durable. */
module LogHistory {
  import opened LogRecovery
  import opened LogSystem

  // The calls so far; how many of them are durable; the last argument of each operation's log_write; the
  // operations between begin_op and end_op; and the writes of the commit that is going on.
  datatype Tale = Tale(events: seq<Event>, durable: nat, asked: map<Op, Write>, open: set<Op>, copied: nat)

  // The blocks written in es.
  function Blocks(es: seq<Event>): set<nat> {
    set i | 0 <= i < |es| && es[i].Wrote? :: es[i].b
  }

  function Since(t: Tale): seq<Event> {
    if t.durable <= |t.events| then t.events[t.durable..] else []
  }

  // A group is durable with the write that follows one copy for each of its blocks.
  function Tell(t: Tale, st: Step): Tale {
    match st
    case BeginOp(op) => t.(open := t.open + {op})
    case CheckRoom(op, w) => t.(asked := t.asked[op := w])
    case AddBlock(op) =>
      if op in t.asked then t.(events := t.events + [Wrote(op, t.asked[op].b, t.asked[op].data)]) else t
    case EndOp(op) => t.(events := t.events + [Ended(op)], open := t.open - {op}, copied := 0)
    case CommitWrite =>
      t.(copied := t.copied + 1, durable := if t.copied == |Blocks(Since(t))| then |t.events| else t.durable)
    case CommitDone => t.(durable := |t.events|)
    case Crash => Tale(if t.durable <= |t.events| then t.events[..t.durable] else t.events, t.durable, map[], {}, 0)
    case RecoverWrite => t
    case RecoverDone => t
  }

  function TellOn(t: Tale, steps: seq<Step>): Tale
    decreases |steps|
  {
    if steps == [] then t else TellOn(Tell(t, steps[0]), steps[1..])
  }

  function Told(steps: seq<Step>): Tale {
    TellOn(Tale([], 0, map[], {}, 0), steps)
  }

  // ---- the system's own record agrees with it ----

  function AsSet(lh: seq<nat>): set<nat> {
    set b | b in lh
  }

  ghost predicate CommitAgrees(lh: seq<nat>, ph: Phase, t: Tale)
    requires ph.Committing?
  {
    && t.copied == ph.done && t.open == {}
    && lh == (if ph.lh0 != [] && ph.done < 2 * |ph.lh0| + 2 then ph.lh0 else [])
    && (if ph.done <= |ph.lh0| then Distinct(ph.lh0) && Blocks(Since(t)) == AsSet(ph.lh0)
        else t.durable == |t.events|)
  }

  ghost predicate Agrees(s: System, t: Tale) {
    && t.events == s.hist.events && t.durable == s.hist.committed <= |s.hist.events|
    && (!s.phase.Panicked? ==>
          t.open == s.ops.active && forall op <- s.ops.checked :: op in t.asked && t.asked[op] == s.ops.checked[op])
    && match s.phase
       case Serving => Blocks(Since(t)) == AsSet(s.lh) && (t.open == {} ==> t.durable == |t.events|)
       case Committing(_, _, _, _) => CommitAgrees(s.lh, s.phase, t)
       case Recovering(_, _) => t.durable == |t.events| && s.lh == [] && t.open == {}
       case Panicked => true
  }

  lemma {:induction false} DistinctCard(lh: seq<nat>)
    requires Distinct(lh)
    ensures |AsSet(lh)| == |lh|
    decreases |lh|
  {
    if lh == [] {
      assert AsSet(lh) == {};
    } else {
      var k := |lh| - 1;
      DistinctCard(lh[..k]);
      assert lh == lh[..k] + [lh[k]];
      assert AsSet(lh) == AsSet(lh[..k]) + {lh[k]};
    }
  }

  lemma BlocksSnoc(es: seq<Event>, e: Event)
    ensures Blocks(es + [e]) == Blocks(es) + if e.Wrote? then {e.b} else {}
  {
    forall b | b in Blocks(es) ensures b in Blocks(es + [e]) {
      var i :| 0 <= i < |es| && es[i].Wrote? && es[i].b == b;
      assert (es + [e])[i] == es[i];
    }
    assert (es + [e])[|es|] == e;
  }

  lemma AddAgrees(s: System, t: Tale, op: Op)
    requires Accounting(s) && Agrees(s, t) && CanAdd(s, op)
    ensures Agrees(DoAdd(s, op), Tell(t, AddBlock(op)))
  {
    hide Reservation, InBudget;
    var w, t' := s.ops.checked[op], Tell(t, AddBlock(op));
    BlocksSnoc(Since(t), Wrote(op, w.b, w.data));
    assert Since(t') == Since(t) + [Wrote(op, w.b, w.data)];
    assert AsSet(Absorb(s.lh, w.b)) == AsSet(s.lh) + {w.b};
  }

  // The operation that commits is the last one.
  lemma LastOut(s: System, op: Op)
    requires Accounting(s) && CanEnd(s, op)
    ensures Distinct(s.lh) && s.phase.Serving? && !s.committing
    ensures s.ops.outstanding == 1 <==> s.ops.active - {op} == {}
  {
    assert |s.ops.active - {op}| == |s.ops.active| - 1;
  }

  lemma EndAgrees(s: System, t: Tale, op: Op)
    requires Accounting(s) && Agrees(s, t) && CanEnd(s, op)
    ensures Agrees(DoEnd(s, op), Tell(t, EndOp(op)))
  {
    LastOut(s, op);
    hide Accounting, Distinct, Blocks, AsSet, Spent, Since, CommitFits;
    SinceEnd(t, op);
  }

  lemma SinceEnd(t: Tale, op: Op)
    requires t.durable <= |t.events|
    ensures Blocks(Since(Tell(t, EndOp(op)))) == Blocks(Since(t))
  {
    BlocksSnoc(Since(t), Ended(op));
    assert Since(Tell(t, EndOp(op))) == Since(t) + [Ended(op)];
  }

  lemma WriteAgrees(s: System, t: Tale)
    requires Accounting(s) && Agrees(s, t) && CanWrite(s)
    ensures Agrees(DoWrite(s), Tell(t, CommitWrite))
  {
    hide CommitWrites, Reservation, InBudget;
    var ph := s.phase;
    if ph.done <= |ph.lh0| {
      DistinctCard(ph.lh0);
    } else {
      assert Since(t) == [];
      assert Blocks(Since(t)) == {};
    }
  }

  lemma TellKeeps(s: System, t: Tale, st: Step)
    requires Accounting(s) && Agrees(s, t) && Enabled(s, st)
    ensures Agrees(Do(s, st), Tell(t, st))
  {
    hide CommitWrites, RecoverWrites, Reservation, InBudget;
    match st
    case BeginOp(op) =>
    case CheckRoom(op, w) =>
    case AddBlock(op) => AddAgrees(s, t, op);
    case EndOp(op) => EndAgrees(s, t, op);
    case CommitWrite => WriteAgrees(s, t);
    case CommitDone => assert Since(Tell(t, st)) == [];
    case Crash =>
    case RecoverWrite =>
    case RecoverDone => assert Since(t) == [];
  }

  lemma {:induction false} TellRun(s: System, t: Tale, steps: seq<Step>)
    requires Accounting(s) && Agrees(s, t) && Run(s, steps)
    ensures Agrees(Exec(s, steps), TellOn(t, steps))
    decreases |steps|
  {
    hide Accounting, Agrees, Enabled, Do, Tell;
    if steps != [] {
      AccountingKeeps(s, steps[0]);
      TellKeeps(s, t, steps[0]);
      TellRun(Do(s, steps[0]), Tell(t, steps[0]), steps[1..]);
    }
  }

  // In every run, of a log of any size, the recorded history is the one the labels tell.
  lemma HistoryIsTold(s0: System, steps: seq<Step>)
    requires Init(s0) && Run(s0, steps)
    ensures var s, t := Exec(s0, steps), Told(steps);
            && s.hist.events == t.events && s.hist.committed == t.durable <= |t.events|
            && DurablePart(s.hist) == t.events[..t.durable]
  {
    hide Exec, Run, TellOn;
    var t := Tale([], 0, map[], {}, 0);
    assert Agrees(s0, t);
    TellRun(s0, t, steps);
  }

  // Group commit: whenever no operation is open and the log is at rest, all that was ever logged is durable.
  lemma AtRestAllIsDurable(s0: System, steps: seq<Step>)
    requires Init(s0) && Run(s0, steps)
    ensures var s, t := Exec(s0, steps), Told(steps);
            && (!s.phase.Panicked? ==> s.ops.active == t.open)
            && (s.phase.Serving? && t.open == {} ==> t.durable == |t.events|)
  {
    hide Exec, Run, TellOn;
    var t := Tale([], 0, map[], {}, 0);
    assert Agrees(s0, t);
    TellRun(s0, t, steps);
  }
}
