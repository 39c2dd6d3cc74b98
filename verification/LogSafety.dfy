/** Crash safety of every run of the log in which the header never names more blocks than the log on disk
    has slots; and for which sizes of the log that is every run. */
module LogSafety {
  import opened Params
  import opened Blocks
  import opened LogRecovery
  import opened LogSystem
  import opened LogHistory

  // ---- specification ----

  // The disk as the log_write calls in es, in order, would make it.
  function Replay(base: Disk, es: seq<Event>): (d: Disk)
    ensures |d| == |base|
  {
    if es == [] then base else
    var d := Replay(base, es[..|es| - 1]);
    var e := es[|es| - 1];
    if e.Wrote? && e.b < |base| then d[e.b := e.data] else d
  }

  // What bread returns.
  function View(disk: Disk, pinned: map<nat, Block>, b: nat): Block
    requires b < |disk|
  {
    if b in pinned then pinned[b] else disk[b]
  }

  // Each operation with a write in es either is still open or also ends in es.
  ghost predicate Whole(es: seq<Event>, open: set<Op>) {
    forall i :: 0 <= i < |es| && es[i].Wrote? ==> es[i].op in open || EndsAfter(es, i)
  }

  ghost predicate EndsAfter(es: seq<Event>, i: nat)
    requires i < |es|
  {
    exists j :: i < j < |es| && es[j] == Ended(es[i].op)
  }

  // An operation does nothing after its end.
  ghost predicate EndsAreFinal(es: seq<Event>) {
    forall i, j :: 0 <= i < j < |es| && es[i].Ended? ==> es[j].op != es[i].op
  }

  // After a crash at this very moment recovery yields exactly the durable part of the
  // history, which consists of whole operations.
  ghost predicate Durable(rg: Region, disk: Disk, h: History) {
    && h.committed <= |h.events|
    && RecoversTo(rg, disk, Replay(h.base, DurablePart(h)))
    && Whole(DurablePart(h), {})
    && EndsAreFinal(h.events)
  }

  // ---- the invariant ----

  ghost predicate Geometry(rg: Region, n: nat, h: History) {
    rg.size >= 1 && rg.start + rg.size <= n <= 0x1_0000_0000 && |h.base| == n
  }

  ghost predicate AllHome(rg: Region, n: nat, o: Ops) {
    forall op <- o.checked :: Home(rg, n, o.checked[op].b)
  }

  ghost predicate Opened(es: seq<Event>, active: set<Op>) {
    && Whole(es, active)
    && (forall i :: 0 <= i < |es| && es[i].Ended? ==> es[i].op !in active)
  }

  // Reads see every log_write so far.
  ghost predicate ReadsLatest(rg: Region, disk: Disk, pinned: map<nat, Block>, h: History)
    requires |disk| == |h.base|
  {
    var d := Replay(h.base, h.events);
    forall b :: 0 <= b < |disk| && Home(rg, |disk|, b) ==> View(disk, pinned, b) == d[b]
  }

  ghost predicate ServingOk(rg: Region, disk: Disk, lh: seq<nat>, pinned: map<nat, Block>, h: History)
    requires Geometry(rg, |disk|, h) && h.committed <= |h.events|
  {
    && HeadOf(disk[rg.start]) == []
    && SameHome(rg, disk, Replay(h.base, DurablePart(h)))
    && pinned.Keys == (set b | b in lh)
    && (forall i :: 0 <= i < |lh| ==> Home(rg, |disk|, lh[i]))
    && ReadsLatest(rg, disk, pinned, h)
  }

  // The logged blocks that commit() has not yet installed.
  function Uninstalled(ph: Phase): seq<nat>
    requires ph.Committing?
  {
    var i := ph.done - |ph.lh0| - 1;
    if i <= 0 then ph.lh0 else if i <= |ph.lh0| then ph.lh0[i..] else []
  }

  ghost predicate CommitProgress(rg: Region, disk: Disk, lh: seq<nat>, pinned: map<nat, Block>, ph: Phase)
    requires CommitFits(rg, ph)
  {
    var ws := CommitWrites(rg, ph.d0, ph.lh0, ph.txn);
    && disk == Apply(ph.d0, ws[..ph.done])
    && lh == (if ph.done < |ws| then ph.lh0 else [])
    && forall b <- pinned.Keys :: b in Uninstalled(ph)
  }

  // What commit() started from.
  ghost predicate CommitStart(rg: Region, n: nat, ph: Phase, h: History)
    requires Geometry(rg, n, h) && ph.Committing? && h.committed <= |h.events|
  {
    && |ph.d0| == n
    && ValidTxn(rg, n, ph.lh0, ph.txn)
    && HeadOf(ph.d0[rg.start]) == []
    && SameHome(rg, Overlay(ph.d0, ph.txn), Replay(h.base, h.events))
    && (if ph.done <= |ph.lh0| then SameHome(rg, ph.d0, Replay(h.base, DurablePart(h)))
        else h.committed == |h.events|)
  }

  ghost predicate CommittingOk(rg: Region, disk: Disk, lh: seq<nat>, pinned: map<nat, Block>, ph: Phase, h: History)
    requires Geometry(rg, |disk|, h) && h.committed <= |h.events| && ph.Committing?
  {
    && CommitFits(rg, ph)
    && CommitStart(rg, |disk|, ph, h)
    && CommitProgress(rg, disk, lh, pinned, ph)
    && ReadsLatest(rg, disk, pinned, h)
  }

  ghost predicate RecoveringOk(rg: Region, disk: Disk, r0: Disk, redone: nat, h: History)
    requires Geometry(rg, |disk|, h)
  {
    && h.committed == |h.events|
    && RecoversTo(rg, r0, Replay(h.base, h.events))
    && redone <= |RecoverWrites(rg, r0)|
    && disk == Apply(r0, RecoverWrites(rg, r0)[..redone])
  }

  ghost predicate Contents(rg: Region, disk: Disk, lh: seq<nat>, pinned: map<nat, Block>, ph: Phase, h: History)
    requires Geometry(rg, |disk|, h) && h.committed <= |h.events|
  {
    match ph
    case Serving => ServingOk(rg, disk, lh, pinned, h)
    case Committing(_, _, _, _) => CommittingOk(rg, disk, lh, pinned, ph, h)
    case Recovering(r0, redone) => lh == [] && pinned == map[] && RecoveringOk(rg, disk, r0, redone, h)
    case Panicked => true
  }

  // The header fits the log on disk.
  predicate Fitting(s: System) {
    |s.lh| < s.rg.size
  }

  ghost predicate Inv(s: System) {
    && Geometry(s.rg, |s.disk|, s.hist)
    && Fitting(s)
    && Durable(s.rg, s.disk, s.hist)
    && Accounting(s)
    && (s.phase.Panicked? || (
        && AllHome(s.rg, |s.disk|, s.ops)
        && Opened(s.hist.events, s.ops.active)
        && Contents(s.rg, s.disk, s.lh, s.pinned, s.phase, s.hist)))
  }

  // ---- every step keeps the invariant ----

  lemma ReplaySnoc(base: Disk, es: seq<Event>, e: Event)
    ensures Replay(base, es + [e])
            == if e.Wrote? && e.b < |base| then Replay(base, es)[e.b := e.data] else Replay(base, es)
  {
    assert (es + [e])[..|es|] == es;
  }

  lemma BeginKeeps(s: System, op: Op)
    requires Inv(s) && CanBegin(s, op)
    ensures Inv(DoBegin(s, op))
  {
    hide Durable, Contents, EndsAfter, InBudget, Reservation;
    BeginAccounts(s, op);
  }

  lemma CheckKeeps(s: System, op: Op, w: Write)
    requires Inv(s) && CanCheck(s, op, w)
    ensures Inv(DoCheck(s, op, w))
  {
    hide Durable, Contents, Opened, InBudget, Reservation;
    CheckAccounts(s, op, w);
  }

  // - AddBlock

  lemma WholeSnoc(es: seq<Event>, open: set<Op>, e: Event)
    requires Whole(es, open) && (e.Wrote? ==> e.op in open)
    ensures Whole(es + [e], if e.Ended? then open - {e.op} else open)
  {
    var es' := es + [e];
    forall i | 0 <= i < |es'| && es'[i].Wrote?
      ensures es'[i].op in (if e.Ended? then open - {e.op} else open) || EndsAfter(es', i)
    {
      if i < |es| {
        if EndsAfter(es, i) {
          var j :| i < j < |es| && es[j] == Ended(es[i].op);
          assert es'[j] == Ended(es'[i].op);
        } else if e == Ended(es[i].op) {
          assert es'[|es|] == Ended(es'[i].op);
        }
      }
    }
  }

  lemma OpenedWrite(es: seq<Event>, open: set<Op>, e: Event)
    requires Opened(es, open) && e.Wrote? && e.op in open
    ensures Opened(es + [e], open)
  {
    WholeSnoc(es, open, e);
  }

  lemma DurableSnoc(rg: Region, disk: Disk, h: History, e: Event)
    requires Durable(rg, disk, h)
    requires forall i :: 0 <= i < |h.events| && h.events[i].Ended? ==> h.events[i].op != e.op
    ensures Durable(rg, disk, Log(h, e))
  {
    assert DurablePart(Log(h, e)) == DurablePart(h);
  }

  lemma AddContents(rg: Region, disk: Disk, lh: seq<nat>, pinned: map<nat, Block>, h: History, op: Op, w: Write)
    requires Geometry(rg, |disk|, h) && h.committed <= |h.events|
    requires ServingOk(rg, disk, lh, pinned, h) && Home(rg, |disk|, w.b)
    ensures ServingOk(rg, disk, Absorb(lh, w.b), pinned[w.b := w.data], Log(h, Wrote(op, w.b, w.data)))
  {
    var h' := Log(h, Wrote(op, w.b, w.data));
    ReplaySnoc(h.base, h.events, Wrote(op, w.b, w.data));
    assert DurablePart(h') == DurablePart(h);
    assert ReadsLatest(rg, disk, pinned[w.b := w.data], h');
    assert (set b | b in Absorb(lh, w.b)) == (set b | b in lh) + {w.b};
  }

  lemma AddKeeps(s: System, op: Op)
    requires Inv(s) && CanAdd(s, op) && Fitting(DoAdd(s, op))
    ensures Inv(DoAdd(s, op))
  {
    hide RecoversTo, ServingOk, CommittingOk, RecoveringOk, Whole, EndsAreFinal, InBudget, Replay, CommitWrites,
         RecoverWrites;
    var w := s.ops.checked[op];
    AddAccounts(s, op);
    assert AllHome(s.rg, |s.disk|, OpsAfterAdd(s.ops, op));
    OpenedWrite(s.hist.events, s.ops.active, Wrote(op, w.b, w.data));
    DurableSnoc(s.rg, s.disk, s.hist, Wrote(op, w.b, w.data));
    AddContents(s.rg, s.disk, s.lh, s.pinned, s.hist, op, w);
  }

  // - EndOp

  lemma OpenedEnd(es: seq<Event>, open: set<Op>, op: Op)
    requires Opened(es, open)
    ensures Opened(es + [Ended(op)], open - {op})
  {
    WholeSnoc(es, open, Ended(op));
  }

  // The contents do not depend on an operation ending, which writes nothing.
  lemma EndContents(rg: Region, disk: Disk, lh: seq<nat>, pinned: map<nat, Block>, h: History, op: Op)
    requires Geometry(rg, |disk|, h) && h.committed <= |h.events|
    requires ServingOk(rg, disk, lh, pinned, h)
    ensures ServingOk(rg, disk, lh, pinned, Log(h, Ended(op)))
  {
    ReplaySnoc(h.base, h.events, Ended(op));
    assert DurablePart(Log(h, Ended(op))) == DurablePart(h);
  }

  lemma OverlayIsView(rg: Region, disk: Disk, pinned: map<nat, Block>, h: History)
    requires |disk| == |h.base| && ReadsLatest(rg, disk, pinned, h)
    ensures SameHome(rg, Overlay(disk, pinned), Replay(h.base, h.events))
  {
    forall b | 0 <= b < |disk| && Home(rg, |disk|, b) ensures Overlay(disk, pinned)[b] == Replay(h.base, h.events)[b] {
      assert View(disk, pinned, b) == Overlay(disk, pinned)[b];
    }
  }

  lemma CommitBegins(rg: Region, disk: Disk, lh: seq<nat>, pinned: map<nat, Block>, h: History)
    requires Geometry(rg, |disk|, h) && h.committed <= |h.events|
    requires ServingOk(rg, disk, lh, pinned, h) && |lh| < rg.size && |lh| <= LOGSIZE
    ensures CommittingOk(rg, disk, lh, pinned, Committing(disk, lh, pinned, 0), h)
  {
    var ph := Committing(disk, lh, pinned, 0);
    assert ValidTxn(rg, |disk|, lh, pinned);
    OverlayIsView(rg, disk, pinned, h);
    assert CommitStart(rg, |disk|, ph, h);
    var ws := CommitWrites(rg, disk, lh, pinned);
    assert ws[..0] == [];
    assert CommitProgress(rg, disk, lh, pinned, ph);
  }

  lemma EndKeeps(s: System, op: Op)
    requires Inv(s) && CanEnd(s, op)
    ensures Inv(DoEnd(s, op))
  {
    hide RecoversTo, ServingOk, CommittingOk, RecoveringOk, Whole, EndsAreFinal, InBudget, Replay, CommitWrites,
         RecoverWrites;
    EndAccounts(s, op);
    OpenedEnd(s.hist.events, s.ops.active, op);
    DurableSnoc(s.rg, s.disk, s.hist, Ended(op));
    EndContents(s.rg, s.disk, s.lh, s.pinned, s.hist, op);
    assert AllHome(s.rg, |s.disk|, OpsAfterEnd(s.ops, op));
    if s.ops.outstanding == 1 {
      CommitBegins(s.rg, s.disk, s.lh, s.pinned, Log(s.hist, Ended(op)));
    }
  }

  // - CommitWrite

  lemma InstallData(rg: Region, d: Disk, lh: seq<nat>, txn: map<nat, Block>, i: nat)
    requires ValidTxn(rg, |d|, lh, txn) && rg.start + rg.size <= |d| && i < |lh|
    ensures Installs(rg, lh, Logged(rg, d, lh, txn))[i] == Write(lh[i], txn[lh[i]])
  {
    hide Logged, EncodeHead, HeadOf, SameHome, ValidLog;
    LoggedDisk(rg, d, lh, txn);
    var e := Logged(rg, d, lh, txn);
    assert e[rg.start + i + 1] == txn[lh[i]];
  }

  // Every home block that commit() writes gets its new contents.
  lemma CommitWriteData(rg: Region, d: Disk, lh: seq<nat>, txn: map<nat, Block>, k: nat)
    requires ValidTxn(rg, |d|, lh, txn) && rg.start + rg.size <= |d|
    requires k < |CommitWrites(rg, d, lh, txn)|
    ensures var w := CommitWrites(rg, d, lh, txn)[k];
            && w.b < |d|
            && (Home(rg, |d|, w.b) ==> w.b in txn && w.data == txn[w.b])
            && (|lh| < k <= 2 * |lh| ==> w.b == lh[k - |lh| - 1])
  {
    var ws := CommitWrites(rg, d, lh, txn);
    if |lh| < k <= 2 * |lh| {
      InstallData(rg, d, lh, txn, k - |lh| - 1);
      hide Logged, EncodeHead, Installs, LogCopies;
      assert ws[k] == Installs(rg, lh, Logged(rg, d, lh, txn))[k - |lh| - 1];
    } else if k < |lh| {
      hide Logged, EncodeHead, Installs;
      assert ws[k] == LogCopies(rg, lh, txn)[k];
    } else {
      hide Logged, EncodeHead, Installs, LogCopies;
      assert ws[k].b == rg.start;
    }
  }

  lemma WriteReads(rg: Region, disk: Disk, pinned: map<nat, Block>, h: History, w: Write)
    requires |disk| == |h.base| && ReadsLatest(rg, disk, pinned, h) && w.b < |disk|
    requires Home(rg, |disk|, w.b) ==> w.data == Replay(h.base, h.events)[w.b]
    ensures ReadsLatest(rg, Put(disk, w), pinned - {w.b}, h)
  {
  }

  lemma WriteDurable(rg: Region, disk: Disk, ph: Phase, h: History)
    requires Geometry(rg, |disk|, h) && h.committed <= |h.events| && ph.Committing?
    requires CommitFits(rg, ph) && CommitStart(rg, |disk|, ph, h)
    requires disk == Apply(ph.d0, CommitWrites(rg, ph.d0, ph.lh0, ph.txn)[..ph.done])
    requires Whole(h.events, {}) && EndsAreFinal(h.events) && Whole(DurablePart(h), {})
    ensures Durable(rg, disk, h)
  {
    CommitPrefix(rg, ph.d0, ph.lh0, ph.txn, ph.done);
    if ph.done <= |ph.lh0| {
      SameHomeTransitive(rg, Recover(rg, disk), ph.d0, Replay(h.base, DurablePart(h)));
    } else {
      assert DurablePart(h) == h.events;
      SameHomeTransitive(rg, Recover(rg, disk), Overlay(ph.d0, ph.txn), Replay(h.base, h.events));
    }
  }

  lemma WritePinned(rg: Region, pinned: map<nat, Block>, ph: Phase, w: Write)
    requires ph.Committing? && forall b <- pinned.Keys :: b in Uninstalled(ph)
    requires |ph.lh0| < ph.done <= 2 * |ph.lh0| ==> w.b == ph.lh0[ph.done - |ph.lh0| - 1]
    ensures forall b <- (pinned - {w.b}).Keys :: b in Uninstalled(Committing(ph.d0, ph.lh0, ph.txn, ph.done + 1))
  {
    UninstalledStep(ph);
  }

  lemma WriteProgress(rg: Region, disk: Disk, lh: seq<nat>, pinned: map<nat, Block>, ph: Phase)
    requires CommitFits(rg, ph) && CommitProgress(rg, disk, lh, pinned, ph)
    requires ValidTxn(rg, |ph.d0|, ph.lh0, ph.txn) && rg.start + rg.size <= |ph.d0|
    requires ph.done < |CommitWrites(rg, ph.d0, ph.lh0, ph.txn)|
    ensures var ws := CommitWrites(rg, ph.d0, ph.lh0, ph.txn);
            var ph' := Committing(ph.d0, ph.lh0, ph.txn, ph.done + 1);
            CommitProgress(rg, Put(disk, ws[ph.done]), if ph.done == |ws| - 1 then [] else lh,
                           pinned - {ws[ph.done].b}, ph')
  {
    var ws := CommitWrites(rg, ph.d0, ph.lh0, ph.txn);
    CommitWriteData(rg, ph.d0, ph.lh0, ph.txn, ph.done);
    ApplyNext(ph.d0, ws, ph.done);
    WritePinned(rg, pinned, ph, ws[ph.done]);
  }

  lemma UninstalledStep(ph: Phase)
    requires ph.Committing?
    ensures forall b :: b in Uninstalled(ph) ==>
              b in Uninstalled(Committing(ph.d0, ph.lh0, ph.txn, ph.done + 1))
              || (|ph.lh0| < ph.done <= 2 * |ph.lh0| && b == ph.lh0[ph.done - |ph.lh0| - 1])
  {
    var i := ph.done - |ph.lh0| - 1;
    if 0 <= i < |ph.lh0| {
      assert ph.lh0[i..] == [ph.lh0[i]] + ph.lh0[i + 1..];
      assert ph.lh0[0..] == ph.lh0;
    }
  }

  lemma WriteStart(rg: Region, n: nat, ph: Phase, h: History)
    requires Geometry(rg, n, h) && ph.Committing? && h.committed <= |h.events| && CommitStart(rg, n, ph, h)
    ensures CommitStart(rg, n, Committing(ph.d0, ph.lh0, ph.txn, ph.done + 1), HistAfterWrite(ph, h))
  {
  }

  lemma WriteLatest(rg: Region, disk: Disk, pinned: map<nat, Block>, ph: Phase, h: History, w: Write)
    requires Geometry(rg, |disk|, h) && h.committed <= |h.events| && ph.Committing?
    requires CommitStart(rg, |disk|, ph, h) && ReadsLatest(rg, disk, pinned, h) && w.b < |disk|
    requires Home(rg, |disk|, w.b) ==> w.b in ph.txn && w.data == ph.txn[w.b]
    ensures ReadsLatest(rg, Put(disk, w), pinned - {w.b}, HistAfterWrite(ph, h))
  {
    if Home(rg, |disk|, w.b) {
      assert Overlay(ph.d0, ph.txn)[w.b] == w.data;
    }
    WriteReads(rg, disk, pinned, h, w);
  }

  lemma WriteContents(rg: Region, disk: Disk, lh: seq<nat>, pinned: map<nat, Block>, ph: Phase, h: History)
    requires Geometry(rg, |disk|, h) && h.committed <= |h.events| && ph.Committing?
    requires CommittingOk(rg, disk, lh, pinned, ph, h)
    requires ph.done < |CommitWrites(rg, ph.d0, ph.lh0, ph.txn)|
    ensures var ws := CommitWrites(rg, ph.d0, ph.lh0, ph.txn);
            var ph' := Committing(ph.d0, ph.lh0, ph.txn, ph.done + 1);
            CommittingOk(rg, Put(disk, ws[ph.done]), if ph.done == |ws| - 1 then [] else lh,
                         pinned - {ws[ph.done].b}, ph', HistAfterWrite(ph, h))
  {
    var w := CommitWrites(rg, ph.d0, ph.lh0, ph.txn)[ph.done];
    CommitWriteData(rg, ph.d0, ph.lh0, ph.txn, ph.done);
    WriteProgress(rg, disk, lh, pinned, ph);
    WriteLatest(rg, disk, pinned, ph, h, w);
    WriteStart(rg, |disk|, ph, h);
  }

  lemma WholeAfterWrite(ph: Phase, h: History)
    requires ph.Committing? && h.committed <= |h.events| && Whole(h.events, {}) && Whole(DurablePart(h), {})
    ensures Whole(DurablePart(HistAfterWrite(ph, h)), {})
  {
    assert h.events[..|h.events|] == h.events;
  }

  lemma WriteKeeps(s: System)
    requires Inv(s) && CanWrite(s)
    ensures Inv(DoWrite(s))
  {
    hide CommitWrites, RecoversTo, Whole, EndsAreFinal, ReadsLatest, HeadOf, SameHome;
    var s' := DoWrite(s);
    WriteContents(s.rg, s.disk, s.lh, s.pinned, s.phase, s.hist);
    WriteAccounts(s);
    WholeAfterWrite(s.phase, s.hist);
    assert Geometry(s'.rg, |s'.disk|, s'.hist);
    WriteDurable(s'.rg, s'.disk, s'.phase, s'.hist);
  }

  // - CommitDone

  lemma FinishContents(s: System)
    requires Geometry(s.rg, |s.disk|, s.hist) && s.hist.committed <= |s.hist.events|
    requires CanFinish(s) && CommittingOk(s.rg, s.disk, s.lh, s.pinned, s.phase, s.hist)
    ensures ServingOk(s.rg, s.disk, s.lh, s.pinned, DoFinish(s).hist)
  {
    var ph := s.phase;
    var ws := CommitWrites(s.rg, ph.d0, ph.lh0, ph.txn);
    assert ws[..|ws|] == ws;
    CommitCompletes(s.rg, ph.d0, ph.lh0, ph.txn);
    var h' := DoFinish(s).hist;
    assert DurablePart(h') == s.hist.events;
    SameHomeTransitive(s.rg, s.disk, Overlay(ph.d0, ph.txn), Replay(s.hist.base, s.hist.events));
    assert s.pinned.Keys == {};
    assert ReadsLatest(s.rg, s.disk, s.pinned, h');
  }

  lemma ServingIsDurable(rg: Region, disk: Disk, lh: seq<nat>, pinned: map<nat, Block>, h: History)
    requires Geometry(rg, |disk|, h) && h.committed <= |h.events| && ServingOk(rg, disk, lh, pinned, h)
    requires Whole(DurablePart(h), {}) && EndsAreFinal(h.events)
    ensures Durable(rg, disk, h)
  {
    EmptyLogRecovers(rg, disk);
    SameHomeTransitive(rg, Recover(rg, disk), disk, Replay(h.base, DurablePart(h)));
  }

  lemma FinishKeeps(s: System)
    requires Inv(s) && CanFinish(s)
    ensures Inv(DoFinish(s))
  {
    var s' := DoFinish(s);
    FinishContents(s);
    assert DurablePart(s'.hist) == s.hist.events;
    assert Whole(s.hist.events, {});
    ServingIsDurable(s'.rg, s'.disk, s'.lh, s'.pinned, s'.hist);
  }

  // - Crash, RecoverWrite and RecoverDone

  lemma CrashKeeps(s: System)
    requires Inv(s)
    ensures Inv(DoCrash(s))
  {
    hide Recover, Replay, EndsAfter;
    EmptyAccounts(s);
    var s' := DoCrash(s);
    assert DurablePart(s'.hist) == s'.hist.events == DurablePart(s.hist);
    assert RecoverWrites(s.rg, s.disk)[..0] == [];
  }

  lemma RedoContents(rg: Region, disk: Disk, r0: Disk, k: nat, h: History)
    requires Geometry(rg, |disk|, h) && RecoveringOk(rg, disk, r0, k, h) && k < |RecoverWrites(rg, r0)|
    ensures var disk' := Put(disk, RecoverWrites(rg, r0)[k]);
            && RecoveringOk(rg, disk', r0, k + 1, h)
            && RecoversTo(rg, disk', Replay(h.base, h.events))
  {
    ApplyNext(r0, RecoverWrites(rg, r0), k);
    ResumedRecovery(rg, r0, k + 1, Replay(h.base, h.events));
  }

  lemma RedoKeeps(s: System)
    requires Inv(s) && CanRedo(s)
    ensures Inv(DoRedo(s))
  {
    RedoContents(s.rg, s.disk, s.phase.r0, s.phase.redone, s.hist);
    assert DurablePart(s.hist) == s.hist.events;
  }

  lemma ServeKeeps(s: System)
    requires Inv(s) && CanServe(s)
    ensures Inv(s.(phase := Serving))
  {
    var r0 := s.phase.r0;
    var ws := RecoverWrites(s.rg, r0);
    assert ws[..|ws|] == ws;
    RecoverErasesHead(s.rg, r0);
    assert DurablePart(s.hist) == s.hist.events;
    assert ReadsLatest(s.rg, s.disk, map[], s.hist);
  }

  lemma StepKeeps(s: System, st: Step)
    requires Inv(s) && Enabled(s, st) && Fitting(Do(s, st))
    ensures Inv(Do(s, st))
  {
    match st
    case BeginOp(op) => BeginKeeps(s, op);
    case CheckRoom(op, w) => CheckKeeps(s, op, w);
    case AddBlock(op) => AddKeeps(s, op);
    case EndOp(op) => EndKeeps(s, op);
    case CommitWrite => WriteKeeps(s);
    case CommitDone => FinishKeeps(s);
    case Crash => CrashKeeps(s);
    case RecoverWrite => RedoKeeps(s);
    case RecoverDone => ServeKeeps(s);
  }

  // ---- all runs ----

  lemma InitHolds(s: System)
    requires Init(s)
    ensures Inv(s)
  {
    assert ReadsLatest(s.rg, s.disk, s.pinned, s.hist);
    ServingIsDurable(s.rg, s.disk, s.lh, s.pinned, s.hist);
  }

  // The header fits in every state of the run.
  ghost predicate FittingRun(s: System, steps: seq<Step>)
    requires Run(s, steps)
    decreases |steps|
  {
    Fitting(s) && (steps == [] || FittingRun(Do(s, steps[0]), steps[1..]))
  }

  lemma {:induction false} RunKeeps(s: System, steps: seq<Step>)
    requires Inv(s) && Run(s, steps) && FittingRun(s, steps)
    ensures Inv(Exec(s, steps))
    decreases |steps|
  {
    hide Inv, Enabled, Do;
    if steps != [] {
      StepKeeps(s, steps[0]);
      RunKeeps(Do(s, steps[0]), steps[1..]);
    }
  }

  lemma {:induction false} RunKeepsBase(s: System, steps: seq<Step>)
    requires Run(s, steps)
    ensures Exec(s, steps).hist.base == s.hist.base && Exec(s, steps).rg == s.rg
    decreases |steps|
  {
    hide CommitWrites, RecoverWrites;
    if steps != [] {
      RunKeepsBase(Do(s, steps[0]), steps[1..]);
    }
  }

  // Whatever the operations, the committer and the crashes do, and however often the recovery
  // after a further crash is itself cut short: the home blocks come out as the log_write calls
  // of the durable part of the run make them, and each operation is in that part with all of its
  // writes or with none.
  lemma EveryRunIsCrashSafe(s0: System, steps: seq<Step>, ks: seq<nat>)
    requires Init(s0) && Run(s0, steps) && FittingRun(s0, steps)
    ensures var s, t := Exec(s0, steps), Told(steps);
            && t.durable <= |t.events|
            && ValidLog(s0.rg, s.disk)
            && RecoversTo(s0.rg, CrashingRecoveries(s0.rg, s.disk, ks), Replay(s0.disk, t.events[..t.durable]))
            && Whole(t.events[..t.durable], {})
            && EndsAreFinal(t.events)
  {
    hide Accounting, Contents, Replay, Whole, EndsAreFinal, Told;
    HistoryIsTold(s0, steps);
    var s := Exec(s0, steps);
    InitHolds(s0);
    RunKeeps(s0, steps);
    RunKeepsBase(s0, steps);
    RecoveryIsRestartable(s.rg, s.disk, ks);
    var d := CrashingRecoveries(s0.rg, s.disk, ks);
    SameHomeTransitive(s.rg, Recover(s.rg, d), Recover(s.rg, s.disk), Replay(s0.disk, DurablePart(s.hist)));
  }

  // Outside recovery every read of a home block sees all log_write calls so far, also while
  // commit() is moving blocks from the cache to the disk; and once commit() is over, all of
  // them are on the disk unless operations have logged more since, as they are whenever the log
  // is at rest with no operation open.
  lemma ReadsSeeEveryWrite(s0: System, steps: seq<Step>, b: nat)
    requires Init(s0) && Run(s0, steps) && FittingRun(s0, steps)
    ensures var s, t := Exec(s0, steps), Told(steps);
            && |s.disk| == |s0.disk|
            && (Live(s.phase) && Home(s.rg, |s.disk|, b) ==>
                  View(s.disk, s.pinned, b) == Replay(s0.disk, t.events)[b])
            && (s.phase.Serving? && (s.lh == [] || t.open == {}) && Home(s.rg, |s.disk|, b) ==>
                  s.disk[b] == Replay(s0.disk, t.events)[b])
  {
    hide Accounting, Durable, CommitStart, CommitProgress, Replay, Told;
    HistoryIsTold(s0, steps);
    AtRestAllIsDurable(s0, steps);
    InitHolds(s0);
    RunKeeps(s0, steps);
    RunKeepsBase(s0, steps);
    var s := Exec(s0, steps);
    if s.hist.committed == |s.hist.events| {
      assert DurablePart(s.hist) == s.hist.events;
    }
  }

  // commit() and recover_from_log() always find their next write possible.
  lemma CommitterIsNeverStuck(s0: System, steps: seq<Step>)
    requires Init(s0) && Run(s0, steps) && FittingRun(s0, steps)
    ensures var s := Exec(s0, steps);
            && (s.phase.Committing? ==> CanWrite(s) || CanFinish(s))
            && (s.phase.Recovering? ==> CanRedo(s) || CanServe(s))
  {
    hide Accounting, CommitStart, CommitProgress, Replay, CommitWrites;
    InitHolds(s0);
    RunKeeps(s0, steps);
  }

  // Group commit is exclusive, for a log of any size: while someone commits no operation is
  // active, none can start, log or end, so only the committer changes the log header.
  lemma CommitIsExclusive(s0: System, steps: seq<Step>, op: Op, w: Write)
    requires Init(s0) && Run(s0, steps)
    ensures var s := Exec(s0, steps);
            s.committing && !s.phase.Panicked? ==>
              && s.ops.outstanding == 0 && s.ops.active == {}
              && !Enabled(s, BeginOp(op)) && !Enabled(s, CheckRoom(op, w))
              && !Enabled(s, AddBlock(op)) && !Enabled(s, EndOp(op))
  {
    hide Spent;
    AccountingRun(s0, steps);
  }

  // The "log.committing" panic is unreachable, for a log of any size.
  lemma EndNeverPanics(s0: System, steps: seq<Step>, op: Op)
    requires Init(s0) && Run(s0, steps) && Enabled(Exec(s0, steps), EndOp(op))
    ensures !Do(Exec(s0, steps), EndOp(op)).phase.Panicked?
  {
    hide Spent;
    AccountingRun(s0, steps);
    EndAccounts(Exec(s0, steps), op);
  }
}
