/** The code of log.c on its own state. The methods issue exactly the block writes, and make
    exactly the changes, that the steps of LogSystem are built from. */
module LogCode {
  import opened Params
  import opened Blocks
  import opened LogRecovery
  import opened LogSystem

  // The global struct log, the disk, and the part of the buffer cache that log.c relies on:
  // the contents of the dirty buffers.
  class Log {
    const rg: Region
    var disk: Disk
    var pinned: map<nat, Block>
    var lh: seq<nat>
    var outstanding: nat
    var committing: bool
    ghost var writes: seq<Write>   // the block writes so far

    constructor (rg: Region, disk: Disk)
      ensures this.rg == rg && this.disk == disk && pinned == map[] && lh == []
      ensures outstanding == 0 && !committing && writes == []
    {
      this.rg, this.disk, pinned, lh, outstanding, committing := rg, disk, map[], [], 0, false;
      writes := [];
    }

    // The object is the log of the state s of the whole system.
    ghost predicate Shows(s: System)
      reads this
    {
      && s.rg == rg && s.disk == disk && s.lh == lh && s.pinned == pinned
      && s.ops.outstanding == outstanding && s.committing == committing
    }

    method Bread(b: nat) returns (data: Block)
      requires b < |disk|
      ensures data == if b in pinned then pinned[b] else disk[b]
    {
      data := if b in pinned then pinned[b] else disk[b];
    }

    method Bwrite(b: nat, data: Block)
      requires b < |disk|
      modifies this`disk, this`pinned, this`writes
      ensures disk == Put(old(disk), Write(b, data))
      ensures pinned == old(pinned) - {b}
      ensures writes == old(writes) + [Write(b, data)]
    {
      disk := disk[b := data];
      pinned := pinned - {b};
      writes := writes + [Write(b, data)];
    }

    // The logged blocks are home blocks, pinned in the cache, and fit in the log.
    ghost predicate Ready()
      reads this
    {
      ValidTxn(rg, |disk|, lh, pinned) && rg.start + rg.size <= |disk|
    }

    method WriteLog()
      requires Ready()
      modifies this`disk, this`pinned, this`writes
      ensures pinned == old(pinned)
      ensures disk == Apply(old(disk), LogCopies(rg, lh, pinned))
      ensures writes == old(writes) + LogCopies(rg, lh, pinned)
    {
      ghost var ws := LogCopies(rg, lh, pinned);
      assert ws[..0] == [] && Apply(disk, []) == disk;
      hide Apply;
      for tail := 0 to |lh|
        invariant pinned == old(pinned)
        invariant disk == Apply(old(disk), ws[..tail])
        invariant writes == old(writes) + ws[..tail]
      {
        var from := Bread(lh[tail]);
        Bwrite(rg.start + tail + 1, from);
        assert ws[tail] == Write(rg.start + tail + 1, from);
        TraceNext(old(disk), old(writes), ws, tail);
      }
      assert ws[..|lh|] == ws;
    }

    method WriteHead()
      requires rg.start < |disk| && Encodable(lh) && rg.start !in pinned
      modifies this`disk, this`pinned, this`writes
      ensures pinned == old(pinned)
      ensures disk == Put(old(disk), Write(rg.start, EncodeHead(old(disk)[rg.start], lh)))
      ensures writes == old(writes) + [Write(rg.start, EncodeHead(old(disk)[rg.start], lh))]
    {
      var buf := Bread(rg.start);
      var hb := PutWord(buf, 0, |lh|);
      for i := 0 to |lh|
        invariant hb == PutEntries(PutWord(buf, 0, |lh|), lh, i)
      {
        hb := PutWord(hb, 1 + i, lh[i]);
      }
      Bwrite(rg.start, hb);
    }

    method ReadHead()
      requires rg.start < |disk| && rg.start !in pinned && GetWord(disk[rg.start], 0) < WORDS
      modifies this`lh
      ensures lh == HeadOf(disk[rg.start])
    {
      hide GetWord;
      var buf := Bread(rg.start);
      var n := GetWord(buf, 0);
      ghost var head := HeadOf(buf);
      lh := [];
      for i := 0 to n
        invariant lh == head[..i]
      {
        lh := lh + [GetWord(buf, 1 + i)];
        assert head[..i + 1] == head[..i] + [head[i]];
      }
    }

    // Copies the log slots home, whether or not the home blocks are still pinned.
    method InstallTrans()
      requires rg.start + rg.size <= |disk| && |lh| < rg.size
      requires forall i :: 0 <= i < |lh| ==> Home(rg, |disk|, lh[i])
      requires forall b <- pinned.Keys :: Home(rg, |disk|, b)
      modifies this`disk, this`pinned, this`writes
      ensures disk == Apply(old(disk), Installs(rg, lh, old(disk)))
      ensures writes == old(writes) + Installs(rg, lh, old(disk))
      ensures pinned == Unpinned(old(pinned), lh, |lh|)
    {
      ghost var d0 := disk;
      ghost var ws := Installs(rg, lh, d0);
      assert ws[..0] == [] && Apply(d0, []) == d0;
      hide Apply;
      for tail := 0 to |lh|
        invariant |disk| == |d0| && disk == Apply(d0, ws[..tail])
        invariant writes == old(writes) + ws[..tail]
        invariant pinned == Unpinned(old(pinned), lh, tail)
        invariant forall b <- pinned.Keys :: Home(rg, |d0|, b)
      {
        var lbuf := Bread(rg.start + tail + 1);
        InstallsKeepLog(rg, lh, d0, d0, tail);
        assert ws[tail] == Write(lh[tail], lbuf);
        Bwrite(lh[tail], lbuf);
        TraceNext(d0, old(writes), ws, tail);
      }
      assert ws[..|lh|] == ws;
    }

    method Commit()
      requires Ready()
      modifies this`disk, this`pinned, this`writes, this`lh
      ensures disk == Apply(old(disk), CommitWrites(rg, old(disk), old(lh), old(pinned)))
      ensures writes == old(writes) + CommitWrites(rg, old(disk), old(lh), old(pinned))
      ensures lh == [] && pinned == map[]
    {
      if |lh| > 0 {
        hide Apply, CommitWrites, LogCopies, Installs, PutEntries;
        ghost var d0, lh0, txn := disk, lh, pinned;
        ghost var e := Logged(rg, d0, lh0, txn);
        WriteLog();
        HeadAfterCopies(rg, lh0, txn, d0);
        WriteHead();
        assert disk == e;
        InstallTrans();
        UnpinAll(txn, lh0);
        HeadAfterInstall(rg, lh0, e);
        lh := [];
        WriteHead();
        CommitTrace(rg, d0, lh0, txn);
        CommitParts(rg, d0, lh0, txn, old(writes));
      }
    }

    method RecoverFromLog()
      requires ValidLog(rg, disk) && pinned == map[] && GetWord(disk[rg.start], 0) < WORDS
      modifies this`disk, this`pinned, this`writes, this`lh
      ensures disk == Recover(rg, old(disk))
      ensures writes == old(writes) + RecoverWrites(rg, old(disk))
      ensures lh == [] && pinned == map[]
    {
      ghost var d0 := disk;
      ReadHead();
      ghost var lh0 := lh;
      InstallTrans();
      HeadAfterInstall(rg, lh0, d0);
      lh := [];
      UnpinnedKeys(map[], lh0, |lh0|);
      WriteHead();
      ApplySnoc(d0, Installs(rg, lh0, d0), Write(rg.start, EncodeHead(d0[rg.start], [])));
    }

    // One round of begin_op's loop; if not admitted the caller sleeps on the log.
    method TryBeginOp() returns (admitted: bool)
      modifies this`outstanding
      ensures admitted <==> !committing && |lh| + (old(outstanding) + 1) * MAXOPBLOCKS <= LOGSIZE
      ensures outstanding == old(outstanding) + if admitted then 1 else 0
      ensures forall s: System, op: Op :: old(Shows(s)) && Live(s.phase) && Fresh(s, op) ==>
                (admitted <==> CanBegin(s, op)) && (admitted ==> Shows(DoBegin(s, op)))
    {
      if committing {
        admitted := false;
      } else if |lh| + (outstanding + 1) * MAXOPBLOCKS > LOGSIZE {
        admitted := false;
      } else {
        outstanding := outstanding + 1;
        admitted := true;
      }
    }

    // log_write before it takes the lock.
    method CheckRoom() returns (panicked: bool)
      ensures panicked <==> NoRoom(rg, lh) || outstanding < 1
      ensures forall s: System, op: Op, w: Write :: Shows(s) && CanCheck(s, op, w) ==>
                (panicked <==> DoCheck(s, op, w).phase.Panicked?) && Shows(DoCheck(s, op, w))
    {
      panicked := |lh| >= LOGSIZE || |lh| >= rg.size - 1;
      if !panicked && outstanding < 1 {
        panicked := true;
      }
    }

    // log_write under the lock: find the block in the header or append it, and pin the buffer.
    method AddBlock(b: nat, data: Block)
      modifies this`lh, this`pinned
      ensures lh == Absorb(old(lh), b)
      ensures pinned == old(pinned)[b := data]
      ensures forall s: System, op: Op :: old(Shows(s)) && CanAdd(s, op) && s.ops.checked[op] == Write(b, data) ==>
                Shows(DoAdd(s, op))
    {
      var i := 0;
      while i < |lh| && lh[i] != b
        invariant 0 <= i <= |lh| && b !in lh[..i]
      {
        i := i + 1;
      }
      lh := if i < |lh| then lh[i := b] else lh + [b];
      pinned := pinned[b := data];
    }

    // end_op up to its first release; the caller must commit if doCommit.
    method EndOp() returns (panicked: bool, doCommit: bool)
      requires outstanding >= 1
      modifies this`outstanding, this`committing
      ensures outstanding == old(outstanding) - 1
      ensures panicked == old(committing)
      ensures doCommit == (!panicked && outstanding == 0)
      ensures committing == (panicked || doCommit)
      ensures forall s: System, op: Op :: old(Shows(s)) && CanEnd(s, op) ==>
                && (panicked <==> DoEnd(s, op).phase.Panicked?)
                && (!panicked ==> Shows(DoEnd(s, op)))
                && (doCommit ==> DoEnd(s, op).phase == Committing(disk, lh, pinned, 0))
    {
      outstanding := outstanding - 1;
      panicked, doCommit := committing, false;
      if panicked {
        return;
      }
      if outstanding == 0 {
        doCommit := true;
        committing := true;
      }
    }
  }

  // The buffers still pinned once the first k logged blocks are written home.
  function Unpinned(pinned: map<nat, Block>, lh: seq<nat>, k: nat): map<nat, Block>
    requires k <= |lh|
  {
    if k == 0 then pinned else Unpinned(pinned, lh, k - 1) - {lh[k - 1]}
  }

  lemma {:induction false} UnpinnedKeys(pinned: map<nat, Block>, lh: seq<nat>, k: nat)
    requires k <= |lh|
    ensures Unpinned(pinned, lh, k).Keys == pinned.Keys - (set b | b in lh[..k])
  {
    if k > 0 {
      UnpinnedKeys(pinned, lh, k - 1);
      assert lh[..k] == lh[..k - 1] + [lh[k - 1]];
    }
  }

  lemma UnpinAll(txn: map<nat, Block>, lh: seq<nat>)
    requires txn.Keys == (set b | b in lh)
    ensures Unpinned(txn, lh, |lh|) == map[]
  {
    UnpinnedKeys(txn, lh, |lh|);
    assert lh[..|lh|] == lh;
  }

  lemma TraceNext(d: Disk, done: seq<Write>, ws: seq<Write>, k: nat)
    requires k < |ws|
    ensures Put(Apply(d, ws[..k]), ws[k]) == Apply(d, ws[..k + 1])
    ensures done + ws[..k] + [ws[k]] == done + ws[..k + 1]
  {
    ApplyNext(d, ws, k);
  }

  lemma HeadAfterCopies(rg: Region, lh: seq<nat>, txn: map<nat, Block>, d: Disk)
    requires ValidTxn(rg, |d|, lh, txn) && rg.start + rg.size <= |d|
    ensures Apply(d, LogCopies(rg, lh, txn))[rg.start] == d[rg.start]
  {
    assert LogCopies(rg, lh, txn)[..|lh|] == LogCopies(rg, lh, txn);
    CopiesKeepHome(rg, lh, txn, d, |lh|);
  }

  lemma HeadAfterInstall(rg: Region, lh: seq<nat>, d: Disk)
    requires rg.start + rg.size <= |d| && |lh| < rg.size
    requires forall i :: 0 <= i < |lh| ==> Home(rg, |d|, lh[i])
    ensures Apply(d, Installs(rg, lh, d))[rg.start] == d[rg.start]
  {
    InstallsKeepLog(rg, lh, d, d, |lh|);
    assert Installs(rg, lh, d)[..|lh|] == Installs(rg, lh, d);
  }

  // The four parts of commit() put together.
  lemma CommitTrace(rg: Region, d: Disk, lh: seq<nat>, txn: map<nat, Block>)
    requires ValidTxn(rg, |d|, lh, txn) && rg.start + rg.size <= |d| && |lh| > 0
    ensures var e := Logged(rg, d, lh, txn);
            var erase := Write(rg.start, EncodeHead(EncodeHead(d[rg.start], lh), []));
            Apply(d, CommitWrites(rg, d, lh, txn)) == Put(Apply(e, Installs(rg, lh, e)), erase)
  {
    hide CommitWrites, PutEntries;
    var e := Logged(rg, d, lh, txn);
    CommitEndsInRecovery(rg, d, lh, txn);
    CommitTailIsRecovery(rg, d, lh, txn);
    ApplySnoc(e, Installs(rg, lh, e), Write(rg.start, EncodeHead(EncodeHead(d[rg.start], lh), [])));
  }

  lemma CommitParts(rg: Region, d: Disk, lh: seq<nat>, txn: map<nat, Block>, done: seq<Write>)
    requires ValidTxn(rg, |d|, lh, txn) && rg.start + rg.size <= |d| && |lh| > 0
    ensures var e := Logged(rg, d, lh, txn);
            done + LogCopies(rg, lh, txn) + [Write(rg.start, EncodeHead(d[rg.start], lh))] + Installs(rg, lh, e)
            + [Write(rg.start, EncodeHead(EncodeHead(d[rg.start], lh), []))]
            == done + CommitWrites(rg, d, lh, txn)
  {
    hide Apply, PutEntries, Installs, LogCopies;
  }
}
