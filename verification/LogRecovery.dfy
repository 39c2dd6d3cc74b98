/** The on-disk redo log of log.c: the block writes of commit() and of
    recover_from_log(), and what a crash between any two of them leaves behind. */
module LogRecovery {
  import opened Blocks

  type Disk = seq<Block>

  // One atomic block write.
  datatype Write = Write(b: nat, data: Block)

  // log.start and log.size: the header block is at start, the data slots follow it.
  datatype Region = Region(start: nat, size: nat)

  // b lies on a disk of n blocks, outside the log.
  predicate Home(rg: Region, n: nat, b: nat) {
    b < n && !(rg.start <= b < rg.start + rg.size)
  }

  ghost predicate SameHome(rg: Region, d: Disk, e: Disk) {
    |d| == |e| && forall b {:trigger d[b]} {:trigger e[b]} :: 0 <= b < |d| && Home(rg, |d|, b) ==> d[b] == e[b]
  }

  lemma SameHomeTransitive(rg: Region, d: Disk, e: Disk, f: Disk)
    requires SameHome(rg, d, e) && SameHome(rg, e, f)
    ensures SameHome(rg, d, f)
  {
  }

  function Put(d: Disk, w: Write): Disk {
    if w.b < |d| then d[w.b := w.data] else d
  }

  function Apply(d: Disk, ws: seq<Write>): (r: Disk)
    ensures |r| == |d|
  {
    if ws == [] then d else Put(Apply(d, ws[..|ws| - 1]), ws[|ws| - 1])
  }

  // ---- the header block ----

  // struct logheader as read by read_head.
  function HeadOf(blk: Block): (lh: seq<nat>) {
    var n := GetWord(blk, 0);
    if n < WORDS then seq(n, i requires 0 <= i < n => GetWord(blk, 1 + i)) else []
  }

  predicate Encodable(lh: seq<nat>) {
    |lh| < WORDS && forall i :: 0 <= i < |lh| ==> lh[i] < 0x1_0000_0000
  }

  function PutEntries(blk: Block, lh: seq<nat>, k: nat): Block
    requires Encodable(lh) && k <= |lh|
  {
    if k == 0 then blk else PutWord(PutEntries(blk, lh, k - 1), k, lh[k - 1])
  }

  // write_head overwrites n and the first n entries and keeps the rest of the block.
  function EncodeHead(blk: Block, lh: seq<nat>): Block
    requires Encodable(lh)
  {
    PutEntries(PutWord(blk, 0, |lh|), lh, |lh|)
  }

  lemma {:induction false} PutEntriesWord(blk: Block, lh: seq<nat>, k: nat, j: nat)
    requires Encodable(lh) && k <= |lh| && j < WORDS
    ensures GetWord(PutEntries(blk, lh, k), j) == if 1 <= j <= k then lh[j - 1] else GetWord(blk, j)
  {
    if k > 0 {
      var rest := PutEntries(blk, lh, k - 1);
      PutEntriesWord(blk, lh, k - 1, j);
      PutThenGet(rest, k, lh[k - 1]);
      if j != k {
        PutKeepsOthers(rest, k, lh[k - 1], j);
      }
    }
  }

  // Whatever the header block held before, reading it back gives what was written.
  lemma HeadRoundTrip(blk: Block, lh: seq<nat>)
    requires Encodable(lh)
    ensures HeadOf(EncodeHead(blk, lh)) == lh
  {
    var blk1 := PutWord(blk, 0, |lh|);
    PutThenGet(blk, 0, |lh|);
    PutEntriesWord(blk1, lh, |lh|, 0);
    var r := HeadOf(EncodeHead(blk, lh));
    assert |r| == |lh|;
    forall i | 0 <= i < |lh| ensures r[i] == lh[i] {
      PutEntriesWord(blk1, lh, |lh|, 1 + i);
    }
  }

  // ---- the write sequences ----

  // A transaction: the block numbers in log order and the new contents.
  ghost predicate ValidTxn(rg: Region, n: nat, lh: seq<nat>, txn: map<nat, Block>) {
    && |lh| < rg.size
    && Encodable(lh)
    && (forall i :: 0 <= i < |lh| ==> Home(rg, n, lh[i]) && lh[i] in txn)
    && txn.Keys == (set b | b in lh)
  }

  // write_log
  function LogCopies(rg: Region, lh: seq<nat>, txn: map<nat, Block>): seq<Write>
    requires forall i :: 0 <= i < |lh| ==> lh[i] in txn
  {
    seq(|lh|, i requires 0 <= i < |lh| => Write(rg.start + i + 1, txn[lh[i]]))
  }

  // install_trans, reading the log slots of d.
  function Installs(rg: Region, lh: seq<nat>, d: Disk): seq<Write>
    requires rg.start + |lh| < |d|
  {
    seq(|lh|, i requires 0 <= i < |lh| => Write(lh[i], d[rg.start + i + 1]))
  }

  // The disk after write_log and the first write_head.
  function Logged(rg: Region, d: Disk, lh: seq<nat>, txn: map<nat, Block>): Disk
    requires rg.start < |d| && Encodable(lh)
    requires forall i :: 0 <= i < |lh| ==> lh[i] in txn
  {
    Put(Apply(d, LogCopies(rg, lh, txn)), Write(rg.start, EncodeHead(d[rg.start], lh)))
  }

  // commit: copy to the log, write the header, install, erase the header.
  function CommitWrites(rg: Region, d: Disk, lh: seq<nat>, txn: map<nat, Block>): (ws: seq<Write>)
    requires rg.start + |lh| < |d| && Encodable(lh)
    requires forall i :: 0 <= i < |lh| ==> lh[i] in txn
    ensures |ws| == if |lh| == 0 then 0 else 2 * |lh| + 2
  {
    if |lh| == 0 then [] else
    var head := EncodeHead(d[rg.start], lh);
    LogCopies(rg, lh, txn) + [Write(rg.start, head)]
    + (Installs(rg, lh, Logged(rg, d, lh, txn)) + [Write(rg.start, EncodeHead(head, []))])
  }

  ghost predicate ValidLog(rg: Region, d: Disk) {
    && rg.size >= 1
    && rg.start + rg.size <= |d|
    && |HeadOf(d[rg.start])| < rg.size
    && forall i :: 0 <= i < |HeadOf(d[rg.start])| ==> Home(rg, |d|, HeadOf(d[rg.start])[i])
  }

  // recover_from_log: install whatever the header names, then erase the header.
  function RecoverWrites(rg: Region, d: Disk): seq<Write>
    requires rg.start < |d| && rg.start + |HeadOf(d[rg.start])| < |d|
  {
    Installs(rg, HeadOf(d[rg.start]), d) + [Write(rg.start, EncodeHead(d[rg.start], []))]
  }

  function Recover(rg: Region, d: Disk): Disk
    requires rg.start < |d| && rg.start + |HeadOf(d[rg.start])| < |d|
  {
    Apply(d, RecoverWrites(rg, d))
  }

  // A recovery of d that runs to its end gives the home blocks of goal.
  ghost predicate RecoversTo(rg: Region, d: Disk, goal: Disk) {
    ValidLog(rg, d) && SameHome(rg, Recover(rg, d), goal)
  }

  // The disk with the whole transaction applied.
  function Overlay(d: Disk, txn: map<nat, Block>): Disk {
    seq(|d|, b requires 0 <= b < |d| => if b in txn then txn[b] else d[b])
  }

  // ---- applying write sequences ----

  predicate Targets(ws: seq<Write>, b: nat) {
    exists i :: 0 <= i < |ws| && ws[i].b == b
  }

  lemma ApplySnoc(d: Disk, ws: seq<Write>, w: Write)
    ensures Apply(d, ws + [w]) == Put(Apply(d, ws), w)
  {
    assert (ws + [w])[..|ws|] == ws;
  }

  lemma ApplyNext(d: Disk, ws: seq<Write>, k: nat)
    requires k < |ws|
    ensures Apply(d, ws[..k + 1]) == Put(Apply(d, ws[..k]), ws[k])
  {
    assert ws[..k + 1] == ws[..k] + [ws[k]];
    ApplySnoc(d, ws[..k], ws[k]);
  }

  lemma {:induction false} ApplyConcat(d: Disk, us: seq<Write>, ws: seq<Write>)
    ensures Apply(d, us + ws) == Apply(Apply(d, us), ws)
  {
    if ws == [] {
      assert us + ws == us;
    } else {
      var front, w := ws[..|ws| - 1], ws[|ws| - 1];
      ApplyConcat(d, us, front);
      assert us + ws == (us + front) + [w] && ws == front + [w];
      ApplySnoc(d, us + front, w);
      ApplySnoc(Apply(d, us), front, w);
    }
  }

  lemma {:induction false} ApplyMisses(d: Disk, ws: seq<Write>, b: nat)
    requires b < |d| && !Targets(ws, b)
    ensures Apply(d, ws)[b] == d[b]
  {
    if ws != [] {
      var front := ws[..|ws| - 1];
      forall i | 0 <= i < |front| ensures front[i].b != b {
        assert front[i] == ws[i];
      }
      assert ws[|ws| - 1].b != b;
      ApplyMisses(d, front, b);
    }
  }

  // A targeted block ends up the same whatever the disk held before.
  lemma {:induction false} ApplyOverwrites(d: Disk, e: Disk, ws: seq<Write>, b: nat)
    requires |d| == |e| && b < |d| && Targets(ws, b)
    ensures Apply(d, ws)[b] == Apply(e, ws)[b]
  {
    var front, last := ws[..|ws| - 1], ws[|ws| - 1];
    if last.b != b {
      var i :| 0 <= i < |ws| && ws[i].b == b;
      assert front[i].b == b;
      ApplyOverwrites(d, e, front, b);
    }
  }

  // Every write to b carries this data.
  predicate Agree(ws: seq<Write>, b: nat, data: Block) {
    forall j :: 0 <= j < |ws| && ws[j].b == b ==> ws[j].data == data
  }

  lemma {:induction false} ApplyHits(d: Disk, ws: seq<Write>, b: nat, data: Block)
    requires b < |d| && Targets(ws, b) && Agree(ws, b, data)
    ensures Apply(d, ws)[b] == data
  {
    var front, last := ws[..|ws| - 1], ws[|ws| - 1];
    if last.b != b {
      var i :| 0 <= i < |ws| && ws[i].b == b;
      assert front[i].b == b;
      assert Agree(front, b, data);
      ApplyHits(d, front, b, data);
    }
  }

  lemma PrefixMisses(ws: seq<Write>, k: nat, b: nat)
    requires k <= |ws| && !Targets(ws, b)
    ensures !Targets(ws[..k], b)
  {
    forall i | 0 <= i < k ensures ws[..k][i].b != b {
      assert ws[..k][i] == ws[i];
    }
  }

  // Applying a prefix first makes no difference, as long as all of it follows.
  lemma ApplyAfterPrefix(d: Disk, ws: seq<Write>, k: nat, b: nat)
    requires k <= |ws| && b < |d|
    ensures Apply(Apply(d, ws[..k]), ws)[b] == Apply(d, ws)[b]
  {
    if Targets(ws, b) {
      ApplyOverwrites(Apply(d, ws[..k]), d, ws, b);
    } else {
      PrefixMisses(ws, k, b);
      ApplyMisses(d, ws[..k], b);
      ApplyMisses(Apply(d, ws[..k]), ws, b);
      ApplyMisses(d, ws, b);
    }
  }

  // ---- recovery ----

  // Installing writes home blocks only.
  lemma InstallsKeepLog(rg: Region, lh: seq<nat>, d: Disk, e: Disk, k: nat)
    requires rg.start + |lh| < |d| && k <= |lh| && |e| == |d|
    requires forall i :: 0 <= i < |lh| ==> Home(rg, |d|, lh[i])
    ensures forall b :: rg.start <= b < rg.start + rg.size && b < |e| ==>
              Apply(e, Installs(rg, lh, d)[..k])[b] == e[b]
  {
    var ws := Installs(rg, lh, d)[..k];
    forall b | rg.start <= b < rg.start + rg.size && b < |e| ensures Apply(e, ws)[b] == e[b] {
      ApplyMisses(e, ws, b);
    }
  }

  // Recovery looks at the log blocks only, besides the home blocks it leaves alone.
  lemma SameLogSameInstalls(rg: Region, d: Disk, e: Disk)
    requires ValidLog(rg, d) && |e| == |d|
    requires forall b :: rg.start <= b < rg.start + rg.size ==> e[b] == d[b]
    ensures ValidLog(rg, e)
    ensures HeadOf(e[rg.start]) == HeadOf(d[rg.start])
    ensures Installs(rg, HeadOf(e[rg.start]), e) == Installs(rg, HeadOf(d[rg.start]), d)
  {
    assert e[rg.start] == d[rg.start];
  }

  lemma RecoverAtHome(rg: Region, d: Disk, b: nat)
    requires ValidLog(rg, d) && Home(rg, |d|, b)
    ensures Recover(rg, d)[b] == Apply(d, Installs(rg, HeadOf(d[rg.start]), d))[b]
  {
    ApplySnoc(d, Installs(rg, HeadOf(d[rg.start]), d), Write(rg.start, EncodeHead(d[rg.start], [])));
  }

  lemma RecoverErasesHead(rg: Region, d: Disk)
    requires ValidLog(rg, d)
    ensures HeadOf(Recover(rg, d)[rg.start]) == []
  {
    ApplySnoc(d, Installs(rg, HeadOf(d[rg.start]), d), Write(rg.start, EncodeHead(d[rg.start], [])));
    HeadRoundTrip(d[rg.start], []);
  }

  lemma EmptyLogRecovers(rg: Region, d: Disk)
    requires rg.size >= 1 && rg.start + rg.size <= |d| && HeadOf(d[rg.start]) == []
    ensures RecoversTo(rg, d, d)
  {
    forall b | 0 <= b < |d| && Home(rg, |d|, b) ensures Recover(rg, d)[b] == d[b] {
      RecoverAtHome(rg, d, b);
    }
  }

  // Recovery that itself crashes after any number of its writes can be started over:
  // running it to the end gives the same home blocks.
  lemma RecoverPrefix(rg: Region, d: Disk, k: nat)
    requires ValidLog(rg, d) && k <= |RecoverWrites(rg, d)|
    ensures RecoversTo(rg, Apply(d, RecoverWrites(rg, d)[..k]), Recover(rg, d))
  {
    var lh := HeadOf(d[rg.start]);
    var ins := Installs(rg, lh, d);
    var ws := RecoverWrites(rg, d);
    var d' := Apply(d, ws[..k]);
    if k <= |lh| {
      assert ws[..k] == ins[..k];
      InstallsKeepLog(rg, lh, d, d, k);
      SameLogSameInstalls(rg, d, d');
      forall b | 0 <= b < |d| && Home(rg, |d|, b) ensures Recover(rg, d')[b] == Recover(rg, d)[b] {
        RecoverAtHome(rg, d, b);
        RecoverAtHome(rg, d', b);
        ApplyAfterPrefix(d, ins, k, b);
      }
    } else {
      assert ws[..k] == ws;
      RecoverErasesHead(rg, d);
      EmptyLogRecovers(rg, d');
    }
  }

  lemma ResumedRecovery(rg: Region, d: Disk, k: nat, goal: Disk)
    requires RecoversTo(rg, d, goal) && k <= |RecoverWrites(rg, d)|
    ensures RecoversTo(rg, Apply(d, RecoverWrites(rg, d)[..k]), goal)
  {
    RecoverPrefix(rg, d, k);
    var d' := Apply(d, RecoverWrites(rg, d)[..k]);
    SameHomeTransitive(rg, Recover(rg, d'), Recover(rg, d), goal);
  }

  // The disk after a chain of recoveries that crash after ks[0], ks[1], ... writes.
  ghost function CrashingRecoveries(rg: Region, d: Disk, ks: seq<nat>): Disk
    decreases |ks|
  {
    if ks == [] || !ValidLog(rg, d) then d else
    var ws := RecoverWrites(rg, d);
    var k := if ks[0] <= |ws| then ks[0] else |ws|;
    CrashingRecoveries(rg, Apply(d, ws[..k]), ks[1..])
  }

  // However often recovery is cut short, the recovery that completes
  // gives the home blocks that the first one would have given.
  lemma {:induction false} RecoveryIsRestartable(rg: Region, d: Disk, ks: seq<nat>)
    requires ValidLog(rg, d)
    ensures var d' := CrashingRecoveries(rg, d, ks);
            && RecoversTo(rg, d', Recover(rg, d))
            && HeadOf(Recover(rg, d')[rg.start]) == []
    decreases |ks|
  {
    if ks == [] {
      RecoverErasesHead(rg, d);
    } else {
      var ws := RecoverWrites(rg, d);
      var k := if ks[0] <= |ws| then ks[0] else |ws|;
      RecoverPrefix(rg, d, k);
      RecoveryIsRestartable(rg, Apply(d, ws[..k]), ks[1..]);
    }
  }

  // ---- commit ----

  lemma CopiesKeepHome(rg: Region, lh: seq<nat>, txn: map<nat, Block>, d: Disk, k: nat)
    requires ValidTxn(rg, |d|, lh, txn) && k <= |lh| && rg.start + rg.size <= |d|
    ensures var d' := Apply(d, LogCopies(rg, lh, txn)[..k]);
            && SameHome(rg, d', d)
            && d'[rg.start] == d[rg.start]
  {
    var ws := LogCopies(rg, lh, txn)[..k];
    forall b | 0 <= b < |d| && (Home(rg, |d|, b) || b == rg.start) ensures Apply(d, ws)[b] == d[b] {
      ApplyMisses(d, ws, b);
    }
  }

  lemma CopiesAgree(rg: Region, lh: seq<nat>, txn: map<nat, Block>, i: nat)
    requires i < |lh| && forall j :: 0 <= j < |lh| ==> lh[j] in txn
    ensures Targets(LogCopies(rg, lh, txn), rg.start + i + 1)
    ensures Agree(LogCopies(rg, lh, txn), rg.start + i + 1, txn[lh[i]])
  {
    var ws := LogCopies(rg, lh, txn);
    assert ws[i].b == rg.start + i + 1;
  }

  lemma CopiesFillSlots(rg: Region, lh: seq<nat>, txn: map<nat, Block>, d: Disk, i: nat)
    requires rg.start + |lh| < |d| && i < |lh| && forall j :: 0 <= j < |lh| ==> lh[j] in txn
    ensures Apply(d, LogCopies(rg, lh, txn))[rg.start + i + 1] == txn[lh[i]]
  {
    CopiesAgree(rg, lh, txn, i);
    ApplyHits(d, LogCopies(rg, lh, txn), rg.start + i + 1, txn[lh[i]]);
  }

  // After write_log and write_head the log holds the whole transaction
  // and the home blocks are still the old ones.
  lemma LoggedDisk(rg: Region, d: Disk, lh: seq<nat>, txn: map<nat, Block>)
    requires ValidTxn(rg, |d|, lh, txn) && rg.start + rg.size <= |d|
    ensures var e := Logged(rg, d, lh, txn);
            && HeadOf(e[rg.start]) == lh
            && (forall i :: 0 <= i < |lh| ==> e[rg.start + i + 1] == txn[lh[i]])
            && SameHome(rg, e, d)
            && ValidLog(rg, e)
  {
    var e := Logged(rg, d, lh, txn);
    assert LogCopies(rg, lh, txn)[..|lh|] == LogCopies(rg, lh, txn);
    CopiesKeepHome(rg, lh, txn, d, |lh|);
    HeadRoundTrip(d[rg.start], lh);
    assert HeadOf(e[rg.start]) == lh;
    forall i | 0 <= i < |lh| ensures e[rg.start + i + 1] == txn[lh[i]] {
      CopiesFillSlots(rg, lh, txn, d, i);
    }
  }

  lemma InstallsAgree(rg: Region, lh: seq<nat>, txn: map<nat, Block>, e: Disk, b: nat)
    requires rg.start + |lh| < |e| && b in lh
    requires forall i :: 0 <= i < |lh| ==> lh[i] in txn && e[rg.start + i + 1] == txn[lh[i]]
    ensures Targets(Installs(rg, lh, e), b) && Agree(Installs(rg, lh, e), b, txn[b])
  {
    var ws := Installs(rg, lh, e);
    var i :| 0 <= i < |lh| && lh[i] == b;
    assert ws[i].b == b;
  }

  lemma InstallsMiss(rg: Region, lh: seq<nat>, e: Disk, b: nat)
    requires rg.start + |lh| < |e| && b !in lh
    ensures !Targets(Installs(rg, lh, e), b)
  {
  }

  // Installing the logged transaction is applying the transaction.
  lemma InstalledIsOverlay(rg: Region, d: Disk, lh: seq<nat>, txn: map<nat, Block>, b: nat)
    requires ValidTxn(rg, |d|, lh, txn) && rg.start + rg.size <= |d| && Home(rg, |d|, b)
    ensures var e := Logged(rg, d, lh, txn);
            Apply(e, Installs(rg, lh, e))[b] == Overlay(d, txn)[b]
  {
    LoggedDisk(rg, d, lh, txn);
    var e := Logged(rg, d, lh, txn);
    if b in txn {
      InstallsAgree(rg, lh, txn, e, b);
      ApplyHits(e, Installs(rg, lh, e), b, txn[b]);
    } else {
      InstallsMiss(rg, lh, e, b);
      ApplyMisses(e, Installs(rg, lh, e), b);
    }
  }

  lemma ApplyThrough(d: Disk, us: seq<Write>, w: Write, ws: seq<Write>)
    ensures Apply(d, us + [w] + ws) == Apply(Put(Apply(d, us), w), ws)
  {
    ApplyConcat(d, us + [w], ws);
    ApplySnoc(d, us, w);
  }

  lemma ApplyMiddle(d: Disk, us: seq<Write>, w: Write, ws: seq<Write>, k: nat)
    requires |us| < k <= |us| + 1 + |ws|
    ensures Apply(d, (us + [w] + ws)[..k]) == Apply(Put(Apply(d, us), w), ws[..k - |us| - 1])
  {
    assert (us + [w] + ws)[..k] == us + [w] + ws[..k - |us| - 1];
    ApplyThrough(d, us, w, ws[..k - |us| - 1]);
  }

  lemma CommitSplit(rg: Region, d: Disk, lh: seq<nat>, txn: map<nat, Block>, k: nat)
    requires ValidTxn(rg, |d|, lh, txn) && rg.start + rg.size <= |d| && |lh| > 0
    requires |lh| < k <= |CommitWrites(rg, d, lh, txn)|
    ensures var e := Logged(rg, d, lh, txn);
            && ValidLog(rg, e) && |RecoverWrites(rg, e)| == |lh| + 1
            && Apply(d, CommitWrites(rg, d, lh, txn)[..k]) == Apply(e, RecoverWrites(rg, e)[..k - |lh| - 1])
  {
    CommitTailIsRecovery(rg, d, lh, txn);
    ApplyMiddle(d, LogCopies(rg, lh, txn), Write(rg.start, EncodeHead(d[rg.start], lh)),
                RecoverWrites(rg, Logged(rg, d, lh, txn)), k);
  }

  // The writes commit() does after the header write are those of a recovery.
  lemma CommitTailIsRecovery(rg: Region, d: Disk, lh: seq<nat>, txn: map<nat, Block>)
    requires ValidTxn(rg, |d|, lh, txn) && rg.start + rg.size <= |d|
    ensures var e := Logged(rg, d, lh, txn);
            && ValidLog(rg, e)
            && RecoverWrites(rg, e) == Installs(rg, lh, e)
              + [Write(rg.start, EncodeHead(EncodeHead(d[rg.start], lh), []))]
  {
    LoggedDisk(rg, d, lh, txn);
  }

  lemma RecoverLogged(rg: Region, d: Disk, lh: seq<nat>, txn: map<nat, Block>)
    requires ValidTxn(rg, |d|, lh, txn) && rg.start + rg.size <= |d|
    ensures RecoversTo(rg, Logged(rg, d, lh, txn), Overlay(d, txn))
  {
    LoggedDisk(rg, d, lh, txn);
    var e := Logged(rg, d, lh, txn);
    forall b | 0 <= b < |d| && Home(rg, |d|, b) ensures Recover(rg, e)[b] == Overlay(d, txn)[b] {
      RecoverAtHome(rg, e, b);
      InstalledIsOverlay(rg, d, lh, txn, b);
    }
  }

  lemma CommitPrefixOld(rg: Region, d: Disk, lh: seq<nat>, txn: map<nat, Block>, k: nat)
    requires ValidTxn(rg, |d|, lh, txn) && rg.size >= 1 && rg.start + rg.size <= |d|
    requires HeadOf(d[rg.start]) == []
    requires k <= |CommitWrites(rg, d, lh, txn)| && k <= |lh|
    ensures RecoversTo(rg, Apply(d, CommitWrites(rg, d, lh, txn)[..k]), d)
  {
    var ws := CommitWrites(rg, d, lh, txn)[..k];
    assert ws == LogCopies(rg, lh, txn)[..k];
    CopiesKeepHome(rg, lh, txn, d, k);
    EmptyLogRecovers(rg, Apply(d, ws));
  }

  lemma CommitPrefixNew(rg: Region, d: Disk, lh: seq<nat>, txn: map<nat, Block>, k: nat)
    requires ValidTxn(rg, |d|, lh, txn) && rg.size >= 1 && rg.start + rg.size <= |d|
    requires |lh| < k <= |CommitWrites(rg, d, lh, txn)|
    ensures RecoversTo(rg, Apply(d, CommitWrites(rg, d, lh, txn)[..k]), Overlay(d, txn))
  {
    CommitSplit(rg, d, lh, txn, k);
    RecoverLogged(rg, d, lh, txn);
    ResumedRecovery(rg, Logged(rg, d, lh, txn), k - |lh| - 1, Overlay(d, txn));
  }

  // A crash after any prefix of commit's writes: recovery gives the old home blocks up to
  // and including the last log copy, and the whole transaction from the header write on.
  lemma CommitPrefix(rg: Region, d: Disk, lh: seq<nat>, txn: map<nat, Block>, k: nat)
    requires ValidTxn(rg, |d|, lh, txn) && rg.size >= 1 && rg.start + rg.size <= |d|
    requires HeadOf(d[rg.start]) == []
    requires k <= |CommitWrites(rg, d, lh, txn)|
    ensures RecoversTo(rg, Apply(d, CommitWrites(rg, d, lh, txn)[..k]), if k <= |lh| then d else Overlay(d, txn))
  {
    if k <= |lh| {
      CommitPrefixOld(rg, d, lh, txn, k);
    } else {
      CommitPrefixNew(rg, d, lh, txn, k);
    }
  }

  // Crash atomicity: cut commit() short anywhere, then cut recovery short any number of times;
  // the home blocks are all old or all new.
  lemma CrashAtomicity(rg: Region, d: Disk, lh: seq<nat>, txn: map<nat, Block>, k: nat, ks: seq<nat>)
    requires ValidTxn(rg, |d|, lh, txn) && rg.size >= 1 && rg.start + rg.size <= |d|
    requires HeadOf(d[rg.start]) == []
    requires k <= |CommitWrites(rg, d, lh, txn)|
    ensures var crashed := Apply(d, CommitWrites(rg, d, lh, txn)[..k]);
            && ValidLog(rg, crashed)
            && RecoversTo(rg, CrashingRecoveries(rg, crashed, ks), if k <= |lh| then d else Overlay(d, txn))
  {
    CommitPrefix(rg, d, lh, txn, k);
    RecoveryIsRestartable(rg, Apply(d, CommitWrites(rg, d, lh, txn)[..k]), ks);
  }

  lemma CommitEndsInRecovery(rg: Region, d: Disk, lh: seq<nat>, txn: map<nat, Block>)
    requires ValidTxn(rg, |d|, lh, txn) && rg.start + rg.size <= |d| && |lh| > 0
    ensures ValidLog(rg, Logged(rg, d, lh, txn))
    ensures Apply(d, CommitWrites(rg, d, lh, txn)) == Recover(rg, Logged(rg, d, lh, txn))
  {
    CommitTailIsRecovery(rg, d, lh, txn);
    ApplyThrough(d, LogCopies(rg, lh, txn), Write(rg.start, EncodeHead(d[rg.start], lh)),
                 RecoverWrites(rg, Logged(rg, d, lh, txn)));
  }

  // A commit that is not cut short leaves the transaction in place and the log empty.
  lemma CommitCompletes(rg: Region, d: Disk, lh: seq<nat>, txn: map<nat, Block>)
    requires ValidTxn(rg, |d|, lh, txn) && rg.start + rg.size <= |d|
    requires HeadOf(d[rg.start]) == []
    ensures HeadOf(Apply(d, CommitWrites(rg, d, lh, txn))[rg.start]) == []
    ensures SameHome(rg, Apply(d, CommitWrites(rg, d, lh, txn)), Overlay(d, txn))
  {
    if |lh| == 0 {
      assert Overlay(d, txn) == d;
    } else {
      CommitEndsInRecovery(rg, d, lh, txn);
      RecoverErasesHead(rg, Logged(rg, d, lh, txn));
      RecoverLogged(rg, d, lh, txn);
    }
  }
}
