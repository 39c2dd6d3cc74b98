/** filewrite: a write cut into chunks, each one a log operation of its own. */
module FileWrite {
  import opened Params
  import opened Blocks
  import opened Bitmap
  import opened InodeMap
  import opened FileBytes
  import opened FsCode

  // struct file, for an inode.
  class OpenFile {
    const inum: nat
    const writable: bool
    var off: nat

    constructor (inum: nat, writable: bool)
      ensures this.inum == inum && this.writable == writable && off == 0
    {
      this.inum, this.writable, off := inum, writable, 0;
    }
  }

  // The state after the first w bytes of src have gone to file i at off.
  ghost predicate Chunked(sb: Super, s0: Fs, s: Fs, i: nat, src: seq<Byte>, off: nat, w: nat)
    requires i in s0.inodes && w <= |src|
  {
    if w == 0 then s == s0
    else off <= s0.inodes[i].size && Wrote(sb, s0, s, i, src[..w], off)
  }

  lemma SpliceTwice(c: seq<Byte>, off: nat, a: seq<Byte>, b: seq<Byte>)
    requires off <= |c|
    ensures off + |a| <= |Splice(c, off, a)|
    ensures Splice(Splice(c, off, a), off + |a|, b) == Splice(c, off, a + b)
  {
  }

  lemma OthersTransitive(s0: Fs, s: Fs, t: Fs, i: nat)
    requires OthersKept(s0, s, i) && OthersKept(s, t, i)
    ensures OthersKept(s0, t, i)
  {
    forall j: nat, x: nat | j != i && x < MAXFILE * BSIZE && At(s0, j, x / BSIZE) != 0
      ensures ByteAt(t, j, x) == ByteAt(s0, j, x)
    {
      assert At(s, j, x / BSIZE) != 0;
      assert ByteAt(s, j, x) == ByteAt(s0, j, x);
    }
  }

  // Writing chunk after chunk is writing the whole.
  lemma ChunkedNext(sb: Super, s0: Fs, s: Fs, t: Fs, i: nat, src: seq<Byte>, off: nat, w: nat, n1: nat)
    requires i in s0.inodes && w + n1 <= |src| && Chunked(sb, s0, s, i, src, off, w)
    requires i in s.inodes && off + w <= s.inodes[i].size && n1 > 0
    requires Wrote(sb, s, t, i, src[w..w + n1], off + w)
    ensures Chunked(sb, s0, t, i, src, off, w + n1)
  {
    hide Own, ByteAt, NoHoles, OthersKept;
    assert src[..w + n1] == src[..w] + src[w..w + n1];
    if w == 0 {
      assert src[0..n1] == src[..n1];
    } else {
      OthersTransitive(s0, s, t, i);
      SpliceTwice(Contents(s0, i), off, src[..w], src[w..w + n1]);
    }
  }

  lemma WroteSize(sb: Super, s0: Fs, s: Fs, i: nat, src: seq<Byte>, off: nat)
    requires i in s0.inodes && off <= s0.inodes[i].size && Wrote(sb, s0, s, i, src, off)
    ensures i in s.inodes && s.inodes[i].size == Max(s0.inodes[i].size, off + |src|)
    ensures Own(sb, s, {}) && NoHoles(s, i)
  {
    assert |Contents(s, i)| == |Splice(Contents(s0, i), off, src)|;
  }

  ghost predicate Consistent(fs: FileSystem, i: nat)
    reads fs
  {
    Own(fs.sb, fs.St(), {}) && i in fs.inodes && NoHoles(fs.St(), i)
  }

  // How far the loop of filewrite has come, with w bytes written.
  ghost predicate UpTo(fs: FileSystem, f: OpenFile, s0: Fs, off0: nat, src: seq<Byte>, w: nat)
    reads fs, f
  {
    && Consistent(fs, f.inum)
    && w <= |src| && f.off == off0 + w
    && f.inum in s0.inodes && Chunked(fs.sb, s0, fs.St(), f.inum, src, off0, w)
    && (w > 0 ==> Fits(s0.inodes[f.inum].size, off0, w) && f.off <= fs.inodes[f.inum].size)
  }

  // One chunk: begin_op, writei, end_op.
  method WriteChunk(fs: FileSystem, f: OpenFile, src: seq<Byte>, done: nat, n1: nat, ghost s0: Fs, ghost off0: nat)
    returns (panicked: bool, r: int)
    requires 0 < n1 <= CHUNK && done + n1 <= |src| && off0 + done < UINT
    requires UpTo(fs, f, s0, off0, src, done)
    modifies fs`data, fs`inodes, fs`dinodes, fs`logged, f`off
    ensures !panicked ==> |fs.logged| <= MAXOPBLOCKS && ThroughLog(old(fs.data), {}, fs.data, fs.logged)
    ensures !panicked ==> r == n1 || r == -1
    ensures !panicked && r == -1 ==> UpTo(fs, f, s0, off0, src, done) && !Fits(s0.inodes[f.inum].size, off0, done + n1)
    ensures !panicked && r != -1 ==> UpTo(fs, f, s0, off0, src, done + n1)
  {
    hide Own, NoHoles, Wrote, LogCost, Chunked, At, OpLogs, Allocated, OthersRead, Grown, FreeBlocks, ThroughLog;
    fs.logged := {};
    ghost var s := fs.St();
    StartState(fs.sb, s0, s, f.inum, src, off0, done);
    panicked, r := fs.WriteI(f.inum, src[done..done + n1], f.off);
    if !panicked && r > 0 {
      ChunkFits(s.inodes[f.inum].size, f.off, n1);
      assert fs.logged - {} == fs.logged;
      WroteSize(fs.sb, s, fs.St(), f.inum, src[done..done + n1], f.off);
      ChunkedNext(fs.sb, s0, s, fs.St(), f.inum, src, off0, done, n1);
      f.off := f.off + r;
    }
  }

  lemma StartState(sb: Super, s0: Fs, s: Fs, i: nat, src: seq<Byte>, off: nat, w: nat)
    requires i in s0.inodes && w <= |src| && Chunked(sb, s0, s, i, src, off, w)
    ensures w == 0 ==> s == s0
  {
  }

  // The loop of filewrite: stops early only at a chunk that does not fit.
  method WriteChunks(fs: FileSystem, f: OpenFile, src: seq<Byte>, n: nat)
    returns (panicked: bool, done: nat, ghost ops: seq<set<nat>>)
    requires n <= |src| && n < 0x8000_0000 && f.off < UINT && Consistent(fs, f.inum)
    modifies fs`data, fs`inodes, fs`dinodes, fs`logged, f`off
    ensures InBudget(ops)
    ensures !panicked ==> ThroughLog(old(fs.data), {}, fs.data, InAny(ops))
    ensures !panicked ==> done <= n && UpTo(fs, f, old(fs.St()), old(f.off), src, done)
    ensures !panicked && done < n ==> !Fits(old(fs.inodes[f.inum].size), old(f.off), n)
  {
    hide UpTo, Consistent, Fits, InBudget, ThroughLog, InAny;
    NothingYet(fs.data);
    ghost var s0, off0 := fs.St(), f.off;
    UpToStart(fs, f, src);
    EmptyBudget();
    panicked, ops, done := false, [], 0;
    var failed := false;
    while done < n && !failed
      invariant !panicked && done <= n && (done > 0 ==> off0 + done <= MAXFILE * BSIZE)
      invariant UpTo(fs, f, s0, off0, src, done)
      invariant failed ==> f.inum in s0.inodes && !Fits(s0.inodes[f.inum].size, off0, n)
      invariant InBudget(ops) && ThroughLog(s0.data, {}, fs.data, InAny(ops))
      decreases n - done, !failed
    {
      var n1 := if n - done > CHUNK then CHUNK else n - done;
      var r;
      ghost var d1 := fs.data;
      panicked, r := WriteChunk(fs, f, src, done, n1, s0, off0);
      if panicked {
        return;
      }
      OneMoreLogged(s0.data, d1, fs.data, ops, fs.logged);
      if r < 0 {
        failed := true;
        FitsLess(s0.inodes[f.inum].size, off0, done + n1, n);
      } else {
        UpToFacts(fs, f, s0, off0, src, done + n1);
        done := done + r;
      }
      InBudgetNext(ops, fs.logged);
      ops := ops + [fs.logged];
    }
  }

  // Every operation logs no more blocks than begin_op reserves for it.
  ghost predicate InBudget(ops: seq<set<nat>>) {
    forall k :: 0 <= k < |ops| ==> |ops[k]| <= MAXOPBLOCKS
  }

  // The blocks that some operation has logged.
  ghost function InAny(ops: seq<set<nat>>): set<nat> {
    set k, b | 0 <= k < |ops| && b in ops[k] :: b
  }

  lemma NothingYet(d: Data)
    ensures ThroughLog(d, {}, d, InAny([]))
  {
  }

  lemma OneMoreLogged(d0: Data, d1: Data, d2: Data, ops: seq<set<nat>>, l: set<nat>)
    requires ThroughLog(d0, {}, d1, InAny(ops)) && ThroughLog(d1, {}, d2, l)
    ensures ThroughLog(d0, {}, d2, InAny(ops + [l]))
  {
    forall b | b in InAny(ops) ensures b in InAny(ops + [l]) {
      var k :| 0 <= k < |ops| && b in ops[k];
      assert (ops + [l])[k] == ops[k];
    }
    assert (ops + [l])[|ops|] == l;
  }

  lemma EmptyBudget()
    ensures InBudget([])
  {
  }

  lemma InBudgetNext(ops: seq<set<nat>>, l: set<nat>)
    requires InBudget(ops) && |l| <= MAXOPBLOCKS
    ensures InBudget(ops + [l])
  {
  }

  // At most CHUNK bytes at a time. A chunk fails without effect; the chunks before it stay written.
  method Filewrite(fs: FileSystem, f: OpenFile, src: seq<Byte>, n: int)
    returns (panicked: bool, r: int, ghost w: nat, ghost ops: seq<set<nat>>)
    requires n <= |src| && n < 0x8000_0000 && f.off < UINT && Consistent(fs, f.inum)
    modifies fs`data, fs`inodes, fs`dinodes, fs`logged, f`off
    // every chunk is an operation within the log's budget
    ensures InBudget(ops)
    // and nothing is changed outside of them
    ensures !panicked ==> ThroughLog(old(fs.data), {}, fs.data, InAny(ops))
    ensures !panicked ==> UpTo(fs, f, old(fs.St()), old(f.off), src, w)
    ensures !panicked ==> r == if f.writable && w == n then n else -1
    // all of it is written exactly when it fits
    ensures !panicked && f.writable && n > 0 ==> (w == n <==> Fits(old(fs.inodes[f.inum].size), old(f.off), n))
    ensures !panicked && (!f.writable || n <= 0) ==> w == 0
    // other files read as before
    ensures !panicked ==> OthersRead(old(fs.St()), fs.St(), f.inum)
  {
    hide Own, NoHoles, Wrote, Contents, OthersRead;
    NothingRead(fs.St(), f.inum);
    NothingYet(fs.data);
    panicked, r, w, ops := false, -1, 0, [];
    if f.writable {
      if n <= 0 {
        r := if n == 0 then n else -1;
      } else {
        var done;
        panicked, done, ops := WriteChunks(fs, f, src, n);
        w := done;
        if !panicked {
          ChunkedRead(fs.sb, old(fs.St()), fs.St(), f.inum, src, old(f.off), done);
        }
        r := if done == n then n else -1;
      }
    }
  }

  lemma NothingRead(s: Fs, i: nat)
    ensures OthersRead(s, s, i)
  {
  }

  lemma ChunkedRead(sb: Super, s0: Fs, s: Fs, i: nat, src: seq<Byte>, off: nat, w: nat)
    requires i in s0.inodes && w <= |src| && Chunked(sb, s0, s, i, src, off, w)
    ensures OthersRead(s0, s, i)
  {
    hide OthersRead, OthersKept;
    if w == 0 {
      NothingRead(s0, i);
    } else {
      OthersKeptRead(s0, s, i);
    }
  }

  lemma UpToStart(fs: FileSystem, f: OpenFile, src: seq<Byte>)
    requires Consistent(fs, f.inum)
    ensures f.inum in fs.St().inodes && fs.St().inodes == fs.inodes
    ensures UpTo(fs, f, fs.St(), f.off, src, 0)
  {
  }

  lemma UpToFacts(fs: FileSystem, f: OpenFile, s0: Fs, off0: nat, src: seq<Byte>, w: nat)
    requires UpTo(fs, f, s0, off0, src, w) && w > 0
    ensures off0 + w <= MAXFILE * BSIZE
  {
  }

  lemma FitsLess(size: nat, off: nat, n: nat, n': nat)
    requires n <= n' && !Fits(size, off, n)
    ensures !Fits(size, off, n')
  {
  }
}
