/** How many blocks one operation can log at most: filewrite's chunk is the largest that always fits the log's
    budget, and itrunc fits it exactly when the bitmap of the data blocks is small enough. */
module LogBudget {
  import opened Params
  import opened Blocks
  import opened Bitmap
  import opened InodeMap
  import opened FileBytes
  import opened Truncate
  import opened FsCode

  // ---- a disk with a given free map ----

  function Stamped(sb: Super, data: Data, used: set<nat>, n: nat): (r: Data)
    requires n > 0 ==> BBlock(sb, n - 1) < |data|
    ensures |r| == |data|
  {
    if n == 0 then data else Mark(sb, Stamped(sb, data, used, n - 1), n - 1, n - 1 in used)
  }

  lemma {:induction false} StampedUsed(sb: Super, data: Data, used: set<nat>, n: nat, c: nat)
    requires n > 0 ==> BBlock(sb, n - 1) < |data|
    requires c < n
    ensures Used(sb, Stamped(sb, data, used, n), c) == (c in used)
  {
    var rest := Stamped(sb, data, used, n - 1);
    MarkBits(sb, rest, n - 1, n - 1 in used, c);
    if c < n - 1 {
      StampedUsed(sb, data, used, n - 1, c);
    }
  }

  predicate Layout(sb: Super) {
    sb.bmapstart + (sb.size + BPB - 1) / BPB <= sb.meta <= sb.size && 0 < sb.meta && sb.size <= 0x1_0000_0000
  }

  // Empty blocks, with a bitmap that says used.
  function DiskWith(sb: Super, used: set<nat>): (r: Data)
    requires Layout(sb)
    ensures |r| == sb.size
  {
    Stamped(sb, seq(sb.size, _ => ZeroBlock()), used, sb.size)
  }

  lemma DiskUsed(sb: Super, used: set<nat>)
    requires Layout(sb) && used <= Upto(sb.size)
    ensures Geometry(sb, DiskWith(sb, used)) && UsedSet(sb, DiskWith(sb, used)) == used
  {
    var blank := seq(sb.size, _ => ZeroBlock());
    forall c: nat | c < sb.size ensures Used(sb, DiskWith(sb, used), c) == (c in used) {
      StampedUsed(sb, blank, used, sb.size, c);
    }
  }

  // An owner for every used data block makes a consistent file system.
  lemma OwnedDisk(sb: Super, inodes: map<nat, Inode>, mine: set<nat>, free: set<nat>)
    requires Layout(sb) && mine <= Upto(sb.size) && (forall b <- mine :: sb.meta <= b)
    requires free == Upto(sb.size) - Upto(sb.meta) - mine
    requires var s := Fs(DiskWith(sb, Upto(sb.size) - free), inodes); Injective(sb, s) && Owned(s) == mine
    ensures var s := Fs(DiskWith(sb, Upto(sb.size) - free), inodes);
            Own(sb, s, {}) && FreeBlocks(sb, s.data) == free
  {
    hide Injective, Owned, UsedSet;
    DiskUsed(sb, Upto(sb.size) - free);
  }

  // ---- a crowded disk: one free block left in each of five bitmap blocks ----

  // The last block of each bitmap block is free; extra free blocks follow the fifth.
  function CrowdedSuper(extra: nat): Super {
    Super(20480 + extra, 100, 4000, 4095)
  }

  predicate Taken(b: nat) {
    4096 <= b < 20480 && b % BPB != BPB - 1
  }

  function Five(): set<nat> {
    {4095, 8191, 12287, 16383, 20479}
  }

  // The bitmap blocks of those five.
  function Five4000(): set<nat> {
    {4000, 4001, 4002, 4003, 4004}
  }

  function TakenSet(): set<nat> {
    set b | 4096 <= b < 20480 && b % BPB != BPB - 1
  }

  function Spare(extra: nat): set<nat> {
    Five() + (Upto(20480 + extra) - Upto(20480))
  }

  // Inode 1 has ten blocks; each other block in use is a file of its own.
  function FileOf(b: nat): Inode {
    Inode(512, [b, 0, 0, 0, 0, 0, 0, 0, 0, 0, 0, 0, 0])
  }

  function TenBlocks(): Inode {
    Inode(5120, [4096, 4097, 4098, 4099, 4100, 4101, 4102, 4103, 4104, 4105, 0, 0, 0])
  }

  function CrowdedInodes(): map<nat, Inode> {
    (map b: nat | 4106 <= b < 20480 && b % BPB != BPB - 1 :: FileOf(b))[1 := TenBlocks()]
  }

  function Crowded(extra: nat): Fs
    requires extra <= 140
  {
    Fs(DiskWith(CrowdedSuper(extra), Upto(20480 + extra) - Spare(extra)), CrowdedInodes())
  }

  lemma CrowdedAt(data: Data, i: nat, k: nat)
    ensures At(Fs(data, CrowdedInodes()), i, k)
            == if i == 1 && k < 10 then 4096 + k else if Taken(i) && 4106 <= i && k == 0 then i else 0
  {
  }

  lemma CrowdedOwned(data: Data)
    ensures Injective(CrowdedSuper(0), Fs(data, CrowdedInodes())) && Owned(Fs(data, CrowdedInodes())) == TakenSet()
  {
    var s := Fs(data, CrowdedInodes());
    forall i: nat, k: nat
      ensures At(s, i, k) == if i == 1 && k < 10 then 4096 + k else if Taken(i) && 4106 <= i && k == 0 then i else 0
    {
      CrowdedAt(data, i, k);
    }
    forall b | b in TakenSet() ensures b in Owned(s) {
      var i, k := if b < 4106 then 1 else b, if b < 4106 then b - 4096 else 0;
      assert At(s, i, k) == b;
      OwnedSlot(s, i, k);
    }
  }

  lemma SpareIs(extra: nat)
    ensures Spare(extra) == Upto(20480 + extra) - Upto(4095) - TakenSet()
    ensures |Spare(extra)| == 5 + extra
  {
    UptoCard(20480);
    UptoCard(20480 + extra);
    var more := Upto(20480 + extra) - Upto(20480);
    assert Upto(20480 + extra) == Upto(20480) + more;
    assert |more| == extra;
    assert |Five()| == 5;
    assert Five() !! more;
  }

  lemma CrowdedIsOwned(extra: nat)
    requires extra <= 140
    ensures Own(CrowdedSuper(extra), Crowded(extra), {})
            && FreeBlocks(CrowdedSuper(extra), Crowded(extra).data) == Spare(extra)
    ensures NoHoles(Crowded(extra), 1)
  {
    var sb, s := CrowdedSuper(extra), Crowded(extra);
    CrowdedHoles(s.data);
    hide DiskWith, Spare, CrowdedInodes, Owned, NoHoles;
    CrowdedOwned(s.data);
    SpareIs(extra);
    assert Injective(sb, s) by { OnLargerDisk(extra, s); }
    OwnedDisk(sb, CrowdedInodes(), TakenSet(), Spare(extra));
  }

  lemma CrowdedHoles(data: Data)
    ensures NoHoles(Fs(data, CrowdedInodes()), 1)
  {
    var s := Fs(data, CrowdedInodes());
    forall k: nat ensures At(s, 1, k) == if k < 10 then 4096 + k else 0 {
      CrowdedAt(data, 1, k);
    }
  }

  lemma OnLargerDisk(extra: nat, s: Fs)
    requires Injective(CrowdedSuper(0), s)
    ensures Injective(CrowdedSuper(extra), s)
  {
  }

  // ---- filewrite's chunk is the largest ----

  // Where to write n bytes to the ten-block file, and how many blocks that allocates.
  function Offset(n: nat): nat {
    if 5120 + n <= MAXFILE * BSIZE then 5120 else 0
  }

  function Allocs(n: nat): nat {
    Grown(5120, Max(5120, Offset(n) + n))
  }

  lemma AllocsBounds(n: nat)
    requires CHUNK < n <= MAXFILE * BSIZE
    ensures 5 <= Allocs(n) <= 145 && Offset(n) + n <= MAXFILE * BSIZE && Offset(n) + n > 5120
  {
  }

  // If every free block is taken, the five bitmap blocks, the inode's block and the new blocks are all logged.
  lemma CrowdedLogs(extra: nat, s: Fs, off: nat, n: nat)
    requires extra <= 140 && n > 0 && off + n > 5120 && Grown(5120, Max(5120, off + n)) == 5 + extra
    requires Allocated(CrowdedSuper(extra), Crowded(extra), s, 1, off + n)
    ensures |OpLogs(CrowdedSuper(extra), Crowded(extra), s, 1, off, n)| >= 11 + extra
  {
    var sb, s0 := CrowdedSuper(extra), Crowded(extra);
    CrowdedIsOwned(extra);
    SpareIs(extra);
    assert s0.inodes[1].size == 5120;
    hide Spare, Crowded, DataSet, EntrySet, MapBlocks, News, CrowdedInodes, UsedSet, FreeBlocks, Own, NoHoles, Grown;
    AllTaken(sb, s0, s, Spare(extra));
    SpareMaps(extra);
    LeastLogs(extra, MapBlocks(sb, Spare(extra)));
    SubsetSize(Spare(extra) + MapBlocks(sb, Spare(extra)) + {100}, OpLogs(sb, s0, s, 1, off, n));
  }

  lemma LeastLogs(extra: nat, maps: set<nat>)
    requires Five4000() <= maps
    ensures |Spare(extra) + maps + {100}| >= 11 + extra
  {
    SpareIs(extra);
    SixLow();
    SpareHigh(extra);
    hide Spare, Five4000;
    var blocks, fixed := Spare(extra), Five4000() + {100};
    assert |blocks + fixed| == |blocks| + |fixed|;
    SubsetSize(blocks + fixed, blocks + maps + {100});
  }

  lemma SixLow()
    ensures |Five4000() + {100}| == 6 && forall b <- Five4000() + {100} :: b < 4095
  {
    assert |Five4000()| == 5;
  }

  lemma SpareHigh(extra: nat)
    ensures forall b <- Spare(extra) :: b >= 4095
  {
  }

  lemma AllTaken(sb: Super, s0: Fs, s: Fs, free: set<nat>)
    requires UsedSet(sb, s0.data) <= UsedSet(sb, s.data) && FreeBlocks(sb, s0.data) == free
    requires |UsedSet(sb, s.data)| == |UsedSet(sb, s0.data)| + |free|
    ensures News(sb, s0, s) == free
  {
    FreeCount(sb, s0.data);
    FreeCount(sb, s.data);
    assert |FreeBlocks(sb, s.data)| == 0;
    assert UsedSet(sb, s.data) == Upto(sb.size);
  }

  lemma SpareMaps(extra: nat)
    ensures Five4000() <= MapBlocks(CrowdedSuper(extra), Spare(extra))
  {
    var sb := CrowdedSuper(extra);
    assert BBlock(sb, 4095) == 4000 && BBlock(sb, 8191) == 4001 && BBlock(sb, 12287) == 4002;
    assert BBlock(sb, 16383) == 4003 && BBlock(sb, 20479) == 4004;
    assert Five() <= Spare(extra);
  }

  // The disk for a write of n bytes is consistent and has just the free blocks that the write takes.
  ghost predicate Ready(sb: Super, s: Fs, n: nat) {
    && Own(sb, s, {}) && 1 in s.inodes && NoHoles(s, 1) && s.inodes[1].size == 5120
    && Fits(5120, Offset(n), n) && |FreeBlocks(sb, s.data)| == Grown(5120, Max(5120, Offset(n) + n))
  }

  lemma CrowdedReady(n: nat)
    requires CHUNK < n <= MAXFILE * BSIZE
    ensures 5 <= Allocs(n) <= 145 && Ready(CrowdedSuper(Allocs(n) - 5), Crowded(Allocs(n) - 5), n)
  {
    CrowdedFile();
    AllocsBounds(n);
    var extra := Allocs(n) - 5;
    assert Crowded(extra).inodes == CrowdedInodes();
    hide Crowded, CrowdedInodes, Own, NoHoles, FreeBlocks, Spare, Grown;
    CrowdedIsOwned(extra);
    SpareIs(extra);
  }

  lemma CrowdedFile()
    ensures 1 in CrowdedInodes() && CrowdedInodes()[1].size == 5120
  {
  }

  lemma CrowdedExceeds(n: nat, s: Fs)
    requires CHUNK < n <= MAXFILE * BSIZE && 5 <= Allocs(n) <= 145 && 1 in Crowded(Allocs(n) - 5).inodes
    requires Allocated(CrowdedSuper(Allocs(n) - 5), Crowded(Allocs(n) - 5), s, 1, Offset(n) + n)
    ensures |OpLogs(CrowdedSuper(Allocs(n) - 5), Crowded(Allocs(n) - 5), s, 1, Offset(n), n)| > MAXOPBLOCKS
  {
    hide Crowded, Allocated, OpLogs, Grown;
    AllocsBounds(n);
    CrowdedLogs(Allocs(n) - 5, s, Offset(n), n);
  }

  // For every larger chunk there is a consistent disk on which writei, in one operation, logs more blocks than
  // begin_op reserves.
  method LargerChunkExceeds(src: seq<Byte>) returns (fs: FileSystem, r: int, ghost s0: Fs, ghost off: nat)
    requires CHUNK < |src| <= MAXFILE * BSIZE
    ensures Own(fs.sb, s0, {}) && NoHoles(s0, 1) && off <= s0.inodes[1].size
    ensures r == |src| && Wrote(fs.sb, s0, fs.St(), 1, src, off)
    ensures fs.logged == OpLogs(fs.sb, s0, fs.St(), 1, off, |src|) && |fs.logged| > MAXOPBLOCKS
  {
    hide Crowded, Own, NoHoles, Wrote, OpLogs, Allocated, OthersRead, FreeBlocks, Grown, LogCost, Allocs;
    CrowdedReady(|src|);
    var extra := Allocs(|src|) - 5;
    var s := Crowded(extra);
    s0, off := s, Offset(|src|);
    fs := new FileSystem(CrowdedSuper(extra), s.data, s.inodes);
    assert fs.St() == s0;
    var panicked;
    panicked, r := fs.WriteI(1, src, Offset(|src|));
    CrowdedExceeds(|src|, fs.St());
  }

  // ---- itrunc ----

  // The bitmap blocks that cover the data blocks.
  function Span(sb: Super): nat
    requires sb.meta < sb.size
  {
    (sb.size - 1) / BPB - sb.meta / BPB + 1
  }

  ghost function Covering(sb: Super): set<nat>
    requires sb.meta < sb.size
  {
    Upto((sb.size - 1) / BPB + sb.bmapstart + 1) - Upto(sb.meta / BPB + sb.bmapstart)
  }

  lemma CoveringCard(sb: Super)
    requires sb.meta < sb.size
    ensures |Covering(sb)| == Span(sb)
  {
    var hi, lo := (sb.size - 1) / BPB + sb.bmapstart + 1, sb.meta / BPB + sb.bmapstart;
    UptoCard(hi);
    UptoCard(lo);
    assert Upto(lo) <= Upto(hi);
  }

  lemma CoveredBy(sb: Super, a: nat)
    requires sb.meta <= a < sb.size
    ensures BBlock(sb, a) in Covering(sb)
  {
    assert sb.meta / BPB <= a / BPB <= (sb.size - 1) / BPB;
  }

  lemma TruncWithin(sb: Super, s: Fs, i: nat)
    requires Own(sb, s, {}) && sb.meta < sb.size
    ensures |TruncLogs(sb, s, i)| <= Span(sb) + 1
  {
    hide BBlock, UsedSet, At;
    forall b | b in SlotMaps(sb, s, i, 0, SLOTS) ensures b in Covering(sb) {
      var k :| 0 <= k < SLOTS && At(s, i, k) != 0 && BBlock(sb, At(s, i, k)) == b;
      CoveredBy(sb, At(s, i, k));
    }
    CoveringCard(sb);
    hide SlotMaps, Covering, Span;
    SubsetSize(TruncLogs(sb, s, i), Covering(sb) + {IBlock(sb, i)});
  }

  // The first data block in the t-th bitmap block that covers any.
  function Spread(sb: Super, t: nat): nat {
    if t == 0 then sb.meta else (sb.meta / BPB + t) * BPB
  }

  lemma SpreadIs(sb: Super, t: nat)
    requires Layout(sb) && sb.meta < sb.size && t < Span(sb)
    ensures sb.meta <= Spread(sb, t) < sb.size && BBlock(sb, Spread(sb, t)) == sb.meta / BPB + t + sb.bmapstart
    ensures Spread(sb, t) != 0
  {
  }

  // A file with ten direct blocks, each in another bitmap block.
  function SpreadFile(sb: Super): Inode {
    Inode(5120, seq(NDIRECT + 1, k requires 0 <= k < NDIRECT + 1 => if k < 10 then Spread(sb, k) else 0))
  }

  function SpreadSet(sb: Super): set<nat> {
    set t | 0 <= t < 10 :: Spread(sb, t)
  }

  function SpreadDisk(sb: Super): Fs
    requires Layout(sb)
  {
    Fs(DiskWith(sb, Upto(sb.size) - (Upto(sb.size) - Upto(sb.meta) - SpreadSet(sb))), map[1 := SpreadFile(sb)])
  }

  lemma SpreadAt(sb: Super, data: Data, i: nat, k: nat)
    ensures At(Fs(data, map[1 := SpreadFile(sb)]), i, k) == if i == 1 && k < 10 then Spread(sb, k) else 0
  {
  }

  lemma SpreadOwned(sb: Super, data: Data)
    requires Layout(sb) && sb.meta < sb.size && Span(sb) >= 10
    ensures var s := Fs(data, map[1 := SpreadFile(sb)]);
            Injective(sb, s) && Owned(s) == SpreadSet(sb) && forall b <- SpreadSet(sb) :: sb.meta <= b < sb.size
  {
    var s := Fs(data, map[1 := SpreadFile(sb)]);
    forall i: nat, k: nat ensures At(s, i, k) == if i == 1 && k < 10 then Spread(sb, k) else 0 {
      SpreadAt(sb, data, i, k);
    }
    forall t: nat | t < 10
      ensures sb.meta <= Spread(sb, t) < sb.size && BBlock(sb, Spread(sb, t)) == sb.meta / BPB + t + sb.bmapstart
              && Spread(sb, t) != 0
    {
      SpreadIs(sb, t);
    }
    hide Spread, BBlock;
    forall b | b in SpreadSet(sb) ensures b in Owned(s) {
      var t :| 0 <= t < 10 && Spread(sb, t) == b;
      assert At(s, 1, t) == b;
      OwnedSlot(s, 1, t);
    }
  }

  lemma SpreadIsOwned(sb: Super)
    requires Layout(sb) && sb.meta < sb.size && Span(sb) >= 10
    ensures Own(sb, SpreadDisk(sb), {})
  {
    var s := SpreadDisk(sb);
    SpreadOwned(sb, s.data);
    hide DiskWith, Injective, Owned, SpreadSet, SpreadFile;
    OwnedDisk(sb, s.inodes, SpreadSet(sb), Upto(sb.size) - Upto(sb.meta) - SpreadSet(sb));
  }

  lemma SpreadHit(sb: Super, t: nat)
    requires Layout(sb) && sb.meta < sb.size && Span(sb) >= 10 && t < 10
    ensures sb.meta / BPB + sb.bmapstart + t in SlotMaps(sb, SpreadDisk(sb), 1, 0, SLOTS)
  {
    var s := SpreadDisk(sb);
    SpreadAt(sb, s.data, 1, t);
    SpreadIs(sb, t);
    hide BBlock, Spread, SpreadDisk, At;
    assert At(s, 1, t) != 0 && BBlock(sb, At(s, 1, t)) == sb.meta / BPB + sb.bmapstart + t;
  }

  lemma TenFrom(lo: nat, ib: nat)
    requires ib < lo
    ensures |Upto(lo + 10) - Upto(lo) + {ib}| == 11
  {
    UptoCard(lo);
    UptoCard(lo + 10);
    assert Upto(lo) <= Upto(lo + 10);
    assert |Upto(lo + 10) - Upto(lo)| == 10;
  }

  lemma SpreadLogs(sb: Super)
    requires Layout(sb) && sb.meta < sb.size && Span(sb) >= 10 && sb.inodestart < sb.bmapstart
    ensures |TruncLogs(sb, SpreadDisk(sb), 1)| > MAXOPBLOCKS
  {
    hide SlotMaps, SpreadDisk, Span;
    var lo := sb.meta / BPB + sb.bmapstart;
    var ten := Upto(lo + 10) - Upto(lo);
    forall b | b in ten ensures b in SlotMaps(sb, SpreadDisk(sb), 1, 0, SLOTS) {
      SpreadHit(sb, b - lo);
    }
    TenFrom(lo, IBlock(sb, 1));
    SubsetSize(ten + {IBlock(sb, 1)}, TruncLogs(sb, SpreadDisk(sb), 1));
  }

  ghost predicate TruncatesInBudget(sb: Super) {
    forall s: Fs, i: nat :: Own(sb, s, {}) && i in s.inodes ==> |TruncLogs(sb, s, i)| <= MAXOPBLOCKS
  }

  // Every itrunc on this disk is within the budget exactly when at most nine bitmap blocks cover its data blocks.
  lemma TruncBudgetExactly(sb: Super)
    requires Layout(sb) && sb.meta < sb.size && sb.inodestart < sb.bmapstart
    ensures TruncatesInBudget(sb) <==> Span(sb) <= MAXOPBLOCKS - 1
  {
    hide TruncLogs, Own;
    if Span(sb) <= MAXOPBLOCKS - 1 {
      forall s: Fs, i: nat | Own(sb, s, {}) && i in s.inodes ensures |TruncLogs(sb, s, i)| <= MAXOPBLOCKS {
        TruncWithin(sb, s, i);
      }
    } else {
      SpreadIsOwned(sb);
      SpreadLogs(sb);
      assert 1 in SpreadDisk(sb).inodes;
    }
  }
}
