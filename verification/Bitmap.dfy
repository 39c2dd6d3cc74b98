/** The free map of fs.c: one bit per disk block, kept in the bitmap blocks of the disk itself. */
module Bitmap {
  import opened Params
  import opened Blocks

  type Data = seq<Block>

  // struct superblock, with the number of the first data block (nmeta in mkfs.c).
  datatype Super = Super(size: nat, inodestart: nat, bmapstart: nat, meta: nat)

  // Bits per bitmap block.
  const BPB: nat := BSIZE * 8

  // The bitmap lies below the data blocks.
  ghost predicate Geometry(sb: Super, data: Data) {
    && sb.bmapstart + (sb.size + BPB - 1) / BPB <= sb.meta <= sb.size <= |data|
    && 0 < sb.meta && sb.size <= 0x1_0000_0000
  }

  function BBlock(sb: Super, b: nat): nat {
    b / BPB + sb.bmapstart
  }

  lemma BBlockInRange(sb: Super, data: Data, b: nat)
    requires Geometry(sb, data) && b < sb.size
    ensures BBlock(sb, b) < sb.meta
  {
  }

  predicate Bit(blk: Block, bi: nat)
    requires bi < BPB
  {
    TestBit(blk[bi / 8], bi % 8)
  }

  function WithBit(blk: Block, bi: nat, on: bool): Block
    requires bi < BPB
  {
    var x := blk[bi / 8];
    BitUpdateRange(x, bi % 8, 8);
    assert Shift(8) == 256 by { assert Shift(4) == 16; }
    blk[bi / 8 := if on then SetBit(x, bi % 8) else ClearBit(x, bi % 8)]
  }

  lemma WithBitBits(blk: Block, bi: nat, on: bool, bj: nat)
    requires bi < BPB && bj < BPB
    ensures Bit(WithBit(blk, bi, on), bj) == if bj == bi then on else Bit(blk, bj)
  {
    if bi / 8 == bj / 8 {
      BitUpdates(blk[bi / 8], bi % 8, bj % 8);
    }
  }

  predicate Used(sb: Super, data: Data, b: nat) {
    BBlock(sb, b) < |data| && Bit(data[BBlock(sb, b)], b % BPB)
  }

  // The disk with the bit of block b set or cleared.
  function Mark(sb: Super, data: Data, b: nat, on: bool): (r: Data)
    requires BBlock(sb, b) < |data|
    ensures |r| == |data|
  {
    data[BBlock(sb, b) := WithBit(data[BBlock(sb, b)], b % BPB, on)]
  }

  // Marking changes the one bit and no other.
  lemma MarkBits(sb: Super, data: Data, b: nat, on: bool, c: nat)
    requires BBlock(sb, b) < |data|
    ensures Used(sb, Mark(sb, data, b, on), c) == if c == b then on else Used(sb, data, c)
  {
    if BBlock(sb, c) == BBlock(sb, b) {
      WithBitBits(data[BBlock(sb, b)], b % BPB, on, c % BPB);
      assert c % BPB == b % BPB ==> c == b;
    }
  }

  function UsedSet(sb: Super, data: Data): set<nat> {
    set b | 0 <= b < sb.size && Used(sb, data, b)
  }

  lemma MarkUsedSet(sb: Super, data: Data, b: nat, on: bool)
    requires b < sb.size && BBlock(sb, b) < |data|
    ensures UsedSet(sb, Mark(sb, data, b, on)) == if on then UsedSet(sb, data) + {b} else UsedSet(sb, data) - {b}
  {
    forall c | 0 <= c < sb.size
      ensures Used(sb, Mark(sb, data, b, on), c) == if c == b then on else Used(sb, data, c)
    {
      MarkBits(sb, data, b, on, c);
    }
  }

  // Changing blocks above the metadata leaves the free map alone.
  lemma UsedSetFrame(sb: Super, data: Data, data': Data)
    requires Geometry(sb, data) && |data'| == |data|
    requires forall b :: 0 <= b < sb.meta ==> data'[b] == data[b]
    ensures UsedSet(sb, data') == UsedSet(sb, data)
  {
    forall c | 0 <= c < sb.size ensures Used(sb, data', c) == Used(sb, data, c) {
      BBlockInRange(sb, data, c);
    }
  }

  // ---- counting ----

  predicate Below(b: nat, n: nat) {
    b < n
  }

  function Upto(n: nat): (r: set<nat>)
    ensures forall b: nat :: b in r <==> b < n
  {
    set b: nat | b < n && Below(b, n)
  }

  lemma {:induction false} UptoCard(n: nat)
    ensures |Upto(n)| == n
  {
    if n > 0 {
      UptoCard(n - 1);
      assert Upto(n) == Upto(n - 1) + {n - 1};
    }
  }

  // Every block is in use: balloc panics.
  ghost predicate Full(sb: Super, data: Data) {
    forall c :: 0 <= c < sb.size ==> Used(sb, data, c)
  }

  ghost function FreeBlocks(sb: Super, data: Data): set<nat> {
    Upto(sb.size) - UsedSet(sb, data)
  }

  lemma FreeCount(sb: Super, data: Data)
    ensures |FreeBlocks(sb, data)| == sb.size - |UsedSet(sb, data)|
    ensures Full(sb, data) ==> FreeBlocks(sb, data) == {}
  {
    UptoCard(sb.size);
    assert UsedSet(sb, data) <= Upto(sb.size);
  }

  // The bitmap blocks with the bits of the blocks in bs.
  ghost function MapBlocks(sb: Super, bs: set<nat>): set<nat> {
    set b | b in bs :: BBlock(sb, b)
  }

  lemma {:induction false} MapBlocksCard(sb: Super, bs: set<nat>)
    ensures |MapBlocks(sb, bs)| <= |bs|
  {
    if bs == {} {
      assert MapBlocks(sb, bs) == {};
    } else {
      var b :| b in bs;
      MapBlocksCard(sb, bs - {b});
      assert MapBlocks(sb, bs) == MapBlocks(sb, bs - {b}) + {BBlock(sb, b)};
    }
  }

  lemma MapBlocksUnion(sb: Super, bs: set<nat>, cs: set<nat>)
    ensures MapBlocks(sb, bs + cs) == MapBlocks(sb, bs) + MapBlocks(sb, cs)
  {
  }
}
