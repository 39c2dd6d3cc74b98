// Sizes that several files of the kernel share.
module Params {
  const MAXOPBLOCKS: nat := 10
  const LOGSIZE: nat := 30
  const BSIZE: nat := 512
}

/** Disk blocks as bytes, with the little-endian 32-bit words and the single
    bits that the kernel reads and writes inside them. */
module Blocks {
  import opened Params

  type Byte = x: int | 0 <= x < 256
  type Word = w: int | 0 <= w < 0x1_0000_0000
  type Block = b: seq<Byte> | |b| == BSIZE witness seq(BSIZE, _ => 0)

  // Number of words in a block (NINDIRECT in fs.h).
  const WORDS: nat := BSIZE / 4

  function ZeroBlock(): Block {
    seq(BSIZE, _ => 0)
  }

  // ((uint*)bp->data)[j]
  function GetWord(b: Block, j: nat): Word
    requires j < WORDS
  {
    var b0: int, b1: int, b2: int, b3: int := b[4 * j], b[4 * j + 1], b[4 * j + 2], b[4 * j + 3];
    b0 + 0x100 * b1 + 0x1_0000 * b2 + 0x100_0000 * b3
  }

  // ((uint*)bp->data)[j] = w
  function PutWord(b: Block, j: nat, w: Word): Block
    requires j < WORDS
  {
    b[4 * j := w % 0x100]
     [4 * j + 1 := w / 0x100 % 0x100]
     [4 * j + 2 := w / 0x1_0000 % 0x100]
     [4 * j + 3 := w / 0x100_0000]
  }

  lemma PutThenGet(b: Block, j: nat, w: Word)
    requires j < WORDS
    ensures GetWord(PutWord(b, j, w), j) == w
  {
    var p := PutWord(b, j, w);
    assert p[4 * j] == w % 0x100 && p[4 * j + 1] == w / 0x100 % 0x100;
    assert p[4 * j + 2] == w / 0x1_0000 % 0x100 && p[4 * j + 3] == w / 0x100_0000;
  }

  lemma PutKeepsOthers(b: Block, j: nat, w: Word, k: nat)
    requires j < WORDS && k < WORDS && j != k
    ensures GetWord(PutWord(b, j, w), k) == GetWord(b, k)
  {
  }

  // (x & (1 << k)) != 0
  predicate TestBit(x: nat, k: nat) {
    if k == 0 then x % 2 == 1 else TestBit(x / 2, k - 1)
  }

  // x | (1 << k)
  function SetBit(x: nat, k: nat): nat {
    if k == 0 then x - x % 2 + 1 else 2 * SetBit(x / 2, k - 1) + x % 2
  }

  // x & ~(1 << k)
  function ClearBit(x: nat, k: nat): nat {
    if k == 0 then x - x % 2 else 2 * ClearBit(x / 2, k - 1) + x % 2
  }

  // The value of 1 << k
  function Shift(k: nat): (m: nat)
    ensures m > 0
  {
    if k == 0 then 1 else 2 * Shift(k - 1)
  }

  // Updating bit k of a number below 1 << n, for k < n, stays below 1 << n.
  lemma {:induction false} BitUpdateRange(x: nat, k: nat, n: nat)
    requires k < n && x < Shift(n)
    ensures SetBit(x, k) < Shift(n) && ClearBit(x, k) < Shift(n)
  {
    if k > 0 {
      BitUpdateRange(x / 2, k - 1, n - 1);
    }
  }

  // Setting or clearing one bit leaves every other bit alone.
  lemma {:induction false} BitUpdates(x: nat, k: nat, m: nat)
    ensures TestBit(SetBit(x, k), m) == (m == k || TestBit(x, m))
    ensures TestBit(ClearBit(x, k), m) == (m != k && TestBit(x, m))
  {
    if k > 0 && m > 0 {
      assert SetBit(x, k) / 2 == SetBit(x / 2, k - 1) && ClearBit(x, k) / 2 == ClearBit(x / 2, k - 1);
      BitUpdates(x / 2, k - 1, m - 1);
    }
  }
}
