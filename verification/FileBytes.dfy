/** Files as byte sequences: what the blocks in an inode's slots hold, and what mapping one more
    block or overwriting part of a block does to it. */
module FileBytes {
  import opened Params
  import opened Blocks
  import opened Bitmap
  import opened InodeMap

  // The byte at position x of inode i.
  function ByteAt(s: Fs, i: nat, x: nat): Byte {
    var a := At(s, i, x / BSIZE);
    if a < |s.data| then s.data[a][x % BSIZE] else 0
  }

  // The content blocks mapped are exactly those that hold bytes below lim.
  ghost predicate MappedTo(s: Fs, i: nat, lim: nat) {
    && i in s.inodes
    && lim <= MAXFILE * BSIZE
    && (forall k: nat :: k < IND ==> (At(s, i, k) != 0 <==> k * BSIZE < lim))
    && (At(s, i, IND) != 0 <==> NDIRECT * BSIZE < lim)
  }

  // Blocks are mapped exactly below the file size.
  ghost predicate NoHoles(s: Fs, i: nat) {
    i in s.inodes && MappedTo(s, i, s.inodes[i].size)
  }

  function Contents(s: Fs, i: nat): seq<Byte>
    requires i in s.inodes
  {
    seq(s.inodes[i].size, x requires 0 <= x < s.inodes[i].size => ByteAt(s, i, x))
  }

  // c with new written over it at off, growing it if need be.
  function Splice(c: seq<Byte>, off: nat, new_: seq<Byte>): seq<Byte>
    requires off <= |c|
  {
    c[..off] + new_ + if off + |new_| < |c| then c[off + |new_|..] else []
  }

  // What is read back after a write: the new bytes where they went, the old ones elsewhere.
  lemma SpliceReads(c: seq<Byte>, off: nat, new_: seq<Byte>, x: nat)
    requires off <= |c|
    ensures |Splice(c, off, new_)| == Max(|c|, off + |new_|)
    ensures Splice(c, off, new_)[off..off + |new_|] == new_
    ensures x < |c| && !(off <= x < off + |new_|) ==> Splice(c, off, new_)[x] == c[x]
  {
  }

  // mkfs rounds the size of the root directory up to the block after its last entry. That
  // leaves a hole exactly when the entries fill their last block.
  lemma RootDirectoryHole(s: Fs, i: nat, bytes: nat)
    requires i in s.inodes && MappedTo(s, i, bytes) && bytes / BSIZE < MAXFILE
    ensures NoHoles(SetSize(s, i, (bytes / BSIZE + 1) * BSIZE), i) <==> bytes % BSIZE != 0
  {
    var s' := SetSize(s, i, (bytes / BSIZE + 1) * BSIZE);
    assert forall k: nat :: At(s', i, k) == At(s, i, k);
    var k := bytes / BSIZE;
    assert At(s, i, k) != 0 <==> k * BSIZE < bytes;
  }

  // ---- mapping a block ----

  // What bmap does to the state: slot bn of inode i holds addr; if it was empty, addr is a
  // block that was free, now zeroed; nothing else moves, except that the indirect block
  // appears when it is first needed.
  ghost predicate Mapped(sb: Super, s: Fs, s': Fs, i: nat, bn: nat, addr: nat) {
    && Own(sb, s', {})
    && Keeps(s, s')
    && s'.inodes.Keys == s.inodes.Keys
    && (forall j <- s.inodes :: s'.inodes[j].size == s.inodes[j].size && (j != i ==> s'.inodes[j] == s.inodes[j]))
    && addr != 0 && At(s', i, bn) == addr
    && (forall j: nat, k: nat :: !(j == i && (k == bn || k == IND)) ==> At(s', j, k) == At(s, j, k))
    && (At(s', i, IND) != 0 <==> At(s, i, IND) != 0 || NDIRECT <= bn)
    && (At(s, i, IND) != 0 ==> At(s', i, IND) == At(s, i, IND))
    && (At(s, i, bn) == 0 ==> addr !in UsedSet(sb, s.data) && addr < |s'.data| && s'.data[addr] == ZeroBlock())
    && (At(s, i, bn) != 0 ==> s' == s)
  }

  lemma AlreadyMapped(sb: Super, s: Fs, i: nat, bn: nat)
    requires Own(sb, s, {}) && i in s.inodes && bn < MAXFILE && At(s, i, bn) != 0
    ensures Mapped(sb, s, s, i, bn, At(s, i, bn))
  {
  }

  lemma MapDirect(sb: Super, s: Fs, i: nat, bn: nat, b: nat)
    requires Own(sb, s, {}) && i in s.inodes && bn < NDIRECT && At(s, i, bn) == 0
    requires b < sb.size && b !in UsedSet(sb, s.data)
    ensures BBlock(sb, b) < |s.data| && b < |s.data|
    ensures Mapped(sb, s, SetAddr(Fs(Alloc(sb, s.data, b), s.inodes), i, bn, b), i, bn, b)
  {
    AllocSlots(sb, s, {}, b);
    AllocOwn(sb, s, {}, b);
    var t := Fs(Alloc(sb, s.data, b), s.inodes);
    SetDirectEnters(t, i, bn, b);
    assert {} + {b} == {b} && {b} - {b} == {};
    EnteredOwn(sb, t, SetAddr(t, i, bn, b), {b}, i, bn, b);
  }

  // The indirect block has been made; everything but its slot is as before.
  ghost predicate IndirectReady(sb: Super, s: Fs, t: Fs, i: nat) {
    && Own(sb, t, {})
    && Keeps(s, t)
    && t.inodes.Keys == s.inodes.Keys
    && (forall j <- s.inodes :: t.inodes[j].size == s.inodes[j].size && (j != i ==> t.inodes[j] == s.inodes[j]))
    && (forall j: nat, k: nat :: !(j == i && k == IND) ==> At(t, j, k) == At(s, j, k))
    && At(t, i, IND) != 0
    && UsedSet(sb, s.data) <= UsedSet(sb, t.data)
    && (At(s, i, IND) != 0 ==> t == s)
  }

  lemma AlreadyReady(sb: Super, s: Fs, i: nat)
    requires Own(sb, s, {}) && i in s.inodes && At(s, i, IND) != 0
    ensures IndirectReady(sb, s, s, i)
  {
  }

  lemma MapIndirect(sb: Super, s: Fs, i: nat, b: nat)
    requires Own(sb, s, {}) && i in s.inodes && At(s, i, IND) == 0
    requires b < sb.size && b !in UsedSet(sb, s.data)
    ensures BBlock(sb, b) < |s.data| && b < |s.data|
    ensures IndirectReady(sb, s, SetAddr(Fs(Alloc(sb, s.data, b), s.inodes), i, NDIRECT, b), i)
  {
    AllocSlots(sb, s, {}, b);
    AllocOwn(sb, s, {}, b);
    AllocUsed(sb, s.data, b);
    var t := Fs(Alloc(sb, s.data, b), s.inodes);
    SetIndirectEnters(t, i, b);
    assert {} + {b} == {b} && {b} - {b} == {};
    EnteredOwn(sb, t, SetAddr(t, i, NDIRECT, b), {b}, i, IND, b);
  }

  lemma MapEntry(sb: Super, s: Fs, t: Fs, i: nat, j: nat, b: nat)
    requires IndirectReady(sb, s, t, i) && i in s.inodes && j < NINDIRECT && At(s, i, NDIRECT + j) == 0
    requires b < sb.size && b !in UsedSet(sb, t.data)
    ensures BBlock(sb, b) < |t.data| && b < |t.data|
    ensures var u := Fs(Alloc(sb, t.data, b), t.inodes);
            && At(u, i, IND) < |u.data|
            && b < 0x1_0000_0000
            && Mapped(sb, s, SetEntry(u, i, j, b), i, NDIRECT + j, b)
  {
    AllocSlots(sb, t, {}, b);
    AllocOwn(sb, t, {}, b);
    var u := Fs(Alloc(sb, t.data, b), t.inodes);
    assert {} + {b} == {b} && {b} - {b} == {};
    OwnedFacts(sb, u, {b}, i, IND);
    SetEntryEnters(sb, u, {b}, i, j, b);
    SetEntryKeeps(sb, u, {b}, i, j, b);
    var v := SetEntry(u, i, j, b);
    EnteredOwn(sb, u, v, {b}, i, NDIRECT + j, b);
    KeepsTransitive(s, t, u);
    KeepsTransitive(s, u, v);
  }

  // ---- overwriting a content block ----

  function SetBlock(s: Fs, a: nat, blk: Block): Fs
    requires a < |s.data|
  {
    s.(data := s.data[a := blk])
  }

  lemma SetBlockOwn(sb: Super, s: Fs, i: nat, k: nat, blk: Block)
    requires Own(sb, s, {}) && k < IND && At(s, i, k) != 0
    ensures At(s, i, k) < |s.data|
    ensures var s' := SetBlock(s, At(s, i, k), blk);
            && Own(sb, s', {})
            && (forall j: nat, l: nat :: At(s', j, l) == At(s, j, l))
            && UsedSet(sb, s'.data) == UsedSet(sb, s.data)
  {
    OwnedFacts(sb, s, {}, i, k);
    var data' := s.data[At(s, i, k) := blk];
    SlotsFrame(s, data');
    UsedSetFrame(sb, s.data, data');
  }

  // Only the bytes in that block of that file change.
  lemma SetBlockBytes(sb: Super, s: Fs, i: nat, k: nat, blk: Block, j: nat, x: nat)
    requires Own(sb, s, {}) && k < IND && At(s, i, k) != 0 && At(s, j, x / BSIZE) != 0
    ensures At(s, i, k) < |s.data|
    ensures ByteAt(SetBlock(s, At(s, i, k), blk), j, x)
            == if j == i && x / BSIZE == k then blk[x % BSIZE] else ByteAt(s, j, x)
  {
    SetBlockOwn(sb, s, i, k, blk);
    OwnedFacts(sb, s, {}, j, x / BSIZE);
  }

  // memmove(bp->data + o, src, m)
  function Patch(blk: Block, o: nat, piece: seq<Byte>): Block
    requires o + |piece| <= BSIZE
  {
    blk[..o] + piece + blk[o + |piece|..]
  }

  // ---- one round of writei's loop ----

  // The bytes of file i below lim, in terms of what they were in s0, when the bytes of src
  // have been written at off up to position p.
  ghost predicate WrittenUpTo(s0: Fs, s: Fs, i: nat, src: seq<Byte>, off: nat, p: nat, lim: nat)
    requires off <= p <= off + |src|
  {
    forall x: nat :: x < lim ==> ByteAt(s, i, x) == if off <= x < p then src[x - off] else ByteAt(s0, i, x)
  }

  // The other files: same slots, same bytes.
  ghost predicate OthersKept(s0: Fs, s: Fs, i: nat) {
    && s.inodes.Keys == s0.inodes.Keys
    && (forall j <- s0.inodes :: j != i ==> s.inodes[j] == s0.inodes[j])
    && (forall j: nat, k: nat :: j != i ==> At(s, j, k) == At(s0, j, k))
    && (forall j: nat, x: nat :: j != i && x < MAXFILE * BSIZE && At(s0, j, x / BSIZE) != 0 ==>
          ByteAt(s, j, x) == ByteAt(s0, j, x))
  }

  function Max(a: nat, b: nat): nat {
    if a < b then b else a
  }

  lemma MappedToStep(sb: Super, s: Fs, t: Fs, i: nat, bn: nat, addr: nat, lim: nat, p: nat, m: nat)
    requires MappedTo(s, i, lim) && Mapped(sb, s, t, i, bn, addr)
    requires p <= lim && bn == p / BSIZE && 0 < m <= BSIZE - p % BSIZE && p + m <= MAXFILE * BSIZE
    ensures MappedTo(t, i, Max(lim, p + m))
  {
    forall k: nat | k < IND ensures At(t, i, k) != 0 <==> k * BSIZE < Max(lim, p + m) {
      if k != bn {
        assert At(t, i, k) == At(s, i, k);
      }
    }
  }

  lemma MappedBytes(sb: Super, s: Fs, t: Fs, i: nat, bn: nat, addr: nat, j: nat, x: nat)
    requires Own(sb, s, {}) && Mapped(sb, s, t, i, bn, addr) && At(s, j, x / BSIZE) != 0 && x / BSIZE < IND
    ensures ByteAt(t, j, x) == ByteAt(s, j, x)
  {
    OwnedFacts(sb, s, {}, j, x / BSIZE);
  }

  lemma PatchBytes(blk: Block, o: nat, piece: seq<Byte>, y: nat)
    requires o + |piece| <= BSIZE && y < BSIZE
    ensures Patch(blk, o, piece)[y] == if o <= y < o + |piece| then piece[y - o] else blk[y]
  {
  }

  // The state after bmap and memmove in one round.
  function WriteRound(t: Fs, addr: nat, p: nat, piece: seq<Byte>): Fs
    requires addr < |t.data| && p % BSIZE + |piece| <= BSIZE
  {
    SetBlock(t, addr, Patch(t.data[addr], p % BSIZE, piece))
  }

  lemma RoundByte(sb: Super, t: Fs, i: nat, p: nat, piece: seq<Byte>, j: nat, x: nat)
    requires Own(sb, t, {}) && p / BSIZE < IND && At(t, i, p / BSIZE) != 0 && At(t, j, x / BSIZE) != 0
    requires p % BSIZE + |piece| <= BSIZE
    ensures At(t, i, p / BSIZE) < |t.data|
    ensures ByteAt(WriteRound(t, At(t, i, p / BSIZE), p, piece), j, x)
            == if j == i && p <= x < p + |piece| then piece[x - p] else ByteAt(t, j, x)
  {
    var a := At(t, i, p / BSIZE);
    OwnedFacts(sb, t, {}, i, p / BSIZE);
    SetBlockBytes(sb, t, i, p / BSIZE, Patch(t.data[a], p % BSIZE, piece), j, x);
    PatchBytes(t.data[a], p % BSIZE, piece, x % BSIZE);
  }

  lemma RoundWritten(sb: Super, s0: Fs, s: Fs, t: Fs, i: nat, src: seq<Byte>, off: nat, p: nat, m: nat, lim: nat,
                     addr: nat)
    requires Own(sb, s, {}) && MappedTo(s, i, lim) && Mapped(sb, s, t, i, p / BSIZE, addr)
    requires off <= p <= lim && 0 < m <= BSIZE - p % BSIZE && p + m <= off + |src| && p + m <= MAXFILE * BSIZE
    requires WrittenUpTo(s0, s, i, src, off, p, lim)
    ensures addr < |t.data|
    ensures WrittenUpTo(s0, WriteRound(t, addr, p, src[p - off..p - off + m]), i, src, off, p + m, Max(lim, p + m))
  {
    OwnedFacts(sb, t, {}, i, p / BSIZE);
    MappedToStep(sb, s, t, i, p / BSIZE, addr, lim, p, m);
    var piece := src[p - off..p - off + m];
    var u := WriteRound(t, addr, p, piece);
    forall x: nat | x < Max(lim, p + m)
      ensures ByteAt(u, i, x) == if off <= x < p + m then src[x - off] else ByteAt(s0, i, x)
    {
      RoundByte(sb, t, i, p, piece, i, x);
      if !(p <= x < p + m) {
        MappedBytes(sb, s, t, i, p / BSIZE, addr, i, x);
      }
    }
  }

  lemma RoundOthers(sb: Super, s0: Fs, s: Fs, t: Fs, i: nat, p: nat, piece: seq<Byte>, addr: nat)
    requires Own(sb, s, {}) && Mapped(sb, s, t, i, p / BSIZE, addr) && p / BSIZE < IND
    requires p % BSIZE + |piece| <= BSIZE && OthersKept(s0, s, i)
    ensures addr < |t.data|
    ensures OthersKept(s0, WriteRound(t, addr, p, piece), i)
    ensures Own(sb, WriteRound(t, addr, p, piece), {})
    ensures forall j: nat, k: nat :: At(WriteRound(t, addr, p, piece), j, k) == At(t, j, k)
    ensures UsedSet(sb, WriteRound(t, addr, p, piece).data) == UsedSet(sb, t.data)
  {
    OwnedFacts(sb, t, {}, i, p / BSIZE);
    SetBlockOwn(sb, t, i, p / BSIZE, Patch(t.data[addr], p % BSIZE, piece));
    var u := WriteRound(t, addr, p, piece);
    forall j: nat, x: nat | j != i && x < MAXFILE * BSIZE && At(s0, j, x / BSIZE) != 0
      ensures ByteAt(u, j, x) == ByteAt(s0, j, x)
    {
      assert At(t, j, x / BSIZE) == At(s, j, x / BSIZE) == At(s0, j, x / BSIZE);
      MappedBytes(sb, s, t, i, p / BSIZE, addr, j, x);
      RoundByte(sb, t, i, p, piece, j, x);
    }
  }

  // ---- the end of writei ----

  function SetSize(s: Fs, i: nat, size: nat): Fs
    requires i in s.inodes
  {
    s.(inodes := s.inodes[i := Inode(size, s.inodes[i].addrs)])
  }

  lemma SetSizeOwn(sb: Super, s: Fs, i: nat, size: nat)
    requires Own(sb, s, {}) && i in s.inodes
    ensures Own(sb, SetSize(s, i, size), {})
    ensures forall j: nat, k: nat :: At(SetSize(s, i, size), j, k) == At(s, j, k)
    ensures forall j: nat, x: nat :: ByteAt(SetSize(s, i, size), j, x) == ByteAt(s, j, x)
  {
    var s' := SetSize(s, i, size);
    assert forall j: nat, k: nat :: At(s', j, k) == At(s, j, k);
    assert Owned(s') == Owned(s);
  }

  // The bytes written make up the spliced contents.
  lemma WrittenIsSplice(s0: Fs, s: Fs, i: nat, src: seq<Byte>, off: nat, lim: nat)
    requires i in s0.inodes && i in s.inodes && off <= s0.inodes[i].size
    requires lim == Max(s0.inodes[i].size, off + |src|) && s.inodes[i].size == lim
    requires WrittenUpTo(s0, s, i, src, off, off + |src|, lim)
    ensures Contents(s, i) == Splice(Contents(s0, i), off, src)
  {
    var c, d := Contents(s, i), Splice(Contents(s0, i), off, src);
    assert |c| == |d|;
    forall x | 0 <= x < |c| ensures c[x] == d[x] {
      assert c[x] == ByteAt(s, i, x);
    }
  }

  lemma OthersContents(s0: Fs, s: Fs, i: nat, j: nat)
    requires OthersKept(s0, s, i) && j != i && j in s0.inodes && NoHoles(s0, j)
    ensures Contents(s, j) == Contents(s0, j) && NoHoles(s, j)
  {
    forall x | 0 <= x < s0.inodes[j].size ensures ByteAt(s, j, x) == ByteAt(s0, j, x) {
      assert At(s0, j, x / BSIZE) != 0;
    }
  }

  // ---- the loop of writei as a whole ----

  // The state of writei's loop at position p, on file i, started in s0 at off.
  ghost predicate Progress(sb: Super, s0: Fs, s: Fs, i: nat, src: seq<Byte>, off: nat, p: nat)
    requires i in s0.inodes && off <= p <= off + |src|
  {
    var lim := Max(s0.inodes[i].size, p);
    && Own(sb, s, {})
    && OthersKept(s0, s, i)
    && s.inodes[i].size == s0.inodes[i].size
    && MappedTo(s, i, lim)
    && WrittenUpTo(s0, s, i, src, off, p, lim)
    && (p <= s0.inodes[i].size ==> s.inodes == s0.inodes)
  }

  lemma ProgressStarts(sb: Super, s0: Fs, i: nat, src: seq<Byte>, off: nat)
    requires Own(sb, s0, {}) && i in s0.inodes && NoHoles(s0, i) && off <= s0.inodes[i].size
    ensures Progress(sb, s0, s0, i, src, off, off)
  {
  }

  lemma ProgressRound(sb: Super, s0: Fs, s: Fs, t: Fs, i: nat, src: seq<Byte>, off: nat, p: nat, m: nat, addr: nat)
    requires i in s0.inodes && off <= p && 0 < m <= BSIZE - p % BSIZE && p + m <= off + |src| <= MAXFILE * BSIZE
    requires Progress(sb, s0, s, i, src, off, p) && Mapped(sb, s, t, i, p / BSIZE, addr)
    ensures addr < |t.data|
    ensures Progress(sb, s0, WriteRound(t, addr, p, src[p - off..p - off + m]), i, src, off, p + m)
  {
    hide WrittenUpTo, OthersKept, Own, Keeps, ByteAt;
    var lim := Max(s0.inodes[i].size, p);
    var piece := src[p - off..p - off + m];
    RoundWritten(sb, s0, s, t, i, src, off, p, m, lim, addr);
    RoundOthers(sb, s0, s, t, i, p, piece, addr);
    MappedToStep(sb, s, t, i, p / BSIZE, addr, lim, p, m);
    var u := WriteRound(t, addr, p, piece);
    assert MappedTo(u, i, Max(lim, p + m));
    assert Max(lim, p + m) == Max(s0.inodes[i].size, p + m);
    if p + m <= s0.inodes[i].size {
      assert At(s, i, p / BSIZE) != 0;
    }
  }

  // src has been written to file i at off, and nothing else has changed.
  ghost predicate Wrote(sb: Super, s0: Fs, s: Fs, i: nat, src: seq<Byte>, off: nat)
    requires i in s0.inodes && off <= s0.inodes[i].size
  {
    && Own(sb, s, {})
    && OthersKept(s0, s, i)
    && NoHoles(s, i)
    && Contents(s, i) == Splice(Contents(s0, i), off, src)
  }

  lemma ProgressEnds(sb: Super, s0: Fs, s: Fs, i: nat, src: seq<Byte>, off: nat)
    requires i in s0.inodes && off <= s0.inodes[i].size && Progress(sb, s0, s, i, src, off, off + |src|)
    ensures Wrote(sb, s0, SetSize(s, i, Max(s0.inodes[i].size, off + |src|)), i, src, off)
  {
    hide Owned, Injective, UsedSet;
    var lim := Max(s0.inodes[i].size, off + |src|);
    var s' := SetSize(s, i, lim);
    SetSizeOwn(sb, s, i, lim);
    assert WrittenUpTo(s0, s', i, src, off, off + |src|, lim);
    WrittenIsSplice(s0, s', i, src, off, lim);
  }

  // ---- what a write logs ----

  function Ceil(x: nat): nat {
    (x + BSIZE - 1) / BSIZE
  }

  // Blocks that positions off..p touch.
  function Touched(off: nat, p: nat): nat
    requires off <= p
  {
    if p == off then 0 else (p - 1) / BSIZE - off / BSIZE + 1
  }

  // Blocks allocated when a file without holes grows from size to lim bytes.
  function Grown(size: nat, lim: nat): nat
    requires size <= lim
  {
    Ceil(lim) - Ceil(size) + if size <= NDIRECT * BSIZE < lim then 1 else 0
  }

  // Blocks that bmap must allocate for slot bn.
  function Need(s: Fs, i: nat, bn: nat): nat {
    if At(s, i, bn) != 0 then 0 else if bn < NDIRECT || At(s, i, IND) != 0 then 1 else 2
  }

  lemma GrownStep(size: nat, lim: nat, bn: nat, m: nat)
    requires size <= lim && lim == bn * BSIZE && 0 < m <= BSIZE
    ensures Grown(size, lim + m) == Grown(size, lim) + 1 + if bn == NDIRECT then 1 else 0
  {
  }

  // A file without holes needs exactly the blocks it grows by.
  lemma NeedGrows(s: Fs, i: nat, size: nat, p: nat, m: nat)
    requires 0 < m <= BSIZE - p % BSIZE && p / BSIZE < MAXFILE && MappedTo(s, i, Max(size, p))
    ensures Grown(size, Max(size, p)) + Need(s, i, p / BSIZE) == Grown(size, Max(size, p + m))
  {
    var bn := p / BSIZE;
    if At(s, i, bn) == 0 {
      assert Max(size, p) == p == bn * BSIZE;
      GrownStep(size, p, bn, m);
    } else {
      SameCeil(Max(size, p), p + m, bn);
    }
  }

  lemma SameCeil(lim: nat, q: nat, bn: nat)
    requires bn * BSIZE < lim && q <= (bn + 1) * BSIZE
    ensures Ceil(Max(lim, q)) == Ceil(lim) && (NDIRECT * BSIZE < Max(lim, q) <==> NDIRECT * BSIZE < lim)
  {
  }

  lemma GrownMonotone(size: nat, a: nat, b: nat)
    requires size <= a <= b
    ensures Grown(size, a) <= Grown(size, b)
  {
  }

  ghost function IndSet(s: Fs, i: nat): set<nat> {
    if At(s, i, IND) == 0 then {} else {At(s, i, IND)}
  }

  // The blocks that bmap allocates.
  ghost function NewBlocks(s: Fs, t: Fs, i: nat, bn: nat): set<nat> {
    (if At(s, i, bn) != 0 then {} else {At(t, i, bn)}) + (IndSet(t, i) - IndSet(s, i))
  }

  lemma MappedStay(sb: Super, s: Fs, t: Fs, i: nat, bn: nat, addr: nat, b: nat)
    requires i in s.inodes && bn < IND && Mapped(sb, s, t, i, bn, addr) && b in Owned(s)
    ensures b in Owned(t) && b !in NewBlocks(s, t, i, bn)
  {
    hide UsedSet, Keeps;
    var j, k :| j in s.inodes && 0 <= k <= IND && At(s, j, k) != 0 && At(s, j, k) == b;
    assert At(t, j, k) == b;
  }

  lemma MappedCome(sb: Super, s: Fs, t: Fs, i: nat, bn: nat, addr: nat, b: nat)
    requires i in s.inodes && bn < IND && Mapped(sb, s, t, i, bn, addr) && b in Owned(t)
    ensures b in Owned(s) || b in NewBlocks(s, t, i, bn)
  {
    hide UsedSet, Keeps, Injective;
    var j, k :| j in t.inodes && 0 <= k <= IND && At(t, j, k) != 0 && At(t, j, k) == b;
    if At(s, j, k) == b {
      OwnedSlot(s, j, k);
    }
  }

  lemma MappedOwned(sb: Super, s: Fs, t: Fs, i: nat, bn: nat, addr: nat)
    requires i in s.inodes && bn < IND && Mapped(sb, s, t, i, bn, addr)
    ensures Owned(t) == Owned(s) + NewBlocks(s, t, i, bn) && NewBlocks(s, t, i, bn) !! Owned(s)
  {
    var more := NewBlocks(s, t, i, bn);
    forall b | b in more ensures b in Owned(t) {
      assert At(t, i, bn) == b || At(t, i, IND) == b;
      OwnedSlot(t, i, if At(t, i, bn) == b then bn else IND);
    }
    hide Own, Mapped, Owned, NewBlocks;
    forall b | b in Owned(s) ensures b in Owned(t) && b !in more {
      MappedStay(sb, s, t, i, bn, addr, b);
    }
    forall b | b in Owned(t) ensures b in Owned(s) + more {
      MappedCome(sb, s, t, i, bn, addr, b);
    }
  }

  lemma NeedCount(sb: Super, s: Fs, t: Fs, i: nat, bn: nat, addr: nat)
    requires Mapped(sb, s, t, i, bn, addr) && bn < IND
    ensures |NewBlocks(s, t, i, bn)| == Need(s, i, bn)
  {
    if At(s, i, bn) == 0 {
      if bn < NDIRECT || At(s, i, IND) != 0 {
        assert NewBlocks(s, t, i, bn) == {addr};
      } else {
        assert NewBlocks(s, t, i, bn) == {addr, At(t, i, IND)};
        assert addr != At(t, i, IND);
      }
    } else {
      assert NewBlocks(s, t, i, bn) == {};
    }
  }

  lemma MappedUsed(sb: Super, s: Fs, t: Fs, i: nat, bn: nat, addr: nat)
    requires Own(sb, s, {}) && i in s.inodes && bn < IND && Mapped(sb, s, t, i, bn, addr)
    ensures UsedSet(sb, t.data) == UsedSet(sb, s.data) + NewBlocks(s, t, i, bn)
    ensures NewBlocks(s, t, i, bn) !! UsedSet(sb, s.data)
    ensures |UsedSet(sb, t.data)| == |UsedSet(sb, s.data)| + Need(s, i, bn)
  {
    MappedOwned(sb, s, t, i, bn, addr);
    NeedCount(sb, s, t, i, bn, addr);
    hide Owned, UsedSet, NewBlocks;
    UsedGrows(sb, s, t, NewBlocks(s, t, i, bn));
  }

  lemma ReadyUsed(sb: Super, s: Fs, t: Fs, i: nat)
    requires Own(sb, s, {}) && i in s.inodes && IndirectReady(sb, s, t, i)
    ensures |UsedSet(sb, t.data)| == |UsedSet(sb, s.data)| + if At(s, i, IND) == 0 then 1 else 0
  {
    if At(s, i, IND) == 0 {
      var ind := At(t, i, IND);
      forall b | b in Owned(s) ensures b in Owned(t) && b != ind {
        var j, k :| j in s.inodes && 0 <= k <= IND && At(s, j, k) != 0 && At(s, j, k) == b;
        assert At(t, j, k) == b;
      }
      forall b | b in Owned(t) ensures b in Owned(s) || b == ind {
        var j, k :| j in t.inodes && 0 <= k <= IND && At(t, j, k) != 0 && At(t, j, k) == b;
        if At(s, j, k) == b {
          OwnedSlot(s, j, k);
        }
      }
      OwnedSlot(t, i, IND);
      assert Owned(t) == Owned(s) + {ind};
      UsedGrows(sb, s, t, {ind});
    }
  }

  // Without a free block for the entry there were too few for the entry and its indirect block.
  lemma EntryRoom(sb: Super, s: Fs, t: Fs, i: nat, bn: nat)
    requires Own(sb, s, {}) && i in s.inodes && IndirectReady(sb, s, t, i) && NDIRECT <= bn && At(s, i, bn) == 0
    ensures |FreeBlocks(sb, t.data)| == 0 ==> |FreeBlocks(sb, s.data)| < Need(s, i, bn)
  {
    hide UsedSet, FreeBlocks;
    ReadyUsed(sb, s, t, i);
    FreeCount(sb, s.data);
    FreeCount(sb, t.data);
  }

  // The blocks that bmap logs.
  ghost function MapLogs(sb: Super, s: Fs, s': Fs, i: nat, bn: nat): set<nat> {
    if At(s, i, bn) != 0 then {} else
    {BBlock(sb, At(s', i, bn)), At(s', i, bn)}
    + (if bn < NDIRECT then {} else
       {At(s', i, IND)} + if At(s, i, IND) != 0 then {} else {BBlock(sb, At(s', i, IND))})
  }

  // The indirect block, if an entry of it was set.
  ghost function EntryLogs(s: Fs, t: Fs, i: nat, bn: nat): set<nat> {
    if At(s, i, bn) != 0 || bn < NDIRECT then {} else {At(t, i, IND)}
  }

  lemma MapLogsAre(sb: Super, s: Fs, t: Fs, i: nat, bn: nat, addr: nat)
    requires Mapped(sb, s, t, i, bn, addr) && bn < IND
    ensures MapLogs(sb, s, t, i, bn)
            == NewBlocks(s, t, i, bn) + MapBlocks(sb, NewBlocks(s, t, i, bn)) + EntryLogs(s, t, i, bn)
  {
    hide Own, Keeps, UsedSet, BBlock;
    var more := NewBlocks(s, t, i, bn);
    if At(s, i, bn) != 0 {
      assert more == {};
    } else if bn < NDIRECT || At(s, i, IND) != 0 {
      assert more == {addr};
      assert MapBlocks(sb, more) == {BBlock(sb, addr)};
    } else {
      var ind := At(t, i, IND);
      assert more == {addr, ind};
      assert MapBlocks(sb, more) == {BBlock(sb, addr), BBlock(sb, ind)};
    }
  }

  // The blocks in use in s and not in s0.
  ghost function News(sb: Super, s0: Fs, s: Fs): set<nat> {
    UsedSet(sb, s.data) - UsedSet(sb, s0.data)
  }

  // The content blocks that positions off to p touch.
  ghost function DataSet(s: Fs, i: nat, off: nat, p: nat): set<nat>
    requires off <= p
  {
    if p == off then {} else Slots(s, i, off / BSIZE, Ceil(p))
  }

  // The indirect block, if the file has grown by entries of it.
  ghost function EntrySet(size: nat, s: Fs, i: nat, p: nat): set<nat> {
    var lim := Max(size, p);
    if NDIRECT * BSIZE < lim && Ceil(size) < Ceil(lim) then {At(s, i, IND)} else {}
  }

  // What writing positions off to p of file i logs: the content blocks, the blocks allocated, their bitmap
  // blocks, and the indirect block when entries are added.
  ghost function WroteLogs(sb: Super, s0: Fs, s: Fs, i: nat, off: nat, p: nat): set<nat>
    requires i in s0.inodes && off <= p
  {
    DataSet(s, i, off, p) + News(sb, s0, s) + MapBlocks(sb, News(sb, s0, s)) + EntrySet(s0.inodes[i].size, s, i, p)
  }

  // How many blocks have been allocated at position p, and what has been logged since l0.
  ghost predicate Tally(sb: Super, l0: set<nat>, l: set<nat>, s0: Fs, s: Fs, i: nat, off: nat, p: nat)
    requires i in s0.inodes && off <= p
  {
    && UsedSet(sb, s0.data) <= UsedSet(sb, s.data)
    && |UsedSet(sb, s.data)| == |UsedSet(sb, s0.data)| + Grown(s0.inodes[i].size, Max(s0.inodes[i].size, p))
    && News(sb, s0, s) <= DataSet(s, i, off, p) + IndSet(s, i)
    && l == l0 + WroteLogs(sb, s0, s, i, off, p)
  }

  lemma TallyStart(sb: Super, l0: set<nat>, s0: Fs, i: nat, off: nat)
    requires i in s0.inodes && off <= s0.inodes[i].size
    ensures Tally(sb, l0, l0, s0, s0, i, off, off)
  {
  }

  lemma DataSetStep(sb: Super, s: Fs, t: Fs, i: nat, off: nat, p: nat, m: nat, addr: nat)
    requires off <= p && (p == off || p % BSIZE == 0) && 0 < m <= BSIZE - p % BSIZE
    requires Mapped(sb, s, t, i, p / BSIZE, addr) && p / BSIZE < IND
    ensures DataSet(t, i, off, p + m) == DataSet(s, i, off, p) + {addr}
  {
    var bn := p / BSIZE;
    assert Ceil(p + m) == bn + 1;
    assert p > off ==> Ceil(p) == bn;
    assert At(t, i, bn) == addr;
    forall k: nat | k < bn ensures At(t, i, k) == At(s, i, k) {
    }
    forall k | off / BSIZE <= k < bn + 1 && p > off && k < bn ensures At(s, i, k) in DataSet(s, i, off, p) {
    }
  }

  lemma EntrySetStep(sb: Super, size: nat, s: Fs, t: Fs, i: nat, p: nat, m: nat, addr: nat)
    requires 0 < m <= BSIZE - p % BSIZE && p / BSIZE < MAXFILE && MappedTo(s, i, Max(size, p))
    requires Mapped(sb, s, t, i, p / BSIZE, addr)
    ensures EntrySet(size, t, i, p + m) == EntrySet(size, s, i, p) + EntryLogs(s, t, i, p / BSIZE)
  {
    hide Own, Keeps, UsedSet, Injective;
    var bn := p / BSIZE;
    if At(s, i, bn) == 0 {
      assert Max(size, p) == p == bn * BSIZE;
    } else {
      SameCeil(Max(size, p), p + m, bn);
    }
  }

  lemma NewsStep(sb: Super, s0: Fs, s: Fs, t: Fs, more: set<nat>)
    requires UsedSet(sb, s0.data) <= UsedSet(sb, s.data)
    requires UsedSet(sb, t.data) == UsedSet(sb, s.data) + more && more !! UsedSet(sb, s.data)
    ensures News(sb, s0, t) == News(sb, s0, s) + more
    ensures MapBlocks(sb, News(sb, s0, t)) == MapBlocks(sb, News(sb, s0, s)) + MapBlocks(sb, more)
  {
    hide UsedSet;
    assert News(sb, s0, t) == News(sb, s0, s) + more;
    MapBlocksUnion(sb, News(sb, s0, s), more);
  }

  lemma WroteLogsStep(sb: Super, s0: Fs, s: Fs, t: Fs, i: nat, off: nat, p: nat, m: nat, addr: nat)
    requires i in s0.inodes && off <= p && i in s.inodes && Own(sb, s, {})
    requires (p == off || p % BSIZE == 0) && 0 < m <= BSIZE - p % BSIZE && p / BSIZE < MAXFILE
    requires MappedTo(s, i, Max(s0.inodes[i].size, p)) && Mapped(sb, s, t, i, p / BSIZE, addr)
    requires UsedSet(sb, s0.data) <= UsedSet(sb, s.data)
    ensures WroteLogs(sb, s0, t, i, off, p + m)
            == WroteLogs(sb, s0, s, i, off, p) + MapLogs(sb, s, t, i, p / BSIZE) + {addr}
  {
    hide Own, Mapped, MappedTo, NewBlocks, MapBlocks, News, DataSet, EntrySet, EntryLogs, MapLogs, UsedSet, At;
    var more := NewBlocks(s, t, i, p / BSIZE);
    MappedUsed(sb, s, t, i, p / BSIZE, addr);
    NewsStep(sb, s0, s, t, more);
    DataSetStep(sb, s, t, i, off, p, m, addr);
    EntrySetStep(sb, s0.inodes[i].size, s, t, i, p, m, addr);
    MapLogsAre(sb, s, t, i, p / BSIZE, addr);
    Regroup(DataSet(s, i, off, p), News(sb, s0, s), MapBlocks(sb, News(sb, s0, s)),
            EntrySet(s0.inodes[i].size, s, i, p), more, MapBlocks(sb, more), EntryLogs(s, t, i, p / BSIZE), addr);
  }

  lemma Regroup(d: set<nat>, n: set<nat>, b: set<nat>, e: set<nat>, n': set<nat>, b': set<nat>, e': set<nat>, addr: nat)
    ensures (d + {addr}) + (n + n') + (b + b') + (e + e') == (d + n + b + e) + (n' + b' + e') + {addr}
  {
  }

  lemma NewsInData(sb: Super, s0: Fs, s: Fs, t: Fs, i: nat, off: nat, p: nat, m: nat, addr: nat)
    requires i in s0.inodes && off <= p && News(sb, s0, s) <= DataSet(s, i, off, p) + IndSet(s, i)
    requires News(sb, s0, t) == News(sb, s0, s) + NewBlocks(s, t, i, p / BSIZE)
    requires DataSet(t, i, off, p + m) == DataSet(s, i, off, p) + {addr}
    requires Mapped(sb, s, t, i, p / BSIZE, addr)
    ensures News(sb, s0, t) <= DataSet(t, i, off, p + m) + IndSet(t, i)
  {
    hide Own, Keeps, UsedSet, News, DataSet;
  }

  // One round: bmap and the log_write of the content block.
  lemma TallyRound(sb: Super, l0: set<nat>, l: set<nat>, s0: Fs, s: Fs, t: Fs, i: nat, off: nat, p: nat, m: nat,
                   addr: nat)
    requires i in s0.inodes && off <= p && i in s.inodes && Own(sb, s, {}) && Tally(sb, l0, l, s0, s, i, off, p)
    requires (p == off || p % BSIZE == 0) && 0 < m <= BSIZE - p % BSIZE && p / BSIZE < MAXFILE
    requires MappedTo(s, i, Max(s0.inodes[i].size, p)) && Mapped(sb, s, t, i, p / BSIZE, addr)
    ensures Tally(sb, l0, l + MapLogs(sb, s, t, i, p / BSIZE) + {addr}, s0, t, i, off, p + m)
  {
    hide Own, Mapped, MappedTo, NewBlocks, MapLogs, News, DataSet, WroteLogs, UsedSet, Grown, Need, IndSet, At;
    MappedUsed(sb, s, t, i, p / BSIZE, addr);
    NeedGrows(s, i, s0.inodes[i].size, p, m);
    NewsStep(sb, s0, s, t, NewBlocks(s, t, i, p / BSIZE));
    DataSetStep(sb, s, t, i, off, p, m, addr);
    NewsInData(sb, s0, s, t, i, off, p, m, addr);
    WroteLogsStep(sb, s0, s, t, i, off, p, m, addr);
    var old_, more := WroteLogs(sb, s0, s, i, off, p), MapLogs(sb, s, t, i, p / BSIZE);
    assert l0 + old_ + more + {addr} == l0 + (old_ + more + {addr});
  }

  // Neither overwriting a content block nor setting the size changes what has been logged or allocated.
  lemma TallySame(sb: Super, l0: set<nat>, l: set<nat>, s0: Fs, s: Fs, t: Fs, i: nat, off: nat, p: nat)
    requires i in s0.inodes && off <= p && Tally(sb, l0, l, s0, s, i, off, p)
    requires UsedSet(sb, t.data) == UsedSet(sb, s.data) && forall j: nat, k: nat :: At(t, j, k) == At(s, j, k)
    ensures Tally(sb, l0, l, s0, t, i, off, p) && WroteLogs(sb, s0, t, i, off, p) == WroteLogs(sb, s0, s, i, off, p)
  {
    assert DataSet(t, i, off, p) == DataSet(s, i, off, p);
  }

  // ---- the cost of a write ----

  // A bound on the distinct blocks logged by writing n bytes at off to a file of the given size:
  // content blocks, bitmap blocks, the indirect block, the inode block.
  function LogCost(size: nat, off: nat, n: nat): nat {
    Touched(off, off + n) + Grown(size, Max(size, off + n)) + 2
  }

  ghost function Slots(s: Fs, i: nat, lo: nat, hi: nat): set<nat> {
    set k | lo <= k < hi :: At(s, i, k)
  }

  lemma {:induction false} SlotsCard(s: Fs, i: nat, lo: nat, hi: nat)
    requires lo <= hi
    ensures |Slots(s, i, lo, hi)| <= hi - lo
    decreases hi - lo
  {
    if lo < hi {
      SlotsCard(s, i, lo, hi - 1);
      assert Slots(s, i, lo, hi) == Slots(s, i, lo, hi - 1) + {At(s, i, hi - 1)};
    } else {
      assert Slots(s, i, lo, hi) == {};
    }
  }

  lemma DataSetCard(s: Fs, i: nat, off: nat, p: nat)
    requires off <= p
    ensures |DataSet(s, i, off, p)| <= Touched(off, p)
  {
    if off < p {
      SlotsCard(s, i, off / BSIZE, Ceil(p));
    }
  }

  // The blocks logged, with the inode's block ib, are no more than the cost.
  lemma LogsBound(sb: Super, l0: set<nat>, l: set<nat>, s0: Fs, s: Fs, i: nat, off: nat, n: nat, ib: nat)
    requires i in s0.inodes && Tally(sb, l0, l, s0, s, i, off, off + n)
    ensures |l + {ib} - l0| <= LogCost(s0.inodes[i].size, off, n) && |l - l0| <= LogCost(s0.inodes[i].size, off, n)
  {
    hide Touched, Grown, MapBlocks, News, UsedSet, DataSet, At;
    var p := off + n;
    DataSetCard(s, i, off, p);
    MapBlocksCard(sb, News(sb, s0, s));
    NewsCard(sb, s0, s);
    var datas, maps := DataSet(s, i, off, p), MapBlocks(sb, News(sb, s0, s));
    var bound := datas + maps + {At(s, i, IND)} + {ib};
    assert |bound| <= |datas| + |maps| + 2;
    WithinBound(l0, l, datas, News(sb, s0, s), maps, EntrySet(s0.inodes[i].size, s, i, p), At(s, i, IND), ib);
    SubsetSize(l + {ib} - l0, bound);
    SubsetSize(l - l0, bound);
  }

  lemma WithinBound(l0: set<nat>, l: set<nat>, datas: set<nat>, news: set<nat>, maps: set<nat>, entry: set<nat>,
                    ind: nat, ib: nat)
    requires l == l0 + (datas + news + maps + entry) && news <= datas + {ind} && entry <= {ind}
    ensures l + {ib} - l0 <= datas + maps + {ind} + {ib}
  {
  }

  lemma NewsCard(sb: Super, s0: Fs, s: Fs)
    requires UsedSet(sb, s0.data) <= UsedSet(sb, s.data)
    ensures |News(sb, s0, s)| == |UsedSet(sb, s.data)| - |UsedSet(sb, s0.data)|
  {
    hide UsedSet;
    assert UsedSet(sb, s.data) == UsedSet(sb, s0.data) + News(sb, s0, s);
  }

  lemma SubsetSize(a: set<nat>, b: set<nat>)
    requires a <= b
    ensures |a| <= |b|
  {
    assert b == a + (b - a);
  }

  // filewrite's chunk.
  const CHUNK: nat := (MAXOPBLOCKS - 1 - 1 - 2) / 2 * 512

  // A chunk keeps within the log's budget for one operation, wherever it starts.
  lemma ChunkFits(size: nat, off: nat, n: nat)
    requires off <= size && n <= CHUNK
    ensures LogCost(size, off, n) <= MAXOPBLOCKS
  {
  }
}
