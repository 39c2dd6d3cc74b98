/** The block allocator and the inode content operations of fs.c, on the disk contents that the
    buffer cache presents. A kernel panic is reported in an out-parameter. */
module FsCode {
  import opened Params
  import opened Blocks
  import opened Bitmap
  import opened InodeMap
  import opened FileBytes
  import opened Truncate

  class FileSystem {
    const sb: Super
    var data: Data                   // the disk blocks
    var inodes: map<nat, Inode>      // the in-memory inodes
    var dinodes: map<nat, Inode>     // the inodes on disk
    ghost var logged: set<nat>       // blocks passed to log_write in the current operation

    constructor (sb: Super, data: Data, inodes: map<nat, Inode>)
      ensures this.sb == sb && this.data == data && this.inodes == inodes && dinodes == inodes && logged == {}
    {
      this.sb, this.data, this.inodes, dinodes := sb, data, inodes, inodes;
      logged := {};
    }

    ghost function St(): Fs
      reads this
    {
      Fs(data, inodes)
    }

    // balloc's search: bitmap block by bitmap block, bit by bit.
    method FindFree() returns (found: bool, b: nat)
      requires Geometry(sb, data)
      ensures found <==> !Full(sb, data)
      ensures found ==> b < sb.size && !Used(sb, data, b) && forall c :: 0 <= c < b ==> Used(sb, data, c)
    {
      hide TestBit;
      b := 0;
      var base := 0;
      ghost var q := 0;
      while base < sb.size
        invariant base == q * BPB
        invariant forall c :: 0 <= c < base && c < sb.size ==> Used(sb, data, c)
        decreases sb.size - base
      {
        BBlockInRange(sb, data, base);
        var bp := data[BBlock(sb, base)];
        var bi := 0;
        while bi < BPB && base + bi < sb.size
          invariant 0 <= bi <= BPB
          invariant forall c :: 0 <= c < base + bi && c < sb.size ==> Used(sb, data, c)
        {
          SameBitmapBlock(sb, q, bi);
          if !TestBit(bp[bi / 8], bi % 8) {
            assert !Used(sb, data, base + bi);
            return true, base + bi;
          }
          bi := bi + 1;
        }
        base := base + BPB;
        q := q + 1;
      }
      found := false;
    }

    // The lowest free block, its bit set and its bytes cleared.
    method Balloc() returns (panicked: bool, b: nat)
      requires Geometry(sb, data)
      modifies this`data, this`logged
      ensures panicked <==> old(Full(sb, data))
      ensures panicked ==> old(|FreeBlocks(sb, data)|) == 0
      ensures !panicked ==>
                && b < sb.size && b !in old(UsedSet(sb, data))
                && forall c :: 0 <= c < b ==> old(Used(sb, data, c))
      ensures !panicked ==> BBlock(sb, b) < |old(data)| && data == Alloc(sb, old(data), b)
      ensures panicked ==> data == old(data)
      ensures logged == old(logged) + if panicked then {} else {BBlock(sb, b), b}
      ensures ThroughLog(old(data), old(logged), data, logged)
    {
      var found;
      found, b := FindFree();
      FreeCount(sb, data);
      if !found {
        return true, b;
      }
      BBlockInRange(sb, data, b);
      data := data[BBlock(sb, b) := WithBit(data[BBlock(sb, b)], b % BPB, true)];
      logged := logged + {BBlock(sb, b)};
      data := data[b := ZeroBlock()];
      logged := logged + {b};
      panicked := false;
    }

    // Clears the block's bit.
    method Bfree(b: nat) returns (panicked: bool)
      requires BBlock(sb, b) < |data|
      modifies this`data, this`logged
      ensures panicked <==> !old(Used(sb, data, b))
      ensures data == if panicked then old(data) else Mark(sb, old(data), b, false)
      ensures logged == old(logged) + if panicked then {} else {BBlock(sb, b)}
      ensures ThroughLog(old(data), old(logged), data, logged)
    {
      var bp := data[BBlock(sb, b)];
      var bi := b % BPB;
      if !TestBit(bp[bi / 8], bi % 8) {
        return true;
      }
      data := data[BBlock(sb, b) := WithBit(bp, bi, false)];
      logged := logged + {BBlock(sb, b)};
      panicked := false;
    }

    // The disk inode becomes the in-memory one.
    method Iupdate(i: nat)
      requires i in inodes
      modifies this`dinodes, this`logged
      ensures dinodes == old(dinodes)[i := inodes[i]]
      ensures logged == old(logged) + {IBlock(sb, i)}
    {
      dinodes := dinodes[i := inodes[i]];
      logged := logged + {IBlock(sb, i)};
    }

    method BmapDirect(i: nat, bn: nat) returns (panicked: bool, addr: nat)
      requires Own(sb, St(), {}) && i in inodes && bn < NDIRECT
      modifies this`data, this`inodes, this`logged
      ensures !panicked ==> Mapped(sb, old(St()), St(), i, bn, addr)
      ensures !panicked ==> logged == old(logged) + MapLogs(sb, old(St()), St(), i, bn)
      ensures panicked ==> old(At(St(), i, bn)) == 0 && old(|FreeBlocks(sb, data)|) == 0
      ensures ThroughLog(old(data), old(logged), data, logged)
    {
      NothingLogged(data, logged);
      hide UsedSet, Used, FreeBlocks, Full, Keeps, Owned, Injective, ThroughLog;
      ghost var s := St();
      var ip: Inode := inodes[i];
      addr := ip.addrs[bn];
      panicked := false;
      if addr == 0 {
        panicked, addr := Balloc();
        if panicked {
          return;
        }
        inodes := inodes[i := Inode(ip.size, ip.addrs[bn := addr])];
        MapDirect(sb, s, i, bn, addr);
      } else {
        AlreadyMapped(sb, s, i, bn);
      }
    }

    // The indirect block of inode i, made if need be.
    method LoadIndirect(i: nat) returns (panicked: bool, ind: nat)
      requires Own(sb, St(), {}) && i in inodes
      modifies this`data, this`inodes, this`logged
      ensures !panicked ==> IndirectReady(sb, old(St()), St(), i) && ind == At(St(), i, IND)
      ensures !panicked ==> logged == old(logged) + if old(At(St(), i, IND)) == 0 then {BBlock(sb, ind), ind} else {}
      ensures panicked ==> old(At(St(), i, IND)) == 0 && old(|FreeBlocks(sb, data)|) == 0
      ensures ThroughLog(old(data), old(logged), data, logged)
    {
      NothingLogged(data, logged);
      hide UsedSet, Used, FreeBlocks, Full, Keeps, Owned, Injective, ThroughLog;
      ghost var s := St();
      var ip: Inode := inodes[i];
      ind := ip.addrs[NDIRECT];
      panicked := false;
      if ind == 0 {
        panicked, ind := Balloc();
        if panicked {
          return;
        }
        inodes := inodes[i := Inode(ip.size, ip.addrs[NDIRECT := ind])];
        MapIndirect(sb, s, i, ind);
      } else {
        AlreadyReady(sb, s, i);
      }
    }

    // A block for the empty entry j of the indirect block ind.
    method NewEntry(i: nat, j: nat, ind: nat, ghost s: Fs) returns (panicked: bool, addr: nat)
      requires IndirectReady(sb, s, St(), i) && i in s.inodes && j < NINDIRECT && At(s, i, NDIRECT + j) == 0
      requires ind == At(St(), i, IND)
      modifies this`data, this`logged
      ensures panicked ==> old(|FreeBlocks(sb, data)|) == 0
      ensures !panicked ==> Mapped(sb, s, St(), i, NDIRECT + j, addr) && At(St(), i, IND) == ind
      ensures !panicked ==> logged == old(logged) + {BBlock(sb, addr), addr, ind}
      ensures ThroughLog(old(data), old(logged), data, logged)
    {
      hide GetWord, PutWord, Keeps, Injective, Owned, Mark, UsedSet, Used, FreeBlocks, Full, ThroughLog;
      ghost var t := St();
      OwnedFacts(sb, t, {}, i, IND);
      panicked, addr := Balloc();
      if panicked {
        return;
      }
      MapEntry(sb, s, t, i, j, addr);
      AllocSlots(sb, t, {}, addr);
      PutLogged(old(data), old(logged), data, logged, ind, PutWord(data[ind], j, addr));
      data := data[ind := PutWord(data[ind], j, addr)];
      logged := logged + {ind};
    }

    method BmapIndirect(i: nat, j: nat) returns (panicked: bool, addr: nat)
      requires Own(sb, St(), {}) && i in inodes && j < NINDIRECT
      modifies this`data, this`inodes, this`logged
      ensures !panicked ==> Mapped(sb, old(St()), St(), i, NDIRECT + j, addr)
      ensures !panicked ==> logged == old(logged) + MapLogs(sb, old(St()), St(), i, NDIRECT + j)
      ensures panicked ==> old(At(St(), i, NDIRECT + j)) == 0
      ensures panicked ==> old(|FreeBlocks(sb, data)|) < old(Need(St(), i, NDIRECT + j))
      ensures ThroughLog(old(data), old(logged), data, logged)
    {
      hide GetWord, PutWord, Keeps, Injective, Owned, Mark, UsedSet, Used, FreeBlocks, Full, ThroughLog;
      ghost var s := St();
      addr := 0;
      var ind;
      panicked, ind := LoadIndirect(i);
      if panicked {
        return;
      }
      ghost var t := St();
      OwnedFacts(sb, t, {}, i, IND);
      addr := GetWord(data[ind], j);
      assert addr == At(t, i, NDIRECT + j);
      if addr == 0 {
        EntryRoom(sb, s, t, i, NDIRECT + j);
        ghost var l := logged;
        panicked, addr := NewEntry(i, j, ind, s);
        LoggedTwice(s.data, old(logged), t.data, l, data, logged);
      } else {
        AlreadyMapped(sb, s, i, NDIRECT + j);
      }
    }

    // Return the disk block address of the nth block in inode i, allocating if there is none.
    method Bmap(i: nat, bn: nat) returns (panicked: bool, addr: nat)
      requires Own(sb, St(), {}) && i in inodes
      modifies this`data, this`inodes, this`logged
      ensures !panicked ==> bn < MAXFILE && Mapped(sb, old(St()), St(), i, bn, addr)
      ensures !panicked ==> logged == old(logged) + MapLogs(sb, old(St()), St(), i, bn)
      ensures panicked ==> bn >= MAXFILE || old(|FreeBlocks(sb, data)|) < old(Need(St(), i, bn))
      ensures ThroughLog(old(data), old(logged), data, logged)
    {
      NothingLogged(data, logged);
      hide Own, Mapped, MapLogs, ThroughLog, FreeBlocks;
      if bn < NDIRECT {
        panicked, addr := BmapDirect(i, bn);
      } else if bn - NDIRECT < NINDIRECT {
        panicked, addr := BmapIndirect(i, bn - NDIRECT);
      } else {
        panicked, addr := true, 0;
      }
    }

    // One round of readi's loop.
    method ReadRoundAt(i: nat, pos: nat, m: nat) returns (panicked: bool, piece: seq<Byte>)
      requires Own(sb, St(), {}) && i in inodes && NoHoles(St(), i)
      requires 0 < m <= BSIZE - pos % BSIZE && pos + m <= inodes[i].size
      modifies this`data, this`inodes, this`logged
      ensures !panicked && St() == old(St()) && logged == old(logged)
      ensures piece == Contents(St(), i)[pos..pos + m]
    {
      var addr;
      panicked, addr := Bmap(i, pos / BSIZE);
      OwnedFacts(sb, St(), {}, i, pos / BSIZE);
      var bp := data[addr];
      piece := bp[pos % BSIZE..pos % BSIZE + m];
      ReadRound(St(), i, pos, m);
    }

    // n bytes of the file at off, clipped to the size of the file.
    method ReadI(i: nat, off: nat, n: nat) returns (panicked: bool, r: int, dst: seq<Byte>)
      requires off < UINT && n < UINT
      requires Own(sb, St(), {}) && i in inodes && NoHoles(St(), i)
      modifies this`data, this`inodes, this`logged
      ensures !panicked
      ensures St() == old(St()) && logged == old(logged)
      ensures r == -1 <==> off > inodes[i].size || off + n >= UINT
      ensures r != -1 ==> r == |dst| && dst == Contents(St(), i)[off..Min(off + n, inodes[i].size)]
    {
      hide Own, NoHoles, ByteAt;
      panicked, dst := false, [];
      var size := inodes[i].size;
      if off > size || (off + n) % UINT < off {
        return false, -1, [];
      }
      var count := n;
      if off + n > size {
        count := size - off;
      }
      ghost var c := Contents(St(), i);
      var tot := 0;
      while tot < count
        invariant tot <= count
        invariant St() == old(St()) && logged == old(logged)
        invariant !panicked && dst == c[off..off + tot]
      {
        var pos := off + tot;
        var m := Min(count - tot, BSIZE - pos % BSIZE);
        var piece;
        panicked, piece := ReadRoundAt(i, pos, m);
        dst := dst + piece;
        assert c[off..pos + m] == c[off..pos] + c[pos..pos + m];
        tot := tot + m;
      }
      r := count;
    }

    // One round of writei's loop, at position p of a write of src at off that began in state s0.
    method WriteRoundAt(i: nat, src: seq<Byte>, off: nat, p: nat, m: nat, ghost s0: Fs, ghost l0: set<nat>)
      returns (panicked: bool)
      requires i in s0.inodes && off <= p && p + m <= off + |src| <= MAXFILE * BSIZE
      requires (p == off || p % BSIZE == 0) && 0 < m <= BSIZE - p % BSIZE
      requires Progress(sb, s0, St(), i, src, off, p) && Tally(sb, l0, logged, s0, St(), i, off, p)
      modifies this`data, this`inodes, this`logged
      ensures panicked ==> |FreeBlocks(sb, s0.data)| < Grown(s0.inodes[i].size, Max(s0.inodes[i].size, p + m))
      ensures !panicked ==> Progress(sb, s0, St(), i, src, off, p + m)
      ensures !panicked ==> Tally(sb, l0, logged, s0, St(), i, off, p + m)
      ensures ThroughLog(old(data), old(logged), data, logged)
    {
      hide WrittenUpTo, OthersKept, Keeps, Injective, UsedSet, Used, ByteAt, Owned, At, Grown, Tally, MapLogs, Need,
           FreeBlocks, Mapped, Own, ThroughLog;
      ghost var s := St();
      RoomFor(sb, l0, logged, s0, s, i, src, off, p, m);
      var addr;
      panicked, addr := Bmap(i, p / BSIZE);
      if panicked {
        return;
      }
      ghost var t := St();
      ProgressRound(sb, s0, s, t, i, src, off, p, m, addr);
      RoundOthers(sb, s0, s, t, i, p, src[p - off..p - off + m], addr);
      TallyRound(sb, l0, old(logged), s0, s, t, i, off, p, m, addr);
      PutLogged(old(data), old(logged), data, logged, addr, Patch(data[addr], p % BSIZE, src[p - off..p - off + m]));
      data := data[addr := Patch(data[addr], p % BSIZE, src[p - off..p - off + m])];
      logged := logged + {addr};
      TallySame(sb, l0, logged, s0, t, St(), i, off, p + m);
    }

    // writei's loop.
    method WriteLoop(i: nat, src: seq<Byte>, off: nat) returns (panicked: bool)
      requires Own(sb, St(), {}) && i in inodes && NoHoles(St(), i)
      requires off <= inodes[i].size && off + |src| <= MAXFILE * BSIZE
      modifies this`data, this`inodes, this`logged
      ensures panicked ==>
                old(|FreeBlocks(sb, data)|) < Grown(old(inodes[i].size), Max(old(inodes[i].size), off + |src|))
      ensures !panicked ==> Progress(sb, old(St()), St(), i, src, off, off + |src|)
      ensures !panicked ==> Tally(sb, old(logged), logged, old(St()), St(), i, off, off + |src|)
      ensures ThroughLog(old(data), old(logged), data, logged)
    {
      ghost var s0 := St();
      ghost var l0 := logged;
      NothingLogged(data, logged);
      hide Progress, Own, NoHoles, Tally, Grown, FreeBlocks, ThroughLog;
      ProgressStarts(sb, s0, i, src, off);
      TallyStart(sb, l0, s0, i, off);
      panicked := false;
      var tot := 0;
      while tot < |src|
        invariant tot <= |src| && !panicked
        invariant tot == 0 || (off + tot) % BSIZE == 0 || tot == |src|
        invariant Progress(sb, s0, St(), i, src, off, off + tot)
        invariant Tally(sb, l0, logged, s0, St(), i, off, off + tot)
        invariant ThroughLog(s0.data, l0, data, logged)
      {
        ghost var d1, l1 := data, logged;
        var m := Min(|src| - tot, BSIZE - (off + tot) % BSIZE);
        GrownMonotone(s0.inodes[i].size, Max(s0.inodes[i].size, off + tot + m), Max(s0.inodes[i].size, off + |src|));
        panicked := WriteRoundAt(i, src, off, off + tot, m, s0, l0);
        LoggedTwice(s0.data, l0, d1, l1, data, logged);
        if panicked {
          return;
        }
        tot := tot + m;
      }
    }

    // src goes into the file at off. Fails without effect if off is beyond the end or the file would be
    // too large; panics exactly when the disk has too few free blocks; logs exactly OpLogs.
    method WriteI(i: nat, src: seq<Byte>, off: nat) returns (panicked: bool, r: int)
      requires off < UINT && |src| < UINT
      requires Own(sb, St(), {}) && i in inodes && NoHoles(St(), i)
      modifies this`data, this`inodes, this`dinodes, this`logged
      ensures panicked <==>
                && old(Fits(inodes[i].size, off, |src|))
                && old(|FreeBlocks(sb, data)|) < Grown(old(inodes[i].size), Max(old(inodes[i].size), off + |src|))
      ensures !panicked ==> r == if old(Fits(inodes[i].size, off, |src|)) then |src| else -1
      ensures r == -1 ==> !panicked && St() == old(St()) && dinodes == old(dinodes) && logged == old(logged)
      ensures !panicked && r != -1 ==> Wrote(sb, old(St()), St(), i, src, off)
      ensures !panicked && r != -1 ==> OthersRead(old(St()), St(), i)
      ensures !panicked && r != -1 && old(i in dinodes && dinodes[i] == inodes[i])
              ==> dinodes == old(dinodes)[i := inodes[i]]
      ensures !panicked && r != -1 ==> Allocated(sb, old(St()), St(), i, off + |src|)
      ensures !panicked && r != -1 ==> logged == old(logged) + OpLogs(sb, old(St()), St(), i, off, |src|)
      ensures !panicked && r != -1 ==> |logged - old(logged)| <= LogCost(old(inodes[i].size), off, |src|)
      // nothing is changed behind the log's back
      ensures ThroughLog(old(data), old(logged), data, logged) && (dinodes != old(dinodes) ==> IBlock(sb, i) in logged)
    {
      NothingLogged(data, logged);
      hide ThroughLog, Progress, Own, NoHoles, Tally, Wrote, LogCost, At, Grown, FreeBlocks, OpLogs, Allocated,
           OthersRead;
      if off > inodes[i].size || (off + |src|) % UINT < off {
        return false, -1;
      }
      if off + |src| > MAXFILE * BSIZE {
        return false, -1;
      }
      ghost var s0 := St();
      panicked := WriteLoop(i, src, off);
      if panicked {
        return true, 0;
      }
      ghost var s := St();
      ProgressEnds(sb, s0, s, i, src, off);
      ProgressInodes(sb, s0, s, i, src, off);
      LogsBound(sb, old(logged), logged, s0, s, i, off, |src|, IBlock(sb, i));
      TallyEnds(sb, old(logged), logged, s0, s, i, src, off);
      if |src| > 0 && off + |src| > inodes[i].size {
        inodes := inodes[i := Inode(off + |src|, inodes[i].addrs)];
        MoreLogged(old(data), old(logged), data, logged, IBlock(sb, i));
        Iupdate(i);
      } else {
        assert SetSize(s, i, inodes[i].size) == s;
      }
      r := |src|;
    }

    // itrunc's loop over the direct addresses.
    method FreeDirect(i: nat) returns (panicked: bool)
      requires Own(sb, St(), {}) && i in inodes
      modifies this`data, this`inodes, this`logged
      ensures !panicked
      ensures Freed(sb, old(St()), data, i, NDIRECT)
      ensures inodes == old(inodes)[i := DirectCleared(old(inodes[i]), NDIRECT)]
      ensures logged == old(logged) + SlotMaps(sb, old(St()), i, 0, NDIRECT)
      ensures ThroughLog(old(data), old(logged), data, logged)
    {
      ghost var s0 := St();
      NothingLogged(data, logged);
      hide Own, Freed, SlotMaps, Used, Mark, ThroughLog;
      FreedStart(sb, s0, i);
      SlotMapsNext(sb, s0, i, 0, 0);
      ClearedStart(inodes[i]);
      assert inodes == inodes[i := inodes[i]];
      hide DirectCleared;
      panicked := false;
      for k := 0 to NDIRECT
        invariant !panicked
        invariant Freed(sb, s0, data, i, k)
        invariant inodes == s0.inodes[i := DirectCleared(s0.inodes[i], k)]
        invariant logged == old(logged) + SlotMaps(sb, s0, i, 0, k)
        invariant ThroughLog(s0.data, old(logged), data, logged)
      {
        ghost var d1, l1 := data, logged;
        ClearedNext(s0.inodes[i], k);
        SlotMapsNext(sb, s0, i, 0, k);
        var ip: Inode := inodes[i];
        if ip.addrs[k] != 0 {
          NextIsUsed(sb, s0, data, i, k);
          FreeNext(sb, s0, data, i, k);
          panicked := Bfree(ip.addrs[k]);
          LoggedTwice(s0.data, old(logged), d1, l1, data, logged);
          inodes := inodes[i := Inode(ip.size, ip.addrs[k := 0])];
        } else {
          SkipNext(sb, s0, data, i, k);
        }
      }
    }

    // One entry a of the indirect block, in slot k.
    method FreeEntry(i: nat, k: nat, a: nat, ghost s0: Fs) returns (panicked: bool)
      requires Own(sb, s0, {}) && a == At(s0, i, k) && Freed(sb, s0, data, i, k)
      modifies this`data, this`logged
      ensures !panicked && Freed(sb, s0, data, i, k + 1)
      ensures logged == old(logged) + if a == 0 then {} else {BBlock(sb, a)}
      ensures ThroughLog(old(data), old(logged), data, logged)
    {
      NothingLogged(data, logged);
      hide Own, Freed, Used, Mark, At, ThroughLog;
      panicked := false;
      if a != 0 {
        NextIsUsed(sb, s0, data, i, k);
        FreeNext(sb, s0, data, i, k);
        panicked := Bfree(a);
      } else {
        SkipNext(sb, s0, data, i, k);
      }
    }

    // itrunc's loop over the entries of the indirect block ind.
    method FreeEntries(i: nat, ind: nat, ghost s0: Fs) returns (panicked: bool)
      requires Own(sb, s0, {}) && i in s0.inodes && ind == At(s0, i, IND) != 0
      requires Freed(sb, s0, data, i, NDIRECT)
      modifies this`data, this`logged
      ensures !panicked
      ensures Freed(sb, s0, data, i, IND)
      ensures logged == old(logged) + SlotMaps(sb, s0, i, NDIRECT, IND)
      ensures ThroughLog(old(data), old(logged), data, logged)
    {
      NothingLogged(data, logged);
      EntriesAre(sb, s0, data, i);
      var bp := data[ind];
      hide Own, Freed, GetWord, SlotMaps, At, ThroughLog;
      SlotMapsNext(sb, s0, i, NDIRECT, NDIRECT);
      panicked := false;
      for j := 0 to NINDIRECT
        invariant !panicked
        invariant Freed(sb, s0, data, i, NDIRECT + j)
        invariant logged == old(logged) + SlotMaps(sb, s0, i, NDIRECT, NDIRECT + j)
        invariant ThroughLog(old(data), old(logged), data, logged)
      {
        ghost var d1, l1 := data, logged;
        SlotMapsNext(sb, s0, i, NDIRECT, NDIRECT + j);
        panicked := FreeEntry(i, NDIRECT + j, GetWord(bp, j), s0);
        LoggedTwice(old(data), old(logged), d1, l1, data, logged);
      }
    }

    // Truncate inode: frees the blocks it owns and no others; never frees a free block.
    method Itrunc(i: nat) returns (panicked: bool)
      requires Own(sb, St(), {}) && i in inodes
      modifies this`data, this`inodes, this`dinodes, this`logged
      ensures !panicked
      ensures Truncated(sb, old(St()), St(), i)
      ensures dinodes == old(dinodes)[i := Empty]
      ensures logged == old(logged) + TruncLogs(sb, old(St()), i)
      ensures ThroughLog(old(data), old(logged), data, logged)
    {
      ghost var s0 := St();
      hide Own, Freed, Truncated, SlotMaps, Used, Mark, ThroughLog;
      SlotMapsJoin(sb, s0, i, 0, NDIRECT, SLOTS);
      panicked := FreeDirect(i);
      AllCleared(s0.inodes[i]);
      var ip: Inode := inodes[i];
      var ind := ip.addrs[NDIRECT];
      assert ind == At(s0, i, IND);
      if ind != 0 {
        ghost var d1, l1 := data, logged;
        panicked := FreeEntries(i, ind, s0);
        LoggedTwice(s0.data, old(logged), d1, l1, data, logged);
        d1, l1 := data, logged;
        SlotMapsNext(sb, s0, i, NDIRECT, IND);
        NextIsUsed(sb, s0, data, i, IND);
        FreeNext(sb, s0, data, i, IND);
        panicked := Bfree(ind);
        LoggedTwice(s0.data, old(logged), d1, l1, data, logged);
        inodes := inodes[i := Inode(ip.size, ip.addrs[NDIRECT := 0])];
      } else {
        NoEntries(sb, s0, data, i);
        NoMoreSlots(sb, s0, i);
      }
      inodes := inodes[i := Inode(0, inodes[i].addrs)];
      assert inodes[i].addrs == Empty.addrs;
      assert inodes == s0.inodes[i := Empty];
      MoreLogged(s0.data, old(logged), data, logged, IBlock(sb, i));
      Iupdate(i);
      TruncEnds(sb, s0, data, i);
    }
  }

  // Every block that has changed is in the log.
  ghost predicate ThroughLog(d0: Data, l0: set<nat>, d: Data, l: set<nat>) {
    l0 <= l && |d| == |d0| && forall b :: 0 <= b < |d| && d[b] != d0[b] ==> b in l
  }

  lemma NothingLogged(d: Data, l: set<nat>)
    ensures ThroughLog(d, l, d, l)
  {
  }

  lemma LoggedTwice(d0: Data, l0: set<nat>, d1: Data, l1: set<nat>, d2: Data, l2: set<nat>)
    requires ThroughLog(d0, l0, d1, l1) && ThroughLog(d1, l1, d2, l2)
    ensures ThroughLog(d0, l0, d2, l2)
  {
  }

  lemma PutLogged(d0: Data, l0: set<nat>, d: Data, l: set<nat>, b: nat, blk: Block)
    requires ThroughLog(d0, l0, d, l) && b < |d|
    ensures ThroughLog(d0, l0, d[b := blk], l + {b})
  {
  }

  lemma MoreLogged(d0: Data, l0: set<nat>, d: Data, l: set<nat>, b: nat)
    requires ThroughLog(d0, l0, d, l)
    ensures ThroughLog(d0, l0, d, l + {b})
  {
  }

  // While direct blocks are freed the indirect block keeps its entries.
  lemma EntriesAre(sb: Super, s0: Fs, data: Data, i: nat)
    requires Own(sb, s0, {}) && i in s0.inodes && At(s0, i, IND) != 0 && Freed(sb, s0, data, i, NDIRECT)
    ensures At(s0, i, IND) < |data|
    ensures forall j: nat :: j < NINDIRECT ==> GetWord(data[At(s0, i, IND)], j) == At(s0, i, NDIRECT + j)
  {
    OwnedFacts(sb, s0, {}, i, IND);
  }

  function DirectCleared(ip: Inode, k: nat): Inode
    requires k <= NDIRECT
  {
    Inode(ip.size, seq(NDIRECT + 1, l requires 0 <= l < NDIRECT + 1 => if l < k then 0 else ip.addrs[l]))
  }

  lemma ClearedStart(ip: Inode)
    ensures DirectCleared(ip, 0) == ip
  {
    assert DirectCleared(ip, 0).addrs == ip.addrs;
  }

  lemma ClearedNext(ip: Inode, k: nat)
    requires k < NDIRECT
    ensures DirectCleared(ip, k).addrs[k] == ip.addrs[k] && DirectCleared(ip, k).size == ip.size
    ensures DirectCleared(ip, k).addrs[k := 0] == DirectCleared(ip, k + 1).addrs
    ensures ip.addrs[k] == 0 ==> DirectCleared(ip, k) == DirectCleared(ip, k + 1)
  {
  }

  lemma AllCleared(ip: Inode)
    ensures DirectCleared(ip, NDIRECT).addrs[NDIRECT] == ip.addrs[NDIRECT]
    ensures DirectCleared(ip, NDIRECT).addrs[NDIRECT := 0] == Empty.addrs
  {
  }

  lemma FreedStart(sb: Super, s0: Fs, i: nat)
    ensures Freed(sb, s0, s0.data, i, 0)
  {
    assert InSlots(s0, i, 0) == {};
  }

  // Without an indirect block there are no entries.
  lemma NoEntries(sb: Super, s0: Fs, data: Data, i: nat)
    requires Freed(sb, s0, data, i, NDIRECT) && At(s0, i, IND) == 0
    ensures Freed(sb, s0, data, i, SLOTS)
  {
    forall l: nat | NDIRECT <= l <= IND ensures At(s0, i, l) == 0 {
    }
    assert InSlots(s0, i, SLOTS) == InSlots(s0, i, NDIRECT);
  }

  lemma ProgressInodes(sb: Super, s0: Fs, s: Fs, i: nat, src: seq<Byte>, off: nat)
    requires i in s0.inodes && off <= s0.inodes[i].size && Progress(sb, s0, s, i, src, off, off + |src|)
    ensures i in s.inodes && s.inodes[i].size == s0.inodes[i].size
    ensures off + |src| <= s0.inodes[i].size ==> s.inodes == s0.inodes
  {
  }

  const UINT: nat := 0x1_0000_0000

  function Min(a: nat, b: nat): nat {
    if a < b then a else b
  }

  lemma ReadRound(s: Fs, i: nat, pos: nat, m: nat)
    requires i in s.inodes && pos + m <= s.inodes[i].size && m <= BSIZE - pos % BSIZE
    requires At(s, i, pos / BSIZE) < |s.data|
    ensures s.data[At(s, i, pos / BSIZE)][pos % BSIZE..pos % BSIZE + m] == Contents(s, i)[pos..pos + m]
  {
    var blk, c := s.data[At(s, i, pos / BSIZE)], Contents(s, i);
    forall x | pos <= x < pos + m ensures c[x] == blk[x - pos + pos % BSIZE] {
      assert c[x] == ByteAt(s, i, x);
      assert x / BSIZE == pos / BSIZE && x % BSIZE == x - pos + pos % BSIZE;
    }
  }

  lemma SameBitmapBlock(sb: Super, q: nat, bi: nat)
    requires bi < BPB
    ensures BBlock(sb, q * BPB + bi) == BBlock(sb, q * BPB) && (q * BPB + bi) % BPB == bi
  {
  }

  // Whether a write of n bytes at off to a file of the given size is possible.
  predicate Fits(size: nat, off: nat, n: nat) {
    off <= size && off + n <= MAXFILE * BSIZE
  }

  // Every other file without holes reads as before.
  ghost predicate OthersRead(s0: Fs, s: Fs, i: nat) {
    forall j: nat :: j != i && j in s0.inodes && NoHoles(s0, j) ==>
      j in s.inodes && NoHoles(s, j) && Contents(s, j) == Contents(s0, j)
  }

  lemma OthersKeptRead(s0: Fs, s: Fs, i: nat)
    requires OthersKept(s0, s, i)
    ensures OthersRead(s0, s, i)
  {
    hide OthersKept, Contents, NoHoles;
    forall j: nat | j != i && j in s0.inodes && NoHoles(s0, j)
      ensures j in s.inodes && NoHoles(s, j) && Contents(s, j) == Contents(s0, j)
    {
      OthersContents(s0, s, i, j);
    }
  }

  // The blocks in use have grown by exactly what the file needs up to lim.
  ghost predicate Allocated(sb: Super, s0: Fs, s: Fs, i: nat, lim: nat)
    requires i in s0.inodes
  {
    && UsedSet(sb, s0.data) <= UsedSet(sb, s.data)
    && |UsedSet(sb, s.data)| == |UsedSet(sb, s0.data)| + Grown(s0.inodes[i].size, Max(s0.inodes[i].size, lim))
  }

  // What writing n bytes at off logs: what the loop logs, and the inode's block when the file grows.
  ghost function OpLogs(sb: Super, s0: Fs, s: Fs, i: nat, off: nat, n: nat): set<nat>
    requires i in s0.inodes
  {
    WroteLogs(sb, s0, s, i, off, off + n) + if n > 0 && off + n > s0.inodes[i].size then {IBlock(sb, i)} else {}
  }

  // A round that finds no block for its position started with too few.
  lemma RoomFor(sb: Super, l0: set<nat>, l: set<nat>, s0: Fs, s: Fs, i: nat, src: seq<Byte>, off: nat, p: nat, m: nat)
    requires i in s0.inodes && off <= p <= off + |src| && 0 < m <= BSIZE - p % BSIZE && p / BSIZE < MAXFILE
    requires Progress(sb, s0, s, i, src, off, p) && Tally(sb, l0, l, s0, s, i, off, p)
    ensures |FreeBlocks(sb, s.data)| < Need(s, i, p / BSIZE) ==>
              |FreeBlocks(sb, s0.data)| < Grown(s0.inodes[i].size, Max(s0.inodes[i].size, p + m))
  {
    hide UsedSet, Own, OthersKept, WrittenUpTo, WroteLogs, News, FreeBlocks, MappedTo, Need, Grown;
    NeedGrows(s, i, s0.inodes[i].size, p, m);
    FreeCount(sb, s.data);
    FreeCount(sb, s0.data);
  }

  lemma TallyEnds(sb: Super, l0: set<nat>, l: set<nat>, s0: Fs, s: Fs, i: nat, src: seq<Byte>, off: nat)
    requires i in s0.inodes && off <= s0.inodes[i].size
    requires Progress(sb, s0, s, i, src, off, off + |src|) && Tally(sb, l0, l, s0, s, i, off, off + |src|)
    ensures var lim := Max(s0.inodes[i].size, off + |src|);
            && i in s.inodes
            && Allocated(sb, s0, SetSize(s, i, lim), i, off + |src|)
            && OthersRead(s0, SetSize(s, i, lim), i)
            && l + (if |src| > 0 && off + |src| > s0.inodes[i].size then {IBlock(sb, i)} else {})
               == l0 + OpLogs(sb, s0, SetSize(s, i, lim), i, off, |src|)
            && |FreeBlocks(sb, s0.data)| >= Grown(s0.inodes[i].size, lim)
  {
    hide Progress, Tally, OthersRead, OpLogs, Allocated, Grown, FreeBlocks;
    var lim := Max(s0.inodes[i].size, off + |src|);
    OthersSized(sb, s0, s, i, src, off, lim);
    TallySized(sb, l0, l, s0, s, i, src, off, lim);
    LoggedIs(sb, l0, l, s0, SetSize(s, i, lim), i, off, |src|);
    EnoughFree(sb, s0, SetSize(s, i, lim), i, off + |src|);
  }

  lemma TallySized(sb: Super, l0: set<nat>, l: set<nat>, s0: Fs, s: Fs, i: nat, src: seq<Byte>, off: nat, lim: nat)
    requires i in s0.inodes && off <= s0.inodes[i].size
    requires Progress(sb, s0, s, i, src, off, off + |src|) && Tally(sb, l0, l, s0, s, i, off, off + |src|)
    ensures i in s.inodes && Tally(sb, l0, l, s0, SetSize(s, i, lim), i, off, off + |src|)
  {
    hide UsedSet, WrittenUpTo, MappedTo, Tally;
    SetSizeOwn(sb, s, i, lim);
    TallySame(sb, l0, l, s0, s, SetSize(s, i, lim), i, off, off + |src|);
  }

  lemma LoggedIs(sb: Super, l0: set<nat>, l: set<nat>, s0: Fs, s: Fs, i: nat, off: nat, n: nat)
    requires i in s0.inodes && Tally(sb, l0, l, s0, s, i, off, off + n)
    ensures Allocated(sb, s0, s, i, off + n)
    ensures l + (if n > 0 && off + n > s0.inodes[i].size then {IBlock(sb, i)} else {})
            == l0 + OpLogs(sb, s0, s, i, off, n)
  {
    hide UsedSet, WroteLogs, News, DataSet, IndSet, Grown;
    var w := WroteLogs(sb, s0, s, i, off, off + n);
    var ib: set<nat> := if n > 0 && off + n > s0.inodes[i].size then {IBlock(sb, i)} else {};
    assert l0 + w + ib == l0 + (w + ib);
  }

  lemma EnoughFree(sb: Super, s0: Fs, s: Fs, i: nat, lim: nat)
    requires i in s0.inodes && Allocated(sb, s0, s, i, lim)
    ensures |FreeBlocks(sb, s0.data)| >= Grown(s0.inodes[i].size, Max(s0.inodes[i].size, lim))
  {
    hide UsedSet, FreeBlocks, Grown;
    FreeCount(sb, s.data);
    FreeCount(sb, s0.data);
  }

  lemma OthersSized(sb: Super, s0: Fs, s: Fs, i: nat, src: seq<Byte>, off: nat, lim: nat)
    requires i in s0.inodes && off <= s0.inodes[i].size && Progress(sb, s0, s, i, src, off, off + |src|)
    ensures i in s.inodes && OthersRead(s0, SetSize(s, i, lim), i)
  {
    hide UsedSet, WrittenUpTo, MappedTo, OthersRead;
    SetSizeOwn(sb, s, i, lim);
    assert OthersKept(s0, SetSize(s, i, lim), i);
    OthersKeptRead(s0, SetSize(s, i, lim), i);
  }
}
