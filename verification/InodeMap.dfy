/** Which disk block belongs to which inode: direct addresses, the indirect pointer, and the
    entries of the indirect block, which are words of an ordinary data block. */
module InodeMap {
  import opened Blocks
  import opened Bitmap

  const NDIRECT: nat := 12
  const NINDIRECT: nat := WORDS
  const MAXFILE: nat := NDIRECT + NINDIRECT

  // Slot k < MAXFILE of an inode holds the address of its k-th content block;
  // slot IND holds the address of its indirect block.
  const IND: nat := MAXFILE

  datatype RawInode = Inode(size: nat, addrs: seq<nat>)
  type Inode = ip: RawInode | |ip.addrs| == NDIRECT + 1 witness Inode(0, seq(NDIRECT + 1, _ => 0))

  datatype Fs = Fs(data: Data, inodes: map<nat, Inode>)

  function Addr(data: Data, ip: Inode, k: nat): nat
    requires k <= IND
  {
    if k < NDIRECT then ip.addrs[k]
    else if k == IND then ip.addrs[NDIRECT]
    else if ip.addrs[NDIRECT] == 0 || ip.addrs[NDIRECT] >= |data| then 0
    else GetWord(data[ip.addrs[NDIRECT]], k - NDIRECT)
  }

  // The address in slot k of inode i; 0 if the slot is empty or does not exist.
  function At(s: Fs, i: nat, k: nat): nat {
    if i in s.inodes && k <= IND then Addr(s.data, s.inodes[i], k) else 0
  }

  ghost function Owned(s: Fs): set<nat> {
    set i, k | i in s.inodes && 0 <= k <= IND && At(s, i, k) != 0 :: At(s, i, k)
  }

  // Every nonzero address lies in the data area and stands in one slot only.
  ghost predicate Injective(sb: Super, s: Fs) {
    && (forall i: nat, k: nat :: At(s, i, k) != 0 ==> sb.meta <= At(s, i, k) < sb.size)
    && (forall i: nat, k: nat, j: nat, l: nat :: At(s, i, k) != 0 && At(s, i, k) == At(s, j, l) ==> i == j && k == l)
  }

  // The used blocks are exactly the metadata, the blocks owned through some slot, and the
  // blocks in extra, which are allocated and not yet entered into a slot.
  ghost predicate Own(sb: Super, s: Fs, extra: set<nat>) {
    && Geometry(sb, s.data)
    && Injective(sb, s)
    && (forall b: nat :: b in UsedSet(sb, s.data) <==> b < sb.meta || b in Owned(s) || b in extra)
    && extra !! Owned(s) && (forall b <- extra :: sb.meta <= b)
  }

  // All content of s is still there in s', at the same place.
  ghost predicate Keeps(s: Fs, s': Fs) {
    && |s'.data| == |s.data|
    && forall i: nat, k: nat :: k < IND && At(s, i, k) != 0 ==>
         At(s', i, k) == At(s, i, k) && (At(s, i, k) < |s.data| ==> s'.data[At(s, i, k)] == s.data[At(s, i, k)])
  }

  lemma KeepsTransitive(s: Fs, t: Fs, u: Fs)
    requires Keeps(s, t) && Keeps(t, u)
    ensures Keeps(s, u)
  {
    forall i: nat, k: nat | k < IND && At(s, i, k) != 0
      ensures At(u, i, k) == At(s, i, k) && (At(s, i, k) < |s.data| ==> u.data[At(s, i, k)] == s.data[At(s, i, k)])
    {
      assert At(t, i, k) == At(s, i, k);
    }
  }

  lemma OwnedSlot(s: Fs, i: nat, k: nat)
    requires At(s, i, k) != 0
    ensures At(s, i, k) in Owned(s)
  {
  }

  lemma OwnedFacts(sb: Super, s: Fs, extra: set<nat>, i: nat, k: nat)
    requires Own(sb, s, extra) && At(s, i, k) != 0
    ensures At(s, i, k) in UsedSet(sb, s.data) && At(s, i, k) !in extra
    ensures sb.meta <= At(s, i, k) < sb.size <= |s.data|
  {
    OwnedSlot(s, i, k);
  }

  // The slots depend on the inodes and the indirect blocks only.
  lemma SlotsFrame(s: Fs, data': Data)
    requires |data'| == |s.data|
    requires forall i: nat :: At(s, i, IND) != 0 && At(s, i, IND) < |s.data| ==>
               data'[At(s, i, IND)] == s.data[At(s, i, IND)]
    ensures forall i: nat, k: nat :: At(Fs(data', s.inodes), i, k) == At(s, i, k)
    ensures Owned(Fs(data', s.inodes)) == Owned(s)
  {
    var s' := Fs(data', s.inodes);
    forall i: nat, k: nat ensures At(s', i, k) == At(s, i, k) {
      if i in s.inodes {
        assert At(s, i, IND) == s.inodes[i].addrs[NDIRECT];
      }
    }
  }

  // ---- allocating a block ----

  // balloc and bzero.
  function Alloc(sb: Super, data: Data, b: nat): Data
    requires BBlock(sb, b) < |data| && b < |data|
  {
    Mark(sb, data, b, true)[b := ZeroBlock()]
  }

  lemma AllocUsed(sb: Super, data: Data, b: nat)
    requires Geometry(sb, data) && sb.meta <= b < sb.size
    ensures BBlock(sb, b) < sb.meta
    ensures UsedSet(sb, Alloc(sb, data, b)) == UsedSet(sb, data) + {b}
  {
    BBlockInRange(sb, data, b);
    MarkUsedSet(sb, data, b, true);
    UsedSetFrame(sb, Mark(sb, data, b, true), Alloc(sb, data, b));
  }

  lemma FreeBlockIsData(sb: Super, s: Fs, extra: set<nat>, b: nat)
    requires Own(sb, s, extra) && b < sb.size && b !in UsedSet(sb, s.data)
    ensures sb.meta <= b && BBlock(sb, b) < sb.meta
    ensures forall i: nat, k: nat :: At(s, i, k) != b || b == 0
  {
    BBlockInRange(sb, s.data, b);
    forall i: nat, k: nat | At(s, i, k) != 0 ensures At(s, i, k) != b {
      OwnedSlot(s, i, k);
    }
  }

  lemma AllocSlots(sb: Super, s: Fs, extra: set<nat>, b: nat)
    requires Own(sb, s, extra) && b < sb.size && b !in UsedSet(sb, s.data)
    ensures sb.meta <= b && BBlock(sb, b) < sb.meta
    ensures var s' := Fs(Alloc(sb, s.data, b), s.inodes);
            && (forall i: nat, k: nat :: At(s', i, k) == At(s, i, k))
            && Owned(s') == Owned(s)
            && Keeps(s, s')
  {
    FreeBlockIsData(sb, s, extra, b);
    var data' := Alloc(sb, s.data, b);
    assert forall c :: sb.meta <= c < |s.data| && c != b ==> data'[c] == s.data[c];
    SlotsFrame(s, data');
  }

  lemma AllocOwn(sb: Super, s: Fs, extra: set<nat>, b: nat)
    requires Own(sb, s, extra) && b < sb.size && b !in UsedSet(sb, s.data)
    ensures sb.meta <= b && BBlock(sb, b) < sb.meta
    ensures Own(sb, Fs(Alloc(sb, s.data, b), s.inodes), extra + {b})
  {
    AllocSlots(sb, s, extra, b);
    AllocUsed(sb, s.data, b);
    assert b !in Owned(s);
  }

  // ---- entering a block into a slot ----

  // s' has block b in slot k of inode i, which was empty, and is otherwise like s.
  ghost predicate Entered(s: Fs, s': Fs, i: nat, k: nat, b: nat) {
    forall j: nat, l: nat :: At(s', j, l) == if j == i && l == k then b else At(s, j, l)
  }

  lemma EnteredOwned(s: Fs, s': Fs, i: nat, k: nat, b: nat)
    requires Entered(s, s', i, k, b) && At(s, i, k) == 0 && b != 0
    requires i in s.inodes && k <= IND && s'.inodes.Keys == s.inodes.Keys
    ensures Owned(s') == Owned(s) + {b}
  {
    assert At(s', i, k) == b;
    forall c | c in Owned(s) ensures c in Owned(s') {
      var j, l :| j in s.inodes && 0 <= l <= IND && At(s, j, l) != 0 && At(s, j, l) == c;
      assert At(s', j, l) == c;
    }
    forall c | c in Owned(s') ensures c in Owned(s) + {b} {
      var j, l :| j in s'.inodes && 0 <= l <= IND && At(s', j, l) != 0 && At(s', j, l) == c;
      if !(j == i && l == k) {
        assert At(s, j, l) == c;
      }
    }
  }

  lemma EnteredInjective(sb: Super, s: Fs, s': Fs, extra: set<nat>, i: nat, k: nat, b: nat)
    requires Own(sb, s, extra) && b in extra && Entered(s, s', i, k, b)
    ensures Injective(sb, s')
  {
    assert b in UsedSet(sb, s.data);
    forall j: nat, l: nat | At(s, j, l) != 0 ensures At(s, j, l) != b {
      OwnedFacts(sb, s, extra, j, l);
    }
  }

  lemma EnteredOwn(sb: Super, s: Fs, s': Fs, extra: set<nat>, i: nat, k: nat, b: nat)
    requires Own(sb, s, extra) && b in extra
    requires Entered(s, s', i, k, b) && At(s, i, k) == 0
    requires i in s.inodes && k <= IND && s'.inodes.Keys == s.inodes.Keys
    requires |s'.data| == |s.data| && UsedSet(sb, s'.data) == UsedSet(sb, s.data)
    ensures Own(sb, s', extra - {b})
  {
    assert b in UsedSet(sb, s.data);
    EnteredOwned(s, s', i, k, b);
    EnteredInjective(sb, s, s', extra, i, k, b);
  }

  // ip->addrs[k] = b, for a direct slot or for the indirect pointer.
  function SetAddr(s: Fs, i: nat, a: nat, b: nat): Fs
    requires i in s.inodes && a <= NDIRECT
  {
    var ip: Inode := s.inodes[i];
    s.(inodes := s.inodes[i := Inode(ip.size, ip.addrs[a := b])])
  }

  lemma SetDirectEnters(s: Fs, i: nat, k: nat, b: nat)
    requires i in s.inodes && k < NDIRECT
    ensures Entered(s, SetAddr(s, i, k, b), i, k, b)
  {
  }

  lemma ZeroWords(j: nat)
    requires j < WORDS
    ensures GetWord(ZeroBlock(), j) == 0
  {
  }

  // A fresh indirect block has no entries.
  lemma SetIndirectEnters(s: Fs, i: nat, b: nat)
    requires i in s.inodes && At(s, i, IND) == 0 && b < |s.data| && s.data[b] == ZeroBlock()
    ensures Entered(s, SetAddr(s, i, NDIRECT, b), i, IND, b)
  {
    var s' := SetAddr(s, i, NDIRECT, b);
    forall j: nat, l: nat ensures At(s', j, l) == if j == i && l == IND then b else At(s, j, l) {
      if j == i && NDIRECT <= l < IND {
        ZeroWords(l - NDIRECT);
      }
    }
  }

  // a[j] = b in the indirect block of inode i.
  function SetEntry(s: Fs, i: nat, j: nat, b: nat): Fs
    requires j < NINDIRECT && At(s, i, IND) < |s.data| && b < 0x1_0000_0000
  {
    var ind := At(s, i, IND);
    s.(data := s.data[ind := PutWord(s.data[ind], j, b)])
  }

  lemma SetEntryEnters(sb: Super, s: Fs, extra: set<nat>, i: nat, j: nat, b: nat)
    requires Own(sb, s, extra) && i in s.inodes && j < NINDIRECT && At(s, i, IND) != 0 && b < 0x1_0000_0000
    ensures At(s, i, IND) < |s.data|
    ensures Entered(s, SetEntry(s, i, j, b), i, NDIRECT + j, b)
  {
    OwnedFacts(sb, s, extra, i, IND);
    var ind := At(s, i, IND);
    var s' := SetEntry(s, i, j, b);
    forall m: nat, l: nat ensures At(s', m, l) == if m == i && l == NDIRECT + j then b else At(s, m, l) {
      if m in s.inodes && NDIRECT <= l < IND && At(s, m, IND) == ind {
        assert m == i;
        PutThenGet(s.data[ind], j, b);
        if l != NDIRECT + j {
          PutKeepsOthers(s.data[ind], j, b, l - NDIRECT);
        }
      }
    }
  }

  // An indirect block is nobody's content.
  lemma SetEntryKeeps(sb: Super, s: Fs, extra: set<nat>, i: nat, j: nat, b: nat)
    requires Own(sb, s, extra) && i in s.inodes && j < NINDIRECT && At(s, i, IND) != 0 && b < 0x1_0000_0000
    requires At(s, i, NDIRECT + j) == 0
    ensures At(s, i, IND) < |s.data|
    ensures Keeps(s, SetEntry(s, i, j, b))
    ensures UsedSet(sb, SetEntry(s, i, j, b).data) == UsedSet(sb, s.data)
  {
    OwnedFacts(sb, s, extra, i, IND);
    SetEntryEnters(sb, s, extra, i, j, b);
    UsedSetFrame(sb, s.data, SetEntry(s, i, j, b).data);
  }

  // ---- inode blocks ----

  const IPB: nat := 8   // inodes per block

  function IBlock(sb: Super, i: nat): nat {
    i / IPB + sb.inodestart
  }

  // ---- what allocation does to the free map ----

  // New owners mean new used blocks, one for one.
  lemma UsedGrows(sb: Super, s: Fs, t: Fs, more: set<nat>)
    requires Own(sb, s, {}) && Own(sb, t, {}) && Owned(t) == Owned(s) + more && more !! Owned(s)
    ensures UsedSet(sb, t.data) == UsedSet(sb, s.data) + more && more !! UsedSet(sb, s.data)
    ensures |UsedSet(sb, t.data)| == |UsedSet(sb, s.data)| + |more|
  {
    forall b | b in more ensures b >= sb.meta {
      assert b in Owned(t);
      OwnedIsData(sb, t, b);
    }
  }

  lemma OwnedIsData(sb: Super, s: Fs, b: nat)
    requires Own(sb, s, {}) && b in Owned(s)
    ensures sb.meta <= b < sb.size
  {
    var i, k :| i in s.inodes && 0 <= k <= IND && At(s, i, k) != 0 && At(s, i, k) == b;
  }
}
