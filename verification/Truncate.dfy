/** itrunc: it frees exactly the blocks the inode owns. */
module Truncate {
  import opened Params
  import opened Bitmap
  import opened InodeMap
  import opened FileBytes

  const SLOTS: nat := IND + 1

  // The blocks in the first n slots of inode i.
  ghost function InSlots(s: Fs, i: nat, n: nat): set<nat> {
    set l | 0 <= l < n && At(s, i, l) != 0 :: At(s, i, l)
  }

  // The first n slots of inode i, as they were in s0, have been freed.
  ghost predicate Freed(sb: Super, s0: Fs, data: Data, i: nat, n: nat) {
    && |data| == |s0.data|
    && (forall b :: sb.meta <= b < |data| ==> data[b] == s0.data[b])
    && UsedSet(sb, data) == UsedSet(sb, s0.data) - InSlots(s0, i, n)
  }

  lemma InSlotsNext(s: Fs, i: nat, n: nat)
    ensures InSlots(s, i, n + 1) == if At(s, i, n) == 0 then InSlots(s, i, n) else InSlots(s, i, n) + {At(s, i, n)}
  {
    var A, B := InSlots(s, i, n), InSlots(s, i, n + 1);
    forall b | b in B ensures b in A || b == At(s, i, n) {
      var l :| 0 <= l < n + 1 && At(s, i, l) != 0 && At(s, i, l) == b;
    }
  }

  // The block in the next slot has not been freed yet, so freeing it does not panic.
  lemma NextIsUsed(sb: Super, s0: Fs, data: Data, i: nat, n: nat)
    requires Own(sb, s0, {}) && Freed(sb, s0, data, i, n) && At(s0, i, n) != 0
    ensures BBlock(sb, At(s0, i, n)) < sb.meta <= |data|
    ensures Used(sb, data, At(s0, i, n))
  {
    var b := At(s0, i, n);
    OwnedFacts(sb, s0, {}, i, n);
    BBlockInRange(sb, s0.data, b);
    assert b !in InSlots(s0, i, n);
    assert b in UsedSet(sb, data);
  }

  lemma FreeNext(sb: Super, s0: Fs, data: Data, i: nat, n: nat)
    requires Own(sb, s0, {}) && Freed(sb, s0, data, i, n) && At(s0, i, n) != 0
    ensures BBlock(sb, At(s0, i, n)) < |data|
    ensures Freed(sb, s0, Mark(sb, data, At(s0, i, n), false), i, n + 1)
  {
    var b := At(s0, i, n);
    NextIsUsed(sb, s0, data, i, n);
    OwnedFacts(sb, s0, {}, i, n);
    MarkUsedSet(sb, data, b, false);
    InSlotsNext(s0, i, n);
  }

  lemma SkipNext(sb: Super, s0: Fs, data: Data, i: nat, n: nat)
    requires Freed(sb, s0, data, i, n) && At(s0, i, n) == 0
    ensures Freed(sb, s0, data, i, n + 1)
  {
    InSlotsNext(s0, i, n);
  }

  // The bitmap blocks of the blocks in slots lo to hi of inode i.
  ghost function SlotMaps(sb: Super, s: Fs, i: nat, lo: nat, hi: nat): set<nat> {
    set k | lo <= k < hi && At(s, i, k) != 0 :: BBlock(sb, At(s, i, k))
  }

  lemma SlotMapsNext(sb: Super, s: Fs, i: nat, lo: nat, n: nat)
    requires lo <= n
    ensures SlotMaps(sb, s, i, lo, lo) == {}
    ensures SlotMaps(sb, s, i, lo, n + 1)
            == SlotMaps(sb, s, i, lo, n) + if At(s, i, n) == 0 then {} else {BBlock(sb, At(s, i, n))}
  {
    forall b | b in SlotMaps(sb, s, i, lo, n + 1)
      ensures b in SlotMaps(sb, s, i, lo, n) || (At(s, i, n) != 0 && b == BBlock(sb, At(s, i, n)))
    {
      var k :| lo <= k < n + 1 && At(s, i, k) != 0 && BBlock(sb, At(s, i, k)) == b;
    }
  }

  lemma SlotMapsJoin(sb: Super, s: Fs, i: nat, lo: nat, n: nat, hi: nat)
    requires lo <= n <= hi
    ensures SlotMaps(sb, s, i, lo, hi) == SlotMaps(sb, s, i, lo, n) + SlotMaps(sb, s, i, n, hi)
  {
  }

  lemma NoMoreSlots(sb: Super, s: Fs, i: nat)
    requires At(s, i, IND) == 0
    ensures SlotMaps(sb, s, i, NDIRECT, SLOTS) == {}
  {
    forall l: nat | NDIRECT <= l <= IND ensures At(s, i, l) == 0 {
    }
  }

  // What itrunc logs: the bitmap blocks of the blocks it frees, and the inode's block.
  ghost function TruncLogs(sb: Super, s: Fs, i: nat): set<nat> {
    SlotMaps(sb, s, i, 0, SLOTS) + {IBlock(sb, i)}
  }

  // An empty inode.
  const Empty: Inode := Inode(0, [0, 0, 0, 0, 0, 0, 0, 0, 0, 0, 0, 0, 0])

  // The file system without the content of inode i.
  ghost predicate Truncated(sb: Super, s0: Fs, s: Fs, i: nat) {
    && Own(sb, s, {})
    && i in s0.inodes && s.inodes == s0.inodes[i := Empty]
    && OthersKept(s0, s, i)
    && UsedSet(sb, s.data) == UsedSet(sb, s0.data) - InSlots(s0, i, SLOTS)
    && NoHoles(s, i) && Contents(s, i) == []
  }

  lemma TruncSlots(sb: Super, s0: Fs, data: Data, i: nat)
    requires Own(sb, s0, {}) && i in s0.inodes && Freed(sb, s0, data, i, SLOTS)
    ensures var s := Fs(data, s0.inodes[i := Empty]);
            forall j: nat, k: nat :: At(s, j, k) == if j == i then 0 else At(s0, j, k)
  {
    var s := Fs(data, s0.inodes[i := Empty]);
    forall j: nat, k: nat ensures At(s, j, k) == if j == i then 0 else At(s0, j, k) {
      if j != i && j in s0.inodes && At(s0, j, IND) != 0 {
        OwnedFacts(sb, s0, {}, j, IND);
        assert data[At(s0, j, IND)] == s0.data[At(s0, j, IND)];
      }
    }
  }

  lemma TruncOwned(sb: Super, s0: Fs, s: Fs, i: nat)
    requires Injective(sb, s0) && i in s0.inodes && s.inodes.Keys == s0.inodes.Keys
    requires forall j: nat, k: nat :: At(s, j, k) == if j == i then 0 else At(s0, j, k)
    ensures Owned(s) == Owned(s0) - InSlots(s0, i, SLOTS)
  {
    forall b | b in Owned(s) ensures b in Owned(s0) && b !in InSlots(s0, i, SLOTS) {
      var j, k :| j in s.inodes && 0 <= k <= IND && At(s, j, k) != 0 && At(s, j, k) == b;
      assert j != i && At(s0, j, k) == b;
    }
    forall b | b in Owned(s0) && b !in InSlots(s0, i, SLOTS) ensures b in Owned(s) {
      var j, k :| j in s0.inodes && 0 <= k <= IND && At(s0, j, k) != 0 && At(s0, j, k) == b;
      assert At(s, j, k) == b;
    }
  }

  lemma InSlotsAreOwned(s: Fs, i: nat)
    requires i in s.inodes
    ensures InSlots(s, i, SLOTS) <= Owned(s)
  {
  }

  lemma TruncOwn(sb: Super, s0: Fs, data: Data, i: nat)
    requires Own(sb, s0, {}) && i in s0.inodes && Freed(sb, s0, data, i, SLOTS)
    ensures Own(sb, Fs(data, s0.inodes[i := Empty]), {})
  {
    var s := Fs(data, s0.inodes[i := Empty]);
    TruncSlots(sb, s0, data, i);
    TruncOwned(sb, s0, s, i);
    InSlotsAreOwned(s0, i);
    assert Injective(sb, s);
    forall b: nat | b in InSlots(s0, i, SLOTS) ensures b >= sb.meta {
    }
  }

  lemma TruncEnds(sb: Super, s0: Fs, data: Data, i: nat)
    requires Own(sb, s0, {}) && i in s0.inodes && Freed(sb, s0, data, i, SLOTS)
    ensures Truncated(sb, s0, Fs(data, s0.inodes[i := Empty]), i)
  {
    hide Owned, UsedSet, Injective;
    var s := Fs(data, s0.inodes[i := Empty]);
    TruncSlots(sb, s0, data, i);
    TruncOwn(sb, s0, data, i);
    forall j: nat, x: nat | j != i && x < MAXFILE * BSIZE && At(s0, j, x / BSIZE) != 0
      ensures ByteAt(s, j, x) == ByteAt(s0, j, x)
    {
      OwnedFacts(sb, s0, {}, j, x / BSIZE);
    }
  }
}
