/** What the operations of vm.c do to a page directory. */
module VmSpec {
  import opened Paging
  import opened PagingSteps
  import opened PagingFrames

  ghost predicate SameView(m: Mem, m': Mem, d: Frame) {
    forall w: nat :: w < ALLPAGES ==> Lookup(m', d, w) == Lookup(m, d, w)
  }

  // Pages v, v + 1, ... v + n - 1 now translate to pa, pa + 1, ...; no other translation has changed.
  ghost predicate Maps(m: Mem, m': Mem, d: Frame, v: nat, n: nat, pa: Frame, flags: nat) {
    forall w: nat :: w < ALLPAGES ==>
      Lookup(m', d, w) == if v <= w < v + n then Present(pa + (w - v), flags) else Lookup(m, d, w)
  }

  ghost predicate Clears(m: Mem, m': Mem, d: Frame, lo: nat, hi: nat) {
    forall w: nat :: w < ALLPAGES ==> Lookup(m', d, w) == if lo <= w < hi then Absent else Lookup(m, d, w)
  }

  // own' is own with frames that were free added.
  ghost predicate Gains(m: Mem, own: map<Frame, Slot>, own': map<Frame, Slot>) {
    && (forall f :: f in own ==> f in own' && own'[f] == own[f])
    && (forall f :: f in own' && f !in own ==> f in m.free)
  }

  // No user memory the directory owned before and owns now has changed.
  ghost predicate KeepsData(m: Mem, m': Mem, own: map<Frame, Slot>, own': map<Frame, Slot>) {
    forall f :: f in own && f in own' && f in m.data ==> f in m'.data && m'.data[f] == m.data[f]
  }

  // A table page may have come in, and that is all.
  ghost predicate Walked(m: Mem, m': Mem, d: Frame, own: map<Frame, Slot>, own': map<Frame, Slot>) {
    && Space(m', d, own') && SameView(m, m', d) && Gains(m, own, own') && m'.data == m.data
    && Total(m', own') == Total(m, own) && Outside(m, m', Total(m, own))
    && FreeSet(m') <= FreeSet(m)
  }

  lemma NoWalk(m: Mem, d: Frame, own: map<Frame, Slot>)
    requires Space(m, d, own)
    ensures Walked(m, m, d, own, own)
  {
  }

  lemma NewTableOutside(m: Mem, d: Frame, own: map<Frame, Slot>, i: nat)
    requires Space(m, d, own) && m.free != [] && i < ENTRIES && m.free[0] != d
    ensures Outside(m, NewTable(m, d, i), Total(m, own))
  {
    assert m.free[0] in m.free;
  }

  lemma NewTableWalked(m: Mem, d: Frame, own: map<Frame, Slot>, i: nat)
    requires Space(m, d, own) && m.free != [] && i < ENTRIES && EntryAt(m, d, i) == Absent
    ensures m.free[0] != d && Walked(m, NewTable(m, d, i), d, own, own[m.free[0] := TabSlot(i)])
    ensures EntryAt(NewTable(m, d, i), d, i) == Present(m.free[0], WU) && IsTable(NewTable(m, d, i), m.free[0])
  {
    NewTableOwns(m, d, own, i);
    NewTableOutside(m, d, own, i);
    SameData(m, d, i);
    NewTableEntry(m, d, i, d, i);
    NewTableEntry(m, d, i, m.free[0], 0);
    PopApart(m, own, TabSlot(i));
    assert m.free[0] in m.free;
    hide Lookup, NewTable, Owns, EntryAt, Outside;
    forall w: nat | w < ALLPAGES ensures Lookup(NewTable(m, d, i), d, w) == Lookup(m, d, w) {
      NewTableLookup(m, d, own, i, w);
    }
  }

  // ---- one page of mappages ----

  // Frame pa is held by nobody: taken from the free list and filled, but not yet mapped.
  ghost predicate InHand(m: Mem, own: map<Frame, Slot>, pa: Frame) {
    pa !in own && pa !in m.free && pa in m.data
  }

  function OwnPage(own: map<Frame, Slot>, v: nat, pa: Frame): map<Frame, Slot> {
    if v < USERPAGES then own[pa := PageSlot(v)] else own
  }

  // What mappages leaves after n pages; it owns the frame of a user page.
  ghost predicate Mapped(m: Mem, m': Mem, d: Frame, own: map<Frame, Slot>, own': map<Frame, Slot>, v: nat, n: nat,
                         pa: Frame, flags: nat) {
    && Space(m', d, own') && Maps(m, m', d, v, n, pa, flags) && m'.data == m.data
    && (forall f :: f in own ==> f in own' && own'[f] == own[f])
    && (forall f :: f in own' && f !in own ==> f in m.free || (f == pa && v < USERPAGES && n > 0))
    && Total(m', own') == Total(m, own) + (if v < USERPAGES && n > 0 then {pa} else {})
    && Outside(m, m', Total(m, own)) && FreeSet(m') <= FreeSet(m)
  }

  lemma WrittenOutside(m: Mem, d: Frame, own: map<Frame, Slot>, v: nat, e: Pte)
    requires Owns(m, d, own) && HasTable(m, d, v)
    ensures Outside(m, Written(m, d, v, e), own.Keys)
  {
    assert TabAt(m, d, own, v / ENTRIES);
  }

  lemma MapOne(m: Mem, d: Frame, own: map<Frame, Slot>, v: nat, pa: Frame, flags: nat)
    requires Space(m, d, own) && HasTable(m, d, v) && Lookup(m, d, v) == Absent
    requires v < USERPAGES ==> InHand(m, own, pa)
    ensures Mapped(m, Written(m, d, v, Present(pa, flags)), d, own, OwnPage(own, v, pa), v, 1, pa, flags)
  {
    var e := Present(pa, flags);
    WrittenOutside(m, d, own, v, e);
    WrittenTables(m, d, v, e, d);
    if v < USERPAGES {
      MapUserOwns(m, d, own, v, pa, flags);
    } else {
      MapKernelOwns(m, d, own, v, e);
    }
    assert FreeSet(Written(m, d, v, e)) == FreeSet(m);
    assert Apart(Written(m, d, v, e), OwnPage(own, v, pa));
    hide Lookup, Written, Owns, HasTable, Apart;
    forall w: nat | w < ALLPAGES
      ensures Lookup(Written(m, d, v, e), d, w) == if v <= w < v + 1 then Present(pa + (w - v), flags)
              else Lookup(m, d, w)
    {
      WrittenLookup(m, d, own, v, e, w);
    }
  }

  lemma MappedNone(m: Mem, d: Frame, own: map<Frame, Slot>, v: nat, pa: Frame, flags: nat)
    requires Space(m, d, own)
    ensures Mapped(m, m, d, own, own, v, 0, pa, flags)
  {
    assert Total(m, own) + {} == Total(m, own);
  }

  // k pages mapped, a table page brought in, one page more.
  lemma MappedNext(m: Mem, m1: Mem, m2: Mem, m3: Mem, d: Frame, own: map<Frame, Slot>, own1: map<Frame, Slot>,
                   own2: map<Frame, Slot>, own3: map<Frame, Slot>, v: nat, k: nat, pa: Frame, flags: nat)
    requires Mapped(m, m1, d, own, own1, v, k, pa, flags) && Walked(m1, m2, d, own1, own2)
    requires Mapped(m2, m3, d, own2, own3, v + k, 1, pa + k, flags)
    requires v < USERPAGES ==> k == 0
    ensures Mapped(m, m3, d, own, own3, v, k + 1, pa, flags)
  {
    MappedNextView(m, m1, m2, m3, d, v, k, pa, flags);
    assert Outside(m, m3, Total(m, own)) by {
      OutsideTwice(m, m1, m2, Total(m, own), Total(m1, own1));
      OutsideTwice(m, m2, m3, Total(m, own), Total(m2, own2));
    }
    hide Space, Outside, Maps, SameView;
    forall f | f in own3 && f !in own ensures f in m.free || (f == pa && v < USERPAGES) {
      assert f in m1.free ==> f in FreeSet(m1);
      assert f in m2.free ==> f in FreeSet(m2);
    }
  }

  lemma MappedNextView(m: Mem, m1: Mem, m2: Mem, m3: Mem, d: Frame, v: nat, k: nat, pa: Frame, flags: nat)
    requires Maps(m, m1, d, v, k, pa, flags) && SameView(m1, m2, d) && Maps(m2, m3, d, v + k, 1, pa + k, flags)
    ensures Maps(m, m3, d, v, k + 1, pa, flags)
  {
    hide Lookup;
    forall w: nat | w < ALLPAGES
      ensures Lookup(m3, d, w) == if v <= w < v + (k + 1) then Present(pa + (w - v), flags) else Lookup(m, d, w)
    {
      assert Lookup(m2, d, w) == Lookup(m1, d, w);
    }
  }
}
