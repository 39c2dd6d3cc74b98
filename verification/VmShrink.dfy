/** Unmapping a range of user pages, and taking a whole directory apart. */
module VmShrink {
  import opened Paging
  import opened PagingSteps
  import opened PagingFrames
  import opened VmSpec

  predicate InRange(s: Slot, lo: nat, hi: nat) {
    s.PageSlot? && lo <= s.v < hi
  }

  // User pages lo to hi are unmapped and their frames, exactly, are free.
  ghost predicate Shrunk(m: Mem, m': Mem, d: Frame, own: map<Frame, Slot>, own': map<Frame, Slot>, lo: nat, hi: nat) {
    && Space(m', d, own') && Clears(m, m', d, lo, hi)
    && (forall f :: f in own' <==> f in own && !InRange(own[f], lo, hi))
    && (forall f :: f in own' ==> own'[f] == own[f])
    && Total(m', own') == Total(m, own) && Outside(m, m', Total(m, own)) && KeepsData(m, m', own, own')
    && (forall k: nat :: k < ENTRIES ==> EntryAt(m', d, k) == EntryAt(m, d, k))
  }

  lemma ShrunkNone(m: Mem, d: Frame, own: map<Frame, Slot>, lo: nat)
    requires Space(m, d, own)
    ensures Shrunk(m, m, d, own, own, lo, lo)
  {
  }

  // Pages that were not mapped are passed over, one at a time or a whole table at a time.
  lemma ShrunkSkip(m: Mem, m': Mem, d: Frame, own: map<Frame, Slot>, own': map<Frame, Slot>, lo: nat, a: nat, b: nat)
    requires Shrunk(m, m', d, own, own', lo, a) && lo <= a <= b <= ALLPAGES
    requires forall w: nat :: a <= w < b ==> Lookup(m', d, w) == Absent
    ensures Shrunk(m, m', d, own, own', lo, b)
  {
    hide Lookup, Total, Outside, KeepsData;
    forall f | f in own' ensures !InRange(own[f], lo, b) {
      assert HeldAt(m', d, own', f);
    }
  }

  lemma UnmapOutside(m: Mem, d: Frame, own: map<Frame, Slot>, v: nat)
    requires Owns(m, d, own) && HasTable(m, d, v) && v < USERPAGES && Lookup(m, d, v).Present?
    ensures Outside(m, Unmapped(m, d, v), own.Keys)
    ensures KeepsData(m, Unmapped(m, d, v), own, own - {Lookup(m, d, v).frame})
  {
    assert PageAt(m, d, own, v);
    WrittenOutside(m, d, own, v, Absent);
    assert TabAt(m, d, own, v / ENTRIES);
  }

  lemma UnmapShrinks(m: Mem, d: Frame, own: map<Frame, Slot>, v: nat)
    requires Space(m, d, own) && HasTable(m, d, v) && v < USERPAGES && Lookup(m, d, v).Present?
    ensures Shrunk(m, Unmapped(m, d, v), d, own, own - {Lookup(m, d, v).frame}, v, v + 1)
    ensures Lookup(m, d, v).frame !in m.free
  {
    assert PageAt(m, d, own, v);
    var f := Lookup(m, d, v).frame;
    var m', own' := Unmapped(m, d, v), own - {f};
    UnmapOwns(m, d, own, v);
    UnmapOutside(m, d, own, v);
    WrittenTables(m, d, v, Absent, d);
    ReleaseApart(Written(m, d, v, Absent), own, f);
    assert Total(Written(m, d, v, Absent), own) == Total(m, own);
    assert Outside(m, m', Total(m, own));
    assert forall w: nat :: w < ALLPAGES ==>
             Lookup(m', d, w) == (if v <= w < v + 1 then Absent else Lookup(m, d, w)) by {
      forall w: nat | w < ALLPAGES ensures Lookup(m', d, w) == (if v <= w < v + 1 then Absent else Lookup(m, d, w)) {
        UnmappedLookup(m, d, own, v, w);
      }
    }
    hide Lookup, Unmapped, Outside, Total, KeepsData, EntryAt;
    forall k: nat | k < ENTRIES ensures EntryAt(m', d, k) == EntryAt(m, d, k) {
      UnmappedDir(m, d, own, v, k);
    }
    forall g | g in own && InRange(own[g], v, v + 1) ensures g == f {
      assert HeldAt(m, d, own, g);
    }
  }

  lemma ShrunkTwice(m: Mem, m1: Mem, m2: Mem, d: Frame, own: map<Frame, Slot>, own1: map<Frame, Slot>,
                    own2: map<Frame, Slot>, lo: nat, a: nat, b: nat)
    requires Shrunk(m, m1, d, own, own1, lo, a) && Shrunk(m1, m2, d, own1, own2, a, b) && lo <= a <= b
    ensures Shrunk(m, m2, d, own, own2, lo, b)
  {
    OutsideTwice(m, m1, m2, Total(m, own), Total(m1, own1));
    hide Lookup, Outside, Space, EntryAt;
    assert KeepsData(m, m2, own, own2);
    assert Clears(m, m2, d, lo, b);
  }

  // kfree, then clear the entry: the order the code uses.
  lemma FreeThenClear(m: Mem, d: Frame, own: map<Frame, Slot>, v: nat)
    requires Owns(m, d, own) && HasTable(m, d, v) && v < USERPAGES && Lookup(m, d, v).Present?
    ensures TableFor(m, d, v) != Lookup(m, d, v).frame
    ensures IsTable(Release(m, Lookup(m, d, v).frame), TableFor(m, d, v))
    ensures SetEntry(Release(m, Lookup(m, d, v).frame), TableFor(m, d, v), v % ENTRIES, Absent) == Unmapped(m, d, v)
  {
    assert PageAt(m, d, own, v) && TabAt(m, d, own, v / ENTRIES);
    var f, t := Lookup(m, d, v).frame, TableFor(m, d, v);
    assert (m.tables - {f})[t := m.tables[t][v % ENTRIES := Absent]]
           == m.tables[t := m.tables[t][v % ENTRIES := Absent]] - {f};
  }

  // A directory entry that is zero leaves a whole table's worth of pages unmapped.
  lemma NoTableNoPages(m: Mem, d: Frame, v: nat, w: nat)
    requires EntryAt(m, d, v / ENTRIES) == Absent && v / ENTRIES * ENTRIES <= w < (v / ENTRIES + 1) * ENTRIES
    ensures Lookup(m, d, w) == Absent
  {
    assert w / ENTRIES == v / ENTRIES;
  }

  // ---- freevm's second loop ----

  // Table pages below entry k have been freed, and there are no user pages left.
  ghost predicate Bare(m: Mem, d: Frame, own: map<Frame, Slot>, k: nat) {
    && IsTable(m, d) && d in own && own[d] == DirSlot && Apart(m, own)
    && (forall i: nat :: k <= i < ENTRIES ==> TabAt(m, d, own, i))
    && (forall f :: f in own && f != d ==> own[f].TabSlot? && k <= own[f].i < ENTRIES && HeldAt(m, d, own, f))
  }

  lemma ShrunkIsBare(m: Mem, d: Frame, own: map<Frame, Slot>)
    requires Space(m, d, own) && forall f :: f in own ==> !InRange(own[f], 0, USERPAGES)
    ensures Bare(m, d, own, 0)
  {
    forall f | f in own && f != d ensures own[f].TabSlot? && own[f].i < ENTRIES {
      assert HeldAt(m, d, own, f);
    }
  }

  lemma BareSkip(m: Mem, d: Frame, own: map<Frame, Slot>, k: nat)
    requires Bare(m, d, own, k) && k < ENTRIES && EntryAt(m, d, k) == Absent
    ensures Bare(m, d, own, k + 1)
  {
    forall f | f in own && f != d ensures own[f].TabSlot? && k + 1 <= own[f].i < ENTRIES {
      assert HeldAt(m, d, own, f);
    }
  }

  lemma BareFree(m: Mem, d: Frame, own: map<Frame, Slot>, k: nat)
    requires Bare(m, d, own, k) && k < ENTRIES && EntryAt(m, d, k).Present?
    ensures var f := EntryAt(m, d, k).frame;
            && f in own && f !in m.free && Bare(Release(m, f), d, own - {f}, k + 1)
            && Total(Release(m, f), own - {f}) == Total(m, own)
            && Outside(m, Release(m, f), own.Keys)
            && m.tables[d] == Release(m, f).tables[d]
  {
    assert TabAt(m, d, own, k);
    var f := EntryAt(m, d, k).frame;
    ReleaseApart(m, own, f);
    var m', own' := Release(m, f), own - {f};
    assert f != d;
    hide Apart, Total, FreeSet;
    forall i: nat | k + 1 <= i < ENTRIES ensures TabAt(m', d, own', i) {
      assert TabAt(m, d, own, i);
      ReleasedEntry(m, f, d, i);
      if EntryAt(m, d, i).Present? {
        ReleasedEntry(m, f, EntryAt(m, d, i).frame, 0);
      }
    }
    forall g | g in own' && g != d ensures own'[g].TabSlot? && k + 1 <= own'[g].i < ENTRIES && HeldAt(m', d, own', g) {
      assert HeldAt(m, d, own, g);
      ReleasedEntry(m, f, d, own[g].i);
    }
  }

  // With every table freed only the directory's own page is left.
  lemma BareEnd(m: Mem, d: Frame, own: map<Frame, Slot>)
    requires Bare(m, d, own, ENTRIES)
    ensures own.Keys == {d} && d !in m.free && NoRepeat(Release(m, d).free) && FreeSet(Release(m, d)) == Total(m, own)
    ensures Outside(m, Release(m, d), own.Keys)
  {
    ReleaseApart(m, own, d);
    assert own - {d} == map[];
    assert Total(Release(m, d), map[]) == FreeSet(Release(m, d));
  }
}
