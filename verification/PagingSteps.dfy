/** Setting and clearing one translation, and taking a directory apart. */
module PagingSteps {
  import opened Paging

  // The frame of the page table for virtual page v.
  function TableFor(m: Mem, d: Frame, v: nat): Frame
    requires EntryAt(m, d, v / ENTRIES).Present?
  {
    EntryAt(m, d, v / ENTRIES).frame
  }

  ghost predicate HasTable(m: Mem, d: Frame, v: nat) {
    v < ALLPAGES && EntryAt(m, d, v / ENTRIES).Present? && IsTable(m, TableFor(m, d, v))
  }

  function Written(m: Mem, d: Frame, v: nat, e: Pte): Mem
    requires HasTable(m, d, v)
  {
    SetEntry(m, TableFor(m, d, v), v % ENTRIES, e)
  }

  // Writing one entry changes one translation.
  lemma WrittenLookup(m: Mem, d: Frame, own: map<Frame, Slot>, v: nat, e: Pte, w: nat)
    requires Owns(m, d, own) && HasTable(m, d, v) && w < ALLPAGES
    ensures Lookup(Written(m, d, v, e), d, w) == (if w == v then e else Lookup(m, d, w))
  {
    hide SetEntry, EntryAt, IsTable;
    var t := TableFor(m, d, v);
    assert TabAt(m, d, own, v / ENTRIES) && TabAt(m, d, own, w / ENTRIES);
    EntryAfter(m, t, v % ENTRIES, e, d, w / ENTRIES);
    var pde := EntryAt(m, d, w / ENTRIES);
    if pde.Present? {
      EntryAfter(m, t, v % ENTRIES, e, pde.frame, w % ENTRIES);
    }
  }

  lemma WrittenDir(m: Mem, d: Frame, own: map<Frame, Slot>, v: nat, e: Pte, k: nat)
    requires Owns(m, d, own) && HasTable(m, d, v)
    ensures EntryAt(Written(m, d, v, e), d, k) == EntryAt(m, d, k)
  {
    hide SetEntry, EntryAt, IsTable;
    assert TabAt(m, d, own, v / ENTRIES);
    EntryAfter(m, TableFor(m, d, v), v % ENTRIES, e, d, k);
  }

  lemma WrittenTables(m: Mem, d: Frame, v: nat, e: Pte, g: Frame)
    requires HasTable(m, d, v)
    ensures IsTable(Written(m, d, v, e), g) <==> IsTable(m, g)
    ensures Written(m, d, v, e).data == m.data && Written(m, d, v, e).free == m.free
  {
    EntryAfter(m, TableFor(m, d, v), v % ENTRIES, e, g, 0);
  }

  lemma WrittenTabAt(m: Mem, d: Frame, own: map<Frame, Slot>, own': map<Frame, Slot>, v: nat, e: Pte, k: nat)
    requires Owns(m, d, own) && HasTable(m, d, v) && k < ENTRIES
    requires forall f :: f in own && own[f].TabSlot? ==> f in own' && own'[f] == own[f]
    ensures TabAt(Written(m, d, v, e), d, own', k)
  {
    hide Written, EntryAt, IsTable;
    assert TabAt(m, d, own, k);
    WrittenDir(m, d, own, v, e, k);
    if EntryAt(m, d, k).Present? {
      WrittenTables(m, d, v, e, EntryAt(m, d, k).frame);
    }
  }

  // ---- mapping ----

  // A fresh user page in an empty translation.
  lemma MapUserOwns(m: Mem, d: Frame, own: map<Frame, Slot>, v: nat, f: Frame, flags: nat)
    requires Owns(m, d, own) && HasTable(m, d, v) && v < USERPAGES && Lookup(m, d, v) == Absent
    requires f !in own && f in m.data
    ensures Owns(Written(m, d, v, Present(f, flags)), d, own[f := PageSlot(v)])
  {
    var m', own' := Written(m, d, v, Present(f, flags)), own[f := PageSlot(v)];
    WrittenTables(m, d, v, Present(f, flags), d);
    hide Written, Lookup, EntryAt, IsTable;
    forall k: nat | k < ENTRIES ensures TabAt(m', d, own', k) {
      WrittenTabAt(m, d, own, own', v, Present(f, flags), k);
    }
    forall w: nat | w < USERPAGES ensures PageAt(m', d, own', w) {
      WrittenLookup(m, d, own, v, Present(f, flags), w);
      assert PageAt(m, d, own, w);
    }
    WrittenLookup(m, d, own, v, Present(f, flags), v);
    forall g | g in own' ensures HeldAt(m', d, own', g) {
      if g != f {
        WrittenHeld(m, d, own, v, Present(f, flags), g);
      }
    }
  }

  lemma WrittenHeld(m: Mem, d: Frame, own: map<Frame, Slot>, v: nat, e: Pte, g: Frame)
    requires Owns(m, d, own) && HasTable(m, d, v) && g in own && own[g] != PageSlot(v)
    ensures HeldAt(Written(m, d, v, e), d, own, g)
  {
    hide Written, Lookup, EntryAt, IsTable;
    assert HeldAt(m, d, own, g);
    match own[g]
    case DirSlot =>
    case TabSlot(k) => WrittenDir(m, d, own, v, e, k);
    case PageSlot(w) => if w < USERPAGES { WrittenLookup(m, d, own, v, e, w); }
  }

  // A kernel mapping owns no frame.
  lemma MapKernelOwns(m: Mem, d: Frame, own: map<Frame, Slot>, v: nat, e: Pte)
    requires Owns(m, d, own) && HasTable(m, d, v) && USERPAGES <= v
    ensures Owns(Written(m, d, v, e), d, own)
  {
    var m' := Written(m, d, v, e);
    WrittenTables(m, d, v, e, d);
    hide Written, Lookup, EntryAt, IsTable;
    forall k: nat | k < ENTRIES ensures TabAt(m', d, own, k) {
      WrittenTabAt(m, d, own, own, v, e, k);
    }
    forall w: nat | w < USERPAGES ensures PageAt(m', d, own, w) {
      WrittenLookup(m, d, own, v, e, w);
      assert PageAt(m, d, own, w);
    }
    forall g | g in own ensures HeldAt(m', d, own, g) {
      KernelSlot(m, d, own, g, v);
      WrittenHeld(m, d, own, v, e, g);
    }
  }

  lemma KernelSlot(m: Mem, d: Frame, own: map<Frame, Slot>, g: Frame, v: nat)
    requires Owns(m, d, own) && g in own && USERPAGES <= v
    ensures own[g] != PageSlot(v)
  {
    assert HeldAt(m, d, own, g);
  }

  // ---- unmapping: deallocuvm's kfree and clearing of the entry ----

  function Unmapped(m: Mem, d: Frame, v: nat): Mem
    requires HasTable(m, d, v) && Lookup(m, d, v).Present?
  {
    Release(Written(m, d, v, Absent), Lookup(m, d, v).frame)
  }

  lemma ReleasedEntry(m: Mem, f: Frame, g: Frame, k: nat)
    requires g != f
    ensures EntryAt(Release(m, f), g, k) == EntryAt(m, g, k) && (IsTable(Release(m, f), g) <==> IsTable(m, g))
  {
  }

  // Freeing a frame the directory does not use for tables changes no translation.
  lemma ReleasedLookup(m: Mem, d: Frame, own: map<Frame, Slot>, f: Frame, w: nat)
    requires d != f && w < ALLPAGES
    requires forall i: nat :: i < ENTRIES && EntryAt(m, d, i).Present? ==> EntryAt(m, d, i).frame != f
    ensures Lookup(Release(m, f), d, w) == Lookup(m, d, w)
  {
    hide Release, EntryAt, IsTable;
    ReleasedEntry(m, f, d, w / ENTRIES);
    var pde := EntryAt(m, d, w / ENTRIES);
    if pde.Present? {
      ReleasedEntry(m, f, pde.frame, w % ENTRIES);
    }
  }

  lemma NotATable(m: Mem, d: Frame, own: map<Frame, Slot>, v: nat, e: Pte, f: Frame)
    requires Owns(m, d, own) && HasTable(m, d, v) && f in own && own[f].PageSlot?
    ensures d != f
    ensures forall i: nat :: i < ENTRIES && EntryAt(Written(m, d, v, e), d, i).Present? ==>
              EntryAt(Written(m, d, v, e), d, i).frame != f
  {
    hide Written, Lookup, EntryAt, IsTable;
    forall i: nat | i < ENTRIES && EntryAt(Written(m, d, v, e), d, i).Present?
      ensures EntryAt(Written(m, d, v, e), d, i).frame != f
    {
      WrittenDir(m, d, own, v, e, i);
      assert TabAt(m, d, own, i);
    }
  }

  lemma UnmappedLookup(m: Mem, d: Frame, own: map<Frame, Slot>, v: nat, w: nat)
    requires Owns(m, d, own) && HasTable(m, d, v) && v < USERPAGES && Lookup(m, d, v).Present? && w < ALLPAGES
    ensures Lookup(Unmapped(m, d, v), d, w) == (if w == v then Absent else Lookup(m, d, w))
  {
    hide Written, Release, Lookup, EntryAt, IsTable;
    assert PageAt(m, d, own, v);
    var f := Lookup(m, d, v).frame;
    NotATable(m, d, own, v, Absent, f);
    ReleasedLookup(Written(m, d, v, Absent), d, own, f, w);
    WrittenLookup(m, d, own, v, Absent, w);
  }

  lemma UnmappedDir(m: Mem, d: Frame, own: map<Frame, Slot>, v: nat, k: nat)
    requires Owns(m, d, own) && HasTable(m, d, v) && v < USERPAGES && Lookup(m, d, v).Present?
    ensures EntryAt(Unmapped(m, d, v), d, k) == EntryAt(m, d, k)
  {
    hide Written, Release, Lookup, EntryAt, IsTable;
    assert PageAt(m, d, own, v);
    var f := Lookup(m, d, v).frame;
    NotATable(m, d, own, v, Absent, f);
    ReleasedEntry(Written(m, d, v, Absent), f, d, k);
    WrittenDir(m, d, own, v, Absent, k);
  }

  lemma UnmappedTabAt(m: Mem, d: Frame, own: map<Frame, Slot>, v: nat, k: nat)
    requires Owns(m, d, own) && HasTable(m, d, v) && v < USERPAGES && Lookup(m, d, v).Present? && k < ENTRIES
    ensures TabAt(Unmapped(m, d, v), d, own - {Lookup(m, d, v).frame}, k)
  {
    hide Written, Release, Lookup, EntryAt, IsTable;
    assert PageAt(m, d, own, v) && TabAt(m, d, own, k);
    var f := Lookup(m, d, v).frame;
    UnmappedDir(m, d, own, v, k);
    if EntryAt(m, d, k).Present? {
      var t := EntryAt(m, d, k).frame;
      WrittenTables(m, d, v, Absent, t);
      ReleasedEntry(Written(m, d, v, Absent), f, t, 0);
    }
  }

  lemma UnmapOwns(m: Mem, d: Frame, own: map<Frame, Slot>, v: nat)
    requires Owns(m, d, own) && HasTable(m, d, v) && v < USERPAGES && Lookup(m, d, v).Present?
    ensures Owns(Unmapped(m, d, v), d, own - {Lookup(m, d, v).frame})
  {
    assert PageAt(m, d, own, v);
    var f := Lookup(m, d, v).frame;
    var m', own' := Unmapped(m, d, v), own - {f};
    WrittenTables(m, d, v, Absent, d);
    assert d != f && m'.data == m.data - {f} && IsTable(m', d);
    hide Unmapped, Lookup, EntryAt, IsTable;
    forall k: nat | k < ENTRIES ensures TabAt(m', d, own', k) {
      UnmappedTabAt(m, d, own, v, k);
    }
    forall w: nat | w < USERPAGES ensures PageAt(m', d, own', w) {
      UnmappedLookup(m, d, own, v, w);
      assert PageAt(m, d, own, w);
    }
    forall g | g in own' ensures HeldAt(m', d, own', g) {
      assert HeldAt(m, d, own, g);
      match own[g]
      case DirSlot =>
      case TabSlot(k) => UnmappedDir(m, d, own, v, k);
      case PageSlot(w) => if w < USERPAGES { UnmappedLookup(m, d, own, v, w); }
    }
  }

  lemma ReleaseApart(m: Mem, own: map<Frame, Slot>, f: Frame)
    requires Apart(m, own) && f in own
    ensures Apart(Release(m, f), own - {f}) && Total(Release(m, f), own - {f}) == Total(m, own)
    ensures FreeSet(Release(m, f)) == FreeSet(m) + {f}
  {
    var m' := Release(m, f);
    assert forall g :: g in m'.free <==> g == f || g in m.free;
    assert FreeSet(m') == FreeSet(m) + {f};
  }
}
