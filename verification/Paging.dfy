/** Two-level page tables and the frames they own (vm.c, kalloc.c). */
module Paging {
  type Frame = nat
  type Page = seq<int>

  const ENTRIES: nat := 1024
  // Virtual page numbers below KERNBASE, and all of them.
  const USERPAGES: nat := 512 * 1024
  const ALLPAGES: nat := 1024 * 1024
  const PGSIZE: nat := 4096
  const WU: nat := 6

  // An entry is present, with its other flags, or zero.
  datatype Pte = Absent | Present(frame: Frame, flags: nat)

  // The free list, the pages in use as page directories or page tables, and the pages in use as user memory.
  datatype Mem = Mem(free: seq<Frame>, tables: map<Frame, seq<Pte>>, data: map<Frame, Page>)

  // Where a directory holds a frame.
  datatype Slot = DirSlot | TabSlot(i: nat) | PageSlot(v: nat)

  function ZeroPage(): Page {
    seq(PGSIZE, _ => 0)
  }

  function NoEntries(): (r: seq<Pte>)
    ensures |r| == ENTRIES && forall j :: 0 <= j < ENTRIES ==> r[j] == Absent
  {
    seq(ENTRIES, _ => Absent)
  }

  predicate IsTable(m: Mem, f: Frame) {
    f in m.tables && |m.tables[f]| == ENTRIES
  }

  // The entry j of the table in frame f.
  function EntryAt(m: Mem, f: Frame, j: nat): Pte {
    if f in m.tables && j < |m.tables[f]| then m.tables[f][j] else Absent
  }

  // What a page directory is: a map from virtual pages to frames and flags.
  function Lookup(m: Mem, d: Frame, v: nat): Pte {
    var pde := EntryAt(m, d, v / ENTRIES);
    if pde.Present? then EntryAt(m, pde.frame, v % ENTRIES) else Absent
  }

  function SlotFrame(m: Mem, d: Frame, s: Slot): Pte {
    match s
    case DirSlot => Present(d, 0)
    case TabSlot(i) => if i < ENTRIES then EntryAt(m, d, i) else Absent
    case PageSlot(v) => if v < USERPAGES then Lookup(m, d, v) else Absent
  }

  // ---- ownership ----

  predicate TabAt(m: Mem, d: Frame, own: map<Frame, Slot>, i: nat) {
    var pde := EntryAt(m, d, i);
    pde.Present? ==> IsTable(m, pde.frame) && pde.frame in own && own[pde.frame] == TabSlot(i)
  }

  predicate PageAt(m: Mem, d: Frame, own: map<Frame, Slot>, v: nat) {
    var pte := Lookup(m, d, v);
    pte.Present? ==> pte.frame in m.data && pte.frame in own && own[pte.frame] == PageSlot(v)
  }

  predicate HeldAt(m: Mem, d: Frame, own: map<Frame, Slot>, f: Frame)
    requires f in own
  {
    SlotFrame(m, d, own[f]).Present? && SlotFrame(m, d, own[f]).frame == f
  }

  ghost predicate NoRepeat(free: seq<Frame>) {
    forall i: nat, j: nat :: i < j < |free| ==> free[i] != free[j]
  }

  // own says for each frame of directory d the one place that holds it; none of them is free.
  ghost predicate Owns(m: Mem, d: Frame, own: map<Frame, Slot>) {
    && IsTable(m, d) && d in own && own[d] == DirSlot
    && (forall i: nat :: i < ENTRIES ==> TabAt(m, d, own, i))
    && (forall v: nat :: v < USERPAGES ==> PageAt(m, d, own, v))
    && (forall f :: f in own ==> HeldAt(m, d, own, f))
  }

  ghost predicate Apart(m: Mem, own: map<Frame, Slot>) {
    && NoRepeat(m.free)
    && (forall f :: f in m.free ==> f !in own)
  }

  ghost predicate Space(m: Mem, d: Frame, own: map<Frame, Slot>) {
    Owns(m, d, own) && Apart(m, own)
  }

  function FreeSet(m: Mem): set<Frame> {
    set f | f in m.free
  }

  // All the frames that are free or belong to the directory.
  function Total(m: Mem, own: map<Frame, Slot>): set<Frame> {
    FreeSet(m) + own.Keys
  }

  // Pages outside the frames ours are as they were.
  predicate SamePage(m: Mem, m': Mem, f: Frame) {
    && (f in m'.tables <==> f in m.tables) && (f in m.tables ==> m'.tables[f] == m.tables[f])
    && (f in m'.data <==> f in m.data) && (f in m.data ==> m'.data[f] == m.data[f])
  }

  ghost predicate Outside(m: Mem, m': Mem, ours: set<Frame>) {
    forall f :: f !in ours ==> SamePage(m, m', f)
  }

  // ---- the steps the code is made of ----

  function Pop(m: Mem): Mem
    requires m.free != []
  {
    m.(free := m.free[1..])
  }

  // kfree: the contents are gone and the frame heads the free list.
  function Release(m: Mem, f: Frame): Mem {
    Mem([f] + m.free, m.tables - {f}, m.data - {f})
  }

  function SetEntry(m: Mem, f: Frame, j: nat, e: Pte): Mem
    requires IsTable(m, f) && j < ENTRIES
  {
    m.(tables := m.tables[f := m.tables[f][j := e]])
  }

  // walkpgdir's new table page for directory entry i.
  function NewTable(m: Mem, d: Frame, i: nat): Mem
    requires m.free != [] && IsTable(m, d) && i < ENTRIES && m.free[0] != d
  {
    var m1 := Pop(m);
    SetEntry(m1.(tables := m1.tables[m.free[0] := NoEntries()]), d, i, Present(m.free[0], WU))
  }

  lemma EntryAfter(m: Mem, f: Frame, j: nat, e: Pte, g: Frame, k: nat)
    requires IsTable(m, f) && j < ENTRIES
    ensures EntryAt(SetEntry(m, f, j, e), g, k) == (if g == f && k == j then e else EntryAt(m, g, k))
    ensures IsTable(SetEntry(m, f, j, e), g) <==> IsTable(m, g)
  {
  }

  // ---- a new page table changes no translation ----

  lemma NewTableEntry(m: Mem, d: Frame, i: nat, g: Frame, k: nat)
    requires m.free != [] && IsTable(m, d) && i < ENTRIES && m.free[0] != d
    ensures EntryAt(NewTable(m, d, i), g, k) ==
            (if g == d && k == i then Present(m.free[0], WU) else if g == m.free[0] then Absent else EntryAt(m, g, k))
    ensures IsTable(NewTable(m, d, i), g) <==> IsTable(m, g) || g == m.free[0]
  {
  }

  lemma NewTableLookup(m: Mem, d: Frame, own: map<Frame, Slot>, i: nat, v: nat)
    requires Space(m, d, own) && m.free != [] && i < ENTRIES && EntryAt(m, d, i) == Absent && v < ALLPAGES
    ensures m.free[0] != d && Lookup(NewTable(m, d, i), d, v) == Lookup(m, d, v)
  {
    hide NewTable, EntryAt, IsTable;
    var t := m.free[0];
    assert t in m.free;
    NewTableEntry(m, d, i, d, v / ENTRIES);
    assert TabAt(m, d, own, v / ENTRIES);
    var pde := EntryAt(NewTable(m, d, i), d, v / ENTRIES);
    if pde.Present? {
      NewTableEntry(m, d, i, pde.frame, v % ENTRIES);
    }
  }

  lemma NewTableOwns(m: Mem, d: Frame, own: map<Frame, Slot>, i: nat)
    requires Space(m, d, own) && m.free != [] && i < ENTRIES && EntryAt(m, d, i) == Absent
    ensures m.free[0] != d && Owns(NewTable(m, d, i), d, own[m.free[0] := TabSlot(i)])
  {
    var t := m.free[0];
    assert t in m.free && t !in own;
    var m', own' := NewTable(m, d, i), own[t := TabSlot(i)];
    hide NewTable, EntryAt, IsTable, Lookup;
    NewTableEntry(m, d, i, d, i);
    forall k: nat | k < ENTRIES ensures TabAt(m', d, own', k) {
      assert TabAt(m, d, own, k);
      NewTableEntry(m, d, i, d, k);
      if EntryAt(m', d, k).Present? {
        NewTableEntry(m, d, i, EntryAt(m', d, k).frame, 0);
      }
    }
    forall v: nat | v < USERPAGES ensures PageAt(m', d, own', v) {
      assert PageAt(m, d, own, v);
      NewTableLookup(m, d, own, i, v);
      SameData(m, d, i);
    }
    forall f | f in own' ensures HeldAt(m', d, own', f) {
      if f != t {
        assert HeldAt(m, d, own, f);
        match own[f]
        case DirSlot =>
        case TabSlot(k) => NewTableEntry(m, d, i, d, k);
        case PageSlot(v) => if v < USERPAGES { NewTableLookup(m, d, own, i, v); }
      }
    }
  }

  lemma SameData(m: Mem, d: Frame, i: nat)
    requires m.free != [] && IsTable(m, d) && i < ENTRIES && m.free[0] != d
    ensures NewTable(m, d, i).data == m.data && NewTable(m, d, i).free == m.free[1..]
  {
  }

  lemma PopApart(m: Mem, own: map<Frame, Slot>, s: Slot)
    requires Apart(m, own) && m.free != []
    ensures Apart(Pop(m), own) && Apart(Pop(m), own[m.free[0] := s])
    ensures m.free[0] !in own && m.free[0] !in Pop(m).free
    ensures FreeSet(m) == FreeSet(Pop(m)) + {m.free[0]}
  {
    assert m.free == [m.free[0]] + m.free[1..];
    assert m.free[0] in m.free;
  }
}
