/** The kernel part of every directory, and the copy of a directory that fork makes. */
module VmCopy {
  import opened Paging
  import opened PagingFrames
  import opened VmSpec
  import opened VmGrow

  // A line of kmap: n pages from v translate to pa and on.
  datatype Kmap = Kmap(v: nat, n: nat, pa: Frame, flags: nat)

  predicate Covers(k: Kmap, w: nat) {
    k.v <= w < k.v + k.n
  }

  ghost predicate KernelMap(kmap: seq<Kmap>) {
    && (forall i :: 0 <= i < |kmap| ==> USERPAGES <= kmap[i].v && 1 <= kmap[i].n && kmap[i].v + kmap[i].n <= ALLPAGES)
    && (forall i, j, w :: 0 <= i < j < |kmap| && Covers(kmap[i], w) ==> !Covers(kmap[j], w))
  }

  // What the first k lines of kmap make of virtual page w.
  function KernelEntry(kmap: seq<Kmap>, k: nat, w: nat): Pte
    requires k <= |kmap|
  {
    if k == 0 then Absent
    else if Covers(kmap[k - 1], w) then Present(kmap[k - 1].pa + (w - kmap[k - 1].v), kmap[k - 1].flags)
    else KernelEntry(kmap, k - 1, w)
  }

  lemma {:induction false} NotYetCovered(kmap: seq<Kmap>, k: nat, j: nat, w: nat)
    requires KernelMap(kmap) && k <= j < |kmap| && Covers(kmap[j], w)
    ensures KernelEntry(kmap, k, w) == Absent
    decreases k
  {
    if k > 0 {
      NotYetCovered(kmap, k - 1, j, w);
    }
  }

  lemma {:induction false} KernelOnly(kmap: seq<Kmap>, k: nat, w: nat)
    requires KernelMap(kmap) && k <= |kmap| && w < USERPAGES
    ensures KernelEntry(kmap, k, w) == Absent
    decreases k
  {
    if k > 0 {
      KernelOnly(kmap, k - 1, w);
    }
  }

  ghost predicate KernelView(m: Mem, d: Frame, kmap: seq<Kmap>, k: nat)
    requires k <= |kmap|
  {
    forall w: nat :: w < ALLPAGES ==> Lookup(m, d, w) == KernelEntry(kmap, k, w)
  }

  // A directory made from free frames alone, nothing else touched.
  ghost predicate FromFree(m: Mem, m': Mem, d: Frame, own: map<Frame, Slot>) {
    Space(m', d, own) && Total(m', own) == FreeSet(m) && Outside(m, m', FreeSet(m))
  }

  // A failed attempt: the same frames are free and nothing else has changed.
  ghost predicate AllBack(m: Mem, m': Mem) {
    NoRepeat(m'.free) && FreeSet(m') == FreeSet(m) && Outside(m, m', FreeSet(m))
  }

  function NewDir(m: Mem): Mem
    requires m.free != []
  {
    Pop(m).(tables := m.tables[m.free[0] := NoEntries()])
  }

  lemma FreshDir(m: Mem, kmap: seq<Kmap>)
    requires NoRepeat(m.free) && m.free != []
    ensures FromFree(m, NewDir(m), m.free[0], map[m.free[0] := DirSlot]) && KernelView(NewDir(m), m.free[0], kmap, 0)
  {
    var d := m.free[0];
    var m', own := NewDir(m), map[d := DirSlot];
    var none: map<Frame, Slot> := map[];
    assert Apart(m, none);
    PopApart(m, none, DirSlot);
    assert none[d := DirSlot] == own;
    assert d in m.free;
    forall k: nat ensures EntryAt(m', d, k) == Absent {
    }
    forall v: nat ensures Lookup(m', d, v) == Absent {
    }
    assert Owns(m', d, own);
    assert Total(m', own) == FreeSet(m);
  }

  lemma SetupReady(m: Mem, d: Frame, kmap: seq<Kmap>, k: nat, w: nat)
    requires KernelMap(kmap) && k < |kmap| && KernelView(m, d, kmap, k) && Covers(kmap[k], w)
    ensures Lookup(m, d, w) == Absent
  {
    NotYetCovered(kmap, k, k, w);
  }

  lemma SetupNext(m: Mem, m1: Mem, m2: Mem, d: Frame, own1: map<Frame, Slot>, own2: map<Frame, Slot>, kmap: seq<Kmap>,
                  k: nat)
    requires KernelMap(kmap) && k < |kmap| && KernelView(m1, d, kmap, k) && FromFree(m, m1, d, own1)
    requires Mapped(m1, m2, d, own1, own2, kmap[k].v, kmap[k].n, kmap[k].pa, kmap[k].flags)
    ensures KernelView(m2, d, kmap, k + 1) && FromFree(m, m2, d, own2)
  {
    SetupAny(m, m1, m2, d, own1, own2, kmap[k], kmap[k].n);
    hide Lookup;
    forall w: nat | w < ALLPAGES ensures Lookup(m2, d, w) == KernelEntry(kmap, k + 1, w) {
    }
  }

  lemma SetupAny(m: Mem, m1: Mem, m2: Mem, d: Frame, own1: map<Frame, Slot>, own2: map<Frame, Slot>, k: Kmap, n: nat)
    requires FromFree(m, m1, d, own1) && USERPAGES <= k.v && Mapped(m1, m2, d, own1, own2, k.v, n, k.pa, k.flags)
    ensures FromFree(m, m2, d, own2)
  {
    hide Space, Maps;
    OutsideTwice(m, m1, m2, FreeSet(m), Total(m1, own1));
    assert Total(m1, own1) + {} == Total(m1, own1);
  }

  lemma FreedIsBack(m: Mem, m1: Mem, m2: Mem, d: Frame, own: map<Frame, Slot>)
    requires FromFree(m, m1, d, own)
    requires NoRepeat(m2.free) && FreeSet(m2) == Total(m1, own) && Outside(m1, m2, Total(m1, own))
    ensures AllBack(m, m2)
  {
    OutsideTwice(m, m1, m2, FreeSet(m), Total(m1, own));
  }

  // ---- copyuvm ----

  // The copy's page has the parent's flags and contents, on a frame that was free.
  predicate CopyAt(m: Mem, m': Mem, e: Pte, e': Pte) {
    && e.Present? && e'.Present? && e'.flags == e.flags
    && e'.frame in FreeSet(m) && e'.frame in m'.data && e.frame in m.data && m'.data[e'.frame] == m.data[e.frame]
  }

  ghost predicate CopiedView(m: Mem, m': Mem, d: Frame, d': Frame, kmap: seq<Kmap>, i: nat) {
    forall w: nat :: w < ALLPAGES ==>
      if w < i then CopyAt(m, m', Lookup(m, d, w), Lookup(m', d', w))
        else Lookup(m', d', w) == KernelEntry(kmap, |kmap|, w)
  }

  // The parent's directory is as it was.
  lemma ParentKept(m: Mem, m': Mem, d: Frame, own: map<Frame, Slot>, d': Frame, own': map<Frame, Slot>)
    requires Space(m, d, own) && FromFree(m, m', d', own')
    ensures Space(m', d, own) && SameView(m, m', d) && d' != d
  {
    assert own.Keys !! FreeSet(m);
    Untouched(m, m', FreeSet(m), d, own);
    forall w: nat | w < ALLPAGES ensures Lookup(m', d, w) == Lookup(m, d, w) {
      UntouchedLookup(m, m', FreeSet(m), d, own, w);
    }
    forall f | f in m'.free ensures f !in own {
      assert f in FreeSet(m') && f in Total(m', own');
    }
    assert d' in own' && d' in FreeSet(m);
  }

  lemma ParentPage(m: Mem, m': Mem, d: Frame, own: map<Frame, Slot>, i: nat)
    requires Space(m, d, own) && Outside(m, m', FreeSet(m)) && i < USERPAGES && Lookup(m, d, i).Present?
    ensures var f := Lookup(m, d, i).frame; f in m.data && f in m'.data && m'.data[f] == m.data[f]
  {
    assert PageAt(m, d, own, i);
    assert SamePage(m, m', Lookup(m, d, i).frame);
  }

  lemma CopiedNextView(m: Mem, m1: Mem, own1: map<Frame, Slot>, m2: Mem, m3: Mem, d: Frame, d': Frame,
                       kmap: seq<Kmap>, i: nat, e: Pte)
    requires CopiedView(m, m1, d, d', kmap, i) && i < USERPAGES && m1.free != [] && FromFree(m, m1, d', own1)
    requires e == Lookup(m, d, i) && e.Present? && e.frame in m.data
    requires m2 == Taken(m1, m.data[e.frame]) && SameView(m1, m2, d') && Maps(m2, m3, d', i, 1, m1.free[0], e.flags)
             && m3.data == m2.data
    ensures CopiedView(m, m3, d, d', kmap, i + 1)
  {
    hide Lookup;
    var f := m1.free[0];
    assert f in m1.free && f in FreeSet(m1) && f in Total(m1, own1) && f !in own1;
    forall w: nat | w < ALLPAGES
      ensures if w < i + 1 then CopyAt(m, m3, Lookup(m, d, w), Lookup(m3, d', w))
              else Lookup(m3, d', w) == KernelEntry(kmap, |kmap|, w)
    {
      assert Lookup(m2, d', w) == Lookup(m1, d', w);
      if w < i {
        assert PageAt(m1, d', own1, w);
      }
    }
  }

  lemma CopiedNext(m: Mem, m1: Mem, m2: Mem, m3: Mem, d: Frame, d': Frame, own1: map<Frame, Slot>,
                   own3: map<Frame, Slot>, kmap: seq<Kmap>, i: nat, e: Pte)
    requires CopiedView(m, m1, d, d', kmap, i) && FromFree(m, m1, d', own1) && i < USERPAGES && m1.free != []
    requires e == Lookup(m, d, i) && e.Present? && e.frame in m.data
    requires m2 == Taken(m1, m.data[e.frame]) && Mapped(m2, m3, d', own1, own3, i, 1, m1.free[0], e.flags)
    ensures CopiedView(m, m3, d, d', kmap, i + 1) && FromFree(m, m3, d', own3)
  {
    var f := m1.free[0];
    TakenSpace(m1, d', own1, m.data[e.frame]);
    CopiedNextView(m, m1, own1, m2, m3, d, d', kmap, i, e);
    OutsideTwice(m, m1, m2, FreeSet(m), {f});
    OutsideTwice(m, m2, m3, FreeSet(m), Total(m2, own1));
    hide Space, Outside, CopiedView, Maps, SameView;
  }

  // The page in hand goes back before the half-made copy does.
  lemma HandBack(m: Mem, m1: Mem, m2: Mem, d': Frame, own1: map<Frame, Slot>, bytes: Page)
    requires FromFree(m, m1, d', own1) && m1.free != [] && m2 == Taken(m1, bytes)
    ensures FromFree(m, Release(m2, m1.free[0]), d', own1)
  {
    var f := m1.free[0];
    TakenSpace(m1, d', own1, bytes);
    HandedBack(m2, d', own1, f);
    OutsideTwice(m, m1, m2, FreeSet(m), {f});
    OutsideTwice(m, m2, Release(m2, f), FreeSet(m), {f});
    hide Space, Outside;
  }
}
