/** The loops of vm.c. Each operation carries the frames its directory owns as a ghost map. Kalloc and Kfree
    promise of the free frames what Kalloc.TakeFrame and Kalloc.GiveFrame prove of the linked list. */
module Vm {
  import opened Options
  import opened Paging
  import opened PagingSteps
  import opened PagingFrames
  import opened VmSpec
  import opened VmShrink
  import opened VmGrow
  import opened VmCopy

  const KERNBASE: nat := USERPAGES * PGSIZE

  // PGROUNDUP, in pages.
  function PagesUp(sz: nat): nat {
    (sz + PGSIZE - 1) / PGSIZE
  }

  // Page w starts below sz.
  predicate Below(w: nat, sz: nat) {
    w * PGSIZE < sz
  }

  lemma PagesUpIs(sz: nat, w: nat)
    ensures w < PagesUp(sz) <==> Below(w, sz)
  {
  }

  // The pages that start from oldsz up to newsz, and only these, are mapped to zeroed frames that were free.
  ghost predicate BytesAdded(m: Mem, m': Mem, d: Frame, oldsz: nat, newsz: nat) {
    forall w: nat :: w < ALLPAGES ==>
      if !Below(w, oldsz) && Below(w, newsz) then FreshAt(m, m', Lookup(m', d, w), WU, ZeroPage())
      else Lookup(m', d, w) == Lookup(m, d, w)
  }

  // The pages that start from newsz up to oldsz, and only these, are unmapped.
  ghost predicate BytesDropped(m: Mem, m': Mem, d: Frame, oldsz: nat, newsz: nat) {
    forall w: nat :: w < ALLPAGES ==>
      Lookup(m', d, w) == if !Below(w, newsz) && Below(w, oldsz) then Absent else Lookup(m, d, w)
  }

  // Every page that starts below sz has the same bytes and flags in d' on a frame of its own, and d' has no other
  // user page.
  ghost predicate BytesCopied(m: Mem, m': Mem, d: Frame, d': Frame, kmap: seq<Kmap>, sz: nat) {
    forall w: nat :: w < ALLPAGES ==>
      if Below(w, sz) then CopyAt(m, m', Lookup(m, d, w), Lookup(m', d', w))
      else Lookup(m', d', w) == KernelEntry(kmap, |kmap|, w)
  }

  lemma GrownInBytes(m: Mem, m': Mem, d: Frame, own: map<Frame, Slot>, own': map<Frame, Slot>, oldsz: nat, newsz: nat)
    requires Grown(m, m', d, own, own', PagesUp(oldsz), PagesUp(newsz))
    ensures BytesAdded(m, m', d, oldsz, newsz)
  {
    hide Lookup, PagesUp, Below;
    forall w: nat | w < ALLPAGES
      ensures if !Below(w, oldsz) && Below(w, newsz) then FreshAt(m, m', Lookup(m', d, w), WU, ZeroPage())
              else Lookup(m', d, w) == Lookup(m, d, w)
    {
      PagesUpIs(oldsz, w);
      PagesUpIs(newsz, w);
    }
  }

  lemma ShrunkInBytes(m: Mem, m': Mem, d: Frame, own: map<Frame, Slot>, own': map<Frame, Slot>, oldsz: nat, newsz: nat)
    requires Shrunk(m, m', d, own, own', PagesUp(newsz), PagesUp(oldsz))
    ensures BytesDropped(m, m', d, oldsz, newsz)
  {
    hide Lookup, PagesUp, Below, Space;
    forall w: nat | w < ALLPAGES
      ensures Lookup(m', d, w) == if !Below(w, newsz) && Below(w, oldsz) then Absent else Lookup(m, d, w)
    {
      PagesUpIs(oldsz, w);
      PagesUpIs(newsz, w);
    }
  }

  lemma CopiedInBytes(m: Mem, m': Mem, d: Frame, d': Frame, kmap: seq<Kmap>, sz: nat)
    requires CopiedView(m, m', d, d', kmap, PagesUp(sz))
    ensures BytesCopied(m, m', d, d', kmap, sz)
  {
    hide Lookup, PagesUp, Below;
    forall w: nat | w < ALLPAGES
      ensures if Below(w, sz) then CopyAt(m, m', Lookup(m, d, w), Lookup(m', d', w))
              else Lookup(m', d', w) == KernelEntry(kmap, |kmap|, w)
    {
      PagesUpIs(sz, w);
    }
  }

  class Memory {
    var free: seq<Frame>
    var tables: map<Frame, seq<Pte>>
    var data: map<Frame, Page>

    function M(): Mem
      reads this
    {
      Mem(free, tables, data)
    }

    method Kalloc() returns (r: Option<Frame>)
      modifies this`free
      ensures if old(free) == [] then r == None && free == [] else r == Some(old(free)[0]) && free == old(free)[1..]
    {
      if free == [] {
        r := None;
      } else {
        r := Some(free[0]);
        free := free[1..];
      }
    }

    // No caller frees a free frame.
    method Kfree(f: Frame)
      requires f !in free
      modifies this
      ensures M() == Release(old(M()), f)
    {
      free := [f] + free;
      tables := tables - {f};
      data := data - {f};
    }

    // The page table for virtual page v, made if alloc says so and there is memory.
    method Walkpgdir(d: Frame, v: nat, alloc: bool, ghost own: map<Frame, Slot>)
      returns (t: Option<Frame>, ghost own': map<Frame, Slot>)
      requires Space(M(), d, own) && v < ALLPAGES
      modifies this`free, this`tables
      ensures Walked(old(M()), M(), d, own, own')
      ensures t.Some? ==> HasTable(M(), d, v) && TableFor(M(), d, v) == t.value
      ensures t.None? ==> EntryAt(M(), d, v / ENTRIES) == Absent && (!alloc || free == [])
      ensures t.None? || !alloc ==> M() == old(M()) && own' == own
    {
      NoWalk(M(), d, own);
      own' := own;
      var pde := tables[d][v / ENTRIES];
      assert TabAt(M(), d, own, v / ENTRIES);
      if pde.Present? {
        t := Some(pde.frame);
      } else if !alloc || free == [] {
        t := None;
      } else {
        NewTableWalked(M(), d, own, v / ENTRIES);
        ghost var m := M();
        t := Kalloc();
        tables := tables[t.value := NoEntries()];
        tables := tables[d := tables[d][v / ENTRIES := Present(t.value, WU)]];
        assert M() == NewTable(m, d, v / ENTRIES);
        own' := own[t.value := TabSlot(v / ENTRIES)];
      }
    }

    // Pages v to v + n translate to the frames from pa on. A user page's frame is handed over.
    method Mappages(d: Frame, v: nat, n: nat, pa: Frame, flags: nat, ghost own: map<Frame, Slot>)
      returns (ok: bool, ghost own': map<Frame, Slot>)
      requires Space(M(), d, own) && 1 <= n && v + n <= ALLPAGES
      requires forall w: nat :: v <= w < v + n ==> Lookup(M(), d, w) == Absent
      requires v < USERPAGES ==> n == 1 && InHand(M(), own, pa)
      modifies this`free, this`tables
      ensures ok ==> Mapped(old(M()), M(), d, own, own', v, n, pa, flags)
      ensures !ok ==> free == [] && exists k: nat :: k < n && Mapped(old(M()), M(), d, own, own', v, k, pa, flags)
      ensures !ok && v < USERPAGES ==> M() == old(M()) && own' == own
    {
      hide Space, HasTable;
      MappedNone(M(), d, own, v, pa, flags);
      own' := own;
      ok := true;
      var k := 0;
      ghost var m := M();
      while ok && k < n
        invariant 0 <= k <= n
        invariant Mapped(m, M(), d, own, own', v, k, pa, flags)
        invariant !ok ==> free == [] && k < n
        invariant v < USERPAGES && k == 0 ==> M() == m && own' == own
        decreases n - k, ok
      {
        ok, own' := MapNext(d, v, k, n, pa, flags, m, own, own');
        if ok {
          k := k + 1;
        }
      }
    }

    method MapNext(d: Frame, v: nat, k: nat, n: nat, pa: Frame, flags: nat, ghost m: Mem, ghost own: map<Frame, Slot>,
                   ghost own1: map<Frame, Slot>)
      returns (ok: bool, ghost own': map<Frame, Slot>)
      requires Mapped(m, M(), d, own, own1, v, k, pa, flags) && k < n && v + n <= ALLPAGES
      requires Lookup(m, d, v + k) == Absent
      requires v < USERPAGES ==> k == 0 && InHand(M(), own1, pa)
      modifies this`free, this`tables
      ensures ok ==> Mapped(m, M(), d, own, own', v, k + 1, pa, flags)
      ensures !ok ==> free == [] && M() == old(M()) && own' == own1
    {
      ghost var m1 := M();
      MappedFacts(m, m1, d, own, own1, v, k, pa, flags);
      hide Mapped, Walked, Lookup, Space, HasTable, InHand;
      var t;
      t, own' := Walkpgdir(d, v + k, true, own1);
      ok := t.Some?;
      if ok {
        ghost var m2, own2 := M(), own';
        WalkedFacts(m1, m2, d, own1, own2, v + k, t.value);
        if v < USERPAGES {
          HandAfterWalk(m1, m2, d, own1, own2, pa);
        }
        MapOne(m2, d, own2, v + k, pa + k, flags);
        var j := (v + k) % ENTRIES;
        tables := tables[t.value := tables[t.value][j := Present(pa + k, flags)]];
        assert M() == Written(m2, d, v + k, Present(pa + k, flags));
        own' := OwnPage(own2, v + k, pa + k);
        MappedNext(m, m1, m2, M(), d, own, own1, own2, own', v, k, pa, flags);
      }
    }

    // Unmap the user pages above newsz.
    method Deallocuvm(d: Frame, oldsz: nat, newsz: nat, ghost own: map<Frame, Slot>)
      returns (r: nat, ghost own': map<Frame, Slot>)
      requires Space(M(), d, own) && oldsz <= KERNBASE
      modifies this
      ensures r == if newsz >= oldsz then oldsz else newsz
      ensures newsz >= oldsz ==> M() == old(M()) && own' == own
      ensures newsz < oldsz ==> Shrunk(old(M()), M(), d, own, own', PagesUp(newsz), PagesUp(oldsz))
      ensures newsz < oldsz ==> BytesDropped(old(M()), M(), d, oldsz, newsz)
    {
      own' := own;
      if newsz >= oldsz {
        return oldsz, own;
      }
      hide Space, Shrunk;
      ghost var m := M();
      var a := PagesUp(newsz);
      ShrunkNone(m, d, own, a);
      while a * PGSIZE < oldsz
        invariant PagesUp(newsz) <= a && Shrunk(m, M(), d, own, own', PagesUp(newsz), UpTo(a, PagesUp(oldsz)))
        decreases PagesUp(oldsz) - a
      {
        a, own' := DropPage(d, a, PagesUp(oldsz), PagesUp(newsz), m, own, own');
      }
      ShrunkInBytes(m, M(), d, own, own', oldsz, newsz);
      r := newsz;
    }

    // One turn of deallocuvm's loop: a page is freed, or found unmapped, or a whole missing table is skipped.
    method DropPage(d: Frame, a: nat, ghost hi: nat, ghost lo: nat, ghost m: Mem, ghost own: map<Frame, Slot>,
                    ghost own1: map<Frame, Slot>)
      returns (next: nat, ghost own': map<Frame, Slot>)
      requires lo <= a < hi <= USERPAGES && Shrunk(m, M(), d, own, own1, lo, a)
      modifies this
      ensures a < next && Shrunk(m, M(), d, own, own', lo, UpTo(next, hi))
    {
      ghost var m1 := M();
      ShrunkFacts(m, m1, d, own, own1, lo, a);
      hide Shrunk, Space, Walked, HasTable, Owns;
      var t;
      t, own' := Walkpgdir(d, a, false, own1);
      if t.None? {
        next := (a / ENTRIES + 1) * ENTRIES;
        forall w: nat | a <= w < UpTo(next, hi) ensures Lookup(m1, d, w) == Absent {
          NoTableNoPages(m1, d, a, w);
        }
        ShrunkSkip(m, m1, d, own, own', lo, a, UpTo(next, hi));
      } else {
        next := a + 1;
        TableFacts(m1, d, a);
        var pte := tables[t.value][a % ENTRIES];
        if pte.Present? {
          own' := FreePage(d, t.value, a, own1);
          ShrunkTwice(m, m1, M(), d, own, own1, own', lo, a, a + 1);
        } else {
          ShrunkSkip(m, m1, d, own, own', lo, a, a + 1);
        }
      }
    }

    // The page goes back to the free list and its entry is cleared.
    method FreePage(d: Frame, t: Frame, a: nat, ghost own: map<Frame, Slot>) returns (ghost own': map<Frame, Slot>)
      requires Space(M(), d, own) && HasTable(M(), d, a) && TableFor(M(), d, a) == t
      requires a < USERPAGES && Lookup(M(), d, a).Present?
      modifies this
      ensures Shrunk(old(M()), M(), d, own, own', a, a + 1)
    {
      ghost var m := M();
      var pte := tables[t][a % ENTRIES];
      FreeThenClear(m, d, own, a);
      UnmapShrinks(m, d, own, a);
      hide Shrunk, Space, Owns;
      Kfree(pte.frame);
      tables := tables[t := tables[t][a % ENTRIES := Absent]];
      assert M() == Unmapped(m, d, a);
      own' := own - {pte.frame};
    }

    // Map fresh zeroed pages from oldsz up to newsz; on failure give everything back and return 0.
    method Allocuvm(d: Frame, oldsz: nat, newsz: nat, ghost own: map<Frame, Slot>)
      returns (r: nat, ghost own': map<Frame, Slot>)
      requires Space(M(), d, own)
      requires forall w: nat :: !Below(w, oldsz) && Below(w, newsz) && w < USERPAGES ==> Lookup(M(), d, w) == Absent
      modifies this
      ensures newsz >= KERNBASE ==> r == 0
      ensures newsz < oldsz && newsz < KERNBASE ==> r == oldsz
      ensures newsz >= KERNBASE || newsz < oldsz ==> M() == old(M()) && own' == own
      ensures oldsz <= newsz < KERNBASE ==>
                || (r == newsz && Grown(old(M()), M(), d, own, own', PagesUp(oldsz), PagesUp(newsz))
                    && BytesAdded(old(M()), M(), d, oldsz, newsz))
                || (r == 0 && Restored(old(M()), M(), d, own, own'))
    {
      own' := own;
      if newsz >= KERNBASE {
        return 0, own;
      }
      if newsz < oldsz {
        return oldsz, own;
      }
      hide Space, Grown, Restored, BytesAdded, Below;
      ghost var m := M();
      forall w: nat | PagesUp(oldsz) <= w < PagesUp(newsz) ensures Lookup(m, d, w) == Absent {
        PagesUpIs(oldsz, w);
        PagesUpIs(newsz, w);
      }
      var a := PagesUp(oldsz);
      GrownNone(m, d, own, a);
      var ok := true;
      while ok && a * PGSIZE < newsz
        invariant PagesUp(oldsz) <= a <= PagesUp(newsz)
        invariant ok ==> Grown(m, M(), d, own, own', PagesUp(oldsz), a)
        invariant !ok ==> Restored(m, M(), d, own, own')
        decreases PagesUp(newsz) - a, ok
      {
        ok, own' := AddPage(d, a, oldsz, newsz, m, own, own');
        if ok {
          a := a + 1;
        }
      }
      if ok {
        GrownInBytes(m, M(), d, own, own', oldsz, newsz);
      }
      r := if ok then newsz else 0;
    }

    // One turn of allocuvm's loop, with its two failures.
    method AddPage(d: Frame, a: nat, oldsz: nat, newsz: nat, ghost m: Mem, ghost own: map<Frame, Slot>,
                   ghost own1: map<Frame, Slot>)
      returns (ok: bool, ghost own': map<Frame, Slot>)
      requires oldsz < newsz < KERNBASE && PagesUp(oldsz) <= a < PagesUp(newsz)
      requires Space(m, d, own) && Grown(m, M(), d, own, own1, PagesUp(oldsz), a)
      requires forall w: nat :: PagesUp(oldsz) <= w < PagesUp(newsz) ==> Lookup(m, d, w) == Absent
      modifies this
      ensures ok ==> Grown(m, M(), d, own, own', PagesUp(oldsz), a + 1)
      ensures !ok ==> Restored(m, M(), d, own, own')
    {
      ghost var m1 := M();
      GrownFacts(m, m1, d, own, own1, PagesUp(oldsz), a);
      hide Space, Grown, Restored, Shrunk, Mapped, Lookup, InHand;
      ghost var lo, hi := PagesUp(oldsz), PagesUp(newsz);
      var mem := Kalloc();
      if mem.None? {
        var _, own2 := Deallocuvm(d, newsz, oldsz, own1);
        own' := own2;
        GrowThenShrink(m, m1, M(), d, own, own1, own', lo, a, hi);
        ok := false;
      } else {
        TakenSpace(m1, d, own1, ZeroPage());
        data := data[mem.value := ZeroPage()];
        ghost var m2 := M();
        assert m2 == Taken(m1, ZeroPage());
        assert Lookup(m2, d, a) == Absent;
        ok, own' := Mappages(d, a, 1, mem.value, WU, own1);
        if ok {
          GrownNext(m, m1, m2, M(), d, own, own1, own', lo, a);
        } else {
          var _, own2 := Deallocuvm(d, newsz, oldsz, own1);
          own' := own2;
          ghost var m3 := M();
          GrowTakeShrink(m, m1, m2, m3, d, own, own1, own', lo, a, hi);
          Kfree(mem.value);
        }
      }
    }

    // Free a directory: its user pages, its tables and itself.
    method Freevm(d: Frame, ghost own: map<Frame, Slot>)
      requires Space(M(), d, own)
      modifies this
      ensures NoRepeat(free) && FreeSet(M()) == Total(old(M()), own) && Outside(old(M()), M(), Total(old(M()), own))
    {
      ghost var m := M();
      hide Space, Shrunk, Bare, Outside, Total, FreeSet, NoRepeat;
      var _, own1 := Deallocuvm(d, KERNBASE, 0, own);
      AllPages();
      ShrunkAway(m, M(), d, own, own1);
      ghost var own' := own1;
      var i := 0;
      while i < ENTRIES
        invariant 0 <= i <= ENTRIES && Bare(M(), d, own', i)
        invariant Total(M(), own') == Total(m, own) && Outside(m, M(), Total(m, own))
      {
        ghost var m1 := M();
        BareFacts(m1, d, own', i);
        var pde := tables[d][i];
        if pde.Present? {
          BareFree(m1, d, own', i);
          KeysInTotal(m1, own');
          Kfree(pde.frame);
          OutsideTwice(m, m1, M(), Total(m, own), own'.Keys);
          own' := own' - {pde.frame};
        } else {
          BareSkip(m1, d, own', i);
        }
        i := i + 1;
      }
      ghost var m2 := M();
      BareEnd(m2, d, own');
      KeysInTotal(m2, own');
      Kfree(d);
      OutsideTwice(m, m2, M(), Total(m, own), own'.Keys);
    }

    // A new directory with the kernel's mappings.
    method Setupkvm(kmap: seq<Kmap>) returns (d: Option<Frame>, ghost own: map<Frame, Slot>)
      requires NoRepeat(free) && KernelMap(kmap)
      modifies this
      ensures d.Some? ==> FromFree(old(M()), M(), d.value, own) && KernelView(M(), d.value, kmap, |kmap|)
      ensures d.None? ==> AllBack(old(M()), M())
    {
      ghost var m := M();
      own := map[];
      d := Kalloc();
      if d.None? {
        return;
      }
      FreshDir(m, kmap);
      hide FromFree, KernelView, Mapped, KernelMap, AllBack;
      tables := tables[d.value := NoEntries()];
      assert M() == NewDir(m);
      own := map[d.value := DirSlot];
      var k := 0;
      while k < |kmap|
        invariant 0 <= k <= |kmap| && d.Some?
        invariant FromFree(m, M(), d.value, own) && KernelView(M(), d.value, kmap, k)
      {
        var ok;
        ok, own := MapLine(d.value, kmap, k, m, own);
        if !ok {
          FromFreeSpace(m, M(), d.value, own);
          ghost var m1 := M();
          Freevm(d.value, own);
          FreedIsBack(m, m1, M(), d.value, own);
          d := None;
          return;
        }
        k := k + 1;
      }
    }

    // One turn of setupkvm's loop.
    method MapLine(d: Frame, kmap: seq<Kmap>, k: nat, ghost m: Mem, ghost own: map<Frame, Slot>)
      returns (ok: bool, ghost own': map<Frame, Slot>)
      requires KernelMap(kmap) && k < |kmap| && FromFree(m, M(), d, own) && KernelView(M(), d, kmap, k)
      modifies this`free, this`tables
      ensures FromFree(m, M(), d, own')
      ensures ok ==> KernelView(M(), d, kmap, k + 1)
    {
      ghost var m1 := M();
      var line := kmap[k];
      assert USERPAGES <= line.v && 1 <= line.n && line.v + line.n <= ALLPAGES;
      forall w: nat | line.v <= w < line.v + line.n ensures Lookup(m1, d, w) == Absent {
        SetupReady(m1, d, kmap, k, w);
      }
      FromFreeSpace(m, m1, d, own);
      hide FromFree, KernelView, Mapped, KernelMap, Lookup, Space;
      ok, own' := Mappages(d, line.v, line.n, line.pa, line.flags, own);
      if ok {
        SetupNext(m, m1, M(), d, own, own', kmap, k);
      } else {
        ghost var n: nat :| n < line.n && Mapped(m1, M(), d, own, own', line.v, n, line.pa, line.flags);
        SetupAny(m, m1, M(), d, own, own', line, n);
      }
    }

    // A copy of the first sz bytes of directory d for a child, or nothing.
    method Copyuvm(d: Frame, sz: nat, kmap: seq<Kmap>, ghost own: map<Frame, Slot>)
      returns (d': Option<Frame>, ghost own': map<Frame, Slot>)
      requires Space(M(), d, own) && sz <= KERNBASE && KernelMap(kmap)
      requires forall w: nat :: Below(w, sz) ==> Lookup(M(), d, w).Present?
      modifies this
      ensures d'.Some? ==>
                && FromFree(old(M()), M(), d'.value, own') && CopiedView(old(M()), M(), d, d'.value, kmap, PagesUp(sz))
                && BytesCopied(old(M()), M(), d, d'.value, kmap, sz)
      ensures d'.None? ==> AllBack(old(M()), M())
    {
      ghost var m := M();
      assert NoRepeat(free);
      d', own' := Setupkvm(kmap);
      if d'.None? {
        return;
      }
      assert CopiedView(m, M(), d, d'.value, kmap, 0);
      hide FromFree, CopiedView, KernelMap, AllBack, Space, BytesCopied;
      var i := 0;
      while i * PGSIZE < sz
        invariant 0 <= i <= PagesUp(sz) && d'.Some?
        invariant FromFree(m, M(), d'.value, own') && CopiedView(m, M(), d, d'.value, kmap, i)
        decreases PagesUp(sz) - i
      {
        var ok;
        ok, own' := CopyPage(d, d'.value, i, kmap, m, own, own');
        if !ok {
          FromFreeSpace(m, M(), d'.value, own');
          ghost var m1 := M();
          Freevm(d'.value, own');
          FreedIsBack(m, m1, M(), d'.value, own');
          d' := None;
          return;
        }
        i := i + 1;
      }
      CopiedInBytes(m, M(), d, d'.value, kmap, sz);
    }

    // One turn of copyuvm's loop.
    method CopyPage(d: Frame, d': Frame, i: nat, ghost kmap: seq<Kmap>, ghost m: Mem, ghost own: map<Frame, Slot>,
                    ghost own1: map<Frame, Slot>)
      returns (ok: bool, ghost own': map<Frame, Slot>)
      requires Space(m, d, own) && i < USERPAGES && Lookup(m, d, i).Present? && KernelMap(kmap)
      requires FromFree(m, M(), d', own1) && CopiedView(m, M(), d, d', kmap, i)
      modifies this
      ensures FromFree(m, M(), d', own')
      ensures ok ==> CopiedView(m, M(), d, d', kmap, i + 1)
    {
      ghost var m1 := M();
      CopyReady(m, m1, d, own, d', own1, kmap, i);
      hide Space, FromFree, CopiedView, Mapped, Lookup, Walked, HasTable, InHand;
      own' := own1;
      var t, _ := Walkpgdir(d, i, false, own);
      assert t.Some?;
      TableFacts(m1, d, i);
      var pte := tables[t.value][i % ENTRIES];
      var mem := Kalloc();
      if mem.None? {
        ok := false;
      } else {
        TakenSpace(m1, d', own1, m.data[pte.frame]);
        data := data[mem.value := data[pte.frame]];
        ghost var m2 := M();
        assert m2 == Taken(m1, m.data[pte.frame]);
        ok, own' := Mappages(d', i, 1, mem.value, pte.flags, own1);
        if ok {
          CopiedNext(m, m1, m2, M(), d, d', own1, own', kmap, i, pte);
        } else {
          HandBack(m, m1, m2, d', own1, m.data[pte.frame]);
          Kfree(mem.value);
        }
      }
    }
  }

  lemma HandAfterWalk(m: Mem, m': Mem, d: Frame, own: map<Frame, Slot>, own': map<Frame, Slot>, pa: Frame)
    requires InHand(m, own, pa) && Walked(m, m', d, own, own')
    ensures InHand(m', own', pa)
  {
    hide Space, SameView, Outside;
    assert pa in m'.free ==> pa in FreeSet(m');
  }

  lemma MappedFacts(m: Mem, m1: Mem, d: Frame, own: map<Frame, Slot>, own1: map<Frame, Slot>, v: nat, k: nat,
                    pa: Frame, flags: nat)
    requires Mapped(m, m1, d, own, own1, v, k, pa, flags) && v + k < ALLPAGES
    ensures Space(m1, d, own1) && Lookup(m1, d, v + k) == Lookup(m, d, v + k)
  {
  }

  lemma WalkedFacts(m: Mem, m': Mem, d: Frame, own: map<Frame, Slot>, own': map<Frame, Slot>, v: nat, t: Frame)
    requires Walked(m, m', d, own, own') && HasTable(m', d, v) && TableFor(m', d, v) == t
    ensures Space(m', d, own') && Lookup(m', d, v) == Lookup(m, d, v) && IsTable(m', t)
  {
  }

  function UpTo(a: nat, hi: nat): nat {
    if a < hi then a else hi
  }

  lemma ShrunkFacts(m: Mem, m1: Mem, d: Frame, own: map<Frame, Slot>, own1: map<Frame, Slot>, lo: nat, a: nat)
    requires Shrunk(m, m1, d, own, own1, lo, a)
    ensures Space(m1, d, own1) && Owns(m1, d, own1)
  {
  }

  lemma TableFacts(m: Mem, d: Frame, a: nat)
    requires HasTable(m, d, a)
    ensures IsTable(m, TableFor(m, d, a)) && Lookup(m, d, a) == m.tables[TableFor(m, d, a)][a % ENTRIES]
  {
  }

  lemma GrownFacts(m: Mem, m1: Mem, d: Frame, own: map<Frame, Slot>, own1: map<Frame, Slot>, lo: nat, a: nat)
    requires Grown(m, m1, d, own, own1, lo, a) && a < USERPAGES
    ensures Space(m1, d, own1) && Lookup(m1, d, a) == Lookup(m, d, a)
  {
  }

  lemma BareFacts(m: Mem, d: Frame, own: map<Frame, Slot>, i: nat)
    requires Bare(m, d, own, i)
    ensures IsTable(m, d) && (i < ENTRIES ==> EntryAt(m, d, i) == m.tables[d][i])
  {
  }

  lemma KeysInTotal(m: Mem, own: map<Frame, Slot>)
    ensures own.Keys <= Total(m, own)
  {
  }

  lemma AllPages()
    ensures PagesUp(0) == 0 && PagesUp(KERNBASE) == USERPAGES
  {
  }

  lemma ShrunkAway(m: Mem, m': Mem, d: Frame, own: map<Frame, Slot>, own': map<Frame, Slot>)
    requires Shrunk(m, m', d, own, own', 0, USERPAGES)
    ensures Bare(m', d, own', 0) && Total(m', own') == Total(m, own) && Outside(m, m', Total(m, own))
  {
    ShrunkIsBare(m', d, own');
  }

  lemma FromFreeSpace(m: Mem, m': Mem, d: Frame, own: map<Frame, Slot>)
    requires FromFree(m, m', d, own)
    ensures Space(m', d, own)
  {
  }

  // The parent's page is there to be read, and the child's is not mapped yet.
  lemma CopyReady(m: Mem, m1: Mem, d: Frame, own: map<Frame, Slot>, d': Frame, own1: map<Frame, Slot>,
                  kmap: seq<Kmap>, i: nat)
    requires Space(m, d, own) && i < USERPAGES && Lookup(m, d, i).Present? && KernelMap(kmap)
    requires FromFree(m, m1, d', own1) && CopiedView(m, m1, d, d', kmap, i)
    ensures Space(m1, d, own) && Space(m1, d', own1) && Lookup(m1, d', i) == Absent
            && Lookup(m1, d, i) == Lookup(m, d, i)
    ensures EntryAt(m1, d, i / ENTRIES).Present?
    ensures var f := Lookup(m, d, i).frame; f in m.data && f in m1.data && m1.data[f] == m.data[f]
  {
    ParentKept(m, m1, d, own, d', own1);
    ParentPage(m, m1, d, own, i);
    KernelOnly(kmap, |kmap|, i);
    assert Lookup(m1, d, i) == Lookup(m, d, i);
  }
}
