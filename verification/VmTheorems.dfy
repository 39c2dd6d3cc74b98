/** Frame conservation over any number of live directories. */
module VmTheorems {
  import opened Paging
  import opened PagingFrames
  import opened VmSpec
  import opened VmShrink
  import opened VmGrow
  import opened VmCopy

  // vm.c's kmap, for a kernel whose data starts at physical page data: I/O space, text, data and memory up to
  // PHYSTOP, and devices.
  function XvKmap(data: nat): seq<Kmap>
    requires 256 < data < 0xE000
  {
    [Kmap(0x80000, 256, 0, 2), Kmap(0x80100, data - 256, 256, 0),
     Kmap(0x80000 + data, 0xE000 - data, data, 2), Kmap(0xFE000, 0x2000, 0xFE000, 2)]
  }

  // Its lines lie in the kernel half and do not overlap, so mappages never finds a page already mapped.
  lemma XvKmapIsKernelMap(data: nat)
    requires 256 < data < 0xE000
    ensures KernelMap(XvKmap(data))
  {
  }

  type Dirs = map<Frame, map<Frame, Slot>>

  // All directories are live, each frame is free or in exactly one of them, and no frame has come or gone.
  ghost predicate Conserved(m: Mem, dirs: Dirs, m': Mem, dirs': Dirs) {
    Live(m', dirs') && forall f :: InAll(m', dirs', f) <==> InAll(m, dirs, f)
  }

  lemma AllocConserves(m: Mem, m': Mem, dirs: Dirs, d: Frame, own': map<Frame, Slot>, lo: nat, hi: nat)
    requires Live(m, dirs) && d in dirs
    requires Grown(m, m', d, dirs[d], own', lo, hi) || Restored(m, m', d, dirs[d], own')
    ensures Conserved(m, dirs, m', dirs[d := own'])
  {
    hide Space, Live, GrownView, SameView, Gains, KeepsData, Outside, Total;
    StaysLive(m, m', dirs, d, own');
  }

  lemma DeallocConserves(m: Mem, m': Mem, dirs: Dirs, d: Frame, own': map<Frame, Slot>, lo: nat, hi: nat)
    requires Live(m, dirs) && d in dirs && Shrunk(m, m', d, dirs[d], own', lo, hi)
    ensures Conserved(m, dirs, m', dirs[d := own'])
  {
    hide Space, Live, Clears, KeepsData, Outside, Total, EntryAt;
    StaysLive(m, m', dirs, d, own');
  }

  // copyuvm or setupkvm: the new directory's frames were free.
  lemma CopyConserves(m: Mem, m': Mem, dirs: Dirs, d: Frame, own': map<Frame, Slot>)
    requires Live(m, dirs) && FromFree(m, m', d, own')
    ensures d !in dirs && Conserved(m, dirs, m', dirs[d := own'])
  {
    NewIsNew(m, m', dirs, d, own');
    hide Space, Live, Outside;
    assert Total(m, OwnOf(dirs, d)) == FreeSet(m);
    StaysLive(m, m', dirs, d, own');
  }

  lemma NewIsNew(m: Mem, m': Mem, dirs: Dirs, d: Frame, own': map<Frame, Slot>)
    requires Live(m, dirs) && FromFree(m, m', d, own')
    ensures d !in dirs
  {
    assert d in own' && d in Total(m', own') && d in m.free;
    LiveIsNotFree(m, dirs, d);
  }

  lemma LiveIsNotFree(m: Mem, dirs: Dirs, d: Frame)
    requires Live(m, dirs)
    ensures d in dirs ==> d !in m.free
  {
    if d in dirs {
      assert Space(m, d, dirs[d]);
    }
  }

  lemma FailedCopyConserves(m: Mem, m': Mem, dirs: Dirs)
    requires Live(m, dirs) && AllBack(m, m')
    ensures Conserved(m, dirs, m', dirs)
    ensures forall d, v: nat :: d in dirs && v < ALLPAGES ==> Lookup(m', d, v) == Lookup(m, d, v)
  {
    var ours := FreeSet(m);
    hide Lookup;
    forall d | d in dirs
      ensures Space(m', d, dirs[d]) && forall v: nat :: v < ALLPAGES ==> Lookup(m', d, v) == Lookup(m, d, v)
    {
      assert Space(m, d, dirs[d]);
      assert dirs[d].Keys !! ours;
      Untouched(m, m', ours, d, dirs[d]);
      forall v: nat | v < ALLPAGES ensures Lookup(m', d, v) == Lookup(m, d, v) {
        UntouchedLookup(m, m', ours, d, dirs[d], v);
      }
      assert forall f :: f in m'.free ==> f in FreeSet(m');
    }
    assert forall f :: f in m'.free <==> f in FreeSet(m');
    assert forall f :: f in m.free <==> f in FreeSet(m);
  }

  lemma FreeConserves(m: Mem, m': Mem, dirs: Dirs, d: Frame)
    requires Live(m, dirs) && d in dirs
    requires NoRepeat(m'.free) && FreeSet(m') == Total(m, dirs[d]) && Outside(m, m', Total(m, dirs[d]))
    ensures Conserved(m, dirs, m', dirs - {d})
  {
    StaysLiveWithout(m, m', dirs, d);
  }
}
