/** What an operation on one page directory keeps: the frames altogether, and everything outside them. */
module PagingFrames {
  import opened Paging

  lemma OutsideTwice(m: Mem, m1: Mem, m2: Mem, ours: set<Frame>, ours1: set<Frame>)
    requires Outside(m, m1, ours) && Outside(m1, m2, ours1) && ours1 <= ours
    ensures Outside(m, m2, ours)
  {
    forall f | f !in ours ensures SamePage(m, m2, f) {
      assert SamePage(m, m1, f) && SamePage(m1, m2, f);
    }
  }

  // A directory none of whose frames is touched is as it was.
  lemma UntouchedLookup(m: Mem, m': Mem, ours: set<Frame>, d: Frame, own: map<Frame, Slot>, v: nat)
    requires Owns(m, d, own) && Outside(m, m', ours) && own.Keys !! ours && v < ALLPAGES
    ensures Lookup(m', d, v) == Lookup(m, d, v)
  {
    assert SamePage(m, m', d);
    assert TabAt(m, d, own, v / ENTRIES);
    var pde := EntryAt(m, d, v / ENTRIES);
    if pde.Present? {
      assert SamePage(m, m', pde.frame);
    }
  }

  lemma UntouchedEntry(m: Mem, m': Mem, ours: set<Frame>, f: Frame, k: nat)
    requires Outside(m, m', ours) && f !in ours
    ensures EntryAt(m', f, k) == EntryAt(m, f, k) && (IsTable(m', f) <==> IsTable(m, f))
            && (f in m'.data <==> f in m.data)
  {
    assert SamePage(m, m', f);
  }

  lemma Untouched(m: Mem, m': Mem, ours: set<Frame>, d: Frame, own: map<Frame, Slot>)
    requires Owns(m, d, own) && Outside(m, m', ours) && own.Keys !! ours
    ensures Owns(m', d, own)
  {
    hide Lookup, EntryAt, IsTable, Outside;
    UntouchedEntry(m, m', ours, d, 0);
    forall k: nat | k < ENTRIES ensures TabAt(m', d, own, k) {
      assert TabAt(m, d, own, k);
      UntouchedEntry(m, m', ours, d, k);
      if EntryAt(m, d, k).Present? {
        UntouchedEntry(m, m', ours, EntryAt(m, d, k).frame, 0);
      }
    }
    forall v: nat | v < USERPAGES ensures PageAt(m', d, own, v) {
      assert PageAt(m, d, own, v);
      UntouchedLookup(m, m', ours, d, own, v);
      if Lookup(m, d, v).Present? {
        UntouchedEntry(m, m', ours, Lookup(m, d, v).frame, 0);
      }
    }
    forall f | f in own ensures HeldAt(m', d, own, f) {
      assert HeldAt(m, d, own, f);
      match own[f]
      case DirSlot =>
      case TabSlot(k) => UntouchedEntry(m, m', ours, d, k);
      case PageSlot(v) => if v < USERPAGES { UntouchedLookup(m, m', ours, d, own, v); }
    }
  }

  // Any number of live directories, each with frames of its own.
  ghost predicate Live(m: Mem, dirs: map<Frame, map<Frame, Slot>>) {
    && (forall d :: d in dirs ==> Space(m, d, dirs[d]))
    && (forall d, e :: d in dirs && e in dirs && d != e ==> dirs[d].Keys !! dirs[e].Keys)
    && NoRepeat(m.free)
  }

  // The frames in use or free altogether.
  ghost predicate InAll(m: Mem, dirs: map<Frame, map<Frame, Slot>>, f: Frame) {
    f in m.free || exists d :: d in dirs && f in dirs[d]
  }

  // The frames of d, or none if it is not live.
  ghost function OwnOf(dirs: map<Frame, map<Frame, Slot>>, d: Frame): map<Frame, Slot> {
    if d in dirs then dirs[d] else map[]
  }

  // An operation on d, new or live, that keeps the total of the free frames and d's own leaves every other
  // directory its frames and its translations.
  lemma OthersUntouched(m: Mem, m': Mem, dirs: map<Frame, map<Frame, Slot>>, d: Frame, e: Frame)
    requires Live(m, dirs) && e in dirs && e != d && Outside(m, m', Total(m, OwnOf(dirs, d)))
    ensures Owns(m', e, dirs[e])
    ensures forall v: nat :: v < ALLPAGES ==> Lookup(m', e, v) == Lookup(m, e, v)
  {
    var ours := Total(m, OwnOf(dirs, d));
    assert dirs[e].Keys !! ours;
    hide Owns, Lookup, Outside;
    assert Owns(m, e, dirs[e]) by { assert Space(m, e, dirs[e]); }
    Untouched(m, m', ours, e, dirs[e]);
    forall v: nat | v < ALLPAGES ensures Lookup(m', e, v) == Lookup(m, e, v) {
      UntouchedLookup(m, m', ours, e, dirs[e], v);
    }
  }

  // allocuvm, deallocuvm and copyuvm's new directory: all directories stay live and no frame is lost or made.
  lemma StaysLive(m: Mem, m': Mem, dirs: map<Frame, map<Frame, Slot>>, d: Frame, own': map<Frame, Slot>)
    requires Live(m, dirs) && Outside(m, m', Total(m, OwnOf(dirs, d)))
    requires Space(m', d, own') && Total(m', own') == Total(m, OwnOf(dirs, d))
    ensures Live(m', dirs[d := own'])
    ensures forall f :: InAll(m', dirs[d := own'], f) <==> InAll(m, dirs, f)
  {
    var dirs' := dirs[d := own'];
    forall e | e in dirs && e != d ensures Space(m', e, dirs[e]) && dirs[e].Keys !! own'.Keys {
      OthersUntouched(m, m', dirs, d, e);
      StaysApart(m, m', dirs, d, own', e);
    }
    forall f ensures InAll(m', dirs', f) <==> InAll(m, dirs, f) {
      SameTotal(m, m', dirs, d, own', f);
    }
  }

  lemma StaysApart(m: Mem, m': Mem, dirs: map<Frame, map<Frame, Slot>>, d: Frame, own': map<Frame, Slot>, e: Frame)
    requires Live(m, dirs) && e in dirs && e != d
    requires Apart(m', own') && Total(m', own') == Total(m, OwnOf(dirs, d))
    ensures Apart(m', dirs[e]) && dirs[e].Keys !! own'.Keys
  {
    hide Owns;
    assert Space(m, e, dirs[e]);
    forall f | f in dirs[e] ensures f !in m'.free && f !in own' {
      assert f !in Total(m, OwnOf(dirs, d));
      assert f in m'.free ==> f in FreeSet(m');
    }
  }

  lemma SameTotal(m: Mem, m': Mem, dirs: map<Frame, map<Frame, Slot>>, d: Frame, own': map<Frame, Slot>, f: Frame)
    requires Total(m', own') == Total(m, OwnOf(dirs, d))
    ensures InAll(m', dirs[d := own'], f) <==> InAll(m, dirs, f)
  {
    var dirs' := dirs[d := own'];
    assert f in Total(m', own') <==> f in m'.free || f in own';
    assert f in Total(m, OwnOf(dirs, d)) <==> f in m.free || f in OwnOf(dirs, d);
    if InAll(m', dirs', f) && f !in m'.free {
      var e :| e in dirs' && f in dirs'[e];
      assert e != d ==> e in dirs && f in dirs[e];
      assert f in OwnOf(dirs, d) ==> d in dirs && f in dirs[d];
    }
    if InAll(m, dirs, f) && f !in m.free {
      var e :| e in dirs && f in dirs[e];
      assert e != d ==> e in dirs' && f in dirs'[e];
      assert f in own' ==> f in dirs'[d];
    }
    assert f in m'.free && f !in m.free ==> f in OwnOf(dirs, d);
    assert f in own' ==> f in dirs'[d];
  }

  // freevm: the directory is gone and its frames are free.
  lemma StaysLiveWithout(m: Mem, m': Mem, dirs: map<Frame, map<Frame, Slot>>, d: Frame)
    requires Live(m, dirs) && d in dirs && Outside(m, m', Total(m, dirs[d]))
    requires NoRepeat(m'.free) && FreeSet(m') == Total(m, dirs[d])
    ensures Live(m', dirs - {d})
    ensures forall f :: InAll(m', dirs - {d}, f) <==> InAll(m, dirs, f)
  {
    var dirs' := dirs - {d};
    var none: map<Frame, Slot> := map[];
    assert Total(m', none) == Total(m, OwnOf(dirs, d));
    forall e | e in dirs' ensures Space(m', e, dirs'[e]) {
      OthersUntouched(m, m', dirs, d, e);
      StaysApart(m, m', dirs, d, none, e);
    }
    forall f ensures InAll(m', dirs', f) <==> InAll(m, dirs, f) {
      WithoutEmpty(m', dirs, d, f);
      SameTotal(m, m', dirs, d, none, f);
    }
  }

  lemma WithoutEmpty(m: Mem, dirs: map<Frame, map<Frame, Slot>>, d: Frame, f: Frame)
    ensures InAll(m, dirs - {d}, f) <==> InAll(m, dirs[d := map[]], f)
  {
    var gone, none := dirs - {d}, dirs[d := map[]];
    if InAll(m, gone, f) && f !in m.free {
      var e :| e in gone && f in gone[e];
      assert e in none && f in none[e];
    }
    if InAll(m, none, f) && f !in m.free {
      var e :| e in none && f in none[e];
      assert e in gone && f in gone[e];
    }
  }
}
