/** Mapping fresh zeroed pages, and giving them back when memory runs out. */
module VmGrow {
  import opened Paging
  import opened PagingFrames
  import opened VmSpec
  import opened VmShrink

  // kalloc, and the page filled with bytes.
  function Taken(m: Mem, bytes: Page): Mem
    requires m.free != []
  {
    Pop(m).(data := m.data[m.free[0] := bytes])
  }

  lemma TakenOwns(m: Mem, d: Frame, own: map<Frame, Slot>, bytes: Page)
    requires Space(m, d, own) && m.free != []
    ensures Space(Taken(m, bytes), d, own) && SameView(m, Taken(m, bytes), d)
  {
    PopApart(m, own, DirSlot);
    var m' := Taken(m, bytes);
    forall v: nat | v < USERPAGES ensures PageAt(m', d, own, v) {
      assert PageAt(m, d, own, v);
    }
    forall i: nat | i < ENTRIES ensures TabAt(m', d, own, i) {
      assert TabAt(m, d, own, i);
    }
    forall f | f in own ensures HeldAt(m', d, own, f) {
      assert HeldAt(m, d, own, f);
    }
  }

  lemma TakenSpace(m: Mem, d: Frame, own: map<Frame, Slot>, bytes: Page)
    requires Space(m, d, own) && m.free != []
    ensures var m', f := Taken(m, bytes), m.free[0];
            && Space(m', d, own) && SameView(m, m', d) && InHand(m', own, f) && m'.data[f] == bytes
            && Total(m', own) + {f} == Total(m, own) && FreeSet(m') + {f} == FreeSet(m)
            && Outside(m, m', {f}) && f in m.free
  {
    TakenOwns(m, d, own, bytes);
    PopApart(m, own, DirSlot);
    assert m.free[0] in m.free;
    hide Owns, SameView;
  }

  // kfree of a page in hand.
  lemma HandedBack(m: Mem, d: Frame, own: map<Frame, Slot>, f: Frame)
    requires Space(m, d, own) && InHand(m, own, f)
    ensures Space(Release(m, f), d, own) && SameView(m, Release(m, f), d)
    ensures Total(Release(m, f), own) == Total(m, own) + {f} && Outside(m, Release(m, f), {f})
  {
    var m' := Release(m, f);
    var none: set<Frame> := {f};
    assert Outside(m, m', none);
    assert own.Keys !! none;
    Untouched(m, m', none, d, own);
    forall w: nat | w < ALLPAGES ensures Lookup(m', d, w) == Lookup(m, d, w) {
      UntouchedLookup(m, m', none, d, own, w);
    }
    assert forall g :: g in m'.free <==> g == f || g in m.free;
    assert FreeSet(m') == FreeSet(m) + {f};
  }

  // A page the operation mapped: a frame that was free, filled with bytes.
  predicate FreshAt(m: Mem, m': Mem, e: Pte, flags: nat, bytes: Page) {
    e.Present? && e.flags == flags && e.frame in m.free && e.frame in m'.data && m'.data[e.frame] == bytes
  }

  // Pages lo to hi are mapped to fresh zeroed frames; everything else is as it was.
  ghost predicate GrownView(m: Mem, m': Mem, d: Frame, lo: nat, hi: nat) {
    forall w: nat :: w < ALLPAGES ==>
      if lo <= w < hi then FreshAt(m, m', Lookup(m', d, w), WU, ZeroPage()) else Lookup(m', d, w) == Lookup(m, d, w)
  }

  ghost predicate Grown(m: Mem, m': Mem, d: Frame, own: map<Frame, Slot>, own': map<Frame, Slot>, lo: nat, hi: nat) {
    && Space(m', d, own') && GrownView(m, m', d, lo, hi) && Gains(m, own, own')
    && Total(m', own') == Total(m, own) && Outside(m, m', Total(m, own)) && KeepsData(m, m', own, own')
    && FreeSet(m') <= FreeSet(m)
  }

  lemma GrownNone(m: Mem, d: Frame, own: map<Frame, Slot>, lo: nat)
    requires Space(m, d, own)
    ensures Grown(m, m, d, own, own, lo, lo)
  {
  }

  lemma GrownNextView(m: Mem, m1: Mem, own1: map<Frame, Slot>, m2: Mem, m3: Mem, d: Frame, lo: nat, a: nat)
    requires GrownView(m, m1, d, lo, a) && lo <= a < USERPAGES && m1.free != [] && FreeSet(m1) <= FreeSet(m)
    requires Space(m1, d, own1)
    requires m2 == Taken(m1, ZeroPage()) && SameView(m1, m2, d) && Maps(m2, m3, d, a, 1, m1.free[0], WU)
             && m3.data == m2.data
    ensures GrownView(m, m3, d, lo, a + 1)
  {
    hide Lookup;
    var f := m1.free[0];
    assert f in m1.free && f in FreeSet(m1);
    forall w: nat | w < ALLPAGES
      ensures if lo <= w < a + 1 then FreshAt(m, m3, Lookup(m3, d, w), WU, ZeroPage())
              else Lookup(m3, d, w) == Lookup(m, d, w)
    {
      assert Lookup(m2, d, w) == Lookup(m1, d, w);
      if lo <= w < a {
        assert PageAt(m1, d, own1, w);
        assert f !in own1;
      }
    }
  }

  lemma GrownNext(m: Mem, m1: Mem, m2: Mem, m3: Mem, d: Frame, own: map<Frame, Slot>, own1: map<Frame, Slot>,
                  own3: map<Frame, Slot>, lo: nat, a: nat)
    requires Grown(m, m1, d, own, own1, lo, a) && lo <= a < USERPAGES && m1.free != []
    requires m2 == Taken(m1, ZeroPage()) && Mapped(m2, m3, d, own1, own3, a, 1, m1.free[0], WU)
    ensures Grown(m, m3, d, own, own3, lo, a + 1)
  {
    var f := m1.free[0];
    TakenSpace(m1, d, own1, ZeroPage());
    GrownNextView(m, m1, own1, m2, m3, d, lo, a);
    OutsideTwice(m, m1, m2, Total(m, own), {f});
    OutsideTwice(m, m2, m3, Total(m, own), Total(m2, own1));
    hide Space, Outside, GrownView, Maps, SameView;
    GrownNextOwned(m, m1, m2, own, own1, own3, f, a);
    assert KeepsData(m, m3, own, own3) by {
      forall g | g in own && g in own3 && g in m.data ensures g in m3.data && m3.data[g] == m.data[g] {
        assert g in own1 && g != f;
      }
    }
  }

  lemma GrownNextOwned(m: Mem, m1: Mem, m2: Mem, own: map<Frame, Slot>, own1: map<Frame, Slot>,
                       own3: map<Frame, Slot>, f: Frame, a: nat)
    requires Gains(m, own, own1) && FreeSet(m1) <= FreeSet(m) && f in m1.free && FreeSet(m2) <= FreeSet(m1)
    requires forall g :: g in own1 ==> g in own3 && own3[g] == own1[g]
    requires forall g :: g in own3 && g !in own1 ==> g in m2.free || g == f
    ensures Gains(m, own, own3)
  {
    forall g | g in own3 && g !in own ensures g in m.free {
      assert g in m2.free ==> g in FreeSet(m2);
      assert g in m1.free ==> g in FreeSet(m1);
      assert g in FreeSet(m1) ==> g in FreeSet(m);
    }
  }

  // Out of memory: the user mapping is as it was; table pages may have been gained.
  ghost predicate Restored(m: Mem, m': Mem, d: Frame, own: map<Frame, Slot>, own': map<Frame, Slot>) {
    && Space(m', d, own') && SameView(m, m', d) && Gains(m, own, own')
    && Total(m', own') == Total(m, own) && Outside(m, m', Total(m, own)) && KeepsData(m, m', own, own')
  }

  lemma RestoredView(m: Mem, m1: Mem, m2: Mem, d: Frame, lo: nat, a: nat, hi: nat)
    requires GrownView(m, m1, d, lo, a) && Clears(m1, m2, d, lo, hi) && lo <= a <= hi
    requires forall w: nat :: lo <= w < hi && w < ALLPAGES ==> Lookup(m, d, w) == Absent
    ensures SameView(m, m2, d)
  {
    hide Lookup;
  }

  lemma GrowThenShrink(m: Mem, m1: Mem, m2: Mem, d: Frame, own: map<Frame, Slot>, own1: map<Frame, Slot>,
                       own2: map<Frame, Slot>, lo: nat, a: nat, hi: nat)
    requires Space(m, d, own) && Grown(m, m1, d, own, own1, lo, a) && Shrunk(m1, m2, d, own1, own2, lo, hi)
             && lo <= a <= hi <= USERPAGES
    requires forall w: nat :: lo <= w < hi ==> Lookup(m, d, w) == Absent
    ensures Restored(m, m2, d, own, own2)
  {
    RestoredView(m, m1, m2, d, lo, a, hi);
    assert Outside(m, m2, Total(m, own)) by {
      OutsideTwice(m, m1, m2, Total(m, own), Total(m1, own1));
    }
    forall f | f in own ensures !InRange(own[f], lo, hi) {
      assert HeldAt(m, d, own, f);
    }
    hide Space, Outside, GrownView, SameView, Clears, Lookup;
    assert Gains(m, own, own2);
    assert KeepsData(m, m2, own, own2);
  }

  // The same when a page was in hand: it is given back last.
  lemma GrowTakeShrink(m: Mem, m1: Mem, m2: Mem, m3: Mem, d: Frame, own: map<Frame, Slot>, own1: map<Frame, Slot>,
                       own3: map<Frame, Slot>, lo: nat, a: nat, hi: nat)
    requires Space(m, d, own) && Grown(m, m1, d, own, own1, lo, a) && m1.free != [] && lo <= a <= hi <= USERPAGES
    requires m2 == Taken(m1, ZeroPage()) && Shrunk(m2, m3, d, own1, own3, lo, hi)
    requires forall w: nat :: lo <= w < hi ==> Lookup(m, d, w) == Absent
    ensures Restored(m, Release(m3, m1.free[0]), d, own, own3)
  {
    var f, m4 := m1.free[0], Release(m3, m1.free[0]);
    TakenSpace(m1, d, own1, ZeroPage());
    StillInHand(m2, m3, d, own1, own3, f, lo, hi);
    HandedBack(m3, d, own3, f);
    BackView(m1, m2, m3, m4, d, lo, hi);
    RestoredView(m, m1, m4, d, lo, a, hi);
    BackOutside(m, m1, m2, m3, m4, Total(m, own), Total(m2, own1), f);
    BackOwned(m, m2, m3, d, own, own1, own3, lo, hi);
    hide Space, Outside, GrownView, SameView, Clears, Lookup, Gains;
    assert KeepsData(m, m4, own, own3) by {
      forall g | g in own && g in own3 && g in m.data ensures g in m4.data && m4.data[g] == m.data[g] {
        assert g in own1;
      }
    }
  }

  lemma BackView(m1: Mem, m2: Mem, m3: Mem, m4: Mem, d: Frame, lo: nat, hi: nat)
    requires SameView(m1, m2, d) && Clears(m2, m3, d, lo, hi) && SameView(m3, m4, d)
    ensures Clears(m1, m4, d, lo, hi)
  {
    hide Lookup;
  }

  lemma BackOutside(m: Mem, m1: Mem, m2: Mem, m3: Mem, m4: Mem, ours: set<Frame>, ours2: set<Frame>, f: Frame)
    requires Outside(m, m1, ours) && Outside(m1, m2, {f}) && Outside(m2, m3, ours2) && Outside(m3, m4, {f})
    requires f in ours && ours2 <= ours
    ensures Outside(m, m4, ours)
  {
    OutsideTwice(m, m1, m2, ours, {f});
    OutsideTwice(m, m2, m3, ours, ours2);
    OutsideTwice(m, m3, m4, ours, {f});
  }

  // Frames the directory owned before it grew were not in the range, so they are still its own.
  lemma BackOwned(m: Mem, m1: Mem, m2: Mem, d: Frame, own: map<Frame, Slot>, own1: map<Frame, Slot>,
                  own2: map<Frame, Slot>, lo: nat, hi: nat)
    requires Space(m, d, own) && Gains(m, own, own1) && Shrunk(m1, m2, d, own1, own2, lo, hi) && hi <= USERPAGES
    requires forall w: nat :: lo <= w < hi ==> Lookup(m, d, w) == Absent
    ensures Gains(m, own, own2)
  {
    hide Clears, Outside, KeepsData, Total;
    forall g | g in own ensures !InRange(own[g], lo, hi) {
      assert HeldAt(m, d, own, g);
    }
  }

  lemma StillInHand(m: Mem, m': Mem, d: Frame, own: map<Frame, Slot>, own': map<Frame, Slot>, f: Frame, lo: nat,
                    hi: nat)
    requires InHand(m, own, f) && Shrunk(m, m', d, own, own', lo, hi)
    ensures InHand(m', own', f)
  {
    hide Space, Clears;
    assert SamePage(m, m', f);
    assert f !in Total(m', own');
  }
}
