/** The free list is determined by which units are free, so free undoes malloc. */
module HeapCanonical {
  import opened HeapModel
  import opened HeapOps
  import opened Umalloc

  // A node starts a maximal run of free units, and ends it.
  lemma NodeIsRun(mem: Mem, r: seq<int>, i: nat)
    requires FreeList(mem, r, {}) && 1 <= i < |r|
    ensures InFree(mem, r, r[i]) && !InFree(mem, r, r[i] - 1)
    ensures !InFree(mem, r, r[i] + Sz(mem, r[i]))
  {
    assert InBlock(r[i], Sz(mem, r[i]), r[i]);
    forall j | 1 <= j < |r|
      ensures !InBlock(r[j], Sz(mem, r[j]), r[i] - 1) && !InBlock(r[j], Sz(mem, r[j]), r[i] + Sz(mem, r[i]))
    {
      if j < i {
        NodesClear(mem, r, j, i);
      } else if i < j {
        NodesClear(mem, r, i, j);
      }
    }
  }

  // A maximal run of free units starts at a node.
  lemma RunIsNode(mem: Mem, r: seq<int>, u: int)
    requires InFree(mem, r, u) && !InFree(mem, r, u - 1)
    ensures exists i :: 1 <= i < |r| && r[i] == u
  {
    var i :| 1 <= i < |r| && InBlock(r[i], Sz(mem, r[i]), u);
    if r[i] < u {
      assert InBlock(r[i], Sz(mem, r[i]), u - 1);
    }
  }

  ghost predicate SameUnits(mem: Mem, r: seq<int>, mem': Mem, r': seq<int>) {
    forall u :: InFree(mem, r, u) <==> InFree(mem', r', u)
  }

  lemma NodesAgree(mem: Mem, r: seq<int>, mem': Mem, r': seq<int>, i: nat)
    requires FreeList(mem, r, {}) && SameUnits(mem, r, mem', r') && 1 <= i < |r|
    ensures exists j :: 1 <= j < |r'| && r'[j] == r[i]
  {
    NodeIsRun(mem, r, i);
    RunIsNode(mem', r', r[i]);
  }

  lemma EmptyOrInhabited(r: seq<int>)
    ensures r == [] || exists x :: x in r
  {
    if |r| > 0 {
      var x := r[0];
      assert x in r;
    }
  }

  lemma {:induction false} SortedEqual(r: seq<int>, r': seq<int>)
    requires Sorted(r) && Sorted(r')
    requires forall x :: x in r <==> x in r'
    ensures r == r'
  {
    if r == [] {
      EmptyOrInhabited(r');
    } else {
      assert r[0] in r' && r' != [];
      assert r'[0] in r;
      assert r[0] == r'[0];
      forall x ensures x in r[1..] <==> x in r'[1..] {
        assert x in r <==> x == r[0] || x in r[1..];
        assert x in r' <==> x == r'[0] || x in r'[1..];
      }
      SortedEqual(r[1..], r'[1..]);
      assert r == [r[0]] + r[1..] && r' == [r'[0]] + r'[1..];
    }
  }

  lemma SizesAgree(mem: Mem, r: seq<int>, mem': Mem, i: nat)
    requires FreeList(mem, r, {}) && FreeList(mem', r, {}) && SameUnits(mem, r, mem', r) && 1 <= i < |r|
    ensures Sz(mem, r[i]) == Sz(mem', r[i])
  {
    NodeIsRun(mem, r, i);
    NodeIsRun(mem', r, i);
    assert Sz(mem, r[i]) < Sz(mem', r[i]) ==> InBlock(r[i], Sz(mem', r[i]), r[i] + Sz(mem, r[i]));
    assert Sz(mem', r[i]) < Sz(mem, r[i]) ==> InBlock(r[i], Sz(mem, r[i]), r[i] + Sz(mem', r[i]));
  }

  // Two coalesced free lists with the same base and the same free units are the same list.
  lemma Canonical(mem: Mem, r: seq<int>, mem': Mem, r': seq<int>)
    requires FreeList(mem, r, {}) && FreeList(mem', r', {}) && r[0] == r'[0] && SameUnits(mem, r, mem', r')
    ensures r == r' && forall i :: 0 <= i < |r| ==> Sz(mem, r[i]) == Sz(mem', r[i])
  {
    forall x | x in r ensures x in r' {
      var i :| 0 <= i < |r| && r[i] == x;
      if i >= 1 {
        NodesAgree(mem, r, mem', r', i);
      }
    }
    forall x | x in r' ensures x in r {
      var i :| 0 <= i < |r'| && r'[i] == x;
      if i >= 1 {
        NodesAgree(mem', r', mem, r, i);
      }
    }
    SortedEqual(r, r');
    forall i | 0 <= i < |r| ensures Sz(mem, r[i]) == Sz(mem', r[i]) {
      if i >= 1 {
        SizesAgree(mem, r, mem', i);
      }
    }
  }

  // Freeing a block right after it was handed out restores the free list, node by node.
  lemma FreeUndoesMalloc(base: int, h: Heap, g: Heap, q: int, n: int, k: nat)
    requires Valid(base, h) && Valid(base, g) && HandedOut(h, g, q, n) && Place(g.ring, k, q)
    ensures var h' := FreeHeap(g, k, q);
            && h'.ring == h.ring && h'.alloc == h.alloc && h'.arena == h.arena
            && forall i :: 0 <= i < |h.ring| ==> Sz(h'.mem, h.ring[i]) == Sz(h.mem, h.ring[i])
  {
    hide FreeAt, InFree, DataKept, FreeList;
    FreeUnits(base, g, k, q);
    var h' := FreeHeap(g, k, q);
    assert SameUnits(h.mem, h.ring, h'.mem, h'.ring);
    Canonical(h.mem, h.ring, h'.mem, h'.ring);
    assert g.alloc - {q} == h.alloc;
  }

  // The user data fits behind the header.
  lemma RequestFits(nbytes: nat)
    ensures (Nunits(nbytes) - 1) * HEADER >= nbytes > (Nunits(nbytes) - 2) * HEADER || nbytes == 0
  {
  }
}
