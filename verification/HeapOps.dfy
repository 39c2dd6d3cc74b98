/** Each change that malloc and free make keeps the heap tiled by disjoint blocks. */
module HeapOps {
  import opened HeapModel

  ghost predicate SameAt(mem: Mem, mem': Mem, u: int) {
    (u in mem <==> u in mem') && (u in mem ==> mem[u] == mem'[u])
  }

  // The blocks allocated in both heaps hold what they held, header and user data.
  ghost predicate DataKept(h: Heap, h': Heap) {
    forall a, u {:trigger h.alloc[a], SameAt(h.mem, h'.mem, u)} ::
      a in h.alloc && a in h'.alloc && InBlock(a, h.alloc[a], u) ==> SameAt(h.mem, h'.mem, u)
  }

  function Larger(a: int, b: int): int {
    if a < b then b else a
  }

  // Blocks that overlap share the start of one of them.
  lemma NoCommonUnit(a: int, n: int, b: int, m: int)
    requires n >= 1 && m >= 1
    requires !(InBlock(a, n, Larger(a, b)) && InBlock(b, m, Larger(a, b)))
    ensures Apart(a, n, b, m)
  {
  }

  lemma AllocNotFree(base: int, h: Heap, a: int, u: int)
    requires Allocated(base, h) && a in h.alloc && InBlock(a, h.alloc[a], u)
    ensures !InFree(h.mem, h.ring, u)
  {
    forall i | 1 <= i < |h.ring| ensures !InBlock(h.ring[i], Sz(h.mem, h.ring[i]), u) {
      assert Apart(a, h.alloc[a], h.ring[i], Sz(h.mem, h.ring[i]));
    }
  }

  // Blocks with no unit in common with the free list are apart from its nodes.
  lemma NotFreeApart(mem: Mem, r: seq<int>, a: int, n: int, i: nat)
    requires n >= 1 && 1 <= i < |r| && Sz(mem, r[i]) >= 1
    requires forall u :: InBlock(a, n, u) ==> !InFree(mem, r, u)
    ensures Apart(a, n, r[i], Sz(mem, r[i]))
  {
    var u := Larger(a, r[i]);
    assert InBlock(r[i], Sz(mem, r[i]), u) ==> InFree(mem, r, u);
    NoCommonUnit(a, n, r[i], Sz(mem, r[i]));
  }

  // A node of the free list is not an allocated block.
  lemma NodeNotAllocated(base: int, h: Heap, i: nat)
    requires Valid(base, h) && i < |h.ring|
    ensures h.ring[i] !in h.alloc
    ensures forall a, u :: a in h.alloc && InBlock(a, h.alloc[a], u) ==> u != h.ring[i]
  {
    forall a, u | a in h.alloc && InBlock(a, h.alloc[a], u) ensures u != h.ring[i] {
      if i >= 1 {
        assert Apart(a, h.alloc[a], h.ring[i], Sz(h.mem, h.ring[i]));
      }
    }
    forall a | a in h.alloc ensures a != h.ring[i] {
      assert InBlock(a, h.alloc[a], a);
    }
  }

  // ---- free ----

  // bp's place in the list.
  ghost predicate Place(r: seq<int>, k: nat, bp: int) {
    k < |r| && r[k] < bp && (k + 1 < |r| ==> bp < r[k + 1])
  }

  lemma PlaceFits(base: int, h: Heap, k: nat, bp: int)
    requires Valid(base, h) && bp in h.alloc && Place(h.ring, k, bp)
    ensures FitsBetween(h.mem, h.ring, k, bp)
  {
    if k >= 1 {
      assert Apart(bp, h.alloc[bp], h.ring[k], Sz(h.mem, h.ring[k]));
    }
    if k + 1 < |h.ring| {
      assert Apart(bp, h.alloc[bp], h.ring[k + 1], Sz(h.mem, h.ring[k + 1]));
    }
  }

  function FreeHeap(h: Heap, k: nat, bp: int): Heap
    requires k < |h.ring|
  {
    var l := FreeAt(h.mem, h.ring, k, bp);
    Heap(l.mem, l.ring, h.alloc - {bp}, h.arena)
  }

  lemma FreeData(base: int, h: Heap, k: nat, bp: int)
    requires Valid(base, h) && bp in h.alloc && Place(h.ring, k, bp)
    ensures DataKept(h, FreeHeap(h, k, bp))
  {
    hide FreeAt, FreeList, Tiled;
    var h' := FreeHeap(h, k, bp);
    NodeNotAllocated(base, h, k);
    forall a, u | a in h.alloc && a in h'.alloc && InBlock(a, h.alloc[a], u) ensures SameAt(h.mem, h'.mem, u) {
      assert Apart(a, h.alloc[a], bp, h.alloc[bp]);
      FreeWrites(h.mem, h.ring, k, bp, u);
    }
  }

  lemma FreeUnits(base: int, h: Heap, k: nat, bp: int)
    requires Valid(base, h) && bp in h.alloc && Place(h.ring, k, bp)
    ensures var h' := FreeHeap(h, k, bp);
            && FreeList(h'.mem, h'.ring, {}) && h'.ring[0] == base
            && forall u :: InFree(h'.mem, h'.ring, u) <==> InFree(h.mem, h.ring, u) || InBlock(bp, h.alloc[bp], u)
  {
    hide FreeAt, FreeList, InFree, InBlock, Tiled;
    PlaceFits(base, h, k, bp);
    var h' := FreeHeap(h, k, bp);
    FreeKeeps(h.mem, h.ring, k, bp, 0);
    forall u ensures InFree(h'.mem, h'.ring, u) <==> InFree(h.mem, h.ring, u) || InBlock(bp, h.alloc[bp], u) {
      FreeKeeps(h.mem, h.ring, k, bp, u);
    }
  }

  lemma FreeAllocated(base: int, h: Heap, k: nat, bp: int)
    requires Valid(base, h) && bp in h.alloc && Place(h.ring, k, bp)
    ensures Allocated(base, FreeHeap(h, k, bp))
  {
    hide FreeAt, Tiled, InFree;
    var h' := FreeHeap(h, k, bp);
    FreeUnits(base, h, k, bp);
    FreeData(base, h, k, bp);
    forall a | a in h'.alloc ensures Sz(h'.mem, a) == h'.alloc[a] {
      assert InBlock(a, h.alloc[a], a);
      assert SameAt(h.mem, h'.mem, a);
    }
    forall a, i | a in h'.alloc && 1 <= i < |h'.ring|
      ensures Apart(a, h'.alloc[a], h'.ring[i], Sz(h'.mem, h'.ring[i]))
    {
      forall u | InBlock(a, h'.alloc[a], u) ensures !InFree(h'.mem, h'.ring, u) {
        AllocNotFree(base, h, a, u);
        assert Apart(a, h.alloc[a], bp, h.alloc[bp]);
      }
      NotFreeApart(h'.mem, h'.ring, a, h'.alloc[a], i);
    }
  }

  lemma FreeTiled(base: int, h: Heap, k: nat, bp: int)
    requires Valid(base, h) && bp in h.alloc && Place(h.ring, k, bp)
    ensures Tiled(FreeHeap(h, k, bp))
  {
    hide FreeAt, FreeList, InFree, Allocated;
    FreeUnits(base, h, k, bp);
    var h' := FreeHeap(h, k, bp);
    forall u ensures InAlloc(h.alloc, u) <==> InAlloc(h'.alloc, u) || InBlock(bp, h.alloc[bp], u) {
      AllocMinus(h.alloc, bp, u);
    }
  }

  lemma AllocMinus(alloc: map<int, int>, bp: int, u: int)
    requires bp in alloc
    ensures InAlloc(alloc, u) <==> InAlloc(alloc - {bp}, u) || InBlock(bp, alloc[bp], u)
  {
    if InAlloc(alloc, u) {
      var a :| a in alloc && InBlock(a, alloc[a], u);
      if a != bp {
        assert a in alloc - {bp};
      }
    }
    if InAlloc(alloc - {bp}, u) {
      var a :| a in alloc - {bp} && InBlock(a, (alloc - {bp})[a], u);
      assert a in alloc && InBlock(a, alloc[a], u);
    }
  }

  lemma FreeValid(base: int, h: Heap, k: nat, bp: int)
    requires Valid(base, h) && bp in h.alloc && Place(h.ring, k, bp)
    ensures Valid(base, FreeHeap(h, k, bp)) && DataKept(h, FreeHeap(h, k, bp))
  {
    hide FreeAt, FreeList, InFree, Allocated, Tiled;
    FreeUnits(base, h, k, bp);
    FreeAllocated(base, h, k, bp);
    FreeTiled(base, h, k, bp);
    FreeData(base, h, k, bp);
  }

  // ---- handing out part of the free memory ----

  // h' hands out the units of block (q, n), which were free in h.
  ghost predicate HandsOut(base: int, h: Heap, h': Heap, q: int, n: int) {
    && n >= 1 && q > base
    && FreeList(h'.mem, h'.ring, {}) && h'.ring[0] == base
    && (forall u :: InBlock(q, n, u) ==> InFree(h.mem, h.ring, u))
    && (forall u :: InFree(h'.mem, h'.ring, u) <==> InFree(h.mem, h.ring, u) && !InBlock(q, n, u))
    && q !in h.alloc && h'.alloc == h.alloc[q := n] && h'.arena == h.arena
    && Sz(h'.mem, q) == n
    && DataKept(h, h')
  }

  lemma HandedAllocated(base: int, h: Heap, h': Heap, q: int, n: int)
    requires Valid(base, h) && HandsOut(base, h, h', q, n)
    ensures Allocated(base, h')
  {
    hide Tiled, InFree, FreeList;
    forall a | a in h.alloc ensures Sz(h'.mem, a) == h.alloc[a] && Apart(a, h.alloc[a], q, n) {
      assert InBlock(a, h.alloc[a], a);
      assert SameAt(h.mem, h'.mem, a);
      if InBlock(a, h.alloc[a], Larger(a, q)) {
        AllocNotFree(base, h, a, Larger(a, q));
      }
      NoCommonUnit(a, h.alloc[a], q, n);
    }
    forall a, i | a in h'.alloc && 1 <= i < |h'.ring|
      ensures Apart(a, h'.alloc[a], h'.ring[i], Sz(h'.mem, h'.ring[i]))
    {
      forall u | InBlock(a, h'.alloc[a], u) ensures !InFree(h'.mem, h'.ring, u) {
        if a != q {
          AllocNotFree(base, h, a, u);
        }
      }
      NodeSized(h'.mem, h'.ring, i);
      NotFreeApart(h'.mem, h'.ring, a, h'.alloc[a], i);
    }
  }

  lemma NodeSized(mem: Mem, r: seq<int>, i: nat)
    requires FreeList(mem, r, {}) && 1 <= i < |r|
    ensures Sz(mem, r[i]) >= 1
  {
  }

  lemma AllocPlus(alloc: map<int, int>, q: int, n: int, u: int)
    requires q !in alloc
    ensures InAlloc(alloc[q := n], u) <==> InAlloc(alloc, u) || InBlock(q, n, u)
  {
    var alloc' := alloc[q := n];
    AllocMinus(alloc', q, u);
    assert alloc' - {q} == alloc;
  }

  lemma HandedValid(base: int, h: Heap, h': Heap, q: int, n: int)
    requires Valid(base, h) && HandsOut(base, h, h', q, n)
    ensures Valid(base, h')
  {
    hide FreeList, InFree, Allocated, DataKept;
    HandedAllocated(base, h, h', q, n);
    forall u ensures u in h'.arena <==> InFree(h'.mem, h'.ring, u) || InAlloc(h'.alloc, u) {
      AllocPlus(h.alloc, q, n, u);
    }
  }

  // A whole node.
  function TakeHeap(h: Heap, j: nat): Heap
    requires 1 <= j < |h.ring|
  {
    Heap(RemoveMem(h.mem, h.ring, j), RemoveRing(h.ring, j), h.alloc[h.ring[j] := Sz(h.mem, h.ring[j])], h.arena)
  }

  lemma TakeValid(base: int, h: Heap, j: nat)
    requires Valid(base, h) && 1 <= j < |h.ring|
    ensures HandsOut(base, h, TakeHeap(h, j), h.ring[j], Sz(h.mem, h.ring[j]))
    ensures Valid(base, TakeHeap(h, j))
  {
    var h', q, n := TakeHeap(h, j), h.ring[j], Sz(h.mem, h.ring[j]);
    NodeNotAllocated(base, h, j);
    NodeNotAllocated(base, h, j - 1);
    TakeList(h.mem, h.ring, j);
    hide RemoveRing, FreeList, InFree;
    assert DataKept(h, h');
    RemoveSz(h.mem, h.ring, j, q);
    forall u ensures InFree(h'.mem, h'.ring, u) <==> InFree(h.mem, h.ring, u) && !InBlock(q, n, u) {
      RemoveUnits(h.mem, h.ring, j, u);
    }
    forall u | InBlock(q, n, u) ensures InFree(h.mem, h.ring, u) {
      NodeUnit(h.mem, h.ring, j, u);
    }
    HandedValid(base, h, h', q, n);
  }

  lemma NodeUnit(mem: Mem, r: seq<int>, j: nat, u: int)
    requires 1 <= j < |r| && InBlock(r[j], Sz(mem, r[j]), u)
    ensures InFree(mem, r, u)
  {
  }

  lemma TakeList(mem: Mem, r: seq<int>, j: nat)
    requires FreeList(mem, r, {}) && 1 <= j < |r|
    ensures FreeList(RemoveMem(mem, r, j), RemoveRing(r, j), {}) && RemoveRing(r, j)[0] == r[0]
    ensures r[j] > r[0] && Sz(mem, r[j]) >= 1
  {
    RemoveShape(mem, r, j);
    RemoveGaps(mem, r, j);
    RemoveLinked(mem, r, j);
  }

  // The last n units of a larger node.
  function SplitHeap(h: Heap, j: nat, n: int): Heap
    requires 1 <= j < |h.ring|
  {
    Heap(SplitMem(h.mem, h.ring, j, n), h.ring, h.alloc[h.ring[j] + Sz(h.mem, h.ring[j]) - n := n], h.arena)
  }

  lemma SplitData(base: int, h: Heap, j: nat, n: int)
    requires Valid(base, h) && 1 <= j < |h.ring| && 1 <= n < Sz(h.mem, h.ring[j])
    ensures DataKept(h, SplitHeap(h, j, n)) && h.ring[j] + Sz(h.mem, h.ring[j]) - n !in h.alloc
  {
    var h', q := SplitHeap(h, j, n), h.ring[j] + Sz(h.mem, h.ring[j]) - n;
    NodeUnit(h.mem, h.ring, j, q);
    NodeUnit(h.mem, h.ring, j, h.ring[j]);
    forall a, u | a in h.alloc && InBlock(a, h.alloc[a], u) ensures SameAt(h.mem, h'.mem, u) {
      AllocNotFree(base, h, a, u);
    }
    forall a | a in h.alloc ensures a != q {
      assert InBlock(a, h.alloc[a], a);
      AllocNotFree(base, h, a, a);
    }
  }

  lemma SplitValid(base: int, h: Heap, j: nat, n: int)
    requires Valid(base, h) && 1 <= j < |h.ring| && 1 <= n < Sz(h.mem, h.ring[j])
    ensures HandsOut(base, h, SplitHeap(h, j, n), h.ring[j] + Sz(h.mem, h.ring[j]) - n, n)
    ensures Valid(base, SplitHeap(h, j, n))
  {
    var h', q := SplitHeap(h, j, n), h.ring[j] + Sz(h.mem, h.ring[j]) - n;
    SplitFreeList(h.mem, h.ring, j, n);
    SplitData(base, h, j, n);
    assert q > base;
    hide FreeList, InFree, Allocated, Tiled, DataKept;
    forall u ensures InFree(h'.mem, h'.ring, u) <==> InFree(h.mem, h.ring, u) && !InBlock(q, n, u) {
      SplitUnits(h.mem, h.ring, j, n, u);
    }
    forall u | InBlock(q, n, u) ensures InFree(h.mem, h.ring, u) {
      NodeUnit(h.mem, h.ring, j, u);
    }
    HandedValid(base, h, h', q, n);
  }

  // ---- new memory from sbrk, as an allocated block about to be freed ----

  function Units(a: int, n: int): set<int> {
    set u | a <= u < a + n && InBlock(a, n, u)
  }

  function GrowHeap(h: Heap, hp: int, nu: int): Heap {
    Heap(h.mem[hp := Header(if hp in h.mem then h.mem[hp].ptr else 0, nu)], h.ring, h.alloc[hp := nu],
      h.arena + Units(hp, nu))
  }

  lemma GrowFresh(base: int, h: Heap, hp: int, nu: int)
    requires Valid(base, h) && nu >= 1 && hp > base && Units(hp, nu) !! h.arena
    ensures hp !in h.ring && hp !in h.alloc
    ensures forall u :: InBlock(hp, nu, u) ==> !InFree(h.mem, h.ring, u) && !InAlloc(h.alloc, u)
  {
    forall u | InBlock(hp, nu, u) ensures !InFree(h.mem, h.ring, u) && !InAlloc(h.alloc, u) {
      assert u in Units(hp, nu);
    }
    assert InBlock(hp, nu, hp);
    forall i | 0 <= i < |h.ring| ensures h.ring[i] != hp {
      if i >= 1 {
        NodeUnit(h.mem, h.ring, i, h.ring[i]);
      }
    }
    forall a | a in h.alloc ensures a != hp {
      assert InBlock(a, h.alloc[a], a);
    }
  }

  lemma GrowList(mem: Mem, r: seq<int>, hp: int, hd: Header)
    requires FreeList(mem, r, {}) && hp !in r
    ensures FreeList(mem[hp := hd], r, {})
    ensures forall u :: InFree(mem[hp := hd], r, u) <==> InFree(mem, r, u)
  {
    var mem' := mem[hp := hd];
    assert forall i :: 0 <= i < |r| ==> Sz(mem', r[i]) == Sz(mem, r[i]);
    var none: set<int> := {};
    forall i | 1 <= i < |r| - 1 ensures GapAt(mem', r, none, i) {
      assert GapAt(mem, r, none, i);
    }
    forall i | 0 <= i < |r| ensures LinkAt(mem', r, i) {
      assert LinkAt(mem, r, i);
    }
  }

  lemma GrowAllocated(base: int, h: Heap, hp: int, nu: int)
    requires Valid(base, h) && nu >= 1 && hp > base && Units(hp, nu) !! h.arena
    ensures Allocated(base, GrowHeap(h, hp, nu))
  {
    GrowFresh(base, h, hp, nu);
    var h' := GrowHeap(h, hp, nu);
    assert forall i :: 0 <= i < |h.ring| ==> Sz(h'.mem, h.ring[i]) == Sz(h.mem, h.ring[i]);
    forall a | a in h.alloc ensures Apart(a, h.alloc[a], hp, nu) {
      var u := Larger(a, hp);
      assert InBlock(a, h.alloc[a], u) ==> InAlloc(h.alloc, u);
      NoCommonUnit(a, h.alloc[a], hp, nu);
    }
    forall i | 1 <= i < |h.ring| ensures Apart(hp, nu, h.ring[i], Sz(h.mem, h.ring[i])) {
      NotFreeApart(h.mem, h.ring, hp, nu, i);
    }
  }

  lemma GrowValid(base: int, h: Heap, hp: int, nu: int)
    requires Valid(base, h) && nu >= 1 && hp > base && Units(hp, nu) !! h.arena
    ensures Valid(base, GrowHeap(h, hp, nu)) && DataKept(h, GrowHeap(h, hp, nu)) && hp !in h.alloc
  {
    GrowFresh(base, h, hp, nu);
    GrowAllocated(base, h, hp, nu);
    var h' := GrowHeap(h, hp, nu);
    GrowList(h.mem, h.ring, hp, h'.mem[hp]);
    hide FreeList, InFree, Allocated;
    forall u ensures u in h'.arena <==> InFree(h'.mem, h'.ring, u) || InAlloc(h'.alloc, u) {
      AllocPlus(h.alloc, hp, nu, u);
      assert u in Units(hp, nu) <==> InBlock(hp, nu, u);
    }
    forall a, u | a in h.alloc && InBlock(a, h.alloc[a], u) ensures SameAt(h.mem, h'.mem, u) {
      assert InAlloc(h.alloc, u);
    }
  }
}
