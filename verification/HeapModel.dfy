/** The free list of umalloc.c as a set of disjoint blocks. Addresses count Header units. */
module HeapModel {
  // union header
  datatype Header = Header(ptr: int, size: int)
  type Mem = map<int, Header>

  // The heap: header words by address, and (for specification) the free list in address order,
  // the allocated blocks, and the units obtained from sbrk.
  datatype Heap = Heap(mem: Mem, ring: seq<int>, alloc: map<int, int>, arena: set<int>)

  function Sz(mem: Mem, a: int): int {
    if a in mem then mem[a].size else 0
  }

  function Succ(n: nat, i: nat): nat
    requires i < n
  {
    if i + 1 == n then 0 else i + 1
  }

  predicate InBlock(a: int, n: int, u: int) {
    a <= u < a + n
  }

  predicate Apart(a: int, n: int, b: int, m: int) {
    a + n <= b || b + m <= a
  }

  ghost predicate Sorted(r: seq<int>) {
    forall i, j :: 0 <= i < j < |r| ==> r[i] < r[j]
  }

  // Each node points to the next one in address order, the last one to the first.
  ghost predicate Linked(mem: Mem, r: seq<int>) {
    forall i :: 0 <= i < |r| ==> LinkAt(mem, r, i)
  }

  ghost predicate LinkAt(mem: Mem, r: seq<int>, i: nat)
    requires i < |r|
  {
    r[i] in mem && mem[r[i]].ptr == r[Succ(|r|, i)]
  }

  // The first node is base, with no units; the others have at least their header.
  ghost predicate Sized(mem: Mem, r: seq<int>) {
    |r| > 0 && Sz(mem, r[0]) == 0 && forall i :: 1 <= i < |r| ==> Sz(mem, r[i]) >= 1
  }

  // Free blocks do not touch, except perhaps those in loose with their successors.
  ghost predicate Gaps(mem: Mem, r: seq<int>, loose: set<int>) {
    forall i :: 1 <= i < |r| - 1 ==> GapAt(mem, r, loose, i)
  }

  ghost predicate GapAt(mem: Mem, r: seq<int>, loose: set<int>, i: nat)
    requires i < |r| - 1
  {
    r[i] + Sz(mem, r[i]) <= r[i + 1] && (i in loose || r[i] + Sz(mem, r[i]) != r[i + 1])
  }

  ghost predicate FreeList(mem: Mem, r: seq<int>, loose: set<int>) {
    Sorted(r) && Linked(mem, r) && Sized(mem, r) && Gaps(mem, r, loose)
  }

  ghost predicate InFree(mem: Mem, r: seq<int>, u: int) {
    exists i :: 1 <= i < |r| && InBlock(r[i], Sz(mem, r[i]), u)
  }

  ghost predicate InAlloc(alloc: map<int, int>, u: int) {
    exists a :: a in alloc && InBlock(a, alloc[a], u)
  }

  // Headers of allocated blocks are intact, and the blocks are pairwise disjoint.
  ghost predicate Allocated(base: int, h: Heap) {
    && (forall a <- h.alloc :: a > base && h.alloc[a] >= 1 && Sz(h.mem, a) == h.alloc[a])
    && (forall a, b :: a in h.alloc && b in h.alloc && a != b ==> Apart(a, h.alloc[a], b, h.alloc[b]))
    && (forall a, i :: a in h.alloc && 1 <= i < |h.ring| ==> Apart(a, h.alloc[a], h.ring[i], Sz(h.mem, h.ring[i])))
  }

  // Free and allocated blocks together are all memory obtained from sbrk.
  ghost predicate Tiled(h: Heap) {
    forall u :: u in h.arena <==> InFree(h.mem, h.ring, u) || InAlloc(h.alloc, u)
  }

  ghost predicate Valid(base: int, h: Heap) {
    && FreeList(h.mem, h.ring, {}) && h.ring[0] == base
    && Allocated(base, h)
    && Tiled(h)
  }

  // ---- inserting a block ----

  // bp belongs between node k and its successor, clear of both blocks.
  ghost predicate FitsBetween(mem: Mem, r: seq<int>, k: nat, bp: int) {
    && k < |r| && r[k] < bp && Sz(mem, bp) >= 1
    && (k >= 1 ==> r[k] + Sz(mem, r[k]) <= bp)
    && (k + 1 < |r| ==> bp + Sz(mem, bp) <= r[k + 1])
  }

  function InsertRing(r: seq<int>, k: nat, bp: int): seq<int>
    requires k < |r|
  {
    r[..k + 1] + [bp] + r[k + 1..]
  }

  function InsertMem(mem: Mem, r: seq<int>, k: nat, bp: int): Mem
    requires k < |r|
  {
    mem[bp := Header(r[Succ(|r|, k)], Sz(mem, bp))][r[k] := Header(bp, Sz(mem, r[k]))]
  }

  lemma InsertAt(r: seq<int>, k: nat, bp: int, i: nat)
    requires k < |r| && i <= |r|
    ensures InsertRing(r, k, bp)[i] == if i <= k then r[i] else if i == k + 1 then bp else r[i - 1]
  {
  }

  lemma InsertSorted(mem: Mem, r: seq<int>, k: nat, bp: int)
    requires Sorted(r) && FitsBetween(mem, r, k, bp)
    ensures Sorted(InsertRing(r, k, bp))
    ensures bp !in r
  {
    assert forall i :: 0 <= i <= k ==> r[i] < bp;
    assert forall i :: k + 1 <= i < |r| ==> bp < r[i];
  }

  lemma InsertSz(mem: Mem, r: seq<int>, k: nat, bp: int, i: nat)
    requires FreeList(mem, r, {}) && FitsBetween(mem, r, k, bp) && i <= |r|
    ensures Sz(InsertMem(mem, r, k, bp), InsertRing(r, k, bp)[i])
            == if i <= k then Sz(mem, r[i]) else if i == k + 1 then Sz(mem, bp) else Sz(mem, r[i - 1])
  {
    InsertAt(r, k, bp, i);
    assert LinkAt(mem, r, k);
  }

  lemma InsertSized(mem: Mem, r: seq<int>, k: nat, bp: int)
    requires FreeList(mem, r, {}) && FitsBetween(mem, r, k, bp)
    ensures Sized(InsertMem(mem, r, k, bp), InsertRing(r, k, bp))
  {
    var mem', r' := InsertMem(mem, r, k, bp), InsertRing(r, k, bp);
    forall i | 0 <= i < |r'| ensures Sz(mem', r'[i]) >= if i == 0 then 0 else 1 {
      InsertSz(mem, r, k, bp, i);
    }
    InsertSz(mem, r, k, bp, 0);
  }

  lemma InsertGaps(mem: Mem, r: seq<int>, k: nat, bp: int)
    requires FreeList(mem, r, {}) && FitsBetween(mem, r, k, bp)
    ensures Gaps(InsertMem(mem, r, k, bp), InsertRing(r, k, bp), {k as int, k + 1})
  {
    var mem', r' := InsertMem(mem, r, k, bp), InsertRing(r, k, bp);
    var loose := {k as int, k + 1};
    forall i | 1 <= i < |r'| - 1 ensures GapAt(mem', r', loose, i) {
      InsertAt(r, k, bp, i);
      InsertAt(r, k, bp, i + 1);
      InsertSz(mem, r, k, bp, i);
      assert i < k ==> GapAt(mem, r, {}, i);
      assert i > k + 1 ==> GapAt(mem, r, {}, i - 1);
    }
  }

  lemma InsertLinked(mem: Mem, r: seq<int>, k: nat, bp: int)
    requires FreeList(mem, r, {}) && FitsBetween(mem, r, k, bp)
    ensures Linked(InsertMem(mem, r, k, bp), InsertRing(r, k, bp))
  {
    var mem', r' := InsertMem(mem, r, k, bp), InsertRing(r, k, bp);
    InsertSorted(mem, r, k, bp);
    forall i | 0 <= i < |r'| ensures LinkAt(mem', r', i) {
      InsertAt(r, k, bp, i);
      InsertAt(r, k, bp, Succ(|r'|, i));
      assert LinkAt(mem, r, if i <= k then i else i - 1);
    }
  }

  lemma InsertFreeList(mem: Mem, r: seq<int>, k: nat, bp: int)
    requires FreeList(mem, r, {}) && FitsBetween(mem, r, k, bp)
    ensures FreeList(InsertMem(mem, r, k, bp), InsertRing(r, k, bp), {k as int, k + 1})
  {
    InsertSorted(mem, r, k, bp);
    InsertSized(mem, r, k, bp);
    InsertGaps(mem, r, k, bp);
    InsertLinked(mem, r, k, bp);
  }

  lemma InsertUnits(mem: Mem, r: seq<int>, k: nat, bp: int, u: int)
    requires FreeList(mem, r, {}) && FitsBetween(mem, r, k, bp)
    ensures InFree(InsertMem(mem, r, k, bp), InsertRing(r, k, bp), u)
            <==> InFree(mem, r, u) || InBlock(bp, Sz(mem, bp), u)
  {
    hide Linked, Gaps, Sized, InsertMem, InsertRing;
    var mem', r' := InsertMem(mem, r, k, bp), InsertRing(r, k, bp);
    InsertLength(r, k, bp);
    if InFree(mem, r, u) {
      var i :| 1 <= i < |r| && InBlock(r[i], Sz(mem, r[i]), u);
      var i' := if i <= k then i else i + 1;
      InsertAt(r, k, bp, i');
      InsertSz(mem, r, k, bp, i');
      assert InBlock(r'[i'], Sz(mem', r'[i']), u);
    }
    if InBlock(bp, Sz(mem, bp), u) {
      InsertAt(r, k, bp, k + 1);
      InsertSz(mem, r, k, bp, k + 1);
      assert InBlock(r'[k + 1], Sz(mem', r'[k + 1]), u);
    }
    if InFree(mem', r', u) {
      var i :| 1 <= i < |r'| && InBlock(r'[i], Sz(mem', r'[i]), u);
      InsertAt(r, k, bp, i);
      InsertSz(mem, r, k, bp, i);
      if i != k + 1 {
        var i' := if i <= k then i else i - 1;
        assert InBlock(r[i'], Sz(mem, r[i']), u);
      }
    }
  }

  lemma InsertLength(r: seq<int>, k: nat, bp: int)
    requires k < |r|
    ensures |InsertRing(r, k, bp)| == |r| + 1
  {
  }

  // ---- merging node j with its successor ----

  predicate Touches(mem: Mem, r: seq<int>, j: nat) {
    1 <= j < |r| - 1 && r[j] + Sz(mem, r[j]) == r[j + 1]
  }

  function MergeRing(r: seq<int>, j: nat): seq<int>
    requires j < |r| - 1
  {
    r[..j + 1] + r[j + 2..]
  }

  function MergeMem(mem: Mem, r: seq<int>, j: nat): Mem
    requires j < |r| - 1
  {
    mem[r[j] := Header(if r[j + 1] in mem then mem[r[j + 1]].ptr else 0, Sz(mem, r[j]) + Sz(mem, r[j + 1]))]
  }

  lemma MergeAt(r: seq<int>, j: nat, i: nat)
    requires j < |r| - 1 && i < |r| - 1
    ensures MergeRing(r, j)[i] == if i <= j then r[i] else r[i + 1]
  {
  }

  lemma MergeSz(mem: Mem, r: seq<int>, j: nat, i: nat)
    requires Sorted(r) && Touches(mem, r, j) && i < |r| - 1
    ensures Sz(MergeMem(mem, r, j), MergeRing(r, j)[i])
            == if i < j then Sz(mem, r[i]) else if i == j then Sz(mem, r[j]) + Sz(mem, r[j + 1]) else Sz(mem, r[i + 1])
  {
    MergeAt(r, j, i);
  }

  lemma MergeSized(mem: Mem, r: seq<int>, loose: set<int>, j: nat)
    requires FreeList(mem, r, loose) && Touches(mem, r, j)
    ensures Sorted(MergeRing(r, j)) && Sized(MergeMem(mem, r, j), MergeRing(r, j))
  {
    var r' := MergeRing(r, j);
    forall i | 0 <= i < |r'| ensures r'[i] == if i <= j then r[i] else r[i + 1] {
      MergeAt(r, j, i);
    }
    forall i | 0 <= i < |r'| ensures i == 0 || Sz(MergeMem(mem, r, j), r'[i]) >= 1 {
      MergeSz(mem, r, j, i);
    }
    MergeSz(mem, r, j, 0);
  }

  // Loose nodes below the merged one stay loose.
  lemma MergeGaps(mem: Mem, r: seq<int>, loose: set<int>, j: nat)
    requires FreeList(mem, r, loose) && Touches(mem, r, j)
    requires forall i <- loose :: i <= j
    ensures Gaps(MergeMem(mem, r, j), MergeRing(r, j), loose - {j as int})
  {
    var mem', r' := MergeMem(mem, r, j), MergeRing(r, j);
    var loose' := loose - {j as int};
    forall i | 1 <= i < |r'| - 1 ensures GapAt(mem', r', loose', i) {
      MergeAt(r, j, i);
      MergeAt(r, j, i + 1);
      MergeSz(mem, r, j, i);
      assert GapAt(mem, r, loose, if i < j then i else i + 1);
    }
  }

  lemma MergeLinked(mem: Mem, r: seq<int>, loose: set<int>, j: nat)
    requires FreeList(mem, r, loose) && Touches(mem, r, j)
    ensures Linked(MergeMem(mem, r, j), MergeRing(r, j))
  {
    var mem', r' := MergeMem(mem, r, j), MergeRing(r, j);
    forall i | 0 <= i < |r'| ensures LinkAt(mem', r', i) {
      MergeAt(r, j, i);
      MergeAt(r, j, Succ(|r'|, i));
      assert LinkAt(mem, r, if i < j then i else i + 1);
    }
  }

  lemma MergeFreeList(mem: Mem, r: seq<int>, loose: set<int>, j: nat)
    requires FreeList(mem, r, loose) && Touches(mem, r, j)
    requires forall i <- loose :: i <= j
    ensures FreeList(MergeMem(mem, r, j), MergeRing(r, j), loose - {j as int})
  {
    MergeSized(mem, r, loose, j);
    MergeGaps(mem, r, loose, j);
    MergeLinked(mem, r, loose, j);
  }

  lemma MergeUnits(mem: Mem, r: seq<int>, loose: set<int>, j: nat, u: int)
    requires FreeList(mem, r, loose) && Touches(mem, r, j)
    ensures InFree(MergeMem(mem, r, j), MergeRing(r, j), u) <==> InFree(mem, r, u)
  {
    var mem', r' := MergeMem(mem, r, j), MergeRing(r, j);
    if InFree(mem, r, u) {
      var i :| 1 <= i < |r| && InBlock(r[i], Sz(mem, r[i]), u);
      var i' := if i <= j then i else i - 1;
      MergeAt(r, j, i');
      MergeSz(mem, r, j, i');
      assert InBlock(r'[i'], Sz(mem', r'[i']), u);
    }
    if InFree(mem', r', u) {
      var i :| 1 <= i < |r'| && InBlock(r'[i], Sz(mem', r'[i]), u);
      MergeAt(r, j, i);
      MergeSz(mem, r, j, i);
      if i == j {
        assert InBlock(r[j], Sz(mem, r[j]), u) || InBlock(r[j + 1], Sz(mem, r[j + 1]), u);
      } else {
        var i' := if i < j then i else i + 1;
        assert InBlock(r[i'], Sz(mem, r[i']), u);
      }
    }
  }

  // A loose node that does not touch its successor was not loose after all.
  lemma Tighten(mem: Mem, r: seq<int>, loose: set<int>, j: nat)
    requires FreeList(mem, r, loose) && !Touches(mem, r, j)
    ensures FreeList(mem, r, loose - {j as int})
  {
    var loose' := loose - {j as int};
    forall i | 1 <= i < |r| - 1 ensures GapAt(mem, r, loose', i) {
      assert GapAt(mem, r, loose, i);
    }
  }

  // ---- free ----

  datatype List = List(mem: Mem, ring: seq<int>)

  function MergeIf(l: List, j: nat): List {
    if Touches(l.mem, l.ring, j) then List(MergeMem(l.mem, l.ring, j), MergeRing(l.ring, j)) else l
  }

  // The free list after free() puts the block at bp behind node k: merged with the block above
  // if they touch, then with the block below if they touch.
  function FreeAt(mem: Mem, r: seq<int>, k: nat, bp: int): List
    requires k < |r|
  {
    MergeIf(MergeIf(List(InsertMem(mem, r, k, bp), InsertRing(r, k, bp)), k + 1), k)
  }

  lemma MergeIfKeeps(l: List, loose: set<int>, j: nat, u: int)
    requires FreeList(l.mem, l.ring, loose) && forall i <- loose :: i <= j
    ensures FreeList(MergeIf(l, j).mem, MergeIf(l, j).ring, loose - {j as int})
    ensures InFree(MergeIf(l, j).mem, MergeIf(l, j).ring, u) <==> InFree(l.mem, l.ring, u)
    ensures MergeIf(l, j).ring[0] == l.ring[0]
  {
    hide FreeList, InFree;
    if Touches(l.mem, l.ring, j) {
      MergeFreeList(l.mem, l.ring, loose, j);
      MergeUnits(l.mem, l.ring, loose, j, u);
    } else {
      Tighten(l.mem, l.ring, loose, j);
    }
  }

  // Freeing makes a coalesced free list whose units are the old ones and those of the block.
  lemma FreeKeeps(mem: Mem, r: seq<int>, k: nat, bp: int, u: int)
    requires FreeList(mem, r, {}) && FitsBetween(mem, r, k, bp)
    ensures var l := FreeAt(mem, r, k, bp);
            && FreeList(l.mem, l.ring, {})
            && l.ring[0] == r[0]
            && (InFree(l.mem, l.ring, u) <==> InFree(mem, r, u) || InBlock(bp, Sz(mem, bp), u))
  {
    hide FreeList, InFree, MergeIf;
    var l1 := List(InsertMem(mem, r, k, bp), InsertRing(r, k, bp));
    InsertFreeList(mem, r, k, bp);
    InsertUnits(mem, r, k, bp, u);
    InsertAt(r, k, bp, 0);
    var loose := {k as int, k + 1};
    MergeIfKeeps(l1, loose, k + 1, u);
    var l2 := MergeIf(l1, k + 1);
    assert loose - {k + 1} == {k as int};
    MergeIfKeeps(l2, {k as int}, k, u);
    assert {k as int} - {k as int} == {};
  }

  // Only the headers of bp and of node k are written.
  lemma FreeWrites(mem: Mem, r: seq<int>, k: nat, bp: int, a: int)
    requires k < |r| && a != bp && a != r[k]
    ensures var l := FreeAt(mem, r, k, bp);
            (a in l.mem <==> a in mem) && (a in mem ==> l.mem[a] == mem[a])
  {
    var r1 := InsertRing(r, k, bp);
    InsertAt(r, k, bp, k);
    InsertAt(r, k, bp, k + 1);
    var l2 := MergeIf(List(InsertMem(mem, r, k, bp), r1), k + 1);
    if Touches(InsertMem(mem, r, k, bp), r1, k + 1) {
      MergeAt(r1, k + 1, k);
    }
    assert k < |l2.ring| && l2.ring[k] == r[k];
  }

  // ---- malloc: taking a whole node, or the end of one ----

  function RemoveRing(r: seq<int>, j: nat): seq<int>
    requires 1 <= j < |r|
  {
    r[..j] + r[j + 1..]
  }

  function RemoveMem(mem: Mem, r: seq<int>, j: nat): Mem
    requires 1 <= j < |r|
  {
    mem[r[j - 1] := Header(r[Succ(|r|, j)], Sz(mem, r[j - 1]))]
  }

  lemma RemoveAt(r: seq<int>, j: nat, i: nat)
    requires 1 <= j < |r| && i < |r| - 1
    ensures RemoveRing(r, j)[i] == if i < j then r[i] else r[i + 1]
  {
  }

  lemma RemoveSz(mem: Mem, r: seq<int>, j: nat, a: int)
    requires 1 <= j < |r|
    ensures Sz(RemoveMem(mem, r, j), a) == Sz(mem, a)
  {
  }

  lemma RemoveShape(mem: Mem, r: seq<int>, j: nat)
    requires FreeList(mem, r, {}) && 1 <= j < |r|
    ensures Sorted(RemoveRing(r, j)) && Sized(RemoveMem(mem, r, j), RemoveRing(r, j))
  {
    var r' := RemoveRing(r, j);
    forall i | 0 <= i < |r'| ensures r'[i] == if i < j then r[i] else r[i + 1] {
      RemoveAt(r, j, i);
    }
    forall a ensures Sz(RemoveMem(mem, r, j), a) == Sz(mem, a) {
      RemoveSz(mem, r, j, a);
    }
  }

  lemma RemoveGaps(mem: Mem, r: seq<int>, j: nat)
    requires FreeList(mem, r, {}) && 1 <= j < |r|
    ensures Gaps(RemoveMem(mem, r, j), RemoveRing(r, j), {})
  {
    var mem', r' := RemoveMem(mem, r, j), RemoveRing(r, j);
    var none: set<int> := {};
    forall i | 1 <= i < |r'| - 1 ensures GapAt(mem', r', none, i) {
      RemoveAt(r, j, i);
      RemoveAt(r, j, i + 1);
      RemoveSz(mem, r, j, r'[i]);
      assert GapAt(mem, r, {}, if i < j then i else i + 1);
    }
  }

  lemma RemoveLinked(mem: Mem, r: seq<int>, j: nat)
    requires FreeList(mem, r, {}) && 1 <= j < |r|
    ensures Linked(RemoveMem(mem, r, j), RemoveRing(r, j))
  {
    var mem', r' := RemoveMem(mem, r, j), RemoveRing(r, j);
    forall i | 0 <= i < |r'| ensures LinkAt(mem', r', i) {
      RemoveAt(r, j, i);
      RemoveAt(r, j, Succ(|r'|, i));
      assert LinkAt(mem, r, if i < j then i else i + 1);
    }
  }

  lemma RemoveUnits(mem: Mem, r: seq<int>, j: nat, u: int)
    requires FreeList(mem, r, {}) && 1 <= j < |r|
    ensures InFree(RemoveMem(mem, r, j), RemoveRing(r, j), u) <==> InFree(mem, r, u) && !InBlock(r[j], Sz(mem, r[j]), u)
  {
    hide Linked, Sized, RemoveMem;
    var mem', r' := RemoveMem(mem, r, j), RemoveRing(r, j);
    if InFree(mem, r, u) && !InBlock(r[j], Sz(mem, r[j]), u) {
      var i :| 1 <= i < |r| && InBlock(r[i], Sz(mem, r[i]), u);
      var i' := if i < j then i else i - 1;
      RemoveAt(r, j, i');
      RemoveSz(mem, r, j, r[i]);
      assert InBlock(r'[i'], Sz(mem', r'[i']), u);
    }
    if InFree(mem', r', u) {
      var i :| 1 <= i < |r'| && InBlock(r'[i], Sz(mem', r'[i]), u);
      RemoveAt(r, j, i);
      RemoveSz(mem, r, j, r'[i]);
      var i' := if i < j then i else i + 1;
      assert InBlock(r[i'], Sz(mem, r[i']), u);
      BlocksApart(mem, r, {}, i', j, u);
    }
  }

  // Different free blocks have no unit in common.
  lemma {:induction false} BlocksApart(mem: Mem, r: seq<int>, loose: set<int>, i: nat, j: nat, u: int)
    requires FreeList(mem, r, loose) && 1 <= i < |r| && 1 <= j < |r| && i != j
    ensures !(InBlock(r[i], Sz(mem, r[i]), u) && InBlock(r[j], Sz(mem, r[j]), u))
  {
    var lo, hi := if i < j then i else j, if i < j then j else i;
    assert GapAt(mem, r, loose, lo);
    assert r[lo + 1] <= r[hi];
  }

  function SplitMem(mem: Mem, r: seq<int>, j: nat, n: int): Mem
    requires 1 <= j < |r|
  {
    var q := r[j] + Sz(mem, r[j]) - n;
    mem[r[j] := Header(r[Succ(|r|, j)], Sz(mem, r[j]) - n)][q := Header(if q in mem then mem[q].ptr else 0, n)]
  }

  lemma SplitFreeList(mem: Mem, r: seq<int>, j: nat, n: int)
    requires FreeList(mem, r, {}) && 1 <= j < |r| && 1 <= n < Sz(mem, r[j])
    ensures FreeList(SplitMem(mem, r, j, n), r, {})
  {
    var mem' := SplitMem(mem, r, j, n);
    var q := r[j] + Sz(mem, r[j]) - n;
    SplitClear(mem, r, j, n);
    var none: set<int> := {};
    forall i | 1 <= i < |r| - 1 ensures GapAt(mem', r, none, i) {
      assert GapAt(mem, r, none, i);
    }
    forall i | 0 <= i < |r| ensures LinkAt(mem', r, i) {
      assert LinkAt(mem, r, i);
    }
  }

  // The split-off header is nobody's node.
  lemma SplitClear(mem: Mem, r: seq<int>, j: nat, n: int)
    requires FreeList(mem, r, {}) && 1 <= j < |r| && 1 <= n < Sz(mem, r[j])
    ensures r[j] + Sz(mem, r[j]) - n !in r
  {
    var q := r[j] + Sz(mem, r[j]) - n;
    if j + 1 < |r| {
      assert GapAt(mem, r, {}, j);
    }
    forall i | 0 <= i < |r| ensures r[i] != q {
      if i > j {
        assert r[j + 1] <= r[i];
      }
    }
  }

  lemma SplitUnits(mem: Mem, r: seq<int>, j: nat, n: int, u: int)
    requires FreeList(mem, r, {}) && 1 <= j < |r| && 1 <= n < Sz(mem, r[j])
    ensures InFree(SplitMem(mem, r, j, n), r, u) <==> InFree(mem, r, u) && !InBlock(r[j] + Sz(mem, r[j]) - n, n, u)
  {
    var mem' := SplitMem(mem, r, j, n);
    var q := r[j] + Sz(mem, r[j]) - n;
    SplitClear(mem, r, j, n);
    assert forall i :: 0 <= i < |r| ==> Sz(mem', r[i]) == if i == j then Sz(mem, r[j]) - n else Sz(mem, r[i]);
    if InFree(mem, r, u) && !InBlock(q, n, u) {
      var i :| 1 <= i < |r| && InBlock(r[i], Sz(mem, r[i]), u);
      assert InBlock(r[i], Sz(mem', r[i]), u);
    }
    if InFree(mem', r, u) {
      var i :| 1 <= i < |r| && InBlock(r[i], Sz(mem', r[i]), u);
      assert InBlock(r[i], Sz(mem, r[i]), u);
      if i != j {
        BlocksApart(mem, r, {}, i, j, u);
      }
    }
  }
}
