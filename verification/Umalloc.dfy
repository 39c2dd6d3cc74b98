/** The Kernighan and Ritchie allocator of umalloc.c. The answer of the one sbrk call that malloc
    may make is a parameter. */
module Umalloc {
  import opened Options
  import opened HeapModel
  import opened HeapOps

  const NULL: int := 0
  const HEADER: nat := 8      // sizeof(Header)
  const MORECORE: nat := 4096

  // ---- searching the ring ----

  lemma {:induction false} FindPlace(r: seq<int>, bp: int) returns (k: nat)
    requires Sorted(r) && |r| > 0 && r[0] < bp && bp !in r
    ensures Place(r, k, bp)
    decreases |r|
  {
    var last := |r| - 1;
    if r[last] < bp {
      k := last;
    } else {
      k := FindPlace(r[..last], bp);
    }
  }

  // The exit tests of free's loop at node k.
  predicate StopsAt(r: seq<int>, k: nat, bp: int)
    requires k < |r|
  {
    var p, next := r[k], r[Succ(|r|, k)];
    (bp > p && bp < next) || (p >= next && (bp > p || bp < next))
  }

  lemma StopsExactly(r: seq<int>, k: nat, bp: int)
    requires Sorted(r) && k < |r| && r[0] < bp
    ensures StopsAt(r, k, bp) <==> Place(r, k, bp)
  {
    assert k + 1 < |r| ==> r[k] < r[k + 1];
    assert r[0] <= r[k];
  }

  // Steps from node k to node to, around the ring.
  function Ahead(n: nat, k: nat, to: nat): nat
    requires k < n && to < n
  {
    if k <= to then to - k else to - k + n
  }

  // ---- what free's code leaves ----

  function Above(mem: Mem, p: int, bp: int): Header
    requires p in mem
  {
    var next := mem[p].ptr;
    if bp + Sz(mem, bp) == next then Header(if next in mem then mem[next].ptr else 0, Sz(mem, bp) + Sz(mem, next))
    else Header(next, Sz(mem, bp))
  }

  function Below(mem: Mem, p: int, bp: int): Header
    requires p in mem
  {
    var up := Above(mem, p, bp);
    if p + Sz(mem, p) == bp then Header(up.ptr, Sz(mem, p) + up.size) else Header(bp, Sz(mem, p))
  }

  lemma FreeUpward(mem: Mem, r: seq<int>, k: nat, bp: int)
    requires FreeList(mem, r, {}) && FitsBetween(mem, r, k, bp)
    ensures r[k] in mem
    ensures var l := MergeIf(List(InsertMem(mem, r, k, bp), InsertRing(r, k, bp)), k + 1);
            && l.mem == mem[bp := Above(mem, r[k], bp)][r[k] := Header(bp, Sz(mem, r[k]))]
            && k + 1 < |l.ring| && l.ring[k] == r[k] && l.ring[k + 1] == bp
  {
    assert LinkAt(mem, r, k);
    var m1, r1 := InsertMem(mem, r, k, bp), InsertRing(r, k, bp);
    InsertAt(r, k, bp, k);
    InsertAt(r, k, bp, k + 1);
    InsertSz(mem, r, k, bp, k + 1);
    if k + 1 < |r| {
      InsertAt(r, k, bp, k + 2);
      InsertSz(mem, r, k, bp, k + 2);
      assert LinkAt(mem, r, k + 1);
    }
    if Touches(m1, r1, k + 1) {
      MergeAt(r1, k + 1, k);
      MergeAt(r1, k + 1, k + 1);
    } else {
      assert r[0] < bp;
    }
  }

  lemma FreeCode(mem: Mem, r: seq<int>, k: nat, bp: int)
    requires FreeList(mem, r, {}) && FitsBetween(mem, r, k, bp)
    ensures r[k] in mem
    ensures var l := FreeAt(mem, r, k, bp);
            && l.mem == mem[bp := Above(mem, r[k], bp)][r[k] := Below(mem, r[k], bp)]
            && r[k] in l.ring
  {
    hide InsertMem, InsertRing, FreeList;
    FreeUpward(mem, r, k, bp);
    var l2 := MergeIf(List(InsertMem(mem, r, k, bp), InsertRing(r, k, bp)), k + 1);
    BaseDoesNotTouch(mem, r, k, bp);
    if Touches(l2.mem, l2.ring, k) {
      MergeAt(l2.ring, k, k);
      assert MergeRing(l2.ring, k)[k] == r[k];
    }
  }

  lemma BaseDoesNotTouch(mem: Mem, r: seq<int>, k: nat, bp: int)
    requires FreeList(mem, r, {}) && FitsBetween(mem, r, k, bp)
    ensures k == 0 ==> r[0] + Sz(mem, r[0]) != bp
  {
  }

  // ---- free memory is contiguous within a node ----

  lemma NodesClear(mem: Mem, r: seq<int>, i: nat, j: nat)
    requires FreeList(mem, r, {}) && 1 <= i < j < |r|
    ensures r[i] + Sz(mem, r[i]) < r[j]
  {
    assert GapAt(mem, r, {}, i);
    assert r[i + 1] <= r[j];
  }

  lemma NextUnit(mem: Mem, r: seq<int>, i: nat, u: int)
    requires FreeList(mem, r, {}) && 1 <= i < |r| && InBlock(r[i], Sz(mem, r[i]), u) && InFree(mem, r, u + 1)
    ensures InBlock(r[i], Sz(mem, r[i]), u + 1)
  {
    var j :| 1 <= j < |r| && InBlock(r[j], Sz(mem, r[j]), u + 1);
    if i < j {
      NodesClear(mem, r, i, j);
    } else if j < i {
      NodesClear(mem, r, j, i);
    }
  }

  lemma {:induction false} RunOfUnits(mem: Mem, r: seq<int>, i: nat, a: int, n: nat)
    requires FreeList(mem, r, {}) && 1 <= i < |r| && n >= 1 && InBlock(r[i], Sz(mem, r[i]), a)
    requires forall u :: InBlock(a, n, u) ==> InFree(mem, r, u)
    ensures InBlock(r[i], Sz(mem, r[i]), a + n - 1)
    decreases n
  {
    if n > 1 {
      forall u | InBlock(a, n - 1, u) ensures InFree(mem, r, u) {
        assert InBlock(a, n, u);
      }
      RunOfUnits(mem, r, i, a, n - 1);
      assert InBlock(a, n, a + n - 1);
      NextUnit(mem, r, i, a + n - 2);
    }
  }

  // A run of free units lies within one node, which is therefore at least as large.
  lemma LargeNode(mem: Mem, r: seq<int>, a: int, n: nat) returns (i: nat)
    requires FreeList(mem, r, {}) && n >= 1
    requires forall u :: InBlock(a, n, u) ==> InFree(mem, r, u)
    ensures 1 <= i < |r| && Sz(mem, r[i]) >= n
  {
    assert InBlock(a, n, a);
    i :| 1 <= i < |r| && InBlock(r[i], Sz(mem, r[i]), a);
    RunOfUnits(mem, r, i, a, n);
  }

  // No node of the ring has n units.
  ghost predicate NoFit(h: Heap, n: int) {
    forall i :: 0 <= i < |h.ring| ==> Sz(h.mem, h.ring[i]) < n
  }

  // Place of node i in a scan of the whole ring that starts behind node f: 1, 2, ... n.
  function Turn(n: nat, f: nat, i: nat): nat
    requires f < n && i < n
  {
    if i > f then i - f else i - f + n
  }

  // The first cnt nodes of the scan are too small.
  ghost predicate TooSmall(h: Heap, f: nat, cnt: nat, n: int)
    requires f < |h.ring|
  {
    forall i :: 0 <= i < |h.ring| && Turn(|h.ring|, f, i) <= cnt ==> Sz(h.mem, h.ring[i]) < n
  }

  class Allocator {
    const base: int            // &base
    var mem: Mem
    var freep: int
    ghost var ring: seq<int>
    ghost var alloc: map<int, int>
    ghost var arena: set<int>

    constructor (base: int)
      requires base > NULL
      ensures Ok() && this.base == base && alloc == map[] && arena == {}
    {
      this.base, mem, freep, ring, alloc, arena := base, map[], NULL, [], map[], {};
    }

    ghost function H(): Heap
      reads this
    {
      Heap(mem, ring, alloc, arena)
    }

    ghost predicate Ready()
      reads this
    {
      base > NULL && Valid(base, H()) && freep in ring
    }

    // Before the first malloc nothing is set up.
    ghost predicate Ok()
      reads this
    {
      base > NULL && if freep == NULL then alloc == map[] && arena == {} else Ready()
    }

    ghost method Become(h: Heap)
      modifies this`ring, this`alloc, this`arena
      ensures ring == h.ring && alloc == h.alloc && arena == h.arena
    {
      ring, alloc, arena := h.ring, h.alloc, h.arena;
    }

    // free's loop: stops at bp's place in address order.
    method FindSlot(bp: int) returns (p: int, ghost k: nat)
      requires Ready() && bp in alloc
      ensures k < |ring| && p == ring[k] && Place(ring, k, bp)
    {
      hide Allocated, Tiled;
      AllocatedNode(base, H(), bp);
      ghost var place := FindPlace(ring, bp);
      ghost var n := |ring|;
      k :| 0 <= k < |ring| && ring[k] == freep;
      p := freep;
      StopsExactly(ring, k, bp);
      LinkFact(H().mem, ring, k);
      while !(bp > p && bp < mem[p].ptr)
        invariant k < n && p == ring[k] && p in mem && mem[p].ptr == ring[Succ(n, k)]
        invariant StopsAt(ring, k, bp) <==> Place(ring, k, bp)
        decreases Ahead(n, k, place)
      {
        if p >= mem[p].ptr && (bp > p || bp < mem[p].ptr) {
          break;
        }
        p := mem[p].ptr;
        k := Succ(n, k);
        StopsExactly(ring, k, bp);
        LinkFact(H().mem, ring, k);
      }
    }

    // Return the block at ap to the free list.
    method Free(ap: int)
      requires Ready() && ap - 1 in alloc
      modifies this
      ensures Ready() && DataKept(old(H()), H())
      ensures alloc == old(alloc) - {ap - 1} && arena == old(arena)
      ensures forall u :: InFree(mem, ring, u) <==> old(InFree(mem, ring, u)) || InBlock(ap - 1, old(alloc)[ap - 1], u)
    {
      var bp := ap - 1;
      ghost var h := H();
      var p;
      ghost var k;
      hide FreeHeap, Valid, Place, InFree, DataKept;
      p, k := FindSlot(bp);
      FreeAll(base, h, k, bp);
      var next := mem[p].ptr;
      if bp + mem[bp].size == next {
        mem := mem[bp := Header(if next in mem then mem[next].ptr else 0, mem[bp].size + Sz(mem, next))];
      } else {
        mem := mem[bp := Header(next, mem[bp].size)];
      }
      if p + mem[p].size == bp {
        mem := mem[p := Header(mem[bp].ptr, mem[p].size + mem[bp].size)];
      } else {
        mem := mem[p := Header(bp, mem[p].size)];
      }
      Become(FreeHeap(h, k, bp));
      freep := p;
    }

    // Ask the kernel for more memory; core is its answer.
    method Morecore(nunits: nat, core: Option<int>) returns (p: int)
      requires Ready() && nunits >= 1 && CoreOk(base, arena, core, nunits)
      modifies this
      ensures Ready() && alloc == old(alloc)
      ensures core.None? ==> p == NULL && H() == old(H()) && freep == old(freep)
      ensures core.Some? ==> p == freep != NULL && !NoFit(H(), nunits)
                             && DataKept(old(H()), H()) && arena == old(arena) + Units(core.value, CoreSize(nunits))
    {
      if core.None? {
        return NULL;
      }
      ghost var h := H();
      var nu := CoreSize(nunits);
      var hp := core.value;
      hide Valid, InFree, DataKept, Units, NoFit;
      GrowValid(base, h, hp, nu);
      ghost var g := GrowHeap(h, hp, nu);
      mem := mem[hp := Header(if hp in mem then mem[hp].ptr else 0, nu)];
      Become(g);
      Free(hp + 1);
      DataKeptTwice(h, g, H());
      GrownFits(base, g, H(), hp, nu, nunits);
      NodeNotNull(base, H(), freep);
      assert alloc == old(alloc);
      p := freep;
    }

    // The first call: a ring of base alone.
    method Setup()
      requires Ok() && freep == NULL
      modifies this
      ensures Ready() && alloc == old(alloc) && arena == old(arena) && ring == [base] && Sz(mem, base) == 0
    {
      mem := mem[base := Header(base, 0)];
      freep := base;
      ring := [base];
      EmptyHeap(base, mem);
    }

    // Unlink the node p; prevp is the node before it.
    method TakeNode(prevp: int, p: int, ghost j: nat)
      requires Ready() && 1 <= j < |ring| && prevp == ring[j - 1] && p == ring[j]
      modifies this
      ensures Ready() && HandedOut(old(H()), H(), p, old(Sz(mem, p)))
    {
      ghost var h := H();
      hide Valid, HandedOut, TakeHeap;
      TakeAll(base, h, j);
      mem := mem[prevp := Header(mem[p].ptr, mem[prevp].size)];
      Become(TakeHeap(h, j));
      freep := prevp;
    }

    // Cut n units off the end of the larger node p.
    method CutNode(prevp: int, p: int, n: nat, ghost j: nat) returns (q: int)
      requires Ready() && 1 <= n < Sz(mem, p) && 1 <= j < |ring| && prevp == ring[j - 1] && p == ring[j]
      modifies this
      ensures Ready() && HandedOut(old(H()), H(), q, n)
    {
      ghost var h := H();
      hide Valid, HandedOut, SplitHeap;
      CutAll(base, h, j, n);
      mem := mem[p := Header(mem[p].ptr, mem[p].size - n)];
      q := p + mem[p].size;
      mem := mem[q := Header(if q in mem then mem[q].ptr else 0, n)];
      Become(SplitHeap(h, j, n));
      freep := prevp;
    }

    // A block for nbytes of user data, or NULL. Asks for more memory exactly when no free block
    // is large enough, and then once only; gives up exactly when that is refused.
    method Malloc(nbytes: nat, core: Option<int>) returns (r: int, asked: bool)
      requires Ok() && CoreOk(base, arena, core, Nunits(nbytes))
      modifies this
      ensures Ready()
      ensures asked <==> old(freep == NULL || NoFit(H(), Nunits(nbytes)))
      ensures r == NULL <==> asked && core.None?
      ensures r == NULL ==> alloc == old(alloc) && arena == old(arena)
      ensures r != NULL ==> Served(old(H()), H(), r - 1, Nunits(nbytes), if asked then core else None)
    {
      hide Valid, HandedOut, Scanning, NoFit, Units, DataKept;
      var nunits := (nbytes + HEADER - 1) / HEADER + 1;
      ghost var h0, fresh_ := H(), freep == NULL;
      if freep == NULL {
        Setup();
        OnlyBase(H(), base, nunits);
      }
      ghost var h1 := H();
      asked := false;
      var prevp := freep;
      ghost var f, j := ScanStart(base, H(), freep, nunits);
      var p := mem[prevp].ptr;
      ghost var cnt := 0;
      while true
        invariant Ready() && Scanning(H(), freep, f, prevp, p, j, cnt, nunits)
        invariant p in mem
        invariant if asked then core.Some? && !NoFit(H(), nunits) && NoFit(h1, nunits)
                  && Extended(h1, H(), core.value, nunits)
                  else H() == h1
        decreases !asked, |ring| - cnt
      {
        ScanFacts(base, H(), freep, f, prevp, p, j, cnt, nunits);
        if mem[p].size >= nunits {
          ghost var g := H();
          if mem[p].size == nunits {
            TakeNode(prevp, p, j);
            r := p + 1;
          } else {
            var q := CutNode(prevp, p, nunits, j);
            r := q + 1;
          }
          ServedBy(h0, h1, g, H(), r - 1, nunits, if asked then core else None);
          FitFound(g, j, nunits);
          return;
        }
        if p == freep {
          ScanEnd(base, H(), freep, f, prevp, p, j, cnt, nunits);
          p := Morecore(nunits, core);
          asked := true;
          if p == NULL {
            return NULL, true;
          }
          prevp := p;
          f, j := ScanStart(base, H(), freep, nunits);
          cnt := 0;
        } else {
          ScanNext(base, H(), freep, f, prevp, p, j, cnt, nunits);
          prevp := p;
          j := Succ(|ring|, j);
          cnt := cnt + 1;
        }
        p := mem[p].ptr;
      }
    }
  }

  function Nunits(nbytes: nat): nat {
    (nbytes + HEADER - 1) / HEADER + 1
  }

  ghost predicate Extended(h: Heap, h': Heap, hp: int, nunits: nat) {
    h'.alloc == h.alloc && h'.arena == h.arena + Units(hp, CoreSize(nunits)) && DataKept(h, h')
  }

  // The result of a malloc that succeeds, having obtained the memory in core, if any.
  ghost predicate Served(h: Heap, h': Heap, q: int, n: nat, core: Option<int>) {
    && q !in h.alloc && h'.alloc == h.alloc[q := n]
    && h'.arena == h.arena + (if core.Some? then Units(core.value, CoreSize(n)) else {})
    && DataKept(h, h')
  }

  lemma ServedBy(h0: Heap, h1: Heap, g: Heap, h': Heap, q: int, n: nat, core: Option<int>)
    requires h1.alloc == h0.alloc && h1.arena == h0.arena && (h1.mem == h0.mem || h0.alloc == map[])
    requires if core.Some? then Extended(h1, g, core.value, n) else g == h1
    requires HandedOut(g, h', q, n)
    ensures Served(h0, h', q, n, core) && q > NULL
  {
    DataKeptTwice(h0, g, h');
  }

  lemma OnlyBase(h: Heap, base: int, n: nat)
    requires h.ring == [base] && Sz(h.mem, base) == 0 && n >= 1
    ensures NoFit(h, n)
  {
  }

  lemma FitFound(h: Heap, j: nat, n: int)
    requires j < |h.ring| && Sz(h.mem, h.ring[j]) >= n
    ensures !NoFit(h, n)
  {
  }

  // malloc's scan stands at node j, behind cnt nodes that are too small.
  ghost predicate Scanning(h: Heap, freep: int, f: nat, prevp: int, p: int, j: nat, cnt: nat, n: int) {
    && f < |h.ring| && h.ring[f] == freep
    && j < |h.ring| && h.ring[j] == p && h.ring[if j == 0 then |h.ring| - 1 else j - 1] == prevp
    && cnt + 1 == Turn(|h.ring|, f, j)
    && TooSmall(h, f, cnt, n)
  }

  lemma ScanStart(base: int, h: Heap, freep: int, n: int) returns (f: nat, j: nat)
    requires Valid(base, h) && freep in h.ring
    ensures freep in h.mem && h.mem[freep].ptr in h.mem
    ensures Scanning(h, freep, f, freep, h.mem[freep].ptr, j, 0, n)
  {
    f :| 0 <= f < |h.ring| && h.ring[f] == freep;
    j := Succ(|h.ring|, f);
    NodeFacts(base, h, f);
    NodeFacts(base, h, j);
  }

  lemma ScanFacts(base: int, h: Heap, freep: int, f: nat, prevp: int, p: int, j: nat, cnt: nat, n: int)
    requires Valid(base, h) && Scanning(h, freep, f, prevp, p, j, cnt, n) && n >= 1
    ensures j < |h.ring| && p == h.ring[j] && p in h.mem && cnt < |h.ring|
    ensures Sz(h.mem, p) >= n ==> 1 <= j && prevp == h.ring[j - 1]
  {
    NodeFacts(base, h, j);
  }

  lemma ScanNext(base: int, h: Heap, freep: int, f: nat, prevp: int, p: int, j: nat, cnt: nat, n: int)
    requires Valid(base, h) && Scanning(h, freep, f, prevp, p, j, cnt, n) && Sz(h.mem, p) < n && p != freep
    ensures p in h.mem && h.mem[p].ptr in h.mem
    ensures Scanning(h, freep, f, p, h.mem[p].ptr, Succ(|h.ring|, j), cnt + 1, n)
  {
    hide Valid;
    NodeFacts(base, h, j);
    NodeFacts(base, h, Succ(|h.ring|, j));
  }

  // Back at freep with nothing found: no node fits.
  lemma ScanEnd(base: int, h: Heap, freep: int, f: nat, prevp: int, p: int, j: nat, cnt: nat, n: int)
    requires Valid(base, h) && Scanning(h, freep, f, prevp, p, j, cnt, n) && Sz(h.mem, p) < n && p == freep
    ensures NoFit(h, n)
  {
    assert f == j;
    forall i | 0 <= i < |h.ring| ensures Sz(h.mem, h.ring[i]) < n {
      assert Turn(|h.ring|, f, i) <= cnt || i == j;
    }
  }

  // The block (q, n), all of it free in h, is allocated in h'; other blocks keep their data.
  ghost predicate HandedOut(h: Heap, h': Heap, q: int, n: int) {
    && q > NULL && q !in h.alloc && h'.alloc == h.alloc[q := n] && h'.arena == h.arena
    && DataKept(h, h')
    && (forall u :: InBlock(q, n, u) ==> InFree(h.mem, h.ring, u))
    && (forall u :: InFree(h'.mem, h'.ring, u) <==> InFree(h.mem, h.ring, u) && !InBlock(q, n, u))
  }

  lemma TakeAll(base: int, h: Heap, j: nat)
    requires Valid(base, h) && base > NULL && 1 <= j < |h.ring|
    ensures h.ring[j] in h.mem && h.ring[j - 1] in h.mem
    ensures var h' := TakeHeap(h, j);
            && Valid(base, h') && h.ring[j - 1] in h'.ring
            && HandedOut(h, h', h.ring[j], Sz(h.mem, h.ring[j]))
            && h'.mem == h.mem[h.ring[j - 1] := Header(h.mem[h.ring[j]].ptr, h.mem[h.ring[j - 1]].size)]
  {
    TakeValid(base, h, j);
    NodeFacts(base, h, j);
    NodeFacts(base, h, j - 1);
    RemoveAt(h.ring, j, j - 1);
    hide Valid, InFree, DataKept, FreeList;
    assert TakeHeap(h, j).ring[j - 1] == h.ring[j - 1];
  }

  lemma CutAll(base: int, h: Heap, j: nat, n: int)
    requires Valid(base, h) && base > NULL && 1 <= j < |h.ring| && 1 <= n < Sz(h.mem, h.ring[j])
    ensures h.ring[j] in h.mem
    ensures var h', p := SplitHeap(h, j, n), h.ring[j];
            var q := p + h.mem[p].size - n;
            && Valid(base, h') && h.ring[j - 1] in h'.ring
            && HandedOut(h, h', q, n)
            && h'.mem == h.mem[p := Header(h.mem[p].ptr, h.mem[p].size - n)]
                          [q := Header(if q in h.mem then h.mem[q].ptr else 0, n)]
            && q != p
  {
    SplitValid(base, h, j, n);
    NodeFacts(base, h, j);
    hide Valid, InFree, DataKept, FreeList;
  }

  lemma EmptyHeap(base: int, mem: Mem)
    requires base in mem && mem[base] == Header(base, 0)
    ensures Valid(base, Heap(mem, [base], map[], {}))
  {
    assert LinkAt(mem, [base], 0);
  }

  lemma NodeFacts(base: int, h: Heap, j: nat)
    requires Valid(base, h) && j < |h.ring|
    ensures h.ring[j] in h.mem && h.mem[h.ring[j]].ptr == h.ring[Succ(|h.ring|, j)]
    ensures h.ring[j] >= base && (j >= 1 ==> h.ring[j] > base && h.ring[j - 1] < h.ring[j])
    ensures j == 0 ==> Sz(h.mem, h.ring[j]) == 0
  {
    LinkFact(h.mem, h.ring, j);
  }

  // The units morecore asks for.
  function CoreSize(nunits: nat): nat {
    if nunits < MORECORE then MORECORE else nunits
  }

  // sbrk hands out memory above the program's data that it has not handed out before.
  ghost predicate CoreOk(base: int, arena: set<int>, core: Option<int>, nunits: nat) {
    core.Some? ==> core.value > base && Units(core.value, CoreSize(nunits)) !! arena
  }

  lemma DataKeptTwice(h: Heap, g: Heap, h': Heap)
    requires DataKept(h, g) && DataKept(g, h')
    requires forall a :: a in h.alloc && a in h'.alloc ==> a in g.alloc && g.alloc[a] == h.alloc[a]
    ensures DataKept(h, h')
  {
    forall a, u | a in h.alloc && a in h'.alloc && InBlock(a, h.alloc[a], u) ensures SameAt(h.mem, h'.mem, u) {
      assert a in g.alloc && g.alloc[a] == h.alloc[a];
      assert SameAt(h.mem, g.mem, u);
      assert SameAt(g.mem, h'.mem, u);
    }
  }

  // Once the new memory is on the free list, some node can serve the request.
  lemma GrownFits(base: int, g: Heap, h': Heap, hp: int, nu: nat, nunits: nat)
    requires Valid(base, h') && hp in g.alloc && g.alloc[hp] == nu >= nunits && nu >= 1
    requires forall u :: InFree(h'.mem, h'.ring, u) <==> InFree(g.mem, g.ring, u) || InBlock(hp, g.alloc[hp], u)
    ensures !NoFit(h', nunits)
  {
    var i := LargeNode(h'.mem, h'.ring, hp, nu);
    assert Sz(h'.mem, h'.ring[i]) >= nunits;
  }

  lemma NodeNotNull(base: int, h: Heap, p: int)
    requires Valid(base, h) && base > NULL && p in h.ring
    ensures p != NULL
  {
  }

  // Everything about free() in one place.
  lemma FreeAll(base: int, h: Heap, k: nat, bp: int)
    requires Valid(base, h) && bp in h.alloc && Place(h.ring, k, bp)
    ensures bp in h.mem && h.mem[bp].size == h.alloc[bp] && k < |h.ring| && h.ring[k] in h.mem && h.ring[k] != bp
    ensures var h' := FreeHeap(h, k, bp);
            && Valid(base, h') && DataKept(h, h')
            && h'.mem == h.mem[bp := Above(h.mem, h.ring[k], bp)][h.ring[k] := Below(h.mem, h.ring[k], bp)]
            && h.ring[k] in h'.ring && h'.alloc == h.alloc - {bp} && h'.arena == h.arena
            && forall u :: InFree(h'.mem, h'.ring, u) <==> InFree(h.mem, h.ring, u) || InBlock(bp, h.alloc[bp], u)
  {
    FreeValid(base, h, k, bp);
    FreeUnits(base, h, k, bp);
    PlaceFits(base, h, k, bp);
    AllocatedSize(base, h, bp);
    hide FreeAt, Valid, Place, FitsBetween, InFree, DataKept, Above, Below;
    FreeListOf(base, h);
    FreeCode(h.mem, h.ring, k, bp);
  }

  lemma FreeListOf(base: int, h: Heap)
    requires Valid(base, h)
    ensures FreeList(h.mem, h.ring, {})
  {
  }

  lemma AllocatedNode(base: int, h: Heap, bp: int)
    requires Valid(base, h) && bp in h.alloc
    ensures h.ring[0] < bp && bp !in h.ring
  {
    forall i | 0 <= i < |h.ring| ensures h.ring[i] != bp {
      NodeNotAllocated(base, h, i);
    }
  }

  lemma AllocatedSize(base: int, h: Heap, bp: int)
    requires Valid(base, h) && bp in h.alloc
    ensures bp in h.mem && h.mem[bp].size == h.alloc[bp] && bp !in h.ring
  {
    AllocatedNode(base, h, bp);
  }

  lemma LinkFact(mem: Mem, r: seq<int>, k: nat)
    requires Linked(mem, r) && k < |r|
    ensures r[k] in mem && mem[r[k]].ptr == r[Succ(|r|, k)]
  {
    assert LinkAt(mem, r, k);
  }
}
