/** kalloc.c: free pages linked through their own first words. */
module Kalloc {
  import opened Options
  import opened Paging

  // The pages list, in order, are linked by next from head to the end.
  ghost predicate Linked(head: Option<nat>, next: map<nat, Option<nat>>, list: seq<nat>)
    decreases |list|
  {
    if list == [] then head == None
    else head == Some(list[0]) && list[0] in next && Linked(next[list[0]], next, list[1..])
  }

  // Relinking a page that is not on the list leaves the list.
  lemma {:induction false} LinkedOther(head: Option<nat>, next: map<nat, Option<nat>>, list: seq<nat>, p: nat,
                                       q: Option<nat>)
    requires Linked(head, next, list) && p !in list
    ensures Linked(head, next[p := q], list)
    decreases |list|
  {
    if list != [] {
      assert list[0] in list;
      LinkedOther(next[list[0]], next, list[1..], p, q);
    }
  }

  // The whole pages from the first page boundary at or after start that end by end, last first.
  function Pages(start: nat, end: nat): (r: seq<nat>)
    decreases end - start
  {
    if start + PGSIZE <= end then Pages(start + PGSIZE, end) + [start] else []
  }

  lemma {:induction false} PagesAre(start: nat, end: nat, p: nat)
    requires start % PGSIZE == 0
    ensures p in Pages(start, end) <==> p % PGSIZE == 0 && start <= p && p + PGSIZE <= end
    decreases end - start
  {
    if start + PGSIZE <= end {
      PagesAre(start + PGSIZE, end, p);
      assert p in Pages(start, end) <==> p in Pages(start + PGSIZE, end) || p == start;
    }
  }

  function RoundUp(a: nat): nat {
    (a + PGSIZE - 1) / PGSIZE * PGSIZE
  }

  class Kmem {
    // Pages may be freed from end up to stop.
    const end: nat
    const stop: nat
    var freelist: Option<nat>
    var next: map<nat, Option<nat>>
    ghost var list: seq<nat>

    ghost predicate Valid()
      reads this
    {
      && Linked(freelist, next, list) && NoRepeat(list)
      && (forall p :: p in list ==> Freeable(p))
    }

    predicate Freeable(p: nat) {
      p % PGSIZE == 0 && end <= p < stop
    }

    constructor (end: nat, stop: nat)
      ensures Valid() && list == [] && this.end == end && this.stop == stop
    {
      this.end, this.stop := end, stop;
      freelist, next, list := None, map[], [];
    }

    // False stands for the panic.
    method Kfree(v: nat) returns (ok: bool)
      requires Valid() && v !in list
      modifies this`freelist, this`next, this`list
      ensures Valid() && ok == Freeable(v)
      ensures list == if ok then [v] + old(list) else old(list)
    {
      ok := v % PGSIZE == 0 && end <= v < stop;
      if ok {
        LinkedOther(freelist, next, list, v, freelist);
        next := next[v := freelist];
        freelist := Some(v);
        list := [v] + list;
        assert list[1..] == old(list);
      }
    }

    method Kalloc() returns (r: Option<nat>)
      requires Valid()
      modifies this`freelist, this`list
      ensures Valid()
      ensures if old(list) == [] then r == None && list == [] else r == Some(old(list)[0]) && list == old(list)[1..]
      ensures r.Some? ==> r.value !in list && Freeable(r.value)
    {
      r := freelist;
      if r.Some? {
        assert list[0] in list;
        freelist := next[r.value];
        assert list == [list[0]] + list[1..];
        list := list[1..];
      }
    }

    // Every whole page between the two addresses goes on the list.
    method Freerange(vstart: nat, vend: nat) returns (ok: bool)
      requires Valid() && end <= vstart && vend <= stop
      requires forall p :: p in list ==> !(vstart <= p < vend)
      modifies this`freelist, this`next, this`list
      ensures Valid() && ok && list == Pages(RoundUp(vstart), vend) + old(list)
    {
      hide Linked, NoRepeat;
      ok := true;
      var p := RoundUp(vstart);
      ghost var before := list;
      while p + PGSIZE <= vend
        invariant p % PGSIZE == 0 && vstart <= p && Valid() && ok
        invariant forall q :: q in list ==> q in before || q < p
        invariant Pages(p, vend) + list == Pages(RoundUp(vstart), vend) + before
        decreases vend - p
      {
        ghost var sofar := list;
        assert Pages(p, vend) + list == Pages(p + PGSIZE, vend) + ([p] + list);
        ok := Kfree(p);
        p := p + PGSIZE;
      }
    }
  }

  // ---- as the page-table code sees it ----

  function Frames(list: seq<nat>): (r: seq<Frame>)
    ensures |r| == |list|
  {
    seq(|list|, i requires 0 <= i < |list| => list[i] / PGSIZE)
  }

  // The list holds no frame twice, and every other frame of the range may be freed.
  lemma FramesApart(k: Kmem, f: Frame)
    requires k.Valid()
    ensures NoRepeat(Frames(k.list)) && (f * PGSIZE in k.list <==> f in Frames(k.list))
  {
    forall i: nat, j: nat | i < j < |k.list| ensures Frames(k.list)[i] != Frames(k.list)[j] {
      assert k.list[i] in k.list && k.list[j] in k.list;
    }
    if f * PGSIZE in k.list {
      var i :| 0 <= i < |k.list| && k.list[i] == f * PGSIZE;
      assert Frames(k.list)[i] == f;
    }
    if f in Frames(k.list) {
      var i :| 0 <= i < |k.list| && Frames(k.list)[i] == f;
      assert k.list[i] in k.list;
    }
  }

  method TakeFrame(k: Kmem) returns (r: Option<Frame>)
    requires k.Valid()
    modifies k`freelist, k`list
    ensures k.Valid()
    ensures var free := old(Frames(k.list));
            if free == [] then r == None && Frames(k.list) == [] else r == Some(free[0]) && Frames(k.list) == free[1..]
  {
    var p := k.Kalloc();
    r := if p.Some? then Some(p.value / PGSIZE) else None;
  }

  method GiveFrame(k: Kmem, f: Frame) returns (ok: bool)
    requires k.Valid() && f !in Frames(k.list)
    modifies k`freelist, k`next, k`list
    ensures k.Valid() && (ok <==> k.end <= f * PGSIZE < k.stop)
    ensures Frames(k.list) == if ok then [f] + old(Frames(k.list)) else old(Frames(k.list))
  {
    FramesApart(k, f);
    ok := k.Kfree(f * PGSIZE);
  }
}
