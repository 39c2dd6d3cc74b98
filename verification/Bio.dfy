/** The code of bio.c, with memide.c as the disk driver, on the linked list itself. Buffers are
    numbered 0..n; number n is bcache.head. */
module Bio {
  import opened Blocks
  import opened BufferCache
  import opened MruRing

  class Bcache {
    const n: nat               // NBUF
    const next: array<nat>
    const prev: array<nat>
    const buf: array<Buf>
    var disk: seq<Block>
    ghost var order: seq<nat>  // the buffers from head.next to head.prev

    ghost function C(): Cache
      reads this, buf
    {
      Cache(buf[..], disk, order)
    }

    ghost predicate Linked()
      reads this, next, prev
    {
      && next.Length == prev.Length == n + 1 && next != prev
      && Ring(next[..], prev[..], [n] + order)
    }

    ghost predicate Valid()
      reads this, next, prev, buf
    {
      buf.Length == n && Linked() && Inv(C())
    }

    // binit: all buffers idle, on the list in the order in which they were pushed.
    constructor (n: nat, disk: seq<Block>)
      ensures Valid() && fresh(next) && fresh(prev) && fresh(buf)
      ensures this.n == n && this.disk == disk && order == Down(n)
      ensures forall b :: 0 <= b < n ==> buf[b] == Idle()
    {
      this.n, this.disk := n, disk;
      next := new nat[n + 1](_ => n);
      prev := new nat[n + 1](_ => n);
      buf := new Buf[n](_ => Idle());
      order := [];
      new;
      assert LinkAt(next[..], prev[..], [n] + [], 0);
      for b := 0 to n
        invariant Linked() && order == Down(b) && this.disk == disk
        invariant buf.Length == n && forall a :: 0 <= a < n ==> buf[a] == Idle()
      {
        PushFront(b);
        assert order == Down(b + 1);
      }
      FreshCache(C(), n);
    }

    // b becomes the most recently used buffer of a list that does not contain it.
    method PushFront(b: nat)
      requires Linked() && b < n && b !in order
      modifies this`order, next, prev
      ensures Linked() && order == [b] + old(order)
    {
      ghost var r := [n] + order;
      Push(next[..], prev[..], r, b);
      ghost var next', prev' := PushNext(next[..], n, b), PushPrev(next[..], prev[..], n, b);
      next[b] := next[n];
      prev[b] := n;
      prev[next[n]] := b;
      next[n] := b;
      assert next[..] == next' && prev[..] == prev';
      order := [b] + order;
      assert [n] + order == Front(r, b);
    }

    // Take the k-th buffer out of the list.
    method UnlinkBuf(b: nat, ghost k: nat)
      requires Linked() && k < |order| && order[k] == b
      modifies this`order, next, prev
      ensures Linked() && order == old(order)[..k] + old(order)[k + 1..]
    {
      ghost var r := [n] + order;
      Unlink(next[..], prev[..], r, k + 1);
      ghost var next', prev' := UnlinkNext(next[..], prev[..], b), UnlinkPrev(next[..], prev[..], b);
      var nb, pb := next[b], prev[b];
      prev[nb] := pb;
      next[pb] := nb;
      assert next[..] == next' && prev[..] == prev';
      order := order[..k] + order[k + 1..];
      assert [n] + order == Cut(r, k + 1);
    }

    // bget's first loop: the place of the block in the list, or |order|.
    method Search(dev: nat, blockno: nat) returns (b: nat, ghost k: nat)
      requires Valid()
      ensures k == Lookup(buf[..], order, dev, blockno)
      ensures b == if k < |order| then order[k] else n
    {
      hide Unique, BufOk, Ring, Lookup;
      Around(next[..], prev[..], n, order, 0);
      b, k := next[n], 0;
      while b != n && !(buf[b].dev == dev && buf[b].blockno == blockno)
        invariant k <= |order| && b == if k < |order| then order[k] else n
        invariant forall i :: 0 <= i < k ==> !Holds(buf[..][order[i]], dev, blockno)
        decreases |order| - k
      {
        Around(next[..], prev[..], n, order, k + 1);
        b, k := next[b], k + 1;
      }
      LookupIs(buf[..], order, dev, blockno, k);
    }

    // bget's second loop: the last recyclable buffer.
    method FindVictim() returns (b: nat, ghost k: nat)
      requires Valid()
      ensures k == Victim(buf[..], order)
      ensures b == if k > 0 then order[k - 1] else n
    {
      hide Unique, BufOk, Ring, Victim;
      k := |order|;
      Around(next[..], prev[..], n, order, k);
      b := prev[n];
      while b != n && !(buf[b].refcnt == 0 && !buf[b].dirty)
        invariant k <= |order| && b == if k > 0 then order[k - 1] else n
        invariant forall i :: k <= i < |order| ==> !Recyclable(buf[..][order[i]])
        decreases k
      {
        k := k - 1;
        Around(next[..], prev[..], n, order, k);
        b := prev[b];
      }
      VictimIs(buf[..], order, k);
    }

    // bget up to its release of bcache.lock. Panics exactly when no buffer holds the block and none is unused.
    method Bget(dev: nat, blockno: nat) returns (panicked: bool, b: nat)
      requires Valid()
      modifies buf
      ensures Valid()
      ensures panicked <==> old(forall a :: 0 <= a < n ==> !Holds(buf[a], dev, blockno) && !Recyclable(buf[a]))
      ensures C() == DoGet(old(C()), dev, blockno)
      ensures !panicked ==> Gets(old(C()), C(), dev, blockno, b)
      ensures !panicked ==> b < n && Holds(buf[b], dev, blockno) && buf[b].refcnt >= 1 && buf[b].waiting >= 1
      ensures panicked ==> C() == old(C())
    {
      hide Unique, Ring, Lookup, Victim, BufOk, Gets;
      ghost var k;
      ghost var c := C();
      CanGetIs(c, dev, blockno);
      panicked := false;
      b, k := Search(dev, blockno);
      if b != n {
        GetKeeps(c, dev, blockno);
        DoGetGets(c, dev, blockno, b);
        buf[b] := buf[b].(refcnt := buf[b].refcnt + 1, waiting := buf[b].waiting + 1);
      } else {
        b, k := FindVictim();
        if b == n {
          panicked := true;
        } else {
          GetKeeps(c, dev, blockno);
          DoGetGets(c, dev, blockno, b);
          buf[b] := Buf(dev, blockno, false, false, 1, 1, 0, false, buf[b].data);
        }
      }
    }

    // acquiresleep for a process that has the buffer from bget; it sleeps while somebody else holds the lock.
    method Acquiresleep(b: nat) returns (sleeps: bool)
      requires Valid() && b < n && buf[b].waiting >= 1
      modifies buf
      ensures Valid() && (sleeps <==> old(buf[b].locked))
      ensures C() == if sleeps then old(C()) else Do(old(C()), Lock(b))
      ensures !sleeps ==>
                && buf[b] == old(buf[b]).(locked := true, waiting := old(buf[b].waiting) - 1)
                && forall a :: 0 <= a < n && a != b ==> buf[a] == old(buf[a])
    {
      sleeps := buf[b].locked;
      if !sleeps {
        StepKeeps(C(), Lock(b));
        buf[b] := buf[b].(locked := true, waiting := buf[b].waiting - 1);
      }
    }

    // bread with nobody in between: a buffer, held by the caller, with the contents of the block.
    method Bread(blockno: nat) returns (panicked: bool, sleeps: bool, b: nat)
      requires Valid() && blockno < |disk|
      modifies this`disk, buf
      ensures Valid() && disk == old(disk)
      ensures panicked <==> old(forall a :: 0 <= a < n ==> !Holds(buf[a], DISK, blockno) && !Recyclable(buf[a]))
      ensures sleeps <==> old(exists a :: 0 <= a < n && Holds(buf[a], DISK, blockno) && buf[a].locked)
      ensures !panicked && !sleeps ==>
                && b < n && Holds(buf[b], DISK, blockno) && buf[b].locked && buf[b].valid
                && buf[b].data == Contents(old(C()), blockno)
      ensures forall m :: 0 <= m < |disk| ==> Contents(C(), m) == Contents(old(C()), m)
    {
      hide Ring, Gets, Inv, DoGet, Contents, Lookup, Victim, Unique, BufOk, Enabled, Do;
      ghost var c := C();
      sleeps := false;
      panicked, b := Bget(DISK, blockno);
      if panicked {
        return;
      }
      ghost var c1 := C();
      GotFacts(c, c1, blockno, b);
      sleeps := Acquiresleep(b);
      if sleeps {
        return;
      }
      ghost var c2 := C();
      LockShows(c1, c2, b);
      panicked := BreadFill(b);
      if !c2.bufs[b].valid {
        FillShows(c2, b);
      }
    }

    method MoveToFront(b: nat)
      requires Linked() && b in order && b < n && Distinct(order)
      modifies this`order, next, prev
      ensures Linked() && order == [b] + Remove(old(order), b)
    {
      hide Ring, Remove;
      ghost var k :| 0 <= k < |order| && order[k] == b;
      RemoveIs(order, k);
      UnlinkBuf(b, k);
      CutOut(old(order), order, k);
      PushFront(b);
    }

    method Releasesleep(b: nat)
      requires Valid() && Enabled(C(), Unlock(b))
      modifies buf
      ensures Valid() && C() == Do(old(C()), Unlock(b))
    {
      StepKeeps(C(), Unlock(b));
      buf[b] := buf[b].(locked := false, leaving := buf[b].leaving + 1);
    }

    // One reference fewer; a buffer that nobody wants any more is the first of the list.
    method DropRef(b: nat)
      requires Valid() && Enabled(C(), Release(b))
      modifies this`order, next, prev, buf
      ensures Valid()
      ensures C() == DoRelease(old(C()), b)
    {
      hide Inv, Enabled, Remove, Ring;
      ghost var c := C();
      ReleaseFacts(c, b);
      buf[b] := buf[b].(refcnt := buf[b].refcnt - 1, leaving := buf[b].leaving - 1);
      assert buf[..] == c.bufs[b := Left(c.bufs[b])];
      if buf[b].refcnt == 0 {
        MoveToFront(b);
      }
    }

    // Panics exactly on a buffer that is not locked; else its two steps, one after the other.
    method Brelse(b: nat) returns (panicked: bool)
      requires Valid() && b < n && (buf[b].locked ==> Enabled(C(), Unlock(b)))
      modifies this`order, next, prev, buf
      ensures Valid() && (panicked <==> !old(buf[b].locked))
      ensures panicked ==> C() == old(C())
      ensures !panicked ==> C() == Released(old(C()), b)
      ensures !panicked ==>
                && disk == old(disk) && old(buf[b].refcnt) >= 1
                && buf[b] == old(buf[b]).(locked := false, refcnt := old(buf[b].refcnt) - 1)
                && (forall a :: 0 <= a < n && a != b ==> buf[a] == old(buf[a]))
                && order == if buf[b].refcnt == 0 then [b] + Remove(old(order), b) else old(order)
    {
      hide Inv, Ring, Remove;
      panicked := !buf[b].locked;
      if !panicked {
        UnlockFacts(C(), b);
        Releasesleep(b);
        DropRef(b);
      }
    }

    // iderw: write a dirty buffer, fill an invalid one.
    method Iderw(b: nat) returns (panicked: bool)
      requires b < buf.Length
      modifies this`disk, buf
      ensures panicked <==> old(!buf[b].locked || (buf[b].valid && !buf[b].dirty) || !OnDisk(C(), buf[b]))
      ensures panicked ==> disk == old(disk) && buf[..] == old(buf[..])
      ensures !panicked && old(buf[b].dirty) ==>
                && old(buf[b].blockno < |disk|) && disk == old(disk)[old(buf[b].blockno) := old(buf[b].data)]
                && buf[..] == old(buf[..])[b := old(buf[b]).(dirty := false, valid := true)]
      ensures !panicked && !old(buf[b].dirty) ==>
                && disk == old(disk) && old(buf[b].blockno < |disk|)
                && buf[..] == old(buf[..])[b := old(buf[b]).(valid := true, data := disk[old(buf[b].blockno)])]
    {
      if !buf[b].locked || (buf[b].valid && !buf[b].dirty) || buf[b].dev != DISK || buf[b].blockno >= |disk| {
        return true;
      }
      panicked := false;
      if buf[b].dirty {
        disk := disk[buf[b].blockno := buf[b].data];
        buf[b] := buf[b].(dirty := false);
      } else {
        buf[b] := buf[b].(data := disk[buf[b].blockno]);
      }
      buf[b] := buf[b].(valid := true);
    }

    // bread after bget has locked the buffer.
    method BreadFill(b: nat) returns (panicked: bool)
      requires Valid() && b < n && buf[b].locked && OnDisk(C(), buf[b])
      modifies this`disk, buf
      ensures !panicked && Valid()
      ensures C() == if old(buf[b].valid) then old(C()) else Do(old(C()), Fill(b))
      // the caller gets the contents of the block
      ensures buf[b].valid && buf[b].blockno < |disk| && buf[b].data == Contents(C(), buf[b].blockno)
    {
      panicked := false;
      ghost var c := C();
      assert BufOk(buf[..][b], disk);
      if !buf[b].valid {
        StepKeeps(c, Fill(b));
        panicked := Iderw(b);
      }
      HeldShowsContents(C(), b);
    }

    // The buffer's data becomes its block's.
    method Bwrite(b: nat) returns (panicked: bool)
      requires Valid() && Enabled(C(), Flush(b))
      modifies this`disk, buf
      ensures !panicked && Valid()
      ensures C() == Do(old(C()), Flush(b))
      ensures buf[b] == old(buf[b]).(dirty := false) && order == old(order)
      ensures disk == old(disk)[buf[b].blockno := buf[b].data]
      ensures forall a :: 0 <= a < n && a != b ==> buf[a] == old(buf[a])
    {
      ghost var c := C();
      StepKeeps(c, Flush(b));
      buf[b] := buf[b].(dirty := true);
      assert buf[..] == c.bufs[b := c.bufs[b].(dirty := true)];
      panicked := Iderw(b);
      assert buf[..] == Do(c, Flush(b)).bufs;
    }
  }

  function Idle(): Buf {
    Buf(0, 0, false, false, 0, 0, 0, false, ZeroBlock())
  }

  // b-1, ..., 1, 0
  function Down(b: nat): seq<nat> {
    seq(b, i requires 0 <= i < b => b - 1 - i)
  }

  lemma FreshCache(c: Cache, n: nat)
    requires |c.bufs| == n && forall b :: 0 <= b < n ==> c.bufs[b] == Idle()
    requires c.order == Down(n)
    ensures Inv(c)
  {
    forall b | 0 <= b < n ensures b in c.order {
      assert c.order[n - 1 - b] == b;
    }
  }

  lemma ReleaseFacts(c: Cache, b: nat)
    requires Inv(c) && Enabled(c, Release(b))
    ensures b < |c.bufs| && c.bufs[b].refcnt >= 1 && c.bufs[b].leaving >= 1 && Inv(DoRelease(c, b))
    ensures b in c.order && Distinct(c.order)
  {
    ReleaseKeeps(c, b);
  }

  lemma CanGetIs(c: Cache, dev: nat, blockno: nat)
    requires Inv(c)
    ensures CanGet(c, dev, blockno) <==>
              exists a :: 0 <= a < |c.bufs| && (Holds(c.bufs[a], dev, blockno) || Recyclable(c.bufs[a]))
  {
    hide Unique, BufOk;
    NoVictim(c);
    var i := Lookup(c.bufs, c.order, dev, blockno);
    if i == |c.order| {
      NotFound(c, dev, blockno);
    } else {
      assert Holds(c.bufs[c.order[i]], dev, blockno);
    }
  }

  // Every block reads as before.
  ghost predicate SameContents(c: Cache, c': Cache) {
    |c'.disk| == |c.disk| && forall m :: 0 <= m < |c.disk| ==> Contents(c', m) == Contents(c, m)
  }

  lemma StepShows(c: Cache, st: Step)
    requires Inv(c) && Enabled(c, st) && !st.Modify?
    ensures SameContents(c, Do(c, st))
  {
    hide Unique, BufOk, Enabled, Do, Contents;
    StepKeeps(c, st);
    forall m | 0 <= m < |c.disk| ensures Contents(Do(c, st), m) == Contents(c, m) {
      StepContents(c, st, m);
    }
  }

  // What bread relies on between bget and acquiresleep.
  lemma GotFacts(c: Cache, c': Cache, blockno: nat, b: nat)
    requires Inv(c) && blockno < |c.disk| && Gets(c, c', DISK, blockno, b) && c' == DoGet(c, DISK, blockno)
    ensures SameContents(c, c') && c'.disk == c.disk
    ensures c'.bufs[b].locked <==> exists a :: 0 <= a < |c.bufs| && Holds(c.bufs[a], DISK, blockno) && c.bufs[a].locked
  {
    CanGetIs(c, DISK, blockno);
    StepShows(c, Get(DISK, blockno));
    hide BufOk, DoGet, Contents, Lookup, Victim, SameContents, CanGet;
    forall a | 0 <= a < |c.bufs| && Holds(c.bufs[a], DISK, blockno) ensures a == b {
    }
  }

  lemma LockShows(c: Cache, c': Cache, b: nat)
    requires Inv(c) && Enabled(c, Lock(b)) && c' == Do(c, Lock(b))
    ensures SameContents(c, c')
  {
    StepShows(c, Lock(b));
  }

  lemma FillShows(c: Cache, b: nat)
    requires Inv(c) && Enabled(c, Fill(b))
    ensures SameContents(c, Do(c, Fill(b))) && Do(c, Fill(b)).disk == c.disk
    ensures var buf := Do(c, Fill(b)).bufs[b]; Holds(buf, c.bufs[b].dev, c.bufs[b].blockno) && buf.locked
  {
    StepShows(c, Fill(b));
  }

  lemma UnlockFacts(c: Cache, b: nat)
    requires Inv(c) && Enabled(c, Unlock(b))
    ensures Inv(Do(c, Unlock(b))) && Enabled(Do(c, Unlock(b)), Release(b))
  {
    StepKeeps(c, Unlock(b));
    assert BufOk(c.bufs[b], c.disk);
  }

  // brelse with nobody in between.
  ghost function Released(c: Cache, b: nat): Cache
    requires Inv(c) && Enabled(c, Unlock(b))
  {
    UnlockFacts(c, b);
    Do(Do(c, Unlock(b)), Release(b))
  }

  lemma LookupIs(bufs: seq<Buf>, order: seq<nat>, dev: nat, blockno: nat, k: nat)
    requires forall i :: 0 <= i < |order| ==> order[i] < |bufs|
    requires k <= |order| && forall i :: 0 <= i < k ==> !Holds(bufs[order[i]], dev, blockno)
    requires k < |order| ==> Holds(bufs[order[k]], dev, blockno)
    ensures k == Lookup(bufs, order, dev, blockno)
  {
  }

  lemma VictimIs(bufs: seq<Buf>, order: seq<nat>, k: nat)
    requires forall i :: 0 <= i < |order| ==> order[i] < |bufs|
    requires k <= |order| && forall i :: k <= i < |order| ==> !Recyclable(bufs[order[i]])
    requires k > 0 ==> Recyclable(bufs[order[k - 1]])
    ensures k == Victim(bufs, order)
  {
  }

  // The neighbours of the k-th place in the list, head included.
  lemma Around(next: Links, prev: Links, n: nat, order: seq<nat>, k: nat)
    requires Ring(next, prev, [n] + order) && k <= |order|
    ensures n < |next| == |prev|
    ensures var at := if k == 0 then n else order[k - 1];
            && at < |next| && (k < |order| ==> order[k] < |next|)
            && next[at] == (if k < |order| then order[k] else n)
            && prev[if k < |order| then order[k] else n] == at
  {
    var r := [n] + order;
    assert r[0] == n;
    LinkFacts(next, prev, r, k);
  }

  lemma CutOut(order: seq<nat>, order': seq<nat>, k: nat)
    requires k < |order| && (forall i, j :: 0 <= i < j < |order| ==> order[i] != order[j])
    requires order' == order[..k] + order[k + 1..]
    ensures order[k] !in order'
  {
    forall i | 0 <= i < |order'| ensures order'[i] != order[k] {
      assert order'[i] == order[if i < k then i else i + 1];
    }
  }
}
