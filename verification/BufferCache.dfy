/** The buffer cache of bio.c as a set of buffers kept in order of use, and every interleaving of
    its critical sections. Sleep-locks are exclusive ownership. */
module BufferCache {
  import opened Blocks

  // struct buf; waiting counts the processes between bget and acquiresleep, leaving those between
  // releasesleep and the rest of brelse.
  datatype Buf = Buf(dev: nat, blockno: nat, valid: bool, dirty: bool, refcnt: nat, waiting: nat, leaving: nat,
                     locked: bool, data: Block)

  // The buffers, the disk (device 1), and the list of the buffers.
  datatype Cache = Cache(bufs: seq<Buf>, disk: seq<Block>, order: seq<nat>)

  const DISK: nat := 1

  datatype Step =
    | Get(dev: nat, blockno: nat)        // bget up to release(&bcache.lock)
    | Lock(b: nat)                       // acquiresleep
    | Fill(b: nat)                       // bread's iderw
    | Modify(b: nat, data: Block)        // the client
    | Pin(b: nat)                        // log_write
    | Flush(b: nat)                      // bwrite
    | Unlock(b: nat)                     // brelse's releasesleep
    | Release(b: nat)                    // the rest of brelse

  // ---- the operations ----

  predicate Holds(buf: Buf, dev: nat, blockno: nat) {
    buf.dev == dev && buf.blockno == blockno
  }

  // An unused buffer; a dirty one is in use by log.c.
  predicate Recyclable(buf: Buf) {
    buf.refcnt == 0 && !buf.dirty
  }

  // The first buffer that holds the block, in order of use; |order| if there is none.
  function Lookup(bufs: seq<Buf>, order: seq<nat>, dev: nat, blockno: nat): (i: nat)
    requires forall k :: 0 <= k < |order| ==> order[k] < |bufs|
    ensures i <= |order|
    ensures forall k :: 0 <= k < i ==> !Holds(bufs[order[k]], dev, blockno)
    ensures i < |order| ==> Holds(bufs[order[i]], dev, blockno)
  {
    if order == [] then 0
    else if Holds(bufs[order[0]], dev, blockno) then 0
    else 1 + Lookup(bufs, order[1..], dev, blockno)
  }

  // The last recyclable buffer in order of use; none if the result is 0, else its place plus one.
  function Victim(bufs: seq<Buf>, order: seq<nat>): (i: nat)
    requires forall k :: 0 <= k < |order| ==> order[k] < |bufs|
    ensures i <= |order|
    ensures forall k :: i <= k < |order| ==> !Recyclable(bufs[order[k]])
    ensures i > 0 ==> Recyclable(bufs[order[i - 1]])
  {
    if order == [] then 0
    else
      var last := |order| - 1;
      if Recyclable(bufs[order[last]]) then last + 1 else Victim(bufs, order[..last])
  }

  function Remove(s: seq<nat>, b: nat): seq<nat> {
    if s == [] then [] else if s[0] == b then s[1..] else [s[0]] + Remove(s[1..], b)
  }

  function SetBuf(c: Cache, b: nat, buf: Buf): Cache
    requires b < |c.bufs|
  {
    c.(bufs := c.bufs[b := buf])
  }

  ghost predicate Shape(c: Cache) {
    && |c.order| == |c.bufs|
    && (forall k :: 0 <= k < |c.order| ==> c.order[k] < |c.bufs|)
    && (forall j, k :: 0 <= j < k < |c.order| ==> c.order[j] != c.order[k])
    && (forall b :: 0 <= b < |c.bufs| ==> b in c.order)
  }

  function DoGet(c: Cache, dev: nat, blockno: nat): Cache
    requires Shape(c)
  {
    var i := Lookup(c.bufs, c.order, dev, blockno);
    if i < |c.order| then
      var b := c.order[i];
      SetBuf(c, b, c.bufs[b].(refcnt := c.bufs[b].refcnt + 1, waiting := c.bufs[b].waiting + 1))
    else
      var v := Victim(c.bufs, c.order);
      if v == 0 then c else
      var b := c.order[v - 1];
      SetBuf(c, b, Buf(dev, blockno, false, false, 1, 1, 0, false, c.bufs[b].data))
  }

  // A process more wants the buffer b, which holds the block: the one that held it before, or else an
  // unused one after which the list has no other.
  ghost predicate Gets(c: Cache, c': Cache, dev: nat, blockno: nat, b: nat)
    requires Shape(c)
  {
    && b < |c.bufs| && c'.disk == c.disk && c'.order == c.order && |c'.bufs| == |c.bufs|
    && (forall a :: 0 <= a < |c.bufs| && a != b ==> c'.bufs[a] == c.bufs[a])
    && if exists a :: 0 <= a < |c.bufs| && Holds(c.bufs[a], dev, blockno)
       then Holds(c.bufs[b], dev, blockno) && OneMore(c.bufs[b], c'.bufs[b])
       else Recyclable(c.bufs[b]) && NoneAfter(c, b) && NewFor(c'.bufs[b], dev, blockno)
  }

  predicate OneMore(buf: Buf, buf': Buf) {
    buf' == buf.(refcnt := buf.refcnt + 1, waiting := buf.waiting + 1)
  }

  ghost predicate NoneAfter(c: Cache, b: nat)
    requires Shape(c)
  {
    forall j, k :: 0 <= j < k < |c.order| && c.order[j] == b ==> !Recyclable(c.bufs[c.order[k]])
  }

  // Nothing of the old block is left to be read: the buffer has to be filled first.
  predicate NewFor(buf: Buf, dev: nat, blockno: nat) {
    && Holds(buf, dev, blockno) && !buf.valid && !buf.dirty && !buf.locked
    && buf.refcnt == 1 && buf.waiting == 1 && buf.leaving == 0
  }

  predicate CanGet(c: Cache, dev: nat, blockno: nat)
    requires Shape(c)
  {
    Lookup(c.bufs, c.order, dev, blockno) < |c.order| || Victim(c.bufs, c.order) > 0
  }

  function Unlocked(buf: Buf): Buf {
    buf.(locked := false, leaving := buf.leaving + 1)
  }

  function Left(buf: Buf): Buf
    requires buf.refcnt >= 1 && buf.leaving >= 1
  {
    buf.(refcnt := buf.refcnt - 1, leaving := buf.leaving - 1)
  }

  function DoRelease(c: Cache, b: nat): Cache
    requires b < |c.bufs| && c.bufs[b].refcnt >= 1 && c.bufs[b].leaving >= 1
  {
    var buf := Left(c.bufs[b]);
    var c' := SetBuf(c, b, buf);
    if buf.refcnt == 0 then
      c'.(order := [b] + Remove(c.order, b))
    else c'
  }

  predicate OnDisk(c: Cache, buf: Buf) {
    buf.dev == DISK && buf.blockno < |c.disk|
  }

  // A client calls bread for blocks of the disk, touches a buffer only while it holds it, and
  // logs or writes what it modified before it releases the buffer.
  predicate Enabled(c: Cache, st: Step)
    requires Shape(c)
  {
    match st
    case Get(dev, blockno) => dev == DISK && blockno < |c.disk| && CanGet(c, dev, blockno)
    case Lock(b) => b < |c.bufs| && c.bufs[b].waiting >= 1 && !c.bufs[b].locked
    case Fill(b) => b < |c.bufs| && c.bufs[b].locked && !c.bufs[b].valid && OnDisk(c, c.bufs[b])
    case Modify(b, _) => b < |c.bufs| && c.bufs[b].locked && c.bufs[b].valid && OnDisk(c, c.bufs[b])
    case Pin(b) => b < |c.bufs| && c.bufs[b].locked && c.bufs[b].valid && OnDisk(c, c.bufs[b])
    case Flush(b) => b < |c.bufs| && c.bufs[b].locked && c.bufs[b].valid && OnDisk(c, c.bufs[b])
    case Release(b) => b < |c.bufs| && c.bufs[b].refcnt >= 1 && c.bufs[b].leaving >= 1
    case Unlock(b) =>
      && b < |c.bufs| && c.bufs[b].locked
      && (c.bufs[b].valid && OnDisk(c, c.bufs[b]) ==> c.bufs[b].dirty || c.bufs[b].data == c.disk[c.bufs[b].blockno])
  }

  function Do(c: Cache, st: Step): Cache
    requires Shape(c) && Enabled(c, st)
  {
    match st
    case Get(dev, blockno) => DoGet(c, dev, blockno)
    case Lock(b) => SetBuf(c, b, c.bufs[b].(locked := true, waiting := c.bufs[b].waiting - 1))
    case Fill(b) => SetBuf(c, b, c.bufs[b].(valid := true, data := c.disk[c.bufs[b].blockno]))
    case Modify(b, data) => SetBuf(c, b, c.bufs[b].(data := data))
    case Pin(b) => SetBuf(c, b, c.bufs[b].(dirty := true))
    case Flush(b) =>
      SetBuf(c.(disk := c.disk[c.bufs[b].blockno := c.bufs[b].data]), b, c.bufs[b].(dirty := false, valid := true))
    case Unlock(b) => SetBuf(c, b, Unlocked(c.bufs[b]))
    case Release(b) => DoRelease(c, b)
  }

  // ---- the invariant ----

  // For real devices no two buffers hold the same block. Device 0 is excepted: binit leaves
  // every buffer at block 0 of device 0.
  ghost predicate Unique(bufs: seq<Buf>) {
    forall a, b :: 0 <= a < |bufs| && 0 <= b < |bufs| && a != b && bufs[a].dev != 0 ==>
      !Holds(bufs[b], bufs[a].dev, bufs[a].blockno)
  }

  ghost predicate BufOk(buf: Buf, disk: seq<Block>) {
    && buf.refcnt == buf.waiting + buf.leaving + (if buf.locked then 1 else 0)
    && (buf.dirty ==> buf.valid)
    && (buf.valid ==> buf.dev == DISK && buf.blockno < |disk|)
    // a buffer nobody holds agrees with the disk, unless the log has it pinned
    && (buf.valid && !buf.locked && !buf.dirty ==> buf.data == disk[buf.blockno])
  }

  ghost predicate Inv(c: Cache) {
    && Shape(c)
    && Unique(c.bufs)
    && (forall b :: 0 <= b < |c.bufs| ==> BufOk(c.bufs[b], c.disk))
  }

  // What a reader of block n sees: the cached data if the block is cached, else the disk.
  ghost function Contents(c: Cache, n: nat): Block
    requires n < |c.disk|
  {
    if exists b :: 0 <= b < |c.bufs| && Caches(c.bufs[b], n)
    then var b :| 0 <= b < |c.bufs| && Caches(c.bufs[b], n); c.bufs[b].data
    else c.disk[n]
  }

  predicate Caches(buf: Buf, n: nat) {
    Holds(buf, DISK, n) && buf.valid
  }

  // ---- lemmas ----

  lemma ContentsCached(c: Cache, b: nat, n: nat)
    requires Unique(c.bufs) && n < |c.disk| && b < |c.bufs| && Caches(c.bufs[b], n)
    ensures Contents(c, n) == c.bufs[b].data
  {
  }

  lemma ContentsUncached(c: Cache, n: nat)
    requires n < |c.disk| && forall b :: 0 <= b < |c.bufs| ==> !Caches(c.bufs[b], n)
    ensures Contents(c, n) == c.disk[n]
  {
  }

  // Changing one buffer leaves the contents of a block alone if that buffer does not cache the
  // block before or after, or caches it with the same data.
  lemma ContentsFrame(c: Cache, c': Cache, b: nat, n: nat)
    requires Unique(c.bufs) && Unique(c'.bufs) && n < |c.disk| == |c'.disk| && |c'.bufs| == |c.bufs|
    requires b < |c.bufs| && forall a :: 0 <= a < |c.bufs| && a != b ==> c'.bufs[a] == c.bufs[a]
    requires c'.disk[n] == c.disk[n] || Caches(c'.bufs[b], n)
    requires Caches(c'.bufs[b], n) ==> c'.bufs[b].data == Contents(c, n)
    requires Caches(c.bufs[b], n) && !Caches(c'.bufs[b], n) ==> c'.disk[n] == c.bufs[b].data
    ensures Contents(c', n) == Contents(c, n)
  {
    if Caches(c'.bufs[b], n) {
      ContentsCached(c', b, n);
    } else if Caches(c.bufs[b], n) {
      ContentsCached(c, b, n);
      forall a | 0 <= a < |c'.bufs| ensures !Caches(c'.bufs[a], n) {
        assert a != b ==> c'.bufs[a] == c.bufs[a];
      }
      ContentsUncached(c', n);
    } else if a :| 0 <= a < |c.bufs| && Caches(c.bufs[a], n) {
      assert c'.bufs[a] == c.bufs[a];
      ContentsCached(c, a, n);
      ContentsCached(c', a, n);
    } else {
      forall a | 0 <= a < |c'.bufs| ensures !Caches(c'.bufs[a], n) {
        assert a != b ==> c'.bufs[a] == c.bufs[a];
      }
      ContentsUncached(c, n);
      ContentsUncached(c', n);
    }
  }

  // ---- every step keeps the invariant ----

  lemma {:induction false} RemoveIs(s: seq<nat>, k: nat)
    requires k < |s| && forall i, j :: 0 <= i < j < |s| ==> s[i] != s[j]
    ensures Remove(s, s[k]) == s[..k] + s[k + 1..]
  {
    if k > 0 {
      assert s[0] != s[k];
      assert s[1..][k - 1] == s[k];
      RemoveIs(s[1..], k - 1);
      assert s[..k] + s[k + 1..] == [s[0]] + (s[1..][..k - 1] + s[1..][k..]);
    }
  }

  // A step that changes one buffer in place.
  lemma SetBufKeeps(c: Cache, b: nat, buf: Buf)
    requires Inv(c) && b < |c.bufs| && BufOk(buf, c.disk)
    requires buf.dev == c.bufs[b].dev && buf.blockno == c.bufs[b].blockno
    ensures Inv(SetBuf(c, b, buf))
  {
  }

  lemma RecycleKeeps(c: Cache, b: nat, dev: nat, blockno: nat)
    requires Inv(c) && b < |c.bufs|
    requires forall a :: 0 <= a < |c.bufs| ==> !Holds(c.bufs[a], dev, blockno)
    ensures Inv(SetBuf(c, b, Buf(dev, blockno, false, false, 1, 1, 0, false, c.bufs[b].data)))
  {
  }

  lemma NotFound(c: Cache, dev: nat, blockno: nat)
    requires Shape(c) && Lookup(c.bufs, c.order, dev, blockno) == |c.order|
    ensures forall a :: 0 <= a < |c.bufs| ==> !Holds(c.bufs[a], dev, blockno)
  {
    forall a | 0 <= a < |c.bufs| ensures !Holds(c.bufs[a], dev, blockno) {
      assert a in c.order;
    }
  }

  lemma GetKeeps(c: Cache, dev: nat, blockno: nat)
    requires Inv(c) && CanGet(c, dev, blockno)
    ensures Inv(DoGet(c, dev, blockno))
  {
    hide Unique;
    var i := Lookup(c.bufs, c.order, dev, blockno);
    if i < |c.order| {
      var b := c.order[i];
      SetBufKeeps(c, b, c.bufs[b].(refcnt := c.bufs[b].refcnt + 1, waiting := c.bufs[b].waiting + 1));
    } else {
      NotFound(c, dev, blockno);
      RecycleKeeps(c, c.order[Victim(c.bufs, c.order) - 1], dev, blockno);
    }
  }

  lemma DoGetGets(c: Cache, dev: nat, blockno: nat, b: nat)
    requires Inv(c) && CanGet(c, dev, blockno)
    requires var i := Lookup(c.bufs, c.order, dev, blockno);
             b == if i < |c.order| then c.order[i] else c.order[Victim(c.bufs, c.order) - 1]
    ensures Gets(c, DoGet(c, dev, blockno), dev, blockno, b)
  {
    hide Unique, BufOk, Lookup, Victim;
    if Lookup(c.bufs, c.order, dev, blockno) == |c.order| {
      NotFound(c, dev, blockno);
      var v := Victim(c.bufs, c.order) - 1;
      forall j, k | 0 <= j < k < |c.order| && c.order[j] == b ensures !Recyclable(c.bufs[c.order[k]]) {
        assert j == v;
      }
    }
  }

  lemma FlushKeeps(c: Cache, b: nat)
    requires Inv(c) && Enabled(c, Flush(b))
    ensures Inv(Do(c, Flush(b)))
  {
    var c' := Do(c, Flush(b));
    forall a | 0 <= a < |c'.bufs| ensures BufOk(c'.bufs[a], c'.disk) {
      assert a != b ==> !Holds(c.bufs[a], c.bufs[b].dev, c.bufs[b].blockno);
    }
  }

  // Moving the k-th buffer to the front.
  lemma MovedAt(s: seq<nat>, k: nat)
    requires k < |s| && forall i, j :: 0 <= i < j < |s| ==> s[i] != s[j]
    ensures var t := [s[k]] + Remove(s, s[k]);
            && |t| == |s|
            && forall j :: 0 <= j < |t| ==> t[j] == s[if j == 0 then k else if j <= k then j - 1 else j]
  {
    RemoveIs(s, k);
  }

  lemma MovedHasAll(s: seq<nat>, t: seq<nat>, k: nat, a: nat)
    requires k < |s| == |t| && a in s
    requires forall j :: 0 <= j < |t| ==> t[j] == s[if j == 0 then k else if j <= k then j - 1 else j]
    ensures a in t
  {
    var i :| 0 <= i < |s| && s[i] == a;
    assert t[if i == k then 0 else if i < k then i + 1 else i] == a;
  }

  lemma MovedShape(c: Cache, b: nat)
    requires Shape(c) && b < |c.bufs|
    ensures Shape(c.(order := [b] + Remove(c.order, b)))
  {
    hide Remove;
    assert b in c.order;
    var k :| 0 <= k < |c.order| && c.order[k] == b;
    MovedAt(c.order, k);
    forall a | 0 <= a < |c.bufs| ensures a in [b] + Remove(c.order, b) {
      assert a in c.order;
      MovedHasAll(c.order, [b] + Remove(c.order, b), k, a);
    }
  }

  lemma ReleaseKeeps(c: Cache, b: nat)
    requires Inv(c) && Enabled(c, Release(b))
    ensures Inv(Do(c, Release(b)))
  {
    hide Remove, Unique;
    var buf := Left(c.bufs[b]);
    SetBufKeeps(c, b, buf);
    if buf.refcnt == 0 {
      MovedShape(SetBuf(c, b, buf), b);
    }
  }

  lemma StepKeeps(c: Cache, st: Step)
    requires Inv(c) && Enabled(c, st)
    ensures Inv(Do(c, st)) && |Do(c, st).disk| == |c.disk| && |Do(c, st).bufs| == |c.bufs|
  {
    hide Lookup, Victim, Unique;
    match st
    case Get(dev, blockno) => GetKeeps(c, dev, blockno);
    case Lock(b) => SetBufKeeps(c, b, c.bufs[b].(locked := true, waiting := c.bufs[b].waiting - 1));
    case Fill(b) => SetBufKeeps(c, b, c.bufs[b].(valid := true, data := c.disk[c.bufs[b].blockno]));
    case Modify(b, data) => SetBufKeeps(c, b, c.bufs[b].(data := data));
    case Pin(b) => SetBufKeeps(c, b, c.bufs[b].(dirty := true));
    case Flush(b) => FlushKeeps(c, b);
    case Unlock(b) => SetBufKeeps(c, b, Unlocked(c.bufs[b]));
    case Release(b) => ReleaseKeeps(c, b);
  }

  // ---- what the steps do to the contents ----

  // Recycling evicts only a block that the disk holds too.
  lemma GetContents(c: Cache, dev: nat, blockno: nat, n: nat)
    requires Inv(c) && CanGet(c, dev, blockno) && n < |c.disk|
    ensures Contents(DoGet(c, dev, blockno), n) == Contents(c, n)
  {
    GetKeeps(c, dev, blockno);
    var i := Lookup(c.bufs, c.order, dev, blockno);
    var b := if i < |c.order| then c.order[i] else c.order[Victim(c.bufs, c.order) - 1];
    if Caches(c.bufs[b], n) {
      ContentsCached(c, b, n);
      assert i == |c.order| ==> Recyclable(c.bufs[b]);
      assert BufOk(c.bufs[b], c.disk);
    }
    ContentsFrame(c, DoGet(c, dev, blockno), b, n);
  }

  lemma FillContents(c: Cache, b: nat, n: nat)
    requires Inv(c) && Enabled(c, Fill(b)) && n < |c.disk|
    ensures Contents(Do(c, Fill(b)), n) == Contents(c, n)
  {
    var c' := Do(c, Fill(b));
    StepKeeps(c, Fill(b));
    if Holds(c.bufs[b], DISK, n) {
      forall a | 0 <= a < |c.bufs| ensures !Caches(c.bufs[a], n) {
        assert a != b ==> !Holds(c.bufs[a], c.bufs[b].dev, c.bufs[b].blockno);
      }
      ContentsUncached(c, n);
    }
    ContentsFrame(c, c', b, n);
  }

  lemma FlushContents(c: Cache, b: nat, n: nat)
    requires Inv(c) && Enabled(c, Flush(b)) && n < |c.disk|
    ensures Contents(Do(c, Flush(b)), n) == Contents(c, n)
  {
    var c' := Do(c, Flush(b));
    StepKeeps(c, Flush(b));
    if Caches(c.bufs[b], n) {
      ContentsCached(c, b, n);
    }
    ContentsFrame(c, c', b, n);
  }

  lemma ReleaseContents(c: Cache, b: nat, n: nat)
    requires Inv(c) && Enabled(c, Release(b)) && n < |c.disk|
    ensures Contents(Do(c, Release(b)), n) == Contents(c, n)
  {
    var c' := Do(c, Release(b));
    StepKeeps(c, Release(b));
    if Caches(c.bufs[b], n) {
      ContentsCached(c, b, n);
    }
    ContentsFrame(c, c', b, n);
  }

  lemma InPlaceContents(c: Cache, b: nat, buf: Buf, n: nat)
    requires Inv(c) && b < |c.bufs| && Inv(SetBuf(c, b, buf)) && n < |c.disk|
    requires Holds(buf, c.bufs[b].dev, c.bufs[b].blockno) && buf.valid == c.bufs[b].valid && buf.data == c.bufs[b].data
    ensures Contents(SetBuf(c, b, buf), n) == Contents(c, n)
  {
    if Caches(c.bufs[b], n) {
      ContentsCached(c, b, n);
    }
    ContentsFrame(c, SetBuf(c, b, buf), b, n);
  }

  lemma ModifyContents(c: Cache, b: nat, data: Block, n: nat)
    requires Inv(c) && Enabled(c, Modify(b, data)) && n < |c.disk|
    ensures Contents(Do(c, Modify(b, data)), n) == if n == c.bufs[b].blockno then data else Contents(c, n)
  {
    var c' := Do(c, Modify(b, data));
    StepKeeps(c, Modify(b, data));
    if n == c.bufs[b].blockno {
      ContentsCached(c', b, n);
    } else {
      ContentsFrame(c, c', b, n);
    }
  }

  // The cache is transparent: of all steps only a client's own modification changes what
  // readers see, and only for the block it holds.
  lemma StepContents(c: Cache, st: Step, n: nat)
    requires Inv(c) && Enabled(c, st) && n < |c.disk|
    ensures |Do(c, st).disk| == |c.disk|
    ensures Contents(Do(c, st), n)
            == if st.Modify? && n == c.bufs[st.b].blockno then st.data else Contents(c, n)
  {
    StepKeeps(c, st);
    hide Inv, Contents, Lookup, Victim;
    match st
    case Get(dev, blockno) => GetContents(c, dev, blockno, n);
    case Lock(b) => InPlaceContents(c, b, c.bufs[b].(locked := true, waiting := c.bufs[b].waiting - 1), n);
    case Fill(b) => FillContents(c, b, n);
    case Modify(b, data) => ModifyContents(c, b, data, n);
    case Pin(b) => InPlaceContents(c, b, c.bufs[b].(dirty := true), n);
    case Flush(b) => FlushContents(c, b, n);
    case Unlock(b) => InPlaceContents(c, b, Unlocked(c.bufs[b]), n);
    case Release(b) => ReleaseContents(c, b, n);
  }

  lemma GetKeepsInUse(c: Cache, dev: nat, blockno: nat, b: nat)
    requires Inv(c) && CanGet(c, dev, blockno) && b < |c.bufs| && !Recyclable(c.bufs[b])
    ensures var buf, buf' := c.bufs[b], DoGet(c, dev, blockno).bufs[b];
            Holds(buf', buf.dev, buf.blockno) && buf'.valid == buf.valid && buf'.dirty == buf.dirty
              && buf'.data == buf.data
  {
    hide Unique, BufOk;
  }

  // A buffer in use, or pinned by the log, keeps its block through every step.
  lemma InUseKeepsBlock(c: Cache, st: Step, b: nat)
    requires Inv(c) && Enabled(c, st) && b < |c.bufs| && (c.bufs[b].refcnt > 0 || c.bufs[b].dirty)
    ensures |Do(c, st).bufs| == |c.bufs|
    ensures var buf, buf' := c.bufs[b], Do(c, st).bufs[b];
            && Holds(buf', buf.dev, buf.blockno)
            && (buf.valid ==> buf'.valid)
            // only bwrite unpins, and it writes the pinned data to the disk
            && (buf.dirty && !buf'.dirty ==> st == Flush(b) && Do(c, st).disk[buf.blockno] == buf.data)
            // only the holder changes the data
            && (buf.valid && buf'.data != buf.data ==> st.Modify? && st.b == b)
  {
    hide Unique, Remove, DoGet, BufOk;
    StepKeeps(c, st);
    if st.Get? {
      GetKeepsInUse(c, st.dev, st.blockno, b);
    }
  }

  // "no buffers" means just that.
  lemma NoVictim(c: Cache)
    requires Inv(c)
    ensures Victim(c.bufs, c.order) == 0 <==> forall a :: 0 <= a < |c.bufs| ==> !Recyclable(c.bufs[a])
  {
    if Victim(c.bufs, c.order) == 0 {
      forall a | 0 <= a < |c.bufs| ensures !Recyclable(c.bufs[a]) {
        assert a in c.order;
      }
    }
  }

  // ---- all runs ----

  ghost predicate Run(c: Cache, steps: seq<Step>)
    requires Inv(c)
    decreases |steps|
  {
    steps == [] || (Enabled(c, steps[0]) && (StepKeeps(c, steps[0]); Run(Do(c, steps[0]), steps[1..])))
  }

  ghost function Exec(c: Cache, steps: seq<Step>): (c': Cache)
    requires Inv(c) && Run(c, steps)
    ensures Inv(c') && |c'.disk| == |c.disk| && |c'.bufs| == |c.bufs|
    decreases |steps|
  {
    if steps == [] then c else StepKeeps(c, steps[0]); Exec(Do(c, steps[0]), steps[1..])
  }

  // ---- the list is in order of use ----

  // In this step b's reference count drops to zero.
  predicate Idles(c: Cache, st: Step, b: nat)
    requires Shape(c) && Enabled(c, st) && b < |c.bufs| == |Do(c, st).bufs|
  {
    c.bufs[b].refcnt > 0 && Do(c, st).bufs[b].refcnt == 0
  }

  // For each buffer the number of the step, counted from n, in which it last fell idle; before that, last.
  ghost function LastIdle(c: Cache, steps: seq<Step>, last: seq<int>, n: int): (r: seq<int>)
    requires Inv(c) && Run(c, steps) && |last| == |c.bufs|
    ensures |r| == |last|
    decreases |steps|
  {
    if steps == [] then last else
    StepKeeps(c, steps[0]);
    LastIdle(Do(c, steps[0]), steps[1..], Noted(c, steps[0], last, n), n + 1)
  }

  ghost function Noted(c: Cache, st: Step, last: seq<int>, n: int): (r: seq<int>)
    requires Inv(c) && Enabled(c, st) && |last| == |c.bufs|
    ensures |r| == |last|
  {
    StepKeeps(c, st);
    seq(|last|, b requires 0 <= b < |last| => if Idles(c, st, b) then n else last[b])
  }

  ghost predicate ByTime(order: seq<nat>, last: seq<int>, n: int) {
    && (forall k :: 0 <= k < |order| ==> order[k] < |last|)
    && (forall j, k :: 0 <= j < k < |order| ==> last[order[j]] > last[order[k]])
    && (forall b :: 0 <= b < |last| ==> last[b] < n)
  }

  lemma MovedTime(order: seq<nat>, last: seq<int>, n: int, b: nat)
    requires ByTime(order, last, n) && b in order
    ensures b < |last| && ByTime([b] + Remove(order, b), last[b := n], n + 1)
  {
    hide Remove;
    var k :| 0 <= k < |order| && order[k] == b;
    MovedAt(order, k);
  }

  lemma NobodyIdles(c: Cache, st: Step, b: nat)
    requires Inv(c) && Enabled(c, st) && b < |c.bufs|
    ensures |Do(c, st).bufs| == |c.bufs|
    ensures Idles(c, st, b) <==> st == Release(b) && c.bufs[b].refcnt == 1
    ensures !(st.Release? && c.bufs[st.b].refcnt == 1) ==> Do(c, st).order == c.order
  {
    hide Unique, Remove, Lookup, Victim;
    StepKeeps(c, st);
    assert BufOk(c.bufs[b], c.disk);
  }

  lemma StepOrder(c: Cache, st: Step, last: seq<int>, n: int)
    requires Inv(c) && Enabled(c, st) && |last| == |c.bufs| && ByTime(c.order, last, n)
    ensures ByTime(Do(c, st).order, Noted(c, st, last, n), n + 1)
  {
    forall b | 0 <= b < |last|
      ensures Noted(c, st, last, n)[b] == last[b] || (st == Release(b) && c.bufs[b].refcnt == 1)
    {
      NobodyIdles(c, st, b);
    }
    if st.Release? && c.bufs[st.b].refcnt == 1 {
      assert st.b in c.order;
      MovedTime(c.order, last, n, st.b);
      NobodyIdles(c, st, st.b);
      hide Remove, ByTime, Inv;
      assert Noted(c, st, last, n) == last[st.b := n];
    } else {
      assert Noted(c, st, last, n) == last;
      if |c.bufs| > 0 {
        NobodyIdles(c, st, 0);
      }
    }
  }

  // In every run the list goes from the buffer that fell idle last to the one that did so first.
  lemma {:induction false} ListIsByLastUse(c: Cache, steps: seq<Step>, last: seq<int>, n: int)
    requires Inv(c) && Run(c, steps) && |last| == |c.bufs| && ByTime(c.order, last, n)
    ensures ByTime(Exec(c, steps).order, LastIdle(c, steps, last, n), n + |steps|)
    decreases |steps|
  {
    hide Enabled, Do, Noted, ByTime, Unique, BufOk;
    if steps != [] {
      StepKeeps(c, steps[0]);
      StepOrder(c, steps[0], last, n);
      ListIsByLastUse(Do(c, steps[0]), steps[1..], Noted(c, steps[0], last, n), n + 1);
    }
  }

  // So bget recycles, of the buffers that are idle and clean, the one that has been idle longest.
  lemma VictimIsOldest(c: Cache, steps: seq<Step>, last: seq<int>, n: int, a: nat)
    requires Inv(c) && Run(c, steps) && |last| == |c.bufs| && ByTime(c.order, last, n)
    requires a < |c.bufs| && Recyclable(Exec(c, steps).bufs[a])
    ensures var c', idle := Exec(c, steps), LastIdle(c, steps, last, n);
            && Victim(c'.bufs, c'.order) > 0
            && var v := c'.order[Victim(c'.bufs, c'.order) - 1];
               v < |c.bufs| && Recyclable(c'.bufs[v]) && idle[v] <= idle[a]
  {
    hide LastIdle, Exec, Run, Unique, BufOk, Victim, ByTime, Recyclable;
    ListIsByLastUse(c, steps, last, n);
    LastRecyclable(Exec(c, steps), LastIdle(c, steps, last, n), n + |steps|, a);
  }

  lemma LastRecyclable(c: Cache, last: seq<int>, n: int, a: nat)
    requires Shape(c) && ByTime(c.order, last, n) && |last| == |c.bufs| && a < |c.bufs| && Recyclable(c.bufs[a])
    ensures Victim(c.bufs, c.order) > 0
    ensures var v := c.order[Victim(c.bufs, c.order) - 1]; Recyclable(c.bufs[v]) && last[v] <= last[a]
  {
    hide Victim;
    assert a in c.order;
    var k :| 0 <= k < |c.order| && c.order[k] == a;
  }

  // What the modifications in a run leave in block n.
  ghost function LastModified(c: Cache, steps: seq<Step>, n: nat, start: Block): Block
    requires Inv(c) && Run(c, steps)
    decreases |steps|
  {
    if steps == [] then start else
    StepKeeps(c, steps[0]);
    var st := steps[0];
    LastModified(Do(c, st), steps[1..], n,
                 if st.Modify? && n == c.bufs[st.b].blockno then st.data else start)
  }

  // In every run, whatever is cached, recycled or written back along the way, each block reads
  // as the plain disk with the modifications of the run applied in order.
  lemma {:induction false} CacheIsTransparent(c: Cache, steps: seq<Step>, n: nat)
    requires Inv(c) && Run(c, steps) && n < |c.disk|
    ensures Contents(Exec(c, steps), n) == LastModified(c, steps, n, Contents(c, n))
    decreases |steps|
  {
    if steps != [] {
      StepKeeps(c, steps[0]);
      StepContents(c, steps[0], n);
      CacheIsTransparent(Do(c, steps[0]), steps[1..], n);
    }
  }

  // A buffer pinned by log_write holds its block for as long as nobody writes it back.
  lemma {:induction false} PinnedStays(c: Cache, steps: seq<Step>, b: nat)
    requires Inv(c) && Run(c, steps) && b < |c.bufs| && c.bufs[b].dirty && Flush(b) !in steps
    ensures var buf, buf' := c.bufs[b], Exec(c, steps).bufs[b];
            buf'.dirty && buf'.valid && Holds(buf', buf.dev, buf.blockno)
    decreases |steps|
  {
    if steps != [] {
      StepKeeps(c, steps[0]);
      InUseKeepsBlock(c, steps[0], b);
      assert steps[0] in steps;
      PinnedStays(Do(c, steps[0]), steps[1..], b);
    }
  }

  // log_write pins: from then on the buffer keeps its block, whatever else happens, until somebody writes it back.
  lemma PinPins(c: Cache, steps: seq<Step>, b: nat)
    requires Inv(c) && Enabled(c, Pin(b)) && Inv(Do(c, Pin(b))) && Run(Do(c, Pin(b)), steps) && Flush(b) !in steps
    ensures var buf, buf' := c.bufs[b], Exec(Do(c, Pin(b)), steps).bufs[b];
            buf'.dirty && buf'.valid && Holds(buf', buf.dev, buf.blockno)
  {
    PinnedStays(Do(c, Pin(b)), steps, b);
  }

  // What bread returns: a held, valid buffer shows the contents of its block.
  lemma HeldShowsContents(c: Cache, b: nat)
    requires Inv(c) && b < |c.bufs| && c.bufs[b].valid
    ensures c.bufs[b].blockno < |c.disk| && c.bufs[b].data == Contents(c, c.bufs[b].blockno)
  {
    assert BufOk(c.bufs[b], c.disk);
    ContentsCached(c, b, c.bufs[b].blockno);
  }
}
