/** The ring buffer of a pipe: unsigned 32-bit counters that wrap, indexing 512 bytes. */
module PipeRing {
  type Byte = b: int | 0 <= b < 256

  const PIPESIZE: nat := 512
  const UINT: nat := 0x1_0000_0000

  datatype Ring = Ring(data: seq<Byte>, nread: nat, nwrite: nat)

  predicate Empty(r: Ring) {
    r.nread == r.nwrite
  }

  predicate Full(r: Ring) {
    r.nwrite == (r.nread + PIPESIZE) % UINT
  }

  function Put(r: Ring, b: Byte): Ring
    requires |r.data| == PIPESIZE
  {
    Ring(r.data[r.nwrite % PIPESIZE := b], r.nread, (r.nwrite + 1) % UINT)
  }

  function Head(r: Ring): Byte
    requires |r.data| == PIPESIZE
  {
    r.data[r.nread % PIPESIZE]
  }

  function Drop(r: Ring): Ring {
    Ring(r.data, (r.nread + 1) % UINT, r.nwrite)
  }

  // The ring after all of written went in and all of taken came out.
  ghost predicate Holds(r: Ring, written: seq<Byte>, taken: seq<Byte>) {
    && |r.data| == PIPESIZE
    && taken <= written && |written| - |taken| <= PIPESIZE
    && r.nread == |taken| % UINT && r.nwrite == |written| % UINT
    && (forall k: nat :: |taken| <= k < |written| ==> SlotAt(r, written, k))
  }

  predicate SlotAt(r: Ring, written: seq<Byte>, k: nat)
    requires |r.data| == PIPESIZE && k < |written|
  {
    r.data[k % PIPESIZE] == written[k]
  }

  lemma Wrapped(a: nat)
    ensures a % UINT % PIPESIZE == a % PIPESIZE && (a % UINT + 1) % UINT == (a + 1) % UINT
  {
  }

  lemma SlotsApart(a: nat, k: nat)
    requires k < a < k + PIPESIZE
    ensures k % PIPESIZE != a % PIPESIZE
  {
  }

  // The 32-bit tests decide emptiness and fullness exactly, whatever has wrapped.
  lemma TestsAreExact(r: Ring, written: seq<Byte>, taken: seq<Byte>)
    requires Holds(r, written, taken)
    ensures Empty(r) <==> |written| == |taken|
    ensures Full(r) <==> |written| == |taken| + PIPESIZE
    ensures !(Empty(r) && Full(r))
  {
  }

  lemma PutHolds(r: Ring, written: seq<Byte>, taken: seq<Byte>, b: Byte)
    requires Holds(r, written, taken) && !Full(r)
    ensures Holds(Put(r, b), written + [b], taken)
  {
    TestsAreExact(r, written, taken);
    var r', written' := Put(r, b), written + [b];
    Wrapped(|written|);
    forall k: nat | |taken| <= k < |written'| ensures SlotAt(r', written', k) {
      if k < |written| {
        assert SlotAt(r, written, k);
        SlotsApart(|written|, k);
      }
    }
  }

  // The byte taken is the next one written.
  lemma TakeHolds(r: Ring, written: seq<Byte>, taken: seq<Byte>)
    requires Holds(r, written, taken) && !Empty(r)
    ensures |taken| < |written| && Head(r) == written[|taken|]
    ensures Holds(Drop(r), written, taken + [Head(r)])
  {
    TestsAreExact(r, written, taken);
    Wrapped(|taken|);
    assert SlotAt(r, written, |taken|);
    forall k: nat | |taken| + 1 <= k < |written| ensures SlotAt(Drop(r), written, k) {
      assert SlotAt(r, written, k);
    }
  }
}
