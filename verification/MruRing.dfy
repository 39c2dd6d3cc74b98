/** The doubly linked list of bio.c, through prev and next, as a sequence of nodes. */
module MruRing {
  type Links = seq<nat>

  function Succ(n: nat, i: nat): nat
    requires i < n
  {
    if i + 1 == n then 0 else i + 1
  }

  // The i-th node and its successor point at each other.
  ghost predicate LinkAt(next: Links, prev: Links, r: seq<nat>, i: nat)
    requires i < |r| && InRange(next, prev, r)
  {
    next[r[i]] == r[Succ(|r|, i)] && prev[r[Succ(|r|, i)]] == r[i]
  }

  ghost predicate InRange(next: Links, prev: Links, r: seq<nat>) {
    |next| == |prev| && forall i :: 0 <= i < |r| ==> r[i] < |next|
  }

  ghost predicate Distinct(r: seq<nat>) {
    forall i, j :: 0 <= i < j < |r| ==> r[i] != r[j]
  }

  // prev and next form one ring over the nodes of r, in that order.
  ghost predicate Ring(next: Links, prev: Links, r: seq<nat>) {
    InRange(next, prev, r) && Distinct(r) && forall i :: 0 <= i < |r| ==> LinkAt(next, prev, r, i)
  }

  // b->next->prev = b->prev; b->prev->next = b->next
  function UnlinkNext(next: Links, prev: Links, b: nat): Links
    requires b < |next| == |prev| && prev[b] < |next|
  {
    next[prev[b] := next[b]]
  }

  function UnlinkPrev(next: Links, prev: Links, b: nat): Links
    requires b < |next| == |prev| && next[b] < |prev|
  {
    prev[next[b] := prev[b]]
  }

  function Cut(r: seq<nat>, k: nat): seq<nat>
    requires k < |r|
  {
    r[..k] + r[k + 1..]
  }

  lemma CutAt(r: seq<nat>, k: nat, i: nat)
    requires k < |r| && i < |r| - 1
    ensures Cut(r, k)[i] == if i < k then r[i] else r[i + 1]
  {
  }

  lemma Unlink(next: Links, prev: Links, r: seq<nat>, k: nat)
    requires Ring(next, prev, r) && 1 <= k < |r|
    ensures next[r[k]] < |next| && prev[r[k]] < |next|
    ensures Ring(UnlinkNext(next, prev, r[k]), UnlinkPrev(next, prev, r[k]), Cut(r, k))
  {
    assert LinkAt(next, prev, r, k) && LinkAt(next, prev, r, k - 1);
    var next', prev', r' := UnlinkNext(next, prev, r[k]), UnlinkPrev(next, prev, r[k]), Cut(r, k);
    forall i | 0 <= i < |r'| ensures r'[i] == if i < k then r[i] else r[i + 1] {
      CutAt(r, k, i);
    }
    forall i | 0 <= i < |r'| ensures LinkAt(next', prev', r', i) {
      assert LinkAt(next, prev, r, if i < k then i else i + 1);
      CutAt(r, k, i);
      CutAt(r, k, Succ(|r'|, i));
    }
  }

  // b->next = head.next; b->prev = &head; head.next->prev = b; head.next = b
  function PushNext(next: Links, head: nat, b: nat): Links
    requires head < |next| && b < |next|
  {
    next[b := next[head]][head := b]
  }

  function PushPrev(next: Links, prev: Links, head: nat, b: nat): Links
    requires head < |next| == |prev| && b < |next| && next[head] < |next|
  {
    prev[b := head][next[head] := b]
  }

  function Front(r: seq<nat>, b: nat): seq<nat>
    requires |r| > 0
  {
    [r[0], b] + r[1..]
  }

  lemma FrontAt(r: seq<nat>, b: nat, i: nat)
    requires |r| > 0 && i <= |r|
    ensures Front(r, b)[i] == if i == 0 then r[0] else if i == 1 then b else r[i - 1]
  {
  }

  lemma Push(next: Links, prev: Links, r: seq<nat>, b: nat)
    requires Ring(next, prev, r) && |r| > 0 && b < |next| && b !in r
    ensures next[r[0]] < |next|
    ensures Ring(PushNext(next, r[0], b), PushPrev(next, prev, r[0], b), Front(r, b))
  {
    assert LinkAt(next, prev, r, 0);
    var next', prev', r' := PushNext(next, r[0], b), PushPrev(next, prev, r[0], b), Front(r, b);
    forall i | 0 <= i < |r'| ensures r'[i] == if i == 0 then r[0] else if i == 1 then b else r[i - 1] {
      FrontAt(r, b, i);
    }
    forall i | 0 <= i < |r'| ensures LinkAt(next', prev', r', i) {
      assert LinkAt(next, prev, r, if i == 0 then 0 else i - 1);
      FrontAt(r, b, i);
      FrontAt(r, b, Succ(|r'|, i));
    }
  }

  lemma LinkFacts(next: Links, prev: Links, r: seq<nat>, i: nat)
    requires Ring(next, prev, r) && i < |r|
    ensures next[r[i]] == r[Succ(|r|, i)] && prev[r[Succ(|r|, i)]] == r[i]
  {
    assert LinkAt(next, prev, r, i);
  }
}
