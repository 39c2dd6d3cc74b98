/** The copying loops of pipe.c, each run with the pipe's lock held, up to the next sleep or the end. */
module PipeCode {
  import opened PipeRing
  import opened PipeProtocol
  import opened PipeAccount

  // The ring after bs went in, and after n bytes came out.
  function PutAll(r: Ring, bs: seq<Byte>): (r': Ring)
    requires |r.data| == PIPESIZE
    ensures |r'.data| == PIPESIZE
    decreases |bs|
  {
    if bs == [] then r else Put(PutAll(r, bs[..|bs| - 1]), bs[|bs| - 1])
  }

  function DropAll(r: Ring, n: nat): (r': Ring)
    ensures r'.data == r.data
  {
    if n == 0 then r else Drop(DropAll(r, n - 1))
  }

  function Min(a: int, b: int): int {
    if a < b then a else b
  }

  class PipeBuffer {
    const data: array<Byte>
    var nread: nat
    var nwrite: nat
    var readopen: bool
    var writeopen: bool
    // Everything ever appended, and everything ever read.
    ghost var written: seq<Byte>
    ghost var taken: seq<Byte>

    ghost function R(): Ring
      reads this, data
    {
      Ring(data[..], nread, nwrite)
    }

    ghost predicate Valid()
      reads this, data
    {
      Holds(R(), written, taken)
    }

    // pipealloc
    constructor ()
      ensures Valid() && fresh(data) && readopen && writeopen && written == [] && taken == []
    {
      data := new Byte[PIPESIZE];
      nread, nwrite := 0, 0;
      readopen, writeopen := true, true;
      written, taken := [], [];
    }

    // pipewrite's loop from byte i until everything is in or the pipe is full.
    method Fill(addr: seq<Byte>, i: nat) returns (j: nat)
      requires Valid() && i <= |addr|
      modifies this`nwrite, this`written, data
      ensures Valid()
      ensures j == Min(|addr|, i + PIPESIZE - (|old(written)| - |taken|)) && i <= j
      ensures written == old(written) + addr[i..j]
      ensures j < |addr| ==> Full(R())
      ensures |old(R()).data| == PIPESIZE && R() == PutAll(old(R()), addr[i..j])
    {
      ghost var before, start := written, R();
      j := i;
      TestsAreExact(R(), written, taken);
      while j < |addr| && nwrite != (nread + PIPESIZE) % UINT
        invariant Valid() && i <= j <= |addr|
        invariant |written| == |before| + (j - i)
        invariant written == before + addr[i..j]
        invariant |start.data| == PIPESIZE && R() == PutAll(start, addr[i..j])
      {
        PutHolds(R(), written, taken, addr[j]);
        ghost var next := Put(R(), addr[j]);
        assert addr[i..j + 1] == addr[i..j] + [addr[j]];
        assert nwrite % PIPESIZE < data.Length;
        data[nwrite % PIPESIZE] := addr[j];
        nwrite := (nwrite + 1) % UINT;
        assert R() == next;
        written := written + [addr[j]];
        j := j + 1;
      }
      TestsAreExact(R(), written, taken);
    }

    // piperead's copying loop: the oldest bytes, as many as there are and are wanted.
    method Drain(addr: array<Byte>, n: nat) returns (i: nat)
      requires Valid() && n <= addr.Length && addr != data
      modifies this`nread, this`taken, addr
      ensures Valid()
      ensures i == Min(n, |written| - |old(taken)|)
      ensures taken == old(taken) + addr[..i]
      ensures addr[..i] == written[|old(taken)|..|old(taken)| + i]
      ensures addr[i..] == old(addr[i..])
      ensures R() == DropAll(old(R()), i)
    {
      ghost var before, start := taken, R();
      i := 0;
      TestsAreExact(R(), written, taken);
      while i < n && nread != nwrite
        invariant Valid() && 0 <= i <= n
        invariant taken == before + addr[..i]
        invariant addr[i..] == old(addr[..])[i..]
        invariant R() == DropAll(start, i)
      {
        TakeHolds(R(), written, taken);
        ghost var r := R();
        ghost var sofar := addr[..i];
        addr[i] := data[nread % PIPESIZE];
        assert addr[..i + 1] == sofar + [Head(r)];
        nread := (nread + 1) % UINT;
        taken := taken + [Head(r)];
        i := i + 1;
        assert R() == Drop(r);
      }
      TestsAreExact(R(), written, taken);
      assert addr[..i] == taken[|before|..];
    }

    // pipeclose: the page is given back with the second end.
    method Close(writable: bool) returns (freed: bool)
      modifies this`readopen, this`writeopen
      ensures writeopen == (old(writeopen) && !writable) && readopen == (old(readopen) && writable)
      ensures freed <==> !readopen && !writeopen
    {
      if writable {
        writeopen := false;
      } else {
        readopen := false;
      }
      freed := !readopen && !writeopen;
    }
  }

  // ---- the loops are the steps of the protocol ----

  function Acts(t: nat, k: nat): seq<Step> {
    seq(k, _ => Act(t))
  }

  lemma RunFirst(s: Pipe, t: nat, k: nat)
    requires k > 0 && CanAct(s, t) && Run(DoAct(s, t), Acts(t, k - 1))
    ensures Run(s, Acts(t, k)) && Exec(s, Acts(t, k)) == Exec(DoAct(s, t), Acts(t, k - 1))
  {
    hide DoAct, CanAct;
    assert Acts(t, k)[0] == Act(t) && Acts(t, k)[1..] == Acts(t, k - 1);
  }

  function Written(s: Pipe, t: nat, k: nat): Pipe
    requires |s.ring.data| == PIPESIZE && t < |s.threads| && s.threads[t].call.Write?
    requires s.threads[t].i + k <= |s.threads[t].call.buf|
  {
    var th := s.threads[t];
    var bs := th.call.buf[th.i..th.i + k];
    Set(s, t, th.(i := th.i + k)).(ring := PutAll(s.ring, bs), written := s.written + bs)
  }

  lemma WrittenFirst(s: Pipe, s': Pipe, t: nat, k: nat)
    requires |s.ring.data| == PIPESIZE && t < |s.threads| && s.threads[t].call.Write?
    requires k > 0 && s.threads[t].i + k <= |s.threads[t].call.buf|
    requires var th := s.threads[t]; var c := th.call.buf[th.i];
             s' == Set(s, t, th.(i := th.i + 1)).(ring := Put(s.ring, c), written := s.written + [c])
    ensures |s'.ring.data| == PIPESIZE && Written(s', t, k - 1) == Written(s, t, k)
  {
    var th := s.threads[t];
    var c, rest := th.call.buf[th.i], th.call.buf[th.i + 1..th.i + k];
    assert th.call.buf[th.i..th.i + k] == [c] + rest;
    PutFirst(s.ring, c, rest);
    hide PutAll, Put;
    assert s.written + [c] + rest == s.written + ([c] + rest);
  }

  // Fill is a writer's steps in its loop, up to where it stops.
  lemma {:induction false} FillIsSteps(s: Pipe, t: nat, k: nat)
    requires Holds(s.ring, s.written, s.taken) && t < |s.threads| && s.threads[t].at.Loop? && s.threads[t].call.Write?
    requires s.threads[t].i + k <= |s.threads[t].call.buf| && k <= PIPESIZE - (|s.written| - |s.taken|)
    ensures Run(s, Acts(t, k)) && |s.ring.data| == PIPESIZE && Exec(s, Acts(t, k)) == Written(s, t, k)
    decreases k
  {
    Sizes(s.ring, s.written, s.taken);
    var th := s.threads[t];
    if k > 0 {
      TestsAreExact(s.ring, s.written, s.taken);
      PutHolds(s.ring, s.written, s.taken, th.call.buf[th.i]);
      PutAct(s, t);
      hide Holds, DoAct, Put, Full, Empty, Written, Run, Exec, Acts;
      WrittenFirst(s, DoAct(s, t), t, k);
      FillIsSteps(DoAct(s, t), t, k - 1);
      RunFirst(s, t, k);
    } else {
      assert s.threads[t := th] == s.threads && s.written + [] == s.written;
    }
  }

  lemma Sizes(r: Ring, written: seq<Byte>, taken: seq<Byte>)
    requires Holds(r, written, taken)
    ensures |r.data| == PIPESIZE && |taken| <= |written|
  {
  }

  lemma {:induction false} PutFirst(r: Ring, c: Byte, bs: seq<Byte>)
    requires |r.data| == PIPESIZE
    ensures PutAll(Put(r, c), bs) == PutAll(r, [c] + bs)
    decreases |bs|
  {
    if bs == [] {
      assert [c] + bs == [c];
    } else {
      var k := |bs| - 1;
      PutFirst(r, c, bs[..k]);
      assert ([c] + bs)[..|bs|] == [c] + bs[..k];
    }
  }

  function TakenOut(s: Pipe, t: nat, k: nat): Pipe
    requires t < |s.threads| && |s.taken| + k <= |s.written|
  {
    var th := s.threads[t];
    Set(s, t, th.(i := th.i + k)).(
      ring := DropAll(s.ring, k), taken := s.taken + s.written[|s.taken|..|s.taken| + k])
  }

  lemma TakenFirst(s: Pipe, s': Pipe, t: nat, k: nat)
    requires t < |s.threads| && k > 0 && |s.taken| + k <= |s.written|
    requires var th := s.threads[t];
             s' == Set(s, t, th.(i := th.i + 1)).(ring := Drop(s.ring), taken := s.taken + [s.written[|s.taken|]])
    ensures TakenOut(s', t, k - 1) == TakenOut(s, t, k)
  {
    DropFirst(s.ring, k - 1);
    hide DropAll, Drop;
    var n := |s.taken|;
    assert s.taken + [s.written[n]] + s.written[n + 1..n + k] == s.taken + s.written[n..n + k];
  }

  // Drain is a reader's steps in its copying loop.
  lemma {:induction false} DrainIsSteps(s: Pipe, t: nat, k: nat)
    requires Holds(s.ring, s.written, s.taken) && t < |s.threads| && s.threads[t].at.Copy? && s.threads[t].call.Read?
    requires s.threads[t].i + k <= s.threads[t].call.n && k <= |s.written| - |s.taken|
    ensures Run(s, Acts(t, k)) && Exec(s, Acts(t, k)) == TakenOut(s, t, k)
    decreases k
  {
    Sizes(s.ring, s.written, s.taken);
    if k > 0 {
      TestsAreExact(s.ring, s.written, s.taken);
      TakeHolds(s.ring, s.written, s.taken);
      TakeAct(s, t);
      hide Holds, DoAct, Drop, Head, Full, Empty, TakenOut, Run, Exec, Acts;
      TakenFirst(s, DoAct(s, t), t, k);
      DrainIsSteps(DoAct(s, t), t, k - 1);
      RunFirst(s, t, k);
    } else {
      assert s.threads[t := s.threads[t]] == s.threads && s.taken + s.written[|s.taken|..|s.taken|] == s.taken;
    }
  }

  lemma {:induction false} DropFirst(r: Ring, n: nat)
    ensures DropAll(Drop(r), n) == DropAll(r, n + 1)
  {
    if n > 0 {
      DropFirst(r, n - 1);
    }
  }
}
