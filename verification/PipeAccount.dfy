/** What each call on a pipe gets done, in every run: which bytes went into the ring and which came out, by whom.
    The account is kept from the labels of the steps and from what they do to the ring's memory. */
module PipeAccount {
  import opened Options
  import opened PipeRing
  import opened PipeProtocol
  import opened PipeSafety

  // The bytes put and got so far, each with the thread that did it; for each thread how long both were when
  // its last call started, that call, and whether it has been marked killed; and which ends were asked to close.
  datatype Account = Account(puts: seq<(nat, Byte)>, gets: seq<(nat, Byte)>, from: seq<(nat, nat)>,
                             asked: seq<Option<Call>>, marked: seq<bool>, wshut: bool, rshut: bool)

  function Bytes(ps: seq<(nat, Byte)>): seq<Byte> {
    seq(|ps|, k requires 0 <= k < |ps| => ps[k].1)
  }

  // Those of thread t.
  function By(ps: seq<(nat, Byte)>, t: nat): seq<Byte>
    decreases |ps|
  {
    if ps == [] then [] else
    var k := |ps| - 1;
    By(ps[..k], t) + if ps[k].0 == t then [ps[k].1] else []
  }

  // The byte that has appeared in the ring, if one has, and the byte that has left it.
  function Appeared(r: Ring, r': Ring): seq<Byte> {
    if r'.nwrite == r.nwrite || |r'.data| != PIPESIZE then [] else [r'.data[r.nwrite % PIPESIZE]]
  }

  function Gone(r: Ring, r': Ring): seq<Byte> {
    if r'.nread == r.nread || |r.data| != PIPESIZE then [] else [r.data[r.nread % PIPESIZE]]
  }

  function Tag(t: nat, bs: seq<Byte>): seq<(nat, Byte)> {
    seq(|bs|, k requires 0 <= k < |bs| => (t, bs[k]))
  }

  predicate Sized(a: Account, n: nat) {
    |a.from| == |a.asked| == |a.marked| == n
  }

  function Note(a: Account, s: Pipe, st: Step): Account
    requires Enabled(s, st) && Sized(a, |s.threads|)
  {
    match st
    case Start(t, call) =>
      a.(from := a.from[t := (|a.puts|, |a.gets|)], asked := a.asked[t := Some(call)],
         wshut := a.wshut || call == Close(true), rshut := a.rshut || call == Close(false))
    case Act(t) =>
      var r, r' := s.ring, Do(s, st).ring;
      a.(puts := a.puts + Tag(t, Appeared(r, r')), gets := a.gets + Tag(t, Gone(r, r')))
    case Kill(t, mark) => a.(marked := a.marked[t := a.marked[t] || mark])
  }

  function Opening(n: nat): Account {
    Account([], [], seq(n, _ => (0, 0)), seq(n, _ => None), seq(n, _ => false), false, false)
  }

  // ---- what a call has got done ----

  // bs lies somewhere in of, in one piece.
  ghost predicate Slice(bs: seq<Byte>, of: seq<Byte>) {
    exists a, b :: Joined(a, bs, b, of)
  }

  predicate Joined(a: seq<Byte>, bs: seq<Byte>, b: seq<Byte>, of: seq<Byte>) {
    a + bs + b == of
  }

  // A write has put in the first i bytes of its buffer, in order; all of them when it returns.
  predicate WriteServed(th: Thread, outs: seq<Byte>, ins: seq<Byte>)
    requires th.call.Write?
  {
    && ins == [] && th.i <= |th.call.buf| && outs == th.call.buf[..th.i] && (th.at.Entry? ==> th.i == 0)
    && (th.at.WakeEnd? || th.at.Release? ==> outs == th.call.buf)
  }

  // A read has got i bytes that follow one another in the stream. When it returns these are as many as it
  // wanted, or all there were, and none only if nobody can write any more.
  ghost predicate ReadServed(s: Pipe, th: Thread, outs: seq<Byte>, ins: seq<Byte>)
    requires th.call.Read?
  {
    && outs == [] && |ins| == th.i <= th.call.n && Slice(ins, s.taken)
    && (th.at.Copy? || th.at.WakeEnd? || th.at.Release? ==>
          th.i <= |s.taken| && s.taken[|s.taken| - th.i..] == ins)
    && (th.at.Copy? ==> th.i > 0 || !Empty(s.ring) || !s.writeopen)
    && (th.at.WakeEnd? || th.at.Release? ==>
          th.i == th.call.n || (Empty(s.ring) && (th.i > 0 || !s.writeopen)))
    && (!(th.at.Copy? || th.at.WakeEnd? || th.at.Release? || th.at.Out?) ==> th.i == 0)
  }

  // A close has closed its end when it returns.
  predicate CloseServed(s: Pipe, th: Thread, outs: seq<Byte>, ins: seq<Byte>)
    requires th.call.Close?
  {
    && outs == [] && ins == []
    && (th.at.WakeEnd? || th.at.Release? || th.at.Out? ==> if th.call.writable then !s.writeopen else !s.readopen)
  }

  ghost predicate Served(s: Pipe, th: Thread, outs: seq<Byte>, ins: seq<Byte>) {
    match th.call
    case Write(_) => WriteServed(th, outs, ins)
    case Read(_) => ReadServed(s, th, outs, ins)
    case Close(_) => CloseServed(s, th, outs, ins)
  }

  ghost predicate InOrder(a: Account, s: Pipe, t: nat)
    requires Sized(a, |s.threads|) && t < |s.threads|
  {
    var th := s.threads[t];
    && th.killed == a.marked[t]
    && a.from[t].0 <= |a.puts| && a.from[t].1 <= |a.gets|
    && if a.asked[t].None? then th.at.Out?
       else
         && th.call == a.asked[t].value
         && Served(s, th, By(a.puts[a.from[t].0..], t), By(a.gets[a.from[t].1..], t))
  }

  ghost predicate Accounted(a: Account, s: Pipe) {
    && Sized(a, |s.threads|)
    && Bytes(a.puts) == s.written && Bytes(a.gets) == s.taken
    && s.wfd == !a.wshut && s.rfd == !a.rshut
    && (forall t: nat :: t < |s.threads| ==> InOrder(a, s, t))
  }

  // ---- every step keeps the account ----

  lemma TagBytes(ps: seq<(nat, Byte)>, t: nat, bs: seq<Byte>)
    ensures Bytes(ps + Tag(t, bs)) == Bytes(ps) + bs
  {
  }

  lemma ByMore(ps: seq<(nat, Byte)>, f: nat, t: nat, bs: seq<Byte>, u: nat)
    requires f <= |ps| && |bs| <= 1
    ensures By((ps + Tag(t, bs))[f..], u) == By(ps[f..], u) + if u == t then bs else []
  {
    if bs == [] {
      assert (ps + Tag(t, bs))[f..] == ps[f..];
    } else {
      assert (ps + Tag(t, bs))[f..] == ps[f..] + [(t, bs[0])];
      var k := |ps| - f;
      assert (ps[f..] + [(t, bs[0])])[..k] == ps[f..];
    }
  }

  lemma SliceGrows(bs: seq<Byte>, of: seq<Byte>, more: seq<Byte>)
    requires Slice(bs, of)
    ensures Slice(bs, of + more)
  {
    var a, b :| Joined(a, bs, b, of);
    assert Joined(a, bs, b + more, of + more);
  }

  lemma SuffixIsSlice(bs: seq<Byte>, of: seq<Byte>)
    requires |bs| <= |of| && of[|of| - |bs|..] == bs
    ensures Slice(bs, of)
  {
    assert Joined(of[..|of| - |bs|], bs, [], of);
  }

  // What an Act does to the ring is what it says of the stream.
  ghost predicate Moves(s: Pipe, s': Pipe, t: nat) {
    && s'.written == s.written + Appeared(s.ring, s'.ring) && s'.taken == s.taken + Gone(s.ring, s'.ring)
    && s'.wfd == s.wfd && s'.rfd == s.rfd && |s'.threads| == |s.threads|
  }

  lemma PutAppears(r: Ring, written: seq<Byte>, taken: seq<Byte>, c: Byte)
    requires Holds(r, written, taken)
    ensures Appeared(r, Put(r, c)) == [c] && Gone(r, Put(r, c)) == []
  {
  }

  lemma DropIsGone(r: Ring, written: seq<Byte>, taken: seq<Byte>)
    requires Holds(r, written, taken)
    ensures Gone(r, Drop(r)) == [Head(r)] && Appeared(r, Drop(r)) == []
  {
  }

  lemma SameRing(r: Ring)
    ensures Appeared(r, r) == [] && Gone(r, r) == []
  {
  }

  // The two places where bytes move.
  predicate Puts(s: Pipe, t: nat) {
    && t < |s.threads| && s.threads[t].at.Loop? && s.threads[t].call.Write?
    && s.threads[t].i < |s.threads[t].call.buf| && !Full(s.ring)
  }

  predicate Takes(s: Pipe, t: nat) {
    && t < |s.threads| && s.threads[t].at.Copy? && s.threads[t].call.Read?
    && s.threads[t].i < s.threads[t].call.n && !Empty(s.ring)
  }

  predicate Still(s: Pipe, s': Pipe) {
    && s'.ring == s.ring && s'.written == s.written && s'.taken == s.taken
    && s'.wfd == s.wfd && s'.rfd == s.rfd && |s'.threads| == |s.threads|
  }

  lemma QuietLoop(s: Pipe, t: nat)
    requires t < |s.threads| && |s.ring.data| == PIPESIZE
    ensures s.threads[t].at.Loop? && !Puts(s, t) ==> Still(s, InLoop(s, t, s.threads[t]))
    ensures s.threads[t].at.Copy? && s.threads[t].call.Read? && !Takes(s, t) ==> Still(s, CopyLoop(s, t, s.threads[t]))
  {
    hide Full, Empty, Put, Drop, Head;
  }

  lemma QuietAct(s: Pipe, t: nat)
    requires CanAct(s, t) && !Puts(s, t) && !Takes(s, t)
    ensures Still(s, DoAct(s, t))
  {
    QuietLoop(s, t);
    QuietWakeup(s, t);
    assert s.threads[t].at.Copy? ==> s.threads[t].call.Read?;
    hide CanAct, InLoop, CopyLoop, Wakeup, Puts, Takes;
  }

  lemma QuietWakeup(s: Pipe, t: nat)
    requires t < |s.threads|
    ensures Still(s, Wakeup(s, t, s.threads[t], true, Sleep1))
    ensures Still(s, Wakeup(s, t, s.threads[t], WakesReaders(s.threads[t].call), PipeProtocol.Release))
  {
  }

  lemma PutAct(s: Pipe, t: nat)
    requires Holds(s.ring, s.written, s.taken) && CanAct(s, t) && Puts(s, t)
    ensures var s', th := DoAct(s, t), s.threads[t]; var c := th.call.buf[th.i];
            && s' == Set(s, t, th.(i := th.i + 1)).(ring := Put(s.ring, c), written := s.written + [c])
            && Appeared(s.ring, s'.ring) == [c] && Gone(s.ring, s'.ring) == []
  {
    PutAppears(s.ring, s.written, s.taken, s.threads[t].call.buf[s.threads[t].i]);
    hide Holds, Full, Empty, WakeAll, Put, Appeared, Gone;
  }

  lemma TakeAct(s: Pipe, t: nat)
    requires Holds(s.ring, s.written, s.taken) && CanAct(s, t) && Takes(s, t)
    ensures var s', th := DoAct(s, t), s.threads[t];
            && s' == Set(s, t, th.(i := th.i + 1)).(ring := Drop(s.ring), taken := s.taken + [Head(s.ring)])
            && Appeared(s.ring, s'.ring) == [] && Gone(s.ring, s'.ring) == [Head(s.ring)]
  {
    DropIsGone(s.ring, s.written, s.taken);
    hide Holds, Full, Empty, WakeAll, Drop, Head, Appeared, Gone;
  }

  lemma ActMoves(s: Pipe, t: nat)
    requires Holds(s.ring, s.written, s.taken) && CanAct(s, t)
    ensures Moves(s, DoAct(s, t), t)
  {
    hide Holds, CanAct, DoAct, Full, Empty, Put, Drop, Head, Appeared, Gone;
    if Puts(s, t) {
      PutAct(s, t);
    } else if Takes(s, t) {
      TakeAct(s, t);
    } else {
      QuietAct(s, t);
      SameRing(s.ring);
    }
  }

  lemma WriteActs(s: Pipe, t: nat, outs: seq<Byte>, ins: seq<Byte>)
    requires Holds(s.ring, s.written, s.taken) && CanAct(s, t) && ThreadAt(s, t)
    requires s.threads[t].call.Write? && WriteServed(s.threads[t], outs, ins)
    ensures var s' := DoAct(s, t);
            && s'.threads[t].call == s.threads[t].call
            && WriteServed(s'.threads[t], outs + Appeared(s.ring, s'.ring), ins + Gone(s.ring, s'.ring))
  {
    hide Holds, Full, Empty, Put, Appeared, Gone, ThreadAt;
    if Puts(s, t) {
      PutAct(s, t);
      hide DoAct, CanAct;
      var th := s.threads[t];
      assert th.call.buf[..th.i + 1] == outs + [th.call.buf[th.i]];
    } else {
      QuietAct(s, t);
      SameRing(s.ring);
      WriteQuiet(s, t, outs, ins);
      hide DoAct, CanAct, WriteServed;
      assert outs + [] == outs && ins + [] == ins;
    }
  }

  lemma WriteQuiet(s: Pipe, t: nat, outs: seq<Byte>, ins: seq<Byte>)
    requires CanAct(s, t) && !Puts(s, t) && ThreadAt(s, t)
    requires s.threads[t].call.Write? && WriteServed(s.threads[t], outs, ins)
    ensures DoAct(s, t).threads[t].call == s.threads[t].call && WriteServed(DoAct(s, t).threads[t], outs, ins)
  {
    hide Full, Empty, WakeAll, Put;
    assert s.threads[t].call.buf[..|s.threads[t].call.buf|] == s.threads[t].call.buf;
  }

  lemma CloseActs(s: Pipe, t: nat, outs: seq<Byte>, ins: seq<Byte>)
    requires CanAct(s, t) && ThreadAt(s, t) && s.threads[t].call.Close? && CloseServed(s, s.threads[t], outs, ins)
    ensures var s' := DoAct(s, t);
            && s'.threads[t].call == s.threads[t].call
            && CloseServed(s', s'.threads[t], outs + Appeared(s.ring, s'.ring), ins + Gone(s.ring, s'.ring))
  {
    hide Full, Empty, WakeAll;
  }

  lemma ReadActs(s: Pipe, t: nat, outs: seq<Byte>, ins: seq<Byte>)
    requires Holds(s.ring, s.written, s.taken) && CanAct(s, t) && ThreadAt(s, t)
    requires s.threads[t].call.Read? && ReadServed(s, s.threads[t], outs, ins)
    ensures var s' := DoAct(s, t);
            && s'.threads[t].call == s.threads[t].call
            && ReadServed(s', s'.threads[t], outs + Appeared(s.ring, s'.ring), ins + Gone(s.ring, s'.ring))
  {
    hide Holds, Full, Empty, Slice, Appeared, Gone, ThreadAt, Drop, Head;
    if Takes(s, t) {
      TakeAct(s, t);
      hide DoAct, CanAct;
      var s', i, x := DoAct(s, t), s.threads[t].i, Head(s.ring);
      assert s'.taken[|s'.taken| - (i + 1)..] == s.taken[|s.taken| - i..] + [x];
      SuffixIsSlice(ins + [x], s'.taken);
    } else {
      QuietAct(s, t);
      SameRing(s.ring);
      ReadQuiet(s, t, outs, ins);
      hide DoAct, CanAct, ReadServed;
      assert outs + [] == outs && ins + [] == ins;
    }
  }

  lemma ReadQuiet(s: Pipe, t: nat, outs: seq<Byte>, ins: seq<Byte>)
    requires CanAct(s, t) && !Takes(s, t) && ThreadAt(s, t)
    requires s.threads[t].call.Read? && ReadServed(s, s.threads[t], outs, ins)
    ensures var s' := DoAct(s, t);
            s'.threads[t].call == s.threads[t].call && ReadServed(s', s'.threads[t], outs, ins)
  {
    hide Full, Empty, WakeAll, Slice, Drop, Head;
    assert s.taken[|s.taken|..] == [];
  }

  // The thread that acts.
  lemma SelfActs(s: Pipe, t: nat, outs: seq<Byte>, ins: seq<Byte>)
    requires Holds(s.ring, s.written, s.taken) && CanAct(s, t) && ThreadAt(s, t)
    requires Served(s, s.threads[t], outs, ins)
    ensures var s' := DoAct(s, t);
            && s'.threads[t].call == s.threads[t].call
            && Served(s', s'.threads[t], outs + Appeared(s.ring, s'.ring), ins + Gone(s.ring, s'.ring))
  {
    hide Holds, DoAct, WriteServed, ReadServed, CloseServed, ThreadAt, Appeared, Gone;
    match s.threads[t].call
    case Write(_) => WriteActs(s, t, outs, ins);
    case Read(_) => ReadActs(s, t, outs, ins);
    case Close(_) => CloseActs(s, t, outs, ins);
  }

  // Everybody else: t has the lock whenever it moves bytes or closes an end.
  lemma OtherStays(s: Pipe, s': Pipe, t: nat, u: nat, outs: seq<Byte>, ins: seq<Byte>)
    requires Frame(s, s', t) && Moves(s, s', t) && u < |s.threads| && u != t && ThreadAt(s, u)
    requires (s'.writeopen ==> s.writeopen) && (s'.readopen ==> s.readopen)
    requires Served(s, s.threads[u], outs, ins)
    ensures s'.threads[u].call == s.threads[u].call && Served(s', s'.threads[u], outs, ins)
  {
    assert SameOrWoken(s.threads[u], s'.threads[u]);
    hide Frame, Slice, Full, Empty;
    if s.threads[u].call.Read? {
      SliceGrows(ins, s.taken, Gone(s.ring, s'.ring));
    }
  }

  lemma OnlyCloses(s: Pipe, st: Step)
    requires Enabled(s, st)
    ensures (Do(s, st).writeopen ==> s.writeopen) && (Do(s, st).readopen ==> s.readopen)
  {
    hide Full, Empty, WakeAll, Put, Drop, Head;
  }

  lemma ActInOrder(a: Account, s: Pipe, t: nat, u: nat)
    requires Base(s) && Accounted(a, s) && CanAct(s, t) && u < |s.threads|
    ensures |DoAct(s, t).threads| == |s.threads| && InOrder(Note(a, s, Act(t)), DoAct(s, t), u)
  {
    var s', a' := DoAct(s, t), Note(a, s, Act(t));
    ActMoves(s, t);
    ActFrame(s, t);
    ActKeepsFlag(s, t, u);
    OnlyCloses(s, Act(t));
    assert InOrder(a, s, u) && ThreadAt(s, u) && ThreadAt(s, t);
    var put, got := Appeared(s.ring, s'.ring), Gone(s.ring, s'.ring);
    ByMore(a.puts, a.from[u].0, t, put, u);
    ByMore(a.gets, a.from[u].1, t, got, u);
    var outs, ins := By(a.puts[a.from[u].0..], u), By(a.gets[a.from[u].1..], u);
    hide DoAct, CanAct, Served, Frame, Moves, ThreadAt, Holds, Threads, NoLostWriter, By, Appeared, Gone, Tag;
    if a.asked[u].Some? {
      if u == t {
        SelfActs(s, t, outs, ins);
      } else {
        OtherStays(s, s', t, u, outs, ins);
        assert outs + [] == outs && ins + [] == ins;
      }
    }
  }

  // Nobody starts a call or is marked killed by another's step.
  lemma ActKeepsFlag(s: Pipe, t: nat, u: nat)
    requires Threads(s) && CanAct(s, t) && u < |s.threads|
    ensures |DoAct(s, t).threads| == |s.threads| && DoAct(s, t).threads[u].killed == s.threads[u].killed
    ensures s.threads[u].at.Out? ==> DoAct(s, t).threads[u].at.Out?
  {
    ActFrame(s, t);
    if u == t {
      hide Full, Empty, WakeAll, Put, Drop, Head, Frame, Threads;
    } else {
      hide DoAct, Threads;
      assert SameOrWoken(s.threads[u], DoAct(s, t).threads[u]);
    }
  }

  // A thread whose call, counter and place stay, or that is woken, while nothing happens to the pipe.
  lemma ServedStill(s: Pipe, s': Pipe, th: Thread, th': Thread, outs: seq<Byte>, ins: seq<Byte>)
    requires Served(s, th, outs, ins)
    requires s'.ring == s.ring && s'.taken == s.taken && s'.writeopen == s.writeopen && s'.readopen == s.readopen
    requires th'.call == th.call && th'.i == th.i && (th'.at == th.at || (th.at.Asleep? && th'.at.Relock?))
    ensures Served(s', th', outs, ins)
  {
    hide Slice, Empty;
  }

  lemma ServedAtStart(s: Pipe, th: Thread)
    requires th.at.Entry? && th.i == 0
    ensures Served(s, th, [], [])
  {
    EmptySlice(s.taken);
    hide Slice, Empty;
  }

  lemma StartInOrder(a: Account, s: Pipe, t: nat, call: Call, u: nat)
    requires Base(s) && Accounted(a, s) && CanStart(s, t, call) && u < |s.threads|
    ensures InOrder(Note(a, s, Start(t, call)), DoStart(s, t, call), u)
  {
    assert InOrder(a, s, u);
    hide Served, Base;
    var a', s' := Note(a, s, Start(t, call)), DoStart(s, t, call);
    if u == t {
      assert a'.puts[a'.from[t].0..] == [] && a'.gets[a'.from[t].1..] == [];
      ServedAtStart(s', s'.threads[t]);
    } else if a.asked[u].Some? {
      hide By;
      assert s'.threads[u] == s.threads[u] && s'.taken == s.taken;
      ServedStill(s, s', s.threads[u], s'.threads[u], By(a.puts[a.from[u].0..], u), By(a.gets[a.from[u].1..], u));
    }
  }

  lemma EmptySlice(of: seq<Byte>)
    ensures Slice([], of)
  {
    assert Joined(of, [], [], of);
  }

  lemma KillInOrder(a: Account, s: Pipe, t: nat, mark: bool, u: nat)
    requires Base(s) && Accounted(a, s) && t < |s.threads| && s.tlock == None && u < |s.threads|
    ensures InOrder(Note(a, s, Kill(t, mark)), DoKill(s, t, mark), u)
  {
    assert InOrder(a, s, u);
    hide Served, Base, By;
    if a.asked[u].Some? {
      var s' := DoKill(s, t, mark);
      ServedStill(s, s', s.threads[u], s'.threads[u], By(a.puts[a.from[u].0..], u), By(a.gets[a.from[u].1..], u));
    }
  }

  lemma NoteKeeps(a: Account, s: Pipe, st: Step)
    requires Base(s) && Accounted(a, s) && Enabled(s, st)
    ensures Accounted(Note(a, s, st), Do(s, st))
  {
    var a', s' := Note(a, s, st), Do(s, st);
    match st
    case Start(t, call) =>
      forall u: nat | u < |s'.threads| ensures InOrder(a', s', u) {
        StartInOrder(a, s, t, call, u);
      }
    case Act(t) =>
      ActMoves(s, t);
      TagBytes(a.puts, t, Appeared(s.ring, s'.ring));
      TagBytes(a.gets, t, Gone(s.ring, s'.ring));
      hide DoAct, InOrder;
      forall u: nat | u < |s'.threads| ensures InOrder(a', s', u) {
        ActInOrder(a, s, t, u);
      }
    case Kill(t, mark) =>
      forall u: nat | u < |s'.threads| ensures InOrder(a', s', u) {
        KillInOrder(a, s, t, mark, u);
      }
  }

  // ---- every run ----

  function Kept(a: Account, s: Pipe, steps: seq<Step>): Account
    requires Run(s, steps) && Sized(a, |s.threads|)
    decreases |steps|
  {
    if steps == [] then a else
    SameThreads(s, steps[0]);
    Kept(Note(a, s, steps[0]), Do(s, steps[0]), steps[1..])
  }

  lemma SameThreads(s: Pipe, st: Step)
    requires Enabled(s, st)
    ensures |Do(s, st).threads| == |s.threads|
  {
    hide Full, Empty, Put, Drop, Head;
  }

  lemma {:induction false} KeptRun(a: Account, s: Pipe, steps: seq<Step>)
    requires Base(s) && Accounted(a, s) && Run(s, steps)
    ensures Accounted(Kept(a, s, steps), Exec(s, steps)) && Base(Exec(s, steps))
    decreases |steps|
  {
    hide Base, Note, Do, InOrder;
    if steps != [] {
      StepKeepsBase(s, steps[0]);
      NoteKeeps(a, s, steps[0]);
      SameThreads(s, steps[0]);
      KeptRun(Note(a, s, steps[0]), Do(s, steps[0]), steps[1..]);
    }
  }

  // The account of a whole run.
  function AccountOf(start: Pipe, steps: seq<Step>): Account
    requires Run(start, steps)
  {
    Kept(Opening(|start.threads|), start, steps)
  }

  // In every run: what has come out of the ring is a prefix of what has gone in, with at most PIPESIZE bytes in
  // between; and every call has put in, or got, exactly what it should have by now.
  lemma CallsAreServed(start: Pipe, steps: seq<Step>, t: nat)
    requires Init(start) && Run(start, steps) && t < |start.threads|
    ensures var a, s := AccountOf(start, steps), Exec(start, steps);
            && Bytes(a.gets) <= Bytes(a.puts) && |a.puts| - |a.gets| <= PIPESIZE
            && Sized(a, |s.threads|) && |s.threads| == |start.threads| && InOrder(a, s, t)
            && s.wfd == !a.wshut && s.rfd == !a.rshut
  {
    InitHolds(start);
    assert Accounted(Opening(|start.threads|), start);
    hide Run, Exec, Kept, InOrder;
    KeptRun(Opening(|start.threads|), start, steps);
    ThreadsStay(start, steps);
  }

  lemma {:induction false} ThreadsStay(s: Pipe, steps: seq<Step>)
    requires Run(s, steps)
    ensures |Exec(s, steps).threads| == |s.threads|
    decreases |steps|
  {
    hide Do, Enabled;
    if steps != [] {
      SameThreads(s, steps[0]);
      ThreadsStay(Do(s, steps[0]), steps[1..]);
    }
  }

  // How a call can end: after its last wakeup, or with -1 where pipe.c says so.
  lemma HowCallsEnd(s: Pipe, t: nat)
    requires CanAct(s, t) && ThreadAt(s, t)
    ensures var th := s.threads[t];
            t < |DoAct(s, t).threads| && (DoAct(s, t).threads[t].at.Out? <==>
              || th.at.Release?
              || (th.at.Loop? && th.call.Write? && th.i < |th.call.buf| && Full(s.ring) && (!s.readopen || th.killed))
              || (th.at.Loop? && th.call.Read? && Empty(s.ring) && s.writeopen && th.killed))
  {
    hide Full, Empty, WakeAll, Put, Drop, Head;
  }

  // kill reaches a sleeper, and nobody else.
  lemma KillReaches(s: Pipe, t: nat, mark: bool, u: nat)
    requires Enabled(s, Kill(t, mark)) && u < |s.threads|
    ensures var s' := Do(s, Kill(t, mark));
            && Still(s, s') && s'.writeopen == s.writeopen && s'.readopen == s.readopen
            && s'.plock == s.plock && s'.tlock == s.tlock
            && (u != t ==> s'.threads[u] == s.threads[u])
            && !s'.threads[t].at.Asleep? && (s.threads[t].at.Asleep? ==> s'.threads[t].at.Relock?)
            && (mark ==> s'.threads[t].killed)
  {
  }

  // As long as somebody is in a call and not asleep, somebody can go on.
  lemma NoDeadlock(start: Pipe, steps: seq<Step>, t: nat)
    requires Init(start) && Run(start, steps) && t < |Exec(start, steps).threads|
    requires !Exec(start, steps).threads[t].at.Out? && !Exec(start, steps).threads[t].at.Asleep?
    ensures exists u :: CanAct(Exec(start, steps), u)
  {
    InitHolds(start);
    RunKeepsBase(start, steps);
    hide Run, Exec, NoLostWriter;
    var s := Exec(start, steps);
    assert ThreadAt(s, t);
    if s.tlock.Some? {
      assert ThreadAt(s, s.tlock.value) && CanAct(s, s.tlock.value);
    } else if s.plock.Some? {
      assert ThreadAt(s, s.plock.value) && CanAct(s, s.plock.value);
    } else {
      assert CanAct(s, t);
    }
  }
}
