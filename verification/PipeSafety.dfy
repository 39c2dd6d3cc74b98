/** No wakeup is lost and no byte is lost, repeated or reordered, in any interleaving. */
module PipeSafety {
  import opened Options
  import opened PipeRing
  import opened PipeProtocol

  // ---- what one step may change ----

  predicate SameOrWoken(a: Thread, b: Thread) {
    b == a || (a.at.Asleep? && b == a.(at := Relock))
  }

  predicate LockMoves(a: Option<nat>, b: Option<nat>, t: nat) {
    b == a || (a == None && b == Some(t)) || (a == Some(t) && b == None)
  }

  ghost predicate Frame(s: Pipe, s': Pipe, t: nat) {
    && t < |s.threads| && |s'.threads| == |s.threads|
    && (forall u: nat :: u < |s.threads| && u != t ==> SameOrWoken(s.threads[u], s'.threads[u]))
    && LockMoves(s.plock, s'.plock, t) && LockMoves(s.tlock, s'.tlock, t)
    && (s.plock != Some(t) ==> s'.ring == s.ring && s'.readopen == s.readopen && s'.writeopen == s.writeopen)
    && (s'.rfd ==> s.rfd) && (s'.wfd ==> s.wfd)
    && (s'.rfd != s.rfd ==> forall u: nat :: u < |s.threads| && u != t ==> !Reading(s.threads[u]))
    && (s'.wfd != s.wfd ==> forall u: nat :: u < |s.threads| && u != t ==> !Writing(s.threads[u]))
  }

  lemma ThreadsStep(s: Pipe, s': Pipe, t: nat)
    requires Threads(s) && Frame(s, s', t) && ThreadAt(s', t)
    requires (s'.rfd ==> s'.readopen) && (s'.wfd ==> s'.writeopen)
    ensures Threads(s')
  {
    forall u: nat | u < |s'.threads| && u != t ensures ThreadAt(s', u) {
      assert ThreadAt(s, u) && SameOrWoken(s.threads[u], s'.threads[u]);
    }
  }

  lemma ReadersStep(s: Pipe, s': Pipe, t: nat)
    requires NoLostReader(s) && Frame(s, s', t)
    requires ReadersMayWait(s) ==> ReadersMayWait(s')
    requires DownReader(s'.threads[t]) ==> DownReader(s.threads[t]) || ReadersMayWait(s')
    ensures NoLostReader(s')
  {
    hide ReadersMayWait;
    forall u: nat | u < |s'.threads| && DownReader(s'.threads[u]) ensures ReadersMayWait(s') {
      if u != t {
        assert SameOrWoken(s.threads[u], s'.threads[u]);
        assert DownReader(s.threads[u]);
      }
    }
  }

  lemma WritersStep(s: Pipe, s': Pipe, t: nat)
    requires NoLostWriter(s) && Frame(s, s', t)
    requires WritersMayWait(s) ==> WritersMayWait(s')
    requires DownWriter(s'.threads[t]) ==> DownWriter(s.threads[t]) || WritersMayWait(s')
    ensures NoLostWriter(s')
  {
    hide WritersMayWait;
    forall u: nat | u < |s'.threads| && DownWriter(s'.threads[u]) ensures WritersMayWait(s') {
      if u != t {
        assert SameOrWoken(s.threads[u], s'.threads[u]);
        assert DownWriter(s.threads[u]);
      }
    }
  }

  // With ptable.lock free nobody is on the way to sleep, so wakeup reaches everyone who is down.
  lemma WakeupReaches(s: Pipe, t: nat, readers: bool, next: At)
    requires Threads(s) && t < |s.threads| && s.tlock == None && HoldsPipe(s.threads[t].at) && !next.Asleep?
             && !next.Sleep3?
    ensures var s' := Wakeup(s, t, s.threads[t], readers, next);
            && Frame(s, s', t)
            && (readers ==> NoLostReader(s'))
            && (!readers ==> NoLostWriter(s'))
  {
    var s' := Wakeup(s, t, s.threads[t], readers, next);
    forall u: nat | u < |s.threads| && u != t
      ensures SameOrWoken(s.threads[u], s'.threads[u])
      ensures readers ==> !DownReader(s'.threads[u])
      ensures !readers ==> !DownWriter(s'.threads[u])
    {
      assert ThreadAt(s, u);
    }
  }

  // ---- the bytes ----

  // The bytes a step of thread t moves.
  lemma RingLoop(s: Pipe, t: nat, th: Thread)
    requires Holds(s.ring, s.written, s.taken) && t < |s.threads|
    ensures var s' := InLoop(s, t, th); Holds(s'.ring, s'.written, s'.taken)
  {
    hide Holds, Full, Empty, Put;
    assert |s.ring.data| == PIPESIZE by { DataLength(s.ring, s.written, s.taken); }
    if th.call.Write? && th.i < |th.call.buf| && !Full(s.ring) {
      PutHolds(s.ring, s.written, s.taken, th.call.buf[th.i]);
    }
  }

  lemma DataLength(r: Ring, written: seq<Byte>, taken: seq<Byte>)
    requires Holds(r, written, taken)
    ensures |r.data| == PIPESIZE
  {
  }

  lemma RingStep(s: Pipe, t: nat)
    requires Holds(s.ring, s.written, s.taken) && CanAct(s, t)
    ensures var s' := DoAct(s, t); Holds(s'.ring, s'.written, s'.taken)
  {
    hide Holds, Full, Empty, InLoop, WakeAll, Drop, Head;
    var th := s.threads[t];
    if th.at.Loop? {
      RingLoop(s, t, th);
    } else if th.at.Copy? && th.i < th.call.n && !Empty(s.ring) {
      TakeHolds(s.ring, s.written, s.taken);
    }
  }

  // ---- the lock and the calls ----

  // A step that touches no thread but t and closes no file.
  lemma OneThread(s: Pipe, s': Pipe, t: nat)
    requires Threads(s) && t < |s.threads| && |s'.threads| == |s.threads|
    requires s'.threads == s.threads[t := s'.threads[t]] && s'.rfd == s.rfd && s'.wfd == s.wfd
    requires LockMoves(s.plock, s'.plock, t) && LockMoves(s.tlock, s'.tlock, t)
    requires s.plock != Some(t) ==> s'.ring == s.ring && s'.readopen == s.readopen && s'.writeopen == s.writeopen
    requires ThreadAt(s, t) ==> ThreadAt(s', t) && (s'.rfd ==> s'.readopen) && (s'.wfd ==> s'.writeopen)
    ensures Frame(s, s', t) && Threads(s')
  {
    hide ThreadAt;
    assert ThreadAt(s, t);
    ThreadsStep(s, s', t);
  }

  lemma LockFrame(s: Pipe, t: nat)
    requires Threads(s) && CanAct(s, t)
             && (s.threads[t].at.Entry? || s.threads[t].at.Relock? || s.threads[t].at.Release?)
    ensures Frame(s, DoAct(s, t), t) && Threads(DoAct(s, t))
  {
    assert ThreadAt(s, t) && (s.rfd ==> s.readopen) && (s.wfd ==> s.writeopen);
    hide Frame, Threads, Full, Empty;
    OneThread(s, DoAct(s, t), t);
  }

  lemma SleepFrame(s: Pipe, t: nat)
    requires Threads(s) && CanAct(s, t)
             && (s.threads[t].at.Sleep1? || s.threads[t].at.Sleep2? || s.threads[t].at.Sleep3?)
    ensures Frame(s, DoAct(s, t), t) && Threads(DoAct(s, t))
  {
    assert ThreadAt(s, t) && (s.rfd ==> s.readopen) && (s.wfd ==> s.writeopen);
    hide Frame, Threads, Full, Empty;
    OneThread(s, DoAct(s, t), t);
  }

  lemma WriteFrame(s: Pipe, t: nat)
    requires Threads(s) && CanAct(s, t) && s.threads[t].at.Loop? && s.threads[t].call.Write?
    ensures Frame(s, DoAct(s, t), t) && Threads(DoAct(s, t))
  {
    assert ThreadAt(s, t) && (s.rfd ==> s.readopen) && (s.wfd ==> s.writeopen);
    hide Frame, Threads, Put;
    OneThread(s, DoAct(s, t), t);
  }

  lemma ReadFrame(s: Pipe, t: nat)
    requires Threads(s) && CanAct(s, t) && s.threads[t].at.Loop? && s.threads[t].call.Read?
    ensures Frame(s, DoAct(s, t), t) && Threads(DoAct(s, t))
  {
    assert ThreadAt(s, t) && (s.rfd ==> s.readopen) && (s.wfd ==> s.writeopen);
    hide Frame, Threads;
    OneThread(s, DoAct(s, t), t);
  }

  lemma CopyFrame(s: Pipe, t: nat)
    requires Threads(s) && CanAct(s, t) && s.threads[t].at.Copy?
    ensures Frame(s, DoAct(s, t), t) && Threads(DoAct(s, t))
  {
    assert ThreadAt(s, t) && (s.rfd ==> s.readopen) && (s.wfd ==> s.writeopen);
    hide Frame, Threads, Drop, Head;
    OneThread(s, DoAct(s, t), t);
  }

  lemma CloseFrame(s: Pipe, t: nat)
    requires Threads(s) && CanAct(s, t) && s.threads[t].at.Loop? && s.threads[t].call.Close?
    ensures Frame(s, DoAct(s, t), t) && Threads(DoAct(s, t))
  {
    assert ThreadAt(s, t) && (s.rfd ==> s.readopen) && (s.wfd ==> s.writeopen);
    hide Frame, Threads;
    OneThread(s, DoAct(s, t), t);
  }

  lemma WakeFrame(s: Pipe, t: nat)
    requires Threads(s) && CanAct(s, t) && (s.threads[t].at.WakeFirst? || s.threads[t].at.WakeEnd?)
    ensures Frame(s, DoAct(s, t), t) && Threads(DoAct(s, t))
  {
    assert ThreadAt(s, t);
    var th := s.threads[t];
    var readers := if th.at.WakeFirst? then true else WakesReaders(th.call);
    var next := if th.at.WakeFirst? then Sleep1 else Release;
    WakeupReaches(s, t, readers, next);
    var s' := DoAct(s, t);
    assert ThreadAt(s', t);
    ThreadsStep(s, s', t);
  }

  lemma ActFrame(s: Pipe, t: nat)
    requires Threads(s) && CanAct(s, t)
    ensures Frame(s, DoAct(s, t), t) && Threads(DoAct(s, t))
  {
    hide Frame, Threads, DoAct;
    match s.threads[t].at
    case Loop =>
      match s.threads[t].call {
        case Write(_) => WriteFrame(s, t);
        case Read(_) => ReadFrame(s, t);
        case Close(_) => CloseFrame(s, t);
      }
    case Copy => CopyFrame(s, t);
    case WakeFirst => WakeFrame(s, t);
    case WakeEnd => WakeFrame(s, t);
    case Sleep1 => SleepFrame(s, t);
    case Sleep2 => SleepFrame(s, t);
    case Sleep3 => SleepFrame(s, t);
    case _ => LockFrame(s, t);
  }

  lemma StartFrame(s: Pipe, t: nat, call: Call)
    requires Threads(s) && CanStart(s, t, call)
    ensures Frame(s, DoStart(s, t, call), t) && Threads(DoStart(s, t, call))
  {
    assert ThreadAt(s, t);
    var s' := DoStart(s, t, call);
    assert ThreadAt(s', t);
    ThreadsStep(s, s', t);
  }

  lemma KillFrame(s: Pipe, t: nat, mark: bool)
    requires Threads(s) && t < |s.threads|
    ensures Frame(s, DoKill(s, t, mark), t) && Threads(DoKill(s, t, mark))
  {
    hide Full, Empty;
    OneThread(s, DoKill(s, t, mark), t);
  }

  // ---- who may be down ----

  predicate ReadersFine(s: Pipe, s': Pipe, t: nat)
    requires t < |s.threads| && t < |s'.threads|
  {
    && (ReadersMayWait(s) ==> ReadersMayWait(s'))
    && (DownReader(s'.threads[t]) ==> DownReader(s.threads[t]) || ReadersMayWait(s'))
  }

  predicate WritersFine(s: Pipe, s': Pipe, t: nat)
    requires t < |s.threads| && t < |s'.threads|
  {
    && (WritersMayWait(s) ==> WritersMayWait(s'))
    && (DownWriter(s'.threads[t]) ==> DownWriter(s.threads[t]) || WritersMayWait(s'))
  }

  ghost predicate ActsAt(s: Pipe, t: nat) {
    CanAct(s, t) && ThreadAt(s, t) && (s.plock.Some? ==> s.plock.value < |s.threads|)
      && Holds(s.ring, s.written, s.taken)
  }

  lemma FineEntry(s: Pipe, t: nat)
    requires ActsAt(s, t) && (s.threads[t].at.Entry? || s.threads[t].at.Relock?)
    ensures ReadersFine(s, DoAct(s, t), t) && WritersFine(s, DoAct(s, t), t)
  {
    TestsAreExact(s.ring, s.written, s.taken);
    hide Holds, Full, Empty;
  }

  lemma FineSleep(s: Pipe, t: nat)
    requires ActsAt(s, t) && (s.threads[t].at.Sleep1? || s.threads[t].at.Sleep2?)
    ensures ReadersFine(s, DoAct(s, t), t) && WritersFine(s, DoAct(s, t), t)
  {
    hide Holds, Full, Empty;
  }

  lemma FineAsleep(s: Pipe, t: nat)
    requires ActsAt(s, t) && (s.threads[t].at.Sleep3? || s.threads[t].at.Release?)
    ensures ReadersFine(s, DoAct(s, t), t) && WritersFine(s, DoAct(s, t), t)
  {
    hide Holds, Full, Empty;
  }

  // What the killed exit needs: a write that fits in the pipe cannot fill it under a waiting reader.
  predicate Tame(th: Thread) {
    Writing(th) && th.killed ==> |th.call.buf| <= PIPESIZE
  }

  lemma FineWrite(s: Pipe, t: nat)
    requires ActsAt(s, t) && s.threads[t].at.Loop? && s.threads[t].call.Write?
    ensures WritersFine(s, DoAct(s, t), t)
    ensures s.readopen && Tame(s.threads[t]) ==> ReadersFine(s, DoAct(s, t), t)
  {
    TestsAreExact(s.ring, s.written, s.taken);
    hide Holds, Full, Empty, Put;
  }

  lemma FineRead(s: Pipe, t: nat)
    requires ActsAt(s, t) && s.threads[t].at.Loop? && s.threads[t].call.Read?
    ensures ReadersFine(s, DoAct(s, t), t) && WritersFine(s, DoAct(s, t), t)
  {
    hide Holds, Full, Empty;
  }

  lemma FineClose(s: Pipe, t: nat)
    requires ActsAt(s, t) && s.threads[t].at.Loop? && s.threads[t].call.Close?
    ensures ReadersFine(s, DoAct(s, t), t) && WritersFine(s, DoAct(s, t), t)
  {
    hide Holds, Full, Empty;
  }

  lemma FineCopy(s: Pipe, t: nat)
    requires ActsAt(s, t) && s.threads[t].at.Copy?
    ensures ReadersFine(s, DoAct(s, t), t) && WritersFine(s, DoAct(s, t), t)
  {
    hide Holds, Full, Empty, Drop, Head;
  }

  lemma FineWakeFirst(s: Pipe, t: nat)
    requires ActsAt(s, t) && s.threads[t].at.WakeFirst?
    ensures WritersFine(s, DoAct(s, t), t)
  {
    hide Holds, Full, Empty, WakeAll;
  }

  lemma FineWakeEnd(s: Pipe, t: nat)
    requires ActsAt(s, t) && s.threads[t].at.WakeEnd?
    ensures WakesReaders(s.threads[t].call) ==> WritersFine(s, DoAct(s, t), t)
    ensures !WakesReaders(s.threads[t].call) ==> ReadersFine(s, DoAct(s, t), t)
  {
    hide Holds, Full, Empty, WakeAll;
  }

  lemma ActWriters(s: Pipe, t: nat)
    requires Holds(s.ring, s.written, s.taken) && Threads(s) && NoLostWriter(s) && CanAct(s, t)
    ensures NoLostWriter(DoAct(s, t))
  {
    var th, s' := s.threads[t], DoAct(s, t);
    assert ThreadAt(s, t);
    if th.at.WakeEnd? && !WakesReaders(th.call) {
      WakeupReaches(s, t, false, Release);
    } else {
      ActFrame(s, t);
      assert ActsAt(s, t);
      hide Frame, Threads, NoLostWriter, DoAct, ActsAt;
      assert WritersFine(s, s', t) by {
        match th.at
        case Entry => FineEntry(s, t);
        case Relock => FineEntry(s, t);
        case Sleep1 => FineSleep(s, t);
        case Sleep2 => FineSleep(s, t);
        case Sleep3 => FineAsleep(s, t);
        case Release => FineAsleep(s, t);
        case Copy => FineCopy(s, t);
        case WakeFirst => FineWakeFirst(s, t);
        case WakeEnd => FineWakeEnd(s, t);
        case Loop =>
          match th.call {
            case Write(_) => FineWrite(s, t);
            case Read(_) => FineRead(s, t);
            case Close(_) => FineClose(s, t);
          }
      }
      WritersStep(s, s', t);
    }
  }

  lemma NobodyReads(s: Pipe, s': Pipe, t: nat)
    requires Threads(s) && Threads(s') && Frame(s, s', t) && !s.readopen
    ensures NoLostReader(s')
  {
    forall u: nat | u < |s'.threads| ensures !DownReader(s'.threads[u]) {
      assert ThreadAt(s', u);
    }
  }

  lemma ActReaders(s: Pipe, t: nat)
    requires Holds(s.ring, s.written, s.taken) && Threads(s) && NoLostReader(s) && CanAct(s, t) && Tame(s.threads[t])
    ensures NoLostReader(DoAct(s, t))
  {
    var th, s' := s.threads[t], DoAct(s, t);
    assert ThreadAt(s, t);
    ActFrame(s, t);
    if th.at.WakeFirst? {
      WakeupReaches(s, t, true, Sleep1);
    } else if th.at.WakeEnd? && WakesReaders(th.call) {
      WakeupReaches(s, t, true, Release);
    } else if !s.readopen {
      NobodyReads(s, s', t);
    } else {
      assert ActsAt(s, t);
      hide Frame, Threads, NoLostReader, DoAct, ActsAt, Tame;
      assert ReadersFine(s, s', t) by {
        match th.at
        case Entry => FineEntry(s, t);
        case Relock => FineEntry(s, t);
        case Sleep1 => FineSleep(s, t);
        case Sleep2 => FineSleep(s, t);
        case Sleep3 => FineAsleep(s, t);
        case Release => FineAsleep(s, t);
        case Copy => FineCopy(s, t);
        case WakeEnd => FineWakeEnd(s, t);
        case Loop =>
          match th.call {
            case Write(_) => FineWrite(s, t);
            case Read(_) => FineRead(s, t);
            case Close(_) => FineClose(s, t);
          }
      }
      ReadersStep(s, s', t);
    }
  }

  // ---- every step ----

  lemma StartOrKillWaits(s: Pipe, s': Pipe, t: nat)
    requires Threads(s) && Frame(s, s', t)
    requires s'.threads == s.threads[t := s'.threads[t]]
    requires s'.plock == s.plock && s'.ring == s.ring && s'.written == s.written && s'.taken == s.taken
    requires s'.readopen == s.readopen && s'.writeopen == s.writeopen
    requires !(s'.threads[t].at.Sleep3? || s'.threads[t].at.Asleep?) || s'.threads[t].at == s.threads[t].at
    requires s.plock == Some(t) || s'.threads[t].at == s.threads[t].at
             ==> s'.threads[t] == s.threads[t].(killed := s'.threads[t].killed)
    ensures NoLostReader(s) ==> NoLostReader(s')
    ensures NoLostWriter(s) ==> NoLostWriter(s')
  {
    assert ReadersFine(s, s', t) && WritersFine(s, s', t) by {
      hide Full, Empty, Threads;
    }
    hide Threads, Frame, NoLostReader, NoLostWriter;
    if NoLostReader(s) {
      ReadersStep(s, s', t);
    }
    if NoLostWriter(s) {
      WritersStep(s, s', t);
    }
  }

  // Everything but the readers' guarantee is kept by every step, killed or not.
  ghost predicate Base(s: Pipe) {
    Holds(s.ring, s.written, s.taken) && Threads(s) && NoLostWriter(s)
  }

  lemma StartKeeps(s: Pipe, t: nat, call: Call)
    requires Base(s) && CanStart(s, t, call)
    ensures Base(DoStart(s, t, call))
    ensures NoLostReader(s) ==> NoLostReader(DoStart(s, t, call))
  {
    assert ThreadAt(s, t);
    StartFrame(s, t, call);
    hide Holds, Threads, Frame, NoLostReader, NoLostWriter;
    StartOrKillWaits(s, DoStart(s, t, call), t);
  }

  lemma KillKeeps(s: Pipe, t: nat, mark: bool)
    requires Base(s) && t < |s.threads|
    ensures Base(DoKill(s, t, mark))
    ensures NoLostReader(s) ==> NoLostReader(DoKill(s, t, mark))
  {
    assert ThreadAt(s, t);
    KillFrame(s, t, mark);
    hide Holds, Threads, Frame, NoLostReader, NoLostWriter;
    StartOrKillWaits(s, DoKill(s, t, mark), t);
  }

  lemma StepKeepsBase(s: Pipe, st: Step)
    requires Base(s) && Enabled(s, st)
    ensures Base(Do(s, st))
  {
    hide Holds, Threads, NoLostWriter, DoAct, DoStart, DoKill, CanStart;
    match st
    case Start(t, call) => StartKeeps(s, t, call);
    case Act(t) =>
      RingStep(s, t);
      ActFrame(s, t);
      ActWriters(s, t);
    case Kill(t, mark) => KillKeeps(s, t, mark);
  }

  lemma StepKeeps(s: Pipe, st: Step)
    requires Inv(s) && Enabled(s, st) && (st.Act? ==> Tame(s.threads[st.t]))
    ensures Inv(Do(s, st))
  {
    hide Holds, Threads, NoLostWriter, NoLostReader, DoAct, DoStart, DoKill, CanStart, Tame;
    StepKeepsBase(s, st);
    match st
    case Start(t, call) => StartKeeps(s, t, call);
    case Act(t) => ActReaders(s, t);
    case Kill(t, mark) => KillKeeps(s, t, mark);
  }

  lemma {:induction false} RunKeepsBase(s: Pipe, steps: seq<Step>)
    requires Base(s) && Run(s, steps)
    ensures Base(Exec(s, steps))
    decreases |steps|
  {
    hide Base;
    if steps != [] {
      StepKeepsBase(s, steps[0]);
      RunKeepsBase(Do(s, steps[0]), steps[1..]);
    }
  }
}
