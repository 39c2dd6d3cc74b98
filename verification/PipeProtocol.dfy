/** Any number of processes in pipewrite, piperead and pipeclose on one pipe. The pipe's lock and
    ptable.lock are taken and dropped in separate steps, as sleep and wakeup do. */
module PipeProtocol {
  import opened Options
  import opened PipeRing

  datatype Call = Write(buf: seq<Byte>) | Read(n: nat) | Close(writable: bool)

  datatype At =
    | Out                      // not in a call
    | Entry                    // wants p->lock
    | Loop                     // holds p->lock, at the head of its loop
    | WakeFirst                // pipewrite found it full: wakes the readers before sleeping
    | Sleep1 | Sleep2 | Sleep3 // in sleep: wants ptable.lock; has both; has released p->lock
    | Asleep
    | Relock                   // woken, wants p->lock back
    | Copy                     // piperead's copying loop
    | WakeEnd                  // at the last wakeup
    | Release

  // i is the loop counter; base is its value when p->lock was last taken.
  datatype Thread = Thread(call: Call, at: At, i: nat, base: nat, killed: bool)

  // rfd and wfd say whether the two files are open; taken is all that has been read.
  datatype Pipe = Pipe(ring: Ring, readopen: bool, writeopen: bool, rfd: bool, wfd: bool,
                       threads: seq<Thread>, plock: Option<nat>, tlock: Option<nat>,
                       written: seq<Byte>, taken: seq<Byte>)

  datatype Step = Start(t: nat, call: Call) | Act(t: nat) | Kill(t: nat, mark: bool)

  function Set(s: Pipe, t: nat, th: Thread): (r: Pipe)
    requires t < |s.threads|
    ensures |r.threads| == |s.threads| && r.threads[t] == th
  {
    s.(threads := s.threads[t := th])
  }

  predicate Reading(th: Thread) { th.call.Read? && !th.at.Out? }

  predicate Writing(th: Thread) { th.call.Write? && !th.at.Out? }

  // wakeup(&p->nread) and wakeup(&p->nwrite)
  predicate IsSleeping(th: Thread, reader: bool) {
    th.at.Asleep? && (if reader then th.call.Read? else th.call.Write?)
  }

  function WakeAll(threads: seq<Thread>, readers: bool): (r: seq<Thread>)
    ensures |r| == |threads|
  {
    seq(|threads|, u requires 0 <= u < |threads| =>
      if IsSleeping(threads[u], readers) then threads[u].(at := Relock) else threads[u])
  }

  // ---- what each call does at each point ----

  function WriteLoop(s: Pipe, t: nat, th: Thread): Pipe
    requires t < |s.threads| && th.call.Write? && |s.ring.data| == PIPESIZE
  {
    if th.i >= |th.call.buf| then Set(s, t, th.(at := WakeEnd))
    else if Full(s.ring) then
      if !s.readopen || th.killed then Set(s, t, th.(at := Out)).(plock := None)
      else Set(s, t, th.(at := WakeFirst))
    else
      var c := th.call.buf[th.i];
      Set(s, t, th.(i := th.i + 1)).(ring := Put(s.ring, c), written := s.written + [c])
  }

  function ReadLoop(s: Pipe, t: nat, th: Thread): Pipe
    requires t < |s.threads|
  {
    if Empty(s.ring) && s.writeopen then
      if th.killed then Set(s, t, th.(at := Out)).(plock := None)
      else Set(s, t, th.(at := Sleep1))
    else Set(s, t, th.(at := Copy, i := 0))
  }

  function CopyLoop(s: Pipe, t: nat, th: Thread): Pipe
    requires t < |s.threads| && th.call.Read? && |s.ring.data| == PIPESIZE
  {
    if th.i < th.call.n && !Empty(s.ring)
    then Set(s, t, th.(i := th.i + 1)).(ring := Drop(s.ring), taken := s.taken + [Head(s.ring)])
    else Set(s, t, th.(at := WakeEnd))
  }

  function CloseEnd(s: Pipe, t: nat, th: Thread): Pipe
    requires t < |s.threads| && th.call.Close?
  {
    var s1 := Set(s, t, th.(at := WakeEnd));
    if th.call.writable then s1.(writeopen := false) else s1.(readopen := false)
  }

  function InLoop(s: Pipe, t: nat, th: Thread): Pipe
    requires t < |s.threads| && |s.ring.data| == PIPESIZE
  {
    match th.call
    case Write(_) => WriteLoop(s, t, th)
    case Read(_) => ReadLoop(s, t, th)
    case Close(_) => CloseEnd(s, t, th)
  }

  predicate WakesReaders(call: Call) {
    call.Write? || (call.Close? && call.writable)
  }

  function Wakeup(s: Pipe, t: nat, th: Thread, readers: bool, next: At): (r: Pipe)
    requires t < |s.threads|
    ensures |r.threads| == |s.threads| && r.threads[t] == th.(at := next)
  {
    s.(threads := WakeAll(s.threads, readers)[t := th.(at := next)])
  }

  predicate CanAct(s: Pipe, t: nat) {
    && t < |s.threads| && |s.ring.data| == PIPESIZE
    && match s.threads[t].at
       case Out => false
       case Entry => s.plock == None
       case WakeFirst => s.tlock == None
       case Sleep1 => s.tlock == None
       case Asleep => false
       case Relock => s.plock == None
       case Copy => s.threads[t].call.Read?
       case WakeEnd => s.tlock == None
       case _ => true
  }

  function DoAct(s: Pipe, t: nat): Pipe
    requires CanAct(s, t)
  {
    var th := s.threads[t];
    match th.at
    case Entry => Set(s, t, th.(at := Loop, i := 0, base := 0)).(plock := Some(t))
    case Loop => InLoop(s, t, th)
    case WakeFirst => Wakeup(s, t, th, true, Sleep1)
    case Sleep1 => Set(s, t, th.(at := Sleep2)).(tlock := Some(t))
    case Sleep2 => Set(s, t, th.(at := Sleep3)).(plock := None)
    case Sleep3 => Set(s, t, th.(at := Asleep)).(tlock := None)
    case Relock => Set(s, t, th.(at := Loop, base := th.i)).(plock := Some(t))
    case Copy => CopyLoop(s, t, th)
    case WakeEnd => Wakeup(s, t, th, WakesReaders(th.call), Release)
    case Release => Set(s, t, th.(at := Out)).(plock := None)
  }

  // A file can be used while it is open, and is closed once, when nobody is using it.
  predicate CanStart(s: Pipe, t: nat, call: Call) {
    && t < |s.threads| && s.threads[t].at.Out?
    && match call
       case Write(_) => s.wfd
       case Read(_) => s.rfd
       case Close(writable) =>
         if writable then s.wfd && (forall u: nat :: u < |s.threads| ==> !Writing(s.threads[u]))
         else s.rfd && (forall u: nat :: u < |s.threads| ==> !Reading(s.threads[u]))
  }

  function DoStart(s: Pipe, t: nat, call: Call): Pipe
    requires t < |s.threads|
  {
    var s1 := Set(s, t, s.threads[t].(call := call, at := Entry, i := 0, base := 0));
    if call == Close(true) then s1.(wfd := false) else if call == Close(false) then s1.(rfd := false) else s1
  }

  // kill makes a sleeper runnable and, with mark, sets killed.
  function DoKill(s: Pipe, t: nat, mark: bool): Pipe
    requires t < |s.threads|
  {
    var th := s.threads[t];
    Set(s, t, th.(at := if th.at.Asleep? then Relock else th.at, killed := th.killed || mark))
  }

  predicate Enabled(s: Pipe, st: Step) {
    match st
    case Start(t, call) => CanStart(s, t, call)
    case Act(t) => CanAct(s, t)
    case Kill(t, _) => t < |s.threads| && s.tlock == None
  }

  function Do(s: Pipe, st: Step): Pipe
    requires Enabled(s, st)
  {
    match st
    case Start(t, call) => DoStart(s, t, call)
    case Act(t) => DoAct(s, t)
    case Kill(t, mark) => DoKill(s, t, mark)
  }

  predicate Run(s: Pipe, steps: seq<Step>)
    decreases |steps|
  {
    steps == [] || (Enabled(s, steps[0]) && Run(Do(s, steps[0]), steps[1..]))
  }

  function Exec(s: Pipe, steps: seq<Step>): Pipe
    requires Run(s, steps)
    decreases |steps|
  {
    if steps == [] then s else Exec(Do(s, steps[0]), steps[1..])
  }

  // pipealloc
  ghost predicate Init(s: Pipe) {
    && |s.ring.data| == PIPESIZE && s.ring.nread == 0 && s.ring.nwrite == 0
    && s.readopen && s.writeopen && s.rfd && s.wfd
    && s.plock == None && s.tlock == None && s.written == [] && s.taken == []
    && (forall t: nat :: t < |s.threads| ==> s.threads[t].at.Out? && !s.threads[t].killed)
  }

  // ---- the invariant ----

  predicate HoldsPipe(at: At) {
    at.Loop? || at.WakeFirst? || at.Sleep1? || at.Sleep2? || at.Copy? || at.WakeEnd? || at.Release?
  }

  predicate HoldsTable(at: At) {
    at.Sleep2? || at.Sleep3?
  }

  predicate Fits(th: Thread) {
    && (th.at.Copy? ==> th.call.Read?)
    && (th.at.WakeFirst? ==> th.call.Write?)
    && (th.at.Sleep1? || th.at.Sleep2? || th.at.Sleep3? || th.at.Asleep? || th.at.Relock? ==> !th.call.Close?)
    && (th.call.Write? ==> th.base <= th.i <= |th.call.buf|)
  }

  predicate ThreadAt(s: Pipe, t: nat)
    requires t < |s.threads|
  {
    var th := s.threads[t];
    && (HoldsPipe(th.at) <==> s.plock == Some(t))
    && (HoldsTable(th.at) <==> s.tlock == Some(t))
    && (!th.at.Out? ==> Fits(th))
    && (Reading(th) ==> s.rfd)
    && (Writing(th) ==> s.wfd)
    && (th.call.Close? && !th.at.Out? ==> if th.call.writable then !s.wfd else !s.rfd)
    && (th.at.Sleep1? || th.at.Sleep2? ==>
          if th.call.Read? then Empty(s.ring) && s.writeopen else Full(s.ring) && s.readopen)
    && (th.at.WakeFirst? ==> Full(s.ring) && s.readopen)
  }

  // A thread that has let p->lock go to sleep, and that only a wakeup will bring back.
  predicate DownReader(th: Thread) { th.call.Read? && (th.at.Sleep3? || th.at.Asleep?) }

  predicate DownWriter(th: Thread) { th.call.Write? && (th.at.Sleep3? || th.at.Asleep?) }

  // Readers may be down: there is nothing to read and there may yet be, or whoever holds p->lock is
  // going to wake them. A writer in its loop has added exactly what is in the pipe since it took the lock.
  predicate ReadersMayWait(s: Pipe) {
    if s.plock.Some? && s.plock.value < |s.threads| then
      var h := s.threads[s.plock.value];
      match h.at
      case Loop =>
        if h.call.Write? then s.writeopen && |s.written| - |s.taken| == h.i - h.base else Empty(s.ring) && s.writeopen
      case WakeFirst => true
      case WakeEnd => WakesReaders(h.call) || (Empty(s.ring) && s.writeopen)
      case _ => Empty(s.ring) && s.writeopen
    else Empty(s.ring) && s.writeopen
  }

  predicate WritersMayWait(s: Pipe) {
    if s.plock.Some? && s.plock.value < |s.threads| then
      var h := s.threads[s.plock.value];
      match h.at
      case Copy => true
      case WakeEnd => !WakesReaders(h.call) || (Full(s.ring) && s.readopen)
      case _ => Full(s.ring) && s.readopen
    else Full(s.ring) && s.readopen
  }

  ghost predicate Threads(s: Pipe) {
    && (s.plock.Some? ==> s.plock.value < |s.threads|)
    && (s.tlock.Some? ==> s.tlock.value < |s.threads|)
    && (forall t: nat :: t < |s.threads| ==> ThreadAt(s, t))
    && (s.rfd ==> s.readopen) && (s.wfd ==> s.writeopen)
  }

  ghost predicate NoLostReader(s: Pipe) {
    forall t: nat :: t < |s.threads| && DownReader(s.threads[t]) ==> ReadersMayWait(s)
  }

  ghost predicate NoLostWriter(s: Pipe) {
    forall t: nat :: t < |s.threads| && DownWriter(s.threads[t]) ==> WritersMayWait(s)
  }

  ghost predicate Inv(s: Pipe) {
    Holds(s.ring, s.written, s.taken) && Threads(s) && NoLostReader(s) && NoLostWriter(s)
  }

  lemma InitHolds(s: Pipe)
    requires Init(s)
    ensures Inv(s)
  {
  }
}
