/** The shell's grammar over any kind of word: the parser's tree for a row of tokens, and a printer it undoes. */
module ShellSyntax {
  const MAXARGS: nat := 10

  // A word, one of | ( ) ; & < >, or >>.
  datatype Tok<W> = Word(w: W) | Sym(c: char) | Append

  // struct cmd: out tells O_WRONLY|O_CREATE on descriptor 1 from O_RDONLY on descriptor 0.
  datatype Cmd<W> =
    | Exec(argv: seq<W>)
    | Redir(cmd: Cmd<W>, file: W, out: bool)
    | Pipe(left: Cmd<W>, right: Cmd<W>)
    | List(left: Cmd<W>, right: Cmd<W>)
    | Back(cmd: Cmd<W>)

  datatype Redirection<W> = To(file: W, out: bool)

  datatype Result<W> = Ok(cmd: Cmd<W>, rest: seq<Tok<W>>) | Panic
  datatype RedirsResult<W> = RedirsOk(rs: seq<Redirection<W>>, rest: seq<Tok<W>>) | RedirsPanic

  predicate Starts<W>(ts: seq<Tok<W>>, c: char) {
    ts != [] && ts[0] == Sym(c)
  }

  predicate StartsRedir<W>(ts: seq<Tok<W>>) {
    Starts(ts, '<') || Starts(ts, '>') || (ts != [] && ts[0].Append?)
  }

  // What parseexec stops before.
  predicate StartsStop<W>(ts: seq<Tok<W>>) {
    Starts(ts, '|') || Starts(ts, ')') || Starts(ts, '&') || Starts(ts, ';')
  }

  // ---- the parser ----

  // parseredirs
  function Redirs<W>(ts: seq<Tok<W>>): (r: RedirsResult<W>)
    ensures r.RedirsOk? ==> |r.rest| <= |ts|
    decreases |ts|
  {
    if !StartsRedir(ts) then RedirsOk([], ts)
    else if |ts| < 2 || !ts[1].Word? then RedirsPanic
    else
      match Redirs(ts[2..])
      case RedirsOk(rs, rest) => RedirsOk([To(ts[1].w, !Starts(ts, '<'))] + rs, rest)
      case RedirsPanic => RedirsPanic
  }

  // Redirections wrapped round a command, the last one outermost.
  function Wrap<W>(cmd: Cmd<W>, rs: seq<Redirection<W>>): Cmd<W>
    decreases |rs|
  {
    if rs == [] then cmd else Wrap(Redir(cmd, rs[0].file, rs[0].out), rs[1..])
  }

  // parseexec's loop, with the arguments and redirections so far.
  function Args<W>(ts: seq<Tok<W>>, args: seq<W>, rs: seq<Redirection<W>>): (r: Result<W>)
    ensures r.Ok? ==> |r.rest| <= |ts|
    decreases |ts|
  {
    if ts == [] || StartsStop(ts) then Ok(Wrap(Exec(args), rs), ts)
    else if !ts[0].Word? || |args| + 1 >= MAXARGS then Panic
    else
      match Redirs(ts[1..])
      case RedirsOk(more, rest) => Args(rest, args + [ts[0].w], rs + more)
      case RedirsPanic => Panic
  }

  function Simple<W>(ts: seq<Tok<W>>): (r: Result<W>)
    ensures r.Ok? ==> |r.rest| <= |ts|
  {
    match Redirs(ts)
    case RedirsOk(rs, rest) => Args(rest, [], rs)
    case RedirsPanic => Panic
  }

  // parseexec
  function ExecPart<W>(ts: seq<Tok<W>>): (r: Result<W>)
    ensures r.Ok? ==> |r.rest| <= |ts|
    decreases |ts|, 1
  {
    if Starts(ts, '(') then Block(ts) else Simple(ts)
  }

  // parseblock
  function Block<W>(ts: seq<Tok<W>>): (r: Result<W>)
    requires Starts(ts, '(')
    ensures r.Ok? ==> |r.rest| <= |ts|
    decreases |ts|, 0
  {
    match Line(ts[1..])
    case Panic => Panic
    case Ok(cmd, rest) =>
      if !Starts(rest, ')') then Panic
      else
        match Redirs(rest[1..])
        case RedirsOk(rs, rest') => Ok(Wrap(cmd, rs), rest')
        case RedirsPanic => Panic
  }

  // parsepipe
  function PipePart<W>(ts: seq<Tok<W>>): (r: Result<W>)
    ensures r.Ok? ==> |r.rest| <= |ts|
    decreases |ts|, 2
  {
    match ExecPart(ts)
    case Panic => Panic
    case Ok(cmd, rest) =>
      if !Starts(rest, '|') then Ok(cmd, rest)
      else
        match PipePart(rest[1..])
        case Panic => Panic
        case Ok(right, rest') => Ok(Pipe(cmd, right), rest')
  }

  // parseline's loop over &.
  function Backs<W>(cmd: Cmd<W>, ts: seq<Tok<W>>): (r: (Cmd<W>, seq<Tok<W>>))
    ensures |r.1| <= |ts|
    decreases |ts|
  {
    if Starts(ts, '&') then Backs(Back(cmd), ts[1..]) else (cmd, ts)
  }

  // parseline
  function Line<W>(ts: seq<Tok<W>>): (r: Result<W>)
    ensures r.Ok? ==> |r.rest| <= |ts|
    decreases |ts|, 3
  {
    match PipePart(ts)
    case Panic => Panic
    case Ok(first, more) =>
      var (cmd, rest) := Backs(first, more);
      if !Starts(rest, ';') then Ok(cmd, rest)
      else
        match Line(rest[1..])
        case Panic => Panic
        case Ok(right, rest') => Ok(List(cmd, right), rest')
  }

  // ---- the printer ----

  function WordToks<W>(ws: seq<W>): (r: seq<Tok<W>>)
    decreases |ws|
  {
    if ws == [] then [] else [Word(ws[0])] + WordToks(ws[1..])
  }

  function RedirToks<W>(rs: seq<Redirection<W>>): (r: seq<Tok<W>>)
    decreases |rs|
  {
    if rs == [] then [] else [Sym(if rs[0].out then '>' else '<'), Word(rs[0].file)] + RedirToks(rs[1..])
  }

  function PrintLine<W>(c: Cmd<W>): seq<Tok<W>>
    decreases c, 3
  {
    match c
    case List(l, r) => PrintBack(l) + [Sym(';')] + PrintLine(r)
    case _ => PrintBack(c)
  }

  function PrintBack<W>(c: Cmd<W>): seq<Tok<W>>
    decreases c, 2
  {
    match c
    case Back(x) => PrintBack(x) + [Sym('&')]
    case _ => PrintPipe(c)
  }

  function PrintPipe<W>(c: Cmd<W>): seq<Tok<W>>
    decreases c, 1
  {
    match c
    case Pipe(l, r) => PrintExec(l) + [Sym('|')] + PrintPipe(r)
    case _ => PrintExec(c)
  }

  // Whatever is not a simple command goes in parentheses.
  function PrintExec<W>(c: Cmd<W>): seq<Tok<W>>
    decreases c, 0
  {
    match c
    case Exec(argv) => WordToks(argv)
    case Redir(x, file, out) => PrintExec(x) + RedirToks([To(file, out)])
    case Pipe(l, r) => [Sym('(')] + (PrintExec(l) + [Sym('|')] + PrintPipe(r)) + [Sym(')')]
    case List(l, r) => [Sym('(')] + (PrintBack(l) + [Sym(';')] + PrintLine(r)) + [Sym(')')]
    case Back(x) => [Sym('(')] + (PrintBack(x) + [Sym('&')]) + [Sym(')')]
  }

  // Every simple command has fewer than MAXARGS arguments.
  predicate Well<W>(c: Cmd<W>) {
    match c
    case Exec(argv) => |argv| < MAXARGS
    case Redir(x, _, _) => Well(x)
    case Pipe(l, r) => Well(l) && Well(r)
    case List(l, r) => Well(l) && Well(r)
    case Back(x) => Well(x)
  }

  // ---- the parser undoes the printer ----

  // What may come after a command of each kind.
  predicate AfterExec<W>(rest: seq<Tok<W>>) {
    rest == [] || StartsStop(rest)
  }

  predicate AfterPipe<W>(rest: seq<Tok<W>>) {
    AfterExec(rest) && !Starts(rest, '|')
  }

  predicate AfterLine<W>(rest: seq<Tok<W>>) {
    rest == [] || Starts(rest, ')')
  }

  lemma {:induction false} RedirsBack<W>(rs: seq<Redirection<W>>, rest: seq<Tok<W>>)
    requires !StartsRedir(rest)
    ensures Redirs(RedirToks(rs) + rest) == RedirsOk(rs, rest)
    decreases |rs|
  {
    var ts := RedirToks(rs) + rest;
    if rs == [] {
      assert ts == rest;
    } else {
      RedirsBack(rs[1..], rest);
      assert ts[2..] == RedirToks(rs[1..]) + rest;
      assert rs == [rs[0]] + rs[1..];
      assert ts[0] == Sym(if rs[0].out then '>' else '<') && ts[1] == Word(rs[0].file);
    }
  }

  // One word of a simple command, with the redirections that follow it.
  lemma ArgsStep<W>(w: W, tail: seq<Tok<W>>, args: seq<W>, more: seq<Redirection<W>>, rest: seq<Tok<W>>)
    requires |args| + 1 < MAXARGS && Redirs(tail) == RedirsOk(more, rest)
    ensures Args([Word(w)] + tail, args, []) == Args(rest, args + [w], more)
  {
    var ts := [Word(w)] + tail;
    assert ts[1..] == tail && ts[0] == Word(w);
    assert [] + more == more;
  }

  lemma NoRedirs<W>(ts: seq<Tok<W>>)
    requires !StartsRedir(ts)
    ensures Redirs(ts) == RedirsOk([], ts)
  {
  }

  lemma {:induction false} ArgsBack<W>(ws: seq<W>, args: seq<W>, rs: seq<Redirection<W>>, rest: seq<Tok<W>>)
    requires ws != [] && |args| + |ws| < MAXARGS && AfterExec(rest)
    ensures Args(WordToks(ws) + (RedirToks(rs) + rest), args, []) == Ok(Wrap(Exec(args + ws), rs), rest)
    decreases |ws|
  {
    var tail := RedirToks(rs) + rest;
    var next := WordToks(ws[1..]) + tail;
    assert WordToks(ws) + tail == [Word(ws[0])] + next;
    assert args + ws == (args + [ws[0]]) + ws[1..];
    hide Wrap;
    if |ws| == 1 {
      assert next == tail && args + ws == args + [ws[0]];
      RedirsBack(rs, rest);
      hide RedirToks, Redirs;
      ArgsStep(ws[0], next, args, rs, rest);
    } else {
      assert next[0] == Word(ws[1]);
      NoRedirs(next);
      hide RedirToks, Redirs;
      ArgsStep(ws[0], next, args, [], next);
      ArgsBack(ws[1..], args + [ws[0]], rs, rest);
    }
  }

  // The redirections of a command, and what they are wrapped round.
  function Base<W>(c: Cmd<W>): Cmd<W> {
    if c.Redir? then Base(c.cmd) else c
  }

  function Around<W>(c: Cmd<W>): seq<Redirection<W>> {
    if c.Redir? then Around(c.cmd) + [To(c.file, c.out)] else []
  }

  lemma {:induction false} WrapSnoc<W>(c: Cmd<W>, rs: seq<Redirection<W>>, r: Redirection<W>)
    ensures Wrap(c, rs + [r]) == Redir(Wrap(c, rs), r.file, r.out)
    decreases |rs|
  {
    if rs == [] {
      assert rs + [r] == [r];
    } else {
      assert (rs + [r])[1..] == rs[1..] + [r];
      WrapSnoc(Redir(c, rs[0].file, rs[0].out), rs[1..], r);
    }
  }

  lemma {:induction false} RedirToksSnoc<W>(rs: seq<Redirection<W>>, r: Redirection<W>)
    ensures RedirToks(rs + [r]) == RedirToks(rs) + RedirToks([r])
    decreases |rs|
  {
    if rs == [] {
      assert rs + [r] == [r];
    } else {
      assert (rs + [r])[1..] == rs[1..] + [r];
      RedirToksSnoc(rs[1..], r);
    }
  }

  lemma {:induction false} BaseAround<W>(c: Cmd<W>)
    ensures Wrap(Base(c), Around(c)) == c && PrintExec(c) == PrintExec(Base(c)) + RedirToks(Around(c))
    ensures !Base(c).Redir? && (Well(c) ==> Well(Base(c))) && (c.Redir? ==> Base(c) < c)
  {
    if c.Redir? {
      BaseAround(c.cmd);
      WrapSnoc(Base(c.cmd), Around(c.cmd), To(c.file, c.out));
      RedirToksSnoc(Around(c.cmd), To(c.file, c.out));
    }
  }

  // parseexec on a printed simple command: no words, only redirections.
  lemma RedirsOnlyBack<W>(rs: seq<Redirection<W>>, rest: seq<Tok<W>>)
    requires AfterExec(rest)
    ensures ExecPart(RedirToks(rs) + rest) == Ok(Wrap(Exec([]), rs), rest)
  {
    var tail := RedirToks(rs) + rest;
    RedirsBack(rs, rest);
    assert !Starts(tail, '(') by {
      if rs == [] {
        assert tail == rest;
      } else {
        assert tail[0] == Sym(if rs[0].out then '>' else '<');
      }
    }
    hide Redirs, RedirToks, Wrap;
    assert ExecPart(tail) == Simple(tail);
  }

  // And with words, after which the redirections come.
  lemma SimpleBack<W>(argv: seq<W>, rs: seq<Redirection<W>>, rest: seq<Tok<W>>)
    requires |argv| < MAXARGS && AfterExec(rest)
    ensures ExecPart(WordToks(argv) + (RedirToks(rs) + rest)) == Ok(Wrap(Exec(argv), rs), rest)
  {
    var tail := RedirToks(rs) + rest;
    var ts := WordToks(argv) + tail;
    if argv == [] {
      assert ts == tail;
      RedirsOnlyBack(rs, rest);
    } else {
      assert ts[0] == Word(argv[0]);
      hide WordToks, RedirToks, Wrap, Args;
      NoRedirs(ts);
      hide Redirs;
      ArgsBack(argv, [], rs, rest);
      assert [] + argv == argv;
      assert ExecPart(ts) == Simple(ts);
    }
  }

  lemma {:induction false} ExecBack<W>(c: Cmd<W>, rest: seq<Tok<W>>)
    requires Well(c) && AfterExec(rest)
    ensures ExecPart(PrintExec(c) + rest) == Ok(c, rest)
    decreases c, 10
  {
    BaseAround(c);
    var b, rs := Base(c), Around(c);
    var tail := RedirToks(rs) + rest;
    assert PrintExec(c) + rest == PrintExec(b) + tail;
    if b.Exec? {
      SimpleBack(b.argv, rs, rest);
    } else {
      Parenthesised(b);
      LineBack(b, [Sym(')')] + tail);
      hide PrintLine, PrintExec, RedirToks, Wrap;
      Regroup([Sym('(')], PrintLine(b), [Sym(')')], tail);
      BlockBack(PrintLine(b), b, rs, rest);
    }
  }

  lemma Regroup<T>(a: seq<T>, b: seq<T>, c: seq<T>, d: seq<T>)
    ensures a + b + c + d == a + (b + (c + d))
  {
  }

  // parseblock on a parenthesised command and its redirections.
  lemma BlockBack<W>(inner: seq<Tok<W>>, c: Cmd<W>, rs: seq<Redirection<W>>, rest: seq<Tok<W>>)
    requires AfterExec(rest)
    requires var tail := [Sym(')')] + (RedirToks(rs) + rest); Line(inner + tail) == Ok(c, tail)
    ensures ExecPart([Sym('(')] + (inner + ([Sym(')')] + (RedirToks(rs) + rest)))) == Ok(Wrap(c, rs), rest)
  {
    RedirsBack(rs, rest);
    hide Line, Redirs, RedirToks, Wrap;
    var after := RedirToks(rs) + rest;
    var tail := [Sym(')')] + after;
    var ts := [Sym('(')] + (inner + tail);
    assert ts[0] == Sym('(') && ts[1..] == inner + tail;
    assert tail[0] == Sym(')') && tail[1..] == after;
  }

  lemma Parenthesised<W>(c: Cmd<W>)
    requires c.Pipe? || c.List? || c.Back?
    ensures PrintExec(c) == [Sym('(')] + PrintLine(c) + [Sym(')')]
  {
    match c
    case Pipe(l, r) => assert PrintLine(c) == PrintPipe(c);
    case List(l, r) =>
    case Back(x) => assert PrintLine(c) == PrintBack(c);
  }

  lemma {:induction false} PipeBack<W>(c: Cmd<W>, rest: seq<Tok<W>>)
    requires Well(c) && AfterPipe(rest)
    ensures PipePart(PrintPipe(c) + rest) == Ok(c, rest)
    decreases c, if c.Pipe? then 1 else 11
  {
    if c.Pipe? {
      var bar: seq<Tok<W>> := [Sym('|')];
      var tail := bar + (PrintPipe(c.right) + rest);
      assert PrintPipe(c) + rest == PrintExec(c.left) + tail;
      ExecBack(c.left, tail);
      assert tail[1..] == PrintPipe(c.right) + rest;
      PipeBack(c.right, rest);
    } else {
      ExecBack(c, rest);
    }
  }

  // A command in the background, n deep, is its core and n ampersands.
  function Core<W>(c: Cmd<W>): Cmd<W> {
    if c.Back? then Core(c.cmd) else c
  }

  function Amps<W>(c: Cmd<W>): seq<Tok<W>> {
    if c.Back? then Amps(c.cmd) + [Sym('&')] else []
  }

  lemma {:induction false} BackBack<W>(c: Cmd<W>, rest: seq<Tok<W>>)
    requires Well(c) && AfterPipe(rest)
    ensures PipePart(PrintBack(c) + rest) == Ok(Core(c), Amps(c) + rest)
    decreases c, if c.Back? || c.Pipe? then 2 else 12
  {
    if c.Back? {
      var amp: seq<Tok<W>> := [Sym('&')];
      assert PrintBack(c) + rest == PrintBack(c.cmd) + (amp + rest);
      BackBack(c.cmd, amp + rest);
      assert Amps(c) + rest == Amps(c.cmd) + (amp + rest);
    } else {
      PipeBack(c, rest);
      assert Amps(c) + rest == rest;
    }
  }

  lemma {:induction false} BacksBack<W>(c: Cmd<W>, rest: seq<Tok<W>>)
    ensures Backs(Core(c), Amps(c) + rest) == Backs(c, rest)
  {
    if c.Back? {
      var amp: seq<Tok<W>> := [Sym('&')];
      assert Amps(c) + rest == Amps(c.cmd) + (amp + rest);
      BacksBack(c.cmd, amp + rest);
      assert (amp + rest)[1..] == rest;
    } else {
      assert Amps(c) + rest == rest;
    }
  }

  // parseline on a printed command line.
  lemma {:induction false} LineBack<W>(c: Cmd<W>, rest: seq<Tok<W>>)
    requires Well(c) && AfterLine(rest)
    ensures Line(PrintLine(c) + rest) == Ok(c, rest)
    decreases c, if c.Exec? || c.Redir? then 13 else 3
  {
    if c.List? {
      var semi: seq<Tok<W>> := [Sym(';')];
      var tail := semi + (PrintLine(c.right) + rest);
      assert PrintLine(c) + rest == PrintBack(c.left) + tail;
      BackBack(c.left, tail);
      BacksBack(c.left, tail);
      assert tail[1..] == PrintLine(c.right) + rest;
      LineBack(c.right, rest);
    } else {
      BackBack(c, rest);
      BacksBack(c, rest);
    }
  }

  // Parsing the printed form of any command tree gives that tree.
  lemma ParsePrint<W>(c: Cmd<W>)
    requires Well(c)
    ensures Line(PrintLine(c)) == Ok(c, [])
  {
    assert PrintLine(c) + [] == PrintLine(c);
    LineBack(c, []);
  }

  // ---- every tree the parser makes is one the printer takes ----

  lemma {:induction false} WrapWell<W>(c: Cmd<W>, rs: seq<Redirection<W>>)
    ensures Well(Wrap(c, rs)) <==> Well(c)
    decreases |rs|
  {
    if rs != [] {
      WrapWell(Redir(c, rs[0].file, rs[0].out), rs[1..]);
    }
  }

  lemma {:induction false} ArgsWell<W>(ts: seq<Tok<W>>, args: seq<W>, rs: seq<Redirection<W>>)
    requires |args| < MAXARGS
    ensures Args(ts, args, rs).Ok? ==> Well(Args(ts, args, rs).cmd)
    decreases |ts|
  {
    if ts == [] || StartsStop(ts) {
      WrapWell(Exec(args), rs);
    } else if ts[0].Word? && |args| + 1 < MAXARGS {
      var r := Redirs(ts[1..]);
      if r.RedirsOk? {
        ArgsWell(r.rest, args + [ts[0].w], rs + r.rs);
      }
    }
  }

  lemma {:induction false} ExecWell<W>(ts: seq<Tok<W>>)
    ensures ExecPart(ts).Ok? ==> Well(ExecPart(ts).cmd)
    decreases |ts|, 1
  {
    if Starts(ts, '(') {
      LineWell(ts[1..]);
      var r := Line(ts[1..]);
      if r.Ok? && Starts(r.rest, ')') && Redirs(r.rest[1..]).RedirsOk? {
        WrapWell(r.cmd, Redirs(r.rest[1..]).rs);
      }
    } else if Redirs(ts).RedirsOk? {
      ArgsWell(Redirs(ts).rest, [], Redirs(ts).rs);
    }
  }

  lemma {:induction false} PipeWell<W>(ts: seq<Tok<W>>)
    ensures PipePart(ts).Ok? ==> Well(PipePart(ts).cmd)
    decreases |ts|, 2
  {
    ExecWell(ts);
    var r := ExecPart(ts);
    if r.Ok? && Starts(r.rest, '|') {
      PipeWell(r.rest[1..]);
    }
  }

  lemma {:induction false} BacksWell<W>(c: Cmd<W>, ts: seq<Tok<W>>)
    ensures Well(Backs(c, ts).0) <==> Well(c)
    decreases |ts|
  {
    if Starts(ts, '&') {
      BacksWell(Back(c), ts[1..]);
    }
  }

  lemma {:induction false} LineWell<W>(ts: seq<Tok<W>>)
    ensures Line(ts).Ok? ==> Well(Line(ts).cmd)
    decreases |ts|, 3
  {
    PipeWell(ts);
    var r := PipePart(ts);
    if r.Ok? {
      BacksWell(r.cmd, r.rest);
      var (cmd, rest) := Backs(r.cmd, r.rest);
      if Starts(rest, ';') {
        LineWell(rest[1..]);
      }
    }
  }
}
