/** Parsing spans of the line and reading them is the same as parsing the words they read as; and every span a
    command keeps is a whole word of the line. */
module ShellText {
  import opened ShellSyntax
  import opened ShellLexer

  function TextCmd(s: string, c: Cmd<Span>): Cmd<string> {
    match c
    case Exec(argv) => Exec(TextWords(s, argv))
    case Redir(x, file, out) => Redir(TextCmd(s, x), TextOf(s, file), out)
    case Pipe(l, r) => Pipe(TextCmd(s, l), TextCmd(s, r))
    case List(l, r) => List(TextCmd(s, l), TextCmd(s, r))
    case Back(x) => Back(TextCmd(s, x))
  }

  function TextWords(s: string, ws: seq<Span>): (r: seq<string>)
    ensures |r| == |ws|
  {
    seq(|ws|, i requires 0 <= i < |ws| => TextOf(s, ws[i]))
  }

  function TextRedirs(s: string, rs: seq<Redirection<Span>>): (r: seq<Redirection<string>>)
    ensures |r| == |rs|
  {
    seq(|rs|, i requires 0 <= i < |rs| => To(TextOf(s, rs[i].file), rs[i].out))
  }

  function TextResult(s: string, r: Result<Span>): Result<string> {
    if r.Ok? then Ok(TextCmd(s, r.cmd), TextToks(s, r.rest)) else Panic
  }

  function TextRedirsResult(s: string, r: RedirsResult<Span>): RedirsResult<string> {
    if r.RedirsOk? then RedirsOk(TextRedirs(s, r.rs), TextToks(s, r.rest)) else RedirsPanic
  }

  // ---- reading commutes with parsing ----

  lemma StartsText(s: string, ts: seq<Tok<Span>>, c: char)
    ensures Starts(TextToks(s, ts), c) <==> Starts(ts, c)
    ensures StartsRedir(TextToks(s, ts)) <==> StartsRedir(ts)
    ensures StartsStop(TextToks(s, ts)) <==> StartsStop(ts)
  {
  }

  lemma TextRest(s: string, ts: seq<Tok<Span>>, n: nat)
    requires n <= |ts|
    ensures TextToks(s, ts[n..]) == TextToks(s, ts)[n..]
  {
  }

  lemma TextRedirsCons(s: string, r: Redirection<Span>, rs: seq<Redirection<Span>>)
    ensures TextRedirs(s, [r] + rs) == [To(TextOf(s, r.file), r.out)] + TextRedirs(s, rs)
  {
  }

  lemma {:induction false} RedirsText(s: string, ts: seq<Tok<Span>>)
    ensures Redirs(TextToks(s, ts)) == TextRedirsResult(s, Redirs(ts))
    decreases |ts|
  {
    StartsText(s, ts, '<');
    if StartsRedir(ts) && |ts| >= 2 && ts[1].Word? {
      TextRest(s, ts, 2);
      RedirsText(s, ts[2..]);
      var r := Redirs(ts[2..]);
      if r.RedirsOk? {
        TextRedirsCons(s, To(ts[1].w, !Starts(ts, '<')), r.rs);
      }
    }
  }

  lemma {:induction false} WrapText(s: string, c: Cmd<Span>, rs: seq<Redirection<Span>>)
    ensures Wrap(TextCmd(s, c), TextRedirs(s, rs)) == TextCmd(s, Wrap(c, rs))
    decreases |rs|
  {
    if rs != [] {
      assert TextRedirs(s, rs)[1..] == TextRedirs(s, rs[1..]);
      WrapText(s, Redir(c, rs[0].file, rs[0].out), rs[1..]);
    }
  }

  lemma {:induction false} ArgsText(s: string, ts: seq<Tok<Span>>, args: seq<Span>, rs: seq<Redirection<Span>>)
    ensures Args(TextToks(s, ts), TextWords(s, args), TextRedirs(s, rs)) == TextResult(s, Args(ts, args, rs))
    decreases |ts|
  {
    StartsText(s, ts, '|');
    if ts == [] || StartsStop(ts) {
      WrapText(s, Exec(args), rs);
    } else if ts[0].Word? && |args| + 1 < MAXARGS {
      TextRest(s, ts, 1);
      RedirsText(s, ts[1..]);
      var r := Redirs(ts[1..]);
      if r.RedirsOk? {
        ArgsText(s, r.rest, args + [ts[0].w], rs + r.rs);
        assert TextWords(s, args + [ts[0].w]) == TextWords(s, args) + [TextOf(s, ts[0].w)];
        assert TextRedirs(s, rs + r.rs) == TextRedirs(s, rs) + TextRedirs(s, r.rs);
      }
    }
  }

  lemma {:induction false} ExecText(s: string, ts: seq<Tok<Span>>)
    ensures ExecPart(TextToks(s, ts)) == TextResult(s, ExecPart(ts))
    decreases |ts|, 1
  {
    StartsText(s, ts, '(');
    if Starts(ts, '(') {
      BlockText(s, ts);
    } else {
      SimpleText(s, ts);
    }
  }

  lemma SimpleText(s: string, ts: seq<Tok<Span>>)
    ensures Simple(TextToks(s, ts)) == TextResult(s, Simple(ts))
  {
    RedirsText(s, ts);
    var r := Redirs(ts);
    if r.RedirsOk? {
      ArgsText(s, r.rest, [], r.rs);
      assert TextWords(s, []) == [];
    }
  }

  lemma {:induction false} BlockText(s: string, ts: seq<Tok<Span>>)
    requires Starts(ts, '(')
    ensures Starts(TextToks(s, ts), '(') && Block(TextToks(s, ts)) == TextResult(s, Block(ts))
    decreases |ts|, 0
  {
    hide Redirs;
    TextRest(s, ts, 1);
    LineText(s, ts[1..]);
    var r := Line(ts[1..]);
    if r.Ok? {
      StartsText(s, r.rest, ')');
      if Starts(r.rest, ')') {
        TextRest(s, r.rest, 1);
        RedirsText(s, r.rest[1..]);
        if Redirs(r.rest[1..]).RedirsOk? {
          WrapText(s, r.cmd, Redirs(r.rest[1..]).rs);
        }
      }
    }
  }

  lemma {:induction false} PipeText(s: string, ts: seq<Tok<Span>>)
    ensures PipePart(TextToks(s, ts)) == TextResult(s, PipePart(ts))
    decreases |ts|, 2
  {
    hide ExecPart;
    ExecText(s, ts);
    var r := ExecPart(ts);
    if r.Ok? {
      StartsText(s, r.rest, '|');
      if Starts(r.rest, '|') {
        TextRest(s, r.rest, 1);
        PipeText(s, r.rest[1..]);
      }
    }
  }

  lemma {:induction false} BacksText(s: string, c: Cmd<Span>, ts: seq<Tok<Span>>)
    ensures Backs(TextCmd(s, c), TextToks(s, ts)) == (TextCmd(s, Backs(c, ts).0), TextToks(s, Backs(c, ts).1))
    decreases |ts|
  {
    StartsText(s, ts, '&');
    if Starts(ts, '&') {
      TextRest(s, ts, 1);
      BacksText(s, Back(c), ts[1..]);
    }
  }

  // Reading what was parsed is parsing what was read.
  lemma {:induction false} LineText(s: string, ts: seq<Tok<Span>>)
    ensures Line(TextToks(s, ts)) == TextResult(s, Line(ts))
    decreases |ts|, 3
  {
    hide PipePart;
    PipeText(s, ts);
    var r := PipePart(ts);
    if r.Ok? {
      BacksText(s, r.cmd, r.rest);
      var (cmd, rest) := Backs(r.cmd, r.rest);
      StartsText(s, rest, ';');
      if Starts(rest, ';') {
        TextRest(s, rest, 1);
        LineText(s, rest[1..]);
      }
    }
  }

  // ---- every span kept is a whole word ----

  ghost predicate CmdWords(s: string, c: Cmd<Span>) {
    match c
    case Exec(argv) => forall i :: 0 <= i < |argv| ==> WordAt(s, argv[i])
    case Redir(x, file, _) => CmdWords(s, x) && WordAt(s, file)
    case Pipe(l, r) => CmdWords(s, l) && CmdWords(s, r)
    case List(l, r) => CmdWords(s, l) && CmdWords(s, r)
    case Back(x) => CmdWords(s, x)
  }

  ghost predicate RedirWords(s: string, rs: seq<Redirection<Span>>) {
    forall i :: 0 <= i < |rs| ==> WordAt(s, rs[i].file)
  }

  ghost predicate ResultWords(s: string, r: Result<Span>) {
    r.Ok? ==> CmdWords(s, r.cmd) && AllWords(s, r.rest)
  }

  lemma {:induction false} RedirsWords(s: string, ts: seq<Tok<Span>>)
    requires AllWords(s, ts)
    ensures Redirs(ts).RedirsOk? ==> RedirWords(s, Redirs(ts).rs) && AllWords(s, Redirs(ts).rest)
    decreases |ts|
  {
    hide WordAt;
    if StartsRedir(ts) && |ts| >= 2 && ts[1].Word? {
      RedirsWords(s, ts[2..]);
    }
  }

  lemma {:induction false} WrapWords(s: string, c: Cmd<Span>, rs: seq<Redirection<Span>>)
    requires CmdWords(s, c) && RedirWords(s, rs)
    ensures CmdWords(s, Wrap(c, rs))
    decreases |rs|
  {
    hide WordAt;
    if rs != [] {
      WrapWords(s, Redir(c, rs[0].file, rs[0].out), rs[1..]);
    }
  }

  lemma {:induction false} ArgsWords(s: string, ts: seq<Tok<Span>>, args: seq<Span>, rs: seq<Redirection<Span>>)
    requires AllWords(s, ts) && RedirWords(s, rs) && CmdWords(s, Exec(args))
    ensures ResultWords(s, Args(ts, args, rs))
    decreases |ts|
  {
    hide WordAt;
    if ts == [] || StartsStop(ts) {
      WrapWords(s, Exec(args), rs);
    } else if ts[0].Word? && |args| + 1 < MAXARGS {
      RedirsWords(s, ts[1..]);
      var r := Redirs(ts[1..]);
      if r.RedirsOk? {
        ArgsWords(s, r.rest, args + [ts[0].w], rs + r.rs);
      }
    }
  }

  lemma {:induction false} ExecWords(s: string, ts: seq<Tok<Span>>)
    requires AllWords(s, ts)
    ensures ResultWords(s, ExecPart(ts))
    decreases |ts|, 1
  {
    hide WordAt, Redirs, Args;
    if Starts(ts, '(') {
      LineWords(s, ts[1..]);
      var r := Line(ts[1..]);
      if r.Ok? && Starts(r.rest, ')') {
        RedirsWords(s, r.rest[1..]);
        if Redirs(r.rest[1..]).RedirsOk? {
          WrapWords(s, r.cmd, Redirs(r.rest[1..]).rs);
        }
      }
    } else {
      RedirsWords(s, ts);
      if Redirs(ts).RedirsOk? {
        ArgsWords(s, Redirs(ts).rest, [], Redirs(ts).rs);
      }
    }
  }

  lemma {:induction false} PipeWords(s: string, ts: seq<Tok<Span>>)
    requires AllWords(s, ts)
    ensures ResultWords(s, PipePart(ts))
    decreases |ts|, 2
  {
    hide WordAt, ExecPart;
    ExecWords(s, ts);
    var r := ExecPart(ts);
    if r.Ok? && Starts(r.rest, '|') {
      PipeWords(s, r.rest[1..]);
    }
  }

  lemma {:induction false} BacksWords(s: string, c: Cmd<Span>, ts: seq<Tok<Span>>)
    requires CmdWords(s, c) && AllWords(s, ts)
    ensures CmdWords(s, Backs(c, ts).0) && AllWords(s, Backs(c, ts).1)
    decreases |ts|
  {
    hide WordAt;
    if Starts(ts, '&') {
      BacksWords(s, Back(c), ts[1..]);
    }
  }

  lemma {:induction false} LineWords(s: string, ts: seq<Tok<Span>>)
    requires AllWords(s, ts)
    ensures ResultWords(s, Line(ts))
    decreases |ts|, 3
  {
    hide WordAt, PipePart;
    PipeWords(s, ts);
    var r := PipePart(ts);
    if r.Ok? {
      BacksWords(s, r.cmd, r.rest);
      var (cmd, rest) := Backs(r.cmd, r.rest);
      if Starts(rest, ';') {
        LineWords(s, rest[1..]);
      }
    }
  }
}
