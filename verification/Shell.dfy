/** sh.c's recursive-descent parser over a line with a moving cursor, and its in-place termination of the words. */
module Shell {
  import opened ShellSyntax
  import opened ShellLexer
  import opened ShellText

  // A parsing function's outcome: a command and the cursor, or a panic.
  datatype Parsed = Parsed(cmd: Cmd<Span>, p: nat) | Failed
  datatype Redirected = Redirected(rs: seq<Redirection<Span>>, p: nat) | NoFile

  ghost predicate Agrees(s: string, r: Result<Span>, o: Parsed) {
    match o
    case Parsed(cmd, p) => p <= |s| && r == Ok(cmd, Toks(s, p))
    case Failed => r == Panic
  }

  // Where gettoken stands after the first token of ts, and what it returns for it.
  ghost predicate Took(ts: seq<Tok<Span>>, ret: char, q: nat, eq: nat, rest: seq<Tok<Span>>) {
    if ts == [] then ret == '\0' && rest == []
    else rest == ts[1..] && Kind(ts[0], ret, q, eq)
  }

  predicate AllSpace(s: string, p: nat, q: nat)
    requires q <= |s|
  {
    forall i :: p <= i < q ==> IsSpace(s[i])
  }

  // gettoken from p: the token lies from q to eq, after white space, and the cursor stops at what comes next.
  predicate Found(s: string, p: nat, ret: char, q: nat, eq: nat, next: nat) {
    && p <= q <= eq <= next <= |s| && AllSpace(s, p, q) && AllSpace(s, eq, next)
    && (q < |s| ==> !IsSpace(s[q])) && (next < |s| ==> !IsSpace(s[next]))
    && if q == |s| then ret == '\0' && eq == q else Spelled(s, ret, q, eq)
  }

  method SkipWhite(s: string, p: nat) returns (r: nat)
    requires p <= |s|
    ensures r == SkipSpace(s, p)
  {
    r := p;
    while r < |s| && IsSpace(s[r])
      invariant p <= r <= |s| && SkipSpace(s, p) == SkipSpace(s, r)
    {
      r := r + 1;
    }
  }

  // What gettoken returns for the text of one token.
  predicate Spelled(s: string, ret: char, q: nat, eq: nat)
    requires q <= eq <= |s|
  {
    if ret == 'a' then IsWord(s[q..eq]) && (eq < |s| ==> !IsWordChar(s[eq]))
    else if ret == '+' then s[q..eq] == ">>"
    else s[q..eq] == [ret] && IsSymbol(ret) && (ret == '>' && eq < |s| ==> s[eq] != '>')
  }

  predicate Kind(t: Tok<Span>, ret: char, q: nat, eq: nat) {
    match t
    case Word(w) => ret == 'a' && w == Span(q, eq)
    case Sym(c) => ret == c && IsSymbol(c)
    case Append => ret == '+'
  }

  // gettoken's switch.
  method ScanToken(s: string, q: nat) returns (ret: char, e: nat)
    requires q < |s| && !IsSpace(s[q]) && '\0' !in s
    ensures e == TokAt(s, q).1 && Kind(TokAt(s, q).0, ret, q, e) && Spelled(s, ret, q, e)
  {
    e := q;
    if s[q] == '>' {
      e := e + 1;
      ret := '>';
      if e < |s| && s[e] == '>' {
        ret := '+';
        e := e + 1;
        assert s[q..e] == ">>";
      }
      assert ret == '>' ==> s[q..e] == [ret];
    } else if s[q] == '|' || s[q] == '(' || s[q] == ')' || s[q] == ';' || s[q] == '&' || s[q] == '<' {
      ret := s[q];
      e := e + 1;
      assert s[q..e] == [ret];
    } else {
      ret := 'a';
      while e < |s| && !IsSpace(s[e]) && !IsSymbol(s[e])
        invariant q <= e <= |s| && WordEnd(s, q) == WordEnd(s, e)
      {
        e := e + 1;
      }
      assert WordEnd(s, q) == e;
      assert IsWord(s[q..e]);
    }
  }

  method GetToken(s: string, p: nat) returns (ret: char, q: nat, eq: nat, next: nat)
    requires p <= |s| && '\0' !in s
    ensures p <= next <= |s| && Took(Toks(s, p), ret, q, eq, Toks(s, next))
    ensures Found(s, p, ret, q, eq, next)
  {
    hide TokAt, Spelled, IsSpace;
    q := SkipWhite(s, p);
    if q == |s| {
      ret, eq := '\0', q;
    } else {
      ret, eq := ScanToken(s, q);
    }
    next := SkipWhite(s, eq);
    ToksSkip(s, eq, next);
  }

  // Is the next thing on the line the symbol c? The cursor moves up to it.
  method Peek(s: string, p: nat, toks: string) returns (found: bool, next: nat)
    requires p <= |s|
    ensures p <= next <= |s| && next == SkipSpace(s, p) && Toks(s, next) == Toks(s, p)
    ensures found <==> next < |s| && s[next] in toks
  {
    next := SkipWhite(s, p);
    ToksSkip(s, p, next);
    found := next < |s| && s[next] in toks;
  }

  // What peek sees decides how the tokens start.
  lemma Peeked(s: string, p: nat, c: char)
    requires p <= |s| && p == SkipSpace(s, p) && IsSymbol(c) && c != '>'
    ensures Starts(Toks(s, p), c) <==> p < |s| && s[p] == c
  {
  }

  lemma PeekedRedir(s: string, p: nat)
    requires p <= |s| && p == SkipSpace(s, p)
    ensures StartsRedir(Toks(s, p)) <==> p < |s| && s[p] in "<>"
  {
  }

  lemma PeekedStop(s: string, p: nat)
    requires p <= |s| && p == SkipSpace(s, p)
    ensures StartsStop(Toks(s, p)) <==> p < |s| && s[p] in "|)&;"
  {
    Peeked(s, p, '|');
    Peeked(s, p, ')');
    Peeked(s, p, '&');
    Peeked(s, p, ';');
    hide Toks, SkipSpace;
  }

  method PeekOne(s: string, p: nat, c: char) returns (found: bool, next: nat)
    requires p <= |s| && IsSymbol(c) && c != '>'
    ensures p <= next <= |s| && Toks(s, next) == Toks(s, p) && (found <==> Starts(Toks(s, p), c))
  {
    found, next := Peek(s, p, [c]);
    Peeked(s, next, c);
  }

  // Redirections found so far, before those still to come.
  function Before(rs: seq<Redirection<Span>>, r: RedirsResult<Span>): RedirsResult<Span> {
    if r.RedirsOk? then RedirsOk(rs + r.rs, r.rest) else RedirsPanic
  }

  method ParseRedirs(s: string, p: nat) returns (o: Redirected)
    requires p <= |s| && '\0' !in s
    ensures o.Redirected? ==> o.p <= |s| && Redirs(Toks(s, p)) == RedirsOk(o.rs, Toks(s, o.p))
    ensures o.NoFile? ==> Redirs(Toks(s, p)) == RedirsPanic
  {
    hide Toks;
    var rs: seq<Redirection<Span>> := [];
    var found, a: nat := Peek(s, p, "<>");
    PeekedRedir(s, a);
    assert Before([], Redirs(Toks(s, a))) == Redirs(Toks(s, p));
    while found
      invariant a <= |s| && (found <==> StartsRedir(Toks(s, a)))
      invariant Before(rs, Redirs(Toks(s, a))) == Redirs(Toks(s, p))
      decreases |Toks(s, a)|
    {
      ghost var ts := Toks(s, a);
      var tok, _, _, b := GetToken(s, a);
      var kind, q, eq, c := GetToken(s, b);
      if kind != 'a' {
        return NoFile;
      }
      assert ts[1] == Word(Span(q, eq)) && Toks(s, c) == ts[2..];
      var one := To(Span(q, eq), tok != '<');
      RedirsOne(ts, one, Span(q, eq));
      assert forall r: RedirsResult<Span> :: r.RedirsOk? ==> rs + ([one] + r.rs) == (rs + [one]) + r.rs;
      rs := rs + [one];
      found, a := Peek(s, c, "<>");
      PeekedRedir(s, a);
    }
    assert rs + [] == rs;
    o := Redirected(rs, a);
  }

  lemma RedirsOne(ts: seq<Tok<Span>>, one: Redirection<Span>, w: Span)
    requires StartsRedir(ts) && |ts| >= 2 && ts[1] == Word(w) && one == To(w, !Starts(ts, '<'))
    ensures Redirs(ts) == Before([one], Redirs(ts[2..]))
  {
  }

  ghost function Measure(s: string, p: nat): nat {
    if p <= |s| then |Toks(s, p)| else 0
  }

  method ParseExec(s: string, p: nat) returns (o: Parsed)
    requires p <= |s| && '\0' !in s
    ensures Agrees(s, ExecPart(Toks(s, p)), o)
    decreases Measure(s, p), 1
  {
    hide Toks;
    var block, a: nat := PeekOne(s, p, '(');
    if block {
      o := ParseBlock(s, a);
    } else {
      o := ParseSimple(s, a);
    }
  }

  // parseexec for anything but a block: redirections, and words with redirections between them.
  method ParseSimple(s: string, p: nat) returns (o: Parsed)
    requires p <= |s| && '\0' !in s
    ensures Agrees(s, Simple(Toks(s, p)), o)
  {
    hide Toks, Redirs, Wrap;
    var args: seq<Span> := [];
    var first := ParseRedirs(s, p);
    if first.NoFile? {
      return Failed;
    }
    var rs := first.rs;
    var stop, a: nat := Peek(s, first.p, "|)&;");
    PeekedStop(s, a);
    var done := stop;
    while !done
      invariant a <= |s| && |args| < MAXARGS
      invariant Args(Toks(s, a), args, rs) == Simple(Toks(s, p))
      invariant done <==> StartsStop(Toks(s, a))
      decreases |Toks(s, a)|
    {
      var tok, q, eq, b := GetToken(s, a);
      if tok == '\0' {
        break;
      }
      if tok != 'a' {
        return Failed;
      }
      if |args| + 1 >= MAXARGS {
        return Failed;
      }
      args := args + [Span(q, eq)];
      var more := ParseRedirs(s, b);
      if more.NoFile? {
        return Failed;
      }
      rs := rs + more.rs;
      stop, a := Peek(s, more.p, "|)&;");
      PeekedStop(s, a);
      done := stop;
    }
    o := Parsed(Wrap(Exec(args), rs), a);
  }

  method ParseBlock(s: string, p: nat) returns (o: Parsed)
    requires p <= |s| && '\0' !in s && Starts(Toks(s, p), '(')
    ensures Agrees(s, Block(Toks(s, p)), o)
    decreases Measure(s, p), 0
  {
    hide Toks, Redirs, Wrap;
    var _, _, _, a := GetToken(s, p);
    var inner := ParseLine(s, a);
    if inner.Failed? {
      return Failed;
    }
    var closed, b: nat := PeekOne(s, inner.p, ')');
    if !closed {
      return Failed;
    }
    var _, _, _, c := GetToken(s, b);
    var after := ParseRedirs(s, c);
    if after.NoFile? {
      return Failed;
    }
    o := Parsed(Wrap(inner.cmd, after.rs), after.p);
  }

  method ParsePipe(s: string, p: nat) returns (o: Parsed)
    requires p <= |s| && '\0' !in s
    ensures Agrees(s, PipePart(Toks(s, p)), o)
    decreases Measure(s, p), 2
  {
    hide Toks, ExecPart;
    o := ParseExec(s, p);
    if o.Parsed? {
      var bar, a: nat := PeekOne(s, o.p, '|');
      if !bar {
        o := Parsed(o.cmd, a);
      } else {
        var _, _, _, b := GetToken(s, a);
        var right := ParsePipe(s, b);
        o := if right.Parsed? then Parsed(Pipe(o.cmd, right.cmd), right.p) else Failed;
      }
    }
  }

  method ParseLine(s: string, p: nat) returns (o: Parsed)
    requires p <= |s| && '\0' !in s
    ensures Agrees(s, Line(Toks(s, p)), o)
    decreases Measure(s, p), 3
  {
    hide Toks, PipePart;
    o := ParsePipe(s, p);
    if o.Parsed? {
      var cmd, a: nat := ParseBacks(s, o.cmd, o.p);
      var semi, b: nat := PeekOne(s, a, ';');
      if !semi {
        o := Parsed(cmd, b);
      } else {
        var _, _, _, c := GetToken(s, b);
        var right := ParseLine(s, c);
        o := if right.Parsed? then Parsed(List(cmd, right.cmd), right.p) else Failed;
      }
    }
  }

  // parseline's loop over &.
  method ParseBacks(s: string, first: Cmd<Span>, p: nat) returns (cmd: Cmd<Span>, next: nat)
    requires p <= |s| && '\0' !in s
    ensures next <= |s| && Backs(first, Toks(s, p)) == (cmd, Toks(s, next))
  {
    hide Toks;
    cmd := first;
    var amp;
    amp, next := PeekOne(s, p, '&');
    while amp
      invariant next <= |s| && (amp <==> Starts(Toks(s, next), '&'))
      invariant Backs(first, Toks(s, p)) == Backs(cmd, Toks(s, next))
      decreases |Toks(s, next)|
    {
      var _, _, _, a := GetToken(s, next);
      cmd := Back(cmd);
      amp, next := PeekOne(s, a, '&');
    }
  }

  // parsecmd before nulterminate: the whole line must be a command.
  method ParseCommand(s: string) returns (o: Parsed)
    requires '\0' !in s
    ensures o.Parsed? ==> Line(Toks(s, 0)) == Ok(o.cmd, []) && CmdWords(s, o.cmd) && Well(o.cmd)
    ensures o.Failed? ==> Line(Toks(s, 0)).Panic? || Line(Toks(s, 0)).rest != []
  {
    o := ParseLine(s, 0);
    if o.Parsed? {
      var _, a: nat := Peek(s, o.p, "");
      if a != |s| {
        o := Failed;
      } else {
        ToksAreWords(s, 0);
        LineWords(s, Toks(s, 0));
        LineWell(Toks(s, 0));
      }
    }
  }

  // ---- nulterminate ----

  // A word of the command ends at i.
  ghost predicate EndsAt(c: Cmd<Span>, i: nat) {
    match c
    case Exec(argv) => exists k :: 0 <= k < |argv| && argv[k].eq == i
    case Redir(x, file, _) => EndsAt(x, i) || file.eq == i
    case Pipe(l, r) => EndsAt(l, i) || EndsAt(r, i)
    case List(l, r) => EndsAt(l, i) || EndsAt(r, i)
    case Back(x) => EndsAt(x, i)
  }

  // The buffer with a NUL at the end of every word of the command.
  ghost predicate Cleared(before: seq<char>, after: seq<char>, c: Cmd<Span>) {
    |after| == |before| && forall i: nat :: i < |after| ==> after[i] == (if EndsAt(c, i) then '\0' else before[i])
  }

  method NulTerminate(buf: array<char>, cmd: Cmd<Span>, ghost s: string)
    requires CmdWords(s, cmd) && |s| < buf.Length
    modifies buf
    ensures Cleared(old(buf[..]), buf[..], cmd)
    decreases cmd
  {
    hide WordAt;
    match cmd
    case Exec(argv) =>
      TerminateWords(buf, argv, s);
    case Redir(x, file, out) =>
      NulTerminate(buf, x, s);
      WordInside(s, file);
      buf[file.eq] := '\0';
    case Pipe(l, r) =>
      NulTerminate(buf, l, s);
      NulTerminate(buf, r, s);
    case List(l, r) =>
      NulTerminate(buf, l, s);
      NulTerminate(buf, r, s);
    case Back(x) =>
      NulTerminate(buf, x, s);
  }

  lemma WordInside(s: string, w: Span)
    requires WordAt(s, w)
    ensures w.q < w.eq <= |s|
  {
  }

  method TerminateWords(buf: array<char>, argv: seq<Span>, ghost s: string)
    requires CmdWords(s, Exec(argv)) && |s| < buf.Length
    modifies buf
    ensures Cleared(old(buf[..]), buf[..], Exec(argv))
  {
    var i := 0;
    while i < |argv|
      invariant 0 <= i <= |argv|
      invariant forall j: nat :: j < buf.Length ==> buf[j] == (if EndsAt(Exec(argv[..i]), j) then '\0' else old(buf[j]))
    {
      WordInside(s, argv[i]);
      EndsNext(argv, i);
      buf[argv[i].eq] := '\0';
      i := i + 1;
    }
    assert argv[..|argv|] == argv;
  }

  lemma EndsNext(argv: seq<Span>, i: nat)
    requires i < |argv|
    ensures forall j: nat :: EndsAt(Exec(argv[..i + 1]), j) <==> EndsAt(Exec(argv[..i]), j) || argv[i].eq == j
  {
    forall j: nat ensures EndsAt(Exec(argv[..i + 1]), j) <==> EndsAt(Exec(argv[..i]), j) || argv[i].eq == j {
      var a, b := argv[..i], argv[..i + 1];
      if EndsAt(Exec(a), j) {
        var k :| 0 <= k < |a| && a[k].eq == j;
        assert b[k].eq == j;
      }
      if argv[i].eq == j {
        assert b[i].eq == j;
      }
      if EndsAt(Exec(b), j) {
        var k :| 0 <= k < |b| && b[k].eq == j;
        assert k < i ==> a[k].eq == j;
      }
    }
  }

  // The C string at q.
  function CString(b: seq<char>, q: nat): string
    decreases |b| - q
  {
    if q >= |b| || b[q] == '\0' then "" else [b[q]] + CString(b, q + 1)
  }

  lemma {:induction false} CStringIs(b: seq<char>, q: nat, e: nat)
    requires q <= e < |b| && b[e] == '\0' && forall i :: q <= i < e ==> b[i] != '\0'
    ensures CString(b, q) == b[q..e]
    decreases e - q
  {
    if q < e {
      CStringIs(b, q + 1, e);
      assert b[q..e] == [b[q]] + b[q + 1..e];
    }
  }

  // No word's end lies inside another word: it is where a word cannot go on.
  lemma {:induction false} EndIsNoWord(s: string, c: Cmd<Span>, i: nat)
    requires CmdWords(s, c) && EndsAt(c, i)
    ensures i <= |s| && (i < |s| ==> !IsWordChar(s[i]))
    decreases c
  {
    match c
    case Exec(argv) =>
      var k :| 0 <= k < |argv| && argv[k].eq == i;
      assert WordAt(s, argv[k]);
    case Redir(x, file, out) =>
      if EndsAt(x, i) { EndIsNoWord(s, x, i); }
    case Pipe(l, r) =>
      if EndsAt(l, i) { EndIsNoWord(s, l, i); } else { EndIsNoWord(s, r, i); }
    case List(l, r) =>
      if EndsAt(l, i) { EndIsNoWord(s, l, i); } else { EndIsNoWord(s, r, i); }
    case Back(x) => EndIsNoWord(s, x, i);
  }

  // One word of the command, after termination, reads back as its token.
  lemma WordReadsBack(s: string, b: seq<char>, cmd: Cmd<Span>, w: Span)
    requires '\0' !in s && CmdWords(s, cmd) && Cleared(s + ['\0'], b, cmd) && WordAt(s, w) && EndsAt(cmd, w.eq)
    ensures CString(b, w.q) == TextOf(s, w)
  {
    var before := s + ['\0'];
    forall i | w.q <= i < w.eq ensures b[i] == s[i] && b[i] != '\0' {
      assert IsWordChar(s[i]);
      if EndsAt(cmd, i) {
        EndIsNoWord(s, cmd, i);
      }
      assert s[i] in s;
      assert before[i] == s[i];
    }
    CStringIs(b, w.q, w.eq);
    assert b[w.q..w.eq] == s[w.q..w.eq];
  }
}
