/** A printed command line, parsed and terminated in place, reads back as the command it was printed from. */
module ShellTheorems {
  import opened ShellSyntax
  import opened ShellLexer
  import opened ShellText
  import opened Shell
  import opened ShellGrammar
  import opened ShellReading

  // What exec and open see: the C strings at the command's pointers.
  function ReadCmd(b: seq<char>, c: Cmd<Span>): Cmd<string> {
    match c
    case Exec(argv) => Exec(seq(|argv|, i requires 0 <= i < |argv| => CString(b, argv[i].q)))
    case Redir(x, file, out) => Redir(ReadCmd(b, x), CString(b, file.q), out)
    case Pipe(l, r) => Pipe(ReadCmd(b, l), ReadCmd(b, r))
    case List(l, r) => List(ReadCmd(b, l), ReadCmd(b, r))
    case Back(x) => Back(ReadCmd(b, x))
  }

  ghost predicate PartOf(c: Cmd<Span>, whole: Cmd<Span>) {
    forall i: nat :: EndsAt(c, i) ==> EndsAt(whole, i)
  }

  lemma {:induction false} ReadsBack(s: string, b: seq<char>, whole: Cmd<Span>, c: Cmd<Span>)
    requires '\0' !in s && CmdWords(s, whole) && Cleared(s + ['\0'], b, whole) && CmdWords(s, c) && PartOf(c, whole)
    ensures ReadCmd(b, c) == TextCmd(s, c)
    decreases c
  {
    hide WordAt, Cleared, TextOf, CString;
    match c
    case Exec(argv) =>
      forall k | 0 <= k < |argv| ensures CString(b, argv[k].q) == TextOf(s, argv[k]) {
        assert EndsAt(c, argv[k].eq);
        WordReadsBack(s, b, whole, argv[k]);
      }
    case Redir(x, file, out) =>
      assert PartOf(x, whole);
      ReadsBack(s, b, whole, x);
      assert EndsAt(c, file.eq);
      WordReadsBack(s, b, whole, file);
    case Pipe(l, r) =>
      assert PartOf(l, whole) && PartOf(r, whole);
      ReadsBack(s, b, whole, l);
      ReadsBack(s, b, whole, r);
    case List(l, r) =>
      assert PartOf(l, whole) && PartOf(r, whole);
      ReadsBack(s, b, whole, l);
      ReadsBack(s, b, whole, r);
    case Back(x) =>
      assert PartOf(x, whole);
      ReadsBack(s, b, whole, x);
  }

  // The line is written with tokens of which the grammar makes the tree c.
  ghost predicate Means(s: string, c: Cmd<string>) {
    exists ts :: WrittenWith(s, ts) && IsLine(c, ts)
  }

  lemma MeansIs(s: string, c: Cmd<string>)
    ensures Means(s, c) <==> Line(TextToks(s, Toks(s, 0))) == Ok(c, [])
  {
    hide Line, Toks, IsLine, WrittenWith;
    var ts := TextToks(s, Toks(s, 0));
    LexerDecides(s, ts);
    ParserDecides(c, ts);
    if Means(s, c) {
      var us :| WrittenWith(s, us) && IsLine(c, us);
      LexerDecides(s, us);
    }
  }

  // A line has at most one meaning.
  lemma OneMeaning(s: string, c: Cmd<string>, d: Cmd<string>)
    requires Means(s, c) && Means(s, d)
    ensures c == d
  {
    hide Line, Toks, Means;
    MeansIs(s, c);
    MeansIs(s, d);
  }

  // A whole line is parsed exactly when it has a meaning, and to that.
  lemma LineDecides(s: string)
    ensures var r := Line(Toks(s, 0)); r.Ok? && r.rest == [] <==> exists c :: Means(s, c)
    ensures var r := Line(Toks(s, 0)); r.Ok? && r.rest == [] ==> Means(s, TextCmd(s, r.cmd))
  {
    hide Line, Toks, TextCmd, Means;
    var r := Line(Toks(s, 0));
    LineText(s, Toks(s, 0));
    if r.Ok? {
      MeansIs(s, TextCmd(s, r.cmd));
    }
    if c :| Means(s, c) {
      MeansIs(s, c);
    }
  }

  // parsecmd: a line is taken exactly when it has a meaning, and the C strings at the command's pointers then
  // make up that meaning.
  method ParseCmd(buf: array<char>, s: string) returns (o: Parsed)
    requires '\0' !in s && buf[..] == s + ['\0']
    modifies buf
    ensures o.Parsed? ==> Line(Toks(s, 0)) == Ok(o.cmd, []) && ReadCmd(buf[..], o.cmd) == TextCmd(s, o.cmd)
    ensures o.Failed? ==> Line(Toks(s, 0)).Panic? || Line(Toks(s, 0)).rest != []
    ensures o.Parsed? <==> exists c :: Means(s, c)
    ensures o.Parsed? ==> Means(s, ReadCmd(buf[..], o.cmd))
  {
    o := ParseCommand(s);
    LineDecides(s);
    if o.Parsed? {
      hide Means;
      hide Line, Toks, CmdWords, Cleared, ReadCmd;
      assert buf.Length == |s| + 1 by { assert |buf[..]| == |s| + 1; }
      NulTerminate(buf, o.cmd, s);
      ReadsBack(s, buf[..], o.cmd, o.cmd);
    }
  }

  // ---- the printed line ----

  predicate GoodWord(w: string) {
    IsWord(w) && '\0' !in w
  }

  ghost predicate GoodCmd(c: Cmd<string>) {
    match c
    case Exec(argv) => forall i :: 0 <= i < |argv| ==> GoodWord(argv[i])
    case Redir(x, file, _) => GoodCmd(x) && GoodWord(file)
    case Pipe(l, r) => GoodCmd(l) && GoodCmd(r)
    case List(l, r) => GoodCmd(l) && GoodCmd(r)
    case Back(x) => GoodCmd(x)
  }

  predicate CleanTok(t: Tok<string>) {
    GoodTok(t) && '\0' !in TokText(t)
  }

  ghost predicate Clean(ts: seq<Tok<string>>) {
    forall i :: 0 <= i < |ts| ==> CleanTok(ts[i])
  }

  lemma CleanSym(c: char)
    requires IsSymbol(c)
    ensures Clean([Sym(c)])
  {
  }

  lemma CleanJoin(a: seq<Tok<string>>, b: seq<Tok<string>>)
    requires Clean(a) && Clean(b)
    ensures Clean(a + b)
  {
  }

  lemma {:induction false} CleanWords(ws: seq<string>)
    requires forall i :: 0 <= i < |ws| ==> GoodWord(ws[i])
    ensures Clean(WordToks(ws))
    decreases |ws|
  {
    if ws != [] {
      CleanWords(ws[1..]);
      assert CleanTok(Word(ws[0]));
    }
  }

  lemma CleanRedir(r: Redirection<string>)
    requires GoodWord(r.file)
    ensures Clean(RedirToks([r]))
  {
    var c := if r.out then '>' else '<';
    assert RedirToks([r]) == [Sym(c), Word(r.file)];
    CleanSym(c);
  }

  // Everything the printer writes is a symbol or one of the command's words.
  lemma {:induction false} PrintedClean(c: Cmd<string>)
    requires GoodCmd(c)
    ensures Clean(PrintExec(c)) && Clean(PrintPipe(c)) && Clean(PrintBack(c)) && Clean(PrintLine(c))
    decreases c
  {
    hide Clean;
    CleanSym('(');
    CleanSym(')');
    match c
    case Exec(argv) => CleanWords(argv);
    case Redir(x, file, out) =>
      PrintedClean(x);
      CleanRedir(To(file, out));
      CleanJoin(PrintExec(x), RedirToks([To(file, out)]));
    case Pipe(l, r) =>
      PrintedClean(l);
      PrintedClean(r);
      CleanSym('|');
      CleanJoin(PrintExec(l), [Sym('|')]);
      CleanJoin(PrintExec(l) + [Sym('|')], PrintPipe(r));
      CleanBlock(PrintExec(l) + [Sym('|')] + PrintPipe(r));
    case List(l, r) =>
      PrintedClean(l);
      PrintedClean(r);
      CleanSym(';');
      CleanJoin(PrintBack(l), [Sym(';')]);
      CleanJoin(PrintBack(l) + [Sym(';')], PrintLine(r));
      CleanBlock(PrintBack(l) + [Sym(';')] + PrintLine(r));
    case Back(x) =>
      PrintedClean(x);
      CleanSym('&');
      CleanJoin(PrintBack(x), [Sym('&')]);
      CleanBlock(PrintBack(x) + [Sym('&')]);
  }

  lemma CleanBlock(ts: seq<Tok<string>>)
    requires Clean(ts)
    ensures Clean([Sym('(')] + ts + [Sym(')')])
  {
    CleanSym('(');
    CleanSym(')');
    CleanJoin([Sym('(')], ts);
    CleanJoin([Sym('(')] + ts, [Sym(')')]);
  }

  lemma {:induction false} RenderHasNoNul(ts: seq<Tok<string>>)
    requires Clean(ts)
    ensures '\0' !in Render(ts)
    decreases |ts|
  {
    if ts != [] {
      RenderHasNoNul(ts[1..]);
      assert CleanTok(ts[0]);
    }
  }

  // The command as text.
  function Printed(c: Cmd<string>): string {
    Render(PrintLine(c))
  }

  // Parsing the text of any command of word tokens, with fewer than MAXARGS arguments each, returns that command.
  lemma RoundTrip(c: Cmd<string>)
    requires GoodCmd(c) && Well(c)
    ensures '\0' !in Printed(c)
    ensures var s := Printed(c); var r := Line(Toks(s, 0)); r.Ok? && r.rest == [] && TextCmd(s, r.cmd) == c
  {
    var s, ts := Printed(c), PrintLine(c);
    PrintedClean(c);
    assert GoodToks(ts);
    RenderHasNoNul(ts);
    assert s[0..] == s;
    LexRender(s, 0, ts);
    ParsePrint(c);
    hide Line, Toks, Render, TextToks, PrintLine;
    LineText(s, Toks(s, 0));
  }

  // The same through the code: the parsed and terminated buffer reads as the command it was printed from.
  method PrintThenParse(c: Cmd<string>) returns (o: Parsed, b: seq<char>)
    requires GoodCmd(c) && Well(c)
    ensures o.Parsed? && ReadCmd(b, o.cmd) == c
  {
    var s := Printed(c);
    RoundTrip(c);
    hide Line, Toks, Printed, ReadCmd, TextCmd;
    var all := s + ['\0'];
    var buf := new char[|all|](i requires 0 <= i < |all| => all[i]);
    assert buf[..] == all;
    o := ParseCmd(buf, s);
    b := buf[..];
  }
}
