/** The command language as a relation between trees and rows of tokens, and the proof that the parser decides it. */
module ShellGrammar {
  import opened ShellSyntax

  // ---- the grammar ----

  // What a simple command is a row of: an argument, or a file after < or > or >>.
  datatype Item<W> = Arg(w: W) | From(w: W) | Onto(w: W) | Added(w: W)

  function ItemToks<W>(it: Item<W>): seq<Tok<W>> {
    match it
    case Arg(w) => [Word(w)]
    case From(w) => [Sym('<'), Word(w)]
    case Onto(w) => [Sym('>'), Word(w)]
    case Added(w) => [Append, Word(w)]
  }

  function RowToks<W>(items: seq<Item<W>>): seq<Tok<W>>
    decreases |items|
  {
    if items == [] then [] else ItemToks(items[0]) + RowToks(items[1..])
  }

  function ItemArgs<W>(it: Item<W>): seq<W> {
    if it.Arg? then [it.w] else []
  }

  function ArgsOf<W>(items: seq<Item<W>>): seq<W>
    decreases |items|
  {
    if items == [] then [] else ItemArgs(items[0]) + ArgsOf(items[1..])
  }

  function ItemRedirs<W>(it: Item<W>): seq<Redirection<W>> {
    if it.Arg? then [] else [To(it.w, !it.From?)]
  }

  function RedirsOf<W>(items: seq<Item<W>>): seq<Redirection<W>>
    decreases |items|
  {
    if items == [] then [] else ItemRedirs(items[0]) + RedirsOf(items[1..])
  }

  // Words and redirections in any order, fewer than MAXARGS of them words.
  ghost predicate IsSimple<W(!new)>(c: Cmd<W>, ts: seq<Tok<W>>) {
    exists items: seq<Item<W>> :: MakesSimple(items, c, ts)
  }

  predicate MakesSimple<W(==)>(items: seq<Item<W>>, c: Cmd<W>, ts: seq<Tok<W>>) {
    ts == RowToks(items) && |ArgsOf(items)| < MAXARGS && c == Wrap(Exec(ArgsOf(items)), RedirsOf(items))
  }

  // A line in parentheses, and redirections.
  ghost predicate IsBlock<W(!new)>(c: Cmd<W>, ts: seq<Tok<W>>)
    decreases |ts|, 0
  {
    exists a, b :: Bracketed(ts, a, b) &&
      exists inner: Cmd<W>, items: seq<Item<W>> :: MakesBlock(items, inner, c, b) && IsLine(inner, a)
  }

  predicate Bracketed<W(==)>(ts: seq<Tok<W>>, a: seq<Tok<W>>, b: seq<Tok<W>>) {
    ts == [Sym('(')] + a + [Sym(')')] + b
  }

  predicate MakesBlock<W(==)>(items: seq<Item<W>>, inner: Cmd<W>, c: Cmd<W>, ts: seq<Tok<W>>) {
    ArgsOf(items) == [] && ts == RowToks(items) && c == Wrap(inner, RedirsOf(items))
  }

  ghost predicate IsExec<W(!new)>(c: Cmd<W>, ts: seq<Tok<W>>)
    decreases |ts|, 1
  {
    IsSimple(c, ts) || IsBlock(c, ts)
  }

  predicate Splits<W(==)>(ts: seq<Tok<W>>, a: seq<Tok<W>>, ch: char, b: seq<Tok<W>>) {
    ts == a + [Sym(ch)] + b
  }

  // One command, or one, a bar and a pipeline.
  ghost predicate IsPipe<W(!new)>(c: Cmd<W>, ts: seq<Tok<W>>)
    decreases |ts|, 2
  {
    || IsExec(c, ts)
    || (c.Pipe? && exists a, b :: Splits(ts, a, '|', b) && IsExec(c.left, a) && IsPipe(c.right, b))
  }

  // A pipeline and any number of ampersands.
  ghost predicate IsBack<W(!new)>(c: Cmd<W>, ts: seq<Tok<W>>)
    decreases |ts|, 3
  {
    || IsPipe(c, ts)
    || (c.Back? && exists a :: Splits(ts, a, '&', []) && IsBack(c.cmd, a))
  }

  // One of those, or one, a semicolon and a line.
  ghost predicate IsLine<W(!new)>(c: Cmd<W>, ts: seq<Tok<W>>)
    decreases |ts|, 4
  {
    || IsBack(c, ts)
    || (c.List? && exists a, b :: Splits(ts, a, ';', b) && IsBack(c.left, a) && IsLine(c.right, b))
  }

  // ---- what the parser takes is in the grammar ----

  lemma {:induction false} PartsConcat<W>(a: seq<Item<W>>, b: seq<Item<W>>)
    ensures ArgsOf(a + b) == ArgsOf(a) + ArgsOf(b) && RedirsOf(a + b) == RedirsOf(a) + RedirsOf(b)
    ensures RowToks(a + b) == RowToks(a) + RowToks(b)
    decreases |a|
  {
    hide ItemToks, ItemArgs, ItemRedirs;
    if a == [] {
      assert a + b == b;
    } else {
      PartsConcat(a[1..], b);
      assert (a + b)[1..] == a[1..] + b;
    }
  }

  lemma FirstPart<W>(it: Item<W>, items: seq<Item<W>>)
    ensures RowToks([it] + items) == ItemToks(it) + RowToks(items)
    ensures ArgsOf([it] + items) == ItemArgs(it) + ArgsOf(items)
    ensures RedirsOf([it] + items) == ItemRedirs(it) + RedirsOf(items)
  {
    assert ([it] + items)[1..] == items;
  }

  lemma Assoc<T>(a: seq<T>, b: seq<T>, c: seq<T>)
    ensures a + b + c == a + (b + c)
  {
  }

  lemma RedirSound<W>(ts: seq<Tok<W>>) returns (it: Item<W>)
    requires StartsRedir(ts) && |ts| >= 2 && ts[1].Word?
    ensures ts == ItemToks(it) + ts[2..] && ItemArgs(it) == [] && ItemRedirs(it) == [To(ts[1].w, !Starts(ts, '<'))]
  {
    var w := ts[1].w;
    it := if Starts(ts, '<') then From(w) else if Starts(ts, '>') then Onto(w) else Added(w);
  }

  // The redirections taken, and what was not.
  lemma {:induction false} RedirsSound<W>(ts: seq<Tok<W>>) returns (items: seq<Item<W>>)
    requires Redirs(ts).RedirsOk?
    ensures ts == RowToks(items) + Redirs(ts).rest && RedirsOf(items) == Redirs(ts).rs && ArgsOf(items) == []
    decreases |ts|
  {
    if !StartsRedir(ts) {
      items := [];
    } else {
      var it := RedirSound(ts);
      var more := RedirsSound(ts[2..]);
      items := [it] + more;
      hide ItemToks, ItemArgs, ItemRedirs, RowToks, ArgsOf, RedirsOf;
      FirstPart(it, more);
      Assoc(ItemToks(it), RowToks(more), Redirs(ts).rest);
    }
  }

  ghost predicate MakesArgs<W>(items: seq<Item<W>>, args: seq<W>, rs: seq<Redirection<W>>, c: Cmd<W>) {
    |args + ArgsOf(items)| < MAXARGS && c == Wrap(Exec(args + ArgsOf(items)), rs + RedirsOf(items))
  }

  // An argument and redirections before more items.
  lemma MakesMore<W>(args: seq<W>, w: W, rs: seq<Redirection<W>>, intos: seq<Item<W>>, more: seq<Item<W>>, c: Cmd<W>)
    requires ArgsOf(intos) == []
    ensures MakesArgs(more, args + [w], rs + RedirsOf(intos), c) <==> MakesArgs([Arg(w)] + (intos + more), args, rs, c)
  {
    FirstPart(Arg(w), intos + more);
    PartsConcat(intos, more);
    hide ArgsOf, RedirsOf, Wrap;
    assert ArgsOf(intos + more) == ArgsOf(more) && RedirsOf([Arg(w)] + (intos + more)) == RedirsOf(intos + more);
    Assoc(args, [w], ArgsOf(more));
    Assoc(rs, RedirsOf(intos), RedirsOf(more));
  }

  lemma {:induction false} ArgsSound<W>(ts: seq<Tok<W>>, args: seq<W>, rs: seq<Redirection<W>>)
    returns (items: seq<Item<W>>)
    requires Args(ts, args, rs).Ok? && |args| < MAXARGS
    ensures ts == RowToks(items) + Args(ts, args, rs).rest && MakesArgs(items, args, rs, Args(ts, args, rs).cmd)
    decreases |ts|
  {
    hide Redirs, StartsRedir;
    if ts == [] || StartsStop(ts) {
      hide Wrap;
      items := [];
      assert args + [] == args && rs + [] == rs;
    } else {
      var q := Redirs(ts[1..]);
      var w := ts[0].w;
      assert Args(ts, args, rs) == Args(q.rest, args + [w], rs + q.rs);
      hide RowToks, ArgsOf, RedirsOf, Args, MakesArgs;
      var intos := RedirsSound(ts[1..]);
      var more := ArgsSound(q.rest, args + [w], rs + q.rs);
      items := [Arg(w)] + (intos + more);
      MakesMore(args, w, rs, intos, more, Args(ts, args, rs).cmd);
      FirstPart(Arg(w), intos + more);
      PartsConcat(intos, more);
      assert ts == [Word(w)] + ts[1..];
      var rest := Args(ts, args, rs).rest;
      Assoc([Word(w)], RowToks(intos) + RowToks(more), rest);
      Assoc(RowToks(intos), RowToks(more), rest);
    }
  }

  lemma SimpleSound<W(!new)>(ts: seq<Tok<W>>) returns (pre: seq<Tok<W>>)
    requires Simple(ts).Ok?
    ensures ts == pre + Simple(ts).rest && IsSimple(Simple(ts).cmd, pre)
  {
    hide Args, Redirs, RowToks, ArgsOf, RedirsOf, Wrap;
    var q := Redirs(ts);
    var intos := RedirsSound(ts);
    var more := ArgsSound(q.rest, [], q.rs);
    PartsConcat(intos, more);
    pre := RowToks(intos + more);
    assert [] + ArgsOf(more) == ArgsOf(more);
    assert MakesSimple(intos + more, Simple(ts).cmd, pre);
  }

  lemma {:induction false} BlockSound<W(!new)>(ts: seq<Tok<W>>) returns (pre: seq<Tok<W>>)
    requires Starts(ts, '(') && Block(ts).Ok?
    ensures ts == pre + Block(ts).rest && IsBlock(Block(ts).cmd, pre)
    decreases |ts|, 0
  {
    hide Line, Redirs, IsLine, RowToks, Wrap, RedirsOf, ArgsOf;
    var l := Line(ts[1..]);
    var a := LineSound(ts[1..]);
    var items := RedirsSound(l.rest[1..]);
    var b := RowToks(items);
    pre := [Sym('(')] + a + [Sym(')')] + b;
    assert Bracketed(pre, a, b);
    assert MakesBlock(items, l.cmd, Block(ts).cmd, b);
    assert ts == [Sym('(')] + ts[1..] && l.rest == [Sym(')')] + l.rest[1..];
  }

  lemma {:induction false} ExecSound<W(!new)>(ts: seq<Tok<W>>) returns (pre: seq<Tok<W>>)
    requires ExecPart(ts).Ok?
    ensures ts == pre + ExecPart(ts).rest && IsExec(ExecPart(ts).cmd, pre)
    decreases |ts|, 1
  {
    hide Block, Simple, IsBlock, IsSimple;
    if Starts(ts, '(') {
      pre := BlockSound(ts);
    } else {
      pre := SimpleSound(ts);
    }
  }

  lemma {:induction false} PipeSound<W(!new)>(ts: seq<Tok<W>>) returns (pre: seq<Tok<W>>)
    requires PipePart(ts).Ok?
    ensures ts == pre + PipePart(ts).rest && IsPipe(PipePart(ts).cmd, pre)
    decreases |ts|, 2
  {
    hide ExecPart, IsExec;
    var e := ExecPart(ts);
    pre := ExecSound(ts);
    if Starts(e.rest, '|') {
      var a := pre;
      var b := PipeSound(e.rest[1..]);
      pre := a + [Sym('|')] + b;
      assert Splits(pre, a, '|', b);
      assert e.rest == [Sym('|')] + e.rest[1..];
    }
  }

  lemma {:induction false} BacksSound<W(!new)>(c: Cmd<W>, pre: seq<Tok<W>>, ts: seq<Tok<W>>) returns (all: seq<Tok<W>>)
    requires IsBack(c, pre)
    ensures pre + ts == all + Backs(c, ts).1 && IsBack(Backs(c, ts).0, all)
    decreases |ts|
  {
    hide IsPipe;
    if Starts(ts, '&') {
      assert Splits(pre + [Sym('&')], pre, '&', []);
      assert ts == [Sym('&')] + ts[1..];
      all := BacksSound(Back(c), pre + [Sym('&')], ts[1..]);
    } else {
      all := pre;
    }
  }

  lemma {:induction false} LineSound<W(!new)>(ts: seq<Tok<W>>) returns (pre: seq<Tok<W>>)
    requires Line(ts).Ok?
    ensures ts == pre + Line(ts).rest && IsLine(Line(ts).cmd, pre)
    decreases |ts|, 3
  {
    hide PipePart, IsPipe;
    var p := PipePart(ts);
    pre := PipeSound(ts);
    assert IsBack(p.cmd, pre);
    hide IsBack, Backs;
    pre := BacksSound(p.cmd, pre, p.rest);
    var mid := Backs(p.cmd, p.rest).1;
    if Starts(mid, ';') {
      var a := pre;
      var b := LineSound(mid[1..]);
      pre := a + [Sym(';')] + b;
      assert Splits(pre, a, ';', b);
      assert mid == [Sym(';')] + mid[1..];
    }
  }

  // ---- what is in the grammar the parser takes, whatever may follow it ----

  lemma RedirsStep<W>(it: Item<W>, ts: seq<Tok<W>>)
    requires !it.Arg? && Redirs(ts).RedirsOk?
    ensures Redirs(ItemToks(it) + ts) == RedirsOk(ItemRedirs(it) + Redirs(ts).rs, Redirs(ts).rest)
  {
    assert (ItemToks(it) + ts)[2..] == ts;
  }

  // The redirections a row of items starts with are the ones taken.
  lemma {:induction false} RedirsWhole<W>(items: seq<Item<W>>, rest: seq<Tok<W>>)
    returns (intos: seq<Item<W>>, others: seq<Item<W>>)
    requires !StartsRedir(rest)
    ensures items == intos + others && (others == [] || others[0].Arg?) && ArgsOf(intos) == []
    ensures Redirs(RowToks(items) + rest) == RedirsOk(RedirsOf(intos), RowToks(others) + rest)
    decreases |items|
  {
    if items == [] || items[0].Arg? {
      intos, others := [], items;
      assert !StartsRedir(RowToks(items) + rest);
    } else {
      hide Redirs, StartsRedir, ArgsOf, RedirsOf, RowToks;
      var it, more := items[0], items[1..];
      assert items == [it] + more;
      intos, others := RedirsWhole(more, rest);
      RedirsStep(it, RowToks(more) + rest);
      FirstPart(it, more);
      FirstPart(it, intos);
      Assoc(ItemToks(it), RowToks(more), rest);
      Assoc([it], intos, others);
      intos := [it] + intos;
    }
  }

  lemma ArgsStep<W>(w: W, ts: seq<Tok<W>>, args: seq<W>, rs: seq<Redirection<W>>)
    requires Redirs(ts).RedirsOk? && |args| + 1 < MAXARGS
    ensures Args([Word(w)] + ts, args, rs) == Args(Redirs(ts).rest, args + [w], rs + Redirs(ts).rs)
  {
    hide Redirs;
    assert ([Word(w)] + ts)[1..] == ts;
  }

  lemma {:induction false} ArgsWhole<W>(items: seq<Item<W>>, rest: seq<Tok<W>>, args: seq<W>, rs: seq<Redirection<W>>,
                                        c: Cmd<W>)
    requires (items == [] || items[0].Arg?) && AfterExec(rest) && MakesArgs(items, args, rs, c)
    ensures Args(RowToks(items) + rest, args, rs) == Ok(c, rest)
    decreases |items|
  {
    if items == [] {
      hide Wrap;
      assert RowToks(items) + rest == rest && args + [] == args && rs + [] == rs;
    } else {
      var w, next := items[0].w, items[1..];
      assert items == [Arg(w)] + next;
      FirstPart(Arg(w), next);
      assert |args| + 1 < MAXARGS;
      hide Redirs, Args, ArgsOf, RedirsOf, RowToks, MakesArgs;
      var intos, others := RedirsWhole(next, rest);
      ArgsStep(w, RowToks(next) + rest, args, rs);
      Assoc([Word(w)], RowToks(next), rest);
      MakesMore(args, w, rs, intos, others, c);
      ArgsWhole(others, rest, args + [w], rs + RedirsOf(intos), c);
    }
  }

  lemma SimpleWhole<W(!new)>(c: Cmd<W>, pre: seq<Tok<W>>, rest: seq<Tok<W>>)
    requires IsSimple(c, pre) && AfterExec(rest)
    ensures ExecPart(pre + rest) == Ok(c, rest)
  {
    var items: seq<Item<W>> :| MakesSimple(items, c, pre);
    assert !Starts(RowToks(items) + rest, '(');
    hide Args, Redirs, RowToks, ArgsOf, RedirsOf, Wrap;
    var intos, others := RedirsWhole(items, rest);
    PartsConcat(intos, others);
    assert [] + ArgsOf(others) == ArgsOf(others);
    ArgsWhole(others, rest, [], RedirsOf(intos), c);
  }

  lemma OnlyRedirs<W>(items: seq<Item<W>>, rest: seq<Tok<W>>)
    requires ArgsOf(items) == [] && !StartsRedir(rest)
    ensures Redirs(RowToks(items) + rest) == RedirsOk(RedirsOf(items), rest)
  {
    hide Redirs;
    var intos, others := RedirsWhole(items, rest);
    PartsConcat(intos, others);
    assert others == [];
    assert items == intos && RowToks(others) + rest == rest;
  }

  lemma {:induction false} BlockWhole<W(!new)>(c: Cmd<W>, pre: seq<Tok<W>>, rest: seq<Tok<W>>)
    requires IsBlock(c, pre) && AfterExec(rest)
    ensures ExecPart(pre + rest) == Ok(c, rest)
    decreases |pre|, 0
  {
    hide Line, Redirs, IsLine, RowToks, Wrap, RedirsOf, ArgsOf;
    var a, b :| Bracketed(pre, a, b) &&
      exists inner: Cmd<W>, items: seq<Item<W>> :: MakesBlock(items, inner, c, b) && IsLine(inner, a);
    var inner: Cmd<W>, items: seq<Item<W>> :| MakesBlock(items, inner, c, b) && IsLine(inner, a);
    var tail := [Sym(')')] + (b + rest);
    LineWhole(inner, a, tail);
    OnlyRedirs(items, rest);
    assert (pre + rest)[1..] == a + tail && tail[1..] == b + rest;
  }

  lemma {:induction false} ExecWhole<W(!new)>(c: Cmd<W>, pre: seq<Tok<W>>, rest: seq<Tok<W>>)
    requires IsExec(c, pre) && AfterExec(rest)
    ensures ExecPart(pre + rest) == Ok(c, rest)
    decreases |pre|, 1
  {
    hide ExecPart, IsSimple, IsBlock;
    if IsSimple(c, pre) {
      SimpleWhole(c, pre, rest);
    } else {
      BlockWhole(c, pre, rest);
    }
  }

  lemma {:induction false} PipeWhole<W(!new)>(c: Cmd<W>, pre: seq<Tok<W>>, rest: seq<Tok<W>>)
    requires IsPipe(c, pre) && AfterPipe(rest)
    ensures PipePart(pre + rest) == Ok(c, rest)
    decreases |pre|, 2
  {
    hide ExecPart, IsExec;
    if IsExec(c, pre) {
      ExecWhole(c, pre, rest);
    } else {
      var a, b :| Splits(pre, a, '|', b) && IsExec(c.left, a) && IsPipe(c.right, b);
      var tail := [Sym('|')] + (b + rest);
      ExecWhole(c.left, a, tail);
      PipeWhole(c.right, b, rest);
      assert pre + rest == a + tail && tail[1..] == b + rest;
    }
  }

  // Where parseline's loop over & gets to.
  lemma {:induction false} BackWhole<W(!new)>(c: Cmd<W>, pre: seq<Tok<W>>, rest: seq<Tok<W>>)
    requires IsBack(c, pre) && AfterPipe(rest)
    ensures PipePart(pre + rest).Ok?
    ensures Backs(PipePart(pre + rest).cmd, PipePart(pre + rest).rest) == Backs(c, rest)
    decreases |pre|, 3
  {
    hide PipePart, IsPipe;
    if IsPipe(c, pre) {
      PipeWhole(c, pre, rest);
    } else {
      var a :| Splits(pre, a, '&', []) && IsBack(c.cmd, a);
      var tail := [Sym('&')] + rest;
      BackWhole(c.cmd, a, tail);
      assert pre + rest == a + tail && tail[1..] == rest;
      assert Backs(c.cmd, tail) == Backs(c, rest);
    }
  }

  lemma {:induction false} LineWhole<W(!new)>(c: Cmd<W>, pre: seq<Tok<W>>, rest: seq<Tok<W>>)
    requires IsLine(c, pre) && AfterLine(rest)
    ensures Line(pre + rest) == Ok(c, rest)
    decreases |pre|, 4
  {
    hide PipePart, IsBack;
    if IsBack(c, pre) {
      BackWhole(c, pre, rest);
    } else {
      var a, b :| Splits(pre, a, ';', b) && IsBack(c.left, a) && IsLine(c.right, b);
      var tail := [Sym(';')] + (b + rest);
      BackWhole(c.left, a, tail);
      LineWhole(c.right, b, rest);
      assert pre + rest == a + tail && tail[1..] == b + rest;
    }
  }

  // ---- the theorems ----

  // The parser takes a whole row of tokens for a tree exactly when the grammar makes the tree of the row.
  lemma ParserDecides<W(!new)>(c: Cmd<W>, ts: seq<Tok<W>>)
    ensures Line(ts) == Ok(c, []) <==> IsLine(c, ts)
  {
    hide Line, IsLine;
    if Line(ts) == Ok(c, []) {
      var pre := LineSound(ts);
      assert ts == pre;
    }
    if IsLine(c, ts) {
      LineWhole(c, ts, []);
      assert ts + [] == ts;
    }
  }

  // So no row of tokens has two trees.
  lemma Unambiguous<W(!new)>(c: Cmd<W>, d: Cmd<W>, ts: seq<Tok<W>>)
    requires IsLine(c, ts) && IsLine(d, ts)
    ensures c == d
  {
    hide Line, IsLine;
    ParserDecides(c, ts);
    ParserDecides(d, ts);
  }
}
