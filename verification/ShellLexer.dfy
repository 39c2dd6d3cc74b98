/** The tokens of a command line, as gettoken and peek find them, and a text with given tokens. */
module ShellLexer {
  import opened ShellSyntax

  // A stretch of the line, as the pair of pointers q and eq.
  datatype Span = Span(q: nat, eq: nat)

  predicate IsSpace(c: char) {
    c == ' ' || c == '\t' || c == '\r' || c == '\n' || c == '\U{B}'
  }

  predicate IsSymbol(c: char) {
    c == '<' || c == '|' || c == '>' || c == '&' || c == ';' || c == '(' || c == ')'
  }

  predicate IsWordChar(c: char) {
    !IsSpace(c) && !IsSymbol(c)
  }

  function SkipSpace(s: string, p: nat): (r: nat)
    requires p <= |s|
    ensures p <= r <= |s|
    ensures forall i :: p <= i < r ==> IsSpace(s[i])
    ensures r < |s| ==> !IsSpace(s[r])
    decreases |s| - p
  {
    if p < |s| && IsSpace(s[p]) then SkipSpace(s, p + 1) else p
  }

  function WordEnd(s: string, p: nat): (r: nat)
    requires p <= |s|
    ensures p <= r <= |s|
    ensures forall i :: p <= i < r ==> IsWordChar(s[i])
    ensures r < |s| ==> !IsWordChar(s[r])
    decreases |s| - p
  {
    if p < |s| && IsWordChar(s[p]) then WordEnd(s, p + 1) else p
  }

  // The token that starts at p, which is not a space, and where it ends.
  function TokAt(s: string, p: nat): (r: (Tok<Span>, nat))
    requires p < |s| && !IsSpace(s[p])
    ensures p < r.1 <= |s|
  {
    if s[p] == '>' && p + 1 < |s| && s[p + 1] == '>' then (Append, p + 2)
    else if IsSymbol(s[p]) then (Sym(s[p]), p + 1)
    else (Word(Span(p, WordEnd(s, p))), WordEnd(s, p))
  }

  // The tokens from p to the end of the line.
  function Toks(s: string, p: nat): (r: seq<Tok<Span>>)
    requires p <= |s|
    decreases |s| - p
  {
    var b := SkipSpace(s, p);
    if b == |s| then [] else var (t, e) := TokAt(s, b); [t] + Toks(s, e)
  }

  lemma ToksSkip(s: string, p: nat, b: nat)
    requires p <= |s| && b == SkipSpace(s, p)
    ensures Toks(s, b) == Toks(s, p)
  {
    assert SkipSpace(s, b) == b;
  }

  // ---- the words a span stands for ----

  // A whole word: it cannot be made longer to the right.
  predicate WordAt(s: string, w: Span) {
    && w.q < w.eq <= |s|
    && (forall i :: w.q <= i < w.eq ==> IsWordChar(s[i]))
    && (w.eq < |s| ==> !IsWordChar(s[w.eq]))
  }

  ghost predicate AllWords(s: string, ts: seq<Tok<Span>>) {
    forall i :: 0 <= i < |ts| && ts[i].Word? ==> WordAt(s, ts[i].w)
  }

  lemma {:induction false} ToksAreWords(s: string, p: nat)
    requires p <= |s|
    ensures AllWords(s, Toks(s, p))
    decreases |s| - p
  {
    var b := SkipSpace(s, p);
    if b < |s| {
      var (t, e) := TokAt(s, b);
      ToksAreWords(s, e);
    }
  }

  function TextOf(s: string, w: Span): string {
    if w.q <= w.eq <= |s| then s[w.q..w.eq] else ""
  }

  function TextTok(s: string, t: Tok<Span>): Tok<string> {
    match t
    case Word(w) => Word(TextOf(s, w))
    case Sym(c) => Sym(c)
    case Append => Append
  }

  function TextToks(s: string, ts: seq<Tok<Span>>): (r: seq<Tok<string>>)
    ensures |r| == |ts|
  {
    seq(|ts|, i requires 0 <= i < |ts| => TextTok(s, ts[i]))
  }

  // ---- writing tokens out, a space after each ----

  predicate IsWord(w: string) {
    w != "" && forall i :: 0 <= i < |w| ==> IsWordChar(w[i])
  }

  predicate GoodTok(t: Tok<string>) {
    match t
    case Word(w) => IsWord(w)
    case Sym(c) => IsSymbol(c)
    case Append => true
  }

  ghost predicate GoodToks(ts: seq<Tok<string>>) {
    forall i :: 0 <= i < |ts| ==> GoodTok(ts[i])
  }

  function TokText(t: Tok<string>): string {
    match t
    case Word(w) => w
    case Sym(c) => [c]
    case Append => ">>"
  }

  function Render(ts: seq<Tok<string>>): string
    decreases |ts|
  {
    if ts == [] then "" else TokText(ts[0]) + " " + Render(ts[1..])
  }

  lemma {:induction false} WordEndIs(s: string, p: nat, e: nat)
    requires p <= e < |s| && (forall i :: p <= i < e ==> IsWordChar(s[i])) && !IsWordChar(s[e])
    ensures WordEnd(s, p) == e
    decreases e - p
  {
    if p < e {
      WordEndIs(s, p + 1, e);
    }
  }

  // A token written at p and followed by a space is found there.
  lemma OneTok(s: string, p: nat, t: Tok<string>)
    requires GoodTok(t) && p + |TokText(t)| < |s| && s[p..p + |TokText(t)|] == TokText(t) && s[p + |TokText(t)|] == ' '
    ensures !IsSpace(s[p]) && TextTok(s, TokAt(s, p).0) == t && TokAt(s, p).1 == p + |TokText(t)|
  {
    var e := p + |TokText(t)|;
    assert forall i :: 0 <= i < |TokText(t)| ==> s[p + i] == TokText(t)[i];
    match t
    case Word(w) =>
      forall i | p <= i < e ensures IsWordChar(s[i]) {
        assert s[i] == w[i - p];
      }
      WordEndIs(s, p, e);
    case Sym(c) =>
      assert s[p] == c;
    case Append =>
      assert s[p] == '>' && s[p + 1] == '>';
  }

  lemma {:induction false} SkipOne(s: string, p: nat)
    requires p < |s| && IsSpace(s[p])
    ensures Toks(s, p) == Toks(s, p + 1)
  {
    assert SkipSpace(s, p) == SkipSpace(s, p + 1);
    ToksSkip(s, p, SkipSpace(s, p));
    ToksSkip(s, p + 1, SkipSpace(s, p));
  }

  lemma TextAt(s: string, p: nat, t: string, more: string)
    requires p <= |s| && s[p..] == t + " " + more
    ensures p + |t| < |s| && s[p..p + |t|] == t && s[p + |t|] == ' ' && s[p + |t| + 1..] == more
  {
    var n := |t|;
    assert |s[p..]| == n + 1 + |more|;
    assert s[p..p + n] == s[p..][..n];
    assert s[p + n] == s[p..][n];
    assert s[p + n + 1..] == s[p..][n + 1..];
  }

  lemma TextCons(s: string, t: Tok<Span>, ts: seq<Tok<Span>>)
    ensures TextToks(s, [t] + ts) == [TextTok(s, t)] + TextToks(s, ts)
  {
  }

  lemma ToksAt(s: string, p: nat)
    requires p < |s| && !IsSpace(s[p])
    ensures Toks(s, p) == [TokAt(s, p).0] + Toks(s, TokAt(s, p).1)
  {
    assert SkipSpace(s, p) == p;
  }

  lemma LexStep(s: string, p: nat, t: Tok<string>, more: string)
    requires p <= |s| && s[p..] == TokText(t) + " " + more && GoodTok(t)
    ensures var e := p + |TokText(t)| + 1;
            e <= |s| && s[e..] == more && TextToks(s, Toks(s, p)) == [t] + TextToks(s, Toks(s, e))
  {
    var e := p + |TokText(t)|;
    TextAt(s, p, TokText(t), more);
    OneTok(s, p, t);
    assert IsSpace(' ');
    hide TextToks, TokAt, Toks, SkipSpace, WordEnd, TokText, TextTok, GoodTok, IsSpace;
    SkipOne(s, e);
    ToksAt(s, p);
    TextCons(s, TokAt(s, p).0, Toks(s, e));
  }

  lemma NoToks(s: string)
    ensures TextToks(s, Toks(s, |s|)) == []
  {
  }

  // Reading a written row of tokens gives those tokens.
  lemma {:induction false} LexRender(s: string, p: nat, ts: seq<Tok<string>>)
    requires p <= |s| && s[p..] == Render(ts) && GoodToks(ts)
    ensures TextToks(s, Toks(s, p)) == ts
    decreases |ts|
  {
    if ts == [] {
      NoToks(s);
    } else {
      var t, more := ts[0], ts[1..];
      assert Render(ts) == TokText(t) + " " + Render(more) && ts == [t] + more && GoodTok(t) && GoodToks(more);
      hide Render, TextToks, Toks, TokText, GoodTok, GoodToks;
      LexStep(s, p, t, Render(more));
      LexRender(s, p + |TokText(t)| + 1, more);
    }
  }
}
