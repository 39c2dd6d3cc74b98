/** What the tokens of a line are, said without the lexer, and the proof that the lexer finds exactly these. */
module ShellReading {
  import opened ShellSyntax
  import opened ShellLexer

  // A token and the stretch of the line from q to e that it is written on.
  datatype Placed = Placed(t: Tok<string>, q: nat, e: nat)

  // The stretch reads as the token. A word cannot be made longer on either side, and > does not stand before >.
  predicate Reads(s: string, pl: Placed) {
    && pl.q <= pl.e <= |s| && GoodTok(pl.t) && s[pl.q..pl.e] == TokText(pl.t)
    && (pl.t.Word? ==> (pl.q == 0 || !IsWordChar(s[pl.q - 1])) && (pl.e == |s| || !IsWordChar(s[pl.e])))
    && (pl.t == Sym('>') ==> pl.e == |s| || s[pl.e] != '>')
  }

  ghost predicate Covered(ps: seq<Placed>, k: nat) {
    exists i :: 0 <= i < |ps| && Covers(ps[i], k)
  }

  predicate Covers(pl: Placed, k: nat) {
    pl.q <= k < pl.e
  }

  // From p on, the stretches follow one another, and between them there is only white space.
  ghost predicate LaidOut(s: string, p: nat, ps: seq<Placed>) {
    && (forall i :: 0 <= i < |ps| ==> Reads(s, ps[i]) && p <= ps[i].q)
    && (forall i, j :: 0 <= i < j < |ps| ==> ps[i].e <= ps[j].q)
    && (forall k: nat :: p <= k < |s| && !IsSpace(s[k]) ==> Covered(ps, k))
  }

  function Texts(ps: seq<Placed>): (r: seq<Tok<string>>)
    ensures |r| == |ps|
  {
    seq(|ps|, i requires 0 <= i < |ps| => ps[i].t)
  }

  // The line is written with the tokens ts.
  ghost predicate WrittenWith(s: string, ts: seq<Tok<string>>) {
    exists ps :: LaidOut(s, 0, ps) && Texts(ps) == ts
  }

  // ---- there is only one such row ----

  lemma ReadsSolid(s: string, pl: Placed, k: nat)
    requires Reads(s, pl) && Covers(pl, k)
    ensures !IsSpace(s[k])
  {
    assert s[k] == TokText(pl.t)[k - pl.q];
  }

  lemma ReadsSome(s: string, pl: Placed)
    requires Reads(s, pl)
    ensures pl.q < pl.e && Covers(pl, pl.q)
  {
    assert |s[pl.q..pl.e]| == pl.e - pl.q;
  }

  lemma {:induction false} WordEndsAt(s: string, p: nat, e: nat)
    requires p <= e <= |s| && (forall i :: p <= i < e ==> IsWordChar(s[i])) && (e == |s| || !IsWordChar(s[e]))
    ensures WordEnd(s, p) == e
    decreases e - p
  {
    if p < e {
      WordEndsAt(s, p + 1, e);
    }
  }

  // A token is determined by the place where it starts.
  lemma TokIs(s: string, pl: Placed)
    requires Reads(s, pl) && pl.q < |s| && !IsSpace(s[pl.q])
    ensures TextTok(s, TokAt(s, pl.q).0) == pl.t && TokAt(s, pl.q).1 == pl.e
  {
    var text := TokText(pl.t);
    assert |text| == pl.e - pl.q && forall i :: 0 <= i < |text| ==> s[pl.q + i] == text[i];
    match pl.t
    case Word(w) =>
      forall i | pl.q <= i < pl.e ensures IsWordChar(s[i]) {
        assert s[i] == w[i - pl.q];
      }
      WordEndsAt(s, pl.q, pl.e);
    case Sym(c) => assert s[pl.q] == c;
    case Append => assert s[pl.q] == '>' && s[pl.q + 1] == '>';
  }

  // The first stretch starts at the first character that is not white space.
  lemma FirstPlace(s: string, p: nat, ps: seq<Placed>)
    requires p <= |s| && LaidOut(s, p, ps)
    ensures ps == [] <==> SkipSpace(s, p) == |s|
    ensures ps != [] ==> ps[0].q == SkipSpace(s, p)
  {
    var b := SkipSpace(s, p);
    if ps != [] {
      ReadsSome(s, ps[0]);
      ReadsSolid(s, ps[0], ps[0].q);
      assert b <= ps[0].q < |s|;
    }
    if b < |s| {
      assert Covered(ps, b);
      var i :| 0 <= i < |ps| && Covers(ps[i], b);
    }
  }

  lemma RestLaidOut(s: string, p: nat, ps: seq<Placed>)
    requires LaidOut(s, p, ps) && ps != []
    ensures LaidOut(s, ps[0].e, ps[1..])
  {
    var rest := ps[1..];
    forall i | 0 <= i < |rest| ensures Reads(s, rest[i]) && ps[0].e <= rest[i].q {
      assert rest[i] == ps[i + 1];
    }
    forall k: nat | ps[0].e <= k < |s| && !IsSpace(s[k]) ensures Covered(rest, k) {
      assert p <= ps[0].q <= ps[0].e by { ReadsSome(s, ps[0]); }
      assert Covered(ps, k);
      var i :| 0 <= i < |ps| && Covers(ps[i], k);
      assert rest[i - 1] == ps[i];
    }
  }

  lemma {:induction false} OnlyOne(s: string, p: nat, ps: seq<Placed>)
    requires p <= |s| && LaidOut(s, p, ps)
    ensures TextToks(s, Toks(s, p)) == Texts(ps)
    decreases |ps|
  {
    FirstPlace(s, p, ps);
    if ps != [] {
      var b := SkipSpace(s, p);
      ReadsSome(s, ps[0]);
      ReadsSolid(s, ps[0], b);
      TokIs(s, ps[0]);
      RestLaidOut(s, p, ps);
      assert Toks(s, p) == [TokAt(s, b).0] + Toks(s, ps[0].e);
      hide *;
      OnlyOne(s, ps[0].e, ps[1..]);
      TextsFirst(ps);
      TextCons(s, TokAt(s, b).0, Toks(s, ps[0].e));
    } else {
      assert Texts(ps) == [] && Toks(s, p) == [];
    }
  }

  lemma TextsFirst(ps: seq<Placed>)
    requires ps != []
    ensures Texts(ps) == [ps[0].t] + Texts(ps[1..])
  {
  }

  // ---- and the lexer finds it ----

  // No word goes across p.
  predicate Boundary(s: string, p: nat) {
    p == 0 || p >= |s| || !IsWordChar(s[p - 1]) || !IsWordChar(s[p])
  }

  lemma TokReads(s: string, b: nat)
    requires b < |s| && !IsSpace(s[b]) && Boundary(s, b)
    ensures Reads(s, Placed(TextTok(s, TokAt(s, b).0), b, TokAt(s, b).1)) && Boundary(s, TokAt(s, b).1)
  {
  }

  lemma FirstLaidOut(s: string, p: nat, pl: Placed, rest: seq<Placed>)
    requires p <= |s| && pl.q == SkipSpace(s, p) && Reads(s, pl) && LaidOut(s, pl.e, rest)
    ensures LaidOut(s, p, [pl] + rest)
  {
    var ps := [pl] + rest;
    forall i | 0 <= i < |ps| ensures Reads(s, ps[i]) && p <= ps[i].q {
      assert i > 0 ==> ps[i] == rest[i - 1];
    }
    forall k: nat | p <= k < |s| && !IsSpace(s[k]) ensures Covered(ps, k) {
      if k < pl.e {
        assert Covers(ps[0], k);
      } else {
        assert Covered(rest, k);
        var i :| 0 <= i < |rest| && Covers(rest[i], k);
        assert Covers(ps[i + 1], k);
      }
    }
  }

  lemma {:induction false} LexerFinds(s: string, p: nat) returns (ps: seq<Placed>)
    requires p <= |s| && Boundary(s, p)
    ensures LaidOut(s, p, ps) && Texts(ps) == TextToks(s, Toks(s, p))
    decreases |s| - p
  {
    var b := SkipSpace(s, p);
    if b == |s| {
      ps := [];
    } else {
      assert Boundary(s, b);
      TokReads(s, b);
      var (t, e) := TokAt(s, b);
      assert Toks(s, p) == [t] + Toks(s, e);
      hide *;
      var rest := LexerFinds(s, e);
      var pl := Placed(TextTok(s, t), b, e);
      FirstLaidOut(s, p, pl, rest);
      TextCons(s, t, Toks(s, e));
      ps := [pl] + rest;
      TextsFirst(ps);
    }
  }

  // The lexer's tokens are the ones the line is written with, and no others.
  lemma LexerDecides(s: string, ts: seq<Tok<string>>)
    ensures WrittenWith(s, ts) <==> ts == TextToks(s, Toks(s, 0))
  {
    var found := LexerFinds(s, 0);
    if WrittenWith(s, ts) {
      var ps :| LaidOut(s, 0, ps) && Texts(ps) == ts;
      OnlyOne(s, 0, ps);
    }
  }
}
