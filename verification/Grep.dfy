/** grep's regular expressions: what a pattern means, and the matcher that decides it. Patterns and texts are C
    strings without their terminators. */
module Grep {
  datatype Item =
    | One(c: char)    // this character, or any for '.'
    | Star(c: char)   // any number of them
    | End             // a final '$'

  predicate Accepts(c: char, x: char) {
    c == '.' || c == x
  }

  // A '*' is a star only after another character, a '$' is the end only in last place; elsewhere both stand
  // for themselves.
  function Items(re: string): (r: seq<Item>)
    decreases |re|
  {
    if re == "" then []
    else if |re| >= 2 && re[1] == '*' then [Star(re[0])] + Items(re[2..])
    else if re == "$" then [End]
    else [One(re[0])] + Items(re[1..])
  }

  // ---- the notation ----

  function ItemText(item: Item): (r: string)
    ensures r != ""
  {
    match item
    case One(c) => [c]
    case Star(c) => [c, '*']
    case End => "$"
  }

  function Text(items: seq<Item>): string
    decreases |items|
  {
    if items == [] then "" else ItemText(items[0]) + Text(items[1..])
  }

  // What can stand at place i: a plain character only where no '*' follows it, a plain '$' nowhere in last place,
  // and the end only there.
  predicate PlainAt(items: seq<Item>, i: nat)
    requires i < |items|
  {
    match items[i]
    case One(c) => if i + 1 < |items| then ItemText(items[i + 1])[0] != '*' else c != '$'
    case Star(_) => true
    case End => i + 1 == |items|
  }

  ghost predicate Plain(items: seq<Item>) {
    forall i :: 0 <= i < |items| ==> PlainAt(items, i)
  }

  // Every pattern is the text of its items, which can stand as they do.
  lemma {:induction false} ItemsOfText(re: string)
    ensures Text(Items(re)) == re && Plain(Items(re))
    decreases |re|
  {
    if re != "" {
      var k := if |re| >= 2 && re[1] == '*' then 2 else 1;
      var items := Items(re);
      if re == "$" && k == 1 {
        assert items[1..] == [];
      } else {
        ItemsOfText(re[k..]);
        assert items[1..] == Items(re[k..]);
        assert re == ItemText(items[0]) + re[k..];
        PlainCons(items[0], Items(re[k..]));
      }
    }
  }

  lemma PlainCons(item: Item, items: seq<Item>)
    requires Plain(items) && PlainAt([item] + items, 0)
    ensures Plain([item] + items)
  {
    var all := [item] + items;
    forall i | 0 <= i < |all| ensures PlainAt(all, i) {
      if i > 0 {
        assert PlainAt(items, i - 1) && all[i] == items[i - 1];
        assert i + 1 < |all| ==> all[i + 1] == items[i];
      }
    }
  }

  // And these are the only items with that text: a pattern can be read in one way only.
  lemma {:induction false} TextOfItems(items: seq<Item>)
    requires Plain(items)
    ensures Items(Text(items)) == items
    decreases |items|
  {
    if items != [] {
      var more := items[1..];
      forall i | 0 <= i < |more| ensures PlainAt(more, i) {
        assert PlainAt(items, i + 1) && more[i] == items[i + 1];
        assert i + 1 < |more| ==> more[i + 1] == items[i + 2];
      }
      TextOfItems(more);
      assert PlainAt(items, 0);
      var t := Text(items);
      if more == [] {
        assert t == ItemText(items[0]);
      } else {
        assert Text(more)[0] == ItemText(more[0])[0];
      }
      assert items[0].Star? ==> t[2..] == Text(more);
      assert items[0].One? ==> t[1..] == Text(more);
    }
  }

  // ---- the language ----

  // part is in the language of one item.
  predicate Denotes(item: Item, part: string) {
    match item
    case One(c) => |part| == 1 && Accepts(c, part[0])
    case Star(c) => forall i :: 0 <= i < |part| ==> Accepts(c, part[i])
    case End => part == ""
  }

  function Flat(parts: seq<string>): (r: string)
    decreases |parts|
  {
    if parts == [] then "" else parts[0] + Flat(parts[1..])
  }

  ghost predicate Fits(items: seq<Item>, parts: seq<string>) {
    && |parts| == |items|
    && forall i :: 0 <= i < |items| ==> Denotes(items[i], parts[i])
  }

  // The text is cut into one part for each item and a rest, which is empty after an End.
  ghost predicate Cut(items: seq<Item>, text: string, parts: seq<string>, rest: string) {
    Fits(items, parts) && text == Flat(parts) + rest && (End in items ==> rest == "")
  }

  // Some text of the pattern's language starts here.
  ghost predicate Begins(items: seq<Item>, text: string) {
    exists parts: seq<string>, rest: string :: Cut(items, text, parts, rest)
  }

  // grep's meaning of a whole pattern: anywhere, or at the start after '^'.
  ghost predicate Means(re: string, text: string) {
    if re != "" && re[0] == '^' then Begins(Items(re[1..]), text)
    else exists k :: 0 <= k <= |text| && Begins(Items(re), text[k..])
  }

  // ---- how a pattern's language unfolds ----

  lemma EmptyBegins(text: string)
    ensures Begins([], text)
  {
    assert Cut([], text, [], text);
  }

  lemma EndBegins(text: string)
    ensures Begins([End], text) <==> text == ""
  {
    if Begins([End], text) {
      var parts: seq<string>, rest: string :| Cut([End], text, parts, rest);
      assert Denotes([End][0], parts[0]) && parts[1..] == [];
      assert Flat(parts) == "" && End in [End];
    }
    if text == "" {
      var parts := [""];
      assert Flat(parts) == "" by { assert parts[1..] == []; }
      assert Fits([End], parts);
      assert Cut([End], text, parts, "");
    }
  }

  // Take the first part off a cut.
  lemma CutTail(item: Item, items: seq<Item>, text: string, parts: seq<string>, rest: string)
    requires Cut([item] + items, text, parts, rest)
    ensures parts != [] && Denotes(item, parts[0]) && |parts[0]| <= |text| && text[..|parts[0]|] == parts[0]
    ensures Cut(items, text[|parts[0]|..], parts[1..], rest)
  {
    var all := [item] + items;
    assert all[0] == item && all[1..] == items;
    assert text == parts[0] + (Flat(parts[1..]) + rest);
    forall i | 0 <= i < |items| ensures Denotes(items[i], parts[1..][i]) {
      assert items[i] == all[i + 1];
    }
    assert End in items ==> End in all;
  }

  // Put a part in front of a cut.
  lemma CutCons(item: Item, items: seq<Item>, part: string, text: string, parts: seq<string>, rest: string)
    requires Cut(items, text, parts, rest) && Denotes(item, part) && item != End
    ensures Cut([item] + items, part + text, [part] + parts, rest)
  {
    var all, whole := [item] + items, [part] + parts;
    assert whole[1..] == parts;
    assert part + text == Flat(whole) + rest;
    forall i | 0 <= i < |all| ensures Denotes(all[i], whole[i]) {
    }
  }

  lemma OneBegins(c: char, items: seq<Item>, text: string)
    ensures Begins([One(c)] + items, text) <==> text != "" && Accepts(c, text[0]) && Begins(items, text[1..])
  {
    if Begins([One(c)] + items, text) {
      var parts: seq<string>, rest: string :| Cut([One(c)] + items, text, parts, rest);
      CutTail(One(c), items, text, parts, rest);
    }
    if text != "" && Accepts(c, text[0]) && Begins(items, text[1..]) {
      var parts: seq<string>, rest: string :| Cut(items, text[1..], parts, rest);
      CutCons(One(c), items, text[..1], text[1..], parts, rest);
      assert text[..1] + text[1..] == text;
    }
  }

  lemma StarBegins(c: char, items: seq<Item>, text: string)
    ensures Begins([Star(c)] + items, text) <==>
            Begins(items, text) || (text != "" && Accepts(c, text[0]) && Begins([Star(c)] + items, text[1..]))
  {
    if Begins([Star(c)] + items, text) {
      StarSplits(c, items, text);
    }
    if Begins(items, text) {
      var parts: seq<string>, rest: string :| Cut(items, text, parts, rest);
      CutCons(Star(c), items, "", text, parts, rest);
      assert "" + text == text;
    }
    if text != "" && Accepts(c, text[0]) && Begins([Star(c)] + items, text[1..]) {
      StarGrows(c, items, text);
    }
  }

  lemma StarSplits(c: char, items: seq<Item>, text: string)
    requires Begins([Star(c)] + items, text)
    ensures Begins(items, text) || (text != "" && Accepts(c, text[0]) && Begins([Star(c)] + items, text[1..]))
  {
    var parts: seq<string>, rest: string :| Cut([Star(c)] + items, text, parts, rest);
    CutTail(Star(c), items, text, parts, rest);
    var n := |parts[0]|;
    if n == 0 {
      assert text[0..] == text;
    } else {
      CutCons(Star(c), items, parts[0][1..], text[n..], parts[1..], rest);
      assert parts[0][1..] + text[n..] == text[1..];
    }
  }

  lemma StarGrows(c: char, items: seq<Item>, text: string)
    requires text != "" && Accepts(c, text[0]) && Begins([Star(c)] + items, text[1..])
    ensures Begins([Star(c)] + items, text)
  {
    var parts: seq<string>, rest: string :| Cut([Star(c)] + items, text[1..], parts, rest);
    CutTail(Star(c), items, text[1..], parts, rest);
    hide Cut;
    var part := text[..1] + parts[0];
    assert Denotes(Star(c), part) by {
      forall i | 0 <= i < |part| ensures Accepts(c, part[i]) {
        assert i > 0 ==> part[i] == parts[0][i - 1];
      }
    }
    CutCons(Star(c), items, part, text[1..][|parts[0]|..], parts[1..], rest);
    assert part + text[1..][|parts[0]|..] == text;
  }

  // ---- the matcher ----

  method Match(re: string, text: string) returns (found: bool)
    ensures found <==> Means(re, text)
  {
    if re != "" && re[0] == '^' {
      found := MatchHere(re[1..], text);
      return;
    }
    found := MatchHere(re, text);
    assert text[0..] == text;
    var k := 0;
    while !found && k < |text|
      invariant 0 <= k <= |text|
      invariant found <==> Begins(Items(re), text[k..])
      invariant forall j :: 0 <= j < k ==> !Begins(Items(re), text[j..])
    {
      k := k + 1;
      found := MatchHere(re, text[k..]);
    }
  }

  // The pattern at the beginning of the text.
  method MatchHere(re: string, text: string) returns (found: bool)
    ensures found <==> Begins(Items(re), text)
    decreases |re|, |text|, 0
  {
    if re == "" {
      EmptyBegins(text);
      found := true;
    } else if |re| >= 2 && re[1] == '*' {
      found := MatchStar(re[0], re[2..], text);
    } else if re == "$" {
      EndBegins(text);
      found := text == "";
    } else {
      OneBegins(re[0], Items(re[1..]), text);
      if text != "" && (re[0] == '.' || re[0] == text[0]) {
        found := MatchHere(re[1..], text[1..]);
      } else {
        found := false;
      }
    }
  }

  // c*re at the beginning of the text.
  method MatchStar(c: char, re: string, text: string) returns (found: bool)
    ensures found <==> Begins([Star(c)] + Items(re), text)
    decreases |re| + 1, |text|, 1
  {
    found := MatchHere(re, text);
    StarBegins(c, Items(re), text);
    assert text[0..] == text;
    var k := 0;
    while !found && k < |text| && (text[k] == c || c == '.')
      invariant 0 <= k <= |text|
      invariant found <==> Begins(Items(re), text[k..])
      invariant Begins([Star(c)] + Items(re), text) <==> Begins([Star(c)] + Items(re), text[k..])
    {
      StarBegins(c, Items(re), text[k..]);
      assert text[k..][1..] == text[k + 1..];
      k := k + 1;
      found := MatchHere(re, text[k..]);
    }
    StarBegins(c, Items(re), text[k..]);
  }
}
