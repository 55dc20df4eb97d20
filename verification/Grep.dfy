/** The pattern matcher of user/grep.c, against the language that a pattern denotes. */
module Grep {
  import opened CString

  // ---------- what a pattern means ----------

  /** One character of the pattern, possibly starred. */
  datatype Item = Item(c: char, star: bool)

  /** A pattern without its leading ^: items, and whether it ends in an unstarred $. */
  datatype Pattern = Pattern(items: seq<Item>, toEnd: bool)

  function Parse(re: string): Pattern {
    if re == "" then Pattern([], false)
    else if |re| >= 2 && re[1] == '*' then
      var p := Parse(re[2..]);
      Pattern([Item(re[0], true)] + p.items, p.toEnd)
    else if re == "$" then Pattern([], true)
    else
      var p := Parse(re[1..]);
      Pattern([Item(re[0], false)] + p.items, p.toEnd)
  }

  predicate CharOk(c: char, x: char) { c == '.' || c == x }

  /** The strings of one item. */
  predicate PieceOk(it: Item, s: string) {
    && (forall i :: 0 <= i < |s| ==> CharOk(it.c, s[i]))
    && (!it.star ==> |s| == 1)
  }

  function Concat(parts: seq<string>): string { if parts == [] then "" else parts[0] + Concat(parts[1..]) }

  /** text starts with parts, one for each item, and ends with them if need be. */
  ghost predicate Spells(p: Pattern, parts: seq<string>, text: string) {
    && |parts| == |p.items|
    && (forall i :: 0 <= i < |parts| ==> PieceOk(p.items[i], parts[i]))
    && Concat(parts) <= text
    && (p.toEnd ==> Concat(parts) == text)
  }

  /** Some string of the pattern's language starts text, and is all of it if the pattern ends in $. */
  ghost predicate Here(re: string, text: string) { exists parts :: Spells(Parse(re), parts, text) }

  /** The pattern is found in text, at the start only under ^. */
  ghost predicate Found(re: string, text: string) {
    if At(re, 0) == '^' then |re| > 0 && Here(re[1..], text)
    else exists i :: 0 <= i <= |text| && Here(re, text[i..])
  }

  // ---------- how it unfolds ----------

  lemma ConcatCons(x: string, rest: seq<string>)
    ensures Concat([x] + rest) == x + Concat(rest)
  {
    assert ([x] + rest)[1..] == rest;
  }

  lemma SpellsTail(p: Pattern, parts: seq<string>, text: string)
    requires p.items != [] && Spells(p, parts, text)
    ensures PieceOk(p.items[0], parts[0]) && parts[0] <= text
    ensures Spells(Pattern(p.items[1..], p.toEnd), parts[1..], text[|parts[0]|..])
  {
    assert Concat(parts) == parts[0] + Concat(parts[1..]);
    var n := |parts[0]|;
    assert forall i :: 0 <= i < n ==> text[i] == Concat(parts)[i];
    assert Concat(parts[1..]) == Concat(parts)[n..];
    assert Concat(parts)[n..] <= text[n..];
  }

  lemma SpellsCons(it: Item, p: Pattern, x: string, parts: seq<string>, text: string)
    requires PieceOk(it, x) && x <= text && Spells(p, parts, text[|x|..])
    ensures Spells(Pattern([it] + p.items, p.toEnd), [x] + parts, text)
  {
    ConcatCons(x, parts);
    assert text == x + text[|x|..];
  }

  lemma HereEmpty(text: string)
    ensures Here("", text)
  {
    assert Spells(Parse(""), [], text);
  }

  lemma HereEnd(text: string)
    ensures Here("$", text) <==> text == ""
  {
    assert Parse("$") == Pattern([], true);
    if text == "" { assert Spells(Parse("$"), [], text); }
  }

  lemma HereOne(re: string, text: string)
    requires re != "" && re != "$" && !(|re| >= 2 && re[1] == '*')
    ensures Here(re, text) <==> text != "" && CharOk(re[0], text[0]) && Here(re[1..], text[1..])
  {
    var p := Parse(re);
    assert p.items[0] == Item(re[0], false) && Pattern(p.items[1..], p.toEnd) == Parse(re[1..]);
    if Here(re, text) {
      var parts :| Spells(p, parts, text);
      SpellsTail(p, parts, text);
      assert parts[0][0] == text[0];
    }
    if text != "" && CharOk(re[0], text[0]) && Here(re[1..], text[1..]) {
      var parts :| Spells(Parse(re[1..]), parts, text[1..]);
      SpellsCons(Item(re[0], false), Parse(re[1..]), [text[0]], parts, text);
    }
  }

  /** The first k characters of text can be c*. */
  predicate Run(c: char, text: string, k: int) {
    0 <= k <= |text| && forall i :: 0 <= i < k ==> CharOk(c, text[i])
  }

  ghost predicate Star(c: char, re: string, text: string) { exists k :: Run(c, text, k) && Here(re, text[k..]) }

  lemma HereStar(re: string, text: string)
    requires |re| >= 2 && re[1] == '*'
    ensures Here(re, text) <==> Star(re[0], re[2..], text)
  {
    var p, q := Parse(re), Parse(re[2..]);
    assert p.items[0] == Item(re[0], true) && Pattern(p.items[1..], p.toEnd) == q;
    if Here(re, text) {
      var parts :| Spells(p, parts, text);
      SpellsTail(p, parts, text);
      assert Run(re[0], text, |parts[0]|);
    }
    if Star(re[0], re[2..], text) {
      var k :| Run(re[0], text, k) && Here(re[2..], text[k..]);
      var parts :| Spells(q, parts, text[k..]);
      SpellsCons(Item(re[0], true), q, text[..k], parts, text);
    }
  }

  // ---------- the matcher ----------

  method Match(re: string, text0: string) returns (found: bool)
    requires NulFree(re) && NulFree(text0)
    ensures found <==> Found(re, text0)
  {
    if At(re, 0) == '^' {
      found := MatchHere(re[1..], text0);
      return;
    }
    var text, more := text0, true;
    ghost var n := 0;
    while more
      invariant 0 <= n <= |text0| + 1 && (more ==> n <= |text0| && text == text0[n..]) && (!more ==> n == |text0| + 1)
      invariant forall i :: 0 <= i < n ==> !Here(re, text0[i..])
      decreases |text0| + 1 - n
    {
      found := MatchHere(re, text);
      if found { return true; }
      more := At(text, 0) != NUL;
      if more { text := text[1..]; }
      n := n + 1;
    }
    return false;
  }

  method MatchHere(re: string, text: string) returns (found: bool)
    requires NulFree(re) && NulFree(text)
    ensures found <==> Here(re, text)
    decreases |re|, 0
  {
    if At(re, 0) == NUL {
      HereEmpty(text);
      return true;
    }
    if At(re, 1) == '*' {
      HereStar(re, text);
      found := MatchStar(re[0], re[2..], text);
      return;
    }
    if At(re, 0) == '$' && At(re, 1) == NUL {
      assert re == "$";
      HereEnd(text);
      return At(text, 0) == NUL;
    }
    HereOne(re, text);
    if At(text, 0) != NUL && (re[0] == '.' || re[0] == At(text, 0)) {
      found := MatchHere(re[1..], text[1..]);
      return;
    }
    return false;
  }

  method MatchStar(c: char, re: string, text0: string) returns (found: bool)
    requires NulFree(re) && NulFree(text0)
    ensures found <==> Star(c, re, text0)
    decreases |re|, 1
  {
    var text, more := text0, true;
    ghost var n := 0;
    while more
      invariant 0 <= n <= |text0| + 1 && (more ==> Run(c, text0, n) && text == text0[n..])
      invariant !more ==> n > 0 && !Run(c, text0, n)
      invariant forall k :: 0 <= k < n ==> !(Run(c, text0, k) && Here(re, text0[k..]))
      decreases |text0| + 1 - n
    {
      found := MatchHere(re, text);
      if found { return true; }
      more := At(text, 0) != NUL && (At(text, 0) == c || c == '.');
      if At(text, 0) != NUL { text := text[1..]; }
      n := n + 1;
    }
    return false;
  }
}
