/** The tokens of a command line: what gettoken reads, against what is typed. */
module ShellLex {
  import opened CString
  import opened ShellParse
  import opened ShellPrint

  datatype Lexeme = Sym(c: char) | Shift | Name(w: string)

  function LexemeOf(buf: string, t: Token): Lexeme
    requires 0 <= t.w.q <= t.w.eq <= |buf|
  { if t.ret == 'a' then Name(buf[t.w.q..t.w.eq]) else if t.ret == '+' then Shift else Sym(t.ret) }

  /** The tokens from s on, as gettoken returns them one after the other. */
  function Lex(buf: string, s: int): seq<Lexeme>
    requires NulFree(buf) && Pos(buf, s)
    decreases |buf| - s
  {
    var t := GetToken(buf, s);
    if t.ret == NUL then [] else [LexemeOf(buf, t)] + Lex(buf, t.s)
  }

  // ---------- what is typed ----------

  /** x stands in the buffer from q up to e. */
  ghost predicate StandsAt(buf: string, q: int, x: Lexeme, e: int) {
    && 0 <= q < e <= |buf|
    && match x
       case Sym(c) => e == q + 1 && buf[q] == c && c in "<|>&;()" && (c == '>' ==> At(buf, e) != '>')
       case Shift => e == q + 2 && buf[q] == '>' && buf[q + 1] == '>'
       case Name(w) => e == q + |w| && buf[q..e] == w && WordOk(w) && !WordChar(At(buf, e))
  }

  /** Nothing but white space from s up to q. */
  ghost predicate Gap(buf: string, s: int, q: int) { 0 <= s <= q <= |buf| && forall k :: s <= k < q ==> buf[k] in " \t\r\n\U{000B}" }

  /** From s on the buffer has exactly these tokens, with any white space before, between and behind them. */
  ghost predicate Typed(buf: string, s: int, xs: seq<Lexeme>)
    decreases |xs|
  {
    if xs == [] then Gap(buf, s, |buf|)
    else exists q, e :: Gap(buf, s, q) && StandsAt(buf, q, xs[0], e) && Typed(buf, e, xs[1..])
  }

  lemma {:induction false} SkipIs(buf: string, s: int, q: int)
    requires Gap(buf, s, q) && !White(At(buf, q))
    ensures Skip(buf, s) == q
    decreases q - s
  {
    if s < q { SkipIs(buf, s + 1, q); }
  }

  lemma {:induction false} SkipGap(buf: string, s: int)
    requires Pos(buf, s)
    ensures Gap(buf, s, Skip(buf, s))
    decreases |buf| - s
  {
    if s < |buf| && White(buf[s]) { SkipGap(buf, s + 1); }
  }

  lemma LexSkip(buf: string, s: int)
    requires NulFree(buf) && Pos(buf, s)
    ensures GetToken(buf, Skip(buf, s)) == GetToken(buf, s) && Lex(buf, Skip(buf, s)) == Lex(buf, s)
  {
    assert Skip(buf, Skip(buf, s)) == Skip(buf, s);
  }

  lemma TokenIs(buf: string, s: int, q: int, x: Lexeme, e: int)
    requires NulFree(buf) && Gap(buf, s, q) && StandsAt(buf, q, x, e)
    ensures var t := GetToken(buf, s); t.ret != NUL && LexemeOf(buf, t) == x && t.s == Skip(buf, e)
  {
    if x.Name? {
      forall k | q <= k < e ensures WordChar(buf[k]) { assert buf[k] == x.w[k - q]; }
      WordEndIs(buf, q, e - q);
    }
    SkipIs(buf, s, q);
  }

  lemma {:induction false} TypedLex(buf: string, s: int, xs: seq<Lexeme>)
    requires NulFree(buf) && Typed(buf, s, xs)
    ensures Pos(buf, s) && Lex(buf, s) == xs
    decreases |xs|
  {
    if xs == [] {
      SkipIs(buf, s, |buf|);
    } else {
      var q, e :| Gap(buf, s, q) && StandsAt(buf, q, xs[0], e) && Typed(buf, e, xs[1..]);
      TokenIs(buf, s, q, xs[0], e);
      TypedLex(buf, e, xs[1..]);
      LexSkip(buf, e);
    }
  }

  lemma TokenStands(buf: string, s: int)
    requires NulFree(buf) && Pos(buf, s) && GetToken(buf, s).ret != NUL
    ensures var t := GetToken(buf, s); Gap(buf, s, t.w.q) && StandsAt(buf, t.w.q, LexemeOf(buf, t), t.w.eq) && t.s == Skip(buf, t.w.eq)
  {
    var t := GetToken(buf, s);
    SkipGap(buf, s);
    if t.ret == 'a' {
      forall k | t.w.q <= k < t.w.eq ensures WordChar(buf[k]) { WordChars(buf, t.w.q, k); }
    }
  }

  lemma {:induction false} TypedFrom(buf: string, s: int, e: int, xs: seq<Lexeme>)
    requires NulFree(buf) && Gap(buf, s, e) && Typed(buf, e, xs)
    ensures Typed(buf, s, xs)
  {
    if xs != [] {
      var q, f :| Gap(buf, e, q) && StandsAt(buf, q, xs[0], f) && Typed(buf, f, xs[1..]);
      assert Gap(buf, s, q);
    }
  }

  lemma {:induction false} LexTyped(buf: string, s: int)
    requires NulFree(buf) && Pos(buf, s)
    ensures Typed(buf, s, Lex(buf, s))
    decreases |buf| - s
  {
    var t := GetToken(buf, s);
    if t.ret == NUL {
      SkipGap(buf, s);
    } else {
      var xs := Lex(buf, s);
      TokenStands(buf, s);
      LexTyped(buf, t.s);
      SkipGap(buf, t.w.eq);
      TypedFrom(buf, t.w.eq, t.s, Lex(buf, t.s));
      assert xs[1..] == Lex(buf, t.s);
    }
  }

  /** gettoken, called again and again, gives exactly the tokens that were typed. */
  lemma LexesExactly(buf: string, xs: seq<Lexeme>)
    requires NulFree(buf)
    ensures Lex(buf, 0) == xs <==> Typed(buf, 0, xs)
  {
    LexTyped(buf, 0);
    if Typed(buf, 0, xs) { TypedLex(buf, 0, xs); }
  }

  // ---------- the next token ----------

  predicate Starts(xs: seq<Lexeme>, c: char) { xs != [] && xs[0] == Sym(c) }

  predicate StartsRedir(xs: seq<Lexeme>) { Starts(xs, '<') || Starts(xs, '>') || (xs != [] && xs[0] == Shift) }

  /** What peek sees of it, and what gettoken leaves. */
  lemma NextToken(buf: string, s: int)
    requires NulFree(buf) && Pos(buf, s)
    ensures var xs, t, c := Lex(buf, s), GetToken(buf, s), At(buf, Skip(buf, s));
            && (xs == [] <==> t.ret == NUL) && (xs == [] <==> c == NUL) && (xs == [] <==> Skip(buf, s) == |buf|)
            && (xs != [] ==> xs[0] == LexemeOf(buf, t) && xs[1..] == Lex(buf, t.s))
            && (xs != [] && xs[0].Name? <==> t.ret == 'a') && (t.ret == 'a' ==> WordOk(xs[0].w) && SpelledAt(buf, t.w, xs[0].w))
            && (Starts(xs, '(') <==> c == '(') && (Starts(xs, ')') <==> c == ')') && (Starts(xs, '|') <==> c == '|')
            && (Starts(xs, '&') <==> c == '&') && (Starts(xs, ';') <==> c == ';') && (StartsRedir(xs) <==> c == '<' || c == '>')
  {
    var t := GetToken(buf, s);
    if t.ret == 'a' {
      forall k | t.w.q <= k < t.w.eq ensures WordChar(buf[k]) { WordChars(buf, t.w.q, k); }
    }
  }
}
