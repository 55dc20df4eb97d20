/** A command tree as it is typed, with the fewest parentheses, and read back. */
module ShellShow {
  import opened CString
  import opened ShellParse
  import opened ShellPrint
  import opened ShellLex
  import opened ShellGrammar

  // ---------- from a tree to a line ----------

  /** The redirections around a command, the innermost first, and what is inside them. */
  function Around(t: Tree): seq<Redirect> { if t.TRedir? then Around(t.cmd) + [Redirect(t.kind, t.file)] else [] }

  function Core(t: Tree): (r: Tree)
    ensures !r.TRedir? && (r == t || r < t) && (t.TRedir? ==> r < t)
  { if t.TRedir? then Core(t.cmd) else t }

  /** The & signs behind a command, and what is in front of them. */
  function Ampersands(t: Tree): nat { if t.TBack? then 1 + Ampersands(t.cmd) else 0 }

  function Front(t: Tree): (r: Tree)
    ensures !r.TBack? && (r == t || r < t) && (t.TBack? ==> r < t)
  { if t.TBack? then Front(t.cmd) else t }

  /** A simple command with all its redirections behind it. */
  function SimpleOf(argv: seq<string>, rs: seq<Redirect>): Item {
    if argv == [] then Simple(rs, []) else Simple([], ArgsOf(argv, rs))
  }

  function ArgsOf(argv: seq<string>, rs: seq<Redirect>): seq<Arg>
    requires argv != []
  { if |argv| == 1 then [Arg(argv[0], rs)] else [Arg(argv[0], [])] + ArgsOf(argv[1..], rs) }

  predicate Small(t: Tree) { t.TExec? || t.TRedir? }

  function ToItem(t: Tree): Item
    decreases t, if Small(t) then 4 else 5
  {
    var c := Core(t);
    if c.TExec? then SimpleOf(c.argv, Around(t)) else Block(ToLine(c), Around(t))
  }

  function ToPipe(t: Tree): Pipeline
    decreases t, if Small(t) then 5 else if t.TPipe? then 3 else 6
  { if t.TPipe? then Into(ToItem(t.left), ToPipe(t.right)) else Last(ToItem(t)) }

  /** Parentheses go only where the grammar needs them. */
  function ToLine(t: Tree): Line
    decreases t, if Small(t) then 6 else 4
  {
    if t.TList? then Line(ToPipe(Front(t.left)), Ampersands(t.left), Then(ToLine(t.right)))
    else Line(ToPipe(Front(t)), Ampersands(t), End)
  }

  // ---------- the line is the tree's ----------

  lemma {:induction false} WrappedCore(t: Tree)
    ensures Wrapped(Core(t), Around(t)) == t
  {
    if t.TRedir? {
      WrappedCore(t.cmd);
      var rs := Around(t);
      assert rs[..|rs| - 1] == Around(t.cmd);
    }
  }

  lemma {:induction false} BackedFront(t: Tree)
    ensures Backed(Front(t), Ampersands(t)) == t
  {
    if t.TBack? { BackedFront(t.cmd); }
  }

  lemma {:induction false} ArgsOfAre(argv: seq<string>, rs: seq<Redirect>)
    requires argv != []
    ensures |ArgsOf(argv, rs)| == |argv| && WordsOf(ArgsOf(argv, rs)) == argv && RedirsOf(ArgsOf(argv, rs)) == rs
    decreases |argv|
  {
    var a := ArgsOf(argv, rs);
    if |argv| == 1 {
      assert a[1..] == [] && rs + [] == rs;
    } else {
      ArgsOfAre(argv[1..], rs);
      assert a[1..] == ArgsOf(argv[1..], rs);
    }
  }

  lemma SimpleOfIs(argv: seq<string>, rs: seq<Redirect>)
    ensures ItemTree(SimpleOf(argv, rs)) == Wrapped(TExec(argv), rs)
    ensures |argv| < MAXARGS ==> ItemOk(SimpleOf(argv, rs))
  {
    if argv == [] {
      assert rs + [] == rs;
    } else {
      ArgsOfAre(argv, rs);
      assert [] + rs == rs;
    }
  }

  lemma {:induction false} CoreOk(t: Tree)
    requires TreeOk(t)
    ensures TreeOk(Core(t)) && TreeOk(Front(t))
  {
    if t.TRedir? { CoreOk(t.cmd); }
    if t.TBack? { CoreOk(t.cmd); }
  }

  lemma {:induction false} ItemOfTree(t: Tree)
    requires TreeOk(t)
    ensures ItemTree(ToItem(t)) == t && ItemOk(ToItem(t))
    decreases t, if Small(t) then 4 else 5
  {
    var c := Core(t);
    CoreOk(t);
    WrappedCore(t);
    if c.TExec? { SimpleOfIs(c.argv, Around(t)); } else { LineOfTree(c); }
  }

  lemma {:induction false} PipeOfTree(t: Tree)
    requires TreeOk(t)
    ensures PipeTree(ToPipe(t)) == t && PipeOk(ToPipe(t))
    decreases t, if Small(t) then 5 else if t.TPipe? then 3 else 6
  {
    if t.TPipe? {
      ItemOfTree(t.left);
      PipeOfTree(t.right);
    } else {
      ItemOfTree(t);
    }
  }

  lemma {:induction false} LineOfTree(t: Tree)
    requires TreeOk(t)
    ensures LineTree(ToLine(t)) == t && LineOk(ToLine(t))
    decreases t, if Small(t) then 6 else 4
  {
    var l := if t.TList? then t.left else t;
    CoreOk(l);
    BackedFront(l);
    PipeOfTree(Front(l));
    if t.TList? { LineOfTree(t.right); }
  }

  // ---------- no line of the tree has fewer parentheses ----------

  function ItemParens(i: Item): nat { match i case Simple(_, _) => 0 case Block(l, _) => 1 + LineParens(l) }

  function PipeParens(p: Pipeline): nat { ItemParens(p.item) + if p.Into? then PipeParens(p.next) else 0 }

  function LineParens(l: Line): nat { PipeParens(l.pipe) + if l.rest.Then? then LineParens(l.rest.line) else 0 }

  /** A place that asks for less never needs more. */
  lemma LooserPlaces(t: Tree)
    ensures LineParens(ToLine(t)) <= PipeParens(ToPipe(t)) <= ItemParens(ToItem(t))
  {
    if t.TBack? { assert Core(t) == t; }
  }

  lemma LooserFront(t: Tree)
    ensures PipeParens(ToPipe(Front(t))) <= PipeParens(ToPipe(t))
  {
    if t.TBack? { assert Core(t) == t && LineParens(ToLine(t)) == PipeParens(ToPipe(Front(t))); }
  }

  lemma {:induction false} CoreOfWrapped(t: Tree, rs: seq<Redirect>)
    ensures Core(Wrapped(t, rs)) == Core(t)
    decreases |rs|
  {
    if rs != [] { CoreOfWrapped(t, rs[..|rs| - 1]); }
  }

  lemma LooserCore(t: Tree)
    requires !Core(t).TExec?
    ensures LineParens(ToLine(Core(t))) <= LineParens(ToLine(t))
  {
    if t.TRedir? {
      assert Front(t) == t && ToPipe(t) == Last(ToItem(t)) && ToItem(t) == Block(ToLine(Core(t)), Around(t));
      assert LineParens(Line(ToPipe(t), 0, End)) == PipeParens(ToPipe(t)) == ItemParens(ToItem(t)) == 1 + LineParens(ToLine(Core(t)));
    }
  }

  lemma {:induction false} FrontOfBacked(t: Tree, n: nat)
    ensures Front(Backed(t, n)) == Front(t)
  {
    if n > 0 { FrontOfBacked(t, n - 1); }
  }

  lemma {:induction false} FewestInItem(i: Item)
    ensures ItemParens(ToItem(ItemTree(i))) <= ItemParens(i)
    decreases i
  {
    match i
    case Simple(pre, args) =>
      CoreOfWrapped(TExec(WordsOf(args)), pre + RedirsOf(args));
    case Block(l, redirs) =>
      var t := LineTree(l);
      FewestInLine(l);
      CoreOfWrapped(t, redirs);
      if !Core(t).TExec? { LooserCore(t); }
  }

  lemma {:induction false} FewestInPipe(p: Pipeline)
    ensures PipeParens(ToPipe(PipeTree(p))) <= PipeParens(p)
    decreases p
  {
    FewestInItem(p.item);
    if p.Into? { FewestInPipe(p.next); } else { LooserPlaces(PipeTree(p)); }
  }

  /** Of all lines that mean the same, this one has the fewest parentheses. */
  lemma {:induction false} FewestInLine(l: Line)
    ensures LineParens(ToLine(LineTree(l))) <= LineParens(l)
    decreases l
  {
    var t := PipeTree(l.pipe);
    FewestInPipe(l.pipe);
    LooserFront(t);
    FrontOfBacked(t, l.backs);
    if l.rest.Then? { FewestInLine(l.rest.line); }
    else { LineFront(Backed(t, l.backs)); }
  }

  lemma LineFront(t: Tree)
    ensures LineParens(ToLine(t)) <= PipeParens(ToPipe(Front(t)))
  {
    if t.TList? { LooserPlaces(t); }
  }

  // ---------- typing it ----------

  function Spelling(x: Lexeme): string { match x case Sym(c) => [c] case Shift => ">>" case Name(w) => w }

  /** Every token with a space behind it. */
  function Show(xs: seq<Lexeme>): string { if xs == [] then "" else Spelling(xs[0]) + (" " + Show(xs[1..])) }

  predicate LexemeOk(x: Lexeme) { match x case Sym(c) => c in "<|>&;()" case Shift => true case Name(w) => WordOk(w) }

  predicate AllOk(xs: seq<Lexeme>) { forall i :: 0 <= i < |xs| ==> LexemeOk(xs[i]) }

  lemma {:induction false} ShowNulFree(xs: seq<Lexeme>)
    requires AllOk(xs)
    ensures NulFree(Show(xs))
  {
    if xs != [] { ShowNulFree(xs[1..]); }
  }

  lemma OneShown(buf: string, s: int, x: Lexeme, e: int)
    requires LexemeOk(x) && 0 <= s <= e < |buf| && buf[s..e] == Spelling(x) && buf[e] == ' '
    ensures StandsAt(buf, s, x, e)
  {
    assert |Spelling(x)| == e - s && buf[s] == Spelling(x)[0];
    if x.Shift? { assert buf[s + 1] == Spelling(x)[1]; }
  }

  lemma SplitSpace(buf: string, s: int, w: string, rest: string)
    requires 0 <= s <= |buf| && buf[s..] == w + (" " + rest)
    ensures s + |w| < |buf| && buf[s..s + |w|] == w && buf[s + |w|] == ' ' && buf[s + |w| + 1..] == rest
  {
    var b, n := buf[s..], |w|;
    assert b[..n] == w && b[n] == ' ' && b[n + 1..] == rest;
    assert buf[s..s + n] == b[..n] && buf[s + n] == b[n] && buf[s + n + 1..] == b[n + 1..];
  }

  lemma SplitOff(buf: string, s: int, xs: seq<Lexeme>) returns (e: int)
    requires xs != [] && LexemeOk(xs[0]) && 0 <= s <= |buf| && buf[s..] == Show(xs)
    ensures StandsAt(buf, s, xs[0], e) && Gap(buf, e, e + 1) && buf[e + 1..] == Show(xs[1..])
  {
    e := s + |Spelling(xs[0])|;
    SplitSpace(buf, s, Spelling(xs[0]), Show(xs[1..]));
    OneShown(buf, s, xs[0], e);
  }

  lemma TailOk(xs: seq<Lexeme>)
    requires AllOk(xs) && xs != []
    ensures LexemeOk(xs[0]) && AllOk(xs[1..])
  {}

  lemma TypedBegins(buf: string, s: int, e: int, xs: seq<Lexeme>)
    requires xs != [] && StandsAt(buf, s, xs[0], e) && Typed(buf, e, xs[1..])
    ensures Typed(buf, s, xs)
  {
    assert Gap(buf, s, s);
  }

  lemma {:induction false} ShownTyped(buf: string, s: int, xs: seq<Lexeme>)
    requires NulFree(buf) && AllOk(xs) && 0 <= s <= |buf| && buf[s..] == Show(xs)
    ensures Typed(buf, s, xs)
    decreases |xs|
  {
    if xs == [] {
      assert Gap(buf, s, |buf|);
    } else {
      TailOk(xs);
      var e := SplitOff(buf, s, xs);
      ShownTyped(buf, e + 1, xs[1..]);
      TypedFrom(buf, e, e + 1, xs[1..]);
      TypedBegins(buf, s, e, xs);
    }
  }

  // ---------- tokens of trees are well formed ----------

  predicate FilesOk(rs: seq<Redirect>) { forall i :: 0 <= i < |rs| ==> WordOk(rs[i].file) }

  lemma {:induction false} RedirTokensOk(rs: seq<Redirect>)
    requires FilesOk(rs)
    ensures AllOk(RedirTokens(rs))
    decreases |rs|
  {
    if rs != [] { RedirTokensOk(rs[1..]); }
  }

  lemma {:induction false} ArgsOfTokens(argv: seq<string>, rs: seq<Redirect>)
    requires argv != [] && (forall i :: 0 <= i < |argv| ==> WordOk(argv[i])) && FilesOk(rs)
    ensures AllOk(ArgTokens(ArgsOf(argv, rs)))
    decreases |argv|
  {
    var a := ArgsOf(argv, rs);
    RedirTokensOk(rs);
    if |argv| > 1 {
      ArgsOfTokens(argv[1..], rs);
      assert a[1..] == ArgsOf(argv[1..], rs);
    } else {
      assert a[1..] == [];
    }
  }

  lemma {:induction false} AroundOk(t: Tree)
    requires TreeOk(t)
    ensures FilesOk(Around(t))
  {
    if t.TRedir? { AroundOk(t.cmd); }
  }

  lemma {:induction false} ItemTokensOk(t: Tree)
    requires TreeOk(t)
    ensures AllOk(ItemTokens(ToItem(t)))
    decreases t, if Small(t) then 4 else 5
  {
    var c := Core(t);
    CoreOk(t);
    AroundOk(t);
    RedirTokensOk(Around(t));
    if c.TExec? {
      if c.argv != [] { ArgsOfTokens(c.argv, Around(t)); }
    } else {
      LineTokensOk(c);
    }
  }

  lemma {:induction false} PipeTokensOk(t: Tree)
    requires TreeOk(t)
    ensures AllOk(PipeTokens(ToPipe(t)))
    decreases t, if Small(t) then 5 else if t.TPipe? then 3 else 6
  {
    if t.TPipe? {
      ItemTokensOk(t.left);
      PipeTokensOk(t.right);
    } else {
      ItemTokensOk(t);
    }
  }

  lemma {:induction false} BackTokensOk(n: nat)
    ensures AllOk(BackTokens(n))
  {
    if n > 0 { BackTokensOk(n - 1); }
  }

  lemma {:induction false} LineTokensOk(t: Tree)
    requires TreeOk(t)
    ensures AllOk(LineTokens(ToLine(t)))
    decreases t, if Small(t) then 6 else 4
  {
    var l := if t.TList? then t.left else t;
    CoreOk(l);
    PipeTokensOk(Front(l));
    BackTokensOk(Ampersands(l));
    if t.TList? { LineTokensOk(t.right); }
  }

  /** Every tree, typed with the fewest parentheses, parses back to itself. */
  lemma TypedRoundTrip(t: Tree)
    requires TreeOk(t)
    ensures var buf := Show(LineTokens(ToLine(t))); NulFree(buf) && Reads(buf, ParseCmd(buf), t, |buf|)
    ensures forall l: Line :: LineTree(l) == t ==> LineParens(ToLine(t)) <= LineParens(l)
  {
    var xs := LineTokens(ToLine(t));
    LineTokensOk(t);
    ShowNulFree(xs);
    assert Show(xs)[0..] == Show(xs);
    ShownTyped(Show(xs), 0, xs);
    LineOfTree(t);
    SentenceRead(Show(xs), ToLine(t));
    forall l: Line | LineTree(l) == t ensures LineParens(ToLine(t)) <= LineParens(l) { FewestInLine(l); }
  }
}
