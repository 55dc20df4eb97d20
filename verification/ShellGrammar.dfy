/** The language of user/sh.c as a grammar over tokens, and the proof that the parser accepts exactly
    its sentences and returns their trees. */
module ShellGrammar {
  import opened CString
  import opened ShellParse
  import opened ShellPrint
  import opened ShellLex

  // ---------- sentences ----------

  datatype Redirect = Redirect(kind: Kind, file: string)

  /** A word and the redirections that follow it. */
  datatype Arg = Arg(word: string, redirs: seq<Redirect>)

  datatype Item = Simple(pre: seq<Redirect>, args: seq<Arg>) | Block(line: Line, redirs: seq<Redirect>)

  datatype Pipeline = Last(item: Item) | Into(item: Item, next: Pipeline)

  /** A pipeline, & signs, and perhaps ; and another line. */
  datatype Line = Line(pipe: Pipeline, backs: nat, rest: Rest)

  datatype Rest = End | Then(line: Line)

  // ---------- their tokens ----------

  function Operator(k: Kind): Lexeme { match k case In => Sym('<') case Out => Sym('>') case Append => Shift }

  function RedirTokens(rs: seq<Redirect>): seq<Lexeme> {
    if rs == [] then [] else [Operator(rs[0].kind), Name(rs[0].file)] + RedirTokens(rs[1..])
  }

  function ArgTokens(args: seq<Arg>): seq<Lexeme> {
    if args == [] then [] else [Name(args[0].word)] + RedirTokens(args[0].redirs) + ArgTokens(args[1..])
  }

  function ItemTokens(i: Item): seq<Lexeme> {
    match i
    case Simple(pre, args) => RedirTokens(pre) + ArgTokens(args)
    case Block(line, redirs) => [Sym('(')] + LineTokens(line) + [Sym(')')] + RedirTokens(redirs)
  }

  function PipeTokens(p: Pipeline): seq<Lexeme> {
    match p
    case Last(i) => ItemTokens(i)
    case Into(i, q) => ItemTokens(i) + [Sym('|')] + PipeTokens(q)
  }

  function BackTokens(n: nat): seq<Lexeme> { if n == 0 then [] else [Sym('&')] + BackTokens(n - 1) }

  function LineTokens(l: Line): seq<Lexeme> { PipeTokens(l.pipe) + BackTokens(l.backs) + RestTokens(l.rest) }

  function RestTokens(r: Rest): seq<Lexeme> { match r case End => [] case Then(l) => [Sym(';')] + LineTokens(l) }

  // ---------- their trees ----------

  function Wrapped(t: Tree, rs: seq<Redirect>): Tree
    decreases |rs|
  { if rs == [] then t else TRedir(Wrapped(t, rs[..|rs| - 1]), rs[|rs| - 1].file, rs[|rs| - 1].kind) }

  function WordsOf(args: seq<Arg>): seq<string> { if args == [] then [] else [args[0].word] + WordsOf(args[1..]) }

  function RedirsOf(args: seq<Arg>): seq<Redirect> { if args == [] then [] else args[0].redirs + RedirsOf(args[1..]) }

  /** All redirections of a simple command, in the order in which they are typed, go around it. */
  function ItemTree(i: Item): Tree {
    match i
    case Simple(pre, args) => Wrapped(TExec(WordsOf(args)), pre + RedirsOf(args))
    case Block(line, redirs) => Wrapped(LineTree(line), redirs)
  }

  function PipeTree(p: Pipeline): Tree {
    match p
    case Last(i) => ItemTree(i)
    case Into(i, q) => TPipe(ItemTree(i), PipeTree(q))
  }

  function Backed(t: Tree, n: nat): Tree { if n == 0 then t else TBack(Backed(t, n - 1)) }

  function LineTree(l: Line): Tree {
    match l.rest
    case End => Backed(PipeTree(l.pipe), l.backs)
    case Then(r) => TList(Backed(PipeTree(l.pipe), l.backs), LineTree(r))
  }

  /** At most MAXARGS - 1 words to a command. */
  predicate ItemOk(i: Item) {
    match i
    case Simple(pre, args) => |args| < MAXARGS
    case Block(line, redirs) => LineOk(line)
  }

  predicate PipeOk(p: Pipeline) { ItemOk(p.item) && (p.Into? ==> PipeOk(p.next)) }

  predicate LineOk(l: Line) { PipeOk(l.pipe) && (l.rest.Then? ==> LineOk(l.rest.line)) }

  // ---------- sequences ----------

  lemma Shifted<T>(a: seq<T>, b: seq<T>)
    requires b != []
    ensures a + [b[0]] + b[1..] == a + b
  {}

  lemma FromNothing<T>(a: seq<T>)
    ensures [] + a == a
  {}

  lemma Grouped<T>(a: seq<T>, b: seq<T>, c: seq<T>)
    ensures a + b + c == a + (b + c)
  {}

  lemma Parts<T>(a: seq<T>, b: seq<T>, all: seq<T>)
    requires all == a + b
    ensures |a| <= |all| && all[|a|..] == b && forall i :: 0 <= i < |a| ==> all[i] == a[i]
  {}

  lemma FirstAndRest<T>(s: seq<T>)
    requires s != []
    ensures s == [s[0]] + s[1..]
  {}

  lemma MoreArgs(ws: seq<string>, ds: seq<Redirect>, args: seq<Arg>)
    requires args != []
    ensures ws + [args[0].word] + WordsOf(args[1..]) == ws + WordsOf(args)
    ensures ds + args[0].redirs + RedirsOf(args[1..]) == ds + RedirsOf(args)
  {
    Grouped(ws, [args[0].word], WordsOf(args[1..]));
    Grouped(ds, args[0].redirs, RedirsOf(args[1..]));
  }

  lemma ArgsBegin(a: Arg, args: seq<Arg>, tail: seq<Lexeme>)
    ensures ArgTokens([a] + args) + tail == [Name(a.word)] + (RedirTokens(a.redirs) + (ArgTokens(args) + tail))
  {
    assert ([a] + args)[1..] == args;
    Grouped([Name(a.word)] + RedirTokens(a.redirs), ArgTokens(args), tail);
    Grouped([Name(a.word)], RedirTokens(a.redirs), ArgTokens(args) + tail);
  }

  lemma RedirsBegin(r: Redirect, rs: seq<Redirect>, tail: seq<Lexeme>)
    ensures RedirTokens([r] + rs) + tail == [Operator(r.kind), Name(r.file)] + (RedirTokens(rs) + tail)
  {
    assert ([r] + rs)[1..] == rs;
    Grouped([Operator(r.kind), Name(r.file)], RedirTokens(rs), tail);
  }

  // ---------- redirections ----------

  /** The parsed redirections are these. */
  ghost predicate Says(buf: string, rs: seq<Redirection>, ds: seq<Redirect>) {
    |rs| == |ds| && forall i :: 0 <= i < |rs| ==> WordAt(buf, rs[i].file) && SpelledAt(buf, rs[i].file, ds[i].file) && rs[i].kind == ds[i].kind
  }

  lemma {:induction false} WrapText(buf: string, cmd: Cmd, rs: seq<Redirection>, ds: seq<Redirect>)
    requires WordsAt(buf, cmd) && Says(buf, rs, ds)
    ensures WordsAt(buf, Wrap(cmd, rs)) && Text(buf, Wrap(cmd, rs)) == Wrapped(Text(buf, cmd), ds)
    decreases |rs|
  {
    if rs != [] { WrapText(buf, cmd, rs[..|rs| - 1], ds[..|ds| - 1]); }
  }

  /** One turn of parseredirs. */
  lemma RedirTurn(buf: string, rs: seq<Redirection>, s: int) returns (r: Redirection, s': int)
    requires NulFree(buf) && Pos(buf, s) && (forall i :: 0 <= i < |rs| ==> WordAt(buf, rs[i].file))
    requires var xs := Lex(buf, s); |xs| >= 2 && StartsRedir(xs) && xs[1].Name?
    ensures s < s' <= |buf| && WordAt(buf, r.file) && SpelledAt(buf, r.file, Lex(buf, s)[1].w) && Lex(buf, s)[0] == Operator(r.kind)
    ensures Lex(buf, s') == Lex(buf, s)[2..] && ParseRedirs(buf, rs, s) == ParseRedirs(buf, rs + [r], s')
  {
    var q := Skip(buf, s);
    NextToken(buf, s);
    LexSkip(buf, s);
    var op := GetToken(buf, q);
    NextToken(buf, op.s);
    var file := GetToken(buf, op.s);
    r, s' := Redirection(file.w, KindOf(op.ret)), file.s;
  }

  lemma RedirsEnd(buf: string, rs: seq<Redirection>, s: int)
    requires NulFree(buf) && Pos(buf, s) && (forall i :: 0 <= i < |rs| ==> WordAt(buf, rs[i].file)) && !StartsRedir(Lex(buf, s))
    ensures ParseRedirs(buf, rs, s) == RedirsOk(rs, Skip(buf, s)) && Lex(buf, Skip(buf, s)) == Lex(buf, s)
  {
    NextToken(buf, s);
    LexSkip(buf, s);
  }

  lemma RedirHead(xs: seq<Lexeme>, more: seq<Redirect>, rest: seq<Lexeme>)
    requires xs == RedirTokens(more) + rest && more != []
    ensures |xs| >= 2 && StartsRedir(xs) && xs[0] == Operator(more[0].kind) && xs[1] == Name(more[0].file) && xs[2..] == RedirTokens(more[1..]) + rest
  {
    FirstAndRest(more);
    RedirsBegin(more[0], more[1..], rest);
    Parts([Operator(more[0].kind), Name(more[0].file)], RedirTokens(more[1..]) + rest, xs);
  }

  lemma SaysMore(buf: string, rs: seq<Redirection>, ds: seq<Redirect>, r: Redirection, d: Redirect)
    requires Says(buf, rs, ds) && WordAt(buf, r.file) && SpelledAt(buf, r.file, d.file) && Operator(r.kind) == Operator(d.kind)
    ensures Says(buf, rs + [r], ds + [d])
  {}

  lemma {:induction false} RedirsParse(buf: string, rs: seq<Redirection>, ds: seq<Redirect>, s: int, more: seq<Redirect>, rest: seq<Lexeme>)
    requires NulFree(buf) && Pos(buf, s) && Says(buf, rs, ds) && Lex(buf, s) == RedirTokens(more) + rest && !StartsRedir(rest)
    ensures var r := ParseRedirs(buf, rs, s); r.RedirsOk? && Says(buf, r.rs, ds + more) && Lex(buf, r.s) == rest
    decreases |more|
  {
    if more == [] {
      assert Lex(buf, s) == rest && ds + more == ds;
      RedirsEnd(buf, rs, s);
    } else {
      RedirHead(Lex(buf, s), more, rest);
      var r, s' := RedirTurn(buf, rs, s);
      SaysMore(buf, rs, ds, r, more[0]);
      RedirsParse(buf, rs + [r], ds + [more[0]], s', more[1..], rest);
      Shifted(ds, more);
    }
  }

  lemma {:induction false} RedirsSound(buf: string, rs: seq<Redirection>, s: int) returns (more: seq<Redirect>)
    requires NulFree(buf) && Pos(buf, s) && (forall i :: 0 <= i < |rs| ==> WordAt(buf, rs[i].file)) && ParseRedirs(buf, rs, s).RedirsOk?
    ensures Lex(buf, s) == RedirTokens(more) + Lex(buf, ParseRedirs(buf, rs, s).s)
    decreases |buf| - s
  {
    NextToken(buf, s);
    LexSkip(buf, s);
    var xs := Lex(buf, s);
    if StartsRedir(xs) {
      var op := GetToken(buf, Skip(buf, s));
      NextToken(buf, op.s);
      var r, s' := RedirTurn(buf, rs, s);
      var rest := RedirsSound(buf, rs + [r], s');
      more := [Redirect(r.kind, xs[1].w)] + rest;
      RedirsBegin(more[0], rest, Lex(buf, ParseRedirs(buf, rs, s).s));
      assert xs == [xs[0], xs[1]] + xs[2..];
    } else {
      more := [];
    }
  }

  // ---------- arguments ----------

  ghost predicate Spells(buf: string, argv: seq<Word>, ws: seq<string>) {
    |argv| == |ws| && forall i :: 0 <= i < |argv| ==> WordAt(buf, argv[i]) && SpelledAt(buf, argv[i], ws[i])
  }

  /** A simple command ends here. */
  predicate AtStop(xs: seq<Lexeme>) { xs == [] || Starts(xs, '|') || Starts(xs, ')') || Starts(xs, '&') || Starts(xs, ';') }

  ghost predicate Fine(buf: string, argv: seq<Word>, rs: seq<Redirection>, s: int) {
    && NulFree(buf) && Pos(buf, s) && |argv| < MAXARGS
    && (forall i :: 0 <= i < |argv| ==> WordAt(buf, argv[i])) && forall i :: 0 <= i < |rs| ==> WordAt(buf, rs[i].file)
  }

  lemma ArgsEnd2(buf: string, argv: seq<Word>, rs: seq<Redirection>, s: int)
    requires Fine(buf, argv, rs, s) && AtStop(Lex(buf, s))
    ensures var r := ParseArgs(buf, argv, rs, s); r.ArgsOk? && r.argv == argv && r.rs == rs && Lex(buf, r.s) == Lex(buf, s)
  {
    NextToken(buf, s);
    LexSkip(buf, s);
    NextToken(buf, GetToken(buf, s).s);
  }

  /** One turn of parseexec's loop, up to the redirections. */
  lemma ArgTurn(buf: string, argv: seq<Word>, rs: seq<Redirection>, s: int) returns (w: Word, s': int)
    requires Fine(buf, argv, rs, s) && |argv| + 1 < MAXARGS && Lex(buf, s) != [] && Lex(buf, s)[0].Name?
    ensures s < s' <= |buf| && WordAt(buf, w) && SpelledAt(buf, w, Lex(buf, s)[0].w) && Lex(buf, s') == Lex(buf, s)[1..]
    ensures var r := ParseRedirs(buf, rs, s');
            ParseArgs(buf, argv, rs, s) == if r.RedirsPanic? then ArgsPanic else ParseArgs(buf, argv + [w], r.rs, r.s)
  {
    var q := Skip(buf, s);
    NextToken(buf, s);
    LexSkip(buf, s);
    var tok := GetToken(buf, q);
    w, s' := tok.w, tok.s;
  }

  lemma ArgHead(xs: seq<Lexeme>, args: seq<Arg>, rest: seq<Lexeme>)
    requires xs == ArgTokens(args) + rest && args != []
    ensures xs != [] && xs[0] == Name(args[0].word) && xs[1..] == RedirTokens(args[0].redirs) + (ArgTokens(args[1..]) + rest)
  {
    FirstAndRest(args);
    ArgsBegin(args[0], args[1..], rest);
    Parts([Name(args[0].word)], RedirTokens(args[0].redirs) + (ArgTokens(args[1..]) + rest), xs);
  }

  lemma NoRedirAhead(args: seq<Arg>, rest: seq<Lexeme>)
    requires AtStop(rest)
    ensures !StartsRedir(ArgTokens(args) + rest)
  {
    if args == [] { assert ArgTokens(args) + rest == rest; }
    else { ArgHead(ArgTokens(args) + rest, args, rest); }
  }

  lemma SpellsMore(buf: string, argv: seq<Word>, ws: seq<string>, w: Word, str: string)
    requires Spells(buf, argv, ws) && WordAt(buf, w) && SpelledAt(buf, w, str)
    ensures Spells(buf, argv + [w], ws + [str])
  {}

  /** The argument loop reads what was typed: the words, and all redirections in order. */
  lemma {:induction false} ArgsRead(buf: string, argv: seq<Word>, ws: seq<string>, rs: seq<Redirection>, ds: seq<Redirect>, s: int, args: seq<Arg>, rest: seq<Lexeme>)
    requires Fine(buf, argv, rs, s) && Spells(buf, argv, ws) && Says(buf, rs, ds) && |argv| + |args| < MAXARGS
    requires Lex(buf, s) == ArgTokens(args) + rest && AtStop(rest)
    ensures var r := ParseArgs(buf, argv, rs, s);
            r.ArgsOk? && Spells(buf, r.argv, ws + WordsOf(args)) && Says(buf, r.rs, ds + RedirsOf(args)) && Lex(buf, r.s) == rest
    decreases |args|
  {
    if args == [] {
      assert Lex(buf, s) == rest && ws + WordsOf(args) == ws && ds + RedirsOf(args) == ds;
      ArgsEnd2(buf, argv, rs, s);
    } else {
      var a, tail := args[0], ArgTokens(args[1..]) + rest;
      ArgHead(Lex(buf, s), args, rest);
      var w, s' := ArgTurn(buf, argv, rs, s);
      NoRedirAhead(args[1..], rest);
      RedirsParse(buf, rs, ds, s', a.redirs, tail);
      var r := ParseRedirs(buf, rs, s');
      SpellsMore(buf, argv, ws, w, a.word);
      ArgsRead(buf, argv + [w], ws + [a.word], r.rs, ds + a.redirs, r.s, args[1..], rest);
      MoreArgs(ws, ds, args);
    }
  }

  lemma {:induction false} ArgsSound(buf: string, argv: seq<Word>, rs: seq<Redirection>, s: int) returns (args: seq<Arg>)
    requires Fine(buf, argv, rs, s) && ParseArgs(buf, argv, rs, s).ArgsOk?
    ensures var r := ParseArgs(buf, argv, rs, s); Lex(buf, s) == ArgTokens(args) + Lex(buf, r.s) && |argv| + |args| < MAXARGS && AtStop(Lex(buf, r.s))
    decreases |buf| - s
  {
    var xs := Lex(buf, s);
    NextToken(buf, s);
    LexSkip(buf, s);
    if AtStop(xs) {
      ArgsEnd2(buf, argv, rs, s);
      args := [];
    } else {
      var w, s' := ArgTurn(buf, argv, rs, s);
      var redirs := RedirsSound(buf, rs, s');
      var r := ParseRedirs(buf, rs, s');
      var rest := ArgsSound(buf, argv + [w], r.rs, r.s);
      args := [Arg(xs[0].w, redirs)] + rest;
      ArgsBegin(args[0], rest, Lex(buf, ParseArgs(buf, argv, rs, s).s));
      assert xs == [xs[0]] + xs[1..];
    }
  }

  // ---------- commands, pipelines, lines: what is typed is read ----------

  /** r is the command t, and these tokens are left. */
  ghost predicate ReadsTo(buf: string, r: Result, t: Tree, rest: seq<Lexeme>) {
    && NulFree(buf) && r.Ok? && Pos(buf, r.s) && Skip(buf, r.s) == r.s && WordsAt(buf, r.cmd)
    && Text(buf, r.cmd) == t && Lex(buf, r.s) == rest
  }

  lemma NoParenAhead(pre: seq<Redirect>, args: seq<Arg>, rest: seq<Lexeme>)
    requires AtStop(rest)
    ensures !Starts(RedirTokens(pre) + (ArgTokens(args) + rest), '(')
  {
    if pre != [] { RedirHead(RedirTokens(pre) + (ArgTokens(args) + rest), pre, ArgTokens(args) + rest); }
    else if args != [] { ArgHead(ArgTokens(args) + rest, args, rest); }
  }

  lemma SpelledWords(buf: string, argv: seq<Word>, ws: seq<string>)
    requires Spells(buf, argv, ws) && |argv| < MAXARGS
    ensures WordsAt(buf, Exec(argv)) && Text(buf, Exec(argv)) == TExec(ws)
  {
    assert Text(buf, Exec(argv)).argv == ws;
  }

  lemma SimpleIs(buf: string, q: int, r: Redirs, a: Args)
    requires NulFree(buf) && Pos(buf, q) && Skip(buf, q) == q && At(buf, q) != '(' && r == ParseRedirs(buf, [], q) && r.RedirsOk?
    requires a == ParseArgs(buf, [], r.rs, r.s) && a.ArgsOk?
    ensures ParseExec(buf, q) == Ok(Wrap(Exec(a.argv), a.rs), a.s)
  {}

  /** The redirections in front of a simple command and its arguments. */
  lemma PartsRead(buf: string, q: int, pre: seq<Redirect>, args: seq<Arg>, rest: seq<Lexeme>) returns (r: Redirs, a: Args)
    requires NulFree(buf) && Pos(buf, q) && Lex(buf, q) == RedirTokens(pre) + (ArgTokens(args) + rest) && AtStop(rest) && |args| < MAXARGS
    ensures r == ParseRedirs(buf, [], q) && r.RedirsOk? && a == ParseArgs(buf, [], r.rs, r.s) && a.ArgsOk?
    ensures Spells(buf, a.argv, WordsOf(args)) && Says(buf, a.rs, pre + RedirsOf(args)) && Lex(buf, a.s) == rest
  {
    NoRedirAhead(args, rest);
    RedirsParse(buf, [], [], q, pre, ArgTokens(args) + rest);
    r := ParseRedirs(buf, [], q);
    FromNothing(pre);
    FromNothing(WordsOf(args));
    ArgsRead(buf, [], [], r.rs, pre, r.s, args, rest);
    a := ParseArgs(buf, [], r.rs, r.s);
  }

  lemma SimpleRead(buf: string, s: int, pre: seq<Redirect>, args: seq<Arg>, rest: seq<Lexeme>)
    requires NulFree(buf) && Pos(buf, s) && Lex(buf, s) == RedirTokens(pre) + (ArgTokens(args) + rest) && AtStop(rest) && |args| < MAXARGS
    ensures ReadsTo(buf, ParseExec(buf, s), ItemTree(Simple(pre, args)), rest)
  {
    var q := Skip(buf, s);
    NoParenAhead(pre, args, rest);
    NextToken(buf, s);
    LexSkip(buf, s);
    var r, a := PartsRead(buf, q, pre, args, rest);
    SimpleIs(buf, q, r, a);
    ExecSkips(buf, s);
    SpelledWords(buf, a.argv, WordsOf(args));
    WrapText(buf, Exec(a.argv), a.rs, pre + RedirsOf(args));
  }

  lemma SymbolNext(buf: string, s: int, c: char, rest: seq<Lexeme>)
    requires NulFree(buf) && Pos(buf, s) && Lex(buf, s) == [Sym(c)] + rest && c in "(|&;)"
    ensures At(buf, Skip(buf, s)) == c && s < GetToken(buf, s).s && Lex(buf, GetToken(buf, s).s) == rest
    ensures GetToken(buf, Skip(buf, s)) == GetToken(buf, s)
  {
    NextToken(buf, s);
    LexSkip(buf, s);
    Parts([Sym(c)], rest, Lex(buf, s));
  }

  lemma BodyRead(buf: string, q: int, t: Tree, s1: int, r: Result, rest: seq<Lexeme>)
    requires NulFree(buf) && Pos(buf, q) && Skip(buf, q) == q && At(buf, q) == '(' && s1 == GetToken(buf, q).s
    requires r == ParseLine(buf, s1) && ReadsTo(buf, r, t, [Sym(')')] + rest)
    ensures ReadsTo(buf, BlockBody(buf, q), t, rest)
  {
    SymbolNext(buf, r.s, ')', rest);
    LexSkip(buf, GetToken(buf, r.s).s);
  }

  lemma RedirectedRead(buf: string, q: int, t: Tree, redirs: seq<Redirect>, rest: seq<Lexeme>)
    requires NulFree(buf) && Pos(buf, q) && Skip(buf, q) == q && At(buf, q) == '('
    requires ReadsTo(buf, BlockBody(buf, q), t, RedirTokens(redirs) + rest) && !StartsRedir(rest)
    ensures ReadsTo(buf, ParseExec(buf, q), Wrapped(t, redirs), rest)
  {
    var b := BlockBody(buf, q);
    RedirsParse(buf, [], [], b.s, redirs, rest);
    var r := ParseRedirs(buf, [], b.s);
    FromNothing(redirs);
    WrapText(buf, b.cmd, r.rs, redirs);
  }

  lemma BlockTokens(line: Line, redirs: seq<Redirect>, rest: seq<Lexeme>)
    ensures ItemTokens(Block(line, redirs)) + rest == [Sym('(')] + (LineTokens(line) + ([Sym(')')] + (RedirTokens(redirs) + rest)))
  {
    Grouped([Sym('(')] + LineTokens(line) + [Sym(')')], RedirTokens(redirs), rest);
    Grouped([Sym('(')] + LineTokens(line), [Sym(')')], RedirTokens(redirs) + rest);
    Grouped([Sym('(')], LineTokens(line), [Sym(')')] + (RedirTokens(redirs) + rest));
  }

  lemma ExecSkips(buf: string, s: int)
    requires NulFree(buf) && Pos(buf, s)
    ensures ParseExec(buf, s) == ParseExec(buf, Skip(buf, s))
  {
    assert Skip(buf, Skip(buf, s)) == Skip(buf, s);
  }

  lemma {:induction false} ItemRead(buf: string, s: int, i: Item, rest: seq<Lexeme>)
    requires NulFree(buf) && Pos(buf, s) && Lex(buf, s) == ItemTokens(i) + rest && AtStop(rest) && ItemOk(i)
    ensures ReadsTo(buf, ParseExec(buf, s), ItemTree(i), rest)
    decreases i
  {
    match i
    case Simple(pre, args) =>
      Grouped(RedirTokens(pre), ArgTokens(args), rest);
      SimpleRead(buf, s, pre, args, rest);
    case Block(line, redirs) =>
      var q, tail := Skip(buf, s), RedirTokens(redirs) + rest;
      BlockTokens(line, redirs, rest);
      SymbolNext(buf, s, '(', LineTokens(line) + ([Sym(')')] + tail));
      var s1 := GetToken(buf, q).s;
      ParenFollows(line, [Sym(')')] + tail);
      LineRead(buf, s1, line, [Sym(')')] + tail);
      BodyRead(buf, q, LineTree(line), s1, ParseLine(buf, s1), tail);
      RedirectedRead(buf, q, LineTree(line), redirs, rest);
      ExecSkips(buf, s);
  }

  lemma PipeGoesOn(buf: string, s: int, t: Tree, u: Tree, rest: seq<Lexeme>, more: seq<Lexeme>)
    requires NulFree(buf) && Pos(buf, s) && ReadsTo(buf, ParseExec(buf, s), t, [Sym('|')] + more)
    requires var s1 := GetToken(buf, ParseExec(buf, s).s).s; ReadsTo(buf, ParsePipe(buf, s1), u, rest)
    ensures ReadsTo(buf, ParsePipe(buf, s), TPipe(t, u), rest)
  {
    SymbolNext(buf, ParseExec(buf, s).s, '|', more);
  }

  lemma PipeEnds(buf: string, s: int, t: Tree, rest: seq<Lexeme>)
    requires NulFree(buf) && Pos(buf, s) && ReadsTo(buf, ParseExec(buf, s), t, rest) && !Starts(rest, '|')
    ensures ReadsTo(buf, ParsePipe(buf, s), t, rest)
  {
    NextToken(buf, ParseExec(buf, s).s);
  }

  lemma {:induction false} PipeRead(buf: string, s: int, p: Pipeline, rest: seq<Lexeme>)
    requires NulFree(buf) && Pos(buf, s) && Lex(buf, s) == PipeTokens(p) + rest && AtStop(rest) && !Starts(rest, '|') && PipeOk(p)
    ensures ReadsTo(buf, ParsePipe(buf, s), PipeTree(p), rest)
    decreases p
  {
    match p
    case Last(i) =>
      ItemRead(buf, s, i, rest);
      PipeEnds(buf, s, ItemTree(i), rest);
    case Into(i, next) =>
      var more := PipeTokens(next) + rest;
      Grouped(ItemTokens(i) + [Sym('|')], PipeTokens(next), rest);
      Grouped(ItemTokens(i), [Sym('|')], more);
      ItemRead(buf, s, i, [Sym('|')] + more);
      var e := ParseExec(buf, s);
      SymbolNext(buf, e.s, '|', more);
      PipeRead(buf, GetToken(buf, e.s).s, next, rest);
      PipeGoesOn(buf, s, ItemTree(i), PipeTree(next), rest, more);
  }

  lemma {:induction false} BackedIn(t: Tree, n: nat)
    requires n > 0
    ensures Backed(TBack(t), n - 1) == Backed(t, n)
  {
    if n > 1 { BackedIn(t, n - 1); }
  }

  lemma {:induction false} BacksRead(buf: string, cmd: Cmd, s: int, n: nat, rest: seq<Lexeme>)
    requires NulFree(buf) && Pos(buf, s) && Skip(buf, s) == s && WordsAt(buf, cmd) && Lex(buf, s) == BackTokens(n) + rest && !Starts(rest, '&')
    ensures ReadsTo(buf, Backs(buf, cmd, s), Backed(Text(buf, cmd), n), rest)
    decreases n
  {
    if n == 0 {
      assert Lex(buf, s) == rest;
      NextToken(buf, s);
    } else {
      Grouped([Sym('&')], BackTokens(n - 1), rest);
      SymbolNext(buf, s, '&', BackTokens(n - 1) + rest);
      var s1 := GetToken(buf, s).s;
      BacksRead(buf, Back(cmd), s1, n - 1, rest);
      BackedIn(Text(buf, cmd), n);
    }
  }

  /** What may follow a line. */
  predicate MayFollow(l: Line, rest: seq<Lexeme>) {
    match l.rest
    case End => rest == [] || Starts(rest, ')') || (l.backs > 0 && !Starts(rest, '&') && !Starts(rest, ';'))
    case Then(r) => MayFollow(r, rest)
  }

  lemma {:induction false} ParenFollows(l: Line, rest: seq<Lexeme>)
    requires rest == [] || Starts(rest, ')')
    ensures MayFollow(l, rest)
  {
    if l.rest.Then? { ParenFollows(l.rest.line, rest); }
  }

  lemma LineEnds(buf: string, s: int, t: Tree, rest: seq<Lexeme>)
    requires NulFree(buf) && Pos(buf, s) && ParsePipe(buf, s).Ok? && ReadsTo(buf, Backs(buf, ParsePipe(buf, s).cmd, ParsePipe(buf, s).s), t, rest)
    requires !Starts(rest, ';')
    ensures ReadsTo(buf, ParseLine(buf, s), t, rest)
  {
    NextToken(buf, Backs(buf, ParsePipe(buf, s).cmd, ParsePipe(buf, s).s).s);
  }

  lemma LineGoesOn(buf: string, s: int, t: Tree, u: Tree, rest: seq<Lexeme>, more: seq<Lexeme>)
    requires NulFree(buf) && Pos(buf, s) && ParsePipe(buf, s).Ok?
    requires ReadsTo(buf, Backs(buf, ParsePipe(buf, s).cmd, ParsePipe(buf, s).s), t, [Sym(';')] + more)
    requires var b := Backs(buf, ParsePipe(buf, s).cmd, ParsePipe(buf, s).s); ReadsTo(buf, ParseLine(buf, GetToken(buf, b.s).s), u, rest)
    ensures ReadsTo(buf, ParseLine(buf, s), TList(t, u), rest)
  {
    SymbolNext(buf, Backs(buf, ParsePipe(buf, s).cmd, ParsePipe(buf, s).s).s, ';', more);
  }

  /** The pipeline of a line and its & signs. */
  lemma {:induction false} FrontRead(buf: string, s: int, l: Line, more: seq<Lexeme>)
    requires NulFree(buf) && Pos(buf, s) && LineOk(l) && Lex(buf, s) == PipeTokens(l.pipe) + (BackTokens(l.backs) + more)
    requires !Starts(more, '&') && (l.backs > 0 || (AtStop(more) && !Starts(more, '|')))
    ensures var p := ParsePipe(buf, s);
            p.Ok? && Pos(buf, p.s) && Skip(buf, p.s) == p.s && WordsAt(buf, p.cmd) && ReadsTo(buf, Backs(buf, p.cmd, p.s), Backed(PipeTree(l.pipe), l.backs), more)
    decreases l, 0
  {
    var rest := BackTokens(l.backs) + more;
    if l.backs == 0 { assert rest == more; }
    else { Grouped([Sym('&')], BackTokens(l.backs - 1), more); }
    PipeRead(buf, s, l.pipe, rest);
    var p := ParsePipe(buf, s);
    BacksRead(buf, p.cmd, p.s, l.backs, more);
  }

  lemma {:induction false} LineRead(buf: string, s: int, l: Line, rest: seq<Lexeme>)
    requires NulFree(buf) && Pos(buf, s) && Lex(buf, s) == LineTokens(l) + rest && MayFollow(l, rest) && LineOk(l)
    ensures ReadsTo(buf, ParseLine(buf, s), LineTree(l), rest)
    decreases l, 1
  {
    var t, more := Backed(PipeTree(l.pipe), l.backs), RestTokens(l.rest) + rest;
    Grouped(PipeTokens(l.pipe) + BackTokens(l.backs), RestTokens(l.rest), rest);
    Grouped(PipeTokens(l.pipe), BackTokens(l.backs), more);
    match l.rest
    case End =>
      assert more == rest;
      FrontRead(buf, s, l, rest);
      LineEnds(buf, s, t, rest);
    case Then(r) =>
      Grouped([Sym(';')], LineTokens(r), rest);
      FrontRead(buf, s, l, more);
      var p := ParsePipe(buf, s);
      var b := Backs(buf, p.cmd, p.s);
      SymbolNext(buf, b.s, ';', LineTokens(r) + rest);
      LineRead(buf, GetToken(buf, b.s).s, r, rest);
      LineGoesOn(buf, s, t, LineTree(r), rest, LineTokens(r) + rest);
  }

  // ---------- what is read was typed ----------

  lemma SymbolThere(buf: string, s: int, c: char)
    requires NulFree(buf) && Pos(buf, s) && At(buf, Skip(buf, s)) == c && c in "(|&;)"
    ensures Lex(buf, s) == [Sym(c)] + Lex(buf, GetToken(buf, s).s) && s < GetToken(buf, s).s && GetToken(buf, Skip(buf, s)) == GetToken(buf, s)
  {
    NextToken(buf, s);
    LexSkip(buf, s);
    FirstAndRest(Lex(buf, s));
  }

  lemma {:induction false} SimpleSound(buf: string, s: int) returns (i: Item)
    requires NulFree(buf) && Pos(buf, s) && At(buf, Skip(buf, s)) != '(' && ParseExec(buf, s).Ok?
    ensures ItemOk(i) && Lex(buf, s) == ItemTokens(i) + Lex(buf, ParseExec(buf, s).s)
  {
    var q := Skip(buf, s);
    LexSkip(buf, s);
    var pre := RedirsSound(buf, [], q);
    var r := ParseRedirs(buf, [], q);
    var args := ArgsSound(buf, [], r.rs, r.s);
    i := Simple(pre, args);
    Grouped(RedirTokens(pre), ArgTokens(args), Lex(buf, ParseExec(buf, s).s));
  }

  lemma BlockSound(buf: string, q: int, s1: int, line: Line, b: Result, redirs: seq<Redirect>, e: int)
    requires NulFree(buf) && Pos(buf, q) && Skip(buf, q) == q && At(buf, q) == '(' && s1 == GetToken(buf, q).s && Pos(buf, e)
    requires ParseLine(buf, s1).Ok? && Lex(buf, s1) == LineTokens(line) + Lex(buf, ParseLine(buf, s1).s)
    requires b == BlockBody(buf, q) && b.Ok? && Lex(buf, b.s) == RedirTokens(redirs) + Lex(buf, e)
    ensures Lex(buf, q) == ItemTokens(Block(line, redirs)) + Lex(buf, e)
  {
    SymbolThere(buf, q, '(');
    SymbolThere(buf, ParseLine(buf, s1).s, ')');
    BlockTokens(line, redirs, Lex(buf, e));
  }

  lemma BlockInside(buf: string, q: int)
    requires NulFree(buf) && Pos(buf, q) && Skip(buf, q) == q && At(buf, q) == '(' && ParseExec(buf, q).Ok?
    ensures q < GetToken(buf, q).s && ParseLine(buf, GetToken(buf, q).s).Ok?
    ensures var b := BlockBody(buf, q);
            b.Ok? && Pos(buf, b.s) && ParseRedirs(buf, [], b.s).RedirsOk? && ParseExec(buf, q).s == ParseRedirs(buf, [], b.s).s
  {
    assert ParseExec(buf, q) == ParseBlock(buf, q);
  }

  lemma {:induction false} ItemSound(buf: string, s: int) returns (i: Item)
    requires NulFree(buf) && Pos(buf, s) && ParseExec(buf, s).Ok?
    ensures ItemOk(i) && Lex(buf, s) == ItemTokens(i) + Lex(buf, ParseExec(buf, s).s)
    decreases |buf| - s, 1
  {
    var q := Skip(buf, s);
    if At(buf, q) != '(' {
      i := SimpleSound(buf, s);
    } else {
      LexSkip(buf, s);
      ExecSkips(buf, s);
      var s1 := GetToken(buf, q).s;
      BlockInside(buf, q);
      var line := LineSound(buf, s1);
      var b := BlockBody(buf, q);
      var redirs := RedirsSound(buf, [], b.s);
      i := Block(line, redirs);
      BlockSound(buf, q, s1, line, b, redirs, ParseExec(buf, s).s);
    }
  }

  lemma {:induction false} PipeSound(buf: string, s: int) returns (p: Pipeline)
    requires NulFree(buf) && Pos(buf, s) && ParsePipe(buf, s).Ok?
    ensures PipeOk(p) && Lex(buf, s) == PipeTokens(p) + Lex(buf, ParsePipe(buf, s).s)
    decreases |buf| - s, 2
  {
    var i := ItemSound(buf, s);
    var e := ParseExec(buf, s).s;
    if At(buf, e) == '|' {
      SymbolThere(buf, e, '|');
      var next := PipeSound(buf, GetToken(buf, e).s);
      p := Into(i, next);
      var end := Lex(buf, ParsePipe(buf, s).s);
      Grouped(ItemTokens(i) + [Sym('|')], PipeTokens(next), end);
      Grouped(ItemTokens(i), [Sym('|')], PipeTokens(next) + end);
    } else {
      p := Last(i);
    }
  }

  lemma {:induction false} BacksSound(buf: string, cmd: Cmd, s: int) returns (n: nat)
    requires NulFree(buf) && Pos(buf, s) && Skip(buf, s) == s && WordsAt(buf, cmd)
    ensures Lex(buf, s) == BackTokens(n) + Lex(buf, Backs(buf, cmd, s).s)
    decreases |buf| - s
  {
    if At(buf, s) == '&' {
      SymbolThere(buf, s, '&');
      n := BacksSound(buf, Back(cmd), GetToken(buf, s).s);
      Grouped([Sym('&')], BackTokens(n), Lex(buf, Backs(buf, cmd, s).s));
      n := n + 1;
    } else {
      n := 0;
    }
  }

  lemma LineSpells(p: Pipeline, n: nat, rest: Rest, end: seq<Lexeme>)
    ensures LineTokens(Line(p, n, rest)) + end == PipeTokens(p) + (BackTokens(n) + (RestTokens(rest) + end))
  {
    Grouped(PipeTokens(p) + BackTokens(n), RestTokens(rest), end);
    Grouped(PipeTokens(p), BackTokens(n), RestTokens(rest) + end);
  }

  lemma {:induction false} LineSound(buf: string, s: int) returns (l: Line)
    requires NulFree(buf) && Pos(buf, s) && ParseLine(buf, s).Ok?
    ensures LineOk(l) && Lex(buf, s) == LineTokens(l) + Lex(buf, ParseLine(buf, s).s)
    decreases |buf| - s, 3
  {
    var p := PipeSound(buf, s);
    var r := ParsePipe(buf, s);
    var n := BacksSound(buf, r.cmd, r.s);
    var b, end := Backs(buf, r.cmd, r.s), Lex(buf, ParseLine(buf, s).s);
    if At(buf, b.s) == ';' {
      SymbolThere(buf, b.s, ';');
      var next := LineSound(buf, GetToken(buf, b.s).s);
      l := Line(p, n, Then(next));
      Grouped([Sym(';')], LineTokens(next), end);
    } else {
      l := Line(p, n, End);
      FromNothing(end);
    }
    LineSpells(p, n, l.rest, end);
  }

  // ---------- the parser is the grammar ----------

  /** parsecmd accepts exactly the lines of the grammar, with any white space, and returns the tree of the line. */
  lemma ParsesExactly(buf: string)
    requires NulFree(buf)
    ensures ParseCmd(buf).Ok? <==> exists l: Line :: LineOk(l) && Typed(buf, 0, LineTokens(l))
    ensures forall l: Line :: LineOk(l) && Typed(buf, 0, LineTokens(l)) ==> Reads(buf, ParseCmd(buf), LineTree(l), |buf|)
  {
    forall l: Line | LineOk(l) && Typed(buf, 0, LineTokens(l)) ensures Reads(buf, ParseCmd(buf), LineTree(l), |buf|) { SentenceRead(buf, l); }
    if ParseCmd(buf).Ok? {
      var l := LineSound(buf, 0);
      WholeLexed(buf, l);
    }
  }

  lemma SentenceRead(buf: string, l: Line)
    requires NulFree(buf) && LineOk(l) && Typed(buf, 0, LineTokens(l))
    ensures Reads(buf, ParseCmd(buf), LineTree(l), |buf|)
  {
    LexesExactly(buf, LineTokens(l));
    ToNothing(LineTokens(l));
    ParenFollows(l, []);
    LineRead(buf, 0, l, []);
    NextToken(buf, ParseLine(buf, 0).s);
  }

  lemma ToNothing<T>(a: seq<T>)
    ensures a + [] == a
  {}

  lemma WholeLexed(buf: string, l: Line)
    requires NulFree(buf) && ParseCmd(buf).Ok? && Lex(buf, 0) == LineTokens(l) + Lex(buf, ParseLine(buf, 0).s)
    ensures Typed(buf, 0, LineTokens(l))
  {
    NextToken(buf, ParseLine(buf, 0).s);
    ToNothing(LineTokens(l));
    LexesExactly(buf, LineTokens(l));
  }

  /** One & sign ends a line: `a & b` is not a command, whatever a and b are. */
  lemma NothingAfterAmpersand(buf: string, l: Line, x: Lexeme, xs: seq<Lexeme>)
    requires NulFree(buf) && LineOk(l) && Lasting(l).backs > 0 && x != Sym('&') && x != Sym(';')
    requires Typed(buf, 0, LineTokens(l) + [x] + xs)
    ensures ParseCmd(buf).Panic?
  {
    var rest := [x] + xs;
    LexesExactly(buf, LineTokens(l) + [x] + xs);
    Grouped(LineTokens(l), [x], xs);
    LastFollows(l, rest);
    LineRead(buf, 0, l, rest);
    NextToken(buf, ParseLine(buf, 0).s);
  }

  /** The line behind the last semicolon. */
  function Lasting(l: Line): Line { if l.rest.Then? then Lasting(l.rest.line) else l }

  lemma {:induction false} LastFollows(l: Line, rest: seq<Lexeme>)
    requires Lasting(l).backs > 0 && !Starts(rest, '&') && !Starts(rest, ';')
    ensures MayFollow(l, rest)
  {
    if l.rest.Then? { LastFollows(l.rest.line, rest); }
  }
}
