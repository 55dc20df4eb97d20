/** Printing a command tree with all its parentheses, and reading it back. */
module ShellPrint {
  import opened CString
  import opened ShellParse

  /** A command tree with its words spelled out. */
  datatype Tree =
    | TExec(argv: seq<string>)
    | TRedir(cmd: Tree, file: string, kind: Kind)
    | TPipe(left: Tree, right: Tree)
    | TList(left: Tree, right: Tree)
    | TBack(cmd: Tree)

  predicate WordOk(w: string) { |w| > 0 && forall i :: 0 <= i < |w| ==> WordChar(w[i]) }

  /** The trees that the shell can express: at most MAXARGS - 1 words to a command. */
  predicate TreeOk(t: Tree) {
    match t
    case TExec(argv) => |argv| < MAXARGS && forall i :: 0 <= i < |argv| ==> WordOk(argv[i])
    case TRedir(c, file, _) => TreeOk(c) && WordOk(file)
    case TPipe(l, r) => TreeOk(l) && TreeOk(r)
    case TList(l, r) => TreeOk(l) && TreeOk(r)
    case TBack(c) => TreeOk(c)
  }

  function Op(k: Kind): string {
    match k
    case In => "<"
    case Out => ">"
    case Append => ">>"
  }

  function Words(ws: seq<string>): string { if ws == [] then "" else ws[0] + " " + Words(ws[1..]) }

  function Inner(t: Tree): string
    decreases t, 0
  {
    match t
    case TExec(argv) => Words(argv)
    case TRedir(c, file, k) => Print(c) + (Op(k) + file)
    case TPipe(l, r) => Print(l) + ("|" + Print(r))
    case TList(l, r) => Print(l) + (";" + Print(r))
    case TBack(c) => Print(c) + "&"
  }

  function Print(t: Tree): string
    decreases t, 1
  { "(" + (Inner(t) + ")") }

  /** What a parsed command says. */
  function Text(buf: string, cmd: Cmd): Tree
    requires WordsAt(buf, cmd)
  {
    match cmd
    case Exec(argv) => TExec(seq(|argv|, i requires 0 <= i < |argv| => buf[argv[i].q..argv[i].eq]))
    case Redir(c, file, k) => TRedir(Text(buf, c), buf[file.q..file.eq], k)
    case Pipe(l, r) => TPipe(Text(buf, l), Text(buf, r))
    case List(l, r) => TList(Text(buf, l), Text(buf, r))
    case Back(c) => TBack(Text(buf, c))
  }

  ghost predicate Occurs(buf: string, i: int, str: string) {
    0 <= i && i + |str| <= |buf| && forall k :: i <= k < i + |str| ==> buf[k] == str[k - i]
  }

  lemma Split(buf: string, i: int, a: string, b: string)
    requires Occurs(buf, i, a + b)
    ensures Occurs(buf, i, a) && Occurs(buf, i + |a|, b)
  {
    var n := |a|;
    forall k | i <= k < i + n ensures buf[k] == a[k - i] { assert (a + b)[k - i] == a[k - i]; }
    forall k | i + n <= k < i + n + |b| ensures buf[k] == b[k - i - n] { assert (a + b)[k - i] == b[k - i - n]; }
  }

  lemma First(buf: string, i: int, str: string)
    requires Occurs(buf, i, str) && str != ""
    ensures i < |buf| && At(buf, i) == buf[i] == str[0]
  {}

  lemma Spelled(buf: string, i: int, str: string)
    requires Occurs(buf, i, str)
    ensures SpelledAt(buf, Word(i, i + |str|), str)
  {}

  /** r is the command t, read up to s. */
  predicate Reads(buf: string, r: Result, t: Tree, s: int) { r.Ok? && r.s == s && WordsAt(buf, r.cmd) && Text(buf, r.cmd) == t }

  // ---------- words ----------

  lemma {:induction false} WordEndIs(buf: string, s: int, n: nat)
    requires 0 <= s && s + n <= |buf| && (forall k :: s <= k < s + n ==> WordChar(buf[k])) && !WordChar(At(buf, s + n))
    ensures WordEnd(buf, s) == s + n
    decreases n
  {
    if n > 0 { WordEndIs(buf, s + 1, n - 1); }
  }

  lemma WordToken(buf: string, s: int, w: string)
    requires NulFree(buf) && WordOk(w) && Occurs(buf, s, w) && !WordChar(At(buf, s + |w|))
    ensures var t := GetToken(buf, s); t.ret == 'a' && t.w == Word(s, s + |w|) && t.s == Skip(buf, s + |w|)
    ensures WordChar(At(buf, s))
  {
    forall k | s <= k < s + |w| ensures WordChar(buf[k]) { assert buf[k] == w[k - s]; }
    WordEndIs(buf, s, |w|);
  }

  predicate Tokens(buf: string, argv: seq<Word>) { forall i :: 0 <= i < |argv| ==> WordAt(buf, argv[i]) }

  /** One word of an argument list, the space behind it, and then another word or the end. */
  ghost predicate ArgHere(buf: string, s: int, w: string) {
    && NulFree(buf) && WordOk(w) && Occurs(buf, s, w) && s + |w| < |buf| && buf[s + |w|] == ' '
    && (WordChar(At(buf, s + |w| + 1)) || At(buf, s + |w| + 1) == ')')
  }

  lemma ArgStep(buf: string, argv: seq<Word>, s: int, w: string, argv': seq<Word>, s': int)
    requires |argv| + 1 < MAXARGS && Tokens(buf, argv) && ArgHere(buf, s, w)
    requires argv' == argv + [Word(s, s + |w|)] && s' == s + |w| + 1
    ensures Tokens(buf, argv') && ParseArgs(buf, argv, [], s) == ParseArgs(buf, argv', [], s')
  {
    WordToken(buf, s, w);
    assert Skip(buf, s + |w|) == Skip(buf, s') == s';
    assert ParseRedirs(buf, [], s') == RedirsOk([], s');
  }

  /** What the argument loop finds from s on. */
  ghost predicate Finds(buf: string, argv: seq<Word>, ws: seq<string>, s: int, r: Args) {
    && r.ArgsOk? && r.rs == [] && r.s == s && |r.argv| == |argv| + |ws| && argv <= r.argv
    && forall j :: |argv| <= j < |r.argv| ==> SpelledAt(buf, r.argv[j], ws[j - |argv|])
  }

  predicate SpelledAt(buf: string, w: Word, str: string) { 0 <= w.q <= w.eq <= |buf| && buf[w.q..w.eq] == str }

  lemma FindsMore(buf: string, argv: seq<Word>, w: Word, ws: seq<string>, s: int, argv': seq<Word>, r: Args)
    requires ws != [] && SpelledAt(buf, w, ws[0]) && argv' == argv + [w] && Finds(buf, argv', ws[1..], s, r)
    ensures Finds(buf, argv, ws, s, r)
  {
    assert r.argv[|argv|] == argv'[|argv|] == w;
    forall j | |argv| <= j < |r.argv| ensures SpelledAt(buf, r.argv[j], ws[j - |argv|]) {
      if j > |argv| { assert ws[1..][j - |argv| - 1] == ws[j - |argv|]; }
    }
  }

  /** The words ws stand at s, each with a space behind it, and then a parenthesis at e. */
  ghost predicate WordsHere(buf: string, ws: seq<string>, s: int, e: int)
    decreases |ws|
  {
    if ws == [] then s == e && 0 <= s && At(buf, s) == ')'
    else ArgHere(buf, s, ws[0]) && WordsHere(buf, ws[1..], s + |ws[0]| + 1, e)
  }

  lemma WordsStart(buf: string, ws: seq<string>, s: int, e: int)
    requires WordsHere(buf, ws, s, e)
    ensures 0 <= s <= |buf| && (WordChar(At(buf, s)) || At(buf, s) == ')')
  {
    if ws != [] { First(buf, s, ws[0]); }
  }

  lemma {:induction false} PrintedWords(buf: string, ws: seq<string>, s: int)
    requires NulFree(buf) && (forall i :: 0 <= i < |ws| ==> WordOk(ws[i])) && Occurs(buf, s, Words(ws)) && At(buf, s + |Words(ws)|) == ')'
    ensures WordsHere(buf, ws, s, s + |Words(ws)|)
    decreases |ws|
  {
    if ws != [] {
      var w, rest := ws[0], Words(ws[1..]);
      var s' := s + |w| + 1;
      assert Words(ws) == w + (" " + rest);
      Split(buf, s, w, " " + rest);
      Split(buf, s + |w|, " ", rest);
      First(buf, s + |w|, " ");
      PrintedWords(buf, ws[1..], s');
      WordsStart(buf, ws[1..], s', s' + |rest|);
    }
  }

  lemma ArgsEnd(buf: string, argv: seq<Word>, s: int)
    requires NulFree(buf) && Pos(buf, s) && At(buf, s) == ')' && |argv| < MAXARGS && Tokens(buf, argv)
    ensures Finds(buf, argv, [], s, ParseArgs(buf, argv, [], s))
  {
    assert Skip(buf, s) == s;
  }

  lemma WordsNext(buf: string, argv: seq<Word>, ws: seq<string>, s: int, e: int)
    requires WordsHere(buf, ws, s, e) && ws != [] && Tokens(buf, argv)
    ensures ArgHere(buf, s, ws[0]) && WordsHere(buf, ws[1..], s + |ws[0]| + 1, e) && Pos(buf, s + |ws[0]| + 1)
    ensures Tokens(buf, argv + [Word(s, s + |ws[0]|)])
  {
    WordToken(buf, s, ws[0]);
  }

  lemma {:induction false} ArgsParse(buf: string, argv: seq<Word>, ws: seq<string>, s: int, e: int)
    requires NulFree(buf) && Pos(buf, s) && WordsHere(buf, ws, s, e) && |argv| + |ws| < MAXARGS && Tokens(buf, argv)
    ensures Finds(buf, argv, ws, e, ParseArgs(buf, argv, [], s))
    decreases |ws|
  {
    if ws == [] {
      ArgsEnd(buf, argv, s);
    } else {
      var tok, s' := Word(s, s + |ws[0]|), s + |ws[0]| + 1;
      var argv' := argv + [tok];
      Spelled(buf, s, ws[0]);
      WordsNext(buf, argv, ws, s, e);
      ArgsParse(buf, argv', ws[1..], s', e);
      ArgStep(buf, argv, s, ws[0], argv', s');
      FindsMore(buf, argv, tok, ws, e, argv', ParseArgs(buf, argv', [], s'));
    }
  }

  // ---------- one production at a time ----------

  lemma SymbolToken(buf: string, j: int)
    requires NulFree(buf) && 0 <= j < |buf| && Symbol(buf[j]) && buf[j] != '>' && !White(At(buf, j + 1))
    ensures Skip(buf, j) == j && GetToken(buf, j).s == j + 1
  {}

  /** Nothing more follows at a closing parenthesis or at the end. */
  lemma Closes(buf: string, s: int)
    requires NulFree(buf) && Pos(buf, s) && ParseExec(buf, s).Ok? && (At(buf, ParseExec(buf, s).s) == ')' || At(buf, ParseExec(buf, s).s) == NUL)
    ensures ParseLine(buf, s) == ParsePipe(buf, s) == ParseExec(buf, s)
  {}

  lemma ExecLine(buf: string, i: int, argv: seq<string>, e: int)
    requires NulFree(buf) && |argv| < MAXARGS && WordsHere(buf, argv, i, e)
    ensures Pos(buf, i) && Reads(buf, ParseExec(buf, i), TExec(argv), e)
  {
    WordsStart(buf, argv, i, e);
    ArgsParse(buf, [], argv, i, e);
    var r := ParseArgs(buf, [], [], i);
    assert Skip(buf, i) == i;
    assert ParseRedirs(buf, [], i) == RedirsOk([], i);
    assert ParseExec(buf, i) == Ok(Exec(r.argv), r.s);
    SameWords(buf, argv, r);
  }

  lemma SameWords(buf: string, ws: seq<string>, r: Args)
    requires r.ArgsOk? && WordsAt(buf, Exec(r.argv)) && Finds(buf, [], ws, r.s, r)
    ensures Text(buf, Exec(r.argv)) == TExec(ws)
  {
    var words := Text(buf, Exec(r.argv)).argv;
    forall j | 0 <= j < |ws| ensures words[j] == ws[j] { assert SpelledAt(buf, r.argv[j], ws[j]); }
    assert words == ws;
  }

  lemma PipeLine(buf: string, i: int, l: Tree, j: int, r: Tree, k: int)
    requires NulFree(buf) && Pos(buf, i) && 0 <= j < |buf| && Reads(buf, ParseExec(buf, i), l, j) && buf[j] == '|'
    requires !White(At(buf, j + 1)) && Reads(buf, ParseExec(buf, j + 1), r, k) && At(buf, k) == ')'
    ensures Reads(buf, ParseLine(buf, i), TPipe(l, r), k)
  {
    SymbolToken(buf, j);
    Closes(buf, j + 1);
    assert ParsePipe(buf, i) == Ok(Pipe(ParseExec(buf, i).cmd, ParseExec(buf, j + 1).cmd), k);
    assert Backs(buf, ParsePipe(buf, i).cmd, k) == ParsePipe(buf, i);
  }

  lemma ListLine(buf: string, i: int, l: Tree, j: int, r: Tree, k: int)
    requires NulFree(buf) && Pos(buf, i) && 0 <= j < |buf| && Reads(buf, ParseExec(buf, i), l, j) && buf[j] == ';'
    requires !White(At(buf, j + 1)) && Reads(buf, ParseExec(buf, j + 1), r, k) && At(buf, k) == ')'
    ensures Reads(buf, ParseLine(buf, i), TList(l, r), k)
  {
    SymbolToken(buf, j);
    Closes(buf, j + 1);
    var c := ParseExec(buf, i);
    assert ParsePipe(buf, i) == c && Backs(buf, c.cmd, j) == c;
  }

  lemma BackLine(buf: string, i: int, t: Tree, j: int)
    requires NulFree(buf) && Pos(buf, i) && 0 <= j < |buf| && Reads(buf, ParseExec(buf, i), t, j) && buf[j] == '&' && At(buf, j + 1) == ')'
    ensures Reads(buf, ParseLine(buf, i), TBack(t), j + 1)
  {
    SymbolToken(buf, j);
    var c := ParseExec(buf, i);
    assert ParsePipe(buf, i) == c;
    assert Backs(buf, c.cmd, j) == Backs(buf, Back(c.cmd), j + 1) == Ok(Back(c.cmd), j + 1);
  }

  /** A redirection from j up to e, its file from f on. */
  ghost predicate RedirHere(buf: string, j: int, k: Kind, file: string, f: int, e: int) {
    NulFree(buf) && WordOk(file) && Occurs(buf, j, Op(k)) && f == j + |Op(k)| && Occurs(buf, f, file) && e == f + |file| && At(buf, e) == ')'
  }

  lemma OpToken(buf: string, j: int, k: Kind, file: string, f: int, e: int)
    requires RedirHere(buf, j, k, file, f, e)
    ensures Skip(buf, j) == j && (At(buf, j) == '<' || At(buf, j) == '>')
    ensures GetToken(buf, j).s == f && KindOf(GetToken(buf, j).ret) == k
  {
    First(buf, j, Op(k));
    First(buf, f, file);
    if k == Append { assert buf[j + 1] == Op(k)[1]; }
  }

  /** The redirection behind a block. */
  lemma OneRedir(buf: string, j: int, k: Kind, file: string, f: int, e: int, rs: seq<Redirection>)
    requires RedirHere(buf, j, k, file, f, e) && rs == [Redirection(Word(f, e), k)]
    ensures ParseRedirs(buf, [], j) == RedirsOk(rs, e)
  {
    OpToken(buf, j, k, file, f, e);
    WordToken(buf, f, file);
    assert [] + rs == rs;
    assert Skip(buf, e) == e;
    assert ParseRedirs(buf, rs, e) == RedirsOk(rs, e);
  }

  lemma RedirBlock(buf: string, i: int, t: Tree, j: int, k: Kind, file: string, f: int, e: int)
    requires NulFree(buf) && Pos(buf, i) && At(buf, i) == '(' && Reads(buf, BlockBody(buf, i), t, j) && RedirHere(buf, j, k, file, f, e)
    ensures Reads(buf, ParseExec(buf, i), TRedir(t, file, k), e)
  {
    var w, cmd := Word(f, e), BlockBody(buf, i).cmd;
    OneRedir(buf, j, k, file, f, e, [Redirection(w, k)]);
    WrapOne(cmd, w, k);
    BlockIs(buf, i, cmd, j, [Redirection(w, k)], e);
    RedirReads(buf, cmd, t, w, k, file);
  }

  lemma RedirReads(buf: string, cmd: Cmd, t: Tree, w: Word, k: Kind, file: string)
    requires WordsAt(buf, cmd) && Text(buf, cmd) == t && WordOk(file) && Occurs(buf, w.q, file) && w.eq == w.q + |file| && !WordChar(At(buf, w.eq))
    ensures WordsAt(buf, Redir(cmd, w, k)) && Text(buf, Redir(cmd, w, k)) == TRedir(t, file, k)
  {
    Spelled(buf, w.q, file);
    forall x | w.q <= x < w.eq ensures WordChar(buf[x]) { assert buf[x] == file[x - w.q]; }
    WordEndIs(buf, w.q, |file|);
  }

  lemma WrapOne(cmd: Cmd, w: Word, k: Kind)
    ensures Wrap(cmd, [Redirection(w, k)]) == Redir(cmd, w, k)
  {
    var rs := [Redirection(w, k)];
    assert rs[..0] == [] && Wrap(cmd, []) == cmd;
  }

  lemma BlockIs(buf: string, i: int, cmd: Cmd, j: int, rs: seq<Redirection>, e: int)
    requires NulFree(buf) && Pos(buf, i) && At(buf, i) == '(' && BlockBody(buf, i) == Ok(cmd, j) && Pos(buf, j) && ParseRedirs(buf, [], j) == RedirsOk(rs, e)
    ensures ParseExec(buf, i) == Ok(Wrap(cmd, rs), e)
  {
    assert Skip(buf, i) == i;
  }

  lemma PlainBlock(buf: string, i: int, t: Tree, j: int)
    requires NulFree(buf) && Pos(buf, i) && At(buf, i) == '(' && Reads(buf, BlockBody(buf, i), t, j) && At(buf, j) != '<' && At(buf, j) != '>'
    ensures Reads(buf, ParseExec(buf, i), t, j)
  {
    var cmd := BlockBody(buf, i).cmd;
    assert ParseRedirs(buf, [], j) == RedirsOk([], j) && Wrap(cmd, []) == cmd;
  }

  lemma Body(buf: string, i: int, i': int, t: Tree, k: int, j: int)
    requires NulFree(buf) && 0 <= i < |buf| && buf[i] == '(' && i' == i + 1 && !White(At(buf, i')) && Reads(buf, ParseLine(buf, i'), t, k)
    requires 0 <= k < |buf| && buf[k] == ')' && j == k + 1
    ensures Reads(buf, BlockBody(buf, i), t, Skip(buf, j))
  {
    SymbolToken(buf, i);
  }

  // ---------- the round trip ----------

  /** t, printed, takes up the buffer from i to j; its inside, from i to k. */
  ghost predicate Stands(buf: string, t: Tree, i: int, j: int)
    decreases t, 1
  { 0 <= i && i + 2 <= j <= |buf| && buf[i] == '(' && buf[j - 1] == ')' && Inside(buf, t, i + 1, j - 1) }

  ghost predicate Inside(buf: string, t: Tree, i: int, k: int)
    decreases t, 0
  {
    match t
    case TExec(argv) => WordsHere(buf, argv, i, k)
    case TRedir(c, file, kind) => Stands(buf, c, i, k - |file| - |Op(kind)|) && RedirHere(buf, k - |file| - |Op(kind)|, kind, file, k - |file|, k)
    case TPipe(l, r) => exists j :: Between(buf, j, '|') && Stands(buf, l, i, j) && Stands(buf, r, j + 1, k)
    case TList(l, r) => exists j :: Between(buf, j, ';') && Stands(buf, l, i, j) && Stands(buf, r, j + 1, k)
    case TBack(c) => Stands(buf, c, i, k - 1) && Between(buf, k - 1, '&')
  }

  predicate Between(buf: string, j: int, op: char) { 0 <= j < |buf| && buf[j] == op }

  lemma InsideStart(buf: string, t: Tree, i: int, k: int)
    requires NulFree(buf) && Inside(buf, t, i, k)
    ensures 0 <= i <= |buf| && !White(At(buf, i))
  {
    if t.TExec? { WordsStart(buf, t.argv, i, k); }
  }

  lemma {:induction false} BodyParses(buf: string, t: Tree, i: int, j: int)
    requires NulFree(buf) && TreeOk(t) && Stands(buf, t, i, j)
    ensures Reads(buf, BlockBody(buf, i), t, Skip(buf, j))
    decreases t, 2
  {
    var i', k := i + 1, j - 1;
    InsideStart(buf, t, i', k);
    LineParses(buf, t, i', k);
    Body(buf, i, i', t, k, j);
  }

  /** A block that no redirection follows. */
  lemma {:induction false} BlockParses(buf: string, t: Tree, i: int, j: int)
    requires NulFree(buf) && TreeOk(t) && Stands(buf, t, i, j) && !White(At(buf, j)) && At(buf, j) != '<' && At(buf, j) != '>'
    ensures Reads(buf, ParseExec(buf, i), t, j)
    decreases t, 3
  {
    BodyParses(buf, t, i, j);
    PlainBlock(buf, i, t, j);
  }

  lemma {:induction false} RedirParses(buf: string, t: Tree, i: int, k: int)
    requires NulFree(buf) && TreeOk(t) && t.TRedir? && Inside(buf, t, i, k)
    ensures Pos(buf, i) && Reads(buf, ParseExec(buf, i), t, k)
    decreases t, 0
  {
    var f := k - |t.file|;
    var j := f - |Op(t.kind)|;
    BodyParses(buf, t.cmd, i, j);
    OpToken(buf, j, t.kind, t.file, f, k);
    RedirBlock(buf, i, t.cmd, j, t.kind, t.file, f, k);
  }

  /** What stands between the parentheses is read as the tree it came from. */
  lemma {:induction false} LineParses(buf: string, t: Tree, i: int, k: int)
    requires NulFree(buf) && TreeOk(t) && Inside(buf, t, i, k) && At(buf, k) == ')'
    ensures Pos(buf, i) && Reads(buf, ParseLine(buf, i), t, k)
    decreases t, 1
  {
    match t
    case TPipe(l, r) =>
      var j :| Between(buf, j, '|') && Stands(buf, l, i, j) && Stands(buf, r, j + 1, k);
      BlockParses(buf, l, i, j);
      BlockParses(buf, r, j + 1, k);
      PipeLine(buf, i, l, j, r, k);
    case TList(l, r) =>
      var j :| Between(buf, j, ';') && Stands(buf, l, i, j) && Stands(buf, r, j + 1, k);
      BlockParses(buf, l, i, j);
      BlockParses(buf, r, j + 1, k);
      ListLine(buf, i, l, j, r, k);
    case TBack(c) =>
      BlockParses(buf, c, i, k - 1);
      BackLine(buf, i, c, k - 1);
    case TExec(argv) =>
      ExecLine(buf, i, argv, k);
      Closes(buf, i);
    case TRedir(c, file, kind) =>
      RedirParses(buf, t, i, k);
      Closes(buf, i);
  }

  lemma {:induction false} Printed(buf: string, t: Tree, i: int)
    requires NulFree(buf) && TreeOk(t) && Occurs(buf, i, Print(t))
    ensures Stands(buf, t, i, i + |Print(t)|)
    decreases t, 2
  {
    Split(buf, i, "(", Inner(t) + ")");
    Split(buf, i + 1, Inner(t), ")");
    First(buf, i, "(");
    First(buf, i + 1 + |Inner(t)|, ")");
    PrintedInside(buf, t, i + 1);
  }

  lemma {:induction false} PrintedInside(buf: string, t: Tree, i: int)
    requires NulFree(buf) && TreeOk(t) && Occurs(buf, i, Inner(t)) && At(buf, i + |Inner(t)|) == ')'
    ensures Inside(buf, t, i, i + |Inner(t)|)
    decreases t, 1
  {
    match t
    case TExec(argv) => PrintedWords(buf, argv, i);
    case TRedir(c, file, kind) => PrintedRedir(buf, t, i);
    case TPipe(l, r) => var j := PrintedTwo(buf, l, '|', r, i, t);
    case TList(l, r) => var j := PrintedTwo(buf, l, ';', r, i, t);
    case TBack(c) => PrintedBack(buf, t, i);
  }

  lemma {:induction false} PrintedRedir(buf: string, t: Tree, i: int)
    requires NulFree(buf) && TreeOk(t) && t.TRedir? && Occurs(buf, i, Inner(t)) && At(buf, i + |Inner(t)|) == ')'
    ensures Inside(buf, t, i, i + |Inner(t)|)
    decreases t, 0
  {
    var p, op := Print(t.cmd), Op(t.kind);
    Split(buf, i, p, op + t.file);
    Split(buf, i + |p|, op, t.file);
    Printed(buf, t.cmd, i);
  }

  lemma {:induction false} PrintedBack(buf: string, t: Tree, i: int)
    requires NulFree(buf) && TreeOk(t) && t.TBack? && Occurs(buf, i, Inner(t))
    ensures Inside(buf, t, i, i + |Inner(t)|)
    decreases t, 0
  {
    Split(buf, i, Print(t.cmd), "&");
    First(buf, i + |Print(t.cmd)|, "&");
    Printed(buf, t.cmd, i);
  }

  /** Two blocks with an operator between them. */
  lemma {:induction false} PrintedTwo(buf: string, l: Tree, op: char, r: Tree, i: int, t: Tree) returns (j: int)
    requires NulFree(buf) && TreeOk(l) && TreeOk(r) && Occurs(buf, i, Print(l) + ([op] + Print(r)))
    requires (t.TPipe? || t.TList?) && l == t.left && r == t.right
    ensures Between(buf, j, op) && Stands(buf, l, i, j) && Stands(buf, r, j + 1, i + |Print(l)| + 1 + |Print(r)|)
    decreases t, 0
  {
    j := i + |Print(l)|;
    Split(buf, i, Print(l), [op] + Print(r));
    Split(buf, j, [op], Print(r));
    First(buf, j, [op]);
    Printed(buf, l, i);
    Printed(buf, r, j + 1);
  }

  /** Every tree survives being printed and parsed. */
  lemma RoundTrip(t: Tree)
    requires TreeOk(t)
    ensures NulFree(Print(t)) && Reads(Print(t), ParseCmd(Print(t)), t, |Print(t)|)
  {
    var buf := Print(t);
    PrintNulFree(t);
    Printed(buf, t, 0);
    BlockParses(buf, t, 0, |buf|);
    Closes(buf, 0);
  }

  lemma {:induction false} WordsNulFree(ws: seq<string>)
    requires forall i :: 0 <= i < |ws| ==> WordOk(ws[i])
    ensures NulFree(Words(ws))
    decreases |ws|
  {
    if ws != [] { WordsNulFree(ws[1..]); }
  }

  lemma {:induction false} PrintNulFree(t: Tree)
    requires TreeOk(t)
    ensures NulFree(Print(t)) && NulFree(Inner(t))
  {
    match t
    case TExec(argv) => WordsNulFree(argv);
    case TRedir(c, file, k) => PrintNulFree(c);
    case TPipe(l, r) => PrintNulFree(l); PrintNulFree(r);
    case TList(l, r) => PrintNulFree(l); PrintNulFree(r);
    case TBack(c) => PrintNulFree(c);
  }
}
