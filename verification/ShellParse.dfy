/** The command grammar of user/sh.c, as functions of a buffer and a cursor.

    The buffer is a C string.  A panic is a result. */
module ShellParse {
  import opened CString

  const MAXARGS := 10

  predicate White(c: char) { c == ' ' || c == '\t' || c == '\r' || c == '\n' || c == '\U{000B}' }

  predicate Symbol(c: char) { c == '<' || c == '|' || c == '>' || c == '&' || c == ';' || c == '(' || c == ')' }

  predicate WordChar(c: char) { c != NUL && !White(c) && !Symbol(c) }

  /** A word of the command line: the characters from q up to eq. */
  datatype Word = Word(q: int, eq: int)

  datatype Kind = In | Out | Append

  datatype Cmd =
    | Exec(argv: seq<Word>)
    | Redir(cmd: Cmd, file: Word, kind: Kind)
    | Pipe(left: Cmd, right: Cmd)
    | List(left: Cmd, right: Cmd)
    | Back(cmd: Cmd)

  datatype Redirection = Redirection(file: Word, kind: Kind)

  datatype Result = Ok(cmd: Cmd, s: int) | Panic

  datatype Redirs = RedirsOk(rs: seq<Redirection>, s: int) | RedirsPanic

  datatype Args = ArgsOk(argv: seq<Word>, rs: seq<Redirection>, s: int) | ArgsPanic

  // ---------- tokens ----------

  predicate Pos(buf: string, s: int) { 0 <= s <= |buf| }

  /** Past white space. */
  function Skip(buf: string, s: int): (r: int)
    requires Pos(buf, s)
    ensures s <= r <= |buf| && !White(At(buf, r))
    decreases |buf| - s
  { if s < |buf| && White(buf[s]) then Skip(buf, s + 1) else s }

  /** Past word characters. */
  function WordEnd(buf: string, s: int): (r: int)
    requires Pos(buf, s)
    ensures s <= r <= |buf| && !WordChar(At(buf, r))
    decreases |buf| - s
  { if s < |buf| && WordChar(buf[s]) then WordEnd(buf, s + 1) else s }

  datatype Token = Token(ret: char, w: Word, s: int)

  /** gettoken: 'a' for a word, '+' for >>, NUL at the end. */
  function GetToken(buf: string, s: int): (t: Token)
    requires NulFree(buf) && Pos(buf, s)
    ensures Skip(buf, s) == t.w.q <= t.w.eq <= t.s <= |buf| && !White(At(buf, t.s))
    ensures t.ret == NUL <==> t.w.q == |buf|
    ensures t.ret != NUL ==> t.w.q < t.s
    ensures t.ret == 'a' ==> WordAt(buf, t.w)
  {
    var q := Skip(buf, s);
    var c := At(buf, q);
    if c == NUL then Token(NUL, Word(q, q), Skip(buf, q))
    else if c == '>' && At(buf, q + 1) == '>' then Token('+', Word(q, q + 2), Skip(buf, q + 2))
    else if Symbol(c) then Token(c, Word(q, q + 1), Skip(buf, q + 1))
    else Token('a', Word(q, WordEnd(buf, q)), Skip(buf, WordEnd(buf, q)))
  }

  /** A maximal run of word characters. */
  predicate WordAt(buf: string, w: Word) { 0 <= w.q < w.eq <= |buf| && w.eq == WordEnd(buf, w.q) }

  lemma {:induction false} WordChars(buf: string, s: int, i: int)
    requires Pos(buf, s) && s <= i < WordEnd(buf, s)
    ensures WordChar(buf[i])
    decreases |buf| - s
  {
    if s < i { WordChars(buf, s + 1, i); }
  }

  // ---------- the grammar ----------

  function KindOf(c: char): Kind { if c == '<' then In else if c == '>' then Out else Append }

  /** parseredirs. */
  function ParseRedirs(buf: string, rs: seq<Redirection>, s0: int): (r: Redirs)
    requires NulFree(buf) && Pos(buf, s0) && forall i :: 0 <= i < |rs| ==> WordAt(buf, rs[i].file)
    ensures r.RedirsOk? ==> s0 <= r.s <= |buf| && Skip(buf, r.s) == r.s && At(buf, r.s) != '<' && At(buf, r.s) != '>'
    ensures r.RedirsOk? ==> rs <= r.rs && forall i :: 0 <= i < |r.rs| ==> WordAt(buf, r.rs[i].file)
    decreases |buf| - s0
  {
    var s := Skip(buf, s0);
    if At(buf, s) == '<' || At(buf, s) == '>' then
      var op := GetToken(buf, s);
      var file := GetToken(buf, op.s);
      if file.ret != 'a' then RedirsPanic
      else ParseRedirs(buf, rs + [Redirection(file.w, KindOf(op.ret))], file.s)
    else RedirsOk(rs, s)
  }

  /** Each redirection goes around the command that the ones before it made. */
  function Wrap(cmd: Cmd, rs: seq<Redirection>): (r: Cmd)
    decreases |rs|
  { if rs == [] then cmd else Redir(Wrap(cmd, rs[..|rs| - 1]), rs[|rs| - 1].file, rs[|rs| - 1].kind) }

  predicate Stops(c: char) { c == '|' || c == ')' || c == '&' || c == ';' }

  /** The loop of parseexec. */
  function ParseArgs(buf: string, argv: seq<Word>, rs: seq<Redirection>, s0: int): (r: Args)
    requires NulFree(buf) && Pos(buf, s0) && |argv| < MAXARGS
    requires (forall i :: 0 <= i < |argv| ==> WordAt(buf, argv[i])) && forall i :: 0 <= i < |rs| ==> WordAt(buf, rs[i].file)
    ensures r.ArgsOk? ==> s0 <= r.s <= |buf| && |r.argv| < MAXARGS && Skip(buf, r.s) == r.s && (Stops(At(buf, r.s)) || r.s == |buf|)
    ensures r.ArgsOk? ==> (forall i :: 0 <= i < |r.argv| ==> WordAt(buf, r.argv[i])) && forall i :: 0 <= i < |r.rs| ==> WordAt(buf, r.rs[i].file)
    decreases |buf| - s0
  {
    var s := Skip(buf, s0);
    if Stops(At(buf, s)) then ArgsOk(argv, rs, s)
    else
      var tok := GetToken(buf, s);
      if tok.ret == NUL then ArgsOk(argv, rs, tok.s)
      else if tok.ret != 'a' || |argv| + 1 >= MAXARGS then ArgsPanic
      else
        match ParseRedirs(buf, rs, tok.s)
        case RedirsPanic => ArgsPanic
        case RedirsOk(rs', s') => ParseArgs(buf, argv + [tok.w], rs', s')
  }

  /** Every word of the command is a token of the buffer. */
  predicate WordsAt(buf: string, cmd: Cmd) {
    match cmd
    case Exec(argv) => |argv| < MAXARGS && forall i :: 0 <= i < |argv| ==> WordAt(buf, argv[i])
    case Redir(c, file, _) => WordsAt(buf, c) && WordAt(buf, file)
    case Pipe(l, r) => WordsAt(buf, l) && WordsAt(buf, r)
    case List(l, r) => WordsAt(buf, l) && WordsAt(buf, r)
    case Back(c) => WordsAt(buf, c)
  }

  lemma {:induction false} WrapWords(buf: string, cmd: Cmd, rs: seq<Redirection>)
    requires WordsAt(buf, cmd) && forall i :: 0 <= i < |rs| ==> WordAt(buf, rs[i].file)
    ensures WordsAt(buf, Wrap(cmd, rs))
    decreases |rs|
  {
    if rs != [] { WrapWords(buf, cmd, rs[..|rs| - 1]); }
  }

  predicate ResultOk(buf: string, s: int, r: Result) {
    r.Ok? ==> 0 <= s <= r.s <= |buf| && Skip(buf, r.s) == r.s && WordsAt(buf, r.cmd)
  }

  function ParseExec(buf: string, s0: int): (r: Result)
    requires NulFree(buf) && Pos(buf, s0)
    ensures ResultOk(buf, s0, r)
    decreases |buf| - s0, 1
  {
    var s := Skip(buf, s0);
    if At(buf, s) == '(' then ParseBlock(buf, s)
    else
      match ParseRedirs(buf, [], s)
      case RedirsPanic => Panic
      case RedirsOk(rs, s1) =>
        match ParseArgs(buf, [], rs, s1)
        case ArgsPanic => Panic
        case ArgsOk(argv, rs', s2) =>
          WrapWords(buf, Exec(argv), rs');
          Ok(Wrap(Exec(argv), rs'), s2)
  }

  /** parseblock up to the closing parenthesis. */
  function BlockBody(buf: string, s0: int): (r: Result)
    requires NulFree(buf) && Pos(buf, s0)
    ensures ResultOk(buf, s0, r)
    decreases |buf| - s0, 0, 0
  {
    var s := Skip(buf, s0);
    if At(buf, s) != '(' then Panic
    else
      match ParseLine(buf, GetToken(buf, s).s)
      case Panic => Panic
      case Ok(cmd, s1) => if At(buf, s1) != ')' then Panic else Ok(cmd, GetToken(buf, s1).s)
  }

  function ParseBlock(buf: string, s0: int): (r: Result)
    requires NulFree(buf) && Pos(buf, s0)
    ensures ResultOk(buf, s0, r)
    decreases |buf| - s0, 0, 1
  {
    match BlockBody(buf, s0)
    case Panic => Panic
    case Ok(cmd, s) =>
      match ParseRedirs(buf, [], s)
      case RedirsPanic => Panic
      case RedirsOk(rs, s1) => WrapWords(buf, cmd, rs); Ok(Wrap(cmd, rs), s1)
  }

  function ParsePipe(buf: string, s0: int): (r: Result)
    requires NulFree(buf) && Pos(buf, s0)
    ensures ResultOk(buf, s0, r)
    decreases |buf| - s0, 2
  {
    match ParseExec(buf, s0)
    case Panic => Panic
    case Ok(cmd, s) =>
      if At(buf, s) != '|' then Ok(cmd, s)
      else
        match ParsePipe(buf, GetToken(buf, s).s)
        case Panic => Panic
        case Ok(right, s1) => Ok(Pipe(cmd, right), s1)
  }

  /** The loop of parseline. */
  function Backs(buf: string, cmd: Cmd, s: int): (r: Result)
    requires NulFree(buf) && Pos(buf, s) && Skip(buf, s) == s && WordsAt(buf, cmd)
    ensures r.Ok? && ResultOk(buf, s, r) && At(buf, r.s) != '&'
    decreases |buf| - s
  { if At(buf, s) == '&' then Backs(buf, Back(cmd), GetToken(buf, s).s) else Ok(cmd, s) }

  function ParseLine(buf: string, s0: int): (r: Result)
    requires NulFree(buf) && Pos(buf, s0)
    ensures ResultOk(buf, s0, r)
    decreases |buf| - s0, 3
  {
    match ParsePipe(buf, s0)
    case Panic => Panic
    case Ok(cmd0, s) =>
      var b := Backs(buf, cmd0, s);
      if At(buf, b.s) != ';' then b
      else
        match ParseLine(buf, GetToken(buf, b.s).s)
        case Panic => Panic
        case Ok(right, s1) => Ok(List(b.cmd, right), s1)
  }

  /** parsecmd, but for nulterminate. */
  function ParseCmd(buf: string): (r: Result)
    requires NulFree(buf)
    ensures r.Ok? ==> r.s == |buf| && WordsAt(buf, r.cmd)
  {
    match ParseLine(buf, 0)
    case Panic => Panic
    case Ok(cmd, s) => if s != |buf| then Panic else Ok(cmd, s)
  }
}
