/** The parser of user/sh.c: loops over a cursor, and nulterminate's writes into the buffer. */
module Shell {
  import opened CString
  import opened ShellParse
  import opened ShellPrint

  // ---------- tokens ----------

  method SkipWhite(buf: string, s0: int) returns (s: int)
    requires Pos(buf, s0)
    ensures s == Skip(buf, s0)
  {
    s := s0;
    while s < |buf| && White(buf[s])
      invariant s0 <= s <= |buf| && Skip(buf, s0) == Skip(buf, s)
    {
      s := s + 1;
    }
  }

  method Gettoken(buf: string, ps: int) returns (ret: char, w: Word, s: int)
    requires NulFree(buf) && Pos(buf, ps)
    ensures Token(ret, w, s) == GetToken(buf, ps)
  {
    s := SkipWhite(buf, ps);
    var q := s;
    ret := At(buf, s);
    if ret == NUL {
    } else if ret == '|' || ret == '(' || ret == ')' || ret == ';' || ret == '&' || ret == '<' {
      s := s + 1;
    } else if ret == '>' {
      s := s + 1;
      if At(buf, s) == '>' {
        ret := '+';
        s := s + 1;
      }
    } else {
      ret := 'a';
      while s < |buf| && !White(buf[s]) && !Symbol(buf[s])
        invariant q <= s <= |buf| && WordEnd(buf, q) == WordEnd(buf, s)
      {
        s := s + 1;
      }
    }
    w := Word(q, s);
    s := SkipWhite(buf, s);
  }

  method Peek(buf: string, ps: int, toks: string) returns (found: bool, s: int)
    requires NulFree(buf) && Pos(buf, ps)
    ensures s == Skip(buf, ps) && (found <==> s < |buf| && buf[s] in toks)
  {
    s := SkipWhite(buf, ps);
    found := At(buf, s) != NUL && At(buf, s) in toks;
  }

  // ---------- the grammar ----------

  method Parseredirs(buf: string, rs0: seq<Redirection>, ps: int) returns (r: Redirs)
    requires NulFree(buf) && Pos(buf, ps) && forall i :: 0 <= i < |rs0| ==> WordAt(buf, rs0[i].file)
    ensures r == ParseRedirs(buf, rs0, ps)
  {
    var rs, s := rs0, ps;
    var more;
    more, s := Peek(buf, s, "<>");
    while more
      invariant ps <= s <= |buf| && s == Skip(buf, s) && (more <==> At(buf, s) == '<' || At(buf, s) == '>')
      invariant forall i :: 0 <= i < |rs| ==> WordAt(buf, rs[i].file)
      invariant ParseRedirs(buf, rs0, ps) == ParseRedirs(buf, rs, s)
      decreases |buf| - s
    {
      var tok, file, w;
      tok, w, s := Gettoken(buf, s);
      file, w, s := Gettoken(buf, s);
      if file != 'a' { return RedirsPanic; }
      rs := rs + [Redirection(w, KindOf(tok))];
      more, s := Peek(buf, s, "<>");
    }
    return RedirsOk(rs, s);
  }

  method Parseexec(buf: string, ps: int) returns (r: Result)
    requires NulFree(buf) && Pos(buf, ps)
    ensures r == ParseExec(buf, ps)
    decreases |buf| - ps, 1
  {
    var found, s := Peek(buf, ps, "(");
    if found {
      r := Parseblock(buf, s);
      return;
    }
    var first := Parseredirs(buf, [], s);
    if first.RedirsPanic? { return Panic; }
    var args := Parseargs(buf, first.rs, first.s);
    if args.ArgsPanic? { return Panic; }
    return Ok(Wrap(Exec(args.argv), args.rs), args.s);
  }

  ghost predicate Fine(buf: string, argv: seq<Word>, rs: seq<Redirection>, s: int) {
    && NulFree(buf) && Pos(buf, s) && |argv| < MAXARGS
    && (forall i :: 0 <= i < |argv| ==> WordAt(buf, argv[i])) && forall i :: 0 <= i < |rs| ==> WordAt(buf, rs[i].file)
  }

  /** The body of parseexec's loop: one more argument and what redirections follow it, or the end. */
  method Parsearg(buf: string, argv: seq<Word>, rs: seq<Redirection>, s0: int) returns (end: bool, r: Args)
    requires Fine(buf, argv, rs, s0) && s0 == Skip(buf, s0) && !Stops(At(buf, s0))
    ensures end ==> r == ParseArgs(buf, argv, rs, s0)
    ensures !end ==> r.ArgsOk? && s0 < r.s && Fine(buf, r.argv, r.rs, r.s) && ParseArgs(buf, argv, rs, s0) == ParseArgs(buf, r.argv, r.rs, r.s)
  {
    var tok, w, s := Gettoken(buf, s0);
    if tok == NUL { return true, ArgsOk(argv, rs, s); }
    if tok != 'a' { return true, ArgsPanic; }
    if |argv| + 1 >= MAXARGS { return true, ArgsPanic; }
    var more := Parseredirs(buf, rs, s);
    if more.RedirsPanic? { return true, ArgsPanic; }
    return false, ArgsOk(argv + [w], more.rs, more.s);
  }

  /** parseexec's loop. */
  method Parseargs(buf: string, rs0: seq<Redirection>, ps: int) returns (r: Args)
    requires Fine(buf, [], rs0, ps)
    ensures r == ParseArgs(buf, [], rs0, ps)
  {
    r := ArgsOk([], rs0, ps);
    var end := false;
    while !end
      invariant if end then r == ParseArgs(buf, [], rs0, ps)
                else r.ArgsOk? && ps <= r.s && Fine(buf, r.argv, r.rs, r.s) && ParseArgs(buf, [], rs0, ps) == ParseArgs(buf, r.argv, r.rs, r.s)
      decreases !end, if r.ArgsOk? then |buf| - r.s else 0
    {
      var stop, s := Peek(buf, r.s, "|)&;");
      assert ParseArgs(buf, r.argv, r.rs, r.s) == ParseArgs(buf, r.argv, r.rs, s);
      if stop {
        end, r := true, ArgsOk(r.argv, r.rs, s);
      } else {
        end, r := Parsearg(buf, r.argv, r.rs, s);
      }
    }
  }

  method Parseblock(buf: string, ps: int) returns (r: Result)
    requires NulFree(buf) && Pos(buf, ps)
    ensures r == ParseBlock(buf, ps)
    decreases |buf| - ps, 0
  {
    var found, s := Peek(buf, ps, "(");
    if !found { return Panic; }
    var tok, w;
    tok, w, s := Gettoken(buf, s);
    r := Parseline(buf, s);
    if r.Panic? { return; }
    found, s := Peek(buf, r.s, ")");
    if !found { return Panic; }
    tok, w, s := Gettoken(buf, s);
    var rest := Parseredirs(buf, [], s);
    if rest.RedirsPanic? { return Panic; }
    return Ok(Wrap(r.cmd, rest.rs), rest.s);
  }

  method Parsepipe(buf: string, ps: int) returns (r: Result)
    requires NulFree(buf) && Pos(buf, ps)
    ensures r == ParsePipe(buf, ps)
    decreases |buf| - ps, 2
  {
    r := Parseexec(buf, ps);
    if r.Panic? { return; }
    var found, s := Peek(buf, r.s, "|");
    if found {
      var tok, w;
      tok, w, s := Gettoken(buf, s);
      var right := Parsepipe(buf, s);
      if right.Panic? { return Panic; }
      return Ok(Pipe(r.cmd, right.cmd), right.s);
    }
  }

  method Parseline(buf: string, ps: int) returns (r: Result)
    requires NulFree(buf) && Pos(buf, ps)
    ensures r == ParseLine(buf, ps)
    decreases |buf| - ps, 3
  {
    r := Parsepipe(buf, ps);
    if r.Panic? { return; }
    var cmd := r.cmd;
    var found, s := Peek(buf, r.s, "&");
    while found
      invariant r.s <= s <= |buf| && s == Skip(buf, s) && WordsAt(buf, cmd) && (found <==> At(buf, s) == '&')
      invariant Backs(buf, r.cmd, r.s) == Backs(buf, cmd, s)
      decreases |buf| - s
    {
      var tok, w;
      tok, w, s := Gettoken(buf, s);
      cmd := Back(cmd);
      found, s := Peek(buf, s, "&");
    }
    found, s := Peek(buf, s, ";");
    if found {
      var tok, w;
      tok, w, s := Gettoken(buf, s);
      var right := Parseline(buf, s);
      if right.Panic? { return Panic; }
      return Ok(List(cmd, right.cmd), right.s);
    }
    return Ok(cmd, s);
  }

  // ---------- nulterminate ----------

  /** The places that nulterminate writes to. */
  function Ends(cmd: Cmd): set<int> {
    match cmd
    case Exec(argv) => set i | 0 <= i < |argv| :: argv[i].eq
    case Redir(c, file, _) => Ends(c) + {file.eq}
    case Pipe(l, r) => Ends(l) + Ends(r)
    case List(l, r) => Ends(l) + Ends(r)
    case Back(c) => Ends(c)
  }

  /** w is a word of the command. */
  predicate HasWord(cmd: Cmd, w: Word) {
    match cmd
    case Exec(argv) => w in argv
    case Redir(c, file, _) => w == file || HasWord(c, w)
    case Pipe(l, r) => HasWord(l, w) || HasWord(r, w)
    case List(l, r) => HasWord(l, w) || HasWord(r, w)
    case Back(c) => HasWord(c, w)
  }

  lemma {:induction false} HasWordAt(buf: string, cmd: Cmd, w: Word)
    requires WordsAt(buf, cmd) && HasWord(cmd, w)
    ensures WordAt(buf, w) && w.eq in Ends(cmd)
  {
    match cmd
    case Exec(argv) =>
      var i :| 0 <= i < |argv| && argv[i] == w;
      assert argv[i].eq in Ends(cmd);
    case Redir(c, file, _) => if w != file { HasWordAt(buf, c, w); }
    case Pipe(l, r) => if HasWord(l, w) { HasWordAt(buf, l, w); } else { HasWordAt(buf, r, w); }
    case List(l, r) => if HasWord(l, w) { HasWordAt(buf, l, w); } else { HasWordAt(buf, r, w); }
    case Back(c) => HasWordAt(buf, c, w);
  }

  /** nulterminate never writes inside a word. */
  lemma {:induction false} EndOutside(buf: string, cmd: Cmd, e: int, w: Word)
    requires WordsAt(buf, cmd) && e in Ends(cmd) && WordAt(buf, w)
    ensures 0 <= e <= |buf| && !(w.q <= e < w.eq)
  {
    match cmd
    case Exec(argv) =>
      var i :| 0 <= i < |argv| && argv[i].eq == e;
      if w.q <= e < w.eq { WordChars(buf, w.q, e); }
    case Redir(c, file, _) =>
      if e == file.eq {
        if w.q <= e < w.eq { WordChars(buf, w.q, e); }
      } else { EndOutside(buf, c, e, w); }
    case Pipe(l, r) => if e in Ends(l) { EndOutside(buf, l, e, w); } else { EndOutside(buf, r, e, w); }
    case List(l, r) => if e in Ends(l) { EndOutside(buf, l, e, w); } else { EndOutside(buf, r, e, w); }
    case Back(c) => EndOutside(buf, c, e, w);
  }

  method Nulterminate(a: array<char>, cmd: Cmd, ghost buf: string)
    requires WordsAt(buf, cmd) && a.Length == |buf| + 1
    modifies a
    ensures forall x :: 0 <= x < a.Length ==> a[x] == if x in Ends(cmd) then NUL else old(a[x])
    decreases cmd
  {
    match cmd
    case Exec(argv) =>
      var i := 0;
      while i < |argv|
        invariant 0 <= i <= |argv|
        invariant forall x :: 0 <= x < a.Length ==> a[x] == if exists k :: 0 <= k < i && argv[k].eq == x then NUL else old(a[x])
      {
        assert WordAt(buf, argv[i]);
        a[argv[i].eq] := NUL;
        i := i + 1;
      }
    case Redir(c, file, _) =>
      Nulterminate(a, c, buf);
      a[file.eq] := NUL;
    case Pipe(l, r) =>
      Nulterminate(a, l, buf);
      Nulterminate(a, r, buf);
    case List(l, r) =>
      Nulterminate(a, l, buf);
      Nulterminate(a, r, buf);
    case Back(c) =>
      Nulterminate(a, c, buf);
  }

  /** The buffer from q on is the C string str. */
  ghost predicate IsString(a: seq<char>, q: int, str: string) {
    0 <= q && q + |str| < |a| && a[q..q + |str|] == str && a[q + |str|] == NUL && NulFree(str)
  }

  /** Bytes at `ends` are NUL, and none of them is inside the word that ends at one of them. */
  lemma Terminated(a: seq<char>, buf: string, ends: set<int>, w: Word)
    requires NulFree(buf) && 0 <= w.q <= w.eq <= |buf| && |a| == |buf| + 1 && w.eq in ends
    requires forall x :: 0 <= x < |a| ==> a[x] == if x in ends || x == |buf| then NUL else buf[x]
    requires forall x :: w.q <= x < w.eq ==> x !in ends
    ensures IsString(a, w.q, buf[w.q..w.eq])
  {
    assert a[w.q..w.eq] == buf[w.q..w.eq];
    forall i | 0 <= i < w.eq - w.q ensures buf[w.q..w.eq][i] != NUL { assert buf[w.q + i] != NUL; }
  }

  /** After nulterminate a word is a C string, spelled as in the buffer before. */
  lemma WordTerminated(a: seq<char>, buf: string, cmd: Cmd, w: Word)
    requires NulFree(buf) && WordsAt(buf, cmd) && HasWord(cmd, w) && |a| == |buf| + 1
    requires forall x :: 0 <= x < |a| ==> a[x] == if x in Ends(cmd) || x == |buf| then NUL else buf[x]
    ensures WordAt(buf, w) && IsString(a, w.q, buf[w.q..w.eq])
  {
    HasWordAt(buf, cmd, w);
    forall x | w.q <= x < w.eq ensures x !in Ends(cmd) {
      if x in Ends(cmd) { EndOutside(buf, cmd, x, w); }
    }
    Terminated(a, buf, Ends(cmd), w);
  }

  /** parsecmd on a NUL-terminated buffer: afterwards every word of the command is a C string of its own,
      spelled as it was typed. */
  method Parsecmd(a: array<char>, n: nat) returns (r: Result)
    requires a.Length == n + 1 && a[n] == NUL && NulFree(a[..n])
    modifies a
    ensures r == ParseCmd(old(a[..n]))
    ensures r.Panic? ==> a[..] == old(a[..])
    ensures r.Ok? ==> forall w :: HasWord(r.cmd, w) ==> WordAt(old(a[..n]), w) && IsString(a[..], w.q, old(a[..n])[w.q..w.eq])
  {
    var buf := a[..n];
    r := Parseline(buf, 0);
    if r.Panic? { return; }
    var found, s := Peek(buf, r.s, "");
    if s != |buf| { return Panic; }
    Nulterminate(a, r.cmd, buf);
    forall w | HasWord(r.cmd, w) ensures WordAt(buf, w) && IsString(a[..], w.q, buf[w.q..w.eq]) {
      WordTerminated(a[..], buf, r.cmd, w);
    }
  }
}
