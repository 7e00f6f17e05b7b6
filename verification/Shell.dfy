/** The parser of user/sh.c as code: loops over a cursor, and nulterminate, which writes into the line. */
module Shell {
  import opened ShellGrammar
  import opened ShellParser

  // ----- tokens -----

  /** gettoken: the kind, the token from q to eq, and the new cursor. */
  method Gettoken(line: string, i: nat) returns (ret: char, q: nat, eq: nat, next: nat)
    requires i <= |line| && CString(line)
    ensures Token(ret, Tok(q, eq), next) == GetToken(line, i)
  {
    var s := SkipWhite(line, i);
    q := s;
    ret := At(line, s);
    if ret == '\0' {
    } else if ret == '|' || ret == '(' || ret == ')' || ret == ';' || ret == '&' || ret == '<' {
      s := s + 1;
    } else if ret == '>' {
      s := s + 1;
      if At(line, s) == '>' {
        ret := '+';
        s := s + 1;
      }
    } else {
      ret := 'a';
      while s < |line| && !White(line[s]) && !Symbol(line[s])
        invariant q <= s <= |line| && WordEnd(line, q) == WordEnd(line, s)
      {
        s := s + 1;
      }
    }
    eq := s;
    next := SkipWhite(line, s);
  }

  /** The loop over white space in gettoken and peek. */
  method SkipWhite(line: string, i: nat) returns (s: nat)
    requires i <= |line|
    ensures s == Skip(line, i)
  {
    s := i;
    while s < |line| && White(line[s])
      invariant i <= s <= |line| && Skip(line, i) == Skip(line, s)
    {
      s := s + 1;
    }
  }

  /** peek: whether one of toks comes next, and the new cursor. */
  method PeekToken(line: string, i: nat, toks: string) returns (r: bool, next: nat)
    requires i <= |line|
    ensures next == Skip(line, i) && r == Peek(line, i, toks)
  {
    next := SkipWhite(line, i);
    r := At(line, next) != '\0' && At(line, next) in toks;
  }

  // ----- commands -----

  /** More redirections after rs. */
  ghost function After(rs: seq<Redirection<Tok>>, more: Redirs): Redirs {
    if more.Found? then Found(rs + more.rs, more.next) else Missing
  }

  lemma Settle(s: string, i: nat, toks: string)
    requires i <= |s| && CString(s)
    ensures Skip(s, Skip(s, i)) == Skip(s, i) && GetToken(s, Skip(s, i)) == GetToken(s, i)
    ensures Peek(s, Skip(s, i), toks) <==> Peek(s, i, toks)
  {
  }

  lemma AfterNone(more: Redirs)
    ensures After([], more) == more
  {
    assert more.Found? ==> [] + more.rs == more.rs;
  }

  lemma AfterLast(rs: seq<Redirection<Tok>>, next: nat)
    ensures After(rs, Found([], next)) == Found(rs, next)
  {
    assert rs + [] == rs;
  }

  lemma AfterBoth(rs: seq<Redirection<Tok>>, one: seq<Redirection<Tok>>, more: Redirs)
    ensures After(rs, After(one, more)) == After(rs + one, more)
    ensures After(rs, Missing) == Missing
  {
    assert more.Found? ==> rs + (one + more.rs) == (rs + one) + more.rs;
  }

  /** One turn of parseredirs' loop. */
  lemma RedirsNext(s: string, i: nat)
    requires i <= |s| && CString(s)
    ensures !Peek(s, i, "<>") ==> ParseRedirs(s, i) == Found([], Skip(s, i))
    ensures Peek(s, i, "<>") ==>
              var file := GetToken(s, GetToken(s, i).next); i < file.next <= |s| || file.kind != 'a'
    ensures Peek(s, i, "<>") ==>
              var sign := GetToken(s, i); var file := GetToken(s, sign.next);
              ParseRedirs(s, i) ==
                if file.kind != 'a' then Missing
                else After([Redirection(file.tok, ModeOf(sign.kind))], ParseRedirs(s, file.next))
    ensures forall rs :: After(rs, Missing) == Missing
  {
  }

  /** parseredirs, as the list of redirections it adds. */
  method Parseredirs(line: string, start: nat) returns (r: Redirs)
    requires start <= |line| && CString(line)
    ensures r == ParseRedirs(line, start)
  {
    hide ParseRedirs, After, GetToken, Peek;
    var i, rs := start, [];
    AfterNone(ParseRedirs(line, start));
    while true
      invariant i <= |line| && ParseRedirs(line, start) == After(rs, ParseRedirs(line, i))
      decreases |line| - i
    {
      Settle(line, i, "<>");
      var more, j := PeekToken(line, i, "<>");
      if !more {
        RedirsNext(line, i);
        AfterLast(rs, j);
        return Found(rs, j);
      }
      var tok, _, _, k := Gettoken(line, j);
      var kind, q, eq, next := Gettoken(line, k);
      RedirsNext(line, i);
      if kind != 'a' { return Missing; }
      AfterBoth(rs, [Redirection(Tok(q, eq), ModeOf(tok))], ParseRedirs(line, next));
      rs := rs + [Redirection(Tok(q, eq), ModeOf(tok))];
      i := next;
    }
  }

  /** parseexec's loop. */
  method Parseargs(line: string, start: nat, first: seq<Redirection<Tok>>) returns (r: Parsed)
    requires start <= |line| && CString(line)
    ensures r == ParseArgs(line, start, [], first)
  {
    var i, args, rs := start, [], first;
    while true
      invariant i <= |line| && |args| < MAXARGS && ParseArgs(line, start, [], first) == ParseArgs(line, i, args, rs)
      decreases |line| - i
    {
      Settle(line, i, "|)&;");
      var stop, j := PeekToken(line, i, "|)&;");
      if stop { return Ok(Wrap(Exec(args), rs), j); }
      var tok, q, eq, next := Gettoken(line, j);
      if tok == '\0' { return Ok(Wrap(Exec(args), rs), next); }
      if tok != 'a' { return Panic(Syntax); }
      if |args| + 1 >= MAXARGS { return Panic(TooManyArgs); }
      args := args + [Tok(q, eq)];
      var more := Parseredirs(line, next);
      if more.Missing? { return Panic(MissingFile); }
      rs, i := rs + more.rs, more.next;
    }
  }

  /** parseexec. */
  method Parseexec(line: string, i: nat) returns (r: Parsed)
    requires i <= |line| && CString(line)
    ensures r == ParseExec(line, i)
    decreases |line| - i, 1
  {
    var block, j := PeekToken(line, i, "(");
    if block {
      r := Parseblock(line, j);
      return;
    }
    RedirsSettle(line, i);
    var rs := Parseredirs(line, j);
    if rs.Missing? { return Panic(MissingFile); }
    r := Parseargs(line, rs.next, rs.rs);
  }

  lemma RedirsSettle(s: string, i: nat)
    requires i <= |s| && CString(s)
    ensures ParseRedirs(s, Skip(s, i)) == ParseRedirs(s, i)
  {
    Settle(s, i, "<>");
  }

  /** parseblock. */
  method Parseblock(line: string, i: nat) returns (r: Parsed)
    requires i <= |line| && CString(line)
    ensures r == ParseBlock(line, i)
    decreases |line| - i, 0
  {
    Settle(line, i, "(");
    var block, j := PeekToken(line, i, "(");
    if !block { return Panic(NoBlock); }
    var _, _, _, k := Gettoken(line, j);
    r := Parseline(line, k);
    if r.Panic? { return; }
    Settle(line, r.next, ")");
    var close, e := PeekToken(line, r.next, ")");
    if !close { return Panic(MissingParen); }
    var _, _, _, after := Gettoken(line, e);
    var rs := Parseredirs(line, after);
    if rs.Missing? { return Panic(MissingFile); }
    return Ok(Wrap(r.cmd, rs.rs), rs.next);
  }

  /** parsepipe. */
  method Parsepipe(line: string, i: nat) returns (r: Parsed)
    requires i <= |line| && CString(line)
    ensures r == ParsePipe(line, i)
    decreases |line| - i, 2
  {
    var left := Parseexec(line, i);
    if left.Panic? { return left; }
    Settle(line, left.next, "|");
    var more, j := PeekToken(line, left.next, "|");
    if !more { return Ok(left.cmd, j); }
    var _, _, _, k := Gettoken(line, j);
    var right := Parsepipe(line, k);
    if right.Panic? { return right; }
    return Ok(Pipe(left.cmd, right.cmd), right.next);
  }

  /** parseline. */
  method Parseline(line: string, i: nat) returns (r: Parsed)
    requires i <= |line| && CString(line)
    ensures r == ParseLine(line, i)
    decreases |line| - i, 3
  {
    var first := Parsepipe(line, i);
    if first.Panic? { return first; }
    var cmd, j := first.cmd, first.next;
    Settle(line, j, "&");
    var more;
    more, j := PeekToken(line, j, "&");
    ghost var all := ParseBacks(line, first.next, first.cmd);
    while more
      invariant i <= j <= |line| && j == Skip(line, j) && more == Peek(line, j, "&") && ParseBacks(line, j, cmd) == all
      decreases |line| - j
    {
      var _, _, _, k := Gettoken(line, j);
      cmd := Back(cmd);
      BacksSettle(line, k, cmd);
      more, j := PeekToken(line, k, "&");
    }
    Settle(line, j, ";");
    var list, e := PeekToken(line, j, ";");
    if !list { return Ok(cmd, e); }
    var _, _, _, k := Gettoken(line, e);
    var right := Parseline(line, k);
    if right.Panic? { return right; }
    return Ok(List(cmd, right.cmd), right.next);
  }

  lemma BacksSettle(s: string, i: nat, cmd: Cmd<Tok>)
    requires i <= |s| && CString(s)
    ensures ParseBacks(s, Skip(s, i), cmd) == ParseBacks(s, i, cmd) && Skip(s, Skip(s, i)) == Skip(s, i)
    ensures Peek(s, Skip(s, i), "&") <==> Peek(s, i, "&")
  {
    Settle(s, i, "&");
  }

  // ----- nulterminate -----

  /** The places where the words of a command end. */
  function Ends(cmd: Cmd<Tok>): set<nat> {
    match cmd
    case Exec(args) => EndsOf(args)
    case Redir(c, file, _) => Ends(c) + {file.eq}
    case Pipe(l, r) => Ends(l) + Ends(r)
    case List(l, r) => Ends(l) + Ends(r)
    case Back(c) => Ends(c)
  }

  function EndsOf(toks: seq<Tok>): (e: set<nat>)
    ensures forall x :: x in e <==> exists k :: 0 <= k < |toks| && toks[k].eq == x
  {
    set k | 0 <= k < |toks| :: toks[k].eq
  }

  /** b with a NUL at each of these places. */
  ghost predicate Nulled(before: seq<char>, b: seq<char>, at: set<nat>) {
    |b| == |before| && forall k :: 0 <= k < |b| ==> b[k] == if k in at then '\0' else before[k]
  }

  lemma SubEnds(cmd: Cmd<Tok>)
    ensures cmd.Redir? ==> Ends(cmd.cmd) <= Ends(cmd) && cmd.file.eq in Ends(cmd)
    ensures cmd.Pipe? || cmd.List? ==> Ends(cmd.left) <= Ends(cmd) && Ends(cmd.right) <= Ends(cmd)
    ensures cmd.Back? ==> Ends(cmd.cmd) <= Ends(cmd)
  {
  }

  method Nulterminate(cmd: Cmd<Tok>, buf: array<char>)
    requires forall e :: e in Ends(cmd) ==> e < buf.Length
    modifies buf
    ensures Nulled(old(buf[..]), buf[..], Ends(cmd))
    decreases cmd
  {
    SubEnds(cmd);
    match cmd
    case Exec(args) =>
      var i := 0;
      while i < |args|
        invariant i <= |args|
        invariant forall k :: 0 <= k < buf.Length ==>
                    buf[k] == if exists j :: 0 <= j < i && args[j].eq == k then '\0' else old(buf[k])
      {
        assert args[i].eq in EndsOf(args) && args[i].eq in Ends(cmd);
        buf[args[i].eq] := '\0';
        i := i + 1;
      }
    case Redir(c, file, _) =>
      Nulterminate(c, buf);
      buf[file.eq] := '\0';
    case Pipe(l, r) =>
      Nulterminate(l, buf);
      Nulterminate(r, buf);
    case List(l, r) =>
      Nulterminate(l, buf);
      Nulterminate(r, buf);
    case Back(c) =>
      Nulterminate(c, buf);
  }

  /** The C string at tok.q in b is the word that tok had in s. */
  ghost predicate Denotes(b: seq<char>, s: string, tok: Tok) {
    && tok.q < tok.eq <= |s| < |b| && b[tok.eq] == '\0'
    && forall k :: tok.q <= k < tok.eq ==> b[k] == s[k] && b[k] != '\0'
  }

  ghost predicate AllDenote(b: seq<char>, s: string, cmd: Cmd<Tok>) {
    match cmd
    case Exec(args) => forall k :: 0 <= k < |args| ==> Denotes(b, s, args[k])
    case Redir(c, file, _) => AllDenote(b, s, c) && Denotes(b, s, file)
    case Pipe(l, r) => AllDenote(b, s, l) && AllDenote(b, s, r)
    case List(l, r) => AllDenote(b, s, l) && AllDenote(b, s, r)
    case Back(c) => AllDenote(b, s, c)
  }

  /** Places that are not inside any word. */
  ghost predicate Outside(s: string, at: set<nat>) {
    forall e :: e in at ==> e <= |s| && !WordChar(At(s, e))
  }

  lemma {:induction false} EndsAreOutside(s: string, cmd: Cmd<Tok>)
    requires TreeOk(s, cmd)
    ensures Outside(s, Ends(cmd))
  {
    match cmd
    case Exec(args) =>
    case Redir(c, file, _) => EndsAreOutside(s, c);
    case Pipe(l, r) => EndsAreOutside(s, l); EndsAreOutside(s, r);
    case List(l, r) => EndsAreOutside(s, l); EndsAreOutside(s, r);
    case Back(c) => EndsAreOutside(s, c);
  }

  /** A NUL written behind one word does not land inside another. */
  lemma {:induction false} NulledDenotes(s: string, before: seq<char>, b: seq<char>, at: set<nat>, cmd: Cmd<Tok>)
    requires before == s + ['\0'] && Nulled(before, b, at) && Outside(s, at) && TreeOk(s, cmd) && Ends(cmd) <= at
    ensures AllDenote(b, s, cmd)
  {
    match cmd
    case Exec(args) =>
      forall k | 0 <= k < |args| ensures Denotes(b, s, args[k]) {
        assert WordAt(s, args[k]) && args[k].eq in EndsOf(args);
      }
    case Redir(c, file, _) => NulledDenotes(s, before, b, at, c); assert WordAt(s, file) && file.eq in at;
    case Pipe(l, r) => NulledDenotes(s, before, b, at, l); NulledDenotes(s, before, b, at, r);
    case List(l, r) => NulledDenotes(s, before, b, at, l); NulledDenotes(s, before, b, at, r);
    case Back(c) => NulledDenotes(s, before, b, at, c);
  }

  /** parsecmd on a line in memory. The command is the one the grammar gives, and every pointer in it denotes its own
      word. */
  method Parsecmd(buf: array<char>, n: nat) returns (r: Parsed)
    requires buf.Length == n + 1 && buf[n] == '\0' && CString(buf[..n])
    modifies buf
    ensures r == ParseCmd(old(buf[..n]))
    ensures r.Ok? ==> AllDenote(buf[..], old(buf[..n]), r.cmd) && Nulled(old(buf[..]), buf[..], Ends(r.cmd))
    ensures r.Panic? ==> buf[..] == old(buf[..])
  {
    hide ParseLine, TreeOk, Ends, AllDenote, Skip;
    var line := buf[..n];
    r := Parseline(line, 0);
    if r.Panic? { return; }
    var _, s := PeekToken(line, r.next, "");
    if s != n { return Panic(Leftovers); }
    r := Ok(r.cmd, n);
    ParsedWords(line);
    EndsAreOutside(line, r.cmd);
    assert buf[..] == line + ['\0'];
    Nulterminate(r.cmd, buf);
    NulledDenotes(line, line + ['\0'], buf[..], Ends(r.cmd), r.cmd);
  }
}
