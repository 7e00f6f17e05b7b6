/** The grammar of the shell (user/sh.c): what parsing a line from a cursor yields. A line is the sequence of its
    characters before the NUL; a pointer into it is an index. */
module ShellGrammar {

  const MAXARGS: nat := 10

  /** The characters from q up to eq. */
  datatype Tok = Tok(q: nat, eq: nat)

  /** < file, > file, >> file. */
  datatype Mode = Read | Truncate | Append

  /** struct cmd and its kinds, with words of type W. */
  datatype Cmd<W> = Exec(args: seq<W>) | Redir(cmd: Cmd<W>, file: W, mode: Mode) | Pipe(left: Cmd<W>, right: Cmd<W>)
                  | List(left: Cmd<W>, right: Cmd<W>) | Back(cmd: Cmd<W>)

  datatype Redirection<W> = Redirection(file: W, mode: Mode)

  datatype Error = MissingFile | NoBlock | MissingParen | Syntax | TooManyArgs | Leftovers

  /** A parsed command and the cursor after it, or the panic that ended the parse. */
  datatype Parsed = Ok(cmd: Cmd<Tok>, next: nat) | Panic(error: Error)
  datatype Redirs = Found(rs: seq<Redirection<Tok>>, next: nat) | Missing

  predicate White(c: char) { c == ' ' || c == '\t' || c == '\r' || c == '\n' || c == '\U{0B}' }

  predicate Symbol(c: char) { c == '<' || c == '|' || c == '>' || c == '&' || c == ';' || c == '(' || c == ')' }

  predicate WordChar(c: char) { !White(c) && !Symbol(c) && c != '\0' }

  ghost predicate CString(s: string) { forall i :: 0 <= i < |s| ==> s[i] != '\0' }

  /** *s, with the NUL at the end. */
  function At(s: string, i: nat): char { if i < |s| then s[i] else '\0' }

  // ----- tokens -----

  /** The first place from i on that is not white. */
  function Skip(s: string, i: nat): (j: nat)
    requires i <= |s|
    ensures i <= j <= |s| && !White(At(s, j)) && (forall k :: i <= k < j ==> White(s[k]))
    decreases |s| - i
  {
    if i < |s| && White(s[i]) then Skip(s, i + 1) else i
  }

  /** The end of the word that i is in. */
  function WordEnd(s: string, i: nat): (j: nat)
    requires i <= |s|
    ensures i <= j <= |s| && !WordChar(At(s, j)) && (forall k :: i <= k < j ==> WordChar(s[k]))
    decreases |s| - i
  {
    if i < |s| && WordChar(s[i]) then WordEnd(s, i + 1) else i
  }

  /** gettoken's answer: the kind, the token and the new cursor. */
  datatype Token = Token(kind: char, tok: Tok, next: nat)

  function GetToken(s: string, i: nat): (t: Token)
    requires i <= |s| && CString(s)
    ensures i <= t.next <= |s| && t.tok.q <= t.tok.eq <= t.next && t.tok.q == Skip(s, i)
    ensures t.kind == '\0' <==> t.tok.q == |s|
    ensures t.kind != '\0' ==> t.tok.q < t.tok.eq
    ensures t.kind == 'a' <==> WordChar(At(s, t.tok.q))
    ensures t.kind == 'a' ==> t.tok.eq == WordEnd(s, t.tok.q)
    ensures t.kind == '+' <==> At(s, t.tok.q) == '>' && At(s, t.tok.q + 1) == '>'
    ensures t.kind !in ['a', '+', '\0'] ==> t.kind == s[t.tok.q] && Symbol(t.kind)
    ensures t.kind !in ['a', '\0'] ==> t.tok.eq == t.tok.q + if t.kind == '+' then 2 else 1
    ensures t.next == Skip(s, t.tok.eq)
  {
    var q := Skip(s, i);
    if q == |s| then Token('\0', Tok(q, q), q)
    else if s[q] == '>' then
      if At(s, q + 1) == '>' then Token('+', Tok(q, q + 2), Skip(s, q + 2))
      else Token('>', Tok(q, q + 1), Skip(s, q + 1))
    else if Symbol(s[q]) then Token(s[q], Tok(q, q + 1), Skip(s, q + 1))
    else
      var eq := WordEnd(s, q + 1);
      Token('a', Tok(q, eq), Skip(s, eq))
  }

  /** peek's answer; its new cursor is Skip(s, i). */
  predicate Peek(s: string, i: nat, toks: string)
    requires i <= |s|
  {
    At(s, Skip(s, i)) != '\0' && At(s, Skip(s, i)) in toks
  }

  // ----- commands -----

  function Wrap<W>(cmd: Cmd<W>, rs: seq<Redirection<W>>): Cmd<W>
    decreases |rs|
  {
    if rs == [] then cmd else Wrap(Redir(cmd, rs[0].file, rs[0].mode), rs[1..])
  }

  function ModeOf(kind: char): Mode { if kind == '<' then Read else if kind == '>' then Truncate else Append }

  /** parseredirs, as the redirections it adds. */
  function ParseRedirs(s: string, i: nat): (r: Redirs)
    requires i <= |s| && CString(s)
    ensures r.Found? ==> i <= r.next <= |s|
    decreases |s| - i
  {
    if !Peek(s, i, "<>") then Found([], Skip(s, i))
    else
      var sign := GetToken(s, i);
      var file := GetToken(s, sign.next);
      if file.kind != 'a' then Missing
      else
        var rest := ParseRedirs(s, file.next);
        if rest.Found? then Found([Redirection(file.tok, ModeOf(sign.kind))] + rest.rs, rest.next) else Missing
  }

  /** parseexec's loop, with the words and redirections so far. */
  function ParseArgs(s: string, i: nat, args: seq<Tok>, rs: seq<Redirection<Tok>>): (r: Parsed)
    requires i <= |s| && CString(s) && |args| < MAXARGS
    ensures r.Ok? ==> i <= r.next <= |s|
    decreases |s| - i
  {
    if Peek(s, i, "|)&;") then Ok(Wrap(Exec(args), rs), Skip(s, i))
    else
      var t := GetToken(s, i);
      if t.kind == '\0' then Ok(Wrap(Exec(args), rs), t.next)
      else if t.kind != 'a' then Panic(Syntax)
      else if |args| + 1 >= MAXARGS then Panic(TooManyArgs)
      else
        var more := ParseRedirs(s, t.next);
        if more.Found? then ParseArgs(s, more.next, args + [t.tok], rs + more.rs) else Panic(MissingFile)
  }

  function ParseExec(s: string, i: nat): (r: Parsed)
    requires i <= |s| && CString(s)
    ensures r.Ok? ==> i <= r.next <= |s|
    decreases |s| - i, 1
  {
    if Peek(s, i, "(") then ParseBlock(s, Skip(s, i))
    else
      var rs := ParseRedirs(s, i);
      if rs.Found? then ParseArgs(s, rs.next, [], rs.rs) else Panic(MissingFile)
  }

  function ParseBlock(s: string, i: nat): (r: Parsed)
    requires i <= |s| && CString(s)
    ensures r.Ok? ==> i <= r.next <= |s|
    decreases |s| - i, 0
  {
    if !Peek(s, i, "(") then Panic(NoBlock)
    else
      var inside := ParseLine(s, GetToken(s, i).next);
      if inside.Panic? then inside
      else if !Peek(s, inside.next, ")") then Panic(MissingParen)
      else
        var rs := ParseRedirs(s, GetToken(s, inside.next).next);
        if rs.Found? then Ok(Wrap(inside.cmd, rs.rs), rs.next) else Panic(MissingFile)
  }

  function ParsePipe(s: string, i: nat): (r: Parsed)
    requires i <= |s| && CString(s)
    ensures r.Ok? ==> i <= r.next <= |s|
    decreases |s| - i, 2
  {
    var left := ParseExec(s, i);
    if left.Panic? || !Peek(s, left.next, "|") then Settled(s, left)
    else
      var right := ParsePipe(s, GetToken(s, left.next).next);
      if right.Ok? then Ok(Pipe(left.cmd, right.cmd), right.next) else right
  }

  /** The cursor after a peek. */
  function Settled(s: string, r: Parsed): Parsed
    requires r.Ok? ==> r.next <= |s|
  {
    if r.Ok? then Ok(r.cmd, Skip(s, r.next)) else r
  }

  /** parseline's loop over &. */
  function ParseBacks(s: string, i: nat, cmd: Cmd<Tok>): (r: Parsed)
    requires i <= |s| && CString(s)
    ensures r.Ok? && i <= r.next <= |s|
    decreases |s| - i
  {
    if Peek(s, i, "&") then ParseBacks(s, GetToken(s, i).next, Back(cmd)) else Ok(cmd, Skip(s, i))
  }

  function ParseLine(s: string, i: nat): (r: Parsed)
    requires i <= |s| && CString(s)
    ensures r.Ok? ==> i <= r.next <= |s|
    decreases |s| - i, 3
  {
    var first := ParsePipe(s, i);
    if first.Panic? then first
    else
      var left := ParseBacks(s, first.next, first.cmd);
      if !Peek(s, left.next, ";") then Settled(s, left)
      else
        var right := ParseLine(s, GetToken(s, left.next).next);
        if right.Ok? then Ok(List(left.cmd, right.cmd), right.next) else right
  }

  /** parsecmd without nulterminate. */
  function ParseCmd(s: string): (r: Parsed)
    requires CString(s)
  {
    var r := ParseLine(s, 0);
    if r.Panic? then r else if Skip(s, r.next) == |s| then Ok(r.cmd, |s|) else Panic(Leftovers)
  }
}
