/** Every word of a command that the shell's parser accepts is a token of the line. */
module ShellParser {
  import opened ShellGrammar

  // ----- the words of a parsed command -----

  /** tok is a maximal word of s. */
  ghost predicate WordAt(s: string, tok: Tok) {
    && tok.q < tok.eq <= |s| && (forall k :: tok.q <= k < tok.eq ==> WordChar(s[k])) && !WordChar(At(s, tok.eq))
  }

  ghost predicate WordsAt(s: string, toks: seq<Tok>) {
    forall k :: 0 <= k < |toks| ==> WordAt(s, toks[k])
  }

  /** Every word of the command is a word of s, and the words of a simple command fit into argv with its null. */
  ghost predicate TreeOk(s: string, cmd: Cmd<Tok>) {
    match cmd
    case Exec(args) => |args| < MAXARGS && WordsAt(s, args)
    case Redir(c, file, _) => TreeOk(s, c) && WordAt(s, file)
    case Pipe(l, r) => TreeOk(s, l) && TreeOk(s, r)
    case List(l, r) => TreeOk(s, l) && TreeOk(s, r)
    case Back(c) => TreeOk(s, c)
  }

  ghost predicate RedirsOk(s: string, rs: seq<Redirection<Tok>>) {
    forall k :: 0 <= k < |rs| ==> WordAt(s, rs[k].file)
  }

  lemma {:induction false} WrapOk(s: string, cmd: Cmd<Tok>, rs: seq<Redirection<Tok>>)
    requires TreeOk(s, cmd) && RedirsOk(s, rs)
    ensures TreeOk(s, Wrap(cmd, rs))
    decreases |rs|
  {
    if rs != [] { WrapOk(s, Redir(cmd, rs[0].file, rs[0].mode), rs[1..]); }
  }

  lemma {:induction false} RedirsWords(s: string, i: nat)
    requires i <= |s| && CString(s)
    ensures ParseRedirs(s, i).Found? ==> RedirsOk(s, ParseRedirs(s, i).rs)
    decreases |s| - i
  {
    if Peek(s, i, "<>") {
      var file := GetToken(s, GetToken(s, i).next);
      if file.kind == 'a' { RedirsWords(s, file.next); }
    }
  }

  lemma {:induction false} ArgsWords(s: string, i: nat, args: seq<Tok>, rs: seq<Redirection<Tok>>)
    requires i <= |s| && CString(s) && |args| < MAXARGS && WordsAt(s, args) && RedirsOk(s, rs)
    ensures ParseArgs(s, i, args, rs).Ok? ==> TreeOk(s, ParseArgs(s, i, args, rs).cmd)
    decreases |s| - i
  {
    WrapOk(s, Exec(args), rs);
    var t := GetToken(s, i);
    if !Peek(s, i, "|)&;") && t.kind == 'a' && |args| + 1 < MAXARGS {
      RedirsWords(s, t.next);
      var more := ParseRedirs(s, t.next);
      if more.Found? { ArgsWords(s, more.next, args + [t.tok], rs + more.rs); }
    }
  }

  lemma {:induction false} BacksWords(s: string, i: nat, cmd: Cmd<Tok>)
    requires i <= |s| && CString(s) && TreeOk(s, cmd)
    ensures TreeOk(s, ParseBacks(s, i, cmd).cmd)
    decreases |s| - i
  {
    if Peek(s, i, "&") { BacksWords(s, GetToken(s, i).next, Back(cmd)); }
  }

  lemma {:induction false} ExecWords(s: string, i: nat)
    requires i <= |s| && CString(s)
    ensures ParseExec(s, i).Ok? ==> TreeOk(s, ParseExec(s, i).cmd)
    decreases |s| - i, 0
  {
    if Peek(s, i, "(") {
      var inside := ParseLine(s, GetToken(s, Skip(s, i)).next);
      LineWords(s, GetToken(s, Skip(s, i)).next);
      if inside.Ok? && Peek(s, inside.next, ")") {
        RedirsWords(s, GetToken(s, inside.next).next);
        var rs := ParseRedirs(s, GetToken(s, inside.next).next);
        if rs.Found? { WrapOk(s, inside.cmd, rs.rs); }
      }
    } else {
      RedirsWords(s, i);
      var rs := ParseRedirs(s, i);
      if rs.Found? { ArgsWords(s, rs.next, [], rs.rs); }
    }
  }

  lemma {:induction false} PipeWords(s: string, i: nat)
    requires i <= |s| && CString(s)
    ensures ParsePipe(s, i).Ok? ==> TreeOk(s, ParsePipe(s, i).cmd)
    decreases |s| - i, 1
  {
    ExecWords(s, i);
    var left := ParseExec(s, i);
    if left.Ok? && Peek(s, left.next, "|") { PipeWords(s, GetToken(s, left.next).next); }
  }

  lemma {:induction false} LineWords(s: string, i: nat)
    requires i <= |s| && CString(s)
    ensures ParseLine(s, i).Ok? ==> TreeOk(s, ParseLine(s, i).cmd)
    decreases |s| - i, 2
  {
    PipeWords(s, i);
    var first := ParsePipe(s, i);
    if first.Ok? {
      BacksWords(s, first.next, first.cmd);
      var left := ParseBacks(s, first.next, first.cmd);
      if Peek(s, left.next, ";") { LineWords(s, GetToken(s, left.next).next); }
    }
  }

  /** Every word of whatever parsecmd accepts is a token of the line. */
  lemma ParsedWords(s: string)
    requires CString(s)
    ensures ParseCmd(s).Ok? ==> TreeOk(s, ParseCmd(s).cmd)
  {
    LineWords(s, 0);
  }
}
