/** What the shell's grammar means (user/sh.c): every way to write a command, with parentheses, pipes, lists, background
    marks, and redirections anywhere among the words, parses to the command it stands for. */
module ShellForms {
  import opened ShellGrammar

  // ----- ways to write a command -----

  /** A word or a redirection of a simple command. */
  datatype Item<W> = Word(w: W) | To(r: Redirection<W>)

  /** A simple command; a group in parentheses with the redirections behind it; and the three operators. */
  datatype Form<W> =
    | Simple(items: seq<Item<W>>)
    | Group(inner: Form<W>, to: seq<Item<W>>)
    | Piped(left: Form<W>, right: Form<W>)
    | Backed(form: Form<W>)
    | Listed(left: Form<W>, right: Form<W>)

  function Args<W>(items: seq<Item<W>>): seq<W> {
    if items == [] then [] else (if items[0].Word? then [items[0].w] else []) + Args(items[1..])
  }

  function Tos<W>(items: seq<Item<W>>): seq<Redirection<W>> {
    if items == [] then [] else (if items[0].To? then [items[0].r] else []) + Tos(items[1..])
  }

  /** The command that a form stands for. */
  function Meaning<W>(f: Form<W>): Cmd<W> {
    match f
    case Simple(items) => Wrap(Exec(Args(items)), Tos(items))
    case Group(inner, to) => Wrap(Meaning(inner), Tos(to))
    case Piped(l, r) => Pipe(Meaning(l), Meaning(r))
    case Backed(c) => Back(Meaning(c))
    case Listed(l, r) => List(Meaning(l), Meaning(r))
  }

  /** | binds tighter than &, and & tighter than ; */
  function Level<W>(f: Form<W>): nat {
    match f case Simple(_) => 0 case Group(_, _) => 0 case Piped(_, _) => 1 case Backed(_) => 2 case Listed(_, _) => 3
  }

  predicate IsWord(w: string) { w != "" && forall k :: 0 <= k < |w| ==> WordChar(w[k]) }

  predicate ItemOk(x: Item<string>) { if x.Word? then IsWord(x.w) else IsWord(x.r.file) }

  predicate ItemsOk(items: seq<Item<string>>) { forall k :: 0 <= k < |items| ==> ItemOk(items[k]) }

  /** What may stand without parentheses where; argv holds the words. */
  predicate Proper(f: Form<string>) {
    match f
    case Simple(items) => ItemsOk(items) && |Args(items)| < MAXARGS
    case Group(inner, to) => Proper(inner) && ItemsOk(to) && Args(to) == []
    case Piped(l, r) => Proper(l) && Proper(r) && Level(l) == 0 && Level(r) <= 1
    case Backed(c) => Proper(c) && Level(c) <= 2
    case Listed(l, r) => Proper(l) && Proper(r) && Level(l) <= 2
  }

  function Sign(mode: Mode): string {
    match mode case Read => "<" case Truncate => ">" case Append => ">>"
  }

  function ShowItem(x: Item<string>): string {
    match x case Word(w) => w + " " case To(r) => Sign(r.mode) + r.file + " "
  }

  function ShowItems(items: seq<Item<string>>): string {
    if items == [] then "" else ShowItem(items[0]) + ShowItems(items[1..])
  }

  function Show(f: Form<string>): string {
    match f
    case Simple(items) => ShowItems(items)
    case Group(inner, to) => "(" + Show(inner) + ")" + ShowItems(to)
    case Piped(l, r) => Show(l) + "|" + Show(r)
    case Backed(c) => Show(c) + "&" + ""
    case Listed(l, r) => Show(l) + ";" + Show(r)
  }

  // ----- where the words stand -----

  function LocateItem(x: Item<string>, i: nat): Item<Tok> {
    match x
    case Word(w) => Word(Tok(i, i + |w|))
    case To(r) => var p := i + |Sign(r.mode)|; To(Redirection(Tok(p, p + |r.file|), r.mode))
  }

  function LocateItems(items: seq<Item<string>>, i: nat): (r: seq<Item<Tok>>)
    ensures |r| == |items|
  {
    if items == [] then [] else [LocateItem(items[0], i)] + LocateItems(items[1..], i + |ShowItem(items[0])|)
  }

  /** The form Show(f) at i, with places for words. */
  function Locate(f: Form<string>, i: nat): (g: Form<Tok>)
    ensures Level(g) == Level(f)
  {
    match f
    case Simple(items) => Simple(LocateItems(items, i))
    case Group(inner, to) => Group(Locate(inner, i + 1), LocateItems(to, i + 2 + |Show(inner)|))
    case Piped(l, r) => Piped(Locate(l, i), Locate(r, i + |Show(l)| + 1))
    case Backed(c) => Backed(Locate(c, i))
    case Listed(l, r) => Listed(Locate(l, i), Locate(r, i + |Show(l)| + 1))
  }

  /** The word that tok denotes in s. */
  function Spell(s: string, tok: Tok): string { if tok.q <= tok.eq <= |s| then s[tok.q..tok.eq] else "" }

  function SpellItem(s: string, x: Item<Tok>): Item<string> {
    match x case Word(w) => Word(Spell(s, w)) case To(r) => To(Redirection(Spell(s, r.file), r.mode))
  }

  function SpellItems(s: string, items: seq<Item<Tok>>): seq<Item<string>> {
    if items == [] then [] else [SpellItem(s, items[0])] + SpellItems(s, items[1..])
  }

  function SpellForm(s: string, f: Form<Tok>): Form<string> {
    match f
    case Simple(items) => Simple(SpellItems(s, items))
    case Group(inner, to) => Group(SpellForm(s, inner), SpellItems(s, to))
    case Piped(l, r) => Piped(SpellForm(s, l), SpellForm(s, r))
    case Backed(c) => Backed(SpellForm(s, c))
    case Listed(l, r) => Listed(SpellForm(s, l), SpellForm(s, r))
  }

  function SpellAll(s: string, toks: seq<Tok>): seq<string> {
    if toks == [] then [] else [Spell(s, toks[0])] + SpellAll(s, toks[1..])
  }

  /** The command that a parsed command denotes. */
  function Text(s: string, cmd: Cmd<Tok>): Cmd<string> {
    match cmd
    case Exec(args) => Exec(SpellAll(s, args))
    case Redir(c, file, mode) => Redir(Text(s, c), Spell(s, file), mode)
    case Pipe(l, r) => Pipe(Text(s, l), Text(s, r))
    case List(l, r) => List(Text(s, l), Text(s, r))
    case Back(c) => Back(Text(s, c))
  }

  lemma {:induction false} SpellArgs(s: string, items: seq<Item<Tok>>)
    ensures SpellAll(s, Args(items)) == Args(SpellItems(s, items))
  {
    if items != [] {
      SpellArgs(s, items[1..]);
      assert SpellItems(s, items)[1..] == SpellItems(s, items[1..]);
      if items[0].Word? {
        assert Args(items)[1..] == Args(items[1..]);
      } else {
        assert Args(items) == Args(items[1..]) && Args(SpellItems(s, items)) == Args(SpellItems(s, items[1..]));
      }
    }
  }

  lemma {:induction false} SpellWrap(s: string, cmd: Cmd<Tok>, items: seq<Item<Tok>>)
    ensures Text(s, Wrap(cmd, Tos(items))) == Wrap(Text(s, cmd), Tos(SpellItems(s, items)))
    decreases |items|
  {
    if items != [] {
      var rest, here := Tos(items[1..]), SpellItem(s, items[0]);
      assert SpellItems(s, items)[1..] == SpellItems(s, items[1..]);
      if items[0].To? {
        var r := items[0].r;
        assert Tos(items)[1..] == rest && Tos(SpellItems(s, items))[1..] == Tos(SpellItems(s, items[1..]));
        SpellWrap(s, Redir(cmd, r.file, r.mode), items[1..]);
      } else {
        assert Tos(items) == rest && Tos(SpellItems(s, items)) == Tos(SpellItems(s, items[1..]));
        SpellWrap(s, cmd, items[1..]);
      }
    }
  }

  /** Meaning looks at words only as wholes. */
  lemma {:induction false} SpellMeaning(s: string, f: Form<Tok>)
    ensures Text(s, Meaning(f)) == Meaning(SpellForm(s, f))
  {
    match f
    case Simple(items) => SpellArgs(s, items); SpellWrap(s, Exec(Args(items)), items);
    case Group(inner, to) => SpellMeaning(s, inner); SpellWrap(s, Meaning(inner), to);
    case Piped(l, r) => SpellMeaning(s, l); SpellMeaning(s, r);
    case Backed(c) => SpellMeaning(s, c);
    case Listed(l, r) => SpellMeaning(s, l); SpellMeaning(s, r);
  }

  /** p stands in s at i. */
  ghost predicate Has(s: string, i: nat, p: string) {
    i + |p| <= |s| && s[i..i + |p|] == p
  }

  lemma HasParts(s: string, i: nat, a: string, b: string)
    requires Has(s, i, a + b)
    ensures Has(s, i, a) && Has(s, i + |a|, b)
  {
    assert s[i..i + |a|] == (a + b)[..|a|] == a;
    assert s[i + |a|..i + |a| + |b|] == (a + b)[|a|..] == b;
  }

  lemma HasTwo(s: string, i: nat, a: string, sign: string, b: string)
    requires Has(s, i, a + sign + b) && |sign| == 1
    ensures Has(s, i, a) && i + |a| < |s| && s[i + |a|] == sign[0] && Has(s, i + |a| + 1, b)
  {
    HasParts(s, i, a + sign, b);
    HasParts(s, i, a, sign);
    assert s[i + |a|..i + |a| + 1][0] == sign[0];
  }

  lemma HasChar(s: string, i: nat, c: char)
    requires Has(s, i, [c])
    ensures i < |s| && s[i] == c
  {
    assert s[i..i + 1][0] == c;
  }

  lemma ShowGroup(inner: Form<string>, to: seq<Item<string>>)
    ensures Show(Group(inner, to)) == "(" + Show(inner) + ")" + ShowItems(to)
    ensures |Show(Group(inner, to))| == |Show(inner)| + 2 + |ShowItems(to)|
  {
  }

  lemma HasGroup(s: string, i: nat, inner: Form<string>, to: seq<Item<string>>)
    requires Has(s, i, Show(Group(inner, to)))
    ensures var e := i + 1 + |Show(inner)|;
            && i < e < |s| && s[i] == '(' && Has(s, i + 1, Show(inner)) && s[e] == ')' && Has(s, e + 1, ShowItems(to))
            && e + 1 + |ShowItems(to)| == i + |Show(Group(inner, to))|
  {
    hide Has, Show;
    ShowGroup(inner, to);
    HasTwo(s, i, "(" + Show(inner), ")", ShowItems(to));
    HasParts(s, i, "(", Show(inner));
    HasChar(s, i, '(');
  }

  lemma HasSpell(s: string, i: nat, w: string)
    requires Has(s, i, w)
    ensures Spell(s, Tok(i, i + |w|)) == w
  {
  }

  lemma LocatedItem(s: string, x: Item<string>, i: nat)
    requires Has(s, i, ShowItem(x))
    ensures SpellItem(s, LocateItem(x, i)) == x
  {
    hide Has, Spell, Sign;
    match x {
      case Word(w) =>
        HasParts(s, i, w, " ");
        HasSpell(s, i, w);
      case To(r) =>
        HasParts(s, i, Sign(r.mode) + r.file, " ");
        HasParts(s, i, Sign(r.mode), r.file);
        HasSpell(s, i + |Sign(r.mode)|, r.file);
    }
  }

  lemma {:induction false} LocatedItems(s: string, items: seq<Item<string>>, i: nat)
    requires Has(s, i, ShowItems(items))
    ensures SpellItems(s, LocateItems(items, i)) == items
  {
    hide Has, ShowItem, LocateItem, SpellItem;
    if items != [] {
      var x, rest := items[0], items[1..];
      HasParts(s, i, ShowItem(x), ShowItems(rest));
      LocatedItems(s, rest, i + |ShowItem(x)|);
      LocatedItem(s, x, i);
      assert LocateItems(items, i)[1..] == LocateItems(rest, i + |ShowItem(x)|);
    }
  }

  lemma {:induction false} Located(s: string, f: Form<string>, i: nat)
    requires Has(s, i, Show(f))
    ensures SpellForm(s, Locate(f, i)) == f
  {
    hide Has, ShowItems, LocateItems, SpellItems;
    match f
    case Simple(items) => LocatedItems(s, items, i);
    case Group(inner, to) =>
      HasGroup(s, i, inner, to);
      Located(s, inner, i + 1);
      LocatedItems(s, to, i + 2 + |Show(inner)|);
    case Piped(l, r) =>
      HasTwo(s, i, Show(l), "|", Show(r));
      Located(s, l, i);
      Located(s, r, i + |Show(l)| + 1);
    case Backed(c) =>
      HasTwo(s, i, Show(c), "&", "");
      Located(s, c, i);
    case Listed(l, r) =>
      HasTwo(s, i, Show(l), ";", Show(r));
      Located(s, l, i);
      Located(s, r, i + |Show(l)| + 1);
  }

  // ----- parsing items -----

  /** A word that stands in s before something else is one token. */
  lemma WordToken(s: string, i: nat, w: string)
    requires CString(s) && IsWord(w) && Has(s, i, w) && !WordChar(At(s, i + |w|))
    ensures i < |s| && Skip(s, i) == i && WordChar(s[i])
    ensures GetToken(s, i) == Token('a', Tok(i, i + |w|), Skip(s, i + |w|))
  {
    forall k | i <= k < i + |w| ensures WordChar(s[k]) { assert s[k] == s[i..i + |w|][k - i] == w[k - i]; }
    var e := WordEnd(s, i);
    assert e >= i + |w| && e <= i + |w|;
  }

  lemma Still(s: string, i: nat)
    requires i <= |s| && !White(At(s, i))
    ensures Skip(s, i) == i
  {
  }

  lemma AfterSpace(s: string, i: nat)
    requires i < |s| && s[i] == ' ' && !White(At(s, i + 1))
    ensures Skip(s, i) == i + 1
  {
  }

  lemma NoRedirs(s: string, i: nat)
    requires i <= |s| && CString(s) && !White(At(s, i)) && At(s, i) !in "<>"
    ensures ParseRedirs(s, i) == Found([], i) && Skip(s, i) == i
  {
  }

  lemma SignChars(s: string, i: nat, mode: Mode)
    requires Has(s, i, Sign(mode))
    ensures |Sign(mode)| == if mode == Append then 2 else 1
    ensures i < |s| && s[i] == if mode == Read then '<' else '>'
    ensures mode == Append ==> At(s, i + 1) == '>'
  {
    hide Has;
    match mode {
      case Read => HasChar(s, i, '<');
      case Truncate => HasChar(s, i, '>');
      case Append =>
        assert Sign(mode) == ">" + ">";
        HasParts(s, i, ">", ">");
        HasChar(s, i, '>');
        HasChar(s, i + 1, '>');
    }
  }

  lemma SignToken(s: string, i: nat, mode: Mode)
    requires CString(s) && Has(s, i, Sign(mode)) && WordChar(At(s, i + |Sign(mode)|))
    ensures i < |s| && Skip(s, i) == i && s[i] in "<>"
    ensures GetToken(s, i).next == i + |Sign(mode)| && ModeOf(GetToken(s, i).kind) == mode
  {
    hide Has, Sign, WordEnd;
    SignChars(s, i, mode);
    Still(s, i);
    Still(s, i + |Sign(mode)|);
  }

  function Before(r: Redirection<Tok>, rest: Redirs): Redirs {
    if rest.Found? then Found([r] + rest.rs, rest.next) else Missing
  }

  lemma HasSpaced(s: string, i: nat, a: string, b: string)
    requires Has(s, i, a + b + " ")
    ensures var e := i + |a| + |b|; Has(s, i, a) && Has(s, i + |a|, b) && e < |s| && s[e] == ' '
  {
    hide Has;
    HasParts(s, i, a + b, " ");
    HasParts(s, i, a, b);
    HasChar(s, i + |a| + |b|, ' ');
  }

  lemma SpaceEnds(s: string, i: nat)
    requires i < |s| && s[i] == ' '
    ensures !WordChar(At(s, i))
  {
  }

  lemma JoinTo(s: string, i: nat, r: Redirection<Tok>)
    requires i < |s| && CString(s) && Skip(s, i) == i && s[i] in "<>" && ModeOf(GetToken(s, i).kind) == r.mode
    requires var file := GetToken(s, GetToken(s, i).next); file.kind == 'a' && file.tok == r.file
    ensures ParseRedirs(s, i) == Before(r, ParseRedirs(s, GetToken(s, GetToken(s, i).next).next))
  {
    hide GetToken, Skip, ModeOf;
    assert s[i] != '\0' && Peek(s, i, "<>");
  }

  /** One redirection and the space behind it. */
  lemma OneTo(s: string, i: nat, r: Redirection<string>)
    requires CString(s) && Has(s, i, ShowItem(To(r))) && IsWord(r.file) && !White(At(s, i + |ShowItem(To(r))|))
    ensures i + |ShowItem(To(r))| <= |s| && s[i] in "<>"
    ensures ParseRedirs(s, i) == Before(LocateItem(To(r), i).r, ParseRedirs(s, i + |ShowItem(To(r))|))
  {
    hide Has, Sign, GetToken, Skip, ParseRedirs, ModeOf, IsWord, CString, WordChar, White;
    var p := i + |Sign(r.mode)|;
    HasSpaced(s, i, Sign(r.mode), r.file);
    SpaceEnds(s, p + |r.file|);
    WordToken(s, p, r.file);
    SignToken(s, i, r.mode);
    AfterSpace(s, p + |r.file|);
    JoinTo(s, i, Redirection(Tok(p, p + |r.file|), r.mode));
  }

  /** The rest of parseexec from a place where redirections may stand. */
  function Continue(s: string, i: nat, args: seq<Tok>, rs: seq<Redirection<Tok>>): Parsed
    requires i <= |s| && CString(s) && |args| < MAXARGS
  {
    var more := ParseRedirs(s, i);
    if more.Found? then ParseArgs(s, more.next, args, rs + more.rs) else Panic(MissingFile)
  }

  lemma ContinueTo(s: string, i: nat, r: Redirection<string>, args: seq<Tok>, rs: seq<Redirection<Tok>>)
    requires CString(s) && Has(s, i, ShowItem(To(r))) && IsWord(r.file) && !White(At(s, i + |ShowItem(To(r))|))
    requires |args| < MAXARGS
    ensures var e := i + |ShowItem(To(r))|;
            e <= |s| && Continue(s, i, args, rs) == Continue(s, e, args, rs + [LocateItem(To(r), i).r])
  {
    hide Has, ParseRedirs, ParseArgs, ShowItem, LocateItem;
    OneTo(s, i, r);
    ToIsTo(To(r), i);
    var rest, x := ParseRedirs(s, i + |ShowItem(To(r))|), LocateItem(To(r), i).r;
    if rest.Found? { assert rs + ([x] + rest.rs) == rs + [x] + rest.rs; }
  }

  lemma ContinueWord(s: string, i: nat, w: string, args: seq<Tok>, rs: seq<Redirection<Tok>>)
    requires CString(s) && Has(s, i, w + " ") && IsWord(w) && !White(At(s, i + |w| + 1)) && |args| + 1 < MAXARGS
    ensures i + |w| + 1 <= |s| && WordChar(At(s, i))
    ensures Continue(s, i, args, rs) == Continue(s, i + |w| + 1, args + [Tok(i, i + |w|)], rs)
  {
    hide Has, GetToken, ParseRedirs, IsWord, CString;
    HasTwo(s, i, w, " ", "") by { assert w + " " + "" == w + " "; }
    WordToken(s, i, w);
    NoRedirs(s, i);
    AfterSpace(s, i + |w|);
    assert !Peek(s, i, "|)&;") && rs + [] == rs;
  }

  /** What may follow a simple command or a group. */
  predicate Stop(c: char) { c in "|&;)" || c == '\0' }

  lemma ContinueEnd(s: string, i: nat, args: seq<Tok>, rs: seq<Redirection<Tok>>)
    requires i <= |s| && CString(s) && Stop(At(s, i)) && |args| < MAXARGS
    ensures Continue(s, i, args, rs) == Ok(Wrap(Exec(args), rs), i)
  {
    hide Wrap;
    NoRedirs(s, i);
    assert rs + [] == rs;
    if i < |s| { assert Peek(s, i, "|)&;"); }
  }

  lemma OneItem(s: string, i: nat, x: Item<string>, args: seq<Tok>, rs: seq<Redirection<Tok>>)
    requires CString(s) && Has(s, i, ShowItem(x)) && ItemOk(x) && !White(At(s, i + |ShowItem(x)|))
    requires |args| + |Args([x])| < MAXARGS
    ensures i + |ShowItem(x)| <= |s| && !White(At(s, i)) && At(s, i) != '('
    ensures |Args([LocateItem(x, i)])| == |Args([x])|
    ensures Continue(s, i, args, rs) ==
            Continue(s, i + |ShowItem(x)|, args + Args([LocateItem(x, i)]), rs + Tos([LocateItem(x, i)]))
  {
    hide Continue, Has, IsWord, ParseRedirs, Args, Tos;
    OnlyOne(x);
    OnlyOne(LocateItem(x, i));
    match x {
      case Word(w) =>
        ContinueWord(s, i, w, args, rs);
        assert rs + [] == rs;
      case To(r) =>
        ContinueTo(s, i, r, args, rs);
        OneTo(s, i, r);
        assert args + [] == args;
    }
  }

  lemma OnlyOne<W>(x: Item<W>)
    ensures Args([x]) == if x.Word? then [x.w] else []
    ensures Tos([x]) == if x.To? then [x.r] else []
  {
  }

  lemma Regroup<W>(args: seq<W>, rs: seq<Redirection<W>>, y: Item<W>, ys: seq<Item<W>>)
    ensures args + Args([y]) + Args(ys) == args + Args([y] + ys) && rs + Tos([y]) + Tos(ys) == rs + Tos([y] + ys)
    ensures |Args([y] + ys)| == |Args([y])| + |Args(ys)|
  {
    Split(y, ys);
    hide Args, Tos;
    assert args + Args([y]) + Args(ys) == args + (Args([y]) + Args(ys));
    assert rs + Tos([y]) + Tos(ys) == rs + (Tos([y]) + Tos(ys));
  }

  lemma Split<W>(y: Item<W>, ys: seq<Item<W>>)
    ensures Args([y] + ys) == Args([y]) + Args(ys) && Tos([y] + ys) == Tos([y]) + Tos(ys)
  {
    assert ([y] + ys)[1..] == ys;
    OnlyOne(y);
  }

  lemma {:induction false} ItemsParse(s: string, i: nat, items: seq<Item<string>>, args: seq<Tok>,
                                      rs: seq<Redirection<Tok>>)
    requires CString(s) && Has(s, i, ShowItems(items)) && Stop(At(s, i + |ShowItems(items)|))
    requires ItemsOk(items) && |args| + |Args(items)| < MAXARGS
    ensures i <= |s| && !White(At(s, i)) && At(s, i) != '('
    ensures var got := LocateItems(items, i);
            Continue(s, i, args, rs) == Ok(Wrap(Exec(args + Args(got)), rs + Tos(got)), i + |ShowItems(items)|)
    decreases |items|
  {
    hide Has, Continue, Wrap, ItemOk, ShowItem, LocateItem, Args, Tos;
    if items == [] {
      HasNothing(s, i);
      ContinueEnd(s, i, args, rs);
      NoItems(args, rs);
    } else {
      var x, rest := items[0], items[1..];
      var e, y := i + |ShowItem(x)|, LocateItem(x, i);
      HasParts(s, i, ShowItem(x), ShowItems(rest));
      assert items == [x] + rest;
      Regroup([], [], x, rest);
      LocatedArgs(x, i);
      ItemsParse(s, e, rest, args + Args([y]), rs + Tos([y]));
      OneItem(s, i, x, args, rs);
      Regroup(args, rs, y, LocateItems(rest, e));
    }
  }

  lemma NoItems(args: seq<Tok>, rs: seq<Redirection<Tok>>)
    ensures args + Args<Tok>([]) == args && rs + Tos<Tok>([]) == rs
  {
  }

  lemma HasNothing(s: string, i: nat)
    requires Has(s, i, "")
    ensures i <= |s|
  {
  }

  lemma LocatedArgs(x: Item<string>, i: nat)
    ensures |Args([LocateItem(x, i)])| == |Args([x])|
  {
  }

  lemma NoArgs<W>(x: Item<W>, rest: seq<Item<W>>)
    requires Args([x] + rest) == []
    ensures x.To? && Args(rest) == []
  {
    Split(x, rest);
    OnlyOne(x);
  }

  lemma FirstTo<W>(y: Item<W>, ys: seq<Item<W>>)
    requires y.To?
    ensures Tos([y] + ys) == [y.r] + Tos(ys)
  {
    Split(y, ys);
    OnlyOne(y);
  }

  /** Redirections alone, behind a group. */
  lemma {:induction false} TosParse(s: string, i: nat, items: seq<Item<string>>)
    requires CString(s) && Has(s, i, ShowItems(items)) && Stop(At(s, i + |ShowItems(items)|))
    requires ItemsOk(items) && Args(items) == []
    ensures i <= |s| && !White(At(s, i))
    ensures ParseRedirs(s, i) == Found(Tos(LocateItems(items, i)), i + |ShowItems(items)|)
    decreases |items|
  {
    hide Has, ParseRedirs, IsWord, ShowItem, LocateItem, Args, Tos;
    if items == [] {
      HasNothing(s, i);
      NoRedirs(s, i);
      NoItems([], []);
    } else {
      var x, rest := items[0], items[1..];
      var e, y := i + |ShowItem(x)|, LocateItem(x, i);
      assert items == [x] + rest && ItemOk(x);
      NoArgs(x, rest);
      HasParts(s, i, ShowItem(x), ShowItems(rest));
      TosParse(s, e, rest);
      OneTo(s, i, x.r);
      ToIsTo(x, i);
      FirstTo(y, LocateItems(rest, e));
    }
  }

  lemma ToIsTo(x: Item<string>, i: nat)
    ensures LocateItem(x, i).To? <==> x.To?
  {
  }

  // ----- parsing commands -----

  /** A form begins with no white space if something else follows it. */
  lemma {:induction false} Begins(s: string, f: Form<string>, i: nat)
    requires CString(s) && Proper(f) && Has(s, i, Show(f)) && Stop(At(s, i + |Show(f)|))
    ensures i <= |s| && !White(At(s, i))
  {
    hide Has, ShowItems, Args, ItemsOk;
    match f
    case Simple(items) => ItemsParse(s, i, items, [], []);
    case Group(inner, to) => HasGroup(s, i, inner, to);
    case Piped(l, r) => HasTwo(s, i, Show(l), "|", Show(r)); Begins(s, l, i);
    case Backed(c) => HasTwo(s, i, Show(c), "&", ""); Begins(s, c, i);
    case Listed(l, r) => HasTwo(s, i, Show(l), ";", Show(r)); Begins(s, l, i);
  }

  /** After a sign that stands alone, the cursor is on the next character. */
  lemma SignIsOne(s: string, e: nat, c: char)
    requires CString(s) && e < |s| && s[e] == c && c in "|;&()" && !White(At(s, e + 1))
    ensures GetToken(s, e).next == e + 1 && Skip(s, e) == e && Peek(s, e, [c])
  {
    Still(s, e + 1);
  }

  lemma SimpleParse(s: string, items: seq<Item<string>>, i: nat)
    requires CString(s) && Proper(Simple(items)) && Has(s, i, ShowItems(items)) && Stop(At(s, i + |ShowItems(items)|))
    ensures i <= |s| && ParseExec(s, i) == Ok(Meaning(Simple(LocateItems(items, i))), i + |ShowItems(items)|)
  {
    hide Has, ParseRedirs, ParseArgs, Args, Tos, ShowItems, LocateItems, Wrap;
    ItemsParse(s, i, items, [], []);
    Still(s, i);
    var got, rs := LocateItems(items, i), ParseRedirs(s, i);
    assert [] + Args(got) == Args(got) && [] + Tos(got) == Tos(got);
    if rs.Found? { assert [] + rs.rs == rs.rs; }
  }

  /** Simple commands and groups. */
  lemma {:induction false} ExecParse(s: string, f: Form<string>, i: nat)
    requires CString(s) && Proper(f) && Level(f) == 0 && Has(s, i, Show(f)) && Stop(At(s, i + |Show(f)|))
    ensures i <= |s| && ParseExec(s, i) == Ok(Meaning(Locate(f, i)), i + |Show(f)|)
    decreases f, 0
  {
    hide Has, ParseExec, ParseLine, ParseRedirs, Args, Tos, ShowItems, LocateItems, Wrap, Stop;
    match f {
      case Simple(items) => SimpleParse(s, items, i);
      case Group(inner, to) =>
        var e := i + 1 + |Show(inner)|;
        HasGroup(s, i, inner, to);
        assert Stop(')') by { StopParen(); }
        Begins(s, inner, i + 1);
        LineParse(s, inner, i + 1);
        TosParse(s, e + 1, to);
        JoinBlock(s, i, e, Meaning(Locate(inner, i + 1)), ParseRedirs(s, e + 1));
    }
  }

  lemma JoinBlock(s: string, i: nat, e: nat, cmd: Cmd<Tok>, rs: Redirs)
    requires CString(s) && i < e < |s| && s[i] == '(' && !White(At(s, i + 1)) && ParseLine(s, i + 1) == Ok(cmd, e)
    requires s[e] == ')' && !White(At(s, e + 1)) && rs == ParseRedirs(s, e + 1) && rs.Found?
    ensures ParseExec(s, i) == Ok(Wrap(cmd, rs.rs), rs.next)
  {
    hide ParseLine, ParseRedirs, Wrap, GetToken;
    SignIsOne(s, i, '(');
    SignIsOne(s, e, ')');
  }

  lemma StopParen()
    ensures Stop(')') && Stop('|') && Stop('&') && Stop(';')
  {
  }

  lemma NoPipe(s: string, i: nat, e: nat, cmd: Cmd<Tok>)
    requires i <= |s| && CString(s) && e <= |s| && !White(At(s, e)) && At(s, e) != '|' && ParseExec(s, i) == Ok(cmd, e)
    ensures ParsePipe(s, i) == Ok(cmd, e)
  {
    hide ParseExec;
    Still(s, e);
  }

  lemma JoinPipe(s: string, i: nat, e: nat, cmd: Cmd<Tok>, right: Parsed)
    requires i <= |s| && CString(s) && e < |s| && s[e] == '|' && !White(At(s, e + 1)) && ParseExec(s, i) == Ok(cmd, e)
    requires right == ParsePipe(s, e + 1) && right.Ok?
    ensures ParsePipe(s, i) == Ok(Pipe(cmd, right.cmd), right.next)
  {
    hide ParseExec, GetToken;
    SignIsOne(s, e, '|');
  }

  /** Everything that binds as tight as a pipe. */
  lemma {:induction false} PipeParse(s: string, f: Form<string>, i: nat)
    requires CString(s) && Proper(f) && Level(f) <= 1 && Has(s, i, Show(f))
    requires Stop(At(s, i + |Show(f)|)) && At(s, i + |Show(f)|) != '|'
    ensures i <= |s| && ParsePipe(s, i) == Ok(Meaning(Locate(f, i)), i + |Show(f)|)
    decreases f, 1
  {
    hide Has, ParseExec, ParsePipe, ShowItems, LocateItems, Wrap, Args, Tos;
    var end := i + |Show(f)|;
    if Level(f) == 0 {
      ExecParse(s, f, i);
      NoPipe(s, i, end, Meaning(Locate(f, i)));
    } else {
      var l, r := f.left, f.right;
      var e := i + |Show(l)|;
      HasTwo(s, i, Show(l), "|", Show(r));
      ExecParse(s, l, i);
      PipeParse(s, r, e + 1);
      Begins(s, r, e + 1);
      JoinPipe(s, i, e, Meaning(Locate(l, i)), ParsePipe(s, e + 1));
    }
  }

  /** Background marks: after the pipe the loop over & has the form in hand at its end. */
  lemma {:induction false} BackParse(s: string, f: Form<string>, i: nat)
    requires CString(s) && Proper(f) && Level(f) <= 2 && Has(s, i, Show(f))
    requires Stop(At(s, i + |Show(f)|)) && At(s, i + |Show(f)|) != '|'
    ensures i <= |s| && i + |Show(f)| <= |s| && ParsePipe(s, i).Ok?
    ensures ParseBacks(s, ParsePipe(s, i).next, ParsePipe(s, i).cmd) ==
            ParseBacks(s, i + |Show(f)|, Meaning(Locate(f, i)))
    decreases f, 2
  {
    hide Has, ParsePipe, ParseBacks, ShowItems, LocateItems, Wrap, Args, Tos;
    if Level(f) <= 1 {
      PipeParse(s, f, i);
    } else {
      var c := f.form;
      var e := i + |Show(c)|;
      HasTwo(s, i, Show(c), "&", "");
      BackParse(s, c, i);
      JoinBack(s, e, Meaning(Locate(c, i)));
    }
  }

  lemma JoinBack(s: string, e: nat, cmd: Cmd<Tok>)
    requires CString(s) && e < |s| && s[e] == '&' && !White(At(s, e + 1))
    ensures ParseBacks(s, e, cmd) == ParseBacks(s, e + 1, Back(cmd))
  {
    hide GetToken;
    SignIsOne(s, e, '&');
  }

  lemma NoBacks(s: string, e: nat, cmd: Cmd<Tok>)
    requires e <= |s| && CString(s) && !White(At(s, e)) && At(s, e) != '&'
    ensures ParseBacks(s, e, cmd) == Ok(cmd, e)
  {
  }

  lemma NoList(s: string, i: nat, e: nat, cmd: Cmd<Tok>)
    requires i <= |s| && CString(s) && e <= |s| && !White(At(s, e)) && At(s, e) != ';' && ParsePipe(s, i).Ok?
    requires ParseBacks(s, ParsePipe(s, i).next, ParsePipe(s, i).cmd) == Ok(cmd, e)
    ensures ParseLine(s, i) == Ok(cmd, e)
  {
    hide ParsePipe, ParseBacks;
    Still(s, e);
  }

  lemma JoinList(s: string, i: nat, e: nat, cmd: Cmd<Tok>, right: Parsed)
    requires i <= |s| && CString(s) && e < |s| && s[e] == ';' && !White(At(s, e + 1)) && ParsePipe(s, i).Ok?
    requires ParseBacks(s, ParsePipe(s, i).next, ParsePipe(s, i).cmd) == Ok(cmd, e)
    requires i < e + 1 && right == ParseLine(s, e + 1) && right.Ok?
    ensures ParseLine(s, i) == Ok(List(cmd, right.cmd), right.next)
  {
    hide ParsePipe, ParseBacks, GetToken;
    SignIsOne(s, e, ';');
  }

  /** Any form, up to the end of the line or a closing parenthesis. */
  lemma {:induction false} LineParse(s: string, f: Form<string>, i: nat)
    requires CString(s) && Proper(f) && Has(s, i, Show(f)) && At(s, i + |Show(f)|) in [')', '\0']
    ensures i <= |s| && i + |Show(f)| <= |s| && ParseLine(s, i) == Ok(Meaning(Locate(f, i)), i + |Show(f)|)
    decreases f, 3
  {
    hide Has, ParseLine, ParsePipe, ParseBacks, ShowItems, LocateItems, Wrap, Args, Tos;
    var end := i + |Show(f)|;
    if Level(f) <= 2 {
      BackParse(s, f, i);
      NoBacks(s, end, Meaning(Locate(f, i)));
      NoList(s, i, end, Meaning(Locate(f, i)));
    } else {
      var l, r := f.left, f.right;
      var e := i + |Show(l)|;
      HasTwo(s, i, Show(l), ";", Show(r));
      BackParse(s, l, i);
      NoBacks(s, e, Meaning(Locate(l, i)));
      LineParse(s, r, e + 1);
      Begins(s, r, e + 1);
      JoinList(s, i, e, Meaning(Locate(l, i)), ParseLine(s, e + 1));
    }
  }

  // ----- whole lines -----

  lemma {:induction false} ItemsAreCString(items: seq<Item<string>>)
    requires ItemsOk(items)
    ensures CString(ShowItems(items))
  {
    if items != [] {
      ItemsAreCString(items[1..]);
      assert ItemOk(items[0]);
    }
  }

  lemma {:induction false} ShowIsCString(f: Form<string>)
    requires Proper(f)
    ensures CString(Show(f))
  {
    match f
    case Simple(items) => ItemsAreCString(items);
    case Group(inner, to) => ShowIsCString(inner); ItemsAreCString(to);
    case Piped(l, r) => ShowIsCString(l); ShowIsCString(r);
    case Backed(c) => ShowIsCString(c);
    case Listed(l, r) => ShowIsCString(l); ShowIsCString(r);
  }

  /** Every proper form parses to the command that it stands for. */
  lemma FormParses(f: Form<string>)
    requires Proper(f)
    ensures CString(Show(f)) && ParseCmd(Show(f)).Ok? && Text(Show(f), ParseCmd(Show(f)).cmd) == Meaning(f)
  {
    hide Has, ParseLine, Show, Locate, Meaning, Text, Proper;
    var s := Show(f);
    ShowIsCString(f);
    assert Has(s, 0, s) by { Whole(s); }
    LineParse(s, f, 0);
    Still(s, |s|);
    SpellMeaning(s, Locate(f, 0));
    Located(s, f, 0);
  }

  lemma Whole(s: string)
    ensures Has(s, 0, s)
  {
    assert s[0..|s|] == s;
  }

  /** So no line can be read in two ways. */
  lemma Unambiguous(f: Form<string>, g: Form<string>)
    requires Proper(f) && Proper(g) && Show(f) == Show(g)
    ensures Meaning(f) == Meaning(g)
  {
    hide Proper, Show, Meaning, Text, ParseCmd;
    FormParses(f);
    FormParses(g);
  }

  // ----- parentheses only where needed -----

  /** A command that can be typed: words are words, and argv holds them. */
  predicate Printable(t: Cmd<string>) {
    match t
    case Exec(args) => |args| < MAXARGS && forall k :: 0 <= k < |args| ==> IsWord(args[k])
    case Redir(c, file, _) => Printable(c) && IsWord(file)
    case Pipe(l, r) => Printable(l) && Printable(r)
    case List(l, r) => Printable(l) && Printable(r)
    case Back(c) => Printable(c)
  }

  function WordsOf(args: seq<string>): (r: seq<Item<string>>)
    ensures |r| == |args| && forall k :: 0 <= k < |r| ==> r[k] == Word(args[k])
  {
    seq(|args|, k requires 0 <= k < |args| => Word(args[k]))
  }

  /** One more redirection behind a simple command or a group. */
  function Behind(f: Form<string>, r: Redirection<string>): Form<string> {
    match f
    case Simple(items) => Simple(items + [To(r)])
    case Group(inner, to) => Group(inner, to + [To(r)])
    case _ => f
  }

  /** f where only forms up to the given level may stand. */
  function Tight(f: Form<string>, level: nat): Form<string> {
    if Level(f) <= level then f else Group(f, [])
  }

  /** The command with parentheses only where the operators need them. */
  function Print(t: Cmd<string>): Form<string> {
    match t
    case Exec(args) => Simple(WordsOf(args))
    case Redir(c, file, mode) => Behind(Tight(Print(c), 0), Redirection(file, mode))
    case Pipe(l, r) => Piped(Tight(Print(l), 0), Tight(Print(r), 1))
    case Back(c) => Backed(Tight(Print(c), 2))
    case List(l, r) => Listed(Tight(Print(l), 2), Print(r))
  }

  lemma {:induction false} ArgsOfWords(args: seq<string>)
    ensures Args(WordsOf(args)) == args && Tos(WordsOf(args)) == []
  {
    if args != [] {
      assert WordsOf(args)[1..] == WordsOf(args[1..]);
      ArgsOfWords(args[1..]);
    }
  }

  lemma {:induction false} LastTo(items: seq<Item<string>>, r: Redirection<string>)
    ensures Args(items + [To(r)]) == Args(items) && Tos(items + [To(r)]) == Tos(items) + [r]
  {
    if items != [] {
      assert (items + [To(r)])[1..] == items[1..] + [To(r)];
      LastTo(items[1..], r);
    }
  }

  lemma {:induction false} WrapLast(cmd: Cmd<string>, rs: seq<Redirection<string>>, r: Redirection<string>)
    ensures Wrap(cmd, rs + [r]) == Redir(Wrap(cmd, rs), r.file, r.mode)
    decreases |rs|
  {
    if rs != [] {
      assert (rs + [r])[1..] == rs[1..] + [r];
      WrapLast(Redir(cmd, rs[0].file, rs[0].mode), rs[1..], r);
    } else {
      assert rs + [r] == [r];
    }
  }

  lemma BehindMeans(f: Form<string>, r: Redirection<string>)
    requires Level(f) == 0
    ensures Meaning(Behind(f, r)) == Redir(Meaning(f), r.file, r.mode) && Level(Behind(f, r)) == 0
    ensures Proper(f) && IsWord(r.file) ==> Proper(Behind(f, r))
  {
    match f
    case Simple(items) => LastTo(items, r); WrapLast(Exec(Args(items)), Tos(items), r);
    case Group(inner, to) => LastTo(to, r); WrapLast(Meaning(inner), Tos(to), r);
  }

  lemma TightMeans(f: Form<string>, level: nat)
    ensures Meaning(Tight(f, level)) == Meaning(f) && Level(Tight(f, level)) <= level
    ensures Proper(f) ==> Proper(Tight(f, level))
  {
  }

  lemma {:induction false} PrintMeans(t: Cmd<string>)
    requires Printable(t)
    ensures Proper(Print(t)) && Meaning(Print(t)) == t
  {
    hide Tight, Behind, IsWord;
    match t
    case Exec(args) => ArgsOfWords(args);
    case Redir(c, file, mode) =>
      PrintMeans(c);
      TightMeans(Print(c), 0);
      BehindMeans(Tight(Print(c), 0), Redirection(file, mode));
    case Pipe(l, r) =>
      PrintMeans(l);
      PrintMeans(r);
      TightMeans(Print(l), 0);
      TightMeans(Print(r), 1);
    case Back(c) =>
      PrintMeans(c);
      TightMeans(Print(c), 2);
    case List(l, r) =>
      PrintMeans(l);
      PrintMeans(r);
      TightMeans(Print(l), 2);
  }

  /** Parsing a printed command returns the command. */
  lemma RoundTrip(t: Cmd<string>)
    requires Printable(t)
    ensures var s := Show(Print(t)); CString(s) && ParseCmd(s).Ok? && Text(s, ParseCmd(s).cmd) == t
  {
    hide Show, Print, Proper, ParseCmd, Meaning, Text;
    PrintMeans(t);
    FormParses(Print(t));
  }

  /** The number of pairs of parentheses. */
  function Groups<W>(f: Form<W>): nat {
    match f
    case Simple(_) => 0
    case Group(inner, _) => Groups(inner) + 1
    case Piped(l, r) => Groups(l) + Groups(r)
    case Backed(c) => Groups(c)
    case Listed(l, r) => Groups(l) + Groups(r)
  }

  /** Groups stand for what they hold, and the operators of a command tell its level. */
  function LevelOf(t: Cmd<string>): nat {
    match t case Exec(_) => 0 case Redir(_, _, _) => 0 case Pipe(_, _) => 1 case Back(_) => 2 case List(_, _) => 3
  }

  lemma {:induction false} WrapFew(cmd: Cmd<string>, rs: seq<Redirection<string>>)
    ensures LevelOf(Wrap(cmd, rs)) == if rs == [] then LevelOf(cmd) else 0
    ensures rs != [] ==> Groups(Print(Wrap(cmd, rs))) == Groups(Tight(Print(cmd), 0))
    decreases |rs|
  {
    if rs != [] {
      var c := Redir(cmd, rs[0].file, rs[0].mode);
      WrapFew(c, rs[1..]);
      PrintLevel(cmd);
      PrintLevel(c);
      assert Groups(Print(c)) == Groups(Tight(Print(cmd), 0));
    }
  }

  lemma PrintLevel(t: Cmd<string>)
    ensures Level(Print(t)) == LevelOf(t)
  {
    if t.Redir? { TightMeans(Print(t.cmd), 0); }
  }

  /** Nothing needs fewer parentheses: not where any form may stand, and not where only a tighter one may. */
  lemma {:induction false} FewestParentheses(f: Form<string>, level: nat)
    requires Proper(f) && Level(f) <= level
    ensures Groups(Tight(Print(Meaning(f)), level)) <= Groups(f)
    decreases f
  {
    PrintLevel(Meaning(f));
    match f
    case Simple(items) => WrapFew(Exec(Args(items)), Tos(items));
    case Group(inner, to) =>
      FewestParentheses(inner, 3);
      PrintLevel(Meaning(inner));
      WrapFew(Meaning(inner), Tos(to));
    case Piped(l, r) => FewestParentheses(l, 0); FewestParentheses(r, 1);
    case Backed(c) => FewestParentheses(c, 2);
    case Listed(l, r) => FewestParentheses(l, 2); FewestParentheses(r, 3);
  }
}
