/** Parsing what was printed: the fully parenthesised form of any command tree parses back to that tree. */
module ShRoundTrip {
  import opened ShSyntax

  // ----- trees and tokens up to positions

  function EraseArg(a: Arg): Arg { Arg(a.w, 0) }

  function EraseArgs(s: seq<Arg>): (r: seq<Arg>)
    ensures |r| == |s| && forall i :: 0 <= i < |s| ==> r[i] == EraseArg(s[i])
  {
    seq(|s|, i requires 0 <= i < |s| => EraseArg(s[i]))
  }

  function EraseTok(t: Tok): Tok { if t.Word? then Word(EraseArg(t.a)) else t }

  /** The tokens are the same up to positions. */
  ghost predicate SameToks(a: seq<Tok>, b: seq<Tok>)
  {
    |a| == |b| && forall i :: 0 <= i < |a| ==> EraseTok(a[i]) == EraseTok(b[i])
  }

  function Erase(c: Cmd): Cmd
  {
    match c
    case Exec(args) => Exec(EraseArgs(args))
    case Redir(d, f, op) => Redir(Erase(d), EraseArg(f), op)
    case Pipe(l, r) => Pipe(Erase(l), Erase(r))
    case List(l, r) => List(Erase(l), Erase(r))
    case Back(d) => Back(Erase(d))
  }

  // ----- printing

  function Words(args: seq<Arg>): (ts: seq<Tok>)
    ensures |ts| == |args| && forall i :: 0 <= i < |args| ==> ts[i] == Word(args[i])
  {
    seq(|args|, i requires 0 <= i < |args| => Word(args[i]))
  }

  /** A command in parentheses, and what stands between them. */
  function Group(c: Cmd): (ts: seq<Tok>)
    decreases c, 1
  {
    [Op('(')] + Body(c) + [Op(')')]
  }

  function Body(c: Cmd): (ts: seq<Tok>)
    decreases c, 0
  {
    match c
    case Exec(args) => Words(args)
    case Redir(d, f, op) => Group(d) + [Op(op), Word(f)]
    case Pipe(l, r) => Group(l) + [Op('|')] + Group(r)
    case List(l, r) => Group(l) + [Op(';')] + Group(r)
    case Back(d) => Group(d) + [Op('&')]
  }

  /** Few enough arguments, and redirections of the three kinds. */
  predicate Printable(c: Cmd)
  {
    match c
    case Exec(args) => |args| < MAXARGS
    case Redir(d, f, op) => op in "<>+" && Printable(d)
    case Pipe(l, r) => Printable(l) && Printable(r)
    case List(l, r) => Printable(l) && Printable(r)
    case Back(d) => Printable(d)
  }

  // ----- parsing it back

  /** The result is the command, up to positions, with exactly `rest` left. */
  ghost predicate Gives(r: Result, c: Cmd, rest: seq<Tok>)
  {
    r.Ok? && Erase(r.cmd) == Erase(c) && r.rest == rest
  }

  /** Tokens that stop a line: the end, or a closing parenthesis. */
  predicate Stops(rest: seq<Tok>) { rest == [] || Starts(rest, ")") }

  lemma SameSplit(us: seq<Tok>, a: seq<Tok>, b: seq<Tok>)
    requires SameToks(us, a + b)
    ensures SameToks(us[..|a|], a) && SameToks(us[|a|..], b) && us == us[..|a|] + us[|a|..]
  {
    forall i | 0 <= i < |a| ensures EraseTok(us[..|a|][i]) == EraseTok(a[i]) {
      assert (a + b)[i] == a[i];
    }
    forall i | 0 <= i < |b| ensures EraseTok(us[|a|..][i]) == EraseTok(b[i]) {
      assert (a + b)[|a| + i] == b[i];
    }
  }

  lemma {:induction false} ArgsBack(done: seq<Arg>, args: seq<Arg>, us: seq<Tok>, rest: seq<Tok>)
    requires SameToks(us, Words(args)) && Stops(rest) && |done| + |args| < MAXARGS
    ensures var r := ParseArgs(done, [], us + rest);
            r.Ok? && r.cmd.Exec? && EraseArgs(r.cmd.args) == EraseArgs(done) + EraseArgs(args) && r.rest == rest
    decreases |args|
  {
    if args == [] {
      assert us + rest == rest;
    } else {
      ArgsHead(args, us, rest);
      hide SameToks, Words, EraseArgs, ParseRedirs;
      var ts := us + rest;
      var d := done + [us[0].a];
      ArgsBack(d, args[1..], us[1..], rest);
      EraseMore(done, us[0].a, args);
    }
  }

  /** The first argument, and no redirection after it. */
  lemma ArgsHead(args: seq<Arg>, us: seq<Tok>, rest: seq<Tok>)
    requires SameToks(us, Words(args)) && Stops(rest) && args != []
    ensures us != [] && us[0].Word? && EraseArg(us[0].a) == EraseArg(args[0]) && SameToks(us[1..], Words(args[1..]))
    ensures (us + rest)[0] == us[0] && (us + rest)[1..] == us[1..] + rest
    ensures ParseRedirs([], us[1..] + rest) == Redirs([], us[1..] + rest)
  {
    hide ParseRedirs;
    assert EraseTok(us[0]) == EraseTok(Words(args)[0]);
    assert us[1..] != [] ==> EraseTok(us[1]) == EraseTok(Words(args)[1]);
    NoRedir(us[1..] + rest);
  }

  lemma NoRedir(ts: seq<Tok>)
    requires !Starts(ts, "<>+")
    ensures ParseRedirs([], ts) == Redirs([], ts)
  {
  }

  lemma EraseMore(done: seq<Arg>, a: Arg, args: seq<Arg>)
    requires args != [] && EraseArg(a) == EraseArg(args[0])
    ensures EraseArgs(done + [a]) + EraseArgs(args[1..]) == EraseArgs(done) + EraseArgs(args)
  {
  }

  /** A parenthesised command followed by something that is not a redirection. */
  lemma {:induction false} GroupBack(c: Cmd, us: seq<Tok>, rest: seq<Tok>)
    requires Printable(c) && SameToks(us, Group(c)) && !Starts(rest, "<>+")
    ensures Gives(ParseExec(us + rest), c, rest)
    decreases c, 1
  {
    InnerBack(c, us, rest);
    assert ParseRedirs([], rest) == Redirs([], rest);
  }

  /** What parseblock finds between the parentheses. */
  lemma {:induction false} InnerBack(c: Cmd, us: seq<Tok>, rest: seq<Tok>)
    requires Printable(c) && SameToks(us, Group(c))
    ensures Starts(us + rest, "(")
    ensures var r := ParseLine((us + rest)[1..]);
            r.Ok? && Erase(r.cmd) == Erase(c) && Starts(r.rest, ")") && r.rest[1..] == rest
    decreases c, 0, 2
  {
    var b := Body(c);
    var n := |b|;
    assert Group(c) == [Op('(')] + (b + [Op(')')]);
    SameSplit(us, [Op('(')], b + [Op(')')]);
    var vs := us[1..];
    SameSplit(vs, b, [Op(')')]);
    assert EraseTok(us[..1][0]) == EraseTok(Op('(')) && EraseTok(vs[n..][0]) == EraseTok(Op(')'));
    var ts := us + rest;
    assert ts[1..] == vs[..n] + (vs[n..] + rest);
    BodyBack(c, vs[..n], vs[n..] + rest);
  }

  /** Tokens that print as two groups with a symbol between. */
  lemma SplitAtOp(us: seq<Tok>, a: seq<Tok>, op: char, b: seq<Tok>)
    requires SameToks(us, a + [Op(op)] + b)
    ensures |us| > |a| && SameToks(us[..|a|], a) && us[|a|..][0] == Op(op) && SameToks(us[|a|..][1..], b)
    ensures us == us[..|a|] + us[|a|..]
  {
    assert a + [Op(op)] + b == a + ([Op(op)] + b);
    SameSplit(us, a, [Op(op)] + b);
    SameSplit(us[|a|..], [Op(op)], b);
    assert EraseTok(us[|a|..][..1][0]) == EraseTok([Op(op)][0]);
  }

  lemma {:induction false} BodyBack(c: Cmd, us: seq<Tok>, rest: seq<Tok>)
    requires Printable(c) && SameToks(us, Body(c)) && Stops(rest)
    ensures Gives(ParseLine(us + rest), c, rest)
    decreases c, 0, 1
  {
    hide SameToks, EraseTok, ParseLine, ParseExec, Gives;
    match c {
      case Exec(args) => ExecBack(args, us, rest);
      case Redir(d, f, op) => RedirectBack(c, us, rest);
      case Pipe(l, r) => PipeBack(c, us, rest);
      case List(l, r) => ListBack(c, us, rest);
      case Back(d) => AmpBack(c, us, rest);
    }
  }

  lemma {:induction false} RedirectBack(c: Cmd, us: seq<Tok>, rest: seq<Tok>)
    requires c.Redir? && Printable(c) && SameToks(us, Body(c)) && Stops(rest)
    ensures Gives(ParseLine(us + rest), c, rest)
    decreases c, 0, 0
  {
    hide SameToks, EraseTok, ParseLine, ParseExec, Group;
    var n := |Group(c.cmd)|;
    SameSplit(us, Group(c.cmd), [Op(c.op), Word(c.file)]);
    InnerBack(c.cmd, us[..n], us[n..] + rest);
    RedirBack(c.cmd, c.file, c.op, us[..n], us[n..], rest);
  }

  lemma {:induction false} PipeBack(c: Cmd, us: seq<Tok>, rest: seq<Tok>)
    requires c.Pipe? && Printable(c) && SameToks(us, Body(c)) && Stops(rest)
    ensures Gives(ParseLine(us + rest), c, rest)
    decreases c, 0, 0
  {
    hide SameToks, EraseTok, ParseLine, ParseExec, Group;
    var n := |Group(c.left)|;
    SplitAtOp(us, Group(c.left), '|', Group(c.right));
    GroupBack(c.left, us[..n], us[n..] + rest);
    GroupBack(c.right, us[n..][1..], rest);
    JoinPipe(us[..n], us[n..], rest);
  }

  lemma {:induction false} ListBack(c: Cmd, us: seq<Tok>, rest: seq<Tok>)
    requires c.List? && Printable(c) && SameToks(us, Body(c)) && Stops(rest)
    ensures Gives(ParseLine(us + rest), c, rest)
    decreases c, 0, 0
  {
    hide SameToks, EraseTok, ParseLine, ParseExec, Group;
    var n := |Group(c.left)|;
    SplitAtOp(us, Group(c.left), ';', Group(c.right));
    GroupBack(c.left, us[..n], us[n..] + rest);
    GroupBack(c.right, us[n..][1..], rest);
    JoinList(us[..n], us[n..], rest);
  }

  lemma {:induction false} AmpBack(c: Cmd, us: seq<Tok>, rest: seq<Tok>)
    requires c.Back? && Printable(c) && SameToks(us, Body(c)) && Stops(rest)
    ensures Gives(ParseLine(us + rest), c, rest)
    decreases c, 0, 0
  {
    hide SameToks, EraseTok, ParseLine, ParseExec, Group;
    var n := |Group(c.cmd)|;
    assert Group(c.cmd) + [Op('&')] == Group(c.cmd) + [Op('&')] + [];
    SplitAtOp(us, Group(c.cmd), '&', []);
    GroupBack(c.cmd, us[..n], us[n..] + rest);
    SameLength(us, Body(c));
    JoinBack(us[..n], us[n..], rest);
  }

  lemma SameLength(a: seq<Tok>, b: seq<Tok>)
    requires SameToks(a, b)
    ensures |a| == |b|
  {
  }

  lemma ExecBack(args: seq<Arg>, us: seq<Tok>, rest: seq<Tok>)
    requires |args| < MAXARGS && SameToks(us, Words(args)) && Stops(rest)
    ensures Gives(ParseLine(us + rest), Exec(args), rest)
  {
    var ts := us + rest;
    assert us != [] ==> EraseTok(us[0]) == EraseTok(Words(args)[0]) && ts[0] == us[0];
    assert us == [] ==> ts == rest;
    assert ParseRedirs([], ts) == Redirs([], ts) && !Starts(ts, "(");
    ArgsBack([], args, us, rest);
    assert EraseArgs([]) + EraseArgs(args) == EraseArgs(args);
    PlainLine(ts, rest);
  }

  /** A line that is one command. */
  lemma PlainLine(ts: seq<Tok>, rest: seq<Tok>)
    requires ParseExec(ts).Ok? && ParseExec(ts).rest == rest && Stops(rest)
    ensures ParseLine(ts) == ParseExec(ts)
  {
    assert ParsePipe(ts) == ParseExec(ts);
  }

  lemma RedirBack(d: Cmd, f: Arg, op: char, gs: seq<Tok>, os: seq<Tok>, rest: seq<Tok>)
    requires SameToks(os, [Op(op), Word(f)]) && op in "<>+" && Stops(rest)
    requires var ts := gs + (os + rest); Starts(ts, "(") && var r := ParseLine(ts[1..]);
               r.Ok? && Erase(r.cmd) == Erase(d) && Starts(r.rest, ")") && r.rest[1..] == os + rest
    ensures Gives(ParseLine(gs + os + rest), Redir(d, f, op), rest)
  {
    var ts := gs + (os + rest);
    assert gs + os + rest == ts;
    var t := os + rest;
    assert EraseTok(os[0]) == EraseTok([Op(op), Word(f)][0]) && EraseTok(os[1]) == EraseTok([Op(op), Word(f)][1]);
    assert t[0] == os[0] && t[1] == os[1] && t[2..] == rest;
    var a := os[1].a;
    assert ParseRedirs([], t) == ParseRedirs([] + [(a, op)], rest) == Redirs([(a, op)], rest);
    var c := ParseLine(ts[1..]).cmd;
    assert [(a, op)][..0] == [];
    assert Wrap(c, [(a, op)]) == Redir(Wrap(c, []), a, op);
    PlainLine(ts, rest);
  }

  lemma JoinPipe(gs: seq<Tok>, os: seq<Tok>, rest: seq<Tok>)
    requires |os| > 0 && os[0] == Op('|') && Stops(rest)
    requires var r := ParseExec(gs + (os + rest)); r.Ok? && r.rest == os + rest
    requires var r := ParseExec(os[1..] + rest); r.Ok? && r.rest == rest
    ensures ParseLine(gs + os + rest) == Ok(Pipe(ParseExec(gs + (os + rest)).cmd, ParseExec(os[1..] + rest).cmd), rest)
  {
    var ts := gs + (os + rest);
    assert gs + os + rest == ts && (os + rest)[1..] == os[1..] + rest;
    assert ParsePipe(os[1..] + rest) == ParseExec(os[1..] + rest);
  }

  lemma JoinList(gs: seq<Tok>, os: seq<Tok>, rest: seq<Tok>)
    requires |os| > 0 && os[0] == Op(';') && Stops(rest)
    requires var r := ParseExec(gs + (os + rest)); r.Ok? && r.rest == os + rest
    requires var r := ParseExec(os[1..] + rest); r.Ok? && r.rest == rest
    ensures ParseLine(gs + os + rest) == Ok(List(ParseExec(gs + (os + rest)).cmd, ParseExec(os[1..] + rest).cmd), rest)
  {
    var ts := gs + (os + rest);
    assert gs + os + rest == ts && (os + rest)[1..] == os[1..] + rest;
    PlainLine(os[1..] + rest, rest);
    assert ParsePipe(ts) == ParseExec(ts);
  }

  lemma JoinBack(gs: seq<Tok>, os: seq<Tok>, rest: seq<Tok>)
    requires |os| == 1 && os[0] == Op('&') && Stops(rest)
    requires var r := ParseExec(gs + (os + rest)); r.Ok? && r.rest == os + rest
    ensures ParseLine(gs + os + rest) == Ok(Back(ParseExec(gs + (os + rest)).cmd), rest)
  {
    var ts := gs + (os + rest);
    assert gs + os + rest == ts && (os + rest)[1..] == rest;
    assert ParsePipe(ts) == ParseExec(ts);
    var c := ParseExec(ts).cmd;
    assert ParseBacks(c, os + rest) == ParseBacks(Back(c), rest) == (Back(c), rest);
  }

  // ----- from characters

  /** A word the lexer would read as one: characters that are neither blank nor symbol. */
  predicate GoodWord(w: string) { w != "" && forall k :: 0 <= k < |w| ==> InWord(w[k]) }

  predicate GoodTok(t: Tok) { if t.Word? then GoodWord(t.a.w) else t.c in "<|>&;()+" }

  function Text(t: Tok): (s: string) { if t.Word? then t.a.w else if t.c == '+' then ">>" else [t.c] }

  /** The tokens written out with a blank after each. */
  function Print(ts: seq<Tok>): (s: string) { if ts == [] then "" else Text(ts[0]) + " " + Print(ts[1..]) }

  lemma NoSkip(line: string, s: nat)
    requires s <= |line| && (s < |line| ==> !IsSpace(line[s]))
    ensures SkipSpace(line, s) == s
  {
  }

  lemma {:induction false} WordEnd(line: string, s: nat, e: nat)
    requires s <= e < |line| && (forall k :: s <= k < e ==> InWord(line[k])) && !InWord(line[e])
    ensures SkipWord(line, s) == e
    decreases e - s
  {
    if s < e {
      WordEnd(line, s + 1, e);
    }
  }

  /** One printed token is read back as that token. */
  lemma TokBack(line: string, s: nat, t: Tok, rest: string)
    requires GoodTok(t) && s <= |line| && line[s..] == Text(t) + " " + rest
    ensures s < |line| && !IsSpace(line[s]) && EraseTok(TokAt(line, s).0) == EraseTok(t)
    ensures TokAt(line, s).1 == s + |Text(t)| && line[s + |Text(t)| + 1..] == rest && line[s + |Text(t)|] == ' '
  {
    var x := Text(t);
    var e := s + |x|;
    assert |line[s..]| == |x| + 1 + |rest|;
    forall k | s <= k < e ensures line[k] == x[k - s] {
      assert line[k] == line[s..][k - s];
    }
    assert line[e] == line[s..][|x|] == ' ';
    assert line[e + 1..] == line[s..][|x| + 1..] == rest;
    if t.Word? {
      WordEnd(line, s, e);
      assert line[s..e] == x;
    }
  }

  lemma LexHead(line: string, s: nat)
    requires s < |line| && !IsSpace(line[s])
    ensures Lex(line, s) == [TokAt(line, s).0] + Lex(line, TokAt(line, s).1)
  {
    NoSkip(line, s);
  }

  lemma LexBlank(line: string, s: nat)
    requires s < |line| && IsSpace(line[s])
    ensures Lex(line, s) == Lex(line, s + 1)
  {
    assert SkipSpace(line, s) == SkipSpace(line, s + 1);
  }

  lemma SameCons(x: Tok, xs: seq<Tok>, ys: seq<Tok>)
    requires ys != [] && EraseTok(x) == EraseTok(ys[0]) && SameToks(xs, ys[1..])
    ensures SameToks([x] + xs, ys)
  {
    forall i | 0 <= i < |ys| ensures EraseTok(([x] + xs)[i]) == EraseTok(ys[i]) {
      assert i > 0 ==> EraseTok(xs[i - 1]) == EraseTok(ys[1..][i - 1]);
    }
  }

  lemma PrintHead(ts: seq<Tok>)
    requires ts != []
    ensures Print(ts) == Text(ts[0]) + " " + Print(ts[1..])
  {
  }

  /** Lexing undoes printing. */
  lemma {:induction false} LexBack(line: string, s: nat, ts: seq<Tok>)
    requires s <= |line| && line[s..] == Print(ts) && forall i :: 0 <= i < |ts| ==> GoodTok(ts[i])
    ensures SameToks(Lex(line, s), ts)
    decreases |ts|
  {
    hide TokAt, Text, GoodTok, EraseTok, Lex, SameToks, Print;
    if ts == [] {
      LexNone(line, s);
    } else {
      PrintHead(ts);
      TokBack(line, s, ts[0], Print(ts[1..]));
      LexHead(line, s);
      var e := TokAt(line, s).1;
      LexBlank(line, e);
      LexBack(line, e + 1, ts[1..]);
      SameCons(TokAt(line, s).0, Lex(line, e), ts);
    }
  }

  lemma LexNone(line: string, s: nat)
    requires s <= |line| && line[s..] == Print([])
    ensures SameToks(Lex(line, s), [])
  {
    NoSkip(line, s);
  }

  /** All words are well-formed. */
  predicate GoodWords(c: Cmd)
  {
    match c
    case Exec(args) => forall i :: 0 <= i < |args| ==> GoodWord(args[i].w)
    case Redir(d, f, op) => GoodWord(f.w) && GoodWords(d)
    case Pipe(l, r) => GoodWords(l) && GoodWords(r)
    case List(l, r) => GoodWords(l) && GoodWords(r)
    case Back(d) => GoodWords(d)
  }

  lemma {:induction false} BodyGood(c: Cmd, i: nat)
    requires Printable(c) && GoodWords(c) && i < |Body(c)|
    ensures GoodTok(Body(c)[i])
    decreases c, 0
  {
    match c {
      case Exec(args) =>
      case Redir(d, f, op) =>
        if i < |Group(d)| {
          GroupGood(d, i);
        }
      case Pipe(l, r) =>
        if i < |Group(l)| {
          GroupGood(l, i);
        } else if i > |Group(l)| {
          GroupGood(r, i - |Group(l)| - 1);
        }
      case List(l, r) =>
        if i < |Group(l)| {
          GroupGood(l, i);
        } else if i > |Group(l)| {
          GroupGood(r, i - |Group(l)| - 1);
        }
      case Back(d) =>
        if i < |Group(d)| {
          GroupGood(d, i);
        }
    }
  }

  lemma {:induction false} GroupGood(c: Cmd, i: nat)
    requires Printable(c) && GoodWords(c) && i < |Group(c)|
    ensures GoodTok(Group(c)[i])
    decreases c, 1
  {
    if 0 < i < |Group(c)| - 1 {
      BodyGood(c, i - 1);
      assert Group(c)[i] == Body(c)[i - 1];
    }
  }

  /** Parsing the printed form of any command tree with fewer than ten arguments to a command gives the tree back,
      and leaves nothing over. */
  lemma ParsePrinted(c: Cmd)
    requires Printable(c) && GoodWords(c)
    ensures var r := ParseLine(Lex(Print(Group(c)), 0)); r.Ok? && r.rest == [] && Erase(r.cmd) == Erase(c)
  {
    var line := Print(Group(c));
    forall i | 0 <= i < |Group(c)| ensures GoodTok(Group(c)[i]) {
      GroupGood(c, i);
    }
    assert line[0..] == line;
    LexBack(line, 0, Group(c));
    var us := Lex(line, 0);
    assert us + [] == us;
    GroupBack(c, us, []);
    PlainLine(us, []);
  }
}
