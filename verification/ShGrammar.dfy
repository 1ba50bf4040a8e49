/** What may be written on a command line of user/sh.c and what it means, independently of the parser: the parser
    accepts exactly the lines of this grammar and gives each the tree that it stands for. */
module ShGrammar {
  import opened ShSyntax

  /** A word of a simple command, or a redirection among its words. */
  datatype Item = Plain(a: Arg) | Redirect(op: char, file: Arg)

  /** A simple command, or a line in parentheses with redirections after it. */
  datatype Unit = Simple(items: seq<Item>) | Block(line: Line, rds: seq<Item>)

  datatype Pipes = Last(u: Unit) | Piped(u: Unit, rest: Pipes)

  /** Pipelines, each with any number of ampersands, separated by semicolons. */
  datatype Line = Only(p: Pipes, amps: nat) | Then(p: Pipes, amps: nat, rest: Line)

  // ----- how it is written

  function ItemToks(it: Item): (ts: seq<Tok>) { if it.Plain? then [Word(it.a)] else [Op(it.op), Word(it.file)] }

  function ItemsToks(items: seq<Item>): (ts: seq<Tok>)
  {
    if items == [] then [] else ItemToks(items[0]) + ItemsToks(items[1..])
  }

  function Amps(n: nat): (ts: seq<Tok>) { seq(n, _ => Op('&')) }

  function UnitToks(u: Unit): (ts: seq<Tok>)
  {
    match u
    case Simple(items) => ItemsToks(items)
    case Block(line, rds) => [Op('(')] + LineToks(line) + [Op(')')] + ItemsToks(rds)
  }

  function PipesToks(p: Pipes): (ts: seq<Tok>)
  {
    match p
    case Last(u) => UnitToks(u)
    case Piped(u, rest) => UnitToks(u) + [Op('|')] + PipesToks(rest)
  }

  function LineToks(l: Line): (ts: seq<Tok>)
  {
    match l
    case Only(p, n) => PipesToks(p) + Amps(n)
    case Then(p, n, rest) => PipesToks(p) + Amps(n) + [Op(';')] + LineToks(rest)
  }

  // ----- what it means

  /** The words of a command in order. */
  function WordsOf(items: seq<Item>): (r: seq<Arg>)
  {
    if items == [] then [] else (if items[0].Plain? then [items[0].a] else []) + WordsOf(items[1..])
  }

  /** The command with its redirections, the first one innermost, so that the last one takes effect last. */
  function Redirected(c: Cmd, items: seq<Item>): (r: Cmd)
    decreases |items|
  {
    if items == [] then c
    else if items[0].Plain? then Redirected(c, items[1..])
    else Redirected(Redir(c, items[0].file, items[0].op), items[1..])
  }

  function InBackground(c: Cmd, n: nat): (r: Cmd) { if n == 0 then c else Back(InBackground(c, n - 1)) }

  function UnitTree(u: Unit): (c: Cmd)
  {
    match u
    case Simple(items) => Redirected(Exec(WordsOf(items)), items)
    case Block(line, rds) => Redirected(LineTree(line), rds)
  }

  function PipesTree(p: Pipes): (c: Cmd)
  {
    match p
    case Last(u) => UnitTree(u)
    case Piped(u, rest) => Pipe(UnitTree(u), PipesTree(rest))
  }

  function LineTree(l: Line): (c: Cmd)
  {
    match l
    case Only(p, n) => InBackground(PipesTree(p), n)
    case Then(p, n, rest) => List(InBackground(PipesTree(p), n), LineTree(rest))
  }

  // ----- what is well formed

  predicate GoodItem(it: Item) { it.Redirect? ==> it.op in "<>+" }

  predicate AllGood(items: seq<Item>) { forall i :: 0 <= i < |items| ==> GoodItem(items[i]) }

  predicate AllRedirects(items: seq<Item>) { forall i :: 0 <= i < |items| ==> GoodItem(items[i]) && items[i].Redirect? }

  /** At most nine words; redirections of the three kinds, and after a block nothing else. */
  predicate GoodUnit(u: Unit)
  {
    match u
    case Simple(items) => AllGood(items) && |WordsOf(items)| < MAXARGS
    case Block(line, rds) => GoodLine(line) && AllRedirects(rds)
  }

  predicate GoodPipes(p: Pipes)
  {
    match p
    case Last(u) => GoodUnit(u)
    case Piped(u, rest) => GoodUnit(u) && GoodPipes(rest)
  }

  predicate GoodLine(l: Line)
  {
    match l
    case Only(p, _) => GoodPipes(p)
    case Then(p, _, rest) => GoodPipes(p) && GoodLine(rest)
  }

  // ----- simple commands

  /** parseredirs and then the loop of parseexec, with some words and redirections read already. */
  function ParseItems(args: seq<Arg>, rds: seq<(Arg, char)>, ts: seq<Tok>): (r: Result)
  {
    match ParseRedirs(rds, ts)
    case BadRedir => Err
    case Redirs(rds1, ts1) => ParseArgs(args, rds1, ts1)
  }

  /** What may follow a simple command. */
  predicate Ends(rest: seq<Tok>) { rest == [] || Starts(rest, "|)&;") }

  lemma ItemsEnd(args: seq<Arg>, rds: seq<(Arg, char)>, rest: seq<Tok>)
    requires Ends(rest)
    ensures ParseItems(args, rds, rest) == Ok(Wrap(Exec(args), rds), rest)
  {
  }

  lemma ItemsRedirect(args: seq<Arg>, rds: seq<(Arg, char)>, op: char, f: Arg, ts: seq<Tok>)
    requires op in "<>+"
    ensures ParseItems(args, rds, [Op(op), Word(f)] + ts) == ParseItems(args, rds + [(f, op)], ts)
  {
    hide ParseArgs;
    var us := [Op(op), Word(f)] + ts;
    assert us[2..] == ts && us[0] == Op(op) && us[1] == Word(f);
  }

  lemma ItemsWord(args: seq<Arg>, rds: seq<(Arg, char)>, a: Arg, ts: seq<Tok>)
    ensures ParseItems(args, rds, [Word(a)] + ts) ==
              if |args| + 1 >= MAXARGS then Err else ParseItems(args + [a], rds, ts)
  {
    var us := [Word(a)] + ts;
    assert us[1..] == ts && us[0] == Word(a);
    assert ParseRedirs(rds, us) == Redirs(rds, us);
  }

  /** Wrapping in redirections, one more at a time from either end. */
  lemma {:induction false} WrapIs(c: Cmd, rds: seq<(Arg, char)>, f: Arg, op: char, more: seq<(Arg, char)>)
    ensures Wrap(c, rds + [(f, op)]) == Redir(Wrap(c, rds), f, op)
    ensures Wrap(c, rds + more) == Wrap(Wrap(c, rds), more)
    decreases |more|
  {
    var r := rds + [(f, op)];
    assert r[..|r| - 1] == rds;
    if more == [] {
      assert rds + more == rds;
    } else {
      var m := more[..|more| - 1];
      WrapIs(c, rds, f, op, m);
      assert (rds + more)[..|rds + more| - 1] == rds + m;
    }
  }

  lemma WrapOne(c: Cmd, rds: seq<(Arg, char)>, f: Arg, op: char)
    ensures Wrap(c, rds + [(f, op)]) == Redir(Wrap(c, rds), f, op)
  {
    WrapIs(c, rds, f, op, []);
  }

  /** The tree of a simple command of which some words and redirections have been read. */
  function Rest(args: seq<Arg>, rds: seq<(Arg, char)>, items: seq<Item>): (c: Cmd)
  {
    Redirected(Wrap(Exec(args + WordsOf(items)), rds), items)
  }

  lemma RestRedirect(args: seq<Arg>, rds: seq<(Arg, char)>, items: seq<Item>)
    requires items != [] && items[0].Redirect?
    ensures Rest(args, rds, items) == Rest(args, rds + [(items[0].file, items[0].op)], items[1..])
  {
    WrapOne(Exec(args + WordsOf(items)), rds, items[0].file, items[0].op);
    assert WordsOf(items) == WordsOf(items[1..]);
    hide Wrap;
  }

  lemma RestWord(args: seq<Arg>, rds: seq<(Arg, char)>, items: seq<Item>)
    requires items != [] && items[0].Plain?
    ensures Rest(args, rds, items) == Rest(args + [items[0].a], rds, items[1..])
  {
    hide Wrap;
    assert args + WordsOf(items) == args + [items[0].a] + WordsOf(items[1..]);
  }

  lemma RestEnd(args: seq<Arg>, rds: seq<(Arg, char)>)
    ensures Rest(args, rds, []) == Wrap(Exec(args), rds)
  {
    assert args + WordsOf([]) == args;
  }

  /** Words and redirections, in whatever order, are read as written. */
  lemma {:induction false} ItemsParse(args: seq<Arg>, rds: seq<(Arg, char)>, items: seq<Item>, rest: seq<Tok>)
    requires Ends(rest) && AllGood(items)
    requires |args| + |WordsOf(items)| < MAXARGS
    ensures ParseItems(args, rds, ItemsToks(items) + rest) == Ok(Rest(args, rds, items), rest)
    decreases |items|
  {
    hide ParseItems, Rest;
    if items == [] {
      assert ItemsToks(items) + rest == rest;
      ItemsEnd(args, rds, rest);
      RestEnd(args, rds);
    } else {
      var more := ItemsToks(items[1..]) + rest;
      assert ItemsToks(items) + rest == ItemToks(items[0]) + more;
      if items[0].Plain? {
        ItemsWord(args, rds, items[0].a, more);
        ItemsParse(args + [items[0].a], rds, items[1..], rest);
        RestWord(args, rds, items);
      } else {
        assert GoodItem(items[0]);
        ItemsRedirect(args, rds, items[0].op, items[0].file, more);
        ItemsParse(args, rds + [(items[0].file, items[0].op)], items[1..], rest);
        RestRedirect(args, rds, items);
      }
    }
  }

  lemma SimpleStart(items: seq<Item>, rest: seq<Tok>)
    requires Ends(rest) && AllGood(items)
    ensures !Starts(ItemsToks(items) + rest, "(")
  {
    if items != [] {
      assert (ItemsToks(items) + rest)[0] == ItemToks(items[0])[0];
      assert GoodItem(items[0]);
    } else {
      assert ItemsToks(items) + rest == rest;
    }
  }

  /** The redirections after a block. */
  lemma {:induction false} BlockRedirects(rds: seq<(Arg, char)>, items: seq<Item>, c: Cmd, rest: seq<Tok>)
    requires !Starts(rest, "<>+") && AllRedirects(items)
    ensures var r := ParseRedirs(rds, ItemsToks(items) + rest);
            r.Redirs? && r.rest == rest && Wrap(c, r.rds) == Redirected(Wrap(c, rds), items)
    decreases |items|
  {
    var ts := ItemsToks(items) + rest;
    if items == [] {
      assert ts == rest;
    } else {
      var f, op := items[0].file, items[0].op;
      var more := ItemsToks(items[1..]) + rest;
      assert GoodItem(items[0]) && ts == [Op(op), Word(f)] + more;
      assert ts[0] == Op(op) && ts[1] == Word(f) && ts[2..] == more;
      WrapOne(c, rds, f, op);
      BlockRedirects(rds + [(f, op)], items[1..], c, rest);
    }
  }

  // ----- everything well formed is read as it is meant

  lemma {:induction false} UnitParses(u: Unit, rest: seq<Tok>)
    requires GoodUnit(u) && Ends(rest)
    ensures ParseExec(UnitToks(u) + rest) == Ok(UnitTree(u), rest)
    decreases u, 0
  {
    match u {
      case Simple(items) =>
        SimpleStart(items, rest);
        ItemsParse([], [], items, rest);
        SimpleIs(items, rest);
      case Block(line, rds) =>
        BlockParses(line, rds, rest);
    }
  }

  lemma SimpleIs(items: seq<Item>, rest: seq<Tok>)
    requires !Starts(ItemsToks(items) + rest, "(")
    ensures ParseExec(ItemsToks(items) + rest) == ParseItems([], [], ItemsToks(items) + rest)
    ensures Rest([], [], items) == UnitTree(Simple(items))
  {
    hide ParseRedirs, ParseArgs;
    assert [] + WordsOf(items) == WordsOf(items);
  }

  lemma {:induction false} BlockParses(line: Line, rds: seq<Item>, rest: seq<Tok>)
    requires GoodUnit(Block(line, rds)) && Ends(rest)
    ensures ParseExec(UnitToks(Block(line, rds)) + rest) == Ok(UnitTree(Block(line, rds)), rest)
    decreases line, 2
  {
    var after := ItemsToks(rds) + rest;
    var close := [Op(')')] + after;
    var ts := UnitToks(Block(line, rds)) + rest;
    assert ts == [Op('(')] + (LineToks(line) + close);
    assert ts[0] == Op('(') && ts[1..] == LineToks(line) + close;
    LineParses(line, close);
    assert close[0] == Op(')') && close[1..] == after;
    BlockRedirects([], rds, LineTree(line), rest);
    hide ParseLine, ParseRedirs, ParseArgs;
    assert ParseExec(ts) == ParseBlock(ts);
  }

  lemma {:induction false} PipesParse(p: Pipes, rest: seq<Tok>)
    requires GoodPipes(p) && Ends(rest) && !Starts(rest, "|")
    ensures ParsePipe(PipesToks(p) + rest) == Ok(PipesTree(p), rest)
    decreases p, 1
  {
    hide ParseExec;
    match p {
      case Last(u) => UnitParses(u, rest);
      case Piped(u, more) =>
        var bar := [Op('|')] + (PipesToks(more) + rest);
        assert PipesToks(p) + rest == UnitToks(u) + bar;
        assert bar[0] == Op('|') && bar[1..] == PipesToks(more) + rest;
        UnitParses(u, bar);
        PipesParse(more, rest);
    }
  }

  lemma {:induction false} BacksParse(c: Cmd, n: nat, rest: seq<Tok>)
    requires !Starts(rest, "&")
    ensures ParseBacks(c, Amps(n) + rest) == (InBackground(c, n), rest)
    decreases n
  {
    if n == 0 {
      assert Amps(n) + rest == rest;
    } else {
      var ts := Amps(n) + rest;
      assert ts[0] == Op('&') && ts[1..] == Amps(n - 1) + rest;
      BacksParse(Back(c), n - 1, rest);
      BackInside(c, n - 1);
    }
  }

  lemma {:induction false} BackInside(c: Cmd, n: nat)
    ensures InBackground(Back(c), n) == Back(InBackground(c, n))
  {
    if n > 0 {
      BackInside(c, n - 1);
    }
  }

  /** A line, followed by nothing or by a closing parenthesis. */
  lemma {:induction false} LineParses(l: Line, rest: seq<Tok>)
    requires GoodLine(l) && (rest == [] || Starts(rest, ")"))
    ensures ParseLine(LineToks(l) + rest) == Ok(LineTree(l), rest)
    decreases l, 1
  {
    hide ParsePipe, ParseBacks, PipesToks, PipesTree, InBackground, Amps, Ends, GoodPipes;
    match l {
      case Only(p, n) =>
        EndsOf(rest);
        AmpsFirst(n, rest);
        LineOnly(p, n, rest);
        PipesParse(p, Amps(n) + rest);
        BacksParse(PipesTree(p), n, rest);
      case Then(p, n, more) =>
        var semi := [Op(';')] + (LineToks(more) + rest);
        assert semi[0] == Op(';') && semi[1..] == LineToks(more) + rest;
        EndsOf(semi);
        AmpsFirst(n, semi);
        LineThen(p, n, more, rest);
        PipesParse(p, Amps(n) + semi);
        BacksParse(PipesTree(p), n, semi);
        LineParses(more, rest);
    }
  }

  lemma EndsOf(rest: seq<Tok>)
    requires rest == [] || Starts(rest, ");")
    ensures Ends(rest) && !Starts(rest, "|") && !Starts(rest, "&")
  {
  }

  lemma LineOnly(p: Pipes, n: nat, rest: seq<Tok>)
    ensures LineToks(Only(p, n)) + rest == PipesToks(p) + (Amps(n) + rest)
  {
    hide PipesToks, Amps;
  }

  lemma LineThen(p: Pipes, n: nat, more: Line, rest: seq<Tok>)
    ensures LineToks(Then(p, n, more)) + rest == PipesToks(p) + (Amps(n) + ([Op(';')] + (LineToks(more) + rest)))
  {
    hide PipesToks, Amps;
    assert LineToks(Then(p, n, more)) == PipesToks(p) + Amps(n) + [Op(';')] + LineToks(more);
    hide LineToks;
  }

  lemma AmpsFirst(n: nat, rest: seq<Tok>)
    requires Ends(rest) && !Starts(rest, "|")
    ensures Ends(Amps(n) + rest) && !Starts(Amps(n) + rest, "|")
  {
    if n == 0 {
      assert Amps(n) + rest == rest;
    } else {
      assert (Amps(n) + rest)[0] == Op('&');
    }
  }

  // ----- and nothing else is read

  /** One more item in front. */
  lemma ItemsCons(it: Item, items: seq<Item>, rest: seq<Tok>)
    ensures ItemsToks([it] + items) + rest == ItemToks(it) + (ItemsToks(items) + rest)
    ensures WordsOf([it] + items) == (if it.Plain? then [it.a] else []) + WordsOf(items)
    ensures forall c :: Redirected(c, [it] + items) ==
              if it.Plain? then Redirected(c, items) else Redirected(Redir(c, it.file, it.op), items)
  {
    var all := [it] + items;
    assert all[0] == it && all[1..] == items;
  }

  lemma AllCons(it: Item, items: seq<Item>)
    requires GoodItem(it) && AllGood(items)
    ensures AllGood([it] + items) && (it.Redirect? && AllRedirects(items) ==> AllRedirects([it] + items))
  {
  }

  lemma RedirectStep(rds: seq<(Arg, char)>, ts: seq<Tok>)
    requires Starts(ts, "<>+") && ParseRedirs(rds, ts).Redirs?
    ensures |ts| >= 2 && ts[1].Word? && ts == [Op(ts[0].c), Word(ts[1].a)] + ts[2..]
    ensures ParseRedirs(rds, ts) == ParseRedirs(rds + [(ts[1].a, ts[0].c)], ts[2..])
  {
  }

  lemma RedirectNone(rds: seq<(Arg, char)>, ts: seq<Tok>)
    requires !Starts(ts, "<>+")
    ensures ParseRedirs(rds, ts) == Redirs(rds, ts)
  {
  }

  lemma NoItems(rest: seq<Tok>, c: Cmd)
    ensures ItemsToks([]) + rest == rest && Redirected(c, []) == c && WordsOf([]) == []
  {
  }

  /** Redirections that were read were written. */
  lemma {:induction false} RedirectsSound(rds: seq<(Arg, char)>, ts: seq<Tok>, c: Cmd) returns (items: seq<Item>)
    requires ParseRedirs(rds, ts).Redirs?
    ensures var r := ParseRedirs(rds, ts);
            && ts == ItemsToks(items) + r.rest && Wrap(c, r.rds) == Redirected(Wrap(c, rds), items)
            && !Starts(r.rest, "<>+") && AllRedirects(items)
    decreases |ts|
  {
    hide ParseRedirs, ItemsToks, Redirected, Wrap, AllRedirects;
    if !Starts(ts, "<>+") {
      items := [];
      RedirectNone(rds, ts);
      NoItems(ts, Wrap(c, rds));
      assert AllRedirects([]) by { NoRedirects(); }
    } else {
      RedirectStep(rds, ts);
      var f, op := ts[1].a, ts[0].c;
      var more := RedirectsSound(rds + [(f, op)], ts[2..], c);
      items := [Redirect(op, f)] + more;
      WrapOne(c, rds, f, op);
      ItemsCons(Redirect(op, f), more, ParseRedirs(rds, ts).rest);
      MoreRedirects(op, f, more);
    }
  }

  lemma NoRedirects()
    ensures AllRedirects([]) && AllGood([])
  {
  }

  lemma MoreRedirects(op: char, f: Arg, items: seq<Item>)
    requires op in "<>+" && AllRedirects(items)
    ensures AllRedirects([Redirect(op, f)] + items)
  {
  }

  lemma {:induction false} ItemsSound(args: seq<Arg>, rds: seq<(Arg, char)>, ts: seq<Tok>) returns (items: seq<Item>)
    requires ParseItems(args, rds, ts).Ok? && |args| < MAXARGS
    ensures var r := ParseItems(args, rds, ts);
            && ts == ItemsToks(items) + r.rest && r.cmd == Rest(args, rds, items) && Ends(r.rest)
            && AllGood(items) && |args| + |WordsOf(items)| < MAXARGS
    decreases |ts|
  {
    hide Rest, ItemsToks, AllGood, WordsOf, Redirected, ParseRedirs, ParseArgs, ParseItems;
    if Ends(ts) {
      items := [];
      ItemsEnd(args, rds, ts);
      RestEnd(args, rds);
      NoItems(ts, Exec(args));
      NoRedirects();
    } else if ts[0].Word? {
      var a := ts[0].a;
      assert ts == [Word(a)] + ts[1..];
      ItemsWord(args, rds, a, ts[1..]);
      var more := ItemsSound(args + [a], rds, ts[1..]);
      items := [Plain(a)] + more;
      ItemsCons(Plain(a), more, ParseItems(args, rds, ts).rest);
      AllCons(Plain(a), more);
      assert items[0] == Plain(a) && items[1..] == more;
      RestWord(args, rds, items);
    } else {
      NextRedirect(args, rds, ts);
      var f, op := ts[1].a, ts[0].c;
      assert ts == [Op(op), Word(f)] + ts[2..];
      ItemsRedirect(args, rds, op, f, ts[2..]);
      var more := ItemsSound(args, rds + [(f, op)], ts[2..]);
      items := [Redirect(op, f)] + more;
      ItemsCons(Redirect(op, f), more, ParseItems(args, rds, ts).rest);
      AllCons(Redirect(op, f), more);
      assert items[0] == Redirect(op, f) && items[1..] == more;
      RestRedirect(args, rds, items);
    }
  }

  lemma NextRedirect(args: seq<Arg>, rds: seq<(Arg, char)>, ts: seq<Tok>)
    requires ParseItems(args, rds, ts).Ok? && !Ends(ts) && !ts[0].Word?
    ensures |ts| >= 2 && ts[0].c in "<>+" && ts[1].Word?
  {
  }

  lemma {:induction false} UnitSound(ts: seq<Tok>) returns (u: Unit)
    requires ParseExec(ts).Ok?
    ensures var r := ParseExec(ts); GoodUnit(u) && ts == UnitToks(u) + r.rest && r.cmd == UnitTree(u)
    decreases |ts|, 1
  {
    if Starts(ts, "(") {
      u := BlockSound(ts);
    } else {
      SimpleExec(ts);
      var items := ItemsSound([], [], ts);
      u := Simple(items);
      assert ItemsToks(items) + ParseExec(ts).rest == ts;
      SimpleIs(items, ParseExec(ts).rest);
    }
  }

  lemma SimpleExec(ts: seq<Tok>)
    requires !Starts(ts, "(")
    ensures ParseExec(ts) == ParseItems([], [], ts)
  {
    hide ParseRedirs, ParseArgs;
  }

  lemma {:induction false} BlockSound(ts: seq<Tok>) returns (u: Unit)
    requires Starts(ts, "(") && ParseBlock(ts).Ok?
    ensures var r := ParseBlock(ts); GoodUnit(u) && ts == UnitToks(u) + r.rest && r.cmd == UnitTree(u)
    decreases |ts|, 0
  {
    hide ParseLine, ParseRedirs, ItemsToks, LineToks, Redirected, LineTree, AllRedirects, GoodLine, Wrap;
    var a := ParseLine(ts[1..]);
    var line := LineSound(ts[1..]);
    var items := RedirectsSound([], a.rest[1..], a.cmd);
    u := Block(line, items);
    WrapNone(a.cmd);
    BlockText(line, items, ParseRedirs([], a.rest[1..]).rest, ts, a.rest);
  }

  lemma WrapNone(c: Cmd)
    ensures Wrap(c, []) == c
  {
  }

  lemma BlockText(line: Line, items: seq<Item>, rest: seq<Tok>, ts: seq<Tok>, close: seq<Tok>)
    requires Starts(ts, "(") && Starts(close, ")") && ts[1..] == LineToks(line) + close
    requires close[1..] == ItemsToks(items) + rest
    ensures ts == UnitToks(Block(line, items)) + rest
  {
    hide LineToks, ItemsToks;
    assert ts == [Op('(')] + ts[1..] && close == [Op(')')] + close[1..];
  }

  lemma {:induction false} PipesSound(ts: seq<Tok>) returns (p: Pipes)
    requires ParsePipe(ts).Ok?
    ensures var r := ParsePipe(ts); GoodPipes(p) && ts == PipesToks(p) + r.rest && r.cmd == PipesTree(p)
    decreases |ts|, 2
  {
    hide ParseExec;
    var a := ParseExec(ts);
    var u := UnitSound(ts);
    if Starts(a.rest, "|") {
      assert a.rest == [Op('|')] + a.rest[1..];
      var more := PipesSound(a.rest[1..]);
      p := Piped(u, more);
    } else {
      p := Last(u);
    }
  }

  lemma {:induction false} BacksSound(c: Cmd, ts: seq<Tok>) returns (n: nat)
    ensures var r := ParseBacks(c, ts); ts == Amps(n) + r.1 && r.0 == InBackground(c, n)
    decreases |ts|
  {
    if Starts(ts, "&") {
      var m := BacksSound(Back(c), ts[1..]);
      n := m + 1;
      BackInside(c, m);
      assert Amps(n) == [Op('&')] + Amps(m) && ts == [Op('&')] + ts[1..];
    } else {
      n := 0;
    }
  }

  lemma {:induction false} LineSound(ts: seq<Tok>) returns (l: Line)
    requires ParseLine(ts).Ok?
    ensures var r := ParseLine(ts); GoodLine(l) && ts == LineToks(l) + r.rest && r.cmd == LineTree(l)
    decreases |ts|, 3
  {
    hide ParsePipe, ParseBacks, PipesToks, PipesTree, InBackground, Amps, GoodPipes;
    var a := ParsePipe(ts);
    var p := PipesSound(ts);
    var n := BacksSound(a.cmd, a.rest);
    var b := ParseBacks(a.cmd, a.rest).1;
    if Starts(b, ";") {
      assert b == [Op(';')] + b[1..];
      var more := LineSound(b[1..]);
      l := Then(p, n, more);
      LineThen(p, n, more, ParseLine(b[1..]).rest);
    } else {
      l := Only(p, n);
      LineOnly(p, n, b);
    }
  }

  /** The tokens of a whole line parse to c if and only if they are written so as to mean c. */
  lemma ParsedExactly(ts: seq<Tok>, c: Cmd)
    ensures ParseLine(ts) == Ok(c, []) <==> exists l :: GoodLine(l) && LineToks(l) == ts && LineTree(l) == c
  {
    hide ParseLine;
    if ParseLine(ts) == Ok(c, []) {
      var l := LineSound(ts);
      assert LineToks(l) + [] == LineToks(l);
    }
    if l :| GoodLine(l) && LineToks(l) == ts && LineTree(l) == c {
      LineParses(l, []);
      assert LineToks(l) + [] == ts;
    }
  }
}
