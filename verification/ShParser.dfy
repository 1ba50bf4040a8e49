/** The recursive-descent parser of user/sh.c.  Its cursor moves through the line as the grammar moves through the
    tokens; a panic is a failed result. */
module ShParser {
  import opened ShSyntax
  import opened ShGrammar

  /** A command, or a panic. */
  datatype Parsed = Done(cmd: Cmd) | Panic

  /** The result of the grammar, as the parser returns it. */
  ghost predicate Agrees(p: Parsed, r: Result, rest: seq<Tok>)
  {
    if r.Ok? then p == Done(r.cmd) && rest == r.rest else p.Panic?
  }

  class Parser {
    const line: string
    /** The cursor *ps. */
    var s: nat

    ghost predicate Valid() reads this { s <= |line| }

    ghost function Toks(): seq<Tok>
      requires Valid()
      reads this
    {
      Lex(line, s)
    }

    constructor (l: string)
      ensures line == l && s == 0
    {
      line, s := l, 0;
    }

    method SkipBlanks()
      requires Valid()
      modifies this
      ensures s == SkipSpace(line, old(s))
    {
      while s < |line| && IsSpace(line[s])
        invariant s <= |line| && SkipSpace(line, s) == SkipSpace(line, old(s))
      {
        s := s + 1;
      }
    }

    method SkipLetters()
      requires Valid()
      modifies this
      ensures s == SkipWord(line, old(s))
    {
      while s < |line| && !IsSpace(line[s]) && !IsSymbol(line[s])
        invariant s <= |line| && SkipWord(line, s) == SkipWord(line, old(s))
      {
        s := s + 1;
      }
    }

    /** peek: is the next token one of these symbols?  No token is consumed. */
    method Peek(cs: string) returns (r: bool)
      requires Valid() && forall c :: c in cs ==> IsSymbol(c)
      modifies this
      ensures s == SkipSpace(line, old(s)) && Valid() && Toks() == old(Toks())
      ensures r <==> Toks() != [] && Toks()[0].Op? && (Toks()[0].c in cs || (Toks()[0].c == '+' && '>' in cs))
    {
      LexSkips(line, s);
      SkipBlanks();
      r := s < |line| && line[s] in cs;
    }

    /** gettoken: the next token, '+' for >>, 'a' for a word from q to e, NUL at the end of the line. */
    method GetToken() returns (ret: char, q: nat, e: nat)
      requires Valid()
      modifies this
      ensures Valid() && (ret == '\0' <==> old(Toks()) == [])
      ensures ret == '\0' ==> Toks() == []
      ensures old(Toks()) != [] ==>
                Toks() == old(Toks())[1..] && ret == (if old(Toks())[0].Word? then 'a' else old(Toks())[0].c)
      ensures ret == 'a' ==> old(Toks()) != [] && q <= e <= |line| && old(Toks())[0] == Word(Arg(line[q..e], q))
    {
      SkipBlanks();
      ghost var b := s;
      q := s;
      if s == |line| {
        ret := '\0';
      } else if line[s] in "|();&<" {
        ret := line[s];
        s := s + 1;
      } else if line[s] == '>' {
        ret := '>';
        s := s + 1;
        if s < |line| && line[s] == '>' {
          ret := '+';
          s := s + 1;
        }
      } else {
        ret := 'a';
        SkipLetters();
      }
      e := s;
      assert b < |line| ==> e == TokAt(line, b).1;
      LexSkips(line, s);
      SkipBlanks();
    }

    /** parseredirs.  The redirections are kept as a list until the command they wrap is complete: parseexec goes
        on filling the argument vector inside them. */
    method Redirections(rds0: seq<(Arg, char)>) returns (ok: bool, rds: seq<(Arg, char)>)
      requires Valid()
      modifies this
      ensures Valid()
      ensures match ParseRedirs(rds0, old(Toks()))
              case BadRedir => !ok
              case Redirs(r, rest) => ok && rds == r && Toks() == rest
    {
      rds := rds0;
      while true
        invariant Valid() && ParseRedirs(rds, Toks()) == ParseRedirs(rds0, old(Toks()))
        decreases |Toks()|
      {
        ghost var ts := Toks();
        var more := Peek("<>");
        if !more {
          return true, rds;
        }
        var tok, _, _ := GetToken();
        var w, q, e := GetToken();
        if w != 'a' {
          return false, rds;
        }
        assert ts[1..][0] == ts[1] && ts[1..][1..] == ts[2..];
        rds := rds + [(Arg(line[q..e], q), tok)];
      }
    }

    /** parseline */
    method Line() returns (p: Parsed)
      requires Valid()
      modifies this
      ensures Valid() && Agrees(p, ParseLine(old(Toks())), Toks())
      decreases |Toks()|, 3
    {
      ghost var ts0 := Toks();
      p := PipeLine();
      if p.Panic? {
        return;
      }
      ghost var c0, ts1 := p.cmd, Toks();
      var cmd := p.cmd;
      var more := Peek("&");
      while more
        invariant Valid() && ParseBacks(cmd, Toks()) == ParseBacks(c0, ts1) && |Toks()| <= |ts1| &&
                    (more <==> Starts(Toks(), "&"))
        decreases |Toks()|
      {
        var _, _, _ := GetToken();
        cmd := Back(cmd);
        more := Peek("&");
      }
      var semi := Peek(";");
      if semi {
        var _, _, _ := GetToken();
        var rest := Line();
        if rest.Panic? {
          return Panic;
        }
        cmd := List(cmd, rest.cmd);
      }
      p := Done(cmd);
    }

    /** parsepipe */
    method PipeLine() returns (p: Parsed)
      requires Valid()
      modifies this
      ensures Valid() && Agrees(p, ParsePipe(old(Toks())), Toks())
      decreases |Toks()|, 2
    {
      p := ExecCmd();
      if p.Panic? {
        return;
      }
      var bar := Peek("|");
      if bar {
        var _, _, _ := GetToken();
        var rest := PipeLine();
        if rest.Panic? {
          return Panic;
        }
        p := Done(Pipe(p.cmd, rest.cmd));
      }
    }

    /** parseblock */
    method Block() returns (p: Parsed)
      requires Valid() && Starts(Toks(), "(")
      modifies this
      ensures Valid() && Agrees(p, ParseBlock(old(Toks())), Toks())
      decreases |Toks()|, 0
    {
      var _, _, _ := GetToken();
      p := Line();
      if p.Panic? {
        return;
      }
      var close := Peek(")");
      if !close {
        return Panic;
      }
      var _, _, _ := GetToken();
      var ok, rds := Redirections([]);
      p := if ok then Done(Wrap(p.cmd, rds)) else Panic;
    }

    /** parseexec */
    method ExecCmd() returns (p: Parsed)
      requires Valid()
      modifies this
      ensures Valid() && Agrees(p, ParseExec(old(Toks())), Toks())
      ensures p.Done? ==> exists u :: GoodUnit(u) && old(Toks()) == UnitToks(u) + Toks() && p.cmd == UnitTree(u)
      decreases |Toks()|, 1
    {
      ghost var ts := Toks();
      if ParseExec(ts).Ok? {
        ghost var u := UnitSound(ts);
      }
      hide ParseExec, UnitToks, UnitTree, GoodUnit;
      ExecCases(ts);
      var open := Peek("(");
      if open {
        p := Block();
        return;
      }
      var ok, rds := Redirections([]);
      if !ok {
        return Panic;
      }
      p := Arguments(rds);
    }

    /** The loop of parseexec. */
    method Arguments(rds0: seq<(Arg, char)>) returns (p: Parsed)
      requires Valid()
      modifies this
      ensures Valid() && Agrees(p, ParseArgs([], rds0, old(Toks())), Toks())
    {
      hide Lex, SkipSpace;
      ghost var ts0 := Toks();
      var args: seq<Arg>, rds := [], rds0;
      var stop := Peek("|)&;");
      while !stop
        invariant Valid() && ParseArgs(args, rds, Toks()) == ParseArgs([], rds0, ts0)
        invariant stop <==> Starts(Toks(), "|)&;")
        decreases |Toks()|
      {
        var tok, q, e := GetToken();
        if tok == '\0' {
          break;
        }
        if tok != 'a' {
          return Panic;
        }
        args := args + [Arg(line[q..e], q)];
        if |args| >= MAXARGS {
          return Panic;
        }
        var ok;
        ok, rds := Redirections(rds);
        if !ok {
          return Panic;
        }
        stop := Peek("|)&;");
      }
      p := Done(Wrap(Exec(args), rds));
    }

    /** parsecmd up to nulterminate: a tree, or a panic on a syntax error or on leftovers. */
    method Command() returns (p: Parsed)
      requires s == 0
      modifies this
      ensures Valid()
      ensures p.Done? <==> ParseLine(Lex(line, 0)).Ok? && ParseLine(Lex(line, 0)).rest == []
      ensures p.Done? ==> p.cmd == ParseLine(Lex(line, 0)).cmd
      ensures p.Done? <==> exists l :: GoodLine(l) && LineToks(l) == Lex(line, 0)
      ensures p.Done? ==> exists l :: GoodLine(l) && LineToks(l) == Lex(line, 0) && LineTree(l) == p.cmd
    {
      hide ParseLine, LineToks, LineTree, GoodLine;
      MeantExactly(Lex(line, 0));
      p := Line();
      if p.Panic? {
        return;
      }
      SkippedTo(line, s);
      var _ := Peek("");
      if s != |line| {
        return Panic;
      }
    }
  }

  /** At the end of the blanks there are no tokens exactly at the end of the line. */
  lemma SkippedTo(line: string, s: nat)
    requires s <= |line|
    ensures Lex(line, s) == [] <==> SkipSpace(line, s) == |line|
  {
  }

  lemma ExecCases(ts: seq<Tok>)
    ensures Starts(ts, "(") ==> ParseExec(ts) == ParseBlock(ts)
    ensures !Starts(ts, "(") ==>
              match ParseRedirs([], ts)
              case BadRedir => ParseExec(ts) == Err
              case Redirs(rds, ts1) => ParseExec(ts) == ParseArgs([], rds, ts1)
  {
    hide ParseRedirs, ParseArgs, ParseBlock;
  }

  /** A whole line of tokens is accepted exactly if it is written as the grammar has it, and then it is given its
      meaning. */
  lemma MeantExactly(ts: seq<Tok>)
    ensures var r := ParseLine(ts); r.Ok? && r.rest == [] <==> exists l :: GoodLine(l) && LineToks(l) == ts
    ensures var r := ParseLine(ts);
            r.Ok? && r.rest == [] ==> exists l :: GoodLine(l) && LineToks(l) == ts && LineTree(l) == r.cmd
  {
    hide ParseLine, LineToks, LineTree, GoodLine;
    var r := ParseLine(ts);
    if r.Ok? && r.rest == [] {
      assert r == Ok(r.cmd, []);
      ParsedExactly(ts, r.cmd);
    }
    if exists l :: GoodLine(l) && LineToks(l) == ts {
      var l :| GoodLine(l) && LineToks(l) == ts;
      ParsedExactly(ts, LineTree(l));
      assert r == Ok(LineTree(l), []);
    }
  }
}
