/** nulterminate of user/sh.c: the words of a parsed command become C strings in the line buffer. */
module ShTerminate {
  import opened ShSyntax
  import opened ShParser

  /** The words of a command. */
  function WordsOf(c: Cmd): (r: set<Arg>)
  {
    match c
    case Exec(args) => set i | 0 <= i < |args| :: args[i]
    case Redir(d, f, _) => WordsOf(d) + {f}
    case Pipe(l, r) => WordsOf(l) + WordsOf(r)
    case List(l, r) => WordsOf(l) + WordsOf(r)
    case Back(d) => WordsOf(d)
  }

  function EndOf(a: Arg): nat { a.q + |a.w| }

  /** The word stands in the line where it says, and ends where a character that is in no word, or the end of the
      line, follows. */
  ghost predicate Stands(line: string, a: Arg)
  {
    && a.w != "" && EndOf(a) <= |line| && line[a.q..EndOf(a)] == a.w
    && (forall k :: a.q <= k < EndOf(a) ==> InWord(line[k])) && (EndOf(a) < |line| ==> !InWord(line[EndOf(a)]))
  }

  // ----- where the words of a parsed command stand

  lemma {:induction false} LexStands(line: string, s: nat, i: nat)
    requires s <= |line| && i < |Lex(line, s)| && Lex(line, s)[i].Word?
    ensures Stands(line, Lex(line, s)[i].a)
    decreases |line| - s
  {
    var b := SkipSpace(line, s);
    if i > 0 {
      LexStands(line, TokAt(line, b).1, i - 1);
    }
  }

  /** Every word is among the tokens. */
  ghost predicate From(ws: set<Arg>, ts: seq<Tok>) { forall a :: a in ws ==> Word(a) in ts }

  /** No word is in `rest` that is not in ts. */
  ghost predicate Left(rest: seq<Tok>, ts: seq<Tok>) { forall a :: Word(a) in rest ==> Word(a) in ts }

  function RedirWords(rds: seq<(Arg, char)>): set<Arg> { set i | 0 <= i < |rds| :: rds[i].0 }

  lemma RedirWordsMore(rds: seq<(Arg, char)>, a: Arg, op: char)
    ensures RedirWords(rds + [(a, op)]) == RedirWords(rds) + {a}
  {
    var more := rds + [(a, op)];
    assert more[|rds|].0 == a;
    forall x | x in RedirWords(rds) ensures x in RedirWords(more) {
      var i :| 0 <= i < |rds| && rds[i].0 == x;
      assert more[i].0 == x;
    }
  }

  lemma {:induction false} WrapWords(c: Cmd, rds: seq<(Arg, char)>)
    ensures WordsOf(Wrap(c, rds)) == WordsOf(c) + RedirWords(rds)
    decreases |rds|
  {
    if rds != [] {
      var n := |rds| - 1;
      WrapWords(c, rds[..n]);
      RedirWordsMore(rds[..n], rds[n].0, rds[n].1);
      assert rds == rds[..n] + [(rds[n].0, rds[n].1)];
    }
  }

  lemma {:induction false} RedirsFrom(rds: seq<(Arg, char)>, ts: seq<Tok>, all: seq<Tok>)
    requires ParseRedirs(rds, ts).Redirs? && From(RedirWords(rds), all) && Left(ts, all)
    ensures var r := ParseRedirs(rds, ts); From(RedirWords(r.rds), all) && Left(r.rest, all)
    decreases |ts|
  {
    if Starts(ts, "<>+") {
      RedirWordsMore(rds, ts[1].a, ts[0].c);
      assert Word(ts[1].a) in ts;
      RedirsFrom(rds + [(ts[1].a, ts[0].c)], ts[2..], all);
    }
  }

  /** The command is built from words of the tokens. */
  ghost predicate Built(r: Result, all: seq<Tok>)
  {
    r.Ok? ==> From(WordsOf(r.cmd), all) && Left(r.rest, all)
  }

  lemma {:induction false} LineBuilt(ts: seq<Tok>, all: seq<Tok>)
    requires Left(ts, all)
    ensures Built(ParseLine(ts), all)
    decreases |ts|, 3
  {
    PipeBuilt(ts, all);
    var r := ParsePipe(ts);
    if r.Ok? {
      BacksBuilt(r.cmd, r.rest, all);
      var (d, ts2) := ParseBacks(r.cmd, r.rest);
      if Starts(ts2, ";") {
        LineBuilt(ts2[1..], all);
      }
    }
  }

  lemma {:induction false} BacksBuilt(c: Cmd, ts: seq<Tok>, all: seq<Tok>)
    requires From(WordsOf(c), all) && Left(ts, all)
    ensures From(WordsOf(ParseBacks(c, ts).0), all) && Left(ParseBacks(c, ts).1, all)
    decreases |ts|
  {
    if Starts(ts, "&") {
      BacksBuilt(Back(c), ts[1..], all);
    }
  }

  lemma {:induction false} PipeBuilt(ts: seq<Tok>, all: seq<Tok>)
    requires Left(ts, all)
    ensures Built(ParsePipe(ts), all)
    decreases |ts|, 2
  {
    ExecBuilt(ts, all);
    var r := ParseExec(ts);
    if r.Ok? && Starts(r.rest, "|") {
      PipeBuilt(r.rest[1..], all);
    }
  }

  lemma {:induction false} ExecBuilt(ts: seq<Tok>, all: seq<Tok>)
    requires Left(ts, all)
    ensures Built(ParseExec(ts), all)
    decreases |ts|, 1
  {
    if Starts(ts, "(") {
      LineBuilt(ts[1..], all);
      var r := ParseLine(ts[1..]);
      if r.Ok? && Starts(r.rest, ")") && ParseRedirs([], r.rest[1..]).Redirs? {
        RedirsFrom([], r.rest[1..], all);
        WrapWords(r.cmd, ParseRedirs([], r.rest[1..]).rds);
      }
    } else if ParseRedirs([], ts).Redirs? {
      RedirsFrom([], ts, all);
      ArgsBuilt([], ParseRedirs([], ts).rds, ParseRedirs([], ts).rest, all);
    }
  }

  lemma {:induction false} ArgsBuilt(args: seq<Arg>, rds: seq<(Arg, char)>, ts: seq<Tok>, all: seq<Tok>)
    requires Left(ts, all) && From(RedirWords(rds), all) && From(WordsOf(Exec(args)), all)
    ensures Built(ParseArgs(args, rds, ts), all)
    decreases |ts|
  {
    if ts == [] || Starts(ts, "|)&;") {
      WrapWords(Exec(args), rds);
    } else if ts[0].Word? && |args| + 1 < MAXARGS && ParseRedirs(rds, ts[1..]).Redirs? {
      assert Word(ts[0].a) in ts;
      RedirsFrom(rds, ts[1..], all);
      var r := ParseRedirs(rds, ts[1..]);
      ArgsBuilt(args + [ts[0].a], r.rds, r.rest, all);
    }
  }

  /** Every word of a parsed command stands in the line. */
  lemma ParsedStands(line: string, a: Arg)
    requires ParseLine(Lex(line, 0)).Ok? && a in WordsOf(ParseLine(Lex(line, 0)).cmd)
    ensures Stands(line, a)
  {
    var ts := Lex(line, 0);
    LineBuilt(ts, ts);
    assert Word(a) in ts;
    var i :| 0 <= i < |ts| && ts[i] == Word(a);
    LexStands(line, 0, i);
  }

  // ----- writing the NULs

  ghost predicate EndsAt(ws: set<Arg>, k: nat) { exists a :: a in ws && EndOf(a) == k }

  /** nulterminate: a NUL at the end of every word of the command, and nowhere else. */
  method Nulterminate(c: Cmd, buf: array<char>)
    requires forall a :: a in WordsOf(c) ==> EndOf(a) < buf.Length
    modifies buf
    ensures forall k :: 0 <= k < buf.Length ==> buf[k] == if EndsAt(WordsOf(c), k) then '\0' else old(buf[k])
    decreases c
  {
    match c {
      case Exec(args) =>
        var i := 0;
        while i < |args|
          invariant 0 <= i <= |args|
          invariant forall k :: 0 <= k < buf.Length ==>
                      buf[k] == if EndsAt(WordsOf(Exec(args[..i])), k) then '\0' else old(buf[k])
        {
          assert args[i] in WordsOf(c);
          MoreArgs(args, i);
          buf[EndOf(args[i])] := '\0';
          i := i + 1;
        }
        assert args[..|args|] == args;
      case Redir(d, f, _) =>
        Nulterminate(d, buf);
        buf[EndOf(f)] := '\0';
      case Pipe(l, r) =>
        Nulterminate(l, buf);
        Nulterminate(r, buf);
      case List(l, r) =>
        Nulterminate(l, buf);
        Nulterminate(r, buf);
      case Back(d) =>
        Nulterminate(d, buf);
    }
  }

  lemma MoreArgs(args: seq<Arg>, i: nat)
    requires i < |args|
    ensures WordsOf(Exec(args[..i + 1])) == WordsOf(Exec(args[..i])) + {args[i]}
  {
    assert args[..i + 1][i] == args[i];
    forall x | x in WordsOf(Exec(args[..i])) ensures x in WordsOf(Exec(args[..i + 1])) {
      var j :| 0 <= j < i && args[..i][j] == x;
      assert args[..i + 1][j] == x;
    }
  }

  /** The C string at q: up to the first NUL. */
  function CString(s: seq<char>, q: nat): (r: string)
    requires q <= |s|
    decreases |s| - q
  {
    if q == |s| || s[q] == '\0' then "" else [s[q]] + CString(s, q + 1)
  }

  lemma {:induction false} CStringIs(s: seq<char>, q: nat, e: nat)
    requires q <= e < |s| && s[e] == '\0' && forall k :: q <= k < e ==> s[k] != '\0'
    ensures CString(s, q) == s[q..e]
    decreases e - q
  {
    if q < e {
      CStringIs(s, q + 1, e);
      assert s[q..e] == [s[q]] + s[q + 1..e];
    }
  }

  /** No word's characters are where another word ends. */
  lemma EndsOutside(line: string, a: Arg, b: Arg, k: nat)
    requires Stands(line, a) && Stands(line, b) && a.q <= k < EndOf(a)
    ensures EndOf(b) != k
  {
  }

  /** parsecmd on a line without NULs in a buffer: if it does not panic, every word of the tree is then a C string in
      the buffer, equal to the token it was parsed from. */
  method ParseCommand(buf: array<char>) returns (p: Parsed)
    requires buf.Length > 0 && buf[buf.Length - 1] == '\0' && forall k :: 0 <= k < buf.Length - 1 ==> buf[k] != '\0'
    modifies buf
    ensures var r := ParseLine(Lex(old(buf[..buf.Length - 1]), 0));
            && (p.Done? <==> r.Ok? && r.rest == [])
            && (p.Done? ==> p.cmd == r.cmd && forall a :: a in WordsOf(p.cmd) ==>
                  a.q < buf.Length && CString(buf[..], a.q) == a.w)
  {
    var n := buf.Length - 1;
    var line := buf[..n];
    var parser := new Parser(line);
    p := parser.Command();
    if p.Done? {
      forall a | a in WordsOf(p.cmd) ensures Stands(line, a) {
        ParsedStands(line, a);
      }
      Nulterminate(p.cmd, buf);
      forall a | a in WordsOf(p.cmd) ensures a.q < buf.Length && CString(buf[..], a.q) == a.w {
        Terminated(line, p.cmd, buf[..], a);
      }
    }
  }

  lemma Terminated(line: string, c: Cmd, s: seq<char>, a: Arg)
    requires a in WordsOf(c) && (forall b :: b in WordsOf(c) ==> Stands(line, b)) && |s| == |line| + 1
    requires (forall k :: 0 <= k < |line| ==> line[k] != '\0')
    requires forall k :: 0 <= k < |s| ==>
               s[k] == if EndsAt(WordsOf(c), k) then '\0' else if k < |line| then line[k] else '\0'
    ensures a.q < |s| && CString(s, a.q) == a.w
  {
    var e := EndOf(a);
    assert EndsAt(WordsOf(c), e);
    forall k | a.q <= k < e ensures s[k] == line[k] {
      forall b | b in WordsOf(c) ensures EndOf(b) != k {
        EndsOutside(line, a, b, k);
      }
    }
    CStringIs(s, a.q, e);
    assert s[a.q..e] == line[a.q..e];
  }
}
