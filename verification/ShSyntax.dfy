/** The command language of user/sh.c: its tokens, command trees and grammar. */
module ShSyntax {
  const MAXARGS := 10

  /** A word of the line and where it starts. */
  datatype Arg = Arg(w: string, q: nat)

  /** Tokens; `Op('+')` is >>. */
  datatype Tok = Word(a: Arg) | Op(c: char)

  datatype Cmd =
    | Exec(args: seq<Arg>)
    | Redir(cmd: Cmd, file: Arg, op: char)
    | Pipe(left: Cmd, right: Cmd)
    | List(left: Cmd, right: Cmd)
    | Back(cmd: Cmd)

  // ----- characters and tokens

  predicate IsSpace(c: char) { c in " \t\r\n" || c == 11 as char }

  predicate IsSymbol(c: char) { c in "<|>&;()" }

  predicate InWord(c: char) { !IsSpace(c) && !IsSymbol(c) }

  /** The end of the blanks at s. */
  function SkipSpace(line: string, s: nat): (e: nat)
    requires s <= |line|
    ensures s <= e <= |line| && (forall k :: s <= k < e ==> IsSpace(line[k])) && (e < |line| ==> !IsSpace(line[e]))
    decreases |line| - s
  {
    if s < |line| && IsSpace(line[s]) then SkipSpace(line, s + 1) else s
  }

  /** The end of the word at s. */
  function SkipWord(line: string, s: nat): (e: nat)
    requires s <= |line|
    ensures s <= e <= |line| && (forall k :: s <= k < e ==> InWord(line[k])) && (e < |line| ==> !InWord(line[e]))
    ensures s < |line| && InWord(line[s]) ==> s < e
    decreases |line| - s
  {
    if s < |line| && InWord(line[s]) then SkipWord(line, s + 1) else s
  }

  /** The token that starts at s, a position that is not blank. */
  function TokAt(line: string, s: nat): (r: (Tok, nat))
    requires s < |line| && !IsSpace(line[s])
    ensures s < r.1 <= |line|
    ensures r.0.Word? ==> r.0.a.q == s && r.0.a.w == line[s..r.1] && InWord(line[s])
    ensures r.0.Op? ==> IsSymbol(line[s])
  {
    if !IsSymbol(line[s]) then (Word(Arg(line[s..SkipWord(line, s)], s)), SkipWord(line, s))
    else if line[s] == '>' && s + 1 < |line| && line[s + 1] == '>' then (Op('+'), s + 2)
    else (Op(line[s]), s + 1)
  }

  /** The tokens of the line from s on. */
  function Lex(line: string, s: nat): (ts: seq<Tok>)
    requires s <= |line|
    decreases |line| - s
  {
    var b := SkipSpace(line, s);
    if b == |line| then [] else [TokAt(line, b).0] + Lex(line, TokAt(line, b).1)
  }

  lemma LexSkips(line: string, s: nat)
    requires s <= |line|
    ensures Lex(line, SkipSpace(line, s)) == Lex(line, s)
  {
    var b := SkipSpace(line, s);
    assert SkipSpace(line, b) == b;
  }

  // ----- the grammar, on tokens

  datatype Result = Ok(cmd: Cmd, rest: seq<Tok>) | Err

  predicate Starts(ts: seq<Tok>, cs: string) { ts != [] && ts[0].Op? && ts[0].c in cs }

  /** Wrap a command in redirections, innermost first. */
  function Wrap(cmd: Cmd, rds: seq<(Arg, char)>): (r: Cmd)
  {
    if rds == [] then cmd else Redir(Wrap(cmd, rds[..|rds| - 1]), rds[|rds| - 1].0, rds[|rds| - 1].1)
  }

  datatype Redirs = Redirs(rds: seq<(Arg, char)>, rest: seq<Tok>) | BadRedir

  function ParseRedirs(rds: seq<(Arg, char)>, ts: seq<Tok>): (r: Redirs)
    ensures r.Redirs? ==> |r.rest| <= |ts|
    decreases |ts|
  {
    if !Starts(ts, "<>+") then Redirs(rds, ts)
    else if |ts| < 2 || !ts[1].Word? then BadRedir
    else ParseRedirs(rds + [(ts[1].a, ts[0].c)], ts[2..])
  }

  function ParseLine(ts: seq<Tok>): (r: Result)
    ensures r.Ok? ==> |r.rest| <= |ts|
    decreases |ts|, 3
  {
    match ParsePipe(ts)
    case Err => Err
    case Ok(c, ts1) =>
      var (d, ts2) := ParseBacks(c, ts1);
      if !Starts(ts2, ";") then Ok(d, ts2)
      else match ParseLine(ts2[1..])
        case Err => Err
        case Ok(e, ts3) => Ok(List(d, e), ts3)
  }

  function ParseBacks(c: Cmd, ts: seq<Tok>): (r: (Cmd, seq<Tok>))
    ensures |r.1| <= |ts|
    decreases |ts|
  {
    if Starts(ts, "&") then ParseBacks(Back(c), ts[1..]) else (c, ts)
  }

  function ParsePipe(ts: seq<Tok>): (r: Result)
    ensures r.Ok? ==> |r.rest| <= |ts|
    decreases |ts|, 2
  {
    match ParseExec(ts)
    case Err => Err
    case Ok(c, ts1) =>
      if !Starts(ts1, "|") then Ok(c, ts1)
      else match ParsePipe(ts1[1..])
        case Err => Err
        case Ok(d, ts2) => Ok(Pipe(c, d), ts2)
  }

  function ParseExec(ts: seq<Tok>): (r: Result)
    ensures r.Ok? ==> |r.rest| <= |ts|
    decreases |ts|, 1
  {
    if Starts(ts, "(") then ParseBlock(ts)
    else match ParseRedirs([], ts)
      case BadRedir => Err
      case Redirs(rds, ts1) => ParseArgs([], rds, ts1)
  }

  function ParseArgs(args: seq<Arg>, rds: seq<(Arg, char)>, ts: seq<Tok>): (r: Result)
    ensures r.Ok? ==> |r.rest| <= |ts|
    decreases |ts|, 0
  {
    if ts == [] || Starts(ts, "|)&;") then Ok(Wrap(Exec(args), rds), ts)
    else if !ts[0].Word? || |args| + 1 >= MAXARGS then Err
    else match ParseRedirs(rds, ts[1..])
      case BadRedir => Err
      case Redirs(rds1, ts1) => ParseArgs(args + [ts[0].a], rds1, ts1)
  }

  function ParseBlock(ts: seq<Tok>): (r: Result)
    requires Starts(ts, "(")
    ensures r.Ok? ==> |r.rest| <= |ts|
    decreases |ts|, 0
  {
    match ParseLine(ts[1..])
    case Err => Err
    case Ok(c, ts1) =>
      if !Starts(ts1, ")") then Err
      else match ParseRedirs([], ts1[1..])
        case BadRedir => Err
        case Redirs(rds, ts2) => Ok(Wrap(c, rds), ts2)
  }
}
