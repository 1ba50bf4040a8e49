/** From the characters of a line to its meaning: a command line of user/sh.c written with any blanks, or none where
    none are needed, parses to the tree it stands for. */
module ShText {
  import opened ShSyntax
  import opened ShGrammar
  import opened ShRoundTrip

  // ----- blanks

  /** The tokens with gaps[i] before the i-th and the last gap at the end. */
  function Spread(ts: seq<Tok>, gaps: seq<string>): (s: string)
    requires |gaps| == |ts| + 1
  {
    if ts == [] then gaps[0] else gaps[0] + (Text(ts[0]) + Spread(ts[1..], gaps[1..]))
  }

  predicate Blanks(g: string) { forall k :: 0 <= k < |g| ==> IsSpace(g[k]) }

  /** Tokens that run together when nothing is between them: two words, and `>` before `>` or `>>`. */
  predicate RunTogether(t: Tok, u: Tok) { (t.Word? && u.Word?) || (t == Op('>') && (u == Op('>') || u == Op('+'))) }

  ghost predicate Parted(ts: seq<Tok>, gaps: seq<string>)
    requires |gaps| == |ts| + 1
  {
    && (forall i :: 0 <= i < |gaps| ==> Blanks(gaps[i]))
    && (forall i :: 0 <= i < |ts| ==> GoodTok(ts[i]))
    && (forall i :: 0 < i < |ts| && gaps[i] == "" ==> !RunTogether(ts[i - 1], ts[i]))
  }

  lemma PartedRest(ts: seq<Tok>, gaps: seq<string>)
    requires |gaps| == |ts| + 1 && Parted(ts, gaps) && ts != []
    ensures Parted(ts[1..], gaps[1..])
  {
    hide Blanks, GoodTok, RunTogether;
    forall i | 0 < i < |ts[1..]| && gaps[1..][i] == "" ensures !RunTogether(ts[1..][i - 1], ts[1..][i]) {
      assert gaps[i + 1] == "" && ts[1..][i - 1] == ts[i] && ts[1..][i] == ts[i + 1];
    }
  }

  lemma {:induction false} SkipTo(line: string, s: nat, b: nat)
    requires s <= b <= |line| && (forall k :: s <= k < b ==> IsSpace(line[k])) && (b < |line| ==> !IsSpace(line[b]))
    ensures SkipSpace(line, s) == b
    decreases b - s
  {
    if s < b {
      SkipTo(line, s + 1, b);
    }
  }

  lemma {:induction false} WordTo(line: string, s: nat, e: nat)
    requires s <= e <= |line| && (forall k :: s <= k < e ==> InWord(line[k])) && (e < |line| ==> !InWord(line[e]))
    ensures SkipWord(line, s) == e
    decreases e - s
  {
    if s < e {
      WordTo(line, s + 1, e);
    }
  }

  /** What follows token t in the line does not belong to it. */
  predicate Breaks(t: Tok, tail: string)
  {
    tail == "" || ((t.Word? ==> !InWord(tail[0])) && (t == Op('>') ==> tail[0] != '>'))
  }

  lemma TextStart(t: Tok)
    requires GoodTok(t)
    ensures Text(t) != "" && !IsSpace(Text(t)[0]) && (t.Op? ==> !InWord(Text(t)[0]))
    ensures Text(t)[0] == '>' <==> t == Op('>') || t == Op('+')
  {
  }

  lemma TailBreaks(ts: seq<Tok>, gaps: seq<string>)
    requires |gaps| == |ts| + 1 && Parted(ts, gaps) && ts != []
    ensures Breaks(ts[0], Spread(ts[1..], gaps[1..]))
  {
    var tail := Spread(ts[1..], gaps[1..]);
    if gaps[1] != "" {
      assert tail[0] == gaps[1][0] && Blanks(gaps[1]);
    } else if |ts| > 1 {
      TextStart(ts[1]);
      assert tail[0] == Text(ts[1])[0] && !RunTogether(ts[0], ts[1]);
    }
  }

  /** A token is read where it stands, as far as it goes. */
  lemma TokThere(line: string, s: nat, t: Tok, tail: string)
    requires GoodTok(t) && s <= |line| && line[s..] == Text(t) + tail && Breaks(t, tail)
    ensures s < |line| && !IsSpace(line[s]) && EraseTok(TokAt(line, s).0) == EraseTok(t)
    ensures TokAt(line, s).1 == s + |Text(t)| && line[s + |Text(t)|..] == tail
  {
    TextStart(t);
    var x := Text(t);
    var e := s + |x|;
    assert |line[s..]| == |x| + |tail|;
    forall k | s <= k < e ensures line[k] == x[k - s] {
      assert line[k] == line[s..][k - s];
    }
    assert line[e..] == line[s..][|x|..] == tail;
    assert tail != "" ==> line[e] == tail[0];
    if t.Word? {
      WordTo(line, s, e);
      assert line[s..e] == x;
    }
  }

  lemma GapSkipped(line: string, s: nat, g: string, tail: string)
    requires s <= |line| && line[s..] == g + tail && Blanks(g) && (tail != "" ==> !IsSpace(tail[0]))
    ensures s + |g| <= |line| && line[s + |g|..] == tail && Lex(line, s) == Lex(line, s + |g|)
    ensures tail == "" ==> Lex(line, s) == []
  {
    hide Lex;
    var b := s + |g|;
    assert |line[s..]| == |g| + |tail|;
    forall k | s <= k < b ensures IsSpace(line[k]) {
      assert line[k] == line[s..][k - s] == g[k - s];
    }
    assert line[b..] == line[s..][|g|..] == tail;
    assert tail != "" ==> line[b] == tail[0];
    SkipTo(line, s, b);
    LexSkips(line, s);
    if tail == "" {
      LexEnd(line, b);
    }
  }

  lemma LexEnd(line: string, b: nat)
    requires b == |line|
    ensures Lex(line, b) == []
  {
  }

  /** Whatever blanks stand between them, tokens are read back as those tokens. */
  lemma {:induction false} LexSpread(line: string, s: nat, ts: seq<Tok>, gaps: seq<string>)
    requires |gaps| == |ts| + 1 && Parted(ts, gaps) && s <= |line| && line[s..] == Spread(ts, gaps)
    ensures SameToks(Lex(line, s), ts)
    decreases |ts|
  {
    hide Lex, TokAt, Text, EraseTok, GoodTok, Blanks, RunTogether, SkipSpace, SameToks;
    assert Blanks(gaps[0]);
    if ts == [] {
      assert line[s..] == gaps[0] + "";
      GapSkipped(line, s, gaps[0], "");
      SameNone();
    } else {
      var tail := Spread(ts[1..], gaps[1..]);
      assert GoodTok(ts[0]);
      TextStart(ts[0]);
      assert (Text(ts[0]) + tail)[0] == Text(ts[0])[0];
      GapSkipped(line, s, gaps[0], Text(ts[0]) + tail);
      var b := s + |gaps[0]|;
      TailBreaks(ts, gaps);
      TokThere(line, b, ts[0], tail);
      LexHead(line, b);
      PartedRest(ts, gaps);
      LexSpread(line, b + |Text(ts[0])|, ts[1..], gaps[1..]);
      SameCons(TokAt(line, b).0, Lex(line, TokAt(line, b).1), ts);
    }
  }

  lemma SameNone()
    ensures SameToks([], [])
  {
  }

  // ----- the parser does not look at positions

  function Bare(ts: seq<Tok>): (r: seq<Tok>)
    ensures |r| == |ts| && forall i :: 0 <= i < |ts| ==> r[i] == EraseTok(ts[i])
  {
    seq(|ts|, i requires 0 <= i < |ts| => EraseTok(ts[i]))
  }

  function BareRds(rds: seq<(Arg, char)>): (r: seq<(Arg, char)>)
    ensures |r| == |rds| && forall i :: 0 <= i < |rds| ==> r[i] == (EraseArg(rds[i].0), rds[i].1)
  {
    seq(|rds|, i requires 0 <= i < |rds| => (EraseArg(rds[i].0), rds[i].1))
  }

  function BareResult(r: Result): (b: Result) { if r.Err? then Err else Ok(Erase(r.cmd), Bare(r.rest)) }

  lemma BareFrom(ts: seq<Tok>, k: nat, cs: string)
    requires k <= |ts|
    ensures Bare(ts[k..]) == Bare(ts)[k..] && Starts(Bare(ts), cs) == Starts(ts, cs)
  {
  }

  lemma {:induction false} WrapBare(c: Cmd, rds: seq<(Arg, char)>)
    ensures Erase(Wrap(c, rds)) == Wrap(Erase(c), BareRds(rds))
    decreases |rds|
  {
    if rds != [] {
      var n := |rds| - 1;
      WrapBare(c, rds[..n]);
      assert BareRds(rds)[..n] == BareRds(rds[..n]);
    }
  }

  function BareRedirs(r: Redirs): (b: Redirs)
  {
    if r.BadRedir? then BadRedir else Redirs(BareRds(r.rds), Bare(r.rest))
  }

  lemma {:induction false} RedirsBare(rds: seq<(Arg, char)>, ts: seq<Tok>)
    ensures ParseRedirs(BareRds(rds), Bare(ts)) == BareRedirs(ParseRedirs(rds, ts))
    decreases |ts|
  {
    BareFrom(ts, 0, "<>+");
    if Starts(ts, "<>+") && |ts| >= 2 && ts[1].Word? {
      BareFrom(ts, 2, "");
      var r := rds + [(ts[1].a, ts[0].c)];
      assert BareRds(r) == BareRds(rds) + [(EraseArg(ts[1].a), ts[0].c)];
      RedirsBare(r, ts[2..]);
    }
  }

  lemma {:induction false} ArgsBare(args: seq<Arg>, rds: seq<(Arg, char)>, ts: seq<Tok>)
    ensures ParseArgs(EraseArgs(args), BareRds(rds), Bare(ts)) == BareResult(ParseArgs(args, rds, ts))
    decreases |ts|
  {
    BareFrom(ts, 0, "|)&;");
    if ts == [] || Starts(ts, "|)&;") {
      WrapBare(Exec(args), rds);
    } else if ts[0].Word? && |args| + 1 < MAXARGS {
      BareFrom(ts, 1, "");
      RedirsBare(rds, ts[1..]);
      var r := ParseRedirs(rds, ts[1..]);
      if r.Redirs? {
        var a := args + [ts[0].a];
        assert EraseArgs(a) == EraseArgs(args) + [EraseArg(ts[0].a)];
        ArgsBare(a, r.rds, r.rest);
      }
    }
  }

  lemma {:induction false} ExecBare(ts: seq<Tok>)
    ensures ParseExec(Bare(ts)) == BareResult(ParseExec(ts))
    decreases |ts|, 1
  {
    hide ParseRedirs, ParseArgs, ParseBlock;
    BareFrom(ts, 0, "(");
    if Starts(ts, "(") {
      BlockBare(ts);
    } else {
      NoneBare();
      RedirsBare([], ts);
      var r := ParseRedirs([], ts);
      if r.Redirs? {
        ArgsBare([], r.rds, r.rest);
      }
    }
  }

  lemma NoneBare()
    ensures BareRds([]) == [] && EraseArgs([]) == []
  {
  }

  lemma {:induction false} BlockBare(ts: seq<Tok>)
    requires Starts(ts, "(")
    ensures Starts(Bare(ts), "(") && ParseBlock(Bare(ts)) == BareResult(ParseBlock(ts))
    decreases |ts|, 0
  {
    hide ParseLine, ParseRedirs, Wrap;
    BareFrom(ts, 1, "(");
    LineBare(ts[1..]);
    var a := ParseLine(ts[1..]);
    if a.Ok? {
      BareFrom(a.rest, 0, ")");
      if Starts(a.rest, ")") {
        BareFrom(a.rest, 1, "");
        NoneBare();
        RedirsBare([], a.rest[1..]);
        var r := ParseRedirs([], a.rest[1..]);
        if r.Redirs? {
          WrapBare(a.cmd, r.rds);
        }
      }
    }
  }

  lemma {:induction false} PipeBare(ts: seq<Tok>)
    ensures ParsePipe(Bare(ts)) == BareResult(ParsePipe(ts))
    decreases |ts|, 2
  {
    hide ParseExec;
    ExecBare(ts);
    var a := ParseExec(ts);
    if a.Ok? {
      BareFrom(a.rest, 0, "|");
      if Starts(a.rest, "|") {
        BareFrom(a.rest, 1, "");
        PipeBare(a.rest[1..]);
      }
    }
  }

  lemma {:induction false} BacksBare(c: Cmd, ts: seq<Tok>)
    ensures ParseBacks(Erase(c), Bare(ts)) == (Erase(ParseBacks(c, ts).0), Bare(ParseBacks(c, ts).1))
    decreases |ts|
  {
    BareFrom(ts, 0, "&");
    if Starts(ts, "&") {
      BareFrom(ts, 1, "");
      BacksBare(Back(c), ts[1..]);
    }
  }

  lemma {:induction false} LineBare(ts: seq<Tok>)
    ensures ParseLine(Bare(ts)) == BareResult(ParseLine(ts))
    decreases |ts|, 3
  {
    hide ParsePipe, ParseBacks;
    PipeBare(ts);
    var a := ParsePipe(ts);
    if a.Ok? {
      BacksBare(a.cmd, a.rest);
      var b := ParseBacks(a.cmd, a.rest).1;
      BareFrom(b, 0, ";");
      if Starts(b, ";") {
        BareFrom(b, 1, "");
        LineBare(b[1..]);
      }
    }
  }

  lemma SameBare(ts: seq<Tok>, us: seq<Tok>)
    requires SameToks(ts, us)
    ensures Bare(ts) == Bare(us)
  {
  }

  // ----- a whole line

  /** A line with its words and redirections, pipes, ampersands, semicolons and parentheses as they come, and any
      blanks, parses to what it means, with nothing left over. */
  lemma WrittenParses(l: Line, gaps: seq<string>)
    requires GoodLine(l) && |gaps| == |LineToks(l)| + 1 && Parted(LineToks(l), gaps)
    ensures var r := ParseLine(Lex(Spread(LineToks(l), gaps), 0));
            r.Ok? && r.rest == [] && Erase(r.cmd) == Erase(LineTree(l))
  {
    hide ParseLine, Lex, Parted, SameToks;
    var ts, text := LineToks(l), Spread(LineToks(l), gaps);
    assert text[0..] == text;
    LexSpread(text, 0, ts, gaps);
    var us := Lex(text, 0);
    SameBare(us, ts);
    LineBare(us);
    LineBare(ts);
    LineParses(l, []);
    assert ts + [] == ts;
    assert Bare([]) == [];
  }
}
