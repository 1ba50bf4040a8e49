/** The matcher of user/grep.c: match, matchhere and matchstar against the language a pattern denotes.  Strings
    are without their closing NUL. */
module Grep {

  // ----- what a pattern denotes

  /** A pattern is a sequence of single characters and starred characters. */
  datatype Item = One(c: char) | Star(c: char)

  /** '.' stands for any character. */
  predicate Hit(c: char, x: char) { c == '.' || c == x }

  /** Pattern characters in order; a '*' stars the character before it, so one in first position is itself. */
  function Items(re: string): (r: seq<Item>)
  {
    if re == "" then []
    else if |re| > 1 && re[1] == '*' then [Star(re[0])] + Items(re[2..])
    else if re == "$" then []
    else [One(re[0])] + Items(re[1..])
  }

  /** The pattern ends in a '$' that is an anchor; elsewhere '$' is itself. */
  predicate Dollar(re: string)
  {
    if re == "" then false
    else if |re| > 1 && re[1] == '*' then Dollar(re[2..])
    else if re == "$" then true
    else Dollar(re[1..])
  }

  /** A piece of text one item stands for. */
  ghost predicate Fits(it: Item, p: string)
  {
    match it
    case One(c) => |p| == 1 && Hit(c, p[0])
    case Star(c) => forall k :: 0 <= k < |p| ==> Hit(c, p[k])
  }

  function Concat(ps: seq<string>): (r: string) { if ps == [] then "" else ps[0] + Concat(ps[1..]) }

  ghost predicate Split(its: seq<Item>, ps: seq<string>)
  {
    |ps| == |its| && forall i :: 0 <= i < |ps| ==> Fits(its[i], ps[i])
  }

  /** The string w is made of pieces the items stand for, in order. */
  ghost predicate Spells(its: seq<Item>, w: string)
  {
    exists ps :: Split(its, ps) && Concat(ps) == w
  }

  /** The pattern, without a leading '^', matches at the start of the text. */
  ghost predicate Here(re: string, text: string)
  {
    exists j :: 0 <= j <= |text| && Spells(Items(re), text[..j]) && (Dollar(re) ==> j == |text|)
  }

  /** Some substring of the text is in the pattern's language, at the start if it begins with '^', at the end if it
      ends with an anchoring '$'. */
  ghost predicate Matches(re: string, text: string)
  {
    if re != "" && re[0] == '^' then Here(re[1..], text)
    else exists i :: 0 <= i <= |text| && Here(re, text[i..])
  }

  // ----- one item at a time

  lemma SpellsNone(w: string)
    ensures Spells([], w) <==> w == ""
  {
    assert Split([], []) && Concat([]) == "";
    forall ps | Split([], ps) ensures Concat(ps) == "" {
    }
  }

  lemma SpellsSome(it: Item, its: seq<Item>, w: string)
    ensures Spells([it] + its, w) <==> exists k :: 0 <= k <= |w| && Fits(it, w[..k]) && Spells(its, w[k..])
  {
    hide Fits;
    if Spells([it] + its, w) {
      SpellsFirst(it, its, w);
    }
    if exists k :: 0 <= k <= |w| && Fits(it, w[..k]) && Spells(its, w[k..]) {
      var k :| 0 <= k <= |w| && Fits(it, w[..k]) && Spells(its, w[k..]);
      SpellsMore(it, its, w, k);
    }
  }

  lemma SpellsFirst(it: Item, its: seq<Item>, w: string)
    requires Spells([it] + its, w)
    ensures exists k :: 0 <= k <= |w| && Fits(it, w[..k]) && Spells(its, w[k..])
  {
    hide Fits;
    var ps :| Split([it] + its, ps) && Concat(ps) == w;
    var k := |ps[0]|;
    assert ([it] + its)[0] == it && w[..k] == ps[0] && w[k..] == Concat(ps[1..]);
    SplitRest(it, its, ps);
  }

  lemma SplitRest(it: Item, its: seq<Item>, ps: seq<string>)
    requires Split([it] + its, ps)
    ensures Split(its, ps[1..])
  {
    hide Fits;
    forall i | 0 <= i < |ps[1..]| ensures Fits(its[i], ps[1..][i]) {
      assert ([it] + its)[i + 1] == its[i];
    }
  }

  lemma SpellsMore(it: Item, its: seq<Item>, w: string, k: nat)
    requires k <= |w| && Fits(it, w[..k]) && Spells(its, w[k..])
    ensures Spells([it] + its, w)
  {
    hide Fits;
    var qs :| Split(its, qs) && Concat(qs) == w[k..];
    var ps := [w[..k]] + qs;
    assert ps[1..] == qs && w == w[..k] + w[k..];
    assert Split([it] + its, ps) && Concat(ps) == w;
  }

  // ----- matchhere, case by case

  lemma HereEmpty(text: string)
    ensures Here("", text)
  {
    SpellsNone(text[..0]);
    assert Spells(Items(""), text[..0]);
  }

  lemma HereDollar(text: string)
    ensures Here("$", text) <==> text == ""
  {
    forall j | 0 <= j <= |text| ensures Spells([], text[..j]) <==> j == 0 {
      SpellsNone(text[..j]);
    }
    assert Items("$") == [] && Dollar("$");
    assert text == "" ==> Spells(Items("$"), text[..0]);
  }

  lemma OneUnfolds(re: string)
    requires re != "" && !(|re| > 1 && re[1] == '*') && re != "$"
    ensures Items(re) == [One(re[0])] + Items(re[1..]) && Dollar(re) == Dollar(re[1..])
  {
  }

  lemma StarUnfolds(re: string)
    requires |re| > 1 && re[1] == '*'
    ensures Items(re) == [Star(re[0])] + Items(re[2..]) && Dollar(re) == Dollar(re[2..])
  {
  }

  lemma HereOne(re: string, text: string)
    requires re != "" && !(|re| > 1 && re[1] == '*') && re != "$"
    ensures Here(re, text) <==> text != "" && Hit(re[0], text[0]) && Here(re[1..], text[1..])
  {
    hide Items, Dollar, Spells;
    OneUnfolds(re);
    var its := Items(re[1..]);
    if Here(re, text) {
      var j :| 0 <= j <= |text| && Spells(Items(re), text[..j]) && (Dollar(re) ==> j == |text|);
      SpellsSome(One(re[0]), its, text[..j]);
      var k :| 0 <= k <= |text[..j]| && Fits(One(re[0]), text[..j][..k]) && Spells(its, text[..j][k..]);
      assert k == 1 && text[..j][1..] == text[1..][..j - 1];
    }
    if text != "" && Hit(re[0], text[0]) && Here(re[1..], text[1..]) {
      var j :| 0 <= j <= |text[1..]| && Spells(its, text[1..][..j]) && (Dollar(re[1..]) ==> j == |text[1..]|);
      var w := text[..j + 1];
      assert w[1..] == text[1..][..j] && Fits(One(re[0]), w[..1]);
      SpellsSome(One(re[0]), its, w);
    }
  }

  /** matchstar's question: some characters c, then the rest of the pattern. */
  ghost predicate StarHere(c: char, re: string, text: string)
  {
    exists k :: 0 <= k <= |text| && Fits(Star(c), text[..k]) && Here(re, text[k..])
  }

  lemma HereStar(re: string, text: string)
    requires |re| > 1 && re[1] == '*'
    ensures Here(re, text) <==> StarHere(re[0], re[2..], text)
  {
    hide Items, Dollar, Spells;
    StarUnfolds(re);
    var c, rest, its := re[0], re[2..], Items(re[2..]);
    if Here(re, text) {
      var j :| 0 <= j <= |text| && Spells(Items(re), text[..j]) && (Dollar(re) ==> j == |text|);
      SpellsSome(Star(c), its, text[..j]);
      var k :| 0 <= k <= |text[..j]| && Fits(Star(c), text[..j][..k]) && Spells(its, text[..j][k..]);
      assert text[..j][..k] == text[..k] && text[..j][k..] == text[k..][..j - k];
    }
    if StarHere(c, rest, text) {
      var k :| 0 <= k <= |text| && Fits(Star(c), text[..k]) && Here(rest, text[k..]);
      var j :| 0 <= j <= |text[k..]| && Spells(its, text[k..][..j]) && (Dollar(rest) ==> j == |text[k..]|);
      var w := text[..k + j];
      assert w[..k] == text[..k] && w[k..] == text[k..][..j];
      SpellsSome(Star(c), its, w);
    }
  }

  lemma StarStep(c: char, re: string, text: string)
    ensures StarHere(c, re, text) <==> Here(re, text) || (text != "" && Hit(c, text[0]) && StarHere(c, re, text[1..]))
  {
    hide Here;
    assert text[0..] == text && Fits(Star(c), text[..0]);
    if StarHere(c, re, text) {
      StarFirst(c, re, text);
    }
    if text != "" && Hit(c, text[0]) && StarHere(c, re, text[1..]) {
      StarMore(c, re, text);
    }
  }

  lemma StarFirst(c: char, re: string, text: string)
    requires StarHere(c, re, text)
    ensures Here(re, text) || (text != "" && Hit(c, text[0]) && StarHere(c, re, text[1..]))
  {
    hide Here;
    var k :| 0 <= k <= |text| && Fits(Star(c), text[..k]) && Here(re, text[k..]);
    if k == 0 {
      assert text[0..] == text;
    } else {
      assert text[..k][0] == text[0] && text[1..][..k - 1] == text[..k][1..] && text[1..][k - 1..] == text[k..];
      assert Fits(Star(c), text[1..][..k - 1]);
    }
  }

  lemma StarMore(c: char, re: string, text: string)
    requires text != "" && Hit(c, text[0]) && StarHere(c, re, text[1..])
    ensures StarHere(c, re, text)
  {
    hide Here;
    var k :| 0 <= k <= |text[1..]| && Fits(Star(c), text[1..][..k]) && Here(re, text[1..][k..]);
    assert text[..k + 1] == [text[0]] + text[1..][..k] && text[k + 1..] == text[1..][k..];
  }

  // ----- what a pattern means, without its items

  /** A pattern without '*' that does not end in '$'. */
  ghost predicate Plain(re: string)
  {
    (forall k :: 0 <= k < |re| ==> re[k] != '*') && (re != "" ==> re[|re| - 1] != '$')
  }

  /** The text begins like the pattern, character for character, with '.' for any. */
  ghost predicate Alike(re: string, text: string)
  {
    |re| <= |text| && forall k :: 0 <= k < |re| ==> re[k] == '.' || re[k] == text[k]
  }

  lemma {:induction false} PlainHere(re: string, text: string)
    requires Plain(re)
    ensures Here(re, text) <==> Alike(re, text)
    decreases |re|
  {
    hide Here;
    if re == "" {
      HereEmpty(text);
    } else {
      HereOne(re, text);
      if text != "" {
        PlainHere(re[1..], text[1..]);
        AlikeFirst(re, text);
      }
    }
  }

  lemma AlikeFirst(re: string, text: string)
    requires re != "" && text != ""
    ensures Alike(re, text) <==> (re[0] == '.' || re[0] == text[0]) && Alike(re[1..], text[1..])
  {
    if (re[0] == '.' || re[0] == text[0]) && Alike(re[1..], text[1..]) {
      forall k | 0 <= k < |re| ensures re[k] == '.' || re[k] == text[k] {
        assert k > 0 ==> re[1..][k - 1] == re[k] && text[1..][k - 1] == text[k];
      }
    }
    if Alike(re, text) {
      forall k | 0 <= k < |re[1..]| ensures re[1..][k] == '.' || re[1..][k] == text[1..][k] {
        assert re[1..][k] == re[k + 1] && text[1..][k] == text[k + 1];
      }
    }
  }

  lemma {:induction false} PlainEnd(re: string, text: string)
    requires Plain(re)
    ensures Here(re + "$", text) <==> |text| == |re| && Alike(re, text)
    decreases |re|
  {
    hide Here;
    if re == "" {
      assert re + "$" == "$";
      HereDollar(text);
    } else {
      HereOne(re + "$", text);
      assert (re + "$")[1..] == re[1..] + "$";
      if text != "" {
        PlainEnd(re[1..], text[1..]);
        AlikeFirst(re, text);
      }
    }
  }

  /** A plain pattern matches exactly where it occurs in the text: anywhere, at the start, at the end, or as the whole
      of it, as '^' and '$' say. */
  lemma PlainMatches(re: string, text: string)
    requires Plain(re)
    ensures re == "" || re[0] != '^' ==> (Matches(re, text) <==> exists i :: 0 <= i <= |text| && Alike(re, text[i..]))
    ensures re == "" || re[0] != '^' ==>
              (Matches(re + "$", text) <==> |re| <= |text| && Alike(re, text[|text| - |re|..]))
    ensures Matches("^" + re, text) <==> Alike(re, text)
    ensures Matches("^" + re + "$", text) <==> |text| == |re| && Alike(re, text)
  {
    hide Here, Alike;
    forall i | 0 <= i <= |text| ensures Here(re, text[i..]) <==> Alike(re, text[i..]) {
      PlainHere(re, text[i..]);
    }
    forall i | 0 <= i <= |text| ensures Here(re + "$", text[i..]) <==> |text| - i == |re| && Alike(re, text[i..]) {
      PlainEnd(re, text[i..]);
    }
    assert ("^" + re)[1..] == re && ("^" + re + "$")[1..] == re + "$";
    PlainHere(re, text);
    PlainEnd(re, text);
    if |re| <= |text| {
      assert 0 <= |text| - |re| <= |text|;
    }
  }

  /** A starred character stands for any number of it, none included. */
  lemma StarredMatches(c: char, text: string)
    ensures Matches(['^', c, '*', '$'], text) <==> forall k :: 0 <= k < |text| ==> c == '.' || c == text[k]
  {
    hide Here;
    var re := [c, '*', '$'];
    assert ['^', c, '*', '$'][1..] == re && re[2..] == "$";
    HereStar(re, text);
    forall k | 0 <= k <= |text| ensures Here("$", text[k..]) <==> k == |text| {
      HereDollar(text[k..]);
    }
    assert text[..|text|] == text;
  }

  // ----- the code

  method MatchHere(re: string, text: string) returns (r: bool)
    ensures r <==> Here(re, text)
    decreases |re|, 0, |text|
  {
    hide Here, StarHere;
    if re == "" {
      HereEmpty(text);
      return true;
    }
    if |re| > 1 && re[1] == '*' {
      HereStar(re, text);
      r := MatchStar(re[0], re[2..], text);
      return;
    }
    if re[0] == '$' && |re| == 1 {
      assert re == "$";
      HereDollar(text);
      return text == "";
    }
    HereOne(re, text);
    if text != "" && (re[0] == '.' || re[0] == text[0]) {
      r := MatchHere(re[1..], text[1..]);
      return;
    }
    r := false;
  }

  method MatchStar(c: char, re: string, text: string) returns (r: bool)
    ensures r <==> StarHere(c, re, text)
    decreases |re|, 1, |text|
  {
    hide Here, StarHere;
    var t := text;
    while true
      invariant StarHere(c, re, text) <==> StarHere(c, re, t)
      decreases |t|
    {
      StarStep(c, re, t);
      var here := MatchHere(re, t);
      if here {
        return true;
      }
      if !(t != "" && (t[0] == c || c == '.')) {
        return false;
      }
      t := t[1..];
    }
  }

  method Match(re: string, text: string) returns (r: bool)
    ensures r <==> Matches(re, text)
  {
    hide Here;
    if re != "" && re[0] == '^' {
      r := MatchHere(re[1..], text);
      return;
    }
    var i := 0;
    while true
      invariant 0 <= i <= |text| && forall k :: 0 <= k < i ==> !Here(re, text[k..])
      decreases |text| - i
    {
      var here := MatchHere(re, text[i..]);
      if here {
        return true;
      }
      if i == |text| {
        return false;
      }
      i := i + 1;
    }
  }
}
