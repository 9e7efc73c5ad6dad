/**
 The regular-expression matcher of user/grep.c against the languages it stands for.
 Strings are C strings: sequences without NUL, ended by one.
 */
module Grep {

  const NUL: char := '\0'

  predicate IsCString(s: string) {
    NUL !in s
  }

  /** s[i] of a C string, the terminator included. */
  function Char(s: string, i: nat): char {
    if i < |s| then s[i] else NUL
  }

  // ------------------------------------------------------------------
  // What a pattern means

  /** A character or '.', and such a thing starred. */
  datatype Item = One(c: char) | Star(c: char)

  /** Items in a row, and whether they must reach the end of the text. */
  datatype Pattern = Pattern(items: seq<Item>, end: bool)

  function Parse(re: string): Pattern
    decreases |re|
  {
    if re == "" then Pattern([], false)
    else if Char(re, 1) == '*' then
      var p := Parse(re[2..]);
      p.(items := [Star(re[0])] + p.items)
    else if re == "$" then Pattern([], true)
    else
      var p := Parse(re[1..]);
      p.(items := [One(re[0])] + p.items)
  }

  /** A pattern written out. */
  function Written(p: Pattern): string
    decreases |p.items|
  {
    if p.items == [] then if p.end then "$" else ""
    else
      var rest := Written(p.(items := p.items[1..]));
      match p.items[0]
      case One(c) => [c] + rest
      case Star(c) => [c, '*'] + rest
  }

  /** A character is not taken for a starred one, nor a last '$' for the end of the text. */
  predicate Plain(p: Pattern)
    decreases |p.items|
  {
    p.items != [] ==>
      var rest := p.(items := p.items[1..]);
      && Plain(rest)
      && (p.items[0].One? ==> Char(Written(rest), 0) != '*' && (p.items[0].c == '$' ==> Written(rest) != ""))
  }

  /** Every string is the pattern that it is parsed into, written out, and such a pattern is plain. */
  lemma {:induction false} ParseWritten(re: string)
    ensures Written(Parse(re)) == re && Plain(Parse(re))
    decreases |re|
  {
    if re != "" {
      var p := Parse(re);
      if Char(re, 1) == '*' {
        ParseWritten(re[2..]);
        assert p.items[1..] == Parse(re[2..]).items && re == [re[0], '*'] + re[2..];
      } else if re != "$" {
        ParseWritten(re[1..]);
        assert p.items[1..] == Parse(re[1..]).items && re == [re[0]] + re[1..];
      }
    }
  }

  /** A pattern written out is parsed back exactly if it is plain. */
  lemma {:induction false} WrittenParses(p: Pattern)
    ensures Parse(Written(p)) == p <==> Plain(p)
    decreases |p.items|
  {
    ParseWritten(Written(p));
    if Plain(p) && p.items != [] {
      var rest, re := p.(items := p.items[1..]), Written(p);
      WrittenParses(rest);
      assert p.items == [p.items[0]] + rest.items;
      match p.items[0]
      case One(c) =>
        assert re == [c] + Written(rest) && re[1..] == Written(rest) && Char(re, 1) == Char(Written(rest), 0);
        assert |re| == 1 ==> Written(rest) == "";
        assert re[0] == c;
        assert Parse(re).items == [One(c)] + Parse(re[1..]).items;
      case Star(c) => assert re[2..] == Written(rest);
    }
  }

  predicate Fits(c: char, x: char) {
    c == '.' || c == x
  }

  predicate AllFit(c: char, w: string) {
    forall i :: 0 <= i < |w| ==> Fits(c, w[i])
  }

  predicate InItem(it: Item, w: string) {
    match it
    case One(c) => |w| == 1 && Fits(c, w[0])
    case Star(c) => AllFit(c, w)
  }

  function Join(parts: seq<string>): string {
    if parts == [] then "" else parts[0] + Join(parts[1..])
  }

  ghost predicate Cuts(items: seq<Item>, w: string, parts: seq<string>) {
    |parts| == |items| && Join(parts) == w && forall i :: 0 <= i < |items| ==> InItem(items[i], parts[i])
  }

  /** w is in the language of items: it can be cut into parts, one from each item's language. */
  ghost predicate Belongs(items: seq<Item>, w: string) {
    exists parts: seq<string> :: Cuts(items, w, parts)
  }

  /** Some prefix of text belongs to the pattern; all of it, if anchored at the end. */
  ghost predicate Here(p: Pattern, text: string) {
    exists k :: 0 <= k <= |text| && Belongs(p.items, text[..k]) && (p.end ==> k == |text|)
  }

  /** Some substring of text does; one at the start, if the pattern begins with '^'. */
  ghost predicate Meaning(re: string, text: string) {
    if Char(re, 0) == '^' then Here(Parse(re[1..]), text)
    else exists j :: 0 <= j <= |text| && Here(Parse(re), text[j..])
  }

  // ------------------------------------------------------------------
  // The language, one item at a time

  lemma BelongsNone(w: string)
    ensures Belongs([], w) <==> w == ""
  {
    if w == "" {
      assert Cuts([], w, []);
    }
  }

  lemma BelongsFirst(items: seq<Item>, w: string)
    requires items != []
    ensures Belongs(items, w) <==> exists m :: 0 <= m <= |w| && InItem(items[0], w[..m]) && Belongs(items[1..], w[m..])
  {
    if Belongs(items, w) {
      var parts :| Cuts(items, w, parts);
      var m := |parts[0]|;
      assert w[..m] == parts[0] && w[m..] == Join(parts[1..]);
      assert Cuts(items[1..], w[m..], parts[1..]);
    }
    if m :| 0 <= m <= |w| && InItem(items[0], w[..m]) && Belongs(items[1..], w[m..]) {
      var rest :| Cuts(items[1..], w[m..], rest);
      var parts := [w[..m]] + rest;
      assert parts[1..] == rest && w[..m] + w[m..] == w;
      forall i | 0 <= i < |items| ensures InItem(items[i], parts[i]) {
        assert i > 0 ==> items[i] == items[1..][i - 1] && parts[i] == rest[i - 1];
      }
      assert Cuts(items, w, parts);
    }
  }

  lemma HereNone(end: bool, text: string)
    ensures Here(Pattern([], end), text) <==> !end || text == ""
  {
    hide Belongs;
    var p := Pattern([], end);
    forall k | 0 <= k <= |text| ensures Belongs(p.items, text[..k]) <==> k == 0 {
      BelongsNone(text[..k]);
    }
    assert Belongs(p.items, text[..0]);
  }

  /** A pattern matches here when its first item takes a prefix and the rest matches after it. */
  lemma HereFirst(p: Pattern, text: string)
    requires p.items != []
    ensures Here(p, text) <==>
            exists m :: 0 <= m <= |text| && InItem(p.items[0], text[..m]) && Here(p.(items := p.items[1..]), text[m..])
  {
    var q := p.(items := p.items[1..]);
    if Here(p, text) {
      var k :| 0 <= k <= |text| && Belongs(p.items, text[..k]) && (p.end ==> k == |text|);
      BelongsFirst(p.items, text[..k]);
      var m :| 0 <= m <= k && InItem(p.items[0], text[..k][..m]) && Belongs(q.items, text[..k][m..]);
      HereSplit(q, text, m, k);
    }
    if m :| 0 <= m <= |text| && InItem(p.items[0], text[..m]) && Here(q, text[m..]) {
      HereJoin(p, text, m);
    }
  }

  lemma HereSplit(q: Pattern, text: string, m: nat, k: nat)
    requires m <= k <= |text| && Belongs(q.items, text[..k][m..]) && (q.end ==> k == |text|)
    ensures text[..k][..m] == text[..m] && Here(q, text[m..])
  {
    assert text[m..][..k - m] == text[..k][m..];
  }

  lemma HereJoin(p: Pattern, text: string, m: nat)
    requires p.items != [] && m <= |text| && InItem(p.items[0], text[..m]) && Here(p.(items := p.items[1..]), text[m..])
    ensures Here(p, text)
  {
    var rest := text[m..];
    var k :| 0 <= k <= |rest| && Belongs(p.items[1..], rest[..k]) && (p.end ==> k == |rest|);
    var w := text[..m + k];
    assert w[..m] == text[..m] && w[m..] == rest[..k];
    BelongsFirst(p.items, w);
  }

  lemma HereOne(p: Pattern, text: string)
    requires p.items != [] && p.items[0].One?
    ensures Here(p, text) <==> text != "" && Fits(p.items[0].c, text[0]) && Here(p.(items := p.items[1..]), text[1..])
  {
    HereFirst(p, text);
    if text != "" {
      assert text[..1] == [text[0]];
    }
  }

  // ------------------------------------------------------------------
  // The matcher

  /** c* took m characters and the rest of the pattern matches after them. */
  ghost predicate StarAt(c: char, re: string, text: string, m: nat) {
    m <= |text| && AllFit(c, text[..m]) && Here(Parse(re), text[m..])
  }

  /** matchhere. */
  method MatchHere(re: string, text: string) returns (r: bool)
    requires IsCString(re) && IsCString(text)
    ensures r <==> Here(Parse(re), text)
    decreases |re|, 0
  {
    hide Here;
    if Char(re, 0) == NUL {
      HereNone(false, text);
      return true;
    }
    if Char(re, 1) == '*' {
      r := MatchStar(re[0], re[2..], text);
      HereFirst(Parse(re), text);
      StarMeans(re, text);
      return;
    }
    if re[0] == '$' && Char(re, 1) == NUL {
      assert re == "$";
      HereNone(true, text);
      return Char(text, 0) == NUL;
    }
    HereOne(Parse(re), text);
    if Char(text, 0) != NUL && (re[0] == '.' || re[0] == text[0]) {
      r := MatchHere(re[1..], text[1..]);
      return;
    }
    r := false;
  }

  lemma StarMeans(re: string, text: string)
    requires re != "" && Char(re, 1) == '*'
    ensures Here(Parse(re), text) <==> exists m: nat :: StarAt(re[0], re[2..], text, m)
  {
    var p, q := Parse(re), Parse(re[2..]);
    assert p.items[1..] == q.items && p.(items := p.items[1..]) == q;
    HereFirst(p, text);
    hide Here;
    if Here(p, text) {
      var m :| 0 <= m <= |text| && InItem(p.items[0], text[..m]) && Here(q, text[m..]);
      assert StarAt(re[0], re[2..], text, m);
    }
    if m: nat :| StarAt(re[0], re[2..], text, m) {
      assert InItem(p.items[0], text[..m]);
    }
  }

  /** matchstar: the loop tries every number of characters that c* can take. */
  method MatchStar(c: char, re: string, text: string) returns (r: bool)
    requires IsCString(re) && IsCString(text)
    ensures r <==> exists m: nat :: StarAt(c, re, text, m)
    decreases |re|, 1
  {
    hide Here;
    var t := 0;
    while true
      invariant 0 <= t <= |text| && AllFit(c, text[..t])
      invariant forall m: nat :: m < t ==> !StarAt(c, re, text, m)
      decreases |text| - t
    {
      var here := MatchHere(re, text[t..]);
      if here {
        assert StarAt(c, re, text, t);
        return true;
      }
      assert !StarAt(c, re, text, t);
      if t == |text| || !(text[t] == c || c == '.') {
        break;
      }
      assert text[..t + 1] == text[..t] + [text[t]];
      t := t + 1;
    }
    forall m: nat ensures !StarAt(c, re, text, m) {
      if t < m <= |text| {
        assert text[..m][t] == text[t];
      }
    }
    r := false;
  }

  /** match: true exactly when the text has a substring the pattern means. */
  method Match(re: string, text: string) returns (r: bool)
    requires IsCString(re) && IsCString(text)
    ensures r <==> Meaning(re, text)
  {
    hide Here, Parse;
    if Char(re, 0) == '^' {
      r := MatchHere(re[1..], text);
      return;
    }
    var t := 0;
    while true
      invariant 0 <= t <= |text|
      invariant forall j :: 0 <= j < t ==> !Here(Parse(re), text[j..])
      decreases |text| - t
    {
      var here := MatchHere(re, text[t..]);
      if here {
        return true;
      }
      if t == |text| {
        break;
      }
      t := t + 1;
    }
    r := false;
  }
}
