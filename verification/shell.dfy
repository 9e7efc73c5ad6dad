/**
 The shell's parser (user/sh.c).  A line is a C string; a word is a maximal run of
 characters that are neither white space nor symbols, recorded by its start and its end.
 */
module Shell {
  import opened Sets
  import opened ShellGrammar
  import opened ShellMeaning

  const NUL: char := '\0'

  predicate White(c: char) {
    c == ' ' || c == '\t' || c == '\r' || c == '\n' || c == '\U{0B}'
  }

  predicate Symbol(c: char) {
    c == '<' || c == '|' || c == '>' || c == '&' || c == ';' || c == '(' || c == ')'
  }

  predicate WordChar(c: char) {
    !White(c) && !Symbol(c)
  }

  /** The line's characters, and the terminator after them. */
  function Char(s: string, i: nat): char {
    if i < |s| then s[i] else NUL
  }

  // ------------------------------------------------------------------
  // The words of a line

  ghost predicate AllWord(s: string, i: nat, j: nat) {
    forall k :: i <= k < j && k < |s| ==> WordChar(s[k])
  }

  ghost predicate NoWord(s: string, i: nat, j: nat) {
    forall k :: i <= k < j && k < |s| ==> !WordChar(s[k])
  }

  /** [t.q, t.e) is a word of s. */
  ghost predicate IsWord(s: string, t: Tok) {
    && t.q < t.e <= |s| && AllWord(s, t.q, t.e)
    && (t.q > 0 ==> !WordChar(s[t.q - 1])) && (t.e < |s| ==> !WordChar(s[t.e]))
  }

  /** The words of s between i and j. */
  ghost function WordsIn(s: string, i: nat, j: nat): set<Tok> {
    set q: nat, e: nat | i <= q < j && q < e <= j && IsWord(s, Tok(q, e)) :: Tok(q, e)
  }

  /** No word crosses i. */
  ghost predicate Boundary(s: string, i: nat) {
    i <= |s| && (0 < i < |s| ==> !(WordChar(s[i - 1]) && WordChar(s[i])))
  }

  lemma WordsAt(s: string, i: nat, j: nat)
    ensures forall t: Tok :: t in WordsIn(s, i, j) <==> i <= t.q && t.e <= j && IsWord(s, t)
  {
    forall t: Tok | i <= t.q && t.e <= j && IsWord(s, t) ensures t in WordsIn(s, i, j) {
      assert t == Tok(t.q, t.e);
    }
  }

  /** Cutting a line between words cuts its words. */
  lemma WordsSplit(s: string, i: nat, j: nat, k: nat)
    requires i <= j <= k && Boundary(s, j)
    ensures multiset(WordsIn(s, i, j)) + multiset(WordsIn(s, j, k)) == multiset(WordsIn(s, i, k))
  {
    WordsAt(s, i, j);
    WordsAt(s, j, k);
    WordsAt(s, i, k);
    forall t: Tok | IsWord(s, t) && i <= t.q && t.e <= k ensures t.e <= j || j <= t.q {
    }
    hide WordsIn, IsWord;
    assert WordsIn(s, i, j) !! WordsIn(s, j, k) by {
      Nonempty(s, i, j);
    }
    assert WordsIn(s, i, j) + WordsIn(s, j, k) == WordsIn(s, i, k);
  }

  lemma Nonempty(s: string, i: nat, j: nat)
    ensures forall t: Tok :: t in WordsIn(s, i, j) ==> t.q < t.e
  {
  }

  /** White space and symbols hold no words. */
  lemma WordsNone(s: string, i: nat, j: nat)
    requires NoWord(s, i, j) && j <= |s|
    ensures WordsIn(s, i, j) == {}
  {
    WordsAt(s, i, j);
    forall t: Tok | t in WordsIn(s, i, j) ensures false {
      WordEnds(s, t);
    }
  }

  lemma WordEnds(s: string, t: Tok)
    requires IsWord(s, t)
    ensures WordChar(s[t.q]) && WordChar(s[t.e - 1])
  {
  }

  /** m is exactly the words of s between i and j, which cut no word. */
  ghost predicate Covers(s: string, i: nat, j: nat, m: multiset<Tok>) {
    i <= j <= |s| && Boundary(s, i) && Boundary(s, j) && m == multiset(WordsIn(s, i, j))
  }

  // ------------------------------------------------------------------
  // The tokens of a line

  function SkipFrom(s: string, i: nat): (j: nat)
    requires i <= |s|
    ensures i <= j <= |s|
    decreases |s| - i
  {
    if i < |s| && White(s[i]) then SkipFrom(s, i + 1) else i
  }

  function WordEnd(s: string, i: nat): (j: nat)
    requires i <= |s|
    ensures i <= j <= |s| && (i < |s| && WordChar(s[i]) ==> i < j)
    decreases |s| - i
  {
    if i < |s| && WordChar(s[i]) then WordEnd(s, i + 1) else i
  }

  /** The token that starts at q, and where it ends. */
  function TokenAt(s: string, q: nat): (r: (Token, nat))
    requires q < |s| && !White(s[q])
    ensures q < r.1 <= |s|
  {
    if s[q] == '>' && Char(s, q + 1) == '>' then (Sym('+'), q + 2)
    else if Symbol(s[q]) then (Sym(s[q]), q + 1)
    else (Word(Tok(q, WordEnd(s, q))), WordEnd(s, q))
  }

  /** All tokens from i on. */
  function Scan(s: string, i: nat): seq<Token>
    requires i <= |s|
    decreases |s| - i
  {
    var q := SkipFrom(s, i);
    if q == |s| then []
    else
      SkipStops(s, i);
      var r := TokenAt(s, q);
      [r.0] + Scan(s, r.1)
  }

  lemma SkipStops(s: string, i: nat)
    requires i <= |s|
    ensures SkipFrom(s, i) < |s| ==> !White(s[SkipFrom(s, i)])
    decreases |s| - i
  {
    if i < |s| && White(s[i]) {
      SkipStops(s, i + 1);
    }
  }

  lemma {:induction false} SkipIs(s: string, i: nat, j: nat)
    requires i <= j <= |s| && (forall k :: i <= k < j ==> White(s[k])) && !White(Char(s, j))
    ensures SkipFrom(s, i) == j
    decreases j - i
  {
    if i < j {
      SkipIs(s, i + 1, j);
    }
  }

  lemma {:induction false} WordEndIs(s: string, i: nat, j: nat)
    requires i <= j <= |s| && (forall k :: i <= k < j ==> WordChar(s[k])) && (j < |s| ==> !WordChar(s[j]))
    ensures WordEnd(s, i) == j
    decreases j - i
  {
    if i < j {
      WordEndIs(s, i + 1, j);
    }
  }

  lemma ScanWhite(s: string, i: nat, j: nat)
    requires i <= j <= |s| && SkipFrom(s, i) == j
    ensures Scan(s, j) == Scan(s, i)
  {
    SkipStops(s, i);
    assert SkipFrom(s, j) == j;
  }

  lemma TokenWords(s: string, i: nat, t: Tok, j: nat, word: bool)
    requires i <= t.q <= t.e <= j <= |s| && Boundary(s, i) && NoWord(s, i, t.q) && NoWord(s, t.e, j)
    requires Boundary(s, j) && if word then IsWord(s, t) else NoWord(s, t.q, t.e)
    ensures Covers(s, i, j, if word then multiset{t} else multiset{})
  {
    WordsAt(s, i, j);
    if word {
      forall u | u in WordsIn(s, i, j) ensures u == t {
        OneWord(s, i, t, j, u);
      }
      assert t in WordsIn(s, i, j);
    } else {
      WordsNone(s, i, j);
    }
  }

  lemma OneWord(s: string, i: nat, t: Tok, j: nat, u: Tok)
    requires i <= t.q <= t.e <= j <= |s| && NoWord(s, i, t.q) && NoWord(s, t.e, j) && IsWord(s, t)
    requires IsWord(s, u) && i <= u.q && u.e <= j
    ensures u == t
  {
    WordEnds(s, u);
    assert t.q <= u.q && u.e <= t.e;
  }

  /** How a token is spelled. */
  function Spelling(s: string, t: Token): string {
    match t
    case Word(w) => if w.q <= w.e <= |s| then s[w.q..w.e] else ""
    case Sym(c) => if c == '+' then ">>" else [c]
  }

  function Spelled(s: string, ts: seq<Token>): string {
    if ts == [] then "" else Spelling(s, ts[0]) + Spelled(s, ts[1..])
  }

  /** s without white space. */
  function Unspaced(s: string): string {
    if s == "" then "" else if White(s[0]) then Unspaced(s[1..]) else [s[0]] + Unspaced(s[1..])
  }

  lemma {:induction false} UnspacedJoin(a: string, b: string)
    ensures Unspaced(a + b) == Unspaced(a) + Unspaced(b)
    decreases |a|
  {
    if a == "" {
      assert a + b == b;
    } else {
      assert (a + b)[1..] == a[1..] + b;
      UnspacedJoin(a[1..], b);
    }
  }

  lemma {:induction false} UnspacedSame(a: string)
    requires forall k :: 0 <= k < |a| ==> !White(a[k])
    ensures Unspaced(a) == a
    decreases |a|
  {
    if a != "" {
      UnspacedSame(a[1..]);
    }
  }

  lemma {:induction false} SkipUnspaced(s: string, i: nat)
    requires i <= |s|
    ensures Unspaced(s[i..]) == Unspaced(s[SkipFrom(s, i)..])
    decreases |s| - i
  {
    if i < |s| && White(s[i]) {
      assert s[i..][1..] == s[i + 1..];
      SkipUnspaced(s, i + 1);
    }
  }

  /** A token stands for the characters it was read from, and ">>" is read as one. */
  lemma TokenSpells(s: string, q: nat)
    requires q < |s| && !White(s[q])
    ensures var (t, e) := TokenAt(s, q);
            && Spelling(s, t) == s[q..e] && (forall k :: q <= k < e ==> !White(s[k]))
            && (t == Sym('>') ==> Char(s, e) != '>')
  {
    WordEndStops(s, q);
  }

  /** The tokens spell the line, but for its white space. */
  lemma {:induction false} ScanSpells(s: string, i: nat)
    requires i <= |s|
    ensures Spelled(s, Scan(s, i)) == Unspaced(s[i..])
    decreases |s| - i
  {
    hide SkipFrom, TokenAt, Spelling;
    var q := SkipFrom(s, i);
    SkipUnspaced(s, i);
    SkipStops(s, i);
    if q < |s| {
      var (t, e) := TokenAt(s, q);
      TokenSpells(s, q);
      UnspacedSame(s[q..e]);
      UnspacedJoin(s[q..e], s[e..]);
      assert s[q..] == s[q..e] + s[e..];
      ScanSpells(s, e);
      assert ([t] + Scan(s, e))[1..] == Scan(s, e);
    }
  }

  lemma {:induction false} SkipNoWord(s: string, i: nat)
    requires i <= |s|
    ensures NoWord(s, i, SkipFrom(s, i)) && (Boundary(s, i) ==> Boundary(s, SkipFrom(s, i)))
    decreases |s| - i
  {
    if i < |s| && White(s[i]) {
      SkipNoWord(s, i + 1);
    }
  }

  lemma {:induction false} WordEndStops(s: string, i: nat)
    requires i <= |s|
    ensures AllWord(s, i, WordEnd(s, i)) && (WordEnd(s, i) < |s| ==> !WordChar(s[WordEnd(s, i)]))
    decreases |s| - i
  {
    if i < |s| && WordChar(s[i]) {
      WordEndStops(s, i + 1);
    }
  }

  /** A token is a word of the line, or holds no word. */
  lemma TokenWord(s: string, q: nat)
    requires q < |s| && !White(s[q]) && Boundary(s, q)
    ensures var (tok, e) := TokenAt(s, q);
            Boundary(s, e) && if tok.Word? then tok.t == Tok(q, e) && IsWord(s, tok.t) else NoWord(s, q, e)
  {
    WordEndStops(s, q);
  }

  /** The words among the tokens are exactly the words of the line, each once. */
  lemma {:induction false} ScanWords(s: string, i: nat)
    requires i <= |s| && Boundary(s, i)
    ensures WordsOf(Scan(s, i)) == multiset(WordsIn(s, i, |s|))
    decreases |s| - i
  {
    hide Boundary, IsWord, NoWord, WordsIn, SkipFrom, TokenAt, WordsOf;
    var q := SkipFrom(s, i);
    SkipNoWord(s, i);
    SkipStops(s, i);
    if q == |s| {
      WordsNone(s, i, q);
      WordsOfNone();
    } else {
      var (tok, e) := TokenAt(s, q);
      TokenWord(s, q);
      NoWordNone(s, e);
      TokenWords(s, i, Tok(q, e), e, tok.Word?);
      ScanWords(s, e);
      WordsSplit(s, i, e, |s|);
      WordsOfFirst(tok, Scan(s, e));
    }
  }

  lemma NoWordNone(s: string, i: nat)
    ensures NoWord(s, i, i)
  {
  }

  lemma WordsOfFirst(tok: Token, ts: seq<Token>)
    ensures WordsOf([tok] + ts) == (if tok.Word? then multiset{tok.t} else multiset{}) + WordsOf(ts)
  {
    assert ([tok] + ts)[1..] == ts;
  }

  // ------------------------------------------------------------------
  // peek and gettoken

  /** A line the parser can be given. */
  predicate CString(s: string) {
    NUL !in s
  }

  /** The loop that both gettoken and peek skip white space with. */
  method SkipWhite(s: string, i: nat) returns (j: nat)
    requires i <= |s|
    ensures i <= j <= |s| && (forall k :: i <= k < j ==> White(s[k])) && !White(Char(s, j))
    ensures j == SkipFrom(s, i)
  {
    j := i;
    while j < |s| && White(s[j])
      invariant i <= j <= |s| && forall k :: i <= k < j ==> White(s[k])
    {
      j := j + 1;
    }
    SkipIs(s, i, j);
  }

  /** peek: the first character of the next token, and no token consumed. */
  method Peek(s: string, i: nat, toks: string) returns (r: bool, j: nat)
    requires CString(s) && i <= |s|
    ensures i <= j <= |s| && !White(Char(s, j)) && Scan(s, j) == Scan(s, i)
    ensures r <==> j < |s| && s[j] in toks
  {
    j := SkipWhite(s, i);
    ScanWhite(s, i, j);
    r := Char(s, j) != NUL && Char(s, j) in toks;
  }

  /** The first character of a token tells what kind of token it is. */
  lemma FirstToken(s: string, j: nat)
    requires j <= |s| && !White(Char(s, j))
    ensures Scan(s, j) == [] <==> j == |s|
    ensures j < |s| ==> (IsOp(Scan(s, j)[0]) <==> s[j] == '<' || s[j] == '>')
    ensures j < |s| ==> (Stops(Scan(s, j)[0]) <==> s[j] == '|' || s[j] == ')' || s[j] == '&' || s[j] == ';')
  {
  }

  lemma FirstIs(s: string, j: nat, c: char)
    requires j <= |s| && !White(Char(s, j)) && Symbol(c) && c != '>'
    ensures Starts(Scan(s, j), c) <==> j < |s| && s[j] == c
  {
  }

  /** What gettoken returns, as tokens: NUL is the end, 'a' a word, '+' is ">>". */
  function Returned(ret: char, t: Tok): seq<Token> {
    if ret == NUL then [] else if ret == 'a' then [Word(t)] else [Sym(ret)]
  }

  /** gettoken: exactly the next token; a word is a maximal run that no cut divides. */
  method GetToken(s: string, i: nat) returns (ret: char, t: Tok, j: nat)
    requires CString(s) && i <= |s|
    ensures i <= t.q <= t.e <= j <= |s| && (ret != NUL ==> t.q < t.e)
    ensures Scan(s, i) == Returned(ret, t) + Scan(s, j) && (ret == NUL <==> Scan(s, i) == [])
    ensures ret == 'a' && Boundary(s, i) ==> IsWord(s, t)
  {
    hide Scan, SkipFrom, IsWord, Boundary;
    var q := SkipWhite(s, i);
    var e;
    ret, e := TokenEnd(s, q);
    t := Tok(q, e);
    j := SkipWhite(s, e);
    ScanOne(s, i, t, j, ret);
    if ret == 'a' && Boundary(s, i) {
      SkipNoWord(s, i);
      RunIsWord(s, t);
    }
  }

  /** gettoken's switch, on the character at q. */
  method TokenEnd(s: string, q: nat) returns (ret: char, e: nat)
    requires CString(s) && q <= |s| && !White(Char(s, q))
    ensures q <= e <= |s| && (ret == NUL <==> q == |s|)
    ensures match ret
            case 'a' => q < e && AllWord(s, q, e) && (e < |s| ==> !WordChar(s[e]))
            case NUL => q == |s|
            case '+' => e == q + 2 && s[q] == '>' && s[q + 1] == '>'
            case _ => e == q + 1 && Symbol(ret) && s[q] == ret && (ret == '>' ==> Char(s, e) != '>')
  {
    e := q;
    ret := Char(s, q);
    if ret == NUL {
    } else if ret == '>' {
      e := e + 1;
      if Char(s, e) == '>' {
        ret := '+';
        e := e + 1;
      }
    } else if Symbol(ret) {
      e := e + 1;
    } else {
      ret := 'a';
      while e < |s| && !White(s[e]) && !Symbol(s[e])
        invariant q <= e <= |s| && AllWord(s, q, e) && (e == q ==> e < |s| && WordChar(s[e]))
      {
        e := e + 1;
      }
    }
  }

  lemma RunIsWord(s: string, t: Tok)
    requires t.q < t.e <= |s| && AllWord(s, t.q, t.e) && (t.e < |s| ==> !WordChar(s[t.e])) && Boundary(s, t.q)
    ensures IsWord(s, t)
  {
  }

  lemma ScanOne(s: string, i: nat, t: Tok, j: nat, ret: char)
    requires CString(s) && i <= t.q <= t.e <= j <= |s| && t.q == SkipFrom(s, i) && j == SkipFrom(s, t.e)
    requires match ret
             case 'a' => t.q < t.e && AllWord(s, t.q, t.e) && (t.e < |s| ==> !WordChar(s[t.e]))
             case NUL => t.q == |s|
             case '+' => t.e == t.q + 2 && s[t.q] == '>' && s[t.q + 1] == '>'
             case _ => t.e == t.q + 1 && Symbol(ret) && s[t.q] == ret && (ret == '>' ==> Char(s, t.e) != '>')
    ensures Scan(s, i) == Returned(ret, t) + Scan(s, j) && (ret == NUL <==> Scan(s, i) == [])
  {
    hide SkipFrom, WordEnd, White;
    SkipStops(s, i);
    ScanWhite(s, t.e, j);
    if ret == 'a' {
      assert WordChar(s[t.q]);
      WordEndIs(s, t.q, t.e);
    } else if ret == NUL {
      ScanNothing(s);
    }
  }

  lemma ScanNothing(s: string)
    ensures Scan(s, |s|) == []
  {
  }

  // ------------------------------------------------------------------
  // The parser, on the line

  /** A command and the tokens left, or a syntax error, is what r says. */
  ghost predicate Gives(r: Res<Cmd>, c: Option<Cmd>, rest: seq<Token>) {
    r == if c.Some? then Done(c.value, rest) else Fail
  }

  lemma RedirsFail(op: Token, ts: seq<Token>)
    requires IsOp(op) && (ts == [] || !ts[0].Word?)
    ensures Redirs([op] + ts) == Fail
  {
  }

  /** A redirection parsed, in front of those that follow. */
  lemma RedirsMore(rs: seq<Redirection>, op: Token, file: Tok, ts: seq<Token>)
    requires IsOp(op)
    ensures Before(rs, Redirs([op] + ([Word(file)] + ts))) == Before(rs + [MakeRedir(op, file)], Redirs(ts))
  {
    hide Redirs, MakeRedir;
    var r := MakeRedir(op, file);
    assert [op] + ([Word(file)] + ts) == [op, Word(file)] + ts;
    RedirsOp(op, file, ts);
    if Redirs(ts).Done? {
      assert rs + ([r] + Redirs(ts).v) == rs + [r] + Redirs(ts).v;
    }
  }

  lemma RedirsEnd(rs: seq<Redirection>, ts: seq<Token>)
    requires ts == [] || !IsOp(ts[0])
    ensures Before(rs, Redirs(ts)) == Done(rs, ts)
  {
    assert rs + [] == rs;
  }

  lemma BeforeNone(r: Res<seq<Redirection>>)
    ensures Before([], r) == r
  {
    if r.Done? {
      assert [] + r.v == r.v;
    }
  }

  /** parseredirs: false if a file name is missing. */
  method ParseRedirs(s: string, i: nat) returns (ok: bool, rs: seq<Redirection>, j: nat)
    requires CString(s) && i <= |s|
    ensures i <= j <= |s| && Redirs(Scan(s, i)) == if ok then Done(rs, Scan(s, j)) else Fail
  {
    hide Scan, Redirs, Before, IsWord, Boundary;
    ok, rs := true, [];
    var more;
    more, j := Peek(s, i, "<>");
    FirstToken(s, j);
    BeforeNone(Redirs(Scan(s, i)));
    while more
      invariant i <= j <= |s| && Redirs(Scan(s, i)) == Before(rs, Redirs(Scan(s, j)))
      invariant more <==> Scan(s, j) != [] && IsOp(Scan(s, j)[0])
      decreases |s| - j
    {
      var tok, t, k := GetToken(s, j);
      assert Scan(s, j) == [Sym(tok)] + Scan(s, k);
      var a, file, l := GetToken(s, k);
      if a != 'a' {
        RedirsFail(Sym(tok), Scan(s, k));
        BeforeFail(rs);
        return false, rs, l;
      }
      RedirsMore(rs, Sym(tok), file, Scan(s, l));
      var r := if tok == '<' then Redirection(file, O_RDONLY, 0)
               else if tok == '>' then Redirection(file, O_WRONLY + O_CREATE + O_TRUNC, 1)
               else Redirection(file, O_WRONLY + O_CREATE, 1);
      rs := rs + [r];
      more, j := Peek(s, l, "<>");
      FirstToken(s, j);
    }
    RedirsEnd(rs, Scan(s, j));
  }

  lemma BeforeFail(rs: seq<Redirection>)
    ensures Before(rs, Fail) == Fail
  {
  }

  /** The simple command, when args and rs are parsed and r is what remains. */
  function Rest(args: seq<Tok>, rs: seq<Redirection>, r: Res<(seq<Tok>, seq<Redirection>)>): Res<Cmd> {
    match r
    case Fail => Fail
    case Done(v, rest) => Done(Wrap(Exec(args + v.0), rs + v.1), rest)
  }

  lemma SimpleStart(ts: seq<Token>)
    ensures Redirs(ts).Fail? ==> Simple(ts) == Fail
    ensures Redirs(ts).Done? ==> Simple(ts) == Rest([], Redirs(ts).v, Args(Redirs(ts).rest, 0))
  {
    hide Redirs, Args, Wrap;
    if Redirs(ts).Done? && Args(Redirs(ts).rest, 0).Done? {
      var v := Args(Redirs(ts).rest, 0).v;
      assert [] + v.0 == v.0;
    }
  }

  /** One more word and the redirections after it. */
  lemma RestMore(args: seq<Tok>, rs: seq<Redirection>, t: Tok, ts: seq<Token>)
    requires |args| + 1 < MAXARGS && Redirs(ts).Done?
    ensures Rest(args, rs, Args([Word(t)] + ts, |args|)) ==
            Rest(args + [t], rs + Redirs(ts).v, Args(Redirs(ts).rest, |args| + 1))
  {
    hide Redirs, Wrap;
    assert ([Word(t)] + ts)[1..] == ts;
    var r := Args(Redirs(ts).rest, |args| + 1);
    if r.Done? {
      assert args + ([t] + r.v.0) == args + [t] + r.v.0 && rs + (Redirs(ts).v + r.v.1) == rs + Redirs(ts).v + r.v.1;
    }
  }

  lemma RestFail(args: seq<Tok>, rs: seq<Redirection>, ts: seq<Token>)
    requires ts != [] && !Stops(ts[0]) && (!ts[0].Word? || |args| + 1 >= MAXARGS || Redirs(ts[1..]) == Fail)
    ensures Rest(args, rs, Args(ts, |args|)) == Fail
  {
  }

  lemma RestEnd(args: seq<Tok>, rs: seq<Redirection>, ts: seq<Token>)
    requires ts == [] || Stops(ts[0])
    ensures Rest(args, rs, Args(ts, |args|)) == Done(Wrap(Exec(args), rs), ts)
  {
    assert args + [] == args && rs + [] == rs;
  }

  /** parseexec's command: words and redirections up to one of the four symbols that end it. */
  method ParseSimple(s: string, i: nat) returns (c: Option<Cmd>, j: nat)
    requires CString(s) && i <= |s|
    ensures i <= j <= |s| && Gives(Simple(Scan(s, i)), c, Scan(s, j))
  {
    hide Scan, Redirs, Args, Simple, Rest, Wrap, IsWord, Boundary;
    var args: seq<Tok>, rs, ok, stop, k := [], [], true, false, i;
    ok, rs, k := ParseRedirs(s, i);
    SimpleStart(Scan(s, i));
    if !ok {
      return None, k;
    }
    stop, j := Peek(s, k, "|)&;");
    FirstToken(s, j);
    while !stop
      invariant i <= j <= |s| && |args| < MAXARGS && Simple(Scan(s, i)) == Rest(args, rs, Args(Scan(s, j), |args|))
      invariant stop <==> Scan(s, j) != [] && Stops(Scan(s, j)[0])
      decreases |s| - j, !stop
    {
      var tok, t, l := GetToken(s, j);
      if tok == NUL {
        RestEnd(args, rs, Scan(s, j));
        return Some(Wrap(Exec(args), rs)), l;
      }
      if tok != 'a' || |args| + 1 >= MAXARGS {
        RestFail(args, rs, Scan(s, j));
        return None, l;
      }
      assert Scan(s, j)[1..] == Scan(s, l);
      var more;
      ok, more, k := ParseRedirs(s, l);
      if !ok {
        RestFail(args, rs, Scan(s, j));
        return None, k;
      }
      RestMore(args, rs, t, Scan(s, l));
      args, rs := args + [t], rs + more;
      stop, j := Peek(s, k, "|)&;");
      FirstToken(s, j);
    }
    RestEnd(args, rs, Scan(s, j));
    c := Some(Wrap(Exec(args), rs));
  }

  /** peek for one symbol and, if it is there, gettoken. */
  method Accept(s: string, i: nat, c: char) returns (r: bool, j: nat)
    requires CString(s) && i <= |s| && Symbol(c) && c != '>'
    ensures i <= j <= |s| && (r <==> Starts(Scan(s, i), c)) && (r ==> i < j)
    ensures Scan(s, j) == if r then Scan(s, i)[1..] else Scan(s, i)
  {
    hide Scan, IsWord, Boundary;
    r, j := Peek(s, i, [c]);
    FirstIs(s, j, c);
    if r {
      var tok, t;
      tok, t, j := GetToken(s, j);
    }
  }

  /** parseblock: it panics unless it stands at an opening parenthesis. */
  method ParseBlock(s: string, i: nat) returns (c: Option<Cmd>, j: nat)
    requires CString(s) && i <= |s|
    ensures i <= j <= |s| && if Starts(Scan(s, i), '(') then Gives(Block(Scan(s, i)), c, Scan(s, j)) else c.None?
    decreases |s| - i, 0
  {
    hide Scan, Redirs, Line, Wrap;
    var ok, rs, k;
    ok, k := Accept(s, i, '(');
    if !ok {
      return None, k;
    }
    c, j := ParseLine(s, k);
    if c.None? {
      return;
    }
    ok, k := Accept(s, j, ')');
    if !ok {
      return None, k;
    }
    ok, rs, j := ParseRedirs(s, k);
    if !ok {
      return None, j;
    }
    c := Some(Wrap(c.value, rs));
  }

  /** parseexec. */
  method ParseExec(s: string, i: nat) returns (c: Option<Cmd>, j: nat)
    requires CString(s) && i <= |s|
    ensures i <= j <= |s| && Gives(Command(Scan(s, i)), c, Scan(s, j))
    decreases |s| - i, 1
  {
    hide Scan, Block, Simple, Gives;
    var block, k := Peek(s, i, "(");
    FirstIs(s, k, '(');
    if block {
      c, j := ParseBlock(s, k);
    } else {
      c, j := ParseSimple(s, k);
    }
  }

  /** parsepipe. */
  method ParsePipe(s: string, i: nat) returns (c: Option<Cmd>, j: nat)
    requires CString(s) && i <= |s|
    ensures i <= j <= |s| && Gives(Pipeline(Scan(s, i)), c, Scan(s, j))
    decreases |s| - i, 2
  {
    hide Scan, Command;
    var bar, right, k;
    c, k := ParseExec(s, i);
    if c.None? {
      return c, k;
    }
    bar, j := Accept(s, k, '|');
    if bar {
      right, j := ParsePipe(s, j);
      c := if right.Some? then Some(Pipe(c.value, right.value)) else None;
    }
  }

  lemma BacksMore(c: Cmd, ts: seq<Token>)
    ensures Backs(c, ts) == if Starts(ts, '&') then Backs(Back(c), ts[1..]) else (c, ts)
  {
  }

  /** parseline. */
  method ParseLine(s: string, i: nat) returns (c: Option<Cmd>, j: nat)
    requires CString(s) && i <= |s|
    ensures i <= j <= |s| && Gives(Line(Scan(s, i)), c, Scan(s, j))
    decreases |s| - i, 3
  {
    hide Scan, Pipeline, Backs;
    c, j := ParsePipe(s, i);
    if c.None? {
      return;
    }
    ghost var p, mid := c.value, Scan(s, j);
    var amp;
    BacksMore(c.value, mid);
    amp, j := Accept(s, j, '&');
    while amp
      invariant i <= j <= |s| && c.Some?
      invariant Backs(p, mid) == if amp then Backs(Back(c.value), Scan(s, j)) else (c.value, Scan(s, j))
      decreases |s| - j, amp
    {
      c := Some(Back(c.value));
      BacksMore(c.value, Scan(s, j));
      amp, j := Accept(s, j, '&');
    }
    var semi, right;
    semi, j := Accept(s, j, ';');
    if semi {
      right, j := ParseLine(s, j);
      c := if right.Some? then Some(List(c.value, right.value)) else None;
    }
  }

  // ------------------------------------------------------------------
  // nulterminate

  /** NUL has been written at the given positions, and nowhere else. */
  ghost predicate Cut(before: seq<char>, after: seq<char>, ends: set<nat>) {
    |after| == |before| && forall p :: 0 <= p < |after| ==> after[p] == if p in ends then NUL else before[p]
  }

  ghost function Ends(m: multiset<Tok>): set<nat> {
    set t: Tok | t in m :: t.e
  }

  lemma EndsJoin(m: multiset<Tok>, n: multiset<Tok>)
    ensures Ends(m + n) == Ends(m) + Ends(n)
  {
    forall p | p in Ends(m) + Ends(n) ensures p in Ends(m + n) {
      var t: Tok :| (t in m || t in n) && t.e == p;
      assert t in m + n;
    }
  }

  lemma CutJoin(a: seq<char>, b: seq<char>, c: seq<char>, m: set<nat>, n: set<nat>)
    requires Cut(a, b, m) && Cut(b, c, n)
    ensures Cut(a, c, m + n)
  {
  }

  /** nulterminate: writes NUL at the end of every word of c, and nowhere else. */
  method NulTerminate(c: Cmd, b: array<char>)
    requires forall t: Tok :: t in Words(c) ==> t.e < b.Length
    modifies b
    ensures Cut(old(b[..]), b[..], Ends(Words(c)))
    decreases c, 1
  {
    hide Cut, Ends;
    match c
    case Exec(args) =>
      CutNothing(b[..]);
      for i := 0 to |args|
        invariant Cut(old(b[..]), b[..], Ends(multiset(args[..i])))
      {
        assert args[i] in Words(c);
        ghost var before := b[..];
        b[args[i].e] := NUL;
        CutOne(before, b[..], args[i]);
        CutJoin(old(b[..]), before, b[..], Ends(multiset(args[..i])), Ends(multiset{args[i]}));
        EndsJoin(multiset(args[..i]), multiset{args[i]});
        assert args[..i + 1] == args[..i] + [args[i]];
      }
      assert args[..|args|] == args;
    case Redir(d, file, _, _) =>
      assert file in Words(c);
      NulTerminate(d, b);
      ghost var before := b[..];
      b[file.e] := NUL;
      CutOne(before, b[..], file);
      CutJoin(old(b[..]), before, b[..], Ends(Words(d)), Ends(multiset{file}));
      EndsJoin(Words(d), multiset{file});
    case Pipe(l, r) => NulTwo(l, r, b, c);
    case List(l, r) => NulTwo(l, r, b, c);
    case Back(d) => NulTerminate(d, b);
  }

  method NulTwo(l: Cmd, r: Cmd, b: array<char>, ghost c: Cmd)
    requires c == Pipe(l, r) || c == List(l, r)
    requires forall t: Tok :: t in Words(l) + Words(r) ==> t.e < b.Length
    modifies b
    ensures Cut(old(b[..]), b[..], Ends(Words(l) + Words(r)))
    decreases c, 0
  {
    hide Cut, Ends;
    assert forall t: Tok :: t in Words(l) ==> t in Words(l) + Words(r);
    NulTerminate(l, b);
    ghost var before := b[..];
    assert forall t: Tok :: t in Words(r) ==> t in Words(l) + Words(r);
    NulTerminate(r, b);
    CutJoin(old(b[..]), before, b[..], Ends(Words(l)), Ends(Words(r)));
    EndsJoin(Words(l), Words(r));
  }

  lemma CutNothing(a: seq<char>)
    ensures Cut(a, a, Ends(multiset{}))
  {
  }

  lemma CutOne(a: seq<char>, b: seq<char>, t: Tok)
    requires t.e < |a| && b == a[t.e := NUL]
    ensures Cut(a, b, Ends(multiset{t}))
  {
    assert Ends(multiset{t}) == {t.e};
  }

  // ------------------------------------------------------------------
  // parsecmd

  /** The C string that starts at q is w. */
  ghost predicate StringAt(b: seq<char>, q: nat, w: string) {
    q + |w| < |b| && b[q..q + |w|] == w && b[q + |w|] == NUL && NUL !in w
  }

  /**
   parsecmd, on a line in a buffer.  It always ends; None is one of its panics.  It accepts a
   line with the command d exactly if the grammar derives d from the line's tokens and each
   simple command of d has fewer than MAXARGS arguments.  The command records every word of
   the line exactly once and opens the files that the line's operators name; in the buffer
   each recorded word has become a string of its own.
   */
  method ParseCmd(s: string, b: array<char>) returns (c: Option<Cmd>)
    requires CString(s) && b.Length > |s| && b[..|s|] == s && b[|s|] == NUL
    modifies b
    ensures forall d: Cmd :: c == Some(d) <==> LineIs(d, Scan(s, 0)) && Sized(d)
    ensures c.None? ==> b[..] == old(b[..])
    ensures c.Some? ==> Words(c.value) == multiset(WordsIn(s, 0, |s|))
    ensures c.Some? ==> Opens(c.value) == OpensIn(Scan(s, 0))
    ensures c.Some? ==> forall t: Tok :: t in Words(c.value) ==> IsWord(s, t) && StringAt(b[..], t.q, s[t.q..t.e])
  {
    hide IsWord, WordsIn, Words, Sized, Cut, Ends, StringAt, Scan, LineIs, Line, WordsOf, Opens, OpensIn;
    var j, any, k;
    c, j := ParseLine(s, 0);
    Accepted(Scan(s, 0));
    if c.None? {
      return;
    }
    any, k := Peek(s, j, "");
    FirstToken(s, k);
    if k != |s| {
      return None;
    }
    LineWords(c.value, Scan(s, 0));
    LineOpens(c.value, Scan(s, 0));
    ScanWords(s, 0);
    WordsAt(s, 0, |s|);
    ghost var before := b[..];
    WordsFit(s, Words(c.value));
    NulTerminate(c.value, b);
    forall t: Tok | t in Words(c.value) ensures StringAt(b[..], t.q, s[t.q..t.e]) {
      Separate(s, before, b[..], Words(c.value), t);
    }
  }

  lemma Accepted(ts: seq<Token>)
    ensures forall d: Cmd :: Line(ts) == Done(d, []) <==> LineIs(d, ts) && Sized(d)
  {
    hide LineIs, Sized, Line;
    forall d: Cmd ensures Line(ts) == Done(d, []) <==> LineIs(d, ts) && Sized(d) {
      AcceptsExactly(ts, d);
    }
  }

  lemma WordsFit(s: string, m: multiset<Tok>)
    requires forall t: Tok :: t in m ==> IsWord(s, t)
    ensures forall t: Tok :: t in m ==> t.q < t.e <= |s|
  {
  }

  /** A terminator stands where no word has a character, so it cuts no word but its own. */
  lemma Separate(s: string, before: seq<char>, after: seq<char>, m: multiset<Tok>, t: Tok)
    requires CString(s) && |before| > |s| && before[..|s|] == s && Cut(before, after, Ends(m)) && t in m
    requires forall u: Tok :: u in m ==> IsWord(s, u)
    ensures t.q < t.e <= |s| && StringAt(after, t.q, s[t.q..t.e])
  {
    assert IsWord(s, t) && t.e in Ends(m);
    forall p | t.q <= p < t.e ensures after[p] == s[p] {
      assert WordChar(s[p]);
      NotAnEnd(s, m, p);
      assert before[..|s|][p] == before[p];
    }
    assert after[t.q..t.e] == s[t.q..t.e];
  }

  lemma NotAnEnd(s: string, m: multiset<Tok>, p: nat)
    requires p < |s| && WordChar(s[p]) && forall u: Tok :: u in m ==> IsWord(s, u)
    ensures p !in Ends(m)
  {
  }
}
