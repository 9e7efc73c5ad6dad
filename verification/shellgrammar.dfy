/**
 The shell's command language (user/sh.c): tokens, commands, the grammar that relates
 them, and a parser of tokens that accepts exactly the grammar.
 */
module ShellGrammar {
  const MAXARGS: nat := 10

  const O_RDONLY: nat := 0x000
  const O_WRONLY: nat := 0x001
  const O_CREATE: nat := 0x200
  const O_TRUNC: nat := 0x400

  /** Where a word starts and ends in the line. */
  datatype Tok = Tok(q: nat, e: nat)

  /** A word, or a symbol; '+' stands for ">>". */
  datatype Token = Word(t: Tok) | Sym(c: char)

  datatype Cmd =
    | Exec(args: seq<Tok>)
    | Redir(cmd: Cmd, file: Tok, mode: nat, fd: nat)
    | Pipe(left: Cmd, right: Cmd)
    | List(left: Cmd, right: Cmd)
    | Back(cmd: Cmd)

  /** A redirection waiting for its command. */
  datatype Redirection = Redirection(file: Tok, mode: nat, fd: nat)

  /** The command with its redirections around it, the first innermost. */
  function Wrap(c: Cmd, rs: seq<Redirection>): Cmd {
    if rs == [] then c
    else
      var r := rs[|rs| - 1];
      Redir(Wrap(c, rs[..|rs| - 1]), r.file, r.mode, r.fd)
  }

  /** Every simple command has room for its arguments and the null after them. */
  ghost predicate Sized(c: Cmd) {
    match c
    case Exec(args) => |args| < MAXARGS
    case Redir(d, _, _, _) => Sized(d)
    case Pipe(l, r) => Sized(l) && Sized(r)
    case List(l, r) => Sized(l) && Sized(r)
    case Back(d) => Sized(d)
  }

  lemma {:induction false} WrapSized(c: Cmd, rs: seq<Redirection>)
    ensures Sized(Wrap(c, rs)) <==> Sized(c)
    decreases |rs|
  {
    if rs != [] {
      WrapSized(c, rs[..|rs| - 1]);
    }
  }

  // ------------------------------------------------------------------
  // The grammar

  predicate IsOp(t: Token) {
    t == Sym('<') || t == Sym('>') || t == Sym('+')
  }

  function MakeRedir(op: Token, file: Tok): Redirection {
    if op == Sym('<') then Redirection(file, O_RDONLY, 0)
    else if op == Sym('>') then Redirection(file, O_WRONLY + O_CREATE + O_TRUNC, 1)
    else Redirection(file, O_WRONLY + O_CREATE, 1)
  }

  /** ts is words and redirections: the words are args, the redirections rs, each in order. */
  ghost predicate Items(ts: seq<Token>, args: seq<Tok>, rs: seq<Redirection>)
    decreases |ts|
  {
    if ts == [] then args == [] && rs == []
    else if ts[0].Word? then args != [] && args[0] == ts[0].t && Items(ts[1..], args[1..], rs)
    else
      && |ts| >= 2 && IsOp(ts[0]) && ts[1].Word? && rs != [] && rs[0] == MakeRedir(ts[0], ts[1].t)
      && Items(ts[2..], args, rs[1..])
  }

  /** A simple command with redirections anywhere in it. */
  ghost predicate SimpleFrom(c: Cmd, ts: seq<Token>, args: seq<Tok>, rs: seq<Redirection>) {
    c == Wrap(Exec(args), rs) && Items(ts, args, rs)
  }

  /** A line in parentheses, closed at k, with redirections after it. */
  ghost predicate BlockFrom(c: Cmd, ts: seq<Token>, k: nat, d: Cmd, rs: seq<Redirection>)
    decreases |ts|, 0
  {
    && 0 < k < |ts| && ts[0] == Sym('(') && ts[k] == Sym(')') && c == Wrap(d, rs)
    && Items(ts[k + 1..], [], rs) && LineIs(d, ts[1..k])
  }

  ghost predicate ExecIs(c: Cmd, ts: seq<Token>)
    decreases |ts|, 1
  {
    || (exists args, rs :: SimpleFrom(c, ts, args, rs))
    || (exists k: nat, d, rs :: BlockFrom(c, ts, k, d, rs))
  }

  /** left | right, the bar at k. */
  ghost predicate PipeAt(c: Cmd, ts: seq<Token>, k: nat)
    decreases |ts|, 2
  {
    c.Pipe? && k < |ts| && ts[k] == Sym('|') && ExecIs(c.left, ts[..k]) && PipeIs(c.right, ts[k + 1..])
  }

  ghost predicate PipeIs(c: Cmd, ts: seq<Token>)
    decreases |ts|, 3
  {
    ExecIs(c, ts) || exists k: nat :: PipeAt(c, ts, k)
  }

  /** A pipeline and some number of '&'. */
  ghost predicate BackIs(c: Cmd, ts: seq<Token>)
    decreases |ts|, 4
  {
    || PipeIs(c, ts)
    || (c.Back? && ts != [] && ts[|ts| - 1] == Sym('&') && BackIs(c.cmd, ts[..|ts| - 1]))
  }

  /** left ; right, the semicolon at k. */
  ghost predicate ListAt(c: Cmd, ts: seq<Token>, k: nat)
    decreases |ts|, 5
  {
    c.List? && k < |ts| && ts[k] == Sym(';') && BackIs(c.left, ts[..k]) && LineIs(c.right, ts[k + 1..])
  }

  ghost predicate LineIs(c: Cmd, ts: seq<Token>)
    decreases |ts|, 6
  {
    BackIs(c, ts) || exists k: nat :: ListAt(c, ts, k)
  }

  // ------------------------------------------------------------------
  // The parser, on tokens

  /** A syntax error, or what was parsed and the tokens left. */
  datatype Res<T> = Fail | Done(v: T, rest: seq<Token>)

  /** The tokens that end a simple command. */
  predicate Stops(t: Token) {
    t == Sym('|') || t == Sym(')') || t == Sym('&') || t == Sym(';')
  }

  predicate Starts(ts: seq<Token>, c: char) {
    ts != [] && ts[0] == Sym(c)
  }

  /** parseredirs. */
  function Redirs(ts: seq<Token>): (r: Res<seq<Redirection>>)
    ensures r.Done? ==> |r.rest| <= |ts| && (r.rest == [] || !IsOp(r.rest[0]))
    decreases |ts|
  {
    if ts == [] || !IsOp(ts[0]) then Done([], ts)
    else if |ts| < 2 || !ts[1].Word? then Fail
    else
      match Redirs(ts[2..])
      case Fail => Fail
      case Done(rs, rest) => Done([MakeRedir(ts[0], ts[1].t)] + rs, rest)
  }

  /** The loop of parseexec, with n arguments so far. */
  function Args(ts: seq<Token>, n: nat): (r: Res<(seq<Tok>, seq<Redirection>)>)
    ensures r.Done? ==> |r.rest| <= |ts| && (r.rest == [] || Stops(r.rest[0]))
    decreases |ts|
  {
    if ts == [] || Stops(ts[0]) then Done(([], []), ts)
    else if !ts[0].Word? || n + 1 >= MAXARGS then Fail
    else
      match Redirs(ts[1..])
      case Fail => Fail
      case Done(rs, mid) =>
        match Args(mid, n + 1)
        case Fail => Fail
        case Done(v, rest) => Done(([ts[0].t] + v.0, rs + v.1), rest)
  }

  function Simple(ts: seq<Token>): (r: Res<Cmd>)
    ensures r.Done? ==> |r.rest| <= |ts|
  {
    match Redirs(ts)
    case Fail => Fail
    case Done(rs, mid) =>
      match Args(mid, 0)
      case Fail => Fail
      case Done(v, rest) => Done(Wrap(Exec(v.0), rs + v.1), rest)
  }

  /** parseblock. */
  function Block(ts: seq<Token>): (r: Res<Cmd>)
    requires Starts(ts, '(')
    ensures r.Done? ==> |r.rest| <= |ts|
    decreases |ts|, 0
  {
    match Line(ts[1..])
    case Fail => Fail
    case Done(c, mid) =>
      if !Starts(mid, ')') then Fail
      else
        match Redirs(mid[1..])
        case Fail => Fail
        case Done(rs, rest) => Done(Wrap(c, rs), rest)
  }

  /** parseexec. */
  function Command(ts: seq<Token>): (r: Res<Cmd>)
    ensures r.Done? ==> |r.rest| <= |ts|
    decreases |ts|, 1
  {
    if Starts(ts, '(') then Block(ts) else Simple(ts)
  }

  /** parsepipe. */
  function Pipeline(ts: seq<Token>): (r: Res<Cmd>)
    ensures r.Done? ==> |r.rest| <= |ts|
    decreases |ts|, 2
  {
    match Command(ts)
    case Fail => Fail
    case Done(c, mid) =>
      if !Starts(mid, '|') then Done(c, mid)
      else
        match Pipeline(mid[1..])
        case Fail => Fail
        case Done(d, rest) => Done(Pipe(c, d), rest)
  }

  /** parseline's loop over '&'. */
  function Backs(c: Cmd, ts: seq<Token>): (r: (Cmd, seq<Token>))
    ensures |r.1| <= |ts| && !Starts(r.1, '&')
    decreases |ts|
  {
    if Starts(ts, '&') then Backs(Back(c), ts[1..]) else (c, ts)
  }

  /** parseline. */
  function Line(ts: seq<Token>): (r: Res<Cmd>)
    ensures r.Done? ==> |r.rest| <= |ts|
    decreases |ts|, 3
  {
    match Pipeline(ts)
    case Fail => Fail
    case Done(p, mid) =>
      var (c, more) := Backs(p, mid);
      if !Starts(more, ';') then Done(c, more)
      else
        match Line(more[1..])
        case Fail => Fail
        case Done(d, rest) => Done(List(c, d), rest)
  }

  // ------------------------------------------------------------------
  // What the parser accepts is in the grammar

  lemma {:induction false} RedirsSound(ts: seq<Token>) returns (k: nat)
    requires Redirs(ts).Done?
    ensures k <= |ts| && ts[k..] == Redirs(ts).rest && Items(ts[..k], [], Redirs(ts).v)
    decreases |ts|
  {
    k := 0;
    if ts != [] && IsOp(ts[0]) {
      k := RedirsSound(ts[2..]);
      k := k + 2;
      ItemsOp(ts[0], ts[1].t, ts[2..][..k - 2], [], Redirs(ts[2..]).v);
      assert ts[..k] == [ts[0], Word(ts[1].t)] + ts[2..][..k - 2];
    }
  }

  lemma ItemsOp(op: Token, file: Tok, ts: seq<Token>, args: seq<Tok>, rs: seq<Redirection>)
    requires IsOp(op) && Items(ts, args, rs)
    ensures Items([op, Word(file)] + ts, args, [MakeRedir(op, file)] + rs)
  {
    var all := [op, Word(file)] + ts;
    assert all[2..] == ts && ([MakeRedir(op, file)] + rs)[1..] == rs;
  }

  lemma ItemsWord(t: Tok, ts: seq<Token>, args: seq<Tok>, rs: seq<Redirection>)
    requires Items(ts, args, rs)
    ensures Items([Word(t)] + ts, [t] + args, rs)
  {
    assert ([Word(t)] + ts)[1..] == ts && ([t] + args)[1..] == args;
  }

  lemma {:induction false} ItemsJoin(a: seq<Token>, x: seq<Tok>, r: seq<Redirection>, b: seq<Token>, y: seq<Tok>,
      q: seq<Redirection>)
    requires Items(a, x, r) && Items(b, y, q)
    ensures Items(a + b, x + y, r + q)
    decreases |a|
  {
    hide Items;
    ItemsUnfold(a, x, r);
    if a == [] {
      assert a + b == b && x + y == y && r + q == q;
    } else if a[0].Word? {
      ItemsJoin(a[1..], x[1..], r, b, y, q);
      ItemsWord(x[0], a[1..] + b, x[1..] + y, r + q);
      assert a + b == [Word(x[0])] + (a[1..] + b) && x + y == [x[0]] + (x[1..] + y);
    } else {
      ItemsJoin(a[2..], x, r[1..], b, y, q);
      ItemsOp(a[0], a[1].t, a[2..] + b, x + y, r[1..] + q);
      assert a + b == [a[0], Word(a[1].t)] + (a[2..] + b) && r + q == [r[0]] + (r[1..] + q);
    }
  }

  lemma ItemsUnfold(ts: seq<Token>, args: seq<Tok>, rs: seq<Redirection>)
    requires Items(ts, args, rs)
    ensures ts == [] ==> args == [] && rs == []
    ensures ts != [] && ts[0].Word? ==> args != [] && args[0] == ts[0].t && Items(ts[1..], args[1..], rs)
    ensures ts != [] && !ts[0].Word? ==>
              |ts| >= 2 && IsOp(ts[0]) && ts[1].Word? && rs != [] && rs[0] == MakeRedir(ts[0], ts[1].t)
              && Items(ts[2..], args, rs[1..])
  {
  }

  /** Cutting a sequence in two places. */
  lemma CutTwice<T>(s: seq<T>, a: nat, b: nat)
    requires a + b <= |s|
    ensures s[..a] + s[a..][..b] == s[..a + b] && s[a..][b..] == s[a + b..]
  {
  }

  lemma ArgsMore(ts: seq<Token>, n: nat)
    requires Args(ts, n).Done? && ts != [] && !Stops(ts[0])
    ensures ts[0].Word? && n + 1 < MAXARGS && Redirs(ts[1..]).Done? && Args(Redirs(ts[1..]).rest, n + 1).Done?
    ensures var rs, mid := Redirs(ts[1..]).v, Redirs(ts[1..]).rest;
            var v, rest := Args(mid, n + 1).v, Args(mid, n + 1).rest;
            Args(ts, n) == Done(([ts[0].t] + v.0, rs + v.1), rest)
  {
  }

  lemma ArgsNone(ts: seq<Token>, n: nat)
    requires ts == [] || Stops(ts[0])
    ensures Args(ts, n) == Done(([], []), ts)
  {
  }

  lemma {:induction false} ArgsSound(ts: seq<Token>, n: nat) returns (k: nat)
    requires Args(ts, n).Done? && n < MAXARGS
    ensures k <= |ts| && ts[k..] == Args(ts, n).rest && Items(ts[..k], Args(ts, n).v.0, Args(ts, n).v.1)
    ensures n + |Args(ts, n).v.0| < MAXARGS
    decreases |ts|
  {
    hide Items, Args, Redirs, Stops;
    k := 0;
    if ts == [] || Stops(ts[0]) {
      ItemsNone();
      ArgsNone(ts, n);
    } else {
      ArgsMore(ts, n);
      var us := ts[1..];
      var a := RedirsSound(us);
      var mid := us[a..];
      var b := ArgsSound(mid, n + 1);
      k := 1 + (a + b);
      var rs, v := Redirs(us).v, Args(mid, n + 1).v;
      ItemsJoin(us[..a], [], rs, mid[..b], v.0, v.1);
      assert [] + v.0 == v.0;
      CutTwice(us, a, b);
      CutTwice(ts, 1, a + b);
      assert ts[..1] == [Word(ts[0].t)];
      ItemsWord(ts[0].t, us[..a + b], v.0, rs + v.1);
    }
  }

  lemma ItemsNone()
    ensures Items([], [], [])
  {
  }

  lemma SimpleSound(ts: seq<Token>) returns (k: nat)
    requires Simple(ts).Done?
    ensures k <= |ts| && ts[k..] == Simple(ts).rest && ExecIs(Simple(ts).v, ts[..k]) && Sized(Simple(ts).v)
  {
    hide Items, Args, Redirs, ExecIs, Sized, Wrap;
    var a := RedirsSound(ts);
    var mid := ts[a..];
    var b := ArgsSound(mid, 0);
    k := a + b;
    var rs, v := Redirs(ts).v, Args(mid, 0).v;
    ItemsJoin(ts[..a], [], rs, mid[..b], v.0, v.1);
    CutTwice(ts, a, b);
    assert [] + v.0 == v.0;
    SimpleGives(ts[..k], v.0, rs + v.1);
  }

  lemma SimpleGives(ts: seq<Token>, args: seq<Tok>, rs: seq<Redirection>)
    requires Items(ts, args, rs) && |args| < MAXARGS
    ensures ExecIs(Wrap(Exec(args), rs), ts) && Sized(Wrap(Exec(args), rs))
  {
    assert SimpleFrom(Wrap(Exec(args), rs), ts, args, rs);
    WrapSized(Exec(args), rs);
  }

  lemma {:induction false} BlockSound(ts: seq<Token>) returns (k: nat)
    requires Starts(ts, '(') && Block(ts).Done?
    ensures k <= |ts| && ts[k..] == Block(ts).rest && ExecIs(Block(ts).v, ts[..k]) && Sized(Block(ts).v)
    decreases |ts|, 0
  {
    hide Items, LineIs;
    var a := LineSound(ts[1..]);
    var d, mid := Line(ts[1..]).v, ts[1..][a..];
    var b := RedirsSound(mid[1..]);
    var rs := Redirs(mid[1..]).v;
    k := a + 2 + b;
    assert ts[k..] == mid[1..][b..] && ts[..k][1..a + 1] == ts[1..][..a] && ts[..k][a + 2..] == mid[1..][..b];
    assert BlockFrom(Wrap(d, rs), ts[..k], a + 1, d, rs);
    WrapSized(d, rs);
  }

  lemma {:induction false} CommandSound(ts: seq<Token>) returns (k: nat)
    requires Command(ts).Done?
    ensures k <= |ts| && ts[k..] == Command(ts).rest && ExecIs(Command(ts).v, ts[..k]) && Sized(Command(ts).v)
    decreases |ts|, 1
  {
    if Starts(ts, '(') {
      k := BlockSound(ts);
    } else {
      k := SimpleSound(ts);
    }
  }

  lemma {:induction false} PipelineSound(ts: seq<Token>) returns (k: nat)
    requires Pipeline(ts).Done?
    ensures k <= |ts| && ts[k..] == Pipeline(ts).rest && PipeIs(Pipeline(ts).v, ts[..k]) && Sized(Pipeline(ts).v)
    decreases |ts|, 2
  {
    hide ExecIs;
    k := CommandSound(ts);
    if Starts(ts[k..], '|') {
      var a, mid := k, ts[k + 1..];
      assert ts[a..][1..] == mid;
      var b := PipelineSound(mid);
      k := a + 1 + b;
      assert ts[..k][..a] == ts[..a] && ts[..k][a + 1..] == mid[..b] && ts[k..] == mid[b..];
      assert PipeAt(Pipeline(ts).v, ts[..k], a);
    }
  }

  lemma {:induction false} BacksSound(c: Cmd, us: seq<Token>, ts: seq<Token>) returns (k: nat)
    requires BackIs(c, us) && Sized(c)
    ensures k <= |ts| && ts[k..] == Backs(c, ts).1 && BackIs(Backs(c, ts).0, us + ts[..k]) && Sized(Backs(c, ts).0)
    decreases |ts|
  {
    k := 0;
    if Starts(ts, '&') {
      assert (us + [Sym('&')])[..|us|] == us;
      k := BacksSound(Back(c), us + [Sym('&')], ts[1..]);
      k := k + 1;
      assert us + [Sym('&')] + ts[1..][..k - 1] == us + ts[..k];
    } else {
      assert us + ts[..0] == us;
    }
  }

  lemma ListGives(l: Cmd, ts: seq<Token>, m: nat, r: Cmd, c: nat)
    requires m < |ts| && c <= |ts| - m - 1 && ts[m] == Sym(';')
    requires BackIs(l, ts[..m]) && LineIs(r, ts[m + 1..][..c])
    ensures LineIs(List(l, r), ts[..m + 1 + c])
  {
    hide BackIs;
    var us := ts[..m + 1 + c];
    assert us[..m] == ts[..m] && us[m + 1..] == ts[m + 1..][..c];
    assert ListAt(List(l, r), us, m);
  }

  lemma LineMore(ts: seq<Token>)
    requires Line(ts).Done?
    ensures Pipeline(ts).Done?
    ensures var (c, more) := Backs(Pipeline(ts).v, Pipeline(ts).rest);
            if Starts(more, ';') then Line(more[1..]).Done?
              && Line(ts) == Done(List(c, Line(more[1..]).v), Line(more[1..]).rest)
            else Line(ts) == Done(c, more)
  {
  }

  /** Soundness: what is parsed is derived from the tokens consumed. */
  lemma {:induction false} LineSound(ts: seq<Token>) returns (k: nat)
    requires Line(ts).Done?
    ensures k <= |ts| && ts[k..] == Line(ts).rest && LineIs(Line(ts).v, ts[..k]) && Sized(Line(ts).v)
    decreases |ts|, 3
  {
    hide Line, Pipeline, Backs, PipeIs, BackIs, LineIs;
    LineMore(ts);
    var a := PipelineSound(ts);
    var p := Pipeline(ts).v;
    PipeBack(p, ts[..a]);
    var b := BacksSound(p, ts[..a], ts[a..]);
    k := a + b;
    CutTwice(ts, a, b);
    var c := Backs(p, ts[a..]).0;
    if Starts(ts[k..], ';') {
      var m, more := k, ts[k + 1..];
      CutTwice(ts, m, 1);
      var d := LineSound(more);
      k := m + 1 + d;
      CutTwice(ts, m + 1, d);
      ListGives(c, ts, m, Line(more).v, d);
    } else {
      BackLine(c, ts[..k]);
    }
  }

  lemma BackLine(c: Cmd, ts: seq<Token>)
    requires BackIs(c, ts)
    ensures LineIs(c, ts)
  {
  }

  lemma PipeBack(c: Cmd, ts: seq<Token>)
    requires PipeIs(c, ts)
    ensures BackIs(c, ts)
  {
  }

  // ------------------------------------------------------------------
  // What is in the grammar is accepted

  /** What may follow a command of each kind. */
  predicate Follows(ts: seq<Token>, cs: string) {
    ts == [] || (ts[0].Sym? && ts[0].c in cs)
  }

  /** More redirections before what a parse gave. */
  function Before(rs: seq<Redirection>, r: Res<seq<Redirection>>): Res<seq<Redirection>> {
    match r
    case Fail => Fail
    case Done(v, rest) => Done(rs + v, rest)
  }

  lemma RedirsOp(op: Token, file: Tok, ts: seq<Token>)
    requires IsOp(op)
    ensures Redirs([op, Word(file)] + ts) == Before([MakeRedir(op, file)], Redirs(ts))
  {
    assert ([op, Word(file)] + ts)[2..] == ts;
  }

  lemma RedirsNone(ts: seq<Token>)
    requires ts == [] || !IsOp(ts[0])
    ensures Redirs(ts) == Done([], ts)
  {
  }

  lemma ArgsWord(t: Tok, ts: seq<Token>, n: nat)
    requires n + 1 < MAXARGS && Redirs(ts).Done? && Args(Redirs(ts).rest, n + 1).Done?
    ensures var r := Args(Redirs(ts).rest, n + 1);
            Args([Word(t)] + ts, n) == Done(([t] + r.v.0, Redirs(ts).v + r.v.1), r.rest)
  {
    assert ([Word(t)] + ts)[1..] == ts;
  }

  lemma {:induction false} ItemsComplete(ts: seq<Token>, args: seq<Tok>, rs: seq<Redirection>, rest: seq<Token>, n: nat)
    returns (r0: seq<Redirection>, mid: seq<Token>, r1: seq<Redirection>)
    requires Items(ts, args, rs) && Follows(rest, "|&;)") && n + |args| < MAXARGS
    ensures Redirs(ts + rest) == Done(r0, mid) && Args(mid, n) == Done((args, r1), rest) && r0 + r1 == rs
    decreases |ts|
  {
    hide Items, Redirs, Args;
    ItemsUnfold(ts, args, rs);
    if ts == [] {
      assert ts + rest == rest;
      RedirsNone(rest);
      ArgsNone(rest, n);
      r0, mid, r1 := [], rest, [];
    } else if ts[0].Word? {
      var q0, m, q1 := ItemsComplete(ts[1..], args[1..], rs, rest, n + 1);
      assert ts + rest == [Word(args[0])] + (ts[1..] + rest) && args == [args[0]] + args[1..];
      RedirsNone(ts + rest);
      ArgsWord(args[0], ts[1..] + rest, n);
      r0, mid, r1 := [], ts + rest, rs;
      assert [] + rs == rs;
    } else {
      r0, mid, r1 := ItemsComplete(ts[2..], args, rs[1..], rest, n);
      assert ts + rest == [ts[0], Word(ts[1].t)] + (ts[2..] + rest);
      RedirsOp(ts[0], ts[1].t, ts[2..] + rest);
      assert [rs[0]] + r0 + r1 == [rs[0]] + (r0 + r1) == rs;
      r0 := [rs[0]] + r0;
    }
  }

  lemma SimpleComplete(c: Cmd, ts: seq<Token>, args: seq<Tok>, rs: seq<Redirection>, rest: seq<Token>)
    requires SimpleFrom(c, ts, args, rs) && Sized(c) && Follows(rest, "|&;)")
    ensures Command(ts + rest) == Done(c, rest)
  {
    WrapSized(Exec(args), rs);
    var r0, mid, r1 := ItemsComplete(ts, args, rs, rest, 0);
    assert ts != [] ==> (ts + rest)[0] == ts[0];
    assert !Starts(ts + rest, '(');
  }

  lemma BlockSteps(us: seq<Token>, d: Cmd, vs: seq<Token>)
    requires Line(us) == Done(d, [Sym(')')] + vs) && Redirs(vs).Done?
    ensures Command([Sym('(')] + us) == Done(Wrap(d, Redirs(vs).v), Redirs(vs).rest)
  {
    hide Line, Redirs, Wrap;
    assert ([Sym('(')] + us)[1..] == us && ([Sym(')')] + vs)[1..] == vs;
  }

  lemma {:induction false} BlockComplete(c: Cmd, ts: seq<Token>, k: nat, d: Cmd, rs: seq<Redirection>, rest: seq<Token>)
    requires BlockFrom(c, ts, k, d, rs) && Sized(c) && Follows(rest, "|&;)")
    ensures Command(ts + rest) == Done(c, rest)
    decreases |ts|, 0
  {
    hide Items, LineIs, Line, Redirs, Args, Command, Wrap, Sized;
    var vs := ts[k + 1..] + rest;
    var tail := [Sym(')')] + vs;
    WrapSized(d, rs);
    LineComplete(d, ts[1..k], tail);
    var r0, mid, r1 := ItemsComplete(ts[k + 1..], [], rs, rest, 0);
    NoArgs(mid, 0, r1, rest);
    assert r0 + [] == r0;
    BlockSteps(ts[1..k] + tail, d, vs);
    assert ts + rest == [Sym('(')] + (ts[1..k] + tail);
  }

  lemma NoArgs(ts: seq<Token>, n: nat, r: seq<Redirection>, rest: seq<Token>)
    requires Args(ts, n) == Done(([], r), rest)
    ensures r == [] && ts == rest
  {
  }

  lemma {:induction false} ExecComplete(c: Cmd, ts: seq<Token>, rest: seq<Token>)
    requires ExecIs(c, ts) && Sized(c) && Follows(rest, "|&;)")
    ensures Command(ts + rest) == Done(c, rest)
    decreases |ts|, 1
  {
    if args, rs :| SimpleFrom(c, ts, args, rs) {
      SimpleComplete(c, ts, args, rs, rest);
    } else {
      var k: nat, d, rs :| BlockFrom(c, ts, k, d, rs);
      BlockComplete(c, ts, k, d, rs, rest);
    }
  }

  lemma {:induction false} PipeComplete(c: Cmd, ts: seq<Token>, rest: seq<Token>)
    requires PipeIs(c, ts) && Sized(c) && Follows(rest, "&;)")
    ensures Pipeline(ts + rest) == Done(c, rest)
    decreases |ts|, 2
  {
    hide ExecIs, Command;
    if ExecIs(c, ts) {
      ExecComplete(c, ts, rest);
    } else {
      var k: nat :| PipeAt(c, ts, k);
      var tail := ts[k..] + rest;
      ExecComplete(c.left, ts[..k], tail);
      PipeComplete(c.right, ts[k + 1..], rest);
      assert ts + rest == ts[..k] + tail && tail[1..] == ts[k + 1..] + rest;
    }
  }

  lemma {:induction false} BackComplete(c: Cmd, ts: seq<Token>, rest: seq<Token>)
    requires BackIs(c, ts) && Sized(c) && Follows(rest, "&;)")
    ensures var r := Pipeline(ts + rest); r.Done? && Backs(r.v, r.rest) == Backs(c, rest)
    decreases |ts|, 3
  {
    hide PipeIs, Pipeline;
    if PipeIs(c, ts) {
      PipeComplete(c, ts, rest);
    } else {
      var init, tail := ts[..|ts| - 1], [Sym('&')] + rest;
      BackComplete(c.cmd, init, tail);
      assert ts + rest == init + tail && tail[1..] == rest;
    }
  }

  /** Completeness: a derived command is what the parser gives, whatever closing parenthesis follows. */
  lemma {:induction false} LineComplete(c: Cmd, ts: seq<Token>, rest: seq<Token>)
    requires LineIs(c, ts) && Sized(c) && Follows(rest, ")")
    ensures Line(ts + rest) == Done(c, rest)
    decreases |ts|, 4
  {
    hide BackIs, Pipeline;
    if BackIs(c, ts) {
      BackComplete(c, ts, rest);
    } else {
      var k: nat :| ListAt(c, ts, k);
      var tail := ts[k..] + rest;
      BackComplete(c.left, ts[..k], tail);
      LineComplete(c.right, ts[k + 1..], rest);
      assert ts + rest == ts[..k] + tail && tail[1..] == ts[k + 1..] + rest;
    }
  }

  /** The parser accepts exactly the grammar, and a line has one command at most. */
  lemma AcceptsExactly(ts: seq<Token>, c: Cmd)
    ensures Line(ts) == Done(c, []) <==> LineIs(c, ts) && Sized(c)
  {
    hide LineIs, Line;
    if Line(ts) == Done(c, []) {
      var k := LineSound(ts);
      assert k == |ts| && ts[..k] == ts;
    }
    if LineIs(c, ts) && Sized(c) {
      LineComplete(c, ts, []);
      assert ts + [] == ts;
    }
  }

  /** The grammar gives a line one command at most. */
  lemma Unambiguous(ts: seq<Token>, c: Cmd, d: Cmd)
    requires LineIs(c, ts) && Sized(c) && LineIs(d, ts) && Sized(d)
    ensures c == d
  {
    hide LineIs, Sized, Line;
    AcceptsExactly(ts, c);
    AcceptsExactly(ts, d);
  }

  // ------------------------------------------------------------------
  // The words of a command

  /** The words that a command records, each as often as it does. */
  ghost function Words(c: Cmd): multiset<Tok> {
    match c
    case Exec(args) => multiset(args)
    case Redir(d, file, _, _) => Words(d) + multiset{file}
    case Pipe(l, r) => Words(l) + Words(r)
    case List(l, r) => Words(l) + Words(r)
    case Back(d) => Words(d)
  }

  /** The words among tokens. */
  ghost function WordsOf(ts: seq<Token>): multiset<Tok> {
    if ts == [] then multiset{}
    else (if ts[0].Word? then multiset{ts[0].t} else multiset{}) + WordsOf(ts[1..])
  }

  lemma {:induction false} WordsOfJoin(a: seq<Token>, b: seq<Token>)
    ensures WordsOf(a + b) == WordsOf(a) + WordsOf(b)
    decreases |a|
  {
    if a == [] {
      assert a + b == b;
    } else {
      assert (a + b)[1..] == a[1..] + b;
      WordsOfJoin(a[1..], b);
    }
  }

  lemma WordsOfCut(ts: seq<Token>, k: nat)
    requires k < |ts| && !ts[k].Word?
    ensures WordsOf(ts) == WordsOf(ts[..k]) + WordsOf(ts[k + 1..])
  {
    assert ts == ts[..k] + ([ts[k]] + ts[k + 1..]);
    WordsOfJoin(ts[..k], [ts[k]] + ts[k + 1..]);
    WordsOfJoin([ts[k]], ts[k + 1..]);
    assert WordsOf([ts[k]]) == multiset{};
  }

  ghost function Files(rs: seq<Redirection>): multiset<Tok> {
    if rs == [] then multiset{} else multiset{rs[0].file} + Files(rs[1..])
  }

  lemma {:induction false} FilesMore(rs: seq<Redirection>, r: Redirection)
    ensures Files(rs + [r]) == Files(rs) + multiset{r.file}
    decreases |rs|
  {
    hide Files;
    WordsOfNone();
    if rs == [] {
      FilesFirst(r, []);
      assert rs + [r] == [r] + [];
    } else {
      var x, us := rs[0], rs[1..];
      FilesMore(us, r);
      FilesFirst(x, us);
      FilesFirst(x, us + [r]);
      assert rs == [x] + us && rs + [r] == [x] + (us + [r]);
    }
  }

  lemma {:induction false} WrapWords(c: Cmd, rs: seq<Redirection>)
    ensures Words(Wrap(c, rs)) == Words(c) + Files(rs)
    decreases |rs|
  {
    hide Files;
    if rs == [] {
      WordsOfNone();
    } else {
      var init, r := rs[..|rs| - 1], rs[|rs| - 1];
      WrapWords(c, init);
      FilesMore(init, r);
      assert rs == init + [r];
    }
  }

  lemma WordsOfNone()
    ensures WordsOf([]) == multiset{} && Files([]) == multiset{}
  {
  }

  lemma WordsOfWord(t: Tok, ts: seq<Token>)
    ensures WordsOf([Word(t)] + ts) == multiset{t} + WordsOf(ts)
  {
    assert ([Word(t)] + ts)[1..] == ts;
  }

  lemma WordsOfOp(op: Token, file: Tok, ts: seq<Token>)
    requires !op.Word?
    ensures WordsOf([op, Word(file)] + ts) == multiset{file} + WordsOf(ts)
  {
    assert ([op, Word(file)] + ts)[1..] == [Word(file)] + ts;
    WordsOfWord(file, ts);
  }

  lemma FilesFirst(r: Redirection, rs: seq<Redirection>)
    ensures Files([r] + rs) == multiset{r.file} + Files(rs)
  {
    assert ([r] + rs)[1..] == rs;
  }

  lemma {:induction false} ItemsWords(ts: seq<Token>, args: seq<Tok>, rs: seq<Redirection>)
    requires Items(ts, args, rs)
    ensures WordsOf(ts) == multiset(args) + Files(rs)
    decreases |ts|
  {
    hide Items, WordsOf, Files;
    ItemsUnfold(ts, args, rs);
    if ts == [] {
      WordsOfNone();
    } else if ts[0].Word? {
      ItemsWords(ts[1..], args[1..], rs);
      assert args == [args[0]] + args[1..] && ts == [Word(args[0])] + ts[1..];
      WordsOfWord(args[0], ts[1..]);
    } else {
      ItemsWords(ts[2..], args, rs[1..]);
      assert ts == [ts[0], Word(ts[1].t)] + ts[2..] && rs == [rs[0]] + rs[1..];
      WordsOfOp(ts[0], ts[1].t, ts[2..]);
      FilesFirst(rs[0], rs[1..]);
    }
  }

  lemma {:induction false} ExecWords(c: Cmd, ts: seq<Token>)
    requires ExecIs(c, ts)
    ensures Words(c) == WordsOf(ts)
    decreases |ts|, 1
  {
    hide Items;
    if args, rs :| SimpleFrom(c, ts, args, rs) {
      ItemsWords(ts, args, rs);
      WrapWords(Exec(args), rs);
    } else {
      var k: nat, d, rs :| BlockFrom(c, ts, k, d, rs);
      LineWords(d, ts[1..k]);
      ItemsWords(ts[k + 1..], [], rs);
      WrapWords(d, rs);
      WordsOfCut(ts, k);
      WordsOfCut(ts[..k], 0);
      assert ts[..k][1..] == ts[1..k] && ts[..k][..0] == [];
    }
  }

  lemma {:induction false} PipeWords(c: Cmd, ts: seq<Token>)
    requires PipeIs(c, ts)
    ensures Words(c) == WordsOf(ts)
    decreases |ts|, 2
  {
    hide ExecIs;
    if ExecIs(c, ts) {
      ExecWords(c, ts);
    } else {
      var k: nat :| PipeAt(c, ts, k);
      ExecWords(c.left, ts[..k]);
      PipeWords(c.right, ts[k + 1..]);
      WordsOfCut(ts, k);
    }
  }

  lemma {:induction false} BackWords(c: Cmd, ts: seq<Token>)
    requires BackIs(c, ts)
    ensures Words(c) == WordsOf(ts)
    decreases |ts|, 3
  {
    hide PipeIs;
    if PipeIs(c, ts) {
      PipeWords(c, ts);
    } else {
      BackWords(c.cmd, ts[..|ts| - 1]);
      WordsOfCut(ts, |ts| - 1);
      assert ts[|ts|..] == [];
    }
  }

  /** A command records exactly the words of the tokens it derives from. */
  lemma {:induction false} LineWords(c: Cmd, ts: seq<Token>)
    requires LineIs(c, ts)
    ensures Words(c) == WordsOf(ts)
    decreases |ts|, 4
  {
    hide BackIs;
    if BackIs(c, ts) {
      BackWords(c, ts);
    } else {
      var k: nat :| ListAt(c, ts, k);
      BackWords(c.left, ts[..k]);
      LineWords(c.right, ts[k + 1..]);
      WordsOfCut(ts, k);
    }
  }
}
