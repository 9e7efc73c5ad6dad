/**
 What the shell's grammar means (user/sh.c): which files a line opens and on which
 descriptors, and that a command written out as a line is parsed back into that command.
 */
module ShellMeaning {
  import opened ShellGrammar

  // ------------------------------------------------------------------
  // Redirections

  /** A file that runcmd will open: its name, the mode, and the descriptor it becomes. */
  datatype Open = Open(file: Tok, mode: nat, fd: nat)

  /** The files a command opens, each as often as it does. */
  ghost function Opens(c: Cmd): multiset<Open> {
    match c
    case Exec(_) => multiset{}
    case Redir(d, file, mode, fd) => Opens(d) + multiset{Open(file, mode, fd)}
    case Pipe(l, r) => Opens(l) + Opens(r)
    case List(l, r) => Opens(l) + Opens(r)
    case Back(d) => Opens(d)
  }

  /** "< f" is f for reading as descriptor 0; "> f" and ">> f" are f for writing as 1, created, the first emptied. */
  function OpenBy(op: char, file: Tok): multiset<Open> {
    if op == '<' then multiset{Open(file, 0x000, 0)}
    else if op == '>' then multiset{Open(file, 0x601, 1)}
    else if op == '+' then multiset{Open(file, 0x201, 1)}
    else multiset{}
  }

  /** The same, read off the tokens. */
  ghost function OpensIn(ts: seq<Token>): multiset<Open> {
    if |ts| < 2 then multiset{}
    else (if ts[0].Sym? && ts[1].Word? then OpenBy(ts[0].c, ts[1].t) else multiset{}) + OpensIn(ts[1..])
  }

  lemma OpensFirst(x: Token, ts: seq<Token>)
    ensures OpensIn([x] + ts) == OpensIn(ts) +
            if ts != [] && x.Sym? && ts[0].Word? then OpenBy(x.c, ts[0].t) else multiset{}
  {
    assert ([x] + ts)[1..] == ts;
  }

  /** A symbol that is no operator separates what is on its two sides. */
  lemma {:induction false} OpensCut(a: seq<Token>, x: char, b: seq<Token>)
    requires x !in "<>+"
    ensures OpensIn(a + [Sym(x)] + b) == OpensIn(a) + OpensIn(b)
    decreases |a|
  {
    hide OpensIn;
    if a == [] {
      OpensFirst(Sym(x), b);
      assert a + [Sym(x)] + b == [Sym(x)] + b;
      OpensNone();
    } else {
      var us := a[1..];
      OpensCut(us, x, b);
      assert a == [a[0]] + us && a + [Sym(x)] + b == [a[0]] + (us + [Sym(x)] + b);
      OpensFirst(a[0], us);
      OpensFirst(a[0], us + [Sym(x)] + b);
      assert us != [] ==> (us + [Sym(x)] + b)[0] == us[0];
      assert us == [] ==> (us + [Sym(x)] + b)[0] == Sym(x);
    }
  }

  lemma OpensNone()
    ensures OpensIn([]) == multiset{}
  {
  }

  lemma OpensAt(ts: seq<Token>, k: nat)
    requires k < |ts| && ts[k].Sym? && ts[k].c !in "<>+"
    ensures OpensIn(ts) == OpensIn(ts[..k]) + OpensIn(ts[k + 1..])
  {
    OpensCut(ts[..k], ts[k].c, ts[k + 1..]);
    assert ts == ts[..k] + [Sym(ts[k].c)] + ts[k + 1..];
  }

  ghost function OpensOf(rs: seq<Redirection>): multiset<Open> {
    if rs == [] then multiset{}
    else OpensOf(rs[..|rs| - 1]) + multiset{Open(rs[|rs| - 1].file, rs[|rs| - 1].mode, rs[|rs| - 1].fd)}
  }

  lemma {:induction false} OpensOfFirst(r: Redirection, rs: seq<Redirection>)
    ensures OpensOf([r] + rs) == multiset{Open(r.file, r.mode, r.fd)} + OpensOf(rs)
    decreases |rs|
  {
    var all := [r] + rs;
    if rs == [] {
      assert all[..|all| - 1] == [];
    } else {
      OpensOfFirst(r, rs[..|rs| - 1]);
      assert all[..|all| - 1] == [r] + rs[..|rs| - 1];
    }
  }

  lemma {:induction false} WrapOpens(c: Cmd, rs: seq<Redirection>)
    ensures Opens(Wrap(c, rs)) == Opens(c) + OpensOf(rs)
    decreases |rs|
  {
    if rs != [] {
      WrapOpens(c, rs[..|rs| - 1]);
    }
  }

  lemma MadeOpens(op: Token, file: Tok)
    requires IsOp(op)
    ensures op.Sym? && multiset{Open(MakeRedir(op, file).file, MakeRedir(op, file).mode, MakeRedir(op, file).fd)}
                       == OpenBy(op.c, file)
  {
  }

  lemma {:induction false} ItemsOpens(ts: seq<Token>, args: seq<Tok>, rs: seq<Redirection>)
    requires Items(ts, args, rs)
    ensures OpensIn(ts) == OpensOf(rs)
    decreases |ts|
  {
    hide Items, OpensIn, OpensOf, MakeRedir;
    ItemsUnfold(ts, args, rs);
    if ts == [] {
      OpensNone();
      OpensOfNone();
    } else if ts[0].Word? {
      ItemsOpens(ts[1..], args[1..], rs);
      OpensFirst(ts[0], ts[1..]);
      assert ts == [ts[0]] + ts[1..];
    } else {
      ItemsOpens(ts[2..], args, rs[1..]);
      MadeOpens(ts[0], ts[1].t);
      OpensOfFirst(rs[0], rs[1..]);
      OpensFirst(ts[1], ts[2..]);
      OpensFirst(ts[0], ts[1..]);
      assert ts == [ts[0]] + ts[1..] && ts[1..] == [ts[1]] + ts[2..] && rs == [rs[0]] + rs[1..];
    }
  }

  lemma OpensOfNone()
    ensures OpensOf([]) == multiset{}
  {
  }

  lemma {:induction false} ExecOpens(c: Cmd, ts: seq<Token>)
    requires ExecIs(c, ts)
    ensures Opens(c) == OpensIn(ts)
    decreases |ts|, 1
  {
    hide Items;
    if args, rs :| SimpleFrom(c, ts, args, rs) {
      ItemsOpens(ts, args, rs);
      WrapOpens(Exec(args), rs);
    } else {
      var k: nat, d, rs :| BlockFrom(c, ts, k, d, rs);
      LineOpens(d, ts[1..k]);
      ItemsOpens(ts[k + 1..], [], rs);
      WrapOpens(d, rs);
      OpensAt(ts, k);
      OpensAt(ts[..k], 0);
      assert ts[..k][1..] == ts[1..k] && ts[..k][..0] == [];
    }
  }

  lemma {:induction false} PipeOpens(c: Cmd, ts: seq<Token>)
    requires PipeIs(c, ts)
    ensures Opens(c) == OpensIn(ts)
    decreases |ts|, 2
  {
    hide ExecIs, OpensIn;
    if ExecIs(c, ts) {
      ExecOpens(c, ts);
    } else {
      var k: nat :| PipeAt(c, ts, k);
      ExecOpens(c.left, ts[..k]);
      PipeOpens(c.right, ts[k + 1..]);
      OpensAt(ts, k);
    }
  }

  lemma {:induction false} BackOpens(c: Cmd, ts: seq<Token>)
    requires BackIs(c, ts)
    ensures Opens(c) == OpensIn(ts)
    decreases |ts|, 3
  {
    hide PipeIs, OpensIn;
    if PipeIs(c, ts) {
      PipeOpens(c, ts);
    } else {
      BackOpens(c.cmd, ts[..|ts| - 1]);
      OpensAt(ts, |ts| - 1);
      OpensNone();
      assert ts[|ts|..] == [];
    }
  }

  /**
   A command opens exactly the files that its tokens name after an operator, with that
   operator's mode and descriptor.
   */
  lemma {:induction false} LineOpens(c: Cmd, ts: seq<Token>)
    requires LineIs(c, ts)
    ensures Opens(c) == OpensIn(ts)
    decreases |ts|, 4
  {
    hide BackIs, OpensIn;
    if BackIs(c, ts) {
      BackOpens(c, ts);
    } else {
      var k: nat :| ListAt(c, ts, k);
      BackOpens(c.left, ts[..k]);
      LineOpens(c.right, ts[k + 1..]);
      OpensAt(ts, k);
    }
  }

  // ------------------------------------------------------------------
  // Commands written out

  /** The operator for a mode and a descriptor. */
  function OpFor(mode: nat, fd: nat): char {
    if fd == 0 then '<' else if mode == 0x601 then '>' else '+'
  }

  /** Redirections are those that the shell knows. */
  ghost predicate Proper(c: Cmd) {
    match c
    case Exec(_) => true
    case Redir(d, _, mode, fd) =>
      Proper(d) && ((mode == 0x000 && fd == 0) || (mode == 0x601 && fd == 1) || (mode == 0x201 && fd == 1))
    case Pipe(l, r) => Proper(l) && Proper(r)
    case List(l, r) => Proper(l) && Proper(r)
    case Back(d) => Proper(d)
  }

  function Parens(ts: seq<Token>): seq<Token> {
    [Sym('(')] + ts + [Sym(')')]
  }

  /**
   The command as tokens: a simple command as its words, another in parentheses wherever it
   is part of one, and redirections after what they are for, the innermost first.
   */
  function Show(c: Cmd): seq<Token>
    decreases c, 1
  {
    match c
    case Exec(args) => seq(|args|, i requires 0 <= i < |args| => Word(args[i]))
    case Redir(d, file, mode, fd) => Operand(d) + [Sym(OpFor(mode, fd)), Word(file)]
    case Pipe(l, r) => Parens(Show(l)) + [Sym('|')] + Parens(Show(r))
    case List(l, r) => Parens(Show(l)) + [Sym(';')] + Parens(Show(r))
    case Back(d) => Parens(Show(d)) + [Sym('&')]
  }

  /** What a redirection applies to. */
  function Operand(c: Cmd): seq<Token>
    decreases c, 2
  {
    if c.Exec? || c.Redir? then Show(c) else Parens(Show(c))
  }

  lemma {:induction false} WordItems(args: seq<Tok>)
    ensures Items(Show(Exec(args)), args, [])
    decreases |args|
  {
    var ts := Show(Exec(args));
    if args != [] {
      WordItems(args[1..]);
      assert ts[1..] == Show(Exec(args[1..]));
    }
  }

  lemma OneRedir(file: Tok, mode: nat, fd: nat)
    requires (mode == 0x000 && fd == 0) || (mode == 0x601 && fd == 1) || (mode == 0x201 && fd == 1)
    ensures Items([Sym(OpFor(mode, fd)), Word(file)], [], [Redirection(file, mode, fd)])
  {
    var ts, rs := [Sym(OpFor(mode, fd)), Word(file)], [Redirection(file, mode, fd)];
    assert ts[2..] == [] && rs[1..] == [];
  }

  lemma ParensExec(d: Cmd, ts: seq<Token>)
    requires LineIs(d, ts)
    ensures ExecIs(d, Parens(ts))
  {
    hide LineIs;
    var us := Parens(ts);
    assert us[1..|ts| + 1] == ts && us[|ts| + 2..] == [];
    ItemsNone();
    assert BlockFrom(d, us, |ts| + 1, d, []);
  }

  lemma SimpleMore(c: Cmd, ts: seq<Token>, args: seq<Tok>, rs: seq<Redirection>, us: seq<Token>, r: Redirection)
    requires SimpleFrom(c, ts, args, rs) && Items(us, [], [r])
    ensures SimpleFrom(Redir(c, r.file, r.mode, r.fd), ts + us, args, rs + [r])
  {
    ItemsJoin(ts, args, rs, us, [], [r]);
    assert args + [] == args && (rs + [r])[..|rs|] == rs;
  }

  lemma BlockMore(c: Cmd, ts: seq<Token>, k: nat, d: Cmd, rs: seq<Redirection>, us: seq<Token>, r: Redirection)
    requires BlockFrom(c, ts, k, d, rs) && Items(us, [], [r])
    ensures BlockFrom(Redir(c, r.file, r.mode, r.fd), ts + us, k, d, rs + [r])
  {
    hide LineIs;
    var none: seq<Tok> := [];
    ItemsJoin(ts[k + 1..], none, rs, us, none, [r]);
    assert none + none == none && (rs + [r])[..|rs|] == rs;
    assert (ts + us)[k + 1..] == ts[k + 1..] + us && (ts + us)[1..k] == ts[1..k];
  }

  lemma RedirMore(c: Cmd, ts: seq<Token>, us: seq<Token>, r: Redirection)
    requires ExecIs(c, ts) && Items(us, [], [r])
    ensures ExecIs(Redir(c, r.file, r.mode, r.fd), ts + us)
  {
    if args, rs :| SimpleFrom(c, ts, args, rs) {
      SimpleMore(c, ts, args, rs, us, r);
    } else {
      var k: nat, d, rs :| BlockFrom(c, ts, k, d, rs);
      BlockMore(c, ts, k, d, rs, us, r);
    }
  }

  /** A command that may stand before a bar: a simple one, or one that is in parentheses, with redirections. */
  lemma {:induction false} OperandIs(c: Cmd)
    requires Proper(c)
    ensures ExecIs(c, Operand(c))
    decreases c, 1
  {
    hide ExecIs, LineIs;
    match c
    case Exec(args) =>
      WordItems(args);
      assert SimpleFrom(c, Show(c), args, []);
      ExecSimple(c, Show(c), args, []);
    case Redir(d, file, mode, fd) =>
      OperandIs(d);
      OneRedir(file, mode, fd);
      RedirMore(d, Operand(d), [Sym(OpFor(mode, fd)), Word(file)], Redirection(file, mode, fd));
    case _ =>
      ShowIs(c);
      ParensExec(c, Show(c));
  }

  lemma ExecSimple(c: Cmd, ts: seq<Token>, args: seq<Tok>, rs: seq<Redirection>)
    requires SimpleFrom(c, ts, args, rs)
    ensures ExecIs(c, ts)
  {
  }

  lemma ExecLine(c: Cmd, ts: seq<Token>)
    requires ExecIs(c, ts)
    ensures PipeIs(c, ts) && BackIs(c, ts) && LineIs(c, ts)
  {
  }

  /** The grammar derives a command from its own tokens. */
  lemma {:induction false} ShowIs(c: Cmd)
    requires Proper(c)
    ensures LineIs(c, Show(c))
    decreases c, 0
  {
    hide ExecIs, PipeIs, BackIs, LineIs;
    match c
    case Exec(args) =>
      WordItems(args);
      assert SimpleFrom(c, Show(c), args, []);
      ExecSimple(c, Show(c), args, []);
      ExecLine(c, Show(c));
    case Redir(d, file, mode, fd) =>
      OperandIs(d);
      OneRedir(file, mode, fd);
      RedirMore(d, Operand(d), [Sym(OpFor(mode, fd)), Word(file)], Redirection(file, mode, fd));
      ExecLine(c, Show(c));
    case Pipe(l, r) =>
      ShowIs(l);
      ShowIs(r);
      ParensExec(l, Show(l));
      ParensExec(r, Show(r));
      PipeShown(l, r, Parens(Show(l)), Parens(Show(r)));
    case List(l, r) =>
      ShowIs(l);
      ShowIs(r);
      ParensExec(l, Show(l));
      ParensExec(r, Show(r));
      ListShown(l, r, Parens(Show(l)), Parens(Show(r)));
    case Back(d) =>
      ShowIs(d);
      ParensExec(d, Show(d));
      BackShown(d, Parens(Show(d)));
  }

  lemma PipeShown(l: Cmd, r: Cmd, a: seq<Token>, b: seq<Token>)
    requires ExecIs(l, a) && ExecIs(r, b)
    ensures LineIs(Pipe(l, r), a + [Sym('|')] + b)
  {
    var ts := a + [Sym('|')] + b;
    ExecLine(r, b);
    hide ExecIs, PipeIs;
    assert ts[..|a|] == a && ts[|a| + 1..] == b;
    PipeLine(Pipe(l, r), ts, |a|);
  }

  lemma PipeLine(c: Cmd, ts: seq<Token>, k: nat)
    requires PipeAt(c, ts, k)
    ensures LineIs(c, ts)
  {
  }

  lemma ListShown(l: Cmd, r: Cmd, a: seq<Token>, b: seq<Token>)
    requires ExecIs(l, a) && ExecIs(r, b)
    ensures LineIs(List(l, r), a + [Sym(';')] + b)
  {
    var ts := a + [Sym(';')] + b;
    ExecLine(l, a);
    ExecLine(r, b);
    hide ExecIs, PipeIs, BackIs;
    assert ts[..|a|] == a && ts[|a| + 1..] == b;
    assert ListAt(List(l, r), ts, |a|);
  }

  lemma BackShown(d: Cmd, a: seq<Token>)
    requires ExecIs(d, a)
    ensures LineIs(Back(d), a + [Sym('&')])
  {
    var ts := a + [Sym('&')];
    ExecLine(d, a);
    assert ts[..|ts| - 1] == a;
    BackLine(Back(d), ts);
  }

  /** Parsing a command written out gives that command back. */
  lemma ShowParses(c: Cmd)
    requires Proper(c) && Sized(c)
    ensures Line(Show(c)) == Done(c, [])
  {
    hide LineIs, Line, Show;
    ShowIs(c);
    AcceptsExactly(Show(c), c);
  }
}
