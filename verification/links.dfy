/**
 Directories and link counts (kernel/sysfile.c, dirlookup and dirlink of kernel/fs.c).
 A directory is a sequence of entries; an entry with inode number 0 is free.  An inode's
 link count is kept equal to the number of entries that name it, "." aside, in directories
 that are themselves linked.
 */
module Links {
  import opened Sets

  const ROOT: nat := 1
  const MAXLINK: int := 0x7FFF   // nlink is a short

  type Name = string

  const DOT: Name := "."
  const DOTDOT: Name := ".."

  datatype Kind = Free | File | Device | Dir

  datatype Entry = Entry(inum: nat, name: Name)

  datatype Node = Node(kind: Kind, nlink: int, entries: seq<Entry>)

  type Nodes = seq<Node>

  function KindOf(ns: Nodes, t: nat): Kind {
    if t < |ns| then ns[t].kind else Free
  }

  function LinkOf(ns: Nodes, t: nat): int {
    if t < |ns| then ns[t].nlink else 0
  }

  /** The inode that entry k of directory d names, 0 if it is free or not there. */
  function Target(ns: Nodes, d: nat, k: nat): nat {
    if d < |ns| && k < |ns[d].entries| then ns[d].entries[k].inum else 0
  }

  function NameAt(ns: Nodes, d: nat, k: nat): Name {
    if d < |ns| && k < |ns[d].entries| then ns[d].entries[k].name else ""
  }

  /** A directory that is still linked. */
  predicate Live(ns: Nodes, d: nat) {
    KindOf(ns, d) == Dir && LinkOf(ns, d) > 0
  }

  /** Entry k of directory d counts as a link to t. */
  predicate Counts(ns: Nodes, d: nat, k: nat, t: nat) {
    Live(ns, d) && t != 0 && Target(ns, d, k) == t && NameAt(ns, d, k) != DOT
  }

  ghost function Refs(ns: Nodes, t: nat): set<(nat, nat)> {
    set d: nat, k: nat | 0 <= d < |ns| && 0 <= k < |ns[d].entries| && Counts(ns, d, k, t) :: (d, k)
  }

  /** Link counts are right, with p links of each inode about to be made. */
  ghost predicate Counted(ns: Nodes, p: multiset<nat>) {
    forall t: nat :: 0 < t < |ns| ==> LinkOf(ns, t) == |Refs(ns, t)| + p[t]
  }

  /** Names are unique in every directory. */
  ghost predicate UniqueNames(ns: Nodes) {
    forall d: nat, j: nat, k: nat :: j < k && Target(ns, d, j) != 0 && Target(ns, d, k) != 0 ==>
      NameAt(ns, d, j) != NameAt(ns, d, k)
  }

  /** Free inodes are not linked, only directories have entries, and entries name inodes in use. */
  ghost predicate Shape(ns: Nodes, p: multiset<nat>) {
    && |ns| > ROOT && Live(ns, ROOT) && KindOf(ns, 0) == Free
    && (forall t: nat :: KindOf(ns, t) == Free ==> LinkOf(ns, t) == 0)
    && (forall t: nat, k: nat :: KindOf(ns, t) != Dir ==> Target(ns, t, k) == 0)
    && (forall d: nat, k: nat :: Live(ns, d) && Target(ns, d, k) != 0 ==> KindOf(ns, Target(ns, d, k)) != Free)
    && (forall t: nat :: t in p ==> KindOf(ns, t) != Free && KindOf(ns, t) != Dir)
  }

  /** A linked directory has "." and ".." first. */
  ghost predicate Dots(ns: Nodes) {
    forall d: nat :: Live(ns, d) ==>
      && Target(ns, d, 0) == d && NameAt(ns, d, 0) == DOT
      && Live(ns, Target(ns, d, 1)) && NameAt(ns, d, 1) == DOTDOT
      && (d == ROOT ==> Target(ns, d, 1) == ROOT)
  }

  /** Directory x has directory d among its entries proper. */
  ghost predicate Holds(ns: Nodes, x: nat, d: nat) {
    exists k: nat :: k >= 2 && Target(ns, x, k) == d
  }

  /** Each directory is named once, in the directory that its ".." names; the root nowhere. */
  ghost predicate Tree(ns: Nodes) {
    && (forall d: nat :: Live(ns, d) && d != ROOT ==> Holds(ns, Target(ns, d, 1), d))
    && (forall d: nat, k: nat :: Live(ns, d) && k >= 2 && KindOf(ns, Target(ns, d, k)) == Dir ==>
          Target(ns, d, k) != ROOT && Target(ns, Target(ns, d, k), 1) == d)
    && (forall d: nat, j: nat, k: nat :: Live(ns, d) && 2 <= j < k && Target(ns, d, j) == Target(ns, d, k) ==>
          KindOf(ns, Target(ns, d, j)) != Dir)
  }

  /** isdirempty: nothing after the first two entries. */
  ghost predicate EmptyDir(ns: Nodes, i: nat) {
    forall k: nat :: k >= 2 ==> Target(ns, i, k) == 0
  }

  /** A directory that is not linked any more has only "." and "..". */
  ghost predicate Dead(ns: Nodes) {
    forall d: nat :: KindOf(ns, d) == Dir && !Live(ns, d) ==>
      && Target(ns, d, 0) == d && NameAt(ns, d, 0) == DOT && NameAt(ns, d, 1) == DOTDOT && EmptyDir(ns, d)
      && 0 < Target(ns, d, 1) < |ns| && Target(ns, d, 1) != d
  }

  ghost predicate Inv(ns: Nodes, p: multiset<nat>) {
    Counted(ns, p) && UniqueNames(ns) && Shape(ns, p) && Dots(ns) && Tree(ns) && Dead(ns)
  }

  lemma InvCounted(ns: Nodes, p: multiset<nat>)
    ensures Inv(ns, p) ==> Counted(ns, p)
  {
  }

  // ------------------------------------------------------------------
  // Counting

  lemma RefsAre(ns: Nodes, t: nat)
    ensures forall x: (nat, nat) :: x in Refs(ns, t) <==> Counts(ns, x.0, x.1, t)
  {
  }

  lemma RefsSame(ns: Nodes, ns': Nodes, t: nat)
    requires forall d: nat, k: nat :: Counts(ns', d, k, t) <==> Counts(ns, d, k, t)
    ensures |Refs(ns', t)| == |Refs(ns, t)|
  {
    hide Counts, Refs;
    RefsAre(ns, t);
    RefsAre(ns', t);
    assert Refs(ns', t) == Refs(ns, t);
  }

  lemma RefsPlus(ns: Nodes, ns': Nodes, t: nat, a: nat, b: nat)
    requires !Counts(ns, a, b, t) && forall d: nat, k: nat :: Counts(ns', d, k, t) <==>
             Counts(ns, d, k, t) || (d == a && k == b)
    ensures |Refs(ns', t)| == |Refs(ns, t)| + 1
  {
    hide Counts, Refs;
    RefsAre(ns, t);
    RefsAre(ns', t);
    assert Refs(ns', t) == Refs(ns, t) + {(a, b)};
  }

  // ------------------------------------------------------------------
  // Adding an entry to a directory

  /** Where dirlink puts an entry: a free slot, or the end. */
  predicate FreeSlot(ns: Nodes, d: nat, k: nat) {
    d < |ns| && k <= |ns[d].entries| && Target(ns, d, k) == 0
  }

  function WithEntry(ns: Nodes, d: nat, k: nat, e: Entry): Nodes
    requires FreeSlot(ns, d, k)
  {
    ns[d := ns[d].(entries := if k < |ns[d].entries| then ns[d].entries[k := e] else ns[d].entries + [e])]
  }

  /** Only entry k of directory d changed, to e. */
  ghost predicate Edited(ns: Nodes, ns': Nodes, d: nat, k: nat, e: Entry) {
    && (forall a: nat, b: nat :: Target(ns', a, b) == if a == d && b == k then e.inum else Target(ns, a, b))
    && (forall a: nat, b: nat :: NameAt(ns', a, b) == if a == d && b == k then e.name else NameAt(ns, a, b))
  }

  ghost predicate SameKinds(ns: Nodes, ns': Nodes) {
    && |ns'| == |ns|
    && (forall t: nat :: KindOf(ns', t) == KindOf(ns, t))
    && (forall t: nat :: LinkOf(ns', t) == LinkOf(ns, t))
  }

  lemma AddEntry(ns: Nodes, d: nat, k: nat, e: Entry)
    requires FreeSlot(ns, d, k)
    ensures Edited(ns, WithEntry(ns, d, k, e), d, k, e) && SameKinds(ns, WithEntry(ns, d, k, e))
  {
  }

  lemma AddedCounts(ns: Nodes, ns': Nodes, d: nat, k: nat, e: Entry, t: nat)
    requires Edited(ns, ns', d, k, e) && SameKinds(ns, ns') && Target(ns, d, k) == 0 && e.name != DOT && Live(ns, d)
    ensures t != 0 ==> |Refs(ns', t)| == |Refs(ns, t)| + if t == e.inum then 1 else 0
  {
    hide KindOf, LinkOf, Target, NameAt, Refs;
    if t != 0 && t == e.inum {
      RefsPlus(ns, ns', t, d, k);
    } else if t != 0 {
      RefsSame(ns, ns', t);
    }
  }

  lemma AddedNames(ns: Nodes, ns': Nodes, d: nat, k: nat, e: Entry)
    requires Edited(ns, ns', d, k, e) && UniqueNames(ns) && forall b: nat :: Target(ns, d, b) != 0 ==>
             NameAt(ns, d, b) != e.name
    ensures UniqueNames(ns')
  {
    hide Target, NameAt;
  }

  // ------------------------------------------------------------------
  // sys_link

  /** The second half of sys_link: the entry for a link already counted. */
  lemma LinkKeeps(ns: Nodes, p: multiset<nat>, d: nat, k: nat, name: Name, i: nat)
    requires Inv(ns, p) && i in p && Live(ns, d) && FreeSlot(ns, d, k)
    requires forall b: nat :: Target(ns, d, b) != 0 ==> NameAt(ns, d, b) != name
    ensures Inv(WithEntry(ns, d, k, Entry(i, name)), p - multiset{i})
  {
    hide KindOf, LinkOf, Target, NameAt, Refs, WithEntry, UniqueNames, Tree, Dead;
    var ns' := WithEntry(ns, d, k, Entry(i, name));
    AddEntry(ns, d, k, Entry(i, name));
    DotsTaken(ns, p, d, k, name);
    forall t: nat | 0 < t < |ns'| ensures LinkOf(ns', t) == |Refs(ns', t)| + (p - multiset{i})[t] {
      AddedCounts(ns, ns', d, k, Entry(i, name), t);
    }
    AddedNames(ns, ns', d, k, Entry(i, name));
    LinkTree(ns, ns', p, d, k, Entry(i, name));
    EditedDead(ns, ns', d, k, Entry(i, name));
  }

  lemma EditedDead(ns: Nodes, ns': Nodes, d: nat, k: nat, e: Entry)
    requires Dead(ns) && |ns'| == |ns| && Live(ns, d) && Edited(ns, ns', d, k, e)
             && (forall t: nat :: KindOf(ns', t) == KindOf(ns, t))
    requires forall t: nat :: Live(ns', t) <==> Live(ns, t)
    ensures Dead(ns')
  {
    hide Target, NameAt, KindOf, LinkOf, Live;
  }

  /** The first two slots of a linked directory and their names are in use. */
  lemma DotsTaken(ns: Nodes, p: multiset<nat>, d: nat, k: nat, name: Name)
    requires Shape(ns, p) && Dots(ns) && Live(ns, d) && Target(ns, d, k) == 0
    requires forall b: nat :: Target(ns, d, b) != 0 ==> NameAt(ns, d, b) != name
    ensures k >= 2 && name != DOT && name != DOTDOT
  {
    hide Target, NameAt, KindOf, LinkOf;
  }

  lemma LinkTree(ns: Nodes, ns': Nodes, p: multiset<nat>, d: nat, k: nat, e: Entry)
    requires Shape(ns, p) && Tree(ns) && Edited(ns, ns', d, k, e) && SameKinds(ns, ns')
    requires k >= 2 && Live(ns, d) && Target(ns, d, k) == 0 && KindOf(ns, e.inum) != Free && KindOf(ns, e.inum) != Dir
    ensures Tree(ns')
  {
    hide Target, NameAt, KindOf, LinkOf;
    forall x: nat | Live(ns', x) && x != ROOT ensures Holds(ns', Target(ns', x, 1), x) {
      var b: nat :| b >= 2 && Target(ns, Target(ns, x, 1), b) == x;
      assert Target(ns', Target(ns', x, 1), b) == x;
    }
  }

  function SetLink(ns: Nodes, i: nat, n: int): Nodes
    requires i < |ns|
  {
    ns[i := ns[i].(nlink := n)]
  }

  /** nlink + 1, as a short. */
  function Inc(n: int): int {
    if n == MAXLINK then -MAXLINK - 1 else n + 1
  }

  /** Only the link count of inode i changed. */
  ghost predicate Relinked(ns: Nodes, ns': Nodes, i: nat, n: int) {
    && |ns'| == |ns|
    && (forall t: nat :: KindOf(ns', t) == KindOf(ns, t))
    && (forall t: nat :: LinkOf(ns', t) == if t == i then n else LinkOf(ns, t))
    && (forall a: nat, b: nat :: Target(ns', a, b) == Target(ns, a, b))
    && (forall a: nat, b: nat :: NameAt(ns', a, b) == NameAt(ns, a, b))
  }

  lemma SetLinkIs(ns: Nodes, i: nat, n: int)
    requires i < |ns|
    ensures Relinked(ns, SetLink(ns, i, n), i, n)
  {
  }

  /** A link count that does not make or unmake a linked directory matters to nothing else. */
  lemma RelinkedSame(ns: Nodes, ns': Nodes, i: nat, n: int)
    requires Relinked(ns, ns', i, n) && (KindOf(ns, i) == Dir ==> (n > 0 <==> LinkOf(ns, i) > 0))
    ensures UniqueNames(ns) ==> UniqueNames(ns')
    ensures Dots(ns) ==> Dots(ns')
    ensures Tree(ns) ==> Tree(ns')
    ensures Dead(ns) ==> Dead(ns')
    ensures forall t: nat :: |Refs(ns', t)| == |Refs(ns, t)|
  {
    hide Target, NameAt, KindOf, LinkOf, Refs;
    assert forall d: nat :: Live(ns', d) <==> Live(ns, d);
    forall t: nat ensures |Refs(ns', t)| == |Refs(ns, t)| {
      RefsSame(ns, ns', t);
    }
    if Tree(ns) {
      forall x: nat | Live(ns', x) && x != ROOT ensures Holds(ns', Target(ns', x, 1), x) {
        var b: nat :| b >= 2 && Target(ns, Target(ns, x, 1), b) == x;
        assert Target(ns', Target(ns', x, 1), b) == x;
      }
    }
  }

  /** The first half of sys_link counts a link that is about to be made; right exactly when the count has room. */
  lemma LinkBegins(ns: Nodes, p: multiset<nat>, i: nat)
    requires Inv(ns, p) && 0 < i < |ns| && KindOf(ns, i) != Free && KindOf(ns, i) != Dir
    ensures Inv(SetLink(ns, i, Inc(LinkOf(ns, i))), p + multiset{i}) <==> LinkOf(ns, i) != MAXLINK
    ensures Counted(SetLink(ns, i, Inc(LinkOf(ns, i))), p + multiset{i}) <==> LinkOf(ns, i) != MAXLINK
  {
    hide Target, NameAt, KindOf, LinkOf, Refs, SetLink, UniqueNames, Tree, Dots, Dead;
    var ns' := SetLink(ns, i, Inc(LinkOf(ns, i)));
    SetLinkIs(ns, i, Inc(LinkOf(ns, i)));
    RelinkedSame(ns, ns', i, Inc(LinkOf(ns, i)));
    assert LinkOf(ns', i) != |Refs(ns', i)| + (p + multiset{i})[i] <==> LinkOf(ns, i) == MAXLINK;
  }

  /** The failure path of sys_link takes the count back. */
  lemma LinkFails(ns: Nodes, p: multiset<nat>, i: nat)
    requires Inv(ns, p) && i in p && 0 < i < |ns|
    ensures Inv(SetLink(ns, i, LinkOf(ns, i) - 1), p - multiset{i})
  {
    hide Target, NameAt, KindOf, LinkOf, Refs, SetLink, UniqueNames, Tree, Dots, Dead;
    var ns' := SetLink(ns, i, LinkOf(ns, i) - 1);
    SetLinkIs(ns, i, LinkOf(ns, i) - 1);
    RelinkedSame(ns, ns', i, LinkOf(ns, i) - 1);
  }

  // ------------------------------------------------------------------
  // create

  /** A free inode, newly made. */
  function WithNode(ns: Nodes, i: nat, x: Node): Nodes
    requires i < |ns|
  {
    ns[i := x]
  }

  /** A new file counts as linked before its entry is there. */
  lemma AllocKeeps(ns: Nodes, p: multiset<nat>, i: nat, kind: Kind)
    requires Inv(ns, p) && 0 < i < |ns| && KindOf(ns, i) == Free && (kind == File || kind == Device)
    ensures Inv(WithNode(ns, i, Node(kind, 1, [])), p + multiset{i})
  {
    hide Refs, UniqueNames, Tree, Dots, WithNode, Dead;
    var ns' := WithNode(ns, i, Node(kind, 1, []));
    AllocIs(ns, i, kind);
    AllocSame(ns, ns', p, i, kind);
  }

  /** Inode i, which had nothing, became a file. */
  ghost predicate Allocated(ns: Nodes, ns': Nodes, i: nat, kind: Kind) {
    && |ns'| == |ns|
    && (forall t: nat :: KindOf(ns', t) == if t == i then kind else KindOf(ns, t))
    && (forall t: nat :: LinkOf(ns', t) == if t == i then 1 else LinkOf(ns, t))
    && (forall a: nat, b: nat :: Target(ns', a, b) == if a == i then 0 else Target(ns, a, b))
    && (forall a: nat, b: nat :: NameAt(ns', a, b) == if a == i then "" else NameAt(ns, a, b))
  }

  lemma AllocIs(ns: Nodes, i: nat, kind: Kind)
    requires i < |ns|
    ensures Allocated(ns, WithNode(ns, i, Node(kind, 1, [])), i, kind)
  {
  }

  lemma AllocSame(ns: Nodes, ns': Nodes, p: multiset<nat>, i: nat, kind: Kind)
    requires Inv(ns, p) && Allocated(ns, ns', i, kind) && 0 < i < |ns| && KindOf(ns, i) == Free && kind != Dir
             && kind != Free
    ensures Inv(ns', p + multiset{i})
  {
    hide Target, NameAt, KindOf, LinkOf, Refs, UniqueNames, Dots, Tree, Dead;
    Untargeted(ns, p, i);
    Elsewhere(ns, ns', i);
  }

  /** Inode i, which is no linked directory and which none names, changed and has no entries. */
  lemma Elsewhere(ns: Nodes, ns': Nodes, i: nat)
    requires |ns'| == |ns| && UniqueNames(ns) && Dots(ns) && Tree(ns) && Dead(ns) && !Live(ns, i) && !Live(ns', i)
             && KindOf(ns', i) != Dir
    requires forall t: nat :: t != i ==> KindOf(ns', t) == KindOf(ns, t)
    requires forall t: nat :: t != i ==> LinkOf(ns', t) == LinkOf(ns, t)
    requires forall a: nat, b: nat :: Target(ns', a, b) == if a == i then 0 else Target(ns, a, b)
    requires forall a: nat, b: nat :: NameAt(ns', a, b) == if a == i then "" else NameAt(ns, a, b)
    requires forall d: nat, k: nat :: Live(ns, d) ==> Target(ns, d, k) != i
    ensures UniqueNames(ns') && Dots(ns') && Tree(ns') && Dead(ns') && (forall d: nat :: Live(ns', d) <==> Live(ns, d))
    ensures forall t: nat :: |Refs(ns', t)| == |Refs(ns, t)|
  {
    hide Target, NameAt, KindOf, LinkOf, Refs;
    assert forall d: nat :: Live(ns', d) <==> Live(ns, d);
    forall t: nat ensures |Refs(ns', t)| == |Refs(ns, t)| {
      RefsSame(ns, ns', t);
    }
    forall x: nat | Live(ns', x) && x != ROOT ensures Holds(ns', Target(ns', x, 1), x) {
      var b: nat :| b >= 2 && Target(ns, Target(ns, x, 1), b) == x;
      assert Target(ns', Target(ns', x, 1), b) == x;
    }
  }

  /** Nothing names a free inode. */
  lemma Untargeted(ns: Nodes, p: multiset<nat>, i: nat)
    requires Shape(ns, p) && KindOf(ns, i) == Free && i != 0
    ensures forall d: nat, k: nat :: Live(ns, d) ==> Target(ns, d, k) != i
    ensures forall k: nat :: Target(ns, i, k) == 0
  {
    hide Target, NameAt, LinkOf;
  }

  /** create of a directory i in d: its two entries, the entry in d, and d's link for "..". */
  function WithDir(ns: Nodes, d: nat, k: nat, name: Name, i: nat): Nodes
    requires i < |ns| && FreeSlot(ns, d, k) && i != d
  {
    var made := WithNode(ns, i, Node(Dir, 1, [Entry(i, DOT), Entry(d, DOTDOT)]));
    SetLink(WithEntry(made, d, k, Entry(i, name)), d, Inc(ns[d].nlink))
  }

  ghost predicate DirMade(ns: Nodes, ns': Nodes, d: nat, k: nat, name: Name, i: nat) {
    && |ns'| == |ns|
    && (forall t: nat :: KindOf(ns', t) == if t == i then Dir else KindOf(ns, t))
    && (forall t: nat :: LinkOf(ns', t) == if t == i then 1 else if t == d then Inc(LinkOf(ns, d)) else LinkOf(ns, t))
    && (forall a: nat, b: nat :: Target(ns', a, b) ==
          if a == i then (if b == 0 then i else if b == 1 then d else 0)
          else if a == d && b == k then i
          else Target(ns, a, b))
    && (forall a: nat, b: nat :: NameAt(ns', a, b) ==
          if a == i then (if b == 0 then DOT else if b == 1 then DOTDOT else "")
          else if a == d && b == k then name
          else NameAt(ns, a, b))
  }

  lemma WithDirIs(ns: Nodes, d: nat, k: nat, name: Name, i: nat)
    requires i < |ns| && FreeSlot(ns, d, k) && i != d
    ensures DirMade(ns, WithDir(ns, d, k, name, i), d, k, name, i)
  {
  }

  /** A new directory keeps everything right, provided its parent is linked and the parent's count has room. */
  lemma MkdirKeeps(ns: Nodes, p: multiset<nat>, d: nat, k: nat, name: Name, i: nat)
    requires Inv(ns, p) && 0 < i < |ns| && KindOf(ns, i) == Free && Live(ns, d) && FreeSlot(ns, d, k)
             && LinkOf(ns, d) != MAXLINK
    requires forall b: nat :: Target(ns, d, b) != 0 ==> NameAt(ns, d, b) != name
    ensures i != d && Inv(WithDir(ns, d, k, name, i), p)
  {
    hide KindOf, LinkOf, Target, NameAt, Refs, WithDir, Counted, UniqueNames, Tree, Dead;
    var ns' := WithDir(ns, d, k, name, i);
    WithDirIs(ns, d, k, name, i);
    DotsTaken(ns, p, d, k, name);
    Untargeted(ns, p, i);
    MadeLive(ns, ns', p, d, k, name, i);
    MadeCounts(ns, ns', p, d, k, name, i);
    MadeNames(ns, ns', d, k, name, i);
    MadeTree(ns, ns', p, d, k, name, i);
    MadeDead(ns, ns', d, k, name, i);
  }

  lemma MadeDead(ns: Nodes, ns': Nodes, d: nat, k: nat, name: Name, i: nat)
    requires Dead(ns) && DirMade(ns, ns', d, k, name, i) && Live(ns, d)
    requires forall x: nat :: Live(ns', x) <==> Live(ns, x) || x == i
    ensures Dead(ns')
  {
    hide KindOf, LinkOf, Target, NameAt, Live;
  }

  lemma MadeLive(ns: Nodes, ns': Nodes, p: multiset<nat>, d: nat, k: nat, name: Name, i: nat)
    requires Shape(ns, p) && DirMade(ns, ns', d, k, name, i) && KindOf(ns, i) == Free && Live(ns, d)
             && LinkOf(ns, d) != MAXLINK
    ensures i != d && forall x: nat :: Live(ns', x) <==> Live(ns, x) || x == i
  {
    hide KindOf, LinkOf, Target, NameAt;
  }

  lemma MadeCounts(ns: Nodes, ns': Nodes, p: multiset<nat>, d: nat, k: nat, name: Name, i: nat)
    requires Shape(ns, p) && Counted(ns, p) && DirMade(ns, ns', d, k, name, i) && 0 < i < |ns| && KindOf(ns, i) == Free
    requires Live(ns, d) && LinkOf(ns, d) != MAXLINK && Target(ns, d, k) == 0 && name != DOT
    ensures Counted(ns', p)
  {
    hide KindOf, LinkOf, Target, NameAt, Refs;
    MadeLive(ns, ns', p, d, k, name, i);
    Untargeted(ns, p, i);
    forall t: nat | 0 < t < |ns'| ensures LinkOf(ns', t) == |Refs(ns', t)| + p[t] {
      if t == i {
        RefsPlus(ns, ns', t, d, k);
        assert |Refs(ns, i)| + p[i] == 0;
      } else if t == d {
        RefsPlus(ns, ns', t, i, 1);
      } else {
        RefsSame(ns, ns', t);
      }
    }
  }

  lemma MadeNames(ns: Nodes, ns': Nodes, d: nat, k: nat, name: Name, i: nat)
    requires UniqueNames(ns) && DirMade(ns, ns', d, k, name, i)
    requires forall b: nat :: Target(ns, d, b) != 0 ==> NameAt(ns, d, b) != name
    ensures UniqueNames(ns')
  {
    hide KindOf, LinkOf, Target, NameAt;
  }

  lemma MadeTree(ns: Nodes, ns': Nodes, p: multiset<nat>, d: nat, k: nat, name: Name, i: nat)
    requires Shape(ns, p) && Dots(ns) && Tree(ns) && DirMade(ns, ns', d, k, name, i) && i != 0 && KindOf(ns, i) == Free
    requires Live(ns, d) && LinkOf(ns, d) != MAXLINK && k >= 2 && Target(ns, d, k) == 0
    ensures Tree(ns')
  {
    hide KindOf, LinkOf, Target, NameAt;
    MadeLive(ns, ns', p, d, k, name, i);
    Untargeted(ns, p, i);
    forall x: nat | Live(ns', x) && x != ROOT ensures Holds(ns', Target(ns', x, 1), x) {
      if x == i {
        assert Target(ns', d, k) == i;
      } else {
        var b: nat :| b >= 2 && Target(ns, Target(ns, x, 1), b) == x;
        assert Target(ns', Target(ns', x, 1), b) == x;
      }
    }
  }

  // ------------------------------------------------------------------
  // sys_unlink

  function WithoutEntry(ns: Nodes, d: nat, k: nat): Nodes
    requires d < |ns| && k < |ns[d].entries|
  {
    ns[d := ns[d].(entries := ns[d].entries[k := Entry(0, "")])]
  }

  lemma RefsMinus(ns: Nodes, ns': Nodes, t: nat, a: nat, b: nat)
    requires Counts(ns, a, b, t) && forall d: nat, k: nat :: Counts(ns', d, k, t) <==>
             Counts(ns, d, k, t) && !(d == a && k == b)
    ensures |Refs(ns', t)| == |Refs(ns, t)| - 1
  {
    hide Counts, Refs;
    RefsAre(ns, t);
    RefsAre(ns', t);
    assert Refs(ns', t) == Refs(ns, t) - {(a, b)};
  }

  /** Removing the name of a file. */
  function Unlinked(ns: Nodes, d: nat, k: nat, i: nat): Nodes
    requires d < |ns| && k < |ns[d].entries| && i < |ns|
  {
    SetLink(WithoutEntry(ns, d, k), i, ns[i].nlink - 1)
  }

  ghost predicate FileGone(ns: Nodes, ns': Nodes, d: nat, k: nat, i: nat) {
    && |ns'| == |ns| && Edited(ns, ns', d, k, Entry(0, ""))
    && (forall t: nat :: KindOf(ns', t) == KindOf(ns, t))
    && (forall t: nat :: LinkOf(ns', t) == if t == i then LinkOf(ns, t) - 1 else LinkOf(ns, t))
  }

  lemma UnlinkedIs(ns: Nodes, d: nat, k: nat, i: nat)
    requires d < |ns| && k < |ns[d].entries| && i < |ns|
    ensures FileGone(ns, Unlinked(ns, d, k, i), d, k, i)
  {
  }

  lemma UnlinkFileKeeps(ns: Nodes, p: multiset<nat>, d: nat, k: nat, i: nat)
    requires Inv(ns, p) && Live(ns, d) && k >= 2 && Target(ns, d, k) == i != 0 && KindOf(ns, i) != Dir
             && NameAt(ns, d, k) != DOT
    ensures d < |ns| && k < |ns[d].entries| && i < |ns| && LinkOf(ns, i) >= 1 && Inv(Unlinked(ns, d, k, i), p)
  {
    hide KindOf, LinkOf, Target, NameAt, Refs, Unlinked, UniqueNames, Dots, Tree, Dead;
    TargetThere(ns, p, d, k);
    var ns' := Unlinked(ns, d, k, i);
    UnlinkedIs(ns, d, k, i);
    RefsThere(ns, d, k, i);
    assert forall x: nat :: Live(ns', x) <==> Live(ns, x);
    GoneCounts(ns, ns', p, d, k, i);
    GoneTree(ns, ns', p, d, k, i);
    EditedDead(ns, ns', d, k, Entry(0, ""));
  }

  lemma TargetThere(ns: Nodes, p: multiset<nat>, d: nat, k: nat)
    requires Shape(ns, p) && Live(ns, d) && Target(ns, d, k) != 0
    ensures d < |ns| && k < |ns[d].entries| && Target(ns, d, k) < |ns|
  {
  }

  lemma RefsThere(ns: Nodes, d: nat, k: nat, t: nat)
    requires Counts(ns, d, k, t)
    ensures |Refs(ns, t)| >= 1
  {
    hide Counts, Refs;
    RefsAre(ns, t);
    assert (d, k) in Refs(ns, t);
  }

  lemma GoneCounts(ns: Nodes, ns': Nodes, p: multiset<nat>, d: nat, k: nat, i: nat)
    requires Counted(ns, p) && FileGone(ns, ns', d, k, i) && Counts(ns, d, k, i) && KindOf(ns, i) != Dir
    ensures Counted(ns', p)
  {
    hide KindOf, LinkOf, Target, NameAt, Refs;
    assert forall x: nat :: Live(ns', x) <==> Live(ns, x);
    forall t: nat | 0 < t < |ns'| ensures LinkOf(ns', t) == |Refs(ns', t)| + p[t] {
      if t == i {
        RefsMinus(ns, ns', t, d, k);
      } else {
        RefsSame(ns, ns', t);
      }
    }
  }

  lemma GoneTree(ns: Nodes, ns': Nodes, p: multiset<nat>, d: nat, k: nat, i: nat)
    requires UniqueNames(ns) && Shape(ns, p) && Dots(ns) && Tree(ns) && FileGone(ns, ns', d, k, i)
    requires Live(ns, d) && Target(ns, d, k) == i != 0 && k >= 2 && KindOf(ns, i) != Dir
    ensures UniqueNames(ns') && Shape(ns', p) && Dots(ns') && Tree(ns')
  {
    hide KindOf, LinkOf, Target, NameAt, UniqueNames, Dots, Tree;
    assert forall x: nat :: Live(ns', x) <==> Live(ns, x);
    ClearedNames(ns, ns', d, k);
    ClearedTree(ns, ns', d, k, 0);
  }

  lemma ClearedNames(ns: Nodes, ns': Nodes, d: nat, k: nat)
    requires UniqueNames(ns) && Edited(ns, ns', d, k, Entry(0, ""))
    ensures UniqueNames(ns')
  {
    hide KindOf, LinkOf, Target, NameAt;
  }

  /** The name of a file, or of an empty directory x that is not linked any more, is no part of the tree. */
  lemma ClearedTree(ns: Nodes, ns': Nodes, d: nat, k: nat, x: nat)
    requires Dots(ns) && Tree(ns) && Edited(ns, ns', d, k, Entry(0, "")) && k >= 2 && Live(ns, d) && x != ROOT && x != d
    requires forall t: nat :: KindOf(ns', t) == KindOf(ns, t)
    requires (forall t: nat :: Live(ns', t) <==> Live(ns, t) && t != x) && KindOf(ns, 0) == Free
    requires if x == 0 then KindOf(ns, Target(ns, d, k)) != Dir else EmptyDir(ns, x) && Target(ns, d, k) == x
    ensures Dots(ns') && Tree(ns')
  {
    hide KindOf, LinkOf, Target, NameAt;
    forall t: nat | Live(ns', t) && t != ROOT ensures Holds(ns', Target(ns', t, 1), t) && Target(ns, t, 1) != x {
      var b: nat :| b >= 2 && Target(ns, Target(ns, t, 1), b) == t;
      assert Target(ns', Target(ns', t, 1), b) == t;
    }
  }

  /** An empty directory is counted once, by the entry that names it. */
  lemma EmptyDirOnce(ns: Nodes, p: multiset<nat>, d: nat, k: nat, i: nat)
    requires Inv(ns, p) && Live(ns, d) && k >= 2 && Target(ns, d, k) == i && KindOf(ns, i) == Dir && EmptyDir(ns, i)
             && i < |ns|
    ensures i != d && i != ROOT && i != 0 && LinkOf(ns, i) == 1 && Target(ns, i, 1) == d
    ensures forall a: nat, b: nat :: Counts(ns, a, b, i) <==> a == d && b == k
  {
    hide KindOf, LinkOf, Target, NameAt, Refs, Counts, UniqueNames, Shape, Tree, Dots;
    OnlyName(ns, p, d, k, i);
    RefsAre(ns, i);
    assert Refs(ns, i) == {(d, k)};
  }

  lemma OnlyName(ns: Nodes, p: multiset<nat>, d: nat, k: nat, i: nat)
    requires Inv(ns, p) && Live(ns, d) && k >= 2 && Target(ns, d, k) == i && KindOf(ns, i) == Dir && EmptyDir(ns, i)
    ensures i != d && i != ROOT && i != 0 && p[i] == 0 && Target(ns, i, 1) == d
    ensures forall a: nat, b: nat :: Counts(ns, a, b, i) <==> a == d && b == k
  {
    hide KindOf, LinkOf, Target, NameAt, Counted;
    assert NameAt(ns, d, k) != DOT by {
      assert Target(ns, d, 0) != 0 && NameAt(ns, d, 0) == DOT;
    }
    forall a: nat, b: nat | Counts(ns, a, b, i) ensures a == d && b == k {
      assert b == 1 && a != ROOT ==> Holds(ns, i, a);
    }
  }

  /** Removing an empty directory. */
  function Removed(ns: Nodes, d: nat, k: nat, i: nat): Nodes
    requires d < |ns| && k < |ns[d].entries| && i < |ns| && i != d
  {
    SetLink(SetLink(WithoutEntry(ns, d, k), d, ns[d].nlink - 1), i, ns[i].nlink - 1)
  }

  ghost predicate DirGone(ns: Nodes, ns': Nodes, d: nat, k: nat, i: nat) {
    && |ns'| == |ns| && Edited(ns, ns', d, k, Entry(0, ""))
    && (forall t: nat :: KindOf(ns', t) == KindOf(ns, t))
    && (forall t: nat :: LinkOf(ns', t) == if t == i || t == d then LinkOf(ns, t) - 1 else LinkOf(ns, t))
  }

  lemma RemovedIs(ns: Nodes, d: nat, k: nat, i: nat)
    requires d < |ns| && k < |ns[d].entries| && i < |ns| && i != d
    ensures DirGone(ns, Removed(ns, d, k, i), d, k, i)
  {
  }

  /** sys_unlink of a directory: it had exactly one link. */
  lemma UnlinkDirKeeps(ns: Nodes, p: multiset<nat>, d: nat, k: nat, i: nat)
    requires Inv(ns, p) && Live(ns, d) && k >= 2 && Target(ns, d, k) == i && KindOf(ns, i) == Dir && EmptyDir(ns, i)
    ensures d < |ns| && k < |ns[d].entries| && i < |ns| && i != d && LinkOf(ns, i) == 1
    ensures Inv(Removed(ns, d, k, i), p) && !Live(Removed(ns, d, k, i), i)
  {
    hide KindOf, LinkOf, Target, NameAt, Refs, Removed, Counted, UniqueNames, Tree, Dots, Counts, Dead;
    TargetThere(ns, p, d, k);
    EmptyDirOnce(ns, p, d, k, i);
    var ns' := Removed(ns, d, k, i);
    RemovedIs(ns, d, k, i);
    RemovedLive(ns, ns', p, d, k, i);
    RemovedCounts(ns, ns', p, d, k, i);
    RemovedTree(ns, ns', p, d, k, i);
    RemovedDead(ns, ns', d, k, i);
  }

  lemma RemovedDead(ns: Nodes, ns': Nodes, d: nat, k: nat, i: nat)
    requires Dead(ns) && Dots(ns) && DirGone(ns, ns', d, k, i) && Live(ns, i) && EmptyDir(ns, i)
             && Target(ns, i, 1) == d
    requires i != d && k >= 2 && 0 < d < |ns| && Live(ns, d)
    requires forall x: nat :: Live(ns', x) <==> Live(ns, x) && x != i
    ensures Dead(ns')
  {
    hide KindOf, LinkOf, Target, NameAt, Live;
  }

  /** The parent stays linked: it is the root, or its own parent names it, besides the ".." that goes. */
  lemma RemovedLive(ns: Nodes, ns': Nodes, p: multiset<nat>, d: nat, k: nat, i: nat)
    requires d < |ns| && Target(ns, i, 1) == d != 0 && Inv(ns, p) && DirGone(ns, ns', d, k, i) && Live(ns, d)
             && Target(ns, d, k) == i && k >= 2 && i != d && i != ROOT
    requires LinkOf(ns, i) == 1 && KindOf(ns, i) == Dir
    ensures LinkOf(ns, d) >= 2 && forall x: nat :: Live(ns', x) <==> Live(ns, x) && x != i
  {
    hide KindOf, LinkOf, Target, NameAt, Refs, Counted, UniqueNames, Shape, Tree;
    assert NameAt(ns, i, 1) == DOTDOT;
    assert Counts(ns, i, 1, d);
    TwoLinks(ns, p, d, i);
  }

  lemma TwoLinks(ns: Nodes, p: multiset<nat>, d: nat, i: nat)
    requires Inv(ns, p) && Live(ns, d) && Counts(ns, i, 1, d) && i != d && i != ROOT && 0 < d < |ns|
    ensures LinkOf(ns, d) >= 2
  {
    hide KindOf, LinkOf, Target, NameAt, Refs, Counts, UniqueNames, Shape, Dots, Tree, Dead;
    var a, b := OtherRef(ns, p, d, i);
    RefsAre(ns, d);
    SubsetSize({(i, 1), (a, b)}, Refs(ns, d));
  }

  /** Besides a child's "..", a directory is named by its parent, the root by itself. */
  lemma OtherRef(ns: Nodes, p: multiset<nat>, d: nat, i: nat) returns (a: nat, b: nat)
    requires Shape(ns, p) && UniqueNames(ns) && Dots(ns) && Tree(ns) && Live(ns, d) && Counts(ns, i, 1, d) && i != ROOT
    ensures Counts(ns, a, b, d) && !(a == i && b == 1)
  {
    hide KindOf, LinkOf, Target, NameAt;
    if d == ROOT {
      return ROOT, 1;
    }
    a := Target(ns, d, 1);
    b :| b >= 2 && Target(ns, a, b) == d;
    assert Target(ns, a, 0) != 0 && NameAt(ns, a, 0) == DOT;
  }

  lemma RemovedCounts(ns: Nodes, ns': Nodes, p: multiset<nat>, d: nat, k: nat, i: nat)
    requires Counted(ns, p) && Dots(ns) && DirGone(ns, ns', d, k, i) && Live(ns, d) && Live(ns, i)
             && Target(ns, d, k) == i
    requires i != d && i != 0 && Target(ns, i, 1) == d != 0 && EmptyDir(ns, i) && KindOf(ns, 0) == Free
    requires (forall x: nat :: Live(ns', x) <==> Live(ns, x) && x != i)
             && forall a: nat, b: nat :: Counts(ns, a, b, i) <==> a == d && b == k
    ensures Counted(ns', p)
  {
    hide KindOf, LinkOf, Target, NameAt, Refs;
    forall t: nat | 0 < t < |ns'| ensures LinkOf(ns', t) == |Refs(ns', t)| + p[t] {
      if t == i {
        RefsMinus(ns, ns', t, d, k);
      } else if t == d {
        RefsMinus(ns, ns', t, i, 1);
      } else {
        RefsSame(ns, ns', t);
      }
    }
  }

  lemma RemovedTree(ns: Nodes, ns': Nodes, p: multiset<nat>, d: nat, k: nat, i: nat)
    requires UniqueNames(ns) && Shape(ns, p) && Dots(ns) && Tree(ns) && DirGone(ns, ns', d, k, i)
    requires Live(ns, d) && Live(ns, i) && Target(ns, d, k) == i && k >= 2 && EmptyDir(ns, i) && i != ROOT && i != 0
             && i != d
    requires (forall x: nat :: Live(ns', x) <==> Live(ns, x) && x != i)
    ensures UniqueNames(ns') && Shape(ns', p) && Dots(ns') && Tree(ns')
  {
    hide KindOf, LinkOf, Target, NameAt, UniqueNames, Dots, Tree;
    ClearedNames(ns, ns', d, k);
    ClearedTree(ns, ns', d, k, i);
  }

  // ------------------------------------------------------------------
  // iput

  /** The last iput of an inode without links frees it. */
  lemma FreeKeeps(ns: Nodes, p: multiset<nat>, i: nat)
    requires Inv(ns, p) && 0 < i < |ns| && LinkOf(ns, i) == 0
    ensures Inv(WithNode(ns, i, Node(Free, 0, [])), p)
  {
    hide Refs, UniqueNames, Tree, Dots, WithNode, Counted, Dead;
    FreedIs(ns, i);
    FreedSame(ns, WithNode(ns, i, Node(Free, 0, [])), p, i);
  }

  ghost predicate Freed(ns: Nodes, ns': Nodes, i: nat) {
    && |ns'| == |ns|
    && (forall t: nat :: KindOf(ns', t) == if t == i then Free else KindOf(ns, t))
    && (forall t: nat :: LinkOf(ns', t) == if t == i then 0 else LinkOf(ns, t))
    && (forall a: nat, b: nat :: Target(ns', a, b) == if a == i then 0 else Target(ns, a, b))
    && (forall a: nat, b: nat :: NameAt(ns', a, b) == if a == i then "" else NameAt(ns, a, b))
  }

  lemma FreedIs(ns: Nodes, i: nat)
    requires i < |ns|
    ensures Freed(ns, WithNode(ns, i, Node(Free, 0, [])), i)
  {
  }

  lemma FreedSame(ns: Nodes, ns': Nodes, p: multiset<nat>, i: nat)
    requires Inv(ns, p) && Freed(ns, ns', i) && 0 < i < |ns| && LinkOf(ns, i) == 0
    ensures Inv(ns', p)
  {
    hide Target, NameAt, KindOf, LinkOf, Refs, UniqueNames, Dots, Tree, Dead;
    NotCounted(ns, p, i);
    Elsewhere(ns, ns', i);
  }

  /** An inode without links is named by no linked directory. */
  lemma NotCounted(ns: Nodes, p: multiset<nat>, i: nat)
    requires Inv(ns, p) && 0 < i < |ns| && LinkOf(ns, i) == 0
    ensures p[i] == 0 && forall d: nat, k: nat :: Live(ns, d) ==> Target(ns, d, k) != i
  {
    hide Target, NameAt, KindOf, LinkOf, Refs, Tree;
    RefsAre(ns, i);
    forall d: nat, k: nat | Live(ns, d) ensures Target(ns, d, k) != i {
      assert Counts(ns, d, k, i) ==> (d, k) in Refs(ns, i);
      assert k > 0 && Target(ns, d, k) != 0 ==> NameAt(ns, d, 0) != NameAt(ns, d, k);
    }
  }

  // ------------------------------------------------------------------
  // A parent that is not linked

  /** An entry made in a directory that is not linked does not count. */
  lemma DeadLink(ns: Nodes, p: multiset<nat>, d: nat, k: nat, name: Name, i: nat)
    requires Inv(ns, p) && i in p && 0 < i < |ns| && !Live(ns, d) && FreeSlot(ns, d, k)
    ensures !Counted(WithEntry(ns, d, k, Entry(i, name)), p - multiset{i})
  {
    hide KindOf, LinkOf, Target, NameAt, Refs, WithEntry, UniqueNames, Tree, Dead, Shape, Dots;
    var ns' := WithEntry(ns, d, k, Entry(i, name));
    AddEntry(ns, d, k, Entry(i, name));
    assert forall a: nat, b: nat :: Counts(ns', a, b, i) <==> Counts(ns, a, b, i);
    RefsSame(ns, ns', i);
    assert LinkOf(ns', i) != |Refs(ns', i)| + (p - multiset{i})[i];
  }

  /** A directory made in one that is not linked brings that one back, uncounted by its own parent. */
  lemma DeadMkdir(ns: Nodes, p: multiset<nat>, d: nat, k: nat, name: Name, i: nat)
    requires Inv(ns, p) && 0 < i < |ns| && KindOf(ns, i) == Free && KindOf(ns, d) == Dir && !Live(ns, d)
             && FreeSlot(ns, d, k)
    requires k >= 2 && name != DOT
    ensures i != d && !Counted(WithDir(ns, d, k, name, i), p)
  {
    hide KindOf, LinkOf, Target, NameAt, Refs, WithDir, UniqueNames, Tree, Dots;
    var ns', x := WithDir(ns, d, k, name, i), Target(ns, d, 1);
    WithDirIs(ns, d, k, name, i);
    assert LinkOf(ns, d) == 0;
    assert Live(ns', d) && Counts(ns', d, 1, x);
    RefsAre(ns', x);
    if x == i {
      assert Counts(ns', d, k, x);
      SubsetSize({(d, 1), (d, k)}, Refs(ns', x));
      assert LinkOf(ns', x) < |Refs(ns', x)|;
    } else {
      RefsAre(ns, x);
      assert forall a: nat, b: nat :: Counts(ns, a, b, x) ==> Counts(ns', a, b, x);
      SubsetSize(Refs(ns, x) + {(d, 1)}, Refs(ns', x));
      assert LinkOf(ns', x) < |Refs(ns', x)| + p[x];
    }
  }

  /** A parent whose count is full cannot take another directory. */
  lemma FullMkdir(ns: Nodes, p: multiset<nat>, d: nat, k: nat, name: Name, i: nat)
    requires Inv(ns, p) && 0 < i < |ns| && 0 < d < |ns| && i != d && FreeSlot(ns, d, k) && LinkOf(ns, d) == MAXLINK
    ensures !Counted(WithDir(ns, d, k, name, i), p)
  {
    hide KindOf, LinkOf, Target, NameAt, Refs, WithDir, UniqueNames, Tree, Dots, Dead, Shape;
    var ns' := WithDir(ns, d, k, name, i);
    WithDirIs(ns, d, k, name, i);
    assert LinkOf(ns', d) < 0;
  }

  // ------------------------------------------------------------------
  // The operations

  /** No entry of d has this name. */
  ghost predicate Absent(ns: Nodes, d: nat, name: Name) {
    forall b: nat :: Target(ns, d, b) != 0 ==> NameAt(ns, d, b) != name
  }

  /** dirlookup's search, from entry k on: the first entry with this name, or -1. */
  function FindFrom(es: seq<Entry>, name: Name, k: nat): (r: int)
    ensures -1 <= r < |es|
    decreases |es| - k
  {
    if k >= |es| then -1
    else if es[k].inum != 0 && es[k].name == name then k
    else FindFrom(es, name, k + 1)
  }

  /** dirlink's search, from entry k on: the first free entry, or the end. */
  function SlotFrom(es: seq<Entry>, k: nat): (r: nat)
    requires k <= |es|
    ensures k <= r <= |es| && (r < |es| ==> es[r].inum == 0)
    decreases |es| - k
  {
    if k == |es| || es[k].inum == 0 then k else SlotFrom(es, k + 1)
  }

  /** ialloc's search, from inode t on: the first free inode, or 0. */
  function FreeFrom(ns: Nodes, t: nat): (r: nat)
    requires t > 0
    ensures r != 0 ==> t <= r < |ns| && ns[r].kind == Free
    ensures r == 0 ==> forall x :: t <= x < |ns| ==> ns[x].kind != Free
    decreases |ns| - t
  {
    if t >= |ns| then 0 else if ns[t].kind == Free then t else FreeFrom(ns, t + 1)
  }

  function Find(ns: Nodes, d: nat, name: Name): int
    requires d < |ns|
  {
    FindFrom(ns[d].entries, name, 0)
  }

  /** The inode that a name in d stands for, 0 if the name is not there. */
  function Named(ns: Nodes, d: nat, name: Name): nat
    requires d < |ns|
  {
    var k := Find(ns, d, name);
    if k < 0 then 0 else Target(ns, d, k)
  }

  function Slot(ns: Nodes, d: nat): nat
    requires d < |ns|
  {
    SlotFrom(ns[d].entries, 0)
  }

  /** What the searches find, in the terms of the invariant. */
  lemma {:induction false} FindFromIs(ns: Nodes, d: nat, name: Name, k: nat)
    requires d < |ns|
    ensures var r := FindFrom(ns[d].entries, name, k);
            && (r < 0 <==> forall b: nat :: b >= k && Target(ns, d, b) != 0 ==> NameAt(ns, d, b) != name)
            && (r >= 0 ==> r >= k && Target(ns, d, r) != 0 && NameAt(ns, d, r) == name)
    decreases |ns[d].entries| - k
  {
    var es := ns[d].entries;
    if k < |es| {
      assert Target(ns, d, k) == es[k].inum && NameAt(ns, d, k) == es[k].name;
      if !(es[k].inum != 0 && es[k].name == name) {
        FindFromIs(ns, d, name, k + 1);
      }
    }
  }

  lemma FindIs(ns: Nodes, d: nat, name: Name)
    requires d < |ns|
    ensures (Find(ns, d, name) < 0 <==> Absent(ns, d, name)) && Find(ns, d, name) < |ns[d].entries|
    ensures Find(ns, d, name) >= 0 ==> Target(ns, d, Find(ns, d, name)) != 0 && NameAt(ns, d, Find(ns, d, name)) == name
  {
    FindFromIs(ns, d, name, 0);
  }

  lemma SlotIs(ns: Nodes, d: nat)
    requires d < |ns|
    ensures FreeSlot(ns, d, Slot(ns, d))
  {
  }

  /** The calls that change directories, with what nameiparent found and which writes have room. */
  datatype Call =
    | Make(d: nat, name: Name, kind: Kind, rooms: seq<bool>)
    | StartLink(i: nat)
    | EndLink(i: nat, parent: Option<nat>, name: Name, room: bool)
    | Remove(d: nat, name: Name)
    | Release(i: nat)

  /** What the kernel's callers see to: parents are directories, and inodes are in use. */
  ghost predicate Sensible(ns: Nodes, p: multiset<nat>, c: Call) {
    match c
    case Make(d, _, kind, rooms) => d < |ns| && ns[d].kind == Dir && kind != Free && |rooms| == 3
    case StartLink(i) => 0 < i < |ns| && ns[i].kind != Free
    case EndLink(i, parent, _, _) =>
      i in p && 0 < i < |ns| && (parent.Some? ==> parent.value < |ns| && ns[parent.value].kind == Dir)
    case Remove(d, _) => d < |ns| && ns[d].kind == Dir
    case Release(i) => 0 < i < |ns|
  }

  /** create finds an inode and room for all it writes. */
  predicate Makes(ns: Nodes, kind: Kind, rooms: seq<bool>)
    requires |rooms| == 3
  {
    FreeFrom(ns, 1) != 0 && rooms[2] && (kind == Dir ==> rooms[0] && rooms[1])
  }

  /** create: nothing for a name that is there or without an inode; an inode taken in vain is freed again. */
  ghost function Created(ns: Nodes, d: nat, name: Name, kind: Kind, rooms: seq<bool>): Nodes
    requires d < |ns| && ns[d].kind == Dir && |rooms| == 3
  {
    var i := FreeFrom(ns, 1);
    SlotIs(ns, d);
    if !Absent(ns, d, name) || i == 0 then ns
    else if !Makes(ns, kind, rooms) then WithNode(ns, i, Node(Free, 0, []))
    else if kind == Dir then WithDir(ns, d, Slot(ns, d), name, i)
    else WithFile(ns, d, Slot(ns, d), name, i, kind)
  }

  function WithFile(ns: Nodes, d: nat, k: nat, name: Name, i: nat, kind: Kind): Nodes
    requires i < |ns| && i != d && FreeSlot(ns, d, k)
  {
    WithEntry(WithNode(ns, i, Node(kind, 1, [])), d, k, Entry(i, name))
  }

  /** The inode create gives back: the new one, or a file that was there if a file is wanted. */
  ghost function CreateGives(ns: Nodes, d: nat, name: Name, kind: Kind, rooms: seq<bool>): nat
    requires d < |ns| && |rooms| == 3
  {
    if Absent(ns, d, name) then if Makes(ns, kind, rooms) then FreeFrom(ns, 1) else 0
    else
      var i := Named(ns, d, name);
      if kind == File && (KindOf(ns, i) == File || KindOf(ns, i) == Device) then i else 0
  }

  ghost predicate LinkMade(ns: Nodes, parent: Option<nat>, name: Name, room: bool) {
    parent.Some? && Absent(ns, parent.value, name) && room
  }

  /** sys_unlink refuses: a name that is a dot or not there, or a directory that is not empty. */
  ghost predicate Refused(ns: Nodes, d: nat, name: Name)
    requires d < |ns|
  {
    || name == DOT || name == DOTDOT || Find(ns, d, name) < 0
    || (var i := Named(ns, d, name);
        i >= |ns| || (ns[i].kind == Dir && (i == d || !EmptyDir(ns, i))))
  }

  /** sys_unlink: the entry goes, with the links it stood for. */
  ghost function Gone(ns: Nodes, d: nat, name: Name): Nodes
    requires d < |ns|
  {
    if Refused(ns, d, name) then ns
    else
      var k, i := Find(ns, d, name), Named(ns, d, name);
      if ns[i].kind == Dir then Removed(ns, d, k, i) else Unlinked(ns, d, k, i)
  }

  /** iput's last reference. */
  function Released(ns: Nodes, i: nat): Nodes
    requires i < |ns|
  {
    if ns[i].nlink == 0 then WithNode(ns, i, Node(Free, 0, [])) else ns
  }

  /** The inodes, and the links counted ahead, after a call. */
  ghost function After(ns: Nodes, p: multiset<nat>, c: Call): (Nodes, multiset<nat>)
    requires Sensible(ns, p, c)
  {
    match c
    case Make(d, name, kind, rooms) => (Created(ns, d, name, kind, rooms), p)
    case StartLink(i) =>
      if ns[i].kind == Dir then (ns, p) else (SetLink(ns, i, Inc(ns[i].nlink)), p + multiset{i})
    case EndLink(i, parent, name, room) =>
      (if LinkMade(ns, parent, name, room) then
         SlotIs(ns, parent.value);
         WithEntry(ns, parent.value, Slot(ns, parent.value), Entry(i, name))
       else SetLink(ns, i, ns[i].nlink - 1),
       p - multiset{i})
    case Remove(d, name) => (Gone(ns, d, name), p)
    case Release(i) => (Released(ns, i), p)
  }

  /** The calls after which a link count is wrong: a parent that is not linked, or a count that is full. */
  ghost predicate Breaks(ns: Nodes, c: Call) {
    match c
    case Make(d, name, kind, rooms) =>
      && |rooms| == 3 && Absent(ns, d, name) && Makes(ns, kind, rooms)
      && (!Live(ns, d) || (kind == Dir && LinkOf(ns, d) == MAXLINK))
    case StartLink(i) => KindOf(ns, i) != Dir && LinkOf(ns, i) == MAXLINK
    case EndLink(_, parent, name, room) => LinkMade(ns, parent, name, room) && !Live(ns, parent.value)
    case _ => false
  }

  // ------------------------------------------------------------------
  // Exactly which calls keep the counts right

  lemma FreeUnlinked(ns: Nodes, p: multiset<nat>, i: nat)
    requires Inv(ns, p) && KindOf(ns, i) == Free
    ensures LinkOf(ns, i) == 0
  {
  }

  lemma KindIs(ns: Nodes, i: nat)
    requires i < |ns|
    ensures KindOf(ns, i) == ns[i].kind && LinkOf(ns, i) == ns[i].nlink
  {
  }

  /** A new inode does not change what d has. */
  lemma StillAbsent(ns: Nodes, ns': Nodes, d: nat, name: Name, i: nat, kind: Kind)
    requires Absent(ns, d, name) && Allocated(ns, ns', i, kind) && KindOf(ns, i) == Free && KindOf(ns, d) == Dir
             && kind != Dir
    ensures Absent(ns', d, name) && d != i && (Live(ns', d) <==> Live(ns, d))
  {
    hide Target, NameAt, KindOf, LinkOf;
  }

  lemma FileExact(ns: Nodes, p: multiset<nat>, d: nat, k: nat, name: Name, i: nat, kind: Kind)
    requires Inv(ns, p) && 0 < i < |ns| && KindOf(ns, i) == Free && KindOf(ns, d) == Dir && FreeSlot(ns, d, k)
    requires Absent(ns, d, name) && (kind == File || kind == Device)
    ensures i != d && (Inv(WithFile(ns, d, k, name, i, kind), p) <==> Live(ns, d))
    ensures Counted(WithFile(ns, d, k, name, i, kind), p) <==> Live(ns, d)
  {
    hide Inv, Counted, Live, LinkOf, KindOf, WithEntry, Target, NameAt;
    var made := WithNode(ns, i, Node(kind, 1, []));
    KindIs(ns, i);
    KindIs(ns, d);
    AllocKeeps(ns, p, i, kind);
    AllocIs(ns, i, kind);
    StillAbsent(ns, made, d, name, i, kind);
    SlotSame(ns, made, d, k);
    assert p + multiset{i} - multiset{i} == p;
    if Live(ns, d) {
      LinkKeeps(made, p + multiset{i}, d, k, name, i);
    } else {
      DeadLink(made, p + multiset{i}, d, k, name, i);
    }
    InvCounted(WithFile(ns, d, k, name, i, kind), p);
  }

  lemma SlotSame(ns: Nodes, ns': Nodes, d: nat, k: nat)
    requires d < |ns| == |ns'| && ns'[d] == ns[d]
    ensures FreeSlot(ns, d, k) <==> FreeSlot(ns', d, k)
  {
  }

  lemma MakeExact(ns: Nodes, p: multiset<nat>, d: nat, name: Name, kind: Kind, rooms: seq<bool>)
    requires Inv(ns, p) && Sensible(ns, p, Make(d, name, kind, rooms))
    ensures Inv(Created(ns, d, name, kind, rooms), p) <==> !Breaks(ns, Make(d, name, kind, rooms))
    ensures Counted(Created(ns, d, name, kind, rooms), p) <==> !Breaks(ns, Make(d, name, kind, rooms))
  {
    hide Inv, Counted, Live, LinkOf, KindOf, Absent, WithEntry, WithDir, FreeSlot;
    var i := FreeFrom(ns, 1);
    if Absent(ns, d, name) && i != 0 {
      KindIs(ns, i);
      KindIs(ns, d);
      SlotIs(ns, d);
      if !Makes(ns, kind, rooms) {
        FreeUnlinked(ns, p, i);
        FreeKeeps(ns, p, i);
      } else if kind == Dir {
        MkdirExact(ns, p, d, Slot(ns, d), name, i);
      } else {
        FileExact(ns, p, d, Slot(ns, d), name, i, kind);
      }
    }
    InvCounted(Created(ns, d, name, kind, rooms), p);
  }

  lemma StartExact(ns: Nodes, p: multiset<nat>, i: nat)
    requires Inv(ns, p) && Sensible(ns, p, StartLink(i))
    ensures var (a, q) := After(ns, p, StartLink(i)); Inv(a, q) <==> !Breaks(ns, StartLink(i))
    ensures var (a, q) := After(ns, p, StartLink(i)); Counted(a, q) <==> !Breaks(ns, StartLink(i))
  {
    hide Inv, Counted, LinkOf, KindOf;
    KindIs(ns, i);
    InvCounted(ns, p);
    if ns[i].kind != Dir {
      LinkBegins(ns, p, i);
    }
  }

  lemma EndExact(ns: Nodes, p: multiset<nat>, i: nat, parent: Option<nat>, name: Name, room: bool)
    requires Inv(ns, p) && Sensible(ns, p, EndLink(i, parent, name, room))
    ensures var (a, q) := After(ns, p, EndLink(i, parent, name, room));
            && (Inv(a, q) <==> !Breaks(ns, EndLink(i, parent, name, room)))
            && (Counted(a, q) <==> !Breaks(ns, EndLink(i, parent, name, room)))
  {
    hide Inv, Counted, Live, LinkOf, KindOf, WithEntry;
    InvCounted(After(ns, p, EndLink(i, parent, name, room)).0, p - multiset{i});
    KindIs(ns, i);
    if LinkMade(ns, parent, name, room) {
      var d := parent.value;
      SlotIs(ns, d);
      if Live(ns, d) {
        LinkKeeps(ns, p, d, Slot(ns, d), name, i);
      } else {
        DeadLink(ns, p, d, Slot(ns, d), name, i);
      }
    } else {
      LinkFails(ns, p, i);
    }
  }

  lemma GoneIs(ns: Nodes, d: nat, name: Name)
    requires d < |ns|
    ensures Refused(ns, d, name) ==> Gone(ns, d, name) == ns
    ensures !Refused(ns, d, name) ==>
              && name != DOT && name != DOTDOT && Find(ns, d, name) >= 0
              && (var k, i := Find(ns, d, name), Named(ns, d, name);
                  && i == Target(ns, d, k) < |ns|
                  && if ns[i].kind == Dir then i != d && EmptyDir(ns, i) && Gone(ns, d, name) == Removed(ns, d, k, i)
                     else Gone(ns, d, name) == Unlinked(ns, d, k, i))
  {
    hide EmptyDir, Find, Removed, Unlinked, Target;
  }

  /** What sys_unlink takes away: a proper entry past the first two of a linked directory. */
  lemma RemoveFinds(ns: Nodes, p: multiset<nat>, d: nat, name: Name) returns (k: nat, i: nat)
    requires d < |ns| && ns[d].kind == Dir && !Refused(ns, d, name) && Inv(ns, p)
    ensures k == Find(ns, d, name) && i == Named(ns, d, name)
    ensures Live(ns, d) && k >= 2 && k < |ns[d].entries| && i < |ns| && Target(ns, d, k) == i != 0
            && NameAt(ns, d, k) == name
    ensures LinkOf(ns, i) >= 1 && KindOf(ns, i) == ns[i].kind != Free
  {
    hide Inv, Live, LinkOf, KindOf, Absent, EmptyDir, Target, NameAt, Find, Named, Gone, Refused;
    GoneIs(ns, d, name);
    FindIs(ns, d, name);
    k, i := Find(ns, d, name), Named(ns, d, name);
    ProperEntry(ns, p, d, k, name);
    KindIs(ns, i);
    ProperUsed(ns, p, d, k);
  }

  /** sys_unlink keeps the counts right. */
  lemma RemoveKeeps(ns: Nodes, p: multiset<nat>, d: nat, name: Name)
    requires d < |ns| && ns[d].kind == Dir && Inv(ns, p)
    ensures Inv(Gone(ns, d, name), p)
  {
    hide Inv, Live, LinkOf, KindOf, EmptyDir, Removed, Unlinked, Target, NameAt, Find, Named, Gone, Refused;
    GoneIs(ns, d, name);
    if !Refused(ns, d, name) {
      var k, i := RemoveFinds(ns, p, d, name);
      if ns[i].kind == Dir {
        UnlinkDirKeeps(ns, p, d, k, i);
      } else {
        UnlinkFileKeeps(ns, p, d, k, i);
      }
    }
  }

  /** Once sys_unlink has succeeded the name is gone, and a directory it removed had exactly one link. */
  lemma RemoveGone(ns: Nodes, p: multiset<nat>, d: nat, name: Name)
    requires d < |ns| && ns[d].kind == Dir && !Refused(ns, d, name) && Inv(ns, p)
    ensures Absent(Gone(ns, d, name), d, name)
    ensures KindOf(ns, Named(ns, d, name)) == Dir ==> LinkOf(ns, Named(ns, d, name)) == 1
  {
    hide Inv, Live, LinkOf, KindOf, Absent, EmptyDir, Removed, Unlinked, Target, NameAt, Find, Named, Gone, Refused;
    GoneIs(ns, d, name);
    var k, i := RemoveFinds(ns, p, d, name);
    if ns[i].kind == Dir {
      EmptyDirOnce(ns, p, d, k, i);
    }
    GoneAbsent(ns, p, d, k, i, name);
  }

  lemma ProperUsed(ns: Nodes, p: multiset<nat>, d: nat, k: nat)
    requires Inv(ns, p) && Live(ns, d) && Target(ns, d, k) != 0
    ensures KindOf(ns, Target(ns, d, k)) != Free
  {
    hide KindOf, LinkOf, Target, NameAt, Counted, UniqueNames, Tree, Dots, Dead;
  }

  lemma ReleaseKeeps(ns: Nodes, p: multiset<nat>, i: nat)
    requires Inv(ns, p) && 0 < i < |ns|
    ensures Inv(Released(ns, i), p)
  {
    hide Inv, LinkOf;
    KindIs(ns, i);
    if ns[i].nlink == 0 {
      FreeKeeps(ns, p, i);
    }
  }

  /** A call leaves every link count right exactly when it is not one of those that break one. */
  lemma StepExact(ns: Nodes, p: multiset<nat>, c: Call)
    requires Inv(ns, p) && Sensible(ns, p, c)
    ensures var (a, q) := After(ns, p, c); (Inv(a, q) <==> !Breaks(ns, c)) && (Counted(a, q) <==> !Breaks(ns, c))
  {
    hide Inv, Counted, Live, LinkOf, KindOf, Created, Gone, Released;
    InvCounted(After(ns, p, c).0, After(ns, p, c).1);
    match c
    case Make(d, name, kind, rooms) => MakeExact(ns, p, d, name, kind, rooms);
    case StartLink(i) => StartExact(ns, p, i);
    case EndLink(i, parent, name, room) => EndExact(ns, p, i, parent, name, room);
    case Remove(d, name) => RemoveKeeps(ns, p, d, name);
    case Release(i) => ReleaseKeeps(ns, p, i);
  }

  // ------------------------------------------------------------------
  // Runs

  /** The states a run of calls goes through: the inodes, and the links counted ahead. */
  ghost predicate IsRun(ss: seq<(Nodes, multiset<nat>)>, calls: seq<Call>) {
    && |ss| == |calls| + 1
    && forall n :: 0 <= n < |calls| ==> StepAt(ss, calls, n)
  }

  ghost predicate StepAt(ss: seq<(Nodes, multiset<nat>)>, calls: seq<Call>, n: nat)
    requires |ss| == |calls| + 1 && n < |calls|
  {
    Sensible(ss[n].0, ss[n].1, calls[n]) && ss[n + 1] == After(ss[n].0, ss[n].1, calls[n])
  }

  /**
   Over every run from a state whose counts are right, they are right up to and including
   state m exactly if none of the first m calls breaks one.
   */
  lemma {:induction false} RunExact(ss: seq<(Nodes, multiset<nat>)>, calls: seq<Call>, m: nat)
    requires IsRun(ss, calls) && Inv(ss[0].0, ss[0].1) && m < |ss|
    ensures (forall n :: 0 <= n <= m ==> Inv(ss[n].0, ss[n].1)) <==>
            (forall n :: 0 <= n < m ==> !Breaks(ss[n].0, calls[n]))
    ensures (forall n :: 0 <= n <= m ==> Counted(ss[n].0, ss[n].1)) <==>
            (forall n :: 0 <= n < m ==> !Breaks(ss[n].0, calls[n]))
    decreases m
  {
    hide Inv, Counted, After, Breaks, Sensible;
    InvCounted(ss[0].0, ss[0].1);
    if m > 0 {
      RunExact(ss, calls, m - 1);
      assert StepAt(ss, calls, m - 1);
      if forall n :: 0 <= n < m ==> Inv(ss[n].0, ss[n].1) {
        StepExact(ss[m - 1].0, ss[m - 1].1, calls[m - 1]);
      }
    }
  }

  function NewNodes(free: nat): Nodes {
    [Node(Free, 0, []), Node(Dir, 1, [Entry(ROOT, DOT), Entry(ROOT, DOTDOT)])] + seq(free, _ => Node(Free, 0, []))
  }

  lemma NewInv(free: nat)
    ensures Inv(NewNodes(free), multiset{})
  {
    var ns := NewNodes(free);
    assert forall d: nat :: Live(ns, d) <==> d == ROOT;
    assert forall a: nat, b: nat :: Target(ns, a, b) == if a == ROOT && b < 2 then ROOT else 0;
    assert forall t: nat :: LinkOf(ns, t) == if t == ROOT then 1 else 0;
    assert NameAt(ns, ROOT, 0) == DOT && NameAt(ns, ROOT, 1) == DOTDOT;
    hide Target, NameAt, LinkOf, KindOf, Refs;
    forall t: nat | 0 < t < |ns| ensures LinkOf(ns, t) == |Refs(ns, t)| {
      RefsAre(ns, t);
      assert Refs(ns, t) == if t == ROOT then {(ROOT, 1)} else {};
    }
  }

  // ------------------------------------------------------------------
  // The failing calls are reached

  const A: Name := "a"
  const F: Name := "f"

  /** A directory made in a new root, by inode 2. */
  function OneDir(free: nat): Nodes {
    [Node(Free, 0, []),
     Node(Dir, 2, [Entry(ROOT, DOT), Entry(ROOT, DOTDOT), Entry(2, A)]),
     Node(Dir, 1, [Entry(2, DOT), Entry(ROOT, DOTDOT)])] + seq(free, _ => Node(Free, 0, []))
  }

  /** The same directory, removed while somebody still has it open. */
  function OpenGone(free: nat): Nodes {
    [Node(Free, 0, []),
     Node(Dir, 1, [Entry(ROOT, DOT), Entry(ROOT, DOTDOT), Entry(0, "")]),
     Node(Dir, 0, [Entry(2, DOT), Entry(ROOT, DOTDOT)])] + seq(free, _ => Node(Free, 0, []))
  }

  lemma MkdirFirst(free: nat)
    requires free >= 1
    ensures Created(NewNodes(free), ROOT, A, Dir, [true, true, true]) == OneDir(free - 1)
  {
    var ns := NewNodes(free);
    assert ns[ROOT].entries == [Entry(ROOT, DOT), Entry(ROOT, DOTDOT)] && ns[2].kind == Free;
    assert FreeFrom(ns, 1) == FreeFrom(ns, 2) == 2;
    assert Slot(ns, ROOT) == SlotFrom(ns[ROOT].entries, 1) == 2;
    assert Find(ns, ROOT, A) == FindFrom(ns[ROOT].entries, A, 1) == FindFrom(ns[ROOT].entries, A, 2) == -1;
    FindIs(ns, ROOT, A);
    var made, goal := WithDir(ns, ROOT, 2, A, 2), OneDir(free - 1);
    assert made[ROOT].entries == goal[ROOT].entries;
    assert forall t :: 3 <= t < |made| ==> made[t] == goal[t];
    assert made == goal;
  }

  lemma RmdirFirst(free: nat)
    ensures Gone(OneDir(free), ROOT, A) == OpenGone(free)
  {
    var ns := OneDir(free);
    var es := ns[ROOT].entries;
    assert Find(ns, ROOT, A) == FindFrom(es, A, 1) == FindFrom(es, A, 2) == 2;
    assert Named(ns, ROOT, A) == 2 && EmptyDir(ns, 2);
    var gone, goal := Removed(ns, ROOT, 2, 2), OpenGone(free);
    assert gone[ROOT].entries == goal[ROOT].entries;
    assert gone == goal;
  }

  lemma GoneStaysOpen(free: nat)
    ensures Inv(OpenGone(free), multiset{})
  {
    hide Inv, Created, Gone;
    NewInv(free + 1);
    MkdirFirst(free + 1);
    MakeExact(NewNodes(free + 1), multiset{}, ROOT, A, Dir, [true, true, true]);
    assert Live(NewNodes(free + 1), ROOT) && LinkOf(NewNodes(free + 1), ROOT) == 1;
    RemoveKeeps(OneDir(free), multiset{}, ROOT, A);
    RmdirFirst(free);
  }

  /** create in a directory that was removed while open: three calls from a new file system break a count. */
  lemma BrokenCreate(free: nat) returns (ss: seq<(Nodes, multiset<nat>)>, calls: seq<Call>)
    requires free >= 2
    ensures IsRun(ss, calls) && |calls| == 3 && ss[0] == (NewNodes(free), multiset{})
    ensures Inv(ss[2].0, ss[2].1) && calls[2].Make? && !Live(ss[2].0, calls[2].d) && !Counted(ss[3].0, ss[3].1)
  {
    hide Inv, Counted, Created, Gone, FreeFrom;
    var p: multiset<nat>, rooms := multiset{}, [true, true, true];
    var last := Make(2, F, File, rooms);
    calls := [Make(ROOT, A, Dir, rooms), Remove(ROOT, A), last];
    MkdirFirst(free);
    RmdirFirst(free - 1);
    GoneStaysOpen(free - 1);
    var gone := OpenGone(free - 1);
    FreeThird(free - 1);
    NoName(gone, 2, F);
    ss := [(NewNodes(free), p), (OneDir(free - 1), p), (gone, p), After(gone, p, last)];
    MakeExact(gone, p, 2, F, File, rooms);
    assert StepAt(ss, calls, 0);
    assert StepAt(ss, calls, 1);
    assert StepAt(ss, calls, 2);
  }

  lemma FreeThird(free: nat)
    requires free >= 1
    ensures FreeFrom(OpenGone(free), 1) == 3
  {
    var ns := OpenGone(free);
    assert ns[3].kind == Free;
    assert FreeFrom(ns, 1) == FreeFrom(ns, 2) == FreeFrom(ns, 3) == 3;
  }

  lemma NoName(ns: Nodes, d: nat, name: Name)
    requires d < |ns| && |ns[d].entries| == 2 && ns[d].entries[0].name != name && ns[d].entries[1].name != name
    ensures Absent(ns, d, name)
  {
  }

  /** sys_link into such a directory: the count of an old file goes wrong in the same way. */
  lemma BrokenLink(ns: Nodes, p: multiset<nat>, d: nat, i: nat, name: Name)
    returns (ss: seq<(Nodes, multiset<nat>)>, calls: seq<Call>)
    requires Inv(ns, p) && d < |ns| && ns[d].kind == Dir && !Live(ns, d) && Absent(ns, d, name)
    requires 0 < i < |ns| && (ns[i].kind == File || ns[i].kind == Device) && ns[i].nlink != MAXLINK
    ensures IsRun(ss, calls) && |calls| == 2 && ss[0] == (ns, p)
            && calls == [StartLink(i), EndLink(i, Some(d), name, true)]
    ensures Inv(ss[1].0, ss[1].1) && !Counted(ss[2].0, ss[2].1)
  {
    hide Inv, Counted, Absent, LinkOf, KindOf;
    var start, end := StartLink(i), EndLink(i, Some(d), name, true);
    calls := [start, end];
    var (a, q) := After(ns, p, start);
    KindIs(ns, i);
    StartExact(ns, p, i);
    SameDir(ns, a, d, name);
    ss := [(ns, p), (a, q), After(a, q, end)];
    EndExact(a, q, i, Some(d), name, true);
    assert StepAt(ss, calls, 0);
    assert StepAt(ss, calls, 1);
  }

  lemma SameDir(ns: Nodes, ns': Nodes, d: nat, name: Name)
    requires d < |ns| == |ns'| && ns'[d] == ns[d]
    ensures (Absent(ns', d, name) <==> Absent(ns, d, name)) && (Live(ns', d) <==> Live(ns, d))
  {
    assert forall b: nat :: Target(ns', d, b) == Target(ns, d, b) && NameAt(ns', d, b) == NameAt(ns, d, b);
  }

  class NameSpace {
    var nodes: Nodes
    ghost var pending: multiset<nat>   // links counted by sys_link and not yet made

    ghost predicate Valid()
      reads this
    {
      Inv(nodes, pending)
    }

    /** A new file system: the root directory, its own parent, and free inodes. */
    constructor (free: nat)
      ensures Valid() && pending == multiset{} && |nodes| == free + 2
    {
      nodes := NewNodes(free);
      pending := multiset{};
      new;
      NewInv(free);
    }

    /** dirlookup: the first entry with this name, or -1. */
    method DirLookup(d: nat, name: Name) returns (k: int)
      requires d < |nodes|
      ensures k == Find(nodes, d, name) && (k < 0 <==> Absent(nodes, d, name))
      ensures k >= 0 ==> k < |nodes[d].entries| && Target(nodes, d, k) != 0 && NameAt(nodes, d, k) == name
    {
      hide Absent, Target, NameAt;
      FindIs(nodes, d, name);
      var off := 0;
      while off < |nodes[d].entries|
        invariant 0 <= off <= |nodes[d].entries| && Find(nodes, d, name) == FindFrom(nodes[d].entries, name, off)
      {
        var de := nodes[d].entries[off];
        if de.inum != 0 && de.name == name {
          return off;
        }
        off := off + 1;
      }
      k := -1;
    }

    /** dirlink: fails if the name is there, or if the write fails; otherwise fills the first free slot. */
    method DirLink(d: nat, name: Name, inum: nat, room: bool) returns (ok: bool)
      requires d < |nodes|
      modifies `nodes
      ensures |nodes| == old(|nodes|) && (ok <==> Absent(old(nodes), d, name) && room)
      ensures !ok ==> nodes == old(nodes)
      ensures ok ==> FreeSlot(old(nodes), d, old(Slot(nodes, d)))
      ensures ok ==> nodes == WithEntry(old(nodes), d, old(Slot(nodes, d)), Entry(inum, name))
    {
      hide Absent;
      var found := DirLookup(d, name);
      if found >= 0 {
        return false;
      }
      var off := 0;
      while off < |nodes[d].entries| && nodes[d].entries[off].inum != 0
        invariant 0 <= off <= |nodes[d].entries| && Slot(nodes, d) == SlotFrom(nodes[d].entries, off)
      {
        off := off + 1;
      }
      if !room {
        return false;
      }
      var e := nodes[d].entries;
      var entries := if off < |e| then e[off := Entry(inum, name)] else e + [Entry(inum, name)];
      nodes := nodes[d := nodes[d].(entries := entries)];
      ok := true;
    }

    /** isdirempty. */
    method IsDirEmpty(i: nat) returns (empty: bool)
      requires i < |nodes|
      ensures empty <==> EmptyDir(nodes, i)
    {
      var off := 2;
      while off < |nodes[i].entries|
        invariant 2 <= off
        invariant forall k: nat :: 2 <= k < off ==> Target(nodes, i, k) == 0
      {
        if nodes[i].entries[off].inum != 0 {
          assert Target(nodes, i, off) != 0;
          return false;
        }
        off := off + 1;
      }
      empty := true;
    }

    /** ialloc's search: the first free inode, 0 if there is none. */
    method FindFree() returns (i: nat)
      requires |nodes| > 0
      ensures i == FreeFrom(nodes, 1) && i < |nodes|
    {
      var n := 1;
      while n < |nodes|
        invariant 1 <= n && FreeFrom(nodes, 1) == FreeFrom(nodes, n)
      {
        if nodes[n].kind == Free {
          return n;
        }
        n := n + 1;
      }
      i := 0;
    }

    /** What create gives back when the name is there. */
    method CreateFound(d: nat, k: nat, kind: Kind) returns (i: nat)
      requires d < |nodes| && k < |nodes[d].entries| && nodes[d].entries[k].inum < |nodes|
      ensures i ==
              if kind == File && nodes[nodes[d].entries[k].inum].kind in {File, Device} then nodes[d].entries[k].inum
              else 0
    {
      i := nodes[d].entries[k].inum;
      if !(kind == File && (nodes[i].kind == File || nodes[i].kind == Device)) {
        i := 0;
      }
    }

    /** create of a file or device whose name is not there: it fails exactly without an inode or without room. */
    method CreateFile(d: nat, name: Name, kind: Kind, rooms: seq<bool>) returns (i: nat)
      requires d < |nodes| && nodes[d].kind == Dir && (kind == File || kind == Device) && Absent(nodes, d, name)
      requires |rooms| == 3
      modifies `nodes
      ensures |nodes| == old(|nodes|) && nodes == old(Created(nodes, d, name, kind, rooms))
      ensures i == if old(Makes(nodes, kind, rooms)) then old(FreeFrom(nodes, 1)) else 0
    {
      i := FindFree();
      if i == 0 {
        return;
      }
      nodes := nodes[i := Node(kind, 1, [])];
      OtherDir(old(nodes), nodes, d, name);
      var ok := DirLink(d, name, i, rooms[2]);
      if !ok {
        nodes := nodes[i := nodes[i].(nlink := 0)];
        Put(i);
        assert nodes == WithNode(old(nodes), i, Node(Free, 0, []));
        i := 0;
      }
    }

    /**
     create of a directory whose name is not there: its inode with "." and "..", its entry,
     and a link of its parent; it fails exactly without an inode or without room for a write.
     */
    method CreateDir(d: nat, name: Name, rooms: seq<bool>) returns (i: nat)
      requires d < |nodes| && nodes[d].kind == Dir && Absent(nodes, d, name) && |rooms| == 3
      modifies `nodes
      ensures |nodes| == old(|nodes|) && nodes == old(Created(nodes, d, name, Dir, rooms))
      ensures i == if old(Makes(nodes, Dir, rooms)) then old(FreeFrom(nodes, 1)) else 0
    {
      hide WithDir, WithEntry, FreeSlot, Target, NameAt;
      i := FindFree();
      if i == 0 {
        return;
      }
      nodes := nodes[i := Node(Dir, 1, [])];
      var ok := AddDots(i, d, rooms[0], rooms[1]);
      ghost var ns := nodes;
      if ok {
        assert nodes == old(nodes)[i := Node(Dir, 1, [Entry(i, DOT), Entry(d, DOTDOT)])];
        OtherDir(old(nodes), nodes, d, name);
        SlotIs(old(nodes), d);
        WithDirSteps(old(nodes), d, Slot(old(nodes), d), name, i);
        ok := DirLink(d, name, i, rooms[2]);
      }
      if ok {
        nodes := nodes[d := nodes[d].(nlink := Inc(nodes[d].nlink))];
        assert nodes == WithDir(old(nodes), d, Slot(old(nodes), d), name, i);
      } else {
        nodes := nodes[i := nodes[i].(nlink := 0)];
        Put(i);
        assert nodes == WithNode(old(nodes), i, Node(Free, 0, []));
        i := 0;
      }
    }

    /** The "." and ".." of a new directory. */
    method AddDots(i: nat, d: nat, room0: bool, room1: bool) returns (ok: bool)
      requires 0 < i < |nodes| && nodes[i] == Node(Dir, 1, []) && i != d
      modifies `nodes
      ensures ok <==> room0 && room1
      ensures ok ==> nodes == old(nodes)[i := Node(Dir, 1, [Entry(i, DOT), Entry(d, DOTDOT)])]
      ensures !ok ==> |nodes| == old(|nodes|) && forall t :: 0 <= t < |nodes| && t != i ==> nodes[t] == old(nodes)[t]
    {
      ok := DirLink(i, DOT, i, room0);
      if ok {
        assert [] + [Entry(i, DOT)] == [Entry(i, DOT)];
        assert nodes == old(nodes)[i := Node(Dir, 1, [Entry(i, DOT)])];
        ghost var one := nodes;
        assert Target(one, i, 0) == i && NameAt(one, i, 0) == DOT;
        ok := DirLink(i, DOTDOT, d, room1);
        assert [Entry(i, DOT)] + [Entry(d, DOTDOT)] == [Entry(i, DOT), Entry(d, DOTDOT)];
      }
    }

    static lemma OtherDir(ns: Nodes, ns': Nodes, d: nat, name: Name)
      requires d < |ns| == |ns'| && ns'[d] == ns[d] && Absent(ns, d, name)
      ensures Absent(ns', d, name)
    {
      assert forall b: nat :: Target(ns', d, b) == Target(ns, d, b) && NameAt(ns', d, b) == NameAt(ns, d, b);
    }

    static lemma WithDirSteps(ns: Nodes, d: nat, k: nat, name: Name, i: nat)
      requires i < |ns| && FreeSlot(ns, d, k) && i != d
      ensures var made := ns[i := Node(Dir, 1, [Entry(i, DOT), Entry(d, DOTDOT)])];
              && FreeSlot(made, d, k)
              && var more := WithEntry(made, d, k, Entry(i, name));
              && |more| == |ns| && WithDir(ns, d, k, name, i) == more[d := more[d].(nlink := Inc(more[d].nlink))]
    {
    }

    /** create, in the directory that nameiparent found. */
    method Create(d: nat, name: Name, kind: Kind, rooms: seq<bool>) returns (i: nat)
      requires Valid() && d < |nodes| && nodes[d].kind == Dir && kind != Free && |rooms| == 3
      modifies `nodes
      ensures nodes == old(Created(nodes, d, name, kind, rooms)) && i == old(CreateGives(nodes, d, name, kind, rooms))
      ensures Valid() <==> !old(Breaks(nodes, Make(d, name, kind, rooms)))
      ensures Counted(nodes, pending) <==> !old(Breaks(nodes, Make(d, name, kind, rooms)))
    {
      hide Inv, Counted, Live, LinkOf, Absent, Created, Target, Find;
      MakeExact(nodes, pending, d, name, kind, rooms);
      var found := DirLookup(d, name);
      FoundCreates(nodes, pending, d, name, kind, rooms);
      if found >= 0 {
        i := CreateFound(d, found, kind);
      } else if kind == Dir {
        i := CreateDir(d, name, rooms);
      } else {
        i := CreateFile(d, name, kind, rooms);
      }
    }

    static lemma FoundCreates(ns: Nodes, p: multiset<nat>, d: nat, name: Name, kind: Kind, rooms: seq<bool>)
      requires Inv(ns, p) && d < |ns| && ns[d].kind == Dir && |rooms| == 3
      ensures !Absent(ns, d, name) ==>
                && Created(ns, d, name, kind, rooms) == ns && Find(ns, d, name) >= 0
                && ns[d].entries[Find(ns, d, name)].inum == Named(ns, d, name) < |ns|
                && KindOf(ns, Named(ns, d, name)) == ns[Named(ns, d, name)].kind
    {
      hide Inv, Created;
      FindIs(ns, d, name);
      if Find(ns, d, name) >= 0 {
        EntryRange(ns, p, d, Find(ns, d, name));
      }
      assert !Absent(ns, d, name) ==> Created(ns, d, name, kind, rooms) == ns by {
        CreatedFound(ns, d, name, kind, rooms);
      }
    }

    static lemma CreatedFound(ns: Nodes, d: nat, name: Name, kind: Kind, rooms: seq<bool>)
      requires d < |ns| && ns[d].kind == Dir && |rooms| == 3
      ensures !Absent(ns, d, name) ==> Created(ns, d, name, kind, rooms) == ns
    {
    }

    static lemma EntryRange(ns: Nodes, p: multiset<nat>, d: nat, k: nat)
      requires Inv(ns, p) && d < |ns| && ns[d].kind == Dir && k < |ns[d].entries|
      ensures ns[d].entries[k].inum < |ns|
    {
      hide Counted, UniqueNames, Tree, Shape, Dots, Dead;
      if Live(ns, d) && Target(ns, d, k) != 0 {
        TargetThere(ns, p, d, k);
      } else if !Live(ns, d) {
        DeadEntry(ns, d, k);
      }
    }

    static lemma DeadEntry(ns: Nodes, d: nat, k: nat)
      requires Dead(ns) && d < |ns| && KindOf(ns, d) == Dir && !Live(ns, d)
      ensures Target(ns, d, k) < |ns|
    {
      hide KindOf, LinkOf, Target, NameAt;
    }

    /** The first half of sys_link. */
    method LinkBegin(i: nat) returns (ok: bool)
      requires Valid() && 0 < i < |nodes| && nodes[i].kind != Free
      modifies this
      ensures ok <==> old(nodes[i].kind) != Dir
      ensures (nodes, pending) == old(After(nodes, pending, StartLink(i)))
      ensures Valid() <==> !old(Breaks(nodes, StartLink(i)))
      ensures Counted(nodes, pending) <==> !old(Breaks(nodes, StartLink(i)))
    {
      hide Inv, Counted;
      StartExact(nodes, pending, i);
      if nodes[i].kind == Dir {
        return false;
      }
      nodes := nodes[i := nodes[i].(nlink := Inc(nodes[i].nlink))];
      pending := pending + multiset{i};
      ok := true;
    }

    /** The rest of sys_link; there may be no parent directory, and the write may fail. */
    method LinkEnd(i: nat, parent: Option<nat>, name: Name, room: bool) returns (ok: bool)
      requires Valid() && Sensible(nodes, pending, EndLink(i, parent, name, room))
      modifies this
      ensures ok <==> old(LinkMade(nodes, parent, name, room))
      ensures (nodes, pending) == old(After(nodes, pending, EndLink(i, parent, name, room)))
      ensures Valid() <==> !old(Breaks(nodes, EndLink(i, parent, name, room)))
      ensures Counted(nodes, pending) <==> !old(Breaks(nodes, EndLink(i, parent, name, room)))
    {
      hide Inv, Counted, Live, LinkOf, WithEntry, FreeSlot, Absent;
      EndExact(nodes, pending, i, parent, name, room);
      ok := false;
      if parent.Some? {
        ok := DirLink(parent.value, name, i, room);
      }
      if !ok {
        nodes := nodes[i := nodes[i].(nlink := nodes[i].nlink - 1)];
      }
      pending := pending - multiset{i};
    }

    /** iput's effect when the last reference to an inode goes. */
    method Put(i: nat)
      requires 0 < i < |nodes|
      modifies `nodes
      ensures nodes == Released(old(nodes), i) && (old(Valid()) ==> Valid())
    {
      hide Inv;
      if Inv(nodes, pending) {
        ReleaseKeeps(nodes, pending, i);
      }
      if nodes[i].nlink == 0 {
        nodes := nodes[i := Node(Free, 0, [])];
      }
    }

    /**
     sys_unlink; d is what nameiparent found.  It fails for "." and "..", for a name that is
     not there and for a directory that is not empty; otherwise exactly the entry and the
     links it stood for go, and a directory removed had exactly one link.
     */
    method Unlink(d: nat, name: Name) returns (ok: bool)
      requires Valid() && d < |nodes| && nodes[d].kind == Dir
      modifies `nodes
      ensures Valid() && nodes == old(Gone(nodes, d, name)) && (ok <==> !old(Refused(nodes, d, name)))
      ensures ok ==> Absent(nodes, d, name)
    {
      hide Inv, Live, LinkOf, KindOf, Absent, EmptyDir, Removed, Unlinked, Target, NameAt, Find;
      RemoveKeeps(nodes, pending, d, name);
      if !Refused(nodes, d, name) {
        RemoveGone(nodes, pending, d, name);
      }
      if name == DOT || name == DOTDOT {
        return false;
      }
      var found := DirLookup(d, name);
      if found < 0 {
        return false;
      }
      ProperEntry(nodes, pending, d, found, name);
      ok := UnlinkAt(d, found, name);
    }

    /** sys_unlink once the entry is found; neither of its panics is reached. */
    method UnlinkAt(d: nat, k: nat, ghost name: Name) returns (ok: bool)
      requires Valid() && d < |nodes| && nodes[d].kind == Dir && k == Find(nodes, d, name)
      requires k < |nodes[d].entries| && name != DOT && name != DOTDOT
      requires Named(nodes, d, name) == nodes[d].entries[k].inum < |nodes| && nodes[nodes[d].entries[k].inum].nlink >= 1
      modifies `nodes
      ensures nodes == old(Gone(nodes, d, name)) && (ok <==> !old(Refused(nodes, d, name)))
    {
      hide Inv, Live, LinkOf, Absent, EmptyDir, Removed, Unlinked, Target, NameAt, Find;
      var i := nodes[d].entries[k].inum;
      assert nodes[i].nlink >= 1;
      if nodes[i].kind == Dir {
        NotItself(nodes, pending, d, name);
        var empty := IsDirEmpty(i);
        if !empty {
          return false;
        }
      }
      ClearEntry(d, k, i);
      ok := true;
    }

    /** A directory that names itself by a proper entry is not empty. */
    static lemma NotItself(ns: Nodes, p: multiset<nat>, d: nat, name: Name)
      requires Inv(ns, p) && d < |ns| && ns[d].kind == Dir && Find(ns, d, name) >= 0 && name != DOT && name != DOTDOT
      ensures Named(ns, d, name) == d ==> !EmptyDir(ns, d)
    {
      hide Inv, Find;
      FindIs(ns, d, name);
      ProperLive(ns, p, d, Find(ns, d, name), name);
    }

    /** Any run of calls that break no count: the inodes end as the run says, with every count right. */
    method Run(calls: seq<Call>, ghost ss: seq<(Nodes, multiset<nat>)>)
      requires Valid() && IsRun(ss, calls) && ss[0] == (nodes, pending)
      requires forall n :: 0 <= n < |calls| ==> !Breaks(ss[n].0, calls[n])
      modifies this
      ensures Valid() && (nodes, pending) == ss[|calls|]
    {
      hide Inv, After, Breaks, Sensible;
      for n := 0 to |calls|
        invariant Valid() && (nodes, pending) == ss[n]
      {
        assert StepAt(ss, calls, n);
        Perform(calls[n]);
      }
    }

    /** One call. */
    method Perform(c: Call)
      requires Valid() && Sensible(nodes, pending, c)
      modifies this
      ensures (nodes, pending) == old(After(nodes, pending, c)) && (Valid() <==> !old(Breaks(nodes, c)))
      ensures Counted(nodes, pending) <==> !old(Breaks(nodes, c))
    {
      hide Inv, Counted, Live, LinkOf, Absent, Created, Gone, Released, Makes, LinkMade;
      var ok, i;
      match c {
        case Make(d, name, kind, rooms) => i := Create(d, name, kind, rooms);
        case StartLink(i) => ok := LinkBegin(i);
        case EndLink(i, d, name, room) => ok := LinkEnd(i, d, name, room);
        case Remove(d, name) => ok := Unlink(d, name);
        case Release(i) => Put(i);
      }
      InvCounted(nodes, pending);
    }

    /** The writes of sys_unlink. */
    method ClearEntry(d: nat, k: nat, i: nat)
      requires d < |nodes| && k < |nodes[d].entries| && i < |nodes| && (nodes[i].kind == Dir ==> i != d)
      modifies `nodes
      ensures |nodes| == old(|nodes|)
      ensures nodes == if old(nodes)[i].kind == Dir then Removed(old(nodes), d, k, i) else Unlinked(old(nodes), d, k, i)
    {
      var dir := nodes[i].kind == Dir;
      nodes := nodes[d := nodes[d].(entries := nodes[d].entries[k := Entry(0, "")])];
      if dir {
        nodes := nodes[d := nodes[d].(nlink := nodes[d].nlink - 1)];
      }
      nodes := nodes[i := nodes[i].(nlink := nodes[i].nlink - 1)];
    }
  }

  /** A new directory keeps the counts right exactly when its parent is linked and has room for one link more. */
  lemma MkdirExact(ns: Nodes, p: multiset<nat>, d: nat, k: nat, name: Name, i: nat)
    requires Inv(ns, p) && 0 < i < |ns| && KindOf(ns, i) == Free && KindOf(ns, d) == Dir && FreeSlot(ns, d, k)
             && Absent(ns, d, name)
    ensures i != d && (Inv(WithDir(ns, d, k, name, i), p) <==> Live(ns, d) && LinkOf(ns, d) != MAXLINK)
    ensures Counted(WithDir(ns, d, k, name, i), p) <==> Live(ns, d) && LinkOf(ns, d) != MAXLINK
  {
    hide KindOf, LinkOf, Target, NameAt, WithDir, Counted, UniqueNames, Tree;
    if Live(ns, d) && LinkOf(ns, d) != MAXLINK {
      MkdirKeeps(ns, p, d, k, name, i);
    } else if Live(ns, d) {
      FullMkdir(ns, p, d, k, name, i);
    } else {
      assert Target(ns, d, 0) == d && NameAt(ns, d, 0) == DOT && Target(ns, d, 1) != 0;
      DeadMkdir(ns, p, d, k, name, i);
    }
  }

  /** An entry with a proper name is in a linked directory, past the first two. */
  lemma ProperEntry(ns: Nodes, p: multiset<nat>, d: nat, k: nat, name: Name)
    requires Inv(ns, p) && d < |ns| && ns[d].kind == Dir && k < |ns[d].entries| && Target(ns, d, k) != 0
             && NameAt(ns, d, k) == name
    requires name != DOT && name != DOTDOT
    ensures Live(ns, d) && k >= 2 && Target(ns, d, k) == ns[d].entries[k].inum < |ns|
    ensures KindOf(ns, Target(ns, d, k)) == ns[Target(ns, d, k)].kind && ns[Target(ns, d, k)].nlink >= 1
  {
    ProperLive(ns, p, d, k, name);
    TargetThere(ns, p, d, k);
    RefsThere(ns, d, k, Target(ns, d, k));
  }

  lemma ProperLive(ns: Nodes, p: multiset<nat>, d: nat, k: nat, name: Name)
    requires Inv(ns, p) && KindOf(ns, d) == Dir && Target(ns, d, k) != 0 && NameAt(ns, d, k) == name
    requires name != DOT && name != DOTDOT
    ensures Live(ns, d) && k >= 2
  {
    hide KindOf, LinkOf, Target, NameAt, Counted;
  }

  /** Names are unique, so the name is gone with its entry. */
  lemma GoneAbsent(ns: Nodes, p: multiset<nat>, d: nat, k: nat, i: nat, name: Name)
    requires Inv(ns, p) && d < |ns| && k < |ns[d].entries| && i < |ns| && Target(ns, d, k) != 0
             && NameAt(ns, d, k) == name
    ensures Absent(Unlinked(ns, d, k, i), d, name) && (i != d ==> Absent(Removed(ns, d, k, i), d, name))
  {
    UnlinkedIs(ns, d, k, i);
    if i != d {
      RemovedIs(ns, d, k, i);
    }
    hide Target, NameAt, KindOf, LinkOf;
  }
}
