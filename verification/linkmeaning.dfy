/**
 What create, link and unlink do to directories (kernel/sysfile.c), said of the names in a
 directory and what they stand for, wherever their entries are.
 */
module LinkMeaning {
  import opened Sets
  import opened Links

  /** In directory d, name stands for inode i. */
  ghost predicate Binds(ns: Nodes, d: nat, name: Name, i: nat) {
    exists k: nat :: BindsAt(ns, d, name, i, k)
  }

  predicate BindsAt(ns: Nodes, d: nat, name: Name, i: nat, k: nat) {
    i != 0 && Target(ns, d, k) == i && NameAt(ns, d, k) == name
  }

  ghost predicate Bound(ns: Nodes, d: nat, name: Name) {
    exists i: nat :: Binds(ns, d, name, i)
  }

  /** There is a free inode. */
  predicate Spare(ns: Nodes) {
    exists t :: 0 < t < |ns| && ns[t].kind == Free
  }

  lemma BoundIs(ns: Nodes, d: nat, name: Name)
    ensures Bound(ns, d, name) <==> !Absent(ns, d, name)
  {
    if !Absent(ns, d, name) {
      var k: nat :| Target(ns, d, k) != 0 && NameAt(ns, d, k) == name;
      assert BindsAt(ns, d, name, Target(ns, d, k), k);
      assert Binds(ns, d, name, Target(ns, d, k));
    }
    if Bound(ns, d, name) {
      var i: nat :| Binds(ns, d, name, i);
      var k: nat :| BindsAt(ns, d, name, i, k);
      assert Target(ns, d, k) != 0 && NameAt(ns, d, k) == name;
    }
  }

  /** Where names are unique, a name stands for one inode. */
  lemma BindsOne(ns: Nodes, d: nat, name: Name, i: nat, k: nat, j: nat)
    requires UniqueNames(ns) && Binds(ns, d, name, i) && BindsAt(ns, d, name, j, k)
    ensures i == j
  {
    var b: nat :| BindsAt(ns, d, name, i, b);
    assert b != k ==> NameAt(ns, d, b) != NameAt(ns, d, k);
  }

  lemma NamedIs(ns: Nodes, d: nat, name: Name)
    requires d < |ns|
    ensures Bound(ns, d, name) <==> Find(ns, d, name) >= 0
    ensures Bound(ns, d, name) ==> BindsAt(ns, d, name, Named(ns, d, name), Find(ns, d, name))
                                   && Binds(ns, d, name, Named(ns, d, name))
  {
    FindIs(ns, d, name);
    BoundIs(ns, d, name);
    if Find(ns, d, name) >= 0 {
      assert BindsAt(ns, d, name, Named(ns, d, name), Find(ns, d, name));
    }
  }

  /** An entry written where there was none adds its name and nothing else. */
  lemma EditedBinds(ns: Nodes, ns': Nodes, d: nat, k: nat, e: Entry, a: nat, n: Name, x: nat)
    requires Edited(ns, ns', d, k, e) && Target(ns, d, k) == 0
    ensures Binds(ns', a, n, x) <==> Binds(ns, a, n, x) || (a == d && n == e.name && x == e.inum != 0)
  {
    hide Target, NameAt;
    if Binds(ns', a, n, x) {
      var b: nat :| BindsAt(ns', a, n, x, b);
      if !(a == d && b == k) {
        assert BindsAt(ns, a, n, x, b);
      }
    }
    if Binds(ns, a, n, x) {
      var b: nat :| BindsAt(ns, a, n, x, b);
      assert BindsAt(ns', a, n, x, b);
    }
    if a == d && n == e.name && x == e.inum != 0 {
      assert BindsAt(ns', a, n, x, k);
    }
  }

  /** An entry cleared takes its name away and nothing else. */
  lemma ClearedBinds(ns: Nodes, ns': Nodes, d: nat, k: nat, name: Name, i: nat, a: nat, n: Name, x: nat)
    requires Edited(ns, ns', d, k, Entry(0, "")) && BindsAt(ns, d, name, i, k) && UniqueNames(ns)
    ensures Binds(ns', a, n, x) <==> Binds(ns, a, n, x) && !(a == d && n == name)
  {
    if Binds(ns', a, n, x) {
      var b: nat :| BindsAt(ns', a, n, x, b);
      assert BindsAt(ns, a, n, x, b);
      assert a == d && n == name ==> b != k && Target(ns, d, b) != 0;
    }
    if Binds(ns, a, n, x) && !(a == d && n == name) {
      var b: nat :| BindsAt(ns, a, n, x, b);
      assert BindsAt(ns', a, n, x, b);
    }
  }

  // ------------------------------------------------------------------
  // create

  /** Inode i is new, of this kind, and has one link. */
  ghost predicate NewInode(ns: Nodes, ns': Nodes, i: nat, kind: Kind) {
    && 0 < i < |ns| == |ns'| && KindOf(ns, i) == Free && KindOf(ns', i) == kind && LinkOf(ns', i) == 1
    && forall t: nat :: t != i ==> KindOf(ns', t) == KindOf(ns, t)
  }

  lemma FreeHoldsNothing(ns: Nodes, p: multiset<nat>, i: nat)
    requires Inv(ns, p) && KindOf(ns, i) == Free
    ensures forall n: Name, x: nat :: !Binds(ns, i, n, x)
  {
    assert forall k: nat :: Target(ns, i, k) == 0;
  }

  lemma FileMeans(ns: Nodes, p: multiset<nat>, d: nat, name: Name, i: nat, kind: Kind, a: nat, n: Name, x: nat)
    requires Inv(ns, p) && d < |ns| && KindOf(ns, d) == Dir && 0 < i < |ns| && KindOf(ns, i) == Free
    requires kind == File || kind == Device
    ensures i != d && FreeSlot(ns, d, Slot(ns, d))
    ensures var ns' := WithFile(ns, d, Slot(ns, d), name, i, kind);
            && NewInode(ns, ns', i, kind) && (forall t: nat :: t != i ==> LinkOf(ns', t) == LinkOf(ns, t))
            && (Binds(ns', a, n, x) <==> Binds(ns, a, n, x) || (a == d && n == name && x == i))
  {
    hide Inv, Binds, WithEntry, WithNode;
    SlotIs(ns, d);
    var made := WithNode(ns, i, Node(kind, 1, []));
    var k := Slot(ns, d);
    KindIs(ns, i);
    KindIs(ns, d);
    AllocIs(ns, i, kind);
    MadeSame(ns, p, made, i, kind, d, k, a, n, x);
    AddEntry(made, d, k, Entry(i, name));
    EditedBinds(made, WithEntry(made, d, k, Entry(i, name)), d, k, Entry(i, name), a, n, x);
  }

  lemma MadeSame(ns: Nodes, p: multiset<nat>, made: Nodes, i: nat, kind: Kind, d: nat, k: nat, a: nat, n: Name, x: nat)
    requires Inv(ns, p) && i < |ns| && KindOf(ns, i) == Free && KindOf(ns, d) == Dir && d < |ns|
    requires made == WithNode(ns, i, Node(kind, 1, [])) && FreeSlot(ns, d, k)
    ensures FreeSlot(made, d, k) && Target(made, d, k) == 0 && (Binds(made, a, n, x) <==> Binds(ns, a, n, x))
  {
    hide Inv;
    SlotSame(ns, made, d, k);
    FreeHoldsNothing(ns, p, i);
    if Binds(ns, a, n, x) {
      var b: nat :| BindsAt(ns, a, n, x, b);
      assert a != i;
      assert BindsAt(made, a, n, x, b);
    }
    if Binds(made, a, n, x) {
      var b: nat :| BindsAt(made, a, n, x, b);
      assert BindsAt(ns, a, n, x, b);
    }
  }

  lemma DirMeans(ns: Nodes, p: multiset<nat>, d: nat, name: Name, i: nat, a: nat, n: Name, x: nat)
    requires Inv(ns, p) && d < |ns| && KindOf(ns, d) == Dir && 0 < i < |ns| && KindOf(ns, i) == Free
    ensures i != d && FreeSlot(ns, d, Slot(ns, d))
    ensures var ns' := WithDir(ns, d, Slot(ns, d), name, i);
            && NewInode(ns, ns', i, Dir)
            && (forall t: nat :: t != i ==> LinkOf(ns', t) == if t == d then Inc(LinkOf(ns, d)) else LinkOf(ns, t))
            && (Binds(ns', a, n, x) <==>
                  || Binds(ns, a, n, x) || (a == d && n == name && x == i)
                  || (a == i && n == DOT && x == i) || (a == i && n == DOTDOT && x == d))
  {
    hide Inv, WithDir;
    SlotIs(ns, d);
    var k := Slot(ns, d);
    var ns' := WithDir(ns, d, k, name, i);
    WithDirIs(ns, d, k, name, i);
    FreeHoldsNothing(ns, p, i);
    DirUsed(ns, p, d);
    DirBinds(ns, ns', d, k, name, i, a, n, x);
  }

  lemma DirUsed(ns: Nodes, p: multiset<nat>, d: nat)
    requires Inv(ns, p) && KindOf(ns, d) == Dir
    ensures d != 0
  {
  }

  lemma DirBinds(ns: Nodes, ns': Nodes, d: nat, k: nat, name: Name, i: nat, a: nat, n: Name, x: nat)
    requires DirMade(ns, ns', d, k, name, i) && i != d && i != 0 && d != 0 && Target(ns, d, k) == 0
    requires forall m: Name, y: nat :: !Binds(ns, i, m, y)
    ensures Binds(ns', a, n, x) <==>
              || Binds(ns, a, n, x) || (a == d && n == name && x == i)
              || (a == i && n == DOT && x == i) || (a == i && n == DOTDOT && x == d)
  {
    hide Target, NameAt, KindOf, LinkOf;
    if Binds(ns', a, n, x) {
      var b: nat :| BindsAt(ns', a, n, x, b);
      if a != i && !(a == d && b == k) {
        assert BindsAt(ns, a, n, x, b);
      }
    }
    if Binds(ns, a, n, x) {
      var b: nat :| BindsAt(ns, a, n, x, b);
      assert a != i;
      assert BindsAt(ns', a, n, x, b);
    }
    assert BindsAt(ns', d, name, i, k);
    assert BindsAt(ns', i, DOT, i, 0) && BindsAt(ns', i, DOTDOT, d, 1);
  }

  /** Nothing that counts has changed. */
  ghost predicate Untouched(ns: Nodes, ns': Nodes) {
    && |ns'| == |ns|
    && (forall t: nat :: KindOf(ns', t) == KindOf(ns, t) && LinkOf(ns', t) == LinkOf(ns, t))
    && forall a: nat, n: Name, x: nat :: Binds(ns', a, n, x) <==> Binds(ns, a, n, x)
  }

  lemma FreedUntouched(ns: Nodes, p: multiset<nat>, i: nat)
    requires Inv(ns, p) && i < |ns| && KindOf(ns, i) == Free
    ensures Untouched(ns, WithNode(ns, i, Node(Free, 0, [])))
  {
    hide Inv, Binds;
    var ns' := WithNode(ns, i, Node(Free, 0, []));
    FreeUnlinked(ns, p, i);
    FreeHoldsNothing(ns, p, i);
    forall a: nat, n: Name, x: nat ensures Binds(ns', a, n, x) <==> Binds(ns, a, n, x) {
      SameElsewhere(ns, ns', i, a, n, x);
    }
  }

  lemma SameElsewhere(ns: Nodes, ns': Nodes, i: nat, a: nat, n: Name, x: nat)
    requires i < |ns| == |ns'| && ns' == ns[i := ns'[i]] && ns'[i].entries == []
    requires forall m: Name, y: nat :: !Binds(ns, i, m, y)
    ensures Binds(ns', a, n, x) <==> Binds(ns, a, n, x)
  {
    if Binds(ns, a, n, x) {
      var b: nat :| BindsAt(ns, a, n, x, b);
      assert a != i;
      assert BindsAt(ns', a, n, x, b);
    }
    if Binds(ns', a, n, x) {
      var b: nat :| BindsAt(ns', a, n, x, b);
      assert BindsAt(ns, a, n, x, b);
    }
  }

  /** create when the name is there: the file or device it stands for if a file is wanted, else nothing. */
  lemma CreateFinds(ns: Nodes, p: multiset<nat>, d: nat, name: Name, kind: Kind, rooms: seq<bool>, x: nat)
    requires Inv(ns, p) && Sensible(ns, p, Make(d, name, kind, rooms)) && Binds(ns, d, name, x)
    ensures Created(ns, d, name, kind, rooms) == ns
    ensures CreateGives(ns, d, name, kind, rooms) ==
            if kind == File && (KindOf(ns, x) == File || KindOf(ns, x) == Device) then x else 0
  {
    hide Inv, Binds;
    assert UniqueNames(ns) by {
      InvParts(ns, p);
    }
    BoundIs(ns, d, name);
    NamedIs(ns, d, name);
    BindsOne(ns, d, name, x, Find(ns, d, name), Named(ns, d, name));
  }

  lemma InvParts(ns: Nodes, p: multiset<nat>)
    requires Inv(ns, p)
    ensures UniqueNames(ns)
  {
  }

  /**
   create of a name that is not there: with a free inode and room for its writes, it gives a
   new inode of the kind asked for, which the name now stands for; a directory has "." and
   ".." and is one more link of its parent; nothing else changes.  Otherwise nothing does.
   */
  lemma CreateMakes(ns: Nodes, p: multiset<nat>, d: nat, name: Name, kind: Kind, rooms: seq<bool>)
    requires Inv(ns, p) && Sensible(ns, p, Make(d, name, kind, rooms)) && !Bound(ns, d, name)
    ensures var ns', i := Created(ns, d, name, kind, rooms), CreateGives(ns, d, name, kind, rooms);
            if Spare(ns) && rooms[2] && (kind == Dir ==> rooms[0] && rooms[1]) then
              && NewInode(ns, ns', i, kind)
              && (forall t: nat :: t != i ==>
                    LinkOf(ns', t) == if kind == Dir && t == d then Inc(LinkOf(ns, d)) else LinkOf(ns, t))
              && forall a: nat, n: Name, x: nat :: Binds(ns', a, n, x) <==>
                   || Binds(ns, a, n, x) || (a == d && n == name && x == i)
                   || (kind == Dir && a == i && ((n == DOT && x == i) || (n == DOTDOT && x == d)))
            else i == 0 && Untouched(ns, ns')
  {
    hide Inv, Binds, WithDir, WithFile, WithEntry, FreeSlot;
    BoundIs(ns, d, name);
    var i := FreeFrom(ns, 1);
    SpareIs(ns);
    KindIs(ns, d);
    if i != 0 {
      KindIs(ns, i);
      FreedUntouched(ns, p, i);
      if Makes(ns, kind, rooms) {
        forall a: nat, n: Name, x: nat
          ensures Binds(Created(ns, d, name, kind, rooms), a, n, x) <==>
                    || Binds(ns, a, n, x) || (a == d && n == name && x == i)
                    || (kind == Dir && a == i && ((n == DOT && x == i) || (n == DOTDOT && x == d)))
        {
          MakeBinds(ns, p, d, name, kind, rooms, a, n, x);
        }
        MakeBinds(ns, p, d, name, kind, rooms, 0, "", 0);
      }
    }
  }

  lemma SpareIs(ns: Nodes)
    ensures Spare(ns) <==> FreeFrom(ns, 1) != 0
  {
  }

  lemma MakeBinds(ns: Nodes, p: multiset<nat>, d: nat, name: Name, kind: Kind, rooms: seq<bool>, a: nat, n: Name,
      x: nat)
    requires Inv(ns, p) && Sensible(ns, p, Make(d, name, kind, rooms)) && Absent(ns, d, name) && Makes(ns, kind, rooms)
    ensures var ns', i := Created(ns, d, name, kind, rooms), FreeFrom(ns, 1);
            && NewInode(ns, ns', i, kind)
            && (forall t: nat :: t != i ==>
                  LinkOf(ns', t) == if kind == Dir && t == d then Inc(LinkOf(ns, d)) else LinkOf(ns, t))
            && (Binds(ns', a, n, x) <==>
                  || Binds(ns, a, n, x) || (a == d && n == name && x == i)
                  || (kind == Dir && a == i && ((n == DOT && x == i) || (n == DOTDOT && x == d))))
  {
    hide Inv, Binds, WithDir, WithFile, WithEntry;
    var i := FreeFrom(ns, 1);
    KindIs(ns, d);
    KindIs(ns, i);
    if kind == Dir {
      DirMeans(ns, p, d, name, i, a, n, x);
    } else {
      FileMeans(ns, p, d, name, i, kind, a, n, x);
    }
  }

  // ------------------------------------------------------------------
  // unlink

  /** Directory i holds a name other than "." and "..". */
  ghost predicate Occupied(ns: Nodes, i: nat) {
    exists n: Name, x: nat :: Binds(ns, i, n, x) && n != DOT && n != DOTDOT
  }

  lemma OccupiedIs(ns: Nodes, p: multiset<nat>, i: nat)
    requires Inv(ns, p) && KindOf(ns, i) == Dir
    ensures Occupied(ns, i) <==> !EmptyDir(ns, i)
  {
    hide KindOf, LinkOf, Target, NameAt, Counted, Shape, Tree;
    DotsFirst(ns, p, i);
    if Occupied(ns, i) {
      var n: Name, x: nat :| Binds(ns, i, n, x) && n != DOT && n != DOTDOT;
      var k: nat :| BindsAt(ns, i, n, x, k);
      assert k >= 2 && Target(ns, i, k) != 0;
    }
    if !EmptyDir(ns, i) {
      var k: nat :| k >= 2 && Target(ns, i, k) != 0;
      assert BindsAt(ns, i, NameAt(ns, i, k), Target(ns, i, k), k);
      assert Binds(ns, i, NameAt(ns, i, k), Target(ns, i, k));
      assert NameAt(ns, i, 0) != NameAt(ns, i, k) && NameAt(ns, i, 1) != NameAt(ns, i, k);
    }
  }

  lemma DotsFirst(ns: Nodes, p: multiset<nat>, i: nat)
    requires Inv(ns, p) && KindOf(ns, i) == Dir
    ensures Target(ns, i, 0) != 0 && NameAt(ns, i, 0) == DOT && Target(ns, i, 1) != 0 && NameAt(ns, i, 1) == DOTDOT
  {
  }

  /** sys_unlink refuses exactly "." and "..", a name that is not there, and a directory that holds other names. */
  lemma UnlinkRefuses(ns: Nodes, p: multiset<nat>, d: nat, name: Name)
    requires Inv(ns, p) && d < |ns| && ns[d].kind == Dir
    ensures Refused(ns, d, name) <==>
              || name == DOT || name == DOTDOT || !Bound(ns, d, name)
              || exists x: nat :: Binds(ns, d, name, x) && KindOf(ns, x) == Dir && Occupied(ns, x)
  {
    hide Inv, Binds, Find, EmptyDir, Occupied;
    NamedIs(ns, d, name);
    if Bound(ns, d, name) && name != DOT && name != DOTDOT {
      var i, k := Named(ns, d, name), Find(ns, d, name);
      InvParts(ns, p);
      NameSpace.NotItself(ns, p, d, name);
      NameSpace.EntryRange(ns, p, d, k);
      KindIs(ns, i);
      if KindOf(ns, i) == Dir {
        OccupiedIs(ns, p, i);
      }
      forall x: nat | Binds(ns, d, name, x) ensures x == i {
        BindsOne(ns, d, name, x, k, i);
      }
    }
  }

  /** Otherwise the name goes and nothing else does; its inode has a link less, and so has the parent of a directory. */
  lemma UnlinkRemoves(ns: Nodes, p: multiset<nat>, d: nat, name: Name, i: nat)
    requires Inv(ns, p) && d < |ns| && ns[d].kind == Dir && !Refused(ns, d, name) && Binds(ns, d, name, i)
    ensures var ns' := Gone(ns, d, name);
            && |ns'| == |ns| && (forall t: nat :: KindOf(ns', t) == KindOf(ns, t))
            && (forall t: nat :: LinkOf(ns', t) ==
                  LinkOf(ns, t) - if t == i || (KindOf(ns, i) == Dir && t == d) then 1 else 0)
            && forall a: nat, n: Name, x: nat :: Binds(ns', a, n, x) <==> Binds(ns, a, n, x) && !(a == d && n == name)
  {
    hide Inv, Binds, Find, EmptyDir, Removed, Unlinked;
    var ns', k := Gone(ns, d, name), Find(ns, d, name);
    InvParts(ns, p);
    NamedIs(ns, d, name);
    GoneIs(ns, d, name);
    FindIs(ns, d, name);
    BindsOne(ns, d, name, i, k, Named(ns, d, name));
    KindIs(ns, i);
    if ns[i].kind == Dir {
      RemovedIs(ns, d, k, i);
    } else {
      UnlinkedIs(ns, d, k, i);
    }
    forall a: nat, n: Name, x: nat ensures Binds(ns', a, n, x) <==> Binds(ns, a, n, x) && !(a == d && n == name) {
      ClearedBinds(ns, ns', d, k, name, i, a, n, x);
    }
  }

  // ------------------------------------------------------------------
  // link

  /** The first half of sys_link adds a link to a file or device and does nothing else. */
  lemma LinkStarts(ns: Nodes, p: multiset<nat>, i: nat)
    requires Sensible(ns, p, StartLink(i))
    ensures var ns' := After(ns, p, StartLink(i)).0;
            && |ns'| == |ns|
            && (forall t: nat :: KindOf(ns', t) == KindOf(ns, t))
            && (forall t: nat :: LinkOf(ns', t) ==
                  if t == i && KindOf(ns, i) != Dir then Inc(LinkOf(ns, i)) else LinkOf(ns, t))
            && forall a: nat, n: Name, x: nat :: Binds(ns', a, n, x) <==> Binds(ns, a, n, x)
  {
    hide Binds;
    var ns' := After(ns, p, StartLink(i)).0;
    forall a: nat, n: Name, x: nat ensures Binds(ns', a, n, x) <==> Binds(ns, a, n, x) {
      SameEntries(ns, ns', a, n, x);
    }
  }

  lemma SameEntries(ns: Nodes, ns': Nodes, a: nat, n: Name, x: nat)
    requires |ns'| == |ns| && forall t :: 0 <= t < |ns| ==> ns'[t].entries == ns[t].entries
    ensures Binds(ns', a, n, x) <==> Binds(ns, a, n, x)
  {
    assert forall k: nat :: BindsAt(ns', a, n, x, k) <==> BindsAt(ns, a, n, x, k);
  }

  /**
   The second half makes the name stand for the file exactly if there is a parent directory,
   the name is not in it and the write has room; otherwise it takes the link back.
   */
  lemma LinkEnds(ns: Nodes, p: multiset<nat>, i: nat, parent: Option<nat>, name: Name, room: bool)
    requires Sensible(ns, p, EndLink(i, parent, name, room))
    ensures LinkMade(ns, parent, name, room) <==> parent.Some? && !Bound(ns, parent.value, name) && room
    ensures var ns', made := After(ns, p, EndLink(i, parent, name, room)).0, LinkMade(ns, parent, name, room);
            && |ns'| == |ns|
            && (forall t: nat :: KindOf(ns', t) == KindOf(ns, t))
            && (forall t: nat :: LinkOf(ns', t) == if t == i && !made then LinkOf(ns, i) - 1 else LinkOf(ns, t))
            && forall a: nat, n: Name, x: nat :: Binds(ns', a, n, x) <==>
                 Binds(ns, a, n, x) || (made && a == parent.value && n == name && x == i)
  {
    hide Binds, WithEntry, Absent;
    var ns', made := After(ns, p, EndLink(i, parent, name, room)).0, LinkMade(ns, parent, name, room);
    if parent.Some? {
      BoundIs(ns, parent.value, name);
    }
    if made {
      var d := parent.value;
      SlotIs(ns, d);
      AddEntry(ns, d, Slot(ns, d), Entry(i, name));
      forall a: nat, n: Name, x: nat
        ensures Binds(ns', a, n, x) <==> Binds(ns, a, n, x) || (a == d && n == name && x == i)
      {
        EditedBinds(ns, ns', d, Slot(ns, d), Entry(i, name), a, n, x);
      }
    } else {
      forall a: nat, n: Name, x: nat ensures Binds(ns', a, n, x) <==> Binds(ns, a, n, x) {
        SameEntries(ns, ns', a, n, x);
      }
    }
  }

  /** The last reference to an inode frees it exactly if it has no links; no other inode is touched. */
  lemma ReleaseFrees(ns: Nodes, i: nat)
    requires 0 < i < |ns|
    ensures var ns' := Released(ns, i);
            && |ns'| == |ns| && (forall t: nat :: t < |ns| && t != i ==> ns'[t] == ns[t])
            && (if LinkOf(ns, i) == 0 then ns'[i] == Node(Free, 0, []) else ns'[i] == ns[i])
  {
  }
}
