/**
 Sv39 page tables (kernel/vm.c, kernel/riscv.h): three levels of 512-entry tables in
 physical memory, and the map from page numbers to entries they stand for.
 */
module Sv39 {

  const PGSIZE: nat := 4096
  const ENTRIES: nat := 512
  const MAXPAGE: nat := 0x400_0000 // MAXVA / PGSIZE
  const TOP: nat := 256            // level-2 indices below MAXVA

  datatype Flags = Flags(v: bool, r: bool, w: bool, x: bool, u: bool)

  /** A page-table entry; Null is the all-zero word. */
  datatype Pte = Pte(ppn: nat, f: Flags) {
    predicate Leaf() {
      f.v && (f.r || f.w || f.x)
    }
  }

  const NONE: Flags := Flags(false, false, false, false, false)
  const NULL: Pte := Pte(0, NONE)

  function Dir(ppn: nat): Pte {
    Pte(ppn, NONE.(v := true))
  }

  /** What a physical page holds. */
  datatype Page =
    | Run(next: nat)            // on kalloc's free list
    | Table(ptes: seq<Pte>)
    | Frame(bytes: seq<int>)

  type Memory = map<nat, Page>

  predicate IsTable(mem: Memory, p: nat) {
    p in mem && mem[p].Table? && |mem[p].ptes| == ENTRIES
  }

  // ------------------------------------------------------------------
  // The three 9-bit indices of a page number (PX)

  function I2(vpn: nat): (i: nat)
    ensures i < ENTRIES
  {
    vpn / ENTRIES / ENTRIES % ENTRIES
  }

  function I1(vpn: nat): (i: nat)
    ensures i < ENTRIES
  {
    vpn / ENTRIES % ENTRIES
  }

  function I0(vpn: nat): (i: nat)
    ensures i < ENTRIES
  {
    vpn % ENTRIES
  }

  /** Below MAXVA the indices determine the page. */
  lemma TopIndex(vpn: nat)
    requires vpn < MAXPAGE
    ensures I2(vpn) < TOP
  {
  }

  /** The indices are the page number's digits in base 512, as the hardware reads them. */
  lemma Digits(vpn: nat)
    requires vpn < MAXPAGE
    ensures vpn == (I2(vpn) * ENTRIES + I1(vpn)) * ENTRIES + I0(vpn)
  {
    assert vpn / ENTRIES / ENTRIES < ENTRIES;
  }

  lemma IndicesDistinct(v: nat, w: nat)
    requires v < MAXPAGE && w < MAXPAGE && I2(v) == I2(w) && I1(v) == I1(w) && I0(v) == I0(w)
    ensures v == w
  {
    hide I2, I1, I0;
    Digits(v);
    Digits(w);
  }

  /**
   The tables of one address space: the root, level-1 tables by level-2 index, and
   level-0 tables by level-2 and level-1 index.
   */
  datatype Tree = Tree(root: nat, l1: map<nat, nat>, l0: map<(nat, nat), nat>)

  ghost predicate Owns(t: Tree, p: nat) {
    || p == t.root
    || (exists i :: i in t.l1 && t.l1[i] == p)
    || (exists k :: k in t.l0 && t.l0[k] == p)
  }

  /** Distinct tables for distinct places. */
  ghost predicate Distinct(t: Tree) {
    && (forall i :: i in t.l1 ==> t.l1[i] != t.root)
    && (forall k :: k in t.l0 ==> t.l0[k] != t.root)
    && (forall i, j :: i in t.l1 && j in t.l1 && i != j ==> t.l1[i] != t.l1[j])
    && (forall k, n :: k in t.l0 && n in t.l0 && k != n ==> t.l0[k] != t.l0[n])
    && (forall i, k :: i in t.l1 && k in t.l0 ==> t.l1[i] != t.l0[k])
  }

  /** The root's entries are exactly the level-1 tables. */
  ghost predicate RootOk(mem: Memory, t: Tree) {
    && IsTable(mem, t.root)
    && (forall i :: i in t.l1 ==> i < TOP && mem[t.root].ptes[i] == Dir(t.l1[i]) && IsTable(mem, t.l1[i]))
    && (forall i :: 0 <= i < ENTRIES && i !in t.l1 ==> mem[t.root].ptes[i] == NULL)
  }

  /** The entries of the level-1 tables are exactly the level-0 tables. */
  ghost predicate MidOk(mem: Memory, t: Tree)
    requires RootOk(mem, t)
  {
    && (forall k :: k in t.l0 ==>
          && k.0 in t.l1 && k.1 < ENTRIES
          && mem[t.l1[k.0]].ptes[k.1] == Dir(t.l0[k]) && IsTable(mem, t.l0[k]))
    && (forall i, j :: i in t.l1 && 0 <= j < ENTRIES && (i, j) !in t.l0 ==> mem[t.l1[i]].ptes[j] == NULL)
  }

  ghost predicate IsTree(mem: Memory, t: Tree) {
    Distinct(t) && RootOk(mem, t) && MidOk(mem, t)
  }

  function Key(vpn: nat): (nat, nat) {
    (I2(vpn), I1(vpn))
  }

  /** The leaf entry for a page: what the address space maps there. */
  function Entry(mem: Memory, t: Tree, vpn: nat): Pte {
    if Key(vpn) in t.l0 && IsTable(mem, t.l0[Key(vpn)]) then mem[t.l0[Key(vpn)]].ptes[I0(vpn)] else NULL
  }

  // ------------------------------------------------------------------
  // walk

  /** walk without allocation, on raw memory: the table that holds the leaf entry for vpn. */
  function Find(mem: Memory, root: nat, vpn: nat): (r: (bool, nat))
  {
    if IsTable(mem, root) && mem[root].ptes[I2(vpn)].f.v && IsTable(mem, mem[root].ptes[I2(vpn)].ppn) &&
       mem[mem[root].ptes[I2(vpn)].ppn].ptes[I1(vpn)].f.v
    then (true, mem[mem[root].ptes[I2(vpn)].ppn].ptes[I1(vpn)].ppn)
    else (false, 0)
  }

  /** The three-level walk finds exactly the level-0 table of the page. */
  lemma FindsEntry(mem: Memory, t: Tree, vpn: nat)
    requires IsTree(mem, t)
    ensures Find(mem, t.root, vpn) == (if Key(vpn) in t.l0 then (true, t.l0[Key(vpn)]) else (false, 0))
  {
  }

  /** Distinct pages have distinct slots. */
  lemma SlotsDistinct(t: Tree, v: nat, w: nat)
    requires Distinct(t) && v != w && v < MAXPAGE && w < MAXPAGE && Key(v) in t.l0 && Key(w) in t.l0
    ensures t.l0[Key(v)] != t.l0[Key(w)] || I0(v) != I0(w)
  {
    if t.l0[Key(v)] == t.l0[Key(w)] && I0(v) == I0(w) {
      IndicesDistinct(v, w);
    }
  }

  /** A page of zeros, read as a table. */
  function Zeros(): (z: Page)
    ensures z.Table? && |z.ptes| == ENTRIES && forall i :: 0 <= i < ENTRIES ==> z.ptes[i] == NULL
  {
    Table(seq(ENTRIES, _ => NULL))
  }

  function WithMid(mem: Memory, t: Tree, i: nat, p: nat): Memory
    requires IsTable(mem, t.root) && i < ENTRIES
  {
    mem[p := Zeros()][t.root := Table(mem[t.root].ptes[i := Dir(p)])]
  }

  function WithLow(mem: Memory, t: Tree, k: (nat, nat), p: nat): Memory
    requires k.0 in t.l1 && IsTable(mem, t.l1[k.0]) && k.1 < ENTRIES
  {
    mem[p := Zeros()][t.l1[k.0] := Table(mem[t.l1[k.0]].ptes[k.1 := Dir(p)])]
  }

  /** p is none of the tables, said table by table. */
  ghost predicate Apart(t: Tree, p: nat) {
    p != t.root && (forall i :: i in t.l1 ==> t.l1[i] != p) && (forall k :: k in t.l0 ==> t.l0[k] != p)
  }

  lemma AddMidRoot(mem: Memory, t: Tree, i: nat, p: nat)
    requires Distinct(t) && RootOk(mem, t) && i < TOP && i !in t.l1 && Apart(t, p)
    ensures Distinct(t.(l1 := t.l1[i := p])) && RootOk(WithMid(mem, t, i, p), t.(l1 := t.l1[i := p]))
  {
    hide Zeros;
  }

  lemma AddMidMid(mem: Memory, t: Tree, i: nat, p: nat)
    requires Distinct(t) && RootOk(mem, t) && MidOk(mem, t) && i < TOP && i !in t.l1 && Apart(t, p)
    requires RootOk(WithMid(mem, t, i, p), t.(l1 := t.l1[i := p]))
    ensures MidOk(WithMid(mem, t, i, p), t.(l1 := t.l1[i := p]))
  {
    hide Zeros, RootOk;
    RootTables(mem, t);
  }

  lemma AddMidTree(mem: Memory, t: Tree, i: nat, p: nat)
    requires IsTree(mem, t) && i < TOP && i !in t.l1 && !Owns(t, p)
    ensures IsTree(WithMid(mem, t, i, p), t.(l1 := t.l1[i := p]))
  {
    hide Zeros, Owns;
    assert Apart(t, p) by {
      NotOwned(t, p);
    }
    AddMidRoot(mem, t, i, p);
    AddMidMid(mem, t, i, p);
  }

  lemma RootTables(mem: Memory, t: Tree)
    requires RootOk(mem, t)
    ensures IsTable(mem, t.root) && forall i :: i in t.l1 ==> i < ENTRIES && IsTable(mem, t.l1[i])
  {
  }

  lemma NotOwned(t: Tree, p: nat)
    requires !Owns(t, p)
    ensures Apart(t, p)
  {
  }

  /** A fresh level-1 table changes no entry. */
  lemma AddMid(mem: Memory, t: Tree, i: nat, p: nat)
    requires IsTree(mem, t) && i < TOP && i !in t.l1 && !Owns(t, p)
    ensures IsTree(WithMid(mem, t, i, p), t.(l1 := t.l1[i := p]))
    ensures forall v: nat :: Entry(WithMid(mem, t, i, p), t.(l1 := t.l1[i := p]), v) == Entry(mem, t, v)
  {
    hide I2, I1, I0, IsTree;
    AddMidTree(mem, t, i, p);
    LowTables(mem, t);
    assert forall k :: k in t.l0 ==> t.l0[k] != p;
  }

  /** Where the level-0 tables are, for reasoning about entries alone. */
  lemma LowTables(mem: Memory, t: Tree)
    requires IsTree(mem, t)
    ensures IsTable(mem, t.root)
    ensures forall k :: k in t.l0 ==> IsTable(mem, t.l0[k]) && t.l0[k] != t.root && k.0 in t.l1
    ensures forall i, k :: i in t.l1 && k in t.l0 ==> t.l1[i] != t.l0[k]
    ensures forall i :: i in t.l1 ==> IsTable(mem, t.l1[i])
  {
  }

  lemma AddLowRoot(mem: Memory, t: Tree, k: (nat, nat), p: nat)
    requires Distinct(t) && RootOk(mem, t) && k.0 in t.l1 && k.1 < ENTRIES && k !in t.l0 && Apart(t, p)
    ensures Distinct(t.(l0 := t.l0[k := p])) && RootOk(WithLow(mem, t, k, p), t.(l0 := t.l0[k := p]))
  {
    hide Zeros;
  }

  lemma AddLowMid(mem: Memory, t: Tree, k: (nat, nat), p: nat)
    requires Distinct(t) && RootOk(mem, t) && MidOk(mem, t) && k.0 in t.l1 && k.1 < ENTRIES && k !in t.l0 && Apart(t, p)
    requires RootOk(WithLow(mem, t, k, p), t.(l0 := t.l0[k := p]))
    ensures MidOk(WithLow(mem, t, k, p), t.(l0 := t.l0[k := p]))
  {
    hide Zeros, RootOk;
    RootTables(mem, t);
  }

  lemma AddLowTree(mem: Memory, t: Tree, k: (nat, nat), p: nat)
    requires IsTree(mem, t) && k.0 in t.l1 && k.1 < ENTRIES && k !in t.l0 && !Owns(t, p)
    ensures IsTree(WithLow(mem, t, k, p), t.(l0 := t.l0[k := p]))
  {
    hide Zeros, Owns;
    assert Apart(t, p) by {
      NotOwned(t, p);
    }
    AddLowRoot(mem, t, k, p);
    AddLowMid(mem, t, k, p);
  }

  /** A fresh level-0 table changes no entry. */
  lemma AddLow(mem: Memory, t: Tree, k: (nat, nat), p: nat)
    requires IsTree(mem, t) && k.0 in t.l1 && k.1 < ENTRIES && k !in t.l0 && !Owns(t, p)
    ensures IsTree(WithLow(mem, t, k, p), t.(l0 := t.l0[k := p]))
    ensures forall v: nat :: Entry(WithLow(mem, t, k, p), t.(l0 := t.l0[k := p]), v) == Entry(mem, t, v)
  {
    hide I2, I1, I0, IsTree;
    AddLowTree(mem, t, k, p);
    LowTables(mem, t);
    assert p != t.l1[k.0];
    assert forall n :: n in t.l0 ==> t.l0[n] != p;
  }

  /** Writing one leaf entry changes that page's entry and no other. */
  lemma SetEntry(mem: Memory, t: Tree, vpn: nat, e: Pte)
    requires IsTree(mem, t) && vpn < MAXPAGE && Key(vpn) in t.l0
    ensures var q := t.l0[Key(vpn)];
            && IsTable(mem, q)
            && var m := mem[q := Table(mem[q].ptes[I0(vpn) := e])];
            && IsTree(m, t)
            && Entry(m, t, vpn) == e
            && (forall v: nat :: v < MAXPAGE && v != vpn ==> Entry(m, t, v) == Entry(mem, t, v))
  {
    hide I2, I1;
    var q := t.l0[Key(vpn)];
    var m := mem[q := Table(mem[q].ptes[I0(vpn) := e])];
    forall v: nat | v < MAXPAGE && v != vpn ensures Entry(m, t, v) == Entry(mem, t, v) {
      if Key(v) in t.l0 {
        SlotsDistinct(t, v, vpn);
      }
    }
  }

  /** Pages that are no tables of t do not matter to it. */
  lemma Untouched(mem: Memory, m: Memory, t: Tree)
    requires IsTree(mem, t) && forall p :: Owns(t, p) ==> p in m && p in mem && m[p] == mem[p]
    ensures IsTree(m, t) && forall v: nat :: Entry(m, t, v) == Entry(mem, t, v)
  {
    hide I2, I1, I0;
    assert Owns(t, t.root);
    forall i | i in t.l1 ensures Owns(t, t.l1[i]) {
    }
    forall k | k in t.l0 ensures Owns(t, t.l0[k]) {
    }
  }
}

/** Page-table pages as freewalk sees them: a page, and recursively what its valid entries point at. */
module Subtree {
  import opened Sv39

  /** The table pages from p down, level levels deep below it. */
  ghost function Sub(mem: Memory, p: nat, level: nat): set<nat>
    decreases level, 1, 0
  {
    if level == 0 || !IsTable(mem, p) then {p} else {p} + Kids(mem, p, level, ENTRIES)
  }

  ghost function Kids(mem: Memory, p: nat, level: nat, n: nat): set<nat>
    requires level > 0 && IsTable(mem, p) && n <= ENTRIES
    decreases level, 0, n
  {
    if n == 0 then {}
    else
      Kids(mem, p, level, n - 1)
      + if mem[p].ptes[n - 1].f.v then Sub(mem, mem[p].ptes[n - 1].ppn, level - 1) else {}
  }

  /** No leaf below p, and no page reached twice: what freewalk needs. */
  ghost predicate Clean(mem: Memory, p: nat, level: nat)
    decreases level, 1, 0
  {
    && IsTable(mem, p)
    && if level == 0 then forall i :: 0 <= i < ENTRIES ==> !mem[p].ptes[i].f.v
       else CleanKids(mem, p, level, ENTRIES)
  }

  ghost predicate CleanKids(mem: Memory, p: nat, level: nat, n: nat)
    requires level > 0 && IsTable(mem, p) && n <= ENTRIES
    decreases level, 0, n
  {
    n == 0 ||
    (CleanKids(mem, p, level, n - 1) &&
     var e := mem[p].ptes[n - 1];
     e.f.v ==>
       && e == Dir(e.ppn) && Clean(mem, e.ppn, level - 1)
       && Sub(mem, e.ppn, level - 1) !! Kids(mem, p, level, n - 1)
       && p !in Sub(mem, e.ppn, level - 1))
  }

  /** The i-th child: clean, and disjoint from p and the earlier children. */
  lemma {:induction false} KidAt(mem: Memory, p: nat, level: nat, n: nat, i: nat)
    requires level > 0 && IsTable(mem, p) && i < n <= ENTRIES && CleanKids(mem, p, level, n)
    ensures Kids(mem, p, level, i) <= Kids(mem, p, level, n)
    ensures var e := mem[p].ptes[i];
            e.f.v ==>
              && e == Dir(e.ppn) && Clean(mem, e.ppn, level - 1)
              && Sub(mem, e.ppn, level - 1) !! Kids(mem, p, level, i)
              && p !in Sub(mem, e.ppn, level - 1)
              && Sub(mem, e.ppn, level - 1) <= Kids(mem, p, level, n)
    decreases n
  {
    if i < n - 1 {
      KidAt(mem, p, level, n - 1, i);
    }
  }

  lemma KidsNext(mem: Memory, p: nat, level: nat, i: nat)
    requires level > 0 && IsTable(mem, p) && i < ENTRIES
    ensures Kids(mem, p, level, i + 1)
            == Kids(mem, p, level, i) + if mem[p].ptes[i].f.v then Sub(mem, mem[p].ptes[i].ppn, level - 1) else {}
  {
  }

  /** One more entry, empty or pointing at a clean subtree that is new. */
  lemma CleanKidsNext(mem: Memory, p: nat, level: nat, i: nat)
    requires level > 0 && IsTable(mem, p) && i < ENTRIES && CleanKids(mem, p, level, i)
    requires var e := mem[p].ptes[i];
             e.f.v ==>
               && e == Dir(e.ppn) && Clean(mem, e.ppn, level - 1)
               && Sub(mem, e.ppn, level - 1) !! Kids(mem, p, level, i) && p !in Sub(mem, e.ppn, level - 1)
    ensures CleanKids(mem, p, level, i + 1)
  {
  }

  lemma KidsNone(mem: Memory, p: nat, level: nat)
    requires level > 0 && IsTable(mem, p)
    ensures CleanKids(mem, p, level, 0) && Kids(mem, p, level, 0) == {}
  {
  }

  lemma CleanIsTable(mem: Memory, p: nat, level: nat)
    requires Clean(mem, p, level)
    ensures p in Sub(mem, p, level)
    ensures IsTable(mem, p)
            && (level > 0 ==> CleanKids(mem, p, level, ENTRIES) && Kids(mem, p, level, ENTRIES) <= Sub(mem, p, level))
    ensures level == 0 ==> forall i :: 0 <= i < ENTRIES ==> !mem[p].ptes[i].f.v
  {
  }

  lemma {:induction false} KidsExclude(mem: Memory, p: nat, level: nat, n: nat)
    requires level > 0 && IsTable(mem, p) && n <= ENTRIES && CleanKids(mem, p, level, n)
    ensures p !in Kids(mem, p, level, n)
    decreases n
  {
    if n > 0 {
      KidsExclude(mem, p, level, n - 1);
    }
  }

  lemma {:induction false} SubInMemory(mem: Memory, p: nat, level: nat)
    requires Clean(mem, p, level)
    ensures Sub(mem, p, level) <= mem.Keys
    decreases level, 1, 0
  {
    if level > 0 {
      KidsInMemory(mem, p, level, ENTRIES);
    }
  }

  lemma {:induction false} KidsInMemory(mem: Memory, p: nat, level: nat, n: nat)
    requires level > 0 && IsTable(mem, p) && n <= ENTRIES && CleanKids(mem, p, level, n)
    ensures Kids(mem, p, level, n) <= mem.Keys
    decreases level, 0, n
  {
    if n > 0 {
      KidsInMemory(mem, p, level, n - 1);
      if mem[p].ptes[n - 1].f.v {
        SubInMemory(mem, mem[p].ptes[n - 1].ppn, level - 1);
      }
    }
  }

  /** A subtree does not notice changes elsewhere. */
  lemma {:induction false} SubFrame(a: Memory, b: Memory, p: nat, level: nat)
    requires Clean(a, p, level) && forall q :: q in Sub(a, p, level) ==> q in b && q in a && b[q] == a[q]
    ensures Clean(b, p, level) && Sub(b, p, level) == Sub(a, p, level)
    decreases level, 1, 0
  {
    assert p in Sub(a, p, level);
    if level > 0 {
      KidsFrame(a, b, p, level, ENTRIES);
    }
  }

  lemma {:induction false} KidsFrame(a: Memory, b: Memory, p: nat, level: nat, n: nat)
    requires level > 0 && IsTable(a, p) && n <= ENTRIES && CleanKids(a, p, level, n)
    requires p in b && b[p] == a[p] && forall q :: q in Kids(a, p, level, n) ==> q in b && q in a && b[q] == a[q]
    ensures CleanKids(b, p, level, n) && Kids(b, p, level, n) == Kids(a, p, level, n)
    decreases level, 0, n
  {
    if n > 0 {
      KidsFrame(a, b, p, level, n - 1);
      var e := a[p].ptes[n - 1];
      if e.f.v {
        SubFrame(a, b, e.ppn, level - 1);
      }
    }
  }
}

/**
 The page allocator (kernel/kalloc.c) and the operations on address spaces
 (kernel/vm.c) in one physical memory.
 */
module Vm {
  import Sets
  import opened Sv39
  import opened Subtree

  /** An address space: its tables, and the pages it maps. */
  datatype Space = Space(t: Tree, m: map<nat, Pte>)

  ghost function Tables(t: Tree): set<nat> {
    {t.root} + t.l1.Values + t.l0.Values
  }

  lemma TablesOwn(t: Tree)
    ensures forall p: nat :: p in Tables(t) <==> Owns(t, p)
  {
  }

  /** Memory is the same outside the pages of S. */
  ghost predicate SameOutside(a: Memory, b: Memory, S: set<nat>) {
    a.Keys == b.Keys && forall p :: p in a && p !in S ==> b[p] == a[p]
  }

  ghost predicate SameEntries(a: Memory, t: Tree, b: Memory, u: Tree) {
    forall v: nat :: Entry(b, u, v) == Entry(a, t, v)
  }

  // ------------------------------------------------------------------
  // A tree that maps nothing is what freewalk can free

  /** Below MAXVA every slot of a level-0 table is the slot of some page. */
  lemma SlotPage(k: (nat, nat), j: nat) returns (vpn: nat)
    requires k.0 < TOP && k.1 < ENTRIES && j < ENTRIES
    ensures vpn < MAXPAGE && Key(vpn) == k && I0(vpn) == j
  {
    vpn := (k.0 * ENTRIES + k.1) * ENTRIES + j;
    assert vpn / ENTRIES == k.0 * ENTRIES + k.1;
  }

  lemma LowClean(mem: Memory, t: Tree, k: (nat, nat))
    requires IsTree(mem, t) && Maps(mem, t, map[]) && k in t.l0
    ensures Clean(mem, t.l0[k], 0) && Sub(mem, t.l0[k], 0) == {t.l0[k]}
  {
    forall j | 0 <= j < ENTRIES ensures !mem[t.l0[k]].ptes[j].f.v {
      var vpn := SlotPage(k, j);
      assert Entry(mem, t, vpn) == NULL;
    }
  }

  /** The level-0 tables under level-1 table i, below index n. */
  ghost function LowOf(t: Tree, i: nat, n: nat): set<nat> {
    set k | k in t.l0 && k.0 == i && k.1 < n :: t.l0[k]
  }

  /** All tables below the root under its first n entries. */
  ghost function Below(t: Tree, n: nat): set<nat> {
    (set i | i in t.l1 && i < n :: t.l1[i]) + (set k | k in t.l0 && k.0 < n :: t.l0[k])
  }

  lemma LowOfNext(t: Tree, i: nat, n: nat)
    requires Distinct(t)
    ensures LowOf(t, i, n + 1) == LowOf(t, i, n) + if (i, n) in t.l0 then {t.l0[(i, n)]} else {}
    ensures (i, n) in t.l0 ==> t.l0[(i, n)] !in LowOf(t, i, n)
  {
  }

  lemma LowOfNone(t: Tree, i: nat)
    ensures LowOf(t, i, 0) == {}
  {
  }

  lemma MidEntries(mem: Memory, t: Tree, i: nat)
    requires IsTree(mem, t) && i in t.l1
    ensures Distinct(t) && IsTable(mem, t.l1[i]) && forall k :: k in t.l0 ==> t.l0[k] != t.l1[i]
    ensures forall j :: 0 <= j < ENTRIES ==> mem[t.l1[i]].ptes[j] == if (i, j) in t.l0 then Dir(t.l0[(i, j)]) else NULL
  {
  }

  lemma {:induction false} MidKids(mem: Memory, t: Tree, i: nat, n: nat)
    requires IsTree(mem, t) && Maps(mem, t, map[]) && i in t.l1 && n <= ENTRIES
    ensures IsTable(mem, t.l1[i]) && CleanKids(mem, t.l1[i], 1, n)
    ensures Kids(mem, t.l1[i], 1, n) == LowOf(t, i, n)
    decreases n
  {
    hide IsTree, Maps, LowOf, Distinct, Clean, CleanKids, Kids, Sub;
    MidEntries(mem, t, i);
    if n > 0 {
      MidKids(mem, t, i, n - 1);
      LowOfNext(t, i, n - 1);
      if (i, n - 1) in t.l0 {
        LowClean(mem, t, (i, n - 1));
      }
      CleanKidsNext(mem, t.l1[i], 1, n - 1);
      KidsNext(mem, t.l1[i], 1, n - 1);
    } else {
      KidsNone(mem, t.l1[i], 1);
      LowOfNone(t, i);
    }
  }

  lemma BelowNext(mem: Memory, t: Tree, n: nat)
    requires IsTree(mem, t)
    ensures Below(t, n + 1) == Below(t, n) + if n in t.l1 then {t.l1[n]} + LowOf(t, n, ENTRIES) else {}
  {
    if n in t.l1 {
      forall p | p in {t.l1[n]} + LowOf(t, n, ENTRIES) ensures p in Below(t, n + 1) {
        if p != t.l1[n] {
          var k :| k in t.l0 && k.0 == n && k.1 < ENTRIES && t.l0[k] == p;
          assert k.0 < n + 1;
        }
      }
    }
  }

  lemma BelowApart(mem: Memory, t: Tree, n: nat)
    requires IsTree(mem, t) && n in t.l1
    ensures {t.l1[n]} + LowOf(t, n, ENTRIES) !! Below(t, n) && t.root !in {t.l1[n]} + LowOf(t, n, ENTRIES)
  {
    hide RootOk, MidOk;
  }

  lemma BelowNone(t: Tree)
    ensures Below(t, 0) == {}
  {
  }

  lemma RootEntries(mem: Memory, t: Tree)
    requires IsTree(mem, t)
    ensures IsTable(mem, t.root)
    ensures forall i :: 0 <= i < ENTRIES ==> mem[t.root].ptes[i] == if i in t.l1 then Dir(t.l1[i]) else NULL
  {
  }

  lemma MidSub(mem: Memory, t: Tree, i: nat)
    requires IsTree(mem, t) && Maps(mem, t, map[]) && i in t.l1
    ensures Clean(mem, t.l1[i], 1) && Sub(mem, t.l1[i], 1) == {t.l1[i]} + LowOf(t, i, ENTRIES)
  {
    MidKids(mem, t, i, ENTRIES);
  }

  lemma {:induction false} RootKids(mem: Memory, t: Tree, n: nat)
    requires IsTree(mem, t) && Maps(mem, t, map[]) && n <= ENTRIES
    ensures CleanKids(mem, t.root, 2, n) && Kids(mem, t.root, 2, n) == Below(t, n)
    decreases n
  {
    hide IsTree, RootOk, MidOk, Maps, Below, LowOf, Distinct, Clean, CleanKids, Kids, Sub;
    RootEntries(mem, t);
    if n > 0 {
      RootKids(mem, t, n - 1);
      BelowNext(mem, t, n - 1);
      if n - 1 in t.l1 {
        MidSub(mem, t, n - 1);
        BelowApart(mem, t, n - 1);
      }
      CleanKidsNext(mem, t.root, 2, n - 1);
      KidsNext(mem, t.root, 2, n - 1);
    } else {
      KidsNone(mem, t.root, 2);
      BelowNone(t);
    }
  }

  /** An address space that maps nothing is clean, and freewalk reaches exactly its tables. */
  lemma TreeClean(mem: Memory, t: Tree)
    requires IsTree(mem, t) && Maps(mem, t, map[])
    ensures Clean(mem, t.root, 2) && Sub(mem, t.root, 2) == Tables(t)
  {
    RootKids(mem, t, ENTRIES);
    assert Below(t, ENTRIES) == t.l1.Values + t.l0.Values;
  }

  // ------------------------------------------------------------------
  // How many tables an address space has, and how many more a range of pages needs

  datatype Place = Mid(i: nat) | Low(k: (nat, nat))

  /** The places below the root that have a table. */
  ghost function Places(t: Tree): set<Place> {
    (set i | i in t.l1 :: Mid(i)) + (set k | k in t.l0 :: Low(k))
  }

  /** The tables that lead to page v. */
  ghost function Needs(v: nat): set<Place> {
    {Mid(I2(v)), Low(Key(v))}
  }

  /** How many of them are missing. */
  ghost function Lack(t: Tree, v: nat): nat {
    |Needs(v) - Places(t)|
  }

  /** The tables that lead to pages lo up to hi. */
  ghost function Paths(lo: nat, hi: nat): set<Place>
    decreases hi
  {
    if hi <= lo then {} else Paths(lo, hi - 1) + Needs(hi - 1)
  }

  /** The pages it takes to map pages lo up to hi to new frames: the frames, and the tables that are missing. */
  ghost function Cost(t: Tree, lo: nat, hi: nat): nat {
    if hi <= lo then 0 else hi - lo + |Paths(lo, hi) - Places(t)|
  }

  lemma PlacesGrown(t: Tree, vpn: nat, level: int, p: nat)
    requires 0 < level <= 2 && (if level == 2 then I2(vpn) !in t.l1 else Key(vpn) !in t.l0)
    ensures var x := if level == 2 then Mid(I2(vpn)) else Low(Key(vpn));
            && x !in Places(t) && x in Needs(vpn)
            && Places(Grown(t, vpn, level, p)) == Places(t) + {x}
            && |Places(Grown(t, vpn, level, p))| == |Places(t)| + 1
  {
    hide I2, I1, I0, Places;
    var x := if level == 2 then Mid(I2(vpn)) else Low(Key(vpn));
    var u := Grown(t, vpn, level, p);
    PlaceIn(t, x);
    forall y ensures y in Places(u) <==> y in Places(t) + {x} {
      PlaceIn(t, y);
      PlaceIn(u, y);
    }
    assert Places(u) == Places(t) + {x};
  }

  lemma PlaceIn(t: Tree, x: Place)
    ensures x in Places(t) <==> if x.Mid? then x.i in t.l1 else x.k in t.l0
  {
  }

  lemma PlacesHave(mem: Memory, t: Tree, vpn: nat)
    requires IsTree(mem, t) && Key(vpn) in t.l0
    ensures Needs(vpn) <= Places(t)
  {
    hide I2, I1, I0;
  }

  lemma PlacesLack(t: Tree, vpn: nat)
    requires Key(vpn) !in t.l0
    ensures Low(Key(vpn)) !in Places(t)
  {
    hide I2, I1, I0;
  }

  lemma {:induction false} PathsGrow(lo: nat, a: nat, hi: nat)
    requires lo <= a <= hi
    ensures Paths(lo, a) <= Paths(lo, hi)
    decreases hi
  {
    if a < hi {
      PathsGrow(lo, a, hi - 1);
    }
  }

  lemma MinusSize<T>(a: set<T>, b: set<T>)
    ensures |a + b| == |b| + |a - b|
  {
    assert a + b == b + (a - b);
  }

  /** walk took the tables missing for vpn from the free list, or ran out on the way. */
  ghost predicate Charged(t: Tree, u: Tree, vpn: nat, ok: bool, free0: nat, free: nat) {
    && free + |Places(u)| == free0 + |Places(t)| && Places(t) <= Places(u) <= Places(t) + Needs(vpn)
    && if ok then Needs(vpn) <= Places(u) else Low(Key(vpn)) !in Places(u)
  }

  lemma ChargedOk(t: Tree, u: Tree, vpn: nat, free0: nat, free: nat)
    requires Charged(t, u, vpn, true, free0, free)
    ensures Places(u) == Places(t) + Needs(vpn) && free0 == free + Lack(t, vpn)
    ensures free + |Places(u)| == free0 + |Places(t)|
  {
    hide Places, Needs;
    MinusSize(Needs(vpn), Places(t));
    assert Places(u) == Needs(vpn) + Places(t);
  }

  lemma ChargedFail(t: Tree, u: Tree, vpn: nat, free0: nat)
    requires Charged(t, u, vpn, false, free0, 0)
    ensures free0 < Lack(t, vpn)
  {
    hide Places;
    MinusSize(Needs(vpn), Places(t));
    assert Low(Key(vpn)) in Needs(vpn) && Places(t) + Needs(vpn) == Needs(vpn) + Places(t);
    Sets.SubsetSize(Places(u), Needs(vpn) + Places(t) - {Low(Key(vpn))});
  }

  /** With pages lo up to a paid for and page a too dear, the whole range is. */
  lemma TooDear(t: Tree, u: Tree, lo: nat, a: nat, hi: nat, free0: nat, free: nat)
    requires lo <= a < hi && Places(u) == Places(t) + Paths(lo, a)
    requires free + |Places(u)| + (a - lo) == free0 + |Places(t)| && free < 1 + Lack(u, a)
    ensures free0 < Cost(t, lo, hi)
  {
    hide Needs, Places;
    PathsGrow(lo, a + 1, hi);
    assert Paths(lo, a + 1) == Paths(lo, a) + Needs(a);
    MinusSize(Needs(a), Places(u));
    assert Needs(a) + Places(u) == Places(t) + Paths(lo, a + 1);
    MinusSize(Paths(lo, a + 1), Places(t));
    assert Paths(lo, a + 1) + Places(t) == Places(t) + Paths(lo, a + 1);
    Sets.SubsetSize(Paths(lo, a + 1) - Places(t), Paths(lo, hi) - Places(t));
  }

  /** With the whole range paid for, there was enough. */
  lemma Afforded(t: Tree, u: Tree, lo: nat, hi: nat, free0: nat, free: nat)
    requires lo <= hi && Places(u) == Places(t) + Paths(lo, hi)
    requires free + |Places(u)| + (hi - lo) == free0 + |Places(t)|
    ensures free0 >= Cost(t, lo, hi)
  {
    hide Needs, Places;
    MinusSize(Paths(lo, hi), Places(t));
    assert Paths(lo, hi) + Places(t) == Places(u);
  }

  lemma AffordedMore(t: Tree, u: Tree, lo: nat, hi: nat, free0: nat, free: nat)
    requires lo <= hi && Places(u) == Places(t) + Paths(lo, hi)
    requires free + |Places(u)| + (hi - lo) == free0 + |Places(t)|
    ensures free > 0 <==> free0 > Cost(t, lo, hi)
  {
    hide Needs, Places;
    MinusSize(Paths(lo, hi), Places(t));
    assert Paths(lo, hi) + Places(t) == Places(u);
    assert hi <= lo ==> Paths(lo, hi) == {};
  }

  lemma CostGrows(t: Tree, lo: nat, a: nat, hi: nat)
    requires lo <= a <= hi
    ensures Cost(t, lo, a) <= Cost(t, lo, hi)
  {
    hide Needs, Places;
    PathsGrow(lo, a, hi);
    Sets.SubsetSize(Paths(lo, a) - Places(t), Paths(lo, hi) - Places(t));
  }

  /** An entry says whether its page is mapped. */
  lemma EntryTells(mem: Memory, t: Tree, m: map<nat, Pte>, a: nat)
    requires IsTree(mem, t) && Maps(mem, t, m) && a < MAXPAGE
    ensures a in m ==> Key(a) in t.l0
    ensures Key(a) in t.l0 ==> IsTable(mem, t.l0[Key(a)]) && (mem[t.l0[Key(a)]].ptes[I0(a)].f.v <==> a in m)
  {
    LowTables(mem, t);
    assert Entry(mem, t, a) == if a in m then m[a] else NULL;
  }

  /** A process's trap frame, root and two topmost tables, its n pages and the tables these lack. */
  ghost function ForkCost(n: nat): nat {
    4 + n + |Paths(0, n) - Needs(MAXPAGE - 1)|
  }

  lemma CostIs(t: Tree, n: nat)
    requires Places(t) == Needs(MAXPAGE - 1)
    ensures 4 + Cost(t, 0, n) == ForkCost(n)
  {
    hide Needs, Places;
    assert n == 0 ==> Paths(0, n) == {};
  }

  lemma CostOfFork(n: nat)
    ensures ForkCost(n) >= 4
  {
  }

  /** Where walk stands after descending to a level. */
  ghost predicate Reached(t: Tree, vpn: nat, level: int, tbl: nat) {
    match level
    case 2 => tbl == t.root
    case 1 => I2(vpn) in t.l1 && tbl == t.l1[I2(vpn)]
    case 0 => Key(vpn) in t.l0 && tbl == t.l0[Key(vpn)]
    case _ => false
  }

  function Px(level: int, vpn: nat): (i: nat)
    ensures i < ENTRIES
  {
    if level == 2 then I2(vpn) else if level == 1 then I1(vpn) else I0(vpn)
  }

  /** The tree with the missing table below (level, vpn) added at page p. */
  function Grown(t: Tree, vpn: nat, level: int, p: nat): Tree {
    if level == 2 then t.(l1 := t.l1[I2(vpn) := p]) else t.(l0 := t.l0[Key(vpn) := p])
  }

  /** Following a valid entry, or finding none, is what the tree says. */
  lemma Descend(mem: Memory, t: Tree, vpn: nat, level: int, tbl: nat)
    requires IsTree(mem, t) && 0 < level <= 2 && Reached(t, vpn, level, tbl)
    ensures IsTable(mem, tbl)
    ensures var e := mem[tbl].ptes[Px(level, vpn)];
            && (e.f.v ==> Reached(t, vpn, level - 1, e.ppn))
            && (!e.f.v ==> Key(vpn) !in t.l0 && (level == 2 ==> I2(vpn) !in t.l1))
  {
    hide I2, I1, I0;
  }

  /** Adding a zeroed table at p for a missing one keeps the tree and all its entries. */
  lemma GrowTree(mem: Memory, t: Tree, vpn: nat, level: int, tbl: nat, p: nat)
    requires IsTree(mem, t) && 0 < level <= 2 && Reached(t, vpn, level, tbl) && IsTable(mem, tbl)
    requires !mem[tbl].ptes[Px(level, vpn)].f.v && p !in Tables(t) && vpn < MAXPAGE
    ensures var m, u :=
      mem[p := Zeros()][tbl := Table(mem[tbl].ptes[Px(level, vpn) := Dir(p)])], Grown(t, vpn, level, p);
            && IsTree(m, u) && SameEntries(mem, t, m, u) && Reached(u, vpn, level - 1, p)
            && Tables(u) == Tables(t) + {p} && u.root == t.root
  {
    hide I2, I1, I0, IsTree;
    TopIndex(vpn);
    Descend(mem, t, vpn, level, tbl);
    TablesOwn(t);
    if level == 2 {
      AddMid(mem, t, I2(vpn), p);
      ValuesAdded(t.l1, I2(vpn), p);
    } else {
      AddLow(mem, t, Key(vpn), p);
      ValuesAdded(t.l0, Key(vpn), p);
    }
  }

  lemma ReachedRoot(t: Tree, vpn: nat)
    ensures Reached(t, vpn, 2, t.root)
  {
  }

  lemma ReachedLeaf(t: Tree, vpn: nat, tbl: nat)
    requires Reached(t, vpn, 0, tbl)
    ensures Key(vpn) in t.l0 && tbl == t.l0[Key(vpn)]
  {
  }

  lemma ReachedOwned(t: Tree, vpn: nat, level: int, tbl: nat)
    requires Reached(t, vpn, level, tbl)
    ensures tbl in Tables(t)
  {
  }

  lemma ValuesAdded<K>(m: map<K, nat>, k: K, p: nat)
    requires k !in m
    ensures m[k := p].Values == m.Values + {p}
  {
    assert forall j :: j in m ==> j in m[k := p] && m[k := p][j] == m[j];
    assert m[k := p][k] == p;
  }

  /** The tables map exactly m, by leaf entries. */
  ghost predicate Maps(mem: Memory, t: Tree, m: map<nat, Pte>) {
    && (forall v :: v in m ==> v < MAXPAGE && m[v].Leaf() && Entry(mem, t, v) == m[v])
    && (forall v: nat :: v < MAXPAGE && v !in m ==> Entry(mem, t, v) == NULL)
  }

  ghost predicate Link(mem: Memory, free: seq<nat>, i: nat)
    requires i < |free|
  {
    free[i] in mem && mem[free[i]] == Run(if i + 1 < |free| then free[i + 1] else 0)
  }

  lemma MapsSame(a: Memory, t: Tree, b: Memory, u: Tree, m: map<nat, Pte>)
    requires Maps(a, t, m) && SameEntries(a, t, b, u)
    ensures Maps(b, u, m)
  {
    forall v: nat ensures Entry(b, u, v) == Entry(a, t, v) {
    }
  }

  /** One entry written: the map changes at that page only. */
  lemma MapsSet(mem: Memory, t: Tree, m: map<nat, Pte>, vpn: nat, e: Pte)
    requires IsTree(mem, t) && Maps(mem, t, m) && vpn < MAXPAGE && Key(vpn) in t.l0 && (e.Leaf() || e == NULL)
    requires IsTable(mem, t.l0[Key(vpn)])
    ensures var mem' := mem[t.l0[Key(vpn)] := Table(mem[t.l0[Key(vpn)]].ptes[I0(vpn) := e])];
            Maps(mem', t, if e == NULL then m - {vpn} else m[vpn := e])
  {
    hide I2, I1, I0, IsTree;
    SetEntry(mem, t, vpn, e);
    hide Entry;
  }

  /** A mapped page has a level-0 table, and its entry is there. */
  lemma EntryMapped(mem: Memory, t: Tree, m: map<nat, Pte>, vpn: nat)
    requires IsTree(mem, t) && Maps(mem, t, m) && vpn in m
    ensures vpn < MAXPAGE && Key(vpn) in t.l0 && IsTable(mem, t.l0[Key(vpn)])
    ensures mem[t.l0[Key(vpn)]].ptes[I0(vpn)] == m[vpn]
  {
    assert Entry(mem, t, vpn) == m[vpn];
  }

  /** An address space does not notice changes to pages other than its tables. */
  lemma TreeFrame(a: Memory, b: Memory, t: Tree, m: map<nat, Pte>, X: set<nat>)
    requires IsTree(a, t) && Maps(a, t, m) && SameOutside(a, b, X) && X !! Tables(t)
    ensures IsTree(b, t) && Maps(b, t, m)
  {
    hide IsTree;
    TablesOwn(t);
    TablesInMemory(a, t);
    Untouched(a, b, t);
    MapsSame(a, t, b, t, m);
  }

  lemma TablesInMemory(a: Memory, t: Tree)
    requires IsTree(a, t)
    ensures Tables(t) <= a.Keys
  {
  }

  lemma LeafAt(mem: Memory, t: Tree, m: map<nat, Pte>, vpn: nat)
    requires Maps(mem, t, m) && vpn in m
    ensures m[vpn].f.v && (m[vpn].f.r || m[vpn].f.w || m[vpn].f.x) && vpn < MAXPAGE
  {
  }

  lemma LowOwned(t: Tree, vpn: nat)
    requires Key(vpn) in t.l0
    ensures t.l0[Key(vpn)] in Tables(t)
  {
  }

  /** kalloc's list: free[i] points at free[i + 1] and the last at nothing. */
  ghost predicate Chained(mem: Memory, head: nat, free: seq<nat>) {
    && head == (if free == [] then 0 else free[0])
    && (forall i :: 0 <= i < |free| ==> Link(mem, free, i))
    && (forall i, j :: 0 <= i < j < |free| ==> free[i] != free[j])
  }

  function Junk(n: int): (p: Page)
    ensures p.Frame? && |p.bytes| == PGSIZE
  {
    Frame(seq(PGSIZE, _ => n))
  }

  // ------------------------------------------------------------------
  // Ranges of pages

  /** m with pages lo, lo + 1, ... mapped to n consecutive frames. */
  function MapRange(m: map<nat, Pte>, lo: nat, n: nat, ppn: nat, perm: Flags): map<nat, Pte> {
    if n == 0 then m else MapRange(m, lo, n - 1, ppn, perm)[lo + n - 1 := Pte(ppn + n - 1, perm.(v := true))]
  }

  lemma {:induction false} MapRangeAt(m: map<nat, Pte>, lo: nat, n: nat, ppn: nat, perm: Flags)
    ensures var r := MapRange(m, lo, n, ppn, perm);
            && (forall v: nat :: v in r <==> v in m || lo <= v < lo + n)
            && (forall v: nat :: lo <= v < lo + n ==> r[v] == Pte(ppn + v - lo, perm.(v := true)))
            && (forall v: nat :: v in m && !(lo <= v < lo + n) ==> r[v] == m[v])
  {
    if n > 0 {
      MapRangeAt(m, lo, n - 1, ppn, perm);
    }
  }

  function Without(m: map<nat, Pte>, lo: nat, hi: nat): map<nat, Pte> {
    map v | v in m && !(lo <= v < hi) :: m[v]
  }

  /** The frames of pages lo up to hi. */
  ghost function Frames(m: map<nat, Pte>, lo: nat, hi: nat): set<nat> {
    set v | v in m && lo <= v < hi :: m[v].ppn
  }

  /** Pages lo up to hi are mapped, to different frames. */
  ghost predicate Different(m: map<nat, Pte>, lo: nat, hi: nat) {
    && (forall v :: lo <= v < hi ==> v in m)
    && (forall v, w :: lo <= v < w < hi ==> m[v].ppn != m[w].ppn)
  }

  lemma FramesSplit(m: map<nat, Pte>, lo: nat, hi: nat)
    requires lo < hi && Different(m, lo, hi)
    ensures Frames(m, lo, hi) == Frames(m, lo, hi - 1) + {m[hi - 1].ppn}
    ensures m[hi - 1].ppn !in Frames(m, lo, hi - 1)
  {
  }

  /** A page's frame is in the range's frames, and not among those of lower pages. */
  lemma FramesPick(m: map<nat, Pte>, lo: nat, a: nat, hi: nat)
    requires lo <= a < hi && Different(m, lo, hi)
    ensures m[a].ppn in Frames(m, lo, hi) && m[a].ppn !in Frames(m, lo, a)
    ensures Frames(m, lo, a) <= Frames(m, lo, hi) && Different(m, lo, a + 1)
  {
  }

  /** The frames uvmunmap frees. */
  ghost function Freed(m: map<nat, Pte>, lo: nat, hi: nat, doFree: bool): set<nat> {
    if doFree then Frames(m, lo, hi) else {}
  }

  lemma UnmapStart(m: map<nat, Pte>, lo: nat, doFree: bool)
    ensures Without(m, lo, lo) == m && Freed(m, lo, lo, doFree) == {}
  {
  }

  /** One more page unmapped. */
  lemma UnmapNext(m: map<nat, Pte>, lo: nat, a: nat, hi: nat, doFree: bool)
    requires lo <= a < hi && a in m && (doFree ==> Different(m, lo, hi))
    ensures a in Without(m, lo, a) && Without(m, lo, a)[a] == m[a] && Without(m, lo, a) - {a} == Without(m, lo, a + 1)
    ensures doFree ==> m[a].ppn in Freed(m, lo, hi, doFree) && m[a].ppn !in Freed(m, lo, a, doFree)
    ensures Freed(m, lo, a + 1, doFree) == Freed(m, lo, a, doFree) + if doFree then {m[a].ppn} else {}
  {
    if doFree {
      FramesPick(m, lo, a, hi);
      FramesSplit(m, lo, a + 1);
    }
  }

  /** PGROUNDUP(sz) / PGSIZE. */
  function PageCount(sz: nat): nat {
    (sz + PGSIZE - 1) / PGSIZE
  }

  /** The same x for every page from lo up to hi. */
  function Repeat<T>(lo: nat, hi: nat, x: T): (r: map<nat, T>)
    ensures forall v: nat :: v in r <==> lo <= v < hi
    ensures forall v: nat :: v in r ==> r[v] == x
  {
    if hi <= lo then map[] else Repeat(lo, hi - 1, x)[hi - 1 := x]
  }

  /** r is m with pages lo up to hi added. */
  ghost predicate Extends(m: map<nat, Pte>, r: map<nat, Pte>, lo: nat, hi: nat) {
    && (forall v: nat :: v in r <==> v in m || lo <= v < hi)
    && (forall v: nat :: v in m && !(lo <= v < hi) ==> r[v] == m[v])
  }

  /** Pages lo up to hi have the permissions that f gives. */
  ghost predicate Permits(r: map<nat, Pte>, lo: nat, hi: nat, f: map<nat, Flags>) {
    forall v: nat :: lo <= v < hi && v in r ==> v in f && r[v].f == f[v].(v := true)
  }

  lemma FramesAdd(r: map<nat, Pte>, lo: nat, a: nat, e: Pte)
    requires lo <= a && Different(r, lo, a) && e.ppn !in Frames(r, lo, a)
    ensures Different(r[a := e], lo, a + 1) && Frames(r[a := e], lo, a + 1) == Frames(r, lo, a) + {e.ppn}
  {
    hide Frames;
    var r' := r[a := e];
    FramesIn(r, lo, a);
    FramesSplit(r', lo, a + 1);
    FramesSame(r, r', lo, a);
  }

  lemma FramesSame(r: map<nat, Pte>, r': map<nat, Pte>, lo: nat, hi: nat)
    requires forall v :: lo <= v < hi ==> (v in r <==> v in r') && (v in r ==> r[v] == r'[v])
    ensures Frames(r, lo, hi) == Frames(r', lo, hi)
  {
  }

  lemma ExtendsNext(m: map<nat, Pte>, r: map<nat, Pte>, lo: nat, a: nat, f: map<nat, Flags>, p: nat)
    requires lo <= a && Extends(m, r, lo, a) && Different(r, lo, a) && p !in Frames(r, lo, a) && a !in m
    requires a in f && Permits(r, lo, a, f)
    ensures var r' := r[a := Pte(p, f[a].(v := true))];
            && Extends(m, r', lo, a + 1) && Different(r', lo, a + 1) && Permits(r', lo, a + 1, f)
            && Frames(r', lo, a + 1) == Frames(r, lo, a) + {p}
  {
    hide Different, Frames;
    FramesAdd(r, lo, a, Pte(p, f[a].(v := true)));
  }

  lemma ExtendsStart(m: map<nat, Pte>, lo: nat, f: map<nat, Flags>)
    ensures Extends(m, m, lo, lo) && Different(m, lo, lo) && Frames(m, lo, lo) == {} && Permits(m, lo, lo, f)
  {
  }

  lemma FilledNone(mem: Memory, m: map<nat, Pte>, lo: nat, x: map<nat, Page>)
    ensures Filled(mem, m, lo, lo, x)
  {
  }

  lemma ExtendsFresh(m: map<nat, Pte>, r: map<nat, Pte>, lo: nat, a: nat)
    requires Extends(m, r, lo, a) && a !in m
    ensures a !in r
  {
  }

  lemma FramesIn(m: map<nat, Pte>, lo: nat, hi: nat)
    ensures forall v :: lo <= v < hi && v in m ==> m[v].ppn in Frames(m, lo, hi)
  {
  }

  lemma ExtendsUndone(m: map<nat, Pte>, r: map<nat, Pte>, lo: nat, a: nat)
    requires Extends(m, r, lo, a) && forall v :: lo <= v < a ==> v !in m
    ensures Without(r, lo, a) == m
  {
  }

  /** The frame of every page of the range holds what x says. */
  ghost predicate Filled(mem: Memory, m: map<nat, Pte>, lo: nat, hi: nat, x: map<nat, Page>) {
    forall v :: lo <= v < hi && v in m ==> v in x && m[v].ppn in mem && mem[m[v].ppn] == x[v]
  }

  lemma FilledSame(a: Memory, b: Memory, m: map<nat, Pte>, lo: nat, hi: nat, x: map<nat, Page>, S: set<nat>)
    requires Filled(a, m, lo, hi, x) && SameOutside(a, b, S) && Frames(m, lo, hi) !! S
    ensures Filled(b, m, lo, hi, x)
  {
    FramesIn(m, lo, hi);
  }

  lemma DifferentMapped(m: map<nat, Pte>, lo: nat, hi: nat)
    requires Different(m, lo, hi)
    ensures forall v :: lo <= v < hi ==> v in m
  {
  }

  lemma FilledNext(a: Memory, b: Memory, m: map<nat, Pte>, lo: nat, hi: nat, x: map<nat, Page>, e: Pte, S: set<nat>)
    requires Filled(a, m, lo, hi, x) && SameOutside(a, b, S) && Frames(m, lo, hi) !! S
    requires hi in x && e.ppn in b && b[e.ppn] == x[hi]
    ensures Filled(b, m[hi := e], lo, hi + 1, x)
  {
    FramesIn(m, lo, hi);
  }

  /** The permissions of every page of m. */
  ghost function FlagsOf(m: map<nat, Pte>): map<nat, Flags> {
    map v | v in m :: m[v].f
  }

  /** The contents of every page of m. */
  ghost function PagesOf(mem: Memory, m: map<nat, Pte>): map<nat, Page> {
    map v | v in m && m[v].ppn in mem :: mem[m[v].ppn]
  }

  const TRAMPOLINE: nat := MAXPAGE - 1
  const TRAPFRAME: nat := MAXPAGE - 2

  /** A process of n user pages: those, and the trampoline and trap frame above them. */
  ghost predicate Process(m: map<nat, Pte>, n: nat) {
    && n <= TRAPFRAME
    && forall v: nat :: v in m <==> v < n || v == TRAMPOLINE || v == TRAPFRAME
  }

  /**
   The two pages above user memory: trampoline code, which is not writable, and the trap
   frame; neither is the user's.
   */
  ghost predicate Topped(m: map<nat, Pte>, trampoline: nat, tf: nat) {
    && TRAMPOLINE in m && m[TRAMPOLINE] == Pte(trampoline, Flags(true, true, false, true, false))
    && TRAPFRAME in m && m[TRAPFRAME] == Pte(tf, Flags(true, true, true, false, false))
  }

  /** Both are as they were. */
  ghost predicate SameTop(m: map<nat, Pte>, r: map<nat, Pte>) {
    && TRAMPOLINE in m && TRAMPOLINE in r && r[TRAMPOLINE] == m[TRAMPOLINE]
    && TRAPFRAME in m && TRAPFRAME in r && r[TRAPFRAME] == m[TRAPFRAME]
  }

  /** A page of zeros that the user can read and write and not execute. */
  ghost predicate Blank(mem: Memory, e: Pte) {
    && e.f == Flags(true, true, true, false, true) && e.ppn in mem && mem[e.ppn].Frame?
    && |mem[e.ppn].bytes| == PGSIZE && forall i :: 0 <= i < PGSIZE ==> mem[e.ppn].bytes[i] == 0
  }

  ghost predicate Blanks(mem: Memory, m: map<nat, Pte>, lo: nat, hi: nat) {
    forall v :: lo <= v < hi ==> v in m && Blank(mem, m[v])
  }

  lemma NoBlanks(mem: Memory, m: map<nat, Pte>, sz: nat, sz': nat)
    requires sz' <= sz
    ensures Blanks(mem, m, PageCount(sz), PageCount(sz'))
  {
  }

  lemma FramesWithout(m: map<nat, Pte>, lo: nat, hi: nat, a: nat, b: nat)
    requires hi <= a <= b
    ensures Frames(Without(m, a, b), lo, hi) == Frames(m, lo, hi)
    ensures Different(m, lo, hi) ==> Different(Without(m, a, b), lo, hi)
  {
    forall q | q in Frames(m, lo, hi) ensures q in Frames(Without(m, a, b), lo, hi) {
      var v :| v in m && lo <= v < hi && m[v].ppn == q;
      assert v in Without(m, a, b) && Without(m, a, b)[v] == m[v];
    }
  }

  /** A process of sz bytes: its tables and its user frames, all different pages. */
  ghost predicate OwnedIn(mem: Memory, s: Space, sz: nat) {
    var n := PageCount(sz);
    && IsTree(mem, s.t) && Maps(mem, s.t, s.m) && Process(s.m, n)
    && Different(s.m, 0, n) && Frames(s.m, 0, n) !! Tables(s.t)
    && forall v :: 0 <= v < n ==> s.m[v].ppn in mem && mem[s.m[v].ppn].Frame?
  }

  /** Everything a process holds. */
  ghost function Holding(s: Space, sz: nat): set<nat> {
    Tables(s.t) + Frames(s.m, 0, PageCount(sz))
  }

  /** Changes elsewhere do not affect a process. */
  lemma OwnedFrame(a: Memory, b: Memory, s: Space, sz: nat, X: set<nat>)
    requires OwnedIn(a, s, sz) && SameOutside(a, b, X) && X !! Holding(s, sz)
    ensures OwnedIn(b, s, sz)
    ensures forall v :: 0 <= v < PageCount(sz) ==> s.m[v].ppn in a && s.m[v].ppn in b && b[s.m[v].ppn] == a[s.m[v].ppn]
  {
    hide IsTree, Maps, Tables, Different;
    TreeFrame(a, b, s.t, s.m, X);
    FramesIn(s.m, 0, PageCount(sz));
  }

  /** The first n pages of s and d have the same permissions and contents. */
  ghost predicate SamePages(mem: Memory, s: Space, d: Space, n: nat) {
    forall v :: 0 <= v < n ==>
      && v in s.m && v in d.m && d.m[v].f == s.m[v].f
      && s.m[v].ppn in mem && d.m[v].ppn in mem && mem[d.m[v].ppn] == mem[s.m[v].ppn]
  }

  /** A process's memory: its address space, its size and its trap frame. */
  datatype Proc = Proc(s: Space, sz: nat, tf: nat)

  ghost function Pages(q: Proc): set<nat> {
    Holding(q.s, q.sz) + {q.tf}
  }

  ghost predicate Sound(mem: Memory, q: Proc) {
    OwnedIn(mem, q.s, q.sz) && q.tf in mem && q.tf !in Holding(q.s, q.sz)
  }

  /** Every page of `all` is free or belongs to exactly one process. */
  ghost predicate SystemIn(mem: Memory, free: set<nat>, ps: map<nat, Proc>, all: set<nat>) {
    && free <= all
    && (forall k :: k in ps ==> ps[k].s.t.root == k && Sound(mem, ps[k]) && Pages(ps[k]) <= all && Pages(ps[k]) !! free)
    && (forall j, k :: j in ps && k in ps && j != k ==> Pages(ps[j]) !! Pages(ps[k]))
    && (forall p :: p in all ==> p in free || exists k :: k in ps && p in Pages(ps[k]))
  }

  /** What process k holds before it changes. */
  ghost function Held(ps: map<nat, Proc>, k: nat): set<nat> {
    if k in ps then Pages(ps[k]) else {}
  }

  lemma SoundFrame(a: Memory, b: Memory, q: Proc, X: set<nat>)
    requires Sound(a, q) && SameOutside(a, b, X) && X !! Pages(q)
    ensures Sound(b, q)
  {
    hide OwnedIn, Holding;
    OwnedFrame(a, b, q.s, q.sz, X);
  }

  /** A step of process k, which may be new, that trades its pages with the free ones. */
  lemma Replaced(a: Memory, free: set<nat>, b: Memory, free': set<nat>, ps: map<nat, Proc>, all: set<nat>, k: nat,
      q: Proc)
    requires SystemIn(a, free, ps, all) && SameOutside(a, b, free + Held(ps, k))
    requires q.s.t.root == k && Sound(b, q) && Pages(q) !! free' && Pages(q) + free' == Held(ps, k) + free
    ensures SystemIn(b, free', ps[k := q], all)
  {
    hide Sound, Pages;
    forall j | j in ps && j != k ensures Sound(b, ps[j]) {
      SoundFrame(a, b, ps[j], free + Held(ps, k));
    }
    var ps' := ps[k := q];
    forall p | p in all && p !in free' ensures exists j :: j in ps' && p in Pages(ps'[j]) {
      if p in Pages(q) {
        assert k in ps' && p in Pages(ps'[k]);
      } else {
        var j :| j in ps && p in Pages(ps[j]);
        assert j in ps' && p in Pages(ps'[j]);
      }
    }
  }

  /** A failed step only used free pages. */
  lemma Idle(a: Memory, b: Memory, free: set<nat>, ps: map<nat, Proc>, all: set<nat>)
    requires SystemIn(a, free, ps, all) && SameOutside(a, b, free)
    ensures SystemIn(b, free, ps, all)
  {
    hide Sound, Pages;
    forall k | k in ps ensures Sound(b, ps[k]) {
      SoundFrame(a, b, ps[k], free);
    }
  }

  lemma HoldsTables(s: Space, sz: nat)
    ensures Tables(s.t) <= Holding(s, sz)
  {
  }

  /** A page table made of free pages is nobody's. */
  lemma NewRoot(mem: Memory, free: set<nat>, ps: map<nat, Proc>, all: set<nat>, t: Tree)
    requires SystemIn(mem, free, ps, all) && Tables(t) <= free
    ensures t.root !in ps
  {
    hide Sound;
    assert t.root in Tables(t);
    assert t.root in ps ==> t.root in Pages(ps[t.root]);
  }

  lemma SystemStart(mem: Memory, free: set<nat>)
    ensures SystemIn(mem, free, map[], free)
  {
  }

  /** With no process left, every page is free. */
  lemma SystemEnd(mem: Memory, free: set<nat>, ps: map<nat, Proc>, all: set<nat>)
    requires SystemIn(mem, free, ps, all) && ps.Keys == {}
    ensures free == all
  {
  }

  /** The calls that change memory, each on behalf of the process whose page table is k. */
  datatype Op = Spawn(trampoline: nat) | Grow(k: nat, n: int) | Copy(k: nat, trampoline: nat) | End(k: nat)

  /** The call is made by an existing process, and growproc's argument is an int. */
  predicate Allowed(op: Op, procs: map<nat, (nat, nat)>) {
    match op
    case Spawn(_) => true
    case Grow(k, n) => k in procs && -0x8000_0000 <= n < 0x8000_0000
    case Copy(k, _) => k in procs
    case End(k) => k in procs
  }

  /** procs holds the size and trap frame of every process. */
  ghost predicate Tracks(procs: map<nat, (nat, nat)>, ps: map<nat, Proc>) {
    procs.Keys == ps.Keys && forall k :: k in ps ==> procs[k] == (ps[k].sz, ps[k].tf)
  }

  // ------------------------------------------------------------------
  // Calls, as steps

  /** Memory, the free pages and the processes. */
  datatype Snap = Snap(mem: Memory, free: set<nat>, ps: map<nat, Proc>)

  /** Nothing has changed but what free pages hold. */
  ghost predicate Stays(a: Snap, b: Snap) {
    b.ps == a.ps && b.free == a.free && SameOutside(a.mem, b.mem, a.free)
  }

  /** One process more, made of free pages; the others keep theirs and what is in them. */
  ghost predicate Joins(a: Snap, b: Snap, k: nat) {
    && k !in a.ps && k in b.ps && b.ps == a.ps[k := b.ps[k]] && SameOutside(a.mem, b.mem, a.free)
    && b.free + Pages(b.ps[k]) == a.free
  }

  lemma JoinsIs(a: Snap, b: Snap, k: nat, q: Proc)
    requires k !in a.ps && b.ps == a.ps[k := q] && SameOutside(a.mem, b.mem, a.free) && b.free + Pages(q) == a.free
    ensures Joins(a, b, k)
  {
    hide Pages;
  }

  lemma TracksAdd(procs: map<nat, (nat, nat)>, ps: map<nat, Proc>, k: nat, q: Proc)
    requires Tracks(procs, ps)
    ensures Tracks(procs[k := (q.sz, q.tf)], ps[k := q])
  {
  }

  /** The size growproc(n) gives a process. */
  ghost function Resized(q: Proc, n: int, free: nat): nat {
    if q.sz + n < 0 then q.sz
    else if n > 0 && !(q.sz + n <= TRAPFRAME * PGSIZE
      && free >= Cost(q.s.t, PageCount(q.sz), PageCount(q.sz + n))) then q.sz
    else q.sz + n
  }

  /**
   Process k grows by pages of zeros or shrinks, and keeps what is below the smaller size and
   the pages above user memory; the others keep everything.
   */
  ghost predicate Grows(a: Snap, b: Snap, k: nat, n: int) {
    && k in a.ps && k in b.ps && b.ps == a.ps[k := b.ps[k]]
    && (var q, r := a.ps[k], b.ps[k];
        && r.tf == q.tf && r.sz == Resized(q, n, |a.free|) && r.s.t.root == q.s.t.root
        && Kept(a.mem, q.s, b.mem, r.s, PageCount(if r.sz < q.sz then r.sz else q.sz))
        && SameTop(q.s.m, r.s.m) && Blanks(b.mem, r.s.m, PageCount(q.sz), PageCount(r.sz))
        && b.free + Holding(r.s, r.sz) == a.free + Holding(q.s, q.sz)
        && SameOutside(a.mem, b.mem, a.free + Holding(q.s, q.sz)))
  }

  /** A new process without user memory. */
  ghost predicate Spawns(a: Snap, b: Snap, trampoline: nat) {
    exists k :: Joins(a, b, k) && b.ps[k].sz == 0 && Topped(b.ps[k].s.m, trampoline, b.ps[k].tf)
  }

  /** A new process with the same pages as process k. */
  ghost predicate Copies(a: Snap, b: Snap, k: nat, trampoline: nat) {
    && k in a.ps
    && exists c ::
         && Joins(a, b, c) && b.ps[c].sz == a.ps[k].sz && Topped(b.ps[c].s.m, trampoline, b.ps[c].tf)
         && SamePages(b.mem, a.ps[k].s, b.ps[c].s, PageCount(a.ps[k].sz))
  }

  ghost predicate Ends(a: Snap, b: Snap, k: nat) {
    k in a.ps && b.ps == a.ps - {k} && b.free == a.free + Pages(a.ps[k]) && SameOutside(a.mem, b.mem, Pages(a.ps[k]))
  }

  /** What a call does: whether it succeeds is decided by the number of free pages. */
  ghost predicate OpStep(a: Snap, op: Op, b: Snap) {
    match op
    case Spawn(trampoline) => if |a.free| >= 4 then Spawns(a, b, trampoline) else Stays(a, b)
    case Grow(k, n) => if k in a.ps && -0x8000_0000 <= n < 0x8000_0000 then Grows(a, b, k, n) else Stays(a, b)
    case Copy(k, trampoline) =>
      if k in a.ps && |a.free| >= ForkCost(PageCount(a.ps[k].sz)) then Copies(a, b, k, trampoline) else Stays(a, b)
    case End(k) => if k in a.ps then Ends(a, b, k) else Stays(a, b)
  }

  /** A run: the states the calls make, in each of which every page is free or belongs to one process. */
  ghost predicate IsRun(ss: seq<Snap>, ops: seq<Op>, all: set<nat>) {
    && |ss| == |ops| + 1
    && (forall i :: 0 <= i < |ops| ==> OpStep(ss[i], ops[i], ss[i + 1]))
    && forall i :: 0 <= i < |ss| ==> SystemIn(ss[i].mem, ss[i].free, ss[i].ps, all)
  }

  lemma RunOne(a: Snap, all: set<nat>)
    requires SystemIn(a.mem, a.free, a.ps, all)
    ensures IsRun([a], [], all)
  {
  }

  lemma RunMore(ss: seq<Snap>, ops: seq<Op>, all: set<nat>, op: Op, b: Snap)
    requires IsRun(ss, ops, all) && OpStep(ss[|ops|], op, b) && SystemIn(b.mem, b.free, b.ps, all)
    ensures IsRun(ss + [b], ops + [op], all)
  {
    hide OpStep, SystemIn;
  }

  lemma {:induction false} FramesSize(m: map<nat, Pte>, hi: nat)
    requires Different(m, 0, hi)
    ensures |Frames(m, 0, hi)| == hi
    decreases hi
  {
    if hi > 0 {
      FramesSplit(m, 0, hi);
      FramesSize(m, hi - 1);
    } else {
      assert Frames(m, 0, hi) == {};
    }
  }

  /** A machine with at most as many pages as lie below the trap frame cannot grow a process into it. */
  lemma OutOfReach(mem: Memory, free: set<nat>, ps: map<nat, Proc>, all: set<nat>, k: nat)
    requires SystemIn(mem, free, ps, all) && k in ps && |all| <= TRAPFRAME
    ensures |free| <= Cost(ps[k].s.t, PageCount(ps[k].sz), TRAPFRAME)
  {
    hide Sound, Pages, Frames, Different, Places, Paths, PageCount;
    var q := ps[k];
    var n := PageCount(q.sz);
    SoundFrames(mem, q);
    FramesSize(q.s.m, n);
    Sets.SubsetSize(free + Frames(q.s.m, 0, n), all);
    assert |free + Frames(q.s.m, 0, n)| == |free| + n;
  }

  lemma SoundFrames(mem: Memory, q: Proc)
    requires Sound(mem, q)
    ensures PageCount(q.sz) <= TRAPFRAME && Different(q.s.m, 0, PageCount(q.sz))
            && Frames(q.s.m, 0, PageCount(q.sz)) <= Pages(q)
  {
    hide IsTree, Maps, Tables, PageCount;
  }

  /** The end of process k. */
  lemma Removed(a: Memory, free: set<nat>, b: Memory, ps: map<nat, Proc>, all: set<nat>, k: nat)
    requires SystemIn(a, free, ps, all) && k in ps && SameOutside(a, b, Pages(ps[k]))
    ensures SystemIn(b, free + Pages(ps[k]), ps - {k}, all)
  {
    hide Sound, Pages;
    forall j | j in ps && j != k ensures Sound(b, ps[j]) {
      SoundFrame(a, b, ps[j], Pages(ps[k]));
    }
    var ps' := ps - {k};
    forall p | p in all && p !in free + Pages(ps[k]) ensures exists j :: j in ps' && p in Pages(ps'[j]) {
      var j :| j in ps && p in Pages(ps[j]);
      assert j in ps' && p in Pages(ps'[j]);
    }
  }

  /** Growing a range of pages upwards. */
  lemma FramesJoin(m: map<nat, Pte>, r: map<nat, Pte>, lo: nat, hi: nat)
    requires lo <= hi && Extends(m, r, lo, hi) && Different(m, 0, lo) && Different(r, lo, hi)
    requires Frames(m, 0, lo) !! Frames(r, lo, hi)
    ensures Different(r, 0, hi) && Frames(r, 0, hi) == Frames(m, 0, lo) + Frames(r, lo, hi)
  {
    FramesIn(m, 0, lo);
    FramesIn(r, lo, hi);
    forall q | q in Frames(m, 0, lo) ensures q in Frames(r, 0, hi) {
      var v :| v in m && 0 <= v < lo && m[v].ppn == q;
      assert v in r && r[v].ppn == q;
    }
    forall q | q in Frames(r, 0, hi) ensures q in Frames(m, 0, lo) + Frames(r, lo, hi) {
      var v :| v in r && 0 <= v < hi && r[v].ppn == q;
      if v < lo {
        assert v in m && m[v].ppn == q;
      }
    }
  }

  /** Shrinking it again. */
  lemma FramesCut(m: map<nat, Pte>, lo: nat, hi: nat)
    requires lo <= hi && Different(m, 0, hi)
    ensures var r := Without(m, lo, hi);
            && Different(r, 0, lo) && Different(m, lo, hi) && Frames(r, 0, lo) !! Frames(m, lo, hi)
            && Frames(m, 0, hi) == Frames(r, 0, lo) + Frames(m, lo, hi)
  {
    var r := Without(m, lo, hi);
    assert Extends(r, m, lo, hi);
    assert Different(r, 0, lo) && Different(m, lo, hi);
    FramesJoin(r, m, lo, hi);
  }

  /** Bytes added to sz as a uint64. */
  function Moved(sz: nat, n: int): nat
    requires sz <= TRAPFRAME * PGSIZE && -0x8000_0000 <= n < 0x8000_0000
  {
    if sz + n < 0 then sz + n + 0x1_0000_0000_0000_0000 else sz + n
  }

  /** Pages below n are the same page in both spaces, with the same contents. */
  ghost predicate Kept(a: Memory, s: Space, b: Memory, s': Space, n: nat) {
    forall v :: 0 <= v < n ==>
      v in s.m && v in s'.m && s'.m[v] == s.m[v] && s.m[v].ppn in a && s.m[v].ppn in b && b[s.m[v].ppn] == a[s.m[v].ppn]
  }

  class Machine {
    var mem: Memory
    var freelist: nat
    ghost var free: seq<nat>

    ghost predicate Valid()
      reads this
    {
      0 !in mem && Chained(mem, freelist, free)
    }

    ghost function Free(): set<nat>
      reads this
    {
      set p | p in free
    }

    /** kinit and freerange: every page from lo up to hi is free. */
    constructor (lo: nat, hi: nat)
      requires 0 < lo <= hi
      ensures Valid() && (forall p: nat :: p in Free() <==> lo <= p < hi)
              && (forall p: nat :: p in mem <==> lo <= p < hi)
    {
      mem := Repeat(lo, hi, Junk(1));
      freelist := 0;
      free := [];
      new;
      for p := lo to hi
        invariant Valid() && (forall q: nat :: q in Free() <==> lo <= q < p)
                  && (forall q: nat :: q in mem <==> lo <= q < hi)
      {
        Kfree(p);
      }
    }

    /** kalloc: 0 exactly when nothing is free. */
    method Kalloc() returns (p: nat)
      requires Valid()
      modifies this
      ensures Valid()
      ensures p == 0 <==> old(free) == []
      ensures p == 0 ==> mem == old(mem) && free == old(free)
      ensures p != 0 ==>
              p in old(mem) && p in old(Free()) && Free() == old(Free()) - {p} && mem == old(mem)[p := Junk(5)]
      ensures p != 0 ==> |free| == |old(free)| - 1
    {
      p := freelist;
      assert free != [] ==> Link(mem, free, 0);
      if p != 0 {
        freelist := mem[p].next;
        mem := mem[p := Junk(5)];
        free := free[1..];
        assert old(free) == [p] + free;
        forall i | 0 <= i < |free| ensures Link(mem, free, i) {
          assert Link(old(mem), old(free), i + 1);
        }
      }
    }

    /** kfree: the page goes to the front of the list. */
    method Kfree(p: nat)
      requires Valid() && p in mem && p !in Free()
      modifies this
      ensures Valid() && Free() == old(Free()) + {p} && |free| == |old(free)| + 1
      ensures mem.Keys == old(mem).Keys && forall q :: q in mem && q != p ==> mem[q] == old(mem)[q]
    {
      mem := mem[p := Run(freelist)];
      freelist := p;
      free := [p] + free;
      forall i | 0 <= i < |free| ensures Link(mem, free, i) {
        assert i > 0 ==> Link(old(mem), old(free), i - 1);
      }
    }

    // ----------------------------------------------------------------
    // walk

    /** kalloc and memset(0), as walk and uvmcreate use them. */
    method NewTable() returns (p: nat)
      requires Valid()
      modifies this
      ensures Valid()
      ensures p == 0 <==> old(free) == []
      ensures p == 0 ==> mem == old(mem) && free == old(free)
      ensures p != 0 ==>
              p in old(mem) && p in old(Free()) && Free() == old(Free()) - {p} && mem == old(mem)[p := Zeros()]
      ensures p != 0 ==> |free| == |old(free)| - 1
    {
      hide Chained;
      p := Kalloc();
      if p != 0 {
        SetPage(p, Zeros());
      }
    }

    /** A page that is not on the free list may hold anything. */
    method SetPage(p: nat, x: Page)
      requires Valid() && p in mem && p !in Free()
      modifies this`mem
      ensures Valid() && mem == old(mem)[p := x]
    {
      mem := mem[p := x];
      forall i | 0 <= i < |free| ensures Link(mem, free, i) {
        assert Link(old(mem), free, i);
        assert free[i] in Free();
      }
    }

    /** What every operation on the tables t keeps: they are a tree, none of them free. */
    ghost predicate Holds(t: Tree)
      reads this
    {
      Valid() && IsTree(mem, t) && Free() !! Tables(t)
    }

    /** walk's allocation of a missing table. */
    method Grow(tbl: nat, vpn: nat, level: int, ghost t: Tree) returns (p: nat, ghost t': Tree)
      requires Holds(t) && 0 < level <= 2 && Reached(t, vpn, level, tbl) && IsTable(mem, tbl)
      requires !mem[tbl].ptes[Px(level, vpn)].f.v && vpn < MAXPAGE
      modifies this
      ensures Holds(t') && t'.root == t.root && SameEntries(old(mem), t, mem, t')
      ensures Free() + Tables(t') == old(Free()) + Tables(t)
      ensures SameOutside(old(mem), mem, old(Free()) + Tables(t))
      ensures p == 0 ==> free == [] && free == old(free) && t' == t
      ensures p != 0 ==> Reached(t', vpn, level - 1, p) && |free| == |old(free)| - 1
      ensures p != 0 ==> t' == Grown(t, vpn, level, p)
    {
      hide I2, I1, I0, IsTree, Chained, Reached, Entry;
      t' := t;
      ReachedOwned(t, vpn, level, tbl);
      p := NewTable();
      if p != 0 {
        GrowTree(old(mem), t, vpn, level, tbl, p);
        SetPage(tbl, Table(mem[tbl].ptes[Px(level, vpn) := Dir(p)]));
        t' := Grown(t, vpn, level, p);
      }
    }

    /**
     walk: the table with the leaf entry for vpn, or 0.  With alloc, missing tables are
     added, which changes no entry, and 0 means that memory ran out.
     */
    method Walk(root: nat, vpn: nat, alloc: bool, ghost t: Tree) returns (tbl: nat, ghost t': Tree)
      requires Holds(t) && root == t.root && vpn < MAXPAGE
      modifies this
      ensures Holds(t') && t'.root == root && SameEntries(old(mem), t, mem, t')
      ensures Free() + Tables(t') == old(Free()) + Tables(t)
      ensures SameOutside(old(mem), mem, old(Free()) + Tables(t))
      ensures tbl != 0 ==> Key(vpn) in t'.l0 && tbl == t'.l0[Key(vpn)]
      ensures tbl == 0 ==> if alloc then free == [] else Key(vpn) !in t.l0
      ensures !alloc ==> t' == t && mem == old(mem) && free == old(free)
      ensures |free| + |Places(t')| == |old(free)| + |Places(t)| && Places(t) <= Places(t') <= Places(t) + Needs(vpn)
      ensures alloc ==> if tbl != 0 then Needs(vpn) <= Places(t') else Low(Key(vpn)) !in Places(t')
    {
      hide I2, I1, I0, IsTree, Chained, Reached, Entry, Tables, Places, Needs, Grown;
      tbl, t' := root, t;
      var level := 2;
      assert Reached(t', vpn, level, tbl) by {
        ReachedRoot(t', vpn);
      }
      while level > 0
        invariant 0 <= level <= 2 && Holds(t') && t'.root == root
        invariant Reached(t', vpn, level, tbl)
        invariant SameEntries(old(mem), t, mem, t')
        invariant Free() + Tables(t') == old(Free()) + Tables(t)
        invariant SameOutside(old(mem), mem, old(Free()) + Tables(t))
        invariant !alloc ==> t' == t && mem == old(mem) && free == old(free)
        invariant |free| + |Places(t')| == |old(free)| + |Places(t)|
                  && Places(t) <= Places(t') <= Places(t) + Needs(vpn)
      {
        Descend(mem, t', vpn, level, tbl);
        var pte := mem[tbl].ptes[Px(level, vpn)];
        if pte.f.v {
          tbl := pte.ppn;
        } else {
          if !alloc {
            tbl := 0;
            return;
          }
          ghost var u := t';
          tbl, t' := Grow(tbl, vpn, level, t');
          if tbl == 0 {
            PlacesLack(t', vpn);
            return;
          }
          PlacesGrown(u, vpn, level, tbl);
        }
        level := level - 1;
      }
      ReachedLeaf(t', vpn, tbl);
      LowTables(mem, t');
      PlacesHave(mem, t', vpn);
    }

    // ----------------------------------------------------------------
    // Mapping and unmapping

    /** s describes an address space in this memory. */
    ghost predicate Is(s: Space)
      reads this
    {
      Holds(s.t) && Maps(mem, s.t, s.m)
    }

    /** A page that belongs to no table of s may change. */
    method SetFrame(p: nat, x: Page, ghost s: Space)
      requires Is(s) && p in mem && p !in Free() && p !in Tables(s.t)
      modifies this`mem
      ensures Is(s) && mem == old(mem)[p := x] && Free() == old(Free())
    {
      hide IsTree, Chained, Tables, Maps;
      SetPage(p, x);
      TreeFrame(old(mem), mem, s.t, s.m, {p});
    }

    /** An operation turned s into s' using only free pages and the pages of X. */
    twostate predicate Step(s: Space, s': Space, X: set<nat>)
      reads this
    {
      && Is(s') && s'.t.root == s.t.root
      && SameOutside(old(mem), mem, old(Free()) + Tables(s.t) + X)
    }

    /** One round of mappages. */
    method MapPage(root: nat, vpn: nat, ppn: nat, perm: Flags, ghost s: Space) returns (ok: bool, ghost s': Space)
      requires Is(s) && root == s.t.root && vpn < MAXPAGE && vpn !in s.m && (perm.r || perm.w || perm.x)
      modifies this
      ensures Step(s, s', {})
      ensures Free() + Tables(s'.t) == old(Free()) + Tables(s.t)
      ensures s'.m == if ok then s.m[vpn := Pte(ppn, perm.(v := true))] else s.m
      ensures !ok ==> free == []
      ensures Charged(s.t, s'.t, vpn, ok, |old(free)|, |free|)
    {
      hide I2, I1, I0, IsTree, Chained, Entry, Tables, Places, Needs;
      var tbl;
      ghost var t';
      tbl, t' := Walk(root, vpn, true, s.t);
      MapsSame(old(mem), s.t, mem, t', s.m);
      s' := s.(t := t');
      ok := tbl != 0;
      if ok {
        SetEntry(mem, t', vpn, Pte(ppn, perm.(v := true)));
        MapsSet(mem, t', s.m, vpn, Pte(ppn, perm.(v := true)));
        LowOwned(t', vpn);
        SetPage(tbl, Table(mem[tbl].ptes[I0(vpn) := Pte(ppn, perm.(v := true))]));
        s' := Space(t', s.m[vpn := Pte(ppn, perm.(v := true))]);
      }
    }

    /**
     mappages.  Success maps exactly the pages that [va, va + size) touches, to consecutive
     frames; failure means that memory ran out and leaves the first `done` of them mapped.
     */
    method Mappages(root: nat, va: nat, size: nat, pa: nat, perm: Flags, ghost s: Space)
      returns (ok: bool, ghost s': Space, ghost done: nat)
      requires Is(s) && root == s.t.root && (perm.r || perm.w || perm.x)
      requires size > 0 && va + size <= MAXPAGE * PGSIZE
      requires forall v :: va / PGSIZE <= v <= (va + size - 1) / PGSIZE ==> v !in s.m
      modifies this
      ensures Step(s, s', {})
      ensures Free() + Tables(s'.t) == old(Free()) + Tables(s.t)
      ensures s'.m == MapRange(s.m, va / PGSIZE, done, pa / PGSIZE, perm)
      ensures if ok then done == (va + size - 1) / PGSIZE - va / PGSIZE + 1
              else free == [] && done <= (va + size - 1) / PGSIZE - va / PGSIZE
    {
      hide IsTree, Chained, Tables, Maps, Charged;
      var a, last, frame := va / PGSIZE, (va + size - 1) / PGSIZE, pa / PGSIZE;
      ghost var lo, ppn := a, frame;
      s', done := s, 0;
      while true
        invariant a == lo + done && frame == ppn + done && a <= last < MAXPAGE
        invariant Step(s, s', {})
        invariant Free() + Tables(s'.t) == old(Free()) + Tables(s.t)
        invariant s'.m == MapRange(s.m, lo, done, ppn, perm)
        decreases last - a
      {
        MapRangeAt(s.m, lo, done, ppn, perm);
        ok, s' := MapPage(root, a, frame, perm, s');
        if !ok {
          return;
        }
        done := done + 1;
        if a == last {
          break;
        }
        a := a + 1;
        frame := frame + 1;
      }
    }

    // ----------------------------------------------------------------
    // Unmapping

    /** The frames of pages lo up to hi belong to s alone. */
    ghost predicate Private(s: Space, lo: nat, hi: nat)
      reads this
    {
      && Different(s.m, lo, hi)
      && Frames(s.m, lo, hi) <= mem.Keys
      && Frames(s.m, lo, hi) !! Free() && Frames(s.m, lo, hi) !! Tables(s.t)
    }

    /** One round of uvmunmap. */
    method UnmapPage(root: nat, vpn: nat, doFree: bool, ghost s: Space) returns (ghost s': Space)
      requires Is(s) && root == s.t.root && vpn in s.m
      requires doFree ==> s.m[vpn].ppn in mem && s.m[vpn].ppn !in Free() && s.m[vpn].ppn !in Tables(s.t)
      modifies this
      ensures Is(s') && s'.t == s.t && s'.m == s.m - {vpn}
      ensures Free() == old(Free()) + if doFree then {s.m[vpn].ppn} else {}
      ensures SameOutside(old(mem), mem, Tables(s.t) + if doFree then {s.m[vpn].ppn} else {})
    {
      hide I2, I1, I0, IsTree, Chained, Tables, Places, Needs;
      var tbl;
      ghost var t';
      EntryMapped(mem, s.t, s.m, vpn);
      tbl, t' := Walk(root, vpn, false, s.t);
      LowOwned(s.t, vpn);
      ghost var e := s.m[vpn];
      if doFree {
        var pa := mem[tbl].ptes[I0(vpn)].ppn;
        Kfree(pa);
        TreeFrame(old(mem), mem, s.t, s.m, {pa});
      }
      LowTables(mem, s.t);
      SetEntry(mem, s.t, vpn, NULL);
      MapsSet(mem, s.t, s.m, vpn, NULL);
      SetPage(tbl, Table(mem[tbl].ptes[I0(vpn) := NULL]));
      s' := Space(s.t, s.m - {vpn});
    }

    lemma FreedPrivate(s: Space, lo: nat, hi: nat)
      requires Private(s, lo, hi)
      ensures Different(s.m, lo, hi)
      ensures Freed(s.m, lo, hi, true) <= mem.Keys && Freed(s.m, lo, hi, true) !! Free()
              && Freed(s.m, lo, hi, true) !! Tables(s.t)
    {
    }

    /** uvmunmap of pages [lo, lo + n): exactly those go, and with doFree exactly their frames are freed. */
    method Uvmunmap(root: nat, lo: nat, n: nat, doFree: bool, ghost s: Space) returns (ghost s': Space)
      requires Is(s) && root == s.t.root && (forall v :: lo <= v < lo + n ==> v in s.m)
      requires doFree ==> Private(s, lo, lo + n)
      modifies this
      ensures Is(s') && s'.t == s.t && s'.m == Without(s.m, lo, lo + n)
      ensures Free() == old(Free()) + Freed(s.m, lo, lo + n, doFree)
      ensures SameOutside(old(mem), mem, Tables(s.t) + Freed(s.m, lo, lo + n, doFree))
    {
      hide IsTree, Chained, Tables, Maps, Without, Freed, Different;
      s' := s;
      UnmapStart(s.m, lo, doFree);
      if doFree {
        FreedPrivate(s, lo, lo + n);
      }
      var a := lo;
      while a < lo + n
        invariant lo <= a <= lo + n && Is(s') && s'.t == s.t
        invariant s'.m == Without(s.m, lo, a)
        invariant Free() == old(Free()) + Freed(s.m, lo, a, doFree)
        invariant SameOutside(old(mem), mem, Tables(s.t) + Freed(s.m, lo, lo + n, doFree))
      {
        UnmapNext(s.m, lo, a, lo + n, doFree);
        s' := UnmapPage(root, a, doFree, s');
        a := a + 1;
      }
    }

    // ----------------------------------------------------------------
    // Growing and shrinking

    /** uvmdealloc. */
    method Uvmdealloc(root: nat, oldsz: nat, newsz: nat, ghost s: Space) returns (r: nat, ghost s': Space)
      requires Is(s) && root == s.t.root
      requires newsz < oldsz ==> Private(s, PageCount(newsz), PageCount(oldsz))
      modifies this
      ensures r == (if newsz >= oldsz then oldsz else newsz) && Is(s')
      ensures newsz >= oldsz ==> s' == s && mem == old(mem) && free == old(free)
      ensures newsz < oldsz ==>
                && s'.t == s.t && s'.m == Without(s.m, PageCount(newsz), PageCount(oldsz))
                && Free() == old(Free()) + Frames(s.m, PageCount(newsz), PageCount(oldsz))
                && SameOutside(old(mem), mem, Tables(s.t) + Frames(s.m, PageCount(newsz), PageCount(oldsz)))
    {
      hide IsTree, Chained, Tables, Maps;
      s' := s;
      if newsz >= oldsz {
        return oldsz, s;
      }
      var lo, hi := PageCount(newsz), PageCount(oldsz);
      if lo < hi {
        s' := Uvmunmap(root, lo, hi - lo, true, s);
      } else {
        UnmapStart(s.m, lo, true);
      }
      r := newsz;
    }

    /** kalloc, fill and mappages of one page, with kfree if the mapping fails: the body uvmalloc and uvmcopy share. */
    method AddPage(root: nat, a: nat, perm: Flags, x: Page, ghost s: Space)
      returns (ok: bool, ghost s': Space, ghost p: nat)
      requires Is(s) && root == s.t.root && a < MAXPAGE && a !in s.m && (perm.r || perm.w || perm.x) && x.Frame?
      modifies this
      ensures Step(s, s', {})
      ensures ok ==> s'.m == s.m[a := Pte(p, perm.(v := true))]
      ensures ok ==> p in old(Free()) && p in mem && mem[p] == x && p !in Free() && p !in Tables(s'.t)
      ensures ok ==> Free() + Tables(s'.t) + {p} == old(Free()) + Tables(s.t)
      ensures !ok ==> s'.m == s.m && Free() + Tables(s'.t) == old(Free()) + Tables(s.t)
      ensures ok <==> |old(free)| >= 1 + Lack(s.t, a)
      ensures ok ==>
              && Places(s'.t) == Places(s.t) + Needs(a)
              && |free| + |Places(s'.t)| + 1 == |old(free)| + |Places(s.t)|
    {
      hide IsTree, Chained, Tables, Maps, Places, Needs, Charged, Lack;
      s' := s;
      p := 0;
      var f := Kalloc();
      if f == 0 {
        return false, s, 0;
      }
      p := f;
      SetPage(f, x);
      TreeFrame(old(mem), mem, s.t, s.m, {f});
      ok, s' := MapPage(root, a, f, perm, s);
      if ok {
        ChargedOk(s.t, s'.t, a, |old(free)| - 1, |free|);
      } else {
        ChargedFail(s.t, s'.t, a, |old(free)| - 1);
        label failed:
        Kfree(f);
        TreeFrame(old@failed(mem), mem, s'.t, s'.m, {f});
      }
    }

    /**
     Pages lo up to hi have been added to s0, giving s, out of the pages in `all`, with
     permissions f and contents x.
     */
    ghost predicate Growing(s0: Space, s: Space, lo: nat, hi: nat, f: map<nat, Flags>, x: map<nat, Page>, all: set<nat>)
      reads this
    {
      && Is(s) && s.t.root == s0.t.root
      && Extends(s0.m, s.m, lo, hi) && Permits(s.m, lo, hi, f) && Filled(mem, s.m, lo, hi, x)
      && Private(s, lo, hi)
      && Free() + Tables(s.t) + Frames(s.m, lo, hi) == all
    }

    /** What the pages lo up to hi have cost. */
    ghost predicate Paid(s0: Space, s: Space, lo: nat, hi: nat, free0: nat)
      reads this
    {
      Places(s.t) == Places(s0.t) + Paths(lo, hi) && |free| + |Places(s.t)| + (hi - lo) == free0 + |Places(s0.t)|
    }

    lemma PaidStart(s: Space, lo: nat)
      ensures Paid(s, s, lo, lo, |free|)
    {
      hide Places;
    }

    lemma GrowingStart(s: Space, lo: nat, f: map<nat, Flags>, x: map<nat, Page>)
      requires Is(s)
      ensures Growing(s, s, lo, lo, f, x, Free() + Tables(s.t))
    {
      hide IsTree, Chained, Tables, Maps, Frames, Different, Extends, Filled, Permits;
      ExtendsStart(s.m, lo, f);
      FilledNone(mem, s.m, lo, x);
    }

    /** One round of uvmalloc or uvmcopy. */
    method GrowOne(root: nat, a: nat, perm: Flags, page: Page, ghost lo: nat, ghost f: map<nat, Flags>,
                   ghost x: map<nat, Page>, ghost s0: Space, ghost s: Space, ghost all: set<nat>, ghost free0: nat)
      returns (ok: bool, ghost s': Space)
      requires lo <= a < MAXPAGE && root == s.t.root && a !in s0.m && (perm.r || perm.w || perm.x) && page.Frame?
      requires Growing(s0, s, lo, a, f, x, all) && a in f && f[a] == perm && a in x && x[a] == page
      requires Paid(s0, s, lo, a, free0)
      modifies this
      ensures Growing(s0, s', lo, if ok then a + 1 else a, f, x, all)
      ensures SameOutside(old(mem), mem, old(Free()) + Tables(s.t))
      ensures ok <==> |old(free)| >= 1 + Lack(s.t, a)
      ensures ok ==> Paid(s0, s', lo, a + 1, free0)
      ensures !ok ==> forall hi :: a < hi ==> free0 < Cost(s0.t, lo, hi)
    {
      hide IsTree, Chained, Tables, Maps, Frames, Different, Extends, Filled, Permits, Places, Needs, Cost;
      ExtendsFresh(s0.m, s.m, lo, a);
      ghost var p;
      ok, s', p := AddPage(root, a, perm, page, s);
      if ok {
        ExtendsNext(s0.m, s.m, lo, a, f, p);
        FilledNext(old(mem), mem, s.m, lo, a, x, Pte(p, perm.(v := true)), old(Free()) + Tables(s.t));
        assert Paths(lo, a + 1) == Paths(lo, a) + Needs(a);
      } else {
        FilledSame(old(mem), mem, s.m, lo, a, x, old(Free()) + Tables(s.t));
        forall hi | a < hi ensures free0 < Cost(s0.t, lo, hi) {
          TooDear(s0.t, s.t, lo, a, hi, free0, |old(free)|);
        }
      }
    }

    /** Undoing the growth gives back the map, and every frame. */
    method Shrink(root: nat, lo: nat, hi: nat, ghost f: map<nat, Flags>, ghost x: map<nat, Page>,
                  ghost s0: Space, ghost s: Space, ghost all: set<nat>) returns (ghost s': Space)
      requires lo <= hi && root == s.t.root && Growing(s0, s, lo, hi, f, x, all)
      requires forall v :: lo <= v < hi ==> v !in s0.m
      modifies this
      ensures Is(s') && s'.t == s.t && s'.m == s0.m && Free() + Tables(s'.t) == all
      ensures SameOutside(old(mem), mem, all)
    {
      hide IsTree, Chained, Tables, Maps, Frames, Different, Extends, Filled, Permits;
      ExtendsUndone(s0.m, s.m, lo, hi);
      assert forall v :: lo <= v < hi ==> v in s.m by {
        DifferentMapped(s.m, lo, hi);
      }
      s' := Uvmunmap(root, lo, hi - lo, true, s);
    }

    /** walk without allocation: the table with the leaf entry for a, or 0. */
    method Lookup(root: nat, a: nat, ghost s: Space) returns (tbl: nat)
      requires Is(s) && root == s.t.root
      ensures tbl == if Key(a) in s.t.l0 then s.t.l0[Key(a)] else 0
      ensures tbl != 0 ==> IsTable(mem, tbl)
    {
      hide I2, I1, I0, IsTree, Chained, Tables, Reached, Maps;
      LowTables(mem, s.t);
      var level := 2;
      tbl := root;
      ReachedRoot(s.t, a);
      while level > 0
        invariant 0 <= level <= 2 && Reached(s.t, a, level, tbl)
      {
        Descend(mem, s.t, a, level, tbl);
        var pte := mem[tbl].ptes[Px(level, a)];
        if !pte.f.v {
          return 0;
        }
        tbl := pte.ppn;
        level := level - 1;
      }
      ReachedLeaf(s.t, a, tbl);
    }

    /** mappages' test of the entry it is about to write. */
    method Mapped(root: nat, a: nat, ghost s: Space) returns (b: bool)
      requires Is(s) && root == s.t.root && a < MAXPAGE
      ensures b <==> a in s.m
    {
      hide I2, I1, I0, IsTree, Chained, Tables, Maps;
      EntryTells(mem, s.t, s.m, a);
      LowNonzero(s.t);
      var tbl := Lookup(root, a, s);
      b := tbl != 0 && mem[tbl].ptes[I0(a)].f.v;
    }

    /** No table is page 0. */
    lemma LowNonzero(t: Tree)
      requires Holds(t)
      ensures forall k :: k in t.l0 ==> t.l0[k] != 0
    {
      LowTables(mem, t);
    }

    /**
     uvmalloc; top is the lowest page above oldsz that is mapped, if newsz reaches so far.
     Success maps the new pages to zeroed private frames; failure, exactly when memory does
     not suffice for them and the tables they lack, restores the map and returns every
     frame, keeping at most page-table pages.  Given the memory to get there, it panics in
     mappages on page top.
     */
    method Uvmalloc(root: nat, oldsz: nat, newsz: nat, xperm: Flags, ghost s: Space, ghost top: nat)
      returns (panics: bool, r: nat, ghost s': Space)
      requires Is(s) && root == s.t.root && PageCount(oldsz) <= top < MAXPAGE
      requires forall v :: PageCount(oldsz) <= v < PageCount(newsz) && v < top ==> v !in s.m
      requires PageCount(newsz) > top ==> top in s.m
      modifies this
      ensures panics <==>
                newsz >= oldsz && PageCount(newsz) > top && |old(free)| > Cost(s.t, PageCount(oldsz), top)
      ensures SameOutside(old(mem), mem, old(Free()) + Tables(s.t))
      ensures !panics ==> Is(s') && s'.t.root == root
      ensures newsz < oldsz ==> r == oldsz && s' == s && mem == old(mem) && free == old(free)
      ensures newsz >= oldsz && !panics ==>
                var lo, hi, perm := PageCount(oldsz), PageCount(newsz), xperm.(r := true, u := true);
                if hi <= top && |old(free)| >= Cost(s.t, lo, hi) then
                  && r == newsz
                  && Growing(s, s', lo, hi, Repeat(lo, hi, perm), Repeat(lo, hi, Junk(0)), old(Free()) + Tables(s.t))
                else
                  r == 0 && s'.m == s.m && Free() + Tables(s'.t) == old(Free()) + Tables(s.t)
    {
      hide IsTree, Chained, Tables, Maps, Junk, Frames, Different, Extends, Filled, Permits, Places, Needs, Cost,
           Growing, Paid;
      panics, s' := false, s;
      if newsz < oldsz {
        return false, oldsz, s;
      }
      var lo, perm := PageCount(oldsz), xperm.(r := true, u := true);
      ghost var hi, all, free0 := PageCount(newsz), Free() + Tables(s.t), |free|;
      ghost var f, x := Repeat(lo, hi, perm), Repeat(lo, hi, Junk(0));
      GrowingStart(s, lo, f, x);
      PaidStart(s, lo);
      var a := lo;
      while a * PGSIZE < newsz
        invariant lo <= a <= hi && a <= top
        invariant Growing(s, s', lo, a, f, x, all) && Paid(s, s', lo, a, free0)
        invariant SameOutside(old(mem), mem, all)
      {
        GrowingAt(s, s', lo, a, f, x, all);
        var remap := Mapped(root, a, s');
        if remap {
          PaidFor(s, s', lo, a, free0);
          FirstFree();
          if freelist != 0 {
            return true, 0, s'; // kalloc has a page for it, and mappages panics
          }
          r, s' := Undo(root, lo, a, f, x, s, s', all);
          return false, 0, s';
        }
        var ok;
        ok, s' := GrowOne(root, a, perm, Junk(0), lo, f, x, s, s', all, free0);
        if !ok {
          CostGrows(s.t, lo, a + 1, top);
          GrowingAt(s, s', lo, a, f, x, all);
          r, s' := Undo(root, lo, a, f, x, s, s', all);
          return false, 0, s';
        }
        a := a + 1;
      }
      GrowingAt(s, s', lo, a, f, x, all);
      PaidFor(s, s', lo, hi, free0);
      r := newsz;
    }

    lemma FirstFree()
      requires Valid()
      ensures freelist == 0 <==> free == []
    {
      assert free != [] ==> Link(mem, free, 0);
    }

    lemma GrowingAt(s0: Space, s: Space, lo: nat, a: nat, f: map<nat, Flags>, x: map<nat, Page>, all: set<nat>)
      requires Growing(s0, s, lo, a, f, x, all)
      ensures Is(s) && s.t.root == s0.t.root && (a in s.m <==> a in s0.m)
      ensures Free() + Tables(s.t) <= all
    {
      hide IsTree, Chained, Tables, Maps, Frames, Different, Filled, Permits;
    }

    lemma PaidFor(s0: Space, s: Space, lo: nat, a: nat, free0: nat)
      requires Paid(s0, s, lo, a, free0) && lo <= a
      ensures free0 >= Cost(s0.t, lo, a) && (free0 > Cost(s0.t, lo, a) <==> free != [])
    {
      hide Places, Needs, Cost;
      Afforded(s0.t, s.t, lo, a, free0, |free|);
      AffordedMore(s0.t, s.t, lo, a, free0, |free|);
    }

    /** uvmalloc's uvmdealloc after a failure. */
    method Undo(root: nat, lo: nat, a: nat, ghost f: map<nat, Flags>, ghost x: map<nat, Page>,
                ghost s0: Space, ghost s: Space, ghost all: set<nat>) returns (r: nat, ghost s': Space)
      requires lo <= a && root == s.t.root && Growing(s0, s, lo, a, f, x, all)
      requires forall v :: lo <= v < a ==> v !in s0.m
      modifies this
      ensures Is(s') && s'.t.root == root && s'.m == s0.m && Free() + Tables(s'.t) == all
      ensures SameOutside(old(mem), mem, all)
    {
      hide IsTree, Chained, Tables, Maps, Junk, Frames, Different, Extends, Filled, Permits;
      ExtendsUndone(s0.m, s.m, lo, a);
      if a == lo {
        UnmapStart(s.m, lo, true);
        ExtendsStart(s.m, lo, f);
      }
      r, s' := Uvmdealloc(root, a * PGSIZE, lo * PGSIZE, s);
    }

    // ----------------------------------------------------------------
    // Copying

    /** Two address spaces with nothing in common. */
    ghost predicate Separate(s: Space, d: Space, n: nat)
      reads this
    {
      && Is(s) && Is(d)
      && Tables(s.t) !! Tables(d.t) && Frames(s.m, 0, n) !! Tables(d.t) && Frames(s.m, 0, n) !! Free()
    }

    /** The parent's pages, readable through its tables. */
    ghost predicate Readable(s: Space, n: nat)
      reads this
    {
      forall v :: 0 <= v < n ==> v in s.m && s.m[v].ppn in mem && mem[s.m[v].ppn].Frame?
    }

    /** What uvmcopy reads for page i of the parent. */
    method ReadPage(root: nat, i: nat, ghost s: Space) returns (perm: Flags, page: Page)
      requires Is(s) && root == s.t.root && i in s.m && s.m[i].ppn in mem
      ensures perm == s.m[i].f && page == mem[s.m[i].ppn]
    {
      hide I2, I1, I0, IsTree, Chained, Tables;
      EntryMapped(mem, s.t, s.m, i);
      LowNonzero(s.t);
      var tbl := Lookup(root, i, s);
      perm := mem[tbl].ptes[I0(i)].f;
      page := mem[mem[tbl].ptes[I0(i)].ppn];
    }

    /** One round of uvmcopy. */
    method CopyOne(old_: nat, new_: nat, i: nat, ghost f: map<nat, Flags>, ghost x: map<nat, Page>,
                   ghost s: Space, ghost d0: Space, ghost d: Space, ghost all: set<nat>, ghost free0: nat)
      returns (ok: bool, ghost d': Space)
      requires Is(s) && old_ == s.t.root && new_ == d.t.root && i in s.m && s.m[i].ppn in mem && i !in d0.m
      requires mem[s.m[i].ppn].Frame? && i in f && f[i] == s.m[i].f && i in x && x[i] == mem[s.m[i].ppn]
      requires Growing(d0, d, 0, i, f, x, all) && Paid(d0, d, 0, i, free0)
      modifies this
      ensures Growing(d0, d', 0, if ok then i + 1 else i, f, x, all)
      ensures SameOutside(old(mem), mem, old(Free()) + Tables(d.t))
      ensures ok ==> Paid(d0, d', 0, i + 1, free0)
      ensures !ok ==> forall hi :: i < hi ==> free0 < Cost(d0.t, 0, hi)
    {
      hide IsTree, Chained, Tables, Maps, Growing, Paid, Cost, Lack;
      LeafAt(mem, s.t, s.m, i);
      var perm, page := ReadPage(old_, i, s);
      ok, d' := GrowOne(new_, i, perm, page, 0, f, x, d0, d, all, free0);
    }

    /**
     uvmcopy.  Success gives the child a private copy of every page, with the parent's
     permissions; failure restores the child's map and returns every frame.  The parent's
     map and memory are unchanged either way.
     */
    method Uvmcopy(old_: nat, new_: nat, sz: nat, ghost s: Space, ghost d: Space) returns (ok: bool, ghost d': Space)
      requires old_ == s.t.root && new_ == d.t.root && sz <= (MAXPAGE - 2) * PGSIZE
      requires Separate(s, d, PageCount(sz)) && Readable(s, PageCount(sz))
      requires forall v :: 0 <= v < PageCount(sz) ==> v !in d.m
      modifies this
      ensures Separate(s, d', PageCount(sz)) && d'.t.root == d.t.root
      ensures SameOutside(old(mem), mem, old(Free()) + Tables(d.t))
      ensures ok <==> |old(free)| >= Cost(d.t, 0, PageCount(sz))
      ensures ok ==> Growing(d, d', 0, PageCount(sz), FlagsOf(s.m), PagesOf(old(mem), s.m), old(Free()) + Tables(d.t))
      ensures !ok ==> d'.m == d.m && Free() + Tables(d'.t) == old(Free()) + Tables(d.t)
    {
      hide IsTree, Chained, Tables, Maps, Frames, Different, Extends, Filled, Permits, Places, Needs, Cost, Paid, Lack;
      ghost var n, all, free0 := PageCount(sz), Free() + Tables(d.t), |free|;
      ghost var f, x := FlagsOf(s.m), PagesOf(mem, s.m);
      GrowingStart(d, 0, f, x);
      PaidStart(d, 0);
      FramesIn(s.m, 0, n);
      d' := d;
      var i := 0;
      while i * PGSIZE < sz
        invariant 0 <= i <= n
        invariant Growing(d, d', 0, i, f, x, all) && Paid(d, d', 0, i, free0)
        invariant SameOutside(old(mem), mem, all)
        invariant Is(s)
      {
        assert s.m[i].ppn !in all;
        ok, d' := CopyOne(old_, new_, i, f, x, s, d, d', all, free0);
        TreeFrame(old(mem), mem, s.t, s.m, all);
        if !ok {
          d' := Shrink(new_, 0, i, f, x, d, d', all);
          TreeFrame(old(mem), mem, s.t, s.m, all);
          return;
        }
        i := i + 1;
      }
      PaidFor(d, d', 0, n, free0);
      ok := true;
    }

    // ----------------------------------------------------------------
    // Freeing

    /** freewalk's loop after i entries: the first i children are freed and their entries cleared. */
    ghost predicate Freeing(m0: Memory, free0: set<nat>, p: nat, level: nat, i: nat)
      reads this
    {
      && Valid() && IsTable(m0, p) && IsTable(mem, p) && i <= ENTRIES
      && (forall j :: i <= j < ENTRIES ==> mem[p].ptes[j] == m0[p].ptes[j])
      && (if level == 0 then Free() == free0 && SameOutside(m0, mem, {p})
          else Free() == free0 + Kids(m0, p, level, i) && SameOutside(m0, mem, Kids(m0, p, level, i) + {p}))
    }

    /** freewalk: every page from p down goes back to the free list; no leaf is met. */
    method Freewalk(p: nat, ghost level: nat)
      requires Valid() && Clean(mem, p, level) && Sub(mem, p, level) !! Free()
      modifies this
      ensures Valid() && Free() == old(Free()) + Sub(old(mem), p, level)
      ensures SameOutside(old(mem), mem, Sub(old(mem), p, level))
      decreases level, 1
    {
      hide Chained;
      for i := 0 to ENTRIES
        invariant Freeing(old(mem), old(Free()), p, level, i)
      {
        var pte := mem[p].ptes[i];
        if pte.f.v && !(pte.f.r || pte.f.w || pte.f.x) {
          FreeChild(p, i, old(mem), old(Free()), level);
        } else {
          FreeSkip(p, i, old(mem), old(Free()), level);
        }
      }
      if level > 0 {
        KidsExclude(old(mem), p, level, ENTRIES);
      }
      Kfree(p);
    }

    lemma FreeSkip(p: nat, i: nat, m0: Memory, free0: set<nat>, level: nat)
      requires Clean(m0, p, level) && Freeing(m0, free0, p, level, i) && i < ENTRIES
      requires var e := mem[p].ptes[i]; !(e.f.v && !(e.f.r || e.f.w || e.f.x))
      ensures !mem[p].ptes[i].f.v && Freeing(m0, free0, p, level, i + 1)
    {
      if level > 0 {
        KidAt(m0, p, level, ENTRIES, i);
      }
    }

    method FreeChild(p: nat, i: nat, ghost m0: Memory, ghost free0: set<nat>, ghost level: nat)
      requires Clean(m0, p, level) && Sub(m0, p, level) !! free0 && Freeing(m0, free0, p, level, i) && i < ENTRIES
      requires mem[p].ptes[i].f.v
      modifies this
      ensures Freeing(m0, free0, p, level, i + 1)
      decreases level, 0
    {
      hide Chained, CleanKids, Clean, Kids, Sub;
      CleanIsTable(m0, p, level);
      KidAt(m0, p, level, ENTRIES, i);
      KidsExclude(m0, p, level, ENTRIES);
      KidsNext(m0, p, level, i);
      var child := mem[p].ptes[i].ppn;
      SubInMemory(m0, child, level - 1);
      SubFrame(m0, mem, child, level - 1);
      Freewalk(child, level - 1);
      SetPage(p, Table(mem[p].ptes[i := NULL]));
    }

    /** uvmfree: the user pages, then every table; nothing of the address space is left. */
    method Uvmfree(root: nat, sz: nat, ghost s: Space)
      requires Is(s) && root == s.t.root && Private(s, 0, PageCount(sz))
      requires forall v :: v in s.m <==> 0 <= v < PageCount(sz)
      modifies this
      ensures Valid() && Free() == old(Free()) + Tables(s.t) + Frames(s.m, 0, PageCount(sz))
      ensures SameOutside(old(mem), mem, Tables(s.t) + Frames(s.m, 0, PageCount(sz)))
    {
      hide IsTree, Chained, Tables, Different, Frames;
      ghost var s' := s;
      if sz > 0 {
        s' := Uvmunmap(root, 0, PageCount(sz), true, s);
      } else {
        UnmapStart(s.m, 0, true);
      }
      assert s'.m == map[];
      TreeClean(mem, s'.t);
      Freewalk(root, 2);
    }

    // ----------------------------------------------------------------
    // A process's page table (kernel/proc.c)

    /** uvmcreate. */
    method Uvmcreate() returns (root: nat, ghost s: Space)
      requires Valid()
      modifies this
      ensures Valid() && (root == 0 <==> old(free) == [])
      ensures root == 0 ==> mem == old(mem) && Free() == old(Free())
      ensures root != 0 ==> Is(s) && s.t == Tree(root, map[], map[]) && s.m == map[]
      ensures root != 0 ==> root in old(Free()) && Free() == old(Free()) - {root} && SameOutside(old(mem), mem, {root})
      ensures root != 0 ==> |free| == |old(free)| - 1
    {
      hide Chained;
      root := NewTable();
      s := Space(Tree(root, map[], map[]), map[]);
    }

    /** The failure path of proc_pagetable. */
    method DropTables(root: nat, ghost s: Space)
      requires Is(s) && root == s.t.root && s.m == map[]
      modifies this
      ensures Valid() && Free() == old(Free()) + Tables(s.t) && SameOutside(old(mem), mem, Tables(s.t))
    {
      hide IsTree, Chained, Maps, Different, Frames, Tables;
      PrivateNone(s);
      Uvmfree(root, 0, s);
    }

    /**
     proc_pagetable: the two pages above user memory, or nothing and every page returned,
     exactly when fewer than three pages are free.  The two pages share their tables, so
     the second mappages cannot fail.
     */
    method ProcPagetable(trampoline: nat, trapframe: nat) returns (root: nat, ghost s: Space)
      requires Valid()
      modifies this
      ensures Valid() && SameOutside(old(mem), mem, old(Free()))
      ensures root == 0 ==> Free() == old(Free())
      ensures root != 0 ==> Is(s) && s.t.root == root && Process(s.m, 0) && Topped(s.m, trampoline, trapframe)
      ensures root != 0 ==> Free() + Tables(s.t) == old(Free())
      ensures root != 0 <==> |old(free)| >= 3
      ensures root != 0 ==> Places(s.t) == Needs(TRAMPOLINE) && |free| == |old(free)| - 3
    {
      hide IsTree, Chained, Maps, Different, Frames, Tables, Places, Needs, Charged;
      root, s := Uvmcreate();
      if root == 0 {
        return;
      }
      RootAlone(s.t);
      var ok;
      ghost var t0, n := s.t, |free|;
      ok, s := MapPage(root, TRAMPOLINE, trampoline, NONE.(r := true, x := true), s);
      TopCharged(t0, s.t, ok, n, |free|);
      if !ok {
        DropTables(root, s);
        return 0, s;
      }
      ghost var t1 := s.t;
      ok, s := MapPage(root, TRAPFRAME, trapframe, NONE.(r := true, w := true), s);
      TopShared(t1, s.t, ok, n - 2, |free|);
    }

    /** The tables for the trampoline, in a new address space. */
    lemma TopCharged(t: Tree, u: Tree, ok: bool, free0: nat, free: nat)
      requires t.l1 == map[] && t.l0 == map[] && Charged(t, u, TRAMPOLINE, ok, free0, free) && (!ok ==> free == 0)
      ensures if ok then Places(u) == Needs(TRAMPOLINE) && free == free0 - 2 else free0 < 2
    {
      hide I2, I1, I0, Charged;
      assert Places(t) == {};
      assert |Needs(TRAMPOLINE)| == 2 && Needs(TRAMPOLINE) - {} == Needs(TRAMPOLINE);
      if ok {
        ChargedOk(t, u, TRAMPOLINE, free0, free);
      } else {
        ChargedFail(t, u, TRAMPOLINE, free0);
      }
    }

    /** The trap frame is behind the same tables. */
    lemma TopShared(t: Tree, u: Tree, ok: bool, free0: nat, free: nat)
      requires Places(t) == Needs(TRAMPOLINE) && Charged(t, u, TRAPFRAME, ok, free0, free)
      ensures ok && Places(u) == Places(t) && free == free0
    {
      hide Places;
      assert I2(TRAPFRAME) == I2(TRAMPOLINE) && I1(TRAPFRAME) == I1(TRAMPOLINE);
      assert Needs(TRAPFRAME) == Needs(TRAMPOLINE);
      assert Places(u) == Places(t);
    }

    lemma RootAlone(t: Tree)
      requires t.l1 == map[] && t.l0 == map[]
      ensures Tables(t) == {t.root}
    {
    }

    lemma PrivateNone(s: Space)
      ensures Private(s, 0, 0) && Frames(s.m, 0, 0) == {}
    {
    }

    /** proc_freepagetable: every table and every user frame goes back. */
    method ProcFreepagetable(root: nat, sz: nat, ghost s: Space)
      requires Is(s) && root == s.t.root && Process(s.m, PageCount(sz)) && Private(s, 0, PageCount(sz))
      modifies this
      ensures Valid() && Free() == old(Free()) + Tables(s.t) + Frames(s.m, 0, PageCount(sz))
      ensures SameOutside(old(mem), mem, Tables(s.t) + Frames(s.m, 0, PageCount(sz)))
    {
      hide IsTree, Chained, Maps, Different, Frames, Tables;
      ghost var n := PageCount(sz);
      FramesWithout(s.m, 0, n, TRAMPOLINE, TRAMPOLINE + 1);
      ghost var s1 := Uvmunmap(root, TRAMPOLINE, 1, false, s);
      FramesWithout(s1.m, 0, n, TRAPFRAME, TRAPFRAME + 1);
      ghost var s2 := Uvmunmap(root, TRAPFRAME, 1, false, s1);
      Uvmfree(root, sz, s2);
    }

    /** A process of sz bytes, none of whose pages is free. */
    ghost predicate Owned(s: Space, sz: nat)
      reads this
    {
      Valid() && OwnedIn(mem, s, sz) && Free() !! Holding(s, sz)
    }

    lemma OwnedParts(s: Space, sz: nat)
      requires Owned(s, sz)
      ensures Is(s) && Process(s.m, PageCount(sz)) && Private(s, 0, PageCount(sz)) && Readable(s, PageCount(sz))
    {
    }

    lemma OwnedWhole(s: Space, sz: nat)
      requires Is(s) && Process(s.m, PageCount(sz)) && Private(s, 0, PageCount(sz)) && Readable(s, PageCount(sz))
      ensures Owned(s, sz)
    {
    }

    /** A process grown from nothing by sz bytes, with pages x, owns them. */
    lemma GrownOwned(s0: Space, s: Space, sz: nat, f: map<nat, Flags>, x: map<nat, Page>, all: set<nat>)
      requires Process(s0.m, 0) && sz <= TRAPFRAME * PGSIZE
      requires Growing(s0, s, 0, PageCount(sz), f, x, all)
      requires forall v :: v in x && v < PageCount(sz) ==> x[v].Frame?
      ensures Owned(s, sz) && Free() + Holding(s, sz) == all
    {
      hide IsTree, Chained, Maps, Tables, Permits, Different, Frames;
    }

    /** What uvmcopy leaves in the child. */
    lemma CopyOwned(s: Space, d0: Space, d: Space, sz: nat, m0: Memory, all: set<nat>)
      requires OwnedIn(mem, s, sz) && Process(d0.m, 0)
      requires Growing(d0, d, 0, PageCount(sz), FlagsOf(s.m), PagesOf(m0, s.m), all)
      requires SameOutside(m0, mem, all) && Holding(s, sz) !! all
      ensures Owned(d, sz) && Free() + Holding(d, sz) == all && SamePages(mem, s, d, PageCount(sz))
    {
      hide IsTree, Chained, Maps, Tables, Different, Frames, Private, Owned;
      FramesIn(s.m, 0, PageCount(sz));
      forall v: nat | v < PageCount(sz) ensures s.m[v].f.v {
        LeafAt(mem, s.t, s.m, v);
      }
      GrownOwned(d0, d, sz, FlagsOf(s.m), PagesOf(m0, s.m), all);
    }

    /** Growth below the trap frame leaves what is above alone. */
    lemma GrewTop(s: Space, s': Space, lo: nat, hi: nat, f: map<nat, Flags>, x: map<nat, Page>, all: set<nat>)
      requires Growing(s, s', lo, hi, f, x, all) && hi <= TRAPFRAME && TRAMPOLINE in s.m && TRAPFRAME in s.m
      ensures SameTop(s.m, s'.m)
    {
      hide IsTree, Chained, Maps, Tables, Different, Frames, Filled, Permits;
    }

    /** uvmcopy from a process into an empty one. */
    method CopyInto(parent: nat, child: nat, sz: nat, ghost s: Space, ghost d: Space)
      returns (ok: bool, ghost d': Space)
      requires Owned(s, sz) && parent == s.t.root && Is(d) && child == d.t.root && Process(d.m, 0)
               && Tables(d.t) !! Holding(s, sz)
      modifies this
      ensures SameOutside(old(mem), mem, old(Free()) + Tables(d.t))
      ensures d'.t.root == child && Owned(d', if ok then sz else 0)
      ensures Free() + Holding(d', if ok then sz else 0) == old(Free()) + Tables(d.t)
      ensures ok ==> OwnedIn(mem, s, sz) && SamePages(mem, s, d', PageCount(sz)) && SameTop(d.m, d'.m)
      ensures ok <==> |old(free)| >= Cost(d.t, 0, PageCount(sz))
    {
      hide IsTree, Chained, Maps, Tables, Different, Frames, Extends, Filled, Permits, Junk, Private, OwnedIn,
           SamePages, Growing, Cost;
      OwnedParts(s, sz);
      ghost var all := Free() + Tables(d.t);
      ok, d' := Uvmcopy(parent, child, sz, s, d);
      if ok {
        OwnedFrame(old(mem), mem, s, sz, all);
        CopyOwned(s, d, d', sz, old(mem), all);
        GrewTop(d, d', 0, PageCount(sz), FlagsOf(s.m), PagesOf(old(mem), s.m), all);
      } else {
        PrivateNone(d');
        OwnedWhole(d', 0);
      }
    }

    /** A process grown by uvmalloc. */
    lemma GrewOwned(m0: Memory, free0: set<nat>, s: Space, sz: nat, s': Space, sz': nat, f: map<nat, Flags>,
        x: map<nat, Page>)
      requires OwnedIn(m0, s, sz) && free0 !! Holding(s, sz) && sz <= sz' <= TRAPFRAME * PGSIZE
      requires Growing(s, s', PageCount(sz), PageCount(sz'), f, x, free0 + Tables(s.t))
               && SameOutside(m0, mem, free0 + Tables(s.t))
      requires forall v :: v in x ==> x[v].Frame?
      ensures Owned(s', sz') && Free() + Holding(s', sz') == free0 + Holding(s, sz)
              && Kept(m0, s, mem, s', PageCount(sz))
    {
      hide IsTree, Chained, Maps, Tables, Permits, Different, Frames;
      FramesIn(s.m, 0, PageCount(sz));
      FramesJoin(s.m, s'.m, PageCount(sz), PageCount(sz'));
    }

    /** What uvmalloc with PTE_W adds. */
    lemma GrewBlank(s: Space, s': Space, lo: nat, hi: nat, all: set<nat>)
      requires Growing(s, s', lo, hi, Repeat(lo, hi, NONE.(w := true, r := true, u := true)),
                       Repeat(lo, hi, Junk(0)), all)
      ensures Blanks(mem, s'.m, lo, hi)
    {
      hide IsTree, Chained, Maps, Tables, Different, Frames;
    }

    /** A process shrunk by uvmdealloc. */
    lemma ShrunkOwned(m0: Memory, free0: set<nat>, s: Space, sz: nat, s': Space, sz': nat)
      requires OwnedIn(m0, s, sz) && free0 !! Holding(s, sz) && sz' <= sz && Is(s') && s'.t == s.t
      requires s'.m == Without(s.m, PageCount(sz'), PageCount(sz))
      requires Free() == free0 + Frames(s.m, PageCount(sz'), PageCount(sz))
      requires SameOutside(m0, mem, Tables(s.t) + Frames(s.m, PageCount(sz'), PageCount(sz)))
      ensures Owned(s', sz') && Free() + Holding(s', sz') == free0 + Holding(s, sz)
              && Kept(m0, s, mem, s', PageCount(sz')) && SameTop(s.m, s'.m)
    {
      hide IsTree, Chained, Maps, Tables, Different, Frames;
      FramesCut(s.m, PageCount(sz'), PageCount(sz));
      FramesIn(s'.m, 0, PageCount(sz'));
    }

    lemma ShrunkPrivate(s: Space, sz: nat, sz': nat)
      requires Owned(s, sz) && sz' <= sz
      ensures Is(s) && Private(s, PageCount(sz'), PageCount(sz))
    {
      FramesCut(s.m, PageCount(sz'), PageCount(sz));
    }

    /**
     growproc: the size moves by n, or stays exactly when memory does not suffice; nothing
     below the smaller size changes.  It panics exactly when n reaches past the trap frame
     and memory suffices to get there.
     */
    method Growproc(root: nat, sz: nat, n: int, ghost s: Space)
      returns (panics: bool, ok: bool, sz': nat, ghost s': Space)
      requires Owned(s, sz) && root == s.t.root && -0x8000_0000 <= n < 0x8000_0000 && sz <= TRAPFRAME * PGSIZE
      modifies this
      ensures panics <==>
                n > 0 && sz + n > TRAPFRAME * PGSIZE && |old(free)| > Cost(s.t, PageCount(sz), TRAPFRAME)
      ensures !panics ==> Owned(s', sz') && s'.t.root == root && sz' <= TRAPFRAME * PGSIZE
      ensures !panics ==> Free() + Holding(s', sz') == old(Free()) + Holding(s, sz)
      ensures SameOutside(old(mem), mem, old(Free()) + Holding(s, sz))
      ensures !panics ==> Kept(old(mem), s, mem, s', PageCount(if sz' < sz then sz' else sz))
      ensures !panics ==> SameTop(s.m, s'.m)
      ensures !panics ==> Blanks(mem, s'.m, PageCount(sz), PageCount(sz'))
      ensures !panics ==> sz' == if !ok || sz + n < 0 then sz else sz + n
      ensures !panics ==>
                (ok <==> n > 0 ==>
                sz + n <= TRAPFRAME * PGSIZE && |old(free)| >= Cost(s.t, PageCount(sz), PageCount(sz + n)))
    {
      hide IsTree, Chained, Maps, Tables, Private, Process, Growing, Readable, Cost, PageCount,
           Blanks, SameTop, Kept, Junk;
      panics, ok, sz', s' := false, true, sz, s;
      OwnedParts(s, sz);
      CountBelow(sz);
      if n > 0 {
        NotAbove(s, sz);
        CountBelow(sz + n);
        var r;
        panics, r, s' := Uvmalloc(root, sz, Moved(sz, n), NONE.(w := true), s, TRAPFRAME);
        if panics {
          return;
        }
        if r == 0 {
          ok := false;
          FailedOwned(old(mem), old(Free()), s, s', sz);
        } else {
          sz' := r;
          ghost var lo, hi := PageCount(sz), PageCount(r);
          GrewOwned(old(mem), old(Free()), s, sz, s', r, Repeat(lo, hi, NONE.(w := true, r := true, u := true)),
            Repeat(lo, hi, Junk(0)));
          GrewBlank(s, s', lo, hi, old(Free()) + Tables(s.t));
          GrewTop(s, s', lo, hi, Repeat(lo, hi, NONE.(w := true, r := true, u := true)), Repeat(lo, hi, Junk(0)),
            old(Free()) + Tables(s.t));
        }
      } else if n < 0 {
        if Moved(sz, n) < sz {
          ShrunkPrivate(s, sz, Moved(sz, n));
        }
        sz', s' := Uvmdealloc(root, sz, Moved(sz, n), s);
        if Moved(sz, n) < sz {
          ShrunkOwned(old(mem), old(Free()), s, sz, s', sz');
        } else {
          KeptSame(s, sz);
        }
      } else {
        KeptSame(s, sz);
      }
      if sz' <= sz {
        NoBlanks(mem, s'.m, sz, sz');
      }
    }

    lemma CountBelow(sz: nat)
      ensures PageCount(sz) <= TRAPFRAME <==> sz <= TRAPFRAME * PGSIZE
    {
    }

    lemma NotAbove(s: Space, sz: nat)
      requires Owned(s, sz)
      ensures (forall v :: PageCount(sz) <= v < TRAPFRAME ==> v !in s.m) && TRAPFRAME in s.m
              && PageCount(sz) <= TRAPFRAME
    {
    }

    lemma KeptSame(s: Space, sz: nat)
      requires Owned(s, sz)
      ensures Kept(mem, s, mem, s, PageCount(sz)) && SameTop(s.m, s.m)
    {
    }

    lemma FailedOwned(m0: Memory, free0: set<nat>, s: Space, s': Space, sz: nat)
      requires OwnedIn(m0, s, sz) && free0 !! Holding(s, sz) && Is(s') && s'.m == s.m
      requires SameOutside(m0, mem, free0 + Tables(s.t)) && Free() + Tables(s'.t) == free0 + Tables(s.t)
      ensures Owned(s', sz) && Free() + Holding(s', sz) == free0 + Holding(s, sz)
              && Kept(m0, s, mem, s', PageCount(sz)) && SameTop(s.m, s'.m)
    {
      hide IsTree, Chained, Maps, Tables, Frames;
      FramesIn(s.m, 0, PageCount(sz));
    }

    // ----------------------------------------------------------------
    // Whole runs

    ghost predicate System(ps: map<nat, Proc>, all: set<nat>)
      reads this
    {
      Valid() && SystemIn(mem, Free(), ps, all)
    }

    /** allocproc's memory: a trap frame and a page table; or nothing, exactly when fewer than four pages are free. */
    method Allocproc(trampoline: nat) returns (root: nat, tf: nat, ghost s: Space)
      requires Valid()
      modifies this
      ensures Valid() && SameOutside(old(mem), mem, old(Free()))
      ensures root == 0 ==> Free() == old(Free())
      ensures root != 0 ==> s.t.root == root && Is(s) && Process(s.m, 0) && Topped(s.m, trampoline, tf)
      ensures root != 0 ==>
              tf in mem && tf !in Free() && tf !in Tables(s.t) && Free() + Tables(s.t) + {tf} == old(Free())
      ensures root != 0 <==> |old(free)| >= 4
      ensures root != 0 ==> Places(s.t) == Needs(TRAMPOLINE) && |free| == |old(free)| - 4
    {
      hide IsTree, Chained, Maps, Tables, Places, Needs;
      root := 0;
      tf := Kalloc();
      if tf == 0 {
        s := Space(Tree(0, map[], map[]), map[]);
        return;
      }
      root, s := ProcPagetable(trampoline, tf);
      if root == 0 {
        Kfree(tf);
      }
    }

    /** freeproc's memory. */
    method Freeproc(root: nat, tf: nat, sz: nat, ghost s: Space)
      requires Owned(s, sz) && root == s.t.root && tf in mem && tf !in Free() && tf !in Holding(s, sz)
      modifies this
      ensures Valid() && Free() == old(Free()) + Holding(s, sz) + {tf}
      ensures SameOutside(old(mem), mem, Holding(s, sz) + {tf})
    {
      hide IsTree, Chained, Maps, Tables, Frames, OwnedIn, Private;
      Kfree(tf);
      OwnedFrame(old(mem), mem, s, sz, {tf});
      OwnedParts(s, sz);
      ProcFreepagetable(root, sz, s);
    }

    /**
     fork's memory: a child with the same pages as its parent; or nothing, exactly when the
     free pages do not suffice for the child's trap frame, tables and pages.
     */
    method Fork(parent: nat, sz: nat, trampoline: nat, ghost s: Space) returns (root: nat, tf: nat, ghost d: Space)
      requires Owned(s, sz) && parent == s.t.root
      modifies this
      ensures Valid() && SameOutside(old(mem), mem, old(Free()))
      ensures root == 0 ==> Free() == old(Free())
      ensures root != 0 ==> d.t.root == root && Owned(d, sz) && tf in mem && tf !in Free() && tf !in Holding(d, sz)
      ensures root != 0 ==> Free() + Holding(d, sz) + {tf} == old(Free())
      ensures root != 0 ==> SamePages(mem, s, d, PageCount(sz)) && Topped(d.m, trampoline, tf)
      ensures root != 0 <==> |old(free)| >= ForkCost(PageCount(sz))
    {
      hide IsTree, Chained, Maps, Tables, Frames, OwnedIn, SamePages, Holding, Places, Needs, Cost;
      root, tf, d := Allocproc(trampoline);
      CostOfFork(PageCount(sz));
      if root != 0 {
        CostIs(d.t, PageCount(sz));
        OwnedFrame(old(mem), mem, s, sz, old(Free()));
        var ok;
        ok, d := CopyInto(parent, root, sz, s, d);
        if !ok {
          Freeproc(root, tf, 0, d);
          root := 0;
        }
      }
    }

    lemma SoundOwned(ps: map<nat, Proc>, all: set<nat>, k: nat)
      requires System(ps, all) && k in ps
      ensures var q := ps[k];
              q.s.t.root == k && Owned(q.s, q.sz) && q.tf in mem && q.tf !in Free() && q.tf !in Holding(q.s, q.sz)
      ensures ps[k].sz <= TRAPFRAME * PGSIZE
    {
      hide IsTree, Maps, Chained, Frames, Tables, Different;
    }

    ghost function Now(ps: map<nat, Proc>): Snap
      reads this
    {
      Snap(mem, Free(), ps)
    }

    lemma FreeSize()
      requires Valid()
      ensures |Free()| == |free|
    {
      Sets.MembersSize(free);
      assert Free() == Sets.Members(free);
    }

    lemma NewPages(s: Space, tf: nat)
      ensures Holding(s, 0) == Tables(s.t) && Pages(Proc(s, 0, tf)) == Tables(s.t) + {tf}
    {
      hide Tables;
      assert Frames(s.m, 0, 0) == {};
    }

    /** A new process owns its tables and its trap frame. */
    lemma NewOwned(s: Space)
      requires Is(s) && Process(s.m, 0)
      ensures Owned(s, 0)
    {
      hide IsTree, Chained, Maps, Different, Frames, Tables;
      PrivateNone(s);
      OwnedWhole(s, 0);
    }

    lemma Spawned(m0: Memory, free0: set<nat>, ps: map<nat, Proc>, all: set<nat>, s: Space, tf: nat)
      requires SystemIn(m0, free0, ps, all) && SameOutside(m0, mem, free0) && Is(s) && Process(s.m, 0)
      requires tf in mem && tf !in Free() && tf !in Tables(s.t) && Free() + Tables(s.t) + {tf} == free0
      ensures System(ps[s.t.root := Proc(s, 0, tf)], all)
      ensures Joins(Snap(m0, free0, ps), Now(ps[s.t.root := Proc(s, 0, tf)]), s.t.root)
    {
      hide Sound, OwnedIn, Chained, SystemIn, Maps, IsTree, Tables, Pages, Process, Holding, Free;
      NewOwned(s);
      NewRoot(m0, free0, ps, all, s.t);
      NewPages(s, tf);
      Replacing(m0, free0, ps, all, s.t.root, Proc(s, 0, tf));
      JoinsIs(Snap(m0, free0, ps), Now(ps[s.t.root := Proc(s, 0, tf)]), s.t.root, Proc(s, 0, tf));
    }

    method SpawnStep(trampoline: nat, procs: map<nat, (nat, nat)>, ghost ps: map<nat, Proc>, ghost all: set<nat>)
      returns (procs': map<nat, (nat, nat)>, ghost ps': map<nat, Proc>)
      requires System(ps, all) && Tracks(procs, ps)
      modifies this
      ensures System(ps', all) && Tracks(procs', ps') && OpStep(old(Now(ps)), Spawn(trampoline), Now(ps'))
    {
      hide Sound, OwnedIn, Chained, SystemIn, Maps, IsTree, Tables, Places, Needs, Pages, Process, Tracks;
      hide Grows, Copies, Ends, Joins, Holding, Free, SameOutside;
      FreeSize();
      var root, tf;
      ghost var s;
      root, tf, s := Allocproc(trampoline);
      if root != 0 {
        Spawned(old(mem), old(Free()), ps, all, s, tf);
        procs', ps' := procs[root := (0, tf)], ps[root := Proc(s, 0, tf)];
        TracksAdd(procs, ps, root, Proc(s, 0, tf));
      } else {
        Idle(old(mem), mem, Free(), ps, all);
        procs', ps' := procs, ps;
      }
    }

    /** The state after a step of process k, described by what the step's method promises. */
    lemma Replacing(m0: Memory, free0: set<nat>, ps: map<nat, Proc>, all: set<nat>, k: nat, q: Proc)
      requires SystemIn(m0, free0, ps, all) && SameOutside(m0, mem, free0 + Held(ps, k)) && q.s.t.root == k
      requires Owned(q.s, q.sz) && q.tf in mem && q.tf !in Free() && q.tf !in Holding(q.s, q.sz)
      requires Free() + Holding(q.s, q.sz) + {q.tf} == free0 + Held(ps, k)
      ensures System(ps[k := q], all)
    {
      hide OwnedIn, SystemIn, Holding, Chained;
      Replaced(m0, free0, mem, Free(), ps, all, k, q);
    }

    method GrowStep(k: nat, n: int, procs: map<nat, (nat, nat)>, ghost ps: map<nat, Proc>, ghost all: set<nat>)
      returns (procs': map<nat, (nat, nat)>, ghost ps': map<nat, Proc>)
      requires System(ps, all) && Tracks(procs, ps) && k in procs && -0x8000_0000 <= n < 0x8000_0000
               && |all| <= TRAPFRAME
      modifies this
      ensures System(ps', all) && Tracks(procs', ps') && OpStep(old(Now(ps)), Op.Grow(k, n), Now(ps'))
    {
      hide Sound, OwnedIn, Holding, Chained, SystemIn, Kept, Cost, PageCount, Free;
      ghost var q := ps[k];
      SoundOwned(ps, all, k);
      OutOfReach(mem, Free(), ps, all, k);
      FreeSize();
      var panics, ok, sz;
      ghost var s;
      panics, ok, sz, s := Growproc(k, procs[k].0, n, q.s);
      assert !panics;
      Replacing(old(mem), old(Free()), ps, all, k, Proc(s, sz, q.tf));
      procs', ps' := procs[k := (sz, procs[k].1)], ps[k := Proc(s, sz, q.tf)];
      TracksAdd(procs, ps, k, Proc(s, sz, q.tf));
    }

    method ForkStep(k: nat, trampoline: nat, procs: map<nat, (nat, nat)>, ghost ps: map<nat, Proc>, ghost all: set<nat>)
      returns (procs': map<nat, (nat, nat)>, ghost ps': map<nat, Proc>)
      requires System(ps, all) && Tracks(procs, ps) && k in procs
      modifies this
      ensures System(ps', all) && Tracks(procs', ps') && OpStep(old(Now(ps)), Copy(k, trampoline), Now(ps'))
    {
      hide Sound, OwnedIn, Holding, Chained, SystemIn, SamePages, ForkCost, Joins, Spawns, Grows, Ends, Free;
      SoundOwned(ps, all, k);
      FreeSize();
      var root, tf;
      ghost var d;
      root, tf, d := Fork(k, procs[k].0, trampoline, ps[k].s);
      if root != 0 {
        HoldsTables(d, procs[k].0);
        NewRoot(old(mem), old(Free()), ps, all, d.t);
        Replacing(old(mem), old(Free()), ps, all, root, Proc(d, procs[k].0, tf));
        procs', ps' := procs[root := (procs[k].0, tf)], ps[root := Proc(d, procs[k].0, tf)];
        TracksAdd(procs, ps, root, Proc(d, procs[k].0, tf));
        JoinsIs(old(Now(ps)), Now(ps'), root, Proc(d, procs[k].0, tf));
      } else {
        Idle(old(mem), mem, Free(), ps, all);
        procs', ps' := procs, ps;
      }
    }

    method EndStep(k: nat, procs: map<nat, (nat, nat)>, ghost ps: map<nat, Proc>, ghost all: set<nat>)
      returns (procs': map<nat, (nat, nat)>, ghost ps': map<nat, Proc>)
      requires System(ps, all) && Tracks(procs, ps) && k in procs
      modifies this
      ensures System(ps', all) && Tracks(procs', ps') && procs' == procs - {k} && OpStep(old(Now(ps)), End(k), Now(ps'))
    {
      hide Sound, OwnedIn, Holding, Chained, SystemIn;
      SoundOwned(ps, all, k);
      Freeproc(k, procs[k].1, procs[k].0, ps[k].s);
      Removed(old(mem), old(Free()), mem, ps, all, k);
      assert Free() == old(Free()) + Pages(ps[k]);
      procs', ps' := procs - {k}, ps - {k};
    }

    /** One call, if a process makes it. */
    method Perform(op: Op, procs: map<nat, (nat, nat)>, ghost ps: map<nat, Proc>, ghost all: set<nat>)
      returns (procs': map<nat, (nat, nat)>, ghost ps': map<nat, Proc>)
      requires System(ps, all) && Tracks(procs, ps) && |all| <= TRAPFRAME
      modifies this
      ensures System(ps', all) && Tracks(procs', ps') && OpStep(old(Now(ps)), op, Now(ps'))
    {
      hide SystemIn, Chained, Spawns, Grows, Copies, Ends, ForkCost;
      if Allowed(op, procs) {
        match op
        case Spawn(trampoline) => procs', ps' := SpawnStep(trampoline, procs, ps, all);
        case Grow(k, n) => procs', ps' := GrowStep(k, n, procs, ps, all);
        case Copy(k, trampoline) => procs', ps' := ForkStep(k, trampoline, procs, ps, all);
        case End(k) => procs', ps' := EndStep(k, procs, ps, all);
      } else {
        procs', ps' := procs, ps;
      }
    }

    /**
     Any run of process creation, growth, shrinking, copying and freeing, each succeeding
     exactly when memory suffices, followed by the end of every process still there: in every
     state each page is free or belongs to one process, and in the end every page is free.
     */
    method LifeCycles(ops: seq<Op>) returns (ghost ss: seq<Snap>, ghost ends: seq<Op>)
      requires Valid() && |free| <= TRAPFRAME
      modifies this
      ensures IsRun(ss, ops + ends, old(Free())) && ss[0] == old(Now(map[])) && forall i :: 0 <= i < |ends| ==>
              ends[i].End?
      ensures Valid() && ss[|ops + ends|].ps == map[] && ss[|ops + ends|].free == Free() == old(Free())
    {
      hide SystemIn, Chained, OpStep, IsRun;
      var procs: map<nat, (nat, nat)> := map[];
      ghost var ps: map<nat, Proc>, all := map[], Free();
      SystemStart(mem, Free());
      FreeSize();
      ss, ends := [Now(ps)], [];
      RunOne(Now(ps), all);
      for i := 0 to |ops|
        invariant System(ps, all) && Tracks(procs, ps)
        invariant IsRun(ss, ops[..i], all) && |ss| == i + 1 && ss[0] == old(Now(map[])) && ss[i] == Now(ps)
      {
        procs, ps := Perform(ops[i], procs, ps, all);
        RunMore(ss, ops[..i], all, ops[i], Now(ps));
        assert ops[..i + 1] == ops[..i] + [ops[i]];
        ss := ss + [Now(ps)];
      }
      assert ops[..|ops|] == ops + [] == ops + ends;
      while procs.Keys != {}
        invariant System(ps, all) && Tracks(procs, ps) && forall i :: 0 <= i < |ends| ==> ends[i].End?
        invariant IsRun(ss, ops + ends, all) && |ss| == |ops + ends| + 1 && ss[0] == old(Now(map[]))
                  && ss[|ss| - 1] == Now(ps)
        decreases procs.Keys
      {
        var k := AnyKey(procs);
        procs, ps := EndStep(k, procs, ps, all);
        RunMore(ss, ops + ends, all, End(k), Now(ps));
        assert ops + ends + [End(k)] == ops + (ends + [End(k)]);
        ss, ends := ss + [Now(ps)], ends + [End(k)];
      }
      SystemEnd(mem, Free(), ps, all);
    }
  }

  method AnyKey<V>(m: map<nat, V>) returns (k: nat)
    requires m.Keys != {}
    ensures k in m
  {
    k :| k in m;
  }
}
