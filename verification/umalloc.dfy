/**
 The user-level allocator of user/umalloc.c (Kernighan and Ritchie, section 8.7):
 the abstract free list.

 Addresses count header-sized units of 16 bytes.  The list is kept in address order
 and starts with the static, empty block `base`, which lies below the heap.
 */
module FreeList {

  datatype Blk = Blk(addr: nat, size: nat) {
    function End(): nat {
      addr + size
    }

    predicate Has(u: nat) {
      addr <= u < addr + size
    }
  }

  /** Address order with a gap after every block: no two blocks overlap or touch. */
  ghost predicate Apart(fl: seq<Blk>) {
    forall i, j :: 0 <= i < j < |fl| ==> fl[i].End() < fl[j].addr
  }

  ghost predicate Ordered(fl: seq<Blk>) {
    && Apart(fl)
    && (forall i :: 1 <= i < |fl| ==> fl[i].size > 0)
    && (fl != [] ==> fl[0].size == 0)
  }

  /** Unit u belongs to some block of the list. */
  predicate Has(fl: seq<Blk>, u: nat) {
    fl != [] && (Has(fl[..|fl| - 1], u) || fl[|fl| - 1].Has(u))
  }

  lemma {:induction false} HasAppend(xs: seq<Blk>, ys: seq<Blk>, u: nat)
    ensures Has(xs + ys, u) <==> Has(xs, u) || Has(ys, u)
    decreases |ys|
  {
    if ys == [] {
      assert xs + ys == xs;
    } else {
      assert (xs + ys)[..|xs + ys| - 1] == xs + ys[..|ys| - 1];
      HasAppend(xs, ys[..|ys| - 1], u);
    }
  }

  /** Membership, with the i-th block singled out. */
  lemma HasSplit(fl: seq<Blk>, i: nat, u: nat)
    requires i < |fl|
    ensures Has(fl, u) <==> Has(fl[..i], u) || fl[i].Has(u) || Has(fl[i + 1..], u)
  {
    assert fl == fl[..i + 1] + fl[i + 1..];
    HasAppend(fl[..i + 1], fl[i + 1..], u);
    assert fl[..i + 1][..i] == fl[..i];
  }

  lemma {:induction false} HasWitness(fl: seq<Blk>, u: nat) returns (i: nat)
    requires Has(fl, u)
    ensures i < |fl| && fl[i].Has(u)
  {
    if fl[|fl| - 1].Has(u) {
      i := |fl| - 1;
    } else {
      i := HasWitness(fl[..|fl| - 1], u);
    }
  }

  // ------------------------------------------------------------------
  // free

  /** How many blocks lie below address a: the list position where a block at a belongs. */
  ghost predicate Place(fl: seq<Blk>, a: nat, t: nat) {
    && 0 < t <= |fl|
    && fl[t - 1].addr < a
    && (t < |fl| ==> a < fl[t].addr)
  }

  function Upper(fl: seq<Blk>, b: Blk, t: nat): Blk
    requires t <= |fl|
  {
    if t < |fl| && b.End() == fl[t].addr then Blk(b.addr, b.size + fl[t].size) else b
  }

  function Rest(fl: seq<Blk>, b: Blk, t: nat): seq<Blk>
    requires t <= |fl|
  {
    if t < |fl| && b.End() == fl[t].addr then fl[t + 1..] else fl[t..]
  }

  /** b put at position t, merged with the block above and the block below where they touch. */
  function Insert(fl: seq<Blk>, b: Blk, t: nat): seq<Blk>
    requires 0 < t <= |fl|
  {
    var p, u := fl[t - 1], Upper(fl, b, t);
    if p.End() == b.addr then
      fl[..t - 1] + [Blk(p.addr, p.size + u.size)] + Rest(fl, b, t)
    else
      fl[..t] + [u] + Rest(fl, b, t)
  }

  /** b lies above base and shares no unit with the list. */
  ghost predicate Loose(fl: seq<Blk>, b: Blk) {
    && b.size > 0 && fl != [] && fl[0].addr < b.addr
    && forall i :: 0 <= i < |fl| ==> fl[i].End() <= b.addr || b.End() <= fl[i].addr
  }

  lemma ApartAround(xs: seq<Blk>, m: Blk, ys: seq<Blk>)
    requires Apart(xs) && Apart(ys)
    requires forall i :: 0 <= i < |xs| ==> xs[i].End() < m.addr
    requires forall j :: 0 <= j < |ys| ==> m.End() < ys[j].addr
    ensures Apart(xs + [m] + ys)
  {
  }

  /** A list around one new block, above base, is ordered again. */
  lemma OrderedAround(xs: seq<Blk>, m: Blk, ys: seq<Blk>)
    requires Ordered(xs) && xs != [] && Apart(ys) && m.size > 0
    requires forall i :: 0 <= i < |xs| ==> xs[i].End() < m.addr
    requires forall j :: 0 <= j < |ys| ==> m.End() < ys[j].addr && ys[j].size > 0
    ensures Ordered(xs + [m] + ys)
  {
    ApartAround(xs, m, ys);
  }

  /** The blocks above the insertion point, once b has swallowed the first if they touch. */
  lemma RestApart(fl: seq<Blk>, b: Blk, t: nat)
    requires Ordered(fl) && Loose(fl, b) && Place(fl, b.addr, t)
    ensures var u, rest := Upper(fl, b, t), Rest(fl, b, t);
            && Apart(rest) && u.addr == b.addr && u.size > 0
            && forall j :: 0 <= j < |rest| ==> u.End() < rest[j].addr && rest[j].size > 0
  {
    var rest := Rest(fl, b, t);
    assert rest == fl[|fl| - |rest|..];
    assert t < |fl| ==> b.End() <= fl[t].addr;
  }

  /** The blocks below it. */
  lemma LowerOrdered(fl: seq<Blk>, b: Blk, t: nat)
    requires Ordered(fl) && Loose(fl, b) && Place(fl, b.addr, t)
    ensures fl[t - 1].End() <= b.addr
    ensures fl[t - 1].End() == b.addr ==> t > 1
    ensures Ordered(fl[..t]) && forall i :: 0 <= i < t - 1 ==> fl[i].End() < fl[t - 1].addr
    ensures fl[t - 1].End() < b.addr ==> forall i :: 0 <= i < t ==> fl[..t][i].End() < b.addr
    ensures t > 1 ==> Ordered(fl[..t - 1])
  {
  }

  lemma InsertMerging(fl: seq<Blk>, b: Blk, t: nat)
    requires Ordered(fl) && Loose(fl, b) && Place(fl, b.addr, t) && fl[t - 1].End() == b.addr
    ensures Ordered(Insert(fl, b, t)) && Insert(fl, b, t)[0] == fl[0]
  {
    hide Ordered, Apart, Upper, Rest, Loose;
    RestApart(fl, b, t);
    LowerOrdered(fl, b, t);
    OrderedAround(fl[..t - 1], Blk(fl[t - 1].addr, fl[t - 1].size + Upper(fl, b, t).size), Rest(fl, b, t));
  }

  lemma InsertSeparate(fl: seq<Blk>, b: Blk, t: nat)
    requires Ordered(fl) && Loose(fl, b) && Place(fl, b.addr, t) && fl[t - 1].End() != b.addr
    ensures Ordered(Insert(fl, b, t)) && Insert(fl, b, t)[0] == fl[0]
  {
    hide Ordered, Apart, Upper, Rest, Loose;
    RestApart(fl, b, t);
    LowerOrdered(fl, b, t);
    OrderedAround(fl[..t], Upper(fl, b, t), Rest(fl, b, t));
  }

  lemma InsertOrdered(fl: seq<Blk>, b: Blk, t: nat)
    requires Ordered(fl) && Loose(fl, b) && Place(fl, b.addr, t)
    ensures Ordered(Insert(fl, b, t)) && Insert(fl, b, t)[0] == fl[0]
  {
    if fl[t - 1].End() == b.addr {
      InsertMerging(fl, b, t);
    } else {
      InsertSeparate(fl, b, t);
    }
  }

  lemma UpperHas(fl: seq<Blk>, b: Blk, t: nat, u: nat)
    requires t <= |fl|
    ensures Upper(fl, b, t).Has(u) || Has(Rest(fl, b, t), u) <==> b.Has(u) || Has(fl[t..], u)
  {
    if t < |fl| && b.End() == fl[t].addr {
      HasSplit(fl[t..], 0, u);
      assert fl[t..][1..] == fl[t + 1..];
    }
  }

  /** Insertion adds exactly the units of b. */
  lemma InsertHas(fl: seq<Blk>, b: Blk, t: nat, u: nat)
    requires 0 < t <= |fl|
    ensures Has(Insert(fl, b, t), u) <==> Has(fl, u) || b.Has(u)
  {
    var p, up, rest, r := fl[t - 1], Upper(fl, b, t), Rest(fl, b, t), Insert(fl, b, t);
    UpperHas(fl, b, t, u);
    HasSplit(fl, t - 1, u);
    if p.End() == b.addr {
      HasSplit(r, t - 1, u);
      assert r[..t - 1] == fl[..t - 1] && r[t..] == rest;
    } else {
      HasSplit(r, t, u);
      assert r[..t] == fl[..t] && r[t + 1..] == rest;
      HasSplit(fl[..t], t - 1, u);
      assert fl[..t][..t - 1] == fl[..t - 1] && fl[..t][t..] == [];
    }
  }

  /** After an insertion some block is at least as large as the inserted one. */
  lemma InsertFits(fl: seq<Blk>, b: Blk, t: nat) returns (i: nat)
    requires 0 < t <= |fl|
    ensures i < |Insert(fl, b, t)| && Insert(fl, b, t)[i].size >= b.size
  {
    i := if fl[t - 1].End() == b.addr then t - 1 else t;
  }

  // ------------------------------------------------------------------
  // malloc

  /** The list after n units are taken from the end of block i. */
  function Take(fl: seq<Blk>, i: nat, n: nat): seq<Blk>
    requires i < |fl| && n <= fl[i].size
  {
    if fl[i].size == n then fl[..i] + fl[i + 1..] else fl[i := Blk(fl[i].addr, fl[i].size - n)]
  }

  function Taken(fl: seq<Blk>, i: nat, n: nat): Blk
    requires i < |fl| && n <= fl[i].size
  {
    Blk(fl[i].End() - n, n)
  }

  lemma TakeOrdered(fl: seq<Blk>, i: nat, n: nat)
    requires Ordered(fl) && 0 < i < |fl| && 0 < n <= fl[i].size
    ensures Ordered(Take(fl, i, n)) && Take(fl, i, n)[0] == fl[0]
  {
  }

  /** Taking removes exactly the units of the block handed out, which all were on the list. */
  lemma TakeHas(fl: seq<Blk>, i: nat, n: nat, u: nat)
    requires Ordered(fl) && 0 < i < |fl| && 0 < n <= fl[i].size
    ensures Has(Take(fl, i, n), u) <==> Has(fl, u) && !Taken(fl, i, n).Has(u)
    ensures Taken(fl, i, n).Has(u) ==> Has(fl, u)
  {
    HasSplit(fl, i, u);
    if fl[i].size == n {
      HasAppend(fl[..i], fl[i + 1..], u);
    } else {
      var r := Take(fl, i, n);
      HasSplit(r, i, u);
      assert r[..i] == fl[..i] && r[i + 1..] == fl[i + 1..];
    }
    if Has(fl[..i], u) {
      var j := HasWitness(fl[..i], u);
    }
    if Has(fl[i + 1..], u) {
      var j := HasWitness(fl[i + 1..], u);
    }
  }
}

/** malloc and free of user/umalloc.c on header memory. */
module KrMalloc {
  import opened FreeList

  const UNIT: nat := 16 // sizeof(Header)

  datatype Header = Header(ptr: nat, size: nat)

  type Memory = map<nat, Header>

  // ------------------------------------------------------------------
  // The circle

  /** From the block after place `at` round to the one before k, no block has n units. */
  ghost predicate PassedOver(fl: seq<Blk>, at: nat, k: nat, n: nat) {
    forall j :: 0 <= j < |fl| && (if k > at then at < j < k else j > at || j < k) ==> fl[j].size < n
  }

  function Next(i: nat, n: nat): nat {
    if i + 1 < n then i + 1 else 0
  }

  ghost predicate Linked(hdr: Memory, fl: seq<Blk>, i: nat)
    requires i < |fl|
  {
    fl[i].addr in hdr && hdr[fl[i].addr] == Header(fl[Next(i, |fl|)].addr, fl[i].size)
  }

  /** The headers in memory link exactly the blocks of fl, in order and back to the first. */
  ghost predicate Circle(hdr: Memory, fl: seq<Blk>) {
    forall i :: 0 <= i < |fl| ==> Linked(hdr, fl, i)
  }

  /** free's header writes once p is found: first bp, then p. */
  function FreeUpper(hdr: Memory, p: nat, bp: nat): Memory
    requires p in hdr && bp in hdr && hdr[p].ptr in hdr
  {
    var q := hdr[p].ptr;
    if bp + hdr[bp].size == q then
      hdr[bp := Header(hdr[q].ptr, hdr[bp].size + hdr[q].size)]
    else
      hdr[bp := Header(q, hdr[bp].size)]
  }

  function FreeLower(hdr: Memory, p: nat, bp: nat): Memory
    requires p in hdr && bp in hdr
  {
    if p + hdr[p].size == bp then
      hdr[p := Header(hdr[bp].ptr, hdr[p].size + hdr[bp].size)]
    else
      hdr[p := Header(bp, hdr[p].size)]
  }

  /** What memory holds at b after the first write: b merged with the block above, pointing at the rest. */
  lemma UpperHeader(hdr: Memory, fl: seq<Blk>, b: Blk, t: nat)
    requires Ordered(fl) && Circle(hdr, fl) && Loose(fl, b) && Place(fl, b.addr, t)
    requires b.addr in hdr && hdr[b.addr].size == b.size
    ensures var p := fl[t - 1].addr;
            && p in hdr && hdr[p].ptr in hdr && hdr[p].size == fl[t - 1].size && p != b.addr
            && FreeUpper(hdr, p, b.addr)
               == hdr[b.addr := Header(if Rest(fl, b, t) == [] then fl[0].addr else Rest(fl, b, t)[0].addr,
                                       Upper(fl, b, t).size)]
  {
    assert Linked(hdr, fl, t - 1) && Linked(hdr, fl, Next(t - 1, |fl|));
  }

  /** Where a block other than b and its lower neighbour was before the insertion, and its successor. */
  lemma InsertIndex(fl: seq<Blk>, b: Blk, t: nat, i: nat)
    requires Loose(fl, b) && Place(fl, b.addr, t)
    requires i < |Insert(fl, b, t)| && Insert(fl, b, t)[i].addr != b.addr && i != t - 1
    ensures var r := Insert(fl, b, t);
            var j := if i < t then i else i + |fl| - |r|;
            && 0 <= j < |fl| && j != t - 1 && r[i] == fl[j]
            && r[Next(i, |r|)].addr == fl[Next(j, |fl|)].addr
  {
    var r, rest := Insert(fl, b, t), Rest(fl, b, t);
    assert rest == fl[|fl| - |rest|..];
    if i < t {
      assert r[i + 1].addr == fl[i + 1].addr;
    } else {
      assert i >= |r| - |rest|;
      assert r[|r| - |rest|..] == rest;
      assert r[i] == rest[i - (|r| - |rest|)];
      assert i + 1 < |r| ==> r[i + 1] == rest[i + 1 - (|r| - |rest|)];
    }
  }

  /** Blocks other than b and its lower neighbour keep their links. */
  lemma OthersLinked(hdr: Memory, h: Memory, fl: seq<Blk>, b: Blk, t: nat, i: nat)
    requires Ordered(fl) && Circle(hdr, fl) && Loose(fl, b) && Place(fl, b.addr, t)
    requires i < |Insert(fl, b, t)| && Insert(fl, b, t)[i].addr != b.addr && i != t - 1
    requires forall a :: a in hdr && a != b.addr && a != fl[t - 1].addr ==> a in h && h[a] == hdr[a]
    ensures Linked(h, Insert(fl, b, t), i)
  {
    InsertIndex(fl, b, t, i);
    var j := if i < t then i else i + |fl| - |Insert(fl, b, t)|;
    assert Linked(hdr, fl, j);
    assert fl[j].addr != fl[t - 1].addr;
    hide Insert, Circle, Apart, Loose;
  }

  /** The merged block and its lower neighbour are linked as written. */
  lemma NeighboursLinked(hdr: Memory, fl: seq<Blk>, b: Blk, t: nat, i: nat)
    requires Ordered(fl) && Loose(fl, b) && Place(fl, b.addr, t)
    requires i < |Insert(fl, b, t)| && (i == t - 1 || Insert(fl, b, t)[i].addr == b.addr)
    requires var p := fl[t - 1].addr;
             && p in hdr && b.addr in hdr && p != b.addr && hdr[p].size == fl[t - 1].size
             && hdr[b.addr] == Header(if Rest(fl, b, t) == [] then fl[0].addr else Rest(fl, b, t)[0].addr,
                                      Upper(fl, b, t).size)
    ensures Linked(FreeLower(hdr, fl[t - 1].addr, b.addr), Insert(fl, b, t), i)
  {
    InsertOrdered(fl, b, t);
    var r := Insert(fl, b, t);
    assert r[0] == fl[0];
    if fl[t - 1].End() == b.addr {
      assert i == t - 1;
    } else {
      assert r[t].addr == b.addr;
      assert i == t - 1 || i == t;
    }
  }

  /** The header writes of free put the block at its place on the circle. */
  lemma FreeCircle(hdr: Memory, fl: seq<Blk>, b: Blk, t: nat)
    requires Ordered(fl) && Circle(hdr, fl) && Loose(fl, b) && Place(fl, b.addr, t)
    requires b.addr in hdr && hdr[b.addr].size == b.size
    ensures var p := fl[t - 1].addr;
            && p in hdr && hdr[p].ptr in hdr
            && Circle(FreeLower(FreeUpper(hdr, p, b.addr), p, b.addr), Insert(fl, b, t))
  {
    var p := fl[t - 1].addr;
    UpperHeader(hdr, fl, b, t);
    var h, r := FreeLower(FreeUpper(hdr, p, b.addr), p, b.addr), Insert(fl, b, t);
    forall i | 0 <= i < |r| ensures Linked(h, r, i) {
      if r[i].addr != b.addr && i != t - 1 {
        OthersLinked(hdr, h, fl, b, t, i);
      } else {
        NeighboursLinked(FreeUpper(hdr, p, b.addr), fl, b, t, i);
      }
    }
  }

  /** malloc's header writes when block p, found after prevp, has room for n units. */
  function TakeWrites(hdr: Memory, prevp: nat, p: nat, n: nat): Memory
    requires prevp in hdr && p in hdr && n <= hdr[p].size
  {
    if hdr[p].size == n then
      hdr[prevp := Header(hdr[p].ptr, hdr[prevp].size)]
    else
      var q := p + hdr[p].size - n;
      var h := hdr[p := Header(hdr[p].ptr, hdr[p].size - n)];
      h[q := Header(if q in h then h[q].ptr else 0, n)]
  }

  lemma UnlinkIndex(fl: seq<Blk>, i: nat, k: nat)
    requires 0 < i < |fl| && k < |fl| - 1
    ensures var r := fl[..i] + fl[i + 1..];
            var j := if k < i then k else k + 1;
            && r[k] == fl[j]
            && (k != i - 1 ==> r[Next(k, |r|)].addr == fl[Next(j, |fl|)].addr)
            && (k == i - 1 ==> r[Next(k, |r|)].addr == fl[Next(i, |fl|)].addr)
  {
  }

  lemma UnlinkCircle(hdr: Memory, fl: seq<Blk>, i: nat)
    requires Ordered(fl) && Circle(hdr, fl) && 0 < i < |fl|
    ensures fl[i - 1].addr in hdr && fl[i].addr in hdr
    ensures Circle(hdr[fl[i - 1].addr := Header(hdr[fl[i].addr].ptr, hdr[fl[i - 1].addr].size)], fl[..i] + fl[i + 1..])
  {
    assert Linked(hdr, fl, i - 1) && Linked(hdr, fl, i);
    var h, r := hdr[fl[i - 1].addr := Header(hdr[fl[i].addr].ptr, hdr[fl[i - 1].addr].size)], fl[..i] + fl[i + 1..];
    forall k | 0 <= k < |r| ensures Linked(h, r, k) {
      UnlinkIndex(fl, i, k);
      var j := if k < i then k else k + 1;
      assert Linked(hdr, fl, j);
      assert k != i - 1 ==> fl[j].addr != fl[i - 1].addr;
    }
  }

  lemma ShrinkCircle(hdr: Memory, fl: seq<Blk>, i: nat, n: nat, x: Header)
    requires Ordered(fl) && Circle(hdr, fl) && 0 < i < |fl| && 0 < n < fl[i].size
    ensures fl[i].addr in hdr
    ensures Circle(hdr[fl[i].addr := Header(hdr[fl[i].addr].ptr, fl[i].size - n)][fl[i].End() - n := x],
                   fl[i := Blk(fl[i].addr, fl[i].size - n)])
  {
    assert Linked(hdr, fl, i);
    var h := hdr[fl[i].addr := Header(hdr[fl[i].addr].ptr, fl[i].size - n)][fl[i].End() - n := x];
    var r := fl[i := Blk(fl[i].addr, fl[i].size - n)];
    forall k | 0 <= k < |r| ensures Linked(h, r, k) {
      assert Linked(hdr, fl, k);
    }
  }

  /** A block is unlinked, or keeps its place with fewer units. */
  lemma TakeCircle(hdr: Memory, fl: seq<Blk>, i: nat, n: nat)
    requires Ordered(fl) && Circle(hdr, fl) && 0 < i < |fl| && 0 < n <= fl[i].size
    ensures fl[i - 1].addr in hdr && fl[i].addr in hdr && hdr[fl[i].addr].size == fl[i].size
    ensures fl[i - 1].addr != fl[i].addr
    ensures var h := TakeWrites(hdr, fl[i - 1].addr, fl[i].addr, n);
            && Circle(h, Take(fl, i, n))
            && Taken(fl, i, n).addr in h && h[Taken(fl, i, n).addr].size == n
  {
    assert Linked(hdr, fl, i - 1) && Linked(hdr, fl, i);
    if fl[i].size == n {
      UnlinkCircle(hdr, fl, i);
      assert fl[i - 1].addr != fl[i].addr;
    } else {
      var q := fl[i].End() - n;
      var h := hdr[fl[i].addr := Header(hdr[fl[i].addr].ptr, fl[i].size - n)];
      ShrinkCircle(hdr, fl, i, n, Header(if q in h then h[q].ptr else 0, n));
    }
  }

  // ------------------------------------------------------------------
  // Requests and sbrk

  /** nunits: the header and enough units for nbytes. */
  function NUnits(nbytes: nat): nat {
    (nbytes + UNIT - 1) / UNIT + 1
  }

  /** The conversion of nu * sizeof(Header) to sbrk's int parameter. */
  function SbrkArg(nu: nat): int {
    var low := nu * UNIT % 0x1_0000_0000;
    if low < 0x8000_0000 then low else low - 0x1_0000_0000
  }

  function CoreRequest(nunits: nat): nat {
    if nunits < 4096 then 4096 else nunits
  }

  /** The largest request morecore can serve. */
  const MAX_REQUEST: nat := 0x7FFF_FFE0

  /** sbrk is asked for the units morecore then hands out exactly up to MAX_REQUEST bytes; beyond, for fewer. */
  lemma SbrkArgExact(nbytes: nat)
    requires nbytes < 0x1_0000_0000
    ensures SbrkArg(CoreRequest(NUnits(nbytes))) >= NUnits(nbytes) * UNIT <==> nbytes <= MAX_REQUEST
    ensures nbytes <= MAX_REQUEST ==> SbrkArg(CoreRequest(NUnits(nbytes))) == CoreRequest(NUnits(nbytes)) * UNIT
  {
  }

  lemma CoreFits(nbytes: nat)
    requires nbytes <= MAX_REQUEST
    ensures CoreRequest(NUnits(nbytes)) * UNIT < 0x8000_0000
  {
  }

  /**
   n units at q were handed out from the end of block k, the first that is large enough after
   place `at`; the next search starts after the block before it.
   */
  ghost predicate NextFit(fl: seq<Blk>, at: nat, n: nat, k: nat, q: nat, fl': seq<Blk>, at': nat) {
    && 0 < k < |fl| && fl[k].size >= n && PassedOver(fl, at, k, n)
    && q + n == fl[k].addr + fl[k].size && fl' == Take(fl, k, n) && at' == k - 1
  }

  // ------------------------------------------------------------------
  // Live blocks

  ghost predicate LiveHas(live: map<nat, nat>, u: nat) {
    exists a :: a in live && a <= u < a + live[a]
  }

  ghost predicate LiveApart(live: map<nat, nat>) {
    && (forall a :: a in live ==> live[a] > 0)
    && forall a, b :: a in live && b in live && a < b ==> a + live[a] <= b
  }

  /** Free and live blocks share no unit and together are exactly the units from sbrk. */
  ghost predicate Partition(core: seq<Blk>, fl: seq<Blk>, live: map<nat, nat>) {
    forall u: nat ::
      && (Has(core, u) <==> Has(fl, u) || LiveHas(live, u))
      && !(Has(fl, u) && LiveHas(live, u))
  }

  /** Every unit of core lies strictly between lo and hi. */
  ghost predicate Within(core: seq<Blk>, lo: nat, hi: nat) {
    forall u: nat :: Has(core, u) ==> lo < u < hi
  }

  /** The header of every live block still holds its size. */
  ghost predicate Sized(hdr: Memory, live: map<nat, nat>) {
    forall a :: a in live ==> a in hdr && hdr[a].size == live[a]
  }

  lemma {:induction false} HasMember(fl: seq<Blk>, i: nat, u: nat)
    requires i < |fl| && fl[i].Has(u)
    ensures Has(fl, u)
  {
    HasSplit(fl, i, u);
  }

  /** A live block shares no unit with the free list. */
  lemma LiveLoose(core: seq<Blk>, fl: seq<Blk>, live: map<nat, nat>, a: nat)
    requires Partition(core, fl, live) && LiveApart(live) && a in live
    requires fl != [] && Ordered(fl) && fl[0].addr < a
    ensures Loose(fl, Blk(a, live[a]))
  {
    var b := Blk(a, live[a]);
    forall i | 0 <= i < |fl| ensures fl[i].End() <= b.addr || b.End() <= fl[i].addr {
      if fl[i].addr < b.End() && b.addr < fl[i].End() {
        var u := if fl[i].addr < a then a else fl[i].addr;
        assert LiveHas(live, u);
        HasMember(fl, i, u);
      }
    }
  }

  lemma LiveRemoved(live: map<nat, nat>, a: nat, u: nat)
    requires LiveApart(live) && a in live
    ensures LiveHas(live - {a}, u) <==> LiveHas(live, u) && !(a <= u < a + live[a])
  {
    if LiveHas(live, u) && !(a <= u < a + live[a]) {
      var b :| b in live && b <= u < b + live[b];
      assert b in live - {a};
    }
  }

  lemma LiveAdded(live: map<nat, nat>, a: nat, n: nat, u: nat)
    requires a !in live
    ensures LiveHas(live[a := n], u) <==> LiveHas(live, u) || a <= u < a + n
  {
    var more := live[a := n];
    if LiveHas(live, u) {
      var b :| b in live && b <= u < b + live[b];
      assert b in more && more[b] == live[b];
    } else if a <= u < a + n {
      assert a in more;
    }
  }

  /** free: the units of a block pass from the live ones to the list. */
  lemma FreePartition(core: seq<Blk>, fl: seq<Blk>, live: map<nat, nat>, a: nat, t: nat)
    requires Partition(core, fl, live) && LiveApart(live) && a in live && 0 < t <= |fl|
    ensures Partition(core, Insert(fl, Blk(a, live[a]), t), live - {a}) && LiveApart(live - {a})
  {
    forall u: nat
      ensures Has(core, u) <==> Has(Insert(fl, Blk(a, live[a]), t), u) || LiveHas(live - {a}, u)
      ensures !(Has(Insert(fl, Blk(a, live[a]), t), u) && LiveHas(live - {a}, u))
    {
      InsertHas(fl, Blk(a, live[a]), t, u);
      LiveRemoved(live, a, u);
      if a <= u < a + live[a] {
        assert LiveHas(live, u);
      }
    }
  }

  /** malloc: the units of a block pass from the list to the live ones. */
  lemma TakePartition(core: seq<Blk>, fl: seq<Blk>, live: map<nat, nat>, i: nat, n: nat)
    requires Partition(core, fl, live) && LiveApart(live)
    requires Ordered(fl) && 0 < i < |fl| && 0 < n <= fl[i].size
    ensures var b := Taken(fl, i, n);
            b.addr !in live && Partition(core, Take(fl, i, n), live[b.addr := n]) && LiveApart(live[b.addr := n])
  {
    var b := Taken(fl, i, n);
    forall u: nat | b.Has(u) ensures Has(fl, u) && !LiveHas(live, u) {
      TakeHas(fl, i, n, u);
    }
    forall a | a in live ensures a + live[a] <= b.addr || b.End() <= a {
      if a < b.End() && b.addr < a + live[a] {
        var u := if a < b.addr then b.addr else a;
        assert b.Has(u) && LiveHas(live, u);
      }
    }
    forall u: nat
      ensures Has(core, u) <==> Has(Take(fl, i, n), u) || LiveHas(live[b.addr := n], u)
      ensures !(Has(Take(fl, i, n), u) && LiveHas(live[b.addr := n], u))
    {
      TakeHas(fl, i, n, u);
      LiveAdded(live, b.addr, n, u);
    }
  }

  /** sbrk: a region above everything else, handed to free as if it were live. */
  lemma CorePartition(core: seq<Blk>, fl: seq<Blk>, live: map<nat, nat>, p: nat, n: nat)
    requires Partition(core, fl, live) && LiveApart(live) && n > 0
    requires forall u: nat :: Has(core, u) ==> u < p
    ensures p !in live && Partition(core + [Blk(p, n)], fl, live[p := n]) && LiveApart(live[p := n])
  {
    forall a | a in live ensures a + live[a] <= p {
      assert LiveHas(live, a + live[a] - 1);
      assert Has(core, a + live[a] - 1);
    }
    forall u: nat
      ensures Has(core + [Blk(p, n)], u) <==> Has(fl, u) || LiveHas(live[p := n], u)
      ensures !(Has(fl, u) && LiveHas(live[p := n], u))
    {
      assert (core + [Blk(p, n)])[..|core|] == core;
      LiveAdded(live, p, n, u);
    }
  }

  // ------------------------------------------------------------------
  // The allocator

  class Heap {
    const base: nat          // &base
    var hdr: Memory
    var freep: nat           // 0 before the first malloc
    var brk: nat             // first unit above the process's memory
    ghost var fl: seq<Blk>   // the free list, in address order, base first
    ghost var at: nat        // freep's place on it
    ghost var live: map<nat, nat>
    ghost var core: seq<Blk> // regions obtained from sbrk

    ghost predicate Valid()
      reads this
    {
      && 0 < base < brk
      && Within(core, base, brk)
      && (freep == 0 ==> fl == [] && live == map[] && core == [])
      && (freep != 0 ==> fl != [] && fl[0] == Blk(base, 0) && at < |fl| && fl[at].addr == freep)
      && Ordered(fl) && Circle(hdr, fl)
      && LiveApart(live) && Partition(core, fl, live)
      && Sized(hdr, live)
    }

    constructor (base: nat, brk: nat)
      requires 0 < base < brk
      ensures Valid() && freep == 0 && this.base == base && live == map[]
    {
      this.base, this.brk := base, brk;
      hdr, freep := map[], 0;
      fl, at, live, core := [], 0, map[], [];
    }

    /** Live headers lie in core, above base, and are not headers of free blocks. */
    lemma LiveAbove(a: nat)
      requires Valid() && a in live
      ensures freep != 0 && base < a && a in hdr && hdr[a].size == live[a]
      ensures forall i :: 0 <= i < |fl| ==> fl[i].addr != a
    {
      assert LiveHas(live, a);
      assert Has(core, a);
      LiveLoose(core, fl, live, a);
    }

    /** free's search: the block p after which bp belongs. */
    method FindPlace(bp: nat) returns (p: nat, ghost t: nat)
      requires Valid() && bp in live
      ensures Place(fl, bp, t) && p == fl[t - 1].addr && p > 0
    {
      LiveAbove(bp);
      LiveLoose(core, fl, live, bp);
      t := PlaceOf(fl, bp);
      ghost var k: nat, n := at, |fl|;
      p := freep;
      assert Linked(hdr, fl, k);
      while !(bp > p && bp < hdr[p].ptr)
        invariant k < n && p == fl[k].addr && Linked(hdr, fl, k)
        decreases if k < t then t - 1 - k else t - 1 + n - k
      {
        if p >= hdr[p].ptr && (bp > p || bp < hdr[p].ptr) {
          break;
        }
        p := hdr[p].ptr;
        k := Next(k, n);
        assert Linked(hdr, fl, k);
      }
    }

    /** free: the block goes back to its place on the list, merged with its neighbours where they touch. */
    method Free(ap: nat) returns (ghost t: nat)
      requires Valid() && ap > 0 && ap - 1 in live
      modifies this
      ensures Valid() && live == old(live) - {ap - 1} && core == old(core) && brk == old(brk)
      ensures Place(old(fl), ap - 1, t) && fl == Insert(old(fl), Blk(ap - 1, old(live)[ap - 1]), t)
      ensures freep != 0 && at == t - 1
    {
      hide Partition, Ordered, Circle, LiveApart, Insert, Loose, Has, Within, Sized;
      var bp := ap - 1;
      LiveAbove(bp);
      var p;
      p, t := FindPlace(bp);
      ghost var b := Blk(bp, live[bp]);
      LiveLoose(core, fl, live, bp);
      FreeCircle(hdr, fl, b, t);
      InsertOrdered(fl, b, t);
      InsertKeepsLower(fl, b, t);
      FreePartition(core, fl, live, bp, t);
      forall a | a in live ensures a != p {
        LiveAbove(a);
      }
      FreeSized(hdr, live, p, bp);
      if bp + hdr[bp].size == hdr[p].ptr {
        hdr := hdr[bp := Header(hdr[hdr[p].ptr].ptr, hdr[bp].size + hdr[hdr[p].ptr].size)];
      } else {
        hdr := hdr[bp := Header(hdr[p].ptr, hdr[bp].size)];
      }
      if p + hdr[p].size == bp {
        hdr := hdr[p := Header(hdr[bp].ptr, hdr[p].size + hdr[bp].size)];
      } else {
        hdr := hdr[p := Header(bp, hdr[p].size)];
      }
      assert hdr == FreeLower(FreeUpper(old(hdr), p, bp), p, bp);
      freep := p;
      fl, live, at := Insert(fl, b, t), live - {bp}, t - 1;
    }

    /** The kernel's answer to sbrk(bytes): no memory, or a fresh region above everything the process has. */
    method Sbrk(bytes: int) returns (p: nat)
      requires bytes >= 0 && bytes % UNIT == 0
      modifies this`brk
      ensures p == 0 ==> brk == old(brk)
      ensures p != 0 ==> p >= old(brk) && brk == p + bytes / UNIT
    {
      var granted: bool := *;
      var gap: int :| gap >= 0;
      if granted && brk + gap > 0 {
        p := brk + gap;
        brk := p + bytes / UNIT;
      } else {
        p := 0;
      }
    }

    /** morecore: the new region is freed onto the list, which then has a block of nu units. */
    method Morecore(nu: nat) returns (r: nat, ghost fit: nat)
      requires Valid() && freep != 0 && 0 < nu && CoreRequest(nu) * UNIT < 0x8000_0000
      modifies this
      ensures Valid() && live == old(live) && freep != 0
      ensures r == 0 ==> core == old(core) && fl == old(fl) && brk == old(brk)
      ensures r != 0 ==> r == freep && |core| == |old(core)| + 1 && core[..|old(core)|] == old(core)
      ensures r != 0 ==> core[|old(core)|].size == if nu < 4096 then 4096 else nu
      ensures r != 0 ==> fit < |fl| && fl[fit].size >= nu
    {
      hide Partition, Ordered, Circle, LiveApart, Insert, Sized;
      var n := if nu < 4096 then 4096 else nu;
      assert SbrkArg(n) == n * UNIT;
      var p := Sbrk(SbrkArg(n));
      fit := 0;
      if p == 0 {
        return 0, 0;
      }
      Adopt(p, n);
      ghost var t := Free(p + 1);
      fit := InsertFits(old(fl), Blk(p, n), t);
      r := freep;
      assert core[..|old(core)|] == old(core);
      assert live == old(live);
    }

    /** A region from sbrk, with its size in its header, is a live block until it is freed. */
    method Adopt(p: nat, n: nat)
      requires 0 < n && 0 < base && freep != 0 && p + n <= brk
      requires fl != [] && fl[0] == Blk(base, 0) && at < |fl| && fl[at].addr == freep
      requires Ordered(fl) && Circle(hdr, fl) && LiveApart(live) && Partition(core, fl, live) && Sized(hdr, live)
      requires base < p && Within(core, base, p)
      modifies this`hdr, this`live, this`core
      ensures Valid() && p !in old(live) && live == old(live)[p := n] && core == old(core) + [Blk(p, n)]
    {
      CorePartition(core, fl, live, p, n);
      forall i | 0 <= i < |fl| ensures fl[i].addr < p {
        if i > 0 {
          HasMember(fl, i, fl[i].addr);
        }
      }
      hdr := hdr[p := Header(if p in hdr then hdr[p].ptr else 0, n)];
      forall i | 0 <= i < |fl| ensures Linked(hdr, fl, i) {
        assert Linked(old(hdr), fl, i);
      }
      assert (core + [Blk(p, n)])[..|core|] == core;
      live, core := live[p := n], core + [Blk(p, n)];
    }

    /** The first malloc makes a circle of base alone. */
    method Init()
      requires Valid() && freep == 0
      modifies this
      ensures Valid() && freep == base && live == old(live) && core == old(core) && brk == old(brk)
      ensures fl == [Blk(base, 0)] && at == 0
    {
      hdr := hdr[base := Header(base, 0)];
      freep := base;
      fl, at := [Blk(base, 0)], 0;
      assert Linked(hdr, fl, 0);
      assert fl[..0] == [];
    }

    /** The block p, at place i of the list, has room: hand out its last n units. */
    method Carve(prevp: nat, p: nat, n: nat, ghost i: nat) returns (r: nat)
      requires Valid() && freep != 0 && 0 < n
      requires 0 < i < |fl| && p == fl[i].addr && prevp == fl[i - 1].addr && fl[i].size >= n
      modifies this
      ensures Valid() && r > 0 && r - 1 !in old(live) && live == old(live)[r - 1 := n]
      ensures fl == Take(old(fl), i, n) && r - 1 == Taken(old(fl), i, n).addr
      ensures core == old(core) && brk == old(brk) && at == i - 1
    {
      hide Partition, Ordered, Circle, LiveApart, Within, Sized;
      LinkAt(i - 1);
      TakeCircle(hdr, fl, i, n);
      TakeOrdered(fl, i, n);
      TakePartition(core, fl, live, i, n);
      forall a | a in live ensures a != p && a != prevp {
        LiveAbove(a);
      }
      TakeSized(hdr, live, prevp, p, n);
      var q := p;
      if hdr[p].size == n {
        hdr := hdr[prevp := Header(hdr[p].ptr, hdr[prevp].size)];
      } else {
        hdr := hdr[p := Header(hdr[p].ptr, hdr[p].size - n)];
        q := q + hdr[p].size;
        hdr := hdr[q := Header(if q in hdr then hdr[q].ptr else 0, n)];
      }
      assert hdr == TakeWrites(old(hdr), prevp, p, n);
      freep := prevp;
      r := q + 1;
      fl, live, at := Take(fl, i, n), live[q := n], i - 1;
    }

    /** A search that started after freep and now looks at place k has passed only blocks below n units. */
    ghost predicate Searched(k: nat, n: nat)
      reads this
    {
      PassedOver(fl, at, k, n)
    }

    lemma SearchStart(n: nat)
      requires at < |fl|
      ensures Searched(Next(at, |fl|), n)
    {
    }

    lemma SearchIs(k: nat, n: nat)
      requires Searched(k, n)
      ensures PassedOver(fl, at, k, n)
    {
    }

    lemma SearchOn(k: nat, n: nat)
      requires at < |fl| && k < |fl| && k != at && Searched(k, n) && fl[k].size < n
      ensures Searched(Next(k, |fl|), n)
    {
    }

    lemma SearchLap(n: nat)
      requires at < |fl| && Searched(at, n) && fl[at].size < n
      ensures forall j :: 0 <= j < |fl| ==> fl[j].size < n
    {
    }

    /**
     malloc.  The result is a new live block with room for nbytes (Valid says it meets
     no other block); memory is asked for only when no free block is large enough, and
     the search ends within one lap of a successful morecore.  `short` says that it comes
     to ask sbrk for less than it would then take for granted; the model stops there.
     */
    method Malloc(nbytes: nat) returns (short: bool, r: nat, ghost from: nat)
      requires Valid() && nbytes < 0x1_0000_0000
      modifies this
      ensures Valid()
      ensures short <==> nbytes > MAX_REQUEST && forall i :: 0 <= i < |old(fl)| ==> old(fl)[i].size < NUnits(nbytes)
      ensures short ==> r == 0 && SbrkArg(CoreRequest(NUnits(nbytes))) < NUnits(nbytes) * UNIT
      ensures r == 0 ==> live == old(live) && core == old(core) && brk == old(brk)
      ensures r != 0 ==> r - 1 !in old(live) && live == old(live)[r - 1 := NUnits(nbytes)]
      ensures r != 0 ==> nbytes <= (live[r - 1] - 1) * UNIT < nbytes + UNIT
      ensures r != 0 ==> |old(core)| <= |core| <= |old(core)| + 1 && core[..|old(core)|] == old(core)
      ensures |core| > |old(core)| ==> core[|old(core)|].size == if NUnits(nbytes) < 4096 then 4096 else NUnits(nbytes)
      ensures r != 0 && core == old(core) ==> NextFit(old(fl), old(at), NUnits(nbytes), from, r - 1, fl, at)
      ensures (exists i :: 0 <= i < |old(fl)| && old(fl)[i].size >= NUnits(nbytes)) ==> r != 0 && core == old(core)
    {
      hide Partition, Ordered, Circle, LiveApart, Within, Sized, Has, CoreRequest, SbrkArg;
      var nunits := (nbytes + UNIT - 1) / UNIT + 1;
      SbrkArgExact(nbytes);
      if nbytes <= MAX_REQUEST {
        CoreFits(nbytes);
      }
      if freep == 0 {
        Init();
      }
      short, r, from := Search(nunits, nbytes <= MAX_REQUEST);
    }

    /** malloc's loop; a request that is not `fair` stops where it would call morecore. */
    method Search(nunits: nat, fair: bool) returns (short: bool, r: nat, ghost from: nat)
      requires Valid() && freep != 0 && 0 < nunits && (fair ==> CoreRequest(nunits) * UNIT < 0x8000_0000)
      modifies this
      ensures Valid()
      ensures short <==> !fair && forall i :: 0 <= i < |old(fl)| ==> old(fl)[i].size < nunits
      ensures short ==> r == 0
      ensures r == 0 ==> live == old(live) && core == old(core) && brk == old(brk)
      ensures r != 0 ==> r - 1 !in old(live) && live == old(live)[r - 1 := nunits]
      ensures r != 0 ==> |old(core)| <= |core| <= |old(core)| + 1 && core[..|old(core)|] == old(core)
      ensures |core| > |old(core)| ==> core[|old(core)|].size == if nunits < 4096 then 4096 else nunits
      ensures (exists i :: 0 <= i < |old(fl)| && old(fl)[i].size >= nunits) ==> r != 0 && core == old(core)
      ensures r != 0 && core == old(core) ==> NextFit(old(fl), old(at), nunits, from, r - 1, fl, at)
    {
      hide Partition, Ordered, Circle, LiveApart, Within, Sized, Has, Searched, PassedOver, CoreRequest;
      short, from := false, 0;
      var prevp := freep;
      LinkAt(at);
      SearchStart(nunits);
      var p := hdr[prevp].ptr;
      ghost var pk: nat, k: nat, fit: nat, grown := at, Next(at, |fl|), 0, false;
      while true
        invariant Valid() && freep != 0 && live == old(live)
        invariant pk < |fl| && k == Next(pk, |fl|) && p == fl[k].addr && prevp == fl[pk].addr
        invariant Searched(k, nunits)
        invariant !grown ==> core == old(core) && old(fl) == fl && old(at) == at && brk == old(brk)
        invariant |core| >= |old(core)| && core[..|old(core)|] == old(core)
        invariant grown ==> |core| == |old(core)| + 1
        invariant grown ==> core[|old(core)|].size == if nunits < 4096 then 4096 else nunits
        invariant grown ==> fair && fit < |fl| && fl[fit].size >= nunits
        invariant grown ==> forall i :: 0 <= i < |old(fl)| ==> old(fl)[i].size < nunits
        decreases !grown, if k <= at then at - k else at + |fl| - k
      {
        LinkAt(k);
        if hdr[p].size >= nunits {
          BaseEmpty();
          assert !grown ==> old(fl)[k].size >= nunits;
          from := k;
          SearchIs(k, nunits);
          r := Carve(prevp, p, nunits, k);
          return;
        }
        if p == freep {
          PlaceUnique(k);
          SearchLap(nunits);
          assert !grown;
          if !fair {
            return true, 0, 0;
          }
          p, fit := Morecore(nunits);
          if p == 0 {
            return false, 0, 0;
          }
          grown := true;
          k := at;
          LinkAt(k);
          SearchStart(nunits);
        } else {
          SearchOn(k, nunits);
        }
        prevp, pk := p, k;
        p, k := hdr[p].ptr, Next(k, |fl|);
      }
    }

    /** The owner of a live block may overwrite everything in it but its header. */
    method UserStore(a: nat, x: nat, value: Header)
      requires Valid() && a in live && a < x < a + live[a]
      modifies this`hdr
      ensures Valid() && x in hdr && hdr[x] == value
    {
      hide Ordered, Within;
      forall i | 0 <= i < |fl| ensures fl[i].addr != x {
        LiveAbove(a);
        LiveLoose(core, fl, live, a);
      }
      forall b | b in live ensures b != x {
      }
      hdr := hdr[x := value];
      forall i | 0 <= i < |fl| ensures Linked(hdr, fl, i) {
        assert Linked(old(hdr), fl, i);
      }
    }

    lemma LinkAt(k: nat)
      requires Valid() && freep != 0 && k < |fl|
      ensures fl[k].addr in hdr && hdr[fl[k].addr] == Header(fl[Next(k, |fl|)].addr, fl[k].size)
      ensures fl[k].addr >= base
    {
      assert Linked(hdr, fl, k);
    }

    lemma BaseEmpty()
      requires Valid() && freep != 0
      ensures fl[0].size == 0
    {
    }

    lemma PlaceUnique(k: nat)
      requires Valid() && freep != 0 && k < |fl| && fl[k].addr == freep
      ensures k == at
    {
    }
  }

  lemma FreeSized(hdr: Memory, live: map<nat, nat>, p: nat, bp: nat)
    requires Sized(hdr, live) && bp in live && p !in live && p in hdr && hdr[p].ptr in hdr
    ensures bp in hdr && hdr[bp].size == live[bp]
    ensures Sized(FreeLower(FreeUpper(hdr, p, bp), p, bp), live - {bp})
  {
  }

  lemma TakeSized(hdr: Memory, live: map<nat, nat>, prevp: nat, p: nat, n: nat)
    requires Sized(hdr, live) && prevp in hdr && p in hdr && prevp != p && p !in live && prevp !in live
    requires n <= hdr[p].size && p + hdr[p].size - n !in live
    ensures Sized(TakeWrites(hdr, prevp, p, n), live[p + hdr[p].size - n := n])
  {
  }

  lemma InsertKeepsLower(fl: seq<Blk>, b: Blk, t: nat)
    requires 0 < t <= |fl|
    ensures t - 1 < |Insert(fl, b, t)| && Insert(fl, b, t)[t - 1].addr == fl[t - 1].addr
  {
  }

  /** In an ordered list that starts below a, the place of a. */
  lemma {:induction false} PlaceOf(fl: seq<Blk>, a: nat) returns (t: nat)
    requires fl != [] && fl[0].addr < a && Ordered(fl) && forall i :: 0 <= i < |fl| ==> fl[i].addr != a
    ensures Place(fl, a, t)
  {
    t := |fl|;
    while t > 1 && fl[t - 1].addr > a
      invariant 0 < t <= |fl| && (t < |fl| ==> a < fl[t].addr)
    {
      t := t - 1;
    }
  }
}
