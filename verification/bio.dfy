/**
 The circular doubly linked list of kernel/bio.c, as index arithmetic on the array
 of buffers.  Index H stands for bcache.head.
 */
module LruList {
  import opened Sets
  import opened Wal

  const NBUF: nat := MAXOPBLOCKS * 3
  const H: nat := NBUF
  const ROOTDEV: nat := 1

  datatype Buf = Buf(
    valid: bool, dev: nat, blockno: nat, refcnt: nat, locked: bool,
    prev: nat, next: nat, data: Block)

  /** A buffer without its links. */
  datatype Cell = Cell(valid: bool, dev: nat, blockno: nat, refcnt: nat, locked: bool, data: Block)

  function Strip(b: Buf): Cell {
    Cell(b.valid, b.dev, b.blockno, b.refcnt, b.locked, b.data)
  }

  predicate Has(x: Cell, b: int) {
    x.dev == ROOTDEV && x.blockno == b
  }

  /** What bget does to the buffer it settles on, before it waits for the lock. */
  function Referenced(x: Cell, b: nat): Cell {
    if Has(x, b) then x.(refcnt := x.refcnt + 1)
    else x.(valid := false, dev := ROOTDEV, blockno := b, refcnt := 1)
  }

  /** The k-th stop of the walk that starts and ends at the head. */
  function At(order: seq<nat>, k: nat): nat {
    if 1 <= k <= |order| then order[k - 1] else H
  }

  /** The links from stop k to stop k + 1 and back. */
  ghost predicate Linked(bs: seq<Buf>, order: seq<nat>, k: nat)
    requires |bs| == NBUF + 1 && forall j :: 0 <= j < |order| ==> order[j] < NBUF
  {
    bs[At(order, k)].next == At(order, k + 1) && bs[At(order, k + 1)].prev == At(order, k)
  }

  /** prev and next form one circle: the head, then `order`, then the head again. */
  ghost predicate IsRing(bs: seq<Buf>, order: seq<nat>) {
    && |bs| == NBUF + 1
    && Distinct(order)
    && (forall j :: 0 <= j < |order| ==> order[j] < NBUF)
    && forall k :: 0 <= k <= |order| ==> Linked(bs, order, k)
  }

  /** Equal except for links, which is all that list operations touch. */
  predicate SameButLinks(a: seq<Buf>, b: seq<Buf>) {
    |a| == |b| && forall j :: 0 <= j < |a| ==> a[j] == b[j].(prev := a[j].prev, next := a[j].next)
  }

  lemma SameButLinksTransitive(a: seq<Buf>, b: seq<Buf>, c: seq<Buf>)
    requires SameButLinks(a, b) && SameButLinks(b, c)
    ensures SameButLinks(a, c)
  {
  }

  /** The two writes that take b out of the circle. */
  function Unlink(bs: seq<Buf>, i: nat): (r: seq<Buf>)
    requires i < |bs| == NBUF + 1 && bs[i].next <= H && bs[i].prev <= H
    ensures SameButLinks(r, bs)
  {
    var p, n := bs[i].prev, bs[i].next;
    var b1 := bs[n := bs[n].(prev := p)];
    b1[p := b1[p].(next := n)]
  }

  /** The four writes that put b after the head. */
  function LinkFront(bs: seq<Buf>, i: nat): (r: seq<Buf>)
    requires i < NBUF && |bs| == NBUF + 1 && bs[H].next <= H
    ensures SameButLinks(r, bs)
  {
    var f := bs[H].next;
    var b1 := bs[i := bs[i].(next := f, prev := H)];
    var b2 := b1[f := b1[f].(prev := i)];
    b2[H := b2[H].(next := i)]
  }

  lemma RingUnlink(bs: seq<Buf>, order: seq<nat>, k: nat)
    requires IsRing(bs, order) && k < |order|
    ensures bs[order[k]].next <= H && bs[order[k]].prev <= H
    ensures IsRing(Unlink(bs, order[k]), Without(order, k))
  {
    var rest := Without(order, k);
    assert Linked(bs, order, k) && Linked(bs, order, k + 1);
    var r := Unlink(bs, order[k]);
    forall j | 0 <= j <= |rest| ensures Linked(r, rest, j) {
      assert Linked(bs, order, j) && Linked(bs, order, j + 1);
      assert At(rest, j) == At(order, if j <= k then j else j + 1);
      assert At(rest, j + 1) == At(order, if j < k then j + 1 else j + 2);
    }
  }

  lemma RingFront(bs: seq<Buf>, order: seq<nat>, i: nat)
    requires IsRing(bs, order) && i < NBUF && i !in order
    ensures bs[H].next <= H
    ensures IsRing(LinkFront(bs, i), [i] + order)
  {
    var more := [i] + order;
    assert Linked(bs, order, 0);
    var r := LinkFront(bs, i);
    forall j | 0 <= j <= |more| ensures Linked(r, more, j) {
      assert j > 0 ==> Linked(bs, order, j - 1);
      assert j > 0 ==> At(more, j) == (if j == 1 then i else At(order, j - 1));
      assert At(more, j + 1) == (if j == 0 then i else At(order, j));
    }
  }

  /** brelse's six assignments: the element moves to the front and the rest keeps its order. */
  lemma RingMoveFront(bs: seq<Buf>, order: seq<nat>, k: nat)
    requires IsRing(bs, order) && k < |order|
    ensures bs[order[k]].next <= H && bs[order[k]].prev <= H
    ensures var u := Unlink(bs, order[k]);
            u[H].next <= H && IsRing(LinkFront(u, order[k]), [order[k]] + Without(order, k))
  {
    RingUnlink(bs, order, k);
    RingFront(Unlink(bs, order[k]), Without(order, k), order[k]);
  }
}

/** The disk as kernel/bio.c uses it: whole blocks, each transfer atomic. */
module BlockDevice {
  import opened Wal

  class Device {
    var blocks: Disk
    ghost const base: Disk      // contents at power-on
    ghost var trace: seq<Write> // every write since, in order

    ghost predicate Valid()
      reads this
    {
      blocks == ApplyAll(base, trace)
    }

    constructor (d: Disk)
      ensures Valid() && blocks == base == d && trace == []
    {
      blocks, base, trace := d, d, [];
    }

    method Read(b: nat) returns (data: Block)
      requires b < |blocks|
      ensures data == blocks[b]
    {
      data := blocks[b];
    }

    method Write(b: nat, data: Block)
      requires Valid() && b < |blocks|
      modifies this
      ensures Valid() && blocks == old(blocks)[b := data]
      ensures trace == old(trace) + [Wal.Write(b, data)]
    {
      blocks := blocks[b := data];
      trace := trace + [Wal.Write(b, data)];
      assert trace[..|trace| - 1] == old(trace);
    }

    /** What a stretch of writes did to the disk. */
    twostate lemma TraceDetermines(ws: seq<Write>)
      requires old(Valid()) && Valid() && trace == old(trace) + ws
      ensures blocks == ApplyAll(old(blocks), ws)
    {
      ApplyAppend(base, old(trace), ws);
    }
  }
}

/**
 The buffer cache of kernel/bio.c: NBUF buffers on an LRU list in front of the disk.

 `view` is what the cache and the disk together say each block holds and `refs` how
 many references each block has; clients reason with these two alone.
 */
module BufferCache {
  import opened Sets
  import opened Wal
  import opened LruList
  import opened BlockDevice

  // ------------------------------------------------------------------
  // The invariant, on the array's contents

  /** The list holds every buffer once, most recently released first. */
  ghost predicate Ranked(bs: seq<Buf>, order: seq<nat>, stamp: seq<nat>, now: nat) {
    && IsRing(bs, order)
    && |order| == NBUF && |stamp| == NBUF
    && (forall i :: 0 <= i < NBUF ==> i in order)
    && (forall j, k :: 0 <= j < k < NBUF ==> stamp[order[j]] > stamp[order[k]])
    && (forall i :: 0 <= i < NBUF ==> stamp[i] < now)
  }

  /** slot[b] is the one buffer holding block b; only such buffers are in use. */
  ghost predicate Indexed(bs: seq<Buf>, slot: map<nat, nat>, total: nat) {
    && |bs| == NBUF + 1
    && (forall b :: b in slot ==>
          b < total && slot[b] < NBUF && bs[slot[b]].dev == ROOTDEV && bs[slot[b]].blockno == b)
    && (forall i :: 0 <= i < NBUF && bs[i].dev == ROOTDEV ==>
          bs[i].blockno in slot && slot[bs[i].blockno] == i)
    && (forall i :: 0 <= i < NBUF && (bs[i].refcnt > 0 || bs[i].valid || bs[i].locked) ==> bs[i].dev == ROOTDEV)
    && (forall i :: 0 <= i < NBUF && bs[i].locked ==> bs[i].refcnt > 0)
  }

  function Seen(bs: seq<Buf>, slot: map<nat, nat>, blocks: Disk, b: nat): Block
    requires b < |blocks| && (b in slot ==> slot[b] < |bs|)
  {
    if b in slot && bs[slot[b]].valid then bs[slot[b]].data else blocks[b]
  }

  function Held(bs: seq<Buf>, slot: map<nat, nat>, b: nat): nat
    requires b in slot ==> slot[b] < |bs|
  {
    if b in slot then bs[slot[b]].refcnt else 0
  }

  /** view and refs are what the buffers say; an unreferenced block is as on disk. */
  ghost predicate Reflects(bs: seq<Buf>, slot: map<nat, nat>, blocks: Disk, view: Disk, refs: seq<nat>)
    requires Indexed(bs, slot, |blocks|)
  {
    && |view| == |blocks| == |refs|
    && (forall b :: 0 <= b < |blocks| ==> view[b] == Seen(bs, slot, blocks, b))
    && (forall b :: 0 <= b < |blocks| ==> refs[b] == Held(bs, slot, b))
    && (forall b :: 0 <= b < |blocks| && refs[b] == 0 ==> view[b] == blocks[b])
  }

  /** The referenced blocks. */
  ghost function Busy(refs: seq<nat>): set<int> {
    set b | 0 <= b < |refs| && refs[b] > 0
  }

  lemma BusyUpdate(refs: seq<nat>, b: nat, r: nat)
    requires b < |refs|
    ensures |Busy(refs[b := r])| <= |Busy(refs)| + 1
    ensures refs[b] > 0 || r == 0 ==> |Busy(refs[b := r])| <= |Busy(refs)|
  {
    if refs[b] > 0 || r == 0 {
      SubsetSize(Busy(refs[b := r]), Busy(refs));
    } else {
      SubsetSize(Busy(refs[b := r]), Busy(refs) + {b});
    }
  }

  /** Pigeonhole: fewer busy blocks than buffers leaves an unreferenced buffer. */
  lemma FreeBuffer(bs: seq<Buf>, slot: map<nat, nat>, blocks: Disk, view: Disk, refs: seq<nat>)
    requires Indexed(bs, slot, |blocks|) && Reflects(bs, slot, blocks, view, refs)
    requires |Busy(refs)| < NBUF
    ensures exists j :: 0 <= j < NBUF && bs[j].refcnt == 0
  {
    if forall j :: 0 <= j < NBUF ==> bs[j].refcnt > 0 {
      var held: set<int> := {};
      for i := 0 to NBUF
        invariant |held| == i && held <= Busy(refs)
        invariant forall b :: b in held ==> b in slot && slot[b] < i
      {
        var b := bs[i].blockno;
        assert b in slot && slot[b] == i && Held(bs, slot, b) > 0;
        held := held + {b};
      }
      SubsetSize(held, Busy(refs));
      assert false;
    }
  }

  // ------------------------------------------------------------------
  // What single assignments do to the invariant

  lemma RankedSameLinks(a: seq<Buf>, b: seq<Buf>, order: seq<nat>, stamp: seq<nat>, now: nat)
    requires Ranked(a, order, stamp, now) && |a| == |b|
    requires forall j :: 0 <= j < |a| ==> a[j].prev == b[j].prev && a[j].next == b[j].next
    ensures Ranked(b, order, stamp, now)
  {
    forall k | 0 <= k <= |order| ensures Linked(b, order, k) {
      assert Linked(a, order, k);
    }
  }

  /** A buffer in use changes its reference count, lock, valid bit or data. */
  lemma UpdateInUse(bs: seq<Buf>, slot: map<nat, nat>, blocks: Disk, view: Disk, refs: seq<nat>, i: nat, x: Buf)
    requires Indexed(bs, slot, |blocks|) && Reflects(bs, slot, blocks, view, refs)
    requires i < NBUF && bs[i].dev == ROOTDEV && x.dev == bs[i].dev && x.blockno == bs[i].blockno
    requires x.locked ==> x.refcnt > 0
    requires x.refcnt == 0 && x.valid ==> x.data == blocks[x.blockno]
    ensures Indexed(bs[i := x], slot, |blocks|)
    ensures var b := x.blockno;
            Reflects(bs[i := x], slot, blocks,
                     view[b := if x.valid then x.data else blocks[b]], refs[b := x.refcnt])
  {
    var c := bs[i := x];
    forall b | 0 <= b < |blocks| && b != x.blockno
      ensures Seen(c, slot, blocks, b) == Seen(bs, slot, blocks, b) && Held(c, slot, b) == Held(bs, slot, b)
    {
    }
  }

  /** An unreferenced buffer is given to a block that is not cached. */
  lemma UpdateRecycled(bs: seq<Buf>, slot: map<nat, nat>, blocks: Disk, view: Disk, refs: seq<nat>, i: nat, x: Buf)
    requires Indexed(bs, slot, |blocks|) && Reflects(bs, slot, blocks, view, refs)
    requires i < NBUF && bs[i].refcnt == 0 && x.blockno !in slot && x.blockno < |blocks|
    requires x.dev == ROOTDEV && x.refcnt == 1 && !x.valid
    ensures var slot' := Moved(bs, slot, i, x.blockno);
            && Indexed(bs[i := x], slot', |blocks|)
            && Reflects(bs[i := x], slot', blocks, view, refs[x.blockno := 1])
  {
    var slot', c := Moved(bs, slot, i, x.blockno), bs[i := x];
    assert Indexed(c, slot', |blocks|);
    forall b | 0 <= b < |blocks|
      ensures Seen(c, slot', blocks, b) == view[b]
      ensures Held(c, slot', b) == refs[x.blockno := 1][b]
    {
      if b in slot && slot[b] == i {
        assert refs[b] == 0;
      }
    }
  }

  lemma SameButLinksCoherent(a: seq<Buf>, b: seq<Buf>, slot: map<nat, nat>, blocks: Disk, view: Disk, refs: seq<nat>)
    requires Indexed(a, slot, |blocks|) && Reflects(a, slot, blocks, view, refs) && SameButLinks(b, a)
    ensures Indexed(b, slot, |blocks|) && Reflects(b, slot, blocks, view, refs)
  {
    forall x | 0 <= x < |blocks|
      ensures Seen(b, slot, blocks, x) == Seen(a, slot, blocks, x) && Held(b, slot, x) == Held(a, slot, x)
    {
    }
  }

  /** Moving the k-th element to the front with the newest stamp keeps the list ranked. */
  lemma RankFront(order: seq<nat>, stamp: seq<nat>, now: nat, k: nat)
    requires |order| == |stamp| == NBUF && k < NBUF && Distinct(order)
    requires forall i :: 0 <= i < NBUF ==> order[i] < NBUF
    requires forall i :: 0 <= i < NBUF ==> i in order
    requires forall i, j :: 0 <= i < j < NBUF ==> stamp[order[i]] > stamp[order[j]]
    requires forall i :: 0 <= i < NBUF ==> stamp[i] < now
    ensures var o, s := [order[k]] + Without(order, k), stamp[order[k] := now];
            && |o| == NBUF
            && (forall i :: 0 <= i < NBUF ==> i in o)
            && (forall i, j :: 0 <= i < j < NBUF ==> s[o[i]] > s[o[j]])
            && (forall i :: 0 <= i < NBUF ==> s[i] < now + 1)
  {
    var o, s := [order[k]] + Without(order, k), stamp[order[k] := now];
    forall i | 0 <= i < NBUF ensures i in o {
      assert i in order;
      var j :| 0 <= j < NBUF && order[j] == i;
      assert o[if j == k then 0 else if j < k then j + 1 else j] == i;
    }
    forall i | 1 <= i < NBUF ensures o[i] == order[if i <= k then i - 1 else i] {
    }
  }

  lemma RankedMoveLinks(bs: seq<Buf>, order: seq<nat>, stamp: seq<nat>, now: nat, i: nat)
    requires Ranked(bs, order, stamp, now) && i < NBUF
    ensures bs[i].next <= H && bs[i].prev <= H && Unlink(bs, i)[H].next <= H
    ensures SameButLinks(LinkFront(Unlink(bs, i), i), bs)
  {
    assert i in order;
    var k :| 0 <= k < NBUF && order[k] == i;
    RingMoveFront(bs, order, k);
    SameButLinksTransitive(LinkFront(Unlink(bs, i), i), Unlink(bs, i), bs);
  }

  /** brelse's six assignments, on a ranked list. */
  lemma RankedMoveFront(bs: seq<Buf>, order: seq<nat>, stamp: seq<nat>, now: nat, i: nat) returns (order': seq<nat>)
    requires Ranked(bs, order, stamp, now) && i < NBUF
    ensures bs[i].next <= H && bs[i].prev <= H && Unlink(bs, i)[H].next <= H
    ensures |stamp| == NBUF && Ranked(LinkFront(Unlink(bs, i), i), order', stamp[i := now], now + 1)
    ensures SameButLinks(LinkFront(Unlink(bs, i), i), bs)
  {
    RankedMoveLinks(bs, order, stamp, now, i);
    assert i in order;
    var k :| 0 <= k < NBUF && order[k] == i;
    order' := [i] + Without(order, k);
    RingMoveFront(bs, order, k);
    RankFront(order, stamp, now, k);
  }

  function Moved(bs: seq<Buf>, slot: map<nat, nat>, i: nat, b: nat): map<nat, nat>
    requires i < |bs|
  {
    (if bs[i].dev == ROOTDEV then slot - {bs[i].blockno} else slot)[b := i]
  }

  class Cache {
    const device: Device
    const buf: array<Buf>
    ghost var order: seq<nat>      // head.next first
    ghost var stamp: seq<nat>      // when each buffer was last moved to the front
    ghost var now: nat
    ghost var slot: map<nat, nat>
    ghost var view: Disk
    ghost var refs: seq<nat>

    ghost predicate Valid()
      reads this, buf, device
    {
      && device.Valid()
      && buf.Length == NBUF + 1 && |view| == |device.blocks| == |refs|
      && Ranked(buf[..], order, stamp, now)
      && Indexed(buf[..], slot, |device.blocks|)
      && Reflects(buf[..], slot, device.blocks, view, refs)
    }

    /** No buffer is locked by anyone. */
    ghost predicate Unlocked()
      reads buf
    {
      buf.Length == NBUF + 1 && forall i :: 0 <= i < NBUF ==> !buf[i].locked
    }

    /** Buffer i is locked by the caller and holds block b. */
    ghost predicate Owns(i: nat, b: nat)
      reads this, buf
    {
      && buf.Length == NBUF + 1 && i < NBUF
      && buf[i].locked && buf[i].valid && buf[i].dev == ROOTDEV && buf[i].blockno == b
    }

    /** How many processes have block b locked. */
    ghost function Holders(b: nat): nat
      reads buf
      requires buf.Length == NBUF + 1
    {
      if exists i :: 0 <= i < NBUF && buf[i].locked && Has(Strip(buf[i]), b) then 1 else 0
    }

    /** binit. */
    constructor (d: Device)
      requires d.Valid()
      ensures Valid() && device == d && fresh(buf)
      ensures view == d.blocks && refs == seq(|d.blocks|, _ => 0)
      ensures slot == map[] && forall i :: 0 <= i < NBUF ==> stamp[i] == i
      ensures forall i :: 0 <= i < NBUF ==> Strip(buf[i]) == Cell(false, 0, 0, 0, false, Block([]))
    {
      device := d;
      buf := new Buf[NBUF + 1](_ => Buf(false, 0, 0, 0, false, H, H, Block([])));
      order := [];
      slot := map[];
      view := d.blocks;
      refs := seq(|d.blocks|, _ => 0);
      stamp := seq(NBUF, i => i);
      now := NBUF;
      new;
      var b := 0;
      while b < NBUF
        invariant 0 <= b <= NBUF && |order| == b
        invariant IsRing(buf[..], order)
        invariant forall j :: 0 <= j < b ==> order[j] == b - 1 - j
        invariant forall i :: 0 <= i < NBUF ==>
                  buf[i] == Buf(false, 0, 0, 0, false, buf[i].prev, buf[i].next, Block([]))
        invariant slot == map[] && view == d.blocks && refs == seq(|d.blocks|, _ => 0)
        invariant stamp == seq(NBUF, i => i) && now == NBUF
      {
        RingFront(buf[..], order, b);
        ghost var linked := LinkFront(buf[..], b);
        var first := buf[H].next;
        buf[b] := buf[b].(next := first, prev := H);
        buf[first] := buf[first].(prev := b);
        buf[H] := buf[H].(next := b);
        assert buf[..] == linked;
        order := [b] + order;
        b := b + 1;
      }
      forall i | 0 <= i < NBUF ensures i in order {
        assert order[NBUF - 1 - i] == i;
      }
    }

    /** bget's first loop: most recently used first, is the block cached? */
    method FindCached(dev: nat, blockno: nat) returns (i: nat)
      requires Valid() && dev == ROOTDEV
      ensures i == if blockno in slot then slot[blockno] else H
    {
      ghost var k := 1;
      assert Linked(buf[..], order, 0);
      i := buf[H].next;
      while i != H
        invariant 1 <= k <= NBUF + 1 && i == At(order, k)
        invariant forall j :: 0 <= j < k - 1 ==> !(buf[order[j]].dev == dev && buf[order[j]].blockno == blockno)
        decreases NBUF + 1 - k
      {
        if buf[i].dev == dev && buf[i].blockno == blockno {
          return;
        }
        assert Linked(buf[..], order, k);
        i := buf[i].next;
        k := k + 1;
      }
      forall x | 0 <= x < NBUF ensures !(buf[x].dev == dev && buf[x].blockno == blockno) {
        assert x in order;
      }
    }

    /** bget's second loop: the unused buffer that was released longest ago. */
    method FindVictim() returns (i: nat)
      requires Valid()
      ensures i <= H
      ensures i == H <==> forall j :: 0 <= j < NBUF ==> buf[j].refcnt > 0
      ensures i < H ==> buf[i].refcnt == 0 && forall j :: 0 <= j < NBUF && buf[j].refcnt == 0 ==> stamp[i] <= stamp[j]
    {
      ghost var k := NBUF;
      assert Linked(buf[..], order, NBUF);
      i := buf[H].prev;
      while i != H
        invariant 0 <= k <= NBUF && i == At(order, k)
        invariant forall j :: k <= j < NBUF ==> buf[order[j]].refcnt > 0
        decreases k
      {
        if buf[i].refcnt == 0 {
          forall j | 0 <= j < NBUF && buf[j].refcnt == 0 ensures stamp[i] <= stamp[j] {
            assert j in order;
          }
          return;
        }
        assert Linked(buf[..], order, k - 1);
        i := buf[i].prev;
        k := k - 1;
      }
      forall j | 0 <= j < NBUF ensures buf[j].refcnt > 0 {
        assert j in order;
      }
    }

    /** One buffer in use changes, but neither its block nor its links. */
    method Set(i: nat, x: Buf)
      requires Valid() && i < NBUF && buf[i].dev == ROOTDEV
      requires x == buf[i].(valid := x.valid, refcnt := x.refcnt, locked := x.locked, data := x.data)
      requires x.locked ==> x.refcnt > 0
      requires x.refcnt == 0 && x.valid ==> x.data == device.blocks[x.blockno]
      modifies this`view, this`refs, buf
      ensures Valid() && buf[i] == x && forall j :: 0 <= j < NBUF && j != i ==> buf[j] == old(buf[j])
      ensures var b, y := x.blockno, old(buf[i]);
              && b < |old(view)|
              && old(view[b]) == (if y.valid then y.data else device.blocks[b]) && old(refs[b]) == y.refcnt
              && view == old(view)[b := if x.valid then x.data else device.blocks[b]]
              && refs == old(refs)[b := x.refcnt]
    {
      ghost var bs, b := buf[..], x.blockno;
      UpdateInUse(bs, slot, device.blocks, view, refs, i, x);
      RankedSameLinks(bs, bs[i := x], order, stamp, now);
      assert view[b] == Seen(bs, slot, device.blocks, b) && refs[b] == Held(bs, slot, b);
      buf[i] := x;
      assert buf[..] == bs[i := x];
      view := view[b := if x.valid then x.data else device.blocks[b]];
      refs := refs[b := x.refcnt];
    }

    /**
     bget up to its acquiresleep.  Fails (the kernel panics) exactly when the block is not
     cached and every buffer is referenced; recycles the unreferenced buffer that was
     released longest ago.
     */
    method Ref(dev: nat, blockno: nat) returns (ok: bool, i: nat)
      requires Valid() && dev == ROOTDEV && blockno < |device.blocks|
      modifies this, buf
      ensures Valid() && view == old(view) && order == old(order) && stamp == old(stamp) && now == old(now)
      ensures ok <==> blockno in old(slot) || exists j :: 0 <= j < NBUF && old(buf[j].refcnt) == 0
      ensures refs == if ok then old(refs)[blockno := old(refs[blockno]) + 1] else old(refs)
      ensures ok ==> i < NBUF && Strip(buf[i]) == Referenced(old(Strip(buf[i])), blockno)
      ensures ok && blockno in old(slot) ==> i == old(slot)[blockno] && slot == old(slot)
      ensures ok && blockno !in old(slot) ==> old(buf[i].refcnt) == 0 && !Has(old(Strip(buf[i])), blockno)
      ensures ok && blockno !in old(slot) ==>
                forall j :: 0 <= j < NBUF && old(buf[j].refcnt) == 0 ==> stamp[i] <= stamp[j]
      ensures forall j :: 0 <= j < NBUF && (!ok || j != i) ==> buf[j] == old(buf[j])
    {
      hide Ranked, Indexed, Reflects;
      i := FindCached(dev, blockno);
      if i != H {
        Slotted(blockno);
        Set(i, buf[i].(refcnt := buf[i].refcnt + 1));
        return true, i;
      }
      Slotted(blockno);
      i := FindVictim();
      if i != H {
        Recycle(i, dev, blockno);
        return true, i;
      }
      return false, i;
    }

    lemma Slotted(b: nat)
      requires Valid() && b < |device.blocks|
      ensures b in slot ==> slot[b] < NBUF && Has(Strip(buf[slot[b]]), b)
      ensures b !in slot ==> refs[b] == 0 && forall j :: 0 <= j < NBUF ==> !Has(Strip(buf[j]), b)
    {
      assert refs[b] == Held(buf[..], slot, b);
    }

    /** bget's second case: the victim gets the block. */
    method Recycle(i: nat, dev: nat, blockno: nat)
      requires Valid() && dev == ROOTDEV && blockno < |device.blocks| && blockno !in slot
      requires i < NBUF && buf[i].refcnt == 0
      modifies this`slot, this`refs, buf
      ensures Valid() && refs == old(refs)[blockno := old(refs[blockno]) + 1]
      ensures buf[i] == old(buf[i]).(dev := dev, blockno := blockno, valid := false, refcnt := 1)
      ensures forall j :: 0 <= j < NBUF && j != i ==> buf[j] == old(buf[j])
    {
      hide Ranked, Indexed, Reflects;
      Slotted(blockno);
      var x := buf[i].(dev := dev, blockno := blockno, valid := false, refcnt := 1);
      UpdateRecycled(buf[..], slot, device.blocks, view, refs, i, x);
      RankedSameLinks(buf[..], buf[..][i := x], order, stamp, now);
      slot := Moved(buf[..], slot, i, blockno);
      buf[i] := x;
      assert buf[..] == old(buf[..])[i := x];
      refs := refs[blockno := 1];
    }

    /** acquiresleep, when the buffer is free. */
    method Lock(i: nat)
      requires Valid() && i < NBUF && buf[i].refcnt > 0 && !buf[i].locked
      modifies this`view, this`refs, buf
      ensures Valid() && view == old(view) && refs == old(refs)
      ensures buf[i] == old(buf[i]).(locked := true)
      ensures forall j :: 0 <= j < NBUF && j != i ==> buf[j] == old(buf[j])
    {
      Set(i, buf[i].(locked := true));
    }

    /** bread's transfer into a buffer that does not have its block yet. */
    method Fill(i: nat)
      requires Valid() && i < NBUF && buf[i].refcnt > 0 && !buf[i].valid
      modifies this`view, this`refs, buf
      ensures Valid() && view == old(view) && refs == old(refs) && buf[i].blockno < |view|
      ensures buf[i] == old(buf[i]).(valid := true, data := view[buf[i].blockno])
      ensures buf[i].data == device.blocks[buf[i].blockno]
      ensures forall j :: 0 <= j < NBUF && j != i ==> buf[j] == old(buf[j])
    {
      var data := device.Read(buf[i].blockno);
      Set(i, buf[i].(valid := true, data := data));
    }

    /**
     bget.  Fails as its first part does; otherwise a reference is taken, and the buffer is
     the caller's unless another process has locked it, when the caller has to wait.
     */
    method Bget(dev: nat, blockno: nat) returns (ok: bool, i: nat, mine: bool)
      requires Valid() && dev == ROOTDEV && blockno < |device.blocks|
      modifies this, buf
      ensures Valid() && view == old(view)
      ensures ok <==> blockno in old(slot) || exists j :: 0 <= j < NBUF && old(buf[j].refcnt) == 0
      ensures refs == if ok then old(refs)[blockno := old(refs[blockno]) + 1] else old(refs)
      ensures ok ==> i < NBUF && buf[i].refcnt > 0 && Has(Strip(buf[i]), blockno) && buf[i].locked
      ensures ok ==> (mine <==> !old(buf[i].locked))
      ensures ok && !mine ==> blockno in old(slot) && i == old(slot)[blockno]
      ensures forall j :: 0 <= j < NBUF && (!ok || j != i) ==> buf[j] == old(buf[j])
    {
      ok, i := Ref(dev, blockno);
      mine := false;
      if ok {
        mine := !buf[i].locked;
        if mine {
          Lock(i);
        }
      }
    }

    /** bread: the block's current contents in a buffer of the caller's, or a reference to wait with. */
    method Bread(dev: nat, blockno: nat) returns (ok: bool, i: nat, mine: bool)
      requires Valid() && dev == ROOTDEV && blockno < |device.blocks|
      modifies this, buf
      ensures Valid() && view == old(view)
      ensures ok <==> blockno in old(slot) || exists j :: 0 <= j < NBUF && old(buf[j].refcnt) == 0
      ensures refs == if ok then old(refs)[blockno := old(refs[blockno]) + 1] else old(refs)
      ensures ok ==> i < NBUF && (mine <==> !old(buf[i].locked))
      ensures ok && mine ==> Owns(i, blockno) && buf[i].data == view[blockno]
      ensures ok && !mine ==> blockno in old(slot) && i == old(slot)[blockno] && buf[i].refcnt > 0
      ensures forall j :: 0 <= j < NBUF && (!ok || j != i) ==> buf[j] == old(buf[j])
    {
      ok, i, mine := Bget(dev, blockno);
      if ok && mine && !buf[i].valid {
        Fill(i);
      }
      assert ok ==> view[blockno] == Seen(buf[..], slot, device.blocks, blockno);
    }

    /** The holder of a locked buffer changes its contents. */
    method SetData(i: nat, ghost b: nat, data: Block)
      requires Valid() && Owns(i, b)
      modifies this`view, this`refs, buf
      ensures Valid() && Owns(i, b) && refs == old(refs)
      ensures view == old(view)[b := data]
      ensures buf[i] == old(buf[i]).(data := data)
      ensures forall j :: 0 <= j < NBUF && j != i ==> buf[j] == old(buf[j])
    {
      Set(i, buf[i].(data := data));
    }

    /** bwrite. */
    method Bwrite(i: nat, ghost b: nat)
      requires Valid() && Owns(i, b)
      modifies device
      ensures Valid()
      ensures device.blocks == old(device.blocks)[b := view[b]] && view[b] == buf[i].data
      ensures device.trace == old(device.trace) + [Write(b, view[b])]
    {
      assert view[b] == Seen(buf[..], slot, device.blocks, b);
      device.Write(buf[i].blockno, buf[i].data);
    }

    /** releasesleep. */
    method Unlock(i: nat)
      requires Valid() && i < NBUF && buf[i].refcnt > 0 && buf[i].locked
      modifies this`view, this`refs, buf
      ensures Valid() && view == old(view) && refs == old(refs)
      ensures buf[i] == old(buf[i]).(locked := false)
      ensures forall j :: 0 <= j < NBUF && j != i ==> buf[j] == old(buf[j])
    {
      Set(i, buf[i].(locked := false));
    }

    /**
     The rest of brelse.  The last reference may go only if the block is as on disk; the
     buffer then becomes the most recently used one and the others keep their order.
     */
    method Drop(i: nat)
      requires Valid() && i < NBUF && buf[i].refcnt > 0 && (buf[i].locked ==> buf[i].refcnt > 1)
      requires buf[i].refcnt > 1 || !buf[i].valid || buf[i].data == device.blocks[buf[i].blockno]
      modifies this, buf
      ensures Valid() && view == old(view) && slot == old(slot)
      ensures var b := old(buf[i].blockno); b < |refs| && refs == old(refs)[b := old(refs[b]) - 1] && old(refs[b]) > 0
      ensures Strip(buf[i]) == old(Strip(buf[i])).(refcnt := old(buf[i].refcnt) - 1)
      ensures forall j :: 0 <= j < NBUF && j != i ==>
                buf[j] == old(buf[j]).(prev := buf[j].prev, next := buf[j].next)
      ensures if buf[i].refcnt > 0 then order == old(order) && stamp == old(stamp)
              else stamp == old(stamp)[i := old(now)] && now == old(now) + 1
    {
      Set(i, buf[i].(refcnt := buf[i].refcnt - 1));
      if buf[i].refcnt == 0 {
        MoveToFront(i);
      }
    }

    /** brelse. */
    method Brelse(i: nat, ghost b: nat)
      requires Valid() && Owns(i, b)
      requires refs[b] > 1 || view[b] == device.blocks[b]
      modifies this, buf
      ensures Valid() && view == old(view) && slot == old(slot)
      ensures refs == old(refs)[b := old(refs[b]) - 1] && old(refs[b]) > 0
      ensures !buf[i].locked && buf[i].valid && buf[i].dev == ROOTDEV && buf[i].blockno == b
      ensures forall j :: 0 <= j < NBUF && j != i ==>
                buf[j] == old(buf[j]).(prev := buf[j].prev, next := buf[j].next)
      ensures if refs[b] > 0 then order == old(order) && stamp == old(stamp)
              else stamp == old(stamp)[i := old(now)] && now == old(now) + 1
    {
      assert refs[b] == Held(buf[..], slot, b) && view[b] == Seen(buf[..], slot, device.blocks, b);
      Unlock(i);
      Drop(i);
    }

    /** slot finds the buffer of a block. */
    lemma Lookup(b: nat)
      requires Valid()
      ensures b in slot <==> exists i :: 0 <= i < NBUF && Has(Strip(buf[i]), b)
    {
      if b in slot {
        assert Has(Strip(buf[slot[b]]), b);
      }
    }

    /** What a block's view and references are, by its buffer if it has one. */
    lemma Shown(b: nat) returns (i: nat)
      requires Valid() && b < |device.blocks|
      ensures i <= NBUF && (i < NBUF ==> Has(Strip(buf[i]), b))
      ensures i < NBUF ==> refs[b] == buf[i].refcnt && view[b] == if buf[i].valid then buf[i].data else device.blocks[b]
      ensures i < NBUF ==> Holders(b) == if buf[i].locked then 1 else 0
      ensures i == NBUF ==> refs[b] == 0 && view[b] == device.blocks[b]
      ensures i == NBUF ==> forall j :: 0 <= j < NBUF ==> !Has(Strip(buf[j]), b)
    {
      assert refs[b] == Held(buf[..], slot, b) && view[b] == Seen(buf[..], slot, device.blocks, b);
      i := if b in slot then slot[b] else NBUF;
      assert i < NBUF ==> Has(Strip(buf[i]), b);
    }

    lemma Holding(i: nat, b: nat)
      requires Valid() && Owns(i, b)
      ensures b < |refs| && Holders(b) == 1 && refs[b] == buf[i].refcnt > 0 && view[b] == buf[i].data
    {
      assert Has(Strip(buf[i]), b);
      assert refs[b] == Held(buf[..], slot, b) && view[b] == Seen(buf[..], slot, device.blocks, b);
    }

    lemma Releasing(i: nat, b: nat)
      requires Valid() && i < NBUF && !buf[i].locked && Has(Strip(buf[i]), b)
      ensures Holders(b) == 0
    {
    }

    /** Buffers that keep their block and lock keep their blocks' holders. */
    twostate lemma SameHolders(x: nat)
      requires buf.Length == NBUF + 1
      requires forall j :: 0 <= j < NBUF && Has(Strip(buf[j]), x) && buf[j].locked ==>
                 old(Has(Strip(buf[j]), x) && buf[j].locked)
      ensures Holders(x) <= old(Holders(x))
    {
    }

    method MoveToFront(i: nat)
      requires Valid() && i < NBUF
      modifies this, buf
      ensures Valid() && view == old(view) && slot == old(slot) && refs == old(refs)
      ensures stamp == old(stamp)[i := old(now)] && now == old(now) + 1
      ensures forall j :: 0 <= j < NBUF ==>
                buf[j] == old(buf[j]).(prev := buf[j].prev, next := buf[j].next)
    {
      hide Ranked, Indexed, Reflects, Unlink, LinkFront;
      ghost var bs := buf[..];
      ghost var order' := RankedMoveFront(bs, order, stamp, now, i);
      Relink(i);
      order, stamp, now := order', stamp[i := now], now + 1;
      SameButLinksCoherent(bs, buf[..], slot, device.blocks, view, refs);
    }

    /** The six assignments. */
    method Relink(i: nat)
      requires buf.Length == NBUF + 1 && i < NBUF
      requires buf[i].next <= H && buf[i].prev <= H && Unlink(buf[..], i)[H].next <= H
      modifies buf
      ensures buf[..] == LinkFront(Unlink(old(buf[..]), i), i)
    {
      var p, n := buf[i].prev, buf[i].next;
      buf[n] := buf[n].(prev := p);
      buf[p] := buf[p].(next := n);
      assert buf[..] == Unlink(old(buf[..]), i);
      var f := buf[H].next;
      buf[i] := buf[i].(next := f, prev := H);
      buf[f] := buf[f].(prev := i);
      buf[H] := buf[H].(next := i);
    }

    /** bpin. */
    method Bpin(i: nat, ghost b: nat)
      requires Valid() && Owns(i, b)
      modifies this`view, this`refs, buf
      ensures Valid() && Owns(i, b) && view == old(view)
      ensures refs == old(refs)[b := old(refs[b]) + 1]
      ensures buf[i] == old(buf[i]).(refcnt := old(buf[i].refcnt) + 1)
      ensures forall j :: 0 <= j < NBUF && j != i ==> buf[j] == old(buf[j])
    {
      Set(i, buf[i].(refcnt := buf[i].refcnt + 1));
    }

    /** bunpin, as install_trans calls it: with the buffer still held. */
    method Bunpin(i: nat, ghost b: nat)
      requires Valid() && Owns(i, b) && refs[b] > 1
      modifies this`view, this`refs, buf
      ensures Valid() && Owns(i, b) && view == old(view)
      ensures refs == old(refs)[b := old(refs[b]) - 1]
      ensures buf[i] == old(buf[i]).(refcnt := old(buf[i].refcnt) - 1) && old(buf[i].refcnt) > 1
      ensures forall j :: 0 <= j < NBUF && j != i ==> buf[j] == old(buf[j])
    {
      assert refs[b] == Held(buf[..], slot, b);
      Set(i, buf[i].(refcnt := buf[i].refcnt - 1));
    }
  }
}
