/**
 The virtio disk driver (kernel/virtio_disk.c) with the device as its environment: the
 descriptor table, the avail and used rings with their 16-bit indices, and the buffers.
 Driver calls hold vdisk_lock; the device acts between and during them.
 */
module Virtio {
  import opened Sets

  const NUM: nat := 8
  const BSIZE: nat := 1024
  const WRAP: nat := 0x1_0000
  const UINT: nat := 0x1_0000_0000

  /** What a descriptor's addr field can point at. */
  datatype Addr = Null | OpAt(i: nat) | DataOf(b: nat) | StatusAt(i: nat)

  /** more is VRING_DESC_F_NEXT, deviceWrites is VRING_DESC_F_WRITE. */
  datatype Desc = Desc(addr: Addr, len: nat, more: bool, deviceWrites: bool, next: nat)

  datatype Op = Op(write: bool, sector: nat)

  datatype Info = Info(b: Option<nat>, status: nat)

  type Data = seq<int>

  datatype Buf = Buf(disk: bool, blockno: nat, data: Data)

  datatype Phase = Queued | Taken | Served | Woken

  /** A request in flight, known by its first descriptor. */
  datatype Chain = Chain(second: nat, third: nat, buf: nat, write: bool, blockno: nat, phase: Phase, id: nat)

  type Chains = map<nat, Chain>

  ghost function Parts(h: nat, c: Chain): set<nat> {
    {h, c.second, c.third}
  }

  /** Three different descriptors. */
  ghost predicate Placed(h: nat, c: Chain) {
    h < NUM && c.second < NUM && c.third < NUM && h != c.second && h != c.third && c.second != c.third
  }

  /** Descriptor i belongs to some request. */
  ghost predicate InChain(chains: Chains, i: nat) {
    exists h :: h in chains && i in Parts(h, chains[h])
  }

  /** Every descriptor is free, or set aside in X, or in exactly one request. */
  ghost predicate Partition(free: seq<bool>, chains: Chains, X: set<nat>) {
    && |free| == NUM
    && (forall h :: h in chains ==> Placed(h, chains[h]))
    && (forall g, h :: g in chains && h in chains && g != h ==> Parts(g, chains[g]) !! Parts(h, chains[h]))
    && (forall h :: h in chains ==> Parts(h, chains[h]) !! X)
    && (forall i: nat :: i < NUM ==> (free[i] <==> i !in X && !InChain(chains, i)))
  }

  /** The three descriptors of a request as virtio_disk_rw formats them. */
  ghost predicate Formatted(desc: seq<Desc>, ops: seq<Op>, info: seq<Info>, h: nat, c: Chain) {
    && |desc| == |ops| == |info| == NUM && h < NUM && c.second < NUM && c.third < NUM
    && desc[h] == Desc(OpAt(h), 16, true, false, c.second)
    && desc[c.second] == Desc(DataOf(c.buf), BSIZE, true, !c.write, c.third)
    && desc[c.third] == Desc(StatusAt(h), 1, false, true, 0)
    && ops[h] == Op(c.write, c.blockno * (BSIZE / 512))
    && info[h].b == Some(c.buf)
    && (c.phase.Served? ==> info[h].status == 0)
  }

  /**
   A chain that a block device carries out: a request header it reads, a block that it reads
   for a write and writes for a read, and a status byte it writes; the chain ends there.
   */
  predicate Acceptable(header: Desc, body: Desc, tail: Desc, write: bool) {
    && header.len == 16 && header.more && !header.deviceWrites
    && body.len == 1024 && body.more && (body.deviceWrites <==> !write)
    && tail.len == 1 && !tail.more && tail.deviceWrites
  }

  ghost predicate AllFormatted(desc: seq<Desc>, ops: seq<Op>, info: seq<Info>, chains: Chains) {
    && |desc| == |ops| == |info| == NUM
    && forall h :: h in chains ==> Formatted(desc, ops, info, h, chains[h])
  }

  /** A ring holds the heads w at positions n, n + 1, ..., modulo its size. */
  ghost predicate Window(ring: seq<nat>, n: nat, w: seq<nat>) {
    && |ring| == NUM && |w| <= NUM
    && forall k :: 0 <= k < |w| ==> ring[(n + k) % NUM] == w[k]
  }

  /** w lists exactly the requests in phase p, each once. */
  ghost predicate Lists(w: seq<nat>, chains: Chains, p: Phase) {
    && (forall k :: 0 <= k < |w| ==> w[k] in chains && chains[w[k]].phase == p)
    && Distinct(w)
    && (forall h :: h in chains && chains[h].phase == p ==> h in w)
  }

  /** A request owns its buffer until it has been woken. */
  ghost predicate Owned(bufs: map<nat, Buf>, chains: Chains) {
    && (forall h :: h in chains ==>
          && chains[h].buf in bufs && bufs[chains[h].buf].blockno == chains[h].blockno
          && (bufs[chains[h].buf].disk <==> chains[h].phase != Woken))
    && (forall g, h :: g in chains && h in chains && g != h ==> chains[g].buf != chains[h].buf)
  }

  /** Requests in flight have different numbers. */
  ghost predicate Numbered(chains: Chains, next: nat) {
    && (forall h :: h in chains ==> chains[h].id < next)
    && (forall g, h :: g in chains && h in chains && g != h ==> chains[g].id != chains[h].id)
  }

  /** Nothing is served twice, and requests are woken in the order they were served. */
  ghost predicate Orderly(served: seq<nat>, woken: seq<nat>, next: nat) {
    Distinct(served) && woken <= served && forall k :: 0 <= k < |served| ==> served[k] < next
  }

  /** The phases agree with the history. */
  ghost predicate Marks(chains: Chains, served: seq<nat>, woken: seq<nat>) {
    forall h :: h in chains ==>
      && (chains[h].id in served <==> chains[h].phase == Served || chains[h].phase == Woken)
      && (chains[h].id in woken <==> chains[h].phase == Woken)
  }

  /** Every request ever made is in flight or has been woken. */
  ghost predicate Complete(chains: Chains, woken: seq<nat>, next: nat) {
    forall n: nat :: n < next ==> n in woken || exists h :: h in chains && chains[h].id == n
  }

  ghost predicate Counted(chains: Chains, served: seq<nat>, woken: seq<nat>, next: nat) {
    Numbered(chains, next) && Orderly(served, woken, next) && Marks(chains, served, woken)
    && Complete(chains, woken, next)
  }

  /** The used ring and the history agree on what has been served and not yet seen. */
  ghost predicate Pending(chains: Chains, done: seq<nat>, served: seq<nat>, woken: seq<nat>) {
    && |served| == |woken| + |done|
    && forall k :: 0 <= k < |done| ==> done[k] in chains && chains[done[k]].id == served[|woken| + k]
  }

  /** A list of different descriptors without h leaves room in a ring. */
  lemma RoomFor(w: seq<nat>, h: nat)
    requires Distinct(w) && (forall k :: 0 <= k < |w| ==> w[k] < NUM) && h < NUM && h !in w
    ensures |w| < NUM
  {
    hide Below;
    DistinctSize(w, Below(NUM) - {h});
  }

  // ------------------------------------------------------------------
  // Indices

  /** A count as a 16-bit index. */
  function Wrap(n: nat): nat {
    n % WRAP
  }

  /** The index selects the slot that the count would, and counts on past its wrap. */
  lemma SlotOf(n: nat)
    ensures Wrap(n) % NUM == n % NUM && (Wrap(n) + 1) % WRAP == Wrap(n + 1)
  {
  }

  /** Two counts at most a ring apart are equal exactly when their indices are. */
  lemma IndexEqual(a: nat, b: nat)
    requires a <= b <= a + NUM
    ensures Wrap(a) == Wrap(b) <==> a == b
  {
  }

  lemma WindowPush(ring: seq<nat>, n: nat, w: seq<nat>, h: nat)
    requires Window(ring, n, w) && |w| < NUM
    ensures Window(ring[(n + |w|) % NUM := h], n, w + [h])
  {
    var r, at := ring[(n + |w|) % NUM := h], w + [h];
    forall k | 0 <= k < |at| ensures r[(n + k) % NUM] == at[k] {
      if k < |w| {
        Apart(n + k, n + |w|);
      }
    }
  }

  lemma Apart(a: nat, b: nat)
    requires a < b < a + NUM
    ensures a % NUM != b % NUM
  {
  }

  lemma WindowPop(ring: seq<nat>, n: nat, w: seq<nat>)
    requires Window(ring, n, w) && w != []
    ensures ring[n % NUM] == w[0] && Window(ring, n + 1, w[1..])
  {
    assert ring[(n + 0) % NUM] == w[0];
    forall k | 0 <= k < |w[1..]| ensures ring[(n + 1 + k) % NUM] == w[1..][k] {
      assert ring[(n + (k + 1)) % NUM] == w[k + 1];
    }
  }

  // ------------------------------------------------------------------
  // Changes of the partition

  lemma Reserve(free: seq<bool>, chains: Chains, X: set<nat>, i: nat)
    requires Partition(free, chains, X) && i < NUM && free[i]
    ensures Partition(free[i := false], chains, X + {i})
  {
    hide Parts;
    forall h | h in chains ensures Parts(h, chains[h]) !! X + {i} {
      assert i in Parts(h, chains[h]) ==> InChain(chains, i);
    }
  }

  lemma Unreserve(free: seq<bool>, chains: Chains, X: set<nat>, i: nat)
    requires Partition(free, chains, X) && i in X && i < NUM
    ensures !free[i] && Partition(free[i := true], chains, X - {i})
  {
    hide Parts;
    assert !InChain(chains, i);
  }

  /** Three reserved descriptors become a request. */
  lemma Enter(free: seq<bool>, chains: Chains, X: set<nat>, h: nat, c: Chain)
    requires Partition(free, chains, X) && X == Parts(h, c) && h !in chains
    requires Placed(h, c)
    ensures Partition(free, chains[h := c], {})
  {
    hide Parts, Placed;
    var chains' := chains[h := c];
    forall i: nat | i < NUM ensures free[i] <==> !InChain(chains', i) {
      if InChain(chains, i) {
        var g :| g in chains && i in Parts(g, chains[g]);
        assert g in chains' && i in Parts(g, chains'[g]);
      }
      if i in X {
        assert h in chains' && i in Parts(h, chains'[h]);
      }
      if InChain(chains', i) {
        var g :| g in chains' && i in Parts(g, chains'[g]);
        assert g != h ==> g in chains && i in Parts(g, chains[g]);
      }
    }
  }

  /** A request gives up its descriptors, which stay reserved. */
  lemma Leave(free: seq<bool>, chains: Chains, h: nat)
    requires Partition(free, chains, {}) && h in chains
    ensures Partition(free, chains - {h}, Parts(h, chains[h]))
  {
    hide Parts;
    var chains' := chains - {h};
    forall i: nat | i < NUM ensures free[i] <==> i !in Parts(h, chains[h]) && !InChain(chains', i) {
      if InChain(chains, i) {
        var g :| g in chains && i in Parts(g, chains[g]);
        assert g != h ==> g in chains' && i in Parts(g, chains'[g]);
      }
      if InChain(chains', i) {
        var g :| g in chains' && i in Parts(g, chains'[g]);
        assert g in chains && i in Parts(g, chains[g]);
      }
      if i in Parts(h, chains[h]) {
        assert InChain(chains, i);
      }
    }
  }

  /** Only the places of the requests matter to the partition. */
  lemma SamePlaces(free: seq<bool>, chains: Chains, chains': Chains)
    requires Partition(free, chains, {}) && chains'.Keys == chains.Keys
    requires forall h :: h in chains ==> Parts(h, chains'[h]) == Parts(h, chains[h]) && Placed(h, chains'[h])
    ensures Partition(free, chains', {})
  {
    hide Parts, Placed;
    forall i: nat ensures InChain(chains', i) <==> InChain(chains, i) {
      if InChain(chains, i) {
        var g :| g in chains && i in Parts(g, chains[g]);
        assert g in chains' && i in Parts(g, chains'[g]);
      }
      if InChain(chains', i) {
        var g :| g in chains' && i in Parts(g, chains'[g]);
        assert g in chains && i in Parts(g, chains[g]);
      }
    }
  }

  /** So phases do not. */
  lemma Rephased(free: seq<bool>, chains: Chains, h: nat, p: Phase)
    requires Partition(free, chains, {}) && h in chains
    ensures Partition(free, To(chains, h, p), {})
  {
    SamePlaces(free, chains, chains[h := chains[h].(phase := p)]);
  }

  /** All that is kept about the requests but their places in memory. */
  ghost predicate Life(chains: Chains, queue: seq<nat>, done: seq<nat>, bufs: map<nat, Buf>,
                       served: seq<nat>, woken: seq<nat>, next: nat, size: nat) {
    && Lists(queue, chains, Queued) && Lists(done, chains, Served)
    && Owned(bufs, chains) && Counted(chains, served, woken, next) && Pending(chains, done, served, woken)
    && forall h :: h in chains ==> chains[h].blockno < size
  }

  /** The device holds exactly the requests it has taken and not served. */
  ghost predicate Holds(held: set<nat>, chains: Chains) {
    forall h: nat :: h in held <==> h in chains && chains[h].phase == Taken
  }

  // ------------------------------------------------------------------
  // The five events of a request's life

  function To(chains: Chains, h: nat, p: Phase): Chains
    requires h in chains
  {
    chains[h := chains[h].(phase := p)]
  }

  lemma SameBlocks(chains: Chains, h: nat, p: Phase, size: nat)
    requires forall g :: g in chains ==> chains[g].blockno < size
    ensures h in chains ==> forall g :: g in chains ==> To(chains, h, p)[g].blockno < size
  {
  }

  /** A request moves between phases other than p. */
  lemma ListsOther(w: seq<nat>, chains: Chains, h: nat, q: Phase, p: Phase)
    requires h in chains && Lists(w, chains, p) && chains[h].phase != p && q != p
    ensures Lists(w, To(chains, h, q), p)
  {
  }

  /** A request moves into phase p. */
  lemma ListsPush(w: seq<nat>, chains: Chains, h: nat, p: Phase)
    requires h in chains && Lists(w, chains, p) && chains[h].phase != p
    ensures Lists(w + [h], To(chains, h, p), p)
  {
  }

  /** The first request listed moves out of phase p. */
  lemma ListsPop(w: seq<nat>, chains: Chains, q: Phase, p: Phase)
    requires w != [] && Lists(w, chains, p) && q != p
    ensures w[0] in chains && chains[w[0]].phase == p && Lists(w[1..], To(chains, w[0], q), p)
  {
    var t := To(chains, w[0], q);
    forall h | h in t && t[h].phase == p ensures h in w[1..] {
      assert h in w && h != w[0];
    }
  }

  lemma OwnedTo(bufs: map<nat, Buf>, chains: Chains, h: nat, q: Phase)
    requires h in chains && Owned(bufs, chains) && chains[h].phase != Woken && q != Woken
    ensures Owned(bufs, To(chains, h, q))
  {
  }

  lemma PendingTo(chains: Chains, h: nat, q: Phase, done: seq<nat>, served: seq<nat>, woken: seq<nat>)
    requires h in chains && Pending(chains, done, served, woken)
    ensures Pending(To(chains, h, q), done, served, woken)
  {
  }

  /** A new request is queued. */
  lemma Submitted(chains: Chains, h: nat, c: Chain, queue: seq<nat>, done: seq<nat>, bufs: map<nat, Buf>,
                  served: seq<nat>, woken: seq<nat>, next: nat, size: nat)
    requires Life(chains, queue, done, bufs, served, woken, next, size) && h !in chains && c.phase == Queued
             && c.id == next
    requires c.buf in bufs && bufs[c.buf].blockno == c.blockno < size
             && (forall g :: g in chains ==> chains[g].buf != c.buf)
    ensures Life(chains[h := c], queue + [h], done, bufs[c.buf := bufs[c.buf].(disk := true)], served, woken, next + 1,
            size)
  {
    hide Counted, Lists, Owned, Pending;
    SubmittedCount(chains, h, c, served, woken, next);
    ListsNew(queue, done, chains, h, c);
    OwnedNew(bufs, chains, h, c);
    PendingNew(chains, h, c, done, served, woken);
  }

  lemma ListsNew(queue: seq<nat>, done: seq<nat>, chains: Chains, h: nat, c: Chain)
    requires h !in chains && c.phase == Queued && Lists(queue, chains, Queued) && Lists(done, chains, Served)
    ensures Lists(queue + [h], chains[h := c], Queued) && Lists(done, chains[h := c], Served)
  {
  }

  lemma OwnedNew(bufs: map<nat, Buf>, chains: Chains, h: nat, c: Chain)
    requires h !in chains && c.phase == Queued && Owned(bufs, chains)
    requires c.buf in bufs && bufs[c.buf].blockno == c.blockno && (forall g :: g in chains ==> chains[g].buf != c.buf)
    ensures Owned(bufs[c.buf := bufs[c.buf].(disk := true)], chains[h := c])
  {
  }

  lemma PendingNew(chains: Chains, h: nat, c: Chain, done: seq<nat>, served: seq<nat>, woken: seq<nat>)
    requires h !in chains && Pending(chains, done, served, woken)
    ensures Pending(chains[h := c], done, served, woken)
  {
  }

  lemma SubmittedCount(chains: Chains, h: nat, c: Chain, served: seq<nat>, woken: seq<nat>, next: nat)
    requires h !in chains && c.phase == Queued && c.id == next && Counted(chains, served, woken, next)
    ensures Counted(chains[h := c], served, woken, next + 1)
  {
    assert Complete(chains[h := c], woken, next + 1) by {
      CompleteMore(chains, h, c, woken, next);
    }
    hide Complete;
  }

  lemma CompleteMore(chains: Chains, h: nat, c: Chain, woken: seq<nat>, next: nat)
    requires h !in chains && c.id == next && Complete(chains, woken, next)
    ensures Complete(chains[h := c], woken, next + 1)
  {
    var chains' := chains[h := c];
    forall n: nat | n < next + 1 && n !in woken ensures exists g :: g in chains' && chains'[g].id == n {
      if n == next {
        assert h in chains' && chains'[h].id == n;
      } else {
        var g :| g in chains && chains[g].id == n;
        assert g in chains' && chains'[g].id == n;
      }
    }
  }

  /** The device takes the oldest request of the avail ring. */
  lemma TakenFirst(chains: Chains, queue: seq<nat>, done: seq<nat>, bufs: map<nat, Buf>,
                   served: seq<nat>, woken: seq<nat>, next: nat, size: nat)
    requires Life(chains, queue, done, bufs, served, woken, next, size) && queue != []
    ensures queue[0] in chains && chains[queue[0]].phase == Queued
    ensures Life(To(chains, queue[0], Taken), queue[1..], done, bufs, served, woken, next, size)
  {
    SameBlocks(chains, queue[0], Taken, size);
    hide Counted, Lists, Owned, Pending, To;
    ListsPop(queue, chains, Taken, Queued);
    ListsOther(done, chains, queue[0], Taken, Served);
    OwnedTo(bufs, chains, queue[0], Taken);
    PendingTo(chains, queue[0], Taken, done, served, woken);
    TakenCount(chains, queue[0], served, woken, next);
  }

  lemma TakenCount(chains: Chains, h: nat, served: seq<nat>, woken: seq<nat>, next: nat)
    requires h in chains && chains[h].phase == Queued && Counted(chains, served, woken, next)
    ensures Counted(To(chains, h, Taken), served, woken, next)
  {
    SameIds(chains, h, Taken, woken, woken, next);
    hide Complete, Numbered, Orderly;
  }

  /** Phases do not matter to the numbering. */
  lemma SameIds(chains: Chains, h: nat, p: Phase, woken: seq<nat>, woken': seq<nat>, next: nat)
    requires h in chains && Numbered(chains, next) && Complete(chains, woken, next) && woken <= woken'
    ensures Numbered(To(chains, h, p), next) && Complete(To(chains, h, p), woken', next)
  {
    var t := To(chains, h, p);
    forall n: nat | n < next && n !in woken' ensures exists g :: g in t && t[g].id == n {
      assert n !in woken;
      var g :| g in chains && chains[g].id == n;
      assert g in t && t[g].id == n;
    }
  }

  /** The device finishes a request it has taken and puts it in the used ring. */
  lemma ServedOne(chains: Chains, h: nat, queue: seq<nat>, done: seq<nat>, bufs: map<nat, Buf>,
                  served: seq<nat>, woken: seq<nat>, next: nat, size: nat)
    requires Life(chains, queue, done, bufs, served, woken, next, size) && h in chains && chains[h].phase == Taken
    ensures Life(To(chains, h, Served), queue, done + [h], bufs, served + [chains[h].id], woken, next, size)
  {
    SameBlocks(chains, h, Served, size);
    hide Counted, Lists, Owned, To;
    ListsPush(done, chains, h, Served);
    ListsOther(queue, chains, h, Served, Queued);
    OwnedTo(bufs, chains, h, Served);
    PendingPush(chains, h, done, served, woken);
    ServedCount(chains, h, served, woken, next);
  }

  lemma PendingPush(chains: Chains, h: nat, done: seq<nat>, served: seq<nat>, woken: seq<nat>)
    requires h in chains && Pending(chains, done, served, woken)
    ensures Pending(To(chains, h, Served), done + [h], served + [chains[h].id], woken)
  {
  }

  lemma ServedCount(chains: Chains, h: nat, served: seq<nat>, woken: seq<nat>, next: nat)
    requires h in chains && chains[h].phase == Taken && Counted(chains, served, woken, next)
    ensures Counted(To(chains, h, Served), served + [chains[h].id], woken, next)
  {
    SameIds(chains, h, Served, woken, woken, next);
    MarksServed(chains, h, served, woken, next);
    OrderlyServed(chains, h, served, woken, next);
    hide Numbered, Orderly, Complete, Marks;
  }

  lemma OrderlyServed(chains: Chains, h: nat, served: seq<nat>, woken: seq<nat>, next: nat)
    requires h in chains && chains[h].id < next && chains[h].id !in served && Orderly(served, woken, next)
    ensures Orderly(served + [chains[h].id], woken, next)
  {
  }

  lemma MarksServed(chains: Chains, h: nat, served: seq<nat>, woken: seq<nat>, next: nat)
    requires h in chains && chains[h].phase == Taken && Numbered(chains, next) && Marks(chains, served, woken)
    ensures chains[h].id !in served && Marks(To(chains, h, Served), served + [chains[h].id], woken)
  {
    var t, s := To(chains, h, Served), served + [chains[h].id];
    forall g | g in t ensures t[g].id in s <==> t[g].phase == Served || t[g].phase == Woken {
      assert g != h ==> chains[g].id != chains[h].id;
    }
  }

  /** The interrupt handler sees the oldest entry of the used ring. */
  lemma WokenFirst(chains: Chains, queue: seq<nat>, done: seq<nat>, bufs: map<nat, Buf>,
                   served: seq<nat>, woken: seq<nat>, next: nat, size: nat)
    requires Life(chains, queue, done, bufs, served, woken, next, size) && done != []
    ensures done[0] in chains && chains[done[0]].phase == Served && chains[done[0]].buf in bufs
    ensures var h, b := done[0], chains[done[0]].buf;
            Life(To(chains, h, Woken), queue, done[1..], bufs[b := bufs[b].(disk := false)], served,
            woken + [chains[h].id], next, size)
  {
    var h := done[0];
    SameBlocks(chains, h, Woken, size);
    hide Counted, Lists, Owned, Pending, To;
    ListsPop(done, chains, Woken, Served);
    ListsOther(queue, chains, h, Woken, Queued);
    OwnedDone(bufs, chains, h);
    PendingPop(chains, done, served, woken);
    WokenCount(chains, done, served, woken, next);
  }

  lemma OwnedDone(bufs: map<nat, Buf>, chains: Chains, h: nat)
    requires h in chains && Owned(bufs, chains)
    ensures chains[h].buf in bufs
    ensures var b := chains[h].buf; Owned(bufs[b := bufs[b].(disk := false)], To(chains, h, Woken))
  {
  }

  lemma PendingPop(chains: Chains, done: seq<nat>, served: seq<nat>, woken: seq<nat>)
    requires done != [] && Pending(chains, done, served, woken)
    ensures done[0] in chains && Pending(To(chains, done[0], Woken), done[1..], served, woken + [chains[done[0]].id])
  {
    var h := done[0];
    var t, w := To(chains, h, Woken), woken + [chains[h].id];
    forall k | 0 <= k < |done[1..]| ensures done[1..][k] in t && t[done[1..][k]].id == served[|w| + k] {
      assert done[k + 1] in chains && chains[done[k + 1]].id == served[|woken| + (k + 1)];
    }
  }

  lemma WokenCount(chains: Chains, done: seq<nat>, served: seq<nat>, woken: seq<nat>, next: nat)
    requires done != [] && Lists(done, chains, Served) && Counted(chains, served, woken, next)
             && Pending(chains, done, served, woken)
    ensures Counted(To(chains, done[0], Woken), served, woken + [chains[done[0]].id], next)
  {
    var h := done[0];
    assert chains[done[0]].id == served[|woken| + 0];
    SameIds(chains, h, Woken, woken, woken + [chains[h].id], next);
    MarksWoken(chains, h, served, woken, next);
    hide Numbered, Complete, Marks, To;
  }

  lemma MarksWoken(chains: Chains, h: nat, served: seq<nat>, woken: seq<nat>, next: nat)
    requires h in chains && chains[h].phase == Served && Numbered(chains, next) && Marks(chains, served, woken)
    ensures Marks(To(chains, h, Woken), served, woken + [chains[h].id])
  {
    var t, w := To(chains, h, Woken), woken + [chains[h].id];
    forall g | g in t ensures t[g].id in w <==> t[g].phase == Woken {
      assert g != h ==> chains[g].id != chains[h].id;
    }
  }

  /** A woken request is finished with. */
  lemma Finished(chains: Chains, h: nat, queue: seq<nat>, done: seq<nat>, bufs: map<nat, Buf>,
                 served: seq<nat>, woken: seq<nat>, next: nat, size: nat)
    requires Life(chains, queue, done, bufs, served, woken, next, size) && h in chains && chains[h].phase == Woken
    ensures Life(chains - {h}, queue, done, bufs, served, woken, next, size)
  {
    FinishedCount(chains, h, served, woken, next);
    hide Counted;
  }

  lemma FinishedCount(chains: Chains, h: nat, served: seq<nat>, woken: seq<nat>, next: nat)
    requires h in chains && chains[h].phase == Woken && Counted(chains, served, woken, next)
    ensures Counted(chains - {h}, served, woken, next)
  {
    var t := chains - {h};
    forall n: nat | n < next && n !in woken ensures exists g :: g in t && t[g].id == n {
      var g :| g in chains && chains[g].id == n;
      assert g in t && t[g].id == n;
    }
  }

  // ------------------------------------------------------------------
  // Formatting

  const CLEAR: Desc := Desc(Null, 0, false, false, 0)

  /** A descriptor that belongs to no request may be cleared. */
  lemma ClearKeeps(free: seq<bool>, desc: seq<Desc>, ops: seq<Op>, info: seq<Info>, chains: Chains, X: set<nat>, i: nat)
    requires Partition(free, chains, X) && AllFormatted(desc, ops, info, chains) && i in X && i < NUM
    ensures AllFormatted(desc[i := CLEAR], ops, info, chains)
  {
    hide Formatted, InChain;
    forall h | h in chains ensures Formatted(desc[i := CLEAR], ops, info, h, chains[h]) {
      assert i !in Parts(h, chains[h]);
      SameFormat(desc, desc[i := CLEAR], ops, ops, info, info, h, chains[h]);
    }
  }

  /** A request's format depends on its own descriptors only. */
  lemma SameFormat(desc: seq<Desc>, desc': seq<Desc>, ops: seq<Op>, ops': seq<Op>, info: seq<Info>, info': seq<Info>,
      h: nat, c: Chain)
    requires Formatted(desc, ops, info, h, c) && |desc'| == |ops'| == |info'| == NUM
    requires (forall j :: j in Parts(h, c) ==> desc'[j] == desc[j]) && ops'[h] == ops[h] && info'[h] == info[h]
    ensures Formatted(desc', ops', info', h, c)
  {
  }

  /** blockno * (BSIZE / 512), as a 32-bit product. */
  function SectorOf(blockno: nat): (s: nat)
    requires blockno < UINT / 2
    ensures s == blockno * (BSIZE / 512)
  {
    blockno * (BSIZE / 512) % UINT
  }

  /** virtio_disk_rw's formatting, written out. */
  function Descs(desc: seq<Desc>, h: nat, c: Chain): seq<Desc>
    requires |desc| == NUM && h < NUM && c.second < NUM && c.third < NUM
  {
    desc[h := Desc(OpAt(h), 16, true, false, c.second)]
        [c.second := Desc(DataOf(c.buf), BSIZE, true, !c.write, c.third)]
        [c.third := Desc(StatusAt(h), 1, false, true, 0)]
  }

  lemma FormatKeeps(free: seq<bool>, desc: seq<Desc>, ops: seq<Op>, info: seq<Info>, chains: Chains, h: nat, c: Chain)
    requires Partition(free, chains, Parts(h, c)) && AllFormatted(desc, ops, info, chains) && h !in chains
             && Placed(h, c) && c.phase == Queued
    ensures AllFormatted(Descs(desc, h, c), ops[h := Op(c.write, c.blockno * (BSIZE / 512))],
            info[h := Info(Some(c.buf), 0xff)], chains[h := c])
  {
    hide Formatted, Partition;
    var d, o, n :=
      Descs(desc, h, c), ops[h := Op(c.write, c.blockno * (BSIZE / 512))], info[h := Info(Some(c.buf), 0xff)];
    PartsApart(free, chains, Parts(h, c));
    forall g | g in chains ensures Formatted(d, o, n, g, chains[g]) {
      DescsSame(desc, h, c, Parts(g, chains[g]));
      SameFormat(desc, d, ops, o, info, n, g, chains[g]);
    }
    FormatNew(desc, ops, info, h, c);
  }

  lemma DescsSame(desc: seq<Desc>, h: nat, c: Chain, S: set<nat>)
    requires |desc| == NUM && Placed(h, c) && S !! Parts(h, c) && forall j :: j in S ==> j < NUM
    ensures forall j :: j in S ==> Descs(desc, h, c)[j] == desc[j]
  {
    assert forall j :: j in S ==> j !in Parts(h, c);
  }

  lemma PartsApart(free: seq<bool>, chains: Chains, X: set<nat>)
    requires Partition(free, chains, X)
    ensures forall g :: g in chains ==> Parts(g, chains[g]) !! X && Placed(g, chains[g])
  {
  }

  lemma FormatNew(desc: seq<Desc>, ops: seq<Op>, info: seq<Info>, h: nat, c: Chain)
    requires |desc| == |ops| == |info| == NUM && Placed(h, c) && c.phase == Queued
    ensures Formatted(Descs(desc, h, c), ops[h := Op(c.write, c.blockno * (BSIZE / 512))],
            info[h := Info(Some(c.buf), 0xff)], h, c)
  {
  }

  lemma FormatTo(desc: seq<Desc>, ops: seq<Op>, info: seq<Info>, chains: Chains, h: nat, p: Phase, status: nat)
    requires AllFormatted(desc, ops, info, chains) && h in chains && (p == Served ==> status == 0) && h < NUM
    ensures AllFormatted(desc, ops, info[h := info[h].(status := status)], To(chains, h, p))
  {
    var n, t := info[h := info[h].(status := status)], To(chains, h, p);
    forall g | g in chains ensures Formatted(desc, ops, n, g, t[g]) {
      assert Formatted(desc, ops, info, g, chains[g]);
    }
  }

  lemma FormatGone(desc: seq<Desc>, ops: seq<Op>, info: seq<Info>, chains: Chains, h: nat)
    requires AllFormatted(desc, ops, info, chains) && h in chains && h < NUM
    ensures AllFormatted(desc, ops, info[h := info[h].(b := None)], chains - {h})
  {
    forall g | g in chains - {h} ensures Formatted(desc, ops, info[h := info[h].(b := None)], g, chains[g]) {
      assert Formatted(desc, ops, info, g, chains[g]);
    }
  }

  // ------------------------------------------------------------------
  // Driver and device

  /** A step of the device. */
  datatype Act = Take | Serve(h: nat)

  /** The same request, perhaps further on. */
  ghost predicate SameRequest(c: Chain, d: Chain) {
    d == c.(phase := d.phase)
  }

  ghost predicate Evolved(a: Chains, b: Chains) {
    a.Keys == b.Keys && forall h :: h in a ==> SameRequest(a[h], b[h])
  }

  datatype Event = Rw(b: nat, write: bool) | Env(a: Act) | Interrupt(env: seq<seq<Act>>) | End(h: nat)

  // ------------------------------------------------------------------
  // Events, as steps

  /** What the requests, the buffers and the disk are; the rings and descriptors only carry it. */
  datatype View = View(
    free: seq<bool>, chains: Chains, queue: seq<nat>, done: seq<nat>, bufs: map<nat, Buf>, blocks: seq<Data>,
    served: seq<nat>, woken: seq<nat>, next: nat)

  /** A request for buffer b that has got the descriptors x. */
  ghost function Entered(v: View, b: nat, write: bool, x: seq<nat>): View
    requires AreFree(v.free, x) && b in v.bufs
  {
    v.(free := v.free[x[0] := false][x[1] := false][x[2] := false],
       chains := v.chains[x[0] := Chain(x[1], x[2], b, write, v.bufs[b].blockno, Queued, v.next)],
       queue := v.queue + [x[0]], bufs := v.bufs[b := v.bufs[b].(disk := true)], next := v.next + 1)
  }

  /** A buffer of the caller's, that is in no request, for a block of the disk. */
  ghost predicate MayAsk(v: View, b: nat) {
    b in v.bufs && v.bufs[b].blockno < |v.blocks| && forall g :: g in v.chains ==> v.chains[g].buf != b
  }

  /** virtio_disk_rw, up to its wait: it sleeps for descriptors exactly when three are not free. */
  ghost predicate RwStep(v: View, b: nat, write: bool, w: View) {
    if MayAsk(v, b) && exists x :: AreFree(v.free, x) then
      exists x :: AreFree(v.free, x) && w == Entered(v, b, write, x)
    else w == v
  }

  /** A step of the device, if it can take it. */
  ghost function ActAfter(v: View, a: Act): View {
    match a
    case Take =>
      if v.queue != [] && v.queue[0] in v.chains then
        v.(chains := To(v.chains, v.queue[0], Taken), queue := v.queue[1..])
      else v
    case Serve(h) =>
      if h in v.chains && v.chains[h].phase == Taken && v.chains[h].buf in v.bufs
        && v.chains[h].blockno < |v.blocks| then
        var c := v.chains[h];
        v.(chains := To(v.chains, h, Served), done := v.done + [h], served := v.served + [c.id],
           blocks := BlocksAfter(v.blocks, v.bufs, c.buf, c.write, c.blockno),
           bufs := BufsAfter(v.blocks, v.bufs, c.buf, c.write, c.blockno))
      else v
  }

  ghost function ActsAfter(v: View, acts: seq<Act>): View {
    if acts == [] then v else ActAfter(ActsAfter(v, acts[..|acts| - 1]), acts[|acts| - 1])
  }

  /** The interrupt handler's round: the oldest completion wakes its buffer. */
  ghost function Wake(v: View): View {
    if v.done != [] && v.done[0] in v.chains && v.chains[v.done[0]].buf in v.bufs then
      var c := v.chains[v.done[0]];
      v.(chains := To(v.chains, v.done[0], Woken), done := v.done[1..], woken := v.woken + [c.id],
         bufs := v.bufs[c.buf := v.bufs[c.buf].(disk := false)])
    else v
  }

  /** After n rounds, with the device acting after each as env says. */
  ghost function Rounds(v: View, env: seq<seq<Act>>, n: nat): View {
    if n == 0 then v else ActsAfter(Wake(Rounds(v, env, n - 1)), if n <= |env| then env[n - 1] else [])
  }

  /** virtio_disk_intr: as many rounds as there is something to see, and no more. */
  ghost predicate IntrIs(v: View, env: seq<seq<Act>>, n: nat, w: View) {
    w == Rounds(v, env, n) && w.done == [] && forall m: nat :: m < n ==> Rounds(v, env, m).done != []
  }

  /** virtio_disk_rw after its wait. */
  ghost function EndAfter(v: View, h: nat): View {
    if h in v.chains && v.chains[h].buf in v.bufs && !v.bufs[v.chains[h].buf].disk && Placed(h, v.chains[h])
      && |v.free| == NUM then
      v.(chains := v.chains - {h}, free := FreedUpTo(v.free, h, v.chains[h], 3))
    else v
  }

  ghost predicate EventStep(v: View, e: Event, w: View) {
    match e
    case Rw(b, write) => RwStep(v, b, write, w)
    case Env(a) => w == ActAfter(v, a)
    case Interrupt(env) => exists n: nat :: IntrIs(v, env, n, w)
    case End(h) => w == EndAfter(v, h)
  }

  /** No request is completed twice; with nothing in flight each is completed and all descriptors are free. */
  ghost predicate Sound(v: View) {
    && (forall n: nat :: n < v.next ==> multiset(v.woken)[n] <= 1)
    && (v.chains == map[] ==> forall n: nat :: n < v.next ==> multiset(v.woken)[n] == 1)
    && (v.chains == map[] ==> |v.free| == NUM && forall i :: 0 <= i < NUM ==> v.free[i])
  }

  ghost predicate Open(open: map<nat, nat>, chains: Chains) {
    open.Keys == chains.Keys && forall h :: h in chains ==> open[h] == chains[h].buf
  }

  /** The device changes no request's buffer, wakes nobody and makes no request. */
  lemma ActKeeps(v: View, a: Act)
    ensures var w := ActAfter(v, a); Evolved(v.chains, w.chains) && w.woken == v.woken && w.next == v.next
  {
  }

  lemma EvolvedThrough(a: Chains, b: Chains, c: Chains)
    requires Evolved(a, b) && Evolved(b, c)
    ensures Evolved(a, c)
  {
  }

  lemma {:induction false} ActsKeep(v: View, acts: seq<Act>)
    ensures var w := ActsAfter(v, acts); Evolved(v.chains, w.chains) && w.woken == v.woken && w.next == v.next
    decreases |acts|
  {
    hide ActAfter, Evolved;
    if acts == [] {
      EvolvedSame(v.chains);
    } else {
      var u := ActsAfter(v, acts[..|acts| - 1]);
      ActsKeep(v, acts[..|acts| - 1]);
      ActKeeps(u, acts[|acts| - 1]);
      EvolvedThrough(v.chains, u.chains, ActAfter(u, acts[|acts| - 1]).chains);
    }
  }

  lemma EvolvedSame(a: Chains)
    ensures Evolved(a, a)
  {
  }

  lemma {:induction false} RoundsKeep(v: View, env: seq<seq<Act>>, n: nat)
    ensures Evolved(v.chains, Rounds(v, env, n).chains)
    decreases n
  {
    hide ActsAfter, Evolved;
    if n == 0 {
      EvolvedSame(v.chains);
    } else {
      RoundsKeep(v, env, n - 1);
      var u, acts := Rounds(v, env, n - 1), if n <= |env| then env[n - 1] else [];
      WakeKeeps(u);
      ActsKeep(Wake(u), acts);
      EvolvedThrough(v.chains, u.chains, Wake(u).chains);
      EvolvedThrough(v.chains, Wake(u).chains, ActsAfter(Wake(u), acts).chains);
    }
  }

  lemma WakeKeeps(v: View)
    ensures Evolved(v.chains, Wake(v).chains)
  {
  }

  /**
   Carrying out a write puts the buffer's data in its block, a read the block's data in the
   buffer, and nothing else.
   */
  lemma ServeMeans(v: View, h: nat)
    requires h in v.chains && v.chains[h].phase == Taken && v.chains[h].buf in v.bufs
    requires v.chains[h].blockno < |v.blocks|
    ensures var c, w := v.chains[h], ActAfter(v, Serve(h));
            && |w.blocks| == |v.blocks| && w.bufs.Keys == v.bufs.Keys && w.served == v.served + [c.id]
            && (c.write ==> w.blocks[c.blockno] == v.bufs[c.buf].data && w.bufs == v.bufs)
            && (!c.write ==> w.bufs[c.buf] == v.bufs[c.buf].(data := v.blocks[c.blockno]) && w.blocks == v.blocks)
            && (forall n :: 0 <= n < |v.blocks| && n != c.blockno ==> w.blocks[n] == v.blocks[n])
            && (forall b :: b in v.bufs && b != c.buf ==> w.bufs[b] == v.bufs[b])
  {
  }

  /** The call of virtio_disk_rw that made request c, in a state v. */
  ghost predicate Asks(v: View, e: Event, c: Chain) {
    && e == Rw(c.buf, c.write) && c.buf in v.bufs && v.bufs[c.buf].blockno == c.blockno && c.id == v.next
  }

  /** A step makes no request but what it is asked for, and changes none. */
  lemma AskedStep(v: View, e: Event, w: View, h: nat)
    requires EventStep(v, e, w) && h in w.chains
    ensures Asks(v, e, w.chains[h]) || (h in v.chains && SameRequest(v.chains[h], w.chains[h]))
  {
    hide Rounds, ActAfter, Wake, ActsAfter;
    match e
    case Rw(b, write) =>
    case Env(a) => ActKeeps(v, a);
    case Interrupt(env) =>
      var n: nat :| IntrIs(v, env, n, w);
      RoundsKeep(v, env, n);
    case End(_) =>
  }

  /** In every run each request in flight is one that a call asked for: its buffer, its direction and its block. */
  lemma {:induction false} AskedFor(vs: seq<View>, events: seq<Event>, j: nat, h: nat) returns (i: nat)
    requires |vs| == |events| + 1 && vs[0].chains == map[] && j <= |events| && h in vs[j].chains
    requires forall k :: 0 <= k < |events| ==> EventStep(vs[k], events[k], vs[k + 1])
    ensures i < j && Asks(vs[i], events[i], vs[j].chains[h].(phase := Queued))
    decreases j
  {
    hide EventStep, Asks;
    assert EventStep(vs[j - 1], events[j - 1], vs[j - 1 + 1]);
    AskedStep(vs[j - 1], events[j - 1], vs[j], h);
    AsksSame(vs[j - 1], events[j - 1], vs[j].chains[h]);
    if Asks(vs[j - 1], events[j - 1], vs[j].chains[h]) {
      i := j - 1;
    } else {
      i := AskedFor(vs, events, j - 1, h);
    }
  }

  lemma AsksSame(v: View, e: Event, c: Chain)
    ensures Asks(v, e, c) <==> Asks(v, e, c.(phase := Queued))
  {
  }

  lemma AllFree(free: seq<bool>, chains: Chains)
    requires Partition(free, chains, {})
    ensures |free| == NUM && (chains == map[] ==> forall i :: 0 <= i < NUM ==> free[i])
  {
  }

  class Disk {
    var desc: seq<Desc>
    var free: seq<bool>
    var ops: seq<Op>
    var info: seq<Info>
    var avail: seq<nat>       // avail->ring
    var availIdx: nat         // avail->idx
    var used: seq<nat>        // used->ring, the id fields
    var usedIdx: nat          // used->idx, written by the device
    var seenIdx: nat          // disk.used_idx
    var takenIdx: nat         // the device's own place in the avail ring
    var held: set<nat>        // requests the device is working on
    var bufs: map<nat, Buf>
    var blocks: seq<Data>     // on the device

    ghost var chains: Chains
    ghost var queue: seq<nat>   // heads in the avail ring that the device has not taken
    ghost var done: seq<nat>    // heads in the used ring that the driver has not seen
    ghost var taken: nat        // how many requests the device has taken
    ghost var seen: nat         // how many completions the driver has seen
    ghost var served: seq<nat>  // requests, in the order the device finished them
    ghost var woken: seq<nat>   // requests, in the order the driver woke them
    ghost var next: nat         // the number of the next request

    /** The descriptor table, with the descriptors of X set aside. */
    ghost predicate TableOk(X: set<nat>)
      reads `free, `chains, `desc, `ops, `info
    {
      Partition(free, chains, X) && AllFormatted(desc, ops, info, chains)
    }

    /** Each ring holds what its 16-bit indices say. */
    ghost predicate RingsOk()
      reads `avail, `availIdx, `used, `usedIdx, `seenIdx, `takenIdx, `queue, `done, `taken, `seen
    {
      && Window(avail, taken, queue) && Window(used, seen, done)
      && takenIdx == Wrap(taken) && availIdx == Wrap(taken + |queue|)
      && seenIdx == Wrap(seen) && usedIdx == Wrap(seen + |done|)
    }

    ghost predicate LifeOk()
      reads `chains, `queue, `done, `bufs, `served, `woken, `next, `blocks
    {
      Life(chains, queue, done, bufs, served, woken, next, |blocks|) && |blocks| <= UINT / 2
    }

    ghost predicate Valid()
      reads this
    {
      TableOk({}) && RingsOk() && LifeOk() && Holds(held, chains)
    }

    ghost function Seen(): View
      reads this
    {
      View(free, chains, queue, done, bufs, blocks, served, woken, next)
    }

    /** An initialised queue (virtio_disk_init): all descriptors free, both rings empty. */
    constructor (bufs0: map<nat, Buf>, blocks0: seq<Data>)
      requires |blocks0| <= UINT / 2
      ensures Valid() && bufs == bufs0 && blocks == blocks0 && chains == map[] && next == 0
              && free == seq(NUM, _ => true)
    {
      desc, free := seq(NUM, _ => CLEAR), seq(NUM, _ => true);
      ops, info := seq(NUM, _ => Op(false, 0)), seq(NUM, _ => Info(None, 0));
      avail, availIdx, used, usedIdx, seenIdx, takenIdx := seq(NUM, _ => 0), 0, seq(NUM, _ => 0), 0, 0, 0;
      held, bufs, blocks := {}, bufs0, blocks0;
      chains, queue, done, taken, seen, served, woken, next := map[], [], [], 0, 0, [], [], 0;
    }

    /** alloc_desc: the lowest free descriptor, or -1. */
    method AllocDesc(ghost X: set<nat>) returns (i: int)
      requires TableOk(X)
      modifies this`free
      ensures -1 <= i < NUM && (i < 0 <==> forall j :: 0 <= j < NUM ==> !old(free)[j])
      ensures i < 0 ==> free == old(free)
      ensures i >= 0 ==> old(free)[i] && free == old(free)[i := false] && i !in X && TableOk(X + {i})
    {
      i := 0;
      while i < NUM
        invariant 0 <= i <= NUM && free == old(free)
        invariant forall j :: 0 <= j < i ==> !free[j]
      {
        if free[i] {
          Reserve(free, chains, X, i);
          free := free[i := false];
          return;
        }
        i := i + 1;
      }
      i := -1;
    }

    /** free_desc; neither of its panics can happen. */
    method FreeDesc(i: nat, ghost X: set<nat>)
      requires TableOk(X) && i in X && i < NUM
      modifies this`free, this`desc
      ensures !old(free)[i] && free == old(free)[i := true] && desc == old(desc)[i := CLEAR]
      ensures TableOk(X - {i})
    {
      Unreserve(free, chains, X, i);
      ClearKeeps(free, desc, ops, info, chains, X, i);
      desc := desc[i := CLEAR];
      free := free[i := true];
    }

    /** alloc3_desc: three descriptors, or none and the free array as it was. */
    method Alloc3() returns (ok: bool, idx: seq<nat>)
      requires TableOk({})
      modifies this`free, this`desc
      ensures ok ==> |idx| == 3 && Distinct(idx) && TableOk({idx[0], idx[1], idx[2]}) && desc == old(desc)
      ensures ok ==> AreFree(old(free), idx) && free == old(free)[idx[0] := false][idx[1] := false][idx[2] := false]
      ensures ok ==> forall k :: 0 <= k < 3 ==> idx[k] < NUM && old(free)[idx[k]]
      ensures !ok ==> free == old(free) && TableOk({})
      ensures ok <==> exists w: seq<nat> :: AreFree(old(free), w)
    {
      assert |free| == NUM && Elems([]) == {};
      hide AllFormatted, Partition;
      idx := [];
      ok := true;
      for i := 0 to 3
        invariant |idx| == i && Distinct(idx) && TableOk(Elems(idx)) && desc == old(desc)
        invariant Claimed(old(free), free, idx)
      {
        ghost var before := free;
        var d := AllocDesc(Elems(idx));
        if d < 0 {
          NoneLeft(old(free), free, idx);
          Rollback(idx, old(free));
          return false, [];
        }
        ElemsMore(idx, d);
        ClaimedMore(old(free), before, idx, d);
        idx := idx + [d];
      }
      assert Elems(idx) == {idx[0], idx[1], idx[2]};
      assert AreFree(old(free), idx);
    }

    /** The second loop of alloc3_desc. */
    method Rollback(idx: seq<nat>, ghost before: seq<bool>)
      requires Distinct(idx) && TableOk(Elems(idx)) && Claimed(before, free, idx)
      modifies this`free, this`desc
      ensures free == before && TableOk({})
    {
      hide AllFormatted, Partition;
      for j := 0 to |idx|
        invariant TableOk(Elems(idx[j..])) && Claimed(before, free, idx[j..])
      {
        assert idx[j..][0] == idx[j] && idx[j..][1..] == idx[j + 1..];
        ElemsLess(idx[j..]);
        ClaimedLess(before, free, idx[j..]);
        FreeDesc(idx[j], Elems(idx[j..]));
      }
      assert idx[|idx|..] == [];
      assert Elems([]) == {};
    }

    /** free_chain: follows the chain and frees exactly its descriptors. */
    method FreeChain(i: nat, ghost c: Chain)
      requires Placed(i, c) && TableOk(Parts(i, c)) && Linked(desc, i, c)
      modifies this`free, this`desc
      ensures TableOk({}) && free == FreedUpTo(old(free), i, c, 3)
    {
      assert |free| == NUM;
      hide AllFormatted, Partition, Placed;
      ghost var k := 0;
      var cur := i;
      RestNext(i, c, 0);
      while true
        invariant 0 <= k < 3 && cur == Cur(i, c, k) < NUM && TableOk(Rest(i, c, k)) && |desc| == NUM
        invariant free == FreedUpTo(old(free), i, c, k)
        invariant forall j :: j in Rest(i, c, k) && j < NUM ==> desc[j] == old(desc)[j]
        decreases 3 - k
      {
        RestNext(i, c, k);
        var flag, nxt := desc[cur].more, desc[cur].next;
        FreeDesc(cur, Rest(i, c, k));
        k := k + 1;
        if flag {
          cur := nxt;
        } else {
          break;
        }
      }
    }

    /**
     virtio_disk_rw up to its wait: false if it has to sleep for descriptors, else the
     request is formatted and put in the avail ring.
     */
    method Submit(b: nat, write: bool) returns (ok: bool, idx: seq<nat>)
      requires Valid() && MayAsk(Seen(), b)
      modifies this
      ensures Valid() && (ok <==> exists w: seq<nat> :: AreFree(old(free), w)) && (ok ==> |idx| == 3)
      ensures if ok then AreFree(old(free), idx) && Seen() == Entered(old(Seen()), b, write, idx)
              else Seen() == old(Seen())
    {
      hide Partition, AllFormatted, Life, Window, AreFree, RingsOk;
      ok, idx := Alloc3();
      if ok {
        Issue(idx[0], idx[1], idx[2], b, write);
      }
    }

    /** virtio_disk_rw from the three descriptors to the avail ring. */
    method Issue(h: nat, second: nat, third: nat, b: nat, write: bool)
      requires b in bufs && bufs[b].blockno < |blocks| && RingsOk() && LifeOk() && Holds(held, chains)
      requires forall g :: g in chains ==> chains[g].buf != b
      requires var c := Chain(second, third, b, write, bufs[b].blockno, Queued, next);
               Placed(h, c) && TableOk(Parts(h, c))
      modifies this
      ensures Valid() && blocks == old(blocks) && served == old(served) && woken == old(woken) && next == old(next) + 1
      ensures free == old(free) && queue == old(queue) + [h] && done == old(done)
      ensures h !in old(chains)
              && chains == old(chains)[h := Chain(second, third, b, write, old(bufs)[b].blockno, Queued, old(next))]
      ensures bufs == old(bufs)[b := old(bufs)[b].(disk := true)]
    {
      hide Partition, AllFormatted, Life, Placed, Parts, RingsOk, Holds;
      IssueData(h, second, third, b, write);
      Enqueue(h);
    }

    /** All of Issue but the avail ring. */
    method IssueData(h: nat, second: nat, third: nat, b: nat, write: bool)
      requires b in bufs && bufs[b].blockno < |blocks| && LifeOk() && Holds(held, chains)
      requires forall g :: g in chains ==> chains[g].buf != b
      requires var c := Chain(second, third, b, write, bufs[b].blockno, Queued, next);
               Placed(h, c) && TableOk(Parts(h, c))
      modifies `desc, `ops, `info, `chains, `bufs, `next
      ensures TableOk({}) && Holds(held, chains) && next == old(next) + 1 && |queue| < NUM
      ensures Life(chains, queue + [h], done, bufs, served, woken, next, |blocks|) && |blocks| <= UINT / 2
      ensures h !in old(chains)
              && chains == old(chains)[h := Chain(second, third, b, write, old(bufs)[b].blockno, Queued, old(next))]
      ensures bufs == old(bufs)[b := old(bufs)[b].(disk := true)]
    {
      hide Partition, AllFormatted, Life, Placed, Parts, Holds;
      HoldsNew(held, chains, h, Chain(second, third, b, write, bufs[b].blockno, Queued, next));
      Format(h, second, third, b, write);
      Submitted(old(chains), h, chains[h], queue, done, bufs, served, woken, next, |blocks|);
      QueueRoom(old(chains), queue, done, bufs, served, woken, next, |blocks|, h);
      bufs := bufs[b := bufs[b].(disk := true)];
      next := next + 1;
    }

    /** The formatting of the three descriptors. */
    method Format(h: nat, second: nat, third: nat, b: nat, write: bool)
      requires b in bufs && bufs[b].blockno < |blocks| <= UINT / 2
      requires var c := Chain(second, third, b, write, bufs[b].blockno, Queued, next);
               Placed(h, c) && TableOk(Parts(h, c))
      modifies this`desc, this`ops, this`info, this`chains
      ensures h < NUM && h !in old(chains) && (forall g :: g in old(chains) ==> g < NUM)
      ensures chains == old(chains)[h := Chain(second, third, b, write, bufs[b].blockno, Queued, next)]
      ensures TableOk({})
    {
      ghost var c := Chain(second, third, b, write, bufs[b].blockno, Queued, next);
      assert |ops| == NUM && |desc| == NUM && |info| == NUM && h < NUM && second < NUM && third < NUM;
      ReservedApart(free, chains, h, c);
      hide Partition, AllFormatted, Placed, Parts, SectorOf;
      FormatKeeps(free, desc, ops, info, chains, h, c);
      Enter(free, chains, Parts(h, c), h, c);
      var sector := SectorOf(bufs[b].blockno);
      var d := desc[h := Desc(OpAt(h), 16, true, false, second)];
      d := d[second := Desc(DataOf(b), BSIZE, true, !write, third)];
      d := d[third := Desc(StatusAt(h), 1, false, true, 0)];
      assert d == Descs(desc, h, c);
      ops, desc, info := ops[h := Op(write, sector)], d, info[h := Info(Some(b), 0xff)];
      chains := chains[h := c];
    }

    /** The avail ring and its index. */
    method Enqueue(h: nat)
      requires RingsOk() && |queue| < NUM
      modifies this`avail, this`availIdx, this`queue
      ensures RingsOk() && queue == old(queue) + [h]
    {
      hide Window, Wrap;
      WindowPush(avail, taken, queue, h);
      SlotOf(taken + |queue|);
      WindowSize(avail, taken, queue);
      avail := avail[availIdx % NUM := h];
      availIdx := (availIdx + 1) % WRAP;
      queue := queue + [h];
    }

    // ----------------------------------------------------------------
    // The device (sections 2.6 and 5.2 of VIRTIO 1.1)

    /** The device takes the next request from the avail ring, if there is one. */
    method DeviceTake() returns (ok: bool, h: nat)
      requires Valid()
      modifies `takenIdx, `taken, `queue, `chains, `held
      ensures Valid() && (ok <==> old(queue) != [])
      ensures ok ==> old(queue)[0] == h && h in old(chains) && chains == To(old(chains), h, Taken)
      ensures ok ==> queue == old(queue)[1..] && taken == old(taken) + 1
      ensures !ok ==> chains == old(chains) && queue == old(queue) && taken == old(taken)
    {
      hide Partition, AllFormatted, Life, To, RingsOk, Holds;
      ok, h := PopAvail();
      if ok {
        TakenFirst(chains, old(queue), done, bufs, served, woken, next, |blocks|);
        SameStatus(desc, ops, info, chains, h, Taken);
        Rephased(free, chains, h, Taken);
        HoldsTo(held, chains, h, Taken);
        chains := To(chains, h, Taken);
        held := held + {h};
      } else {
        h := 0;
      }
    }

    /** The device's reading of the avail ring. */
    method PopAvail() returns (ok: bool, h: nat)
      requires RingsOk()
      modifies `takenIdx, `taken, `queue
      ensures RingsOk() && (ok <==> old(queue) != [])
      ensures ok ==> old(queue)[0] == h && queue == old(queue)[1..] && taken == old(taken) + 1
      ensures !ok ==> queue == old(queue) && taken == old(taken)
    {
      hide Window, Wrap;
      WindowSize(avail, taken, queue);
      IndexEqual(taken, taken + |queue|);
      SlotOf(taken);
      ok, h := false, 0;
      if takenIdx != availIdx {
        WindowPop(avail, taken, queue);
        ok, h := true, avail[takenIdx % NUM];
        takenIdx := (takenIdx + 1) % WRAP;
        taken, queue := taken + 1, queue[1..];
      }
    }

    /**
     The device carries out a request it has taken, reading it from the descriptors, and
     puts it in the used ring: exactly the transfer that was asked for.
     */
    method DeviceServe(h: nat)
      requires Valid() && h in chains && chains[h].phase == Taken
      modifies `bufs, `blocks, `info, `used, `usedIdx, `chains, `done, `served, `held
      ensures Valid() && chains == To(old(chains), h, Served)
      ensures done == old(done) + [h] && served == old(served) + [old(chains)[h].id]
      ensures var c := old(chains)[h];
              && c.buf in old(bufs) && c.blockno < |old(blocks)|
              && blocks == BlocksAfter(old(blocks), old(bufs), c.buf, c.write, c.blockno)
              && bufs == BufsAfter(old(blocks), old(bufs), c.buf, c.write, c.blockno)
    {
      hide Partition, AllFormatted, Life, To, RingsOk, BlocksAfter, BufsAfter, Holds;
      ServeData(h);
      PushUsed(h);
    }

    /** All of DeviceServe but the used ring. */
    method ServeData(h: nat)
      requires TableOk({}) && LifeOk() && Holds(held, chains) && RingsOk() && h in chains && chains[h].phase == Taken
      modifies `bufs, `blocks, `info, `chains, `served, `held
      ensures TableOk({}) && Holds(held, chains) && chains == To(old(chains), h, Served)
              && served == old(served) + [old(chains)[h].id]
      ensures Life(chains, queue, done + [h], bufs, served, woken, next, |blocks|) && |blocks| <= UINT / 2
              && |done| < NUM
      ensures var c := old(chains)[h];
              && c.buf in old(bufs) && c.blockno < |old(blocks)|
              && blocks == BlocksAfter(old(blocks), old(bufs), c.buf, c.write, c.blockno)
              && bufs == BufsAfter(old(blocks), old(bufs), c.buf, c.write, c.blockno)
    {
      hide Partition, AllFormatted, Life, To, BlocksAfter, BufsAfter, Holds, RingsOk;
      ServeKeeps(h);
      HoldsTo(held, chains, h, Served);
      Carry(h);
      ghost var id := chains[h].id;
      chains, served := To(chains, h, Served), served + [id];
      held := held - {h};
    }

    /** What serving h will keep. */
    lemma ServeKeeps(h: nat)
      requires TableOk({}) && LifeOk() && h in chains && chains[h].phase == Taken
      ensures |done| < NUM && h < NUM == |info| && chains[h].buf in bufs && chains[h].blockno < |blocks|
      ensures Partition(free, To(chains, h, Served), {})
      ensures AllFormatted(desc, ops, info[h := info[h].(status := 0)], To(chains, h, Served))
      ensures Life(To(chains, h, Served), queue, done + [h],
              BufsAfter(blocks, bufs, chains[h].buf, chains[h].write, chains[h].blockno),
                   served + [chains[h].id], woken, next, |blocks|)
    {
      hide Partition, AllFormatted, Life, To, BufsAfter;
      var c := chains[h];
      DoneRoom(h);
      ReadChain(h);
      LifeAt(chains, queue, done, bufs, served, woken, next, |blocks|, h);
      ServedOne(chains, h, queue, done, bufs, served, woken, next, |blocks|);
      FormatTo(desc, ops, info, chains, h, Served, 0);
      Rephased(free, chains, h, Served);
      SameLife(To(chains, h, Served), queue, done + [h], bufs, served + [c.id], woken, next, blocks, c.buf, c.write,
        c.blockno);
    }

    /** The device's work on the data. */
    method Carry(h: nat)
      requires TableOk({}) && h in chains && chains[h].buf in bufs && chains[h].blockno < |blocks|
      modifies `bufs, `blocks, `info
      ensures blocks == BlocksAfter(old(blocks), old(bufs), chains[h].buf, chains[h].write, chains[h].blockno)
      ensures bufs == BufsAfter(old(blocks), old(bufs), chains[h].buf, chains[h].write, chains[h].blockno)
      ensures h < NUM == |old(info)| && info == old(info)[h := old(info)[h].(status := 0)]
    {
      hide Partition, AllFormatted, Life, BlocksAfter, BufsAfter;
      ReadChain(h);
      Transfer(h, chains[h].buf, chains[h].write, chains[h].blockno);
    }

    /** The transfer that the descriptors from h describe. */
    method Transfer(h: nat, ghost buf: nat, ghost write: bool, ghost blockno: nat)
      requires h < NUM && |desc| == |ops| == |info| == NUM && desc[h].next < NUM && desc[desc[h].next].next < NUM
      requires desc[h].addr == OpAt(h) && desc[desc[h].next].addr == DataOf(buf)
               && desc[desc[desc[h].next].next].addr == StatusAt(h)
      requires ops[h] == Op(write, blockno * (BSIZE / 512)) && buf in bufs && blockno < |blocks|
      requires Acceptable(desc[h], desc[desc[h].next], desc[desc[desc[h].next].next], write)
      modifies `bufs, `blocks, `info
      ensures blocks == BlocksAfter(old(blocks), old(bufs), buf, write, blockno)
      ensures bufs == BufsAfter(old(blocks), old(bufs), buf, write, blockno)
      ensures info == old(info)[h := old(info)[h].(status := 0)]
    {
      var header := desc[h];
      var body := desc[header.next];
      var tail := desc[body.next];
      var op, b := ops[header.addr.i], body.addr.b;
      var bno := op.sector / (BSIZE / 512);
      if op.write {
        blocks := blocks[bno := bufs[b].data];
      } else {
        bufs := bufs[b := bufs[b].(data := blocks[bno])];
      }
      info := info[tail.addr.i := info[tail.addr.i].(status := 0)];
    }

    /** The device's update of the used ring. */
    method PushUsed(h: nat)
      requires RingsOk() && |done| < NUM
      modifies `used, `usedIdx, `done
      ensures RingsOk() && done == old(done) + [h]
    {
      hide Window, Wrap;
      WindowPush(used, seen, done, h);
      SlotOf(seen + |done|);
      WindowSize(used, seen, done);
      used := used[usedIdx % NUM := h];
      usedIdx := (usedIdx + 1) % WRAP;
      done := done + [h];
    }

    /** What following the descriptors from h gives. */
    lemma ReadChain(h: nat)
      requires TableOk({}) && h in chains
      ensures h < NUM && |desc| == |ops| == |info| == NUM && desc[h].next < NUM && desc[desc[h].next].next < NUM
      ensures desc[h].addr == OpAt(h) && desc[desc[h].next].addr == DataOf(chains[h].buf)
      ensures desc[desc[desc[h].next].next].addr == StatusAt(h)
      ensures ops[h] == Op(chains[h].write, chains[h].blockno * (BSIZE / 512))
      ensures Acceptable(desc[h], desc[desc[h].next], desc[desc[desc[h].next].next], chains[h].write)
    {
      assert Formatted(desc, ops, info, h, chains[h]);
    }

    lemma DoneRoom(h: nat)
      requires TableOk({}) && LifeOk() && h in chains && chains[h].phase != Served
      ensures |done| < NUM
    {
      RoomFor(done, h);
    }

    // ----------------------------------------------------------------
    // The interrupt handler

    /** One round of virtio_disk_intr's loop; the status it checks is always 0. */
    method IntrOne()
      requires Valid() && seenIdx != usedIdx
      modifies `seenIdx, `seen, `done, `bufs, `chains, `woken
      ensures Valid() && old(done) != [] && done == old(done)[1..] && seen == old(seen) + 1
      ensures old(done)[0] in old(chains) && chains == To(old(chains), old(done)[0], Woken)
      ensures woken == old(woken) + [old(chains)[old(done)[0]].id]
      ensures var b := old(chains)[old(done)[0]].buf;
              b in old(bufs) && bufs == old(bufs)[b := old(bufs)[b].(disk := false)]
    {
      hide Partition, AllFormatted, Life, To, RingsOk, Holds;
      var id := PopUsed();
      WokenFirst(chains, queue, old(done), bufs, served, woken, next, |blocks|);
      ReadInfo(id);
      SameStatus(desc, ops, info, chains, id, Woken);
      Rephased(free, chains, id, Woken);
      assert info[id].status == 0;
      var b := info[id].b.value;
      ghost var n := chains[id].id;
      HoldsTo(held, chains, id, Woken);
      bufs := bufs[b := bufs[b].(disk := false)];
      chains, woken := To(chains, id, Woken), woken + [n];
    }

    /** The same round, as a step. */
    method IntrRound()
      requires Valid() && seenIdx != usedIdx
      modifies `seenIdx, `seen, `done, `bufs, `chains, `woken
      ensures Valid() && old(done) != [] && Seen() == Wake(old(Seen())) && |woken| == |old(woken)| + 1
    {
      hide Partition, AllFormatted, Life, To, RingsOk, Holds;
      FirstQueued();
      IntrOne();
    }

    /** The driver's reading of the used ring. */
    method PopUsed() returns (id: nat)
      requires RingsOk() && seenIdx != usedIdx
      modifies `seenIdx, `seen, `done
      ensures RingsOk() && old(done) != [] && id == old(done)[0] && done == old(done)[1..] && seen == old(seen) + 1
    {
      hide Window, Wrap;
      WindowSize(used, seen, done);
      IndexEqual(seen, seen + |done|);
      SlotOf(seen);
      WindowPop(used, seen, done);
      id := used[seenIdx % NUM];
      seenIdx := (seenIdx + 1) % WRAP;
      seen, done := seen + 1, done[1..];
    }

    /** A step of the device, if it can take it. */
    method DeviceAct(a: Act)
      requires Valid()
      modifies `bufs, `chains, `takenIdx, `taken, `queue, `held, `blocks, `info, `used, `usedIdx, `done, `served
      ensures Valid() && Seen() == ActAfter(old(Seen()), a)
    {
      hide Partition, AllFormatted, Life, RingsOk, To, BlocksAfter, BufsAfter;
      match a
      case Take =>
        FirstQueued();
        var ok, h := DeviceTake();
      case Serve(h) =>
        if h in held {
          DeviceServe(h);
        }
    }

    lemma FirstQueued()
      requires LifeOk()
      ensures queue != [] ==> queue[0] in chains
      ensures done != [] ==> done[0] in chains && chains[done[0]].buf in bufs
    {
      hide Counted, Pending;
    }

    method DeviceActs(acts: seq<Act>)
      requires Valid()
      modifies `bufs, `chains, `takenIdx, `taken, `queue, `held, `blocks, `info, `used, `usedIdx, `done, `served
      ensures Valid() && Seen() == ActsAfter(old(Seen()), acts)
    {
      hide Partition, AllFormatted, Life, RingsOk, Holds, ActAfter;
      for j := 0 to |acts|
        invariant Valid() && Seen() == ActsAfter(old(Seen()), acts[..j])
      {
        assert acts[..j + 1][..j] == acts[..j];
        DeviceAct(acts[j]);
      }
      assert acts[..|acts|] == acts;
    }

    /**
     virtio_disk_intr, with the device acting after each of its rounds as env says: it ends,
     with nothing left unseen.
     */
    method Intr(env: seq<seq<Act>>) returns (ghost n: nat)
      requires Valid()
      modifies `seenIdx, `seen, `bufs, `chains, `woken, `takenIdx, `taken, `queue, `held, `blocks, `info, `used,
               `usedIdx, `done, `served
      ensures Valid() && IntrIs(old(Seen()), env, n, Seen())
    {
      hide Partition, AllFormatted, Life, RingsOk, Holds, To, ActsAfter, Wake, Evolved;
      var i := 0;
      Bounded();
      while seenIdx != usedIdx
        invariant 0 <= i && Valid() && |woken| <= next && Seen() == Rounds(old(Seen()), env, i)
        invariant forall m: nat :: m < i ==> Rounds(old(Seen()), env, m).done != []
        decreases next - |woken|
      {
        IntrRound();
        ghost var v := Seen();
        var acts := if i < |env| then env[i] else [];
        ActsKeep(v, acts);
        DeviceActs(acts);
        Bounded();
        i := i + 1;
      }
      n := i;
      NothingLeft();
    }

    /** No more requests are woken than were made. */
    lemma Bounded()
      requires Valid()
      ensures |woken| <= next
    {
      hide Below;
      assert Distinct(woken);
      DistinctSize(woken, Below(next));
    }

    lemma NothingLeft()
      requires RingsOk() && seenIdx == usedIdx
      ensures done == []
    {
      IndexEqual(seen, seen + |done|);
    }

    // ----------------------------------------------------------------
    // The end of a request

    /** virtio_disk_rw after its wait: the request has been woken once, and its descriptors are free again. */
    method Finish(h: nat)
      requires Valid() && h in chains && chains[h].buf in bufs && !bufs[chains[h].buf].disk
      modifies `info, `chains, `desc, `free
      ensures Valid() && chains == old(chains) - {h} && old(chains)[h].id in woken
      ensures h < NUM && old(chains)[h].second < NUM && old(chains)[h].third < NUM && |old(free)| == NUM
      ensures free == FreedUpTo(old(free), h, old(chains)[h], 3)
    {
      hide Partition, AllFormatted, Life, RingsOk, To, FreedUpTo, Lists, Pending, Counted;
      ghost var c := chains[h];
      IsWoken(h);
      Finished(chains, h, queue, done, bufs, served, woken, next, |blocks|);
      FormatGone(desc, ops, info, chains, h);
      Leave(free, chains, h);
      info := info[h := info[h].(b := None)];
      chains := chains - {h};
      FreeChain(h, c);
    }

    lemma IsWoken(h: nat)
      requires Valid() && h in chains && chains[h].buf in bufs && !bufs[chains[h].buf].disk
      ensures chains[h].phase == Woken && chains[h].id in woken
      ensures |free| == NUM && |info| == NUM && Placed(h, chains[h]) && Linked(desc, h, chains[h])
    {
      assert Formatted(desc, ops, info, h, chains[h]);
    }

    /**
     Any run of requests, device steps, interrupts and returns goes through the states that
     the events make, and each of them is sound: no request has been completed twice, and
     when nothing is in flight every request has been completed once and every descriptor
     is free.
     */
    method Run(events: seq<Event>) returns (ghost vs: seq<View>)
      requires Valid() && chains == map[]
      modifies this
      ensures Valid() && |vs| == |events| + 1 && vs[0] == old(Seen()) && vs[|events|] == Seen()
      ensures forall i :: 0 <= i < |events| ==> EventStep(vs[i], events[i], vs[i + 1])
      ensures forall i :: 0 <= i <= |events| ==> Sound(vs[i])
    {
      hide Partition, AllFormatted, Life, RingsOk, Holds, EventStep, Sound;
      var open: map<nat, nat> := map[];
      vs := [Seen()];
      IsSound();
      for i := 0 to |events|
        invariant Valid() && Open(open, chains) && |vs| == i + 1 && vs[0] == old(Seen()) && vs[i] == Seen()
        invariant forall j :: 0 <= j < i ==> EventStep(vs[j], events[j], vs[j + 1])
        invariant forall j :: 0 <= j <= i ==> Sound(vs[j])
      {
        open := Perform(events[i], open);
        IsSound();
        vs := vs + [Seen()];
      }
    }

    lemma IsSound()
      requires Valid()
      ensures Sound(Seen())
    {
      hide Partition, Life;
      forall n: nat | n < next ensures multiset(woken)[n] <= 1 && (chains == map[] ==> multiset(woken)[n] == 1) {
        ExactlyOnce(chains, queue, done, bufs, served, woken, next, |blocks|, n);
      }
      AllFree(free, chains);
    }

    /** One event; open has the buffer of every request that has not returned. */
    method Perform(e: Event, open: map<nat, nat>) returns (open': map<nat, nat>)
      requires Valid() && Open(open, chains)
      modifies this
      ensures Valid() && Open(open', chains) && EventStep(old(Seen()), e, Seen())
    {
      hide Partition, AllFormatted, Life, RingsOk, Holds, AreFree, ActAfter, Rounds, To;
      open' := open;
      match e
      case Rw(b, write) =>
        AskOpen(open, b);
        if b in bufs && bufs[b].blockno < |blocks| && b !in open.Values {
          var ok, idx := Submit(b, write);
          if ok {
            open' := open[idx[0] := b];
          }
        }
      case Env(a) =>
        ActKeeps(Seen(), a);
        DeviceAct(a);
      case Interrupt(env) =>
        ghost var n := Intr(env);
        RoundsKeep(old(Seen()), env, n);
      case End(h) =>
        if h in open {
          OpenBuf(open, h);
          if !bufs[open[h]].disk {
            Finish(h);
            open' := open - {h};
          }
        }
    }

    lemma AskOpen(open: map<nat, nat>, b: nat)
      requires Open(open, chains)
      ensures MayAsk(Seen(), b) <==> b in bufs && bufs[b].blockno < |blocks| && b !in open.Values
    {
      if b in open.Values {
        var h :| h in open && open[h] == b;
      }
    }

    lemma OpenBuf(open: map<nat, nat>, h: nat)
      requires Valid() && Open(open, chains) && h in open
      ensures h in chains && open[h] == chains[h].buf && open[h] in bufs && Placed(h, chains[h]) && |free| == NUM
    {
    }

    lemma ReadInfo(h: nat)
      requires TableOk({}) && h in chains && chains[h].phase == Served
      ensures h < NUM && |info| == NUM && info[h] == Info(Some(chains[h].buf), 0)
    {
      assert Formatted(desc, ops, info, h, chains[h]);
    }
  }

  /** The k-th descriptor of a chain. */
  ghost function Cur(h: nat, c: Chain, k: int): nat {
    if k == 0 then h else if k == 1 then c.second else c.third
  }

  /** Those from the k-th on. */
  ghost function Rest(h: nat, c: Chain, k: int): set<nat> {
    if k == 0 then Parts(h, c) else if k == 1 then {c.second, c.third} else if k == 2 then {c.third} else {}
  }

  ghost function FreedUpTo(free: seq<bool>, h: nat, c: Chain, k: int): seq<bool>
    requires |free| == NUM && h < NUM && c.second < NUM && c.third < NUM
  {
    if k <= 0 then free
    else if k == 1 then free[h := true]
    else if k == 2 then free[h := true][c.second := true]
    else free[h := true][c.second := true][c.third := true]
  }

  lemma RestNext(h: nat, c: Chain, k: nat)
    requires Placed(h, c) && k < 3
    ensures h < NUM && c.second < NUM && c.third < NUM && Cur(h, c, k) in Rest(h, c, k)
    ensures Rest(h, c, k) - {Cur(h, c, k)} == Rest(h, c, k + 1)
  {
  }

  ghost function Elems(w: seq<nat>): set<nat> {
    set k | 0 <= k < |w| :: w[k]
  }

  /** Three different free descriptors. */
  ghost predicate AreFree(free: seq<bool>, w: seq<nat>) {
    |w| == 3 && Distinct(w) && forall k :: 0 <= k < 3 ==> w[k] < |free| && free[w[k]]
  }

  /** free is before with the descriptors of idx taken. */
  ghost predicate Claimed(before: seq<bool>, free: seq<bool>, idx: seq<nat>) {
    && |free| == |before| == NUM
    && (forall k :: 0 <= k < |idx| ==> idx[k] < NUM && before[idx[k]])
    && forall j: nat :: j < NUM ==> (free[j] <==> before[j] && j !in idx)
  }

  /** The links that free_chain follows. */
  ghost predicate Linked(desc: seq<Desc>, h: nat, c: Chain) {
    && |desc| == NUM && h < NUM && c.second < NUM && c.third < NUM
    && desc[h].more && desc[h].next == c.second && desc[c.second].more && desc[c.second].next == c.third
       && !desc[c.third].more
  }

  lemma ElemsMore(w: seq<nat>, d: nat)
    ensures Elems(w + [d]) == Elems(w) + {d} && forall x :: x in Elems(w) <==> x in w
  {
    assert forall k :: 0 <= k < |w| ==> (w + [d])[k] == w[k];
    assert (w + [d])[|w|] == d;
  }

  lemma ElemsLess(w: seq<nat>)
    requires w != [] && Distinct(w)
    ensures w[0] in Elems(w) && Elems(w) - {w[0]} == Elems(w[1..])
  {
    forall k | 1 <= k < |w| ensures w[k] in Elems(w[1..]) && w[k] != w[0] {
      assert w[1..][k - 1] == w[k];
    }
  }

  lemma ClaimedMore(before: seq<bool>, free: seq<bool>, idx: seq<nat>, d: nat)
    requires Claimed(before, free, idx) && d < NUM && free[d]
    ensures Claimed(before, free[d := false], idx + [d]) && d !in idx && (Distinct(idx) ==> Distinct(idx + [d]))
  {
  }

  lemma ClaimedLess(before: seq<bool>, free: seq<bool>, idx: seq<nat>)
    requires Claimed(before, free, idx) && idx != [] && Distinct(idx)
    ensures idx[0] < NUM && Claimed(before, free[idx[0] := true], idx[1..])
  {
    forall j: nat | j < NUM ensures j in idx[1..] <==> j in idx && j != idx[0] {
      if j in idx && j != idx[0] {
        var k :| 0 <= k < |idx| && idx[k] == j;
        assert idx[1..][k - 1] == j;
      }
    }
  }

  /** When nothing is free any more, fewer than three were free before. */
  lemma NoneLeft(before: seq<bool>, free: seq<bool>, idx: seq<nat>)
    requires Claimed(before, free, idx) && |idx| < 3 && forall j :: 0 <= j < NUM ==> !free[j]
    ensures !exists w: seq<nat> :: AreFree(before, w)
  {
    forall w: seq<nat> ensures !AreFree(before, w) {
      if AreFree(before, w) {
        assert w[0] in idx && w[1] in idx && w[2] in idx;
        DistinctSize(w, Elems(idx));
        ElemsSize(idx);
      }
    }
  }

  lemma {:induction false} ElemsSize(w: seq<nat>)
    ensures |Elems(w)| <= |w|
    decreases |w|
  {
    if w != [] {
      var init, last := w[..|w| - 1], w[|w| - 1];
      ElemsSize(init);
      assert w == init + [last];
      ElemsMore(init, last);
    } else {
      assert Elems(w) == {};
    }
  }

  /** A descriptor set aside heads no request. */
  lemma ReservedApart(free: seq<bool>, chains: Chains, h: nat, c: Chain)
    requires Partition(free, chains, Parts(h, c))
    ensures h !in chains && forall g :: g in chains ==> g < NUM
  {
    assert h in chains ==> h in Parts(h, chains[h]);
  }

  lemma WindowSize(ring: seq<nat>, n: nat, w: seq<nat>)
    requires Window(ring, n, w)
    ensures |ring| == NUM && |w| <= NUM
  {
  }

  lemma QueueRoom(chains: Chains, queue: seq<nat>, done: seq<nat>, bufs: map<nat, Buf>,
                  served: seq<nat>, woken: seq<nat>, next: nat, size: nat, h: nat)
    requires Life(chains, queue, done, bufs, served, woken, next, size) && h !in chains && h < NUM
    requires forall g :: g in chains ==> g < NUM
    ensures |queue| < NUM
  {
    RoomFor(queue, h);
  }

  lemma HoldsTo(held: set<nat>, chains: Chains, h: nat, p: Phase)
    requires Holds(held, chains) && h in chains
    ensures Holds(if p == Taken then held + {h} else held - {h}, To(chains, h, p))
    ensures chains[h].phase != Taken ==> held - {h} == held
  {
  }

  lemma HoldsNew(held: set<nat>, chains: Chains, h: nat, c: Chain)
    requires Holds(held, chains) && c.phase == Queued
    ensures h !in chains ==> Holds(held, chains[h := c])
  {
  }

  lemma SameStatus(desc: seq<Desc>, ops: seq<Op>, info: seq<Info>, chains: Chains, h: nat, p: Phase)
    requires AllFormatted(desc, ops, info, chains) && h in chains && p != Served
    ensures AllFormatted(desc, ops, info, To(chains, h, p))
  {
    forall g | g in chains ensures Formatted(desc, ops, info, g, To(chains, h, p)[g]) {
      assert Formatted(desc, ops, info, g, chains[g]);
    }
  }

  lemma LifeAt(chains: Chains, queue: seq<nat>, done: seq<nat>, bufs: map<nat, Buf>,
               served: seq<nat>, woken: seq<nat>, next: nat, size: nat, h: nat)
    requires Life(chains, queue, done, bufs, served, woken, next, size) && h in chains
    ensures chains[h].buf in bufs && chains[h].blockno < size
  {
  }

  /** The disk after a request: a write puts the buffer's data in the block. */
  function BlocksAfter(blocks: seq<Data>, bufs: map<nat, Buf>, b: nat, write: bool, blockno: nat): (r: seq<Data>)
    requires b in bufs && blockno < |blocks|
    ensures |r| == |blocks|
  {
    if write then blocks[blockno := bufs[b].data] else blocks
  }

  /** The buffers after a request: a read puts the block's data in the buffer. */
  function BufsAfter(blocks: seq<Data>, bufs: map<nat, Buf>, b: nat, write: bool, blockno: nat): map<nat, Buf>
    requires b in bufs && blockno < |blocks|
  {
    if write then bufs else bufs[b := bufs[b].(data := blocks[blockno])]
  }

  /** The contents of buffers do not matter to requests. */
  lemma SameLife(chains: Chains, queue: seq<nat>, done: seq<nat>, bufs: map<nat, Buf>,
                 served: seq<nat>, woken: seq<nat>, next: nat, blocks: seq<Data>, b: nat, write: bool, blockno: nat)
    requires Life(chains, queue, done, bufs, served, woken, next, |blocks|) && b in bufs && blockno < |blocks|
    ensures Life(chains, queue, done, BufsAfter(blocks, bufs, b, write, blockno), served, woken, next, |blocks|)
  {
    hide Lists, Counted, Pending;
  }

  /** Every request made is in flight or was woken, and no request is woken twice. */
  lemma ExactlyOnce(chains: Chains, queue: seq<nat>, done: seq<nat>, bufs: map<nat, Buf>,
                    served: seq<nat>, woken: seq<nat>, next: nat, size: nat, n: nat)
    requires Life(chains, queue, done, bufs, served, woken, next, size) && n < next
    ensures multiset(woken)[n] ==
            if exists h :: h in chains && chains[h].id == n && chains[h].phase != Woken then 0 else 1
  {
    hide Lists, Owned, Pending;
    CountOnce(woken, n);
    if n !in woken {
      var h :| h in chains && chains[h].id == n;
      assert chains[h].phase != Woken;
    }
  }

  lemma {:induction false} CountOnce(w: seq<nat>, n: nat)
    requires Distinct(w)
    ensures multiset(w)[n] == if n in w then 1 else 0
    decreases |w|
  {
    if w != [] {
      var init, last := w[..|w| - 1], w[|w| - 1];
      assert w == init + [last];
      CountOnce(init, n);
    }
  }
}
