/**
 What the callers of the log must keep to (kernel/log.c, kernel/bio.c, kernel/file.c): how
 many different blocks an operation may log, and how many buffers may be in use, so that
 neither log_write nor bget panics in any interleaving.
 */
module LogQuota {
  import opened Sets
  import opened Wal
  import opened LruList
  import opened BufferCache
  import GC = GroupCommit
  import LC = LogCache
  import FS = FileSystem
  import BlockMap

  // ------------------------------------------------------------------
  // Blocks logged

  /** The block that operation id logs in this step, if it does. */
  function Adds(c: LC.State, l: LC.Label, id: nat): set<nat> {
    if l.LogWrite? && l.k < |c.ops| && l.i < |c.bufs| && c.ops[l.k].id == id then {c.bufs[l.i].blockno} else {}
  }

  /** The blocks that operation id has logged in the first i steps. */
  function Logged(cs: seq<LC.State>, ls: seq<LC.Label>, i: nat, id: nat): set<nat>
    requires i <= |ls| < |cs|
  {
    if i == 0 then {} else Logged(cs, ls, i - 1, id) + Adds(cs[i - 1], ls[i - 1], id)
  }

  lemma {:induction false} LoggedGrows(cs: seq<LC.State>, ls: seq<LC.Label>, i: nat, j: nat, id: nat)
    requires i <= j <= |ls| < |cs|
    ensures Logged(cs, ls, i, id) <= Logged(cs, ls, j, id)
    decreases j
  {
    if i < j {
      LoggedGrows(cs, ls, i, j - 1, id);
    }
  }

  /** What operation o has logged is in the header, and pays for its new entries. */
  ghost predicate Pays(c: LC.State, o: GC.Op, w: set<nat>) {
    o.id < c.nextId && o.used <= |w| && forall b :: b in w ==> b in c.lh
  }

  ghost predicate Tracks(cs: seq<LC.State>, ls: seq<LC.Label>, i: nat)
    requires i <= |ls| < |cs|
  {
    && (forall k :: 0 <= k < |cs[i].ops| ==> Pays(cs[i], cs[i].ops[k], Logged(cs, ls, i, cs[i].ops[k].id)))
    && (forall id: nat :: id >= cs[i].nextId ==> Logged(cs, ls, i, id) == {})
  }

  /** A new header entry is for a block that its operation has not logged before. */
  lemma PaysMore(c: LC.State, L: Layout, q: nat, l: LC.Label, k: nat, w: set<nat>)
    requires LC.Can(c, L, q, l) && l.LogWrite? && k < |c.ops| && Pays(c, c.ops[k], w)
    ensures var d := LC.Next(c, L, q, l);
            k < |d.ops| && d.ops[k].id == c.ops[k].id && Pays(d, d.ops[k], w + Adds(c, l, c.ops[k].id))
  {
    var b := c.bufs[l.i].blockno;
    if k == l.k && b !in c.lh {
      assert b !in w;
      assert |w + {b}| == |w| + 1;
    } else {
      SubsetSize(w, w + Adds(c, l, c.ops[k].id));
    }
  }

  /** Operation k of d was there before, with the same header. */
  ghost predicate Stays(c: LC.State, d: LC.State, k: nat, j: nat)
    requires k < |d.ops|
  {
    j < |c.ops| && d.ops[k].id == c.ops[j].id && d.ops[k].used == c.ops[j].used && d.lh == c.lh
  }

  /** Other steps log nothing, and take entries out of the header only with no operation outstanding. */
  lemma OthersStay(c: LC.State, s: GC.State, L: Layout, init: Disk, q: nat, l: LC.Label, k: nat) returns (j: nat)
    requires LC.Joint(c, s, L, init) && LC.Can(c, L, q, l) && !l.LogWrite?
    requires k < |LC.Next(c, L, q, l).ops|
    ensures var d := LC.Next(c, L, q, l);
            Stays(c, d, k, j) || (l.Begin? && d.ops[k].id == c.nextId < d.nextId && d.ops[k].used == 0)
  {
    hide LC.Mine, LC.Views, LC.Moving, GC.Agrees, GC.Covered, GC.Whole, Recoverable, GoodHead, PackHead;
    j := if l.End? && |c.ops| > 1 && k >= l.k then k + 1 else k;
  }

  lemma IdsGrow(c: LC.State, L: Layout, q: nat, l: LC.Label)
    requires LC.Can(c, L, q, l)
    ensures c.nextId <= LC.Next(c, L, q, l).nextId
  {
  }

  lemma StepTracks(cs: seq<LC.State>, ls: seq<LC.Label>, L: Layout, q: nat, init: Disk, i: nat)
    requires LC.IsRun(cs, ls, L, q, init) && i < |ls| < |cs| && Tracks(cs, ls, i)
    ensures Tracks(cs, ls, i + 1)
  {
    hide LC.Can, LC.Next, LC.Panics, LC.Start, LC.Joint, Pays;
    var s := LC.RunJoint(cs, ls, L, q, init, i);
    assert LC.StepAt(cs, ls, L, q, i);
    var c, d, l, n := cs[i], cs[i + 1], ls[i], i + 1;
    IdsGrow(c, L, q, l);
    forall id: nat | id >= d.nextId ensures Logged(cs, ls, n, id) == {} {
      NotYet(cs, ls, i, id);
    }
    forall k | 0 <= k < |d.ops| ensures Pays(d, d.ops[k], Logged(cs, ls, i + 1, d.ops[k].id)) {
      if l.LogWrite? {
        SameOps(c, L, q, l);
        PaysMore(c, L, q, l, k, Logged(cs, ls, i, c.ops[k].id));
      } else {
        var j := OthersStay(c, s, L, init, q, l, k);
        StillPays(c, d, k, j, Logged(cs, ls, i, d.ops[k].id));
      }
    }
  }

  lemma SameOps(c: LC.State, L: Layout, q: nat, l: LC.Label)
    requires LC.Can(c, L, q, l) && l.LogWrite?
    ensures |LC.Next(c, L, q, l).ops| == |c.ops|
  {
  }

  lemma StillPays(c: LC.State, d: LC.State, k: nat, j: nat, w: set<nat>)
    requires k < |d.ops| && c.nextId <= d.nextId
    ensures Stays(c, d, k, j) && Pays(c, c.ops[j], w) ==> Pays(d, d.ops[k], w)
    ensures d.ops[k].id < d.nextId && d.ops[k].used == 0 && w == {} ==> Pays(d, d.ops[k], w)
  {
  }

  /** Nobody logs for an operation that has not begun. */
  lemma NotYet(cs: seq<LC.State>, ls: seq<LC.Label>, i: nat, id: nat)
    requires i < |ls| < |cs| && Tracks(cs, ls, i) && id >= cs[i].nextId
    ensures Logged(cs, ls, i + 1, id) == {}
  {
  }

  /** In every run an operation has added no more entries to the header than it has logged different blocks. */
  lemma {:induction false} RunTracks(cs: seq<LC.State>, ls: seq<LC.Label>, L: Layout, q: nat, init: Disk, i: nat)
    requires LC.IsRun(cs, ls, L, q, init) && i <= |ls|
    ensures |cs| == |ls| + 1 && Tracks(cs, ls, i)
  {
    hide LC.Can, LC.Next, LC.Panics;
    if i > 0 {
      RunTracks(cs, ls, L, q, init, i - 1);
      StepTracks(cs, ls, L, q, init, i - 1);
    }
  }

  /** A step that adds an entry needs one more block. */
  lemma WithinSets(c: LC.State, L: Layout, q: nat, p: nat, l: LC.Label, w: set<nat>)
    requires LC.Can(c, L, q, l)
    requires l.LogWrite? ==> Pays(c, c.ops[l.k], w) && |w + Adds(c, l, c.ops[l.k].id)| <= p
    ensures LC.Can(c, L, p, l) && LC.Next(c, L, p, l) == LC.Next(c, L, q, l)
  {
    if l.LogWrite? && c.bufs[l.i].blockno !in c.lh {
      assert |w + {c.bufs[l.i].blockno}| == |w| + 1;
    }
  }

  lemma StepWithin(cs: seq<LC.State>, ls: seq<LC.Label>, L: Layout, q: nat, p: nat, init: Disk, i: nat, l: LC.Label)
    requires LC.IsRun(cs, ls, L, q, init) && i <= |ls| < |cs| && LC.Can(cs[i], L, q, l)
    requires forall id: nat :: |Logged(cs, ls, i, id) + Adds(cs[i], l, id)| <= p
    ensures LC.Can(cs[i], L, p, l) && LC.Next(cs[i], L, p, l) == LC.Next(cs[i], L, q, l)
  {
    hide LC.Next, LC.Start, LC.Panics, Logged, Pays;
    RunTracks(cs, ls, L, q, init, i);
    var c := cs[i];
    WithinSets(c, L, q, p, l, if l.LogWrite? then Logged(cs, ls, i, c.ops[l.k].id) else {});
  }

  /** A run in which no operation logs more than p different blocks keeps to a quota of p. */
  lemma QuotaFromSets(cs: seq<LC.State>, ls: seq<LC.Label>, L: Layout, q: nat, p: nat, init: Disk)
    requires LC.IsRun(cs, ls, L, q, init)
    requires forall id: nat :: |Logged(cs, ls, |ls|, id)| <= p
    ensures LC.IsRun(cs, ls, L, p, init)
  {
    hide LC.Can, LC.Next, LC.Panics, LC.Start;
    forall i | 0 <= i < |ls| ensures LC.StepAt(cs, ls, L, p, i) {
      assert LC.StepAt(cs, ls, L, q, i);
      forall id: nat ensures |Logged(cs, ls, i, id) + Adds(cs[i], ls[i], id)| <= p {
        LoggedGrows(cs, ls, i + 1, |ls|, id);
        SubsetSize(Logged(cs, ls, i + 1, id), Logged(cs, ls, |ls|, id));
      }
      StepWithin(cs, ls, L, q, p, init, i, ls[i]);
    }
  }

  /**
   log_write never panics in a run in which every operation logs at most MAXOPBLOCKS - 1
   different blocks, the one it is about to log included.
   */
  lemma SetsSuffice(cs: seq<LC.State>, ls: seq<LC.Label>, L: Layout, q: nat, init: Disk, l: LC.Label)
    requires LC.IsRun(cs, ls, L, q, init) && L.size == LOGSIZE && LC.Can(cs[|ls|], L, q, l)
    requires forall id: nat :: |Logged(cs, ls, |ls|, id) + Adds(cs[|ls|], l, id)| <= MAXOPBLOCKS - 1
    ensures !LC.Panics(cs[|ls|], L, l)
  {
    hide LC.Can, LC.Next, LC.Panics, LC.Start, Logged, Adds;
    forall id: nat ensures |Logged(cs, ls, |ls|, id)| <= MAXOPBLOCKS - 1 {
      SubsetSize(Logged(cs, ls, |ls|, id), Logged(cs, ls, |ls|, id) + Adds(cs[|ls|], l, id));
    }
    QuotaFromSets(cs, ls, L, q, MAXOPBLOCKS - 1, init);
    StepWithin(cs, ls, L, q, MAXOPBLOCKS - 1, init, |ls|, l);
    LC.NoPanic(cs, ls, L, MAXOPBLOCKS - 1, init, |ls|, l);
  }

  /**
   So the chunks of filewrite are safe on a disk with up to three bitmap blocks: if the
   blocks of every operation are among those of a transaction within filewrite's budget,
   log_write does not panic.
   */
  lemma ChunksSuffice(cs: seq<LC.State>, ls: seq<LC.Label>, L: Layout, q: nat, init: Disk, l: LC.Label,
      lay: BlockMap.Layout, txns: nat -> set<nat>)
    requires LC.IsRun(cs, ls, L, q, init) && L.size == LOGSIZE && LC.Can(cs[|ls|], L, q, l)
    requires lay.size <= 3 * BlockMap.BPB
    requires forall id: nat :: FS.Affordable(txns(id), lay)
    requires forall id: nat :: Logged(cs, ls, |ls|, id) + Adds(cs[|ls|], l, id) <= txns(id)
    ensures !LC.Panics(cs[|ls|], L, l)
  {
    hide LC.Can, LC.Next, LC.Panics, LC.Start, Logged, Adds, FS.Affordable;
    forall id: nat ensures |Logged(cs, ls, |ls|, id) + Adds(cs[|ls|], l, id)| <= MAXOPBLOCKS - 1 {
      FS.WithinQuota(txns(id), lay);
      SubsetSize(Logged(cs, ls, |ls|, id) + Adds(cs[|ls|], l, id), txns(id));
    }
    SetsSuffice(cs, ls, L, q, init, l);
  }

  // ------------------------------------------------------------------
  // Buffers left

  /** The buffers in use that no header entry pins. */
  ghost function Others(c: LC.State): set<nat> {
    set x | x in c.claims && x.i < |c.bufs| && LC.Pins(c, x.i) == 0 :: x.i
  }

  /** The header entries that still pin their buffer. */
  function Pinning(c: LC.State): nat {
    if c.phase.Booting? || c.unpinned > |c.lh| then 0 else |c.lh| - c.unpinned
  }

  ghost function Used(c: LC.State): set<nat> {
    set i: nat | i < |c.bufs| && c.bufs[i].refcnt > 0
  }

  /** The buffers of header entries n and up. */
  ghost function Keeping(c: LC.State, n: nat): set<nat>
    requires n <= |c.lh|
  {
    set i: nat | i < |c.bufs| && c.bufs[i].dev == ROOTDEV && c.bufs[i].blockno in c.lh[n..]
  }

  /** Each pinned block has a buffer of its own. */
  lemma {:induction false} KeepingSize(c: LC.State, L: Layout, n: nat)
    requires LC.Buffers(c) && LC.Kept(c) && GoodHead(c.lh, L, |c.disk|)
    requires !c.phase.Booting? && c.unpinned <= n <= |c.lh|
    ensures |Keeping(c, n)| == |c.lh| - n
    decreases |c.lh| - n
  {
    hide Keeping, LC.Buffers, LC.Kept, GoodHead;
    if n < |c.lh| {
      KeepingSize(c, L, n + 1);
      var j := KeptAt(c, n);
      KeepingNext(c, L, n, j);
    } else {
      assert c.lh[n..] == [];
      assert Keeping(c, n) == {} by {
        KeepingNone(c);
      }
    }
  }

  lemma KeepingNone(c: LC.State)
    ensures Keeping(c, |c.lh|) == {}
  {
  }

  lemma KeptAt(c: LC.State, n: nat) returns (j: nat)
    requires LC.Kept(c) && !c.phase.Booting? && c.unpinned <= n < |c.lh|
    ensures j < |c.bufs| && Has(c.bufs[j], c.lh[n])
  {
    var b := c.lh[n];
    assert c.lh[c.unpinned..][n - c.unpinned] == b;
    assert LC.Pinned(c, b);
    j :| 0 <= j < |c.bufs| && Has(c.bufs[j], b) && c.bufs[j].valid;
  }

  lemma KeepingNext(c: LC.State, L: Layout, n: nat, j: nat)
    requires LC.Buffers(c) && GoodHead(c.lh, L, |c.disk|) && n < |c.lh| && j < |c.bufs| && Has(c.bufs[j], c.lh[n])
    ensures |Keeping(c, n)| == |Keeping(c, n + 1)| + 1
  {
    var b := c.lh[n];
    assert c.lh[n..] == [b] + c.lh[n + 1..];
    assert b !in c.lh[n + 1..];
    forall i: nat | i < |c.bufs| && c.bufs[i].dev == ROOTDEV && c.bufs[i].blockno == b ensures i == j {
      LC.OneBuffer(c, i, j, b);
    }
    assert Keeping(c, n) == Keeping(c, n + 1) + {j};
  }

  lemma UsedIs(c: LC.State, i: nat)
    requires LC.Counted(c) && i < |c.bufs|
    ensures c.bufs[i].refcnt > 0 <==> LC.Pins(c, i) == 1 || i in Others(c)
  {
    if LC.Pins(c, i) == 0 && c.bufs[i].refcnt > 0 {
      var x := Pick(LC.On(c.claims, i));
      assert x in c.claims && x.i == i;
    }
    if i in Others(c) {
      var x :| x in c.claims && x.i == i;
      LC.ClaimedUsed(c, x);
    }
  }

  /** The buffers in use are those that a header entry pins and the others. */
  lemma UsedSize(c: LC.State, L: Layout)
    requires LC.Buffers(c) && LC.Kept(c) && LC.Counted(c) && GoodHead(c.lh, L, |c.disk|) && c.unpinned <= |c.lh|
    ensures |Used(c)| == Pinning(c) + |Others(c)|
  {
    hide LC.Buffers, LC.Kept, LC.Counted, Others;
    var pinned := set i: nat | i < |c.bufs| && LC.Pins(c, i) == 1;
    forall i: nat | i < |c.bufs| ensures c.bufs[i].refcnt > 0 <==> i in pinned || i in Others(c) {
      UsedIs(c, i);
    }
    OthersApart(c);
    assert Used(c) == pinned + Others(c);
    if c.phase.Booting? {
      assert pinned == {};
    } else {
      assert pinned == Keeping(c, c.unpinned);
      KeepingSize(c, L, c.unpinned);
    }
  }

  lemma OthersApart(c: LC.State)
    ensures forall i :: i in Others(c) ==> i < |c.bufs| && LC.Pins(c, i) == 0
  {
  }

  lemma SomeFree(c: LC.State)
    ensures (exists j: nat :: j < |c.bufs| && c.bufs[j].refcnt == 0) <==> |Used(c)| < |c.bufs|
  {
    var all := Below(|c.bufs|);
    if j: nat :| j < |c.bufs| && c.bufs[j].refcnt == 0 {
      SubsetSize(Used(c), all - {j});
    } else {
      assert Used(c) == all;
    }
  }

  /**
   bget finds a buffer, in every state of every run, exactly when its block is cached or
   the pinned buffers and the others in use are fewer than there are.
   */
  lemma BufferExact(cs: seq<LC.State>, ls: seq<LC.Label>, L: Layout, q: nat, init: Disk, i: nat, u: nat, b: nat)
    requires LC.IsRun(cs, ls, L, q, init) && i < |cs| && b < |cs[i].disk| && !LC.Waits(cs[i], u)
    ensures (exists j :: LC.Can(cs[i], L, q, LC.Ref(u, b, j))) <==>
            LC.Cached(cs[i].bufs, b) || Pinning(cs[i]) + |Others(cs[i])| < NBUF
  {
    var s := LC.RunJoint(cs, ls, L, q, init, i);
    hide LC.IsRun, LC.Can, LC.Views, LC.Counted, LC.Locks, LC.Kept, LC.Fresh, LC.DirtyHeld, LC.Cached, Others;
    UsedSize(cs[i], L);
    RefExact(cs[i], L, q, u, b);
  }

  lemma RefExact(c: LC.State, L: Layout, q: nat, u: nat, b: nat)
    requires b < |c.disk| && !LC.Waits(c, u)
    ensures (exists j :: LC.Can(c, L, q, LC.Ref(u, b, j))) <==> LC.Cached(c.bufs, b) || |Used(c)| < |c.bufs|
  {
    hide LC.Waits, Used;
    SomeFree(c);
    if LC.Cached(c.bufs, b) {
      var j :| 0 <= j < |c.bufs| && Has(c.bufs[j], b);
      assert LC.Can(c, L, q, LC.Ref(u, b, j));
    } else if j: nat :| j < |c.bufs| && c.bufs[j].refcnt == 0 {
      assert LC.Can(c, L, q, LC.Ref(u, b, j));
    }
  }

  /** With MAXOPBLOCKS - 1 entries per operation, it does as long as at most one buffer is in use besides the pinned. */
  lemma BufferSuffices(cs: seq<LC.State>, ls: seq<LC.Label>, L: Layout, q: nat, init: Disk, i: nat, u: nat, b: nat)
    requires LC.IsRun(cs, ls, L, q, init) && i < |cs| && b < |cs[i].disk| && !LC.Waits(cs[i], u)
    requires q <= MAXOPBLOCKS - 1 && |Others(cs[i])| <= 1
    ensures exists j :: LC.Can(cs[i], L, q, LC.Ref(u, b, j))
  {
    var s := LC.RunJoint(cs, ls, L, q, init, i);
    hide LC.IsRun, LC.Can, LC.Mine, LC.Views, LC.Moving, Others, GC.Agrees, GC.Covered, GC.Whole;
    GC.UnusedBound(s.ops, MAXOPBLOCKS - 1);
    BufferExact(cs, ls, L, q, init, i, u, b);
  }
}
