/**
 kernel/log.c over kernel/bio.c, interleaved: any number of processes take references to
 buffers, wait for their locks, read, modify, log and release blocks and end operations,
 while the last operation to end commits through the same buffers.  A step is what the
 code does under one lock, one transfer of the disk, or one change of a held buffer.

 The committing process may take and release buffers in any order, as every process may;
 what it copies and writes is fixed by how far the commit is and by the buffers it holds.
 */
module LogCache {
  import opened Sets
  import opened Wal
  import opened LruList
  import GC = GroupCommit

  /** Why a process counts in a buffer's refcnt: bget waits for the lock, bread returned it, brelse is under way. */
  datatype Kind = Wants | Holds | Drops

  datatype Claim = Claim(user: nat, i: nat, kind: Kind)

  datatype State = State(
    disk: Disk,
    bufs: seq<Cell>,
    claims: set<Claim>,
    lh: seq<int>,         // log.lh
    unpinned: nat,        // header entries whose pin install_trans has taken back
    ops: seq<GC.Op>,      // the operations outstanding, each with the id of its process
    phase: GC.Phase,      // how far commit or recovery is
    committer: nat,       // the process in commit() or recover_from_log()
    moved: Option<nat>,   // the buffer it has changed and not yet written
    nextId: nat)

  datatype Label =
    | Begin
    | Ref(user: nat, b: nat, i: nat)        // bget, up to acquiresleep
    | Lock(user: nat, i: nat)               // acquiresleep
    | Fill(user: nat, i: nat)               // bread's transfer
    | Modify(k: nat, i: nat, data: Block)
    | LogWrite(k: nat, i: nat)
    | Unlock(user: nat, i: nat)             // brelse, up to releasesleep
    | Drop(user: nat, i: nat)               // the rest of brelse
    | End(k: nat)
    | Move(i: nat, j: nat)                  // memmove in write_log and install_trans
    | Pack(i: nat)                          // write_head's assignments
    | Put                                   // bwrite
    | Unpin(i: nat)
    | Advance                               // commit and end_op between their loops
    | Stay                                  // a process that cannot go on waits
    | Crash                                 // and restart, up to read_head

  // ------------------------------------------------------------------
  // Steps

  predicate Cached(bufs: seq<Cell>, b: int) {
    exists i :: 0 <= i < |bufs| && Has(bufs[i], b)
  }

  /** The process holds this buffer, with the block's contents in it. */
  predicate Owns(c: State, user: nat, i: nat) {
    Claim(user, i, Holds) in c.claims && i < |c.bufs| && c.bufs[i].valid
  }

  /** The process is inside bget: it waits for one buffer at a time. */
  predicate Waits(c: State, user: nat) {
    exists x :: x in c.claims && x.user == user && x.kind == Wants
  }

  predicate MayRelease(c: State, user: nat, i: nat)
    requires i < |c.bufs|
  {
    && c.moved != Some(i)
    && forall k :: 0 <= k < |c.ops| && c.ops[k].id == user ==> c.bufs[i].blockno !in c.ops[k].dirty
  }

  /** The commit or recovery is at the round for header entry n. */
  predicate InRound(c: State, n: nat) {
    && n < |c.lh|
    && (c.phase == GC.Logging(n) || (c.phase == GC.Installing(n) && c.unpinned == n) || c.phase == GC.Booting(n))
  }

  /** The commit or recovery is about to write the header. */
  predicate AtHeader(c: State) {
    || (c.phase == GC.Logging(|c.lh|) && c.lh != [])
    || c.phase.Erasing?
    || c.phase == GC.Booting(|c.lh|)
  }

  /** The header it will write. */
  function NewHead(c: State): seq<int> {
    if c.phase.Booting? then [] else c.lh
  }

  predicate CanMove(c: State, L: Layout, i: nat, j: nat) {
    && c.moved.None? && i != j && Owns(c, c.committer, i) && Owns(c, c.committer, j)
    && match c.phase
       case Logging(n) => InRound(c, n) && Has(c.bufs[i], c.lh[n]) && Has(c.bufs[j], L.start + 1 + n)
       case Installing(n) => InRound(c, n) && Has(c.bufs[i], L.start + 1 + n) && Has(c.bufs[j], c.lh[n])
       case Booting(n) => InRound(c, n) && Has(c.bufs[i], L.start + 1 + n) && Has(c.bufs[j], c.lh[n])
       case _ => false
  }

  /** What can happen next; q bounds the header entries one operation may add. */
  predicate Can(c: State, L: Layout, q: nat, l: Label) {
    match l
    case Begin => c.phase.Idle? && |c.lh| + (|c.ops| + 1) * MAXOPBLOCKS <= LOGSIZE
    case Ref(u, b, i) =>
      && b < |c.disk| && i < |c.bufs| && !Waits(c, u)
      && (Has(c.bufs[i], b) || (!Cached(c.bufs, b) && c.bufs[i].refcnt == 0))
    case Lock(u, i) => Claim(u, i, Wants) in c.claims && i < |c.bufs| && !c.bufs[i].locked
    case Fill(u, i) =>
      Claim(u, i, Holds) in c.claims && i < |c.bufs| && !c.bufs[i].valid && c.bufs[i].blockno < |c.disk|
    case Modify(k, i, data) => k < |c.ops| && Owns(c, c.ops[k].id, i) && !L.InLog(c.bufs[i].blockno)
    case LogWrite(k, i) =>
      && k < |c.ops| && Owns(c, c.ops[k].id, i) && !L.InLog(c.bufs[i].blockno)
      && (c.bufs[i].blockno in c.lh || c.ops[k].used < q)
    case Unlock(u, i) =>
      Claim(u, i, Holds) in c.claims && Claim(u, i, Drops) !in c.claims && i < |c.bufs| && MayRelease(c, u, i)
    case Drop(u, i) => Claim(u, i, Drops) in c.claims && i < |c.bufs| && c.bufs[i].refcnt > 0
    case End(k) => k < |c.ops| && c.ops[k].dirty == {}
    case Move(i, j) => CanMove(c, L, i, j)
    case Pack(i) =>
      && c.moved.None? && AtHeader(c) && Owns(c, c.committer, i) && Has(c.bufs[i], L.start)
      && |NewHead(c)| <= LOGSIZE && |c.bufs[i].data.words| == WORDS
    case Put => c.moved.Some? && c.moved.value < |c.bufs| && c.bufs[c.moved.value].blockno < |c.disk|
    case Unpin(i) =>
      && c.phase.Installing? && c.unpinned < c.phase.i <= |c.lh| && c.moved.None?
      && Owns(c, c.committer, i) && Has(c.bufs[i], c.lh[c.unpinned]) && c.bufs[i].refcnt > 0
    case Advance =>
      && c.moved.None?
      && ((c.phase.Logging? && c.lh == []) || c.phase.Done?
         || (c.phase == GC.Installing(|c.lh|) && c.unpinned == |c.lh|))
    case Stay => true
    case Crash => Recoverable(c.disk, L)
  }

  /** log_write's first test, made before looking for the block in the header. */
  predicate Panics(c: State, L: Layout, l: Label) {
    l.LogWrite? && (|c.lh| >= LOGSIZE || |c.lh| >= L.size - 1)
  }

  function Update(c: State, i: nat, x: Cell): State
    requires i < |c.bufs|
  {
    c.(bufs := c.bufs[i := x])
  }

  function Reclaim(claims: set<Claim>, user: nat, i: nat, from: Kind, to: Kind): set<Claim> {
    claims - {Claim(user, i, from)} + {Claim(user, i, to)}
  }

  function LogStep(c: State, k: nat, i: nat): State
    requires k < |c.ops| && i < |c.bufs|
  {
    var o, x := c.ops[k], c.bufs[i];
    if x.blockno in c.lh then
      c.(ops := c.ops[k := o.(dirty := o.dirty - {x.blockno})])
    else
      c.(lh := c.lh + [x.blockno],
         ops := c.ops[k := GC.Op(o.id, o.used + 1, o.dirty - {x.blockno})],
         bufs := c.bufs[i := x.(refcnt := x.refcnt + 1)])
  }

  function EndStep(c: State, k: nat): State
    requires k < |c.ops|
  {
    if |c.ops| == 1 then
      c.(ops := [], phase := GC.Logging(0), committer := c.ops[k].id)
    else
      c.(ops := Without(c.ops, k))
  }

  function Written(phase: GC.Phase, n: nat): GC.Phase {
    match phase
    case Logging(i) => if i < n then GC.Logging(i + 1) else GC.Installing(0)
    case Installing(i) => GC.Installing(i + 1)
    case Booting(i) => if i < n then GC.Booting(i + 1) else GC.Idle
    case _ => GC.Done
  }

  function PutStep(c: State): State
    requires c.moved.Some? && c.moved.value < |c.bufs| && c.bufs[c.moved.value].blockno < |c.disk|
  {
    var x := c.bufs[c.moved.value];
    c.(disk := c.disk[x.blockno := x.data], moved := None,
       phase := Written(c.phase, |c.lh|), lh := if c.phase == GC.Booting(|c.lh|) then [] else c.lh)
  }

  function AdvanceStep(c: State): State {
    match c.phase
    case Logging(_) => c.(phase := GC.Done)
    case Done => c.(phase := GC.Idle)
    case _ => c.(lh := [], unpinned := 0, phase := GC.Erasing)
  }

  function NoBuffers(): seq<Cell> {
    seq(NBUF, _ => Cell(false, 0, 0, 0, false, Block([])))
  }

  /** binit, then read_head through the cache: its block is left in the first buffer. */
  function Booted(d: Disk, L: Layout, nextId: nat): State
    requires Recoverable(d, L)
  {
    var bufs := NoBuffers()[0 := Cell(true, ROOTDEV, L.start, 0, false, d[L.start])];
    State(d, bufs, {}, Committed(d, L), 0, [], GC.Booting(0), 0, None, nextId)
  }

  function Next(c: State, L: Layout, q: nat, l: Label): State
    requires Can(c, L, q, l)
  {
    match l
    case Begin => c.(ops := c.ops + [GC.Op(c.nextId, 0, {})], nextId := c.nextId + 1)
    case Ref(u, b, i) => Update(c, i, Referenced(c.bufs[i], b)).(claims := c.claims + {Claim(u, i, Wants)})
    case Lock(u, i) => Update(c, i, c.bufs[i].(locked := true)).(claims := Reclaim(c.claims, u, i, Wants, Holds))
    case Fill(u, i) => Update(c, i, c.bufs[i].(valid := true, data := c.disk[c.bufs[i].blockno]))
    case Modify(k, i, data) =>
      var o := c.ops[k];
      Update(c, i, c.bufs[i].(data := data)).(ops := c.ops[k := o.(dirty := o.dirty + {c.bufs[i].blockno})])
    case LogWrite(k, i) => LogStep(c, k, i)
    case Unlock(u, i) => Update(c, i, c.bufs[i].(locked := false)).(claims := Reclaim(c.claims, u, i, Holds, Drops))
    case Drop(u, i) =>
      Update(c, i, c.bufs[i].(refcnt := c.bufs[i].refcnt - 1)).(claims := c.claims - {Claim(u, i, Drops)})
    case End(k) => EndStep(c, k)
    case Move(i, j) => Update(c, j, c.bufs[j].(data := c.bufs[i].data)).(moved := Some(j))
    case Pack(i) => Update(c, i, c.bufs[i].(data := PackHead(NewHead(c), c.bufs[i].data))).(moved := Some(i))
    case Put => PutStep(c)
    case Unpin(i) => Update(c, i, c.bufs[i].(refcnt := c.bufs[i].refcnt - 1)).(unpinned := c.unpinned + 1)
    case Advance => AdvanceStep(c)
    case Stay => c
    case Crash => Booted(c.disk, L, c.nextId)
  }

  /** The step of the group-commit machine that a step amounts to, if any. */
  function Abstract(c: State, L: Layout, q: nat, l: Label): Option<GC.Label>
    requires Can(c, L, q, l)
  {
    match l
    case Begin => Some(GC.Begin)
    case Modify(k, i, data) => Some(GC.Modify(k, Write(c.bufs[i].blockno, data)))
    case LogWrite(k, i) => Some(GC.LogWrite(k, c.bufs[i].blockno))
    case End(k) => Some(GC.End(k))
    case Put => Some(if c.phase.Booting? then GC.Recover else GC.Commit)
    case Advance => Some(GC.Commit)
    case Crash => Some(GC.Crash)
    case _ => None
  }

  // ------------------------------------------------------------------
  // The invariant

  /** One buffer per block; only such buffers are in use. */
  ghost predicate Buffers(c: State) {
    && |c.bufs| == NBUF
    && (forall i, j :: 0 <= i < j < NBUF && c.bufs[i].dev == ROOTDEV == c.bufs[j].dev ==>
          c.bufs[i].blockno != c.bufs[j].blockno)
    && (forall i :: 0 <= i < NBUF && c.bufs[i].dev == ROOTDEV ==> c.bufs[i].blockno < |c.disk|)
    && (forall i :: 0 <= i < NBUF && (c.bufs[i].refcnt > 0 || c.bufs[i].valid) ==> c.bufs[i].dev == ROOTDEV)
  }

  /** The header entries that still pin their buffer. */
  predicate Pinned(c: State, b: int) {
    !c.phase.Booting? && c.unpinned <= |c.lh| && b in c.lh[c.unpinned..]
  }

  ghost function On(claims: set<Claim>, i: nat): set<Claim> {
    set x | x in claims && x.i == i
  }

  function Pins(c: State, i: nat): nat
    requires i < |c.bufs|
  {
    if c.bufs[i].dev == ROOTDEV && Pinned(c, c.bufs[i].blockno) then 1 else 0
  }

  /** refcnt counts the processes that use a buffer, and its pin. */
  ghost predicate Counted(c: State) {
    && (forall x :: x in c.claims ==> x.i < |c.bufs|)
    && forall i :: 0 <= i < |c.bufs| ==> c.bufs[i].refcnt == |On(c.claims, i)| + Pins(c, i)
  }

  ghost predicate SomeHolder(claims: set<Claim>, i: nat) {
    exists x :: x in claims && x.i == i && x.kind == Holds
  }

  /** A buffer is locked exactly while a process holds it, and held by one process. */
  ghost predicate Locks(c: State) {
    && (forall x :: x in c.claims && x.kind == Holds ==> x.i < |c.bufs| && c.bufs[x.i].locked)
    && (forall i :: 0 <= i < |c.bufs| && c.bufs[i].locked ==> SomeHolder(c.claims, i))
    && forall x, y :: x in c.claims && y in c.claims && x.kind == Holds && y.kind == Holds && x.i == y.i ==> x == y
  }

  ghost predicate CachedValid(bufs: seq<Cell>, b: int) {
    exists i :: 0 <= i < |bufs| && Has(bufs[i], b) && bufs[i].valid
  }

  /** A pinned block is cached. */
  ghost predicate Kept(c: State) {
    forall b :: Pinned(c, b) ==> CachedValid(c.bufs, b)
  }

  /** Logged blocks whose new contents are not yet home. */
  predicate Pending(c: State, b: int) {
    match c.phase
    case Idle => b in c.lh
    case Logging(_) => b in c.lh
    case Installing(i) => i <= |c.lh| && b in c.lh[i..]
    case _ => false
  }

  ghost predicate Dirty(ops: seq<GC.Op>, b: int) {
    exists k :: 0 <= k < |ops| && b in ops[k].dirty
  }

  /** A buffer that differs from the disk is of a logged or still dirty block, or is being written. */
  ghost predicate FreshAt(c: State, i: nat)
    requires i < |c.bufs|
  {
    var x := c.bufs[i];
    x.valid ==>
      || (x.blockno < |c.disk| && x.data == c.disk[x.blockno])
      || Pending(c, x.blockno) || Dirty(c.ops, x.blockno) || c.moved == Some(i)
  }

  ghost predicate Fresh(c: State) {
    forall i :: 0 <= i < |c.bufs| ==> FreshAt(c, i)
  }

  ghost predicate HeldBy(c: State, user: nat, b: int) {
    exists i :: 0 <= i < |c.bufs| && Has(c.bufs[i], b) && Owns(c, user, i)
  }

  ghost predicate HomeHeld(c: State, L: Layout, k: nat, b: int)
    requires k < |c.ops|
  {
    !L.InLog(b) && HeldBy(c, c.ops[k].id, b)
  }

  /** A dirty block is home, and its operation still holds the buffer. */
  ghost predicate DirtyHeld(c: State, L: Layout) {
    forall k, b :: 0 <= k < |c.ops| && b in c.ops[k].dirty ==> HomeHeld(c, L, k, b)
  }

  /** What stands in the buffer that is about to be written. */
  ghost predicate Moving(c: State, s: GC.State, L: Layout)
    requires GC.Shape(s, L) && Same(c, s)
  {
    && (match c.phase
        case Installing(i) => c.unpinned <= i <= c.unpinned + 1 && i <= |c.lh|
        case _ => c.unpinned == 0)
    && (c.moved.Some? ==>
          var m := c.moved.value;
          && Owns(c, c.committer, m) && c.bufs[m].dev == ROOTDEV
          && match c.phase
             case Logging(i) =>
               && c.lh != []
               && if i < |c.lh| then c.bufs[m].blockno == L.start + 1 + i && c.bufs[m].data == s.mem[c.lh[i]]
                  else c.bufs[m].blockno == L.start && c.bufs[m].data == PackHead(c.lh, c.disk[L.start])
             case Installing(i) =>
               && i == c.unpinned < |c.lh|
               && c.bufs[m].blockno == c.lh[i] && c.bufs[m].data == c.disk[L.start + 1 + i]
             case Erasing => c.bufs[m].blockno == L.start && c.bufs[m].data == PackHead([], c.disk[L.start])
             case Booting(i) =>
               if i < |c.lh| then c.bufs[m].blockno == c.lh[i] && c.bufs[m].data == c.disk[L.start + 1 + i]
               else c.bufs[m].blockno == L.start && c.bufs[m].data == PackHead([], c.disk[L.start])
             case _ => false)
  }

  /** The two machines agree on all but buffers and history. */
  ghost predicate Same(c: State, s: GC.State) {
    s.disk == c.disk && s.lh == c.lh && s.ops == c.ops && s.phase == c.phase && s.nextId == c.nextId
  }

  /** Home blocks look the same: through the buffers here, in `mem` there. */
  ghost predicate Views(c: State, s: GC.State, L: Layout)
    requires |s.mem| == |c.disk|
  {
    && (forall i :: 0 <= i < |c.bufs| && c.bufs[i].valid && !(c.phase.Booting? && c.moved == Some(i)) ==>
          Shows(c.bufs[i], s.mem, L))
    && (forall b :: 0 <= b < |c.disk| && !L.InLog(b) ==> s.mem[b] == c.disk[b] || CachedValid(c.bufs, b))
  }

  ghost predicate Shows(x: Cell, mem: Disk, L: Layout) {
    x.blockno < |mem| && (!L.InLog(x.blockno) ==> x.data == mem[x.blockno])
  }

  ghost predicate Mine(c: State, L: Layout) {
    Buffers(c) && Counted(c) && Locks(c) && Kept(c) && Fresh(c) && DirtyHeld(c, L)
  }

  ghost predicate Joint(c: State, s: GC.State, L: Layout, init: Disk) {
    && GC.Inv(s, L, init) && Same(c, s)
    && Mine(c, L) && Moving(c, s, L) && Views(c, s, L)
  }

  // ------------------------------------------------------------------
  // Counting references

  lemma OnAdd(claims: set<Claim>, x: Claim)
    requires x !in claims
    ensures |On(claims + {x}, x.i)| == |On(claims, x.i)| + 1
    ensures forall j: nat :: j != x.i ==> On(claims + {x}, j) == On(claims, j)
  {
    assert On(claims + {x}, x.i) == On(claims, x.i) + {x};
    forall j: nat | j != x.i ensures On(claims + {x}, j) == On(claims, j) {
    }
  }

  lemma OnRemove(claims: set<Claim>, x: Claim)
    requires x in claims
    ensures |On(claims - {x}, x.i)| == |On(claims, x.i)| - 1
    ensures forall j: nat :: j != x.i ==> On(claims - {x}, j) == On(claims, j)
  {
    assert On(claims, x.i) == On(claims - {x}, x.i) + {x};
    forall j: nat | j != x.i ensures On(claims - {x}, j) == On(claims, j) {
    }
  }

  lemma OnReclaim(claims: set<Claim>, user: nat, i: nat, from: Kind, to: Kind)
    requires Claim(user, i, from) in claims && Claim(user, i, to) !in claims
    ensures forall j: nat :: |On(Reclaim(claims, user, i, from, to), j)| == |On(claims, j)|
  {
    OnRemove(claims, Claim(user, i, from));
    OnAdd(claims - {Claim(user, i, from)}, Claim(user, i, to));
  }

  lemma ClaimedUsed(c: State, x: Claim)
    requires Counted(c) && x in c.claims
    ensures x.i < |c.bufs| && c.bufs[x.i].refcnt > 0
  {
    assert x in On(c.claims, x.i);
  }

  /** A process that uses a buffer finds it in use, with a block in it. */
  lemma UserUsed(c: State, s: GC.State, L: Layout, init: Disk, x: Claim)
    requires Joint(c, s, L, init) && x in c.claims
    ensures x.i < |c.bufs| == NBUF && c.bufs[x.i].refcnt > 0
    ensures c.bufs[x.i].dev == ROOTDEV && c.bufs[x.i].blockno < |c.disk| && (x.kind == Holds ==> c.bufs[x.i].locked)
  {
    ClaimedUsed(c, x);
  }

  lemma PinnedUsed(c: State, i: nat)
    requires Counted(c) && i < |c.bufs|
    ensures c.bufs[i].dev == ROOTDEV && Pinned(c, c.bufs[i].blockno) ==> c.bufs[i].refcnt > 0
  {
  }

  lemma PendingPinned(c: State, s: GC.State, L: Layout, b: int)
    requires GC.Shape(s, L) && Same(c, s) && Moving(c, s, L)
    ensures Pending(c, b) ==> Pinned(c, b)
  {
  }

  lemma OneBuffer(c: State, i: nat, j: nat, b: int)
    requires Buffers(c) && i < NBUF && j < NBUF && Has(c.bufs[i], b) && Has(c.bufs[j], b)
    ensures i == j
  {
  }

  lemma DirtyAt(c: State, L: Layout, k: nat, b: int)
    requires DirtyHeld(c, L) && k < |c.ops| && b in c.ops[k].dirty
    ensures !L.InLog(b) && HeldBy(c, c.ops[k].id, b)
  {
  }

  lemma DirtyUsed(c: State, L: Layout, i: nat)
    requires Mine(c, L) && i < NBUF && c.bufs[i].dev == ROOTDEV
    ensures Dirty(c.ops, c.bufs[i].blockno) ==> c.bufs[i].refcnt > 0
  {
    hide Counted, Locks, Kept, Fresh, DirtyHeld;
    var b := c.bufs[i].blockno;
    if Dirty(c.ops, b) {
      var k :| 0 <= k < |c.ops| && b in c.ops[k].dirty;
      DirtyAt(c, L, k, b);
      var j :| 0 <= j < |c.bufs| && Has(c.bufs[j], b) && Owns(c, c.ops[k].id, j);
      ClaimedUsed(c, Claim(c.ops[k].id, j, Holds));
      OneBuffer(c, i, j, b);
    }
  }

  /** What an unused buffer holds is on disk: recycling it loses nothing. */
  lemma UnusedOnDisk(c: State, s: GC.State, L: Layout, init: Disk, i: nat)
    requires Joint(c, s, L, init) && i < NBUF && c.bufs[i].refcnt == 0 && c.bufs[i].valid
    ensures c.bufs[i].blockno < |c.disk| && c.bufs[i].data == c.disk[c.bufs[i].blockno]
  {
    hide GC.Agrees, GC.Covered, GC.Whole, Recoverable, GoodHead, Moving, Views, Counted, Locks, Kept, DirtyHeld,
         Pending, Dirty, Pinned;
    PendingPinned(c, s, L, c.bufs[i].blockno);
    PinnedUsed(c, i);
    DirtyUsed(c, L, i);
    assert FreshAt(c, i);
    MovedUsed(c, s, L);
  }

  lemma MovedUsed(c: State, s: GC.State, L: Layout)
    requires GC.Shape(s, L) && Same(c, s) && Moving(c, s, L) && Counted(c)
    ensures c.moved.Some? ==> c.moved.value < |c.bufs| && c.bufs[c.moved.value].refcnt > 0
  {
    if c.moved.Some? {
      ClaimedUsed(c, Claim(c.committer, c.moved.value, Holds));
    }
  }

  // ------------------------------------------------------------------
  // Steps that change one buffer but not what it shows

  /** Buffer i keeps its block and its contents, or gets them from disk; locks let go are of clean buffers. */
  ghost predicate Gentle(c: State, d: State, i: nat)
    requires |c.bufs| == NBUF && i < NBUF
  {
    && |d.bufs| == NBUF && d == c.(bufs := c.bufs[i := d.bufs[i]], claims := d.claims)
    && (var x, y := c.bufs[i], d.bufs[i];
        && y.dev == x.dev == ROOTDEV && y.blockno == x.blockno < |c.disk|
        && (x.valid ==> y.valid && y.data == x.data)
        && (!x.valid && y.valid ==> y.data == c.disk[x.blockno]))
    && forall x :: x in c.claims && x !in d.claims && x.kind == Holds && x.i < |c.bufs| ==> MayRelease(c, x.user, x.i)
  }

  lemma GentleCached(c: State, d: State, i: nat, b: int)
    requires |c.bufs| == NBUF && i < NBUF && Gentle(c, d, i)
    ensures CachedValid(c.bufs, b) ==> CachedValid(d.bufs, b)
  {
    if CachedValid(c.bufs, b) {
      var j :| 0 <= j < |c.bufs| && Has(c.bufs[j], b) && c.bufs[j].valid;
      assert Has(d.bufs[j], b) && d.bufs[j].valid;
    }
  }

  lemma GentleKept(c: State, d: State, i: nat)
    requires |c.bufs| == NBUF && i < NBUF && Gentle(c, d, i) && Kept(c)
    ensures Kept(d)
  {
    forall b | Pinned(d, b) ensures CachedValid(d.bufs, b) {
      assert Pinned(c, b);
      GentleCached(c, d, i, b);
    }
  }

  lemma GentleFresh(c: State, d: State, i: nat)
    requires |c.bufs| == NBUF && i < NBUF && Gentle(c, d, i) && Fresh(c)
    ensures Fresh(d)
  {
    forall j | 0 <= j < |d.bufs| ensures FreshAt(d, j) {
      assert FreshAt(c, j);
      assert Pending(d, c.bufs[j].blockno) == Pending(c, c.bufs[j].blockno);
    }
  }

  lemma GentleDirty(c: State, d: State, L: Layout, i: nat)
    requires |c.bufs| == NBUF && i < NBUF && Gentle(c, d, i) && DirtyHeld(c, L)
    ensures DirtyHeld(d, L)
  {
    forall k, b | 0 <= k < |d.ops| && b in d.ops[k].dirty ensures HomeHeld(d, L, k, b) {
      DirtyAt(c, L, k, b);
      var j :| 0 <= j < |c.bufs| && Has(c.bufs[j], b) && Owns(c, c.ops[k].id, j);
      var x := Claim(c.ops[k].id, j, Holds);
      assert x !in d.claims ==> MayRelease(c, x.user, x.i);
      assert Has(d.bufs[j], b) && Owns(d, d.ops[k].id, j);
    }
  }

  lemma GentleMoving(c: State, d: State, s: GC.State, L: Layout, i: nat)
    requires |c.bufs| == NBUF && i < NBUF && Gentle(c, d, i)
    requires GC.Shape(s, L) && Same(c, s) && Moving(c, s, L)
    ensures Same(d, s) && Moving(d, s, L)
  {
    if c.moved.Some? {
      var x := Claim(c.committer, c.moved.value, Holds);
      assert x !in d.claims ==> MayRelease(c, x.user, x.i);
      assert c.bufs[c.moved.value].valid;
      assert d.bufs[c.moved.value].data == c.bufs[c.moved.value].data;
    }
  }

  lemma GentleViews(c: State, d: State, s: GC.State, L: Layout, i: nat)
    requires Buffers(c) && i < NBUF && Gentle(c, d, i)
    requires GC.Shape(s, L) && Same(c, s) && Moving(c, s, L) && Views(c, s, L)
    ensures Views(d, s, L)
  {
    forall b | 0 <= b < |d.disk| && !L.InLog(b) ensures s.mem[b] == d.disk[b] || CachedValid(d.bufs, b) {
      GentleCached(c, d, i, b);
    }
    if !c.bufs[i].valid && d.bufs[i].valid {
      var b := c.bufs[i].blockno;
      if !L.InLog(b) {
        assert s.mem[b] == c.disk[b] || CachedValid(c.bufs, b);
        assert !CachedValid(c.bufs, b) by {
          if CachedValid(c.bufs, b) {
            var j :| 0 <= j < |c.bufs| && Has(c.bufs[j], b) && c.bufs[j].valid;
            OneBuffer(c, i, j, b);
          }
        }
      }
    }
  }

  lemma GentleKeeps(c: State, d: State, s: GC.State, L: Layout, init: Disk, i: nat)
    requires Joint(c, s, L, init) && i < NBUF && Gentle(c, d, i) && Counted(d) && Locks(d)
    ensures Joint(d, s, L, init)
  {
    hide GC.Agrees, GC.Covered, GC.Whole, Recoverable, GoodHead, Counted, Locks, Kept, Fresh, DirtyHeld, Views, Moving;
    GentleKept(c, d, i);
    GentleFresh(c, d, i);
    GentleDirty(c, d, L, i);
    GentleMoving(c, d, s, L, i);
    GentleViews(c, d, s, L, i);
    assert Buffers(d);
  }

  // ------------------------------------------------------------------
  // Taking and releasing buffers

  lemma LockKeeps(c: State, s: GC.State, L: Layout, init: Disk, q: nat, u: nat, i: nat)
    requires Joint(c, s, L, init) && Can(c, L, q, Lock(u, i))
    ensures Joint(Next(c, L, q, Lock(u, i)), s, L, init)
  {
    hide GC.Agrees, GC.Covered, GC.Whole, Recoverable, GoodHead, Kept, Fresh, DirtyHeld, Views, Moving, On;
    var d := Next(c, L, q, Lock(u, i));
    ClaimedUsed(c, Claim(u, i, Wants));
    assert Claim(u, i, Holds) !in c.claims;
    OnReclaim(c.claims, u, i, Wants, Holds);
    assert Counted(d) by {
      forall j | 0 <= j < |d.bufs| ensures d.bufs[j].refcnt == |On(d.claims, j)| + Pins(d, j) {
        assert Pins(d, j) == Pins(c, j);
      }
    }
    GentleKeeps(c, d, s, L, init, i);
  }

  lemma FillKeeps(c: State, s: GC.State, L: Layout, init: Disk, q: nat, u: nat, i: nat)
    requires Joint(c, s, L, init) && Can(c, L, q, Fill(u, i))
    ensures Joint(Next(c, L, q, Fill(u, i)), s, L, init)
  {
    hide GC.Agrees, GC.Covered, GC.Whole, Recoverable, GoodHead, Kept, Fresh, DirtyHeld, Views, Moving, On;
    var d := Next(c, L, q, Fill(u, i));
    ClaimedUsed(c, Claim(u, i, Holds));
    assert Counted(d) by {
      forall j | 0 <= j < |d.bufs| ensures d.bufs[j].refcnt == |On(d.claims, j)| + Pins(d, j) {
        assert Pins(d, j) == Pins(c, j);
      }
    }
    GentleKeeps(c, d, s, L, init, i);
  }

  lemma UnlockKeeps(c: State, s: GC.State, L: Layout, init: Disk, q: nat, u: nat, i: nat)
    requires Joint(c, s, L, init) && Can(c, L, q, Unlock(u, i))
    ensures Joint(Next(c, L, q, Unlock(u, i)), s, L, init)
  {
    hide GC.Agrees, GC.Covered, GC.Whole, Recoverable, GoodHead, Kept, Fresh, DirtyHeld, Views, Moving, On;
    var d := Next(c, L, q, Unlock(u, i));
    ClaimedUsed(c, Claim(u, i, Holds));
    OnReclaim(c.claims, u, i, Holds, Drops);
    assert Counted(d) by {
      forall j | 0 <= j < |d.bufs| ensures d.bufs[j].refcnt == |On(d.claims, j)| + Pins(d, j) {
        assert Pins(d, j) == Pins(c, j);
      }
    }
    assert Locks(d) by {
      assert forall x :: x in d.claims && x.kind == Holds ==> x in c.claims && x.i != i;
    }
    GentleKeeps(c, d, s, L, init, i);
  }

  lemma DropKeeps(c: State, s: GC.State, L: Layout, init: Disk, q: nat, u: nat, i: nat)
    requires Joint(c, s, L, init) && Can(c, L, q, Drop(u, i))
    ensures Joint(Next(c, L, q, Drop(u, i)), s, L, init)
  {
    hide GC.Agrees, GC.Covered, GC.Whole, Recoverable, GoodHead, Kept, Fresh, DirtyHeld, Views, Moving, On;
    var d := Next(c, L, q, Drop(u, i));
    OnRemove(c.claims, Claim(u, i, Drops));
    assert Counted(d) by {
      forall j | 0 <= j < |d.bufs| ensures d.bufs[j].refcnt == |On(d.claims, j)| + Pins(d, j) {
        assert Pins(d, j) == Pins(c, j);
      }
    }
    GentleKeeps(c, d, s, L, init, i);
  }

  /** The buffer chosen for a block that is not cached. */
  lemma RecycleMine(c: State, s: GC.State, L: Layout, init: Disk, q: nat, u: nat, b: nat, i: nat)
    requires Joint(c, s, L, init) && Can(c, L, q, Ref(u, b, i)) && !Has(c.bufs[i], b)
    ensures var d := Next(c, L, q, Ref(u, b, i)); Buffers(d) && Counted(d) && Locks(d)
  {
    hide GC.Agrees, GC.Covered, GC.Whole, Recoverable, GoodHead, Fresh, DirtyHeld, Views, Moving, On, Pinned;
    var d := Next(c, L, q, Ref(u, b, i));
    OnAdd(c.claims, Claim(u, i, Wants));
    PinnedUsed(c, i);
    assert Pinned(d, b) == Pinned(c, b) by {
      SamePins(c, d);
    }
    assert Pinned(c, b) ==> CachedValid(c.bufs, b);
    SamePins(c, d);
    assert Counted(d);
    assert Buffers(d);
    assert Locks(d);
  }

  lemma SamePins(c: State, d: State)
    requires d.phase == c.phase && d.lh == c.lh && d.unpinned == c.unpinned
    ensures forall b :: Pinned(d, b) == Pinned(c, b)
  {
  }

  /** Other buffers and their holders stay. */
  ghost predicate Others(c: State, d: State, i: nat) {
    && |d.bufs| == |c.bufs| && d.disk == c.disk && d.ops == c.ops && d.phase == c.phase && d.lh == c.lh
    && d.unpinned == c.unpinned && d.moved == c.moved && d.committer == c.committer && d.nextId == c.nextId
    && (forall j :: 0 <= j < |c.bufs| && j != i ==> d.bufs[j] == c.bufs[j])
    && (forall x :: x in c.claims ==> x.i != i && x in d.claims)
  }

  lemma OthersDirty(c: State, d: State, L: Layout, i: nat)
    requires Others(c, d, i) && DirtyHeld(c, L)
    ensures DirtyHeld(d, L)
  {
    forall k: nat, b | k < |d.ops| && b in d.ops[k].dirty ensures HomeHeld(d, L, k, b) {
      DirtyAt(c, L, k, b);
      var j :| 0 <= j < |c.bufs| && Has(c.bufs[j], b) && Owns(c, c.ops[k].id, j);
      assert Has(d.bufs[j], b) && Owns(d, d.ops[k].id, j);
    }
  }

  lemma OthersCached(c: State, d: State, i: nat, b: int)
    requires Others(c, d, i) && CachedValid(c.bufs, b) && (i < |c.bufs| ==> !(c.bufs[i].valid && Has(c.bufs[i], b)))
    ensures CachedValid(d.bufs, b)
  {
    var j :| 0 <= j < |c.bufs| && Has(c.bufs[j], b) && c.bufs[j].valid;
    assert Has(d.bufs[j], b) && d.bufs[j].valid;
  }

  lemma OthersKept(c: State, d: State, i: nat)
    requires Others(c, d, i) && Kept(c) && i < |c.bufs| && !(c.bufs[i].dev == ROOTDEV && Pinned(c, c.bufs[i].blockno))
    ensures Kept(d)
  {
    forall b | Pinned(d, b) ensures CachedValid(d.bufs, b) {
      assert Pinned(c, b);
      OthersCached(c, d, i, b);
    }
  }

  lemma OthersFresh(c: State, d: State, i: nat)
    requires Others(c, d, i) && Fresh(c) && i < |c.bufs| && !d.bufs[i].valid
    ensures Fresh(d)
  {
    forall j | 0 <= j < |d.bufs| ensures FreshAt(d, j) {
      assert FreshAt(c, j);
      assert Pending(d, c.bufs[j].blockno) == Pending(c, c.bufs[j].blockno);
    }
  }

  lemma OthersViews(c: State, d: State, s: GC.State, L: Layout, i: nat)
    requires Others(c, d, i) && GC.Shape(s, L) && Same(c, s) && Views(c, s, L) && i < |c.bufs| && !d.bufs[i].valid
    requires c.moved != Some(i)
    requires c.bufs[i].valid ==> c.bufs[i].blockno < |c.disk| && c.bufs[i].data == c.disk[c.bufs[i].blockno]
    ensures Views(d, s, L)
  {
    forall b | 0 <= b < |d.disk| && !L.InLog(b) ensures s.mem[b] == d.disk[b] || CachedValid(d.bufs, b) {
      if c.bufs[i].valid && Has(c.bufs[i], b) {
        assert Shows(c.bufs[i], s.mem, L);
      } else if CachedValid(c.bufs, b) {
        OthersCached(c, d, i, b);
      }
    }
  }

  lemma RecycleKeeps(c: State, s: GC.State, L: Layout, init: Disk, q: nat, u: nat, b: nat, i: nat)
    requires Joint(c, s, L, init) && Can(c, L, q, Ref(u, b, i)) && !Has(c.bufs[i], b)
    ensures Joint(Next(c, L, q, Ref(u, b, i)), s, L, init)
  {
    hide GC.Agrees, GC.Covered, GC.Whole, Recoverable, GoodHead, Counted, Locks, Pinned, Kept, Fresh, DirtyHeld, Views;
    var d := Next(c, L, q, Ref(u, b, i));
    RecycleMine(c, s, L, init, q, u, b, i);
    forall x | x in c.claims ensures x.i != i {
      ClaimedUsed(c, x);
    }
    assert Others(c, d, i);
    PinnedUsed(c, i);
    if c.bufs[i].valid {
      UnusedOnDisk(c, s, L, init, i);
    }
    OthersKept(c, d, i);
    OthersFresh(c, d, i);
    OthersDirty(c, d, L, i);
    OthersViews(c, d, s, L, i);
    assert Moving(d, s, L);
  }

  lemma RefKeeps(c: State, s: GC.State, L: Layout, init: Disk, q: nat, u: nat, b: nat, i: nat)
    requires Joint(c, s, L, init) && Can(c, L, q, Ref(u, b, i))
    ensures Joint(Next(c, L, q, Ref(u, b, i)), s, L, init)
  {
    hide GC.Agrees, GC.Covered, GC.Whole, Recoverable, GoodHead, Kept, Fresh, DirtyHeld, Views, Moving, On, Pinned;
    if Has(c.bufs[i], b) {
      var d := Next(c, L, q, Ref(u, b, i));
      OnAdd(c.claims, Claim(u, i, Wants));
      SamePins(c, d);
      assert Counted(d);
      GentleKeeps(c, d, s, L, init, i);
    } else {
      RecycleKeeps(c, s, L, init, q, u, b, i);
    }
  }

  // ------------------------------------------------------------------
  // Operations

  /** Only the log's and the operations' bookkeeping changes, and no block becomes unprotected. */
  ghost predicate Book(c: State, d: State) {
    && d.disk == c.disk && d.bufs == c.bufs && d.claims == c.claims && c.moved.None? && d.moved.None?
    && (forall b :: Pinned(d, b) == Pinned(c, b))
    && (forall b :: Pending(c, b) ==> Pending(d, b))
    && (forall b :: Dirty(c.ops, b) ==> Dirty(d.ops, b) || Pending(d, b))
  }

  lemma BookMine(c: State, d: State, L: Layout)
    requires Mine(c, L) && Book(c, d) && DirtyHeld(d, L)
    ensures Mine(d, L)
  {
    hide Dirty, Pending, Pinned, On, DirtyHeld;
    assert Counted(d) by {
      forall j | 0 <= j < |d.bufs| ensures d.bufs[j].refcnt == |On(d.claims, j)| + Pins(d, j) {
        assert Pins(d, j) == Pins(c, j);
      }
    }
    assert Fresh(d) by {
      forall j | 0 <= j < |d.bufs| ensures FreshAt(d, j) {
        assert FreshAt(c, j);
      }
    }
  }

  /** The header while the bookkeeping changes: nothing is being written. */
  lemma BookKeeps(c: State, d: State, s: GC.State, t: GC.State, L: Layout, init: Disk)
    requires Joint(c, s, L, init) && Book(c, d) && DirtyHeld(d, L) && GC.Inv(t, L, init) && Same(d, t) && t.mem == s.mem
    requires d.unpinned == 0 && (d.phase.Installing? ==> d.phase.i == 0) && (d.phase.Booting? <==> c.phase.Booting?)
    ensures Joint(d, t, L, init)
  {
    hide GC.Agrees, GC.Covered, GC.Whole, Recoverable, GoodHead, Mine, Pinned, Pending, Dirty, DirtyHeld;
    BookMine(c, d, L);
  }

  lemma BeginDirty(c: State, d: State, L: Layout)
    requires DirtyHeld(c, L) && d.bufs == c.bufs && d.claims == c.claims && d.ops == c.ops + [GC.Op(c.nextId, 0, {})]
    ensures DirtyHeld(d, L)
  {
    forall k: nat, b | k < |d.ops| && b in d.ops[k].dirty ensures HomeHeld(d, L, k, b) {
      DirtyAt(c, L, k, b);
      StillHeld(c, d, c.ops[k].id, b);
    }
  }

  lemma BeginKeeps(c: State, s: GC.State, L: Layout, init: Disk, q: nat)
    requires Joint(c, s, L, init) && Can(c, L, q, Begin)
    ensures GC.Can(s, L, q, GC.Begin) && Joint(Next(c, L, q, Begin), GC.Step(s, L, q, GC.Begin), L, init)
  {
    hide GC.Agrees, GC.Covered, GC.Whole, Recoverable, GoodHead, Buffers, Counted, Locks, Kept, Fresh, Views, HeldBy;
    var d, t := Next(c, L, q, Begin), GC.Step(s, L, q, GC.Begin);
    GC.StepKeeps(s, L, init, q, GC.Begin);
    forall b | Dirty(c.ops, b) ensures Dirty(d.ops, b) {
      var k :| 0 <= k < |c.ops| && b in c.ops[k].dirty;
      assert b in d.ops[k].dirty;
    }
    BeginDirty(c, d, L);
    BookKeeps(c, d, s, t, L, init);
  }

  lemma StillHeld(c: State, d: State, user: nat, b: int)
    requires d.bufs == c.bufs && d.claims == c.claims && HeldBy(c, user, b)
    ensures HeldBy(d, user, b)
  {
    var j :| 0 <= j < |c.bufs| && Has(c.bufs[j], b) && Owns(c, user, j);
    assert Has(d.bufs[j], b) && Owns(d, user, j);
  }

  lemma EndDirty(c: State, d: State, L: Layout, k: nat)
    requires DirtyHeld(c, L) && d.bufs == c.bufs && d.claims == c.claims && k < |c.ops| && d.ops == Without(c.ops, k)
    ensures DirtyHeld(d, L)
  {
    forall j: nat, b | j < |d.ops| && b in d.ops[j].dirty ensures HomeHeld(d, L, j, b) {
      var i := if j < k then j else j + 1;
      assert d.ops[j] == c.ops[i];
      DirtyAt(c, L, i, b);
      StillHeld(c, d, c.ops[i].id, b);
    }
  }

  lemma EndKeeps(c: State, s: GC.State, L: Layout, init: Disk, q: nat, k: nat)
    requires Joint(c, s, L, init) && Can(c, L, q, End(k))
    ensures GC.Can(s, L, q, GC.End(k)) && Joint(Next(c, L, q, End(k)), GC.Step(s, L, q, GC.End(k)), L, init)
  {
    hide GC.Agrees, GC.Covered, GC.Whole, Recoverable, GoodHead, Buffers, Counted, Locks, Kept, Fresh, Views, HeldBy;
    var d, t := Next(c, L, q, End(k)), GC.Step(s, L, q, GC.End(k));
    GC.StepKeeps(s, L, init, q, GC.End(k));
    assert d.ops == Without(c.ops, k);
    forall b | Dirty(c.ops, b) ensures Dirty(d.ops, b) {
      var j :| 0 <= j < |c.ops| && b in c.ops[j].dirty;
      assert b in d.ops[if j < k then j else j - 1].dirty;
    }
    EndDirty(c, d, L, k);
    BookKeeps(c, d, s, t, L, init);
  }

  lemma AdvanceKeeps(c: State, s: GC.State, L: Layout, init: Disk, q: nat)
    requires Joint(c, s, L, init) && Can(c, L, q, Advance)
    ensures GC.Can(s, L, q, GC.Commit) && Joint(Next(c, L, q, Advance), GC.Step(s, L, q, GC.Commit), L, init)
  {
    hide GC.Agrees, GC.Covered, GC.Whole, Recoverable, GoodHead, Buffers, Counted, Locks, Kept, Fresh, Views, HeldBy;
    var d, t := Next(c, L, q, Advance), GC.Step(s, L, q, GC.Commit);
    GC.StepKeeps(s, L, init, q, GC.Commit);
    BookKeeps(c, d, s, t, L, init);
  }

  /** The home block of a held buffer gets new contents, and its operation owes a log_write. */
  lemma ModifyMine(c: State, s: GC.State, L: Layout, init: Disk, q: nat, k: nat, i: nat, data: Block)
    requires Joint(c, s, L, init) && Can(c, L, q, Modify(k, i, data))
    ensures Mine(Next(c, L, q, Modify(k, i, data)), L)
  {
    hide GC.Agrees, GC.Covered, GC.Whole, Recoverable, GoodHead, Views, On, Pinned, Counted, Kept, DirtyHeld;
    var d := Next(c, L, q, Modify(k, i, data));
    SamePins(c, d);
    assert Buffers(d) && Locks(d);
    SameCounts(c, d);
    SameKept(c, d);
    ModifyDirty(c, d, L, k, i);
    assert d.bufs[i].blockno in d.ops[k].dirty;
    assert Fresh(d) by {
      forall j | 0 <= j < |d.bufs| ensures FreshAt(d, j) {
        assert FreshAt(c, j);
        if Dirty(c.ops, c.bufs[j].blockno) {
          var h :| 0 <= h < |c.ops| && c.bufs[j].blockno in c.ops[h].dirty;
          assert c.bufs[j].blockno in d.ops[h].dirty;
        }
      }
    }
  }

  lemma SameCounts(c: State, d: State)
    requires Counted(c) && d.claims == c.claims && |d.bufs| == |c.bufs| && (forall b :: Pinned(d, b) == Pinned(c, b))
    requires forall j :: 0 <= j < |c.bufs| ==>
               d.bufs[j].refcnt == c.bufs[j].refcnt && d.bufs[j].dev == c.bufs[j].dev
               && d.bufs[j].blockno == c.bufs[j].blockno
    ensures Counted(d)
  {
    hide On, Pinned;
    forall j | 0 <= j < |d.bufs| ensures d.bufs[j].refcnt == |On(d.claims, j)| + Pins(d, j) {
      assert Pins(d, j) == Pins(c, j);
    }
  }

  lemma SameCached(c: State, d: State, b: int)
    requires |d.bufs| == |c.bufs| && CachedValid(c.bufs, b)
    requires forall j :: 0 <= j < |c.bufs| ==>
               d.bufs[j].valid == c.bufs[j].valid && d.bufs[j].dev == c.bufs[j].dev
               && d.bufs[j].blockno == c.bufs[j].blockno
    ensures CachedValid(d.bufs, b)
  {
    var j :| 0 <= j < |c.bufs| && Has(c.bufs[j], b) && c.bufs[j].valid;
    assert Has(d.bufs[j], b) && d.bufs[j].valid;
  }

  lemma SameKept(c: State, d: State)
    requires Kept(c) && |d.bufs| == |c.bufs| && (forall b :: Pinned(d, b) == Pinned(c, b))
    requires forall j :: 0 <= j < |c.bufs| ==>
               d.bufs[j].valid == c.bufs[j].valid && d.bufs[j].dev == c.bufs[j].dev
               && d.bufs[j].blockno == c.bufs[j].blockno
    ensures Kept(d)
  {
    hide CachedValid, Pinned;
    forall b | Pinned(d, b) ensures CachedValid(d.bufs, b) {
      SameCached(c, d, b);
    }
  }

  /** The same buffers are held by the same processes. */
  lemma SameHeld(c: State, d: State, user: nat, b: int)
    requires |d.bufs| == |c.bufs| && d.claims == c.claims && HeldBy(c, user, b)
    requires forall j :: 0 <= j < |c.bufs| ==>
               d.bufs[j].valid == c.bufs[j].valid && d.bufs[j].dev == c.bufs[j].dev
               && d.bufs[j].blockno == c.bufs[j].blockno
    ensures HeldBy(d, user, b)
  {
    var j :| 0 <= j < |c.bufs| && Has(c.bufs[j], b) && Owns(c, user, j);
    assert Has(d.bufs[j], b) && Owns(d, user, j);
  }

  lemma ModifyDirty(c: State, d: State, L: Layout, k: nat, i: nat)
    requires DirtyHeld(c, L) && k < |c.ops| && i < |c.bufs| && Owns(c, c.ops[k].id, i)
    requires c.bufs[i].dev == ROOTDEV && !L.InLog(c.bufs[i].blockno)
    requires |d.bufs| == |c.bufs| && d.claims == c.claims
    requires forall j :: 0 <= j < |c.bufs| ==>
               d.bufs[j].valid == c.bufs[j].valid && d.bufs[j].dev == c.bufs[j].dev
               && d.bufs[j].blockno == c.bufs[j].blockno
    requires d.ops == c.ops[k := c.ops[k].(dirty := c.ops[k].dirty + {c.bufs[i].blockno})]
    ensures DirtyHeld(d, L)
  {
    hide HeldBy;
    HeldHere(d, c.ops[k].id, i);
    forall j: nat, b | j < |d.ops| && b in d.ops[j].dirty ensures HomeHeld(d, L, j, b) {
      if j != k || b != c.bufs[i].blockno {
        DirtyAt(c, L, j, b);
        SameHeld(c, d, c.ops[j].id, b);
      }
    }
  }

  lemma HeldHere(c: State, user: nat, i: nat)
    requires Owns(c, user, i) && c.bufs[i].dev == ROOTDEV
    ensures HeldBy(c, user, c.bufs[i].blockno)
  {
    assert Has(c.bufs[i], c.bufs[i].blockno);
  }

  lemma ModifyKeeps(c: State, s: GC.State, L: Layout, init: Disk, q: nat, k: nat, i: nat, data: Block)
    requires Joint(c, s, L, init) && Can(c, L, q, Modify(k, i, data))
    ensures var m := GC.Modify(k, Write(c.bufs[i].blockno, data));
            GC.Can(s, L, q, m) && Joint(Next(c, L, q, Modify(k, i, data)), GC.Step(s, L, q, m), L, init)
  {
    hide GC.Agrees, GC.Covered, GC.Whole, Recoverable, GoodHead, Counted, Locks, Kept, Fresh, DirtyHeld, CachedValid;
    var b := c.bufs[i].blockno;
    var m := GC.Modify(k, Write(b, data));
    var d, t := Next(c, L, q, Modify(k, i, data)), GC.Step(s, L, q, m);
    GC.StepKeeps(s, L, init, q, m);
    ModifyMine(c, s, L, init, q, k, i, data);
    assert Views(d, t, L) by {
      CachedHere(d, i);
      forall x | 0 <= x < |d.disk| && !L.InLog(x) ensures t.mem[x] == d.disk[x] || CachedValid(d.bufs, x) {
        if x != b && CachedValid(c.bufs, x) {
          SameCached(c, d, x);
        }
      }
      forall j | 0 <= j < |d.bufs| && d.bufs[j].valid ensures Shows(d.bufs[j], t.mem, L) {
        assert Shows(c.bufs[j], s.mem, L);
      }
    }
  }

  lemma CachedHere(c: State, i: nat)
    requires i < |c.bufs| && c.bufs[i].valid && c.bufs[i].dev == ROOTDEV
    ensures CachedValid(c.bufs, c.bufs[i].blockno)
  {
    assert Has(c.bufs[i], c.bufs[i].blockno);
  }

  lemma LoggedDirty(c: State, d: State, L: Layout, k: nat, b: int)
    requires DirtyHeld(c, L) && k < |c.ops| == |d.ops| && d.claims == c.claims && |d.bufs| == |c.bufs|
    requires forall j :: 0 <= j < |c.bufs| ==>
               d.bufs[j].valid == c.bufs[j].valid && d.bufs[j].dev == c.bufs[j].dev
               && d.bufs[j].blockno == c.bufs[j].blockno
    requires d.ops == c.ops[k := d.ops[k]] && d.ops[k].id == c.ops[k].id && d.ops[k].dirty == c.ops[k].dirty - {b}
    ensures DirtyHeld(d, L) && forall x :: Dirty(c.ops, x) ==> Dirty(d.ops, x) || x == b
  {
    hide HeldBy;
    forall j, x | 0 <= j < |d.ops| && x in d.ops[j].dirty ensures HomeHeld(d, L, j, x) {
      DirtyAt(c, L, j, x);
      SameHeld(c, d, c.ops[j].id, x);
    }
    forall x | Dirty(c.ops, x) && x != b ensures Dirty(d.ops, x) {
      var j :| 0 <= j < |c.ops| && x in c.ops[j].dirty;
      assert x in d.ops[j].dirty;
    }
  }

  lemma AbsorbKeeps(c: State, s: GC.State, L: Layout, init: Disk, q: nat, k: nat, i: nat)
    requires Joint(c, s, L, init) && Can(c, L, q, LogWrite(k, i)) && !Panics(c, L, LogWrite(k, i))
    requires c.bufs[i].blockno in c.lh
    ensures var l := GC.LogWrite(k, c.bufs[i].blockno);
            GC.Can(s, L, q, l) && Joint(Next(c, L, q, LogWrite(k, i)), GC.Step(s, L, q, l), L, init)
  {
    hide GC.Agrees, GC.Covered, GC.Whole, Recoverable, GoodHead, Counted, Locks, Kept, Fresh, Views, HeldBy, Dirty,
         DirtyHeld;
    var l := GC.LogWrite(k, c.bufs[i].blockno);
    var d, t := Next(c, L, q, LogWrite(k, i)), GC.Step(s, L, q, l);
    GC.StepKeeps(s, L, init, q, l);
    LoggedDirty(c, d, L, k, c.bufs[i].blockno);
    SamePins(c, d);
    BookKeeps(c, d, s, t, L, init);
  }

  /** A new header entry pins its buffer. */
  lemma PinMine(c: State, s: GC.State, L: Layout, init: Disk, q: nat, k: nat, i: nat)
    requires Joint(c, s, L, init) && Can(c, L, q, LogWrite(k, i)) && c.bufs[i].blockno !in c.lh
    ensures Mine(Next(c, L, q, LogWrite(k, i)), L)
  {
    hide GC.Agrees, GC.Covered, GC.Whole, Recoverable, GoodHead, Views, HeldBy, Dirty, DirtyHeld, On, CachedValid,
         Pinned;
    var b := c.bufs[i].blockno;
    var d := Next(c, L, q, LogWrite(k, i));
    NewPin(c, d, b);
    LoggedDirty(c, d, L, k, b);
    assert Buffers(d) && Locks(d);
    CachedHere(d, i);
    assert Kept(d) by {
      forall x | Pinned(d, x) && x != b ensures CachedValid(d.bufs, x) {
        SameCached(c, d, x);
      }
    }
    assert Counted(d) by {
      forall j | 0 <= j < |d.bufs| ensures d.bufs[j].refcnt == |On(d.claims, j)| + Pins(d, j) {
      }
    }
    assert Fresh(d) by {
      forall j | 0 <= j < |d.bufs| ensures FreshAt(d, j) {
        assert FreshAt(c, j);
      }
    }
  }

  lemma NewPin(c: State, d: State, b: int)
    requires !c.phase.Booting? && d.phase == c.phase && c.unpinned == d.unpinned == 0 && d.lh == c.lh + [b]
    ensures forall x :: Pinned(d, x) <==> Pinned(c, x) || x == b
    ensures b !in c.lh ==> !Pinned(c, b)
  {
  }

  lemma PinKeeps(c: State, s: GC.State, L: Layout, init: Disk, q: nat, k: nat, i: nat)
    requires Joint(c, s, L, init) && Can(c, L, q, LogWrite(k, i)) && !Panics(c, L, LogWrite(k, i))
    requires c.bufs[i].blockno !in c.lh
    ensures var l := GC.LogWrite(k, c.bufs[i].blockno);
            GC.Can(s, L, q, l) && Joint(Next(c, L, q, LogWrite(k, i)), GC.Step(s, L, q, l), L, init)
  {
    hide GC.Agrees, GC.Covered, GC.Whole, Recoverable, GoodHead, Counted, Locks, Kept, Fresh, CachedValid, DirtyHeld;
    var l := GC.LogWrite(k, c.bufs[i].blockno);
    var d, t := Next(c, L, q, LogWrite(k, i)), GC.Step(s, L, q, l);
    GC.StepKeeps(s, L, init, q, l);
    PinMine(c, s, L, init, q, k, i);
    assert Views(d, t, L) by {
      forall x | 0 <= x < |d.disk| && !L.InLog(x) ensures t.mem[x] == d.disk[x] || CachedValid(d.bufs, x) {
        if CachedValid(c.bufs, x) {
          SameCached(c, d, x);
        }
      }
      forall j | 0 <= j < |d.bufs| && d.bufs[j].valid ensures Shows(d.bufs[j], t.mem, L) {
        assert Shows(c.bufs[j], s.mem, L);
      }
    }
  }

  // ------------------------------------------------------------------
  // Committing and recovering

  /** A log block in the cache is as on disk, unless it is the one about to be written. */
  lemma LogBlockFresh(c: State, s: GC.State, L: Layout, init: Disk, i: nat)
    requires Joint(c, s, L, init) && i < NBUF && c.bufs[i].valid && L.InLog(c.bufs[i].blockno) && c.moved.None?
    ensures c.bufs[i].blockno < |c.disk| && c.bufs[i].data == c.disk[c.bufs[i].blockno]
  {
    hide GC.Agrees, GC.Covered, GC.Whole, Counted, Locks, Kept, Views, Moving, DirtyHeld, HeldBy;
    assert FreshAt(c, i);
    if Dirty(c.ops, c.bufs[i].blockno) {
      var k :| 0 <= k < |c.ops| && c.bufs[i].blockno in c.ops[k].dirty;
      DirtyAt(c, L, k, c.bufs[i].blockno);
    }
  }

  /** One buffer's contents are about to be written: nothing else changes. */
  ghost predicate Prepared(c: State, d: State, j: nat) {
    && j < |c.bufs| == |d.bufs| && c.moved.None? && d == c.(bufs := d.bufs, moved := Some(j))
    && d.bufs == c.bufs[j := c.bufs[j].(data := d.bufs[j].data)]
  }

  lemma PreparedMine(c: State, d: State, L: Layout, j: nat)
    requires Mine(c, L) && Prepared(c, d, j)
    ensures Mine(d, L)
  {
    hide On, CachedValid, Pinned, HeldBy, DirtyHeld, Counted, Kept;
    SamePins(c, d);
    SameCounts(c, d);
    SameKept(c, d);
    SameDirty(c, d, L);
    assert Fresh(d) by {
      forall h | 0 <= h < |d.bufs| ensures FreshAt(d, h) {
        assert FreshAt(c, h);
      }
    }
  }

  lemma SameDirty(c: State, d: State, L: Layout)
    requires DirtyHeld(c, L) && d.ops == c.ops && d.claims == c.claims && |d.bufs| == |c.bufs|
    requires forall j :: 0 <= j < |c.bufs| ==>
               d.bufs[j].valid == c.bufs[j].valid && d.bufs[j].dev == c.bufs[j].dev
               && d.bufs[j].blockno == c.bufs[j].blockno
    ensures DirtyHeld(d, L)
  {
    hide HeldBy;
    forall k, x | 0 <= k < |d.ops| && x in d.ops[k].dirty ensures HomeHeld(d, L, k, x) {
      DirtyAt(c, L, k, x);
      SameHeld(c, d, c.ops[k].id, x);
    }
  }

  lemma PreparedViews(c: State, d: State, s: GC.State, L: Layout, j: nat)
    requires GC.Shape(s, L) && Same(c, s) && Views(c, s, L) && Prepared(c, d, j)
    requires L.InLog(c.bufs[j].blockno) || d.phase.Booting? || Shows(d.bufs[j], s.mem, L)
    ensures Views(d, s, L)
  {
    hide CachedValid;
    forall x | 0 <= x < |d.disk| && !L.InLog(x) ensures s.mem[x] == d.disk[x] || CachedValid(d.bufs, x) {
      if CachedValid(c.bufs, x) {
        SameCached(c, d, x);
      }
    }
    forall h | 0 <= h < |d.bufs| && d.bufs[h].valid && !(d.phase.Booting? && d.moved == Some(h))
      ensures Shows(d.bufs[h], s.mem, L)
    {
      assert Shows(c.bufs[h], s.mem, L);
    }
  }

  lemma MoveData(c: State, s: GC.State, L: Layout, init: Disk, i: nat, j: nat)
    requires Joint(c, s, L, init) && CanMove(c, L, i, j)
    ensures match c.phase
            case Logging(n) => c.bufs[i].data == s.mem[c.lh[n]] && L.InLog(c.bufs[j].blockno)
            case Installing(n) => c.bufs[i].data == c.disk[L.start + 1 + n] == s.mem[c.lh[n]]
            case Booting(n) => c.bufs[i].data == c.disk[L.start + 1 + n]
            case _ => true
  {
    hide GC.Agrees, GC.Covered, GC.Whole, Counted, Locks, Kept, DirtyHeld, HeldBy, CachedValid, Recoverable;
    if c.phase.Logging? {
      assert Shows(c.bufs[i], s.mem, L);
    } else {
      LogBlockFresh(c, s, L, init, i);
      if c.phase.Installing? {
        GC.InstallSame(s, L, init);
      }
    }
  }

  lemma MoveKeeps(c: State, s: GC.State, L: Layout, init: Disk, q: nat, i: nat, j: nat)
    requires Joint(c, s, L, init) && Can(c, L, q, Move(i, j))
    ensures Joint(Next(c, L, q, Move(i, j)), s, L, init)
  {
    hide GC.Agrees, GC.Covered, GC.Whole, Recoverable, GoodHead, Mine, Views;
    var d := Next(c, L, q, Move(i, j));
    MoveData(c, s, L, init, i, j);
    assert Prepared(c, d, j);
    PreparedMine(c, d, L, j);
    MineSized(c, L);
    PreparedViews(c, d, s, L, j);
  }

  lemma MineSized(c: State, L: Layout)
    requires Mine(c, L)
    ensures forall i :: 0 <= i < |c.bufs| && c.bufs[i].valid ==>
            c.bufs[i].dev == ROOTDEV && c.bufs[i].blockno < |c.disk|
    ensures |c.bufs| == NBUF
  {
  }

  lemma PackKeeps(c: State, s: GC.State, L: Layout, init: Disk, q: nat, i: nat)
    requires Joint(c, s, L, init) && Can(c, L, q, Pack(i))
    ensures Joint(Next(c, L, q, Pack(i)), s, L, init)
  {
    hide GC.Agrees, GC.Covered, GC.Whole, GoodHead, Mine, Views, PackHead;
    var d := Next(c, L, q, Pack(i));
    MineSized(c, L);
    LogBlockFresh(c, s, L, init, i);
    assert Prepared(c, d, i);
    PreparedMine(c, d, L, i);
    PreparedViews(c, d, s, L, i);
  }

  /** The block bwrite is about to write, by phase. */
  lemma MovedBlock(c: State, s: GC.State, L: Layout)
    requires GC.Shape(s, L) && Same(c, s) && Moving(c, s, L) && c.moved.Some?
    ensures c.moved.value < |c.bufs|
    ensures c.phase.Logging? || c.phase.Installing? || c.phase.Erasing? || c.phase.Booting?
    ensures c.phase.Logging? ==> c.lh != [] && c.phase.i <= |c.lh|
    ensures c.phase.Installing? ==> c.phase.i == c.unpinned < |c.lh| && c.bufs[c.moved.value].blockno == c.lh[c.phase.i]
    ensures !L.InLog(c.bufs[c.moved.value].blockno) ==> c.phase.Installing? || (c.phase.Booting? && c.phase.i < |c.lh|)
    ensures c.phase.Installing? || (c.phase.Booting? && c.phase.i < |c.lh|) ==> !L.InLog(c.bufs[c.moved.value].blockno)
  {
    hide PackHead, Readable, UnpackHead, Distinct, GC.Installed;
  }

  /** What the group-commit machine has after the write. */
  ghost predicate PutMatches(c: State, t: GC.State, s: GC.State, L: Layout)
    requires c.moved.Some? && c.moved.value < |c.bufs| && c.bufs[c.moved.value].blockno < |c.disk| == |s.mem|
  {
    var x := c.bufs[c.moved.value];
    Same(PutStep(c), t) && t.mem == if L.InLog(x.blockno) then s.mem else s.mem[x.blockno := x.data]
  }

  lemma PutLogs(c: State, s: GC.State, L: Layout)
    requires GC.Shape(s, L) && Same(c, s) && Moving(c, s, L) && c.moved.Some? && c.phase.Logging?
    requires c.moved.value < |c.bufs| && c.bufs[c.moved.value].blockno < |c.disk|
    ensures PutMatches(c, GC.CommitStep(s, L), s, L)
  {
    hide PackHead, Readable, UnpackHead, Distinct, GC.Installed, GoodHead;
    MovedBlock(c, s, L);
  }

  lemma PutInstalls(c: State, s: GC.State, L: Layout)
    requires GC.Shape(s, L) && Same(c, s) && Moving(c, s, L) && c.moved.Some? && c.phase.Installing?
    requires c.moved.value < |c.bufs| && c.bufs[c.moved.value].blockno < |c.disk|
    ensures PutMatches(c, GC.CommitStep(s, L), s, L)
  {
    hide PackHead, Readable, UnpackHead, Distinct, GC.Installed, GoodHead;
    MovedBlock(c, s, L);
  }

  lemma PutErases(c: State, s: GC.State, L: Layout)
    requires GC.Shape(s, L) && Same(c, s) && Moving(c, s, L) && c.moved.Some? && c.phase.Erasing?
    requires c.moved.value < |c.bufs| && c.bufs[c.moved.value].blockno < |c.disk|
    ensures PutMatches(c, GC.CommitStep(s, L), s, L)
  {
    hide PackHead, Readable, UnpackHead, Distinct, GC.Installed, GoodHead;
    MovedBlock(c, s, L);
  }

  lemma PutRecovers(c: State, s: GC.State, L: Layout)
    requires GC.Shape(s, L) && Same(c, s) && Moving(c, s, L) && c.moved.Some? && c.phase.Booting?
    requires c.moved.value < |c.bufs| && c.bufs[c.moved.value].blockno < |c.disk|
    ensures PutMatches(c, GC.RecoverStep(s, L), s, L)
  {
    hide PackHead, Readable, UnpackHead, Distinct, GC.Installed, GoodHead;
    MovedBlock(c, s, L);
  }

  /** A step of the group-commit machine. */
  ghost predicate StepsTo(s: GC.State, L: Layout, q: nat, l: GC.Label, t: GC.State) {
    GC.Shape(s, L) && GC.Can(s, L, q, l) && t == GC.Step(s, L, q, l)
  }

  function PutLabel(c: State): GC.Label {
    if c.phase.Booting? then GC.Recover else GC.Commit
  }

  /** bwrite is the step of the group-commit machine that its phase calls for. */
  lemma PutSame(c: State, s: GC.State, L: Layout, init: Disk, q: nat) returns (t: GC.State)
    requires Joint(c, s, L, init) && Can(c, L, q, Put)
    ensures PutMatches(c, t, s, L)
    ensures StepsTo(s, L, q, PutLabel(c), t) && GC.Inv(t, L, init)
  {
    hide GC.Agrees, GC.Covered, GC.Whole, Mine, Views, GC.CommitStep, GC.RecoverStep, PutMatches, Recoverable, GoodHead;
    MovedBlock(c, s, L);
    t := GC.Step(s, L, q, PutLabel(c));
    GC.StepKeeps(s, L, init, q, PutLabel(c));
    match c.phase
    case Logging(_) => PutLogs(c, s, L);
    case Installing(_) => PutInstalls(c, s, L);
    case Booting(_) => PutRecovers(c, s, L);
    case _ => PutErases(c, s, L);
  }

  /** After the write every other buffer is as protected as before. */
  lemma PutMine(c: State, s: GC.State, L: Layout, init: Disk, q: nat)
    requires Joint(c, s, L, init) && Can(c, L, q, Put)
    ensures Mine(PutStep(c), L)
  {
    hide GC.Agrees, GC.Covered, GC.Whole, Recoverable, Views, PackHead, On, Pinned, Counted, Kept, CachedValid, HeldBy,
         DirtyHeld;
    var d := PutStep(c);
    PutPins(c, s, L);
    SameCounts(c, d);
    SameKept(c, d);
    SameDirty(c, d, L);
    assert Fresh(d) by {
      forall h | 0 <= h < |d.bufs| ensures FreshAt(d, h) {
        assert FreshAt(c, h);
        PutPending(c, s, L, c.bufs[h].blockno);
      }
    }
  }

  lemma PutPins(c: State, s: GC.State, L: Layout)
    requires GC.Shape(s, L) && Same(c, s) && Moving(c, s, L)
    requires c.moved.Some? && c.moved.value < |c.bufs| && c.bufs[c.moved.value].blockno < |c.disk|
    ensures forall b :: Pinned(PutStep(c), b) == Pinned(c, b)
  {
    hide Recoverable, PackHead;
  }

  lemma PutPending(c: State, s: GC.State, L: Layout, b: int)
    requires GC.Shape(s, L) && Same(c, s) && Moving(c, s, L)
    requires c.moved.Some? && c.moved.value < |c.bufs| && c.bufs[c.moved.value].blockno < |c.disk|
    ensures Pending(c, b) && b != c.bufs[c.moved.value].blockno ==> Pending(PutStep(c), b)
  {
    hide GC.Shape, Moving;
    MovedBlock(c, s, L);
    if c.phase.Installing? && Pending(c, b) {
      var i := c.phase.i;
      assert c.lh[i..] == [c.lh[i]] + c.lh[i + 1..];
    }
  }

  lemma PutShown(c: State, s: GC.State, t: GC.State, L: Layout, m: nat)
    requires Buffers(c) && c.moved == Some(m) && m < |c.bufs| && c.bufs[m].blockno < |c.disk| == |s.mem|
    requires c.bufs[m].valid && Views(c, s, L) && PutMatches(c, t, s, L)
    ensures |t.mem| == |PutStep(c).disk| && Views(PutStep(c), t, L)
  {
    hide CachedValid;
    var d := PutStep(c);
    CachedHere(d, m);
    forall x | 0 <= x < |d.disk| && !L.InLog(x) ensures t.mem[x] == d.disk[x] || CachedValid(d.bufs, x) {
      assert s.mem[x] == c.disk[x] || CachedValid(c.bufs, x);
    }
    forall h | 0 <= h < |d.bufs| && d.bufs[h].valid ensures Shows(d.bufs[h], t.mem, L) {
      if h != m {
        assert Shows(c.bufs[h], s.mem, L);
      }
    }
  }

  lemma PutViews(c: State, s: GC.State, t: GC.State, L: Layout, init: Disk, q: nat)
    requires Joint(c, s, L, init) && Can(c, L, q, Put) && PutMatches(c, t, s, L)
    ensures |t.mem| == |PutStep(c).disk| && Views(PutStep(c), t, L)
  {
    hide GC.Agrees, GC.Covered, GC.Whole, Recoverable, GoodHead, PackHead, Counted, Kept, Fresh, DirtyHeld, Views,
         PutMatches;
    PutShown(c, s, t, L, c.moved.value);
  }

  lemma PutKeeps(c: State, s: GC.State, L: Layout, init: Disk, q: nat) returns (t: GC.State)
    requires Joint(c, s, L, init) && Can(c, L, q, Put)
    ensures Joint(Next(c, L, q, Put), t, L, init)
    ensures StepsTo(s, L, q, PutLabel(c), t)
  {
    hide GC.Agrees, GC.Covered, GC.Whole, Recoverable, GoodHead, PackHead, Mine, Views, StepsTo;
    t := PutSame(c, s, L, init, q);
    PutMine(c, s, L, init, q);
    PutViews(c, s, t, L, init, q);
  }

  lemma UnpinPins(c: State, L: Layout, total: nat)
    requires GoodHead(c.lh, L, total) && c.unpinned < |c.lh| && !c.phase.Booting?
    ensures Pinned(c, c.lh[c.unpinned])
    ensures forall b :: Pinned(c.(unpinned := c.unpinned + 1), b) <==> Pinned(c, b) && b != c.lh[c.unpinned]
  {
    var k := c.unpinned;
    assert c.lh[k..] == [c.lh[k]] + c.lh[k + 1..];
  }

  /** bunpin: the block is home, so it needs its buffer no more. */
  lemma UnpinKeeps(c: State, s: GC.State, L: Layout, init: Disk, q: nat, i: nat)
    requires Joint(c, s, L, init) && Can(c, L, q, Unpin(i))
    ensures Joint(Next(c, L, q, Unpin(i)), s, L, init)
  {
    hide GC.Agrees, GC.Covered, GC.Whole, Recoverable, GoodHead, On, Pinned, Kept, CachedValid, HeldBy, DirtyHeld,
         Views;
    var d := Next(c, L, q, Unpin(i));
    UnpinPins(c, L, |c.disk|);
    SamePins(c.(unpinned := c.unpinned + 1), d);
    SameDirty(c, d, L);
    UnpinKept(c, d);
    assert Counted(d) by {
      forall j | 0 <= j < |d.bufs| ensures d.bufs[j].refcnt == |On(d.claims, j)| + Pins(d, j) {
      }
    }
    assert Fresh(d) by {
      forall h | 0 <= h < |d.bufs| ensures FreshAt(d, h) {
        assert FreshAt(c, h);
      }
    }
    UnpinViews(c, d, s, L);
  }

  lemma UnpinKept(c: State, d: State)
    requires Kept(c) && |d.bufs| == |c.bufs| && (forall b :: Pinned(d, b) ==> Pinned(c, b))
    requires forall j :: 0 <= j < |c.bufs| ==>
               d.bufs[j].valid == c.bufs[j].valid && d.bufs[j].dev == c.bufs[j].dev
               && d.bufs[j].blockno == c.bufs[j].blockno
    ensures Kept(d)
  {
    hide CachedValid, Pinned;
    forall b | Pinned(d, b) ensures CachedValid(d.bufs, b) {
      SameCached(c, d, b);
    }
  }

  lemma UnpinViews(c: State, d: State, s: GC.State, L: Layout)
    requires GC.Shape(s, L) && Same(c, s) && Views(c, s, L) && d.disk == c.disk && |d.bufs| == |c.bufs|
             && d.moved == c.moved
    requires d.phase == c.phase
    requires forall j :: 0 <= j < |c.bufs| ==> d.bufs[j] == c.bufs[j].(refcnt := d.bufs[j].refcnt)
    ensures Views(d, s, L)
  {
    hide CachedValid;
    forall x | 0 <= x < |d.disk| && !L.InLog(x) ensures s.mem[x] == d.disk[x] || CachedValid(d.bufs, x) {
      if CachedValid(c.bufs, x) {
        SameCached(c, d, x);
      }
    }
    forall h | 0 <= h < |d.bufs| && d.bufs[h].valid && !(d.phase.Booting? && d.moved == Some(h))
      ensures Shows(d.bufs[h], s.mem, L)
    {
      assert Shows(c.bufs[h], s.mem, L);
    }
  }

  lemma CrashKeeps(c: State, s: GC.State, L: Layout, init: Disk, q: nat)
    requires Joint(c, s, L, init) && Can(c, L, q, Crash)
    ensures GC.Can(s, L, q, GC.Crash) && Joint(Next(c, L, q, Crash), GC.Step(s, L, q, GC.Crash), L, init)
  {
    hide GC.Agrees, GC.Covered, GC.Whole, GoodHead, Counted, Locks, Kept, DirtyHeld, Fresh, Views;
    GC.StepKeeps(s, L, init, q, GC.Crash);
    BootMine(c.disk, L, c.nextId);
    BootViews(c.disk, L, c.nextId, GC.Step(s, L, q, GC.Crash));
  }

  lemma BootMine(d: Disk, L: Layout, nextId: nat)
    requires Recoverable(d, L)
    ensures Mine(Booted(d, L, nextId), L)
  {
    var c := Booted(d, L, nextId);
    forall i | 0 <= i < |c.bufs| ensures c.bufs[i].refcnt == |On(c.claims, i)| + Pins(c, i) {
      assert On(c.claims, i) == {};
    }
    forall i | 0 <= i < |c.bufs| ensures FreshAt(c, i) {
    }
  }

  lemma BootViews(d: Disk, L: Layout, nextId: nat, s: GC.State)
    requires Recoverable(d, L) && d == s.disk == s.mem
    ensures Views(Booted(d, L, nextId), s, L)
  {
  }

  // ------------------------------------------------------------------
  // What the steps find

  lemma TwoClaims(claims: set<Claim>, x: Claim, y: Claim)
    requires x in claims && y in claims && x != y && x.i == y.i
    ensures |On(claims, x.i)| >= 2
  {
    SubsetSize({x, y}, On(claims, x.i));
  }

  /** brelse's last step: a locked buffer has another user, and the last user leaves it as on disk. */
  lemma DropSafe(c: State, s: GC.State, L: Layout, init: Disk, q: nat, u: nat, i: nat)
    requires Joint(c, s, L, init) && Can(c, L, q, Drop(u, i))
    ensures |c.bufs| == NBUF && c.bufs[i].refcnt > 0 && (c.bufs[i].locked ==> c.bufs[i].refcnt > 1)
    ensures c.bufs[i].refcnt > 1 || !c.bufs[i].valid
            || (c.bufs[i].blockno < |c.disk| && c.bufs[i].data == c.disk[c.bufs[i].blockno])
  {
    hide GC.Agrees, GC.Covered, GC.Whole, Recoverable, GoodHead, Kept, Fresh, DirtyHeld, Views, Moving, On, Pinned;
    if c.bufs[i].locked {
      assert SomeHolder(c.claims, i);
      var x :| x in c.claims && x.i == i && x.kind == Holds;
      TwoClaims(c.claims, x, Claim(u, i, Drops));
    }
    DropKeeps(c, s, L, init, q, u, i);
    var d := Next(c, L, q, Drop(u, i));
    if d.bufs[i].refcnt == 0 && d.bufs[i].valid {
      UnusedOnDisk(d, s, L, init, i);
    }
  }

  lemma OpsIdle(c: State, s: GC.State, L: Layout, init: Disk)
    requires Joint(c, s, L, init) && c.ops != []
    ensures c.phase.Idle?
  {
  }

  lemma IdleHead(c: State, s: GC.State, L: Layout, init: Disk)
    requires Joint(c, s, L, init) && c.phase.Idle?
    ensures Fits(c.disk, L) && GoodHead(c.lh, L, |c.disk|) && c.moved.None?
  {
  }

  /** A logged block is cached, and its buffer has a reference besides that of its holder. */
  lemma IdlePinned(c: State, s: GC.State, L: Layout, init: Disk, k: nat, i: nat)
    requires Joint(c, s, L, init) && c.phase.Idle? && k < |c.lh| && i <= NBUF
    requires i < NBUF ==> Has(c.bufs[i], c.lh[k])
    requires i == NBUF ==> forall j :: 0 <= j < NBUF ==> !Has(c.bufs[j], c.lh[k])
    ensures i < NBUF && c.bufs[i].refcnt > if c.bufs[i].locked then 1 else 0
  {
    hide GC.Agrees, GC.Covered, GC.Whole, Recoverable, GoodHead, Fresh, DirtyHeld, Views;
    assert Pinned(c, c.lh[k]);
    assert CachedValid(c.bufs, c.lh[k]);
    if c.bufs[i].locked {
      assert SomeHolder(c.claims, i);
      var x :| x in c.claims && x.i == i && x.kind == Holds;
      assert x in On(c.claims, i);
    }
  }

  lemma PutOwns(c: State, s: GC.State, L: Layout, init: Disk, q: nat)
    requires Joint(c, s, L, init) && Can(c, L, q, Put)
    ensures Owns(c, c.committer, c.moved.value)
    ensures c.phase.Logging? || c.phase.Installing? || c.phase.Erasing? || c.phase.Booting?
  {
    MovedBlock(c, s, L);
  }

  /** bunpin finds the pin besides the holder's reference. */
  lemma UnpinSafe(c: State, s: GC.State, L: Layout, init: Disk, q: nat, i: nat)
    requires Joint(c, s, L, init) && Can(c, L, q, Unpin(i))
    ensures c.bufs[i].refcnt > 1
  {
    hide GC.Agrees, GC.Covered, GC.Whole, Recoverable, Kept, Fresh, DirtyHeld, Views, Moving;
    UnpinPins(c, L, |c.disk|);
    assert Claim(c.committer, i, Holds) in On(c.claims, i);
  }

  // ------------------------------------------------------------------
  // Every step is a step of the group-commit machine, or none

  /** t is what the group-commit machine makes of the step l from c. */
  ghost predicate Matches(c: State, s: GC.State, L: Layout, q: nat, l: Label, t: GC.State)
    requires Can(c, L, q, l)
  {
    match Abstract(c, L, q, l)
    case None => t == s
    case Some(a) => StepsTo(s, L, q, a, t)
  }

  lemma TakeSimulates(c: State, s: GC.State, L: Layout, init: Disk, q: nat, l: Label)
    requires Joint(c, s, L, init) && Can(c, L, q, l) && Abstract(c, L, q, l).None?
    ensures Joint(Next(c, L, q, l), s, L, init)
  {
    hide Joint, Next;
    match l
    case Ref(u, b, i) => RefKeeps(c, s, L, init, q, u, b, i);
    case Lock(u, i) => LockKeeps(c, s, L, init, q, u, i);
    case Fill(u, i) => FillKeeps(c, s, L, init, q, u, i);
    case Unlock(u, i) => UnlockKeeps(c, s, L, init, q, u, i);
    case Drop(u, i) => DropKeeps(c, s, L, init, q, u, i);
    case Move(i, j) => MoveKeeps(c, s, L, init, q, i, j);
    case Pack(i) => PackKeeps(c, s, L, init, q, i);
    case Unpin(i) => UnpinKeeps(c, s, L, init, q, i);
    case Stay => StayKeeps(c, L, q);
  }

  lemma StayKeeps(c: State, L: Layout, q: nat)
    ensures Can(c, L, q, Stay) && Next(c, L, q, Stay) == c
  {
  }

  lemma LogWriteKeeps(c: State, s: GC.State, L: Layout, init: Disk, q: nat, k: nat, i: nat)
    requires Joint(c, s, L, init) && Can(c, L, q, LogWrite(k, i)) && !Panics(c, L, LogWrite(k, i))
    ensures GC.Shape(s, L) && GC.Can(s, L, q, GC.LogWrite(k, c.bufs[i].blockno))
    ensures Joint(Next(c, L, q, LogWrite(k, i)), GC.Step(s, L, q, GC.LogWrite(k, c.bufs[i].blockno)), L, init)
  {
    hide Next, GC.Step;
    if c.bufs[i].blockno in c.lh {
      AbsorbKeeps(c, s, L, init, q, k, i);
    } else {
      PinKeeps(c, s, L, init, q, k, i);
    }
  }

  lemma OpSimulates(c: State, s: GC.State, L: Layout, init: Disk, q: nat, l: Label) returns (t: GC.State)
    requires Joint(c, s, L, init) && Can(c, L, q, l) && !Panics(c, L, l) && Abstract(c, L, q, l).Some? && !l.Put?
    ensures Joint(Next(c, L, q, l), t, L, init)
    ensures StepsTo(s, L, q, Abstract(c, L, q, l).value, t)
  {
    hide GC.Agrees, GC.Covered, GC.Whole, Recoverable, GoodHead, Mine, Views, Next, GC.Step;
    match l {
      case Begin => BeginKeeps(c, s, L, init, q);
      case Modify(k, i, data) => ModifyKeeps(c, s, L, init, q, k, i, data);
      case LogWrite(k, i) => LogWriteKeeps(c, s, L, init, q, k, i);
      case End(k) => EndKeeps(c, s, L, init, q, k);
      case Advance => AdvanceKeeps(c, s, L, init, q);
      case Crash => CrashKeeps(c, s, L, init, q);
    }
    t := GC.Step(s, L, q, Abstract(c, L, q, l).value);
  }

  /** Every step of log.c over bio.c is a step of the group-commit machine, or changes nothing there. */
  lemma StepSimulates(c: State, s: GC.State, L: Layout, init: Disk, q: nat, l: Label) returns (t: GC.State)
    requires Joint(c, s, L, init) && Can(c, L, q, l) && !Panics(c, L, l)
    ensures Joint(Next(c, L, q, l), t, L, init)
    ensures Matches(c, s, L, q, l, t)
  {
    hide Joint, Next, StepsTo, Can;
    if Abstract(c, L, q, l).None? {
      t := s;
      TakeSimulates(c, s, L, init, q, l);
    } else if l.Put? {
      t := PutKeeps(c, s, L, init, q);
    } else {
      t := OpSimulates(c, s, L, init, q, l);
    }
  }

  // ------------------------------------------------------------------
  // Runs

  /** Every modification made so far, and how many of them the disk stands for. */
  datatype Ledger = Ledger(history: seq<GC.Update>, cut: nat)

  function Enter(c: State, l: Label, g: Ledger): Ledger {
    match l
    case Modify(k, i, data) =>
      if k < |c.ops| && i < |c.bufs| then
        g.(history := g.history + [GC.Update(c.ops[k].id, Write(c.bufs[i].blockno, data))])
      else g
    case Put => if c.phase == GC.Logging(|c.lh|) then g.(cut := |g.history|) else g
    case Crash => if g.cut <= |g.history| then g.(history := g.history[..g.cut]) else g
    case _ => g
  }

  ghost predicate StepAt(cs: seq<State>, ls: seq<Label>, L: Layout, q: nat, i: nat)
    requires |cs| == |ls| + 1 && i < |ls|
  {
    Can(cs[i], L, q, ls[i]) && !Panics(cs[i], L, ls[i]) && cs[i + 1] == Next(cs[i], L, q, ls[i])
  }

  /** A machine that boots with a disk on which no transaction is pending. */
  predicate Start(c: State, L: Layout, init: Disk) {
    Recoverable(init, L) && Committed(init, L) == [] && c == Booted(init, L, 0)
  }

  ghost predicate IsRun(cs: seq<State>, ls: seq<Label>, L: Layout, q: nat, init: Disk) {
    && |cs| == |ls| + 1
    && Start(cs[0], L, init)
    && forall i :: 0 <= i < |ls| ==> StepAt(cs, ls, L, q, i)
  }

  function LedgerAt(cs: seq<State>, ls: seq<Label>, i: nat): Ledger
    requires i <= |ls| < |cs|
  {
    if i == 0 then Ledger([], 0) else Enter(cs[i - 1], ls[i - 1], LedgerAt(cs, ls, i - 1))
  }

  lemma RunSized(cs: seq<State>, ls: seq<Label>, L: Layout, q: nat, init: Disk)
    requires IsRun(cs, ls, L, q, init)
    ensures |cs| == |ls| + 1
  {
  }

  lemma RunExtends(cs: seq<State>, ls: seq<Label>, L: Layout, q: nat, init: Disk, l: Label, d: State)
    requires IsRun(cs, ls, L, q, init) && Can(cs[|ls|], L, q, l) && !Panics(cs[|ls|], L, l)
    requires d == Next(cs[|ls|], L, q, l)
    ensures IsRun(cs + [d], ls + [l], L, q, init)
  {
    hide Next, Can, Panics, Start;
    forall i | 0 <= i < |ls + [l]| ensures StepAt(cs + [d], ls + [l], L, q, i) {
      assert i < |ls| ==> StepAt(cs, ls, L, q, i);
    }
  }

  lemma EnterMatches(c: State, s: GC.State, L: Layout, init: Disk, q: nat, l: Label, t: GC.State)
    requires Joint(c, s, L, init) && Can(c, L, q, l) && Matches(c, s, L, q, l, t)
    ensures Ledger(t.history, t.cut) == Enter(c, l, Ledger(s.history, s.cut))
  {
    hide GC.Agrees, GC.Covered, GC.Whole, Recoverable, GoodHead, Mine, Views;
    if l.Put? {
      MovedBlock(c, s, L);
    }
  }

  lemma StartJoint(c: State, L: Layout, init: Disk) returns (s: GC.State)
    requires Start(c, L, init)
    ensures Joint(c, s, L, init) && s.history == [] && s.cut == 0 && s.ops == [] && s.lh == []
  {
    hide GC.Agrees, GC.Covered, GC.Whole, GoodHead, Mine, Views, PackHead, UnpackHead;
    var off := GC.State(init, init, [], [], GC.Idle, 0, [], 0);
    GC.StartInv(off, L, init);
    GC.CrashKeeps(off, L, init);
    s := GC.CrashStep(off, L);
    BootMine(init, L, 0);
    BootViews(init, L, 0, s);
  }

  /** In every state of every run the two machines agree, and the reservation holds. */
  lemma {:induction false} RunJoint(cs: seq<State>, ls: seq<Label>, L: Layout, q: nat, init: Disk, i: nat)
    returns (s: GC.State)
    requires IsRun(cs, ls, L, q, init) && i < |cs|
    ensures Joint(cs[i], s, L, init) && LedgerAt(cs, ls, i) == Ledger(s.history, s.cut)
    ensures q <= MAXOPBLOCKS - 1 ==> GC.Reserved(s, q)
    decreases i
  {
    hide Joint, Next, Can, Panics, Matches, GC.Reserved, Enter, Start;
    if i == 0 {
      s := StartJoint(cs[0], L, init);
      StartReserved(s, q);
    } else {
      var r := RunJoint(cs, ls, L, q, init, i - 1);
      assert StepAt(cs, ls, L, q, i - 1);
      s := StepSimulates(cs[i - 1], r, L, init, q, ls[i - 1]);
      EnterMatches(cs[i - 1], r, L, init, q, ls[i - 1], s);
      if q <= MAXOPBLOCKS - 1 {
        MatchesReserved(cs[i - 1], r, L, q, ls[i - 1], s);
      }
    }
  }

  lemma StartReserved(s: GC.State, q: nat)
    requires s.ops == [] && s.lh == []
    ensures GC.Reserved(s, q)
  {
  }

  lemma MatchesReserved(c: State, s: GC.State, L: Layout, q: nat, l: Label, t: GC.State)
    requires Can(c, L, q, l) && Matches(c, s, L, q, l, t) && q <= MAXOPBLOCKS - 1 && GC.Reserved(s, q)
    ensures GC.Reserved(t, q)
  {
    hide GC.Reserved, GC.Step;
    if Abstract(c, L, q, l).Some? {
      GC.ReservedStep(s, L, q, Abstract(c, L, q, l).value);
    }
  }

  /**
   Log and cache together refine the abstract disk.  In every state of every interleaving,
   whatever recovery attempts follow a crash there, the home blocks come back as the
   abstract disk after the first `cut` modifications; these are whole operations, none of
   them still outstanding, and with nothing outstanding or committing they are all of them.
   */
  lemma RecoversWholeOperations(cs: seq<State>, ls: seq<Label>, L: Layout, q: nat, init: Disk, i: nat, cuts: seq<nat>)
    requires IsRun(cs, ls, L, q, init) && i < |cs|
    ensures var c, g := cs[i], LedgerAt(cs, ls, i);
            && Recoverable(c.disk, L) && g.cut <= |g.history|
            && (var r := Recovered(c.disk, L, cuts);
                && |r| == |init| && Committed(r, L) == []
                && forall b: nat :: b < |init| && !L.InLog(b) ==> r[b] == GC.Replay(init, g.history[..g.cut])[b])
            && GC.WholeOps(g.history, g.cut)
            && (forall j, k :: 0 <= j < g.cut && 0 <= k < |c.ops| ==> g.history[j].op != c.ops[k].id)
            && (c.phase.Idle? && c.ops == [] ==> g.cut == |g.history|)
  {
    var s := RunJoint(cs, ls, L, q, init, i);
    hide IsRun, LedgerAt, Mine, Views, Moving;
    RecoveredIsMeaning(s.disk, L, cuts);
    if s.phase.Idle? && s.ops == [] {
      GC.NothingToCommit(s, L, init);
    }
  }

  /**
   A buffer that holds a home block holds every modification made to it so far, and a home
   block that is in no buffer has them all on disk: no recycling ever loses one.
   */
  lemma CacheHoldsAll(cs: seq<State>, ls: seq<Label>, L: Layout, q: nat, init: Disk, i: nat, b: nat)
    requires IsRun(cs, ls, L, q, init) && i < |cs| && b < |init| && !L.InLog(b) && !cs[i].phase.Booting?
    ensures var c, now := cs[i], GC.Replay(init, LedgerAt(cs, ls, i).history);
            && |c.bufs| == NBUF && |c.disk| == |init|
            && (forall j :: 0 <= j < NBUF && Has(c.bufs[j], b) && c.bufs[j].valid ==> c.bufs[j].data == now[b])
            && ((forall j :: 0 <= j < NBUF && Has(c.bufs[j], b) ==> !c.bufs[j].valid) ==> c.disk[b] == now[b])
  {
    var s := RunJoint(cs, ls, L, q, init, i);
    hide IsRun, LedgerAt, Counted, Locks, Kept, Fresh, DirtyHeld, Moving, GC.Covered, GC.Whole, Recoverable, GoodHead;
    var c := cs[i];
    forall j | 0 <= j < NBUF && Has(c.bufs[j], b) && c.bufs[j].valid ensures c.bufs[j].data == s.mem[b] {
      assert Shows(c.bufs[j], s.mem, L);
    }
    assert s.mem[b] == c.disk[b] || CachedValid(c.bufs, b);
  }

  /** A buffer that bget recycles is used by nobody, pinned by no header entry, and as on disk. */
  lemma NeverRecycled(cs: seq<State>, ls: seq<Label>, L: Layout, q: nat, init: Disk, i: nat, u: nat, b: nat, j: nat)
    requires IsRun(cs, ls, L, q, init) && i < |cs|
    requires Can(cs[i], L, q, Ref(u, b, j)) && !Has(cs[i].bufs[j], b)
    ensures var c := cs[i];
            && (forall x :: x in c.claims ==> x.i != j)
            && (c.bufs[j].valid ==>
                  && !Pinned(c, c.bufs[j].blockno)
                  && c.bufs[j].blockno < |c.disk| && c.bufs[j].data == c.disk[c.bufs[j].blockno])
  {
    var s := RunJoint(cs, ls, L, q, init, i);
    hide IsRun, LedgerAt, Views, Moving, Pinned;
    var c := cs[i];
    forall x | x in c.claims ensures x.i != j {
      ClaimedUsed(c, x);
    }
    PinnedUsed(c, j);
    if c.bufs[j].valid {
      UnusedOnDisk(c, s, L, init, j);
    }
  }

  /** refcnt is the number of processes that use a buffer, plus one if a header entry pins it. */
  lemma ReferencesCounted(cs: seq<State>, ls: seq<Label>, L: Layout, q: nat, init: Disk, i: nat, j: nat)
    requires IsRun(cs, ls, L, q, init) && i < |cs| && j < NBUF
    ensures var c := cs[i];
            && |c.bufs| == NBUF
            && c.bufs[j].refcnt ==
               |On(c.claims, j)| + (if c.bufs[j].dev == ROOTDEV && Pinned(c, c.bufs[j].blockno) then 1 else 0)
            && (forall x, y :: x in On(c.claims, j) && y in On(c.claims, j) && x.kind == Holds && y.kind == Holds ==>
               x == y)
  {
    var s := RunJoint(cs, ls, L, q, init, i);
    hide IsRun, LedgerAt, Views, Moving, Pinned;
  }

  /** With MAXOPBLOCKS - 1 new header entries per operation, log_write never panics. */
  lemma NoPanic(cs: seq<State>, ls: seq<Label>, L: Layout, q: nat, init: Disk, i: nat, l: Label)
    requires IsRun(cs, ls, L, q, init) && i < |cs| && q <= MAXOPBLOCKS - 1
    requires L.size == LOGSIZE && Can(cs[i], L, q, l)
    ensures !Panics(cs[i], L, l)
  {
    var s := RunJoint(cs, ls, L, q, init, i);
    hide IsRun, LedgerAt, Mine, Views, Moving;
    GC.UnusedBound(s.ops, MAXOPBLOCKS - 1);
  }

  /** When the last operation has ended, every home block that is not in the header is as on disk. */
  lemma CommitStartsClean(cs: seq<State>, ls: seq<Label>, L: Layout, q: nat, init: Disk, i: nat, j: nat)
    requires IsRun(cs, ls, L, q, init) && i < |cs| && cs[i].phase == GC.Logging(0) && j < NBUF
    ensures var c := cs[i];
            && c.ops == [] && |c.bufs| == NBUF
            && (c.bufs[j].valid && c.bufs[j].blockno !in c.lh && c.moved != Some(j) ==>
                  c.bufs[j].blockno < |c.disk| && c.bufs[j].data == c.disk[c.bufs[j].blockno])
            && (forall b :: b in c.lh ==> CachedValid(c.bufs, b))
  {
    var s := RunJoint(cs, ls, L, q, init, i);
    hide IsRun, LedgerAt, Views, Counted, Locks, CachedValid, Recoverable, GoodHead;
    var c := cs[i];
    assert FreshAt(c, j);
    forall b | b in c.lh ensures CachedValid(c.bufs, b) {
      assert Pinned(c, b);
    }
  }
}
