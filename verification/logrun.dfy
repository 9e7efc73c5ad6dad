/**
 kernel/log.c and kernel/bio.c running: the log and the cache take the steps of
 `LogCache`, in any order the kernel's processes give.  `claims` and `ops` say which
 process is where, `phase`, `unpinned` and `moved` how far the committing one is.
 */
module LogRun {
  import opened Sets
  import opened Wal
  import opened LruList
  import opened BlockDevice
  import opened BufferCache
  import Log
  import GC = GroupCommit
  import LC = LogCache

  function StripAll(bs: seq<Buf>): (r: seq<Cell>)
    ensures |r| == |bs|
  {
    seq(|bs|, i requires 0 <= i < |bs| => Strip(bs[i]))
  }

  lemma StripAt(bs: seq<Buf>)
    ensures forall i :: 0 <= i < |bs| ==> StripAll(bs)[i] == Strip(bs[i])
  {
  }

  lemma StripUpdate(a: seq<Buf>, b: seq<Buf>, i: nat)
    requires i < |a| == |b| && forall j :: 0 <= j < |a| && j != i ==> Strip(b[j]) == Strip(a[j])
    ensures StripAll(b) == StripAll(a)[i := Strip(b[i])]
  {
  }

  lemma StripSame(a: seq<Buf>, b: seq<Buf>)
    requires |a| == |b| && forall j :: 0 <= j < |a| ==> Strip(b[j]) == Strip(a[j])
    ensures StripAll(b) == StripAll(a)
  {
  }

  /** read_head on a cache that has just been initialised. */
  method FetchHead(c: Cache, l: Log.Log, L: Layout)
    requires c.Valid() && l.block.Length == LOGSIZE && Recoverable(c.device.blocks, L) && c.slot == map[]
    requires forall i :: 0 <= i < NBUF ==> c.stamp[i] == i && Strip(c.buf[i]) == Cell(false, 0, 0, 0, false, Block([]))
    modifies c, c.buf, l`n, l.block
    ensures c.Valid() && l.n <= LOGSIZE && l.block[..l.n] == Committed(c.device.blocks, L)
    ensures forall i :: 1 <= i < NBUF ==> Strip(c.buf[i]) == Cell(false, 0, 0, 0, false, Block([]))
    ensures Strip(c.buf[0]) == Cell(true, ROOTDEV, L.start, 0, false, c.device.blocks[L.start])
  {
    hide Ranked, Indexed, Reflects, ApplyAll, UnpackHead;
    assert Strip(c.buf[0]).refcnt == 0;
    var ok, hb := c.Ref(ROOTDEV, L.start);
    assert hb == 0;
    c.Lock(hb);
    c.Fill(hb);
    l.CopyHead(c.buf[hb].data.words);
    c.Unlock(hb);
    c.Drop(hb);
  }

  class Kernel {
    const cache: Cache
    const log: Log.Log
    const L: Layout
    var claims: set<LC.Claim>
    var ops: seq<GC.Op>
    var phase: GC.Phase
    var unpinned: nat
    var committer: nat
    var moved: Option<nat>
    var nextId: nat

    /** Boot: binit, initlog and, as the first thing recover_from_log does, read_head. */
    constructor (d: Device, L: Layout, nextId: nat)
      requires d.Valid() && Recoverable(d.blocks, L)
      ensures Valid() && Abs() == LC.Booted(d.blocks, L, nextId) && cache.device == d && this.L == L
      ensures fresh(cache) && fresh(cache.buf) && fresh(log) && fresh(log.block)
    {
      hide Ranked, Indexed, Reflects, ApplyAll, StripAll, UnpackHead;
      var c := new Cache(d);
      var l := new Log.Log(c, L);
      cache, log, this.L, this.nextId := c, l, L, nextId;
      claims, ops, phase, unpinned, committer, moved := {}, [], GC.Booting(0), 0, 0, None;
      new;
      FetchHead(c, l, L);
      Cells();
      assert Abs().bufs == LC.Booted(d.blocks, L, nextId).bufs;
    }

    ghost predicate Shape()
      reads this, log, log.block, cache, cache.buf, cache.device
    {
      && log.cache == cache && log.L == L && cache.Valid()
      && log.block.Length == LOGSIZE && log.n <= LOGSIZE
    }

    ghost predicate Valid()
      reads this, log, log.block, cache, cache.buf, cache.device
    {
      && Shape() && log.outstanding == |ops|
      && (log.committing <==> !phase.Idle? && !phase.Booting?)
    }

    function Abs(): LC.State
      requires Shape()
      reads this, log, log.block, cache, cache.buf, cache.device
    {
      LC.State(cache.device.blocks, StripAll(cache.buf[..NBUF]), claims, log.block[..log.n],
               unpinned, ops, phase, committer, moved, nextId)
    }

    lemma Cells()
      requires Shape()
      ensures |Abs().bufs| == NBUF && forall i :: 0 <= i < NBUF ==> Abs().bufs[i] == Strip(cache.buf[i])
    {
      StripAt(cache.buf[..NBUF]);
    }

    /** One buffer's step: the others are the same but for their links. */
    twostate lemma OneCell(i: nat)
      requires cache.buf.Length == NBUF + 1 && i < NBUF
      requires forall j :: 0 <= j < NBUF && j != i ==> Strip(cache.buf[j]) == old(Strip(cache.buf[j]))
      ensures StripAll(cache.buf[..NBUF]) == old(StripAll(cache.buf[..NBUF]))[i := Strip(cache.buf[i])]
    {
      StripUpdate(old(cache.buf[..NBUF]), cache.buf[..NBUF], i);
    }

    /** The step l can be taken, in a state that some run reaches. */
    ghost predicate Ready(l: LC.Label, s: GC.State, init: Disk, q: nat)
      reads this, log, log.block, cache, cache.buf, cache.device
    {
      Valid() && LC.Joint(Abs(), s, L, init) && LC.Can(Abs(), L, q, l) && !LC.Panics(Abs(), L, l)
    }

    /** begin_op, by a process that is not made to wait. */
    method DoBegin(ghost s: GC.State, ghost init: Disk, ghost q: nat)
      requires Ready(LC.Begin, s, init, q)
      modifies this, log
      ensures Valid() && Abs() == LC.Next(old(Abs()), L, q, LC.Begin)
    {
      hide Ranked, Indexed, Reflects, ApplyAll, StripAll, LC.Joint;
      var admitted := log.BeginOp();
      ops := ops + [GC.Op(nextId, 0, {})];
      nextId := nextId + 1;
    }

    /** bget, by a process that waits for no other buffer; false is its panic. */
    method DoRef(user: nat, b: nat, ghost s: GC.State, ghost init: Disk, ghost q: nat) returns (ok: bool, i: nat)
      requires Valid() && LC.Joint(Abs(), s, L, init) && b < |cache.device.blocks| && !LC.Waits(Abs(), user)
      modifies this, cache, cache.buf
      ensures Valid() && (ok ==> LC.Can(old(Abs()), L, q, LC.Ref(user, b, i)))
      ensures Abs() == if ok then LC.Next(old(Abs()), L, q, LC.Ref(user, b, i)) else old(Abs())
      ensures !ok ==> forall j :: !LC.Can(old(Abs()), L, q, LC.Ref(user, b, j))
    {
      hide Ranked, Reflects, ApplyAll, StripAll, LC.Joint;
      Cells();
      cache.Lookup(b);
      ok, i := cache.Ref(ROOTDEV, b);
      if ok {
        claims := claims + {LC.Claim(user, i, LC.Wants)};
        OneCell(i);
      } else {
        SameCells();
      }
    }

    method DoLock(user: nat, i: nat, ghost s: GC.State, ghost init: Disk, ghost q: nat)
      requires Ready(LC.Lock(user, i), s, init, q)
      modifies this, cache, cache.buf
      ensures Valid() && Abs() == LC.Next(old(Abs()), L, q, LC.Lock(user, i))
    {
      hide Ranked, Indexed, Reflects, ApplyAll, StripAll, LC.Joint;
      Cells();
      LC.UserUsed(Abs(), s, L, init, LC.Claim(user, i, LC.Wants));
      cache.Lock(i);
      claims := LC.Reclaim(claims, user, i, LC.Wants, LC.Holds);
      OneCell(i);
    }

    method DoFill(user: nat, i: nat, ghost s: GC.State, ghost init: Disk, ghost q: nat)
      requires Ready(LC.Fill(user, i), s, init, q)
      modifies this, cache, cache.buf
      ensures Valid() && Abs() == LC.Next(old(Abs()), L, q, LC.Fill(user, i))
    {
      hide Ranked, Indexed, Reflects, ApplyAll, StripAll, LC.Joint;
      Cells();
      LC.UserUsed(Abs(), s, L, init, LC.Claim(user, i, LC.Holds));
      cache.Fill(i);
      OneCell(i);
    }

    /** A held buffer with its block in it is the caller's as the cache sees it. */
    lemma Owned(user: nat, i: nat, s: GC.State, init: Disk)
      requires Valid() && LC.Joint(Abs(), s, L, init) && LC.Owns(Abs(), user, i)
      ensures i < NBUF && cache.Owns(i, cache.buf[i].blockno) && cache.buf[i].blockno < |cache.device.blocks|
    {
      hide Ranked, Indexed, Reflects, ApplyAll, StripAll, LC.Joint;
      Cells();
      LC.UserUsed(Abs(), s, L, init, LC.Claim(user, i, LC.Holds));
    }

    method DoModify(k: nat, i: nat, data: Block, ghost s: GC.State, ghost init: Disk, ghost q: nat)
      requires Ready(LC.Modify(k, i, data), s, init, q)
      modifies this, cache, cache.buf
      ensures Valid() && Abs() == LC.Next(old(Abs()), L, q, LC.Modify(k, i, data))
    {
      hide Ranked, Indexed, Reflects, ApplyAll, StripAll, LC.Joint;
      Cells();
      Owned(ops[k].id, i, s, init);
      cache.SetData(i, cache.buf[i].blockno, data);
      ops := ops[k := ops[k].(dirty := ops[k].dirty + {cache.buf[i].blockno})];
      OneCell(i);
    }

    /** While operations run, the log area is as on disk and every header entry pins its buffer. */
    lemma LogReady(s: GC.State, init: Disk)
      requires Valid() && LC.Joint(Abs(), s, L, init) && phase.Idle?
      ensures log.Valid() && log.Pinned(0)
    {
      hide Ranked, Indexed, Reflects, ApplyAll, StripAll, LC.Joint;
      var c := Abs();
      Cells();
      LC.IdleHead(c, s, L, init);
      forall x | 0 <= x < |cache.view| && L.InLog(x) ensures cache.view[x] == cache.device.blocks[x] {
        var i := cache.Shown(x);
        if i < NBUF && cache.buf[i].valid {
          LC.LogBlockFresh(c, s, L, init, i);
        }
      }
      assert log.Valid();
      forall k | 0 <= k < log.n ensures cache.refs[log.block[k]] > cache.Holders(log.block[k]) {
        assert log.block[k] == c.lh[k];
        var i := cache.Shown(log.block[k]);
        LC.IdlePinned(c, s, L, init, k, i);
      }
    }

    /** log_write, seen on the header and the buffers. */
    method Note(i: nat, b: nat)
      requires Shape() && log.Valid() && log.Pinned(0) && i < NBUF && cache.Owns(i, b) && b < |cache.view|
      requires !L.InLog(b) && log.n < LOGSIZE && log.n < L.size - 1 && log.outstanding >= 1
      modifies log`n, log.block, cache, cache.buf
      ensures Shape() && log.Head() == if b in old(log.Head()) then old(log.Head()) else old(log.Head()) + [b]
      ensures StripAll(cache.buf[..NBUF]) == old(StripAll(cache.buf[..NBUF]))[i := Strip(cache.buf[i])]
      ensures Strip(cache.buf[i]) ==
              if b in old(log.Head()) then old(Strip(cache.buf[i]))
              else old(Strip(cache.buf[i])).(refcnt := old(cache.buf[i].refcnt) + 1)
    {
      hide Ranked, Indexed, Reflects, ApplyAll, StripAll;
      var ok := log.LogWrite(i, b);
      OneCell(i);
    }

    method DoLogWrite(k: nat, i: nat, ghost s: GC.State, ghost init: Disk, ghost q: nat)
      requires Ready(LC.LogWrite(k, i), s, init, q)
      modifies this, log, log.block, cache, cache.buf
      ensures Valid() && Abs() == LC.Next(old(Abs()), L, q, LC.LogWrite(k, i))
    {
      hide Ranked, Indexed, Reflects, ApplyAll, StripAll, LC.Joint, Log.Log.Pinned, Log.Log.Valid;
      Cells();
      LC.OpsIdle(Abs(), s, L, init);
      LogReady(s, init);
      Owned(ops[k].id, i, s, init);
      var b, o, n := cache.buf[i].blockno, ops[k], log.n;
      Note(i, b);
      ops := ops[k := GC.Op(o.id, o.used + log.n - n, o.dirty - {b})];
    }

    method DoUnlock(user: nat, i: nat, ghost s: GC.State, ghost init: Disk, ghost q: nat)
      requires Ready(LC.Unlock(user, i), s, init, q)
      modifies this, cache, cache.buf
      ensures Valid() && Abs() == LC.Next(old(Abs()), L, q, LC.Unlock(user, i))
    {
      hide Ranked, Indexed, Reflects, ApplyAll, StripAll, LC.Joint;
      Cells();
      LC.UserUsed(Abs(), s, L, init, LC.Claim(user, i, LC.Holds));
      cache.Unlock(i);
      claims := LC.Reclaim(claims, user, i, LC.Holds, LC.Drops);
      OneCell(i);
    }

    method DoDrop(user: nat, i: nat, ghost s: GC.State, ghost init: Disk, ghost q: nat)
      requires Ready(LC.Drop(user, i), s, init, q)
      modifies this, cache, cache.buf
      ensures Valid() && Abs() == LC.Next(old(Abs()), L, q, LC.Drop(user, i))
    {
      hide Ranked, Indexed, Reflects, ApplyAll, StripAll, LC.Joint;
      Cells();
      LC.DropSafe(Abs(), s, L, init, q, user, i);
      cache.Drop(i);
      claims := claims - {LC.Claim(user, i, LC.Drops)};
      OneCell(i);
    }

    /** end_op under the log's lock. */
    method DoEnd(k: nat, ghost s: GC.State, ghost init: Disk, ghost q: nat)
      requires Ready(LC.End(k), s, init, q)
      modifies this, log
      ensures Valid() && Abs() == LC.Next(old(Abs()), L, q, LC.End(k))
    {
      hide Ranked, Indexed, Reflects, ApplyAll, StripAll;
      assert phase.Idle?;
      var last := log.Leave();
      if last {
        committer := ops[k].id;
        phase := GC.Logging(0);
      }
      ops := Without(ops, k);
    }

    method DoMove(i: nat, j: nat, ghost s: GC.State, ghost init: Disk, ghost q: nat)
      requires Ready(LC.Move(i, j), s, init, q)
      modifies this, cache, cache.buf
      ensures Valid() && Abs() == LC.Next(old(Abs()), L, q, LC.Move(i, j))
    {
      hide Ranked, Indexed, Reflects, ApplyAll, StripAll, LC.Joint;
      Cells();
      Owned(committer, i, s, init);
      Owned(committer, j, s, init);
      cache.SetData(j, cache.buf[j].blockno, cache.buf[i].data);
      moved := Some(j);
      OneCell(j);
    }

    /** write_head's assignments; recovery has emptied the header by then. */
    method DoPack(i: nat, ghost s: GC.State, ghost init: Disk, ghost q: nat)
      requires Ready(LC.Pack(i), s, init, q)
      modifies this, cache, cache.buf
      ensures Valid() && Abs() == LC.Next(old(Abs()), L, q, LC.Pack(i))
    {
      hide Ranked, Indexed, Reflects, ApplyAll, StripAll, LC.Joint;
      Cells();
      Owned(committer, i, s, init);
      var words := cache.buf[i].data.words;
      if phase.Booting? {
        words := words[0 := 0];
        assert Block(words) == PackHead([], cache.buf[i].data);
      } else {
        words := log.Overlay(words);
      }
      cache.SetData(i, cache.buf[i].blockno, Block(words));
      moved := Some(i);
      OneCell(i);
    }

    method DoPut(ghost s: GC.State, ghost init: Disk, ghost q: nat)
      requires Ready(LC.Put, s, init, q)
      modifies this, log, cache.device
      ensures Valid() && Abs() == LC.Next(old(Abs()), L, q, LC.Put)
    {
      hide Ranked, Indexed, Reflects, ApplyAll, StripAll, LC.Joint;
      Cells();
      LC.PutOwns(Abs(), s, L, init, q);
      var m := moved.value;
      Owned(committer, m, s, init);
      cache.Bwrite(m, cache.buf[m].blockno);
      moved := None;
      var done := phase == GC.Booting(log.n);
      phase := LC.Written(phase, log.n);
      if done {
        log.n := 0;
      }
    }

    method DoUnpin(i: nat, ghost s: GC.State, ghost init: Disk, ghost q: nat)
      requires Ready(LC.Unpin(i), s, init, q)
      modifies this, cache, cache.buf
      ensures Valid() && Abs() == LC.Next(old(Abs()), L, q, LC.Unpin(i))
    {
      hide Ranked, Indexed, Reflects, ApplyAll, StripAll, LC.Joint;
      Cells();
      Owned(committer, i, s, init);
      LC.UnpinSafe(Abs(), s, L, init, q, i);
      cache.Holding(i, cache.buf[i].blockno);
      cache.Bunpin(i, cache.buf[i].blockno);
      unpinned := unpinned + 1;
      OneCell(i);
    }

    /** The end of write_log with nothing to write, lh.n = 0 after install_trans, and end_op's last lines. */
    method DoAdvance(ghost s: GC.State, ghost init: Disk, ghost q: nat)
      requires Ready(LC.Advance, s, init, q)
      modifies this, log
      ensures Valid() && Abs() == LC.Next(old(Abs()), L, q, LC.Advance)
    {
      hide Ranked, Indexed, Reflects, ApplyAll, StripAll, LC.Joint;
      if phase.Logging? {
        phase := GC.Done;
      } else if phase.Done? {
        log.committing := false;
        phase := GC.Idle;
      } else {
        log.n := 0;
        unpinned := 0;
        phase := GC.Erasing;
      }
    }

    twostate lemma SameCells()
      requires cache.buf.Length == NBUF + 1
      requires forall j :: 0 <= j < NBUF ==> cache.buf[j] == old(cache.buf[j])
      ensures StripAll(cache.buf[..NBUF]) == old(StripAll(cache.buf[..NBUF]))
    {
      StripSame(old(cache.buf[..NBUF]), cache.buf[..NBUF]);
    }

    /** e, by the process that is due; the code chooses the buffer in bget.  Stay if it cannot go on. */
    method Perform(e: LC.Label, q: nat, ghost s: GC.State, ghost init: Disk) returns (l: LC.Label)
      requires Valid() && LC.Joint(Abs(), s, L, init) && !e.Crash?
      modifies this, log, log.block, cache, cache.buf, cache.device
      ensures Valid() && Did(old(Abs()), L, q, e, l, Abs())
    {
      hide Ranked, Indexed, Reflects, ApplyAll, StripAll, LC.Joint, LC.Next, LC.Panics;
      l := LC.Stay;
      LC.StayKeeps(Abs(), L, q);
      NoPanics(Abs(), L, e);
      if e.Ref? {
        if e.b < |cache.device.blocks| && !LC.Waits(Abs(), e.user) {
          var ok, i := DoRef(e.user, e.b, s, init, q);
          if ok {
            l := LC.Ref(e.user, e.b, i);
          }
        }
      } else if LC.Can(Abs(), L, q, e) && !LC.Panics(Abs(), L, e) {
        l := e;
        Dispatch(e, q, s, init);
      }
    }

    method Dispatch(e: LC.Label, ghost q: nat, ghost s: GC.State, ghost init: Disk)
      requires Ready(e, s, init, q) && !e.Crash? && !e.Ref?
      modifies this, log, log.block, cache, cache.buf, cache.device
      ensures Valid() && Abs() == LC.Next(old(Abs()), L, q, e)
    {
      hide Ranked, Indexed, Reflects, ApplyAll, StripAll, LC.Joint, LC.Next, LC.Can, LC.Panics;
      match e
      case Begin => DoBegin(s, init, q);
      case Lock(u, i) => DoLock(u, i, s, init, q);
      case Fill(u, i) => DoFill(u, i, s, init, q);
      case Modify(k, i, data) => DoModify(k, i, data, s, init, q);
      case LogWrite(k, i) => DoLogWrite(k, i, s, init, q);
      case Unlock(u, i) => DoUnlock(u, i, s, init, q);
      case Drop(u, i) => DoDrop(u, i, s, init, q);
      case End(k) => DoEnd(k, s, init, q);
      case Move(i, j) => DoMove(i, j, s, init, q);
      case Pack(i) => DoPack(i, s, init, q);
      case Put => DoPut(s, init, q);
      case Unpin(i) => DoUnpin(i, s, init, q);
      case Advance => DoAdvance(s, init, q);
      case Stay => LC.StayKeeps(Abs(), L, q);
    }

    /**
     Any schedule of the kernel's processes is a run of the machine: it extends the run that
     led here, each event is the step it asks for or one that cannot be taken, and the log
     and the cache end where the run does.
     */
    method Run(es: seq<LC.Label>, q: nat, ghost init: Disk, ghost before: seq<LC.State>, ghost past: seq<LC.Label>)
      returns (ghost cs: seq<LC.State>, ghost ls: seq<LC.Label>)
      requires Valid() && LC.IsRun(before, past, L, q, init) && Abs() == before[|past|]
      requires forall n :: 0 <= n < |es| ==> !es[n].Crash?
      modifies this, log, log.block, cache, cache.buf, cache.device
      ensures Valid() && LC.IsRun(cs, ls, L, q, init) && Abs() == cs[|ls|]
      ensures |ls| == |past| + |es| && ls[..|past|] == past && cs[..|before|] == before
      ensures forall n :: 0 <= n < |es| ==> Did(cs[|past| + n], L, q, es[n], ls[|past| + n], cs[|past| + n + 1])
    {
      hide Ranked, Indexed, Reflects, ApplyAll, StripAll, LC.Joint, LC.Next, LC.Can, LC.Panics, LC.IsRun, Did;
      cs, ls := before, past;
      LC.RunSized(cs, ls, L, q, init);
      for n := 0 to |es|
        invariant Valid() && LC.IsRun(cs, ls, L, q, init) && |cs| == |ls| + 1 && Abs() == cs[|ls|]
        invariant |ls| == |past| + n && ls[..|past|] == past && cs[..|before|] == before && |before| == |past| + 1
        invariant forall m :: 0 <= m < n ==> Did(cs[|past| + m], L, q, es[m], ls[|past| + m], cs[|past| + m + 1])
      {
        ghost var s := LC.RunJoint(cs, ls, L, q, init, |ls|);
        ghost var c := Abs();
        var l := Perform(es[n], q, s, init);
        DidSteps(c, L, q, es[n], l, Abs());
        LC.RunExtends(cs, ls, L, q, init, l, Abs());
        cs, ls := cs + [Abs()], ls + [l];
      }
    }
  }

  /** l is the step that e asks for, or Stay if there is none. */
  ghost predicate Answers(e: LC.Label, l: LC.Label) {
    l == e || (e.Ref? && l.Ref? && l.user == e.user && l.b == e.b)
  }

  ghost predicate Possible(c: LC.State, L: Layout, q: nat, e: LC.Label) {
    exists l :: Answers(e, l) && LC.Can(c, L, q, l) && !LC.Panics(c, L, l)
  }

  ghost predicate Did(c: LC.State, L: Layout, q: nat, e: LC.Label, l: LC.Label, d: LC.State) {
    && LC.Can(c, L, q, l) && !LC.Panics(c, L, l) && d == LC.Next(c, L, q, l)
    && (Answers(e, l) || (l == LC.Stay && !Possible(c, L, q, e)))
  }

  lemma NoPanics(c: LC.State, L: Layout, e: LC.Label)
    ensures !LC.Panics(c, L, LC.Stay)
    ensures e.Ref? ==> forall i :: !LC.Panics(c, L, LC.Ref(e.user, e.b, i))
  {
  }

  lemma DidSteps(c: LC.State, L: Layout, q: nat, e: LC.Label, l: LC.Label, d: LC.State)
    requires Did(c, L, q, e, l, d)
    ensures LC.Can(c, L, q, l) && !LC.Panics(c, L, l) && d == LC.Next(c, L, q, l)
  {
  }

  /** Power fails and the machine boots again: a crash step. */
  method Restart(k: Kernel, ghost s: GC.State, ghost init: Disk, ghost q: nat) returns (r: Kernel)
    requires k.Valid() && LC.Joint(k.Abs(), s, k.L, init)
    ensures fresh(r) && r.L == k.L && r.Valid()
    ensures LC.Can(k.Abs(), k.L, q, LC.Crash) && r.Abs() == LC.Next(k.Abs(), k.L, q, LC.Crash)
  {
    hide Ranked, Indexed, Reflects, ApplyAll, StripAll;
    r := new Kernel(k.cache.device, k.L, k.nextId);
  }
}
