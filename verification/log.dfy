/**
 kernel/log.c over the buffer cache: the in-memory header, the pins, and the disk
 writes that commit and recovery issue, in the order the code issues them.
 */
module Log {
  import opened Wal
  import opened LruList
  import opened BufferCache

  /** install_trans after k rounds: what it has done to the cache, the disk and the references. */
  ghost predicate Progress(L: Layout, lh: seq<int>, k: nat, unpin: bool, d: Disk, r: seq<nat>,
                           blocks: Disk, view: Disk, refs: seq<nat>) {
    && GoodHead(lh, L, |d|) && L.start + L.size <= |d|
    && |blocks| == |view| == |refs| == |d| == |r|
    && (forall x :: L.InLog(x) ==> blocks[x] == d[x])
    && (forall x :: 0 <= x < |d| && x !in lh ==> view[x] == blocks[x] && refs[x] == r[x])
    && (forall i :: 0 <= i < k && i < |lh| ==> view[lh[i]] == blocks[lh[i]])
    && (forall i :: 0 <= i < |lh| ==> refs[lh[i]] + (if unpin && i < k then 1 else 0) == r[lh[i]])
  }

  lemma ProgressStart(L: Layout, lh: seq<int>, unpin: bool, d: Disk, r: seq<nat>, view: Disk)
    requires GoodHead(lh, L, |d|) && L.start + L.size <= |d| && |view| == |d| == |r|
    requires forall x :: 0 <= x < |d| && x !in lh ==> view[x] == d[x]
    ensures Progress(L, lh, 0, unpin, d, r, d, view, r)
  {
  }

  lemma ProgressStep(L: Layout, lh: seq<int>, k: nat, unpin: bool, d: Disk, r: seq<nat>,
                     blocks: Disk, view: Disk, refs: seq<nat>, refs': seq<nat>)
    requires Progress(L, lh, k, unpin, d, r, blocks, view, refs) && k < |lh|
    requires unpin ==> refs[lh[k]] > 0
    requires refs' == if unpin then refs[lh[k] := refs[lh[k]] - 1] else refs
    ensures var data := d[L.start + 1 + k];
            && blocks[L.start + 1 + k] == data
            && Progress(L, lh, k + 1, unpin, d, r, blocks[lh[k] := data], view[lh[k] := data], refs')
  {
  }

  lemma ProgressDone(L: Layout, lh: seq<int>, unpin: bool, d: Disk, r: seq<nat>,
                     blocks: Disk, view: Disk, refs: seq<nat>)
    requires Progress(L, lh, |lh|, unpin, d, r, blocks, view, refs)
    ensures view == blocks && |refs| == |r| && |blocks| == |d|
    ensures forall x :: L.InLog(x) ==> blocks[x] == d[x]
    ensures forall b :: 0 <= b < |refs| ==> refs[b] + (if unpin && b in lh then 1 else 0) == r[b]
  {
    forall b | 0 <= b < |refs|
      ensures view[b] == blocks[b] && refs[b] + (if unpin && b in lh then 1 else 0) == r[b]
    {
      if b in lh {
        assert b == lh[IndexOf(lh, b)];
      }
    }
  }

  class Log {
    const cache: Cache
    const L: Layout
    const block: array<int>
    var n: nat
    var outstanding: nat
    var committing: bool

    ghost function Head(): seq<int>
      reads this, block
      requires n <= block.Length
    {
      block[..n]
    }

    /** The header is well formed and the log area is as on disk. */
    ghost predicate Valid()
      reads this, block, cache, cache.buf, cache.device
    {
      && block.Length == LOGSIZE && n <= LOGSIZE
      && cache.Valid() && Fits(cache.device.blocks, L)
      && GoodHead(Head(), L, |cache.device.blocks|)
      && (forall x :: 0 <= x < |cache.view| && L.InLog(x) ==> cache.view[x] == cache.device.blocks[x])
    }

    /** Header entries from k on hold a reference to their buffer, besides that of its holder. */
    ghost predicate Pinned(k: nat)
      reads this, block, cache, cache.buf, cache.device
      requires Valid()
    {
      forall i :: k <= i < n ==> cache.refs[block[i]] > cache.Holders(block[i])
    }

    /** Every modified block is logged: the others are as on disk. */
    ghost predicate Clean()
      reads this, block, cache, cache.buf, cache.device
      requires Valid()
    {
      forall x :: 0 <= x < |cache.view| && x !in Head() ==> cache.view[x] == cache.device.blocks[x]
    }

    /** initlog, before recovery. */
    constructor (cache: Cache, L: Layout)
      requires cache.Valid() && Recoverable(cache.device.blocks, L) && cache.view == cache.device.blocks
      ensures Valid() && Pinned(0) && Clean() && n == 0 && outstanding == 0 && !committing
      ensures this.cache == cache && this.L == L && fresh(block)
    {
      this.cache, this.L := cache, L;
      block := new int[LOGSIZE](_ => 0);
      n, outstanding, committing := 0, 0, false;
    }

    /** bread of a block nobody has locked, when a buffer is unused or the block is referenced. */
    method Fetch(b: nat) returns (i: nat)
      requires cache.Valid() && b < |cache.device.blocks|
      requires forall j :: 0 <= j < NBUF && cache.buf[j].locked ==> cache.buf[j].blockno != b
      requires cache.refs[b] > 0 || |Busy(cache.refs)| < NBUF
      modifies cache, cache.buf
      ensures cache.Valid() && cache.Owns(i, b) && cache.buf[i].data == cache.view[b]
      ensures forall j :: 0 <= j < NBUF && j != i ==> cache.buf[j] == old(cache.buf[j])
      ensures !old(cache.buf[i].locked)
      ensures cache.view == old(cache.view)
      ensures cache.refs == old(cache.refs)[b := old(cache.refs[b]) + 1]
    {
      assert cache.refs[b] == Held(cache.buf[..], cache.slot, b);
      if |Busy(cache.refs)| < NBUF {
        FreeBuffer(cache.buf[..], cache.slot, cache.device.blocks, cache.view, cache.refs);
      }
      var ok, mine;
      ok, i, mine := cache.Bread(ROOTDEV, b);
      assert ok && mine;
    }

    /** New contents for a held block, written through to disk. */
    method Update(i: nat, ghost b: nat, data: Block)
      requires cache.Valid() && cache.Owns(i, b)
      modifies cache, cache.buf, cache.device
      ensures cache.Valid() && cache.Owns(i, b)
      ensures forall j :: 0 <= j < NBUF && j != i ==> cache.buf[j] == old(cache.buf[j])
      ensures cache.view == old(cache.view)[b := data] && cache.refs == old(cache.refs)
      ensures cache.device.blocks == old(cache.device.blocks)[b := data]
      ensures cache.device.trace == old(cache.device.trace) + [Write(b, data)]
    {
      cache.SetData(i, b, data);
      cache.Bwrite(i, b);
    }

    // ----------------------------------------------------------------
    // The header block

    /** write_head's loop, on the words of the header block. */
    method Overlay(words: seq<int>) returns (r: seq<int>)
      requires n <= LOGSIZE == block.Length && |words| == WORDS
      ensures Block(r) == PackHead(Head(), Block(words))
    {
      r := words[0 := n];
      for i := 0 to n
        invariant r == [n] + block[..i] + words[1 + i..]
      {
        r := r[1 + i := block[i]];
      }
    }

    /** write_head: the header block, with the in-memory header laid over it. */
    method WriteHead()
      requires Valid() && cache.Unlocked() && |Busy(cache.refs)| < NBUF
      modifies cache, cache.buf, cache.device
      ensures Valid() && cache.Unlocked() && cache.refs == old(cache.refs)
      ensures var w := HeadWrite(old(cache.device.blocks), Head(), L);
              && cache.device.blocks == Apply(old(cache.device.blocks), w)
              && cache.device.trace == old(cache.device.trace) + [w]
              && cache.view == old(cache.view)[L.start := w.data]
    {
      hide Ranked, Indexed, Reflects, ApplyAll;
      var hb := Fetch(L.start);
      var words := Overlay(cache.buf[hb].data.words);
      Update(hb, L.start, Block(words));
      cache.Brelse(hb, L.start);
    }

    /** read_head: the on-disk header becomes the in-memory one. */
    method ReadHead()
      requires Valid() && cache.Unlocked() && |Busy(cache.refs)| < NBUF
      requires Recoverable(cache.device.blocks, L)
      modifies this`n, block, cache, cache.buf
      ensures Valid() && cache.Unlocked() && cache.refs == old(cache.refs) && cache.view == old(cache.view)
      ensures Head() == Committed(cache.device.blocks, L)
    {
      hide Ranked, Indexed, Reflects, ApplyAll;
      var hb := Fetch(L.start);
      CopyHead(cache.buf[hb].data.words);
      cache.Brelse(hb, L.start);
    }

    /** read_head's assignments. */
    method CopyHead(words: seq<int>)
      requires block.Length == LOGSIZE && Readable(Block(words))
      modifies this`n, block
      ensures n <= LOGSIZE && Head() == UnpackHead(Block(words))
    {
      n := words[0];
      for i := 0 to n
        invariant block[..i] == words[1..1 + i]
        modifies block
      {
        block[i] := words[1 + i];
      }
    }

    // ----------------------------------------------------------------
    // Committing

    /** One round of write_log, on the cache: block home is copied to block slot and written. */
    method CopyToLog(slot: nat, home: nat)
      requires cache.Valid() && cache.Unlocked() && |Busy(cache.refs)| < NBUF
      requires slot < |cache.device.blocks| && home < |cache.device.blocks| && slot != home
      requires cache.refs[home] > 0
      modifies cache, cache.buf, cache.device
      ensures cache.Valid() && cache.Unlocked() && cache.refs == old(cache.refs)
      ensures var data := old(cache.view)[home];
              && cache.device.blocks == old(cache.device.blocks)[slot := data]
              && cache.device.trace == old(cache.device.trace) + [Write(slot, data)]
              && cache.view == old(cache.view)[slot := data]
    {
      hide Ranked, Indexed, Reflects, ApplyAll;
      var to := Fetch(slot);
      var from := Fetch(home);
      Update(to, slot, cache.buf[from].data);
      cache.Brelse(from, home);
      cache.Brelse(to, slot);
    }

    /** One round of write_log. */
    method LogOne(tail: nat)
      requires Valid() && cache.Unlocked() && |Busy(cache.refs)| < NBUF
      requires tail < n && Pinned(0)
      modifies cache, cache.buf, cache.device
      ensures Valid() && cache.Unlocked() && cache.refs == old(cache.refs)
      ensures var w := Write(L.start + 1 + tail, old(cache.view)[block[tail]]);
              && cache.device.blocks == old(cache.device.blocks)[w.bno := w.data]
              && cache.device.trace == old(cache.device.trace) + [w]
              && cache.view == old(cache.view)[w.bno := w.data]
    {
      hide Ranked, Indexed, Reflects, ApplyAll;
      CopyToLog(L.start + 1 + tail, block[tail]);
    }

    /** write_log: the cached contents of every logged block go to its log slot. */
    method WriteLog()
      requires Valid() && cache.Unlocked() && |Busy(cache.refs)| < NBUF && Pinned(0)
      modifies cache, cache.buf, cache.device
      ensures Valid() && cache.Unlocked() && cache.refs == old(cache.refs)
      ensures cache.device.trace == old(cache.device.trace) + LogWrites(Head(), old(cache.view), L)
      ensures |cache.view| == |old(cache.view)|
      ensures forall x :: 0 <= x < |cache.view| && !L.InSlots(x) ==>
                cache.view[x] == old(cache.view)[x] && cache.device.blocks[x] == old(cache.device.blocks)[x]
    {
      hide Ranked, Indexed, Reflects, ApplyAll, LogWrites;
      ghost var ws := LogWrites(Head(), cache.view, L);
      LogWritesAt(Head(), cache.view, L);
      for tail := 0 to n
        invariant Valid() && cache.Unlocked() && cache.refs == old(cache.refs)
        invariant |cache.view| == |old(cache.view)|
        invariant cache.device.trace == old(cache.device.trace) + ws[..tail]
        invariant forall x :: 0 <= x < |cache.view| && !L.InSlots(x) ==>
                    cache.view[x] == old(cache.view)[x] && cache.device.blocks[x] == old(cache.device.blocks)[x]
      {
        LogOne(tail);
        TakeNext(old(cache.device.trace), ws, tail);
      }
      assert ws[..n] == ws;
    }

    // ----------------------------------------------------------------
    // Installing

    /** One round of install_trans, on the cache: block slot is copied to block home and written. */
    method CopyHome(slot: nat, home: nat, recovering: bool)
      requires cache.Valid() && cache.Unlocked()
      requires slot < |cache.device.blocks| && home < |cache.device.blocks| && slot != home
      requires cache.view[slot] == cache.device.blocks[slot]
      requires if recovering then |Busy(cache.refs)| + 1 < NBUF else |Busy(cache.refs)| < NBUF && cache.refs[home] > 0
      modifies cache, cache.buf, cache.device
      ensures cache.Valid() && cache.Unlocked()
      ensures cache.refs == if recovering then old(cache.refs) else old(cache.refs)[home := old(cache.refs[home]) - 1]
      ensures var data := old(cache.view)[slot];
              && cache.device.blocks == old(cache.device.blocks)[home := data]
              && cache.device.trace == old(cache.device.trace) + [Write(home, data)]
              && cache.view == old(cache.view)[home := data]
    {
      hide Ranked, Indexed, Reflects, ApplyAll, Busy;
      BusyUpdate(cache.refs, slot, cache.refs[slot] + 1);
      var lbuf := Fetch(slot);
      var dbuf := Fetch(home);
      Update(dbuf, home, cache.buf[lbuf].data);
      PutBack(lbuf, slot, dbuf, home, recovering);
    }

    /** The end of such a round: the pin goes, unless recovering, and both buffers. */
    method PutBack(lbuf: nat, ghost slot: nat, dbuf: nat, ghost home: nat, recovering: bool)
      requires cache.Valid() && cache.Owns(lbuf, slot) && cache.Owns(dbuf, home) && slot != home
      requires slot < |cache.view| && home < |cache.view| && (!recovering ==> cache.refs[home] > 1)
      requires forall j :: 0 <= j < NBUF && j != lbuf && j != dbuf ==> !cache.buf[j].locked
      requires cache.view[slot] == cache.device.blocks[slot] && cache.view[home] == cache.device.blocks[home]
      modifies cache, cache.buf
      ensures cache.Valid() && cache.Unlocked() && cache.view == old(cache.view)
      ensures cache.refs == old(cache.refs)[slot := old(cache.refs[slot]) - 1]
                            [home := old(cache.refs[home]) - if recovering then 1 else 2]
      ensures old(cache.refs[slot]) > 0 && old(cache.refs[home]) > if recovering then 0 else 1
    {
      hide Ranked, Indexed, Reflects, ApplyAll;
      if !recovering {
        cache.Bunpin(dbuf, home);
      }
      cache.Brelse(lbuf, slot);
      cache.Brelse(dbuf, home);
    }

    /** The buffers install_trans needs: one, and the pinned ones; two when nothing is pinned. */
    ghost predicate Room(recovering: bool, k: nat)
      reads this, block, cache, cache.buf, cache.device
      requires Valid()
    {
      && cache.Unlocked()
      && if recovering then |Busy(cache.refs)| + 1 < NBUF else |Busy(cache.refs)| < NBUF && Pinned(k)
    }

    /** One round of install_trans. */
    method InstallOne(tail: nat, recovering: bool)
      requires Valid() && tail < n && Room(recovering, tail)
      modifies cache, cache.buf, cache.device
      ensures Valid() && Room(recovering, tail + 1)
      ensures var w := Write(block[tail], old(cache.device.blocks)[L.start + 1 + tail]);
              && cache.device.blocks == old(cache.device.blocks)[w.bno := w.data]
              && cache.device.trace == old(cache.device.trace) + [w]
              && cache.view == old(cache.view)[w.bno := w.data]
      ensures cache.refs == if recovering then old(cache.refs)
                            else old(cache.refs)[block[tail] := old(cache.refs[block[tail]]) - 1]
    {
      hide Ranked, Indexed, Reflects, ApplyAll;
      if !recovering {
        BusyUpdate(cache.refs, block[tail], cache.refs[block[tail]] - 1);
      }
      CopyHome(L.start + 1 + tail, block[tail], recovering);
    }

    /** install_trans: every log slot goes to its home block; outside recovery the pins go too. */
    method InstallTrans(recovering: bool)
      requires Valid() && Clean() && Room(recovering, 0)
      modifies cache, cache.buf, cache.device
      ensures Valid() && Room(recovering, n)
      ensures cache.device.trace == old(cache.device.trace) + InstallWrites(Head(), old(cache.device.blocks), L)
      ensures cache.view == cache.device.blocks && |cache.view| == |old(cache.device.blocks)|
      ensures forall x :: L.InLog(x) ==> cache.device.blocks[x] == old(cache.device.blocks)[x]
      ensures |cache.refs| == |old(cache.refs)| && forall b :: 0 <= b < |cache.refs| ==>
                cache.refs[b] + (if !recovering && b in Head() then 1 else 0) == old(cache.refs[b])
    {
      hide Ranked, Indexed, Reflects, ApplyAll, InstallWrites, Progress;
      ghost var d, lh, refs := cache.device.blocks, Head(), cache.refs;
      InstallWritesAt(lh, d, L);
      ProgressStart(L, lh, !recovering, d, refs, cache.view);
      for tail := 0 to n
        invariant Installing(recovering, tail, d, lh, refs, old(cache.device.trace))
      {
        InstallRound(tail, recovering, d, lh, refs, old(cache.device.trace));
      }
      assert InstallWrites(lh, d, L)[..n] == InstallWrites(lh, d, L);
      ProgressDone(L, lh, !recovering, d, refs, cache.device.blocks, cache.view, cache.refs);
    }

    /** install_trans after `tail` rounds, from disk d and references refs. */
    ghost predicate Installing(recovering: bool, tail: nat, d: Disk, lh: seq<int>, refs: seq<nat>, t0: seq<Write>)
      reads this, block, cache, cache.buf, cache.device
    {
      && Valid() && Head() == lh && Room(recovering, tail) && Fits(d, L) && GoodHead(lh, L, |d|) && tail <= n
      && cache.device.trace == t0 + InstallWrites(lh, d, L)[..tail]
      && Progress(L, lh, tail, !recovering, d, refs, cache.device.blocks, cache.view, cache.refs)
    }

    method InstallRound(tail: nat, recovering: bool, ghost d: Disk, ghost lh: seq<int>, ghost refs: seq<nat>,
        ghost t0: seq<Write>)
      requires Installing(recovering, tail, d, lh, refs, t0) && tail < n
      modifies cache, cache.buf, cache.device
      ensures Installing(recovering, tail + 1, d, lh, refs, t0)
    {
      hide Ranked, Indexed, Reflects, ApplyAll, InstallWrites, Progress;
      ghost var b, v, r := cache.device.blocks, cache.view, cache.refs;
      ghost var ws := InstallWrites(lh, d, L);
      InstallWritesAt(lh, d, L);
      InstallOne(tail, recovering);
      ProgressStep(L, lh, tail, !recovering, d, refs, b, v, r, cache.refs);
      TakeNext(t0, ws, tail);
    }

    // ----------------------------------------------------------------
    // commit and recover_from_log

    /** write_log and write_head: up to and including the commit point. */
    method Prepare()
      requires Valid() && Clean() && Room(false, 0)
      modifies cache, cache.buf, cache.device
      ensures Valid() && Clean() && Room(false, 0) && cache.refs == old(cache.refs)
      ensures |old(cache.device.blocks)| == |old(cache.view)| && Fits(old(cache.device.blocks), L)
      ensures cache.device.trace
              == old(cache.device.trace) + PrepareWrites(old(cache.device.blocks), Head(), old(cache.view), L)
    {
      hide Ranked, Indexed, Reflects, ApplyAll, LogWrites;
      WriteLog();
      WriteHead();
    }

    /** install_trans, lh.n = 0, write_head. */
    method Finish(recovering: bool)
      requires Valid() && Clean() && Room(recovering, 0)
      modifies this`n, cache, cache.buf, cache.device
      ensures Valid() && n == 0 && Room(recovering, 0) && cache.view == cache.device.blocks
      ensures Fits(old(cache.device.blocks), L) && GoodHead(old(Head()), L, |old(cache.device.blocks)|)
      ensures cache.device.trace
              == old(cache.device.trace) + FinishWrites(old(cache.device.blocks), old(Head()), L)
      ensures |cache.refs| == |old(cache.refs)| && forall b :: 0 <= b < |cache.refs| ==>
                cache.refs[b] + (if !recovering && b in old(Head()) then 1 else 0) == old(cache.refs[b])
    {
      hide Ranked, Indexed, Reflects, ApplyAll, InstallWrites;
      InstallTrans(recovering);
      n := 0;
      assert Head() == [];
      WriteHead();
    }

    /**
     commit.  The disk sees exactly the writes of CommitWrites, in that order; the
     logged blocks' cached contents end up on disk, the pins are gone and every block
     is as on disk.
     */
    method Commit()
      requires Valid() && Clean() && Room(false, 0)
      requires Recoverable(cache.device.blocks, L) && Committed(cache.device.blocks, L) == []
      modifies this`n, cache, cache.buf, cache.device
      ensures Valid() && Room(false, 0) && n == 0 && cache.view == cache.device.blocks
      ensures cache.device.trace
              == old(cache.device.trace) + CommitWrites(old(cache.device.blocks), old(Head()), old(cache.view), L)
      ensures Recoverable(cache.device.blocks, L) && Committed(cache.device.blocks, L) == []
      ensures |cache.view| == |old(cache.view)| && forall b :: 0 <= b < |cache.view| && !L.InLog(b) ==>
                cache.view[b] == old(cache.view)[b]
      ensures |cache.refs| == |old(cache.refs)| && forall b :: 0 <= b < |cache.refs| ==>
                cache.refs[b] + (if b in old(Head()) then 1 else 0) == old(cache.refs[b])
    {
      hide Ranked, Indexed, Reflects, ApplyAll, LogWrites, InstallWrites, PrepareWrites, FinishWrites;
      ghost var d, lh, mem, t := cache.device.blocks, Head(), cache.view, cache.device.trace;
      if n > 0 {
        ghost var prep := PrepareWrites(d, lh, mem, L);
        Prepare();
        cache.device.TraceDetermines(prep);
        ghost var fin := FinishWrites(ApplyAll(d, prep), lh, L);
        Finish(false);
        assert CommitWrites(d, lh, mem, L) == prep + fin;
        assert cache.device.trace == t + prep + fin == t + (prep + fin);
      }
      CommitCompletes(d, lh, mem, L);
      cache.device.TraceDetermines(CommitWrites(d, lh, mem, L));
    }

    /** recover_from_log: read_head, then the writes of RecoverWrites; the log is empty afterwards. */
    method RecoverFromLog()
      requires Valid() && cache.Unlocked() && |Busy(cache.refs)| + 1 < NBUF
      requires Recoverable(cache.device.blocks, L) && cache.view == cache.device.blocks
      modifies this`n, block, cache, cache.buf, cache.device
      ensures Valid() && n == 0 && cache.Unlocked() && cache.view == cache.device.blocks
      ensures cache.device.trace == old(cache.device.trace) + RecoverWrites(old(cache.device.blocks), L)
      ensures |cache.view| == |old(cache.view)|
      ensures Recoverable(cache.device.blocks, L) && Committed(cache.device.blocks, L) == []
      ensures forall b: nat :: b < |cache.view| && !L.InLog(b) ==>
                cache.view[b] == Meaning(old(cache.device.blocks), L, b)
    {
      hide Ranked, Indexed, Reflects, ApplyAll, InstallWrites, FinishWrites;
      ghost var d := cache.device.blocks;
      ReadHead();
      Finish(true);
      EraseKeepsMeaning(d, L);
      cache.device.TraceDetermines(RecoverWrites(d, L));
    }

    // ----------------------------------------------------------------
    // Operations

    /** One pass of begin_op's loop; false means the caller sleeps and tries again. */
    method BeginOp() returns (admitted: bool)
      modifies this`outstanding
      ensures admitted <==> !committing && n + (old(outstanding) + 1) * MAXOPBLOCKS <= LOGSIZE
      ensures outstanding == if admitted then old(outstanding) + 1 else old(outstanding)
    {
      if committing {
        return false;
      } else if n + (outstanding + 1) * MAXOPBLOCKS > LOGSIZE {
        return false;
      } else {
        outstanding := outstanding + 1;
        return true;
      }
    }

    /**
     log_write.  Fails (the kernel panics) on a full log, tested before absorption, or
     outside any operation; otherwise the block is in the header once and a new entry
     pins its buffer.
     */
    method LogWrite(i: nat, ghost b: nat) returns (ok: bool)
      requires Valid() && Pinned(0) && cache.Owns(i, b) && b < |cache.view| && !L.InLog(b)
      modifies this`n, block, cache, cache.buf
      ensures Valid() && Pinned(0) && cache.Owns(i, b)
      ensures ok <==> old(n) < LOGSIZE && old(n) < L.size - 1 && outstanding >= 1
      ensures Head() == if ok && b !in old(Head()) then old(Head()) + [b] else old(Head())
      ensures cache.view == old(cache.view)
      ensures cache.refs ==
              if ok && b !in old(Head()) then old(cache.refs)[b := old(cache.refs[b]) + 1] else old(cache.refs)
      ensures cache.buf[i]
              == if ok && b !in old(Head()) then old(cache.buf[i]).(refcnt := old(cache.buf[i].refcnt) + 1)
                 else old(cache.buf[i])
      ensures forall j :: 0 <= j < NBUF && j != i ==> cache.buf[j] == old(cache.buf[j])
    {
      hide Ranked, Indexed, Reflects, ApplyAll;
      cache.Holding(i, b);
      if n >= LOGSIZE || n >= L.size - 1 {
        return false;
      }
      if outstanding < 1 {
        return false;
      }
      var j := 0;
      while j < n && block[j] != cache.buf[i].blockno
        invariant 0 <= j <= n && forall k :: 0 <= k < j ==> block[k] != b
      {
        j := j + 1;
      }
      if j == n {
        Append(i, b);
      } else {
        block[j] := cache.buf[i].blockno;
        assert block[..n] == old(Head());
      }
      return true;
    }

    /** log_write's new header entry, which pins its buffer. */
    method Append(i: nat, ghost b: nat)
      requires Valid() && Pinned(0) && cache.Owns(i, b) && b < |cache.view| && !L.InLog(b)
      requires n < LOGSIZE && n < L.size - 1 && forall k :: 0 <= k < n ==> block[k] != b
      modifies this`n, block, cache, cache.buf
      ensures Valid() && Pinned(0) && cache.Owns(i, b)
      ensures Head() == old(Head()) + [b] && cache.view == old(cache.view)
      ensures cache.refs == old(cache.refs)[b := old(cache.refs[b]) + 1]
      ensures cache.buf[i] == old(cache.buf[i]).(refcnt := old(cache.buf[i].refcnt) + 1)
      ensures forall j :: 0 <= j < NBUF && j != i ==> cache.buf[j] == old(cache.buf[j])
    {
      hide Ranked, Indexed, Reflects, ApplyAll;
      cache.Holding(i, b);
      block[n] := cache.buf[i].blockno;
      assert block[..n] == old(Head());
      cache.Bpin(i, b);
      n := n + 1;
      cache.Holding(i, b);
      forall k | 0 <= k < n ensures cache.refs[block[k]] > cache.Holders(block[k]) {
        cache.SameHolders(block[k]);
      }
    }

    /** brelse by an operation that has logged what it changed: a pinned buffer stays. */
    method Release(i: nat, ghost b: nat)
      requires Valid() && Pinned(0) && cache.Owns(i, b) && (b in Head() || cache.view[b] == cache.device.blocks[b])
      modifies cache, cache.buf
      ensures Valid() && Pinned(0) && cache.view == old(cache.view) && !cache.buf[i].locked
      ensures cache.refs == old(cache.refs)[b := old(cache.refs[b]) - 1]
      ensures b in Head() ==> cache.refs[b] > 0
    {
      hide Ranked, Indexed, Reflects, ApplyAll;
      cache.Holding(i, b);
      ghost var refs := cache.refs;
      cache.Brelse(i, b);
      cache.Releasing(i, b);
      forall k | 0 <= k < n ensures cache.refs[block[k]] > cache.Holders(block[k]) {
        cache.SameHolders(block[k]);
      }
    }

    /** end_op under the log's lock: true if this was the last operation, which has to commit. */
    method Leave() returns (last: bool)
      requires outstanding >= 1 && !committing
      modifies this`outstanding, this`committing
      ensures outstanding == old(outstanding) - 1 && (last <==> outstanding == 0) && committing == last
    {
      outstanding := outstanding - 1;
      last := outstanding == 0;
      if last {
        committing := true;
      }
    }

    /**
     end_op.  Unless this is the last operation nothing but the count changes, whatever
     buffers others hold or have modified; the last one commits, with every modified block
     logged and every buffer released.
     */
    method EndOp()
      requires Valid() && outstanding >= 1 && !committing
      requires outstanding == 1 ==> Clean() && Room(false, 0)
      requires outstanding == 1 ==> Recoverable(cache.device.blocks, L) && Committed(cache.device.blocks, L) == []
      modifies this`n, this`outstanding, this`committing, cache, cache.buf, cache.device
      ensures Valid() && outstanding == old(outstanding) - 1 && !committing
      ensures outstanding > 0 ==> n == old(n) && unchanged(cache) && unchanged(cache.buf) && unchanged(cache.device)
      ensures outstanding == 0 ==> n == 0 && Room(false, 0) && cache.view == cache.device.blocks
      ensures outstanding == 0 ==> |old(cache.view)| == |old(cache.device.blocks)|
      ensures outstanding == 0 ==>
                cache.device.trace
                == old(cache.device.trace) + CommitWrites(old(cache.device.blocks), old(Head()), old(cache.view), L)
      ensures |cache.view| == |old(cache.view)| && forall b :: 0 <= b < |cache.view| && !L.InLog(b) ==>
                cache.view[b] == old(cache.view)[b]
    {
      hide Ranked, Indexed, Reflects, ApplyAll, CommitWrites;
      var last := Leave();
      if last {
        Commit();
        committing := false;
      }
    }
  }
}
