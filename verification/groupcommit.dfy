/**
 Group commit (kernel/log.c) as an interleaved machine: any number of file-system
 operations begin, modify and log blocks and end; the last one commits, one disk
 write per step; the machine may crash between any two steps and recover.

 The `history` and `cut` fields record, for the statements only, every modification
 made so far and how many of them the disk stands for.
 */
module GroupCommit {
  import opened Sets
  import opened Wal

  /** used: header entries this operation added; dirty: blocks it modified and has not logged yet. */
  datatype Op = Op(id: nat, used: nat, dirty: set<int>)

  datatype Update = Update(op: nat, w: Write)

  datatype Phase =
    | Idle              // committing == 0
    | Logging(i: nat)   // write_log, next slot i
    | Installing(i: nat)
    | Erasing           // lh.n == 0 in memory, old header still on disk
    | Done              // commit() returned, committing still 1
    | Booting(i: nat)   // recover_from_log, next block i

  datatype State = State(
    disk: Disk,
    mem: Disk,          // contents seen through the buffer cache
    lh: seq<int>,
    ops: seq<Op>,       // outstanding == |ops|
    phase: Phase,
    nextId: nat,         // operation ids below this one have been used
    history: seq<Update>,
    cut: nat)

  datatype Label =
    | Begin
    | Modify(k: nat, w: Write)
    | LogWrite(k: nat, b: int)
    | End(k: nat)
    | Commit            // the next step of commit()
    | Crash
    | Recover           // the next step of recover_from_log()

  // ------------------------------------------------------------------
  // Steps

  /** begin_op's test, taken when the caller does not go to sleep. */
  predicate Admits(s: State) {
    s.phase.Idle? && |s.lh| + (|s.ops| + 1) * MAXOPBLOCKS <= LOGSIZE
  }

  /** What the kernel allows next; q bounds the header entries one operation may add. */
  predicate Allowed(s: State, L: Layout, q: nat, l: Label) {
    match l
    case Begin => Admits(s)
    case Modify(k, w) => k < |s.ops| && w.bno < |s.disk| && !L.InLog(w.bno)
    case LogWrite(k, b) => k < |s.ops| && 0 <= b < |s.disk| && !L.InLog(b) && (b in s.lh || s.ops[k].used < q)
    case End(k) => k < |s.ops| && s.ops[k].dirty == {}
    case Commit => s.phase.Logging? || s.phase.Installing? || s.phase.Erasing? || s.phase.Done?
    case Crash => true
    case Recover => s.phase.Booting?
  }

  /** log_write's first test, made before looking for the block in the header. */
  predicate Panics(s: State, L: Layout, l: Label) {
    l.LogWrite? && (|s.lh| >= LOGSIZE || |s.lh| >= L.size - 1)
  }

  ghost predicate Can(s: State, L: Layout, q: nat, l: Label) {
    Allowed(s, L, q, l) && !Panics(s, L, l)
  }

  function WithHead(d: Disk, L: Layout, lh: seq<int>): Disk
    requires Fits(d, L) && |lh| <= LOGSIZE
  {
    d[L.start := PackHead(lh, d[L.start])]
  }

  function CommitStep(s: State, L: Layout): State
    requires Recoverable(s.disk, L) && GoodHead(s.lh, L, |s.disk|) && |s.mem| == |s.disk|
    requires s.phase.Logging? ==> s.phase.i <= |s.lh|
    requires s.phase.Installing? ==> s.phase.i <= |s.lh|
    requires s.phase.Logging? || s.phase.Installing? || s.phase.Erasing? || s.phase.Done?
  {
    match s.phase
    case Logging(i) =>
      if s.lh == [] then
        s.(phase := Done)
      else if i < |s.lh| then
        s.(disk := s.disk[L.start + 1 + i := s.mem[s.lh[i]]], phase := Logging(i + 1))
      else
        s.(disk := WithHead(s.disk, L, s.lh), phase := Installing(0), cut := |s.history|)
    case Installing(i) =>
      if i < |s.lh| then
        var data := s.disk[L.start + 1 + i];
        s.(disk := s.disk[s.lh[i] := data], mem := s.mem[s.lh[i] := data], phase := Installing(i + 1))
      else
        s.(lh := [], phase := Erasing)
    case Erasing => s.(disk := WithHead(s.disk, L, []), phase := Done)
    case Done => s.(phase := Idle)
  }

  /** Restart: memory is lost and read_head fetches the header. */
  function CrashStep(s: State, L: Layout): State
    requires Recoverable(s.disk, L) && s.cut <= |s.history|
  {
    s.(mem := s.disk, lh := Committed(s.disk, L), ops := [], phase := Booting(0), history := s.history[..s.cut])
  }

  function RecoverStep(s: State, L: Layout): State
    requires Recoverable(s.disk, L) && GoodHead(s.lh, L, |s.disk|) && |s.mem| == |s.disk|
    requires s.phase.Booting? && s.phase.i <= |s.lh|
  {
    var i := s.phase.i;
    if i < |s.lh| then
      var data := s.disk[L.start + 1 + i];
      s.(disk := s.disk[s.lh[i] := data], mem := s.mem[s.lh[i] := data], phase := Booting(i + 1))
    else
      s.(disk := WithHead(s.disk, L, []), lh := [], phase := Idle)
  }

  function Step(s: State, L: Layout, q: nat, l: Label): State
    requires Shape(s, L) && Allowed(s, L, q, l)
  {
    match l
    case Begin => s.(ops := s.ops + [Op(s.nextId, 0, {})], nextId := s.nextId + 1)
    case Modify(k, w) =>
      var o := s.ops[k];
      s.(mem := s.mem[w.bno := w.data],
         ops := s.ops[k := o.(dirty := o.dirty + {w.bno})],
         history := s.history + [Update(o.id, w)])
    case LogWrite(k, b) =>
      var o := s.ops[k];
      if b in s.lh then
        s.(ops := s.ops[k := o.(dirty := o.dirty - {b})])
      else
        s.(lh := s.lh + [b], ops := s.ops[k := Op(o.id, o.used + 1, o.dirty - {b})])
    case End(k) =>
      s.(ops := Without(s.ops, k), phase := if |s.ops| == 1 then Logging(0) else s.phase)
    case Commit => CommitStep(s, L)
    case Crash => CrashStep(s, L)
    case Recover => RecoverStep(s, L)
  }

  // ------------------------------------------------------------------
  // The abstract disk

  function Replay(d: Disk, h: seq<Update>): (r: Disk)
    ensures |r| == |d|
  {
    if h == [] then d else Apply(Replay(d, h[..|h| - 1]), h[|h| - 1].w)
  }

  /** No operation has modifications on both sides of the first k. */
  ghost predicate WholeOps(h: seq<Update>, k: nat) {
    forall i, j :: 0 <= i < k <= j < |h| ==> h[i].op != h[j].op
  }

  // ------------------------------------------------------------------
  // The invariant

  ghost predicate Installed(d: Disk, L: Layout, lh: seq<int>, n: nat)
    requires GoodHead(lh, L, |d|) && Fits(d, L) && n <= |lh|
  {
    forall j :: 0 <= j < n ==> d[lh[j]] == d[L.start + 1 + j]
  }

  /** Sizes and ranges, and where the transaction stands on disk. */
  ghost predicate Shape(s: State, L: Layout) {
    && Recoverable(s.disk, L) && |s.mem| == |s.disk|
    && GoodHead(s.lh, L, |s.disk|)
    && s.cut <= |s.history|
    && (!s.phase.Idle? ==> s.ops == [])
    && match s.phase
       case Idle => Committed(s.disk, L) == [] && (s.ops == [] ==> s.lh == [])
       case Logging(i) =>
         && Committed(s.disk, L) == [] && i <= |s.lh|
         && forall j :: 0 <= j < i ==> s.disk[L.start + 1 + j] == s.mem[s.lh[j]]
       case Installing(i) =>
         i <= |s.lh| && Committed(s.disk, L) == s.lh && Installed(s.disk, L, s.lh, i) && s.cut == |s.history|
       case Erasing =>
         s.lh == [] && Installed(s.disk, L, Committed(s.disk, L), |Committed(s.disk, L)|)
       case Done => Committed(s.disk, L) == [] && s.lh == []
       case Booting(i) =>
         i <= |s.lh| && Committed(s.disk, L) == s.lh && Installed(s.disk, L, s.lh, i)
  }

  ghost predicate IsDirty(s: State, b: int) {
    exists k :: 0 <= k < |s.ops| && b in s.ops[k].dirty
  }

  /** The disk stands for the first cut modifications and the cache for all of them. */
  ghost predicate Agrees(s: State, L: Layout, init: Disk)
    requires Shape(s, L)
  {
    && |init| == |s.disk|
    && (forall b: nat :: b < |s.disk| && !L.InLog(b) ==>
          Meaning(s.disk, L, b) == Replay(init, s.history[..s.cut])[b])
    && (!s.phase.Booting? ==>
          forall b: nat :: b < |s.disk| && !L.InLog(b) ==> s.mem[b] == Replay(init, s.history)[b])
    && (s.phase.Booting? ==> s.mem == s.disk && s.cut == |s.history|)
  }

  ghost predicate DirtyHome(o: Op, L: Layout, total: nat) {
    forall b :: b in o.dirty ==> 0 <= b < total && !L.InLog(b)
  }

  /** Modifications the disk does not have yet are of logged or still dirty blocks. */
  ghost predicate Covered(s: State, L: Layout)
    requires s.cut <= |s.history|
  {
    && (forall i :: 0 <= i < |s.history| ==> s.history[i].w.bno < |s.disk| && !L.InLog(s.history[i].w.bno))
    && (forall i :: s.cut <= i < |s.history| ==>
          s.history[i].w.bno in s.lh || IsDirty(s, s.history[i].w.bno))
    && (forall k :: 0 <= k < |s.ops| ==> DirtyHome(s.ops[k], L, |s.disk|))
  }

  ghost predicate Whole(s: State) {
    && WholeOps(s.history, s.cut)
    && (forall i :: 0 <= i < |s.history| ==> s.history[i].op < s.nextId)
    && (forall k :: 0 <= k < |s.ops| ==> s.ops[k].id < s.nextId)
    && (forall k, i :: 0 <= k < |s.ops| && 0 <= i < s.cut && i < |s.history| ==> s.history[i].op != s.ops[k].id)
  }

  ghost predicate Inv(s: State, L: Layout, init: Disk) {
    Shape(s, L) && Agrees(s, L, init) && Covered(s, L) && Whole(s)
  }

  predicate Start(s: State, L: Layout, init: Disk) {
    && Recoverable(init, L) && Committed(init, L) == []
    && s == State(init, init, [], [], Idle, 0, [], 0)
  }

  lemma StartInv(s: State, L: Layout, init: Disk)
    requires Start(s, L, init)
    ensures Inv(s, L, init)
  {
  }

  // ------------------------------------------------------------------
  // How single block writes change the meaning of a disk

  lemma SlotKeepsMeaning(d: Disk, L: Layout, x: nat, data: Block)
    requires Recoverable(d, L) && Committed(d, L) == [] && L.InLog(x) && x != L.start
    ensures var e := d[x := data];
            && Recoverable(e, L) && Committed(e, L) == []
            && forall b: nat :: b < |d| && !L.InLog(b) ==> Meaning(e, L, b) == Meaning(d, L, b)
  {
  }

  lemma InstallKeeps(d: Disk, L: Layout, i: nat)
    requires Recoverable(d, L) && i < |Committed(d, L)|
    ensures var lh := Committed(d, L);
            var e := d[lh[i] := d[L.start + 1 + i]];
            && Recoverable(e, L) && Committed(e, L) == lh
            && (Installed(d, L, lh, i) ==> Installed(e, L, lh, i + 1))
            && forall b: nat :: b < |d| && !L.InLog(b) ==> Meaning(e, L, b) == Meaning(d, L, b)
  {
    hide UnpackHead, Meaning, IndexOf;
    var lh := Committed(d, L);
    var e := d[lh[i] := d[L.start + 1 + i]];
    forall b: nat | b < |d| && !L.InLog(b) ensures Meaning(e, L, b) == Meaning(d, L, b) {
      if b in lh {
        MeansSlot(d, L, lh, IndexOf(lh, b));
        MeansSlot(e, L, lh, IndexOf(lh, b));
      } else {
        MeansHome(d, L, b);
        MeansHome(e, L, b);
      }
    }
  }

  lemma EraseKeeps(d: Disk, L: Layout)
    requires Recoverable(d, L) && Installed(d, L, Committed(d, L), |Committed(d, L)|)
    ensures var e := WithHead(d, L, []);
            && Recoverable(e, L) && Committed(e, L) == []
            && forall b: nat :: b < |d| && !L.InLog(b) ==> Meaning(e, L, b) == Meaning(d, L, b)
  {
    HeadRoundTrip([], d[L.start]);
  }

  // ------------------------------------------------------------------
  // Replay

  lemma ReplaySnoc(d: Disk, h: seq<Update>, u: Update)
    ensures Replay(d, h + [u]) == Apply(Replay(d, h), u.w)
  {
    assert (h + [u])[..|h + [u]| - 1] == h;
  }

  lemma {:induction false} ReplayUntouched(d: Disk, h: seq<Update>, k: nat, b: nat)
    requires k <= |h| && b < |d|
    requires forall i :: k <= i < |h| ==> h[i].w.bno != b
    ensures Replay(d, h)[b] == Replay(d, h[..k])[b]
    decreases |h|
  {
    if k < |h| {
      ReplayUntouched(d, h[..|h| - 1], k, b);
      assert h[..|h| - 1][..k] == h[..k];
    } else {
      assert h[..k] == h;
    }
  }

  // ------------------------------------------------------------------
  // Every step keeps the invariant

  lemma BeginKeeps(s: State, L: Layout, init: Disk)
    requires Inv(s, L, init) && Admits(s)
    ensures Inv(s.(ops := s.ops + [Op(s.nextId, 0, {})], nextId := s.nextId + 1), L, init)
  {
    var t := s.(ops := s.ops + [Op(s.nextId, 0, {})], nextId := s.nextId + 1);
    forall b | IsDirty(s, b) ensures IsDirty(t, b) {
      var k :| 0 <= k < |s.ops| && b in s.ops[k].dirty;
      assert b in t.ops[k].dirty;
    }
  }

  lemma ModifyAgrees(s: State, L: Layout, init: Disk, q: nat, k: nat, w: Write)
    requires Inv(s, L, init) && Allowed(s, L, q, Modify(k, w))
    ensures Shape(Step(s, L, q, Modify(k, w)), L) && Agrees(Step(s, L, q, Modify(k, w)), L, init)
  {
    var t := Step(s, L, q, Modify(k, w));
    ReplaySnoc(init, s.history, Update(s.ops[k].id, w));
    assert t.history[..t.cut] == s.history[..s.cut];
  }

  lemma ModifyCovered(s: State, L: Layout, q: nat, k: nat, w: Write)
    requires Shape(s, L) && Covered(s, L) && Allowed(s, L, q, Modify(k, w))
    ensures Covered(Step(s, L, q, Modify(k, w)), L)
  {
    var t := Step(s, L, q, Modify(k, w));
    forall i | t.cut <= i < |t.history|
      ensures t.history[i].w.bno in t.lh || IsDirty(t, t.history[i].w.bno)
    {
      if i == |s.history| {
        assert w.bno in t.ops[k].dirty;
      } else if s.history[i].w.bno !in s.lh {
        var j :| 0 <= j < |s.ops| && s.history[i].w.bno in s.ops[j].dirty;
        assert s.history[i].w.bno in t.ops[j].dirty;
      }
    }
    assert DirtyHome(s.ops[k], L, |s.disk|);
  }

  lemma ModifyKeeps(s: State, L: Layout, init: Disk, q: nat, k: nat, w: Write)
    requires Inv(s, L, init) && Allowed(s, L, q, Modify(k, w))
    ensures Inv(Step(s, L, q, Modify(k, w)), L, init)
  {
    hide Shape, Agrees, Covered, Whole, Step;
    ModifyAgrees(s, L, init, q, k, w);
    ModifyCovered(s, L, q, k, w);
    ModifyWhole(s, L, q, k, w);
  }

  lemma ModifyWhole(s: State, L: Layout, q: nat, k: nat, w: Write)
    requires Shape(s, L) && Whole(s) && Allowed(s, L, q, Modify(k, w))
    ensures Whole(Step(s, L, q, Modify(k, w)))
  {
    hide Recoverable, GoodHead, Committed;
    assert s.ops[k].id < s.nextId;
    forall i | 0 <= i < s.cut ensures s.history[i].op != s.ops[k].id {
    }
  }

  lemma LogWriteShape(s: State, L: Layout, q: nat, k: nat, b: int)
    requires Shape(s, L) && Covered(s, L) && Can(s, L, q, LogWrite(k, b))
    ensures var t := Step(s, L, q, LogWrite(k, b));
            && Shape(t, L)
            && forall j :: 0 <= j < |t.ops| ==> DirtyHome(t.ops[j], L, |s.disk|)
  {
    assert DirtyHome(s.ops[k], L, |s.disk|);
  }

  lemma LogWriteKeeps(s: State, L: Layout, init: Disk, q: nat, k: nat, b: int)
    requires Inv(s, L, init) && Can(s, L, q, LogWrite(k, b))
    ensures Inv(Step(s, L, q, LogWrite(k, b)), L, init)
  {
    hide Recoverable, Committed, Meaning, Replay, GoodHead;
    var t := Step(s, L, q, LogWrite(k, b));
    LogWriteShape(s, L, q, k, b);
    forall i | t.cut <= i < |t.history|
      ensures t.history[i].w.bno in t.lh || IsDirty(t, t.history[i].w.bno)
    {
      var x := s.history[i].w.bno;
      if x !in t.lh {
        assert b in t.lh;
        assert IsDirty(s, x);
        var j :| 0 <= j < |s.ops| && x in s.ops[j].dirty;
        assert x in t.ops[j].dirty;
      }
    }
  }

  lemma EndKeeps(s: State, L: Layout, init: Disk, q: nat, k: nat)
    requires Inv(s, L, init) && Allowed(s, L, q, End(k))
    ensures Inv(Step(s, L, q, End(k)), L, init)
  {
    hide Recoverable, Committed, Meaning, Replay, GoodHead;
    var t := Step(s, L, q, End(k));
    forall x | IsDirty(s, x) ensures IsDirty(t, x) {
      var j :| 0 <= j < |s.ops| && x in s.ops[j].dirty;
      assert x in t.ops[if j < k then j else j - 1].dirty;
    }
    forall j | 0 <= j < |t.ops| ensures t.ops[j] in s.ops {
      assert t.ops[j] == s.ops[if j < k then j else j + 1];
    }
  }

  /** With nothing outstanding, every modification the disk lacks is of a logged block. */
  lemma QuietCovered(s: State, L: Layout, init: Disk, b: nat)
    requires Inv(s, L, init) && s.ops == [] && b < |s.disk| && b !in s.lh
    ensures Replay(init, s.history)[b] == Replay(init, s.history[..s.cut])[b]
  {
    ReplayUntouched(init, s.history, s.cut, b);
  }

  lemma LogBlockKeeps(s: State, L: Layout, init: Disk)
    requires Inv(s, L, init) && s.phase.Logging? && s.phase.i < |s.lh|
    ensures Inv(CommitStep(s, L), L, init)
  {
    hide Committed, Meaning, Replay, Readable, UnpackHead, Distinct;
    SlotKeepsMeaning(s.disk, L, L.start + 1 + s.phase.i, s.mem[s.lh[s.phase.i]]);
  }

  /** An empty header at commit: the disk already has everything. */
  lemma NothingToCommit(s: State, L: Layout, init: Disk)
    requires Inv(s, L, init) && s.ops == [] && s.lh == []
    ensures s.cut == |s.history|
  {
    assert s.cut < |s.history| ==> IsDirty(s, s.history[s.cut].w.bno);
  }

  /** The commit point. */
  lemma HeaderKeeps(s: State, L: Layout, init: Disk)
    requires Inv(s, L, init) && s.phase == Logging(|s.lh|) && s.lh != []
    ensures Inv(CommitStep(s, L), L, init)
  {
    hide Committed, Meaning, Replay, Readable, UnpackHead, PackHead, Distinct;
    var t := CommitStep(s, L);
    PreparedMeaning(s.disk, t.disk, s.lh, s.mem, L);
    assert t.history[..t.cut] == s.history;
    forall b: nat | b < |s.disk| && !L.InLog(b) ensures Meaning(t.disk, L, b) == Replay(init, s.history)[b] {
      if b !in s.lh {
        QuietCovered(s, L, init, b);
        MeansHome(s.disk, L, b);
      }
    }
  }

  lemma MeansHome(d: Disk, L: Layout, b: nat)
    requires Recoverable(d, L) && b < |d| && b !in Committed(d, L)
    ensures Meaning(d, L, b) == d[b]
  {
  }

  /** What is about to be installed is what the block means already. */
  lemma InstallSame(s: State, L: Layout, init: Disk)
    requires Inv(s, L, init) && s.phase.Installing? && s.phase.i < |s.lh|
    ensures s.mem[s.lh[s.phase.i]] == s.disk[L.start + 1 + s.phase.i]
  {
    hide Replay, Covered, Whole, Installed, Recoverable, Committed, Meaning, IndexOf;
    var b := s.lh[s.phase.i];
    assert s.history[..s.cut] == s.history;
    assert Meaning(s.disk, L, b) == s.mem[b];
    MeansSlot(s.disk, L, s.lh, s.phase.i);
  }

  lemma MeansSlot(d: Disk, L: Layout, lh: seq<int>, i: nat)
    requires Recoverable(d, L) && Committed(d, L) == lh && i < |lh| && Distinct(lh) && 0 <= lh[i] < |d|
    ensures L.start + 1 + i < |d| && Meaning(d, L, lh[i]) == d[L.start + 1 + i]
  {
  }

  lemma InstallStepKeeps(s: State, L: Layout, init: Disk)
    requires Inv(s, L, init) && s.phase.Installing? && s.phase.i < |s.lh|
    ensures Inv(CommitStep(s, L), L, init)
  {
    hide Committed, Meaning, Replay, Installed, WithHead;
    InstallSame(s, L, init);
    InstallKeeps(s.disk, L, s.phase.i);
  }

  lemma CommitKeeps(s: State, L: Layout, init: Disk)
    requires Inv(s, L, init) && Allowed(s, L, 0, Commit)
    ensures Inv(CommitStep(s, L), L, init)
  {
    match s.phase
    case Logging(i) =>
      if s.lh != [] {
        if i < |s.lh| {
          LogBlockKeeps(s, L, init);
        } else {
          HeaderKeeps(s, L, init);
        }
      }
    case Installing(i) =>
      if i < |s.lh| {
        InstallStepKeeps(s, L, init);
      }
    case Erasing => EraseKeeps(s.disk, L);
    case Done =>
  }

  lemma CrashKeeps(s: State, L: Layout, init: Disk)
    requires Inv(s, L, init)
    ensures Inv(CrashStep(s, L), L, init)
  {
    var t := CrashStep(s, L);
    assert t.history[..t.cut] == s.history[..s.cut];
  }

  lemma RecoverEraseKeeps(s: State, L: Layout, init: Disk)
    requires Inv(s, L, init) && s.phase == Booting(|s.lh|)
    ensures Inv(RecoverStep(s, L), L, init)
  {
    var t := RecoverStep(s, L);
    EraseKeeps(s.disk, L);
    assert s.history[..s.cut] == s.history;
    forall b: nat | b < |s.disk| && !L.InLog(b) ensures t.mem[b] == Replay(init, s.history)[b] {
      assert Meaning(s.disk, L, b) == s.disk[b];
    }
  }

  lemma RecoverInstallKeeps(s: State, L: Layout, init: Disk)
    requires Inv(s, L, init) && s.phase.Booting? && s.phase.i < |s.lh|
    ensures Inv(RecoverStep(s, L), L, init)
  {
    hide Meaning, Replay, Committed, PackHead, UnpackHead, InstallWrites;
    var t := RecoverStep(s, L);
    InstallKeeps(s.disk, L, s.phase.i);
    assert t.mem == t.disk;
    assert Shape(t, L);
    assert Agrees(t, L, init);
  }

  lemma RecoverKeeps(s: State, L: Layout, init: Disk)
    requires Inv(s, L, init) && s.phase.Booting?
    ensures Inv(RecoverStep(s, L), L, init)
  {
    if s.phase.i < |s.lh| {
      RecoverInstallKeeps(s, L, init);
    } else {
      RecoverEraseKeeps(s, L, init);
    }
  }

  lemma StepKeeps(s: State, L: Layout, init: Disk, q: nat, l: Label)
    requires Inv(s, L, init) && Can(s, L, q, l)
    ensures Inv(Step(s, L, q, l), L, init)
  {
    match l
    case Begin => BeginKeeps(s, L, init);
    case Modify(k, w) => ModifyKeeps(s, L, init, q, k, w);
    case LogWrite(k, b) => LogWriteKeeps(s, L, init, q, k, b);
    case End(k) => EndKeeps(s, L, init, q, k);
    case Commit => CommitKeeps(s, L, init);
    case Crash => CrashKeeps(s, L, init);
    case Recover => RecoverKeeps(s, L, init);
  }

  // ------------------------------------------------------------------
  // Runs

  /** ss[i + 1] follows from ss[i] by the step labelled ls[i]. */
  ghost predicate StepAt(ss: seq<State>, ls: seq<Label>, L: Layout, q: nat, i: nat)
    requires |ss| == |ls| + 1 && i < |ls|
  {
    Shape(ss[i], L) && Can(ss[i], L, q, ls[i]) && ss[i + 1] == Step(ss[i], L, q, ls[i])
  }

  ghost predicate IsRun(ss: seq<State>, ls: seq<Label>, L: Layout, q: nat, init: Disk) {
    && |ss| == |ls| + 1
    && Start(ss[0], L, init)
    && forall i :: 0 <= i < |ls| ==> StepAt(ss, ls, L, q, i)
  }

  lemma {:induction false} RunInv(ss: seq<State>, ls: seq<Label>, L: Layout, q: nat, init: Disk, i: nat)
    requires IsRun(ss, ls, L, q, init) && i < |ss|
    ensures Inv(ss[i], L, init)
  {
    if i == 0 {
      StartInv(ss[0], L, init);
    } else {
      RunInv(ss, ls, L, q, init, i - 1);
      assert StepAt(ss, ls, L, q, i - 1);
      StepKeeps(ss[i - 1], L, init, q, ls[i - 1]);
    }
  }

  /**
   Group commit refines the abstract disk.  In every state of every run, whatever
   recovery attempts follow a crash there, the home blocks come back as the abstract
   disk after the first `cut` modifications; these are whole operations, none of them
   still outstanding, and with nothing outstanding or committing they are all of them.
   */
  lemma RecoversWholeOperations(ss: seq<State>, ls: seq<Label>, L: Layout, q: nat, init: Disk, i: nat, cuts: seq<nat>)
    requires IsRun(ss, ls, L, q, init) && i < |ss|
    ensures var s := ss[i];
            && Recoverable(s.disk, L) && s.cut <= |s.history|
            && (var r := Recovered(s.disk, L, cuts);
                && |r| == |init| && Committed(r, L) == []
                && forall b: nat :: b < |init| && !L.InLog(b) ==> r[b] == Replay(init, s.history[..s.cut])[b])
            && WholeOps(s.history, s.cut)
            && (forall j, k :: 0 <= j < s.cut && 0 <= k < |s.ops| ==> s.history[j].op != s.ops[k].id)
            && (s.phase.Idle? && s.ops == [] ==> s.cut == |s.history|)
  {
    RunInv(ss, ls, L, q, init, i);
    RecoveredIsMeaning(ss[i].disk, L, cuts);
    if ss[i].phase.Idle? && ss[i].ops == [] {
      NothingToCommit(ss[i], L, init);
    }
  }

  lemma DurableStep(s: State, L: Layout, q: nat, l: Label)
    requires Shape(s, L) && Can(s, L, q, l)
    ensures var t := Step(s, L, q, l); t.cut <= |t.history| && s.history[..s.cut] <= t.history[..t.cut]
  {
    var t := Step(s, L, q, l);
    match l
    case Modify(k, w) => assert t.history[..t.cut] == s.history[..s.cut];
    case Commit => assert s.history[..s.cut] <= s.history[..|s.history|];
    case Crash => assert t.history[..t.cut] == s.history[..s.cut];
    case _ =>
  }

  lemma PrefixTransitive(a: seq<Update>, b: seq<Update>, c: seq<Update>)
    requires a <= b <= c
    ensures a <= c
  {
  }

  /** What is durable stays durable, through crashes too. */
  lemma {:induction false} DurableGrows(ss: seq<State>, ls: seq<Label>, L: Layout, q: nat, init: Disk, i: nat, j: nat)
    requires IsRun(ss, ls, L, q, init) && i <= j < |ss|
    ensures ss[i].cut <= |ss[i].history| && ss[j].cut <= |ss[j].history|
    ensures ss[i].history[..ss[i].cut] <= ss[j].history[..ss[j].cut]
    decreases j
  {
    if i < j {
      DurableGrows(ss, ls, L, q, init, i, j - 1);
      var s, t := ss[j - 1], ss[j];
      assert StepAt(ss, ls, L, q, j - 1);
      DurableStep(s, L, q, ls[j - 1]);
      PrefixTransitive(ss[i].history[..ss[i].cut], s.history[..s.cut], t.history[..t.cut]);
    } else {
      RunInv(ss, ls, L, q, init, i);
    }
  }

  // ------------------------------------------------------------------
  // Reserved log space

  /** Header entries the outstanding operations may still add, at c each. */
  function Unused(ops: seq<Op>, c: nat): int {
    if ops == [] then 0 else Unused(ops[..|ops| - 1], c) + c - ops[|ops| - 1].used
  }

  lemma {:induction false} UnusedAppend(xs: seq<Op>, ys: seq<Op>, c: nat)
    ensures Unused(xs + ys, c) == Unused(xs, c) + Unused(ys, c)
    decreases |ys|
  {
    if ys == [] {
      assert xs + ys == xs;
    } else {
      assert (xs + ys)[..|xs + ys| - 1] == xs + ys[..|ys| - 1];
      UnusedAppend(xs, ys[..|ys| - 1], c);
    }
  }

  /** The sum around its k-th term. */
  lemma UnusedSplit(ops: seq<Op>, k: nat, c: nat)
    requires k < |ops|
    ensures Unused(ops, c) == Unused(ops[..k], c) + c - ops[k].used + Unused(ops[k + 1..], c)
  {
    assert ops == (ops[..k] + [ops[k]]) + ops[k + 1..];
    UnusedAppend(ops[..k] + [ops[k]], ops[k + 1..], c);
    UnusedAppend(ops[..k], [ops[k]], c);
    assert [ops[k]][..0] == [];
  }

  lemma {:induction false} UnusedBound(ops: seq<Op>, c: nat)
    ensures Unused(ops, c) <= c * |ops|
    ensures (forall k :: 0 <= k < |ops| ==> ops[k].used <= c) ==> Unused(ops, c) >= 0
  {
    if ops != [] {
      UnusedBound(ops[..|ops| - 1], c);
    }
  }

  ghost predicate Reserved(s: State, q: nat) {
    && (forall k :: 0 <= k < |s.ops| ==> s.ops[k].used <= q)
    && (!s.phase.Booting? ==> |s.lh| + Unused(s.ops, MAXOPBLOCKS - 1) <= LOGSIZE - 2)
  }

  /** begin_op's test pays for one more operation. */
  lemma ReservedBegin(s: State, L: Layout, q: nat)
    requires Shape(s, L) && Reserved(s, q) && Admits(s)
    ensures Reserved(Step(s, L, q, Begin), q)
  {
    var o := Op(s.nextId, 0, {});
    UnusedBound(s.ops, MAXOPBLOCKS - 1);
    assert (s.ops + [o])[..|s.ops + [o]| - 1] == s.ops;
  }

  lemma ReservedUpdate(s: State, t: State, q: nat, k: nat)
    requires Reserved(s, q) && s.phase == t.phase && k < |s.ops| == |t.ops| && t.ops == s.ops[k := t.ops[k]]
    requires |t.lh| - |s.lh| <= t.ops[k].used - s.ops[k].used && t.ops[k].used <= q
    ensures Reserved(t, q)
  {
    UnusedSplit(s.ops, k, MAXOPBLOCKS - 1);
    UnusedSplit(t.ops, k, MAXOPBLOCKS - 1);
  }

  lemma ReservedEnd(s: State, L: Layout, q: nat, k: nat)
    requires Shape(s, L) && Reserved(s, q) && Allowed(s, L, q, End(k)) && q <= MAXOPBLOCKS - 1
    ensures Reserved(Step(s, L, q, End(k)), q)
  {
    UnusedSplit(s.ops, k, MAXOPBLOCKS - 1);
    UnusedAppend(s.ops[..k], s.ops[k + 1..], MAXOPBLOCKS - 1);
  }

  lemma ReservedStep(s: State, L: Layout, q: nat, l: Label)
    requires Shape(s, L) && Reserved(s, q) && Can(s, L, q, l) && q <= MAXOPBLOCKS - 1
    ensures Reserved(Step(s, L, q, l), q)
  {
    match l
    case Begin => ReservedBegin(s, L, q);
    case Modify(k, w) => ReservedUpdate(s, Step(s, L, q, l), q, k);
    case LogWrite(k, b) => ReservedUpdate(s, Step(s, L, q, l), q, k);
    case End(k) => ReservedEnd(s, L, q, k);
    case _ =>
  }

  lemma {:induction false} RunReserved(ss: seq<State>, ls: seq<Label>, L: Layout, q: nat, init: Disk, i: nat)
    requires IsRun(ss, ls, L, q, init) && i < |ss| && q <= MAXOPBLOCKS - 1
    ensures Reserved(ss[i], q)
  {
    if i > 0 {
      RunReserved(ss, ls, L, q, init, i - 1);
      assert StepAt(ss, ls, L, q, i - 1);
      ReservedStep(ss[i - 1], L, q, ls[i - 1]);
    }
  }

  /**
   The reservation holds in every interleaving: operations that add at most
   MAXOPBLOCKS - 1 header entries never make log_write panic, even though mkfs gives
   the log only LOGSIZE - 1 data slots.
   */
  lemma ReservationSuffices(ss: seq<State>, ls: seq<Label>, L: Layout, q: nat, init: Disk, i: nat, l: Label)
    requires IsRun(ss, ls, L, q, init) && i < |ss| && q <= MAXOPBLOCKS - 1
    requires L.size == LOGSIZE && Allowed(ss[i], L, q, l)
    ensures !Panics(ss[i], L, l)
    ensures |ss[i].ops| > 0 ==> |ss[i].lh| + Unused(ss[i].ops, MAXOPBLOCKS - 1) <= LOGSIZE - 2
  {
    RunInv(ss, ls, L, q, init, i);
    RunReserved(ss, ls, L, q, init, i);
    UnusedBound(ss[i].ops, MAXOPBLOCKS - 1);
  }

  // ------------------------------------------------------------------
  // One more entry per operation is one too many

  ghost predicate PanicReachable(L: Layout, q: nat, init: Disk) {
    exists ss, ls, l :: EndsInPanic(ss, ls, l, L, q, init)
  }

  ghost predicate EndsInPanic(ss: seq<State>, ls: seq<Label>, l: Label, L: Layout, q: nat, init: Disk) {
    && IsRun(ss, ls, L, q, init)
    && Allowed(ss[|ss| - 1], L, q, l) && Panics(ss[|ss| - 1], L, l)
  }

  lemma Extend(ss: seq<State>, ls: seq<Label>, L: Layout, q: nat, init: Disk, l: Label)
    requires IsRun(ss, ls, L, q, init) && Shape(ss[|ss| - 1], L) && Can(ss[|ss| - 1], L, q, l)
    ensures IsRun(ss + [Step(ss[|ss| - 1], L, q, l)], ls + [l], L, q, init)
  {
    var ss', ls' := ss + [Step(ss[|ss| - 1], L, q, l)], ls + [l];
    forall i | 0 <= i < |ls'| ensures StepAt(ss', ls', L, q, i) {
      assert i < |ls| ==> StepAt(ss, ls, L, q, i);
    }
  }

  /** Three operations share n logged blocks, filling their quotas of ten one after the other. */
  ghost predicate Filled(s: State, L: Layout, init: Disk, n: nat) {
    && Inv(s, L, init) && s.phase.Idle? && |s.lh| == n && |s.ops| == 3
    && (forall b :: b in s.lh ==> L.start + L.size <= b < L.start + L.size + n)
    && (forall k :: 0 <= k < 3 ==>
          s.ops[k].used == if n <= 10 * k then 0 else if n <= 10 * k + 10 then n - 10 * k else 10)
  }

  lemma ThreeBegin(L: Layout, q: nat, init: Disk) returns (ss: seq<State>, ls: seq<Label>)
    requires L.size == LOGSIZE && Recoverable(init, L) && Committed(init, L) == []
    ensures IsRun(ss, ls, L, q, init) && Filled(ss[|ss| - 1], L, init, 0)
  {
    ss, ls := [State(init, init, [], [], Idle, 0, [], 0)], [];
    StartInv(ss[0], L, init);
    for n := 0 to 3
      invariant IsRun(ss, ls, L, q, init)
      invariant var s := ss[|ss| - 1];
                && Inv(s, L, init) && s.phase.Idle? && s.lh == [] && |s.ops| == n
                && forall k :: 0 <= k < n ==> s.ops[k].used == 0
    {
      var s := ss[|ss| - 1];
      Extend(ss, ls, L, q, init, Begin);
      StepKeeps(s, L, init, q, Begin);
      ss, ls := ss + [Step(s, L, q, Begin)], ls + [Begin];
    }
  }

  /** One more block modified, ready to be logged by the operation whose turn it is. */
  lemma ModifyNext(s: State, L: Layout, q: nat, init: Disk, n: nat)
    requires Filled(s, L, init, n) && n < LOGSIZE <= L.size && q >= MAXOPBLOCKS && |init| >= L.start + 2 * L.size
    ensures var b := L.start + L.size + n;
            var l := Modify(n / 10, Write(b, init[b]));
            && Can(s, L, q, l)
            && Filled(Step(s, L, q, l), L, init, n)
            && Allowed(Step(s, L, q, l), L, q, LogWrite(n / 10, b))
            && b !in Step(s, L, q, l).lh
  {
    hide Covered, Whole, Recoverable, Committed, Replay, Meaning;
    var b := L.start + L.size + n;
    StepKeeps(s, L, init, q, Modify(n / 10, Write(b, init[b])));
  }

  lemma LogNext(s: State, L: Layout, q: nat, init: Disk, n: nat)
    requires Filled(s, L, init, n) && n + 1 < LOGSIZE == L.size
    requires var b := L.start + L.size + n; b !in s.lh && Allowed(s, L, q, LogWrite(n / 10, b))
    ensures var l := LogWrite(n / 10, L.start + L.size + n);
            Can(s, L, q, l) && Filled(Step(s, L, q, l), L, init, n + 1)
  {
    hide Agrees, Covered, Whole, Recoverable, Committed;
    StepKeeps(s, L, init, q, LogWrite(n / 10, L.start + L.size + n));
  }

  /** The run so far, with the n-th block modified. */
  lemma RunModify(ss: seq<State>, ls: seq<Label>, L: Layout, q: nat, init: Disk, n: nat)
    returns (ss': seq<State>, ls': seq<Label>)
    requires IsRun(ss, ls, L, q, init) && Filled(ss[|ss| - 1], L, init, n)
    requires n < LOGSIZE <= L.size && q >= MAXOPBLOCKS && |init| >= L.start + 2 * L.size
    ensures IsRun(ss', ls', L, q, init) && Filled(ss'[|ss'| - 1], L, init, n)
    ensures var b := L.start + L.size + n;
            Allowed(ss'[|ss'| - 1], L, q, LogWrite(n / 10, b)) && b !in ss'[|ss'| - 1].lh
  {
    var s, b := ss[|ss| - 1], L.start + L.size + n;
    var m := Modify(n / 10, Write(b, init[b]));
    assert Shape(s, L) && |s.disk| == |init|;
    hide IsRun, Filled, Shape, Step, Can, Allowed;
    ModifyNext(s, L, q, init, n);
    Extend(ss, ls, L, q, init, m);
    ss', ls' := ss + [Step(s, L, q, m)], ls + [m];
  }

  lemma RunLog(ss: seq<State>, ls: seq<Label>, L: Layout, q: nat, init: Disk, n: nat)
    returns (ss': seq<State>, ls': seq<Label>)
    requires IsRun(ss, ls, L, q, init) && Filled(ss[|ss| - 1], L, init, n) && n + 1 < LOGSIZE == L.size
    requires var b := L.start + L.size + n;
             b !in ss[|ss| - 1].lh && Allowed(ss[|ss| - 1], L, q, LogWrite(n / 10, b))
    ensures IsRun(ss', ls', L, q, init) && Filled(ss'[|ss'| - 1], L, init, n + 1)
  {
    var s, l := ss[|ss| - 1], LogWrite(n / 10, L.start + L.size + n);
    assert Shape(s, L);
    hide IsRun, Filled, Shape, Step, Can, Allowed;
    LogNext(s, L, q, init, n);
    Extend(ss, ls, L, q, init, l);
    ss', ls' := ss + [Step(s, L, q, l)], ls + [l];
  }

  lemma FullPanics(ss: seq<State>, ls: seq<Label>, L: Layout, q: nat, init: Disk)
    requires L.size == LOGSIZE && IsRun(ss, ls, L, q, init) && Filled(ss[|ss| - 1], L, init, LOGSIZE - 1)
    requires Allowed(ss[|ss| - 1], L, q, LogWrite((LOGSIZE - 1) / 10, L.start + L.size + LOGSIZE - 1))
    ensures PanicReachable(L, q, init)
  {
    assert |ss[|ss| - 1].lh| == LOGSIZE - 1;
    hide Filled, IsRun, Allowed;
    assert EndsInPanic(ss, ls, LogWrite((LOGSIZE - 1) / 10, L.start + L.size + LOGSIZE - 1), L, q, init);
  }

  lemma QuotaTenPanics(L: Layout, q: nat, init: Disk)
    requires L.size == LOGSIZE && Recoverable(init, L) && Committed(init, L) == []
    requires |init| >= L.start + 2 * L.size && q >= MAXOPBLOCKS
    ensures PanicReachable(L, q, init)
  {
    hide Filled, Allowed, EndsInPanic, Recoverable, StepAt;
    var ss, ls := ThreeBegin(L, q, init);
    for n := 0 to LOGSIZE - 1
      invariant IsRun(ss, ls, L, q, init) && Filled(ss[|ss| - 1], L, init, n)
    {
      ss, ls := RunModify(ss, ls, L, q, init, n);
      ss, ls := RunLog(ss, ls, L, q, init, n);
    }
    ss, ls := RunModify(ss, ls, L, q, init, LOGSIZE - 1);
    FullPanics(ss, ls, L, q, init);
  }

  /**
   How many header entries an operation may add: MAXOPBLOCKS, as kernel/param.h
   promises, is one too many for the log mkfs makes; MAXOPBLOCKS - 1 is safe.
   */
  lemma QuotaExact(L: Layout, q: nat, init: Disk)
    requires L.size == LOGSIZE && Recoverable(init, L) && Committed(init, L) == []
    requires |init| >= L.start + 2 * L.size
    ensures PanicReachable(L, q, init) <==> q > MAXOPBLOCKS - 1
  {
    if q > MAXOPBLOCKS - 1 {
      QuotaTenPanics(L, q, init);
    } else {
      forall ss, ls, l ensures !EndsInPanic(ss, ls, l, L, q, init) {
        if IsRun(ss, ls, L, q, init) && Allowed(ss[|ss| - 1], L, q, l) {
          ReservationSuffices(ss, ls, L, q, init, |ss| - 1, l);
        }
      }
    }
  }
}
