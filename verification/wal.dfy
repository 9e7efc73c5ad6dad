/**
 The on-disk redo log of kernel/log.c: block writes, crashes between any two of
 them, and recovery.

 A disk is a sequence of blocks of 256 words.  Commit and recovery are given as
 the sequence of single-block writes they issue (the atomic unit of the disk); a
 crash keeps an arbitrary prefix of that sequence.
 */
module Wal {
  import opened Sets

  const MAXOPBLOCKS: nat := 10
  const LOGSIZE: nat := MAXOPBLOCKS * 3
  const WORDS: nat := 256 // BSIZE / sizeof(int)

  datatype Block = Block(words: seq<int>)
  type Disk = seq<Block>

  datatype Write = Write(bno: nat, data: Block)

  /** The log occupies blocks [start, start + size): a header block, then size - 1 data slots. */
  datatype Layout = Layout(start: nat, size: nat) {
    predicate InLog(b: int) {
      start <= b < start + size
    }

    /** The data slots: the log without its header block. */
    predicate InSlots(b: int) {
      start < b < start + size
    }
  }

  /** What log_write guarantees of the in-memory header: few enough, distinct, home blocks. */
  predicate GoodHead(lh: seq<int>, L: Layout, total: nat) {
    && |lh| < L.size
    && |lh| <= LOGSIZE
    && Distinct(lh)
    && forall i :: 0 <= i < |lh| ==> 0 <= lh[i] < total && !L.InLog(lh[i])
  }

  // ------------------------------------------------------------------
  // The header block

  predicate Readable(b: Block) {
    |b.words| == WORDS && 0 <= b.words[0] <= LOGSIZE
  }

  /** read_head: n, then the first n block numbers. */
  function UnpackHead(b: Block): seq<int>
    requires Readable(b)
  {
    b.words[1..1 + b.words[0]]
  }

  /** write_head: overwrites n and the first n block numbers and keeps the rest of the block. */
  function PackHead(lh: seq<int>, b: Block): Block
    requires |lh| <= LOGSIZE && |b.words| == WORDS
  {
    Block([|lh|] + lh + b.words[1 + |lh|..])
  }

  lemma HeadRoundTrip(lh: seq<int>, b: Block)
    requires |lh| <= LOGSIZE && |b.words| == WORDS
    ensures Readable(PackHead(lh, b)) && UnpackHead(PackHead(lh, b)) == lh
    ensures PackHead(lh, b).words[0] == |lh|
    ensures forall i :: 1 + |lh| <= i < WORDS ==> PackHead(lh, b).words[i] == b.words[i]
  {
  }

  /** The log area, header block included, lies on the disk. */
  predicate Fits(d: Disk, L: Layout) {
    0 < L.size && L.start + L.size <= |d| && |d[L.start].words| == WORDS
  }

  // ------------------------------------------------------------------
  // Sequences of writes

  function Apply(d: Disk, w: Write): (r: Disk)
    ensures |r| == |d|
  {
    if w.bno < |d| then d[w.bno := w.data] else d
  }

  function ApplyAll(d: Disk, ws: seq<Write>): (r: Disk)
    ensures |r| == |d|
  {
    if ws == [] then d else Apply(ApplyAll(d, ws[..|ws| - 1]), ws[|ws| - 1])
  }

  lemma TakeNext<T>(t: seq<T>, ws: seq<T>, k: nat)
    requires k < |ws|
    ensures t + ws[..k] + [ws[k]] == t + ws[..k + 1]
  {
  }

  lemma TakeTail<T>(a: seq<T>, b: seq<T>, k: nat)
    requires |a| <= k <= |a| + |b|
    ensures (a + b)[..k] == a + b[..k - |a|]
  {
  }

  ghost predicate Untouched(ws: seq<Write>, x: nat) {
    forall i :: 0 <= i < |ws| ==> ws[i].bno != x
  }

  ghost predicate DistinctTargets(ws: seq<Write>, total: nat) {
    && (forall i :: 0 <= i < |ws| ==> ws[i].bno < total)
    && (forall i, j :: 0 <= i < j < |ws| ==> ws[i].bno != ws[j].bno)
  }

  lemma {:induction false} ApplyAppend(d: Disk, ws: seq<Write>, vs: seq<Write>)
    ensures ApplyAll(d, ws + vs) == ApplyAll(ApplyAll(d, ws), vs)
    decreases |vs|
  {
    if vs == [] {
      assert ws + vs == ws;
    } else {
      var init := vs[..|vs| - 1];
      assert (ws + vs)[..|ws + vs| - 1] == ws + init;
      ApplyAppend(d, ws, init);
    }
  }

  lemma ApplyLast(d: Disk, ws: seq<Write>, w: Write)
    ensures ApplyAll(d, ws + [w]) == Apply(ApplyAll(d, ws), w)
  {
    assert (ws + [w])[..|ws + [w]| - 1] == ws;
  }

  lemma {:induction false} ApplyUntouched(d: Disk, ws: seq<Write>, x: nat)
    requires x < |d| && Untouched(ws, x)
    ensures ApplyAll(d, ws)[x] == d[x]
    decreases |ws|
  {
    if ws != [] {
      ApplyUntouched(d, ws[..|ws| - 1], x);
    }
  }

  lemma {:induction false} ApplyAt(d: Disk, ws: seq<Write>, i: nat)
    requires i < |ws| && DistinctTargets(ws, |d|)
    ensures ApplyAll(d, ws)[ws[i].bno] == ws[i].data
    decreases |ws|
  {
    if i < |ws| - 1 {
      ApplyAt(d, ws[..|ws| - 1], i);
    }
  }

  // ------------------------------------------------------------------
  // Commit and recovery as writes

  /** write_log: slot i of the log receives the cached contents of lh[i]. */
  function LogWrites(lh: seq<int>, mem: Disk, L: Layout): (ws: seq<Write>)
    requires GoodHead(lh, L, |mem|)
    ensures |ws| == |lh|
  {
    seq(|lh|, i requires 0 <= i < |lh| => Write(L.start + 1 + i, mem[lh[i]]))
  }

  /** write_head. */
  function HeadWrite(d: Disk, lh: seq<int>, L: Layout): Write
    requires L.start < |d| && |d[L.start].words| == WORDS && |lh| <= LOGSIZE
  {
    Write(L.start, PackHead(lh, d[L.start]))
  }

  /** install_trans: block lh[i] receives slot i of the log. */
  function InstallWrites(lh: seq<int>, d: Disk, L: Layout): (ws: seq<Write>)
    requires GoodHead(lh, L, |d|) && Fits(d, L)
    ensures |ws| == |lh|
  {
    seq(|lh|, i requires 0 <= i < |lh| => Write(lh[i], d[L.start + 1 + i]))
  }

  lemma InstallWritesAt(lh: seq<int>, d: Disk, L: Layout)
    requires GoodHead(lh, L, |d|) && Fits(d, L)
    ensures |InstallWrites(lh, d, L)| == |lh|
    ensures forall i :: 0 <= i < |lh| ==> InstallWrites(lh, d, L)[i] == Write(lh[i], d[L.start + 1 + i])
  {
  }

  lemma LogWritesAt(lh: seq<int>, mem: Disk, L: Layout)
    requires GoodHead(lh, L, |mem|)
    ensures |LogWrites(lh, mem, L)| == |lh|
    ensures forall i :: 0 <= i < |lh| ==> LogWrites(lh, mem, L)[i] == Write(L.start + 1 + i, mem[lh[i]])
  {
  }

  /** write_log, then the header: the transaction commits with the last of these. */
  function PrepareWrites(d: Disk, lh: seq<int>, mem: Disk, L: Layout): seq<Write>
    requires GoodHead(lh, L, |d|) && Fits(d, L) && |mem| == |d|
  {
    LogWrites(lh, mem, L) + [HeadWrite(d, lh, L)]
  }

  /** install_trans, then the emptied header; d is the disk read while installing. */
  function FinishWrites(d: Disk, lh: seq<int>, L: Layout): seq<Write>
    requires GoodHead(lh, L, |d|) && Fits(d, L)
  {
    InstallWrites(lh, d, L) + [HeadWrite(d, [], L)]
  }

  function CommitWrites(d: Disk, lh: seq<int>, mem: Disk, L: Layout): seq<Write>
    requires GoodHead(lh, L, |d|) && Fits(d, L) && |mem| == |d|
  {
    if lh == [] then []
    else
      var prep := PrepareWrites(d, lh, mem, L);
      prep + FinishWrites(ApplyAll(d, prep), lh, L)
  }

  /** A disk recovery can start from: its header is readable and names distinct home blocks. */
  predicate Recoverable(d: Disk, L: Layout) {
    && Fits(d, L)
    && Readable(d[L.start])
    && GoodHead(UnpackHead(d[L.start]), L, |d|)
  }

  function Committed(d: Disk, L: Layout): seq<int>
    requires Recoverable(d, L)
  {
    UnpackHead(d[L.start])
  }

  /** recover_from_log. */
  function RecoverWrites(d: Disk, L: Layout): seq<Write>
    requires Recoverable(d, L)
  {
    FinishWrites(d, Committed(d, L), L)
  }

  // ------------------------------------------------------------------
  // The home contents a disk stands for

  function IndexOf(lh: seq<int>, b: int): (i: nat)
    requires b in lh
    ensures i < |lh| && lh[i] == b
  {
    if lh[0] == b then 0 else 1 + IndexOf(lh[1..], b)
  }

  /** The contents of block b once the transaction in the header (if any) is installed. */
  function Meaning(d: Disk, L: Layout, b: nat): Block
    requires Recoverable(d, L) && b < |d|
  {
    var lh := Committed(d, L);
    if b in lh then d[L.start + 1 + IndexOf(lh, b)] else d[b]
  }

  ghost predicate SameMeaning(d: Disk, e: Disk, L: Layout) {
    && |d| == |e| && Recoverable(d, L) && Recoverable(e, L)
    && forall b: nat :: b < |d| && !L.InLog(b) ==> Meaning(d, L, b) == Meaning(e, L, b)
  }

  /** Installing the first k blocks of the transaction in the header changes no meaning. */
  lemma InstallKeepsMeaning(d: Disk, L: Layout, k: nat)
    requires Recoverable(d, L) && k <= |Committed(d, L)|
    ensures SameMeaning(d, ApplyAll(d, InstallWrites(Committed(d, L), d, L)[..k]), L)
    ensures forall x: nat :: L.InLog(x) ==> ApplyAll(d, InstallWrites(Committed(d, L), d, L)[..k])[x] == d[x]
  {
    hide ApplyAll, InstallWrites, UnpackHead, PackHead;
    var lh := Committed(d, L);
    var ws := InstallWrites(lh, d, L)[..k];
    var e := ApplyAll(d, ws);
    InstallWritesAt(lh, d, L);
    forall x: nat | L.InLog(x) ensures e[x] == d[x] {
      ApplyUntouched(d, ws, x);
    }
    forall b: nat | b < |d| && !L.InLog(b) ensures Meaning(d, L, b) == Meaning(e, L, b) {
      if b !in lh {
        ApplyUntouched(d, ws, b);
      }
    }
  }

  /** A fully installed transaction: every home block already holds its meaning. */
  lemma InstalledHome(d: Disk, L: Layout, b: nat)
    requires Recoverable(d, L) && b < |d| && !L.InLog(b)
    ensures ApplyAll(d, InstallWrites(Committed(d, L), d, L))[b] == Meaning(d, L, b)
  {
    hide ApplyAll, InstallWrites, UnpackHead, PackHead;
    var lh := Committed(d, L);
    var ws := InstallWrites(lh, d, L);
    InstallWritesAt(lh, d, L);
    if b in lh {
      ApplyAt(d, ws, IndexOf(lh, b));
    } else {
      ApplyUntouched(d, ws, b);
    }
  }

  /** Emptying the header of a fully installed log changes no meaning. */
  lemma EraseKeepsMeaning(d: Disk, L: Layout)
    requires Recoverable(d, L)
    ensures var e := ApplyAll(d, RecoverWrites(d, L));
            SameMeaning(d, e, L) && Committed(e, L) == []
    ensures forall b: nat :: b < |d| && !L.InLog(b) ==> ApplyAll(d, RecoverWrites(d, L))[b] == Meaning(d, L, b)
  {
    var lh := Committed(d, L);
    var ws := InstallWrites(lh, d, L);
    var h := HeadWrite(d, [], L);
    var mid := ApplyAll(d, ws);
    assert (ws + [h])[..|ws + [h]| - 1] == ws;
    var e := ApplyAll(d, ws + [h]);
    assert e == mid[L.start := h.data];
    HeadRoundTrip([], d[L.start]);
    forall b: nat | b < |d| && !L.InLog(b) ensures e[b] == Meaning(d, L, b) {
      InstalledHome(d, L, b);
    }
  }

  /** Stopping recovery after any number of its writes leaves a recoverable disk with the same meaning. */
  lemma RecoveryPrefix(d: Disk, L: Layout, k: nat)
    requires Recoverable(d, L) && k <= |RecoverWrites(d, L)|
    ensures SameMeaning(d, ApplyAll(d, RecoverWrites(d, L)[..k]), L)
  {
    var ws := RecoverWrites(d, L);
    if k < |ws| {
      assert ws[..k] == InstallWrites(Committed(d, L), d, L)[..k];
      InstallKeepsMeaning(d, L, k);
    } else {
      assert ws[..k] == ws;
      EraseKeepsMeaning(d, L);
    }
  }

  // ------------------------------------------------------------------
  // Any number of interrupted recoveries, then one that completes

  /** One recovery attempt that crashes after at most `cut` of its writes. */
  function Attempt(d: Disk, L: Layout, cut: nat): Disk
    requires Recoverable(d, L)
  {
    var ws := RecoverWrites(d, L);
    ApplyAll(d, ws[..if cut < |ws| then cut else |ws|])
  }

  function Boots(d: Disk, L: Layout, cuts: seq<nat>): (r: Disk)
    requires Recoverable(d, L)
    ensures SameMeaning(d, r, L)
    decreases |cuts|
  {
    if cuts == [] then d
    else
      var ws := RecoverWrites(d, L);
      RecoveryPrefix(d, L, if cuts[0] < |ws| then cuts[0] else |ws|);
      Boots(Attempt(d, L, cuts[0]), L, cuts[1..])
  }

  function Recovered(d: Disk, L: Layout, cuts: seq<nat>): Disk
    requires Recoverable(d, L)
  {
    var e := Boots(d, L, cuts);
    ApplyAll(e, RecoverWrites(e, L))
  }

  /** Recovery is idempotent: however often it is interrupted, the home blocks end up at their meaning. */
  lemma RecoveredIsMeaning(d: Disk, L: Layout, cuts: seq<nat>)
    requires Recoverable(d, L)
    ensures var r := Recovered(d, L, cuts);
            && |r| == |d| && Recoverable(r, L) && Committed(r, L) == []
            && forall b: nat :: b < |d| && !L.InLog(b) ==> r[b] == Meaning(d, L, b)
  {
    EraseKeepsMeaning(Boots(d, L, cuts), L);
  }

  // ------------------------------------------------------------------
  // Crash atomicity of commit

  /** Before the header is written, no log write changes any meaning. */
  lemma LogWritesKeepMeaning(d: Disk, lh: seq<int>, mem: Disk, L: Layout, k: nat)
    requires Recoverable(d, L) && Committed(d, L) == []
    requires GoodHead(lh, L, |d|) && |mem| == |d| && k <= |lh|
    ensures var e := ApplyAll(d, LogWrites(lh, mem, L)[..k]);
            SameMeaning(d, e, L) && Committed(e, L) == [] && e[L.start] == d[L.start]
  {
    var ws := LogWrites(lh, mem, L)[..k];
    forall b: nat | b < |d| && (!L.InLog(b) || b == L.start) ensures ApplyAll(d, ws)[b] == d[b] {
      ApplyUntouched(d, ws, b);
    }
  }

  /** The disk just after the header is written, block by block. */
  lemma PreparedDisk(d: Disk, lh: seq<int>, mem: Disk, L: Layout)
    requires Fits(d, L) && GoodHead(lh, L, |d|) && |mem| == |d|
    ensures var e := ApplyAll(d, PrepareWrites(d, lh, mem, L));
            && e[L.start] == PackHead(lh, d[L.start])
            && (forall i :: 0 <= i < |lh| ==> e[L.start + 1 + i] == mem[lh[i]])
            && (forall b: nat :: b < |d| && !L.InLog(b) ==> e[b] == d[b])
  {
    hide ApplyAll, PackHead, LogWrites;
    var ws := LogWrites(lh, mem, L);
    var h := HeadWrite(d, lh, L);
    var mid := ApplyAll(d, ws);
    LogWritesAt(lh, mem, L);
    ApplyLast(d, ws, h);
    forall i | 0 <= i < |lh| ensures mid[L.start + 1 + i] == mem[lh[i]] {
      ApplyAt(d, ws, i);
    }
    forall b: nat | b < |d| && !L.InLog(b) ensures mid[b] == d[b] {
      ApplyUntouched(d, ws, b);
    }
  }

  lemma PreparedMeaning(d: Disk, e: Disk, lh: seq<int>, mem: Disk, L: Layout)
    requires Fits(d, L) && GoodHead(lh, L, |d|) && |mem| == |d| == |e|
    requires e[L.start] == PackHead(lh, d[L.start])
    requires forall i :: 0 <= i < |lh| ==> e[L.start + 1 + i] == mem[lh[i]]
    requires forall b: nat :: b < |d| && !L.InLog(b) ==> e[b] == d[b]
    ensures Recoverable(e, L) && Committed(e, L) == lh
    ensures forall b: nat :: b < |d| && !L.InLog(b) ==>
              Meaning(e, L, b) == (if b in lh then mem[b] else d[b])
  {
    HeadRoundTrip(lh, d[L.start]);
  }

  /** With the header on disk the meaning is the new contents of the logged blocks and the old of all others. */
  lemma HeaderCommits(d: Disk, lh: seq<int>, mem: Disk, L: Layout)
    requires Fits(d, L) && GoodHead(lh, L, |d|) && |mem| == |d|
    ensures var e := ApplyAll(d, PrepareWrites(d, lh, mem, L));
            && Recoverable(e, L) && Committed(e, L) == lh
            && forall b: nat :: b < |d| && !L.InLog(b) ==>
                 Meaning(e, L, b) == (if b in lh then mem[b] else d[b])
  {
    PreparedDisk(d, lh, mem, L);
    PreparedMeaning(d, ApplyAll(d, PrepareWrites(d, lh, mem, L)), lh, mem, L);
  }

  /** Past the header write, the rest of the commit is a recovery of the prepared disk. */
  lemma CommitTail(d: Disk, lh: seq<int>, mem: Disk, L: Layout, k: nat)
    requires Fits(d, L) && GoodHead(lh, L, |d|) && |mem| == |d|
    requires |lh| < k <= |CommitWrites(d, lh, mem, L)|
    ensures var mid := ApplyAll(d, PrepareWrites(d, lh, mem, L));
            && Recoverable(mid, L) && k - |lh| - 1 <= |RecoverWrites(mid, L)|
            && ApplyAll(d, CommitWrites(d, lh, mem, L)[..k]) == ApplyAll(mid, RecoverWrites(mid, L)[..k - |lh| - 1])
  {
    hide ApplyAll, PackHead, UnpackHead, Meaning, LogWrites, InstallWrites, HeadWrite;
    var prep := PrepareWrites(d, lh, mem, L);
    HeaderCommits(d, lh, mem, L);
    var fin := RecoverWrites(ApplyAll(d, prep), L);
    var j := k - |prep|;
    TakeTail(prep, fin, k);
    ApplyAppend(d, prep, fin[..j]);
  }

  /** What the home blocks mean after the first k writes of a commit. */
  lemma CommitPrefix(d: Disk, lh: seq<int>, mem: Disk, L: Layout, k: nat)
    requires Recoverable(d, L) && Committed(d, L) == []
    requires GoodHead(lh, L, |d|) && |mem| == |d|
    requires k <= |CommitWrites(d, lh, mem, L)|
    ensures var e := ApplyAll(d, CommitWrites(d, lh, mem, L)[..k]);
            && Recoverable(e, L)
            && forall b: nat :: b < |d| && !L.InLog(b) ==>
                 Meaning(e, L, b) == (if k > |lh| && b in lh then mem[b] else d[b])
  {
    hide ApplyAll, LogWrites, InstallWrites, PackHead, UnpackHead;
    if k <= |lh| {
      assert CommitWrites(d, lh, mem, L)[..k] == LogWrites(lh, mem, L)[..k];
      LogWritesKeepMeaning(d, lh, mem, L, k);
    } else {
      HeaderCommits(d, lh, mem, L);
      CommitTail(d, lh, mem, L, k);
      RecoveryPrefix(ApplyAll(d, PrepareWrites(d, lh, mem, L)), L, k - |lh| - 1);
    }
  }

  /**
   Crash atomicity.  Cut a commit after any k of its writes, crash any number of
   further times inside recovery, and let one recovery finish: every home block is
   at its old contents, or every logged one at its new contents, the latter exactly
   when the header naming the transaction was among the k writes.
   */
  lemma CrashAtomicity(d: Disk, lh: seq<int>, mem: Disk, L: Layout, k: nat, cuts: seq<nat>)
    requires Recoverable(d, L) && Committed(d, L) == []
    requires GoodHead(lh, L, |d|) && |mem| == |d|
    requires k <= |CommitWrites(d, lh, mem, L)|
    ensures var e := ApplyAll(d, CommitWrites(d, lh, mem, L)[..k]);
            && Recoverable(e, L)
            && var r := Recovered(e, L, cuts);
            && Recoverable(r, L) && Committed(r, L) == []
            && (if HeadWrite(d, lh, L) in CommitWrites(d, lh, mem, L)[..k] && lh != []
                then forall b: nat :: b < |d| && !L.InLog(b) ==> r[b] == (if b in lh then mem[b] else d[b])
                else forall b: nat :: b < |d| && !L.InLog(b) ==> r[b] == d[b])
  {
    hide ApplyAll, Meaning, Recovered, LogWrites, InstallWrites, PackHead, UnpackHead, Committed;
    var all := CommitWrites(d, lh, mem, L);
    LogWritesAt(lh, mem, L);
    CommitPrefix(d, lh, mem, L, k);
    RecoveredIsMeaning(ApplyAll(d, all[..k]), L, cuts);
    if k > |lh| && lh != [] {
      assert all[..k][|lh|] == HeadWrite(d, lh, L);
    }
  }

  /** A commit that runs to its end leaves the new contents in place and the header empty. */
  lemma CommitCompletes(d: Disk, lh: seq<int>, mem: Disk, L: Layout)
    requires Recoverable(d, L) && Committed(d, L) == []
    requires GoodHead(lh, L, |d|) && |mem| == |d|
    ensures var e := ApplyAll(d, CommitWrites(d, lh, mem, L));
            && Recoverable(e, L) && Committed(e, L) == []
            && forall b: nat :: b < |d| && !L.InLog(b) ==> e[b] == (if b in lh then mem[b] else d[b])
  {
    if lh != [] {
      var all := CommitWrites(d, lh, mem, L);
      var mid := ApplyAll(d, PrepareWrites(d, lh, mem, L));
      HeaderCommits(d, lh, mem, L);
      CommitTail(d, lh, mem, L, |all|);
      assert all[..|all|] == all;
      assert RecoverWrites(mid, L)[..|all| - |lh| - 1] == RecoverWrites(mid, L);
      EraseKeepsMeaning(mid, L);
    }
  }
}
