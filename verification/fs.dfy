/**
 The block layer of the file system (kernel/fs.c) and the chunked write above it
 (kernel/file.c), over one disk.  `logged` collects the blocks passed to log_write.
 */
module FileSystem {
  import opened BlockMap
  import opened Sets
  import Wal

  /** The bitmap blocks of a set of blocks. */
  ghost function BitmapOf(lay: Layout, S: set<nat>): set<nat> {
    set b | b in S :: lay.BBlock(b)
  }

  const CHUNK: nat := 3072 // ((MAXOPBLOCKS - 1 - 1 - 2) / 2) * BSIZE

  /** What a transaction may log: MAXOPBLOCKS, and with few bitmap blocks less. */
  ghost predicate Affordable(l: set<nat>, lay: Layout) {
    |l| <= Wal.MAXOPBLOCKS && |l| <= 6 + lay.BitmapBlocks()
  }

  /**
   With up to three bitmap blocks a chunk of filewrite stays within the MAXOPBLOCKS - 1
   header entries that the log has room for.
   */
  lemma WithinQuota(l: set<nat>, lay: Layout)
    requires Affordable(l, lay) && lay.size <= 3 * BPB
    ensures |l| <= Wal.MAXOPBLOCKS - 1
  {
  }

  /** Every block that differs between a and b is in l, but for that of inode i; no other inode differs. */
  ghost predicate Noted(a: Fs, b: Fs, lay: Layout, i: nat, l: set<nat>) {
    && |b.data| == |a.data| && |b.bits| == |a.bits| && |b.inodes| == |a.inodes|
    && (forall x: nat :: x < |a.data| && b.data[x] != a.data[x] ==> x in l)
    && (forall g: nat :: g < |a.bits| && b.bits[g] != a.bits[g] ==> lay.bmapstart + g in l)
    && (forall j: nat :: j < |a.inodes| && j != i ==> b.inodes[j] == a.inodes[j])
  }

  lemma NotedSame(a: Fs, lay: Layout, i: nat, l: set<nat>)
    ensures Noted(a, a, lay, i, l)
  {
  }

  lemma NotedThen(a: Fs, b: Fs, c: Fs, lay: Layout, i: nat, l: set<nat>, l': set<nat>)
    requires Noted(a, b, lay, i, l) && Noted(b, c, lay, i, l') && l <= l'
    ensures Noted(a, c, lay, i, l')
  {
  }

  lemma NotedClaim(a: Fs, lay: Layout, i: nat, r: nat, l: set<nat>)
    requires r < |a.data| && r / BPB < |a.bits| && |a.bits[r / BPB]| == BPB && r in l && lay.BBlock(r) in l
    ensures Noted(a, Claimed(a, r), lay, i, l)
  {
  }

  lemma NotedFree(a: Fs, lay: Layout, i: nat, r: nat, l: set<nat>)
    requires r / BPB < |a.bits| && |a.bits[r / BPB]| == BPB && lay.BBlock(r) in l
    ensures Noted(a, a.(bits := SetBit(a.bits, r, false)), lay, i, l)
  {
  }

  lemma NotedInode(a: Fs, lay: Layout, i: nat, x: Inode, l: set<nat>)
    requires i < |a.inodes|
    ensures Noted(a, a.(inodes := a.inodes[i := x]), lay, i, l)
  {
  }

  lemma NotedData(a: Fs, lay: Layout, i: nat, x: nat, d: Blk, l: set<nat>)
    requires x < |a.data| && x in l
    ensures Noted(a, a.(data := a.data[x := d]), lay, i, l)
  {
  }

  function EmptyFs(lay: Layout, ninodes: nat): Fs {
    Fs(seq(lay.BitmapBlocks(), g requires g >= 0 => seq(BPB, k requires k >= 0 => g * BPB + k < lay.start)),
       seq(lay.size, _ => Zero()),
       seq(ninodes, _ => Inode(0, seq(NDIRECT + 1, _ => 0))))
  }

  lemma EmptyBit(lay: Layout, ninodes: nat, b: nat)
    requires b < lay.size
    ensures Bit(EmptyFs(lay, ninodes).bits, b) <==> b < lay.start
  {
    assert b / BPB < lay.BitmapBlocks() && b / BPB * BPB + b % BPB == b;
  }

  lemma MkfsInv(lay: Layout, ninodes: nat)
    requires lay.Good()
    ensures var fs := EmptyFs(lay, ninodes);
            && Inv(fs, lay) && Full(fs)
            && (forall i :: 0 <= i < ninodes ==> Contents(fs, i) == [])
            && forall b: nat :: b < lay.size ==> (Bit(fs.bits, b) <==> b < lay.start)
  {
    hide Bit;
    var fs := EmptyFs(lay, ninodes);
    assert forall i: nat, k: nat :: Name(fs, i, k) == 0;
    forall b: nat | b < lay.size ensures Bit(fs.bits, b) <==> b < lay.start || Taken(fs, b) {
      EmptyBit(lay, ninodes, b);
    }
    forall b: nat | b < lay.size ensures Bit(fs.bits, b) <==> b < lay.start {
      EmptyBit(lay, ninodes, b);
    }
  }

  class FileSystem {
    const lay: Layout
    var bits: seq<seq<bool>>
    var data: seq<Blk>
    var inodes: seq<Inode>
    ghost var logged: set<nat>          // by the current transaction
    ghost var txns: seq<set<nat>>       // what each finished transaction logged

    /** A file system found on disk. */
    constructor (lay: Layout, fs: Fs)
      requires Inv(fs, lay) && Full(fs)
      ensures Valid() && State() == fs && this.lay == lay && logged == {} && txns == []
    {
      this.lay, bits, data, inodes := lay, fs.bits, fs.data, fs.inodes;
      logged, txns := {}, [];
    }

    /** The block layer as mkfs leaves it before it adds files: no block named, the metadata blocks marked. */
    constructor Mkfs(lay: Layout, ninodes: nat)
      requires lay.Good()
      ensures Valid() && this.lay == lay && |inodes| == ninodes && logged == {} && txns == []
      ensures forall i :: 0 <= i < ninodes ==> Contents(State(), i) == []
      ensures forall b: nat :: b < lay.size ==> (Bit(bits, b) <==> b < lay.start)
    {
      hide Inv, Full, Bit, Contents;
      MkfsInv(lay, ninodes);
      var fs := EmptyFs(lay, ninodes);
      this.lay, bits, data, inodes := lay, fs.bits, fs.data, fs.inodes;
      logged, txns := {}, [];
    }

    ghost function State(): Fs
      reads this
    {
      Fs(bits, data, inodes)
    }

    ghost predicate Valid()
      reads this
    {
      Inv(State(), lay) && Full(State())
    }

    ghost predicate DiskFull()
      reads this
    {
      forall b: nat :: b < lay.size ==> Bit(bits, b)
    }

    /** Byte x of file i has no block, and none is left. */
    ghost predicate NoRoom(i: nat, x: nat)
      reads this
    {
      DiskFull() && Lookup(State(), i, x / BSIZE) == 0
    }

    ghost method LogWrite(b: nat)
      modifies this`logged
      ensures logged == old(logged) + {b}
    {
      logged := logged + {b};
    }

    /** balloc: the first free block, marked and zeroed; 0 if there is none. */
    method Balloc() returns (r: nat)
      requires Shape(State(), lay) && Bit(bits, 0)
      modifies `bits, `data, `inodes, `logged
      ensures r == 0 <==> old(DiskFull())
      ensures r == 0 ==> State() == old(State()) && logged == old(logged)
      ensures r != 0 ==>
                && r < lay.size && !Bit(old(bits), r) && (forall b: nat :: b < r ==> Bit(old(bits), b))
                && r / BPB < |old(bits)| && |old(bits)[r / BPB]| == BPB && State() == Claimed(old(State()), r)
                && logged == old(logged) + {r, lay.BBlock(r)}
    {
      var b := 0;
      while b < lay.size
        invariant b % BPB == 0 && State() == old(State()) && logged == old(logged)
        invariant forall c: nat :: c < b && c < lay.size ==> Bit(bits, c)
      {
        var bi := 0;
        while bi < BPB && b + bi < lay.size
          invariant 0 <= bi <= BPB && State() == old(State()) && logged == old(logged)
          invariant forall c: nat :: c < b + bi && c < lay.size ==> Bit(bits, c)
        {
          BitsIndex(bits, lay.size, b + bi);
          Split(b, bi);
          if !bits[b / BPB][bi] {
            r := b + bi;
            assert !Bit(bits, r);
            bits := SetBit(bits, r, true);
            LogWrite(lay.BBlock(r));
            data := data[r := Zero()];
            LogWrite(r);
            return;
          }
          assert Bit(bits, b + bi);
          bi := bi + 1;
        }
        b := b + BPB;
      }
      r := 0;
    }

    static lemma Split(b: nat, bi: nat)
      requires b % BPB == 0 && bi < BPB
      ensures (b + bi) / BPB == b / BPB && (b + bi) % BPB == bi
    {
    }

    /** bfree: the bit of a marked block is cleared. */
    method Bfree(b: nat)
      requires Shape(State(), lay) && b < lay.size && Bit(bits, b)
      modifies this`bits, this`logged
      ensures Shape(State(), lay) && Remarked(old(State()), State(), b, false)
      ensures b / BPB < |old(bits)| && |old(bits)[b / BPB]| == BPB && bits == SetBit(old(bits), b, false)
      ensures logged == old(logged) + {lay.BBlock(b)}
    {
      BitsIndex(bits, lay.size, b);
      bits := SetBit(bits, b, false);
      LogWrite(lay.BBlock(b));
      forall c: nat ensures Bit(bits, c) == if c == b then false else Bit(old(bits), c) {
        BitSet(old(bits), b, false, c);
      }
    }

    /** The direct half of bmap. */
    method BmapAddr(i: nat, k: nat) returns (r: nat, ghost news: set<nat>)
      requires Inv(State(), lay) && i < |inodes| && k <= NDIRECT
      modifies `bits, `data, `inodes, `logged
      ensures Inv(State(), lay) && SameFiles(old(State()), State()) && |inodes| == old(|inodes|)
      ensures r == Name(State(), i, k) && (r == 0 ==> DiskFull())
      ensures forall l: nat :: l != k ==> Name(State(), i, l) == Name(old(State()), i, l)
      ensures Name(old(State()), i, k) != 0 ==> State() == old(State()) && news == {}
      ensures news <= {r} - {0} && logged == old(logged) + news + BitmapOf(lay, news)
      ensures Noted(old(State()), State(), lay, i, logged)
    {
      hide Name, Bit, SameFiles, Ranged, Unique, Marked, Noted;
      NotedSame(State(), lay, i, logged);
      news := {};
      NameAddr(State(), lay, i, k);
      SameRefl(State());
      r := inodes[i].addrs[k];
      if r == 0 {
        ZeroBit(State(), lay);
        r := Balloc();
        if r != 0 {
          news := {r};
          AttachAddr(old(State()), lay, i, k, r);
          NotedClaim(old(State()), lay, i, r, logged);
          NotedInode(State(), lay, i, inodes[i].(addrs := inodes[i].addrs[k := r]), logged);
          NotedThen(old(State()), State(),
            State().(inodes := inodes[i := inodes[i].(addrs := inodes[i].addrs[k := r])]), lay, i, logged, logged);
          inodes := inodes[i := inodes[i].(addrs := inodes[i].addrs[k := r])];
        }
      }
    }

    /** The second half of bmap's indirect case: entry j of an indirect block that is there. */
    method BmapEntry(i: nat, j: nat) returns (r: nat, ghost news: set<nat>)
      requires Inv(State(), lay) && i < |inodes| && j < NINDIRECT && Name(State(), i, NDIRECT) != 0
      modifies `bits, `data, `inodes, `logged
      ensures Inv(State(), lay) && SameFiles(old(State()), State()) && |inodes| == old(|inodes|)
      ensures r == Name(State(), i, NDIRECT + 1 + j) && (r == 0 ==> DiskFull())
      ensures Name(State(), i, NDIRECT) == Name(old(State()), i, NDIRECT)
      ensures Name(old(State()), i, NDIRECT + 1 + j) != 0 ==>
              State() == old(State()) && news == {} && logged == old(logged)
      ensures news <= {r} - {0}
      ensures logged <= old(logged) + news + BitmapOf(lay, news) + {Name(State(), i, NDIRECT)}
      ensures old(logged) <= logged && Noted(old(State()), State(), lay, i, logged)
    {
      NameEntry(State(), lay, i, j);
      hide Name, Bit, SameFiles, Ranged, Unique, Marked, Word, Noted;
      NotedSame(State(), lay, i, logged);
      news := {};
      SameRefl(State());
      var ind := inodes[i].addrs[NDIRECT];
      r := Word(data[ind], j);
      if r == 0 {
        ZeroBit(State(), lay);
        r := Balloc();
        if r != 0 {
          news := {r};
          AttachEntry(old(State()), lay, i, j, r);
          ghost var mid, x := State(), SetWord(data[ind], j, r);
          NotedClaim(old(State()), lay, i, r, logged);
          NotedData(mid, lay, i, ind, x, logged + {ind});
          NotedThen(old(State()), mid, mid.(data := data[ind := x]), lay, i, logged, logged + {ind});
          data := data[ind := SetWord(data[ind], j, r)];
          LogWrite(ind);
        }
      }
    }

    /**
     bmap: the block of file block bn, allocated with the indirect block if need be; 0 if
     the disk is full.  No file's contents change, and a block that is there is only found.
     */
    method Bmap(i: nat, bn: nat) returns (r: nat, ghost news: set<nat>)
      requires Valid() && i < |inodes| && bn < MAXFILE
      modifies `bits, `data, `inodes, `logged
      ensures Valid() && SameFiles(old(State()), State()) && |inodes| == old(|inodes|)
      ensures r == Lookup(State(), i, bn) && (r == 0 ==> DiskFull())
      ensures Lookup(old(State()), i, bn) != 0 ==> State() == old(State()) && news == {} && logged == old(logged)
      ensures var ind := Name(old(State()), i, NDIRECT); ind != 0 ==> Name(State(), i, NDIRECT) == ind && ind !in news
      ensures news <= {r, Name(State(), i, NDIRECT)} - {0}
      ensures logged <= old(logged) + news + BitmapOf(lay, news) + ({Name(State(), i, NDIRECT)} - {0})
      ensures old(logged) <= logged && Noted(old(State()), State(), lay, i, logged)
    {
      hide Bit, Inv, SameFiles, Name, Shape, Noted;
      if bn < NDIRECT {
        r, news := BmapAddr(i, bn);
        FullKept(old(State()), State());
        DirectApart(State(), lay, i, bn);
        return;
      }
      var ind;
      ghost var first;
      EntryNeeds(State(), lay, i, bn);
      ind, first := BmapAddr(i, NDIRECT);
      if ind == 0 {
        EntryNeeds(State(), lay, i, bn);
        FullKept(old(State()), State());
        return 0, first;
      }
      ghost var mid, noted := State(), logged;
      r, news := BmapEntry(i, bn - NDIRECT);
      NotedThen(old(State()), mid, State(), lay, i, noted, logged);
      SameTrans(old(State()), mid, State());
      FullKept(old(State()), State());
      DirectApart(State(), lay, i, bn);
      BitmapSum(lay, first, news);
      news := first + news;
    }

    /** One block's part of readi. */
    method ReadPiece(i: nat, cur: nat, m: nat) returns (d: seq<byte>)
      requires Valid() && i < |inodes| && m <= BSIZE - cur % BSIZE && cur < inodes[i].size
               && cur + m <= |Contents(State(), i)|
      modifies `bits, `data, `inodes, `logged
      ensures Valid() && State() == old(State()) && logged == old(logged)
      ensures d == Contents(State(), i)[cur..cur + m]
    {
      hide Inv, Full, Lookup, FileBlk, SameFiles, Contents;
      SizeMapped(State(), i, cur);
      var addr;
      ghost var news;
      addr, news := Bmap(i, cur / BSIZE);
      ContentsPiece(State(), lay, i, cur, m);
      d := data[addr][cur % BSIZE..cur % BSIZE + m];
    }

    /**
     readi: the slice of the file, clipped to its size; nothing is allocated.  The copy
     out of a piece fails as a whole when it does not fit in `room` bytes.
     */
    method Readi(i: nat, off: nat, n: nat, room: nat) returns (ok: bool, r: seq<byte>)
      requires Valid() && i < |inodes| && off < UINT && n < UINT
      modifies `bits, `data, `inodes, `logged
      ensures Valid() && State() == old(State()) && logged == old(logged)
      ensures off > inodes[i].size || off + n >= UINT ==> ok && r == []
      ensures off <= inodes[i].size && off + n < UINT ==>
                var c := Contents(State(), i)[off..Clip(off + n, inodes[i].size)];
                (ok <==> |c| <= room) && r <= c && (if ok then r == c else |r| <= room < |r| + BSIZE)
    {
      hide Inv, Full, Lookup, FileBlk, SameFiles, Contents;
      ok, r := true, [];
      ContentsSize(State(), i);
      if off > inodes[i].size || (off + n) % UINT < off {
        return;
      }
      var n' := if off + n > inodes[i].size then inodes[i].size - off else n;
      var tot, cur := 0, off;
      while tot < n'
        invariant 0 <= tot <= n' && tot <= room && cur == off + tot && State() == old(State()) && logged == old(logged)
        invariant r == Contents(State(), i)[off..cur]
      {
        var m := if n' - tot < BSIZE - cur % BSIZE then n' - tot else BSIZE - cur % BSIZE;
        var d := ReadPiece(i, cur, m);
        if tot + m > room {
          SlicePrefix(Contents(State(), i), off, cur, Clip(off + n, inodes[i].size));
          return false, r;
        }
        SliceJoin(Contents(State(), i), off, cur, cur + m);
        r := r + d;
        tot, cur := tot + m, cur + m;
      }
    }

    /** The effect of writei so far: bytes d written at off, file blocks up to off + |d| there. */
    ghost predicate Writing(a: Fs, i: nat, off: nat, d: seq<byte>)
      reads this
    {
      && Inv(State(), lay) && Full(State()) && Wrote(a, State(), i, off, d)
      && |inodes| == |a.inodes| && (forall j :: 0 <= j < |inodes| ==> inodes[j].size == a.inodes[j].size)
      && i < |inodes| && MappedTo(State(), i, Max(inodes[i].size, off + |d|))
    }

    /** writei's loop body: false when the disk is full or the bytes cannot be read. */
    method WritePiece(i: nat, cur: nat, piece: seq<byte>, readable: bool, ghost a: Fs, ghost off: nat,
        ghost d: seq<byte>)
      returns (ok: bool, ghost news: set<nat>)
      requires Writing(a, i, off, d) && cur == off + |d| && cur / BSIZE < MAXFILE
      requires 0 < |piece| <= BSIZE - cur % BSIZE && off <= inodes[i].size
      modifies `bits, `data, `inodes, `logged
      ensures Writing(a, i, off, if ok then d + piece else d)
      ensures if ok then Lookup(State(), i, cur / BSIZE) != 0 && readable else NoRoom(i, cur) || !readable
      ensures Spent(old(State()), State(), lay, i, cur / BSIZE, news, old(logged), logged)
      ensures old(logged) <= logged && Noted(old(State()), State(), lay, i, logged)
    {
      hide Inv, Full, Lookup, FileBlk, SameFiles, Wrote, Bit, MappedTo, Name, BitmapOf, SlotOf, Noted;
      var addr;
      addr, news := Bmap(i, cur / BSIZE);
      ghost var b, l := State(), logged;
      MappedWriting(a, old(State()), b, i, off, d);
      SpentBmap(old(State()), b, lay, i, cur / BSIZE, news, old(logged), logged);
      if addr == 0 {
        return false, news;
      }
      if !readable {
        return false, news;
      }
      ghost var blk := Patched(FileBlk(b, i, cur / BSIZE), cur % BSIZE, piece);
      PutKeeps(b, lay, i, cur / BSIZE, blk);
      PutNames(b, lay, i, cur / BSIZE, blk);
      LookupRange(b, lay, i, cur / BSIZE);
      data := data[addr := Patched(data[addr], cur % BSIZE, piece)];
      LogWrite(addr);
      NotedData(b, lay, i, addr, data[addr], logged);
      NotedThen(old(State()), b, State(), lay, i, l, logged);
      PutWrote(b, State(), i, cur, piece);
      WroteMore(a, b, State(), i, off, d, piece);
      MappedMore(b, State(), i, Max(inodes[i].size, cur), cur, |piece|);
      FullSame(b, State());
      SpentPut(old(State()), b, State(), lay, i, cur / BSIZE, news, old(logged), l, logged);
      ok := true;
    }

    /** The state of writei's loop after writing d. */
    ghost predicate Progress(a: Fs, l0: set<nat>, i: nat, off: nat, n: nat, d: seq<byte>, going: bool,
        touched: set<nat>, news: set<nat>)
      reads this
    {
      && Writing(a, i, off, d) && off <= inodes[i].size
      && Budget(State(), lay, i, off, touched, news, l0, logged)
      && l0 <= logged && Noted(a, State(), lay, i, logged)
      && (going ==> Paced(off, n, off + |d|, touched)) && |touched| <= Blocks(off, off + n)
    }

    /** One round of writei's loop, with what it may log. */
    method WriteRound(i: nat, cur: nat, piece: seq<byte>, readable: bool, ghost a: Fs, ghost l0: set<nat>,
        ghost off: nat, ghost n: nat, ghost d: seq<byte>, ghost touched: set<nat>, ghost news: set<nat>)
      returns (ok: bool, ghost touched': set<nat>, ghost news': set<nat>)
      requires Progress(a, l0, i, off, n, d, true, touched, news) && cur == off + |d| < off + n <= MAXFILE * BSIZE
      requires |piece| == if off + n - cur < BSIZE - cur % BSIZE then off + n - cur else BSIZE - cur % BSIZE
      modifies `bits, `data, `inodes, `logged
      ensures Progress(a, l0, i, off, n, if ok then d + piece else d, ok, touched', news')
      ensures if ok then readable else NoRoom(i, cur) || !readable
    {
      hide Inv, Full, Lookup, FileBlk, SameFiles, Wrote, Bit, MappedTo, Name, BitmapOf, Spent, Budget, Blocks, Noted;
      ghost var b, l := State(), logged;
      FirstMapped(b, i, off);
      ok, news' := WritePiece(i, cur, piece, readable, a, off, d);
      NotedThen(a, b, State(), lay, i, l, logged);
      BudgetMore(b, State(), lay, i, off, n, cur, touched, news, news', l0, l, logged);
      PacedMore(off, n, cur, |piece|, touched, At(State(), i, cur / BSIZE));
      touched', news' := touched + At(State(), i, cur / BSIZE), news + news';
    }

    /**
     writei of all of src at off, of which only the first `readable` bytes can be read.  A
     result of tot means that exactly bytes off up to off + tot of file i were replaced,
     and the file extended if need be.
     */
    method Writei(i: nat, src: seq<byte>, off: nat, readable: nat) returns (tot: int)
      requires Valid() && i < |inodes| && off < UINT && |src| < UINT
      modifies `bits, `data, `inodes, `logged
      ensures Valid() && |inodes| == old(|inodes|)
      ensures tot < 0 <==> off > old(inodes[i].size) || off + |src| > MAXFILE * BSIZE
      ensures tot < 0 ==> State() == old(State()) && logged == old(logged)
      ensures tot >= 0 ==>
                && tot <= |src| && tot <= readable
                && (tot < |src| ==> NoRoom(i, off + tot) || (readable < |src| && readable < tot + BSIZE))
                && Contents(State(), i) == Splice(old(Contents(State(), i)), off, src[..tot])
                && (forall j :: 0 <= j < |inodes| && j != i ==> Contents(State(), j) == old(Contents(State(), j)))
      ensures tot >= 0 ==>
              old(logged) <= logged && lay.IBlock(i) in logged && Noted(old(State()), State(), lay, i, logged)
      ensures |logged - old(logged)| <= Cost(off, |src|)
      ensures |logged - old(logged)| <= Blocks(off, off + |src|) + lay.BitmapBlocks() + 2
    {
      hide Inv, Full, Lookup, FileBlk, SameFiles, Wrote, Bit, MappedTo, Name, BitmapOf, Contents, Splice, Spent,
           Budget, Cost, Blocks, Noted;
      NotedSame(State(), lay, i, logged);
      var n := |src|;
      CostPositive(off, n);
      if off > inodes[i].size || (off + n) % UINT < off {
        assert logged - old(logged) == {};
        return -1;
      }
      if off + n > MAXFILE * BSIZE {
        assert logged - old(logged) == {};
        return -1;
      }
      WritingBegin(State(), i, off);
      BudgetStart(State(), lay, i, off, logged);
      assert src[..0] == [];
      ghost var touched: set<nat>, news: set<nat> := {}, {};
      tot := 0;
      var going := true;
      while going && tot < n
        invariant 0 <= tot <= n && tot <= readable
        invariant Progress(old(State()), old(logged), i, off, n, src[..tot], going, touched, news)
        invariant !going ==> tot < n && (NoRoom(i, off + tot) || (readable < n && readable < tot + BSIZE))
        decreases going, n - tot
      {
        var cur := off + tot;
        var m := if n - tot < BSIZE - cur % BSIZE then n - tot else BSIZE - cur % BSIZE;
        Joined(src, tot, m);
        going, touched, news := WriteRound(i, cur, src[tot..tot + m], tot + m <= readable, old(State()), old(logged),
          off, n, src[..tot], touched, news);
        if going {
          tot := tot + m;
        }
      }
      Finish(i, off, n, src[..tot], old(State()), old(logged), touched, news);
    }

    /** The end of writei: the size and the inode. */
    method Finish(i: nat, off: nat, ghost n: nat, d: seq<byte>, ghost a: Fs, ghost l0: set<nat>,
        ghost touched: set<nat>, ghost news: set<nat>)
      requires Progress(a, l0, i, off, n, d, false, touched, news)
      modifies `bits, `data, `inodes, `logged
      ensures Valid() && |inodes| == |a.inodes| && i < |inodes|
      ensures off <= a.inodes[i].size && Contents(State(), i) == Splice(Contents(a, i), off, d)
      ensures forall j :: 0 <= j < |inodes| && j != i ==> Contents(State(), j) == Contents(a, j)
      ensures bits == old(bits) && forall bn: nat :: Lookup(State(), i, bn) == old(Lookup(State(), i, bn))
      ensures l0 <= logged && lay.IBlock(i) in logged && Noted(a, State(), lay, i, logged)
      ensures |logged - l0| <= Cost(off, n) && |logged - l0| <= Blocks(off, off + n) + lay.BitmapBlocks() + 2
    {
      hide Inv, Full, Lookup, FileBlk, Wrote, MappedTo, Contents, Splice, Budget, Cost, Blocks, Noted;
      ghost var b, l := State(), logged;
      ContentsSize(a, i);
      if off + |d| > inodes[i].size {
        inodes := inodes[i := inodes[i].(size := off + |d|)];
      }
      LogWrite(lay.IBlock(i));
      NotedInode(b, lay, i, inodes[i], logged);
      NotedThen(a, b, State(), lay, i, l, logged);
      SizeOnly(b, State(), i);
      Resized(a, b, State(), lay, i, off, d);
      BudgetTotal(b, lay, i, off, n, touched, news, l0, l, lay.IBlock(i));
    }

    // ----------------------------------------------------------------
    // itrunc

    /** itrunc after the slots of P have been freed and the first z block numbers cleared. */
    ghost predicate Truncating(a: Fs, l0: set<nat>, i: nat, P: set<nat>, z: nat)
      reads this
    {
      && Shape(State(), lay) && data == a.data && |inodes| == |a.inodes| && i < |inodes|
      && (forall j :: 0 <= j < |inodes| && j != i ==> inodes[j] == a.inodes[j])
      && Cleared(a, bits, i, P)
      && Zeroed(a.inodes[i].addrs, inodes[i].addrs, z)
      && logged <= l0 + BitmapOf(lay, Named(a, i, P))
      && l0 <= logged && Noted(a, State(), lay, i, logged)
    }

    /** bfree of the block that slot k names, if any; it is never a free block. */
    method FreeSlot(b: nat, ghost k: nat, ghost a: Fs, ghost l0: set<nat>, ghost i: nat, ghost P: set<nat>,
        ghost z: nat)
      requires Inv(a, lay) && Truncating(a, l0, i, P, z) && k !in P && b == Name(a, i, k)
      modifies this`bits, this`logged
      ensures Truncating(a, l0, i, P + {k}, z)
    {
      hide Inv, Name, Zeroed, BitmapOf, Cleared, Named, Noted;
      NamedMore(a, i, P, k);
      ghost var before, b0, l := bits, State(), logged;
      if b != 0 {
        StillMarked(a, lay, bits, i, P, k);
        Bfree(b);
        NotedFree(b0, lay, i, b, logged);
        NotedThen(a, b0, State(), lay, i, l, logged);
        BitmapSum(lay, Named(a, i, P), {b});
        assert BitmapOf(lay, {b}) == {lay.BBlock(b)} by {
          BitmapOne(lay, b);
        }
      }
      ClearedMore(a, before, bits, i, P, k);
    }

    lemma TruncAddr(a: Fs, l0: set<nat>, i: nat, P: set<nat>, z: nat, k: nat)
      requires Inv(a, lay) && Truncating(a, l0, i, P, z) && z <= k <= NDIRECT
      ensures i < |inodes| == |a.inodes| && |inodes[i].addrs| == NDIRECT + 1 && inodes[i].addrs[k] == Name(a, i, k)
              && data == a.data
    {
      hide Cleared, BitmapOf, Named, Noted;
    }

    method ClearAddr(i: nat, k: nat, ghost a: Fs, ghost l0: set<nat>, ghost P: set<nat>)
      requires k <= NDIRECT && Truncating(a, l0, i, P, k)
      modifies this`inodes
      ensures Truncating(a, l0, i, P, k + 1)
    {
      hide Cleared, BitmapOf, Named, Noted;
      ghost var b := State();
      NotedInode(b, lay, i, inodes[i].(addrs := inodes[i].addrs[k := 0]), logged);
      NotedThen(a, b, b.(inodes := inodes[i := inodes[i].(addrs := inodes[i].addrs[k := 0])]), lay, i, logged, logged);
      inodes := inodes[i := inodes[i].(addrs := inodes[i].addrs[k := 0])];
    }

    /** itrunc: exactly the inode's blocks become free, and the file is empty. */
    method Itrunc(i: nat)
      requires Valid() && i < |inodes|
      modifies `bits, `data, `inodes, `logged
      ensures Valid() && |inodes| == old(|inodes|) && Contents(State(), i) == []
      ensures forall j :: 0 <= j < |inodes| && j != i ==>
              inodes[j] == old(inodes[j]) && Contents(State(), j) == old(Contents(State(), j))
      ensures forall c: nat :: Bit(bits, c) <==> old(Bit(bits, c)) && c !in old(Named(State(), i, AllSlots()))
      ensures forall k: nat :: Name(State(), i, k) == 0
      ensures logged <= old(logged) + BitmapOf(lay, old(Named(State(), i, AllSlots()))) + {lay.IBlock(i)}
      ensures lay.IBlock(i) in logged && Noted(old(State()), State(), lay, i, logged)
    {
      hide Inv, Full, Name, BitmapOf, Named, Bit, Contents, Truncating, Below, AllSlots, Noted;
      TruncStart(i);
      for k := 0 to NDIRECT
        invariant Truncating(old(State()), old(logged), i, Below(k), k)
      {
        TruncAddr(old(State()), old(logged), i, Below(k), k, k);
        FreeSlot(inodes[i].addrs[k], k, old(State()), old(logged), i, Below(k), k);
        assert Below(k) + {k} == Below(k + 1);
        ClearAddr(i, k, old(State()), old(logged), Below(k + 1));
      }
      TruncAddr(old(State()), old(logged), i, Below(NDIRECT), NDIRECT, NDIRECT);
      if inodes[i].addrs[NDIRECT] != 0 {
        FreeIndirect(i, inodes[i].addrs[NDIRECT], old(State()), old(logged));
        ClearAddr(i, NDIRECT, old(State()), old(logged), AllSlots());
      } else {
        NoEntries(old(State()), old(logged), i);
      }
      TruncEnd(old(State()), old(logged), i);
      ghost var b, l := State(), logged;
      inodes := inodes[i := inodes[i].(size := 0)];
      LogWrite(lay.IBlock(i));
      NotedInode(b, lay, i, inodes[i], logged);
      NotedThen(old(State()), b, State(), lay, i, l, logged);
    }

    /** The indirect part of itrunc. */
    method FreeIndirect(i: nat, ind: nat, ghost a: Fs, ghost l0: set<nat>)
      requires Inv(a, lay) && Truncating(a, l0, i, Below(NDIRECT), NDIRECT) && ind == Name(a, i, NDIRECT) != 0
      modifies this`bits, this`logged
      ensures Truncating(a, l0, i, AllSlots(), NDIRECT)
    {
      hide Inv, Name, BitmapOf, Named, Word, Truncating, Below;
      assert Below(NDIRECT + 1) - {NDIRECT} == Below(NDIRECT);
      for j := 0 to NINDIRECT
        invariant Truncating(a, l0, i, Below(NDIRECT + 1 + j) - {NDIRECT}, NDIRECT)
      {
        TruncAddr(a, l0, i, Below(NDIRECT + 1 + j) - {NDIRECT}, NDIRECT, NDIRECT);
        NameEntry(a, lay, i, j);
        FreeSlot(Word(data[ind], j), NDIRECT + 1 + j, a, l0, i, Below(NDIRECT + 1 + j) - {NDIRECT}, NDIRECT);
        assert Below(NDIRECT + 1 + j) - {NDIRECT} + {NDIRECT + 1 + j} == Below(NDIRECT + 1 + j + 1) - {NDIRECT};
      }
      FreeSlot(ind, NDIRECT, a, l0, i, Below(SLOTS) - {NDIRECT}, NDIRECT);
      assert Below(SLOTS) - {NDIRECT} + {NDIRECT} == AllSlots();
    }

    lemma TruncStart(i: nat)
      requires Inv(State(), lay) && i < |inodes|
      ensures Truncating(State(), logged, i, Below(0), 0)
    {
      NotedSame(State(), lay, i, logged);
      assert Named(State(), i, {}) == {};
    }

    /** Without an indirect block there are no entries to free. */
    lemma NoEntries(a: Fs, l0: set<nat>, i: nat)
      requires Truncating(a, l0, i, Below(NDIRECT), NDIRECT) && Name(a, i, NDIRECT) == 0
      ensures Truncating(a, l0, i, AllSlots(), NDIRECT + 1)
    {
      hide Cleared, Named, BitmapOf, Below, AllSlots, Bit, Noted;
      NoEntryNames(a, i);
      ClearedSame(a, bits, i, Below(NDIRECT), AllSlots());
    }

    lemma TruncEnd(a: Fs, l0: set<nat>, i: nat)
      requires Inv(a, lay) && Full(a) && Truncating(a, l0, i, AllSlots(), NDIRECT + 1)
      ensures |inodes| == |a.inodes| && i < |inodes|
      ensures var b := State().(inodes := inodes[i := inodes[i].(size := 0)]);
              && Inv(b, lay) && Full(b) && Contents(b, i) == [] && (forall k: nat :: Name(b, i, k) == 0)
              && (forall j :: 0 <= j < |a.inodes| && j != i ==>
                 b.inodes[j] == a.inodes[j] && Contents(b, j) == Contents(a, j))
              && (forall c: nat :: Bit(bits, c) <==> Bit(a.bits, c) && c !in Named(a, i, AllSlots()))
      ensures logged <= l0 + BitmapOf(lay, Named(a, i, AllSlots())) && Noted(a, State(), lay, i, logged)
    {
      hide Inv, Full, Name, Contents, Bit, BitmapOf, Named, Noted;
      TruncDone(a, State().(inodes := inodes[i := inodes[i].(size := 0)]), lay, i);
    }

    // ----------------------------------------------------------------
    // filewrite

    ghost method BeginOp()
      modifies this`logged
      ensures logged == {}
    {
      logged := {};
    }

    ghost method EndOp()
      modifies this`txns
      ensures txns == old(txns) + [logged]
    {
      txns := txns + [logged];
    }

    /** One transaction of filewrite: its blocks are within the budget, and everything it changed is among them. */
    method Chunk(i: nat, src: seq<byte>, off: nat, readable: nat) returns (r: int)
      requires Valid() && i < |inodes| && off < UINT && |src| <= CHUNK
      modifies this
      ensures Valid() && |inodes| == old(|inodes|)
      ensures r < 0 <==> off > old(inodes[i].size) || off + |src| > MAXFILE * BSIZE
      ensures r < 0 ==> State() == old(State())
      ensures r >= 0 ==>
                && r <= |src| && r <= readable
                && (r < |src| ==> NoRoom(i, off + r) || (readable < |src| && readable < r + BSIZE))
                && Contents(State(), i) == Splice(old(Contents(State(), i)), off, src[..r])
                && (forall j :: 0 <= j < |inodes| && j != i ==> Contents(State(), j) == old(Contents(State(), j)))
      ensures inodes[i].size == if r < 0 then old(inodes[i].size) else Max(old(inodes[i].size), off + r)
      ensures txns == old(txns) + [logged] && Affordable(logged, lay)
      ensures r >= 0 ==> lay.IBlock(i) in logged && Noted(old(State()), State(), lay, i, logged)
    {
      hide Inv, Full, Contents, Splice, Bit, Cost, Blocks, Noted;
      BeginOp();
      ContentsSize(State(), i);
      ghost var before := Contents(State(), i);
      r := Writei(i, src, off, readable);
      EndOp();
      ContentsSize(State(), i);
      if r >= 0 {
        SpliceAt(before, off, src[..r]);
      }
      ChunkCost(off, |src|);
      assert logged - {} == logged;
    }

    /** File i of a, with d written at off, or unchanged if off is past its end. */
    ghost predicate Holds(a: Fs, i: nat, off: nat, d: seq<byte>)
      reads this
    {
      && Valid() && i < |inodes| == |a.inodes|
      && (forall j :: 0 <= j < |inodes| && j != i ==> Contents(State(), j) == Contents(a, j))
      && (if off <= |Contents(a, i)| then
            Contents(State(), i) == Splice(Contents(a, i), off, d) && off + |d| <= inodes[i].size
          else
            Contents(State(), i) == Contents(a, i) && inodes[i].size < off)
    }

    /** One round of filewrite. */
    method NextChunk(i: nat, src: seq<byte>, off: nat, w: nat, n1: nat, readable: nat, ghost a: Fs) returns (r: int)
      requires w + n1 <= |src| && n1 <= CHUNK && off + w < UINT && Holds(a, i, off, src[..w])
      requires off > |Contents(a, i)| ==> w == 0
      modifies this
      ensures var k := if r < 0 then 0 else r;
              && k <= n1 && Holds(a, i, off, src[..w + k])
      ensures r < 0 <==> off > |Contents(a, i)| || off + w + n1 > MAXFILE * BSIZE
      ensures r > 0 ==> w + r <= readable
      ensures 0 <= r < n1 ==> NoRoom(i, off + w + r) || readable < w + n1
      ensures txns == old(txns) + [logged] && Affordable(logged, lay)
    {
      hide Inv, Full, Contents, Splice, Bit, Affordable;
      ContentsSize(State(), i);
      ContentsSize(a, i);
      ghost var before := Contents(State(), i);
      r := Chunk(i, src[w..w + n1], off + w, if readable < w then 0 else readable - w);
      if r >= 0 {
        SpliceMore(Contents(a, i), off, src, w, r);
        assert src[w..w + n1][..r] == src[w..w + r];
      } else {
        assert src[..w + 0] == src[..w];
      }
    }

    /**
     filewrite on an inode, at file offset off: one transaction for every three blocks, up to
     the one that stops short.  Each logs at most ten blocks, and at most six more than the
     bitmap has.  It fails at once past the end of the file, and otherwise only for want of
     room or of readable bytes.
     */
    method Filewrite(i: nat, src: seq<byte>, off: nat, readable: nat)
      returns (ret: int, off': nat, ghost ops: seq<set<nat>>)
      requires Valid() && i < |inodes| && off < UINT && |src| < 0x8000_0000
      modifies this
      ensures Valid() && |inodes| == old(|inodes|)
      ensures off <= off' <= off + |src| && ret == if off' == off + |src| then |src| else -1
      ensures off' - off <= readable
      ensures |src| > 0 && (off > old(inodes[i].size) || off + |src| > MAXFILE * BSIZE) ==> ret < 0
      ensures ret < 0 ==>
              off > old(inodes[i].size) || off + |src| > MAXFILE * BSIZE || NoRoom(i, off') || readable < |src|
      ensures off > old(inodes[i].size) ==> off' == off && Contents(State(), i) == old(Contents(State(), i))
      ensures off <= old(inodes[i].size) ==>
              Contents(State(), i) == Splice(old(Contents(State(), i)), off, src[..off' - off])
      ensures forall j :: 0 <= j < |inodes| && j != i ==> Contents(State(), j) == old(Contents(State(), j))
      ensures txns == old(txns) + ops && forall k :: 0 <= k < |ops| ==> Affordable(ops[k], lay)
      ensures |ops| == if ret >= 0 then (|src| + CHUNK - 1) / CHUNK else (off' - off) / CHUNK + 1
    {
      hide Inv, Full, Contents, Splice, Bit, Affordable;
      var max := (10 - 1 - 1 - 2) / 2 * BSIZE;
      var n, w := |src|, 0;
      off', ops := off, [];
      ContentsSize(State(), i);
      SpliceNothing(Contents(State(), i), off);
      assert src[..0] == [];
      var going := true;
      while going && w < n
        invariant 0 <= w <= n && off + w <= off' <= off + n && (going ==> off' == off + w && off' < UINT)
        invariant going ==> (w < n ==> w == |ops| * CHUNK) && (w == n ==> |ops| == (n + CHUNK - 1) / CHUNK)
        invariant !going ==> off' < off + n && |ops| == (off' - off) / CHUNK + 1
        invariant off' - off <= readable && (off > old(inodes[i].size) ==> off' == off)
        invariant going && w > 0 ==> off <= old(inodes[i].size) && off + w <= MAXFILE * BSIZE
        invariant !going ==>
                    off > old(inodes[i].size) || off + n > MAXFILE * BSIZE || NoRoom(i, off') || readable < n
        invariant Holds(old(State()), i, off, src[..off' - off]) && txns == old(txns) + ops
        invariant forall k :: 0 <= k < |ops| ==> Affordable(ops[k], lay)
        decreases going, n - w
      {
        var n1 := if n - w > max then max else n - w;
        var r := NextChunk(i, src, off, w, n1, readable, old(State()));
        ops := ops + [logged];
        if r > 0 {
          off' := off' + r;
        }
        ChunkCount(|ops| - 1, w, if r < 0 then 0 else r, n1, n);
        if r == n1 {
          w := w + r;
        } else {
          going := false;
        }
      }
      ret := if w == n then n else -1;
    }
  }

  lemma SizeOnly(a: Fs, b: Fs, i: nat)
    requires i < |a.inodes| == |b.inodes| && b == a.(inodes := a.inodes[i := a.inodes[i].(size := b.inodes[i].size)])
    ensures forall bn: nat :: Lookup(b, i, bn) == Lookup(a, i, bn)
  {
  }

  /** How many chunks have been started. */
  lemma ChunkCount(k: nat, w: nat, r: nat, n1: nat, n: nat)
    requires w == k * CHUNK && w < n && r <= n1 == if n - w > CHUNK then CHUNK else n - w
    ensures r < n1 ==> k + 1 == (w + r) / CHUNK + 1
    ensures r == n1 ==> if w + r == n then k + 1 == (n + CHUNK - 1) / CHUNK else w + r == (k + 1) * CHUNK
  {
  }

  lemma NameAddr(fs: Fs, lay: Layout, i: nat, k: nat)
    requires Shape(fs, lay) && i < |fs.inodes| && k <= NDIRECT
    ensures |fs.inodes[i].addrs| == NDIRECT + 1 && Name(fs, i, k) == fs.inodes[i].addrs[k]
  {
  }

  lemma SameRefl(fs: Fs)
    ensures SameFiles(fs, fs)
  {
  }

  /** Block 0 is never free. */
  lemma ZeroBit(fs: Fs, lay: Layout)
    requires Inv(fs, lay)
    ensures Shape(fs, lay) && Bit(fs.bits, 0)
  {
  }

  lemma NameEntry(fs: Fs, lay: Layout, i: nat, j: nat)
    requires Inv(fs, lay) && i < |fs.inodes| && j < NINDIRECT && Name(fs, i, NDIRECT) != 0
    ensures |fs.inodes[i].addrs| == NDIRECT + 1
    ensures var ind := fs.inodes[i].addrs[NDIRECT];
            ind == Name(fs, i, NDIRECT) && ind < |fs.data| && Name(fs, i, NDIRECT + 1 + j) == Word(fs.data[ind], j)
  {
  }

  /** A file block's slot is not the indirect pointer's. */
  lemma DirectApart(fs: Fs, lay: Layout, i: nat, bn: nat)
    requires Inv(fs, lay) && bn < MAXFILE
    ensures Lookup(fs, i, bn) == Name(fs, i, SlotOf(bn))
    ensures Lookup(fs, i, bn) != 0 ==> Lookup(fs, i, bn) != Name(fs, i, NDIRECT)
  {
    hide Name, Shape, Ranged, Marked;
  }

  /** No entry without an indirect block. */
  lemma EntryNeeds(fs: Fs, lay: Layout, i: nat, bn: nat)
    requires Inv(fs, lay) && NDIRECT <= bn < MAXFILE
    ensures Lookup(fs, i, bn) == Name(fs, i, bn + 1)
    ensures Lookup(fs, i, bn) != 0 ==> Name(fs, i, NDIRECT) != 0
  {
  }

  lemma SameTrans(a: Fs, b: Fs, c: Fs)
    requires SameFiles(a, b) && SameFiles(b, c)
    ensures SameFiles(a, c)
  {
    hide FileBlk, Lookup;
  }

  lemma FullKept(a: Fs, b: Fs)
    requires Full(a) && SameFiles(a, b)
    ensures Full(b)
  {
    hide FileBlk, Lookup;
    forall i | 0 <= i < |b.inodes| ensures MappedTo(b, i, b.inodes[i].size) {
      assert MappedTo(a, i, a.inodes[i].size);
    }
  }

  lemma BitmapSum(lay: Layout, s: set<nat>, t: set<nat>)
    ensures BitmapOf(lay, s + t) == BitmapOf(lay, s) + BitmapOf(lay, t)
  {
    forall x | x in BitmapOf(lay, s) + BitmapOf(lay, t) ensures x in BitmapOf(lay, s + t) {
      var b :| b in s + t && lay.BBlock(b) == x;
    }
  }

  function Clip(x: nat, y: nat): (r: nat)
    ensures r <= x && r <= y
  {
    if x < y then x else y
  }

  lemma ContentsSize(fs: Fs, i: nat)
    requires i < |fs.inodes|
    ensures |Contents(fs, i)| == fs.inodes[i].size
  {
  }

  /** A block below the size is mapped. */
  lemma SizeMapped(fs: Fs, i: nat, x: nat)
    requires Full(fs) && i < |fs.inodes| && x < fs.inodes[i].size
    ensures x / BSIZE < MAXFILE && Lookup(fs, i, x / BSIZE) != 0
  {
    assert MappedTo(fs, i, fs.inodes[i].size);
  }

  lemma LookupRange(fs: Fs, lay: Layout, i: nat, bn: nat)
    requires Inv(fs, lay) && Lookup(fs, i, bn) != 0
    ensures Lookup(fs, i, bn) < |fs.data| && FileBlk(fs, i, bn) == fs.data[Lookup(fs, i, bn)]
  {
  }

  /** One block's part of a file. */
  lemma ContentsPiece(fs: Fs, lay: Layout, i: nat, x: nat, m: nat)
    requires Inv(fs, lay) && i < |fs.inodes| && x % BSIZE + m <= BSIZE && x + m <= |Contents(fs, i)|
    requires Lookup(fs, i, x / BSIZE) != 0
    ensures Lookup(fs, i, x / BSIZE) < |fs.data|
    ensures Contents(fs, i)[x..x + m] == fs.data[Lookup(fs, i, x / BSIZE)][x % BSIZE..x % BSIZE + m]
  {
    LookupRange(fs, lay, i, x / BSIZE);
    hide Inv, Lookup, FileBlk;
    forall y | x <= y < x + m ensures Contents(fs, i)[y] == FileBlk(fs, i, x / BSIZE)[x % BSIZE + y - x] {
      InBlock(x, y, m);
      SameBlock(x, y);
    }
  }

  function Max(x: nat, y: nat): nat {
    if x < y then y else x
  }

  /** The indirect block of inode i, if there is one. */
  ghost function Indirect(fs: Fs, i: nat): set<nat> {
    {Name(fs, i, NDIRECT)} - {0}
  }

  /** The block of file block bn, if there is one. */
  ghost function At(fs: Fs, i: nat, bn: nat): set<nat> {
    {Lookup(fs, i, bn)} - {0}
  }

  /** What one round of writei may log: file block bn, new blocks with their bitmap blocks, the indirect block. */
  ghost predicate Spent(a: Fs, b: Fs, lay: Layout, i: nat, bn: nat, news: set<nat>, l0: set<nat>, l1: set<nat>) {
    && l1 <= l0 + At(b, i, bn) + BitmapOf(lay, news) + Indirect(b, i)
    && news <= At(b, i, bn) + Indirect(b, i)
    && (Lookup(a, i, bn) != 0 ==> news == {})
    && Indirect(a, i) <= Indirect(b, i)
    && forall m: nat :: Lookup(a, i, m) != 0 ==> Lookup(b, i, m) == Lookup(a, i, m)
  }

  lemma SpentBmap(a: Fs, b: Fs, lay: Layout, i: nat, bn: nat, news: set<nat>, l0: set<nat>, l1: set<nat>)
    requires SameFiles(a, b) && (Lookup(a, i, bn) != 0 ==> news == {})
    requires var ind := Name(a, i, NDIRECT); ind != 0 ==> Name(b, i, NDIRECT) == ind
    requires news <= {Lookup(b, i, bn), Name(b, i, NDIRECT)} - {0}
    requires l1 <= l0 + news + BitmapOf(lay, news) + ({Name(b, i, NDIRECT)} - {0})
    ensures Spent(a, b, lay, i, bn, news, l0, l1)
  {
    hide Name, Lookup, BitmapOf, FileBlk;
  }

  lemma SpentPut(a: Fs, b: Fs, c: Fs, lay: Layout, i: nat, bn: nat, news: set<nat>, l0: set<nat>, l1: set<nat>,
      l2: set<nat>)
    requires Spent(a, b, lay, i, bn, news, l0, l1) && l2 == l1 + {Lookup(b, i, bn)} && Lookup(b, i, bn) != 0
    requires (forall j: nat, m: nat :: Lookup(c, j, m) == Lookup(b, j, m)) && Name(c, i, NDIRECT) == Name(b, i, NDIRECT)
    ensures Spent(a, c, lay, i, bn, news, l0, l2)
  {
    hide Name, Lookup, BitmapOf;
  }

  /** Allocating a block keeps what has been written. */
  lemma MappedWriting(a: Fs, b: Fs, c: Fs, i: nat, off: nat, d: seq<byte>)
    requires Wrote(a, b, i, off, d) && SameFiles(b, c)
    ensures Wrote(a, c, i, off, d)
    ensures |c.inodes| == |b.inodes| && forall j :: 0 <= j < |b.inodes| ==> c.inodes[j].size == b.inodes[j].size
    ensures forall n: nat :: MappedTo(b, i, n) ==> MappedTo(c, i, n)
  {
    WroteNothing(b, c, i, off + |d|);
    WroteMore(a, b, c, i, off, d, []);
    assert d + [] == d;
    hide FileBlk, Lookup;
    forall n: nat | MappedTo(b, i, n) ensures MappedTo(c, i, n) {
    }
  }

  /** Writing inside a block that is there extends what is mapped. */
  lemma MappedMore(b: Fs, c: Fs, i: nat, n: nat, cur: nat, m: nat)
    requires MappedTo(b, i, n) && cur <= n && cur % BSIZE + m <= BSIZE && cur / BSIZE < MAXFILE
    requires (forall j: nat, k: nat :: Lookup(c, j, k) == Lookup(b, j, k)) && Lookup(b, i, cur / BSIZE) != 0
    ensures MappedTo(c, i, Max(n, cur + m))
  {
    hide Lookup;
  }

  lemma FullSame(b: Fs, c: Fs)
    requires Full(b) && c.inodes == b.inodes && forall j: nat, k: nat :: Lookup(c, j, k) == Lookup(b, j, k)
    ensures Full(c)
  {
    hide Lookup;
    forall i | 0 <= i < |c.inodes| ensures MappedTo(c, i, c.inodes[i].size) {
      assert MappedTo(b, i, b.inodes[i].size);
    }
  }

  // ------------------------------------------------------------------
  // How much one writei logs

  /** The number of blocks that bytes off up to end lie in. */
  function Blocks(off: nat, end: nat): nat
    requires off <= end
  {
    (end + BSIZE - 1) / BSIZE - off / BSIZE
  }

  /** Data blocks, new blocks' bitmap blocks, indirect block, its bitmap block, inode. */
  function Cost(off: nat, n: nat): nat {
    2 * Blocks(off, off + n) + 3 - if off % BSIZE != 0 && Blocks(off, off + n) > 0 then 1 else 0
  }

  lemma CostPositive(off: nat, n: nat)
    ensures Cost(off, n) >= 0 && Blocks(off, off + n) >= 0
  {
  }

  /** A chunk of filewrite logs at most ten blocks, and lies in at most four. */
  lemma ChunkCost(off: nat, n: nat)
    requires n <= 3 * BSIZE
    ensures Cost(off, n) <= 10 && Blocks(off, off + n) <= 4
  {
  }

  /** All that has been logged since l0. */
  ghost predicate Budget(fs: Fs, lay: Layout, i: nat, off: nat, touched: set<nat>, news: set<nat>, l0: set<nat>,
      l1: set<nat>) {
    && l1 <= l0 + touched + BitmapOf(lay, news) + Indirect(fs, i)
    && news <= touched + Indirect(fs, i) && (forall b :: b in touched ==> b < lay.size)
    && (off % BSIZE != 0 && touched != {} ==>
       Lookup(fs, i, off / BSIZE) != 0 && Lookup(fs, i, off / BSIZE) in touched - news)
  }

  /** While the loop goes on, a block is touched once and in order. */
  ghost predicate Paced(off: nat, n: nat, cur: nat, touched: set<nat>) {
    && off <= cur <= off + n
    && (if cur == off then touched == {}
       else touched != {} && |touched| <= Blocks(off, cur) && (cur < off + n ==> cur % BSIZE == 0))
  }

  lemma BudgetStart(fs: Fs, lay: Layout, i: nat, off: nat, l: set<nat>)
    ensures Budget(fs, lay, i, off, {}, {}, l, l)
  {
  }

  /** An unaligned start lies in a block that is there. */
  lemma FirstMapped(fs: Fs, i: nat, off: nat)
    requires Full(fs) && i < |fs.inodes| && off <= fs.inodes[i].size
    ensures off % BSIZE != 0 ==> Lookup(fs, i, off / BSIZE) != 0
  {
    if off % BSIZE != 0 {
      SizeMapped(fs, i, off - 1);
      InBlock(off - off % BSIZE, off, BSIZE);
      InBlock(off - off % BSIZE, off - 1, BSIZE);
    }
  }

  /** Different file blocks are different disk blocks, and none is the indirect block. */
  lemma AtApart(fs: Fs, lay: Layout, i: nat, m: nat, n: nat)
    requires Inv(fs, lay) && Lookup(fs, i, m) != 0
    ensures Lookup(fs, i, m) !in Indirect(fs, i)
    ensures m != n ==> Lookup(fs, i, m) !in At(fs, i, n)
  {
    hide Name, Shape, Ranged, Marked;
    assert m < MAXFILE && Lookup(fs, i, m) == Name(fs, i, SlotOf(m));
    assert n < MAXFILE ==> Lookup(fs, i, n) == Name(fs, i, SlotOf(n));
  }

  lemma NameRange(fs: Fs, lay: Layout, i: nat, bn: nat)
    requires Inv(fs, lay)
    ensures (forall b :: b in At(fs, i, bn) ==> b < lay.size) && (forall b :: b in Indirect(fs, i) ==> b < lay.size)
  {
    hide Name;
  }

  lemma BudgetMore(a: Fs, b: Fs, lay: Layout, i: nat, off: nat, n: nat, cur: nat, touched: set<nat>, news: set<nat>,
      more: set<nat>,
                   l0: set<nat>, l1: set<nat>, l2: set<nat>)
    requires Inv(b, lay) && Budget(a, lay, i, off, touched, news, l0, l1)
             && Spent(a, b, lay, i, cur / BSIZE, more, l1, l2)
    requires Paced(off, n, cur, touched) && cur < off + n && (off % BSIZE != 0 ==> Lookup(a, i, off / BSIZE) != 0)
    ensures Budget(b, lay, i, off, touched + At(b, i, cur / BSIZE), news + more, l0, l2)
  {
    hide Inv, Lookup, Name, BitmapOf;
    BitmapSum(lay, news, more);
    NameRange(b, lay, i, cur / BSIZE);
    if off % BSIZE != 0 {
      AtApart(b, lay, i, off / BSIZE, cur / BSIZE);
      if cur == off {
        assert touched == {} && more == {};
      } else {
        assert cur / BSIZE != off / BSIZE;
        assert Lookup(b, i, off / BSIZE) == Lookup(a, i, off / BSIZE);
      }
    }
  }

  lemma PacedMore(off: nat, n: nat, cur: nat, m: nat, touched: set<nat>, one: set<nat>)
    requires Paced(off, n, cur, touched) && cur < off + n && |one| <= 1
    requires m == if off + n - cur < BSIZE - cur % BSIZE then off + n - cur else BSIZE - cur % BSIZE
    ensures one != {} ==> Paced(off, n, cur + m, touched + one)
    ensures |touched + one| <= Blocks(off, off + n)
  {
    SumSize(touched, one);
  }

  lemma SlicePrefix<T>(s: seq<T>, lo: nat, mid: nat, hi: nat)
    requires lo <= mid <= hi <= |s|
    ensures s[lo..mid] <= s[lo..hi]
  {
  }

  lemma SliceJoin<T>(s: seq<T>, lo: nat, mid: nat, hi: nat)
    requires lo <= mid <= hi <= |s|
    ensures s[lo..mid] + s[mid..hi] == s[lo..hi]
  {
  }

  lemma Joined<T>(s: seq<T>, k: nat, m: nat)
    requires k + m <= |s|
    ensures s[..k] + s[k..k + m] == s[..k + m]
  {
  }

  lemma {:induction false} BitmapSize(lay: Layout, S: set<nat>)
    ensures |BitmapOf(lay, S)| <= |S|
    decreases |S|
  {
    if S == {} {
      assert BitmapOf(lay, S) == {};
    } else {
      var b := Pick(S);
      BitmapSize(lay, S - {b});
      BitmapSum(lay, S - {b}, {b});
      assert S - {b} + {b} == S && BitmapOf(lay, {b}) == {lay.BBlock(b)};
    }
  }

  lemma BudgetTotal(fs: Fs, lay: Layout, i: nat, off: nat, n: nat, touched: set<nat>, news: set<nat>, l0: set<nat>,
      l1: set<nat>, inode: nat)
    requires Inv(fs, lay) && Budget(fs, lay, i, off, touched, news, l0, l1) && |touched| <= Blocks(off, off + n)
    ensures |l1 + {inode} - l0| <= Cost(off, n)
    ensures |l1 + {inode} - l0| <= Blocks(off, off + n) + lay.BitmapBlocks() + 2
  {
    var ind, maps := Indirect(fs, i), BitmapOf(lay, news);
    var all := touched + maps + ind + {inode};
    NameRange(fs, lay, i, 0);
    assert l1 + {inode} - l0 <= all;
    SubsetSize(l1 + {inode} - l0, all);
    assert |all| <= |touched| + |maps| + 2 by {
      SumSize(touched, maps);
      SumSize(touched + maps, ind);
      SumSize(touched + maps + ind, {inode});
      IndirectSize(fs, i);
    }
    BitmapSize(lay, news);
    NewsSize(fs, lay, i, off, touched, news, l0, l1);
    MapsSize(lay, news);
  }

  /** There are no more bitmap blocks than the disk has. */
  lemma MapsSize(lay: Layout, news: set<nat>)
    requires forall b :: b in news ==> b < lay.size
    ensures |BitmapOf(lay, news)| <= lay.BitmapBlocks()
  {
    forall x | x in BitmapOf(lay, news) ensures x in Numbers(lay.bmapstart, lay.BitmapBlocks()) {
      var b :| b in news && lay.BBlock(b) == x;
      assert b / BPB < lay.BitmapBlocks();
    }
    SubsetSize(BitmapOf(lay, news), Numbers(lay.bmapstart, lay.BitmapBlocks()));
  }

  ghost function Numbers(start: nat, n: nat): (s: set<nat>)
    ensures |s| == n && forall x: nat :: x in s <==> start <= x < start + n
  {
    if n == 0 then {} else Numbers(start, n - 1) + {start + n - 1}
  }

  lemma IndirectSize(fs: Fs, i: nat)
    ensures |Indirect(fs, i)| <= 1
  {
    SubsetSize(Indirect(fs, i), {Name(fs, i, NDIRECT)});
  }

  lemma NewsSize(fs: Fs, lay: Layout, i: nat, off: nat, touched: set<nat>, news: set<nat>, l0: set<nat>, l1: set<nat>)
    requires Inv(fs, lay) && Budget(fs, lay, i, off, touched, news, l0, l1)
    ensures |news| <= |touched| + 1 - if off % BSIZE != 0 && touched != {} then 1 else 0
  {
    var ind := Indirect(fs, i);
    IndirectSize(fs, i);
    if off % BSIZE != 0 && touched != {} {
      var first := Lookup(fs, i, off / BSIZE);
      AtApart(fs, lay, i, off / BSIZE, off / BSIZE);
      SubsetSize(news, touched - {first} + ind);
      SumSize(touched - {first}, ind);
    } else {
      SubsetSize(news, touched + ind);
      SumSize(touched, ind);
    }
  }

  // ------------------------------------------------------------------
  // The two ends of writei

  lemma WritingBegin(a: Fs, i: nat, off: nat)
    requires Full(a) && i < |a.inodes| && off <= a.inodes[i].size
    ensures Wrote(a, a, i, off, []) && MappedTo(a, i, Max(a.inodes[i].size, off))
  {
    SameRefl(a);
    WroteNothing(a, a, i, off);
  }

  /** writei's update of the size. */
  lemma Resized(a: Fs, b: Fs, c: Fs, lay: Layout, i: nat, off: nat, d: seq<byte>)
    requires Inv(b, lay) && Full(b) && Wrote(a, b, i, off, d) && |b.inodes| == |a.inodes|
    requires i < |a.inodes| && off <= a.inodes[i].size && MappedTo(b, i, Max(a.inodes[i].size, off + |d|))
    requires forall j :: 0 <= j < |b.inodes| ==> b.inodes[j].size == a.inodes[j].size
    requires c == if off + |d| > b.inodes[i].size then b.(inodes := b.inodes[i := b.inodes[i].(size := off + |d|)])
             else b
    ensures Inv(c, lay) && Full(c)
    ensures Contents(c, i) == Splice(Contents(a, i), off, d)
    ensures forall j :: 0 <= j < |c.inodes| && j != i ==> Contents(c, j) == Contents(a, j)
  {
    SizeNames(b, c, lay, i);
    hide Inv, Name;
    SizeFull(b, c, i, Max(a.inodes[i].size, off + |d|));
    WroteSame(a, b, c, i, off, d);
    hide Lookup, FileBlk, Contents, Full, Wrote;
    WroteContents(a, c, i, off, d);
  }

  lemma WroteSame(a: Fs, b: Fs, c: Fs, i: nat, off: nat, d: seq<byte>)
    requires Wrote(a, b, i, off, d) && forall j: nat, m: nat :: FileBlk(c, j, m) == FileBlk(b, j, m)
    ensures Wrote(a, c, i, off, d)
  {
    hide FileBlk;
    assert forall j: nat, x: nat :: ByteOf(c, j, x) == ByteOf(b, j, x);
  }

  lemma SizeNames(b: Fs, c: Fs, lay: Layout, i: nat)
    requires Inv(b, lay) && i < |b.inodes| == |c.inodes|
             && (c == b || c == b.(inodes := b.inodes[i := b.inodes[i].(size := c.inodes[i].size)]))
    ensures Inv(c, lay) && forall j: nat, l: nat :: Name(c, j, l) == Name(b, j, l)
  {
    if c != b {
      SameNames(b, c, lay);
    }
  }

  lemma SizeFull(b: Fs, c: Fs, i: nat, n: nat)
    requires Full(b) && MappedTo(b, i, n) && |c.inodes| == |b.inodes| && i < |b.inodes| && c.inodes[i].size <= n
    requires forall j :: 0 <= j < |b.inodes| && j != i ==> c.inodes[j].size == b.inodes[j].size
    requires c.data == b.data && forall j: nat, l: nat :: Name(c, j, l) == Name(b, j, l)
    ensures Full(c) && forall j: nat, m: nat :: FileBlk(c, j, m) == FileBlk(b, j, m)
  {
    hide Name;
    assert forall j: nat, m: nat :: Lookup(c, j, m) == Lookup(b, j, m);
    forall j | 0 <= j < |c.inodes| ensures MappedTo(c, j, c.inodes[j].size) {
      assert MappedTo(b, j, b.inodes[j].size);
    }
  }

  // ------------------------------------------------------------------
  // itrunc

  /** The bits of the blocks that slots P of inode i named are clear, the others as before. */
  ghost predicate Cleared(a: Fs, bits: seq<seq<bool>>, i: nat, P: set<nat>) {
    forall c: nat :: Bit(bits, c) <==> Bit(a.bits, c) && c !in Named(a, i, P)
  }

  ghost predicate Zeroed(a: seq<nat>, b: seq<nat>, z: nat) {
    |a| == |b| && forall k :: 0 <= k < |b| ==> b[k] == if k < z then 0 else a[k]
  }

  lemma NamedMore(a: Fs, i: nat, P: set<nat>, k: nat)
    ensures Named(a, i, P + {k}) == if Name(a, i, k) != 0 then Named(a, i, P) + {Name(a, i, k)} else Named(a, i, P)
  {
    hide Name;
    var Q := P + {k};
    forall b | b in Named(a, i, P) ensures b in Named(a, i, Q) {
      var l :| l in P && Name(a, i, l) != 0 && Name(a, i, l) == b;
      assert l in Q;
    }
    if Name(a, i, k) != 0 {
      assert k in Q && Name(a, i, k) in Named(a, i, Q);
    }
  }

  lemma BitmapOne(lay: Layout, b: nat)
    ensures BitmapOf(lay, {b}) == {lay.BBlock(b)}
  {
  }

  /** A block that has not been freed yet still has its bit, since no other slot names it. */
  lemma StillMarked(a: Fs, lay: Layout, bits: seq<seq<bool>>, i: nat, P: set<nat>, k: nat)
    requires Inv(a, lay) && Cleared(a, bits, i, P) && k !in P && Name(a, i, k) != 0
    ensures Name(a, i, k) < lay.size && Bit(bits, Name(a, i, k))
  {
    hide Name, Bit, Shape;
    var b := Name(a, i, k);
    assert Taken(a, b) && Bit(a.bits, b);
    assert b !in Named(a, i, P);
  }

  lemma ClearedMore(a: Fs, bits: seq<seq<bool>>, bits': seq<seq<bool>>, i: nat, P: set<nat>, k: nat)
    requires Cleared(a, bits, i, P)
    requires var b := Name(a, i, k);
             if b == 0 then bits' == bits else forall c: nat :: Bit(bits', c) == if c == b then false else Bit(bits, c)
    ensures Cleared(a, bits', i, P + {k})
  {
    NamedMore(a, i, P, k);
    hide Name, Bit, Named;
  }

  lemma EntriesNone(a: Fs, i: nat)
    requires Name(a, i, NDIRECT) == 0
    ensures forall k: nat :: k >= NDIRECT ==> Name(a, i, k) == 0
  {
  }

  lemma SlotsBelow()
    ensures forall k: nat :: k in Below(NDIRECT) ==> k in AllSlots()
  {
    hide Below;
  }

  lemma ClearedSame(a: Fs, bits: seq<seq<bool>>, i: nat, P: set<nat>, Q: set<nat>)
    requires Cleared(a, bits, i, P) && Named(a, i, P) == Named(a, i, Q)
    ensures Cleared(a, bits, i, Q)
  {
    hide Named, Bit;
  }

  lemma NoEntryNames(a: Fs, i: nat)
    requires Name(a, i, NDIRECT) == 0
    ensures Named(a, i, AllSlots()) == Named(a, i, Below(NDIRECT))
  {
    hide Name, Below, AllSlots;
    EntriesNone(a, i);
    SlotsBelow();
    forall b | b in Named(a, i, AllSlots()) ensures b in Named(a, i, Below(NDIRECT)) {
      var k :| k in AllSlots() && Name(a, i, k) != 0 && Name(a, i, k) == b;
      assert k < NDIRECT;
    }
    forall b | b in Named(a, i, Below(NDIRECT)) ensures b in Named(a, i, AllSlots()) {
      var k :| k in Below(NDIRECT) && Name(a, i, k) != 0 && Name(a, i, k) == b;
      assert k in AllSlots();
    }
  }

  lemma TruncEmptied(a: Fs, b: Fs, lay: Layout, i: nat)
    requires Shape(b, lay) && b.data == a.data && |b.inodes| == |a.inodes| && i < |a.inodes|
    requires forall k :: 0 <= k <= NDIRECT ==> b.inodes[i].addrs[k] == 0
    requires forall j :: 0 <= j < |a.inodes| && j != i ==> b.inodes[j] == a.inodes[j]
    requires Cleared(a, b.bits, i, AllSlots())
    ensures Emptied(a, b, i)
  {
    hide Bit, Named, AllSlots;
    assert forall j: nat, l: nat :: Name(b, j, l) == if j == i then 0 else Name(a, j, l);
  }

  lemma EmptiedNames(a: Fs, b: Fs, i: nat)
    requires Emptied(a, b, i)
    ensures forall k: nat :: Name(b, i, k) == 0
  {
    hide Name, Bit, Named;
  }

  lemma TruncDone(a: Fs, b: Fs, lay: Layout, i: nat)
    requires Inv(a, lay) && Full(a) && Shape(b, lay) && b.data == a.data && |b.inodes| == |a.inodes| && i < |a.inodes|
    requires b.inodes[i] == Inode(0, b.inodes[i].addrs) && (forall k :: 0 <= k <= NDIRECT ==> b.inodes[i].addrs[k] == 0)
    requires forall j :: 0 <= j < |a.inodes| && j != i ==> b.inodes[j] == a.inodes[j]
    requires Cleared(a, b.bits, i, AllSlots())
    ensures Inv(b, lay) && Full(b) && Contents(b, i) == [] && forall k: nat :: Name(b, i, k) == 0
    ensures forall j :: 0 <= j < |a.inodes| && j != i ==> Contents(b, j) == Contents(a, j)
  {
    hide Name, Bit, Inv, Lookup, FileBlk, Shape, Cleared, Named, Full, Contents, Emptied, AllSlots;
    TruncEmptied(a, b, lay, i);
    EmptiedInv(a, b, lay, i);
    EmptiedFiles(a, b, i);
    EmptiedNames(a, b, i);
    EmptiedFull(a, b, i);
    EmptiedContents(a, b, i);
  }

  lemma EmptiedFull(a: Fs, b: Fs, i: nat)
    requires Full(a) && |b.inodes| == |a.inodes| && i < |a.inodes| && b.inodes[i].size == 0
    requires forall j :: 0 <= j < |a.inodes| && j != i ==> b.inodes[j] == a.inodes[j]
    requires forall j: nat, bn: nat :: j != i ==> Lookup(b, j, bn) == Lookup(a, j, bn)
    ensures Full(b)
  {
    hide Lookup;
    forall j | 0 <= j < |b.inodes| ensures MappedTo(b, j, b.inodes[j].size) {
      assert MappedTo(a, j, a.inodes[j].size);
    }
  }

  lemma EmptiedContents(a: Fs, b: Fs, i: nat)
    requires |b.inodes| == |a.inodes| && i < |a.inodes| && b.inodes[i].size == 0
    requires forall j :: 0 <= j < |a.inodes| && j != i ==> b.inodes[j] == a.inodes[j]
    requires forall j: nat, bn: nat :: j != i ==> FileBlk(b, j, bn) == FileBlk(a, j, bn)
    ensures Contents(b, i) == [] && forall j :: 0 <= j < |a.inodes| && j != i ==> Contents(b, j) == Contents(a, j)
  {
    hide FileBlk;
    forall j | 0 <= j < |a.inodes| && j != i ensures Contents(b, j) == Contents(a, j) {
    }
  }

  // ------------------------------------------------------------------
  // Pieces of a write

  lemma SpliceNothing(c: seq<byte>, off: nat)
    ensures off <= |c| ==> Splice(c, off, []) == c
  {
  }

  lemma SpliceAt(c: seq<byte>, off: nat, d: seq<byte>)
    requires off <= |c|
    ensures var s := Splice(c, off, d);
            && |s| == (if off + |d| > |c| then off + |d| else |c|)
            && forall x: nat :: x < |s| ==> s[x] == if off <= x < off + |d| then d[x - off] else c[x]
  {
  }

  lemma SpliceMore(c: seq<byte>, off: nat, src: seq<byte>, w: nat, r: nat)
    requires w + r <= |src|
    ensures off <= |c| ==>
              && off + w <= |Splice(c, off, src[..w])|
              && Splice(Splice(c, off, src[..w]), off + w, src[w..w + r]) == Splice(c, off, src[..w + r])
  {
    hide Splice;
    if off <= |c| {
      SpliceAt(c, off, src[..w]);
      SpliceAt(Splice(c, off, src[..w]), off + w, src[w..w + r]);
      SpliceAt(c, off, src[..w + r]);
    }
  }
}
