/**
 The on-disk form of files (kernel/fs.h, kernel/fs.c): 1024-byte blocks, a bitmap, and
 inodes with twelve direct block numbers and one indirect block of 256 more.
 */
module BlockMap {
  import opened Sets

  const BSIZE: nat := 1024
  const NDIRECT: nat := 12
  const NINDIRECT: nat := 256
  const MAXFILE: nat := 268         // NDIRECT + NINDIRECT
  const SLOTS: nat := 269           // NDIRECT, the indirect pointer, NINDIRECT
  const BPB: nat := 8192            // bitmap bits per block
  const IPB: nat := 16              // inodes per block
  const UINT: nat := 0x1_0000_0000

  type byte = x: int | 0 <= x < 256

  type Blk = b: seq<byte> | |b| == BSIZE witness seq(BSIZE, _ => 0)

  function Zero(): Blk {
    seq(BSIZE, _ => 0)
  }

  // ------------------------------------------------------------------
  // Block numbers in an indirect block: little-endian 32-bit words

  function Word(b: Blk, j: nat): nat
    requires j < NINDIRECT
  {
    var w0: int, w1: int, w2: int, w3: int := b[4 * j], b[4 * j + 1], b[4 * j + 2], b[4 * j + 3];
    w0 + 0x100 * w1 + 0x1_0000 * w2 + 0x100_0000 * w3
  }

  function SetWord(b: Blk, j: nat, w: nat): Blk
    requires j < NINDIRECT
  {
    b[4 * j := w % 0x100][4 * j + 1 := w / 0x100 % 0x100]
     [4 * j + 2 := w / 0x1_0000 % 0x100][4 * j + 3 := w / 0x100_0000 % 0x100]
  }

  lemma WordSet(b: Blk, j: nat, w: nat, k: nat)
    requires j < NINDIRECT && k < NINDIRECT && w < UINT
    ensures Word(SetWord(b, j, w), k) == if k == j then w else Word(b, k)
  {
    Digits(w);
  }

  lemma Digits(w: nat)
    requires w < UINT
    ensures w % 0x100 + 0x100 * (w / 0x100 % 0x100) + 0x1_0000 * (w / 0x1_0000 % 0x100)
            + 0x100_0000 * (w / 0x100_0000 % 0x100) == w
  {
    assert w / 0x1_0000 == w / 0x100 / 0x100 && w / 0x100_0000 == w / 0x1_0000 / 0x100;
  }

  lemma ZeroWord(j: nat)
    requires j < NINDIRECT
    ensures Word(Zero(), j) == 0
  {
  }

  // ------------------------------------------------------------------
  // State

  datatype Inode = Inode(size: nat, addrs: seq<nat>)

  /** Block counts and where things start. */
  datatype Layout = Layout(size: nat, start: nat, bmapstart: nat, inodestart: nat) {
    predicate Good() {
      0 < start <= size < UINT
    }

    /** The bitmap block that has b's bit. */
    function BBlock(b: nat): nat {
      b / BPB + bmapstart
    }

    function IBlock(i: nat): nat {
      i / IPB + inodestart
    }

    /** How many blocks the bitmap takes. */
    function BitmapBlocks(): nat {
      (size + BPB - 1) / BPB
    }
  }

  datatype Fs = Fs(bits: seq<seq<bool>>, data: seq<Blk>, inodes: seq<Inode>)

  function Bit(bits: seq<seq<bool>>, b: nat): bool {
    b / BPB < |bits| && |bits[b / BPB]| == BPB && bits[b / BPB][b % BPB]
  }

  function SetBit(bits: seq<seq<bool>>, b: nat, v: bool): seq<seq<bool>>
    requires b / BPB < |bits| && |bits[b / BPB]| == BPB
  {
    bits[b / BPB := bits[b / BPB][b % BPB := v]]
  }

  lemma BitSet(bits: seq<seq<bool>>, b: nat, v: bool, c: nat)
    requires b / BPB < |bits| && |bits[b / BPB]| == BPB
    ensures Bit(SetBit(bits, b, v), c) == if c == b then v else Bit(bits, c)
  {
  }

  /** The bitmap has a bit for every block. */
  predicate BitsOk(bits: seq<seq<bool>>, size: nat) {
    (forall k :: 0 <= k < |bits| ==> |bits[k]| == BPB) && size <= |bits| * BPB
  }

  lemma BitsIndex(bits: seq<seq<bool>>, size: nat, b: nat)
    requires BitsOk(bits, size) && b < size
    ensures b / BPB < |bits| && |bits[b / BPB]| == BPB
  {
  }

  predicate Shape(fs: Fs, lay: Layout) {
    && lay.Good() && BitsOk(fs.bits, lay.size) && |fs.data| == lay.size
    && forall i :: 0 <= i < |fs.inodes| ==> |fs.inodes[i].addrs| == NDIRECT + 1
  }

  /**
   The block that slot k of inode i names, 0 if none: the direct slots, the indirect
   pointer, then the entries of the indirect block.
   */
  function Name(fs: Fs, i: nat, k: nat): nat {
    if i >= |fs.inodes| || |fs.inodes[i].addrs| != NDIRECT + 1 || k >= SLOTS then 0
    else
      var a := fs.inodes[i].addrs;
      if k <= NDIRECT then a[k]
      else if a[NDIRECT] == 0 || a[NDIRECT] >= |fs.data| then 0
      else Word(fs.data[a[NDIRECT]], k - NDIRECT - 1)
  }

  /** The slot of file block bn. */
  function SlotOf(bn: nat): nat {
    if bn < NDIRECT then bn else bn + 1
  }

  function Lookup(fs: Fs, i: nat, bn: nat): nat {
    if bn < MAXFILE then Name(fs, i, SlotOf(bn)) else 0
  }

  ghost predicate Taken(fs: Fs, b: nat) {
    exists i: nat, k: nat :: Name(fs, i, k) == b
  }

  /** Every name is a data block. */
  ghost predicate Ranged(fs: Fs, lay: Layout) {
    forall i: nat, k: nat :: Name(fs, i, k) == 0 || lay.start <= Name(fs, i, k) < lay.size
  }

  /** No block is named twice. */
  ghost predicate Unique(fs: Fs) {
    forall i: nat, k: nat, j: nat, l: nat :: Name(fs, i, k) != 0 && Name(fs, i, k) == Name(fs, j, l) ==>
      i == j && k == l
  }

  /** A bit is set exactly for the blocks before the data area and the data blocks that some slot names. */
  ghost predicate Marked(fs: Fs, lay: Layout) {
    forall b: nat :: b < lay.size ==> (Bit(fs.bits, b) <==> b < lay.start || Taken(fs, b))
  }

  ghost predicate Inv(fs: Fs, lay: Layout) {
    Shape(fs, lay) && Ranged(fs, lay) && Unique(fs) && Marked(fs, lay)
  }

  // ------------------------------------------------------------------
  // Files

  /** File block bn of inode i; a missing block reads as zeros. */
  function FileBlk(fs: Fs, i: nat, bn: nat): Blk {
    var a := Lookup(fs, i, bn);
    if a == 0 || a >= |fs.data| then Zero() else fs.data[a]
  }

  function ByteOf(fs: Fs, i: nat, x: nat): byte {
    FileBlk(fs, i, x / BSIZE)[x % BSIZE]
  }

  /** Every block below n is there. */
  ghost predicate MappedTo(fs: Fs, i: nat, n: nat) {
    n <= MAXFILE * BSIZE && forall bn: nat :: bn * BSIZE < n ==> Lookup(fs, i, bn) != 0
  }

  ghost predicate Full(fs: Fs) {
    forall i :: 0 <= i < |fs.inodes| ==> MappedTo(fs, i, fs.inodes[i].size)
  }

  function Contents(fs: Fs, i: nat): seq<byte>
    requires i < |fs.inodes|
  {
    seq(fs.inodes[i].size, x requires x >= 0 => ByteOf(fs, i, x))
  }

  /** No file's bytes changed, and no mapped block moved. */
  ghost predicate SameFiles(a: Fs, b: Fs) {
    && |b.inodes| == |a.inodes| && |b.data| == |a.data|
    && (forall i :: 0 <= i < |a.inodes| ==> b.inodes[i].size == a.inodes[i].size)
    && (forall i: nat, bn: nat :: FileBlk(b, i, bn) == FileBlk(a, i, bn))
    && (forall i: nat, bn: nat :: Lookup(a, i, bn) != 0 ==> Lookup(b, i, bn) == Lookup(a, i, bn))
  }

  // ------------------------------------------------------------------
  // Giving a free block to an empty slot

  /** b differs from a only in that slot (i, k) names the block n. */
  ghost predicate Renamed(a: Fs, b: Fs, i: nat, k: nat, n: nat) {
    forall j: nat, l: nat :: Name(b, j, l) == if j == i && l == k then n else Name(a, j, l)
  }

  /** The bitmap changed at block n only. */
  ghost predicate Remarked(a: Fs, b: Fs, n: nat, v: bool) {
    forall c: nat :: Bit(b.bits, c) == if c == n then v else Bit(a.bits, c)
  }

  lemma AttachInv(a: Fs, b: Fs, lay: Layout, i: nat, k: nat, n: nat)
    requires Inv(a, lay) && Shape(b, lay) && Renamed(a, b, i, k, n) && Remarked(a, b, n, true)
    requires Name(a, i, k) == 0 && n < lay.size && !Bit(a.bits, n)
    ensures Inv(b, lay)
  {
    hide Name, Bit, Shape;
    StartPositive(a, lay);
    assert n >= lay.start && !Taken(a, n) by {
      FreeBlock(a, lay, n);
    }
    assert Unique(b) by {
      AttachUnique(a, b, i, k, n);
    }
    forall c: nat | c < lay.size ensures Bit(b.bits, c) <==> c < lay.start || Taken(b, c) {
      AttachTaken(a, b, i, k, n, c);
    }
  }

  lemma FreeBlock(a: Fs, lay: Layout, n: nat)
    requires Inv(a, lay) && n < lay.size && !Bit(a.bits, n)
    ensures n >= lay.start && !Taken(a, n)
  {
  }

  lemma AttachUnique(a: Fs, b: Fs, i: nat, k: nat, n: nat)
    requires Unique(a) && Renamed(a, b, i, k, n) && !Taken(a, n)
    ensures Unique(b)
  {
    hide Name;
  }

  lemma AttachTaken(a: Fs, b: Fs, i: nat, k: nat, n: nat, c: nat)
    requires Renamed(a, b, i, k, n) && Name(a, i, k) == 0 && n > 0
    ensures c > 0 ==> (Taken(b, c) <==> c == n || Taken(a, c))
  {
    hide Name;
    if c > 0 && Taken(a, c) {
      var j: nat, l: nat :| Name(a, j, l) == c;
      assert Name(b, j, l) == c;
    }
    assert Name(b, i, k) == n;
  }

  /** balloc's effect: block n is marked and zeroed. */
  function Claimed(fs: Fs, n: nat): Fs
    requires n < |fs.data| && n / BPB < |fs.bits| && |fs.bits[n / BPB]| == BPB
  {
    fs.(bits := SetBit(fs.bits, n, true), data := fs.data[n := Zero()])
  }

  function WithAddr(fs: Fs, i: nat, k: nat, n: nat): Fs
    requires i < |fs.inodes| && k < |fs.inodes[i].addrs|
  {
    fs.(inodes := fs.inodes[i := fs.inodes[i].(addrs := fs.inodes[i].addrs[k := n])])
  }

  function WithEntry(fs: Fs, i: nat, j: nat, n: nat): Fs
    requires i < |fs.inodes| && |fs.inodes[i].addrs| == NDIRECT + 1 && fs.inodes[i].addrs[NDIRECT] < |fs.data|
             && j < NINDIRECT
  {
    var ind := fs.inodes[i].addrs[NDIRECT];
    fs.(data := fs.data[ind := SetWord(fs.data[ind], j, n)])
  }

  lemma ClaimShape(fs: Fs, lay: Layout, n: nat)
    requires Shape(fs, lay) && n < lay.size
    ensures n / BPB < |fs.bits| && |fs.bits[n / BPB]| == BPB && Shape(Claimed(fs, n), lay)
    ensures Remarked(fs, Claimed(fs, n), n, true)
  {
    BitsIndex(fs.bits, lay.size, n);
    forall c: nat ensures Bit(Claimed(fs, n).bits, c) == if c == n then true else Bit(fs.bits, c) {
      BitSet(fs.bits, n, true, c);
    }
  }

  /** The indirect pointer of an inode is a name of its own. */
  lemma IndirectName(fs: Fs, i: nat)
    requires i < |fs.inodes| && |fs.inodes[i].addrs| == NDIRECT + 1
    ensures Name(fs, i, NDIRECT) == fs.inodes[i].addrs[NDIRECT]
  {
  }

  /** Claiming an unnamed block changes no name. */
  lemma ClaimNames(fs: Fs, lay: Layout, n: nat)
    requires Inv(fs, lay) && n < lay.size && !Bit(fs.bits, n)
    requires n / BPB < |fs.bits| && |fs.bits[n / BPB]| == BPB
    ensures forall j: nat, l: nat :: Name(Claimed(fs, n), j, l) == Name(fs, j, l)
  {
    FreeBlock(fs, lay, n);
    forall j: nat, l: nat ensures Name(Claimed(fs, n), j, l) == Name(fs, j, l) {
      assert Name(fs, j, NDIRECT) != n;
    }
  }

  lemma AddrNames(fs: Fs, lay: Layout, i: nat, k: nat, n: nat)
    requires Shape(fs, lay) && i < |fs.inodes| && k <= NDIRECT && 0 < n < lay.size
    requires k == NDIRECT ==> Name(fs, i, NDIRECT) == 0 && fs.data[n] == Zero()
    ensures Shape(WithAddr(fs, i, k, n), lay) && Renamed(fs, WithAddr(fs, i, k, n), i, k, n)
  {
    var b := WithAddr(fs, i, k, n);
    forall j: nat, l: nat ensures Name(b, j, l) == if j == i && l == k then n else Name(fs, j, l) {
      if j == i && NDIRECT < l < SLOTS {
        ZeroWord(l - NDIRECT - 1);
      }
    }
  }

  lemma EntryNames(fs: Fs, lay: Layout, i: nat, j: nat, n: nat)
    requires Shape(fs, lay) && Unique(fs) && i < |fs.inodes| && j < NINDIRECT && n < lay.size
    requires 0 < fs.inodes[i].addrs[NDIRECT] < lay.size
    ensures Shape(WithEntry(fs, i, j, n), lay) && Renamed(fs, WithEntry(fs, i, j, n), i, NDIRECT + 1 + j, n)
  {
    var b := WithEntry(fs, i, j, n);
    forall p: nat, l: nat ensures Name(b, p, l) == if p == i && l == NDIRECT + 1 + j then n else Name(fs, p, l) {
      if p < |fs.inodes| && NDIRECT < l < SLOTS {
        IndirectName(fs, i);
        IndirectName(fs, p);
        WordSet(fs.data[fs.inodes[i].addrs[NDIRECT]], j, n, l - NDIRECT - 1);
      }
    }
  }

  /** The data of every block but n and the indirect block of i is the same, and n is zeroed. */
  ghost predicate DataKept(a: Fs, b: Fs, i: nat, n: nat) {
    && |b.data| == |a.data| && n < |a.data| && b.data[n] == Zero()
    && |b.inodes| == |a.inodes| && (forall j :: 0 <= j < |a.inodes| ==> b.inodes[j].size == a.inodes[j].size)
    && forall c: nat :: c < |a.data| && c != n && c != Name(a, i, NDIRECT) ==> b.data[c] == a.data[c]
  }

  lemma FilesKept(a: Fs, b: Fs, lay: Layout, i: nat, k: nat, n: nat)
    requires Inv(a, lay) && Renamed(a, b, i, k, n) && Name(a, i, k) == 0 && !Taken(a, n) && n > 0
             && DataKept(a, b, i, n)
    ensures SameFiles(a, b)
  {
    hide Inv, Ranged, Marked, Shape;
    forall j: nat, bn: nat
      ensures FileBlk(b, j, bn) == FileBlk(a, j, bn) && (Lookup(a, j, bn) != 0 ==> Lookup(b, j, bn) == Lookup(a, j, bn))
    {
      FileKept(a, b, lay, i, k, n, j, bn);
    }
  }

  lemma FileKept(a: Fs, b: Fs, lay: Layout, i: nat, k: nat, n: nat, j: nat, bn: nat)
    requires Inv(a, lay) && Renamed(a, b, i, k, n) && Name(a, i, k) == 0 && !Taken(a, n) && n > 0
             && DataKept(a, b, i, n)
    ensures FileBlk(b, j, bn) == FileBlk(a, j, bn) && (Lookup(a, j, bn) != 0 ==> Lookup(b, j, bn) == Lookup(a, j, bn))
  {
    hide Name, Ranged, Marked, Shape;
    if bn < MAXFILE {
      var l := SlotOf(bn);
      assert Name(b, j, l) == if j == i && l == k then n else Name(a, j, l);
      assert Name(a, j, l) != n;
      assert Name(a, j, l) != 0 ==> Name(a, j, l) != Name(a, i, NDIRECT);
    }
  }

  /** A direct slot, or the indirect pointer, gets a new block. */
  lemma AttachAddr(a: Fs, lay: Layout, i: nat, k: nat, n: nat)
    requires Inv(a, lay) && i < |a.inodes| && k <= NDIRECT && Name(a, i, k) == 0 && n < lay.size && !Bit(a.bits, n)
    ensures n / BPB < |a.bits| && |a.bits[n / BPB]| == BPB && n >= lay.start > 0
    ensures var b := WithAddr(Claimed(a, n), i, k, n); Inv(b, lay) && SameFiles(a, b) && Renamed(a, b, i, k, n)
  {
    ClaimShape(a, lay, n);
    FreeBlock(a, lay, n);
    ClaimNames(a, lay, n);
    var c := Claimed(a, n);
    AddrNames(c, lay, i, k, n);
    var b := WithAddr(c, i, k, n);
    hide Name, Bit, Shape, Ranged, Marked, SameFiles;
    assert Renamed(a, b, i, k, n);
    AttachInv(a, b, lay, i, k, n);
    FilesKept(a, b, lay, i, k, n);
  }

  /** An entry of the indirect block gets a new block. */
  lemma AttachEntry(a: Fs, lay: Layout, i: nat, j: nat, n: nat)
    requires Inv(a, lay) && i < |a.inodes| && j < NINDIRECT && n < lay.size && !Bit(a.bits, n)
    requires Name(a, i, NDIRECT) != 0 && Name(a, i, NDIRECT + 1 + j) == 0
    ensures n / BPB < |a.bits| && |a.bits[n / BPB]| == BPB && n >= lay.start > 0
    ensures |a.inodes[i].addrs| == NDIRECT + 1 && a.inodes[i].addrs[NDIRECT] == Name(a, i, NDIRECT) < lay.size
    ensures var b := WithEntry(Claimed(a, n), i, j, n);
            Inv(b, lay) && SameFiles(a, b) && Renamed(a, b, i, NDIRECT + 1 + j, n)
  {
    ClaimShape(a, lay, n);
    FreeBlock(a, lay, n);
    ClaimNames(a, lay, n);
    IndirectName(a, i);
    var c := Claimed(a, n);
    assert Unique(c) by {
      hide Name;
    }
    EntryNames(c, lay, i, j, n);
    var b := WithEntry(c, i, j, n);
    assert Name(a, i, NDIRECT) != n;
    hide Name, Bit, Shape, Ranged, Marked, SameFiles;
    assert Renamed(a, b, i, NDIRECT + 1 + j, n);
    AttachInv(a, b, lay, i, NDIRECT + 1 + j, n);
    FilesKept(a, b, lay, i, NDIRECT + 1 + j, n);
  }

  // ------------------------------------------------------------------
  // Writing file data

  function PutBlk(fs: Fs, addr: nat, blk: Blk): Fs
    requires addr < |fs.data|
  {
    fs.(data := fs.data[addr := blk])
  }

  /** Writing a block that holds file data changes no name. */
  lemma PutNames(a: Fs, lay: Layout, i: nat, bn: nat, blk: Blk)
    requires Inv(a, lay) && Lookup(a, i, bn) != 0
    ensures Lookup(a, i, bn) < |a.data|
    ensures forall j: nat, l: nat :: Name(PutBlk(a, Lookup(a, i, bn), blk), j, l) == Name(a, j, l)
  {
    var addr := Lookup(a, i, bn);
    assert addr == Name(a, i, SlotOf(bn));
    forall j: nat, l: nat ensures Name(PutBlk(a, addr, blk), j, l) == Name(a, j, l) {
      assert Name(a, j, NDIRECT) != addr;
    }
  }

  lemma PutKeeps(a: Fs, lay: Layout, i: nat, bn: nat, blk: Blk)
    requires Inv(a, lay) && Lookup(a, i, bn) != 0
    ensures Lookup(a, i, bn) < |a.data|
    ensures var b := PutBlk(a, Lookup(a, i, bn), blk);
            && Inv(b, lay)
            && (forall j: nat, m: nat :: Lookup(b, j, m) == Lookup(a, j, m))
            && (forall j: nat, m: nat :: FileBlk(b, j, m) == if j == i && m == bn then blk else FileBlk(a, j, m))
  {
    PutNames(a, lay, i, bn, blk);
    var b := PutBlk(a, Lookup(a, i, bn), blk);
    SameNames(a, b, lay);
    hide Name;
    forall j: nat, m: nat ensures FileBlk(b, j, m) == if j == i && m == bn then blk else FileBlk(a, j, m) {
      assert Lookup(b, j, m) == Lookup(a, j, m);
      assert Lookup(a, j, m) == Lookup(a, i, bn) ==> j == i && SlotOf(m) == SlotOf(bn);
    }
  }

  /** The invariant depends only on the names, the bitmap and the shape. */
  lemma SameNames(a: Fs, b: Fs, lay: Layout)
    requires Inv(a, lay) && Shape(b, lay) && b.bits == a.bits
    requires forall j: nat, l: nat :: Name(b, j, l) == Name(a, j, l)
    ensures Inv(b, lay)
  {
    hide Name, Bit, Shape;
    forall c: nat ensures Taken(b, c) <==> Taken(a, c) {
      if Taken(a, c) {
        var j: nat, l: nat :| Name(a, j, l) == c;
        assert Name(b, j, l) == c;
      }
    }
  }

  /** From a to b exactly the bytes of file i from off on became d. */
  ghost predicate Wrote(a: Fs, b: Fs, i: nat, off: nat, d: seq<byte>) {
    forall j: nat, x: nat :: ByteOf(b, j, x) == if j == i && off <= x < off + |d| then d[x - off] else ByteOf(a, j, x)
  }

  lemma WroteNothing(a: Fs, b: Fs, i: nat, off: nat)
    requires SameFiles(a, b)
    ensures Wrote(a, b, i, off, [])
  {
    hide FileBlk, Lookup;
  }

  lemma WroteMore(a: Fs, b: Fs, c: Fs, i: nat, off: nat, d: seq<byte>, e: seq<byte>)
    requires Wrote(a, b, i, off, d) && Wrote(b, c, i, off + |d|, e)
    ensures Wrote(a, c, i, off, d + e)
  {
    hide ByteOf;
  }

  function Patched(b: Blk, off: nat, d: seq<byte>): Blk
    requires off + |d| <= BSIZE
  {
    b[..off] + d + b[off + |d|..]
  }

  lemma SameBlock(off: nat, x: nat)
    requires x / BSIZE == off / BSIZE
    ensures x - off == x % BSIZE - off % BSIZE
  {
  }

  lemma InBlock(off: nat, x: nat, n: nat)
    requires off <= x < off + n && off % BSIZE + n <= BSIZE
    ensures x / BSIZE == off / BSIZE
  {
  }

  lemma PutWrote(a: Fs, b: Fs, i: nat, off: nat, d: seq<byte>)
    requires off % BSIZE + |d| <= BSIZE
    requires forall j: nat, m: nat ::
               FileBlk(b, j, m) ==
               if j == i && m == off / BSIZE then Patched(FileBlk(a, i, off / BSIZE), off % BSIZE, d)
               else FileBlk(a, j, m)
    ensures Wrote(a, b, i, off, d)
  {
    hide FileBlk;
    forall j: nat, x: nat ensures ByteOf(b, j, x) ==
      if j == i && off <= x < off + |d| then d[x - off] else ByteOf(a, j, x) {
      assert off <= x < off + |d| ==> x / BSIZE == off / BSIZE by {
        if off <= x < off + |d| {
          InBlock(off, x, |d|);
        }
      }
      if x / BSIZE == off / BSIZE {
        SameBlock(off, x);
      }
    }
  }

  /** c with d over it from off on. */
  function Splice(c: seq<byte>, off: nat, d: seq<byte>): seq<byte>
    requires off <= |c|
  {
    if off + |d| <= |c| then c[..off] + d + c[off + |d|..] else c[..off] + d
  }

  lemma WroteContents(a: Fs, b: Fs, i: nat, off: nat, d: seq<byte>)
    requires Wrote(a, b, i, off, d) && |b.inodes| == |a.inodes| && i < |a.inodes| && off <= a.inodes[i].size
    requires forall j :: 0 <= j < |a.inodes| ==>
               b.inodes[j].size == if j == i && off + |d| > a.inodes[i].size then off + |d| else a.inodes[j].size
    ensures Contents(b, i) == Splice(Contents(a, i), off, d)
    ensures forall j :: 0 <= j < |a.inodes| && j != i ==> Contents(b, j) == Contents(a, j)
  {
    hide ByteOf;
    forall j | 0 <= j < |a.inodes| && j != i ensures Contents(b, j) == Contents(a, j) {
    }
  }

  // ------------------------------------------------------------------
  // Truncation

  /** The blocks that slots P of inode i name. */
  ghost function Named(fs: Fs, i: nat, P: set<nat>): set<nat> {
    set k | k in P && Name(fs, i, k) != 0 :: Name(fs, i, k)
  }

  ghost function AllSlots(): set<nat> {
    Below(SLOTS)
  }

  /** Everything inode i names has been freed and forgotten. */
  ghost predicate Emptied(a: Fs, b: Fs, i: nat) {
    && b.data == a.data
    && (forall j: nat, l: nat :: Name(b, j, l) == if j == i then 0 else Name(a, j, l))
    && (forall c: nat :: Bit(b.bits, c) <==> Bit(a.bits, c) && c !in Named(a, i, AllSlots()))
  }

  lemma EmptiedInv(a: Fs, b: Fs, lay: Layout, i: nat)
    requires Inv(a, lay) && Shape(b, lay) && Emptied(a, b, i)
    ensures Inv(b, lay)
  {
    hide Name, Bit, Shape, AllSlots, Named;
    StartPositive(a, lay);
    SlotsOnly(a, i);
    forall c: nat | c < lay.size ensures Bit(b.bits, c) <==> c < lay.start || Taken(b, c) {
      EmptiedTaken(a, b, lay, i, c);
    }
  }

  lemma StartPositive(a: Fs, lay: Layout)
    requires Shape(a, lay)
    ensures lay.start > 0
  {
  }

  lemma SlotsOnly(a: Fs, i: nat)
    ensures forall l: nat :: Name(a, i, l) != 0 ==> l in AllSlots()
  {
    hide Below;
  }

  lemma EmptiedTaken(a: Fs, b: Fs, lay: Layout, i: nat, c: nat)
    requires Inv(a, lay) && Emptied(a, b, i) && (forall l: nat :: Name(a, i, l) != 0 ==> l in AllSlots())
    ensures c > 0 ==> (Taken(b, c) <==> Taken(a, c) && c !in Named(a, i, AllSlots()))
    ensures c in Named(a, i, AllSlots()) ==> c >= lay.start
  {
    hide Name, Bit, Shape, Marked;
    if c > 0 && Taken(a, c) && c !in Named(a, i, AllSlots()) {
      var j: nat, l: nat :| Name(a, j, l) == c;
      assert j == i ==> l in AllSlots();
      assert Name(b, j, l) == c;
    }
    if c > 0 && Taken(b, c) {
      var j: nat, l: nat :| Name(b, j, l) == c;
      assert j != i && Name(a, j, l) == c;
    }
  }

  lemma EmptiedFiles(a: Fs, b: Fs, i: nat)
    requires Emptied(a, b, i)
    ensures forall j: nat, bn: nat :: j != i ==>
            FileBlk(b, j, bn) == FileBlk(a, j, bn) && Lookup(b, j, bn) == Lookup(a, j, bn)
  {
    hide Name;
  }
}
