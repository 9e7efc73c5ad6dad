/**
 Copies between the kernel and user memory through a page table (kernel/vm.c): walkaddr,
 copyout, copyin and copyinstr.  User memory is seen one byte at a time, by virtual address.
 */
module UserCopy {
  import opened Sv39
  import opened Vm

  function Pg(va: nat): nat {
    va / PGSIZE
  }

  function Off(va: nat): (r: nat)
    ensures r < PGSIZE
  {
    va % PGSIZE
  }

  /** The user may touch the byte at va. */
  predicate Mapped(s: Space, va: nat) {
    Pg(va) in s.m && s.m[Pg(va)].f.u
  }

  ghost predicate AllMapped(s: Space, va: nat, n: nat) {
    forall x :: va <= x < va + n ==> Mapped(s, x)
  }

  /** Every user page is a frame of its own. */
  ghost predicate Usable(mem: Memory, free: set<nat>, s: Space) {
    && (forall v :: v in s.m && s.m[v].f.u ==>
          && s.m[v].ppn in mem && mem[s.m[v].ppn].Frame? && |mem[s.m[v].ppn].bytes| == PGSIZE
          && s.m[v].ppn !in free && s.m[v].ppn !in Tables(s.t))
    && (forall v, w :: v in s.m && w in s.m && s.m[v].f.u && s.m[w].f.u && v != w ==> s.m[v].ppn != s.m[w].ppn)
  }

  ghost function UserFrames(s: Space): set<nat> {
    set v | v in s.m && s.m[v].f.u :: s.m[v].ppn
  }

  /** The user's byte at va. */
  ghost function ByteAt(mem: Memory, s: Space, va: nat): int {
    if Mapped(s, va) && s.m[Pg(va)].ppn in mem && mem[s.m[Pg(va)].ppn].Frame? && |mem[s.m[Pg(va)].ppn].bytes| == PGSIZE
    then mem[s.m[Pg(va)].ppn].bytes[Off(va)]
    else 0
  }

  /** From a to b exactly the bytes from va on became data. */
  ghost predicate Wrote(a: Memory, b: Memory, s: Space, va: nat, data: seq<int>) {
    forall x: nat :: Mapped(s, x) ==> ByteAt(b, s, x) == if va <= x < va + |data| then data[x - va] else ByteAt(a, s, x)
  }

  lemma WroteNothing(a: Memory, s: Space, va: nat)
    ensures Wrote(a, a, s, va, [])
  {
  }

  /** Two writes, one after the other. */
  lemma WroteMore(a: Memory, b: Memory, c: Memory, s: Space, va: nat, d: seq<int>, e: seq<int>)
    requires Wrote(a, b, s, va, d) && Wrote(b, c, s, va + |d|, e)
    ensures Wrote(a, c, s, va, d + e)
  {
    hide ByteAt, Mapped;
  }

  /** The page with bytes from off replaced by data. */
  function Patched(bytes: seq<int>, off: nat, data: seq<int>): (r: seq<int>)
    requires off + |data| <= |bytes|
    ensures |r| == |bytes|
  {
    bytes[..off] + data + bytes[off + |data|..]
  }

  lemma SamePage(va: nat, x: nat)
    requires va <= x < va + PGSIZE - Off(va) || (x <= va && Pg(x) == Pg(va))
    ensures Pg(x) == Pg(va) && Off(x) == Off(va) + x - va
  {
  }

  /** One memmove inside one page. */
  lemma WrotePage(a: Memory, s: Space, va: nat, data: seq<int>, free: set<nat>)
    requires Usable(a, free, s) && Mapped(s, va) && Off(va) + |data| <= PGSIZE
    ensures var p := s.m[Pg(va)].ppn; var b := a[p := Frame(Patched(a[p].bytes, Off(va), data))];
            Usable(b, free, s) && Wrote(a, b, s, va, data)
  {
    var p := s.m[Pg(va)].ppn;
    var b := a[p := Frame(Patched(a[p].bytes, Off(va), data))];
    forall x: nat | Mapped(s, x)
      ensures ByteAt(b, s, x) == if va <= x < va + |data| then data[x - va] else ByteAt(a, s, x)
    {
      PageByte(a, s, va, data, x, free);
    }
  }

  lemma PageByte(a: Memory, s: Space, va: nat, data: seq<int>, x: nat, free: set<nat>)
    requires Usable(a, free, s) && Mapped(s, va) && Off(va) + |data| <= PGSIZE && Mapped(s, x)
    ensures var p := s.m[Pg(va)].ppn; var b := a[p := Frame(Patched(a[p].bytes, Off(va), data))];
            ByteAt(b, s, x) == if va <= x < va + |data| then data[x - va] else ByteAt(a, s, x)
  {
    if va <= x < va + |data| || (x < va && Pg(x) == Pg(va)) {
      SamePage(va, x);
    } else if Pg(x) == Pg(va) {
      AfterByte(va, x);
    }
    hide Pg, Off;
  }

  lemma AfterByte(va: nat, x: nat)
    requires va <= x && Pg(x) == Pg(va)
    ensures Off(x) == Off(va) + x - va
  {
  }

  /** walkaddr: the frame of a user page, 0 if the user may not touch it. */
  method Walkaddr(k: Machine, root: nat, va: nat, ghost s: Space) returns (p: nat)
    requires k.Is(s) && root == s.t.root && Usable(k.mem, k.Free(), s)
    modifies k
    ensures k.Valid() && k.mem == old(k.mem) && k.free == old(k.free)
    ensures p != 0 <==> Mapped(s, va)
    ensures p != 0 ==> p == s.m[Pg(va)].ppn && p in k.mem
  {
    hide IsTree, Chained, Tables, I0, I1, I2;
    var vpn := Pg(va);
    PageBelow(k.mem, s);
    if vpn >= MAXPAGE {
      return 0;
    }
    var tbl;
    ghost var t';
    tbl, t' := k.Walk(root, vpn, false, s.t);
    if tbl == 0 {
      EntryNone(k.mem, s, vpn);
      return 0;
    }
    EntryIs(k.mem, s, vpn);
    var pte := k.mem[tbl].ptes[I0(vpn)];
    if !pte.f.v || !pte.f.u {
      return 0;
    }
    p := pte.ppn;
  }

  lemma PageBelow(mem: Memory, s: Space)
    requires Maps(mem, s.t, s.m)
    ensures forall v :: v in s.m ==> v < MAXPAGE
  {
  }

  lemma EntryNone(mem: Memory, s: Space, vpn: nat)
    requires Maps(mem, s.t, s.m) && Key(vpn) !in s.t.l0
    ensures vpn !in s.m
  {
  }

  lemma EntryIs(mem: Memory, s: Space, vpn: nat)
    requires IsTree(mem, s.t) && Maps(mem, s.t, s.m) && vpn < MAXPAGE && Key(vpn) in s.t.l0
    ensures IsTable(mem, s.t.l0[Key(vpn)])
    ensures mem[s.t.l0[Key(vpn)]].ptes[I0(vpn)] == if vpn in s.m then s.m[vpn] else NULL
    ensures vpn in s.m ==> s.m[vpn].f.v
  {
    LowTables(mem, s.t);
  }

  /** The next piece of a copy: up to the end of the page, and no more than is left. */
  function Piece(va: nat, left: nat): (n: nat)
    requires left > 0
    ensures 0 < n <= left && Off(va) + n <= PGSIZE
  {
    if PGSIZE - Off(va) > left then left else PGSIZE - Off(va)
  }

  /** A piece lies in one page. */
  lemma PieceMapped(s: Space, va: nat, n: nat)
    requires n > 0 && Off(va) + n <= PGSIZE
    ensures AllMapped(s, va, n) <==> Mapped(s, va)
  {
    assert Mapped(s, va) ==> AllMapped(s, va, n) by {
      forall x | va <= x < va + n ensures Pg(x) == Pg(va) {
        SamePage(va, x);
      }
    }
  }

  /**
   copyout: writes all of src exactly when every byte of the range is the user's, else the
   part before the first that is not.
   */
  method Copyout(k: Machine, root: nat, dstva: nat, src: seq<int>, ghost s: Space) returns (ok: bool, ghost done: nat)
    requires k.Is(s) && root == s.t.root && Usable(k.mem, k.Free(), s)
    modifies k
    ensures k.Is(s) && Usable(k.mem, k.Free(), s) && k.free == old(k.free)
    ensures ok <==> AllMapped(s, dstva, |src|)
    ensures done <= |src| && Wrote(old(k.mem), k.mem, s, dstva, src[..done])
    ensures if ok then done == |src| else done < |src| && !Mapped(s, dstva + done)
    ensures SameOutside(old(k.mem), k.mem, UserFrames(s))
  {
    hide IsTree, Chained, Tables, Maps, Usable, Wrote, Mapped, Pg, Off, UserFrames;
    done := 0;
    var va, left := dstva, |src|;
    WroteNothing(k.mem, s, dstva);
    while left > 0
      invariant 0 <= left <= |src| && done == |src| - left && va == dstva + done
      invariant k.Is(s) && Usable(k.mem, k.Free(), s) && k.free == old(k.free)
      invariant AllMapped(s, dstva, done)
      invariant SameOutside(old(k.mem), k.mem, UserFrames(s))
      invariant Wrote(old(k.mem), k.mem, s, dstva, src[..done])
    {
      var p := Walkaddr(k, root, va, s);
      if p == 0 {
        return false, done;
      }
      var n := Piece(va, left);
      PieceMapped(s, va, n);
      ghost var m := k.mem;
      var from := |src| - left;
      assert src[..from + n] == src[..from] + src[from..from + n];
      Put(k, p, va, src[from..from + n], s);
      WroteMore(old(k.mem), m, k.mem, s, dstva, src[..from], src[from..from + n]);
      done := done + n;
      left := left - n;
      va := va + n;
    }
    ok := true;
    assert src[..done] == src;
  }

  /** memmove into the frame of a user page. */
  method Put(k: Machine, p: nat, va: nat, data: seq<int>, ghost s: Space)
    requires k.Is(s) && Usable(k.mem, k.Free(), s)
    requires Mapped(s, va) && p == s.m[Pg(va)].ppn && Off(va) + |data| <= PGSIZE
    modifies k
    ensures k.Is(s) && Usable(k.mem, k.Free(), s) && k.free == old(k.free)
    ensures Wrote(old(k.mem), k.mem, s, va, data) && SameOutside(old(k.mem), k.mem, UserFrames(s))
  {
    hide IsTree, Chained, Tables, Maps, Usable, Wrote, Pg, Off, Mapped, UserFrames, Patched, SameOutside;
    UserPage(k.mem, k.Free(), s, va);
    WrotePage(k.mem, s, va, data, k.Free());
    var x := Frame(Patched(k.mem[p].bytes, Off(va), data));
    OnePage(k.mem, p, x, UserFrames(s));
    k.SetFrame(p, x, s);
  }

  lemma OnePage(a: Memory, p: nat, x: Page, S: set<nat>)
    requires p in a && p in S
    ensures SameOutside(a, a[p := x], S)
  {
  }

  lemma UserPage(mem: Memory, free: set<nat>, s: Space, va: nat)
    requires Usable(mem, free, s) && Mapped(s, va)
    ensures Pg(va) in s.m
    ensures var p := s.m[Pg(va)].ppn;
            && p in UserFrames(s) && p in mem && mem[p].Frame? && |mem[p].bytes| == PGSIZE && p !in free
               && p !in Tables(s.t)
  {
  }

  /** What the user has at va. */
  ghost predicate Reads(mem: Memory, s: Space, va: nat, data: seq<int>) {
    forall x :: va <= x < va + |data| ==> Mapped(s, x) && data[x - va] == ByteAt(mem, s, x)
  }

  /** The bytes of one piece. */
  lemma PieceReads(mem: Memory, free: set<nat>, s: Space, va: nat, n: nat)
    requires Usable(mem, free, s) && Mapped(s, va) && Off(va) + n <= PGSIZE
    ensures var p := s.m[Pg(va)].ppn; p in mem && mem[p].Frame? && |mem[p].bytes| == PGSIZE
    ensures Reads(mem, s, va, mem[s.m[Pg(va)].ppn].bytes[Off(va)..Off(va) + n])
  {
    var p := s.m[Pg(va)].ppn;
    var d := mem[p].bytes[Off(va)..Off(va) + n];
    forall x | va <= x < va + |d| ensures Mapped(s, x) && d[x - va] == ByteAt(mem, s, x) {
      SamePage(va, x);
    }
  }

  lemma ReadsMore(mem: Memory, s: Space, va: nat, d: seq<int>, e: seq<int>)
    requires Reads(mem, s, va, d) && Reads(mem, s, va + |d|, e)
    ensures Reads(mem, s, va, d + e)
  {
    hide Mapped, ByteAt;
  }

  lemma ReadsMapped(mem: Memory, s: Space, va: nat, d: seq<int>)
    requires Reads(mem, s, va, d)
    ensures AllMapped(s, va, |d|)
  {
    hide Mapped;
  }

  /** copyin: all len bytes exactly when each of them is the user's. */
  method Copyin(k: Machine, root: nat, srcva: nat, len: nat, ghost s: Space) returns (ok: bool, dst: seq<int>)
    requires k.Is(s) && root == s.t.root && Usable(k.mem, k.Free(), s)
    modifies k
    ensures k.Valid() && k.mem == old(k.mem) && k.free == old(k.free)
    ensures ok <==> AllMapped(s, srcva, len)
    ensures Reads(k.mem, s, srcva, dst)
    ensures if ok then |dst| == len else |dst| < len && !Mapped(s, srcva + |dst|)
  {
    hide IsTree, Chained, Tables, Maps, Usable, Reads, Mapped, Pg, Off;
    dst := [];
    var va, left := srcva, len;
    assert Reads(k.mem, s, srcva, dst) by {
      ReadsNothing(k.mem, s, srcva);
    }
    while left > 0
      invariant 0 <= left <= len && |dst| == len - left && va == srcva + |dst|
      invariant k.Is(s) && k.mem == old(k.mem) && k.free == old(k.free)
      invariant Reads(k.mem, s, srcva, dst)
    {
      var p := Walkaddr(k, root, va, s);
      if p == 0 {
        return false, dst;
      }
      var n := Piece(va, left);
      PieceReads(k.mem, k.Free(), s, va, n);
      ReadsMore(k.mem, s, srcva, dst, k.mem[p].bytes[Off(va)..Off(va) + n]);
      dst := dst + k.mem[p].bytes[Off(va)..Off(va) + n];
      left := left - n;
      va := va + n;
    }
    ok := true;
    ReadsMapped(k.mem, s, srcva, dst);
  }

  lemma ReadsNothing(mem: Memory, s: Space, va: nat)
    ensures Reads(mem, s, va, [])
  {
  }

  /** What copyout wrote is what copyin reads, wherever in it copyin starts and stops. */
  lemma RoundTrip(a: Memory, b: Memory, s: Space, va: nat, src: seq<int>, i: nat, back: seq<int>)
    requires Wrote(a, b, s, va, src) && Reads(b, s, va + i, back) && i + |back| <= |src|
    ensures back == src[i..i + |back|]
  {
    hide ByteAt, Mapped;
    forall j | 0 <= j < |back| ensures back[j] == src[i + j] {
      assert Mapped(s, va + i + j) && back[j] == ByteAt(b, s, va + i + j);
    }
  }

  /** And copyin finds what was there before everywhere else. */
  lemma ReadsElsewhere(a: Memory, b: Memory, s: Space, va: nat, src: seq<int>, w: nat, back: seq<int>)
    requires Wrote(a, b, s, va, src) && (w + |back| <= va || va + |src| <= w)
    ensures Reads(b, s, w, back) <==> Reads(a, s, w, back)
  {
    hide ByteAt, Mapped;
  }

  // ------------------------------------------------------------------
  // What a process sees of growproc and fork

  lemma GrownByte(mem: Memory, s: Space, sz: nat, sz': nat, x: nat)
    requires Blanks(mem, s.m, PageCount(sz), PageCount(sz')) && PageCount(sz) * PGSIZE <= x < sz'
    ensures Mapped(s, x) && ByteAt(mem, s, x) == 0
  {
    assert Blank(mem, s.m[Pg(x)]);
  }

  /** The memory growproc adds is the user's, and reads as zeros. */
  lemma GrownReads(mem: Memory, s: Space, sz: nat, sz': nat, va: nat, back: seq<int>)
    requires Blanks(mem, s.m, PageCount(sz), PageCount(sz'))
    requires PageCount(sz) * PGSIZE <= va && va + |back| <= sz'
    ensures Reads(mem, s, va, back) <==> forall i :: 0 <= i < |back| ==> back[i] == 0
  {
    hide Mapped, ByteAt, PageCount;
    forall x | va <= x < va + |back| ensures Mapped(s, x) && ByteAt(mem, s, x) == 0 {
      GrownByte(mem, s, sz, sz', x);
    }
    if Reads(mem, s, va, back) {
      forall i | 0 <= i < |back| ensures back[i] == 0 {
        assert Mapped(s, va + i);
      }
    }
  }

  /** A forked child reads what its parent does. */
  lemma ForkReads(mem: Memory, s: Space, d: Space, sz: nat, va: nat, back: seq<int>)
    requires SamePages(mem, s, d, PageCount(sz)) && va + |back| <= sz
    ensures Reads(mem, d, va, back) <==> Reads(mem, s, va, back)
  {
    forall x | va <= x < va + |back|
      ensures (Mapped(d, x) <==> Mapped(s, x)) && ByteAt(mem, d, x) == ByteAt(mem, s, x)
    {
      assert Pg(x) < PageCount(sz);
    }
  }

  /** And neither sees what the other writes afterwards. */
  lemma ForkApart(a: Memory, b: Memory, s: Space, d: Space, va: nat, back: seq<int>)
    requires SameOutside(a, b, UserFrames(s)) && UserFrames(s) !! UserFrames(d) && AllMapped(d, va, |back|)
    requires forall v :: v in d.m && d.m[v].f.u ==> d.m[v].ppn in a
    ensures Reads(b, d, va, back) <==> Reads(a, d, va, back)
  {
    forall x | va <= x < va + |back| ensures ByteAt(b, d, x) == ByteAt(a, d, x) {
      assert Mapped(d, x) && d.m[Pg(x)].ppn in UserFrames(d);
    }
  }

  /** The trampoline and the trap frame are out of the user's reach. */
  lemma TopApart(s: Space, trampoline: nat, tf: nat, va: nat, n: nat)
    requires Topped(s.m, trampoline, tf) && n > 0 && TRAPFRAME * PGSIZE <= va < MAXPAGE * PGSIZE
    ensures !AllMapped(s, va, n)
  {
    assert !Mapped(s, va);
  }

  /** The first n + 1 bytes are the user's and the last of them is the first NUL. */
  ghost predicate StringAt(mem: Memory, s: Space, va: nat, n: nat) {
    && AllMapped(s, va, n + 1)
    && ByteAt(mem, s, va + n) == 0
    && forall x :: va <= x < va + n ==> ByteAt(mem, s, x) != 0
  }

  /** No NUL among the bytes d read from va. */
  ghost predicate NoNul(d: seq<int>) {
    forall i :: 0 <= i < |d| ==> d[i] != 0
  }

  /** A NUL at most max bytes on, with every byte up to it the user's. */
  ghost predicate HasString(mem: Memory, s: Space, va: nat, max: nat) {
    exists n: nat :: n < max && StringAt(mem, s, va, n)
  }

  lemma StringFound(mem: Memory, s: Space, va: nat, d: seq<int>)
    requires d != [] && Reads(mem, s, va, d) && d[|d| - 1] == 0 && NoNul(d[..|d| - 1])
    ensures StringAt(mem, s, va, |d| - 1)
  {
    hide Mapped, ByteAt;
    ReadsMapped(mem, s, va, d);
    forall x | va <= x < va + |d| - 1 ensures ByteAt(mem, s, x) != 0 {
      assert d[..|d| - 1][x - va] != 0;
    }
  }

  lemma StringMissing(mem: Memory, s: Space, va: nat, d: seq<int>, max: nat)
    requires Reads(mem, s, va, d) && NoNul(d) && (|d| >= max || !Mapped(s, va + |d|))
    ensures !HasString(mem, s, va, max)
  {
    hide Mapped, ByteAt;
    forall n: nat | n < max ensures !StringAt(mem, s, va, n) {
      if n < |d| {
        assert d[n] == ByteAt(mem, s, va + n);
      } else {
        assert !Mapped(s, va + |d|);
      }
    }
  }

  /** copyinstr's inner loop: the bytes up to the first NUL of the piece. */
  method ScanPiece(bytes: seq<int>) returns (d: seq<int>, gotNull: bool)
    ensures d <= bytes
    ensures gotNull ==> d != [] && d[|d| - 1] == 0 && NoNul(d[..|d| - 1])
    ensures !gotNull ==> d == bytes && NoNul(d)
  {
    d, gotNull := [], false;
    var i := 0;
    while i < |bytes|
      invariant i <= |bytes| && d == bytes[..i] && NoNul(d)
    {
      if bytes[i] == 0 {
        return d + [0], true;
      }
      d := d + [bytes[i]];
      i := i + 1;
    }
  }

  lemma ReadsPrefix(mem: Memory, s: Space, va: nat, d: seq<int>, e: seq<int>)
    requires Reads(mem, s, va, e) && d <= e
    ensures Reads(mem, s, va, d)
  {
  }

  /** copyinstr: succeeds exactly when a NUL lies within max bytes on user pages, and then gives the string. */
  method Copyinstr(k: Machine, root: nat, srcva: nat, max: nat, ghost s: Space) returns (ok: bool, dst: seq<int>)
    requires k.Is(s) && root == s.t.root && Usable(k.mem, k.Free(), s)
    modifies k
    ensures k.Valid() && k.mem == old(k.mem) && k.free == old(k.free)
    ensures ok <==> HasString(k.mem, s, srcva, max)
    ensures ok ==> 0 < |dst| <= max && Reads(k.mem, s, srcva, dst) && StringAt(k.mem, s, srcva, |dst| - 1)
  {
    hide IsTree, Chained, Tables, Maps, Usable, Reads, Mapped, Pg, Off, HasString, StringAt, NoNul;
    dst := [];
    var va, left, gotNull := srcva, max, false;
    ReadsNothing(k.mem, s, srcva);
    NoNulNothing();
    while !gotNull && left > 0
      invariant k.Is(s) && k.mem == old(k.mem) && k.free == old(k.free)
      invariant Reads(k.mem, s, srcva, dst)
      invariant !gotNull ==> 0 <= left <= max && |dst| == max - left && va == srcva + |dst| && NoNul(dst)
      invariant gotNull ==> dst != [] && |dst| <= max && dst[|dst| - 1] == 0 && NoNul(dst[..|dst| - 1])
      decreases !gotNull, left
    {
      var p := Walkaddr(k, root, va, s);
      if p == 0 {
        StringMissing(k.mem, s, srcva, dst, max);
        return false, dst;
      }
      var n := Piece(va, left);
      PieceReads(k.mem, k.Free(), s, va, n);
      var bytes := k.mem[p].bytes[Off(va)..Off(va) + n];
      var d;
      d, gotNull := ScanPiece(bytes);
      ReadsPrefix(k.mem, s, va, d, bytes);
      ReadsMore(k.mem, s, srcva, dst, d);
      NoNulMore(dst, d, gotNull);
      dst := dst + d;
      left := left - |d|;
      va := va + n;
    }
    ok := gotNull;
    if ok {
      StringFound(k.mem, s, srcva, dst);
      HasIntro(k.mem, s, srcva, max, |dst| - 1);
    } else {
      StringMissing(k.mem, s, srcva, dst, max);
    }
  }

  lemma NoNulNothing()
    ensures NoNul([])
  {
  }

  lemma NoNulMore(d: seq<int>, e: seq<int>, end: bool)
    requires NoNul(d) && (if end then e != [] && NoNul(e[..|e| - 1]) else NoNul(e))
    ensures NoNul(if end then (d + e)[..|d + e| - 1] else d + e)
  {
    if end {
      assert (d + e)[..|d + e| - 1] == d + e[..|e| - 1];
    }
  }

  lemma HasIntro(mem: Memory, s: Space, va: nat, max: nat, n: nat)
    requires n < max && StringAt(mem, s, va, n)
    ensures HasString(mem, s, va, max)
  {
  }
}
