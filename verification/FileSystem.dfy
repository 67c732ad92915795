/** The block and inode layers of the file system. Blocks are read and written through the
    log, which Log and LogCache show to behave as one array of blocks. */
module FileSystem {
  import opened Bitmap
  import opened FsState

  datatype Option<T> = None | Some(value: T)

  // Blocks needed for n bytes
  function Blocks(n: nat): nat {
    (n + BSIZE - 1) / BSIZE
  }

  // One past the last file block that n bytes at off reach
  function Upto(off: nat, n: nat): nat {
    if n == 0 then off / BSIZE else Blocks(off + n)
  }

  function Splice(c: seq<int>, off: nat, data: seq<int>): seq<int>
    requires off <= |c|
  {
    c[..off] + data + if off + |data| < |c| then c[off + |data|..] else []
  }

  ghost function DataBlocks(s: State, inum: nat, lo: nat, hi: nat): set<int> {
    set bn | lo <= bn < hi :: s.Addr(inum, SlotOf(bn))
  }

  /** File blocks lo..hi-1 are all allocated. */
  ghost predicate Mapped(s: State, inum: nat, lo: nat, hi: nat) {
    forall bn :: lo <= bn < hi ==> s.Addr(inum, SlotOf(bn)) != 0
  }

  ghost predicate NoHoles(s: State, inum: nat) {
    inum < |s.inodes| && Mapped(s, inum, 0, Blocks(s.inodes[inum].size))
  }

  // Byte p of file i after `data` has been written to file inum at off
  ghost predicate ByteAfter(s: State, t: State, inum: nat, off: nat, data: seq<int>, i: nat, p: nat) {
    t.FileByte(i, p) == if i == inum && off <= p < off + |data| then data[p - off] else s.FileByte(i, p)
  }

  ghost predicate BytesAfter(s: State, t: State, inum: nat, off: nat, data: seq<int>) {
    forall p: nat :: p < MAXFILE * BSIZE ==> ByteAfter(s, t, inum, off, data, inum, p)
  }

  // writei's loop: `data` is in the file, blocks were added to inode inum only
  ghost predicate Wrote(s: State, t: State, inum: nat, off: nat, data: seq<int>) {
    && t.Ok() && t.g == s.g && inum < |s.inodes| == |t.inodes|
    && t.inodes == s.inodes[inum := s.inodes[inum].(addrs := t.inodes[inum].addrs)]
    && (forall i: nat, k: nat :: AddrKept(s, t, inum, i, k))
    && (forall i: nat, p: nat :: i < |s.inodes| && p < MAXFILE * BSIZE ==> ByteAfter(s, t, inum, off, data, i, p))
    && Mapped(t, inum, off / BSIZE, Upto(off, |data|))
  }

  lemma RoundArithmetic(off: nat, n: nat, tot: nat, m: nat, next: nat)
    requires tot < n && off + n <= MAXFILE * BSIZE && (tot == 0 || (off + tot) % BSIZE == 0) && next == tot + m
    requires m == if n - tot < BSIZE - (off + tot) % BSIZE then n - tot else BSIZE - (off + tot) % BSIZE
    ensures m > 0 && next <= n && (next == n || (off + next) % BSIZE == 0)
    ensures (off + tot) / BSIZE < MAXFILE
    ensures Upto(off, tot) == (off + tot) / BSIZE && Upto(off, next) == (off + tot) / BSIZE + 1
  {
  }

  lemma WroteMore(s: State, t: State, u: State, v: State, inum: nat, off: nat, src: seq<int>, tot: nat, next: nat)
    requires tot < next <= |src| && Wrote(s, t, inum, off, src[..tot])
    requires off + |src| <= MAXFILE * BSIZE && next - tot <= BSIZE - (off + tot) % BSIZE
    requires Upto(off, tot) == (off + tot) / BSIZE < MAXFILE && Upto(off, next) == (off + tot) / BSIZE + 1
    requires Stored(t, u, v, inum, (off + tot) / BSIZE, (off + tot) % BSIZE, src[tot..next])
    ensures Wrote(s, v, inum, off, src[..next])
    ensures forall i: nat, k: nat :: SameAddr(u, v, i, k)
  {
    var bn, o := (off + tot) / BSIZE, (off + tot) % BSIZE;
    var a := u.Addr(inum, SlotOf(bn));
    var data := Splice(u.blocks[a], o, src[tot..next]);
    StoreKeeps(u, inum, bn, data);
    forall i: nat, k: nat
      ensures AddrKept(s, v, inum, i, k)
    {
      assert AddrKept(s, t, inum, i, k) && AddrKept(t, u, inum, i, k) && SameAddr(u, v, i, k);
    }
    var done := src[..next];
    forall i: nat, p: nat | i < |s.inodes| && p < MAXFILE * BSIZE
      ensures ByteAfter(s, v, inum, off, done, i, p)
    {
      assert ByteAfter(s, t, inum, off, src[..tot], i, p) && SameByte(t, u, i, p);
      if i == inum && p / BSIZE == bn {
        assert p == bn * BSIZE + p % BSIZE && off + tot == bn * BSIZE + o;
      }
    }
    forall x | off / BSIZE <= x < bn + 1
      ensures v.Addr(inum, SlotOf(x)) != 0
    {
      assert AddrKept(t, u, inum, inum, SlotOf(x)) && SameAddr(u, v, inum, SlotOf(x));
      assert x < bn ==> t.Addr(inum, SlotOf(x)) != 0;
    }
  }

  lemma WroteNothing(s: State, inum: nat, off: nat)
    requires s.Ok() && inum < |s.inodes|
    ensures Wrote(s, s, inum, off, [])
  {
    forall i: nat, p: nat | i < |s.inodes| && p < MAXFILE * BSIZE
      ensures ByteAfter(s, s, inum, off, [], i, p)
    {
    }
    forall i: nat, k: nat
      ensures AddrKept(s, s, inum, i, k)
    {
    }
  }

  function SetSize(s: State, inum: nat, size: nat): State
    requires inum < |s.inodes|
  {
    s.(inodes := s.inodes[inum := s.inodes[inum].(size := size)])
  }

  lemma SetSizeKeepsOk(s: State, inum: nat, size: nat)
    requires s.Ok() && inum < |s.inodes| && size <= MAXFILE * BSIZE
    ensures SetSize(s, inum, size).Ok()
    ensures forall i: nat, k: nat :: SameAddr(s, SetSize(s, inum, size), i, k)
    ensures forall i: nat, p: nat :: SameByte(s, SetSize(s, inum, size), i, p)
  {
    var t := SetSize(s, inum, size);
    forall i: nat, k: nat
      ensures SameAddr(s, t, i, k)
    {
    }
    forall i: nat, p: nat
      ensures SameByte(s, t, i, p)
    {
      assert SameAddr(s, t, i, SlotOf(p / BSIZE));
    }
    forall i | 0 <= i < |t.inodes|
      ensures t.InodeOk(i)
    {
      assert s.InodeOk(i);
    }
    SameAddrKeepsOk(s, t);
  }

  function Max(a: nat, b: nat): nat {
    if a < b then b else a
  }

  // The other files are as they were
  ghost predicate OthersKept(s: State, t: State, inum: nat) {
    |s.inodes| == |t.inodes| && forall i :: 0 <= i < |s.inodes| && i != inum ==> SameFile(s, t, i)
  }

  ghost predicate SameFile(s: State, t: State, i: nat)
    requires i < |s.inodes| == |t.inodes|
  {
    t.inodes[i] == s.inodes[i] && t.Contents(i) == s.Contents(i)
  }

  /** The loop's result, with the size brought up to date, is the spliced file; no other file
      changes, and a file without holes has none afterwards. */
  lemma WroteContents(s: State, t: State, inum: nat, off: nat, data: seq<int>)
    requires s.Ok() && inum < |s.inodes| && Wrote(s, t, inum, off, data)
    requires off <= s.inodes[inum].size && off + |data| <= MAXFILE * BSIZE
    ensures
      var u := SetSize(t, inum, Max(s.inodes[inum].size, off + |data|));
      && u.Ok() && u.Contents(inum) == Splice(s.Contents(inum), off, data)
      && OthersKept(s, u, inum) && BytesAfter(s, u, inum, off, data)
      && (NoHoles(s, inum) ==> NoHoles(u, inum))
  {
    var size := Max(s.inodes[inum].size, off + |data|);
    var u := SetSize(t, inum, size);
    assert s.InodeOk(inum);
    SetSizeKeepsOk(t, inum, size);
    forall p: nat | p < MAXFILE * BSIZE
      ensures ByteAfter(s, u, inum, off, data, inum, p)
    {
      assert ByteAfter(s, t, inum, off, data, inum, p) && SameByte(t, u, inum, p);
    }
    forall p | 0 <= p < size
      ensures u.Contents(inum)[p] == Splice(s.Contents(inum), off, data)[p]
    {
      assert ByteAfter(s, t, inum, off, data, inum, p) && SameByte(t, u, inum, p);
    }
    forall i | 0 <= i < |s.inodes| && i != inum
      ensures SameFile(s, u, i)
    {
      assert s.InodeOk(i);
      forall p | 0 <= p < s.inodes[i].size
        ensures u.Contents(i)[p] == s.Contents(i)[p]
      {
        assert ByteAfter(s, t, inum, off, data, i, p) && SameByte(t, u, i, p);
      }
    }
    if NoHoles(s, inum) {
      forall bn | 0 <= bn < Blocks(size)
        ensures u.Addr(inum, SlotOf(bn)) != 0
      {
        if bn < Blocks(s.inodes[inum].size) {
          assert s.Addr(inum, SlotOf(bn)) != 0 && AddrKept(s, t, inum, inum, SlotOf(bn));
        }
        assert SameAddr(t, u, inum, SlotOf(bn));
      }
    }
  }

  lemma ClipArithmetic(off: nat, n: nat, size: nat)
    requires off <= size <= MAXFILE * BSIZE && n < U32 && (off + n) % U32 >= off
    ensures off + n < U32 && (off + n) % U32 == off + n
  {
  }

  lemma ReadArithmetic(p: nat, end: nat, size: nat)
    requires p < end <= size <= MAXFILE * BSIZE
    ensures p / BSIZE < MAXFILE && p / BSIZE < Blocks(size) && p % BSIZE < BSIZE
  {
  }

  lemma SliceJoin(c: seq<int>, i: nat, j: nat, k: nat)
    requires i <= j <= k <= |c|
    ensures c[i..k] == c[i..j] + c[j..k]
  {
  }

  // readi's loop, one round further
  lemma ReadMore(s: State, t: State, u: State, inum: nat, whole: seq<int>, off: nat, p: nat, chunk: seq<int>)
    requires Grew(s, t, inum) && Grew(t, u, inum) && whole == s.Contents(inum) && off <= p && p + |chunk| <= |whole|
    requires p + |chunk| <= |t.Contents(inum)| && chunk == t.Contents(inum)[p..p + |chunk|]
    ensures Grew(s, u, inum) && whole[off..p] + chunk == whole[off..p + |chunk|]
  {
    GrewTwice(s, t, u, inum);
    GrewContents(s, t, inum);
    SliceJoin(whole, off, p, p + |chunk|);
  }

  lemma BytesAt(s: State, inum: nat, p: nat, m: nat)
    requires s.Ok() && inum < |s.inodes| && p + m <= s.inodes[inum].size && p % BSIZE + m <= BSIZE
    requires p / BSIZE < MAXFILE && s.Addr(inum, SlotOf(p / BSIZE)) != 0
    ensures
      var a := s.Addr(inum, SlotOf(p / BSIZE));
      && 0 < a < |s.blocks| && |s.blocks[a]| == BSIZE
      && s.blocks[a][p % BSIZE..p % BSIZE + m] == s.Contents(inum)[p..p + m]
  {
    OneOwner(s, inum, SlotOf(p / BSIZE), inum, SlotOf(p / BSIZE));
    var a := s.Addr(inum, SlotOf(p / BSIZE));
    assert s.BlockOk(a);
    var x, y := s.blocks[a][p % BSIZE..p % BSIZE + m], s.Contents(inum)[p..p + m];
    forall q | 0 <= q < m
      ensures x[q] == y[q]
    {
      SameBlock(p, q);
      assert y[q] == s.FileByte(inum, p + q);
    }
  }

  lemma SameBlock(p: nat, q: nat)
    requires p % BSIZE + q < BSIZE
    ensures (p + q) / BSIZE == p / BSIZE && (p + q) % BSIZE == p % BSIZE + q
  {
  }

  // The order in which itrunc frees: direct blocks, indirect entries, the indirect block
  function Rank(k: nat): nat {
    if k < NDIRECT then k else if k == NDIRECT then NSLOTS - 1 else k - 1
  }

  // Byte b's bit when the blocks in slots of rank below n are freed
  ghost predicate FreedAt(s: State, bm: seq<bv8>, inum: nat, n: nat, b: nat)
    requires b < s.g.size <= 8 * |s.bitmap| == 8 * |bm|
  {
    Bit(bm, b) == (Bit(s.bitmap, b) && !(b in s.owner && s.owner[b].inum == inum && Rank(s.owner[b].k) < n))
  }

  ghost predicate Freed(s: State, bm: seq<bv8>, inum: nat, n: nat) {
    && s.Ok() && inum < |s.inodes| && |bm| == |s.bitmap| && n <= NSLOTS
    && forall b :: 0 <= b < s.g.size ==> FreedAt(s, bm, inum, n, b)
  }

  /** The next block that itrunc frees is marked, so the source's panic cannot happen. */
  lemma FreeNext(s: State, bm: seq<bv8>, inum: nat, k: nat)
    requires k < NSLOTS && Freed(s, bm, inum, Rank(k))
    ensures s.Addr(inum, k) == 0 ==> Freed(s, bm, inum, Rank(k) + 1)
    ensures s.Addr(inum, k) != 0 ==>
      && 0 < s.Addr(inum, k) < s.g.size && Bit(bm, s.Addr(inum, k))
      && Freed(s, ClearBit(bm, s.Addr(inum, k)), inum, Rank(k) + 1)
  {
    var a, n := s.Addr(inum, k), Rank(k) + 1;
    assert s.SlotOk(inum, k) && s.OwnerOk(a);
    if a != 0 {
      assert s.BlockOk(a) && FreedAt(s, bm, inum, Rank(k), a);
    }
    var bm' := if a == 0 then bm else ClearBit(bm, a);
    forall b | 0 <= b < s.g.size
      ensures FreedAt(s, bm', inum, n, b)
    {
      assert FreedAt(s, bm, inum, Rank(k), b) && s.OwnerOk(b);
      if a != 0 {
        ClearBitOnly(bm, a, b);
      }
      if b in s.owner && s.owner[b].inum == inum && Rank(s.owner[b].k) == Rank(k) {
        assert s.owner[b].k == k;
      }
    }
  }

  lemma {:induction false} NothingToFree(s: State, bm: seq<bv8>, inum: nat, n: nat)
    requires NDIRECT <= n <= NSLOTS && Freed(s, bm, inum, NDIRECT) && s.Addr(inum, NDIRECT) == 0
    ensures Freed(s, bm, inum, n)
  {
    if n > NDIRECT {
      NothingToFree(s, bm, inum, n - 1);
      FreeNext(s, bm, inum, if n == NSLOTS then NDIRECT else n);
    }
  }

  lemma AllFreed(s: State, t: State, inum: nat)
    requires Freed(s, t.bitmap, inum, NSLOTS) && t.g == s.g && t.blocks == s.blocks
    requires t.inodes == s.inodes[inum := Dinode(s.inodes[inum].kind, 0, NoAddrs)]
    requires t.owner == map b | b in s.owner && s.owner[b].inum != inum :: s.owner[b]
    ensures Truncated(s, t, inum)
  {
    forall b | 0 <= b < s.g.size
      ensures Bit(t.bitmap, b) == (Bit(s.bitmap, b) && !(b in s.owner && s.owner[b].inum == inum))
    {
      assert FreedAt(s, t.bitmap, inum, NSLOTS, b) && s.OwnerOk(b);
    }
  }

  // No block is free
  ghost predicate DiskFull(size: nat, bm: seq<bv8>) {
    size <= 8 * |bm| && forall b :: 0 <= b < size ==> Bit(bm, b)
  }

  /** bmap has returned block a for file block bn of inode inum: no byte of any file has changed, and
      nothing at all if there was a block. */
  ghost predicate Looked(s: State, t: State, inum: nat, bn: nat, a: int) {
    Grew(s, t, inum) && t.Addr(inum, SlotOf(bn)) == a != 0 && (s.Addr(inum, SlotOf(bn)) != 0 ==> t == s)
  }

  /** One round of writei: after bmap, in state u, the chunk goes to offset o of file block bn. */
  ghost predicate Stored(s: State, u: State, t: State, inum: nat, bn: nat, o: nat, chunk: seq<int>) {
    && o + |chunk| <= BSIZE && Grew(s, u, inum)
    && var a := u.Addr(inum, SlotOf(bn));
       && 0 < a < |u.blocks| && |u.blocks[a]| == BSIZE
       && t == u.(blocks := u.blocks[a := Splice(u.blocks[a], o, chunk)])
  }

  // ... as it is done, without what it means for the files
  ghost predicate Put(s: State, u: State, t: State, inum: nat, bn: nat, o: nat, chunk: seq<int>) {
    && o + |chunk| <= BSIZE && Bmapped(s, u, inum, bn)
    && var a := u.Addr(inum, SlotOf(bn));
       && 0 <= a < |u.blocks| && |u.blocks[a]| == BSIZE
       && t == u.(blocks := u.blocks[a := Splice(u.blocks[a], o, chunk)])
  }

  lemma PutStores(s: State, u: State, t: State, inum: nat, bn: nat, o: nat, chunk: seq<int>)
    requires s.Ok() && Put(s, u, t, inum, bn, o, chunk)
    ensures Stored(s, u, t, inum, bn, o, chunk)
  {
    BmapGrows(s, u, inum, bn);
  }

  // The inodes of the file system: those in the inode cache that are valid, else those on disk
  function Overlay(dinodes: seq<Dinode>, icache: map<nat, Dinode>): seq<Dinode> {
    seq(|dinodes|, i requires 0 <= i < |dinodes| => if i in icache then icache[i] else dinodes[i])
  }

  lemma OverlaySet(dinodes: seq<Dinode>, icache: map<nat, Dinode>, inum: nat, d: Dinode)
    requires inum < |dinodes|
    ensures Overlay(dinodes, icache[inum := d]) == Overlay(dinodes, icache)[inum := d]
  {
  }

  lemma SetSizeIs(dinodes: seq<Dinode>, icache: map<nat, Dinode>, inum: nat, size: nat)
    requires inum < |dinodes| && inum in icache
    ensures Overlay(dinodes, icache[inum := icache[inum].(size := size)]) ==
            Overlay(dinodes, icache)[inum := icache[inum].(size := size)]
    ensures icache[inum].size == size ==> icache[inum := icache[inum].(size := size)] == icache
  {
    OverlaySet(dinodes, icache, inum, icache[inum].(size := size));
  }

  // The blocks of the free map
  ghost function BitmapBlocks(g: Layout): set<int> {
    set b | 0 <= b < g.size :: g.BBlock(b)
  }

  // What writing file blocks lo..hi-1 may give to log_write, apart from the inode
  ghost function MayLog(s: State, inum: nat, lo: nat, hi: nat): set<int> {
    BitmapBlocks(s.g) + (if lo < hi && NDIRECT < hi then {s.Addr(inum, NDIRECT)} else {}) + DataBlocks(s, inum, lo, hi)
  }

  // Addresses once given stay, so the blocks of a mapped range do
  lemma MayLogGrows(s: State, t: State, inum: nat, lo: nat, hi: nat, more: nat)
    requires t.g == s.g && (forall k: nat :: AddrKept(s, t, inum, inum, k)) && lo <= hi <= more
    requires Mapped(s, inum, lo, hi)
    ensures MayLog(s, inum, lo, hi) <= MayLog(t, inum, lo, more)
    ensures DataBlocks(s, inum, lo, hi) == DataBlocks(t, inum, lo, hi)
    ensures Mapped(t, inum, lo, hi)
  {
    forall bn | lo <= bn < hi
      ensures t.Addr(inum, SlotOf(bn)) == s.Addr(inum, SlotOf(bn)) != 0
    {
      assert AddrKept(s, t, inum, inum, SlotOf(bn));
    }
    if lo < hi && NDIRECT < hi {
      assert s.Addr(inum, SlotOf(hi - 1)) != 0;
      assert AddrKept(s, t, inum, inum, NDIRECT);
    }
  }

  lemma DataBlocksMore(s: State, inum: nat, lo: nat, hi: nat)
    requires lo <= hi
    ensures DataBlocks(s, inum, lo, hi + 1) == DataBlocks(s, inum, lo, hi) + {s.Addr(inum, SlotOf(hi))}
  {
  }

  // What a round has logged
  lemma RoundLogs(t: State, u: State, v: State, inum: nat, lo: nat, hi: nat)
    requires Grew(t, u, inum) && (forall i: nat, k: nat :: SameAddr(u, v, i, k)) && v.g == u.g && lo <= hi
    requires Mapped(t, inum, lo, hi)
    ensures MayLog(t, inum, lo, hi) <= MayLog(v, inum, lo, hi + 1)
    ensures BitmapBlocks(u.g) + {u.Addr(inum, SlotOf(hi))} <= MayLog(v, inum, lo, hi + 1)
    ensures hi >= NDIRECT ==> {u.Addr(inum, NDIRECT)} <= MayLog(v, inum, lo, hi + 1)
    ensures DataBlocks(v, inum, lo, hi + 1) == DataBlocks(t, inum, lo, hi) + {u.Addr(inum, SlotOf(hi))}
  {
    assert SameAddr(u, v, inum, SlotOf(hi)) && SameAddr(u, v, inum, NDIRECT);
    forall k: nat
      ensures AddrKept(t, v, inum, inum, k)
    {
      assert AddrKept(t, u, inum, inum, k) && SameAddr(u, v, inum, k);
    }
    MayLogGrows(t, v, inum, lo, hi, hi + 1);
    DataBlocksMore(v, inum, lo, hi);
  }

  /** The blocks that a write of n bytes at off gives to log_write: all the data blocks, and else only
      free map, indirect and inode blocks. */
  ghost predicate WriteLogs(s: State, inum: nat, off: nat, n: nat, logs: set<int>) {
    var lo, hi := off / BSIZE, Upto(off, n);
    && Mapped(s, inum, lo, hi) && DataBlocks(s, inum, lo, hi) + {s.g.IBlock(inum)} <= logs
    && logs <= {s.g.IBlock(inum)} + MayLog(s, inum, lo, hi)
  }

  lemma WriteLogsKept(s: State, t: State, inum: nat, off: nat, n: nat, logs: set<int>)
    requires WriteLogs(s, inum, off, n, logs) && t.g == s.g && forall k: nat :: AddrKept(s, t, inum, inum, k)
    ensures WriteLogs(t, inum, off, n, logs)
  {
    if off / BSIZE <= Upto(off, n) {
      MayLogGrows(s, t, inum, off / BSIZE, Upto(off, n), Upto(off, n));
    }
  }

  lemma SizeLogs(s: State, t: State, u: State, inum: nat, lo: nat, hi: nat)
    requires inum < |t.inodes| == |u.inodes| && u == SetSize(t, inum, u.inodes[inum].size)
    requires forall i: nat, k: nat :: AddrKept(s, t, inum, i, k)
    ensures MayLog(t, inum, lo, hi) == MayLog(u, inum, lo, hi)
    ensures DataBlocks(t, inum, lo, hi) == DataBlocks(u, inum, lo, hi)
    ensures Mapped(t, inum, lo, hi) ==> Mapped(u, inum, lo, hi)
    ensures forall k: nat :: AddrKept(s, u, inum, inum, k)
  {
    assert forall k: nat :: u.Addr(inum, k) == t.Addr(inum, k);
    forall k: nat
      ensures AddrKept(s, u, inum, inum, k)
    {
      assert AddrKept(s, t, inum, inum, k);
    }
  }

  // A free inode owns nothing, and is not cached
  ghost predicate FreeAt(dinodes: seq<Dinode>, icache: map<nat, Dinode>, i: nat)
    requires i < |dinodes|
  {
    dinodes[i].kind == 0 ==> i !in icache && dinodes[i].addrs == NoAddrs
  }

  ghost predicate FreeOk(dinodes: seq<Dinode>, icache: map<nat, Dinode>) {
    forall i :: 0 <= i < |dinodes| ==> FreeAt(dinodes, icache, i)
  }

  lemma FreeKept(dinodes: seq<Dinode>, icache: map<nat, Dinode>, inum: nat, d: Dinode, icache': map<nat, Dinode>)
    requires FreeOk(dinodes, icache) && inum < |dinodes| && icache'.Keys <= icache.Keys + {inum}
    requires d.kind == 0 ==> inum !in icache' && d.addrs == NoAddrs
    ensures FreeOk(dinodes[inum := d], icache')
  {
    var dinodes' := dinodes[inum := d];
    forall i | 0 <= i < |dinodes'|
      ensures FreeAt(dinodes', icache', i)
    {
      assert FreeAt(dinodes, icache, i);
    }
  }

  lemma OverlayDisk(dinodes: seq<Dinode>, icache: map<nat, Dinode>, inum: nat, d: Dinode)
    requires inum < |dinodes| && inum !in icache
    ensures Overlay(dinodes[inum := d], icache) == Overlay(dinodes, icache)[inum := d]
  {
  }

  /** Inode inum is free in t, and so are the blocks that it owned in s. */
  ghost predicate FreedInode(s: State, t: State, inum: nat) {
    && inum < |s.inodes| == |t.inodes| && t.inodes[inum] == Dinode(0, 0, NoAddrs)
    && Truncated(s, t.(inodes := t.inodes[inum := Dinode(s.inodes[inum].kind, 0, NoAddrs)]), inum)
  }

  // Only entry inum of the cache differs
  ghost predicate OnlyEntry(was: map<nat, Dinode>, now: map<nat, Dinode>, inum: nat) {
    inum in now && now == was[inum := now[inum]]
  }

  // `icache` holds the valid in-memory inodes, by number. An operation on an inode has it there,
  // and holds its lock.
  class Fs {
    const g: Layout
    var bitmap: seq<bv8>
    var blocks: seq<Blk>
    var dinodes: seq<Dinode>
    var icache: map<nat, Dinode>
    ghost var owner: map<int, Slot>
    ghost var logged: set<int>       // blocks given to log_write in this transaction

    /** The file system as the kernel sees it, through the inode cache. */
    ghost function Now(): State
      reads this
    {
      State(g, bitmap, blocks, Overlay(dinodes, icache), owner)
    }

    ghost predicate Valid()
      reads this
    {
      Now().Ok()
    }

    // ilock has returned inode inum
    ghost predicate Held(inum: nat)
      reads this
    {
      Valid() && inum < |dinodes| && inum in icache
    }

    // The two loops of balloc: free map blocks, and the bits of each
    method FirstFree() returns (b: nat)
      requires g.size <= 8 * |bitmap|
      ensures b <= g.size && (b < g.size ==> !Bit(bitmap, b))
      ensures forall c :: 0 <= c < b ==> Bit(bitmap, c)
    {
      b := 0;
      while b < g.size
        invariant b % BPB == 0
        invariant forall c :: 0 <= c < b && c < g.size ==> Bit(bitmap, c)
      {
        var bi := 0;
        while bi < BPB && b + bi < g.size
          invariant 0 <= bi <= BPB
          invariant forall c :: 0 <= c < b + bi && c < g.size ==> Bit(bitmap, c)
        {
          if bitmap[(b + bi) / 8] & Mask((b + bi) % 8) == 0 {
            return b + bi;
          }
          bi := bi + 1;
        }
        b := b + BPB;
      }
      b := g.size;
    }

    /** Takes the first free block, marks it and clears it. Fails, where the source panics,
        when there is none. */
    method Balloc() returns (r: Option<nat>)
      requires |blocks| == g.size <= 8 * |bitmap|
      modifies this`bitmap, this`blocks, this`logged
      ensures r.None? ==> bitmap == old(bitmap) && DiskFull(g.size, bitmap)
      ensures r.Some? ==>
          r.value < g.size && !Bit(old(bitmap), r.value) && forall b :: 0 <= b < r.value ==> Bit(old(bitmap), b)
      ensures r.Some? ==> bitmap == SetBit(old(bitmap), r.value) && blocks == old(blocks)[r.value := Zeros()]
      ensures r.Some? ==> logged == old(logged) + {g.BBlock(r.value), r.value}
      ensures r.None? ==> logged == old(logged)
    {
      var b := FirstFree();
      if b == g.size {
        return None;
      }
      bitmap := SetBit(bitmap, b);
      logged := logged + {g.BBlock(b)};
      blocks := blocks[b := Zeros()];
      logged := logged + {b};
      return Some(b);
    }

    /** Address k of an inode, direct or indirect, allocated if it is 0. */
    method Ensure(inum: nat, k: nat) returns (r: Option<nat>)
      requires Held(inum) && k <= NDIRECT
      modifies this`bitmap, this`blocks, this`logged, this`owner, this`icache
      ensures r.Some? ==> Held(inum) && Grew(old(Now()), Now(), inum) && Now().Addr(inum, k) == r.value != 0
      ensures r.Some? ==> PutAddr(old(Now()), Now(), inum, k)
      ensures r.None? ==> DiskFull(g.size, bitmap)
      ensures old(Now().Addr(inum, k)) != 0 ==> r.Some? && Now() == old(Now()) && logged == old(logged)
      ensures r.Some? ==> old(logged) <= logged <= old(logged) + BitmapBlocks(g) + {r.value}
      ensures OnlyEntry(old(icache), icache, inum)
    {
      ghost var s := Now();
      assert s.InodeOk(inum) && s.inodes[inum] == icache[inum];
      var addrs := icache[inum].addrs;
      if addrs[k] == 0 {
        var b := Balloc();
        if b.None? {
          return None;
        }
        DirectGrows(s, inum, k, b.value);
        OverlaySet(dinodes, icache, inum, icache[inum].(addrs := addrs[k := b.value]));
        icache := icache[inum := icache[inum].(addrs := addrs[k := b.value])];
        owner := owner[b.value as int := Slot(inum, k)];
        assert Now() == AllocDirect(s, inum, k, b.value);
        return b;
      }
      OneOwner(Now(), inum, k, inum, k);
      return Some(addrs[k]);
    }

    /** Entry j of the inode's indirect block, allocated if it is 0. */
    method EnsureEntry(inum: nat, j: nat) returns (r: Option<nat>)
      requires Held(inum) && j < NINDIRECT && Now().Addr(inum, NDIRECT) != 0
      modifies this`bitmap, this`blocks, this`logged, this`owner
      ensures r.Some? ==> Held(inum) && Grew(old(Now()), Now(), inum)
      ensures r.Some? ==> Now().Addr(inum, NDIRECT + 1 + j) == r.value != 0
      ensures r.Some? ==> PutEntry(old(Now()), Now(), inum, j)
      ensures r.None? ==> DiskFull(g.size, bitmap)
      ensures old(Now().Addr(inum, NDIRECT + 1 + j)) != 0 ==> r.Some? && Now() == old(Now()) && logged == old(logged)
      ensures r.Some? ==> old(logged) <= logged <= old(logged) + BitmapBlocks(g) + {r.value, Now().Addr(inum, NDIRECT)}
    {
      ghost var s := Now();
      OneOwner(s, inum, NDIRECT, inum, NDIRECT);
      assert s.InodeOk(inum) && s.BlockOk(s.Addr(inum, NDIRECT)) && s.inodes[inum] == icache[inum];
      var ia := icache[inum].addrs[NDIRECT];
      var addr := Word(blocks[ia], j);
      if addr == 0 {
        var b := Balloc();
        if b.None? {
          return None;
        }
        EntryGrows(s, inum, j, b.value);
        blocks := blocks[ia := PutWord(blocks[ia], j, b.value)];
        owner := owner[b.value as int := Slot(inum, NDIRECT + 1 + j)];
        logged := logged + {ia};
        assert Now() == AllocEntry(s, inum, ia, j, b.value);
        return b;
      }
      OneOwner(s, inum, NDIRECT + 1 + j, inum, NDIRECT + 1 + j);
      return Some(addr);
    }

    /** The block that holds block bn of the file, allocated if there is none. No byte of any
        file changes; an address that exists is returned without any change at all. */
    method Bmap(inum: nat, bn: nat) returns (r: Option<nat>)
      requires Held(inum) && bn < MAXFILE
      modifies this`bitmap, this`blocks, this`logged, this`owner, this`icache
      ensures r.Some? ==> Held(inum) && Looked(old(Now()), Now(), inum, bn, r.value)
      ensures r.Some? ==> Bmapped(old(Now()), Now(), inum, bn)
      ensures r.None? ==> DiskFull(g.size, bitmap)
      ensures old(Now().Addr(inum, SlotOf(bn))) != 0 ==> r.Some? && logged == old(logged)
      ensures r.Some? ==> old(logged) <= logged <= old(logged) + BitmapBlocks(g) + {r.value} +
                          (if bn < NDIRECT then {} else {Now().Addr(inum, NDIRECT)})
      ensures OnlyEntry(old(icache), icache, inum)
    {
      if bn < NDIRECT {
        r := Ensure(inum, bn);
      } else {
        r := BmapIndirect(inum, bn - NDIRECT);
        ghost var s, t := old(Now()), Now();
        assert s.Addr(inum, NDIRECT) == 0 ==> s.Addr(inum, SlotOf(bn)) == 0;
        if r.Some? {
          ghost var u :| PutAddr(s, u, inum, NDIRECT) && PutEntry(u, t, inum, bn - NDIRECT);
          BmapGrows(s, t, inum, bn);
        }
      }
    }

    // bmap's second half: the indirect block, allocated if there is none, and its entry j
    method BmapIndirect(inum: nat, j: nat) returns (r: Option<nat>)
      requires Held(inum) && j < NINDIRECT
      modifies this`bitmap, this`blocks, this`logged, this`owner, this`icache
      ensures r.Some? ==>
          Held(inum) && exists u :: PutAddr(old(Now()), u, inum, NDIRECT) && PutEntry(u, Now(), inum, j)
      ensures r.Some? ==> Now().Addr(inum, NDIRECT + 1 + j) == r.value != 0
      ensures r.None? ==> DiskFull(g.size, bitmap)
      ensures old(Now().Addr(inum, NDIRECT + 1 + j)) != 0 ==> r.Some? && logged == old(logged)
      ensures r.Some? ==>
          old(logged) <= logged <= old(logged) + BitmapBlocks(g) + {r.value} + {Now().Addr(inum, NDIRECT)}
      ensures OnlyEntry(old(icache), icache, inum)
    {
      ghost var s := Now();
      assert s.Addr(inum, NDIRECT) == 0 ==> s.Addr(inum, NDIRECT + 1 + j) == 0;
      r := Ensure(inum, NDIRECT);
      if r.Some? {
        ghost var t := Now();
        r := EnsureEntry(inum, j);
        assert r.Some? ==> AddrKept(t, Now(), inum, inum, NDIRECT);
      }
    }

    /** Locks an inode, reading it from disk if it is not cached, which changes nothing for the
        kernel. Fails, where the source panics, on a free inode. */
    method Ilock(inum: nat) returns (ok: bool)
      requires Valid() && inum < |dinodes|
      modifies this`icache
      ensures ok <==> inum in old(icache) || dinodes[inum].kind != 0
      ensures ok ==> Held(inum) && Now() == old(Now())
    {
      if inum !in icache {
        OverlaySet(dinodes, icache, inum, dinodes[inum]);
        assert Overlay(dinodes, icache)[inum := dinodes[inum]] == Overlay(dinodes, icache);
        icache := icache[inum := dinodes[inum]];
        return icache[inum].kind != 0;
      }
      return true;
    }

    /** iget gives an inode's cache entry to another: the kernel loses what was not saved, and
        nothing else. */
    method Recycle(inum: nat)
      requires Valid() && inum < |dinodes| && inum in icache
      modifies this`icache
      ensures icache == old(icache) - {inum} && Now().inodes == old(Now().inodes)[inum := dinodes[inum]]
      ensures Now() == old(Now()) <==> old(icache)[inum] == dinodes[inum]
    {
      ghost var was := Overlay(dinodes, icache);
      assert was[inum] == icache[inum];
      icache := icache - {inum};
      assert Overlay(dinodes, icache) == was[inum := dinodes[inum]];
    }

    /** The first free inode on disk, but for number 0, gets the given type and is empty. Fails,
        where the source panics, when there is none. */
    method Ialloc(kind: int) returns (r: Option<nat>)
      requires Valid() && FreeOk(dinodes, icache) && kind != 0
      modifies this`dinodes, this`logged
      ensures r.None? <==> forall i :: 1 <= i < |old(dinodes)| ==> old(dinodes)[i].kind != 0
      ensures r.None? ==> dinodes == old(dinodes)
      ensures r.Some? ==>
        && 0 < r.value < |old(dinodes)| && dinodes == old(dinodes)[r.value := Dinode(kind, 0, NoAddrs)]
        && old(dinodes)[r.value].kind == 0 && forall i :: 1 <= i < r.value ==> old(dinodes)[i].kind != 0
      ensures Valid() && FreeOk(dinodes, icache)
      ensures r.Some? ==> Now() == old(Now()).(inodes := old(Now()).inodes[r.value := Dinode(kind, 0, NoAddrs)])
    {
      var inum := 1;
      while inum < |dinodes|
        invariant 1 <= inum && forall i :: 1 <= i < inum && i < |dinodes| ==> dinodes[i].kind != 0
        invariant unchanged(this)
      {
        if dinodes[inum].kind == 0 {
          assert FreeAt(dinodes, icache, inum);
          EmptyInode(Now(), inum, Dinode(kind, 0, NoAddrs));
          FreeKept(dinodes, icache, inum, Dinode(kind, 0, NoAddrs), icache);
          OverlayDisk(dinodes, icache, inum, Dinode(kind, 0, NoAddrs));
          dinodes := dinodes[inum := Dinode(kind, 0, NoAddrs)];
          logged := logged + {g.IBlock(inum)};
          return Some(inum);
        }
        inum := inum + 1;
      }
      return None;
    }

    /** iput of the last reference to an inode without links: its blocks become free, and then the
        inode, which leaves the cache. */
    method Ifree(inum: nat)
      requires Held(inum) && FreeOk(dinodes, icache)
      modifies this
      ensures Valid() && FreeOk(dinodes, icache)
      ensures icache == old(icache) - {inum} && dinodes == old(dinodes)[inum := Dinode(0, 0, NoAddrs)]
      ensures FreedInode(old(Now()), Now(), inum)
    {
      ghost var s, c, d := Now(), icache, dinodes;
      Itrunc(inum);
      ghost var t := Now();
      assert t.inodes[inum] == icache[inum];
      EmptyInode(t, inum, Dinode(0, 0, NoAddrs));
      OverlaySet(dinodes, icache, inum, Dinode(0, 0, NoAddrs));
      icache := icache[inum := icache[inum].(kind := 0)];
      Iupdate(inum);
      icache := icache - {inum};
      assert icache == c - {inum} && dinodes == d[inum := Dinode(0, 0, NoAddrs)];
      FreeKept(d, c, inum, Dinode(0, 0, NoAddrs), icache);
    }

    /** Frees a block: it can be allocated again, and no other block's bit changes. Fails, where
        the source panics, on a block that is free already. */
    method Bfree(b: nat) returns (ok: bool)
      requires b < g.size <= 8 * |bitmap|
      modifies this`bitmap, this`logged
      ensures ok <==> Bit(old(bitmap), b)
      ensures !ok ==> bitmap == old(bitmap) && logged == old(logged)
      ensures ok ==> bitmap == ClearBit(old(bitmap), b) && logged == old(logged) + {g.BBlock(b)}
      ensures ok ==> forall c :: 0 <= c < g.size ==> Bit(bitmap, c) == (c != b && Bit(old(bitmap), c))
    {
      if bitmap[b / 8] & Mask(b % 8) == 0 {
        return false;
      }
      forall c | 0 <= c < g.size
        ensures Bit(ClearBit(bitmap, b), c) == (c != b && Bit(bitmap, c))
      {
        ClearBitOnly(bitmap, b, c);
      }
      bitmap := ClearBit(bitmap, b);
      logged := logged + {g.BBlock(b)};
      return true;
    }

    /** Saves an inode: nothing changes for the kernel, and nothing would if the inode then left the
        cache. */
    method Iupdate(inum: nat)
      requires inum < |dinodes| && inum in icache
      modifies this`dinodes, this`logged
      ensures Now() == old(Now()) && Overlay(dinodes, icache - {inum}) == Now().inodes
      ensures dinodes == old(dinodes)[inum := icache[inum]] && logged == old(logged) + {g.IBlock(inum)}
    {
      dinodes := dinodes[inum := icache[inum]];
      logged := logged + {g.IBlock(inum)};
    }

    // One round of writei's loop: the part of src that goes into one file block. Then next bytes
    // have been written, or no more than before if it fails
    method WriteRound(inum: nat, off: nat, src: seq<int>, tot: nat, ghost s: State) returns (next: nat)
      requires Held(inum) && off + |src| <= MAXFILE * BSIZE && tot < |src|
      requires Wrote(s, Now(), inum, off, src[..tot]) && (tot == 0 || (off + tot) % BSIZE == 0)
      modifies this`bitmap, this`blocks, this`logged, this`owner, this`icache
      ensures next <= tot ==> DiskFull(g.size, bitmap)
      ensures next > tot ==> next <= |src| && (next == |src| || (off + next) % BSIZE == 0)
      ensures next > tot ==> Held(inum) && Wrote(s, Now(), inum, off, src[..next])
      ensures next > tot ==>
          MayLog(old(Now()), inum, off / BSIZE, Upto(off, tot)) <= MayLog(Now(), inum, off / BSIZE, Upto(off, next))
      ensures next > tot ==> logged <= old(logged) + MayLog(Now(), inum, off / BSIZE, Upto(off, next))
      ensures next > tot && DataBlocks(old(Now()), inum, off / BSIZE, Upto(off, tot)) <= old(logged) ==>
                DataBlocks(Now(), inum, off / BSIZE, Upto(off, next)) <= logged
      ensures OnlyEntry(old(icache), icache, inum)
    {
      var bn, o := (off + tot) / BSIZE, (off + tot) % BSIZE;
      var m := if |src| - tot < BSIZE - o then |src| - tot else BSIZE - o;
      next := tot + m;
      RoundArithmetic(off, |src|, tot, m, next);
      ghost var t := Now();
      var ok; ghost var u;
      ok, u := Store(inum, bn, o, src[tot..next]);
      if !ok {
        return tot;
      }
      WroteMore(s, t, u, Now(), inum, off, src, tot, next);
      RoundLogs(t, u, Now(), inum, off / BSIZE, bn);
    }

    // bread of file block bn, either_copyin to offset o, log_write
    method Store(inum: nat, bn: nat, o: nat, chunk: seq<int>) returns (ok: bool, ghost u: State)
      requires Held(inum) && bn < MAXFILE && o + |chunk| <= BSIZE
      modifies this`bitmap, this`blocks, this`logged, this`owner, this`icache
      ensures !ok ==> DiskFull(g.size, bitmap)
      ensures ok ==> Held(inum) && Stored(old(Now()), u, Now(), inum, bn, o, chunk)
      ensures ok ==> Put(old(Now()), u, Now(), inum, bn, o, chunk)
      ensures ok ==> old(logged) + {u.Addr(inum, SlotOf(bn))} <= logged
      ensures ok ==> logged <= old(logged) + (BitmapBlocks(g) + {u.Addr(inum, SlotOf(bn))}) +
                     (if bn < NDIRECT then {} else {u.Addr(inum, NDIRECT)})
      ensures OnlyEntry(old(icache), icache, inum)
    {
      var r := Bmap(inum, bn);
      u := Now();
      if r.None? {
        return false, u;
      }
      OneOwner(u, inum, SlotOf(bn), inum, SlotOf(bn));
      assert u.BlockOk(r.value);
      StoreKeeps(u, inum, bn, Splice(blocks[r.value], o, chunk));
      blocks := blocks[r.value := Splice(blocks[r.value], o, chunk)];
      logged := logged + {r.value as int};
      return true, u;
    }

    // The loop of writei, with every copy succeeding
    method WriteLoop(inum: nat, off: nat, src: seq<int>) returns (ok: bool)
      requires Held(inum) && off + |src| <= MAXFILE * BSIZE
      modifies this`bitmap, this`blocks, this`logged, this`owner, this`icache
      ensures !ok ==> DiskFull(g.size, bitmap)
      ensures ok ==> Held(inum) && Wrote(old(Now()), Now(), inum, off, src)
      ensures ok ==> DataBlocks(Now(), inum, off / BSIZE, Upto(off, |src|)) <= logged
      ensures ok ==> logged <= old(logged) + MayLog(Now(), inum, off / BSIZE, Upto(off, |src|))
      ensures OnlyEntry(old(icache), icache, inum)
    {
      ghost var s, l, c := Now(), logged, icache;
      var tot := 0;
      WroteNothing(s, inum, off);
      while tot < |src|
        invariant tot <= |src| && Held(inum) && Wrote(s, Now(), inum, off, src[..tot]) && OnlyEntry(c, icache, inum)
        invariant tot == 0 || tot == |src| || (off + tot) % BSIZE == 0
        invariant DataBlocks(Now(), inum, off / BSIZE, Upto(off, tot)) <= logged <= l
            + MayLog(Now(), inum, off / BSIZE, Upto(off, tot))
      {
        var next := WriteRound(inum, off, src, tot, s);
        if next <= tot {
          return false;
        }
        tot := next;
      }
      assert src[..tot] == src;
      return true;
    }

    /** Writes src at off: the file becomes the spliced file and no other file changes. Fails
        exactly when off is past the end or the file would outgrow MAXFILE blocks, also where
        off + n wraps around in 32 bits. None is balloc's panic, on a full disk. */
    method Writei(inum: nat, off: nat, src: seq<int>) returns (r: Option<int>)
      requires Held(inum) && off < U32 && |src| < U32
      modifies this
      ensures r == Some(-1) <==> off > old(icache)[inum].size || off + |src| > MAXFILE * BSIZE
      ensures r.None? || r == Some(-1) || r == Some(|src|)
      ensures r.None? ==> DiskFull(g.size, bitmap)
      ensures r == Some(-1) ==> unchanged(this)
      ensures r == Some(|src|) ==> Held(inum) && icache[inum].size == Max(old(icache)[inum].size, off + |src|)
      ensures r == Some(|src|) ==> Now().Contents(inum) == Splice(old(Now().Contents(inum)), off, src)
      ensures r == Some(|src|) ==> BytesAfter(old(Now()), Now(), inum, off, src) && OthersKept(old(Now()), Now(), inum)
      ensures r == Some(|src|) && old(NoHoles(Now(), inum)) ==> NoHoles(Now(), inum)
      ensures r == Some(|src|) && src != [] ==> dinodes == old(dinodes)[inum := icache[inum]]
      ensures r == Some(|src|) ==> forall k: nat :: AddrKept(old(Now()), Now(), inum, inum, k)
      ensures r == Some(|src|) && src != [] && old(logged) == {} ==> WriteLogs(Now(), inum, off, |src|, logged)
      ensures OnlyEntry(old(icache), icache, inum)
    {
      assert Now().InodeOk(inum) && Now().inodes[inum] == icache[inum];
      if off > icache[inum].size || (off + |src|) % U32 < off {
        return Some(-1);
      }
      if (off + |src|) % U32 > MAXFILE * BSIZE {
        return Some(-1);
      }
      ghost var s := Now();
      var ok := WriteLoop(inum, off, src);
      if !ok {
        return None;
      }
      ghost var t := Now();
      WroteContents(s, t, inum, off, src);
      if |src| > 0 {
        SetSizeIs(dinodes, icache, inum, Max(icache[inum].size, off + |src|));
        if off + |src| > icache[inum].size {
          icache := icache[inum := icache[inum].(size := off + |src|)];
        }
        Iupdate(inum);
      }
      assert Now() == SetSize(t, inum, Max(s.inodes[inum].size, off + |src|));
      SizeLogs(s, t, Now(), inum, off / BSIZE, Upto(off, |src|));
      return Some(|src|);
    }

    /** Reads up to n bytes at off: the part of the file that is there, and nothing when off is
        past the end or off + n wraps around. A hole is read as zeros, and a block is allocated
        for it; a file without holes is left as it is. None is balloc's panic, on a full disk. */
    method Readi(inum: nat, off: nat, n: nat) returns (r: Option<seq<int>>)
      requires Held(inum) && off < U32 && n < U32
      modifies this`bitmap, this`blocks, this`logged, this`owner, this`icache
      ensures r.Some? ==> Held(inum) && Grew(old(Now()), Now(), inum)
      ensures r.Some? ==>
        var size := old(icache)[inum].size;
        r.value == if off > size || off + n >= U32 then []
                   else old(Now().Contents(inum))[off..if off + n > size then size else off + n]
      ensures r.None? ==> DiskFull(g.size, bitmap)
      ensures old(NoHoles(Now(), inum)) ==> r.Some? && Now() == old(Now()) && logged == old(logged)
      ensures OnlyEntry(old(icache), icache, inum)
    {
      assert Now().InodeOk(inum) && Now().inodes[inum] == icache[inum];
      if off > icache[inum].size || (off + n) % U32 < off {
        GrewNot(Now(), inum);
        return Some([]);
      }
      ClipArithmetic(off, n, icache[inum].size);
      r := ReadLoop(inum, off, if (off + n) % U32 > icache[inum].size then icache[inum].size else off + n);
    }

    method ReadLoop(inum: nat, off: nat, end: nat) returns (r: Option<seq<int>>)
      requires Held(inum) && off <= end <= icache[inum].size
      modifies this`bitmap, this`blocks, this`logged, this`owner, this`icache
      ensures r.Some? ==> Held(inum) && Grew(old(Now()), Now(), inum) && r.value == old(Now().Contents(inum))[off..end]
      ensures r.None? ==> DiskFull(g.size, bitmap)
      ensures old(NoHoles(Now(), inum)) ==> r.Some? && Now() == old(Now()) && logged == old(logged)
      ensures OnlyEntry(old(icache), icache, inum)
    {
      ghost var s, c, whole := Now(), icache, Now().Contents(inum);
      GrewNot(s, inum);
      var data, p := [], off;
      while p < end
        invariant off <= p <= end <= |whole| == s.inodes[inum].size && data == whole[off..p]
        invariant Held(inum) && Grew(s, Now(), inum) && OnlyEntry(c, icache, inum)
        invariant NoHoles(s, inum) ==> Now() == s && logged == old(logged)
      {
        ghost var t := Now();
        assert t.inodes[inum].size == s.inodes[inum].size && t.inodes[inum] == icache[inum];
        var chunk := ReadRound(inum, p, end);
        if chunk.None? {
          return None;
        }
        ReadMore(s, t, Now(), inum, whole, off, p, chunk.value);
        data, p := data + chunk.value, p + |chunk.value|;
      }
      r := Some(data);
    }

    // One round of readi's loop: the rest of p's block, up to end
    method ReadRound(inum: nat, p: nat, end: nat) returns (chunk: Option<seq<int>>)
      requires Held(inum) && p < end <= icache[inum].size
      modifies this`bitmap, this`blocks, this`logged, this`owner, this`icache
      ensures chunk.Some? ==>
          Held(inum) && Looked(old(Now()), Now(), inum, p / BSIZE, Now().Addr(inum, SlotOf(p / BSIZE)))
      ensures chunk.Some? ==> Bmapped(old(Now()), Now(), inum, p / BSIZE)
      ensures chunk.Some? ==>
          0 < |chunk.value| <= end - p && chunk.value == old(Now().Contents(inum))[p..p + |chunk.value|]
      ensures chunk.None? ==> DiskFull(g.size, bitmap)
      ensures old(NoHoles(Now(), inum)) ==> chunk.Some? && Now() == old(Now()) && logged == old(logged)
      ensures OnlyEntry(old(icache), icache, inum)
    {
      ghost var s := Now();
      assert s.InodeOk(inum) && s.inodes[inum] == icache[inum];
      ReadArithmetic(p, end, icache[inum].size);
      assert NoHoles(s, inum) ==> s.Addr(inum, SlotOf(p / BSIZE)) != 0;
      var r := Bmap(inum, p / BSIZE);
      if r.None? {
        return None;
      }
      var m := if end - p < BSIZE - p % BSIZE then end - p else BSIZE - p % BSIZE;
      GrewContents(s, Now(), inum);
      BytesAt(Now(), inum, p, m);
      chunk := Some(blocks[r.value][p % BSIZE..p % BSIZE + m]);
    }

    // The blocks itrunc has freed so far, seen from the state s in which it began
    ghost predicate Freeing(s: State, inum: nat, n: nat)
      reads this
    {
      Freed(s, bitmap, inum, n) && g == s.g && blocks == s.blocks
    }

    // itrunc's first loop
    method FreeDirect(inum: nat)
      requires Held(inum)
      modifies this`bitmap, this`logged, this`icache
      ensures Freeing(old(Now()), inum, NDIRECT) && logged <= old(logged) + BitmapBlocks(g)
      ensures OnlyEntry(old(icache), icache, inum)
      ensures |old(icache)[inum].addrs| == NDIRECT + 1
      ensures icache[inum] == old(icache)[inum].(addrs := seq(NDIRECT, _ => 0) + [old(icache)[inum].addrs[NDIRECT]])
    {
      ghost var s, was, c := Now(), icache[inum].addrs, icache;
      assert s.InodeOk(inum) && s.inodes[inum] == icache[inum];
      var i := 0;
      while i < NDIRECT
        invariant i <= NDIRECT && Freeing(s, inum, i) && logged <= old(logged) + BitmapBlocks(g)
        invariant OnlyEntry(c, icache, inum)
        invariant icache[inum] == c[inum].(addrs := icache[inum].addrs) && |icache[inum].addrs| == NDIRECT + 1
        invariant forall k :: 0 <= k <= NDIRECT ==> icache[inum].addrs[k] == if k < i then 0 else was[k]
      {
        FreeNext(s, bitmap, inum, i);
        var addrs := icache[inum].addrs;
        if addrs[i] != 0 {
          var _ := Bfree(addrs[i]);
          icache := icache[inum := icache[inum].(addrs := addrs[i := 0])];
        }
        i := i + 1;
      }
      assert icache[inum].addrs == seq(NDIRECT, _ => 0) + [was[NDIRECT]];
    }

    // itrunc's second loop, over indirect block ia
    method FreeEntries(inum: nat, ia: nat, ghost s: State)
      requires s.Ok() && Freeing(s, inum, NDIRECT) && inum < |s.inodes| && s.Addr(inum, NDIRECT) == ia != 0
      modifies this`bitmap, this`logged
      ensures Freeing(s, inum, NSLOTS) && logged <= old(logged) + BitmapBlocks(g)
    {
      OneOwner(s, inum, NDIRECT, inum, NDIRECT);
      assert s.BlockOk(ia) && s.InodeOk(inum);
      var j := 0;
      while j < NINDIRECT
        invariant j <= NINDIRECT && Freeing(s, inum, NDIRECT + j) && logged <= old(logged) + BitmapBlocks(g)
      {
        FreeNext(s, bitmap, inum, NDIRECT + 1 + j);
        if Word(blocks[ia], j) != 0 {
          var _ := Bfree(Word(blocks[ia], j));
        }
        j := j + 1;
      }
      FreeNext(s, bitmap, inum, NDIRECT);
      var _ := Bfree(ia);
    }

    /** Empties a file: exactly the blocks it owned become free. Frees no free block, so the
        source's panic cannot happen. */
    method Itrunc(inum: nat)
      requires Held(inum)
      modifies this
      ensures Held(inum) && Truncated(old(Now()), Now(), inum) && dinodes == old(dinodes)[inum := icache[inum]]
      ensures logged <= old(logged) + BitmapBlocks(g) + {g.IBlock(inum)} && OnlyEntry(old(icache), icache, inum)
    {
      ghost var s, c := Now(), icache;
      assert s.InodeOk(inum) && s.inodes[inum] == icache[inum];
      FreeDirect(inum);
      if icache[inum].addrs[NDIRECT] != 0 {
        OneOwner(s, inum, NDIRECT, inum, NDIRECT);
        FreeEntries(inum, icache[inum].addrs[NDIRECT], s);
        icache := icache[inum := icache[inum].(addrs := icache[inum].addrs[NDIRECT := 0])];
      } else {
        NothingToFree(s, bitmap, inum, NSLOTS);
      }
      owner := map b | b in owner && owner[b].inum != inum :: owner[b];
      icache := icache[inum := icache[inum].(size := 0)];
      assert icache[inum].addrs == NoAddrs;
      OverlaySet(dinodes, c, inum, icache[inum]);
      assert icache == c[inum := icache[inum]];
      Iupdate(inum);
      AllFreed(s, Now(), inum);
      TruncKeepsOk(s, Now(), inum);
    }
  }

  const MAXOPBLOCKS: nat := 10
  const MAXCHUNK: nat := 3 * BSIZE   // ((MAXOPBLOCKS - 1 - 1 - 2) / 2) * BSIZE

  lemma {:induction false} DataBlocksSize(s: State, inum: nat, lo: nat, hi: nat)
    requires lo <= hi
    ensures |DataBlocks(s, inum, lo, hi)| <= hi - lo
  {
    if lo == hi {
      assert DataBlocks(s, inum, lo, hi) == {};
    } else {
      DataBlocksSize(s, inum, lo, hi - 1);
      assert DataBlocks(s, inum, lo, hi) == DataBlocks(s, inum, lo, hi - 1) + {s.Addr(inum, SlotOf(hi - 1))};
    }
  }

  lemma ChunkBlocks(off: nat, n: nat)
    requires n <= MAXCHUNK
    ensures off / BSIZE <= Upto(off, n) <= off / BSIZE + 4
  {
    assert MAXCHUNK == (MAXOPBLOCKS - 1 - 1 - 2) / 2 * BSIZE;
  }

  lemma UnionSize(a: set<int>, x: int, y: int, z: int, n: nat)
    requires |a| <= n
    ensures |{x, y, z} + a| <= n + 3
  {
    var b := {x, y, z} - a;
    assert {x, y, z} + a == b + a && b <= {x, y, z};
    SubsetSize(b, {x, y, z});
    assert |{x} + {y} + {z}| <= 3 && {x} + {y} + {z} == {x, y, z};
  }

  /** What one filewrite chunk can give to log_write: four data blocks, the indirect block,
      the free map block and the inode block, whatever the offset. */
  lemma ChunkFits(s: State, inum: nat, off: nat, n: nat, logs: set<int>)
    requires s.g.size <= BPB && n <= MAXCHUNK && WriteLogs(s, inum, off, n, logs)
    ensures |logs| <= 7 < MAXOPBLOCKS
  {
    var lo, hi := off / BSIZE, Upto(off, n);
    ChunkBlocks(off, n);
    DataBlocksSize(s, inum, lo, hi);
    var data := DataBlocks(s, inum, lo, hi);
    OneBitmapBlock(s.g);
    UnionSize(data, s.g.IBlock(inum), s.g.bmapstart, s.Addr(inum, NDIRECT), 4);
    SubsetSize(logs, {s.g.IBlock(inum), s.g.bmapstart, s.Addr(inum, NDIRECT)} + data);
  }

  lemma OneBitmapBlock(g: Layout)
    requires g.size <= BPB
    ensures BitmapBlocks(g) <= {g.bmapstart}
  {
  }

  lemma SubsetSize(a: set<int>, b: set<int>)
    requires a <= b
    ensures |a| <= |b|
  {
    assert b == a + (b - a);
  }

  class File {
    const inum: nat
    var off: nat

    constructor (inum: nat)
      ensures this.inum == inum && off == 0
    {
      this.inum, off := inum, 0;
    }
  }

  // The first i bytes of data are in the file, and no other file has changed
  ghost predicate Progress(s: State, t: State, inum: nat, off: nat, data: seq<int>, i: nat) {
    && i <= |data| && inum < |s.inodes| == |t.inodes| && OthersKept(s, t, inum)
    && t.inodes[inum].size == (if i == 0 then s.inodes[inum].size else Max(s.inodes[inum].size, off + i))
    && (i > 0 ==> off <= s.inodes[inum].size)
    && BytesAfter(s, t, inum, off, data[..i])
  }

  /** Progress, read as what the file now contains. */
  lemma ProgressIsSplice(s: State, t: State, inum: nat, off: nat, data: seq<int>, i: nat)
    requires Progress(s, t, inum, off, data, i) && s.Ok() && t.Ok() && off <= s.inodes[inum].size
    ensures t.Contents(inum) == Splice(s.Contents(inum), off, data[..i])
  {
    assert s.InodeOk(inum) && t.InodeOk(inum);
    forall p | 0 <= p < t.inodes[inum].size
      ensures t.Contents(inum)[p] == Splice(s.Contents(inum), off, data[..i])[p]
    {
      assert ByteAfter(s, t, inum, off, data[..i], inum, p);
    }
  }

  lemma MoreProgress(s: State, t: State, u: State, inum: nat, off: nat, data: seq<int>, i: nat, n1: nat)
    requires Progress(s, t, inum, off, data, i) && i + n1 <= |data| && 0 < n1
    requires off + i <= t.inodes[inum].size && |u.inodes| == |t.inodes|
    requires u.inodes[inum].size == Max(t.inodes[inum].size, off + i + n1)
    requires BytesAfter(t, u, inum, off + i, data[i..i + n1]) && OthersKept(t, u, inum)
    ensures Progress(s, u, inum, off, data, i + n1)
  {
    forall j | 0 <= j < |s.inodes| && j != inum
      ensures SameFile(s, u, j)
    {
      assert SameFile(s, t, j) && SameFile(t, u, j);
    }
    var done := data[..i + n1];
    forall p: nat | p < MAXFILE * BSIZE
      ensures ByteAfter(s, u, inum, off, done, inum, p)
    {
      assert ByteAfter(s, t, inum, off, data[..i], inum, p);
      assert ByteAfter(t, u, inum, off + i, data[i..i + n1], inum, p);
    }
  }

  // One transaction of filewrite
  method WriteChunk(fs: Fs, f: File, chunk: seq<int>) returns (r: Option<int>)
    requires fs.Held(f.inum) && f.off < U32 && 0 < |chunk| <= MAXCHUNK
    modifies fs, f`off
    ensures r == Some(-1) <==> old(f.off) > old(fs.icache)[f.inum].size || old(f.off) + |chunk| > MAXFILE * BSIZE
    ensures r.None? || r == Some(-1) || r == Some(|chunk|)
    ensures r.None? ==> DiskFull(fs.g.size, fs.bitmap)
    ensures r == Some(-1) ==> fs.Held(f.inum) && fs.Now() == old(fs.Now()) && f.off == old(f.off) && fs.logged == {}
    ensures r == Some(|chunk|) ==> fs.Held(f.inum) && f.off == old(f.off) + |chunk| <= fs.icache[f.inum].size
    ensures r == Some(|chunk|) ==>
      && fs.icache[f.inum].size == Max(old(fs.icache)[f.inum].size, old(f.off) + |chunk|)
      && BytesAfter(old(fs.Now()), fs.Now(), f.inum, old(f.off), chunk)
      && OthersKept(old(fs.Now()), fs.Now(), f.inum)
    ensures r == Some(|chunk|) ==> WriteLogs(fs.Now(), f.inum, old(f.off), |chunk|, fs.logged)
    ensures r == Some(|chunk|) ==> forall k: nat :: AddrKept(old(fs.Now()), fs.Now(), f.inum, f.inum, k)
  {
    fs.logged := {};
    r := fs.Writei(f.inum, f.off, chunk);
    if r == Some(|chunk|) {
      f.off := f.off + r.value;
    }
  }

  // The length of chunk k of i bytes
  function ChunkSize(i: nat, k: nat): nat
    requires k * MAXCHUNK <= i
  {
    if i - k * MAXCHUNK < MAXCHUNK then i - k * MAXCHUNK else MAXCHUNK
  }

  // The transactions of filewrite, one for each chunk of the i bytes that are written: `logs` are
  // the blocks that each gives to log_write
  ghost predicate ChunkLogs(s: State, inum: nat, off: nat, i: nat, logs: seq<set<int>>) {
    && (|logs| - 1) * MAXCHUNK < i <= |logs| * MAXCHUNK
    && forall k :: 0 <= k < |logs| ==> ChunkLog(s, inum, off, i, k, logs[k])
  }

  ghost predicate ChunkLog(s: State, inum: nat, off: nat, i: nat, k: nat, l: set<int>) {
    k * MAXCHUNK < i && WriteLogs(s, inum, off + k * MAXCHUNK, ChunkSize(i, k), l) && (s.g.size <= BPB ==> |l| <= 7)
  }

  lemma NextChunk(s: State, t: State, inum: nat, off: nat, i: nat, n1: nat, logs: seq<set<int>>, l: set<int>)
    requires ChunkLogs(s, inum, off, i, logs) && i == |logs| * MAXCHUNK && 0 < n1 <= MAXCHUNK
    requires t.g == s.g && (forall k: nat :: AddrKept(s, t, inum, inum, k)) && WriteLogs(t, inum, off + i, n1, l)
    ensures ChunkLogs(t, inum, off, i + n1, logs + [l])
  {
    var all := logs + [l];
    forall k | 0 <= k < |all|
      ensures ChunkLog(t, inum, off, i + n1, k, all[k])
    {
      if k < |logs| {
        assert ChunkLog(s, inum, off, i, k, logs[k]);
        ChunkLogKept(s, t, inum, off, i, n1, k, |logs|, logs[k]);
      } else {
        LastChunk(t, inum, off, i, n1, k, l);
      }
    }
  }

  lemma LastChunk(t: State, inum: nat, off: nat, i: nat, n1: nat, k: nat, l: set<int>)
    requires i == k * MAXCHUNK && 0 < n1 <= MAXCHUNK && WriteLogs(t, inum, off + i, n1, l)
    ensures ChunkLog(t, inum, off, i + n1, k, l)
  {
    assert ChunkSize(i + n1, k) == n1;
    if t.g.size <= BPB {
      ChunkFits(t, inum, off + i, n1, l);
    }
  }

  lemma ChunkLogKept(s: State, t: State, inum: nat, off: nat, i: nat, n1: nat, k: nat, n: nat, l: set<int>)
    requires ChunkLog(s, inum, off, i, k, l) && k < n && i == n * MAXCHUNK
    requires t.g == s.g && forall k: nat :: AddrKept(s, t, inum, inum, k)
    ensures ChunkLog(t, inum, off, i + n1, k, l)
  {
    ChunkFull(i, k, n);
    ChunkFull(i + n1, k, n);
    WriteLogsKept(s, t, inum, off + k * MAXCHUNK, ChunkSize(i, k), l);
  }

  lemma ChunkFull(i: nat, k: nat, n: nat)
    requires k < n && n * MAXCHUNK <= i
    ensures k * MAXCHUNK < i && ChunkSize(i, k) == MAXCHUNK
  {
    assert (k + 1) * MAXCHUNK <= n * MAXCHUNK;
  }

  // The loop of filewrite
  ghost predicate Written(s: State, t: State, inum: nat, off: nat, data: seq<int>, i: nat, logs: seq<set<int>>) {
    Progress(s, t, inum, off, data, i) && ChunkLogs(t, inum, off, i, logs)
  }

  lemma NextWritten(s: State, t: State, u: State, inum: nat, off: nat, data: seq<int>, i: nat, n1: nat,
      logs: seq<set<int>>, l: set<int>,
                    i': nat, logs': seq<set<int>>)
    requires Written(s, t, inum, off, data, i, logs) && i' == i + n1 <= |data| && i == |logs| * MAXCHUNK
    requires 0 < n1 <= MAXCHUNK
    requires off + i <= t.inodes[inum].size && |u.inodes| == |t.inodes| && u.g == t.g && logs' == logs + [l]
    requires u.inodes[inum].size == Max(t.inodes[inum].size, off + i')
    requires n1 == (if |data| - i > MAXCHUNK then MAXCHUNK else |data| - i)
    requires BytesAfter(t, u, inum, off + i, data[i..i']) && OthersKept(t, u, inum)
    requires (forall k: nat :: AddrKept(t, u, inum, inum, k)) && WriteLogs(u, inum, off + i, n1, l)
    ensures Written(s, u, inum, off, data, i', logs') && (i' == |data| || i' == |logs'| * MAXCHUNK)
  {
    MoreProgress(s, t, u, inum, off, data, i, n1);
    NextChunk(t, u, inum, off, i, n1, logs, l);
  }

  /** write() on a file: the data goes in at the file's offset, a chunk per transaction, and every
      transaction logs the chunk's data blocks and no more than 7 blocks. It fails exactly when the
      offset is past the end or the file would outgrow MAXFILE blocks, after writing the chunks that
      fit. */
  method FileWrite(fs: Fs, f: File, data: seq<int>)
      returns (ret: Option<int>, ghost done: nat, ghost logs: seq<set<int>>)
    requires fs.Held(f.inum) && f.off < U32 && |data| < 0x8000_0000
    modifies fs, f`off
    ensures ret.None? ==> DiskFull(fs.g.size, fs.bitmap)
    ensures ret.Some? ==> fs.Held(f.inum) && Progress(old(fs.Now()), fs.Now(), f.inum, old(f.off), data, done)
    ensures ret.Some? ==> f.off == old(f.off) + done && ret.value == if done == |data| then |data| else -1
    ensures ret.Some? ==>
      (done == |data| <==>
        data == [] || (old(f.off) <= old(fs.icache)[f.inum].size && old(f.off) + |data| <= MAXFILE * BSIZE))
    ensures ret.Some? ==> ChunkLogs(fs.Now(), f.inum, old(f.off), done, logs)
  {
    ghost var s := fs.Now();
    var i := 0;
    logs := [];
    while i < |data|
      invariant i <= |data| && fs.Held(f.inum) && f.off == old(f.off) + i && (i == |data| || i == |logs| * MAXCHUNK)
      invariant Written(s, fs.Now(), f.inum, old(f.off), data, i, logs)
      invariant i == 0 ==> fs.icache[f.inum].size == old(fs.icache)[f.inum].size
      invariant i > 0 ==>
          old(f.off) <= old(fs.icache)[f.inum].size && f.off <= fs.icache[f.inum].size <= MAXFILE * BSIZE
    {
      var n1 := if |data| - i > MAXCHUNK then MAXCHUNK else |data| - i;
      ghost var t := fs.Now();
      var r := WriteChunk(fs, f, data[i..i + n1]);
      if r.None? {
        return None, i, logs;
      }
      if r.value < 0 {
        return Some(-1), i, logs;
      }
      assert fs.Now().InodeOk(f.inum);
      ghost var was, at := logs, i;
      i, logs := i + n1, logs + [fs.logged];
      NextWritten(s, t, fs.Now(), f.inum, old(f.off), data, at, n1, was, fs.logged, i, logs);
    }
    return Some(|data|), i, logs;
  }
}
