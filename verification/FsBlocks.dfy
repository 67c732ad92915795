/** The free map, one bit per block, packed into bytes. */
module Bitmap {

  function Mask(k: nat): bv8
    requires k < 8
  {
    (1 as bv8) << k
  }

  predicate Bit(bm: seq<bv8>, b: nat)
    requires b / 8 < |bm|
  {
    bm[b / 8] & Mask(b % 8) != 0
  }

  function SetBit(bm: seq<bv8>, b: nat): seq<bv8>
    requires b / 8 < |bm|
  {
    bm[b / 8 := bm[b / 8] | Mask(b % 8)]
  }

  function ClearBit(bm: seq<bv8>, b: nat): seq<bv8>
    requires b / 8 < |bm|
  {
    bm[b / 8 := bm[b / 8] & !Mask(b % 8)]
  }

  lemma Masks(x: bv8, j: nat, k: nat)
    requires j < 8 && k < 8
    ensures (x | Mask(j)) & Mask(k) != 0 <==> j == k || x & Mask(k) != 0
    ensures (x & !Mask(j)) & Mask(k) != 0 <==> j != k && x & Mask(k) != 0
  {
    assert Mask(0) == 1 && Mask(1) == 2 && Mask(2) == 4 && Mask(3) == 8;
    assert Mask(4) == 16 && Mask(5) == 32 && Mask(6) == 64 && Mask(7) == 128;
  }

  /** Marking a block changes its bit and no other. */
  lemma SetBitOnly(bm: seq<bv8>, b: nat, c: nat)
    requires b / 8 < |bm| && c / 8 < |bm|
    ensures Bit(SetBit(bm, b), c) <==> b == c || Bit(bm, c)
  {
    if b / 8 == c / 8 {
      Masks(bm[b / 8], b % 8, c % 8);
    }
  }

  lemma ClearBitOnly(bm: seq<bv8>, b: nat, c: nat)
    requires b / 8 < |bm| && c / 8 < |bm|
    ensures Bit(ClearBit(bm, b), c) <==> b != c && Bit(bm, c)
  {
    if b / 8 == c / 8 {
      Masks(bm[b / 8], b % 8, c % 8);
    }
  }
}

/** Inodes, the blocks they own, and the file contents they stand for. */
module FsState {
  import opened Bitmap

  const BSIZE: nat := 1024
  const NDIRECT: nat := 12
  const NINDIRECT: nat := 256      // BSIZE / sizeof(uint)
  const MAXFILE: nat := NDIRECT + NINDIRECT
  const NSLOTS: nat := NDIRECT + 1 + NINDIRECT
  const BPB: nat := BSIZE * 8
  const IPB: nat := 16             // BSIZE / sizeof(struct dinode)
  const U32: nat := 0x1_0000_0000

  type Blk = seq<int>              // BSIZE bytes

  function Zeros(): Blk {
    seq(BSIZE, _ => 0)
  }

  // Entry j of a block read as an array of little-endian uints
  function Word(b: Blk, j: nat): int
    requires |b| == BSIZE && j < NINDIRECT
  {
    b[4 * j] + 256 * (b[4 * j + 1] + 256 * (b[4 * j + 2] + 256 * b[4 * j + 3]))
  }

  function PutWord(b: Blk, j: nat, x: nat): Blk
    requires |b| == BSIZE && j < NINDIRECT
  {
    var y := x / 256;
    var z := y / 256;
    b[4 * j := x % 256][4 * j + 1 := y % 256][4 * j + 2 := z % 256][4 * j + 3 := z / 256]
  }

  lemma WordPut(b: Blk, j: nat, x: nat, k: nat)
    requires |b| == BSIZE && j < NINDIRECT && k < NINDIRECT
    ensures Word(PutWord(b, j, x), k) == if k == j then x else Word(b, k)
  {
    var y := x / 256;
    var z := y / 256;
    assert x == x % 256 + 256 * y && y == y % 256 + 256 * z && z == z % 256 + 256 * (z / 256);
  }

  datatype Dinode = Dinode(kind: int, size: nat, addrs: seq<int>)

  const NoAddrs: seq<int> := [0, 0, 0, 0, 0, 0, 0, 0, 0, 0, 0, 0, 0]

  // The blocks before datastart hold the boot block, superblock, log, inodes and free map.
  datatype Layout = Layout(size: nat, ninodes: nat, inodestart: nat, bmapstart: nat, datastart: nat) {
    function BBlock(b: nat): nat { b / BPB + bmapstart }
    function IBlock(inum: nat): nat { inum / IPB + inodestart }
  }

  // Where a block number can stand: a direct address (k < NDIRECT), the indirect address
  // (k == NDIRECT), or an entry of the indirect block.
  datatype Slot = Slot(inum: nat, k: nat)

  function SlotOf(bn: nat): nat {
    if bn < NDIRECT then bn else bn + 1
  }

  // `owner` gives the slot that each allocated data block stands in.
  datatype State = State(g: Layout, bitmap: seq<bv8>, blocks: seq<Blk>, inodes: seq<Dinode>, owner: map<int, Slot>) {

    // Entry j of indirect block a, if there is one
    function Entry(a: int, j: nat): int {
      if 0 < a < |blocks| && |blocks[a]| == BSIZE && j < NINDIRECT then Word(blocks[a], j) else 0
    }

    // The block number in a slot; 0 for none
    function Addr(inum: nat, k: nat): int {
      if inum >= |inodes| || |inodes[inum].addrs| != NDIRECT + 1 then 0
      else if k <= NDIRECT then inodes[inum].addrs[k]
      else Entry(inodes[inum].addrs[NDIRECT], k - NDIRECT - 1)
    }

    // Byte p of a file, 0 where no block is allocated
    function FileByte(inum: nat, p: nat): int {
      var a := Addr(inum, SlotOf(p / BSIZE));
      if 0 < a < |blocks| && |blocks[a]| == BSIZE then blocks[a][p % BSIZE] else 0
    }

    function Contents(inum: nat): seq<int>
      requires inum < |inodes|
    {
      seq(inodes[inum].size, p requires 0 <= p => FileByte(inum, p))
    }

    ghost predicate InodeOk(inum: nat)
      requires inum < |inodes|
    {
      |inodes[inum].addrs| == NDIRECT + 1 && inodes[inum].size <= MAXFILE * BSIZE
    }

    /** A block number in use is owned by the slot it stands in. */
    ghost predicate SlotOk(inum: nat, k: nat) {
      var a := Addr(inum, k);
      a == 0 || (a in owner && owner[a] == Slot(inum, k))
    }

    /** A data block's bit is set exactly when some slot holds its number; the blocks before
        the data area are always marked. */
    ghost predicate BlockOk(b: nat)
      requires b < |blocks| && b / 8 < |bitmap|
    {
      && |blocks[b]| == BSIZE
      && if b < g.datastart then Bit(bitmap, b) && b !in owner
         else Bit(bitmap, b) == (b in owner)
    }

    ghost predicate OwnerOk(b: int) {
      b in owner ==>
        g.datastart <= b < g.size && owner[b].inum < |inodes| && owner[b].k < NSLOTS
          && Addr(owner[b].inum, owner[b].k) == b
    }

    ghost predicate Ok() {
      && |blocks| == g.size <= 8 * |bitmap| && 1 <= g.datastart <= g.size < U32 && |inodes| == g.ninodes
      && (forall i :: 0 <= i < |inodes| ==> InodeOk(i))
      && (forall i, k :: 0 <= i < |inodes| && 0 <= k < NSLOTS ==> SlotOk(i, k))
      && (forall b :: 0 <= b < |blocks| ==> BlockOk(b))
      && (forall b :: OwnerOk(b))
    }
  }

  /** Every data block is free or stands in exactly one slot of exactly one inode. */
  lemma OneOwner(s: State, i: nat, k: nat, j: nat, l: nat)
    requires s.Ok() && i < |s.inodes| && j < |s.inodes| && k < NSLOTS && l < NSLOTS
    requires s.Addr(i, k) == s.Addr(j, l) != 0
    ensures i == j && k == l && s.g.datastart <= s.Addr(i, k) < s.g.size && Bit(s.bitmap, s.Addr(i, k))
  {
    assert s.SlotOk(i, k) && s.SlotOk(j, l);
    assert s.OwnerOk(s.Addr(i, k));
    assert s.BlockOk(s.Addr(i, k));
  }

  // A free block is put into an empty slot
  ghost predicate Claimed(s: State, t: State, w: Slot, b: nat) {
    && b < s.g.size <= 8 * |s.bitmap| && !Bit(s.bitmap, b) && s.Addr(w.inum, w.k) == 0
    && w.inum < |s.inodes| && w.k < NSLOTS
    && t.g == s.g && t.bitmap == SetBit(s.bitmap, b) && t.owner == s.owner[b := w]
    && |t.inodes| == |s.inodes| && |t.blocks| == |s.blocks|
    && (forall i :: 0 <= i < |t.inodes| ==> t.InodeOk(i))
    && (forall c :: 0 <= c < |t.blocks| ==> |t.blocks[c]| == BSIZE)
    && (forall i: nat, k: nat :: t.Addr(i, k) == if i == w.inum && k == w.k then b else s.Addr(i, k))
  }

  lemma ClaimKeepsOk(s: State, t: State, w: Slot, b: nat)
    requires s.Ok() && Claimed(s, t, w, b)
    ensures t.Ok() && b >= s.g.datastart && b !in s.owner
  {
    assert s.BlockOk(b) && s.OwnerOk(b);
    forall i, k | 0 <= i < |t.inodes| && 0 <= k < NSLOTS
      ensures t.SlotOk(i, k)
    {
      assert s.SlotOk(i, k);
      assert t.Addr(i, k) == if i == w.inum && k == w.k then b else s.Addr(i, k);
    }
    forall c | 0 <= c < |t.blocks|
      ensures t.BlockOk(c)
    {
      assert s.BlockOk(c);
      SetBitOnly(s.bitmap, b, c);
    }
    forall c
      ensures t.OwnerOk(c)
    {
      assert s.OwnerOk(c);
      if c in t.owner {
        assert t.Addr(t.owner[c].inum, t.owner[c].k) == if t.owner[c] == w then b
          else s.Addr(t.owner[c].inum, t.owner[c].k);
      }
    }
  }

  // balloc can take block b
  predicate Free(s: State, b: nat) {
    b < s.g.size && b < |s.blocks| && b / 8 < |s.bitmap| && !Bit(s.bitmap, b)
  }

  // balloc's block b becomes address k of an inode
  function AllocDirect(s: State, inum: nat, k: nat, b: nat): State
    requires inum < |s.inodes| && |s.inodes[inum].addrs| == NDIRECT + 1 && k <= NDIRECT && Free(s, b)
  {
    s.(bitmap := SetBit(s.bitmap, b), blocks := s.blocks[b := Zeros()], owner := s.owner[b := Slot(inum, k)],
       inodes := s.inodes[inum := s.inodes[inum].(addrs := s.inodes[inum].addrs[k := b])])
  }

  // balloc's block b becomes entry j of indirect block ia
  function AllocEntry(s: State, inum: nat, ia: nat, j: nat, b: nat): State
    requires ia < |s.blocks| && |s.blocks[ia]| == BSIZE && j < NINDIRECT && Free(s, b)
  {
    s.(bitmap := SetBit(s.bitmap, b), owner := s.owner[b := Slot(inum, NDIRECT + 1 + j)],
       blocks := s.blocks[b := Zeros()][ia := PutWord(s.blocks[ia], j, b)])
  }

  lemma DirectClaims(s: State, inum: nat, k: nat, b: nat)
    requires s.Ok() && inum < |s.inodes| && k <= NDIRECT && b < s.g.size && s.InodeOk(inum)
    requires !Bit(s.bitmap, b) && s.Addr(inum, k) == 0
    ensures Claimed(s, AllocDirect(s, inum, k, b), Slot(inum, k), b)
  {
    var t := AllocDirect(s, inum, k, b);
    assert s.BlockOk(b) && s.OwnerOk(b);
    forall i | 0 <= i < |t.inodes|
      ensures t.InodeOk(i)
    {
      assert s.InodeOk(i);
    }
    forall c | 0 <= c < |t.blocks|
      ensures |t.blocks[c]| == BSIZE
    {
      assert s.BlockOk(c);
    }
    forall i: nat, l: nat
      ensures t.Addr(i, l) == if i == inum && l == k then b else s.Addr(i, l)
    {
      if i < |s.inodes| {
        assert s.InodeOk(i) && s.SlotOk(i, NDIRECT);
      }
    }
  }

  lemma EntryClaims(s: State, inum: nat, j: nat, b: nat)
    requires s.Ok() && inum < |s.inodes| && j < NINDIRECT && b < s.g.size && !Bit(s.bitmap, b)
    requires s.Addr(inum, NDIRECT) != 0 && s.Addr(inum, NDIRECT + 1 + j) == 0
    ensures 0 < s.Addr(inum, NDIRECT) < s.g.size && |s.blocks[s.Addr(inum, NDIRECT)]| == BSIZE
    ensures Claimed(s, AllocEntry(s, inum, s.Addr(inum, NDIRECT), j, b), Slot(inum, NDIRECT + 1 + j), b)
  {
    OneOwner(s, inum, NDIRECT, inum, NDIRECT);
    var ia := s.Addr(inum, NDIRECT);
    assert s.BlockOk(ia) && s.BlockOk(b) && s.OwnerOk(b) && s.SlotOk(inum, NDIRECT);
    var t := AllocEntry(s, inum, ia, j, b);
    forall i | 0 <= i < |t.inodes|
      ensures t.InodeOk(i)
    {
      assert s.InodeOk(i);
    }
    forall c | 0 <= c < |t.blocks|
      ensures |t.blocks[c]| == BSIZE
    {
      assert s.BlockOk(c);
    }
    forall i: nat, l: nat
      ensures t.Addr(i, l) == if i == inum && l == NDIRECT + 1 + j then b else s.Addr(i, l)
    {
      if i < |s.inodes| {
        assert s.InodeOk(i) && s.SlotOk(i, NDIRECT);
        if NDIRECT < l < NSLOTS {
          WordPut(s.blocks[ia], j, b, l - NDIRECT - 1);
        }
      }
    }
  }

  ghost predicate SameAddr(s: State, t: State, i: nat, k: nat) {
    t.Addr(i, k) == s.Addr(i, k)
  }

  // Only block b and indirect blocks differ from s
  ghost predicate DataKept(s: State, t: State, b: int) {
    && |t.blocks| == |s.blocks|
    && forall c :: 0 <= c < |s.blocks| && c != b && !(c in s.owner && s.owner[c].k == NDIRECT) ==>
         t.blocks[c] == s.blocks[c]
  }

  /** Allocating a block, anywhere, changes no byte of any file: the new block reads as the
      hole it fills. */
  lemma ClaimKeepsBytes(s: State, t: State, w: Slot, b: nat, i: nat, p: nat)
    requires s.Ok() && Claimed(s, t, w, b) && t.blocks[b] == Zeros() && DataKept(s, t, b)
    requires i < |s.inodes| && p < MAXFILE * BSIZE
    ensures t.FileByte(i, p) == s.FileByte(i, p)
  {
    var k := SlotOf(p / BSIZE);
    assert t.Addr(i, k) == if i == w.inum && k == w.k then b else s.Addr(i, k);
    assert s.SlotOk(i, k);
    if s.Addr(i, k) != 0 {
      OneOwner(s, i, k, i, k);
      assert s.BlockOk(s.Addr(i, k)) && s.OwnerOk(s.Addr(i, k));
    }
  }

  /** Storing into a data block changes that block of that file and nothing else. */
  lemma StoreKeeps(s: State, inum: nat, bn: nat, data: Blk)
    requires s.Ok() && inum < |s.inodes| && bn < MAXFILE && |data| == BSIZE && s.Addr(inum, SlotOf(bn)) != 0
    ensures 0 < s.Addr(inum, SlotOf(bn)) < s.g.size
    ensures
      var t := s.(blocks := s.blocks[s.Addr(inum, SlotOf(bn)) := data]);
      && t.Ok()
      && (forall i: nat, k: nat :: SameAddr(s, t, i, k))
      && (forall i: nat, p: nat :: i < |s.inodes| && p < MAXFILE * BSIZE ==>
            t.FileByte(i, p) == if i == inum && p / BSIZE == bn then data[p % BSIZE] else s.FileByte(i, p))
  {
    var k := SlotOf(bn);
    OneOwner(s, inum, k, inum, k);
    var a := s.Addr(inum, k);
    var t := s.(blocks := s.blocks[a := data]);
    forall i: nat, l: nat
      ensures SameAddr(s, t, i, l)
    {
      if i < |s.inodes| && s.Addr(i, NDIRECT) == a {
        OneOwner(s, i, NDIRECT, inum, k);
      }
    }
    forall i | 0 <= i < |t.inodes|
      ensures t.InodeOk(i)
    {
      assert s.InodeOk(i);
    }
    SameAddrKeepsOk(s, t);
    forall i: nat, p: nat | i < |s.inodes| && p < MAXFILE * BSIZE
      ensures t.FileByte(i, p) == if i == inum && p / BSIZE == bn then data[p % BSIZE] else s.FileByte(i, p)
    {
      var l := SlotOf(p / BSIZE);
      assert SameAddr(s, t, i, l);
      if s.Addr(i, l) == a {
        OneOwner(s, i, l, inum, k);
      }
    }
  }

  lemma SameAddrKeepsOk(s: State, t: State)
    requires s.Ok() && t.g == s.g && t.bitmap == s.bitmap && t.owner == s.owner && |t.blocks| == |s.blocks|
    requires |t.inodes| == |s.inodes| && forall i :: 0 <= i < |t.inodes| ==> t.InodeOk(i)
    requires forall c :: 0 <= c < |s.blocks| ==> t.blocks[c] == s.blocks[c] || |t.blocks[c]| == BSIZE
    requires forall i: nat, k: nat :: SameAddr(s, t, i, k)
    ensures t.Ok()
  {
    forall i, k | 0 <= i < |t.inodes| && 0 <= k < NSLOTS
      ensures t.SlotOk(i, k)
    {
      assert s.SlotOk(i, k) && SameAddr(s, t, i, k);
    }
    forall c | 0 <= c < |t.blocks|
      ensures t.BlockOk(c)
    {
      assert s.BlockOk(c);
    }
    forall c
      ensures t.OwnerOk(c)
    {
      assert s.OwnerOk(c);
      assert c in s.owner ==> SameAddr(s, t, t.owner[c].inum, t.owner[c].k);
    }
  }

  // Inode inum is emptied and the blocks it owned, and no others, become free
  ghost predicate Truncated(s: State, t: State, inum: nat) {
    && inum < |s.inodes| == |t.inodes| && t.g == s.g && t.blocks == s.blocks && |t.bitmap| == |s.bitmap|
    && s.g.size <= 8 * |s.bitmap|
    && t.inodes == s.inodes[inum := Dinode(s.inodes[inum].kind, 0, NoAddrs)]
    && t.owner == (map b | b in s.owner && s.owner[b].inum != inum :: s.owner[b])
    && forall b :: 0 <= b < s.g.size ==>
         Bit(t.bitmap, b) == (Bit(s.bitmap, b) && !(b in s.owner && s.owner[b].inum == inum))
  }

  lemma TruncKeepsOk(s: State, t: State, inum: nat)
    requires s.Ok() && Truncated(s, t, inum)
    ensures t.Ok()
    ensures forall i: nat, k: nat :: t.Addr(i, k) == if i == inum then 0 else s.Addr(i, k)
  {
    assert t.inodes[inum].addrs[NDIRECT] == 0;
    forall i | 0 <= i < |t.inodes|
      ensures t.InodeOk(i)
    {
      assert s.InodeOk(i);
    }
    forall i: nat, k: nat
      ensures t.Addr(i, k) == if i == inum then 0 else s.Addr(i, k)
    {
    }
    forall i, k | 0 <= i < |t.inodes| && 0 <= k < NSLOTS
      ensures t.SlotOk(i, k)
    {
      assert s.SlotOk(i, k);
      assert t.Addr(i, k) == if i == inum then 0 else s.Addr(i, k);
    }
    forall c | 0 <= c < |t.blocks|
      ensures t.BlockOk(c)
    {
      assert s.BlockOk(c);
    }
    forall c
      ensures t.OwnerOk(c)
    {
      assert s.OwnerOk(c);
      if c in t.owner {
        assert t.Addr(t.owner[c].inum, t.owner[c].k) == s.Addr(t.owner[c].inum, t.owner[c].k);
      }
    }
  }

  // A slot that was filled, or is another inode's, is as it was
  ghost predicate AddrKept(s: State, t: State, inum: nat, i: nat, k: nat) {
    s.Addr(i, k) != 0 || i != inum ==> t.Addr(i, k) == s.Addr(i, k)
  }

  ghost predicate SameByte(s: State, t: State, i: nat, p: nat) {
    t.FileByte(i, p) == s.FileByte(i, p)
  }

  // Some slots of inode inum may have been filled; no file's bytes and no other inode changed
  ghost predicate Grew(s: State, t: State, inum: nat) {
    && s.Ok() && t.Ok() && t.g == s.g && inum < |s.inodes| == |t.inodes|
    && t.inodes == s.inodes[inum := s.inodes[inum].(addrs := t.inodes[inum].addrs)]
    && (forall i: nat, k: nat :: AddrKept(s, t, inum, i, k))
    && (forall i: nat, p: nat :: i < |s.inodes| && p < MAXFILE * BSIZE ==> SameByte(s, t, i, p))
  }

  // At most slot k of inode inum differs
  ghost predicate OnlySlot(s: State, t: State, inum: nat, k: nat) {
    forall i: nat, l: nat :: (i == inum && l == k) || SameAddr(s, t, i, l)
  }

  lemma DirectGrows(s: State, inum: nat, k: nat, b: nat)
    requires s.Ok() && inum < |s.inodes| && k <= NDIRECT && b < s.g.size && s.InodeOk(inum)
    requires !Bit(s.bitmap, b) && s.Addr(inum, k) == 0
    ensures Grew(s, AllocDirect(s, inum, k, b), inum) && AllocDirect(s, inum, k, b).Addr(inum, k) == b != 0
    ensures OnlySlot(s, AllocDirect(s, inum, k, b), inum, k)
  {
    var t := AllocDirect(s, inum, k, b);
    DirectClaims(s, inum, k, b);
    ClaimKeepsOk(s, t, Slot(inum, k), b);
    forall i: nat, l: nat
      ensures AddrKept(s, t, inum, i, l)
    {
    }
    forall i: nat, p: nat | i < |s.inodes| && p < MAXFILE * BSIZE
      ensures SameByte(s, t, i, p)
    {
      ClaimKeepsBytes(s, t, Slot(inum, k), b, i, p);
    }
  }

  lemma EntryGrows(s: State, inum: nat, j: nat, b: nat)
    requires s.Ok() && inum < |s.inodes| && j < NINDIRECT && b < s.g.size && !Bit(s.bitmap, b)
    requires s.Addr(inum, NDIRECT) != 0 && s.Addr(inum, NDIRECT + 1 + j) == 0
    ensures 0 < s.Addr(inum, NDIRECT) < s.g.size && |s.blocks[s.Addr(inum, NDIRECT)]| == BSIZE
    ensures s.Addr(inum, NDIRECT) != b
    ensures
      var t := AllocEntry(s, inum, s.Addr(inum, NDIRECT), j, b);
      && Grew(s, t, inum) && t.Addr(inum, NDIRECT + 1 + j) == b != 0 && t.Addr(inum, NDIRECT) == s.Addr(inum, NDIRECT)
      && OnlySlot(s, t, inum, NDIRECT + 1 + j)
  {
    EntryClaims(s, inum, j, b);
    var ia := s.Addr(inum, NDIRECT);
    assert s.SlotOk(inum, NDIRECT) && s.BlockOk(ia) && s.BlockOk(b);
    var t := AllocEntry(s, inum, ia, j, b);
    ClaimKeepsOk(s, t, Slot(inum, NDIRECT + 1 + j), b);
    forall i: nat, l: nat
      ensures AddrKept(s, t, inum, i, l)
    {
    }
    forall i: nat, p: nat | i < |s.inodes| && p < MAXFILE * BSIZE
      ensures SameByte(s, t, i, p)
    {
      ClaimKeepsBytes(s, t, Slot(inum, NDIRECT + 1 + j), b, i, p);
    }
  }

  lemma GrewNot(s: State, inum: nat)
    requires s.Ok() && inum < |s.inodes|
    ensures Grew(s, s, inum)
  {
    assert s.inodes[inum := s.inodes[inum].(addrs := s.inodes[inum].addrs)] == s.inodes;
  }

  // ---------- what bmap does ----------

  // Address k of the inode, direct or indirect, is there, or a free block is put there
  ghost predicate PutAddr(s: State, t: State, inum: nat, k: nat) {
    && inum < |s.inodes| && |s.inodes[inum].addrs| == NDIRECT + 1 && k <= NDIRECT
    && if s.inodes[inum].addrs[k] != 0 then t == s
       else exists b: nat :: Free(s, b) && t == AllocDirect(s, inum, k, b)
  }

  // Entry j of the inode's indirect block is there, or a free block is put there
  ghost predicate PutEntry(s: State, t: State, inum: nat, j: nat) {
    && inum < |s.inodes| && |s.inodes[inum].addrs| == NDIRECT + 1 && j < NINDIRECT
    && var ia := s.inodes[inum].addrs[NDIRECT];
       && 0 <= ia < |s.blocks| && |s.blocks[ia]| == BSIZE
       && if Word(s.blocks[ia], j) != 0 then t == s
          else exists b: nat :: Free(s, b) && t == AllocEntry(s, inum, ia, j, b)
  }

  // bmap(ip, bn), if it does not panic
  ghost predicate Bmapped(s: State, t: State, inum: nat, bn: nat) {
    if bn < NDIRECT then PutAddr(s, t, inum, bn)
    else exists u :: PutAddr(s, u, inum, NDIRECT) && PutEntry(u, t, inum, bn - NDIRECT)
  }

  lemma AddrGrows(s: State, t: State, inum: nat, k: nat)
    requires s.Ok() && PutAddr(s, t, inum, k)
    ensures Grew(s, t, inum) && t.Addr(inum, k) != 0
    ensures s.Addr(inum, k) != 0 ==> t == s
  {
    assert s.InodeOk(inum);
    if s.Addr(inum, k) != 0 {
      GrewNot(s, inum);
    } else {
      var b: nat :| Free(s, b) && t == AllocDirect(s, inum, k, b);
      DirectGrows(s, inum, k, b);
    }
  }

  lemma IndirectGrows(s: State, t: State, inum: nat, j: nat)
    requires s.Ok() && PutEntry(s, t, inum, j) && s.Addr(inum, NDIRECT) != 0
    ensures Grew(s, t, inum) && t.Addr(inum, NDIRECT + 1 + j) != 0
    ensures s.Addr(inum, NDIRECT + 1 + j) != 0 ==> t == s
  {
    if s.Addr(inum, NDIRECT + 1 + j) != 0 {
      GrewNot(s, inum);
    } else {
      var b: nat :| Free(s, b) && t == AllocEntry(s, inum, s.Addr(inum, NDIRECT), j, b);
      EntryGrows(s, inum, j, b);
    }
  }

  /** After bmap the file block has a block; no byte of any file has changed, no other inode, and nothing
      at all if it had one before. */
  lemma BmapGrows(s: State, t: State, inum: nat, bn: nat)
    requires s.Ok() && Bmapped(s, t, inum, bn)
    ensures Grew(s, t, inum) && t.Addr(inum, SlotOf(bn)) != 0
    ensures s.Addr(inum, SlotOf(bn)) != 0 ==> t == s
  {
    if bn < NDIRECT {
      AddrGrows(s, t, inum, bn);
    } else {
      var u :| PutAddr(s, u, inum, NDIRECT) && PutEntry(u, t, inum, bn - NDIRECT);
      AddrGrows(s, u, inum, NDIRECT);
      IndirectGrows(u, t, inum, bn - NDIRECT);
      GrewTwice(s, u, t, inum);
      assert s.Addr(inum, NDIRECT) == 0 ==> s.Addr(inum, SlotOf(bn)) == 0;
    }
  }

  // Growing does not change what a file contains
  lemma GrewContents(s: State, t: State, inum: nat)
    requires Grew(s, t, inum)
    ensures t.Contents(inum) == s.Contents(inum)
  {
    assert s.InodeOk(inum);
    forall p | 0 <= p < s.inodes[inum].size
      ensures t.FileByte(inum, p) == s.FileByte(inum, p)
    {
      assert SameByte(s, t, inum, p);
    }
  }

  lemma GrewTwice(s: State, t: State, u: State, inum: nat)
    requires Grew(s, t, inum) && Grew(t, u, inum)
    ensures Grew(s, u, inum)
  {
    forall i: nat, k: nat
      ensures AddrKept(s, u, inum, i, k)
    {
      assert AddrKept(s, t, inum, i, k) && AddrKept(t, u, inum, i, k);
    }
    forall i: nat, p: nat | i < |s.inodes| && p < MAXFILE * BSIZE
      ensures SameByte(s, u, i, p)
    {
      assert SameByte(s, t, i, p) && SameByte(t, u, i, p);
    }
  }

  /** An inode without blocks can be replaced by another without blocks. */
  lemma EmptyInode(s: State, inum: nat, d: Dinode)
    requires s.Ok() && inum < |s.inodes| && s.inodes[inum].addrs == NoAddrs && d.addrs == NoAddrs && d.size == 0
    ensures var t := s.(inodes := s.inodes[inum := d]); t.Ok() && forall i: nat, k: nat :: SameAddr(s, t, i, k)
  {
    var t := s.(inodes := s.inodes[inum := d]);
    forall i: nat, k: nat
      ensures SameAddr(s, t, i, k)
    {
    }
    forall i | 0 <= i < |t.inodes|
      ensures t.InodeOk(i)
    {
      assert s.InodeOk(i);
    }
    SameAddrKeepsOk(s, t);
  }
}
