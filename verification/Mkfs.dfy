/** mkfs: building the first image. Blocks are handed out in order from the end of the
    metadata, and the free map is written last, with that many bits set. */
module Mkfs {
  import opened Bitmap
  import opened FsState
  import opened FileSystem

  const FSSIZE: nat := 1000
  const NINODES: nat := 200
  const NLOG: nat := 30
  const NINODEBLOCKS: nat := NINODES / IPB + 1
  const NBITMAP: nat := FSSIZE / BPB + 1
  const NMETA: nat := 2 + NLOG + NINODEBLOCKS + NBITMAP

  function ImageLayout(): Layout {
    Layout(FSSIZE, NINODES, 2 + NLOG, 2 + NLOG + NINODEBLOCKS, NMETA)
  }

  // The free map with the first n bits set
  function FirstBits(n: nat): seq<bv8>
    requires n <= BPB
    ensures |FirstBits(n)| == BSIZE
  {
    if n == 0 then seq(BSIZE, _ => 0 as bv8) else SetBit(FirstBits(n - 1), n - 1)
  }

  lemma {:induction false} FirstBitsSet(n: nat, b: nat)
    requires n <= BPB && b < BPB
    ensures Bit(FirstBits(n), b) <==> b < n
  {
    InMap(b);
    if n > 0 {
      FirstBitsSet(n - 1, b);
      InMap(n - 1);
      SetBitOnly(FirstBits(n - 1), n - 1, b);
    } else {
      assert FirstBits(0)[b / 8] == 0;
    }
  }

  // balloc's loop over the blocks in use
  method UsedBits(used: nat) returns (bitmap: seq<bv8>)
    requires used <= BPB
    ensures bitmap == FirstBits(used)
  {
    bitmap := seq(BSIZE, _ => 0 as bv8);
    var i := 0;
    while i < used
      invariant i <= used && bitmap == FirstBits(i)
    {
      InMap(i);
      bitmap := bitmap[i / 8 := bitmap[i / 8] | Mask(i % 8)];
      i := i + 1;
    }
  }

  lemma InMap(b: nat)
    requires b < BPB
    ensures b / 8 < BSIZE
  {
  }

  // File blocks are allocated exactly up to the size
  ghost predicate Exact(s: State, inum: nat) {
    NoHoles(s, inum) && Untouched(s, inum, Blocks(s.inodes[inum].size))
  }

  class Image {
    var blocks: seq<Blk>
    var dinodes: seq<Dinode>
    var freeblock: nat
    var freeinode: nat
    ghost var owner: map<int, Slot>

    // The file system that the image will hold once the free map is written
    ghost function Now(): State
      requires freeblock <= BPB
      reads this
    {
      State(ImageLayout(), FirstBits(freeblock), blocks, dinodes, owner)
    }

    ghost predicate Valid()
      reads this
    {
      Base() && forall i :: 0 <= i < NINODES ==> Exact(Now(), i)
    }

    constructor ()
      ensures Valid() && freeinode == 1 && freeblock == NMETA
      ensures dinodes == seq(NINODES, _ => Dinode(0, 0, NoAddrs))
    {
      blocks := seq(FSSIZE, _ => Zeros());
      dinodes := seq(NINODES, _ => Dinode(0, 0, NoAddrs));
      freeblock, freeinode := NMETA, 1;
      owner := map[];
      new;
      forall b | 0 <= b < FSSIZE
        ensures Now().BlockOk(b)
      {
        FirstBitsSet(NMETA, b);
      }
    }

    /** The next inode, of the given type and empty. Nothing checks that there is one left. */
    method Ialloc(kind: int) returns (inum: nat)
      requires Valid() && freeinode < NINODES && kind != 0
      modifies this`dinodes, this`freeinode
      ensures Valid() && inum == old(freeinode) && freeinode == inum + 1
      ensures dinodes == old(dinodes)[inum := Dinode(kind, 0, NoAddrs)]
    {
      inum := freeinode;
      freeinode := freeinode + 1;
      ghost var s := Now();
      FreeKept(dinodes, map[], inum, Dinode(kind, 0, NoAddrs), map[]);
      dinodes := dinodes[inum := Dinode(kind, 0, NoAddrs)];
      NewInode(s, inum, kind);
    }

    ghost predicate Base()
      reads this
    {
      && NMETA <= freeblock <= FSSIZE && 1 <= freeinode <= NINODES && Now().Ok()
      && (forall b :: freeblock <= b < FSSIZE ==> blocks[b] == Zeros())
      && (forall i :: freeinode <= i < NINODES ==> dinodes[i] == Dinode(0, 0, NoAddrs))
      && FreeOk(dinodes, map[]) && (forall i :: 0 < i < freeinode ==> dinodes[i].kind != 0)
    }

    // iappend's address k of an inode: the next block if there is none yet
    method Ensure(inum: nat, k: nat) returns (ok: bool)
      requires Base() && 0 < inum < freeinode && k <= NDIRECT
      modifies this`dinodes, this`freeblock, this`owner
      ensures !ok ==> freeblock == FSSIZE
      ensures ok ==>
          Base() && Grew(old(Now()), Now(), inum) && Now().Addr(inum, k) != 0 && OnlySlot(old(Now()), Now(), inum, k)
    {
      ghost var s := Now();
      assert s.InodeOk(inum);
      if dinodes[inum].addrs[k] == 0 {
        if freeblock == FSSIZE {
          return false;
        }
        FirstBitsSet(freeblock, freeblock);
        DirectGrows(s, inum, k, freeblock);
        owner := owner[freeblock as int := Slot(inum, k)];
        FreeKept(dinodes, map[], inum, dinodes[inum].(addrs := dinodes[inum].addrs[k := freeblock]), map[]);
        dinodes := dinodes[inum := dinodes[inum].(addrs := dinodes[inum].addrs[k := freeblock])];
        freeblock := freeblock + 1;
        assert blocks[freeblock - 1 := Zeros()] == blocks;
        assert Now() == AllocDirect(s, inum, k, freeblock - 1);
      } else {
        NoGrowth(s, inum, k);
      }
      return true;
    }

    // The next block becomes entry j of indirect block ia
    method NewEntry(inum: nat, j: nat, ia: nat)
      requires Base() && 0 < inum < freeinode && j < NINDIRECT && Now().Addr(inum, NDIRECT) == ia != 0
      requires ia < freeblock < FSSIZE && Now().Addr(inum, NDIRECT + 1 + j) == 0
      modifies this`blocks, this`freeblock, this`owner
      ensures Base() && Grew(old(Now()), Now(), inum) && Now().Addr(inum, NDIRECT + 1 + j) != 0
      ensures OnlySlot(old(Now()), Now(), inum, NDIRECT + 1 + j)
    {
      ghost var s := Now();
      FirstBitsSet(freeblock, freeblock);
      EntryGrows(s, inum, j, freeblock);
      assert blocks[freeblock := Zeros()] == blocks;
      owner := owner[freeblock as int := Slot(inum, NDIRECT + 1 + j)];
      blocks := blocks[ia := PutWord(blocks[ia], j, freeblock)];
      freeblock := freeblock + 1;
      assert Now() == AllocEntry(s, inum, ia, j, freeblock - 1);
      assert Grew(s, Now(), inum);
    }

    // iappend's entry j of the indirect block
    method EnsureEntry(inum: nat, j: nat) returns (ok: bool)
      requires Base() && 0 < inum < freeinode && j < NINDIRECT && Now().Addr(inum, NDIRECT) != 0
      modifies this`blocks, this`freeblock, this`owner
      ensures !ok ==> freeblock == FSSIZE
      ensures ok ==> Base() && Grew(old(Now()), Now(), inum) && Now().Addr(inum, NDIRECT + 1 + j) != 0
      ensures ok ==> OnlySlot(old(Now()), Now(), inum, NDIRECT + 1 + j)
    {
      ghost var s := Now();
      OneOwner(s, inum, NDIRECT, inum, NDIRECT);
      assert s.InodeOk(inum) && s.BlockOk(s.Addr(inum, NDIRECT));
      var ia := dinodes[inum].addrs[NDIRECT];
      FirstBitsSet(freeblock, ia);
      if Word(blocks[ia], j) == 0 {
        if freeblock == FSSIZE {
          return false;
        }
        NewEntry(inum, j, ia);
      } else {
        NoGrowth(s, inum, NDIRECT + 1 + j);
      }
      return true;
    }

    // The block for file block fbn, and no other file block, is allocated
    method EnsureBlock(inum: nat, fbn: nat) returns (ok: bool)
      requires Base() && 0 < inum < freeinode && fbn < MAXFILE
      modifies this`blocks, this`dinodes, this`freeblock, this`owner
      ensures !ok ==> freeblock == FSSIZE
      ensures ok ==> Base() && Grew(old(Now()), Now(), inum) && Now().Addr(inum, SlotOf(fbn)) != 0
      ensures ok ==> forall bn :: 0 <= bn < MAXFILE && bn != fbn ==> SameAddr(old(Now()), Now(), inum, SlotOf(bn))
    {
      if fbn < NDIRECT {
        ok := Ensure(inum, fbn);
      } else {
        ghost var s := Now();
        ok := Ensure(inum, NDIRECT);
        if ok {
          ghost var t := Now();
          ok := EnsureEntry(inum, fbn - NDIRECT);
          if ok {
            GrewTwice(s, t, Now(), inum);
            forall bn | 0 <= bn < MAXFILE && bn != fbn
              ensures SameAddr(s, Now(), inum, SlotOf(bn))
            {
              assert SameAddr(s, t, inum, SlotOf(bn)) && SameAddr(t, Now(), inum, SlotOf(bn));
            }
          }
        }
      }
    }

    // One round of iappend's loop: next bytes have been written, or no more than before if it fails
    method AppendRound(inum: nat, off: nat, data: seq<int>, tot: nat, ghost s: State) returns (next: nat)
      requires Base() && 0 < inum < freeinode && tot < |data| && off + |data| <= MAXFILE * BSIZE
      requires Wrote(s, Now(), inum, off, data[..tot]) && (tot == 0 || (off + tot) % BSIZE == 0)
      requires Untouched(Now(), inum, Bound(off, tot))
      modifies this`blocks, this`dinodes, this`freeblock, this`owner
      ensures next <= tot ==> freeblock == FSSIZE
      ensures next > tot ==> next <= |data| && (next == |data| || (off + next) % BSIZE == 0)
      ensures next > tot ==>
          Base() && Wrote(s, Now(), inum, off, data[..next]) && Untouched(Now(), inum, Bound(off, next))
    {
      var fbn, o := (off + tot) / BSIZE, (off + tot) % BSIZE;
      var m := if |data| - tot < BSIZE - o then |data| - tot else BSIZE - o;
      next := tot + m;
      RoundArithmetic(off, |data|, tot, m, next);
      ghost var t := Now();
      var ok; ghost var u;
      ok, u := Store(inum, fbn, o, data[tot..next]);
      if !ok {
        return tot;
      }
      WroteMore(s, t, u, Now(), inum, off, data, tot, next);
      UntouchedAfter(t, u, Now(), inum, Bound(off, tot), fbn);
    }

    // The chunk goes into file block fbn at offset o
    method Store(inum: nat, fbn: nat, o: nat, chunk: seq<int>) returns (ok: bool, ghost u: State)
      requires Base() && 0 < inum < freeinode && fbn < MAXFILE && o + |chunk| <= BSIZE
      modifies this`blocks, this`dinodes, this`freeblock, this`owner
      ensures !ok ==> freeblock == FSSIZE
      ensures ok ==> Base() && Stored(old(Now()), u, Now(), inum, fbn, o, chunk)
      ensures ok ==> forall bn :: 0 <= bn < MAXFILE && bn != fbn ==> SameAddr(old(Now()), u, inum, SlotOf(bn))
    {
      u := Now();
      ok := EnsureBlock(inum, fbn);
      if ok {
        u := Now();
        StoreAt(inum, fbn, o, chunk);
      }
    }

    method StoreAt(inum: nat, fbn: nat, o: nat, chunk: seq<int>)
      requires Base() && 0 < inum < freeinode && fbn < MAXFILE && o + |chunk| <= BSIZE
      requires Now().Addr(inum, SlotOf(fbn)) != 0
      modifies this`blocks
      ensures Base()
      ensures
        var u, a := old(Now()), old(Now()).Addr(inum, SlotOf(fbn));
        && 0 < a < |u.blocks| && |u.blocks[a]| == BSIZE
        && Now() == u.(blocks := u.blocks[a := Splice(u.blocks[a], o, chunk)])
    {
      ghost var u := Now();
      assert u.InodeOk(inum);
      OneOwner(u, inum, SlotOf(fbn), inum, SlotOf(fbn));
      var x := if fbn < NDIRECT then dinodes[inum].addrs[fbn]
               else Word(blocks[dinodes[inum].addrs[NDIRECT]], fbn - NDIRECT);
      assert u.BlockOk(x);
      FirstBitsSet(freeblock, x);
      StoreKeeps(u, inum, fbn, Splice(blocks[x], o, chunk));
      blocks := blocks[x := Splice(blocks[x], o, chunk)];
    }

    // iappend's loop
    method AppendLoop(inum: nat, off: nat, data: seq<int>) returns (ok: bool)
      requires Base() && 0 < inum < freeinode && off + |data| <= MAXFILE * BSIZE
      requires Untouched(Now(), inum, Bound(off, 0))
      modifies this`blocks, this`dinodes, this`freeblock, this`owner
      ensures !ok ==> freeblock == FSSIZE
      ensures ok ==> Base() && Wrote(old(Now()), Now(), inum, off, data)
      ensures ok ==> Untouched(Now(), inum, Bound(off, |data|))
    {
      ghost var s := Now();
      var tot := 0;
      WroteNothing(s, inum, off);
      while tot < |data|
        invariant tot <= |data| && Base() && Wrote(s, Now(), inum, off, data[..tot])
        invariant tot == 0 || tot == |data| || (off + tot) % BSIZE == 0
        invariant Untouched(Now(), inum, Bound(off, tot))
      {
        var next := AppendRound(inum, off, data, tot, s);
        if next <= tot {
          return false;
        }
        tot := next;
      }
      assert data[..tot] == data;
      return true;
    }

    /** Appends data to a file. Fails where mkfs gives up on a file that is too long; a full
        disk, which mkfs does not look for, fails too. */
    method Iappend(inum: nat, data: seq<int>) returns (ok: bool)
      requires Valid() && 0 < inum < freeinode
      modifies this`blocks, this`dinodes, this`freeblock, this`owner
      ensures !ok ==> freeblock == FSSIZE || old(dinodes)[inum].size + |data| > MAXFILE * BSIZE
      ensures ok ==> Valid() && Now().Contents(inum) == old(Now().Contents(inum)) + data
      ensures ok ==> OthersKept(old(Now()), Now(), inum)
    {
      ghost var s := Now();
      assert s.InodeOk(inum) && Exact(s, inum);
      var off := dinodes[inum].size;
      if off + |data| > MAXFILE * BSIZE {
        return false;
      }
      ok := AppendLoop(inum, off, data);
      if ok {
        ghost var t := Now();
        WroteContents(s, t, inum, off, data);
        FreeKept(dinodes, map[], inum, dinodes[inum].(size := off + |data|), map[]);
        dinodes := dinodes[inum := dinodes[inum].(size := off + |data|)];
        AppendedExact(s, t, Now(), inum, off, data);
      }
    }

    /** Rounds the root directory's size up to a further block, as mkfs does last. That leaves a
        hole exactly when the size was a multiple of the block size. */
    method FixRootSize(root: nat)
      requires Valid() && 0 < root < freeinode && dinodes[root].size < MAXFILE * BSIZE
      modifies this`dinodes
      ensures Base() && Now() == SetSize(old(Now()), root, (old(dinodes)[root].size / BSIZE + 1) * BSIZE)
      ensures NoHoles(Now(), root) <==> old(dinodes)[root].size % BSIZE != 0
      ensures old(dinodes)[root].size % BSIZE == 0 ==> HoleAt(Now(), root, old(dinodes)[root].size / BSIZE)
      ensures forall i :: 0 <= i < NINODES && i != root ==> NoHoles(Now(), i)
    {
      ghost var s := Now();
      var off := dinodes[root].size;
      off := (off / BSIZE + 1) * BSIZE;
      FreeKept(dinodes, map[], root, dinodes[root].(size := off), map[]);
      dinodes := dinodes[root := dinodes[root].(size := off)];
      RoundedHole(s, root);
    }

    /** The free map as mkfs writes it. */
    method FreeMap() returns (bitmap: seq<bv8>)
      requires Base()
      ensures State(ImageLayout(), bitmap, blocks, dinodes, owner) == Now()
    {
      bitmap := UsedBits(freeblock);
    }
  }

  // The file has no block bn, though its size says so
  ghost predicate HoleAt(s: State, inum: nat, bn: nat) {
    inum < |s.inodes| && bn < Blocks(s.inodes[inum].size) && s.Addr(inum, SlotOf(bn)) == 0
  }

  lemma RoundedHole(s: State, root: nat)
    requires s.Ok() && root < |s.inodes| && s.inodes[root].size < MAXFILE * BSIZE
    requires forall i :: 0 <= i < |s.inodes| ==> Exact(s, i)
    ensures
      var t := SetSize(s, root, (s.inodes[root].size / BSIZE + 1) * BSIZE);
      && t.Ok() && (NoHoles(t, root) <==> s.inodes[root].size % BSIZE != 0)
      && (s.inodes[root].size % BSIZE == 0 ==> HoleAt(t, root, s.inodes[root].size / BSIZE))
      && forall i :: 0 <= i < |t.inodes| && i != root ==> NoHoles(t, i)
  {
    var size := s.inodes[root].size;
    var t := SetSize(s, root, (size / BSIZE + 1) * BSIZE);
    SetSizeKeepsOk(s, root, (size / BSIZE + 1) * BSIZE);
    assert Blocks((size / BSIZE + 1) * BSIZE) == size / BSIZE + 1;
    forall i, bn | 0 <= i < |s.inodes| && 0 <= bn < MAXFILE
      ensures t.Addr(i, SlotOf(bn)) == s.Addr(i, SlotOf(bn))
    {
      assert SameAddr(s, t, i, SlotOf(bn));
    }
    assert Exact(s, root);
    if size % BSIZE == 0 {
      assert t.Addr(root, SlotOf(size / BSIZE)) == 0;
    }
    forall i | 0 <= i < |t.inodes| && i != root
      ensures NoHoles(t, i)
    {
      assert Exact(s, i) && s.InodeOk(i);
    }
  }

  lemma AppendedExact(s: State, t: State, u: State, inum: nat, off: nat, data: seq<int>)
    requires s.Ok() && inum < |s.inodes| && Wrote(s, t, inum, off, data) && off == s.inodes[inum].size
    requires off + |data| <= MAXFILE * BSIZE && u == SetSize(t, inum, off + |data|)
    requires Untouched(t, inum, Bound(off, |data|)) && NoHoles(u, inum)
    requires forall i :: 0 <= i < |s.inodes| ==> Exact(s, i)
    ensures forall i :: 0 <= i < |u.inodes| ==> Exact(u, i)
    ensures Splice(s.Contents(inum), off, data) == s.Contents(inum) + data
  {
    SetSizeKeepsOk(t, inum, off + |data|);
    forall i | 0 <= i < |u.inodes|
      ensures Exact(u, i)
    {
      assert Exact(s, i);
      forall bn | 0 <= bn < MAXFILE
        ensures u.Addr(i, SlotOf(bn)) == t.Addr(i, SlotOf(bn))
      {
        assert SameAddr(t, u, i, SlotOf(bn));
      }
      if i != inum {
        forall bn | 0 <= bn < MAXFILE
          ensures t.Addr(i, SlotOf(bn)) == s.Addr(i, SlotOf(bn))
        {
          assert AddrKept(s, t, inum, i, SlotOf(bn));
        }
        assert s.InodeOk(i);
      }
    }
  }

  lemma UntouchedAfter(t: State, u: State, v: State, inum: nat, lo: nat, fbn: nat)
    requires Untouched(t, inum, lo) && lo <= fbn + 1 && forall i: nat, k: nat :: SameAddr(u, v, i, k)
    requires forall bn :: 0 <= bn < MAXFILE && bn != fbn ==> SameAddr(t, u, inum, SlotOf(bn))
    ensures Untouched(v, inum, fbn + 1)
  {
    forall bn | fbn < bn < MAXFILE
      ensures v.Addr(inum, SlotOf(bn)) == 0
    {
      assert SameAddr(t, u, inum, SlotOf(bn)) && SameAddr(u, v, inum, SlotOf(bn));
    }
  }

  // One past the last allocated file block when n bytes have been appended at off
  function Bound(off: nat, n: nat): nat {
    if n == 0 then Blocks(off) else Upto(off, n)
  }

  // No file block from lo on is allocated
  ghost predicate Untouched(s: State, inum: nat, lo: nat) {
    forall bn :: lo <= bn < MAXFILE ==> s.Addr(inum, SlotOf(bn)) == 0
  }

  lemma NoGrowth(s: State, inum: nat, k: nat)
    requires s.Ok() && inum < |s.inodes|
    ensures Grew(s, s, inum) && OnlySlot(s, s, inum, k)
  {
    forall i: nat, l: nat
      ensures AddrKept(s, s, inum, i, l) && SameAddr(s, s, i, l)
    {
    }
    forall i: nat, p: nat | i < |s.inodes| && p < MAXFILE * BSIZE
      ensures SameByte(s, s, i, p)
    {
    }
  }

  // An inode with no blocks can be given another type
  lemma NewInode(s: State, inum: nat, kind: int)
    requires s.Ok() && inum < |s.inodes| && s.inodes[inum] == Dinode(0, 0, NoAddrs)
    requires forall i :: 0 <= i < |s.inodes| ==> Exact(s, i)
    ensures
      var t := s.(inodes := s.inodes[inum := Dinode(kind, 0, NoAddrs)]);
      t.Ok() && forall i :: 0 <= i < |t.inodes| ==> Exact(t, i)
  {
    var t := s.(inodes := s.inodes[inum := Dinode(kind, 0, NoAddrs)]);
    EmptyInode(s, inum, Dinode(kind, 0, NoAddrs));
    forall i | 0 <= i < |t.inodes|
      ensures Exact(t, i)
    {
      assert Exact(s, i);
      forall bn | 0 <= bn < MAXFILE
        ensures t.Addr(i, SlotOf(bn)) == s.Addr(i, SlotOf(bn))
      {
        assert SameAddr(s, t, i, SlotOf(bn));
      }
    }
  }

  const DIRSIZ: nat := 14
  const T_DIR: int := 1
  const T_FILE: int := 2
  const ROOTINO: nat := 1

  // strncpy into a zeroed name field
  function Name(n: seq<int>): (r: seq<int>)
    ensures |r| == DIRSIZ
  {
    if |n| >= DIRSIZ then n[..DIRSIZ] else n + seq(DIRSIZ - |n|, _ => 0)
  }

  function Dirent(inum: nat, name: seq<int>): (r: seq<int>)
    ensures |r| == 16
  {
    [inum % 256, inum / 256] + Name(name)
  }

  // Appends a host file's contents, a buffer at a time
  method AppendAll(img: Image, inum: nat, data: seq<int>) returns (ok: bool)
    requires img.Valid() && 0 < inum < img.freeinode
    modifies img`blocks, img`dinodes, img`freeblock, img`owner
    ensures !ok ==> img.freeblock == FSSIZE || |old(img.Now().Contents(inum))| + |data| > MAXFILE * BSIZE
    ensures ok ==> img.Valid() && img.Now().Contents(inum) == old(img.Now().Contents(inum)) + data
    ensures ok ==> OthersKept(old(img.Now()), img.Now(), inum)
  {
    ghost var s := img.Now();
    var i := 0;
    NothingChanged(s, inum);
    while i < |data|
      invariant i <= |data| && img.Valid() && OthersKept(s, img.Now(), inum)
      invariant img.Now().Contents(inum) == s.Contents(inum) + data[..i]
    {
      var cc := if |data| - i < BSIZE then |data| - i else BSIZE;
      ghost var t := img.Now();
      ok := img.Iappend(inum, data[i..i + cc]);
      if !ok {
        return;
      }
      KeptTwice(s, t, img.Now(), inum);
      assert data[..i + cc] == data[..i] + data[i..i + cc];
      i := i + cc;
    }
    assert data[..i] == data;
    return true;
  }

  lemma NothingChanged(s: State, inum: nat)
    ensures OthersKept(s, s, inum)
  {
    forall j | 0 <= j < |s.inodes| && j != inum
      ensures SameFile(s, s, j)
    {
    }
  }

  lemma KeptTwice(s: State, t: State, u: State, inum: nat)
    requires OthersKept(s, t, inum) && OthersKept(t, u, inum)
    ensures OthersKept(s, u, inum)
  {
    forall j | 0 <= j < |s.inodes| && j != inum
      ensures SameFile(s, u, j)
    {
      assert SameFile(s, t, j) && SameFile(t, u, j);
    }
  }

  // The root directory holds the dots and n further entries, and inodes 2..n+1 the files
  ghost predicate Holds(s: State, names: seq<seq<int>>, data: seq<seq<int>>, n: nat)
    requires n <= |names| == |data|
  {
    && n + 2 <= |s.inodes|
    && s.Contents(ROOTINO) == Root(names, n)
    && forall k :: 0 <= k < n ==> FileIs(s, 2 + k, data[k])
  }

  ghost predicate FileIs(s: State, inum: nat, data: seq<int>) {
    inum < |s.inodes| && s.Contents(inum) == data
  }

  function Root(names: seq<seq<int>>, n: nat): (r: seq<int>)
    requires n <= |names|
    ensures |r| == 16 * (n + 2)
  {
    if n == 0 then Dirent(ROOTINO, [46]) + Dirent(ROOTINO, [46, 46])
    else Root(names, n - 1) + Dirent(n + 1, names[n - 1])
  }

  // Entry k of a directory, read as a 16-bit inode number, low byte first, and a name, padded with NULs
  // and cut to DIRSIZ bytes
  ghost predicate EntryIs(dir: seq<int>, k: nat, inum: nat, name: seq<int>) {
    && 16 * k + 16 <= |dir| && dir[16 * k] + 256 * dir[16 * k + 1] == inum
    && forall i :: 0 <= i < DIRSIZ ==> dir[16 * k + 2 + i] == if i < |name| then name[i] else 0
  }

  // The directory lists itself twice and then n files by their names
  ghost predicate Lists(dir: seq<int>, names: seq<seq<int>>, n: nat)
    requires n <= |names|
  {
    && EntryIs(dir, 0, ROOTINO, [46]) && EntryIs(dir, 1, ROOTINO, [46, 46])
    && forall k :: 0 <= k < n ==> EntryIs(dir, k + 2, k + 2, names[k])
  }

  lemma EntryLater(dir: seq<int>, more: seq<int>, k: nat, inum: nat, name: seq<int>)
    requires EntryIs(dir, k, inum, name) && dir <= more
    ensures EntryIs(more, k, inum, name)
  {
    forall i | 0 <= i < DIRSIZ
      ensures more[16 * k + 2 + i] == if i < |name| then name[i] else 0
    {
      assert more[16 * k + 2 + i] == dir[16 * k + 2 + i];
    }
  }

  lemma EntryLast(dir: seq<int>, k: nat, inum: nat, name: seq<int>)
    requires |dir| == 16 * k
    ensures EntryIs(dir + Dirent(inum, name), k, inum, name)
  {
    var d := Dirent(inum, name);
    var all := dir + d;
    assert all[16 * k] == d[0] && all[16 * k + 1] == d[1];
    forall i | 0 <= i < DIRSIZ
      ensures all[16 * k + 2 + i] == if i < |name| then name[i] else 0
    {
      assert all[16 * k + 2 + i] == d[2 + i] == Name(name)[i];
    }
  }

  lemma ListsLater(dir: seq<int>, more: seq<int>, names: seq<seq<int>>, n: nat)
    requires n <= |names| && Lists(dir, names, n) && dir <= more
    ensures Lists(more, names, n)
  {
    EntryLater(dir, more, 0, ROOTINO, [46]);
    EntryLater(dir, more, 1, ROOTINO, [46, 46]);
    forall k | 0 <= k < n
      ensures EntryIs(more, k + 2, k + 2, names[k])
    {
      EntryLater(dir, more, k + 2, k + 2, names[k]);
    }
  }

  lemma DotsListed(dot: seq<int>, dots: seq<int>)
    requires dot == Dirent(ROOTINO, [46]) && dots == dot + Dirent(ROOTINO, [46, 46])
    ensures EntryIs(dots, 0, ROOTINO, [46]) && EntryIs(dots, 1, ROOTINO, [46, 46])
  {
    EntryLast([], 0, ROOTINO, [46]);
    assert [] + dot == dot;
    EntryLater(dot, dots, 0, ROOTINO, [46]);
    EntryLast(dot, 1, ROOTINO, [46, 46]);
  }

  lemma OneMoreListed(dir: seq<int>, all: seq<int>, names: seq<seq<int>>, n: nat)
    requires n < |names| && |dir| == 16 * (n + 2) && Lists(dir, names, n) && all == dir + Dirent(n + 2, names[n])
    ensures Lists(all, names, n + 1)
  {
    ListsLater(dir, all, names, n);
    EntryLast(dir, n + 2, n + 2, names[n]);
  }

  ghost predicate RootListed(names: seq<seq<int>>, n: nat)
    requires n <= |names|
  {
    Lists(Root(names, n), names, n)
  }

  lemma RootDots(names: seq<seq<int>>, n: nat)
    requires n == 0
    ensures RootListed(names, n)
  {
    var dot, dots := Dirent(ROOTINO, [46]), Root(names, n);
    DotsListed(dot, dots);
  }

  lemma RootMore(names: seq<seq<int>>, n: nat, m: nat)
    requires n < |names| && m == n + 1 && RootListed(names, n)
    ensures RootListed(names, m)
  {
    var dir, all := Root(names, n), Root(names, m);
    assert all == dir + Dirent(n + 2, names[n]);
    OneMoreListed(dir, all, names, n);
  }

  lemma {:induction false} RootListedAll(names: seq<seq<int>>, n: nat)
    requires n <= |names|
    ensures RootListed(names, n)
  {
    if n == 0 {
      RootDots(names, n);
    } else {
      RootListedAll(names, n - 1);
      RootMore(names, n - 1, n);
    }
  }

  lemma RootLists(names: seq<seq<int>>, n: nat)
    requires n <= |names|
    ensures Lists(Root(names, n), names, n)
  {
    RootListedAll(names, n);
  }

  // One file of mkfs's main loop
  method AddFile(img: Image, names: seq<seq<int>>, data: seq<seq<int>>, k: nat) returns (ok: bool)
    requires img.Valid() && k < |names| == |data| && img.freeinode == 2 + k && Holds(img.Now(), names, data, k)
    modifies img
    ensures !ok ==> img.freeinode == NINODES || img.freeblock == FSSIZE || |data[k]| > MAXFILE * BSIZE
    ensures ok ==> img.Valid() && img.freeinode == 3 + k && Holds(img.Now(), names, data, k + 1)
  {
    if img.freeinode == NINODES {
      return false;
    }
    ghost var s := img.Now();
    var inum := img.Ialloc(T_FILE);
    ghost var t := img.Now();
    ok := img.Iappend(ROOTINO, Dirent(inum, names[k]));
    if !ok {
      return;
    }
    ghost var u := img.Now();
    assert SameFile(t, u, inum);
    ok := AppendAll(img, inum, data[k]);
    if ok {
      ghost var v := img.Now();
      FileAdded(s, t, u, v, names, data, k);
    }
  }

  lemma FileAdded(s: State, t: State, u: State, v: State, names: seq<seq<int>>, data: seq<seq<int>>, k: nat)
    requires k < |names| == |data| && Holds(s, names, data, k) && k + 3 <= |s.inodes|
    requires t == s.(inodes := s.inodes[2 + k := Dinode(T_FILE, 0, NoAddrs)])
    requires OthersKept(t, u, ROOTINO) && u.Contents(ROOTINO) == t.Contents(ROOTINO) + Dirent(2 + k, names[k])
    requires OthersKept(u, v, 2 + k) && v.Contents(2 + k) == u.Contents(2 + k) + data[k]
    ensures Holds(v, names, data, k + 1)
  {
    assert SameFile(u, v, ROOTINO) && SameFile(t, u, 2 + k);
    assert t.Contents(ROOTINO) == s.Contents(ROOTINO);
    assert t.Contents(2 + k) == [];
    assert v.Contents(2 + k) == data[k];
    forall j | 0 <= j < k + 1
      ensures FileIs(v, 2 + j, data[j])
    {
      if j < k {
        assert FileIs(s, 2 + j, data[j]) && t.Contents(2 + j) == s.Contents(2 + j);
        assert SameFile(t, u, 2 + j) && SameFile(u, v, 2 + j);
      }
    }
  }

  // The root directory with its two dots
  method MakeRoot(img: Image) returns (ok: bool)
    requires img.Valid() && img.freeinode == 1
    modifies img
    ensures !ok ==> img.freeblock == FSSIZE
    ensures ok ==> img.Valid() && img.freeinode == 2 && Holds(img.Now(), [], [], 0)
  {
    var root := img.Ialloc(T_DIR);
    assert img.Now().Contents(ROOTINO) == [];
    ok := img.Iappend(root, Dirent(root, [46]));
    if ok {
      ok := img.Iappend(root, Dirent(root, [46, 46]));
    }
  }

  /** What an image holds: the invariant, the files and their directory entries, free inodes that are
      empty, and no hole exactly when the root directory's entries do not fill whole blocks. */
  ghost predicate IsImage(s: State, names: seq<seq<int>>, data: seq<seq<int>>)
    requires |names| == |data|
  {
    && s.g == ImageLayout() && s.Ok() && |s.inodes| == NINODES && |names| + 2 <= NINODES
    && Root(names, |names|) <= s.Contents(ROOTINO) && (forall k :: 0 <= k < |names| ==> FileIs(s, 2 + k, data[k]))
    && FreeOk(s.inodes, map[]) && s.inodes[ROOTINO].kind != 0
    && ((forall i :: 0 <= i < NINODES ==> NoHoles(s, i)) <==> (|names| + 2) % 64 != 0)
    && ((|names| + 2) % 64 == 0 ==> HoleAt(s, ROOTINO, (|names| + 2) / 64))
  }

  /** The root directory, as it is read, lists the files. */
  ghost predicate RootIs(s: State, names: seq<seq<int>>) {
    ROOTINO < |s.inodes| && Lists(s.Contents(ROOTINO), names, |names|)
  }

  // The root size fixed and the free map written
  method Finish(img: Image, names: seq<seq<int>>, data: seq<seq<int>>) returns (bitmap: seq<bv8>)
    requires img.Valid() && |names| == |data| && img.freeinode == |names| + 2 && Holds(img.Now(), names, data, |names|)
    modifies img`dinodes
    ensures IsImage(State(ImageLayout(), bitmap, img.blocks, img.dinodes, img.owner), names, data)
    ensures RootIs(State(ImageLayout(), bitmap, img.blocks, img.dinodes, img.owner), names)
  {
    ghost var t := img.Now();
    assert t.InodeOk(ROOTINO) && img.dinodes[ROOTINO].size == |t.Contents(ROOTINO)| == 16 * (|names| + 2);
    RootAligned(|names|);
    img.FixRootSize(ROOTINO);
    bitmap := img.FreeMap();
    ghost var u := img.Now();
    SizeKeepsAll(t, u, names, data);
  }

  lemma SizeKeepsAll(t: State, u: State, names: seq<seq<int>>, data: seq<seq<int>>)
    requires |names| == |data| && Holds(t, names, data, |names|) && |u.inodes| == |t.inodes|
    requires u == SetSize(t, ROOTINO, u.inodes[ROOTINO].size) && t.inodes[ROOTINO].size <= u.inodes[ROOTINO].size
    ensures Root(names, |names|) <= u.Contents(ROOTINO) && Lists(u.Contents(ROOTINO), names, |names|)
    ensures forall j :: 0 <= j < |names| ==> FileIs(u, 2 + j, data[j])
  {
    SizeKeepsFront(t, u, ROOTINO);
    RootLists(names, |names|);
    ListsLater(t.Contents(ROOTINO), u.Contents(ROOTINO), names, |names|);
    forall j | 0 <= j < |names|
      ensures FileIs(u, 2 + j, data[j])
    {
      assert FileIs(t, 2 + j, data[j]);
      SizeKeepsFile(t, u, ROOTINO, 2 + j);
    }
  }

  /** mkfs on any list of files: unless inodes or blocks run out or a file is too long, the image
      satisfies the file system's invariant and holds the files and their directory entries, and
      it has no hole exactly when the root directory's entries do not fill whole blocks. */
  method Build(names: seq<seq<int>>, data: seq<seq<int>>) returns (ok: bool, img: Image, bitmap: seq<bv8>)
    requires |names| == |data|
    ensures !ok ==>
        img.freeinode == NINODES || img.freeblock == FSSIZE || exists k ::
        0 <= k < |data| && |data[k]| > MAXFILE * BSIZE
    ensures ok ==> IsImage(State(ImageLayout(), bitmap, img.blocks, img.dinodes, img.owner), names, data)
    ensures ok ==> RootIs(State(ImageLayout(), bitmap, img.blocks, img.dinodes, img.owner), names)
  {
    img := new Image();
    bitmap := [];
    ok := MakeRoot(img);
    if !ok {
      return;
    }
    assert Root(names, 0) == Root([], 0);
    var k := 0;
    while k < |names|
      invariant k <= |names| && img.Valid() && img.freeinode == 2 + k && Holds(img.Now(), names, data, k)
    {
      ok := AddFile(img, names, data, k);
      if !ok {
        return;
      }
      k := k + 1;
    }
    bitmap := Finish(img, names, data);
  }

  lemma RootAligned(n: nat)
    ensures 16 * (n + 2) % BSIZE != 0 <==> (n + 2) % 64 != 0
    ensures 16 * (n + 2) / BSIZE == (n + 2) / 64
  {
  }

  lemma SizeKeepsFront(s: State, t: State, root: nat)
    requires root < |s.inodes| == |t.inodes| && t == SetSize(s, root, t.inodes[root].size)
    requires s.inodes[root].size <= t.inodes[root].size
    ensures s.Contents(root) <= t.Contents(root)
  {
    forall p | 0 <= p < s.inodes[root].size
      ensures t.Contents(root)[p] == s.Contents(root)[p]
    {
      assert t.Addr(root, SlotOf(p / BSIZE)) == s.Addr(root, SlotOf(p / BSIZE));
    }
  }

  lemma SizeKeepsFile(s: State, t: State, root: nat, i: nat)
    requires root < |s.inodes| == |t.inodes| && t == SetSize(s, root, t.inodes[root].size) && i < |s.inodes|
    requires i != root
    ensures t.Contents(i) == s.Contents(i)
  {
    forall p | 0 <= p < s.inodes[i].size
      ensures t.Contents(i)[p] == s.Contents(i)[p]
    {
      assert t.Addr(i, SlotOf(p / BSIZE)) == s.Addr(i, SlotOf(p / BSIZE));
    }
  }
}
