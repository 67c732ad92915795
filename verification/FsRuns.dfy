/** Runs of the file system from an image: reads and writes of different files take turns, a round of
    their loops at a time, and in between inodes are loaded, recycled, allocated, truncated and
    freed. What the steps do is what FileSystem's methods promise. */
module FsRuns {
  import opened Bitmap
  import opened FsState
  import opened FileSystem
  import opened Mkfs

  // What the holder of an inode's lock is doing; `was` is the file at the beginning of a write
  datatype Op = Reading | Writing(off: nat, data: seq<int>, tot: nat, was: seq<int>)

  // `icache` holds the valid in-memory inodes, `active` those whose lock is held
  datatype Vol = Vol(g: Layout, bitmap: seq<bv8>, blocks: seq<Blk>, dinodes: seq<Dinode>, icache: map<nat, Dinode>,
                     owner: map<int, Slot>, active: map<nat, Op>)

  datatype Step =
    | Load(i: nat)
    | Recycle(i: nat)
    | Reboot
    | BeginRead(i: nat)
    | ReadBlock(i: nat, bn: nat)
    | EndRead(i: nat)
    | BeginWrite(i: nat, off: nat, data: seq<int>)
    | WriteBlock(i: nat)
    | EndWrite(i: nat)
    | Trunc(i: nat)
    | Free(i: nat)
    | Alloc(i: nat, kind: int)

  // The file system as the kernel sees it, and as it is on disk
  function View(v: Vol): State {
    State(v.g, v.bitmap, v.blocks, Overlay(v.dinodes, v.icache), v.owner)
  }

  function OnDisk(v: Vol, owner: map<int, Slot>): State {
    State(v.g, v.bitmap, v.blocks, v.dinodes, owner)
  }

  // The part of a write that goes into the next file block
  function Chunk(op: Op): nat
    requires op.Writing? && op.tot < |op.data|
  {
    var room := BSIZE - (op.off + op.tot) % BSIZE;
    if |op.data| - op.tot < room then |op.data| - op.tot else room
  }

  // bmap and the copy of one round of writei
  ghost predicate PutNext(s: State, u: State, t: State, i: nat, op: Op)
    requires op.Writing? && op.tot < |op.data|
  {
    Put(s, u, t, i, (op.off + op.tot) / BSIZE, (op.off + op.tot) % BSIZE, op.data[op.tot..op.tot + Chunk(op)])
  }

  // ... and what they come to
  ghost predicate StoredNext(s: State, u: State, t: State, i: nat, op: Op)
    requires op.Writing? && op.tot < |op.data|
  {
    Stored(s, u, t, i, (op.off + op.tot) / BSIZE, (op.off + op.tot) % BSIZE, op.data[op.tot..op.tot + Chunk(op)])
  }

  // One round of readi or writei on inode i, which may add blocks to it
  ghost predicate Round(v: Vol, w: Vol, i: nat) {
    w.g == v.g && w.dinodes == v.dinodes && OnlyEntry(v.icache, w.icache, i)
  }

  ghost predicate RoundTo(v: Vol, w: Vol, i: nat) {
    && i in v.active && i in v.icache && Round(v, w, i)
    && if v.active[i].Reading? then w.active == v.active
       else
         var op := v.active[i];
         && op.tot < |op.data| && w.active == v.active[i := op.(tot := op.tot + Chunk(op))]
         && exists u :: PutNext(View(v), u, View(w), i, op)
  }

  // Then a transaction can commit: reads of files run outside of transactions
  predicate NoneWriting(v: Vol) {
    forall i :: i in v.active ==> v.active[i].Reading?
  }

  ghost predicate Next(v: Vol, a: Step, w: Vol) {
    match a
    case Load(i) => i < |v.dinodes| && i !in v.icache && v.dinodes[i].kind != 0
      && w == v.(icache := v.icache[i := v.dinodes[i]])
    case Recycle(i) => i in v.icache && i !in v.active && w == v.(icache := v.icache - {i})
    case Reboot => NoneWriting(v) && w == v.(icache := map[], active := map[])
    case BeginRead(i) => i in v.icache && i !in v.active && w == v.(active := v.active[i := Reading])
    case ReadBlock(i, bn) =>
      && i in v.active && v.active[i].Reading? && RoundTo(v, w, i) && bn < MAXFILE && bn < Blocks(v.icache[i].size)
      && Bmapped(View(v), View(w), i, bn)
    case EndRead(i) => i in v.active && v.active[i].Reading? && w == v.(active := v.active - {i})
    case BeginWrite(i, off, data) =>
      && i in v.icache && i < |v.dinodes| && i !in v.active && off <= v.icache[i].size
      && off + |data| <= MAXFILE * BSIZE && data != []
      && w == v.(active := v.active[i := Writing(off, data, 0, View(v).Contents(i))])
    case WriteBlock(i) => i in v.active && v.active[i].Writing? && RoundTo(v, w, i)
    case EndWrite(i) =>
      && i in v.active && v.active[i].Writing? && v.active[i].tot == |v.active[i].data| && i in v.icache
      && i < |v.dinodes|
      && var d := v.icache[i].(size := Max(v.icache[i].size, v.active[i].off + |v.active[i].data|));
         w == v.(icache := v.icache[i := d], dinodes := v.dinodes[i := d], active := v.active - {i})
    case Trunc(i) =>
      && i in v.icache && i !in v.active && Truncated(View(v), View(w), i) && OnlyEntry(v.icache, w.icache, i)
      && w.active == v.active && w.dinodes == v.dinodes[i := w.icache[i]]
    case Free(i) =>
      && i in v.icache && i !in v.active && FreedInode(View(v), View(w), i) && w.icache == v.icache - {i}
      && w.active == v.active && i < |v.dinodes| && w.dinodes == v.dinodes[i := Dinode(0, 0, NoAddrs)]
    case Alloc(i, kind) =>
      0 < i < |v.dinodes| && v.dinodes[i].kind == 0 && kind != 0
        && w == v.(dinodes := v.dinodes[i := Dinode(kind, 0, NoAddrs)])
  }

  // ---------- the invariant ----------

  // Byte p of a file that is being written
  ghost predicate ByteSoFar(s: State, i: nat, op: Op, p: nat)
    requires op.Writing?
  {
    (p < |op.was| || op.off <= p < op.off + op.tot) && op.tot <= |op.data| ==>
      s.FileByte(i, p) == if op.off <= p < op.off + op.tot then op.data[p - op.off] else op.was[p]
  }

  // The first tot bytes are written, into blocks that are there
  ghost predicate WritingOk(s: State, i: nat, op: Op)
    requires op.Writing?
  {
    && i < |s.inodes| && op.data != [] && op.tot <= |op.data| && op.off <= |op.was| == s.inodes[i].size
    && op.off + |op.data| <= MAXFILE * BSIZE
    && (op.tot == 0 || op.tot == |op.data| || (op.off + op.tot) % BSIZE == 0)
    && Mapped(s, i, op.off / BSIZE, Upto(op.off, op.tot))
    && forall p: nat :: p < MAXFILE * BSIZE ==> ByteSoFar(s, i, op, p)
  }

  ghost predicate OpOk(s: State, i: nat, op: Op) {
    op.Writing? ==> WritingOk(s, i, op)
  }

  // A cached inode has its type, and else only more blocks than on disk
  ghost predicate CacheAt(v: Vol, i: nat) {
    i in v.icache ==>
      i < |v.dinodes| && v.icache[i].kind == v.dinodes[i].kind != 0 && v.icache[i].size == v.dinodes[i].size
  }

  ghost predicate Inv(v: Vol) {
    && View(v).Ok() && FreeOk(v.dinodes, v.icache) && (forall i: nat :: CacheAt(v, i))
    && (forall i: nat :: i in v.active ==> i in v.icache && OpOk(View(v), i, v.active[i]))
  }

  // ---------- a file that a step does not touch ----------

  ghost predicate FileKept(s: State, t: State, j: nat) {
    && j < |s.inodes| == |t.inodes| && t.inodes[j] == s.inodes[j] && (forall k: nat :: SameAddr(s, t, j, k))
    && forall p: nat :: p < MAXFILE * BSIZE ==> SameByte(s, t, j, p)
  }

  lemma OpKept(s: State, t: State, j: nat, op: Op)
    requires FileKept(s, t, j) && OpOk(s, j, op)
    ensures OpOk(t, j, op)
  {
    if op.Writing? {
      forall bn | op.off / BSIZE <= bn < Upto(op.off, op.tot)
        ensures t.Addr(j, SlotOf(bn)) != 0
      {
        assert s.Addr(j, SlotOf(bn)) != 0 && SameAddr(s, t, j, SlotOf(bn));
      }
      forall p: nat | p < MAXFILE * BSIZE
        ensures ByteSoFar(t, j, op, p)
      {
        assert ByteSoFar(s, j, op, p) && SameByte(s, t, j, p);
      }
    }
  }

  lemma HolesKept(s: State, t: State, j: nat)
    requires FileKept(s, t, j) && NoHoles(s, j)
    ensures NoHoles(t, j)
  {
    forall bn | 0 <= bn < Blocks(t.inodes[j].size)
      ensures t.Addr(j, SlotOf(bn)) != 0
    {
      assert s.Addr(j, SlotOf(bn)) != 0 && SameAddr(s, t, j, SlotOf(bn));
    }
  }

  lemma ContentsKept(s: State, t: State, j: nat)
    requires FileKept(s, t, j) && s.Ok()
    ensures t.Contents(j) == s.Contents(j)
  {
    assert s.InodeOk(j);
    forall p | 0 <= p < s.inodes[j].size
      ensures t.FileByte(j, p) == s.FileByte(j, p)
    {
      assert SameByte(s, t, j, p);
    }
  }

  lemma GrewKeeps(s: State, t: State, i: nat, j: nat)
    requires Grew(s, t, i) && j < |s.inodes| && j != i
    ensures FileKept(s, t, j)
  {
    forall k: nat
      ensures SameAddr(s, t, j, k)
    {
      assert AddrKept(s, t, i, j, k);
    }
  }

  lemma Stores(s: State, u: State, t: State, i: nat, op: Op)
    requires s.Ok() && op.Writing? && op.tot < |op.data| && PutNext(s, u, t, i, op)
    ensures StoredNext(s, u, t, i, op)
  {
    PutStores(s, u, t, i, (op.off + op.tot) / BSIZE, (op.off + op.tot) % BSIZE, op.data[op.tot..op.tot + Chunk(op)]);
  }

  lemma StoredKeeps(s: State, u: State, t: State, i: nat, bn: nat, o: nat, chunk: seq<int>, j: nat)
    requires Stored(s, u, t, i, bn, o, chunk) && bn < MAXFILE && j < |s.inodes| && j != i
    ensures FileKept(s, t, j)
  {
    GrewKeeps(s, u, i, j);
    StoreKeeps(u, i, bn, Splice(u.blocks[u.Addr(i, SlotOf(bn))], o, chunk));
    forall k: nat
      ensures SameAddr(s, t, j, k)
    {
      assert SameAddr(s, u, j, k) && SameAddr(u, t, j, k);
    }
    forall p: nat | p < MAXFILE * BSIZE
      ensures SameByte(s, t, j, p)
    {
      assert SameByte(s, u, j, p);
    }
  }

  lemma TruncKeeps(s: State, t: State, i: nat, j: nat)
    requires s.Ok() && Truncated(s, t, i) && j < |s.inodes| && j != i
    ensures FileKept(s, t, j)
  {
    TruncKeepsOk(s, t, i);
    forall k: nat
      ensures SameAddr(s, t, j, k)
    {
      assert t.Addr(j, k) == s.Addr(j, k);
    }
    forall p: nat | p < MAXFILE * BSIZE
      ensures SameByte(s, t, j, p)
    {
      assert SameAddr(s, t, j, SlotOf(p / BSIZE));
    }
  }

  // An inode is replaced by one with the same addresses
  lemma InodeSetKeeps(s: State, t: State, i: nat, d: Dinode, j: nat)
    requires i < |s.inodes| && t == s.(inodes := s.inodes[i := d]) && j < |s.inodes| && j != i
    ensures FileKept(s, t, j)
  {
    forall k: nat
      ensures SameAddr(s, t, j, k)
    {
    }
    forall p: nat | p < MAXFILE * BSIZE
      ensures SameByte(s, t, j, p)
    {
      assert SameAddr(s, t, j, SlotOf(p / BSIZE));
    }
  }

  // ---------- the steps keep the invariant ----------

  // Nothing is lost if inode i leaves the cache
  ghost predicate Saved(v: Vol, i: nat) {
    i in v.icache ==> i < |v.dinodes| && v.icache[i] == v.dinodes[i]
  }

  lemma SavedView(v: Vol, gone: set<nat>)
    requires forall i :: i in gone ==> Saved(v, i)
    ensures Overlay(v.dinodes, v.icache - gone) == Overlay(v.dinodes, v.icache)
  {
    forall i | 0 <= i < |v.dinodes|
      ensures Overlay(v.dinodes, v.icache - gone)[i] == Overlay(v.dinodes, v.icache)[i]
    {
      assert i in gone ==> Saved(v, i);
    }
  }

  // Inodes come and go in the cache, and operations begin and end; the kernel's view stays
  lemma ViewKept(v: Vol, w: Vol)
    requires Inv(v) && View(w) == View(v) && w.dinodes == v.dinodes
    requires forall i: nat :: i in w.icache ==>
        i < |w.dinodes| && w.dinodes[i].kind != 0
        && (w.icache[i] == w.dinodes[i] || (i in v.icache && w.icache[i] == v.icache[i]))
    requires forall i: nat :: i in w.active ==> i in w.icache && OpOk(View(w), i, w.active[i])
    ensures Inv(w)
  {
    forall i | 0 <= i < |w.dinodes|
      ensures FreeAt(w.dinodes, w.icache, i)
    {
      assert FreeAt(v.dinodes, v.icache, i);
    }
    forall i: nat
      ensures CacheAt(w, i)
    {
      assert CacheAt(v, i);
    }
  }

  lemma LoadKept(v: Vol, i: nat, w: Vol)
    requires Inv(v) && Next(v, Load(i), w)
    ensures Inv(w) && View(w) == View(v)
  {
    OverlaySet(v.dinodes, v.icache, i, v.dinodes[i]);
    assert Overlay(v.dinodes, v.icache)[i := v.dinodes[i]] == Overlay(v.dinodes, v.icache);
    forall j: nat | j in w.icache
      ensures j < |w.dinodes| && w.dinodes[j].kind != 0
    {
      assert CacheAt(v, j);
    }
    ViewKept(v, w);
  }

  lemma GoneKept(v: Vol, gone: set<nat>, w: Vol)
    requires Inv(v) && w == v.(icache := v.icache - gone) && (forall i :: i in gone ==> Saved(v, i) && i !in v.active)
    ensures Inv(w) && View(w) == View(v)
  {
    SavedView(v, gone);
    forall j: nat | j in w.icache
      ensures j < |w.dinodes| && w.dinodes[j].kind != 0
    {
      assert CacheAt(v, j);
    }
    ViewKept(v, w);
  }

  lemma ActiveKept(v: Vol, w: Vol, i: nat)
    requires Inv(v) && w == v.(active := w.active)
    requires (forall j: nat :: j in w.active && j != i ==> j in v.active && w.active[j] == v.active[j])
    requires i in w.active ==> i in v.icache && OpOk(View(v), i, w.active[i])
    ensures Inv(w)
  {
    forall j: nat | j in w.icache
      ensures j < |w.dinodes| && w.dinodes[j].kind != 0
    {
      assert CacheAt(v, j);
    }
    ViewKept(v, w);
  }

  lemma RebootKept(v: Vol, w: Vol)
    requires Inv(v) && w == v.(icache := map[], active := map[]) && forall i: nat :: Saved(v, i)
    ensures Inv(w) && View(w) == View(v)
  {
    var idle := v.(active := map[]);
    ActiveKept(v, idle, 0);
    assert idle.icache - idle.icache.Keys == map[];
    assert forall i: nat :: Saved(idle, i) == Saved(v, i);
    GoneKept(idle, idle.icache.Keys, w);
  }

  lemma WriteBegins(v: Vol, i: nat, off: nat, data: seq<int>)
    requires Inv(v) && i in v.icache && i < |v.dinodes| && off <= v.icache[i].size && off + |data| <= MAXFILE * BSIZE
    requires data != []
    ensures OpOk(View(v), i, Writing(off, data, 0, View(v).Contents(i)))
  {
    var s := View(v);
    assert s.InodeOk(i) && s.inodes[i] == v.icache[i];
  }

  // Blocks were added to inode i, which stays in the cache
  lemma RoundKept(v: Vol, w: Vol, i: nat)
    requires Inv(v) && Round(v, w, i) && i in v.icache && i < |v.dinodes| && i in v.active && View(w).Ok()
    requires View(w).inodes == View(v).inodes[i := View(v).inodes[i].(addrs := View(w).inodes[i].addrs)]
    requires forall j: nat :: j < |v.dinodes| && j != i ==> FileKept(View(v), View(w), j)
    requires i in w.active && OpOk(View(w), i, w.active[i]) && w.active == v.active[i := w.active[i]]
    ensures Inv(w)
  {
    assert CacheAt(v, i);
    assert View(v).inodes[i] == v.icache[i] && View(w).inodes[i] == w.icache[i];
    forall j | 0 <= j < |w.dinodes|
      ensures FreeAt(w.dinodes, w.icache, j)
    {
      assert FreeAt(v.dinodes, v.icache, j);
    }
    forall j: nat
      ensures CacheAt(w, j)
    {
      assert CacheAt(v, j);
    }
    forall j: nat | j in w.active
      ensures j in w.icache && OpOk(View(w), j, w.active[j])
    {
      if j != i {
        assert CacheAt(v, j);
        OpKept(View(v), View(w), j, v.active[j]);
      }
    }
  }

  lemma ReadKept(v: Vol, i: nat, bn: nat, w: Vol)
    requires Inv(v) && Next(v, ReadBlock(i, bn), w)
    ensures Inv(w)
  {
    assert CacheAt(v, i);
    BmapGrows(View(v), View(w), i, bn);
    forall j: nat | j < |v.dinodes| && j != i
      ensures FileKept(View(v), View(w), j)
    {
      GrewKeeps(View(v), View(w), i, j);
    }
    RoundKept(v, w, i);
  }

  lemma ChunkArithmetic(s: State, i: nat, op: Op)
    requires op.Writing? && op.tot < |op.data| && WritingOk(s, i, op)
    ensures
      var bn, next := (op.off + op.tot) / BSIZE, op.tot + Chunk(op);
      && bn < MAXFILE && 0 < Chunk(op) <= BSIZE - (op.off + op.tot) % BSIZE && next <= |op.data|
      && (next == |op.data| || (op.off + next) % BSIZE == 0)
      && Upto(op.off, op.tot) == bn && Upto(op.off, next) == bn + 1
  {
    RoundArithmetic(op.off, |op.data|, op.tot, Chunk(op), op.tot + Chunk(op));
  }

  lemma ChunkByte(s: State, t: State, i: nat, op: Op, m: nat, bn: nat, o: nat, was: Blk, p: nat)
    requires op.Writing? && op.tot + m <= |op.data| && bn == (op.off + op.tot) / BSIZE && o == (op.off + op.tot) % BSIZE
    requires |was| == BSIZE && o + m <= BSIZE && p < MAXFILE * BSIZE && ByteSoFar(s, i, op, p)
    requires p / BSIZE == bn ==> s.FileByte(i, p) == was[p % BSIZE]
    requires t.FileByte(i, p) == if p / BSIZE == bn then Splice(was, o, op.data[op.tot..op.tot + m])[p % BSIZE]
        else s.FileByte(i, p)
    ensures ByteSoFar(t, i, op.(tot := op.tot + m), p)
  {
    if p / BSIZE == bn {
      assert p == bn * BSIZE + p % BSIZE && op.off + op.tot == bn * BSIZE + o;
    }
  }

  // The round's block is there, and the blocks that were
  lemma RoundBlocks(s: State, u: State, t: State, i: nat, op: Op, bn: nat)
    requires op.Writing? && op.tot < |op.data| && WritingOk(s, i, op) && StoredNext(s, u, t, i, op)
    requires bn == (op.off + op.tot) / BSIZE < MAXFILE && Upto(op.off, op.tot) == bn
    ensures t.Ok() && Mapped(t, i, op.off / BSIZE, bn + 1)
    ensures t.inodes == s.inodes[i := s.inodes[i].(addrs := t.inodes[i].addrs)]
    ensures forall k: nat :: AddrKept(s, t, i, i, k)
  {
    StoreKeeps(u, i, bn, t.blocks[u.Addr(i, SlotOf(bn))]);
    forall k: nat
      ensures AddrKept(s, t, i, i, k)
    {
      assert AddrKept(s, u, i, i, k) && SameAddr(u, t, i, k);
    }
    forall x | op.off / BSIZE <= x < bn + 1
      ensures t.Addr(i, SlotOf(x)) != 0
    {
      assert AddrKept(s, t, i, i, SlotOf(x)) && SameAddr(u, t, i, SlotOf(x));
      assert x < bn ==> s.Addr(i, SlotOf(x)) != 0;
    }
  }

  lemma RoundByte(s: State, u: State, t: State, i: nat, op: Op, bn: nat, p: nat)
    requires op.Writing? && op.tot < |op.data| && WritingOk(s, i, op) && StoredNext(s, u, t, i, op)
    requires p < MAXFILE * BSIZE
    requires bn == (op.off + op.tot) / BSIZE < MAXFILE && op.tot + Chunk(op) <= |op.data|
    ensures ByteSoFar(t, i, op.(tot := op.tot + Chunk(op)), p)
  {
    var was := u.blocks[u.Addr(i, SlotOf(bn))];
    StoreKeeps(u, i, bn, t.blocks[u.Addr(i, SlotOf(bn))]);
    assert ByteSoFar(s, i, op, p) && SameByte(s, u, i, p);
    ChunkByte(s, t, i, op, Chunk(op), bn, (op.off + op.tot) % BSIZE, was, p);
  }

  /** One more round of a write, on a file that others do not touch. */
  lemma WritingMore(s: State, u: State, t: State, i: nat, op: Op)
    requires op.Writing? && op.tot < |op.data| && WritingOk(s, i, op) && StoredNext(s, u, t, i, op)
    ensures t.Ok() && WritingOk(t, i, op.(tot := op.tot + Chunk(op)))
    ensures t.inodes == s.inodes[i := s.inodes[i].(addrs := t.inodes[i].addrs)]
    ensures forall k: nat :: AddrKept(s, t, i, i, k)
  {
    var bn, next := (op.off + op.tot) / BSIZE, op.(tot := op.tot + Chunk(op));
    ChunkArithmetic(s, i, op);
    RoundBlocks(s, u, t, i, op, bn);
    forall p: nat | p < MAXFILE * BSIZE
      ensures ByteSoFar(t, i, next, p)
    {
      RoundByte(s, u, t, i, op, bn, p);
    }
  }

  lemma NextKeeps(s: State, u: State, t: State, i: nat, op: Op, j: nat)
    requires op.Writing? && op.tot < |op.data| && WritingOk(s, i, op) && StoredNext(s, u, t, i, op) && j < |s.inodes|
    requires j != i
    ensures FileKept(s, t, j)
  {
    ChunkArithmetic(s, i, op);
    StoredKeeps(s, u, t, i, (op.off + op.tot) / BSIZE, (op.off + op.tot) % BSIZE, op.data[op.tot..op.tot + Chunk(op)],
      j);
  }

  lemma WriteKept(v: Vol, i: nat, w: Vol)
    requires Inv(v) && Next(v, WriteBlock(i), w)
    ensures Inv(w)
  {
    var op := v.active[i];
    var u :| PutNext(View(v), u, View(w), i, op);
    Stores(View(v), u, View(w), i, op);
    assert CacheAt(v, i) && OpOk(View(v), i, op);
    WritingMore(View(v), u, View(w), i, op);
    forall j: nat | j < |v.dinodes| && j != i
      ensures FileKept(View(v), View(w), j)
    {
      NextKeeps(View(v), u, View(w), i, op, j);
    }
    RoundKept(v, w, i);
  }

  // Inode i is saved as d, and cached so if at all; its operation has ended
  lemma SaveKept(v: Vol, w: Vol, i: nat, d: Dinode)
    requires Inv(v) && i < |v.dinodes| && View(w).Ok() && w.dinodes == v.dinodes[i := d]
    requires w.icache.Keys <= v.icache.Keys && w.g == v.g
    requires (i in w.icache ==> w.icache[i] == d && d.kind != 0) && (d.kind == 0 ==> d.addrs == NoAddrs)
    requires forall j: nat :: j != i && j in w.icache ==> w.icache[j] == v.icache[j]
    requires forall j: nat :: j < |v.dinodes| && j != i ==> FileKept(View(v), View(w), j)
    requires i !in w.active
    requires forall j: nat :: j in w.active ==> j in v.active && j in w.icache && w.active[j] == v.active[j]
    ensures Inv(w)
  {
    FreeKept(v.dinodes, v.icache, i, d, w.icache);
    forall j: nat
      ensures CacheAt(w, j)
    {
      assert CacheAt(v, j);
    }
    forall j: nat | j in w.active
      ensures j in w.icache && OpOk(View(w), j, w.active[j])
    {
      assert CacheAt(v, j);
      OpKept(View(v), View(w), j, v.active[j]);
    }
  }

  lemma OverlayBoth(dinodes: seq<Dinode>, icache: map<nat, Dinode>, i: nat, d: Dinode)
    requires i < |dinodes|
    ensures Overlay(dinodes[i := d], icache[i := d]) == Overlay(dinodes, icache)[i := d]
    ensures Overlay(dinodes[i := d], icache - {i}) == Overlay(dinodes, icache)[i := d]
  {
  }

  ghost function SizeAfter(op: Op): nat
    requires op.Writing?
  {
    Max(|op.was|, op.off + |op.data|)
  }

  // writei's end: the new size, in memory and on disk
  lemma EndView(v: Vol, i: nat, w: Vol)
    requires Inv(v) && Next(v, EndWrite(i), w)
    ensures i < |View(v).inodes| && View(w) == SetSize(View(v), i, SizeAfter(v.active[i]))
    ensures SizeAfter(v.active[i]) <= MAXFILE * BSIZE
  {
    var op := v.active[i];
    assert OpOk(View(v), i, op) && View(v).InodeOk(i) && View(v).inodes[i] == v.icache[i];
    OverlayBoth(v.dinodes, v.icache, i, w.icache[i]);
  }

  lemma EndKept(v: Vol, i: nat, w: Vol)
    requires Inv(v) && Next(v, EndWrite(i), w)
    ensures Inv(w)
  {
    EndView(v, i, w);
    SetSizeKeepsOk(View(v), i, SizeAfter(v.active[i]));
    forall j: nat | j < |v.dinodes| && j != i
      ensures FileKept(View(v), View(w), j)
    {
      InodeSetKeeps(View(v), View(w), i, View(w).inodes[i], j);
    }
    assert CacheAt(v, i);
    SaveKept(v, w, i, w.icache[i]);
  }

  /** A write that has run its rounds, however others' rounds went in between, leaves the file as it was
      at the beginning with the data spliced in. */
  lemma WriteEnds(v: Vol, i: nat, w: Vol)
    requires Inv(v) && Next(v, EndWrite(i), w)
    ensures var op := v.active[i];
            i < |v.dinodes| && op.off <= |op.was| && View(w).Contents(i) == Splice(op.was, op.off, op.data)
  {
    var op := v.active[i];
    EndView(v, i, w);
    assert OpOk(View(v), i, op);
    SetSizeKeepsOk(View(v), i, SizeAfter(op));
    forall p | 0 <= p < SizeAfter(op)
      ensures View(w).FileByte(i, p) == Splice(op.was, op.off, op.data)[p]
    {
      assert ByteSoFar(View(v), i, op, p) && SameByte(View(v), View(w), i, p);
    }
  }

  lemma TruncKept(v: Vol, i: nat, w: Vol)
    requires Inv(v) && Next(v, Trunc(i), w)
    ensures Inv(w)
  {
    TruncKeepsOk(View(v), View(w), i);
    forall j: nat | j < |v.dinodes| && j != i
      ensures FileKept(View(v), View(w), j)
    {
      TruncKeeps(View(v), View(w), i, j);
    }
    assert CacheAt(v, i) && View(v).inodes[i] == v.icache[i] && View(w).inodes[i] == w.icache[i];
    SaveKept(v, w, i, w.icache[i]);
  }

  lemma FreedKept(v: Vol, i: nat, w: Vol)
    requires Inv(v) && Next(v, Free(i), w)
    ensures Inv(w)
  {
    var s, t := View(v), View(w);
    var d := Dinode(s.inodes[i].kind, 0, NoAddrs);
    var mid := t.(inodes := t.inodes[i := d]);
    TruncKeepsOk(s, mid, i);
    EmptyInode(mid, i, Dinode(0, 0, NoAddrs));
    assert mid.inodes[i := Dinode(0, 0, NoAddrs)] == t.inodes;
    forall j: nat | j < |v.dinodes| && j != i
      ensures FileKept(s, t, j)
    {
      TruncKeeps(s, mid, i, j);
      InodeSetKeeps(mid, t, i, Dinode(0, 0, NoAddrs), j);
      KeptTwice2(s, mid, t, j);
    }
    SaveKept(v, w, i, Dinode(0, 0, NoAddrs));
  }

  lemma KeptTwice2(s: State, t: State, u: State, j: nat)
    requires FileKept(s, t, j) && FileKept(t, u, j)
    ensures FileKept(s, u, j)
  {
    forall k: nat
      ensures SameAddr(s, u, j, k)
    {
      assert SameAddr(s, t, j, k) && SameAddr(t, u, j, k);
    }
    forall p: nat | p < MAXFILE * BSIZE
      ensures SameByte(s, u, j, p)
    {
      assert SameByte(s, t, j, p) && SameByte(t, u, j, p);
    }
  }

  lemma AllocKept(v: Vol, i: nat, kind: int, w: Vol)
    requires Inv(v) && Next(v, Alloc(i, kind), w)
    ensures Inv(w)
  {
    var d := Dinode(kind, 0, NoAddrs);
    assert FreeAt(v.dinodes, v.icache, i);
    OverlayDisk(v.dinodes, v.icache, i, d);
    EmptyInode(View(v), i, d);
    forall j: nat | j < |v.dinodes| && j != i
      ensures FileKept(View(v), View(w), j)
    {
      InodeSetKeeps(View(v), View(w), i, d, j);
    }
    forall j: nat | j in v.active
      ensures j != i
    {
      assert j in v.icache;
    }
    SaveKept(v, w, i, d);
  }

  /** Every step keeps the invariant, unless it throws away an inode that has not been saved. */
  lemma StepKeeps(v: Vol, a: Step, w: Vol)
    requires Inv(v) && Next(v, a, w) && (a.Recycle? ==> Saved(v, a.i)) && (a.Reboot? ==> forall i: nat :: Saved(v, i))
    ensures Inv(w)
  {
    match a
    case Load(i) => LoadKept(v, i, w);
    case Recycle(i) => GoneKept(v, {i}, w);
    case Reboot => RebootKept(v, w);
    case BeginRead(i) => ActiveKept(v, w, i);
    case ReadBlock(i, bn) => ReadKept(v, i, bn, w);
    case EndRead(i) => ActiveKept(v, w, i);
    case BeginWrite(i, off, data) =>
      WriteBegins(v, i, off, data);
      ActiveKept(v, w, i);
    case WriteBlock(i) => WriteKept(v, i, w);
    case EndWrite(i) => EndKept(v, i, w);
    case Trunc(i) => TruncKept(v, i, w);
    case Free(i) => FreedKept(v, i, w);
    case Alloc(i, kind) => AllocKept(v, i, kind, w);
  }

  // The inode that a step is about
  function About(a: Step): int {
    if a.Reboot? then -1 else a.i
  }

  ghost predicate LosesNothing(v: Vol, a: Step) {
    (a.Recycle? ==> Saved(v, a.i)) && (a.Reboot? ==> forall i: nat :: Saved(v, i))
  }

  /** A step changes no other file. */
  lemma OthersStay(v: Vol, a: Step, w: Vol, j: nat)
    requires Inv(v) && Next(v, a, w) && LosesNothing(v, a) && j < |v.dinodes| && j != About(a)
    ensures FileKept(View(v), View(w), j) && View(w).Contents(j) == View(v).Contents(j)
  {
    match a {
      case Load(i) => LoadKept(v, i, w);
      case Recycle(i) => GoneKept(v, {i}, w);
      case Reboot => RebootKept(v, w);
      case ReadBlock(i, bn) =>
        BmapGrows(View(v), View(w), i, bn);
        GrewKeeps(View(v), View(w), i, j);
      case WriteBlock(i) =>
        var u :| PutNext(View(v), u, View(w), i, v.active[i]);
        Stores(View(v), u, View(w), i, v.active[i]);
        assert OpOk(View(v), i, v.active[i]);
        NextKeeps(View(v), u, View(w), i, v.active[i], j);
      case EndWrite(i) =>
        EndView(v, i, w);
        InodeSetKeeps(View(v), View(w), i, View(w).inodes[i], j);
      case Trunc(i) => TruncKeeps(View(v), View(w), i, j);
      case Free(i) => FreeStays(View(v), View(w), i, j);
      case Alloc(i, kind) =>
        assert FreeAt(v.dinodes, v.icache, i);
        OverlayDisk(v.dinodes, v.icache, i, Dinode(kind, 0, NoAddrs));
        InodeSetKeeps(View(v), View(w), i, Dinode(kind, 0, NoAddrs), j);
      case BeginRead(i) =>
      case EndRead(i) =>
      case BeginWrite(i, off, data) =>
    }
    ContentsKept(View(v), View(w), j);
  }

  lemma FreeStays(s: State, t: State, i: nat, j: nat)
    requires s.Ok() && FreedInode(s, t, i) && j < |s.inodes| && j != i
    ensures FileKept(s, t, j)
  {
    var mid := t.(inodes := t.inodes[i := Dinode(s.inodes[i].kind, 0, NoAddrs)]);
    TruncKeeps(s, mid, i, j);
    InodeSetKeeps(t, mid, i, Dinode(s.inodes[i].kind, 0, NoAddrs), j);
    forall k: nat
      ensures SameAddr(s, t, j, k)
    {
      assert SameAddr(s, mid, j, k) && SameAddr(t, mid, j, k);
    }
    forall p: nat | p < MAXFILE * BSIZE
      ensures SameByte(s, t, j, p)
    {
      assert SameByte(s, mid, j, p) && SameByte(t, mid, j, p);
    }
  }

  // ---------- runs of a volume without holes ----------

  // Saved, or being written
  ghost predicate SavedOrNow(v: Vol, i: nat) {
    Saved(v, i) || (i in v.active && v.active[i].Writing?)
  }

  ghost predicate Clean(v: Vol) {
    && Inv(v) && (forall i :: 0 <= i < |v.dinodes| ==> NoHoles(View(v), i))
    && forall i: nat :: SavedOrNow(v, i)
  }

  lemma EndHoles(v: Vol, i: nat, w: Vol)
    requires Inv(v) && Next(v, EndWrite(i), w) && i < |v.dinodes| && NoHoles(View(v), i)
    ensures NoHoles(View(w), i)
  {
    var s, op := View(v), v.active[i];
    EndView(v, i, w);
    assert OpOk(s, i, op);
    SetSizeKeepsOk(s, i, SizeAfter(op));
    forall bn | 0 <= bn < Blocks(SizeAfter(op))
      ensures View(w).Addr(i, SlotOf(bn)) != 0
    {
      assert SameAddr(s, View(w), i, SlotOf(bn));
      SizeBlocks(|op.was|, op.off, |op.data|, bn);
      assert bn < Blocks(|op.was|) ==> s.Addr(i, SlotOf(bn)) != 0;
    }
  }

  lemma SizeBlocks(size: nat, off: nat, n: nat, bn: nat)
    requires off <= size && n > 0 && bn < Blocks(Max(size, off + n))
    ensures bn < Blocks(size) || off / BSIZE <= bn < Upto(off, n)
  {
  }

  // The file that the step is about
  lemma CleanFile(v: Vol, a: Step, w: Vol, i: nat)
    requires Clean(v) && Inv(w) && Next(v, a, w) && i == About(a) && i < |v.dinodes|
    ensures NoHoles(View(w), i) && SavedOrNow(w, i)
  {
    assert SavedOrNow(v, i);
    assert NoHoles(View(v), i);
    match a {
      case Load(_) => LoadKept(v, i, w);
      case Recycle(_) => GoneKept(v, {i}, w);
      case ReadBlock(_, bn) =>
        assert CacheAt(v, i) && View(v).inodes[i] == v.icache[i];
        assert View(v).Addr(i, SlotOf(bn)) != 0;
        BmapGrows(View(v), View(w), i, bn);
        assert View(w).inodes[i] == w.icache[i];
      case WriteBlock(_) =>
        var u :| PutNext(View(v), u, View(w), i, v.active[i]);
        Stores(View(v), u, View(w), i, v.active[i]);
        assert OpOk(View(v), i, v.active[i]);
        WritingMore(View(v), u, View(w), i, v.active[i]);
        forall bn | 0 <= bn < Blocks(View(w).inodes[i].size)
          ensures View(w).Addr(i, SlotOf(bn)) != 0
        {
          assert View(v).Addr(i, SlotOf(bn)) != 0 && AddrKept(View(v), View(w), i, i, SlotOf(bn));
        }
      case EndWrite(_) => EndHoles(v, i, w);
      case Trunc(_) =>
        assert View(w).inodes[i] == w.icache[i];
      case Free(_) =>
      case Alloc(_, kind) =>
        assert FreeAt(v.dinodes, v.icache, i);
        OverlayDisk(v.dinodes, v.icache, i, Dinode(kind, 0, NoAddrs));
      case BeginRead(_) =>
      case EndRead(_) =>
      case BeginWrite(_, off, data) =>
    }
  }

  lemma CleanStep(v: Vol, a: Step, w: Vol)
    requires Clean(v) && Next(v, a, w)
    ensures Clean(w) && LosesNothing(v, a)
  {
    if a.Reboot? {
      forall i: nat
        ensures Saved(v, i)
      {
        assert SavedOrNow(v, i);
      }
    } else if a.Recycle? {
      assert SavedOrNow(v, a.i);
    }
    StepKeeps(v, a, w);
    SameInodes(v, a, w);
    forall i | 0 <= i < |w.dinodes|
      ensures NoHoles(View(w), i)
    {
      if i == About(a) {
        CleanFile(v, a, w, i);
      } else {
        assert NoHoles(View(v), i);
        OthersStay(v, a, w, i);
        HolesKept(View(v), View(w), i);
      }
    }
    forall i: nat
      ensures SavedOrNow(w, i)
    {
      assert CacheAt(v, i) && CacheAt(w, i);
      if i == About(a) && i < |v.dinodes| {
        CleanFile(v, a, w, i);
      } else {
        assert SavedOrNow(v, i);
      }
    }
  }

  lemma SameInodes(v: Vol, a: Step, w: Vol)
    requires Inv(v) && Next(v, a, w)
    ensures |w.dinodes| == |v.dinodes| && (a.Recycle? || a.Reboot? || About(a) < |v.dinodes|)
    ensures forall j: nat :: j != About(a) && j in w.icache ==> j in v.icache && w.icache[j] == v.icache[j]
    ensures forall j: nat :: j != About(a) && j < |v.dinodes| ==> w.dinodes[j] == v.dinodes[j]
    ensures forall j: nat :: j != About(a) && j in v.active && v.active[j].Writing? ==>
              j in w.active && w.active[j] == v.active[j]
  {
    if !a.Reboot? {
      assert CacheAt(v, a.i);
    }
  }

  // ---------- whole runs ----------

  ghost predicate IsRun(v: Vol, steps: seq<Step>, w: Vol)
    decreases |steps|
  {
    if steps == [] then w == v
    else
      var before, last := steps[..|steps| - 1], steps[|steps| - 1];
      exists u :: IsRun(v, before, u) && Next(u, last, w)
  }

  /** From a volume without holes every run keeps the invariant: the kernel's view is consistent, no
      file gets a hole, and what is cached but not on disk is being written. */
  lemma {:induction false} RunKeeps(v: Vol, steps: seq<Step>, w: Vol)
    requires Clean(v) && IsRun(v, steps, w)
    ensures Clean(w)
    decreases |steps|
  {
    if steps != [] {
      var last := |steps| - 1;
      var u :| IsRun(v, steps[..last], u) && Next(u, steps[last], w);
      RunKeeps(v, steps[..last], u);
      CleanStep(u, steps[last], w);
    }
  }

  /** On disk every data block is free or in one slot of one inode. */
  ghost predicate DiskOwned(v: Vol) {
    exists owner :: OnDisk(v, owner).Ok()
  }

  /** ... whenever no write is under way, which is when a transaction can commit, in every run. */
  ghost predicate AlwaysOwned(v: Vol) {
    forall steps, w :: IsRun(v, steps, w) && NoneWriting(w) ==> DiskOwned(w)
  }

  lemma CleanOwned(w: Vol)
    requires Clean(w) && NoneWriting(w)
    ensures DiskOwned(w)
  {
    forall i | 0 <= i < |w.dinodes|
      ensures Overlay(w.dinodes, w.icache)[i] == w.dinodes[i]
    {
      assert SavedOrNow(w, i);
    }
    assert Overlay(w.dinodes, w.icache) == w.dinodes;
    assert OnDisk(w, w.owner) == View(w);
  }

  lemma RunExtends(v: Vol, steps: seq<Step>, u: Vol, a: Step, w: Vol)
    requires IsRun(v, steps, u) && Next(u, a, w)
    ensures IsRun(v, steps + [a], w)
  {
    var more := steps + [a];
    assert more[..|more| - 1] == steps && more[|more| - 1] == a;
  }

  // ---------- a hole ----------

  lemma Loads(v: Vol, j: nat) returns (w: Vol)
    requires Inv(v) && v.icache == map[] && v.active == map[] && j < |v.dinodes| && v.dinodes[j].kind != 0
    ensures IsRun(v, [Load(j)], w) && w == v.(icache := map[j := v.dinodes[j]]) && Inv(w) && View(w) == View(v)
  {
    w := v.(icache := map[j := v.dinodes[j]]);
    assert v.icache[j := v.dinodes[j]] == w.icache;
    assert IsRun(v, [], v);
    RunExtends(v, [], v, Load(j), w);
    assert [] + [Load(j)] == [Load(j)];
    LoadKept(v, j, w);
  }

  // File i has no block bn, and nothing is cached or under way
  ghost predicate Resting(v: Vol, i: nat, bn: nat) {
    && Inv(v) && v.icache == map[] && v.active == map[] && i < |v.dinodes| && v.dinodes[i].kind != 0
    && bn < NDIRECT && HoleAt(View(v), i, bn)
  }

  // ... and block b is the first that is free, which balloc takes
  ghost predicate Holed(v: Vol, i: nat, bn: nat, b: nat) {
    && Resting(v, i, bn) && b < v.g.size && b / 8 < |v.bitmap| && !Bit(v.bitmap, b)
    && forall c :: 0 <= c < b ==> Bit(v.bitmap, c)
  }

  lemma {:induction false} FirstFreeBlock(bm: seq<bv8>, b: nat) returns (first: nat)
    requires b / 8 < |bm| && !Bit(bm, b)
    ensures first <= b && !Bit(bm, first) && forall c :: 0 <= c < first ==> Bit(bm, c)
  {
    if c :| 0 <= c < b && !Bit(bm, c) {
      first := FirstFreeBlock(bm, c);
    } else {
      first := b;
    }
  }

  lemma HoledAt(v: Vol, i: nat, bn: nat, b: nat) returns (first: nat)
    requires Resting(v, i, bn) && b < v.g.size && b / 8 < |v.bitmap| && !Bit(v.bitmap, b)
    ensures Holed(v, i, bn, first)
  {
    first := FirstFreeBlock(v.bitmap, b);
  }

  // ... as after a read of the hole
  ghost function HoleRead(v: Vol, i: nat, bn: nat, b: nat): Vol
    requires i < |v.dinodes| && |v.dinodes[i].addrs| == NDIRECT + 1 && bn < NDIRECT && b < |v.blocks|
    requires b / 8 < |v.bitmap|
  {
    v.(bitmap := SetBit(v.bitmap, b), blocks := v.blocks[b := Zeros()], owner := v.owner[b := Slot(i, bn)],
       icache := map[i := v.dinodes[i].(addrs := v.dinodes[i].addrs[bn := b])])
  }

  lemma EmptyView(v: Vol)
    requires v.icache == map[]
    ensures View(v) == OnDisk(v, v.owner)
  {
    assert Overlay(v.dinodes, v.icache) == v.dinodes;
  }

  lemma ReadsHole(v: Vol, i: nat, bn: nat, b: nat) returns (steps: seq<Step>, w: Vol)
    requires Holed(v, i, bn, b)
    ensures IsRun(v, steps, w)
    ensures w.active == map[] && |v.dinodes[i].addrs| == NDIRECT + 1 && b < |v.blocks| && b / 8 < |v.bitmap|
    ensures w == HoleRead(v, i, bn, b)
  {
    EmptyView(v);
    assert View(v).InodeOk(i);
    var v1 := Loads(v, i);
    var v2 := v1.(active := map[i := Reading]);
    RunExtends(v, [Load(i)], v1, BeginRead(i), v2);
    var v3 := HoleRead(v, i, bn, b).(active := map[i := Reading]);
    HoleNext(v, i, bn, b, v2, v3);
    RunExtends(v, [Load(i)] + [BeginRead(i)], v2, ReadBlock(i, bn), v3);
    w := HoleRead(v, i, bn, b);
    assert v3.active - {i} == map[];
    steps := [Load(i)] + [BeginRead(i)] + [ReadBlock(i, bn)];
    RunExtends(v, steps, v3, EndRead(i), w);
    steps := steps + [EndRead(i)];
  }

  lemma HoleNext(v: Vol, i: nat, bn: nat, b: nat, v2: Vol, v3: Vol)
    requires Holed(v, i, bn, b) && |v.dinodes[i].addrs| == NDIRECT + 1 && b < |v.blocks| && b / 8 < |v.bitmap|
    requires v2 == v.(icache := map[i := v.dinodes[i]], active := map[i := Reading]) && View(v2) == View(v)
    requires v3 == HoleRead(v, i, bn, b).(active := map[i := Reading])
    ensures Next(v2, ReadBlock(i, bn), v3)
  {
    var s := View(v2);
    assert s.InodeOk(i) && s.inodes[i] == v.dinodes[i];
    DirectGrows(s, i, bn, b);
    var d := v.dinodes[i].(addrs := v.dinodes[i].addrs[bn := b]);
    assert Overlay(v3.dinodes, v3.icache) == Overlay(v2.dinodes, v2.icache)[i := d];
    assert View(v3) == AllocDirect(s, i, bn, b);
    assert v3.icache == v2.icache[i := d];
  }

  /** The block that the read has allocated is marked, and no inode on disk has it. */
  lemma HoleUnowned(v: Vol, i: nat, bn: nat, b: nat, w: Vol, owner: map<int, Slot>)
    requires Holed(v, i, bn, b) && |v.dinodes[i].addrs| == NDIRECT + 1 && b < |v.blocks| && b / 8 < |v.bitmap|
    requires w == HoleRead(v, i, bn, b)
    ensures !OnDisk(w, owner).Ok()
  {
    var s, t := View(v), OnDisk(w, owner);
    EmptyView(v);
    forall x: nat, k: nat | x < |v.dinodes| && k < NSLOTS
      ensures t.Addr(x, k) != b
    {
      NotInSlot(s, x, k, b);
      NotInSlot(s, x, NDIRECT, b);
    }
    assert s.BlockOk(b);
    SetBitOnly(v.bitmap, b, b);
    assert t.Ok() ==> t.BlockOk(b) && t.OwnerOk(b);
  }

  lemma NotInSlot(s: State, x: nat, k: nat, b: nat)
    requires s.Ok() && x < |s.inodes| && k < NSLOTS && b < s.g.size && !Bit(s.bitmap, b)
    ensures s.Addr(x, k) != b
  {
    assert s.InodeOk(x) && s.SlotOk(x, k) && s.BlockOk(b) && s.OwnerOk(b);
  }

  // ---------- making room on a full disk ----------

  // The slot that itrunc comes to after r others
  function SlotAt(r: nat): nat {
    if r < NDIRECT then r else if r == NSLOTS - 1 then NDIRECT else r + 1
  }

  lemma {:induction false} FreedBits(s: State, inum: nat, n: nat) returns (bm: seq<bv8>)
    requires s.Ok() && inum < |s.inodes| && n <= NSLOTS
    ensures Freed(s, bm, inum, n)
  {
    if n == 0 {
      bm := s.bitmap;
    } else {
      bm := FreedBits(s, inum, n - 1);
      var k := SlotAt(n - 1);
      assert Rank(k) == n - 1;
      FreeNext(s, bm, inum, k);
      if s.Addr(inum, k) != 0 {
        bm := ClearBit(bm, s.Addr(inum, k));
      }
    }
  }

  // What itrunc of a cached file leaves
  lemma CanTrunc(v: Vol, j: nat) returns (w: Vol)
    requires Inv(v) && j in v.icache && j !in v.active
    ensures Next(v, Trunc(j), w) && w.g == v.g
  {
    var s := View(v);
    assert CacheAt(v, j) && s.inodes[j] == v.icache[j];
    var bm := FreedBits(s, j, NSLOTS);
    var d := Dinode(v.icache[j].kind, 0, NoAddrs);
    w := v.(bitmap := bm, owner := map b | b in v.owner && v.owner[b].inum != j :: v.owner[b],
            icache := v.icache[j := d], dinodes := v.dinodes[j := d]);
    OverlayBoth(v.dinodes, v.icache, j, d);
    AllFreed(s, View(w), j);
  }

  lemma {:induction false} Pigeons(ks: seq<int>, n: nat) returns (x: nat, y: nat)
    requires |ks| > n && forall x :: 0 <= x < |ks| ==> 0 <= ks[x] < n
    ensures x < y < |ks| && ks[x] == ks[y]
    decreases n
  {
    var last := |ks| - 1;
    if z :| 0 <= z < last && ks[z] == ks[last] {
      x, y := z, last;
    } else {
      var fewer := seq(last, z requires 0 <= z < last => if ks[z] == n - 1 then ks[last] else ks[z]);
      x, y := Pigeons(fewer, n - 1);
    }
  }

  ghost predicate OwnedBy(s: State, i: nat, c: int) {
    c in s.owner && s.owner[c].inum == i
  }

  ghost function OwnedSlot(s: State, c: int): int {
    if c in s.owner then s.owner[c].k else 0
  }

  // One file cannot own a whole disk
  lemma NotAllOwned(s: State, i: nat)
    requires s.Ok() && i < |s.inodes| && s.g.size - s.g.datastart > NSLOTS
    ensures exists c :: s.g.datastart <= c < s.g.size && !OwnedBy(s, i, c)
  {
    var start := s.g.datastart;
    if forall c :: start <= c < s.g.size ==> OwnedBy(s, i, c) {
      var ks := seq(NSLOTS + 1, z requires 0 <= z => OwnedSlot(s, start + z));
      forall z | 0 <= z < |ks|
        ensures 0 <= ks[z] < NSLOTS && s.Addr(i, ks[z]) == start + z
      {
        assert OwnedBy(s, i, start + z) && s.OwnerOk(start + z);
        assert ks[z] == OwnedSlot(s, start + z);
      }
      var x, y := Pigeons(ks, NSLOTS);
    }
  }

  lemma OtherOwner(s: State, i: nat) returns (b: nat)
    requires s.Ok() && i < |s.inodes| && DiskFull(s.g.size, s.bitmap) && s.g.size - s.g.datastart > NSLOTS
    ensures b in s.owner && s.owner[b].inum != i
  {
    NotAllOwned(s, i);
    b :| s.g.datastart <= b < s.g.size && !OwnedBy(s, i, b);
    assert s.BlockOk(b);
  }

  // ... so there is another to truncate, and then a free block
  lemma MakesRoom(v: Vol, i: nat, bn: nat) returns (steps: seq<Step>, w: Vol, b: nat)
    requires Resting(v, i, bn) && DiskFull(v.g.size, v.bitmap) && v.g.size - v.g.datastart > NSLOTS
    ensures IsRun(v, steps, w) && Holed(w, i, bn, b)
  {
    var s := View(v);
    EmptyView(v);
    b := OtherOwner(s, i);
    assert s.OwnerOk(b);
    var j := s.owner[b].inum;
    OwnerInUse(v, b);
    var v1 := Loads(v, j);
    var v2 := CanTrunc(v1, j);
    RunExtends(v, [Load(j)], v1, Trunc(j), v2);
    w := v2.(icache := map[]);
    Emptied(v1, j, v2, w, i, bn, b);
    b := HoledAt(w, i, bn, b);
    RunExtends(v, [Load(j)] + [Trunc(j)], v2, Recycle(j), w);
    steps := [Load(j)] + [Trunc(j)] + [Recycle(j)];
  }

  lemma OwnerInUse(v: Vol, b: int)
    requires Inv(v) && v.icache == map[] && b in v.owner
    ensures v.owner[b].inum < |v.dinodes| && v.dinodes[v.owner[b].inum].kind != 0
  {
    var s := View(v);
    EmptyView(v);
    assert s.OwnerOk(b);
    var j := s.owner[b].inum;
    assert FreeAt(v.dinodes, v.icache, j) && s.InodeOk(j);
  }

  lemma Emptied(v1: Vol, j: nat, v2: Vol, w: Vol, i: nat, bn: nat, b: nat)
    requires Inv(v1) && Next(v1, Trunc(j), v2) && v1.icache.Keys == {j}
    requires v1.active == map[] && w == v2.(icache := map[])
    requires i < |v1.dinodes| && i != j && v1.dinodes[i].kind != 0 && bn < NDIRECT && HoleAt(View(v1), i, bn)
    requires b in v1.owner && v1.owner[b].inum == j && b < v1.g.size
    ensures Next(v2, Recycle(j), w) && Resting(w, i, bn) && b / 8 < |w.bitmap| && !Bit(w.bitmap, b) && w.g == v1.g
  {
    TruncKept(v1, j, v2);
    OthersStay(v1, Trunc(j), v2, i);
    assert SameAddr(View(v1), View(v2), i, bn);
    assert v2.icache - {j} == map[];
    GoneKept(v2, {j}, w);
  }

  // ---------- exactly when ----------

  function Boot(s: State): Vol {
    Vol(s.g, s.bitmap, s.blocks, s.inodes, map[], s.owner, map[])
  }

  lemma BootOk(s: State)
    requires s.Ok() && FreeOk(s.inodes, map[])
    ensures Inv(Boot(s)) && View(Boot(s)) == s
  {
    EmptyView(Boot(s));
  }

  lemma {:induction false} RunsJoin(v: Vol, first: seq<Step>, u: Vol, more: seq<Step>, w: Vol)
    requires IsRun(v, first, u) && IsRun(u, more, w)
    ensures IsRun(v, first + more, w)
    decreases |more|
  {
    if more == [] {
      assert first + more == first;
    } else {
      var before, last := more[..|more| - 1], more[|more| - 1];
      var x :| IsRun(u, before, x) && Next(x, last, w);
      RunsJoin(v, first, u, before, x);
      RunExtends(v, first + before, x, last, w);
      JoinLast(first, more);
    }
  }

  lemma JoinLast(first: seq<Step>, more: seq<Step>)
    requires more != []
    ensures first + more[..|more| - 1] + [more[|more| - 1]] == first + more
  {
  }

  lemma HoleFailsLater(v: Vol, first: seq<Step>, u: Vol, i: nat, bn: nat, b: nat)
    requires IsRun(v, first, u) && Holed(u, i, bn, b)
    ensures !AlwaysOwned(v)
  {
    var steps, w := ReadsHole(u, i, bn, b);
    RunsJoin(v, first, u, steps, w);
    forall owner
      ensures !OnDisk(w, owner).Ok()
    {
      HoleUnowned(u, i, bn, b, w, owner);
    }
    assert !DiskOwned(w);
  }

  /** On the image that mkfs has made, every data block on disk is free or owned whenever no write
      is under way, in every run, if and only if the root directory's entries do not fill whole
      blocks: else a read of the root's hole allocates a block that no inode on disk ever has. */
  lemma ImageRunsIff(s: State, names: seq<seq<int>>, data: seq<seq<int>>)
    requires |names| == |data| && IsImage(s, names, data)
    ensures AlwaysOwned(Boot(s)) <==> (|names| + 2) % 64 != 0
  {
    var v, bn := Boot(s), (|names| + 2) / 64;
    BootOk(s);
    if (|names| + 2) % 64 != 0 {
      assert Clean(v);
      forall steps, w | IsRun(v, steps, w) && NoneWriting(w)
        ensures DiskOwned(w)
      {
        RunKeeps(v, steps, w);
        CleanOwned(w);
      }
    } else if DiskFull(s.g.size, s.bitmap) {
      var first, u, b := MakesRoom(v, ROOTINO, bn);
      HoleFailsLater(v, first, u, ROOTINO, bn, b);
    } else {
      var free :| 0 <= free < s.g.size && !Bit(s.bitmap, free);
      var b := HoledAt(v, ROOTINO, bn, free);
      assert IsRun(v, [], v);
      HoleFailsLater(v, [], v, ROOTINO, bn, b);
    }
  }
}
