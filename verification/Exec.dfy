/** The memory side of exec: a new image is built beside the old one, and replaces it only when
    it is complete. */
module Exec {
  import opened PageTable
  import opened VirtualMemory
  import opened ProcMemory
  import opened UserCopy

  const U32: nat := 0x1_0000_0000
  const U64: nat := 0x1_0000_0000_0000_0000
  const MAXPAGES: nat := 32768         // (PHYSTOP - KERNBASE) / PGSIZE
  const MAXARG: nat := 32

  // A program header as read from the file: not to be loaded; not readable; or to be loaded,
  // with the bytes that the file has from ph.off on
  datatype Segment = Other | Unreadable | Load(vaddr: nat, memsz: nat, filesz: nat, bytes: seq<int>)

  predicate Typed(g: Segment) {
    g.Load? ==> g.vaddr < U64 && g.memsz < U64 && g.filesz < U64
  }

  // Byte va of the image that the first k segments make: zero where none has a byte for it
  function ImageByte(segs: seq<Segment>, k: nat, va: nat): int
    requires k <= |segs|
  {
    if k == 0 then 0
    else
      var g := segs[k - 1];
      if g.Load? && g.vaddr <= va < g.vaddr + g.filesz && va - g.vaddr < |g.bytes| then g.bytes[va - g.vaddr]
      else ImageByte(segs, k - 1, va)
  }

  // How far the first k segments reach
  function SizeAfter(segs: seq<Segment>, k: nat): nat
    requires k <= |segs|
  {
    if k == 0 then 0
    else
      var g, sz := segs[k - 1], SizeAfter(segs, k - 1);
      if g.Load? && g.vaddr + g.memsz > sz then g.vaddr + g.memsz else sz
  }

  // What exec demands of segment k; a first segment of no size is taken for a failure of uvmalloc
  predicate SegmentOk(segs: seq<Segment>, k: nat)
    requires k < |segs|
  {
    match segs[k]
    case Other => true
    case Unreadable => false
    case Load(vaddr, memsz, filesz, bytes) =>
      filesz <= memsz && vaddr + memsz < U64 && SizeAfter(segs, k + 1) != 0 && vaddr % PGSIZE == 0 && filesz <= |bytes|
  }

  // All the memory that the segment asks for is among the n lowest pages
  predicate Covered(g: Segment, n: nat) {
    g.Load? ==> g.vaddr + g.memsz <= n * PGSIZE
  }

  lemma {:induction false} Covers(segs: seq<Segment>, k: nat)
    requires k <= |segs|
    ensures forall i :: 0 <= i < k ==> Covered(segs[i], Pages(SizeAfter(segs, k)))
  {
    if k > 0 {
      Covers(segs, k - 1);
      forall i | 0 <= i < k
        ensures Covered(segs[i], Pages(SizeAfter(segs, k)))
      {
        PagesMonotone(SizeAfter(segs, k - 1), SizeAfter(segs, k));
        PagesHold(SizeAfter(segs, k));
      }
    }
  }

  lemma PagesHold(sz: nat)
    ensures sz <= Pages(sz) * PGSIZE
  {
  }

  predicate Loadable(segs: seq<Segment>) {
    forall k :: 0 <= k < |segs| ==> SegmentOk(segs, k)
  }

  // How deep the stack is after k arguments
  function Depth(argv: seq<seq<int>>, k: nat): nat
    requires k <= |argv|
  {
    if k == 0 then 0 else Round16(Depth(argv, k - 1) + |argv[k - 1]| + 1)
  }

  function Round16(x: nat): (r: nat)
    ensures r % 16 == 0 && x <= r < x + 16
  {
    (x + 15) / 16 * 16
  }

  // The arguments are few enough, and they and their addresses fit in a page
  predicate ArgsFit(argv: seq<seq<int>>) {
    |argv| <= MAXARG && Round16(Depth(argv, |argv|) + 8 * (|argv| + 1)) <= PGSIZE
  }

  lemma {:induction false} DepthGrows(argv: seq<seq<int>>, i: nat, k: nat)
    requires i <= k <= |argv|
    ensures Depth(argv, i) <= Depth(argv, k)
    decreases k - i
  {
    if i < k {
      DepthGrows(argv, i, k - 1);
    }
  }

  predicate Below(segs: seq<Segment>, k: nat, n: nat)
    requires k <= |segs|
  {
    forall i :: 0 <= i < k && segs[i].Load? ==> segs[i].vaddr + segs[i].filesz <= n * PGSIZE
  }

  lemma {:induction false} AboveImage(segs: seq<Segment>, k: nat, n: nat, va: nat)
    requires k <= |segs| && Below(segs, k, n) && va >= n * PGSIZE
    ensures ImageByte(segs, k, va) == 0
  {
    if k > 0 {
      AboveImage(segs, k - 1, n, va);
    }
  }

  ghost predicate UserMapped(t: Memory, r: nat, w: nat) {
    t.At(r, 0, w).flags == UserFlags
  }

  ghost predicate ImageOk(t: Memory, r: nat, segs: seq<Segment>, k: nat, va: nat)
    requires k <= |segs|
  {
    Byte(t, r, va) == ImageByte(segs, k, va)
  }

  ghost predicate HasImage(t: Memory, r: nat, n: nat, segs: seq<Segment>, k: nat)
    requires k <= |segs|
  {
    && (forall w :: 0 <= w < n ==> UserMapped(t, r, w))
    && (forall va :: 0 <= va < n * PGSIZE ==> ImageOk(t, r, segs, k, va))
  }

  // The new tree r has n pages, with k segments loaded; apart from it, memory is as in s
  ghost predicate Building(s: Memory, t: Memory, r: nat, n: nat, segs: seq<Segment>, k: nat) {
    && NewTree(s, t, r) && Space(t, r, n, 2) && n + |t.free| <= |s.free| <= MAXPAGES
    && k <= |segs| && Below(segs, k, n) && HasImage(t, r, n, segs, k)
  }

  lemma GrownBytes(t: Memory, x: Memory, r: nat, n: nat, m: nat, segs: seq<Segment>, k: nat)
    requires Grown(t, x, r, n, m, ZeroAt, UserAt) && k <= |segs| && Below(segs, k, n) && HasImage(t, r, n, segs, k)
    requires n + m <= TRAPFRAME
    ensures HasImage(x, r, n + m, segs, k)
  {
    var n' := n + m;
    forall w | 0 <= w < n'
      ensures UserMapped(x, r, w)
    {
      assert GrownPage(t, x, r, n, m, ZeroAt, UserAt, w);
      assert w < n ==> UserMapped(t, r, w);
    }
    forall va | 0 <= va < n' * PGSIZE
      ensures ImageOk(x, r, segs, k, va)
    {
      GrownByte(t, x, r, n, m, segs, k, va);
    }
  }

  lemma GrownByte(t: Memory, x: Memory, r: nat, n: nat, m: nat, segs: seq<Segment>, k: nat, va: nat)
    requires Grown(t, x, r, n, m, ZeroAt, UserAt) && k <= |segs| && Below(segs, k, n) && HasImage(t, r, n, segs, k)
    requires n + m <= TRAPFRAME
    requires va < (n + m) * PGSIZE
    ensures ImageOk(x, r, segs, k, va)
  {
    var w := va / PGSIZE;
    assert GrownPage(t, x, r, n, m, ZeroAt, UserAt, w);
    if va < n * PGSIZE {
      assert ImageOk(t, r, segs, k, va) && UserMapped(t, r, w);
      KeptPage(t, x, r, n, m, w);
    } else {
      AboveImage(segs, k, n, va);
    }
  }

  lemma KeptPage(t: Memory, x: Memory, r: nat, n: nat, m: nat, w: nat)
    requires Grown(t, x, r, n, m, ZeroAt, UserAt) && w < n <= TRAPFRAME && UserMapped(t, r, w)
    ensures var u := t.At(r, 0, w).ppn; u in t.pages && u in x.pages && x.pages[u] == t.pages[u]
  {
    assert t.LeafOk(r, w) && GrowOk(t, x, r, n, m, t.At(r, 0, w).ppn);
  }

  lemma BuildingGrown(s: Memory, t: Memory, x: Memory, r: nat, n: nat, m: nat, segs: seq<Segment>, k: nat)
    requires Building(s, t, r, n, segs, k) && Grown(t, x, r, n, m, ZeroAt, UserAt)
    ensures Building(s, x, r, n + m, segs, k)
  {
    GrownBytes(t, x, r, n, m, segs, k);
    GrownWithin(t, x, r, n, m, ZeroAt, UserAt);
    NewTreeWithin(s, t, x, r);
    var n' := n + m;
    forall w | 0 <= w < NVPN
      ensures MappedIff(x, r, n', 2, w)
    {
      assert MappedIff(t, r, n, 2, w) && GrownPage(t, x, r, n, m, ZeroAt, UserAt, w);
    }
  }

  lemma WroteWithin(t: Memory, x: Memory, r: nat, dst: nat, src: seq<int>, k: nat)
    requires k <= |src| && Wrote(t, x, r, dst, src, k)
    ensures Within(t, x, r)
  {
    forall q
      ensures TouchOk(t, x, r, 0, 0, q)
    {
    }
  }

  // Writing into the new tree, all of it or a part
  lemma WroteSpace(s: Memory, t: Memory, x: Memory, r: nat, n: nat, dst: nat, src: seq<int>, k: nat)
    requires k <= |src| && Wrote(t, x, r, dst, src, k) && NewTree(s, t, r) && Space(t, r, n, 2)
    ensures NewTree(s, x, r) && Space(x, r, n, 2)
  {
    WroteWithin(t, x, r, dst, src, k);
    NewTreeWithin(s, t, x, r);
    WrotePtes(t, x, r, dst, src, k);
    forall w | 0 <= w < NVPN
      ensures MappedIff(x, r, n, 2, w)
    {
      assert MappedIff(t, r, n, 2, w) && SamePte(t, x, r, 0, w);
    }
  }

  lemma BuildingLoaded(s: Memory, t: Memory, x: Memory, r: nat, n: nat, segs: seq<Segment>, k: nat)
    requires Building(s, t, r, n, segs, k) && k < |segs| && segs[k].Load?
    requires var g := segs[k];
        g.filesz <= |g.bytes| && g.vaddr + g.filesz <= n * PGSIZE && Wrote(t, x, r, g.vaddr, g.bytes, g.filesz)
    ensures Building(s, x, r, n, segs, k + 1)
  {
    var g, k' := segs[k], k + 1;
    WroteSpace(s, t, x, r, n, g.vaddr, g.bytes, g.filesz);
    WrotePtes(t, x, r, g.vaddr, g.bytes, g.filesz);
    forall w | 0 <= w < n
      ensures UserMapped(x, r, w)
    {
      assert UserMapped(t, r, w) && SamePte(t, x, r, 0, w);
    }
    forall va | 0 <= va < n * PGSIZE
      ensures ImageOk(x, r, segs, k', va)
    {
      assert ImageOk(t, r, segs, k, va) && UserMapped(t, r, va / PGSIZE);
      assert ByteOk(t, x, r, g.vaddr, g.bytes, g.filesz, va);
    }
  }

  lemma BuildingSkipped(s: Memory, t: Memory, r: nat, n: nat, segs: seq<Segment>, k: nat)
    requires Building(s, t, r, n, segs, k) && k < |segs| && segs[k].Other?
    ensures Building(s, t, r, n, segs, k + 1)
  {
    var k' := k + 1;
    forall va | 0 <= va < n * PGSIZE
      ensures ImageOk(t, r, segs, k', va)
    {
      assert ImageOk(t, r, segs, k, va);
    }
  }

  ghost predicate AllUsable(t: Memory, r: nat, n: nat) {
    forall w :: 0 <= w < n ==> Usable(t, r, w)
  }

  lemma ImageUsable(s: Memory, t: Memory, r: nat, n: nat, segs: seq<Segment>, k: nat)
    requires Building(s, t, r, n, segs, k)
    ensures AllUsable(t, r, n)
  {
    forall w | 0 <= w < n
      ensures Usable(t, r, w)
    {
      assert UserMapped(t, r, w);
    }
  }

  /** Loads sz bytes of the file at page-aligned va. The pages are there, so the panic is not
      reached. If the file is too short, what there is of it has been written. */
  method Loadseg(m: Machine, r: nat, va: nat, bytes: seq<int>, sz: nat, ghost n: nat) returns (ok: bool, ghost k: nat)
    requires m.Valid() && m.Now().IsRoot(r) && va % PGSIZE == 0 && va + sz <= n * PGSIZE && sz + PGSIZE < U32
    requires AllUsable(m.Now(), r, n)
    modifies m
    ensures k <= |bytes| && Wrote(old(m.Now()), m.Now(), r, va, bytes, k)
    ensures ok <==> sz <= |bytes|
    ensures ok ==> k == sz
    ensures m.misses == old(m.misses)
  {
    ghost var s := m.Now();
    WroteNothing(s, r, va, bytes);
    var i := 0;
    while i < sz
      invariant 0 <= i && (i < sz ==> i % PGSIZE == 0) && i <= sz <= n * PGSIZE && i <= |bytes|
      invariant Wrote(s, m.Now(), r, va, bytes, i) && m.misses == old(m.misses)
    {
      var want, got := LoadPage(m, r, va, bytes, sz, i, n, s);
      if got != want {
        return false, i + got;
      }
      i := i + want;
    }
    return true, i;
  }

  // One page of a segment; readi delivers got of the want bytes asked for
  method LoadPage(m: Machine, r: nat, va: nat, bytes: seq<int>, sz: nat, i: nat, ghost n: nat, ghost s: Memory)
      returns (want: nat, got: nat)
    requires va % PGSIZE == 0 && va + sz <= n * PGSIZE && AllUsable(s, r, n) && i < sz && i % PGSIZE == 0
    requires i <= |bytes|
    requires Wrote(s, m.Now(), r, va, bytes, i)
    modifies m
    ensures 0 < want <= PGSIZE && i + want <= sz && (i + want < sz ==> (i + want) % PGSIZE == 0)
    ensures got <= want && i + got <= |bytes| && Wrote(s, m.Now(), r, va, bytes, i + got)
    ensures (got < want ==> i + got == |bytes|)
    ensures m.misses == old(m.misses)
  {
    ghost var t := m.Now();
    WrotePtes(s, t, r, va, bytes, i);
    PageThere(va, i, sz, n);
    assert Usable(s, r, (va + i) / PGSIZE) && SamePte(s, t, r, 0, (va + i) / PGSIZE);
    var u := Walkaddr(m, r, (va + i) / PGSIZE);
    want := if sz - i < PGSIZE then sz - i else PGSIZE;
    got := if |bytes| - i < want then |bytes| - i else want;
    UsablePage(t, r, (va + i) / PGSIZE);
    m.pages := m.pages[u := Data(Patched(m.pages[u].bytes, 0, bytes, i, got))];
    WroteMore(s, t, m.Now(), r, va, bytes, i, got);
  }

  lemma PageThere(va: nat, i: nat, sz: nat, n: nat)
    requires va % PGSIZE == 0 && i % PGSIZE == 0 && i < sz && va + sz <= n * PGSIZE
    ensures (va + i) % PGSIZE == 0 && (va + i) / PGSIZE < n
  {
  }

  /** One program header. Either the image has one more segment, or memory is still such that the
      new tree, of sz' bytes, can be freed. */
  method LoadHeader(m: Machine, r: nat, sz: nat, segs: seq<Segment>, k: nat, ghost s: Memory)
      returns (ok: bool, sz': nat)
    requires Building(s, m.Now(), r, Pages(sz), segs, k) && k < |segs| && Typed(segs[k]) && sz == SizeAfter(segs, k)
    modifies m
    ensures ok ==> Building(s, m.Now(), r, Pages(sz'), segs, k + 1)
    ensures !ok ==> NewTree(s, m.Now(), r) && Space(m.Now(), r, Pages(sz'), 2)
    ensures old(m.misses) <= m.misses <= old(m.misses) + 1
    ensures (ok <==> SegmentOk(segs, k) && m.misses == old(m.misses)) && (ok ==> sz' == SizeAfter(segs, k + 1))
  {
    sz' := sz;
    var g := segs[k];
    if g.Unreadable? {
      return false, sz;
    }
    if g.Other? {
      BuildingSkipped(s, m.Now(), r, Pages(sz), segs, k);
      return true, sz;
    }
    if g.memsz < g.filesz {
      return false, sz;
    }
    if (g.vaddr + g.memsz) % U64 < g.vaddr {
      return false, sz;
    }
    ok, sz' := GrowImage(m, r, sz, g.vaddr + g.memsz, segs, k, s);
    if !ok {
      return;
    }
    if g.vaddr % PGSIZE != 0 {
      return false, sz';
    }
    ghost var t, c := m.Now(), 0;
    ImageUsable(s, t, r, Pages(sz'), segs, k);
    SizeFits(g.vaddr, g.memsz, g.filesz, sz');
    ok, c := Loadseg(m, r, g.vaddr, g.bytes, g.filesz % U32, Pages(sz'));
    if ok {
      BuildingLoaded(s, t, m.Now(), r, Pages(sz'), segs, k);
    } else {
      WroteSpace(s, t, m.Now(), r, Pages(sz'), g.vaddr, g.bytes, c);
    }
  }

  // A segment that has been given memory is small enough for its size to survive as a uint
  lemma SizeFits(vaddr: nat, memsz: nat, filesz: nat, sz: nat)
    requires filesz <= memsz && vaddr + memsz <= sz && Pages(sz) <= MAXPAGES
    ensures filesz % U32 == filesz && vaddr + filesz <= Pages(sz) * PGSIZE && filesz + PGSIZE < U32
  {
  }

  // sz1 = uvmalloc(pagetable, sz, newsz), and its test against 0
  method GrowImage(m: Machine, r: nat, sz: nat, newsz: nat, segs: seq<Segment>, k: nat, ghost s: Memory)
      returns (ok: bool, sz': nat)
    requires Building(s, m.Now(), r, Pages(sz), segs, k)
    modifies m
    ensures ok ==>
        sz' == (if newsz < sz then sz else newsz) && Pages(sz') <= MAXPAGES
        && Building(s, m.Now(), r, Pages(sz'), segs, k)
    ensures !ok ==> sz' == sz && NewTree(s, m.Now(), r) && Space(m.Now(), r, Pages(sz), 2)
    ensures old(m.misses) <= m.misses <= old(m.misses) + 1
    ensures (ok <==> (sz > 0 || newsz > 0) && m.misses == old(m.misses))
  {
    ghost var t := m.Now();
    forall w | Pages(sz) <= w < TRAPFRAME
      ensures t.At(r, 0, w) == NoPte()
    {
      assert MappedIff(t, r, Pages(sz), 2, w) && t.LeafOk(r, w);
    }
    var ret;
    ghost var grown, done;
    ret, grown, done := m.Uvmalloc(r, sz, newsz);
    ghost var x := m.Now();
    if done {
      BuildingGrown(s, t, x, r, Pages(sz), grown, segs, k);
      if newsz >= sz {
        PagesMonotone(sz, newsz);
      }
    } else {
      WidenedSpace(s, t, x, r, Pages(sz));
    }
    if ret == 0 {
      return false, sz;
    }
    return true, ret;
  }

  lemma WidenedSpace(s: Memory, t: Memory, x: Memory, r: nat, n: nat)
    requires NewTree(s, t, r) && Space(t, r, n, 2) && Widened(t, x, r)
    ensures NewTree(s, x, r) && Space(x, r, n, 2)
  {
    WidenedWithin(t, x, r);
    NewTreeWithin(s, t, x, r);
    forall w | 0 <= w < NVPN
      ensures MappedIff(x, r, n, 2, w)
    {
      assert MappedIff(t, r, n, 2, w) && SamePte(t, x, r, 0, w);
    }
  }

  // ---------- the stack ----------

  // The image is complete; above it a guard page and a stack page
  ghost predicate Ready(s: Memory, t: Memory, r: nat, n: nat, segs: seq<Segment>) {
    && NewTree(s, t, r) && Space(t, r, n + 2, 2) && Usable(t, r, n + 1) && !Usable(t, r, n)
    && HasImage(t, r, n, segs, |segs|)
  }

  ghost predicate SameByte(t: Memory, x: Memory, r: nat, va: nat) {
    Byte(x, r, va) == Byte(t, r, va)
  }

  lemma ImageKept(t: Memory, x: Memory, r: nat, n: nat, segs: seq<Segment>, k: nat)
    requires k <= |segs| && HasImage(t, r, n, segs, k) && (forall w :: 0 <= w < n ==> SamePte(t, x, r, 0, w))
    requires forall va :: 0 <= va < n * PGSIZE ==> SameByte(t, x, r, va)
    ensures HasImage(x, r, n, segs, k)
  {
    forall w | 0 <= w < n
      ensures UserMapped(x, r, w)
    {
      assert UserMapped(t, r, w) && SamePte(t, x, r, 0, w);
    }
    forall va | 0 <= va < n * PGSIZE
      ensures ImageOk(x, r, segs, k, va)
    {
      assert ImageOk(t, r, segs, k, va) && SameByte(t, x, r, va);
    }
  }

  lemma GuardImage(t: Memory, x: Memory, r: nat, n: nat, m: nat, segs: seq<Segment>)
    requires t.Ok() && t.IsRoot(r) && n < m <= TRAPFRAME && HasImage(t, r, m, segs, |segs|) && Guarded(t, x, r, n)
    ensures HasImage(x, r, n, segs, |segs|)
  {
    forall w | 0 <= w < n
      ensures SamePte(t, x, r, 0, w)
    {
    }
    forall va | 0 <= va < n * PGSIZE
      ensures SameByte(t, x, r, va)
    {
      assert SamePte(t, x, r, 0, va / PGSIZE) && UserMapped(t, r, va / PGSIZE) && t.LeafOk(r, va / PGSIZE);
    }
    forall va | 0 <= va < n * PGSIZE
      ensures ImageOk(t, r, segs, |segs|, va)
    {
    }
    ImageKept(t, x, r, n, segs, |segs|);
  }

  lemma GuardSpace(s: Memory, t: Memory, x: Memory, r: nat, n: nat, m: nat)
    requires NewTree(s, t, r) && Space(t, r, m, 2) && n < m && Guarded(t, x, r, n)
    ensures NewTree(s, x, r) && Space(x, r, m, 2)
  {
    forall q
      ensures TouchOk(t, x, r, 0, 0, q)
    {
    }
    NewTreeWithin(s, t, x, r);
    NotUserFlags(t.At(r, 0, n).flags);
    forall w | 0 <= w < NVPN
      ensures MappedIff(x, r, m, 2, w)
    {
      assert MappedIff(t, r, m, 2, w) && (w != n ==> SamePte(t, x, r, 0, w));
    }
  }

  lemma GuardSet(s: Memory, t: Memory, x: Memory, r: nat, n: nat, segs: seq<Segment>)
    requires Building(s, t, r, n + 2, segs, |segs|) && Guarded(t, x, r, n)
    ensures Ready(s, x, r, n, segs)
  {
    GuardSpace(s, t, x, r, n, n + 2);
    GuardImage(t, x, r, n, n + 2, segs);
    var above := n + 1;
    assert UserMapped(t, r, above) && SamePte(t, x, r, 0, above);
    NotUserFlags(t.At(r, 0, n).flags);
  }

  // A write into the stack page leaves the image alone
  lemma PushedMore(s: Memory, t: Memory, x: Memory, r: nat, n: nat, segs: seq<Segment>, sp: nat, src: seq<int>, k: nat)
    requires Ready(s, t, r, n, segs) && k <= |src| && Wrote(t, x, r, sp, src, k) && (n + 1) * PGSIZE <= sp
    ensures Ready(s, x, r, n, segs)
  {
    WroteSpace(s, t, x, r, n + 2, sp, src, k);
    WrotePtes(t, x, r, sp, src, k);
    PushedImage(t, x, r, n, segs, sp, src, k);
    var above := n + 1;
    assert SamePte(t, x, r, 0, n) && SamePte(t, x, r, 0, above);
  }

  lemma PushedImage(t: Memory, x: Memory, r: nat, n: nat, segs: seq<Segment>, sp: nat, src: seq<int>, k: nat)
    requires k <= |src| && Wrote(t, x, r, sp, src, k) && SamePtes(t, x) && (n + 1) * PGSIZE <= sp && n < TRAPFRAME
    requires HasImage(t, r, n, segs, |segs|)
    ensures HasImage(x, r, n, segs, |segs|)
  {
    forall w | 0 <= w < n
      ensures SamePte(t, x, r, 0, w)
    {
    }
    forall va | 0 <= va < n * PGSIZE
      ensures SameByte(t, x, r, va)
    {
      assert UserMapped(t, r, va / PGSIZE) && ByteOk(t, x, r, sp, src, k, va);
    }
    ImageKept(t, x, r, n, segs, |segs|);
  }

  lemma KeepsReads(t: Memory, x: Memory, r: nat, n: nat, sp: nat, src: seq<int>, k: nat, at: nat, bytes: seq<int>)
    requires k <= |src| && Wrote(t, x, r, sp, src, k) && Usable(t, r, n + 1) && Reads(t, r, at, bytes)
    requires (n + 1) * PGSIZE <= at && at + |bytes| <= (n + 2) * PGSIZE && sp + k <= at
    ensures Reads(x, r, at, bytes)
  {
    forall i | 0 <= i < |bytes|
      ensures bytes[i] == Byte(x, r, at + i)
    {
      var va := at + i;
      assert va / PGSIZE == n + 1;
      assert ByteOk(t, x, r, sp, src, k, va);
    }
  }

  // Argument string i, with its NUL, is on the stack
  ghost predicate ArgOk(t: Memory, r: nat, n: nat, argv: seq<seq<int>>, ustack: seq<nat>, sp: nat, i: nat)
    requires i < |argv| && i < |ustack|
  {
    && sp <= ustack[i] && ustack[i] % 16 == 0 && ustack[i] + |argv[i]| + 1 <= (n + 2) * PGSIZE
    && Reads(t, r, ustack[i], argv[i] + [0])
  }

  ghost predicate ArgsOk(t: Memory, r: nat, n: nat, argv: seq<seq<int>>, ustack: seq<nat>, sp: nat) {
    |ustack| <= |argv| && forall i :: 0 <= i < |ustack| ==> ArgOk(t, r, n, argv, ustack, sp, i)
  }

  lemma ArgsKept(t: Memory, x: Memory, r: nat, n: nat, argv: seq<seq<int>>, ustack: seq<nat>, sp: nat, sp': nat,
      src: seq<int>)
    requires ArgsOk(t, r, n, argv, ustack, sp) && Wrote(t, x, r, sp', src, |src|) && Usable(t, r, n + 1)
    requires sp' + |src| <= sp && (n + 1) * PGSIZE <= sp'
    ensures ArgsOk(x, r, n, argv, ustack, sp')
  {
    forall i | 0 <= i < |ustack|
      ensures ArgOk(x, r, n, argv, ustack, sp', i)
    {
      assert ArgOk(t, r, n, argv, ustack, sp, i);
      KeepsReads(t, x, r, n, sp', src, |src|, ustack[i], argv[i] + [0]);
    }
  }

  // Where something of len bytes goes: below sp, 16-byte aligned
  function Pushed(sp: nat, len: nat): (r: nat)
    requires len <= sp
    ensures r % 16 == 0 && r + len <= sp < r + len + 16
  {
    (sp - len) - (sp - len) % 16
  }

  lemma PushedDepth(n: nat, sp: nat, depth: nat, len: nat)
    requires sp == (n + 2) * PGSIZE - depth && len <= sp
    ensures Pushed(sp, len) == (n + 2) * PGSIZE - Round16(depth + len)
  {
  }

  // copyout to the stack
  method Push(m: Machine, r: nat, sp: nat, src: seq<int>, ghost n: nat, ghost segs: seq<Segment>, ghost s: Memory)
      returns (ok: bool)
    requires Ready(s, m.Now(), r, n, segs) && (n + 1) * PGSIZE <= sp && sp + |src| <= (n + 2) * PGSIZE
    modifies m
    ensures Ready(s, m.Now(), r, n, segs) && ok
    ensures CopiedSoFar(old(m.Now()), m.Now(), r, sp, src, |src|)
    ensures m.misses == old(m.misses)
  {
    ghost var t, k := m.Now(), 0;
    ok, k := Copyout(m, r, sp, src);
    PushedMore(s, t, m.Now(), r, n, segs, sp, src, k);
  }

  // The first |ustack| arguments are on the stack
  ghost predicate PushedSome(t: Memory, r: nat, n: nat, argv: seq<seq<int>>, ustack: seq<nat>, sp: nat) {
    && |ustack| <= |argv| && |ustack| <= MAXARG && ArgsOk(t, r, n, argv, ustack, sp)
    && Depth(argv, |ustack|) <= PGSIZE && sp == (n + 2) * PGSIZE - Depth(argv, |ustack|)
  }

  // Pushes the argument strings
  method PushArgs(m: Machine, r: nat, sz: nat, argv: seq<seq<int>>, ghost n: nat, ghost segs: seq<Segment>,
      ghost s: Memory)
    returns (ok: bool, sp: nat, ustack: seq<nat>)
    requires Ready(s, m.Now(), r, n, segs) && sz == (n + 2) * PGSIZE
    requires forall i :: 0 <= i < |argv| ==> |argv[i]| < PGSIZE
    modifies m
    ensures Ready(s, m.Now(), r, n, segs) && (ok <==> |argv| <= MAXARG && Depth(argv, |argv|) <= PGSIZE)
    ensures ok ==> |ustack| == |argv| && PushedSome(m.Now(), r, n, argv, ustack, sp)
    ensures m.misses == old(m.misses)
  {
    sp := sz;
    ustack := [];
    ok := true;
    while ok && |ustack| < |argv|
      invariant Ready(s, m.Now(), r, n, segs) && m.misses == old(m.misses)
      invariant if ok then PushedSome(m.Now(), r, n, argv, ustack, sp)
          else |argv| > MAXARG || Depth(argv, |argv|) > PGSIZE
      decreases ok, |argv| - |ustack|
    {
      DepthGrows(argv, |ustack| + 1, |argv|);
      ok, sp, ustack := PushArg(m, r, sz, argv, sp, ustack, n, segs, s);
    }
  }

  // The next string is on the stack, below the others
  lemma ArgPushed(t: Memory, x: Memory, r: nat, n: nat, argv: seq<seq<int>>, ustack: seq<nat>, sp: nat, sp': nat)
    requires |ustack| < |argv| && ArgsOk(t, r, n, argv, ustack, sp) && Usable(t, r, n + 1) && sp' % 16 == 0
    requires (n + 1) * PGSIZE <= sp' && sp' + |argv[|ustack|]| + 1 <= sp <= (n + 2) * PGSIZE
    requires var src := argv[|ustack|] + [0]; CopiedSoFar(t, x, r, sp', src, |src|)
    ensures ArgsOk(x, r, n, argv, ustack + [sp'], sp')
  {
    var src := argv[|ustack|] + [0];
    ReadsBack(t, x, r, sp', src);
    ArgsKept(t, x, r, n, argv, ustack, sp, sp', src);
    ArgAdded(x, r, n, argv, ustack, sp');
  }

  // ... and below them the array of pointers
  lemma ArrayPushed(t: Memory, x: Memory, r: nat, n: nat, argv: seq<seq<int>>, ustack: seq<nat>, sp: nat, sp': nat,
      words: seq<int>)
    requires ArgsOk(t, r, n, argv, ustack, sp) && Usable(t, r, n + 1) && (n + 1) * PGSIZE <= sp' && sp' + |words| <= sp
    requires CopiedSoFar(t, x, r, sp', words, |words|)
    ensures ArgsOk(x, r, n, argv, ustack, sp') && Reads(x, r, sp', words)
  {
    ReadsBack(t, x, r, sp', words);
    ArgsKept(t, x, r, n, argv, ustack, sp, sp', words);
  }

  method PushArg(m: Machine, r: nat, sz: nat, argv: seq<seq<int>>, sp: nat, ustack: seq<nat>, ghost n: nat,
      ghost segs: seq<Segment>, ghost s: Memory)
    returns (ok: bool, sp': nat, ustack': seq<nat>)
    requires Ready(s, m.Now(), r, n, segs) && sz == (n + 2) * PGSIZE && |ustack| < |argv| && |argv[|ustack|]| < PGSIZE
    requires PushedSome(m.Now(), r, n, argv, ustack, sp)
    modifies m
    ensures Ready(s, m.Now(), r, n, segs) && (ok <==> |ustack| < MAXARG && Depth(argv, |ustack| + 1) <= PGSIZE)
    ensures ok ==> |ustack'| == |ustack| + 1 && PushedSome(m.Now(), r, n, argv, ustack', sp')
    ensures m.misses == old(m.misses)
  {
    var argc := |ustack|;
    sp', ustack' := sp, ustack;
    if argc >= MAXARG {
      return false, sp, ustack;
    }
    sp' := Pushed(sp, |argv[argc]| + 1);
    PushedDepth(n, sp, Depth(argv, argc), |argv[argc]| + 1);
    if sp' < sz - PGSIZE {
      return false, sp', ustack;
    }
    ghost var t := m.Now();
    ok := Push(m, r, sp', argv[argc] + [0], n, segs, s);
    if ok {
      ustack' := ustack + [sp'];
      ArgPushed(t, m.Now(), r, n, argv, ustack, sp, sp');
    }
  }

  lemma ArgAdded(x: Memory, r: nat, n: nat, argv: seq<seq<int>>, ustack: seq<nat>, sp: nat)
    requires ArgsOk(x, r, n, argv, ustack, sp) && |ustack| < |argv| && sp % 16 == 0
    requires sp + |argv[|ustack|]| + 1 <= (n + 2) * PGSIZE && Reads(x, r, sp, argv[|ustack|] + [0])
    ensures ArgsOk(x, r, n, argv, ustack + [sp], sp)
  {
    var u := ustack + [sp];
    forall i | 0 <= i < |u|
      ensures ArgOk(x, r, n, argv, u, sp, i)
    {
      if i < |ustack| {
        assert ArgOk(x, r, n, argv, ustack, sp, i);
      }
    }
  }

  // ---------- exec ----------

  // A word as n bytes, low byte first
  function Bytes(x: nat, n: nat): (b: seq<int>)
    ensures |b| == n
    decreases n
  {
    if n == 0 then [] else [x % 256] + Bytes(x / 256, n - 1)
  }

  function Pow256(n: nat): nat { if n == 0 then 1 else 256 * Pow256(n - 1) }

  lemma {:induction false} BytesValue(x: nat, n: nat)
    requires x < Pow256(n)
    ensures Value(Bytes(x, n)) == x
    decreases n
  {
    if n > 0 {
      BytesValue(x / 256, n - 1);
      assert Bytes(x, n)[1..] == Bytes(x / 256, n - 1);
    }
  }

  function WordBytes(us: seq<nat>): (b: seq<int>)
    ensures |b| == 8 * |us|
  {
    if us == [] then [] else Bytes(us[0], 8) + WordBytes(us[1..])
  }

  // Word i of an array of words
  function WordOf(all: seq<int>, i: nat): int
    requires 8 * i + 8 <= |all|
  {
    Value(all[8 * i..8 * i + 8])
  }

  lemma WordAfter(first: seq<int>, rest: seq<int>, i: nat)
    requires |first| == 8 && 8 * i + 8 <= |rest|
    ensures WordOf(first + rest, i + 1) == WordOf(rest, i)
  {
    assert (first + rest)[8 * (i + 1)..8 * (i + 1) + 8] == rest[8 * i..8 * i + 8];
  }

  lemma WordFirst(first: seq<int>, rest: seq<int>)
    requires |first| == 8
    ensures WordOf(first + rest, 0) == Value(first)
  {
    assert (first + rest)[0..8] == first;
  }

  lemma FirstWord(x: nat) returns (b: seq<int>)
    ensures b == Bytes(x, 8) && |b| == 8 && (x < Pow256(8) ==> Value(b) == x)
  {
    b := Bytes(x, 8);
    if x < Pow256(8) {
      BytesValue(x, 8);
    }
  }

  lemma {:induction false} WordBytesAt(us: seq<nat>, i: nat)
    requires i < |us| && us[i] < Pow256(8)
    ensures WordOf(WordBytes(us), i) == us[i]
  {
    var first := FirstWord(us[0]);
    var rest := WordBytes(us[1..]);
    if i == 0 {
      WordFirst(first, rest);
    } else {
      WordBytesAt(us[1..], i - 1);
      WordAfter(first, rest, i - 1);
    }
  }

  // Words that have been written to memory are read there
  lemma ArrayRead(t: Memory, r: nat, at: nat, all: seq<int>, i: nat, va: nat)
    requires Reads(t, r, at, all) && 8 * i + 8 <= |all| && va == at + 8 * i
    ensures UserWord(t, r, va) == WordOf(all, i)
  {
    var o, b := 8 * i, all[8 * i..8 * i + 8];
    forall k | 0 <= k < 8
      ensures b[k] == Byte(t, r, va + k)
    {
      assert b[k] == all[o + k] == Byte(t, r, at + (o + k));
    }
    WordRead(t, r, va, b);
  }

  ghost predicate IsArray(all: seq<int>, us: seq<nat>) {
    |all| == 8 * |us| && forall i :: 0 <= i < |us| ==> WordOf(all, i) == us[i]
  }

  // The pointers and the 0 after them, as bytes
  lemma Pointers(t: Memory, r: nat, n: nat, argv: seq<seq<int>>, ustack: seq<nat>, sp: nat)
    requires ArgsOk(t, r, n, argv, ustack, sp) && n + 2 <= TRAPFRAME
    ensures IsArray(WordBytes(ustack + [0]), ustack + [0])
  {
    var us := ustack + [0];
    forall i | 0 <= i < |us|
      ensures WordOf(WordBytes(us), i) == us[i]
    {
      if i < |ustack| {
        assert ArgOk(t, r, n, argv, ustack, sp, i);
      }
      SmallAddress(n, us[i]);
      WordBytesAt(us, i);
    }
  }

  // ... and as they are read
  lemma PointersRead(t: Memory, r: nat, ustack: seq<nat>, sp: nat, all: seq<int>)
    requires Reads(t, r, sp, all) && IsArray(all, ustack + [0])
    ensures ArrayOk(t, r, ustack, sp)
  {
    var us := ustack + [0];
    forall i | 0 <= i < |us|
      ensures UserWord(t, r, sp + 8 * i) == us[i]
    {
      ArrayRead(t, r, sp, all, i, sp + 8 * i);
    }
    assert forall i :: 0 <= i < |ustack| ==> us[i] == ustack[i];
    assert us[|ustack|] == 0;
  }

  lemma SmallAddress(n: nat, x: nat)
    requires n + 2 <= TRAPFRAME && x <= (n + 2) * PGSIZE
    ensures x < Pow256(8)
  {
  }

  // Page q when tree r has taken the place of tree r0
  ghost predicate SwapOk(s: Memory, t: Memory, r0: nat, r: nat, q: nat) {
    && (q in s.role && !InTree(s.role[q], r0) ==>
         q in t.role && t.role[q] == s.role[q] && q in s.pages && q in t.pages && t.pages[q] == s.pages[q])
    && (q in t.role && (q !in s.role || InTree(s.role[q], r0)) ==> InTree(t.role[q], r))
  }

  // The words at sp are these pointers, in order, and then 0
  ghost predicate ArrayOk(t: Memory, r: nat, ustack: seq<nat>, sp: nat) {
    && (forall i :: 0 <= i < |ustack| ==> UserWord(t, r, sp + 8 * i) == ustack[i])
    && UserWord(t, r, sp + 8 * |ustack|) == 0
  }

  // The arguments as main finds them: argv is an array at sp, ended by 0, of pointers to the strings
  ghost predicate StackOk(t: Memory, r: nat, n: nat, argv: seq<seq<int>>, ustack: seq<nat>, sp: nat) {
    && |ustack| == |argv| <= MAXARG && ArgsOk(t, r, n, argv, ustack, sp) && ArrayOk(t, r, ustack, sp)
    && sp % 16 == 0 && (n + 1) * PGSIZE <= sp && sp + 8 * (|argv| + 1) <= (n + 2) * PGSIZE
  }

  /** Tree r has the image of the segments in its n lowest pages, a guard page, and the stack; it
      has replaced tree r0, and nothing else has changed. */
  ghost predicate Executed(s: Memory, t: Memory, r0: nat, r: nat, n: nat, segs: seq<Segment>, argv: seq<seq<int>>,
      ustack: seq<nat>, sp: nat) {
    && Space(t, r, n + 2, 2) && Usable(t, r, n + 1) && !Usable(t, r, n) && HasImage(t, r, n, segs, |segs|)
    && StackOk(t, r, n, argv, ustack, sp) && forall q :: SwapOk(s, t, r0, r, q)
  }

  // proc_freepagetable of the tree under construction
  method Abandon(m: Machine, r: nat, sz: nat, ghost s: Memory)
    requires NewTree(s, m.Now(), r) && Space(m.Now(), r, Pages(sz), 2)
    modifies m
    ensures SameUse(s, m.Now())
    ensures m.misses == old(m.misses)
  {
    ghost var t := m.Now();
    ProcFreepagetable(m, r, sz);
    NewTreeGone(s, t, m.Now(), r);
  }

  // Loads all segments
  method LoadAll(m: Machine, r: nat, segs: seq<Segment>, ghost s: Memory) returns (ok: bool, sz: nat)
    requires Building(s, m.Now(), r, 0, segs, 0) && forall i :: 0 <= i < |segs| ==> Typed(segs[i])
    modifies m
    ensures ok ==> Building(s, m.Now(), r, Pages(sz), segs, |segs|)
    ensures !ok ==> NewTree(s, m.Now(), r) && Space(m.Now(), r, Pages(sz), 2)
    ensures old(m.misses) <= m.misses <= old(m.misses) + 1 && (ok <==> Loadable(segs) && m.misses == old(m.misses))
    ensures (ok ==> sz == SizeAfter(segs, |segs|))
  {
    var k := 0;
    ok, sz := true, 0;
    while ok && k < |segs|
      invariant 0 <= k <= |segs|
      invariant ok ==> Building(s, m.Now(), r, Pages(sz), segs, k) && sz == SizeAfter(segs, k)
      invariant old(m.misses) <= m.misses <= old(m.misses) + 1
      invariant ok <==> (forall i :: 0 <= i < k ==> SegmentOk(segs, i)) && m.misses == old(m.misses)
      invariant !ok ==> NewTree(s, m.Now(), r) && Space(m.Now(), r, Pages(sz), 2)
      decreases ok, |segs| - k
    {
      ok, sz := LoadHeader(m, r, sz, segs, k, s);
      k := k + 1;
    }
  }

  // Two more pages, the lower one out of the user's reach
  method MakeStack(m: Machine, r: nat, n: nat, segs: seq<Segment>, ghost s: Memory) returns (ok: bool)
    requires Building(s, m.Now(), r, n, segs, |segs|)
    modifies m
    ensures ok ==> Ready(s, m.Now(), r, n, segs)
    ensures !ok ==> NewTree(s, m.Now(), r) && Space(m.Now(), r, n, 2)
    ensures m.misses == old(m.misses) + if ok then 0 else 1
  {
    PagesMonotone(0, 0);
    var sz1;
    ok, sz1 := GrowImage(m, r, n * PGSIZE, (n + 2) * PGSIZE, segs, |segs|, s);
    if ok {
      ghost var t := m.Now();
      assert MappedIff(t, r, n + 2, 2, n);
      Uvmclear(m, r, n);
      GuardSet(s, t, m.Now(), r, n, segs);
    }
  }

  // Arguments and the argv array
  method FillStack(m: Machine, r: nat, sz: nat, argv: seq<seq<int>>, ghost n: nat, ghost segs: seq<Segment>,
      ghost s: Memory)
    returns (ok: bool, sp: nat, ustack: seq<nat>)
    requires Ready(s, m.Now(), r, n, segs) && sz == (n + 2) * PGSIZE
    requires forall i :: 0 <= i < |argv| ==> |argv[i]| < PGSIZE
    modifies m
    ensures Ready(s, m.Now(), r, n, segs) && (ok <==> ArgsFit(argv))
    ensures (ok ==> StackOk(m.Now(), r, n, argv, ustack, sp))
    ensures m.misses == old(m.misses)
  {
    ok, sp, ustack := PushArgs(m, r, sz, argv, n, segs, s);
    if ok {
      ok, sp := PushArray(m, r, sz, argv, sp, ustack, n, segs, s);
    }
  }

  // The array of argv[] pointers
  method PushArray(m: Machine, r: nat, sz: nat, argv: seq<seq<int>>, sp: nat, ustack: seq<nat>, ghost n: nat,
      ghost segs: seq<Segment>, ghost s: Memory)
    returns (ok: bool, sp': nat)
    requires Ready(s, m.Now(), r, n, segs) && sz == (n + 2) * PGSIZE && |ustack| == |argv| <= MAXARG
    requires PushedSome(m.Now(), r, n, argv, ustack, sp)
    modifies m
    ensures Ready(s, m.Now(), r, n, segs) && (ok <==> ArgsFit(argv))
    ensures (ok ==> StackOk(m.Now(), r, n, argv, ustack, sp'))
    ensures m.misses == old(m.misses)
  {
    sp' := Pushed(sp, 8 * (|ustack| + 1));
    PushedDepth(n, sp, Depth(argv, |argv|), 8 * (|argv| + 1));
    if sp' < sz - PGSIZE {
      return false, sp';
    }
    ghost var t := m.Now();
    ghost var words := WordBytes(ustack + [0]);
    ok := Push(m, r, sp', WordBytes(ustack + [0]), n, segs, s);
    ArrayPushed(t, m.Now(), r, n, argv, ustack, sp, sp', words);
    Pointers(t, r, n, argv, ustack, sp);
    PointersRead(m.Now(), r, ustack, sp', words);
  }

  /** The memory side of exec. It succeeds exactly if the file and the arguments are as they should
      be and memory does not run out. If it fails, exactly the pages that were free are free again
      and every other page, the caller's image included, is untouched. */
  method Exec(m: Machine, r0: nat, sz0: nat, trapframe: nat, trampoline: nat, headerOk: bool, segs: seq<Segment>,
      argv: seq<seq<int>>)
    returns (ok: bool, r: nat, sz: nat, sp: nat, ustack: seq<nat>, ghost n: nat)
    requires Space(m.Now(), r0, Pages(sz0), 2) && trapframe in m.role && m.role[trapframe] == Held
    requires trampoline !in m.pages && |m.free| <= MAXPAGES
    requires (forall i :: 0 <= i < |segs| ==> Typed(segs[i])) && forall i :: 0 <= i < |argv| ==> |argv[i]| < PGSIZE
    modifies m
    ensures !ok ==> SameUse(old(m.Now()), m.Now())
    ensures ok ==> sz == (n + 2) * PGSIZE && Executed(old(m.Now()), m.Now(), r0, r, n, segs, argv, ustack, sp)
    ensures ok <==> headerOk && Loadable(segs) && ArgsFit(argv) && m.misses == old(m.misses)
    ensures m.misses <= old(m.misses) + 1 && (ok ==> n == Pages(SizeAfter(segs, |segs|)))
    ensures ok ==> forall k :: 0 <= k < |segs| ==> Covered(segs[k], n)
  {
    ghost var s := m.Now();
    Covers(segs, |segs|);
    ok, r, sz, sp, ustack, n := BuildImage(m, trapframe, trampoline, headerOk, segs, argv);
    if ok {
      Commit(m, r0, sz0, r, n, segs, argv, ustack, sp, s);
    }
  }

  // exec up to the point of no return
  method BuildImage(m: Machine, trapframe: nat, trampoline: nat, headerOk: bool, segs: seq<Segment>,
      argv: seq<seq<int>>)
    returns (ok: bool, r: nat, sz: nat, sp: nat, ustack: seq<nat>, ghost n: nat)
    requires m.Valid() && trapframe in m.role && m.role[trapframe] == Held && trampoline !in m.pages
    requires |m.free| <= MAXPAGES
    requires (forall i :: 0 <= i < |segs| ==> Typed(segs[i])) && forall i :: 0 <= i < |argv| ==> |argv[i]| < PGSIZE
    modifies m
    ensures !ok ==> SameUse(old(m.Now()), m.Now())
    ensures ok ==>
        sz == (n + 2) * PGSIZE && Ready(old(m.Now()), m.Now(), r, n, segs) && StackOk(m.Now(), r, n, argv, ustack, sp)
    ensures ok <==> headerOk && Loadable(segs) && ArgsFit(argv) && m.misses == old(m.misses)
    ensures m.misses <= old(m.misses) + 1 && (ok ==> n == Pages(SizeAfter(segs, |segs|)))
  {
    ghost var s := m.Now();
    SameUseSelf(s);
    ok, r, sz, sp, ustack, n := false, 0, 0, 0, [], 0;
    if !headerOk {
      return;
    }
    r := ProcPagetable(m, trapframe, trampoline);
    if r == 0 {
      return;
    }
    NoImageYet(s, m.Now(), r, segs);
    ok, sz := LoadAll(m, r, segs, s);
    if !ok {
      Abandon(m, r, sz, s);
      return;
    }
    n := Pages(sz);
    ok, sz, sp, ustack := FinishImage(m, r, Pages(sz), segs, argv, s);
  }

  method FinishImage(m: Machine, r: nat, n: nat, segs: seq<Segment>, argv: seq<seq<int>>, ghost s: Memory)
      returns (ok: bool, sz: nat, sp: nat, ustack: seq<nat>)
    requires Building(s, m.Now(), r, n, segs, |segs|) && forall i :: 0 <= i < |argv| ==> |argv[i]| < PGSIZE
    modifies m
    ensures !ok ==> SameUse(s, m.Now())
    ensures ok ==> sz == (n + 2) * PGSIZE && Ready(s, m.Now(), r, n, segs) && StackOk(m.Now(), r, n, argv, ustack, sp)
    ensures old(m.misses) <= m.misses <= old(m.misses) + 1 && (ok <==> ArgsFit(argv) && m.misses == old(m.misses))
  {
    PagesMonotone(0, 0);
    ok := MakeStack(m, r, n, segs, s);
    sz, sp, ustack := (n + 2) * PGSIZE, 0, [];
    if !ok {
      Abandon(m, r, n * PGSIZE, s);
      return;
    }
    ok, sp, ustack := FillStack(m, r, sz, argv, n, segs, s);
    if !ok {
      Abandon(m, r, sz, s);
    }
  }

  lemma NoImageYet(s: Memory, t: Memory, r: nat, segs: seq<Segment>)
    requires NewTree(s, t, r) && Space(t, r, 0, 2) && |s.free| <= MAXPAGES
    ensures Building(s, t, r, 0, segs, 0)
  {
    forall q | q in s.role
      ensures q in t.role
    {
      assert AddedOk(s, t, r, q);
    }
    FewerFree(s, t);
  }

  // Commit to the user image
  method Commit(m: Machine, r0: nat, sz0: nat, r: nat, ghost n: nat, ghost segs: seq<Segment>,
      ghost argv: seq<seq<int>>, ghost ustack: seq<nat>, ghost sp: nat, ghost s: Memory)
    requires Space(s, r0, Pages(sz0), 2) && Ready(s, m.Now(), r, n, segs) && StackOk(m.Now(), r, n, argv, ustack, sp)
    modifies m
    ensures Executed(s, m.Now(), r0, r, n, segs, argv, ustack, sp)
    ensures m.misses == old(m.misses)
  {
    ghost var x := m.Now();
    OldSpace(s, x, r0, Pages(sz0), r);
    ProcFreepagetable(m, r0, sz0);
    Committed(s, x, m.Now(), r0, r, n, segs, argv, ustack, sp);
  }

  lemma OldSpace(s: Memory, x: Memory, r0: nat, n: nat, r: nat)
    requires Space(s, r0, n, 2) && NewTree(s, x, r)
    ensures Space(x, r0, n, 2) && r0 != r
  {
    assert AddedOk(s, x, r, r0);
    forall w | 0 <= w < NVPN
      ensures MappedIff(x, r0, n, 2, w)
    {
      assert MappedIff(s, r0, n, 2, w);
      NewTreeKeeps(s, x, r, r0, w);
    }
  }

  lemma GoneKeeps(x: Memory, t: Memory, r0: nat, r: nat)
    requires x.Ok() && x.IsRoot(r) && r != r0 && TreeGone(x, t, r0)
    ensures t.IsRoot(r) && forall w :: 0 <= w < NVPN ==> SamePte(x, t, r, 0, w)
  {
    forall q
      ensures TouchOk(x, t, r0, 0, 0, q)
    {
      assert Erased(x, t, r0, q);
    }
    assert Erased(x, t, r0, r);
    forall w | 0 <= w < NVPN
      ensures SamePte(x, t, r, 0, w)
    {
      OtherTranslations(x, t, r0, r, w);
    }
  }

  lemma GoneByte(x: Memory, t: Memory, r0: nat, r: nat, va: nat)
    requires x.Ok() && x.IsRoot(r) && r != r0 && TreeGone(x, t, r0) && va / PGSIZE < TRAPFRAME
    requires SamePte(x, t, r, 0, va / PGSIZE)
    requires x.At(r, 0, va / PGSIZE).Valid()
    ensures SameByte(x, t, r, va)
  {
    assert x.LeafOk(r, va / PGSIZE) && Erased(x, t, r0, x.At(r, 0, va / PGSIZE).ppn);
  }

  lemma GoneReads(x: Memory, t: Memory, r0: nat, r: nat, n: nat, at: nat, bytes: seq<int>)
    requires x.Ok() && x.IsRoot(r) && r != r0 && TreeGone(x, t, r0) && n + 2 <= TRAPFRAME && Usable(x, r, n + 1)
    requires Reads(x, r, at, bytes)
    requires (forall w :: 0 <= w < NVPN ==> SamePte(x, t, r, 0, w)) && (n + 1) * PGSIZE <= at
    requires at + |bytes| <= (n + 2) * PGSIZE
    ensures Reads(t, r, at, bytes)
  {
    forall i | 0 <= i < |bytes|
      ensures bytes[i] == Byte(t, r, at + i)
    {
      var va := at + i;
      assert va / PGSIZE == n + 1;
      assert SamePte(x, t, r, 0, va / PGSIZE);
      GoneByte(x, t, r0, r, va);
    }
  }

  lemma GoneImage(x: Memory, t: Memory, r0: nat, r: nat, n: nat, segs: seq<Segment>)
    requires x.Ok() && x.IsRoot(r) && r != r0 && TreeGone(x, t, r0) && n <= TRAPFRAME && HasImage(x, r, n, segs, |segs|)
    requires forall w :: 0 <= w < NVPN ==> SamePte(x, t, r, 0, w)
    ensures HasImage(t, r, n, segs, |segs|)
  {
    forall va | 0 <= va < n * PGSIZE
      ensures SameByte(x, t, r, va)
    {
      assert UserMapped(x, r, va / PGSIZE) && SamePte(x, t, r, 0, va / PGSIZE);
      GoneByte(x, t, r0, r, va);
    }
    ImageKept(x, t, r, n, segs, |segs|);
  }

  lemma GoneWord(x: Memory, t: Memory, r0: nat, r: nat, n: nat, at: nat)
    requires x.Ok() && x.IsRoot(r) && r != r0 && TreeGone(x, t, r0) && n + 2 <= TRAPFRAME && Usable(x, r, n + 1)
    requires (forall w :: 0 <= w < NVPN ==> SamePte(x, t, r, 0, w)) && (n + 1) * PGSIZE <= at
    requires at + 8 <= (n + 2) * PGSIZE
    ensures UserWord(t, r, at) == UserWord(x, r, at)
  {
    var b := seq(8, i requires 0 <= i < 8 => Byte(x, r, at + i));
    GoneReads(x, t, r0, r, n, at, b);
    WordRead(t, r, at, b);
  }

  lemma GoneArray(x: Memory, t: Memory, r0: nat, r: nat, n: nat, ustack: seq<nat>, sp: nat)
    requires x.Ok() && x.IsRoot(r) && r != r0 && TreeGone(x, t, r0) && n + 2 <= TRAPFRAME && Usable(x, r, n + 1)
    requires (forall w :: 0 <= w < NVPN ==> SamePte(x, t, r, 0, w)) && (n + 1) * PGSIZE <= sp
    requires sp + 8 * (|ustack| + 1) <= (n + 2) * PGSIZE && ArrayOk(x, r, ustack, sp)
    ensures ArrayOk(t, r, ustack, sp)
  {
    forall i | 0 <= i <= |ustack|
      ensures UserWord(t, r, sp + 8 * i) == UserWord(x, r, sp + 8 * i)
    {
      GoneWord(x, t, r0, r, n, sp + 8 * i);
    }
  }

  lemma GoneStack(x: Memory, t: Memory, r0: nat, r: nat, n: nat, argv: seq<seq<int>>, ustack: seq<nat>, sp: nat)
    requires x.Ok() && x.IsRoot(r) && r != r0 && TreeGone(x, t, r0) && n + 2 <= TRAPFRAME && Usable(x, r, n + 1)
    requires StackOk(x, r, n, argv, ustack, sp)
    requires forall w :: 0 <= w < NVPN ==> SamePte(x, t, r, 0, w)
    ensures StackOk(t, r, n, argv, ustack, sp)
  {
    GoneArray(x, t, r0, r, n, ustack, sp);
    forall i | 0 <= i < |ustack|
      ensures ArgOk(t, r, n, argv, ustack, sp, i)
    {
      assert ArgOk(x, r, n, argv, ustack, sp, i);
      GoneReads(x, t, r0, r, n, ustack[i], argv[i] + [0]);
    }
  }

  lemma Committed(s: Memory, x: Memory, t: Memory, r0: nat, r: nat, n: nat, segs: seq<Segment>, argv: seq<seq<int>>,
      ustack: seq<nat>, sp: nat)
    requires Ready(s, x, r, n, segs) && StackOk(x, r, n, argv, ustack, sp) && r != r0 && TreeGone(x, t, r0)
    ensures Executed(s, t, r0, r, n, segs, argv, ustack, sp)
  {
    GoneKeeps(x, t, r0, r);
    GoneImage(x, t, r0, r, n, segs);
    GoneStack(x, t, r0, r, n, argv, ustack, sp);
    CommittedSpace(x, t, r, n);
    forall q
      ensures SwapOk(s, t, r0, r, q)
    {
      assert AddedOk(s, x, r, q) && Erased(x, t, r0, q);
    }
  }

  lemma CommittedSpace(x: Memory, t: Memory, r: nat, n: nat)
    requires Space(x, r, n + 2, 2) && Usable(x, r, n + 1) && !Usable(x, r, n) && t.Ok() && t.IsRoot(r)
    requires forall w :: 0 <= w < NVPN ==> SamePte(x, t, r, 0, w)
    ensures Space(t, r, n + 2, 2) && Usable(t, r, n + 1) && !Usable(t, r, n)
  {
    var n', above := n + 2, n + 1;
    forall w | 0 <= w < NVPN
      ensures MappedIff(t, r, n', 2, w)
    {
      assert MappedIff(x, r, n', 2, w) && SamePte(x, t, r, 0, w);
    }
    assert SamePte(x, t, r, 0, n) && SamePte(x, t, r, 0, above);
  }
}
