/** Copying between the kernel and user memory. */
module UserCopy {
  import opened PageTable
  import opened VirtualMemory

  // Virtual page v is one the user may use: what walkaddr looks for
  predicate Usable(s: Memory, r: nat, v: nat) {
    v < MAXVPN && s.At(r, 0, v).Valid() && s.At(r, 0, v).IsUser()
  }

  predicate UsableByte(s: Memory, r: nat, va: nat) {
    Usable(s, r, va / PGSIZE)
  }

  // Each of the k bytes from va on is in such a page
  ghost predicate UsableRange(s: Memory, r: nat, va: nat, k: nat) {
    forall a :: va <= a < va + k ==> UsableByte(s, r, a)
  }

  // A byte of user memory
  function Byte(s: Memory, r: nat, va: nat): int {
    var u := s.At(r, 0, va / PGSIZE).ppn;
    if u in s.pages && s.pages[u].Data? && va % PGSIZE < |s.pages[u].bytes| then s.pages[u].bytes[va % PGSIZE] else 0
  }

  // User byte va of tree r when the first k bytes of src have been written there at dst
  ghost predicate ByteOk(s: Memory, t: Memory, r: nat, dst: nat, src: seq<int>, k: nat, va: nat)
    requires k <= |src|
  {
    UsableByte(s, r, va) ==> Byte(t, r, va) == if dst <= va < dst + k then src[va - dst] else Byte(s, r, va)
  }

  /** Only those bytes of those pages have changed: every other byte, every other process's memory
      and every page table is as it was. */
  ghost predicate Wrote(s: Memory, t: Memory, r: nat, dst: nat, src: seq<int>, k: nat)
    requires k <= |src|
  {
    && s.Ok() && t.Ok() && s.IsRoot(r) && t.role == s.role && t.free == s.free && t.pages.Keys == s.pages.Keys
    && (forall p :: p in s.role && !(s.role[p].User? && s.role[p].root == r) ==>
         p in s.pages && p in t.pages && t.pages[p] == s.pages[p])
    && BytesOk(s, t, r, dst, src, k)
  }

  ghost predicate BytesOk(s: Memory, t: Memory, r: nat, dst: nat, src: seq<int>, k: nat)
    requires k <= |src|
  {
    forall va: nat :: ByteOk(s, t, r, dst, src, k, va)
  }

  ghost predicate SamePtes(s: Memory, t: Memory) {
    forall q, v :: s.IsRoot(q) && 0 <= v < NVPN ==> SamePte(s, t, q, 0, v)
  }

  /** Writing user memory changes no translation. */
  lemma WrotePtes(s: Memory, t: Memory, r: nat, dst: nat, src: seq<int>, k: nat)
    requires k <= |src| && Wrote(s, t, r, dst, src, k)
    ensures SamePtes(s, t)
  {
    forall q | q in s.role && s.role[q].User?
      ensures q in t.pages && t.pages[q].Data? && |t.pages[q].bytes| == PGSIZE
    {
      assert t.PageOk(q);
    }
    assert Quiet(s, t);
    forall q, v | s.IsRoot(q) && 0 <= v < NVPN
      ensures SamePte(s, t, q, 0, v)
    {
      QuietPte(s, t, q, 0, v);
    }
  }

  lemma UsablePage(s: Memory, r: nat, v: nat)
    requires s.Ok() && s.IsRoot(r) && Usable(s, r, v)
    ensures var u := s.At(r, 0, v).ppn;
        u != 0 && u in s.role && s.role[u] == User(r, v) && u in s.pages && s.pages[u].Data?
        && |s.pages[u].bytes| == PGSIZE
  {
    assert s.LeafOk(r, v) && s.PageOk(s.At(r, 0, v).ppn);
  }

  // Page u of user memory, its bytes replaced
  lemma UserWritten(s: Memory, t: Memory, u: nat, bytes: seq<int>)
    requires s.Ok() && u in s.role && s.role[u].User? && |bytes| == PGSIZE
    requires t == s.(pages := s.pages[u := Data(bytes)])
    ensures t.Ok() && forall r, l, k :: s.IsRoot(r) && 0 <= l <= 2 && 0 <= k < Span(l) * NPTE ==> SamePte(s, t, r, l, k)
  {
    assert s.PageOk(u);
    forall p | p in t.pages
      ensures p in t.free <==> p !in t.role
    {
      assert s.PageOk(p);
    }
    forall q | q in s.role && s.role[q].User?
      ensures q in t.pages && t.pages[q].Data? && |t.pages[q].bytes| == PGSIZE
    {
      assert s.PageOk(q);
    }
    QuietOk(s, t);
  }

  // How many of the bytes left fall into the page of address at
  function Chunk(at: nat, left: nat): (n: nat)
    requires left > 0
    ensures 0 < n <= left && at % PGSIZE + n <= PGSIZE && (n < left ==> (at + n) % PGSIZE == 0)
  {
    var n := PGSIZE - at % PGSIZE;
    if n > left then left else n
  }

  // memmove of src[k..k+n] into a page from offset o on
  function Patched(bytes: seq<int>, o: nat, src: seq<int>, k: nat, n: nat): seq<int>
    requires o + n <= |bytes| && k + n <= |src|
  {
    bytes[..o] + src[k..k + n] + bytes[o + n..]
  }

  // Where byte va lies relative to the n bytes from at, which are in one page
  lemma InPage(at: nat, n: nat, va: nat)
    requires at % PGSIZE + n <= PGSIZE
    ensures at <= va < at + n <==> va / PGSIZE == at / PGSIZE && at % PGSIZE <= va % PGSIZE < at % PGSIZE + n
    ensures va / PGSIZE == at / PGSIZE ==> va % PGSIZE - at % PGSIZE == va - at
  {
  }

  // The memory after the n bytes src[k..k+n] were written at user address at, within one page
  ghost function Patch(t: Memory, r: nat, at: nat, src: seq<int>, k: nat, n: nat): Memory
    requires k + n <= |src| && at % PGSIZE + n <= PGSIZE
  {
    var u := t.At(r, 0, at / PGSIZE).ppn;
    if u in t.pages && t.pages[u].Data? && |t.pages[u].bytes| == PGSIZE
    then t.(pages := t.pages[u := Data(Patched(t.pages[u].bytes, at % PGSIZE, src, k, n))]) else t
  }

  ghost predicate Patches(t: Memory, x: Memory, r: nat, at: nat, src: seq<int>, k: nat, n: nat) {
    && t.Ok() && t.IsRoot(r) && UsableByte(t, r, at) && k + n <= |src| && at % PGSIZE + n <= PGSIZE
    && x == Patch(t, r, at, src, k, n)
  }

  lemma PatchesOk(t: Memory, x: Memory, r: nat, at: nat, src: seq<int>, k: nat, n: nat)
    requires Patches(t, x, r, at, src, k, n)
    ensures x.Ok() && SamePtes(t, x)
    ensures var u := t.At(r, 0, at / PGSIZE).ppn; u in t.role && t.role[u] == User(r, at / PGSIZE)
  {
    var u := t.At(r, 0, at / PGSIZE).ppn;
    UsablePage(t, r, at / PGSIZE);
    UserWritten(t, x, u, Patched(t.pages[u].bytes, at % PGSIZE, src, k, n));
  }

  lemma PatchedByte(t: Memory, x: Memory, r: nat, at: nat, src: seq<int>, k: nat, n: nat, va: nat)
    requires Patches(t, x, r, at, src, k, n) && UsableByte(t, r, va) && SamePte(t, x, r, 0, va / PGSIZE)
    ensures Byte(x, r, va) == if at <= va < at + n then src[k + (va - at)] else Byte(t, r, va)
  {
    InPage(at, n, va);
    UsablePage(t, r, at / PGSIZE);
    UsablePage(t, r, va / PGSIZE);
  }

  lemma WroteMoreByte(s: Memory, t: Memory, x: Memory, r: nat, dst: nat, src: seq<int>, k: nat, n: nat, va: nat)
    requires Patches(t, x, r, dst + k, src, k, n) && ByteOk(s, t, r, dst, src, k, va)
    requires va / PGSIZE < NVPN ==> SamePte(s, t, r, 0, va / PGSIZE) && SamePte(t, x, r, 0, va / PGSIZE)
    ensures ByteOk(s, x, r, dst, src, k + n, va)
  {
    if UsableByte(s, r, va) {
      PatchedByte(t, x, r, dst + k, src, k, n, va);
    }
  }

  lemma WroteMoreBytes(s: Memory, t: Memory, x: Memory, r: nat, dst: nat, src: seq<int>, k: nat, n: nat, k': nat)
    requires Patches(t, x, r, dst + k, src, k, n) && k' == k + n && s.role == t.role && BytesOk(s, t, r, dst, src, k)
    requires SamePtes(s, t) && SamePtes(t, x)
    ensures BytesOk(s, x, r, dst, src, k')
  {
    forall va: nat
      ensures ByteOk(s, x, r, dst, src, k', va)
    {
      assert ByteOk(s, t, r, dst, src, k, va);
      assert va / PGSIZE < NVPN ==> SamePte(s, t, r, 0, va / PGSIZE) && SamePte(t, x, r, 0, va / PGSIZE);
      WroteMoreByte(s, t, x, r, dst, src, k, n, va);
    }
  }

  lemma WroteMore(s: Memory, t: Memory, x: Memory, r: nat, dst: nat, src: seq<int>, k: nat, n: nat)
    requires k <= |src| && Wrote(s, t, r, dst, src, k) && Patches(t, x, r, dst + k, src, k, n)
    ensures Wrote(s, x, r, dst, src, k + n)
  {
    PatchesOk(t, x, r, dst + k, src, k, n);
    WrotePtes(s, t, r, dst, src, k);
    WroteMoreBytes(s, t, x, r, dst, src, k, n, k + n);
  }

  lemma WroteNothing(s: Memory, r: nat, dst: nat, src: seq<int>)
    requires s.Ok() && s.IsRoot(r)
    ensures Wrote(s, s, r, dst, src, 0)
  {
    forall va: nat
      ensures ByteOk(s, s, r, dst, src, 0, va)
    {
    }
  }

  /** The physical page of a user page, or 0 if it is not mapped for the user. */
  method Walkaddr(m: Machine, r: nat, v: nat) returns (u: nat)
    requires m.Valid() && m.Now().IsRoot(r)
    modifies m
    ensures m.Now() == old(m.Now()) && (u != 0 <==> Usable(m.Now(), r, v)) && (u != 0 ==> u == m.Now().At(r, 0, v).ppn)
    ensures m.misses == old(m.misses)
  {
    ghost var s := m.Now();
    if v >= MAXVPN {
      return 0;
    }
    var p := m.Walk(r, v, false);
    if p == 0 {
      return 0;
    }
    assert s.TabOk(r, 0, v / NPTE) && s.PageOk(p);
    var pte := m.pages[p].ptes[v % NPTE];
    if !pte.Valid() {
      return 0;
    }
    if !pte.IsUser() {
      return 0;
    }
    UsablePage(s, r, v);
    return pte.ppn;
  }

  /** Writes src to user address dst, up to the first page that is not mapped for the user.
      Succeeds exactly when there is none. */
  method Copyout(m: Machine, r: nat, dst: nat, src: seq<int>) returns (ok: bool, ghost k: nat)
    requires m.Valid() && m.Now().IsRoot(r)
    modifies m
    ensures k <= |src| && CopiedSoFar(old(m.Now()), m.Now(), r, dst, src, k) && (ok <==> k == |src|)
    ensures !ok ==> !UsableByte(old(m.Now()), r, dst + k)
    ensures m.misses == old(m.misses)
  {
    ghost var s := m.Now();
    WroteNothing(s, r, dst, src);
    ok, k := CopyoutLoop(m, r, dst, src, s);
  }

  method CopyoutLoop(m: Machine, r: nat, dst: nat, src: seq<int>, ghost s: Memory) returns (ok: bool, ghost k: nat)
    requires CopiedSoFar(s, m.Now(), r, dst, src, 0)
    modifies m
    ensures k <= |src| && CopiedSoFar(s, m.Now(), r, dst, src, k) && (ok <==> k == |src|)
    ensures !ok ==> !UsableByte(s, r, dst + k)
    ensures m.misses == old(m.misses)
  {
    var done := 0;
    while done < |src|
      invariant 0 <= done <= |src| && CopiedSoFar(s, m.Now(), r, dst, src, done) && m.misses == old(m.misses)
    {
      var next := CopyoutRound(m, r, dst, src, done, s);
      if next == done {
        return false, next;
      }
      done := next;
    }
    return true, done;
  }

  ghost predicate CopiedSoFar(s: Memory, t: Memory, r: nat, dst: nat, src: seq<int>, k: nat)
    requires k <= |src|
  {
    Wrote(s, t, r, dst, src, k) && UsableRange(s, r, dst, k)
  }

  method CopyoutRound(m: Machine, r: nat, dst: nat, src: seq<int>, done: nat, ghost s: Memory)
      returns (next: nat)
    requires done < |src| && CopiedSoFar(s, m.Now(), r, dst, src, done)
    modifies m
    ensures (next == done <==> !UsableByte(s, r, dst + done)) && done <= next <= |src|
    ensures CopiedSoFar(s, m.Now(), r, dst, src, next)
    ensures m.misses == old(m.misses)
  {
    ghost var t := m.Now();
    StillUsable(s, t, r, dst, src, done);
    var n := CopyoutPage(m, r, dst + done, src, done);
    next := done + n;
    RoundOk(s, t, m.Now(), r, dst, src, done, n);
  }

  lemma RoundOk(s: Memory, t: Memory, x: Memory, r: nat, dst: nat, src: seq<int>, k: nat, n: nat)
    requires k < |src| && CopiedSoFar(s, t, r, dst, src, k) && UsableByte(t, r, dst + k) == UsableByte(s, r, dst + k)
    requires if n == 0 then x == t else Patches(t, x, r, dst + k, src, k, n)
    ensures k + n <= |src| && CopiedSoFar(s, x, r, dst, src, k + n)
  {
    if n > 0 {
      WroteMore(s, t, x, r, dst, src, k, n);
      SamePageUsable(s, r, dst, k, n);
    }
  }

  lemma SamePageUsable(s: Memory, r: nat, va: nat, k: nat, n: nat)
    requires UsableRange(s, r, va, k) && UsableByte(s, r, va + k) && (va + k) % PGSIZE + n <= PGSIZE
    ensures UsableRange(s, r, va, k + n)
  {
    forall a | va <= a < va + (k + n)
      ensures UsableByte(s, r, a)
    {
      if a >= va + k {
        InPage(va + k, n, a);
      }
    }
  }

  lemma SameUsable(s: Memory, t: Memory, r: nat, va: nat, k: nat)
    requires SamePtes(s, t) && s.IsRoot(r) && UsableRange(s, r, va, k)
    ensures UsableRange(t, r, va, k)
  {
    forall a | va <= a < va + k
      ensures UsableByte(t, r, a)
    {
      assert UsableByte(s, r, a) && SamePte(s, t, r, 0, a / PGSIZE);
    }
  }

  lemma StillUsable(s: Memory, t: Memory, r: nat, dst: nat, src: seq<int>, k: nat)
    requires k <= |src| && Wrote(s, t, r, dst, src, k)
    ensures UsableByte(t, r, dst + k) <==> UsableByte(s, r, dst + k)
    ensures t.Ok() && t.IsRoot(r)
  {
    WrotePtes(s, t, r, dst, src, k);
    var v := (dst + k) / PGSIZE;
    assert v < NVPN ==> SamePte(s, t, r, 0, v);
  }

  // One round: the part of src that falls into the page of address at; 0 if that page is not there
  method CopyoutPage(m: Machine, r: nat, at: nat, src: seq<int>, done: nat) returns (n: nat)
    requires m.Valid() && m.Now().IsRoot(r) && done < |src|
    modifies m
    ensures n == 0 <==> !UsableByte(old(m.Now()), r, at)
    ensures if n == 0 then m.Now() == old(m.Now()) else Patches(old(m.Now()), m.Now(), r, at, src, done, n)
    ensures m.misses == old(m.misses)
  {
    ghost var t := m.Now();
    var u := Walkaddr(m, r, at / PGSIZE);
    if u == 0 {
      return 0;
    }
    n := Chunk(at, |src| - done);
    UsablePage(t, r, at / PGSIZE);
    m.pages := m.pages[u := Data(Patched(m.pages[u].bytes, at % PGSIZE, src, done, n))];
  }

  /** Reads len bytes from user address src. Succeeds exactly when every page they touch is mapped
      for the user. */
  method Copyin(m: Machine, r: nat, src: nat, len: nat) returns (ok: bool, dst: seq<int>)
    requires m.Valid() && m.Now().IsRoot(r)
    modifies m
    ensures m.Now() == old(m.Now())
    ensures ok <==> UsableRange(m.Now(), r, src, len)
    ensures ok ==> |dst| == len && Reads(m.Now(), r, src, dst)
    ensures m.misses == old(m.misses)
  {
    ghost var s := m.Now();
    dst := [];
    while |dst| < len
      invariant |dst| <= len && m.Now() == s && m.misses == old(m.misses)
      invariant UsableRange(s, r, src, |dst|)
      invariant Reads(s, r, src, dst)
      decreases len - |dst|
    {
      var at := src + |dst|;
      var u := Walkaddr(m, r, at / PGSIZE);
      if u == 0 {
        assert !UsableByte(s, r, at);
        return false, dst;
      }
      var n := Chunk(at, len - |dst|);
      UsablePage(s, r, at / PGSIZE);
      SamePageUsable(s, r, src, |dst|, n);
      var chunk := m.pages[u].bytes[at % PGSIZE..at % PGSIZE + n];
      PageBytes(s, r, at, n, chunk);
      Appended(s, r, src, dst, chunk);
      dst := dst + chunk;
    }
    return true, dst;
  }

  // The 64-bit word at user address va
  ghost function UserWord(s: Memory, r: nat, va: nat): int {
    Value(seq(8, i requires 0 <= i < 8 => Byte(s, r, va + i)))
  }

  lemma WordRead(s: Memory, r: nat, va: nat, bytes: seq<int>)
    requires |bytes| == 8 && Reads(s, r, va, bytes)
    ensures UserWord(s, r, va) == Value(bytes)
  {
    assert bytes == seq(8, i requires 0 <= i < 8 => Byte(s, r, va + i));
  }

  ghost predicate Reads(s: Memory, r: nat, va: nat, bytes: seq<int>) {
    forall i :: 0 <= i < |bytes| ==> bytes[i] == Byte(s, r, va + i)
  }

  lemma Appended(s: Memory, r: nat, va: nat, a: seq<int>, b: seq<int>)
    requires Reads(s, r, va, a) && Reads(s, r, va + |a|, b)
    ensures Reads(s, r, va, a + b)
  {
    forall i | 0 <= i < |a + b|
      ensures (a + b)[i] == Byte(s, r, va + i)
    {
      if i >= |a| {
        assert b[i - |a|] == Byte(s, r, va + |a| + (i - |a|));
      }
    }
  }

  lemma PageBytes(s: Memory, r: nat, at: nat, n: nat, c: seq<int>)
    requires at % PGSIZE + n <= PGSIZE
    requires var u := s.At(r, 0, at / PGSIZE).ppn;
             u in s.pages && s.pages[u].Data? && |s.pages[u].bytes| == PGSIZE
               && c == s.pages[u].bytes[at % PGSIZE..at % PGSIZE + n]
    ensures Reads(s, r, at, c)
  {
    forall i | 0 <= i < n
      ensures c[i] == Byte(s, r, at + i)
    {
      InPage(at, n, at + i);
    }
  }

  /** What copyout wrote, copyin reads back. */
  method CopyRoundTrip(m: Machine, r: nat, va: nat, src: seq<int>) returns (ok: bool, dst: seq<int>)
    requires m.Valid() && m.Now().IsRoot(r)
    modifies m
    ensures ok <==> UsableRange(old(m.Now()), r, va, |src|)
    ensures ok ==> dst == src
    ensures m.misses == old(m.misses)
  {
    ghost var s, k := m.Now(), 0;
    ok, k := Copyout(m, r, va, src);
    if !ok {
      assert !UsableByte(s, r, va + k);
      return false, [];
    }
    ghost var t := m.Now();
    WrotePtes(s, t, r, va, src, k);
    SameUsable(s, t, r, va, |src|);
    ok, dst := Copyin(m, r, va, |src|);
    ReadsBack(s, t, r, va, src);
    assert dst == src;
  }

  lemma ReadsBack(s: Memory, t: Memory, r: nat, va: nat, src: seq<int>)
    requires CopiedSoFar(s, t, r, va, src, |src|)
    ensures Reads(t, r, va, src)
  {
    forall i | 0 <= i < |src|
      ensures src[i] == Byte(t, r, va + i)
    {
      assert UsableByte(s, r, va + i) && ByteOk(s, t, r, va, src, |src|, va + i);
    }
  }

  // The PTE of page v with its user bit cleared
  function NotUser(e: Pte): Pte { Pte(e.ppn, e.flags & !PTE_U) }

  ghost predicate Guarded(s: Memory, t: Memory, r: nat, v: nat) {
    && t.Ok() && t.IsRoot(r) && t.role == s.role && t.free == s.free && t.pages.Keys == s.pages.Keys
    && t.At(r, 0, v) == NotUser(s.At(r, 0, v))
    && (forall q, w :: s.IsRoot(q) && 0 <= w < NVPN && (q != r || w != v) ==> SamePte(s, t, q, 0, w))
    && (forall p :: p in s.role && !(s.role[p].Node? && s.role[p].root == r) ==>
         p in s.pages && p in t.pages && t.pages[p] == s.pages[p])
  }

  /** Makes a user page inaccessible to the user; the page stays mapped. */
  method Uvmclear(m: Machine, r: nat, v: nat)
    requires m.Valid() && m.Now().IsRoot(r) && v < TRAPFRAME && m.Now().At(r, 0, v).Valid()
    modifies m
    ensures Guarded(old(m.Now()), m.Now(), r, v)
    ensures m.misses == old(m.misses)
  {
    ghost var s := m.Now();
    var p := m.Walk(r, v, false);
    assert s.TabOk(r, 0, v / NPTE) && s.LeafOk(r, v) && s.PageOk(p);
    var pte := m.pages[p].ptes[v % NPTE];
    NotUserFlags(pte.flags);
    m.pages := m.pages[p := Table(m.pages[p].ptes[v % NPTE := NotUser(pte)])];
    assert m.role == s.role[pte.ppn := User(r, v)];
    assert ReflagsLeaf(s, m.Now(), r, v, NotUser(pte));
    LeafSetOk(s, m.Now(), r, v, NotUser(pte));
  }

  lemma NotUserFlags(f: PteFlags)
    ensures (f & !PTE_U) & PTE_V == f & PTE_V && (f & !PTE_U) & (PTE_R | PTE_W | PTE_X) == f & (PTE_R | PTE_W | PTE_X)
    ensures (f & !PTE_U) & PTE_U == 0
  {
  }
}
