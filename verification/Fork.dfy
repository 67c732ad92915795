/** The memory side of fork: copying an address space, and giving everything back on failure. */
module ForkMemory {
  import opened PageTable
  import opened VirtualMemory
  import opened ProcMemory

  // What page w of tree r holds, and under which flags
  ghost function PageOf(s: Memory, r: nat): nat -> Page {
    (w: nat) => if s.At(r, 0, w).ppn in s.pages then s.pages[s.At(r, 0, w).ppn] else ZeroPage()
  }

  ghost function FlagsOf(s: Memory, r: nat): nat -> PteFlags {
    (w: nat) => s.At(r, 0, w).flags
  }

  // The parent's page a is still what it was
  lemma ParentKept(s: Memory, t: Memory, r: nat, c: nat, a: nat, n: nat)
    requires Grown(s, t, c, 0, n, PageOf(s, r), FlagsOf(s, r)) && s.IsRoot(r) && r != c && a < TRAPFRAME
    requires s.At(r, 0, a).Valid()
    ensures t.IsRoot(r) && SamePte(s, t, r, 0, a)
    ensures var u := s.At(r, 0, a).ppn;
        u in s.pages && u in t.pages && t.pages[u] == s.pages[u] && s.pages[u].Data? && |s.pages[u].bytes| == PGSIZE
    ensures s.At(r, 0, a).IsLeaf()
  {
    GrownWithin(s, t, c, 0, n, PageOf(s, r), FlagsOf(s, r));
    OtherTranslations(s, t, c, r, a);
    assert s.LeafOk(r, a);
    var u := s.At(r, 0, a).ppn;
    assert s.PageOk(u) && GrowOk(s, t, c, 0, n, u) && GrowOk(s, t, c, 0, n, r);
  }

  /** Copies n pages of tree r into tree c: the same bytes under the same flags, in fresh pages.
      If memory runs out, the copies made so far are freed and at most tables of c are left. */
  method Uvmcopy(m: Machine, r: nat, c: nat, sz: nat) returns (ok: bool)
    requires m.Valid() && m.Now().IsRoot(r) && m.Now().IsRoot(c) && r != c && Pages(sz) <= TRAPFRAME
    requires forall w :: 0 <= w < Pages(sz) ==> m.Now().At(r, 0, w).Valid() && !m.Now().At(c, 0, w).Valid()
    modifies m
    ensures ok ==> Grown(old(m.Now()), m.Now(), c, 0, Pages(sz), PageOf(old(m.Now()), r), FlagsOf(old(m.Now()), r))
    ensures !ok ==> Widened(old(m.Now()), m.Now(), c)
    ensures m.misses == old(m.misses) + if ok then 0 else 1
  {
    ghost var s := m.Now();
    GrownNothing(s, c, 0, PageOf(s, r), FlagsOf(s, r));
    PagesMonotone(0, sz);
    var i := 0;
    while i * PGSIZE < sz
      invariant 0 <= i <= Pages(sz) && Grown(s, m.Now(), c, 0, i, PageOf(s, r), FlagsOf(s, r))
      invariant m.misses == old(m.misses)
    {
      ok := CopyPage(m, r, c, i, s);
      if !ok {
        Undo(m, r, c, i, s);
        return false;
      }
      i := i + 1;
    }
    return true;
  }

  method CopyPage(m: Machine, r: nat, c: nat, i: nat, ghost s: Memory) returns (ok: bool)
    requires Grown(s, m.Now(), c, 0, i, PageOf(s, r), FlagsOf(s, r)) && s.IsRoot(r) && r != c && i < TRAPFRAME
    requires s.At(r, 0, i).Valid() && !s.At(c, 0, i).Valid()
    modifies m
    ensures Grown(s, m.Now(), c, 0, if ok then i + 1 else i, PageOf(s, r), FlagsOf(s, r))
    ensures m.misses == old(m.misses) + if ok then 0 else 1
  {
    ParentKept(s, m.Now(), r, c, i, i);
    var p := m.Walk(r, i, false);
    assert m.Now().TabOk(r, 0, i / NPTE) && m.Now().PageOk(p);
    var pte := m.pages[p].ptes[i % NPTE];
    assert pte == s.At(r, 0, i);
    assert s.LeafOk(c, i);
    FlagsHaveV(pte.flags);
    ok := m.GrowOne(c, i, m.pages[pte.ppn], pte.flags, s, 0, i, PageOf(s, r), FlagsOf(s, r));
  }

  lemma FlagsHaveV(f: PteFlags)
    requires f & PTE_V != 0
    ensures WithV(f) == f
  {
  }

  // The error exit of uvmcopy
  method Undo(m: Machine, r: nat, c: nat, i: nat, ghost s: Memory)
    requires Grown(s, m.Now(), c, 0, i, PageOf(s, r), FlagsOf(s, r)) && i <= TRAPFRAME && s.IsRoot(c)
    requires forall w :: 0 <= w < i ==> s.At(r, 0, w).Valid() && !s.At(c, 0, w).Valid()
    modifies m
    ensures Widened(s, m.Now(), c)
    ensures m.misses == old(m.misses)
  {
    ghost var t := m.Now();
    forall w | 0 <= w < i
      ensures t.At(c, 0, w).Valid() && s.At(c, 0, w) == NoPte()
    {
      assert GrownPage(s, t, c, 0, i, PageOf(s, r), FlagsOf(s, r), w) && s.LeafOk(c, w);
    }
    m.Uvmunmap(c, 0, i, true);
    GrownUndone(s, t, m.Now(), c, 0, i, PageOf(s, r), FlagsOf(s, r));
    UndoneWidened(s, m.Now(), c);
  }

  // kfree of the trapframe before the page table that maps it is freed
  lemma TrapframeReleased(s: Memory, s1: Memory, t: Memory, c: nat, tf: nat, n: nat)
    requires s.Ok() && s.free != [] && tf == s.free[0] && s1 == Taken(s) && NewTree(s1, t, c) && Space(t, c, n, 2)
    ensures NewTree(s, Released(t, tf), c) && Space(Released(t, tf), c, n, 2) && tf in t.pages
  {
    TakenOk(s);
    var x := Released(t, tf);
    assert AddedOk(s1, t, c, tf);
    ReleasedOk(t, tf);
    forall q
      ensures AddedOk(s, x, c, q)
    {
      assert AddedOk(s1, t, c, q);
      if q in s.role {
        assert s.PageOk(q);
      }
    }
    assert t.PageOk(c);
    forall w | 0 <= w < NVPN
      ensures MappedIff(x, c, n, 2, w)
    {
      assert MappedIff(t, c, n, 2, w) && SamePte(t, x, c, 0, w);
    }
  }

  lemma TakenBack(s: Memory, t: Memory)
    requires s.Ok() && s.free != [] && SameUse(Taken(s), t)
    ensures s.free[0] in t.pages && SameUse(s, Released(t, s.free[0]))
  {
    TakenOk(s);
    var s1, tf := Taken(s), s.free[0];
    ReleasedOk(t, tf);
    var x := Released(t, tf);
    forall q | q in s.role
      ensures q in s.pages && q in x.pages && x.pages[q] == s.pages[q]
    {
      assert s.PageOk(q);
    }
    assert x.role == s.role;
    SameRolesFree(s, x);
  }

  // freeproc of a process that has no user memory yet
  method FreeChild(m: Machine, c: nat, tf: nat, ghost s: Memory)
    requires s.Ok() && s.free != [] && tf == s.free[0] && NewTree(Taken(s), m.Now(), c) && Space(m.Now(), c, 0, 2)
    modifies m
    ensures SameUse(s, m.Now())
    ensures m.misses == old(m.misses)
  {
    TrapframeReleased(s, Taken(s), m.Now(), c, tf, 0);
    m.Kfree(tf);
    ghost var t := m.Now();
    ProcFreepagetable(m, c, 0);
    NewTreeGone(s, t, m.Now(), c);
  }

  lemma SpaceWidened(s: Memory, t: Memory, c: nat, n: nat, k: nat)
    requires Space(s, c, n, k) && Widened(s, t, c)
    ensures Space(t, c, n, k)
  {
    forall w | 0 <= w < NVPN
      ensures MappedIff(t, c, n, k, w)
    {
      assert MappedIff(s, c, n, k, w) && SamePte(s, t, c, 0, w);
    }
  }

  // Page q after a fork that gave the child trapframe tf and tree c
  ghost predicate ForkOk(s: Memory, t: Memory, c: nat, tf: nat, q: nat) {
    && (q in s.role ==>
         q in t.role && t.role[q] == s.role[q] && q in s.pages && q in t.pages && t.pages[q] == s.pages[q])
    && (q in t.role && q !in s.role ==> q == tf || InTree(t.role[q], c))
  }

  // The child's page w is the parent's, copied
  ghost predicate SamePage(s: Memory, t: Memory, r: nat, c: nat, w: nat) {
    MapsTo(t, c, w, PageOf(s, r)(w), FlagsOf(s, r)(w)) && t.At(c, 0, w).ppn !in s.role
  }

  /** A child with its own trapframe and a copy of user memory: every page in use before is still
      in use for the same thing with the same contents. */
  ghost predicate Forked(s: Memory, t: Memory, r: nat, n: nat, c: nat, tf: nat) {
    && Space(t, c, n, 2) && tf !in s.role && c !in s.role && tf in t.role && t.role[tf] == Held
    && t.At(c, 0, TRAPFRAME).ppn == tf
    && (forall q :: ForkOk(s, t, c, tf, q)) && forall w :: 0 <= w < n ==> SamePage(s, t, r, c, w)
  }

  const TRAPFRAME_BYTES: nat := 288
  const A0: nat := 112

  // The parent's registers with a0 cleared, over what the page held
  function ChildFrame(parent: Page, page: Page): Page
    requires parent.Data? && page.Data? && |parent.bytes| == |page.bytes| == PGSIZE
  {
    Data(parent.bytes[..A0] + seq(8, _ => 0) + parent.bytes[A0 + 8..TRAPFRAME_BYTES] + page.bytes[TRAPFRAME_BYTES..])
  }

  // Register k of a trapframe, a 64-bit word with its low byte first
  function Register(frame: Page, k: nat): int
    requires frame.Data? && 8 * k + 8 <= |frame.bytes|
  {
    Value(frame.bytes[8 * k..8 * k + 8])
  }

  /** The child's trapframe: a0, register 14 of 36, is 0, so that fork returns 0 in the child; every
      other byte of the registers is the parent's; the rest of the page is as kalloc left it. */
  ghost predicate FrameCopied(parent: Page, child: Page, page: Page) {
    && parent.Data? && child.Data? && page.Data? && |parent.bytes| == |child.bytes| == |page.bytes| == PGSIZE
    && Register(child, 14) == 0
    && (forall k :: 0 <= k < 36 && k != 14 ==> Register(child, k) == Register(parent, k))
    && (forall i :: 0 <= i < 288 && !(112 <= i < 120) ==> child.bytes[i] == parent.bytes[i])
    && (forall i :: 112 <= i < 120 ==> child.bytes[i] == 0)
    && forall i :: 288 <= i < PGSIZE ==> child.bytes[i] == page.bytes[i]
  }

  lemma ChildFrameIs(parent: Page, page: Page)
    requires parent.Data? && page.Data? && |parent.bytes| == |page.bytes| == PGSIZE
    ensures FrameCopied(parent, ChildFrame(parent, page), page)
  {
    var child := ChildFrame(parent, page);
    forall k | 0 <= k < 36 && k != 14
      ensures Register(child, k) == Register(parent, k)
    {
      forall i | 8 * k <= i < 8 * k + 8
        ensures child.bytes[i] == parent.bytes[i]
      {
      }
      assert child.bytes[8 * k..8 * k + 8] == parent.bytes[8 * k..8 * k + 8];
    }
    ZeroValue(child.bytes[112..120]);
  }

  lemma {:induction false} ZeroValue(b: seq<int>)
    requires forall i :: 0 <= i < |b| ==> b[i] == 0
    ensures Value(b) == 0
  {
    if b != [] {
      ZeroValue(b[1..]);
    }
  }

  lemma AfterCopy(s: Memory, s1: Memory, t: Memory, x: Memory, r: nat, c: nat, tf: nat, n: nat)
    requires s.Ok() && s.free != [] && s1 == Taken(s) && tf == s.free[0] && NewTree(s1, t, c) && Space(t, c, 0, 2)
    requires t.At(c, 0, TRAPFRAME).ppn == tf
    requires s.IsRoot(r) && n <= TRAPFRAME && Grown(t, x, c, 0, n, PageOf(t, r), FlagsOf(t, r))
    requires forall w :: 0 <= w < n ==> s.At(r, 0, w).Valid()
    ensures Forked(s, x, r, n, c, tf) && NewTree(s1, x, c)
  {
    TakenOk(s);
    GrownWithin(t, x, c, 0, n, PageOf(t, r), FlagsOf(t, r));
    NewTreeWithin(s1, t, x, c);
    assert AddedOk(s1, t, c, c) && AddedOk(s1, t, c, tf) && AddedOk(s1, x, c, tf);
    forall q
      ensures ForkOk(s, x, c, tf, q)
    {
      assert AddedOk(s1, x, c, q);
      if q in s.role {
        assert s.PageOk(q);
      }
    }
    forall w | 0 <= w < NVPN
      ensures MappedIff(x, c, n, 2, w)
    {
      assert MappedIff(t, c, 0, 2, w) && GrownPage(t, x, c, 0, n, PageOf(t, r), FlagsOf(t, r), w);
    }
    assert GrownPage(t, x, c, 0, n, PageOf(t, r), FlagsOf(t, r), TRAPFRAME);
    forall w | 0 <= w < n
      ensures SamePage(s, x, r, c, w)
    {
      assert GrownPage(t, x, c, 0, n, PageOf(t, r), FlagsOf(t, r), w);
      CopiedPage(s, s1, t, x, r, c, w);
    }
  }

  lemma NotYet(s: Memory, t: Memory, c: nat, q: nat)
    requires NewTree(s, t, c) && q in s.role
    ensures !InTree(s.role[q], c)
  {
    assert s.PageOk(q);
  }

  lemma CopiedPage(s: Memory, s1: Memory, t: Memory, x: Memory, r: nat, c: nat, w: nat)
    requires s.Ok() && s.free != [] && s1 == Taken(s) && s1.Ok() && NewTree(s1, t, c) && NewTree(s1, x, c)
    requires s.IsRoot(r) && w < TRAPFRAME
    requires s.At(r, 0, w).Valid() && MapsTo(x, c, w, PageOf(t, r)(w), FlagsOf(t, r)(w)) && x.IsRoot(c)
    ensures SamePage(s, x, r, c, w)
  {
    TakenOk(s);
    var u := s.At(r, 0, w).ppn;
    assert s.LeafOk(r, w) && s.PageOk(u) && SamePte(s, s1, r, 0, w) && s.PageOk(r);
    NewTreeKeeps(s1, t, c, r, w);
    assert AddedOk(s1, t, c, u);
    var y := x.At(c, 0, w).ppn;
    if y in s1.role {
      NotYet(s1, x, c, y);
    }
    assert x.LeafOk(c, w) && AddedOk(s1, x, c, y);
  }

  /** The memory side of fork. If anything fails, exactly the pages that were free are free again
      and every other page, the parent's included, is untouched. */
  method Fork(m: Machine, r: nat, sz: nat, frame: nat, trampoline: nat) returns (ok: bool, c: nat, tf: nat)
    requires Space(m.Now(), r, Pages(sz), 2) && trampoline !in m.pages
    requires frame in m.role && m.role[frame] == Held && m.pages[frame].Data? && |m.pages[frame].bytes| == PGSIZE
    modifies m
    ensures !ok ==> SameUse(old(m.Now()), m.Now())
    ensures ok ==> Forked(old(m.Now()), m.Now(), r, Pages(sz), c, tf)
    ensures ok ==> FrameCopied(old(m.pages[frame]), m.pages[tf], Junk(5))
    ensures m.misses == old(m.misses) + if ok then 0 else 1
  {
    ghost var s := m.Now();
    SameUseSelf(s);
    tf := m.Kalloc();
    if tf == 0 {
      return false, 0, 0;
    }
    ghost var s1 := m.Now();
    TakenOk(s);
    c := ProcPagetable(m, tf, trampoline);
    if c == 0 {
      TakenBack(s, m.Now());
      m.Kfree(tf);
      return false, 0, 0;
    }
    ok := CopyInto(m, r, sz, frame, c, tf, s);
  }

  // fork from uvmcopy on
  method CopyInto(m: Machine, r: nat, sz: nat, frame: nat, c: nat, tf: nat, ghost s: Memory) returns (ok: bool)
    requires Space(s, r, Pages(sz), 2) && s.free != [] && Taken(s).Ok() && tf == s.free[0]
    requires NewTree(Taken(s), m.Now(), c)
    requires Space(m.Now(), c, 0, 2) && m.Now().At(c, 0, TRAPFRAME).ppn == tf
    requires frame in s.role && s.role[frame] == Held && frame in s.pages && s.pages[frame].Data?
    requires |s.pages[frame].bytes| == PGSIZE
    modifies m
    ensures !ok ==> SameUse(s, m.Now())
    ensures ok ==> Forked(s, m.Now(), r, Pages(sz), c, tf) && FrameCopied(s.pages[frame], m.pages[tf], Junk(5))
    ensures m.misses == old(m.misses) + if ok then 0 else 1
  {
    ghost var t := m.Now();
    CopyReady(s, t, r, c, Pages(sz));
    ok := Uvmcopy(m, r, c, sz);
    ghost var x := m.Now();
    if !ok {
      CopyFailed(Taken(s), t, x, c);
      FreeChild(m, c, tf, s);
    } else {
      AfterCopy(s, Taken(s), t, x, r, c, tf, Pages(sz));
      assert ForkOk(s, x, c, tf, frame) && AddedOk(Taken(s), x, c, tf);
      ChildFrameIs(m.pages[frame], m.pages[tf]);
      m.pages := m.pages[tf := ChildFrame(m.pages[frame], m.pages[tf])];
      FrameSet(s, x, m.Now(), r, Pages(sz), c, tf);
    }
  }

  lemma CopyFailed(s: Memory, t: Memory, x: Memory, c: nat)
    requires NewTree(s, t, c) && Space(t, c, 0, 2) && Widened(t, x, c)
    ensures NewTree(s, x, c) && Space(x, c, 0, 2)
  {
    SpaceWidened(t, x, c, 0, 2);
    WidenedWithin(t, x, c);
    NewTreeWithin(s, t, x, c);
  }

  lemma CopyReady(s: Memory, t: Memory, r: nat, c: nat, n: nat)
    requires Space(s, r, n, 2) && s.free != [] && Taken(s).Ok() && NewTree(Taken(s), t, c) && Space(t, c, 0, 2)
    ensures t.IsRoot(r) && r != c
    ensures forall w :: 0 <= w < n ==> s.At(r, 0, w).Valid() && t.At(r, 0, w).Valid() && !t.At(c, 0, w).Valid()
  {
    TakenOk(s);
    assert AddedOk(Taken(s), t, c, r);
    forall w | 0 <= w < n
      ensures s.At(r, 0, w).Valid() && t.At(r, 0, w).Valid() && !t.At(c, 0, w).Valid()
    {
      assert MappedIff(s, r, n, 2, w) && MappedIff(t, c, 0, 2, w) && SamePte(s, Taken(s), r, 0, w);
      NewTreeKeeps(Taken(s), t, c, r, w);
    }
  }

  // Writing a page the kernel holds changes no translation
  lemma HeldWritten(x: Memory, y: Memory, tf: nat)
    requires x.Ok() && tf in x.role && x.role[tf] == Held && tf in y.pages
    requires y == x.(pages := x.pages[tf := y.pages[tf]])
    ensures y.Ok() && forall r, l, k :: x.IsRoot(r) && 0 <= l <= 2 && 0 <= k < Span(l) * NPTE ==> SamePte(x, y, r, l, k)
  {
    forall p | p in y.pages
      ensures p in y.free <==> p !in y.role
    {
      assert x.PageOk(p);
    }
    forall q | q in x.role && x.role[q].User?
      ensures q in y.pages && y.pages[q].Data? && |y.pages[q].bytes| == PGSIZE
    {
      assert x.PageOk(q);
    }
    QuietOk(x, y);
  }

  lemma FrameSet(s: Memory, x: Memory, y: Memory, r: nat, n: nat, c: nat, tf: nat)
    requires Forked(s, x, r, n, c, tf) && tf in y.pages && y == x.(pages := x.pages[tf := y.pages[tf]])
    requires n <= TRAPFRAME
    ensures Forked(s, y, r, n, c, tf)
  {
    HeldWritten(x, y, tf);
    forall q
      ensures ForkOk(s, y, c, tf, q)
    {
      assert ForkOk(s, x, c, tf, q);
    }
    assert SamePte(x, y, c, 0, TRAPFRAME);
    forall w | 0 <= w < NVPN
      ensures MappedIff(y, c, n, 2, w)
    {
      assert MappedIff(x, c, n, 2, w) && SamePte(x, y, c, 0, w);
    }
    forall w | 0 <= w < n
      ensures SamePage(s, y, r, c, w)
    {
      assert SamePage(s, x, r, c, w) && SamePte(x, y, c, 0, w) && x.LeafOk(c, w);
    }
  }
}
