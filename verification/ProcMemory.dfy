/** Whole address spaces: making and freeing a process's page table, copying user memory, and
    what fork and exec give back when they fail. */
module ProcMemory {
  import opened PageTable
  import opened VirtualMemory

  // ---------- a new, empty tree ----------

  // Page c, just taken and cleared, is the root of a new tree
  ghost predicate MakesRoot(s: Memory, t: Memory, c: nat) {
    && s.Ok() && s.free != [] && c == s.free[0]
    && t == Memory(s.pages[c := EmptyTable()], s.free[1..], s.role[c := Node(c, 2, 0)])
  }

  lemma {:induction false} EmptyTabs(t: Memory, c: nat, l: nat, j: nat)
    requires c in t.pages && t.pages[c] == EmptyTable() && 0 !in t.pages && l <= 2 && j < Span(l)
    ensures t.Tab(c, l, j) == if l == 2 then c else 0
    decreases 3 - l
  {
    if l < 2 {
      SpanDivides(l, j);
      EmptyTabs(t, c, l + 1, j / NPTE);
    }
  }

  lemma EmptyAt(t: Memory, c: nat, l: nat, k: nat)
    requires c in t.pages && t.pages[c] == EmptyTable() && 0 !in t.pages && l <= 2 && k < Span(l) * NPTE
    ensures t.At(c, l, k) == NoPte()
  {
    EmptyTabs(t, c, l, k / NPTE);
  }

  lemma RootMadeOther(s: Memory, t: Memory, c: nat, r: nat, l: nat, k: nat)
    requires MakesRoot(s, t, c) && s.IsRoot(r) && l <= 2 && k < Span(l) * NPTE
    ensures SamePte(s, t, r, l, k) && t.Tab(r, l, k / NPTE) == s.Tab(r, l, k / NPTE)
  {
    TakenFree(s);
    TabsSame(s, t, r, l, k / NPTE);
    assert s.TabOk(r, l, k / NPTE);
  }

  lemma RootMadePage(s: Memory, t: Memory, c: nat, p: nat)
    requires MakesRoot(s, t, c) && p in t.pages
    ensures t.PageOk(p)
  {
    TakenFree(s);
    assert s.PageOk(p);
    assert s.free == [c] + t.free;
    assert Taken(s).free == t.free;
    if p in t.role && p != c {
      match t.role[p]
      case Node(r, l, j) => TabsSame(s, t, r, l, j);
      case User(r, w) => RootMadeOther(s, t, c, r, 0, w);
      case Held =>
    }
  }

  /** A new root maps nothing and leaves every other tree alone. */
  lemma RootMadeOk(s: Memory, t: Memory, c: nat)
    requires MakesRoot(s, t, c)
    ensures t.Ok() && t.IsRoot(c) && c !in s.role && c != 0 && t.pages.Keys == s.pages.Keys
    ensures forall w :: 0 <= w < NVPN ==> t.At(c, 0, w) == NoPte()
    ensures forall r, v :: s.IsRoot(r) && 0 <= v < NVPN ==> SamePte(s, t, r, 0, v)
  {
    TakenFree(s);
    assert Taken(s).free == t.free && Taken(s).pages.Keys == t.pages.Keys;
    forall p | p in t.pages
      ensures t.PageOk(p)
    {
      RootMadePage(s, t, c, p);
    }
    forall w | 0 <= w < NVPN
      ensures t.At(c, 0, w) == NoPte()
    {
      EmptyAt(t, c, 0, w);
    }
    forall r, v | s.IsRoot(r) && 0 <= v < NVPN
      ensures SamePte(s, t, r, 0, v)
    {
      RootMadeOther(s, t, c, r, 0, v);
    }
    RootMadeTables(s, t, c);
  }

  lemma RootMadeTables(s: Memory, t: Memory, c: nat)
    requires MakesRoot(s, t, c) && 0 !in t.pages && c in t.pages && c !in s.role
    ensures forall r, l, j :: t.IsRoot(r) && 0 <= l <= 2 && 0 <= j < Span(l) ==> t.TabOk(r, l, j)
    ensures forall r, l, k :: t.IsRoot(r) && 1 <= l <= 2 && 0 <= k < Span(l) * NPTE ==> t.InnerOk(r, l, k)
    ensures forall r, v :: t.IsRoot(r) && 0 <= v < NVPN ==> t.LeafOk(r, v)
  {
    forall r, l, j | t.IsRoot(r) && 0 <= l <= 2 && 0 <= j < Span(l)
      ensures t.TabOk(r, l, j)
    {
      if r == c {
        EmptyTabs(t, c, l, j);
      } else {
        assert s.TabOk(r, l, j);
        TabsSame(s, t, r, l, j);
      }
    }
    forall r, l, k | t.IsRoot(r) && 1 <= l <= 2 && 0 <= k < Span(l) * NPTE
      ensures t.InnerOk(r, l, k)
    {
      if r == c {
        EmptyAt(t, c, l, k);
      } else {
        assert s.InnerOk(r, l, k);
        RootMadeOther(s, t, c, r, l, k);
      }
    }
    forall r, v | t.IsRoot(r) && 0 <= v < NVPN
      ensures t.LeafOk(r, v)
    {
      if r == c {
        EmptyAt(t, c, 0, v);
      } else {
        assert s.LeafOk(r, v);
        RootMadeOther(s, t, c, r, 0, v);
      }
    }
  }

  // ---------- freeing a tree ----------

  // The index path of the ancestor at level l
  function Up(l': nat, j: nat, l: nat): nat
    decreases l - l'
  {
    if l' >= l then j else Up(l' + 1, j / NPTE, l)
  }

  // q is a table of tree z.r below level l, under one of the paths lo..hi-1 of level l - 1
  ghost predicate Sub(z: Memory, q: nat, r: nat, l: nat, lo: nat, hi: nat) {
    && q in z.role && z.role[q].Node? && z.role[q].root == r && z.role[q].level < l
    && lo <= Up(z.role[q].level, z.role[q].j, l - 1) < hi
  }

  lemma {:induction false} UpStep(l': nat, j: nat, l: nat)
    requires l' <= l
    ensures Up(l', j, l + 1) == Up(l', j, l) / NPTE
    decreases l - l'
  {
    if l' < l {
      UpStep(l' + 1, j / NPTE, l);
    }
  }

  lemma {:induction false} UpBound(l': nat, j: nat)
    requires l' <= 2 && j < Span(l')
    ensures Up(l', j, 2) == 0
    decreases 3 - l'
  {
    if l' < 2 {
      SpanDivides(l', j);
      UpBound(l' + 1, j / NPTE);
    }
  }

  /** The tables under a path are the one there and those under its 512 children. */
  lemma SubSplit(z: Memory, q: nat, r: nat, l: nat, j: nat)
    requires l <= 2
    ensures Sub(z, q, r, l + 1, j, j + 1) <==>
            (q in z.role && z.role[q] == Node(r, l, j)) || Sub(z, q, r, l, j * NPTE, j * NPTE + NPTE)
  {
    if q in z.role && z.role[q].Node? && z.role[q].level < l {
      UpStep(z.role[q].level, z.role[q].j, l - 1);
    }
  }

  // No table, no tables below
  lemma {:induction false} TabUp(z: Memory, r: nat, l': nat, j: nat, l: nat)
    requires 0 !in z.pages && l' <= l <= 2 && z.Tab(r, l', j) != 0
    ensures z.Tab(r, l, Up(l', j, l)) != 0
    decreases l - l'
  {
    if l' < l {
      TabUp(z, r, l' + 1, j / NPTE, l);
    }
  }

  lemma NoTabNoSub(z: Memory, q: nat, r: nat, l: nat, k: nat)
    requires z.Ok() && l <= 2 && z.Tab(r, l, k) == 0
    ensures !Sub(z, q, r, l + 1, k, k + 1)
  {
    if Sub(z, q, r, l + 1, k, k + 1) {
      assert z.PageOk(q);
      TabUp(z, r, z.role[q].level, z.role[q].j, l);
    }
  }

  // From t to u, page q was put on the free list if gone holds, and else is as it was
  ghost predicate PutOk(t: Memory, u: Memory, gone: bool, q: nat) {
    if gone then q !in u.role && q in u.free && q in u.pages
    else (q in u.role <==> q in t.role) && (q in t.role ==> u.role[q] == t.role[q]) && (q in u.free <==> q in t.free)
         && (q in u.pages <==> q in t.pages) && (q in t.pages ==> u.pages[q] == t.pages[q])
  }

  ghost predicate Freed(z: Memory, t: Memory, u: Memory, r: nat, l: nat, lo: nat, hi: nat) {
    u.Distinct() && forall q :: PutOk(t, u, Sub(z, q, r, l, lo, hi), q)
  }

  // The tables under paths lo..hi-1 are still as they were in z
  ghost predicate StillThere(z: Memory, t: Memory, r: nat, l: nat, lo: nat, hi: nat) {
    forall q :: Sub(z, q, r, l, lo, hi) ==>
      q in t.role && t.role[q] == z.role[q] && q in z.pages && q in t.pages && t.pages[q] == z.pages[q] && q !in t.free
  }

  ghost predicate NoLeaves(z: Memory, r: nat) {
    forall w :: 0 <= w < NVPN ==> !z.At(r, 0, w).Valid()
  }

  ghost predicate ChildrenPut(z: Memory, t: Memory, u: Memory, r: nat, l: nat, lo: nat, hi: nat, p: nat) {
    forall q :: q != p ==> PutOk(t, u, Sub(z, q, r, l, lo, hi), q)
  }

  // Freeing in progress in table p at level l: what lies under the first i PTEs, of the paths from
  // lo on, is gone, and those PTEs are cleared
  ghost predicate Freeing(z: Memory, t: Memory, u: Memory, r: nat, l: nat, lo: nat, p: nat, i: nat) {
    && u.Distinct() && i <= NPTE && ChildrenPut(z, t, u, r, l, lo, lo + i, p)
    && p in u.role && p in t.role && u.role[p] == t.role[p] && p !in u.free && p in u.pages && p in z.pages
    && u.pages[p].Table? && |u.pages[p].ptes| == NPTE && z.pages[p].Table? && |z.pages[p].ptes| == NPTE
    && (forall k :: i <= k < NPTE ==> u.pages[p].ptes[k] == z.pages[p].ptes[k])
  }

  ghost predicate NoneUnder(z: Memory, r: nat, l: nat, lo: nat, hi: nat) {
    forall q :: !Sub(z, q, r, l, lo, hi)
  }

  // What freewalk finds in the next PTE: never a leaf, and no table below it unless it is valid
  lemma NextPte(z: Memory, t: Memory, u: Memory, r: nat, l: nat, j: nat, p: nat, i: nat)
    requires z.Ok() && z.IsRoot(r) && NoLeaves(z, r) && l <= 2 && j < Span(l) && p == z.Tab(r, l, j) != 0
    requires Freeing(z, t, u, r, l, j * NPTE, p, i) && i < NPTE
    ensures var e, k := u.pages[p].ptes[i], j * NPTE + i;
            if e.Valid() then l >= 1 && k < Span(l - 1) && !e.IsLeaf() && z.Tab(r, l - 1, k) == e.ppn != 0
            else NoneUnder(z, r, l, k, k + 1)
  {
    var e, k := u.pages[p].ptes[i], j * NPTE + i;
    assert k / NPTE == j && k % NPTE == i;
    assert z.At(r, l, k) == e;
    if l == 0 {
      assert k < NVPN;
    } else {
      assert z.InnerOk(r, l, k);
      if !e.Valid() {
        var k' := k + 1;
        forall q
          ensures !Sub(z, q, r, l, k, k')
        {
          NoTabNoSub(z, q, r, l - 1, k);
        }
      }
    }
  }

  lemma ChildStill(z: Memory, t: Memory, u: Memory, r: nat, l: nat, j: nat, p: nat, i: nat, k: nat, c: nat)
    requires z.Ok() && 1 <= l <= 2 && p in z.role && z.role[p] == Node(r, l, j) && k == j * NPTE + i && i < NPTE
    requires StillThere(z, t, r, l + 1, j, j + 1) && ChildrenPut(z, t, u, r, l, j * NPTE, k, p)
    ensures StillThere(z, u, r, l, k, k + 1) && !Sub(z, p, r, l, k, k + 1)
  {
    forall q | Sub(z, q, r, l, k, k + 1)
      ensures q in u.role && u.role[q] == z.role[q] && q in z.pages && q in u.pages && u.pages[q] == z.pages[q]
      ensures q !in u.free
    {
      SubSplit(z, q, r, l, j);
      assert PutOk(t, u, Sub(z, q, r, l, j * NPTE, k), q);
    }
  }

  lemma FreeingMore(z: Memory, t: Memory, u: Memory, v: Memory, r: nat, l: nat, lo: nat, p: nat, k: nat)
    requires ChildrenPut(z, t, u, r, l, lo, k, p) && lo <= k && Freed(z, u, v, r, l, k, k + 1)
    ensures ChildrenPut(z, t, v, r, l, lo, k + 1, p)
  {
    var hi := k + 1;
    forall q | q != p
      ensures PutOk(t, v, Sub(z, q, r, l, lo, hi), q)
    {
      assert PutOk(t, u, Sub(z, q, r, l, lo, k), q) && PutOk(u, v, Sub(z, q, r, l, k, hi), q);
    }
  }

  lemma FreeingNone(z: Memory, t: Memory, u: Memory, r: nat, l: nat, lo: nat, p: nat, k: nat)
    requires ChildrenPut(z, t, u, r, l, lo, k, p) && lo <= k && NoneUnder(z, r, l, k, k + 1)
    ensures ChildrenPut(z, t, u, r, l, lo, k + 1, p)
  {
    var hi := k + 1;
    forall q | q != p
      ensures PutOk(t, u, Sub(z, q, r, l, lo, hi), q)
    {
      assert PutOk(t, u, Sub(z, q, r, l, lo, k), q) && !Sub(z, q, r, l, k, hi);
    }
  }

  lemma FreeingPte(z: Memory, t: Memory, u: Memory, v: Memory, r: nat, l: nat, lo: nat, p: nat, hi: nat)
    requires ChildrenPut(z, t, u, r, l, lo, hi, p) && p in u.pages && p in v.pages
    requires v == u.(pages := u.pages[p := v.pages[p]])
    ensures ChildrenPut(z, t, v, r, l, lo, hi, p)
  {
    forall q | q != p
      ensures PutOk(t, v, Sub(z, q, r, l, lo, hi), q)
    {
      assert PutOk(t, u, Sub(z, q, r, l, lo, hi), q);
    }
  }

  lemma FreeingStart(z: Memory, t: Memory, r: nat, l: nat, j: nat, p: nat)
    requires z.Ok() && l <= 2 && p in z.role && z.role[p] == Node(r, l, j)
    requires StillThere(z, t, r, l + 1, j, j + 1) && t.Distinct()
    ensures Freeing(z, t, t, r, l, j * NPTE, p, 0)
  {
    SubSplit(z, p, r, l, j);
    assert z.PageOk(p);
  }

  lemma FreeingDone(z: Memory, t: Memory, u: Memory, r: nat, l: nat, j: nat, p: nat)
    requires z.Ok() && l <= 2 && p in z.role && z.role[p] == Node(r, l, j) && p == z.Tab(r, l, j)
    requires Freeing(z, t, u, r, l, j * NPTE, p, NPTE)
    ensures Freed(z, t, Released(u, p), r, l + 1, j, j + 1)
  {
    var v := Released(u, p);
    var lo, hi, l', j' := j * NPTE, j * NPTE + NPTE, l + 1, j + 1;
    forall q
      ensures PutOk(t, v, Sub(z, q, r, l', j, j'), q)
    {
      SubSplit(z, q, r, l, j);
      if q in z.role {
        assert z.PageOk(q);
      }
      if q != p {
        assert PutOk(t, u, Sub(z, q, r, l, lo, hi), q);
      }
    }
  }

  /** Frees the tables of a tree that maps nothing, children first. It meets no leaf, so it does
      not panic; every table of the subtree, and no other page, goes to the free list once. */
  method Freewalk(m: Machine, p: nat, ghost z: Memory, ghost r: nat, ghost l: nat, ghost j: nat)
    requires z.Ok() && z.IsRoot(r) && NoLeaves(z, r) && l <= 2 && j < Span(l) && p == z.Tab(r, l, j) != 0
    requires StillThere(z, m.Now(), r, l + 1, j, j + 1) && m.Now().Distinct()
    modifies m
    ensures Freed(z, old(m.Now()), m.Now(), r, l + 1, j, j + 1)
    ensures m.misses == old(m.misses)
    decreases l
  {
    ghost var t := m.Now();
    assert z.TabOk(r, l, j);
    FreeingStart(z, t, r, l, j, p);
    var i := 0;
    while i < NPTE
      invariant 0 <= i <= NPTE && Freeing(z, t, m.Now(), r, l, j * NPTE, p, i) && m.misses == old(m.misses)
    {
      FreeChild(m, p, i, z, t, r, l, j);
      i := i + 1;
    }
    FreeingDone(z, t, m.Now(), r, l, j, p);
    m.Kfree(p);
  }

  // One round of freewalk's loop
  method FreeChild(m: Machine, p: nat, i: nat, ghost z: Memory, ghost t: Memory, ghost r: nat, ghost l: nat,
      ghost j: nat)
    requires z.Ok() && z.IsRoot(r) && NoLeaves(z, r) && l <= 2 && j < Span(l) && p == z.Tab(r, l, j) != 0
    requires StillThere(z, t, r, l + 1, j, j + 1) && i < NPTE && Freeing(z, t, m.Now(), r, l, j * NPTE, p, i)
    modifies m
    ensures Freeing(z, t, m.Now(), r, l, j * NPTE, p, i + 1)
    ensures m.misses == old(m.misses)
    decreases l, 0
  {
    ghost var u, k, lo := m.Now(), j * NPTE + i, j * NPTE;
    var pte := m.pages[p].ptes[i];
    assert z.TabOk(r, l, j);
    NextPte(z, t, u, r, l, j, p, i);
    if pte.Valid() && !pte.IsLeaf() {
      ChildStill(z, t, u, r, l, j, p, i, k, pte.ppn);
      Freewalk(m, pte.ppn, z, r, l - 1, k);
      FreeingMore(z, t, u, m.Now(), r, l, lo, p, k);
      assert PutOk(u, m.Now(), Sub(z, p, r, l, k, k + 1), p);
      ghost var v := m.Now();
      m.pages := m.pages[p := Table(m.pages[p].ptes[i := NoPte()])];
      FreeingPte(z, t, v, m.Now(), r, l, lo, p, k + 1);
    } else {
      assert !pte.Valid();
      FreeingNone(z, t, u, r, l, lo, p, k);
    }
  }

  // Everything of tree r is free, and nothing else has changed
  ghost predicate Erased(s: Memory, t: Memory, r: nat, q: nat) {
    && (q in t.role <==> q in s.role && !InTree(s.role[q], r))
    && (q in t.role ==> t.role[q] == s.role[q] && q in s.pages && q in t.pages && t.pages[q] == s.pages[q])
  }

  ghost predicate TreeGone(s: Memory, t: Memory, r: nat) {
    t.Ok() && t.pages.Keys == s.pages.Keys && forall q :: Erased(s, t, r, q)
  }

  lemma ErasedPage(s: Memory, t: Memory, r: nat, q: nat)
    requires s.Ok() && s.IsRoot(r) && NoLeaves(s, r) && PutOk(s, t, Sub(s, q, r, 3, 0, 1), q)
    ensures Erased(s, t, r, q) && (q in t.pages <==> q in s.pages)
    ensures (q in t.pages ==> (q in t.free <==> q !in t.role)) && (q in t.free ==> q in t.pages)
  {
    if q in s.pages {
      assert s.PageOk(q);
      if q in s.role && s.role[q].Node? {
        UpBound(s.role[q].level, s.role[q].j);
      }
    }
  }

  lemma TreeFreed(s: Memory, t: Memory, r: nat)
    requires s.Ok() && s.IsRoot(r) && NoLeaves(s, r) && Freed(s, s, t, r, 3, 0, 1)
    ensures TreeGone(s, t, r)
  {
    forall q
      ensures Erased(s, t, r, q) && (q in t.pages <==> q in s.pages)
      ensures (q in t.pages ==> (q in t.free <==> q !in t.role)) && (q in t.free ==> q in t.pages)
    {
      assert PutOk(s, t, Sub(s, q, r, 3, 0, 1), q);
      ErasedPage(s, t, r, q);
    }
    ErasedOk(s, t, r);
  }

  lemma ErasedOk(s: Memory, t: Memory, r: nat)
    requires s.Ok() && s.IsRoot(r) && FreeOk(t) && t.pages.Keys == s.pages.Keys && forall q :: Erased(s, t, r, q)
    ensures t.Ok()
  {
    forall q
      ensures TouchOk(s, t, r, 0, 0, q)
    {
      assert Erased(s, t, r, q);
    }
    forall p | p in t.pages
      ensures t.PageOk(p)
    {
      assert s.PageOk(p) && Erased(s, t, r, p);
      if p in t.role {
        match t.role[p]
        case Node(r', l, j) => OtherTabs(s, t, r, r', l, j); assert Erased(s, t, r, r');
        case User(r', w) => OtherTranslations(s, t, r, r', w); assert Erased(s, t, r, r');
        case Held =>
      }
    }
    ErasedTables(s, t, r);
  }

  lemma OtherAt(s: Memory, t: Memory, r: nat, r': nat, l: nat, k: nat)
    requires s.Ok() && Within(s, t, r) && s.IsRoot(r') && r' != r && l <= 2 && k < Span(l) * NPTE
    ensures SamePte(s, t, r', l, k)
  {
    OtherTabs(s, t, r, r', l, k / NPTE);
    assert s.TabOk(r', l, k / NPTE);
    assert TouchOk(s, t, r, 0, 0, s.Tab(r', l, k / NPTE));
  }

  lemma ErasedTables(s: Memory, t: Memory, r: nat)
    requires s.Ok() && s.IsRoot(r) && Within(s, t, r) && forall q :: Erased(s, t, r, q)
    ensures forall r', l, j :: t.IsRoot(r') && 0 <= l <= 2 && 0 <= j < Span(l) ==> t.TabOk(r', l, j)
    ensures forall r', l, k :: t.IsRoot(r') && 1 <= l <= 2 && 0 <= k < Span(l) * NPTE ==> t.InnerOk(r', l, k)
    ensures forall r', v :: t.IsRoot(r') && 0 <= v < NVPN ==> t.LeafOk(r', v)
  {
    forall r', l, j | t.IsRoot(r') && 0 <= l <= 2 && 0 <= j < Span(l)
      ensures t.TabOk(r', l, j)
    {
      assert Erased(s, t, r, r') && s.TabOk(r', l, j) && Erased(s, t, r, s.Tab(r', l, j));
      OtherTabs(s, t, r, r', l, j);
    }
    forall r', l, k | t.IsRoot(r') && 1 <= l <= 2 && 0 <= k < Span(l) * NPTE
      ensures t.InnerOk(r', l, k)
    {
      assert Erased(s, t, r, r') && s.InnerOk(r', l, k);
      OtherAt(s, t, r, r', l, k);
    }
    forall r', v | t.IsRoot(r') && 0 <= v < NVPN
      ensures t.LeafOk(r', v)
    {
      assert Erased(s, t, r, r') && s.LeafOk(r', v) && Erased(s, t, r, s.At(r', 0, v).ppn);
      OtherAt(s, t, r, r', 0, v);
    }
  }

  // ---------- what a process's page table maps ----------

  // The n lowest pages are mapped, and so are k of the trampoline and the trapframe below it
  ghost predicate MappedIff(s: Memory, r: nat, n: nat, k: nat, w: nat) {
    s.At(r, 0, w).Valid() <==> w < n || MAXVPN <= w + k < MAXVPN + k
  }

  ghost predicate Space(s: Memory, r: nat, n: nat, k: nat) {
    s.Ok() && s.IsRoot(r) && n <= TRAPFRAME && k <= 2 && forall w :: 0 <= w < NVPN ==> MappedIff(s, r, n, k, w)
  }

  // Tree r was not there before; all else is as it was
  ghost predicate AddedOk(s: Memory, t: Memory, r: nat, q: nat) {
    && (q in s.role ==>
         q in t.role && t.role[q] == s.role[q] && q in s.pages && q in t.pages && t.pages[q] == s.pages[q])
    && (q in t.role && q !in s.role ==> InTree(t.role[q], r))
  }

  ghost predicate NewTree(s: Memory, t: Memory, r: nat) {
    s.Ok() && t.Ok() && t.pages.Keys == s.pages.Keys && r !in s.role && forall q :: AddedOk(s, t, r, q)
  }

  // The same pages are in use, for the same things, with the same contents, and so the same are free
  ghost predicate SameUse(s: Memory, t: Memory) {
    && s.Ok() && t.Ok() && t.pages.Keys == s.pages.Keys && t.role == s.role
    && (forall q :: q in t.free <==> q in s.free)
    && |t.free| == |s.free| && forall q :: q in s.role ==> q in s.pages && q in t.pages && t.pages[q] == s.pages[q]
  }

  lemma NewTreeWithin(s: Memory, t: Memory, x: Memory, r: nat)
    requires NewTree(s, t, r) && Within(t, x, r) && x.Ok()
    ensures NewTree(s, x, r)
  {
    forall q
      ensures AddedOk(s, x, r, q)
    {
      assert AddedOk(s, t, r, q) && TouchOk(t, x, r, 0, 0, q);
      if q in s.role {
        assert s.PageOk(q);
      }
    }
  }

  /** A new tree changes no translation of the others. */
  lemma NewTreeKeeps(s: Memory, t: Memory, c: nat, r: nat, w: nat)
    requires NewTree(s, t, c) && s.IsRoot(r) && w < NVPN
    ensures SamePte(s, t, r, 0, w)
  {
    assert AddedOk(s, t, c, r);
    forall q
      ensures TouchOk(s, t, c, 0, 0, q)
    {
      assert AddedOk(s, t, c, q);
      if q in s.role {
        assert s.PageOk(q);
      }
    }
    OtherTranslations(s, t, c, r, w);
  }

  /** A tree made and freed again: nothing is left of it. */
  lemma NewTreeGone(s: Memory, t: Memory, x: Memory, r: nat)
    requires NewTree(s, t, r) && TreeGone(t, x, r)
    ensures SameUse(s, x)
  {
    forall q
      ensures q in x.role <==> q in s.role
      ensures q in s.role ==> x.role[q] == s.role[q] && q in s.pages && q in x.pages && x.pages[q] == s.pages[q]
    {
      assert AddedOk(s, t, r, q) && Erased(t, x, r, q);
      if q in s.role {
        assert s.PageOk(q);
      }
    }
    assert x.role == s.role;
    SameRolesFree(s, x);
  }

  lemma SameRolesFree(s: Memory, x: Memory)
    requires s.Ok() && x.Ok() && x.role.Keys == s.role.Keys && x.pages.Keys == s.pages.Keys
    ensures (forall q :: q in x.free <==> q in s.free) && |x.free| == |s.free|
  {
    FreeCount(s);
    FreeCount(x);
    forall q
      ensures q in x.free <==> q in s.free
    {
      assert FreeIffUnused(s, q) && FreeIffUnused(x, q);
    }
  }

  lemma GoneAfterWithin(s: Memory, t: Memory, x: Memory, r: nat)
    requires s.Ok() && Within(s, t, r) && TreeGone(t, x, r)
    ensures TreeGone(s, x, r)
  {
    forall q
      ensures Erased(s, x, r, q)
    {
      assert TouchOk(s, t, r, 0, 0, q) && Erased(t, x, r, q);
    }
  }

  lemma GrownWithin(s: Memory, t: Memory, r: nat, a: nat, m: nat, pg: nat -> Page, f: nat -> PteFlags)
    requires Grown(s, t, r, a, m, pg, f)
    ensures Within(s, t, r)
  {
    forall q
      ensures TouchOk(s, t, r, 0, 0, q)
    {
      assert GrowOk(s, t, r, a, m, q);
    }
  }

  lemma MapsHighWithin(s: Memory, t: Memory, r: nat, a: nat, ppn: nat, f: PteFlags, m: nat)
    requires s.Ok() && MapsRange(s, t, r, a, ppn, f, m) && a >= TRAPFRAME && m <= 1
    requires (ppn in s.pages ==> ppn in s.role && s.role[ppn] == Held)
    ensures Within(s, t, r)
  {
    forall q: nat
      ensures TouchOk(s, t, r, 0, 0, q)
    {
      if ppn <= q < ppn + m {
        assert MappedPage(s, t, r, a, ppn, q);
      } else {
        assert WidenOk(s, t, r, q);
      }
    }
  }

  // ---------- uvmcreate, uvmfree, proc_pagetable, proc_freepagetable ----------

  /** A new page table that maps nothing, or 0 when memory has run out. */
  method Uvmcreate(m: Machine) returns (r: nat)
    requires m.Valid()
    modifies m
    ensures m.Valid() && (r == 0 <==> old(m.free) == [])
    ensures if r == 0 then m.Now() == old(m.Now()) else NewTree(old(m.Now()), m.Now(), r) && Space(m.Now(), r, 0, 0)
    ensures m.misses == old(m.misses) + if r == 0 then 1 else 0
  {
    ghost var s := m.Now();
    r := m.Kalloc();
    if r != 0 {
      m.pages := m.pages[r := EmptyTable()];
      m.role := m.role[r := Node(r, 2, 0)];
      assert m.pages == s.pages[r := EmptyTable()] && m.role == s.role[r := Node(r, 2, 0)];
      RootMadeOk(s, m.Now(), r);
      RootMadeNew(s, m.Now(), r);
    }
  }

  lemma RootMadeNew(s: Memory, t: Memory, c: nat)
    requires MakesRoot(s, t, c) && t.Ok() && t.IsRoot(c) && c !in s.role && t.pages.Keys == s.pages.Keys
    requires forall w :: 0 <= w < NVPN ==> t.At(c, 0, w) == NoPte()
    ensures NewTree(s, t, c) && Space(t, c, 0, 0)
  {
    forall q
      ensures AddedOk(s, t, c, q)
    {
    }
    forall w | 0 <= w < NVPN
      ensures MappedIff(t, c, 0, 0, w)
    {
    }
  }

  /** Frees a tree that maps user memory only: all of it, tables and pages, becomes free. */
  method Uvmfree(m: Machine, r: nat, sz: nat)
    requires Space(m.Now(), r, Pages(sz), 0)
    modifies m
    ensures TreeGone(old(m.Now()), m.Now(), r)
    ensures m.misses == old(m.misses)
  {
    ghost var s := m.Now();
    UnmapsNothing(s, r, 0);
    if sz > 0 {
      forall w | 0 <= w < Pages(sz)
        ensures s.At(r, 0, w).Valid()
      {
        assert MappedIff(s, r, Pages(sz), 0, w);
      }
      m.Uvmunmap(r, 0, Pages(sz), true);
    }
    ghost var z := m.Now();
    EmptiedSpace(s, z, r, Pages(sz));
    FreeAll(m, r);
    UnmapsWithin(s, z, r, 0, Pages(sz));
    GoneAfterWithin(s, z, m.Now(), r);
  }

  method FreeAll(m: Machine, r: nat)
    requires m.Valid() && m.Now().IsRoot(r) && NoLeaves(m.Now(), r)
    modifies m
    ensures TreeGone(old(m.Now()), m.Now(), r)
    ensures m.misses == old(m.misses)
  {
    ghost var z := m.Now();
    assert z.PageOk(r);
    forall q | Sub(z, q, r, 3, 0, 1)
      ensures q in z.role && q in z.pages && q !in z.free
    {
      assert z.PageOk(q);
    }
    Freewalk(m, r, z, r, 2, 0);
    TreeFreed(z, m.Now(), r);
  }

  lemma EmptiedSpace(s: Memory, z: Memory, r: nat, n: nat)
    requires Space(s, r, n, 0) && UnmapsRange(s, z, r, 0, n)
    ensures NoLeaves(z, r)
  {
    forall w | 0 <= w < NVPN
      ensures !z.At(r, 0, w).Valid()
    {
      assert MappedIff(s, r, n, 0, w) && UnmapOk(s, z, r, 0, n, w);
    }
  }

  lemma SameUseSelf(s: Memory)
    requires s.Ok()
    ensures SameUse(s, s)
  {
  }

  // One more page mapped at the top, or nothing
  lemma SpaceTop(s: Memory, t: Memory, r: nat, n: nat, k: nat, ppn: nat, f: PteFlags, m: nat)
    requires Space(s, r, n, k) && k < 2 && m <= 1 && MapsRange(s, t, r, MAXVPN - 1 - k, ppn, f, m) && f & PTE_V != 0
    ensures Space(t, r, n, k + m)
  {
    var a, k' := MAXVPN - 1 - k, k + m;
    forall w | 0 <= w < NVPN
      ensures MappedIff(t, r, n, k', w)
    {
      assert MappedIff(s, r, n, k, w) && MapOk(s, t, r, a, ppn, f, m, w);
    }
  }

  // Maps the page below those at the top
  method MapTop(m: Machine, r: nat, k: nat, ppn: nat, perm: PteFlags, ghost s: Memory) returns (ok: bool)
    requires Space(m.Now(), r, 0, k) && k < 2 && NewTree(s, m.Now(), r) && perm & PTE_U == 0
    requires perm & (PTE_R | PTE_W | PTE_X) != 0
    requires ppn in s.pages ==> ppn in s.role && s.role[ppn] == Held
    modifies m
    ensures Space(m.Now(), r, 0, if ok then k + 1 else k) && NewTree(s, m.Now(), r)
    ensures ok ==> m.Now().At(r, 0, MAXVPN - 1 - k) == Pte(ppn, WithV(perm))
    ensures ok ==> forall w :: MAXVPN - k <= w < MAXVPN ==> m.Now().At(r, 0, w) == old(m.Now()).At(r, 0, w)
    ensures !ok ==> m.free == []
    ensures m.misses == old(m.misses) + if ok then 0 else 1
  {
    ghost var x, a := m.Now(), MAXVPN - 1 - k;
    assert MappedIff(x, r, 0, k, a) && AddedOk(s, x, r, ppn);
    ghost var n;
    TopAddress(k, ppn);
    assert MayMap(x, r, a, ppn, a);
    ok, n := m.Mappages(r, (MAXVPN - 1 - k) * PGSIZE, PGSIZE, ppn * PGSIZE, perm);
    TopMapped(s, x, m.Now(), r, k, ppn, WithV(perm), n);
  }

  lemma TopMapped(s: Memory, x: Memory, y: Memory, r: nat, k: nat, ppn: nat, f: PteFlags, n: nat)
    requires Space(x, r, 0, k) && k < 2 && n <= 1 && MapsRange(x, y, r, MAXVPN - 1 - k, ppn, f, n) && f & PTE_V != 0
    requires NewTree(s, x, r) && (ppn in s.pages ==> ppn in s.role && s.role[ppn] == Held)
    ensures Space(y, r, 0, k + n) && NewTree(s, y, r)
    ensures n == 1 ==> y.At(r, 0, MAXVPN - 1 - k) == Pte(ppn, f)
    ensures forall w :: MAXVPN - k <= w < MAXVPN ==> y.At(r, 0, w) == x.At(r, 0, w)
  {
    var a := MAXVPN - 1 - k;
    SpaceTop(x, y, r, 0, k, ppn, f, n);
    assert AddedOk(s, x, r, ppn);
    MapsHighWithin(x, y, r, a, ppn, f, n);
    NewTreeWithin(s, x, y, r);
    assert MapOk(x, y, r, a, ppn, f, n, a);
    forall w | MAXVPN - k <= w < MAXVPN
      ensures y.At(r, 0, w) == x.At(r, 0, w)
    {
      assert MapOk(x, y, r, a, ppn, f, n, w);
    }
  }

  lemma TopAddress(k: nat, ppn: nat)
    requires k < 2
    ensures ((MAXVPN - 1 - k) * PGSIZE) / PGSIZE == MAXVPN - 1 - k
    ensures ((MAXVPN - 1 - k) * PGSIZE + PGSIZE - 1) / PGSIZE == MAXVPN - 1 - k
    ensures (ppn * PGSIZE) / PGSIZE == ppn
  {
  }

  /** A page table with no user memory, only the trampoline and the trapframe. If memory runs out
      on the way, every page is back where it was. */
  method ProcPagetable(m: Machine, trapframe: nat, trampoline: nat) returns (r: nat)
    requires m.Valid() && trapframe in m.role && m.role[trapframe] == Held && trampoline !in m.pages
    modifies m
    ensures m.Valid() && (r == 0 ==> SameUse(old(m.Now()), m.Now()))
    ensures r != 0 ==> NewTree(old(m.Now()), m.Now(), r) && Space(m.Now(), r, 0, 2)
    ensures r != 0 ==>
        m.Now().At(r, 0, TRAMPOLINE) == Pte(trampoline, PTE_V | PTE_R | PTE_X)
        && m.Now().At(r, 0, TRAPFRAME) == Pte(trapframe, PTE_V | PTE_R | PTE_W)
    ensures m.misses == old(m.misses) + if r == 0 then 1 else 0
  {
    ghost var s := m.Now();
    SameUseSelf(s);
    r := Uvmcreate(m);
    if r == 0 {
      return 0;
    }
    var ok := MapTop(m, r, 0, trampoline, PTE_R | PTE_X, s);
    if !ok {
      Discard(m, r, s);
      return 0;
    }
    ok := MapTop(m, r, 1, trapframe, PTE_R | PTE_W, s);
    if !ok {
      DiscardTop(m, r, s);
      return 0;
    }
  }

  // The same, with the trampoline mapped
  method DiscardTop(m: Machine, r: nat, ghost s: Memory)
    requires Space(m.Now(), r, 0, 1) && NewTree(s, m.Now(), r)
    modifies m
    ensures SameUse(s, m.Now())
    ensures m.misses == old(m.misses)
  {
    ghost var y := m.Now();
    assert MappedIff(y, r, 0, 1, TRAMPOLINE);
    m.Uvmunmap(r, TRAMPOLINE, 1, false);
    UntoppedOne(s, y, m.Now(), r);
    Discard(m, r, s);
  }

  lemma UntoppedOne(s: Memory, y: Memory, z: Memory, r: nat)
    requires Space(y, r, 0, 1) && NewTree(s, y, r) && UnmapsRange(y, z, r, TRAMPOLINE, 1)
    ensures Space(z, r, 0, 0) && NewTree(s, z, r)
  {
    UnmapsWithin(y, z, r, TRAMPOLINE, 1);
    NewTreeWithin(s, y, z, r);
    forall w | 0 <= w < NVPN
      ensures MappedIff(z, r, 0, 0, w)
    {
      assert MappedIff(y, r, 0, 1, w) && UnmapOk(y, z, r, TRAMPOLINE, 1, w);
    }
  }

  // uvmfree of a tree just made
  method Discard(m: Machine, r: nat, ghost s: Memory)
    requires Space(m.Now(), r, 0, 0) && NewTree(s, m.Now(), r)
    modifies m
    ensures SameUse(s, m.Now())
    ensures m.misses == old(m.misses)
  {
    ghost var t := m.Now();
    Uvmfree(m, r, 0);
    NewTreeGone(s, t, m.Now(), r);
  }

  /** Frees a process's page table and its user memory; the trampoline and the trapframe stay. */
  method ProcFreepagetable(m: Machine, r: nat, sz: nat)
    requires Space(m.Now(), r, Pages(sz), 2)
    modifies m
    ensures TreeGone(old(m.Now()), m.Now(), r)
    ensures m.misses == old(m.misses)
  {
    ghost var s := m.Now();
    assert MappedIff(s, r, Pages(sz), 2, TRAMPOLINE) && MappedIff(s, r, Pages(sz), 2, TRAPFRAME);
    m.Uvmunmap(r, TRAMPOLINE, 1, false);
    ghost var t := m.Now();
    assert UnmapOk(s, t, r, TRAMPOLINE, 1, TRAPFRAME);
    m.Uvmunmap(r, TRAPFRAME, 1, false);
    ghost var x := m.Now();
    Untopped(s, t, x, r, Pages(sz));
    Uvmfree(m, r, sz);
    GoneAfterWithin(s, x, m.Now(), r);
  }

  lemma Untopped(s: Memory, t: Memory, x: Memory, r: nat, n: nat)
    requires Space(s, r, n, 2) && UnmapsRange(s, t, r, TRAMPOLINE, 1) && UnmapsRange(t, x, r, TRAPFRAME, 1)
    ensures Space(x, r, n, 0) && Within(s, x, r)
  {
    UnmapsWithin(s, t, r, TRAMPOLINE, 1);
    UnmapsWithin(t, x, r, TRAPFRAME, 1);
    WithinTwice(s, t, x, r);
    forall w | 0 <= w < NVPN
      ensures MappedIff(x, r, n, 0, w)
    {
      assert MappedIff(s, r, n, 2, w) && UnmapOk(s, t, r, TRAMPOLINE, 1, w) && UnmapOk(t, x, r, TRAPFRAME, 1, w);
    }
  }
}
