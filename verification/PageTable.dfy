/** Sv39 page tables in physical memory. A page-table page holds 512 PTEs; a virtual page
    number of 27 bits is three indices of 9 bits. Level 2 is the root, level 0 holds the leaf
    PTEs. (RISC-V Privileged Architecture, version 20190608, section 4.4.) */
module PageTable {

  const PGSIZE: nat := 4096
  const NPTE: nat := 512
  const NVPN: nat := 0x800_0000           // the virtual pages a tree can reach
  const MAXVPN: nat := 0x400_0000         // those below MAXVA: half of them
  const TRAMPOLINE: nat := MAXVPN - 1     // as page numbers
  const TRAPFRAME: nat := MAXVPN - 2

  type PteFlags = bv10

  const PTE_V: PteFlags := 1
  const PTE_R: PteFlags := 2
  const PTE_W: PteFlags := 4
  const PTE_X: PteFlags := 8
  const PTE_U: PteFlags := 16

  // A page-table entry: a physical page number and ten flag bits. PteBits gives the 64-bit word.
  datatype Pte = Pte(ppn: nat, flags: PteFlags) {
    predicate Valid() { flags & PTE_V != 0 }
    predicate IsLeaf() { flags & (PTE_R | PTE_W | PTE_X) != 0 }
    predicate IsUser() { flags & PTE_U != 0 }
  }

  function NoPte(): Pte { Pte(0, 0) }

  // A page of physical memory, seen as what it was last set up to be
  datatype Page = Table(ptes: seq<Pte>) | Data(bytes: seq<int>)

  function EmptyTable(): Page { Table(seq(NPTE, _ => NoPte())) }
  function ZeroPage(): Page { Data(seq(PGSIZE, _ => 0)) }
  function Junk(b: int): Page { Data(seq(PGSIZE, _ => b)) }

  // Bytes read as a number, the low one first
  function Value(b: seq<int>): int {
    if b == [] then 0 else b[0] + 256 * Value(b[1..])
  }

  // What an allocated page is for: the table of a tree at some level, with the indices that
  // lead to it; a leaf of user memory; or held by the kernel for something else.
  datatype Role = Node(root: nat, level: nat, j: nat) | User(root: nat, vpn: nat) | Held

  // Index paths to tables of a level: 1, 512 and 512 * 512 of them
  function Span(l: nat): nat {
    if l == 0 then NPTE * NPTE else if l == 1 then NPTE else 1
  }

  datatype Memory = Memory(pages: map<nat, Page>, free: seq<nat>, role: map<nat, Role>) {

    function PteAt(p: nat, i: nat): Pte {
      if p in pages && pages[p].Table? && i < |pages[p].ptes| then pages[p].ptes[i] else NoPte()
    }

    // The table at level l reached by index path j from a root; 0 for none
    function Tab(r: nat, l: nat, j: nat): nat
      decreases 3 - l
    {
      if l >= 2 then (if j == 0 then r else 0)
      else
        var e := PteAt(Tab(r, l + 1, j / NPTE), j % NPTE);
        if e.Valid() then e.ppn else 0
    }

    // The PTE at level l for index path k; at level 0, the leaf PTE of virtual page k
    function At(r: nat, l: nat, k: nat): Pte {
      PteAt(Tab(r, l, k / NPTE), k % NPTE)
    }

    predicate IsRoot(r: nat) { r in role && role[r] == Node(r, 2, 0) }

    /** A table that a tree reaches is that tree's, at that place. */
    ghost predicate TabOk(r: nat, l: nat, j: nat) {
      Tab(r, l, j) == 0 || (Tab(r, l, j) in role && role[Tab(r, l, j)] == Node(r, l, j))
    }

    /** A user page that is mapped is mapped there only; the trampoline and the trapframe are not
        for the user. */
    ghost predicate LeafOk(r: nat, v: nat) {
      var e := At(r, 0, v);
      if !e.Valid() then e == NoPte()
      else v < MAXVPN && e.IsLeaf() && (if v < TRAPFRAME then e.ppn in role && role[e.ppn] == User(r, v)
        else !e.IsUser())
    }

    // PTEs above level 0 point to tables
    ghost predicate InnerOk(r: nat, l: nat, k: nat) {
      At(r, l, k).Valid() ==> At(r, l, k).flags == PTE_V && At(r, l, k).ppn != 0
    }

    ghost predicate PageOk(p: nat)
      requires p in pages
    {
      && (p in free <==> p !in role)
      && (p in role ==>
            match role[p]
            case Node(r, l, j) =>
              pages[p].Table? && |pages[p].ptes| == NPTE && l <= 2 && j < Span(l) && IsRoot(r) && Tab(r, l, j) == p
            case User(r, v) =>
              pages[p].Data? && |pages[p].bytes| == PGSIZE && IsRoot(r) && v < TRAPFRAME && At(r, 0, v).Valid()
                && At(r, 0, v).ppn == p
            case Held => true)
    }

    ghost predicate Distinct() {
      forall i, j :: 0 <= i < j < |free| ==> free[i] != free[j]
    }

    ghost predicate Ok() {
      && 0 !in pages && Distinct() && (forall i :: 0 <= i < |free| ==> free[i] in pages)
      && (forall p :: p in role ==> p in pages)
      && (forall p {:trigger PageOk(p)} :: p in pages ==> PageOk(p))
      && (forall r, l, j :: IsRoot(r) && 0 <= l <= 2 && 0 <= j < Span(l) ==> TabOk(r, l, j))
      && (forall r, l, k :: IsRoot(r) && 1 <= l <= 2 && 0 <= k < Span(l) * NPTE ==> InnerOk(r, l, k))
      && (forall r, v :: IsRoot(r) && 0 <= v < NVPN ==> LeafOk(r, v))
    }
  }

  /** Distinct virtual pages have distinct PTE slots, in one tree or in two. */
  lemma SlotsDistinct(s: Memory, r: nat, v: nat, q: nat, w: nat)
    requires s.Ok() && s.IsRoot(r) && s.IsRoot(q) && v < NVPN && w < NVPN && (r, v) != (q, w)
    requires s.Tab(r, 0, v / NPTE) != 0
    ensures s.Tab(r, 0, v / NPTE) != s.Tab(q, 0, w / NPTE) || v % NPTE != w % NPTE
  {
    assert s.TabOk(r, 0, v / NPTE) && s.TabOk(q, 0, w / NPTE);
  }

  lemma SpanDivides(l: nat, j: nat)
    requires l < 2 && j < Span(l)
    ensures j / NPTE < Span(l + 1)
  {
  }

  // The tables of level 1 and 2 are the same in both
  ghost predicate SameInner(s: Memory, t: Memory) {
    forall q :: q in s.role && s.role[q].Node? && s.role[q].level >= 1 ==>
      q in t.pages && q in s.pages && t.pages[q] == s.pages[q]
  }

  lemma {:induction false} TabsSame(s: Memory, t: Memory, r: nat, l: nat, j: nat)
    requires s.Ok() && s.IsRoot(r) && l <= 2 && j < Span(l) && SameInner(s, t) && 0 !in t.pages
    ensures t.Tab(r, l, j) == s.Tab(r, l, j)
    decreases 3 - l
  {
    if l < 2 {
      SpanDivides(l, j);
      TabsSame(s, t, r, l + 1, j / NPTE);
      assert s.TabOk(r, l + 1, j / NPTE);
    }
  }

  ghost predicate FreeOk(t: Memory) {
    && 0 !in t.pages && t.Distinct() && (forall i :: 0 <= i < |t.free| ==> t.free[i] in t.pages)
    && (forall p :: p in t.role ==> p in t.pages) && (forall p :: p in t.pages ==> (p in t.free <==> p !in t.role))
  }

  // Everything but held pages, free pages and the bytes of user pages is the same
  ghost predicate Quiet(s: Memory, t: Memory) {
    && (forall q :: q in t.role && !t.role[q].Held? ==> q in s.role && s.role[q] == t.role[q])
    && (forall q :: q in s.role && !s.role[q].Held? ==> q in t.role && s.role[q] == t.role[q])
    && (forall q :: q in s.role && s.role[q].Node? ==> q in t.pages && q in s.pages && t.pages[q] == s.pages[q])
    && (forall q :: q in s.role && s.role[q].User? ==> q in t.pages && t.pages[q].Data? && |t.pages[q].bytes| == PGSIZE)
  }

  ghost predicate SamePte(s: Memory, t: Memory, r: nat, l: nat, k: nat) {
    t.At(r, l, k) == s.At(r, l, k)
  }

  lemma QuietPte(s: Memory, t: Memory, r: nat, l: nat, k: nat)
    requires s.Ok() && Quiet(s, t) && 0 !in t.pages && s.IsRoot(r) && l <= 2 && k < Span(l) * NPTE
    ensures SamePte(s, t, r, l, k) && t.Tab(r, l, k / NPTE) == s.Tab(r, l, k / NPTE)
  {
    TabsSame(s, t, r, l, k / NPTE);
    assert s.TabOk(r, l, k / NPTE);
  }

  lemma QuietOk(s: Memory, t: Memory)
    requires s.Ok() && FreeOk(t) && Quiet(s, t)
    ensures t.Ok() && forall r, l, k :: s.IsRoot(r) && 0 <= l <= 2 && 0 <= k < Span(l) * NPTE ==> SamePte(s, t, r, l, k)
  {
    forall r, l, k | s.IsRoot(r) && 0 <= l <= 2 && 0 <= k < Span(l) * NPTE
      ensures SamePte(s, t, r, l, k)
    {
      QuietPte(s, t, r, l, k);
    }
    forall p | p in t.pages
      ensures t.PageOk(p)
    {
      if p in t.role && !t.role[p].Held? {
        assert s.PageOk(p);
        if t.role[p].Node? {
          TabsSame(s, t, t.role[p].root, t.role[p].level, t.role[p].j);
        } else {
          assert SamePte(s, t, t.role[p].root, 0, t.role[p].vpn);
        }
      }
    }
    forall r, l, j | t.IsRoot(r) && 0 <= l <= 2 && 0 <= j < Span(l)
      ensures t.TabOk(r, l, j)
    {
      assert s.TabOk(r, l, j);
      TabsSame(s, t, r, l, j);
    }
    forall r, l, k | t.IsRoot(r) && 1 <= l <= 2 && 0 <= k < Span(l) * NPTE
      ensures t.InnerOk(r, l, k)
    {
      assert s.InnerOk(r, l, k) && SamePte(s, t, r, l, k);
    }
    forall r, v | t.IsRoot(r) && 0 <= v < NVPN
      ensures t.LeafOk(r, v)
    {
      assert s.LeafOk(r, v) && SamePte(s, t, r, 0, v);
    }
  }

  // walk with alloc: held page c, cleared, becomes the table that the PTE at level l, path k, points to
  ghost predicate AddsTable(s: Memory, t: Memory, r: nat, l: nat, k: nat, c: nat) {
    && s.Ok() && s.IsRoot(r) && 1 <= l <= 2 && k < Span(l) * NPTE
    && c in s.role && s.role[c] == Held && !s.At(r, l, k).Valid()
    && var p := s.Tab(r, l, k / NPTE);
       && p != 0 && p in s.pages && s.pages[p].Table? && |s.pages[p].ptes| == NPTE
       && t == s.(pages := s.pages[c := EmptyTable()][p := Table(s.pages[p].ptes[k % NPTE := Pte(c, PTE_V)])],
                  role := s.role[c := Node(r, l - 1, k)])
  }

  lemma PathParts(k: nat, j: nat)
    ensures k / NPTE == j / NPTE && k % NPTE == j % NPTE ==> k == j
  {
  }

  lemma {:induction false} TabAfter(s: Memory, t: Memory, r: nat, l: nat, k: nat, c: nat, r': nat, l': nat, j': nat)
    requires AddsTable(s, t, r, l, k, c) && s.IsRoot(r') && l' <= 2 && j' < Span(l')
    ensures t.Tab(r', l', j') == if r' == r && l' == l - 1 && j' == k then c else s.Tab(r', l', j')
    decreases 3 - l'
  {
    if l' < 2 {
      SpanDivides(l', j');
      TabAfter(s, t, r, l, k, c, r', l' + 1, j' / NPTE);
      assert s.TabOk(r', l' + 1, j' / NPTE) && s.TabOk(r, l, k / NPTE);
      PathParts(k, j');
    }
  }

  lemma PteAfter(s: Memory, t: Memory, r: nat, l: nat, k: nat, c: nat, r': nat, l': nat, k': nat)
    requires AddsTable(s, t, r, l, k, c) && s.IsRoot(r') && l' <= 2 && k' < Span(l') * NPTE
    ensures if r' == r && l' == l && k' == k then t.At(r', l', k') == Pte(c, PTE_V) else SamePte(s, t, r', l', k')
  {
    TabAfter(s, t, r, l, k, c, r', l', k' / NPTE);
    assert s.TabOk(r', l', k' / NPTE) && s.TabOk(r, l, k / NPTE);
    PathParts(k, k');
  }

  /** Adding a page-table page changes no translation. */
  lemma TableAddedOk(s: Memory, t: Memory, r: nat, l: nat, k: nat, c: nat)
    requires AddsTable(s, t, r, l, k, c)
    ensures t.Ok() && t.Tab(r, l - 1, k) == c
    ensures forall r', v :: s.IsRoot(r') && 0 <= v < NVPN ==> SamePte(s, t, r', 0, v)
  {
    forall r', v | s.IsRoot(r') && 0 <= v < NVPN
      ensures SamePte(s, t, r', 0, v)
    {
      PteAfter(s, t, r, l, k, c, r', 0, v);
    }
    TabAfter(s, t, r, l, k, c, r, l - 1, k);
    forall p | p in t.pages
      ensures t.PageOk(p)
    {
      assert s.PageOk(p);
      if p in t.role && p != c && t.role[p].Node? {
        TabAfter(s, t, r, l, k, c, t.role[p].root, t.role[p].level, t.role[p].j);
      } else if p in t.role && t.role[p].User? {
        PteAfter(s, t, r, l, k, c, t.role[p].root, 0, t.role[p].vpn);
      }
    }
    forall r', l', j' | t.IsRoot(r') && 0 <= l' <= 2 && 0 <= j' < Span(l')
      ensures t.TabOk(r', l', j')
    {
      assert s.TabOk(r', l', j');
      TabAfter(s, t, r, l, k, c, r', l', j');
    }
    forall r', l', k' | t.IsRoot(r') && 1 <= l' <= 2 && 0 <= k' < Span(l') * NPTE
      ensures t.InnerOk(r', l', k')
    {
      assert s.InnerOk(r', l', k');
      PteAfter(s, t, r, l, k, c, r', l', k');
    }
    forall r', v | t.IsRoot(r') && 0 <= v < NVPN
      ensures t.LeafOk(r', v)
    {
      assert s.LeafOk(r', v) && SamePte(s, t, r', 0, v);
    }
  }

  // The leaf PTE of virtual page v becomes e; the page u that it maps or mapped changes hands
  ghost predicate SetsLeaf(s: Memory, t: Memory, r: nat, v: nat, e: Pte, u: nat) {
    && s.Ok() && s.IsRoot(r) && v < MAXVPN
    && var p := s.Tab(r, 0, v / NPTE);
       && p != 0 && p in s.pages && s.pages[p].Table? && |s.pages[p].ptes| == NPTE
       && t.pages == s.pages[p := Table(s.pages[p].ptes[v % NPTE := e])] && t.free == s.free
       && (v >= TRAPFRAME ==> t.role == s.role)
       && (v < TRAPFRAME ==> u in s.role && t.role == s.role[u := if e.Valid() then User(r, v) else Held])
  }

  ghost predicate MapsLeaf(s: Memory, t: Memory, r: nat, v: nat, e: Pte) {
    && SetsLeaf(s, t, r, v, e, e.ppn) && !s.At(r, 0, v).Valid() && e.Valid() && e.IsLeaf()
    && (v >= TRAPFRAME ==> !e.IsUser())
    && (v < TRAPFRAME ==> s.role[e.ppn] == Held && s.pages[e.ppn].Data? && |s.pages[e.ppn].bytes| == PGSIZE)
  }

  // The same page under other flags
  ghost predicate ReflagsLeaf(s: Memory, t: Memory, r: nat, v: nat, e: Pte) {
    && SetsLeaf(s, t, r, v, e, e.ppn) && s.At(r, 0, v).Valid() && e.Valid() && e.IsLeaf() && e.ppn == s.At(r, 0, v).ppn
    && (v >= TRAPFRAME ==> !e.IsUser())
  }

  ghost predicate ClearsLeaf(s: Memory, t: Memory, r: nat, v: nat) {
    SetsLeaf(s, t, r, v, NoPte(), s.At(r, 0, v).ppn) && s.At(r, 0, v).Valid()
  }

  lemma LeafPteAfter(s: Memory, t: Memory, r: nat, v: nat, e: Pte, u: nat, r': nat, l': nat, k': nat)
    requires SetsLeaf(s, t, r, v, e, u) && s.IsRoot(r') && l' <= 2 && k' < Span(l') * NPTE
    ensures t.Tab(r', l', k' / NPTE) == s.Tab(r', l', k' / NPTE)
    ensures if r' == r && l' == 0 && k' == v then t.At(r', l', k') == e else SamePte(s, t, r', l', k')
  {
    assert s.TabOk(r, 0, v / NPTE);
    TabsSame(s, t, r', l', k' / NPTE);
    assert s.TabOk(r', l', k' / NPTE);
    PathParts(v, k');
  }

  ghost predicate MapsOrClears(s: Memory, t: Memory, r: nat, v: nat, e: Pte) {
    MapsLeaf(s, t, r, v, e) || ReflagsLeaf(s, t, r, v, e) || (e == NoPte() && ClearsLeaf(s, t, r, v))
  }

  // The page that changes hands
  function LeafPage(s: Memory, r: nat, v: nat, e: Pte): nat {
    if e.Valid() then e.ppn else s.At(r, 0, v).ppn
  }

  // Page p after the write: only user page (r, v) may have changed hands
  ghost predicate LeafRole(s: Memory, t: Memory, r: nat, v: nat, e: Pte, p: nat) {
    && (p in t.role <==> p in s.role)
    && (p in t.role && t.role[p].Node? ==>
         s.role[p] == t.role[p] && p in t.pages && t.pages[p].Table? && |t.pages[p].ptes| == NPTE)
    && (p in t.role && t.role[p].User? ==> p in t.pages && t.pages[p].Data? && |t.pages[p].bytes| == PGSIZE)
    && (p in t.role && t.role[p].User? ==>
         if t.role[p] == User(r, v) then e.Valid() && p == e.ppn && v < TRAPFRAME else s.role[p] == t.role[p])
    && (p in s.role && s.role[p].Node? ==> t.role[p] == s.role[p])
  }

  lemma LeafSetRole(s: Memory, t: Memory, r: nat, v: nat, e: Pte, p: nat)
    requires MapsOrClears(s, t, r, v, e)
    ensures LeafRole(s, t, r, v, e, p)
  {
    assert s.TabOk(r, 0, v / NPTE) && s.LeafOk(r, v);
    assert s.PageOk(s.Tab(r, 0, v / NPTE));
    if p in s.role {
      assert s.PageOk(p);
    }
  }

  lemma LeafSetPage(s: Memory, t: Memory, r: nat, v: nat, e: Pte, u: nat, p: nat)
    requires SetsLeaf(s, t, r, v, e, u) && p in t.pages && p in s.pages && forall q :: LeafRole(s, t, r, v, e, q)
    requires SameInner(s, t) && 0 !in t.pages
    ensures t.PageOk(p)
  {
    assert s.PageOk(p) && LeafRole(s, t, r, v, e, p);
    if p in t.role {
      match t.role[p]
      case Node(r', l', j') =>
        assert LeafRole(s, t, r, v, e, r');
        TabsSame(s, t, r', l', j');
      case User(r', w) =>
        assert LeafRole(s, t, r, v, e, r') && LeafRole(s, t, r, v, e, r);
        LeafPteAfter(s, t, r, v, e, u, r', 0, w);
      case Held =>
    }
  }

  lemma LeafSetTables(s: Memory, t: Memory, r: nat, v: nat, e: Pte, u: nat)
    requires SetsLeaf(s, t, r, v, e, u) && SameInner(s, t) && 0 !in t.pages && forall q :: LeafRole(s, t, r, v, e, q)
    ensures forall r', l', j' :: t.IsRoot(r') && 0 <= l' <= 2 && 0 <= j' < Span(l') ==> t.TabOk(r', l', j')
    ensures forall r', l', k' :: t.IsRoot(r') && 1 <= l' <= 2 && 0 <= k' < Span(l') * NPTE ==> t.InnerOk(r', l', k')
  {
    forall r', l', j' | t.IsRoot(r') && 0 <= l' <= 2 && 0 <= j' < Span(l')
      ensures t.TabOk(r', l', j')
    {
      assert LeafRole(s, t, r, v, e, r') && s.TabOk(r', l', j') && LeafRole(s, t, r, v, e, s.Tab(r', l', j'));
      TabsSame(s, t, r', l', j');
    }
    forall r', l', k' | t.IsRoot(r') && 1 <= l' <= 2 && 0 <= k' < Span(l') * NPTE
      ensures t.InnerOk(r', l', k')
    {
      assert LeafRole(s, t, r, v, e, r') && s.InnerOk(r', l', k');
      LeafPteAfter(s, t, r, v, e, u, r', l', k');
    }
  }

  /** Writing one leaf PTE changes the translation of that virtual page, in that tree, and no other. */
  lemma LeafSetOk(s: Memory, t: Memory, r: nat, v: nat, e: Pte)
    requires MapsOrClears(s, t, r, v, e)
    ensures t.Ok() && t.At(r, 0, v) == e
    ensures forall r': nat, w :: s.IsRoot(r') && 0 <= w < NVPN && (r' != r || w != v) ==> SamePte(s, t, r', 0, w)
  {
    var u := LeafPage(s, r, v, e);
    assert SetsLeaf(s, t, r, v, e, u);
    assert s.TabOk(r, 0, v / NPTE) && s.LeafOk(r, v);
    forall q
      ensures LeafRole(s, t, r, v, e, q)
    {
      LeafSetRole(s, t, r, v, e, q);
    }
    LeafPteAfter(s, t, r, v, e, u, r, 0, v);
    forall r': nat, w | s.IsRoot(r') && 0 <= w < NVPN && (r' != r || w != v)
      ensures SamePte(s, t, r', 0, w)
    {
      LeafPteAfter(s, t, r, v, e, u, r', 0, w);
    }
    forall p | p in t.pages
      ensures t.PageOk(p)
    {
      LeafSetPage(s, t, r, v, e, u, p);
    }
    LeafSetTables(s, t, r, v, e, u);
    forall r', w | t.IsRoot(r') && 0 <= w < NVPN
      ensures t.LeafOk(r', w)
    {
      assert LeafRole(s, t, r, v, e, r');
      LeafSetLeaf(s, t, r, v, e, r', w);
    }
  }

  lemma LeafSetLeaf(s: Memory, t: Memory, r: nat, v: nat, e: Pte, r': nat, w: nat)
    requires MapsOrClears(s, t, r, v, e) && s.IsRoot(r') && w < NVPN
    ensures t.LeafOk(r', w)
  {
    var u := LeafPage(s, r, v, e);
    assert SetsLeaf(s, t, r, v, e, u);
    assert s.LeafOk(r', w) && s.LeafOk(r, v);
    LeafPteAfter(s, t, r, v, e, u, r', 0, w);
  }

  // Page q keeps its role, and its contents unless it is one of tree r's tables; a page that
  // comes into use is a table of tree r
  ghost predicate WidenOk(s: Memory, t: Memory, r: nat, q: nat) {
    && (q in s.role ==> q in t.role && t.role[q] == s.role[q])
    && (q in s.role && !(s.role[q].Node? && s.role[q].root == r) ==>
         q in s.pages && q in t.pages && t.pages[q] == s.pages[q])
    && (q in t.role && q !in s.role ==> t.role[q].Node? && t.role[q].root == r && t.role[q].level < 2)
  }

  // Only tables of tree r were added, taken from the free list: no translation and no data changed
  ghost predicate Widened(s: Memory, t: Memory, r: nat) {
    && s.Ok() && t.Ok() && s.IsRoot(r) && t.IsRoot(r) && t.pages.Keys == s.pages.Keys && |t.free| <= |s.free|
    && (forall q :: WidenOk(s, t, r, q))
    && (forall r', v :: s.IsRoot(r') && 0 <= v < NVPN ==> SamePte(s, t, r', 0, v))
  }

  lemma WidenedSelf(s: Memory, r: nat)
    requires s.Ok() && s.IsRoot(r)
    ensures Widened(s, s, r)
  {
    forall r', v | s.IsRoot(r') && 0 <= v < NVPN
      ensures SamePte(s, s, r', 0, v)
    {
    }
    forall q
      ensures WidenOk(s, s, r, q)
    {
    }
  }

  lemma WidenedTwice(s: Memory, t: Memory, u: Memory, r: nat)
    requires Widened(s, t, r) && Widened(t, u, r)
    ensures Widened(s, u, r)
  {
    forall q
      ensures WidenOk(s, u, r, q)
    {
      assert WidenOk(s, t, r, q) && WidenOk(t, u, r, q);
    }
    forall r', v | s.IsRoot(r') && 0 <= v < NVPN
      ensures SamePte(s, u, r', 0, v)
    {
      assert WidenOk(s, t, r, r');
      assert SamePte(s, t, r', 0, v) && SamePte(t, u, r', 0, v);
    }
  }

  // kalloc
  function Taken(s: Memory): Memory
    requires s.free != []
  {
    s.(pages := s.pages[s.free[0] := Junk(5)], free := s.free[1..], role := s.role[s.free[0] := Held])
  }

  lemma TakenFree(s: Memory)
    requires s.Ok() && s.free != []
    ensures FreeOk(Taken(s)) && s.free[0] in s.pages && s.free[0] !in s.role && Taken(s).pages.Keys == s.pages.Keys
  {
    var t, c := Taken(s), s.free[0];
    assert s.free == [c] + t.free && s.PageOk(c);
    forall p | p in t.pages
      ensures p in t.free <==> p !in t.role
    {
      assert s.PageOk(p);
    }
  }

  lemma TakenQuiet(s: Memory)
    requires s.Ok() && s.free != []
    ensures Quiet(s, Taken(s))
  {
    TakenFree(s);
    forall q | q in s.role && s.role[q].User?
      ensures q in s.pages && s.pages[q].Data? && |s.pages[q].bytes| == PGSIZE
    {
      assert s.PageOk(q);
    }
  }

  lemma TakenOk(s: Memory)
    requires s.Ok() && s.free != []
    ensures
      var t, c := Taken(s), s.free[0];
      && t.Ok() && c != 0 && c in s.pages && c !in s.role && t.pages.Keys == s.pages.Keys
      && forall r, l, k :: s.IsRoot(r) && 0 <= l <= 2 && 0 <= k < Span(l) * NPTE ==> SamePte(s, t, r, l, k)
  {
    TakenFree(s);
    TakenQuiet(s);
    QuietOk(s, Taken(s));
  }

  // kfree
  function Released(s: Memory, p: nat): Memory {
    s.(pages := s.pages[p := Junk(1)], free := [p] + s.free, role := s.role - {p})
  }

  lemma ReleasedOk(s: Memory, p: nat)
    requires s.Ok() && p in s.role && s.role[p] == Held
    ensures Released(s, p).Ok() && Released(s, p).pages.Keys == s.pages.Keys
    ensures forall r, l, k :: s.IsRoot(r) && 0 <= l <= 2 && 0 <= k < Span(l) * NPTE ==>
        SamePte(s, Released(s, p), r, l, k)
  {
    var t := Released(s, p);
    assert s.PageOk(p);
    forall q | q in t.pages
      ensures q in t.free <==> q !in t.role
    {
      assert s.PageOk(q);
    }
    forall q | q in s.role && s.role[q].User?
      ensures q in t.pages && t.pages[q].Data? && |t.pages[q].bytes| == PGSIZE
    {
      assert s.PageOk(q);
    }
    QuietOk(s, t);
  }

  /** kalloc gives out the page that kfree took last, and nothing else has changed. */
  lemma FreeThenTake(s: Memory, p: nat)
    requires s.Ok() && p in s.role && s.role[p] == Held
    ensures Released(s, p).Ok() && Released(s, p).free != []
    ensures Taken(Released(s, p)) == s.(pages := s.pages[p := Junk(5)])
  {
    ReleasedOk(s, p);
    var t := Released(s, p);
    assert t.free[1..] == s.free && (s.role - {p})[p := Held] == s.role;
    assert s.pages[p := Junk(1)][p := Junk(5)] == s.pages[p := Junk(5)];
  }

  /** A page just taken from the free list, cleared and hung into tree r: no translation changes. */
  lemma TableWidens(s: Memory, t: Memory, r: nat, l: nat, k: nat)
    requires s.Ok() && s.IsRoot(r) && s.free != [] && 1 <= l <= 2 && k < Span(l) * NPTE
    requires AddsTable(Taken(s), t, r, l, k, s.free[0])
    ensures Widened(s, t, r) && t.Tab(r, l - 1, k) == s.free[0] != 0
  {
    var m, c := Taken(s), s.free[0];
    TakenOk(s);
    TableAddedOk(m, t, r, l, k, c);
    TableRoles(s, m, t, r, l, k, c);
    forall r', v | s.IsRoot(r') && 0 <= v < NVPN
      ensures SamePte(s, t, r', 0, v)
    {
      assert SamePte(s, m, r', 0, v) && SamePte(m, t, r', 0, v);
    }
  }

  lemma TableRoles(s: Memory, m: Memory, t: Memory, r: nat, l: nat, k: nat, c: nat)
    requires AddsTable(m, t, r, l, k, c) && s.pages.Keys == m.pages.Keys && c in s.pages && c !in s.role
    requires m.role == s.role[c := Held] && m.pages == s.pages[c := Junk(5)] && forall p :: p in s.role ==> p in s.pages
    ensures t.pages.Keys == s.pages.Keys && forall q :: WidenOk(s, t, r, q)
  {
    assert m.TabOk(r, l, k / NPTE);
    forall q
      ensures WidenOk(s, t, r, q)
    {
    }
  }

  // ---------- what an operation on one tree leaves alone ----------

  predicate InTree(n: Role, r: nat) {
    !n.Held? && n.root == r
  }

  // Page q, unless it is the tree's or one of the n pages from h on, which are handed over, keeps
  // its role and contents; a page that comes into use goes to the tree or is handed over.
  ghost predicate TouchOk(s: Memory, t: Memory, r: nat, h: nat, n: nat, q: nat) {
    && (q in s.role && !InTree(s.role[q], r) && !(h <= q < h + n) ==>
          q in t.role && t.role[q] == s.role[q] && q in s.pages && q in t.pages && t.pages[q] == s.pages[q])
    && (q in t.role && (q !in s.role || InTree(s.role[q], r)) && !(h <= q < h + n) ==> InTree(t.role[q], r))
  }

  ghost predicate Touches(s: Memory, t: Memory, r: nat, h: nat, n: nat) {
    t.pages.Keys == s.pages.Keys && forall q :: TouchOk(s, t, r, h, n, q)
  }

  // Nothing outside tree r changes
  ghost predicate Within(s: Memory, t: Memory, r: nat) {
    Touches(s, t, r, 0, 0)
  }

  lemma WithinTwice(s: Memory, t: Memory, u: Memory, r: nat)
    requires Within(s, t, r) && Within(t, u, r)
    ensures Within(s, u, r)
  {
    forall q
      ensures TouchOk(s, u, r, 0, 0, q)
    {
      assert TouchOk(s, t, r, 0, 0, q) && TouchOk(t, u, r, 0, 0, q);
    }
  }

  lemma WidenedWithin(s: Memory, t: Memory, r: nat)
    requires Widened(s, t, r)
    ensures Within(s, t, r)
  {
    forall q
      ensures TouchOk(s, t, r, 0, 0, q)
    {
      assert WidenOk(s, t, r, q);
    }
  }

  /** An operation on one tree leaves every other tree's translations alone. */
  lemma {:induction false} OtherTabs(s: Memory, t: Memory, r: nat, r': nat, l: nat, j: nat)
    requires s.Ok() && Within(s, t, r) && s.IsRoot(r') && r' != r && l <= 2 && j < Span(l)
    ensures t.Tab(r', l, j) == s.Tab(r', l, j)
    decreases 3 - l
  {
    if l < 2 {
      SpanDivides(l, j);
      OtherTabs(s, t, r, r', l + 1, j / NPTE);
      assert s.TabOk(r', l + 1, j / NPTE);
      assert TouchOk(s, t, r, 0, 0, s.Tab(r', l + 1, j / NPTE));
    }
  }

  lemma OtherTranslations(s: Memory, t: Memory, r: nat, r': nat, v: nat)
    requires s.Ok() && Within(s, t, r) && s.IsRoot(r') && r' != r && v < NVPN
    ensures SamePte(s, t, r', 0, v)
  {
    OtherTabs(s, t, r, r', 0, v / NPTE);
    assert s.TabOk(r', 0, v / NPTE);
    assert TouchOk(s, t, r, 0, 0, s.Tab(r', 0, v / NPTE));
  }

  // ---------- ranges of virtual pages ----------

  function WithV(perm: PteFlags): PteFlags { perm | PTE_V }

  // The page may be mapped at v
  predicate Mappable(s: Memory, u: nat, v: nat) {
    if v < TRAPFRAME
    then u in s.role && s.role[u] == Held && u in s.pages && s.pages[u].Data? && |s.pages[u].bytes| == PGSIZE
    else u in s.pages ==> u in s.role && s.role[u] == Held
  }

  // Physical page q after it, among n pages from ppn on, has been mapped at a + (q - ppn)
  ghost predicate MappedPage(s: Memory, t: Memory, r: nat, a: nat, ppn: nat, q: nat)
    requires ppn <= q
  {
    && (q in s.pages ==> q in t.pages && t.pages[q] == s.pages[q])
    && (a < TRAPFRAME ==> q in t.role && t.role[q] == User(r, a + (q - ppn)))
    && (a >= TRAPFRAME ==> (q in t.role <==> q in s.role) && (q in s.role ==> t.role[q] == s.role[q]))
  }

  // Virtual page w when pages a..a+m-1 of tree r map physical pages ppn.. with flags f
  ghost predicate MapOk(s: Memory, t: Memory, r: nat, a: nat, ppn: nat, f: PteFlags, m: nat, w: nat) {
    t.At(r, 0, w) == if a <= w < a + m then Pte(ppn + (w - a), f) else s.At(r, 0, w)
  }

  ghost predicate MapsRange(s: Memory, t: Memory, r: nat, a: nat, ppn: nat, f: PteFlags, m: nat) {
    && t.Ok() && t.IsRoot(r) && t.pages.Keys == s.pages.Keys && |t.free| <= |s.free|
    && (forall w :: 0 <= w < NVPN ==> MapOk(s, t, r, a, ppn, f, m, w))
    && (forall q: nat :: ppn <= q < ppn + m || WidenOk(s, t, r, q))
    && (forall q :: ppn <= q < ppn + m ==> MappedPage(s, t, r, a, ppn, q))
  }

  lemma MapsNothing(s: Memory, t: Memory, r: nat, a: nat, ppn: nat, f: PteFlags)
    requires Widened(s, t, r)
    ensures MapsRange(s, t, r, a, ppn, f, 0)
  {
    forall w | 0 <= w < NVPN
      ensures MapOk(s, t, r, a, ppn, f, 0, w)
    {
      assert SamePte(s, t, r, 0, w);
    }
  }

  /** One page mapped, its tables made first. */
  lemma MapsOne(s: Memory, x: Memory, t: Memory, r: nat, v: nat, u: nat, f: PteFlags)
    requires Widened(s, x, r) && v < MAXVPN && Mappable(s, u, v)
    requires MapsLeaf(x, t, r, v, Pte(u, f))
    ensures MapsRange(s, t, r, v, u, f, 1)
  {
    var e := Pte(u, f);
    assert WidenOk(s, x, r, u);
    LeafSetOk(x, t, r, v, e);
    assert x.TabOk(r, 0, v / NPTE);
    forall w | 0 <= w < NVPN
      ensures MapOk(s, t, r, v, u, f, 1, w)
    {
      assert SamePte(s, x, r, 0, w);
      assert w != v ==> SamePte(x, t, r, 0, w);
    }
    forall q | q != u
      ensures WidenOk(s, t, r, q)
    {
      assert WidenOk(s, x, r, q);
    }
    assert MappedPage(s, t, r, v, u, u);
  }

  lemma MapsMore(s: Memory, t: Memory, x: Memory, r: nat, a: nat, ppn: nat, f: PteFlags, m: nat)
    requires MapsRange(s, t, r, a, ppn, f, m) && MapsRange(t, x, r, a + m, ppn + m, f, 1)
    requires a + m < TRAPFRAME && Mappable(s, ppn + m, a + m)
    ensures MapsRange(s, x, r, a, ppn, f, m + 1)
  {
    var n, p, b := m + 1, ppn + m, a + m;
    forall w | 0 <= w < NVPN
      ensures MapOk(s, x, r, a, ppn, f, n, w)
    {
      assert MapOk(s, t, r, a, ppn, f, m, w) && MapOk(t, x, r, b, p, f, 1, w);
    }
    forall q: nat | !(ppn <= q < ppn + n)
      ensures WidenOk(s, x, r, q)
    {
      assert WidenOk(s, t, r, q) && WidenOk(t, x, r, q);
    }
    forall q | ppn <= q < ppn + n
      ensures MappedPage(s, x, r, a, ppn, q)
    {
      if q < p {
        assert MappedPage(s, t, r, a, ppn, q) && WidenOk(t, x, r, q);
      } else {
        assert WidenOk(s, t, r, p) && MappedPage(t, x, r, b, p, p);
      }
    }
  }

  // Virtual page w when pages a..a+m-1 of tree r have been unmapped
  ghost predicate UnmapOk(s: Memory, t: Memory, r: nat, a: nat, m: nat, w: nat) {
    t.At(r, 0, w) == if a <= w < a + m then NoPte() else s.At(r, 0, w)
  }

  predicate IsLost(n: Role, r: nat, a: nat, m: nat) {
    n.User? && n.root == r && a <= n.vpn < a + m
  }

  // The user pages unmapped are free, and no other page changes hands or, apart from the tree's
  // tables, contents
  ghost predicate LostOk(s: Memory, t: Memory, r: nat, a: nat, m: nat, q: nat) {
    && (q in t.role <==> q in s.role && !IsLost(s.role[q], r, a, m))
    && (q in t.role ==> t.role[q] == s.role[q])
    && (q in t.role && !(t.role[q].Node? && t.role[q].root == r) ==>
         q in s.pages && q in t.pages && t.pages[q] == s.pages[q])
  }

  ghost predicate UnmapsRange(s: Memory, t: Memory, r: nat, a: nat, m: nat) {
    && t.Ok() && t.IsRoot(r) && t.pages.Keys == s.pages.Keys
    && (forall w :: 0 <= w < NVPN ==> UnmapOk(s, t, r, a, m, w))
    && (forall q :: LostOk(s, t, r, a, m, q))
  }

  lemma UnmapsNothing(s: Memory, r: nat, a: nat)
    requires s.Ok() && s.IsRoot(r)
    ensures UnmapsRange(s, s, r, a, 0)
  {
    forall w | 0 <= w < NVPN
      ensures UnmapOk(s, s, r, a, 0, w)
    {
    }
    forall q
      ensures LostOk(s, s, r, a, 0, q)
    {
    }
  }

  lemma UnmapsMore(s: Memory, t: Memory, x: Memory, r: nat, a: nat, m: nat)
    requires UnmapsRange(s, t, r, a, m) && UnmapsRange(t, x, r, a + m, 1)
    ensures UnmapsRange(s, x, r, a, m + 1)
  {
    var n, b := m + 1, a + m;
    forall w | 0 <= w < NVPN
      ensures UnmapOk(s, x, r, a, n, w)
    {
      assert UnmapOk(s, t, r, a, m, w) && UnmapOk(t, x, r, b, 1, w);
    }
    forall q
      ensures LostOk(s, x, r, a, n, q)
    {
      assert LostOk(s, t, r, a, m, q) && LostOk(t, x, r, b, 1, q);
    }
  }

  lemma UnmapsWithin(s: Memory, t: Memory, r: nat, a: nat, m: nat)
    requires UnmapsRange(s, t, r, a, m)
    ensures Within(s, t, r)
  {
    forall q
      ensures TouchOk(s, t, r, 0, 0, q)
    {
      assert LostOk(s, t, r, a, m, q);
    }
  }

  // v's leaf PTE is cleared; the page, if it is the tree's, is released
  ghost predicate Unmaps(s: Memory, t: Memory, r: nat, v: nat) {
    && s.Ok() && s.IsRoot(r) && v < MAXVPN && s.At(r, 0, v).Valid()
    && var p, u := s.Tab(r, 0, v / NPTE), s.At(r, 0, v).ppn;
       && p != 0 && p in s.pages && s.pages[p].Table? && |s.pages[p].ptes| == NPTE
       && var ptes := s.pages[p].ptes[v % NPTE := NoPte()];
          if v < TRAPFRAME
          then u != p && t == Memory(s.pages[u := Junk(1)][p := Table(ptes)], [u] + s.free, s.role - {u})
          else t == s.(pages := s.pages[p := Table(ptes)])
  }

  // The leaf cleared, the page not yet released
  ghost function Cleared(s: Memory, r: nat, v: nat): Memory {
    var p, u := s.Tab(r, 0, v / NPTE), s.At(r, 0, v).ppn;
    if p in s.pages && s.pages[p].Table? && |s.pages[p].ptes| == NPTE
    then s.(pages := s.pages[p := Table(s.pages[p].ptes[v % NPTE := NoPte()])],
            role := if v < TRAPFRAME then s.role[u := Held] else s.role)
    else s
  }

  lemma UnmapsOne(s: Memory, t: Memory, r: nat, v: nat)
    requires Unmaps(s, t, r, v)
    ensures UnmapsRange(s, t, r, v, 1)
  {
    var u, m := s.At(r, 0, v).ppn, Cleared(s, r, v);
    assert s.TabOk(r, 0, v / NPTE) && s.LeafOk(r, v);
    assert ClearsLeaf(s, m, r, v);
    LeafSetOk(s, m, r, v, NoPte());
    if v < TRAPFRAME {
      UnmapsReleased(s, t, r, v);
      ReleasedOk(m, u);
    }
    forall w | 0 <= w < NVPN
      ensures UnmapOk(s, t, r, v, 1, w)
    {
      assert w != v ==> SamePte(s, m, r, 0, w);
      assert v < TRAPFRAME ==> SamePte(m, t, r, 0, w);
    }
    UnmapsOneRoles(s, t, r, v);
  }

  // The source frees the page before it clears the PTE, with the same outcome
  lemma UnmapsReleased(s: Memory, t: Memory, r: nat, v: nat)
    requires Unmaps(s, t, r, v) && v < TRAPFRAME
    ensures t == Released(Cleared(s, r, v), s.At(r, 0, v).ppn)
  {
    var p, u := s.Tab(r, 0, v / NPTE), s.At(r, 0, v).ppn;
    assert s.LeafOk(r, v);
    assert t.pages == s.pages[p := Table(s.pages[p].ptes[v % NPTE := NoPte()])][u := Junk(1)];
  }

  lemma UnmapsOneRoles(s: Memory, t: Memory, r: nat, v: nat)
    requires Unmaps(s, t, r, v)
    ensures forall q :: LostOk(s, t, r, v, 1, q)
  {
    assert s.TabOk(r, 0, v / NPTE) && s.LeafOk(r, v);
    forall q
      ensures LostOk(s, t, r, v, 1, q)
    {
      if q in s.role {
        assert s.PageOk(q);
      }
    }
  }

  // ---------- growing and shrinking user memory ----------

  const UserFlags: PteFlags := PTE_V | PTE_R | PTE_W | PTE_X | PTE_U

  // Page c taken from the free list and filled with data
  ghost predicate Gets(s: Memory, x: Memory, c: nat, data: Page) {
    && s.Ok() && s.free != [] && c == s.free[0] && data.Data? && |data.bytes| == PGSIZE
    && x == Memory(s.pages[c := data], s.free[1..], s.role[c := Held])
  }

  lemma GetsOk(s: Memory, x: Memory, c: nat, data: Page)
    requires Gets(s, x, c, data)
    ensures x.Ok() && c != 0 && c in s.pages && c !in s.role && x.pages.Keys == s.pages.Keys
    ensures forall r, v :: s.IsRoot(r) && 0 <= v < NVPN ==> SamePte(s, x, r, 0, v)
  {
    TakenFree(s);
    TakenQuiet(s);
    var m := Taken(s);
    assert x.free == m.free && x.role == m.role;
    assert FreeOk(x);
    QuietOk(s, x);
  }

  // Page q when m user pages from a on have been added to tree r
  ghost predicate GrowOk(s: Memory, t: Memory, r: nat, a: nat, m: nat, q: nat) {
    && (q in s.role ==> q in t.role && t.role[q] == s.role[q])
    && (q in s.role && !(s.role[q].Node? && s.role[q].root == r) ==>
         q in s.pages && q in t.pages && t.pages[q] == s.pages[q])
    && (q in t.role && q !in s.role ==>
         (t.role[q].Node? && t.role[q].root == r && t.role[q].level < 2) || IsLost(t.role[q], r, a, m))
  }

  // Virtual page w maps a page with the contents and flags given by pg and f
  ghost predicate MapsTo(t: Memory, r: nat, w: nat, pg: Page, f: PteFlags) {
    var e := t.At(r, 0, w);
    e.Valid() && e.flags == f && e.ppn in t.pages && t.pages[e.ppn] == pg
  }

  ghost predicate GrownPage(s: Memory, t: Memory, r: nat, a: nat, m: nat, pg: nat -> Page, f: nat -> PteFlags, w: nat) {
    if a <= w < a + m then MapsTo(t, r, w, pg(w), f(w)) else SamePte(s, t, r, 0, w)
  }

  ghost predicate Grown(s: Memory, t: Memory, r: nat, a: nat, m: nat, pg: nat -> Page, f: nat -> PteFlags) {
    && s.Ok() && t.Ok() && s.IsRoot(r) && t.IsRoot(r) && t.pages.Keys == s.pages.Keys && |t.free| + m <= |s.free|
    && (forall q :: GrowOk(s, t, r, a, m, q))
    && (forall w :: 0 <= w < NVPN ==> GrownPage(s, t, r, a, m, pg, f, w))
  }

  lemma GrownNothing(s: Memory, r: nat, a: nat, pg: nat -> Page, f: nat -> PteFlags)
    requires s.Ok() && s.IsRoot(r)
    ensures Grown(s, s, r, a, 0, pg, f)
  {
    forall w | 0 <= w < NVPN
      ensures GrownPage(s, s, r, a, 0, pg, f, w)
    {
    }
    forall q
      ensures GrowOk(s, s, r, a, 0, q)
    {
    }
  }

  lemma GrownMore(s: Memory, t: Memory, x: Memory, y: Memory, c: nat, r: nat, a: nat, m: nat, pg: nat -> Page,
      f: nat -> PteFlags)
    requires Grown(s, t, r, a, m, pg, f) && a + m < TRAPFRAME && Gets(t, x, c, pg(a + m)) && f(a + m) & PTE_V != 0
    requires MapsRange(x, y, r, a + m, c, f(a + m), 1)
    ensures Grown(s, y, r, a, m + 1, pg, f)
  {
    GetsOk(t, x, c, pg(a + m));
    var n := m + 1;
    forall w | 0 <= w < NVPN
      ensures GrownPage(s, y, r, a, n, pg, f, w)
    {
      assert GrownPage(s, t, r, a, m, pg, f, w) && SamePte(t, x, r, 0, w);
      GrownMorePage(s, t, x, y, c, r, a, m, pg, f, w);
    }
    GrownMoreRoles(s, t, x, y, c, r, a, m, n, f(a + m));
  }

  lemma GrownMorePage(s: Memory, t: Memory, x: Memory, y: Memory, c: nat, r: nat, a: nat, m: nat, pg: nat -> Page,
      f: nat -> PteFlags, w: nat)
    requires t.Ok() && t.IsRoot(r) && a + m < TRAPFRAME && Gets(t, x, c, pg(a + m)) && f(a + m) & PTE_V != 0
    requires MapsRange(x, y, r, a + m, c, f(a + m), 1) && w < NVPN && c !in t.role && c in t.pages
    requires GrownPage(s, t, r, a, m, pg, f, w) && SamePte(t, x, r, 0, w)
    ensures GrownPage(s, y, r, a, m + 1, pg, f, w)
  {
    var b := a + m;
    assert MapOk(x, y, r, b, c, f(b), 1, w);
    if w == b {
      assert y.At(r, 0, w) == Pte(c, f(b));
      assert MappedPage(x, y, r, b, c, c);
    } else if a <= w < b {
      assert t.LeafOk(r, w) && WidenOk(x, y, r, t.At(r, 0, w).ppn);
    }
  }

  lemma GrownMoreRoles(s: Memory, t: Memory, x: Memory, y: Memory, c: nat, r: nat, a: nat, m: nat, n: nat, f: PteFlags)
    requires (forall q :: GrowOk(s, t, r, a, m, q)) && x.role == t.role[c := Held] && c !in t.role
    requires a + m < TRAPFRAME && n == m + 1
    requires (forall q :: q in t.role ==> q in x.pages && q in t.pages && x.pages[q] == t.pages[q])
    requires MapsRange(x, y, r, a + m, c, f, 1)
    ensures forall q :: GrowOk(s, y, r, a, n, q)
  {
    forall q
      ensures GrowOk(s, y, r, a, n, q)
    {
      assert GrowOk(s, t, r, a, m, q);
      if q == c {
        assert MappedPage(x, y, r, a + m, c, c);
      } else {
        assert WidenOk(x, y, r, q);
      }
    }
  }

  /** Growth undone: only page-table pages are left over. */
  lemma GrownUndone(s: Memory, t: Memory, x: Memory, r: nat, a: nat, m: nat, pg: nat -> Page, f: nat -> PteFlags)
    requires Grown(s, t, r, a, m, pg, f) && UnmapsRange(t, x, r, a, m)
    requires forall w :: a <= w < a + m && w < NVPN ==> s.At(r, 0, w) == NoPte()
    ensures x.Ok() && forall q :: WidenOk(s, x, r, q)
    ensures forall w :: 0 <= w < NVPN ==> SamePte(s, x, r, 0, w)
  {
    forall q
      ensures WidenOk(s, x, r, q)
    {
      assert GrowOk(s, t, r, a, m, q) && LostOk(t, x, r, a, m, q);
      if q in s.role {
        assert s.PageOk(q);
      }
    }
    forall w | 0 <= w < NVPN
      ensures SamePte(s, x, r, 0, w)
    {
      assert GrownPage(s, t, r, a, m, pg, f, w) && UnmapOk(t, x, r, a, m, w);
    }
  }

  function ZeroAt(w: nat): Page { ZeroPage() }
  function UserAt(w: nat): PteFlags { UserFlags }

  /** A page taken for growth, and given back when it could not be mapped. */
  lemma GrownRetreat(s: Memory, t: Memory, x: Memory, y: Memory, c: nat, r: nat, a: nat, m: nat, pg: nat -> Page,
      f: nat -> PteFlags, data: Page)
    requires Grown(s, t, r, a, m, pg, f) && Gets(t, x, c, data) && Widened(x, y, r) && a + m <= TRAPFRAME
    ensures c in y.pages && Released(y, c).Ok() && Grown(s, Released(y, c), r, a, m, pg, f)
  {
    GetsOk(t, x, c, data);
    assert WidenOk(x, y, r, c);
    ReleasedOk(y, c);
    var z := Released(y, c);
    forall q
      ensures GrowOk(s, z, r, a, m, q)
    {
      assert GrowOk(s, t, r, a, m, q) && WidenOk(x, y, r, q);
    }
    forall w | 0 <= w < NVPN
      ensures GrownPage(s, z, r, a, m, pg, f, w)
    {
      assert GrownPage(s, t, r, a, m, pg, f, w) && SamePte(t, x, r, 0, w) && SamePte(x, y, r, 0, w)
        && SamePte(y, z, r, 0, w);
      if a <= w < a + m {
        assert t.LeafOk(r, w) && WidenOk(x, y, r, t.At(r, 0, w).ppn);
      }
    }
  }

  lemma {:induction false} DistinctCount(f: seq<nat>, u: set<nat>)
    requires (forall i, j :: 0 <= i < j < |f| ==> f[i] != f[j]) && forall p :: p in f <==> p in u
    ensures |f| == |u|
  {
    if f == [] {
      assert u == {};
    } else {
      var g := f[1..];
      assert f == [f[0]] + g;
      assert f[0] !in g;
      forall p
        ensures p in g <==> p in u - {f[0]}
      {
        assert p in f <==> p == f[0] || p in g;
      }
      DistinctCount(g, u - {f[0]});
    }
  }

  ghost predicate FreeIffUnused(s: Memory, p: nat) {
    p in s.free <==> p in s.pages && p !in s.role
  }

  /** The free list holds exactly the managed pages that are not in use, each once. */
  lemma FreeCount(s: Memory)
    requires s.Ok()
    ensures |s.free| == |s.pages.Keys - s.role.Keys| && forall p :: FreeIffUnused(s, p)
  {
    forall p
      ensures FreeIffUnused(s, p)
    {
      if p in s.pages {
        assert s.PageOk(p);
      }
    }
    forall p
      ensures p in s.free <==> p in s.pages.Keys - s.role.Keys
    {
      assert FreeIffUnused(s, p);
    }
    DistinctCount(s.free, s.pages.Keys - s.role.Keys);
  }

  lemma SubsetCount(a: set<nat>, b: set<nat>)
    requires a <= b
    ensures |a| <= |b|
  {
    assert b == a + (b - a);
  }

  lemma FewerFree(s: Memory, t: Memory)
    requires s.Ok() && t.Ok() && t.pages.Keys == s.pages.Keys && forall q :: q in s.role ==> q in t.role
    ensures |t.free| <= |s.free|
  {
    FreeCount(s);
    FreeCount(t);
    SubsetCount(t.pages.Keys - t.role.Keys, s.pages.Keys - s.role.Keys);
  }
}
