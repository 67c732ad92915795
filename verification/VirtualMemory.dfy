/** The page allocator and the page-table code. Addresses are split into a page number and an
    offset; a physical page is named by its number. */
module VirtualMemory {
  import opened PageTable

  class Machine {
    var pages: map<nat, Page>
    var free: seq<nat>            // kmem.freelist
    ghost var role: map<nat, Role>
    ghost var misses: nat         // how often kalloc has found no page

    ghost function Now(): Memory
      reads this
    {
      Memory(pages, free, role)
    }

    ghost predicate Valid()
      reads this
    {
      Now().Ok()
    }

    /** freerange: every whole page between two physical addresses, and no other, becomes free. */
    constructor (start: nat, end: nat)
      requires 0 < start
      ensures Valid() && role == map[]
      ensures forall p: nat :: p in free <==> start <= p * PGSIZE && (p + 1) * PGSIZE <= end
    {
      pages := map p | p in PageRange(Pages(start), end / PGSIZE) :: Junk(0);
      free := [];
      role, misses := map[], 0;
      new;
      var p := Pages(start);
      while (p + 1) * PGSIZE <= end
        invariant Pages(start) <= p && (p <= end / PGSIZE || p == Pages(start)) && role == map[]
        invariant forall q :: q in pages <==> Pages(start) <= q < end / PGSIZE
        invariant Now().Distinct() && forall q :: q in free <==> Pages(start) <= q < p
      {
        ghost var f := free;
        Kfree(p);
        assert free == [p] + f && p !in f;
        p := p + 1;
      }
      AllFree(Now());
    }

    /** Takes the first free page, or returns 0 when there is none. That is the only way in which the
        operations below can fail: their contracts say so with misses. */
    method Kalloc() returns (c: nat)
      requires Valid()
      modifies this
      ensures Valid() && (c == 0 <==> old(free) == [])
      ensures if c == 0 then Now() == old(Now()) else c == old(free)[0] && Now() == Taken(old(Now()))
      ensures misses == old(misses) + if c == 0 then 1 else 0
    {
      if free == [] {
        misses := misses + 1;
        return 0;
      }
      TakenOk(Now());
      c := free[0];
      free := free[1..];
      pages := pages[c := Junk(5)];
      role := role[c := Held];
    }

    /** Puts a page back. The source panics on an address that is not one of its pages. */
    method Kfree(p: nat)
      requires p in pages
      modifies this
      ensures Now() == Released(old(Now()), p)
      ensures misses == old(misses)
    {
      pages := pages[p := Junk(1)];
      free := [p] + free;
      role := role - {p};
    }

    // One level of walk: from table p, through its PTE i, to the next table
    method Descend(p: nat, i: nat, alloc: bool, ghost r: nat, ghost l: nat, ghost k: nat) returns (q: nat)
      requires Valid() && Now().IsRoot(r) && 1 <= l <= 2 && k < Span(l) * NPTE
      requires p == Now().Tab(r, l, k / NPTE) != 0 && i == k % NPTE
      modifies this
      ensures Widened(old(Now()), Now(), r) && (q != 0 ==> Now().Tab(r, l - 1, k) == q)
      ensures q == 0 || !alloc ==> Now() == old(Now())
      ensures q == 0 ==> Now().Tab(r, l - 1, k) == 0 && (alloc ==> free == [])
      ensures misses == old(misses) + if q == 0 && alloc then 1 else 0
    {
      ghost var s := Now();
      assert s.TabOk(r, l, k / NPTE) && s.InnerOk(r, l, k);
      assert s.PageOk(p);
      var pte := pages[p].ptes[i];
      WidenedSelf(s, r);
      if pte.Valid() {
        return pte.ppn;
      }
      if !alloc {
        return 0;
      }
      q := Kalloc();
      if q == 0 {
        return 0;
      }
      pages := pages[q := EmptyTable()];
      pages := pages[p := Table(pages[p].ptes[i := Pte(q, PTE_V)])];
      role := role[q := Node(r, l - 1, k)];
      TakenOk(s);
      TableHung(s, Now(), r, l, k);
    }

    /** The table that holds v's leaf PTE, or 0 if there is none. With alloc, missing tables are
        made, which changes no translation; it fails only when memory has run out. The source
        panics at v = MAXVA and above. */
    method Walk(r: nat, v: nat, alloc: bool) returns (p: nat)
      requires Valid() && Now().IsRoot(r) && v < MAXVPN
      modifies this
      ensures Widened(old(Now()), Now(), r) && p == Now().Tab(r, 0, v / NPTE)
      ensures !alloc ==> Now() == old(Now())
      ensures alloc && p == 0 ==> free == []
      ensures misses == old(misses) + if p == 0 && alloc then 1 else 0
    {
      ghost var s := Now();
      var px2, px1 := v / NPTE / NPTE, v / NPTE % NPTE;
      p := Descend(r, px2, alloc, r, 2, px2);
      if p == 0 {
        return;
      }
      ghost var t := Now();
      p := Descend(p, px1, alloc, r, 1, v / NPTE);
      WidenedTwice(s, t, Now(), r);
    }

    /** Maps the pages that va .. va+size-1 touches to physical pages from pa on, and no other.
        Fails only when a table is missing and memory has run out; the pages mapped so far then
        stay mapped. The source panics on a page that is mapped already. */
    method Mappages(r: nat, va: nat, size: nat, pa: nat, perm: PteFlags) returns (ok: bool, ghost m: nat)
      requires Valid() && Now().IsRoot(r) && size > 0 && perm & (PTE_R | PTE_W | PTE_X) != 0
      requires (va + size - 1) / PGSIZE < TRAPFRAME
          || (va / PGSIZE == (va + size - 1) / PGSIZE < MAXVPN && perm & PTE_U == 0)
      requires forall w :: va / PGSIZE <= w <= (va + size - 1) / PGSIZE ==>
          MayMap(Now(), r, va / PGSIZE, pa / PGSIZE, w)
      modifies this
      ensures MapsRange(old(Now()), Now(), r, va / PGSIZE, pa / PGSIZE, WithV(perm), m)
      ensures m <= (va + size - 1) / PGSIZE - va / PGSIZE + 1
      ensures (m == (va + size - 1) / PGSIZE - va / PGSIZE + 1 <==> ok)
      ensures !ok ==> free == []
      ensures misses == old(misses) + if ok then 0 else 1
    {
      ok, m := MapLoop(r, va / PGSIZE, (va + size - 1) / PGSIZE, pa / PGSIZE, perm);
    }

    method MapLoop(r: nat, first: nat, last: nat, pa: nat, perm: PteFlags) returns (ok: bool, ghost m: nat)
      requires Valid() && Now().IsRoot(r) && first <= last && perm & (PTE_R | PTE_W | PTE_X) != 0
      requires last < TRAPFRAME || (first == last < MAXVPN && perm & PTE_U == 0)
      requires forall w :: first <= w <= last ==> MayMap(Now(), r, first, pa, w)
      modifies this
      ensures MapsRange(old(Now()), Now(), r, first, pa, WithV(perm), m)
      ensures m <= last - first + 1 && (m == last - first + 1 <==> ok)
      ensures !ok ==> free == []
      ensures misses == old(misses) + if ok then 0 else 1
    {
      ghost var s := Now();
      var a, ppn := first, pa;
      assert MayMap(s, r, first, pa, a);
      ok := MapOne(r, a, ppn, perm);
      m := if ok then 1 else 0;
      while ok && a != last
        invariant first <= a <= last && ppn == pa + (a - first) && m == a - first + if ok then 1 else 0
        invariant MapsRange(s, Now(), r, first, pa, WithV(perm), m)
        invariant (!ok ==> free == []) && misses == old(misses) + if ok then 0 else 1
        decreases last - a
      {
        a := a + 1;
        ppn := ppn + 1;
        ghost var t, was := Now(), m;
        StillMayMap(s, t, r, first, pa, WithV(perm), m, a);
        ok := MapOne(r, a, ppn, perm);
        m := if ok then was + 1 else was;
        MapsStep(s, t, Now(), r, first, pa, WithV(perm), was, ok);
      }
    }

    // The body of mappages' loop
    method MapOne(r: nat, a: nat, ppn: nat, perm: PteFlags) returns (ok: bool)
      requires Valid() && Now().IsRoot(r) && a < MAXVPN && perm & (PTE_R | PTE_W | PTE_X) != 0
      requires !Now().At(r, 0, a).Valid() && Mappable(Now(), ppn, a) && (a >= TRAPFRAME ==> perm & PTE_U == 0)
      modifies this
      ensures MapsRange(old(Now()), Now(), r, a, ppn, WithV(perm), if ok then 1 else 0)
      ensures !ok ==> free == [] && Widened(old(Now()), Now(), r)
      ensures misses == old(misses) + if ok then 0 else 1
    {
      ghost var s := Now();
      var p := Walk(r, a, true);
      ghost var x := Now();
      assert SamePte(s, x, r, 0, a);
      if p == 0 {
        MapsNothing(s, x, r, a, ppn, WithV(perm));
        return false;
      }
      assert x.TabOk(r, 0, a / NPTE) && x.PageOk(p) && WidenOk(s, x, r, ppn);
      pages := pages[p := Table(pages[p].ptes[a % NPTE := Pte(ppn, WithV(perm))])];
      if a < TRAPFRAME {
        role := role[ppn := User(r, a)];
      }
      MapsOne(s, x, Now(), r, a, ppn, WithV(perm));
      return true;
    }

    // The body of uvmunmap's loop
    method UnmapOne(r: nat, v: nat, doFree: bool)
      requires Valid() && Now().IsRoot(r) && v < MAXVPN && doFree == (v < TRAPFRAME) && Now().At(r, 0, v).Valid()
      modifies this
      ensures UnmapsRange(old(Now()), Now(), r, v, 1)
      ensures misses == old(misses)
    {
      ghost var s := Now();
      var p := Walk(r, v, false);
      assert s.TabOk(r, 0, v / NPTE) && s.LeafOk(r, v) && s.PageOk(p);
      var pte := pages[p].ptes[v % NPTE];
      if doFree {
        assert s.PageOk(pte.ppn);
        Kfree(pte.ppn);
      }
      pages := pages[p := Table(pages[p].ptes[v % NPTE := NoPte()])];
      UnmapsOne(s, Now(), r, v);
    }

    /** Unmaps n pages from page v on, and no other; their memory is freed if it is the tree's.
        The source panics on a page that is not mapped. */
    method Uvmunmap(r: nat, v: nat, n: nat, doFree: bool)
      requires Valid() && Now().IsRoot(r) && v + n <= (if doFree then TRAPFRAME else MAXVPN)
      requires (!doFree ==> TRAPFRAME <= v)
      requires forall w :: v <= w < v + n ==> Now().At(r, 0, w).Valid()
      modifies this
      ensures UnmapsRange(old(Now()), Now(), r, v, n)
      ensures misses == old(misses)
    {
      ghost var s := Now();
      var a := v;
      UnmapsNothing(s, r, v);
      while a < v + n
        invariant v <= a <= v + n && UnmapsRange(s, Now(), r, v, a - v) && misses == old(misses)
      {
        ghost var t := Now();
        assert UnmapOk(s, t, r, v, a - v, a);
        UnmapOne(r, a, doFree);
        UnmapsMore(s, t, Now(), r, v, a - v);
        a := a + 1;
      }
    }

    // kalloc, memmove of the data, mappages; kfree if that fails
    method GrowOne(r: nat, a: nat, data: Page, perm: PteFlags, ghost s: Memory, ghost first: nat, ghost m: nat,
        ghost pg: nat -> Page, ghost f: nat -> PteFlags)
      returns (ok: bool)
      requires first + m == a < TRAPFRAME && Grown(s, Now(), r, first, m, pg, f)
      requires data.Data? && |data.bytes| == PGSIZE && pg(a) == data && perm & (PTE_R | PTE_W | PTE_X) != 0
      requires f(a) == WithV(perm)
      requires s.At(r, 0, a) == NoPte()
      modifies this
      ensures Grown(s, Now(), r, first, if ok then m + 1 else m, pg, f)
      ensures misses == old(misses) + if ok then 0 else 1
    {
      ghost var t := Now();
      assert GrownPage(s, t, r, first, m, pg, f, a);
      var mem := TakePage(data);
      if mem == 0 {
        return false;
      }
      ghost var x := Now();
      assert SamePte(t, x, r, 0, a);
      ok := MapOne(r, a, mem, perm);
      if ok {
        GrownMore(s, t, x, Now(), mem, r, first, m, pg, f);
      } else {
        GrownRetreat(s, t, x, Now(), mem, r, first, m, pg, f, data);
        Kfree(mem);
      }
    }

    // A page of memory, filled with data
    method TakePage(data: Page) returns (mem: nat)
      requires Valid() && data.Data? && |data.bytes| == PGSIZE
      modifies this
      ensures Valid() && (mem == 0 <==> old(free) == []) && (mem == 0 ==> Now() == old(Now()))
      ensures mem != 0 ==> Gets(old(Now()), Now(), mem, data) && mem !in old(role) && mem in old(pages)
      ensures mem != 0 ==> forall r, v :: old(Now()).IsRoot(r) && 0 <= v < NVPN ==> SamePte(old(Now()), Now(), r, 0, v)
      ensures misses == old(misses) + if mem == 0 then 1 else 0
    {
      ghost var t := Now();
      mem := Kalloc();
      if mem != 0 {
        pages := pages[mem := data];
        assert Gets(t, Now(), mem, data);
        GetsOk(t, Now(), mem, data);
      }
    }

    /** Shrinks user memory: the pages past the new size are unmapped and freed. */
    method Uvmdealloc(r: nat, oldsz: nat, newsz: nat) returns (ret: nat)
      requires Valid() && Now().IsRoot(r) && Pages(oldsz) <= TRAPFRAME
      requires forall w :: Pages(newsz) <= w < Pages(oldsz) ==> Now().At(r, 0, w).Valid()
      modifies this
      ensures ret == if newsz >= oldsz then oldsz else newsz
      ensures UnmapsRange(old(Now()), Now(), r, Pages(newsz),
          if Pages(newsz) < Pages(oldsz) then Pages(oldsz) - Pages(newsz) else 0)
      ensures misses == old(misses)
    {
      UnmapsNothing(Now(), r, Pages(newsz));
      if newsz >= oldsz {
        return oldsz;
      }
      if Pages(newsz) < Pages(oldsz) {
        Uvmunmap(r, Pages(newsz), Pages(oldsz) - Pages(newsz), true);
      }
      return newsz;
    }

    /** Grows user memory from oldsz to newsz bytes with zeroed pages. On failure every
        translation is as it was: only page-table pages may be left over. Memory runs out long
        before the addresses do. */
    method Uvmalloc(r: nat, oldsz: nat, newsz: nat) returns (ret: nat, ghost m: nat, ghost ok: bool)
      requires Valid() && Now().IsRoot(r) && Pages(oldsz) + |free| < TRAPFRAME
      requires forall w :: Pages(oldsz) <= w < TRAPFRAME ==> Now().At(r, 0, w) == NoPte()
      modifies this
      ensures ok ==>
          ret == (if newsz < oldsz then oldsz else newsz)
          && m == (if newsz < oldsz then 0 else Pages(newsz) - Pages(oldsz))
      ensures ok ==> Grown(old(Now()), Now(), r, Pages(oldsz), m, ZeroAt, UserAt)
      ensures !ok ==> ret == 0 && newsz > oldsz && Widened(old(Now()), Now(), r)
      ensures misses == old(misses) + if ok then 0 else 1
    {
      ghost var s := Now();
      GrownNothing(s, r, Pages(oldsz), ZeroAt, UserAt);
      if newsz < oldsz {
        return oldsz, 0, true;
      }
      var a := Pages(oldsz);
      PagesMonotone(oldsz, newsz);
      while a * PGSIZE < newsz
        invariant Pages(oldsz) <= a <= Pages(newsz)
        invariant Grown(s, Now(), r, Pages(oldsz), a - Pages(oldsz), ZeroAt, UserAt) && misses == old(misses)
      {
        var more := GrowOne(r, a, ZeroPage(), PTE_W | PTE_X | PTE_R | PTE_U, s, Pages(oldsz), a - Pages(oldsz),
          ZeroAt, UserAt);
        if !more {
          ghost var t := Now();
          forall w | Pages(oldsz) <= w < a
            ensures t.At(r, 0, w).Valid()
          {
            assert GrownPage(s, t, r, Pages(oldsz), a - Pages(oldsz), ZeroAt, UserAt, w);
          }
          var _ := Uvmdealloc(r, a * PGSIZE, oldsz);
          GrownUndone(s, t, Now(), r, Pages(oldsz), a - Pages(oldsz), ZeroAt, UserAt);
          UndoneWidened(s, Now(), r);
          return 0, 0, false;
        }
        a := a + 1;
      }
      return newsz, a - Pages(oldsz), true;
    }
  }

  function PageRange(lo: nat, hi: nat): (s: set<nat>)
    ensures forall p :: p in s <==> lo <= p < hi
    decreases hi - lo
  {
    if lo >= hi then {} else {lo} + PageRange(lo + 1, hi)
  }

  lemma AllFree(s: Memory)
    requires s.role == map[] && 0 !in s.pages && s.Distinct() && forall p :: p in s.free <==> p in s.pages
    ensures s.Ok()
  {
  }

  lemma PagesMonotone(x: nat, y: nat)
    requires x <= y
    ensures Pages(x) <= Pages(y)
    ensures forall a: nat {:trigger Pages(a * PGSIZE)} :: Pages(a * PGSIZE) == a
    ensures forall a: nat {:trigger a * PGSIZE} :: a * PGSIZE < y <==> a < Pages(y)
  {
  }

  lemma UndoneWidened(s: Memory, x: Memory, r: nat)
    requires s.Ok() && s.IsRoot(r) && x.Ok() && x.IsRoot(r) && x.pages.Keys == s.pages.Keys
    requires (forall q :: WidenOk(s, x, r, q)) && forall w :: 0 <= w < NVPN ==> SamePte(s, x, r, 0, w)
    ensures Widened(s, x, r)
  {
    forall q | q in s.role
      ensures q in x.role
    {
      assert WidenOk(s, x, r, q);
    }
    FewerFree(s, x);
    forall q
      ensures TouchOk(s, x, r, 0, 0, q)
    {
      assert WidenOk(s, x, r, q);
    }
    forall r', v | s.IsRoot(r') && 0 <= v < NVPN
      ensures SamePte(s, x, r', 0, v)
    {
      if r' != r {
        OtherTranslations(s, x, r, r', v);
      }
    }
  }

  function Pages(sz: nat): nat { (sz + PGSIZE - 1) / PGSIZE }

  // Virtual page w is free in tree r, and page ppn + (w - first) may be mapped there
  ghost predicate MayMap(s: Memory, r: nat, first: nat, ppn: nat, w: nat)
    requires first <= w
  {
    !s.At(r, 0, w).Valid() && Mappable(s, ppn + (w - first), w)
  }

  lemma StillMayMap(s: Memory, t: Memory, r: nat, first: nat, ppn: nat, f: PteFlags, m: nat, a: nat)
    requires s.IsRoot(r) && MapsRange(s, t, r, first, ppn, f, m) && a == first + m < TRAPFRAME
    requires MayMap(s, r, first, ppn, a)
    ensures t.Ok() && t.IsRoot(r) && !t.At(r, 0, a).Valid() && Mappable(t, ppn + m, a)
  {
    var q := ppn + m;
    assert MapOk(s, t, r, first, ppn, f, m, a) && WidenOk(s, t, r, q);
  }

  lemma MapsStep(s: Memory, t: Memory, x: Memory, r: nat, a: nat, ppn: nat, f: PteFlags, m: nat, ok: bool)
    requires MapsRange(s, t, r, a, ppn, f, m) && MapsRange(t, x, r, a + m, ppn + m, f, if ok then 1 else 0)
    requires a + m < TRAPFRAME && Mappable(s, ppn + m, a + m) && (ok || Widened(t, x, r))
    ensures MapsRange(s, x, r, a, ppn, f, if ok then m + 1 else m)
  {
    if ok {
      MapsMore(s, t, x, r, a, ppn, f, m);
    } else {
      MapsWider(s, t, x, r, a, ppn, f, m);
    }
  }

  lemma MapsWider(s: Memory, t: Memory, x: Memory, r: nat, a: nat, ppn: nat, f: PteFlags, m: nat)
    requires MapsRange(s, t, r, a, ppn, f, m) && Widened(t, x, r) && a < TRAPFRAME
    ensures MapsRange(s, x, r, a, ppn, f, m)
  {
    forall w | 0 <= w < NVPN
      ensures MapOk(s, x, r, a, ppn, f, m, w)
    {
      assert MapOk(s, t, r, a, ppn, f, m, w) && SamePte(t, x, r, 0, w);
    }
    forall q: nat | !(ppn <= q < ppn + m)
      ensures WidenOk(s, x, r, q)
    {
      assert WidenOk(s, t, r, q) && WidenOk(t, x, r, q);
    }
    forall q | ppn <= q < ppn + m
      ensures MappedPage(s, x, r, a, ppn, q)
    {
      assert MappedPage(s, t, r, a, ppn, q) && WidenOk(t, x, r, q);
    }
  }

  lemma TableHung(s: Memory, t: Memory, r: nat, l: nat, k: nat)
    requires s.Ok() && s.IsRoot(r) && s.free != [] && 1 <= l <= 2 && k < Span(l) * NPTE
    requires !s.At(r, l, k).Valid()
    requires
      var c, p := s.free[0], s.Tab(r, l, k / NPTE);
      && p != 0 && p in s.pages && s.pages[p].Table? && |s.pages[p].ptes| == NPTE && p != c
      && t == Memory(s.pages[c := Junk(5)][c := EmptyTable()][p := Table(s.pages[p].ptes[k % NPTE := Pte(c, PTE_V)])],
                     s.free[1..], s.role[c := Held][c := Node(r, l - 1, k)])
    ensures Widened(s, t, r) && t.Tab(r, l - 1, k) == s.free[0] != 0
  {
    var m, c := Taken(s), s.free[0];
    TakenOk(s);
    TakenQuiet(s);
    assert s.TabOk(r, l, k / NPTE);
    QuietPte(s, m, r, l, k);
    assert m.pages[c := EmptyTable()] == s.pages[c := EmptyTable()];
    assert AddsTable(m, t, r, l, k, c);
    TableWidens(s, t, r, l, k);
  }
}
