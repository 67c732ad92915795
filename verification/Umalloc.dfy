/** The user-level memory allocator, after Kernighan and Ritchie, The C Programming Language, 2nd
    edition, section 8.7: a circular list of free blocks in address order. Addresses are bytes;
    sizes are in units of one header. */
module Umalloc {

  const HDR: nat := 16                        // sizeof(Header)
  const U32: nat := 0x1_0000_0000
  const TOP: nat := 0x8000_0000               // sbrk returns an int

  // ptr and size are the header fields, by address. The rest is ghost: the free list from base on,
  // the allocated blocks, and for every byte that sbrk has given, the block that it is in.
  datatype Heap = Heap(base: nat, ptr: map<nat, nat>, size: map<nat, nat>, list: seq<nat>, live: set<nat>,
      own: map<nat, nat>) {

    function End(b: nat): nat
      requires b in size
    {
      b + HDR * size[b]
    }

    function Next(i: nat): nat {
      if i + 1 < |list| then i + 1 else 0
    }

    ghost predicate LinkOk(i: nat)
      requires i < |list|
    {
      0 <= Next(i) < |list| && list[i] in ptr && ptr[list[i]] == list[Next(i)]
    }

    // Byte a belongs to block b
    ghost predicate In(a: nat, b: nat) {
      a in own && own[a] == b
    }

    ghost predicate BlockOk(b: nat) {
      b in size && 1 <= size[b] && base < b && forall a :: b <= a < End(b) ==> In(a, b)
    }

    // Free block i; the ones at lo and hi may touch the next
    ghost predicate FreeOk(i: nat, lo: nat, hi: nat)
      requires i < |list|
    {
      && BlockOk(list[i]) && list[i] !in live
      && (i + 1 < |list| ==> End(list[i]) < list[i + 1] || ((i == lo || i == hi) && End(list[i]) == list[i + 1]))
    }

    ghost predicate LiveOk(b: nat) {
      BlockOk(b) && b !in list
    }

    ghost predicate OwnOk(a: nat)
      requires a in own
    {
      own[a] in size && own[a] <= a < End(own[a]) && a < TOP && (own[a] in live || own[a] in list)
    }

    ghost predicate Sorted() {
      forall i, j :: 0 <= i < j < |list| ==> list[i] < list[j]
    }

    // The invariant, except that the blocks at lo and hi need not be coalesced with the next
    ghost predicate Almost(lo: nat, hi: nat) {
      && 0 < base && |list| >= 1 && list[0] == base && base in size && size[base] == 0 && base !in own
      && base !in live && Sorted()
      && (forall i :: 0 <= i < |list| ==> LinkOk(i))
      && (forall i :: 1 <= i < |list| ==> FreeOk(i, lo, hi))
      && (forall b :: b in live ==> LiveOk(b))
      && (forall a {:trigger OwnOk(a)} :: a in own ==> OwnOk(a))
    }

    /** The list is circular, in address order and coalesced; every byte obtained is in exactly one
        block, free or allocated. */
    ghost predicate Ok() {
      Almost(0, 0)
    }
  }

  // Bytes lo..hi-1 now belong to b
  function Moved(own: map<nat, nat>, lo: nat, hi: nat, b: nat): (m: map<nat, nat>)
    ensures m.Keys == own.Keys
    ensures forall a :: a in own ==> m[a] == if lo <= a < hi then b else own[a]
  {
    map a | a in own :: if lo <= a < hi then b else own[a]
  }

  // ---------- merging two neighbours ----------

  function Merged(h: Heap, i: nat): Heap
    requires i + 1 < |h.list| && h.list[i] in h.size && h.list[i + 1] in h.size && h.list[i + 1] in h.ptr
  {
    var p, q := h.list[i], h.list[i + 1];
    h.(ptr := h.ptr[p := h.ptr[q]], size := h.size[p := h.size[p] + h.size[q]],
       list := h.list[..i + 1] + h.list[i + 2..], own := Moved(h.own, q, h.End(q), p))
  }

  ghost predicate CanMerge(h: Heap, lo: nat, hi: nat, i: nat) {
    && h.Almost(lo, hi) && 1 <= i && i + 1 < |h.list| && h.list[i] in h.size && h.list[i + 1] in h.size
    && h.list[i + 1] in h.ptr
    && h.End(h.list[i]) == h.list[i + 1]
  }

  // Position in the old list
  function Old(i: nat, k: nat): nat { if k <= i then k else k + 1 }

  lemma MergedList(h: Heap, lo: nat, hi: nat, i: nat)
    requires CanMerge(h, lo, hi, i)
    ensures var t := Merged(h, i);
            && |t.list| == |h.list| - 1 && t.Sorted()
            && (forall k :: 0 <= k < |t.list| ==> t.list[k] == h.list[Old(i, k)])
            && (forall k :: 0 <= k < |t.list| ==> t.LinkOk(k))
  {
    var t := Merged(h, i);
    forall k | 0 <= k < |t.list|
      ensures t.LinkOk(k)
    {
      assert h.LinkOk(Old(i, k)) && h.LinkOk(i) && h.LinkOk(i + 1);
    }
  }

  lemma MergedIn(h: Heap, lo: nat, hi: nat, i: nat, b: nat)
    requires CanMerge(h, lo, hi, i) && h.BlockOk(b) && b != h.list[i + 1]
    ensures Merged(h, i).BlockOk(b)
  {
    var t, p, q := Merged(h, i), h.list[i], h.list[i + 1];
    assert h.FreeOk(i, lo, hi) && h.FreeOk(i + 1, lo, hi);
    forall a | b <= a < t.End(b)
      ensures t.In(a, b)
    {
      if b <= a < h.End(b) {
        assert h.In(a, b);
        assert q <= a < h.End(q) ==> h.In(a, q);
      } else {
        assert h.In(a, q);
      }
    }
  }

  // Where a loose position goes when block i is merged with the next
  function Shift(x: nat, i: nat): nat {
    if x == i then 0 else if x > i then x - 1 else x
  }

  lemma MergedFree(h: Heap, lo: nat, hi: nat, i: nat, k: nat)
    requires CanMerge(h, lo, hi, i) && 1 <= k < |Merged(h, i).list|
    ensures Merged(h, i).FreeOk(k, Shift(lo, i), Shift(hi, i))
  {
    var t := Merged(h, i);
    assert h.FreeOk(Old(i, k), lo, hi) && h.FreeOk(i + 1, lo, hi);
    assert t.list[k] == h.list[Old(i, k)];
    assert k + 1 < |t.list| ==> t.list[k + 1] == h.list[Old(i, k + 1)];
    MergedIn(h, lo, hi, i, t.list[k]);
  }

  lemma MergedLive(h: Heap, lo: nat, hi: nat, i: nat, b: nat)
    requires CanMerge(h, lo, hi, i) && b in h.live
    ensures Merged(h, i).LiveOk(b)
  {
    assert h.LiveOk(b);
    MergedIn(h, lo, hi, i, b);
    MergedList(h, lo, hi, i);
  }

  /** Two adjacent free blocks become one: the bytes covered are the same. */
  lemma MergedOk(h: Heap, lo: nat, hi: nat, i: nat)
    requires CanMerge(h, lo, hi, i)
    ensures Merged(h, i).Almost(Shift(lo, i), Shift(hi, i))
  {
    var t := Merged(h, i);
    var lo', hi' := Shift(lo, i), Shift(hi, i);
    MergedList(h, lo, hi, i);
    forall k | 1 <= k < |t.list|
      ensures t.FreeOk(k, lo', hi')
    {
      MergedFree(h, lo, hi, i, k);
    }
    forall b | b in t.live
      ensures t.LiveOk(b)
    {
      MergedLive(h, lo, hi, i, b);
    }
    forall a | a in t.own
      ensures t.OwnOk(a)
    {
      MergedOwn(h, lo, hi, i, a);
    }
  }

  lemma MergedOwn(h: Heap, lo: nat, hi: nat, i: nat, a: nat)
    requires CanMerge(h, lo, hi, i) && a in h.own
    ensures Merged(h, i).OwnOk(a)
  {
    var t, p, q := Merged(h, i), h.list[i], h.list[i + 1];
    assert h.OwnOk(a) && h.FreeOk(i, lo, hi) && h.FreeOk(i + 1, lo, hi);
    assert p == t.list[i];
    if q <= a < h.End(q) {
      assert h.In(a, q);
    } else if h.own[a] in h.list {
      var k :| 0 <= k < |h.list| && h.list[k] == h.own[a];
      if k != i + 1 {
        assert t.list[if k <= i then k else k - 1] == h.own[a];
      }
    }
  }

  // ---------- linking a block in ----------

  // Where in the list a block belongs
  ghost predicate IsSlot(h: Heap, bp: nat, j: nat) {
    j < |h.list| && h.list[j] < bp && (j + 1 < |h.list| ==> bp < h.list[j + 1])
  }

  function Linked(h: Heap, bp: nat, j: nat): Heap
    requires j < |h.list| && h.list[j] in h.ptr
  {
    h.(ptr := h.ptr[bp := h.ptr[h.list[j]]][h.list[j] := bp], list := h.list[..j + 1] + [bp] + h.list[j + 1..],
      live := h.live - {bp})
  }

  ghost predicate CanLink(h: Heap, bp: nat, j: nat) {
    h.Ok() && bp in h.live && IsSlot(h, bp, j) && h.list[j] in h.ptr
  }

  // Blocks do not overlap
  lemma Apart(h: Heap, b: nat, c: nat)
    requires h.BlockOk(b) && h.BlockOk(c) && b < c
    ensures h.End(b) <= c
  {
    assert h.In(c, c);
    assert h.End(b) > c ==> h.In(c, b);
  }

  // Position in the list before; j + 1 is the new block
  function Was(j: nat, k: nat): nat { if k <= j then k else k - 1 }

  lemma LinkedList(h: Heap, bp: nat, j: nat)
    requires CanLink(h, bp, j)
    ensures var t := Linked(h, bp, j);
            && |t.list| == |h.list| + 1 && t.Sorted()
            && forall k :: 0 <= k < |t.list| ==> t.list[k] == if k == j + 1 then bp else h.list[Was(j, k)]
  {
    var t := Linked(h, bp, j);
    forall k, l | 0 <= k < l < |t.list|
      ensures t.list[k] < t.list[l]
    {
      assert k <= j ==> h.list[k] <= h.list[j];
      assert l > j + 1 ==> h.list[j + 1] <= h.list[l - 1];
    }
  }

  lemma LinkedLinks(h: Heap, bp: nat, j: nat, k: nat)
    requires CanLink(h, bp, j) && k < |Linked(h, bp, j).list|
    ensures Linked(h, bp, j).LinkOk(k)
  {
    var t := Linked(h, bp, j);
    assert h.LinkOk(Was(j, k)) && h.LinkOk(j) && h.LiveOk(bp);
    assert t.list[k] == if k == j + 1 then bp else h.list[Was(j, k)];
    assert t.list[t.Next(k)] == if t.Next(k) == j + 1 then bp else h.list[Was(j, t.Next(k))];
    if k != j && k != j + 1 {
      assert h.list[Was(j, k)] != h.list[j];
    }
  }

  lemma LinkedFree(h: Heap, bp: nat, j: nat, k: nat)
    requires CanLink(h, bp, j) && 1 <= k < |Linked(h, bp, j).list|
    ensures Linked(h, bp, j).FreeOk(k, j, j + 1)
  {
    var t := Linked(h, bp, j);
    assert h.LiveOk(bp) && (j > 0 ==> h.FreeOk(j, 0, 0)) && (j + 1 < |h.list| ==> h.FreeOk(j + 1, 0, 0));
    assert t.list[k] == if k == j + 1 then bp else h.list[Was(j, k)];
    assert k + 1 < |t.list| ==> t.list[k + 1] == if k == j then bp else h.list[Was(j, k + 1)];
    if k != j + 1 {
      assert h.FreeOk(Was(j, k), 0, 0);
    }
    SameBlock(h, t, t.list[k]);
    if k == j {
      Apart(h, h.list[j], bp);
    } else if k == j + 1 && k + 1 < |t.list| {
      Apart(h, bp, h.list[j + 1]);
    }
  }

  lemma SameBlock(h: Heap, t: Heap, b: nat)
    requires h.BlockOk(b) && t.base == h.base && b in t.size && t.size[b] == h.size[b]
    requires forall a :: h.In(a, b) ==> t.In(a, b)
    ensures t.BlockOk(b)
  {
    forall a | b <= a < t.End(b)
      ensures t.In(a, b)
    {
      assert h.In(a, b);
    }
  }

  /** A block given back stands in the list at its place; it may touch its neighbours. */
  lemma LinkedOk(h: Heap, bp: nat, j: nat)
    requires CanLink(h, bp, j)
    ensures Linked(h, bp, j).Almost(j, j + 1)
  {
    var t, j' := Linked(h, bp, j), j + 1;
    LinkedList(h, bp, j);
    assert h.LiveOk(bp);
    forall k | 0 <= k < |t.list|
      ensures t.LinkOk(k)
    {
      LinkedLinks(h, bp, j, k);
    }
    forall k | 1 <= k < |t.list|
      ensures t.FreeOk(k, j, j')
    {
      LinkedFree(h, bp, j, k);
    }
    forall b | b in t.live
      ensures t.LiveOk(b)
    {
      assert h.LiveOk(b);
      SameBlock(h, t, b);
    }
    forall a | a in t.own
      ensures t.OwnOk(a)
    {
      LinkedOwn(h, bp, j, a);
    }
  }

  lemma LinkedOwn(h: Heap, bp: nat, j: nat, a: nat)
    requires CanLink(h, bp, j) && a in h.own
    ensures Linked(h, bp, j).OwnOk(a)
  {
    var t := Linked(h, bp, j);
    assert h.OwnOk(a);
    assert t.list[j + 1] == bp;
    if h.own[a] in h.list {
      var k :| 0 <= k < |h.list| && h.list[k] == h.own[a];
      assert t.list[if k <= j then k else k + 1] == h.own[a];
    }
  }

  // ---------- taking a block out ----------

  // All of free block i is allocated
  function Unlinked(h: Heap, i: nat): Heap
    requires 1 <= i < |h.list| && h.list[i] in h.ptr
  {
    h.(ptr := h.ptr[h.list[i - 1] := h.ptr[h.list[i]]],
       list := h.list[..i] + h.list[i + 1..], live := h.live + {h.list[i]})
  }

  lemma UnlinkedLinks(h: Heap, i: nat, k: nat)
    requires h.Ok() && 1 <= i < |h.list| && h.list[i] in h.ptr && k < |h.list| - 1
    ensures Unlinked(h, i).LinkOk(k)
  {
    var t := Unlinked(h, i);
    var o := if k < i then k else k + 1;
    assert h.LinkOk(o) && h.LinkOk(i) && h.LinkOk(i - 1);
    assert t.list[k] == h.list[o];
    assert t.list[t.Next(k)] == h.list[if t.Next(k) < i then t.Next(k) else t.Next(k) + 1];
    assert o != i - 1 ==> h.list[o] != h.list[i - 1];
  }

  lemma UnlinkedFree(h: Heap, i: nat, k: nat)
    requires h.Ok() && 1 <= i < |h.list| && h.list[i] in h.ptr && 1 <= k < |h.list| - 1
    ensures Unlinked(h, i).FreeOk(k, 0, 0)
  {
    var t := Unlinked(h, i);
    var o := if k < i then k else k + 1;
    assert h.FreeOk(o, 0, 0) && h.FreeOk(i, 0, 0) && h.list[o] != h.list[i];
    assert t.list[k] == h.list[o];
    assert k + 1 < |t.list| ==> t.list[k + 1] == h.list[if k + 1 < i then k + 1 else k + 2];
    SameBlock(h, t, h.list[o]);
  }

  lemma UnlinkedOk(h: Heap, i: nat)
    requires h.Ok() && 1 <= i < |h.list| && h.list[i] in h.ptr
    ensures Unlinked(h, i).Ok()
  {
    var t := Unlinked(h, i);
    assert h.FreeOk(i, 0, 0);
    forall k | 0 <= k < |t.list|
      ensures t.LinkOk(k)
    {
      UnlinkedLinks(h, i, k);
    }
    forall k | 1 <= k < |t.list|
      ensures t.FreeOk(k, 0, 0)
    {
      UnlinkedFree(h, i, k);
    }
    forall b | b in t.live
      ensures t.LiveOk(b)
    {
      assert b != h.list[i] ==> h.LiveOk(b);
      SameBlock(h, t, b);
    }
    forall a | a in t.own
      ensures t.OwnOk(a)
    {
      UnlinkedOwn(h, i, a);
    }
  }

  lemma UnlinkedOwn(h: Heap, i: nat, a: nat)
    requires h.Ok() && 1 <= i < |h.list| && h.list[i] in h.ptr && a in h.own
    ensures Unlinked(h, i).OwnOk(a)
  {
    var t := Unlinked(h, i);
    assert h.OwnOk(a);
    if h.own[a] in h.list {
      var k :| 0 <= k < |h.list| && h.list[k] == h.own[a];
      if k != i {
        assert t.list[if k < i then k else k - 1] == h.own[a];
      }
    }
  }

  // The upper n units of free block i are allocated
  function Split(h: Heap, i: nat, n: nat): Heap
    requires 1 <= i < |h.list| && h.list[i] in h.size && 1 <= n < h.size[h.list[i]]
  {
    var p := h.list[i];
    var m := h.size[p] - n;
    var q := p + HDR * m;
    h.(size := h.size[p := m][q := n], live := h.live + {q}, own := Moved(h.own, q, q + HDR * n, q))
  }

  ghost predicate CanSplit(h: Heap, i: nat, n: nat) {
    h.Ok() && 1 <= i < |h.list| && h.list[i] in h.size && 1 <= n < h.size[h.list[i]]
  }

  lemma SplitBlock(h: Heap, i: nat, n: nat, b: nat)
    requires CanSplit(h, i, n) && (h.BlockOk(b) || b == h.list[i] + HDR * (h.size[h.list[i]] - n))
    ensures Split(h, i, n).BlockOk(b)
  {
    var t, p := Split(h, i, n), h.list[i];
    var q := p + HDR * (h.size[p] - n);
    assert h.FreeOk(i, 0, 0);
    assert h.In(q, p);
    if b != q {
      assert h.In(b, b);
    }
    forall a | b <= a < t.End(b)
      ensures t.In(a, b)
    {
      assert b != q && b != p ==> h.In(a, b);
      assert p <= a < h.End(p) ==> h.In(a, p);
    }
  }

  lemma SplitFresh(h: Heap, i: nat, n: nat)
    requires CanSplit(h, i, n)
    ensures var q := h.list[i] + HDR * (h.size[h.list[i]] - n);
        q !in h.list && q !in h.live && q != h.base && q in h.own
  {
    var p := h.list[i];
    var q := p + HDR * (h.size[p] - n);
    assert h.FreeOk(i, 0, 0);
    assert h.In(q, p);
    forall k | 0 <= k < |h.list|
      ensures h.list[k] != q
    {
      if k >= 1 {
        assert h.FreeOk(k, 0, 0);
        assert h.In(h.list[k], h.list[k]);
      }
    }
    assert q in h.live ==> h.LiveOk(q) && h.In(q, q);
  }

  lemma SplitOk(h: Heap, i: nat, n: nat)
    requires CanSplit(h, i, n)
    ensures Split(h, i, n).Ok()
  {
    var t, p := Split(h, i, n), h.list[i];
    var q := p + HDR * (h.size[p] - n);
    SplitFresh(h, i, n);
    forall k | 0 <= k < |t.list|
      ensures t.LinkOk(k)
    {
      assert h.LinkOk(k);
    }
    forall k | 1 <= k < |t.list|
      ensures t.FreeOk(k, 0, 0)
    {
      assert h.FreeOk(k, 0, 0);
      SplitBlock(h, i, n, h.list[k]);
    }
    forall b | b in t.live
      ensures t.LiveOk(b)
    {
      assert b != q ==> h.LiveOk(b);
      SplitBlock(h, i, n, b);
    }
    forall a | a in t.own
      ensures t.OwnOk(a)
    {
      assert h.OwnOk(a) && h.FreeOk(i, 0, 0);
      assert p <= a < h.End(p) ==> h.In(a, p);
    }
  }

  // ---------- memory from sbrk ----------

  // n units at address a, none of it obtained before, entered as an allocated block
  ghost function Granted(h: Heap, a: nat, n: nat): Heap {
    h.(size := h.size[a := n], live := h.live + {a}, own := Extended(h.own, a, a + HDR * n, a))
  }

  ghost function Extended(own: map<nat, nat>, lo: nat, hi: nat, b: nat): (m: map<nat, nat>)
    ensures forall a :: a in m <==> a in own || lo <= a < hi
    ensures forall a :: a in m ==> m[a] == if lo <= a < hi then b else own[a]
    decreases hi - lo
  {
    if lo >= hi then own else Extended(own[lo := b], lo + 1, hi, b)
  }

  ghost predicate FreshMemory(h: Heap, a: nat, n: nat) {
    n >= 1 && h.base < a && a + HDR * n <= TOP && forall x :: a <= x < a + HDR * n ==> x !in h.own
  }

  lemma GrantedBlock(h: Heap, a: nat, n: nat, b: nat)
    requires h.Ok() && FreshMemory(h, a, n) && (h.BlockOk(b) || b == a)
    ensures Granted(h, a, n).BlockOk(b) && (b != a ==> Granted(h, a, n).size[b] == h.size[b])
  {
    var t := Granted(h, a, n);
    if b != a {
      forall x | b <= x < h.End(b)
        ensures t.In(x, b)
      {
        assert h.In(x, b);
      }
    }
  }

  lemma GrantedOk(h: Heap, a: nat, n: nat)
    requires h.Ok() && FreshMemory(h, a, n)
    ensures Granted(h, a, n).Ok() && a !in h.live && a !in h.list
  {
    var t := Granted(h, a, n);
    forall k | 0 <= k < |h.list|
      ensures h.list[k] != a
    {
      if k >= 1 {
        assert h.FreeOk(k, 0, 0);
        assert h.In(h.list[k], h.list[k]);
      }
    }
    forall b | b in h.live
      ensures b != a
    {
      assert h.LiveOk(b);
      assert h.In(b, b);
    }
    forall k | 0 <= k < |t.list|
      ensures t.LinkOk(k)
    {
      assert h.LinkOk(k);
    }
    forall k | 1 <= k < |t.list|
      ensures t.FreeOk(k, 0, 0)
    {
      assert h.FreeOk(k, 0, 0);
      GrantedBlock(h, a, n, h.list[k]);
    }
    forall b | b in t.live
      ensures t.LiveOk(b)
    {
      assert b != a ==> h.LiveOk(b);
      GrantedBlock(h, a, n, b);
    }
    forall x | x in t.own
      ensures t.OwnOk(x)
    {
      assert x in h.own ==> h.OwnOk(x);
    }
  }

  // ---------- free ----------

  ghost predicate Touches(h: Heap, i: nat) {
    && 1 <= i && i + 1 < |h.list| && h.list[i] in h.size && h.list[i + 1] in h.size && h.list[i + 1] in h.ptr
    && h.End(h.list[i]) == h.list[i + 1]
  }

  // Free block i is merged with the next if it touches it
  ghost function MergeIf(h: Heap, i: nat): Heap {
    if Touches(h, i) then Merged(h, i) else h
  }

  function Tight(x: nat, i: nat): nat { if x == i then 0 else x }

  lemma MergeIfOk(h: Heap, lo: nat, hi: nat, i: nat)
    requires h.Almost(lo, hi) && lo <= i && hi <= i < |h.list|
    ensures MergeIf(h, i).Almost(Tight(lo, i), Tight(hi, i))
    ensures MergeIf(h, i).live == h.live && MergeIf(h, i).own.Keys == h.own.Keys && MergeIf(h, i).base == h.base
    ensures i < |MergeIf(h, i).list| && MergeIf(h, i).list[..i + 1] == h.list[..i + 1]
  {
    if Touches(h, i) {
      MergedOk(h, lo, hi, i);
    } else {
      var lo', hi' := Tight(lo, i), Tight(hi, i);
      forall k | 1 <= k < |h.list|
        ensures h.FreeOk(k, lo', hi')
      {
        assert h.FreeOk(k, lo, hi);
        if k == i && k + 1 < |h.list| {
          assert h.FreeOk(k + 1, lo, hi) && h.LinkOk(k + 1);
        }
      }
    }
  }

  ghost function Freed(h: Heap, bp: nat, j: nat): Heap
    requires CanLink(h, bp, j)
  {
    MergeIf(MergeIf(Linked(h, bp, j), j + 1), j)
  }

  // What free leaves alone: the other allocated blocks and the bytes in use altogether
  ghost predicate Kept(h: Heap, t: Heap) {
    t.base == h.base && t.own.Keys == h.own.Keys
  }

  ghost predicate SameSize(h: Heap, t: Heap, b: nat) {
    b in h.size && b in t.size && t.size[b] == h.size[b]
  }

  lemma MergedUpOk(h: Heap, bp: nat, j: nat)
    requires CanLink(h, bp, j)
    ensures var m := MergeIf(Linked(h, bp, j), j + 1);
            && m.Almost(j, 0) && j + 1 < |m.list| && m.list[j] == h.list[j] && m.list[j + 1] == bp
            && m.live == h.live - {bp} && m.own.Keys == h.own.Keys && m.base == h.base
  {
    var l, j' := Linked(h, bp, j), j + 1;
    LinkedOk(h, bp, j);
    LinkedList(h, bp, j);
    MergeIfOk(l, j, j', j');
    var m := MergeIf(l, j');
    assert m.list[j] == m.list[..j' + 1][j] && m.list[j'] == m.list[..j' + 1][j'];
  }

  /** free: the block joins the list, merged with whatever it touches. */
  lemma FreedOk(h: Heap, bp: nat, j: nat)
    requires CanLink(h, bp, j)
    ensures var t := Freed(h, bp, j);
            && t.Ok() && j < |t.list| && t.list[j] == h.list[j] && t.live == h.live - {bp} && Kept(h, t)
            && forall b :: b in t.live ==> SameSize(h, t, b)
  {
    var m := MergeIf(Linked(h, bp, j), j + 1);
    MergedUpOk(h, bp, j);
    MergeIfOk(m, j, 0, j);
    var t := MergeIf(m, j);
    assert t.list[j] == t.list[..j + 1][j];
    forall b | b in h.live - {bp}
      ensures SameSize(h, t, b)
    {
      assert h.LiveOk(b) && h.LiveOk(bp);
    }
  }

  // The place exists: after the last block below bp
  lemma {:induction false} SlotExists(h: Heap, bp: nat, k: nat) returns (j: nat)
    requires h.Ok() && bp in h.live && k < |h.list| && h.list[k] < bp
    ensures IsSlot(h, bp, j)
    decreases |h.list| - k
  {
    if k + 1 < |h.list| && h.list[k + 1] < bp {
      j := SlotExists(h, bp, k + 1);
    } else {
      j := k;
      assert h.LiveOk(bp);
    }
  }

  // Steps along the circle from i to j
  function Steps(i: nat, j: nat, n: nat): nat
    requires i < n && j < n
  {
    if i <= j then j - i else n - i + j
  }

  // The place is unique, and free's loop stops there and nowhere else
  lemma StopsAt(h: Heap, bp: nat, j: nat, i: nat)
    requires h.Ok() && bp in h.live && IsSlot(h, bp, j) && i < |h.list|
    ensures var p, q := h.list[i], h.list[h.Next(i)];
            (bp > p && bp < q) || (p >= q && (bp > p || bp < q)) <==> i == j
  {
    assert h.LiveOk(bp);
    assert i < j ==> h.list[i + 1] <= h.list[j];
    assert i > j ==> h.list[j + 1] <= h.list[i];
  }

  function Add32(x: nat, y: nat): nat { (x + y) % U32 }

  /** The sum of two neighbouring blocks' sizes does not wrap. */
  lemma SizeFits(h: Heap, lo: nat, hi: nat, i: nat)
    requires h.Almost(lo, hi) && Touches(h, i)
    ensures Add32(h.size[h.list[i]], h.size[h.list[i + 1]]) == h.size[h.list[i]] + h.size[h.list[i + 1]]
  {
    var p, q := h.list[i], h.list[i + 1];
    assert h.FreeOk(i, lo, hi) && h.FreeOk(i + 1, lo, hi);
    assert h.In(h.End(q) - 1, q);
    assert h.OwnOk(h.End(q) - 1);
  }

  // Whether block bp reaches up to the block that follows slot j
  lemma TouchesUp(h: Heap, bp: nat, j: nat)
    requires CanLink(h, bp, j)
    ensures var p, l := h.list[j], Linked(h, bp, j);
            && bp in h.size && h.End(bp) == l.End(bp) && bp != p
            && (h.End(bp) == h.ptr[p] <==> Touches(l, j + 1))
            && (Touches(l, j + 1) ==> l.list[j + 2] == h.ptr[p] && h.ptr[p] != bp && h.ptr[p] != p && h.ptr[p] in h.ptr)
  {
    var p, l, j' := h.list[j], Linked(h, bp, j), j + 1;
    LinkedOk(h, bp, j);
    LinkedList(h, bp, j);
    assert h.LiveOk(bp) && h.LinkOk(j);
    if j + 1 < |h.list| {
      assert l.list[j + 2] == h.list[j + 1];
      assert l.FreeOk(j + 2, j, j') && l.LinkOk(j + 2) && h.LinkOk(j + 1);
    }
  }

  // What free has written when it has looked at the block above
  lemma WritesUp(h: Heap, bp: nat, j: nat)
    requires CanLink(h, bp, j)
    ensures var p, m := h.list[j], MergeIf(Linked(h, bp, j), j + 1);
            && bp in h.size && (h.End(bp) == h.ptr[p] ==> h.ptr[p] in h.ptr && h.ptr[p] in h.size)
            && m.ptr == h.ptr[bp := if h.End(bp) == h.ptr[p] then h.ptr[h.ptr[p]] else h.ptr[p]][p := bp]
            && m.size == h.size[bp := if h.End(bp) == h.ptr[p] then Add32(h.size[bp], h.size[h.ptr[p]]) else h.size[bp]]
  {
    TouchesUp(h, bp, j);
    var l, j' := Linked(h, bp, j), j + 1;
    LinkedOk(h, bp, j);
    LinkedList(h, bp, j);
    if Touches(l, j') {
      SizeFits(l, j, j', j');
    }
  }

  // ... and at the block below
  lemma WritesDown(h: Heap, bp: nat, j: nat)
    requires CanLink(h, bp, j)
    ensures var p, m, t := h.list[j], MergeIf(Linked(h, bp, j), j + 1), Freed(h, bp, j);
            && p in m.size && bp in m.size && bp in m.ptr && p != bp
            && t.size == (if m.End(p) == bp then m.size[p := Add32(m.size[p], m.size[bp])] else m.size)
            && t.ptr == (if m.End(p) == bp then m.ptr[p := m.ptr[bp]] else m.ptr)
  {
    MergedUpOk(h, bp, j);
    var p, m := h.list[j], MergeIf(Linked(h, bp, j), j + 1);
    assert h.LiveOk(bp) && m.FreeOk(j + 1, j, 0) && m.LinkOk(j + 1);
    assert j >= 1 ==> m.FreeOk(j, j, 0);
    if Touches(m, j) {
      SizeFits(m, j, 0, j);
    }
  }

  class Allocator {
    const base: nat
    var ptr: map<nat, nat>
    var size: map<nat, nat>
    var freep: nat
    ghost var list: seq<nat>
    ghost var live: set<nat>
    ghost var own: map<nat, nat>

    ghost function Now(): Heap
      reads this
    {
      Heap(base, ptr, size, list, live, own)
    }

    /** Before the first malloc there is nothing; from then on the heap is in order. */
    ghost predicate Valid()
      reads this
    {
      0 < base && if freep == 0 then list == [base] && live == {} && own == map[] else Now().Ok() && freep in list
    }

    constructor (address: nat)
      requires 0 < address
      ensures Valid() && freep == 0 && base == address
    {
      base := address;
      ptr, size, freep := map[], map[], 0;
      list, live, own := [address], {}, map[];
    }

    // The loop of free
    method FindSlot(bp: nat) returns (p: nat, ghost j: nat)
      requires Valid() && freep != 0 && bp in live
      ensures CanLink(Now(), bp, j) && p == list[j]
    {
      ghost var h := Now();
      assert h.LiveOk(bp);
      j := SlotExists(h, bp, 0);
      p := freep;
      ghost var i :| 0 <= i < |list| && list[i] == p;
      assert h.LinkOk(i);
      while !(bp > p && bp < ptr[p])
        invariant 0 <= i < |list| && p == list[i] && p in ptr && ptr[p] == list[h.Next(i)]
        decreases Steps(i, j, |list|)
      {
        StopsAt(h, bp, j, i);
        if p >= ptr[p] && (bp > p || bp < ptr[p]) {
          break;
        }
        p := ptr[p];
        i := h.Next(i);
        assert h.LinkOk(i);
      }
      StopsAt(h, bp, j, i);
    }

    /** Gives a block back. The other allocated blocks are untouched; every byte obtained so far is
        still in exactly one block; the free list is circular, sorted and coalesced. */
    method Free(ap: nat)
      requires Valid() && freep != 0 && ap >= HDR && ap - HDR in live
      modifies this
      ensures Valid() && freep != 0 && live == old(live) - {ap - HDR} && own.Keys == old(own.Keys)
      ensures forall b :: b in live ==> SameSize(old(Now()), Now(), b)
      ensures exists j: nat ::
          CanLink(old(Now()), ap - HDR, j) && Now() == Freed(old(Now()), ap - HDR, j) && freep == old(list)[j]
    {
      var bp: nat := ap - HDR;
      ghost var h := Now();
      ghost var j;
      var p: nat;
      p, j := FindSlot(bp);
      JoinAbove(bp, p, j);
      JoinBelow(bp, p, j, h);
      freep := p;
      ghost var t := Freed(h, bp, j);
      list, live, own := t.list, t.live, t.own;
      assert Now() == t;
      FreedOk(h, bp, j);
    }

    // Links bp to the block above p, or swallows that block
    method JoinAbove(bp: nat, p: nat, ghost j: nat)
      requires CanLink(Now(), bp, j) && p == list[j]
      modifies this`ptr, this`size
      ensures ptr[p := bp] == MergeIf(Linked(old(Now()), bp, j), j + 1).ptr
      ensures size == MergeIf(Linked(old(Now()), bp, j), j + 1).size
    {
      WritesUp(Now(), bp, j);
      TouchesUp(Now(), bp, j);
      if bp + HDR * size[bp] == ptr[p] {
        size := size[bp := Add32(size[bp], size[ptr[p]])];
        ptr := ptr[bp := ptr[ptr[p]]];
      } else {
        ptr := ptr[bp := ptr[p]];
      }
    }

    // Links p to bp, or swallows bp into it
    method JoinBelow(bp: nat, p: nat, ghost j: nat, ghost h: Heap)
      requires CanLink(h, bp, j) && p == h.list[j]
      requires ptr[p := bp] == MergeIf(Linked(h, bp, j), j + 1).ptr && size == MergeIf(Linked(h, bp, j), j + 1).size
      modifies this`ptr, this`size
      ensures ptr == Freed(h, bp, j).ptr && size == Freed(h, bp, j).size
    {
      WritesDown(h, bp, j);
      ghost var m := MergeIf(Linked(h, bp, j), j + 1);
      assert bp in ptr[p := bp] && m.ptr[bp] == ptr[bp];
      if p + HDR * size[p] == bp {
        size := size[p := Add32(size[p], size[bp])];
        ptr := ptr[p := ptr[bp]];
      } else {
        ptr := ptr[p := bp];
      }
    }

    // Enters what sbrk gave as one free block
    method Morecore(nunits: nat, sbrk: Sbrk) returns (p: nat)
      requires Valid() && freep != 0 && nunits < MAXUNITS && GrantOk(base, own, sbrk, SbrkArg(Least(nunits)))
      modifies this
      ensures Valid() && freep != 0 && live == old(live) && (p == 0 <==> sbrk.Failed?) && (p != 0 ==> p == freep)
      ensures p == 0 ==> Now() == old(Now()) && freep == old(freep)
      ensures p != 0 ==> own.Keys == old(own.Keys) + Span(sbrk.addr, HDR * Least(nunits)) && HasRoom(Now(), nunits)
      ensures forall b :: b in live ==> SameSize(old(Now()), Now(), b)
    {
      ghost var h := Now();
      if sbrk.Failed? {
        SizesSame(h);
        return 0;
      }
      var nu := Least(nunits);
      MorecoreExact(nu);
      var hp := sbrk.addr;
      GrantedOk(h, hp, nu);
      size := size[hp := nu];
      live, own := live + {hp}, Granted(h, hp, nu).own;
      ghost var g := Now();
      Free(hp + HDR);
      ghost var j: nat :| CanLink(g, hp, j) && Now() == Freed(g, hp, j);
      FreedHasRoom(g, hp, j, nunits);
      MorecoreKeeps(h, g, Now(), hp, nu);
      p := freep;
    }

    // Allocates n units from free block i
    method Take(prevp: nat, p: nat, n: nat, ghost i: nat) returns (ap: nat)
      requires Valid() && freep != 0 && CanTake(Now(), i, n) && p == list[i] && prevp == list[i - 1]
      modifies this
      ensures Valid() && freep == prevp && ap >= HDR && own.Keys == old(own.Keys)
      ensures TakesBlock(old(Now()), Now(), ap - HDR, n)
    {
      ghost var h := Now();
      TakenOk(h, i, n);
      var b := p;
      if size[p] == n {
        ptr := ptr[prevp := ptr[p]];
      } else {
        size := size[p := size[p] - n];
        b := p + HDR * size[p];
        size := size[b := n];
      }
      freep := prevp;
      ghost var t := Taken(h, i, n);
      list, live, own := t.list, t.live, t.own;
      assert Now() == t;
      assert list[i - 1] == prevp;
      ap := b + HDR;
    }

    /** Allocates nbytes, from the first free block that is large enough, or else from memory that
        sbrk adds, once. It fails only if sbrk does and no free block is large enough. The block is
        disjoint from all others, which keep their places and sizes. */
    method Malloc(nbytes: nat, sbrk: Sbrk) returns (ap: nat, ghost grew: bool)
      requires Valid() && nbytes <= 0x7FFF_FFE0 && GrantOk(base, own, sbrk, SbrkArg(Least(Units(nbytes))))
      modifies this
      ensures Valid() && freep != 0
      ensures ap == 0 ==>
          sbrk.Failed? && live == old(live) && own == old(own) && list == old(list) && !HasRoom(Now(), Units(nbytes))
      ensures ap != 0 ==> Gave(old(Now()), Now(), ap, Units(nbytes), grew, sbrk)
    {
      RequestFits(nbytes);
      var nunits := Units(nbytes);
      ghost var o := Now();
      if freep == 0 {
        Start();
      }
      ghost var h := Now();
      ap := Search(nunits);
      grew := false;
      while ap == 0       // a second round is never needed
        invariant Valid() && freep != 0 && (ap == 0 ==> !grew && Now() == h && !HasRoom(h, nunits))
        invariant ap != 0 ==> Gave(h, Now(), ap, nunits, grew, sbrk)
        decreases !grew
      {
        var p := Morecore(nunits, sbrk);
        if p == 0 {
          return 0, false;
        }
        ghost var g := Now();
        ap := Search(nunits);
        grew := true;
        GaveGrown(h, g, Now(), ap, nunits, sbrk);
      }
      GaveFrom(o, h, Now(), ap, nunits, grew, sbrk);
    }

    // base becomes a list of its own
    method Start()
      requires Valid() && freep == 0
      modifies this
      ensures Valid() && freep != 0 && list == old(list) && live == old(live) && own == old(own)
      ensures !exists n: nat :: n >= 1 && HasRoom(Now(), n)
    {
      ptr := ptr[base := base];
      freep := base;
      size := size[base := 0];
      assert Now().LinkOk(0);
    }

    // One turn round the list
    method Search(nunits: nat) returns (ap: nat)
      requires Valid() && freep != 0 && nunits >= 1
      modifies this
      ensures Valid() && freep != 0 && own.Keys == old(own.Keys)
      ensures ap == 0 <==> !HasRoom(old(Now()), nunits)
      ensures ap == 0 ==> Now() == old(Now()) && freep == old(freep)
      ensures ap != 0 ==> ap >= HDR && TakesBlock(old(Now()), Now(), ap - HDR, nunits)
    {
      ghost var h := Now();
      var prevp := freep;
      ghost var f :| 0 <= f < |list| && list[f] == freep;
      assert h.LinkOk(f);
      var p := ptr[prevp];
      ghost var i := h.Next(f);
      while true
        invariant 0 <= i < |list| && p == list[i] && prevp == list[Prev(h, i)] && h == Now() && freep == list[f]
        invariant forall k :: 0 <= k < |list| && Seen(f, i, k) ==> TooSmall(h, nunits, k)
        decreases Steps(i, f, |list|)
      {
        assert h.LinkOk(i) && (i >= 1 ==> h.FreeOk(i, 0, 0));
        if size[p] >= nunits {
          assert Roomy(h, nunits, i);
          ap := Take(prevp, p, nunits, i);
          return;
        }
        assert TooSmall(h, nunits, i);
        if p == freep {
          NoRoom(h, nunits, f, i);
          return 0;
        }
        prevp := p;
        p := ptr[p];
        i := h.Next(i);
      }
    }
  }

  // The index before i on the circle
  function Prev(h: Heap, i: nat): int {
    if i == 0 then |h.list| - 1 else i - 1
  }

  // k lies strictly between f and i, going round
  predicate Seen(f: nat, i: nat, k: nat) {
    if f < i then f < k < i else k > f || k < i
  }

  ghost predicate TooSmall(h: Heap, n: nat, k: nat) {
    k < |h.list| && h.list[k] in h.size && h.size[h.list[k]] < n
  }

  lemma NoRoom(h: Heap, n: nat, f: nat, i: nat)
    requires h.Ok() && f < |h.list| && i < |h.list| && h.list[i] == h.list[f] && TooSmall(h, n, i)
    requires forall k :: 0 <= k < |h.list| && Seen(f, i, k) ==> TooSmall(h, n, k)
    ensures !HasRoom(h, n)
  {
    assert i == f;
    forall k: nat
      ensures !Roomy(h, n, k)
    {
      if 0 <= k < |h.list| && k != f {
        assert Seen(f, i, k) && TooSmall(h, n, k);
      }
    }
  }

  // b is newly allocated, of n units; the other allocated blocks are as before
  ghost predicate TakesBlock(h: Heap, t: Heap, b: nat, n: nat) {
    && b !in h.live && t.live == h.live + {b} && b in t.size && t.size[b] == n
    && forall c :: c in h.live ==> SameSize(h, t, c)
  }

  /** What malloc gives: a new block of n units, with sbrk's memory added if and only if no free
      block had room. */
  ghost predicate Gave(h: Heap, t: Heap, ap: nat, n: nat, grew: bool, sbrk: Sbrk) {
    && ap >= HDR && TakesBlock(h, t, ap - HDR, n) && (grew ==> sbrk.At?)
    && (grew <==> !HasRoom(h, n))
    && t.own.Keys == if grew then h.own.Keys + Span(sbrk.addr, HDR * Least(n)) else h.own.Keys
  }

  lemma GaveGrown(h: Heap, g: Heap, t: Heap, ap: nat, n: nat, sbrk: Sbrk)
    requires g.live == h.live && (forall c :: c in g.live ==> SameSize(h, g, c)) && ap >= HDR
    requires TakesBlock(g, t, ap - HDR, n) && !HasRoom(h, n)
    requires sbrk.At? && g.own.Keys == h.own.Keys + Span(sbrk.addr, HDR * Least(n)) && t.own.Keys == g.own.Keys
    ensures Gave(h, t, ap, n, true, sbrk)
  {
    forall c | c in h.live
      ensures SameSize(h, t, c)
    {
      assert SameSize(h, g, c) && SameSize(g, t, c);
    }
  }

  // The heap as it was before base was set up, if it had to be
  lemma GaveFrom(o: Heap, h: Heap, t: Heap, ap: nat, n: nat, grew: bool, sbrk: Sbrk)
    requires Gave(h, t, ap, n, grew, sbrk) && o.live == h.live && o.own == h.own && o.list == h.list
    requires o == h || (o.live == {} && |o.list| == 1)
    ensures Gave(o, t, ap, n, grew, sbrk)
  {
  }

  ghost predicate CanTake(h: Heap, i: nat, n: nat) {
    h.Ok() && 1 <= i < |h.list| && h.list[i] in h.size && h.list[i] in h.ptr && 1 <= n <= h.size[h.list[i]]
  }

  ghost function Taken(h: Heap, i: nat, n: nat): Heap
    requires CanTake(h, i, n)
  {
    if h.size[h.list[i]] == n then Unlinked(h, i) else Split(h, i, n)
  }

  /** malloc's cut: an exact fit is unlinked, else the tail of the block is split off. */
  lemma TakenOk(h: Heap, i: nat, n: nat)
    requires CanTake(h, i, n)
    ensures var t, p := Taken(h, i, n), h.list[i];
            && t.Ok() && t.own.Keys == h.own.Keys && i - 1 < |t.list| && t.list[i - 1] == h.list[i - 1]
            && TakesBlock(h, t, p + HDR * (h.size[p] - n), n)
  {
    var t, p := Taken(h, i, n), h.list[i];
    var b := p + HDR * (h.size[p] - n);
    assert h.FreeOk(i, 0, 0);
    if h.size[p] == n {
      UnlinkedOk(h, i);
    } else {
      SplitOk(h, i, n);
      SplitFresh(h, i, n);
    }
    forall c | c in h.live
      ensures SameSize(h, t, c)
    {
      assert h.LiveOk(c);
    }
  }

  lemma SizesSame(h: Heap)
    requires h.Ok()
    ensures forall b :: b in h.live ==> SameSize(h, h, b)
  {
    forall b | b in h.live
      ensures SameSize(h, h, b)
    {
      assert h.LiveOk(b);
    }
  }

  lemma MorecoreKeeps(h: Heap, g: Heap, t: Heap, hp: nat, nu: nat)
    requires h.Ok() && g == Granted(h, hp, nu) && hp !in h.live && t.live == g.live - {hp} && t.own.Keys == g.own.Keys
    requires forall b :: b in t.live ==> SameSize(g, t, b)
    ensures t.live == h.live && t.own.Keys == h.own.Keys + Span(hp, HDR * nu)
    ensures forall b :: b in t.live ==> SameSize(h, t, b)
  {
    forall b | b in t.live
      ensures SameSize(h, t, b)
    {
      assert SameSize(g, t, b) && h.LiveOk(b);
    }
  }

  // ---------- sbrk ----------

  datatype Sbrk = Failed | At(addr: nat)

  const MAXUNITS: nat := 0x800_0000          // 2^27: units of 16 bytes in 2^31 bytes

  // The argument as sbrk(int) sees it
  function SbrkArg(nu: nat): int {
    var x := HDR * nu % U32;
    if x < 0x8000_0000 then x else x - U32
  }

  // morecore asks for at least 4096 units
  function Least(nunits: nat): nat { if nunits < 4096 then 4096 else nunits }

  ghost function Span(a: nat, n: nat): (s: set<nat>)
    ensures forall x :: x in s <==> a <= x < a + n
  {
    if n == 0 then {} else Span(a, n - 1) + {a + (n - 1)}
  }

  // A successful sbrk(n) gives n bytes that were not the process's before
  ghost predicate GrantOk(base: nat, own: map<nat, nat>, r: Sbrk, n: int) {
    r.At? ==> base < r.addr && r.addr + n <= TOP && forall x :: r.addr <= x < r.addr + n ==> x !in own
  }

  /** morecore gets the memory that it enters into the list exactly when the request is below 2^27
      units: above that, the int argument of sbrk is smaller than the block. */
  lemma MorecoreExact(nu: nat)
    requires nu <= 0x1000_0001
    ensures SbrkArg(nu) == HDR * nu <==> nu < MAXUNITS
    ensures nu >= MAXUNITS ==> SbrkArg(nu) < HDR * nu
  {
  }

  // The units malloc looks for: a header and enough for nbytes
  function Units(nbytes: nat): nat { (nbytes + HDR - 1) / HDR + 1 }

  /** ... that is, when at most 2^31 - 32 bytes are asked for. */
  lemma RequestFits(nbytes: nat)
    requires nbytes < U32
    ensures Units(nbytes) < MAXUNITS <==> nbytes <= 0x7FFF_FFE0
    ensures Units(nbytes) <= 0x1000_0001 && HDR * (Units(nbytes) - 1) >= nbytes
  {
  }

  // Some free block has n units
  ghost predicate Roomy(h: Heap, n: nat, k: nat) {
    1 <= k < |h.list| && h.list[k] in h.size && h.size[h.list[k]] >= n
  }

  ghost predicate HasRoom(h: Heap, n: nat) {
    exists k :: Roomy(h, n, k)
  }

  lemma MergeIfSize(h: Heap, lo: nat, hi: nat, i: nat)
    requires h.Almost(lo, hi) && 1 <= i < |h.list|
    ensures h.list[i] in h.size && h.list[i] in MergeIf(h, i).size && MergeIf(h, i).size[h.list[i]] >= h.size[h.list[i]]
    ensures Touches(h, i) ==> h.list[i + 1] in h.size && MergeIf(h, i).size[h.list[i]] >= h.size[h.list[i + 1]]
  {
    assert h.FreeOk(i, lo, hi);
  }

  lemma RoomAfter(m: Heap, bp: nat, j: nat)
    requires m.Almost(j, 0) && j + 1 < |m.list| && m.list[j + 1] == bp
    ensures bp in m.size && HasRoom(MergeIf(m, j), m.size[bp])
  {
    assert m.FreeOk(j + 1, j, 0);
    if Touches(m, j) {
      MergeIfSize(m, j, 0, j);
      assert Roomy(MergeIf(m, j), m.size[bp], j);
    } else {
      assert Roomy(m, m.size[bp], j + 1);
    }
  }

  /** A block given back leaves a free block at least as large. */
  lemma FreedHasRoom(h: Heap, bp: nat, j: nat, n: nat)
    requires CanLink(h, bp, j) && bp in h.size && n <= h.size[bp]
    ensures HasRoom(Freed(h, bp, j), n)
  {
    var l, j' := Linked(h, bp, j), j + 1;
    LinkedOk(h, bp, j);
    LinkedList(h, bp, j);
    MergeIfSize(l, j, j', j');
    var m := MergeIf(l, j');
    MergedUpOk(h, bp, j);
    RoomAfter(m, bp, j);
    var t := MergeIf(m, j);
    var k: nat :| Roomy(t, m.size[bp], k);
    assert Roomy(t, n, k);
  }
}
