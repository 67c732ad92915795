/** The buffer cache: NBUF buffers on a most-recently-released-first list. */
module BufferCache {
  import opened LogFormat

  const NBUF: nat := 30
  const ROOTDEV: nat := 1
  const U32: nat := 0x1_0000_0000

  datatype Option<T> = None | Some(value: T)

  datatype Buf = Buf(dev: nat, blockno: nat, valid: bool, refcnt: nat, data: Block) {
    predicate Holds(b: int) { dev == ROOTDEV && blockno == b }
  }

  // refcnt is an unsigned int
  function Up(r: nat): nat { if r == U32 - 1 then 0 else r + 1 }
  function Down(r: nat): nat { if r == 0 then U32 - 1 else r - 1 }

  // Everything the invariant speaks of. `at` is the buffer of each cached block, `flat` the
  // contents a reader of each block must see, `refs` the references to each block.
  datatype CacheState = CacheState(disk: Disk, bufs: seq<Buf>, at: map<nat, nat>, flat: Disk, refs: seq<nat>) {

    /** A buffer that holds a block is that block's only buffer, and one that holds none is unused. */
    ghost predicate BufOk(i: nat)
      requires i < |bufs|
    {
      if bufs[i].dev == ROOTDEV then bufs[i].blockno < |disk| && bufs[i].blockno in at && at[bufs[i].blockno] == i
      else bufs[i].refcnt == 0
    }

    /** A filled buffer holds the current contents, and a block whose current contents are
        not on disk is in memory and referenced, so that it cannot be recycled. */
    ghost predicate BlockOk(b: nat)
      requires b < |disk| == |flat| == |refs|
    {
      if b in at then
        && at[b] < |bufs| && bufs[at[b]].Holds(b)
        && refs[b] == bufs[at[b]].refcnt < U32
        && (bufs[at[b]].valid ==> bufs[at[b]].data == flat[b])
        && (disk[b] == flat[b] || (bufs[at[b]].valid && refs[b] > 0))
      else
        refs[b] == 0 && disk[b] == flat[b]
    }

    ghost predicate Ok() {
      && |bufs| == NBUF && |disk| == |flat| == |refs|
      && (forall i :: 0 <= i < NBUF ==> BufOk(i))
      && (forall b :: 0 <= b < |disk| ==> BlockOk(b))
    }

    /** Only buffer i and the blocks b and c differ from s, and those are as they should be. */
    lemma Local(s: CacheState, i: nat, b: nat, c: nat)
      requires s.Ok() && i < NBUF == |bufs| && b < |disk| == |flat| == |refs| == |s.disk|
      requires BufOk(i) && BlockOk(b) && (c < |disk| ==> BlockOk(c))
      requires bufs[i].Holds(b) && (s.bufs[i].Holds(b) || s.bufs[i].Holds(c) || s.bufs[i].dev != ROOTDEV)
      requires bufs == s.bufs[i := bufs[i]]
      requires forall e :: 0 <= e < |disk| && e != b && e != c ==>
        disk[e] == s.disk[e] && flat[e] == s.flat[e] && refs[e] == s.refs[e]
      requires forall e :: e != b && e != c ==> (e in at <==> e in s.at) && (e in at ==> at[e] == s.at[e])
      requires b in s.at ==> s.at[b] == i
      requires c < |disk| && c in s.at ==> s.at[c] == i || c == b
      ensures Ok()
    {
      forall j | 0 <= j < NBUF
        ensures BufOk(j)
      {
        assert s.BufOk(j);
        if j != i && bufs[j].dev == ROOTDEV {
          assert s.BlockOk(bufs[j].blockno);
        }
      }
      forall e | 0 <= e < |disk|
        ensures BlockOk(e)
      {
        assert s.BlockOk(e);
        if e in s.at && s.at[e] == i {
          assert e == b || e == c;
        }
      }
    }
  }

  // ---------- how many buffers are in use ----------

  // The blocks that are referenced
  ghost function Used(refs: seq<nat>): set<nat> {
    set b: nat | 0 <= b < |refs| && refs[b] != 0
  }

  ghost predicate NoneFree(bufs: seq<Buf>) {
    forall i :: 0 <= i < |bufs| ==> bufs[i].refcnt != 0
  }

  function Below(n: nat): (r: set<nat>)
    ensures |r| == n && forall i :: i in r <==> 0 <= i < n
  {
    if n == 0 then {} else Below(n - 1) + {n - 1}
  }

  // The buffers of some blocks
  ghost function BuffersOf(s: CacheState, blocks: set<nat>): (r: set<nat>)
    requires forall b :: b in blocks ==> b in s.at
    ensures forall i :: i in r <==> exists b :: b in blocks && s.at[b] == i
  {
    set b | b in blocks :: s.at[b]
  }

  // Different blocks have different buffers
  lemma {:induction false} BuffersSize(s: CacheState, blocks: set<nat>)
    requires s.Ok() && blocks <= Used(s.refs)
    ensures forall b :: b in blocks ==>
        b in s.at && s.at[b] < NBUF && s.bufs[s.at[b]].Holds(b) && s.bufs[s.at[b]].refcnt != 0
    ensures |BuffersOf(s, blocks)| == |blocks|
    decreases blocks
  {
    forall b | b in blocks
      ensures b in s.at && s.at[b] < NBUF && s.bufs[s.at[b]].Holds(b) && s.bufs[s.at[b]].refcnt != 0
    {
      assert s.BlockOk(b);
    }
    if blocks != {} {
      var b :| b in blocks;
      BuffersSize(s, blocks - {b});
      assert BuffersOf(s, blocks) == BuffersOf(s, blocks - {b}) + {s.at[b]};
    } else {
      assert BuffersOf(s, blocks) == {};
    }
  }

  lemma BusyUses(s: CacheState, n: nat)
    requires s.Ok() && n == NBUF && NoneFree(s.bufs)
    ensures |Used(s.refs)| >= n
  {
    BuffersSize(s, Used(s.refs));
    forall i | 0 <= i < n
      ensures i in BuffersOf(s, Used(s.refs))
    {
      assert s.BufOk(i) && s.BlockOk(s.bufs[i].blockno);
    }
    assert Below(n) <= BuffersOf(s, Used(s.refs));
    SubsetFull(Below(n), BuffersOf(s, Used(s.refs)));
  }

  lemma UsesBusy(s: CacheState)
    requires s.Ok() && |Used(s.refs)| >= NBUF
    ensures NoneFree(s.bufs)
  {
    BuffersSize(s, Used(s.refs));
    AllAre(s.bufs, BuffersOf(s, Used(s.refs)));
  }

  lemma AllAre(bufs: seq<Buf>, busy: set<nat>)
    requires |busy| >= |bufs| && forall i :: i in busy ==> i < |bufs| && bufs[i].refcnt != 0
    ensures NoneFree(bufs)
  {
    SubsetFull(busy, Below(|bufs|));
    forall i | 0 <= i < |bufs|
      ensures bufs[i].refcnt != 0
    {
      assert i in Below(|bufs|);
    }
  }

  /** All buffers are in use exactly if NBUF blocks are referenced. */
  lemma NoneFreeIff(s: CacheState)
    requires s.Ok()
    ensures NoneFree(s.bufs) <==> |Used(s.refs)| >= NBUF
  {
    if NoneFree(s.bufs) {
      BusyUses(s, NBUF);
    }
    if |Used(s.refs)| >= NBUF {
      UsesBusy(s);
    }
  }

  lemma SubsetFull(a: set<nat>, b: set<nat>)
    requires a <= b
    ensures |a| <= |b| && (|a| == |b| ==> a == b)
  {
    assert b == a + (b - a);
  }

  ghost predicate OthersSame(s: seq<Buf>, t: seq<Buf>, i: nat) {
    |s| == |t| && forall j :: 0 <= j < |s| && j != i ==> t[j] == s[j]
  }

  ghost predicate OnList(s: seq<nat>, i: nat) {
    exists p :: 0 <= p < |s| && s[p] == i
  }

  // Positions p and q hold different buffers, p's released no earlier than q's
  ghost predicate InOrder(s: seq<nat>, stamp: seq<nat>, p: nat, q: nat)
    requires |s| == NBUF == |stamp| && p < q < NBUF
  {
    s[p] != s[q] && s[p] < NBUF && s[q] < NBUF && stamp[s[p]] >= stamp[s[q]]
  }

  /** The list holds every buffer once, most recently released first. */
  ghost predicate MostRecentFirst(s: seq<nat>, stamp: seq<nat>, clock: nat) {
    && |s| == NBUF == |stamp|
    && (forall i :: 0 <= i < NBUF ==> OnList(s, i) && stamp[i] <= clock)
    && (forall p, q :: 0 <= p < q < NBUF ==> InOrder(s, stamp, p, q))
  }

  function MoveToFront(s: seq<nat>, p: nat): seq<nat>
    requires p < |s|
  {
    [s[p]] + s[..p] + s[p + 1..]
  }

  lemma MoveKeepsOrder(s: seq<nat>, p: nat, stamp: seq<nat>, clock: nat)
    requires MostRecentFirst(s, stamp, clock) && p < NBUF && s[p] < NBUF
    ensures MostRecentFirst(MoveToFront(s, p), stamp[s[p] := clock + 1], clock + 1)
  {
    var t, z := MoveToFront(s, p), stamp[s[p] := clock + 1];
    forall i | 0 <= i < NBUF
      ensures OnList(t, i) && z[i] <= clock + 1
    {
      assert OnList(s, i);
      var q :| 0 <= q < |s| && s[q] == i;
      assert t[if q < p then q + 1 else if q > p then q else 0] == i;
    }
    forall a, b | 0 <= a < b < NBUF
      ensures InOrder(t, z, a, b)
    {
      var a', b' := if a == 0 then p else if a <= p then a - 1 else a, if b <= p then b - 1 else b;
      assert t[a] == s[a'] && t[b] == s[b'];
      assert if a' < b' then InOrder(s, stamp, a', b') else InOrder(s, stamp, b', a');
      assert b' < p ==> InOrder(s, stamp, b', p);
      assert p < b' ==> InOrder(s, stamp, p, b');
      assert 0 < a' < p ==> InOrder(s, stamp, a', p);
      assert p < a' ==> InOrder(s, stamp, p, a');
    }
  }

  lemma OnListInRange(s: seq<nat>, stamp: seq<nat>, clock: nat, p: nat)
    requires MostRecentFirst(s, stamp, clock) && p < NBUF
    ensures s[p] < NBUF
  {
    assert if p == 0 then InOrder(s, stamp, 0, 1) else InOrder(s, stamp, 0, p);
  }

  class Cache {
    var disk: Disk
    var bufs: seq<Buf>
    var lru: seq<nat>            // bcache.head.next onwards
    ghost var flat: Disk         // the contents a reader of each block must see
    ghost var trace: seq<Disk>   // the disk image after each block write
    ghost var at: map<nat, nat>  // the buffer of each cached block
    ghost var refs: seq<nat>     // the references to each block
    ghost var stamp: seq<nat>    // when each buffer last became unused
    ghost var clock: nat

    ghost function Now(): CacheState
      reads this
    {
      CacheState(disk, bufs, at, flat, refs)
    }

    ghost predicate ListOk()
      reads this`lru, this`stamp, this`clock
    {
      MostRecentFirst(lru, stamp, clock)
    }

    ghost predicate Valid()
      reads this
    {
      Now().Ok() && ListOk()
    }

    /** Buffer i is the one for block b, filled in. */
    ghost predicate Filled(i: nat, b: nat)
      reads this
    {
      i < |bufs| && bufs[i].Holds(b) && bufs[i].valid && b < |flat| == |refs| && bufs[i].data == flat[b]
        && bufs[i].refcnt == refs[b]
    }

    constructor (image: Disk)
      ensures Valid() && disk == flat == image && trace == []
      ensures refs == seq(|image|, _ => 0)
    {
      var list: seq<nat> := [];
      var b := 0;
      while b < NBUF
        invariant b <= NBUF && |list| == b
        invariant forall p :: 0 <= p < b ==> list[p] == b - 1 - p
      {
        list := [b] + list;
        b := b + 1;
      }
      forall i | 0 <= i < NBUF
        ensures OnList(list, i)
      {
        assert list[NBUF - 1 - i] == i;
      }
      disk, flat, trace := image, image, [];
      bufs := seq(NBUF, _ => Buf(0, 0, false, 0, seq(WORDS, _ => 0)));
      at, refs := map[], seq(|image|, _ => 0);
      lru, stamp, clock := list, seq(NBUF, _ => 0), 0;
    }

    method FindCached(b: nat) returns (i: nat)
      requires Valid() && b < |disk|
      ensures i <= NBUF && (i < NBUF ==> b in at && at[b] == i) && (i == NBUF ==> b !in at)
    {
      var p := 0;
      while p < NBUF
        invariant p <= NBUF
        invariant forall q :: 0 <= q < p ==> lru[q] < NBUF && !bufs[lru[q]].Holds(b)
      {
        OnListInRange(lru, stamp, clock, p);
        i := lru[p];
        if bufs[i].dev == ROOTDEV && bufs[i].blockno == b {
          assert Now().BufOk(i);
          return;
        }
        p := p + 1;
      }
      assert b in at ==> Now().BlockOk(b) && OnList(lru, at[b]);
      i := NBUF;
    }

    method FindUnused() returns (i: nat)
      requires Valid()
      ensures i <= NBUF && (i < NBUF ==> bufs[i].refcnt == 0)
      ensures i < NBUF ==> forall j :: 0 <= j < NBUF && bufs[j].refcnt == 0 ==> stamp[i] <= stamp[j]
      ensures i == NBUF ==> forall j :: 0 <= j < NBUF ==> bufs[j].refcnt != 0
    {
      var p := NBUF;
      while p > 0
        invariant 0 <= p <= NBUF
        invariant forall q :: p <= q < NBUF ==> lru[q] < NBUF && bufs[lru[q]].refcnt != 0
      {
        p := p - 1;
        OnListInRange(lru, stamp, clock, p);
        i := lru[p];
        if bufs[i].refcnt == 0 {
          forall j | 0 <= j < NBUF && bufs[j].refcnt == 0
            ensures stamp[i] <= stamp[j]
          {
            assert OnList(lru, j);
            ghost var q :| 0 <= q < NBUF && lru[q] == j;
            assert q < p ==> InOrder(lru, stamp, q, p);
          }
          return;
        }
      }
      forall j | 0 <= j < NBUF
        ensures bufs[j].refcnt != 0
      {
        assert OnList(lru, j);
      }
      i := NBUF;
    }

    /** A buffer for block b: the one that already holds it, or else the unused buffer
        that has been unused longest. Fails, where the source panics, when all are in use. */
    method Bget(b: nat) returns (r: Option<nat>)
      requires Valid() && b < |disk| && refs[b] < U32 - 1
      modifies this`bufs, this`at, this`refs
      ensures Valid()
      ensures r.Some? ==> r.value < NBUF && bufs[r.value].Holds(b) && refs == old(refs)[b := old(refs)[b] + 1]
      ensures r.Some? ==> OthersSame(old(bufs), bufs, r.value)
      ensures r.Some? && b in old(at) ==> bufs[r.value] == old(bufs[r.value]).(refcnt := refs[b])
      ensures r.Some? && b !in old(at) ==>
        && old(bufs[r.value]).refcnt == 0 && !bufs[r.value].valid && bufs[r.value].refcnt == refs[b]
        && forall i :: 0 <= i < NBUF && old(bufs[i]).refcnt == 0 ==> stamp[r.value] <= stamp[i]
      ensures r.None? <==> b !in old(at) && forall i :: 0 <= i < NBUF ==> old(bufs[i]).refcnt != 0
      ensures r.None? ==> bufs == old(bufs) && refs == old(refs) && at == old(at)
    {
      var i := FindCached(b);
      ghost var c := b;
      assert Now().BlockOk(b);
      if i < NBUF {
        bufs := bufs[i := bufs[i].(refcnt := Up(bufs[i].refcnt))];
      } else {
        i := FindUnused();
        if i == NBUF {
          return None;
        }
        assert Now().BufOk(i);
        if bufs[i].dev == ROOTDEV {
          c := bufs[i].blockno;
          assert Now().BlockOk(c);
          at := at - {c};
        }
        at := at[b := i];
        bufs := bufs[i := bufs[i].(dev := ROOTDEV, blockno := b, valid := false, refcnt := 1)];
      }
      refs := refs[b := refs[b] + 1];
      Now().Local(old(Now()), i, b, c);
      return Some(i);
    }

    /** Bget, then a disk read if the buffer is not filled in: the caller sees the current contents. */
    method Bread(b: nat) returns (r: Option<nat>)
      requires Valid() && b < |disk| && refs[b] < U32 - 1
      modifies this`bufs, this`at, this`refs
      ensures Valid()
      ensures r.Some? ==> Filled(r.value, b) && refs == old(refs)[b := old(refs)[b] + 1]
      ensures r.Some? ==> OthersSame(old(bufs), bufs, r.value)
      ensures r.Some? ==> old(bufs[r.value]).Holds(b) || old(bufs[r.value]).refcnt == 0
      ensures r.None? <==> old(refs)[b] == 0 && |Used(old(refs))| >= NBUF
      ensures r.None? ==> refs == old(refs)
    {
      NoneFreeIff(Now());
      assert Now().BlockOk(b);
      r := Bget(b);
      if r.Some? {
        assert Now().BlockOk(b) && Now().BufOk(r.value);
        if !bufs[r.value].valid {
          ghost var s := Now();
          bufs := bufs[r.value := bufs[r.value].(data := disk[b], valid := true)];
          Now().Local(s, r.value, b, b);
        }
      }
    }

    /** memmove into a held buffer. */
    method Fill(i: nat, data: Block, ghost b: nat)
      requires Valid() && Filled(i, b) && refs[b] > 0
      modifies this`bufs, this`flat
      ensures Valid() && Filled(i, b) && OthersSame(old(bufs), bufs, i) && flat == old(flat)[b := data]
    {
      assert Now().BlockOk(b) && Now().BufOk(i);
      bufs := bufs[i := bufs[i].(data := data)];
      flat := flat[b := data];
      Now().Local(old(Now()), i, b, b);
    }

    method Bwrite(i: nat, ghost b: nat)
      requires Valid() && Filled(i, b)
      modifies this`disk, this`trace
      ensures Valid() && Filled(i, b) && disk == old(disk)[b := flat[b]] && trace == old(trace) + [disk]
    {
      assert Now().BlockOk(b) && Now().BufOk(i);
      disk := disk[bufs[i].blockno := bufs[i].data];
      trace := trace + [disk];
      Now().Local(old(Now()), i, b, b);
    }

    /** Drop a reference. The last one may go only when the disk is up to date. */
    method Brelse(i: nat, ghost b: nat)
      requires Valid() && Filled(i, b) && (refs[b] == 1 ==> disk[b] == flat[b])
      modifies this`bufs, this`refs, this`lru, this`stamp, this`clock
      ensures Valid() && Filled(i, b) && OthersSame(old(bufs), bufs, i) && refs == old(refs)[b := Down(old(refs)[b])]
      ensures if bufs[i].refcnt == 0 then lru[0] == i else lru == old(lru)
    {
      Unref(i, b);
      if bufs[i].refcnt == 0 {
        Requeue(i);
      }
    }

    method Unref(i: nat, ghost b: nat)
      requires Valid() && Filled(i, b) && (refs[b] == 1 ==> disk[b] == flat[b])
      modifies this`bufs, this`refs
      ensures Valid() && Filled(i, b) && OthersSame(old(bufs), bufs, i) && refs == old(refs)[b := Down(old(refs)[b])]
    {
      assert Now().BlockOk(b) && Now().BufOk(i);
      bufs := bufs[i := bufs[i].(refcnt := Down(bufs[i].refcnt))];
      refs := refs[b := bufs[i].refcnt];
      Now().Local(old(Now()), i, b, b);
    }

    method Requeue(i: nat)
      requires Valid() && i < NBUF
      modifies this`lru, this`stamp, this`clock
      ensures Valid() && lru[0] == i
    {
      assert OnList(lru, i);
      ghost var pos :| 0 <= pos < NBUF && lru[pos] == i;
      var p := 0;
      while lru[p] != i
        invariant 0 <= p <= pos
        decreases pos - p
      {
        p := p + 1;
      }
      MoveKeepsOrder(lru, p, stamp, clock);
      lru := [lru[p]] + lru[..p] + lru[p + 1..];
      stamp, clock := stamp[i := clock + 1], clock + 1;
    }

    method Bpin(i: nat, ghost b: nat)
      requires Valid() && Filled(i, b) && refs[b] < U32 - 1
      modifies this`bufs, this`refs
      ensures Valid() && Filled(i, b) && OthersSame(old(bufs), bufs, i) && refs == old(refs)[b := old(refs)[b] + 1]
    {
      assert Now().BlockOk(b) && Now().BufOk(i);
      bufs := bufs[i := bufs[i].(refcnt := Up(bufs[i].refcnt))];
      refs := refs[b := bufs[i].refcnt];
      Now().Local(old(Now()), i, b, b);
    }

    method Bunpin(i: nat, ghost b: nat)
      requires Valid() && Filled(i, b) && (refs[b] == 1 ==> disk[b] == flat[b])
      modifies this`bufs, this`refs
      ensures Valid() && Filled(i, b) && OthersSame(old(bufs), bufs, i) && refs == old(refs)[b := Down(old(refs)[b])]
    {
      Unref(i, b);
    }
  }
}
