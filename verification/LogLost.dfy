/** A boot whose recovery has installed a block: a run in which an update is logged under another
    block's number, is not seen by the next reader, and is lost when it is committed. So what
    LogCache proves holds in all runs of a boot exactly if its recovery has found an empty log. */
module LogLost {
  import opened LogFormat
  import opened BufferCache
  import opened Log
  import opened LogCache
  import opened LogLeak

  // Thread 1 updates the leaked block b, thread 2 reads block c
  ghost predicate Scene(g: Geometry, s: State, bl: seq<int>, free: seq<nat>, leaks: seq<nat>, b: nat, c: nat, i: nat) {
    && Booted(g, s, bl, free, leaks) && bl != [] && b == bl[0] && g.HomeBlock(s.disk, b) && g.HomeBlock(s.disk, c)
    && c !in bl
    && b in s.at && i == s.at[b] < NBUF && s.bufs[i].block == Some(b) && c !in s.at && 2 <= g.size
  }

  lemma SceneIs(g: Geometry, s: State, bl: seq<int>, free: seq<nat>, leaks: seq<nat>, b: nat, c: nat)
    requires Booted(g, s, bl, free, leaks) && bl != [] && b == bl[0] && g.HomeBlock(s.disk, c) && c !in bl
    requires 2 <= g.size
    requires g.HomeBlock(s.disk, b)
    ensures b in s.at && Scene(g, s, bl, free, leaks, b, c, s.at[b])
  {
    assert b in s.leaked && BlockOk(g, s, b);
  }

  // The buffer that the two share after thread 2 has recycled it
  ghost function Shared(b: nat, c: nat, data: Block, refcnt: nat, dirty: bool): Buffer {
    Buffer(Some(c), false, refcnt, data, Some(1), map[1 := b, 2 := c], dirty)
  }

  ghost function Taken(s: State, b: nat, c: nat, i: nat, u: Buffer): State
    requires i < |s.bufs|
  {
    s.(bufs := s.bufs[i := u], at := (s.at - {b})[c := i], busy := map[2 := i], ops := {1})
  }

  // Thread 1 has logged the new contents of b
  ghost function Mislogged(s: State, b: nat, c: nat, i: nat, data: Block): State
    requires i < |s.bufs| && b < |s.flat|
  {
    Taken(s, b, c, i, Shared(b, c, data, 2, false)).(flat := s.flat[b := data], lh := [c])
  }

  lemma LeakedCounts(g: Geometry, s: State, bl: seq<int>, free: seq<nat>, leaks: seq<nat>, j: nat)
    requires Booted(g, s, bl, free, leaks) && j < |leaks|
    ensures leaks[j] < NBUF && s.bufs[leaks[j]].refcnt == U32 - 1
  {
    assert Leaks(s, leaks[j]) && Free(s, leaks[j]);
    CountFree(g, s, leaks[j]);
  }

  lemma LastFree(g: Geometry, s: State, bl: seq<int>, free: seq<nat>, leaks: seq<nat>)
    requires Booted(g, s, bl, free, leaks)
    ensures free[|free| - 1] < NBUF && s.bufs[free[|free| - 1]].refcnt == 0 && Free(s, free[|free| - 1])
  {
    assert Free(s, free[|free| - 1]);
    CountFree(g, s, free[|free| - 1]);
  }

  // A leaked buffer with one user has a count of 0, and is next
  lemma LeakedIsVictim(s: State, free: seq<nat>, leaks: seq<nat>, i: nat, bufs: seq<Buffer>)
    requires s.lru == free + leaks && i in leaks && Distinct(leaks)
    requires i < |bufs| && bufs[i].refcnt == 0
    requires forall j :: 0 <= j < |leaks| && leaks[j] != i ==> leaks[j] < |bufs| && bufs[leaks[j]].refcnt != 0
    ensures Victim(s.lru, bufs) == Some(i)
  {
    var p :| 0 <= p < |leaks| && leaks[p] == i;
    DistinctAt(leaks, p);
    VictimIs(free + leaks[..p], i, leaks[p + 1..], bufs);
    assert free + leaks[..p] + [i] + leaks[p + 1..] == s.lru;
  }

  lemma Mislogs(g: Geometry, s0: State, s: State, bl: seq<int>, free: seq<nat>, leaks: seq<nat>, b: nat, c: nat,
      i: nat, data: Block)
    requires Reach(g, s0, s) && Scene(g, s, bl, free, leaks, b, c, i)
    ensures b < |s.flat| && Reach(g, s0, Mislogged(s, b, c, i, data))
  {
    var s1 := s.(ops := {1});
    assert s.ops + {1} == {1};
    Extend(g, s0, s, BeginOp(1), s1);
    assert Free(s, i);
    CountFree(g, s, i);
    BreadReach(g, s0, s1, 1, b);
    var s2 := Bread(s1, 1, b);
    var was := s2.bufs[i].data;
    assert s2.bufs[i] == Buffer(Some(b), true, 0, was, Some(1), map[1 := b], false);
    forall j | 0 <= j < |leaks|
      ensures leaks[j] < NBUF && s.bufs[leaks[j]].refcnt == U32 - 1
    {
      LeakedCounts(g, s, bl, free, leaks, j);
    }
    assert Leaks(s, i);
    LeakedIsVictim(s, free, leaks, i, s2.bufs);
    var s3 := Taken(s, b, c, i, Shared(b, c, was, 1, false));
    RecycleNext(g, s, s2, b, c, i, was);
    Extend(g, s0, s2, Get(2, c), s3);
    LogNext(g, s, b, c, i, was, data);
    Extend(g, s0, s3, Modify(1, i, data), Taken(s, b, c, i, Shared(b, c, data, 1, true)));
    Extend(g, s0, Taken(s, b, c, i, Shared(b, c, data, 1, true)), LogWrite(1, i), Mislogged(s, b, c, i, data));
  }

  lemma RecycleNext(g: Geometry, s: State, s2: State, b: nat, c: nat, i: nat, was: Block)
    requires i < |s.bufs| && s.phase.Idle? && !s.booting && s.busy == map[] && c < |s.disk| && c !in s.at && b != c
    requires s2 == s.(ops := {1}, bufs := s.bufs[i := Buffer(Some(b), true, 0, was, Some(1), map[1 := b], false)])
    requires Victim(s.lru, s2.bufs) == Some(i)
    ensures Next(g, s2, Get(2, c)) == Some(Taken(s, b, c, i, Shared(b, c, was, 1, false)))
  {
    assert Recycled(s2, 2, i, c).bufs == Taken(s, b, c, i, Shared(b, c, was, 1, false)).bufs;
  }

  lemma LogNext(g: Geometry, s: State, b: nat, c: nat, i: nat, was: Block, data: Block)
    requires i < |s.bufs| && s.phase.Idle? && !s.booting && s.lh == [] && g.HomeBlock(s.disk, b) && b < |s.flat|
    requires 2 <= g.size
    ensures var s3, s4 := Taken(s, b, c, i, Shared(b, c, was, 1, false)),
        Taken(s, b, c, i, Shared(b, c, data, 1, true));
            Next(g, s3, Modify(1, i, data)) == Some(s4)
              && Next(g, s4, LogWrite(1, i)) == Some(Mislogged(s, b, c, i, data))
  {
    var s3, s4 := Taken(s, b, c, i, Shared(b, c, was, 1, false)), Taken(s, b, c, i, Shared(b, c, data, 1, true));
    assert SetBuf(s3, i, s3.bufs[i].(data := data, dirty := true)).bufs == s4.bufs;
    assert s4.lh + [c] == [c];
    assert Recorded(s4, 1, i).bufs == Mislogged(s, b, c, i, data).bufs;
  }

  // ---------- the next reader ----------

  /** Whoever has a buffer of a home block from bread, and has not changed it since, sees what was
      last logged for that block. */
  ghost predicate Reads(g: Geometry, s: State) {
    forall t, i :: ReadOk(g, s, t, i)
  }

  ghost predicate ReadOk(g: Geometry, s: State, t: Thread, i: nat) {
    !s.booting && Ready(s, t, i) && !s.bufs[i].dirty && g.HomeBlock(s.disk, s.bufs[i].users[t]) ==>
      s.bufs[i].users[t] < |s.flat| && s.bufs[i].data == s.flat[s.bufs[i].users[t]]
  }

  lemma StaleSlot(g: Geometry, s: State, u: State, bl: seq<int>, free: seq<nat>, leaks: seq<nat>, i: nat)
    requires Booted(g, s, bl, free, leaks) && Leaks(s, i) && |u.bufs| == NBUF && u.bufs[i].refcnt != 0 && u.lru == s.lru
    requires forall j :: 0 <= j < NBUF && j != i ==> u.bufs[j] == s.bufs[j]
    ensures free[|free| - 1] < NBUF && free[|free| - 1] != i && Victim(u.lru, u.bufs) == Some(free[|free| - 1])
    ensures Free(u, free[|free| - 1])
  {
    var f := free[|free| - 1];
    LastFree(g, s, bl, free, leaks);
    forall j | 0 <= j < |leaks|
      ensures leaks[j] < NBUF && u.bufs[leaks[j]].refcnt != 0
    {
      LeakedCounts(g, s, bl, free, leaks, j);
    }
    VictimIs(free[..|free| - 1], f, leaks, u.bufs);
    assert free[..|free| - 1] + [f] + leaks == u.lru;
  }

  lemma ReadsStale(g: Geometry, s0: State, s: State, bl: seq<int>, free: seq<nat>, leaks: seq<nat>, b: nat, c: nat,
      i: nat, data: Block) returns (t: State)
    requires Reach(g, s0, s) && Scene(g, s, bl, free, leaks, b, c, i) && data != s.disk[b]
    ensures Reach(g, s0, t) && !Reads(g, t)
  {
    Mislogs(g, s0, s, bl, free, leaks, b, c, i, data);
    var u, f := Mislogged(s, b, c, i, data), free[|free| - 1];
    StaleSlot(g, s, u, bl, free, leaks, i);
    StaleRead(g, s0, u, b, f);
    t := Bread(u, 3, b);
  }

  lemma StaleRead(g: Geometry, s0: State, u: State, b: nat, f: nat)
    requires Reach(g, s0, u) && g.HomeBlock(u.disk, b) && b < |u.flat| && u.flat[b] != u.disk[b] && b !in u.at
    requires !u.booting && u.phase.Idle?
    requires 3 !in u.busy && Victim(u.lru, u.bufs) == Some(f) && Free(u, f)
    ensures Reach(g, s0, Bread(u, 3, b)) && !Reads(g, Bread(u, 3, b))
  {
    BreadReach(g, s0, u, 3, b);
    assert !ReadOk(g, Bread(u, 3, b), 3, f);
  }

  // ---------- the commit ----------

  // Threads 1 and 2 have released the buffer, which now holds c as it is on disk
  ghost function Calmed(s: State, b: nat, c: nat, i: nat, data: Block): State
    requires i < |s.bufs| && b < |s.flat| && c < |s.disk|
  {
    s.(bufs := s.bufs[i := Unused(c, s.disk[c], 0)], at := (s.at - {b})[c := i], lru := [i] + Removed(s.lru, i),
      ops := {1},
       flat := s.flat[b := data], lh := [c])
  }

  lemma Calms(g: Geometry, s0: State, s: State, b: nat, c: nat, i: nat, data: Block)
    requires i < |s.bufs| && b < |s.flat| && c < |s.disk| && !s.booting
    requires s.busy == map[] && Reach(g, s0, Mislogged(s, b, c, i, data))
    ensures Reach(g, s0, Calmed(s, b, c, i, data))
  {
    var u := Mislogged(s, b, c, i, data);
    var v := SetBuf(u, i, u.bufs[i].(holder := None));
    var w := SetBuf(u, i, Buffer(Some(c), false, 1, data, None, map[2 := c], false));
    CalmNext(g, u, v, w, b, c, i, data);
    Extend(g, s0, u, Unlock(1, i), v);
    Extend(g, s0, v, Put(1, i), w);
    CalmEnds(g, s0, s, u, w, b, c, i, data);
  }

  lemma CalmNext(g: Geometry, u: State, v: State, w: State, b: nat, c: nat, i: nat, data: Block)
    requires i < |u.bufs| && u.bufs[i] == Shared(b, c, data, 2, false) && !u.booting && 1 !in u.busy
    requires v == SetBuf(u, i, u.bufs[i].(holder := None))
    requires w == SetBuf(u, i, Buffer(Some(c), false, 1, data, None, map[2 := c], false))
    ensures Next(g, u, Unlock(1, i)) == Some(v) && Next(g, v, Put(1, i)) == Some(w)
  {
    assert map[1 := b, 2 := c] - {1} == map[2 := c];
    assert Lowered(v, 1, i).bufs == w.bufs;
  }

  lemma CalmEnds(g: Geometry, s0: State, s: State, u: State, w: State, b: nat, c: nat, i: nat, data: Block)
    requires i < |s.bufs| && b < |s.flat| && c < |s.disk| && !s.booting
    requires s.busy == map[] && u == Mislogged(s, b, c, i, data)
    requires w == SetBuf(u, i, Buffer(Some(c), false, 1, data, None, map[2 := c], false)) && Reach(g, s0, w)
    ensures Reach(g, s0, Calmed(s, b, c, i, data))
  {
    var x := SetBuf(u, i, Buffer(Some(c), false, 1, data, Some(2), map[2 := c], false));
    var y := SetBuf(u, i, Fresh(c, s.disk[c], 2)).(busy := map[]);
    CalmFills(g, u, w, x, y, c, i, data);
    Extend(g, s0, w, Lock(2), x);
    Extend(g, s0, x, Fill(2), y);
    ReleaseReach(g, s0, y, 2, i);
    assert Release(y, i).bufs == Calmed(s, b, c, i, data).bufs;
  }

  lemma CalmFills(g: Geometry, u: State, w: State, x: State, y: State, c: nat, i: nat, data: Block)
    requires i < |u.bufs| && c < |u.disk| && !u.booting && u.busy == map[2 := i]
    requires w == SetBuf(u, i, Buffer(Some(c), false, 1, data, None, map[2 := c], false))
    requires x == SetBuf(u, i, Buffer(Some(c), false, 1, data, Some(2), map[2 := c], false))
    requires y == SetBuf(u, i, Fresh(c, u.disk[c], 2)).(busy := map[])
    ensures Next(g, w, Lock(2)) == Some(x) && Next(g, x, Fill(2)) == Some(y)
  {
    assert SetBuf(w, i, w.bufs[i].(holder := Some(2))).bufs == x.bufs;
    assert x.busy - {2} == map[];
    assert Filled(x, 2, i).bufs == y.bufs;
  }

  // Where bget finds blocks is where they are
  ghost predicate Table(s: State) {
    && |s.bufs| == NBUF && (forall e :: e in s.at ==> s.at[e] < NBUF && s.bufs[s.at[e]].block == Some(e))
    && forall i :: 0 <= i < NBUF && s.bufs[i].block.Some? ==>
         s.bufs[i].block.value in s.at && s.at[s.bufs[i].block.value] == i
  }

  lemma TableIs(g: Geometry, s: State, bl: seq<int>, free: seq<nat>, leaks: seq<nat>)
    requires Booted(g, s, bl, free, leaks)
    ensures Table(s)
  {
    forall e | e in s.at
      ensures s.at[e] < NBUF && s.bufs[s.at[e]].block == Some(e)
    {
      assert BlockOk(g, s, e);
    }
    forall i | 0 <= i < NBUF && s.bufs[i].block.Some?
      ensures s.bufs[i].block.value in s.at && s.at[s.bufs[i].block.value] == i
    {
      assert BufOk(g, s, i);
    }
  }

  lemma BreadTable(g: Geometry, s: State, t: Thread, b: nat)
    requires Table(s) && CanBread(g, s, t, b)
    ensures Table(Bread(s, t, b))
  {
  }

  // A buffer of the header block has a header's length
  ghost predicate HeadFits(g: Geometry, s: State) {
    && g.start < |s.disk| && |s.disk[g.start]| == WORDS
    && forall i :: 0 <= i < |s.bufs| && s.bufs[i].block == Some(g.start) && s.bufs[i].valid ==>
         |s.bufs[i].data| == WORDS
  }

  // Thread 1 commits; the log names c, but b was logged
  ghost predicate Committing(g: Geometry, w: State, b: nat, c: nat, i: nat, f: nat, head: seq<nat>, tail: seq<nat>,
      x: nat) {
    && AllFree(w) && Table(w) && HeadFits(g, w) && w.phase == Phase.WriteLog(0) && w.lh == [c] && w.owner == 1
    && !w.booting
    && x == g.start + 1 && g.InLog(x) && x < |w.disk| && g.HomeBlock(w.disk, b) && g.HomeBlock(w.disk, c) && b != c
    && i < NBUF && f < NBUF && i != f && c in w.at && w.at[c] == i && w.bufs[i] == Unused(c, w.disk[c], 0)
    && w.bufs[f].refcnt == 0
    && i in w.lru && w.lru == head + [f] + tail
    && forall j :: 0 <= j < |tail| ==> tail[j] < NBUF && w.bufs[tail[j]].refcnt != 0
  }

  lemma CommitAsks(g: Geometry, s: State, t: Thread, b: nat)
    requires AllFree(s) && b in Wanted(g, s)
    ensures MayAsk(g, s, t, b)
  {
    forall i | 0 <= i < |s.bufs|
      ensures t !in s.bufs[i].users
    {
      assert Free(s, i);
    }
  }

  lemma LogBlock(g: Geometry, s0: State, w: State, j: nat, x: nat)
    requires Reach(g, s0, w) && AllFree(w) && x in Wanted(g, w) && x < |w.disk| && !w.booting && Slot(w, x) == Some(j)
    requires j < NBUF
    requires x in w.at ==> w.bufs[j].block == Some(x)
    ensures CanBread(g, w, 1, x) && Reach(g, s0, Bread(w, 1, x))
  {
    CommitAsks(g, w, 1, x);
    assert Free(w, j);
    BreadReach(g, s0, w, 1, x);
  }

  // The log block's buffer is another than c's
  lemma LogSlot(w: State, c: nat, i: nat, f: nat, head: seq<nat>, tail: seq<nat>, x: nat) returns (j: nat)
    requires Table(w) && i < NBUF && f < NBUF && i != f && c in w.at && w.at[c] == i && w.bufs[f].refcnt == 0 && x != c
    requires w.lru == head + [f] + tail
    requires forall j :: 0 <= j < |tail| ==> tail[j] < NBUF && w.bufs[tail[j]].refcnt != 0
    ensures Slot(w, x) == Some(j) && j < NBUF && j != i && w.bufs[j].block != Some(c)
    ensures (x in w.at ==> w.bufs[j].block == Some(x))
  {
    if x in w.at {
      j := w.at[x];
    } else {
      j := f;
      VictimIs(head, f, tail, w.bufs);
    }
  }

  lemma HomeCan(g: Geometry, w: State, w1: State, c: nat, i: nat, x: nat, j: nat)
    requires AllFree(w) && x < |w.disk| && c < |w.disk| && Slot(w, x) == Some(j) && j < NBUF && i < NBUF && j != i
    requires w.bufs[j].block != Some(c) && x != c
    requires w.phase == Phase.WriteLog(0) && w.lh == [c] && w.owner == 1 && !w.booting && x == g.start + 1
    requires c in w.at && w.at[c] == i && w.bufs[i] == Unused(c, w.disk[c], 0) && w1 == Bread(w, 1, x)
    ensures CanBread(g, w1, 1, c) && Slot(w1, c) == Some(i)
  {
    assert c in w1.at && w1.at[c] == i && w1.bufs[i] == w.bufs[i];
    WantsLog(g, w1, 0, x);
    AsksHome(g, w, w1, c, x, j);
  }

  lemma AsksHome(g: Geometry, w: State, w1: State, c: nat, x: nat, j: nat)
    requires AllFree(w) && j < NBUF == |w1.bufs|
    requires w1.bufs[j].users == map[1 := x] && (forall k :: 0 <= k < NBUF && k != j ==> w1.bufs[k] == w.bufs[k])
    requires Wanted(g, w1) == {x, c}
    ensures MayAsk(g, w1, 1, c)
  {
    forall k | 0 <= k < |w1.bufs| && 1 in w1.bufs[k].users
      ensures w1.bufs[k].users[1] == x
    {
      assert Free(w, k);
    }
  }

  // c's contents from disk go to the log
  ghost function Copied1(w: State, at: map<nat, nat>, lru: seq<nat>, u: Buffer, i: nat, j: nat, c: nat, x: nat): State
    requires i < |w.bufs| && j < |w.bufs| && c < |w.disk| && x < |w.disk|
  {
    w.(bufs := w.bufs[j := u][i := Unused(c, w.disk[c], 0)], disk := w.disk[x := w.disk[c]], at := at, lru := lru,
      phase := Phase.WriteLog(1))
  }

  lemma CopyNext1(g: Geometry, w2: State, w3: State, i: nat, j: nat, c: nat, x: nat)
    requires |w2.bufs| == NBUF && i < NBUF && j < NBUF && i != j && w2.busy == map[] && w2.owner == 1 && !w2.booting
    requires w2.phase == Phase.WriteLog(0) && w2.lh == [c] && x == g.start + 1 && x < |w2.disk| && c < |w2.disk|
    requires w2.bufs[i] == Fresh(c, w2.disk[c], 1) && w2.bufs[j].block == Some(x) && w2.bufs[j].holder == Some(1)
    requires w2.bufs[j].users == map[1 := x]
    requires w3 == WriteThrough(w2, j, w2.disk[c], Phase.WriteLog(1))
    ensures Next(g, w2, CopyToLog(j, i)) == Some(w3)
  {
  }

  lemma CopiesToLog(g: Geometry, s0: State, w: State, w2: State, i: nat, j: nat, c: nat, x: nat) returns (w5: State)
    requires Reach(g, s0, w2) && |w2.bufs| == NBUF && i < NBUF && j < NBUF && i != j
    requires w2.busy == map[] && w2.owner == 1 && !w2.booting
    requires w2.phase == Phase.WriteLog(0) && w2.lh == [c] && x == g.start + 1 && x < |w2.disk| && c < |w2.disk|
    requires w2.bufs[i] == Fresh(c, w2.disk[c], 1)
    requires w2.bufs[j] == Buffer(Some(x), true, w2.bufs[j].refcnt, w2.bufs[j].data, Some(1), map[1 := x], false)
    ensures Reach(g, s0, w5)
    ensures w5 == Copied1(w2, w2.at, w5.lru, Unused(x, w2.disk[c], Down(w2.bufs[j].refcnt)), i, j, c, x)
    ensures |w5.lru| > 0 && w5.lru[0] == i
  {
    var w3 := WriteThrough(w2, j, w2.disk[c], Phase.WriteLog(1));
    CopyNext1(g, w2, w3, i, j, c, x);
    Extend(g, s0, w2, CopyToLog(j, i), w3);
    ReleaseReach(g, s0, w3, 1, j);
    var w4 := Release(w3, j);
    assert w4.bufs[i] == w2.bufs[i];
    ReleaseReach(g, s0, w4, 1, i);
    w5 := Release(w4, i);
    assert w5.bufs == Copied1(w2, w2.at, w5.lru, Unused(x, w2.disk[c], Down(w2.bufs[j].refcnt)), i, j, c, x).bufs;
  }

  lemma {:induction false} VictimExists(lru: seq<nat>, p: nat, n: nat, bufs: seq<Buffer>)
    requires p < n <= |lru| && lru[p] < |bufs| && bufs[lru[p]].refcnt == 0
    ensures VictimIn(lru, n, bufs).Some?
  {
    if p + 1 < n {
      VictimExists(lru, p, n - 1, bufs);
    }
  }

  /** The disk recovers to the contents at the last commit. */
  ghost predicate Atomic(g: Geometry, s: State) {
    GoodHead(s.disk, g) && |s.stable| == |s.disk| && forall b :: g.HomeBlock(s.disk, b) ==>
      Recovered(s.disk, g, b) == s.stable[b]
  }

  lemma HeadNamesC(g: Geometry, s0: State, w: State, b: nat, c: nat, i: nat) returns (t: State)
    requires Reach(g, s0, w) && AllFree(w) && Table(w) && HeadFits(g, w) && w.phase == Phase.WriteLog(1)
    requires w.lh == [c] && w.owner == 1 && !w.booting
    requires |w.lru| > 0 && w.lru[0] == i < NBUF && w.bufs[i].refcnt == 0 && 2 <= g.size && g.start + g.size <= |w.disk|
    requires g.HomeBlock(w.disk, b) && g.HomeBlock(w.disk, c) && b != c && |w.flat| == |w.disk|
    requires w.flat[b] != w.disk[b]
    ensures Reach(g, s0, t) && !Atomic(g, t)
  {
    CommitAsks(g, w, 1, g.start);
    if g.start !in w.at {
      VictimExists(w.lru, 0, |w.lru|, w.bufs);
    }
    var j := Slot(w, g.start).value;
    assert Free(w, j);
    BreadReach(g, s0, w, 1, g.start);
    var u := Bread(w, 1, g.start);
    t := WriteThrough(u, j, PutHead(u.bufs[j].data, [c]), Install(0)).(stable := u.flat);
    HeadNext(g, u, j, c, t);
    Extend(g, s0, u, WriteHead(j), t);
    LostNow(g, u.bufs[j].data, w.disk, t.disk, b, c);
  }

  lemma HeadNext(g: Geometry, u: State, j: nat, c: nat, t: State)
    requires j < |u.bufs| && u.bufs[j].holder == Some(1)
    requires u.bufs[j].users == map[1 := g.start] && |u.bufs[j].data| == WORDS && u.bufs[j].block.Some?
    requires u.phase == Phase.WriteLog(1) && u.lh == [c] && u.owner == 1 && u.busy == map[]
    requires t == WriteThrough(u, j, PutHead(u.bufs[j].data, [c]), Install(0)).(stable := u.flat)
    ensures Next(g, u, WriteHead(j)) == Some(t)
  {
  }

  lemma LostNow(g: Geometry, was: Block, d: Disk, e: Disk, b: nat, c: nat)
    requires |was| == WORDS && 2 <= g.size && g.start + g.size <= |d| && e == d[g.start := PutHead(was, [c])]
    requires g.HomeBlock(d, b) && g.HomeBlock(d, c) && b != c
    ensures GoodHead(e, g) && Recovered(e, g, b) == d[b]
  {
    assert e[g.start][0] == 1 && e[g.start][1..2] == [c];
    var bl := HeadBlocks(e, g);
    assert bl == [c] && bl[..1] == bl;
    HomeAfterLast(e, g, bl, 1, b);
  }

  lemma CommittingIs(g: Geometry, s: State, bl: seq<int>, free: seq<nat>, leaks: seq<nat>, b: nat, c: nat, i: nat,
      data: Block) returns (w: State, head: seq<nat>, tail: seq<nat>)
    requires Scene(g, s, bl, free, leaks, b, c, i) && b < |s.flat| && c < |s.disk|
    ensures w == Calmed(s, b, c, i, data).(phase := Phase.WriteLog(0), owner := 1, ops := {})
    ensures Next(g, Calmed(s, b, c, i, data), EndOp(1)) == Some(w)
    ensures Committing(g, w, b, c, i, free[|free| - 1], head, tail, g.start + 1)
  {
    var v := Calmed(s, b, c, i, data);
    w := v.(phase := Phase.WriteLog(0), owner := 1, ops := {});
    CalmedFree(g, s, bl, free, leaks, b, c, i, data);
    EndNext(g, v);
    CalmedTable(g, s, bl, free, leaks, b, c, i, data);
    forall j | 0 <= j < |leaks|
      ensures leaks[j] < NBUF && s.bufs[leaks[j]].refcnt != 0
    {
      LeakedCounts(g, s, bl, free, leaks, j);
    }
    assert Leaks(s, i);
    LastFree(g, s, bl, free, leaks);
    head, tail := CalmedList(s, free, leaks, i, v.bufs);
    forall j | 0 <= j < NBUF
      ensures Free(w, j)
    {
      assert Free(v, j);
    }
  }

  lemma EndNext(g: Geometry, v: State)
    requires AllFree(v) && !v.booting && v.ops == {1} && v.lh != []
    ensures Next(g, v, EndOp(1)) == Some(v.(phase := Phase.WriteLog(0), owner := 1, ops := {}))
  {
    forall j | 0 <= j < |v.bufs|
      ensures 1 !in v.bufs[j].users
    {
      assert Free(v, j);
    }
  }

  lemma CalmedFree(g: Geometry, s: State, bl: seq<int>, free: seq<nat>, leaks: seq<nat>, b: nat, c: nat, i: nat,
      data: Block)
    requires Scene(g, s, bl, free, leaks, b, c, i) && b < |s.flat| && c < |s.disk|
    ensures AllFree(Calmed(s, b, c, i, data)) && HeadFits(g, Calmed(s, b, c, i, data))
  {
    var v := Calmed(s, b, c, i, data);
    forall j | 0 <= j < NBUF
      ensures Free(v, j) && (v.bufs[j].block == Some(g.start) && v.bufs[j].valid ==> |v.bufs[j].data| == WORDS)
    {
      assert Free(s, j) && BufOk(g, s, j) && g.InLog(g.start);
    }
  }

  lemma CalmedTable(g: Geometry, s: State, bl: seq<int>, free: seq<nat>, leaks: seq<nat>, b: nat, c: nat, i: nat,
      data: Block)
    requires Scene(g, s, bl, free, leaks, b, c, i) && b < |s.flat| && c < |s.disk|
    ensures Table(Calmed(s, b, c, i, data))
  {
    TableIs(g, s, bl, free, leaks);
  }

  // The list once the leaked buffer i has been moved to the front
  lemma CalmedSplit(a: seq<nat>, f: nat, l1: seq<nat>, i: nat, l2: seq<nat>)
    requires i !in a && i != f && i !in l1
    ensures [i] + Removed(a + [f] + (l1 + [i] + l2), i) == [i] + a + [f] + (l1 + l2)
  {
    RemovedAt(a + [f] + l1, i, l2);
    Joined(a + [f], l1, i, l2);
    assert [i] + (a + [f] + (l1 + l2)) == [i] + a + [f] + (l1 + l2);
  }

  lemma CalmedList(s: State, free: seq<nat>, leaks: seq<nat>, i: nat, bufs: seq<Buffer>)
      returns (head: seq<nat>, tail: seq<nat>)
    requires s.lru == free + leaks && free != [] && i in leaks && i !in free && Distinct(leaks)
    requires |bufs| == NBUF
    requires forall j :: 0 <= j < |leaks| && leaks[j] != i ==> leaks[j] < NBUF && bufs[leaks[j]].refcnt != 0
    ensures [i] + Removed(s.lru, i) == head + [free[|free| - 1]] + tail
    ensures forall j :: 0 <= j < |tail| ==> tail[j] < NBUF && bufs[tail[j]].refcnt != 0
  {
    var p :| 0 <= p < |leaks| && leaks[p] == i;
    DistinctAt(leaks, p);
    var a, f, l1, l2 := free[..|free| - 1], free[|free| - 1], leaks[..p], leaks[p + 1..];
    tail := l1 + l2;
    head := [i] + a;
    assert s.lru == a + [f] + (l1 + [i] + l2) by { assert free == a + [f] && leaks == l1 + [i] + l2; }
    CalmedSplit(a, f, l1, i, l2);
    forall j | 0 <= j < |tail|
      ensures tail[j] < NBUF && bufs[tail[j]].refcnt != 0
    {
      assert tail[j] == leaks[if j < p then j else j + 1];
    }
  }

  lemma LosesUpdate(g: Geometry, s0: State, s: State, bl: seq<int>, free: seq<nat>, leaks: seq<nat>, b: nat, c: nat,
      i: nat, data: Block) returns (t: State)
    requires Reach(g, s0, s) && Scene(g, s, bl, free, leaks, b, c, i) && data != s.disk[b]
    ensures Reach(g, s0, t) && !Atomic(g, t)
  {
    Mislogs(g, s0, s, bl, free, leaks, b, c, i, data);
    Calms(g, s0, s, b, c, i, data);
    var w, head, tail := CommittingIs(g, s, bl, free, leaks, b, c, i, data);
    Extend(g, s0, Calmed(s, b, c, i, data), EndOp(1), w);
    t := CommitsLoss(g, s0, w, b, c, i, free[|free| - 1], head, tail);
  }

  lemma CommitsLoss(g: Geometry, s0: State, w: State, b: nat, c: nat, i: nat, f: nat, head: seq<nat>, tail: seq<nat>)
      returns (t: State)
    requires Reach(g, s0, w) && Committing(g, w, b, c, i, f, head, tail, g.start + 1) && 2 <= g.size
    requires g.start + g.size <= |w.disk|
    requires |w.flat| == |w.disk| && w.flat[b] != w.disk[b]
    ensures Reach(g, s0, t) && !Atomic(g, t)
  {
    var x := g.start + 1;
    var j := LogSlot(w, c, i, f, head, tail, x);
    WantsLog(g, w, 0, x);
    LogBlock(g, s0, w, j, x);
    t := CommitsNext(g, s0, w, b, c, i, j, x);
  }

  lemma CommitsNext(g: Geometry, s0: State, w: State, b: nat, c: nat, i: nat, j: nat, x: nat) returns (t: State)
    requires AllFree(w) && Table(w) && HeadFits(g, w) && w.phase == Phase.WriteLog(0) && w.lh == [c] && w.owner == 1
    requires !w.booting
    requires x == g.start + 1 && g.HomeBlock(w.disk, b) && g.HomeBlock(w.disk, c) && b != c && 2 <= g.size
    requires g.start + g.size <= |w.disk|
    requires i < NBUF && j < NBUF && i != j && Slot(w, x) == Some(j) && w.bufs[j].block != Some(c)
    requires CanBread(g, w, 1, x) && Reach(g, s0, Bread(w, 1, x)) && c in w.at && w.at[c] == i
    requires w.bufs[i] == Unused(c, w.disk[c], 0)
    requires |w.flat| == |w.disk| && w.flat[b] != w.disk[b]
    ensures Reach(g, s0, t) && !Atomic(g, t)
  {
    var w1 := Bread(w, 1, x);
    HomeCan(g, w, w1, c, i, x, j);
    BreadReach(g, s0, w1, 1, c);
    BreadTable(g, w, 1, x);
    t := CommitsRead(g, s0, w, w1, b, c, i, j, x);
  }

  lemma CommitsRead(g: Geometry, s0: State, w: State, w1: State, b: nat, c: nat, i: nat, j: nat, x: nat)
      returns (t: State)
    requires AllFree(w) && HeadFits(g, w) && w.phase == Phase.WriteLog(0) && w.lh == [c] && w.owner == 1 && !w.booting
    requires x == g.start + 1 && g.HomeBlock(w.disk, b) && g.HomeBlock(w.disk, c) && b != c && 2 <= g.size
    requires g.start + g.size <= |w.disk|
    requires i < NBUF && j < NBUF && i != j && Slot(w, x) == Some(j) && w1 == Bread(w, 1, x) && Table(w1)
    requires CanBread(g, w1, 1, c) && Slot(w1, c) == Some(i) && Reach(g, s0, Bread(w1, 1, c))
    requires w.bufs[i] == Unused(c, w.disk[c], 0)
    requires |w.flat| == |w.disk| && w.flat[b] != w.disk[b]
    ensures Reach(g, s0, t) && !Atomic(g, t)
  {
    var w2 := Bread(w1, 1, c);
    BreadTable(g, w1, 1, c);
    var w5 := CopiesToLog(g, s0, w, w2, i, j, c, x);
    CopiedQuiet(g, w, w2, w5, i, j, c, x);
    t := HeadNamesC(g, s0, w5, b, c, i);
  }

  lemma CopiedQuiet(g: Geometry, w: State, w2: State, w5: State, i: nat, j: nat, c: nat, x: nat)
    requires AllFree(w) && HeadFits(g, w) && Table(w2) && i < NBUF && j < NBUF && i != j && c < |w.disk|
    requires x < |w.disk| && x != g.start && c != g.start
    requires |w2.bufs| == NBUF && w2.disk == w.disk && w2.busy == w.busy && w2.bufs[i].block == Some(c)
    requires w2.bufs[j].block == Some(x)
    requires forall k :: 0 <= k < NBUF && k != i && k != j ==> w2.bufs[k] == w.bufs[k]
    requires w5 == Copied1(w2, w2.at, w5.lru, Unused(x, w2.disk[c], Down(w2.bufs[j].refcnt)), i, j, c, x)
    ensures AllFree(w5) && HeadFits(g, w5) && Table(w5)
  {
    forall k | 0 <= k < NBUF
      ensures Free(w5, k) && w5.bufs[k].block == w2.bufs[k].block
    {
      assert Free(w, k);
    }
  }

  // ---------- exactly when ----------

  /** What LogCache promises of reading, in every run of one boot from disk image d. */
  ghost predicate ReadsHold(g: Geometry, d: Disk)
    requires Bootable(g, d)
  {
    forall s :: Reach(g, Start(g, d), s) ==> Reads(g, s)
  }

  /** ... and of a crash. */
  ghost predicate AtomicHolds(g: Geometry, d: Disk)
    requires Bootable(g, d)
  {
    forall s :: Reach(g, Start(g, d), s) ==> Atomic(g, s)
  }

  // A boot that has found an empty log
  ghost predicate Clean(g: Geometry, s: State) {
    Inv(g, s) && s.leaked == {} && (s.booting ==> HeadCount(s.disk, g) == 0)
  }

  lemma CleanStep(g: Geometry, s: State, a: Step, t: State)
    requires Clean(g, s) && Next(g, s, a) == Some(t) && !a.Crash?
    ensures Clean(g, t)
  {
    NoLeakNoClash(g, s, a);
    StepKeepsInv(g, s, a, t);
    assert s.booting ==> |Listed(g, s)| == 0;
    BootHead(g, s, a, t);
  }

  // Recovery with an empty log writes nothing but the header
  lemma BootHead(g: Geometry, s: State, a: Step, t: State)
    requires Next(g, s, a) == Some(t) && !a.Crash? && (s.booting ==> s.lh == [])
    requires s.booting ==> s.phase.Reading? || s.phase.Install?
    ensures (t.booting ==> s.booting && t.disk == s.disk) && t.leaked == s.leaked
  {
    BootsNoMore(g, s, a, t);
    if a.CopyHome? {
      assert !s.booting;
    }
  }

  lemma BootsNoMore(g: Geometry, s: State, a: Step, t: State)
    requires Next(g, s, a) == Some(t) && !a.Crash?
    ensures t.booting ==> s.booting
    ensures t.disk != s.disk ==> a.CopyToLog? || a.WriteHead? || a.CopyHome? || a.ClearHead?
    ensures t.leaked != s.leaked ==> a.CopyHome? && s.booting
  {
  }

  lemma {:induction false} CleanRun(g: Geometry, d: Disk, steps: seq<Step>, s: State)
    requires Bootable(g, d) && HeadCount(d, g) == 0 && Calm(steps) && After(g, Start(g, d), steps) == Some(s)
    ensures Clean(g, s)
    decreases |steps|
  {
    if steps == [] {
      StartOk(g, d);
    } else {
      var last := |steps| - 1;
      var before := After(g, Start(g, d), steps[..last]).value;
      CleanRun(g, d, steps[..last], before);
      CleanStep(g, before, steps[last], s);
    }
  }

  lemma CleanHolds(g: Geometry, s: State)
    requires Clean(g, s)
    ensures Reads(g, s) && Atomic(g, s)
  {
    Recovers(g, s);
    forall t, i
      ensures ReadOk(g, s, t, i)
    {
      if Ready(s, t, i) {
        assert BufOk(g, s, i) && UserOk(s, i, t);
      }
    }
  }

  /** In every run of a boot readers see what was last logged, and the disk recovers to the last
      commit, if and only if recovery has found an empty log, or one of NBUF blocks, which it cannot
      get through. The disk has some home block besides those in the log. */
  lemma BootSafeIff(g: Geometry, d: Disk, c: nat)
    requires Bootable(g, d) && g.HomeBlock(d, c) && c !in HeadBlocks(d, g)
    ensures ReadsHold(g, d) <==> HeadCount(d, g) == 0 || HeadCount(d, g) == NBUF
    ensures AtomicHolds(g, d) <==> HeadCount(d, g) == 0 || HeadCount(d, g) == NBUF
  {
    if HeadCount(d, g) == 0 || HeadCount(d, g) == NBUF {
      forall s | Reach(g, Start(g, d), s)
        ensures Reads(g, s) && Atomic(g, s)
      {
        var steps :| Calm(steps) && After(g, Start(g, d), steps) == Some(s);
        SafeRun(g, d, steps, s);
      }
    } else {
      BootFails(g, d, c);
    }
  }

  lemma SafeRun(g: Geometry, d: Disk, steps: seq<Step>, s: State)
    requires Bootable(g, d) && Calm(steps) && After(g, Start(g, d), steps) == Some(s)
    requires HeadCount(d, g) == 0 || HeadCount(d, g) == NBUF
    ensures Reads(g, s) && Atomic(g, s)
  {
    if HeadCount(d, g) == 0 {
      CleanRun(g, d, steps, s);
      CleanHolds(g, s);
    } else {
      StuckRun(g, d, steps, s);
      StuckHolds(g, s);
    }
  }

  lemma {:induction false} SameSize(g: Geometry, s0: State, steps: seq<Step>, s: State)
    requires After(g, s0, steps) == Some(s)
    ensures |s.disk| == |s0.disk|
    decreases |steps|
  {
    if steps != [] {
      SameSize(g, s0, steps[..|steps| - 1], After(g, s0, steps[..|steps| - 1]).value);
      StepSize(g, After(g, s0, steps[..|steps| - 1]).value, steps[|steps| - 1], s);
    }
  }

  lemma StepSize(g: Geometry, s: State, a: Step, t: State)
    requires Next(g, s, a) == Some(t)
    ensures |t.disk| == |s.disk|
  {
  }

  // A state from which an update is lost
  lemma BootScene(g: Geometry, d: Disk, c: nat) returns (s: State, free: seq<nat>, leaks: seq<nat>, b: nat)
    requires Bootable(g, d) && 0 < |HeadBlocks(d, g)| < NBUF && g.HomeBlock(d, c) && c !in HeadBlocks(d, g)
    ensures Reach(g, Start(g, d), s) && b in s.at && Scene(g, s, HeadBlocks(d, g), free, leaks, b, c, s.at[b])
    ensures |s.disk| == |d|
  {
    s, free, leaks := BootEnds(g, d);
    var steps :| Calm(steps) && After(g, Start(g, d), steps) == Some(s);
    SameSize(g, Start(g, d), steps, s);
    b := HeadBlocks(d, g)[0];
    assert g.HomeBlock(d, HeadBlocks(d, g)[0]);
    SceneIs(g, s, HeadBlocks(d, g), free, leaks, b, c);
  }

  // Other contents, of the same length
  ghost function Changed(was: Block): (data: Block)
    ensures data != was && (was != [] ==> |data| == |was|)
  {
    if was == [] then [0]
    else
      var data := was[0 := if was[0] == 0 then 1 else 0];
      assert data[0] != was[0];
      data
  }

  lemma BootFails(g: Geometry, d: Disk, c: nat)
    requires Bootable(g, d) && 0 < |HeadBlocks(d, g)| < NBUF && g.HomeBlock(d, c) && c !in HeadBlocks(d, g)
    ensures !ReadsHold(g, d) && !AtomicHolds(g, d)
  {
    var s, free, leaks, b := BootScene(g, d, c);
    var data := Changed(s.disk[b]);
    var t := ReadsStale(g, Start(g, d), s, HeadBlocks(d, g), free, leaks, b, c, s.at[b], data);
    var u := LosesUpdate(g, Start(g, d), s, HeadBlocks(d, g), free, leaks, b, c, s.at[b], data);
  }

  // ---------- a log as long as the cache ----------

  // Blocks in different buffers are no more than the buffers
  lemma NoMoreThanBuffers(bs: set<nat>, s: State)
    requires forall b :: b in bs ==> Placed(s, b)
    ensures |bs| <= |s.bufs|
  {
    NoMoreThan(bs, s, |s.bufs|);
  }

  lemma {:induction false} NoMoreThan(bs: set<nat>, s: State, n: nat)
    requires n <= |s.bufs| && forall b :: b in bs ==> Placed(s, b) && s.at[b] < n
    ensures |bs| <= n
    decreases n
  {
    if bs != {} {
      if b :| b in bs && s.at[b] == n - 1 {
        NoMoreThan(bs - {b}, s, n - 1);
      } else {
        NoMoreThan(bs, s, n - 1);
      }
    }
  }

  // Recovery of a log of NBUF blocks: the blocks that it has installed keep their buffers
  ghost predicate Stuck(g: Geometry, s: State) {
    && s.booting && Inv(g, s) && Alone(s) && Done(s) < |Listed(g, s)| == NBUF
    && forall k :: 0 <= k < Done(s) ==> Listed(g, s)[k] in s.leaked
  }

  ghost function FirstOf(bl: seq<int>, k: nat): set<nat>
    requires k <= |bl| && forall j :: 0 <= j < k ==> bl[j] >= 0
  {
    set j: nat | j < k :: bl[j]
  }

  lemma {:induction false} FirstSize(bl: seq<int>, k: nat)
    requires k <= |bl| && NoDup(bl) && forall j :: 0 <= j < k ==> bl[j] >= 0
    ensures |FirstOf(bl, k)| == k
  {
    if k > 0 {
      FirstSize(bl, k - 1);
      assert FirstOf(bl, k) == FirstOf(bl, k - 1) + {bl[k - 1]};
      assert bl[k - 1] !in FirstOf(bl, k - 1);
    }
  }

  ghost predicate Placed(s: State, b: nat) {
    b in s.at && s.at[b] < |s.bufs| && s.bufs[s.at[b]].block == Some(b)
  }

  lemma HasPlaced(g: Geometry, s: State, i: nat, b: nat)
    requires Inv(g, s) && Has(s, s.owner, i, b)
    ensures Placed(s, b)
  {
    assert BufOk(g, s, i) && UserOk(s, i, s.owner);
  }

  lemma LeakedPlaced(g: Geometry, s: State, k: nat)
    requires Inv(g, s) && k < |s.lh| && s.lh[k] in s.leaked && s.phase.Install?
    ensures s.lh[k] >= 0 && Placed(s, s.lh[k])
  {
    assert g.HomeBlock(s.disk, s.lh[k]);
    assert BlockOk(g, s, s.lh[k]);
  }

  lemma LogApart(g: Geometry, d: Disk, bl: seq<int>, x: nat)
    requires GoodList(d, g, bl) && g.InLog(x)
    ensures x !in bl && forall j :: 0 <= j < |bl| ==> bl[j] >= 0
  {
    assert forall j :: 0 <= j < |bl| ==> g.HomeBlock(d, bl[j]);
  }

  // A round needs two buffers besides
  lemma RoundNeedsTwo(g: Geometry, s: State, a: Step)
    requires Stuck(g, s) && a.CopyHome? && Next(g, s, a).Some?
    ensures s.phase.tail + 2 <= NBUF
  {
    var k, x: nat := s.phase.tail, g.start + 1 + s.phase.tail;
    LogApart(g, s.disk, s.lh, x);
    HasPlaced(g, s, a.from, x);
    HasPlaced(g, s, a.i, s.lh[k]);
    RoundSize(s.lh, k, x);
    forall j | 0 <= j < k
      ensures Placed(s, s.lh[j])
    {
      LeakedPlaced(g, s, j);
    }
    NoMoreThanBuffers(FirstOf(s.lh, k) + {x, s.lh[k]}, s);
  }

  lemma RoundSize(bl: seq<int>, k: nat, x: nat)
    requires k < |bl| && NoDup(bl) && x !in bl && forall j :: 0 <= j < |bl| ==> bl[j] >= 0
    ensures |FirstOf(bl, k) + {x, bl[k]}| == k + 2
  {
    FirstSize(bl, k);
    var a: nat := bl[k];
    assert a !in FirstOf(bl, k) && x !in FirstOf(bl, k) + {a};
    assert FirstOf(bl, k) + {x, a} == FirstOf(bl, k) + {a} + {x};
  }

  lemma StuckStep(g: Geometry, s: State, a: Step, t: State)
    requires Stuck(g, s) && Next(g, s, a) == Some(t) && !a.Crash?
    ensures Stuck(g, t)
  {
    NoLeakNoClash(g, s, a);
    StepKeepsInv(g, s, a, t);
    AloneKept(g, s, a, t);
    if a.CopyHome? {
      RoundNeedsTwo(g, s, a);
    }
    StuckList(g, s, a, t);
  }

  lemma StuckList(g: Geometry, s: State, a: Step, t: State)
    requires Next(g, s, a) == Some(t) && !a.Crash? && s.booting && s.ops == {}
    requires (s.phase.Reading? || s.phase.Install?) && Done(s) < |Listed(g, s)|
    ensures t.booting && s.leaked <= t.leaked
    ensures if a.ReadHead? then t.disk == s.disk && s.phase.Reading? else Listed(g, t) == Listed(g, s)
    ensures Done(t) == if a.CopyHome? then Done(s) + 1 else if a.ReadHead? then 0 else Done(s)
    ensures a.CopyHome? ==> s.phase.Install? && Listed(g, s)[Done(s)] in t.leaked
  {
  }

  lemma {:induction false} StuckRun(g: Geometry, d: Disk, steps: seq<Step>, s: State)
    requires Bootable(g, d) && |HeadBlocks(d, g)| == NBUF && Calm(steps) && After(g, Start(g, d), steps) == Some(s)
    ensures Stuck(g, s)
    decreases |steps|
  {
    if steps == [] {
      StartOk(g, d);
    } else {
      var last := |steps| - 1;
      var before := After(g, Start(g, d), steps[..last]).value;
      StuckRun(g, d, steps[..last], before);
      StuckStep(g, before, steps[last], s);
    }
  }

  lemma StuckHolds(g: Geometry, s: State)
    requires Stuck(g, s)
    ensures Reads(g, s) && Atomic(g, s)
  {
    Recovers(g, s);
  }
}
