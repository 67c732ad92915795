/** The same boots seen from the disk alone: a run in which the committing thread writes a log block
    into a home block, because its buffer has been recycled under it. So that only the write of the
    header changes what the disk recovers to holds in all runs of a boot, too, exactly if its
    recovery has found an empty log. */
module LogStray {
  import opened LogFormat
  import opened BufferCache
  import opened Log
  import opened LogCache
  import opened LogLeak
  import opened LogLost

  // Thread 1 commits block e, thread 2 has the leaked block b in buffer i, and no buffer is unused
  ghost predicate Crowded(g: Geometry, w: State, b: nat, e: nat, c: nat, x: nat, i: nat, f: nat, data: Block,
      before: seq<nat>, after: seq<nat>) {
    && |w.bufs| == NBUF && !w.booting && w.phase == Phase.WriteLog(0) && w.lh == [e] && w.owner == 1 && i < NBUF
    && f < NBUF && i != f
    && w.bufs[i] == Buffer(Some(b), true, 0, w.bufs[i].data, Some(2), map[2 := b], false)
    && w.bufs[f] == Unused(e, data, 1)
    && e in w.at && w.at[e] == f && x !in w.at && c !in w.at && x == g.start + 1 && x < |w.disk| && e < |w.disk|
    && c < |w.disk|
    && x != e && x != c && e != c && b != e && b != x && b != c
    && (forall j :: 0 <= j < NBUF && j != i ==> w.bufs[j].refcnt != 0 && 1 !in w.bufs[j].users)
    && w.lru == before + [i] + after && i !in before && i !in after
    && (forall j :: 0 <= j < |before| ==> before[j] < NBUF)
    && (forall j :: 0 <= j < |after| ==> after[j] < NBUF) && 1 !in w.busy && 2 !in w.busy && 3 !in w.busy
  }

  // The states that follow: only buffers i and f, and who is busy, change
  ghost function Next1(w: State, i: nat, u: Buffer, at: map<nat, nat>, busy: map<Thread, nat>, lru: seq<nat>): State
    requires i < |w.bufs|
  {
    w.(bufs := w.bufs[i := u], at := at, busy := busy, lru := lru)
  }

  ghost function AtX(w: State, b: nat, x: nat, i: nat): map<nat, nat> { (w.at - {b})[x := i] }

  // bget of a block that is not in the cache
  lemma MissNext(g: Geometry, s0: State, w: State, t: Thread, b: nat, i: nat)
    requires Reach(g, s0, w) && !w.booting && t < NPROC && t !in w.busy && b < |w.disk| && b !in w.at
    requires MayAsk(g, w, t, b)
    requires Victim(w.lru, w.bufs) == Some(i)
    ensures Reach(g, s0, Recycled(w, t, i, b))
  {
    assert Next(g, w, Get(t, b)) == Some(Recycled(w, t, i, b));
    Extend(g, s0, w, Get(t, b), Recycled(w, t, i, b));
  }

  ghost function Overtaken(w: State, b: nat, x: nat, i: nat): State
    requires i < |w.bufs|
  {
    Next1(w, i, Buffer(Some(x), false, 1, w.bufs[i].data, Some(2), map[2 := b, 1 := x], false), AtX(w, b, x, i),
      w.busy[1 := i], w.lru)
  }

  // Thread 1 takes buffer i from under thread 2
  lemma Takes(g: Geometry, s0: State, w: State, b: nat, e: nat, c: nat, x: nat, i: nat, f: nat, data: Block,
      before: seq<nat>, after: seq<nat>)
    requires Reach(g, s0, w) && Crowded(g, w, b, e, c, x, i, f, data, before, after)
    ensures Reach(g, s0, Overtaken(w, b, x, i))
  {
    TakesSlot(w, i, before, after);
    AsksFirst(g, w, i, x);
    MissNext(g, s0, w, 1, x, i);
    TakenIs(w, b, x, i);
  }

  lemma TakesSlot(w: State, i: nat, before: seq<nat>, after: seq<nat>)
    requires w.lru == before + [i] + after && i < |w.bufs| && w.bufs[i].refcnt == 0 && i !in after
    requires forall j :: 0 <= j < |w.bufs| && j != i ==> w.bufs[j].refcnt != 0
    requires forall j :: 0 <= j < |after| ==> after[j] < |w.bufs|
    ensures Victim(w.lru, w.bufs) == Some(i)
  {
    VictimIs(before, i, after, w.bufs);
  }

  lemma AsksFirst(g: Geometry, w: State, i: nat, x: nat)
    requires x in Wanted(g, w) && i < |w.bufs| && 1 !in w.bufs[i].users
    requires forall j :: 0 <= j < |w.bufs| && j != i ==> 1 !in w.bufs[j].users
    ensures MayAsk(g, w, 1, x)
  {
  }

  lemma TakenIs(w: State, b: nat, x: nat, i: nat)
    requires i < |w.bufs| && w.bufs[i] == Buffer(Some(b), true, 0, w.bufs[i].data, Some(2), map[2 := b], false)
    ensures Recycled(w, 1, i, x) == Overtaken(w, b, x, i)
  {
    assert map[2 := b][1 := x] == map[2 := b, 1 := x];
    assert Recycled(w, 1, i, x).bufs[i] == Overtaken(w, b, x, i).bufs[i];
    assert Recycled(w, 1, i, x).bufs == Overtaken(w, b, x, i).bufs;
  }

  // ... and thread 2 releases it
  lemma TakesOver(g: Geometry, s0: State, w: State, b: nat, x: nat, i: nat, before: seq<nat>, after: seq<nat>)
    requires i < |w.bufs| && Reach(g, s0, Overtaken(w, b, x, i)) && !w.booting && 2 !in w.busy
    requires w.lru == before + [i] + after && i !in before
    ensures Reach(g, s0,
        Next1(w, i, Buffer(Some(x), false, 0, w.bufs[i].data, None, map[1 := x], false), AtX(w, b, x, i),
        w.busy[1 := i], [i] + before + after))
  {
    var z := w.bufs[i].data;
    var u := Overtaken(w, b, x, i);
    var v := Next1(w, i, Buffer(Some(x), false, 1, z, None, map[2 := b, 1 := x], false), AtX(w, b, x, i),
      w.busy[1 := i], w.lru);
    var y := Next1(w, i, Buffer(Some(x), false, 0, z, None, map[1 := x], false), AtX(w, b, x, i),
      w.busy[1 := i], [i] + before + after);
    assert y.lru == [i] + Removed(u.lru, i) by {
      RemovedAt(before, i, after);
      assert [i] + (before + after) == [i] + before + after;
    }
    assert u.bufs[i := v.bufs[i]] == v.bufs && u.bufs[i := y.bufs[i]] == y.bufs;
    TakenNext(g, u, v, y, b, x, i, z);
    Extend(g, s0, u, Unlock(2, i), v);
    Extend(g, s0, v, Put(2, i), y);
  }

  lemma TakenNext(g: Geometry, u: State, v: State, y: State, b: nat, x: nat, i: nat, z: Block)
    requires i < |u.bufs| && !u.booting && 2 !in u.busy
    requires u.bufs[i] == Buffer(Some(x), false, 1, z, Some(2), map[2 := b, 1 := x], false)
    requires v == u.(bufs := u.bufs[i := Buffer(Some(x), false, 1, z, None, map[2 := b, 1 := x], false)])
    requires y == u.(bufs := u.bufs[i := Buffer(Some(x), false, 0, z, None, map[1 := x], false)], lru := y.lru)
    requires y.lru == [i] + Removed(u.lru, i)
    ensures Next(g, u, Unlock(2, i)) == Some(v) && Next(g, v, Put(2, i)) == Some(y)
  {
    assert map[2 := b, 1 := x] - {2} == map[1 := x];
    assert Lowered(v, 2, i).bufs == y.bufs;
  }

  // Thread 1 has the log block and e; the count of the first is 0
  ghost function HasThem(w: State, b: nat, e: nat, x: nat, i: nat, f: nat, data: Block, lru: seq<nat>): State
    requires i < |w.bufs| && f < |w.bufs| && x < |w.disk|
  {
    w.(bufs := w.bufs[i := Buffer(Some(x), true, 0, w.disk[x], Some(1), map[1 := x], false)]
                     [f := Buffer(Some(e), true, 2, data, Some(1), map[1 := e], false)],
       at := AtX(w, b, x, i), lru := lru)
  }

  ghost function Half(w: State, b: nat, x: nat, i: nat, lru: seq<nat>): State
    requires i < |w.bufs| && x < |w.disk|
  {
    Next1(w, i, Buffer(Some(x), true, 0, w.disk[x], Some(1), map[1 := x], false), AtX(w, b, x, i), w.busy, lru)
  }

  lemma ReadsLog(g: Geometry, s0: State, w: State, b: nat, e: nat, c: nat, x: nat, i: nat, f: nat, data: Block,
      before: seq<nat>, after: seq<nat>)
    requires Reach(g, s0, w) && Crowded(g, w, b, e, c, x, i, f, data, before, after)
    ensures Reach(g, s0, Half(w, b, x, i, [i] + before + after))
  {
    Takes(g, s0, w, b, e, c, x, i, f, data, before, after);
    TakesOver(g, s0, w, b, x, i, before, after);
    Fills(g, s0, w, b, x, i, [i] + before + after);
  }

  lemma Fills(g: Geometry, s0: State, w: State, b: nat, x: nat, i: nat, lru: seq<nat>)
    requires i < |w.bufs| && !w.booting && 1 !in w.busy && x < |w.disk|
    requires Reach(g, s0,
        Next1(w, i, Buffer(Some(x), false, 0, w.bufs[i].data, None, map[1 := x], false), AtX(w, b, x, i),
        w.busy[1 := i], lru))
    ensures Reach(g, s0, Half(w, b, x, i, lru))
  {
    var z, at := w.bufs[i].data, AtX(w, b, x, i);
    var y := Next1(w, i, Buffer(Some(x), false, 0, z, None, map[1 := x], false), at, w.busy[1 := i], lru);
    var v := Next1(w, i, Buffer(Some(x), false, 0, z, Some(1), map[1 := x], false), at, w.busy[1 := i], lru);
    var u := Half(w, b, x, i, lru);
    FillNext(g, w, y, v, u, x, i, z);
    Extend(g, s0, y, Lock(1), v);
    Extend(g, s0, v, Fill(1), u);
  }

  lemma ReadsBoth(g: Geometry, s0: State, w: State, b: nat, e: nat, c: nat, x: nat, i: nat, f: nat, data: Block,
      before: seq<nat>, after: seq<nat>)
    requires Reach(g, s0, w) && Crowded(g, w, b, e, c, x, i, f, data, before, after)
    ensures Reach(g, s0, HasThem(w, b, e, x, i, f, data, [i] + before + after))
  {
    var lru := [i] + before + after;
    ReadsLog(g, s0, w, b, e, c, x, i, f, data, before, after);
    var u := Half(w, b, x, i, lru);
    HalfAsks(g, w, b, e, c, x, i, f, data, before, after);
    BreadReach(g, s0, u, 1, e);
    BothIs(w, u, b, e, x, i, f, data, lru);
  }

  lemma HalfAsks(g: Geometry, w: State, b: nat, e: nat, c: nat, x: nat, i: nat, f: nat, data: Block, before: seq<nat>,
      after: seq<nat>)
    requires Crowded(g, w, b, e, c, x, i, f, data, before, after)
    ensures CanBread(g, Half(w, b, x, i, [i] + before + after), 1, e)
  {
    var u := Half(w, b, x, i, [i] + before + after);
    assert u.at[e] == f && u.bufs[f] == Unused(e, data, 1);
    assert MayAsk(g, u, 1, e) by {
      assert Wanted(g, u) == {x, e};
      forall j | 0 <= j < |u.bufs| && 1 in u.bufs[j].users
        ensures u.bufs[j].users[1] in Wanted(g, u)
      {
        assert j == i;
      }
    }
  }

  lemma BothIs(w: State, u: State, b: nat, e: nat, x: nat, i: nat, f: nat, data: Block, lru: seq<nat>)
    requires i < |w.bufs| && f < |w.bufs| && i != f && x < |w.disk| && e < |w.disk| && u == Half(w, b, x, i, lru)
    requires e in u.at && u.at[e] == f && u.bufs[f] == Unused(e, data, 1)
    ensures Bread(u, 1, e) == HasThem(w, b, e, x, i, f, data, lru)
  {
    assert Bread(u, 1, e).bufs[f] == HasThem(w, b, e, x, i, f, data, lru).bufs[f];
    assert Bread(u, 1, e).bufs == HasThem(w, b, e, x, i, f, data, lru).bufs;
  }

  lemma FillNext(g: Geometry, w: State, y: State, v: State, u: State, x: nat, i: nat, z: Block)
    requires i < |w.bufs| && !w.booting && 1 !in w.busy && x < |w.disk|
    requires y == Next1(w, i, Buffer(Some(x), false, 0, z, None, map[1 := x], false), y.at, w.busy[1 := i], y.lru)
    requires v == Next1(w, i, Buffer(Some(x), false, 0, z, Some(1), map[1 := x], false), y.at, w.busy[1 := i], y.lru)
    requires u == Next1(w, i, Buffer(Some(x), true, 0, w.disk[x], Some(1), map[1 := x], false), y.at, w.busy, y.lru)
    ensures Next(g, y, Lock(1)) == Some(v) && Next(g, v, Fill(1)) == Some(u)
  {
    assert w.busy[1 := i] - {1} == w.busy;
    assert SetBuf(y, i, y.bufs[i].(holder := Some(1))).bufs == v.bufs;
    assert Filled(v, 1, i).bufs == u.bufs;
  }

  // Thread 3 takes the log block's buffer for c, and thread 1's copy goes there
  lemma Strays(g: Geometry, s0: State, w: State, b: nat, e: nat, c: nat, x: nat, i: nat, f: nat, data: Block,
      before: seq<nat>, after: seq<nat>)
      returns (v: State, t: State)
    requires Reach(g, s0, w) && Crowded(g, w, b, e, c, x, i, f, data, before, after)
    ensures Reach(g, s0, v) && Next(g, v, CopyToLog(i, f)) == Some(t) && v.disk == w.disk && t.disk == w.disk[c := data]
  {
    ReadsBoth(g, s0, w, b, e, c, x, i, f, data, before, after);
    var lru := [i] + before + after;
    var u := HasThem(w, b, e, x, i, f, data, lru);
    FrontIsVictim(before, i, after, u.bufs);
    v := Recycled(u, 3, i, c);
    MissNext(g, s0, u, 3, c, i);
    t := WriteThrough(v, i, data, Phase.WriteLog(1));
    StrayNext(g, v, t, c, e, x, i, f, data);
  }

  lemma FrontIsVictim(before: seq<nat>, i: nat, after: seq<nat>, bufs: seq<Buffer>)
    requires i < |bufs| && bufs[i].refcnt == 0 && i !in before && i !in after
    requires forall j :: 0 <= j < |bufs| && j != i ==> bufs[j].refcnt != 0
    requires (forall j :: 0 <= j < |before| ==> before[j] < |bufs|)
    requires (forall j :: 0 <= j < |after| ==> after[j] < |bufs|)
    ensures Victim([i] + before + after, bufs) == Some(i)
  {
    var rest := before + after;
    forall j | 0 <= j < |rest|
      ensures rest[j] < |bufs| && bufs[rest[j]].refcnt != 0
    {
      assert rest[j] in before || rest[j] in after;
    }
    VictimIs([], i, rest, bufs);
    assert [] + [i] + rest == [i] + before + after;
  }

  lemma StrayNext(g: Geometry, v: State, t: State, c: nat, e: nat, x: nat, i: nat, f: nat, data: Block)
    requires i < |v.bufs| && f < |v.bufs| && i != f && v.owner == 1 && 1 !in v.busy && v.phase == Phase.WriteLog(0)
    requires v.lh == [e] && x == g.start + 1
    requires v.bufs[i].holder == Some(1) && 1 in v.bufs[i].users && v.bufs[i].users[1] == x
    requires v.bufs[i].block == Some(c)
    requires v.bufs[f] == Buffer(Some(e), true, 2, data, Some(1), map[1 := e], false)
    requires t == WriteThrough(v, i, data, Phase.WriteLog(1))
    ensures Next(g, v, CopyToLog(i, f)) == Some(t)
  {
  }
  // ---------- how it comes to that ----------

  // Thread 1 has logged e, whose buffer stays pinned
  ghost function Logged(s: State, e: nat, f: nat, data: Block): State
    requires f < |s.bufs| && e < |s.flat|
  {
    var at := if s.bufs[f].block.Some? then s.at - {s.bufs[f].block.value} else s.at;
    s.(ops := {1}, bufs := s.bufs[f := Unused(e, data, 1)], at := at[e := f], flat := s.flat[e := data], lh := [e])
  }

  lemma Logs(g: Geometry, s0: State, s: State, bl: seq<int>, free: seq<nat>, leaks: seq<nat>, e: nat, f: nat,
      data: Block)
    requires Reach(g, s0, s) && Booted(g, s, bl, free, leaks) && f == free[|free| - 1] && g.HomeBlock(s.disk, e)
    requires e !in s.at && 2 <= g.size
    ensures f < |s.bufs| && e < |s.flat| && Reach(g, s0, Logged(s, e, f, data))
  {
    LastFree(g, s, bl, free, leaks);
    var s1 := s.(ops := {1});
    assert s.ops + {1} == {1};
    Extend(g, s0, s, BeginOp(1), s1);
    LastIsVictim(g, s, free, leaks);
    BreadReach(g, s0, s1, 1, e);
    LogsRead(g, s0, s, Bread(s1, 1, e), e, f, data);
  }

  lemma LogsRead(g: Geometry, s0: State, s: State, u: State, e: nat, f: nat, data: Block)
    requires Reach(g, s0, u) && f < |s.bufs| && e < |s.flat| && !s.booting
    requires s.busy == map[] && s.lh == [] && g.HomeBlock(s.disk, e) && 2 <= g.size
    requires u == Logged(s, e, f, data).(flat := s.flat, lh := [], bufs := s.bufs[f := Fresh(e, s.disk[e], 1)])
    ensures Reach(g, s0, Logged(s, e, f, data))
  {
    var v := u.(bufs := s.bufs[f := Fresh(e, data, 1).(dirty := true)]);
    var w := Logged(s, e, f, data).(bufs := s.bufs[f := Fresh(e, data, 1).(refcnt := 2)]);
    LogsNext(g, s, u, v, w, e, f, data);
    Extend(g, s0, u, Modify(1, f, data), v);
    Extend(g, s0, v, LogWrite(1, f), w);
    ReleaseReach(g, s0, w, 1, f);
    assert Release(w, f).bufs == Logged(s, e, f, data).bufs;
  }

  lemma LogsNext(g: Geometry, s: State, u: State, v: State, w: State, e: nat, f: nat, data: Block)
    requires f < |s.bufs| && e < |s.flat| && !s.booting
    requires s.busy == map[] && s.lh == [] && g.HomeBlock(s.disk, e) && 2 <= g.size
    requires u == Logged(s, e, f, data).(flat := s.flat, lh := [], bufs := s.bufs[f := Fresh(e, s.disk[e], 1)])
    requires v == u.(bufs := s.bufs[f := Fresh(e, data, 1).(dirty := true)])
    requires w == Logged(s, e, f, data).(bufs := s.bufs[f := Fresh(e, data, 1).(refcnt := 2)])
    ensures Next(g, u, Modify(1, f, data)) == Some(v) && Next(g, v, LogWrite(1, f)) == Some(w)
  {
    assert SetBuf(u, f, u.bufs[f].(data := data, dirty := true)).bufs == v.bufs;
    assert v.lh + [e] == [e];
    assert Recorded(v, 1, f).bufs == w.bufs;
  }

  // A buffer in use for one of the blocks cs, by others than threads 1 to 3
  ghost predicate InUse(w: State, j: nat, cs: seq<nat>) {
    j < |w.bufs| && w.bufs[j].refcnt != 0 && w.bufs[j].block.Some? && w.bufs[j].block.value in cs
      && forall t :: t in w.bufs[j].users ==> 4 <= t
  }

  // Threads 4, 5, ... have taken the last k unused buffers
  ghost predicate Occupied(g: Geometry, s: State, w: State, free: seq<nat>, leaks: seq<nat>, cs: seq<nat>, k: nat) {
    && k < |free| && k < |cs| && |w.bufs| == |s.bufs| == NBUF && !w.booting && w.phase.Idle? && w.ops == {1}
    && w.lh == [cs[0]] && w.lru == s.lru && w.disk == s.disk
    && (forall t :: t in w.busy ==> 4 <= t < 4 + k)
    && (forall j :: 0 <= j < |free| - 1 - k ==> free[j] < NBUF && w.bufs[free[j]] == s.bufs[free[j]])
    && (forall j :: |free| - 1 - k <= j < |free| ==> InUse(w, free[j], cs[..k + 1]))
    && (forall j :: 0 <= j < |leaks| ==> leaks[j] < NBUF && w.bufs[leaks[j]] == s.bufs[leaks[j]])
    && Table(w) && forall e :: e in w.at ==> g.InLog(e) || e in s.leaked || e in cs[..k + 1]
  }

  ghost predicate SpareAt(g: Geometry, s: State, cs: seq<nat>, j: nat)
    requires j < |cs|
  {
    g.HomeBlock(s.disk, cs[j]) && cs[j] !in s.at && cs[j] !in s.leaked
  }

  // Blocks outside the log and the cache, each once
  ghost predicate Spare(g: Geometry, s: State, cs: seq<nat>) {
    Distinct(cs) && forall j :: 0 <= j < |cs| ==> SpareAt(g, s, cs, j)
  }

  lemma OccupiesNone(g: Geometry, s: State, bl: seq<int>, free: seq<nat>, leaks: seq<nat>, cs: seq<nat>, data: Block)
    requires Booted(g, s, bl, free, leaks) && Spare(g, s, cs) && cs != []
    ensures free[|free| - 1] < |s.bufs| && cs[0] < |s.flat|
    ensures Occupied(g, s, Logged(s, cs[0], free[|free| - 1], data), free, leaks, cs, 0)
  {
    var f := free[|free| - 1];
    assert SpareAt(g, s, cs, 0);
    LastFree(g, s, bl, free, leaks);
    TableIs(g, s, bl, free, leaks);
    var w := Logged(s, cs[0], f, data);
    DistinctAt(free, |free| - 1);
    assert cs[..1] == [cs[0]];
    forall j | 0 <= j < |leaks|
      ensures leaks[j] < NBUF && w.bufs[leaks[j]] == s.bufs[leaks[j]]
    {
      assert Leaks(s, leaks[j]) && !Leaks(s, f);
    }
    assert InUse(w, f, cs[..1]);
    LoggedTable(s, cs[0], f, data);
  }

  lemma LoggedTable(s: State, e: nat, f: nat, data: Block)
    requires Table(s) && e !in s.at && f < NBUF && e < |s.flat|
    ensures Table(Logged(s, e, f, data))
  {
  }

  // The next thread takes the next buffer
  lemma Occupies(g: Geometry, s0: State, s: State, w: State, bl: seq<int>, free: seq<nat>, leaks: seq<nat>,
      cs: seq<nat>, k: nat) returns (v: State)
    requires Reach(g, s0, w) && Booted(g, s, bl, free, leaks) && Spare(g, s, cs)
    requires Occupied(g, s, w, free, leaks, cs, k)
    requires k + 1 < |free| <= NBUF && k + 1 < |cs|
    ensures Reach(g, s0, v) && Occupied(g, s, v, free, leaks, cs, k + 1)
    ensures v.bufs[free[|free| - 1]] == w.bufs[free[|free| - 1]] && v.flat == w.flat
  {
    var i, c, t := free[|free| - 2 - k], cs[k + 1], 4 + k;
    assert Free(s, i);
    CountFree(g, s, i);
    assert c !in w.at by {
      DistinctAt(cs, k + 1);
      assert SpareAt(g, s, cs, k + 1);
      assert c !in cs[..k + 1] && c !in s.leaked && !g.InLog(c);
    }
    NextFree(g, s, w, bl, free, leaks, cs, k);
    assert t !in w.busy && MayAsk(g, w, t, c);
    MissNext(g, s0, w, t, c, i);
    v := Recycled(w, t, i, c);
    OccupiedNext(g, s, w, v, free, leaks, cs, k, i, c);
    DistinctAt(free, |free| - 1);
  }

  lemma NextFree(g: Geometry, s: State, w: State, bl: seq<int>, free: seq<nat>, leaks: seq<nat>, cs: seq<nat>, k: nat)
    requires Booted(g, s, bl, free, leaks) && Occupied(g, s, w, free, leaks, cs, k) && k + 1 < |free|
    requires s.bufs[free[|free| - 2 - k]].refcnt == 0
    ensures Victim(w.lru, w.bufs) == Some(free[|free| - 2 - k])
  {
    var p := |free| - 2 - k;
    var tail := free[p + 1..] + leaks;
    assert w.lru == free[..p] + [free[p]] + tail;
    forall j | 0 <= j < |tail|
      ensures tail[j] < |w.bufs| && w.bufs[tail[j]].refcnt != 0
    {
      if j < k + 1 {
        assert tail[j] == free[p + 1 + j] && InUse(w, free[p + 1 + j], cs[..k + 1]);
      } else {
        assert tail[j] == leaks[j - k - 1];
        LeakedCounts(g, s, bl, free, leaks, j - k - 1);
      }
    }
    VictimIs(free[..p], free[p], tail, w.bufs);
  }

  lemma RecycledTable(w: State, t: Thread, i: nat, c: nat)
    requires Table(w) && c !in w.at && i < NBUF
    ensures Table(Recycled(w, t, i, c))
  {
  }

  lemma OccupiedNext(g: Geometry, s: State, w: State, v: State, free: seq<nat>, leaks: seq<nat>, cs: seq<nat>, k: nat,
      i: nat, c: nat)
    requires ListIs(s, free, leaks) && Occupied(g, s, w, free, leaks, cs, k) && k + 1 < |free| && k + 1 < |cs|
    requires Free(s, i)
    requires i == free[|free| - 2 - k] && c == cs[k + 1] && c !in w.at && v == Recycled(w, 4 + k, i, c)
    ensures Occupied(g, s, v, free, leaks, cs, k + 1)
  {
    RecycledTable(w, 4 + k, i, c);
    DistinctAt(free, |free| - 2 - k);
    assert cs[..k + 2] == cs[..k + 1] + [c];
    forall j | 0 <= j < |leaks|
      ensures leaks[j] < NBUF && v.bufs[leaks[j]] == s.bufs[leaks[j]]
    {
      assert Leaks(s, leaks[j]) && !Leaks(s, i);
    }
    forall j | |free| - 2 - k <= j < |free|
      ensures InUse(v, free[j], cs[..k + 2])
    {
      if j > |free| - 2 - k {
        assert InUse(w, free[j], cs[..k + 1]) && free[j] != i;
      }
    }
  }

  lemma {:induction false} OccupiesAll(g: Geometry, s0: State, s: State, w: State, bl: seq<int>, free: seq<nat>,
      leaks: seq<nat>, cs: seq<nat>, k: nat) returns (v: State)
    requires Reach(g, s0, w) && Booted(g, s, bl, free, leaks) && Spare(g, s, cs)
    requires Occupied(g, s, w, free, leaks, cs, k) && |free| < |cs|
    ensures Reach(g, s0, v) && Occupied(g, s, v, free, leaks, cs, |free| - 1)
    ensures v.bufs[free[|free| - 1]] == w.bufs[free[|free| - 1]] && v.flat == w.flat
    decreases |free| - k
  {
    if k + 1 == |free| {
      v := w;
    } else {
      var u := Occupies(g, s0, s, w, bl, free, leaks, cs, k);
      v := OccupiesAll(g, s0, s, u, bl, free, leaks, cs, k + 1);
    }
  }

  // ---------- the whole run ----------

  // With every unused buffer taken the cache holds leaked blocks and those of the threads
  lemma Holds(s: State, w: State, g: Geometry, free: seq<nat>, leaks: seq<nat>, cs: seq<nat>, j: nat)
    requires free != [] && ListIs(s, free, leaks) && Occupied(g, s, w, free, leaks, cs, |free| - 1) && |free| < |cs|
    requires j < NBUF && j !in leaks
    ensures InUse(w, j, cs[..|free|]) && j in free
  {
    assert Covered(free, leaks, j);
    var p :| 0 <= p < |free| && free[p] == j;
    assert InUse(w, free[p], cs[..|free|]);
  }

  // ... so no block of the log, and no other spare block
  lemma NotCached(g: Geometry, s: State, w: State, bl: seq<int>, free: seq<nat>, leaks: seq<nat>, cs: seq<nat>, e: nat)
    requires Booted(g, s, bl, free, leaks) && Spare(g, s, cs) && Occupied(g, s, w, free, leaks, cs, |free| - 1)
    requires |free| < |cs|
    requires (forall j :: 0 <= j < |bl| ==> g.HomeBlock(s.disk, bl[j])) && (g.InLog(e) || e == cs[|free|])
    ensures e !in w.at
  {
    DistinctAt(cs, |free|);
    assert SpareAt(g, s, cs, |free|);
    forall j | 0 <= j < |free|
      ensures cs[j] != e
    {
      assert SpareAt(g, s, cs, j);
    }
    assert e !in s.leaked && e !in cs[..|free|];
    forall j | 0 <= j < NBUF
      ensures w.bufs[j].block != Some(e)
    {
      if j in leaks {
        assert Leaks(s, j);
      } else {
        Holds(s, w, g, free, leaks, cs, j);
      }
    }
  }

  // Thread 2 reads b, thread 1 ends its operation
  ghost function Ends(w: State, b: nat, i: nat, z: Block): State
    requires i < |w.bufs|
  {
    w.(bufs := w.bufs[i := Buffer(Some(b), true, 0, z, Some(2), map[2 := b], false)],
       ops := {}, phase := Phase.WriteLog(0), owner := 1)
  }

  lemma EndsReach(g: Geometry, s0: State, s: State, w: State, free: seq<nat>, leaks: seq<nat>, cs: seq<nat>, b: nat,
      i: nat) returns (z: Block)
    requires free != [] && ListIs(s, free, leaks) && Occupied(g, s, w, free, leaks, cs, |free| - 1) && |free| < |cs|
    requires b < |w.disk|
    requires Reach(g, s0, w) && i in leaks && i < NBUF && s.bufs[i].block == Some(b) && s.bufs[i].refcnt == U32 - 1
    requires AllFree(s)
    ensures Reach(g, s0, Ends(w, b, i, z))
  {
    z := if s.bufs[i].valid then s.bufs[i].data else w.disk[b];
    var u := w.(bufs := w.bufs[i := Buffer(Some(b), true, 0, z, Some(2), map[2 := b], false)]);
    assert Free(s, i);
    assert w.bufs[i] == s.bufs[i] && Free(w, i);
    assert w.at[b] == i;
    assert CanBread(g, w, 2, b);
    BreadReach(g, s0, w, 2, b);
    assert Bread(w, 2, b).bufs == u.bufs;
    forall j | 0 <= j < |u.bufs|
      ensures 1 !in u.bufs[j].users
    {
      NotTheirs(g, s, w, free, leaks, cs, j);
    }
    assert Next(g, u, EndOp(1)) == Some(Ends(w, b, i, z));
    Extend(g, s0, u, EndOp(1), Ends(w, b, i, z));
  }

  lemma NotTheirs(g: Geometry, s: State, w: State, free: seq<nat>, leaks: seq<nat>, cs: seq<nat>, j: nat)
    requires free != [] && ListIs(s, free, leaks) && Occupied(g, s, w, free, leaks, cs, |free| - 1) && |free| < |cs|
    requires AllFree(s) && j < NBUF
    ensures 1 !in w.bufs[j].users
  {
    if j in leaks {
      assert Free(s, j);
      assert w.bufs[j].users == map[];
    } else {
      Holds(s, w, g, free, leaks, cs, j);
    }
  }

  lemma CrowdedIs(g: Geometry, s: State, w: State, bl: seq<int>, free: seq<nat>, leaks: seq<nat>, cs: seq<nat>,
      b: nat, i: nat, f: nat, data: Block, z: Block)
      returns (before: seq<nat>, after: seq<nat>)
    requires Booted(g, s, bl, free, leaks) && Spare(g, s, cs) && Occupied(g, s, w, free, leaks, cs, |free| - 1)
    requires |free| < |cs|
    requires (forall j :: 0 <= j < |bl| ==> g.HomeBlock(s.disk, bl[j])) && f == free[|free| - 1]
    requires w.bufs[f] == Unused(cs[0], data, 1)
    requires i in leaks && i < NBUF && s.bufs[i].block == Some(b) && 2 <= g.size && b in bl
    ensures Crowded(g, Ends(w, b, i, z), b, cs[0], cs[|free|], g.start + 1, i, f, data, before, after)
  {
    var p :| 0 <= p < |leaks| && leaks[p] == i;
    before, after := free + leaks[..p], leaks[p + 1..];
    NotCached(g, s, w, bl, free, leaks, cs, g.start + 1);
    NotCached(g, s, w, bl, free, leaks, cs, cs[|free|]);
    assert Leaks(s, i) && SpareAt(g, s, cs, 0) && SpareAt(g, s, cs, |free|);
    DistinctAt(cs, 0);
    SplitList(s, free, leaks, i, p);
    assert g.Fits(s.disk) by { assert LogOk(g, s); }
    forall j | 0 <= j < NBUF && j != i
      ensures w.bufs[j].refcnt != 0 && 1 !in w.bufs[j].users
    {
      NotTheirs(g, s, w, free, leaks, cs, j);
      InUseNow(g, s, w, bl, free, leaks, cs, j);
    }
  }

  lemma InUseNow(g: Geometry, s: State, w: State, bl: seq<int>, free: seq<nat>, leaks: seq<nat>, cs: seq<nat>, j: nat)
    requires Booted(g, s, bl, free, leaks) && Occupied(g, s, w, free, leaks, cs, |free| - 1) && |free| < |cs|
    requires j < NBUF
    ensures w.bufs[j].refcnt != 0
  {
    if j in leaks {
      var p :| 0 <= p < |leaks| && leaks[p] == j;
      LeakedCounts(g, s, bl, free, leaks, p);
    } else {
      Holds(s, w, g, free, leaks, cs, j);
    }
  }

  lemma SplitList(s: State, free: seq<nat>, leaks: seq<nat>, i: nat, p: nat)
    requires ListIs(s, free, leaks) && |s.bufs| == NBUF && p < |leaks| && leaks[p] == i && Leaks(s, i)
    ensures var before, after := free + leaks[..p], leaks[p + 1..];
            && s.lru == before + [i] + after && i !in before && i !in after
            && (forall j :: 0 <= j < |before| ==> before[j] < NBUF)
            && (forall j :: 0 <= j < |after| ==> after[j] < NBUF)
  {
    assert i !in free;
    DistinctAt(leaks, p);
    forall j | 0 <= j < |leaks|
      ensures leaks[j] < NBUF
    {
      assert Leaks(s, leaks[j]);
    }
  }

  /** From a recovery that has installed a block there is a run in which write_log's write goes to a
      home block, with the header on disk empty. */
  lemma StrayWrite(g: Geometry, d: Disk, cs: seq<nat>) returns (s: State, a: Step, t: State, c: nat)
    requires Bootable(g, d) && 0 < |HeadBlocks(d, g)| < NBUF && |cs| == NBUF + 1 && Distinct(cs)
    requires forall j :: 0 <= j < |cs| ==> g.HomeBlock(d, cs[j]) && cs[j] !in HeadBlocks(d, g)
    ensures Reach(g, Start(g, d), s) && a.CopyToLog? && Next(g, s, a) == Some(t) && GoodHead(s.disk, g)
    ensures GoodHead(t.disk, g)
    ensures g.HomeBlock(s.disk, c) && c < |t.disk| && Recovered(t.disk, g, c) != Recovered(s.disk, g, c)
  {
    var r, free, leaks, b := BootScene(g, d, cs[0]);
    SpareIs(g, r, HeadBlocks(d, g), free, leaks, d, cs);
    c := cs[|free|];
    var i, data := r.at[b], Changed(r.disk[c]);
    s, t := StraysFrom(g, Start(g, d), r, HeadBlocks(d, g), free, leaks, cs, b, i, data);
    a := CopyToLog(i, free[|free| - 1]);
    RecoversNew(g, r.disk, c, data);
  }

  lemma StraysFrom(g: Geometry, s0: State, r: State, bl: seq<int>, free: seq<nat>, leaks: seq<nat>, cs: seq<nat>,
      b: nat, i: nat, data: Block)
      returns (s: State, t: State)
    requires Reach(g, s0, r) && Booted(g, r, bl, free, leaks) && Spare(g, r, cs) && |free| < |cs| && 2 <= g.size
    requires (forall j :: 0 <= j < |bl| ==> g.HomeBlock(r.disk, bl[j])) && b in bl && i < NBUF
    requires r.bufs[i].block == Some(b)
    ensures Reach(g, s0, s) && Next(g, s, CopyToLog(i, free[|free| - 1])) == Some(t)
    ensures s.disk == r.disk && cs[|free|] < |r.disk| && t.disk == r.disk[cs[|free|] := data]
  {
    var f := free[|free| - 1];
    assert SpareAt(g, r, cs, 0);
    Logs(g, s0, r, bl, free, leaks, cs[0], f, data);
    OccupiesNone(g, r, bl, free, leaks, cs, data);
    var w := OccupiesAll(g, s0, r, Logged(r, cs[0], f, data), bl, free, leaks, cs, 0);
    s, t := StraysOccupied(g, s0, r, w, bl, free, leaks, cs, b, i, data);
  }

  lemma StraysOccupied(g: Geometry, s0: State, r: State, w: State, bl: seq<int>, free: seq<nat>, leaks: seq<nat>,
      cs: seq<nat>, b: nat, i: nat, data: Block)
      returns (s: State, t: State)
    requires Reach(g, s0, w) && Booted(g, r, bl, free, leaks) && Spare(g, r, cs) && |free| < |cs| && 2 <= g.size
    requires (forall j :: 0 <= j < |bl| ==> g.HomeBlock(r.disk, bl[j])) && b in bl && i < NBUF
    requires r.bufs[i].block == Some(b)
    requires Occupied(g, r, w, free, leaks, cs, |free| - 1) && w.bufs[free[|free| - 1]] == Unused(cs[0], data, 1)
    ensures Reach(g, s0, s) && Next(g, s, CopyToLog(i, free[|free| - 1])) == Some(t)
    ensures s.disk == r.disk && cs[|free|] < |r.disk| && t.disk == r.disk[cs[|free|] := data]
  {
    var f := free[|free| - 1];
    LeakedOf(g, r, bl, free, leaks, i, b);
    var z := EndsReach(g, s0, r, w, free, leaks, cs, b, i);
    var before, after := CrowdedIs(g, r, w, bl, free, leaks, cs, b, i, f, data, z);
    var v, c, e, x := Ends(w, b, i, z), cs[|free|], cs[0], g.start + 1;
    s, t := Strays(g, s0, v, b, e, c, x, i, f, data, before, after);
  }

  lemma LeakedOf(g: Geometry, s: State, bl: seq<int>, free: seq<nat>, leaks: seq<nat>, i: nat, b: nat)
    requires Booted(g, s, bl, free, leaks) && i < NBUF && s.bufs[i].block == Some(b) && b in bl
    ensures i in leaks && s.bufs[i].refcnt == U32 - 1
  {
    assert Leaks(s, i) && Free(s, i);
    CountFree(g, s, i);
  }

  lemma SpareIs(g: Geometry, s: State, bl: seq<int>, free: seq<nat>, leaks: seq<nat>, d: Disk, cs: seq<nat>)
    requires Booted(g, s, bl, free, leaks) && |d| == |s.disk|
    requires Distinct(cs)
    requires forall j :: 0 <= j < |cs| ==> g.HomeBlock(d, cs[j]) && cs[j] !in bl
    ensures Spare(g, s, cs)
  {
  }

  lemma RecoversNew(g: Geometry, d: Disk, c: nat, data: Block)
    requires GoodHead(d, g) && HeadBlocks(d, g) == [] && g.HomeBlock(d, c) && data != d[c]
    ensures GoodHead(d[c := data], g) && Recovered(d[c := data], g, c) != Recovered(d, g, c)
  {
    var e := d[c := data];
    assert HeadCount(e, g) == 0 && HeadBlocks(e, g) == [];
  }

  // ---------- exactly when ----------

  /** No write but the header's changes what the disk recovers to. */
  ghost predicate Quiet(g: Geometry, s: State, a: Step, t: State) {
    && GoodHead(s.disk, g) && GoodHead(t.disk, g) && |s.disk| == |t.disk|
    && (a.WriteHead? || forall b :: g.HomeBlock(s.disk, b) ==> Recovered(t.disk, g, b) == Recovered(s.disk, g, b))
  }

  ghost predicate OnlyHeadCommits(g: Geometry, d: Disk)
    requires Bootable(g, d)
  {
    forall s, a, t :: Reach(g, Start(g, d), s) && Next(g, s, a) == Some(t) && !a.Crash? ==> Quiet(g, s, a, t)
  }

  lemma StableKept(g: Geometry, s: State, a: Step, t: State)
    requires Next(g, s, a) == Some(t) && !a.WriteHead?
    ensures t.stable == s.stable
  {
  }

  /** In all runs of a boot only the write of the header changes what the disk recovers to, if and
      only if recovery has found an empty log, or one of NBUF blocks, which it cannot get through.
      More blocks than the cache holds are home, and not in the log. */
  lemma OnlyHeadCommitsIff(g: Geometry, d: Disk, cs: seq<nat>)
    requires Bootable(g, d) && |cs| == NBUF + 1 && Distinct(cs)
    requires forall j :: 0 <= j < |cs| ==> g.HomeBlock(d, cs[j]) && cs[j] !in HeadBlocks(d, g)
    ensures OnlyHeadCommits(g, d) <==> HeadCount(d, g) == 0 || HeadCount(d, g) == NBUF
  {
    if HeadCount(d, g) == 0 || HeadCount(d, g) == NBUF {
      forall s, a, t | Reach(g, Start(g, d), s) && Next(g, s, a) == Some(t) && !a.Crash?
        ensures Quiet(g, s, a, t)
      {
        var steps :| Calm(steps) && After(g, Start(g, d), steps) == Some(s);
        SafeRun(g, d, steps, s);
        Extend(g, Start(g, d), s, a, t);
        var more :| Calm(more) && After(g, Start(g, d), more) == Some(t);
        SafeRun(g, d, more, t);
        SafeQuiet(g, s, a, t);
      }
    } else {
      var s, a, t, c := StrayWrite(g, d, cs);
      assert !Quiet(g, s, a, t);
    }
  }

  lemma SafeQuiet(g: Geometry, s: State, a: Step, t: State)
    requires Atomic(g, s) && Atomic(g, t) && Next(g, s, a) == Some(t)
    ensures Quiet(g, s, a, t)
  {
    StepSize(g, s, a, t);
    if !a.WriteHead? {
      StableKept(g, s, a, t);
    }
  }
}
