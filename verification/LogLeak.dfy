/** What a recovery that has installed something does to the boot that follows: the blocks it has
    unpinned without having pinned them have counts of 2^32 - 1, so that the first thread to use one
    brings its count to 0, and the next that needs a buffer recycles it under the first. */
module LogLeak {
  import opened LogFormat
  import opened BufferCache
  import opened Log
  import opened LogCache

  // ---------- reaching states ----------

  ghost predicate Calm(steps: seq<Step>) {
    forall k :: 0 <= k < |steps| ==> !steps[k].Crash?
  }

  // From s0 to s without a crash
  ghost predicate Reach(g: Geometry, s0: State, s: State) {
    exists steps :: Calm(steps) && After(g, s0, steps) == Some(s)
  }

  lemma Stay(g: Geometry, s: State)
    ensures Reach(g, s, s)
  {
    assert Calm([]) && After(g, s, []) == Some(s);
  }

  lemma Extend(g: Geometry, s0: State, s: State, a: Step, t: State)
    requires Reach(g, s0, s) && Next(g, s, a) == Some(t) && !a.Crash?
    ensures Reach(g, s0, t)
  {
    var steps :| Calm(steps) && After(g, s0, steps) == Some(s);
    var more := steps + [a];
    assert more[..|more| - 1] == steps;
    assert Calm(more) && After(g, s0, more) == Some(t);
  }

  // ... with the invariant, which recovery keeps
  ghost predicate Sound(g: Geometry, s0: State, s: State) {
    Reach(g, s0, s) && Inv(g, s) && Alone(s)
  }

  lemma SoundStep(g: Geometry, s0: State, s: State, a: Step, t: State)
    requires Sound(g, s0, s) && (s.booting || !a.Get?) && Next(g, s, a) == Some(t) && !a.Crash?
    ensures Sound(g, s0, t)
  {
    Extend(g, s0, s, a, t);
    if a.Get? {
      NoLeakNoClash(g, s, a);
    }
    StepKeepsInv(g, s, a, t);
    AloneKept(g, s, a, t);
  }

  // ---------- bread and brelse by a thread that need not wait ----------

  ghost predicate Free(s: State, i: nat) {
    i < |s.bufs| && s.bufs[i].users == map[] && s.bufs[i].holder == None && !s.bufs[i].dirty
  }

  // The buffer that bread of block b gets
  ghost function Slot(s: State, b: nat): Option<nat> {
    if b in s.at then Some(s.at[b]) else Victim(s.lru, s.bufs)
  }

  ghost predicate CanBread(g: Geometry, s: State, t: Thread, b: nat) {
    && t < NPROC && t !in s.busy && b < |s.disk| && MayAsk(g, s, t, b) && (s.booting ==> t == s.owner)
    && Slot(s, b).Some? && Free(s, Slot(s, b).value) && (b in s.at ==> s.bufs[s.at[b]].block == Some(b))
  }

  // The buffer after bread, and the state
  ghost function BreadBuf(s: State, t: Thread, b: nat): Buffer
    requires Slot(s, b).Some? && Slot(s, b).value < |s.bufs| && b < |s.disk|
  {
    var u := s.bufs[Slot(s, b).value];
    if b in s.at then Buffer(u.block, true, Up(u.refcnt), if u.valid then u.data
      else s.disk[b], Some(t), map[t := b], false)
    else Buffer(Some(b), true, 1, s.disk[b], Some(t), map[t := b], false)
  }

  ghost function BreadAt(s: State, b: nat): map<nat, nat>
    requires Slot(s, b).Some? && Slot(s, b).value < |s.bufs|
  {
    var u := s.bufs[Slot(s, b).value];
    if b in s.at then s.at else (if u.block.Some? then s.at - {u.block.value} else s.at)[b := Slot(s, b).value]
  }

  ghost function Bread(s: State, t: Thread, b: nat): State
    requires Slot(s, b).Some? && Slot(s, b).value < |s.bufs| && b < |s.disk|
  {
    s.(bufs := s.bufs[Slot(s, b).value := BreadBuf(s, t, b)], at := BreadAt(s, b))
  }

  lemma BreadGets(g: Geometry, s: State, t: Thread, b: nat) returns (u: State)
    requires CanBread(g, s, t, b)
    ensures Next(g, s, Get(t, b)) == Some(u)
    ensures var i := Slot(s, b).value;
            && u == s.(bufs := s.bufs[i := u.bufs[i]], at := BreadAt(s, b), busy := s.busy[t := i])
            && |u.bufs| == |s.bufs|
            && u.bufs[i] == BreadBuf(s, t, b).(holder := None, valid := u.bufs[i].valid, data := u.bufs[i].data)
            && (u.bufs[i].valid ==> u.bufs[i].data == BreadBuf(s, t, b).data)
            && (!u.bufs[i].valid ==> BreadBuf(s, t, b).data == s.disk[b])
            && u.bufs[i].block == Some(b)
  {
    u := Next(g, s, Get(t, b)).value;
  }

  lemma BreadReach(g: Geometry, s0: State, s: State, t: Thread, b: nat)
    requires Reach(g, s0, s) && CanBread(g, s, t, b)
    ensures Reach(g, s0, Bread(s, t, b))
  {
    var i := Slot(s, b).value;
    var u := BreadGets(g, s, t, b);
    Extend(g, s0, s, Get(t, b), u);
    var v := SetBuf(u, i, u.bufs[i].(holder := Some(t)));
    EndsNext(g, u, v, t, i);
    Extend(g, s0, u, Lock(t), v);
    BreadFilled(s, t, b, v);
    Extend(g, s0, v, Fill(t), Bread(s, t, b));
  }

  lemma BreadFilled(s: State, t: Thread, b: nat, v: State)
    requires Slot(s, b).Some? && Slot(s, b).value < |s.bufs| == |v.bufs| && b < |s.disk| && t !in s.busy
    requires var i := Slot(s, b).value;
            && v == s.(bufs := s.bufs[i := v.bufs[i]], at := BreadAt(s, b), busy := s.busy[t := i])
            && v.bufs[i] == BreadBuf(s, t, b).(valid := v.bufs[i].valid, data := v.bufs[i].data)
            && (v.bufs[i].valid ==> v.bufs[i].data == BreadBuf(s, t, b).data)
            && (!v.bufs[i].valid ==> BreadBuf(s, t, b).data == s.disk[b])
            && v.bufs[i].block == Some(b)
    ensures Filled(v, t, Slot(s, b).value) == Bread(s, t, b)
  {
    var i := Slot(s, b).value;
    assert s.busy[t := i] - {t} == s.busy;
    assert Filled(v, t, i).bufs == Bread(s, t, b).bufs;
  }

  lemma BreadSound(g: Geometry, s0: State, s: State, t: Thread, b: nat)
    requires Sound(g, s0, s) && s.booting && CanBread(g, s, t, b)
    ensures Sound(g, s0, Bread(s, t, b))
  {
    var i := Slot(s, b).value;
    var u := BreadGets(g, s, t, b);
    SoundStep(g, s0, s, Get(t, b), u);
    var v := SetBuf(u, i, u.bufs[i].(holder := Some(t)));
    BreadFilled(s, t, b, v);
    BreadEnds(g, s0, s, u, v, t, b, i);
  }

  lemma BreadEnds(g: Geometry, s0: State, s: State, u: State, v: State, t: Thread, b: nat, i: nat)
    requires Sound(g, s0, u) && u.booting && u.owner == t && i < |u.bufs| && BusyIn(u, t, i) && t in u.bufs[i].users
    requires u.bufs[i].holder == None && u.bufs[i].block.Some? && u.bufs[i].block.value < |u.disk|
    requires v == SetBuf(u, i, u.bufs[i].(holder := Some(t)))
    ensures Sound(g, s0, Filled(v, t, i))
  {
    EndsNext(g, u, v, t, i);
    SoundStep(g, s0, u, Lock(t), v);
    SoundStep(g, s0, v, Fill(t), Filled(v, t, i));
  }

  // brelse by the only user
  lemma EndsNext(g: Geometry, u: State, v: State, t: Thread, i: nat)
    requires (u.booting ==> u.owner == t) && i < |u.bufs| && BusyIn(u, t, i) && t in u.bufs[i].users
    requires u.bufs[i].holder == None && u.bufs[i].block.Some? && u.bufs[i].block.value < |u.disk|
    requires v == SetBuf(u, i, u.bufs[i].(holder := Some(t)))
    ensures Next(g, u, Lock(t)) == Some(v) && Next(g, v, Fill(t)) == Some(Filled(v, t, i))
  {
  }

  ghost predicate CanRelease(s: State, t: Thread, i: nat) {
    && i < |s.bufs| && s.bufs[i].holder == Some(t) && s.bufs[i].users.Keys == {t} && s.bufs[i].block.Some?
    && !s.bufs[i].dirty
    && t !in s.busy && (s.booting ==> t == s.owner)
  }

  ghost function Release(s: State, i: nat): State
    requires i < |s.bufs|
  {
    var u := s.bufs[i];
    s.(bufs := s.bufs[i := u.(holder := None, users := map[], refcnt := Down(u.refcnt))],
       lru := if Down(u.refcnt) == 0 then [i] + Removed(s.lru, i) else s.lru)
  }

  lemma ReleaseSteps(g: Geometry, s: State, t: Thread, i: nat, v: State)
    requires CanRelease(s, t, i) && v == SetBuf(s, i, s.bufs[i].(holder := None))
    ensures Next(g, s, Unlock(t, i)) == Some(v) && Next(g, v, Put(t, i)) == Some(Release(s, i))
  {
    assert s.bufs[i].users - {t} == map[];
    assert Lowered(v, t, i).bufs == Release(s, i).bufs;
  }

  lemma ReleaseReach(g: Geometry, s0: State, s: State, t: Thread, i: nat)
    requires Reach(g, s0, s) && CanRelease(s, t, i)
    ensures Reach(g, s0, Release(s, i))
  {
    var v := SetBuf(s, i, s.bufs[i].(holder := None));
    ReleaseSteps(g, s, t, i, v);
    Extend(g, s0, s, Unlock(t, i), v);
    Extend(g, s0, v, Put(t, i), Release(s, i));
  }

  lemma ReleaseSound(g: Geometry, s0: State, s: State, t: Thread, i: nat)
    requires Sound(g, s0, s) && CanRelease(s, t, i)
    ensures Sound(g, s0, Release(s, i))
  {
    var v := SetBuf(s, i, s.bufs[i].(holder := None));
    ReleaseSteps(g, s, t, i, v);
    SoundStep(g, s0, s, Unlock(t, i), v);
    SoundStep(g, s0, v, Put(t, i), Release(s, i));
  }

  // ---------- the list ----------

  lemma {:induction false} VictimSkips(lru: seq<nat>, p: nat, n: nat, bufs: seq<Buffer>)
    requires p <= n <= |lru| && forall j :: p <= j < n ==> lru[j] < |bufs| && bufs[lru[j]].refcnt != 0
    ensures VictimIn(lru, n, bufs) == VictimIn(lru, p, bufs)
    decreases n
  {
    if p < n {
      assert bufs[lru[n - 1]].refcnt != 0;
      VictimSkips(lru, p, n - 1, bufs);
    }
  }

  // The list is some buffers, then i, then some in use
  lemma VictimIs(before: seq<nat>, i: nat, tail: seq<nat>, bufs: seq<Buffer>)
    requires i < |bufs| && bufs[i].refcnt == 0
    requires forall j :: 0 <= j < |tail| ==> tail[j] < |bufs| && bufs[tail[j]].refcnt != 0
    ensures Victim(before + [i] + tail, bufs) == Some(i)
  {
    var lru, p := before + [i] + tail, |before| + 1;
    assert lru[p - 1] == i;
    forall j | p <= j < |lru|
      ensures lru[j] < |bufs| && bufs[lru[j]].refcnt != 0
    {
      assert lru[j] == tail[j - p];
    }
    VictimSkips(lru, p, |lru|, bufs);
  }

  lemma {:induction false} RemovedAt(before: seq<nat>, i: nat, after: seq<nat>)
    requires i !in before
    ensures Removed(before + [i] + after, i) == before + after
  {
    var all := before + [i] + after;
    if before == [] {
      assert all[1..] == after && before + after == after;
    } else {
      assert all[1..] == before[1..] + [i] + after;
      RemovedAt(before[1..], i, after);
      assert [before[0]] + (before[1..] + after) == before + after;
    }
  }

  lemma Joined(a: seq<nat>, l1: seq<nat>, i: nat, l2: seq<nat>)
    ensures a + l1 + [i] + l2 == a + (l1 + [i] + l2) && a + l1 + l2 == a + (l1 + l2)
  {
  }

  lemma {:induction false} FirstListOk(n: nat)
    ensures |FirstList(n)| == n && forall j :: 0 <= j < n ==> FirstList(n)[j] == n - 1 - j
  {
    if n > 0 {
      FirstListOk(n - 1);
    }
  }

  // ---------- recovery ----------

  ghost predicate Leaks(s: State, i: nat) {
    i < |s.bufs| && s.bufs[i].block.Some? && s.bufs[i].block.value in s.leaked
  }

  ghost predicate AllFree(s: State) {
    |s.bufs| == NBUF && s.busy == map[] && forall i :: 0 <= i < NBUF ==> Free(s, i)
  }

  ghost predicate Covered(free: seq<nat>, leaks: seq<nat>, i: nat) {
    i in free || i in leaks
  }

  ghost predicate Differ(a: seq<nat>, j: nat, k: nat) {
    j < k < |a| ==> a[j] != a[k]
  }

  ghost predicate Distinct(a: seq<nat>) {
    forall j, k :: Differ(a, j, k)
  }

  lemma DistinctAt(a: seq<nat>, j: nat)
    requires Distinct(a) && j < |a|
    ensures forall k :: 0 <= k < |a| && k != j ==> a[k] != a[j]
  {
    forall k | 0 <= k < |a| && k != j
      ensures a[k] != a[j]
    {
      assert Differ(a, j, k) && Differ(a, k, j);
    }
  }

  // The list: buffers that are unused, then those that recovery has leaked
  ghost predicate ListIs(s: State, free: seq<nat>, leaks: seq<nat>) {
    && s.lru == free + leaks && |free| + |leaks| == NBUF && (forall i :: 0 <= i < NBUF ==> Covered(free, leaks, i))
    && (forall j :: 0 <= j < |free| ==> free[j] < |s.bufs| && !Leaks(s, free[j]))
    && (forall j :: 0 <= j < |leaks| ==> Leaks(s, leaks[j])) && (forall i :: Leaks(s, i) ==> i in leaks)
    && Distinct(free) && Distinct(leaks)
  }

  // What the cache holds after k rounds: nothing of the home area but what has been installed
  ghost predicate Caches(g: Geometry, s: State, k: nat) {
    forall e :: e in s.at ==> e < |s.disk| && if g.InLog(e) then e <= g.start + k else e in s.leaked
  }

  ghost predicate Round(g: Geometry, s: State, bl: seq<int>, k: nat, free: seq<nat>, leaks: seq<nat>) {
    && s.booting && s.owner == 0 && s.phase == Install(k) && s.lh == bl && k <= |bl|
    && AllFree(s) && ListIs(s, free, leaks) && |leaks| == k && Caches(g, s, k)
    && forall e :: e in s.leaked <==> e in bl[..k]
  }

  lemma CountFree(g: Geometry, s: State, i: nat)
    requires Inv(g, s) && Free(s, i) && (s.booting || s.lh == [])
    ensures s.bufs[i].refcnt == if Leaks(s, i) then U32 - 1 else 0
  {
    assert BufOk(g, s, i);
    assert |s.bufs[i].users| == 0;
  }

  lemma LeaksSkipped(g: Geometry, s: State, free: seq<nat>, leaks: seq<nat>, j: nat)
    requires Inv(g, s) && AllFree(s) && (s.booting || s.lh == []) && ListIs(s, free, leaks) && j < |leaks|
    ensures leaks[j] < NBUF && s.bufs[leaks[j]].refcnt == U32 - 1
  {
    assert Free(s, leaks[j]);
    CountFree(g, s, leaks[j]);
  }

  // A buffer as the only user t has it from bread of block b
  ghost function Fresh(b: nat, data: Block, t: Thread): Buffer {
    Buffer(Some(b), true, 1, data, Some(t), map[t := b], false)
  }

  // The first bread of a round takes the last unused buffer
  lemma RoundLog(g: Geometry, s0: State, s: State, bl: seq<int>, k: nat, free: seq<nat>, leaks: seq<nat>, x: nat)
    requires Sound(g, s0, s) && Round(g, s, bl, k, free, leaks) && k < |bl| && free != [] && x == g.start + 1 + k
    ensures CanBread(g, s, 0, x) && x !in s.at && Slot(s, x) == Some(free[|free| - 1]) && Sound(g, s0, Bread(s, 0, x))
  {
    assert g.InLog(x) && x < |s.disk| && x !in s.at;
    LastIsVictim(g, s, free, leaks);
    WantsLog(g, s, k, x);
    RoundCan(g, s, free[|free| - 1], x);
    BreadSound(g, s0, s, 0, x);
  }

  lemma WantsLog(g: Geometry, s: State, k: nat, x: nat)
    requires (s.phase == Install(k) || s.phase == Phase.WriteLog(k)) && k < |s.lh| && x == g.start + 1 + k
    ensures Wanted(g, s) == {x, s.lh[k]}
  {
  }

  lemma RoundCan(g: Geometry, s: State, f: nat, x: nat)
    requires AllFree(s) && x in Wanted(g, s) && Victim(s.lru, s.bufs) == Some(f) && f < NBUF && x < |s.disk|
    requires x !in s.at && s.owner == 0
    ensures CanBread(g, s, 0, x) && Slot(s, x) == Some(f)
  {
    assert Free(s, f);
    RoundAsks(g, s, x);
  }

  lemma RoundAsks(g: Geometry, s: State, x: nat)
    requires AllFree(s) && x in Wanted(g, s)
    ensures MayAsk(g, s, 0, x)
  {
    forall i | 0 <= i < |s.bufs|
      ensures 0 !in s.bufs[i].users
    {
      assert Free(s, i);
    }
  }

  // The second takes the one before it
  ghost predicate HasLog(g: Geometry, s0: State, s: State, s1: State, bl: seq<int>, k: nat, free: seq<nat>,
      leaks: seq<nat>, x: nat) {
    && Sound(g, s0, s) && Round(g, s, bl, k, free, leaks) && k < |bl| && |free| >= 2 && x == g.start + 1 + k
    && x < |s.disk|
    && x !in s.at && Slot(s, x) == Some(free[|free| - 1]) && s1 == Bread(s, 0, x) && Sound(g, s0, s1)
  }

  lemma PairSplit(free: seq<nat>, leaks: seq<nat>)
    requires |free| >= 2
    ensures free + leaks == free[..|free| - 2] + [free[|free| - 2]] + ([free[|free| - 1]] + leaks)
  {
  }

  lemma HomeVictim(s: State, s1: State, free: seq<nat>, leaks: seq<nat>, x: nat)
    requires |s.bufs| == NBUF && x < |s.disk| && x !in s.at && |free| >= 2 && Slot(s, x) == Some(free[|free| - 1])
    requires s1 == Bread(s, 0, x)
    requires s.lru == free + leaks && free[|free| - 1] < NBUF && free[|free| - 2] < NBUF
    requires free[|free| - 1] != free[|free| - 2]
    requires s.bufs[free[|free| - 2]].refcnt == 0
    requires forall j :: 0 <= j < |leaks| ==> leaks[j] < NBUF && s.bufs[leaks[j]].refcnt != 0
    ensures Victim(s1.lru, s1.bufs) == Some(free[|free| - 2])
  {
    var l, h := free[|free| - 1], free[|free| - 2];
    var tail := [l] + leaks;
    assert s1.bufs[l].refcnt == 1;
    forall j | 0 <= j < |tail|
      ensures tail[j] < NBUF && s1.bufs[tail[j]].refcnt != 0
    {
      assert j > 0 ==> tail[j] == leaks[j - 1];
    }
    VictimIs(free[..|free| - 2], h, tail, s1.bufs);
    PairSplit(free, leaks);
  }

  lemma HomeAsks(g: Geometry, s: State, s1: State, l: nat, k: nat, x: nat, y: nat)
    requires AllFree(s) && x < |s.disk| && s.phase == Install(k) && k < |s.lh| && y == s.lh[k] && x == g.start + 1 + k
    requires l < NBUF
    requires s1 == s.(bufs := s.bufs[l := Fresh(x, s.disk[x], 0)], at := s1.at)
    ensures MayAsk(g, s1, 0, y)
  {
    forall i | 0 <= i < |s1.bufs| && 0 in s1.bufs[i].users
      ensures s1.bufs[i].users[0] == x
    {
      assert Free(s, i);
    }
  }

  lemma RoundHome(g: Geometry, s0: State, s: State, s1: State, bl: seq<int>, k: nat, free: seq<nat>, leaks: seq<nat>,
      x: nat, y: nat)
    requires HasLog(g, s0, s, s1, bl, k, free, leaks, x) && y == bl[k] && NoDup(bl)
    ensures CanBread(g, s1, 0, y) && y !in s1.at && y !in s.at && g.HomeBlock(s.disk, y)
    ensures Slot(s1, y) == Some(free[|free| - 2]) && Sound(g, s0, Bread(s1, 0, y))
  {
    assert g.HomeBlock(s.disk, y) && y !in bl[..k] && y !in s.at && y != x;
    HomeSlot(g, s, s1, free, leaks, x);
    HomeAsks(g, s, s1, free[|free| - 1], k, x, y);
    BreadSound(g, s0, s1, 0, y);
  }

  lemma HomeSlot(g: Geometry, s: State, s1: State, free: seq<nat>, leaks: seq<nat>, x: nat)
    requires Inv(g, s) && s.booting && AllFree(s) && ListIs(s, free, leaks) && |free| >= 2 && x < |s.disk| && x !in s.at
    requires Slot(s, x) == Some(free[|free| - 1]) && s1 == Bread(s, 0, x)
    ensures Victim(s1.lru, s1.bufs) == Some(free[|free| - 2]) && Free(s1, free[|free| - 2])
  {
    var l, h := free[|free| - 1], free[|free| - 2];
    assert Free(s, h) && Free(s, l);
    DistinctAt(free, |free| - 1);
    CountFree(g, s, h);
    forall j | 0 <= j < |leaks|
      ensures leaks[j] < NBUF && s.bufs[leaks[j]].refcnt != 0
    {
      LeaksSkipped(g, s, free, leaks, j);
    }
    HomeVictim(s, s1, free, leaks, x);
  }

  // ---------- the rest of a round ----------

  // Both buffers of the round are there
  ghost predicate HasBoth(g: Geometry, s0: State, s: State, s2: State, bl: seq<int>, k: nat, free: seq<nat>,
      leaks: seq<nat>, x: nat, y: nat) {
    && Sound(g, s0, s) && Round(g, s, bl, k, free, leaks) && k < |bl| && |free| >= 2 && x == g.start + 1 + k
    && x < |s.disk|
    && y == bl[k] && y !in s.at && g.HomeBlock(s.disk, y) && NoDup(bl)
    && var l, h := free[|free| - 1], free[|free| - 2];
       && l < NBUF && h < NBUF && l != h && Sound(g, s0, s2)
       && s2 == s.(bufs := s.bufs[l := Fresh(x, s.disk[x], 0)][h := Fresh(y, s.disk[y], 0)], at := s2.at)
       && forall e :: e in s2.at ==> e == x || e == y || e in s.at
  }

  lemma RoundReads(g: Geometry, s0: State, s: State, bl: seq<int>, k: nat, free: seq<nat>, leaks: seq<nat>, x: nat,
      y: nat) returns (s2: State)
    requires Sound(g, s0, s) && Round(g, s, bl, k, free, leaks) && k < |bl| && |free| >= 2 && x == g.start + 1 + k
    requires y == bl[k] && NoDup(bl)
    ensures HasBoth(g, s0, s, s2, bl, k, free, leaks, x, y)
  {
    RoundLog(g, s0, s, bl, k, free, leaks, x);
    var s1 := Bread(s, 0, x);
    RoundHome(g, s0, s, s1, bl, k, free, leaks, x, y);
    s2 := Bread(s1, 0, y);
    assert s1.bufs[free[|free| - 1]] == Fresh(x, s.disk[x], 0);
    assert s2.bufs[free[|free| - 2]] == Fresh(y, s.disk[y], 0);
  }

  // The list after the round
  lemma RoundList(free: seq<nat>, leaks: seq<nat>)
    requires |free| >= 2 && Distinct(free)
    ensures [free[|free| - 1]] + Removed(free + leaks, free[|free| - 1]) == [free[|free| - 1]] + free[..|free| - 2]
        + ([free[|free| - 2]] + leaks)
  {
    var l, h, before := free[|free| - 1], free[|free| - 2], free[..|free| - 1];
    DistinctAt(free, |free| - 1);
    RemovedAt(before, l, leaks);
    assert before + [l] + leaks == free + leaks;
    assert before == free[..|free| - 2] + [h];
  }

  ghost function Unused(b: nat, data: Block, refcnt: nat): Buffer {
    Buffer(Some(b), true, refcnt, data, None, map[], false)
  }

  // The end of a round, as a state
  ghost function Ended(s: State, l: nat, h: nat, x: nat, y: nat, k: nat): State
    requires l < |s.bufs| && h < |s.bufs| && x < |s.disk| && y < |s.disk|
  {
    s.(bufs := s.bufs[l := Unused(x, s.disk[x], 0)][h := Unused(y, s.disk[x], U32 - 1)], disk := s.disk[y := s.disk[x]],
       lru := [l] + Removed(s.lru, l), phase := Install(k + 1), leaked := s.leaked + {y})
  }

  // The two buffers as bread leaves them
  ghost predicate Holding(s: State, l: nat, h: nat, x: nat, y: nat) {
    && l < |s.bufs| && h < |s.bufs| && l != h && x < |s.disk| && y < |s.disk| && s.booting && s.owner == 0
    && s.busy == map[]
    && s.bufs[l] == Fresh(x, s.disk[x], 0) && s.bufs[h] == Fresh(y, s.disk[y], 0)
  }

  lemma CopyNext(g: Geometry, s: State, l: nat, h: nat, x: nat, y: nat, k: nat)
    requires Holding(s, l, h, x, y) && s.phase == Install(k) && k < |s.lh| && x == g.start + 1 + k && y == s.lh[k]
    ensures Next(g, s, CopyHome(h, l)) == Some(Installed1(s, h, s.disk[x], k, y))
  {
  }

  lemma EndedIs(s: State, l: nat, h: nat, x: nat, y: nat, k: nat)
    requires Holding(s, l, h, x, y)
    ensures var s3 := Installed1(s, h, s.disk[x], k, y);
            && CanRelease(s3, 0, l) && CanRelease(Release(s3, l), 0, h)
            && Release(Release(s3, l), h) == Ended(s, l, h, x, y, k)
            && s3.booting && Release(s3, l).booting
  {
    var s3 := Installed1(s, h, s.disk[x], k, y);
    assert s3.bufs[l] == Fresh(x, s.disk[x], 0) && s3.bufs[h] == Fresh(y, s.disk[x], 0).(refcnt := 0);
    var s4 := Release(s3, l);
    assert s4.bufs[h] == s3.bufs[h] && s4.bufs[l] == Unused(x, s.disk[x], 0);
    assert Release(s4, h).bufs == Ended(s, l, h, x, y, k).bufs;
  }

  lemma RoundCopies(g: Geometry, s0: State, s: State, l: nat, h: nat, x: nat, y: nat, k: nat)
    requires Sound(g, s0, s) && Holding(s, l, h, x, y) && s.phase == Install(k) && k < |s.lh| && x == g.start + 1 + k
    requires y == s.lh[k]
    ensures Sound(g, s0, Ended(s, l, h, x, y, k))
  {
    var s3 := Installed1(s, h, s.disk[x], k, y);
    CopyNext(g, s, l, h, x, y, k);
    SoundStep(g, s0, s, CopyHome(h, l), s3);
    EndedIs(s, l, h, x, y, k);
    ReleaseSound(g, s0, s3, 0, l);
    ReleaseSound(g, s0, Release(s3, l), 0, h);
  }

  lemma EndedBufs(s: State, s2: State, l: nat, h: nat, x: nat, y: nat, k: nat)
    requires |s.bufs| == NBUF && l < NBUF && h < NBUF && l != h && x < |s.disk| && y < |s.disk|
    requires s2 == s.(bufs := s.bufs[l := Fresh(x, s.disk[x], 0)][h := Fresh(y, s.disk[y], 0)], at := s2.at)
    ensures Ended(s2, l, h, x, y, k).bufs
         == s.bufs[l := Unused(x, s.disk[x], 0)][h := Unused(y, s.disk[x], U32 - 1)]
  {
  }

  lemma RoundDone(g: Geometry, s0: State, s: State, bl: seq<int>, k: nat, free: seq<nat>, leaks: seq<nat>)
      returns (t: State, free': seq<nat>, leaks': seq<nat>)
    requires Sound(g, s0, s) && Round(g, s, bl, k, free, leaks) && k < |bl| && k + 1 < NBUF && NoDup(bl)
    ensures Sound(g, s0, t) && Round(g, t, bl, k + 1, free', leaks')
  {
    var x, y := g.start + 1 + k, bl[k];
    assert g.HomeBlock(s.disk, y);
    var s2 := RoundReads(g, s0, s, bl, k, free, leaks, x, y);
    var l, h := free[|free| - 1], free[|free| - 2];
    RoundCopies(g, s0, s2, l, h, x, y, k);
    t := Ended(s2, l, h, x, y, k);
    EndedBufs(s, s2, l, h, x, y, k);
    free', leaks' := [l] + free[..|free| - 2], [h] + leaks;
    RoundList(free, leaks);
    RoundAfter(g, s, t, bl, k, free, leaks, l, h, x, y, free', leaks');
  }

  lemma RoundAfter(g: Geometry, s: State, t: State, bl: seq<int>, k: nat, free: seq<nat>, leaks: seq<nat>, l: nat,
      h: nat, x: nat, y: nat,
                   free': seq<nat>, leaks': seq<nat>)
    requires Inv(g, s) && Round(g, s, bl, k, free, leaks) && k < |bl| && |free| >= 2 && x == g.start + 1 + k
    requires x < |s.disk|
    requires y == bl[k] && y !in s.at && g.HomeBlock(s.disk, y) && l == free[|free| - 1] < NBUF
    requires h == free[|free| - 2] < NBUF
    requires |t.bufs| == NBUF
    requires t.bufs == s.bufs[l := Unused(x, t.bufs[l].data, 0)][h := Unused(y, t.bufs[h].data, U32 - 1)]
    requires t.booting && t.owner == 0 && t.phase == Install(k + 1) && t.lh == bl
    requires t.busy == map[] && t.leaked == s.leaked + {y}
    requires |t.disk| == |s.disk| && forall e :: e in t.at ==> e == x || e == y || e in s.at
    requires t.lru == free' + leaks' && free' == [l] + free[..|free| - 2] && leaks' == [h] + leaks
    ensures Round(g, t, bl, k + 1, free', leaks')
  {
    RoundLeaked(g, s, bl, k, x);
    DistinctAt(free, |free| - 1);
    RoundBufs(g, s, t, l, h, x, y);
    RoundLists(s, t, free, leaks, l, h, free', leaks');
  }

  lemma RoundLeaked(g: Geometry, s: State, bl: seq<int>, k: nat, x: nat)
    requires GoodList(s.disk, g, bl) && k < |bl| && g.InLog(x)
    ensures bl[..k + 1] == bl[..k] + [bl[k]] && x !in bl
  {
    assert forall j :: 0 <= j < |bl| ==> g.HomeBlock(s.disk, bl[j]);
  }

  lemma RoundBufs(g: Geometry, s: State, t: State, l: nat, h: nat, x: nat, y: nat)
    requires Inv(g, s) && AllFree(s) && l < NBUF && h < NBUF && l != h && y !in s.at && x !in t.leaked
    requires t.leaked == s.leaked + {y}
    requires |t.bufs| == NBUF
    requires t.bufs == s.bufs[l := Unused(x, t.bufs[l].data, 0)][h := Unused(y, t.bufs[h].data, U32 - 1)]
    ensures forall i :: 0 <= i < NBUF ==> Free(t, i) && (i != h ==> (Leaks(t, i) <==> i != l && Leaks(s, i)))
  {
    forall i | 0 <= i < NBUF
      ensures Free(t, i) && (i != h ==> (Leaks(t, i) <==> i != l && Leaks(s, i)))
    {
      assert BufOk(g, s, i);
      RoundBuf(s, t, l, h, x, y, i);
    }
  }

  lemma RoundBuf(s: State, t: State, l: nat, h: nat, x: nat, y: nat, i: nat)
    requires AllFree(s) && l < NBUF && h < NBUF && i < NBUF && y !in s.at && x !in t.leaked
    requires t.leaked == s.leaked + {y}
    requires s.bufs[i].block.Some? ==> s.bufs[i].block.value in s.at
    requires |t.bufs| == NBUF && (i != l && i != h ==> t.bufs[i] == s.bufs[i]) && Free(t, l) && Free(t, h)
    requires t.bufs[l].block == Some(x)
    ensures Free(t, i) && (i != h ==> (Leaks(t, i) <==> i != l && Leaks(s, i)))
  {
    assert Free(s, i);
  }

  lemma RoundLists(s: State, t: State, free: seq<nat>, leaks: seq<nat>, l: nat, h: nat, free': seq<nat>,
      leaks': seq<nat>)
    requires ListIs(s, free, leaks) && |free| >= 2 && l == free[|free| - 1] && h == free[|free| - 2]
    requires |s.bufs| == |t.bufs| == NBUF
    requires forall i :: 0 <= i < NBUF && i != h ==> (Leaks(t, i) <==> i != l && Leaks(s, i))
    requires Leaks(t, h) && t.lru == free' + leaks' && free' == [l] + free[..|free| - 2] && leaks' == [h] + leaks
    ensures ListIs(t, free', leaks')
  {
    DistinctAt(free, |free| - 1);
    DistinctAt(free, |free| - 2);
    forall i | 0 <= i < NBUF
      ensures Covered(free', leaks', i)
    {
      assert Covered(free, leaks, i);
      assert i in free ==> i == l || i == h || i in free[..|free| - 2];
    }
    forall j | 0 <= j < |leaks'|
      ensures Leaks(t, leaks'[j])
    {
      assert j > 0 ==> leaks'[j] == leaks[j - 1] && Leaks(s, leaks[j - 1]);
    }
    RoundDistinct(s, free, leaks, l, h);
  }

  lemma RoundDistinct(s: State, free: seq<nat>, leaks: seq<nat>, l: nat, h: nat)
    requires ListIs(s, free, leaks) && |free| >= 2 && l == free[|free| - 1] && h == free[|free| - 2]
    ensures Distinct([l] + free[..|free| - 2]) && Distinct([h] + leaks)
  {
    var a, b := [l] + free[..|free| - 2], [h] + leaks;
    DistinctAt(free, |free| - 1);
    forall j: nat, k: nat
      ensures Differ(a, j, k)
    {
      assert 0 < j < k ==> Differ(free, j - 1, k - 1);
    }
    forall j: nat, k: nat
      ensures Differ(b, j, k)
    {
      assert 0 < j < k ==> Differ(leaks, j - 1, k - 1);
      assert 0 < k < |b| ==> b[k] == leaks[k - 1] && Leaks(s, leaks[k - 1]);
    }
  }

  lemma {:induction false} Rounds(g: Geometry, s0: State, s: State, bl: seq<int>, k: nat, free: seq<nat>,
      leaks: seq<nat>)
      returns (t: State, free': seq<nat>, leaks': seq<nat>)
    requires Sound(g, s0, s) && Round(g, s, bl, k, free, leaks) && |bl| < NBUF && NoDup(bl)
    ensures Sound(g, s0, t) && Round(g, t, bl, |bl|, free', leaks')
    decreases |bl| - k
  {
    if k == |bl| {
      t, free', leaks' := s, free, leaks;
    } else {
      t, free', leaks' := RoundDone(g, s0, s, bl, k, free, leaks);
      t, free', leaks' := Rounds(g, s0, t, bl, k + 1, free', leaks');
    }
  }

  // ---------- the beginning and the end of recovery ----------

  lemma FirstVictim(n: nat, bufs: seq<Buffer>)
    requires n > 0 && bufs != [] && bufs[0].refcnt == 0
    ensures Victim(FirstList(n), bufs) == Some(0)
  {
    FirstListOk(n);
    var before := FirstList(n)[..n - 1];
    assert before + [0] + [] == FirstList(n);
    VictimIs(before, 0, [], bufs);
  }

  lemma BootReads(g: Geometry, d: Disk) returns (s: State)
    requires Bootable(g, d)
    ensures var s0 := Start(g, d);
            && Sound(g, s0, s) && s == s0.(bufs := s0.bufs[0 := Fresh(g.start, d[g.start], 0)], at := map[g.start := 0])
  {
    var s0 := Start(g, d);
    StartOk(g, d);
    Stay(g, s0);
    FirstBread(g, d);
    BreadSound(g, s0, s0, 0, g.start);
    s := Bread(s0, 0, g.start);
  }

  lemma FirstBread(g: Geometry, d: Disk)
    requires Bootable(g, d)
    ensures var s0 := Start(g, d);
            && CanBread(g, s0, 0, g.start) && Slot(s0, g.start) == Some(0) && s0.booting
            && Bread(s0, 0, g.start)
            == s0.(bufs := s0.bufs[0 := Fresh(g.start, d[g.start], 0)], at := map[g.start := 0])
  {
    FirstVictim(|FreshBuffers()|, Start(g, d).bufs);
  }

  // The list after the header's buffer, the last, has been released
  ghost predicate FirstInFront(lru: seq<nat>, n: nat) {
    |lru| == n && forall k :: 0 <= k < n ==> lru[k] == if k == 0 then 0 else n - k
  }

  lemma FirstReleased(n: nat)
    requires n > 0
    ensures FirstInFront([0] + Removed(FirstList(n), 0), n)
  {
    FirstListOk(n);
    var rest := FirstList(n)[..n - 1];
    assert rest + [0] + [] == FirstList(n);
    RemovedAt(rest, 0, []);
    assert rest + [] == rest;
  }

  lemma BootList(t: State)
    requires |t.bufs| == NBUF && FirstInFront(t.lru, NBUF) && t.leaked == {}
    ensures ListIs(t, t.lru, [])
  {
    assert t.lru == t.lru + [];
    forall i | 0 <= i < NBUF
      ensures Covered(t.lru, [], i)
    {
      assert t.lru[if i == 0 then 0 else NBUF - i] == i;
    }
    forall j: nat, k: nat
      ensures Differ(t.lru, j, k)
    {
      assert k < NBUF ==> t.lru[k] == (if k == 0 then 0 else NBUF - k);
      assert j < NBUF ==> t.lru[j] == (if j == 0 then 0 else NBUF - j);
    }
  }

  // The header has been read, and its buffer released
  ghost function HeadRead(g: Geometry, d: Disk): State
    requires GoodHead(d, g)
  {
    var s0 := Start(g, d);
    s0.(bufs := s0.bufs[0 := Unused(g.start, d[g.start], 0)], at := map[g.start := 0], lh := HeadBlocks(d, g),
      phase := Install(0),
        lru := [0] + Removed(s0.lru, 0))
  }

  lemma ReadNext(g: Geometry, d: Disk, s: State, u: State)
    requires Bootable(g, d)
    requires s == Start(g, d).(bufs := Start(g, d).bufs[0 := Fresh(g.start, d[g.start], 0)], at := map[g.start := 0])
    requires u == s.(lh := HeadBlocks(d, g), phase := Install(0))
    ensures Next(g, s, ReadHead(0)) == Some(u) && CanRelease(u, 0, 0) && Release(u, 0) == HeadRead(g, d)
  {
    assert Release(u, 0).bufs == HeadRead(g, d).bufs;
  }

  lemma HeadReadOk(g: Geometry, d: Disk)
    requires Bootable(g, d)
    ensures Round(g, HeadRead(g, d), HeadBlocks(d, g), 0, HeadRead(g, d).lru, [])
  {
    var t := HeadRead(g, d);
    FirstReleased(|FreshBuffers()|);
    BootList(t);
    forall j | 0 <= j < NBUF
      ensures Free(t, j)
    {
      assert t.bufs[j] == if j == 0 then Unused(g.start, d[g.start], 0) else FreshBuffer;
    }
  }

  lemma BootStarts(g: Geometry, d: Disk) returns (t: State)
    requires Bootable(g, d)
    ensures Sound(g, Start(g, d), t) && Round(g, t, HeadBlocks(d, g), 0, t.lru, [])
  {
    var s0 := Start(g, d);
    var s := BootReads(g, d);
    var u := s.(lh := HeadBlocks(d, g), phase := Install(0));
    ReadNext(g, d, s, u);
    SoundStep(g, s0, s, ReadHead(0), u);
    ReleaseSound(g, s0, u, 0, 0);
    HeadReadOk(g, d);
    t := HeadRead(g, d);
  }

  // Recovery has ended: the list, and what the cache holds of the home area
  ghost predicate Booted(g: Geometry, s: State, bl: seq<int>, free: seq<nat>, leaks: seq<nat>) {
    && Inv(g, s) && !s.booting && s.phase.Idle? && s.lh == [] && s.ops == {} && AllFree(s)
    && ListIs(s, free, leaks) && free != []
    && (forall e :: e in s.at ==> e < |s.disk| && (g.InLog(e) || e in s.leaked))
    && (forall e :: e in s.leaked <==> e in bl)
  }

  // The header's buffer, from the cache or from disk
  lemma HeadHit(g: Geometry, s: State)
    requires Inv(g, s) && s.booting && AllFree(s) && g.start in s.at
    ensures s.at[g.start] < NBUF && !Leaks(s, s.at[g.start]) && s.bufs[s.at[g.start]].block == Some(g.start)
    ensures g.start < |s.disk| && BreadBuf(s, 0, g.start) == Fresh(g.start, s.disk[g.start], 0)
  {
    var j := s.at[g.start];
    assert g.InLog(g.start) && BlockOk(g, s, g.start);
    assert BufOk(g, s, j) && Free(s, j);
    CountFree(g, s, j);
  }

  lemma LastSplit(free: seq<nat>, leaks: seq<nat>)
    requires free != []
    ensures free + leaks == free[..|free| - 1] + [free[|free| - 1]] + leaks
  {
  }

  // The last unused buffer is the next to be taken
  lemma LastIsVictim(g: Geometry, s: State, free: seq<nat>, leaks: seq<nat>)
    requires Inv(g, s) && AllFree(s) && (s.booting || s.lh == []) && ListIs(s, free, leaks) && free != []
    ensures Victim(s.lru, s.bufs) == Some(free[|free| - 1])
  {
    var l := free[|free| - 1];
    forall j | 0 <= j < |leaks|
      ensures leaks[j] < NBUF && s.bufs[leaks[j]].refcnt != 0
    {
      LeaksSkipped(g, s, free, leaks, j);
    }
    assert Free(s, l);
    CountFree(g, s, l);
    VictimIs(free[..|free| - 1], l, leaks, s.bufs);
    LastSplit(free, leaks);
  }

  lemma HeadBread(g: Geometry, s0: State, s: State, bl: seq<int>, free: seq<nat>, leaks: seq<nat>) returns (j: nat)
    requires Sound(g, s0, s) && Round(g, s, bl, |bl|, free, leaks) && |bl| < NBUF
    ensures CanBread(g, s, 0, g.start) && j == Slot(s, g.start).value < NBUF && !Leaks(s, j)
    ensures BreadBuf(s, 0, g.start) == Fresh(g.start, s.disk[g.start], 0)
  {
    RoundAsks(g, s, g.start);
    assert g.InLog(g.start);
    if g.start in s.at {
      HeadHit(g, s);
      j := s.at[g.start];
    } else {
      LastIsVictim(g, s, free, leaks);
      j := free[|free| - 1];
    }
    assert Free(s, j);
  }

  ghost function Cleared(s: State, g: Geometry, j: nat): State
    requires j < |s.bufs| && g.start < |s.disk| && |s.disk[g.start]| == WORDS
  {
    var head := PutHead(s.disk[g.start], []);
    s.(bufs := s.bufs[j := Unused(g.start, head, 0)], disk := s.disk[g.start := head], lru := [j] + Removed(s.lru, j),
       phase := Idle, lh := [], booting := false)
  }

  lemma BootClears(g: Geometry, s0: State, s: State, j: nat)
    requires Sound(g, s0, s) && s.booting && s.owner == 0
    requires s.busy == map[] && j < |s.bufs| && s.phase == Install(|s.lh|)
    requires g.start < |s.disk| && |s.disk[g.start]| == WORDS && s.bufs[j] == Fresh(g.start, s.disk[g.start], 0)
    requires |s.lh| <= LOGSIZE
    ensures Sound(g, s0, Cleared(s, g, j))
  {
    var u := WriteThrough(s, j, PutHead(s.disk[g.start], []), Idle).(lh := [], booting := false);
    ClearNext(g, s, j, u);
    SoundStep(g, s0, s, ClearHead(j), u);
    ReleaseSound(g, s0, u, 0, j);
  }

  lemma ClearNext(g: Geometry, s: State, j: nat, u: State)
    requires s.owner == 0 && s.busy == map[] && j < |s.bufs| && s.phase == Install(|s.lh|)
    requires g.start < |s.disk| && |s.disk[g.start]| == WORDS && s.bufs[j] == Fresh(g.start, s.disk[g.start], 0)
    requires |s.lh| <= LOGSIZE
    requires u == WriteThrough(s, j, PutHead(s.disk[g.start], []), Idle).(lh := [], booting := false)
    ensures Next(g, s, ClearHead(j)) == Some(u) && CanRelease(u, 0, j) && Release(u, j) == Cleared(s, g, j)
  {
    assert Release(u, j).bufs == Cleared(s, g, j).bufs;
  }

  /** Recovery from any log of fewer blocks than there are buffers comes to its end. */
  lemma BootEnds(g: Geometry, d: Disk) returns (t: State, free: seq<nat>, leaks: seq<nat>)
    requires Bootable(g, d) && |HeadBlocks(d, g)| < NBUF
    ensures Reach(g, Start(g, d), t) && Booted(g, t, HeadBlocks(d, g), free, leaks)
  {
    var s0, bl := Start(g, d), HeadBlocks(d, g);
    var s := BootStarts(g, d);
    var fr;
    s, fr, leaks := Rounds(g, s0, s, bl, 0, s.lru, []);
    var j := HeadBread(g, s0, s, bl, fr, leaks);
    BreadSound(g, s0, s, 0, g.start);
    var u := Bread(s, 0, g.start);
    BootClears(g, s0, u, j);
    t := Cleared(u, g, j);
    free := BootedAfter(g, s, t, bl, fr, leaks, j);
  }

  lemma BootedAfter(g: Geometry, s: State, t: State, bl: seq<int>, free: seq<nat>, leaks: seq<nat>, j: nat)
      returns (free': seq<nat>)
    requires Inv(g, s) && Round(g, s, bl, |bl|, free, leaks) && j < NBUF && !Leaks(s, j) && g.start < |s.disk|
    requires |s.disk[g.start]| == WORDS
    requires g.InLog(g.start) && Inv(g, t)
    requires t == Cleared(s.(bufs := s.bufs[j := Fresh(g.start, s.disk[g.start], 0)], at := t.at), g, j)
    requires forall e :: e in t.at ==> e == g.start || e in s.at
    ensures Booted(g, t, bl, free', leaks)
  {
    assert bl[..|bl|] == bl;
    forall i | 0 <= i < NBUF
      ensures Free(t, i) && (Leaks(t, i) <==> Leaks(s, i))
    {
      assert Free(s, i);
    }
    free' := Moved(s, t, free, leaks, j);
  }

  lemma Moved(s: State, t: State, free: seq<nat>, leaks: seq<nat>, j: nat) returns (free': seq<nat>)
    requires ListIs(s, free, leaks) && j < NBUF == |s.bufs| == |t.bufs| && !Leaks(s, j)
    requires t.lru == [j] + Removed(s.lru, j)
    requires forall i :: 0 <= i < NBUF ==> (Leaks(t, i) <==> Leaks(s, i))
    ensures ListIs(t, free', leaks) && free' != []
  {
    assert Covered(free, leaks, j) && j in free;
    var p :| 0 <= p < |free| && free[p] == j;
    var a, b := free[..p], free[p + 1..];
    DistinctAt(free, p);
    free' := [j] + a + b;
    MovedList(a, j, b, leaks);
    assert s.lru == a + [j] + b + leaks by { assert free == a + [j] + b; }
    forall i | 0 <= i < NBUF
      ensures Covered(free', leaks, i)
    {
      assert Covered(free, leaks, i);
      MovedHas(free, free', p, i);
    }
    MovedDistinct(free, free', p);
  }

  lemma MovedList(a: seq<nat>, j: nat, b: seq<nat>, leaks: seq<nat>)
    requires j !in a
    ensures [j] + Removed(a + [j] + b + leaks, j) == [j] + a + b + leaks
  {
    RemovedAt(a, j, b + leaks);
    assert a + [j] + (b + leaks) == a + [j] + b + leaks;
    FrontJoined(a, j, b, leaks);
  }

  lemma FrontJoined(a: seq<nat>, j: nat, b: seq<nat>, c: seq<nat>)
    ensures [j] + (a + (b + c)) == [j] + a + b + c
  {
  }

  lemma MovedHas(free: seq<nat>, free': seq<nat>, p: nat, i: nat)
    requires p < |free| && free' == [free[p]] + free[..p] + free[p + 1..]
    ensures i in free ==> i in free'
  {
    if i in free {
      var q :| 0 <= q < |free| && free[q] == i;
      assert free'[if q == p then 0 else if q < p then q + 1 else q] == i;
    }
  }

  lemma MovedDistinct(free: seq<nat>, free': seq<nat>, p: nat)
    requires p < |free| && free' == [free[p]] + free[..p] + free[p + 1..] && Distinct(free)
    ensures Distinct(free') && forall j :: 0 <= j < |free'| ==> free'[j] in free
  {
    forall j | 0 <= j < |free'|
      ensures free'[j] == free[MovedFrom(j, p)]
    {
    }
    forall j: nat, k: nat
      ensures Differ(free', j, k)
    {
      assert Differ(free, MovedFrom(j, p), MovedFrom(k, p)) && Differ(free, MovedFrom(k, p), MovedFrom(j, p));
    }
  }

  ghost function MovedFrom(j: nat, p: nat): nat {
    if j == 0 then p else if j <= p then j - 1 else j
  }
}
