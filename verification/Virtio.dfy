/** The disk driver's side of the virtqueue (VIRTIO Version 1.1, sections 2.6.5, 2.6.6 and 2.6.8):
    descriptors, the ring of available chains and the ring of used ones. What runs under
    vdisk_lock is one method; the device is two more. */
module Virtio {

  const NUM: nat := 8
  const U16: nat := 0x1_0000

  // How far a request has come: in the available ring; taken by the device; in the used ring;
  // seen by the interrupt handler
  datatype Stage = Available | Taken | Used | Seen

  // The descriptors after the first, and the buffer
  datatype Chain = Chain(mid: nat, tail: nat, buf: nat, stage: Stage)

  datatype Option<T> = None | Some(value: T)

  // free .. busy are the driver's and the device's memory: free descriptors, the flag NEXT and the
  // field next of each, info[].b, avail[1] and the ring after it, used->id and the ring after it,
  // used_idx, and the buffers whose disk field is 1. The rest is history and bookkeeping: which
  // chain a descriptor is in, the chains by first descriptor, what is in the two rings, how many
  // chains have been made available, the buffers that the device has completed, in order, and the
  // buffers whose disk field the driver has cleared, in order.
  datatype State = State(
    free: seq<bool>, more: seq<bool>, next: seq<nat>, info: seq<Option<nat>>,
    availIdx: nat, avail: seq<nat>, usedId: nat, used: seq<nat>, usedIdx: nat, busy: set<nat>,
    owner: seq<nat>, chains: map<nat, Chain>, waiting: seq<nat>, done: seq<nat>, sent: nat,
    completed: seq<nat>, cleared: seq<nat>)
  {
    ghost predicate DescOk(i: nat)
      requires i < NUM && |free| == |owner| == NUM
    {
      && (free[i] <==> owner[i] == NUM)
      && (owner[i] != NUM ==>
           owner[i] in chains && (i == owner[i] || i == chains[owner[i]].mid || i == chains[owner[i]].tail))
    }

    ghost predicate ChainOk(h: nat)
      requires |more| == |next| == |info| == |owner| == NUM && h in chains
    {
      var c := chains[h];
      && h < NUM && c.mid < NUM && c.tail < NUM && h != c.mid && h != c.tail && c.mid != c.tail
      && owner[h] == h && owner[c.mid] == h && owner[c.tail] == h
      && more[h] && next[h] == c.mid && more[c.mid] && next[c.mid] == c.tail && !more[c.tail]
      && info[h] == Some(c.buf) && (c.buf in busy <==> c.stage != Seen)
    }

    ghost predicate BufsDiffer(h: nat, g: nat) {
      h in chains && g in chains && chains[h].buf == chains[g].buf ==> h == g
    }

    // Entry k of the available ring, counted from the oldest that the device has not taken
    ghost predicate WaitingOk(k: nat)
      requires k < |waiting| <= sent && |avail| == NUM
    {
      waiting[k] in chains && chains[waiting[k]].stage == Available && avail[(sent - |waiting| + k) % NUM] == waiting[k]
    }

    ghost predicate DoneOk(k: nat)
      requires k < |done| && |used| == NUM && |completed| == |cleared| + |done|
    {
      && done[k] in chains && chains[done[k]].stage == Used && used[(|cleared| + k) % NUM] == done[k]
      && completed[|cleared| + k] == chains[done[k]].buf
    }

    predicate Sized() {
      |free| == |more| == |next| == |info| == |avail| == |used| == |owner| == NUM
    }

    ghost predicate Ok() {
      && |free| == |more| == |next| == |info| == |avail| == |used| == |owner| == NUM
      && availIdx == sent % U16 && usedId == |completed| % U16 && usedIdx == |cleared| % NUM
      && |waiting| <= sent && |completed| == |cleared| + |done| && cleared == completed[..|cleared|]
      && (forall i :: 0 <= i < NUM ==> DescOk(i)) && (forall h :: h in chains ==> ChainOk(h))
      && (forall h, g :: BufsDiffer(h, g))
      && (forall k :: 0 <= k < |waiting| ==> WaitingOk(k)) && (forall k :: 0 <= k < |done| ==> DoneOk(k))
      && (forall i, j :: 0 <= i < j < |waiting| ==> waiting[i] != waiting[j])
      && (forall i, j :: 0 <= i < j < |done| ==> done[i] != done[j])
      && (forall h :: h in chains && chains[h].stage == Available ==> h in waiting)
      && (forall h :: h in chains && chains[h].stage == Used ==> h in done)
    }
  }

  // ---------- how many ----------

  lemma {:induction false} DistinctBound(s: seq<nat>, n: nat)
    requires (forall i :: 0 <= i < |s| ==> s[i] < n) && forall i, j :: 0 <= i < j < |s| ==> s[i] != s[j]
    ensures |s| <= n
  {
    if s != [] {
      assert s[0] < n;
      if exists k :: 0 <= k < |s| && s[k] == n - 1 {
        var k :| 0 <= k < |s| && s[k] == n - 1;
        DistinctBound(s[..k] + s[k + 1..], n - 1);
      } else {
        DistinctBound(s, n - 1);
      }
    }
  }

  /** The used ring never holds as many entries as it has slots: each head has a middle that is
      not a head. */
  lemma FewDone(s: State)
    requires s.Ok()
    ensures |s.done| < NUM
  {
    if s.done != [] {
      assert s.DoneOk(0) && s.ChainOk(s.done[0]);
      var mid := s.chains[s.done[0]].mid;
      var all := s.done + [mid];
      forall i | 0 <= i < |s.done|
        ensures s.done[i] < NUM && s.done[i] != mid
      {
        assert s.DoneOk(i) && s.ChainOk(s.done[i]);
      }
      DistinctBound(all, NUM);
    }
  }

  /** used_idx % NUM and used->id % NUM differ exactly if a completion is waiting, also when the
      16-bit index wraps. */
  lemma CompareIsExact(s: State)
    requires s.Ok()
    ensures s.usedIdx % NUM != s.usedId % NUM <==> s.done != []
    ensures s.done != [] ==> s.usedIdx < NUM && s.used[s.usedIdx] == s.done[0]
  {
    FewDone(s);
    WrapMod(|s.completed|);
    SlotsMeet(|s.cleared|, |s.done|);
    if s.done != [] {
      assert s.DoneOk(0);
    }
  }

  lemma SlotsMeet(x: nat, d: nat)
    requires d < NUM
    ensures (x % NUM) % NUM == (x + d) % NUM <==> d == 0
  {
  }

  lemma WrapMod(x: nat)
    ensures (x % U16) % NUM == x % NUM
  {
  }

  // ---------- the steps ----------

  // Descriptors h, m and t are formatted for buffer b and made available
  ghost function Submitted(s: State, h: nat, m: nat, t: nat, b: nat): State
    requires |s.free| == |s.more| == |s.next| == |s.info| == |s.avail| == |s.owner| == NUM && h < NUM && m < NUM
    requires t < NUM
  {
    s.(free := s.free[h := false][m := false][t := false], more := s.more[h := true][m := true][t := false],
       next := s.next[h := m][m := t][t := 0], info := s.info[h := Some(b)], busy := s.busy + {b},
       avail := s.avail[s.availIdx % NUM := h], availIdx := (s.availIdx + 1) % U16,
       owner := s.owner[h := h][m := h][t := h], chains := s.chains[h := Chain(m, t, b, Available)],
       waiting := s.waiting + [h], sent := s.sent + 1)
  }

  // Three free descriptors, and a buffer that its caller has locked and that is in no other request
  ghost predicate CanSubmit(s: State, h: nat, m: nat, t: nat, b: nat) {
    && s.Sized() && h < NUM && m < NUM && t < NUM && h != m && h != t && m != t && s.free[h] && s.free[m] && s.free[t]
    && b !in s.busy && forall g :: g in s.chains ==> s.chains[g].buf != b
  }

  lemma FewWaiting(s: State, f: nat)
    requires s.Ok() && f < NUM && s.free[f]
    ensures |s.waiting| < NUM
  {
    forall i | 0 <= i < |s.waiting|
      ensures s.waiting[i] < NUM && s.waiting[i] != f
    {
      assert s.WaitingOk(i) && s.ChainOk(s.waiting[i]) && s.DescOk(f);
    }
    DistinctBound(s.waiting + [f], NUM);
  }

  lemma FreeNotChained(s: State, i: nat, h: nat)
    requires s.Ok() && i < NUM && s.free[i] && h in s.chains
    ensures i != h && i != s.chains[h].mid && i != s.chains[h].tail
  {
    assert s.ChainOk(h) && s.DescOk(i) && s.DescOk(h) && s.DescOk(s.chains[h].mid) && s.DescOk(s.chains[h].tail);
  }

  lemma SubmittedRings(s: State, h: nat, m: nat, t: nat, b: nat)
    requires s.Ok() && CanSubmit(s, h, m, t, b)
    ensures var u := Submitted(s, h, m, t, b);
            && (forall k :: 0 <= k < |u.waiting| ==> u.WaitingOk(k)) && (forall k :: 0 <= k < |u.done| ==> u.DoneOk(k))
            && (forall i, j :: 0 <= i < j < |u.waiting| ==> u.waiting[i] != u.waiting[j])
  {
    var u := Submitted(s, h, m, t, b);
    FewWaiting(s, h);
    forall k | 0 <= k < |u.waiting|
      ensures u.WaitingOk(k) && (k < |s.waiting| ==> u.waiting[k] != h)
    {
      SubmittedWaiting(s, h, m, t, b, k);
    }
    forall k | 0 <= k < |u.done|
      ensures u.DoneOk(k)
    {
      SubmittedDone(s, h, m, t, b, k);
    }
  }

  lemma SubmittedWaiting(s: State, h: nat, m: nat, t: nat, b: nat, k: nat)
    requires s.Ok() && CanSubmit(s, h, m, t, b) && k <= |s.waiting| < NUM
    ensures var u := Submitted(s, h, m, t, b);
            k < |u.waiting| && u.WaitingOk(k) && (k < |s.waiting| ==> u.waiting[k] != h)
  {
    WrapMod(s.sent);
    WrapNext(s.sent);
    if k < |s.waiting| {
      assert s.WaitingOk(k);
      FreeNotChained(s, h, s.waiting[k]);
      SlotsDiffer(s.sent, |s.waiting|, k);
    }
  }

  lemma SubmittedDone(s: State, h: nat, m: nat, t: nat, b: nat, k: nat)
    requires s.Ok() && CanSubmit(s, h, m, t, b) && k < |s.done|
    ensures var u := Submitted(s, h, m, t, b); k < |u.done| && u.DoneOk(k)
  {
    assert s.DoneOk(k);
    FreeNotChained(s, h, s.done[k]);
  }

  lemma WrapNext(x: nat)
    ensures (x % U16 + 1) % U16 == (x + 1) % U16
  {
  }

  // Fewer than NUM entries are in different slots
  lemma SlotsDiffer(sent: nat, n: nat, k: nat)
    requires k < n < NUM && n <= sent
    ensures (sent - n + k) % NUM != sent % NUM
  {
  }

  lemma SubmittedDesc(s: State, h: nat, m: nat, t: nat, b: nat, i: nat)
    requires s.Ok() && CanSubmit(s, h, m, t, b) && i < NUM
    ensures Submitted(s, h, m, t, b).DescOk(i)
  {
    assert s.DescOk(i) && s.DescOk(h);
    assert s.owner[i] != NUM ==> s.owner[i] in s.chains && s.ChainOk(s.owner[i]);
  }

  lemma SubmittedChain(s: State, h: nat, m: nat, t: nat, b: nat, g: nat)
    requires s.Ok() && CanSubmit(s, h, m, t, b) && (g in s.chains || g == h)
    ensures Submitted(s, h, m, t, b).ChainOk(g)
  {
    if g != h {
      assert s.ChainOk(g);
      FreeNotChained(s, h, g);
      FreeNotChained(s, m, g);
      FreeNotChained(s, t, g);
    }
  }

  /** A request goes out in three descriptors of its own. */
  lemma SubmittedOk(s: State, h: nat, m: nat, t: nat, b: nat)
    requires s.Ok() && CanSubmit(s, h, m, t, b)
    ensures Submitted(s, h, m, t, b).Ok()
  {
    var u := Submitted(s, h, m, t, b);
    SubmittedRings(s, h, m, t, b);
    WrapNext(s.sent);
    forall i | 0 <= i < NUM
      ensures u.DescOk(i)
    {
      SubmittedDesc(s, h, m, t, b, i);
    }
    forall g | g in u.chains
      ensures u.ChainOk(g)
    {
      SubmittedChain(s, h, m, t, b, g);
    }
    forall g, g'
      ensures u.BufsDiffer(g, g')
    {
      assert s.BufsDiffer(g, g');
    }
    assert u.waiting[|s.waiting|] == h;
    assert forall g :: g in s.waiting ==> g in u.waiting;
  }

  // The device takes the oldest available chain
  ghost function TakenOff(s: State): State
    requires s.waiting != [] && s.waiting[0] in s.chains
  {
    s.(chains := s.chains[s.waiting[0] := s.chains[s.waiting[0]].(stage := Taken)], waiting := s.waiting[1..])
  }

  // The device finishes a chain that it has taken, in any order
  ghost function Finished(s: State, h: nat): State
    requires h in s.chains && |s.used| == NUM
  {
    s.(chains := s.chains[h := s.chains[h].(stage := Used)], used := s.used[s.usedId % NUM := h],
       usedId := (s.usedId + 1) % U16, done := s.done + [h], completed := s.completed + [s.chains[h].buf])
  }

  // A round of virtio_disk_intr
  ghost function SeenOne(s: State): State
    requires s.done != [] && s.done[0] in s.chains
  {
    var h := s.done[0];
    s.(chains := s.chains[h := s.chains[h].(stage := Seen)], busy := s.busy - {s.chains[h].buf},
       usedIdx := (s.usedIdx + 1) % NUM, done := s.done[1..], cleared := s.cleared + [s.chains[h].buf])
  }

  // The request's own process gives the descriptors back
  ghost function Returned(s: State, h: nat): State
    requires h in s.chains && |s.free| == |s.info| == |s.owner| == NUM && h < NUM && s.chains[h].mid < NUM
    requires s.chains[h].tail < NUM
  {
    var c := s.chains[h];
    s.(free := s.free[h := true][c.mid := true][c.tail := true], info := s.info[h := None],
       owner := s.owner[h := NUM][c.mid := NUM][c.tail := NUM], chains := s.chains - {h})
  }

  // Chain h moves on to another stage, nothing else
  lemma StageChains(s: State, u: State, h: nat, st: Stage)
    requires s.Ok() && h in s.chains && u.chains == s.chains[h := s.chains[h].(stage := st)]
    requires u.free == s.free && u.more == s.more && u.next == s.next && u.info == s.info && u.owner == s.owner
    requires u.busy == if st == Seen then s.busy - {s.chains[h].buf} else s.busy
    requires st != Seen ==> s.chains[h].stage != Seen
    ensures (forall i :: 0 <= i < NUM ==> u.DescOk(i)) && (forall g :: g in u.chains ==> u.ChainOk(g))
    ensures forall g, g' :: u.BufsDiffer(g, g')
  {
    forall i | 0 <= i < NUM
      ensures u.DescOk(i)
    {
      assert s.DescOk(i);
    }
    forall g | g in u.chains
      ensures u.ChainOk(g)
    {
      assert s.ChainOk(g) && s.BufsDiffer(g, h) && s.ChainOk(h);
    }
    forall g, g'
      ensures u.BufsDiffer(g, g')
    {
      assert s.BufsDiffer(g, g');
    }
  }

  lemma TakenOffWaiting(s: State, k: nat)
    requires s.Ok() && k + 1 < |s.waiting| && s.waiting[0] in s.chains
    ensures TakenOff(s).WaitingOk(k)
  {
    assert s.WaitingOk(k + 1) && s.waiting[0] != s.waiting[k + 1];
  }

  lemma TakenOffOk(s: State)
    requires s.Ok() && s.waiting != []
    ensures s.waiting[0] in s.chains && TakenOff(s).Ok()
  {
    assert s.WaitingOk(0);
    var h := s.waiting[0];
    var u := TakenOff(s);
    StageChains(s, u, h, Taken);
    forall k | 0 <= k < |u.waiting|
      ensures u.WaitingOk(k)
    {
      TakenOffWaiting(s, k);
    }
    forall k | 0 <= k < |u.done|
      ensures u.DoneOk(k)
    {
      assert s.DoneOk(k);
    }
    assert forall g :: g in s.waiting ==> g == h || g in u.waiting;
  }

  lemma FinishedDone(s: State, h: nat, k: nat)
    requires s.Ok() && h in s.chains && s.chains[h].stage == Taken && k < |s.done| < NUM
    ensures Finished(s, h).DoneOk(k) && s.done[k] != h
  {
    assert s.DoneOk(k);
    WrapMod(|s.completed|);
    SlotsDiffer(|s.completed|, |s.done|, k);
  }

  lemma FinishedLast(s: State, h: nat)
    requires s.Ok() && h in s.chains && s.chains[h].stage == Taken
    ensures Finished(s, h).DoneOk(|s.done|)
  {
    WrapMod(|s.completed|);
  }

  lemma FinishedRings(s: State, h: nat)
    requires s.Ok() && h in s.chains && s.chains[h].stage == Taken
    ensures var u := Finished(s, h);
            && (forall k :: 0 <= k < |u.done| ==> u.DoneOk(k))
            && (forall i, j :: 0 <= i < j < |u.done| ==> u.done[i] != u.done[j])
  {
    FewDone(s);
    FinishedLast(s, h);
    forall k | 0 <= k < |s.done|
      ensures Finished(s, h).DoneOk(k) && s.done[k] != h
    {
      FinishedDone(s, h, k);
    }
  }

  lemma SameWaiting(s: State, u: State, k: nat)
    requires k < |s.waiting| <= s.sent && |s.avail| == NUM && s.WaitingOk(k)
    requires u.waiting == s.waiting && u.sent == s.sent && u.avail == s.avail
    requires s.waiting[k] in u.chains && u.chains[s.waiting[k]] == s.chains[s.waiting[k]]
    ensures u.WaitingOk(k)
  {
  }

  lemma SameDone(s: State, u: State, k: nat)
    requires k < |s.done| && |s.used| == NUM && |s.completed| == |s.cleared| + |s.done| && s.DoneOk(k)
    requires u.done == s.done && u.used == s.used && u.completed == s.completed && u.cleared == s.cleared
    requires s.done[k] in u.chains && u.chains[s.done[k]] == s.chains[s.done[k]]
    ensures u.DoneOk(k)
  {
  }

  lemma FinishedWaiting(s: State, h: nat, k: nat)
    requires s.Ok() && h in s.chains && s.chains[h].stage == Taken && k < |s.waiting|
    ensures Finished(s, h).WaitingOk(k)
  {
    assert s.WaitingOk(k);
    SameWaiting(s, Finished(s, h), k);
  }

  lemma FinishedOk(s: State, h: nat)
    requires s.Ok() && h in s.chains && s.chains[h].stage == Taken
    ensures Finished(s, h).Ok()
  {
    var u := Finished(s, h);
    FinishedRings(s, h);
    StageChains(s, u, h, Used);
    WrapNext(|s.completed|);
    forall k | 0 <= k < |u.waiting|
      ensures u.WaitingOk(k)
    {
      FinishedWaiting(s, h, k);
    }
    assert u.done[|s.done|] == h;
    assert forall g :: g in s.done ==> g in u.done;
    assert u.completed[..|u.cleared|] == s.completed[..|s.cleared|];
  }

  lemma SeenOneDone(s: State, k: nat)
    requires s.Ok() && k + 1 < |s.done| && s.done[0] in s.chains
    ensures SeenOne(s).DoneOk(k)
  {
    assert s.DoneOk(k + 1) && s.done[0] != s.done[k + 1];
  }

  lemma SeenOneWaiting(s: State, k: nat)
    requires s.Ok() && s.done != [] && s.done[0] in s.chains && k < |s.waiting|
    ensures SeenOne(s).WaitingOk(k)
  {
    assert s.WaitingOk(k) && s.DoneOk(0);
    SameWaiting(s, SeenOne(s), k);
  }

  lemma SeenOneOk(s: State)
    requires s.Ok() && s.done != []
    ensures s.done[0] in s.chains && SeenOne(s).Ok()
  {
    assert s.DoneOk(0);
    var h := s.done[0];
    var u := SeenOne(s);
    StageChains(s, u, h, Seen);
    forall k | 0 <= k < |u.waiting|
      ensures u.WaitingOk(k)
    {
      SeenOneWaiting(s, k);
    }
    forall k | 0 <= k < |u.done|
      ensures u.DoneOk(k)
    {
      SeenOneDone(s, k);
    }
    assert forall g :: g in s.done ==> g == h || g in u.done;
    SlotNext(|s.cleared|);
  }

  lemma SlotNext(x: nat)
    ensures (x % NUM + 1) % NUM == (x + 1) % NUM
  {
  }

  lemma ReturnedDesc(s: State, h: nat, i: nat)
    requires s.Ok() && h in s.chains && s.chains[h].stage == Seen && i < NUM
    ensures s.ChainOk(h) && Returned(s, h).DescOk(i)
  {
    assert s.ChainOk(h) && s.DescOk(i);
  }

  lemma ReturnedChain(s: State, h: nat, g: nat)
    requires s.Ok() && h in s.chains && s.chains[h].stage == Seen && g in s.chains && g != h
    ensures s.ChainOk(h) && Returned(s, h).ChainOk(g)
  {
    assert s.ChainOk(h) && s.ChainOk(g);
  }

  lemma ReturnedWaiting(s: State, h: nat, k: nat)
    requires s.Ok() && h in s.chains && s.chains[h].stage == Seen && k < |s.waiting|
    ensures s.ChainOk(h) && Returned(s, h).WaitingOk(k)
  {
    assert s.ChainOk(h) && s.WaitingOk(k);
    SameWaiting(s, Returned(s, h), k);
  }

  lemma ReturnedDone(s: State, h: nat, k: nat)
    requires s.Ok() && h in s.chains && s.chains[h].stage == Seen && k < |s.done|
    ensures s.ChainOk(h) && Returned(s, h).DoneOk(k)
  {
    assert s.ChainOk(h) && s.DoneOk(k);
    SameDone(s, Returned(s, h), k);
  }

  lemma ReturnedOk(s: State, h: nat)
    requires s.Ok() && h in s.chains && s.chains[h].stage == Seen
    ensures s.ChainOk(h) && Returned(s, h).Ok()
  {
    assert s.ChainOk(h);
    var u := Returned(s, h);
    forall i | 0 <= i < NUM
      ensures u.DescOk(i)
    {
      ReturnedDesc(s, h, i);
    }
    forall g | g in u.chains
      ensures u.ChainOk(g)
    {
      ReturnedChain(s, h, g);
    }
    forall g, g'
      ensures u.BufsDiffer(g, g')
    {
      assert s.BufsDiffer(g, g');
    }
    forall k | 0 <= k < |u.waiting|
      ensures u.WaitingOk(k)
    {
      ReturnedWaiting(s, h, k);
    }
    forall k | 0 <= k < |u.done|
      ensures u.DoneOk(k)
    {
      ReturnedDone(s, h, k);
    }
  }

  /** At most two requests are under way: three would need nine descriptors. */
  lemma AtMostTwo(s: State)
    requires s.Ok()
    ensures |s.chains| <= 2
  {
    forall a, b, c | a in s.chains.Keys && b in s.chains.Keys && c in s.chains.Keys
      ensures a == b || a == c || b == c
    {
      ThreeChains(s, a, b, c);
    }
    FewKeys(s.chains.Keys);
  }

  lemma FewKeys(keys: set<nat>)
    requires forall a, b, c :: a in keys && b in keys && c in keys ==> a == b || a == c || b == c
    ensures |keys| <= 2
  {
    if keys != {} {
      var a :| a in keys;
      if exists b :: b in keys && b != a {
        var b :| b in keys && b != a;
        assert keys == {a, b};
      } else {
        assert keys == {a};
      }
    }
  }

  lemma Repeats(s: seq<nat>, n: nat)
    requires (forall i :: 0 <= i < |s| ==> s[i] < n) && |s| > n
    ensures exists i, j :: 0 <= i < j < |s| && s[i] == s[j]
  {
    if forall i, j :: 0 <= i < j < |s| ==> s[i] != s[j] {
      DistinctBound(s, n);
    }
  }

  lemma ThreeChains(s: State, a: nat, b: nat, c: nat)
    requires s.Ok() && a in s.chains && b in s.chains && c in s.chains
    ensures a == b || a == c || b == c
  {
    assert s.ChainOk(a) && s.ChainOk(b) && s.ChainOk(c);
    var all := [a, s.chains[a].mid, s.chains[a].tail, b, s.chains[b].mid, s.chains[b].tail, c, s.chains[c].mid,
      s.chains[c].tail];
    Repeats(all, NUM);
  }

  // ---------- runs ----------

  datatype Step =
    | Submit(h: nat, m: nat, t: nat, b: nat)
    | Take
    | Complete(h: nat)
    | See
    | Return(h: nat)

  // The chain that the device finds where it is in the available ring
  function Offered(s: State): nat
    requires |s.avail| == NUM && |s.waiting| <= s.sent
  {
    s.avail[(s.sent - |s.waiting|) % NUM]
  }

  /** What a step reads in memory, and what it writes. Device and driver go by the rings, by info and by
      the fields of the descriptors: the bookkeeping is only kept up. */
  ghost predicate Steps(s: State, e: Step, u: State) {
    s.Sized() &&
    match e
    case Submit(h, m, t, b) => CanSubmit(s, h, m, t, b) && u == Submitted(s, h, m, t, b)
    case Take =>
      && 0 < |s.waiting| <= s.sent && Offered(s) in s.chains
      && u == s.(chains := s.chains[Offered(s) := s.chains[Offered(s)].(stage := Taken)], waiting := s.waiting[1..])
    case Complete(h) => h in s.chains && s.chains[h].stage == Taken && u == Finished(s, h)
    case See =>
      && s.usedIdx < NUM && s.usedIdx % NUM != s.usedId % NUM
      && var h := s.used[s.usedIdx];
         && h < NUM && h in s.chains && s.info[h].Some? && s.done != []
         && u == s.(busy := s.busy - {s.info[h].value}, usedIdx := (s.usedIdx + 1) % NUM,
                    chains := s.chains[h := s.chains[h].(stage := Seen)], done := s.done[1..], cleared := s.cleared
                      + [s.info[h].value])
    case Return(h) =>
      && h in s.chains && s.chains[h].buf !in s.busy && h < NUM && s.more[h] && s.next[h] < NUM && s.more[s.next[h]]
      && var m := s.next[h];
         var t := s.next[m];
         && t < NUM && !s.more[t]
         && u == s.(free := s.free[h := true][m := true][t := true], info := s.info[h := None],
                    owner := s.owner[h := NUM][m := NUM][t := NUM], chains := s.chains - {h})
  }

  // What a round of the interrupt handler clears is the oldest completion not seen
  lemma OldestDone(s: State)
    requires s.Ok() && s.done != []
    ensures s.done[0] in s.chains && s.chains[s.done[0]].stage == Used && |s.cleared| < |s.completed|
    ensures s.done[0] < NUM && s.info[s.done[0]] == Some(s.completed[|s.cleared|]) == Some(s.chains[s.done[0]].buf)
  {
    assert s.DoneOk(0) && s.ChainOk(s.done[0]);
  }

  lemma OldestOffered(s: State)
    requires s.Ok() && s.waiting != []
    ensures s.waiting[0] in s.chains && Offered(s) == s.waiting[0]
  {
    assert s.WaitingOk(0);
  }

  lemma StepKeeps(s: State, e: Step, u: State)
    requires s.Ok() && Steps(s, e, u)
    ensures u.Ok()
  {
    match e
    case Submit(h, m, t, b) => SubmittedOk(s, h, m, t, b);
    case Take =>
      OldestOffered(s);
      TakenOffOk(s);
    case Complete(h) => FinishedOk(s, h);
    case See =>
      CompareIsExact(s);
      OldestDone(s);
      SeenOneOk(s);
    case Return(h) =>
      assert s.ChainOk(h);
      ReturnedOk(s, h);
  }

  /** No step waits for more than the source does: what the rings and the descriptors hold is there to
      be used. */
  lemma NeverStuck(s: State, h: nat)
    requires s.Ok()
    ensures s.waiting != [] ==> exists u :: Steps(s, Take, u)
    ensures s.usedIdx % NUM != s.usedId % NUM ==> exists u :: Steps(s, See, u)
    ensures h in s.chains && s.chains[h].buf !in s.busy ==> exists u :: Steps(s, Return(h), u)
  {
    if s.waiting != [] {
      OldestOffered(s);
      assert Steps(s, Take, TakenOff(s));
    }
    CompareIsExact(s);
    if s.done != [] {
      OldestDone(s);
      assert Steps(s, See, SeenOne(s));
    }
    if h in s.chains && s.chains[h].buf !in s.busy {
      assert s.ChainOk(h);
      assert Steps(s, Return(h), Returned(s, h));
    }
  }

  ghost predicate Initial(s: State) {
    && s.Sized() && (forall i :: 0 <= i < NUM ==> s.free[i] && s.owner[i] == NUM)
    && s.availIdx == s.usedId == s.usedIdx == s.sent == 0 && s.busy == {} && s.chains == map[]
    && s.waiting == [] && s.done == [] && s.completed == [] && s.cleared == []
  }

  ghost predicate Run(ss: seq<State>, es: seq<Step>) {
    |ss| == |es| + 1 && Initial(ss[0]) && forall i :: 0 <= i < |es| ==> Steps(ss[i], es[i], ss[i + 1])
  }

  lemma {:induction false} RunKeeps(ss: seq<State>, es: seq<Step>)
    requires Run(ss, es)
    ensures ss[|es|].Ok()
  {
    if es == [] {
      assert forall i :: 0 <= i < NUM ==> ss[0].DescOk(i);
    } else {
      RunKeeps(ss[..|es|], es[..|es| - 1]);
      assert Steps(ss[|es| - 1], es[|es| - 1], ss[|es|]);
      StepKeeps(ss[|es| - 1], es[|es| - 1], ss[|es|]);
    }
  }

  /** In every run the completions that the driver has taken note of are the device's completions
      in order, none missed and none twice, and its comparison of indices modulo NUM says exactly
      whether some are left. */
  lemma ExactlyOnce(ss: seq<State>, es: seq<Step>)
    requires Run(ss, es)
    ensures var s := ss[|es|];
            && s.cleared <= s.completed
            && (s.usedIdx % NUM == s.usedId % NUM <==> s.cleared == s.completed)
            && |s.chains| <= 2
  {
    RunKeeps(ss, es);
    CompareIsExact(ss[|es|]);
    AtMostTwo(ss[|es|]);
  }

  /** A buffer's disk field is cleared only when the driver takes note of the completion of that
      buffer. */
  lemma OwnCompletion(ss: seq<State>, es: seq<Step>, b: nat)
    requires Run(ss, es) && es != [] && b in ss[|es| - 1].busy && b !in ss[|es|].busy
    ensures var s, u := ss[|es| - 1], ss[|es|];
            es[|es| - 1] == See && |s.cleared| < |s.completed| && s.completed[|s.cleared|] == b
              && u.cleared == s.cleared + [b]
  {
    RunKeeps(ss[..|es|], es[..|es| - 1]);
    var s, e := ss[|es| - 1], es[|es| - 1];
    assert Steps(s, e, ss[|es|]);
    if e == See {
      CompareIsExact(s);
      OldestDone(s);
    }
  }

  // ---------- the driver ----------

  function FreeCount(free: seq<bool>): nat {
    if free == [] then 0 else FreeCount(free[..|free| - 1]) + if free[|free| - 1] then 1 else 0
  }

  lemma {:induction false} FreeCountTaken(free: seq<bool>, i: nat)
    requires i < |free| && free[i]
    ensures FreeCount(free) == FreeCount(free[i := false]) + 1
  {
    var last := |free| - 1;
    if i < last {
      FreeCountTaken(free[..last], i);
      assert free[i := false][..last] == free[..last][i := false];
    } else {
      assert free[i := false][..last] == free[..last];
    }
  }

  lemma {:induction false} FreeCountZero(free: seq<bool>)
    requires forall i :: 0 <= i < |free| ==> !free[i]
    ensures FreeCount(free) == 0
  {
    if free != [] {
      FreeCountZero(free[..|free| - 1]);
    }
  }

  ghost function Moved(c: Chain): Chain {
    if c.stage == Used then c.(stage := Seen) else c
  }

  // Chains are left alone, or seen if they were used
  ghost predicate AllMoved(s: State, u: State) {
    && s.chains.Keys == u.chains.Keys && s.free == u.free && s.more == u.more && s.next == u.next && s.info == u.info
    && s.avail == u.avail && s.availIdx == u.availIdx && s.owner == u.owner && s.waiting == u.waiting
    && forall h :: h in u.chains ==> u.chains[h] == s.chains[h] || u.chains[h] == Moved(s.chains[h])
  }

  // Exactly the used chains are seen
  ghost predicate AllSeen(s: State, u: State) {
    && s.chains.Keys == u.chains.Keys && s.free == u.free && s.more == u.more && s.next == u.next && s.info == u.info
    && s.avail == u.avail && s.availIdx == u.availIdx && s.owner == u.owner && s.waiting == u.waiting
    && forall h :: h in u.chains ==> u.chains[h] == Moved(s.chains[h])
  }

  ghost predicate Leaves(was: set<nat>, now: set<nat>, gone: seq<nat>) {
    forall b :: b in now <==> b in was && b !in gone
  }

  // Some rounds of the interrupt handler later
  ghost predicate Progress(s: State, u: State) {
    && AllMoved(s, u) && u.completed == s.completed && |s.cleared| <= |u.cleared| <= |u.completed|
    && Leaves(s.busy, u.busy, u.completed[|s.cleared|..|u.cleared|])
  }

  lemma BusyLess(was: set<nat>, now: set<nat>, all: seq<nat>, first: nat, last: nat)
    requires first <= last < |all| && Leaves(was, now, all[first..last])
    ensures Leaves(was, now - {all[last]}, all[first..last + 1])
  {
    assert all[first..last + 1] == all[first..last] + [all[last]];
  }

  lemma RoundMoves(first: State, s: State)
    requires s.done != [] && s.done[0] in s.chains && s.chains[s.done[0]].stage == Used && AllMoved(first, s)
    ensures AllMoved(first, SeenOne(s))
  {
  }

  lemma RoundProgress(first: State, s: State)
    requires s.Ok() && s.done != [] && s.done[0] in s.chains && Progress(first, s)
    ensures Progress(first, SeenOne(s))
  {
    OldestDone(s);
    RoundMoves(first, s);
    BusyLess(first.busy, s.busy, s.completed, |first.cleared|, |s.cleared|);
  }

  lemma ProgressEnds(s: State, u: State)
    requires Progress(s, u) && u.Ok() && u.done == []
    ensures AllSeen(s, u) && u.cleared == u.completed == s.completed
    ensures Leaves(s.busy, u.busy, s.completed[|s.cleared|..])
  {
    assert forall h :: h in u.chains ==> u.chains[h].stage != Used;
  }

  lemma Submits(s: State, h: nat, m: nat, t: nat, b: nat)
    requires s.Ok() && CanSubmit(s, h, m, t, b)
    ensures Submitted(s, h, m, t, b).Ok() && Steps(s, Step.Submit(h, m, t, b), Submitted(s, h, m, t, b))
  {
    SubmittedOk(s, h, m, t, b);
  }

  // The descriptors of a chain that the driver may take apart
  lemma CanFinish(s: State, h: nat) returns (m: nat, t: nat)
    requires s.Ok() && h in s.chains && s.chains[h].buf !in s.busy
    ensures h < NUM && m < NUM && t < NUM && h != m && h != t && m != t
    ensures |s.free| == |s.more| == |s.next| == |s.info| == |s.owner| == NUM && !s.free[h] && !s.free[m] && !s.free[t]
    ensures s.more[h] && s.next[h] == m && s.more[m] && s.next[m] == t && !s.more[t]
    ensures m == s.chains[h].mid && t == s.chains[h].tail
    ensures Returned(s, h).Ok() && Steps(s, Return(h), Returned(s, h))
  {
    m, t := s.chains[h].mid, s.chains[h].tail;
    assert s.ChainOk(h) && s.DescOk(h) && s.DescOk(m) && s.DescOk(t);
    ReturnedOk(s, h);
  }

  class Disk {
    var free: seq<bool>
    var more: seq<bool>
    var next: seq<nat>
    var info: seq<Option<nat>>
    var availIdx: nat
    var avail: seq<nat>
    var usedId: nat
    var used: seq<nat>
    var usedIdx: nat
    var busy: set<nat>
    ghost var now: State

    // now is the memory with the bookkeeping
    ghost predicate Tied()
      reads this
    {
      && now.free == free && now.more == more && now.next == next && now.info == info && now.availIdx == availIdx
      && now.avail == avail && now.usedId == usedId && now.used == used && now.usedIdx == usedIdx && now.busy == busy
    }

    ghost predicate Valid()
      reads this
    {
      Tied() && now.Ok()
    }

    constructor ()
      ensures Valid() && Initial(now)
    {
      free, more, next, info := seq(NUM, _ => true), seq(NUM, _ => false), seq(NUM, _ => 0), seq(NUM, _ => None);
      availIdx, avail, usedId, used, usedIdx, busy := 0, seq(NUM, _ => 0), 0, seq(NUM, _ => 0), 0, {};
      now := State(free, more, next, info, availIdx, avail, usedId, used, usedIdx, busy,
                   seq(NUM, _ => NUM), map[], [], [], 0, [], []);
    }

    // alloc_desc: the first free descriptor
    method AllocDesc() returns (r: Option<nat>)
      requires |free| == NUM
      modifies this`free
      ensures r.None? ==> free == old(free) && forall j :: 0 <= j < NUM ==> !free[j]
      ensures r.Some? ==> r.value < NUM && old(free)[r.value] && free == old(free)[r.value := false]
      ensures r.Some? ==> forall j :: 0 <= j < r.value ==> !old(free)[j]
    {
      var i := 0;
      while i < NUM
        invariant i <= NUM && free == old(free) && forall j :: 0 <= j < i ==> !free[j]
      {
        if free[i] {
          free := free[i := false];
          return Some(i);
        }
        i := i + 1;
      }
      r := None;
    }

    // free_desc; false for its panics
    method FreeDesc(i: nat) returns (ok: bool)
      requires |free| == NUM
      modifies this`free
      ensures ok <==> i < NUM && !old(free)[i]
      ensures free == if ok then old(free)[i := true] else old(free)
    {
      if i >= NUM || free[i] {
        return false;
      }
      free := free[i := true];
      ok := true;
    }

    // alloc3_desc: three different descriptors if three are free, and otherwise no change
    method Alloc3Desc() returns (ok: bool, idx: seq<nat>)
      requires |free| == NUM
      modifies this`free
      ensures ok <==> FreeCount(old(free)) >= 3
      ensures !ok ==> free == old(free)
      ensures ok ==>
          |idx| == 3 && idx[0] < NUM && idx[1] < NUM && idx[2] < NUM && idx[0] != idx[1] && idx[0] != idx[2]
          && idx[1] != idx[2]
      ensures ok ==> old(free)[idx[0]] && old(free)[idx[1]] && old(free)[idx[2]]
      ensures ok ==> free == old(free)[idx[0] := false][idx[1] := false][idx[2] := false]
    {
      idx := [];
      var i := 0;
      while i < 3
        invariant i <= 3 && |idx| == i && |free| == NUM
        invariant forall j :: 0 <= j < i ==> idx[j] < NUM && old(free)[idx[j]] && !free[idx[j]]
        invariant forall j, k :: 0 <= j < k < i ==> idx[j] != idx[k]
        invariant free == Without(old(free), idx)
        invariant FreeCount(old(free)) == FreeCount(free) + i
      {
        ghost var was := free;
        var d := AllocDesc();
        if d.None? {
          FreeCountZero(free);
          GiveBack(idx, old(free));
          return false, idx;
        }
        FreeCountTaken(was, d.value);
        assert Without(old(free), idx + [d.value]) == free by {
          assert (idx + [d.value])[..i] == idx;
        }
        idx := idx + [d.value];
        i := i + 1;
      }
      WithoutThree(old(free), idx);
      ok := true;
    }

    // The inner loop of alloc3_desc, which meets no panic
    method GiveBack(idx: seq<nat>, ghost was: seq<bool>)
      requires |was| == |free| == NUM && (forall j :: 0 <= j < |idx| ==> idx[j] < NUM && was[idx[j]] && !free[idx[j]])
      requires forall j, k :: 0 <= j < k < |idx| ==> idx[j] != idx[k]
      requires free == Without(was, idx)
      modifies this`free
      ensures free == was
    {
      WithoutAt(was, idx);
      var j := 0;
      while j < |idx|
        invariant j <= |idx| && |free| == NUM
        invariant forall k :: 0 <= k < NUM ==> free[k] == (was[k] && k !in idx[j..])
      {
        var ok := FreeDesc(idx[j]);
        assert ok;
        j := j + 1;
      }
    }

    // free_chain: the three descriptors of a chain, and no panic
    method FreeChain(h: nat, ghost m: nat, ghost t: nat)
      requires |free| == |more| == |next| == NUM && h < NUM && m < NUM && t < NUM && h != m && h != t && m != t
      requires !free[h] && !free[m] && !free[t]
      requires more[h] && next[h] == m && more[m] && next[m] == t && !more[t]
      modifies this`free
      ensures free == old(free)[h := true][m := true][t := true]
    {
      var i := h;
      ghost var left := [h, m, t];
      while true
        invariant |free| == NUM && 0 < |left| <= 3 && i == left[0] && left == [h, m, t][3 - |left|..]
        invariant forall k :: k in left ==> k < NUM && !free[k]
        invariant free == old(free)[h := |left| < 3][m := |left| < 2]
        decreases |left|
      {
        var ok := FreeDesc(i);
        assert ok;
        left := left[1..];
        if more[i] {
          i := next[i];
        } else {
          break;
        }
      }
    }

    // virtio_disk_rw as far as the wait for the device; false if it has to sleep for descriptors
    method Submit(b: nat) returns (ok: bool, h: nat)
      requires Valid() && b !in busy && forall g :: g in now.chains ==> now.chains[g].buf != b
      modifies this
      ensures Valid() && (ok <==> FreeCount(old(free)) >= 3)
      ensures !ok ==> now == old(now)
      ensures ok ==> exists m, t :: Steps(old(now), Step.Submit(h, m, t, b), now)
    {
      var idx;
      ok, idx := Alloc3Desc();
      h := 0;
      if ok {
        h := idx[0];
        var m, t := idx[1], idx[2];
        Format(h, m, t, b);
        Submits(now, h, m, t, b);
        now := Submitted(now, h, m, t, b);
      }
    }

    // The part of virtio_disk_rw between the two sleeps
    method Format(h: nat, m: nat, t: nat, b: nat)
      requires |more| == |next| == |info| == |avail| == NUM && h < NUM && m < NUM && t < NUM
      modifies this`more, this`next, this`busy, this`info, this`avail, this`availIdx
      ensures more == old(more)[h := true][m := true][t := false] && next == old(next)[h := m][m := t][t := 0]
      ensures busy == old(busy) + {b} && info == old(info)[h := Some(b)]
      ensures avail == old(avail)[old(availIdx) % NUM := h] && availIdx == (old(availIdx) + 1) % U16
    {
      more, next := more[h := true], next[h := m];
      more, next := more[m := true], next[m := t];
      more, next := more[t := false], next[t := 0];
      busy := busy + {b};
      info := info[h := Some(b)];
      avail := avail[availIdx % NUM := h];
      availIdx := (availIdx + 1) % U16;
    }

    // The end of virtio_disk_rw, once b->disk is 0
    method Finish(h: nat)
      requires Valid() && h in now.chains && now.chains[h].buf !in busy
      modifies this`info, this`free, this`now
      ensures Valid() && Steps(old(now), Return(h), now)
    {
      ghost var m, t := CanFinish(now, h);
      info := info[h := None];
      FreeChain(h, m, t);
      now := Returned(now, h);
    }

    // A round of virtio_disk_intr; false if there is nothing to do
    method Acknowledge() returns (some: bool)
      requires Valid()
      modifies this`busy, this`usedIdx, this`now
      ensures Valid() && (some <==> old(now).done != [])
      ensures !some ==> now == old(now)
      ensures some ==> Steps(old(now), See, now) && old(now).done[0] in old(now).chains && now == SeenOne(old(now))
    {
      CompareIsExact(now);
      some := usedIdx % NUM != usedId % NUM;
      if some {
        OldestDone(now);
        var id := used[usedIdx];
        busy := busy - {info[id].value};
        usedIdx := (usedIdx + 1) % NUM;
        SeenOneOk(now);
        now := SeenOne(now);
      }
    }

    /** virtio_disk_intr: clears the disk field of exactly the buffers that the device has completed
        and the driver has not taken note of, each once, and leaves the rest alone. */
    method Intr()
      requires Valid()
      modifies this`busy, this`usedIdx, this`now
      ensures Valid() && AllSeen(old(now), now) && now.cleared == now.completed == old(now).completed
      ensures Leaves(old(busy), busy, now.completed[|old(now).cleared|..])
    {
      var some := true;
      while some
        invariant Valid() && Progress(old(now), now) && (!some ==> now.done == [])
        decreases |now.done|, some
      {
        ghost var s := now;
        some := Acknowledge();
        if some {
          RoundProgress(old(now), s);
        }
      }
      ProgressEnds(old(now), now);
    }

    // The device takes the oldest available chain
    ghost method Take()
      requires Valid() && now.waiting != []
      modifies this`now
      ensures Valid() && Steps(old(now), Step.Take, now)
    {
      OldestOffered(now);
      TakenOffOk(now);
      now := TakenOff(now);
    }

    // The device puts a chain that it has taken into the used ring
    method Complete(h: nat)
      requires Valid() && h in now.chains && now.chains[h].stage == Taken
      modifies this`used, this`usedId, this`now
      ensures Valid() && Steps(old(now), Step.Complete(h), now)
    {
      FinishedOk(now, h);
      used := used[usedId % NUM := h];
      usedId := (usedId + 1) % U16;
      now := Finished(now, h);
    }
  }

  // free with the descriptors of idx taken
  ghost function Without(free: seq<bool>, idx: seq<nat>): seq<bool>
    ensures |Without(free, idx)| == |free|
  {
    if idx == [] then free
    else
      var f := Without(free, idx[..|idx| - 1]);
      if idx[|idx| - 1] < |free| then f[idx[|idx| - 1] := false] else f
  }

  lemma {:induction false} WithoutAt(free: seq<bool>, idx: seq<nat>)
    ensures forall k :: 0 <= k < |free| ==> Without(free, idx)[k] == (free[k] && k !in idx)
  {
    if idx != [] {
      WithoutAt(free, idx[..|idx| - 1]);
      assert idx == idx[..|idx| - 1] + [idx[|idx| - 1]];
    }
  }

  lemma WithoutThree(free: seq<bool>, idx: seq<nat>)
    requires |idx| == 3 && idx[0] < |free| && idx[1] < |free| && idx[2] < |free|
    ensures Without(free, idx) == free[idx[0] := false][idx[1] := false][idx[2] := false]
  {
    WithoutAt(free, idx);
    forall k | 0 <= k < |free|
      ensures Without(free, idx)[k] == free[idx[0] := false][idx[1] := false][idx[2] := false][k]
    {
      InThree(idx, k);
    }
  }

  lemma InThree(idx: seq<nat>, k: nat)
    requires |idx| == 3
    ensures k in idx <==> k == idx[0] || k == idx[1] || k == idx[2]
  {
  }
}
