/** The buffer cache and the log under every interleaving: any number of threads reading,
    modifying, logging and releasing buffers, one of them committing, buffers recycled in
    between, and crashes at any moment, also during recovery. Recovery runs on the same cache,
    with the same code as a commit. Each step is one critical section of the source, or one
    block write. Reference counts are unsigned ints and wrap. */
module LogCache {
  import opened LogFormat
  import opened BufferCache
  import opened Log

  type Thread = nat

  const NPROC: nat := 64

  // `users` are the threads between bget and brelse, with the block that each asked for; `dirty`
  // is set from a modification until the log_write that follows it.
  datatype Buffer = Buffer(block: Option<nat>, valid: bool, refcnt: nat, data: Block,
                           holder: Option<Thread>, users: map<Thread, nat>, dirty: bool)

  // Where recovery, or end_op's caller in commit, is; Install(k) has unpinned the first k blocks
  datatype Phase = Idle | Reading | WriteLog(tail: nat) | Install(tail: nat)

  // `booting` until recovery has ended, `owner` the thread that recovers or commits, `lru` the
  // list of bcache, most recently released first, `busy` the buffer that a thread in bread has
  // from bget, `at` where bget's first loop finds each block. The rest is ghost: `leaked` are the
  // blocks unpinned by this boot's recovery, which has not pinned them; `flat` the contents last
  // given to log_write for each home block, `stable` those at the last commit.
  datatype State = State(booting: bool, owner: Thread, disk: Disk, bufs: seq<Buffer>, lru: seq<nat>, lh: seq<int>,
                         phase: Phase, ops: set<Thread>, busy: map<Thread, nat>, at: map<nat, nat>,
                         leaked: set<int>, flat: Disk, stable: Disk)

  datatype Step =
    | BeginOp(t: Thread)
    | EndOp(t: Thread)
    | Get(t: Thread, b: nat)
    | Lock(t: Thread)
    | Fill(t: Thread)
    | Modify(t: Thread, i: nat, data: Block)
    | LogWrite(t: Thread, i: nat)
    | Unlock(t: Thread, i: nat)
    | Put(t: Thread, i: nat)
    | ReadHead(i: nat)
    | CopyToLog(i: nat, from: nat)
    | WriteHead(i: nat)
    | CopyHome(i: nat, from: nat)
    | ClearHead(i: nat)
    | Crash

  const FreshBuffer := Buffer(None, false, 0, [], None, map[], false)

  // binit puts every buffer at the front
  function FirstList(n: nat): seq<nat> {
    if n == 0 then [] else [n - 1] + FirstList(n - 1)
  }

  function FreshBuffers(): seq<Buffer> {
    seq(NBUF, _ => FreshBuffer)
  }

  /** Memory is lost, and recovery is about to read the header. */
  function Restart(d: Disk, stable: Disk): State {
    State(true, 0, d, FreshBuffers(), FirstList(|FreshBuffers()|), [], Reading, {}, map[], map[], {}, stable, stable)
  }

  /** The first boot from disk image d. */
  function Start(g: Geometry, d: Disk): State
    requires GoodHead(d, g)
  {
    Restart(d, seq(|d|, b requires 0 <= b < |d| => Recovered(d, g, b)))
  }

  // ---------- the list ----------

  function Removed(s: seq<nat>, i: nat): seq<nat> {
    if s == [] then [] else if s[0] == i then s[1..] else [s[0]] + Removed(s[1..], i)
  }

  // The buffer that bget's second loop takes: the last on the list that is unused
  function Victim(lru: seq<nat>, bufs: seq<Buffer>): (r: Option<nat>)
    ensures r.Some? ==> r.value < |bufs| && bufs[r.value].refcnt == 0
  {
    VictimIn(lru, |lru|, bufs)
  }

  // ... among the first n
  function VictimIn(lru: seq<nat>, n: nat, bufs: seq<Buffer>): (r: Option<nat>)
    requires n <= |lru|
    ensures r.Some? ==> r.value < |bufs| && bufs[r.value].refcnt == 0
  {
    if n == 0 then None
    else if lru[n - 1] < |bufs| && bufs[lru[n - 1]].refcnt == 0 then Some(lru[n - 1])
    else VictimIn(lru, n - 1, bufs)
  }

  // ---------- the steps ----------

  function When(guard: bool, s: State): Option<State> {
    if guard then Some(s) else None
  }

  // d[b := data]
  function Write(d: Disk, b: int, data: Block): Disk {
    if 0 <= b < |d| then d[b := data] else d
  }

  function SetBuf(s: State, i: nat, u: Buffer): State
    requires i < |s.bufs|
  {
    s.(bufs := s.bufs[i := u])
  }

  predicate BusyIn(s: State, t: Thread, i: nat) {
    t in s.busy && s.busy[t] == i
  }

  // t has returned from bread with buffer i, and has not released it
  predicate Ready(s: State, t: Thread, i: nat) {
    i < |s.bufs| && s.bufs[i].holder == Some(t) && t in s.bufs[i].users && !BusyIn(s, t, i)
  }

  // ... and it had asked for block b
  predicate Has(s: State, t: Thread, i: nat, b: int) {
    Ready(s, t, i) && s.bufs[i].users[t] == b && t !in s.busy
  }

  // begin_op (its wait for space is in LogReservation) and end_op, whose caller has no buffers
  function OpStep(s: State, a: Step): Option<State>
    requires a.BeginOp? || a.EndOp?
  {
    if a.BeginOp? then When(s.phase.Idle? && a.t < NPROC && a.t !in s.ops && a.t !in s.busy, s.(ops := s.ops + {a.t}))
    else
      When(a.t in s.ops && a.t !in s.busy && forall i :: 0 <= i < |s.bufs| ==> a.t !in s.bufs[i].users,
           if s.ops == {a.t} && s.lh != [] then s.(ops := {}, phase := Phase.WriteLog(0), owner := a.t)
           else s.(ops := s.ops - {a.t}))
  }

  // The blocks that the owner works on in its current round
  function Wanted(g: Geometry, s: State): set<int> {
    match s.phase
    case Idle => {}
    case Reading => {g.start}
    case _ => if s.phase.tail < |s.lh| then {g.start + 1 + s.phase.tail, s.lh[s.phase.tail]} else {g.start}
  }

  // While it recovers or commits, the owner asks for those, with the buffers of earlier rounds released
  predicate MayAsk(g: Geometry, s: State, t: Thread, b: nat) {
    s.phase.Idle? || t != s.owner
    || (b in Wanted(g, s) && forall i :: 0 <= i < |s.bufs| && t in s.bufs[i].users ==>
      s.bufs[i].users[t] in Wanted(g, s))
  }

  // bget, up to acquiresleep: the buffer that holds block b, or else the one unused longest
  function GetStep(g: Geometry, s: State, t: Thread, b: nat): Option<State> {
    if t >= NPROC || t in s.busy || b >= |s.disk| || !MayAsk(g, s, t, b) then None
    else if b in s.at then
      var i := s.at[b];
      if i < |s.bufs| && t !in s.bufs[i].users
      then Some(Hit(s, t, b, i)) else None
    else
      var v := Victim(s.lru, s.bufs);
      if v.None? then None                                            // panic
      else Some(Recycled(s, t, v.value, b))
  }

  function Hit(s: State, t: Thread, b: nat, i: nat): State
    requires i < |s.bufs|
  {
    SetBuf(s, i, s.bufs[i].(refcnt := Up(s.bufs[i].refcnt), users := s.bufs[i].users[t := b])).(busy := s.busy[t := i])
  }

  function Recycled(s: State, t: Thread, i: nat, b: nat): State
    requires i < |s.bufs|
  {
    var u := s.bufs[i];
    s.(bufs := s.bufs[i := u.(block := Some(b), valid := false, refcnt := 1, users := u.users[t := b])],
       at := (if u.block.Some? then s.at - {u.block.value} else s.at)[b := i], busy := s.busy[t := i])
  }

  // acquiresleep, and the rest of bread
  function BreadStep(s: State, a: Step): Option<State>
    requires (a.Lock? || a.Fill?) && a.t in s.busy && s.busy[a.t] < |s.bufs|
  {
    var i := s.busy[a.t];
    var u := s.bufs[i];
    if a.t !in u.users || u.block.None? || u.block.value >= |s.disk| then None
    else if a.Lock? then When(u.holder.None?, SetBuf(s, i, u.(holder := Some(a.t))))
    else if u.holder != Some(a.t) then None
    else Some(Filled(s, a.t, i))
  }

  function Filled(s: State, t: Thread, i: nat): State
    requires i < |s.bufs| && s.bufs[i].block.Some? && s.bufs[i].block.value < |s.disk|
  {
    var u := s.bufs[i];
    SetBuf(s, i, if u.valid then u else u.(data := s.disk[u.block.value], valid := true)).(busy := s.busy - {t})
  }

  // An operation changing a home block, log_write, and the two halves of brelse
  function UseStep(g: Geometry, s: State, a: Step): Option<State>
    requires a.Modify? || a.LogWrite? || a.Unlock? || a.Put?
    requires a.i < |s.bufs| && a.t in s.bufs[a.i].users && s.bufs[a.i].block.Some?
  {
    var u := s.bufs[a.i];
    if a.t in s.busy then None
    else
      match a
      case Modify(t, i, data) =>
        When(t in s.ops && Ready(s, t, i)
          && g.HomeBlock(s.disk, u.users[t]), SetBuf(s, i, u.(data := data, dirty := true)))
      case LogWrite(t, i) =>
        When(t in s.ops && Ready(s, t, i) && g.HomeBlock(s.disk, u.users[t]) && |s.lh| < LOGSIZE && |s.lh| < g.size - 1,
             Recorded(s, t, i))
      case Unlock(t, i) => When(u.holder == Some(t) && !u.dirty, SetBuf(s, i, u.(holder := None)))
      case Put(t, i) => When(u.holder != Some(t), Lowered(s, t, i))
  }

  // log_write looks at the number in the buffer, whatever its caller had asked for
  function Recorded(s: State, t: Thread, i: nat): State
    requires i < |s.bufs| && t in s.bufs[i].users && s.bufs[i].block.Some?
  {
    var u := s.bufs[i];
    var isNew := u.block.value !in s.lh;
    s.(flat := Write(s.flat, u.users[t], u.data),
       lh := if isNew then s.lh + [u.block.value] else s.lh,
       bufs := s.bufs[i := u.(dirty := false, refcnt := if isNew then Up(u.refcnt) else u.refcnt)])
  }

  function Lowered(s: State, t: Thread, i: nat): State
    requires i < |s.bufs|
  {
    var u := s.bufs[i];
    var s' := SetBuf(s, i, u.(refcnt := Down(u.refcnt), users := u.users - {t}));
    if Down(u.refcnt) == 0 then s'.(lru := [i] + Removed(s.lru, i)) else s'
  }

  // bwrite of buffer i, with its contents replaced by data: the disk takes it where the buffer says
  function WriteThrough(s: State, i: nat, data: Block, phase: Phase): State
    requires i < |s.bufs| && s.bufs[i].block.Some?
  {
    s.(bufs := s.bufs[i := s.bufs[i].(data := data)],
       disk := Write(s.disk, s.bufs[i].block.value, data), phase := phase)
  }

  function Unpin(s: State, i: nat): State
    requires i < |s.bufs|
  {
    SetBuf(s, i, s.bufs[i].(refcnt := Down(s.bufs[i].refcnt)))
  }

  // The rounds of write_log and install_trans
  function CopyStep(g: Geometry, s: State, a: Step): Option<State>
    requires (a.CopyToLog? || a.CopyHome?) && a.i < |s.bufs| && s.bufs[a.i].block.Some?
  {
    if s.phase.Idle? || s.phase.Reading? || s.phase.tail >= |s.lh| || a.from >= |s.bufs| then None
    else
      var k := s.phase.tail;
      var x, y, data := g.start + 1 + k, s.lh[k], s.bufs[a.from].data;
      if a.CopyToLog? then
        When(s.phase.WriteLog? && Has(s, s.owner, a.i, x) && Has(s, s.owner, a.from, y),
             WriteThrough(s, a.i, data, Phase.WriteLog(k + 1)))
      else
        When(s.phase.Install? && Has(s, s.owner, a.from, x) && Has(s, s.owner, a.i, y), Installed1(s, a.i, data, k, y))
  }

  function Installed1(s: State, i: nat, data: Block, k: nat, y: int): State
    requires i < |s.bufs| && s.bufs[i].block.Some?
  {
    Unpin(WriteThrough(s, i, data, Install(k + 1)), i).(leaked := if s.booting then s.leaked + {y} else s.leaked)
  }

  // write_head, and read_head
  function HeadStep(g: Geometry, s: State, a: Step): Option<State>
    requires (a.WriteHead? || a.ClearHead? || a.ReadHead?) && a.i < |s.bufs| && s.bufs[a.i].block.Some?
  {
    var was := s.bufs[a.i].data;
    if !Has(s, s.owner, a.i, g.start) || |was| != WORDS then None
    else if a.ReadHead? then
      When(s.phase.Reading? && 0 <= was[0] <= LOGSIZE,
           s.(lh := if 0 <= was[0] <= LOGSIZE then was[1..1 + was[0]] else [], phase := Install(0)))
    else if s.phase.Idle? || s.phase.Reading? || s.phase.tail != |s.lh| || |s.lh| > LOGSIZE then None
    else if a.WriteHead? then
      When(s.phase.WriteLog?, WriteThrough(s, a.i, PutHead(was, s.lh), Install(0)).(stable := s.flat))
    else
      When(s.phase.Install?, WriteThrough(s, a.i, PutHead(was, []), Idle).(lh := [], booting := false))
  }

  /** The state after step a, if it can be taken. Until recovery has ended its thread is alone. */
  function Next(g: Geometry, s: State, a: Step): Option<State> {
    if a.Crash? then Some(Restart(s.disk, s.stable))
    else if a.BeginOp? || a.EndOp? then (if s.booting then None else OpStep(s, a))
    else if (a.Get? || a.Lock? || a.Fill? || a.Modify? || a.LogWrite? || a.Unlock?
      || a.Put?) && s.booting && a.t != s.owner then None
    else if a.Get? then GetStep(g, s, a.t, a.b)
    else if a.Lock? || a.Fill? then (if a.t in s.busy && s.busy[a.t] < |s.bufs| then BreadStep(s, a) else None)
    else if a.i >= |s.bufs| || s.bufs[a.i].block.None? then None
    else if a.CopyToLog? || a.CopyHome? then CopyStep(g, s, a)
    else if a.WriteHead? || a.ClearHead? || a.ReadHead? then HeadStep(g, s, a)
    else if a.t !in s.bufs[a.i].users then None
    else UseStep(g, s, a)
  }

  // ---------- the invariant ----------

  // The blocks that the log on disk, or the one in memory, names
  function Listed(g: Geometry, s: State): seq<int> {
    if !s.phase.Reading? then s.lh else if GoodHead(s.disk, g) then HeadBlocks(s.disk, g) else []
  }

  function Done(s: State): nat {
    if s.phase.Install? then s.phase.tail else 0
  }

  ghost function PinSet(lh: seq<int>, done: nat): set<int> {
    set k | done <= k < |lh| :: lh[k]
  }

  // The named blocks whose current contents are not home yet
  ghost function Pending(g: Geometry, s: State): set<int> {
    PinSet(Listed(g, s), Done(s))
  }

  // A pending block is pinned, unless recovery has found it on disk
  ghost predicate Pinned(g: Geometry, s: State, b: int) {
    !s.booting && b in Pending(g, s)
  }

  // refcnt of block b with n users
  ghost function Count(g: Geometry, s: State, b: int, n: nat): nat {
    (n + (if Pinned(g, s, b) then 1 else 0) - if b in s.leaked then 1 else 0) % U32
  }

  // What a clean buffer of block b holds
  ghost function Current(g: Geometry, s: State, b: nat): Block
    requires b < |s.disk| == |s.flat|
  {
    if g.InLog(b) || (s.booting && b in Pending(g, s)) then s.disk[b] else s.flat[b]
  }

  ghost predicate UserOk(s: State, i: nat, t: Thread)
    requires i < |s.bufs| && t in s.bufs[i].users
  {
    t < NPROC && s.bufs[i].block == Some(s.bufs[i].users[t])
  }

  ghost predicate BufOk(g: Geometry, s: State, i: nat)
    requires i < |s.bufs|
  {
    var u := s.bufs[i];
    && (u.holder.Some? ==> u.holder.value in u.users && (BusyIn(s, u.holder.value, i) || u.valid))
    && (u.dirty ==> u.holder.Some? && u.holder.value in s.ops && !BusyIn(s, u.holder.value, i))
    && (forall t :: t in u.users ==> UserOk(s, i, t))
    && (u.block.None? ==> u.refcnt == 0)
    && (u.block.Some? ==>
          var b := u.block.value;
          && b < |s.disk| == |s.flat| && b in s.at && s.at[b] == i && u.refcnt == Count(g, s, b, |u.users|)
          && (u.dirty ==> !g.InLog(b))
          && (u.valid && !u.dirty ==> u.data == Current(g, s, b)))
  }

  ghost predicate BlockOk(g: Geometry, s: State, b: nat)
    requires b < |s.disk| == |s.flat| == |s.stable|
  {
    && (b in s.at ==> s.at[b] < |s.bufs| && s.bufs[s.at[b]].block == Some(b))
    && (Pinned(g, s, b) ==> b in s.at && s.at[b] < |s.bufs| && s.bufs[s.at[b]].valid)
    && (b in s.leaked ==> b in s.at && !g.InLog(b) && (s.booting ==> b !in Pending(g, s)))
    && (!g.InLog(b) && b !in Pending(g, s) ==> s.disk[b] == s.flat[b])
    && (!g.InLog(b) ==> s.stable[b] == if s.phase.Install? || s.phase.Reading? then s.flat[b] else s.disk[b])
  }

  // The log block for entry k is written
  ghost predicate CopyAt(g: Geometry, s: State, k: nat)
    requires GoodList(s.disk, g, Listed(g, s)) && |s.flat| == |s.disk| && k < |Listed(g, s)|
  {
    s.disk[g.start + 1 + k] == s.flat[Listed(g, s)[k]]
  }

  function Copies(g: Geometry, s: State): nat {
    match s.phase
    case Idle => 0
    case WriteLog(k) => k
    case _ => |Listed(g, s)|
  }

  ghost predicate LogOk(g: Geometry, s: State) {
    && |s.disk| == |s.flat| == |s.stable| && GoodList(s.disk, g, Listed(g, s)) && NoDup(Listed(g, s))
    && (s.booting ==> s.phase.Reading? || s.phase.Install?) && (s.phase.Reading? ==> s.booting && s.lh == [])
    && (!s.phase.Idle? ==> s.ops == {}) && (s.phase.WriteLog? || s.phase.Install? ==> s.phase.tail <= |s.lh|)
    && GoodHead(s.disk, g)
    && HeadBlocks(s.disk, g) == (if s.phase.Install? || s.phase.Reading? then Listed(g, s) else [])
    && forall k :: 0 <= k < Copies(g, s) ==> CopyAt(g, s, k)
  }

  ghost predicate Inv(g: Geometry, s: State) {
    && |s.bufs| == NBUF && LogOk(g, s)
    && (forall i :: 0 <= i < NBUF ==> BufOk(g, s, i))
    && (forall b :: 0 <= b < |s.disk| ==> BlockOk(g, s, b))
  }

  /** A buffer is recycled although it is in use or pinned: its count has come to 0 all the same. */
  ghost predicate Clash(g: Geometry, s: State, a: Step) {
    && a.Get? && a.b !in s.at && Victim(s.lru, s.bufs).Some?
    && var u := s.bufs[Victim(s.lru, s.bufs).value]; u.users != map[] || (u.block.Some? && Pinned(g, s, u.block.value))
  }

  // ---------- the invariant is kept ----------

  ghost predicate Untouched(g: Geometry, s: State, t: State, e: nat)
    requires e < |s.disk| == |s.flat| == |s.stable| == |t.disk| == |t.flat| == |t.stable|
  {
    && t.disk[e] == s.disk[e] && t.flat[e] == s.flat[e] && t.stable[e] == s.stable[e]
    && (e in t.at <==> e in s.at) && (e in s.at ==> t.at[e] == s.at[e])
    && (e in Pending(g, t) <==> e in Pending(g, s)) && (e in t.leaked <==> e in s.leaked)
  }

  // Threads are as busy with buffer k as before
  ghost predicate SameBusy(s: State, t: State, k: nat) {
    forall x :: BusyIn(t, x, k) <==> BusyIn(s, x, k)
  }

  /** A step that touches only buffer i, and the blocks b and c that it holds before and after,
      keeps the invariant if it holds of those. */
  lemma Local(g: Geometry, s: State, t: State, i: nat, b: nat, c: nat)
    requires Inv(g, s) && LogOk(g, t) && |t.bufs| == NBUF && |t.disk| == |s.disk| && i < NBUF && b < |s.disk|
    requires c < |s.disk|
    requires forall k :: 0 <= k < NBUF && k != i ==> t.bufs[k] == s.bufs[k] && SameBusy(s, t, k)
    requires BufOk(g, t, i) && BlockOk(g, t, b) && BlockOk(g, t, c)
    requires s.bufs[i].block.Some? ==> s.bufs[i].block.value == b || s.bufs[i].block.value == c
    requires forall e :: (e == b || e == c) && e in s.at ==> s.at[e] == i
    requires forall e :: 0 <= e < |s.disk| && e != b && e != c ==> Untouched(g, s, t, e)
    requires s.ops <= t.ops && s.booting == t.booting
    requires (s.phase.Install? || s.phase.Reading? <==> t.phase.Install? || t.phase.Reading?)
    ensures Inv(g, t)
  {
    forall k | 0 <= k < NBUF
      ensures BufOk(g, t, k)
    {
      if k != i {
        BufSame(g, s, t, k);
      }
    }
    forall e | 0 <= e < |t.disk|
      ensures BlockOk(g, t, e)
    {
      if e != b && e != c {
        assert BlockOk(g, s, e) && Untouched(g, s, t, e);
        assert e in s.at ==> s.bufs[s.at[e]].block == Some(e);
      }
    }
  }

  lemma BufSame(g: Geometry, s: State, t: State, k: nat)
    requires k < |s.bufs| == |t.bufs| && BufOk(g, s, k) && t.bufs[k] == s.bufs[k] && SameBusy(s, t, k)
    requires |s.disk| == |s.flat| == |s.stable| == |t.disk| == |t.flat| == |t.stable|
    requires s.ops <= t.ops && s.booting == t.booting
    requires s.bufs[k].block.Some? && s.bufs[k].block.value < |s.disk| ==> Untouched(g, s, t, s.bufs[k].block.value)
    ensures BufOk(g, t, k)
  {
    forall x | x in t.bufs[k].users
      ensures UserOk(t, k, x)
    {
      assert UserOk(s, k, x);
    }
  }

  // Steps that change one buffer, and nothing on disk or in the log
  lemma OneBuffer(g: Geometry, s: State, i: nat, t: State, b: nat)
    requires Inv(g, s) && i < NBUF == |t.bufs| && b < |s.disk|
    requires t == s.(bufs := s.bufs[i := t.bufs[i]], busy := t.busy, lru := t.lru)
    requires forall k :: k != i ==> SameBusy(s, t, k)
    requires s.bufs[i].block == Some(b) && BufOk(g, t, i) && BlockOk(g, t, b)
    ensures Inv(g, t)
  {
    assert BufOk(g, s, i);
    forall e | 0 <= e < |s.disk| && e != b
      ensures Untouched(g, s, t, e)
    {
    }
    forall k | 0 <= k < Copies(g, t)
      ensures CopyAt(g, t, k)
    {
      assert CopyAt(g, s, k);
    }
    Local(g, s, t, i, b, b);
  }

  lemma OpKept(g: Geometry, s: State, a: Step, t: State)
    requires Inv(g, s) && Next(g, s, a) == Some(t) && (a.BeginOp? || a.EndOp?)
    ensures Inv(g, t)
  {
    forall k | 0 <= k < NBUF
      ensures BufOk(g, t, k)
    {
      assert BufOk(g, s, k) && (s.bufs[k].dirty ==> s.bufs[k].holder.value in t.ops);
      OpBuf(g, s, t, k);
    }
    forall e | 0 <= e < |t.disk|
      ensures BlockOk(g, t, e)
    {
      assert BlockOk(g, s, e);
    }
  }

  lemma OpBuf(g: Geometry, s: State, t: State, k: nat)
    requires k < |s.bufs| && BufOk(g, s, k) && (s.bufs[k].dirty ==> s.bufs[k].holder.value in t.ops)
    requires t == s.(ops := t.ops, phase := t.phase, owner := t.owner) && Pending(g, t) == Pending(g, s)
    ensures BufOk(g, t, k)
  {
    forall x | x in t.bufs[k].users
      ensures UserOk(t, k, x)
    {
      assert UserOk(s, k, x);
    }
  }

  lemma CountUp(g: Geometry, s: State, b: int, n: nat)
    ensures Up(Count(g, s, b, n)) == Count(g, s, b, n + 1)
    ensures n > 0 ==> Down(Count(g, s, b, n)) == Count(g, s, b, n - 1)
  {
    UpDown(n + (if Pinned(g, s, b) then 1 else 0) - if b in s.leaked then 1 else 0);
  }

  lemma UpDown(x: int)
    ensures Up(x % U32) == (x + 1) % U32 && Down(x % U32) == (x - 1) % U32
  {
  }

  lemma HitKept(g: Geometry, s: State, x: Thread, b: nat, t: State)
    requires Inv(g, s) && x < NPROC && x !in s.busy && b < |s.disk| && b in s.at && s.at[b] < |s.bufs|
    requires x !in s.bufs[s.at[b]].users
    requires t == Hit(s, x, b, s.at[b])
    ensures Inv(g, t)
  {
    var i := s.at[b];
    assert BlockOk(g, s, b) && BufOk(g, s, i);
    CountUp(g, s, b, |s.bufs[i].users|);
    MapSize(s.bufs[i].users, x, b);
    forall y | y in t.bufs[i].users
      ensures UserOk(t, i, y)
    {
      assert y != x ==> UserOk(s, i, y);
    }
    OneBuffer(g, s, i, t, b);
  }

  lemma PutKept(g: Geometry, s: State, x: Thread, i: nat, t: State)
    requires Inv(g, s) && i < NBUF && x in s.bufs[i].users && x !in s.busy && s.bufs[i].holder != Some(x)
    requires t == Lowered(s, x, i)
    ensures Inv(g, t)
  {
    assert BufOk(g, s, i) && UserOk(s, i, x);
    var b := s.bufs[i].block.value;
    assert BlockOk(g, s, b);
    var users := s.bufs[i].users - {x};
    CountUp(g, s, b, |s.bufs[i].users|);
    MapSize(users, x, s.bufs[i].users[x]);
    assert users[x := s.bufs[i].users[x]] == s.bufs[i].users;
    LoweredBuf(g, s, x, i, t, b, users);
    OneBuffer(g, s, i, t, b);
  }

  lemma LoweredBuf(g: Geometry, s: State, x: Thread, i: nat, t: State, b: nat, users: map<Thread, nat>)
    requires i < NBUF == |s.bufs| && BufOk(g, s, i) && s.bufs[i].block == Some(b) && s.bufs[i].holder != Some(x)
    requires users == s.bufs[i].users - {x} && |s.bufs[i].users| == |users| + 1
    requires Down(s.bufs[i].refcnt) == Count(g, s, b, |users|)
    requires t == s.(bufs := s.bufs[i := s.bufs[i].(refcnt := Down(s.bufs[i].refcnt), users := users)], lru := t.lru)
    ensures BufOk(g, t, i)
  {
    forall y | y in users
      ensures UserOk(t, i, y)
    {
      assert UserOk(s, i, y);
    }
  }

  lemma MapSize(m: map<Thread, nat>, t: Thread, b: nat)
    requires t !in m
    ensures |m[t := b]| == |m| + 1
  {
    assert m[t := b].Keys == m.Keys + {t};
  }

  lemma BreadKept(g: Geometry, s: State, x: Thread, i: nat, t: State)
    requires Inv(g, s) && i < NBUF && BusyIn(s, x, i) && x in s.bufs[i].users && s.bufs[i].block.Some?
    requires s.bufs[i].block.value < |s.disk|
    requires if s.bufs[i].holder.None? then t == SetBuf(s, i, s.bufs[i].(holder := Some(x)))
        else s.bufs[i].holder == Some(x) && t == Filled(s, x, i)
    ensures Inv(g, t)
  {
    var b := s.bufs[i].block.value;
    assert BufOk(g, s, i) && BlockOk(g, s, b);
    forall y | y in t.bufs[i].users
      ensures UserOk(t, i, y)
    {
      assert UserOk(s, i, y);
    }
    OneBuffer(g, s, i, t, b);
  }

  lemma HeldKept(g: Geometry, s: State, i: nat, u: Buffer, t: State)
    requires Inv(g, s) && i < NBUF && s.bufs[i].block.Some? && t == SetBuf(s, i, u)
    requires u == s.bufs[i].(holder := u.holder, data := u.data, dirty := u.dirty)
    requires u.holder == None || (u.holder == s.bufs[i].holder && !BusyIn(s, u.holder.value, i))
    requires if u.dirty then u.holder.Some? && u.holder.value in s.ops && !g.InLog(u.block.value)
        else !s.bufs[i].dirty && u.data == s.bufs[i].data
    ensures Inv(g, t)
  {
    var b := s.bufs[i].block.value;
    assert BufOk(g, s, i) && BlockOk(g, s, b);
    forall y | y in u.users
      ensures UserOk(t, i, y)
    {
      assert UserOk(s, i, y);
    }
    OneBuffer(g, s, i, t, b);
  }

  /** Recycling without a clash: an unused buffer is not pinned, so the block it held is on disk as
      it should be, and it is not one that recovery has leaked. */
  lemma RecycleKept(g: Geometry, s: State, x: Thread, b: nat, i: nat, t: State)
    requires Inv(g, s) && x < NPROC && x !in s.busy && b < |s.disk| && b !in s.at && i < NBUF && s.bufs[i].refcnt == 0
    requires s.bufs[i].users == map[] && (s.bufs[i].block.Some? ==> !Pinned(g, s, s.bufs[i].block.value))
        && t == Recycled(s, x, i, b)
    ensures Inv(g, t)
  {
    assert BufOk(g, s, i) && BlockOk(g, s, b);
    var c := if s.bufs[i].block.Some? then s.bufs[i].block.value else b;
    assert |s.bufs[i].users| == 0 && c !in s.leaked;
    RecycledBuf(g, s, t, x, i, b);
    RecycledBlock(g, s, t, x, i, b, c, b);
    RecycledBlock(g, s, t, x, i, b, c, c);
    forall e | 0 <= e < |s.disk| && e != b && e != c
      ensures Untouched(g, s, t, e)
    {
      RecycledOther(g, s, t, x, i, b, c, e);
    }
    forall k | 0 <= k < Copies(g, t)
      ensures CopyAt(g, t, k)
    {
      assert CopyAt(g, s, k);
    }
    Local(g, s, t, i, b, c);
  }

  lemma RecycledBuf(g: Geometry, s: State, t: State, x: Thread, i: nat, b: nat)
    requires Inv(g, s) && i < NBUF && x < NPROC && b < |s.disk| && b !in s.at
    requires s.bufs[i].users == map[] && t == Recycled(s, x, i, b)
    ensures BufOk(g, t, i)
  {
    assert BufOk(g, s, i) && BlockOk(g, s, b);
    forall y | y in t.bufs[i].users
      ensures UserOk(t, i, y)
    {
    }
  }

  lemma RecycledBlock(g: Geometry, s: State, t: State, x: Thread, i: nat, b: nat, c: nat, e: nat)
    requires Inv(g, s) && i < NBUF && b < |s.disk| && b !in s.at && t == Recycled(s, x, i, b)
    requires c < |s.disk| && c !in s.leaked && !Pinned(g, s, c)
    requires (s.bufs[i].block == Some(c) || (s.bufs[i].block.None? && c == b))
    requires e == b || e == c
    ensures BlockOk(g, t, e)
  {
    assert BlockOk(g, s, b) && BlockOk(g, s, c) && BufOk(g, s, i);
  }

  lemma RecycledOther(g: Geometry, s: State, t: State, x: Thread, i: nat, b: nat, c: nat, e: nat)
    requires |s.disk| == |s.flat| == |s.stable| && i < |s.bufs| && t == Recycled(s, x, i, b) && e < |s.disk| && e != b
    requires e != c
    requires s.bufs[i].block == Some(c) || (s.bufs[i].block.None? && c == b)
    ensures Untouched(g, s, t, e)
  {
  }

  lemma RecordKept(g: Geometry, s: State, x: Thread, i: nat, t: State)
    requires Inv(g, s) && x in s.ops && Ready(s, x, i) && s.bufs[i].block.Some?
    requires g.HomeBlock(s.disk, s.bufs[i].users[x])
    requires |s.lh| < LOGSIZE && |s.lh| < g.size - 1 && t == Recorded(s, x, i)
    ensures Inv(g, t)
  {
    assert BufOk(g, s, i) && UserOk(s, i, x);
    var b := s.bufs[i].block.value;
    assert BlockOk(g, s, b);
    PinsGrow(s.lh, b);
    RecordedBuf(g, s, t, x, i, b);
    assert BlockOk(g, t, b);
    forall e | 0 <= e < |s.disk| && e != b
      ensures Untouched(g, s, t, e)
    {
    }
    Local(g, s, t, i, b, b);
  }

  lemma RecordedBuf(g: Geometry, s: State, t: State, x: Thread, i: nat, b: nat)
    requires Inv(g, s) && i < NBUF && s.phase.Idle? && Ready(s, x, i)
    requires s.bufs[i].block == Some(b) == Some(s.bufs[i].users[x])
    requires g.HomeBlock(s.disk, b) && t == Recorded(s, x, i)
    ensures BufOk(g, t, i)
  {
    assert BufOk(g, s, i) && BlockOk(g, s, b);
    PinsGrow(s.lh, b);
    CountUp(g, s, b, |s.bufs[i].users|);
    forall y | y in t.bufs[i].users
      ensures UserOk(t, i, y)
    {
      assert UserOk(s, i, y);
    }
  }

  lemma PinsGrow(lh: seq<int>, b: int)
    ensures PinSet(lh + [b], 0) == PinSet(lh, 0) + {b}
    ensures b in lh <==> b in PinSet(lh, 0)
  {
    assert (lh + [b])[|lh|] == b;
    forall e | e in PinSet(lh, 0)
      ensures e in PinSet(lh + [b], 0)
    {
      var k :| 0 <= k < |lh| && lh[k] == e;
      assert (lh + [b])[k] == e;
    }
  }

  lemma PinsShrink(lh: seq<int>, k: nat)
    requires NoDup(lh) && k < |lh|
    ensures PinSet(lh, k + 1) == PinSet(lh, k) - {lh[k]} && lh[k] in PinSet(lh, k)
  {
  }

  lemma CopyToLogKept(g: Geometry, s: State, i: nat, from: nat, k: nat, t: State)
    requires Inv(g, s) && s.phase == Phase.WriteLog(k) && k < |s.lh| && i < NBUF && from < NBUF && s.bufs[i].block.Some?
    requires Has(s, s.owner, i, g.start + 1 + k) && Has(s, s.owner, from, s.lh[k])
    requires t == WriteThrough(s, i, s.bufs[from].data, Phase.WriteLog(k + 1))
    ensures Inv(g, t)
  {
    var x, y := g.start + 1 + k, s.lh[k];
    assert g.InLog(x) && g.HomeBlock(s.disk, y);
    assert BufOk(g, s, i) && BufOk(g, s, from) && UserOk(s, i, s.owner) && UserOk(s, from, s.owner) && BlockOk(g, s, x);
    forall z | z in t.bufs[i].users
      ensures UserOk(t, i, z)
    {
      assert UserOk(s, i, z);
    }
    forall e | 0 <= e < |s.disk| && e != x
      ensures Untouched(g, s, t, e)
    {
    }
    forall j | 0 <= j < Copies(g, t)
      ensures CopyAt(g, t, j)
    {
      assert g.HomeBlock(s.disk, s.lh[j]);
      assert j < k ==> CopyAt(g, s, j);
    }
    Local(g, s, t, i, x, x);
  }

  lemma CopyHomeKept(g: Geometry, s: State, i: nat, from: nat, k: nat, t: State)
    requires Inv(g, s) && s.phase == Install(k) && k < |s.lh| && i < NBUF && from < NBUF && s.bufs[i].block.Some?
    requires Has(s, s.owner, from, g.start + 1 + k) && Has(s, s.owner, i, s.lh[k])
    requires t == Installed1(s, i, s.bufs[from].data, k, s.lh[k])
    ensures Inv(g, t)
  {
    var y := s.lh[k];
    assert g.InLog(g.start + 1 + k) && g.HomeBlock(s.disk, y);
    assert BufOk(g, s, i) && BufOk(g, s, from) && UserOk(s, i, s.owner) && UserOk(s, from, s.owner);
    assert BlockOk(g, s, y) && CopyAt(g, s, k);
    assert s.bufs[from].data == s.flat[y];
    InstalledOne(g, s, i, t, k, y);
  }

  // Entry k's home block y goes to disk and is unpinned
  lemma InstalledOne(g: Geometry, s: State, i: nat, t: State, k: nat, y: nat)
    requires Inv(g, s) && i < NBUF && s.phase == Install(k) && k < |s.lh| && y == s.lh[k] && g.HomeBlock(s.disk, y)
    requires s.bufs[i].block == Some(y) && s.bufs[i].valid && BufOk(g, s, i) && BlockOk(g, s, y)
    requires s.bufs[i].users != map[]
    requires t == Installed1(s, i, s.flat[y], k, y)
    ensures Inv(g, t)
  {
    PinsShrink(s.lh, k);
    InstalledBuf(g, s, i, t, k, y);
    InstalledBlocks(g, s, i, t, k, y);
    InstalledLog(g, s, i, t, k, y);
    Local(g, s, t, i, y, y);
  }

  lemma InstalledLog(g: Geometry, s: State, i: nat, t: State, k: nat, y: nat)
    requires LogOk(g, s) && i < |s.bufs| && s.phase == Install(k) && k < |s.lh| && g.HomeBlock(s.disk, y)
    requires s.bufs[i].block == Some(y) && t == Installed1(s, i, s.flat[y], k, y)
    ensures LogOk(g, t)
  {
    forall j | 0 <= j < |t.lh|
      ensures CopyAt(g, t, j)
    {
      assert CopyAt(g, s, j);
    }
  }

  lemma InstalledBlocks(g: Geometry, s: State, i: nat, t: State, k: nat, y: nat)
    requires Inv(g, s) && i < NBUF && s.phase == Install(k) && k < |s.lh| && y == s.lh[k] && g.HomeBlock(s.disk, y)
    requires s.bufs[i].block == Some(y) && s.bufs[i].valid && BufOk(g, s, i) && BlockOk(g, s, y)
    requires t == Installed1(s, i, s.flat[y], k, y)
    ensures BlockOk(g, t, y) && forall e :: 0 <= e < |s.disk| && e != y ==> Untouched(g, s, t, e)
  {
    PinsShrink(s.lh, k);
  }

  lemma InstalledBuf(g: Geometry, s: State, i: nat, t: State, k: nat, y: nat)
    requires Inv(g, s) && i < NBUF && s.phase == Install(k) && k < |s.lh| && y == s.lh[k] && g.HomeBlock(s.disk, y)
    requires s.bufs[i].block == Some(y) && s.bufs[i].valid && BufOk(g, s, i) && BlockOk(g, s, y)
    requires t == Installed1(s, i, s.flat[y], k, y)
    ensures BufOk(g, t, i)
  {
    PinsShrink(s.lh, k);
    var n := |s.bufs[i].users|;
    UpDown(n + (if s.booting then 0 else 1) - if y in s.leaked then 1 else 0);
    forall z | z in t.bufs[i].users
      ensures UserOk(t, i, z)
    {
      assert UserOk(s, i, z);
    }
  }

  // The header's own buffer, with its new contents, and the others
  lemma HeadBufs(g: Geometry, s: State, a: Step, t: State, k: nat)
    requires Inv(g, s) && Next(g, s, a) == Some(t) && (a.WriteHead? || a.ClearHead?) && k < NBUF
    requires |t.flat| == |t.disk| == |s.disk| && (a.ClearHead? ==> Pending(g, s) == {})
    requires Pending(g, t) == if a.ClearHead? then {} else Pending(g, s)
    ensures BufOk(g, t, k)
  {
    assert BufOk(g, s, a.i) && UserOk(s, a.i, s.owner) && g.InLog(g.start);
    assert BufOk(g, s, k);
    HeadBufSame(g, s, t, a.i, k);
  }

  lemma HeadBufSame(g: Geometry, s: State, t: State, i: nat, k: nat)
    requires |s.bufs| == |t.bufs| == NBUF && i < NBUF && k < NBUF && BufOk(g, s, i) && BufOk(g, s, k)
    requires g.InLog(g.start)
    requires |s.flat| == |t.flat| == |t.disk| == |s.disk| && s.bufs[i].block == Some(g.start) && !s.bufs[i].dirty
    requires t.bufs == s.bufs[i := s.bufs[i].(data := t.bufs[i].data)] && t.at == s.at && t.ops == s.ops
    requires t.busy == s.busy && t.leaked == s.leaked && t.flat == s.flat && t.disk == s.disk[g.start := t.bufs[i].data]
    requires Pending(g, t) == Pending(g, s) && (Pending(g, s) == {} || s.booting == t.booting)
    ensures BufOk(g, t, k)
  {
    forall z | z in t.bufs[k].users
      ensures UserOk(t, k, z)
    {
      assert UserOk(s, k, z);
    }
    assert k != i && s.bufs[k].block.Some? ==> s.bufs[k].block.value != g.start;
  }

  // What a write of the header leaves
  lemma HeadWritten(g: Geometry, s: State, a: Step, t: State)
    requires Inv(g, s) && Next(g, s, a) == Some(t) && (a.WriteHead? || a.ClearHead?)
    ensures !s.phase.Idle? && !s.phase.Reading? && |s.lh| <= LOGSIZE && g.start < |s.disk|
    ensures var lh := if a.WriteHead? then s.lh else [];
            && t.lh == lh && |s.bufs[a.i].data| == WORDS && t.disk == s.disk[g.start := PutHead(s.bufs[a.i].data, lh)]
            && t.flat == s.flat && t.ops == s.ops && |t.stable| == |s.stable|
    ensures if a.WriteHead? then s.phase == Phase.WriteLog(|s.lh|) && t.phase == Install(0) && t.booting == s.booting
            else s.phase == Install(|s.lh|) && t.phase == Idle && !t.booting
  {
    assert BufOk(g, s, a.i) && UserOk(s, a.i, s.owner) && g.InLog(g.start);
  }

  lemma HeadLog(g: Geometry, s: State, a: Step, t: State)
    requires Inv(g, s) && Next(g, s, a) == Some(t) && (a.WriteHead? || a.ClearHead?)
    ensures LogOk(g, t) && |t.disk| == |s.disk| && (a.ClearHead? ==> Pending(g, s) == {})
    ensures Pending(g, t) == if a.ClearHead? then {} else Pending(g, s)
  {
    HeadWritten(g, s, a, t);
    HeadReads(g, s, a, t);
    forall k | 0 <= k < Copies(g, t)
      ensures CopyAt(g, t, k)
    {
      assert CopyAt(g, s, k) && g.HomeBlock(s.disk, s.lh[k]);
    }
  }

  // ... is read back
  lemma HeadReads(g: Geometry, s: State, a: Step, t: State)
    requires (a.WriteHead? || a.ClearHead?) && a.i < |s.bufs| && |s.bufs[a.i].data| == WORDS && !s.phase.Reading?
    requires LogOk(g, s) && g.start < |s.disk| == |t.disk| && |t.lh| <= LOGSIZE
    requires t.disk == s.disk[g.start := PutHead(s.bufs[a.i].data, t.lh)] && (t.lh == s.lh || t.lh == [])
    ensures GoodHead(t.disk, g) && HeadBlocks(t.disk, g) == t.lh && GoodList(t.disk, g, t.lh)
  {
    assert t.disk[g.start][1..1 + |t.lh|] == t.lh;
  }

  lemma HeadKept(g: Geometry, s: State, a: Step, t: State)
    requires Inv(g, s) && Next(g, s, a) == Some(t) && (a.WriteHead? || a.ClearHead?)
    ensures Inv(g, t)
  {
    HeadLog(g, s, a, t);
    assert BufOk(g, s, a.i) && UserOk(s, a.i, s.owner) && g.InLog(g.start);
    forall k | 0 <= k < NBUF
      ensures BufOk(g, t, k)
    {
      HeadBufs(g, s, a, t, k);
    }
    forall e | 0 <= e < |t.disk|
      ensures BlockOk(g, t, e)
    {
      assert BlockOk(g, s, e);
    }
  }

  lemma ReadHeadKept(g: Geometry, s: State, a: Step, t: State)
    requires Inv(g, s) && Next(g, s, a) == Some(t) && a.ReadHead?
    ensures Inv(g, t)
  {
    assert BufOk(g, s, a.i) && UserOk(s, a.i, s.owner) && g.InLog(g.start);
    assert t.lh == HeadBlocks(s.disk, g) == Listed(g, t) == Listed(g, s);
    forall k | 0 <= k < NBUF
      ensures BufOk(g, t, k)
    {
      assert BufOk(g, s, k);
      forall z | z in t.bufs[k].users
        ensures UserOk(t, k, z)
      {
        assert UserOk(s, k, z);
      }
    }
    forall e | 0 <= e < |t.disk|
      ensures BlockOk(g, t, e)
    {
      assert BlockOk(g, s, e);
    }
    forall k | 0 <= k < Copies(g, t)
      ensures CopyAt(g, t, k)
    {
      assert CopyAt(g, s, k);
    }
  }

  lemma RecoversAt(g: Geometry, s: State, b: nat)
    requires Inv(g, s) && g.HomeBlock(s.disk, b)
    ensures Recovered(s.disk, g, b) == s.stable[b]
  {
    var bl := HeadBlocks(s.disk, g);
    assert BlockOk(g, s, b) && bl[..|bl|] == bl;
    HomeAfterLast(s.disk, g, bl, |bl|, b);
    if b in bl {
      var j :| 0 <= j < |bl| && bl[j] == b && HomeAfter(s.disk, g, bl, |bl|, b) == s.disk[g.start + 1 + j];
      assert CopyAt(g, s, j);
    } else {
      assert s.phase.Install? || s.phase.Reading? ==> b !in Pending(g, s);
    }
  }

  /** At every moment the disk recovers to the last committed contents. */
  lemma Recovers(g: Geometry, s: State)
    requires Inv(g, s)
    ensures RecoversTo(s.disk, g, s.stable) && NoDup(HeadBlocks(s.disk, g))
  {
    forall b | g.HomeBlock(s.disk, b)
      ensures Recovered(s.disk, g, b) == s.stable[b]
    {
      RecoversAt(g, s, b);
    }
  }

  lemma RestartCopy(g: Geometry, d: Disk, stable: Disk, k: nat)
    requires RecoversTo(d, g, stable) && NoDup(HeadBlocks(d, g)) && k < |HeadBlocks(d, g)|
    ensures GoodList(d, g, Listed(g, Restart(d, stable))) && CopyAt(g, Restart(d, stable), k)
  {
    var s := Restart(d, stable);
    assert Listed(g, s) == HeadBlocks(d, g) && s.disk == d && s.flat == stable;
    RecoversEntry(g, d, stable, k);
  }

  lemma RecoversEntry(g: Geometry, d: Disk, stable: Disk, k: nat)
    requires RecoversTo(d, g, stable) && NoDup(HeadBlocks(d, g)) && k < |HeadBlocks(d, g)|
    ensures d[g.start + 1 + k] == stable[HeadBlocks(d, g)[k]]
  {
    var bl := HeadBlocks(d, g);
    assert bl[..|bl|] == bl && g.HomeBlock(d, bl[k]) && bl[k] in bl;
    HomeAfterLast(d, g, bl, |bl|, bl[k]);
  }

  lemma RestartBlock(g: Geometry, d: Disk, stable: Disk, e: nat)
    requires RecoversTo(d, g, stable) && e < |d|
    ensures BlockOk(g, Restart(d, stable), e)
  {
    var s, bl := Restart(d, stable), HeadBlocks(d, g);
    if !g.InLog(e) && e !in Pending(g, s) {
      assert forall k :: 0 <= k < |bl| ==> bl[k] in Pending(g, s);
      assert bl[..|bl|] == bl && g.HomeBlock(d, e);
      HomeAfterLast(d, g, bl, |bl|, e);
    }
  }

  lemma RestartOk(g: Geometry, d: Disk, stable: Disk)
    requires RecoversTo(d, g, stable) && NoDup(HeadBlocks(d, g))
    ensures Inv(g, Restart(d, stable))
  {
    var s := Restart(d, stable);
    forall k | 0 <= k < |HeadBlocks(d, g)|
      ensures CopyAt(g, s, k)
    {
      RestartCopy(g, d, stable, k);
    }
    forall e | 0 <= e < |d|
      ensures BlockOk(g, s, e)
    {
      RestartBlock(g, d, stable, e);
    }
  }

  lemma GetKept(g: Geometry, s: State, a: Step, t: State)
    requires Inv(g, s) && Next(g, s, a) == Some(t) && a.Get? && !Clash(g, s, a)
    ensures Inv(g, t)
  {
    if a.b in s.at {
      HitKept(g, s, a.t, a.b, t);
    } else {
      RecycleKept(g, s, a.t, a.b, Victim(s.lru, s.bufs).value, t);
    }
  }

  lemma UseKept(g: Geometry, s: State, a: Step, t: State)
    requires Inv(g, s) && Next(g, s, a) == Some(t) && (a.Modify? || a.LogWrite? || a.Unlock? || a.Put?)
    ensures Inv(g, t)
  {
    if a.LogWrite? {
      RecordKept(g, s, a.t, a.i, t);
    } else if a.Put? {
      PutKept(g, s, a.t, a.i, t);
    } else {
      assert BufOk(g, s, a.i) && UserOk(s, a.i, a.t);
      HeldKept(g, s, a.i, t.bufs[a.i], t);
    }
  }

  lemma CommitKept(g: Geometry, s: State, a: Step, t: State)
    requires Inv(g, s) && Next(g, s, a) == Some(t)
    requires a.CopyToLog? || a.CopyHome? || a.WriteHead? || a.ClearHead? || a.ReadHead?
    ensures Inv(g, t)
  {
    if a.CopyToLog? {
      CopyToLogKept(g, s, a.i, a.from, s.phase.tail, t);
    } else if a.CopyHome? {
      CopyHomeKept(g, s, a.i, a.from, s.phase.tail, t);
    } else if a.ReadHead? {
      ReadHeadKept(g, s, a, t);
    } else {
      HeadKept(g, s, a, t);
    }
  }

  /** Every step of any thread, and a crash at any moment, keeps the invariant, as long as no buffer
      in use is recycled. */
  lemma StepKeepsInv(g: Geometry, s: State, a: Step, t: State)
    requires Inv(g, s) && Next(g, s, a) == Some(t) && !Clash(g, s, a)
    ensures Inv(g, t)
  {
    if a.Crash? {
      Recovers(g, s);
      RestartOk(g, s.disk, s.stable);
    } else if a.BeginOp? || a.EndOp? {
      OpKept(g, s, a, t);
    } else if a.Get? {
      GetKept(g, s, a, t);
    } else if a.Lock? || a.Fill? {
      BreadKept(g, s, a.t, s.busy[a.t], t);
    } else if a.Modify? || a.LogWrite? || a.Unlock? || a.Put? {
      UseKept(g, s, a, t);
    } else {
      CommitKept(g, s, a, t);
    }
  }

  // ---------- no clash without a leak ----------

  lemma FewUsers(s: State, i: nat)
    requires i < |s.bufs| && forall t :: t in s.bufs[i].users ==> UserOk(s, i, t)
    ensures |s.bufs[i].users| <= NPROC
  {
    forall t | t in s.bufs[i].users.Keys
      ensures t in Below(NPROC)
    {
      assert UserOk(s, i, t);
    }
    SubsetFull(s.bufs[i].users.Keys, Below(NPROC));
  }

  // A buffer whose block has not been leaked counts right
  lemma ZeroUnused(g: Geometry, s: State, i: nat)
    requires Inv(g, s) && i < NBUF && s.bufs[i].refcnt == 0
    requires (s.bufs[i].block.Some? ==> s.bufs[i].block.value !in s.leaked)
    ensures s.bufs[i].users == map[] && (s.bufs[i].block.Some? ==> !Pinned(g, s, s.bufs[i].block.value))
  {
    assert BufOk(g, s, i);
    if s.bufs[i].users != map[] {
      var t :| t in s.bufs[i].users;
      assert UserOk(s, i, t);
    }
    FewUsers(s, i);
  }

  // While recovery runs, its thread is the only user, and has released the blocks it has unpinned
  ghost predicate Alone(s: State) {
    s.booting ==> forall i, t :: 0 <= i < |s.bufs| && t in s.bufs[i].users ==> t == s.owner
  }

  lemma AloneKept(g: Geometry, s: State, a: Step, t: State)
    requires Alone(s) && Next(g, s, a) == Some(t)
    ensures Alone(t)
  {
    if t.booting && s.booting && !a.Crash? {
      forall i, x | 0 <= i < |t.bufs| && x in t.bufs[i].users
        ensures x == t.owner
      {
        UsersFrom(g, s, a, t, i, x);
      }
    }
  }

  // Only bget makes a thread a user
  lemma UsersFrom(g: Geometry, s: State, a: Step, t: State, i: nat, x: Thread)
    requires Next(g, s, a) == Some(t) && !a.Crash? && s.booting && i < |t.bufs| && x in t.bufs[i].users
    ensures i < |s.bufs| && t.owner == s.owner && (x in s.bufs[i].users || x == s.owner)
  {
  }

  /** No buffer in use is recycled while recovery runs, nor afterwards if it has found an empty log. */
  lemma NoLeakNoClash(g: Geometry, s: State, a: Step)
    requires Inv(g, s) && Next(g, s, a).Some? && (s.leaked == {} || (s.booting && Alone(s)))
    ensures !Clash(g, s, a)
  {
    if a.Get? && a.b !in s.at && Victim(s.lru, s.bufs).Some? {
      var i := Victim(s.lru, s.bufs).value;
      assert BufOk(g, s, i);
      if s.bufs[i].block.Some? && s.bufs[i].block.value in s.leaked {
        LeakedCount(g, s, a, i);
      } else {
        ZeroUnused(g, s, i);
      }
    }
  }

  lemma LeakedCount(g: Geometry, s: State, a: Step, i: nat)
    requires Inv(g, s) && Next(g, s, a).Some? && a.Get? && s.booting && Alone(s)
    requires i < NBUF && s.bufs[i].block.Some? && s.bufs[i].block.value in s.leaked
    ensures s.bufs[i].refcnt != 0
  {
    var b := s.bufs[i].block.value;
    assert BufOk(g, s, i) && BlockOk(g, s, b);
    assert b !in Wanted(g, s);
    if s.bufs[i].users != map[] {
      var t :| t in s.bufs[i].users;
      UsedIsWanted(g, s, a, i, t);
    } else {
      LeakedUnused(g, s, b);
    }
  }

  lemma UsedIsWanted(g: Geometry, s: State, a: Step, i: nat, t: Thread)
    requires Inv(g, s) && Next(g, s, a).Some? && a.Get? && s.booting && Alone(s) && i < NBUF && t in s.bufs[i].users
    ensures s.bufs[i].block.Some? && s.bufs[i].block.value in Wanted(g, s)
  {
    assert BufOk(g, s, i) && UserOk(s, i, t) && t == s.owner;
  }

  lemma LeakedUnused(g: Geometry, s: State, b: nat)
    requires s.booting && b in s.leaked
    ensures Count(g, s, b, 0) == U32 - 1
  {
  }

  // ---------- whole runs ----------

  /** The state after some steps, if they can all be taken. */
  ghost function After(g: Geometry, s: State, steps: seq<Step>): Option<State> {
    if steps == [] then Some(s)
    else
      var before := After(g, s, steps[..|steps| - 1]);
      if before.None? then None else Next(g, before.value, steps[|steps| - 1])
  }

  // Disk images that a kernel may be started on
  ghost predicate Bootable(g: Geometry, d: Disk) {
    GoodHead(d, g) && NoDup(HeadBlocks(d, g))
  }

  ghost predicate IsRun(g: Geometry, d: Disk, steps: seq<Step>) {
    Bootable(g, d) && After(g, Start(g, d), steps).Some?
  }

  ghost function End(g: Geometry, d: Disk, steps: seq<Step>): State
    requires IsRun(g, d, steps)
  {
    After(g, Start(g, d), steps).value
  }

  // Step a of state s is a log_write by a thread that had asked for block b
  ghost predicate Logs(s: State, a: Step, b: nat) {
    a.LogWrite? && a.i < |s.bufs| && a.t in s.bufs[a.i].users && s.bufs[a.i].users[a.t] == b
  }

  /** What was last given to log_write for block b, not counting what a crash has undone. Defined
      from the steps of the run alone. */
  ghost function LastLogged(g: Geometry, d: Disk, steps: seq<Step>, b: nat): Block
    requires IsRun(g, d, steps) && b < |d|
    decreases |steps|
  {
    if steps == [] then Recovered(d, g, b)
    else
      var last := |steps| - 1;
      var s, a := End(g, d, steps[..last]), steps[last];
      if Logs(s, a, b) then s.bufs[a.i].data
      else if a.Crash? then LastCommitted(g, d, steps[..last], b)
      else LastLogged(g, d, steps[..last], b)
  }

  /** What was logged for block b when the header was last written. */
  ghost function LastCommitted(g: Geometry, d: Disk, steps: seq<Step>, b: nat): Block
    requires IsRun(g, d, steps) && b < |d|
    decreases |steps|
  {
    if steps == [] then Recovered(d, g, b)
    else
      var last := |steps| - 1;
      if steps[last].WriteHead? then LastLogged(g, d, steps[..last], b) else LastCommitted(g, d, steps[..last], b)
  }

  // How a step changes the two histories of block b
  lemma StepHistory(g: Geometry, s: State, a: Step, t: State, b: nat)
    requires Next(g, s, a) == Some(t) && |s.disk| == |s.flat| == |s.stable| && b < |s.disk|
    ensures |t.disk| == |t.flat| == |t.stable| == |s.disk|
    ensures t.stable[b] == if a.WriteHead? then s.flat[b] else s.stable[b]
    ensures t.flat[b] == if a.Crash? then s.stable[b] else if Logs(s, a, b) then s.bufs[a.i].data else s.flat[b]
  {
    StepSizes(g, s, a, t);
    if a.LogWrite? {
      assert t == Recorded(s, a.t, a.i);
    } else {
      FlatKept(g, s, a, t);
    }
  }

  lemma StepSizes(g: Geometry, s: State, a: Step, t: State)
    requires Next(g, s, a) == Some(t)
    ensures |t.disk| == |s.disk| && (t.stable == if a.WriteHead? then s.flat else s.stable)
  {
  }

  lemma FlatKept(g: Geometry, s: State, a: Step, t: State)
    requires Next(g, s, a) == Some(t) && !a.LogWrite?
    ensures t.flat == if a.Crash? then s.stable else s.flat
  {
  }

  /** In every run the ghost histories are what the steps say. */
  lemma {:induction false} HistoryMatches(g: Geometry, d: Disk, steps: seq<Step>, b: nat)
    requires IsRun(g, d, steps) && b < |d|
    ensures var s := End(g, d, steps);
            && |s.disk| == |s.flat| == |s.stable| == |d|
            && s.flat[b] == LastLogged(g, d, steps, b) && s.stable[b] == LastCommitted(g, d, steps, b)
    decreases |steps|
  {
    if steps != [] {
      var last := |steps| - 1;
      HistoryMatches(g, d, steps[..last], b);
      StepHistory(g, End(g, d, steps[..last]), steps[last], End(g, d, steps), b);
    }
  }

  /** In no step is a buffer in use recycled. */
  ghost predicate NoClash(g: Geometry, d: Disk, steps: seq<Step>)
    requires IsRun(g, d, steps)
    decreases |steps|
  {
    steps != [] ==>
      var last := |steps| - 1;
      NoClash(g, d, steps[..last]) && !Clash(g, End(g, d, steps[..last]), steps[last])
  }

  /** Every step is part of a recovery, or of a boot whose recovery has found an empty log. */
  ghost predicate NoLeak(g: Geometry, d: Disk, steps: seq<Step>)
    requires IsRun(g, d, steps)
    decreases |steps|
  {
    steps != [] ==>
      var last := |steps| - 1;
      NoLeak(g, d, steps[..last]) && var s := End(g, d, steps[..last]); s.booting || s.leaked == {}
  }

  lemma StartOk(g: Geometry, d: Disk)
    requires Bootable(g, d)
    ensures Inv(g, Start(g, d)) && Alone(Start(g, d))
  {
    RestartOk(g, d, Start(g, d).stable);
  }

  lemma {:induction false} RunKeepsInv(g: Geometry, d: Disk, steps: seq<Step>)
    requires IsRun(g, d, steps) && NoClash(g, d, steps)
    ensures Inv(g, End(g, d, steps))
    decreases |steps|
  {
    if steps == [] {
      StartOk(g, d);
    } else {
      var last := |steps| - 1;
      RunKeepsInv(g, d, steps[..last]);
      StepKeepsInv(g, End(g, d, steps[..last]), steps[last], End(g, d, steps));
    }
  }

  lemma {:induction false} RunAlone(g: Geometry, d: Disk, steps: seq<Step>)
    requires IsRun(g, d, steps)
    ensures Alone(End(g, d, steps))
    decreases |steps|
  {
    if steps != [] {
      var last := |steps| - 1;
      RunAlone(g, d, steps[..last]);
      AloneKept(g, End(g, d, steps[..last]), steps[last], End(g, d, steps));
    }
  }

  /** Without leaks there are no clashes. */
  lemma {:induction false} NoLeakRun(g: Geometry, d: Disk, steps: seq<Step>)
    requires IsRun(g, d, steps) && NoLeak(g, d, steps)
    ensures NoClash(g, d, steps)
    decreases |steps|
  {
    if steps != [] {
      var last := |steps| - 1;
      NoLeakRun(g, d, steps[..last]);
      RunKeepsInv(g, d, steps[..last]);
      RunAlone(g, d, steps[..last]);
      NoLeakNoClash(g, End(g, d, steps[..last]), steps[last]);
    }
  }

  /** Crash atomicity, for every run and every moment of it, also in the middle of a commit or
      of a recovery: recovering from the disk as it is gives each home block exactly its
      contents at the last commit. */
  lemma CrashAtomicity(g: Geometry, d: Disk, steps: seq<Step>, b: nat)
    requires IsRun(g, d, steps) && NoClash(g, d, steps) && g.HomeBlock(d, b)
    ensures GoodHead(End(g, d, steps).disk, g) && |End(g, d, steps).disk| == |d|
    ensures Recovered(End(g, d, steps).disk, g, b) == LastCommitted(g, d, steps, b)
  {
    RunKeepsInv(g, d, steps);
    HistoryMatches(g, d, steps, b);
    RecoversAt(g, End(g, d, steps), b);
  }

  // An idle log, with no operation under way, is empty
  ghost predicate Settled(s: State) { s.phase.Idle? && s.ops == {} ==> s.lh == [] }

  lemma SettledStep(g: Geometry, s: State, a: Step, t: State)
    requires Settled(s) && Next(g, s, a) == Some(t)
    ensures Settled(t)
  {
    if a.EndOp? {
      assert s.ops - {a.t} == {} ==> s.ops == {a.t};
    }
  }

  lemma {:induction false} SettledRun(g: Geometry, d: Disk, steps: seq<Step>)
    requires IsRun(g, d, steps)
    ensures Settled(End(g, d, steps))
    decreases |steps|
  {
    if steps != [] {
      var last := |steps| - 1;
      SettledRun(g, d, steps[..last]);
      SettledStep(g, End(g, d, steps[..last]), steps[last], End(g, d, steps));
    }
  }

  /** Durability: in every run, once all operations have ended and the log is idle, recovering from the
      disk gives each home block what was last logged for it. */
  lemma Durable(g: Geometry, d: Disk, steps: seq<Step>, b: nat)
    requires IsRun(g, d, steps) && NoClash(g, d, steps) && g.HomeBlock(d, b)
    requires End(g, d, steps).phase.Idle? && End(g, d, steps).ops == {}
    ensures GoodHead(End(g, d, steps).disk, g) && |End(g, d, steps).disk| == |d|
    ensures Recovered(End(g, d, steps).disk, g, b) == LastLogged(g, d, steps, b)
  {
    CrashAtomicity(g, d, steps, b);
    SettledRun(g, d, steps);
    RunKeepsInv(g, d, steps);
    HistoryMatches(g, d, steps, b);
    assert BlockOk(g, End(g, d, steps), b);
  }

  /** A group is committed whole: when the header is written no operation is running, and the
      log holds every block whose last logged contents differ from its committed ones. */
  lemma CommitIsGroup(g: Geometry, d: Disk, steps: seq<Step>, i: nat)
    requires IsRun(g, d, steps) && NoClash(g, d, steps) && Next(g, End(g, d, steps), WriteHead(i)).Some?
    ensures End(g, d, steps).ops == {}
    ensures forall b: nat | g.HomeBlock(d, b) && b !in End(g, d, steps).lh ::
        LastLogged(g, d, steps, b) == LastCommitted(g, d, steps, b)
  {
    RunKeepsInv(g, d, steps);
    CommitsAlone(g, End(g, d, steps), i);
    forall b: nat | g.HomeBlock(d, b) && b !in End(g, d, steps).lh
      ensures LastLogged(g, d, steps, b) == LastCommitted(g, d, steps, b)
    {
      GroupAt(g, d, steps, i, b);
    }
  }

  lemma CommitsAlone(g: Geometry, s: State, i: nat)
    requires Inv(g, s) && Next(g, s, WriteHead(i)).Some?
    ensures s.ops == {}
  {
  }

  lemma GroupAt(g: Geometry, d: Disk, steps: seq<Step>, i: nat, b: nat)
    requires IsRun(g, d, steps) && Inv(g, End(g, d, steps)) && Next(g, End(g, d, steps), WriteHead(i)).Some?
    requires g.HomeBlock(d, b) && b !in End(g, d, steps).lh
    ensures LastLogged(g, d, steps, b) == LastCommitted(g, d, steps, b)
  {
    HistoryMatches(g, d, steps, b);
    CommittedAlready(g, End(g, d, steps), b, i);
  }

  lemma CommittedAlready(g: Geometry, s: State, b: nat, i: nat)
    requires Inv(g, s) && b < |s.disk| && !g.InLog(b) && b !in s.lh && Next(g, s, WriteHead(i)).Some?
    ensures s.flat[b] == s.stable[b]
  {
    assert BlockOk(g, s, b) && b !in Pending(g, s);
  }

  /** The cache and the log behave as one flat array of blocks: whoever has a buffer from bread, and
      has not changed it since, sees what was last logged for the block that it asked for. */
  lemma ReadsLastLogged(g: Geometry, d: Disk, steps: seq<Step>, t: Thread, i: nat, b: nat)
    requires IsRun(g, d, steps) && NoClash(g, d, steps) && g.HomeBlock(d, b)
    requires var s := End(g, d, steps); !s.booting && Ready(s, t, i) && s.bufs[i].users[t] == b && !s.bufs[i].dirty
    ensures End(g, d, steps).bufs[i].data == LastLogged(g, d, steps, b)
  {
    RunKeepsInv(g, d, steps);
    HistoryMatches(g, d, steps, b);
    assert BufOk(g, End(g, d, steps), i) && UserOk(End(g, d, steps), i, t);
  }
}
