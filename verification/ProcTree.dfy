/** fork, exit, wait and reparent: who is whose parent, and who frees whom. Process INIT is init.
    Sleeping elsewhere than in wait is part of LIVE. */
module ProcTree {

  const INIT: nat := 0

  datatype PState = UNUSED | LIVE | SLEEPING | ZOMBIE

  // Where a process is. The comments name the locks held.
  datatype Pc =
    | Idle
    | Fork1(q: nat) | Fork2(q: nat) | Fork3(q: nat)          // q: slot found; pid given; parent set
    | Exit0                                                  // init has been woken, in case
    | Exit1(op: nat)                                         // original_parent read
    | Exit2(op: nat)                                         // op
    | Exit3(op: nat, k: nat)                                 // op, self: children below k given away
    | ExitWant(op: nat, k: nat)                              // op, self: k is a child, its lock wanted
    | Exit4(op: nat, k: nat)                                 // op, self, k
    | Exit5(op: nat)                                         // op, self: ZOMBIE
    | Exit6                                                  // self
    | Dead
    | Wait1(k: nat, kids: bool)                              // self: no zombie child below k
    | WaitWant(k: nat, kids: bool)                           // self: k is a child, its lock wanted
    | Wait2(k: nat, kids: bool)                              // self, k
    | WaitSleep                                              // self: SLEEPING
    | WaitAsleep                                             // switched out

  datatype Proc = Proc(state: PState, pid: nat, parent: int, lock: int, pc: Pc)

  // reaped is ghost: the pids freed by wait
  datatype State = State(procs: seq<Proc>, nextpid: nat, reaped: set<nat>)

  datatype Option<T> = None | Some(value: T)

  // ForkFail(false): no page for the trapframe, and the slot keeps the pid; ForkFail(true): freeproc
  datatype Step = Fork(q: nat) | ForkFail(freed: bool) | Exit | Wait | Go(input: bool) | Kill(q: nat)

  function Set(s: State, p: nat, x: Proc): State
    requires p < |s.procs|
  {
    s.(procs := s.procs[p := x])
  }

  function Lock(s: State, p: nat, q: nat): State
    requires p < |s.procs| && q < |s.procs|
  {
    Set(s, q, s.procs[q].(lock := p))
  }

  function Unlock(s: State, q: nat): State
    requires q < |s.procs|
  {
    Set(s, q, s.procs[q].(lock := -1))
  }

  function To(s: State, p: nat, pc: Pc): State
    requires p < |s.procs|
  {
    Set(s, p, s.procs[p].(pc := pc))
  }

  predicate Free(s: State, q: nat) { q < |s.procs| && s.procs[q].lock == -1 }

  // freeproc, and release
  function Freed(x: Proc): Proc { x.(state := UNUSED, pid := 0, parent := -1, lock := -1) }

  // fork
  function ForkNext(s: State, p: nat, a: Step): Option<State>
    requires p < |s.procs|
  {
    match s.procs[p].pc
    case Idle =>
      if a.Fork? && a.q != p && Free(s, a.q) && s.procs[a.q].state == UNUSED
      then Some(To(Lock(s, p, a.q), p, Fork1(a.q))) else None
    case Fork1(q) =>
      if a.Go? && q < |s.procs|
      then Some(To(Set(s, q, s.procs[q].(pid := s.nextpid)).(nextpid := s.nextpid + 1), p, Fork2(q))) else None
    case Fork2(q) =>
      if q >= |s.procs| then None
      else if a.ForkFail? then
        Some(To(Set(s, q, if a.freed then Freed(s.procs[q]) else s.procs[q].(lock := -1)), p, Idle))
      else if a.Go? then Some(To(Set(s, q, s.procs[q].(parent := p)), p, Fork3(q))) else None
    case Fork3(q) =>
      if a.Go? && q < |s.procs|
      then Some(To(Set(s, q, s.procs[q].(state := LIVE, pc := Idle, lock := -1)), p, Idle)) else None
    case _ => None
  }

  // wakeup1
  function Woken(x: Proc): Proc {
    if x.state == SLEEPING && (x.pc == WaitSleep || x.pc == WaitAsleep) then x.(state := LIVE) else x
  }

  function ExitNext(s: State, p: nat, a: Step): Option<State>
    requires p < |s.procs|
  {
    if a.Exit? && s.procs[p].pc.Idle? then
      if p != INIT && Free(s, INIT) then Some(To(Set(s, INIT, Woken(s.procs[INIT])), p, Exit0)) else None
    else if !a.Go? then None
    else
      match s.procs[p].pc
      case Exit0 => if Free(s, p) && s.procs[p].parent >= 0 then Some(To(s, p, Exit1(s.procs[p].parent))) else None
      case Exit1(op) => if Free(s, op) then Some(To(Lock(s, p, op), p, Exit2(op))) else None
      case Exit2(op) => if Free(s, p) then Some(To(Lock(s, p, p), p, Exit3(op, 0))) else None
      case Exit3(op, k) =>
        if k < |s.procs| then
          Some(To(s, p, if s.procs[k].parent == p then ExitWant(op, k) else Exit3(op, k + 1)))
        else if op < |s.procs| then
          var t := Set(s, op, Woken(s.procs[op]));
          Some(Set(t, p, t.procs[p].(state := ZOMBIE, pc := Exit5(op))))
        else None
      case ExitWant(op, k) => if Free(s, k) then Some(To(Lock(s, p, k), p, Exit4(op, k))) else None
      case Exit4(op, k) =>
        if k < |s.procs|
        then Some(To(Set(s, k, s.procs[k].(parent := INIT, lock := -1)), p, Exit3(op, k + 1))) else None
      case Exit5(op) => if op < |s.procs| then Some(To(Unlock(s, op), p, Exit6)) else None
      case Exit6 => Some(To(Unlock(s, p), p, Dead))
      case _ => None
  }

  function WaitNext(s: State, p: nat, a: Step): Option<State>
    requires p < |s.procs|
  {
    if a.Wait? && s.procs[p].pc.Idle? then (if Free(s, p) then Some(To(Lock(s, p, p), p, Wait1(0, false))) else None)
    else if !a.Go? then None
    else
      match s.procs[p].pc
      case Wait1(k, kids) =>
        if k < |s.procs| then
          Some(To(s, p, if s.procs[k].parent == p then WaitWant(k, kids) else Wait1(k + 1, kids)))
        else if !kids || a.input then Some(To(Unlock(s, p), p, Idle))         // a.input: killed
        else Some(Set(s, p, s.procs[p].(state := SLEEPING, pc := WaitSleep)))
      case WaitWant(k, kids) => if Free(s, k) then Some(To(Lock(s, p, k), p, Wait2(k, kids))) else None
      case Wait2(k, kids) =>
        if k >= |s.procs| then None
        else if s.procs[k].state == ZOMBIE then
          if a.input then Some(To(Unlock(Unlock(s, k), p), p, Idle))          // a.input: copyout fails
          else Some(To(Unlock(Set(s, k, Freed(s.procs[k])), p), p, Idle).(reaped := s.reaped + {s.procs[k].pid}))
        else Some(To(Unlock(s, k), p, Wait1(k + 1, true)))
      case WaitSleep => Some(To(Unlock(s, p), p, WaitAsleep))
      case WaitAsleep => if s.procs[p].state == LIVE && Free(s, p) then Some(To(Lock(s, p, p), p, Wait1(0, false)))
        else None
      case _ => None
  }

  // A step of process p, which is in use
  function Next(s: State, p: nat, a: Step): Option<State>
    requires p < |s.procs|
  {
    if s.procs[p].state == UNUSED || (s.procs[p].state == ZOMBIE && s.procs[p].pc == Dead) then None
    else if a.Kill? then
      if s.procs[p].pc.Idle? && Free(s, a.q) && s.procs[a.q].state == SLEEPING
      then Some(Set(s, a.q, s.procs[a.q].(state := LIVE))) else None
    else if ForkNext(s, p, a).Some? then ForkNext(s, p, a)
    else if ExitNext(s, p, a).Some? then ExitNext(s, p, a)
    else WaitNext(s, p, a)
  }

  // ---------- the invariant ----------

  // By where process h is, it holds process q's lock
  predicate Holds(h: nat, pc: Pc, q: nat) {
    match pc
    case Fork1(x) => q == x
    case Fork2(x) => q == x
    case Fork3(x) => q == x
    case Exit2(op) => q == op
    case Exit3(op, _) => q == op || q == h
    case ExitWant(op, _) => q == op || q == h
    case Exit4(op, k) => q == op || q == h || q == k
    case Exit5(op) => q == op || q == h
    case Exit6 => q == h
    case Wait1(_, _) => q == h
    case WaitWant(_, _) => q == h
    case Wait2(k, _) => q == h || q == k
    case WaitSleep => q == h
    case _ => false
  }

  predicate StateFits(x: Proc) {
    match x.pc
    case Exit5(_) => x.state == ZOMBIE
    case Exit6 => x.state == ZOMBIE
    case Dead => x.state == ZOMBIE || x.state == UNUSED
    case WaitSleep => x.state == SLEEPING
    case WaitAsleep => x.state == SLEEPING || x.state == LIVE
    case Idle => x.state == LIVE || x.state == UNUSED
    case _ => x.state == LIVE
  }

  predicate Alive(x: Proc) { x.state == LIVE || x.state == SLEEPING }

  ghost predicate LockOk(s: State, p: nat)
    requires p < |s.procs|
  {
    && (s.procs[p].lock == -1
         || (0 <= s.procs[p].lock < |s.procs| && Holds(s.procs[p].lock, s.procs[s.procs[p].lock].pc, p)))
    && (forall h :: 0 <= h < |s.procs| && Holds(h, s.procs[h].pc, p) ==> s.procs[p].lock == h)
  }

  // Some fork has found slot q and is setting it up
  predicate BeingMade(s: State, q: nat)
    requires q < |s.procs|
  {
    var h := s.procs[q].lock;
    0 <= h < |s.procs| && (s.procs[h].pc == Fork1(q) || s.procs[h].pc == Fork2(q) || s.procs[h].pc == Fork3(q))
  }

  /** A process in use, other than init, has a living parent with a smaller pid. */
  ghost predicate TreeOk(s: State, p: nat)
    requires p < |s.procs|
  {
    var x := s.procs[p];
    && (x.state != UNUSED ==> x.pid > 0)
    && (x.pid > 0 ==> x.pid < s.nextpid && x.pid !in s.reaped && (p != INIT ==> x.pid > 1))
    && (x.state != UNUSED && p != INIT ==> x.parent >= 0)
    && -1 <= x.parent < |s.procs|
    && (x.parent >= 0 ==> Alive(s.procs[x.parent]) && x.pid > 0 && s.procs[x.parent].pid < x.pid)
    && (p == INIT ==> Alive(x) && x.pid == 1 && x.parent == -1)
    && (x.state == UNUSED && !BeingMade(s, p) ==> x.parent == -1)
  }

  ghost predicate NoChildBelow(s: State, p: nat, k: nat) {
    forall j :: 0 <= j < k && j < |s.procs| ==> s.procs[j].parent != p
  }

  ghost predicate NoZombieBelow(s: State, p: nat, k: nat) {
    p != INIT ==> forall j :: 0 <= j < k && j < |s.procs| ==> !(s.procs[j].parent == p && s.procs[j].state == ZOMBIE)
  }

  // original_parent is the parent, unless that has given the process to init
  predicate ReadParent(s: State, p: nat, op: nat)
    requires p < |s.procs|
  {
    op < |s.procs| && op != p && (s.procs[p].parent == op || s.procs[p].parent == INIT)
  }

  predicate IsChild(s: State, p: nat, k: nat) {
    k < |s.procs| && k != p && s.procs[k].parent == p
  }

  ghost predicate PcOk(s: State, p: nat)
    requires p < |s.procs|
  {
    && StateFits(s.procs[p])
    && (match s.procs[p].pc
        case Fork1(q) => q < |s.procs| && q != p && s.procs[q].state == UNUSED && s.procs[q].parent == -1
        case Fork2(q) => q < |s.procs| && q != p && s.procs[q].state == UNUSED && s.procs[q].parent == -1
          && s.procs[q].pid > s.procs[p].pid
        case Fork3(q) => q < |s.procs| && q != p && s.procs[q].state == UNUSED && s.procs[q].pid > s.procs[p].pid
          && s.procs[q].parent == p
        case Exit0 => p != INIT
        case Exit1(op) => p != INIT && ReadParent(s, p, op)
        case Exit2(op) => p != INIT && ReadParent(s, p, op)
        case Exit3(op, k) => p != INIT && ReadParent(s, p, op) && NoChildBelow(s, p, k)
        case ExitWant(op, k) => p != INIT && ReadParent(s, p, op) && NoChildBelow(s, p, k) && IsChild(s, p, k)
        case Exit4(op, k) => p != INIT && ReadParent(s, p, op) && NoChildBelow(s, p, k) && IsChild(s, p, k) && k != op
        case Exit5(op) => p != INIT && op < |s.procs| && op != p
        case Exit6 => p != INIT
        case Dead => true
        case Wait1(k, _) => NoZombieBelow(s, p, k)
        case WaitWant(k, _) => NoZombieBelow(s, p, k) && IsChild(s, p, k)
        case Wait2(k, _) => NoZombieBelow(s, p, k) && IsChild(s, p, k)
        case WaitSleep => NoZombieBelow(s, p, |s.procs|)
        case WaitAsleep => s.procs[p].state == SLEEPING ==> NoZombieBelow(s, p, |s.procs|)
        case Idle => true)
  }

  ghost predicate PidsDiffer(s: State, p: nat, q: nat)
    requires p < |s.procs| && q < |s.procs|
  {
    s.procs[p].pid > 0 && s.procs[p].pid == s.procs[q].pid ==> p == q
  }

  ghost predicate Ok(s: State) {
    && |s.procs| > 0 && s.nextpid > 1 && (forall n :: n in s.reaped ==> n < s.nextpid)
    && (forall p :: 0 <= p < |s.procs| ==> LockOk(s, p))
    && (forall p :: 0 <= p < |s.procs| ==> TreeOk(s, p))
    && (forall p :: 0 <= p < |s.procs| ==> PcOk(s, p))
    && (forall p, q :: 0 <= p < |s.procs| && 0 <= q < |s.procs| ==> PidsDiffer(s, p, q))
  }

  // What the invariant says of one process
  ghost predicate Known(s: State, p: nat)
    requires p < |s.procs|
  {
    PcOk(s, p) && LockOk(s, p) && TreeOk(s, p)
  }

  // A process that can take steps
  ghost predicate Runs(s: State, p: nat) {
    Ok(s) && p < |s.procs| && s.procs[p].state != UNUSED
  }

  // What a step of process p may do to process j
  ghost predicate Frame(s: State, t: State, p: nat, j: nat)
    requires p < |s.procs| == |t.procs| && j < |s.procs|
  {
    var x, y := s.procs[j], t.procs[j];
    && (j != p && x.lock != p && x.lock != -1 ==> y == x)
    && (j != p && x.state != UNUSED ==> y.pc == x.pc)
    && (j != p && x.state == UNUSED ==> y.pc == x.pc || y.pc == Idle)
    && (y.pid == x.pid || y.pid == 0
         || (y.pid == s.nextpid && t.nextpid == s.nextpid + 1 && x.lock == p && s.procs[p].pc == Fork1(j)))
    && (j != p && x.state != UNUSED && y.state != UNUSED ==> y.pid == x.pid)
    && (y.parent != x.parent ==>
         (x.parent == -1 && y.parent == p)
         || (x.parent == p && (y.parent == INIT || (y.parent == -1 && y.state == UNUSED))))
    && (y.state == ZOMBIE && x.state != ZOMBIE ==> j == p && y.parent == x.parent)
    && (y.state == ZOMBIE && x.state != ZOMBIE && 0 < x.parent < |s.procs| ==>
         s.procs[x.parent].lock == p && t.procs[x.parent].state != SLEEPING)
    && (y.state == SLEEPING && x.state != SLEEPING ==> j == p)
    && (j != p ==> StateFits(y))
  }

  // The locks p holds afterwards are those it had or that were free
  ghost predicate LockMoves(s: State, t: State, p: nat, j: nat)
    requires p < |s.procs| == |t.procs| && j < |s.procs|
  {
    var x, y := s.procs[j], t.procs[j];
    if Holds(p, t.procs[p].pc, j) then y.lock == p && (x.lock == -1 || x.lock == p)
    else y.lock == if x.lock == p then -1 else x.lock
  }

  ghost predicate Moves(s: State, t: State, p: nat) {
    && p < |s.procs| == |t.procs| && s.procs[p].state != UNUSED && s.nextpid <= t.nextpid <= s.nextpid + 1
    && (forall j :: 0 <= j < |s.procs| ==> Frame(s, t, p, j))
    && forall j :: 0 <= j < |s.procs| ==> LockMoves(s, t, p, j)
  }

  lemma ChildrenKept(s: State, t: State, p: nat, r: nat, k: nat)
    requires Moves(s, t, p) && r < |s.procs| && r != p
    ensures r != INIT && NoChildBelow(s, r, k) ==> NoChildBelow(t, r, k)
    ensures IsChild(s, r, k) ==> IsChild(t, r, k)
  {
    if r != INIT && NoChildBelow(s, r, k) {
      forall j | 0 <= j < k && j < |t.procs|
        ensures t.procs[j].parent != r
      {
        assert Frame(s, t, p, j);
      }
    }
    if k < |s.procs| {
      assert Frame(s, t, p, k);
    }
  }

  lemma ZombiesKept(s: State, t: State, p: nat, r: nat, k: nat)
    requires Moves(s, t, p) && r < |s.procs| && r != p && (s.procs[r].lock != p || t.procs[r].state == SLEEPING)
    ensures NoZombieBelow(s, r, k) ==> NoZombieBelow(t, r, k)
  {
    if r != INIT && NoZombieBelow(s, r, k) {
      forall j | 0 <= j < k && j < |t.procs|
        ensures !(t.procs[j].parent == r && t.procs[j].state == ZOMBIE)
      {
        assert Frame(s, t, p, j);
      }
    }
  }

  lemma OthersFork(s: State, t: State, p: nat, r: nat, q: nat)
    requires Ok(s) && Moves(s, t, p) && r < |s.procs| && r != p && s.procs[r].state != UNUSED
    requires t.procs[r].state != UNUSED && q < |s.procs|
    requires s.procs[r].pc == Fork1(q) || s.procs[r].pc == Fork2(q) || s.procs[r].pc == Fork3(q)
    ensures PcOk(t, r)
  {
    assert PcOk(s, r) && Frame(s, t, p, r) && LockOk(s, q) && Frame(s, t, p, q);
  }

  lemma OthersExit(s: State, t: State, p: nat, r: nat)
    requires Ok(s) && Moves(s, t, p) && r < |s.procs| && r != p && s.procs[r].state != UNUSED
    requires t.procs[r].state != UNUSED
    requires s.procs[r].pc.Exit1? || s.procs[r].pc.Exit2? || s.procs[r].pc.Exit3? || s.procs[r].pc.ExitWant?
        || s.procs[r].pc.Exit4? || s.procs[r].pc.Exit5?
    ensures PcOk(t, r)
  {
    assert PcOk(s, r) && Frame(s, t, p, r) && TreeOk(s, r);
    match s.procs[r].pc
    case Exit3(op, k) => ChildrenKept(s, t, p, r, k);
    case ExitWant(op, k) => ChildrenKept(s, t, p, r, k);
    case Exit4(op, k) => ChildrenKept(s, t, p, r, k);
    case _ =>
  }

  lemma OthersWait(s: State, t: State, p: nat, r: nat)
    requires Ok(s) && Moves(s, t, p) && r < |s.procs| && r != p && s.procs[r].state != UNUSED
    requires t.procs[r].state != UNUSED
    requires s.procs[r].pc.Wait1? || s.procs[r].pc.WaitWant? || s.procs[r].pc.Wait2? || s.procs[r].pc.WaitSleep?
        || s.procs[r].pc.WaitAsleep?
    ensures PcOk(t, r)
  {
    assert PcOk(s, r) && LockOk(s, r) && Frame(s, t, p, r);
    match s.procs[r].pc
    case Wait1(k, _) => ZombiesKept(s, t, p, r, k);
    case WaitWant(k, _) => ZombiesKept(s, t, p, r, k); ChildrenKept(s, t, p, r, k);
    case Wait2(k, _) => ZombiesKept(s, t, p, r, k); ChildrenKept(s, t, p, r, k);
    case WaitSleep => ZombiesKept(s, t, p, r, |s.procs|);
    case WaitAsleep =>
      if t.procs[r].state == SLEEPING {
        ZombiesKept(s, t, p, r, |s.procs|);
      }
  }

  /** What the others are in the middle of is not disturbed by a step of p. */
  lemma OthersKept(s: State, t: State, p: nat, r: nat)
    requires Ok(s) && Moves(s, t, p) && r < |s.procs| && r != p
    ensures PcOk(t, r)
  {
    assert PcOk(s, r) && Frame(s, t, p, r);
    if s.procs[r].state != UNUSED && t.procs[r].state != UNUSED {
      match s.procs[r].pc
      case Fork1(q) => OthersFork(s, t, p, r, q);
      case Fork2(q) => OthersFork(s, t, p, r, q);
      case Fork3(q) => OthersFork(s, t, p, r, q);
      case Idle =>
      case Dead =>
      case Exit6 =>
      case Exit0 =>
      case Exit1(_) => OthersExit(s, t, p, r);
      case Exit2(_) => OthersExit(s, t, p, r);
      case Exit3(_, _) => OthersExit(s, t, p, r);
      case ExitWant(_, _) => OthersExit(s, t, p, r);
      case Exit4(_, _) => OthersExit(s, t, p, r);
      case Exit5(_) => OthersExit(s, t, p, r);
      case _ => OthersWait(s, t, p, r);
    }
  }

  lemma LocksKept(s: State, t: State, p: nat, r: nat)
    requires Ok(s) && Moves(s, t, p) && r < |s.procs|
    ensures LockOk(t, r)
  {
    assert LockOk(s, r) && LockMoves(s, t, p, r);
    forall h | 0 <= h < |s.procs| && h != p
      ensures Holds(h, t.procs[h].pc, r) <==> Holds(h, s.procs[h].pc, r)
    {
      assert Frame(s, t, p, h) && PcOk(s, h);
    }
  }

  lemma PidsKept(s: State, t: State, p: nat, r: nat, q: nat)
    requires Ok(s) && Moves(s, t, p) && r < |s.procs| && q < |s.procs|
    ensures PidsDiffer(t, r, q)
  {
    assert PidsDiffer(s, r, q) && TreeOk(s, r) && TreeOk(s, q) && Frame(s, t, p, r) && Frame(s, t, p, q);
  }

  // A step is in order if it moves as it should and p itself and the tree are in order
  lemma Assemble(s: State, t: State, p: nat)
    requires Ok(s) && Moves(s, t, p) && PcOk(t, p) && (forall r :: 0 <= r < |t.procs| ==> TreeOk(t, r))
    requires forall n :: n in t.reaped ==> n < t.nextpid
    ensures Ok(t)
  {
    forall r | 0 <= r < |t.procs|
      ensures LockOk(t, r) && PcOk(t, r)
    {
      LocksKept(s, t, p, r);
      if r != p {
        OthersKept(s, t, p, r);
      }
    }
    forall r, q | 0 <= r < |t.procs| && 0 <= q < |t.procs|
      ensures PidsDiffer(t, r, q)
    {
      PidsKept(s, t, p, r, q);
    }
  }

  // Nothing that the tree depends on changes
  predicate SameData(x: Proc, y: Proc) {
    y.pid == x.pid && y.parent == x.parent && (y.state == x.state || (Alive(x) && Alive(y)))
  }

  predicate Forks(pc: Pc) { pc.Fork1? || pc.Fork2? || pc.Fork3? }

  ghost predicate QuietMove(s: State, t: State, p: nat, j: nat)
    requires p < |s.procs| == |t.procs| && j < |s.procs|
  {
    Frame(s, t, p, j) && LockMoves(s, t, p, j) && SameData(s.procs[j], t.procs[j])
  }

  lemma QuietTree(s: State, t: State, p: nat, r: nat)
    requires Ok(s) && Moves(s, t, p) && !Forks(s.procs[p].pc) && t.nextpid == s.nextpid && t.reaped == s.reaped
    requires r < |s.procs|
    requires forall j :: 0 <= j < |s.procs| ==> QuietMove(s, t, p, j)
    ensures TreeOk(t, r)
  {
    assert TreeOk(s, r) && QuietMove(s, t, p, r) && LockOk(s, r);
    if 0 <= s.procs[r].parent < |s.procs| {
      assert QuietMove(s, t, p, s.procs[r].parent);
    }
    if s.procs[r].state == UNUSED && BeingMade(s, r) {
      assert Frame(s, t, p, s.procs[r].lock) && PcOk(s, s.procs[r].lock);
    }
  }

  lemma AssembleQuiet(s: State, t: State, p: nat)
    requires Ok(s) && p < |s.procs| == |t.procs| && s.procs[p].state != UNUSED && !Forks(s.procs[p].pc)
    requires t.nextpid == s.nextpid && t.reaped == s.reaped
    requires PcOk(t, p) && forall j :: 0 <= j < |s.procs| ==> QuietMove(s, t, p, j)
    ensures Ok(t)
  {
    forall j | 0 <= j < |s.procs|
      ensures Frame(s, t, p, j) && LockMoves(s, t, p, j)
    {
      assert QuietMove(s, t, p, j);
    }
    forall r | 0 <= r < |t.procs|
      ensures TreeOk(t, r)
    {
      QuietTree(s, t, p, r);
    }
    Assemble(s, t, p);
  }

  lemma ForkLockKeeps(s: State, p: nat, a: Step)
    requires Runs(s, p) && s.procs[p].pc.Idle? && ForkNext(s, p, a).Some?
    ensures Ok(ForkNext(s, p, a).value)
  {
    var t := ForkNext(s, p, a).value;
    assert Known(s, p) && Known(s, a.q);
    forall j | 0 <= j < |s.procs|
      ensures QuietMove(s, t, p, j)
    {
      assert PcOk(s, j) && LockOk(s, j);
    }
    AssembleQuiet(s, t, p);
  }

  lemma ForkPidMoves(s: State, p: nat, a: Step)
    requires Runs(s, p) && s.procs[p].pc.Fork1? && a.Go? && ForkNext(s, p, a).Some?
    ensures Moves(s, ForkNext(s, p, a).value, p) && PcOk(ForkNext(s, p, a).value, p)
  {
    var t := ForkNext(s, p, a).value;
    assert Known(s, p) && Known(s, s.procs[p].pc.q);
    forall j | 0 <= j < |s.procs|
      ensures Frame(s, t, p, j) && LockMoves(s, t, p, j)
    {
      assert Known(s, j);
    }
  }

  lemma ForkPidTree(s: State, p: nat, a: Step, r: nat)
    requires Runs(s, p) && s.procs[p].pc.Fork1? && a.Go? && ForkNext(s, p, a).Some? && r < |s.procs|
    ensures |ForkNext(s, p, a).value.procs| == |s.procs| && TreeOk(ForkNext(s, p, a).value, r)
  {
    assert Known(s, p) && Known(s, s.procs[p].pc.q);
    assert Known(s, r);
  }

  lemma ForkPidKeeps(s: State, p: nat, a: Step)
    requires Runs(s, p) && s.procs[p].pc.Fork1? && a.Go? && ForkNext(s, p, a).Some?
    ensures Ok(ForkNext(s, p, a).value)
  {
    var t := ForkNext(s, p, a).value;
    assert TreeOk(s, p) && PcOk(s, p);
    ForkPidMoves(s, p, a);
    forall r | 0 <= r < |t.procs|
      ensures TreeOk(t, r)
    {
      ForkPidTree(s, p, a, r);
    }
    Assemble(s, t, p);
  }

  lemma ForkFailMoves(s: State, p: nat, a: Step)
    requires Runs(s, p) && s.procs[p].pc.Fork2? && a.ForkFail? && ForkNext(s, p, a).Some?
    ensures Moves(s, ForkNext(s, p, a).value, p) && PcOk(ForkNext(s, p, a).value, p)
  {
    var t := ForkNext(s, p, a).value;
    assert Known(s, p) && Known(s, s.procs[p].pc.q);
    forall j | 0 <= j < |s.procs|
      ensures Frame(s, t, p, j) && LockMoves(s, t, p, j)
    {
      assert Known(s, j);
    }
  }

  lemma ForkFailTree(s: State, p: nat, a: Step, r: nat)
    requires Runs(s, p) && s.procs[p].pc.Fork2? && a.ForkFail? && ForkNext(s, p, a).Some?
    requires r < |s.procs|
    ensures |ForkNext(s, p, a).value.procs| == |s.procs| && TreeOk(ForkNext(s, p, a).value, r)
  {
    assert Known(s, p) && Known(s, s.procs[p].pc.q);
    assert Known(s, r);
  }

  lemma ForkFailKeeps(s: State, p: nat, a: Step)
    requires Runs(s, p) && s.procs[p].pc.Fork2? && a.ForkFail? && ForkNext(s, p, a).Some?
    ensures Ok(ForkNext(s, p, a).value)
  {
    var t := ForkNext(s, p, a).value;
    assert TreeOk(s, p) && PcOk(s, p);
    ForkFailMoves(s, p, a);
    forall r | 0 <= r < |t.procs|
      ensures TreeOk(t, r)
    {
      ForkFailTree(s, p, a, r);
    }
    Assemble(s, t, p);
  }

  lemma ForkParentMoves(s: State, p: nat, a: Step)
    requires Runs(s, p) && s.procs[p].pc.Fork2? && a.Go? && ForkNext(s, p, a).Some?
    ensures Moves(s, ForkNext(s, p, a).value, p) && PcOk(ForkNext(s, p, a).value, p)
  {
    var t := ForkNext(s, p, a).value;
    assert Known(s, p) && Known(s, s.procs[p].pc.q);
    forall j | 0 <= j < |s.procs|
      ensures Frame(s, t, p, j) && LockMoves(s, t, p, j)
    {
      assert Known(s, j);
    }
  }

  lemma ForkParentTree(s: State, p: nat, a: Step, r: nat)
    requires Runs(s, p) && s.procs[p].pc.Fork2? && a.Go? && ForkNext(s, p, a).Some? && r < |s.procs|
    ensures |ForkNext(s, p, a).value.procs| == |s.procs| && TreeOk(ForkNext(s, p, a).value, r)
  {
    assert Known(s, p) && Known(s, s.procs[p].pc.q);
    assert Known(s, r);
  }

  lemma ForkParentKeeps(s: State, p: nat, a: Step)
    requires Runs(s, p) && s.procs[p].pc.Fork2? && a.Go? && ForkNext(s, p, a).Some?
    ensures Ok(ForkNext(s, p, a).value)
  {
    var t := ForkNext(s, p, a).value;
    assert TreeOk(s, p) && PcOk(s, p);
    ForkParentMoves(s, p, a);
    forall r | 0 <= r < |t.procs|
      ensures TreeOk(t, r)
    {
      ForkParentTree(s, p, a, r);
    }
    Assemble(s, t, p);
  }

  lemma ForkDoneMoves(s: State, p: nat, a: Step)
    requires Runs(s, p) && s.procs[p].pc.Fork3? && ForkNext(s, p, a).Some?
    ensures Moves(s, ForkNext(s, p, a).value, p) && PcOk(ForkNext(s, p, a).value, p)
  {
    var t := ForkNext(s, p, a).value;
    assert Known(s, p) && Known(s, s.procs[p].pc.q);
    forall j | 0 <= j < |s.procs|
      ensures Frame(s, t, p, j) && LockMoves(s, t, p, j)
    {
      assert Known(s, j);
    }
  }

  lemma ForkDoneTree(s: State, p: nat, a: Step, r: nat)
    requires Runs(s, p) && s.procs[p].pc.Fork3? && ForkNext(s, p, a).Some? && r < |s.procs|
    ensures |ForkNext(s, p, a).value.procs| == |s.procs| && TreeOk(ForkNext(s, p, a).value, r)
  {
    assert Known(s, p) && Known(s, s.procs[p].pc.q);
    assert Known(s, r);
  }

  lemma ForkDoneKeeps(s: State, p: nat, a: Step)
    requires Runs(s, p) && s.procs[p].pc.Fork3? && ForkNext(s, p, a).Some?
    ensures Ok(ForkNext(s, p, a).value)
  {
    var t := ForkNext(s, p, a).value;
    assert TreeOk(s, p) && PcOk(s, p);
    ForkDoneMoves(s, p, a);
    forall r | 0 <= r < |t.procs|
      ensures TreeOk(t, r)
    {
      ForkDoneTree(s, p, a, r);
    }
    Assemble(s, t, p);
  }

  lemma ExitWakeKeeps(s: State, p: nat, a: Step)
    requires Runs(s, p) && s.procs[p].pc.Idle? && ExitNext(s, p, a).Some?
    ensures Ok(ExitNext(s, p, a).value)
  {
    var t := ExitNext(s, p, a).value;
    assert Known(s, p) && Known(s, INIT);
    forall j | 0 <= j < |s.procs|
      ensures QuietMove(s, t, p, j)
    {
      assert PcOk(s, j) && LockOk(s, j);
    }
    AssembleQuiet(s, t, p);
  }

  lemma ExitReadKeeps(s: State, p: nat, a: Step)
    requires Runs(s, p) && s.procs[p].pc.Exit0? && ExitNext(s, p, a).Some?
    ensures Ok(ExitNext(s, p, a).value)
  {
    var t := ExitNext(s, p, a).value;
    assert Known(s, p);
    forall j | 0 <= j < |s.procs|
      ensures QuietMove(s, t, p, j)
    {
      assert PcOk(s, j) && LockOk(s, j);
    }
    AssembleQuiet(s, t, p);
  }

  lemma ExitLockParentKeeps(s: State, p: nat, a: Step)
    requires Runs(s, p) && s.procs[p].pc.Exit1? && ExitNext(s, p, a).Some?
    ensures Ok(ExitNext(s, p, a).value)
  {
    var t := ExitNext(s, p, a).value;
    assert Known(s, p) && Known(s, s.procs[p].pc.op);
    forall j | 0 <= j < |s.procs|
      ensures QuietMove(s, t, p, j)
    {
      assert PcOk(s, j) && LockOk(s, j);
    }
    AssembleQuiet(s, t, p);
  }

  lemma ExitLockSelfKeeps(s: State, p: nat, a: Step)
    requires Runs(s, p) && s.procs[p].pc.Exit2? && ExitNext(s, p, a).Some?
    ensures Ok(ExitNext(s, p, a).value)
  {
    var t := ExitNext(s, p, a).value;
    assert Known(s, p) && Known(s, s.procs[p].pc.op);
    forall j | 0 <= j < |s.procs|
      ensures QuietMove(s, t, p, j)
    {
      assert PcOk(s, j) && LockOk(s, j);
    }
    AssembleQuiet(s, t, p);
  }

  lemma ExitScanKeeps(s: State, p: nat, a: Step)
    requires Runs(s, p) && s.procs[p].pc.Exit3? && s.procs[p].pc.k < |s.procs| && ExitNext(s, p, a).Some?
    ensures Ok(ExitNext(s, p, a).value)
  {
    var t := ExitNext(s, p, a).value;
    assert Known(s, p) && TreeOk(s, s.procs[p].pc.k);
    forall j | 0 <= j < |s.procs|
      ensures QuietMove(s, t, p, j)
    {
      assert PcOk(s, j) && LockOk(s, j);
    }
    AssembleQuiet(s, t, p);
  }

  lemma ExitZombieMoves(s: State, p: nat, a: Step)
    requires Runs(s, p) && s.procs[p].pc.Exit3? && s.procs[p].pc.k >= |s.procs| && ExitNext(s, p, a).Some?
    ensures Moves(s, ExitNext(s, p, a).value, p) && PcOk(ExitNext(s, p, a).value, p)
  {
    var t := ExitNext(s, p, a).value;
    assert Known(s, p) && Known(s, s.procs[p].pc.op);
    forall j | 0 <= j < |s.procs|
      ensures Frame(s, t, p, j) && LockMoves(s, t, p, j)
    {
      assert Known(s, j);
    }
  }

  lemma ExitZombieTree(s: State, p: nat, a: Step, r: nat)
    requires Runs(s, p) && s.procs[p].pc.Exit3? && s.procs[p].pc.k >= |s.procs| && ExitNext(s, p, a).Some?
    requires r < |s.procs|
    ensures |ExitNext(s, p, a).value.procs| == |s.procs| && TreeOk(ExitNext(s, p, a).value, r)
  {
    assert Known(s, p) && Known(s, s.procs[p].pc.op) && TreeOk(s, r);
    ZombieTree(s, p, s.procs[p].pc.op, r);
  }

  // p, which has no child, is a zombie, and its parent has been woken
  lemma ZombieTree(s: State, p: nat, op: nat, r: nat)
    requires p < |s.procs| && r < |s.procs| && op < |s.procs| && op != p && s.procs[p].pc.Exit3? && p != INIT
    requires TreeOk(s, r) && s.procs[r].parent != p && s.procs[p].state != UNUSED
    ensures var t := Set(s, op, Woken(s.procs[op]));
            TreeOk(Set(t, p, t.procs[p].(state := ZOMBIE, pc := Exit5(op))), r)
  {
  }

  lemma ExitZombieKeeps(s: State, p: nat, a: Step)
    requires Runs(s, p) && s.procs[p].pc.Exit3? && s.procs[p].pc.k >= |s.procs| && ExitNext(s, p, a).Some?
    ensures Ok(ExitNext(s, p, a).value)
  {
    var t := ExitNext(s, p, a).value;
    assert TreeOk(s, p) && PcOk(s, p);
    ExitZombieMoves(s, p, a);
    forall r | 0 <= r < |t.procs|
      ensures TreeOk(t, r)
    {
      ExitZombieTree(s, p, a, r);
    }
    Assemble(s, t, p);
  }

  lemma ExitLockChildMove(s: State, p: nat, a: Step, j: nat)
    requires Runs(s, p) && s.procs[p].pc.ExitWant? && ExitNext(s, p, a).Some? && j < |s.procs|
    ensures |ExitNext(s, p, a).value.procs| == |s.procs| && QuietMove(s, ExitNext(s, p, a).value, p, j)
  {
    assert Known(s, p) && Known(s, s.procs[p].pc.op) && Known(s, s.procs[p].pc.k);
    assert PcOk(s, j) && LockOk(s, j);
  }

  lemma ExitLockChildKeeps(s: State, p: nat, a: Step)
    requires Runs(s, p) && s.procs[p].pc.ExitWant? && ExitNext(s, p, a).Some?
    ensures Ok(ExitNext(s, p, a).value)
  {
    var t := ExitNext(s, p, a).value;
    assert Known(s, p) && Known(s, s.procs[p].pc.op) && Known(s, s.procs[p].pc.k);
    forall j | 0 <= j < |s.procs|
      ensures QuietMove(s, t, p, j)
    {
      ExitLockChildMove(s, p, a, j);
    }
    AssembleQuiet(s, t, p);
  }

  lemma ExitGiveMove(s: State, p: nat, a: Step, j: nat)
    requires Runs(s, p) && s.procs[p].pc.Exit4? && ExitNext(s, p, a).Some? && j < |s.procs|
    ensures |ExitNext(s, p, a).value.procs| == |s.procs|
    ensures Frame(s, ExitNext(s, p, a).value, p, j) && LockMoves(s, ExitNext(s, p, a).value, p, j)
  {
    assert Known(s, p) && TreeOk(s, INIT) && Known(s, s.procs[p].pc.k) && LockOk(s, s.procs[p].pc.op) && Known(s, j);
    GaveMove(s, p, s.procs[p].pc.op, s.procs[p].pc.k, j);
  }

  lemma GaveMove(s: State, p: nat, op: nat, k: nat, j: nat)
    requires p < |s.procs| && j < |s.procs| && k < |s.procs| && op < |s.procs| && s.procs[p].pc == Exit4(op, k)
    requires p != INIT && k != INIT && k != p && k != op && s.procs[k].parent == p && s.procs[k].state != UNUSED
    requires s.procs[k].lock == p && s.procs[op].lock == p && s.procs[p].lock == p
    requires (s.procs[j].lock == p ==> j == op || j == p || j == k)
    requires StateFits(s.procs[j])
    ensures var t := To(Set(s, k, s.procs[k].(parent := INIT, lock := -1)), p, Exit3(op, k + 1));
            Frame(s, t, p, j) && LockMoves(s, t, p, j)
  {
  }

  lemma ExitGiveMoves(s: State, p: nat, a: Step)
    requires Runs(s, p) && s.procs[p].pc.Exit4? && ExitNext(s, p, a).Some?
    ensures Moves(s, ExitNext(s, p, a).value, p) && PcOk(ExitNext(s, p, a).value, p)
  {
    assert PcOk(s, p);
    forall j | 0 <= j < |s.procs|
      ensures Frame(s, ExitNext(s, p, a).value, p, j) && LockMoves(s, ExitNext(s, p, a).value, p, j)
    {
      ExitGiveMove(s, p, a, j);
    }
  }

  lemma ExitGiveTree(s: State, p: nat, a: Step, r: nat)
    requires Runs(s, p) && s.procs[p].pc.Exit4? && ExitNext(s, p, a).Some? && r < |s.procs|
    ensures |ExitNext(s, p, a).value.procs| == |s.procs| && TreeOk(ExitNext(s, p, a).value, r)
  {
    assert Known(s, p) && TreeOk(s, INIT) && TreeOk(s, r) && Known(s, s.procs[p].pc.k);
    GaveTree(s, p, s.procs[p].pc.op, s.procs[p].pc.k, r);
  }

  // p has given its child k to init
  lemma GaveTree(s: State, p: nat, op: nat, k: nat, r: nat)
    requires p < |s.procs| && r < |s.procs| && k < |s.procs| && s.procs[p].pc == Exit4(op, k) && p != INIT
    requires k != INIT && k != p
    requires TreeOk(s, r) && TreeOk(s, INIT) && TreeOk(s, p) && TreeOk(s, k) && s.procs[k].parent == p
    requires s.procs[k].lock == p
    ensures TreeOk(To(Set(s, k, s.procs[k].(parent := INIT, lock := -1)), p, Exit3(op, k + 1)), r)
  {
  }

  lemma ExitGiveKeeps(s: State, p: nat, a: Step)
    requires Runs(s, p) && s.procs[p].pc.Exit4? && ExitNext(s, p, a).Some?
    ensures Ok(ExitNext(s, p, a).value)
  {
    var t := ExitNext(s, p, a).value;
    assert TreeOk(s, p) && PcOk(s, p);
    ExitGiveMoves(s, p, a);
    forall r | 0 <= r < |t.procs|
      ensures TreeOk(t, r)
    {
      ExitGiveTree(s, p, a, r);
    }
    Assemble(s, t, p);
  }

  lemma ExitUnlockKeeps(s: State, p: nat, a: Step)
    requires Runs(s, p) && s.procs[p].pc.Exit5? && ExitNext(s, p, a).Some?
    ensures Ok(ExitNext(s, p, a).value)
  {
    var t := ExitNext(s, p, a).value;
    assert Known(s, p) && Known(s, s.procs[p].pc.op);
    forall j | 0 <= j < |s.procs|
      ensures QuietMove(s, t, p, j)
    {
      assert PcOk(s, j) && LockOk(s, j);
    }
    AssembleQuiet(s, t, p);
  }

  lemma ExitSwitchKeeps(s: State, p: nat, a: Step)
    requires Runs(s, p) && s.procs[p].pc.Exit6? && ExitNext(s, p, a).Some?
    ensures Ok(ExitNext(s, p, a).value)
  {
    var t := ExitNext(s, p, a).value;
    assert Known(s, p);
    forall j | 0 <= j < |s.procs|
      ensures QuietMove(s, t, p, j)
    {
      assert PcOk(s, j) && LockOk(s, j);
    }
    AssembleQuiet(s, t, p);
  }

  lemma WaitStartKeeps(s: State, p: nat, a: Step)
    requires Runs(s, p) && s.procs[p].pc.Idle? && WaitNext(s, p, a).Some?
    ensures Ok(WaitNext(s, p, a).value)
  {
    var t := WaitNext(s, p, a).value;
    assert Known(s, p);
    forall j | 0 <= j < |s.procs|
      ensures QuietMove(s, t, p, j)
    {
      assert PcOk(s, j) && LockOk(s, j);
    }
    AssembleQuiet(s, t, p);
  }

  lemma WaitScanKeeps(s: State, p: nat, a: Step)
    requires Runs(s, p) && s.procs[p].pc.Wait1? && s.procs[p].pc.k < |s.procs| && WaitNext(s, p, a).Some?
    ensures Ok(WaitNext(s, p, a).value)
  {
    var t := WaitNext(s, p, a).value;
    assert Known(s, p) && TreeOk(s, s.procs[p].pc.k);
    forall j | 0 <= j < |s.procs|
      ensures QuietMove(s, t, p, j)
    {
      assert PcOk(s, j) && LockOk(s, j);
    }
    AssembleQuiet(s, t, p);
  }

  lemma WaitEndKeeps(s: State, p: nat, a: Step)
    requires Runs(s, p) && s.procs[p].pc.Wait1? && s.procs[p].pc.k >= |s.procs| && WaitNext(s, p, a).Some?
    ensures Ok(WaitNext(s, p, a).value)
  {
    var t := WaitNext(s, p, a).value;
    assert Known(s, p);
    forall j | 0 <= j < |s.procs|
      ensures QuietMove(s, t, p, j)
    {
      assert PcOk(s, j) && LockOk(s, j);
    }
    AssembleQuiet(s, t, p);
  }

  lemma WaitLockChildKeeps(s: State, p: nat, a: Step)
    requires Runs(s, p) && s.procs[p].pc.WaitWant? && WaitNext(s, p, a).Some?
    ensures Ok(WaitNext(s, p, a).value)
  {
    var t := WaitNext(s, p, a).value;
    assert Known(s, p) && Known(s, s.procs[p].pc.k);
    forall j | 0 <= j < |s.procs|
      ensures QuietMove(s, t, p, j)
    {
      assert PcOk(s, j) && LockOk(s, j);
    }
    AssembleQuiet(s, t, p);
  }

  lemma WaitPassMove(s: State, p: nat, a: Step, j: nat)
    requires Runs(s, p) && s.procs[p].pc.Wait2? && s.procs[p].pc.k < |s.procs|
    requires (s.procs[s.procs[p].pc.k].state != ZOMBIE || (a.Go? && a.input)) && WaitNext(s, p, a).Some?
    requires j < |s.procs|
    ensures |WaitNext(s, p, a).value.procs| == |s.procs| && QuietMove(s, WaitNext(s, p, a).value, p, j)
  {
    assert Known(s, p) && Known(s, s.procs[p].pc.k);
    assert PcOk(s, j) && LockOk(s, j);
  }

  lemma WaitPassKeeps(s: State, p: nat, a: Step)
    requires Runs(s, p) && s.procs[p].pc.Wait2? && s.procs[p].pc.k < |s.procs|
    requires (s.procs[s.procs[p].pc.k].state != ZOMBIE || (a.Go? && a.input)) && WaitNext(s, p, a).Some?
    ensures Ok(WaitNext(s, p, a).value)
  {
    var t := WaitNext(s, p, a).value;
    assert Known(s, p) && Known(s, s.procs[p].pc.k);
    forall j | 0 <= j < |s.procs|
      ensures QuietMove(s, t, p, j)
    {
      WaitPassMove(s, p, a, j);
    }
    AssembleQuiet(s, t, p);
  }

  lemma WaitReapMoves(s: State, p: nat, a: Step)
    requires Runs(s, p) && s.procs[p].pc.Wait2? && s.procs[p].pc.k < |s.procs|
    requires s.procs[s.procs[p].pc.k].state == ZOMBIE && a.Go? && !a.input && WaitNext(s, p, a).Some?
    ensures Moves(s, WaitNext(s, p, a).value, p) && PcOk(WaitNext(s, p, a).value, p)
  {
    var t := WaitNext(s, p, a).value;
    assert Known(s, p) && Known(s, s.procs[p].pc.k);
    forall j | 0 <= j < |s.procs|
      ensures Frame(s, t, p, j) && LockMoves(s, t, p, j)
    {
      assert Known(s, j);
    }
  }

  lemma WaitReapTree(s: State, p: nat, a: Step, r: nat)
    requires Runs(s, p) && s.procs[p].pc.Wait2? && s.procs[p].pc.k < |s.procs|
    requires s.procs[s.procs[p].pc.k].state == ZOMBIE && a.Go? && !a.input && WaitNext(s, p, a).Some? && r < |s.procs|
    ensures |WaitNext(s, p, a).value.procs| == |s.procs| && TreeOk(WaitNext(s, p, a).value, r)
  {
    assert Known(s, p) && Known(s, s.procs[p].pc.k) && TreeOk(s, r);
    assert PidsDiffer(s, r, s.procs[p].pc.k);
    ReapTree(s, p, s.procs[p].pc.k, r);
  }

  // p has freed its zombie child k
  lemma ReapTree(s: State, p: nat, k: nat, r: nat)
    requires p < |s.procs| && r < |s.procs| && k < |s.procs| && s.procs[p].pc.Wait2? && k != p && k != INIT
    requires s.procs[k].state == ZOMBIE
    requires s.procs[p].state != UNUSED && s.procs[r].parent != k && TreeOk(s, r) && TreeOk(s, p) && TreeOk(s, k)
    requires PidsDiffer(s, r, k)
    ensures TreeOk(To(Unlock(Set(s, k, Freed(s.procs[k])), p), p, Idle).(reaped := s.reaped + {s.procs[k].pid}), r)
  {
  }

  lemma WaitReapKeeps(s: State, p: nat, a: Step)
    requires Runs(s, p) && s.procs[p].pc.Wait2? && s.procs[p].pc.k < |s.procs|
    requires s.procs[s.procs[p].pc.k].state == ZOMBIE && a.Go? && !a.input && WaitNext(s, p, a).Some?
    ensures Ok(WaitNext(s, p, a).value)
  {
    var t := WaitNext(s, p, a).value;
    assert TreeOk(s, p) && PcOk(s, p) && TreeOk(s, s.procs[p].pc.k);
    WaitReapMoves(s, p, a);
    forall r | 0 <= r < |t.procs|
      ensures TreeOk(t, r)
    {
      WaitReapTree(s, p, a, r);
    }
    Assemble(s, t, p);
  }

  lemma WaitSleepsKeeps(s: State, p: nat, a: Step)
    requires Runs(s, p) && s.procs[p].pc.WaitSleep? && WaitNext(s, p, a).Some?
    ensures Ok(WaitNext(s, p, a).value)
  {
    var t := WaitNext(s, p, a).value;
    assert Known(s, p);
    forall j | 0 <= j < |s.procs|
      ensures QuietMove(s, t, p, j)
    {
      assert PcOk(s, j) && LockOk(s, j);
    }
    AssembleQuiet(s, t, p);
  }

  lemma WaitResumeKeeps(s: State, p: nat, a: Step)
    requires Runs(s, p) && s.procs[p].pc.WaitAsleep? && WaitNext(s, p, a).Some?
    ensures Ok(WaitNext(s, p, a).value)
  {
    var t := WaitNext(s, p, a).value;
    assert Known(s, p);
    forall j | 0 <= j < |s.procs|
      ensures QuietMove(s, t, p, j)
    {
      assert PcOk(s, j) && LockOk(s, j);
    }
    AssembleQuiet(s, t, p);
  }

  lemma KillKeeps(s: State, p: nat, a: Step)
    requires Runs(s, p) && a.Kill? && Next(s, p, a).Some?
    ensures Ok(Next(s, p, a).value)
  {
    var t := Next(s, p, a).value;
    assert PcOk(s, p) && LockOk(s, p) && PcOk(s, a.q);
    forall j | 0 <= j < |s.procs|
      ensures QuietMove(s, t, p, j)
    {
      assert PcOk(s, j) && LockOk(s, j);
    }
    AssembleQuiet(s, t, p);
  }

  lemma ForkKeeps(s: State, p: nat, a: Step)
    requires Runs(s, p) && ForkNext(s, p, a).Some?
    ensures Ok(ForkNext(s, p, a).value)
  {
    if s.procs[p].pc.Idle? {
      ForkLockKeeps(s, p, a);
    } else if s.procs[p].pc.Fork3? {
      ForkDoneKeeps(s, p, a);
    } else if a.ForkFail? {
      ForkFailKeeps(s, p, a);
    } else if s.procs[p].pc.Fork1? {
      ForkPidKeeps(s, p, a);
    } else {
      ForkParentKeeps(s, p, a);
    }
  }

  lemma ExitKeeps(s: State, p: nat, a: Step)
    requires Runs(s, p) && ExitNext(s, p, a).Some?
    ensures Ok(ExitNext(s, p, a).value)
  {
    match s.procs[p].pc
    case Idle => ExitWakeKeeps(s, p, a);
    case Exit0 => ExitReadKeeps(s, p, a);
    case Exit1(_) => ExitLockParentKeeps(s, p, a);
    case Exit2(_) => ExitLockSelfKeeps(s, p, a);
    case Exit3(_, k) =>
      if k < |s.procs| {
        ExitScanKeeps(s, p, a);
      } else {
        ExitZombieKeeps(s, p, a);
      }
    case ExitWant(_, _) => ExitLockChildKeeps(s, p, a);
    case Exit4(_, _) => ExitGiveKeeps(s, p, a);
    case Exit5(_) => ExitUnlockKeeps(s, p, a);
    case Exit6 => ExitSwitchKeeps(s, p, a);
  }

  lemma WaitKeeps(s: State, p: nat, a: Step)
    requires Runs(s, p) && WaitNext(s, p, a).Some?
    ensures Ok(WaitNext(s, p, a).value)
  {
    match s.procs[p].pc
    case Idle => WaitStartKeeps(s, p, a);
    case Wait1(k, _) =>
      if k < |s.procs| {
        WaitScanKeeps(s, p, a);
      } else {
        WaitEndKeeps(s, p, a);
      }
    case WaitWant(_, _) => WaitLockChildKeeps(s, p, a);
    case Wait2(k, _) =>
      if s.procs[k].state == ZOMBIE && !a.input {
        WaitReapKeeps(s, p, a);
      } else {
        WaitPassKeeps(s, p, a);
      }
    case WaitSleep => WaitSleepsKeeps(s, p, a);
    case WaitAsleep => WaitResumeKeeps(s, p, a);
  }

  lemma StepKeeps(s: State, p: nat, a: Step)
    requires Ok(s) && p < |s.procs| && Next(s, p, a).Some?
    ensures Ok(Next(s, p, a).value)
  {
    if a.Kill? {
      KillKeeps(s, p, a);
    } else if ForkNext(s, p, a).Some? {
      ForkKeeps(s, p, a);
    } else if ExitNext(s, p, a).Some? {
      ExitKeeps(s, p, a);
    } else {
      WaitKeeps(s, p, a);
    }
  }

  // Steps of any processes in any order; one that cannot move leaves the state as it is
  function Run(s: State, steps: seq<(nat, Step)>): State {
    if steps == [] then s
    else
      var t, x := Run(s, steps[..|steps| - 1]), steps[|steps| - 1];
      if x.0 < |t.procs| && Next(t, x.0, x.1).Some? then Next(t, x.0, x.1).value else t
  }

  // Only init is there
  ghost predicate Start(s: State) {
    && |s.procs| > 0 && s.nextpid == 2 && s.reaped == {} && s.procs[INIT] == Proc(LIVE, 1, -1, -1, Idle)
    && forall p :: 1 <= p < |s.procs| ==> s.procs[p] == Proc(UNUSED, 0, -1, -1, Dead)
  }

  lemma {:induction false} RunKeeps(s: State, steps: seq<(nat, Step)>)
    requires Start(s)
    ensures Ok(Run(s, steps))
  {
    if steps == [] {
      forall p | 0 <= p < |s.procs|
        ensures Known(s, p)
      {
      }
      forall p, q | 0 <= p < |s.procs| && 0 <= q < |s.procs|
        ensures PidsDiffer(s, p, q)
      {
      }
    } else {
      var before, x := steps[..|steps| - 1], steps[|steps| - 1];
      RunKeeps(s, before);
      var t := Run(s, before);
      if x.0 < |t.procs| && Next(t, x.0, x.1).Some? {
        StepKeeps(t, x.0, x.1);
      }
    }
  }

  // Every process in use but init has a parent that is in use, no zombie, and older
  ghost predicate Forest(s: State) {
    forall p :: 0 <= p < |s.procs| && p != INIT && s.procs[p].state != UNUSED ==>
      0 <= s.procs[p].parent < |s.procs| && Alive(s.procs[s.procs[p].parent])
        && s.procs[s.procs[p].parent].pid < s.procs[p].pid
  }

  // A process asleep in wait has no zombie child
  ghost predicate NothingMissed(s: State, p: nat)
    requires p < |s.procs|
  {
    s.procs[p].state == SLEEPING ==>
      forall j :: 0 <= j < |s.procs| && s.procs[j].parent == p ==> s.procs[j].state != ZOMBIE
  }

  /** In every run: the parents form a forest rooted at init, ordered by pid, and no process other
      than init sleeps in wait while it has a zombie child. */
  lemma ForestInRuns(s: State, steps: seq<(nat, Step)>)
    requires Start(s)
    ensures var t := Run(s, steps);
            Forest(t) && forall p :: 0 <= p < |t.procs| && p != INIT ==> NothingMissed(t, p)
  {
    RunKeeps(s, steps);
    var t := Run(s, steps);
    forall p | 0 <= p < |t.procs| && p != INIT
      ensures NothingMissed(t, p)
    {
      assert PcOk(t, p);
    }
    forall p | 0 <= p < |t.procs| && p != INIT && t.procs[p].state != UNUSED
      ensures 0 <= t.procs[p].parent < |t.procs| && Alive(t.procs[t.procs[p].parent])
      ensures t.procs[t.procs[p].parent].pid < t.procs[p].pid
    {
      assert TreeOk(t, p);
    }
  }

  // Only wait frees a process in use
  lemma ForkFreesNone(s: State, p: nat, a: Step, q: nat)
    requires Ok(s) && p < |s.procs| && ForkNext(s, p, a).Some? && q < |s.procs| && s.procs[q].state != UNUSED
    ensures q < |ForkNext(s, p, a).value.procs| && ForkNext(s, p, a).value.procs[q].state != UNUSED
  {
    assert PcOk(s, p);
  }

  lemma ExitFreesNone(s: State, p: nat, a: Step, q: nat)
    requires Ok(s) && p < |s.procs| && ExitNext(s, p, a).Some? && q < |s.procs| && s.procs[q].state != UNUSED
    ensures q < |ExitNext(s, p, a).value.procs| && ExitNext(s, p, a).value.procs[q].state != UNUSED
  {
    assert PcOk(s, p);
  }

  lemma WaitFrees(s: State, p: nat, a: Step, q: nat)
    requires Ok(s) && p < |s.procs| && WaitNext(s, p, a).Some? && q < |s.procs| && s.procs[q].state != UNUSED
    requires |WaitNext(s, p, a).value.procs| == |s.procs| && WaitNext(s, p, a).value.procs[q].state == UNUSED
    ensures s.procs[q].state == ZOMBIE && s.procs[q].parent == p && s.procs[q].pid !in s.reaped
    ensures WaitNext(s, p, a).value.reaped == s.reaped + {s.procs[q].pid}
  {
    assert PcOk(s, p) && TreeOk(s, q);
  }

  /** In every run: a process is freed only as a zombie, by its parent in wait, and its pid has
      not been freed before. */
  lemma ReapedOnce(s: State, steps: seq<(nat, Step)>, p: nat, a: Step, q: nat)
    requires Start(s)
    requires var t := Run(s, steps); p < |t.procs| && Next(t, p, a).Some? && q < |t.procs| && t.procs[q].state != UNUSED
    requires |Next(Run(s, steps), p, a).value.procs| == |Run(s, steps).procs|
    requires Next(Run(s, steps), p, a).value.procs[q].state == UNUSED
    ensures var t := Run(s, steps);
            && t.procs[q].state == ZOMBIE && t.procs[q].parent == p && t.procs[q].pid !in t.reaped
            && Next(t, p, a).value.reaped == t.reaped + {t.procs[q].pid}
  {
    RunKeeps(s, steps);
    var t := Run(s, steps);
    if !a.Kill? {
      if ForkNext(t, p, a).Some? {
        ForkFreesNone(t, p, a, q);
      } else if ExitNext(t, p, a).Some? {
        ExitFreesNone(t, p, a, q);
      } else {
        WaitFrees(t, p, a, q);
      }
    }
  }
}
