/** A run of fork, exit and wait in which init misses a wakeup: init forks 1, 1 forks 2, 2 forks 3,
    3 exits, 2 begins to exit and wakes init, init waits and goes to sleep, and only then does 2
    give its zombie child to init. */
module InitWakeup {
  import opened ProcTree

  ghost predicate Reaches(s: State, t: State) {
    exists steps :: Run(s, steps) == t
  }

  lemma {:induction false} RunOn(s: State, before: seq<(nat, Step)>, after: seq<(nat, Step)>)
    ensures Run(s, before + after) == Run(Run(s, before), after)
  {
    if after == [] {
      assert before + after == before;
    } else {
      var last := |after| - 1;
      assert (before + after)[..|before + after| - 1] == before + after[..last];
      RunOn(s, before, after[..last]);
    }
  }

  lemma StepReaches(s: State, t: State, p: nat, a: Step)
    requires p < |t.procs| && Next(t, p, a).Some? && Reaches(s, t)
    ensures Reaches(s, Next(t, p, a).value)
  {
    var steps :| Run(s, steps) == t;
    RunOn(s, steps, [(p, a)]);
    assert Run(t, [(p, a)]) == Next(t, p, a).value by {
      assert [(p, a)][..0] == [];
    }
  }

  lemma GoReaches(s: State, t: State, p: nat, u: State)
    requires p < |t.procs| && Next(t, p, Go(false)).Some? && Reaches(s, t)
    requires var v := Next(t, p, Go(false)).value; v.procs == u.procs && v.nextpid == u.nextpid && v.reaped == u.reaped
    ensures Reaches(s, u)
  {
    StepReaches(s, t, p, Go(false));
  }

  function Four(a: Proc, b: Proc, c: Proc, d: Proc, nextpid: nat): State {
    State([a, b, c, d], nextpid, {})
  }

  const UNUSED_SLOT := Proc(UNUSED, 0, -1, -1, Dead)

  function Living(pid: nat, parent: int): Proc { Proc(LIVE, pid, parent, -1, Idle) }

  // A chain of three forks
  lemma Chain(s: State)
    requires s == Four(Living(1, -1), UNUSED_SLOT, UNUSED_SLOT, UNUSED_SLOT, 2)
    ensures Start(s) && Reaches(s, Family())
  {
    assert Run(s, []) == s;
    ForkReaches(s, s, 0, 1);
    ForkReaches(s, Four(Living(1, -1), Living(2, 0), UNUSED_SLOT, UNUSED_SLOT, 3), 1, 2);
    ForkReaches(s, Four(Living(1, -1), Living(2, 0), Living(3, 1), UNUSED_SLOT, 4), 2, 3);
  }

  lemma ForkReaches(s: State, t: State, p: nat, q: nat)
    requires Reaches(s, t) && p < q < |t.procs| && t.procs[p].pc == Idle && t.procs[p].state == LIVE
    requires t.procs[q] == UNUSED_SLOT
    ensures Reaches(s, t.(procs := t.procs[q := Living(t.nextpid, p)], nextpid := t.nextpid + 1))
  {
    var x, y := t.procs[p], t.procs[q];
    StepReaches(s, t, p, Fork(q));
    var u := Next(t, p, Fork(q)).value;
    var v := State(t.procs[q := y.(lock := p, pid := t.nextpid)][p := x.(pc := Fork2(q))], t.nextpid + 1, t.reaped);
    GoReaches(s, u, p, v);
    var w := State(t.procs[q := y.(lock := p, pid := t.nextpid, parent := p)][p := x.(pc := Fork3(q))], t.nextpid + 1,
      t.reaped);
    GoReaches(s, v, p, w);
    GoReaches(s, w, p, State(t.procs[q := Living(t.nextpid, p)], t.nextpid + 1, t.reaped));
  }

  // The scan of reparent, over processes that are not children
  lemma {:induction false} ScanReaches(s: State, t: State, p: nat, op: nat, k: nat, n: nat)
    requires Reaches(s, t) && p < |t.procs| && t.procs[p].pc == Exit3(op, k) && t.procs[p].state == LIVE
    requires k <= n <= |t.procs|
    requires forall j :: k <= j < n ==> t.procs[j].parent != p
    ensures Reaches(s, To(t, p, Exit3(op, n)))
    decreases n - k
  {
    if k < n {
      GoReaches(s, t, p, To(t, p, Exit3(op, k + 1)));
      ScanReaches(s, To(t, p, Exit3(op, k + 1)), p, op, k + 1, n);
      assert To(To(t, p, Exit3(op, k + 1)), p, Exit3(op, n)).procs == To(t, p, Exit3(op, n)).procs;
    } else {
      assert To(t, p, Exit3(op, n)).procs == t.procs;
    }
  }

  lemma ExitBegins(s: State, t: State, p: nat)
    requires Reaches(s, t) && INIT < p < |t.procs| && t.procs[p].pc == Idle && t.procs[p].state == LIVE
    requires t.procs[INIT].lock == -1 && t.procs[INIT].state == LIVE
    ensures Reaches(s, To(t, p, Exit0))
  {
    StepReaches(s, t, p, Exit);
    assert Next(t, p, Exit).value.procs == To(t, p, Exit0).procs;
  }

  lemma ExitLocks(s: State, t: State, p: nat, op: nat)
    requires Reaches(s, t) && p < |t.procs| && op < |t.procs| && op != p && t.procs[op].lock == -1
    requires t.procs[p].pc == Exit0 && t.procs[p].state == LIVE && t.procs[p].lock == -1 && t.procs[p].parent == op
    ensures Reaches(s,
        t.(procs := t.procs[op := t.procs[op].(lock := p)][p := t.procs[p].(lock := p, pc := Exit3(op, 0))]))
  {
    GoReaches(s, t, p, To(t, p, Exit1(op)));
    var v := t.(procs := t.procs[op := t.procs[op].(lock := p)][p := t.procs[p].(pc := Exit2(op))]);
    ExitLocksParent(s, To(t, p, Exit1(op)), p, op, v);
    var w := t.(procs := t.procs[op := t.procs[op].(lock := p)][p := t.procs[p].(lock := p, pc := Exit3(op, 0))]);
    assert w.procs == v.procs[p := v.procs[p].(lock := p, pc := Exit3(op, 0))];
    ExitLocksSelf(s, v, p, op, w);
  }

  lemma ExitLocksParent(s: State, t: State, p: nat, op: nat, u: State)
    requires Reaches(s, t) && p < |t.procs| && op < |t.procs| && op != p && t.procs[op].lock == -1
    requires t.procs[p].pc == Exit1(op) && t.procs[p].state == LIVE
    requires u.procs == t.procs[op := t.procs[op].(lock := p)][p := t.procs[p].(pc := Exit2(op))]
    requires u.nextpid == t.nextpid && u.reaped == t.reaped
    ensures Reaches(s, u)
  {
    GoReaches(s, t, p, u);
  }

  lemma ExitLocksSelf(s: State, t: State, p: nat, op: nat, u: State)
    requires Reaches(s, t) && p < |t.procs| && t.procs[p].lock == -1
    requires t.procs[p].pc == Exit2(op) && t.procs[p].state == LIVE
    requires u.procs == t.procs[p := t.procs[p].(lock := p, pc := Exit3(op, 0))] && u.nextpid == t.nextpid
    requires u.reaped == t.reaped
    ensures Reaches(s, u)
  {
    GoReaches(s, t, p, u);
  }

  lemma ExitGives(s: State, t: State, p: nat, op: nat, k: nat)
    requires Reaches(s, t) && p < |t.procs| && k < |t.procs| && k != p && t.procs[k].parent == p
    requires t.procs[k].lock == -1
    requires t.procs[p].pc == Exit3(op, k) && t.procs[p].state == LIVE
    ensures Reaches(s,
        t.(procs := t.procs[k := t.procs[k].(parent := INIT, lock := -1)][p := t.procs[p].(pc := Exit3(op, k + 1))]))
  {
    var x, y := t.procs[p], t.procs[k];
    GoReaches(s, t, p, To(t, p, ExitWant(op, k)));
    var v := t.(procs := t.procs[k := y.(lock := p)][p := x.(pc := Exit4(op, k))]);
    ExitLocksChild(s, To(t, p, ExitWant(op, k)), p, op, k, v);
    var u := t.(procs := t.procs[k := y.(parent := INIT, lock := -1)][p := x.(pc := Exit3(op, k + 1))]);
    assert u.procs == v.procs[k := v.procs[k].(parent := INIT, lock := -1)][p := v.procs[p].(pc := Exit3(op, k + 1))];
    ExitUnlocksChild(s, v, p, op, k, u);
  }

  lemma ExitUnlocksChild(s: State, t: State, p: nat, op: nat, k: nat, u: State)
    requires Reaches(s, t) && p < |t.procs| && k < |t.procs| && k != p
    requires t.procs[p].pc == Exit4(op, k) && t.procs[p].state == LIVE
    requires u.procs == t.procs[k := t.procs[k].(parent := INIT, lock := -1)][p := t.procs[p].(pc := Exit3(op, k + 1))]
    requires u.nextpid == t.nextpid && u.reaped == t.reaped
    ensures Reaches(s, u)
  {
    GoReaches(s, t, p, u);
  }

  lemma ExitLocksChild(s: State, t: State, p: nat, op: nat, k: nat, u: State)
    requires Reaches(s, t) && p < |t.procs| && k < |t.procs| && k != p && t.procs[k].lock == -1
    requires t.procs[p].pc == ExitWant(op, k) && t.procs[p].state == LIVE
    requires u.procs == t.procs[k := t.procs[k].(lock := p)][p := t.procs[p].(pc := Exit4(op, k))]
    requires u.nextpid == t.nextpid && u.reaped == t.reaped
    ensures Reaches(s, u)
  {
    GoReaches(s, t, p, u);
  }

  lemma ExitEnds(s: State, t: State, p: nat, op: nat)
    requires Reaches(s, t) && p < |t.procs| && op < |t.procs| && op != p && t.procs[op].state == LIVE
    requires t.procs[p].pc == Exit3(op, |t.procs|) && t.procs[p].state == LIVE
    ensures Reaches(s,
        t.(procs := t.procs[op := t.procs[op].(lock := -1)][p := t.procs[p].(state := ZOMBIE, lock := -1, pc := Dead)]))
  {
    var x, y := t.procs[p], t.procs[op];
    var u := t.(procs := t.procs[p := x.(state := ZOMBIE, pc := Exit5(op))]);
    GoReaches(s, t, p, u);
    ExitUnlocks(s, u, p, op);
    assert u.procs[op := y.(lock := -1)][p := u.procs[p].(lock := -1, pc := Dead)]
      == t.procs[op := y.(lock := -1)][p := x.(state := ZOMBIE, lock := -1, pc := Dead)];
  }

  lemma ExitUnlocks(s: State, t: State, p: nat, op: nat)
    requires Reaches(s, t) && p < |t.procs| && op < |t.procs| && op != p && t.procs[p].pc == Exit5(op)
    requires t.procs[p].state == ZOMBIE
    ensures Reaches(s, t.(procs := t.procs[op := t.procs[op].(lock := -1)][p := t.procs[p].(lock := -1, pc := Dead)]))
  {
    var x, y := t.procs[p], t.procs[op];
    var v := t.(procs := t.procs[op := y.(lock := -1)][p := x.(pc := Exit6)]);
    GoReaches(s, t, p, v);
    GoReaches(s, v, p, t.(procs := t.procs[op := y.(lock := -1)][p := x.(lock := -1, pc := Dead)]));
  }

  // The scan of wait, over processes that are not children
  lemma {:induction false} WaitScans(s: State, t: State, p: nat, k: nat, n: nat, kids: bool)
    requires Reaches(s, t) && p < |t.procs| && t.procs[p].pc == Wait1(k, kids) && t.procs[p].state == LIVE
    requires k <= n <= |t.procs|
    requires forall j :: k <= j < n ==> t.procs[j].parent != p
    ensures Reaches(s, To(t, p, Wait1(n, kids)))
    decreases n - k
  {
    if k < n {
      GoReaches(s, t, p, To(t, p, Wait1(k + 1, kids)));
      WaitScans(s, To(t, p, Wait1(k + 1, kids)), p, k + 1, n, kids);
      assert To(To(t, p, Wait1(k + 1, kids)), p, Wait1(n, kids)).procs == To(t, p, Wait1(n, kids)).procs;
    } else {
      assert To(t, p, Wait1(n, kids)).procs == t.procs;
    }
  }

  lemma WaitBegins(s: State, t: State, p: nat)
    requires Reaches(s, t) && p < |t.procs| && t.procs[p].pc == Idle && t.procs[p].state == LIVE
    requires t.procs[p].lock == -1
    ensures Reaches(s, t.(procs := t.procs[p := t.procs[p].(lock := p, pc := Wait1(0, false))]))
  {
    StepReaches(s, t, p, Wait);
    assert Next(t, p, Wait).value.procs == t.procs[p := t.procs[p].(lock := p, pc := Wait1(0, false))];
  }

  lemma WaitPasses(s: State, t: State, p: nat, k: nat, kids: bool)
    requires Reaches(s, t) && p < |t.procs| && k < |t.procs| && k != p && t.procs[k].parent == p
    requires t.procs[k].lock == -1 && t.procs[k].state == LIVE
    requires t.procs[p].pc == Wait1(k, kids) && t.procs[p].state == LIVE
    ensures Reaches(s, To(t, p, Wait1(k + 1, true)))
  {
    var x, y := t.procs[p], t.procs[k];
    GoReaches(s, t, p, To(t, p, WaitWant(k, kids)));
    var v := t.(procs := t.procs[k := y.(lock := p)][p := x.(pc := Wait2(k, kids))]);
    WaitLocksChild(s, To(t, p, WaitWant(k, kids)), p, k, kids, v);
    var u := To(t, p, Wait1(k + 1, true));
    assert v.procs[k].(lock := -1) == y;
    assert u.procs == v.procs[k := v.procs[k].(lock := -1)][p := v.procs[p].(pc := Wait1(k + 1, true))];
    WaitUnlocksChild(s, v, p, k, kids, u);
  }

  lemma WaitUnlocksChild(s: State, t: State, p: nat, k: nat, kids: bool, u: State)
    requires Reaches(s, t) && p < |t.procs| && k < |t.procs| && k != p && t.procs[k].state == LIVE
    requires t.procs[p].pc == Wait2(k, kids) && t.procs[p].state == LIVE
    requires u.procs == t.procs[k := t.procs[k].(lock := -1)][p := t.procs[p].(pc := Wait1(k + 1, true))]
    requires u.nextpid == t.nextpid && u.reaped == t.reaped
    ensures Reaches(s, u)
  {
    GoReaches(s, t, p, u);
  }

  lemma WaitLocksChild(s: State, t: State, p: nat, k: nat, kids: bool, u: State)
    requires Reaches(s, t) && p < |t.procs| && k < |t.procs| && k != p && t.procs[k].lock == -1
    requires t.procs[p].pc == WaitWant(k, kids) && t.procs[p].state == LIVE
    requires u.procs == t.procs[k := t.procs[k].(lock := p)][p := t.procs[p].(pc := Wait2(k, kids))]
    requires u.nextpid == t.nextpid && u.reaped == t.reaped
    ensures Reaches(s, u)
  {
    GoReaches(s, t, p, u);
  }

  lemma WaitSleeps(s: State, t: State, p: nat)
    requires Reaches(s, t) && p < |t.procs| && t.procs[p].pc == Wait1(|t.procs|, true) && t.procs[p].state == LIVE
    ensures Reaches(s, t.(procs := t.procs[p := t.procs[p].(state := SLEEPING, lock := -1, pc := WaitAsleep)]))
  {
    var x := t.procs[p];
    var u := t.(procs := t.procs[p := x.(state := SLEEPING, pc := WaitSleep)]);
    GoReaches(s, t, p, u);
    GoReaches(s, u, p, t.(procs := t.procs[p := x.(state := SLEEPING, lock := -1, pc := WaitAsleep)]));
  }

  // ---------- the run ----------

  function Family(): State { Four(Living(1, -1), Living(2, 0), Living(3, 1), Living(4, 2), 5) }

  // Process 3 exits
  function Dying(lock: int, x: Proc): State { Four(Living(1, -1), Living(2, 0), Proc(LIVE, 3, 1, lock, Idle), x, 5) }

  // Process 2 has begun to exit
  function Waiting(init: Proc): State { Four(init, Living(2, 0), Proc(LIVE, 3, 1, -1, Exit0),
      Proc(ZOMBIE, 4, 2, -1, Dead), 5) }

  // init sleeps
  function Giving(lock: int, mid: Proc, parent: int): State {
    Four(Proc(SLEEPING, 1, -1, -1, WaitAsleep), Proc(LIVE, 2, 0, lock, Idle), mid, Proc(ZOMBIE, 4, parent, -1, Dead), 5)
  }

  function End(): State { Giving(-1, Proc(ZOMBIE, 3, 1, -1, Dead), INIT) }

  lemma YoungestExits(s: State)
    requires Reaches(s, Family())
    ensures Reaches(s, Dying(-1, Proc(ZOMBIE, 4, 2, -1, Dead)))
  {
    ExitBegins(s, Family(), 3);
    var t, u, v := Dying(-1, Proc(LIVE, 4, 2, -1, Exit0)), Dying(3, Proc(LIVE, 4, 2, 3, Exit3(2, 0))),
      Dying(3, Proc(LIVE, 4, 2, 3, Exit3(2, 4)));
    assert To(Family(), 3, Exit0).procs == t.procs;
    ExitLocks(s, t, 3, 2);
    assert t.procs[2 := t.procs[2].(lock := 3)][3 := t.procs[3].(lock := 3, pc := Exit3(2, 0))] == u.procs;
    ScanReaches(s, u, 3, 2, 0, 4);
    assert To(u, 3, Exit3(2, 4)).procs == v.procs;
    ExitEnds(s, v, 3, 2);
    var w := Dying(-1, Proc(ZOMBIE, 4, 2, -1, Dead));
    assert v.procs[2 := v.procs[2].(lock := -1)][3 := v.procs[3].(state := ZOMBIE, lock := -1, pc := Dead)] == w.procs;
  }

  // Process 2 begins to exit and wakes init, which only then waits
  lemma InitSleeps(s: State)
    requires Reaches(s, Dying(-1, Proc(ZOMBIE, 4, 2, -1, Dead)))
    ensures Reaches(s, Waiting(Proc(SLEEPING, 1, -1, -1, WaitAsleep)))
  {
    var t := Waiting(Living(1, -1));
    ExitBegins(s, Dying(-1, Proc(ZOMBIE, 4, 2, -1, Dead)), 2);
    assert To(Dying(-1, Proc(ZOMBIE, 4, 2, -1, Dead)), 2, Exit0).procs == t.procs;
    WaitBegins(s, t, INIT);
    var u, v := Waiting(Proc(LIVE, 1, -1, INIT, Wait1(0, false))), Waiting(Proc(LIVE, 1, -1, INIT, Wait1(1, false)));
    assert t.procs[INIT := t.procs[INIT].(lock := INIT, pc := Wait1(0, false))] == u.procs;
    WaitScans(s, u, INIT, 0, 1, false);
    assert To(u, INIT, Wait1(1, false)).procs == v.procs;
    InitFindsNone(s, v);
  }

  lemma InitFindsNone(s: State, v: State)
    requires v == Waiting(Proc(LIVE, 1, -1, INIT, Wait1(1, false))) && Reaches(s, v)
    ensures Reaches(s, Waiting(Proc(SLEEPING, 1, -1, -1, WaitAsleep)))
  {
    var x, y := Waiting(Proc(LIVE, 1, -1, INIT, Wait1(2, true))), Waiting(Proc(LIVE, 1, -1, INIT, Wait1(4, true)));
    WaitPasses(s, v, INIT, 1, false);
    assert To(v, INIT, Wait1(2, true)).procs == x.procs;
    WaitScans(s, x, INIT, 2, 4, true);
    assert To(x, INIT, Wait1(4, true)).procs == y.procs;
    WaitSleeps(s, y, INIT);
    var z := Waiting(Proc(SLEEPING, 1, -1, -1, WaitAsleep));
    assert y.procs[INIT := y.procs[INIT].(state := SLEEPING, lock := -1, pc := WaitAsleep)] == z.procs;
  }

  // Process 2 gives its zombie child to init and becomes a zombie
  lemma MiddleExits(s: State)
    requires Reaches(s, Waiting(Proc(SLEEPING, 1, -1, -1, WaitAsleep)))
    ensures Reaches(s, End())
  {
    var t, u, v := Waiting(Proc(SLEEPING, 1, -1, -1, WaitAsleep)), Giving(2, Proc(LIVE, 3, 1, 2, Exit3(1, 0)), 2),
      Giving(2, Proc(LIVE, 3, 1, 2, Exit3(1, 3)), 2);
    ExitLocks(s, t, 2, 1);
    assert t.procs[1 := t.procs[1].(lock := 2)][2 := t.procs[2].(lock := 2, pc := Exit3(1, 0))] == u.procs;
    ScanReaches(s, u, 2, 1, 0, 3);
    assert To(u, 2, Exit3(1, 3)).procs == v.procs;
    MiddleGives(s, v);
  }

  lemma MiddleGives(s: State, v: State)
    requires v == Giving(2, Proc(LIVE, 3, 1, 2, Exit3(1, 3)), 2) && Reaches(s, v)
    ensures Reaches(s, End())
  {
    var w := MiddleGave(v);
    ExitGives(s, v, 2, 1, 3);
    MiddleDies(s, w);
  }

  lemma MiddleGave(v: State) returns (w: State)
    requires v == Giving(2, Proc(LIVE, 3, 1, 2, Exit3(1, 3)), 2)
    ensures |v.procs| == 4 && w == Giving(2, Proc(LIVE, 3, 1, 2, Exit3(1, 4)), INIT)
    ensures w == v.(procs := v.procs[3 := v.procs[3].(parent := INIT, lock := -1)][2 := v.procs[2].(pc := Exit3(1, 4))])
    ensures v.procs[3].parent == 2 && v.procs[3].lock == -1
    ensures v.procs[2].pc == Exit3(1, 3) && v.procs[2].state == LIVE
  {
    w := Giving(2, Proc(LIVE, 3, 1, 2, Exit3(1, 4)), INIT);
    assert v.procs[3 := v.procs[3].(parent := INIT, lock := -1)][2 := v.procs[2].(pc := Exit3(1, 4))] == w.procs;
  }

  lemma MiddleDies(s: State, w: State)
    requires w == Giving(2, Proc(LIVE, 3, 1, 2, Exit3(1, 4)), INIT) && Reaches(s, w)
    ensures Reaches(s, End())
  {
    ExitEnds(s, w, 2, 1);
    assert w.procs[1 := w.procs[1].(lock := -1)][2 := w.procs[2].(state := ZOMBIE, lock := -1, pc := Dead)]
      == End().procs;
  }

  /** init may miss a wakeup: a run from the start that ends with every lock free, init asleep in
      wait and a zombie child of init. */
  lemma InitMayMiss() returns (s: State, steps: seq<(nat, Step)>)
    ensures Start(s) && |Run(s, steps).procs| == 4
    ensures !NothingMissed(Run(s, steps), INIT) && forall p :: 0 <= p < 4 ==> Run(s, steps).procs[p].lock == -1
  {
    s := Four(Living(1, -1), UNUSED_SLOT, UNUSED_SLOT, UNUSED_SLOT, 2);
    Chain(s);
    YoungestExits(s);
    InitSleeps(s);
    MiddleExits(s);
    var end := End();
    steps :| Run(s, steps) == end;
    assert end.procs[3].parent == INIT && end.procs[3].state == ZOMBIE;
  }

  // No run leaves process p asleep in wait with a zombie child
  ghost predicate NeverMisses(p: nat) {
    forall s, steps :: Start(s) && p < |Run(s, steps).procs| ==> NothingMissed(Run(s, steps), p)
  }

  /** Exactly init may sleep in wait while it has a zombie child. */
  lemma OnlyInitMisses(p: nat)
    ensures NeverMisses(p) <==> p != INIT
  {
    if p == INIT {
      var s, steps := InitMayMiss();
    } else {
      forall s, steps | Start(s) && p < |Run(s, steps).procs|
        ensures NothingMissed(Run(s, steps), p)
      {
        ForestInRuns(s, steps);
      }
    }
  }
}
