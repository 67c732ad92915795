/** wait and the children it finds: who sleeps in wait has a child, and who has none is told so. */
module WaitReturns {
  import opened ProcTree

  ghost predicate HasChild(s: State, p: nat) {
    exists j :: 0 <= j < |s.procs| && s.procs[j].parent == p
  }

  // havekids is set only with a child there, and not set means that no slot passed holds one. Init gets
  // children from others at any time.
  ghost predicate KidsSoFar(s: State, p: nat, k: nat, kids: bool) {
    if kids then HasChild(s, p) else p != INIT ==> NoChildBelow(s, p, k)
  }

  ghost predicate KidsAt(s: State, p: nat)
    requires p < |s.procs|
  {
    match s.procs[p].pc
    case Wait1(k, kids) => KidsSoFar(s, p, k, kids)
    case WaitWant(k, kids) => KidsSoFar(s, p, k, kids)
    case Wait2(k, kids) => KidsSoFar(s, p, k, kids)
    case WaitSleep => HasChild(s, p)
    case WaitAsleep => HasChild(s, p)
    case _ => true
  }

  ghost predicate KidsOk(s: State) {
    Ok(s) && forall p :: 0 <= p < |s.procs| ==> KidsAt(s, p)
  }

  // A step of process q changes a parent only to q, from none, or from q; and it leaves the others where
  // they are, but for a process that it makes
  ghost predicate ChildMove(s: State, t: State, q: nat, j: nat) {
    && j < |s.procs| == |t.procs|
    && (t.procs[j].parent != s.procs[j].parent ==>
          && ((s.procs[j].parent == -1 && t.procs[j].parent == q) || s.procs[j].parent == q)
          && (t.procs[j].parent == q || t.procs[j].parent == INIT || t.procs[j].parent == -1))
    && (j != q ==> t.procs[j].pc == s.procs[j].pc || t.procs[j].pc == Idle)
  }

  lemma ForkMove(s: State, q: nat, a: Step, j: nat)
    requires q < |s.procs| && PcOk(s, q) && ForkNext(s, q, a).Some? && j < |s.procs|
    ensures ChildMove(s, ForkNext(s, q, a).value, q, j)
  {
  }

  lemma ExitMove(s: State, q: nat, a: Step, j: nat)
    requires q < |s.procs| && PcOk(s, q) && ExitNext(s, q, a).Some? && j < |s.procs|
    ensures ChildMove(s, ExitNext(s, q, a).value, q, j)
  {
  }

  lemma WaitMove(s: State, q: nat, a: Step, j: nat)
    requires q < |s.procs| && PcOk(s, q) && WaitNext(s, q, a).Some? && j < |s.procs|
    ensures ChildMove(s, WaitNext(s, q, a).value, q, j)
  {
  }

  lemma StepMove(s: State, q: nat, a: Step, j: nat)
    requires Ok(s) && q < |s.procs| && Next(s, q, a).Some? && j < |s.procs|
    ensures ChildMove(s, Next(s, q, a).value, q, j)
  {
    assert PcOk(s, q);
    if !a.Kill? {
      if ForkNext(s, q, a).Some? {
        ForkMove(s, q, a, j);
      } else if ExitNext(s, q, a).Some? {
        ExitMove(s, q, a, j);
      } else {
        WaitMove(s, q, a, j);
      }
    }
  }

  lemma OthersKids(s: State, q: nat, a: Step, p: nat)
    requires KidsOk(s) && q < |s.procs| && Next(s, q, a).Some? && p < |s.procs| && p != q
    ensures |Next(s, q, a).value.procs| == |s.procs| && KidsAt(Next(s, q, a).value, p)
  {
    var t := Next(s, q, a).value;
    assert KidsAt(s, p);
    StepMove(s, q, a, p);
    forall j | 0 <= j < |s.procs|
      ensures s.procs[j].parent == p ==> t.procs[j].parent == p
      ensures p != INIT && t.procs[j].parent == p ==> s.procs[j].parent == p
    {
      StepMove(s, q, a, j);
    }
    if HasChild(s, p) {
      var j :| 0 <= j < |s.procs| && s.procs[j].parent == p;
      assert t.procs[j].parent == p;
    }
  }

  lemma OwnKids(s: State, p: nat, a: Step)
    requires KidsOk(s) && p < |s.procs| && Next(s, p, a).Some?
    ensures |Next(s, p, a).value.procs| == |s.procs| && KidsAt(Next(s, p, a).value, p)
  {
    var t := Next(s, p, a).value;
    assert KidsAt(s, p) && PcOk(s, p);
    match s.procs[p].pc
    case Wait1(k, kids) => ScanKids(s, p, a);
    case WaitWant(k, kids) => ScanKids(s, p, a);
    case Wait2(k, kids) => ScanKids(s, p, a);
    case WaitSleep => ScanKids(s, p, a);
    case WaitAsleep => ScanKids(s, p, a);
    case _ =>
  }

  predicate InWait(pc: Pc) { pc.Wait1? || pc.WaitWant? || pc.Wait2? || pc.WaitSleep? || pc.WaitAsleep? }

  lemma ScanKids(s: State, p: nat, a: Step)
    requires KidsOk(s) && p < |s.procs| && Next(s, p, a).Some? && InWait(s.procs[p].pc)
    ensures |Next(s, p, a).value.procs| == |s.procs| && KidsAt(Next(s, p, a).value, p)
  {
    var t := Next(s, p, a).value;
    assert KidsAt(s, p) && PcOk(s, p);
    if InWait(t.procs[p].pc) {
      SameParents(s, p, a);
      if HasChild(s, p) {
        var j :| 0 <= j < |s.procs| && s.procs[j].parent == p;
        assert t.procs[j].parent == p;
      }
      if s.procs[p].pc.Wait2? {
        assert s.procs[s.procs[p].pc.k].parent == p;
      }
    }
  }

  lemma SameParents(s: State, p: nat, a: Step)
    requires Ok(s) && p < |s.procs| && Next(s, p, a).Some? && InWait(s.procs[p].pc)
    requires p < |Next(s, p, a).value.procs| && InWait(Next(s, p, a).value.procs[p].pc)
    ensures var t := Next(s, p, a).value;
            |t.procs| == |s.procs| && forall j :: 0 <= j < |s.procs| ==> t.procs[j].parent == s.procs[j].parent
  {
  }

  lemma {:induction false} RunKids(s: State, steps: seq<(nat, Step)>)
    requires Start(s)
    ensures KidsOk(Run(s, steps))
  {
    RunKeeps(s, steps);
    if steps != [] {
      var before, x := steps[..|steps| - 1], steps[|steps| - 1];
      RunKids(s, before);
      var t := Run(s, before);
      if x.0 < |t.procs| && Next(t, x.0, x.1).Some? {
        var u := Next(t, x.0, x.1).value;
        OwnKids(t, x.0, x.1);
        forall p | 0 <= p < |u.procs|
          ensures KidsAt(u, p)
        {
          if p != x.0 {
            OthersKids(t, x.0, x.1, p);
          }
        }
      }
    }
  }

  /** In every run, whoever sleeps in wait has a child. */
  lemma SleeperHasChild(s: State, steps: seq<(nat, Step)>, p: nat)
    requires Start(s)
    ensures var t := Run(s, steps);
            p < |t.procs| && t.procs[p].state == SLEEPING ==> HasChild(t, p)
  {
    RunKids(s, steps);
    var t := Run(s, steps);
    if p < |t.procs| && t.procs[p].state == SLEEPING {
      assert KidsAt(t, p) && PcOk(t, p);
    }
  }

  /** In every run, at the end of its scan, wait returns -1 to a process that was not killed exactly if
      that has no child, and else it sleeps. */
  lemma WaitDecides(s: State, steps: seq<(nat, Step)>, p: nat)
    requires Start(s)
    requires var t := Run(s, steps);
             && p < |t.procs| && p != INIT && t.procs[p].pc.Wait1? && t.procs[p].pc.k >= |t.procs|
             && Next(t, p, Go(false)).Some?
    ensures var t := Run(s, steps);
            var u := Next(t, p, Go(false)).value;
            && p < |u.procs|
            && (u.procs[p].pc == Idle <==> !HasChild(t, p)) && (u.procs[p].state == SLEEPING <==> HasChild(t, p))
  {
    RunKids(s, steps);
    var t := Run(s, steps);
    assert KidsAt(t, p) && PcOk(t, p);
  }

  /** In every run, whoever begins to exit leaves init awake, so that init looks for the children that
      it may be given. */
  lemma ExitWakesInit(s: State, steps: seq<(nat, Step)>, p: nat)
    requires Start(s)
    requires var t := Run(s, steps); p < |t.procs| && Next(t, p, Exit).Some?
    ensures var u := Next(Run(s, steps), p, Exit).value; |u.procs| > 0 && u.procs[INIT].state == LIVE
  {
    RunKeeps(s, steps);
    var t := Run(s, steps);
    assert TreeOk(t, INIT) && PcOk(t, INIT);
  }

  // ---------- at once ----------

  function Gos(p: nat, n: nat): seq<(nat, Step)> {
    if n == 0 then [] else Gos(p, n - 1) + [(p, Go(false))]
  }

  lemma {:induction false} RunAfter(s: State, x: (nat, Step), t: State, more: seq<(nat, Step)>)
    requires x.0 < |s.procs| && Next(s, x.0, x.1) == Some(t)
    ensures Run(s, [x] + more) == Run(t, more)
    decreases |more|
  {
    var all := [x] + more;
    if more == [] {
      assert all[..|all| - 1] == [] && all[|all| - 1] == x;
    } else {
      RunAfter(s, x, t, more[..|more| - 1]);
      assert all[..|all| - 1] == [x] + more[..|more| - 1];
    }
  }

  // ---------- a zombie child ----------

  // By steps of p alone
  ghost predicate Comes(s: State, p: nat, t: State) {
    exists n :: Run(s, Gos(p, n)) == t
  }

  lemma GoMore(s: State, p: nat, n: nat, t: State, u: State)
    requires Run(s, Gos(p, n)) == t && p < |t.procs| && Next(t, p, Go(false)) == Some(u)
    ensures Run(s, Gos(p, n + 1)) == u
  {
    var all := Gos(p, n + 1);
    assert all[..|all| - 1] == Gos(p, n);
  }

  lemma GoOn(s: State, p: nat, t: State, u: State)
    requires Comes(s, p, t) && p < |t.procs| && Next(t, p, Go(false)) == Some(u)
    ensures Comes(s, p, u)
  {
    var n :| Run(s, Gos(p, n)) == t;
    GoMore(s, p, n, t, u);
  }

  // The children below k are alive, and no one else has their locks
  ghost predicate LiveBelow(s: State, p: nat, k: nat) {
    forall j :: 0 <= j < k && j < |s.procs| && s.procs[j].parent == p ==>
      s.procs[j].lock == -1 && s.procs[j].state != ZOMBIE && j != p
  }

  // The steps of wait's loop, on a state that is s but for where p is
  lemma ScanNext(s: State, p: nat, k: nat, kids: bool, t: State)
    requires p < |s.procs| && s.procs[p].state == LIVE && k < |s.procs| && t == To(s, p, Wait1(k, kids))
    ensures Next(t, p, Go(false))
         == Some(To(s, p, if s.procs[k].parent == p then WaitWant(k, kids) else Wait1(k + 1, kids)))
  {
    var pc := if s.procs[k].parent == p then WaitWant(k, kids) else Wait1(k + 1, kids);
    assert t.procs[k].parent == s.procs[k].parent;
    assert t.procs[p := t.procs[p].(pc := pc)] == s.procs[p := s.procs[p].(pc := pc)];
    assert Next(t, p, Go(false)) == WaitNext(t, p, Go(false));
  }

  lemma LockNext(s: State, p: nat, k: nat, kids: bool, t: State)
    requires p < |s.procs| && s.procs[p].state == LIVE && k < |s.procs| && k != p && t == To(s, p, WaitWant(k, kids))
    requires s.procs[k].lock == -1
    ensures Next(t, p, Go(false)) == Some(To(Lock(s, p, k), p, Wait2(k, kids)))
  {
    var x, y := s.procs[k].(lock := p), s.procs[p].(pc := Wait2(k, kids));
    assert t.procs[k := x][p := y] == s.procs[k := x][p := y];
    assert Next(t, p, Go(false)) == WaitNext(t, p, Go(false));
  }

  lemma PassNext(s: State, p: nat, k: nat, kids: bool, t: State)
    requires p < |s.procs| && s.procs[p].state == LIVE && k < |s.procs| && k != p && s.procs[k].lock == -1
    requires t == To(Lock(s, p, k), p, Wait2(k, kids)) && s.procs[k].state != ZOMBIE
    ensures Next(t, p, Go(false)) == Some(To(s, p, Wait1(k + 1, true)))
  {
    assert t.procs[k].(lock := -1) == s.procs[k];
    assert t.procs[k := s.procs[k]][p := s.procs[p].(pc := Wait1(k + 1, true))]
      == s.procs[p := s.procs[p].(pc := Wait1(k + 1, true))];
    assert Next(t, p, Go(false)) == WaitNext(t, p, Go(false));
  }

  // ... as the next step of p's run
  lemma ScanMore(s0: State, s: State, p: nat, k: nat, kids: bool)
    requires p < |s.procs| && s.procs[p].state == LIVE && k < |s.procs|
    requires Comes(s0, p, To(s, p, Wait1(k, kids)))
    ensures Comes(s0, p, To(s, p, if s.procs[k].parent == p then WaitWant(k, kids) else Wait1(k + 1, kids)))
  {
    var t := To(s, p, Wait1(k, kids));
    ScanNext(s, p, k, kids, t);
    GoOn(s0, p, t, To(s, p, if s.procs[k].parent == p then WaitWant(k, kids) else Wait1(k + 1, kids)));
  }

  lemma LockMore(s0: State, s: State, p: nat, k: nat, kids: bool)
    requires p < |s.procs| && s.procs[p].state == LIVE && k < |s.procs| && k != p && s.procs[k].lock == -1
    requires Comes(s0, p, To(s, p, WaitWant(k, kids)))
    ensures Comes(s0, p, To(Lock(s, p, k), p, Wait2(k, kids)))
  {
    var t := To(s, p, WaitWant(k, kids));
    LockNext(s, p, k, kids, t);
    GoOn(s0, p, t, To(Lock(s, p, k), p, Wait2(k, kids)));
  }

  lemma PassMore(s0: State, s: State, p: nat, k: nat, kids: bool)
    requires p < |s.procs| && s.procs[p].state == LIVE && k < |s.procs| && k != p && s.procs[k].lock == -1
    requires s.procs[k].state != ZOMBIE && Comes(s0, p, To(Lock(s, p, k), p, Wait2(k, kids)))
    ensures Comes(s0, p, To(s, p, Wait1(k + 1, true)))
  {
    var t := To(Lock(s, p, k), p, Wait2(k, kids));
    PassNext(s, p, k, kids, t);
    GoOn(s0, p, t, To(s, p, Wait1(k + 1, true)));
  }

  // wait passes a child that is alive
  lemma PassesChild(s: State, p: nat, k: nat, kids: bool)
    requires p < |s.procs| && s.procs[p].state == LIVE && k < |s.procs| && k != p && s.procs[k].parent == p
    requires s.procs[k].lock == -1 && s.procs[k].state != ZOMBIE && Comes(s, p, To(s, p, Wait1(k, kids)))
    ensures Comes(s, p, To(s, p, Wait1(k + 1, true)))
  {
    ScanMore(s, s, p, k, kids);
    LockMore(s, s, p, k, kids);
    PassMore(s, s, p, k, kids);
  }

  lemma {:induction false} ScansTo(s: State, p: nat, k: nat) returns (kids: bool)
    requires p < |s.procs| && s.procs[p].pc == Wait1(0, false) && s.procs[p].state == LIVE && LiveBelow(s, p, k)
    requires k <= |s.procs|
    ensures Comes(s, p, To(s, p, Wait1(k, kids))) && (kids ==> HasChild(s, p))
  {
    if k == 0 {
      kids := false;
      assert s.procs[p := s.procs[p]] == s.procs;
      assert Run(s, Gos(p, 0)) == s;
    } else {
      var j := k - 1;
      kids := ScansTo(s, p, j);
      if s.procs[j].parent == p {
        PassesChild(s, p, j, kids);
        kids := true;
      } else {
        ScanMore(s, s, p, j, kids);
      }
    }
  }

  lemma LeaveNext(s: State, p: nat, t: State)
    requires p < |s.procs| && s.procs[p].state == LIVE && s.procs[p].pc == Idle && s.procs[p].lock == -1
    requires t == To(Lock(s, p, p), p, Wait1(|s.procs|, false))
    ensures Next(t, p, Go(false)) == Some(s)
  {
    var y := t.procs[p].(lock := -1);
    assert y.(pc := Idle) == s.procs[p];
    assert t.procs[p := y][p := s.procs[p]] == s.procs;
    assert Next(t, p, Go(false)) == WaitNext(t, p, Go(false));
  }

  lemma LeaveMore(s: State, t: State, p: nat)
    requires p < |s.procs| && s.procs[p].state == LIVE && s.procs[p].pc == Idle && s.procs[p].lock == -1
    requires t == To(Lock(s, p, p), p, Wait1(0, false)) && Comes(t, p, To(t, p, Wait1(|s.procs|, false)))
    ensures Comes(t, p, s)
  {
    var u := To(Lock(s, p, p), p, Wait1(|s.procs|, false));
    assert To(t, p, Wait1(|s.procs|, false)).procs == u.procs;
    LeaveNext(s, p, u);
    GoOn(t, p, u, s);
  }

  /** A process without children that calls wait is told so at once, by its own steps alone, and nothing
      has changed. */
  lemma WaitReturns(s: State, p: nat) returns (n: nat)
    requires Ok(s) && p < |s.procs| && s.procs[p].state == LIVE && s.procs[p].pc == Idle && s.procs[p].lock == -1
    requires !HasChild(s, p)
    ensures Run(s, [(p, Wait)] + Gos(p, n)) == s
  {
    var t := To(Lock(s, p, p), p, Wait1(0, false));
    assert Next(s, p, Wait) == Some(t);
    assert forall j :: 0 <= j < |s.procs| ==> t.procs[j].parent == s.procs[j].parent;
    var kids := ScansTo(t, p, |s.procs|);
    LeaveMore(s, t, p);
    n :| Run(t, Gos(p, n)) == s;
    RunAfter(s, (p, Wait), t, Gos(p, n));
  }

  // What is left when slot k has been freed and its pid noted
  function Collected(s: State, k: nat): State
    requires k < |s.procs|
  {
    State(s.procs[k := Proc(UNUSED, 0, -1, -1, s.procs[k].pc)], s.nextpid, s.reaped + {s.procs[k].pid})
  }

  /** A process with a zombie child that calls wait gets the first one at once, by its own steps alone:
      its slot is free again, its pid is noted as freed, and nothing else has changed. */
  lemma WaitCollects(s: State, p: nat, k: nat) returns (n: nat)
    requires Ok(s) && p < |s.procs| && s.procs[p].state == LIVE && s.procs[p].pc == Idle && s.procs[p].lock == -1
    requires k < |s.procs| && s.procs[k].parent == p && s.procs[k].state == ZOMBIE && s.procs[k].lock == -1
    requires LiveBelow(s, p, k)
    ensures Run(s, [(p, Wait)] + Gos(p, n)) == Collected(s, k)
  {
    var t := To(Lock(s, p, p), p, Wait1(0, false));
    assert Next(s, p, Wait) == Some(t);
    assert forall j :: 0 <= j < |s.procs| && j != p ==> t.procs[j] == s.procs[j];
    assert TreeOk(s, p);
    var kids := ScansTo(t, p, k);
    TakesZombie(s, t, p, k, kids);
    n :| Run(t, Gos(p, n)) == Collected(s, k);
    RunAfter(s, (p, Wait), t, Gos(p, n));
  }

  lemma ReapNext(s: State, p: nat, k: nat, kids: bool, t: State)
    requires p < |s.procs| && s.procs[p].state == LIVE && s.procs[p].pc == Idle && s.procs[p].lock == -1
    requires k < |s.procs| && k != p && s.procs[k].state == ZOMBIE
    requires t == To(Lock(Lock(s, p, p), p, k), p, Wait2(k, kids))
    ensures Next(t, p, Go(false)) == Some(Collected(s, k))
  {
    var x, y := Proc(UNUSED, 0, -1, -1, s.procs[k].pc), t.procs[p].(lock := -1);
    assert Freed(t.procs[k]) == x && y.(pc := Idle) == s.procs[p];
    assert t.procs[k := x][p := y][p := s.procs[p]] == s.procs[k := x];
    assert Next(t, p, Go(false)) == WaitNext(t, p, Go(false));
  }

  lemma ReapMore(s0: State, s: State, p: nat, k: nat, kids: bool)
    requires p < |s.procs| && s.procs[p].state == LIVE && s.procs[p].pc == Idle && s.procs[p].lock == -1
    requires k < |s.procs| && k != p && s.procs[k].state == ZOMBIE
    requires Comes(s0, p, To(Lock(Lock(s, p, p), p, k), p, Wait2(k, kids)))
    ensures Comes(s0, p, Collected(s, k))
  {
    var t := To(Lock(Lock(s, p, p), p, k), p, Wait2(k, kids));
    ReapNext(s, p, k, kids, t);
    GoOn(s0, p, t, Collected(s, k));
  }

  lemma TakesZombie(s: State, t: State, p: nat, k: nat, kids: bool)
    requires p < |s.procs| && s.procs[p].state == LIVE && s.procs[p].pc == Idle && s.procs[p].lock == -1
    requires k < |s.procs| && k != p && s.procs[k].parent == p && s.procs[k].state == ZOMBIE && s.procs[k].lock == -1
    requires t == To(Lock(s, p, p), p, Wait1(0, false)) && Comes(t, p, To(t, p, Wait1(k, kids)))
    ensures Comes(t, p, Collected(s, k))
  {
    ScanMore(t, t, p, k, kids);
    LockMore(t, t, p, k, kids);
    assert To(Lock(t, p, k), p, Wait2(k, kids)).procs == To(Lock(Lock(s, p, p), p, k), p, Wait2(k, kids)).procs;
    ReapMore(t, s, p, k, kids);
  }
}
