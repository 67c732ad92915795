/** Space in the log: begin_op admits an operation only while every admitted one could still
    log MAXOPBLOCKS blocks, log_write tests the space before it takes the lock, and end_op
    commits when the last operation leaves. Operations log at most `limit` distinct blocks. */
module LogReservation {
  import opened LogFormat

  const MAXOPBLOCKS: nat := 10
  const NPROC: nat := 64

  datatype Option<T> = None | Some(value: T)

  // `logged` are the blocks the operation has logged, `added` how many of them it added to the
  // log rather than absorbed, `pending` the block of a log_write that has passed the test.
  datatype Op = Op(logged: set<nat>, added: nat, pending: Option<nat>)

  datatype State = State(lh: seq<nat>, outstanding: nat, committing: bool, ops: seq<Option<Op>>, asleep: set<nat>,
      panicked: bool)

  datatype Step = Begin(t: nat) | Test(t: nat, b: nat) | Add(t: nat) | End(t: nat) | Committed

  function NoOps(n: nat): seq<Option<Op>> {
    seq(n, _ => None)
  }

  function Init(): State {
    State([], 0, false, NoOps(NPROC), {}, false)
  }

  // One more operation might not fit
  predicate TooFull(n: int, outstanding: int) { n + (outstanding + 1) * MAXOPBLOCKS > LOGSIZE }

  predicate NoRoom(s: State) {
    s.committing || TooFull(|s.lh|, s.outstanding)
  }

  function SetOp(s: State, t: nat, o: Option<Op>): State
    requires t < |s.ops|
  {
    s.(ops := s.ops[t := o])
  }

  /** The state after a step of a log of `size` blocks, if the step can be taken. */
  function Next(size: nat, limit: nat, s: State, a: Step): Option<State> {
    if s.panicked then None
    else if a.Committed? then
      if s.committing then Some(s.(lh := [], committing := false, asleep := {})) else None
    else if a.t >= |s.ops| then None
    else if a.Begin? then
      if s.ops[a.t].Some? then None
      else if NoRoom(s) then Some(s.(asleep := s.asleep + {a.t}))
      else Some(SetOp(s, a.t, Some(Op({}, 0, None))).(outstanding := s.outstanding + 1, asleep := s.asleep - {a.t}))
    else if s.ops[a.t].None? then None
    else
      var o := s.ops[a.t].value;
      match a
      case Test(t, b) =>
        if o.pending.Some? || |o.logged + {b}| > limit then None
        else if |s.lh| >= LOGSIZE || |s.lh| >= size - 1 || s.outstanding < 1 then Some(s.(panicked := true))
        else Some(SetOp(s, t, Some(o.(pending := Some(b)))))
      case Add(t) =>
        if o.pending.None? then None
        else
          var b := o.pending.value;
          var isNew := b !in s.lh;
          Some(SetOp(s, t, Some(Added(o, b, isNew))).(lh := if isNew then s.lh + [b] else s.lh))
      case End(t) =>
        if o.pending.Some? then None
        else if s.committing || s.outstanding == 0 then Some(s.(panicked := true))
        else
          var out := s.outstanding - 1;
          Some(SetOp(s, t, None).(outstanding := out, committing := out == 0, asleep := if out == 0 then s.asleep
            else {}))
  }

  // ---------- counting ----------

  function Left(o: Option<Op>, limit: nat): int {
    if o.None? then 0 else limit - o.value.added
  }

  // What the running operations may still add
  function Total(ops: seq<Option<Op>>, limit: nat): int {
    if ops == [] then 0 else Total(ops[..|ops| - 1], limit) + Left(ops[|ops| - 1], limit)
  }

  function Active(ops: seq<Option<Op>>): nat {
    if ops == [] then 0 else Active(ops[..|ops| - 1]) + if ops[|ops| - 1].Some? then 1 else 0
  }

  lemma {:induction false} SetOpCounts(ops: seq<Option<Op>>, t: nat, o: Option<Op>, limit: nat)
    requires t < |ops|
    ensures Total(ops[t := o], limit) == Total(ops, limit) - Left(ops[t], limit) + Left(o, limit)
    ensures Active(ops[t := o]) == Active(ops) - (if ops[t].Some? then 1 else 0) + (if o.Some? then 1 else 0)
  {
    var last := |ops| - 1;
    if t == last {
      assert ops[t := o][..last] == ops[..last];
    } else {
      assert ops[t := o][..last] == ops[..last][t := o];
      SetOpCounts(ops[..last], t, o, limit);
    }
  }

  lemma {:induction false} TotalBounds(ops: seq<Option<Op>>, limit: nat)
    requires forall t :: 0 <= t < |ops| ==> OpOk(ops[t], limit)
    ensures 0 <= Total(ops, limit) <= limit * Active(ops)
  {
    if ops != [] {
      var last := |ops| - 1;
      assert OpOk(ops[last], limit);
      TotalBounds(ops[..last], limit);
    }
  }

  lemma {:induction false} NoneActive(ops: seq<Option<Op>>, t: nat)
    requires t < |ops| && Active(ops) == 0
    ensures ops[t].None?
  {
    if t < |ops| - 1 {
      NoneActive(ops[..|ops| - 1], t);
    }
  }

  // ---------- the invariant ----------

  ghost predicate OpOk(o: Option<Op>, limit: nat) {
    o.Some? ==> o.value.added <= |o.value.logged| <= limit
  }

  ghost predicate OpLogged(s: State, limit: nat, t: nat)
    requires t < |s.ops|
  {
    s.ops[t].Some? ==>
      var o := s.ops[t].value;
      && (forall b :: b in o.logged ==> b in s.lh)
      && (o.pending.Some? ==> |o.logged + {o.pending.value}| <= limit)
  }

  ghost predicate Distinct(s: seq<nat>) {
    forall i, j :: 0 <= i < j < |s| ==> s[i] != s[j]
  }

  ghost predicate Inv(limit: nat, s: State) {
    && |s.ops| == NPROC && s.outstanding == Active(s.ops) && Distinct(s.lh)
    && (forall t :: 0 <= t < NPROC ==> OpOk(s.ops[t], limit))
    && (forall t :: 0 <= t < NPROC ==> OpLogged(s, limit, t))
    && |s.lh| + Total(s.ops, limit) <= MAXOPBLOCKS + 2 * limit
    && (s.committing ==> s.outstanding == 0)
    && (!s.committing && s.outstanding == 0 ==> s.lh == [])
    && (s.asleep != {} ==> NoRoom(s))
  }

  lemma BeginKept(size: nat, limit: nat, s: State, a: Step, t: State)
    requires limit <= MAXOPBLOCKS && Inv(limit, s) && Next(size, limit, s, a) == Some(t) && a.Begin?
    ensures Inv(limit, t) && !t.panicked
  {
    if !NoRoom(s) {
      SetOpCounts(s.ops, a.t, Some(Op({}, 0, None)), limit);
      TotalBounds(s.ops, limit);
      // the operations admitted so far hold back MAXOPBLOCKS - limit blocks each
      assert s.outstanding >= 1 ==> s.outstanding * (MAXOPBLOCKS - limit) >= MAXOPBLOCKS - limit;
      forall p | 0 <= p < NPROC
        ensures OpOk(t.ops[p], limit) && OpLogged(t, limit, p)
      {
        assert OpOk(s.ops[p], limit) && OpLogged(s, limit, p);
      }
      if s.outstanding == 0 {
        forall p | 0 <= p < NPROC
          ensures s.ops[p].None?
        {
          NoneActive(s.ops, p);
        }
      }
    } else {
      forall p | 0 <= p < NPROC
        ensures OpLogged(t, limit, p)
      {
        assert OpLogged(s, limit, p);
      }
    }
  }

  lemma TestKept(size: nat, limit: nat, s: State, a: Step, t: State)
    requires Inv(limit, s) && Next(size, limit, s, a) == Some(t) && a.Test?
    ensures Inv(limit, t)
    ensures t.panicked ==> |s.lh| >= LOGSIZE || |s.lh| >= size - 1
  {
    SetOpCounts(s.ops, a.t, t.ops[a.t], limit);
    SetOpCounts(s.ops, a.t, None, limit);
    assert t.ops == s.ops[a.t := t.ops[a.t]];
    forall p | 0 <= p < NPROC
      ensures OpOk(t.ops[p], limit) && OpLogged(t, limit, p)
    {
      assert OpOk(s.ops[p], limit) && OpLogged(s, limit, p);
    }
  }

  lemma AddKept(size: nat, limit: nat, s: State, a: Step, t: State)
    requires Inv(limit, s) && Next(size, limit, s, a) == Some(t) && a.Add?
    ensures Inv(limit, t) && !t.panicked
  {
    var o := s.ops[a.t].value;
    var b := o.pending.value;
    AddedOp(limit, s, a.t, o, b);
    AddedCounts(limit, s, a.t, o, b);
    forall p | 0 <= p < NPROC
      ensures OpOk(t.ops[p], limit)
    {
      assert OpOk(s.ops[p], limit);
    }
    forall p | 0 <= p < NPROC
      ensures OpLogged(t, limit, p)
    {
      assert OpLogged(s, limit, p);
    }
  }

  function Added(o: Op, b: nat, isNew: bool): Op {
    Op(o.logged + {b}, if isNew then o.added + 1 else o.added, None)
  }

  lemma AddedOp(limit: nat, s: State, t: nat, o: Op, b: nat)
    requires Inv(limit, s) && t < NPROC && s.ops[t] == Some(o) && o.pending == Some(b)
    ensures OpOk(Some(Added(o, b, b !in s.lh)), limit)
  {
    assert OpOk(s.ops[t], limit) && OpLogged(s, limit, t);
    if b in o.logged {
      assert o.logged + {b} == o.logged;
    } else {
      assert |o.logged + {b}| == |o.logged| + 1;
    }
  }

  lemma AddedCounts(limit: nat, s: State, t: nat, o: Op, b: nat)
    requires Inv(limit, s) && t < NPROC && s.ops[t] == Some(o)
    ensures
      var isNew := b !in s.lh;
      var ops := s.ops[t := Some(Added(o, b, isNew))];
      && Active(ops) == Active(s.ops) >= 1
      && Total(ops, limit) == Total(s.ops, limit) - if isNew then 1 else 0
  {
    SetOpCounts(s.ops, t, Some(Added(o, b, b !in s.lh)), limit);
    SetOpCounts(s.ops, t, None, limit);
  }

  lemma EndKept(size: nat, limit: nat, s: State, a: Step, t: State)
    requires limit <= MAXOPBLOCKS && Inv(limit, s) && Next(size, limit, s, a) == Some(t) && (a.End? || a.Committed?)
    ensures Inv(limit, t) && !t.panicked
  {
    if a.End? {
      assert OpOk(s.ops[a.t], limit);
      SetOpCounts(s.ops, a.t, None, limit);
    }
    forall p | 0 <= p < NPROC
      ensures OpOk(t.ops[p], limit) && OpLogged(t, limit, p)
    {
      assert OpOk(s.ops[p], limit) && OpLogged(s, limit, p);
      if a.Committed? {
        NoneActive(s.ops, p);
      }
    }
  }

  // ---------- whole runs ----------

  ghost function Exec(size: nat, limit: nat, run: seq<Step>): Option<State> {
    if run == [] then Some(Init())
    else
      var s := Exec(size, limit, run[..|run| - 1]);
      if s.None? then None else Next(size, limit, s.value, run[|run| - 1])
  }

  lemma {:induction false} InitCounts(n: nat, limit: nat)
    ensures Total(NoOps(n), limit) == 0 && Active(NoOps(n)) == 0
  {
    if n > 0 {
      assert NoOps(n)[..n - 1] == NoOps(n - 1);
      InitCounts(n - 1, limit);
    }
  }

  lemma {:induction false} RunKeepsInv(size: nat, limit: nat, run: seq<Step>)
    requires limit <= MAXOPBLOCKS && Exec(size, limit, run).Some?
    ensures Inv(limit, Exec(size, limit, run).value)
  {
    if run == [] {
      InitCounts(NPROC, limit);
    } else {
      var s, a, t := Exec(size, limit, run[..|run| - 1]).value, run[|run| - 1], Exec(size, limit, run).value;
      RunKeepsInv(size, limit, run[..|run| - 1]);
      match a
      case Begin(_) => BeginKept(size, limit, s, a, t);
      case Test(_, _) => TestKept(size, limit, s, a, t);
      case Add(_) => AddKept(size, limit, s, a, t);
      case _ => EndKept(size, limit, s, a, t);
    }
  }

  /** In every reachable state the log and what the running operations may still add to it fit in
      its array; it holds no block twice, is only committed with no operation running, is empty
      when idle, and lets an operation begin when idle; whoever sleeps in begin_op has cause to,
      and end_op does not panic. */
  lemma ReservationHolds(size: nat, limit: nat, run: seq<Step>)
    requires limit <= MAXOPBLOCKS && Exec(size, limit, run).Some?
    ensures var s := Exec(size, limit, run).value;
      && 0 <= Total(s.ops, limit) && |s.lh| + Total(s.ops, limit) <= MAXOPBLOCKS + 2 * limit <= LOGSIZE
      && Distinct(s.lh)
      && (s.committing ==> s.outstanding == 0)
      && (!s.committing && s.outstanding == 0 ==> s.lh == [] && !NoRoom(s))
      && (s.asleep != {} ==> NoRoom(s))
      && (forall t :: Next(size, limit, s, End(t)).Some? ==> !Next(size, limit, s, End(t)).value.panicked)
  {
    RunKeepsInv(size, limit, run);
    var s := Exec(size, limit, run).value;
    TotalBounds(s.ops, limit);
    forall t | Next(size, limit, s, End(t)).Some?
      ensures !Next(size, limit, s, End(t)).value.panicked
    {
      EndKept(size, limit, s, End(t), Next(size, limit, s, End(t)).value);
    }
  }

  /** What the test in log_write leaves for operations of `limit` distinct blocks. */
  predicate Fits(size: nat, limit: nat) {
    MAXOPBLOCKS + 2 * limit < LOGSIZE && MAXOPBLOCKS + 2 * limit < size - 1
  }

  lemma {:induction false} NeverPanics(size: nat, limit: nat, run: seq<Step>)
    requires limit <= MAXOPBLOCKS && Fits(size, limit) && Exec(size, limit, run).Some?
    ensures !Exec(size, limit, run).value.panicked
  {
    if run != [] {
      var s, a, t := Exec(size, limit, run[..|run| - 1]).value, run[|run| - 1], Exec(size, limit, run).value;
      RunKeepsInv(size, limit, run[..|run| - 1]);
      TotalBounds(s.ops, limit);
      match a
      case Begin(_) => BeginKept(size, limit, s, a, t);
      case Test(_, _) => TestKept(size, limit, s, a, t);
      case Add(_) => AddKept(size, limit, s, a, t);
      case _ => EndKept(size, limit, s, a, t);
    }
  }

  // ---------- and a run that does panic whenever there is not enough space ----------

  lemma Extend(size: nat, limit: nat, run: seq<Step>, a: Step)
    requires Exec(size, limit, run).Some?
    ensures Exec(size, limit, run + [a]) == Next(size, limit, Exec(size, limit, run).value, a)
  {
    assert (run + [a])[..|run + [a]| - 1] == run;
  }

  // A log_write by operation t of a block that is not logged yet
  lemma LogNew(size: nat, limit: nat, run: seq<Step>, t: nat, b: nat) returns (run': seq<Step>)
    requires Exec(size, limit, run).Some?
    requires
      var s := Exec(size, limit, run).value;
      && !s.panicked && t < |s.ops| && s.ops[t].Some? && s.ops[t].value.pending.None? && s.outstanding >= 1
      && b !in s.lh && |s.ops[t].value.logged + {b}| <= limit && |s.lh| < LOGSIZE && |s.lh| < size - 1
    ensures
      var s := Exec(size, limit, run).value;
      var o := s.ops[t].value;
      Exec(size, limit, run') == Some(SetOp(s, t, Some(Added(o, b, true))).(lh := s.lh + [b]))
  {
    Extend(size, limit, run, Test(t, b));
    Extend(size, limit, run + [Test(t, b)], Add(t));
    var s := Exec(size, limit, run).value;
    var s1 := Exec(size, limit, run + [Test(t, b)]).value;
    assert s1.ops[t := s.ops[t]] == s.ops;
    run' := run + [Test(t, b)] + [Add(t)];
    assert Exec(size, limit, run').value.ops == s.ops[t := Exec(size, limit, run').value.ops[t]];
  }

  // Operation 0 stays open without logging, while others come and go until m blocks are logged.
  ghost predicate OneOpen(s: State, m: nat) {
    && !s.panicked && !s.committing && s.outstanding == 1 && |s.lh| == m && (forall b :: b in s.lh ==> b < m)
    && |s.ops| == NPROC && s.ops[0] == Some(Op({}, 0, None)) && s.ops[1].None?
  }

  lemma {:induction false} Fill(size: nat, limit: nat, m: nat) returns (run: seq<Step>)
    requires 1 <= limit && m <= MAXOPBLOCKS && (m == 0 || m <= size - 1)
    ensures Exec(size, limit, run).Some? && OneOpen(Exec(size, limit, run).value, m)
  {
    if m == 0 {
      assert Exec(size, limit, []) == Some(Init());
      Extend(size, limit, [], Begin(0));
      run := [] + [Begin(0)];
    } else {
      run := Fill(size, limit, m - 1);
      Extend(size, limit, run, Begin(1));
      run := run + [Begin(1)];
      run := LogNew(size, limit, run, 1, m - 1);
      Extend(size, limit, run, End(1));
      run := run + [End(1)];
    }
  }

  // Operations 0 and 1 are open and have added j blocks between them, operation 0 first.
  ghost predicate TwoOpen(limit: nat, s: State, j: nat) {
    && !s.panicked && !s.committing && s.outstanding == 2
    && |s.lh| == MAXOPBLOCKS + j && (forall b :: b in s.lh ==> b < MAXOPBLOCKS + j)
    && |s.ops| == NPROC && OpenOp(s.ops[0], MAXOPBLOCKS + j, if j <= limit then j else limit)
    && OpenOp(s.ops[1], MAXOPBLOCKS + j, if j <= limit then 0 else j - limit)
  }

  ghost predicate OpenOp(o: Option<Op>, m: nat, n: nat) {
    o.Some? && o.value.pending.None? && |o.value.logged| == n && forall b :: b in o.value.logged ==> b < m
  }

  lemma SecondOpens(size: nat, limit: nat) returns (run: seq<Step>)
    requires 1 <= limit <= MAXOPBLOCKS && MAXOPBLOCKS <= size - 1
    ensures Exec(size, limit, run).Some? && TwoOpen(limit, Exec(size, limit, run).value, 0)
  {
    run := Fill(size, limit, MAXOPBLOCKS);
    Extend(size, limit, run, Begin(1));
    run := run + [Begin(1)];
  }

  lemma {:induction false} FillTwo(size: nat, limit: nat, j: nat) returns (run: seq<Step>)
    requires 1 <= limit <= MAXOPBLOCKS && j <= 2 * limit && MAXOPBLOCKS + j <= size - 1
    ensures Exec(size, limit, run).Some? && TwoOpen(limit, Exec(size, limit, run).value, j)
  {
    if j == 0 {
      run := SecondOpens(size, limit);
    } else {
      run := FillTwo(size, limit, j - 1);
      var t, b := if j <= limit then 0 else 1, MAXOPBLOCKS + j - 1;
      var s := Exec(size, limit, run).value;
      OneMore(limit, s, j - 1, t);
      run := LogNew(size, limit, run, t, b);
    }
  }

  lemma OneMore(limit: nat, s: State, j: nat, t: nat)
    requires TwoOpen(limit, s, j) && t == (if j < limit then 0 else 1) && j < 2 * limit
    ensures
      var b, o := MAXOPBLOCKS + j, s.ops[t].value;
      && b !in s.lh && |o.logged + {b}| == |o.logged| + 1 <= limit
      && TwoOpen(limit, SetOp(s, t, Some(Added(o, b, true))).(lh := s.lh + [b]), j + 1)
  {
    var b, o := MAXOPBLOCKS + j, s.ops[t].value;
    assert b !in o.logged;
  }

  lemma CanPanic(size: nat, limit: nat) returns (run: seq<Step>)
    requires 1 <= limit <= MAXOPBLOCKS && !Fits(size, limit)
    ensures Exec(size, limit, run).Some? && Exec(size, limit, run).value.panicked
  {
    var m := if size == 0 then 0 else if size - 1 <= LOGSIZE then size - 1 else LOGSIZE;
    var b := 0;
    if m <= MAXOPBLOCKS {
      run := Fill(size, limit, m);
    } else {
      run := FillTwo(size, limit, m - MAXOPBLOCKS);
      b :| b in Exec(size, limit, run).value.ops[0].value.logged;
      var o := Exec(size, limit, run).value.ops[0].value;
      assert o.logged + {b} == o.logged;
    }
    Extend(size, limit, run, Test(0, b));
    run := run + [Test(0, b)];
  }

  /** Operations of at most `limit` distinct blocks are safe from log_write's panic exactly
      when the log has more room than 10 + 2 * limit blocks. So mkfs's log of 30 blocks is
      enough for 9 blocks an operation, and no log is enough for MAXOPBLOCKS of them. */
  lemma PanicFreeIff(size: nat, limit: nat)
    requires 1 <= limit <= MAXOPBLOCKS
    ensures (forall run :: Exec(size, limit, run).Some? ==> !Exec(size, limit, run).value.panicked) <==>
        Fits(size, limit)
    ensures size == LOGSIZE ==> (Fits(size, limit) <==> limit < MAXOPBLOCKS)
    ensures limit == MAXOPBLOCKS ==> !Fits(size, limit)
  {
    if Fits(size, limit) {
      forall run | Exec(size, limit, run).Some?
        ensures !Exec(size, limit, run).value.panicked
      {
        NeverPanics(size, limit, run);
      }
    } else {
      var run := CanPanic(size, limit);
    }
  }
}
