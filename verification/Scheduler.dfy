/** The scheduler: CPUs, kernel threads and the process locks that are handed over with a switch
    from one to the other. */
module Scheduler {

  datatype PState = UNUSED | SLEEPING | RUNNABLE | RUNNING | ZOMBIE

  // Where a kernel thread is: in any code, without its own lock; with its own lock; with its state
  // changed, about to call sched; switched out; switched in again; with intena restored; a new
  // process, before and in forkret.
  datatype Pc = Run | Has | Ready | Saved | Back | Restored | Fresh | Forkret

  // lock: the CPU that holds p->lock, or -1. others: the process locks, and spins: how many other
  // spinlocks, the thread holds. intena: sched's local variable. want is ghost: whether interrupts
  // were on when the thread took its first lock, which for a new process the scheduler does.
  datatype Proc = Proc(state: PState, lock: int, pc: Pc, others: set<nat>, spins: nat, intena: bool, want: bool,
      on: int)

  // The scheduler looking for a process; with p's lock; with p chosen; back from p; done with p
  datatype Mode = Idle | Locked(p: nat) | Chosen(p: nat) | Returned(p: nat) | Cleared(p: nat) | Thread(p: nat)

  datatype Cpu = Cpu(proc: int, noff: nat, intena: bool, intr: bool, mode: Mode)

  datatype State = State(procs: seq<Proc>, cpus: seq<Cpu>)

  datatype Option<T> = None | Some(value: T)

  datatype Step =
    // in the scheduler
    | IntrOn
    | Choose(p: nat)
    | Look
    | Switch
    | Clear
    | Unlock
    // in a thread
    | Spin
    | Unspin
    | Take(p: nat)
    | Drop(p: nat)
    | Change(p: nat)           // wakeup, kill: SLEEPING to RUNNABLE; wait: ZOMBIE to UNUSED; fork: UNUSED to RUNNABLE
    | Own
    | Disown
    | SetState(st: PState)
    | Sched
    | Restore
    | Stay                     // sleep with lk == &p->lock returns with the lock
    | Interrupts(on: bool)     // intr_on or intr_off in thread code

  // push_off and pop_off
  function PushOff(c: Cpu): Cpu {
    c.(noff := c.noff + 1, intr := false, intena := if c.noff == 0 then c.intr else c.intena)
  }

  function PopOff(c: Cpu): Cpu
    requires c.noff > 0
  {
    c.(noff := c.noff - 1, intr := c.noff == 1 && c.intena)
  }

  function SetProc(s: State, p: nat, q: Proc): State
    requires p < |s.procs|
  {
    s.(procs := s.procs[p := q])
  }

  function SetCpu(s: State, c: nat, d: Cpu): State
    requires c < |s.cpus|
  {
    s.(cpus := s.cpus[c := d])
  }

  function ChangeTo(st: PState): PState {
    match st
    case SLEEPING => RUNNABLE
    case ZOMBIE => UNUSED
    case UNUSED => RUNNABLE
    case _ => st
  }

  predicate HasOwn(pc: Pc) { pc == Has || pc == Ready || pc == Back || pc == Restored || pc == Forkret }

  // A step of the scheduler on CPU c
  function SchedulerNext(s: State, c: nat, a: Step): Option<State>
    requires c < |s.cpus|
  {
    var d := s.cpus[c];
    match a
    case IntrOn => if d.mode.Idle? then Some(SetCpu(s, c, d.(intr := true))) else None
    case Choose(p) =>
      if d.mode.Idle? && p < |s.procs| && s.procs[p].lock == -1
      then Some(SetProc(SetCpu(s, c, PushOff(d).(mode := Locked(p))), p, Handed(d, s.procs[p]).(lock := c))) else None
    case Look =>
      if d.mode.Locked? && d.mode.p < |s.procs| then
        var p := d.mode.p;
        if s.procs[p].state == RUNNABLE
        then Some(SetProc(SetCpu(s, c, d.(proc := p, mode := Chosen(p))), p, s.procs[p].(state := RUNNING)))
        else Some(SetCpu(s, c, d.(mode := Cleared(p))))
      else None
    case Switch =>
      if d.mode.Chosen? && d.mode.p < |s.procs| then
        var p := d.mode.p;
        Some(SetProc(SetCpu(s, c, d.(mode := Thread(p))), p,
          s.procs[p].(pc := if s.procs[p].pc == Fresh then Forkret else Back, on := c)))
      else None
    case Clear => if d.mode.Returned? then Some(SetCpu(s, c, d.(proc := -1, mode := Cleared(d.mode.p)))) else None
    case Unlock =>
      if d.mode.Cleared? && d.mode.p < |s.procs| && d.noff > 0
      then Some(SetProc(SetCpu(s, c, PopOff(d).(mode := Idle)), d.mode.p, s.procs[d.mode.p].(lock := -1))) else None
    case _ => None
  }

  // A step of thread p on CPU c
  function ThreadNext(s: State, c: nat, p: nat, a: Step): Option<State>
    requires c < |s.cpus| && p < |s.procs|
  {
    var d, t := s.cpus[c], s.procs[p];
    match a
    case Interrupts(on) => if d.noff == 0 then Some(SetCpu(s, c, d.(intr := on))) else None
    case Spin => if t.pc == Run
      || t.pc == Has then Some(SetProc(SetCpu(s, c, PushOff(d)), p, t.(spins := t.spins + 1, want := First(d, t))))
      else None
    case Unspin =>
      if (t.pc == Run || t.pc == Has || t.pc == Ready) && t.spins > 0 && d.noff > 0
      then Some(SetProc(SetCpu(s, c, PopOff(d)), p, t.(spins := t.spins - 1))) else None
    case Take(q) =>
      if (t.pc == Run || t.pc == Has) && q < |s.procs| && q != p && s.procs[q].lock == -1
      then Some(SetProc(SetProc(SetCpu(s, c, PushOff(d)), p, t.(others := t.others + {q}, want := First(d, t))), q,
        s.procs[q].(lock := c)))
      else None
    case Drop(q) =>
      if (t.pc == Run || t.pc == Has || t.pc == Ready) && q in t.others && q < |s.procs| && q != p && d.noff > 0
      then Some(SetProc(SetProc(SetCpu(s, c, PopOff(d)), p, t.(others := t.others - {q})), q, s.procs[q].(lock := -1)))
      else None
    case Change(q) =>
      if (t.pc == Run || t.pc == Has) && q in t.others && q < |s.procs| && q != p
      then Some(SetProc(s, q,
        s.procs[q].(state := ChangeTo(s.procs[q].state), pc := if s.procs[q].state == UNUSED then Fresh
        else s.procs[q].pc)))
      else None
    case Own =>
      if t.pc == Run && t.lock == -1
      then Some(SetProc(SetCpu(s, c, PushOff(d)), p, t.(pc := Has, lock := c, want := First(d, t))))
      else None
    case Disown =>
      if (t.pc == Has || t.pc == Restored || t.pc == Forkret) && d.noff > 0
      then Some(SetProc(SetCpu(s, c, PopOff(d)), p, t.(pc := Run, lock := -1))) else None
    case SetState(st) =>
      if t.pc == Has && (st == RUNNABLE || st == SLEEPING || st == ZOMBIE)
      then Some(SetProc(s, p, t.(pc := Ready, state := st)))
      else None
    case Sched =>
      if t.pc == Ready && d.noff == 1      // otherwise sched panics
      then Some(SetProc(SetCpu(s, c, d.(mode := Returned(p))), p, t.(pc := Saved, intena := d.intena, on := -1)))
        else None
    case Restore => if t.pc == Back then Some(SetProc(SetCpu(s, c, d.(intena := t.intena)), p, t.(pc := Restored)))
      else None
    case Stay => if t.pc == Restored then Some(SetProc(s, p, t.(pc := Has))) else None
    case _ => None
  }

  // The lock that the scheduler takes is a new process's first
  function Handed(d: Cpu, t: Proc): Proc { if t.pc == Fresh then t.(want := d.intr) else t }

  // What the thread's intena will be restored to: set by its first lock
  function First(d: Cpu, t: Proc): bool { if d.noff == 0 then d.intr else t.want }

  function Next(s: State, c: nat, a: Step): Option<State>
    requires c < |s.cpus|
  {
    if s.cpus[c].mode.Thread? then
      if s.cpus[c].mode.p < |s.procs| then ThreadNext(s, c, s.cpus[c].mode.p, a) else None
    else SchedulerNext(s, c, a)
  }

  // ---------- the invariant ----------

  function Depth(t: Proc): nat { |t.others| + t.spins + (if HasOwn(t.pc) then 1 else 0) }

  // CPU c
  ghost predicate CpuOk(s: State, c: nat)
    requires c < |s.cpus|
  {
    var d := s.cpus[c];
    && (d.noff > 0 ==> !d.intr)
    && (match d.mode
        case Idle => d.proc == -1 && d.noff == 0
        case Locked(p) => d.proc == -1 && d.noff == 1 && p < |s.procs| && s.procs[p].lock == c
          && (s.procs[p].pc == Fresh ==> d.intena == s.procs[p].want)
        case Chosen(p) => d.proc == p && d.noff == 1 && p < |s.procs| && s.procs[p].lock == c && s.procs[p].on == -1
          && s.procs[p].state == RUNNING && (s.procs[p].pc == Fresh ==> d.intena == s.procs[p].want)
        case Returned(p) => d.proc == p && d.noff == 1 && p < |s.procs| && s.procs[p].lock == c && s.procs[p].on == -1
        case Cleared(p) => d.proc == -1 && d.noff == 1 && p < |s.procs| && s.procs[p].lock == c
        case Thread(p) =>
          && d.proc == p && p < |s.procs| && s.procs[p].on == c && d.noff == Depth(s.procs[p])
          && (d.noff > 0 && s.procs[p].pc != Back ==> d.intena == s.procs[p].want))
  }

  // CPU c holds process p's lock: as scheduler, as p, or as another thread
  ghost predicate Holds(s: State, c: nat, p: nat)
    requires c < |s.cpus| && p < |s.procs|
  {
    match s.cpus[c].mode
    case Idle => false
    case Thread(q) => q < |s.procs| && if q == p then HasOwn(s.procs[p].pc) else p in s.procs[q].others
    case Locked(q) => q == p
    case Chosen(q) => q == p
    case Returned(q) => q == p
    case Cleared(q) => q == p
  }

  // Thread code runs
  predicate OnStack(pc: Pc) { pc != Saved && pc != Fresh }

  // Process p
  ghost predicate ProcOk(s: State, p: nat)
    requires p < |s.procs|
  {
    var t := s.procs[p];
    && -1 <= t.lock < |s.cpus| && -1 <= t.on < |s.cpus| && p !in t.others
    && (forall q :: q in t.others ==> q < |s.procs|)
    && (t.lock >= 0 ==> Holds(s, t.lock, p))
    && (t.on >= 0 <==> OnStack(t.pc))
    && (t.on >= 0 ==>
         s.cpus[t.on].mode == Thread(p) && (HasOwn(t.pc) ==> t.lock == t.on) && (t.state == RUNNING <==> t.pc != Ready))
    && (t.on >= 0 ==> forall q :: q in t.others ==> s.procs[q].lock == t.on)
    && (t.on == -1 ==>
         t.others == {} && t.spins == 0 && (t.state == RUNNING ==> t.lock >= 0 && s.cpus[t.lock].mode == Chosen(p)))
    && ((t.pc == Saved && t.state != UNUSED) || t.pc == Back ==> t.intena == t.want)
    && (t.pc == Back || t.pc == Restored || t.pc == Forkret ==> t.others == {} && t.spins == 0)
  }

  ghost predicate Ok(s: State) {
    (forall c :: 0 <= c < |s.cpus| ==> CpuOk(s, c)) && forall p :: 0 <= p < |s.procs| ==> ProcOk(s, p)
  }

  lemma ChooseKeeps(s: State, c: nat, a: Step)
    requires Ok(s) && c < |s.cpus| && !s.cpus[c].mode.Thread? && a.Choose? && SchedulerNext(s, c, a).Some?
    ensures Ok(SchedulerNext(s, c, a).value)
  {
    var u := SchedulerNext(s, c, a).value;
    assert CpuOk(s, c);
    assert ProcOk(s, a.p);
    forall e | 0 <= e < |u.cpus|
      ensures CpuOk(u, e)
    {
      assert CpuOk(s, e);
    }
    forall r | 0 <= r < |u.procs|
      ensures ProcOk(u, r)
    {
      assert ProcOk(s, r);
    }
  }

  lemma LookCpu(s: State, c: nat, a: Step, e: nat)
    requires Ok(s) && c < |s.cpus| && !s.cpus[c].mode.Thread? && a.Look? && SchedulerNext(s, c, a).Some? && e < |s.cpus|
    ensures |SchedulerNext(s, c, a).value.cpus| == |s.cpus| && CpuOk(SchedulerNext(s, c, a).value, e)
  {
    assert CpuOk(s, c) && CpuOk(s, e);
    assert ProcOk(s, s.cpus[c].mode.p);
  }

  lemma LookProc(s: State, c: nat, a: Step, r: nat)
    requires Ok(s) && c < |s.cpus| && !s.cpus[c].mode.Thread? && a.Look? && SchedulerNext(s, c, a).Some?
    requires r < |s.procs|
    ensures |SchedulerNext(s, c, a).value.procs| == |s.procs| && ProcOk(SchedulerNext(s, c, a).value, r)
  {
    assert CpuOk(s, c) && ProcOk(s, r);
    assert ProcOk(s, s.cpus[c].mode.p);
  }

  lemma LookKeeps(s: State, c: nat, a: Step)
    requires Ok(s) && c < |s.cpus| && !s.cpus[c].mode.Thread? && a.Look? && SchedulerNext(s, c, a).Some?
    ensures Ok(SchedulerNext(s, c, a).value)
  {
    var u := SchedulerNext(s, c, a).value;
    forall e | 0 <= e < |u.cpus|
      ensures CpuOk(u, e)
    {
      LookCpu(s, c, a, e);
    }
    forall r | 0 <= r < |u.procs|
      ensures ProcOk(u, r)
    {
      LookProc(s, c, a, r);
    }
  }

  lemma SwitchKeeps(s: State, c: nat, a: Step)
    requires Ok(s) && c < |s.cpus| && !s.cpus[c].mode.Thread? && a.Switch? && SchedulerNext(s, c, a).Some?
    ensures Ok(SchedulerNext(s, c, a).value)
  {
    var u := SchedulerNext(s, c, a).value;
    assert CpuOk(s, c);
    assert ProcOk(s, s.cpus[c].mode.p);
    forall e | 0 <= e < |u.cpus|
      ensures CpuOk(u, e)
    {
      assert CpuOk(s, e);
    }
    forall r | 0 <= r < |u.procs|
      ensures ProcOk(u, r)
    {
      assert ProcOk(s, r);
    }
  }

  lemma UnlockKeeps(s: State, c: nat, a: Step)
    requires Ok(s) && c < |s.cpus| && !s.cpus[c].mode.Thread? && (a.Clear? || a.Unlock? || a.IntrOn?)
    requires SchedulerNext(s, c, a).Some?
    ensures Ok(SchedulerNext(s, c, a).value)
  {
    var u := SchedulerNext(s, c, a).value;
    assert CpuOk(s, c);
    if !a.IntrOn? {
      assert ProcOk(s, s.cpus[c].mode.p);
    }
    forall e | 0 <= e < |u.cpus|
      ensures CpuOk(u, e)
    {
      assert CpuOk(s, e);
    }
    forall r | 0 <= r < |u.procs|
      ensures ProcOk(u, r)
    {
      assert ProcOk(s, r);
    }
  }

  lemma SpinCpu(s: State, c: nat, p: nat, a: Step, e: nat)
    requires Ok(s) && c < |s.cpus| && s.cpus[c].mode == Thread(p) && p < |s.procs|
    requires (a.Spin? || a.Unspin? || a.Interrupts?) && ThreadNext(s, c, p, a).Some? && e < |s.cpus|
    ensures |ThreadNext(s, c, p, a).value.cpus| == |s.cpus| && CpuOk(ThreadNext(s, c, p, a).value, e)
  {
    assert CpuOk(s, c) && CpuOk(s, e);
    assert ProcOk(s, p);
  }

  lemma SpinProc(s: State, c: nat, p: nat, a: Step, r: nat)
    requires Ok(s) && c < |s.cpus| && s.cpus[c].mode == Thread(p) && p < |s.procs|
    requires (a.Spin? || a.Unspin? || a.Interrupts?) && ThreadNext(s, c, p, a).Some? && r < |s.procs|
    ensures |ThreadNext(s, c, p, a).value.procs| == |s.procs| && ProcOk(ThreadNext(s, c, p, a).value, r)
  {
    assert CpuOk(s, c) && ProcOk(s, r);
    assert ProcOk(s, p);
  }

  lemma SpinKeeps(s: State, c: nat, p: nat, a: Step)
    requires Ok(s) && c < |s.cpus| && s.cpus[c].mode == Thread(p) && p < |s.procs|
    requires (a.Spin? || a.Unspin? || a.Interrupts?) && ThreadNext(s, c, p, a).Some?
    ensures Ok(ThreadNext(s, c, p, a).value)
  {
    var u := ThreadNext(s, c, p, a).value;
    forall e | 0 <= e < |u.cpus|
      ensures CpuOk(u, e)
    {
      SpinCpu(s, c, p, a, e);
    }
    forall r | 0 <= r < |u.procs|
      ensures ProcOk(u, r)
    {
      SpinProc(s, c, p, a, r);
    }
  }

  lemma TakeCpu(s: State, c: nat, p: nat, a: Step, e: nat)
    requires Ok(s) && c < |s.cpus| && s.cpus[c].mode == Thread(p) && p < |s.procs| && a.Take?
    requires ThreadNext(s, c, p, a).Some? && e < |s.cpus|
    ensures |ThreadNext(s, c, p, a).value.cpus| == |s.cpus| && CpuOk(ThreadNext(s, c, p, a).value, e)
  {
    assert CpuOk(s, c) && CpuOk(s, e);
    assert ProcOk(s, p);
    assert ProcOk(s, a.p);
  }

  // Thread p takes process q's lock
  ghost function Took(s: State, c: nat, p: nat, q: nat): State
    requires c < |s.cpus| && p < |s.procs| && q < |s.procs|
  {
    var d, t := s.cpus[c], s.procs[p];
    SetProc(SetProc(SetCpu(s, c, PushOff(d)), p, t.(others := t.others + {q}, want := First(d, t))), q,
      s.procs[q].(lock := c))
  }

  ghost predicate CanTake(s: State, c: nat, p: nat, q: nat) {
    && Ok(s) && c < |s.cpus| && s.cpus[c].mode == Thread(p) && p < |s.procs| && q < |s.procs| && q != p
    && (s.procs[p].pc == Run || s.procs[p].pc == Has) && s.procs[q].lock == -1
  }

  lemma TakeSelf(s: State, c: nat, p: nat, q: nat)
    requires CanTake(s, c, p, q)
    ensures ProcOk(Took(s, c, p, q), p)
  {
    assert CpuOk(s, c) && ProcOk(s, p) && ProcOk(s, q);
  }

  lemma TakeOther(s: State, c: nat, p: nat, q: nat)
    requires CanTake(s, c, p, q)
    ensures ProcOk(Took(s, c, p, q), q)
  {
    assert CpuOk(s, c) && ProcOk(s, p) && ProcOk(s, q);
  }

  lemma TakeRest(s: State, c: nat, p: nat, q: nat, r: nat)
    requires CanTake(s, c, p, q) && r < |s.procs| && r != p && r != q
    ensures ProcOk(Took(s, c, p, q), r)
  {
    assert CpuOk(s, c) && ProcOk(s, r) && ProcOk(s, p);
    TookLocks(s, c, p, q, r);
  }

  // What process r's clause speaks of is as it was
  lemma TookLocks(s: State, c: nat, p: nat, q: nat, r: nat)
    requires c < |s.cpus| && p < |s.procs| && q < |s.procs| && r < |s.procs| && r != p && r != q
    requires s.cpus[c].mode == Thread(p)
    requires s.procs[q].lock == -1 && ProcOk(s, r)
    ensures var u := Took(s, c, p, q);
            && u.procs[r] == s.procs[r] && (s.procs[r].lock >= 0 ==> Holds(u, s.procs[r].lock, r))
            && (s.procs[r].on >= 0 ==> forall x :: x in s.procs[r].others ==> u.procs[x].lock == s.procs[r].on)
            && forall e :: 0 <= e < |s.cpus| ==> u.cpus[e].mode == s.cpus[e].mode
  {
  }

  lemma TakeProc(s: State, c: nat, p: nat, a: Step, r: nat)
    requires Ok(s) && c < |s.cpus| && s.cpus[c].mode == Thread(p) && p < |s.procs| && a.Take?
    requires ThreadNext(s, c, p, a).Some? && r < |s.procs|
    ensures |ThreadNext(s, c, p, a).value.procs| == |s.procs| && ProcOk(ThreadNext(s, c, p, a).value, r)
  {
    if r == p {
      TakeSelf(s, c, p, a.p);
    } else if r == a.p {
      TakeOther(s, c, p, a.p);
    } else {
      TakeRest(s, c, p, a.p, r);
    }
  }

  lemma TakeKeeps(s: State, c: nat, p: nat, a: Step)
    requires Ok(s) && c < |s.cpus| && s.cpus[c].mode == Thread(p) && p < |s.procs| && a.Take?
    requires ThreadNext(s, c, p, a).Some?
    ensures Ok(ThreadNext(s, c, p, a).value)
  {
    var u := ThreadNext(s, c, p, a).value;
    forall e | 0 <= e < |u.cpus|
      ensures CpuOk(u, e)
    {
      TakeCpu(s, c, p, a, e);
    }
    forall r | 0 <= r < |u.procs|
      ensures ProcOk(u, r)
    {
      TakeProc(s, c, p, a, r);
    }
  }

  lemma DropCpu(s: State, c: nat, p: nat, a: Step, e: nat)
    requires Ok(s) && c < |s.cpus| && s.cpus[c].mode == Thread(p) && p < |s.procs| && a.Drop?
    requires ThreadNext(s, c, p, a).Some? && e < |s.cpus|
    ensures |ThreadNext(s, c, p, a).value.cpus| == |s.cpus| && CpuOk(ThreadNext(s, c, p, a).value, e)
  {
    assert CpuOk(s, c) && CpuOk(s, e);
    assert ProcOk(s, p);
    assert ProcOk(s, a.p);
  }

  // Thread p gives process q's lock back
  ghost function Gave(s: State, c: nat, p: nat, q: nat): State
    requires c < |s.cpus| && p < |s.procs| && q < |s.procs| && s.cpus[c].noff > 0
  {
    var t := s.procs[p];
    SetProc(SetProc(SetCpu(s, c, PopOff(s.cpus[c])), p, t.(others := t.others - {q})), q, s.procs[q].(lock := -1))
  }

  ghost predicate CanDrop(s: State, c: nat, p: nat, q: nat) {
    && Ok(s) && c < |s.cpus| && s.cpus[c].mode == Thread(p) && p < |s.procs| && q < |s.procs| && q != p
    && (s.procs[p].pc == Run || s.procs[p].pc == Has || s.procs[p].pc == Ready) && q in s.procs[p].others
    && s.cpus[c].noff > 0
  }

  lemma DropTwo(s: State, c: nat, p: nat, q: nat, r: nat)
    requires CanDrop(s, c, p, q) && (r == p || r == q)
    ensures ProcOk(Gave(s, c, p, q), r)
  {
    assert CpuOk(s, c) && ProcOk(s, p) && ProcOk(s, q);
  }

  lemma DropRest(s: State, c: nat, p: nat, q: nat, r: nat)
    requires CanDrop(s, c, p, q) && r < |s.procs| && r != p && r != q
    ensures ProcOk(Gave(s, c, p, q), r)
  {
    assert CpuOk(s, c) && ProcOk(s, r);
    assert ProcOk(s, p) && ProcOk(s, q);
  }

  lemma DropProc(s: State, c: nat, p: nat, a: Step, r: nat)
    requires Ok(s) && c < |s.cpus| && s.cpus[c].mode == Thread(p) && p < |s.procs| && a.Drop?
    requires ThreadNext(s, c, p, a).Some? && r < |s.procs|
    ensures |ThreadNext(s, c, p, a).value.procs| == |s.procs| && ProcOk(ThreadNext(s, c, p, a).value, r)
  {
    if r == p || r == a.p {
      DropTwo(s, c, p, a.p, r);
    } else {
      DropRest(s, c, p, a.p, r);
    }
  }

  lemma DropKeeps(s: State, c: nat, p: nat, a: Step)
    requires Ok(s) && c < |s.cpus| && s.cpus[c].mode == Thread(p) && p < |s.procs| && a.Drop?
    requires ThreadNext(s, c, p, a).Some?
    ensures Ok(ThreadNext(s, c, p, a).value)
  {
    var u := ThreadNext(s, c, p, a).value;
    forall e | 0 <= e < |u.cpus|
      ensures CpuOk(u, e)
    {
      DropCpu(s, c, p, a, e);
    }
    forall r | 0 <= r < |u.procs|
      ensures ProcOk(u, r)
    {
      DropProc(s, c, p, a, r);
    }
  }

  lemma ChangeKeeps(s: State, c: nat, p: nat, a: Step)
    requires Ok(s) && c < |s.cpus| && s.cpus[c].mode == Thread(p) && p < |s.procs| && a.Change?
    requires ThreadNext(s, c, p, a).Some?
    ensures Ok(ThreadNext(s, c, p, a).value)
  {
    var u := ThreadNext(s, c, p, a).value;
    assert CpuOk(s, c);
    assert ProcOk(s, p);
    assert ProcOk(s, a.p);
    forall e | 0 <= e < |u.cpus|
      ensures CpuOk(u, e)
    {
      assert CpuOk(s, e);
    }
    forall r | 0 <= r < |u.procs|
      ensures ProcOk(u, r)
    {
      assert ProcOk(s, r);
    }
  }

  lemma OwnCpu(s: State, c: nat, p: nat, a: Step, e: nat)
    requires Ok(s) && c < |s.cpus| && s.cpus[c].mode == Thread(p) && p < |s.procs| && (a.Own? || a.Disown?)
    requires ThreadNext(s, c, p, a).Some? && e < |s.cpus|
    ensures |ThreadNext(s, c, p, a).value.cpus| == |s.cpus| && CpuOk(ThreadNext(s, c, p, a).value, e)
  {
    assert CpuOk(s, c) && CpuOk(s, e);
    assert ProcOk(s, p);
  }

  lemma OwnProc(s: State, c: nat, p: nat, a: Step, r: nat)
    requires Ok(s) && c < |s.cpus| && s.cpus[c].mode == Thread(p) && p < |s.procs| && (a.Own? || a.Disown?)
    requires ThreadNext(s, c, p, a).Some? && r < |s.procs|
    ensures |ThreadNext(s, c, p, a).value.procs| == |s.procs| && ProcOk(ThreadNext(s, c, p, a).value, r)
  {
    assert CpuOk(s, c) && ProcOk(s, r);
    assert ProcOk(s, p);
  }

  lemma OwnKeeps(s: State, c: nat, p: nat, a: Step)
    requires Ok(s) && c < |s.cpus| && s.cpus[c].mode == Thread(p) && p < |s.procs| && (a.Own? || a.Disown?)
    requires ThreadNext(s, c, p, a).Some?
    ensures Ok(ThreadNext(s, c, p, a).value)
  {
    var u := ThreadNext(s, c, p, a).value;
    forall e | 0 <= e < |u.cpus|
      ensures CpuOk(u, e)
    {
      OwnCpu(s, c, p, a, e);
    }
    forall r | 0 <= r < |u.procs|
      ensures ProcOk(u, r)
    {
      OwnProc(s, c, p, a, r);
    }
  }

  lemma StateCpu(s: State, c: nat, p: nat, a: Step, e: nat)
    requires Ok(s) && c < |s.cpus| && s.cpus[c].mode == Thread(p) && p < |s.procs|
    requires (a.SetState? || a.Restore? || a.Stay?) && ThreadNext(s, c, p, a).Some? && e < |s.cpus|
    ensures |ThreadNext(s, c, p, a).value.cpus| == |s.cpus| && CpuOk(ThreadNext(s, c, p, a).value, e)
  {
    assert CpuOk(s, c) && CpuOk(s, e);
    assert ProcOk(s, p);
  }

  lemma StateProc(s: State, c: nat, p: nat, a: Step, r: nat)
    requires Ok(s) && c < |s.cpus| && s.cpus[c].mode == Thread(p) && p < |s.procs|
    requires (a.SetState? || a.Restore? || a.Stay?) && ThreadNext(s, c, p, a).Some? && r < |s.procs|
    ensures |ThreadNext(s, c, p, a).value.procs| == |s.procs| && ProcOk(ThreadNext(s, c, p, a).value, r)
  {
    assert CpuOk(s, c) && ProcOk(s, r);
    assert ProcOk(s, p);
  }

  lemma StateKeeps(s: State, c: nat, p: nat, a: Step)
    requires Ok(s) && c < |s.cpus| && s.cpus[c].mode == Thread(p) && p < |s.procs|
    requires (a.SetState? || a.Restore? || a.Stay?) && ThreadNext(s, c, p, a).Some?
    ensures Ok(ThreadNext(s, c, p, a).value)
  {
    var u := ThreadNext(s, c, p, a).value;
    forall e | 0 <= e < |u.cpus|
      ensures CpuOk(u, e)
    {
      StateCpu(s, c, p, a, e);
    }
    forall r | 0 <= r < |u.procs|
      ensures ProcOk(u, r)
    {
      StateProc(s, c, p, a, r);
    }
  }

  lemma SchedKeeps(s: State, c: nat, p: nat, a: Step)
    requires Ok(s) && c < |s.cpus| && s.cpus[c].mode == Thread(p) && p < |s.procs| && a.Sched?
    requires ThreadNext(s, c, p, a).Some?
    ensures Ok(ThreadNext(s, c, p, a).value)
  {
    var u := ThreadNext(s, c, p, a).value;
    assert CpuOk(s, c);
    assert ProcOk(s, p);
    forall e | 0 <= e < |u.cpus|
      ensures CpuOk(u, e)
    {
      assert CpuOk(s, e);
    }
    forall r | 0 <= r < |u.procs|
      ensures ProcOk(u, r)
    {
      assert ProcOk(s, r);
    }
  }

  lemma StepKeeps(s: State, c: nat, a: Step)
    requires Ok(s) && c < |s.cpus| && Next(s, c, a).Some?
    ensures Ok(Next(s, c, a).value)
  {
    if s.cpus[c].mode.Thread? {
      var p := s.cpus[c].mode.p;
      match a
      case Spin => SpinKeeps(s, c, p, a);
      case Unspin => SpinKeeps(s, c, p, a);
      case Interrupts(_) => SpinKeeps(s, c, p, a);
      case Take(_) => TakeKeeps(s, c, p, a);
      case Drop(_) => DropKeeps(s, c, p, a);
      case Change(_) => ChangeKeeps(s, c, p, a);
      case Own => OwnKeeps(s, c, p, a);
      case Disown => OwnKeeps(s, c, p, a);
      case Sched => SchedKeeps(s, c, p, a);
      case _ => StateKeeps(s, c, p, a);
    } else {
      match a
      case Choose(_) => ChooseKeeps(s, c, a);
      case Look => LookKeeps(s, c, a);
      case Switch => SwitchKeeps(s, c, a);
      case _ => UnlockKeeps(s, c, a);
    }
  }

  // Steps of any CPUs in any order; a CPU that cannot move leaves the state as it is
  function After(s: State, steps: seq<(nat, Step)>): State {
    if steps == [] then s
    else
      var t, x := After(s, steps[..|steps| - 1]), steps[|steps| - 1];
      if x.0 < |t.cpus| && Next(t, x.0, x.1).Some? then Next(t, x.0, x.1).value else t
  }

  // Every CPU is in its scheduler; processes are unused, or new and runnable
  ghost predicate Start(s: State) {
    && (forall c :: 0 <= c < |s.cpus| ==> s.cpus[c].mode == Idle && s.cpus[c].proc == -1 && s.cpus[c].noff == 0)
    && (forall p :: 0 <= p < |s.procs| ==>
          var t := s.procs[p];
          t.lock == -1 && t.on == -1 && t.others == {} && t.spins == 0
            && ((t.state == UNUSED && t.pc == Saved) || (t.state == RUNNABLE && t.pc == Fresh)))
  }

  lemma {:induction false} RunKeeps(s: State, steps: seq<(nat, Step)>)
    requires Ok(s)
    ensures Ok(After(s, steps))
  {
    if steps != [] {
      var before, x := steps[..|steps| - 1], steps[|steps| - 1];
      RunKeeps(s, before);
      var t := After(s, before);
      if x.0 < |t.cpus| && Next(t, x.0, x.1).Some? {
        StepKeeps(t, x.0, x.1);
      }
    }
  }

  lemma StartOk(s: State)
    requires Start(s)
    ensures Ok(s)
  {
    forall c | 0 <= c < |s.cpus|
      ensures CpuOk(s, c)
    {
    }
    forall p | 0 <= p < |s.procs|
      ensures ProcOk(s, p)
    {
    }
  }

  // One CPU at most is on p's kernel stack. When p->lock is free, p is RUNNING exactly if some CPU
  // is, and that is the one with c->proc == p.
  ghost predicate OneCpu(s: State, p: nat)
    requires p < |s.procs|
  {
    && (forall c, d :: 0 <= c < |s.cpus| && 0 <= d < |s.cpus| && s.cpus[c].mode == s.cpus[d].mode == Thread(p) ==>
          c == d)
    && (s.procs[p].lock == -1 ==>
          && (s.procs[p].state == RUNNING <==> exists c :: 0 <= c < |s.cpus| && s.cpus[c].proc == p)
          && (forall c :: 0 <= c < |s.cpus| && s.cpus[c].proc == p ==> s.cpus[c].mode == Thread(p)))
  }

  /** In every interleaving, a process runs on one CPU at most, and its state says whether. */
  lemma OneCpuPerProcess(s: State, steps: seq<(nat, Step)>, p: nat)
    requires Start(s) && p < |After(s, steps).procs|
    ensures OneCpu(After(s, steps), p)
  {
    StartOk(s);
    RunKeeps(s, steps);
    OkOneCpu(After(s, steps), p);
  }

  lemma OkOneCpu(t: State, p: nat)
    requires Ok(t) && p < |t.procs|
    ensures OneCpu(t, p)
  {
    assert ProcOk(t, p);
    forall c, d | 0 <= c < |t.cpus| && 0 <= d < |t.cpus| && t.cpus[c].mode == Thread(p) && t.cpus[d].mode == Thread(p)
      ensures c == d
    {
      assert CpuOk(t, c) && CpuOk(t, d);
    }
    if t.procs[p].lock == -1 {
      forall c | 0 <= c < |t.cpus| && t.cpus[c].proc == p
        ensures t.cpus[c].mode == Thread(p) && t.procs[p].state == RUNNING
      {
        assert CpuOk(t, c);
      }
      if t.procs[p].state == RUNNING {
        assert CpuOk(t, t.procs[p].on);
      }
    }
  }

  /** sched's panics: the process lock is held, the state is not RUNNING, interrupts are off; and
      noff is 1 exactly if the caller holds no other lock. */
  lemma SchedChecks(s: State, steps: seq<(nat, Step)>, c: nat)
    requires Start(s) && c < |After(s, steps).cpus| && After(s, steps).cpus[c].mode.Thread?
    requires After(s, steps).cpus[c].mode.p < |After(s, steps).procs|
    requires After(s, steps).procs[After(s, steps).cpus[c].mode.p].pc == Ready
    ensures var t := After(s, steps);
            var d, q := t.cpus[c], t.procs[t.cpus[c].mode.p];
            q.lock == c && q.state != RUNNING && !d.intr && (d.noff == 1 <==> q.others == {} && q.spins == 0)
  {
    StartOk(s);
    RunKeeps(s, steps);
    var t := After(s, steps);
    assert CpuOk(t, c) && ProcOk(t, t.cpus[c].mode.p);
  }

  // From sched's swtch until intena has been restored
  predicate Away(pc: Pc) { pc == Saved || pc == Back || pc == Restored }

  lemma AwayStep(s: State, c: nat, a: Step, p: nat)
    requires Ok(s) && c < |s.cpus| && Next(s, c, a).Some? && p < |s.procs| && Away(s.procs[p].pc)
    requires Away(Next(s, c, a).value.procs[p].pc)
    ensures var t := Next(s, c, a).value; p < |t.procs| && t.procs[p].want == s.procs[p].want
  {
    WantKept(s, c, a, p);
  }

  // Only a thread that runs takes a first lock
  lemma WantKept(s: State, c: nat, a: Step, p: nat)
    requires c < |s.cpus| && Next(s, c, a).Some? && p < |s.procs| && Away(s.procs[p].pc)
    ensures var t := Next(s, c, a).value; p < |t.procs| && t.procs[p].want == s.procs[p].want
  {
  }

  lemma {:induction false} AwayRun(s: State, steps: seq<(nat, Step)>, p: nat)
    requires Ok(s) && p < |s.procs|
    requires forall k :: 0 <= k <= |steps| ==>
        p < |After(s, steps[..k]).procs| && Away(After(s, steps[..k]).procs[p].pc)
    ensures p < |After(s, steps).procs| && After(s, steps).procs[p].want == s.procs[p].want
  {
    if steps != [] {
      var before, x := steps[..|steps| - 1], steps[|steps| - 1];
      forall k | 0 <= k <= |before|
        ensures before[..k] == steps[..k]
      {
      }
      AwayRun(s, before, p);
      RunKeeps(s, before);
      var t := After(s, before);
      assert steps[..|steps|] == steps;
      if x.0 < |t.cpus| && Next(t, x.0, x.1).Some? {
        AwayStep(t, x.0, x.1, p);
      }
    }
  }

  /** A thread that was switched out in sched, and has since been switched in again on whatever CPU,
      finds there the noff and intena that it left behind. */
  lemma IntenaRestored(s: State, steps: seq<(nat, Step)>, p: nat)
    requires Ok(s) && p < |s.procs| && s.procs[p].pc == Saved && s.procs[p].state != UNUSED
    requires forall k :: 0 <= k <= |steps| ==>
        p < |After(s, steps[..k]).procs| && Away(After(s, steps[..k]).procs[p].pc)
    ensures var t := After(s, steps);
            && p < |t.procs|
            && (t.procs[p].pc == Restored ==>
                  var c := t.procs[p].on;
                    0 <= c < |t.cpus| && t.cpus[c].mode == Thread(p) && t.cpus[c].noff == 1
                    && t.cpus[c].intena == s.procs[p].intena)
  {
    RunKeeps(s, steps);
    AwayRun(s, steps, p);
    var t := After(s, steps);
    assert ProcOk(s, p) && ProcOk(t, p);
    if t.procs[p].pc == Restored {
      assert CpuOk(t, t.procs[p].on);
    }
  }

  // ---------- interrupts ----------

  // From its first lock to its last release, also while it is switched out
  predicate Locking(t: Proc) { t.pc == Saved || Depth(t) > 0 }

  /** A thread's last release leaves interrupts as they were at its first lock. */
  lemma IntrStep(s: State, c: nat, a: Step, p: nat)
    requires Ok(s) && c < |s.cpus| && Next(s, c, a).Some? && p < |s.procs| && Locking(s.procs[p])
    ensures var t := Next(s, c, a).value;
            && p < |t.procs| && |t.cpus| == |s.cpus|
            && (!Locking(t.procs[p]) && t.procs[p].on >= 0 ==>
                  && t.procs[p].on < |t.cpus| && t.cpus[t.procs[p].on].noff == 0
                  && t.cpus[t.procs[p].on].intr == s.procs[p].want)
  {
    if s.cpus[c].mode == Thread(p) {
      assert CpuOk(s, c) && ProcOk(s, p);
    } else {
      OthersLocking(s, c, a, p);
    }
  }

  // No step but the thread's own is its last release
  lemma OthersLocking(s: State, c: nat, a: Step, p: nat)
    requires Ok(s) && c < |s.cpus| && Next(s, c, a).Some? && p < |s.procs| && Locking(s.procs[p])
    requires s.cpus[c].mode != Thread(p)
    ensures var t := Next(s, c, a).value;
            p < |t.procs| && |t.cpus| == |s.cpus| && (Locking(t.procs[p]) || t.procs[p].on == -1)
  {
    if s.cpus[c].mode.Thread? {
      OtherThread(s, c, a, p, s.cpus[c].mode.p);
    } else {
      assert CpuOk(s, c) && ProcOk(s, p);
    }
  }

  lemma OtherThread(s: State, c: nat, a: Step, p: nat, q: nat)
    requires Ok(s) && c < |s.cpus| && p < |s.procs| && Locking(s.procs[p]) && s.cpus[c].mode == Thread(q) && q != p
    requires q < |s.procs| && ThreadNext(s, c, q, a).Some?
    ensures var t := ThreadNext(s, c, q, a).value;
            p < |t.procs| && |t.cpus| == |s.cpus| && (Locking(t.procs[p]) || t.procs[p].on == -1)
  {
    assert ProcOk(s, p);
    if a.Change? {
      assert CpuOk(s, c) && ProcOk(s, q);
    }
  }

  lemma LockingStep(s: State, c: nat, a: Step, p: nat)
    requires Ok(s) && c < |s.cpus| && Next(s, c, a).Some? && p < |s.procs| && Locking(s.procs[p])
    requires p < |Next(s, c, a).value.procs| && Locking(Next(s, c, a).value.procs[p])
    ensures Next(s, c, a).value.procs[p].want == s.procs[p].want
  {
    if s.cpus[c].mode.Thread? {
      LockingThread(s, c, a, p, s.cpus[c].mode.p);
    } else {
      assert ProcOk(s, p);
    }
  }

  lemma LockingThread(s: State, c: nat, a: Step, p: nat, q: nat)
    requires Ok(s) && c < |s.cpus| && p < |s.procs| && Locking(s.procs[p]) && s.cpus[c].mode == Thread(q)
    requires q < |s.procs| && ThreadNext(s, c, q, a).Some?
    ensures p < |ThreadNext(s, c, q, a).value.procs| && ThreadNext(s, c, q, a).value.procs[p].want == s.procs[p].want
  {
    if q == p {
      assert CpuOk(s, c) && ProcOk(s, p);
    }
  }

  lemma {:induction false} LockingRun(s: State, steps: seq<(nat, Step)>, p: nat)
    requires Ok(s) && p < |s.procs|
    requires forall k :: 0 <= k <= |steps| ==>
        p < |After(s, steps[..k]).procs| && Locking(After(s, steps[..k]).procs[p])
    ensures p < |After(s, steps).procs| && After(s, steps).procs[p].want == s.procs[p].want
  {
    if steps != [] {
      var before, x := steps[..|steps| - 1], steps[|steps| - 1];
      forall k | 0 <= k <= |before|
        ensures before[..k] == steps[..k]
      {
      }
      LockingRun(s, before, p);
      RunKeeps(s, before);
      var t := After(s, before);
      assert steps[..|steps|] == steps;
      if x.0 < |t.cpus| && Next(t, x.0, x.1).Some? {
        LockingStep(t, x.0, x.1, p);
      }
    }
  }

  // Thread p runs on CPU c and holds no lock
  predicate Free(s: State, c: nat, p: nat) {
    c < |s.cpus| && p < |s.procs| && s.cpus[c].mode == Thread(p) && s.cpus[c].noff == 0
  }

  lemma FirstLock(s: State, c: nat, a: Step, p: nat)
    requires Ok(s) && Free(s, c, p) && Next(s, c, a).Some?
    requires p < |Next(s, c, a).value.procs| && Locking(Next(s, c, a).value.procs[p])
    ensures Next(s, c, a).value.procs[p].want == s.cpus[c].intr
  {
    assert CpuOk(s, c) && ProcOk(s, p);
  }

  /** From the step with which a thread takes its first lock, over any steps of any CPUs, through
      switches to other CPUs as well, to its last release: interrupts are then as they were. */
  lemma IntrRestored(s: State, c: nat, a: Step, steps: seq<(nat, Step)>, p: nat, e: nat)
    requires Ok(s) && Free(s, c, p) && Next(s, c, a).Some? && |steps| > 0
    requires var s1 := Next(s, c, a).value;
             && (forall k :: 0 <= k < |steps| ==>
                   p < |After(s1, steps[..k]).procs| && Locking(After(s1, steps[..k]).procs[p]))
             && Free(After(s1, steps), e, p)
    ensures After(Next(s, c, a).value, steps).cpus[e].intr == s.cpus[c].intr
  {
    var s1, before, x := Next(s, c, a).value, steps[..|steps| - 1], steps[|steps| - 1];
    assert steps[..0] == [] && After(s1, steps[..0]) == s1;
    FirstLock(s, c, a, p);
    StepKeeps(s, c, a);
    forall k | 0 <= k <= |before|
      ensures before[..k] == steps[..k]
    {
    }
    LockingRun(s1, before, p);
    RunKeeps(s1, before);
    RunKeeps(s1, steps);
    var t, u := After(s1, before), After(s1, steps);
    assert CpuOk(u, e) && ProcOk(u, p);
    IntrStep(t, x.0, x.1, p);
  }

  // ---------- the states of a process ----------

  // Who may make a process go from one state to another: the scheduler, the process, or another
  predicate Legal(from: PState, to: PState, m: Mode, p: nat) {
    match from
    case RUNNABLE => to == RUNNING && !m.Thread?
    case RUNNING => (to == RUNNABLE || to == SLEEPING || to == ZOMBIE) && m == Thread(p)
    case SLEEPING => to == RUNNABLE && m.Thread? && m.p != p
    case ZOMBIE => to == UNUSED && m.Thread? && m.p != p
    case UNUSED => to == RUNNABLE && m.Thread? && m.p != p
  }

  /** In every run a process changes its state only as it may, and by a CPU that holds its lock. */
  lemma StateMoves(s: State, steps: seq<(nat, Step)>, c: nat, a: Step, p: nat)
    requires Start(s) && c < |After(s, steps).cpus| && Next(After(s, steps), c, a).Some?
    requires p < |After(s, steps).procs|
    ensures var t := After(s, steps);
            var u := Next(t, c, a).value;
            && p < |u.procs|
            && (u.procs[p].state != t.procs[p].state ==>
                  t.procs[p].lock == c && Legal(t.procs[p].state, u.procs[p].state, t.cpus[c].mode, p))
  {
    StartOk(s);
    RunKeeps(s, steps);
    var t := After(s, steps);
    StateStep(t, c, a, p);
  }

  lemma StateStep(t: State, c: nat, a: Step, p: nat)
    requires Ok(t) && c < |t.cpus| && Next(t, c, a).Some? && p < |t.procs|
    ensures var u := Next(t, c, a).value;
            && p < |u.procs|
            && (u.procs[p].state != t.procs[p].state ==>
                  t.procs[p].lock == c && Legal(t.procs[p].state, u.procs[p].state, t.cpus[c].mode, p))
  {
    if t.cpus[c].mode.Thread? {
      ThreadState(t, c, a, p, t.cpus[c].mode.p);
    } else {
      assert CpuOk(t, c);
    }
  }

  lemma ThreadState(t: State, c: nat, a: Step, p: nat, q: nat)
    requires Ok(t) && c < |t.cpus| && p < |t.procs| && q < |t.procs| && t.cpus[c].mode == Thread(q)
    requires ThreadNext(t, c, q, a).Some?
    ensures var u := ThreadNext(t, c, q, a).value;
            && p < |u.procs|
            && (u.procs[p].state != t.procs[p].state ==>
                  t.procs[p].lock == c && Legal(t.procs[p].state, u.procs[p].state, t.cpus[c].mode, p))
  {
    if a.Change? || a.SetState? {
      assert CpuOk(t, c) && ProcOk(t, q);
      assert ProcOk(t, p);
    }
  }
}
