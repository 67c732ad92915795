/** The users of sleep and wakeup that guard data with a spinlock: sleep locks, the log, the disk
    driver and pipes. */
module Monitors {
  import opened Sleep
  import opened Counts
  import LogReservation

  // ---------- sleep locks ----------

  datatype LockLocal = Acquire | Acquired | Holding | Released | Done

  // acquiresleep from Acquire on, releasesleep from Holding on
  function LockAct(locked: bool, l: LockLocal, i: nat): Action<bool, LockLocal> {
    match l
    case Acquire => if locked then Wait(0, Acquire) else Update(true, Acquired)
    case Acquired => Leave(Holding)
    case Holding => Update(false, Released)
    case Released => Wakeup(0, Done)
    case Done => Leave(Acquire)
  }

  predicate LockWaits(locked: bool, ch: nat) { ch == 0 && locked }
  predicate LockEnters(l: LockLocal) { l == Acquire || l == Holding }

  function SleepLock(): Monitor<bool, LockLocal> { Monitor(LockAct, LockWaits, LockEnters) }

  ghost predicate LockInv(locked: bool, l: LockLocal, owes: iset<nat>) {
    if l == Released then owes <= iset{0} else owes == iset{}
  }

  lemma LockSound()
    ensures Sound(SleepLock(), LockInv)
  {
    forall r, l, owes, i: nat
      ensures ActOk(SleepLock(), LockInv, r, l, owes, i)
    {
    }
  }

  /** In every run, when its spinlock is free, a process asleep on a sleep lock means that it is
      locked. */
  lemma SleepLockNoLostWakeup(s: State<bool, LockLocal>, steps: seq<(nat, nat)>, p: nat)
    requires Start(SleepLock(), s)
    ensures var t := Run(SleepLock(), s, steps);
            p < |t.at| && t.lock == -1 && t.at[p].Sleeps() && t.at[p].ch == 0 ==> t.data
  {
    LockSound();
    SoundRuns(SleepLock(), LockInv, s, steps);
  }

  // Has the sleep lock
  predicate Has(l: LockLocal) { l == Acquired || l == Holding }

  function HasOne(l: LockLocal): nat { if Has(l) then 1 else 0 }

  // It is locked exactly if someone has it, and then one does
  ghost predicate OneHolder(s: State<bool, LockLocal>) {
    |s.at| == |s.own| && Sum(s.at, HasOne) == if s.data then 1 else 0
  }

  lemma OneHolderStep(s: State<bool, LockLocal>, p: nat, i: nat)
    requires OneHolder(s) && p < |s.at| && Next(SleepLock(), s, p, i).Some?
    ensures OneHolder(Next(SleepLock(), s, p, i).value)
  {
    SumStep(SleepLock(), s, p, i, HasOne);
    StepIs(SleepLock(), s, p, i);
    SumAtLeast(s.at, p, HasOne);
  }

  lemma {:induction false} OneHolderRun(s: State<bool, LockLocal>, steps: seq<(nat, nat)>)
    requires Start(SleepLock(), s) && !s.data && forall p :: 0 <= p < |s.at| ==> s.at[p].l == Acquire
    ensures OneHolder(Run(SleepLock(), s, steps))
  {
    if steps == [] {
      SumNone(s.at, HasOne);
    } else {
      var before := steps[..|steps| - 1];
      var (p, i) := steps[|steps| - 1];
      OneHolderRun(s, before);
      var t := Run(SleepLock(), s, before);
      if p < |t.at| && Next(SleepLock(), t, p, i).Some? {
        OneHolderStep(t, p, i);
      }
    }
  }

  /** Mutual exclusion: in every run at most one process has the sleep lock, and it is locked exactly
      if one has it. */
  lemma SleepLockExclusive(s: State<bool, LockLocal>, steps: seq<(nat, nat)>)
    requires Start(SleepLock(), s) && !s.data && forall p :: 0 <= p < |s.at| ==> s.at[p].l == Acquire
    ensures var t := Run(SleepLock(), s, steps);
            && (forall p, q :: 0 <= p < q < |t.at| ==> !(Has(t.at[p].l) && Has(t.at[q].l)))
            && (t.data <==> exists p :: 0 <= p < |t.at| && Has(t.at[p].l))
  {
    OneHolderRun(s, steps);
    var t := Run(SleepLock(), s, steps);
    forall p, q | 0 <= p < q < |t.at|
      ensures !(Has(t.at[p].l) && Has(t.at[q].l))
    {
      SumTwo(t.at, p, q, HasOne);
    }
    if t.data {
      var p := SomeOne(t.at, HasOne);
    }
    if p :| 0 <= p < |t.at| && Has(t.at[p].l) {
      SumAtLeast(t.at, p, HasOne);
    }
  }

  // ---------- the log ----------

  datatype LogData = LogData(committing: bool, n: int, outstanding: int)

  datatype LogLocal = Begin | Begun | Op | Logged | EndWake | EndCommit | Commit | CommitWake | Ended

  predicate Full(r: LogData) { LogReservation.TooFull(r.n, r.outstanding) }

  // begin_op from Begin on. From Op on, by the input, log_write of a new block or end_op; commit
  // itself runs between EndCommit and Commit, without the lock.
  function LogAct(r: LogData, l: LogLocal, i: nat): Action<LogData, LogLocal> {
    match l
    case Begin =>
      if r.committing then Wait(0, Begin) else if Full(r) then Wait(0, Begin)
        else Update(r.(outstanding := r.outstanding + 1), Begun)
    case Begun => Leave(Op)
    case Op =>
      if i > 0 then Update(r.(n := r.n + 1), Logged)
      else if r.outstanding - 1 == 0 then Update(r.(outstanding := 0, committing := true), EndCommit)
      else Update(r.(outstanding := r.outstanding - 1), EndWake)
    case Logged => Leave(Op)
    case EndWake => Wakeup(0, Ended)
    case EndCommit => Leave(Commit)
    case Commit => Update(r.(committing := false, n := 0), CommitWake)
    case CommitWake => Wakeup(0, Ended)
    case Ended => Leave(Begin)
  }

  predicate LogWaits(r: LogData, ch: nat) { ch == 0 && (r.committing || Full(r)) }
  predicate LogEnters(l: LogLocal) { l == Begin || l == Op || l == Commit }

  function LogMonitor(): Monitor<LogData, LogLocal> { Monitor(LogAct, LogWaits, LogEnters) }

  ghost predicate LogInv(r: LogData, l: LogLocal, owes: iset<nat>) {
    if l == EndWake || l == CommitWake then owes <= iset{0} else owes == iset{}
  }

  lemma LogSound()
    ensures Sound(LogMonitor(), LogInv)
  {
    forall r, l, owes, i: nat
      ensures ActOk(LogMonitor(), LogInv, r, l, owes, i)
    {
    }
  }

  /** In every run, when log.lock is free, a process asleep in begin_op means that the log is
      committing or has no room for one more operation. */
  lemma LogNoLostWakeup(s: State<LogData, LogLocal>, steps: seq<(nat, nat)>, p: nat)
    requires Start(LogMonitor(), s)
    ensures var t := Run(LogMonitor(), s, steps);
            p < |t.at| && t.lock == -1 && t.at[p].Sleeps() && t.at[p].ch == 0 ==> t.data.committing || Full(t.data)
  {
    LogSound();
    SoundRuns(LogMonitor(), LogInv, s, steps);
  }

  // In an operation, after begin_op and before end_op
  function OpOne(l: LogLocal): nat { if l == Begun || l == Op || l == Logged then 1 else 0 }

  function CommitOne(l: LogLocal): nat { if l == EndCommit || l == Commit then 1 else 0 }

  // outstanding counts the operations, and committing says whether someone commits
  ghost predicate LogCounted(s: State<LogData, LogLocal>) {
    && |s.at| == |s.own| && s.data.outstanding == Sum(s.at, OpOne)
    && Sum(s.at, CommitOne) == (if s.data.committing then 1 else 0)
    && (s.data.committing ==> s.data.outstanding == 0)
    && (s.data.outstanding == 0 && !s.data.committing ==> s.data.n == 0)
  }

  lemma LogCountedStep(s: State<LogData, LogLocal>, p: nat, i: nat)
    requires LogCounted(s) && p < |s.at| && Next(LogMonitor(), s, p, i).Some?
    ensures LogCounted(Next(LogMonitor(), s, p, i).value)
  {
    SumStep(LogMonitor(), s, p, i, OpOne);
    SumStep(LogMonitor(), s, p, i, CommitOne);
    StepIs(LogMonitor(), s, p, i);
    SumAtLeast(s.at, p, OpOne);
    SumAtLeast(s.at, p, CommitOne);
  }

  ghost predicate LogUnused(s: State<LogData, LogLocal>) {
    && Start(LogMonitor(), s) && s.data.outstanding == 0 && !s.data.committing && s.data.n == 0
    && forall p :: 0 <= p < |s.at| ==> s.at[p].l == Begin
  }

  /** In every run outstanding is the number of operations between begin_op and end_op, at most one
      process commits, committing says whether, and no operation is under way then. The log is empty
      when neither is the case. */
  lemma {:induction false} LogCountedRun(s: State<LogData, LogLocal>, steps: seq<(nat, nat)>)
    requires LogUnused(s)
    ensures LogCounted(Run(LogMonitor(), s, steps))
  {
    if steps == [] {
      SumNone(s.at, OpOne);
      SumNone(s.at, CommitOne);
    } else {
      var before := steps[..|steps| - 1];
      var (p, i) := steps[|steps| - 1];
      LogCountedRun(s, before);
      var t := Run(LogMonitor(), s, before);
      if p < |t.at| && Next(LogMonitor(), t, p, i).Some? {
        LogCountedStep(t, p, i);
      }
    }
  }

  // ---------- the disk driver ----------

  // The free descriptors, and the buffers that the disk owns
  datatype DiskData = DiskData(free: nat, busy: iset<nat>)

  datatype DiskLocal = Rest | Ask(b: nat) | Back(b: nat,
      k: nat) | Sent(b: nat) | Free(k: nat) | FreeWake(k: nat) | Intr | Completed(b: nat)

  // virtio_disk_rw of some buffer, or virtio_disk_intr, as the input of the first step says. In an
  // interrupt the input says which request has been completed, or that there is none left.
  // alloc3_desc that does not get three gives back those that it got, with a wakeup for each.
  function DiskAct(r: DiskData, l: DiskLocal, i: nat): Action<DiskData, DiskLocal> {
    match l
    case Rest => if i % 2 == 0 then Update(r, Ask(i / 2)) else Update(r, Intr)
    case Ask(b) => if r.free >= 3 then Update(DiskData(r.free - 3, r.busy + iset{b}), Sent(b))
      else Update(r, Back(b, r.free))
    case Back(b, k) => if k > 0 then Wakeup(0, Back(b, k - 1)) else Wait(0, Ask(b))
    case Sent(b) => if b in r.busy then Wait(1 + b, Sent(b)) else Update(r, Free(0))
    case Free(k) => if k < 3 then Update(r.(free := r.free + 1), FreeWake(k)) else Leave(Rest)
    case FreeWake(k) => Wakeup(0, Free(k + 1))
    case Intr => if i == 0 then Leave(Rest) else Update(r.(busy := r.busy - iset{i - 1}), Completed(i - 1))
    case Completed(b) => Wakeup(1 + b, Intr)
  }

  predicate DiskWaits(r: DiskData, ch: nat) { if ch == 0 then r.free < 3 else ch - 1 in r.busy }
  predicate DiskEnters(l: DiskLocal) { l == Rest }

  ghost function DiskMonitor(): Monitor<DiskData, DiskLocal> { Monitor(DiskAct, DiskWaits, DiskEnters) }

  ghost predicate DiskInv(r: DiskData, l: DiskLocal, owes: iset<nat>) {
    match l
    case Back(_, _) => owes == iset{} && r.free < 3
    case FreeWake(_) => owes <= iset{0}
    case Completed(b) => owes <= iset{1 + b}
    case _ => owes == iset{}
  }

  lemma DiskSound()
    ensures Sound(DiskMonitor(), DiskInv)
  {
    forall r, l, owes, i: nat
      ensures ActOk(DiskMonitor(), DiskInv, r, l, owes, i)
    {
    }
  }

  /** In every run, when vdisk_lock is free, a process asleep in virtio_disk_rw on the descriptors means
      that fewer than three are free, and one asleep on its buffer that the disk still owns it. */
  lemma DiskNoLostWakeup(s: State<DiskData, DiskLocal>, steps: seq<(nat, nat)>, p: nat)
    requires Start(DiskMonitor(), s)
    ensures var t := Run(DiskMonitor(), s, steps);
            p < |t.at| && t.lock == -1 && t.at[p].Sleeps() ==>
              if t.at[p].ch == 0 then t.data.free < 3 else t.at[p].ch - 1 in t.data.busy
  {
    DiskSound();
    SoundRuns(DiskMonitor(), DiskInv, s, steps);
  }

  // Descriptors that a process has
  function DescsOf(l: DiskLocal): nat {
    match l
    case Sent(_) => 3
    case Free(k) => if k <= 3 then 3 - k else 0
    case FreeWake(k) => if k <= 2 then 2 - k else 0
    case _ => 0
  }

  ghost predicate DescsCounted(s: State<DiskData, DiskLocal>, n: nat) {
    && |s.at| == |s.own| && s.data.free + Sum(s.at, DescsOf) == n
    && forall p :: 0 <= p < |s.at| && s.at[p].l.FreeWake? ==> s.at[p].l.k < 3
  }

  lemma DescsStep(s: State<DiskData, DiskLocal>, p: nat, i: nat, n: nat)
    requires DescsCounted(s, n) && p < |s.at| && Next(DiskMonitor(), s, p, i).Some?
    ensures DescsCounted(Next(DiskMonitor(), s, p, i).value, n)
  {
    SumStep(DiskMonitor(), s, p, i, DescsOf);
    StepIs(DiskMonitor(), s, p, i);
    var t := Next(DiskMonitor(), s, p, i).value;
    assert forall q :: 0 <= q < |s.at| && q != p ==> t.at[q].l == s.at[q].l;
  }

  /** In every run no descriptor is lost or free twice: those that are free and those of requests under
      way are together as many as at the start. */
  lemma {:induction false} DescsRun(s: State<DiskData, DiskLocal>, steps: seq<(nat, nat)>)
    requires Start(DiskMonitor(), s) && forall p :: 0 <= p < |s.at| ==> s.at[p].l == Rest
    ensures DescsCounted(Run(DiskMonitor(), s, steps), s.data.free)
  {
    if steps == [] {
      SumNone(s.at, DescsOf);
    } else {
      var before := steps[..|steps| - 1];
      var (p, i) := steps[|steps| - 1];
      DescsRun(s, before);
      var t := Run(DiskMonitor(), s, before);
      if p < |t.at| && Next(DiskMonitor(), t, p, i).Some? {
        DescsStep(t, p, i, s.data.free);
      }
    }
  }

  // ---------- pipes ----------

  const PIPESIZE := 512
  const READERS: nat := 0       // the channel &pi->nread
  const WRITERS: nat := 1       // the channel &pi->nwrite

  // `reading` counts the processes in piperead. Each has the read end open, so that only the last
  // pipeclose of it, with none of them left, can clear readopen.
  datatype PipeData = PipeData(count: nat, readopen: bool, writeopen: bool, reading: int)

  datatype PipeLocal =
    | Idle
    | Write(i: nat, n: nat) | WriteSleep(i: nat, n: nat)
    | ReadFirst(n: nat) | Read(i: nat, n: nat) | ReadDone | ReadEnd
    | CloseWrite | CloseRead
    | Finish

  // pipewrite, piperead or pipeclose, as the input of the first step says. Later inputs say when
  // the process has been killed (0) and when a copy to or from user memory fails (1). Without
  // kills, no process is killed in pipewrite.
  function PipeAct(kills: bool, r: PipeData, l: PipeLocal, i: nat): Action<PipeData, PipeLocal> {
    match l
    case Idle =>
      if i % 4 == 0 then Update(r, Write(0, i / 4))
      else if i % 4 == 1 then
        (if r.readopen then Update(r.(reading := r.reading + 1), ReadFirst(i / 4)) else Leave(Idle))
      else if i % 4 == 2 then Update(r.(writeopen := false), CloseWrite)
      else if r.reading == 0 then Update(r.(readopen := false), CloseRead) else Leave(Idle)
    case Write(k, n) =>
      if k >= n then Wakeup(READERS, Finish)
      else if r.count == PIPESIZE then
        if !r.readopen || (kills && i == 0) then Leave(Idle) else Wakeup(READERS, WriteSleep(k, n))
      else if i == 1 then Wakeup(READERS, Finish)
      else Update(r.(count := r.count + 1), Write(k + 1, n))
    case WriteSleep(k, n) => Wait(WRITERS, Write(k, n))
    case ReadFirst(n) =>
      if r.count == 0 && r.writeopen then
        if i == 0 then Update(r.(reading := r.reading - 1), Finish) else Wait(READERS, ReadFirst(n))
      else Update(r, Read(0, n))
    case Read(k, n) =>
      if k >= n || r.count == 0 then Wakeup(WRITERS, ReadEnd)
      else Update(r.(count := r.count - 1), if i == 1 then ReadDone else Read(k + 1, n))
    case ReadDone => Wakeup(WRITERS, ReadEnd)
    case ReadEnd => Update(r.(reading := r.reading - 1), Finish)
    case CloseWrite => Wakeup(READERS, Finish)
    case CloseRead => Wakeup(WRITERS, Finish)
    case Finish => Leave(Idle)
  }

  predicate Empty(r: PipeData) { r.count == 0 && r.writeopen }
  predicate Stuffed(r: PipeData) { r.count == PIPESIZE && r.readopen }

  // A reader sleeps because the pipe is empty and may yet be written, unless writers are killed or
  // the read end is closed; a writer because the pipe is full and may yet be read.
  predicate PipeWaits(kills: bool, r: PipeData, ch: nat) {
    (ch == READERS && (kills || !r.readopen || Empty(r))) || (ch == WRITERS && Stuffed(r))
  }

  predicate PipeEnters(l: PipeLocal) { l == Idle }

  ghost function PipeMonitor(kills: bool): Monitor<PipeData, PipeLocal> {
    Monitor((r: PipeData, l: PipeLocal, i: nat) => PipeAct(kills, r, l, i),
      (r: PipeData, ch: nat) => PipeWaits(kills, r, ch), PipeEnters)
  }

  ghost predicate PipeInv(kills: bool, r: PipeData, l: PipeLocal, owes: iset<nat>) {
    match l
    case Write(_, _) => owes <= iset{READERS} && (kills || !r.readopen ==> owes == iset{})
    case WriteSleep(_, _) => owes == iset{} && Stuffed(r)
    case Read(_, _) => owes <= iset{WRITERS}
    case ReadDone => owes <= iset{WRITERS}
    case CloseWrite => owes <= iset{READERS}
    case CloseRead => owes <= iset{WRITERS}
    case _ => owes == iset{}
  }

  ghost function PipeInvOf(kills: bool): (PipeData, PipeLocal, iset<nat>) -> bool {
    (r: PipeData, l: PipeLocal, owes: iset<nat>) => PipeInv(kills, r, l, owes)
  }

  lemma PipeSound(kills: bool)
    ensures Sound(PipeMonitor(kills), PipeInvOf(kills))
  {
    forall r, l, owes, i: nat
      ensures ActOk(PipeMonitor(kills), PipeInvOf(kills), r, l, owes, i)
    {
    }
  }

  // ---------- who is in piperead ----------

  predicate Reads(l: PipeLocal) { l.ReadFirst? || l.Read? || l.ReadDone? || l.ReadEnd? }
  predicate InRead(a: Place<PipeLocal>) { Reads(a.l) }

  function ReadsOne(l: PipeLocal): nat { if Reads(l) then 1 else 0 }

  // The count is right, and a closed read end has no reader
  ghost predicate Counted(s: State<PipeData, PipeLocal>) {
    |s.at| == |s.own| && s.data.reading == Sum(s.at, ReadsOne) && (s.data.reading > 0 ==> s.data.readopen)
  }

  // piperead counts itself in and out
  lemma ReadingAct(kills: bool, r: PipeData, l: PipeLocal, i: nat)
    ensures var a := PipeAct(kills, r, l, i);
            if a.Update? then
              && a.r.reading == r.reading + (if Reads(a.l) then 1 else 0) - (if Reads(l) then 1 else 0)
              && (a.r.reading > r.reading ==> a.r.readopen) && (a.r.readopen != r.readopen ==> r.reading == 0)
            else Reads(a.l) == Reads(l)
  {
  }

  lemma CountedStep(kills: bool, s: State<PipeData, PipeLocal>, p: nat, i: nat)
    requires Counted(s) && p < |s.at| && Next(PipeMonitor(kills), s, p, i).Some?
    ensures Counted(Next(PipeMonitor(kills), s, p, i).value)
  {
    SumStep(PipeMonitor(kills), s, p, i, ReadsOne);
    StepIs(PipeMonitor(kills), s, p, i);
    ReadingAct(kills, s.data, s.at[p].l, i);
  }

  // Nobody is using the pipe yet
  ghost predicate Unused(kills: bool, s: State<PipeData, PipeLocal>) {
    Start(PipeMonitor(kills), s) && s.data.reading == 0 && forall p :: 0 <= p < |s.at| ==> s.at[p].l == Idle
  }

  lemma {:induction false} CountedRun(kills: bool, s: State<PipeData, PipeLocal>, steps: seq<(nat, nat)>)
    requires Unused(kills, s)
    ensures Counted(Run(PipeMonitor(kills), s, steps))
  {
    if steps == [] {
      SumNone(s.at, ReadsOne);
    } else {
      var before := steps[..|steps| - 1];
      var (p, i) := steps[|steps| - 1];
      CountedRun(kills, s, before);
      var t := Run(PipeMonitor(kills), s, before);
      if p < |t.at| && Next(PipeMonitor(kills), t, p, i).Some? {
        CountedStep(kills, t, p, i);
      }
    }
  }

  // Who sleeps on &pi->nread is in piperead
  ghost predicate ReaderSleeping(s: State<PipeData, PipeLocal>, p: nat) {
    p < |s.at| && (s.at[p].Both? || s.at[p].Sleeps()) && s.at[p].ch == READERS ==> InRead(s.at[p])
  }

  lemma ReaderSleepingStep(kills: bool, s: State<PipeData, PipeLocal>, q: nat, i: nat, p: nat)
    requires ReaderSleeping(s, p) && |s.at| == |s.own| && q < |s.at| && Next(PipeMonitor(kills), s, q, i).Some?
    ensures ReaderSleeping(Next(PipeMonitor(kills), s, q, i).value, p)
  {
  }

  lemma {:induction false} ReadersSleep(kills: bool, s: State<PipeData, PipeLocal>, steps: seq<(nat, nat)>, p: nat)
    requires Unused(kills, s)
    ensures ReaderSleeping(Run(PipeMonitor(kills), s, steps), p)
  {
    if steps != [] {
      var before := steps[..|steps| - 1];
      var (q, i) := steps[|steps| - 1];
      ReadersSleep(kills, s, before, p);
      var t := Run(PipeMonitor(kills), s, before);
      if |t.at| == |t.own| && q < |t.at| && Next(PipeMonitor(kills), t, q, i).Some? {
        ReaderSleepingStep(kills, t, q, i, p);
      }
    }
  }

  // ---------- runs ----------

  /** When pi->lock is free, a sleeping writer means a full pipe with readers open, in every run, also
      if processes are killed. */
  lemma WritersNoLostWakeup(kills: bool, s: State<PipeData, PipeLocal>, steps: seq<(nat, nat)>, p: nat)
    requires Unused(kills, s)
    ensures var t := Run(PipeMonitor(kills), s, steps);
            p < |t.at| && t.lock == -1 && t.at[p].Sleeps() && t.at[p].ch == WRITERS ==> Stuffed(t.data)
  {
    PipeSound(kills);
    SoundRuns(PipeMonitor(kills), PipeInvOf(kills), s, steps);
  }

  // One more step of a run
  lemma RunMore<R(!new), L(!new)>(m: Monitor<R, L>, s: State<R, L>, steps: seq<(nat, nat)>, p: nat, i: nat)
    requires |s.at| == |s.own| && |Run(m, s, steps).at| == |Run(m, s, steps).own| && p < |Run(m, s, steps).at|
    requires Next(m, Run(m, s, steps), p, i).Some?
    ensures Run(m, s, steps + [(p, i)]) == Next(m, Run(m, s, steps), p, i).value
  {
    var more := steps + [(p, i)];
    assert more[..|more| - 1] == steps;
  }

  // An open, empty pipe and two processes
  ghost function Fresh(): State<PipeData, PipeLocal> {
    State(PipeData(0, true, true, 0), [Out(Idle), Out(Idle)], -1, [-1, -1], iset{})
  }

  // Process 0 is on its way to sleep in piperead
  ghost function Sleepy(a: Place<PipeLocal>, lock: int, own: int): State<PipeData, PipeLocal> {
    State(PipeData(0, true, true, 1), [a, Out(Idle)], lock, [own, -1], iset{})
  }

  // Process 0 in piperead finds the pipe empty
  lemma ReaderWaits() returns (steps: seq<(nat, nat)>)
    ensures Run(PipeMonitor(true), Fresh(), steps) == Sleepy(Both(READERS, ReadFirst(1)), 0, 0)
  {
    var m, s0 := PipeMonitor(true), Fresh();
    steps := [];
    assert Run(m, s0, steps) == s0;
    RunMore(m, s0, steps, 0, 0);
    steps := steps + [(0, 0)];
    assert Run(m, s0, steps) == State(PipeData(0, true, true, 0), [In(Idle), Out(Idle)], 0, [-1, -1], iset{});
    RunMore(m, s0, steps, 0, 5);
    steps := steps + [(0, 5)];
    assert Run(m, s0, steps) == Sleepy(In(ReadFirst(1)), 0, -1);
    RunMore(m, s0, steps, 0, 2);
    steps := steps + [(0, 2)];
  }

  // ... and goes to sleep
  lemma ReaderSleeps() returns (steps: seq<(nat, nat)>)
    ensures Run(PipeMonitor(true), Fresh(), steps) == Sleepy(Asleep(READERS, ReadFirst(1)), -1, -1)
  {
    var m, s0 := PipeMonitor(true), Fresh();
    steps := ReaderWaits();
    RunMore(m, s0, steps, 0, 0);
    steps := steps + [(0, 0)];
    assert Run(m, s0, steps) == Sleepy(Own(READERS, ReadFirst(1)), -1, 0);
    RunMore(m, s0, steps, 0, 0);
    steps := steps + [(0, 0)];
    assert Run(m, s0, steps) == Sleepy(Set(READERS, ReadFirst(1)), -1, 0);
    RunMore(m, s0, steps, 0, 0);
    steps := steps + [(0, 0)];
  }

  // Process 1 has written k of 513 bytes
  ghost predicate HasWritten(t: State<PipeData, PipeLocal>, k: nat) {
    && t.data == PipeData(k, true, true, 1) && t.at == [Asleep(READERS, ReadFirst(1)), In(Write(k, 513))]
    && t.lock == 1 && t.own == [-1, -1]
  }

  lemma {:induction false} WriterFills(k: nat) returns (steps: seq<(nat, nat)>)
    requires k <= PIPESIZE
    ensures HasWritten(Run(PipeMonitor(true), Fresh(), steps), k)
  {
    var m, s0 := PipeMonitor(true), Fresh();
    if k == 0 {
      steps := ReaderSleeps();
      RunMore(m, s0, steps, 1, 0);
      steps := steps + [(1, 0)];
      RunMore(m, s0, steps, 1, 4 * 513);
      steps := steps + [(1, 4 * 513)];
    } else {
      steps := WriterFills(k - 1);
      RunMore(m, s0, steps, 1, 0);
      steps := steps + [(1, 0)];
    }
  }

  /** A writer that is killed when the pipe is full leaves a reader asleep on a pipe full of data. */
  lemma KilledWriter() returns (steps: seq<(nat, nat)>)
    ensures Unused(true, Fresh())
    ensures var t := Run(PipeMonitor(true), Fresh(), steps);
            t.lock == -1 && |t.at| == 2 && t.at[0] == Asleep(READERS, ReadFirst(1))
              && t.data == PipeData(PIPESIZE, true, true, 1)
  {
    steps := WriterFills(PIPESIZE);
    RunMore(PipeMonitor(true), Fresh(), steps, 1, 0);
    steps := steps + [(1, 0)];
  }

  // With the lock free, a sleeping reader means an empty pipe with writers open
  ghost predicate ReadersRight(t: State<PipeData, PipeLocal>) {
    t.lock == -1 ==> forall p :: 0 <= p < |t.at| && t.at[p].Sleeps() && t.at[p].ch == READERS ==> Empty(t.data)
  }

  ghost predicate PipeSafe(kills: bool) {
    forall s, steps :: Unused(kills, s) ==> ReadersRight(Run(PipeMonitor(kills), s, steps))
  }

  lemma ReadersNoLostWakeup(s: State<PipeData, PipeLocal>, steps: seq<(nat, nat)>)
    requires Unused(false, s)
    ensures ReadersRight(Run(PipeMonitor(false), s, steps))
  {
    var t := Run(PipeMonitor(false), s, steps);
    PipeSound(false);
    SoundRuns(PipeMonitor(false), PipeInvOf(false), s, steps);
    CountedRun(false, s, steps);
    forall p | 0 <= p < |t.at| && t.at[p].Sleeps() && t.at[p].ch == READERS && t.lock == -1
      ensures Empty(t.data)
    {
      ReadersSleep(false, s, steps, p);
      SumAtLeast(t.at, p, ReadsOne);
    }
  }

  /** When pi->lock is free, a sleeping reader means an empty pipe with writers open, in every run, if
      and only if no writer is killed. */
  lemma PipeNoLostWakeupIff(kills: bool)
    ensures PipeSafe(kills) <==> !kills
  {
    if kills {
      var steps := KilledWriter();
      var t := Run(PipeMonitor(true), Fresh(), steps);
      assert t.at[0].Sleeps() && !Empty(t.data);
      assert !ReadersRight(t);
    } else {
      forall s, steps | Unused(false, s)
        ensures ReadersRight(Run(PipeMonitor(false), s, steps))
      {
        ReadersNoLostWakeup(s, steps);
      }
    }
  }
}
