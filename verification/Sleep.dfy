/** sleep and wakeup around a spinlock, for any number of processes and in any interleaving. A
    monitor is code that runs under one spinlock: it changes what the lock guards, calls wakeup,
    sleeps, or releases the lock. */
module Sleep {

  // What the code that holds the lock does next, and its local state after that
  datatype Action<R, L> =
    | Update(r: R, l: L)          // changes the guarded data
    | Wakeup(ch: nat, l: L)       // wakeup(ch)
    | Wait(ch: nat, l: L)         // sleep(ch, lock)
    | Leave(l: L)                 // release(lock)

  // act gives the next action from the data, the local state and an input that the code does not
  // control. waits says for which data a sleeper on a channel has reason to sleep. enters says in
  // which local states the lock may be acquired.
  datatype Monitor<!R(!new),
      !L(!new)> = Monitor(act: (R, L, nat) -> Action<R, L>, waits: (R, nat) -> bool, enters: L -> bool)

  // Where a process is. In has the lock; Scan is in wakeup(ch) and looks at process k next; Probe
  // has k's own lock too; Both has the lock and its own lock; Own has released the lock; Set is
  // SLEEPING but still on its CPU; Asleep is switched out; Woken has been made RUNNABLE.
  datatype Place<L> =
    | Out(l: L)
    | In(l: L)
    | Scan(ch: nat, k: nat, l: L)
    | Probe(ch: nat, k: nat, l: L)
    | Both(ch: nat, l: L)
    | Own(ch: nat, l: L)
    | Set(ch: nat, l: L)
    | Asleep(ch: nat, l: L)
    | Woken(l: L)
  {
    // The spinlock is held
    predicate Locks() { In? || Scan? || Probe? || Both? }

    // On the way into sleep, past the release of the lock
    predicate Sleeps() { Own? || Set? || Asleep? }
  }

  // lock: who holds the spinlock, own[k]: who holds process k's own lock, or -1. owes is ghost:
  // the channels whose sleepers may have lost their reason since the lock was taken.
  datatype State<R, L> = State(data: R, at: seq<Place<L>>, lock: int, own: seq<int>, owes: iset<nat>)

  datatype Option<T> = None | Some(value: T)

  ghost function Lost<R(!new), L(!new)>(m: Monitor<R, L>, r: R, r': R): iset<nat> {
    iset ch: nat | m.waits(r, ch) && !m.waits(r', ch)
  }

  // The action of a process that holds the lock
  ghost function Act<R(!new), L(!new)>(m: Monitor<R, L>, s: State<R, L>, p: nat, a: Action<R, L>): Option<State<R, L>>
    requires p < |s.at| == |s.own|
  {
    match a
    case Update(r, l) => Some(s.(data := r, at := s.at[p := In(l)], owes := s.owes + Lost(m, s.data, r)))
    case Wakeup(ch, l) => Some(s.(at := s.at[p := Scan(ch, 0, l)]))
    case Wait(ch, l) => if s.own[p] == -1 then Some(s.(at := s.at[p := Both(ch, l)], own := s.own[p := p])) else None
    case Leave(l) => Some(s.(at := s.at[p := Out(l)], lock := -1))
  }

  // The next step of process p, if it can take one
  ghost function Next<R(!new), L(!new)>(m: Monitor<R, L>, s: State<R, L>, p: nat, i: nat): Option<State<R, L>>
    requires p < |s.at| == |s.own|
  {
    match s.at[p]
    case Out(l) => if s.lock == -1 && m.enters(l) then Some(s.(at := s.at[p := In(l)], lock := p, owes := iset{}))
      else None
    case Woken(l) => if s.lock == -1 then Some(s.(at := s.at[p := In(l)], lock := p, owes := iset{})) else None
    case In(l) => Act(m, s, p, m.act(s.data, l, i))
    case Scan(ch, k, l) =>
      if k >= |s.at| then Some(s.(at := s.at[p := In(l)], owes := s.owes - iset{ch}))
      else if s.own[k] == -1 then Some(s.(at := s.at[p := Probe(ch, k, l)], own := s.own[k := p])) else None
    case Probe(ch, k, l) =>
      if k >= |s.at| then None
      else
        var t := if s.at[k].Asleep? && s.at[k].ch == ch then s.at[k := Woken(s.at[k].l)] else s.at;
        Some(s.(at := t[p := Scan(ch, k + 1, l)], own := s.own[k := -1]))
    case Both(ch, l) => Some(s.(at := s.at[p := Own(ch, l)], lock := -1))
    case Own(ch, l) => Some(s.(at := s.at[p := Set(ch, l)]))
    case Set(ch, l) => Some(s.(at := s.at[p := Asleep(ch, l)], own := s.own[p := -1]))
    case Asleep(ch, l) => if s.own[p] == -1 then Some(s.(at := s.at[p := Woken(l)])) else None      // kill
  }

  // Steps of any processes, in any order; a process that cannot move leaves the state as it is
  ghost function Run<R(!new), L(!new)>(m: Monitor<R, L>, s: State<R, L>, steps: seq<(nat, nat)>): State<R, L>
    requires |s.at| == |s.own|
  {
    if steps == [] then s
    else
      var t := Run(m, s, steps[..|steps| - 1]);
      var (p, i) := steps[|steps| - 1];
      if |t.at| == |t.own| && p < |t.at| && Next(m, t, p, i).Some? then Next(m, t, p, i).value else t
  }

  ghost predicate Start<R(!new), L(!new)>(m: Monitor<R, L>, s: State<R, L>) {
    |s.at| == |s.own| && s.lock == -1 && s.owes == iset{} && forall p :: 0 <= p < |s.at| ==>
      s.at[p].Out? && s.own[p] == -1
  }

  // ---------- what makes a monitor sound ----------

  // inv(data, local state, owes) holds whenever the lock is held. Then nothing is owed when the
  // lock is given up, and whoever sleeps has reason to.
  ghost predicate ActOk<R(!new),
      L(!new)>(m: Monitor<R, L>, inv: (R, L, iset<nat>) -> bool, r: R, l: L, owes: iset<nat>, i: nat) {
    inv(r, l, owes) ==>
      match m.act(r, l, i)
      case Update(r', l') => inv(r', l', owes + Lost(m, r, r'))
      case Wakeup(ch, l') => inv(r, l', owes - iset{ch})
      case Wait(ch, l') => owes == iset{} && m.waits(r, ch) && forall r' :: inv(r', l', iset{})
      case Leave(l') => owes == iset{}
  }

  ghost predicate Sound<R(!new), L(!new)>(m: Monitor<R, L>, inv: (R, L, iset<nat>) -> bool) {
    && (forall r, l :: m.enters(l) ==> inv(r, l, iset{}))
    && (forall r, l, owes, i: nat :: ActOk(m, inv, r, l, owes, i))
  }

  // ---------- the invariant ----------

  // A wakeup of ch that is under way has not come to process p yet
  predicate NotPassed<L>(h: Place<L>, ch: nat, p: nat) {
    match h
    case Scan(c, k, _) => c == ch ==> k <= p
    case Probe(c, k, _) => c == ch ==> k <= p
    case _ => true
  }

  // A sleeper has reason to sleep, or the holder of the lock still owes it a wakeup
  ghost predicate SleeperOk<R(!new), L(!new)>(m: Monitor<R, L>, s: State<R, L>, p: nat)
    requires p < |s.at|
  {
    s.at[p].Sleeps() ==>
      || m.waits(s.data, s.at[p].ch)
      || (0 <= s.lock < |s.at| && s.at[p].ch in s.owes && NotPassed(s.at[s.lock], s.at[p].ch, p))
  }

  ghost predicate PlaceOk<R(!new), L(!new)>(m: Monitor<R, L>, inv: (R, L, iset<nat>) -> bool, s: State<R, L>, p: nat)
    requires p < |s.at| == |s.own|
  {
    && (s.at[p].Locks() <==> s.lock == p)
    && (match s.at[p]
        case In(l) => inv(s.data, l, s.owes)
        case Scan(ch, k, l) => inv(s.data, l, s.owes - iset{ch})
        case Probe(ch, k, l) => inv(s.data, l, s.owes - iset{ch}) && k < |s.own| && s.own[k] == p
        case Both(ch, l) => s.own[p] == p && s.owes == iset{} && m.waits(s.data, ch) && forall r :: inv(r, l, iset{})
        case Own(ch, l) => s.own[p] == p && forall r :: inv(r, l, iset{})
        case Set(ch, l) => s.own[p] == p && forall r :: inv(r, l, iset{})
        case Asleep(ch, l) => forall r :: inv(r, l, iset{})
        case Woken(l) => forall r :: inv(r, l, iset{})
        case Out(l) => true)
  }

  ghost predicate Ok<R(!new), L(!new)>(m: Monitor<R, L>, inv: (R, L, iset<nat>) -> bool, s: State<R, L>) {
    && |s.at| == |s.own| && -1 <= s.lock < |s.at| && (s.lock == -1 ==> s.owes == iset{})
    && (forall p :: 0 <= p < |s.at| ==> PlaceOk(m, inv, s, p))
    && (forall p :: 0 <= p < |s.at| ==> SleeperOk(m, s, p))
  }

  lemma EnterKeeps<R(!new), L(!new)>(m: Monitor<R, L>, inv: (R, L, iset<nat>) -> bool, s: State<R, L>, p: nat, i: nat)
    requires Sound(m, inv) && Ok(m, inv, s) && p < |s.at| && (s.at[p].Out? || s.at[p].Woken?) && Next(m, s, p, i).Some?
    ensures Ok(m, inv, Next(m, s, p, i).value)
  {
    var t := Next(m, s, p, i).value;
    assert PlaceOk(m, inv, s, p);
    forall q | 0 <= q < |t.at|
      ensures PlaceOk(m, inv, t, q) && SleeperOk(m, t, q)
    {
      assert PlaceOk(m, inv, s, q) && SleeperOk(m, s, q);
    }
  }

  lemma UpdateKeeps<R(!new), L(!new)>(m: Monitor<R, L>, inv: (R, L, iset<nat>) -> bool, s: State<R, L>, p: nat, i: nat)
    requires Sound(m, inv) && Ok(m, inv, s) && p < |s.at| && s.at[p].In? && m.act(s.data, s.at[p].l, i).Update?
    ensures Next(m, s, p, i).Some? && Ok(m, inv, Next(m, s, p, i).value)
  {
    var t := Next(m, s, p, i).value;
    assert PlaceOk(m, inv, s, p) && ActOk(m, inv, s.data, s.at[p].l, s.owes, i);
    forall q | 0 <= q < |t.at|
      ensures PlaceOk(m, inv, t, q) && SleeperOk(m, t, q)
    {
      assert PlaceOk(m, inv, s, q) && SleeperOk(m, s, q);
    }
  }

  lemma ActKeeps<R(!new), L(!new)>(m: Monitor<R, L>, inv: (R, L, iset<nat>) -> bool, s: State<R, L>, p: nat, i: nat)
    requires Sound(m, inv) && Ok(m, inv, s) && p < |s.at| && s.at[p].In? && !m.act(s.data, s.at[p].l, i).Update?
    requires Next(m, s, p, i).Some?
    ensures Ok(m, inv, Next(m, s, p, i).value)
  {
    var t := Next(m, s, p, i).value;
    assert PlaceOk(m, inv, s, p) && ActOk(m, inv, s.data, s.at[p].l, s.owes, i);
    forall q | 0 <= q < |t.at|
      ensures PlaceOk(m, inv, t, q) && SleeperOk(m, t, q)
    {
      assert PlaceOk(m, inv, s, q) && SleeperOk(m, s, q);
    }
  }

  lemma ScanKeeps<R(!new), L(!new)>(m: Monitor<R, L>, inv: (R, L, iset<nat>) -> bool, s: State<R, L>, p: nat, i: nat)
    requires Sound(m, inv) && Ok(m, inv, s) && p < |s.at| && s.at[p].Scan? && Next(m, s, p, i).Some?
    ensures Ok(m, inv, Next(m, s, p, i).value)
  {
    var t := Next(m, s, p, i).value;
    assert PlaceOk(m, inv, s, p);
    forall q | 0 <= q < |t.at|
      ensures PlaceOk(m, inv, t, q) && SleeperOk(m, t, q)
    {
      assert PlaceOk(m, inv, s, q) && SleeperOk(m, s, q);
    }
  }

  lemma ProbeKeeps<R(!new), L(!new)>(m: Monitor<R, L>, inv: (R, L, iset<nat>) -> bool, s: State<R, L>, p: nat, i: nat)
    requires Sound(m, inv) && Ok(m, inv, s) && p < |s.at| && s.at[p].Probe? && Next(m, s, p, i).Some?
    ensures Ok(m, inv, Next(m, s, p, i).value)
  {
    var t, k := Next(m, s, p, i).value, s.at[p].k;
    assert PlaceOk(m, inv, s, p) && PlaceOk(m, inv, s, k);
    forall q | 0 <= q < |t.at|
      ensures PlaceOk(m, inv, t, q) && SleeperOk(m, t, q)
    {
      assert PlaceOk(m, inv, s, q) && SleeperOk(m, s, q);
    }
  }

  lemma SleepKeeps<R(!new), L(!new)>(m: Monitor<R, L>, inv: (R, L, iset<nat>) -> bool, s: State<R, L>, p: nat, i: nat)
    requires Sound(m, inv) && Ok(m, inv, s) && p < |s.at| && (s.at[p].Both? || s.at[p].Sleeps())
    requires Next(m, s, p, i).Some?
    ensures Ok(m, inv, Next(m, s, p, i).value)
  {
    var t := Next(m, s, p, i).value;
    assert PlaceOk(m, inv, s, p) && SleeperOk(m, s, p);
    forall q | 0 <= q < |t.at|
      ensures PlaceOk(m, inv, t, q) && SleeperOk(m, t, q)
    {
      assert PlaceOk(m, inv, s, q) && SleeperOk(m, s, q);
    }
  }

  lemma StepKeeps<R(!new), L(!new)>(m: Monitor<R, L>, inv: (R, L, iset<nat>) -> bool, s: State<R, L>, p: nat, i: nat)
    requires Sound(m, inv) && Ok(m, inv, s) && p < |s.at| && Next(m, s, p, i).Some?
    ensures Ok(m, inv, Next(m, s, p, i).value)
  {
    match s.at[p]
    case Out(_) => EnterKeeps(m, inv, s, p, i);
    case Woken(_) => EnterKeeps(m, inv, s, p, i);
    case In(l) =>
      if m.act(s.data, l, i).Update? {
        UpdateKeeps(m, inv, s, p, i);
      } else {
        ActKeeps(m, inv, s, p, i);
      }
    case Scan(_, _, _) => ScanKeeps(m, inv, s, p, i);
    case Probe(_, _, _) => ProbeKeeps(m, inv, s, p, i);
    case _ => SleepKeeps(m, inv, s, p, i);
  }

  lemma {:induction false} RunKeeps<R(!new),
      L(!new)>(m: Monitor<R, L>, inv: (R, L, iset<nat>) -> bool, s: State<R, L>, steps: seq<(nat, nat)>)
    requires Sound(m, inv) && Start(m, s)
    ensures Ok(m, inv, Run(m, s, steps))
  {
    if steps == [] {
      forall p | 0 <= p < |s.at|
        ensures PlaceOk(m, inv, s, p) && SleeperOk(m, s, p)
      {
      }
    } else {
      var before := steps[..|steps| - 1];
      var (p, i) := steps[|steps| - 1];
      RunKeeps(m, inv, s, before);
      var t := Run(m, s, before);
      if p < |t.at| && Next(m, t, p, i).Some? {
        StepKeeps(m, inv, t, p, i);
      }
    }
  }

  // With the lock free, whoever is asleep, or about to be, has reason to sleep
  ghost predicate NoLostWakeup<R(!new), L(!new)>(m: Monitor<R, L>, s: State<R, L>) {
    s.lock == -1 ==> forall p :: 0 <= p < |s.at| && s.at[p].Sleeps() ==> m.waits(s.data, s.at[p].ch)
  }

  /** No lost wakeup, in every run of every sound monitor. */
  lemma SoundRuns<R(!new),
      L(!new)>(m: Monitor<R, L>, inv: (R, L, iset<nat>) -> bool, s: State<R, L>, steps: seq<(nat, nat)>)
    requires Sound(m, inv) && Start(m, s)
    ensures NoLostWakeup(m, Run(m, s, steps))
  {
    RunKeeps(m, inv, s, steps);
    var t := Run(m, s, steps);
    forall p | 0 <= p < |t.at| && t.at[p].Sleeps() && t.lock == -1
      ensures m.waits(t.data, t.at[p].ch)
    {
      assert SleeperOk(m, t, p);
    }
  }
}
