/** The cache of in-memory inodes: which inode an entry stands for, who refers to it, and whether
    what it says is what the disk says. Every step is what runs under icache.lock, under the
    inode's sleep lock, or as one change of a disk block. */
module InodeCache {

  // An inode on disk: its type, 0 if free, its links, and the rest
  datatype Dinode = Dinode(kind: nat, nlink: nat, rest: nat)

  // toks is ghost: one token for each pointer that ref counts. holder: who has the sleep lock.
  datatype Entry = Entry(inum: nat, ref: nat, valid: bool, fields: Dinode, holder: int, toks: set<nat>)

  // Where a process is; e is the entry and t the reference it uses
  datatype Pc =
    | Idle
    | Allocated(inum: nat)              // ialloc has marked the inode, iget comes next
    | Locking(e: nat, t: nat)           // in ilock, before the sleep lock
    | Got(e: nat, t: nat)               // in ilock, with the sleep lock
    | Locked(e: nat, t: nat)            // ilock has returned
    | Dirty(e: nat, t: nat)             // fields changed, iupdate comes next
    | Freeing(e: nat, t: nat)           // in iput, with the sleep lock, before iupdate
    | Freed(e: nat, t: nat)             // the inode is free on disk
    | Forgotten(e: nat, t: nat)         // valid cleared
    | Dropping(e: nat, t: nat)          // sleep lock released

  // made: tokens so far. holey: the inodes whose files may have holes.
  datatype State = State(entries: seq<Entry>, disk: map<nat, Dinode>, procs: seq<Pc>, made: nat, holey: set<nat>)

  datatype Option<T> = None | Some(value: T)

  datatype Step =
    | Iget(inum: nat)
    | Idup(e: nat, t: nat)
    | Ialloc(inum: nat, kind: nat)
    | Ilock(e: nat, t: nat)
    | Change(f: Dinode)
    | Fill(rest: nat)          // readi has bmap put a block into a hole; no iupdate follows
    | Iunlock
    | Iput(e: nat, t: nat)
    | Go

  predicate Uses(pc: Pc, e: nat, t: nat) {
    !pc.Idle? && !pc.Allocated? && pc.e == e && pc.t == t
  }

  predicate HoldsLock(pc: Pc, e: nat) {
    (pc.Got? || pc.Locked? || pc.Dirty? || pc.Freeing? || pc.Freed? || pc.Forgotten?) && pc.e == e
  }

  // ---------- iget ----------

  predicate Stands(x: Entry, inum: nat) { x.ref > 0 && x.inum == inum }

  // The entry for inum, or else the first unused one; |es| if there is neither
  function Slot(es: seq<Entry>, inum: nat): (i: nat)
    ensures i <= |es|
    ensures i < |es| ==> Stands(es[i], inum) || (es[i].ref == 0 && forall j :: 0 <= j < |es| ==> !Stands(es[j], inum))
    ensures i == |es| ==> forall j :: 0 <= j < |es| ==> es[j].ref > 0 && !Stands(es[j], inum)
  {
    if Cached(es, inum, 0) < |es| then Cached(es, inum, 0) else Unused(es, 0)
  }

  function Cached(es: seq<Entry>, inum: nat, i: nat): (r: nat)
    requires i <= |es|
    ensures i <= r <= |es| && (r < |es| ==> Stands(es[r], inum)) && forall j :: i <= j < r ==> !Stands(es[j], inum)
    decreases |es| - i
  {
    if i == |es| || Stands(es[i], inum) then i else Cached(es, inum, i + 1)
  }

  function Unused(es: seq<Entry>, i: nat): (r: nat)
    requires i <= |es|
    ensures i <= r <= |es| && (r < |es| ==> es[r].ref == 0) && forall j :: i <= j < r ==> es[j].ref > 0
    decreases |es| - i
  {
    if i == |es| || es[i].ref == 0 then i else Unused(es, i + 1)
  }

  /** iget's single pass over the cache finds the same entry. */
  method FindSlot(es: seq<Entry>, inum: nat) returns (i: nat)
    ensures i == Slot(es, inum)
  {
    var empty := |es|;
    i := 0;
    while i < |es|
      invariant 0 <= i <= |es| && empty <= |es| && Cached(es, inum, 0) == Cached(es, inum, i)
      invariant empty == |es| ==> Unused(es, 0) == Unused(es, i)
      invariant empty < |es| ==> Unused(es, 0) == empty
    {
      if es[i].ref > 0 && es[i].inum == inum {
        return;
      }
      if empty == |es| && es[i].ref == 0 {
        empty := i;
      }
      i := i + 1;
    }
    return empty;
  }

  function Referred(x: Entry, inum: nat, t: nat): Entry {
    if Stands(x, inum) then x.(ref := x.ref + 1, toks := x.toks + {t})
    else Entry(inum, 1, false, x.fields, x.holder, {t})
  }

  function IgetNext(s: State, p: nat, inum: nat): Option<State>
    requires p < |s.procs|
  {
    var i := Slot(s.entries, inum);
    if i < |s.entries|
    then Some(s.(entries := s.entries[i := Referred(s.entries[i], inum, s.made)],
                 procs := s.procs[p := Idle], made := s.made + 1))
    else None                                            // panic
  }

  // ---------- the other steps ----------

  function To(s: State, p: nat, pc: Pc): State
    requires p < |s.procs|
  {
    s.(procs := s.procs[p := pc])
  }

  function SetEntry(s: State, e: nat, x: Entry): State
    requires e < |s.entries|
  {
    s.(entries := s.entries[e := x])
  }

  predicate Unshared(s: State, p: nat, e: nat, t: nat) {
    forall q :: 0 <= q < |s.procs| && q != p ==> !Uses(s.procs[q], e, t)
  }

  // The process is giving up the reference
  predicate Puts(pc: Pc, e: nat, t: nat) {
    (pc.Freeing? || pc.Freed? || pc.Forgotten? || pc.Dropping?) && pc.e == e && pc.t == t
  }

  predicate Kept(s: State, e: nat, t: nat) {
    forall q :: 0 <= q < |s.procs| ==> !Puts(s.procs[q], e, t)
  }

  // What is left of a reference when iput drops it
  function Dropped(x: Entry, t: nat): Entry
    requires x.ref > 0
  {
    x.(ref := x.ref - 1, toks := x.toks - {t})
  }

  // A step from Idle
  function Begin(s: State, p: nat, a: Step): Option<State>
    requires p < |s.procs|
  {
    match a
    case Iget(inum) => if inum in s.disk then IgetNext(s, p, inum) else None
    case Idup(e, t) =>
      if e < |s.entries| && t in s.entries[e].toks && Kept(s, e, t)
      then
        var x := s.entries[e];
        Some(SetEntry(s, e, x.(ref := x.ref + 1, toks := x.toks + {s.made})).(made := s.made + 1))
      else None
    case Ialloc(inum, kind) =>
      if inum in s.disk && s.disk[inum].kind == 0 && kind > 0
      then Some(To(s.(disk := s.disk[inum := Dinode(kind, 0, 0)]), p, Allocated(inum))) else None
    case Ilock(e, t) =>
      if e < |s.entries| && t in s.entries[e].toks && Kept(s, e, t) then Some(To(s, p, Locking(e, t))) else None
    case Iput(e, t) =>
      if e < |s.entries| && t in s.entries[e].toks && s.entries[e].ref > 0 && Unshared(s, p, e, t) then
        var x := s.entries[e];
        if x.ref == 1 && x.valid && x.fields.nlink == 0
        // None: would sleep with icache.lock
        then (if x.holder == -1 then Some(To(SetEntry(s, e, x.(holder := p)), p, Freeing(e, t))) else None)
        else Some(SetEntry(s, e, Dropped(x, t)))
      else None
    case _ => None
  }

  // A step of a process that is in the middle of something
  function Continue(s: State, p: nat, a: Step): Option<State>
    requires p < |s.procs| && !s.procs[p].Idle? && !s.procs[p].Allocated? && s.procs[p].e < |s.entries|
  {
    var pc := s.procs[p];
    var e, t, x := pc.e, pc.t, s.entries[pc.e];
    if x.inum !in s.disk then None
    else
      match pc
      case Locking(_, _) => if a.Go? && x.holder == -1 then Some(To(SetEntry(s, e, x.(holder := p)), p, Got(e, t)))
        else None
      case Got(_, _) =>
        if !a.Go? then None
        else if x.valid then Some(To(s, p, Locked(e, t)))
        // panic
        else if s.disk[x.inum].kind == 0 then None
        else Some(To(SetEntry(s, e, x.(fields := s.disk[x.inum], valid := true)), p, Locked(e, t)))
      case Locked(_, _) =>
        if a.Change? && a.f.kind > 0 then Some(To(SetEntry(s, e, x.(fields := a.f)), p, Dirty(e, t)))
        else if a.Fill? && x.inum in s.holey && a.rest != x.fields.rest
        then Some(SetEntry(s, e, x.(fields := x.fields.(rest := a.rest))))
        else if a.Iunlock? then Some(To(SetEntry(s, e, x.(holder := -1)), p, Idle)) else None
      case Dirty(_, _) => if a.Go? then Some(To(s.(disk := s.disk[x.inum := x.fields]), p, Locked(e, t))) else None
      case Freeing(_, _) =>
        if a.Go? then
          var f := x.fields.(kind := 0, rest := 0);
          Some(To(SetEntry(s, e, x.(fields := f)).(disk := s.disk[x.inum := f]), p, Freed(e, t)))
        else None
      case Freed(_, _) => if a.Go? then Some(To(SetEntry(s, e, x.(valid := false)), p, Forgotten(e, t))) else None
      case Forgotten(_, _) => if a.Go? then Some(To(SetEntry(s, e, x.(holder := -1)), p, Dropping(e, t))) else None
      case Dropping(_, _) => if a.Go? && x.ref > 0 then Some(To(SetEntry(s, e, Dropped(x, t)), p, Idle)) else None
  }

  function Next(s: State, p: nat, a: Step): Option<State>
    requires p < |s.procs|
  {
    match s.procs[p]
    case Idle => Begin(s, p, a)
    case Allocated(inum) => if a.Go? then IgetNext(s, p, inum) else None
    case _ => if s.procs[p].e < |s.entries| then Continue(s, p, a) else None
  }

  // ---------- the invariant ----------

  // Between changing the entry and changing the disk, or forgetting the entry
  predicate Pending(pc: Pc, e: nat) { (pc.Dirty? || pc.Freeing? || pc.Freed?) && pc.e == e }

  predicate Exempt(s: State, e: nat)
    requires e < |s.entries|
  {
    var h := s.entries[e].holder;
    0 <= h < |s.procs| && Pending(s.procs[h], e)
  }

  ghost predicate EntryOk(s: State, e: nat)
    requires e < |s.entries|
  {
    var x := s.entries[e];
    && x.ref == |x.toks| && (forall t :: t in x.toks ==> t < s.made) && (x.ref > 0 ==> x.inum in s.disk)
    && -1 <= x.holder < |s.procs| && (x.holder >= 0 ==> HoldsLock(s.procs[x.holder], e))
    && (x.ref > 0 && x.valid && !Exempt(s, e) ==> Agrees(s, x))
  }

  // The entry has the type and the links of the inode on disk, and all the rest unless a hole was filled
  predicate Agrees(s: State, x: Entry)
    requires x.inum in s.disk
  {
    var d := s.disk[x.inum];
    x.fields.kind == d.kind > 0 && x.fields.nlink == d.nlink && (x.inum !in s.holey ==> x.fields == d)
  }

  ghost predicate PcOk(s: State, p: nat)
    requires p < |s.procs|
  {
    var pc := s.procs[p];
    && (pc.Allocated? ==> pc.inum in s.disk)
    && (!pc.Idle? && !pc.Allocated? ==>
          && pc.e < |s.entries| && pc.t in s.entries[pc.e].toks && (HoldsLock(pc, pc.e) ==> s.entries[pc.e].holder == p)
          && (pc.Locked? || pc.Dirty? || pc.Freeing? || pc.Freed? ==> s.entries[pc.e].valid)
          && (pc.Forgotten? ==> !s.entries[pc.e].valid) && (pc.Dirty? ==> s.entries[pc.e].fields.kind > 0)
          && (Puts(pc, pc.e, pc.t) ==> Unshared(s, p, pc.e, pc.t)))
  }

  // iput frees an inode that is allocated and has no links, on disk as in the entry
  ghost predicate FreeingOk(s: State, p: nat)
    requires p < |s.procs|
  {
    var pc := s.procs[p];
    pc.Freeing? ==>
      && pc.e < |s.entries|
      && var x := s.entries[pc.e];
         x.inum in s.disk && s.disk[x.inum].kind > 0 && s.disk[x.inum].nlink == 0 && x.fields.nlink == 0
  }

  ghost predicate Apart(s: State, e: nat, f: nat)
    requires e < |s.entries| && f < |s.entries|
  {
    var x, y := s.entries[e], s.entries[f];
    e != f ==> x.toks !! y.toks && (x.ref > 0 && y.ref > 0 ==> x.inum != y.inum)
  }

  ghost predicate Ok(s: State) {
    && (forall e :: 0 <= e < |s.entries| ==> EntryOk(s, e))
    && (forall p :: 0 <= p < |s.procs| ==> PcOk(s, p)) && (forall p :: 0 <= p < |s.procs| ==> FreeingOk(s, p))
    && (forall e, f :: 0 <= e < |s.entries| && 0 <= f < |s.entries| ==> Apart(s, e, f))
  }

  // A reference means that the count is not 0
  lemma Counted(x: Entry, t: nat)
    requires x.ref == |x.toks| && t in x.toks
    ensures x.ref > 0
  {
  }

  lemma ReferredOk(x: Entry, inum: nat, t: nat)
    requires x.ref == |x.toks| && t !in x.toks
    ensures var y := Referred(x, inum, t);
        y.ref == |y.toks| && y.inum == inum && y.ref > 0 && y.holder == x.holder
        && (x.ref > 0 && Stands(x, inum) ==> x.toks <= y.toks)
  {
  }

  lemma DroppedOk(x: Entry, t: nat)
    requires x.ref == |x.toks| && t in x.toks
    ensures x.ref > 0 && Dropped(x, t).ref == |Dropped(x, t).toks|
  {
  }

  lemma IgetEntry(s: State, p: nat, inum: nat, e: nat)
    requires Ok(s) && p < |s.procs| && (s.procs[p].Idle? || s.procs[p].Allocated?) && inum in s.disk
    requires IgetNext(s, p, inum).Some? && e < |s.entries|
    ensures |IgetNext(s, p, inum).value.entries| == |s.entries| && EntryOk(IgetNext(s, p, inum).value, e)
  {
    assert EntryOk(s, e);
    if e == Slot(s.entries, inum) {
      ReferredOk(s.entries[e], inum, s.made);
    }
  }

  lemma IgetApart(s: State, p: nat, inum: nat, e: nat, f: nat)
    requires Ok(s) && p < |s.procs| && IgetNext(s, p, inum).Some? && e < |s.entries| && f < |s.entries|
    ensures |IgetNext(s, p, inum).value.entries| == |s.entries| && Apart(IgetNext(s, p, inum).value, e, f)
  {
    assert Apart(s, e, f) && EntryOk(s, e) && EntryOk(s, f);
  }

  lemma IgetKeeps(s: State, p: nat, inum: nat)
    requires Ok(s) && p < |s.procs| && (s.procs[p].Idle? || s.procs[p].Allocated?) && inum in s.disk
    requires IgetNext(s, p, inum).Some?
    ensures Ok(IgetNext(s, p, inum).value)
  {
    var u, i := IgetNext(s, p, inum).value, Slot(s.entries, inum);
    assert EntryOk(s, i);
    forall e | 0 <= e < |u.entries|
      ensures EntryOk(u, e)
    {
      IgetEntry(s, p, inum, e);
    }
    forall q | 0 <= q < |u.procs|
      ensures PcOk(u, q) && FreeingOk(u, q)
    {
      assert PcOk(s, q) && FreeingOk(s, q);
    }
    forall e, f | 0 <= e < |u.entries| && 0 <= f < |u.entries|
      ensures Apart(u, e, f)
    {
      IgetApart(s, p, inum, e, f);
    }
  }

  lemma IdupEntry(s: State, p: nat, a: Step, e: nat)
    requires Ok(s) && p < |s.procs| && s.procs[p].Idle? && Begin(s, p, a).Some? && e < |s.entries| && a.Idup?
    ensures |Begin(s, p, a).value.entries| == |s.entries| && EntryOk(Begin(s, p, a).value, e)
  {
    assert EntryOk(s, e);
    assert s.made !in s.entries[e].toks;
  }

  lemma IputEntry(s: State, p: nat, a: Step, e: nat)
    requires Ok(s) && p < |s.procs| && s.procs[p].Idle? && Begin(s, p, a).Some? && e < |s.entries| && a.Iput?
    ensures |Begin(s, p, a).value.entries| == |s.entries| && EntryOk(Begin(s, p, a).value, e)
  {
    assert EntryOk(s, e);
    if a.e == e {
      DroppedOk(s.entries[e], a.t);
    }
  }

  // A free inode has no valid entry, so marking it allocated contradicts none
  lemma IallocEntry(s: State, p: nat, a: Step, e: nat)
    requires Ok(s) && p < |s.procs| && s.procs[p].Idle? && Begin(s, p, a).Some? && e < |s.entries|
    requires (a.Ialloc? || a.Ilock?)
    ensures |Begin(s, p, a).value.entries| == |s.entries| && EntryOk(Begin(s, p, a).value, e)
  {
    assert EntryOk(s, e);
  }

  lemma BeginEntry(s: State, p: nat, a: Step, e: nat)
    requires Ok(s) && p < |s.procs| && s.procs[p].Idle? && Begin(s, p, a).Some? && e < |s.entries| && !a.Iget?
    ensures |Begin(s, p, a).value.entries| == |s.entries| && EntryOk(Begin(s, p, a).value, e)
  {
    if a.Idup? {
      IdupEntry(s, p, a, e);
    } else if a.Iput? {
      IputEntry(s, p, a, e);
    } else {
      IallocEntry(s, p, a, e);
    }
  }

  lemma BeginApart(s: State, p: nat, a: Step, e: nat, f: nat)
    requires Ok(s) && p < |s.procs| && s.procs[p].Idle? && Begin(s, p, a).Some? && e < |s.entries| && f < |s.entries|
    requires !a.Iget?
    ensures |Begin(s, p, a).value.entries| == |s.entries| && Apart(Begin(s, p, a).value, e, f)
  {
    assert Apart(s, e, f) && EntryOk(s, e) && EntryOk(s, f);
    BeginRefs(s, p, a, e);
    BeginRefs(s, p, a, f);
  }

  // An entry keeps its inode number, and its references but for a new one or the last
  lemma BeginRefs(s: State, p: nat, a: Step, e: nat)
    requires p < |s.procs| && Begin(s, p, a).Some? && e < |s.entries| && !a.Iget?
    requires s.entries[e].ref == |s.entries[e].toks|
    ensures
      var u, x := Begin(s, p, a).value, s.entries[e];
      && |u.entries| == |s.entries| && u.entries[e].inum == x.inum && (x.ref == 0 ==> u.entries[e].ref == 0)
      && u.entries[e].toks <= x.toks + (if a.Idup? && a.e == e then {s.made} else {})
  {
  }

  lemma BeginPc(s: State, p: nat, a: Step, q: nat)
    requires Ok(s) && p < |s.procs| && s.procs[p].Idle? && !a.Iget? && Begin(s, p, a).Some? && q < |s.procs|
    ensures |Begin(s, p, a).value.procs| == |s.procs| && PcOk(Begin(s, p, a).value, q)
  {
    assert PcOk(s, q) && PcOk(s, p);
  }

  lemma BeginFreeing(s: State, p: nat, a: Step, q: nat)
    requires Ok(s) && p < |s.procs| && s.procs[p].Idle? && !a.Iget? && Begin(s, p, a).Some? && q < |s.procs|
    ensures |Begin(s, p, a).value.procs| == |s.procs| && FreeingOk(Begin(s, p, a).value, q)
  {
    assert FreeingOk(s, q);
    if q == p && a.Iput? {
      assert EntryOk(s, a.e);
    }
  }

  lemma BeginKeeps(s: State, p: nat, a: Step)
    requires Ok(s) && p < |s.procs| && s.procs[p].Idle? && !a.Iget? && Begin(s, p, a).Some?
    ensures Ok(Begin(s, p, a).value)
  {
    var u := Begin(s, p, a).value;
    forall e | 0 <= e < |u.entries|
      ensures EntryOk(u, e)
    {
      BeginEntry(s, p, a, e);
    }
    forall q | 0 <= q < |u.procs|
      ensures PcOk(u, q) && FreeingOk(u, q)
    {
      BeginPc(s, p, a, q);
      BeginFreeing(s, p, a, q);
    }
    forall e, f | 0 <= e < |u.entries| && 0 <= f < |u.entries|
      ensures Apart(u, e, f)
    {
      BeginApart(s, p, a, e, f);
    }
  }

  lemma ContinueEntry(s: State, p: nat, a: Step, e: nat)
    requires Ok(s) && p < |s.procs| && !s.procs[p].Idle? && !s.procs[p].Allocated? && s.procs[p].e < |s.entries|
    requires Continue(s, p, a).Some? && e < |s.entries|
    ensures |Continue(s, p, a).value.entries| == |s.entries| && EntryOk(Continue(s, p, a).value, e)
  {
    assert PcOk(s, p) && EntryOk(s, s.procs[p].e);
    assert EntryOk(s, e) && Apart(s, e, s.procs[p].e);
    DroppedOk(s.entries[s.procs[p].e], s.procs[p].t);
  }

  // No one else comes to use a reference that is being given up
  lemma ContinueShares(s: State, p: nat, a: Step, q: nat)
    requires Ok(s) && p < |s.procs| && !s.procs[p].Idle? && !s.procs[p].Allocated? && s.procs[p].e < |s.entries|
    requires Continue(s, p, a).Some? && q < |s.procs|
    ensures var u := Continue(s, p, a).value;
            |u.procs| == |s.procs|
              && (!u.procs[q].Idle? && !u.procs[q].Allocated? && Puts(u.procs[q], u.procs[q].e, u.procs[q].t) ==>
              Unshared(u, q, u.procs[q].e, u.procs[q].t))
  {
    assert PcOk(s, p) && PcOk(s, q);
    var u := Continue(s, p, a).value;
    var pc := u.procs[q];
    if !pc.Idle? && !pc.Allocated? && Puts(pc, pc.e, pc.t) {
      forall r | 0 <= r < |u.procs| && r != q
        ensures !Uses(u.procs[r], pc.e, pc.t)
      {
        assert !Uses(s.procs[r], pc.e, pc.t);
      }
    }
  }

  lemma ContinueOther(s: State, p: nat, a: Step, q: nat)
    requires Ok(s) && p < |s.procs| && !s.procs[p].Idle? && !s.procs[p].Allocated? && s.procs[p].e < |s.entries|
    requires Continue(s, p, a).Some? && q < |s.procs| && q != p
    ensures |Continue(s, p, a).value.procs| == |s.procs| && PcOk(Continue(s, p, a).value, q)
  {
    assert PcOk(s, p) && EntryOk(s, s.procs[p].e) && PcOk(s, q);
    ContinueShares(s, p, a, q);
  }

  // Only who holds an inode's lock changes it, but for ialloc, which takes free ones
  lemma ContinueFreeing(s: State, p: nat, a: Step, q: nat)
    requires Ok(s) && p < |s.procs| && !s.procs[p].Idle? && !s.procs[p].Allocated? && s.procs[p].e < |s.entries|
    requires Continue(s, p, a).Some? && q < |s.procs| && q != p
    ensures |Continue(s, p, a).value.procs| == |s.procs| && FreeingOk(Continue(s, p, a).value, q)
  {
    assert FreeingOk(s, q) && PcOk(s, p) && PcOk(s, q);
    var e := s.procs[p].e;
    if s.procs[q].Freeing? {
      var f := s.procs[q].e;
      assert Apart(s, e, f) && EntryOk(s, e) && EntryOk(s, f);
      Counted(s.entries[e], s.procs[p].t);
      Counted(s.entries[f], s.procs[q].t);
    }
  }

  lemma ContinueSelf(s: State, p: nat, a: Step)
    requires Ok(s) && p < |s.procs| && !s.procs[p].Idle? && !s.procs[p].Allocated? && s.procs[p].e < |s.entries|
    requires Continue(s, p, a).Some?
    ensures |Continue(s, p, a).value.procs| == |s.procs| && PcOk(Continue(s, p, a).value, p)
  {
    assert PcOk(s, p) && EntryOk(s, s.procs[p].e);
    ContinueShares(s, p, a, p);
  }

  lemma ContinueApart(s: State, p: nat, a: Step, e: nat, f: nat)
    requires Ok(s) && p < |s.procs| && !s.procs[p].Idle? && !s.procs[p].Allocated? && s.procs[p].e < |s.entries|
    requires Continue(s, p, a).Some? && e < |s.entries| && f < |s.entries|
    ensures |Continue(s, p, a).value.entries| == |s.entries| && Apart(Continue(s, p, a).value, e, f)
  {
    assert Apart(s, e, f) && EntryOk(s, e) && EntryOk(s, f);
    ContinueRefs(s, p, a, e);
    ContinueRefs(s, p, a, f);
  }

  // An entry keeps its inode number, and gets no new reference
  lemma ContinueRefs(s: State, p: nat, a: Step, e: nat)
    requires p < |s.procs| && !s.procs[p].Idle? && !s.procs[p].Allocated? && s.procs[p].e < |s.entries|
    requires Continue(s, p, a).Some? && e < |s.entries|
    ensures
      var u := Continue(s, p, a).value;
      |u.entries| == |s.entries| && u.entries[e].inum == s.entries[e].inum && u.entries[e].toks <= s.entries[e].toks
        && u.entries[e].ref <= s.entries[e].ref
  {
  }

  lemma ContinueKeeps(s: State, p: nat, a: Step)
    requires Ok(s) && p < |s.procs| && !s.procs[p].Idle? && !s.procs[p].Allocated? && s.procs[p].e < |s.entries|
    requires Continue(s, p, a).Some?
    ensures Ok(Continue(s, p, a).value)
  {
    var u := Continue(s, p, a).value;
    forall e | 0 <= e < |u.entries|
      ensures EntryOk(u, e)
    {
      ContinueEntry(s, p, a, e);
    }
    forall q | 0 <= q < |u.procs|
      ensures PcOk(u, q) && FreeingOk(u, q)
    {
      if q == p {
        ContinueSelf(s, p, a);
      } else {
        ContinueOther(s, p, a, q);
        ContinueFreeing(s, p, a, q);
      }
    }
    forall e, f | 0 <= e < |u.entries| && 0 <= f < |u.entries|
      ensures Apart(u, e, f)
    {
      ContinueApart(s, p, a, e, f);
    }
  }

  lemma StepKeeps(s: State, p: nat, a: Step)
    requires Ok(s) && p < |s.procs| && Next(s, p, a).Some?
    ensures Ok(Next(s, p, a).value)
  {
    assert PcOk(s, p);
    match s.procs[p]
    case Idle =>
      if a.Iget? {
        IgetKeeps(s, p, a.inum);
      } else {
        BeginKeeps(s, p, a);
      }
    case Allocated(inum) => IgetKeeps(s, p, inum);
    case _ => ContinueKeeps(s, p, a);
  }

  // Steps of any processes in any order; one that cannot move leaves the state as it is
  function Run(s: State, steps: seq<(nat, Step)>): State {
    if steps == [] then s
    else
      var t, x := Run(s, steps[..|steps| - 1]), steps[|steps| - 1];
      if x.0 < |t.procs| && Next(t, x.0, x.1).Some? then Next(t, x.0, x.1).value else t
  }

  ghost predicate Start(s: State) {
    && (forall e :: 0 <= e < |s.entries| ==>
         s.entries[e].ref == 0 && s.entries[e].toks == {} && s.entries[e].holder == -1)
    && (forall p :: 0 <= p < |s.procs| ==> s.procs[p] == Idle)
  }

  lemma {:induction false} RunKeeps(s: State, steps: seq<(nat, Step)>)
    requires Start(s)
    ensures Ok(Run(s, steps))
  {
    if steps == [] {
      forall e, f | 0 <= e < |s.entries| && 0 <= f < |s.entries|
        ensures EntryOk(s, e) && Apart(s, e, f)
      {
      }
    } else {
      var before, x := steps[..|steps| - 1], steps[|steps| - 1];
      RunKeeps(s, before);
      var t := Run(s, before);
      if x.0 < |t.procs| && Next(t, x.0, x.1).Some? {
        StepKeeps(t, x.0, x.1);
      }
    }
  }

  /** In every run, no inode has two entries in use. */
  lemma OneEntryEach(s: State, steps: seq<(nat, Step)>, e: nat, f: nat, inum: nat)
    requires Start(s)
    ensures var t := Run(s, steps);
            e < |t.entries| && f < |t.entries| && Stands(t.entries[e], inum) && Stands(t.entries[f], inum) ==> e == f
  {
    RunKeeps(s, steps);
    var t := Run(s, steps);
    if e < |t.entries| && f < |t.entries| {
      assert Apart(t, e, f);
    }
  }

  // Process p has returned from ilock of inode inum
  ghost predicate HasLocked(t: State, p: nat, inum: nat) {
    && p < |t.procs| && t.procs[p].Locked? && t.procs[p].e < |t.entries|
    && t.entries[t.procs[p].e].inum == inum
  }

  /** In every run, whoever has returned from ilock finds in the entry the type and the links that are
      on disk, of an inode that is allocated; also if the number was freed and given out again
      meanwhile. The rest is as on disk too if the file has no holes. */
  lemma IlockAgrees(s: State, steps: seq<(nat, Step)>, p: nat)
    requires Start(s)
    ensures var t := Run(s, steps);
            p < |t.procs| && t.procs[p].Locked? ==>
              && t.procs[p].e < |t.entries|
              && var x := t.entries[t.procs[p].e];
                 x.valid && x.ref > 0 && x.inum in t.disk && Agrees(t, x)
  {
    RunKeeps(s, steps);
    var t := Run(s, steps);
    if p < |t.procs| && t.procs[p].Locked? {
      assert PcOk(t, p) && EntryOk(t, t.procs[p].e);
      Counted(t.entries[t.procs[p].e], t.procs[p].t);
    }
  }

  // ---------- holes ----------

  lemma RunMore(s: State, steps: seq<(nat, Step)>, t: State, p: nat, a: Step, u: State)
    requires Run(s, steps) == t && p < |t.procs| && Next(t, p, a) == Some(u)
    ensures Run(s, steps + [(p, a)]) == u
  {
    var more := steps + [(p, a)];
    assert more[..|more| - 1] == steps;
  }

  // Process 0 has got inode inum, in use on disk, in entry 0
  ghost predicate Gotten(t: State, inum: nat, tok: nat) {
    && |t.procs| > 0 && t.procs[0] == Idle && |t.entries| > 0 && inum in t.disk && t.disk[inum].kind > 0
    && t.entries[0] == Entry(inum, 1, false, t.entries[0].fields, -1, {tok})
    && forall q :: 0 <= q < |t.procs| ==> t.procs[q] == Idle
  }

  lemma Gets(s: State, inum: nat) returns (steps: seq<(nat, Step)>, t: State)
    requires Start(s) && |s.procs| > 0 && |s.entries| > 0 && inum in s.disk
    ensures t == Run(s, steps) && Gotten(t, inum, s.made) && t.holey == s.holey && |t.procs| == |s.procs|
    ensures |t.entries| == |s.entries| && t.made == s.made + 1
    ensures t.disk == s.disk[inum := t.disk[inum]] && (s.disk[inum].kind > 0 ==> t.disk == s.disk)
  {
    assert Slot(s.entries, inum) == 0 by {
      assert !Stands(s.entries[0], inum) && s.entries[0].ref == 0;
      assert Unused(s.entries, 0) == 0;
    }
    steps := [];
    var u := s;
    if s.disk[inum].kind == 0 {
      u := To(s.(disk := s.disk[inum := Dinode(1, 0, 0)]), 0, Allocated(inum));
      RunMore(s, steps, s, 0, Ialloc(inum, 1), u);
      steps := steps + [(0, Ialloc(inum, 1))];
    }
    t := IgetNext(u, 0, inum).value;
    var a := if s.disk[inum].kind == 0 then Go else Iget(inum);
    RunMore(s, steps, u, 0, a, t);
    steps := steps + [(0, a)];
  }

  ghost predicate Holds(t: State, tok: nat) {
    && |t.procs| > 0 && t.procs[0] == Locked(0, tok)
    && |t.entries| > 0 && t.entries[0].holder == 0 && t.entries[0].valid && tok in t.entries[0].toks
    && t.entries[0].inum in t.disk && forall q :: 1 <= q < |t.procs| ==> t.procs[q] == Idle
  }

  // ... and has returned from ilock
  lemma Locks(s: State, inum: nat) returns (steps: seq<(nat, Step)>, t: State)
    requires Start(s) && |s.procs| > 0 && |s.entries| > 0 && inum in s.disk
    ensures t == Run(s, steps) && HasLocked(t, 0, inum) && inum in t.disk && t.holey == s.holey
    ensures t.entries[0].fields == t.disk[inum] && Holds(t, s.made) && t.disk == s.disk[inum := t.disk[inum]]
    ensures s.disk[inum].kind > 0 ==> t.disk == s.disk
    ensures |t.procs| == |s.procs| && |t.entries| == |s.entries| && t.made == s.made + 1
    ensures t.entries[0].ref == 1 && t.entries[0].toks == {s.made}
  {
    var t0;
    steps, t0 := Gets(s, inum);
    var x, tok := t0.entries[0], s.made;
    var t1 := To(t0, 0, Locking(0, tok));
    RunMore(s, steps, t0, 0, Ilock(0, tok), t1);
    steps := steps + [(0, Ilock(0, tok))];
    var t2 := To(SetEntry(t1, 0, x.(holder := 0)), 0, Got(0, tok));
    RunMore(s, steps, t1, 0, Go, t2);
    steps := steps + [(0, Go)];
    t := To(SetEntry(t2, 0, x.(holder := 0, fields := t2.disk[inum], valid := true)), 0, Locked(0, tok));
    assert t2.entries[0] == x.(holder := 0);
    RunMore(s, steps, t2, 0, Go, t);
    steps := steps + [(0, Go)];
  }

  // Process 0 lets the inode go and locks it again: the entry is valid, so the disk is not read
  lemma Relocks(s: State, steps: seq<(nat, Step)>, tok: nat) returns (more: seq<(nat, Step)>)
    requires Holds(Run(s, steps), tok)
    ensures Run(s, more) == Run(s, steps) && |more| > 0 && more[|more| - 1] == (0, Go)
  {
    var t := Run(s, steps);
    var x := t.entries[0];
    var t1 := To(SetEntry(t, 0, x.(holder := -1)), 0, Idle);
    RunMore(s, steps, t, 0, Iunlock, t1);
    more := steps + [(0, Iunlock)];
    var t2 := To(t1, 0, Locking(0, tok));
    RunMore(s, more, t1, 0, Ilock(0, tok), t2);
    more := more + [(0, Ilock(0, tok))];
    var t3 := To(SetEntry(t2, 0, x), 0, Got(0, tok));
    RunMore(s, more, t2, 0, Go, t3);
    more := more + [(0, Go)];
    assert t3.entries == t.entries;
    assert To(t3, 0, Locked(0, tok)).procs == t.procs;
    RunMore(s, more, t3, 0, Go, t);
    more := more + [(0, Go)];
  }

  /** A read that fills a hole leaves the inode in memory with an address that is not on disk, and the
      next ilock does not read the inode again. */
  lemma FillsHole(s: State, inum: nat) returns (steps: seq<(nat, Step)>)
    requires Start(s) && |s.procs| > 0 && |s.entries| > 0 && inum in s.disk && inum in s.holey
    ensures var t := Run(s, steps);
            && HasLocked(t, 0, inum) && inum in t.disk && t.entries[t.procs[0].e].fields != t.disk[inum]
            && |steps| > 0 && steps[|steps| - 1] == (0, Go)
  {
    var t;
    steps, t := Locks(s, inum);
    var x := t.entries[0];
    var u := SetEntry(t, 0, x.(fields := x.fields.(rest := x.fields.rest + 1)));
    RunMore(s, steps, t, 0, Fill(x.fields.rest + 1), u);
    steps := Relocks(s, steps + [(0, Fill(x.fields.rest + 1))], s.made);
  }

  /** Whoever has returned from ilock of the inode finds all of it as it is on disk. */
  ghost predicate AlwaysAgrees(s: State, inum: nat) {
    forall steps, p: nat :: var t := Run(s, steps);
      HasLocked(t, p, inum) ==> inum in t.disk && t.entries[t.procs[p].e].fields == t.disk[inum]
  }

  /** ... in every run, if and only if its file has no holes. */
  lemma IlockAgreesIff(s: State, inum: nat)
    requires Start(s) && |s.procs| > 0 && |s.entries| > 0 && inum in s.disk
    ensures AlwaysAgrees(s, inum) <==> inum !in s.holey
  {
    if inum in s.holey {
      var steps := FillsHole(s, inum);
      assert !AlwaysAgrees(s, inum);
    } else {
      forall steps, p: nat | HasLocked(Run(s, steps), p, inum)
        ensures var t := Run(s, steps); inum in t.disk && t.entries[t.procs[p].e].fields == t.disk[inum]
      {
        IlockAgrees(s, steps, p);
        SameHoley(s, steps);
      }
    }
  }

  lemma {:induction false} SameHoley(s: State, steps: seq<(nat, Step)>)
    ensures Run(s, steps).holey == s.holey
  {
    if steps != [] {
      SameHoley(s, steps[..|steps| - 1]);
    }
  }

  /** In every run, iput's acquiresleep on the last reference finds the lock free. */
  lemma IputDoesNotSleep(s: State, steps: seq<(nat, Step)>, p: nat, e: nat, r: nat)
    requires Start(s)
    ensures var t := Run(s, steps);
            && p < |t.procs| && e < |t.entries| && t.procs[p].Idle? && r in t.entries[e].toks
            && t.entries[e].ref == 1 && Unshared(t, p, e, r) ==>
              t.entries[e].holder == -1
  {
    RunKeeps(s, steps);
    var t := Run(s, steps);
    if p < |t.procs| && e < |t.entries| && t.procs[p].Idle? && r in t.entries[e].toks && t.entries[e].ref == 1
      && Unshared(t, p, e, r) {
      LastUnlocked(t, p, e, r);
    }
  }

  // No one has locked an inode to which an idle process has the only reference
  lemma LastUnlocked(t: State, p: nat, e: nat, r: nat)
    requires Ok(t) && p < |t.procs| && e < |t.entries| && t.procs[p].Idle? && r in t.entries[e].toks
    requires t.entries[e].ref == 1 && Unshared(t, p, e, r)
    ensures t.entries[e].holder == -1
  {
    var x := t.entries[e];
    assert EntryOk(t, e);
    if x.holder >= 0 {
      assert PcOk(t, x.holder);
      OneToken(x.toks, r, t.procs[x.holder].t);
    }
  }

  lemma OneToken(toks: set<nat>, r: nat, q: nat)
    requires |toks| == 1 && r in toks && q in toks
    ensures q == r
  {
    assert |toks - {r}| == 0;
  }
}
