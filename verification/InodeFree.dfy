/** When iput frees an inode: over whole runs of the inode cache, by what happens to the disk. */
module InodeFree {
  import opened InodeCache

  // With step a of process p, inode inum becomes free on disk
  ghost predicate Frees(t: State, p: nat, a: Step, inum: nat) {
    && p < |t.procs| && Next(t, p, a).Some? && inum in t.disk && t.disk[inum].kind > 0
    && var d := Next(t, p, a).value.disk; inum in d && d[inum].kind == 0
  }

  // Entry e has the only reference to its inode, which has been loaded and has no links on disk
  ghost predicate LastOne(t: State, e: nat) {
    && e < |t.entries| && t.entries[e].ref == 1 && t.entries[e].valid && t.entries[e].inum in t.disk
    && t.disk[t.entries[e].inum].nlink == 0
  }

  // In step k of the run, process p calls iput for the only reference to inode inum, which has no links
  ghost predicate Began(s: State, steps: seq<(nat, Step)>, k: nat, p: nat, inum: nat) {
    && k < |steps| && steps[k].0 == p && steps[k].1.Iput?
    && var t := Run(s, steps[..k]); LastOne(t, steps[k].1.e) && t.entries[steps[k].1.e].inum == inum
  }

  lemma FreesIs(t: State, p: nat, a: Step, inum: nat)
    requires Ok(t) && Frees(t, p, a, inum)
    ensures t.procs[p].Freeing? && t.procs[p].e < |t.entries| && t.entries[t.procs[p].e].inum == inum
    ensures t.disk[inum].nlink == 0
  {
    assert PcOk(t, p) && FreeingOk(t, p);
  }

  // iput goes on to free the inode exactly if it is the last one
  lemma IputBegins(t: State, p: nat, e: nat, tok: nat)
    requires Ok(t) && p < |t.procs| && t.procs[p] == Idle && Next(t, p, Iput(e, tok)).Some?
    ensures e < |t.entries| && p < |Next(t, p, Iput(e, tok)).value.procs|
    ensures var u := Next(t, p, Iput(e, tok)).value;
            if LastOne(t, e) then u.procs[p] == Freeing(e, tok) && u.entries[e].inum == t.entries[e].inum
            else u.procs[p] == Idle && u.entries[e] == Dropped(t.entries[e], tok)
  {
    assert EntryOk(t, e);
    if t.entries[e].ref == 1 {
      LastUnlocked(t, p, e, tok);
    }
  }

  // Process p is freeing an inode after a step of q: it was before, or has just begun
  lemma FreeingStep(t: State, p: nat, a: Step, q: nat)
    requires Ok(t) && q < |t.procs| && Next(t, q, a).Some? && p < |Next(t, q, a).value.procs|
    requires Next(t, q, a).value.procs[p].Freeing?
    ensures p < |t.procs|
    ensures var u := Next(t, q, a).value;
            var pc := u.procs[p];
            || (t.procs[p] == pc && pc.e < |t.entries| == |u.entries| && t.entries[pc.e].inum == u.entries[pc.e].inum)
            || (q == p && t.procs[p] == Idle && a == Iput(pc.e, pc.t) && LastOne(t, pc.e)
                && u.entries == t.entries[pc.e := t.entries[pc.e].(holder := p)])
  {
    if q == p && t.procs[p] == Idle && a.Iput? {
      IputBegins(t, p, a.e, a.t);
    } else {
      StillFreeing(t, p, a, q);
    }
  }

  lemma StillFreeing(t: State, p: nat, a: Step, q: nat)
    requires Ok(t) && q < |t.procs| && Next(t, q, a).Some? && p < |Next(t, q, a).value.procs|
    requires Next(t, q, a).value.procs[p].Freeing? && !(q == p && t.procs[p] == Idle && a.Iput?)
    ensures p < |t.procs|
    ensures var u := Next(t, q, a).value;
            var pc := u.procs[p];
            t.procs[p] == pc && pc.e < |t.entries| == |u.entries| && t.entries[pc.e].inum == u.entries[pc.e].inum
  {
    FreeingPc(t, p, a, q);
    assert PcOk(t, p);
    var e := t.procs[p].e;
    assert EntryOk(t, e);
    Counted(t.entries[e], t.procs[p].t);
    EntryStays(t, q, a, e);
  }

  // Only iput begins to free
  lemma FreeingPc(t: State, p: nat, a: Step, q: nat)
    requires q < |t.procs| && Next(t, q, a).Some? && p < |Next(t, q, a).value.procs|
    requires Next(t, q, a).value.procs[p].Freeing? && !(q == p && t.procs[p] == Idle && a.Iput?)
    ensures p < |t.procs| && t.procs[p] == Next(t, q, a).value.procs[p]
  {
  }

  // An entry that is referred to stands for the same inode
  lemma EntryStays(t: State, q: nat, a: Step, e: nat)
    requires q < |t.procs| && Next(t, q, a).Some? && e < |t.entries| && t.entries[e].ref > 0
    ensures var u := Next(t, q, a).value; |u.entries| == |t.entries| && u.entries[e].inum == t.entries[e].inum
  {
  }

  // The inode that process p is freeing
  ghost predicate IsFreeing(t: State, p: nat, inum: nat) {
    p < |t.procs| && t.procs[p].Freeing? && t.procs[p].e < |t.entries| && t.entries[t.procs[p].e].inum == inum
  }

  lemma BeganMore(s: State, before: seq<(nat, Step)>, steps: seq<(nat, Step)>, k: nat, p: nat, inum: nat)
    requires Began(s, before, k, p, inum) && before <= steps
    ensures Began(s, steps, k, p, inum)
  {
    assert before[..k] == steps[..k];
  }

  lemma {:induction false} BeganBefore(s: State, steps: seq<(nat, Step)>, p: nat, inum: nat) returns (k: nat)
    requires Start(s) && IsFreeing(Run(s, steps), p, inum)
    ensures Began(s, steps, k, p, inum)
    decreases |steps|
  {
    k := |steps| - 1;
    var before := steps[..k];
    if !IsFreeing(Run(s, before), p, inum) {
      BeganNow(s, steps, k, p, inum);
    } else {
      k := BeganBefore(s, before, p, inum);
      BeganMore(s, before, steps, k, p, inum);
    }
  }

  lemma BeganNow(s: State, steps: seq<(nat, Step)>, k: nat, p: nat, inum: nat)
    requires Start(s) && k == |steps| - 1 && IsFreeing(Run(s, steps), p, inum)
    requires !IsFreeing(Run(s, steps[..k]), p, inum)
    ensures Began(s, steps, k, p, inum)
  {
    var t, x := Run(s, steps[..k]), steps[k];
    RunKeeps(s, steps[..k]);
    if x.0 < |t.procs| && Next(t, x.0, x.1).Some? {
      FreeingStep(t, p, x.1, x.0);
    }
  }

  /** In every run: an inode becomes free on disk only without links on disk, by a process that had the
      only reference to it when it called iput. */
  lemma FreesUnlinked(s: State, steps: seq<(nat, Step)>, p: nat, a: Step, inum: nat)
    requires Start(s) && Frees(Run(s, steps), p, a, inum)
    ensures Run(s, steps).disk[inum].nlink == 0 && exists k :: Began(s, steps, k, p, inum)
  {
    RunKeeps(s, steps);
    FreesIs(Run(s, steps), p, a, inum);
    var k := BeganBefore(s, steps, p, inum);
  }

  /** An iput of any other reference is over at once: it drops the reference and leaves the disk. */
  lemma IputDrops(s: State, steps: seq<(nat, Step)>, p: nat, e: nat, tok: nat)
    requires Start(s)
    requires var t := Run(s, steps);
             p < |t.procs| && t.procs[p] == Idle && Next(t, p, Iput(e, tok)).Some? && !LastOne(t, e)
    ensures var t := Run(s, steps);
            var u := Next(t, p, Iput(e, tok)).value;
            && u.disk == t.disk && u.procs == t.procs && e < |t.entries|
            && var x := t.entries[e]; u.entries == t.entries[e := x.(ref := x.ref - 1, toks := x.toks - {tok})]
  {
    RunKeeps(s, steps);
    IputBegins(Run(s, steps), p, e, tok);
  }

  /** In every run: iget gives a new reference to one entry, which then stands for the inode; it is the
      one that had references to it, if there was one, and no other entry and nothing on disk changes. */
  lemma IgetGives(s: State, steps: seq<(nat, Step)>, p: nat, inum: nat) returns (e: nat)
    requires Start(s)
    requires var t := Run(s, steps); p < |t.procs| && t.procs[p] == Idle && Next(t, p, Iget(inum)).Some?
    ensures var t := Run(s, steps);
            var u := Next(t, p, Iget(inum)).value;
            && e < |t.entries| && u.entries == t.entries[e := u.entries[e]] && u.disk == t.disk
            && u.entries[e].inum == inum && u.entries[e].ref == |u.entries[e].toks|
            && (forall f :: 0 <= f < |t.entries| ==> t.made !in t.entries[f].toks)
            && u.entries[e].toks == (if t.entries[e].ref > 0 then t.entries[e].toks else {}) + {t.made}
            && (t.entries[e].ref > 0 ==> t.entries[e].inum == inum)
            && forall f :: 0 <= f < |t.entries| && Stands(t.entries[f], inum) ==> f == e
  {
    RunKeeps(s, steps);
    var t := Run(s, steps);
    StepKeeps(t, p, Iget(inum));
    e := Slot(t.entries, inum);
    assert EntryOk(Next(t, p, Iget(inum)).value, e);
    forall f | 0 <= f < |t.entries|
      ensures t.made !in t.entries[f].toks && (Stands(t.entries[f], inum) ==> f == e)
    {
      assert EntryOk(t, f) && Apart(t, e, f);
    }
  }

  /** idup gives one more reference to the same entry. */
  lemma IdupGives(s: State, steps: seq<(nat, Step)>, p: nat, e: nat, tok: nat)
    requires Start(s)
    requires var t := Run(s, steps); p < |t.procs| && t.procs[p] == Idle && Next(t, p, Idup(e, tok)).Some?
    ensures var t := Run(s, steps);
            var u := Next(t, p, Idup(e, tok)).value;
            && e < |t.entries| && t.made !in t.entries[e].toks && u.disk == t.disk && u.procs == t.procs
            && var x := t.entries[e]; u.entries == t.entries[e := x.(ref := x.ref + 1, toks := x.toks + {t.made})]
  {
    RunKeeps(s, steps);
    assert EntryOk(Run(s, steps), e);
  }

  /** ... and the end of iput takes the reference back. */
  lemma IputEnds(s: State, steps: seq<(nat, Step)>, p: nat, a: Step, e: nat, tok: nat)
    requires Start(s)
    requires var t := Run(s, steps);
             && p < |t.procs| && Puts(t.procs[p], e, tok) && Next(t, p, a).Some?
             && Next(t, p, a).value.procs[p] == Idle
    ensures var t := Run(s, steps);
            var u := Next(t, p, a).value;
            && u.disk == t.disk && e < |t.entries| && tok in t.entries[e].toks
            && var x := t.entries[e]; u.entries == t.entries[e := x.(ref := x.ref - 1, toks := x.toks - {tok})]
  {
    RunKeeps(s, steps);
    assert PcOk(Run(s, steps), p);
  }

  // Step k of the run is process p's and frees the inode
  ghost predicate FreesIn(u: State, more: seq<(nat, Step)>, k: nat, p: nat, inum: nat) {
    k < |more| && more[k].0 == p && Frees(Run(u, more[..k]), p, more[k].1, inum)
  }

  lemma FreesMore(u: State, before: seq<(nat, Step)>, more: seq<(nat, Step)>, k: nat, p: nat, inum: nat)
    requires FreesIn(u, before, k, p, inum) && before <= more
    ensures FreesIn(u, more, k, p, inum)
  {
    assert before[..k] == more[..k];
  }

  lemma {:induction false} FreesLater(u: State, more: seq<(nat, Step)>, p: nat, inum: nat) returns (k: nat)
    requires Ok(u) && IsFreeing(u, p, inum)
    ensures (Ok(Run(u, more)) && IsFreeing(Run(u, more), p, inum)) || FreesIn(u, more, k, p, inum)
    decreases |more|
  {
    k := 0;
    if more != [] {
      var last := |more| - 1;
      var before, x := more[..last], more[last];
      k := FreesLater(u, before, p, inum);
      if FreesIn(u, before, k, p, inum) {
        FreesMore(u, before, more, k, p, inum);
      } else {
        var t := Run(u, before);
        if x.0 < |t.procs| && Next(t, x.0, x.1).Some? {
          StepKeeps(t, x.0, x.1);
          FreeingGoesOn(t, p, x.0, x.1, inum);
          k := last;
        }
      }
    }
  }

  // Until the process itself goes on, and then the inode becomes free
  lemma FreeingGoesOn(t: State, p: nat, q: nat, a: Step, inum: nat)
    requires Ok(t) && p < |t.procs| && t.procs[p].Freeing? && t.procs[p].e < |t.entries|
    requires t.entries[t.procs[p].e].inum == inum && q < |t.procs| && Next(t, q, a).Some?
    ensures q == p ==> Frees(t, p, a, inum)
    ensures q != p ==>
              var u := Next(t, q, a).value;
              && p < |u.procs| && u.procs[p] == t.procs[p] && |u.entries| == |t.entries|
              && u.entries[t.procs[p].e].inum == inum
  {
    var e := t.procs[p].e;
    assert FreeingOk(t, p) && PcOk(t, p) && EntryOk(t, e);
    Counted(t.entries[e], t.procs[p].t);
    assert PcOk(t, q);
  }

  /** An iput of the only reference to a loaded inode without links does not return before it has freed
      the inode on disk, whatever others do meanwhile. */
  lemma IputFrees(s: State, steps: seq<(nat, Step)>, p: nat, e: nat, tok: nat, more: seq<(nat, Step)>)
    requires Start(s)
    requires var t := Run(s, steps);
             p < |t.procs| && t.procs[p] == Idle && Next(t, p, Iput(e, tok)).Some? && LastOne(t, e)
    requires var u := Run(Next(Run(s, steps), p, Iput(e, tok)).value, more); p < |u.procs| && u.procs[p] == Idle
    ensures var t := Run(s, steps);
            exists k :: FreesIn(Next(t, p, Iput(e, tok)).value, more, k, p, t.entries[e].inum)
  {
    RunKeeps(s, steps);
    var t := Run(s, steps);
    IputBegins(t, p, e, tok);
    StepKeeps(t, p, Iput(e, tok));
    var k := FreesLater(Next(t, p, Iput(e, tok)).value, more, p, t.entries[e].inum);
  }

  // ---------- the only reference, up to the end ----------

  // On its way out of iput, having freed the inode
  predicate Leaves(pc: Pc, e: nat, t: nat) {
    (pc.Freed? || pc.Forgotten? || pc.Dropping?) && pc.e == e && pc.t == t
  }

  ghost predicate Leaving(s: State, e: nat, t: nat) {
    exists q :: 0 <= q < |s.procs| && Leaves(s.procs[q], e, t)
  }

  ghost predicate AllLeaving(s: State, e: nat)
    requires e < |s.entries|
  {
    forall t :: t in s.entries[e].toks ==> Leaving(s, e, t)
  }

  // A free inode has no links
  ghost predicate DiskOk(s: State, i: nat) {
    i in s.disk && s.disk[i].kind == 0 ==> s.disk[i].nlink == 0
  }

  ghost predicate Sole(s: State, p: nat)
    requires p < |s.procs|
  {
    s.procs[p].Freeing? ==> s.procs[p].e < |s.entries| && s.entries[s.procs[p].e].toks == {s.procs[p].t}
  }

  // Only who has freed an inode still refers to a free one
  ghost predicate FreeLeaving(s: State, e: nat)
    requires e < |s.entries|
  {
    var x := s.entries[e];
    x.ref > 0 && x.inum in s.disk && s.disk[x.inum].kind == 0 ==> AllLeaving(s, e)
  }

  // ... or to one that ialloc has just taken
  ghost predicate NewAlone(s: State, p: nat)
    requires p < |s.procs|
  {
    s.procs[p].Allocated? ==>
      var i := s.procs[p].inum;
      && i in s.disk && s.disk[i].kind > 0 && s.disk[i].nlink == 0
      && forall e :: 0 <= e < |s.entries| && Stands(s.entries[e], i) ==> AllLeaving(s, e)
  }

  ghost predicate NewDiffer(s: State, p: nat, q: nat)
    requires p < |s.procs| && q < |s.procs|
  {
    s.procs[p].Allocated? && s.procs[q] == s.procs[p] ==> p == q
  }

  ghost predicate Tidy(s: State) {
    && Ok(s) && (forall i: nat :: DiskOk(s, i)) && (forall p :: 0 <= p < |s.procs| ==> Sole(s, p))
    && (forall e :: 0 <= e < |s.entries| ==> FreeLeaving(s, e)) && (forall p :: 0 <= p < |s.procs| ==> NewAlone(s, p))
    && (forall p, q :: 0 <= p < |s.procs| && 0 <= q < |s.procs| ==> NewDiffer(s, p, q))
  }

  // A reference that is used, or could be, is not one that is left
  lemma UserStays(s: State, p: nat)
    requires Ok(s) && p < |s.procs| && !s.procs[p].Idle? && !s.procs[p].Allocated?
    requires !Leaves(s.procs[p], s.procs[p].e, s.procs[p].t)
    ensures s.procs[p].e < |s.entries| && !AllLeaving(s, s.procs[p].e)
  {
    assert PcOk(s, p);
    var e, t := s.procs[p].e, s.procs[p].t;
    forall q | 0 <= q < |s.procs|
      ensures !Leaves(s.procs[q], e, t)
    {
      assert PcOk(s, q);
    }
    assert !Leaving(s, e, t);
  }

  // Only process p has moved, and if it was leaving it is, or has left
  ghost predicate Moved(s: State, u: State, p: nat) {
    && p < |s.procs| == |u.procs| && u.procs == s.procs[p := u.procs[p]] && |u.entries| == |s.entries|
    && forall e: nat, t: nat :: Leaves(s.procs[p], e, t) && e < |u.entries| && t in u.entries[e].toks ==>
         Leaves(u.procs[p], e, t)
  }

  lemma LeavingKept(s: State, u: State, p: nat, e: nat)
    requires Moved(s, u, p) && e < |s.entries| && u.entries[e].toks <= s.entries[e].toks && AllLeaving(s, e)
    ensures AllLeaving(u, e)
  {
    forall t | t in u.entries[e].toks
      ensures Leaving(u, e, t)
    {
      assert Leaving(s, e, t);
      var q :| 0 <= q < |s.procs| && Leaves(s.procs[q], e, t);
      assert Leaves(u.procs[q], e, t);
    }
  }

  // The inode on disk is as before, or process p, which stays, has saved it
  ghost predicate SameOrSaved(s: State, u: State, p: nat, i: nat)
    requires p < |s.procs|
  {
    && (i in s.disk <==> i in u.disk)
    && (i in s.disk && u.disk[i] != s.disk[i] ==>
          && u.disk[i].kind > 0 && s.disk[i].kind > 0 && !s.procs[p].Idle? && !s.procs[p].Allocated?
          && s.procs[p].e < |s.entries| && Stands(s.entries[s.procs[p].e], i) && !AllLeaving(s, s.procs[p].e))
  }

  // What a step may do that gives no new reference and frees or allocates nothing
  ghost predicate Calm(s: State, u: State, p: nat) {
    && Moved(s, u, p) && !u.procs[p].Allocated? && (u.procs[p].Freeing? ==> u.procs[p] == s.procs[p])
    && (forall i: nat :: SameOrSaved(s, u, p, i))
    && forall e :: 0 <= e < |s.entries| ==>
         && u.entries[e].inum == s.entries[e].inum && u.entries[e].toks <= s.entries[e].toks
         && u.entries[e].ref <= s.entries[e].ref
  }

  lemma CalmSole(s: State, u: State, p: nat, q: nat)
    requires Tidy(s) && Ok(u) && Calm(s, u, p) && q < |s.procs|
    ensures Sole(u, q)
  {
    assert Sole(s, q) && PcOk(u, q);
  }

  lemma CalmFree(s: State, u: State, p: nat, e: nat)
    requires Tidy(s) && Calm(s, u, p) && e < |s.entries|
    ensures FreeLeaving(u, e)
  {
    assert FreeLeaving(s, e) && SameOrSaved(s, u, p, s.entries[e].inum);
    if AllLeaving(s, e) {
      LeavingKept(s, u, p, e);
    }
  }

  lemma CalmNew(s: State, u: State, p: nat, q: nat)
    requires Tidy(s) && Calm(s, u, p) && q < |s.procs|
    ensures NewAlone(u, q)
  {
    assert NewAlone(s, q);
    if u.procs[q].Allocated? {
      var i := s.procs[q].inum;
      assert SameOrSaved(s, u, p, i);
      forall e | 0 <= e < |u.entries| && Stands(u.entries[e], i)
        ensures AllLeaving(u, e)
      {
        LeavingKept(s, u, p, e);
      }
    }
  }

  lemma CalmKeeps(s: State, u: State, p: nat)
    requires Tidy(s) && Ok(u) && Calm(s, u, p)
    ensures Tidy(u)
  {
    forall i: nat
      ensures DiskOk(u, i)
    {
      assert DiskOk(s, i) && SameOrSaved(s, u, p, i);
    }
    forall q | 0 <= q < |u.procs|
      ensures Sole(u, q) && NewAlone(u, q)
    {
      CalmSole(s, u, p, q);
      CalmNew(s, u, p, q);
    }
    forall e | 0 <= e < |u.entries|
      ensures FreeLeaving(u, e)
    {
      CalmFree(s, u, p, e);
    }
    forall q, r | 0 <= q < |u.procs| && 0 <= r < |u.procs|
      ensures NewDiffer(u, q, r)
    {
      assert NewDiffer(s, q, r);
    }
  }

  lemma ContinueCalm(s: State, p: nat, a: Step)
    requires Tidy(s) && p < |s.procs| && !s.procs[p].Idle? && !s.procs[p].Allocated? && s.procs[p].e < |s.entries|
    requires Continue(s, p, a).Some? && !s.procs[p].Freeing?
    ensures Calm(s, Continue(s, p, a).value, p)
  {
    assert PcOk(s, p) && EntryOk(s, s.procs[p].e) && FreeLeaving(s, s.procs[p].e);
    Counted(s.entries[s.procs[p].e], s.procs[p].t);
    if s.procs[p].Dirty? {
      UserStays(s, p);
    }
  }

  // iput has freed the inode on disk
  lemma FreedTidy(s: State, p: nat, a: Step)
    requires Tidy(s) && p < |s.procs| && s.procs[p].Freeing? && s.procs[p].e < |s.entries| && Continue(s, p, a).Some?
    requires Ok(Continue(s, p, a).value)
    ensures Tidy(Continue(s, p, a).value)
  {
    var u, e, t := Continue(s, p, a).value, s.procs[p].e, s.procs[p].t;
    var i := s.entries[e].inum;
    assert FreeingOk(s, p) && Sole(s, p) && PcOk(s, p) && EntryOk(s, e);
    Counted(s.entries[e], t);
    UserStays(s, p);
    forall j: nat
      ensures DiskOk(u, j)
    {
      assert DiskOk(s, j);
    }
    forall q | 0 <= q < |u.procs|
      ensures Sole(u, q) && NewAlone(u, q)
    {
      assert Sole(s, q) && NewAlone(s, q);
      FreedNew(s, p, a, q);
    }
    forall f | 0 <= f < |u.entries|
      ensures FreeLeaving(u, f)
    {
      assert FreeLeaving(s, f) && Apart(s, e, f);
      if f == e {
        assert Leaves(u.procs[p], e, t);
        assert Leaving(u, e, t);
      } else if AllLeaving(s, f) {
        LeavingKept(s, u, p, f);
      }
    }
    forall q, r | 0 <= q < |u.procs| && 0 <= r < |u.procs|
      ensures NewDiffer(u, q, r)
    {
      assert NewDiffer(s, q, r);
    }
  }

  lemma FreedNew(s: State, p: nat, a: Step, q: nat)
    requires Tidy(s) && p < |s.procs| && s.procs[p].Freeing? && s.procs[p].e < |s.entries| && Continue(s, p, a).Some?
    requires q < |s.procs| && s.entries[s.procs[p].e].ref > 0
    ensures |Continue(s, p, a).value.procs| == |s.procs| && NewAlone(Continue(s, p, a).value, q)
  {
    var u, e := Continue(s, p, a).value, s.procs[p].e;
    assert NewAlone(s, q);
    UserStays(s, p);
    if u.procs[q].Allocated? {
      var i := s.procs[q].inum;
      assert s.entries[e].inum != i;
      forall f | 0 <= f < |u.entries| && Stands(u.entries[f], i)
        ensures AllLeaving(u, f)
      {
        LeavingKept(s, u, p, f);
      }
    }
  }

  // The steps of an idle process
  lemma BeginTidy(s: State, p: nat, a: Step)
    requires Tidy(s) && p < |s.procs| && s.procs[p].Idle? && Begin(s, p, a).Some? && Ok(Begin(s, p, a).value)
    requires a.Ilock? || a.Iput?
    ensures Tidy(Begin(s, p, a).value)
  {
    var u := Begin(s, p, a).value;
    assert EntryOk(s, a.e);
    if u.procs[p].Freeing? {
      FreeingTidy(s, p, a);
    } else {
      CalmKeeps(s, u, p);
    }
  }

  lemma FreeingTidy(s: State, p: nat, a: Step)
    requires Tidy(s) && p < |s.procs| && s.procs[p].Idle? && Begin(s, p, a).Some? && Ok(Begin(s, p, a).value)
    requires a.Iput? && Begin(s, p, a).value.procs[p].Freeing?
    ensures Tidy(Begin(s, p, a).value)
  {
    var u := Begin(s, p, a).value;
    assert EntryOk(s, a.e);
    OnlyOne(s.entries[a.e].toks, a.t);
    forall i: nat
      ensures DiskOk(u, i)
    {
      assert DiskOk(s, i);
    }
    forall q | 0 <= q < |u.procs|
      ensures Sole(u, q) && NewAlone(u, q)
    {
      assert Sole(s, q) && NewAlone(s, q);
      forall e | 0 <= e < |u.entries| && AllLeaving(s, e)
        ensures AllLeaving(u, e)
      {
        LeavingKept(s, u, p, e);
      }
    }
    forall e | 0 <= e < |u.entries|
      ensures FreeLeaving(u, e)
    {
      assert FreeLeaving(s, e);
      if AllLeaving(s, e) {
        LeavingKept(s, u, p, e);
      }
    }
    forall q, r | 0 <= q < |u.procs| && 0 <= r < |u.procs|
      ensures NewDiffer(u, q, r)
    {
      assert NewDiffer(s, q, r);
    }
  }

  lemma OnlyOne(toks: set<nat>, t: nat)
    requires |toks| == 1 && t in toks
    ensures toks == {t}
  {
    forall q | q in toks
      ensures q == t
    {
      OneToken(toks, t, q);
    }
  }

  lemma IallocTidy(s: State, p: nat, a: Step)
    requires Tidy(s) && p < |s.procs| && s.procs[p].Idle? && a.Ialloc? && Begin(s, p, a).Some?
    requires Ok(Begin(s, p, a).value)
    ensures Tidy(Begin(s, p, a).value)
  {
    var u := Begin(s, p, a).value;
    forall i: nat
      ensures DiskOk(u, i)
    {
      assert DiskOk(s, i);
    }
    forall e | 0 <= e < |u.entries|
      ensures FreeLeaving(u, e) && (AllLeaving(s, e) ==> AllLeaving(u, e))
    {
      assert FreeLeaving(s, e);
      if AllLeaving(s, e) {
        LeavingKept(s, u, p, e);
      }
    }
    forall q | 0 <= q < |u.procs|
      ensures Sole(u, q) && NewAlone(u, q)
    {
      assert Sole(s, q) && NewAlone(s, q);
      forall e | 0 <= e < |u.entries| && Stands(u.entries[e], a.inum)
        ensures AllLeaving(s, e)
      {
        assert FreeLeaving(s, e);
      }
    }
    forall q, r | 0 <= q < |u.procs| && 0 <= r < |u.procs|
      ensures NewDiffer(u, q, r)
    {
      assert NewDiffer(s, q, r) && NewAlone(s, q) && NewAlone(s, r);
    }
  }

  // ---------- steps that give a reference ----------

  // A reference to entry g, which stands for inode i, is given; the inode is not being freed
  ghost predicate Gives(s: State, u: State, p: nat, g: nat, i: nat) {
    && Moved(s, u, p) && !u.procs[p].Allocated? && !u.procs[p].Freeing? && u.disk == s.disk && g < |s.entries|
    && u.entries == s.entries[g := u.entries[g]] && u.entries[g].inum == i && i in s.disk && s.disk[i].kind > 0
    && (forall q :: 0 <= q < |s.procs| && s.procs[q].Freeing? ==> s.procs[q].e != g)
    && (forall q :: 0 <= q < |s.procs| && s.procs[q].Allocated? && q != p ==> s.procs[q].inum != i)
    && (s.entries[g].ref > 0 ==> s.entries[g].inum == i)
  }

  lemma GivesKeeps(s: State, u: State, p: nat, g: nat, i: nat)
    requires Tidy(s) && Ok(u) && Gives(s, u, p, g, i)
    ensures Tidy(u)
  {
    forall j: nat
      ensures DiskOk(u, j)
    {
      assert DiskOk(s, j);
    }
    forall e | 0 <= e < |u.entries|
      ensures FreeLeaving(u, e) && (AllLeaving(s, e) && e != g ==> AllLeaving(u, e))
    {
      assert FreeLeaving(s, e);
      if AllLeaving(s, e) && e != g {
        LeavingKept(s, u, p, e);
      }
    }
    forall q | 0 <= q < |u.procs|
      ensures Sole(u, q) && NewAlone(u, q)
    {
      assert Sole(s, q) && NewAlone(s, q);
    }
    forall q, r | 0 <= q < |u.procs| && 0 <= r < |u.procs|
      ensures NewDiffer(u, q, r)
    {
      assert NewDiffer(s, q, r);
    }
  }

  // iget of an inode that has links
  lemma IgetTidy(s: State, p: nat, inum: nat)
    requires Tidy(s) && p < |s.procs| && s.procs[p].Idle? && inum in s.disk && s.disk[inum].nlink > 0
    requires IgetNext(s, p, inum).Some? && Ok(IgetNext(s, p, inum).value)
    ensures Tidy(IgetNext(s, p, inum).value)
  {
    var u, g := IgetNext(s, p, inum).value, Slot(s.entries, inum);
    assert DiskOk(s, inum);
    forall q | 0 <= q < |s.procs| && s.procs[q].Freeing?
      ensures s.procs[q].e != g
    {
      NotFreeing(s, q, g, inum);
    }
    forall q | 0 <= q < |s.procs| && s.procs[q].Allocated?
      ensures s.procs[q].inum != inum
    {
      assert NewAlone(s, q);
    }
    GivesKeeps(s, u, p, g, inum);
  }

  lemma NotFreeing(s: State, q: nat, g: nat, inum: nat)
    requires Ok(s) && q < |s.procs| && s.procs[q].Freeing? && g < |s.entries| && inum in s.disk
    requires s.entries[g].ref == 0 || (s.entries[g].inum == inum && s.disk[inum].nlink > 0)
    ensures s.procs[q].e != g
  {
    assert FreeingOk(s, q) && PcOk(s, q) && EntryOk(s, s.procs[q].e);
    Counted(s.entries[s.procs[q].e], s.procs[q].t);
  }

  // ... and of the one that ialloc has taken
  lemma IgetNewTidy(s: State, p: nat)
    requires Tidy(s) && p < |s.procs| && s.procs[p].Allocated? && IgetNext(s, p, s.procs[p].inum).Some?
    requires Ok(IgetNext(s, p, s.procs[p].inum).value)
    ensures Tidy(IgetNext(s, p, s.procs[p].inum).value)
  {
    var inum := s.procs[p].inum;
    var u, g := IgetNext(s, p, inum).value, Slot(s.entries, inum);
    assert NewAlone(s, p);
    forall q | 0 <= q < |s.procs| && s.procs[q].Freeing?
      ensures s.procs[q].e != g
    {
      UserStays(s, q);
      assert PcOk(s, q) && EntryOk(s, s.procs[q].e);
      Counted(s.entries[s.procs[q].e], s.procs[q].t);
    }
    forall q | 0 <= q < |s.procs| && s.procs[q].Allocated? && q != p
      ensures s.procs[q].inum != inum
    {
      assert NewDiffer(s, p, q);
    }
    GivesKeeps(s, u, p, g, inum);
  }

  lemma IdupTidy(s: State, p: nat, a: Step)
    requires Tidy(s) && p < |s.procs| && s.procs[p].Idle? && a.Idup? && Begin(s, p, a).Some? && Ok(Begin(s, p, a).value)
    ensures Tidy(Begin(s, p, a).value)
  {
    var u, g := Begin(s, p, a).value, a.e;
    var i := s.entries[g].inum;
    assert EntryOk(s, g) && FreeLeaving(s, g);
    Counted(s.entries[g], a.t);
    assert !Leaving(s, g, a.t);
    forall q | 0 <= q < |s.procs| && s.procs[q].Freeing?
      ensures s.procs[q].e != g
    {
      assert Sole(s, q) && !Puts(s.procs[q], g, a.t);
    }
    forall q | 0 <= q < |s.procs| && s.procs[q].Allocated?
      ensures s.procs[q].inum != i
    {
      assert NewAlone(s, q);
    }
    GivesKeeps(s, u, p, g, i);
  }

  // ---------- whole runs ----------

  // Step x is no iget of an inode that has no links on disk
  ghost predicate HasName(t: State, x: (nat, Step)) {
    x.1.Iget? && x.1.inum in t.disk ==> t.disk[x.1.inum].nlink > 0
  }

  lemma StepTidy(s: State, p: nat, a: Step)
    requires Tidy(s) && p < |s.procs| && Next(s, p, a).Some? && HasName(s, (p, a))
    ensures Tidy(Next(s, p, a).value)
  {
    StepKeeps(s, p, a);
    match s.procs[p]
    case Idle =>
      if a.Iget? {
        IgetTidy(s, p, a.inum);
      } else if a.Idup? {
        IdupTidy(s, p, a);
      } else if a.Ialloc? {
        IallocTidy(s, p, a);
      } else {
        BeginTidy(s, p, a);
      }
    case Allocated(_) => IgetNewTidy(s, p);
    case Freeing(_, _) => FreedTidy(s, p, a);
    case _ =>
      ContinueCalm(s, p, a);
      CalmKeeps(s, Continue(s, p, a).value, p);
  }

  // No step of the run is such an iget
  ghost predicate Named(s: State, steps: seq<(nat, Step)>) {
    forall k :: 0 <= k < |steps| ==> HasName(Run(s, steps[..k]), steps[k])
  }

  lemma StartTidy(s: State)
    requires Start(s) && forall i: nat :: DiskOk(s, i)
    ensures Tidy(s)
  {
    RunKeeps(s, []);
    forall e | 0 <= e < |s.entries|
      ensures FreeLeaving(s, e)
    {
    }
    forall p | 0 <= p < |s.procs|
      ensures Sole(s, p) && NewAlone(s, p)
    {
    }
  }

  lemma NamedBefore(s: State, steps: seq<(nat, Step)>, last: nat)
    requires Named(s, steps) && last < |steps|
    ensures Named(s, steps[..last]) && HasName(Run(s, steps[..last]), steps[last])
  {
    var before := steps[..last];
    forall k | 0 <= k < last
      ensures HasName(Run(s, before[..k]), before[k])
    {
      assert before[..k] == steps[..k];
      assert HasName(Run(s, steps[..k]), steps[k]);
    }
  }

  lemma {:induction false} RunTidy(s: State, steps: seq<(nat, Step)>)
    requires Start(s) && (forall i: nat :: DiskOk(s, i)) && Named(s, steps)
    ensures Tidy(Run(s, steps))
  {
    if steps == [] {
      StartTidy(s);
    } else {
      var last := |steps| - 1;
      NamedBefore(s, steps, last);
      RunTidy(s, steps[..last]);
      var t, x := Run(s, steps[..last]), steps[last];
      if x.0 < |t.procs| && Next(t, x.0, x.1).Some? {
        StepTidy(t, x.0, x.1);
      }
    }
  }

  /** The process that frees an inode still has the only reference to it then. */
  ghost predicate FreesAlone(strays: bool) {
    forall s, steps, p: nat, a, inum: nat ::
      Start(s) && (forall i: nat :: DiskOk(s, i)) && (strays || Named(s, steps)) && Frees(Run(s, steps), p, a, inum) ==>
        OneReference(Run(s, steps), p, inum)
  }

  ghost predicate OneReference(t: State, p: nat, inum: nat) {
    IsFreeing(t, p, inum) && t.entries[t.procs[p].e].ref == 1
  }

  lemma NamedAlone(s: State, steps: seq<(nat, Step)>, p: nat, a: Step, inum: nat)
    requires Start(s) && (forall i: nat :: DiskOk(s, i)) && Named(s, steps) && Frees(Run(s, steps), p, a, inum)
    ensures OneReference(Run(s, steps), p, inum)
  {
    RunTidy(s, steps);
    var t := Run(s, steps);
    FreesIs(t, p, a, inum);
    assert Sole(t, p) && EntryOk(t, t.procs[p].e);
  }

  // Process 0 is at pc with the only reference to inode 1
  function Held(d: Dinode, x: Dinode, holder: int, pc: Pc): State {
    State([Entry(1, 1, true, x, holder, {0})], map[1 := d], [pc, Idle], 1, {})
  }

  lemma HeldSet(d: Dinode, x: Dinode, h: int, pc: Pc, y: Dinode, i: int, pd: Pc)
    ensures To(SetEntry(Held(d, x, h, pc), 0, Entry(1, 1, true, y, i, {0})), 0, pd) == Held(d, y, i, pd)
    ensures To(Held(d, x, h, pc).(disk := map[1 := y]), 0, pd) == Held(y, x, h, pd)
  {
    assert [pc, Idle][0 := pd] == [pd, Idle];
    assert [Entry(1, 1, true, x, h, {0})][0 := Entry(1, 1, true, y, i, {0})] == [Entry(1, 1, true, y, i, {0})];
  }

  lemma UnlinkNext(d: Dinode, x: Dinode)
    requires x == Dinode(1, 0, 0)
    ensures Next(Held(d, d, 0, Locked(0, 0)), 0, Change(x)) == Some(Held(d, x, 0, Dirty(0, 0)))
    ensures Next(Held(d, x, 0, Dirty(0, 0)), 0, Go) == Some(Held(x, x, 0, Locked(0, 0)))
  {
    HeldSet(d, d, 0, Locked(0, 0), x, 0, Dirty(0, 0));
    HeldSet(d, x, 0, Dirty(0, 0), x, 0, Locked(0, 0));
    assert map[1 := d][1 := x] == map[1 := x];
  }

  lemma IputNext(x: Dinode)
    requires x == Dinode(1, 0, 0)
    ensures Next(Held(x, x, 0, Locked(0, 0)), 0, Iunlock) == Some(Held(x, x, -1, Idle))
    ensures Next(Held(x, x, -1, Idle), 0, Iput(0, 0)) == Some(Held(x, x, 0, Freeing(0, 0)))
  {
    HeldSet(x, x, 0, Locked(0, 0), x, -1, Idle);
    HeldSet(x, x, -1, Idle, x, 0, Freeing(0, 0));
    var s := Held(x, x, -1, Idle);
    assert Unshared(s, 0, 0, 0);
    assert 0 in s.entries[0].toks;
  }

  // Process 0 takes the last link of inode 1 and comes to free it
  lemma Unlinks(s: State) returns (steps: seq<(nat, Step)>)
    requires s == State([Entry(0, 0, false, Dinode(0, 0, 0), -1, {})], map[1 := Dinode(1, 1, 0)], [Idle, Idle], 0, {})
    ensures Run(s, steps) == Held(Dinode(1, 0, 0), Dinode(1, 0, 0), 0, Freeing(0, 0))
  {
    var d, x, t := Dinode(1, 1, 0), Dinode(1, 0, 0), s;
    steps, t := Locks(s, 1);
    assert t.procs == [Locked(0, 0), Idle] && t.entries == Held(d, d, 0, Idle).entries;
    UnlinkNext(d, x);
    RunMore(s, steps, Held(d, d, 0, Locked(0, 0)), 0, Change(x), Held(d, x, 0, Dirty(0, 0)));
    steps := steps + [(0, Change(x))];
    RunMore(s, steps, Held(d, x, 0, Dirty(0, 0)), 0, Go, Held(x, x, 0, Locked(0, 0)));
    steps := steps + [(0, Go)];
    IputNext(x);
    RunMore(s, steps, Held(x, x, 0, Locked(0, 0)), 0, Iunlock, Held(x, x, -1, Idle));
    steps := steps + [(0, Iunlock)];
    RunMore(s, steps, Held(x, x, -1, Idle), 0, Iput(0, 0), Held(x, x, 0, Freeing(0, 0)));
    steps := steps + [(0, Iput(0, 0))];
  }

  /** An iget of an inode without links, as by a name that outlives them, can come between. */
  lemma Stray() returns (s: State, steps: seq<(nat, Step)>)
    ensures Start(s) && (forall i: nat :: DiskOk(s, i)) && Frees(Run(s, steps), 0, Go, 1)
    ensures !OneReference(Run(s, steps), 0, 1)
  {
    s := State([Entry(0, 0, false, Dinode(0, 0, 0), -1, {})], map[1 := Dinode(1, 1, 0)], [Idle, Idle], 0, {});
    steps := Unlinks(s);
    var t := Run(s, steps);
    assert Stands(t.entries[0], 1);
    var u := IgetNext(t, 1, 1).value;
    RunMore(s, steps, t, 1, Iget(1), u);
    steps := steps + [(1, Iget(1))];
  }

  /** ... in all runs if and only if no one gets an inode that has no links on disk. */
  lemma FreesAloneIff(strays: bool)
    ensures FreesAlone(strays) <==> !strays
  {
    if strays {
      var s, steps := Stray();
    } else {
      forall s, steps, p: nat, a, inum: nat |
        Start(s) && (forall i: nat :: DiskOk(s, i)) && Named(s, steps) && Frees(Run(s, steps), p, a, inum)
        ensures OneReference(Run(s, steps), p, inum)
      {
        NamedAlone(s, steps, p, a, inum);
      }
    }
  }
}
