/** The redo log on top of the buffer cache: logging, group commit and recovery, as one
    thread executes them. Every disk image that a commit or a recovery passes through is on
    the cache's trace, so a crash can be placed between any two block writes. Where the
    cache runs out of buffers the source panics; the methods then return false, and what
    they say about the trace still holds. */
module Log {
  import opened LogFormat
  import opened BufferCache

  predicate NoDup(s: seq<int>) {
    forall i, j :: 0 <= i < j < |s| ==> s[i] != s[j]
  }

  // Room for the references that one commit step takes
  ghost predicate RefsBounded(refs: seq<nat>) {
    forall b :: 0 <= b < |refs| ==> refs[b] < U32 - 2
  }

  ghost predicate Dropped(refs: seq<nat>, was: seq<nat>, bl: seq<int>) {
    |refs| == |was| && forall b :: 0 <= b < |refs| ==> DroppedAt(refs, was, bl, b)
  }

  ghost predicate DroppedAt(refs: seq<nat>, was: seq<nat>, bl: seq<int>, b: nat)
    requires b < |refs| == |was|
  {
    refs[b] == if b in bl then Down(was[b]) else was[b]
  }

  // ---------- enough buffers ----------

  // A buffer can be had for block x
  ghost predicate CanRead(refs: seq<nat>, x: nat)
    requires x < |refs|
  {
    refs[x] != 0 || |Used(refs)| < NBUF
  }

  // ... and then one for block y
  ghost predicate CanReadPair(refs: seq<nat>, x: nat, y: nat)
    requires x < |refs| && y < |refs|
  {
    CanRead(refs, x) && CanRead(refs[x := refs[x] + 1], y)
  }

  lemma UsedMore(refs: seq<nat>, x: nat)
    requires x < |refs|
    ensures Used(refs[x := refs[x] + 1]) == Used(refs) + {x}
  {
  }

  // Pins that were taken are dropped: no more blocks are referenced than before
  lemma UsedShrinks(refs: seq<nat>, was: seq<nat>, bl: seq<int>)
    requires Dropped(refs, was, bl) && forall i :: 0 <= i < |bl| ==> 0 <= bl[i] < |was| && was[bl[i]] >= 1
    ensures |Used(refs)| <= |Used(was)|
  {
    forall b | b in Used(refs)
      ensures b in Used(was)
    {
      assert DroppedAt(refs, was, bl, b);
    }
    SubsetFull(Used(refs), Used(was));
  }

  // Pins that were never taken are dropped: each block stays referenced
  lemma {:induction false} UsedLeaks(refs: seq<nat>, was: seq<nat>, bl: seq<int>)
    requires Dropped(refs, was, bl) && NoDup(bl) && forall i :: 0 <= i < |bl| ==> 0 <= bl[i] < |was|
    requires forall b :: 0 <= b < |was| ==> was[b] == 0
    ensures |Used(refs)| == |bl|
  {
    forall b | 0 <= b < |refs|
      ensures refs[b] != 0 <==> b in bl
    {
      assert DroppedAt(refs, was, bl, b);
    }
    SetOf(bl, Used(refs));
  }

  lemma {:induction false} SetOf(bl: seq<int>, u: set<nat>)
    requires NoDup(bl) && (forall i :: 0 <= i < |bl| ==> bl[i] >= 0) && forall b: nat :: b in u <==> b in bl
    ensures |u| == |bl|
  {
    if bl == [] {
      assert u == {};
    } else {
      var last := |bl| - 1;
      assert bl == bl[..last] + [bl[last]];
      SetOf(bl[..last], u - {bl[last]});
    }
  }

  // Whether install_trans, with refs to start from, gets its buffers
  ghost predicate AllPinned(refs: seq<nat>, bl: seq<int>) {
    forall i :: 0 <= i < |bl| ==> 0 <= bl[i] < |refs| && refs[bl[i]] >= 1
  }

  ghost predicate NoRefs(refs: seq<nat>) {
    forall b :: 0 <= b < |refs| ==> refs[b] == 0
  }

  // After tail rounds
  lemma StillCan(refs: seq<nat>, was: seq<nat>, bl: seq<int>, x: nat, y: nat, tail: nat)
    requires tail < |bl| && Dropped(refs, was, bl[..tail]) && x < |was| && y == bl[tail] < |was| && refs[x] == was[x]
    requires refs[y] == was[y] && x != y
    requires NoDup(bl) && forall i :: 0 <= i < |bl| ==> 0 <= bl[i] < |was|
    ensures AllPinned(was, bl) && |Used(was)| < NBUF ==> CanReadPair(refs, x, y)
    ensures NoRefs(was) ==> (CanReadPair(refs, x, y) <==> tail + 1 < NBUF)
  {
    UsedMore(refs, x);
    if AllPinned(was, bl) {
      UsedShrinks(refs, was, bl[..tail]);
    }
    if NoRefs(was) {
      UsedLeaks(refs, was, bl[..tail]);
      assert x !in Used(refs);
    }
  }

  // After the last round
  lemma OneLeft(refs: seq<nat>, was: seq<nat>, bl: seq<int>)
    requires Dropped(refs, was, bl) && NoDup(bl) && forall i :: 0 <= i < |bl| ==> 0 <= bl[i] < |was|
    ensures AllPinned(was, bl) && |Used(was)| < NBUF ==> |Used(refs)| < NBUF
    ensures NoRefs(was) && |bl| < NBUF ==> |Used(refs)| < NBUF
  {
    if AllPinned(was, bl) {
      UsedShrinks(refs, was, bl);
    }
    if NoRefs(was) {
      UsedLeaks(refs, was, bl);
    }
  }

  ghost predicate LogClean(d: Disk, flat: Disk, g: Geometry) {
    && g.Fits(d) && |flat| == |d|
    && forall b :: g.InLog(b) ==> d[b] == flat[b]
  }

  /** Every image written is `base` with some blocks of `bl` changed. */
  ghost predicate OnlyTouches(images: seq<Disk>, base: Disk, bl: seq<int>) {
    forall k :: 0 <= k < |images| ==> Touches(images[k], base, bl)
  }

  ghost predicate Touches(d: Disk, base: Disk, bl: seq<int>) {
    |d| == |base| && forall b :: 0 <= b < |base| && b !in bl ==> d[b] == base[b]
  }

  ghost predicate AllRecoverTo(images: seq<Disk>, g: Geometry, home: Disk) {
    forall k :: 0 <= k < |images| ==> RecoversTo(images[k], g, home)
  }

  // What install_trans has changed when it has copied `tail` blocks
  ghost predicate Installed(g: Geometry, bl: seq<int>, tail: nat, d: Disk, f: Disk,
                            disk: Disk, flat: Disk, images: seq<Disk>)
  {
    && GoodList(d, g, bl) && tail <= |bl| && NoDup(bl)
    && |d| == |f| == |disk| == |flat| && OnlyTouches(images, d, bl)
    && (forall b :: 0 <= b < |d| ==> InstalledAt(g, bl, tail, d, f, disk, flat, b))
  }

  ghost predicate InstalledAt(g: Geometry, bl: seq<int>, tail: nat, d: Disk, f: Disk, disk: Disk, flat: Disk, b: nat)
    requires GoodList(d, g, bl) && tail <= |bl| && b < |d| == |f| == |disk| == |flat|
  {
    if b in bl[..tail] then disk[b] == flat[b] == HomeAfter(d, g, bl, tail, b)
    else disk[b] == d[b] && flat[b] == f[b]
  }

  lemma InstalledStep(g: Geometry, bl: seq<int>, tail: nat, d: Disk, f: Disk, r: seq<nat>,
                      disk: Disk, flat: Disk, refs: seq<nat>, images: seq<Disk>)
    requires Installed(g, bl, tail, d, f, disk, flat, images) && tail < |bl| && |r| == |d|
    requires Dropped(refs, r, bl[..tail])
    ensures
      var x, y := g.start + 1 + tail, bl[tail];
      && disk[x] == d[x] && flat[x] == f[x] && refs[x] == r[x] && refs[y] == r[y]
      && Installed(g, bl, tail + 1, d, f, disk[y := d[x]], flat[y := d[x]], images + [disk[y := d[x]]])
      && Dropped(refs[y := Down(r[y])], r, bl[..tail + 1])
  {
    var x, y := g.start + 1 + tail, bl[tail];
    assert g.InLog(x) && g.HomeBlock(d, y);
    assert bl[..tail + 1] == bl[..tail] + [y];
    forall i | 0 <= i < tail
      ensures bl[i] != y && bl[i] != x
    {
      assert g.HomeBlock(d, bl[i]);
    }
    assert y !in bl[..tail] && x !in bl[..tail];
    assert InstalledAt(g, bl, tail, d, f, disk, flat, x) && DroppedAt(refs, r, bl[..tail], x);
    assert DroppedAt(refs, r, bl[..tail], y);
    var next, disk', flat', refs' := tail + 1, disk[y := d[x]], flat[y := d[x]], refs[y := Down(r[y])];
    forall b | 0 <= b < |d|
      ensures InstalledAt(g, bl, next, d, f, disk', flat', b)
    {
      assert InstalledAt(g, bl, tail, d, f, disk, flat, b);
    }
    forall b | 0 <= b < |r|
      ensures DroppedAt(refs', r, bl[..next], b)
    {
      assert DroppedAt(refs, r, bl[..tail], b);
    }
    forall b | 0 <= b < |d| && b !in bl
      ensures disk[b] == d[b]
    {
      assert InstalledAt(g, bl, tail, d, f, disk, flat, b);
    }
    assert Touches(disk', d, bl);
  }

  // What write_log has changed when it has copied `tail` blocks
  ghost predicate Copied(g: Geometry, bl: seq<int>, tail: nat, d: Disk, f: Disk, disk: Disk, flat: Disk,
      images: seq<Disk>) {
    && GoodList(d, g, bl) && tail <= |bl| && |d| == |f| == |disk| == |flat|
    && LogOnly(disk, d, g) && LogOnly(flat, f, g)
    && (forall j :: 0 <= j < tail ==> CopyOf(disk, flat, g, j, f[bl[j]]))
    && (forall b :: g.start + 1 + tail <= b < g.start + g.size ==> disk[b] == d[b] && flat[b] == f[b])
    && (forall k :: 0 <= k < |images| ==> LogOnly(images[k], d, g))
  }

  ghost predicate CopyOf(disk: Disk, flat: Disk, g: Geometry, j: nat, data: Block)
    requires g.start + 1 + j < |disk| == |flat|
  {
    disk[g.start + 1 + j] == flat[g.start + 1 + j] == data
  }

  // Differs from base at most in log blocks, the header excepted
  ghost predicate LogOnly(d: Disk, base: Disk, g: Geometry) {
    |d| == |base| && forall b :: 0 <= b < |d| && (!g.InLog(b) || b == g.start) ==> d[b] == base[b]
  }

  lemma CopiedStep(g: Geometry, bl: seq<int>, tail: nat, d: Disk, f: Disk, disk: Disk, flat: Disk, images: seq<Disk>)
    requires Copied(g, bl, tail, d, f, disk, flat, images) && tail < |bl|
    ensures
      var x, y := g.start + 1 + tail, bl[tail];
      && flat[y] == f[y]
      && Copied(g, bl, tail + 1, d, f, disk[x := f[y]], flat[x := f[y]], images + [disk[x := f[y]]])
  {
    var x, y := g.start + 1 + tail, bl[tail];
    assert g.HomeBlock(d, y) && g.InLog(x);
    forall j | 0 <= j < tail + 1
      ensures CopyOf(disk[x := f[y]], flat[x := f[y]], g, j, f[bl[j]])
    {
      assert j < tail ==> CopyOf(disk, flat, g, j, f[bl[j]]);
    }
  }

  lemma CopiedClean(g: Geometry, bl: seq<int>, d: Disk, f: Disk, disk: Disk, flat: Disk, images: seq<Disk>)
    requires Copied(g, bl, |bl|, d, f, disk, flat, images) && LogClean(d, f, g)
    ensures LogClean(disk, flat, g)
  {
    forall b | g.InLog(b)
      ensures disk[b] == flat[b]
    {
      if g.start < b < g.start + 1 + |bl| {
        assert CopyOf(disk, flat, g, b - g.start - 1, f[bl[b - g.start - 1]]);
      }
    }
  }

  /** Before the header is written, the log blocks are invisible to recovery. */
  lemma CopiedInvisible(g: Geometry, bl: seq<int>, tail: nat, d: Disk, f: Disk, disk: Disk, flat: Disk,
      images: seq<Disk>, home: Disk)
    requires Copied(g, bl, tail, d, f, disk, flat, images)
    requires RecoversTo(d, g, home) && HeadCount(d, g) == 0
    ensures RecoversTo(disk, g, home) && HeadCount(disk, g) == 0 && GoodList(disk, g, bl)
    ensures AllRecoverTo(images, g, home)
  {
    forall e: Disk | LogOnly(e, d, g)
      ensures RecoversTo(e, g, home)
    {
      LogAreaInvisible(d, e, g, home);
    }
  }

  /** The header write that follows a complete write_log commits. */
  lemma CommitPoint(g: Geometry, bl: seq<int>, n: nat, before: Disk, after: Disk, d: Disk, images: seq<Disk>, e: Disk)
    requires exists flat :: Copied(g, bl, n, before, after, d, flat, images)
    requires n == |bl| && RecoversTo(before, g, before) && HeadCount(before, g) == 0 && |after| == |d|
    requires e == d[g.start := PutHead(d[g.start], bl)]
    requires forall b :: g.HomeBlock(before, b) && b !in bl ==> before[b] == after[b]
    ensures RecoversTo(e, g, after) && HeadBlocks(e, g) == bl
  {
    var flat :| Copied(g, bl, n, before, after, d, flat, images);
    CopiedInvisible(g, bl, n, before, after, d, flat, images, before);
    forall j | 0 <= j < |bl|
      ensures d[g.start + 1 + j] == after[bl[j]]
    {
      assert CopyOf(d, flat, g, j, after[bl[j]]);
    }
    HeadWriteCommits(d, e, g, bl, after, before, after);
  }

  /** After the header is written, the home blocks it names are invisible to recovery. */
  lemma InstalledInvisible(g: Geometry, bl: seq<int>, tail: nat, d: Disk, f: Disk, disk: Disk, flat: Disk,
      images: seq<Disk>, home: Disk)
    requires Installed(g, bl, tail, d, f, disk, flat, images)
    requires RecoversTo(d, g, home) && HeadBlocks(d, g) == bl
    ensures RecoversTo(disk, g, home) && AllRecoverTo(images, g, home)
    ensures tail == |bl| ==> forall b :: g.HomeBlock(d, b) ==>
      disk[b] == home[b] && flat[b] == if b in bl then home[b] else f[b]
    ensures forall b :: g.InLog(b) ==> disk[b] == d[b] && flat[b] == f[b]
  {
    forall e: Disk | Touches(e, d, bl)
      ensures RecoversTo(e, g, home)
    {
      InstallKeepsRecovery(d, e, g, home);
    }
    forall b | 0 <= b < |d|
      ensures b in bl || disk[b] == d[b]
    {
      assert InstalledAt(g, bl, tail, d, f, disk, flat, b);
    }
    assert Touches(disk, d, bl);
    forall b | tail == |bl| && g.HomeBlock(d, b)
      ensures disk[b] == home[b] && flat[b] == if b in bl then home[b] else f[b]
    {
      assert bl[..|bl|] == bl && Recovered(d, g, b) == home[b] && InstalledAt(g, bl, tail, d, f, disk, flat, b);
      HomeAfterLast(d, g, bl, |bl|, b);
    }
    forall b | g.InLog(b)
      ensures disk[b] == d[b] && flat[b] == f[b]
    {
      assert InstalledAt(g, bl, tail, d, f, disk, flat, b);
      assert forall i :: 0 <= i < |bl| ==> g.HomeBlock(d, bl[i]) && bl[i] != b;
    }
  }

  const MAXOPBLOCKS: nat := 10

  datatype Outcome = Logged | TooBig | OutsideTransaction

  // Two references taken, one unpinned and two released
  lemma InstalledRefs(refs: seq<nat>, x: nat, y: nat)
    requires x < |refs| && y < |refs| && x != y && refs[x] < U32 - 2 && refs[y] < U32 - 2
    ensures var r1 := refs[x := refs[x] + 1][y := refs[y] + 1];
            var r2 := r1[y := Down(r1[y])];
            var r3 := r2[x := Down(r2[x])];
            r3[y := Down(r3[y])] == refs[y := Down(refs[y])]
  {
    assert refs == refs[x := refs[x]];
  }

  class RedoLog {
    const g: Geometry
    const bc: Cache
    var lh: seq<int>         // log.lh: n and block[0..n)
    var outstanding: nat
    var committing: bool

    constructor (g: Geometry, bc: Cache)
      ensures this.g == g && this.bc == bc && lh == [] && outstanding == 0 && !committing
    {
      this.g, this.bc, lh, outstanding, committing := g, bc, [], 0, false;
    }

    /** Copies the log blocks to their homes, in order. */
    method InstallTrans() returns (ok: bool, ghost tail': nat)
      requires bc.Valid() && GoodList(bc.disk, g, lh) && LogClean(bc.disk, bc.flat, g)
      requires NoDup(lh) && RefsBounded(bc.refs)
      modifies bc
      ensures bc.Valid() && old(bc.trace) <= bc.trace && (ok ==> tail' == |lh|)
      ensures Installed(g, lh, tail', old(bc.disk), old(bc.flat), bc.disk, bc.flat, bc.trace[|old(bc.trace)|..])
      ensures ok ==> Dropped(bc.refs, old(bc.refs), lh)
      ensures AllPinned(old(bc.refs), lh) && |Used(old(bc.refs))| < NBUF ==> ok
      ensures NoRefs(old(bc.refs)) ==> (ok <==> |lh| < NBUF)
    {
      ghost var d, f, t, r := bc.disk, bc.flat, bc.trace, bc.refs;
      var tail := 0;
      while tail < |lh|
        invariant tail <= |lh| && bc.Valid() && t <= bc.trace
        invariant Installed(g, lh, tail, d, f, bc.disk, bc.flat, bc.trace[|t|..])
        invariant Dropped(bc.refs, r, lh[..tail]) && (NoRefs(r) ==> tail < NBUF)
      {
        ghost var images := bc.trace[|t|..];
        InstalledStep(g, lh, tail, d, f, r, bc.disk, bc.flat, bc.refs, images);
        assert g.InLog(g.start + tail + 1) && g.HomeBlock(d, lh[tail]);
        StillCan(bc.refs, r, lh, g.start + tail + 1, lh[tail], tail);
        ok := InstallOne(g.start + tail + 1, lh[tail]);
        if !ok {
          return false, tail;
        }
        assert bc.trace[|t|..] == images + [bc.disk];
        tail := tail + 1;
      }
      assert lh[..|lh|] == lh;
      return true, tail;
    }

    /** Copies the modified blocks from the cache to the log. */
    method WriteLog() returns (ok: bool, ghost tail': nat)
      requires bc.Valid() && GoodList(bc.disk, g, lh) && RefsBounded(bc.refs)
      requires forall i :: 0 <= i < |lh| ==> bc.refs[lh[i]] >= 1
      modifies bc
      ensures bc.Valid() && old(bc.trace) <= bc.trace && (ok ==> tail' == |lh| && bc.refs == old(bc.refs))
      ensures Copied(g, lh, tail', old(bc.disk), old(bc.flat), bc.disk, bc.flat, bc.trace[|old(bc.trace)|..])
      ensures |Used(old(bc.refs))| < NBUF ==> ok
    {
      ghost var d, f, t, r := bc.disk, bc.flat, bc.trace, bc.refs;
      var tail := 0;
      while tail < |lh|
        invariant tail <= |lh| && bc.Valid() && t <= bc.trace && bc.refs == r
        invariant Copied(g, lh, tail, d, f, bc.disk, bc.flat, bc.trace[|t|..])
      {
        ghost var images := bc.trace[|t|..];
        CopiedStep(g, lh, tail, d, f, bc.disk, bc.flat, images);
        assert g.InLog(g.start + tail + 1) && g.HomeBlock(d, lh[tail]);
        ok := CopyOne(g.start + tail + 1, lh[tail]);
        if !ok {
          return false, tail;
        }
        assert bc.trace[|t|..] == images + [bc.disk];
        tail := tail + 1;
      }
      return true, tail;
    }

    /** One round of write_log: log block x takes the cached contents of home block y. */
    method CopyOne(x: nat, y: nat) returns (ok: bool)
      requires bc.Valid() && x < |bc.disk| && y < |bc.disk| && x != y
      requires bc.refs[x] < U32 - 2 && 1 <= bc.refs[y] < U32 - 2
      modifies bc
      ensures bc.Valid()
      ensures ok ==> bc.disk == old(bc.disk)[x := old(bc.flat)[y]] && bc.flat == old(bc.flat)[x := old(bc.flat)[y]]
      ensures ok ==> bc.trace == old(bc.trace) + [bc.disk] && bc.refs == old(bc.refs)
      ensures !ok ==> bc.disk == old(bc.disk) && bc.flat == old(bc.flat) && bc.trace == old(bc.trace)
      ensures ok <==> CanRead(old(bc.refs), x)
    {
      var to, from;
      ok, to, from := BreadPair(x, y);
      if ok {
        Replace(to, bc.bufs[from].data, x);
        bc.Brelse(from, y);
        bc.Brelse(to, x);
      }
    }

    /** Writes the in-memory header to disk. */
    method WriteHead() returns (ok: bool)
      requires bc.Valid() && GoodList(bc.disk, g, lh)
      requires bc.disk[g.start] == bc.flat[g.start] && bc.refs[g.start] < U32 - 1
      modifies bc
      ensures bc.Valid()
      ensures ok ==> bc.disk == old(bc.disk)[g.start := PutHead(old(bc.disk)[g.start], lh)]
      ensures ok ==> bc.flat == old(bc.flat)[g.start := PutHead(old(bc.disk)[g.start], lh)]
      ensures ok ==> bc.trace == old(bc.trace) + [bc.disk] && bc.refs == old(bc.refs)
      ensures !ok ==> bc.disk == old(bc.disk) && bc.flat == old(bc.flat) && bc.trace == old(bc.trace)
      ensures ok <==> CanRead(old(bc.refs), g.start)
    {
      var r := bc.Bread(g.start);
      if r.None? {
        return false;
      }
      var head := bc.bufs[r.value].data;
      var hb := head[0 := |lh|];
      var i := 0;
      while i < |lh|
        invariant i <= |lh| && |hb| == WORDS
        invariant forall k :: 0 <= k < WORDS ==> hb[k] == if k == 0 then |lh| else if k <= i then lh[k - 1] else head[k]
      {
        hb := hb[1 + i := lh[i]];
        i := i + 1;
      }
      assert hb == PutHead(head, lh);
      bc.Fill(r.value, hb, g.start);
      bc.Bwrite(r.value, g.start);
      bc.Brelse(r.value, g.start);
      return true;
    }

    /** No operation is running: what is not logged is on disk, and the log is empty there. */
    ghost predicate Quiescent()
      reads this, bc
    {
      && bc.Valid() && GoodHead(bc.disk, g) && HeadCount(bc.disk, g) == 0
      && GoodList(bc.disk, g, lh) && NoDup(lh) && LogClean(bc.disk, bc.flat, g)
      && (forall i :: 0 <= i < |lh| ==> bc.refs[lh[i]] >= 1)
      && (forall b :: g.HomeBlock(bc.disk, b) && b !in lh ==> bc.disk[b] == bc.flat[b])
    }

    /** begin_op lets an operation in exactly if nobody is committing and there is room for all that it
        and the others may still log; else its caller sleeps. */
    method BeginOp() returns (ok: bool)
      modifies this`outstanding
      ensures ok <==> !committing && |lh| + (old(outstanding) + 1) * MAXOPBLOCKS <= LOGSIZE
      ensures outstanding == old(outstanding) + if ok then 1 else 0
    {
      if committing {
        return false;
      }
      if |lh| + (outstanding + 1) * MAXOPBLOCKS > LOGSIZE {
        return false;
      }
      outstanding := outstanding + 1;
      return true;
    }

    /** end_op: the last operation commits the group, with what Commit promises of a crash; any other
        leaves the log as it is. The source panics if somebody is committing. */
    method EndOp() returns (ok: bool, ghost cut: nat)
      requires outstanding >= 1 && !committing && (outstanding == 1 ==> Quiescent() && RefsBounded(bc.refs))
      modifies this`outstanding, this`committing, this`lh, bc
      ensures outstanding == old(outstanding) - 1 && (ok ==> !committing)
      ensures outstanding > 0 ==> ok && lh == old(lh) && bc.disk == old(bc.disk) && bc.trace == old(bc.trace)
      ensures outstanding == 0 ==> |old(bc.trace)| <= cut <= |bc.trace| && old(bc.trace) <= bc.trace
      ensures outstanding == 0 ==>
          AllRecoverTo(bc.trace[|old(bc.trace)|..cut], g, old(bc.disk))
          && AllRecoverTo(bc.trace[cut..], g, old(bc.flat))
      ensures ok && outstanding == 0 ==> lh == [] && Quiescent()
      ensures ok && outstanding == 0 ==>
          forall b :: g.HomeBlock(bc.disk, b) ==> b < |old(bc.flat)| && bc.disk[b] == old(bc.flat)[b]
      ensures old(outstanding) == 1 && |Used(old(bc.refs))| < NBUF ==> ok
    {
      outstanding := outstanding - 1;
      ok, cut := true, |bc.trace|;
      if outstanding == 0 {
        committing := true;
        ok, cut := Commit();
        if ok {
          committing := false;
        }
      }
    }

    /** Group commit. A crash at any point leaves a disk that recovers to the contents before
        the transaction, up to block write number `cut`, and from there on to the contents
        after it. One free buffer is enough for it to get through. */
    method Commit() returns (ok: bool, ghost cut: nat)
      requires Quiescent() && RefsBounded(bc.refs)
      modifies this`lh, bc
      ensures bc.Valid() && |old(bc.trace)| <= cut <= |bc.trace| && old(bc.trace) <= bc.trace
      ensures AllRecoverTo(bc.trace[|old(bc.trace)|..cut], g, old(bc.disk))
      ensures AllRecoverTo(bc.trace[cut..], g, old(bc.flat))
      ensures ok ==> lh == [] && Quiescent() && Dropped(bc.refs, old(bc.refs), old(lh))
      ensures ok ==> forall b :: g.HomeBlock(bc.disk, b) ==> bc.disk[b] == bc.flat[b] == old(bc.flat)[b]
      ensures |Used(old(bc.refs))| < NBUF ==> ok
    {
      cut := |bc.trace|;
      if |lh| == 0 {
        return true, cut;
      }
      ok := WriteRecord();
      cut := if ok then |bc.trace| - 1 else |bc.trace|;
      assert !ok ==> bc.trace[|old(bc.trace)|..cut] == bc.trace[|old(bc.trace)|..];
      if ok {
        ghost var t := bc.trace;
        ok := InstallAndClear(old(bc.flat));
        assert bc.trace[|old(bc.trace)|..cut] == t[|old(bc.trace)|..cut];
        assert bc.trace[cut..] == [t[cut]] + bc.trace[|t|..];
      }
    }

    /** The first half of commit: the log blocks, then the header, whose one block write
        moves the recovered contents from old to new. */
    method WriteRecord() returns (ok: bool)
      requires Quiescent() && RefsBounded(bc.refs)
      modifies bc
      ensures bc.Valid() && old(bc.trace) <= bc.trace && |bc.disk| == |bc.flat| == |old(bc.flat)|
      ensures !ok ==> AllRecoverTo(bc.trace[|old(bc.trace)|..], g, old(bc.disk))
      ensures ok ==> |old(bc.trace)| < |bc.trace| && bc.trace[|bc.trace| - 1] == bc.disk
      ensures ok ==> AllRecoverTo(bc.trace[|old(bc.trace)|..|bc.trace| - 1], g, old(bc.disk))
      ensures ok ==> RecoversTo(bc.disk, g, old(bc.flat)) && HeadBlocks(bc.disk, g) == lh
      ensures ok ==> LogClean(bc.disk, bc.flat, g) && bc.refs == old(bc.refs)
      ensures ok ==> forall b :: g.HomeBlock(bc.disk, b) ==> bc.flat[b] == old(bc.flat)[b]
      ensures |Used(old(bc.refs))| < NBUF ==> ok
    {
      ghost var before, after, t := bc.disk, bc.flat, bc.trace;
      ghost var n;
      ok, n := WriteLog();
      CopiedInvisible(g, lh, n, before, after, bc.disk, bc.flat, bc.trace[|t|..], before);
      ghost var d, t' := bc.disk, bc.trace;
      if ok {
        CopiedClean(g, lh, before, after, d, bc.flat, bc.trace[|t|..]);
        ok := WriteHead();
        assert bc.trace[|t|..|t'|] == t'[|t|..];
        if ok {
          CommitPoint(g, lh, n, before, after, d, t'[|t|..], bc.disk);
        }
      }
    }

    /** The second half of commit, and what recovery does once it has read the header. */
    method InstallAndClear(ghost home: Disk) returns (ok: bool)
      requires bc.Valid() && RecoversTo(bc.disk, g, home) && HeadBlocks(bc.disk, g) == lh
      requires LogClean(bc.disk, bc.flat, g) && NoDup(lh) && RefsBounded(bc.refs)
      modifies this`lh, bc
      ensures bc.Valid() && old(bc.trace) <= bc.trace && AllRecoverTo(bc.trace[|old(bc.trace)|..], g, home)
      ensures ok ==>
          lh == [] && RecoversTo(bc.disk, g, home) && HeadCount(bc.disk, g) == 0 && LogClean(bc.disk, bc.flat, g)
      ensures ok ==> forall b :: g.HomeBlock(bc.disk, b) ==> bc.disk[b] == home[b]
      ensures ok ==>
          forall b :: g.HomeBlock(bc.disk, b) ==> bc.flat[b] == if b in old(lh) then home[b] else old(bc.flat)[b]
      ensures ok ==> Dropped(bc.refs, old(bc.refs), old(lh))
      ensures AllPinned(old(bc.refs), old(lh)) && |Used(old(bc.refs))| < NBUF ==> ok
      ensures NoRefs(old(bc.refs)) ==> (ok <==> |old(lh)| < NBUF)
    {
      ghost var d, f, t, n := bc.disk, bc.flat, bc.trace, 0;
      ok, n := InstallTrans();
      InstalledInvisible(g, lh, n, d, f, bc.disk, bc.flat, bc.trace[|t|..], home);
      if ok {
        ghost var e, t' := bc.disk, bc.trace;
        assert DroppedAt(bc.refs, old(bc.refs), lh, g.start);
        OneLeft(bc.refs, old(bc.refs), lh);
        lh := [];
        ok := WriteHead();
        if ok {
          HeadClearKeeps(e, bc.disk, g, home);
          assert bc.trace[|t|..] == t'[|t|..] + [bc.disk];
        }
      }
    }

    /** Reads the header from disk. */
    method ReadHead() returns (ok: bool)
      requires bc.Valid() && GoodHead(bc.disk, g) && bc.disk[g.start] == bc.flat[g.start] && bc.refs[g.start] < U32 - 1
      modifies this`lh, bc
      ensures bc.Valid() && bc.disk == old(bc.disk) && bc.flat == old(bc.flat) && bc.trace == old(bc.trace)
      ensures ok ==> lh == HeadBlocks(bc.disk, g) && bc.refs == old(bc.refs)
      ensures ok <==> CanRead(old(bc.refs), g.start)
    {
      var r := bc.Bread(g.start);
      if r.None? {
        return false;
      }
      var head := bc.bufs[r.value].data;
      var bl := [];
      while |bl| < head[0]
        invariant |bl| <= head[0] && bl == head[1..1 + |bl|]
      {
        bl := bl + [head[1 + |bl|]];
      }
      lh := bl;
      bc.Brelse(r.value, g.start);
      return true;
    }

    /** Recovery, on a cache that has just been set up. Wherever it is cut short, the disk
        still recovers to the same contents. A block that it installs is left with a reference
        count one below zero, because install_trans drops a pin that recovery never took: the
        counts come out right if and only if the log on disk was empty, and each such block keeps
        its buffer, so recovery gets through if and only if the log has fewer blocks than there
        are buffers. */
    method RecoverFromLog() returns (ok: bool)
      requires bc.Valid() && GoodHead(bc.disk, g) && NoDup(HeadBlocks(bc.disk, g))
      requires bc.disk == bc.flat && bc.refs == seq(|bc.disk|, _ => 0)
      modifies this`lh, bc
      ensures bc.Valid() && old(bc.trace) <= bc.trace
      ensures forall home :: RecoversTo(old(bc.disk), g, home) ==> AllRecoverTo(bc.trace[|old(bc.trace)|..], g, home)
      ensures ok ==> lh == [] && |bc.disk| == |old(bc.disk)| && Quiescent()
      ensures ok ==> forall b :: g.HomeBlock(bc.disk, b) ==> bc.disk[b] == bc.flat[b] == Recovered(old(bc.disk), g, b)
      ensures ok ==>
          forall b :: 0 <= b < |bc.refs| ==> bc.refs[b] == if b in HeadBlocks(old(bc.disk), g) then U32 - 1 else 0
      ensures ok ==> (bc.refs == old(bc.refs) <==> HeadCount(old(bc.disk), g) == 0)
      ensures ok <==> HeadCount(old(bc.disk), g) < NBUF
    {
      ghost var d := bc.disk;
      ok := ReadHead();
      if !ok {
        return;
      }
      ghost var home := seq(|d|, b requires 0 <= b < |d| => Recovered(d, g, b));
      assert RecoversTo(d, g, home);
      ok := InstallAndClear(home);
      forall other | RecoversTo(d, g, other)
        ensures AllRecoverTo(bc.trace[|old(bc.trace)|..], g, other)
      {
        forall b | g.HomeBlock(d, b)
          ensures other[b] == home[b]
        {
          assert Recovered(d, g, b) == other[b];
        }
        assert forall e: Disk :: RecoversTo(e, g, home) && |e| == |d| ==> RecoversTo(e, g, other);
      }
      if ok {
        forall b | g.HomeBlock(d, b)
          ensures bc.disk[b] == bc.flat[b] == Recovered(d, g, b)
        {
          HomeAfterLast(d, g, HeadBlocks(d, g), |HeadBlocks(d, g)|, b);
          assert HeadBlocks(d, g)[..|HeadBlocks(d, g)|] == HeadBlocks(d, g);
        }
        forall b | 0 <= b < |bc.refs|
          ensures bc.refs[b] == if b in HeadBlocks(d, g) then U32 - 1 else 0
        {
          assert DroppedAt(bc.refs, old(bc.refs), HeadBlocks(d, g), b);
        }
        if HeadCount(d, g) != 0 {
          assert g.HomeBlock(d, HeadBlocks(d, g)[0]);
          assert bc.refs[HeadBlocks(d, g)[0]] == U32 - 1;
        }
      }
    }

    /** Records a modified block: absorbed if it is logged already, else added and pinned.
        The two tests run first, whether or not the block is logged already. */
    method LogWrite(i: nat, ghost b: nat) returns (r: Outcome)
      requires bc.Valid() && bc.Filled(i, b) && bc.refs[b] < U32 - 1
      modifies this`lh, bc`bufs, bc`refs
      ensures bc.Valid() && bc.Filled(i, b)
      ensures r.TooBig? <==> old(|lh|) >= LOGSIZE || old(|lh|) >= g.size - 1
      ensures r.OutsideTransaction? <==> !r.TooBig? && outstanding < 1
      ensures r.Logged? ==> outstanding >= 1 && lh == (if b in old(lh) then old(lh) else old(lh) + [b as int])
      ensures r.Logged? ==> bc.refs == if b in old(lh) then old(bc.refs) else old(bc.refs)[b := old(bc.refs)[b] + 1]
      ensures !r.Logged? ==> lh == old(lh) && bc.refs == old(bc.refs)
    {
      if |lh| >= LOGSIZE || |lh| >= g.size - 1 {
        return TooBig;
      }
      if outstanding < 1 {
        return OutsideTransaction;
      }
      var k := 0;
      while k < |lh| && lh[k] != bc.bufs[i].blockno
        invariant k <= |lh| && b !in lh[..k]
      {
        k := k + 1;
      }
      if k == |lh| {
        assert lh[..k] == lh;
        bc.Bpin(i, b);
        lh := lh + [bc.bufs[i].blockno];
      } else {
        lh := lh[k := bc.bufs[i].blockno];
      }
      return Logged;
    }

    /** Reads two blocks, holding both. */
    method BreadPair(x: nat, y: nat) returns (ok: bool, i: nat, j: nat)
      requires bc.Valid() && x < |bc.disk| && y < |bc.disk| && x != y
      requires bc.refs[x] < U32 - 2 && bc.refs[y] < U32 - 2
      modifies bc`bufs, bc`at, bc`refs
      ensures bc.Valid()
      ensures ok ==> bc.Filled(i, x) && bc.Filled(j, y) && i != j
      ensures ok ==> bc.refs == old(bc.refs)[x := old(bc.refs)[x] + 1][y := old(bc.refs)[y] + 1]
      ensures ok <==> CanReadPair(old(bc.refs), x, y)
    {
      i, j := 0, 0;
      var l := bc.Bread(x);
      if l.None? {
        return false, 0, 0;
      }
      var h := bc.Bread(y);
      if h.None? {
        return false, 0, 0;
      }
      return true, l.value, h.value;
    }

    // memmove into the buffer of block b, and bwrite
    method Replace(i: nat, data: Block, ghost b: nat)
      requires bc.Valid() && bc.Filled(i, b) && bc.refs[b] > 0
      modifies bc`bufs, bc`flat, bc`disk, bc`trace
      ensures bc.Valid() && bc.Filled(i, b) && OthersSame(old(bc.bufs), bc.bufs, i)
      ensures bc.flat == old(bc.flat)[b := data] && bc.disk == old(bc.disk)[b := data]
      ensures bc.trace == old(bc.trace) + [bc.disk]
    {
      bc.Fill(i, data, b);
      bc.Bwrite(i, b);
    }

    /** One round of install_trans: log block x replaces home block y, in memory and on disk. */
    method InstallOne(x: nat, y: nat) returns (ok: bool)
      requires bc.Valid() && x < |bc.disk| && y < |bc.disk| && x != y
      requires bc.refs[x] < U32 - 2 && bc.refs[y] < U32 - 2 && bc.disk[x] == bc.flat[x]
      modifies bc
      ensures bc.Valid()
      ensures ok ==> bc.disk == old(bc.disk)[y := old(bc.disk)[x]] && bc.flat == old(bc.flat)[y := old(bc.disk)[x]]
      ensures ok ==> bc.trace == old(bc.trace) + [bc.disk] && bc.refs == old(bc.refs)[y := Down(old(bc.refs)[y])]
      ensures !ok ==> bc.disk == old(bc.disk) && bc.flat == old(bc.flat) && bc.trace == old(bc.trace)
      ensures ok <==> CanReadPair(old(bc.refs), x, y)
    {
      var l, h;
      ok, l, h := BreadPair(x, y);
      if ok {
        Replace(h, bc.bufs[l].data, y);
        bc.Bunpin(h, y);
        bc.Brelse(l, x);
        bc.Brelse(h, y);
        InstalledRefs(old(bc.refs), x, y);
      }
    }
  }
}
