/** The on-disk redo log: a header block holding a count and that many home block
    numbers, followed by one log block for each of them. What a disk image means
    after a crash is the home contents that recovery would produce from it. */
module LogFormat {

  const LOGSIZE: nat := 30
  const WORDS: nat := 256  // BSIZE / sizeof(int)

  type Block = seq<int>
  type Disk = seq<Block>

  // log.start and log.size, as initlog takes them from the superblock
  datatype Geometry = Geometry(start: nat, size: nat) {
    predicate InLog(b: int) { start <= b < start + size }
    predicate Fits(d: Disk) { 1 <= size && start + size <= |d| && |d[start]| == WORDS }
    predicate HomeBlock(d: Disk, b: int) { 0 <= b < |d| && !InLog(b) }
  }

  function HeadCount(d: Disk, g: Geometry): int
    requires g.Fits(d)
  {
    d[g.start][0]
  }

  /** A block list that the log area can hold: at most LOGSIZE home blocks, with a log block for each. */
  predicate GoodList(d: Disk, g: Geometry, bl: seq<int>) {
    && g.Fits(d)
    && |bl| <= LOGSIZE && |bl| < g.size
    && forall i :: 0 <= i < |bl| ==> g.HomeBlock(d, bl[i])
  }

  predicate GoodHead(d: Disk, g: Geometry) {
    && g.Fits(d)
    && 0 <= HeadCount(d, g) <= LOGSIZE
    && GoodList(d, g, d[g.start][1..1 + HeadCount(d, g)])
  }

  function HeadBlocks(d: Disk, g: Geometry): seq<int>
    requires GoodHead(d, g)
  {
    d[g.start][1..1 + HeadCount(d, g)]
  }

  /** The header block after write_head: entries past the count keep what was there. */
  function PutHead(was: Block, bl: seq<int>): (b: Block)
    requires |was| == WORDS && |bl| <= LOGSIZE
    ensures |b| == WORDS
  {
    [|bl|] + bl + was[1 + |bl|..]
  }

  /** Contents of home block b once log blocks 0..k-1 have been copied out in order. */
  function HomeAfter(d: Disk, g: Geometry, bl: seq<int>, k: nat, b: nat): Block
    requires GoodList(d, g, bl) && k <= |bl| && b < |d|
  {
    if k == 0 then d[b]
    else if bl[k - 1] == b then d[g.start + k]
    else HomeAfter(d, g, bl, k - 1, b)
  }

  /** What home block b holds after recovering from disk image d. */
  function Recovered(d: Disk, g: Geometry, b: nat): Block
    requires GoodHead(d, g) && b < |d|
  {
    HomeAfter(d, g, HeadBlocks(d, g), |HeadBlocks(d, g)|, b)
  }

  /** Disk image d recovers to exactly the home contents `home`. */
  ghost predicate RecoversTo(d: Disk, g: Geometry, home: Disk) {
    && GoodHead(d, g) && |home| == |d|
    && forall b :: g.HomeBlock(d, b) ==> Recovered(d, g, b) == home[b]
  }

  /** The home contents that a committed transaction leaves: the logged blocks take
      their new contents, every other block keeps its old ones. */
  ghost predicate AppliedTo(before: Disk, after: Disk, g: Geometry, bl: seq<int>, flat: Disk) {
    && |before| == |after| == |flat|
    && forall b :: g.HomeBlock(before, b) ==> after[b] == if b in bl then flat[b] else before[b]
  }

  /** A block in the list takes its recovered contents from the log alone. */
  lemma {:induction false} HomeAfterLogged(d: Disk, e: Disk, g: Geometry, bl: seq<int>, k: nat, b: nat)
    requires GoodList(d, g, bl) && GoodList(e, g, bl) && k <= |bl| && b < |d| == |e|
    requires forall j :: g.InLog(j) ==> d[j] == e[j]
    requires b in bl[..k] || d[b] == e[b]
    ensures HomeAfter(d, g, bl, k, b) == HomeAfter(e, g, bl, k, b)
  {
    if k > 0 && bl[k - 1] != b {
      assert b in bl[..k] ==> b in bl[..k - 1];
      HomeAfterLogged(d, e, g, bl, k - 1, b);
    }
  }

  /** Writes to home blocks named in the on-disk header never change what the disk
      recovers to: this is why installing, in any order and any number of times, is safe. */
  lemma InstallKeepsRecovery(d: Disk, e: Disk, g: Geometry, home: Disk)
    requires RecoversTo(d, g, home) && |e| == |d|
    requires forall b :: 0 <= b < |d| && b !in HeadBlocks(d, g) ==> e[b] == d[b]
    ensures RecoversTo(e, g, home)
  {
    var bl := HeadBlocks(d, g);
    forall b | g.InLog(b)
      ensures d[b] == e[b]
    {
    }
    assert HeadBlocks(e, g) == bl;
    forall b | g.HomeBlock(e, b)
      ensures Recovered(e, g, b) == home[b]
    {
      assert bl[..|bl|] == bl;
      HomeAfterLogged(d, e, g, bl, |bl|, b);
    }
  }

  /** With an empty header, writes inside the log area (other than the header) are invisible. */
  lemma LogAreaInvisible(d: Disk, e: Disk, g: Geometry, home: Disk)
    requires RecoversTo(d, g, home) && |e| == |d|
    requires HeadCount(d, g) == 0 && e[g.start] == d[g.start]
    requires forall b :: g.HomeBlock(d, b) ==> e[b] == d[b]
    ensures RecoversTo(e, g, home)
  {
    forall b | g.HomeBlock(e, b)
      ensures Recovered(e, g, b) == home[b]
    {
      assert Recovered(d, g, b) == d[b];
    }
  }

  /** The index of the copy that survives: the last entry for b. */
  lemma {:induction false} HomeAfterLast(d: Disk, g: Geometry, bl: seq<int>, k: nat, b: nat)
    requires GoodList(d, g, bl) && k <= |bl| && b < |d|
    ensures b !in bl[..k] ==> HomeAfter(d, g, bl, k, b) == d[b]
    ensures b in bl[..k] ==> exists j :: 0 <= j < k && bl[j] == b && HomeAfter(d, g, bl, k, b) == d[g.start + 1 + j]
  {
    if k > 0 {
      if bl[k - 1] == b {
        assert bl[..k][k - 1] == b;
        assert HomeAfter(d, g, bl, k, b) == d[g.start + 1 + (k - 1)];
      } else {
        assert bl[..k] == bl[..k - 1] + [bl[k - 1]];
        HomeAfterLast(d, g, bl, k - 1, b);
      }
    }
  }

  /** Writing the header is the commit point: one block write moves the recovered
      state from the old home contents to the logged ones. */
  lemma HeadWriteCommits(d: Disk, e: Disk, g: Geometry, bl: seq<int>, flat: Disk, before: Disk, after: Disk)
    requires GoodList(d, g, bl) && RecoversTo(d, g, before) && HeadCount(d, g) == 0
    requires e == d[g.start := PutHead(d[g.start], bl)]
    requires |flat| == |d| && forall j :: 0 <= j < |bl| ==> d[g.start + 1 + j] == flat[bl[j]]
    requires AppliedTo(before, after, g, bl, flat)
    ensures RecoversTo(e, g, after) && HeadBlocks(e, g) == bl
  {
    assert e[g.start][1..1 + |bl|] == bl;
    forall b | g.HomeBlock(e, b)
      ensures Recovered(e, g, b) == after[b]
    {
      assert Recovered(d, g, b) == d[b];
      assert bl[..|bl|] == bl;
      HomeAfterLast(e, g, bl, |bl|, b);
    }
  }

  /** Clearing the header after the install forgets the log and nothing else. */
  lemma HeadClearKeeps(d: Disk, e: Disk, g: Geometry, home: Disk)
    requires RecoversTo(d, g, home)
    requires e == d[g.start := PutHead(d[g.start], [])]
    requires forall b :: g.HomeBlock(d, b) ==> d[b] == home[b]
    ensures RecoversTo(e, g, home) && HeadCount(e, g) == 0
  {
  }
}
