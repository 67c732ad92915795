/** Page-table entries and virtual addresses as 64-bit words (RISC-V Privileged Architecture, version
    20190608, section 4.4): flags in bits 0 to 9 and the physical page number from bit 10 on, three
    indices of 9 bits above the offset. The macros of riscv.h, bit by bit, are the fields of the model's
    entries and the indices of its trees. */
module PteBits {
  import opened PageTable

  const U64: nat := 0x1_0000_0000_0000_0000
  const MAXVA: nat := MAXVPN * PGSIZE

  // ---------- C's operators on unsigned 64-bit integers ----------

  function Pow2(k: nat): (r: nat)
    ensures r > 0
  {
    if k == 0 then 1 else 2 * Pow2(k - 1)
  }

  function Shl(x: nat, k: nat): nat { x * Pow2(k) % U64 }

  function Shr(x: nat, k: nat): nat {
    NoLess(x, Pow2(k));
    x / Pow2(k)
  }

  lemma NoLess(x: nat, d: nat)
    requires d > 0
    ensures x / d >= 0
  {
    assert x == d * (x / d) + x % d;
  }

  function Or(x: nat, y: nat): nat {
    if x == 0 && y == 0 then 0 else 2 * Or(x / 2, y / 2) + if x % 2 == 1 || y % 2 == 1 then 1 else 0
  }

  function And(x: nat, y: nat): nat {
    if x == 0 || y == 0 then 0 else 2 * And(x / 2, y / 2) + if x % 2 == 1 && y % 2 == 1 then 1 else 0
  }

  lemma {:induction false} OrNone(x: nat)
    ensures Or(x, 0) == x
  {
    if x > 0 {
      OrNone(x / 2);
    }
  }

  /** Bits in different places add up. */
  lemma {:induction false} OrApart(x: nat, y: nat, k: nat)
    requires y < Pow2(k)
    ensures Or(x * Pow2(k), y) == x * Pow2(k) + y
  {
    if k == 0 {
      OrNone(x);
    } else {
      var z := x * Pow2(k - 1);
      assert x * Pow2(k) == 2 * z;
      OrApart(x, y / 2, k - 1);
      if z == 0 && y == 0 {
        assert Or(2 * z, y) == 0;
      } else {
        assert Or(2 * z, y) == 2 * Or(z, y / 2) + y % 2;
      }
    }
  }

  /** A mask of k ones keeps the remainder. */
  lemma {:induction false} AndMask(x: nat, k: nat, m: nat)
    requires m == Pow2(k)
    ensures And(x, m - 1) == x % m
  {
    if x == 0 {
      RemainderIs(0, m, 0, 0);
    } else if k == 0 {
      RemainderIs(x, 1, x, 0);
    } else {
      var h := Pow2(k - 1);
      AndMask(x / 2, k - 1, h);
      AndOdd(x, h);
      HalfMod(x, h);
    }
  }

  lemma AndOdd(x: nat, m: nat)
    requires x > 0 && m > 0
    ensures And(x, 2 * m - 1) == 2 * And(x / 2, m - 1) + x % 2
  {
    var y := 2 * m - 1;
    assert y / 2 == m - 1 && y % 2 == 1;
  }

  lemma HalfMod(x: nat, m: nat)
    requires m > 0
    ensures x % (2 * m) == 2 * (x / 2 % m) + x % 2
  {
    var q, r := x / 2 / m, x / 2 % m;
    assert x / 2 == m * q + r;
    assert 2 * m * q == 2 * (m * q);
    RemainderIs(x, 2 * m, q, 2 * r + x % 2);
  }

  lemma RemainderIs(x: nat, m: nat, q: nat, r: nat)
    requires x == m * q + r && r < m
    ensures x % m == r && x / m == q
  {
    var d := q - x / m;
    assert m * d == m * q - m * (x / m) == x % m - r;
    NoMultiple(m, d);
  }

  lemma NoMultiple(m: int, d: int)
    requires m > 0 && -m < m * d < m
    ensures d == 0
  {
    assert d > 0 ==> m * d >= m;
    assert d < 0 ==> m * d <= -m;
  }

  lemma Powers()
    ensures Pow2(9) == 512 && Pow2(10) == 1024 && Pow2(12) == 4096 && Pow2(21) == 0x20_0000 && Pow2(30) == 0x4000_0000
  {
    assert Pow2(4) == 16;
    assert Pow2(9) == 512;
    assert Pow2(12) == 4096;
    assert Pow2(17) == 0x2_0000;
    assert Pow2(21) == 0x20_0000;
    assert Pow2(26) == 0x400_0000;
  }

  // ---------- the macros ----------

  function Pa2Pte(pa: nat): nat { Shl(Shr(pa, 12), 10) }
  function Pte2Pa(pte: nat): nat { Shl(Shr(pte, 10), 12) }
  function PteFlagsOf(pte: nat): nat { And(pte, 0x3FF) }
  function Px(level: nat, va: nat): nat { And(Shr(va, 12 + 9 * level), 0x1FF) }

  // ---------- entries ----------

  // The word that the kernel stores for an entry, and the entry that a word is read as
  function Word(e: Pte): nat { Or(Pa2Pte(e.ppn * PGSIZE), e.flags as nat) }
  function Entry(w: nat): Pte { Pte(Pte2Pa(w) / PGSIZE, FlagBits(PteFlagsOf(w))) }

  function FlagBits(f: nat): PteFlags {
    if f < 1024 then f as PteFlags else 0
  }

  lemma FlagsBack(x: PteFlags)
    ensures x as nat < 1024 && FlagBits(x as nat) == x
  {
  }

  const MAXPPN: nat := 0x1000_0000_0000       // 44 bits

  lemma PaIs(ppn: nat)
    requires ppn < MAXPPN
    ensures Pa2Pte(ppn * PGSIZE) == ppn * 1024 < U64 - 1023
  {
    Powers();
    RemainderIs(ppn * PGSIZE, 4096, ppn, 0);
    assert Shr(ppn * PGSIZE, 12) == ppn;
    assert Shl(ppn, 10) == ppn * 1024;
  }

  lemma WordIs(e: Pte)
    requires e.ppn < MAXPPN
    ensures Word(e) == e.ppn * 1024 + e.flags as nat < U64
  {
    Powers();
    PaIs(e.ppn);
    OrApart(e.ppn, e.flags as nat, 10);
  }

  lemma Fields(w: nat, ppn: nat, f: nat)
    requires w == ppn * 1024 + f && f < 1024 && ppn < MAXPPN
    ensures Pte2Pa(w) == ppn * PGSIZE && PteFlagsOf(w) == f
  {
    Powers();
    RemainderIs(w, 1024, ppn, f);
    AndMask(w, 10, 1024);
    assert Shr(w, 10) == ppn;
    assert Shl(ppn, 12) == ppn * 4096;
  }

  /** An entry survives being packed into a word and read back. */
  lemma PackUnpack(e: Pte)
    requires e.ppn < MAXPPN
    ensures Word(e) < U64 && Entry(Word(e)) == e
  {
    WordIs(e);
    var f := e.flags as nat;
    Fields(Word(e), e.ppn, f);
    RemainderIs(e.ppn * PGSIZE, PGSIZE, e.ppn, 0);
    FlagsBack(e.flags);
  }

  // ---------- addresses ----------

  lemma PxIs(level: nat, va: nat)
    requires level <= 2
    ensures Px(level, va) == Shr(va, 12 + 9 * level) % NPTE
  {
    Powers();
    AndMask(Shr(va, 12 + 9 * level), 9, 512);
  }

  // A shift by 12, 21 or 30
  lemma Shifted(va: nat, v: nat)
    requires v == va / PGSIZE
    ensures Shr(va, 12) == v && Shr(va, 21) == v / NPTE && Shr(va, 30) == v / NPTE / NPTE
  {
    Powers();
    assert va / 0x20_0000 == va / PGSIZE / NPTE;
    assert va / 0x4000_0000 == va / PGSIZE / NPTE / NPTE;
  }

  /** The index that riscv.h takes out of an address at each level is the model's index of its page. */
  lemma IndexAt(va: nat, v: nat)
    requires va < MAXVA && v == va / PGSIZE
    ensures v < MAXVPN && Px(0, va) == v % NPTE && Px(1, va) == v / NPTE % NPTE && Px(2, va) == v / NPTE / NPTE
  {
    Shifted(va, v);
    PxIs(0, va);
    PxIs(1, va);
    PxIs(2, va);
    TopIndex(v);
  }

  lemma TopIndex(v: nat)
    requires v < MAXVPN
    ensures v / NPTE / NPTE % NPTE == v / NPTE / NPTE
  {
  }

  // walk, by the indices of riscv.h: the table that entry i of table p leads to, 0 for none
  function Step(m: Memory, p: nat, i: nat): nat {
    if m.PteAt(p, i).Valid() then m.PteAt(p, i).ppn else 0
  }

  function WalkBits(m: Memory, r: nat, va: nat): Pte {
    m.PteAt(Step(m, Step(m, r, Px(2, va)), Px(1, va)), Px(0, va))
  }

  /** Walking a tree by the bits of an address comes to the model's entry for its page. */
  lemma WalkIsAt(m: Memory, r: nat, va: nat)
    requires va < MAXVA
    ensures WalkBits(m, r, va) == m.At(r, 0, va / PGSIZE)
  {
    var v := va / PGSIZE;
    IndexAt(va, v);
    var j := v / NPTE;
    assert m.Tab(r, 2, j / NPTE / NPTE) == r;
    assert m.Tab(r, 1, j / NPTE) == Step(m, r, Px(2, va));
    assert m.Tab(r, 0, j) == Step(m, m.Tab(r, 1, j / NPTE), Px(1, va));
  }
}
