/** Ring buffers whose indices are 32-bit counters that only grow and wrap. */
module Rings {

  const U32: nat := 0x1_0000_0000

  newtype byte = x: int | 0 <= x < 256

  // The slot of counter x in a ring of n
  function Slot(x: nat, n: nat): nat
    requires 0 < n
  {
    x % n
  }

  // data holds q, in order, from the slot of counter start on
  ghost predicate Holds(data: seq<byte>, start: nat, q: seq<byte>) {
    && 0 < |data| && |q| <= |data|
    && forall i :: 0 <= i < |q| ==> data[Slot(start + i, |data|)] == q[i]
  }

  lemma SlotsDiffer(x: nat, y: nat, n: nat)
    requires x < y < x + n
    ensures Slot(x, n) != Slot(y, n)
  {
    var d := y / n - x / n;
    assert y - x == d * n + (y % n - x % n);
    NoMultiple(d, n);
  }

  lemma NoMultiple(d: int, n: nat)
    ensures d * n <= 0 || d * n >= n
  {
    if d >= 1 {
      assert d * n >= n;
    } else {
      assert d * n <= 0;
    }
  }

  lemma PutHolds(data: seq<byte>, start: nat, q: seq<byte>, x: byte)
    requires Holds(data, start, q) && |q| < |data|
    ensures Holds(data[Slot(start + |q|, |data|) := x], start, q + [x])
  {
    var slot := Slot(start + |q|, |data|);
    forall i | 0 <= i < |q| + 1
      ensures data[slot := x][Slot(start + i, |data|)] == (q + [x])[i]
    {
      if i < |q| {
        SlotsDiffer(start + i, start + |q|, |data|);
      }
    }
  }

  lemma TakeHolds(data: seq<byte>, start: nat, q: seq<byte>)
    requires Holds(data, start, q) && q != []
    ensures data[Slot(start, |data|)] == q[0] && Holds(data, start + 1, q[1..])
  {
    assert data[Slot(start + 0, |data|)] == q[0];
    forall i | 0 <= i < |q[1..]|
      ensures data[Slot(start + 1 + i, |data|)] == q[1..][i]
    {
      assert start + 1 + i == start + (i + 1);
    }
  }

  // ---------- counters ----------

  predicate Size(n: nat) {
    n == 512 || n == 128
  }

  // A counter that has wrapped still names its slot
  lemma WrapSlot(x: nat, n: nat)
    requires Size(n)
    ensures Slot(x % U32, n) == Slot(x, n)
  {
    if n == 512 {
      assert (x % U32) % 512 == x % 512;
    } else {
      assert (x % U32) % 128 == x % 128;
    }
  }

  // The difference of two wrapped counters is the true one
  lemma WrapDistance(a: nat, d: nat)
    requires d < U32
    ensures ((a + d) % U32 - a % U32) % U32 == d
  {
  }

  lemma WrapNext(x: nat, d: nat)
    ensures (x % U32 + d) % U32 == (x + d) % U32
  {
  }

  // Wrapped counters no further apart than U32 are equal only if the counters are
  lemma WrapEqual(a: nat, d: nat, k: nat)
    requires d < U32 && k < U32
    ensures (a + d) % U32 == (a % U32 + k) % U32 <==> d == k
  {
    WrapNext(a, k);
    WrapDistance(a, d);
    WrapDistance(a, k);
  }
}
