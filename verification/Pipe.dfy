/** A pipe's ring of bytes refines a queue of at most PIPESIZE bytes, whatever the number of bytes
    that has gone through it: the two 32-bit counters may wrap. pipewrite and piperead are cut at
    their sleeps: a call that returns Asleep goes on with the rest later, and between the two
    parts other processes may use the pipe. */
module Pipe {
  import opened Rings

  const PIPESIZE: nat := 512

  datatype Outcome = Returned | Asleep | Failed

  function Min(a: int, b: int): int {
    if a < b then a else b
  }

  function Max(a: int, b: int): int {
    if a < b then b else a
  }

  // The two tests of the counters
  lemma FullIff(read: nat, held: nat)
    requires held <= PIPESIZE
    ensures (read + held) % U32 == (read % U32 + PIPESIZE) % U32 <==> held == PIPESIZE
  {
    WrapEqual(read, held, PIPESIZE);
  }

  lemma EmptyIff(read: nat, held: nat)
    requires held <= PIPESIZE
    ensures read % U32 == (read + held) % U32 <==> held == 0
  {
    WrapEqual(read, held, 0);
  }

  class Pipe {
    const data: array<byte>
    var nread: nat
    var nwrite: nat
    var readopen: bool
    var writeopen: bool
    // All that has been written and all that has been read
    ghost var put: seq<byte>
    ghost var got: seq<byte>

    ghost predicate Valid()
      reads this, data
    {
      && data.Length == PIPESIZE && nread == |got| % U32 && nwrite == |put| % U32
      && got <= put && |put| <= |got| + PIPESIZE && Holds(data[..], |got|, put[|got|..])
    }

    // The bytes written and not yet read
    ghost function Queue(): seq<byte>
      requires got <= put
      reads this
    {
      put[|got|..]
    }

    // pipealloc
    constructor ()
      ensures Valid() && put == [] && got == [] && readopen && writeopen && fresh(data)
    {
      data := new byte[PIPESIZE];
      nread, nwrite, readopen, writeopen := 0, 0, true, true;
      put, got := [], [];
    }

    // pi->data[pi->nwrite++ % PIPESIZE] = ch
    method Put(ch: byte)
      requires Valid() && |Queue()| < PIPESIZE
      modifies this`nwrite, this`put, data
      ensures Valid() && put == old(put) + [ch] && Queue() == old(Queue()) + [ch]
    {
      PutHolds(data[..], |got|, Queue(), ch);
      WrapSlot(|put|, PIPESIZE);
      WrapNext(|put|, 1);
      assert |got| + |Queue()| == |put|;
      data[nwrite % PIPESIZE] := ch;
      nwrite := (nwrite + 1) % U32;
      put := put + [ch];
      assert Queue() == old(Queue()) + [ch];
    }

    // ch = pi->data[pi->nread++ % PIPESIZE]
    method Get() returns (ch: byte)
      requires Valid() && Queue() != []
      modifies this`nread, this`got
      ensures Valid() && ch == old(Queue())[0] && got == old(got) + [ch] && Queue() == old(Queue())[1..]
    {
      TakeHolds(data[..], |got|, Queue());
      WrapSlot(|got|, PIPESIZE);
      WrapNext(|got|, 1);
      ch := data[nread % PIPESIZE];
      nread := (nread + 1) % U32;
      got := got + [ch];
      assert put[|got|..] == old(Queue())[1..];
    }

    /** pipewrite from byte `from` of src on; copyin gives the bytes below limit. The pipe takes
        bytes in order as long as there is room: the caller goes on to sleep, or fails if nobody
        can read or it is killed, exactly if bytes are left when the pipe is full. */
    method Write(src: seq<byte>, from: nat, limit: nat, killed: bool) returns (i: nat, how: Outcome)
      requires Valid() && from <= |src|
      modifies this`nwrite, this`put, data
      ensures Valid() && i == Min(|src|, Min(from + PIPESIZE - |old(Queue())|, Max(from, limit)))
      ensures put == old(put) + src[from..i] && Queue() == old(Queue()) + src[from..i]
      ensures how == Returned <==> i == |src| || |Queue()| < PIPESIZE
      ensures how == Failed <==> i < |src| && |Queue()| == PIPESIZE && (!readopen || killed)
    {
      i := from;
      while i < |src|
        invariant Valid() && from <= i <= Min(|src|, Max(from, limit)) && i - from <= PIPESIZE - |old(Queue())|
        invariant put == old(put) + src[from..i] && Queue() == old(Queue()) + src[from..i]
      {
        FullIff(|got|, |Queue()|);
        assert |got| + |Queue()| == |put|;
        if nwrite == (nread + PIPESIZE) % U32 {
          how := if !readopen || killed then Failed else Asleep;
          return;
        }
        if i >= limit {
          break;
        }
        Put(src[i]);
        assert src[from..i + 1] == src[from..i] + [src[i]];
        i := i + 1;
      }
      how := Returned;
    }

    /** piperead of n bytes; copyout takes the bytes below limit. The caller gets the oldest bytes
        in order, each once. A byte that copyout refuses is lost: it has left the pipe. */
    method Read(n: int, limit: nat, killed: bool) returns (out: seq<byte>, how: Outcome)
      requires Valid()
      modifies this`nread, this`got
      ensures Valid()
      ensures how != Returned <==> old(Queue()) == [] && writeopen
      ensures how == Failed <==> old(Queue()) == [] && writeopen && killed
      ensures var k := Min(Max(n, 0), |old(Queue())|);
              && out == old(Queue())[..Min(k, limit)]
              && got == old(got) + old(Queue())[..Min(k, limit + 1)]
    {
      out := [];
      ghost var q := Queue();
      EmptyIff(|got|, |q|);
      assert |got| + |q| == |put|;
      if nread == nwrite && writeopen {
        how := if killed then Failed else Asleep;
        return;
      }
      how := Returned;
      var i := 0;
      while i < n
        invariant Valid() && 0 <= i <= Min(Max(n, 0), |q|) && i <= limit && i == |out|
        invariant out == q[..i] && got == old(got) + q[..i] && Queue() == q[i..]
      {
        EmptyIff(|got|, |Queue()|);
        assert |got| + |Queue()| == |put|;
        if nread == nwrite {
          break;
        }
        var ch := Get();
        assert q[..i + 1] == q[..i] + [q[i]];
        if i >= limit {
          break;
        }
        out := out + [ch];
        i := i + 1;
      }
    }
  }
}
