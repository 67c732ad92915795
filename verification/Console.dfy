/** The console's input: one ring of INPUT_BUF bytes with three 32-bit counters refines a line
    editor on two lists, the bytes ready to be read and the line being edited. */
module Console {
  import opened Rings

  const INPUT_BUF: nat := 128
  const CTRL_D: byte := 4
  const BACKSPACE: byte := 8
  const NEWLINE: byte := 10
  const RETURN: byte := 13
  const CTRL_P: byte := 16
  const CTRL_U: byte := 21
  const DELETE: byte := 127

  datatype Outcome = Returned | Asleep | Failed

  // ---------- the list editor ----------

  datatype Editor = Editor(ready: seq<byte>, line: seq<byte>)

  ghost predicate Plain(c: byte) {
    c != 0 && c != CTRL_D && c != BACKSPACE && c != NEWLINE && c != RETURN && c != CTRL_P && c != CTRL_U && c != DELETE
  }

  ghost predicate EditorOk(ed: Editor) {
    |ed.ready| + |ed.line| <= INPUT_BUF && (|ed.ready| + |ed.line| == INPUT_BUF ==> ed.line == [])
      && forall i :: 0 <= i < |ed.line| ==> Plain(ed.line[i])
  }

  // A key is pressed. A line is ready once it ends or the buffer is full; what does not fit is dropped.
  ghost function Typed(ed: Editor, c: byte): Editor {
    if c == CTRL_P || c == 0 then ed
    else if c == CTRL_U then ed.(line := [])
    else if c == BACKSPACE || c == DELETE then ed.(line := if ed.line == [] then [] else ed.line[..|ed.line| - 1])
    else if |ed.ready| + |ed.line| >= INPUT_BUF then ed
    else
      var k := if c == RETURN then NEWLINE else c;
      var line := ed.line + [k];
      if k == NEWLINE || k == CTRL_D || |ed.ready| + |line| == INPUT_BUF then Editor(ed.ready + line, [])
      else ed.(line := line)
  }

  lemma TypedOk(ed: Editor, c: byte)
    requires EditorOk(ed)
    ensures EditorOk(Typed(ed, c))
  {
  }

  ghost function TypedAll(ed: Editor, keys: seq<byte>): Editor {
    if keys == [] then ed else Typed(TypedAll(ed, keys[..|keys| - 1]), keys[|keys| - 1])
  }

  // Of the keys, read backwards, those that stay when n more are to be erased: each erase key takes the
  // last one that is left, and ^U all
  ghost function Survivors(keys: seq<byte>, n: nat): seq<byte> {
    if keys == [] then []
    else
      var before, c := keys[..|keys| - 1], keys[|keys| - 1];
      if c == CTRL_U then []
      else if c == BACKSPACE || c == DELETE then Survivors(before, n + 1)
      else if c == CTRL_P || c == 0 then Survivors(before, n)
      else if n > 0 then Survivors(before, n - 1)
      else Survivors(before, 0) + [c]
  }

  ghost function Chopped(s: seq<byte>, n: nat): seq<byte> { if n <= |s| then s[..|s| - n] else [] }

  lemma {:induction false} ReadyGrows(ed: Editor, keys: seq<byte>)
    requires EditorOk(ed)
    ensures EditorOk(TypedAll(ed, keys)) && ed.ready <= TypedAll(ed, keys).ready
  {
    if keys != [] {
      ReadyGrows(ed, keys[..|keys| - 1]);
    }
  }

  lemma {:induction false} LineChopped(ed: Editor, keys: seq<byte>, n: nat)
    requires EditorOk(ed) && ed.line == [] && |ed.ready| < INPUT_BUF && TypedAll(ed, keys).ready == ed.ready
    ensures Survivors(keys, n) == Chopped(TypedAll(ed, keys).line, n)
    decreases |keys|
  {
    if keys != [] {
      var before, c := keys[..|keys| - 1], keys[|keys| - 1];
      ReadyGrows(ed, before);
      var t, u := TypedAll(ed, before), TypedAll(ed, keys);
      assert t.ready == ed.ready;
      if c == BACKSPACE || c == DELETE {
        LineChopped(ed, before, n + 1);
      } else if c == CTRL_P || c == 0 {
        LineChopped(ed, before, n);
      } else if c != CTRL_U && n > 0 {
        LineChopped(ed, before, n - 1);
        assert u.line == t.line + [c];
      } else if c != CTRL_U {
        LineChopped(ed, before, 0);
        assert u.line == t.line + [c];
      }
    }
  }

  /** As long as no line has become ready, the line is the characters typed less the erased ones; if
      the buffer is full of bytes to be read, nothing. */
  lemma LineSurvives(ed: Editor, keys: seq<byte>)
    requires EditorOk(ed) && ed.line == []
    ensures var t := TypedAll(ed, keys);
            t.ready == ed.ready ==> t.line == if |ed.ready| < INPUT_BUF then Survivors(keys, 0) else []
  {
    ReadyGrows(ed, keys);
    if TypedAll(ed, keys).ready == ed.ready && |ed.ready| < INPUT_BUF {
      LineChopped(ed, keys, 0);
    }
  }

  /** With the key that ends the line, or fills the buffer, they become ready, in order, that key last. */
  lemma LineReady(ed: Editor, keys: seq<byte>, c: byte)
    requires EditorOk(ed) && ed.line == [] && |ed.ready| < INPUT_BUF && TypedAll(ed, keys).ready == ed.ready
    ensures var line := Survivors(keys, 0) + [if c == RETURN then NEWLINE else c];
            TypedAll(ed, keys + [c]).ready
            == if c == NEWLINE || c == RETURN || c == CTRL_D || (Plain(c) && |ed.ready| + |line| == INPUT_BUF)
               then ed.ready + line else ed.ready
  {
    ReadyGrows(ed, keys);
    LineSurvives(ed, keys);
    assert (keys + [c])[..|keys|] == keys;
  }

  // What a read of n more bytes takes from the ready ones, where some says whether it has taken any
  // before and the caller's memory takes room bytes: the bytes delivered, the bytes left, and
  // whether the read is over
  datatype Taken = Taken(out: seq<byte>, rest: seq<byte>, over: bool)

  ghost function Reads(ready: seq<byte>, n: int, some: bool, room: nat): Taken {
    if n <= 0 then Taken([], ready, true)
    else if ready == [] then Taken([], [], false)
    else if ready[0] == CTRL_D then Taken([], if some then ready else ready[1..], true)
    else if room == 0 then Taken([], ready[1..], true)
    else if ready[0] == NEWLINE then Taken([NEWLINE], ready[1..], true)
    else
      var t := Reads(ready[1..], n - 1, true, room - 1);
      t.(out := [ready[0]] + t.out)
  }

  /** A read delivers, in order, bytes from the front of the ready ones: no ^D, a newline only at
      the end, at most n. */
  lemma {:induction false} ReadsFront(ready: seq<byte>, n: int, some: bool, room: nat)
    ensures var t := Reads(ready, n, some, room);
            && t.out <= ready && (n >= 0 ==> |t.out| <= n) && CTRL_D !in t.out
            && NEWLINE !in t.out[..if t.out == [] then 0 else |t.out| - 1]
            && (!t.over ==> n > |t.out| && t.out == ready && t.rest == [])
  {
    if n > 0 && ready != [] && ready[0] != CTRL_D && ready[0] != NEWLINE && room > 0 {
      ReadsFront(ready[1..], n - 1, true, room - 1);
      var t := Reads(ready[1..], n - 1, true, room - 1);
      assert ready == [ready[0]] + ready[1..];
      assert forall k :: 0 <= k < |t.out| ==> ([ready[0]] + t.out)[k] == if k == 0 then ready[0] else t.out[k - 1];
    }
  }

  // Every byte is delivered or left, but for a ^D at the front, which ends the read
  ghost predicate KeepsAll(ready: seq<byte>, some: bool, t: Taken) {
    ready == t.out + t.rest || (!some && t.out == [] && ready == [CTRL_D] + t.rest)
  }

  // The caller's memory ends before the line and the count do, and the next byte is not a ^D
  ghost predicate RunsOut(ready: seq<byte>, n: int, room: nat) {
    room < n && room < |ready| && ready[room] != CTRL_D && forall i :: 0 <= i < room ==>
      ready[i] != NEWLINE && ready[i] != CTRL_D
  }

  /** A byte is lost exactly if the caller's memory runs out before a line's end, a ^D or n bytes, with
      a byte left that is not a ^D: it is that byte. */
  lemma {:induction false} LostIff(ready: seq<byte>, n: int, some: bool, room: nat)
    ensures var t := Reads(ready, n, some, room);
            && (KeepsAll(ready, some, t) <==> !RunsOut(ready, n, room))
            && (RunsOut(ready, n, room) ==> t == Taken(ready[..room], ready[room + 1..], true))
  {
    if n > 0 && ready != [] && ready[0] != CTRL_D && ready[0] != NEWLINE && room > 0 {
      LostIff(ready[1..], n - 1, true, room - 1);
      LostMore(ready, n, some, room, Reads(ready[1..], n - 1, true, room - 1));
    } else {
      LostNow(ready, n, some, room);
    }
  }

  // The read ends before it delivers a byte, or with a newline
  lemma LostNow(ready: seq<byte>, n: int, some: bool, room: nat)
    requires n <= 0 || ready == [] || ready[0] == CTRL_D || ready[0] == NEWLINE || room == 0
    ensures var t := Reads(ready, n, some, room);
            && (KeepsAll(ready, some, t) <==> !RunsOut(ready, n, room))
            && (RunsOut(ready, n, room) ==> t == Taken(ready[..room], ready[room + 1..], true))
  {
    assert ready == [] + ready;
    assert ready != [] ==> ready == [ready[0]] + ready[1..];
  }

  lemma LostMore(ready: seq<byte>, n: int, some: bool, room: nat, t: Taken)
    requires ready != [] && ready[0] != CTRL_D && ready[0] != NEWLINE && room > 0
    requires KeepsAll(ready[1..], true, t) <==> !RunsOut(ready[1..], n - 1, room - 1)
    requires RunsOut(ready[1..], n - 1, room - 1) ==> t == Taken(ready[1..][..room - 1], ready[1..][room..], true)
    ensures var u := t.(out := [ready[0]] + t.out);
            && (KeepsAll(ready, some, u) <==> !RunsOut(ready, n, room))
            && (RunsOut(ready, n, room) ==> u == Taken(ready[..room], ready[room + 1..], true))
  {
    LostLater(ready, n, room);
    KeptLater(ready, some, t);
    assert room < |ready| ==>
      [ready[0]] + ready[1..][..room - 1] == ready[..room] && ready[1..][room..] == ready[room + 1..];
  }

  lemma LostLater(ready: seq<byte>, n: int, room: nat)
    requires ready != [] && ready[0] != CTRL_D && ready[0] != NEWLINE && room > 0
    ensures RunsOut(ready[1..], n - 1, room - 1) <==> RunsOut(ready, n, room)
  {
    if RunsOut(ready[1..], n - 1, room - 1) {
      assert forall i :: 0 < i < room ==> ready[i] == ready[1..][i - 1];
    }
  }

  lemma KeptLater(ready: seq<byte>, some: bool, t: Taken)
    requires ready != [] && ready[0] != CTRL_D
    ensures KeepsAll(ready[1..], true, t) <==> KeepsAll(ready, some, t.(out := [ready[0]] + t.out))
  {
    assert ready == [ready[0]] + ready[1..];
    assert [ready[0]] + t.out + t.rest == [ready[0]] + (t.out + t.rest);
    assert ([ready[0]] + (t.out + t.rest))[1..] == t.out + t.rest;
  }

  /** A reader that finds too little and sleeps gets in the end what it would have got if all had
      been there at once. */
  lemma {:induction false} ReadsResume(a: seq<byte>, b: seq<byte>, n: int, some: bool, room: nat)
    requires !Reads(a, n, some, room).over
    ensures |a| < n && |a| <= room
    ensures var t := Reads(b, n - |a|, some || a != [], room - |a|); Reads(a + b, n, some, room) == t.(out := a + t.out)
  {
    if a == [] {
      assert a + b == b;
    } else {
      ReadsResume(a[1..], b, n - 1, true, room - 1);
      assert (a + b)[1..] == a[1..] + b && (a + b)[0] == a[0];
      var t := Reads(b, n - |a|, true, room - |a|);
      assert [a[0]] + (a[1..] + t.out) == a + t.out;
    }
  }

  /** The saved ^D: a read that stops in front of a ^D leaves it there, and the next read delivers
      nothing and removes it. */
  lemma SavedEnd(ready: seq<byte>, n: int, room: nat, n': int, room': nat)
    requires n' > 0 && room >= n
    requires var t := Reads(ready, n, false, room); t.out != [] && t.rest != [] && t.rest[0] == CTRL_D
    ensures var t := Reads(ready, n, false, room);
            ready == t.out + t.rest && Reads(t.rest, n', false, room') == Taken([], t.rest[1..], true)
  {
    LostIff(ready, n, false, room);
  }

  // ---------- the ring ----------

  class Console {
    const buf: array<byte>
    var r: nat
    var w: nat
    var e: nat
    ghost var ed: Editor
    // How many bytes have been read in all
    ghost var start: nat

    ghost predicate Valid()
      reads this, buf
    {
      && buf.Length == INPUT_BUF && EditorOk(ed)
      && r == start % U32 && w == (start + |ed.ready|) % U32 && e == (start + |ed.ready| + |ed.line|) % U32
      && Holds(buf[..], start, ed.ready + ed.line)
    }

    constructor ()
      ensures Valid() && ed == Editor([], []) && fresh(buf)
    {
      buf := new byte[INPUT_BUF];
      r, w, e, ed, start := 0, 0, 0, Editor([], []), 0;
    }

    // cons.e--
    method Rub()
      requires Valid() && ed.line != []
      modifies this`e, this`ed
      ensures Valid() && ed == old(ed).(line := old(ed).line[..|old(ed).line| - 1])
    {
      ghost var line := ed.line[..|ed.line| - 1];
      WrapBack(start + |ed.ready| + |ed.line|);
      HoldsLess(buf[..], start, ed.ready, ed.line, line);
      e := (e - 1) % U32;
      ed := ed.(line := line);
    }

    // Kill line
    method Kill()
      requires Valid()
      modifies this`e, this`ed
      ensures Valid() && ed == old(ed).(line := [])
    {
      while true
        invariant Valid() && ed.ready == old(ed).ready
        decreases |ed.line|
      {
        WrapEqual(start + |ed.ready|, |ed.line|, 0);
        if e == w {
          break;
        }
        LastByte(buf[..], start, ed);
        if buf[(e - 1) % U32 % INPUT_BUF] == NEWLINE {
          break;
        }
        Rub();
      }
    }

    // A byte that is kept
    method Store(k: byte)
      requires Valid() && |ed.ready| + |ed.line| < INPUT_BUF && (Plain(k) || k == NEWLINE || k == CTRL_D)
      modifies this`e, this`w, this`ed, buf
      ensures Valid()
      ensures var line := old(ed).line + [k];
              ed == if k == NEWLINE || k == CTRL_D
                || |old(ed).ready| + |line| == INPUT_BUF then Editor(old(ed).ready + line, [])
                else old(ed).(line := line)
    {
      ghost var held, count := ed.ready + ed.line, |ed.ready| + |ed.line|;
      PutHolds(buf[..], start, held, k);
      WrapSlot(start + count, INPUT_BUF);
      WrapNext(start + count, 1);
      WrapEqual(start, count + 1, INPUT_BUF);
      buf[e % INPUT_BUF] := k;
      e := (e + 1) % U32;
      assert held + [k] == ed.ready + (ed.line + [k]) == (ed.ready + (ed.line + [k])) + [];
      if k == NEWLINE || k == CTRL_D || e == (r + INPUT_BUF) % U32 {
        w := e;
        ed := Editor(ed.ready + (ed.line + [k]), []);
      } else {
        ed := ed.(line := ed.line + [k]);
      }
    }

    /** consoleintr does to the ring what a key does to the list editor. */
    method Intr(c: byte)
      requires Valid()
      modifies this`e, this`w, this`ed, buf
      ensures Valid() && ed == Typed(old(ed), c)
    {
      if c == CTRL_P {
      } else if c == CTRL_U {
        Kill();
      } else if c == BACKSPACE || c == DELETE {
        WrapEqual(start + |ed.ready|, |ed.line|, 0);
        if e != w {
          Rub();
        }
      } else {
        WrapDistance(start, |ed.ready| + |ed.line|);
        if c != 0 && (e - r) % U32 < INPUT_BUF {
          Store(if c == RETURN then NEWLINE else c);
        }
      }
    }

    // c = cons.buf[cons.r++ % INPUT_BUF]
    method Next() returns (c: byte)
      requires Valid() && ed.ready != []
      modifies this`r, this`ed, this`start
      ensures Valid() && c == old(ed).ready[0] && ed == old(ed).(ready := old(ed).ready[1..]) && start == old(start) + 1
    {
      TakeHolds(buf[..], start, ed.ready + ed.line);
      assert (ed.ready + ed.line)[1..] == ed.ready[1..] + ed.line;
      WrapSlot(start, INPUT_BUF);
      WrapNext(start, 1);
      c := buf[r % INPUT_BUF];
      r := (r + 1) % U32;
      ed, start := ed.(ready := ed.ready[1..]), start + 1;
    }

    /** consoleread up to its end or its sleep: n bytes of target are still wanted, and either_copyout
        takes room bytes. The caller gets what the list editor's read gives. */
    method Read(n: int, target: int, room: nat, killed: bool) returns (out: seq<byte>, how: Outcome)
      requires Valid() && n <= target
      modifies this`r, this`ed, this`start
      ensures Valid()
      ensures var t := Reads(old(ed).ready, n, n < target, room);
              && out == t.out && ed == old(ed).(ready := t.rest)
              && (how == Returned <==> t.over) && (how == Failed <==> !t.over && killed)
    {
      var n, room := n, room;
      ghost var all := Reads(ed.ready, n, n < target, room);
      out := [];
      while n > 0
        invariant Valid() && n <= target && ed.line == old(ed).line
        invariant all == AndThen(out, Reads(ed.ready, n, n < target, room))
      {
        WrapEqual(start, |ed.ready|, 0);
        if r == w {
          how := if killed then Failed else Asleep;
          return;
        }
        ghost var ready := ed.ready;
        var c, over := Deliver(n < target, room);
        if over {
          break;
        }
        ReadsNext(out, ready, n, n < target, room);
        out := out + [c];
        n, room := n - 1, room - 1;
        if c == NEWLINE {
          break;
        }
      }
      how := Returned;
    }

    // The next byte of the ring to the caller, who has some already or not. The read is over at ^D, which
    // stays for the next read if the caller has some, or when either_copyout fails
    method Deliver(some: bool, room: nat) returns (c: byte, over: bool)
      requires Valid() && ed.ready != []
      modifies this`r, this`ed, this`start
      ensures var was := old(ed).ready;
              && Valid() && c == was[0] && (over <==> was[0] == CTRL_D || room == 0)
              && ed == old(ed).(ready := if was[0] == CTRL_D && some then was else was[1..])
    {
      ghost var was := ed;
      c := Next();
      over := c == CTRL_D || room == 0;
      if c == CTRL_D && some {
        Unread(was);
      }
    }

    // cons.r--
    method Unread(ghost was: Editor)
      requires Valid() && start > 0 && ed.line == was.line && was.ready != [] && ed.ready == was.ready[1..]
      requires EditorOk(was) && Holds(buf[..], start - 1, was.ready + was.line)
      modifies this`r, this`ed, this`start
      ensures Valid() && ed == was && start == old(start) - 1
    {
      WrapBack(start);
      r := (r - 1) % U32;
      ed, start := was, start - 1;
    }
  }

  // The bytes of out were delivered before
  ghost function AndThen(out: seq<byte>, t: Taken): Taken {
    t.(out := out + t.out)
  }

  lemma ReadsNext(out: seq<byte>, ready: seq<byte>, n: int, some: bool, room: nat)
    requires n > 0 && ready != [] && ready[0] != CTRL_D && room > 0
    ensures AndThen(out, Reads(ready, n, some, room))
         == if ready[0] == NEWLINE then Taken(out + [NEWLINE], ready[1..], true)
           else AndThen(out + [ready[0]], Reads(ready[1..], n - 1, true, room - 1))
  {
    var t := Reads(ready[1..], n - 1, true, room - 1);
    assert out + ([ready[0]] + t.out) == (out + [ready[0]]) + t.out;
  }

  lemma WrapBack(x: nat)
    requires x > 0
    ensures (x % U32 - 1) % U32 == (x - 1) % U32
  {
  }

  lemma HoldsLess(data: seq<byte>, start: nat, ready: seq<byte>, line: seq<byte>, less: seq<byte>)
    requires Holds(data, start, ready + line) && less <= line
    ensures Holds(data, start, ready + less)
  {
    assert forall i :: 0 <= i < |ready + less| ==> (ready + less)[i] == (ready + line)[i];
  }

  // The byte before e is the last of the line, and no newline
  lemma LastByte(data: seq<byte>, start: nat, ed: Editor)
    requires EditorOk(ed) && |data| == INPUT_BUF && Holds(data, start, ed.ready + ed.line) && ed.line != []
    ensures data[((start + |ed.ready| + |ed.line|) % U32 - 1) % U32 % INPUT_BUF] == ed.line[|ed.line| - 1] != NEWLINE
  {
    var last := |ed.ready| + |ed.line| - 1;
    WrapBack(start + last + 1);
    WrapSlot(start + last, INPUT_BUF);
    assert data[Slot(start + last, INPUT_BUF)] == (ed.ready + ed.line)[last];
  }
}
