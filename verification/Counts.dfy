/** Counting the processes in a monitor by where they are. */
module Counts {
  import opened Sleep

  // What the processes weigh together, by their local states
  ghost function Sum<L(!new)>(at: seq<Place<L>>, w: L -> nat): nat {
    if at == [] then 0 else Sum(at[..|at| - 1], w) + w(at[|at| - 1].l)
  }

  lemma {:induction false} SumSet<L(!new)>(at: seq<Place<L>>, p: nat, a: Place<L>, w: L -> nat)
    requires p < |at|
    ensures Sum(at[p := a], w) == Sum(at, w) + w(a.l) - w(at[p].l)
  {
    var last := |at| - 1;
    if p == last {
      assert at[p := a][..last] == at[..last];
    } else {
      assert at[p := a][..last] == at[..last][p := a];
      SumSet(at[..last], p, a, w);
    }
  }

  lemma {:induction false} SumAtLeast<L(!new)>(at: seq<Place<L>>, p: nat, w: L -> nat)
    requires p < |at|
    ensures w(at[p].l) <= Sum(at, w)
  {
    if p < |at| - 1 {
      SumAtLeast(at[..|at| - 1], p, w);
    }
  }

  lemma {:induction false} SumTwo<L(!new)>(at: seq<Place<L>>, p: nat, q: nat, w: L -> nat)
    requires p < q < |at|
    ensures w(at[p].l) + w(at[q].l) <= Sum(at, w)
  {
    if q < |at| - 1 {
      SumTwo(at[..|at| - 1], p, q, w);
    } else {
      SumAtLeast(at[..|at| - 1], p, w);
    }
  }

  lemma {:induction false} SumNone<L(!new)>(at: seq<Place<L>>, w: L -> nat)
    requires forall p :: 0 <= p < |at| ==> w(at[p].l) == 0
    ensures Sum(at, w) == 0
  {
    if at != [] {
      SumNone(at[..|at| - 1], w);
    }
  }

  lemma {:induction false} SomeOne<L(!new)>(at: seq<Place<L>>, w: L -> nat) returns (p: nat)
    requires Sum(at, w) > 0
    ensures p < |at| && w(at[p].l) > 0
  {
    p := |at| - 1;
    if w(at[p].l) == 0 {
      p := SomeOne(at[..|at| - 1], w);
    }
  }

  // A step moves one process from one local state to another, as its code says
  lemma SumStep<R(!new), L(!new)>(m: Monitor<R, L>, s: State<R, L>, p: nat, i: nat, w: L -> nat)
    requires |s.at| == |s.own| && p < |s.at| && Next(m, s, p, i).Some?
    ensures var t := Next(m, s, p, i).value;
            |t.at| == |t.own| == |s.at| && Sum(t.at, w) == Sum(s.at, w) + w(t.at[p].l) - w(s.at[p].l)
  {
    var t := Next(m, s, p, i).value;
    if s.at[p].Probe? && s.at[s.at[p].k].Asleep? && s.at[s.at[p].k].ch == s.at[p].ch {
      var k := s.at[p].k;
      SumSet(s.at, k, Woken(s.at[k].l), w);
      SumSet(s.at[k := Woken(s.at[k].l)], p, t.at[p], w);
    } else {
      assert t.at == s.at[p := t.at[p]];
      SumSet(s.at, p, t.at[p], w);
    }
  }

  // The data and the local state after a step
  lemma StepIs<R(!new), L(!new)>(m: Monitor<R, L>, s: State<R, L>, p: nat, i: nat)
    requires |s.at| == |s.own| && p < |s.at| && Next(m, s, p, i).Some?
    ensures var t := Next(m, s, p, i).value;
            && |t.at| == |s.at|
            && if s.at[p].In? then
                 var a := m.act(s.data, s.at[p].l, i);
                 t.at[p].l == a.l && t.data == if a.Update? then a.r else s.data
               else t.data == s.data && t.at[p].l == s.at[p].l
  {
  }
}
