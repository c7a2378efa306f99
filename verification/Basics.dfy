/**
 * Options, deliveries above a floor, and facts about finite sets and quotients that several modules need: a set of
 * numbers below a bound has at most that many members, and all of them when it has as many; a number has one quotient
 * by a positive size, the one whose multiple is the last not above it. The generation codec counts known columns with
 * the first and finds the generation of a sequence number with the second.
 */
module Basics {
  datatype Option<+T> = None | Some(value: T)

  function Min(a: nat, b: nat): nat { if a <= b then a else b }

  function Max(a: nat, b: nat): nat { if a >= b then a else b }

  // ---- deliveries, each with its sequence number

  ghost predicate Unrepeated<T>(out: seq<(nat, T)>) {
    forall i, j :: 0 <= i < j < |out| ==> out[i].0 != out[j].0
  }

  /** The sequence numbers delivered. */
  ghost function Seqs<T>(out: seq<(nat, T)>): set<nat> { set i | 0 <= i < |out| :: out[i].0 }

  /** What a call put out: each sequence number once, none out before, all out now. */
  ghost predicate Emitted<T>(before: set<nat>, after: set<nat>, out: seq<(nat, T)>) {
    && after == before + Seqs(out)
    && (forall i :: 0 <= i < |out| ==> out[i].0 !in before)
    && Unrepeated(out)
  }

  /** Every delivery is what the store holds. */
  ghost predicate Held<T>(recovered: map<nat, T>, out: seq<(nat, T)>) {
    forall i :: 0 <= i < |out| ==> out[i].0 in recovered && recovered[out[i].0] == out[i].1
  }

  /** The store only grew. */
  ghost predicate Extends<T>(before: map<nat, T>, after: map<nat, T>) {
    forall q :: q in before ==> q in after && after[q] == before[q]
  }

  lemma HeldMore<T>(before: map<nat, T>, after: map<nat, T>, out: seq<(nat, T)>, more: seq<(nat, T)>)
    requires Held(before, out) && Extends(before, after) && Held(after, more)
    ensures Held(after, out + more)
  {}

  lemma EmittedNothing<T>(s: set<nat>)
    ensures Seqs<T>([]) == {} && Emitted<T>(s, s, [])
  {}

  lemma SeqsAppend<T>(a: seq<(nat, T)>, b: seq<(nat, T)>)
    ensures Seqs(a + b) == Seqs(a) + Seqs(b)
  {
    var c := a + b;
    assert forall i :: 0 <= i < |a| ==> c[i] == a[i];
    assert forall i :: 0 <= i < |b| ==> c[|a| + i] == b[i];
    forall q | q in Seqs(a) + Seqs(b)
      ensures q in Seqs(c)
    {
      if q in Seqs(a) {
        var i :| 0 <= i < |a| && a[i].0 == q;
        assert c[i].0 == q;
      } else {
        var i :| 0 <= i < |b| && b[i].0 == q;
        assert c[|a| + i].0 == q;
      }
    }
  }

  lemma JoinDeliveries<T>(out: seq<(nat, T)>, more: seq<(nat, T)>)
    requires Unrepeated(out) && Unrepeated(more) && Seqs(more) !! Seqs(out)
    ensures Unrepeated(out + more) && Seqs(out + more) == Seqs(out) + Seqs(more)
  {
    SeqsAppend(out, more);
    assert forall i :: 0 <= i < |out| ==> out[i].0 in Seqs(out);
    assert forall i :: 0 <= i < |more| ==> more[i].0 in Seqs(more);
  }

  lemma SeqsOfOne<T>(d: (nat, T))
    ensures Seqs([d]) == {d.0}
  {
    assert [d][0].0 == d.0;
  }

  lemma SeqsSnoc<T>(out: seq<(nat, T)>, x: (nat, T))
    ensures Seqs(out + [x]) == Seqs(out) + {x.0}
  {
    SeqsOfOne(x);
    SeqsAppend(out, [x]);
  }

  lemma EmittedSnoc<T>(before: set<nat>, after: set<nat>, out: seq<(nat, T)>, x: (nat, T))
    requires Emitted(before, after, out) && x.0 !in after
    ensures Emitted(before, after + {x.0}, out + [x])
  {
    SeqsOfOne(x);
    JoinDeliveries(out, [x]);
  }

  lemma EmittedChain<T>(a: set<nat>, b: set<nat>, c: set<nat>, m: seq<(nat, T)>, n: seq<(nat, T)>)
    requires Emitted(a, b, m) && Emitted(b, c, n)
    ensures Emitted(a, c, m + n)
  {
    assert forall i :: 0 <= i < |n| ==> n[i].0 in Seqs(n);
    JoinDeliveries(m, n);
  }

  /** The deliveries at or above the floor, in order. */
  function AtLeast<T>(out: seq<(nat, T)>, floor: nat): seq<(nat, T)> {
    if out == [] then []
    else AtLeast(out[..|out| - 1], floor) + (if out[|out| - 1].0 >= floor then [out[|out| - 1]] else [])
  }

  lemma {:induction false} AtLeastMembers<T>(out: seq<(nat, T)>, floor: nat)
    ensures forall i :: 0 <= i < |AtLeast(out, floor)| ==>
      AtLeast(out, floor)[i] in out && AtLeast(out, floor)[i].0 >= floor
    ensures forall i :: 0 <= i < |out| && out[i].0 >= floor ==> out[i] in AtLeast(out, floor)
    ensures out != [] && out[0].0 >= floor ==> AtLeast(out, floor) != [] && AtLeast(out, floor)[0] == out[0]
  {
    if out != [] {
      AtLeastMembers(out[..|out| - 1], floor);
      assert out == out[..|out| - 1] + [out[|out| - 1]];
    }
  }

  lemma {:induction false} AtLeastUnrepeated<T>(out: seq<(nat, T)>, floor: nat)
    requires Unrepeated(out)
    ensures Unrepeated(AtLeast(out, floor))
  {
    if out != [] {
      var init, x := out[..|out| - 1], out[|out| - 1];
      AtLeastUnrepeated(init, floor);
      AtLeastMembers(init, floor);
      var r := AtLeast(init, floor);
      forall i | 0 <= i < |r|
        ensures r[i].0 != x.0
      {
        assert r[i] in init;
      }
    }
  }

  // ---- finite sets

  lemma SubsetSize<T>(a: set<T>, b: set<T>)
    requires a <= b
    ensures |a| <= |b|
  {
    assert b == a + (b - a);
  }

  lemma {:induction false} TooMany(r: set<int>, n: nat)
    requires forall v :: v in r ==> 0 <= v < n
    ensures |r| <= n
  {
    if n > 0 {
      TooMany(r - {n - 1}, n - 1);
    } else {
      forall v | v in r ensures false {}
      assert r == {};
    }
  }

  /** n numbers below n are all the numbers below n. */
  lemma {:induction false} FullSet(r: set<int>, n: nat)
    requires |r| == n
    requires forall v :: v in r ==> 0 <= v < n
    ensures forall v :: 0 <= v < n ==> v in r
  {
    if n > 0 {
      if n - 1 in r {
        FullSet(r - {n - 1}, n - 1);
      } else {
        TooMany(r, n - 1);
        assert false;
      }
    }
  }

  // ---- division

  lemma {:induction false} MultipleGap(h: nat, g: nat, size: nat)
    requires h < g
    ensures h * size + size <= g * size
  {
    assert g * size == (g - 1) * size + size;
    if h + 1 < g {
      MultipleGap(h, g - 1, size);
    }
  }

  lemma SameMultiple(h: nat, g: nat, size: nat, q: nat)
    requires h * size <= q < h * size + size && g * size <= q < g * size + size
    ensures h == g
  {
    if h < g {
      MultipleGap(h, g, size);
      assert false;
    } else if g < h {
      MultipleGap(g, h, size);
      assert false;
    }
  }

  lemma QuotientBounds(q: nat, size: nat)
    requires size > 0
    ensures (q / size) * size <= q < (q / size) * size + size
  {}

  lemma QuotientUnique(q: nat, size: nat, g: nat)
    requires size > 0 && g * size <= q < g * size + size
    ensures q / size == g
  {
    QuotientBounds(q, size);
    SameMultiple(q / size, g, size, q);
  }
}
