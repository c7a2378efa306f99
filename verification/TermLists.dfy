/**
 * Equations of the sparse decoders, held as lists of sequence numbers with coefficients. An equation holds of the
 * true sources when the sum of its terms is its data, byte by byte. Removing a term, changing a coefficient, adding a
 * scaled list and scaling a list change the sum exactly as they should; a list is proper when no sequence number
 * appears twice and no coefficient is zero, and every operation keeps it so.
 */
module TermLists {
  import opened Gf256
  import opened Linear

  datatype Term = Term(at: nat, coeff: byte)

  /** Byte k of the source symbol with a given sequence number. */
  type Truth = (nat, nat) -> byte

  /** Byte k of the combination a list of terms stands for. */
  ghost function TermSum(ts: seq<Term>, t: Truth, k: nat): byte {
    if ts == [] then 0
    else Add(TermSum(ts[..|ts| - 1], t, k), Mul(ts[|ts| - 1].coeff, t(ts[|ts| - 1].at, k)))
  }

  /** The data is the combination of the true sources. */
  ghost predicate EquationHolds(ts: seq<Term>, data: seq<byte>, t: Truth) {
    forall k :: 0 <= k < |data| ==> data[k] == TermSum(ts, t, k)
  }

  ghost predicate Proper(ts: seq<Term>) {
    && (forall i, j :: 0 <= i < j < |ts| ==> ts[i].at != ts[j].at)
    && (forall i :: 0 <= i < |ts| ==> ts[i].coeff != 0)
  }

  ghost predicate Mentions(ts: seq<Term>, q: nat) {
    exists i :: 0 <= i < |ts| && ts[i].at == q
  }

  /** The terms of sources not recovered yet, in order. */
  function UnknownTerms(terms: seq<Term>, known: set<nat>): seq<Term> {
    if terms == [] then []
    else
      var last := terms[|terms| - 1];
      UnknownTerms(terms[..|terms| - 1], known) + (if last.at in known then [] else [last])
  }

  lemma {:induction false} UnknownTermsAmong(terms: seq<Term>, known: set<nat>)
    ensures forall x :: x in UnknownTerms(terms, known) <==> x in terms && x.at !in known
  {
    if terms != [] {
      UnknownTermsAmong(terms[..|terms| - 1], known);
      assert terms == terms[..|terms| - 1] + [terms[|terms| - 1]];
    }
  }

  lemma MentionsSnoc(ts: seq<Term>, x: Term)
    ensures forall q :: Mentions(ts + [x], q) <==> Mentions(ts, q) || q == x.at
  {
    forall q | Mentions(ts, q) || q == x.at
      ensures Mentions(ts + [x], q)
    {
      if q == x.at {
        assert (ts + [x])[|ts|].at == q;
      } else {
        var i :| 0 <= i < |ts| && ts[i].at == q;
        assert (ts + [x])[i].at == q;
      }
    }
  }

  /** The first place holding q, or |ts|. */
  function Position(ts: seq<Term>, q: nat): (r: nat)
    ensures r <= |ts| && (r < |ts| ==> ts[r].at == q)
    ensures forall i :: 0 <= i < r ==> ts[i].at != q
    ensures r == |ts| <==> !Mentions(ts, q)
  {
    if ts == [] then 0
    else
      var p := Position(ts[..|ts| - 1], q);
      if p < |ts| - 1 then p else if ts[|ts| - 1].at == q then |ts| - 1 else |ts|
  }

  function RemoveAt(ts: seq<Term>, i: nat): seq<Term>
    requires i < |ts|
  {
    ts[..i] + ts[i + 1..]
  }

  /** Every term but those of q, in order. */
  function Without(ts: seq<Term>, q: nat): seq<Term> {
    if ts == [] then []
    else Without(ts[..|ts| - 1], q) + (if ts[|ts| - 1].at == q then [] else [ts[|ts| - 1]])
  }

  lemma {:induction false} WithoutAbsent(ts: seq<Term>, q: nat)
    requires !Mentions(ts, q)
    ensures Without(ts, q) == ts
  {
    if ts != [] {
      var init := ts[..|ts| - 1];
      assert forall i :: 0 <= i < |init| ==> init[i] == ts[i];
      WithoutAbsent(init, q);
      assert ts[|ts| - 1].at != q;
      assert ts == init + [ts[|ts| - 1]];
    }
  }

  /** With distinct columns, filtering q out removes the one place that holds it. */
  lemma {:induction false} WithoutIsRemoveAt(ts: seq<Term>, q: nat, i: nat)
    requires Proper(ts) && i < |ts| && ts[i].at == q
    ensures Without(ts, q) == RemoveAt(ts, i)
  {
    var last := |ts| - 1;
    var init := ts[..last];
    if i == last {
      assert !Mentions(init, q) by {
        forall j | 0 <= j < |init|
          ensures init[j].at != q
        {
          assert init[j] == ts[j] && ts[j].at != ts[last].at;
        }
      }
      WithoutAbsent(init, q);
      assert RemoveAt(ts, i) == init;
    } else {
      WithoutIsRemoveAt(init, q, i);
      assert RemoveAt(ts, i) == RemoveAt(init, i) + [ts[last]];
    }
  }

  lemma WithoutMentions(ts: seq<Term>, q: nat, i: nat)
    requires Proper(ts) && i < |ts| && ts[i].at == q
    ensures Proper(Without(ts, q)) && !Mentions(Without(ts, q), q)
    ensures forall p :: Mentions(Without(ts, q), p) ==> Mentions(ts, p)
  {
    WithoutIsRemoveAt(ts, q, i);
    var r := RemoveAt(ts, i);
    forall p | Mentions(r, p)
      ensures Mentions(ts, p) && p != q
    {
      var j :| 0 <= j < |r| && r[j].at == p;
      assert ts[if j < i then j else j + 1].at == p;
    }
  }

  lemma TermSumSnoc(ts: seq<Term>, x: Term, t: Truth, k: nat)
    ensures TermSum(ts + [x], t, k) == Add(TermSum(ts, t, k), Mul(x.coeff, t(x.at, k)))
  {
    hide Add, Mul;
    assert (ts + [x])[..|ts|] == ts;
  }

  lemma AddSwap(a: byte, b: byte, c: byte)
    ensures Add(Add(a, b), c) == Add(Add(a, c), b)
    ensures Add(Add(a, b), b) == a
  {}

  lemma {:induction false} RemoveSum(ts: seq<Term>, i: nat, t: Truth, k: nat)
    requires i < |ts|
    ensures TermSum(RemoveAt(ts, i), t, k) == Add(TermSum(ts, t, k), Mul(ts[i].coeff, t(ts[i].at, k)))
  {
    hide Add, Mul;
    var last := |ts| - 1;
    var init := ts[..last];
    var m := Mul(ts[i].coeff, t(ts[i].at, k));
    if i == last {
      assert RemoveAt(ts, i) == init;
      AddSwap(TermSum(init, t, k), m, m);
    } else {
      RemoveSum(init, i, t, k);
      assert RemoveAt(ts, i) == RemoveAt(init, i) + [ts[last]];
      TermSumSnoc(RemoveAt(init, i), ts[last], t, k);
      AddSwap(TermSum(init, t, k), m, Mul(ts[last].coeff, t(ts[last].at, k)));
    }
  }

  lemma {:induction false} UpdateSum(ts: seq<Term>, i: nat, c: byte, t: Truth, k: nat)
    requires i < |ts|
    ensures TermSum(ts[i := Term(ts[i].at, Add(ts[i].coeff, c))], t, k)
         == Add(TermSum(ts, t, k), Mul(c, t(ts[i].at, k)))
  {
    hide Add, Mul;
    var last := |ts| - 1;
    var init := ts[..last];
    var x := Term(ts[i].at, Add(ts[i].coeff, c));
    var v := t(ts[i].at, k);
    if i == last {
      assert ts[i := x] == init + [x];
      TermSumSnoc(init, x, t, k);
      MulCommutes(x.coeff, v);
      MulDistributes(v, ts[i].coeff, c);
      MulCommutes(v, c);
      MulCommutes(v, ts[i].coeff);
      AddLaws(TermSum(init, t, k), Mul(ts[i].coeff, v), Mul(c, v));
    } else {
      UpdateSum(init, i, c, t, k);
      assert ts[i := x] == init[i := x] + [ts[last]];
      TermSumSnoc(init[i := x], ts[last], t, k);
      AddSwap(TermSum(init, t, k), Mul(c, v), Mul(ts[last].coeff, t(ts[last].at, k)));
    }
  }

  /** Adds c times source q: into its entry (dropped when it cancels), else as a new last entry. */
  function Accumulate(ts: seq<Term>, q: nat, c: byte): seq<Term> {
    var p := Position(ts, q);
    if p < |ts| then
      if Add(ts[p].coeff, c) == 0 then Without(ts, q) else ts[p := Term(q, Add(ts[p].coeff, c))]
    else if c != 0 then ts + [Term(q, c)]
    else ts
  }

  lemma AccumulateShape(ts: seq<Term>, q: nat, c: byte)
    requires Proper(ts)
    ensures Proper(Accumulate(ts, q, c))
    ensures forall p :: Mentions(Accumulate(ts, q, c), p) ==> Mentions(ts, p) || p == q
  {
    hide Add;
    var r := Accumulate(ts, q, c);
    var i := Position(ts, q);
    if i < |ts| && Add(ts[i].coeff, c) == 0 {
      WithoutIsRemoveAt(ts, q, i);
      forall p | Mentions(r, p)
        ensures Mentions(ts, p)
      {
        var j :| 0 <= j < |r| && r[j].at == p;
        assert ts[if j < i then j else j + 1].at == p;
      }
    } else {
      forall p | Mentions(r, p)
        ensures Mentions(ts, p) || p == q
      {
        var j :| 0 <= j < |r| && r[j].at == p;
        assert j < |ts| ==> ts[j].at == p;
      }
    }
  }

  lemma AccumulateSum(ts: seq<Term>, q: nat, c: byte, t: Truth, k: nat)
    requires Proper(ts)
    ensures TermSum(Accumulate(ts, q, c), t, k) == Add(TermSum(ts, t, k), Mul(c, t(q, k)))
  {
    hide Add, Mul, TermSum;
    var i := Position(ts, q);
    var s := TermSum(ts, t, k);
    if i < |ts| {
      if Add(ts[i].coeff, c) == 0 {
        WithoutIsRemoveAt(ts, q, i);
        RemoveSum(ts, i, t, k);
        AddCancels(ts[i].coeff, c);
      } else {
        UpdateSum(ts, i, c, t, k);
      }
    } else if c != 0 {
      TermSumSnoc(ts, Term(q, c), t, k);
    } else {
      MulZero(t(q, k));
      AddCancels(s, s);
    }
  }

  /** Accumulates f times every term of a row, in order. */
  function AddScaled(ts: seq<Term>, f: byte, row: seq<Term>): seq<Term> {
    if row == [] then ts
    else Accumulate(AddScaled(ts, f, row[..|row| - 1]), row[|row| - 1].at, Mul(f, row[|row| - 1].coeff))
  }

  lemma {:induction false} AddScaledShape(ts: seq<Term>, f: byte, row: seq<Term>)
    requires Proper(ts)
    ensures Proper(AddScaled(ts, f, row))
    ensures forall q :: Mentions(AddScaled(ts, f, row), q) ==> Mentions(ts, q) || Mentions(row, q)
  {
    hide Mul, Accumulate, Proper;
    if row != [] {
      var last := row[|row| - 1];
      AddScaledShape(ts, f, row[..|row| - 1]);
      AccumulateShape(AddScaled(ts, f, row[..|row| - 1]), last.at, Mul(f, last.coeff));
      forall q | Mentions(row[..|row| - 1], q) || q == last.at
        ensures Mentions(row, q)
      {
        if q != last.at {
          var i :| 0 <= i < |row| - 1 && row[..|row| - 1][i].at == q;
          assert row[i].at == q;
        }
      }
    }
  }

  lemma {:induction false} AddScaledSum(ts: seq<Term>, f: byte, row: seq<Term>, t: Truth, k: nat)
    requires Proper(ts)
    ensures TermSum(AddScaled(ts, f, row), t, k) == Add(TermSum(ts, t, k), Mul(f, TermSum(row, t, k)))
  {
    hide Mul, Accumulate, Proper, Add;
    var s := TermSum(ts, t, k);
    if row == [] {
      MulZero(f);
      AddCancels(s, s);
    } else {
      var init, last := row[..|row| - 1], row[|row| - 1];
      var v := t(last.at, k);
      AddScaledShape(ts, f, init);
      AddScaledSum(ts, f, init, t, k);
      AccumulateSum(AddScaled(ts, f, init), last.at, Mul(f, last.coeff), t, k);
      MulDistributes(f, TermSum(init, t, k), Mul(last.coeff, v));
      MulAssociates(f, last.coeff, v);
      AddLaws(s, Mul(f, TermSum(init, t, k)), Mul(f, Mul(last.coeff, v)));
    }
  }

  /** Every coefficient scaled. */
  function ScaleTerms(f: byte, ts: seq<Term>): (r: seq<Term>)
    ensures |r| == |ts|
    ensures forall i :: 0 <= i < |ts| ==> r[i] == Term(ts[i].at, Mul(f, ts[i].coeff))
  {
    seq(|ts|, i requires 0 <= i < |ts| => Term(ts[i].at, Mul(f, ts[i].coeff)))
  }

  lemma {:induction false} ScaleSum(f: byte, ts: seq<Term>, t: Truth, k: nat)
    ensures TermSum(ScaleTerms(f, ts), t, k) == Mul(f, TermSum(ts, t, k))
  {
    hide Add, Mul;
    if ts == [] {
      MulZero(f);
    } else {
      var last := |ts| - 1;
      var x := ts[last];
      var v := t(x.at, k);
      ScaleSum(f, ts[..last], t, k);
      assert ScaleTerms(f, ts)[..last] == ScaleTerms(f, ts[..last]);
      MulDistributes(f, TermSum(ts[..last], t, k), Mul(x.coeff, v));
      MulAssociates(f, x.coeff, v);
    }
  }

  // ---- ordered lists

  /** In ascending order of sequence number, each once. */
  ghost predicate Sorted(ts: seq<Term>) {
    forall i, j :: 0 <= i < j < |ts| ==> ts[i].at < ts[j].at
  }

  /** The first place whose sequence number is not below q. */
  function Place(ts: seq<Term>, q: nat): (r: nat)
    ensures r <= |ts| && (forall i :: 0 <= i < r ==> ts[i].at < q) && (r < |ts| ==> ts[r].at >= q)
  {
    if ts == [] || ts[0].at >= q then 0 else 1 + Place(ts[1..], q)
  }

  function InsertAt(ts: seq<Term>, i: nat, x: Term): seq<Term>
    requires i <= |ts|
  {
    ts[..i] + [x] + ts[i..]
  }

  /** An ordered entry plus c, created at zero and dropped when the sum is zero. */
  function AddEntry(ts: seq<Term>, q: nat, c: byte): seq<Term> {
    var p := Position(ts, q);
    if p < |ts| then
      if Add(ts[p].coeff, c) == 0 then RemoveAt(ts, p) else ts[p := Term(q, Add(ts[p].coeff, c))]
    else if c == 0 then ts
    else InsertAt(ts, Place(ts, q), Term(q, c))
  }

  lemma AddEntryShape(ts: seq<Term>, q: nat, c: byte)
    requires Proper(ts) && Sorted(ts)
    ensures Proper(AddEntry(ts, q, c)) && Sorted(AddEntry(ts, q, c))
    ensures forall p :: Mentions(AddEntry(ts, q, c), p) ==> Mentions(ts, p) || p == q
  {
    hide Add;
    var i := Position(ts, q);
    if i < |ts| && Add(ts[i].coeff, c) == 0 {
      WithoutIsRemoveAt(ts, q, i);
      WithoutMentions(ts, q, i);
      RemovedSorted(ts, i);
    } else if i == |ts| && c != 0 {
      hide Proper, Sorted, Mentions;
      Inserted(ts, Place(ts, q), Term(q, c));
    } else if i < |ts| {
      Updated(ts, i, Add(ts[i].coeff, c));
    }
  }

  lemma Updated(ts: seq<Term>, i: nat, c: byte)
    requires Proper(ts) && Sorted(ts) && i < |ts| && c != 0
    ensures var r := ts[i := Term(ts[i].at, c)];
      Proper(r) && Sorted(r) && forall p :: Mentions(r, p) ==> Mentions(ts, p)
  {
    var r := ts[i := Term(ts[i].at, c)];
    forall p | Mentions(r, p)
      ensures Mentions(ts, p)
    {
      var k :| 0 <= k < |r| && r[k].at == p;
      assert ts[k].at == p;
    }
  }

  lemma RemovedSorted(ts: seq<Term>, i: nat)
    requires Sorted(ts) && i < |ts|
    ensures Sorted(RemoveAt(ts, i))
  {}

  lemma Inserted(ts: seq<Term>, j: nat, x: Term)
    requires Proper(ts) && Sorted(ts) && x.coeff != 0 && !Mentions(ts, x.at) && j == Place(ts, x.at)
    ensures Proper(InsertAt(ts, j, x)) && Sorted(InsertAt(ts, j, x))
    ensures forall p :: Mentions(InsertAt(ts, j, x), p) ==> Mentions(ts, p) || p == x.at
  {
    hide Place;
    var r := InsertAt(ts, j, x);
    assert ts[j..] != [] ==> x.at < ts[j].at by {
      if j < |ts| {
        assert ts[j].at != x.at;
      }
    }
    InsertedSorted(ts, j, x);
    forall k | 0 <= k < |r|
      ensures r[k].coeff != 0 && (r[k].at == x.at || Mentions(ts, r[k].at))
    {
      if k != j {
        assert r[k] == ts[if k < j then k else k - 1];
      }
    }
  }

  lemma InsertedSorted(ts: seq<Term>, j: nat, x: Term)
    requires Sorted(ts) && j <= |ts| && (forall i :: 0 <= i < j ==> ts[i].at < x.at) && (j < |ts| ==> x.at < ts[j].at)
    ensures Sorted(InsertAt(ts, j, x))
    ensures forall i, k :: 0 <= i < k < |InsertAt(ts, j, x)| ==> InsertAt(ts, j, x)[i].at != InsertAt(ts, j, x)[k].at
  {
    var r := InsertAt(ts, j, x);
    forall i, k | 0 <= i < k < |r|
      ensures r[i].at < r[k].at
    {
      if i < j && k > j {
        assert r[i] == ts[i] && r[k] == ts[k - 1];
      } else if i < j && k < j {
        assert r[i] == ts[i] && r[k] == ts[k];
      } else if i > j {
        assert r[i] == ts[i - 1] && r[k] == ts[k - 1];
      } else if i == j {
        assert r[i] == x && r[k] == ts[k - 1];
      }
    }
  }

  lemma AddEntrySum(ts: seq<Term>, q: nat, c: byte, t: Truth, k: nat)
    requires Proper(ts)
    ensures TermSum(AddEntry(ts, q, c), t, k) == Add(TermSum(ts, t, k), Mul(c, t(q, k)))
  {
    hide Add, Mul, TermSum;
    var i, s := Position(ts, q), TermSum(ts, t, k);
    if i < |ts| {
      if Add(ts[i].coeff, c) == 0 {
        RemoveSum(ts, i, t, k);
        AddCancels(ts[i].coeff, c);
      } else {
        UpdateSum(ts, i, c, t, k);
      }
    } else if c == 0 {
      MulZero(t(q, k));
      AddCancels(s, s);
    } else {
      var j := Place(ts, q);
      var r := InsertAt(ts, j, Term(q, c));
      RemoveSum(r, j, t, k);
      assert RemoveAt(r, j) == ts;
      AddSwap(TermSum(r, t, k), Mul(c, t(q, k)), 0);
    }
  }

  /** f times every term of a row, added entry by entry. */
  function AddEntries(ts: seq<Term>, f: byte, row: seq<Term>): seq<Term> {
    if row == [] then ts
    else AddEntry(AddEntries(ts, f, row[..|row| - 1]), row[|row| - 1].at, Mul(f, row[|row| - 1].coeff))
  }

  lemma {:induction false} AddEntriesShape(ts: seq<Term>, f: byte, row: seq<Term>)
    requires Proper(ts) && Sorted(ts)
    ensures Proper(AddEntries(ts, f, row)) && Sorted(AddEntries(ts, f, row))
    ensures forall q :: Mentions(AddEntries(ts, f, row), q) ==> Mentions(ts, q) || Mentions(row, q)
  {
    hide Mul, AddEntry, Proper, Sorted, Mentions;
    if row != [] {
      var init, last := row[..|row| - 1], row[|row| - 1];
      AddEntriesShape(ts, f, init);
      AddEntryShape(AddEntries(ts, f, init), last.at, Mul(f, last.coeff));
      MentionsSnoc(init, last);
      assert row == init + [last];
    }
  }

  lemma {:induction false} AddEntriesSum(ts: seq<Term>, f: byte, row: seq<Term>, t: Truth, k: nat)
    requires Proper(ts) && Sorted(ts)
    ensures TermSum(AddEntries(ts, f, row), t, k) == Add(TermSum(ts, t, k), Mul(f, TermSum(row, t, k)))
  {
    hide Mul, AddEntry, Proper, Add, Sorted;
    var s := TermSum(ts, t, k);
    if row == [] {
      MulZero(f);
      AddCancels(s, s);
    } else {
      var init, last := row[..|row| - 1], row[|row| - 1];
      var v := t(last.at, k);
      AddEntriesShape(ts, f, init);
      AddEntriesSum(ts, f, init, t, k);
      AddEntrySum(AddEntries(ts, f, init), last.at, Mul(f, last.coeff), t, k);
      MulDistributes(f, TermSum(init, t, k), Mul(last.coeff, v));
      MulAssociates(f, last.coeff, v);
      AddLaws(s, Mul(f, TermSum(init, t, k)), Mul(f, Mul(last.coeff, v)));
    }
  }
}
