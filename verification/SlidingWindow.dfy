/** The sliding-window decoder: sparse rows that cascade, and a moving floor that forgets what is past. */
module SlidingWindow {
  import opened Basics
  import opened Gf256
  import opened Linear
  import opened TermLists
  import opened SimpleRlc
  import opened Wire
  import CoefficientStream

  // ---- rows keyed by their pivot

  /** A row's pivot is its key and lies below every column; its columns ascend and none is zero. */
  ghost predicate RowShape(q: nat, r: PivotRow, size: nat) {
    && r.pivot == q && Proper(r.terms) && Sorted(r.terms) && r.terms != [] && |r.data| == size
    && forall c :: Mentions(r.terms, c) ==> q < c
  }

  ghost predicate Table(ps: map<nat, PivotRow>, size: nat) {
    forall q: nat :: q in ps ==> RowShape(q, ps[q], size)
  }

  ghost predicate TableHolds(ps: map<nat, PivotRow>, t: Truth) {
    forall q: nat :: q in ps ==> RowHolds(ps[q], t)
  }

  ghost predicate TableBelow(ps: map<nat, PivotRow>, n: nat) {
    forall q: nat :: q in ps ==> q < n && forall c: nat :: Mentions(ps[q].terms, c) ==> c < n
  }

  /** No row mentions a recovered source other than those waiting to be substituted. */
  ghost predicate Detached(ps: map<nat, PivotRow>, known: set<nat>, waiting: seq<nat>) {
    forall p: nat, c: nat :: p in ps && c in known && Mentions(ps[p].terms, c) ==> c in waiting
  }

  ghost predicate Apart(ps: map<nat, PivotRow>, known: set<nat>) {
    forall p: nat :: p in ps ==> p !in known
  }

  ghost predicate KnownHolds(rec: map<nat, seq<byte>>, t: Truth) {
    forall q: nat :: q in rec ==> SourceHolds(q, rec[q], t)
  }

  ghost predicate AllTrue(out: seq<(nat, seq<byte>)>, t: Truth, size: nat) {
    forall i :: 0 <= i < |out| ==> |out[i].1| == size && SourceHolds(out[i].0, out[i].1, t)
  }

  lemma {:induction false} UnknownTermsSorted(terms: seq<Term>, known: set<nat>)
    requires Sorted(terms)
    ensures Sorted(UnknownTerms(terms, known))
  {
    if terms != [] {
      var init, x := terms[..|terms| - 1], terms[|terms| - 1];
      UnknownTermsSorted(init, known);
      UnknownTermsAmong(init, known);
      var u := UnknownTerms(init, known);
      forall i | 0 <= i < |u|
        ensures u[i].at < x.at
      {
        assert u[i] in init;
      }
    }
  }

  lemma UnknownTermsShape(terms: seq<Term>, known: set<nat>)
    requires Proper(terms) && Sorted(terms)
    ensures var u := UnknownTerms(terms, known);
      Proper(u) && Sorted(u) && forall q :: Mentions(u, q) ==> Mentions(terms, q) && q !in known
  {
    hide UnknownTerms;
    UnknownTermsAmong(terms, known);
    UnknownTermsSorted(terms, known);
    var u := UnknownTerms(terms, known);
    forall i | 0 <= i < |u|
      ensures u[i].coeff != 0 && Mentions(terms, u[i].at) && u[i].at !in known
    {
      assert u[i] in u;
    }
  }

  // ---- eliminating a row from an ordered equation

  method EliminateOrdered(terms: seq<Term>, data: seq<byte>, pos: nat, row: PivotRow)
    returns (outTerms: seq<Term>, outData: seq<byte>)
    requires pos < |terms| && |row.data| == |data|
    ensures outTerms == AddEntries(RemoveAt(terms, pos), terms[pos].coeff, row.terms)
    ensures outData == MulAcc(terms[pos].coeff, row.data, data)
  {
    hide Mul, AddEntry;
    var coeff := terms[pos].coeff;
    outTerms := RemoveAt(terms, pos);
    outData := MulAcc(coeff, row.data, data);
    for i := 0 to |row.terms|
      invariant outTerms == AddEntries(RemoveAt(terms, pos), coeff, row.terms[..i])
    {
      assert row.terms[..i + 1][..i] == row.terms[..i];
      outTerms := AddEntry(outTerms, row.terms[i].at, Mul(coeff, row.terms[i].coeff));
    }
    assert row.terms[..|row.terms|] == row.terms;
  }

  lemma EliminateOrderedShape(terms: seq<Term>, pos: nat, row: PivotRow)
    requires Proper(terms) && Sorted(terms) && pos < |terms| && terms[pos].at == row.pivot
    ensures var r := AddEntries(RemoveAt(terms, pos), terms[pos].coeff, row.terms);
      Proper(r) && Sorted(r) && forall q :: Mentions(r, q) ==> Mentions(terms, q) || Mentions(row.terms, q)
  {
    WithoutIsRemoveAt(terms, row.pivot, pos);
    WithoutMentions(terms, row.pivot, pos);
    RemovedSorted(terms, pos);
    hide Proper, Mentions, Sorted;
    AddEntriesShape(RemoveAt(terms, pos), terms[pos].coeff, row.terms);
  }

  /** Under a true row, what is left says what the equation said. */
  lemma EliminateOrderedHolds(terms: seq<Term>, data: seq<byte>, pos: nat, row: PivotRow, t: Truth)
    requires Proper(terms) && Sorted(terms) && pos < |terms| && terms[pos].at == row.pivot && |row.data| == |data|
      && RowHolds(row, t)
    ensures EquationHolds(AddEntries(RemoveAt(terms, pos), terms[pos].coeff, row.terms),
        MulAcc(terms[pos].coeff, row.data, data), t)
      <==> EquationHolds(terms, data, t)
  {
    WithoutIsRemoveAt(terms, row.pivot, pos);
    WithoutMentions(terms, row.pivot, pos);
    RemovedSorted(terms, pos);
    hide Add, Mul, TermSum, Proper, Mentions, Sorted;
    var f, v := terms[pos].coeff, row.pivot;
    forall k | 0 <= k < |data|
      ensures Add(data[k], Mul(f, row.data[k])) == TermSum(AddEntries(RemoveAt(terms, pos), f, row.terms), t, k)
        <==> data[k] == TermSum(terms, t, k)
    {
      RemoveSum(terms, pos, t, k);
      AddEntriesSum(RemoveAt(terms, pos), f, row.terms, t, k);
      MulDistributes(f, t(v, k), TermSum(row.terms, t, k));
      AddLaws(TermSum(terms, t, k), Mul(f, t(v, k)), Mul(f, TermSum(row.terms, t, k)));
      SameAdded(data[k], TermSum(terms, t, k), Mul(f, row.data[k]));
    }
  }

  /** What is left of an equation after eliminating, in order, the pivots among the first n columns it had. */
  function Remaining(terms: seq<Term>, ps: map<nat, PivotRow>, n: nat): seq<Term>
    requires n <= |terms|
  {
    if n == 0 then terms
    else
      var left := Remaining(terms, ps, n - 1);
      var q := terms[n - 1].at;
      var pos := Position(left, q);
      if q in ps && pos < |left| then AddEntries(RemoveAt(left, pos), left[pos].coeff, ps[q].terms) else left
  }

  /** left is an ordered equation that mentions no pivot among the first n columns of terms. */
  ghost predicate Cleared(terms: seq<Term>, ps: map<nat, PivotRow>, n: nat, left: seq<Term>)
    requires n <= |terms|
  {
    Proper(left) && Sorted(left) && forall j :: 0 <= j < n && terms[j].at in ps ==> !Mentions(left, terms[j].at)
  }

  /** A row's columns all lie above its pivot, so a pivot once eliminated never comes back in the same pass. */
  lemma {:induction false} RemainingNamesNone(terms: seq<Term>, ps: map<nat, PivotRow>, n: nat, size: nat)
    requires n <= |terms| && Proper(terms) && Sorted(terms) && Table(ps, size)
    ensures Cleared(terms, ps, n, Remaining(terms, ps, n))
  {
    if n > 0 {
      RemainingNamesNone(terms, ps, n - 1, size);
      ClearedStep(terms, ps, n, Remaining(terms, ps, n - 1), size);
      hide Cleared, Proper, Sorted, Table;
    }
  }

  lemma ClearedStep(terms: seq<Term>, ps: map<nat, PivotRow>, n: nat, left: seq<Term>, size: nat)
    requires 0 < n <= |terms| && Sorted(terms) && Table(ps, size) && Cleared(terms, ps, n - 1, left)
    ensures var q, pos := terms[n - 1].at, Position(left, terms[n - 1].at);
      Cleared(terms, ps, n,
        if q in ps && pos < |left| then AddEntries(RemoveAt(left, pos), left[pos].coeff, ps[q].terms) else left)
  {
    hide Cleared, Proper, Mentions, AddEntries, RemoveAt, Table, Sorted, Position;
    var q := terms[n - 1].at;
    var pos := Position(left, q);
    if q in ps && pos < |left| {
      ClearedOne(terms, ps, n, left, pos, size);
    } else {
      ClearedNone(terms, ps, n, left);
    }
  }

  lemma ClearedNone(terms: seq<Term>, ps: map<nat, PivotRow>, n: nat, left: seq<Term>)
    requires 0 < n <= |terms| && Cleared(terms, ps, n - 1, left)
    requires terms[n - 1].at in ps ==> Position(left, terms[n - 1].at) == |left|
    ensures Cleared(terms, ps, n, left)
  {
    hide Proper, Mentions, Sorted;
  }

  lemma ClearedOne(terms: seq<Term>, ps: map<nat, PivotRow>, n: nat, left: seq<Term>, pos: nat, size: nat)
    requires 0 < n <= |terms| && Sorted(terms) && Table(ps, size) && Cleared(terms, ps, n - 1, left)
    requires pos < |left| && left[pos].at == terms[n - 1].at && terms[n - 1].at in ps
    ensures Cleared(terms, ps, n, AddEntries(RemoveAt(left, pos), left[pos].coeff, ps[terms[n - 1].at].terms))
  {
    hide Proper, Mentions, AddEntries, RemoveAt, Table, Sorted;
    Ascends(terms, n);
    ColumnsAbovePivot(ps, terms[n - 1].at, size);
    EliminatedGone(left, pos, ps[terms[n - 1].at]);
  }

  lemma Ascends(terms: seq<Term>, n: nat)
    requires 0 < n <= |terms| && Sorted(terms)
    ensures forall j :: 0 <= j < n - 1 ==> terms[j].at < terms[n - 1].at
  {}

  lemma ColumnsAbovePivot(ps: map<nat, PivotRow>, q: nat, size: nat)
    requires Table(ps, size) && q in ps
    ensures ps[q].pivot == q && forall c :: Mentions(ps[q].terms, c) ==> q < c
  {
    assert RowShape(q, ps[q], size);
    hide Mentions;
  }

  lemma EliminatedGone(left: seq<Term>, pos: nat, row: PivotRow)
    requires Proper(left) && Sorted(left) && pos < |left| && left[pos].at == row.pivot
    requires forall c :: Mentions(row.terms, c) ==> row.pivot < c
    ensures var r := AddEntries(RemoveAt(left, pos), left[pos].coeff, row.terms);
      && Proper(r) && Sorted(r) && !Mentions(r, row.pivot)
      && forall q: nat :: q < row.pivot && !Mentions(left, q) ==> !Mentions(r, q)
  {
    WithoutIsRemoveAt(left, row.pivot, pos);
    WithoutMentions(left, row.pivot, pos);
    RemovedSorted(left, pos);
    hide Proper, Mentions, Sorted;
    AddEntriesShape(RemoveAt(left, pos), left[pos].coeff, row.terms);
  }

  /** Substituting a source keeps a row's shape, unless that was its last column. */
  lemma ReducedShape(q: nat, r: PivotRow, pos: nat, src: seq<byte>, size: nat)
    requires RowShape(q, r, size) && pos < |r.terms| && |src| == size
    ensures var w := Reduced(r, pos, src);
      && w.pivot == q && |w.data| == size && !Mentions(w.terms, r.terms[pos].at)
      && (forall c :: Mentions(w.terms, c) ==> Mentions(r.terms, c))
      && (w.terms != [] ==> RowShape(q, w, size))
  {
    WithoutIsRemoveAt(r.terms, r.terms[pos].at, pos);
    WithoutMentions(r.terms, r.terms[pos].at, pos);
    RemovedSorted(r.terms, pos);
  }

  // ---- the table as a whole

  lemma RowRemoved(ps: map<nat, PivotRow>, p: nat, size: nat, t: Truth, n: nat)
    requires Table(ps, size)
    ensures Table(ps - {p}, size)
    ensures TableHolds(ps, t) ==> TableHolds(ps - {p}, t)
    ensures TableBelow(ps, n) ==> TableBelow(ps - {p}, n)
  {
    hide RowShape, RowHolds, Mentions;
  }

  lemma RowPut(ps: map<nat, PivotRow>, p: nat, r: PivotRow, size: nat, t: Truth, n: nat)
    requires Table(ps, size) && RowShape(p, r, size)
    ensures Table(ps[p := r], size)
    ensures TableHolds(ps, t) && RowHolds(r, t) ==> TableHolds(ps[p := r], t)
    ensures TableBelow(ps, n) && p < n && (forall c: nat :: Mentions(r.terms, c) ==> c < n) ==>
      TableBelow(ps[p := r], n)
    ensures p in ps ==> |ps[p := r]| == |ps|
  {
    hide RowShape, RowHolds, Mentions;
    if p in ps {
      assert ps[p := r].Keys == ps.Keys;
    }
  }

  /** Columns of q remain only in the rows still to be visited; otherwise only waiting sources are mentioned. */
  ghost predicate Visiting(ps: map<nat, PivotRow>, known: set<nat>, waiting: seq<nat>, q: nat, left: set<nat>) {
    && left <= ps.Keys
    && forall p: nat, c: nat :: p in ps && c in known && Mentions(ps[p].terms, c) ==>
      c in waiting || (c == q && p in left)
  }

  lemma VisitSolved(ps: map<nat, PivotRow>, known: set<nat>, waiting: seq<nat>, q: nat, left: set<nat>, p: nat)
    requires Visiting(ps, known, waiting, q, left) && Apart(ps, known)
    ensures Visiting(ps - {p}, known + {p}, waiting + [p], q, left - {p}) && Apart(ps - {p}, known + {p})
  {
    hide Mentions;
  }

  lemma VisitReduced(ps: map<nat, PivotRow>, known: set<nat>, waiting: seq<nat>, q: nat, left: set<nat>, p: nat,
        r: PivotRow)
    requires Visiting(ps, known, waiting, q, left) && Apart(ps, known) && p in ps
    requires !Mentions(r.terms, q) && forall c :: Mentions(r.terms, c) ==> Mentions(ps[p].terms, c)
    ensures Visiting(ps[p := r], known, waiting, q, left - {p}) && Apart(ps[p := r], known)
  {
    hide Mentions;
  }

  lemma VisitUntouched(ps: map<nat, PivotRow>, known: set<nat>, waiting: seq<nat>, q: nat, left: set<nat>, p: nat)
    requires Visiting(ps, known, waiting, q, left) && p in ps && !Mentions(ps[p].terms, q)
    ensures Visiting(ps, known, waiting, q, left - {p})
  {
    hide Mentions;
  }

  class RlcWindowDecoder {
    const symbolSize: nat
    var recovered: map<nat, seq<byte>>
    var pivots: map<nat, PivotRow>
    var output: set<nat>
    var srcSeen: set<nat>
    var repairsSeen: set<(nat, nat)>
    var totalFed: nat
    var floor: nat
    var repairsFed: nat
    var repairsUseful: nat
    /** Everything ever returned to the caller. */
    ghost var returned: set<nat>

    /** Payloads have their size, and exactly the recovered sources were put out. */
    ghost predicate Kept()
      reads this`recovered, this`output
    {
      (forall q: nat :: q in recovered ==> |recovered[q]| == symbolSize) && output == recovered.Keys
    }

    ghost predicate Truthful(t: Truth)
      reads this`recovered, this`pivots
    {
      KnownHolds(recovered, t) && TableHolds(pivots, t)
    }

    ghost predicate Bounded(n: nat)
      reads this`recovered, this`pivots
    {
      (forall q: nat :: q in recovered ==> q < n) && TableBelow(pivots, n)
    }

    /** Rows are well shaped, mention nothing recovered, and no recovered source is a pivot. */
    ghost predicate Settled()
      reads this`recovered, this`pivots, this`output
    {
      Kept() && Table(pivots, symbolSize) && Detached(pivots, recovered.Keys, []) && Apart(pivots, recovered.Keys)
    }

    /** Settled, and at or above the floor exactly what was put out was returned. */
    ghost predicate Valid()
      reads this`recovered, this`pivots, this`output, this`floor, this`returned
    {
      Settled() && forall q :: q >= floor ==> (q in returned <==> q in output)
    }

    constructor (symbolSize: nat)
      ensures Valid() && this.symbolSize == symbolSize && recovered == map[] && pivots == map[] && returned == {}
        && floor == 0
    {
      this.symbolSize := symbolSize;
      recovered, pivots, output, srcSeen, repairsSeen := map[], map[], {}, {}, {};
      totalFed, floor, repairsFed, repairsUseful, returned := 0, 0, 0, 0, {};
    }

    /** Holds a source as recovered; true when it was not put out before. */
    method Recover(q: nat, data: seq<byte>, ghost t: Truth, ghost n: nat) returns (first: bool)
      requires Kept() && |data| == symbolSize
      modifies this`recovered, this`output
      ensures Kept() && recovered == old(recovered)[q := data] && output == old(output) + {q}
      ensures first == (q !in old(output))
      ensures old(Truthful(t)) && SourceHolds(q, data, t) ==> Truthful(t)
      ensures old(Bounded(n)) && q < n ==> Bounded(n)
    {
      hide TableHolds, TableBelow, SourceHolds;
      recovered := recovered[q := data];
      first := q !in output;
      output := output + {q};
    }

    ghost function Here(): Holding
      reads this`output, this`recovered, this`pivots
    {
      Holding(output, recovered, pivots)
    }

    lemma OutputIsRecovered()
      requires Settled()
      ensures output == recovered.Keys
    {}

    lemma KnownAt(q: nat, t: Truth)
      requires Kept() && q in recovered
      ensures |recovered[q]| == symbolSize && (Truthful(t) ==> SourceHolds(q, recovered[q], t))
    {
      hide SourceHolds;
    }

    /** Substitutes source q into one row; a row left without columns gives its pivot's source. */
    method Visit(p: nat, q: nat, src: seq<byte>, waiting: seq<nat>, ghost left: set<nat>, ghost t: Truth, ghost n: nat)
      returns (out: seq<(nat, seq<byte>)>, news: seq<nat>)
      requires Kept() && Table(pivots, symbolSize) && Apart(pivots, recovered.Keys) && p in left && |src| == symbolSize
        && q in recovered
      requires Visiting(pivots, recovered.Keys, waiting, q, left) && left <= pivots.Keys
      modifies this`recovered, this`pivots, this`output
      ensures Kept() && Table(pivots, symbolSize) && Apart(pivots, recovered.Keys)
      ensures Visiting(pivots, recovered.Keys, waiting + news, q, left - {p}) && left - {p} <= pivots.Keys
      ensures Gained(old(Here()), Here(), out)
      ensures |pivots| + |news| == old(|pivots|) && old(recovered.Keys) <= recovered.Keys
      ensures forall x :: x in news ==> x in recovered
      ensures old(Truthful(t)) && SourceHolds(q, src, t) ==> Truthful(t) && AllTrue(out, t, symbolSize)
      ensures old(Bounded(n)) ==> Bounded(n) && forall i :: 0 <= i < |out| ==> out[i].0 < n
    {
      hide Table, TableHolds, TableBelow, Apart, Emitted, Visiting, KnownHolds, AllTrue, SourceHolds, Mentions,
          RowHolds, RowShape, Reduced, Shrunk, Extends, Held;
      out, news := [], [];
      EmittedNothing<seq<byte>>(output);
      HoldNothing(t, symbolSize);
      NothingShrunk(pivots, recovered.Keys);
      NothingExtended(recovered);
      assert waiting + news == waiting;
      ApartAt(pivots, recovered.Keys, p);
      var row := pivots[p];
      var pos := Position(row.terms, q);
      RowFacts(p, t, n);
      if pos < |row.terms| {
        var r := Reduced(row, pos, src);
        ReducedShape(p, row, pos, src, symbolSize);
        if SourceHolds(q, src, t) {
          ReducedTrue(row, pos, src, t);
        }
        if r.terms == [] {
          VisitSolved(pivots, recovered.Keys, waiting, q, left, p);
          ShrunkBySolving(pivots, recovered.Keys, p);
          SolvedTrue(r, t);
          out := Solve(p, r.data, t, n);
          news := [p];
        } else {
          RowPut(pivots, p, r, symbolSize, t, n);
          VisitReduced(pivots, recovered.Keys, waiting, q, left, p, r);
          ShrunkByReducing(pivots, recovered.Keys, p, q, pos, src);
          pivots := pivots[p := r];
        }
      } else {
        VisitUntouched(pivots, recovered.Keys, waiting, q, left, p);
      }
    }

    method DropRow(p: nat, ghost t: Truth, ghost n: nat)
      requires Table(pivots, symbolSize)
      modifies this`pivots
      ensures Table(pivots, symbolSize) && pivots == old(pivots) - {p}
      ensures old(Truthful(t)) ==> Truthful(t)
      ensures old(Bounded(n)) ==> Bounded(n)
    {
      hide Table, TableHolds, TableBelow, KnownHolds;
      RowRemoved(pivots, p, symbolSize, t, n);
      pivots := pivots - {p};
    }

    /** Holds a source as recovered and puts it out unless it was put out before. */
    method PutOut(q: nat, data: seq<byte>, ghost t: Truth, ghost n: nat) returns (out: seq<(nat, seq<byte>)>)
      requires Kept() && |data| == symbolSize
      modifies this`recovered, this`output
      ensures Kept() && recovered == old(recovered)[q := data]
      ensures Emitted(old(output), output, out) && out == if q in old(output) then [] else [(q, data)]
      ensures Held(recovered, out)
      ensures old(Truthful(t)) && SourceHolds(q, data, t) ==> Truthful(t) && AllTrue(out, t, symbolSize)
      ensures old(Bounded(n)) && q < n ==> Bounded(n) && forall i :: 0 <= i < |out| ==> out[i].0 < n
    {
      hide Emitted, AllTrue, SourceHolds, Truthful, Bounded, Kept;
      ghost var sofar := output;
      var first := Recover(q, data, t, n);
      EmittedNothing<seq<byte>>(sofar);
      HoldNothing(t, symbolSize);
      out := [];
      if first {
        EmittedSnoc(sofar, sofar, [], (q, data));
        assert [] + [(q, data)] == [(q, data)];
        HoldOne(q, data, t);
        out := [(q, data)];
      } else {
        assert output == sofar;
      }
    }

    /** A row has only its pivot left: the row goes, its pivot is recovered. */
    method Solve(p: nat, data: seq<byte>, ghost t: Truth, ghost n: nat) returns (out: seq<(nat, seq<byte>)>)
      requires Kept() && Table(pivots, symbolSize) && p in pivots && |data| == symbolSize && p !in recovered
      modifies this`recovered, this`pivots, this`output
      ensures Extends(old(recovered), recovered) && Held(recovered, out)
      ensures Kept() && Table(pivots, symbolSize) && pivots == old(pivots) - {p} && |pivots| + 1 == old(|pivots|)
      ensures recovered == old(recovered)[p := data] && recovered.Keys == old(recovered.Keys) + {p}
      ensures Emitted(old(output), output, out)
      ensures old(Truthful(t)) && SourceHolds(p, data, t) ==> Truthful(t) && AllTrue(out, t, symbolSize)
      ensures old(Bounded(n)) && p < n ==> Bounded(n) && forall i :: 0 <= i < |out| ==> out[i].0 < n
    {
      hide Table, Emitted, AllTrue, SourceHolds, Truthful, Bounded, Kept;
      OneFewer(pivots, p);
      OneMore(recovered, p, data);
      DropRow(p, t, n);
      out := PutOut(p, data, t, n);
    }

    lemma RowFacts(p: nat, t: Truth, n: nat)
      requires Table(pivots, symbolSize) && p in pivots
      ensures RowShape(p, pivots[p], symbolSize) && Proper(pivots[p].terms) && |pivots[p].data| == symbolSize
        && pivots[p].pivot == p
      ensures Truthful(t) ==> RowHolds(pivots[p], t)
      ensures Bounded(n) ==> p < n && forall c: nat :: Mentions(pivots[p].terms, c) ==> c < n
    {
      hide RowHolds, Mentions;
    }

    /** Substitutes source q into every row that has its column, in any order; returns the rows' pivots this solves. */
    method SubstituteAll(q: nat, rest: seq<nat>, ghost t: Truth, ghost n: nat) returns (out: seq<(nat, seq<byte>)>,
          news: seq<nat>)
      requires Kept() && Table(pivots, symbolSize) && Apart(pivots, recovered.Keys) && q in recovered
      requires Detached(pivots, recovered.Keys, [q] + rest)
      modifies this`recovered, this`pivots, this`output
      ensures Kept() && Table(pivots, symbolSize) && Apart(pivots, recovered.Keys)
      ensures Detached(pivots, recovered.Keys, rest + news)
      ensures |pivots| + |news| == old(|pivots|) && old(recovered.Keys) <= recovered.Keys
      ensures forall p :: p in news ==> p in recovered
      ensures Gained(old(Here()), Here(), out)
      ensures old(Truthful(t)) ==> Truthful(t) && AllTrue(out, t, symbolSize)
      ensures old(Bounded(n)) ==> Bounded(n) && forall i :: 0 <= i < |out| ==> out[i].0 < n
    {
      hide Table, Truthful, Bounded, Kept, Apart, Detached, Emitted, Visiting, AllTrue, SourceHolds, Position, Shrunk,
          Extends, Held, Gained;
      NothingGained(Here());
      KnownAt(q, t);
      var src := recovered[q];
      var left := set p | p in pivots && Position(pivots[p].terms, q) < |pivots[p].terms|;
      StartVisit(pivots, recovered.Keys, q, rest, left);
      HoldNothing(t, symbolSize);
      out, news := [], [];
      assert rest + news == rest;
      while left != {}
        invariant Kept() && Table(pivots, symbolSize) && Apart(pivots, recovered.Keys) && q in recovered
        invariant Visiting(pivots, recovered.Keys, rest + news, q, left) && left <= pivots.Keys
        invariant |pivots| + |news| == old(|pivots|) && old(recovered.Keys) <= recovered.Keys
        invariant forall p :: p in news ==> p in recovered
        invariant Gained(old(Here()), Here(), out)
        invariant old(Truthful(t)) ==> Truthful(t) && AllTrue(out, t, symbolSize) && SourceHolds(q, src, t)
        invariant old(Bounded(n)) ==> Bounded(n) && forall i :: 0 <= i < |out| ==> out[i].0 < n
        invariant |src| == symbolSize
        decreases |left|
      {
        var p :| p in left;
        ghost var sofar := Here();
        var more, solved := Visit(p, q, src, rest + news, left, t, n);
        GainedOn(old(Here()), sofar, Here(), out, more);
        HoldBoth(out, more, t, symbolSize);
        Rebracket(rest, news, solved);
        out := out + more;
        news := news + solved;
        left := left - {p};
      }
      EndVisit(pivots, recovered.Keys, rest + news, q);
    }

    lemma Rebracket(a: seq<nat>, b: seq<nat>, c: seq<nat>)
      ensures (a + b) + c == a + (b + c) && forall x :: x in b + c <==> x in b || x in c
    {}

    /** Substitutes a recovered source, then every source this solves, until no row changes. */
    method Cascade(initial: nat, ghost t: Truth, ghost n: nat) returns (out: seq<(nat, seq<byte>)>)
      requires Kept() && Table(pivots, symbolSize) && initial in recovered
      requires Detached(pivots, recovered.Keys, [initial]) && Apart(pivots, recovered.Keys - {initial})
      modifies this`recovered, this`pivots, this`output
      ensures Settled() && Emitted(old(output), output, out) && old(recovered.Keys) <= recovered.Keys
      ensures Extends(old(recovered), recovered) && Held(recovered, out)
      // the rows that are left are those of the sources still unknown, with the columns still unknown
      ensures Reached(old(pivots), pivots, recovered.Keys)
      ensures old(Truthful(t)) ==> Truthful(t) && AllTrue(out, t, symbolSize)
      ensures old(Bounded(n)) ==> Bounded(n) && forall i :: 0 <= i < |out| ==> out[i].0 < n
    {
      hide Table, Truthful, Bounded, Kept, Apart, Detached, Emitted, AllTrue, SourceHolds, Shrunk, Extends, Held,
          Reached,
          Gained;
      out := [];
      NothingGained(Here());
      HoldNothing(t, symbolSize);
      var queue := [initial];
      while queue != []
        invariant Kept() && Table(pivots, symbolSize) && Detached(pivots, recovered.Keys, queue)
        invariant forall p :: p in queue ==> p in recovered
        invariant Apart(pivots, recovered.Keys) || (queue == [initial] && Apart(pivots, recovered.Keys - {initial}))
        invariant queue == [] ==> Apart(pivots, recovered.Keys)
        invariant Gained(old(Here()), Here(), out) && old(recovered.Keys) <= recovered.Keys
        invariant old(Truthful(t)) ==> Truthful(t) && AllTrue(out, t, symbolSize)
        invariant old(Bounded(n)) ==> Bounded(n) && forall i :: 0 <= i < |out| ==> out[i].0 < n
        decreases |pivots| + |queue|
      {
        var q := queue[0];
        ghost var sofar := Here();
        FewerKeys(pivots, recovered.Keys, queue, q);
        DropRow(q, t, n);
        assert queue == [q] + queue[1..];
        GainedByDropping(old(Here()), sofar, out, q);
        ghost var mid := Here();
        var more, news := SubstituteAll(q, queue[1..], t, n);
        GainedOn(old(Here()), mid, Here(), out, more);
        HoldBoth(out, more, t, symbolSize);
        out := out + more;
        queue := queue[1..] + news;
      }
      GainedMeans(old(Here()), Here(), out);
      AllReached(old(pivots), pivots, recovered.Keys);
    }

    /** The recovered sources leave the equation, moving into its data. */
    method DropKnown(terms: seq<Term>, data: seq<byte>, ghost t: Truth) returns (kept: seq<Term>, out: seq<byte>)
      requires Kept() && Proper(terms) && Sorted(terms) && |data| == symbolSize
      ensures Proper(kept) && Sorted(kept) && |out| == symbolSize
      ensures kept == UnknownTerms(terms, recovered.Keys)
      ensures forall q :: Mentions(kept, q) ==> Mentions(terms, q) && q !in recovered
      ensures Truthful(t) ==> (EquationHolds(terms, data, t) <==> EquationHolds(kept, out, t))
    {
      hide Truthful, Moved, MulAcc, Proper, Sorted, Mentions;
      kept, out := [], data;
      MovedNothing(data, t);
      assert terms[..0] == [];
      for i := 0 to |terms|
        invariant |out| == symbolSize && kept == UnknownTerms(terms[..i], recovered.Keys)
        invariant Truthful(t) ==> Moved(data, out, terms[..i], kept, t)
      {
        var x := terms[i];
        assert terms[..i + 1] == terms[..i] + [x];
        assert terms[..i + 1][..i] == terms[..i];
        if x.at in recovered {
          var src := recovered[x.at];
          if Truthful(t) {
            KnownTrue(x.at, t);
            MovedOut(data, out, terms[..i], kept, x, src, t);
          }
          out := MulAcc(x.coeff, src, out);
        } else {
          if Truthful(t) {
            MovedIn(data, out, terms[..i], kept, x, t);
          }
          kept := kept + [x];
        }
      }
      assert terms[..|terms|] == terms;
      UnknownTermsShape(terms, recovered.Keys);
      if Truthful(t) {
        MovedAll(data, out, terms, kept, t);
      }
    }

    lemma KnownTrue(q: nat, t: Truth)
      requires Kept() && q in recovered && Truthful(t)
      ensures |recovered[q]| == symbolSize && forall k :: 0 <= k < symbolSize ==> recovered[q][k] == t(q, k)
    {}

    /** One pass over the pivots the equation names at the start; pivots that rows bring in are not chased. */
    method DropPivots(terms: seq<Term>, data: seq<byte>, ghost t: Truth, ghost n: nat) returns (left: seq<Term>,
          out: seq<byte>)
      requires Settled() && Proper(terms) && Sorted(terms) && |data| == symbolSize
      requires forall q :: Mentions(terms, q) ==> q !in recovered
      ensures Proper(left) && Sorted(left) && |out| == symbolSize
      ensures forall q :: Mentions(left, q) ==> q !in recovered
      ensures left == Remaining(terms, pivots, |terms|)
      ensures Truthful(t) ==> (EquationHolds(terms, data, t) <==> EquationHolds(left, out, t))
      ensures Bounded(n) && (forall q: nat :: Mentions(terms, q) ==> q < n) ==> forall q: nat :: Mentions(left, q) ==>
        q < n
    {
      hide Kept, Table, Detached, Apart, Truthful, Bounded, Mentions, Proper, Sorted, EquationHolds, AddEntries,
          MulAcc, RemoveAt;
      left, out := terms, data;
      for i := 0 to |terms|
        invariant Proper(left) && Sorted(left) && |out| == symbolSize
        invariant left == Remaining(terms, pivots, i)
        invariant forall q :: Mentions(left, q) ==> q !in recovered
        invariant Truthful(t) ==> (EquationHolds(terms, data, t) <==> EquationHolds(left, out, t))
        invariant Bounded(n) && (forall q: nat :: Mentions(terms, q) ==> q < n) ==>
          forall q: nat :: Mentions(left, q) ==> q < n
      {
        var q := terms[i].at;
        if q in pivots {
          var pos := Position(left, q);
          if pos < |left| {
            var row := pivots[q];
            RowFacts(q, t, n);
            RowDetached(q);
            EliminateOrderedShape(left, pos, row);
            if Truthful(t) {
              EliminateOrderedHolds(left, out, pos, row, t);
            }
            left, out := EliminateOrdered(left, out, pos, row);
          }
        }
      }
    }

    lemma RowDetached(p: nat)
      requires Settled() && p in pivots
      ensures forall c :: Mentions(pivots[p].terms, c) ==> c !in recovered
    {
      hide Mentions;
    }

    /** The one unknown left is recovered, and whatever follows from it. */
    method InsertSingle(left: seq<Term>, rest: seq<byte>, ghost t: Truth,
          ghost n: nat) returns (out: seq<(nat, seq<byte>)>)
      requires Settled() && |left| == 1 && Proper(left) && |rest| == symbolSize && left[0].at !in recovered
      modifies this`recovered, this`pivots, this`output
      ensures Settled() && Emitted(old(output), output, out) && old(recovered.Keys) + {left[0].at} <= recovered.Keys
      ensures Held(recovered, out) && left[0].at in recovered
        && recovered[left[0].at] == Scale(Inv(left[0].coeff), rest)
      ensures old(Truthful(t)) && EquationHolds(left, rest, t) ==> Truthful(t) && AllTrue(out, t, symbolSize)
      ensures old(Bounded(n)) && left[0].at < n ==> Bounded(n) && forall i :: 0 <= i < |out| ==> out[i].0 < n
    {
      hide Kept, Table, Detached, Apart, Truthful, Bounded, Mentions, Proper, EquationHolds, Emitted, AllTrue,
          SourceHolds;
      var q, rd := left[0].at, Scale(Inv(left[0].coeff), rest);
      OneTerm(left, rest, t);
      Joining(pivots, recovered.Keys, q);
      OneMore(recovered, q, rd);
      ghost var sofar := output;
      out := PutOut(q, rd, t, n);
      ghost var midway, rec := output, recovered;
      var more := Cascade(q, t, n);
      ExtendsAt(rec, recovered, q);
      HeldMore(rec, recovered, out, more);
      EmittedChain(sofar, midway, output, out, more);
      HoldBoth(out, more, t, symbolSize);
      out := out + more;
    }

    /** Several unknowns become a row on the smallest, divided by its coefficient. */
    method InsertRow(left: seq<Term>, rest: seq<byte>, ghost t: Truth, ghost n: nat)
      requires Settled() && |left| > 1 && Proper(left) && Sorted(left) && |rest| == symbolSize
      requires forall q :: Mentions(left, q) ==> q !in recovered
      modifies this`pivots
      ensures Settled() && left[0].at in pivots && pivots == old(pivots)[left[0].at := pivots[left[0].at]]
      ensures pivots[left[0].at].terms == ScaleTerms(Inv(left[0].coeff), left[1..])
      ensures old(Truthful(t)) && EquationHolds(left, rest, t) ==> Truthful(t)
      ensures old(Bounded(n)) && (forall q: nat :: Mentions(left, q) ==> q < n) ==> Bounded(n)
    {
      hide Kept, Table, Detached, Apart, Truthful, Bounded, Mentions, Proper, Sorted, EquationHolds, RowHolds;
      var inv := Inv(left[0].coeff);
      var row := PivotRow(left[0].at, ScaleTerms(inv, left[1..]), Scale(inv, rest));
      NewRow(left, rest, row, t);
      OneMoreRow(pivots, row);
      SmallestPivot(left, row, symbolSize);
      RowPut(pivots, row.pivot, row, symbolSize, t, n);
      RowJoins(pivots, recovered.Keys, row);
      StoreRow(row, t, n);
    }

    /** Reduces an equation; one unknown left is recovered, more become a row on the smallest. */
    method InsertEquation(terms: seq<Term>, data: seq<byte>, ghost t: Truth,
          ghost n: nat) returns (out: seq<(nat, seq<byte>)>)
      requires Settled() && Proper(terms) && Sorted(terms) && |data| == symbolSize
      modifies this`recovered, this`pivots, this`output
      ensures Settled() && Emitted(old(output), output, out) && old(recovered.Keys) <= recovered.Keys
      ensures Held(recovered, out)
      ensures Progress(UnknownTerms(terms, old(recovered.Keys)), old(recovered), recovered, old(pivots), pivots)
      ensures old(Truthful(t)) && EquationHolds(terms, data, t) ==> Truthful(t) && AllTrue(out, t, symbolSize)
      ensures old(Bounded(n)) && (forall q: nat :: Mentions(terms, q) ==> q < n) ==>
        Bounded(n) && forall i :: 0 <= i < |out| ==> out[i].0 < n
    {
      hide Settled, Truthful, Bounded, Proper, Sorted, EquationHolds, Emitted, AllTrue, UnknownTerms, Remaining, Inv;
      SettledKeeps();
      out := [];
      EmittedNothing<seq<byte>>(output);
      HoldNothing(t, symbolSize);
      var kept, part := DropKnown(terms, data, t);
      var left, rest := DropPivots(kept, part, t, n);
      if |left| == 1 {
        assert Mentions(left, left[0].at);
        out := InsertSingle(left, rest, t, n);
      } else if |left| > 1 {
        InsertRow(left, rest, t, n);
      }
    }

    lemma SettledKeeps()
      requires Settled()
      ensures Kept()
    {}

    method StoreRow(row: PivotRow, ghost t: Truth, ghost n: nat)
      requires Settled() && Table(pivots[row.pivot := row], symbolSize)
      requires Detached(pivots[row.pivot := row], recovered.Keys, []) && Apart(pivots[row.pivot := row], recovered.Keys)
      requires TableHolds(pivots, t) && RowHolds(row, t) ==> TableHolds(pivots[row.pivot := row], t)
      requires TableBelow(pivots, n) && row.pivot < n && (forall c: nat :: Mentions(row.terms, c) ==> c < n) ==>
        TableBelow(pivots[row.pivot := row], n)
      modifies this`pivots
      ensures Settled() && pivots == old(pivots)[row.pivot := row]
      ensures old(Truthful(t)) && RowHolds(row, t) ==> Truthful(t)
      ensures old(Bounded(n)) && row.pivot < n && (forall c: nat :: Mentions(row.terms, c) ==> c < n) ==> Bounded(n)
    {
      hide Table, TableHolds, TableBelow, Detached, Apart, RowHolds, KnownHolds, Mentions;
      pivots := pivots[row.pivot := row];
    }

    /** Records the symbol in its duplicate filter; the source bitmap may refuse to record a new seq. */
    method NoteSeen(sym: WireSymbol) returns (isNew: bool)
      modifies this`srcSeen, this`repairsSeen
      ensures isNew ==
        if sym.isRepair then (sym.blockId, sym.payloadId) !in old(repairsSeen) else sym.blockId !in old(srcSeen)
      ensures old(srcSeen) <= srcSeen <= old(srcSeen) + (if sym.isRepair then {} else {sym.blockId})
      ensures repairsSeen == old(repairsSeen) + (if sym.isRepair then {(sym.blockId, sym.payloadId)} else {})
    {
      if sym.isRepair {
        isNew := (sym.blockId, sym.payloadId) !in repairsSeen;
        repairsSeen := repairsSeen + {(sym.blockId, sym.payloadId)};
      } else {
        isNew := sym.blockId !in srcSeen;
        var recorded: bool := *;
        if recorded {
          srcSeen := srcSeen + {sym.blockId};
        }
      }
    }

    method AddSource(q: nat, data: seq<byte>, ghost t: Truth, ghost n: nat) returns (out: seq<(nat, seq<byte>)>)
      requires Settled() && |data| == symbolSize
      modifies this`recovered, this`pivots, this`output
      ensures Settled() && Emitted(old(output), output, out) && old(recovered.Keys) + {q} <= recovered.Keys
      ensures Held(recovered, out) && recovered[q] == data
      ensures q !in old(output) ==> out != [] && out[0] == (q, data)
      ensures old(Truthful(t)) && SourceHolds(q, data, t) ==> Truthful(t) && AllTrue(out, t, symbolSize)
      ensures old(Bounded(n)) && q < n ==> Bounded(n) && forall i :: 0 <= i < |out| ==> out[i].0 < n
    {
      hide Kept, Table, Detached, Apart, Truthful, Bounded, Emitted, AllTrue, SourceHolds;
      Joining(pivots, recovered.Keys, q);
      OneMore(recovered, q, data);
      ghost var sofar := output;
      out := PutOut(q, data, t, n);
      ghost var midway, rec := output, recovered;
      var more := Cascade(q, t, n);
      ExtendsAt(rec, recovered, q);
      HeldMore(rec, recovered, out, more);
      EmittedChain(sofar, midway, output, out, more);
      HoldBoth(out, more, t, symbolSize);
      out := out + more;
    }

    method AddRepair(h: RepairWire, ghost t: Truth, ghost n: nat) returns (out: seq<(nat, seq<byte>)>)
      requires Settled()
      modifies this`recovered, this`pivots, this`output, this`repairsUseful
      ensures Settled() && Emitted(old(output), output, out) && old(recovered.Keys) <= recovered.Keys
      ensures Held(recovered, out)
      ensures Progress(UnknownTerms(RepairTerms(h), old(recovered.Keys)), old(recovered), recovered, old(pivots),
          pivots)
      ensures old(Truthful(t)) && RepairHolds(h.start, h.count, h.index, Pad(h.coded, symbolSize), t) ==>
        Truthful(t) && AllTrue(out, t, symbolSize)
      ensures old(Bounded(n)) && h.start + h.count <= n ==> Bounded(n) && forall i :: 0 <= i < |out| ==> out[i].0 < n
    {
      hide Settled, Truthful, Bounded, Proper, Sorted, Mentions, EquationHolds, Emitted, AllTrue, UnknownTerms,
          Progress, CoefficientStream.WindowCoefficients;
      var coeffs := CoefficientStream.GenerateWindowCoefficients(h.start, h.count, h.index);
      var terms := [];
      for i := 0 to h.count
        invariant terms == WindowTerms(h.start, coeffs)[..i]
        invariant recovered == old(recovered) && pivots == old(pivots) && output == old(output)
      {
        terms := terms + [Term(h.start + i, coeffs[i])];
      }
      WindowTermsShape(h.start, coeffs);
      WindowTermsSorted(h.start, coeffs);
      out := InsertEquation(terms, Pad(h.coded, symbolSize), t, n);
      if out != [] {
        repairsUseful := repairsUseful + 1;
      }
    }

    /** Decodes a symbol without regard to the floor. */
    method AddSymbolInner(sym: WireSymbol, ghost t: Truth, ghost n: nat) returns (out: seq<(nat, seq<byte>)>)
      requires Settled()
      modifies this`recovered, this`pivots, this`output, this`srcSeen, this`repairsSeen, this`totalFed,
          this`repairsFed, this`repairsUseful
      ensures Settled() && Emitted(old(output), output, out) && old(recovered.Keys) <= recovered.Keys
      ensures Held(recovered, out)
      ensures old(Truthful(t)) && SymbolTrue(sym, symbolSize, t) ==> Truthful(t) && AllTrue(out, t, symbolSize)
      ensures old(Bounded(n)) && SymbolBelow(sym, n) ==> Bounded(n) && forall i :: 0 <= i < |out| ==> out[i].0 < n
      ensures NewSource(sym, old(srcSeen), old(output)) ==>
        out != [] && out[0] == (sym.blockId, Pad(sym.data, symbolSize))
      ensures NewRepair(sym, old(repairsSeen)) ==>
        Progress(UnknownTerms(RepairTerms(ReadRepair(sym.data).value), old(recovered.Keys)), old(recovered), recovered,
            old(pivots), pivots)
    {
      hide Settled, Truthful, Bounded, Emitted, AllTrue, UnknownTerms, Progress, RepairTerms, RepairHolds,
          SourceHolds, ReadRepair, Pad;
      out := [];
      EmittedNothing<seq<byte>>(output);
      HoldNothing(t, symbolSize);
      if sym.backend != Rlc {
        return;
      }
      var isNew := NoteSeen(sym);
      if !isNew {
        return;
      }
      totalFed := totalFed + 1;
      if !sym.isRepair {
        out := AddSource(sym.blockId, Pad(sym.data, symbolSize), t, n);
        return;
      }
      if |sym.data| >= HEADER {
        repairsFed := repairsFed + 1;
      }
      var h := ReadRepair(sym.data);
      if h.Some? {
        out := AddRepair(h.value, t, n);
      }
    }

    /** Feeds a symbol: every seq is returned at most once ever, and never one below the floor. */
    method AddSymbol(sym: WireSymbol, ghost t: Truth, ghost n: nat) returns (out: seq<(nat, seq<byte>)>)
      requires Valid()
      modifies this`recovered, this`pivots, this`output, this`srcSeen, this`repairsSeen, this`totalFed,
          this`repairsFed, this`repairsUseful, this`returned
      ensures Valid()
      ensures Emitted(old(returned), returned, out) && forall i :: 0 <= i < |out| ==> out[i].0 >= floor
      // whatever was recovered at or above the floor is returned, with what was recovered
      ensures forall q: nat :: q in recovered && q !in old(recovered) && q >= floor ==> q in Seqs(out)
      ensures Held(recovered, out)
      ensures old(Truthful(t)) && SymbolTrue(sym, symbolSize, t) ==> Truthful(t) && AllTrue(out, t, symbolSize)
      ensures old(Bounded(n)) && SymbolBelow(sym, n) ==> Bounded(n) && forall i :: 0 <= i < |out| ==> out[i].0 < n
      ensures NewSource(sym, old(srcSeen), old(output)) && sym.blockId >= floor ==>
        out != [] && out[0] == (sym.blockId, Pad(sym.data, symbolSize))
      ensures NewRepair(sym, old(repairsSeen)) ==>
        Progress(UnknownTerms(RepairTerms(ReadRepair(sym.data).value), old(recovered.Keys)), old(recovered), recovered,
            old(pivots), pivots)
    {
      hide Settled, Truthful, Bounded, Emitted, AllTrue, UnknownTerms, Progress, RepairTerms, SymbolTrue,
          SymbolBelow, ReadRepair, Pad, Seqs;
      EmittedNothing<seq<byte>>(returned);
      HoldNothing(t, symbolSize);
      out := [];
      if !sym.isRepair && sym.blockId < floor {
        return;
      }
      ghost var sofar := output;
      OutputIsRecovered();
      var all := AddSymbolInner(sym, t, n);
      out := AtLeast(all, floor);
      AtLeastEmitted(all, floor, sofar, output, returned, t, n, symbolSize);
      AtLeastHeld(all, floor, recovered);
      OutputIsRecovered();
      returned := returned + Seqs(out);
    }

    /** Raises the floor and forgets everything below it. */
    method Advance(oldest: nat)
      requires Valid()
      modifies this`recovered, this`pivots, this`output, this`srcSeen, this`repairsSeen, this`floor
      ensures Valid() && floor == (if old(floor) >= oldest then old(floor) else oldest)
      ensures recovered == FromFloor(old(recovered), floor) && pivots == FromFloor(old(pivots), floor)
      ensures output == (set q | q in old(output) && q >= floor) && srcSeen == (set q | q in old(srcSeen) && q >= floor)
      ensures repairsSeen == set k | k in old(repairsSeen) && k.0 >= floor
      ensures NothingBelow()
      ensures forall t: Truth :: old(Truthful(t)) ==> Truthful(t)
      ensures forall n: nat :: old(Bounded(n)) ==> Bounded(n)
    {
      hide Table, TableHolds, TableBelow, Apart, Detached, KnownHolds, Mentions, FromFloor;
      ghost var rec, ps := recovered, pivots;
      floor := if floor >= oldest then floor else oldest;
      recovered := FromFloor(recovered, floor);
      output := set q | q in output && q >= floor;
      pivots := FromFloor(pivots, floor);
      srcSeen := set q | q in srcSeen && q >= floor;
      repairsSeen := set k | k in repairsSeen && k.0 >= floor;
      HeldAbove(rec, floor);
      HeldAbove(ps, floor);
      FloorKeeps(rec, ps, symbolSize, floor);
      ColumnsAbove(pivots, symbolSize, floor);
    }

    /** No recovered, put-out, seen or pivot key, and no column of any row, lies below the floor. */
    ghost predicate NothingBelow()
      reads this`recovered, this`pivots, this`output, this`srcSeen, this`repairsSeen, this`floor
    {
      && (forall q: nat :: q in recovered || q in output || q in srcSeen || q in pivots ==> q >= floor)
      && (forall k :: k in repairsSeen ==> k.0 >= floor)
      && (forall p: nat, c: nat :: p in pivots && Mentions(pivots[p].terms, c) ==> c >= floor)
    }

    /** Solved sources plus unresolved rows in a span: never more than the span has sources. */
    function RankIn(start: nat, count: nat): nat
      reads this`recovered, this`pivots
    {
      |set q | q in recovered && start <= q < start + count| + |set q | q in pivots && start <= q < start + count|
    }

    lemma RankIsBounded(start: nat, count: nat)
      requires Valid()
      ensures RankIn(start, count) <= count
    {
      hide Kept, Table, Detached;
      var a := set q | q in recovered && start <= q < start + count;
      var b := set q | q in pivots && start <= q < start + count;
      assert a !! b;
      assert |a + b| == |a| + |b|;
      SpanSize(a + b, start, count);
    }
  }

  lemma {:induction false} SpanSize(s: set<nat>, start: nat, count: nat)
    requires forall q :: q in s ==> start <= q < start + count
    ensures |s| <= count
  {
    if count > 0 {
      var last := start + count - 1;
      SpanSize(s - {last}, start, count - 1);
    } else {
      assert s == {};
    }
  }

  function FromFloor<T>(m: map<nat, T>, floor: nat): map<nat, T> {
    map q | q in m && q >= floor :: m[q]
  }

  /** Dropping low keys keeps every fact about what remains. */
  lemma FloorKeeps(rec: map<nat, seq<byte>>, ps: map<nat, PivotRow>, size: nat, floor: nat)
    requires Table(ps, size) && Detached(ps, rec.Keys, []) && Apart(ps, rec.Keys)
    ensures Table(FromFloor(ps, floor), size)
    ensures Detached(FromFloor(ps, floor), FromFloor(rec, floor).Keys, [])
      && Apart(FromFloor(ps, floor), FromFloor(rec, floor).Keys)
    ensures forall t: Truth :: KnownHolds(rec, t) && TableHolds(ps, t) ==>
      KnownHolds(FromFloor(rec, floor), t) && TableHolds(FromFloor(ps, floor), t)
    ensures forall n: nat :: TableBelow(ps, n) ==> TableBelow(FromFloor(ps, floor), n)
  {
    hide RowShape, RowHolds, SourceHolds, Mentions;
  }

  lemma HeldAbove<T>(m: map<nat, T>, floor: nat)
    ensures FromFloor(m, floor).Keys == set q | q in m.Keys && q >= floor
    ensures forall q :: q in FromFloor(m, floor) ==> q >= floor && q in m && FromFloor(m, floor)[q] == m[q]
  {}

  lemma ColumnsAbove(ps: map<nat, PivotRow>, size: nat, floor: nat)
    requires Table(ps, size) && forall p: nat :: p in ps ==> p >= floor
    ensures forall p: nat, c: nat :: p in ps && Mentions(ps[p].terms, c) ==> c >= floor
  {
    hide Mentions;
  }

  lemma WindowTermsSorted(start: nat, coeffs: seq<byte>)
    ensures Sorted(WindowTerms(start, coeffs))
  {}

  // ---- symbols

  datatype RepairWire = RepairWire(start: nat, count: nat, index: nat, coded: seq<byte>)

  /** A repair's window, index and coded bytes; nothing when it is too short or covers no source. */
  function ReadRepair(data: seq<byte>): (r: Option<RepairWire>)
    ensures r.Some? ==> r.value.count > 0
  {
    if |data| < HEADER then None else
      var count := FromLe(data[8..10]);
      if count == 0 then None else Some(RepairWire(FromLe(data[0..8]), count, FromLe(data[10..14]), data[14..]))
  }

  function RepairTerms(h: RepairWire): seq<Term> {
    WindowTerms(h.start, CoefficientStream.WindowCoefficients(h.start, h.count, h.index))
  }

  /** A repair that passes the duplicate filter and parses. */
  predicate NewRepair(sym: WireSymbol, repairsSeen: set<(nat, nat)>) {
    && sym.backend == Rlc && sym.isRepair && (sym.blockId, sym.payloadId) !in repairsSeen
    && ReadRepair(sym.data).Some?
  }

  /** A source that passes the duplicate filter and was not put out before. */
  predicate NewSource(sym: WireSymbol, srcSeen: set<nat>, output: set<nat>) {
    sym.backend == Rlc && !sym.isRepair && sym.blockId !in srcSeen && sym.blockId !in output
  }

  /** What a symbol says of the true sources. */
  ghost predicate SymbolTrue(sym: WireSymbol, size: nat, t: Truth) {
    if !sym.isRepair then SourceHolds(sym.blockId, Pad(sym.data, size), t)
    else
      var h := ReadRepair(sym.data);
      h.Some? ==> RepairHolds(h.value.start, h.value.count, h.value.index, Pad(h.value.coded, size), t)
  }

  ghost predicate SymbolBelow(sym: WireSymbol, n: nat) {
    if !sym.isRepair then sym.blockId < n
    else ReadRepair(sym.data).Some? ==> ReadRepair(sym.data).value.start + ReadRepair(sym.data).value.count <= n
  }

  lemma AtLeastEmitted(all: seq<(nat, seq<byte>)>, floor: nat, before: set<nat>, after: set<nat>, returned: set<nat>,
        t: Truth, n: nat, size: nat)
    requires Emitted(before, after, all) && forall q :: q >= floor ==> (q in returned <==> q in before)
    ensures var out := AtLeast(all, floor);
      && Emitted(returned, returned + Seqs(out), out)
      && (forall i :: 0 <= i < |out| ==> out[i].0 >= floor)
      && (forall q :: q >= floor ==> (q in returned + Seqs(out) <==> q in after))
      && (forall q :: q in after && q !in before && q >= floor ==> q in Seqs(out))
      && (AllTrue(all, t, size) ==> AllTrue(out, t, size))
      && ((forall i :: 0 <= i < |all| ==> all[i].0 < n) ==> forall i :: 0 <= i < |out| ==> out[i].0 < n)
      && (all != [] && all[0].0 >= floor ==> out != [] && out[0] == all[0])
  {
    hide SourceHolds, AtLeast, AllTrue;
    AtLeastMembers(all, floor);
    AtLeastHolds(all, floor, t, n, size);
    assert Unrepeated(all);
    AtLeastUnrepeated(all, floor);
    var out := AtLeast(all, floor);
    forall i | 0 <= i < |out|
      ensures out[i].0 !in before && out[i].0 in after && out[i].0 >= floor
    {
      assert out[i] in out;
      var j :| 0 <= j < |all| && all[j] == out[i];
      assert all[j].0 in Seqs(all);
    }
  }

  lemma AtLeastHeld(all: seq<(nat, seq<byte>)>, floor: nat, recovered: map<nat, seq<byte>>)
    requires Held(recovered, all)
    ensures Held(recovered, AtLeast(all, floor))
  {
    AtLeastMembers(all, floor);
    forall i | 0 <= i < |AtLeast(all, floor)|
      ensures AtLeast(all, floor)[i] in all
    {}
  }

  lemma AtLeastHolds(all: seq<(nat, seq<byte>)>, floor: nat, t: Truth, n: nat, size: nat)
    ensures AllTrue(all, t, size) ==> AllTrue(AtLeast(all, floor), t, size)
    ensures (forall i :: 0 <= i < |all| ==> all[i].0 < n) ==> forall i :: 0 <= i < |AtLeast(all, floor)| ==>
      AtLeast(all, floor)[i].0 < n
  {
    hide SourceHolds, AtLeast;
    AtLeastMembers(all, floor);
    var out := AtLeast(all, floor);
    forall i | 0 <= i < |out|
      ensures exists j :: 0 <= j < |all| && all[j] == out[i]
    {
      assert out[i] in out;
    }
  }

  /**
   * What an equation with these unknown sources leads to: when the rows at hand leave nothing of it, nothing changes;
   * one unknown is recovered; several become one row on the smallest, scaled to coefficient one there.
   */
  ghost predicate Progress(unknown: seq<Term>, rec0: map<nat, seq<byte>>, rec1: map<nat, seq<byte>>,
        ps0: map<nat, PivotRow>, ps1: map<nat, PivotRow>) {
    var left := Remaining(unknown, ps0, |unknown|);
    if left == [] then rec1 == rec0 && ps1 == ps0
    else if |left| == 1 then left[0].at in rec1 && rec0.Keys <= rec1.Keys
    else
      && rec1 == rec0 && left[0].at in ps1 && ps1 == ps0[left[0].at := ps1[left[0].at]]
      && ps1[left[0].at].terms == ScaleTerms(Inv(left[0].coeff), left[1..])
  }

  // ---- what a substitution leaves of the rows

  /** Rows only go when their pivot is known, and columns only when their source is. */
  ghost predicate Shrunk(before: map<nat, PivotRow>, after: map<nat, PivotRow>, known: set<nat>) {
    && (forall p: nat :: p in after ==> p in before)
    && (forall p: nat :: p in before ==> p in after || p in known)
    && (forall p: nat, c: nat :: p in after && Mentions(after[p].terms, c) ==> Mentions(before[p].terms, c))
    && (forall p: nat, c: nat :: p in after && Mentions(before[p].terms, c) ==>
         Mentions(after[p].terms, c) || c in known)
  }

  /** The rows of unknown sources, each with its unknown columns. */
  ghost predicate Reached(before: map<nat, PivotRow>, after: map<nat, PivotRow>, known: set<nat>) {
    && after.Keys == before.Keys - known
    && forall p: nat, c: nat :: p in after && p in before ==>
         (Mentions(after[p].terms, c) <==> Mentions(before[p].terms, c) && c !in known)
  }

  lemma AllReached(before: map<nat, PivotRow>, after: map<nat, PivotRow>, known: set<nat>)
    requires Shrunk(before, after, known) && Detached(after, known, []) && Apart(after, known)
    ensures Reached(before, after, known)
  {
    hide Mentions;
  }

  /** What a decoder holds. */
  datatype Holding = Holding(output: set<nat>, recovered: map<nat, seq<byte>>, pivots: map<nat, PivotRow>)

  /** What was put out is now held, nothing held is lost or changed, and rows only shrank. */
  ghost predicate Gained(a: Holding, b: Holding, out: seq<(nat, seq<byte>)>) {
    && Emitted(a.output, b.output, out) && Extends(a.recovered, b.recovered) && Held(b.recovered, out)
    && Shrunk(a.pivots, b.pivots, b.recovered.Keys)
  }

  lemma GainedMeans(a: Holding, b: Holding, out: seq<(nat, seq<byte>)>)
    requires Gained(a, b, out)
    ensures Emitted(a.output, b.output, out) && Extends(a.recovered, b.recovered) && Held(b.recovered, out)
    ensures Shrunk(a.pivots, b.pivots, b.recovered.Keys)
  {}

  lemma NothingGained(a: Holding)
    ensures Gained(a, a, [])
  {
    hide Shrunk;
    NothingShrunk(a.pivots, a.recovered.Keys);
    EmittedNothing<seq<byte>>(a.output);
  }

  lemma GainedOn(a: Holding, b: Holding, c: Holding, out: seq<(nat, seq<byte>)>, more: seq<(nat, seq<byte>)>)
    requires Gained(a, b, out) && Gained(b, c, more)
    ensures Gained(a, c, out + more)
  {
    hide Shrunk, Emitted;
    HeldMore(b.recovered, c.recovered, out, more);
    ShrunkOn(a.pivots, b.pivots, c.pivots, b.recovered.Keys, c.recovered.Keys);
    EmittedChain(a.output, b.output, c.output, out, more);
  }

  lemma GainedByDropping(a: Holding, b: Holding, out: seq<(nat, seq<byte>)>, q: nat)
    requires Gained(a, b, out) && q in b.recovered
    ensures Gained(a, b.(pivots := b.pivots - {q}), out)
  {
    hide Shrunk, Emitted, Extends, Held;
    ShrunkByDropping(b.pivots, b.recovered.Keys, q);
    ShrunkOn(a.pivots, b.pivots, b.pivots - {q}, b.recovered.Keys, b.recovered.Keys);
  }

  lemma NothingShrunk(ps: map<nat, PivotRow>, known: set<nat>)
    ensures Shrunk(ps, ps, known)
  {
    hide Mentions;
  }

  lemma ShrunkOn(a: map<nat, PivotRow>, b: map<nat, PivotRow>, c: map<nat, PivotRow>, known: set<nat>, more: set<nat>)
    requires Shrunk(a, b, known) && Shrunk(b, c, more) && known <= more
    ensures Shrunk(a, c, more)
  {
    hide Mentions;
    forall p: nat | p in a && p !in c
      ensures p in more
    {
      assert p in b || p in known;
    }
    forall p: nat, d: nat | p in c && p in a
      ensures Mentions(c[p].terms, d) ==> Mentions(a[p].terms, d)
      ensures Mentions(a[p].terms, d) ==> Mentions(c[p].terms, d) || d in more
    {
      assert p in b;
    }
  }

  lemma ShrunkByDropping(ps: map<nat, PivotRow>, known: set<nat>, q: nat)
    requires q in known
    ensures Shrunk(ps, ps - {q}, known)
  {
    hide Mentions;
  }

  lemma ShrunkBySolving(ps: map<nat, PivotRow>, known: set<nat>, p: nat)
    ensures Shrunk(ps, ps - {p}, known + {p})
  {
    hide Mentions;
  }

  lemma ShrunkByReducing(ps: map<nat, PivotRow>, known: set<nat>, p: nat, q: nat, pos: nat, src: seq<byte>)
    requires p in ps && q in known && pos < |ps[p].terms| && ps[p].terms[pos].at == q && Proper(ps[p].terms)
    requires |src| == |ps[p].data|
    ensures Shrunk(ps, ps[p := Reduced(ps[p], pos, src)], known)
  {
    OnlyOneLeaves(ps[p].terms, q, pos);
    hide Mentions;
  }

  lemma OnlyOneLeaves(ts: seq<Term>, q: nat, pos: nat)
    requires Proper(ts) && pos < |ts| && ts[pos].at == q
    ensures forall c :: c != q && Mentions(ts, c) ==> Mentions(Without(ts, q), c)
    ensures forall c :: Mentions(Without(ts, q), c) ==> Mentions(ts, c)
  {
    WithoutIsRemoveAt(ts, q, pos);
    WithoutMentions(ts, q, pos);
    forall c | c != q && Mentions(ts, c)
      ensures Mentions(RemoveAt(ts, pos), c)
    {
      var j :| 0 <= j < |ts| && ts[j].at == c;
      assert RemoveAt(ts, pos)[if j < pos then j else j - 1].at == c;
    }
  }

  lemma NothingExtended(rec: map<nat, seq<byte>>)
    ensures Extends(rec, rec) && Held(rec, [])
  {}

  lemma ExtendsAt(a: map<nat, seq<byte>>, b: map<nat, seq<byte>>, q: nat)
    requires Extends(a, b) && q in a
    ensures q in b && b[q] == a[q]
  {}

  lemma ApartAt(ps: map<nat, PivotRow>, known: set<nat>, p: nat)
    requires Apart(ps, known) && p in ps
    ensures p !in known
  {}

  lemma FewerKeys(ps: map<nat, PivotRow>, known: set<nat>, waiting: seq<nat>, q: nat)
    requires Detached(ps, known, waiting)
    ensures Detached(ps - {q}, known, waiting)
    ensures Apart(ps, known) || Apart(ps, known - {q}) ==> Apart(ps - {q}, known)
    ensures |ps - {q}| <= |ps|
  {
    hide Mentions;
    assert (ps - {q}).Keys == ps.Keys - {q};
  }

  lemma Joining(ps: map<nat, PivotRow>, known: set<nat>, q: nat)
    requires Detached(ps, known, []) && Apart(ps, known)
    ensures Detached(ps, known + {q}, [q]) && Apart(ps, (known + {q}) - {q})
  {
    hide Mentions;
  }

  lemma RowJoins(ps: map<nat, PivotRow>, known: set<nat>, row: PivotRow)
    requires Detached(ps, known, []) && Apart(ps, known) && row.pivot !in known
    requires forall c :: Mentions(row.terms, c) ==> c !in known
    ensures Detached(ps[row.pivot := row], known, []) && Apart(ps[row.pivot := row], known)
  {
    hide Mentions;
  }

  lemma OneMoreRow(ps: map<nat, PivotRow>, row: PivotRow)
    ensures ps[row.pivot := row].Keys == ps.Keys + {row.pivot}
  {}

  /** The first entry is the smallest, so the new row's pivot lies below all its columns. */
  lemma SmallestPivot(left: seq<Term>, row: PivotRow, size: nat)
    requires |left| > 1 && Sorted(left) && |row.data| == size
    requires row.pivot == left[0].at && row.terms == ScaleTerms(Inv(left[0].coeff), left[1..]) && Proper(row.terms)
      && row.terms != []
    ensures RowShape(row.pivot, row, size)
  {
    hide Inv, Mul;
    assert forall i :: 0 <= i < |row.terms| ==> row.terms[i].at == left[i + 1].at;
  }

  lemma OneFewer(ps: map<nat, PivotRow>, p: nat)
    requires p in ps
    ensures |ps - {p}| + 1 == |ps|
  {
    assert (ps - {p}).Keys == ps.Keys - {p};
  }

  lemma OneMore(rec: map<nat, seq<byte>>, q: nat, data: seq<byte>)
    ensures rec[q := data].Keys == rec.Keys + {q}
  {}

  lemma StartVisit(ps: map<nat, PivotRow>, known: set<nat>, q: nat, rest: seq<nat>, left: set<nat>)
    requires Detached(ps, known, [q] + rest)
    requires forall p: nat :: p in left <==> p in ps && Position(ps[p].terms, q) < |ps[p].terms|
    ensures Visiting(ps, known, rest, q, left)
  {
    hide Mentions;
  }

  lemma EndVisit(ps: map<nat, PivotRow>, known: set<nat>, waiting: seq<nat>, q: nat)
    requires Visiting(ps, known, waiting, q, {})
    ensures Detached(ps, known, waiting)
  {}

  lemma ReducedTrue(row: PivotRow, pos: nat, src: seq<byte>, t: Truth)
    requires pos < |row.terms| && |src| == |row.data| && Proper(row.terms) && SourceHolds(row.terms[pos].at, src, t)
    ensures RowHolds(Reduced(row, pos, src), t) <==> RowHolds(row, t)
  {
    ReducedHolds(row, pos, src, t);
  }

  lemma SolvedTrue(r: PivotRow, t: Truth)
    requires r.terms == []
    ensures RowHolds(r, t) <==> SourceHolds(r.pivot, r.data, t)
  {
    SolvedRowIsTrue(r, t);
  }

  lemma HoldOne(q: nat, data: seq<byte>, t: Truth)
    ensures SourceHolds(q, data, t) ==> AllTrue([(q, data)], t, |data|)
  {}

  lemma HoldBoth(a: seq<(nat, seq<byte>)>, b: seq<(nat, seq<byte>)>, t: Truth, size: nat)
    ensures AllTrue(a, t, size) && AllTrue(b, t, size) ==> AllTrue(a + b, t, size)
  {
    hide SourceHolds;
  }

  lemma HoldNothing(t: Truth, size: nat)
    ensures AllTrue([], t, size)
  {}
}
