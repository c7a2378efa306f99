/**
 * The simplified sliding-window codec of the simulator: one window to encode from, one list of pivot rows to decode
 * with.
 */
module SimpleRlc {
  import opened Gf256
  import opened Linear
  import opened TermLists
  import CoefficientStream
  import Wire

  datatype PivotRow = PivotRow(pivot: nat, terms: seq<Term>, data: seq<byte>)

  ghost predicate RowHolds(r: PivotRow, t: Truth) {
    forall k :: 0 <= k < |r.data| ==> r.data[k] == Add(t(r.pivot, k), TermSum(r.terms, t, k))
  }

  /** The new row's pivot is not an earlier pivot, and the row mentions neither those nor its own. */
  ghost predicate Joins(ps: seq<PivotRow>, r: PivotRow) {
    && Proper(r.terms) && !Mentions(r.terms, r.pivot)
    && (forall p :: p in ps ==> p.pivot != r.pivot && !Mentions(r.terms, p.pivot))
  }

  /** In insertion order, every row avoids all earlier pivots. */
  ghost predicate Triangular(ps: seq<PivotRow>) {
    ps != [] ==> Triangular(ps[..|ps| - 1]) && Joins(ps[..|ps| - 1], ps[|ps| - 1])
  }

  lemma TriangularSnoc(ps: seq<PivotRow>, r: PivotRow)
    requires Triangular(ps) && Joins(ps, r)
    ensures Triangular(ps + [r])
  {
    hide Joins;
    assert (ps + [r])[..|ps|] == ps;
  }

  lemma {:induction false} TriangularAt(ps: seq<PivotRow>, i: nat, j: nat)
    requires Triangular(ps) && i <= j < |ps|
    ensures !Mentions(ps[j].terms, ps[i].pivot) && Proper(ps[j].terms)
    ensures i < j ==> ps[i].pivot != ps[j].pivot
  {
    hide Proper, Mentions;
    if j < |ps| - 1 {
      TriangularAt(ps[..|ps| - 1], i, j);
    } else if i < j {
      assert ps[i] in ps[..|ps| - 1];
    }
  }

  /** Keeps the rows whose pivot is not q, in order. */
  function DropPivot(ps: seq<PivotRow>, q: nat): (r: seq<PivotRow>)
    ensures |r| <= |ps|
  {
    if ps == [] then []
    else DropPivot(ps[..|ps| - 1], q) + (if ps[|ps| - 1].pivot == q then [] else [ps[|ps| - 1]])
  }

  lemma {:induction false} DropPivotMembers(ps: seq<PivotRow>, q: nat)
    ensures forall r :: r in DropPivot(ps, q) <==> r in ps && r.pivot != q
    ensures (exists r :: r in ps && r.pivot == q) ==> |DropPivot(ps, q)| < |ps|
  {
    if ps != [] {
      var init, last := ps[..|ps| - 1], ps[|ps| - 1];
      DropPivotMembers(init, q);
      assert ps == init + [last];
      assert DropPivot(ps, q) == if last.pivot == q then DropPivot(init, q) else DropPivot(init, q) + [last];
    }
  }

  lemma FitsFewer(ps: seq<PivotRow>, fewer: seq<PivotRow>, r: PivotRow)
    requires Joins(ps, r) && forall p :: p in fewer ==> p in ps
    ensures Joins(fewer, r)
  {}

  lemma {:induction false} DropPivotTriangular(ps: seq<PivotRow>, q: nat)
    requires Triangular(ps)
    ensures Triangular(DropPivot(ps, q))
  {
    hide Joins;
    if ps != [] {
      var init, last := ps[..|ps| - 1], ps[|ps| - 1];
      DropPivotTriangular(init, q);
      DropPivotMembers(init, q);
      var d := DropPivot(init, q);
      if last.pivot == q {
        assert DropPivot(ps, q) == d;
      } else {
        assert DropPivot(ps, q) == d + [last];
        FitsFewer(init, d, last);
        TriangularSnoc(d, last);
      }
    }
  }

  lemma {:induction false} TriangularUpdate(ps: seq<PivotRow>, i: nat, r: PivotRow)
    requires Triangular(ps) && i < |ps| && r.pivot == ps[i].pivot && Proper(r.terms)
    requires forall q :: Mentions(r.terms, q) ==> Mentions(ps[i].terms, q)
    ensures Triangular(ps[i := r])
  {
    hide Mentions, Proper;
    var init, last := ps[..|ps| - 1], ps[|ps| - 1];
    if i == |ps| - 1 {
      assert ps[i := r] == init + [r];
      TriangularSnoc(init, r);
    } else {
      TriangularUpdate(init, i, r);
      assert ps[i := r] == init[i := r] + [last];
      forall p | p in init[i := r]
        ensures p.pivot != last.pivot && !Mentions(last.terms, p.pivot)
      {
        assert init[i] in init;
      }
      TriangularSnoc(init[i := r], last);
    }
  }

  // ---- rows and single sources

  /** A row with one known source substituted. */
  function Reduced(r: PivotRow, pos: nat, src: seq<byte>): PivotRow
    requires pos < |r.terms| && |src| == |r.data|
  {
    PivotRow(r.pivot, Without(r.terms, r.terms[pos].at), MulAcc(r.terms[pos].coeff, src, r.data))
  }

  /** Substituting a true source neither adds nor loses information. */
  lemma ReducedHolds(r: PivotRow, pos: nat, src: seq<byte>, t: Truth)
    requires pos < |r.terms| && |src| == |r.data| && Proper(r.terms)
    requires forall k :: 0 <= k < |src| ==> src[k] == t(r.terms[pos].at, k)
    ensures RowHolds(Reduced(r, pos, src), t) <==> RowHolds(r, t)
  {
    hide Add, Mul, TermSum, Proper;
    var x, o := r.terms[pos], Reduced(r, pos, src);
    forall k | 0 <= k < |o.data|
      ensures o.data[k] == Add(t(o.pivot, k), TermSum(o.terms, t, k)) <==>
        r.data[k] == Add(t(r.pivot, k), TermSum(r.terms, t, k))
    {
      var m := Mul(x.coeff, t(x.at, k));
      WithoutIsRemoveAt(r.terms, x.at, pos);
      RemoveSum(r.terms, pos, t, k);
      AddLaws(t(r.pivot, k), TermSum(r.terms, t, k), m);
      SameAdded(r.data[k], Add(t(r.pivot, k), TermSum(r.terms, t, k)), m);
    }
  }

  lemma SameAdded(x: byte, y: byte, m: byte)
    ensures Add(x, m) == Add(y, m) <==> x == y
  {}

  /** One pivot row eliminated from an equation at the place that holds its pivot. */
  method Eliminate(terms: seq<Term>, data: seq<byte>, pos: nat, row: PivotRow)
    returns (outTerms: seq<Term>, outData: seq<byte>)
    requires Proper(terms) && pos < |terms| && terms[pos].at == row.pivot && |row.data| == |data|
    ensures outTerms == AddScaled(RemoveAt(terms, pos), terms[pos].coeff, row.terms)
    ensures outData == MulAcc(terms[pos].coeff, row.data, data)
  {
    hide Mul, Accumulate, Proper;
    var coeff := terms[pos].coeff;
    outTerms := RemoveAt(terms, pos);
    outData := MulAcc(coeff, row.data, data);
    for i := 0 to |row.terms|
      invariant outTerms == AddScaled(RemoveAt(terms, pos), coeff, row.terms[..i])
    {
      assert row.terms[..i + 1][..i] == row.terms[..i];
      outTerms := Accumulate(outTerms, row.terms[i].at, Mul(coeff, row.terms[i].coeff));
    }
    assert row.terms[..|row.terms|] == row.terms;
  }

  lemma EliminateShape(terms: seq<Term>, pos: nat, row: PivotRow)
    requires Proper(terms) && pos < |terms| && terms[pos].at == row.pivot && !Mentions(row.terms, row.pivot)
    ensures var r := AddScaled(RemoveAt(terms, pos), terms[pos].coeff, row.terms);
      Proper(r) && !Mentions(r, row.pivot) && forall q :: Mentions(r, q) ==>
        Mentions(terms, q) || Mentions(row.terms, q)
  {
    WithoutIsRemoveAt(terms, row.pivot, pos);
    WithoutMentions(terms, row.pivot, pos);
    hide Proper, Mentions;
    AddScaledShape(RemoveAt(terms, pos), terms[pos].coeff, row.terms);
  }

  /** Under a true row, the equation left says exactly what the equation before said. */
  lemma EliminateHolds(terms: seq<Term>, data: seq<byte>, pos: nat, row: PivotRow, t: Truth)
    requires Proper(terms) && pos < |terms| && terms[pos].at == row.pivot && |row.data| == |data| && RowHolds(row, t)
    ensures EquationHolds(AddScaled(RemoveAt(terms, pos), terms[pos].coeff, row.terms),
        MulAcc(terms[pos].coeff, row.data, data), t)
      <==> EquationHolds(terms, data, t)
  {
    WithoutIsRemoveAt(terms, row.pivot, pos);
    WithoutMentions(terms, row.pivot, pos);
    hide Add, Mul, TermSum, Proper, Mentions;
    var f, v := terms[pos].coeff, row.pivot;
    forall k | 0 <= k < |data|
      ensures Add(data[k], Mul(f, row.data[k])) == TermSum(AddScaled(RemoveAt(terms, pos), f, row.terms), t, k)
        <==> data[k] == TermSum(terms, t, k)
    {
      RemoveSum(terms, pos, t, k);
      AddScaledSum(RemoveAt(terms, pos), f, row.terms, t, k);
      MulDistributes(f, t(v, k), TermSum(row.terms, t, k));
      AddLaws(TermSum(terms, t, k), Mul(f, t(v, k)), Mul(f, TermSum(row.terms, t, k)));
      SameAdded(data[k], TermSum(terms, t, k), Mul(f, row.data[k]));
    }
  }

  // ---- the pivot table as a whole

  ghost predicate Sized(ps: seq<PivotRow>, size: nat) {
    forall r :: r in ps ==> |r.data| == size
  }

  ghost predicate RowsHold(ps: seq<PivotRow>, t: Truth) {
    forall r :: r in ps ==> RowHolds(r, t)
  }

  ghost predicate PivotHolds(ps: seq<PivotRow>, q: nat, t: Truth) {
    forall r :: r in ps && r.pivot == q ==> RowHolds(r, t)
  }

  ghost predicate Within(ps: seq<PivotRow>, n: nat) {
    forall r :: r in ps ==> r.pivot < n && forall q: nat :: Mentions(r.terms, q) ==> q < n
  }

  /** No row mentions a recovered source, except those still waiting to be substituted. */
  ghost predicate Clear(ps: seq<PivotRow>, known: set<nat>, waiting: seq<nat>) {
    forall r :: r in ps ==>
      && (r.pivot in known ==> waiting == [r.pivot])
      && (forall q :: Mentions(r.terms, q) && q in known ==> q in waiting)
  }

  ghost predicate Unknown(ps: seq<PivotRow>, known: set<nat>) {
    forall r :: r in ps ==> r.pivot !in known
  }

  ghost predicate Unfinished(ps: seq<PivotRow>) {
    forall r :: r in ps ==> r.terms != []
  }

  /** The rows that have no term left, each once. */
  ghost predicate Solved(ps: seq<PivotRow>, solved: seq<(nat, seq<byte>)>) {
    && (forall r :: r in ps && r.terms == [] ==> (r.pivot, r.data) in solved)
    && (forall x :: x in solved ==> PivotRow(x.0, [], x.1) in ps)
    && (forall i, j :: 0 <= i < j < |solved| ==> solved[i].0 != solved[j].0)
  }

  /** Row for row, the pivot is the same and q is gone, with no new column. */
  ghost predicate Substituted(before: seq<PivotRow>, ps: seq<PivotRow>, q: nat) {
    && |ps| == |before|
    && (forall i :: 0 <= i < |ps| ==> ps[i].pivot == before[i].pivot && !Mentions(ps[i].terms, q))
    && (forall i, p :: 0 <= i < |ps| && Mentions(ps[i].terms, p) ==> Mentions(before[i].terms, p))
  }

  lemma SolvedSnoc(ps: seq<PivotRow>, solved: seq<(nat, seq<byte>)>, r: PivotRow)
    requires Solved(ps, solved) && forall p :: p in ps ==> p.pivot != r.pivot
    ensures Solved(ps + [r], if r.terms == [] then solved + [(r.pivot, r.data)] else solved)
  {
    forall i | 0 <= i < |solved|
      ensures solved[i].0 != r.pivot
    {
      assert PivotRow(solved[i].0, [], solved[i].1) in ps;
    }
  }

  lemma SubstitutedSnoc(before: seq<PivotRow>, ps: seq<PivotRow>, b: PivotRow, r: PivotRow, q: nat)
    requires Substituted(before, ps, q) && r.pivot == b.pivot && !Mentions(r.terms, q)
    requires forall p :: Mentions(r.terms, p) ==> Mentions(b.terms, p)
    ensures Substituted(before + [b], ps + [r], q)
  {
    hide Mentions;
  }

  lemma PrefixPivotsDiffer(ps: seq<PivotRow>, i: nat)
    requires Triangular(ps) && i < |ps|
    ensures forall p :: p in ps[..i] ==> p.pivot != ps[i].pivot
  {
    hide Triangular;
    forall j | 0 <= j < i
      ensures ps[j].pivot != ps[i].pivot
    {
      TriangularAt(ps, j, i);
    }
  }

  lemma RowAt(ps: seq<PivotRow>, i: nat, size: nat, t: Truth)
    requires i < |ps| && Sized(ps, size)
    ensures |ps[i].data| == size && (RowsHold(ps, t) ==> RowHolds(ps[i], t))
  {}

  lemma RowReplaced(ps: seq<PivotRow>, i: nat, r: PivotRow, size: nat, t: Truth)
    requires i < |ps| && Sized(ps, size) && |r.data| == size
    ensures Sized(ps[i := r], size)
    ensures (RowHolds(ps[i], t) <==> RowHolds(r, t)) ==> (RowsHold(ps, t) <==> RowsHold(ps[i := r], t))
  {
    hide RowHolds;
    if RowHolds(ps[i], t) <==> RowHolds(r, t) {
      var qs := ps[i := r];
      forall j | 0 <= j < |ps|
        ensures RowHolds(ps[j], t) <==> RowHolds(qs[j], t)
      {}
      assert RowsHold(ps, t) <==> forall j :: 0 <= j < |ps| ==> RowHolds(ps[j], t);
      assert RowsHold(qs, t) <==> forall j :: 0 <= j < |qs| ==> RowHolds(qs[j], t);
    }
  }

  lemma SolvedTail(ps: seq<PivotRow>, solved: seq<(nat, seq<byte>)>)
    requires Solved(ps, solved) && solved != []
    ensures Solved(DropPivot(ps, solved[0].0), solved[1..])
    ensures |DropPivot(ps, solved[0].0)| < |ps| && PivotRow(solved[0].0, [], solved[0].1) in ps
  {
    DropPivotMembers(ps, solved[0].0);
    assert solved[0] in solved;
    var rest := solved[1..];
    forall x | x in rest
      ensures x in solved && x.0 != solved[0].0
    {
      var i :| 0 <= i < |rest| && rest[i] == x;
      assert solved[i + 1] == x;
    }
    forall r | r in DropPivot(ps, solved[0].0) && r.terms == []
      ensures (r.pivot, r.data) in rest
    {
      var i :| 0 <= i < |solved| && solved[i] == (r.pivot, r.data);
      assert rest[i - 1] == (r.pivot, r.data);
    }
  }

  lemma FewerRows(ps: seq<PivotRow>, q: nat, size: nat, t: Truth, n: nat)
    requires Sized(ps, size)
    ensures Sized(DropPivot(ps, q), size)
    ensures RowsHold(ps, t) <==> RowsHold(DropPivot(ps, q), t) && PivotHolds(ps, q, t)
    ensures Within(ps, n) ==> Within(DropPivot(ps, q), n)
    ensures Unfinished(ps) ==> Unfinished(DropPivot(ps, q))
    ensures forall r :: r in DropPivot(ps, q) ==> r.pivot != q
  {
    hide RowHolds, Mentions;
    DropPivotMembers(ps, q);
  }

  lemma ClearAfterDrop(ps: seq<PivotRow>, q: nat, known: set<nat>, waiting: seq<nat>)
    requires Clear(ps, known, waiting)
    ensures Clear(DropPivot(ps, q), known, waiting)
    ensures waiting != [] && waiting[0] == q ==> Unknown(DropPivot(ps, q), known)
    ensures Unknown(ps, known) ==>
      Unknown(DropPivot(ps, q), known + {q}) && Clear(DropPivot(ps, q), known + {q}, waiting + [q])
  {
    hide Mentions;
    DropPivotMembers(ps, q);
  }

  lemma ClearAfterSubstitution(before: seq<PivotRow>, ps: seq<PivotRow>, q: nat, known: set<nat>, waiting: seq<nat>)
    requires Clear(before, known, waiting) && Unknown(before, known) && Substituted(before, ps, q)
    requires waiting != [] && waiting[0] == q
    ensures Unknown(ps, known) && Clear(ps, known, waiting[1..])
  {
    hide Mentions;
    assert forall p :: p in waiting && p != q ==> p in waiting[1..];
    forall i | 0 <= i < |ps|
      ensures ps[i].pivot !in known
      ensures forall p :: Mentions(ps[i].terms, p) && p in known ==> p in waiting[1..]
    {
      assert before[i] in before;
    }
  }

  lemma WithinAfterSubstitution(before: seq<PivotRow>, ps: seq<PivotRow>, q: nat, n: nat)
    requires Within(before, n) && Substituted(before, ps, q)
    ensures Within(ps, n)
  {
    hide Mentions;
    forall r | r in ps
      ensures r.pivot < n && forall p: nat :: Mentions(r.terms, p) ==> p < n
    {
      var i :| 0 <= i < |ps| && ps[i] == r;
      assert before[i] in before;
    }
  }

  lemma SolvedRowIsTrue(r: PivotRow, t: Truth)
    requires r.terms == []
    ensures RowHolds(r, t) <==> forall k :: 0 <= k < |r.data| ==> r.data[k] == t(r.pivot, k)
  {
    hide Add;
    forall k | 0 <= k < |r.data|
      ensures r.data[k] == t(r.pivot, k) <==> r.data[k] == Add(t(r.pivot, k), TermSum(r.terms, t, k))
    {
      AddCancels(t(r.pivot, k), 0);
    }
  }

  /** The list of recovered sources grew by exactly these sequence numbers, in this order. */
  ghost predicate Appended(before: seq<(nat, seq<byte>)>, after: seq<(nat, seq<byte>)>, news: seq<nat>) {
    && |after| == |before| + |news| && before <= after
    && forall i :: 0 <= i < |news| ==> after[|before| + i].0 == news[i]
  }

  lemma AppendedSnoc(before: seq<(nat, seq<byte>)>, after: seq<(nat, seq<byte>)>, news: seq<nat>, x: (nat, seq<byte>))
    requires Appended(before, after, news)
    ensures Appended(before, after + [x], news + [x.0])
  {}

  lemma AppendedChain(a: seq<(nat, seq<byte>)>, b: seq<(nat, seq<byte>)>, c: seq<(nat, seq<byte>)>, m: seq<nat>,
        n: seq<nat>)
    requires Appended(a, b, m) && Appended(b, c, n)
    ensures Appended(a, c, m + n)
  {}

  /** The index finds every recovered source, each once. */
  ghost predicate IndexMatches(rec: seq<(nat, seq<byte>)>, idx: map<nat, nat>, size: nat) {
    && |idx| == |rec|
    && (forall i :: 0 <= i < |rec| ==> rec[i].0 in idx && idx[rec[i].0] == i && |rec[i].1| == size)
    && (forall q: nat :: q in idx ==> idx[q] < |rec| && rec[idx[q]].0 == q)
  }

  ghost predicate SourceHolds(q: nat, data: seq<byte>, t: Truth) {
    forall k :: 0 <= k < |data| ==> data[k] == t(q, k)
  }

  ghost predicate SourcesHold(rec: seq<(nat, seq<byte>)>, t: Truth) {
    forall i, k :: 0 <= i < |rec| && 0 <= k < |rec[i].1| ==> rec[i].1[k] == t(rec[i].0, k)
  }

  lemma IndexSnoc(rec: seq<(nat, seq<byte>)>, idx: map<nat, nat>, size: nat, q: nat, data: seq<byte>)
    requires IndexMatches(rec, idx, size) && q !in idx && |data| == size
    ensures IndexMatches(rec + [(q, data)], idx[q := |rec|], size)
    ensures idx[q := |rec|].Keys == idx.Keys + {q}
  {
    EntriesFound(rec, idx, size, q, data);
    PlacesRight(rec, idx, size, q, data);
    assert idx[q := |rec|].Keys == idx.Keys + {q};
  }

  lemma EntriesFound(rec: seq<(nat, seq<byte>)>, idx: map<nat, nat>, size: nat, q: nat, data: seq<byte>)
    requires IndexMatches(rec, idx, size) && q !in idx && |data| == size
    ensures var more, at := rec + [(q, data)], idx[q := |rec|];
      forall i :: 0 <= i < |more| ==> more[i].0 in at && at[more[i].0] == i && |more[i].1| == size
  {
    var more, at := rec + [(q, data)], idx[q := |rec|];
    forall i | 0 <= i < |more|
      ensures more[i].0 in at && at[more[i].0] == i && |more[i].1| == size
    {
      if i < |rec| {
        assert more[i] == rec[i];
      }
    }
  }

  lemma PlacesRight(rec: seq<(nat, seq<byte>)>, idx: map<nat, nat>, size: nat, q: nat, data: seq<byte>)
    requires IndexMatches(rec, idx, size) && q !in idx
    ensures var more, at := rec + [(q, data)], idx[q := |rec|];
      forall p: nat :: p in at ==> at[p] < |more| && more[at[p]].0 == p
  {
    var more, at := rec + [(q, data)], idx[q := |rec|];
    forall p: nat | p in at
      ensures at[p] < |more| && more[at[p]].0 == p
    {
      if p != q {
        assert more[idx[p]] == rec[idx[p]];
      }
    }
  }

  lemma SourcesSnoc(rec: seq<(nat, seq<byte>)>, q: nat, data: seq<byte>, t: Truth)
    ensures SourcesHold(rec + [(q, data)], t) <==> SourcesHold(rec, t) && SourceHolds(q, data, t)
  {
    var more := rec + [(q, data)];
    assert more[|rec|] == (q, data) && forall i :: 0 <= i < |rec| ==> more[i] == rec[i];
    if SourcesHold(more, t) {
      forall i, k | 0 <= i < |rec| && 0 <= k < |rec[i].1|
        ensures rec[i].1[k] == t(rec[i].0, k)
      {
        assert more[i].1[k] == t(more[i].0, k);
      }
      forall k | 0 <= k < |data|
        ensures data[k] == t(q, k)
      {
        assert more[|rec|].1[k] == t(more[|rec|].0, k);
      }
    }
  }

  /** What the rows, in order, leave of an equation. */
  function Leftover(terms: seq<Term>, rows: seq<PivotRow>): seq<Term> {
    if rows == [] then terms
    else
      var row := rows[|rows| - 1];
      var left := Leftover(terms, rows[..|rows| - 1]);
      var pos := Position(left, row.pivot);
      if pos < |left| then AddScaled(RemoveAt(left, pos), left[pos].coeff, row.terms) else left
  }

  /**
   * What an equation leads to, once known sources and the rows at hand have left it: nothing when nothing remains; one
   * unknown becomes known; several become one more row on the first, scaled to coefficient one there.
   */
  ghost predicate Absorbed(terms: seq<Term>, known0: set<nat>, rows0: seq<PivotRow>, known1: set<nat>,
        rows1: seq<PivotRow>) {
    var left := Leftover(UnknownTerms(terms, known0), rows0);
    if left == [] then known1 == known0 && rows1 == rows0
    else if |left| == 1 then left[0].at in known1 && known0 <= known1
    else
      && known1 == known0 && |rows1| == |rows0| + 1 && rows1[..|rows0|] == rows0
      && rows1[|rows0|].pivot == left[0].at
      && rows1[|rows0|].terms == ScaleTerms(Inv(left[0].coeff), left[1..])
  }

  class RlcDecoder {
    const symbolSize: nat
    var recovered: seq<(nat, seq<byte>)>
    var recoveredIdx: map<nat, nat>
    var pivots: seq<PivotRow>
    var totalFed: nat
    var repairsFed: nat
    var repairsUseful: nat

    constructor (symbolSize: nat)
      ensures this.symbolSize == symbolSize && recovered == [] && recoveredIdx == map[] && pivots == [] && totalFed == 0
    {
      this.symbolSize := symbolSize;
      recovered, recoveredIdx, pivots := [], map[], [];
      totalFed, repairsFed, repairsUseful := 0, 0, 0;
    }

    ghost predicate Indexed()
      reads this`recovered, this`recoveredIdx
    {
      IndexMatches(recovered, recoveredIdx, symbolSize)
    }

    ghost predicate Tabled(waiting: seq<nat>)
      reads this`pivots, this`recoveredIdx
    {
      Triangular(pivots) && Sized(pivots, symbolSize) && Unfinished(pivots) && Clear(pivots, recoveredIdx.Keys, waiting)
    }

    /** Recovered sources plus pivot rows never exceed the symbols fed. */
    ghost predicate Valid()
      reads this
    {
      Indexed() && Tabled([]) && |recovered| + |pivots| <= totalFed
    }

    /** Every recovered source and every row agrees with the true sources. */
    ghost predicate Truthful(t: Truth)
      reads this`recovered, this`pivots
    {
      SourcesHold(recovered, t) && RowsHold(pivots, t)
    }

    ghost predicate Bounded(n: nat)
      reads this`recoveredIdx, this`pivots
    {
      (forall q: nat :: q in recoveredIdx ==> q < n) && Within(pivots, n)
    }

    method AddRecovered(q: nat, data: seq<byte>, ghost t: Truth, ghost n: nat)
      requires Indexed() && q !in recoveredIdx && |data| == symbolSize
      modifies this`recovered, this`recoveredIdx
      ensures Indexed() && recovered == old(recovered) + [(q, data)]
        && recoveredIdx.Keys == old(recoveredIdx.Keys) + {q}
      ensures Truthful(t) <==> old(Truthful(t)) && SourceHolds(q, data, t)
      ensures old(Bounded(n)) && q < n ==> Bounded(n)
    {
      hide RowsHold, Within, IndexMatches, SourcesHold, SourceHolds;
      IndexSnoc(recovered, recoveredIdx, symbolSize, q, data);
      SourcesSnoc(recovered, q, data, t);
      recoveredIdx := recoveredIdx[q := |recovered|];
      recovered := recovered + [(q, data)];
    }

    method RemovePivot(q: nat, ghost t: Truth, ghost n: nat)
      requires Triangular(pivots) && Sized(pivots, symbolSize)
      modifies this`pivots
      ensures pivots == DropPivot(old(pivots), q) && Triangular(pivots) && Sized(pivots, symbolSize)
      ensures old(Unfinished(pivots)) ==> Unfinished(pivots)
      ensures old(Indexed()) ==> Indexed()
      ensures old(Truthful(t)) <==> Truthful(t) && PivotHolds(old(pivots), q, t)
      ensures old(Bounded(n)) ==> Bounded(n)
    {
      hide RowsHold, PivotHolds, Within, Sized, Triangular, Unfinished, IndexMatches, SourcesHold;
      DropPivotTriangular(pivots, q);
      FewerRows(pivots, q, symbolSize, t, n);
      pivots := DropPivot(pivots, q);
    }

    /** Substitutes a known source into every row that mentions it; returns the rows this solves. */
    method Substitute(q: nat, src: seq<byte>, ghost t: Truth, ghost n: nat) returns (solved: seq<(nat, seq<byte>)>)
      requires Triangular(pivots) && Sized(pivots, symbolSize) && Unfinished(pivots) && |src| == symbolSize
      modifies this`pivots
      ensures Triangular(pivots) && Sized(pivots, symbolSize)
      ensures Substituted(old(pivots), pivots, q) && Solved(pivots, solved)
      ensures old(Indexed()) ==> Indexed()
      ensures SourceHolds(q, src, t) ==> (Truthful(t) <==> old(Truthful(t)))
      ensures old(Bounded(n)) ==> Bounded(n)
    {
      hide Proper, Mentions, RowHolds, Triangular, Without, Solved, Substituted, MulAcc, IndexMatches, SourcesHold,
          Within;
      solved := [];
      ghost var before := pivots;
      NothingSubstituted(q);
      for i := 0 to |pivots|
        invariant |pivots| == |before| && pivots[i..] == before[i..]
        invariant Triangular(pivots) && Sized(pivots, symbolSize)
        invariant SourceHolds(q, src, t) ==> (RowsHold(pivots, t) <==> RowsHold(before, t))
        invariant Substituted(before[..i], pivots[..i], q) && Solved(pivots[..i], solved)
      {
        hide Sized, RowsHold;
        var row := pivots[i];
        assert row == before[i];
        RowAt(pivots, i, symbolSize, t);
        var pos := Position(row.terms, q);
        TriangularAt(pivots, i, i);
        PrefixPivotsDiffer(pivots, i);
        if pos < |row.terms| {
          var r := Reduced(row, pos, src);
          WithoutMentions(row.terms, q, pos);
          TriangularUpdate(pivots, i, r);
          if SourceHolds(q, src, t) {
            ReducedHolds(row, pos, src, t);
          }
          RowReplaced(pivots, i, r, symbolSize, t);
          pivots := pivots[i := r];
          SolvedSnoc(pivots[..i], solved, r);
          if r.terms == [] {
            solved := solved + [(r.pivot, r.data)];
          }
        } else {
          SolvedSnoc(pivots[..i], solved, row);
        }
        SubstitutedSnoc(before[..i], pivots[..i], row, pivots[i], q);
        assert pivots[..i + 1] == pivots[..i] + [pivots[i]] && before[..i + 1] == before[..i] + [row];
      }
      assert pivots[..|pivots|] == pivots && before[..|before|] == before;
      if old(Bounded(n)) {
        WithinAfterSubstitution(before, pivots, q, n);
      }
    }

    /** Moves every solved row out of the table and into the recovered sources. */
    method Release(solved: seq<(nat, seq<byte>)>, waiting: seq<nat>, ghost t: Truth,
          ghost n: nat) returns (news: seq<nat>)
      requires Indexed() && Triangular(pivots) && Sized(pivots, symbolSize) && Solved(pivots, solved)
      requires Unknown(pivots, recoveredIdx.Keys) && Clear(pivots, recoveredIdx.Keys, waiting)
      modifies this
      ensures Indexed() && Tabled(waiting + news) && Appended(old(recovered), recovered, news)
      ensures Unknown(pivots, recoveredIdx.Keys)
      ensures |recovered| + |pivots| <= old(|recovered| + |pivots|) && totalFed == old(totalFed)
      ensures |recovered| == old(|recovered|) + |news| && forall q :: q in news ==> q in recoveredIdx
      ensures old(recoveredIdx.Keys) <= recoveredIdx.Keys
      ensures Truthful(t) <==> old(Truthful(t))
      ensures old(Bounded(n)) ==> Bounded(n)
    {
      hide Triangular, Sized, Clear, Solved, Appended, Indexed, Unfinished, Truthful, Bounded, DropPivot, Unknown,
          SourceHolds, PivotHolds;
      news := [];
      AppendedNothing(recovered);
      assert waiting + news == waiting;
      for j := 0 to |solved|
        invariant Indexed() && Triangular(pivots) && Sized(pivots, symbolSize) && Solved(pivots, solved[j..])
        invariant Unknown(pivots, recoveredIdx.Keys) && Clear(pivots, recoveredIdx.Keys, waiting + news)
        invariant Appended(old(recovered), recovered, news) && totalFed == old(totalFed)
        invariant |recovered| + |pivots| <= old(|recovered| + |pivots|)
        invariant |recovered| == old(|recovered|) + |news| && forall q :: q in news ==> q in recoveredIdx
        invariant old(recoveredIdx.Keys) <= recoveredIdx.Keys
        invariant Truthful(t) <==> old(Truthful(t))
        invariant old(Bounded(n)) ==> Bounded(n)
      {
        var q, data := solved[j].0, solved[j].1;
        SolvedTail(pivots, solved[j..]);
        assert solved[j..][1..] == solved[j + 1..];
        SolvedRow(q, data, t, n);
        ClearAfterDrop(pivots, q, recoveredIdx.Keys, waiting + news);
        RemovePivot(q, t, n);
        if q !in recoveredIdx {
          AppendedSnoc(old(recovered), recovered, news, (q, data));
          assert (waiting + news) + [q] == waiting + (news + [q]);
          AddRecovered(q, data, t, n);
          repairsUseful := repairsUseful + 1;
          news := news + [q];
        }
      }
      AllUnfinished(pivots);
    }

    lemma SolvedRow(q: nat, data: seq<byte>, t: Truth, n: nat)
      requires PivotRow(q, [], data) in pivots && Sized(pivots, symbolSize) && Triangular(pivots)
      ensures |data| == symbolSize
      ensures Unknown(pivots, recoveredIdx.Keys) ==> q !in recoveredIdx
      ensures PivotHolds(pivots, q, t) <==> SourceHolds(q, data, t)
      ensures Bounded(n) ==> q < n
    {
      hide RowHolds, Mentions, Triangular;
      var i :| 0 <= i < |pivots| && pivots[i] == PivotRow(q, [], data);
      forall j | 0 <= j < |pivots| && pivots[j].pivot == q
        ensures j == i
      {
        TriangularAt(pivots, if i < j then i else j, if i < j then j else i);
      }
      SolvedRowIsTrue(pivots[i], t);
    }

    lemma KnownSource(q: nat, t: Truth)
      requires Indexed() && q in recoveredIdx
      ensures recoveredIdx[q] < |recovered| && |recovered[recoveredIdx[q]].1| == symbolSize
      ensures SourcesHold(recovered, t) ==> SourceHolds(q, recovered[recoveredIdx[q]].1, t)
    {}

    /**
     * Substitutes a recovered source, and every source that this solves in turn, until no row changes.
     * Information is lost only with a row whose pivot the first source is: that row is dropped unused.
     */
    method Cascade(initial: nat, ghost t: Truth, ghost n: nat) returns (result: seq<nat>)
      requires Indexed() && Tabled([initial]) && initial in recoveredIdx
      modifies this
      ensures Indexed() && Tabled([]) && Appended(old(recovered), recovered, result)
      ensures |recovered| + |pivots| <= old(|recovered| + |pivots|) && totalFed == old(totalFed)
      ensures old(recoveredIdx.Keys) <= recoveredIdx.Keys
      ensures old(Truthful(t)) <==> Truthful(t) && PivotHolds(old(pivots), initial, t)
      ensures old(Bounded(n)) ==> Bounded(n)
    {
      hide Triangular, Sized, Solved, Appended, IndexMatches, Unfinished, Bounded, DropPivot, SourceHolds,
          SourcesHold, RowsHold;
      hide Clear, Unknown, PivotHolds;
      result := [];
      AppendedNothing(recovered);
      var queue := [initial];
      while queue != []
        invariant Indexed() && Tabled(queue) && Appended(old(recovered), recovered, result)
        invariant |recovered| + |pivots| <= old(|recovered| + |pivots|) && totalFed == old(totalFed)
        invariant forall q :: q in queue ==> q in recoveredIdx
        invariant old(recoveredIdx.Keys) <= recoveredIdx.Keys
        invariant (queue == [initial] && pivots == old(pivots) && recovered == old(recovered))
          || (Unknown(pivots, recoveredIdx.Keys)
            && (old(Truthful(t)) <==> Truthful(t) && PivotHolds(old(pivots), initial, t)))
        invariant old(Bounded(n)) ==> Bounded(n)
        decreases |pivots| + |queue|
      {
        var q := queue[0];
        KnownSource(q, t);
        var src := recovered[recoveredIdx[q]].1;
        ClearAfterDrop(pivots, q, recoveredIdx.Keys, queue);
        NoSuchPivot(pivots, recoveredIdx.Keys, q, t);
        RemovePivot(q, t, n);
        ghost var before := pivots;
        var solved := Substitute(q, src, t, n);
        ClearAfterSubstitution(before, pivots, q, recoveredIdx.Keys, queue);
        ghost var seen := recovered;
        var news := Release(solved, queue[1..], t, n);
        AppendedChain(old(recovered), seen, recovered, result, news);
        result := result + news;
        queue := queue[1..] + news;
      }
    }

    method FeedSource(q: nat, data: seq<byte>, ghost t: Truth, ghost n: nat) returns (result: seq<nat>)
      requires Valid()
      modifies this
      ensures Valid() && Appended(old(recovered), recovered, result) && totalFed == old(totalFed) + 1
      ensures old(recoveredIdx.Keys) + {q} <= recoveredIdx.Keys
      ensures old(Truthful(t)) && SourceHolds(q, Wire.Pad(data, symbolSize), t) ==> Truthful(t)
      ensures old(q !in recoveredIdx) && Truthful(t) && PivotHolds(old(pivots), q, t) ==>
        old(Truthful(t)) && SourceHolds(q, Wire.Pad(data, symbolSize), t)
      ensures old(q in recoveredIdx) ==> result == [] && pivots == old(pivots) && recovered == old(recovered)
      ensures old(q !in recoveredIdx) ==> result != [] && result[0] == q
      ensures old(Bounded(n)) && q < n ==> Bounded(n)
    {
      hide Triangular, Sized, Appended, IndexMatches, Unfinished, Truthful, Bounded, Clear, SourceHolds, PivotHolds;
      totalFed := totalFed + 1;
      result := [];
      AppendedNothing(recovered);
      if q !in recoveredIdx {
        var padded := Wire.Pad(data, symbolSize);
        AppendedSnoc(recovered, recovered, [], (q, padded));
        NewlyKnown(pivots, recoveredIdx.Keys, q);
        AddRecovered(q, padded, t, n);
        ghost var seen := recovered;
        var more := Cascade(q, t, n);
        AppendedChain(old(recovered), seen, recovered, [q], more);
        result := [q] + more;
      }
    }

    /** The terms of sources not yet recovered, the recovered ones being moved into the data. */
    method DropKnown(terms: seq<Term>, data: seq<byte>) returns (kept: seq<Term>, out: seq<byte>)
      requires Indexed() && Proper(terms) && |data| == symbolSize
      ensures Proper(kept) && |out| == symbolSize && kept == UnknownTerms(terms, recoveredIdx.Keys)
      ensures forall q :: Mentions(kept, q) ==> Mentions(terms, q) && q !in recoveredIdx
      ensures forall t: Truth :: Truthful(t) ==> (EquationHolds(terms, data, t) <==> EquationHolds(kept, out, t))
    {
      hide Add, Mul, TermSum, IndexMatches, RowsHold, SourcesHold;
      kept, out := [], data;
      forall t: Truth
        ensures Moved(data, data, [], [], t)
      {
        MovedNothing(data, t);
      }
      assert terms[..0] == [];
      for i := 0 to |terms|
        invariant Proper(kept) && |out| == symbolSize
        invariant forall q :: Mentions(kept, q) ==> q !in recoveredIdx && exists j :: 0 <= j < i && terms[j].at == q
        invariant kept == UnknownTerms(terms[..i], recoveredIdx.Keys)
        invariant forall t: Truth :: Truthful(t) ==> Moved(data, out, terms[..i], kept, t)
      {
        var x := terms[i];
        ghost var done := terms[..i];
        assert terms[..i + 1] == done + [x] && terms[..i + 1][..i] == done;
        if x.at in recoveredIdx {
          var src := SourceOf(x.at);
          forall t: Truth | Truthful(t)
            ensures Moved(data, MulAcc(x.coeff, src, out), done + [x], kept, t)
          {
            KnownSource(x.at, t);
            MovedOut(data, out, done, kept, x, src, t);
          }
          out := MulAcc(x.coeff, src, out);
        } else {
          forall t: Truth | Truthful(t)
            ensures Moved(data, out, done + [x], kept + [x], t)
          {
            MovedIn(data, out, done, kept, x, t);
          }
          MentionsSnoc(kept, x);
          kept := kept + [x];
        }
      }
      assert terms[..|terms|] == terms;
      forall t: Truth | Truthful(t)
        ensures EquationHolds(terms, data, t) <==> EquationHolds(kept, out, t)
      {
        MovedAll(data, out, terms, kept, t);
      }
    }

    function SourceOf(q: nat): (r: seq<byte>)
      requires Indexed() && q in recoveredIdx
      reads this
      ensures |r| == symbolSize
    {
      recovered[recoveredIdx[q]].1
    }

    /** Eliminates every pivot, in insertion order: no row brings an earlier pivot back. */
    method Reduce(terms: seq<Term>, data: seq<byte>, ghost n: nat) returns (left: seq<Term>, out: seq<byte>)
      requires Indexed() && Tabled([]) && Proper(terms) && |data| == symbolSize
      requires forall q :: Mentions(terms, q) ==> q !in recoveredIdx
      ensures Proper(left) && |out| == symbolSize && left == Leftover(terms, pivots)
      ensures forall q :: Mentions(left, q) ==> q !in recoveredIdx
      ensures forall r :: r in pivots ==> !Mentions(left, r.pivot)
      ensures forall t: Truth :: Truthful(t) ==> (EquationHolds(terms, data, t) <==> EquationHolds(left, out, t))
      ensures Bounded(n) && (forall q: nat :: Mentions(terms, q) ==> q < n) ==> forall q: nat :: Mentions(left, q) ==>
        q < n
    {
      hide IndexMatches, Truthful, Triangular, Sized, Clear, Unfinished, Bounded, Mentions, Proper, EquationHolds,
          AddScaled, MulAcc, RemoveAt;
      left, out := terms, data;
      for i := 0 to |pivots|
        invariant Proper(left) && |out| == symbolSize && left == Leftover(terms, pivots[..i])
        invariant forall q :: Mentions(left, q) ==> q !in recoveredIdx
        invariant forall j :: 0 <= j < i ==> !Mentions(left, pivots[j].pivot)
        invariant forall t: Truth :: Truthful(t) ==> (EquationHolds(terms, data, t) <==> EquationHolds(left, out, t))
        invariant Bounded(n) && (forall q: nat :: Mentions(terms, q) ==> q < n) ==>
          forall q: nat :: Mentions(left, q) ==> q < n
      {
        var row := pivots[i];
        assert pivots[..i + 1][..i] == pivots[..i];
        RowFacts(i, n);
        var pos := Position(left, row.pivot);
        if pos < |left| {
          EliminateShape(left, pos, row);
          forall t: Truth | Truthful(t)
            ensures EquationHolds(AddScaled(RemoveAt(left, pos), left[pos].coeff, row.terms),
                MulAcc(left[pos].coeff, row.data, out), t)
              <==> EquationHolds(left, out, t)
          {
            RowIsTrue(i, t);
            EliminateHolds(left, out, pos, row, t);
          }
          left, out := Eliminate(left, out, pos, row);
        }
      }
      assert pivots[..|pivots|] == pivots;
    }

    lemma RowFacts(i: nat, n: nat)
      requires Tabled([]) && i < |pivots|
      ensures Proper(pivots[i].terms) && |pivots[i].data| == symbolSize
      ensures forall j :: 0 <= j <= i ==> !Mentions(pivots[i].terms, pivots[j].pivot)
      ensures forall q :: Mentions(pivots[i].terms, q) ==> q !in recoveredIdx
      ensures Bounded(n) ==> forall q: nat :: Mentions(pivots[i].terms, q) ==> q < n
    {
      hide Mentions, Proper, RowHolds;
      forall j | 0 <= j <= i
        ensures !Mentions(pivots[i].terms, pivots[j].pivot)
      {
        TriangularAt(pivots, j, i);
      }
      TriangularAt(pivots, i, i);
    }

    lemma RowIsTrue(i: nat, t: Truth)
      requires Truthful(t) && i < |pivots|
      ensures RowHolds(pivots[i], t)
    {}

    /** The current state already determines whether the equation holds. */
    ghost predicate Settles(terms: seq<Term>, data: seq<byte>)
      reads this
    {
      forall t: Truth, u: Truth :: Truthful(t) && Truthful(u) && EquationHolds(terms, data, t) ==>
        EquationHolds(terms, data, u)
    }

    method InsertEquation(terms: seq<Term>, data: seq<byte>, ghost t: Truth, ghost n: nat) returns (result: seq<nat>)
      requires Indexed() && Tabled([]) && |recovered| + |pivots| < totalFed && Proper(terms) && |data| == symbolSize
      modifies this
      ensures Valid() && Appended(old(recovered), recovered, result) && totalFed == old(totalFed)
      ensures old(recoveredIdx.Keys) <= recoveredIdx.Keys
      ensures old(Truthful(t)) && EquationHolds(terms, data, t) ==> Truthful(t)
      ensures if recovered == old(recovered) && pivots == old(pivots) then old(Settles(terms, data))
        else Truthful(t) ==> old(Truthful(t)) && EquationHolds(terms, data, t)
      ensures old(Bounded(n)) && (forall q: nat :: Mentions(terms, q) ==> q < n) ==> Bounded(n)
      ensures Absorbed(terms, old(recoveredIdx.Keys), old(pivots), recoveredIdx.Keys, pivots)
    {
      hide IndexMatches, Truthful, Triangular, Sized, Clear, Unfinished, Bounded, Mentions, Proper, EquationHolds,
          MulAcc, Appended, UnknownTerms, Leftover, ScaleTerms;
      AppendedNothing(recovered);
      var kept, part := DropKnown(terms, data);
      var left, out := Reduce(kept, part, n);
      if left == [] {
        NothingLeft(terms, data, out);
        result := [];
      } else if |left| == 1 {
        var q, inv := left[0].at, Inv(left[0].coeff);
        var rd := Scale(inv, out);
        OneTerm(left, out, t);
        AppendedSnoc(recovered, recovered, [], (q, rd));
        NewlyKnown(pivots, recoveredIdx.Keys, q);
        AddRecovered(q, rd, t, n);
        repairsUseful := repairsUseful + 1;
        ghost var seen := recovered;
        var more := Cascade(q, t, n);
        AppendedChain(old(recovered), seen, recovered, [q], more);
        result := [q] + more;
      } else {
        var inv := Inv(left[0].coeff);
        var row := PivotRow(left[0].at, ScaleTerms(inv, left[1..]), Scale(inv, out));
        NewRow(left, out, row, t);
        Store(row, t, n);
        result := [];
      }
    }

    lemma NothingLeft(terms: seq<Term>, data: seq<byte>, out: seq<byte>)
      requires forall t: Truth :: Truthful(t) ==> (EquationHolds(terms, data, t) <==> EquationHolds([], out, t))
      ensures Settles(terms, data)
    {
      forall t: Truth, u: Truth
        ensures EquationHolds([], out, t) ==> EquationHolds([], out, u)
      {}
    }

    method Store(row: PivotRow, ghost t: Truth, ghost n: nat)
      requires Indexed() && Tabled([]) && |row.data| == symbolSize && row.terms != []
      requires Proper(row.terms) && !Mentions(row.terms, row.pivot) && row.pivot !in recoveredIdx
      requires forall q :: Mentions(row.terms, q) ==> q !in recoveredIdx
      requires forall r :: r in pivots ==> r.pivot != row.pivot && !Mentions(row.terms, r.pivot)
      modifies this`pivots
      ensures pivots == old(pivots) + [row] && Indexed() && Tabled([])
      ensures Truthful(t) <==> old(Truthful(t)) && RowHolds(row, t)
      ensures old(Bounded(n)) && row.pivot < n && (forall q: nat :: Mentions(row.terms, q) ==> q < n) ==> Bounded(n)
    {
      hide IndexMatches, Triangular, Mentions, Proper, RowHolds, SourcesHold;
      TriangularSnoc(pivots, row);
      pivots := pivots + [row];
    }

    method FeedRepair(start: nat, count: nat, index: nat, coded: seq<byte>, ghost t: Truth,
          ghost n: nat) returns (result: seq<nat>)
      requires Valid()
      modifies this
      ensures Valid() && Appended(old(recovered), recovered, result) && totalFed == old(totalFed) + 1
      ensures old(recoveredIdx.Keys) <= recoveredIdx.Keys
      ensures old(Truthful(t)) && RepairHolds(start, count, index, Wire.Pad(coded, symbolSize), t) ==> Truthful(t)
      ensures if recovered == old(recovered) && pivots == old(pivots) then
          old(Settles(WindowTerms(start, CoefficientStream.WindowCoefficients(start, count, index)),
                      Wire.Pad(coded, symbolSize)))
        else Truthful(t) ==> old(Truthful(t)) && RepairHolds(start, count, index, Wire.Pad(coded, symbolSize), t)
      ensures old(Bounded(n)) && start + count <= n ==> Bounded(n)
      ensures Absorbed(WindowTerms(start, CoefficientStream.WindowCoefficients(start, count, index)),
          old(recoveredIdx.Keys), old(pivots), recoveredIdx.Keys, pivots)
    {
      hide IndexMatches, Truthful, Triangular, Sized, Clear, Unfinished, Bounded, Mentions, Proper, EquationHolds,
          Appended, CoefficientStream.WindowCoefficients, Absorbed;
      totalFed := totalFed + 1;
      repairsFed := repairsFed + 1;
      var coeffs := CoefficientStream.GenerateWindowCoefficients(start, count, index);
      var terms := [];
      for i := 0 to count
        invariant terms == WindowTerms(start, coeffs)[..i]
      {
        if coeffs[i] != 0 {
          terms := terms + [Term(start + i, coeffs[i])];
        }
      }
      WindowTermsShape(start, coeffs);
      result := InsertEquation(terms, Wire.Pad(coded, symbolSize), t, n);
    }
  }

  /** One term for every sequence number of the window. */
  function WindowTerms(start: nat, coeffs: seq<byte>): (r: seq<Term>)
    ensures |r| == |coeffs|
    ensures forall i :: 0 <= i < |coeffs| ==> r[i] == Term(start + i, coeffs[i])
  {
    seq(|coeffs|, i requires 0 <= i < |coeffs| => Term(start + i, coeffs[i]))
  }

  lemma WindowTermsShape(start: nat, coeffs: seq<byte>)
    requires forall i :: 0 <= i < |coeffs| ==> coeffs[i] != 0
    ensures Proper(WindowTerms(start, coeffs))
    ensures forall q: nat :: Mentions(WindowTerms(start, coeffs), q) ==> start <= q < start + |coeffs|
    ensures WindowTerms(start, coeffs)[..|coeffs|] == WindowTerms(start, coeffs)
  {}

  /** The coded bytes are the combination their header describes. */
  ghost predicate RepairHolds(start: nat, count: nat, index: nat, coded: seq<byte>, t: Truth) {
    EquationHolds(WindowTerms(start, CoefficientStream.WindowCoefficients(start, count, index)), coded, t)
  }

  /** The only unknown left is the data divided by its coefficient. */
  lemma OneTerm(left: seq<Term>, out: seq<byte>, t: Truth)
    requires |left| == 1 && Proper(left)
    ensures Mentions(left, left[0].at)
    ensures EquationHolds(left, out, t) <==> SourceHolds(left[0].at, Scale(Inv(left[0].coeff), out), t)
  {
    hide Add, Mul, Inv, TermSum;
    forall k | 0 <= k < |out|
      ensures out[k] == TermSum(left, t, k) <==> Mul(Inv(left[0].coeff), out[k]) == t(left[0].at, k)
    {
      TermSumSnoc([], left[0], t, k);
      assert [] + [left[0]] == left;
      EmptySum(t, k);
      AddCancels(Mul(left[0].coeff, t(left[0].at, k)), 0);
      Divided(left[0].coeff, out[k], t(left[0].at, k));
    }
  }

  lemma EmptySum(t: Truth, k: nat)
    ensures TermSum([], t, k) == 0
  {}

  lemma Divided(c: byte, d: byte, v: byte)
    requires c != 0
    ensures Mul(Inv(c), d) == v <==> d == Mul(c, v)
  {
    hide Mul, Inv;
    InvIsInverse(c);
    MulAssociates(Inv(c), c, v);
    MulAssociates(c, Inv(c), d);
    MulCommutes(c, Inv(c));
    MulOne(v);
    MulOne(d);
  }

  /** The first column becomes the pivot of a row divided by its coefficient. */
  lemma NewRow(left: seq<Term>, out: seq<byte>, row: PivotRow, t: Truth)
    requires |left| > 1 && Proper(left)
    requires row == PivotRow(left[0].at, ScaleTerms(Inv(left[0].coeff), left[1..]), Scale(Inv(left[0].coeff), out))
    ensures Proper(row.terms) && !Mentions(row.terms, row.pivot) && row.terms != [] && Mentions(left, row.pivot)
    ensures forall q :: Mentions(row.terms, q) ==> Mentions(left, q)
    ensures EquationHolds(left, out, t) <==> RowHolds(row, t)
  {
    hide Add, Mul, Inv, TermSum;
    var inv, rest := Inv(left[0].coeff), left[1..];
    InvIsInverse(left[0].coeff);
    forall i | 0 <= i < |rest|
      ensures row.terms[i].at == left[i + 1].at && row.terms[i].coeff != 0
    {
      NoZeroDivisors(inv, left[i + 1].coeff);
    }
    forall k | 0 <= k < |out|
      ensures out[k] == TermSum(left, t, k) <==> Mul(inv, out[k]) == Add(t(row.pivot, k), TermSum(row.terms, t, k))
    {
      var m := Mul(left[0].coeff, t(row.pivot, k));
      RemoveSum(left, 0, t, k);
      assert RemoveAt(left, 0) == rest;
      ScaleSum(inv, rest, t, k);
      MulDistributes(inv, TermSum(left, t, k), m);
      Divided(left[0].coeff, m, t(row.pivot, k));
      Divided(left[0].coeff, out[k], Mul(inv, TermSum(left, t, k)));
      Divided(left[0].coeff, TermSum(left, t, k), Mul(inv, TermSum(left, t, k)));
      Rearranged(Mul(inv, TermSum(left, t, k)), t(row.pivot, k));
    }
  }

  lemma Rearranged(a: byte, b: byte)
    ensures Add(b, Add(a, b)) == a
  {}

  lemma NewlyKnown(ps: seq<PivotRow>, known: set<nat>, q: nat)
    requires Clear(ps, known, [])
    ensures Clear(ps, known + {q}, [q])
  {
    hide Mentions;
  }

  /** What was taken off the terms so far is what was added to the data so far. */
  ghost predicate Moved(before: seq<byte>, after: seq<byte>, terms: seq<Term>, kept: seq<Term>, t: Truth) {
    && |before| == |after|
    && forall k :: 0 <= k < |after| ==> Add(TermSum(terms, t, k), TermSum(kept, t, k)) == Add(before[k], after[k])
  }

  lemma Regroup(a: byte, b: byte, c: byte, d: byte, m: byte)
    requires Add(a, b) == Add(c, d)
    ensures Add(Add(a, m), b) == Add(c, Add(d, m))
    ensures Add(Add(a, m), Add(b, m)) == Add(c, d)
    ensures a == c <==> b == d
  {
    hide Add;
    AddSwap(a, m, b);
    AddLaws(c, d, m);
    AddShuffle(a, m, b, m);
    AddCancels(m, m);
    AddCancels(Add(a, b), 0);
    AddCancels(b, a);
    AddCancels(d, c);
    AddCancels(a, b);
    AddCancels(c, d);
  }

  lemma MovedNothing(data: seq<byte>, t: Truth)
    ensures Moved(data, data, [], [], t)
  {
    hide Add;
    forall k | 0 <= k < |data|
      ensures Add(TermSum([], t, k), TermSum([], t, k)) == Add(data[k], data[k])
    {
      AddCancels(data[k], 0);
      AddCancels(0, 0);
    }
  }

  lemma MovedOut(before: seq<byte>, after: seq<byte>, terms: seq<Term>, kept: seq<Term>, x: Term, src: seq<byte>,
        t: Truth)
    requires Moved(before, after, terms, kept, t) && |src| == |after|
    requires forall k :: 0 <= k < |src| ==> src[k] == t(x.at, k)
    ensures Moved(before, MulAcc(x.coeff, src, after), terms + [x], kept, t)
  {
    hide Add, Mul, TermSum;
    forall k | 0 <= k < |after|
      ensures Add(TermSum(terms + [x], t, k), TermSum(kept, t, k))
        == Add(before[k], Add(after[k], Mul(x.coeff, src[k])))
    {
      TermSumSnoc(terms, x, t, k);
      Regroup(TermSum(terms, t, k), TermSum(kept, t, k), before[k], after[k], Mul(x.coeff, src[k]));
    }
  }

  lemma MovedIn(before: seq<byte>, after: seq<byte>, terms: seq<Term>, kept: seq<Term>, x: Term, t: Truth)
    requires Moved(before, after, terms, kept, t)
    ensures Moved(before, after, terms + [x], kept + [x], t)
  {
    hide Add, Mul, TermSum;
    forall k | 0 <= k < |after|
      ensures Add(TermSum(terms + [x], t, k), TermSum(kept + [x], t, k)) == Add(before[k], after[k])
    {
      TermSumSnoc(terms, x, t, k);
      TermSumSnoc(kept, x, t, k);
      Regroup(TermSum(terms, t, k), TermSum(kept, t, k), before[k], after[k], Mul(x.coeff, t(x.at, k)));
    }
  }

  lemma MovedAll(before: seq<byte>, after: seq<byte>, terms: seq<Term>, kept: seq<Term>, t: Truth)
    requires Moved(before, after, terms, kept, t)
    ensures EquationHolds(terms, before, t) <==> EquationHolds(kept, after, t)
  {
    hide Add, TermSum;
    forall k | 0 <= k < |after|
      ensures before[k] == TermSum(terms, t, k) <==> after[k] == TermSum(kept, t, k)
    {
      Regroup(TermSum(terms, t, k), TermSum(kept, t, k), before[k], after[k], 0);
    }
  }

  lemma NoSuchPivot(ps: seq<PivotRow>, known: set<nat>, q: nat, t: Truth)
    requires q in known
    ensures Unknown(ps, known) ==> PivotHolds(ps, q, t)
  {}

  lemma AllUnfinished(ps: seq<PivotRow>)
    requires Solved(ps, [])
    ensures Unfinished(ps)
  {}

  lemma AppendedNothing(a: seq<(nat, seq<byte>)>)
    ensures Appended(a, a, [])
  {}

  lemma NothingSubstituted(q: nat)
    ensures Substituted([], [], q) && Solved([], [])
  {}

  // ---- the encoder

  datatype RepairInfo = RepairInfo(windowStart: nat, windowCount: nat, repairIndex: nat, codedData: seq<byte>)

  /** Consecutive sequence numbers ending just below next. */
  ghost predicate Consecutive(window: seq<(nat, seq<byte>)>, next: nat, size: nat) {
    |window| <= next
    && forall i :: 0 <= i < |window| ==> window[i].0 == next - |window| + i && |window[i].1| == size
  }

  class RlcEncoder {
    const symbolSize: nat
    var window: seq<(nat, seq<byte>)>
    var nextSeq: nat
    var repairCounter: nat

    constructor (symbolSize: nat)
      ensures this.symbolSize == symbolSize && Valid() && window == [] && nextSeq == 0 && repairCounter == 0
    {
      this.symbolSize := symbolSize;
      window, nextSeq, repairCounter := [], 0, 0;
    }

    ghost predicate Valid()
      reads this
    {
      Consecutive(window, nextSeq, symbolSize)
    }

    method AddSource(data: seq<byte>) returns (q: nat)
      requires Valid()
      modifies this
      ensures Valid() && q == old(nextSeq) && nextSeq == q + 1 && repairCounter == old(repairCounter)
      ensures window == old(window) + [(q, Wire.Pad(data, symbolSize))]
    {
      q := nextSeq;
      nextSeq := nextSeq + 1;
      window := window + [(q, Wire.Pad(data, symbolSize))];
    }

    /** A combination of the whole window, described exactly by its header. */
    method GenerateRepair(ghost t: Truth) returns (r: RepairInfo)
      requires Valid() && |window| < 0x1_0000
      modifies this`repairCounter
      ensures |r.codedData| == symbolSize && r.windowCount == |window| && r.windowStart + r.windowCount <= nextSeq
      ensures window != [] ==>
        r.windowStart == window[0].0 && r.repairIndex == old(repairCounter) && repairCounter == old(repairCounter) + 1
      ensures window == [] ==> repairCounter == old(repairCounter)
      ensures SourcesHold(window, t) ==> RepairHolds(r.windowStart, r.windowCount, r.repairIndex, r.codedData, t)
    {
      hide CoefficientStream.WindowCoefficients, Add, Mul, TermSum;
      var coded := Zero(symbolSize);
      forall k | 0 <= k < symbolSize
        ensures TermSum([], t, k) == 0
      {
        EmptySum(t, k);
      }
      if window == [] {
        r := RepairInfo(0, 0, 0, coded);
        assert WindowTerms(0, CoefficientStream.WindowCoefficients(0, 0, 0)) == [];
        return;
      }
      var start, index := window[0].0, repairCounter;
      repairCounter := repairCounter + 1;
      var coeffs := CoefficientStream.GenerateWindowCoefficients(start, |window|, index);
      ghost var terms := WindowTerms(start, coeffs);
      for i := 0 to |window|
        invariant |coded| == symbolSize && repairCounter == index + 1
        invariant SourcesHold(window, t) ==> EquationHolds(terms[..i], coded, t)
      {
        assert terms[..i + 1] == terms[..i] + [terms[i]];
        if SourcesHold(window, t) {
          OneMoreSource(terms[..i], coded, terms[i], window[i].1, t);
        }
        coded := MulAcc(coeffs[i], window[i].1, coded);
      }
      assert terms[..|window|] == terms;
      r := RepairInfo(start, |window|, index, coded);
    }

    /** Drops the sources below a sequence number and no others. */
    method Advance(oldest: nat)
      requires Valid()
      modifies this`window
      ensures Valid()
      ensures window == if nextSeq - |old(window)| >= oldest then old(window)
        else if oldest < nextSeq then old(window)[oldest - (nextSeq - |old(window)|)..] else []
    {
      while window != [] && window[0].0 < oldest
        invariant Valid() && |window| <= |old(window)| && window == old(window)[|old(window)| - |window|..]
        invariant nextSeq - |window| <= oldest || window == old(window)
      {
        window := window[1..];
      }
    }
  }

  lemma OneMoreSource(terms: seq<Term>, coded: seq<byte>, x: Term, src: seq<byte>, t: Truth)
    requires EquationHolds(terms, coded, t) && |src| == |coded|
    requires forall k :: 0 <= k < |src| ==> src[k] == t(x.at, k)
    ensures EquationHolds(terms + [x], MulAcc(x.coeff, src, coded), t)
  {
    hide Add, Mul, TermSum;
    forall k | 0 <= k < |coded|
      ensures Add(coded[k], Mul(x.coeff, src[k])) == TermSum(terms + [x], t, k)
    {
      TermSumSnoc(terms, x, t, k);
    }
  }
}
