/**
 * One system of the generation decoder: known columns, pivot rows in reduced row echelon form over the others, and the
 * payloads delivered so far. Everything here is about feeding one equation to one system: it is compared with
 * the span of the equations accepted before.
 */
module Elimination {
  import opened Basics
  import opened Gf256
  import opened Linear

  datatype Slot =
    | Solving(width: nat, known: seq<bool>, knownCount: nat, pivots: seq<Option<Row>>, codedRows: nat)
    | Done

  // ---- invariants of a slot

  ghost predicate PivotRow(s: Slot, p: nat, row: Row, ss: nat)
    requires s.Solving? && |s.known| == |s.pivots| == s.width && p < s.width
  {
    && |row| == s.width + ss
    && row[p] == 1
    && forall c :: 0 <= c < s.width && c != p && (s.known[c] || s.pivots[c].Some?) ==> row[c] == 0
  }

  ghost predicate Formed(s: Slot, ss: nat) {
    && s.Solving?
    && |s.known| == |s.pivots| == s.width
    && forall p :: 0 <= p < s.width && s.pivots[p].Some? ==> !s.known[p] && PivotRow(s, p, s.pivots[p].value, ss)
  }

  ghost function KnownSet(s: Slot): set<int>
    requires s.Solving?
  {
    set c | 0 <= c < |s.known| && s.known[c]
  }

  ghost function PivotSet(s: Slot): set<int>
    requires s.Solving?
  {
    set c | 0 <= c < |s.pivots| && s.pivots[c].Some?
  }

  ghost predicate Counted(s: Slot)
    requires s.Solving?
  {
    s.knownCount == |KnownSet(s)| && s.codedRows == |PivotSet(s)|
  }

  /** Some coefficient besides the pivot is nonzero. */
  ghost predicate HasTail(row: Row, w: nat, p: nat)
    requires w <= |row|
  {
    exists c :: 0 <= c < w && c != p && row[c] != 0
  }

  ghost predicate NoUnitRow(s: Slot, ss: nat)
    requires Formed(s, ss)
  {
    forall p :: 0 <= p < s.width && s.pivots[p].Some? ==> HasTail(s.pivots[p].value, s.width, p)
  }

  ghost predicate StateInSpan(s: Slot, ss: nat, eqs: seq<Row>)
    requires Formed(s, ss)
  {
    && (forall c :: 0 <= c < s.width && s.known[c] ==> InSpan(eqs, Unit(s.width, c)))
    && (forall p :: 0 <= p < s.width && s.pivots[p].Some? ==> InSpan(eqs, s.pivots[p].value[..s.width]))
  }

  ghost predicate Annihilates(s: Slot, ss: nat, x: Row)
    requires Formed(s, ss)
  {
    && |x| == s.width
    && (forall c :: 0 <= c < s.width && s.known[c] ==> x[c] == 0)
    && (forall p :: 0 <= p < s.width && s.pivots[p].Some? ==> Dot(s.pivots[p].value, x, s.width) == 0)
  }

  ghost predicate Covers(s: Slot, ss: nat, eqs: seq<Row>)
    requires Formed(s, ss)
  {
    forall x: Row :: Annihilates(s, ss, x) ==> Solves(eqs, x)
  }

  // ---- the null vector of a free column

  ghost predicate Free(s: Slot, c: nat)
    requires s.Solving? && |s.known| == |s.pivots| == s.width
  {
    c < s.width && !s.known[c] && s.pivots[c].None?
  }

  ghost function NullVector(s: Slot, ss: nat, f: nat): (x: Row)
    requires Formed(s, ss) && Free(s, f)
    ensures |x| == s.width
  {
    seq(s.width, i requires 0 <= i < s.width =>
      if i == f then 1 else if s.pivots[i].Some? then s.pivots[i].value[f] else 0)
  }

  lemma NullVectorDot(s: Slot, ss: nat, f: nat, p: nat)
    requires Formed(s, ss) && Free(s, f) && p < s.width && s.pivots[p].Some?
    ensures Dot(s.pivots[p].value, NullVector(s, ss, f), s.width) == 0
  {
    hide Add, Mul;
    var row, x := s.pivots[p].value, NullVector(s, ss, f);
    forall i | 0 <= i < s.width && i != p && i != f
      ensures Mul(row[i], x[i]) == 0
    {
      MulZero(row[i]);
      MulZero(x[i]);
    }
    DotPair(row, x, p, f, s.width);
    MulOne(row[f]);
    MulCommutes(row[f], 1);
    AddCancels(row[f], row[f]);
  }

  lemma NullVectorAnnihilates(s: Slot, ss: nat, f: nat)
    requires Formed(s, ss) && Free(s, f)
    ensures Annihilates(s, ss, NullVector(s, ss, f))
  {
    forall p | 0 <= p < s.width && s.pivots[p].Some?
      ensures Dot(s.pivots[p].value, NullVector(s, ss, f), s.width) == 0
    {
      NullVectorDot(s, ss, f, p);
    }
  }

  /** An unknown column of a live slot differs from zero in some solution of its system. */
  lemma UnknownVaries(s: Slot, ss: nat, c: nat) returns (x: Row)
    requires Formed(s, ss) && NoUnitRow(s, ss) && c < s.width && !s.known[c]
    ensures Annihilates(s, ss, x) && x[c] != 0
  {
    var f := c;
    if s.pivots[c].Some? {
      f :| 0 <= f < s.width && f != c && s.pivots[c].value[f] != 0;
    }
    NullVectorAnnihilates(s, ss, f);
    x := NullVector(s, ss, f);
  }

  /** A column is known exactly when its unit vector lies in the span of the accepted equations. */
  lemma KnownIffInSpan(s: Slot, ss: nat, eqs: seq<Row>, c: nat)
    requires Formed(s, ss) && NoUnitRow(s, ss) && StateInSpan(s, ss, eqs) && Covers(s, ss, eqs)
    requires c < s.width
    ensures s.known[c] <==> InSpan(eqs, Unit(s.width, c))
  {
    hide Add, Mul;
    if !s.known[c] && InSpan(eqs, Unit(s.width, c)) {
      var x := UnknownVaries(s, ss, c);
      SpanAnnihilated(eqs, Unit(s.width, c), x);
      DotUnit(s.width, c, x, s.width);
      assert false;
    }
  }

  // ---- rows and payloads that tell the truth about the sources

  /** The padded source with the given seq, out of all sources ever sent. */
  ghost function Source(sources: seq<Row>, q: nat, ss: nat): (r: Row)
    ensures |r| == ss
  {
    if q < |sources| && |sources[q]| == ss then sources[q] else Zero(ss)
  }

  /** Byte k of the sources with seq in [anchor, anchor + w). */
  ghost function Column(sources: seq<Row>, anchor: nat, w: nat, ss: nat, k: nat): (r: Row)
    requires k < ss
    ensures |r| == w
  {
    seq(w, c requires 0 <= c < w => Source(sources, anchor + c, ss)[k])
  }

  ghost predicate RowHolds(row: Row, w: nat, ss: nat, anchor: nat, sources: seq<Row>) {
    && |row| == w + ss
    && forall k :: 0 <= k < ss ==> row[w + k] == Dot(row, Column(sources, anchor, w, ss, k), w)
  }

  ghost predicate SlotHolds(s: Slot, ss: nat, anchor: nat, sources: seq<Row>)
    requires Formed(s, ss)
  {
    forall p :: 0 <= p < s.width && s.pivots[p].Some? ==> RowHolds(s.pivots[p].value, s.width, ss, anchor, sources)
  }

  ghost predicate PayloadsHold(recovered: map<nat, Row>, ss: nat, sources: seq<Row>) {
    forall q :: q in recovered ==> recovered[q] == Source(sources, q, ss)
  }

  lemma HoldsMulAcc(f: byte, a: Row, b: Row, w: nat, ss: nat, anchor: nat, sources: seq<Row>)
    requires RowHolds(a, w, ss, anchor, sources) && RowHolds(b, w, ss, anchor, sources)
    ensures RowHolds(MulAcc(f, a, b), w, ss, anchor, sources)
  {
    forall k | 0 <= k < ss
      ensures MulAcc(f, a, b)[w + k] == Dot(MulAcc(f, a, b), Column(sources, anchor, w, ss, k), w)
    {
      hide Add, Mul;
      DotMulAcc(f, a, b, Column(sources, anchor, w, ss, k), w);
    }
  }

  lemma HoldsScale(f: byte, a: Row, w: nat, ss: nat, anchor: nat, sources: seq<Row>)
    requires RowHolds(a, w, ss, anchor, sources)
    ensures RowHolds(Scale(f, a), w, ss, anchor, sources)
  {
    forall k | 0 <= k < ss
      ensures Scale(f, a)[w + k] == Dot(Scale(f, a), Column(sources, anchor, w, ss, k), w)
    {
      hide Add, Mul;
      DotScale(f, a, Column(sources, anchor, w, ss, k), w);
    }
  }

  /** A row whose coefficients are the unit vector of c holds exactly when its payload is source anchor + c. */
  lemma UnitRowHolds(row: Row, w: nat, c: nat, ss: nat, anchor: nat, sources: seq<Row>)
    requires |row| == w + ss && c < w && row[..w] == Unit(w, c)
    ensures RowHolds(row, w, ss, anchor, sources) <==> row[w..] == Source(sources, anchor + c, ss)
  {
    hide Add, Mul;
    var src := Source(sources, anchor + c, ss);
    forall k | 0 <= k < ss
      ensures Dot(row, Column(sources, anchor, w, ss, k), w) == src[k]
    {
      var x := Column(sources, anchor, w, ss, k);
      assert x[..w] == x;
      assert Unit(w, c)[..w] == Unit(w, c);
      DotPrefix(row, Unit(w, c), x, x, w);
      DotUnit(w, c, x, w);
    }
    if RowHolds(row, w, ss, anchor, sources) {
      assert forall k :: 0 <= k < ss ==> row[w..][k] == row[w + k];
      assert row[w..] == src;
    }
  }

  // ---- forward reduction

  /** P is a fused row the slot already stands for: a stored pivot row or a known column. */
  ghost predicate StateRow(P: Row, s: Slot, ss: nat, anchor: nat, eqs: seq<Row>, recovered: map<nat, Row>)
    requires Formed(s, ss)
  {
    && |P| == s.width + ss
    && InSpan(eqs, P[..s.width])
    && (forall x: Row :: Annihilates(s, ss, x) ==> Dot(P, x, s.width) == 0)
    && (forall sources: seq<Row> :: SlotHolds(s, ss, anchor, sources) && PayloadsHold(recovered, ss, sources)
          ==> RowHolds(P, s.width, ss, anchor, sources))
  }

  /** row arose from row0 by adding multiples of rows the slot stands for. */
  ghost predicate ReducedFrom(row: Row, row0: Row, s: Slot, ss: nat, anchor: nat, eqs: seq<Row>,
        recovered: map<nat, Row>)
    requires Formed(s, ss)
  {
    && |row| == |row0| == s.width + ss
    && InSpan(eqs, MulAcc(1, row[..s.width], row0[..s.width]))
    && (forall x: Row :: Annihilates(s, ss, x) ==> Dot(row, x, s.width) == Dot(row0, x, s.width))
    && (forall sources: seq<Row> ::
          SlotHolds(s, ss, anchor, sources) && PayloadsHold(recovered, ss, sources)
            && RowHolds(row0, s.width, ss, anchor, sources)
          ==> RowHolds(row, s.width, ss, anchor, sources))
  }

  lemma SumWithSelf(a: Row)
    ensures MulAcc(1, a, a) == Zero(|a|)
  {
    hide Add, Mul;
    forall i | 0 <= i < |a|
      ensures MulAcc(1, a, a)[i] == 0
    {
      MulOne(a[i]);
      AddCancels(a[i], a[i]);
    }
  }

  lemma ReducedFromSelf(row: Row, s: Slot, ss: nat, anchor: nat, eqs: seq<Row>, recovered: map<nat, Row>)
    requires Formed(s, ss) && |row| == s.width + ss && Shape(eqs, s.width)
    ensures ReducedFrom(row, row, s, ss, anchor, eqs, recovered)
  {
    SumWithSelf(row[..s.width]);
    SpanZero(eqs, s.width);
  }

  lemma SumStep(f: byte, p: Row, row: Row, row0: Row)
    requires |p| == |row| == |row0|
    ensures MulAcc(1, MulAcc(f, p, row), row0) == MulAcc(f, p, MulAcc(1, row, row0))
  {
    hide Add, Mul;
    forall i | 0 <= i < |row|
      ensures MulAcc(1, MulAcc(f, p, row), row0)[i] == MulAcc(f, p, MulAcc(1, row, row0))[i]
    {
      MulOne(Add(row[i], Mul(f, p[i])));
      MulOne(row[i]);
      AddLaws(row0[i], row[i], Mul(f, p[i]));
    }
  }

  lemma ReduceStep(f: byte, P: Row, row: Row, row0: Row, s: Slot, ss: nat, anchor: nat, eqs: seq<Row>,
        recovered: map<nat, Row>)
    requires Formed(s, ss)
    requires ReducedFrom(row, row0, s, ss, anchor, eqs, recovered)
    requires StateRow(P, s, ss, anchor, eqs, recovered)
    ensures ReducedFrom(MulAcc(f, P, row), row0, s, ss, anchor, eqs, recovered)
  {
    hide Add, Mul;
    var w, row' := s.width, MulAcc(f, P, row);
    assert row'[..w] == MulAcc(f, P[..w], row[..w]);
    SumStep(f, P[..w], row[..w], row0[..w]);
    SpanMulAcc(eqs, f, P[..w], MulAcc(1, row[..w], row0[..w]));
    forall x: Row | Annihilates(s, ss, x)
      ensures Dot(row', x, w) == Dot(row0, x, w)
    {
      DotMulAcc(f, P, row, x, w);
      MulZero(f);
      AddCancels(Dot(row, x, w), 0);
    }
    forall sources: seq<Row> |
      SlotHolds(s, ss, anchor, sources) && PayloadsHold(recovered, ss, sources)
        && RowHolds(row0, w, ss, anchor, sources)
      ensures RowHolds(row', w, ss, anchor, sources)
    {
      HoldsMulAcc(f, P, row, w, ss, anchor, sources);
    }
  }

  ghost predicate PayloadsPresent(s: Slot, ss: nat, anchor: nat, recovered: map<nat, Row>)
    requires Formed(s, ss)
  {
    forall c :: 0 <= c < s.width && s.known[c] ==> anchor + c in recovered && |recovered[anchor + c]| == ss
  }

  lemma KnownStateRow(c: nat, s: Slot, ss: nat, anchor: nat, eqs: seq<Row>, recovered: map<nat, Row>)
    requires Formed(s, ss) && c < s.width && s.known[c]
    requires StateInSpan(s, ss, eqs) && PayloadsPresent(s, ss, anchor, recovered)
    ensures StateRow(Unit(s.width, c) + recovered[anchor + c], s, ss, anchor, eqs, recovered)
  {
    hide Add, Mul;
    var w := s.width;
    var P := Unit(w, c) + recovered[anchor + c];
    assert P[..w] == Unit(w, c);
    forall x: Row | Annihilates(s, ss, x)
      ensures Dot(P, x, w) == 0
    {
      assert Unit(w, c)[..w] == Unit(w, c) && x[..w] == x;
      DotPrefix(P, Unit(w, c), x, x, w);
      DotUnit(w, c, x, w);
    }
    forall sources: seq<Row> | PayloadsHold(recovered, ss, sources)
      ensures RowHolds(P, w, ss, anchor, sources)
    {
      UnitRowHolds(P, w, c, ss, anchor, sources);
    }
  }

  /** Clearing coefficient c and adding the payload is adding a multiple of the known column's unit row. */
  lemma ClearKnown(row: Row, w: nat, c: nat, src: Row)
    requires c < w <= |row| && |src| == |row| - w
    ensures row[..w][c := 0] + MulAcc(row[c], src, row[w..]) == MulAcc(row[c], Unit(w, c) + src, row)
  {
    hide Add, Mul;
    var l, r := row[..w][c := 0] + MulAcc(row[c], src, row[w..]), MulAcc(row[c], Unit(w, c) + src, row);
    forall i | 0 <= i < |row|
      ensures l[i] == r[i]
    {
      MulZero(row[c]);
      MulOne(row[c]);
      MulCommutes(row[c], 1);
      AddCancels(row[i], 0);
      AddCancels(row[c], row[c]);
      if i < w {
        assert (Unit(w, c) + src)[i] == if i == c then 1 else 0;
      }
    }
  }

  method ForwardReduce(anchor: nat, s: Slot, ss: nat, recovered: map<nat, Row>, row0: Row, ghost eqs: seq<Row>)
    returns (row: Row)
    requires Formed(s, ss) && |row0| == s.width + ss && Shape(eqs, s.width)
    requires StateInSpan(s, ss, eqs) && PayloadsPresent(s, ss, anchor, recovered)
    ensures ReducedFrom(row, row0, s, ss, anchor, eqs, recovered)
    ensures forall c :: 0 <= c < s.width && (s.known[c] || s.pivots[c].Some?) ==> row[c] == 0
  {
    hide Add, Mul;
    var w := s.width;
    row := row0;
    ReducedFromSelf(row0, s, ss, anchor, eqs, recovered);
    for c := 0 to w
      invariant ReducedFrom(row, row0, s, ss, anchor, eqs, recovered)
      invariant forall i :: 0 <= i < c && (s.known[i] || s.pivots[i].Some?) ==> row[i] == 0
    {
      var factor := row[c];
      if factor != 0 {
        if s.known[c] {
          var src := recovered[anchor + c];
          ClearKnown(row, w, c, src);
          KnownStateRow(c, s, ss, anchor, eqs, recovered);
          ReduceStep(factor, Unit(w, c) + src, row, row0, s, ss, anchor, eqs, recovered);
          row := row[..w][c := 0] + MulAcc(factor, src, row[w..]);
        } else if s.pivots[c].Some? {
          var prow := s.pivots[c].value;
          PivotStateRow(c, s, ss, anchor, eqs, recovered);
          ReduceStep(factor, prow, row, row0, s, ss, anchor, eqs, recovered);
          PivotClears(c, factor, row, s, ss);
          row := MulAcc(factor, prow, row);
        }
      }
    }
  }

  lemma PivotStateRow(c: nat, s: Slot, ss: nat, anchor: nat, eqs: seq<Row>, recovered: map<nat, Row>)
    requires Formed(s, ss) && c < s.width && s.pivots[c].Some? && StateInSpan(s, ss, eqs)
    ensures StateRow(s.pivots[c].value, s, ss, anchor, eqs, recovered)
  {}

  lemma PivotClears(c: nat, f: byte, row: Row, s: Slot, ss: nat)
    requires Formed(s, ss) && c < s.width && s.pivots[c].Some? && |row| == s.width + ss && row[c] == f
    ensures var row' := MulAcc(f, s.pivots[c].value, row);
      forall i :: 0 <= i < s.width && (s.known[i] || s.pivots[i].Some?) ==> row'[i] == if i == c then 0 else row[i]
  {
    hide Add, Mul;
    forall i | 0 <= i < s.width && (s.known[i] || s.pivots[i].Some?)
      ensures MulAcc(f, s.pivots[c].value, row)[i] == if i == c then 0 else row[i]
    {
      MulOne(f);
      MulCommutes(f, 1);
      AddCancels(f, f);
      MulZero(f);
      AddCancels(row[i], 0);
    }
  }

  // ---- installing a new pivot row

  /** A reduced row is zero on every coefficient exactly when the fed row was dependent. */
  lemma DependentIffReducedToZero(row: Row, row0: Row, s: Slot, ss: nat, anchor: nat, eqs: seq<Row>,
        recovered: map<nat, Row>)
    requires Formed(s, ss) && Covers(s, ss, eqs)
    requires ReducedFrom(row, row0, s, ss, anchor, eqs, recovered)
    requires forall c :: 0 <= c < s.width && (s.known[c] || s.pivots[c].Some?) ==> row[c] == 0
    ensures InSpan(eqs, row0[..s.width]) <==> forall c :: 0 <= c < s.width ==> row[c] == 0
  {
    hide Add, Mul;
    var w := s.width;
    if forall c :: 0 <= c < w ==> row[c] == 0 {
      assert row[..w] == Zero(w);
      SumWithZero(row0[..w]);
    } else {
      var f :| 0 <= f < w && row[f] != 0;
      var x := NullVector(s, ss, f);
      NullVectorAnnihilates(s, ss, f);
      forall i | 0 <= i < w && i != f
        ensures Mul(row[i], x[i]) == 0
      {
        MulZero(row[i]);
        MulZero(x[i]);
      }
      DotSingle(row, x, f, w);
      MulOne(row[f]);
      MulCommutes(row[f], 1);
      if InSpan(eqs, row0[..w]) {
        SpanAnnihilated(eqs, row0[..w], x);
        assert row0[..w][..w] == row0[..w] && x[..w] == x;
        DotPrefix(row0, row0[..w], x, x, w);
        assert false;
      }
    }
  }

  lemma SumWithZero(a: Row)
    ensures MulAcc(1, Zero(|a|), a) == a
  {
    hide Add, Mul;
    forall i | 0 <= i < |a|
      ensures MulAcc(1, Zero(|a|), a)[i] == a[i]
    {
      MulZero(1);
      AddCancels(a[i], 0);
    }
  }

  function Cleared(o: Option<Row>, row: Row, pcol: nat): Option<Row>
    requires o.Some? ==> |o.value| == |row| && pcol < |row|
  {
    if o.Some? && o.value[pcol] != 0 then Some(MulAcc(o.value[pcol], row, o.value)) else o
  }

  /** Gauss-Jordan step: clears column pcol from every stored row, reporting the rows it changed. */
  method EliminateColumn(pivots: seq<Option<Row>>, row: Row, pcol: nat)
    returns (cleared: seq<Option<Row>>, touched: seq<nat>)
    requires pcol < |pivots| <= |row| && pivots[pcol].None?
    requires forall c :: 0 <= c < |pivots| && pivots[c].Some? ==> |pivots[c].value| == |row|
    ensures |cleared| == |pivots|
    ensures forall c :: 0 <= c < |pivots| ==> cleared[c] == Cleared(pivots[c], row, pcol)
    ensures forall c :: c in touched ==> c < |pivots| && pivots[c].Some?
    ensures forall c :: 0 <= c < |pivots| && pivots[c].Some? && pivots[c].value[pcol] != 0 ==> c in touched
  {
    cleared, touched := pivots, [];
    for c := 0 to |pivots|
      invariant |cleared| == |pivots|
      invariant forall i :: 0 <= i < c ==> cleared[i] == Cleared(pivots[i], row, pcol)
      invariant forall i :: c <= i < |pivots| ==> cleared[i] == pivots[i]
      invariant forall i :: i in touched ==> i < c && pivots[i].Some?
      invariant forall i :: 0 <= i < c && pivots[i].Some? && pivots[i].value[pcol] != 0 ==> i in touched
    {
      if c != pcol && cleared[c].Some? {
        var other := cleared[c].value;
        var f := other[pcol];
        if f != 0 {
          cleared := cleared[c := Some(MulAcc(f, row, other))];
          touched := touched + [c];
        }
      }
    }
  }

  /** row can become the pivot row of its free column pcol. */
  ghost predicate Installable(s: Slot, ss: nat, row: Row, pcol: nat) {
    && Formed(s, ss) && |row| == s.width + ss && Free(s, pcol) && row[pcol] == 1
    && forall c :: 0 <= c < s.width && (s.known[c] || s.pivots[c].Some?) ==> row[c] == 0
  }

  ghost function Installed(s: Slot, ss: nat, row: Row, pcol: nat): (s': Slot)
    requires Installable(s, ss, row, pcol)
    ensures s'.Solving? && s'.width == s.width && |s'.pivots| == |s.pivots|
  {
    s.(pivots := seq(s.width, c requires 0 <= c < s.width =>
         if c == pcol then Some(row) else Cleared(s.pivots[c], row, pcol)),
       codedRows := s.codedRows + 1)
  }

  lemma InstalledRow(s: Slot, ss: nat, row: Row, pcol: nat, p: nat)
    requires Installable(s, ss, row, pcol) && p < s.width && p != pcol && s.pivots[p].Some?
    ensures Cleared(s.pivots[p], row, pcol) == Some(MulAcc(s.pivots[p].value[pcol], row, s.pivots[p].value))
    ensures PivotRow(Installed(s, ss, row, pcol), p, Cleared(s.pivots[p], row, pcol).value, ss)
  {
    hide Add, Mul;
    var other := s.pivots[p].value;
    var f := other[pcol];
    MulAccZero(row, other);
    var row' := MulAcc(f, row, other);
    forall c | 0 <= c < s.width && (s.known[c] || s.pivots[c].Some? || c == pcol)
      ensures row'[c] == if c == pcol then 0 else other[c]
    {
      MulZero(f);
      AddCancels(other[c], 0);
      MulOne(f);
      MulCommutes(f, 1);
      AddCancels(f, f);
    }
  }

  lemma InstalledFormed(s: Slot, ss: nat, row: Row, pcol: nat)
    requires Installable(s, ss, row, pcol)
    ensures Formed(Installed(s, ss, row, pcol), ss)
  {
    forall p | 0 <= p < s.width && p != pcol && s.pivots[p].Some?
      ensures PivotRow(Installed(s, ss, row, pcol), p, Cleared(s.pivots[p], row, pcol).value, ss)
    {
      InstalledRow(s, ss, row, pcol, p);
    }
  }

  /** The new system has exactly the solutions of the old one that the new row annihilates. */
  lemma InstalledSolutions(s: Slot, ss: nat, row: Row, pcol: nat, x: Row)
    requires Installable(s, ss, row, pcol) && Formed(Installed(s, ss, row, pcol), ss)
    ensures Annihilates(Installed(s, ss, row, pcol), ss, x)
       <==> Annihilates(s, ss, x) && Dot(row, x, s.width) == 0
  {
    hide Add, Mul;
    var s' := Installed(s, ss, row, pcol);
    if |x| == s.width && Dot(row, x, s.width) == 0 {
      forall p | 0 <= p < s.width && s.pivots[p].Some?
        ensures p != pcol && s'.pivots[p].Some?
        ensures Dot(s'.pivots[p].value, x, s.width) == Dot(s.pivots[p].value, x, s.width)
      {
        var f := s.pivots[p].value[pcol];
        InstalledRow(s, ss, row, pcol, p);
        DotMulAcc(f, row, s.pivots[p].value, x, s.width);
        MulZero(f);
        AddCancels(Dot(s.pivots[p].value, x, s.width), 0);
      }
    }
  }

  lemma InstalledInSpan(s: Slot, ss: nat, row: Row, pcol: nat, eqs: seq<Row>)
    requires Installable(s, ss, row, pcol) && Formed(Installed(s, ss, row, pcol), ss)
    requires StateInSpan(s, ss, eqs) && InSpan(eqs, row[..s.width])
    ensures StateInSpan(Installed(s, ss, row, pcol), ss, eqs)
  {
    var s', w := Installed(s, ss, row, pcol), s.width;
    forall p | 0 <= p < w && s'.pivots[p].Some?
      ensures InSpan(eqs, s'.pivots[p].value[..w])
    {
      if p != pcol {
        InstalledRow(s, ss, row, pcol, p);
        var f, other := s.pivots[p].value[pcol], s.pivots[p].value;
        assert MulAcc(f, row, other)[..w] == MulAcc(f, row[..w], other[..w]);
        SpanMulAcc(eqs, f, row[..w], other[..w]);
      }
    }
  }

  lemma InstalledHolds(s: Slot, ss: nat, row: Row, pcol: nat, anchor: nat, sources: seq<Row>)
    requires Installable(s, ss, row, pcol) && Formed(Installed(s, ss, row, pcol), ss)
    requires SlotHolds(s, ss, anchor, sources) && RowHolds(row, s.width, ss, anchor, sources)
    ensures SlotHolds(Installed(s, ss, row, pcol), ss, anchor, sources)
  {
    var s', w := Installed(s, ss, row, pcol), s.width;
    forall p | 0 <= p < w && s'.pivots[p].Some?
      ensures RowHolds(s'.pivots[p].value, w, ss, anchor, sources)
    {
      if p != pcol {
        InstalledRow(s, ss, row, pcol, p);
        HoldsMulAcc(s.pivots[p].value[pcol], row, s.pivots[p].value, w, ss, anchor, sources);
      }
    }
  }

  lemma InstalledCounted(s: Slot, ss: nat, row: Row, pcol: nat)
    requires Installable(s, ss, row, pcol) && Counted(s)
    ensures Counted(Installed(s, ss, row, pcol))
  {
    InstalledSome(s, ss, row, pcol);
    hide Installable, Installed, Cleared;
    var s' := Installed(s, ss, row, pcol);
    assert PivotSet(s') == PivotSet(s) + {pcol};
    assert KnownSet(s') == KnownSet(s);
  }

  lemma InstalledSome(s: Slot, ss: nat, row: Row, pcol: nat)
    requires Installable(s, ss, row, pcol)
    ensures var s' := Installed(s, ss, row, pcol);
      && s'.known == s.known && s'.knownCount == s.knownCount && s'.codedRows == s.codedRows + 1
      && pcol < |s.pivots| && s.pivots[pcol].None?
      && forall c :: 0 <= c < |s.pivots| ==> (s'.pivots[c].Some? <==> c == pcol || s.pivots[c].Some?)
  {}

  // ---- retiring unit rows

  /** Pivot row c has become a unit row: its column turns known and the row leaves the matrix. */
  function Retired(s: Slot, c: nat): Slot
    requires s.Solving? && |s.known| == |s.pivots| == s.width && c < s.width && s.codedRows > 0
  {
    s.(known := s.known[c := true], knownCount := s.knownCount + 1,
       pivots := s.pivots[c := None], codedRows := s.codedRows - 1)
  }

  ghost predicate Retirable(s: Slot, ss: nat, c: nat) {
    && Formed(s, ss) && Counted(s) && c < s.width && s.pivots[c].Some? && !HasTail(s.pivots[c].value, s.width, c)
  }

  lemma UnitPrefix(s: Slot, ss: nat, c: nat)
    requires Retirable(s, ss, c)
    ensures s.pivots[c].value[..s.width] == Unit(s.width, c)
    ensures s.codedRows > 0
  {
    assert c in PivotSet(s);
  }

  lemma RetiredFormed(s: Slot, ss: nat, c: nat)
    requires Retirable(s, ss, c) && s.codedRows > 0
    ensures Formed(Retired(s, c), ss)
  {}

  lemma RetiredCounted(s: Slot, ss: nat, c: nat)
    requires Retirable(s, ss, c) && s.codedRows > 0
    ensures Counted(Retired(s, c))
  {
    var s' := Retired(s, c);
    assert KnownSet(s') == KnownSet(s) + {c as int};
    assert PivotSet(s') == PivotSet(s) - {c as int};
  }

  lemma RetiredSolutions(s: Slot, ss: nat, c: nat, x: Row)
    requires Retirable(s, ss, c) && s.codedRows > 0 && Formed(Retired(s, c), ss)
    ensures Annihilates(Retired(s, c), ss, x) <==> Annihilates(s, ss, x)
  {
    if |x| == s.width {
      UnitPrefix(s, ss, c);
      var row := s.pivots[c].value;
      assert Unit(s.width, c)[..s.width] == Unit(s.width, c) && x[..s.width] == x;
      DotPrefix(row, Unit(s.width, c), x, x, s.width);
      DotUnit(s.width, c, x, s.width);
      var s' := Retired(s, c);
      assert Dot(s.pivots[c].value, x, s.width) == x[c];
      assert forall p :: 0 <= p < s.width && p != c ==> s'.pivots[p] == s.pivots[p] && s'.known[p] == s.known[p];
      assert s'.known[c] && s'.pivots[c].None? && !s.known[c];
    }
  }

  method IsUnitRow(row: Row, w: nat, ghost p: nat) returns (unit: bool)
    requires p < w <= |row| && row[p] != 0
    ensures unit <==> !HasTail(row, w, p)
  {
    var nz := 0;
    ghost var seen := {};
    for i := 0 to w
      invariant nz == |seen| && nz <= 1
      invariant seen == set j | 0 <= j < i && row[j] != 0
    {
      if row[i] != 0 {
        nz := nz + 1;
        seen := seen + {i};
        if nz > 1 {
          MoreThanOne(seen, p);
          return false;
        }
      }
    }
    assert p in seen;
    if HasTail(row, w, p) {
      var c :| 0 <= c < w && c != p && row[c] != 0;
      assert {c, p} <= seen;
      SubsetSize({c, p}, seen);
      assert false;
    }
    return nz == 1;
  }

  lemma MoreThanOne(s: set<int>, p: int)
    requires |s| > 1
    ensures exists c :: c in s && c != p
  {
    if forall c :: c in s ==> c == p {
      SubsetSize(s, {p});
      assert false;
    }
  }

  // ---- deliveries

  /** out lists exactly the payloads that after holds and before does not, each once. */
  ghost predicate Delivers(before: map<nat, Row>, after: map<nat, Row>, out: seq<(nat, Row)>) {
    && Emitted(before.Keys, after.Keys, out)
    && (forall q :: q in before ==> after[q] == before[q])
    && (forall i :: 0 <= i < |out| ==> out[i].0 in after && after[out[i].0] == out[i].1)
  }

  lemma DeliverOne(before: map<nat, Row>, after: map<nat, Row>, out: seq<(nat, Row)>, q: nat, data: Row)
    requires Delivers(before, after, out) && q !in after
    ensures Delivers(before, after[q := data], out + [(q, data)])
  {
    EmittedSnoc(before.Keys, after.Keys, out, (q, data));
    assert after[q := data].Keys == after.Keys + {q};
  }

  ghost predicate PayloadSizes(recovered: map<nat, Row>, ss: nat) {
    forall q :: q in recovered ==> |recovered[q]| == ss
  }

  ghost predicate SameSolutions(s0: Slot, s: Slot, ss: nat)
    requires Formed(s0, ss) && Formed(s, ss)
  {
    forall x: Row :: Annihilates(s, ss, x) <==> Annihilates(s0, ss, x)
  }

  /** Whatever sources the old rows and payloads were true of, the new ones are. */
  ghost predicate TruthKept(s0: Slot, before: map<nat, Row>, s: Slot, after: map<nat, Row>, ss: nat, anchor: nat)
    requires Formed(s0, ss) && Formed(s, ss)
  {
    forall sources: seq<Row> ::
      SlotHolds(s0, ss, anchor, sources) && PayloadsHold(before, ss, sources)
      ==> SlotHolds(s, ss, anchor, sources) && PayloadsHold(after, ss, sources)
  }

  ghost predicate MatrixSwept(s0: Slot, s: Slot, ss: nat, eqs: seq<Row>)
    requires Formed(s0, ss)
  {
    && Formed(s, ss) && Counted(s) && s.width == s0.width && StateInSpan(s, ss, eqs)
    && s.knownCount + s.codedRows == s0.knownCount + s0.codedRows
    && SameSolutions(s0, s, ss)
    && (forall c :: 0 <= c < s.width && s0.known[c] ==> s.known[c])
  }

  ghost predicate StoreSwept(before: map<nat, Row>, s: Slot, after: map<nat, Row>, out: seq<(nat, Row)>, ss: nat,
        anchor: nat)
    requires Formed(s, ss)
  {
    && PayloadsPresent(s, ss, anchor, after) && PayloadSizes(after, ss)
    && Delivers(before, after, out)
    && (forall q :: q in Seqs(out) ==> anchor <= q < anchor + s.width && s.known[q - anchor])
  }

  ghost predicate SweptTo(s0: Slot, before: map<nat, Row>, s: Slot, after: map<nat, Row>, out: seq<(nat, Row)>,
                          ss: nat, anchor: nat, eqs: seq<Row>)
    requires Formed(s0, ss)
  {
    MatrixSwept(s0, s, ss, eqs) && TruthKept(s0, before, s, after, ss, anchor)
      && StoreSwept(before, s, after, out, ss, anchor)
  }

  /** The state after row c is retired: its source is delivered unless some other system already had it. */
  function Stored(recovered: map<nat, Row>, q: nat, data: Row): map<nat, Row> {
    if q in recovered then recovered else recovered[q := data]
  }

  function Reported(recovered: map<nat, Row>, q: nat, data: Row, out: seq<(nat, Row)>): seq<(nat, Row)> {
    if q in recovered then out else out + [(q, data)]
  }

  lemma RetiredSpan(s: Slot, ss: nat, c: nat, eqs: seq<Row>)
    requires Retirable(s, ss, c) && s.codedRows > 0 && Formed(Retired(s, c), ss) && StateInSpan(s, ss, eqs)
    ensures StateInSpan(Retired(s, c), ss, eqs)
  {
    UnitPrefix(s, ss, c);
  }

  lemma RetiredTruth(s: Slot, ss: nat, c: nat, anchor: nat, recovered: map<nat, Row>)
    requires Retirable(s, ss, c) && s.codedRows > 0 && Formed(Retired(s, c), ss)
    ensures TruthKept(s, recovered, Retired(s, c), Stored(recovered, anchor + c, s.pivots[c].value[s.width..]), ss,
        anchor)
  {
    UnitPrefix(s, ss, c);
    forall sources: seq<Row> | SlotHolds(s, ss, anchor, sources) && PayloadsHold(recovered, ss, sources)
      ensures SlotHolds(Retired(s, c), ss, anchor, sources)
      ensures PayloadsHold(Stored(recovered, anchor + c, s.pivots[c].value[s.width..]), ss, sources)
    {
      UnitRowHolds(s.pivots[c].value, s.width, c, ss, anchor, sources);
    }
  }

  lemma RetireKeepsMatrix(s0: Slot, s: Slot, c: nat, ss: nat, eqs: seq<Row>)
    requires Formed(s0, ss) && MatrixSwept(s0, s, ss, eqs) && Retirable(s, ss, c) && s.codedRows > 0
    ensures MatrixSwept(s0, Retired(s, c), ss, eqs)
  {
    RetiredFormed(s, ss, c);
    RetiredCounted(s, ss, c);
    RetiredSpan(s, ss, c, eqs);
    forall x: Row
      ensures Annihilates(Retired(s, c), ss, x) <==> Annihilates(s0, ss, x)
    {
      RetiredSolutions(s, ss, c, x);
    }
    hide Annihilates, StateInSpan, Counted, HasTail;
  }

  lemma RetireKeepsStore(before: map<nat, Row>, s: Slot, recovered: map<nat, Row>, out: seq<(nat, Row)>,
                         c: nat, ss: nat, anchor: nat)
    requires Retirable(s, ss, c) && s.codedRows > 0 && Formed(Retired(s, c), ss)
    requires StoreSwept(before, s, recovered, out, ss, anchor)
    ensures var data := s.pivots[c].value[s.width..];
      StoreSwept(before, Retired(s, c), Stored(recovered, anchor + c, data),
          Reported(recovered, anchor + c, data, out), ss, anchor)
  {
    hide Counted, HasTail, Delivers, Seqs;
    var q, data := anchor + c, s.pivots[c].value[s.width..];
    if q !in recovered {
      DeliverOne(before, recovered, out, q, data);
      SeqsSnoc(out, (q, data));
    }
  }

  lemma RetireKeeps(s0: Slot, before: map<nat, Row>, s: Slot, recovered: map<nat, Row>, out: seq<(nat, Row)>,
                    c: nat, ss: nat, anchor: nat, eqs: seq<Row>)
    requires Formed(s0, ss) && SweptTo(s0, before, s, recovered, out, ss, anchor, eqs)
    requires Retirable(s, ss, c)
    ensures s.codedRows > 0
    ensures var data := s.pivots[c].value[s.width..];
      SweptTo(s0, before, Retired(s, c), Stored(recovered, anchor + c, data),
          Reported(recovered, anchor + c, data, out), ss, anchor, eqs)
  {
    UnitPrefix(s, ss, c);
    RetireKeepsMatrix(s0, s, c, ss, eqs);
    RetireKeepsStore(before, s, recovered, out, c, ss, anchor);
    RetiredTruth(s, ss, c, anchor, recovered);
    hide SameSolutions, StateInSpan, Counted, StoreSwept, HasTail, SlotHolds, PayloadsHold;
  }

  lemma SweepStarts(s: Slot, recovered: map<nat, Row>, ss: nat, anchor: nat, eqs: seq<Row>)
    requires Formed(s, ss) && Counted(s) && StateInSpan(s, ss, eqs)
    requires PayloadsPresent(s, ss, anchor, recovered) && PayloadSizes(recovered, ss)
    ensures SweptTo(s, recovered, s, recovered, [], ss, anchor, eqs)
  {
    assert Seqs<Row>([]) == {};
  }

  lemma RetirableRow(s: Slot, ss: nat, c: nat)
    requires Formed(s, ss) && Counted(s) && c < s.width && s.pivots[c].Some? && !HasTail(s.pivots[c].value, s.width, c)
    ensures Retirable(s, ss, c)
  {}

  /** The sweep over touched rows: unit rows deliver their source and leave the matrix. */
  method UnitSweep(anchor: nat, s0: Slot, ss: nat, recovered0: map<nat, Row>, touched: seq<nat>, ghost eqs: seq<Row>)
    returns (s: Slot, recovered: map<nat, Row>, out: seq<(nat, Row)>)
    requires Formed(s0, ss) && Counted(s0) && StateInSpan(s0, ss, eqs)
    requires PayloadsPresent(s0, ss, anchor, recovered0) && PayloadSizes(recovered0, ss)
    requires forall c :: c in touched ==> c < s0.width
    requires forall p :: 0 <= p < s0.width && s0.pivots[p].Some? && p !in touched ==>
      HasTail(s0.pivots[p].value, s0.width, p)
    ensures SweptTo(s0, recovered0, s, recovered, out, ss, anchor, eqs) && Formed(s, ss) && NoUnitRow(s, ss)
  {
    hide MatrixSwept, TruthKept, StoreSwept, SameSolutions, StateInSpan, HasTail, Retirable;
    s, recovered, out := s0, recovered0, [];
    SweepStarts(s0, recovered0, ss, anchor, eqs);
    for i := 0 to |touched|
      invariant Formed(s, ss) && Counted(s) && s.width == s0.width
      invariant SweptTo(s0, recovered0, s, recovered, out, ss, anchor, eqs)
      invariant forall p :: 0 <= p < s.width && s.pivots[p].Some? && p !in touched[i..] ==>
        HasTail(s.pivots[p].value, s.width, p)
    {
      var c := touched[i];
      assert c in touched;
      assert touched[i..] == [c] + touched[i + 1..];
      if s.pivots[c].Some? {
        var unit := IsUnitRow(s.pivots[c].value, s.width, c);
        if unit {
          RetirableRow(s, ss, c);
          RetireKeeps(s0, recovered0, s, recovered, out, c, ss, anchor, eqs);
          RetiredFormed(s, ss, c);
          RetiredCounted(s, ss, c);
          var q, data := anchor + c, s.pivots[c].value[s.width..];
          recovered, out := Stored(recovered, q, data), Reported(recovered, q, data, out);
          s := Retired(s, c);
        }
      }
    }
  }

  // ---- one fed equation

  function Rank(s: Slot, w: nat): nat {
    if s.Done? then w else s.knownCount + s.codedRows
  }

  /** The slot is the reduced form of exactly the accepted equations eqs (coefficient vectors of length w). */
  ghost predicate SlotInv(s: Slot, w: nat, ss: nat, eqs: seq<Row>) {
    && Shape(eqs, w)
    && match s
       case Done => forall c :: 0 <= c < w ==> InSpan(eqs, Unit(w, c))
       case Solving(width, _, knownCount, _, _) =>
         && width == w && knownCount < w && Formed(s, ss) && Counted(s) && NoUnitRow(s, ss)
         && StateInSpan(s, ss, eqs) && Covers(s, ss, eqs)
  }

  ghost predicate KnownIn(s: Slot, c: nat)
    requires s.Solving? ==> c < |s.known|
  {
    s.Done? || s.known[c]
  }

  /** Complete decoding, for live and finished slots alike. */
  lemma KnownExactly(s: Slot, w: nat, ss: nat, eqs: seq<Row>, c: nat)
    requires SlotInv(s, w, ss, eqs) && c < w
    ensures KnownIn(s, c) <==> InSpan(eqs, Unit(w, c))
  {
    if s.Solving? {
      KnownIffInSpan(s, ss, eqs, c);
    }
  }

  /** With every column known or pivotal, no pivot row could have a tail. */
  lemma FullMeansNoPivots(s: Slot, ss: nat)
    requires Formed(s, ss) && NoUnitRow(s, ss)
    requires forall c :: 0 <= c < s.width ==> s.known[c] || s.pivots[c].Some?
    ensures PivotSet(s) == {}
  {
    forall q | q in PivotSet(s)
      ensures false
    {
    }
  }

  /** A slot still solving is short of full rank, so full rank and Done coincide. */
  lemma SolvingIsShort(s: Slot, w: nat, ss: nat, eqs: seq<Row>)
    requires SlotInv(s, w, ss, eqs)
    ensures s.Solving? <==> Rank(s, w) < w
  {
    hide StateInSpan, Covers, NoUnitRow, PivotRow;
    if s.Solving? {
      var k, p := KnownSet(s), PivotSet(s);
      assert k !! p;
      assert |k + p| == |k| + |p|;
      TooMany(k + p, w);
      if |k + p| == w {
        FullSet(k + p, w);
        forall c | 0 <= c < w
          ensures s.known[c] || s.pivots[c].Some?
        {
          assert c in k + p;
        }
        FullMeansNoPivots(s, ss);
      }
    }
  }

  lemma SolvesSnoc(eqs: seq<Row>, e: Row, x: Row)
    requires Shape(eqs, |x|) && |e| == |x|
    ensures Solves(eqs + [e], x) <==> Solves(eqs, x) && Dot(e, x, |x|) == 0
  {
    var es := eqs + [e];
    if Solves(es, x) {
      assert es[|eqs|] == e;
      forall j | 0 <= j < |eqs| ensures |eqs[j]| == |x| && Dot(eqs[j], x, |x|) == 0 {
        assert es[j] == eqs[j];
      }
    }
  }

  lemma SpanSnoc(s: Slot, ss: nat, eqs: seq<Row>, e: Row)
    requires Formed(s, ss) && StateInSpan(s, ss, eqs) && |e| == s.width
    ensures StateInSpan(s, ss, eqs + [e])
  {
    forall c | 0 <= c < s.width && s.known[c]
      ensures InSpan(eqs + [e], Unit(s.width, c))
    {
      SpanGrows(eqs, e, Unit(s.width, c));
    }
    forall p | 0 <= p < s.width && s.pivots[p].Some?
      ensures InSpan(eqs + [e], s.pivots[p].value[..s.width])
    {
      SpanGrows(eqs, e, s.pivots[p].value[..s.width]);
    }
  }

  lemma DependentRowKeeps(s: Slot, w: nat, ss: nat, eqs: seq<Row>, e: Row)
    requires SlotInv(s, w, ss, eqs) && s.Solving? && InSpan(eqs, e) && |e| == w
    ensures SlotInv(s, w, ss, eqs + [e])
  {
    SpanSnoc(s, ss, eqs, e);
    forall x: Row | Annihilates(s, ss, x)
      ensures Solves(eqs + [e], x)
    {
      SpanAnnihilated(eqs, e, x);
      SolvesSnoc(eqs, e, x);
    }
  }

  lemma SumBack(row: Row, row0: Row)
    requires |row| == |row0|
    ensures MulAcc(1, row0, MulAcc(1, row, row0)) == row
  {
    hide Add, Mul;
    forall i | 0 <= i < |row|
      ensures MulAcc(1, row0, MulAcc(1, row, row0))[i] == row[i]
    {
      MulOne(row[i]);
      MulOne(row0[i]);
      AddCancels(row[i], row0[i]);
    }
  }

  lemma ReducedInSpan(row: Row, row0: Row, s: Slot, ss: nat, anchor: nat, eqs: seq<Row>, recovered: map<nat, Row>)
    requires Formed(s, ss) && ReducedFrom(row, row0, s, ss, anchor, eqs, recovered)
    ensures InSpan(eqs + [row0[..s.width]], row[..s.width])
  {
    var w := s.width;
    var e, d := row0[..w], MulAcc(1, row[..w], row0[..w]);
    SpanGrows(eqs, e, d);
    SpanLast(eqs, e);
    SpanMulAcc(eqs + [e], 1, e, d);
    SumBack(row[..w], e);
  }

  /** What the normalised row and the installed matrix say about the equations, the new one included. */
  lemma InstalledCovers(s: Slot, ss: nat, eqs: seq<Row>, row0: Row, row: Row, f: byte, pcol: nat, anchor: nat,
        recovered: map<nat, Row>)
    requires Formed(s, ss) && Covers(s, ss, eqs) && Shape(eqs, s.width)
    requires ReducedFrom(row, row0, s, ss, anchor, eqs, recovered)
    requires f != 0 && Installable(s, ss, Scale(f, row), pcol) && Formed(Installed(s, ss, Scale(f, row), pcol), ss)
    ensures Covers(Installed(s, ss, Scale(f, row), pcol), ss, eqs + [row0[..s.width]])
  {
    hide Add, Mul;
    var w := s.width;
    var s' := Installed(s, ss, Scale(f, row), pcol);
    forall x: Row | Annihilates(s', ss, x)
      ensures Solves(eqs + [row0[..w]], x)
    {
      InstalledSolutions(s, ss, Scale(f, row), pcol, x);
      DotScale(f, row, x, w);
      NoZeroDivisors(f, Dot(row, x, w));
      assert row0[..w][..w] == row0[..w] && x[..w] == x;
      DotPrefix(row0, row0[..w], x, x, w);
      SolvesSnoc(eqs, row0[..w], x);
    }
  }

  /** The new row's truth and the cleared rows' truth, together. */
  lemma InstalledTruth(s: Slot, ss: nat, eqs: seq<Row>, row0: Row, row: Row, f: byte, pcol: nat, anchor: nat,
                       recovered: map<nat, Row>, sources: seq<Row>)
    requires Formed(s, ss) && ReducedFrom(row, row0, s, ss, anchor, eqs, recovered)
    requires Installable(s, ss, Scale(f, row), pcol) && Formed(Installed(s, ss, Scale(f, row), pcol), ss)
    requires SlotHolds(s, ss, anchor, sources) && PayloadsHold(recovered, ss, sources)
    requires RowHolds(row0, s.width, ss, anchor, sources)
    ensures SlotHolds(Installed(s, ss, Scale(f, row), pcol), ss, anchor, sources)
  {
    HoldsScale(f, row, s.width, ss, anchor, sources);
    InstalledHolds(s, ss, Scale(f, row), pcol, anchor, sources);
  }

  lemma InstalledSpanned(s: Slot, ss: nat, eqs: seq<Row>, row0: Row, row: Row, f: byte, pcol: nat, anchor: nat,
        recovered: map<nat, Row>)
    requires Formed(s, ss) && StateInSpan(s, ss, eqs) && ReducedFrom(row, row0, s, ss, anchor, eqs, recovered)
    requires Installable(s, ss, Scale(f, row), pcol) && Formed(Installed(s, ss, Scale(f, row), pcol), ss)
    ensures StateInSpan(Installed(s, ss, Scale(f, row), pcol), ss, eqs + [row0[..s.width]])
  {
    var e := row0[..s.width];
    ReducedInSpan(row, row0, s, ss, anchor, eqs, recovered);
    assert Scale(f, row)[..s.width] == Scale(f, row[..s.width]);
    SpanScale(eqs + [e], f, row[..s.width]);
    SpanSnoc(s, ss, eqs, e);
    InstalledInSpan(s, ss, Scale(f, row), pcol, eqs + [e]);
  }

  /** Rows the Gauss-Jordan step left alone keep their tail. */
  lemma UntouchedHasTail(s: Slot, ss: nat, row: Row, pcol: nat, touched: seq<nat>)
    requires Installable(s, ss, row, pcol) && NoUnitRow(s, ss)
    requires forall c :: 0 <= c < s.width && s.pivots[c].Some? && s.pivots[c].value[pcol] != 0 ==> c in touched
    ensures var s' := Installed(s, ss, row, pcol);
      forall p :: 0 <= p < s.width && s'.pivots[p].Some? && p !in touched + [pcol]
        ==> |s'.pivots[p].value| >= s.width && HasTail(s'.pivots[p].value, s.width, p)
  {}

  /** The slot, the payload store and the deliveries after one equation. */
  datatype Fed = Fed(added: bool, slot: Slot, recovered: map<nat, Row>, out: seq<(nat, Row)>)

  ghost predicate FedSlot(s: Slot, w: nat, ss: nat, row0: Row, eqs: seq<Row>, added: bool, s': Slot)
    requires SlotInv(s, w, ss, eqs) && s.Solving? && |row0| == w + ss
  {
    && SlotInv(s', w, ss, eqs + [row0[..w]])
    && (added <==> !InSpan(eqs, row0[..w]))
    && Rank(s', w) == Rank(s, w) + (if added then 1 else 0)
    && (forall c :: 0 <= c < w && s.known[c] ==> KnownIn(s', c))
  }

  ghost predicate FedStore(w: nat, ss: nat, anchor: nat, before: map<nat, Row>, s': Slot, after: map<nat, Row>,
        out: seq<(nat, Row)>)
    requires s'.Solving? ==> Formed(s', ss) && s'.width == w
  {
    && Delivers(before, after, out) && PayloadSizes(after, ss)
    && (s'.Solving? ==> PayloadsPresent(s', ss, anchor, after))
    && (s'.Done? ==> forall q :: anchor <= q < anchor + w ==> q in after)
    && (forall q :: q in Seqs(out) ==> anchor <= q < anchor + w && KnownIn(s', q - anchor))
  }

  ghost predicate FedTruth(s: Slot, w: nat, ss: nat, anchor: nat, before: map<nat, Row>, row0: Row, s': Slot,
        after: map<nat, Row>)
    requires Formed(s, ss) && (s'.Solving? ==> Formed(s', ss))
  {
    forall sources: seq<Row> ::
      SlotHolds(s, ss, anchor, sources) && PayloadsHold(before, ss, sources) && RowHolds(row0, w, ss, anchor, sources)
      ==> PayloadsHold(after, ss, sources) && (s'.Solving? ==> SlotHolds(s', ss, anchor, sources))
  }

  ghost predicate FedOk(s: Slot, w: nat, ss: nat, anchor: nat, before: map<nat, Row>, row0: Row, eqs: seq<Row>, r: Fed)
    requires SlotInv(s, w, ss, eqs) && s.Solving? && |row0| == w + ss
  {
    && FedSlot(s, w, ss, row0, eqs, r.added, r.slot)
    && FedStore(w, ss, anchor, before, r.slot, r.recovered, r.out)
    && FedTruth(s, w, ss, anchor, before, row0, r.slot, r.recovered)
    && (!r.added ==> r == Fed(false, s, before, []))
  }

  /** The position of the first nonzero coefficient, or w. */
  method FirstNonzero(row: Row, w: nat) returns (c: nat)
    requires w <= |row|
    ensures c <= w && (forall i :: 0 <= i < c ==> row[i] == 0) && (c < w ==> row[c] != 0)
  {
    c := 0;
    while c < w && row[c] == 0
      invariant c <= w && forall i :: 0 <= i < c ==> row[i] == 0
    {
      c := c + 1;
    }
  }

  lemma Normalised(s: Slot, ss: nat, row: Row, pcol: nat, f: byte)
    requires Formed(s, ss) && |row| == s.width + ss && pcol < s.width && row[pcol] != 0
    requires forall c :: 0 <= c < s.width && (s.known[c] || s.pivots[c].Some?) ==> row[c] == 0
    requires f == Inv(row[pcol])
    ensures f != 0 && Installable(s, ss, Scale(f, row), pcol)
    ensures row[pcol] == 1 ==> f == 1 && Scale(f, row) == row
  {
    hide Add, Mul, Inv;
    InvIsInverse(row[pcol]);
    MulCommutes(row[pcol], f);
    MulZero(f);
    if row[pcol] == 1 {
      MulOne(f);
      forall i | 0 <= i < |row|
        ensures Scale(f, row)[i] == row[i]
      {
        MulOne(row[i]);
      }
    }
  }

  lemma AllKnown(s: Slot, ss: nat)
    requires Formed(s, ss) && Counted(s) && s.knownCount == s.width
    ensures forall c :: 0 <= c < s.width ==> s.known[c]
  {
    FullSet(KnownSet(s), s.width);
    forall c | 0 <= c < s.width
      ensures s.known[c]
    {
      assert c in KnownSet(s);
    }
  }

  lemma CoversMoves(s1: Slot, s2: Slot, ss: nat, eqs: seq<Row>)
    requires Formed(s1, ss) && Formed(s2, ss) && SameSolutions(s1, s2, ss) && Covers(s1, ss, eqs)
    ensures Covers(s2, ss, eqs)
  {}

  lemma KnownBound(s: Slot, ss: nat)
    requires Formed(s, ss) && Counted(s)
    ensures s.knownCount <= s.width
  {
    TooMany(KnownSet(s), s.width);
  }

  function Finished(s: Slot): Slot
    requires s.Solving?
  {
    if s.knownCount == s.width then Done else s
  }

  lemma SweptSlot(s1: Slot, s2: Slot, ss: nat, eqs: seq<Row>, w: nat)
    requires Formed(s1, ss) && Covers(s1, ss, eqs) && s1.width == w && Shape(eqs, w)
    requires MatrixSwept(s1, s2, ss, eqs) && NoUnitRow(s2, ss)
    ensures SlotInv(Finished(s2), w, ss, eqs)
    ensures Finished(s2).Solving? ==> Rank(s2, w) == s1.knownCount + s1.codedRows
    ensures Finished(s2).Done? ==> (forall c :: 0 <= c < w ==> s2.known[c]) && s2.codedRows == 0
  {
    CoversMoves(s1, s2, ss, eqs);
    KnownBound(s2, ss);
    if s2.knownCount == w {
      AllKnown(s2, ss);
      assert PivotSet(s2) == {};
    }
  }

  /** The matrix after the pivot row is installed covers the new equation and keeps every promise of the old one. */
  lemma InstalledAll(s: Slot, ss: nat, eqs: seq<Row>, row0: Row, row: Row, f: byte, pcol: nat, anchor: nat,
        recovered: map<nat, Row>)
    requires s.Solving? && SlotInv(s, s.width, ss, eqs) && |row| == |row0| == s.width + ss
    requires ReducedFrom(row, row0, s, ss, anchor, eqs, recovered)
    requires f != 0 && Installable(s, ss, Scale(f, row), pcol)
    ensures var s1 := Installed(s, ss, Scale(f, row), pcol);
      && Formed(s1, ss) && Counted(s1)
      && Covers(s1, ss, eqs + [row0[..s.width]]) && StateInSpan(s1, ss, eqs + [row0[..s.width]])
      && forall sources: seq<Row> ::
          SlotHolds(s, ss, anchor, sources) && PayloadsHold(recovered, ss, sources)
            && RowHolds(row0, s.width, ss, anchor, sources)
          ==> SlotHolds(s1, ss, anchor, sources)
  {
    InstalledFormed(s, ss, Scale(f, row), pcol);
    InstalledCounted(s, ss, Scale(f, row), pcol);
    InstalledCovers(s, ss, eqs, row0, row, f, pcol, anchor, recovered);
    InstalledSpanned(s, ss, eqs, row0, row, f, pcol, anchor, recovered);
    forall sources: seq<Row> |
      SlotHolds(s, ss, anchor, sources) && PayloadsHold(recovered, ss, sources)
        && RowHolds(row0, s.width, ss, anchor, sources)
      ensures SlotHolds(Installed(s, ss, Scale(f, row), pcol), ss, anchor, sources)
    {
      InstalledTruth(s, ss, eqs, row0, row, f, pcol, anchor, recovered, sources);
    }
    hide StateInSpan, Counted, Covers, ReducedFrom, SlotHolds, NoUnitRow, Installable, Formed;
  }

  lemma SweptIsFedSlot(s0: Slot, s1: Slot, s2: Slot, ss: nat, row0: Row, eqs: seq<Row>)
    requires s0.Solving? && SlotInv(s0, s0.width, ss, eqs) && |row0| == s0.width + ss && !InSpan(eqs, row0[..s0.width])
    requires Formed(s1, ss) && s1.width == s0.width && s1.known == s0.known
    requires s1.knownCount == s0.knownCount && s1.codedRows == s0.codedRows + 1
    requires Shape(eqs + [row0[..s0.width]], s0.width) && Covers(s1, ss, eqs + [row0[..s0.width]])
    requires MatrixSwept(s1, s2, ss, eqs + [row0[..s0.width]]) && NoUnitRow(s2, ss)
    ensures FedSlot(s0, s0.width, ss, row0, eqs, true, Finished(s2))
  {
    hide InSpan, SameSolutions, StateInSpan, Covers, NoUnitRow, Counted;
    var w, eqs' := s0.width, eqs + [row0[..s0.width]];
    SweptSlot(s1, s2, ss, eqs', w);
    SolvingIsShort(Finished(s2), w, ss, eqs');
  }

  lemma SweptIsFedStore(s1: Slot, s2: Slot, ss: nat, anchor: nat, before: map<nat, Row>, after: map<nat, Row>,
        out: seq<(nat, Row)>)
    requires Formed(s1, ss) && Formed(s2, ss) && s1.width == s2.width && Counted(s2)
    requires StoreSwept(before, s2, after, out, ss, anchor)
    ensures FedStore(s2.width, ss, anchor, before, Finished(s2), after, out)
  {
    hide Delivers, Seqs, PivotRow;
    var s := Finished(s2);
    if s.Done? {
      AllKnown(s2, ss);
      forall q | anchor <= q < anchor + s2.width
        ensures q in after
      {
        assert s2.known[q - anchor];
      }
    }
  }

  lemma SweptIsFed(s0: Slot, s1: Slot, s2: Slot, ss: nat, anchor: nat, before: map<nat, Row>, row0: Row, eqs: seq<Row>,
                   after: map<nat, Row>, out: seq<(nat, Row)>)
    requires s0.Solving? && SlotInv(s0, s0.width, ss, eqs) && |row0| == s0.width + ss && !InSpan(eqs, row0[..s0.width])
    requires Formed(s1, ss) && s1.width == s0.width && s1.known == s0.known
    requires s1.knownCount == s0.knownCount && s1.codedRows == s0.codedRows + 1
    requires Shape(eqs + [row0[..s0.width]], s0.width) && Covers(s1, ss, eqs + [row0[..s0.width]])
    requires SweptTo(s1, before, s2, after, out, ss, anchor, eqs + [row0[..s0.width]])
    requires Formed(s2, ss) && NoUnitRow(s2, ss)
    requires forall sources: seq<Row> ::
          SlotHolds(s0, ss, anchor, sources) && PayloadsHold(before, ss, sources)
            && RowHolds(row0, s0.width, ss, anchor, sources)
          ==> SlotHolds(s1, ss, anchor, sources)
    ensures FedOk(s0, s0.width, ss, anchor, before, row0, eqs, Fed(true, Finished(s2), after, out))
  {
    hide NoUnitRow, StateInSpan, Counted, Covers, SameSolutions, SlotHolds, PayloadsHold, StoreSwept, InSpan,
        PivotRow, RowHolds;
    SweptIsFedSlot(s0, s1, s2, ss, row0, eqs);
    SweptIsFedStore(s1, s2, ss, anchor, before, after, out);
  }

  /** Clears the pivot column with the normalised row, installs it, and sweeps out the unit rows. */
  method PivotAndSweep(anchor: nat, s0: Slot, ss: nat, recovered0: map<nat, Row>, row0: Row, row: Row, pcol: nat,
        ghost eqs: seq<Row>)
    returns (r: Fed)
    requires s0.Solving? && SlotInv(s0, s0.width, ss, eqs) && |row0| == s0.width + ss
    requires PayloadsPresent(s0, ss, anchor, recovered0) && PayloadSizes(recovered0, ss)
    requires ReducedFrom(row, row0, s0, ss, anchor, eqs, recovered0) && |row| == |row0|
    requires forall c :: 0 <= c < s0.width && (s0.known[c] || s0.pivots[c].Some?) ==> row[c] == 0
    requires pcol < s0.width && row[pcol] != 0 && !InSpan(eqs, row0[..s0.width])
    ensures FedOk(s0, s0.width, ss, anchor, recovered0, row0, eqs, r)
  {
    hide Add, Mul, Inv, FedOk, MatrixSwept, StoreSwept, TruthKept;
    hide StateInSpan, Counted, Covers, ReducedFrom, HasTail, Annihilates, SameSolutions, SlotHolds, InSpan;
    var w := s0.width;
    ghost var f := Inv(row[pcol]);
    ghost var eqs' := eqs + [row0[..w]];
    Normalised(s0, ss, row, pcol, f);
    var norm := row;
    if row[pcol] != 1 {
      norm := Scale(Inv(row[pcol]), row);
    }
    var cleared, touched := EliminateColumn(s0.pivots, norm, pcol);
    var s1 := s0.(pivots := cleared[pcol := Some(norm)], codedRows := s0.codedRows + 1);
    assert s1.pivots == Installed(s0, ss, norm, pcol).pivots;
    InstalledAll(s0, ss, eqs, row0, row, f, pcol, anchor, recovered0);
    UntouchedHasTail(s0, ss, norm, pcol, touched);
    var s2, recovered, out := UnitSweep(anchor, s1, ss, recovered0, touched + [pcol], eqs');
    ShapeSnoc(eqs, row0[..w]);
    SweptIsFed(s0, s1, s2, ss, anchor, recovered0, row0, eqs, recovered, out);
    assert Formed(s2, ss);
    r := Fed(true, Finished(s2), recovered, out);
  }

  lemma ShapeSnoc(eqs: seq<Row>, e: Row)
    requires Shape(eqs, |e|)
    ensures Shape(eqs + [e], |e|)
  {}

  /** One equation fed into a live slot: reduce, normalise, clear the pivot column, sweep the unit rows. */
  method FeedRow(anchor: nat, s0: Slot, ss: nat, recovered0: map<nat, Row>, row0: Row, ghost eqs: seq<Row>)
    returns (r: Fed)
    requires s0.Solving? && SlotInv(s0, s0.width, ss, eqs) && |row0| == s0.width + ss
    requires PayloadsPresent(s0, ss, anchor, recovered0) && PayloadSizes(recovered0, ss)
    ensures FedOk(s0, s0.width, ss, anchor, recovered0, row0, eqs, r)
  {
    var w := s0.width;
    var row := ForwardReduce(anchor, s0, ss, recovered0, row0, eqs);
    DependentIffReducedToZero(row, row0, s0, ss, anchor, eqs, recovered0);
    var pcol := FirstNonzero(row, w);
    if pcol == w {
      DependentRowKeeps(s0, w, ss, eqs, row0[..w]);
      EmittedNothing<Row>(recovered0.Keys);
      return Fed(false, s0, recovered0, []);
    }
    r := PivotAndSweep(anchor, s0, ss, recovered0, row0, row, pcol, eqs);
  }
}
