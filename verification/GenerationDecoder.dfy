/** The generation decoder: one reduced system per anchor and width, closed under each other. */
module GenerationDecoding {
  import opened Basics
  import opened Gf256
  import opened Linear
  import opened Elimination
  import opened CoefficientStream
  import opened Wire

  type Key = (nat, nat)

  // ---- fresh slots

  /** Which of the first n columns of the span at anchor are already recovered. */
  function KnownFlags(recovered: map<nat, Row>, anchor: nat, n: nat): (r: seq<bool>)
    ensures |r| == n
    ensures forall c :: 0 <= c < n ==> r[c] == (anchor + c in recovered)
  {
    seq(n, c requires 0 <= c < n => anchor + c in recovered)
  }

  function CountTrue(flags: seq<bool>, n: nat): nat
    requires n <= |flags|
  {
    if n == 0 then 0 else CountTrue(flags, n - 1) + (if flags[n - 1] then 1 else 0)
  }

  function FreshSlot(recovered: map<nat, Row>, anchor: nat, w: nat): (s: Slot)
    ensures s.Solving? && s.width == w == |s.known|
  {
    var known := KnownFlags(recovered, anchor, w);
    Solving(w, known, CountTrue(known, w), seq(w, _ => None), 0)
  }

  /** The unit equations of the columns known when the slot is created. */
  ghost function KnownUnits(known: seq<bool>, w: nat, n: nat): (r: seq<Row>)
    requires n <= |known|
    ensures Shape(r, w)
    ensures forall j :: 0 <= j < |r| ==> exists c :: 0 <= c < n && known[c] && r[j] == Unit(w, c)
    ensures forall c :: 0 <= c < n && known[c] ==> Unit(w, c) in r
  {
    if n == 0 then [] else KnownUnits(known, w, n - 1) + (if known[n - 1] then [Unit(w, n - 1)] else [])
  }

  lemma {:induction false} CountIsSize(flags: seq<bool>, n: nat)
    requires n <= |flags|
    ensures CountTrue(flags, n) == |set c: int | 0 <= c < n && flags[c]|
  {
    var s := set c: int | 0 <= c < n && flags[c];
    if n == 0 {
      assert s == {};
    } else {
      CountIsSize(flags, n - 1);
      OneFlagMore(flags, n - 1);
    }
  }

  lemma OneFlagMore(flags: seq<bool>, n: nat)
    requires n < |flags|
    ensures |set c: int | 0 <= c < n + 1 && flags[c]|
      == |set c: int | 0 <= c < n && flags[c]| + (if flags[n] then 1 else 0)
  {
    var t := set c: int | 0 <= c < n && flags[c];
    assert (set c: int | 0 <= c < n + 1 && flags[c]) == if flags[n] then t + {n} else t;
  }

  lemma {:induction false} SpanMember(eqs: seq<Row>, e: Row)
    requires Shape(eqs, |e|) && e in eqs
    ensures InSpan(eqs, e)
  {
    var n := |eqs| - 1;
    assert eqs == eqs[..n] + [eqs[n]];
    if eqs[n] == e {
      SpanLast(eqs[..n], e);
    } else {
      SpanMember(eqs[..n], e);
      SpanGrows(eqs[..n], eqs[n], e);
    }
  }

  lemma {:induction false} UnitAmong(known: seq<bool>, w: nat, n: nat, j: nat) returns (c: nat)
    requires n <= |known| && j < |KnownUnits(known, w, n)|
    ensures c < n && known[c] && KnownUnits(known, w, n)[j] == Unit(w, c)
  {
    hide Unit;
    if j < |KnownUnits(known, w, n - 1)| {
      c := UnitAmong(known, w, n - 1, j);
    } else {
      c := n - 1;
    }
  }

  lemma UnitAt(known: seq<bool>, w: nat, j: nat) returns (c: nat)
    requires |known| == w && j < |KnownUnits(known, w, w)|
    ensures c < w && known[c] && KnownUnits(known, w, w)[j] == Unit(w, c)
  {
    c := UnitAmong(known, w, w, j);
  }

  lemma UnitsSolved(known: seq<bool>, w: nat, x: Row)
    requires |known| == w == |x| && forall c :: 0 <= c < w && known[c] ==> x[c] == 0
    ensures Solves(KnownUnits(known, w, w), x)
  {
    var eqs := KnownUnits(known, w, w);
    forall j | 0 <= j < |eqs|
      ensures Dot(eqs[j], x, w) == 0
    {
      hide Add, Mul;
      var c := UnitAt(known, w, j);
      DotUnit(w, c, x, w);
    }
  }

  lemma FreshCovers(recovered: map<nat, Row>, anchor: nat, w: nat, ss: nat)
    requires Formed(FreshSlot(recovered, anchor, w), ss)
    ensures var s := FreshSlot(recovered, anchor, w); Covers(s, ss, KnownUnits(s.known, w, w))
  {
    var s := FreshSlot(recovered, anchor, w);
    forall x: Row | Annihilates(s, ss, x)
      ensures Solves(KnownUnits(s.known, w, w), x)
    {
      UnitsSolved(s.known, w, x);
    }
  }

  lemma FreshCounted(recovered: map<nat, Row>, anchor: nat, w: nat)
    ensures Counted(FreshSlot(recovered, anchor, w))
  {
    var s := FreshSlot(recovered, anchor, w);
    CountIsSize(s.known, w);
    assert KnownSet(s) == set c: int | 0 <= c < w && s.known[c];
    assert PivotSet(s) == {};
  }

  lemma FreshFull(recovered: map<nat, Row>, anchor: nat, w: nat)
    ensures var s := FreshSlot(recovered, anchor, w);
      s.knownCount <= w && (s.knownCount == w <==> forall q :: anchor <= q < anchor + w ==> q in recovered)
  {
    var s := FreshSlot(recovered, anchor, w);
    FreshCounted(recovered, anchor, w);
    KnownBound(s, 0);
    if s.knownCount == w {
      AllKnown(s, 0);
      forall q | anchor <= q < anchor + w ensures q in recovered {
        assert s.known[q - anchor];
      }
    } else if forall q :: anchor <= q < anchor + w ==> q in recovered {
      AllFlagsCount(s.known, w);
      assert false;
    }
  }

  lemma FreshSlotOk(recovered: map<nat, Row>, anchor: nat, w: nat, ss: nat)
    requires PayloadSizes(recovered, ss)
    ensures var s := FreshSlot(recovered, anchor, w);
      && Formed(s, ss) && PayloadsPresent(s, ss, anchor, recovered)
      && (s.knownCount < w ==> SlotInv(s, w, ss, KnownUnits(s.known, w, w)))
      && (forall sources: seq<Row> :: SlotHolds(s, ss, anchor, sources))
  {
    hide Covers, InSpan, Counted, KnownUnits, CountTrue, KnownFlags, Unit;
    FreshIsEmpty(recovered, anchor, w);
    FreshCounted(recovered, anchor, w);
    FreshCovers(recovered, anchor, w, ss);
    FreshSpanned(recovered, anchor, w);
  }

  lemma FreshIsEmpty(recovered: map<nat, Row>, anchor: nat, w: nat)
    ensures var s := FreshSlot(recovered, anchor, w);
      |s.pivots| == w && s.known == KnownFlags(recovered, anchor, w) && forall p :: 0 <= p < w ==> s.pivots[p].None?
  {}

  lemma FreshSpanned(recovered: map<nat, Row>, anchor: nat, w: nat)
    ensures var s := FreshSlot(recovered, anchor, w);
      forall c :: 0 <= c < w && s.known[c] ==> InSpan(KnownUnits(s.known, w, w), Unit(w, c))
  {
    hide KnownUnits, Unit, InSpan, Shape;
    var s := FreshSlot(recovered, anchor, w);
    forall c | 0 <= c < w && s.known[c]
      ensures InSpan(KnownUnits(s.known, w, w), Unit(w, c))
    {
      SpanMember(KnownUnits(s.known, w, w), Unit(w, c));
    }
  }

  lemma {:induction false} AllFlagsCount(flags: seq<bool>, n: nat)
    requires n <= |flags| && forall c :: 0 <= c < n ==> flags[c]
    ensures CountTrue(flags, n) == n
  {
    if n > 0 {
      AllFlagsCount(flags, n - 1);
    }
  }

  // ---- spans

  ghost function Span(anchor: nat, w: nat): (r: set<nat>)
    ensures forall q :: q in r <==> anchor <= q < anchor + w
  {
    if w == 0 then {} else Span(anchor, w - 1) + {anchor + w - 1}
  }

  /** Every seq some slot spans. */
  ghost function Universe(keys: set<Key>): set<nat> {
    set k, q | k in keys && q in Span(k.0, k.1) :: q
  }

  /** The coefficient half of the row a parsed repair stands for. */
  function RepairCoefficients(h: Header): (r: Row)
    requires h.codedWidth <= h.width
    ensures |r| == h.width
    ensures forall c :: h.codedWidth <= c < h.width ==> r[c] == 0
  {
    WindowCoefficients(h.anchor, h.width, h.index)[..h.codedWidth] + Zero(h.width - h.codedWidth)
  }

  function RepairRow(h: Header, coded: seq<byte>, ss: nat): (r: Row)
    requires h.codedWidth <= h.width
    ensures |r| == h.width + ss && r[..h.width] == RepairCoefficients(h)
  {
    RepairCoefficients(h) + Pad(coded, ss)
  }

  // ---- lemmas on deliveries

  lemma DeliversNothing(m: map<nat, Row>)
    ensures Delivers(m, m, [])
  {
    assert Seqs<Row>([]) == {};
  }

  lemma DeliverAppend(m0: map<nat, Row>, m1: map<nat, Row>, m2: map<nat, Row>, a: seq<(nat, Row)>, b: seq<(nat, Row)>)
    requires Delivers(m0, m1, a) && Delivers(m1, m2, b)
    ensures Delivers(m0, m2, a + b)
  {
    EmittedChain(m0.Keys, m1.Keys, m2.Keys, a, b);
    assert forall i :: 0 <= i < |a| ==> (a + b)[i] == a[i];
    assert forall i :: 0 <= i < |b| ==> (a + b)[|a| + i] == b[i];
  }

  // ---- the family of live systems

  /** Equation e of slot k was received on the wire or is the unit equation of a recovered source. */
  ghost predicate Justified(k: Key, e: Row, recovered: map<nat, Row>, fed: set<(Key, Row)>) {
    (k, e) in fed || exists q :: q in recovered && k.0 <= q < k.0 + k.1 && e == Unit(k.1, q - k.0)
  }

  ghost predicate SlotOkAt(k: Key, s: Slot, eqs: seq<Row>, recovered: map<nat, Row>, ss: nat, fed: set<(Key, Row)>) {
    && SlotInv(s, k.1, ss, eqs)
    && (s.Solving? ==>
          && PayloadsPresent(s, ss, k.0, recovered)
          && forall j :: 0 <= j < |eqs| ==> Justified(k, eqs[j], recovered, fed))
  }

  ghost predicate SystemsOk(gens: map<Key, Slot>, eqs: map<Key, seq<Row>>, recovered: map<nat, Row>, ss: nat,
        fed: set<(Key, Row)>) {
    && eqs.Keys == gens.Keys
    && PayloadSizes(recovered, ss)
    && forall k :: k in gens ==> SlotOkAt(k, gens[k], eqs[k], recovered, ss, fed)
  }

  /** q is in the span of slot k and the slot does not know it. */
  predicate Missing(k: Key, s: Slot, q: nat) {
    s.Solving? && k.0 <= q < k.0 + k.1 && q - k.0 < |s.known| && !s.known[q - k.0]
  }

  /** Every live system knows the recovered sources of its span, the pending ones excepted. */
  ghost predicate ClosedBut(gens: map<Key, Slot>, recovered: map<nat, Row>, pending: set<nat>) {
    forall k, q :: k in gens && q in recovered && Missing(k, gens[k], q) ==> q in pending
  }

  ghost predicate SystemsHold(gens: map<Key, Slot>, recovered: map<nat, Row>, ss: nat, sources: seq<Row>) {
    && PayloadsHold(recovered, ss, sources)
    && forall k :: k in gens && gens[k].Solving? ==> Formed(gens[k], ss) && SlotHolds(gens[k], ss, k.0, sources)
  }

  lemma JustifiedStays(k: Key, e: Row, before: map<nat, Row>, after: map<nat, Row>, fed: set<(Key, Row)>)
    requires Justified(k, e, before, fed) && forall q :: q in before ==> q in after
    ensures Justified(k, e, after, fed)
  {}

  /** Growing the payload store leaves every slot in order. */
  lemma StoreGrows(k: Key, s: Slot, eqs: seq<Row>, before: map<nat, Row>, after: map<nat, Row>, ss: nat,
        fed: set<(Key, Row)>)
    requires SlotOkAt(k, s, eqs, before, ss, fed)
    requires forall q :: q in before ==> q in after && after[q] == before[q]
    ensures SlotOkAt(k, s, eqs, after, ss, fed)
  {
    if s.Solving? {
      forall j | 0 <= j < |eqs|
        ensures Justified(k, eqs[j], after, fed)
      {
        assert Justified(k, eqs[j], before, fed);
      }
    }
  }

  /** The slot and accepted equations a row for key k meets: the stored ones or fresh ones. */
  function SlotAt(gens: map<Key, Slot>, recovered: map<nat, Row>, k: Key): Slot {
    if k in gens then gens[k] else FreshSlot(recovered, k.0, k.1)
  }

  ghost function EqsAt(eqs: map<Key, seq<Row>>, recovered: map<nat, Row>, k: Key): seq<Row> {
    if k in eqs then eqs[k] else KnownUnits(FreshSlot(recovered, k.0, k.1).known, k.1, k.1)
  }

  /** A row for key k is ignored: the slot is finished, or was never needed. */
  predicate Ignored(gens: map<Key, Slot>, recovered: map<nat, Row>, k: Key) {
    if k in gens then gens[k].Done? else FreshSlot(recovered, k.0, k.1).knownCount == k.1
  }

  lemma SlotAtOk(gens: map<Key, Slot>, eqs: map<Key, seq<Row>>, recovered: map<nat, Row>, ss: nat,
        fed: set<(Key, Row)>, k: Key)
    requires SystemsOk(gens, eqs, recovered, ss, fed) && !Ignored(gens, recovered, k)
    ensures SlotOkAt(k, SlotAt(gens, recovered, k), EqsAt(eqs, recovered, k), recovered, ss, fed)
    ensures SlotAt(gens, recovered, k).Solving?
    ensures forall sources: seq<Row> ::
      SystemsHold(gens, recovered, ss, sources) ==> SlotHolds(SlotAt(gens, recovered, k), ss, k.0, sources)
  {
    if k !in gens {
      FreshSlotOk(recovered, k.0, k.1, ss);
      FreshFull(recovered, k.0, k.1);
      var known := FreshSlot(recovered, k.0, k.1).known;
      var es := KnownUnits(known, k.1, k.1);
      forall j | 0 <= j < |es|
        ensures Justified(k, es[j], recovered, fed)
      {
        var c := UnitAt(known, k.1, j);
        assert k.0 + c in recovered && (k.0 + c) - k.0 == c;
      }
    }
  }

  /** One accepted row keeps the whole family in order; its deliveries become pending for the other systems. */
  lemma FeedKeepsSystems(gens: map<Key, Slot>, eqs: map<Key, seq<Row>>, recovered: map<nat, Row>, ss: nat,
        fed: set<(Key, Row)>,
                         k: Key, row: Row, r: Fed)
    requires SystemsOk(gens, eqs, recovered, ss, fed) && !Ignored(gens, recovered, k)
    requires |row| == k.1 + ss && Justified(k, row[..k.1], recovered, fed)
    requires SlotAt(gens, recovered, k).Solving?
      && SlotInv(SlotAt(gens, recovered, k), k.1, ss, EqsAt(eqs, recovered, k))
    requires FedOk(SlotAt(gens, recovered, k), k.1, ss, k.0, recovered, row, EqsAt(eqs, recovered, k), r)
    ensures SystemsOk(gens[k := r.slot], eqs[k := EqsAt(eqs, recovered, k) + [row[..k.1]]], r.recovered, ss, fed)
  {
    hide SlotInv, Justified, FedTruth, FreshSlot, KnownUnits, InSpan, Ignored, PayloadsPresent, Seqs;
    SlotAtOk(gens, eqs, recovered, ss, fed, k);
    var es := EqsAt(eqs, recovered, k) + [row[..k.1]];
    hide SlotAt, EqsAt;
    forall k' | k' in gens && k' != k
      ensures SlotOkAt(k', gens[k'], eqs[k'], r.recovered, ss, fed)
    {
      StoreGrows(k', gens[k'], eqs[k'], recovered, r.recovered, ss, fed);
    }
    forall j | 0 <= j < |es|
      ensures Justified(k, es[j], r.recovered, fed)
    {
      assert Justified(k, es[j], recovered, fed);
      JustifiedStays(k, es[j], recovered, r.recovered, fed);
    }
  }

  lemma FedKeepsKnown(k: Key, s: Slot, w: nat, ss: nat, before: map<nat, Row>, row: Row, eqs: seq<Row>, r: Fed, q: nat)
    requires s.Solving? && w == k.1 && SlotInv(s, w, ss, eqs) && |row| == w + ss
    requires FedOk(s, w, ss, k.0, before, row, eqs, r) && Missing(k, r.slot, q)
    ensures Missing(k, s, q)
  {
    assert !KnownIn(r.slot, q - k.0);
  }

  lemma FeedKeepsClosure(gens: map<Key, Slot>, eqs: map<Key, seq<Row>>, recovered: map<nat, Row>, ss: nat,
                         k: Key, row: Row, r: Fed, pending: set<nat>)
    requires ClosedBut(gens, recovered, pending)
    requires SlotAt(gens, recovered, k).Solving?
      && SlotInv(SlotAt(gens, recovered, k), k.1, ss, EqsAt(eqs, recovered, k)) && |row| == k.1 + ss
    requires FedOk(SlotAt(gens, recovered, k), k.1, ss, k.0, recovered, row, EqsAt(eqs, recovered, k), r)
    ensures ClosedBut(gens[k := r.slot], r.recovered, pending + Seqs(r.out))
  {
    var s := SlotAt(gens, recovered, k);
    var gens' := gens[k := r.slot];
    forall k', q | k' in gens' && q in r.recovered && Missing(k', gens'[k'], q)
      ensures q in pending + Seqs(r.out)
    {
      hide SlotInv, FedSlot, FedTruth, Seqs;
      if q in recovered && k' == k {
        FedKeepsKnown(k, s, k.1, ss, recovered, row, EqsAt(eqs, recovered, k), r, q);
        assert k in gens;
      }
    }
  }

  lemma FeedKeepsTruth(gens: map<Key, Slot>, eqs: map<Key, seq<Row>>, recovered: map<nat, Row>, ss: nat,
        fed: set<(Key, Row)>,
                       k: Key, row: Row, r: Fed, sources: seq<Row>)
    requires SystemsOk(gens, eqs, recovered, ss, fed) && !Ignored(gens, recovered, k)
    requires SlotAt(gens, recovered, k).Solving?
      && SlotInv(SlotAt(gens, recovered, k), k.1, ss, EqsAt(eqs, recovered, k)) && |row| == k.1 + ss
    requires FedOk(SlotAt(gens, recovered, k), k.1, ss, k.0, recovered, row, EqsAt(eqs, recovered, k), r)
    requires SystemsHold(gens, recovered, ss, sources) && RowHolds(row, k.1, ss, k.0, sources)
    ensures SystemsHold(gens[k := r.slot], r.recovered, ss, sources)
  {
    SlotAtOk(gens, eqs, recovered, ss, fed, k);
  }

  // ---- the decoder

  /** Sources the old systems were true of, and the fed row too, the new systems are true of. */
  ghost predicate FeedsTruth(gens0: map<Key, Slot>, rec0: map<nat, Row>, gens1: map<Key, Slot>, rec1: map<nat, Row>,
                             ss: nat, k: Key, row: Row) {
    forall sources: seq<Row> ::
      SystemsHold(gens0, rec0, ss, sources) && RowHolds(row, k.1, ss, k.0, sources) ==>
        SystemsHold(gens1, rec1, ss, sources)
  }

  /** Sources the old systems were true of, the new systems are true of. */
  ghost predicate KeepsTruth(gens0: map<Key, Slot>, rec0: map<nat, Row>, gens1: map<Key, Slot>, rec1: map<nat, Row>,
        ss: nat) {
    forall sources: seq<Row> :: SystemsHold(gens0, rec0, ss, sources) ==> SystemsHold(gens1, rec1, ss, sources)
  }

  /** The accepted equations only grow, and no slot disappears. */
  ghost predicate EqsGrow(eqs0: map<Key, seq<Row>>, eqs1: map<Key, seq<Row>>) {
    forall k :: k in eqs0 ==> k in eqs1 && eqs0[k] <= eqs1[k]
  }

  ghost function LiveKeys(gens: map<Key, Slot>): set<Key> {
    set k | k in gens && gens[k].Solving?
  }

  lemma LiveKeysUpdate(gens: map<Key, Slot>, k: Key, s: Slot)
    ensures LiveKeys(gens[k := s]) == if s.Solving? then LiveKeys(gens) + {k} else LiveKeys(gens) - {k}
  {}

  lemma SameKeys(gens: map<Key, Slot>, eqs: map<Key, seq<Row>>, recovered: map<nat, Row>, ss: nat, fed: set<(Key, Row)>)
    requires SystemsOk(gens, eqs, recovered, ss, fed)
    ensures eqs.Keys == gens.Keys
  {}

  lemma ReadyToFeed(gens: map<Key, Slot>, eqs: map<Key, seq<Row>>, recovered: map<nat, Row>, ss: nat,
        fed: set<(Key, Row)>, k: Key)
    requires SystemsOk(gens, eqs, recovered, ss, fed) && !Ignored(gens, recovered, k)
    ensures var s := SlotAt(gens, recovered, k);
      && s.Solving? && s.width == k.1 && SlotInv(s, k.1, ss, EqsAt(eqs, recovered, k))
      && PayloadSizes(recovered, ss) && PayloadsPresent(s, ss, k.0, recovered)
  {
    SlotAtOk(gens, eqs, recovered, ss, fed, k);
  }

  /** The outcome of feeding one row with key k: ignored, or accepted with exact rank accounting. */
  ghost predicate Inserted(gens0: map<Key, Slot>, eqs0: map<Key, seq<Row>>, rec0: map<nat, Row>, k: Key, e: Row,
                           added: bool, out: seq<(nat, Row)>, gens: map<Key, Slot>,
                           eqs: map<Key, seq<Row>>, recovered: map<nat, Row>)
  {
    if Ignored(gens0, rec0, k) then
      !added && out == [] && gens == gens0 && recovered == rec0 && eqs == eqs0
    else
      && k in gens && gens == gens0[k := gens[k]]
      && eqs == eqs0[k := EqsAt(eqs0, rec0, k) + [e]]
      && (added <==> !InSpan(EqsAt(eqs0, rec0, k), e))
      && Rank(gens[k], k.1) == Rank(SlotAt(gens0, rec0, k), k.1) + (if added then 1 else 0)
  }

  /** Whatever was pending before a delivery, closure holds after it up to that and the delivered seqs. */
  ghost predicate ClosureMoves(gens0: map<Key, Slot>, rec0: map<nat, Row>, gens: map<Key, Slot>,
        recovered: map<nat, Row>, out: seq<(nat, Row)>) {
    forall pending :: ClosedBut(gens0, rec0, pending) ==> ClosedBut(gens, recovered, pending + Seqs(out))
  }

  lemma Untouched(gens: map<Key, Slot>, recovered: map<nat, Row>, ss: nat, k: Key, row: Row)
    ensures Delivers(recovered, recovered, []) && InSpanOf(k, []) && Seqs<Row>([]) == {}
    ensures ClosureMoves(gens, recovered, gens, recovered, [])
      && FeedsTruth(gens, recovered, gens, recovered, ss, k, row)
  {
    DeliversNothing(recovered);
    assert Seqs<Row>([]) == {};
    forall pending: set<nat>
      ensures pending + Seqs<Row>([]) == pending
    {}
  }

  ghost predicate InSpanOf(k: Key, out: seq<(nat, Row)>) {
    forall q :: q in Seqs(out) ==> k.0 <= q < k.0 + k.1
  }

  lemma AcceptedRow(gens: map<Key, Slot>, eqs: map<Key, seq<Row>>, recovered: map<nat, Row>, ss: nat, k: Key,
        row: Row, r: Fed)
    requires !Ignored(gens, recovered, k) && eqs.Keys == gens.Keys
    requires |row| == k.1 + ss
    requires SlotAt(gens, recovered, k).Solving?
      && SlotInv(SlotAt(gens, recovered, k), k.1, ss, EqsAt(eqs, recovered, k))
    requires FedOk(SlotAt(gens, recovered, k), k.1, ss, k.0, recovered, row, EqsAt(eqs, recovered, k), r)
    ensures var gens', eqs' := gens[k := r.slot], eqs[k := EqsAt(eqs, recovered, k) + [row[..k.1]]];
      Inserted(gens, eqs, recovered, k, row[..k.1], r.added, r.out, gens', eqs', r.recovered) && EqsGrow(eqs, eqs')
  {
    hide SlotInv, FedTruth, FedStore, InSpan, KnownUnits, FreshSlot, Ignored;
  }

  lemma AcceptedDeliveries(gens: map<Key, Slot>, eqs: map<Key, seq<Row>>, recovered: map<nat, Row>, ss: nat, k: Key,
        row: Row, r: Fed)
    requires |row| == k.1 + ss
    requires SlotAt(gens, recovered, k).Solving?
      && SlotInv(SlotAt(gens, recovered, k), k.1, ss, EqsAt(eqs, recovered, k))
    requires FedOk(SlotAt(gens, recovered, k), k.1, ss, k.0, recovered, row, EqsAt(eqs, recovered, k), r)
    ensures Delivers(recovered, r.recovered, r.out) && InSpanOf(k, r.out)
  {
    hide SlotInv, FedTruth, FedSlot, KnownUnits, FreshSlot, Delivers, Seqs;
  }

  lemma AcceptedClosure(gens: map<Key, Slot>, eqs: map<Key, seq<Row>>, recovered: map<nat, Row>, ss: nat, k: Key,
        row: Row, r: Fed)
    requires |row| == k.1 + ss
    requires SlotAt(gens, recovered, k).Solving?
      && SlotInv(SlotAt(gens, recovered, k), k.1, ss, EqsAt(eqs, recovered, k))
    requires FedOk(SlotAt(gens, recovered, k), k.1, ss, k.0, recovered, row, EqsAt(eqs, recovered, k), r)
    ensures ClosureMoves(gens, recovered, gens[k := r.slot], r.recovered, r.out)
  {
    hide SlotInv, FedOk, ClosedBut, KnownUnits, FreshSlot, Seqs, SlotAt, EqsAt;
    forall pending | ClosedBut(gens, recovered, pending)
      ensures ClosedBut(gens[k := r.slot], r.recovered, pending + Seqs(r.out))
    {
      FeedKeepsClosure(gens, eqs, recovered, ss, k, row, r, pending);
    }
  }

  lemma AcceptedTruth(gens: map<Key, Slot>, eqs: map<Key, seq<Row>>, recovered: map<nat, Row>, ss: nat,
        fed: set<(Key, Row)>,
                      k: Key, row: Row, r: Fed)
    requires SystemsOk(gens, eqs, recovered, ss, fed) && !Ignored(gens, recovered, k) && |row| == k.1 + ss
    requires SlotAt(gens, recovered, k).Solving?
      && SlotInv(SlotAt(gens, recovered, k), k.1, ss, EqsAt(eqs, recovered, k))
    requires FedOk(SlotAt(gens, recovered, k), k.1, ss, k.0, recovered, row, EqsAt(eqs, recovered, k), r)
    ensures FeedsTruth(gens, recovered, gens[k := r.slot], r.recovered, ss, k, row)
  {
    forall sources: seq<Row> | SystemsHold(gens, recovered, ss, sources) && RowHolds(row, k.1, ss, k.0, sources)
      ensures SystemsHold(gens[k := r.slot], r.recovered, ss, sources)
    {
      FeedKeepsTruth(gens, eqs, recovered, ss, fed, k, row, r, sources);
    }
  }

  lemma Accepted(gens: map<Key, Slot>, eqs: map<Key, seq<Row>>, recovered: map<nat, Row>, ss: nat, fed: set<(Key, Row)>,
                 k: Key, row: Row, r: Fed)
    requires SystemsOk(gens, eqs, recovered, ss, fed) && !Ignored(gens, recovered, k)
    requires |row| == k.1 + ss && Justified(k, row[..k.1], recovered, fed)
    requires SlotAt(gens, recovered, k).Solving?
      && SlotInv(SlotAt(gens, recovered, k), k.1, ss, EqsAt(eqs, recovered, k))
    requires FedOk(SlotAt(gens, recovered, k), k.1, ss, k.0, recovered, row, EqsAt(eqs, recovered, k), r)
    ensures var gens', eqs' := gens[k := r.slot], eqs[k := EqsAt(eqs, recovered, k) + [row[..k.1]]];
      && SystemsOk(gens', eqs', r.recovered, ss, fed)
      && Inserted(gens, eqs, recovered, k, row[..k.1], r.added, r.out, gens', eqs', r.recovered)
      && ClosureMoves(gens, recovered, gens', r.recovered, r.out)
      && FeedsTruth(gens, recovered, gens', r.recovered, ss, k, row)
      && Delivers(recovered, r.recovered, r.out)
      && EqsGrow(eqs, eqs')
      && InSpanOf(k, r.out)
      && Entailed(gens, recovered, gens', r.recovered, fed)
  {
    AcceptedEntailed(gens, eqs, recovered, ss, fed, k, row, r);
    FeedKeepsSystems(gens, eqs, recovered, ss, fed, k, row, r);
    AcceptedRow(gens, eqs, recovered, ss, k, row, r);
    AcceptedDeliveries(gens, eqs, recovered, ss, k, row, r);
    AcceptedClosure(gens, eqs, recovered, ss, k, row, r);
    AcceptedTruth(gens, eqs, recovered, ss, fed, k, row, r);
    hide SystemsOk, SlotInv, FedOk, Inserted, ClosureMoves, FeedsTruth, Delivers, EqsGrow, InSpanOf, Justified,
        Entailed;
  }

  // ---- what the received equations determine

  /** x solves every received equation of slot k and vanishes at the sources in t. */
  ghost predicate Fits(k: Key, x: Row, t: set<nat>, fed: set<(Key, Row)>) {
    && |x| == k.1
    && (forall p :: p in t && k.0 <= p < k.0 + k.1 ==> x[p - k.0] == 0)
    && (forall e: Row :: (k, e) in fed && |e| == k.1 ==> Dot(e, x, k.1) == 0)
  }

  /** The received equations of slot k leave no choice for source q once the sources in t are given. */
  ghost predicate Determined(k: Key, q: nat, t: set<nat>, fed: set<(Key, Row)>) {
    k.0 <= q < k.0 + k.1 && forall x: Row :: Fits(k, x, t, fed) ==> x[q - k.0] == 0
  }

  /** No slot's received equations determine a source outside t from those inside. */
  ghost predicate Saturated(t: set<nat>, fed: set<(Key, Row)>) {
    forall k: Key, q :: Determined(k, q, t, fed) ==> q in t
  }

  /** Whoever holds base and draws every conclusion the equations allow comes to hold all of held. */
  ghost predicate Forced(base: set<nat>, held: set<nat>, fed: set<(Key, Row)>) {
    forall t: set<nat> :: Saturated(t, fed) && base <= t ==> held <= t
  }

  /** Every source of a finished slot is held. */
  ghost predicate FinishedHeld(gens: map<Key, Slot>, recovered: map<nat, Row>) {
    forall k, q :: k in gens && gens[k].Done? && q in Span(k.0, k.1) ==> q in recovered
  }

  /** All that is new is forced by the received equations, and finished slots lack nothing. */
  ghost predicate Entailed(g0: map<Key, Slot>, r0: map<nat, Row>, g1: map<Key, Slot>, r1: map<nat, Row>,
        fed: set<(Key, Row)>) {
    Forced(r0.Keys, r1.Keys, fed) && (FinishedHeld(g0, r0) ==> FinishedHeld(g1, r1))
  }

  /** The same for a symbol, a raw source being given. */
  ghost predicate Concluded(g0: map<Key, Slot>, r0: map<nat, Row>, sym: WireSymbol, g1: map<Key, Slot>,
        r1: map<nat, Row>, fed: set<(Key, Row)>) {
    && Forced(r0.Keys + (if sym.isRepair then {} else {sym.blockId}), r1.Keys, fed)
    && (FinishedHeld(g0, r0) ==> FinishedHeld(g1, r1))
  }

  lemma NothingEntailed(gens: map<Key, Slot>, recovered: map<nat, Row>, fed: set<(Key, Row)>)
    ensures Entailed(gens, recovered, gens, recovered, fed)
  {}

  lemma EntailedConcluded(g0: map<Key, Slot>, r0: map<nat, Row>, sym: WireSymbol, g1: map<Key, Slot>,
        r1: map<nat, Row>, fed: set<(Key, Row)>)
    requires Entailed(g0, r0, g1, r1, fed)
    ensures Concluded(g0, r0, sym, g1, r1, fed)
  {
    hide Saturated, FinishedHeld;
  }

  lemma SourceConcluded(g0: map<Key, Slot>, r0: map<nat, Row>, sym: WireSymbol, data: Row, g1: map<Key, Slot>,
        r1: map<nat, Row>, fed: set<(Key, Row)>)
    requires !sym.isRepair && Entailed(g0, r0[sym.blockId := data], g1, r1, fed)
    ensures Concluded(g0, r0, sym, g1, r1, fed)
  {
    hide Saturated;
    assert r0[sym.blockId := data].Keys == r0.Keys + {sym.blockId};
  }

  lemma EntailedTrans(g0: map<Key, Slot>, r0: map<nat, Row>, g1: map<Key, Slot>, r1: map<nat, Row>,
                      g2: map<Key, Slot>, r2: map<nat, Row>, fed: set<(Key, Row)>)
    requires Entailed(g0, r0, g1, r1, fed) && Entailed(g1, r1, g2, r2, fed)
    ensures Entailed(g0, r0, g2, r2, fed)
  {
    hide Saturated, FinishedHeld;
  }

  /** What is in the span of justified equations is determined by the received ones and the held sources. */
  lemma SpanDetermines(k: Key, eqs: seq<Row>, recovered: map<nat, Row>, fed: set<(Key, Row)>, q: nat, t: set<nat>)
    requires Shape(eqs, k.1) && forall j :: 0 <= j < |eqs| ==> Justified(k, eqs[j], recovered, fed)
    requires k.0 <= q < k.0 + k.1 && InSpan(eqs, Unit(k.1, q - k.0)) && recovered.Keys <= t
    ensures Determined(k, q, t, fed)
  {
    forall x: Row | Fits(k, x, t, fed)
      ensures x[q - k.0] == 0
    {
      hide InSpan, Add, Mul, Dot;
      forall j | 0 <= j < |eqs|
        ensures Dot(eqs[j], x, |x|) == 0
      {
        assert Justified(k, eqs[j], recovered, fed);
        if (k, eqs[j]) !in fed {
          var p :| p in recovered && k.0 <= p < k.0 + k.1 && eqs[j] == Unit(k.1, p - k.0);
          DotUnit(k.1, p - k.0, x, k.1);
        }
      }
      SpanAnnihilated(eqs, Unit(k.1, q - k.0), x);
      DotUnit(k.1, q - k.0, x, k.1);
    }
  }

  /** What one equation delivers, or a finished slot spans, lies in the span of the accepted equations. */
  lemma FedIsSpanned(s: Slot, w: nat, ss: nat, anchor: nat, before: map<nat, Row>, row: Row, eqs: seq<Row>, r: Fed)
    requires s.Solving? && SlotInv(s, w, ss, eqs) && |row| == w + ss && FedOk(s, w, ss, anchor, before, row, eqs, r)
    ensures Shape(eqs + [row[..w]], w)
    ensures forall q :: q in r.recovered && q !in before ==>
      anchor <= q < anchor + w && InSpan(eqs + [row[..w]], Unit(w, q - anchor))
    ensures r.slot.Done? ==> forall q :: anchor <= q < anchor + w ==> q in r.recovered
    ensures before.Keys <= r.recovered.Keys
  {
    hide InSpan, FedTruth, Covers, StateInSpan, Counted, NoUnitRow, Formed;
    var es := eqs + [row[..w]];
    forall q | q in r.recovered && q !in before
      ensures anchor <= q < anchor + w && InSpan(es, Unit(w, q - anchor))
    {
      assert q in Seqs(r.out);
      KnownExactly(r.slot, w, ss, es, q - anchor);
    }
  }

  lemma AllJustified(gens: map<Key, Slot>, eqs: map<Key, seq<Row>>, recovered: map<nat, Row>, ss: nat,
        fed: set<(Key, Row)>, k: Key, e: Row)
    requires SystemsOk(gens, eqs, recovered, ss, fed) && !Ignored(gens, recovered, k)
    requires Justified(k, e, recovered, fed)
    ensures var es := EqsAt(eqs, recovered, k) + [e]; forall j :: 0 <= j < |es| ==> Justified(k, es[j], recovered, fed)
  {
    SlotAtOk(gens, eqs, recovered, ss, fed, k);
    hide SlotAt, EqsAt, Ignored, Justified, SystemsOk, SlotInv;
  }

  lemma SpannedIsForced(k: Key, eqs: seq<Row>, before: map<nat, Row>, after: map<nat, Row>, fed: set<(Key, Row)>)
    requires Shape(eqs, k.1) && forall j :: 0 <= j < |eqs| ==> Justified(k, eqs[j], before, fed)
    requires forall q :: q in after && q !in before ==> k.0 <= q < k.0 + k.1 && InSpan(eqs, Unit(k.1, q - k.0))
    ensures Forced(before.Keys, after.Keys, fed)
  {
    hide InSpan, Determined, Justified, Shape, Unit;
    forall t: set<nat>, q | Saturated(t, fed) && before.Keys <= t && q in after
      ensures q in t
    {
      if q !in before {
        SpanDetermines(k, eqs, before, fed, q, t);
      }
    }
  }

  lemma FinishedStays(gens: map<Key, Slot>, before: map<nat, Row>, k: Key, s: Slot, after: map<nat, Row>)
    requires before.Keys <= after.Keys && (s.Done? ==> forall q :: k.0 <= q < k.0 + k.1 ==> q in after)
    ensures FinishedHeld(gens, before) ==> FinishedHeld(gens[k := s], after)
  {}

  lemma AcceptedEntailed(gens: map<Key, Slot>, eqs: map<Key, seq<Row>>, recovered: map<nat, Row>, ss: nat,
        fed: set<(Key, Row)>, k: Key, row: Row, r: Fed)
    requires SystemsOk(gens, eqs, recovered, ss, fed) && !Ignored(gens, recovered, k) && |row| == k.1 + ss
    requires Justified(k, row[..k.1], recovered, fed)
    requires SlotAt(gens, recovered, k).Solving?
      && SlotInv(SlotAt(gens, recovered, k), k.1, ss, EqsAt(eqs, recovered, k))
    requires FedOk(SlotAt(gens, recovered, k), k.1, ss, k.0, recovered, row, EqsAt(eqs, recovered, k), r)
    ensures Entailed(gens, recovered, gens[k := r.slot], r.recovered, fed)
  {
    hide SystemsOk, SlotInv, FedOk, Ignored, SlotAt, EqsAt, FreshSlot, KnownUnits, Justified, Forced, InSpan, Shape,
        FinishedHeld;
    AllJustified(gens, eqs, recovered, ss, fed, k, row[..k.1]);
    FedIsSpanned(SlotAt(gens, recovered, k), k.1, ss, k.0, recovered, row, EqsAt(eqs, recovered, k), r);
    SpannedIsForced(k, EqsAt(eqs, recovered, k) + [row[..k.1]], recovered, r.recovered, fed);
    FinishedStays(gens, recovered, k, r.slot, r.recovered);
  }

  /** Every received equation was accepted, unless its whole span is held. */
  ghost predicate Served(eqs: map<Key, seq<Row>>, recovered: map<nat, Row>, fed: set<(Key, Row)>) {
    forall k: Key, e: Row :: (k, e) in fed ==>
      (k in eqs && e in eqs[k]) || (forall q :: q in Span(k.0, k.1) ==> q in recovered)
  }

  /** Between calls, the sources held are closed under everything the received equations determine. */
  lemma HeldIsSaturated(gens: map<Key, Slot>, eqs: map<Key, seq<Row>>, recovered: map<nat, Row>, ss: nat,
        fed: set<(Key, Row)>)
    requires SystemsOk(gens, eqs, recovered, ss, fed) && ClosedBut(gens, recovered, {})
    requires FinishedHeld(gens, recovered) && Served(eqs, recovered, fed)
    ensures Saturated(recovered.Keys, fed)
  {
    forall k: Key, q | Determined(k, q, recovered.Keys, fed)
      ensures q in recovered
    {
      if q !in recovered {
        var x := OpenChoice(gens, eqs, recovered, ss, fed, k, q);
        assert false;
      }
    }
  }

  /** An unknown column of a live slot differs from zero in some solution of its accepted equations. */
  lemma OpenColumn(s: Slot, w: nat, ss: nat, eqs: seq<Row>, c: nat) returns (x: Row)
    requires s.Solving? && SlotInv(s, w, ss, eqs) && c < w && !s.known[c]
    ensures |x| == w && Solves(eqs, x) && x[c] != 0
    ensures forall i :: 0 <= i < w && s.known[i] ==> x[i] == 0
  {
    hide Dot, Counted, StateInSpan, PivotRow, HasTail;
    x := UnknownVaries(s, ss, c);
  }

  lemma LiveSlot(k: Key, s: Slot, eqs: seq<Row>, recovered: map<nat, Row>, ss: nat, fed: set<(Key, Row)>)
    requires s.Solving? && SlotOkAt(k, s, eqs, recovered, ss, fed)
    ensures SlotInv(s, k.1, ss, eqs) && |s.known| == k.1
    ensures forall q :: k.0 <= q < k.0 + k.1 && s.known[q - k.0] ==> q in recovered
  {
    hide Covers, StateInSpan, Counted, NoUnitRow, PivotRow, Justified;
    forall q | k.0 <= q < k.0 + k.1 && s.known[q - k.0]
      ensures q in recovered
    {
      assert k.0 + (q - k.0) == q;
    }
  }

  lemma SlotChoice(k: Key, s: Slot, eqs: seq<Row>, recovered: map<nat, Row>, ss: nat, fed: set<(Key, Row)>, q: nat)
    returns (x: Row)
    requires s.Solving? && SlotOkAt(k, s, eqs, recovered, ss, fed) && forall p :: p in recovered ==> !Missing(k, s, p)
    requires forall e: Row :: (k, e) in fed ==> e in eqs
    requires k.0 <= q < k.0 + k.1 && q !in recovered
    ensures Fits(k, x, recovered.Keys, fed) && x[q - k.0] != 0
  {
    hide SlotOkAt, SlotInv, Dot;
    LiveSlot(k, s, eqs, recovered, ss, fed);
    x := OpenColumn(s, k.1, ss, eqs, q - k.0);
    forall p | p in recovered && k.0 <= p < k.0 + k.1
      ensures x[p - k.0] == 0
    {
      assert !Missing(k, s, p);
    }
  }

  lemma OpenChoice(gens: map<Key, Slot>, eqs: map<Key, seq<Row>>, recovered: map<nat, Row>, ss: nat,
        fed: set<(Key, Row)>, k: Key, q: nat) returns (x: Row)
    requires SystemsOk(gens, eqs, recovered, ss, fed) && ClosedBut(gens, recovered, {})
    requires FinishedHeld(gens, recovered) && Served(eqs, recovered, fed)
    requires k.0 <= q < k.0 + k.1 && q !in recovered
    ensures Fits(k, x, recovered.Keys, fed) && x[q - k.0] != 0
  {
    hide SlotOkAt, Missing, PayloadSizes, Dot;
    assert q in Span(k.0, k.1);
    if k in gens {
      assert SlotOkAt(k, gens[k], eqs[k], recovered, ss, fed);
      assert gens[k].Solving?;
      assert forall p :: p in recovered ==> !Missing(k, gens[k], p);
      hide SystemsOk, ClosedBut, FinishedHeld;
      x := SlotChoice(k, gens[k], eqs[k], recovered, ss, fed, q);
    } else {
      x := Unit(k.1, q - k.0);
    }
  }

  // ---- injecting one recovered source into every live system

  lemma KeepsTruthTrans(g0: map<Key, Slot>, r0: map<nat, Row>, g1: map<Key, Slot>, r1: map<nat, Row>,
                        g2: map<Key, Slot>, r2: map<nat, Row>, ss: nat)
    requires KeepsTruth(g0, r0, g1, r1, ss) && KeepsTruth(g1, r1, g2, r2, ss)
    ensures KeepsTruth(g0, r0, g2, r2, ss)
  {}

  /** A unit row carrying a recovered payload adds nothing untrue. */
  lemma UnitFeedsTruth(g0: map<Key, Slot>, r0: map<nat, Row>, g1: map<Key, Slot>, r1: map<nat, Row>, ss: nat, k: Key,
        row: Row, q: nat)
    requires FeedsTruth(g0, r0, g1, r1, ss, k, row)
    requires q in r0 && |r0[q]| == ss && k.0 <= q < k.0 + k.1 && row == Unit(k.1, q - k.0) + r0[q]
    ensures KeepsTruth(g0, r0, g1, r1, ss)
  {
    forall sources: seq<Row> | SystemsHold(g0, r0, ss, sources)
      ensures SystemsHold(g1, r1, ss, sources)
    {
      assert row[..k.1] == Unit(k.1, q - k.0) && row[k.1..] == r0[q];
      assert k.0 + (q - k.0) == q;
      UnitRowHolds(row, k.1, q - k.0, ss, k.0, sources);
    }
  }

  /** Once its unit equation is accepted, a column is known. */
  lemma UnitMakesKnown(gens0: map<Key, Slot>, eqs0: map<Key, seq<Row>>, rec0: map<nat, Row>, k: Key, q: nat,
        added: bool, out: seq<(nat, Row)>,
                       gens: map<Key, Slot>, eqs: map<Key, seq<Row>>, recovered: map<nat, Row>, ss: nat,
                       fed: set<(Key, Row)>)
    requires SystemsOk(gens, eqs, recovered, ss, fed) && k in gens0 && gens0[k].Solving? && k in eqs0
    requires k.0 <= q < k.0 + k.1
    requires Inserted(gens0, eqs0, rec0, k, Unit(k.1, q - k.0), added, out, gens, eqs, recovered)
    ensures !Missing(k, gens[k], q)
  {
    var c := q - k.0;
    assert SlotOkAt(k, gens[k], eqs[k], recovered, ss, fed);
    SpanMember(eqs[k], Unit(k.1, c));
    KnownExactly(gens[k], k.1, ss, eqs[k], c);
  }

  /** Where a run of insertions may have led from one state of the systems to another. */
  ghost predicate Progress(g0: map<Key, Slot>, e0: map<Key, seq<Row>>, r0: map<nat, Row>,
                           g1: map<Key, Slot>, e1: map<Key, seq<Row>>, r1: map<nat, Row>, out: seq<(nat, Row)>, ss: nat)
  {
    && g1.Keys == g0.Keys && Delivers(r0, r1, out) && EqsGrow(e0, e1)
    && KeepsTruth(g0, r0, g1, r1, ss) && ClosureMoves(g0, r0, g1, r1, out)
    && Seqs(out) <= Universe(g0.Keys)
  }

  lemma ProgressStart(g: map<Key, Slot>, e: map<Key, seq<Row>>, r: map<nat, Row>, ss: nat)
    ensures Progress(g, e, r, g, e, r, [], ss)
  {
    Untouched(g, r, ss, (0, 0), []);
  }

  lemma ClosureTrans(g0: map<Key, Slot>, r0: map<nat, Row>, g1: map<Key, Slot>, r1: map<nat, Row>, a: seq<(nat, Row)>,
                     g2: map<Key, Slot>, r2: map<nat, Row>, b: seq<(nat, Row)>)
    requires ClosureMoves(g0, r0, g1, r1, a) && ClosureMoves(g1, r1, g2, r2, b)
    ensures ClosureMoves(g0, r0, g2, r2, a + b)
  {
    SeqsAppend(a, b);
    forall pending | ClosedBut(g0, r0, pending)
      ensures ClosedBut(g2, r2, pending + Seqs(a + b))
    {
      assert ClosedBut(g1, r1, pending + Seqs(a));
      assert pending + Seqs(a) + Seqs(b) == pending + Seqs(a + b);
    }
  }

  lemma ProgressTrans(g0: map<Key, Slot>, e0: map<Key, seq<Row>>, r0: map<nat, Row>,
                      g1: map<Key, Slot>, e1: map<Key, seq<Row>>, r1: map<nat, Row>, a: seq<(nat, Row)>,
                      g2: map<Key, Slot>, e2: map<Key, seq<Row>>, r2: map<nat, Row>, b: seq<(nat, Row)>, ss: nat)
    requires Progress(g0, e0, r0, g1, e1, r1, a, ss) && Progress(g1, e1, r1, g2, e2, r2, b, ss)
    ensures Progress(g0, e0, r0, g2, e2, r2, a + b, ss)
  {
    hide Delivers, ClosureMoves, SystemsHold, Seqs, Universe;
    SeqsAppend(a, b);
    DeliverAppend(r0, r1, r2, a, b);
    ClosureTrans(g0, r0, g1, r1, a, g2, r2, b);
    KeepsTruthTrans(g0, r0, g1, r1, g2, r2, ss);
  }

  lemma InsertedKeys(g0: map<Key, Slot>, e0: map<Key, seq<Row>>, r0: map<nat, Row>, k: Key, e: Row, added: bool,
        out: seq<(nat, Row)>,
                     g1: map<Key, Slot>, e1: map<Key, seq<Row>>, r1: map<nat, Row>)
    requires k in g0 && Inserted(g0, e0, r0, k, e, added, out, g1, e1, r1)
    ensures g1.Keys == g0.Keys && forall k' :: k' in g0 && k' != k ==> g1[k'] == g0[k']
  {}

  lemma UnitRow(recovered: map<nat, Row>, ss: nat, gens: map<Key, Slot>, eqs: map<Key, seq<Row>>,
        fed: set<(Key, Row)>, k: Key, q: nat, row: Row)
    requires SystemsOk(gens, eqs, recovered, ss, fed) && q in recovered && k.0 <= q < k.0 + k.1
    requires row == Unit(k.1, q - k.0) + Pad(recovered[q], ss)
    ensures |row| == k.1 + ss && row[..k.1] == Unit(k.1, q - k.0) && row == Unit(k.1, q - k.0) + recovered[q]
    ensures Justified(k, row[..k.1], recovered, fed)
  {
    assert Pad(recovered[q], ss) == recovered[q];
  }

  lemma InjectStep(g0: map<Key, Slot>, e0: map<Key, seq<Row>>, r0: map<nat, Row>,
                   g1: map<Key, Slot>, e1: map<Key, seq<Row>>, r1: map<nat, Row>,
                   k: Key, q: nat, row: Row, added: bool, out: seq<(nat, Row)>, ss: nat, fed: set<(Key, Row)>)
    requires SystemsOk(g0, e0, r0, ss, fed) && SystemsOk(g1, e1, r1, ss, fed)
    requires k in g0 && q in r0 && Missing(k, g0[k], q) && row == Unit(k.1, q - k.0) + r0[q]
    requires Inserted(g0, e0, r0, k, Unit(k.1, q - k.0), added, out, g1, e1, r1)
    requires Delivers(r0, r1, out) && EqsGrow(e0, e1) && ClosureMoves(g0, r0, g1, r1, out)
      && FeedsTruth(g0, r0, g1, r1, ss, k, row)
    requires InSpanOf(k, out)
    ensures Progress(g0, e0, r0, g1, e1, r1, out, ss)
    ensures k in g1 && !Missing(k, g1[k], q)
    ensures forall k' :: k' in g0 && k' != k ==> k' in g1 && g1[k'] == g0[k']
    ensures q in r1 && r1[q] == r0[q] && g1.Keys == g0.Keys
  {
    InsertedKeys(g0, e0, r0, k, Unit(k.1, q - k.0), added, out, g1, e1, r1);
    UnitFeedsTruth(g0, r0, g1, r1, ss, k, row, q);
    UnitMakesKnown(g0, e0, r0, k, q, added, out, g1, e1, r1, ss, fed);
    forall p | p in Seqs(out)
      ensures p in Universe(g0.Keys)
    {
      assert p in Span(k.0, k.1);
    }
    hide SlotOkAt, ClosureMoves, FeedsTruth, KeepsTruth, EqsGrow, Inserted;
  }

  lemma ClosedAfterInjection(g0: map<Key, Slot>, e0: map<Key, seq<Row>>, r0: map<nat, Row>,
                             g1: map<Key, Slot>, e1: map<Key, seq<Row>>, r1: map<nat, Row>,
                             out: seq<(nat, Row)>, ss: nat, q: nat)
    requires Progress(g0, e0, r0, g1, e1, r1, out, ss) && q in r0
    requires forall k :: k in g1 ==> !Missing(k, g1[k], q)
    ensures forall pending :: ClosedBut(g0, r0, pending) ==> ClosedBut(g1, r1, pending - {q} + Seqs(out))
  {
    hide Missing;
    forall pending | ClosedBut(g0, r0, pending)
      ensures ClosedBut(g1, r1, pending - {q} + Seqs(out))
    {
      assert ClosedBut(g1, r1, pending + Seqs(out));
    }
  }

  /** One turn of the worklist: the injected source leaves the pending set, its deliveries join, and work gets less. */
  lemma QueueStep(g0: map<Key, Slot>, e0: map<Key, seq<Row>>, r0: map<nat, Row>,
                  g1: map<Key, Slot>, e1: map<Key, seq<Row>>, r1: map<nat, Row>,
                  queue: seq<(nat, Row)>, delivered: seq<(nat, Row)>, ss: nat)
    requires queue != [] && Progress(g0, e0, r0, g1, e1, r1, delivered, ss) && Held(r0, queue)
    requires ClosedBut(g0, r0, Seqs(queue))
    requires forall pending :: ClosedBut(g0, r0, pending) ==>
      ClosedBut(g1, r1, pending - {queue[0].0} + Seqs(delivered))
    ensures ClosedBut(g1, r1, Seqs(queue[1..] + delivered)) && Held(r1, queue[1..] + delivered)
    ensures var u0, u1 := |Universe(g0.Keys) - r0.Keys|, |Universe(g1.Keys) - r1.Keys|;
      u1 < u0 || (u1 == u0 && |delivered| == 0)
  {
    hide ClosureMoves, KeepsTruth, EqsGrow, Universe;
    assert ClosedBut(g1, r1, Seqs(queue) - {queue[0].0} + Seqs(delivered));
    SeqsAppend(queue[1..], delivered);
    SeqsAppend([queue[0]], queue[1..]);
    assert queue == [queue[0]] + queue[1..];
    SeqsOfOne(queue[0]);
    assert Seqs(queue) - {queue[0].0} <= Seqs(queue[1..]);
    ClosedMore(g1, r1, Seqs(queue) - {queue[0].0} + Seqs(delivered), Seqs(queue[1..] + delivered));
    var a, b := Universe(g0.Keys) - r0.Keys, Universe(g1.Keys) - r1.Keys;
    if delivered != [] {
      assert delivered[0].0 in Seqs(delivered);
      assert delivered[0].0 in a && delivered[0].0 !in b;
      SmallerSet(b, a, delivered[0].0);
    } else {
      Untouched(g0, r0, ss, (0, 0), []);
      assert r1.Keys == r0.Keys;
    }
    HeldStep(r0, r1, queue, delivered);
  }

  lemma HeldHead(recovered: map<nat, Row>, queue: seq<(nat, Row)>)
    requires Held(recovered, queue) && queue != []
    ensures queue[0].0 in recovered && recovered[queue[0].0] == queue[0].1
  {}

  lemma Rotate<T>(all: seq<T>, queue: seq<T>, delivered: seq<T>, initial: seq<T>, more: seq<T>)
    requires queue != [] && all + queue == initial + more
    ensures (all + [queue[0]]) + (queue[1..] + delivered) == initial + (more + delivered)
  {
    assert queue == [queue[0]] + queue[1..];
    assert (all + [queue[0]]) + (queue[1..] + delivered) == (all + queue) + delivered;
  }

  lemma HeldStep(r0: map<nat, Row>, r1: map<nat, Row>, queue: seq<(nat, Row)>, delivered: seq<(nat, Row)>)
    requires queue != [] && Held(r0, queue) && Delivers(r0, r1, delivered)
    ensures Held(r1, queue[1..] + delivered)
  {}

  lemma ClosedMore(gens: map<Key, Slot>, recovered: map<nat, Row>, a: set<nat>, b: set<nat>)
    requires ClosedBut(gens, recovered, a) && a <= b
    ensures ClosedBut(gens, recovered, b)
  {}

  lemma SmallerSet(b: set<nat>, a: set<nat>, x: nat)
    requires b <= a && x in a && x !in b
    ensures |b| < |a|
  {
    assert b <= a - {x};
    assert |a - {x} - b| == |a - {x}| - |b|;
  }

  // ---- symbols

  /** What a symbol claims is true of the sources. */
  ghost predicate SymbolHolds(sym: WireSymbol, sources: seq<Row>, ss: nat) {
    if !sym.isRepair then Pad(sym.data, ss) == Source(sources, sym.blockId, ss)
    else
      var h := Parse(sym.data);
      h.Some? ==> RowHolds(RepairRow(h.value, sym.data[h.value.end..], ss), h.value.width, ss, h.value.anchor, sources)
  }

  ghost predicate SymbolFeedsTruth(g0: map<Key, Slot>, r0: map<nat, Row>, g1: map<Key, Slot>, r1: map<nat, Row>,
        ss: nat, sym: WireSymbol) {
    forall sources: seq<Row> ::
      SystemsHold(g0, r0, ss, sources) && SymbolHolds(sym, sources, ss) ==> SystemsHold(g1, r1, ss, sources)
  }

  function HeaderKey(h: Header): Key { (h.anchor, h.width) }

  /** The symbol gets past the backend check and the duplicate filters. */
  predicate Fresh(sym: WireSymbol, srcSeen: set<nat>, repairsSeen: set<(nat, nat)>) {
    && sym.backend == Rlc
    && (if sym.isRepair then (sym.blockId, sym.payloadId) !in repairsSeen else sym.blockId !in srcSeen)
  }

  /** The duplicate filters after a symbol: a repair is always recorded, a source maybe. */
  ghost predicate SeenMoves(src0: set<nat>, repairs0: set<(nat, nat)>, sym: WireSymbol, src1: set<nat>,
        repairs1: set<(nat, nat)>) {
    if sym.backend != Rlc then src1 == src0 && repairs1 == repairs0
    else
      && src0 <= src1 <= src0 + (if sym.isRepair then {} else {sym.blockId})
      && repairs1 == repairs0 + (if sym.isRepair then {(sym.blockId, sym.payloadId)} else {})
  }

  /** A source that was not recovered yet joins the store; the other systems still have to hear of it. */
  lemma SourceJoins(gens: map<Key, Slot>, eqs: map<Key, seq<Row>>, recovered: map<nat, Row>, ss: nat,
        fed: set<(Key, Row)>,
                    sym: WireSymbol)
    requires SystemsOk(gens, eqs, recovered, ss, fed) && ClosedBut(gens, recovered, {})
    requires !sym.isRepair && sym.blockId !in recovered
    ensures var q, data := sym.blockId, Pad(sym.data, ss);
      var recovered' := recovered[q := data];
      && SystemsOk(gens, eqs, recovered', ss, fed) && ClosedBut(gens, recovered', {q})
      && Delivers(recovered, recovered', [(q, data)])
      && SymbolFeedsTruth(gens, recovered, gens, recovered', ss, sym)
  {
    var q, data := sym.blockId, Pad(sym.data, ss);
    forall k | k in gens
      ensures SlotOkAt(k, gens[k], eqs[k], recovered[q := data], ss, fed)
    {
      StoreGrows(k, gens[k], eqs[k], recovered, recovered[q := data], ss, fed);
    }
    DeliversNothing(recovered);
    DeliverOne(recovered, recovered, [], q, data);
    assert [] + [(q, data)] == [(q, data)];
    hide SlotOkAt, Delivers;
  }

  lemma TruthThen(g0: map<Key, Slot>, r0: map<nat, Row>, g1: map<Key, Slot>, r1: map<nat, Row>,
                  g2: map<Key, Slot>, r2: map<nat, Row>, ss: nat, sym: WireSymbol)
    requires SymbolFeedsTruth(g0, r0, g1, r1, ss, sym) && KeepsTruth(g1, r1, g2, r2, ss)
    ensures SymbolFeedsTruth(g0, r0, g2, r2, ss, sym)
  {}

  lemma InjectedPending(g0: map<Key, Slot>, r0: map<nat, Row>, g1: map<Key, Slot>, r1: map<nat, Row>, q: nat,
        delivered: seq<(nat, Row)>)
    requires ClosedBut(g0, r0, {q})
    requires forall pending :: ClosedBut(g0, r0, pending) ==> ClosedBut(g1, r1, pending - {q} + Seqs(delivered))
    requires Delivers(r0, r1, delivered)
    ensures ClosedBut(g1, r1, Seqs(delivered)) && Held(r1, delivered)
  {
    assert ClosedBut(g1, r1, {q} - {q} + Seqs(delivered));
    assert {q} - {q} + Seqs(delivered) == Seqs(delivered);
  }

  /** More received equations leave the systems in order. */
  lemma FedGrows(gens: map<Key, Slot>, eqs: map<Key, seq<Row>>, recovered: map<nat, Row>, ss: nat,
        fed: set<(Key, Row)>, x: (Key, Row))
    requires SystemsOk(gens, eqs, recovered, ss, fed)
    ensures SystemsOk(gens, eqs, recovered, ss, fed + {x})
  {
    forall k | k in gens
      ensures SlotOkAt(k, gens[k], eqs[k], recovered, ss, fed + {x})
    {
      if gens[k].Solving? {
        forall j | 0 <= j < |eqs[k]|
          ensures Justified(k, eqs[k][j], recovered, fed + {x})
        {
          assert Justified(k, eqs[k][j], recovered, fed);
        }
      }
    }
  }

  /** The equation of a parsed repair was accepted, unless its slot is finished or was never needed. */
  ghost predicate Accounted(g0: map<Key, Slot>, r0: map<nat, Row>, eqs: map<Key, seq<Row>>, h: Header)
    requires h.codedWidth <= h.width
  {
    Ignored(g0, r0, HeaderKey(h)) || (HeaderKey(h) in eqs && RepairCoefficients(h) in eqs[HeaderKey(h)])
  }

  lemma InsertedIsAccounted(g0: map<Key, Slot>, e0: map<Key, seq<Row>>, r0: map<nat, Row>, h: Header, added: bool,
        out: seq<(nat, Row)>,
                            g1: map<Key, Slot>, e1: map<Key, seq<Row>>, r1: map<nat, Row>, e2: map<Key, seq<Row>>)
    requires h.codedWidth <= h.width
    requires Inserted(g0, e0, r0, HeaderKey(h), RepairCoefficients(h), added, out, g1, e1, r1) && EqsGrow(e1, e2)
    ensures Accounted(g0, r0, e2, h)
    ensures added <==> NewRank(g0, e0, r0, h)
  {
    if !Ignored(g0, r0, HeaderKey(h)) {
      var es, e := EqsAt(e0, r0, HeaderKey(h)), RepairCoefficients(h);
      assert (es + [e])[|es|] == e;
      assert e2[HeaderKey(h)][|es|] == e;
    }
  }

  /** The repair is independent of everything its slot has accepted. */
  ghost predicate NewRank(g0: map<Key, Slot>, e0: map<Key, seq<Row>>, r0: map<nat, Row>, h: Header)
    requires h.codedWidth <= h.width
  {
    !Ignored(g0, r0, HeaderKey(h)) && !InSpan(EqsAt(e0, r0, HeaderKey(h)), RepairCoefficients(h))
  }

  lemma EqsGrowTrans(e0: map<Key, seq<Row>>, e1: map<Key, seq<Row>>, e2: map<Key, seq<Row>>)
    requires EqsGrow(e0, e1) && EqsGrow(e1, e2)
    ensures EqsGrow(e0, e2)
  {}

  lemma RepairTruth(g0: map<Key, Slot>, r0: map<nat, Row>, g1: map<Key, Slot>, r1: map<nat, Row>,
                    g2: map<Key, Slot>, r2: map<nat, Row>, ss: nat, sym: WireSymbol, h: Header)
    requires sym.isRepair && Parse(sym.data) == Some(h)
    requires FeedsTruth(g0, r0, g1, r1, ss, HeaderKey(h), RepairRow(h, sym.data[h.end..], ss))
      && KeepsTruth(g1, r1, g2, r2, ss)
    ensures SymbolFeedsTruth(g0, r0, g2, r2, ss, sym)
  {
    hide SystemsHold, RowHolds;
  }

  lemma NothingDelivered(gens: map<Key, Slot>, eqs: map<Key, seq<Row>>, recovered: map<nat, Row>, ss: nat,
        sym: WireSymbol)
    ensures Delivers(recovered, recovered, []) && EqsGrow(eqs, eqs)
      && SymbolFeedsTruth(gens, recovered, gens, recovered, ss, sym)
  {
    DeliversNothing(recovered);
  }

  lemma InsertedPending(g0: map<Key, Slot>, r0: map<nat, Row>, g1: map<Key, Slot>, r1: map<nat, Row>,
        delivered: seq<(nat, Row)>)
    requires ClosedBut(g0, r0, {}) && ClosureMoves(g0, r0, g1, r1, delivered) && Delivers(r0, r1, delivered)
    ensures ClosedBut(g1, r1, Seqs(delivered)) && Held(r1, delivered)
  {
    assert {} + Seqs(delivered) == Seqs(delivered);
  }

  lemma ProgressParts(g0: map<Key, Slot>, e0: map<Key, seq<Row>>, r0: map<nat, Row>,
                      g1: map<Key, Slot>, e1: map<Key, seq<Row>>, r1: map<nat, Row>, out: seq<(nat, Row)>, ss: nat)
    requires Progress(g0, e0, r0, g1, e1, r1, out, ss)
    ensures Delivers(r0, r1, out) && EqsGrow(e0, e1) && KeepsTruth(g0, r0, g1, r1, ss)
  {}

  lemma DeliversKeys(before: map<nat, Row>, after: map<nat, Row>, out: seq<(nat, Row)>, q: nat)
    requires Delivers(before, after, out) && out != [] && out[0].0 == q
    ensures q in after
  {}

  // ---- the floor

  lemma RetainedDeliveries(before: map<nat, Row>, after: map<nat, Row>, out: seq<(nat, Row)>, floor: nat)
    requires Delivers(before, after, out)
    ensures var kept := AtLeast(out, floor);
      && Held(after, kept)
      && Unrepeated(kept)
      && (forall q :: q in Seqs(kept) <==> q in after && q !in before && q >= floor)
  {
    AtLeastMembers(out, floor);
    AtLeastUnrepeated(out, floor);
    assert forall i :: 0 <= i < |out| ==> out[i].0 in Seqs(out);
    forall i | 0 <= i < |AtLeast(out, floor)|
      ensures AtLeast(out, floor)[i].0 in after && after[AtLeast(out, floor)[i].0] == AtLeast(out, floor)[i].1
    {
      var d := AtLeast(out, floor)[i];
      assert d in out;
    }
    forall i | 0 <= i < |out| && out[i].0 >= floor
      ensures out[i].0 in Seqs(AtLeast(out, floor))
    {
      assert out[i] in AtLeast(out, floor);
    }
  }

  lemma DeliversExtends(before: map<nat, Row>, after: map<nat, Row>, out: seq<(nat, Row)>)
    requires Delivers(before, after, out)
    ensures forall q :: q in before ==> q in after && after[q] == before[q]
  {}

  /** The smallest anchor among the live slots, capped at the frontier. */
  method FirstLive(live: set<Key>, oldest: nat) returns (point: nat)
    ensures PrunedTo(point, oldest, live)
  {
    point := oldest;
    var due := live;
    while due != {}
      invariant due <= live && point <= oldest && forall k :: k in live && k !in due ==> point <= k.0
      invariant point == oldest || exists k :: k in live && k.0 == point
    {
      var k: Key :| k in due;
      due := due - {k};
      if k.0 < point {
        point := k.0;
      }
    }
  }

  ghost predicate PrunedTo(point: nat, oldest: nat, live: set<Key>) {
    && point <= oldest && (forall k :: k in live ==> point <= k.0)
    && (point == oldest || exists k :: k in live && k.0 == point)
  }

  lemma {:induction false} CountInSpan(recovered: map<nat, Row>, anchor: nat, w: nat)
    ensures FreshSlot(recovered, anchor, w).knownCount == |set q | q in recovered && q in Span(anchor, w)|
  {
    FlagsInSpan(recovered, anchor, w, w);
  }

  lemma {:induction false} FlagsInSpan(recovered: map<nat, Row>, anchor: nat, w: nat, n: nat)
    requires n <= w
    ensures CountTrue(KnownFlags(recovered, anchor, w), n) == |set q | q in recovered && q in Span(anchor, n)|
  {
    var s := set q | q in recovered && q in Span(anchor, n);
    if n == 0 {
      assert s == {};
    } else {
      FlagsInSpan(recovered, anchor, w, n - 1);
      var t := set q | q in recovered && q in Span(anchor, n - 1);
      var last := anchor + n - 1;
      assert s == if last in recovered then t + {last} else t;
    }
  }

  /** The part of the store at or above a point. */
  function FromPoint(recovered: map<nat, Row>, point: nat): map<nat, Row> {
    map q | q in recovered && q >= point :: recovered[q]
  }

  /** The slot ends at or before the frontier. */
  predicate Past(k: Key, oldest: nat) {
    k.0 < oldest && k.0 + k.1 <= oldest
  }

  function Surviving<V>(m: map<Key, V>, oldest: nat): map<Key, V> {
    map k | k in m && !Past(k, oldest) :: m[k]
  }

  lemma SurvivingSpans(gens: map<Key, Slot>, oldest: nat)
    ensures forall k, q :: k in gens && q in Span(k.0, k.1) && q >= oldest ==>
      k in Surviving(gens, oldest) && Surviving(gens, oldest)[k] == gens[k]
    ensures forall k, q :: k in Surviving(gens, oldest) && q in Span(k.0, k.1) ==>
      exists p :: p in Span(k.0, k.1) && p >= oldest
  {
    forall k, q | k in Surviving(gens, oldest) && q in Span(k.0, k.1)
      ensures exists p :: p in Span(k.0, k.1) && p >= oldest
    {
      assert k.0 + k.1 - 1 in Span(k.0, k.1);
    }
  }

  lemma ReturnedKept(returned: set<nat>, recovered: map<nat, Row>, floor0: nat, floor1: nat, point: nat)
    requires point <= floor1 && floor0 <= floor1
    requires forall q :: q in returned ==> q < floor0 || q in recovered
    ensures forall q :: q in returned ==> q < floor1 || q in FromPoint(recovered, point)
  {}

  lemma LiveAbove(gens: map<Key, Slot>, oldest: nat, point: nat)
    requires PrunedTo(point, oldest, LiveKeys(Surviving(gens, oldest)))
    ensures point <= oldest
    ensures forall k :: k in gens && gens[k].Solving? && !Past(k, oldest) ==> point <= k.0
  {
    forall k | k in gens && gens[k].Solving? && !Past(k, oldest)
      ensures point <= k.0
    {
      assert k in LiveKeys(Surviving(gens, oldest));
    }
  }

  /** Pruning keeps every payload a surviving live slot still eliminates against. */
  lemma PruneKeepsSystems(gens: map<Key, Slot>, eqs: map<Key, seq<Row>>, recovered: map<nat, Row>, ss: nat,
        fed: set<(Key, Row)>,
                          oldest: nat, point: nat)
    requires SystemsOk(gens, eqs, recovered, ss, fed) && ClosedBut(gens, recovered, {})
    requires forall k :: k in gens && gens[k].Solving? && !Past(k, oldest) ==> point <= k.0
    ensures SystemsOk(Surviving(gens, oldest), Surviving(eqs, oldest), FromPoint(recovered, point), ss, fed)
    ensures ClosedBut(Surviving(gens, oldest), FromPoint(recovered, point), {})
    ensures KeepsTruth(gens, recovered, Surviving(gens, oldest), FromPoint(recovered, point), ss)
  {
    var gens', eqs', rec' := Surviving(gens, oldest), Surviving(eqs, oldest), FromPoint(recovered, point);
    forall k | k in gens'
      ensures SlotOkAt(k, gens'[k], eqs'[k], rec', ss, fed)
    {
      assert SlotOkAt(k, gens[k], eqs[k], recovered, ss, fed);
      if gens[k].Solving? {
        forall j | 0 <= j < |eqs[k]|
          ensures Justified(k, eqs[k][j], rec', fed)
        {
          assert Justified(k, eqs[k][j], recovered, fed);
          if (k, eqs[k][j]) !in fed {
            var q :| q in recovered && k.0 <= q < k.0 + k.1 && eqs[k][j] == Unit(k.1, q - k.0);
            assert q in rec';
          }
        }
      }
    }
  }

  class GenerationDecoder {
    const symbolSize: nat
    var gens: map<Key, Slot>
    var recovered: map<nat, Row>
    var solving: set<Key>
    var srcSeen: set<nat>
    var repairsSeen: set<(nat, nat)>
    var totalFed: nat
    var floor: nat
    var repairsFed: nat
    var repairsUseful: nat

    /** Per slot, the coefficient vectors of every equation it accepted. */
    ghost var eqs: map<Key, seq<Row>>
    /** Every coefficient vector that ever arrived in a repair, with the slot it belongs to. */
    ghost var fed: set<(Key, Row)>
    /** Every seq ever returned to the caller. */
    ghost var returned: set<nat>

    ghost predicate Systems()
      reads this
    {
      && SystemsOk(gens, eqs, recovered, symbolSize, fed)
      && solving == LiveKeys(gens)
    }

    /** The invariant between calls: systems in order, mutually closed, and returned seqs accounted for. */
    ghost predicate Valid()
      reads this
    {
      && Systems()
      && ClosedBut(gens, recovered, {})
      && forall q :: q in returned ==> q < floor || q in recovered
    }

    constructor (symbolSize: nat)
      ensures Valid() && this.symbolSize == symbolSize && floor == 0 && returned == {} && recovered == map[]
        && gens == map[]
      ensures fed == {} && srcSeen == {} && repairsSeen == {}
    {
      this.symbolSize := symbolSize;
      gens, recovered, solving := map[], map[], {};
      srcSeen, repairsSeen := {}, {};
      totalFed, floor, repairsFed, repairsUseful := 0, 0, 0, 0;
      eqs, fed, returned := map[], {}, {};
    }

    /** Marks the already recovered sources of the span and counts them. */
    method MakeSlot(anchor: nat, width: nat) returns (s: Slot)
      ensures s == FreshSlot(recovered, anchor, width)
    {
      var known: seq<bool> := [];
      var have := 0;
      for c := 0 to width
        invariant |known| == c && known == KnownFlags(recovered, anchor, width)[..c]
        invariant have == CountTrue(KnownFlags(recovered, anchor, width), c)
      {
        var k := anchor + c in recovered;
        known := known + [k];
        if k {
          have := have + 1;
        }
      }
      s := Solving(width, known, have, seq(width, _ => None), 0);
    }

    /** The slot a row for k feeds, created on first use; None when the row must be ignored. */
    method OpenSlot(k: Key) returns (slot: Option<Slot>)
      requires eqs.Keys == gens.Keys && solving == LiveKeys(gens)
      modifies this`gens, this`solving, this`eqs
      ensures eqs.Keys == gens.Keys && solving == LiveKeys(gens)
      ensures slot.None? <==> old(Ignored(gens, recovered, k))
      ensures slot.None? ==> gens == old(gens) && eqs == old(eqs)
      ensures slot.Some? ==>
        && slot.value == old(SlotAt(gens, recovered, k)) && slot.value.Solving? && k in solving
        && gens == old(gens)[k := slot.value] && eqs == old(eqs)[k := old(EqsAt(eqs, recovered, k))]
    {
      hide FreshSlot, KnownUnits;
      if k !in gens {
        var created := MakeSlot(k.0, k.1);
        if created.knownCount == k.1 {
          return None;
        }
        LiveKeysUpdate(gens, k, created);
        solving := solving + {k};
        gens := gens[k := created];
        eqs := eqs[k := KnownUnits(created.known, k.1, k.1)];
        return Some(created);
      }
      var s := gens[k];
      if s.Done? {
        return None;
      }
      assert gens == gens[k := s] && eqs == eqs[k := eqs[k]];
      return Some(s);
    }

    method InsertEquation(anchor: nat, width: nat, row: Row) returns (added: bool, out: seq<(nat, Row)>)
      requires Systems() && |row| == width + symbolSize
      requires Justified((anchor, width), row[..width], recovered, fed)
      modifies this`gens, this`recovered, this`solving, this`eqs
      ensures Systems() && Delivers(old(recovered), recovered, out) && EqsGrow(old(eqs), eqs)
      ensures Inserted(old(gens), old(eqs), old(recovered), (anchor, width), row[..width], added, out, gens, eqs,
          recovered)
      ensures ClosureMoves(old(gens), old(recovered), gens, recovered, out) && InSpanOf((anchor, width), out)
      ensures FeedsTruth(old(gens), old(recovered), gens, recovered, symbolSize, (anchor, width), row)
      ensures Entailed(old(gens), old(recovered), gens, recovered, fed)
    {
      hide FedOk, ClosedBut, SystemsHold, Delivers, InSpan, FeedsTruth, ClosureMoves, LiveKeys, InSpanOf;
      hide SystemsOk, SlotInv, PayloadSizes, Formed, SlotAt, EqsAt, Ignored, Seqs, Justified, KeepsTruth, Entailed;
      var k := (anchor, width);
      ghost var gens0, rec0, eqs0 := gens, recovered, eqs;
      SameKeys(gens, eqs, recovered, symbolSize, fed);
      Untouched(gens, recovered, symbolSize, k, row);
      NothingEntailed(gens, recovered, fed);
      var slot := OpenSlot(k);
      if slot.None? {
        return false, [];
      }
      ReadyToFeed(gens0, eqs0, rec0, symbolSize, fed, k);
      var r := FeedRow(anchor, slot.value, symbolSize, recovered, row, eqs[k]);
      Accepted(gens0, eqs0, rec0, symbolSize, fed, k, row, r);
      LiveKeysUpdate(gens, k, r.slot);
      StoreSlot(k, r.slot, r.recovered, row[..width]);
      added, out := r.added, r.out;
      assert gens == gens0[k := r.slot];
      assert eqs == eqs0[k := EqsAt(eqs0, rec0, k) + [row[..width]]];
      assert solving == LiveKeys(gens);
    }

    method StoreSlot(k: Key, slot: Slot, payloads: map<nat, Row>, ghost equation: Row)
      requires k in eqs
      modifies this`gens, this`recovered, this`solving, this`eqs
      ensures gens == old(gens)[k := slot] && recovered == payloads && eqs == old(eqs)[k := old(eqs)[k] + [equation]]
      ensures solving == if slot.Done? then old(solving) - {k} else old(solving)
    {
      gens := gens[k := slot];
      eqs := eqs[k := eqs[k] + [equation]];
      recovered := payloads;
      solving := if slot.Done? then solving - {k} else solving;
    }

    /** Feeds a recovered source as a unit equation into every live system that does not know it. */
    method InjectSource(q: nat, data: Row) returns (out: seq<(nat, Row)>)
      requires Systems() && q in recovered && recovered[q] == data
      modifies this`gens, this`recovered, this`solving, this`eqs
      ensures Systems() && Progress(old(gens), old(eqs), old(recovered), gens, eqs, recovered, out, symbolSize)
      ensures forall pending :: ClosedBut(old(gens), old(recovered), pending) ==>
        ClosedBut(gens, recovered, pending - {q} + Seqs(out))
      ensures Entailed(old(gens), old(recovered), gens, recovered, fed)
    {
      hide SystemsOk, Progress, Inserted, Justified, ClosedBut, LiveKeys, Delivers, SystemsHold, Entailed;
      ghost var g0, e0, r0 := gens, eqs, recovered;
      ProgressStart(gens, eqs, recovered, symbolSize);
      NothingEntailed(gens, recovered, fed);
      out := [];
      var covering := set k: Key | k in gens && Missing(k, gens[k], q);
      while covering != {}
        invariant Systems() && Progress(g0, e0, r0, gens, eqs, recovered, out, symbolSize)
        invariant Entailed(g0, r0, gens, recovered, fed)
        invariant q in recovered && recovered[q] == data
        invariant covering <= gens.Keys && forall k: Key :: k in gens && Missing(k, gens[k], q) ==> k in covering
        invariant forall k: Key :: k in covering ==> Missing(k, gens[k], q)
      {
        var k: Key :| k in covering;
        covering := covering - {k};
        ghost var g1, e1, r1 := gens, eqs, recovered;
        var row := Unit(k.1, q - k.0) + Pad(data, symbolSize);
        UnitRow(recovered, symbolSize, gens, eqs, fed, k, q, row);
        var added, delivered := InsertEquation(k.0, k.1, row);
        InjectStep(g1, e1, r1, gens, eqs, recovered, k, q, row, added, delivered, symbolSize, fed);
        ProgressTrans(g0, e0, r0, g1, e1, r1, out, gens, eqs, recovered, delivered, symbolSize);
        EntailedTrans(g0, r0, g1, r1, gens, recovered, fed);
        out := out + delivered;
      }
      ClosedAfterInjection(g0, e0, r0, gens, eqs, recovered, out, symbolSize, q);
    }

    /**
     * Works through freshly delivered sources, and whatever they deliver in turn, until every system knows them all.
     */
    method Propagate(initial: seq<(nat, Row)>) returns (all: seq<(nat, Row)>)
      requires Systems() && ClosedBut(gens, recovered, Seqs(initial)) && Held(recovered, initial)
      modifies this`gens, this`recovered, this`solving, this`eqs
      ensures Systems() && ClosedBut(gens, recovered, {})
      ensures initial <= all
      ensures Progress(old(gens), old(eqs), old(recovered), gens, eqs, recovered, all[|initial|..], symbolSize)
      ensures Entailed(old(gens), old(recovered), gens, recovered, fed)
    {
      hide SystemsOk, Progress, ClosedBut, LiveKeys, Delivers, Seqs, Universe, Held, Entailed;
      ghost var g0, e0, r0, more := gens, eqs, recovered, [];
      NothingEntailed(gens, recovered, fed);
      ProgressStart(gens, eqs, recovered, symbolSize);
      all := [];
      var queue := initial;
      while queue != []
        invariant Systems() && Progress(g0, e0, r0, gens, eqs, recovered, more, symbolSize)
        invariant all + queue == initial + more && Entailed(g0, r0, gens, recovered, fed)
        invariant ClosedBut(gens, recovered, Seqs(queue)) && Held(recovered, queue)
        decreases |Universe(gens.Keys) - recovered.Keys|, |queue|
      {
        var (q, data) := queue[0];
        HeldHead(recovered, queue);
        ghost var g1, e1, r1, queue1 := gens, eqs, recovered, queue;
        var delivered := InjectSource(q, data);
        Rotate(all, queue, delivered, initial, more);
        all := all + [(q, data)];
        queue := queue[1..] + delivered;
        ProgressTrans(g0, e0, r0, g1, e1, r1, more, gens, eqs, recovered, delivered, symbolSize);
        EntailedTrans(g0, r0, g1, r1, gens, recovered, fed);
        more := more + delivered;
        QueueStep(g1, e1, r1, gens, eqs, recovered, queue1, delivered, symbolSize);
      }
      assert Seqs(queue) == {} by { Untouched(gens, recovered, symbolSize, (0, 0), []); }
      assert all == initial + more;
    }

    /** A raw source: delivered as it is, then fed to every live system. */
    method AddSource(sym: WireSymbol) returns (out: seq<(nat, Row)>)
      requires Systems() && ClosedBut(gens, recovered, {}) && !sym.isRepair && sym.blockId !in recovered
      modifies this`gens, this`recovered, this`solving, this`eqs
      ensures Systems() && ClosedBut(gens, recovered, {}) && EqsGrow(old(eqs), eqs)
      ensures Delivers(old(recovered), recovered, out) && [(sym.blockId, Pad(sym.data, symbolSize))] <= out
      ensures SymbolFeedsTruth(old(gens), old(recovered), gens, recovered, symbolSize, sym)
      ensures Concluded(old(gens), old(recovered), sym, gens, recovered, fed)
    {
      hide SystemsOk, ClosedBut, LiveKeys, Delivers, Universe, SystemsHold, SymbolHolds, SymbolFeedsTruth,
          KeepsTruth, ClosureMoves, Entailed, Concluded;
      var q := sym.blockId;
      var data := Pad(sym.data, symbolSize);
      ghost var g0, e0, r0 := gens, eqs, recovered;
      SourceJoins(gens, eqs, recovered, symbolSize, fed, sym);
      recovered := recovered[q := data];
      ghost var r1 := recovered;
      out := [(q, data)];
      var delivered := InjectSource(q, data);
      ghost var g2, e2, r2 := gens, eqs, recovered;
      InjectedPending(g0, r1, g2, r2, q, delivered);
      var all := Propagate(delivered);
      assert all == delivered + all[|delivered|..];
      ProgressTrans(g0, e0, r1, g2, e2, r2, delivered, gens, eqs, recovered, all[|delivered|..], symbolSize);
      EntailedTrans(g0, r1, g2, r2, gens, recovered, fed);
      SourceConcluded(g0, r0, sym, data, gens, recovered, fed);
      DeliverAppend(r0, r1, recovered, out, all);
      TruthThen(g0, r0, g0, r1, gens, recovered, symbolSize, sym);
      out := out + all;
    }

    method AddRepair(sym: WireSymbol, h: Header) returns (out: seq<(nat, Row)>)
      requires Systems() && ClosedBut(gens, recovered, {}) && sym.isRepair && Parse(sym.data) == Some(h)
      modifies this`gens, this`recovered, this`solving, this`eqs, this`fed, this`repairsUseful
      ensures Systems() && ClosedBut(gens, recovered, {}) && EqsGrow(old(eqs), eqs)
      ensures Delivers(old(recovered), recovered, out)
      ensures SymbolFeedsTruth(old(gens), old(recovered), gens, recovered, symbolSize, sym)
      ensures fed == old(fed) + {(HeaderKey(h), RepairCoefficients(h))}
      ensures Accounted(old(gens), old(recovered), eqs, h)
      ensures Concluded(old(gens), old(recovered), sym, gens, recovered, fed)
      ensures repairsUseful == old(repairsUseful) + (if NewRank(old(gens), old(eqs), old(recovered), h) then 1 else 0)
    {
      hide SystemsOk, ClosedBut, LiveKeys, Delivers, Universe, SystemsHold, FeedsTruth, KeepsTruth, ClosureMoves;
      hide SymbolFeedsTruth, EqsGrow, Seqs, Inserted, Accounted, NewRank, Parse, WindowCoefficients, Entailed,
          Concluded;
      ghost var g0, e0, r0 := gens, eqs, recovered;
      ghost var k := HeaderKey(h);
      var coeffs := GenerateWindowCoefficients(h.anchor, h.width, h.index);
      var row := coeffs[..h.codedWidth] + Zero(h.width - h.codedWidth) + Pad(sym.data[h.end..], symbolSize);
      assert row == RepairRow(h, sym.data[h.end..], symbolSize);
      FedGrows(gens, eqs, recovered, symbolSize, fed, (k, RepairCoefficients(h)));
      fed := fed + {(k, RepairCoefficients(h))};
      var added, delivered := InsertEquation(h.anchor, h.width, row);
      ghost var g1, e1, r1 := gens, eqs, recovered;
      if added {
        repairsUseful := repairsUseful + 1;
      }
      InsertedPending(g0, r0, g1, r1, delivered);
      out := Propagate(delivered);
      EntailedTrans(g0, r0, g1, r1, gens, recovered, fed);
      EntailedConcluded(g0, r0, sym, gens, recovered, fed);
      ProgressParts(g1, e1, r1, gens, eqs, recovered, out[|delivered|..], symbolSize);
      assert out == delivered + out[|delivered|..];
      DeliverAppend(r0, r1, recovered, delivered, out[|delivered|..]);
      InsertedIsAccounted(g0, e0, r0, h, added, delivered, g1, e1, r1, eqs);
      EqsGrowTrans(e0, e1, eqs);
      RepairTruth(g0, r0, g1, r1, gens, recovered, symbolSize, sym, h);
    }

    /** Decoding without the floor guard. */
    method AddSymbolInner(sym: WireSymbol) returns (out: seq<(nat, Row)>)
      requires Systems() && ClosedBut(gens, recovered, {})
      modifies this`gens, this`recovered, this`solving, this`eqs, this`fed, this`repairsUseful, this`srcSeen,
          this`repairsSeen, this`totalFed, this`repairsFed
      ensures Systems() && ClosedBut(gens, recovered, {}) && EqsGrow(old(eqs), eqs)
      ensures Delivers(old(recovered), recovered, out)
      ensures SymbolFeedsTruth(old(gens), old(recovered), gens, recovered, symbolSize, sym)
      ensures var h := Parse(sym.data);
        var parsed := old(Fresh(sym, srcSeen, repairsSeen)) && sym.isRepair && h.Some?;
        && fed == old(fed) + (if parsed then {(HeaderKey(h.value), RepairCoefficients(h.value))} else {})
        && (parsed ==> Accounted(old(gens), old(recovered), eqs, h.value))
        && repairsUseful == old(repairsUseful)
          + (if parsed && NewRank(old(gens), old(eqs), old(recovered), h.value) then 1 else 0)
      ensures old(Fresh(sym, srcSeen, repairsSeen)) && !sym.isRepair ==> sym.blockId in recovered
      ensures !old(Fresh(sym, srcSeen, repairsSeen)) ==> out == [] && recovered == old(recovered) && gens == old(gens)
      ensures totalFed == old(totalFed) + (if old(Fresh(sym, srcSeen, repairsSeen)) then 1 else 0)
      ensures Concluded(old(gens), old(recovered), sym, gens, recovered, fed)
        && SeenMoves(old(srcSeen), old(repairsSeen), sym, srcSeen, repairsSeen)
    {
      hide SystemsOk, ClosedBut, LiveKeys, Delivers, SymbolFeedsTruth, EqsGrow, Accounted, NewRank,
          RepairCoefficients, Parse, Concluded;
      NothingEntailed(gens, recovered, fed);
      EntailedConcluded(gens, recovered, sym, gens, recovered, fed);
      NothingDelivered(gens, eqs, recovered, symbolSize, sym);
      if sym.backend != Rlc {
        return [];
      }
      var isNew := NoteSeen(sym);
      if !isNew {
        return [];
      }
      totalFed := totalFed + 1;
      if !sym.isRepair {
        if sym.blockId in recovered {
          return [];
        }
        out := AddSource(sym);
        DeliversKeys(old(recovered), recovered, out, sym.blockId);
        return;
      }
      if |sym.data| >= HEADER {
        repairsFed := repairsFed + 1;
      }
      var h := Parse(sym.data);
      if h.None? {
        return [];
      }
      out := AddRepair(sym, h.value);
    }

    /** Records the symbol in its duplicate filter; the source bitmap may refuse to record a new seq. */
    method NoteSeen(sym: WireSymbol) returns (isNew: bool)
      requires sym.backend == Rlc
      modifies this`srcSeen, this`repairsSeen
      ensures isNew == old(Fresh(sym, srcSeen, repairsSeen))
      ensures SeenMoves(old(srcSeen), old(repairsSeen), sym, srcSeen, repairsSeen)
    {
      if sym.isRepair {
        isNew := (sym.blockId, sym.payloadId) !in repairsSeen;
        repairsSeen := repairsSeen + {(sym.blockId, sym.payloadId)};
      } else {
        isNew := sym.blockId !in srcSeen;
        var recorded: bool := *;
        if recorded {
          srcSeen := srcSeen + {sym.blockId};
        }
      }
    }

    method AddSymbol(sym: WireSymbol) returns (out: seq<(nat, Row)>)
      requires Valid()
      modifies this`gens, this`recovered, this`solving, this`eqs, this`fed, this`repairsUseful, this`srcSeen,
          this`repairsSeen, this`totalFed, this`repairsFed, this`returned
      ensures Valid() && EqsGrow(old(eqs), eqs)
      // exactly the newly recovered sources at or above the floor, each once, never one returned before
      ensures Held(recovered, out) && Unrepeated(out)
      ensures forall q :: q in Seqs(out) <==> q in recovered && q !in old(recovered) && q >= floor
      ensures Seqs(out) !! old(returned) && returned == old(returned) + Seqs(out)
      ensures forall q :: q in old(recovered) ==> q in recovered && recovered[q] == old(recovered)[q]
      // nothing untrue is learnt from a true symbol
      ensures SymbolFeedsTruth(old(gens), old(recovered), gens, recovered, symbolSize, sym)
      // and no fresh information is dropped
      ensures var h := Parse(sym.data);
        var parsed := old(Fresh(sym, srcSeen, repairsSeen)) && sym.isRepair && h.Some?;
        && fed == old(fed) + (if parsed then {(HeaderKey(h.value), RepairCoefficients(h.value))} else {})
        && (parsed ==> Accounted(old(gens), old(recovered), eqs, h.value))
      ensures old(Fresh(sym, srcSeen, repairsSeen)) && !sym.isRepair && sym.blockId >= floor ==>
        sym.blockId in recovered
      ensures !old(Fresh(sym, srcSeen, repairsSeen)) ==> out == [] && recovered == old(recovered) && gens == old(gens)
      // everything new is forced by the equations received so far
      ensures Concluded(old(gens), old(recovered), sym, gens, recovered, fed)
      ensures sym.isRepair || sym.blockId >= floor ==>
        SeenMoves(old(srcSeen), old(repairsSeen), sym, srcSeen, repairsSeen)
    {
      hide SystemsOk, ClosedBut, LiveKeys, SymbolFeedsTruth, EqsGrow, Accounted, NewRank, RepairCoefficients, Parse,
          Fresh, Delivers, Seqs, Concluded, SeenMoves;
      NothingEntailed(gens, recovered, fed);
      EntailedConcluded(gens, recovered, sym, gens, recovered, fed);
      NothingDelivered(gens, eqs, recovered, symbolSize, sym);
      RetainedDeliveries(recovered, recovered, [], floor);
      if !sym.isRepair && sym.blockId < floor {
        return [];
      }
      var all := AddSymbolInner(sym);
      RetainedDeliveries(old(recovered), recovered, all, floor);
      DeliversExtends(old(recovered), recovered, all);
      out := AtLeast(all, floor);
      returned := returned + Seqs(out);
    }

    method DropPastSlots(oldest: nat)
      requires eqs.Keys == gens.Keys && solving == LiveKeys(gens)
      modifies this`gens, this`solving, this`eqs
      ensures gens == Surviving(old(gens), oldest) && eqs == Surviving(old(eqs), oldest) && solving == LiveKeys(gens)
    {
      ghost var g0, e0 := gens, eqs;
      var due := set k | k in gens && Past(k, oldest);
      while due != {}
        invariant due <= gens.Keys && eqs.Keys == gens.Keys && solving == LiveKeys(gens)
        invariant forall k :: k in g0 <==> k in gens || (k in g0 && Past(k, oldest) && k !in due)
        invariant forall k :: k in gens ==> k in g0 && gens[k] == g0[k] && eqs[k] == e0[k]
        invariant forall k :: k in gens && Past(k, oldest) <==> k in due
      {
        var k :| k in due;
        due := due - {k};
        gens, eqs, solving := gens - {k}, eqs - {k}, solving - {k};
      }
    }

    method DropPayloads(point: nat)
      modifies this`recovered
      ensures recovered == FromPoint(old(recovered), point)
    {
      var low := set q | q in recovered && q < point;
      while low != {}
        invariant forall q :: q in low <==> q in recovered && q < point
        invariant forall q :: q in recovered ==> q in old(recovered) && recovered[q] == old(recovered)[q]
        invariant forall q :: q in old(recovered) && q >= point ==> q in recovered
      {
        var q :| q in low;
        low := low - {q};
        recovered := recovered - {q};
      }
    }

    /** Raises the floor and drops everything below it. */
    method Advance(oldest: nat)
      requires Valid()
      modifies this`gens, this`recovered, this`solving, this`eqs, this`srcSeen, this`repairsSeen, this`floor
      ensures Valid()
      ensures floor == if oldest > old(floor) then oldest else old(floor)
      ensures gens == Surviving(old(gens), oldest) && eqs == Surviving(old(eqs), oldest)
      // no slot that spans a source at or above the frontier goes, and every one that spans only older ones does
      ensures forall k, q :: k in old(gens) && q in Span(k.0, k.1) && q >= oldest ==>
        k in gens && gens[k] == old(gens)[k]
      ensures forall k, q :: k in gens && q in Span(k.0, k.1) ==> exists p :: p in Span(k.0, k.1) && p >= oldest
      // payloads below the frontier go, except from the first live span on
      ensures exists point: nat :: PrunedTo(point, oldest, solving) && recovered == FromPoint(old(recovered), point)
      ensures KeepsTruth(old(gens), old(recovered), gens, recovered, symbolSize)
      ensures forall q :: q in srcSeen <==> q in old(srcSeen) && q >= floor
      ensures forall r :: r in repairsSeen <==> r in old(repairsSeen) && r.0 >= floor
    {
      hide SystemsOk, ClosedBut, KeepsTruth, LiveKeys, Surviving, PrunedTo, FromPoint;
      ghost var g0, e0, r0 := gens, eqs, recovered;
      SameKeys(gens, eqs, recovered, symbolSize, fed);
      floor := if oldest > floor then oldest else floor;
      DropPastSlots(oldest);
      var point := FirstLive(solving, oldest);
      LiveAbove(g0, oldest, point);
      ReturnedKept(returned, recovered, old(floor), floor, point);
      PruneKeepsSystems(g0, e0, r0, symbolSize, fed, oldest, point);
      DropPayloads(point);
      SurvivingSpans(g0, oldest);
      srcSeen := set q | q in srcSeen && q >= floor;
      repairsSeen := set r | r in repairsSeen && r.0 >= floor;
    }

    /**
     * A live system has delivered exactly what its accepted equations determine: the source is held
     * if and only if its unit vector is a combination of them.
     */
    lemma DecodedExactly(k: Key, q: nat)
      requires Valid() && k in gens && gens[k].Solving? && k.0 <= q < k.0 + k.1
      ensures q in recovered <==> InSpan(eqs[k], Unit(k.1, q - k.0))
    {
      var c := q - k.0;
      assert SlotOkAt(k, gens[k], eqs[k], recovered, symbolSize, fed);
      KnownExactly(gens[k], k.1, symbolSize, eqs[k], c);
      assert Missing(k, gens[k], q) <==> !gens[k].known[c];
      assert k.0 + c == q;
    }

    /** Degrees of freedom held for the span; it reaches count exactly when the whole span is decoded. */
    method RankIn(start: nat, count: nat) returns (r: nat)
      requires Valid()
      ensures (start, count) in gens ==> r == Rank(gens[(start, count)], count)
      ensures (start, count) !in gens ==> r == |set q | q in recovered && q in Span(start, count)|
      ensures r <= count
      ensures (start, count) in gens ==> (r == count <==> gens[(start, count)].Done?)
      ensures (start, count) !in gens ==> (r == count <==> forall q :: start <= q < start + count ==> q in recovered)
    {
      var k := (start, count);
      if k in gens {
        assert SlotOkAt(k, gens[k], eqs[k], recovered, symbolSize, fed);
        SolvingIsShort(gens[k], count, symbolSize, eqs[k]);
        return Rank(gens[k], count);
      }
      FreshFull(recovered, start, count);
      CountInSpan(recovered, start, count);
      var s := MakeSlot(start, count);
      return s.knownCount;
    }
  }
}
