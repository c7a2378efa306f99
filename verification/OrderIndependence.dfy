/** What the decoder recovers does not depend on the order of arrival. */
module OrderIndependence {
  import opened Basics
  import opened Gf256
  import opened Linear
  import opened Elimination
  import opened CoefficientStream
  import opened Wire
  import opened GenerationDecoding
  import opened GenerationEncoding

  predicate IsRaw(w: WireSymbol) {
    w.backend == Rlc && !w.isRepair
  }

  predicate IsEquation(w: WireSymbol) {
    w.backend == Rlc && w.isRepair && Parse(w.data).Some?
  }

  ghost function EquationOf(w: WireSymbol): (Key, Row)
    requires IsEquation(w)
  {
    (HeaderKey(Parse(w.data).value), RepairCoefficients(Parse(w.data).value))
  }

  /** The sources that arrived as they are. */
  ghost function Raws(ws: seq<WireSymbol>): set<nat> {
    set w | w in ws && IsRaw(w) :: w.blockId
  }

  /** The equations that arrived, each with the slot it is for. */
  ghost function Equations(ws: seq<WireSymbol>): set<(Key, Row)> {
    set w | w in ws && IsEquation(w) :: EquationOf(w)
  }

  /** What the duplicate filter for repairs holds. */
  ghost function Ids(ws: seq<WireSymbol>): set<(nat, nat)> {
    set w | w in ws && w.backend == Rlc && w.isRepair :: (w.blockId, w.payloadId)
  }

  predicate SameId(v: WireSymbol, w: WireSymbol) {
    && v.backend == w.backend == Rlc && v.isRepair && w.isRepair
    && v.blockId == w.blockId && v.payloadId == w.payloadId
  }

  /** Repairs that the duplicate filter takes for the same are the same. */
  ghost predicate Unambiguous(ws: seq<WireSymbol>) {
    forall v, w :: v in ws && w in ws && SameId(v, w) ==> v.data == w.data
  }

  /** held is the least set with the raw sources that no slot's equations determine anything outside of. */
  ghost predicate Least(held: set<nat>, raws: set<nat>, fed: set<(Key, Row)>) {
    raws <= held && Saturated(held, fed) && Forced(raws, held, fed)
  }

  lemma FewerDetermined(k: Key, q: nat, t: set<nat>, fewer: set<(Key, Row)>, fed: set<(Key, Row)>)
    requires fewer <= fed && Determined(k, q, t, fewer)
    ensures Determined(k, q, t, fed)
  {
    forall x: Row | Fits(k, x, t, fed)
      ensures x[q - k.0] == 0
    {
      assert Fits(k, x, t, fewer);
    }
  }

  lemma SaturatedFewer(t: set<nat>, fewer: set<(Key, Row)>, fed: set<(Key, Row)>)
    requires fewer <= fed && Saturated(t, fed)
    ensures Saturated(t, fewer)
  {
    forall k: Key, q | Determined(k, q, t, fewer)
      ensures q in t
    {
      FewerDetermined(k, q, t, fewer, fed);
    }
  }

  /** More received never means less recovered. */
  lemma LeastGrows(a: set<nat>, rawsA: set<nat>, fedA: set<(Key, Row)>, b: set<nat>, rawsB: set<nat>,
        fedB: set<(Key, Row)>)
    requires Least(a, rawsA, fedA) && Least(b, rawsB, fedB) && rawsA <= rawsB && fedA <= fedB
    ensures a <= b
  {
    SaturatedFewer(b, fedA, fedB);
  }

  lemma ForcedMore(base: set<nat>, held: set<nat>, more: set<nat>, held': set<nat>, fed: set<(Key, Row)>,
        fed': set<(Key, Row)>)
    requires Forced(base, held, fed) && fed <= fed' && Forced(held + more, held', fed')
    ensures Forced(base + more, held', fed')
  {
    forall t: set<nat> | Saturated(t, fed') && base + more <= t
      ensures held' <= t
    {
      SaturatedFewer(t, fed, fed');
    }
  }

  // ---- one more symbol

  lemma MoreRaws(ws: seq<WireSymbol>, w: WireSymbol)
    ensures Raws(ws + [w]) == Raws(ws) + (if IsRaw(w) then {w.blockId} else {})
    ensures Equations(ws + [w]) == Equations(ws) + (if IsEquation(w) then {EquationOf(w)} else {})
    ensures Ids(ws + [w]) == Ids(ws) + (if w.backend == Rlc && w.isRepair then {(w.blockId, w.payloadId)} else {})
  {
    hide Parse, EquationOf;
    assert forall v :: v in ws + [w] <==> v in ws || v == w;
  }

  /** The equations that get past the filter: of repairs with the same label only the first is taken. */
  ghost function Taken(ws: seq<WireSymbol>): set<(Key, Row)> {
    if ws == [] then {}
    else
      var init, w := ws[..|ws| - 1], ws[|ws| - 1];
      Taken(init) + (if IsEquation(w) && (w.blockId, w.payloadId) !in Ids(init) then {EquationOf(w)} else {})
  }

  /** A repair the filter rejects brings no new equation when labels are unambiguous. */
  lemma RepeatedEquation(ws: seq<WireSymbol>, w: WireSymbol)
    requires Unambiguous(ws + [w]) && IsEquation(w) && (w.blockId, w.payloadId) in Ids(ws)
    ensures EquationOf(w) in Equations(ws)
  {
    var v :| v in ws && v.backend == Rlc && v.isRepair && (v.blockId, v.payloadId) == (w.blockId, w.payloadId);
    assert v in ws + [w] && w in ws + [w] && SameId(v, w);
    assert EquationOf(v) == EquationOf(w);
  }

  lemma {:induction false} AllTaken(ws: seq<WireSymbol>)
    requires Unambiguous(ws)
    ensures Taken(ws) == Equations(ws)
  {
    hide Parse, EquationOf, Ids;
    if ws != [] {
      var init, w := ws[..|ws| - 1], ws[|ws| - 1];
      assert ws == init + [w];
      AllTaken(init);
      MoreRaws(init, w);
      if IsEquation(w) && (w.blockId, w.payloadId) in Ids(init) {
        RepeatedEquation(init, w);
      }
    }
  }

  lemma ServedMore(g0: map<Key, Slot>, e0: map<Key, seq<Row>>, r0: map<nat, Row>, fed0: set<(Key, Row)>,
        e1: map<Key, seq<Row>>, r1: map<nat, Row>, fed1: set<(Key, Row)>, h: Option<Header>)
    requires Served(e0, r0, fed0) && FinishedHeld(g0, r0) && EqsGrow(e0, e1) && r0.Keys <= r1.Keys
    requires h.Some? ==> h.value.codedWidth <= h.value.width && Accounted(g0, r0, e1, h.value)
    requires fed1 == fed0 + (if h.Some? then {(HeaderKey(h.value), RepairCoefficients(h.value))} else {})
    ensures Served(e1, r1, fed1)
  {
    hide RepairCoefficients;
    forall k: Key, e: Row | (k, e) in fed1
      ensures (k in e1 && e in e1[k]) || (forall q :: q in Span(k.0, k.1) ==> q in r1)
    {
      if (k, e) !in fed0 && Ignored(g0, r0, k) {
        if k !in g0 {
          FreshFull(r0, k.0, k.1);
        }
      } else if (k, e) in fed0 && k in e0 && e in e0[k] {
        assert e0[k] <= e1[k];
      }
    }
  }

  // ---- a decoder that was never advanced

  ghost predicate Filtered(dec: GenerationDecoder, ws: seq<WireSymbol>)
    reads dec
  {
    && dec.fed == Taken(ws) && dec.repairsSeen == Ids(ws) && dec.srcSeen <= Raws(ws) <= dec.recovered.Keys
    && dec.floor == 0 && dec.returned == dec.recovered.Keys
  }

  ghost predicate Concluding(dec: GenerationDecoder, ws: seq<WireSymbol>)
    reads dec
  {
    && FinishedHeld(dec.gens, dec.recovered) && Served(dec.eqs, dec.recovered, dec.fed)
    && Forced(Raws(ws), dec.recovered.Keys, dec.fed)
  }

  ghost predicate AllHold(ws: seq<WireSymbol>, sources: seq<Row>, ss: nat) {
    forall w :: w in ws && w.backend == Rlc ==> SymbolHolds(w, sources, ss)
  }

  ghost predicate Truthful(dec: GenerationDecoder, ws: seq<WireSymbol>)
    reads dec
  {
    forall sources: seq<Row> :: AllHold(ws, sources, dec.symbolSize) ==>
      SystemsHold(dec.gens, dec.recovered, dec.symbolSize, sources)
  }

  /** The equation a symbol adds when it gets past the filters. */
  ghost function NewHeader(w: WireSymbol, srcSeen: set<nat>, repairsSeen: set<(nat, nat)>): Option<Header> {
    if Fresh(w, srcSeen, repairsSeen) && w.isRepair then Parse(w.data) else None
  }

  ghost function WithHeader(fed: set<(Key, Row)>, h: Option<Header>): set<(Key, Row)>
    requires h.Some? ==> h.value.codedWidth <= h.value.width
  {
    fed + (if h.Some? then {(HeaderKey(h.value), RepairCoefficients(h.value))} else {})
  }

  lemma FilterStep(ws: seq<WireSymbol>, w: WireSymbol, srcSeen: set<nat>)
    ensures Taken(ws + [w]) == WithHeader(Taken(ws), NewHeader(w, srcSeen, Ids(ws)))
  {
    hide RepairCoefficients, Parse, HeaderKey, Ids;
    assert (ws + [w])[..|ws|] == ws;
  }

  lemma ForcedStep(ws: seq<WireSymbol>, w: WireSymbol, g0: map<Key, Slot>, r0: map<nat, Row>, fed0: set<(Key, Row)>,
        g1: map<Key, Slot>, r1: map<nat, Row>, fed1: set<(Key, Row)>)
    requires Forced(Raws(ws), r0.Keys, fed0) && fed0 <= fed1 && Concluded(g0, r0, w, g1, r1, fed1)
    requires w.backend != Rlc ==> r1 == r0
    ensures Forced(Raws(ws + [w]), r1.Keys, fed1)
  {
    MoreRaws(ws, w);
    var more := if IsRaw(w) then {w.blockId} else {};
    assert Forced(r0.Keys + more, r1.Keys, fed1);
    hide Forced, Concluded;
    ForcedMore(Raws(ws), r0.Keys, more, r1.Keys, fed0, fed1);
  }

  lemma TruthStep(ws: seq<WireSymbol>, w: WireSymbol, g0: map<Key, Slot>, r0: map<nat, Row>, g1: map<Key, Slot>,
        r1: map<nat, Row>, ss: nat)
    requires forall sources: seq<Row> :: AllHold(ws, sources, ss) ==> SystemsHold(g0, r0, ss, sources)
    requires SymbolFeedsTruth(g0, r0, g1, r1, ss, w)
    requires w.backend != Rlc ==> g1 == g0 && r1 == r0
    ensures forall sources: seq<Row> :: AllHold(ws + [w], sources, ss) ==> SystemsHold(g1, r1, ss, sources)
  {
    hide SystemsHold, SymbolHolds;
    forall sources: seq<Row> | AllHold(ws + [w], sources, ss)
      ensures SystemsHold(g1, r1, ss, sources)
    {
      assert w in ws + [w] && forall v :: v in ws ==> v in ws + [w];
      assert AllHold(ws, sources, ss);
    }
  }

  method Feed(dec: GenerationDecoder, ghost ws: seq<WireSymbol>, w: WireSymbol) returns (out: seq<(nat, Row)>)
    requires dec.Valid() && Filtered(dec, ws) && Concluding(dec, ws) && Truthful(dec, ws)
    modifies dec
    ensures dec.Valid() && Filtered(dec, ws + [w]) && Concluding(dec, ws + [w]) && Truthful(dec, ws + [w])
    ensures Held(dec.recovered, out) && Unrepeated(out) && Seqs(out) !! old(dec.returned)
    ensures dec.returned == old(dec.returned) + Seqs(out)
    ensures forall q :: q in old(dec.recovered) ==> q in dec.recovered && dec.recovered[q] == old(dec.recovered)[q]
  {
    hide GenerationDecoder.Valid, Parse, RepairCoefficients, HeaderKey, SymbolFeedsTruth, SystemsHold, Taken,
        Forced, Served, FinishedHeld, EqsGrow, Accounted, AllHold, Held, Unrepeated, Seqs, Raws, Ids;
    ghost var g0, e0, r0, fed0 := dec.gens, dec.eqs, dec.recovered, dec.fed;
    ghost var h := NewHeader(w, dec.srcSeen, dec.repairsSeen);
    FilterStep(ws, w, dec.srcSeen);
    MoreRaws(ws, w);
    out := dec.AddSymbol(w);
    ServedMore(g0, e0, r0, fed0, dec.eqs, dec.recovered, dec.fed, h);
    ForcedStep(ws, w, g0, r0, fed0, dec.gens, dec.recovered, dec.fed);
    TruthStep(ws, w, g0, r0, dec.gens, dec.recovered, dec.symbolSize);
  }

  ghost predicate Collected(dec: GenerationDecoder, out: seq<(nat, Row)>)
    reads dec
  {
    Held(dec.recovered, out) && Unrepeated(out) && Seqs(out) == dec.returned
  }

  lemma Collect(r0: map<nat, Row>, r1: map<nat, Row>, out: seq<(nat, Row)>, more: seq<(nat, Row)>)
    requires Held(r0, out) && Held(r1, more) && forall q :: q in r0 ==> q in r1 && r1[q] == r0[q]
    requires Unrepeated(out) && Unrepeated(more) && Seqs(more) !! Seqs(out)
    ensures Held(r1, out + more) && Unrepeated(out + more) && Seqs(out + more) == Seqs(out) + Seqs(more)
  {
    JoinDeliveries(out, more);
  }

  lemma NothingReceived(dec: GenerationDecoder)
    requires dec.Valid() && dec.recovered == map[] && dec.gens == map[] && dec.returned == {} && dec.floor == 0
    requires dec.fed == {} && dec.srcSeen == {} && dec.repairsSeen == {}
    ensures Filtered(dec, []) && Concluding(dec, []) && Truthful(dec, []) && Collected(dec, [])
  {
    assert Seqs<Row>([]) == {};
  }

  lemma LeastRecovered(dec: GenerationDecoder, ws: seq<WireSymbol>)
    requires dec.Valid() && Filtered(dec, ws) && Concluding(dec, ws)
    ensures Least(dec.recovered.Keys, Raws(ws), Taken(ws))
  {
    hide SystemsOk, ClosedBut, FinishedHeld, Served, Forced, Saturated, Taken, Raws, Ids;
    HeldIsSaturated(dec.gens, dec.eqs, dec.recovered, dec.symbolSize, dec.fed);
  }

  /**
   * A new decoder is given the symbols in this order. What it delivers is the least set of sources closed under
   * what the equations determine, and every payload is right whenever the symbols are true.
   */
  method FeedAll(ss: nat, ws: seq<WireSymbol>) returns (out: seq<(nat, Row)>)
    ensures Unrepeated(out) && Least(Seqs(out), Raws(ws), Taken(ws))
    ensures forall sources: seq<Row> :: AllHold(ws, sources, ss) ==> Right(out, sources, ss)
  {
    hide GenerationDecoder.Valid, Filtered, Concluding, Truthful, Held, Unrepeated, Seqs, AllHold, Least;
    var dec := new GenerationDecoder(ss);
    out := [];
    NothingReceived(dec);
    for n := 0 to |ws|
      invariant dec.Valid() && dec.symbolSize == ss && fresh(dec)
      invariant Filtered(dec, ws[..n]) && Concluding(dec, ws[..n]) && Truthful(dec, ws[..n])
      invariant Collected(dec, out)
    {
      assert ws[..n + 1] == ws[..n] + [ws[n]];
      ghost var r0 := dec.recovered;
      var more := Feed(dec, ws[..n], ws[n]);
      Collect(r0, dec.recovered, out, more);
      out := out + more;
    }
    assert ws[..|ws|] == ws;
    LeastRecovered(dec, ws);
    RightWhenTrue(dec, ws, out);
  }

  /** Every delivered payload is the padded source. */
  ghost predicate Right(out: seq<(nat, Row)>, sources: seq<Row>, ss: nat) {
    forall i :: 0 <= i < |out| ==> out[i].1 == Source(sources, out[i].0, ss)
  }

  lemma RightWhenTrue(dec: GenerationDecoder, ws: seq<WireSymbol>, out: seq<(nat, Row)>)
    requires Filtered(dec, ws) && Truthful(dec, ws) && Collected(dec, out)
    ensures dec.recovered.Keys == Seqs(out)
    ensures forall sources: seq<Row> :: AllHold(ws, sources, dec.symbolSize) ==> Right(out, sources, dec.symbolSize)
  {
    hide AllHold, Taken, Raws, Ids, Seqs, Unrepeated;
    forall sources: seq<Row> | AllHold(ws, sources, dec.symbolSize)
      ensures Right(out, sources, dec.symbolSize)
    {
      assert SystemsHold(dec.gens, dec.recovered, dec.symbolSize, sources);
    }
  }

  ghost predicate Within(a: seq<WireSymbol>, b: seq<WireSymbol>) {
    forall w :: w in a ==> w in b
  }

  /** More received, with unambiguous labels, never means less recovered. */
  lemma MoreReceived(a: seq<WireSymbol>, heldA: set<nat>, b: seq<WireSymbol>, heldB: set<nat>)
    requires Least(heldA, Raws(a), Taken(a)) && Least(heldB, Raws(b), Taken(b)) && Within(a, b) && Unambiguous(b)
    ensures heldA <= heldB && Unambiguous(a)
  {
    hide Parse, EquationOf, Least, Taken;
    AllTaken(a);
    AllTaken(b);
    assert Raws(a) <= Raws(b) && Equations(a) <= Equations(b);
    LeastGrows(heldA, Raws(a), Taken(a), heldB, Raws(b), Taken(b));
  }

  lemma SameDeliveries(a: seq<(nat, Row)>, b: seq<(nat, Row)>, sources: seq<Row>, ss: nat)
    requires Seqs(a) <= Seqs(b) && Right(a, sources, ss) && Right(b, sources, ss)
    ensures forall d :: d in a ==> d in b
  {
    forall i | 0 <= i < |a|
      ensures a[i] in b
    {
      assert a[i].0 in Seqs(a);
      var j :| 0 <= j < |b| && b[j].0 == a[i].0;
      assert b[j] == a[i];
    }
  }

  /**
   * Two decoders, two sequences of symbols with unambiguous labels: the one that is given no symbol the other is not
   * given recovers nothing the other does not. So rearranging or repeating symbols changes neither which sources come
   * out nor, for true symbols, what they are.
   */
  method Rearranged(ss: nat, a: seq<WireSymbol>, b: seq<WireSymbol>)
    returns (outA: seq<(nat, Row)>, outB: seq<(nat, Row)>)
    ensures Unrepeated(outA) && Unrepeated(outB)
    ensures Unambiguous(b) && Within(a, b) ==> Seqs(outA) <= Seqs(outB)
    ensures Unambiguous(b) && Within(a, b) && Within(b, a) ==> Seqs(outA) == Seqs(outB)
    ensures forall sources: seq<Row> :: AllHold(b, sources, ss) ==>
      && Right(outB, sources, ss)
      && (Unambiguous(b) && Within(a, b) && Within(b, a) ==> forall d :: d in outA <==> d in outB)
  {
    hide Least, Raws, Taken, Unambiguous, Seqs, Unrepeated, Right;
    outA := FeedAll(ss, a);
    outB := FeedAll(ss, b);
    if Unambiguous(b) && Within(a, b) {
      MoreReceived(a, Seqs(outA), b, Seqs(outB));
      if Within(b, a) {
        MoreReceived(b, Seqs(outB), a, Seqs(outA));
        forall sources: seq<Row> | AllHold(b, sources, ss)
          ensures forall d :: d in outA <==> d in outB
        {
          assert AllHold(a, sources, ss);
          SameDeliveries(outA, outB, sources, ss);
          SameDeliveries(outB, outA, sources, ss);
        }
      }
    }
  }

  // ---- symbols of one encoder

  /** A placeholder of an idle encoder that the filter takes for a repair w. */
  ghost predicate Shadows(v: WireSymbol, w: WireSymbol) {
    SameId(v, w) && !IsReal(v) && IsReal(w)
  }

  ghost predicate SentBy(enc: GenerationEncoder, ws: seq<WireSymbol>)
    reads enc
  {
    enc.Valid() && forall w :: w in ws ==> w in enc.sent
  }

  /**
   * The filter mistakes symbols of one encoder only when a placeholder comes with a repair of the same index, and then
   * the repair is over source 0 alone.
   */
  lemma MistakenOnlyForPlaceholder(enc: GenerationEncoder, ws: seq<WireSymbol>)
    requires SentBy(enc, ws)
    ensures Unambiguous(ws) <==> !exists v, w :: v in ws && w in ws && Shadows(v, w)
    ensures forall v, w :: v in ws && w in ws && Shadows(v, w) ==>
      Parse(w.data).value.anchor == 0 && Parse(w.data).value.width == 1
  {
    hide Parse, Genuine, Retains;
  }

  lemma SentIsTrue(enc: GenerationEncoder, ws: seq<WireSymbol>)
    requires SentBy(enc, ws)
    ensures AllHold(ws, enc.history, enc.symbolSize)
  {
    hide SymbolHolds;
    forall w | w in ws
      ensures SymbolHolds(w, enc.history, enc.symbolSize)
    {
      enc.SentIsGenuine(w);
    }
  }

  // ---- least sets

  /** An equation with one unknown determines it. */
  lemma OneUnknown(e: Row, q: nat, t: set<nat>, fed: set<(Key, Row)>)
    requires |e| == 1 && e[0] != 0 && ((q, 1), e) in fed
    ensures Determined((q, 1), q, t, fed)
  {
    forall x: Row | Fits((q, 1), x, t, fed)
      ensures x[0] == 0
    {
      hide Add, Mul;
      assert Dot(e, x, 1) == Add(Dot(e, x, 0), Mul(e[0], x[0]));
      AddCancels(Mul(e[0], x[0]), 0);
      NoZeroDivisors(e[0], x[0]);
    }
  }

  /** Without an equation for its slot, a source outside t stays open. */
  lemma StaysOpen(k: Key, q: nat, t: set<nat>, fed: set<(Key, Row)>)
    requires q !in t && forall e: Row :: (k, e) !in fed
    ensures !Determined(k, q, t, fed)
  {
    if k.0 <= q < k.0 + k.1 {
      var x := Unit(k.1, q - k.0);
      assert Fits(k, x, t, fed) && x[q - k.0] != 0;
    }
  }

  /** The least set exists: it is reached by adding, one at a time, what is determined. */
  lemma LeastExists(raws: set<nat>, fed: set<(Key, Row)>) returns (held: set<nat>)
    ensures Least(held, raws, fed)
  {
    var keys := set f | f in fed :: f.0;
    held := LeastFrom(raws, raws, fed, raws + Universe(keys));
  }

  lemma LeastFrom(raws: set<nat>, t: set<nat>, fed: set<(Key, Row)>, all: set<nat>) returns (held: set<nat>)
    requires raws <= t <= all && Forced(raws, t, fed)
    requires forall f, q :: f in fed && q in Span(f.0.0, f.0.1) ==> q in all
    ensures Least(held, raws, fed)
    decreases all - t
  {
    if Saturated(t, fed) {
      return t;
    }
    var k: Key, q: nat :| Determined(k, q, t, fed) && q !in t;
    DeterminedInside(k, q, t, fed, all);
    ForcedOneMore(raws, t, fed, k, q);
    held := LeastFrom(raws, t + {q}, fed, all);
  }

  lemma DeterminedInside(k: Key, q: nat, t: set<nat>, fed: set<(Key, Row)>, all: set<nat>)
    requires Determined(k, q, t, fed) && q !in t
    requires forall f, q :: f in fed && q in Span(f.0.0, f.0.1) ==> q in all
    ensures q in all
  {
    hide Fits;
    assert q in Span(k.0, k.1);
    if forall e: Row :: (k, e) !in fed {
      StaysOpen(k, q, t, fed);
    } else {
      var e: Row :| (k, e) in fed;
      assert (k, e).0 == k;
    }
  }

  lemma ForcedOneMore(raws: set<nat>, t: set<nat>, fed: set<(Key, Row)>, k: Key, q: nat)
    requires Forced(raws, t, fed) && Determined(k, q, t, fed)
    ensures Forced(raws, t + {q}, fed)
  {
    forall u: set<nat> | Saturated(u, fed) && raws <= u
      ensures t + {q} <= u
    {
      DeterminedMore(k, q, t, u, fed);
    }
  }

  lemma DeterminedMore(k: Key, q: nat, t: set<nat>, u: set<nat>, fed: set<(Key, Row)>)
    requires Determined(k, q, t, fed) && t <= u
    ensures Determined(k, q, u, fed)
  {
    forall x: Row | Fits(k, x, u, fed)
      ensures x[q - k.0] == 0
    {
      assert Fits(k, x, t, fed);
    }
  }

  // ---- when the order matters

  /** Some placeholder shadows some repair. */
  ghost predicate Mistaken(ws: seq<WireSymbol>) {
    exists v, w :: v in ws && w in ws && Shadows(v, w)
  }

  /** The equations of the repairs that no placeholder shadows. */
  ghost function Unshadowed(ws: seq<WireSymbol>): set<(Key, Row)> {
    set w | w in ws && IsEquation(w) && (forall v :: v in ws ==> !Shadows(v, w)) :: EquationOf(w)
  }

  /** Some repair is shadowed, and source 0, which is all such a repair is about, does not come out without it. */
  ghost predicate OrderMatters(ws: seq<WireSymbol>) {
    Mistaken(ws) && forall held :: Least(held, Raws(ws), Unshadowed(ws)) ==> 0 !in held
  }

  /** What a decoder given these symbols in this order holds in the end. */
  ghost predicate Outcome(ws: seq<WireSymbol>, held: set<nat>) {
    Least(held, Raws(ws), Taken(ws))
  }

  lemma TakenSnoc(a: seq<WireSymbol>, w: WireSymbol)
    ensures Taken(a + [w])
      == Taken(a) + (if IsEquation(w) && (w.blockId, w.payloadId) !in Ids(a) then {EquationOf(w)} else {})
  {
    hide Parse, EquationOf, Ids;
    assert (a + [w])[..|a|] == a;
  }

  /** A repair counts when all that the filter takes for it is the same. */
  lemma {:induction false} FirstIsTaken(a: seq<WireSymbol>, w: WireSymbol)
    requires w in a && IsEquation(w) && forall v :: v in a && SameId(v, w) ==> v.data == w.data
    ensures EquationOf(w) in Taken(a)
  {
    var init, x := a[..|a| - 1], a[|a| - 1];
    assert a == init + [x];
    TakenSnoc(init, x);
    if w in init {
      FirstIsTaken(init, w);
    } else {
      forall v | v in init && SameId(v, w)
        ensures v == w
      {
        assert v in a;
      }
    }
  }

  /** What is taken behind a is taken from a or does not look like anything in a. */
  lemma {:induction false} TakenBehind(a: seq<WireSymbol>, b: seq<WireSymbol>)
    ensures Taken(a) <= Taken(a + b)
    ensures forall e :: e in Taken(a + b) && e !in Taken(a) ==>
      exists w :: w in b && IsEquation(w) && EquationOf(w) == e && (w.blockId, w.payloadId) !in Ids(a)
  {
    hide Parse, EquationOf;
    if b == [] {
      assert a + b == a;
    } else {
      var init, x := b[..|b| - 1], b[|b| - 1];
      TakenBehind(a, init);
      assert a + b == (a + init) + [x];
      TakenSnoc(a + init, x);
      assert Ids(a) <= Ids(a + init);
    }
  }

  lemma {:induction false} TakenArrived(a: seq<WireSymbol>)
    ensures Taken(a) <= Equations(a)
  {
    hide Parse, EquationOf, Ids;
    if a != [] {
      var init, x := a[..|a| - 1], a[|a| - 1];
      assert a == init + [x];
      TakenArrived(init);
      TakenSnoc(init, x);
      MoreRaws(init, x);
    }
  }

  lemma MistakenPair(enc: GenerationEncoder, v: WireSymbol, w: WireSymbol)
    requires enc.Valid() && v in enc.sent && w in enc.sent && SameId(v, w) && v.data != w.data
    ensures Shadows(v, w) || Shadows(w, v)
  {
    hide Parse, Genuine, Retains;
  }

  /** Whatever the order, the repairs that no placeholder shadows count, and no equation comes from nowhere. */
  lemma TakenBetween(enc: GenerationEncoder, ws: seq<WireSymbol>, a: seq<WireSymbol>)
    requires SentBy(enc, ws) && Within(a, ws) && Within(ws, a)
    ensures Unshadowed(ws) <= Taken(a) <= Equations(ws) && Raws(a) == Raws(ws)
  {
    hide Parse, EquationOf, Taken, GenerationEncoder.Valid;
    TakenArrived(a);
    forall w | w in ws && IsEquation(w) && forall v :: v in ws ==> !Shadows(v, w)
      ensures EquationOf(w) in Taken(a)
    {
      forall v | v in a && SameId(v, w)
        ensures v.data == w.data
      {
        if v.data != w.data {
          MistakenPair(enc, v, w);
        }
      }
      FirstIsTaken(a, w);
    }
  }

  /** What can be shadowed is an equation with the one unknown 0. */
  lemma ShadowedIsSingle(enc: GenerationEncoder, v: WireSymbol, w: WireSymbol)
    requires enc.Valid() && v in enc.sent && w in enc.sent && Shadows(v, w)
    ensures IsEquation(w) && EquationOf(w).0 == (0, 1) && |EquationOf(w).1| == 1 && EquationOf(w).1[0] != 0
  {
    hide Genuine, Retains, WindowCoefficients;
    assert Labelled(v, enc.symbolSize) && Labelled(w, enc.symbolSize);
    hide Parse;
    var h := Parse(w.data).value;
    FirstCoefficient(h);
  }

  lemma FirstCoefficient(h: Header)
    requires 0 < h.codedWidth <= h.width
    ensures RepairCoefficients(h)[0] != 0
  {
    hide WindowCoefficients;
  }

  /** All equations together: those no placeholder shadows, and some about source 0 alone. */
  lemma OnlySingleMore(enc: GenerationEncoder, ws: seq<WireSymbol>)
    requires SentBy(enc, ws)
    ensures Unshadowed(ws) <= Equations(ws)
    ensures forall f :: f in Equations(ws) && f !in Unshadowed(ws) ==> f.0 == (0, 1)
    ensures Mistaken(ws) ==> exists e: Row :: |e| == 1 && e[0] != 0 && ((0, 1), e) in Equations(ws)
    ensures !Mistaken(ws) ==> Unshadowed(ws) == Equations(ws)
  {
    hide Parse, EquationOf, Shadows, GenerationEncoder.Valid;
    forall v, w | v in ws && w in ws && Shadows(v, w)
      ensures IsEquation(w) && EquationOf(w).0 == (0, 1) && |EquationOf(w).1| == 1 && EquationOf(w).1[0] != 0
      ensures EquationOf(w) in Equations(ws)
    {
      ShadowedIsSingle(enc, v, w);
    }
    if Mistaken(ws) {
      var v, w :| v in ws && w in ws && Shadows(v, w);
      assert ((0, 1), EquationOf(w).1) == EquationOf(w);
    }
  }

  /** Equations about source 0 alone add nothing once it is held. */
  lemma SingleAddsNothing(t: set<nat>, fewer: set<(Key, Row)>, fed: set<(Key, Row)>)
    requires Saturated(t, fewer) && 0 in t && fewer <= fed && forall f :: f in fed && f !in fewer ==> f.0 == (0, 1)
    ensures Saturated(t, fed)
  {
    forall k: Key, q | Determined(k, q, t, fed)
      ensures q in t
    {
      if k != (0, 1) {
        SameSlot(k, q, t, fewer, fed);
      }
    }
  }

  lemma SameSlot(k: Key, q: nat, t: set<nat>, fewer: set<(Key, Row)>, fed: set<(Key, Row)>)
    requires Determined(k, q, t, fed) && k != (0, 1) && forall f :: f in fed && f !in fewer ==> f.0 == (0, 1)
    ensures Determined(k, q, t, fewer)
  {
    forall x: Row | Fits(k, x, t, fewer)
      ensures x[q - k.0] == 0
    {
      forall e: Row | (k, e) in fed
        ensures (k, e) in fewer
      {
        assert (k, e).0 == k;
      }
      assert Fits(k, x, t, fed);
    }
  }

  /** The least and the most that any order yields are the same exactly when the order does not matter. */
  lemma Extremes(enc: GenerationEncoder, ws: seq<WireSymbol>, least: set<nat>, most: set<nat>)
    requires SentBy(enc, ws) && Least(least, Raws(ws), Unshadowed(ws)) && Least(most, Raws(ws), Equations(ws))
    ensures least <= most && (least == most <==> !OrderMatters(ws))
  {
    hide Parse, EquationOf, Mistaken, Unshadowed, Equations, Raws, GenerationEncoder.Valid, Saturated, Forced;
    OnlySingleMore(enc, ws);
    LeastGrows(least, Raws(ws), Unshadowed(ws), most, Raws(ws), Equations(ws));
    SameLeast(ws, least);
    if Mistaken(ws) {
      var e: Row :| |e| == 1 && e[0] != 0 && ((0, 1), e) in Equations(ws);
      SingleComesOut(most, e, Equations(ws));
      if 0 in least {
        SingleAddsNothing(least, Unshadowed(ws), Equations(ws));
        LeastBelow(most, Raws(ws), Equations(ws), least);
      }
    } else {
      LeastGrows(most, Raws(ws), Equations(ws), least, Raws(ws), Unshadowed(ws));
    }
  }

  lemma SingleComesOut(held: set<nat>, e: Row, fed: set<(Key, Row)>)
    requires Saturated(held, fed) && |e| == 1 && e[0] != 0 && ((0, 1), e) in fed
    ensures 0 in held
  {
    OneUnknown(e, 0, held, fed);
  }

  lemma LeastBelow(held: set<nat>, raws: set<nat>, fed: set<(Key, Row)>, t: set<nat>)
    requires Least(held, raws, fed) && raws <= t && Saturated(t, fed)
    ensures held <= t
  {}

  lemma SameLeast(ws: seq<WireSymbol>, least: set<nat>)
    requires Least(least, Raws(ws), Unshadowed(ws))
    ensures OrderMatters(ws) <==> Mistaken(ws) && 0 !in least
  {
    hide Mistaken;
    forall held | Least(held, Raws(ws), Unshadowed(ws))
      ensures held == least
    {
      LeastGrows(held, Raws(ws), Unshadowed(ws), least, Raws(ws), Unshadowed(ws));
      LeastGrows(least, Raws(ws), Unshadowed(ws), held, Raws(ws), Unshadowed(ws));
    }
  }

  // ---- the two extreme orders

  predicate IsPlaceholder(w: WireSymbol) {
    w.isRepair && Parse(w.data).None?
  }

  /** The placeholders of ws, or everything else, in order. */
  function Only(ws: seq<WireSymbol>, placeholders: bool): seq<WireSymbol> {
    if ws == [] then []
    else
      var w := ws[|ws| - 1];
      Only(ws[..|ws| - 1], placeholders) + (if IsPlaceholder(w) == placeholders then [w] else [])
  }

  lemma {:induction false} OnlyParts(ws: seq<WireSymbol>)
    ensures multiset(Only(ws, true)) + multiset(Only(ws, false)) == multiset(ws)
    ensures forall w :: w in Only(ws, true) <==> w in ws && IsPlaceholder(w)
    ensures forall w :: w in Only(ws, false) <==> w in ws && !IsPlaceholder(w)
  {
    hide IsPlaceholder;
    if ws != [] {
      OnlyParts(ws[..|ws| - 1]);
      assert ws == ws[..|ws| - 1] + [ws[|ws| - 1]];
    }
  }

  function PlaceholdersFirst(ws: seq<WireSymbol>): seq<WireSymbol> { Only(ws, true) + Only(ws, false) }

  function PlaceholdersLast(ws: seq<WireSymbol>): seq<WireSymbol> { Only(ws, false) + Only(ws, true) }

  lemma Permutations(ws: seq<WireSymbol>)
    ensures multiset(PlaceholdersFirst(ws)) == multiset(ws) == multiset(PlaceholdersLast(ws))
  {
    hide Only;
    OnlyParts(ws);
  }

  lemma Permuted(a: seq<WireSymbol>, b: seq<WireSymbol>)
    requires multiset(a) == multiset(b)
    ensures Within(a, b) && Within(b, a)
  {
    forall w
      ensures w in a <==> w in b
    {
      assert w in a <==> w in multiset(a);
    }
  }

  /** Behind all placeholders only the repairs that none of them shadows count. */
  lemma FirstTakesLeast(ws: seq<WireSymbol>)
    ensures Taken(PlaceholdersFirst(ws)) <= Unshadowed(ws)
  {
    hide Parse, EquationOf, Only, Taken;
    var a, b := Only(ws, true), Only(ws, false);
    OnlyParts(ws);
    TakenArrived(a);
    assert Taken(a) == {} by { NoEquations(a); }
    TakenBehind(a, b);
    forall w | w in b && IsEquation(w) && (w.blockId, w.payloadId) !in Ids(a)
      ensures forall v :: v in ws ==> !Shadows(v, w)
    {
      forall v | v in ws
        ensures !Shadows(v, w)
      {
        assert Shadows(v, w) ==> IsPlaceholder(v);
      }
    }
  }

  lemma NoEquations(a: seq<WireSymbol>)
    requires forall w :: w in a ==> IsPlaceholder(w)
    ensures Equations(a) == {}
  {}

  /** Ahead of all placeholders every repair counts. */
  lemma LastTakesAll(enc: GenerationEncoder, ws: seq<WireSymbol>)
    requires SentBy(enc, ws)
    ensures Equations(ws) <= Taken(PlaceholdersLast(ws))
  {
    hide Parse, EquationOf, Only, Taken, GenerationEncoder.Valid;
    var a, b := Only(ws, false), Only(ws, true);
    OnlyParts(ws);
    assert forall v, w :: v in a && w in a ==> !Shadows(v, w);
    MistakenOnlyForPlaceholder(enc, a);
    AllTaken(a);
    TakenBehind(a, b);
  }

  /** The two extreme orders, and any other in between. */
  lemma OutcomeBetween(enc: GenerationEncoder, ws: seq<WireSymbol>, a: seq<WireSymbol>, held: set<nat>,
        least: set<nat>, most: set<nat>)
    requires SentBy(enc, ws) && Within(a, ws) && Within(ws, a) && Outcome(a, held)
    requires Least(least, Raws(ws), Unshadowed(ws)) && Least(most, Raws(ws), Equations(ws))
    ensures least <= held <= most
  {
    hide Least, Raws, Taken, Equations, Unshadowed, GenerationEncoder.Valid;
    TakenBetween(enc, ws, a);
    LeastGrows(least, Raws(ws), Unshadowed(ws), held, Raws(a), Taken(a));
    LeastGrows(held, Raws(a), Taken(a), most, Raws(ws), Equations(ws));
  }

  lemma ExtremeOutcomes(enc: GenerationEncoder, ws: seq<WireSymbol>, least: set<nat>, most: set<nat>)
    requires SentBy(enc, ws)
    ensures Least(least, Raws(ws), Unshadowed(ws)) <==> Outcome(PlaceholdersFirst(ws), least)
    ensures Least(most, Raws(ws), Equations(ws)) <==> Outcome(PlaceholdersLast(ws), most)
  {
    hide Least, Raws, Taken, Equations, Unshadowed, GenerationEncoder.Valid, PlaceholdersFirst, PlaceholdersLast;
    Permutations(ws);
    Permuted(PlaceholdersFirst(ws), ws);
    Permuted(PlaceholdersLast(ws), ws);
    TakenBetween(enc, ws, PlaceholdersFirst(ws));
    TakenBetween(enc, ws, PlaceholdersLast(ws));
    FirstTakesLeast(ws);
    LastTakesAll(enc, ws);
    assert Taken(PlaceholdersFirst(ws)) == Unshadowed(ws) && Taken(PlaceholdersLast(ws)) == Equations(ws);
  }

  /** All orders of the symbols have the same outcome. */
  ghost predicate AnyOrder(ws: seq<WireSymbol>) {
    forall a, b, heldA, heldB ::
      multiset(a) == multiset(ws) && multiset(b) == multiset(ws) && Outcome(a, heldA) && Outcome(b, heldB) ==>
      heldA == heldB
  }

  /**
   * For symbols of one encoder, all orders of arrival have the same outcome exactly when no placeholder shadows a
   * repair or source 0 comes out without the shadowed ones.
   */
  lemma OrderMattersExactly(enc: GenerationEncoder, ws: seq<WireSymbol>)
    requires SentBy(enc, ws)
    ensures AnyOrder(ws) <==> !OrderMatters(ws)
  {
    hide Least, Raws, Taken, Equations, Unshadowed, GenerationEncoder.Valid, PlaceholdersFirst, PlaceholdersLast,
        OrderMatters, Outcome;
    var least := LeastExists(Raws(ws), Unshadowed(ws));
    var most := LeastExists(Raws(ws), Equations(ws));
    Extremes(enc, ws, least, most);
    ExtremeOutcomes(enc, ws, least, most);
    Permutations(ws);
    if !OrderMatters(ws) {
      forall a, heldA | multiset(a) == multiset(ws) && Outcome(a, heldA)
        ensures heldA == least
      {
        Permuted(a, ws);
        OutcomeBetween(enc, ws, a, heldA, least, most);
      }
    }
  }

  /** However the symbols of one encoder arrive, the same true sources come out, unless the order matters. */
  method FromOneEncoder(enc: GenerationEncoder, a: seq<WireSymbol>, b: seq<WireSymbol>)
    returns (outA: seq<(nat, Row)>, outB: seq<(nat, Row)>)
    requires SentBy(enc, a) && Within(a, b) && Within(b, a)
    ensures Unrepeated(outA) && Unrepeated(outB) && Outcome(a, Seqs(outA)) && Outcome(b, Seqs(outB))
    ensures Right(outA, enc.history, enc.symbolSize) && Right(outB, enc.history, enc.symbolSize)
    ensures !OrderMatters(a) ==> Seqs(outA) == Seqs(outB) && forall d :: d in outA <==> d in outB
  {
    hide AllHold, Unrepeated, Seqs, GenerationEncoder.Valid, Least, Raws, Taken, Unshadowed, Equations, OrderMatters,
        Right;
    assert SentBy(enc, b);
    SentIsTrue(enc, a);
    SentIsTrue(enc, b);
    outA := FeedAll(enc.symbolSize, a);
    outB := FeedAll(enc.symbolSize, b);
    ghost var least := LeastExists(Raws(a), Unshadowed(a));
    ghost var most := LeastExists(Raws(a), Equations(a));
    Extremes(enc, a, least, most);
    OutcomeBetween(enc, a, a, Seqs(outA), least, most);
    OutcomeBetween(enc, a, b, Seqs(outB), least, most);
    if !OrderMatters(a) {
      SameDeliveries(outA, outB, enc.history, enc.symbolSize);
      SameDeliveries(outB, outA, enc.history, enc.symbolSize);
    }
  }

  // ---- two symbols

  lemma ShadowedPair(enc: GenerationEncoder, v: WireSymbol, w: WireSymbol)
    requires SentBy(enc, [v, w]) && Shadows(v, w)
    ensures Raws([v, w]) == Raws([w, v]) == {} && Taken([v, w]) == {}
    ensures IsEquation(w) && Taken([w, v]) == {EquationOf(w)}
    ensures EquationOf(w).0 == (0, 1) && |EquationOf(w).1| == 1 && EquationOf(w).1[0] != 0
  {
    hide Parse, EquationOf, Shadows, GenerationEncoder.Valid, Taken, Raws, SameId, IsEquation;
    assert v in [v, w] && w in [v, w];
    ShadowedIsSingle(enc, v, w);
    ShadowFacts(v, w);
    NoRaws(v, w);
    TakenPair(v, w);
    TakenPair(w, v);
  }

  lemma NoRaws(v: WireSymbol, w: WireSymbol)
    requires v.isRepair && w.isRepair
    ensures Raws([v, w]) == Raws([w, v]) == {}
  {}

  lemma ShadowFacts(v: WireSymbol, w: WireSymbol)
    requires Shadows(v, w)
    ensures SameId(v, w) && SameId(w, v) && !IsEquation(v) && v.isRepair && w.isRepair
  {
    hide Parse;
  }

  lemma TakenPair(v: WireSymbol, w: WireSymbol)
    ensures Taken([v, w]) == (if IsEquation(v) then {EquationOf(v)} else {})
      + (if IsEquation(w) && !SameId(v, w) then {EquationOf(w)} else {})
  {
    hide Parse, EquationOf, Taken;
    assert Taken([]) == {} by { AllTaken([]); }
    TakenSnoc([], v);
    TakenSnoc([v], w);
    assert [] + [v] == [v] && [v] + [w] == [v, w];
  }

  /** Two symbols of one encoder yield the same in either order exactly when neither shadows the other. */
  method InEitherOrder(enc: GenerationEncoder, v: WireSymbol, w: WireSymbol)
    returns (outVW: seq<(nat, Row)>, outWV: seq<(nat, Row)>)
    requires SentBy(enc, [v, w])
    ensures Outcome([v, w], Seqs(outVW)) && Outcome([w, v], Seqs(outWV))
    ensures Right(outVW, enc.history, enc.symbolSize) && Right(outWV, enc.history, enc.symbolSize)
    ensures Seqs(outVW) == Seqs(outWV) <==> !Shadows(v, w) && !Shadows(w, v)
    ensures Shadows(v, w) ==> outVW == [] && outWV == [(0, Source(enc.history, 0, enc.symbolSize))]
  {
    hide Unrepeated, Seqs, GenerationEncoder.Valid, Least, Raws, Taken, Parse, EquationOf, Shadows;
    assert Within([v, w], [w, v]) && Within([w, v], [v, w]);
    outVW, outWV := FromOneEncoder(enc, [v, w], [w, v]);
    if Shadows(v, w) {
      ShadowedOutcomes(enc, v, w, outVW, outWV);
    } else if Shadows(w, v) {
      assert SentBy(enc, [w, v]);
      ShadowedOutcomes(enc, w, v, outWV, outVW);
    } else {
      NotMistaken(v, w);
    }
  }

  lemma NotMistaken(v: WireSymbol, w: WireSymbol)
    requires !Shadows(v, w) && !Shadows(w, v)
    ensures !OrderMatters([v, w])
  {
    hide Parse;
  }

  lemma ShadowedOutcomes(enc: GenerationEncoder, v: WireSymbol, w: WireSymbol, behind: seq<(nat, Row)>,
        ahead: seq<(nat, Row)>)
    requires SentBy(enc, [v, w]) && Shadows(v, w) && Unrepeated(behind) && Unrepeated(ahead)
    requires Outcome([v, w], Seqs(behind)) && Outcome([w, v], Seqs(ahead))
    ensures Seqs(behind) == {} && Seqs(ahead) == {0} && behind == [] && |ahead| == 1 && ahead[0].0 == 0
  {
    hide GenerationEncoder.Valid, Raws, Taken, EquationOf, Shadows, Parse, Unrepeated, Seqs, Least;
    ShadowedPair(enc, v, w);
    NothingLeast(Seqs(behind));
    NothingOut(behind);
    assert EquationOf(w) == ((0, 1), EquationOf(w).1);
    OneLeast(Seqs(ahead), EquationOf(w).1);
    OnlyOne(ahead);
  }

  lemma NothingOut(out: seq<(nat, Row)>)
    requires Seqs(out) == {}
    ensures out == []
  {
    if out != [] {
      FirstOut(out);
      assert false;
    }
  }

  lemma FirstOut(out: seq<(nat, Row)>)
    requires out != []
    ensures out[0].0 in Seqs(out)
  {}

  /** Nothing received, nothing recovered. */
  lemma NothingLeast(held: set<nat>)
    requires Least(held, {}, {})
    ensures held == {}
  {
    forall k: Key, q: nat
      ensures !Determined(k, q, {}, {})
    {
      StaysOpen(k, q, {}, {});
    }
    assert Saturated({}, {});
  }

  /** One equation with one unknown, and nothing else. */
  lemma OneLeast(held: set<nat>, e: Row)
    requires |e| == 1 && e[0] != 0 && Least(held, {}, {((0, 1), e)})
    ensures held == {0}
  {
    var fed: set<(Key, Row)> := {((0, 1), e)};
    OneUnknown(e, 0, held, fed);
    forall k: Key, q: nat | q != 0
      ensures !Determined(k, q, {0}, fed)
    {
      if k != (0, 1) {
        StaysOpen(k, q, {0}, fed);
      }
    }
    assert Saturated({0}, fed);
  }

  lemma FirstTwo(out: seq<(nat, Row)>)
    requires Unrepeated(out) && |out| > 1
    ensures out[0].0 != out[1].0
  {}

  lemma OnlyOne(out: seq<(nat, Row)>)
    requires Seqs(out) == {0} && Unrepeated(out)
    ensures |out| == 1 && out[0].0 == 0
  {
    forall i | 0 <= i < |out|
      ensures out[i].0 == 0
    {
      assert out[i].0 in Seqs(out);
    }
    assert 0 in Seqs(out);
    if |out| > 1 {
      FirstTwo(out);
      assert false;
    }
  }

  /** An idle encoder sends a placeholder, and then, given a source, a repair over it. */
  method PlaceholderThenRepair(ss: nat, data: seq<byte>)
    returns (enc: GenerationEncoder, placeholder: WireSymbol, repair: WireSymbol)
    ensures fresh(enc) && SentBy(enc, [placeholder, repair]) && enc.symbolSize == ss && enc.history == [Pad(data, ss)]
    ensures Shadows(placeholder, repair) && IsEquation(repair)
    ensures Parse(repair.data) == Some(Header(0, 1, 0, 1, HEADER))
  {
    enc := new GenerationEncoder(ss, 1, 1, 0.0, false);
    assert enc.sources == map[];
    placeholder := enc.GenerateRepair();
    var source := enc.AddSource(data);
    var r := enc.GenerateRepairRange(0, 1);
    repair := r.value;
  }

  /** An instance: placeholder and then repair yield nothing, repair and then placeholder the source. */
  method PlaceholderFirst(ss: nat, data: seq<byte>) returns (behind: seq<(nat, Row)>, ahead: seq<(nat, Row)>)
    ensures behind == [] && ahead == [(0, Pad(data, ss))]
  {
    hide GenerationEncoder.Valid, Shadows, Parse, Outcome;
    var enc, placeholder, repair := PlaceholderThenRepair(ss, data);
    behind, ahead := InEitherOrder(enc, placeholder, repair);
  }
}
