/**
 * What one wire slot does, on values. The state a slot acts on is a scene; its use follows from the scene and from
 * what the estimators say, and the next scene follows from the use, apart from what the decoder makes of an arrival,
 * which is bounded here and settled by the decoder's own contract. A tick is a row of scenes, each pair of neighbours
 * joined by one slot; the lemmas at the end say what that means for a whole tick.
 */
module SimulationSlots {
  import opened Basics
  import opened RealSums
  import opened TermLists
  import opened SimpleRlc
  import opened SimulationState
  import opened SimulationBooks
  import CoefficientStream

  /**
   * Everything one tick takes from estimators, rate control and random draws: the rate, each path's
   * estimated goodput, for each wire slot whether a candidate's loss belief beats the draw and the
   * completion debt, and the give-up age when it is finite.
   */
  datatype Inputs = Inputs(rate: real, goodput: seq<real>, confirmed: nat -> bool, completion: nat -> real,
      tCut: Option<nat>)

  function Capped(debt: real): real { if debt < 8.0 then debt else 8.0 }

  /** Lost, unresolved, and its own path's clock has run since it was last sent. */
  predicate Eligible(s: Symbol, ps: seq<Path>, tick: nat) {
    Open(s) && s.path < |ps| && tick - s.lastRetx >= ps[s.path].rttTicks
  }

  predicate AnyEligible(ss: seq<Symbol>, ps: seq<Path>, tick: nat) {
    exists i :: 0 <= i < |ss| && Eligible(ss[i], ps, tick)
  }

  predicate FirstEligible(ss: seq<Symbol>, ps: seq<Path>, tick: nat, i: nat) {
    i < |ss| && Eligible(ss[i], ps, tick) && forall j :: 0 <= j < i ==> !Eligible(ss[j], ps, tick)
  }

  // ---- which path

  /** Some path has a spare slot. */
  predicate Spare(free: seq<nat>) { exists i :: 0 <= i < |free| && free[i] > 0 }

  lemma SpareAt(free: seq<nat>, i: nat, found: bool)
    requires if found then i < |free| && free[i] > 0 else forall j :: 0 <= j < |free| ==> free[j] == 0
    ensures Spare(free) <==> found
  {}

  /** The first, among the paths with a spare slot, of those with the highest goodput. */
  predicate IsBest(free: seq<nat>, goodput: seq<real>, best: nat)
    requires |goodput| == |free|
  {
    && best < |free| && free[best] > 0
    && forall i :: 0 <= i < |free| && free[i] > 0 ==>
      goodput[i] < goodput[best] || (goodput[i] == goodput[best] && best <= i)
  }

  /** Estimated goodput of the paths with a spare slot, never quite zero; zero for the others. */
  function Weights(free: seq<nat>, goodput: seq<real>): (r: seq<real>)
    requires |free| == |goodput|
    ensures |r| == |free| && forall i :: 0 <= i < |free| ==> r[i] >= 0.0 && (free[i] > 0 <==> r[i] > 0.0)
  {
    seq(|free|,
        i requires 0 <= i < |free| =>
          if free[i] == 0 then 0.0 else if goodput[i] > 0.000000001 then goodput[i] else 0.000000001)
  }

  lemma SomeWeight(free: seq<nat>, goodput: seq<real>)
    requires |free| == |goodput|
    ensures if Spare(free) then Total(Weights(free, goodput)) > 0.0 else Total(Weights(free, goodput)) == 0.0
  {
    hide Weights;
    if Spare(free) {
      var spare :| 0 <= spare < |free| && free[spare] > 0;
      TotalPositive(Weights(free, goodput), spare);
    } else {
      AllZero(Weights(free, goodput));
    }
  }

  /** Each path's part of the spare goodput. */
  function Shares(free: seq<nat>, goodput: seq<real>): (r: seq<real>)
    requires |free| == |goodput|
    ensures |r| == |free|
  {
    SomeWeight(free, goodput);
    var g := Weights(free, goodput);
    seq(|g|, i requires 0 <= i < |g| => if free[i] == 0 then 0.0 else g[i] / Total(g))
  }

  /** The shares are those of the paths with a spare slot, and add up to one when there is any. */
  lemma SharesSpare(free: seq<nat>, goodput: seq<real>)
    requires |free| == |goodput|
    ensures forall i :: 0 <= i < |free| ==> (free[i] == 0 ==> Shares(free, goodput)[i] == 0.0)
    ensures Total(Shares(free, goodput)) == if Spare(free) then 1.0 else 0.0
  {
    hide Weights, Total;
    SomeWeight(free, goodput);
    var g := Weights(free, goodput);
    if Spare(free) {
      NothingShared(Total(g));
      TotalOfShares(g, Total(g), Shares(free, goodput));
      WholeOverWhole(Total(g));
    } else {
      AllZero(Shares(free, goodput));
    }
  }

  /** Two paths with a spare slot share in the ratio of their goodputs. */
  lemma SharesAreProportional(free: seq<nat>, goodput: seq<real>, i: nat, j: nat)
    requires |goodput| == |free| && i < |free| && j < |free| && free[i] > 0 && free[j] > 0
    requires goodput[i] > 0.000000001 && goodput[j] > 0.000000001
    ensures Shares(free, goodput)[i] * goodput[j] == Shares(free, goodput)[j] * goodput[i]
  {
    SomeWeight(free, goodput);
    CrossShares(goodput[i], goodput[j], Total(Weights(free, goodput)));
  }

  lemma CrossShares(a: real, b: real, c: real)
    requires c > 0.0
    ensures a / c * b == b / c * a
  {
    assert a / c * b == a * b / c;
    assert b / c * a == b * a / c;
  }

  lemma NothingShared(x: real)
    requires x > 0.0
    ensures 0.0 / x == 0.0
  {}

  lemma WholeOverWhole(x: real)
    requires x > 0.0
    ensures x / x == 1.0
  {}

  /** The first, among the paths with a spare slot, of those with the most credit once each has its share. */
  ghost predicate IsNext(ps: seq<Path>, free: seq<nat>, goodput: seq<real>, next: nat)
    requires |goodput| == |free| == |ps|
  {
    var shares := Shares(free, goodput);
    && next < |free| && free[next] > 0
    && forall i :: 0 <= i < |free| && free[i] > 0 ==>
      var mine, best := ps[i].stripeCredit + shares[i], ps[next].stripeCredit + shares[next];
      mine < best || (mine == best && next <= i)
  }

  /** Every credit grows by its path's share, and the path that carries the source pays one. */
  function Striped(ps: seq<Path>, free: seq<nat>, goodput: seq<real>, next: nat): (r: seq<Path>)
    requires |goodput| == |free| == |ps|
    ensures |r| == |ps| && forall i :: 0 <= i < |ps| ==>
      r[i] == ps[i].(stripeCredit :=
          ps[i].stripeCredit + Shares(free, goodput)[i] - (if i == next then 1.0 else 0.0))
  {
    seq(|ps|, i requires 0 <= i < |ps| =>
      ps[i].(stripeCredit := ps[i].stripeCredit + Shares(free, goodput)[i] - (if i == next then 1.0 else 0.0)))
  }

  lemma FirstIsOpen(ss: seq<Symbol>, ps: seq<Path>, tick: nat, i: nat)
    requires FirstEligible(ss, ps, tick, i)
    ensures i < |ss| && Open(ss[i]) && AnyEligible(ss, ps, tick)
  {}

  lemma NextHasRoom(ps: seq<Path>, free: seq<nat>, goodput: seq<real>)
    requires |ps| == |free| == |goodput|
    ensures forall next: nat :: IsNext(ps, free, goodput, next) ==> next < |free| && free[next] > 0
  {
    hide Shares;
  }

  lemma AreStriped(ps: seq<Path>, qs: seq<Path>, free: seq<nat>, goodput: seq<real>, next: nat)
    requires |free| == |goodput| == |ps| && CreditOnly(ps, qs)
    requires forall i :: 0 <= i < |qs| ==>
      qs[i].stripeCredit == ps[i].stripeCredit + Shares(free, goodput)[i] - (if i == next then 1.0 else 0.0)
    ensures qs == Striped(ps, free, goodput, next)
  {
    hide Shares;
  }

  // ---- one slot

  /**
   * What a slot acts on; the counters are of repairs made, stalls, repairs sent, sources sent again and sources lost
   * when first sent.
   */
  datatype Scene = Scene(
    paths: seq<Path>, symbols: seq<Symbol>, free: seq<nat>, debt: real, nextSeq: nat, occupancy: nat,
    known: set<nat>, rows: seq<PivotRow>, repairs: nat, stalls: nat, fec: nat, arq: nat, lost: nat,
    givenUp: set<nat>)

  /** What a slot is used for. */
  datatype Use = Resending(i: nat, dest: nat) | Repairing(dest: nat) | Sourcing(dest: nat) | Stalled | Idle

  /** A lost symbol may be sent again, and the draw confirms the loss. */
  ghost predicate Resends(a: Scene, now: nat, confirmed: bool) { confirmed && AnyEligible(a.symbols, a.paths, now) }

  /** A repair is owed, and the encoder has sources to repair. */
  predicate Owes(a: Scene, width: nat) { a.debt >= 1.0 && Min(width, a.nextSeq) > 0 }

  predicate Full(a: Scene) { a.occupancy >= STORE_PER_PATH * |a.paths| }

  ghost predicate Chosen(a: Scene, u: Use, now: nat, width: nat, goodput: seq<real>, confirmed: bool)
    requires |goodput| == |a.free| == |a.paths|
  {
    match u
    case Resending(i, dest) =>
      confirmed && FirstEligible(a.symbols, a.paths, now, i) && IsBest(a.free, goodput, dest)
    case Repairing(dest) => !Resends(a, now, confirmed) && Owes(a, width) && IsBest(a.free, goodput, dest)
    case Sourcing(dest) =>
      && !Resends(a, now, confirmed) && !Owes(a, width) && a.nextSeq < NUM_SOURCE && !Full(a)
      && IsNext(a.paths, a.free, goodput, dest)
    case Stalled => !Resends(a, now, confirmed) && !Owes(a, width) && a.nextSeq < NUM_SOURCE && Full(a)
    case Idle => !Resends(a, now, confirmed) && !Owes(a, width) && a.nextSeq >= NUM_SOURCE
  }

  /** Without an arrival the decoder stays as it was; an arrival only adds to what it knows. */
  ghost predicate Hears(a: Scene, b: Scene, lost: bool) {
    a.known <= b.known && (lost ==> b.known == a.known && b.rows == a.rows)
  }

  /** The store holds the sources waiting for acknowledgement and the open losses. */
  ghost predicate Stored(a: Scene) { a.occupancy == Sum(Queued(a.paths)) + |Holes(a.symbols)| }

  /** The equation of a repair over the last sources, at most width of them. */
  function RepairTerms(width: nat, nextSeq: nat, index: nat): seq<Term> {
    var count := Min(width, nextSeq);
    WindowTerms(nextSeq - count, CoefficientStream.WindowCoefficients(nextSeq - count, count, index))
  }

  ghost predicate SentAgain(a: Scene, i: nat, dest: nat, b: Scene, now: nat)
    requires i < |a.symbols| && dest < |a.paths| == |a.free| && a.free[dest] > 0
  {
    var lost := WireLost(a.paths[dest]);
    && Hears(a, b, lost) && (!lost ==> a.symbols[i].at in b.known)
    && b == a.(paths := a.paths[dest := SendOn(a.paths[dest], AsRetransmit, now)],
               free := a.free[dest := a.free[dest] - 1], arq := a.arq + 1,
               symbols := Marked(a.symbols[i := a.symbols[i].(lastRetx := now, path := dest)], b.known - a.known),
               occupancy := b.occupancy, known := b.known, rows := b.rows)
  }

  ghost predicate Repaired(a: Scene, dest: nat, b: Scene, now: nat, width: nat)
    requires dest < |a.paths| == |a.free| && a.free[dest] > 0
  {
    var lost := WireLost(a.paths[dest]);
    && Hears(a, b, lost)
    && (!lost ==> Absorbed(RepairTerms(width, a.nextSeq, a.repairs), a.known, a.rows, b.known, b.rows))
    && b == a.(paths := a.paths[dest := SendOn(a.paths[dest], AsRepair, now)],
               free := a.free[dest := a.free[dest] - 1], fec := a.fec + 1, repairs := a.repairs + 1,
               debt := a.debt - 1.0, symbols := Marked(a.symbols, b.known - a.known),
               occupancy := b.occupancy, known := b.known, rows := b.rows)
  }

  ghost predicate Sourced(a: Scene, dest: nat, b: Scene, now: nat, goodput: seq<real>, accrued: real)
    requires |goodput| == |a.free| == |a.paths| && dest < |a.free| && a.free[dest] > 0
  {
    var lost := WireLost(a.paths[dest]);
    var ps := Striped(a.paths, a.free, goodput, dest);
    && Hears(a, b, lost) && (!lost ==> a.nextSeq in b.known)
    && b == a.(paths := ps[dest := SendOn(ps[dest], AsSource, now)], free := a.free[dest := a.free[dest] - 1],
               nextSeq := a.nextSeq + 1, debt := Capped(a.debt + accrued), lost := a.lost + (if lost then 1 else 0),
               symbols := Marked(a.symbols + [Symbol(now, a.nextSeq, lost, false, now, dest)], b.known - a.known),
               occupancy := b.occupancy, known := b.known, rows := b.rows)
  }

  /** Scene b is what the slot makes of scene a when it is used so. */
  ghost predicate Made(a: Scene, u: Use, b: Scene, now: nat, width: nat, goodput: seq<real>, confirmed: bool,
        accrued: real)
    requires |goodput| == |a.free| == |a.paths| && Chosen(a, u, now, width, goodput, confirmed)
  {
    match u
    case Resending(i, dest) => SentAgain(a, i, dest, b, now)
    case Repairing(dest) => Repaired(a, dest, b, now, width)
    case Sourcing(dest) => Sourced(a, dest, b, now, goodput, accrued)
    case Stalled => b == a.(stalls := a.stalls + 1)
    case Idle => b == a
  }

  lemma AsSentAgain(a: Scene, i: nat, dest: nat, b: Scene, now: nat, lost: bool)
    requires i < |a.symbols| && dest < |a.paths| == |a.free| && a.free[dest] > 0
    requires lost == WireLost(a.paths[dest]) && Hears(a, b, lost) && (!lost ==> a.symbols[i].at in b.known)
    requires b.paths == a.paths[dest := SendOn(a.paths[dest], AsRetransmit, now)]
    requires b.symbols
      == Marked(a.symbols[i := a.symbols[i].(lastRetx := now, path := dest)], b.known - a.known)
    requires b.free == a.free[dest := a.free[dest] - 1] && b.arq == a.arq + 1 && b.fec == a.fec && b.lost == a.lost
    requires b.debt == a.debt && b.nextSeq == a.nextSeq && b.repairs == a.repairs && b.stalls == a.stalls
      && b.givenUp == a.givenUp
    ensures SentAgain(a, i, dest, b, now)
  {
    hide WireLost, SendOn, Marked;
  }

  lemma AsRepaired(a: Scene, dest: nat, b: Scene, now: nat, width: nat, lost: bool)
    requires dest < |a.paths| == |a.free| && a.free[dest] > 0
    requires lost == WireLost(a.paths[dest]) && Hears(a, b, lost)
    requires !lost ==> Absorbed(RepairTerms(width, a.nextSeq, a.repairs), a.known, a.rows, b.known, b.rows)
    requires b.paths == a.paths[dest := SendOn(a.paths[dest], AsRepair, now)]
    requires b.symbols == Marked(a.symbols, b.known - a.known)
    requires b.free == a.free[dest := a.free[dest] - 1] && b.fec == a.fec + 1 && b.repairs == a.repairs + 1
      && b.debt == a.debt - 1.0
    requires b.arq == a.arq && b.lost == a.lost && b.nextSeq == a.nextSeq && b.stalls == a.stalls
      && b.givenUp == a.givenUp
    ensures Repaired(a, dest, b, now, width)
  {
    hide WireLost, SendOn, Marked, Absorbed, RepairTerms;
  }

  lemma AsSourced(a: Scene, dest: nat, b: Scene, now: nat, goodput: seq<real>, accrued: real, lost: bool)
    requires |goodput| == |a.free| == |a.paths| && dest < |a.free| && a.free[dest] > 0
    requires lost == WireLost(a.paths[dest]) && Hears(a, b, lost) && (!lost ==> a.nextSeq in b.known)
    requires var ps := Striped(a.paths, a.free, goodput, dest); b.paths == ps[dest := SendOn(ps[dest], AsSource, now)]
    requires b.symbols == Marked(a.symbols + [Symbol(now, a.nextSeq, lost, false, now, dest)], b.known - a.known)
    requires b.free == a.free[dest := a.free[dest] - 1] && b.nextSeq == a.nextSeq + 1
      && b.debt == Capped(a.debt + accrued)
    requires b.repairs == a.repairs && b.stalls == a.stalls && b.fec == a.fec && b.arq == a.arq
      && b.lost == a.lost + (if lost then 1 else 0) && b.givenUp == a.givenUp
    ensures Sourced(a, dest, b, now, goodput, accrued)
  {
    hide WireLost, SendOn, Marked, Capped, Striped;
  }

  /** One slot: the use is the one the scene and the inputs call for, and the next scene is what it makes. */
  ghost predicate Slot(a: Scene, u: Use, b: Scene, now: nat, width: nat, goodput: seq<real>, confirmed: bool,
        accrued: real) {
    && |goodput| == |a.free| == |a.paths| && Stored(a) && Stored(b)
    && Chosen(a, u, now, width, goodput, confirmed)
    && Made(a, u, b, now, width, goodput, confirmed, accrued)
  }

  /** A scene calls for one use, and what the decoder then knows settles everything else. */
  lemma OneUse(a: Scene, u: Use, b: Scene, w: Use, c: Scene, now: nat, width: nat, goodput: seq<real>,
        confirmed: bool, accrued: real)
    requires Slot(a, u, b, now, width, goodput, confirmed, accrued)
      && Slot(a, w, c, now, width, goodput, confirmed, accrued)
    ensures u == w
    ensures b.known == c.known && b.rows == c.rows ==> b == c
  {
    hide Sum, Queued, Holes, SendOn, Absorbed, Eligible, Shares, Marked, Striped;
  }

  // ---- a tick

  /** The scenes of a tick, and the use of each slot between them. */
  ghost predicate Slots(scenes: seq<Scene>, uses: seq<Use>, now: nat, width: nat, inputs: Inputs) {
    && |scenes| == |uses| + 1
    && forall i :: 0 <= i < |uses| ==>
      Slot(scenes[i], uses[i], scenes[i + 1], now, width, inputs.goodput, inputs.confirmed(i),
          inputs.rate + inputs.completion(i))
  }

  lemma NoSlots(a: Scene, now: nat, width: nat, inputs: Inputs)
    ensures Slots([a], [], now, width, inputs)
  {}

  lemma SlotsSnoc(scenes: seq<Scene>, uses: seq<Use>, u: Use, b: Scene, now: nat, width: nat, inputs: Inputs)
    requires Slots(scenes, uses, now, width, inputs)
    requires Slot(scenes[|uses|], u, b, now, width, inputs.goodput, inputs.confirmed(|uses|),
        inputs.rate + inputs.completion(|uses|))
    ensures Slots(scenes + [b], uses + [u], now, width, inputs)
  {
    hide Slot;
  }

  /** How many slots found nothing left to do. */
  function Idles(uses: seq<Use>): nat {
    if uses == [] then 0 else Idles(uses[..|uses| - 1]) + (if uses[|uses| - 1].Idle? then 1 else 0)
  }

  /** What the sources of a tick add to the debt. */
  function Accrued(uses: seq<Use>, inputs: Inputs): real {
    if uses == [] then 0.0
    else
      var last := |uses| - 1;
      Accrued(uses[..last], inputs) + (if uses[last].Sourcing? then inputs.rate + inputs.completion(last) else 0.0)
  }

  function Dest(u: Use): Option<nat> {
    if u.Resending? || u.Repairing? || u.Sourcing? then Some(u.dest) else None
  }

  /** What one slot does to the counters and the debt. */
  lemma OneSlot(a: Scene, u: Use, b: Scene, now: nat, width: nat, goodput: seq<real>, confirmed: bool, accrued: real)
    requires Slot(a, u, b, now, width, goodput, confirmed, accrued)
    ensures a.known <= b.known
    ensures b.arq == a.arq + (if u.Resending? then 1 else 0) && b.fec == a.fec + (if u.Repairing? then 1 else 0)
      && b.nextSeq == a.nextSeq + (if u.Sourcing? then 1 else 0) && b.stalls == a.stalls + (if u.Stalled? then 1 else 0)
    ensures b.debt == if u.Sourcing? then Capped(a.debt + accrued) else if u.Repairing? then a.debt - 1.0 else a.debt
    ensures (u.Repairing? ==> a.debt >= 1.0) && (u.Idle? ==> a.nextSeq >= NUM_SOURCE)
  {
    hide Stored, SendOn, Absorbed, AnyEligible, Eligible, FirstEligible, Marked, Shares, Striped, WireLost, Capped,
        RepairTerms;
  }

  /** Whatever is sent takes a spare slot. */
  lemma OneSpare(a: Scene, u: Use, b: Scene, now: nat, width: nat, goodput: seq<real>, confirmed: bool, accrued: real)
    requires Slot(a, u, b, now, width, goodput, confirmed, accrued)
    ensures Dest(u).None? ==> b.free == a.free
    ensures Dest(u).Some? ==>
      && Dest(u).value < |a.free| && a.free[Dest(u).value] > 0
      && b.free == a.free[Dest(u).value := a.free[Dest(u).value] - 1]
  {
    hide Stored, SendOn, Absorbed, AnyEligible, Eligible, FirstEligible, Marked, Shares, Striped, WireLost, Capped,
        RepairTerms, Hears;
  }

  lemma SlotsSplit(scenes: seq<Scene>, uses: seq<Use>, now: nat, width: nat, inputs: Inputs)
    requires Slots(scenes, uses, now, width, inputs)
    ensures |scenes| == |uses| + 1
    ensures uses != [] ==>
      var last := |uses| - 1;
      && Slots(scenes[..|uses|], uses[..last], now, width, inputs)
      && Slot(scenes[last], uses[last], scenes[|uses|], now, width, inputs.goodput, inputs.confirmed(last),
          inputs.rate + inputs.completion(last))
  {
    hide Slot;
  }

  lemma OneScene(scenes: seq<Scene>, uses: seq<Use>, now: nat, width: nat, inputs: Inputs)
    requires Slots(scenes, uses, now, width, inputs)
    ensures |scenes| == |uses| + 1
  {}

  /** Knowledge and counters only grow. */
  ghost predicate Grows(a: Scene, b: Scene) {
    a.known <= b.known && a.fec <= b.fec && a.arq <= b.arq && a.nextSeq <= b.nextSeq && a.stalls <= b.stalls
  }

  lemma {:induction false} SlotsGrow(scenes: seq<Scene>, uses: seq<Use>, now: nat, width: nat, inputs: Inputs, i: nat)
    requires Slots(scenes, uses, now, width, inputs) && i <= |uses|
    ensures |scenes| == |uses| + 1 && Grows(scenes[i], scenes[|uses|])
    decreases |uses|
  {
    hide Slot, Slots;
    SlotsSplit(scenes, uses, now, width, inputs);
    if i < |uses| {
      var last := |uses| - 1;
      SlotsGrow(scenes[..|uses|], uses[..last], now, width, inputs, i);
      OneSlot(scenes[last], uses[last], scenes[|uses|], now, width, inputs.goodput, inputs.confirmed(last),
          inputs.rate + inputs.completion(last));
    }
  }

  /**
   * Every slot of a tick is accounted for: it sends a repair, sends a source again, sends a new source, or stalls on a
   * full pool, or else every source has been sent; and whatever was sent took a spare slot.
   */
  lemma {:induction false} EverySlotCounts(scenes: seq<Scene>, uses: seq<Use>, now: nat, width: nat, inputs: Inputs)
    requires Slots(scenes, uses, now, width, inputs)
    ensures |scenes| == |uses| + 1
    ensures var a, b := scenes[0], scenes[|uses|];
      && Grows(a, b)
      && |uses| == (b.fec - a.fec) + (b.arq - a.arq) + (b.nextSeq - a.nextSeq) + (b.stalls - a.stalls) + Idles(uses)
      && Sum(a.free) == Sum(b.free) + (b.fec - a.fec) + (b.arq - a.arq) + (b.nextSeq - a.nextSeq)
      && (Idles(uses) > 0 ==> b.nextSeq >= NUM_SOURCE)
    decreases |uses|
  {
    hide Slot, Slots, Sum;
    SlotsSplit(scenes, uses, now, width, inputs);
    if uses != [] {
      var last := |uses| - 1;
      EverySlotCounts(scenes[..|uses|], uses[..last], now, width, inputs);
      var a, u := scenes[last], uses[last];
      OneSlot(a, u, scenes[|uses|], now, width, inputs.goodput, inputs.confirmed(last),
          inputs.rate + inputs.completion(last));
      OneSpare(a, u, scenes[|uses|], now, width, inputs.goodput, inputs.confirmed(last),
          inputs.rate + inputs.completion(last));
      if Dest(u).Some? {
        SumUpdate(a.free, Dest(u).value, a.free[Dest(u).value] - 1);
      }
    }
  }

  /**
   * Repairs are paid for: what a tick sends never exceeds the debt at its start and what its sources add, and it is
   * exactly the difference unless the debt ever reaches its cap of eight.
   */
  lemma {:induction false} RepairsArePaidFor(scenes: seq<Scene>, uses: seq<Use>, now: nat, width: nat, inputs: Inputs)
    requires Slots(scenes, uses, now, width, inputs)
    ensures |scenes| == |uses| + 1
    ensures var a, b := scenes[0], scenes[|uses|];
      && b.debt + (b.fec - a.fec) as real <= a.debt + Accrued(uses, inputs)
      && (a.debt <= 8.0 ==> b.debt <= 8.0)
    ensures (forall i :: inputs.rate + inputs.completion(i) >= 0.0) ==>
      var a, b := scenes[0], scenes[|uses|];
      && Accrued(uses, inputs) >= 0.0 && (a.debt >= 0.0 ==> b.debt >= 0.0)
      && (a.debt + Accrued(uses, inputs) <= 8.0 ==>
            b.debt + (b.fec - a.fec) as real == a.debt + Accrued(uses, inputs))
    decreases |uses|
  {
    hide Slot, Slots;
    SlotsSplit(scenes, uses, now, width, inputs);
    if uses != [] {
      var last := |uses| - 1;
      RepairsArePaidFor(scenes[..|uses|], uses[..last], now, width, inputs);
      SlotsGrow(scenes[..|uses|], uses[..last], now, width, inputs, 0);
      OneSlot(scenes[last], uses[last], scenes[|uses|], now, width, inputs.goodput, inputs.confirmed(last),
          inputs.rate + inputs.completion(last));
    }
  }

  /**
   * The first slot of a tick: a confirmed loss whose clock has run is sent again, and known from then on unless it is
   * lost again; with none, a repair that is owed is sent.
   */
  lemma FirstSlot(scenes: seq<Scene>, uses: seq<Use>, now: nat, width: nat, inputs: Inputs)
    requires Slots(scenes, uses, now, width, inputs) && uses != []
    ensures |scenes| == |uses| + 1
    ensures !Resends(scenes[0], now, inputs.confirmed(0)) && Owes(scenes[0], width) ==>
      scenes[|uses|].fec > scenes[0].fec
    ensures Resends(scenes[0], now, inputs.confirmed(0)) ==>
      var a, b, u := scenes[0], scenes[|uses|], uses[0];
      && b.arq > a.arq
      && u.Resending? && FirstEligible(a.symbols, a.paths, now, u.i) && u.dest < |a.paths|
      && (WireLost(a.paths[u.dest]) || a.symbols[u.i].at in b.known)
  {
    SlotsGrow(scenes, uses, now, width, inputs, 1);
    hide Stored, SendOn, Absorbed, Eligible, FirstEligible, Marked, Shares, Striped, WireLost, Capped;
    assert Slot(scenes[0], uses[0], scenes[1], now, width, inputs.goodput, inputs.confirmed(0),
        inputs.rate + inputs.completion(0));
  }

  // ---- around the slots

  lemma {:induction false} RetainedAre(ss: seq<Symbol>, tick: nat)
    ensures forall s :: s in Retained(ss, tick) <==> s in ss && (Open(s) || Less(tick, s.tick) < 10)
  {
    if ss != [] {
      assert ss == ss[..|ss| - 1] + [ss[|ss| - 1]];
      RetainedAre(ss[..|ss| - 1], tick);
    }
  }

  function GivenUpAt(s: Symbol, tick: nat, cut: nat): Symbol {
    if Open(s) && Less(tick, s.tick) > cut then s.(recovered := true) else s
  }

  function ArrivedAt(s: Symbol, ps: seq<Path>, tick: nat): Symbol {
    if !s.lost && !s.recovered && s.path < |ps| && Less(tick, s.tick) >= ps[s.path].rttTicks
    then s.(recovered := true) else s
  }

  /** The age beyond which open losses are given up; none at full reliability or without a finite one. */
  function CutOff(mayGiveUp: bool, tCut: Option<nat>, ps: seq<Path>): Option<nat> {
    if mayGiveUp && tCut.Some? then Some(Max(tCut.value, AggregateRtt(ps) * 2)) else None
  }

  /** After the wire: open losses older than the cut are closed, and so is every arrival a round trip old. */
  function Resolved(ss: seq<Symbol>, ps: seq<Path>, tick: nat, cut: Option<nat>): (r: seq<Symbol>)
    ensures |r| == |ss|
    ensures forall i :: 0 <= i < |ss| ==>
      r[i] == ArrivedAt(if cut.Some? then GivenUpAt(ss[i], tick, cut.value) else ss[i], ps, tick)
  {
    seq(|ss|, i requires 0 <= i < |ss| =>
      ArrivedAt(if cut.Some? then GivenUpAt(ss[i], tick, cut.value) else ss[i], ps, tick))
  }

  /** The open losses older than the cut. */
  ghost function TooOld(ss: seq<Symbol>, tick: nat, cut: Option<nat>): set<nat> {
    if cut.None? then {} else set i | 0 <= i < |ss| && Open(ss[i]) && Less(tick, ss[i].tick) > cut.value :: ss[i].at
  }

  lemma NoneOld(tick: nat, cut: Option<nat>)
    ensures TooOld([], tick, cut) == {}
  {}

  lemma NoCutNoneOld(ss: seq<Symbol>, tick: nat)
    ensures TooOld(ss, tick, None) == {}
  {}

  lemma OneMoreOld(ss: seq<Symbol>, n: nat, tick: nat, cut: Option<nat>)
    requires n < |ss|
    ensures TooOld(ss[..n + 1], tick, cut) == TooOld(ss[..n], tick, cut)
      + (if cut.Some? && Open(ss[n]) && Less(tick, ss[n].tick) > cut.value then {ss[n].at} else {})
  {
    hide Open, Less;
    var a, b := ss[..n], ss[..n + 1];
    assert forall i :: 0 <= i < n ==> b[i] == a[i];
    assert b[n] == ss[n];
    if cut.Some? {
      forall q | q in TooOld(a, tick, cut)
        ensures q in TooOld(b, tick, cut)
      {
        var i :| 0 <= i < |a| && Open(a[i]) && Less(tick, a[i].tick) > cut.value && a[i].at == q;
        assert b[i] == a[i];
      }
    }
  }

  /** The overdue entries at the front of a path's queue are gone, and nothing else has changed. */
  ghost predicate Popped(p: Path, q: Path, now: nat) {
    && q == p.(feedback := q.feedback)
    && |q.feedback| <= |p.feedback| && q.feedback == p.feedback[|p.feedback| - |q.feedback|..]
    && (q.feedback != [] ==> Less(now, q.feedback[0].tick) < q.rttTicks)
    && forall i :: 0 <= i < |p.feedback| - |q.feedback| ==> Less(now, p.feedback[i].tick) >= p.rttTicks
  }

  /** The first slot's scene: feedback has been taken in, and its slots have left the store. */
  ghost predicate Opens(a: Scene, b: Scene, now: nat) {
    && b == a.(paths := b.paths, occupancy := b.occupancy) && |b.paths| == |a.paths|
    && forall i :: 0 <= i < |a.paths| ==> Popped(a.paths[i], b.paths[i], now)
  }

  ghost predicate Resolves(a: Scene, b: Scene, now: nat, cut: Option<nat>) {
    b == a.(symbols := Resolved(a.symbols, a.paths, now, cut), givenUp := a.givenUp + TooOld(a.symbols, now, cut),
            occupancy := b.occupancy)
  }

  /** After the last slot only the symbols change: they are resolved, and those of no more use are dropped. */
  ghost predicate Closes(a: Scene, b: Scene, now: nat, cut: Option<nat>) {
    b == a.(symbols := Retained(Resolved(a.symbols, a.paths, now, cut), now),
            givenUp := a.givenUp + TooOld(a.symbols, now, cut), occupancy := b.occupancy)
  }

  lemma DrainedPopped(ps: seq<Path>, qs: seq<Path>, acks: seq<seq<nat>>, left: seq<seq<nat>>, sendTick: seq<nat>,
        now: nat)
    requires AllDrained(ps, qs, acks, left, sendTick, now)
    ensures |qs| == |ps| && forall i :: 0 <= i < |ps| ==> Popped(ps[i], qs[i], now)
  {
    hide Carries, Less;
    forall i | 0 <= i < |ps|
      ensures Popped(ps[i], qs[i], now)
    {
      assert Drained(ps[i], qs[i], acks[i], left[i], sendTick, now);
    }
  }

  lemma StillEligible(a: Scene, b: Scene, tick: nat)
    requires Opens(a, b, tick)
    ensures AnyEligible(a.symbols, a.paths, tick) ==> AnyEligible(b.symbols, b.paths, tick)
    ensures b.debt == a.debt && b.nextSeq == a.nextSeq && b.arq == a.arq && b.fec == a.fec
  {
    hide Less;
    assert forall i :: 0 <= i < |a.paths| ==> b.paths[i].rttTicks == a.paths[i].rttTicks;
    if AnyEligible(a.symbols, a.paths, tick) {
      var i :| 0 <= i < |a.symbols| && Eligible(a.symbols[i], a.paths, tick);
      assert Eligible(b.symbols[i], b.paths, tick);
    }
  }

  /**
   * A tick is the row of its slots: the first scene is the state before the tick once feedback has been taken in, and
   * the state after it is the last scene once what is old has been resolved and dropped.
   */
  ghost predicate Ticked(a: Scene, scenes: seq<Scene>, uses: seq<Use>, b: Scene, now: nat, width: nat, inputs: Inputs,
        cut: Option<nat>) {
    && Slots(scenes, uses, now, width, inputs) && |uses| == Sum(a.free) && |scenes| == |uses| + 1
    && Opens(a, scenes[0], now) && Closes(scenes[|uses|], b.(free := scenes[|uses|].free), now, cut)
  }

  lemma Closing(a: Scene, scenes: seq<Scene>, uses: seq<Use>, resolved: Scene, b: Scene, now: nat, width: nat,
        inputs: Inputs, cut: Option<nat>)
    requires Slots(scenes, uses, now, width, inputs) && |uses| == Sum(a.free) && |scenes| == |uses| + 1
    requires Opens(a, scenes[0], now) && Resolves(scenes[|uses|], resolved, now, cut)
    requires b.(free := resolved.free) == resolved.(symbols := Retained(resolved.symbols, now))
    requires resolved.free == scenes[|uses|].free
    ensures Ticked(a, scenes, uses, b, now, width, inputs, cut)
  {
    hide Retained, Resolved, TooOld, Slots, Opens, Sum;
  }

  /** What a tick owes first, and what it leaves open. */
  lemma FirstThings(a: Scene, scenes: seq<Scene>, uses: seq<Use>, b: Scene, now: nat, width: nat, inputs: Inputs,
        cut: Option<nat>)
    requires Ticked(a, scenes, uses, b, now, width, inputs, cut) && Sum(a.free) > 0
    ensures AnyEligible(a.symbols, a.paths, now) && inputs.confirmed(0) ==> b.arq > a.arq
    ensures Owes(a, width) && !inputs.confirmed(0) ==> b.fec > a.fec
    ensures cut.Some? ==> forall s :: s in b.symbols && Open(s) ==> Less(now, s.tick) <= cut.value
  {
    hide Slots, Opens, Sum, TooOld, AnyEligible, Retained, Less;
    FirstSlot(scenes, uses, now, width, inputs);
    StillEligible(a, scenes[0], now);
    RetainedAre(Resolved(scenes[|uses|].symbols, scenes[|uses|].paths, now, cut), now);
  }
}
