/**
 * The simulation's books as one value, the facts that hold of it, and what each kind of event does to it. An event is
 * proved once here on values; the methods of the simulation only have to show that they made exactly that change. The
 * events are a correction, a lost source, an arrived source, a delivery, feedback, a give-up, marking, pruning, a
 * tick of the clock, and the moves of the frontier.
 */
module SimulationBooks {
  import opened Basics
  import opened Gf256
  import opened SimulationState
  import Wire

  const NUM_SOURCE: nat := 2000
  const STORE_PER_PATH: nat := 512
  const TICK_LIMIT: nat := 20_000
  const SYMBOL_SIZE: nat := 8

  function PayloadByte(q: nat): byte { ByteOf(q % 256) }

  function Payload(q: nat): (r: seq<byte>)
    ensures |r| == SYMBOL_SIZE && Wire.Pad(r, SYMBOL_SIZE) == r && forall k :: 0 <= k < |r| ==> r[k] == PayloadByte(q)
  {
    seq(SYMBOL_SIZE, i => PayloadByte(q))
  }

  /** Subtraction that stops at zero. */
  function Less(a: nat, b: nat): nat { if a > b then a - b else 0 }

  function Capacities(ps: seq<Path>): (r: seq<nat>)
    ensures |r| == |ps| && forall i :: 0 <= i < |ps| ==> r[i] == ps[i].capacity
  {
    seq(|ps|, i requires 0 <= i < |ps| => ps[i].capacity)
  }

  function WeightedRtts(ps: seq<Path>): seq<nat> {
    seq(|ps|, i requires 0 <= i < |ps| => ps[i].capacity * ps[i].rttTicks)
  }

  /** The capacity-weighted mean round-trip time, rounded half up. */
  function AggregateRtt(ps: seq<Path>): nat {
    var total := Sum(Capacities(ps));
    if total == 0 then 0 else (2 * Sum(WeightedRtts(ps)) + total) / (2 * total)
  }

  lemma SinglePathRtt(ps: seq<Path>)
    requires |ps| == 1 && ps[0].capacity > 0
    ensures AggregateRtt(ps) == ps[0].rttTicks
  {
    var c, r := ps[0].capacity, ps[0].rttTicks;
    assert Capacities(ps)[..0] == [] && WeightedRtts(ps)[..0] == [];
    assert Sum(Capacities(ps)) == c && Sum(WeightedRtts(ps)) == c * r;
    QuotientUnique(2 * (c * r) + c, 2 * c, r);
  }

  // ---- facts about single parts of the books

  ghost predicate LatenciesMatch(lat: seq<Option<real>>, decoded: set<nat>, g: set<nat>) {
    |lat| == NUM_SOURCE && forall q :: 0 <= q < |lat| ==> (lat[q].Some? <==> q in decoded && q !in g)
  }

  /** Everything below the frontier, now and in its recorded past, is decoded or given up. */
  ghost predicate FrontiersHold(frontier: nat, hist: seq<(nat, nat)>, acked: nat, sendTick: seq<nat>,
        settled: set<nat>, now: nat) {
    && (forall q :: 0 <= q < frontier ==> q in settled)
    && (forall q :: 0 <= q < acked ==> q in settled)
    && (forall i :: 0 <= i < |hist| ==> hist[i].0 <= now && hist[i].1 <= |sendTick|)
    && (forall i, q :: 0 <= i < |hist| && 0 <= q < hist[i].1 ==> q in settled && sendTick[q] <= hist[i].0)
  }

  lemma FrontiersGrow(frontier: nat, hist: seq<(nat, nat)>, acked: nat, sendTick: seq<nat>, more: seq<nat>,
        settled: set<nat>, after: set<nat>, now: nat)
    requires FrontiersHold(frontier, hist, acked, sendTick, settled, now) && settled <= after
    ensures FrontiersHold(frontier, hist, acked, sendTick + more, after, now)
  {}

  ghost predicate Recents(ps: seq<Path>, now: nat) {
    forall i :: 0 <= i < |ps| ==> Recent(ps[i], now)
  }

  lemma QueuesAfterSend(ps: seq<Path>, acks: seq<seq<nat>>, sendTick: seq<nat>, decoded: set<nat>, now: nat,
        clock: nat, acked: nat, i: nat, kind: Kind)
    requires Queues(ps, acks, sendTick, decoded, now, clock, acked) && i < |ps| && ps[i].rttTicks > 0
    requires kind != AsSource || WireLost(ps[i])
    ensures Queues(ps[i := SendOn(ps[i], kind, now)], acks, sendTick, decoded, now, clock, acked)
    ensures Recents(ps, now) ==> Recents(ps[i := SendOn(ps[i], kind, now)], now)
  {
    hide Waiting, SendOn, Recent;
    SendKeepsClock(ps[i], kind, now);
    WaitingAfterSend(ps[i], acks[i], sendTick, decoded, now, FloorOn(ps[i], clock, acked), kind, 0);
  }

  lemma QueuesAfterArrival(ps: seq<Path>, acks: seq<seq<nat>>, sendTick: seq<nat>, decoded: set<nat>, now: nat,
        clock: nat, acked: nat, i: nat, q: nat)
    requires Queues(ps, acks, sendTick, decoded, now, clock, acked) && i < |ps| && ps[i].rttTicks > 0
      && !WireLost(ps[i])
    requires q < |sendTick| && sendTick[q] == now && q in decoded && acked <= q
    requires forall p, j :: 0 <= p < |acks| && 0 <= j < |acks[p]| ==> acks[p][j] < q
    ensures Queues(ps[i := SendOn(ps[i], AsSource, now)], acks[i := acks[i] + [q]], sendTick, decoded, now, clock,
        acked)
    ensures Recents(ps, now) ==> Recents(ps[i := SendOn(ps[i], AsSource, now)], now)
  {
    hide Waiting, SendOn, Recent;
    SendKeepsClock(ps[i], AsSource, now);
    SeparateSnoc(acks, i, q);
    hide Separate;
    WaitingAfterSend(ps[i], acks[i], sendTick, decoded, now, FloorOn(ps[i], clock, acked), AsSource, q);
  }

  lemma QueuesGrow(ps: seq<Path>, acks: seq<seq<nat>>, sendTick: seq<nat>, decoded: set<nat>, more: set<nat>,
        now: nat,
        clock: nat, acked: nat)
    requires Queues(ps, acks, sendTick, decoded, now, clock, acked) && decoded <= more
    ensures Queues(ps, acks, sendTick, more, now, clock, acked)
  {
    hide Waiting;
    forall i | 0 <= i < |ps|
      ensures Waiting(ps[i], acks[i], sendTick, more, now, FloorOn(ps[i], clock, acked))
    {
      WaitingKept(ps[i], acks[i], sendTick, decoded, more, now, FloorOn(ps[i], clock, acked));
    }
  }

  lemma DeliveredHoles(ss: seq<Symbol>, qs: set<nat>, n: nat)
    requires forall s :: s in ss ==> s.path < n
    ensures |Holes(Marked(ss, qs))| <= |Holes(ss)|
    ensures forall s :: s in Marked(ss, qs) ==> s.path < n
  {
    MarkedHoles(ss, qs);
    SubsetSize(Holes(Marked(ss, qs)), Holes(ss));
    forall s | s in Marked(ss, qs)
      ensures s.path < n
    {
      var i :| 0 <= i < |ss| && Marked(ss, qs)[i] == s;
      assert ss[i] in ss;
    }
  }

  lemma LatenciesAfter(lat: seq<Option<real>>, after: seq<Option<real>>, decoded: set<nat>, g: set<nat>, rec: seq<nat>,
        now: set<nat>)
    requires LatenciesMatch(lat, decoded, g) && |after| == |lat| && Fresh(rec, decoded, now)
    requires forall q :: 0 <= q < |after| ==> (after[q].Some? <==> lat[q].Some? || (q in rec && q !in g))
    ensures LatenciesMatch(after, now, g)
  {}

  lemma HoleIsUndecoded(ss: seq<Symbol>, i: nat, next: nat, decoded: set<nat>, g: set<nat>, d: nat, u: nat)
    requires Ledger(ss, next, decoded, g, d, u) && i < |ss| && Open(ss[i])
    ensures ss[i].at !in decoded && ss[i].at < next
  {
    assert ss[i].at in Holes(ss);
  }

  /** A new clock and path leave the symbol's place in the books alone. */
  lemma Resent(ss: seq<Symbol>, i: nat, tick: int, dest: nat, next: nat, decoded: set<nat>, g: set<nat>, d: nat, u: nat)
    requires Ledger(ss, next, decoded, g, d, u) && i < |ss|
    ensures Ledger(ss[i := ss[i].(lastRetx := tick, path := dest)], next, decoded, g, d, u)
    ensures Holes(ss[i := ss[i].(lastRetx := tick, path := dest)]) == Holes(ss)
  {
    var after := ss[i := ss[i].(lastRetx := tick, path := dest)];
    SameHoles(ss, after, next);
    LedgerKept(ss, after, next, decoded, g, d, u);
  }

  /** Only whether a symbol is open counts. */
  lemma SameHoles(ss: seq<Symbol>, after: seq<Symbol>, n: nat)
    requires |after| == |ss| && forall s :: s in ss ==> s.at < n
    requires forall i :: 0 <= i < |ss| ==> after[i].at == ss[i].at && (Open(after[i]) <==> Open(ss[i]))
    ensures Holes(after) == Holes(ss) && (Distinct(ss) ==> Distinct(after))
    ensures forall s :: s in after ==> s.at < n
  {
    forall s | s in after
      ensures s.at < n
    {
      var i :| 0 <= i < |after| && after[i] == s;
      assert ss[i] in ss;
    }
  }

  lemma ClosedByDelivery(ss: seq<Symbol>, i: nat, rec: seq<nat>, before: set<nat>, after: set<nat>)
    requires i < |ss| && Open(ss[i]) && Fresh(rec, before, after) && ss[i].at in after && ss[i].at !in before
    ensures Marked(ss, Members(rec))[i] == ss[i].(recovered := true)
  {}

  /** There is a path, every path is usable, and every symbol was last sent on one of them. */
  ghost predicate Routed(ps: seq<Path>, ss: seq<Symbol>) {
    && ps != [] && (forall i :: 0 <= i < |ps| ==> ps[i].rttTicks > 0 && ps[i].capacity > 0)
    && (forall s :: s in ss ==> s.path < |ps|)
  }

  lemma RoutedAfterSend(ps: seq<Path>, ss: seq<Symbol>, i: nat, kind: Kind, tick: nat)
    requires Routed(ps, ss) && i < |ps|
    ensures ps[i].rttTicks > 0 && Routed(ps[i := SendOn(ps[i], kind, tick)], ss)
  {}

  lemma QueuedAfterSend(ps: seq<Path>, i: nat, kind: Kind, tick: nat)
    requires i < |ps| && kind != AsSource
    ensures Sum(Queued(ps[i := SendOn(ps[i], kind, tick)])) == Sum(Queued(ps))
  {
    TotalsAfterSend(ps, i, kind, tick);
  }

  lemma QueuedAfterSource(ps: seq<Path>, i: nat, tick: nat)
    requires i < |ps|
    ensures Sum(Queued(ps[i := SendOn(ps[i], AsSource, tick)])) == Sum(Queued(ps)) + (if WireLost(ps[i]) then 0 else 1)
  {
    TotalsAfterSend(ps, i, AsSource, tick);
  }

  lemma QueuesLater(ps: seq<Path>, acks: seq<seq<nat>>, sendTick: seq<nat>, decoded: set<nat>, now: nat,
        clock: nat, acked: nat,
        tick: nat)
    requires Queues(ps, acks, sendTick, decoded, now, clock, acked)
    ensures Queues(ps, acks, sendTick + [tick], decoded, now, clock, acked)
      && Queues(ps, acks, sendTick, decoded, now + 1, clock, acked)
  {
    hide Waiting;
    forall i | 0 <= i < |ps|
      ensures Waiting(ps[i], acks[i], sendTick + [tick], decoded, now, FloorOn(ps[i], clock, acked))
      ensures Waiting(ps[i], acks[i], sendTick, decoded, now + 1, FloorOn(ps[i], clock, acked))
    {
      WaitingLater(ps[i], acks[i], sendTick, decoded, now, FloorOn(ps[i], clock, acked), tick);
    }
  }

  lemma QueuesBelow(ps: seq<Path>, acks: seq<seq<nat>>, sendTick: seq<nat>, decoded: set<nat>, now: nat,
        clock: nat, acked: nat)
    requires Queues(ps, acks, sendTick, decoded, now, clock, acked)
    ensures |acks| == |ps| && forall i, j :: 0 <= i < |acks| && 0 <= j < |acks[i]| ==> acks[i][j] < |sendTick|
  {}

  lemma SendKeepsClock(p: Path, kind: Kind, tick: nat)
    ensures SendOn(p, kind, tick).capacity == p.capacity && SendOn(p, kind, tick).rttTicks == p.rttTicks
  {}

  /** The aggregate clock depends on capacities and round trips only. */
  lemma SameClock(ps: seq<Path>, qs: seq<Path>)
    requires |ps| == |qs| && forall i :: 0 <= i < |ps| ==>
      qs[i].capacity == ps[i].capacity && qs[i].rttTicks == ps[i].rttTicks
    ensures AggregateRtt(ps) == AggregateRtt(qs)
  {
    hide Sum;
    assert Capacities(ps) == Capacities(qs) && WeightedRtts(ps) == WeightedRtts(qs);
  }

  lemma ClockAfterSend(ps: seq<Path>, i: nat, kind: Kind, tick: nat)
    requires i < |ps|
    ensures AggregateRtt(ps[i := SendOn(ps[i], kind, tick)]) == AggregateRtt(ps)
  {
    hide SendOn, AggregateRtt;
    SendKeepsClock(ps[i], kind, tick);
    SameClock(ps, ps[i := SendOn(ps[i], kind, tick)]);
  }

  lemma RoutedSnoc(ps: seq<Path>, ss: seq<Symbol>, s: Symbol)
    requires Routed(ps, ss) && s.path < |ps|
    ensures Routed(ps, ss + [s])
  {}

  /** Nothing that was never sent is settled, so the acknowledged frontier is not past what was sent. */
  lemma FrontierBelow(frontier: nat, hist: seq<(nat, nat)>, acked: nat, sendTick: seq<nat>, settled: set<nat>,
        now: nat, next: nat)
    requires FrontiersHold(frontier, hist, acked, sendTick, settled, now) && next !in settled
    ensures acked <= next && frontier <= next
  {}

  lemma NextIsUnsettled(ss: seq<Symbol>, next: nat, decoded: set<nat>, g: set<nat>, d: nat, u: nat)
    requires Ledger(ss, next, decoded, g, d, u)
    ensures next !in decoded && next !in g && next !in decoded + g
  {}

  lemma LedgerFacts(ss: seq<Symbol>, next: nat, decoded: set<nat>, g: set<nat>, d: nat, u: nat)
    requires Ledger(ss, next, decoded, g, d, u)
    ensures Distinct(ss) && forall s :: s in ss ==> s.at < next
  {}

  // ---- the books as a whole

  datatype View = View(
    mayGiveUp: bool, paths: seq<Path>, acks: seq<seq<nat>>, symbols: seq<Symbol>, sendTick: seq<nat>,
    sourceStore: seq<seq<byte>>,
    nextSeq: nat, tick: nat, sourceDone: bool, givenUpSeqs: set<nat>, givenUp: nat,
    totalSrc: nat, totalFec: nat, totalArq: nat, cumSent: nat, cumArrived: nat, cumDecoded: nat,
    storeOccupancy: nat, latBySeq: seq<Option<real>>, frontier: nat, frontierAcked: nat, frontierHist: seq<(nat, nat)>)

  ghost predicate Accounts(v: View, decoded: set<nat>) {
    Ledger(v.symbols, v.nextSeq, decoded, v.givenUpSeqs, v.cumDecoded, v.givenUp)
  }

  /** The store holds exactly the arrived sources waiting for acknowledgement and the open losses. */
  ghost predicate Store(v: View) {
    v.storeOccupancy == Sum(Queued(v.paths)) + |Holes(v.symbols)| && v.storeOccupancy <= STORE_PER_PATH * |v.paths|
  }

  ghost predicate Feedbacks(v: View, decoded: set<nat>) {
    Queues(v.paths, v.acks, v.sendTick, decoded, v.tick, AggregateRtt(v.paths), v.frontierAcked)
  }

  ghost predicate Tallies(v: View) {
    Counts(v.paths, v.cumSent, v.cumArrived, v.totalSrc, v.totalFec, v.totalArq)
  }

  ghost predicate Latencies(v: View, decoded: set<nat>) { LatenciesMatch(v.latBySeq, decoded, v.givenUpSeqs) }

  ghost predicate Frontiers(v: View, decoded: set<nat>) {
    FrontiersHold(v.frontier, v.frontierHist, v.frontierAcked, v.sendTick, decoded + v.givenUpSeqs, v.tick)
  }

  ghost predicate Shape(v: View) {
    && v.nextSeq == |v.sendTick| == |v.sourceStore| == v.totalSrc <= NUM_SOURCE
    && (forall q :: 0 <= q < v.nextSeq ==> v.sourceStore[q] == Payload(q) && v.sendTick[q] <= v.tick)
    && (v.sourceDone <==> v.nextSeq == NUM_SOURCE)
    && (!v.mayGiveUp ==> v.givenUpSeqs == {})
    && Routed(v.paths, v.symbols)
  }

  /** The books agree with the set of decoded sources. */
  ghost predicate Books(v: View, decoded: set<nat>) {
    && Accounts(v, decoded) && Store(v) && Feedbacks(v, decoded) && Tallies(v)
    && Latencies(v, decoded) && Frontiers(v, decoded) && Shape(v)
  }

  ghost predicate Timely(v: View) { Recents(v.paths, v.tick) }

  // ---- events

  /** One correction on the wire of path i. */
  ghost function Corrected(v: View, i: nat, kind: Kind): View
    requires i < |v.paths|
  {
    v.(paths := v.paths[i := SendOn(v.paths[i], kind, v.tick)], cumSent := v.cumSent + 1,
       cumArrived := v.cumArrived + (if WireLost(v.paths[i]) then 0 else 1),
       totalFec := v.totalFec + (if kind == AsRepair then 1 else 0),
       totalArq := v.totalArq + (if kind == AsRetransmit then 1 else 0))
  }

  lemma AfterCorrection(v: View, decoded: set<nat>, i: nat, kind: Kind)
    requires Books(v, decoded) && Timely(v) && i < |v.paths| && kind != AsSource
    ensures Books(Corrected(v, i, kind), decoded) && Timely(Corrected(v, i, kind))
  {
    hide Ledger, Sum, Queued, Holes, Queues, Counts, Recents, SendOn, WireLost, LatenciesMatch, FrontiersHold, Routed,
        AggregateRtt;
    ClockAfterSend(v.paths, i, kind, v.tick);
    RoutedAfterSend(v.paths, v.symbols, i, kind, v.tick);
    QueuesAfterSend(v.paths, v.acks, v.sendTick, decoded, v.tick, AggregateRtt(v.paths), v.frontierAcked, i, kind);
    CountsAfterSend(v.paths, i, kind, v.tick, v.cumSent, v.cumArrived, v.totalSrc, v.totalFec, v.totalArq);
    QueuedAfterSend(v.paths, i, kind, v.tick);
  }

  /** Symbol i goes out again: new clock, new path. */
  ghost function Touched(v: View, i: nat, dest: nat): View
    requires i < |v.symbols|
  {
    v.(symbols := v.symbols[i := v.symbols[i].(lastRetx := v.tick, path := dest)])
  }

  lemma AfterTouch(v: View, decoded: set<nat>, i: nat, dest: nat)
    requires Books(v, decoded) && i < |v.symbols| && dest < |v.paths|
    ensures Books(Touched(v, i, dest), decoded)
  {
    hide Ledger, Sum, Queued, Holes, Queues, Counts, LatenciesMatch, FrontiersHold;
    Resent(v.symbols, i, v.tick, dest, v.nextSeq, decoded, v.givenUpSeqs, v.cumDecoded, v.givenUp);
  }

  /** What the decoder just returned is marked, released, counted and timed. */
  ghost predicate DeliversTo(v: View, w: View, rec: seq<nat>) {
    && w == v.(symbols := Marked(v.symbols, Members(rec)),
        cumDecoded := v.cumDecoded + CountOutside(rec, v.givenUpSeqs),
               storeOccupancy := w.storeOccupancy, latBySeq := w.latBySeq)
    && w.storeOccupancy + |Holes(v.symbols)| == v.storeOccupancy + |Holes(w.symbols)|
    && |w.latBySeq| == |v.latBySeq|
    && (forall q :: 0 <= q < |w.latBySeq| ==>
      (w.latBySeq[q].Some? <==> v.latBySeq[q].Some? || (q in rec && q !in v.givenUpSeqs)))
  }

  lemma AfterDelivery(v: View, w: View, decoded: set<nat>, rec: seq<nat>, after: set<nat>)
    requires Books(v, decoded) && DeliversTo(v, w, rec)
    requires Fresh(rec, decoded, after) && forall q :: q in after ==> q < v.nextSeq
    ensures Books(w, after)
  {
    hide Ledger, Sum, Queued, Holes, Queues, Counts, LatenciesMatch, FrontiersHold, Marked, Members, CountOutside,
        Fresh;
    FreshGrows(rec, decoded, after);
    LedgerAfterDecoding(v.symbols, v.nextSeq, decoded, v.givenUpSeqs, v.cumDecoded, v.givenUp, rec, after, v.nextSeq);
    DeliveredHoles(v.symbols, Members(rec), |v.paths|);
    LatenciesAfter(v.latBySeq, w.latBySeq, decoded, v.givenUpSeqs, rec, after);
    QueuesGrow(v.paths, v.acks, v.sendTick, decoded, after, v.tick, AggregateRtt(v.paths), v.frontierAcked);
    FrontiersGrow(v.frontier, v.frontierHist, v.frontierAcked, v.sendTick, [], decoded + v.givenUpSeqs,
        after + v.givenUpSeqs, v.tick);
    assert v.sendTick + [] == v.sendTick;
  }

  /** A new source goes out on path i and takes a store slot. */
  ghost function Sent(v: View, i: nat): View
    requires i < |v.paths|
  {
    var lost := WireLost(v.paths[i]);
    v.(paths := v.paths[i := SendOn(v.paths[i], AsSource, v.tick)],
       acks := if lost || i >= |v.acks| then v.acks else v.acks[i := v.acks[i] + [v.nextSeq]],
       symbols := v.symbols + [Symbol(v.tick, v.nextSeq, lost, false, v.tick, i)],
       sendTick := v.sendTick + [v.tick], sourceStore := v.sourceStore + [Payload(v.nextSeq)],
       totalSrc := v.totalSrc + 1, cumSent := v.cumSent + 1, cumArrived := v.cumArrived + (if lost then 0 else 1),
       storeOccupancy := v.storeOccupancy + 1)
  }

  ghost function Counted(v: View): View {
    v.(nextSeq := v.nextSeq + 1, sourceDone := v.nextSeq + 1 >= NUM_SOURCE)
  }

  lemma AfterLoss(v: View, decoded: set<nat>, i: nat)
    requires Books(v, decoded) && Timely(v) && i < |v.paths| && WireLost(v.paths[i])
    requires v.nextSeq < NUM_SOURCE && v.storeOccupancy < STORE_PER_PATH * |v.paths|
    ensures Books(Counted(Sent(v, i)), decoded) && Timely(Counted(Sent(v, i)))
  {
    hide Accounts, Store, Feedbacks, Tallies, Latencies, Frontiers, Shape, Recents, Sent, Counted;
    ShapeAfterSend(v, i);
    FeedbacksAfterLoss(v, decoded, i);
    AccountsAfterLoss(v, decoded, i);
    TalliesAfterSend(v, i);
    FrontiersAfterSend(v, decoded, decoded, i);
    LatenciesAfterLoss(v, decoded, i);
  }

  lemma ShapeAfterSend(v: View, i: nat)
    requires Shape(v) && i < |v.paths| && v.nextSeq < NUM_SOURCE
    ensures Shape(Counted(Sent(v, i))) && v.paths[i].rttTicks > 0 && Routed(v.paths, v.symbols)
  {
    hide SendOn, WireLost, Routed, Payload;
    RoutedAfterSend(v.paths, v.symbols, i, AsSource, v.tick);
    RoutedSnoc(v.paths[i := SendOn(v.paths[i], AsSource, v.tick)], v.symbols,
        Symbol(v.tick, v.nextSeq, WireLost(v.paths[i]), false, v.tick, i));
  }

  lemma TalliesAfterSend(v: View, i: nat)
    requires Tallies(v) && i < |v.paths|
    ensures Tallies(Counted(Sent(v, i)))
  {
    hide SendOn, WireLost, Counts;
    CountsAfterSend(v.paths, i, AsSource, v.tick, v.cumSent, v.cumArrived, v.totalSrc, v.totalFec, v.totalArq);
  }

  lemma FrontiersAfterSend(v: View, decoded: set<nat>, after: set<nat>, i: nat)
    requires Frontiers(v, decoded) && i < |v.paths| && decoded <= after
    ensures Frontiers(Counted(Sent(v, i)), after)
  {
    hide SendOn, WireLost, FrontiersHold;
    FrontiersGrow(v.frontier, v.frontierHist, v.frontierAcked, v.sendTick, [v.tick], decoded + v.givenUpSeqs,
        after + v.givenUpSeqs, v.tick);
  }

  lemma LatenciesAfterLoss(v: View, decoded: set<nat>, i: nat)
    requires Latencies(v, decoded) && i < |v.paths|
    ensures Latencies(Counted(Sent(v, i)), decoded)
  {
    hide SendOn, WireLost, LatenciesMatch;
  }

  lemma FeedbacksAfterLoss(v: View, decoded: set<nat>, i: nat)
    requires Feedbacks(v, decoded) && Timely(v) && i < |v.paths| && WireLost(v.paths[i]) && v.paths[i].rttTicks > 0
    ensures Feedbacks(Counted(Sent(v, i)), decoded) && Timely(Counted(Sent(v, i)))
  {
    hide SendOn, WireLost, Queues, Recents, AggregateRtt;
    ClockAfterSend(v.paths, i, AsSource, v.tick);
    QueuesLater(v.paths, v.acks, v.sendTick, decoded, v.tick, AggregateRtt(v.paths), v.frontierAcked, v.tick);
    QueuesAfterSend(v.paths, v.acks, v.sendTick + [v.tick], decoded, v.tick, AggregateRtt(v.paths), v.frontierAcked, i,
        AsSource);
  }

  lemma AccountsAfterLoss(v: View, decoded: set<nat>, i: nat)
    requires Accounts(v, decoded) && Store(v) && i < |v.paths| && WireLost(v.paths[i])
      && v.storeOccupancy < STORE_PER_PATH * |v.paths|
    ensures Accounts(Counted(Sent(v, i)), decoded) && Store(Counted(Sent(v, i)))
  {
    hide SendOn, WireLost, Ledger, Holes, Sum, Queued;
    QueuedAfterSource(v.paths, i, v.tick);
    LedgerAfterLoss(v.symbols, v.nextSeq, decoded, v.givenUpSeqs, v.cumDecoded, v.givenUp,
        Symbol(v.tick, v.nextSeq, true, false, v.tick, i));
  }

  lemma AfterArrival(v: View, w: View, decoded: set<nat>, i: nat, rec: seq<nat>, after: set<nat>)
    requires Books(v, decoded) && Timely(v) && i < |v.paths| && !WireLost(v.paths[i])
    requires v.nextSeq < NUM_SOURCE && v.storeOccupancy < STORE_PER_PATH * |v.paths|
    requires DeliversTo(Sent(v, i), w, rec)
    requires Fresh(rec, decoded, after) && v.nextSeq in after && forall q :: q in after ==> q < v.nextSeq + 1
    ensures Books(Counted(w), after) && Timely(Counted(w))
  {
    hide Accounts, Store, Feedbacks, Tallies, Latencies, Frontiers, Shape, Timely, Sent, Counted, Fresh, DeliversTo,
        WireLost;
    FreshGrows(rec, decoded, after);
    ShapeAfterSend(v, i);
    NextSent(v);
    FeedbackAfterArrival(v, decoded, i, after);
    TalliesAfterSend(v, i);
    FrontiersAfterSend(v, decoded, after, i);
    DeliveryLeaves(Sent(v, i), w, rec, after);
    AccountsAfterArrival(v, w, decoded, i, rec, after);
    LatenciesAfterArrival(v, w, decoded, i, rec, after);
  }

  lemma NextSent(v: View)
    requires Shape(v)
    ensures v.nextSeq == |v.sendTick|
  {}

  /** A delivery touches only the symbols, the store, the latencies and the decoded count. */
  lemma DeliveryLeaves(u: View, w: View, rec: seq<nat>, after: set<nat>)
    requires DeliversTo(u, w, rec)
    ensures Tallies(Counted(u)) ==> Tallies(Counted(w))
    ensures Frontiers(Counted(u), after) ==> Frontiers(Counted(w), after)
    ensures Feedbacks(Counted(u), after) ==> Feedbacks(Counted(w), after)
    ensures Shape(Counted(u)) ==> Shape(Counted(w))
    ensures Timely(u) ==> Timely(Counted(w))
  {
    hide Counts, FrontiersHold, Queues, Routed, Recents, Marked, Members, CountOutside, Holes, Payload;
    if Shape(Counted(u)) {
      RoutedMarked(u.paths, u.symbols, Members(rec));
    }
  }

  lemma AccountsAfterArrival(v: View, w: View, decoded: set<nat>, i: nat, rec: seq<nat>, after: set<nat>)
    requires Accounts(v, decoded) && Store(v) && Routed(v.paths, v.symbols) && i < |v.paths| && !WireLost(v.paths[i])
    requires v.storeOccupancy < STORE_PER_PATH * |v.paths| && DeliversTo(Sent(v, i), w, rec)
    requires Fresh(rec, decoded, after) && v.nextSeq in after && forall q :: q in after ==> q < v.nextSeq + 1
    ensures Accounts(Counted(w), after) && Store(Counted(w))
  {
    hide SendOn, WireLost, Ledger, Holes, Sum, Queued, Marked, Members, CountOutside, Fresh, Routed;
    var s := Symbol(v.tick, v.nextSeq, false, false, v.tick, i);
    QueuedAfterSource(v.paths, i, v.tick);
    LedgerAfterArrival(v.symbols, v.nextSeq, decoded, v.givenUpSeqs, v.cumDecoded, v.givenUp, s, rec, after);
    RoutedSnoc(v.paths, v.symbols, s);
    RoutedMarked(v.paths, v.symbols + [s], Members(rec));
  }

  lemma LatenciesAfterArrival(v: View, w: View, decoded: set<nat>, i: nat, rec: seq<nat>, after: set<nat>)
    requires Latencies(v, decoded) && i < |v.paths| && DeliversTo(Sent(v, i), w, rec) && Fresh(rec, decoded, after)
    ensures Latencies(Counted(w), after)
  {
    hide SendOn, WireLost, LatenciesMatch, Marked, Members, CountOutside, Fresh, Holes;
    LatenciesAfter(v.latBySeq, w.latBySeq, decoded, v.givenUpSeqs, rec, after);
  }

  lemma RoutedMarked(ps: seq<Path>, ss: seq<Symbol>, qs: set<nat>)
    requires Routed(ps, ss)
    ensures Routed(ps, Marked(ss, qs)) && |Holes(Marked(ss, qs))| <= |Holes(ss)|
  {
    DeliveredHoles(ss, qs, |ps|);
  }

  lemma FeedbackAfterArrival(v: View, decoded: set<nat>, i: nat, after: set<nat>)
    requires Feedbacks(v, decoded) && Frontiers(v, decoded) && Accounts(v, decoded) && Timely(v) && i < |v.paths|
      && !WireLost(v.paths[i])
    requires decoded <= after && v.nextSeq in after && v.nextSeq == |v.sendTick| && v.paths[i].rttTicks > 0
    ensures Feedbacks(Counted(Sent(v, i)), after) && Timely(Sent(v, i))
  {
    hide Ledger, Sum, Queued, Holes, Queues, Recents, SendOn, WireLost, FrontiersHold, AggregateRtt;
    ClockAfterSend(v.paths, i, AsSource, v.tick);
    NextIsUnsettled(v.symbols, v.nextSeq, decoded, v.givenUpSeqs, v.cumDecoded, v.givenUp);
    FrontierBelow(v.frontier, v.frontierHist, v.frontierAcked, v.sendTick, decoded + v.givenUpSeqs, v.tick, v.nextSeq);
    QueuesBelow(v.paths, v.acks, v.sendTick, decoded, v.tick, AggregateRtt(v.paths), v.frontierAcked);
    QueuesGrow(v.paths, v.acks, v.sendTick, decoded, after, v.tick, AggregateRtt(v.paths), v.frontierAcked);
    QueuesLater(v.paths, v.acks, v.sendTick, after, v.tick, AggregateRtt(v.paths), v.frontierAcked, v.tick);
    assert (v.sendTick + [v.tick])[v.nextSeq] == v.tick;
    QueuesAfterArrival(v.paths, v.acks, v.sendTick + [v.tick], after, v.tick, AggregateRtt(v.paths), v.frontierAcked,
        i, v.nextSeq);
  }

  lemma FreshGrows(rec: seq<nat>, before: set<nat>, after: set<nat>)
    requires Fresh(rec, before, after)
    ensures before <= after
  {}

  lemma BooksBounds(v: View, decoded: set<nat>)
    requires Books(v, decoded)
    ensures Distinct(v.symbols) && v.storeOccupancy >= |Holes(v.symbols)|
    ensures v.nextSeq <= NUM_SOURCE && (v.sourceDone <==> v.nextSeq == NUM_SOURCE)
    ensures |v.acks| == |v.paths| > 0
  {}

  lemma BooksCapacities(v: View, decoded: set<nat>)
    requires Books(v, decoded)
    ensures forall i :: 0 <= i < |v.paths| ==> v.paths[i].capacity > 0
  {}

  lemma BooksCarry(v: View, decoded: set<nat>)
    requires Books(v, decoded)
    ensures |v.acks| == |v.paths| && forall i :: 0 <= i < |v.paths| ==>
      Carries(v.paths[i].feedback, v.acks[i], v.sendTick)
  {
    hide Carries;
  }

  lemma BooksRouted(v: View, decoded: set<nat>)
    requires Books(v, decoded)
    ensures v.paths != [] && forall s :: s in v.symbols ==> s.path < |v.paths|
  {}

  lemma BooksLatencies(v: View, decoded: set<nat>)
    requires Books(v, decoded)
    ensures |v.latBySeq| == NUM_SOURCE
    ensures forall q :: 0 <= q < NUM_SOURCE ==> (v.latBySeq[q].Some? <==> q in decoded && q !in v.givenUpSeqs)
  {}

  lemma SentBounds(v: View, decoded: set<nat>, i: nat)
    requires Books(v, decoded) && i < |v.paths| && !WireLost(v.paths[i])
    ensures Distinct(Sent(v, i).symbols) && Sent(v, i).storeOccupancy >= |Holes(Sent(v, i).symbols)|
  {
    hide Sum, Queued, Holes, Queues, Counts, LatenciesMatch, FrontiersHold, WireLost, SendOn;
    var s := Symbol(v.tick, v.nextSeq, false, false, v.tick, i);
    HolesSnoc(v.symbols, s);
    DistinctSnoc(v.symbols, s);
  }

  lemma StoredPayload(v: View, decoded: set<nat>, i: nat)
    requires Books(v, decoded) && i < |v.symbols| && Open(v.symbols[i])
    ensures v.symbols[i].at !in decoded && v.symbols[i].at < v.nextSeq == |v.sourceStore|
    ensures v.sourceStore[v.symbols[i].at] == Payload(v.symbols[i].at)
  {
    hide Sum, Queued, Queues, Counts, LatenciesMatch, FrontiersHold;
    HoleIsUndecoded(v.symbols, i, v.nextSeq, decoded, v.givenUpSeqs, v.cumDecoded, v.givenUp);
  }

  // ---- feedback

  /** The overdue entries at the front of a queue are gone, with the acknowledgements they carried. */
  ghost predicate Drained(p: Path, q: Path, ids: seq<nat>, left: seq<nat>, sendTick: seq<nat>, now: nat) {
    && q == p.(feedback := q.feedback)
    && |q.feedback| <= |p.feedback| && q.feedback == p.feedback[|p.feedback| - |q.feedback|..]
    && |left| <= |ids| && left == ids[|ids| - |left|..] && Carries(q.feedback, left, sendTick)
    && (q.feedback != [] ==> Less(now, q.feedback[0].tick) < q.rttTicks)
    && forall i :: 0 <= i < |p.feedback| - |q.feedback| ==> Less(now, p.feedback[i].tick) >= p.rttTicks
  }

  lemma DrainedWaiting(p: Path, q: Path, ids: seq<nat>, left: seq<nat>, sendTick: seq<nat>, decoded: set<nat>,
        now: nat, floor: nat)
    requires Drained(p, q, ids, left, sendTick, now) && Waiting(p, ids, sendTick, decoded, now, floor)
    ensures Waiting(q, left, sendTick, decoded, now, floor) && Recent(q, now)
  {
    hide Carries;
    var d, e := |p.feedback| - |q.feedback|, |ids| - |left|;
    assert forall i :: 0 <= i < |q.feedback| ==> q.feedback[i] == p.feedback[d + i];
    assert forall i :: 0 <= i < |left| ==> left[i] == ids[e + i];
  }

  ghost predicate AllDrained(ps: seq<Path>, qs: seq<Path>, acks: seq<seq<nat>>, left: seq<seq<nat>>,
        sendTick: seq<nat>, now: nat) {
    && |ps| == |qs| == |acks| == |left|
    && forall i :: 0 <= i < |ps| ==> Drained(ps[i], qs[i], acks[i], left[i], sendTick, now)
  }

  /** Acknowledged sources leave the queues and release exactly their slots: the subtraction never stops at zero. */
  lemma AfterFeedback(v: View, decoded: set<nat>, qs: seq<Path>, left: seq<seq<nat>>, released: nat)
    requires Books(v, decoded) && AllDrained(v.paths, qs, v.acks, left, v.sendTick, v.tick)
    requires released + Sum(Queued(qs)) == Sum(Queued(v.paths))
    ensures var w := v.(paths := qs, acks := left, storeOccupancy := Less(v.storeOccupancy, released));
      Books(w, decoded) && Timely(w) && w.storeOccupancy + released == v.storeOccupancy
  {
    hide Ledger, Sum, Queued, Holes, Waiting, LatenciesMatch, FrontiersHold, Recent, AggregateRtt, Separate;
    SameClock(v.paths, qs);
    SeparateSuffixes(v.acks, left);
    var clock := AggregateRtt(v.paths);
    forall i | 0 <= i < |qs|
      ensures Waiting(qs[i], left[i], v.sendTick, decoded, v.tick, FloorOn(qs[i], clock, v.frontierAcked))
        && Recent(qs[i], v.tick)
    {
      DrainedWaiting(v.paths[i], qs[i], v.acks[i], left[i], v.sendTick, decoded, v.tick,
          FloorOn(qs[i], clock, v.frontierAcked));
    }
    SameCounters(v.paths, qs, v.cumSent, v.cumArrived, v.totalSrc, v.totalFec, v.totalArq);
  }

  /** Counters do not depend on queues or striping credit. */
  lemma SameCounters(ps: seq<Path>, qs: seq<Path>, cumSent: nat, cumArrived: nat, src: nat, fec: nat, arq: nat)
    requires Counts(ps, cumSent, cumArrived, src, fec, arq) && |ps| == |qs|
    requires forall i :: 0 <= i < |ps| ==>
      qs[i] == ps[i].(feedback := qs[i].feedback, stripeCredit := qs[i].stripeCredit)
    ensures Counts(qs, cumSent, cumArrived, src, fec, arq)
  {
    hide Sum;
    assert Sents(qs) == Sents(ps) && Arriveds(qs) == Arriveds(ps);
  }

  // ---- striping credit

  ghost predicate CreditOnly(ps: seq<Path>, qs: seq<Path>) {
    |qs| == |ps| && forall i :: 0 <= i < |ps| ==> qs[i] == ps[i].(stripeCredit := qs[i].stripeCredit)
  }

  lemma AfterCredit(v: View, decoded: set<nat>, qs: seq<Path>)
    requires Books(v, decoded) && Timely(v) && CreditOnly(v.paths, qs)
    ensures Books(v.(paths := qs), decoded) && Timely(v.(paths := qs))
  {
    hide Ledger, Sum, Holes, LatenciesMatch, FrontiersHold, Carries, SourceAcks, InOrder, Increasing, AggregateRtt,
        Separate;
    SameClock(v.paths, qs);
    SameCounters(v.paths, qs, v.cumSent, v.cumArrived, v.totalSrc, v.totalFec, v.totalArq);
    assert Queued(qs) == Queued(v.paths);
  }

  // ---- giving up and acknowledging

  /** Open symbol i is given up: closed, counted, remembered, and its slot released. */
  ghost function GaveUp(v: View, i: nat): View
    requires i < |v.symbols|
  {
    v.(symbols := v.symbols[i := v.symbols[i].(recovered := true)], givenUp := v.givenUp + 1,
       givenUpSeqs := v.givenUpSeqs + {v.symbols[i].at}, storeOccupancy := Less(v.storeOccupancy, 1))
  }

  lemma AfterGivingUp(v: View, decoded: set<nat>, i: nat)
    requires Books(v, decoded) && Timely(v) && i < |v.symbols| && Open(v.symbols[i]) && v.mayGiveUp
    ensures Books(GaveUp(v, i), decoded) && Timely(GaveUp(v, i)) && GaveUp(v, i).storeOccupancy + 1 == v.storeOccupancy
  {
    hide Ledger, Sum, Queued, Holes, Queues, Counts, Recents;
    var q := v.symbols[i].at;
    HoleIsUndecoded(v.symbols, i, v.nextSeq, decoded, v.givenUpSeqs, v.cumDecoded, v.givenUp);
    LedgerAfterGivingUp(v.symbols, v.nextSeq, decoded, v.givenUpSeqs, v.cumDecoded, v.givenUp, i);
    assert decoded + (v.givenUpSeqs + {q}) == (decoded + v.givenUpSeqs) + {q};
    FrontiersGrow(v.frontier, v.frontierHist, v.frontierAcked, v.sendTick, [], decoded + v.givenUpSeqs,
        decoded + (v.givenUpSeqs + {q}), v.tick);
    assert v.sendTick + [] == v.sendTick;
  }

  /** Symbols that keep their place, path and openness keep the books. */
  lemma AfterMarking(v: View, decoded: set<nat>, after: seq<Symbol>)
    requires Books(v, decoded) && Timely(v) && |after| == |v.symbols|
    requires forall i :: 0 <= i < |after| ==>
      after[i].at == v.symbols[i].at && after[i].path == v.symbols[i].path && (Open(after[i]) <==> Open(v.symbols[i]))
    ensures Books(v.(symbols := after), decoded) && Timely(v.(symbols := after))
  {
    hide Ledger, Holes, Open, Routed, Queues, Counts, LatenciesMatch, FrontiersHold, Recents, Sum, Queued;
    SameRoutes(v.paths, v.symbols, after);
    SameLedger(v.symbols, after, v.nextSeq, decoded, v.givenUpSeqs, v.cumDecoded, v.givenUp);
  }

  lemma SameLedger(ss: seq<Symbol>, after: seq<Symbol>, next: nat, decoded: set<nat>, g: set<nat>, d: nat, u: nat)
    requires Ledger(ss, next, decoded, g, d, u) && |after| == |ss|
    requires forall i :: 0 <= i < |after| ==> after[i].at == ss[i].at && (Open(after[i]) <==> Open(ss[i]))
    ensures Ledger(after, next, decoded, g, d, u) && Holes(after) == Holes(ss)
  {
    hide Holes, Open, Distinct, Upto;
    SameHoles(ss, after, next);
    LedgerKept(ss, after, next, decoded, g, d, u);
  }

  lemma SameRoutes(ps: seq<Path>, ss: seq<Symbol>, after: seq<Symbol>)
    requires Routed(ps, ss) && |after| == |ss| && forall i :: 0 <= i < |after| ==> after[i].path == ss[i].path
    ensures Routed(ps, after)
  {
    forall s | s in after
      ensures s.path < |ps|
    {
      var i :| 0 <= i < |after| && after[i] == s;
      assert ss[i] in ss;
    }
  }

  lemma FewerRoutes(ps: seq<Path>, ss: seq<Symbol>, after: seq<Symbol>)
    requires Routed(ps, ss) && forall s :: s in after ==> s in ss
    ensures Routed(ps, after)
  {}

  /** The open symbols and those sent in the last ten ticks, in order. */
  function Retained(ss: seq<Symbol>, tick: nat): seq<Symbol> {
    if ss == [] then []
    else
      var s := ss[|ss| - 1];
      Retained(ss[..|ss| - 1], tick) + (if Open(s) || Less(tick, s.tick) < 10 then [s] else [])
  }

  lemma {:induction false} RetainedKeeps(ss: seq<Symbol>, tick: nat)
    requires Distinct(ss)
    ensures Distinct(Retained(ss, tick)) && Holes(Retained(ss, tick)) == Holes(ss)
    ensures forall s :: s in Retained(ss, tick) ==> s in ss
  {
    hide Holes, Open;
    if ss != [] {
      var init, s := ss[..|ss| - 1], ss[|ss| - 1];
      assert ss == init + [s];
      assert Distinct(init);
      RetainedKeeps(init, tick);
      var r := Retained(init, tick);
      HolesSnoc(init, s);
      HolesSnoc(r, s);
      forall i | 0 <= i < |r|
        ensures r[i].at != s.at
      {
        assert r[i] in init;
        var j :| 0 <= j < |init| && init[j] == r[i];
        assert ss[j].at != s.at;
      }
      assert Retained(ss, tick) == if Open(s) || Less(tick, s.tick) < 10 then r + [s] else r;
    }
  }

  lemma AfterPruning(v: View, decoded: set<nat>, tick: nat)
    requires Books(v, decoded)
    ensures Books(v.(symbols := Retained(v.symbols, tick)), decoded)
  {
    hide Ledger, Sum, Queued, Holes, Queues, Counts, LatenciesMatch, FrontiersHold, Retained, Distinct, Routed;
    LedgerFacts(v.symbols, v.nextSeq, decoded, v.givenUpSeqs, v.cumDecoded, v.givenUp);
    RetainedKeeps(v.symbols, tick);
    FewerRoutes(v.paths, v.symbols, Retained(v.symbols, tick));
    LedgerKept(v.symbols, Retained(v.symbols, tick), v.nextSeq, decoded, v.givenUpSeqs, v.cumDecoded, v.givenUp);
  }

  lemma AfterTick(v: View, decoded: set<nat>)
    requires Books(v, decoded)
    ensures Books(v.(tick := v.tick + 1), decoded)
  {
    hide Ledger, Sum, Queued, Holes, Queues, Counts, LatenciesMatch;
    QueuesLater(v.paths, v.acks, v.sendTick, decoded, v.tick, AggregateRtt(v.paths), v.frontierAcked, 0);
  }

  // ---- the frontier

  lemma FrontierStep(v: View, decoded: set<nat>)
    requires Books(v, decoded) && v.frontier < |v.latBySeq|
      && (v.latBySeq[v.frontier].Some? || v.frontier in v.givenUpSeqs)
    ensures Books(v.(frontier := v.frontier + 1), decoded)
  {
    hide Ledger, Sum, Queued, Holes, Queues, Counts;
  }

  /** Every source sent is waiting no longer than its send tick. */
  lemma FrontierWasSent(v: View, decoded: set<nat>)
    requires Books(v, decoded)
    ensures v.frontier <= v.nextSeq == |v.sendTick| && v.frontierAcked <= v.nextSeq
    ensures forall q :: 0 <= q < v.nextSeq ==> v.sendTick[q] <= v.tick
  {
    hide Sum, Queued, Holes, Queues, Counts, LatenciesMatch;
    NextIsUnsettled(v.symbols, v.nextSeq, decoded, v.givenUpSeqs, v.cumDecoded, v.givenUp);
    FrontierBelow(v.frontier, v.frontierHist, v.frontierAcked, v.sendTick, decoded + v.givenUpSeqs, v.tick, v.nextSeq);
  }

  lemma FrontierRecorded(frontier: nat, hist: seq<(nat, nat)>, acked: nat, sendTick: seq<nat>, settled: set<nat>,
        now: nat)
    requires FrontiersHold(frontier, hist, acked, sendTick, settled, now)
    requires frontier <= |sendTick| && forall q :: 0 <= q < |sendTick| ==> sendTick[q] <= now
    ensures FrontiersHold(frontier, hist + [(now, frontier)], acked, sendTick, settled, now)
  {
    var h := hist + [(now, frontier)];
    forall i, q | 0 <= i < |h| && 0 <= q < h[i].1
      ensures q in settled && q < |sendTick| && sendTick[q] <= h[i].0
    {
      if i < |hist| {
        assert h[i] == hist[i];
      }
    }
  }

  lemma AfterRecording(v: View, decoded: set<nat>)
    requires Books(v, decoded)
    ensures Books(v.(frontierHist := v.frontierHist + [(v.tick, v.frontier)]), decoded)
  {
    hide Ledger, Sum, Queued, Holes, Queues, Counts, LatenciesMatch, Routed, FrontiersHold;
    FrontierWasSent(v, decoded);
    FrontierRecorded(v.frontier, v.frontierHist, v.frontierAcked, v.sendTick, decoded + v.givenUpSeqs, v.tick);
  }

  lemma AfterForgetting(v: View, decoded: set<nat>)
    requires Books(v, decoded) && v.frontierHist != []
    ensures Books(v.(frontierHist := v.frontierHist[1..]), decoded)
  {
    hide Ledger, Sum, Queued, Holes, Queues, Counts, LatenciesMatch, Routed;
    var h := v.frontierHist[1..];
    assert forall i :: 0 <= i < |h| ==> h[i] == v.frontierHist[i + 1];
  }

  /**
   * On a path no slower than the aggregate clock, whatever is still unacknowledged was sent after any frontier a
   * round trip old.
   */
  lemma WaitingAbove(p: Path, ids: seq<nat>, sendTick: seq<nat>, decoded: set<nat>, now: nat, floor: nat, t: nat,
        f: nat)
    requires Waiting(p, ids, sendTick, decoded, now, floor) && Recent(p, now) && t + p.rttTicks <= now
    requires f <= |sendTick| && forall q :: 0 <= q < f ==> sendTick[q] <= t
    ensures Waiting(p, ids, sendTick, decoded, now, f)
  {
    CarriesRecent(p.feedback, ids, sendTick, t + 1);
  }

  /** The sender learns the frontier as it was one aggregate round trip ago. */
  lemma AfterAcknowledging(v: View, decoded: set<nat>)
    requires Books(v, decoded) && Timely(v) && v.frontierHist != []
      && v.frontierHist[0].0 + AggregateRtt(v.paths) <= v.tick
    ensures Books(v.(frontierAcked := v.frontierHist[0].1), decoded)
  {
    hide Ledger, Sum, Queued, Holes, Counts, LatenciesMatch, Waiting, AggregateRtt, Recent, Separate;
    var (t, f) := v.frontierHist[0];
    var clock := AggregateRtt(v.paths);
    forall i | 0 <= i < |v.paths|
      ensures Waiting(v.paths[i], v.acks[i], v.sendTick, decoded, v.tick, FloorOn(v.paths[i], clock, f))
    {
      if v.paths[i].rttTicks <= clock {
        WaitingAbove(v.paths[i], v.acks[i], v.sendTick, decoded, v.tick, v.frontierAcked, t, f);
      }
    }
  }

  // ---- what the books say

  lemma LedgerSettled(ss: seq<Symbol>, next: nat, decoded: set<nat>, g: set<nat>, d: nat, u: nat)
    requires Ledger(ss, next, decoded, g, d, u)
    ensures Holes(ss) == {} <==> decoded + g == Upto(next)
    ensures d + u >= next <==> Holes(ss) == {}
  {
    hide Upto, Holes;
    Conservation(ss, next, decoded, g, d, u);
    assert Holes(ss) == {} <==> Upto(next) <= decoded + g;
  }

  lemma LedgerPartition(ss: seq<Symbol>, next: nat, decoded: set<nat>, g: set<nat>, d: nat, u: nat)
    requires Ledger(ss, next, decoded, g, d, u)
    ensures decoded + g + Holes(ss) == Upto(next) && (decoded + g) !! Holes(ss)
    ensures d == |decoded - g| && u == |g|
  {
    hide Upto, Holes, Distinct;
  }

  lemma NothingOpen(ss: seq<Symbol>)
    ensures (forall s :: s in ss ==> !Open(s)) <==> Holes(ss) == {}
  {
    hide Open;
    forall s | s in ss && Open(s)
      ensures s.at in Holes(ss)
    {}
  }

  /** With every source sent, the counters reach the total exactly when nothing is open. */
  lemma AllSettled(v: View, decoded: set<nat>)
    requires Books(v, decoded)
    ensures v.sourceDone ==> (v.cumDecoded + v.givenUp >= NUM_SOURCE <==> decoded + v.givenUpSeqs == Upto(NUM_SOURCE))
    ensures v.sourceDone ==>
      ((forall s :: s in v.symbols ==> !Open(s)) <==> decoded + v.givenUpSeqs == Upto(NUM_SOURCE))
  {
    hide Ledger, Queues, Counts, LatenciesMatch, FrontiersHold, Routed, Sum, Queued, Upto, Holes;
    LedgerSettled(v.symbols, v.nextSeq, decoded, v.givenUpSeqs, v.cumDecoded, v.givenUp);
    NothingOpen(v.symbols);
  }

  lemma {:induction false} SeqSetSize(ids: seq<nat>)
    requires Increasing(ids)
    ensures |Members(ids)| == |ids|
  {
    MembersSnoc([], 0);
    if ids != [] {
      var init, q := ids[..|ids| - 1], ids[|ids| - 1];
      SeqSetSize(init);
      assert ids == init + [q];
      MembersSnoc(init, q);
    }
  }

  /** Delivered, given up and open account for every source sent, and the store never outgrows its pool. */
  lemma BooksBalance(v: View, decoded: set<nat>)
    requires Books(v, decoded)
    ensures v.cumDecoded + v.givenUp + |Holes(v.symbols)| == v.nextSeq == v.totalSrc
    ensures v.storeOccupancy == Sum(Queued(v.paths)) + |Holes(v.symbols)| <= STORE_PER_PATH * |v.paths|
    ensures v.cumSent == v.totalSrc + v.totalFec + v.totalArq
  {
    Conservation(v.symbols, v.nextSeq, decoded, v.givenUpSeqs, v.cumDecoded, v.givenUp);
  }

  /** How many source acknowledgements wait on paths slower than the aggregate clock. */
  function SlowQueued(ps: seq<Path>, clock: nat): seq<nat> {
    seq(|ps|, i requires 0 <= i < |ps| => if ps[i].rttTicks <= clock then 0 else SourceAcks(ps[i].feedback))
  }

  /** The sources that wait on the first n paths, those slower than the clock left out. */
  ghost function PromptlyWaiting(ps: seq<Path>, acks: seq<seq<nat>>, clock: nat, n: nat): set<nat>
    requires n <= |ps| == |acks|
  {
    if n == 0 then {}
    else PromptlyWaiting(ps, acks, clock, n - 1) + (if ps[n - 1].rttTicks <= clock then Members(acks[n - 1]) else {})
  }

  lemma SumPrefix(s: seq<nat>, n: nat)
    requires n < |s|
    ensures Sum(s[..n + 1]) == Sum(s[..n]) + s[n]
  {
    assert s[..n + 1][..n] == s[..n];
  }

  lemma NotTwice(acks: seq<seq<nat>>, i: nat, k: nat, q: nat)
    requires Separate(acks) && i < k < |acks| && q in acks[i]
    ensures q !in acks[k]
  {}

  /** Nothing that waits on an earlier path waits on path k. */
  lemma NotAgain(acks: seq<seq<nat>>, k: nat, before: set<nat>)
    requires Separate(acks) && k < |acks| && forall q :: q in before ==> exists i :: 0 <= i < k && q in acks[i]
    ensures before !! Members(acks[k])
  {
    hide Separate;
    forall q | q in before
      ensures q !in acks[k]
    {
      var i :| 0 <= i < k && q in acks[i];
      NotTwice(acks, i, k, q);
    }
  }

  lemma {:induction false} PromptlyWaitingAmong(ps: seq<Path>, acks: seq<seq<nat>>, clock: nat, n: nat)
    requires n <= |ps| == |acks|
    ensures forall q :: q in PromptlyWaiting(ps, acks, clock, n) <==>
      exists i :: 0 <= i < n && ps[i].rttTicks <= clock && q in acks[i]
  {
    if n > 0 {
      PromptlyWaitingAmong(ps, acks, clock, n - 1);
    }
  }

  lemma {:induction false} PromptlyWaitingCount(ps: seq<Path>, acks: seq<seq<nat>>, clock: nat, n: nat)
    requires n <= |ps| == |acks| && Separate(acks)
    requires forall i :: 0 <= i < |ps| ==> |Members(acks[i])| == SourceAcks(ps[i].feedback)
    ensures Sum(Queued(ps)[..n]) == |PromptlyWaiting(ps, acks, clock, n)| + Sum(SlowQueued(ps, clock)[..n])
  {
    hide SourceAcks, Separate, Sum, Members;
    if n > 0 {
      var k := n - 1;
      PromptlyWaitingCount(ps, acks, clock, k);
      SumPrefix(Queued(ps), k);
      SumPrefix(SlowQueued(ps, clock), k);
      if ps[k].rttTicks <= clock {
        PromptlyWaitingAmong(ps, acks, clock, k);
        NotAgain(acks, k, PromptlyWaiting(ps, acks, clock, k));
      }
    }
  }

  /** What waits promptly lies above the acknowledged frontier, and every queue holds as many as it counts. */
  lemma WaitingSets(ps: seq<Path>, acks: seq<seq<nat>>, sendTick: seq<nat>, decoded: set<nat>, now: nat, clock: nat,
        acked: nat)
    requires Queues(ps, acks, sendTick, decoded, now, clock, acked)
    ensures |ps| == |acks| && Separate(acks)
    ensures forall i :: 0 <= i < |ps| ==> |Members(acks[i])| == SourceAcks(ps[i].feedback)
    ensures forall q :: q in PromptlyWaiting(ps, acks, clock, |ps|) ==> acked <= q < |sendTick| && q in decoded
  {
    PromptlyWaitingAmong(ps, acks, clock, |ps|);
    hide Separate, Waiting, SourceAcks;
    forall i | 0 <= i < |ps|
      ensures |Members(acks[i])| == SourceAcks(ps[i].feedback)
      ensures ps[i].rttTicks <= clock ==> forall q :: q in acks[i] ==> acked <= q < |sendTick| && q in decoded
    {
      WaitingSet(ps[i], acks[i], sendTick, decoded, now, FloorOn(ps[i], clock, acked), |sendTick|);
      assert forall q :: q in acks[i] ==> q in Members(acks[i]);
    }
  }

  /**
   * The store never holds more than what lies above the acknowledged frontier and what waits on paths slower than
   * the aggregate clock.
   */
  lemma OccupancyAboveFrontier(v: View, decoded: set<nat>)
    requires Books(v, decoded)
    ensures v.storeOccupancy + v.frontierAcked <= v.nextSeq + Sum(SlowQueued(v.paths, AggregateRtt(v.paths)))
  {
    hide Counts, LatenciesMatch, Routed, FrontiersHold, Holes, Upto, Ledger, Queues, Sum, Queued, AggregateRtt,
        SlowQueued, Separate, Members, SourceAcks;
    var clock := AggregateRtt(v.paths);
    QueuesBelow(v.paths, v.acks, v.sendTick, decoded, v.tick, clock, v.frontierAcked);
    var ids := PromptlyWaiting(v.paths, v.acks, clock, |v.paths|);
    FrontierWasSent(v, decoded);
    WaitingSets(v.paths, v.acks, v.sendTick, decoded, v.tick, clock, v.frontierAcked);
    PromptlyWaitingCount(v.paths, v.acks, clock, |v.paths|);
    AllOf(Queued(v.paths));
    SlowCount(v.paths, clock);
    HolesAbove(v, decoded);
    DisjointFit(ids, Holes(v.symbols), v.frontierAcked, v.nextSeq);
  }

  ghost function LongestRtt(ps: seq<Path>): (r: nat)
    ensures forall i :: 0 <= i < |ps| ==> ps[i].rttTicks <= r
  {
    if ps == [] then 0 else Max(LongestRtt(ps[..|ps| - 1]), ps[|ps| - 1].rttTicks)
  }

  lemma WithoutFloor(ps: seq<Path>, acks: seq<seq<nat>>, sendTick: seq<nat>, decoded: set<nat>, now: nat, clock: nat,
        acked: nat, other: nat)
    requires Queues(ps, acks, sendTick, decoded, now, clock, acked)
    ensures Queues(ps, acks, sendTick, decoded, now, other, 0)
  {
    hide InOrder, Carries, Increasing, Separate;
  }

  /** Waiting sources and open losses are different sources, all of them sent. */
  lemma OccupancyAtMostSent(v: View, decoded: set<nat>)
    requires Books(v, decoded)
    ensures v.storeOccupancy <= v.nextSeq
  {
    hide Counts, LatenciesMatch, Routed, FrontiersHold, Holes, Upto, Ledger, Queues, Sum, Queued, AggregateRtt,
        SlowQueued, Separate, Members, SourceAcks, LongestRtt;
    var clock := LongestRtt(v.paths);
    WithoutFloor(v.paths, v.acks, v.sendTick, decoded, v.tick, AggregateRtt(v.paths), v.frontierAcked, clock);
    WaitingSets(v.paths, v.acks, v.sendTick, decoded, v.tick, clock, 0);
    var ids := PromptlyWaiting(v.paths, v.acks, clock, |v.paths|);
    PromptlyWaitingCount(v.paths, v.acks, clock, |v.paths|);
    AllOf(Queued(v.paths));
    SlowCount(v.paths, clock);
    NothingSlow(v.paths, clock);
    HolesAbove(v, decoded);
    DisjointFit(ids, Holes(v.symbols), 0, v.nextSeq);
  }

  lemma AllOf(s: seq<nat>)
    ensures s[..|s|] == s
  {}

  lemma SlowCount(ps: seq<Path>, clock: nat)
    ensures |SlowQueued(ps, clock)| == |ps| == |Queued(ps)| && SlowQueued(ps, clock)[..|ps|] == SlowQueued(ps, clock)
  {}

  /** With no path slower than the aggregate clock nothing waits on one. */
  lemma NothingSlow(ps: seq<Path>, clock: nat)
    requires forall i :: 0 <= i < |ps| ==> ps[i].rttTicks <= clock
    ensures Sum(SlowQueued(ps, clock)) == 0
  {
    SumOfZeros(SlowQueued(ps, clock));
  }

  lemma HolesAbove(v: View, decoded: set<nat>)
    requires Accounts(v, decoded) && Frontiers(v, decoded)
    ensures forall q :: q in Holes(v.symbols) ==> v.frontierAcked <= q < v.nextSeq && q !in decoded
  {
    hide Holes;
    forall q | q in Holes(v.symbols)
      ensures v.frontierAcked <= q < v.nextSeq && q !in decoded
    {
      assert q !in decoded + v.givenUpSeqs;
    }
  }

  lemma DisjointFit(a: set<nat>, b: set<nat>, lo: nat, hi: nat)
    requires a !! b && lo <= hi && forall q :: q in a || q in b ==> lo <= q < hi
    ensures |a| + |b| + lo <= hi
  {
    hide Upto;
    UptoSize(lo);
    UptoSize(hi);
    SubsetSize(Upto(lo) + (a + b), Upto(hi));
    assert Upto(lo) !! (a + b);
  }

  lemma WaitingSet(p: Path, ids: seq<nat>, sendTick: seq<nat>, decoded: set<nat>, now: nat, floor: nat, next: nat)
    requires Waiting(p, ids, sendTick, decoded, now, floor) && |sendTick| == next
    ensures |Members(ids)| == SourceAcks(p.feedback) && forall q :: q in Members(ids) ==>
      floor <= q < next && q in decoded
  {
    CarriesCount(p.feedback, ids, sendTick);
    SeqSetSize(ids);
  }

  // ---- the start

  lemma NothingWaits(ps: seq<Path>, acks: seq<seq<nat>>, now: nat, clock: nat)
    requires |acks| == |ps| && forall i :: 0 <= i < |ps| ==> acks[i] == [] && ps[i].feedback == []
    ensures Queues(ps, acks, [], {}, now, clock, 0)
  {}

  lemma NothingCounted(ps: seq<Path>)
    requires forall i :: 0 <= i < |ps| ==> ps[i].feedback == [] && ps[i].capacity > 0
    requires forall i :: 0 <= i < |ps| ==> ps[i].sent == ps[i].arrived == ps[i].lost == ps[i].wireIdx == 0
    requires forall i :: 0 <= i < |ps| ==> ps[i].src == ps[i].fec == ps[i].arq == 0
    ensures Counts(ps, 0, 0, 0, 0, 0) && Sum(Queued(ps)) == 0
  {
    hide Sum;
    SumOfZeros(Sents(ps));
    SumOfZeros(Arriveds(ps));
    SumOfZeros(Queued(ps));
  }

  lemma EmptyBooks(v: View)
    requires v.paths != [] && |v.acks| == |v.paths| && v.symbols == [] && v.sendTick == [] && v.sourceStore == []
    requires forall i :: 0 <= i < |v.paths| ==>
      v.acks[i] == [] && v.paths[i].feedback == [] && v.paths[i].rttTicks > 0 && v.paths[i].capacity > 0
    requires forall i :: 0 <= i < |v.paths| ==>
      v.paths[i].sent == v.paths[i].arrived == v.paths[i].lost == v.paths[i].wireIdx == 0
    requires forall i :: 0 <= i < |v.paths| ==> v.paths[i].src == v.paths[i].fec == v.paths[i].arq == 0
    requires v.nextSeq == v.givenUp == v.totalSrc == v.totalFec == v.totalArq == v.cumSent == v.cumArrived
      == v.cumDecoded == 0
    requires v.storeOccupancy == v.frontier == v.frontierAcked == 0 && v.frontierHist == [] && v.givenUpSeqs == {}
      && !v.sourceDone
    requires |v.latBySeq| == NUM_SOURCE && forall q :: 0 <= q < NUM_SOURCE ==> v.latBySeq[q].None?
    ensures Books(v, {})
  {
    hide Queues, Counts, Sum, Queued;
    NothingWaits(v.paths, v.acks, v.tick, AggregateRtt(v.paths));
    NothingCounted(v.paths);
    hide Upto, AggregateRtt;
    UptoStep(0);
  }

  lemma {:induction false} SumOfZeros(s: seq<nat>)
    requires forall i :: 0 <= i < |s| ==> s[i] == 0
    ensures Sum(s) == 0
  {
    if s != [] {
      SumOfZeros(s[..|s| - 1]);
    }
  }
}
