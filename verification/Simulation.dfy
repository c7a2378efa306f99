/** Multipath FEC and ARQ, tick by tick. */
module Simulation {
  import opened Basics
  import opened RealSums
  import opened Gf256
  import opened TermLists
  import opened SimpleRlc
  import opened SimulationState
  import opened SimulationBooks
  import opened SimulationSlots
  import CoefficientStream
  import Wire

  /** What a path is built from; the channel holds one loss outcome for each wire slot. */
  datatype PathSpec = PathSpec(capacity: nat, rttMs: nat, channel: seq<bool>)

  ghost function Sources(): Truth {
    (q: nat, k: nat) => PayloadByte(q)
  }

  lemma PayloadHolds(q: nat)
    ensures SourceHolds(q, Payload(q), Sources()) && SourceHolds(q, Wire.Pad(Payload(q), SYMBOL_SIZE), Sources())
  {}

  /** One slot less, unless it was released already. */
  function Released(occupancy: nat, already: bool): nat { if already then occupancy else Less(occupancy, 1) }

  predicate IsNewPath(p: Path) {
    && p.feedback == [] && p.rttTicks > 0 && p.capacity > 0
    && p.sent == p.arrived == p.lost == p.wireIdx == 0 && p.src == p.fec == p.arq == 0
  }

  function MakePath(s: PathSpec): Path {
    Path(Max(1, Min(s.capacity, 16)), Max(s.rttMs, 2), s.channel, 0, [], 0, 0, 0, 0, 0, 0, 0.0)
  }

  /** At most eight paths. */
  function MakePaths(specs: seq<PathSpec>): (r: seq<Path>)
    ensures |r| == Min(|specs|, 8) && forall i :: 0 <= i < |r| ==> r[i] == MakePath(specs[i])
  {
    seq(Min(|specs|, 8), i requires 0 <= i < |specs| => MakePath(specs[i]))
  }

  /** Half the round trip of the paths used, weighted by capacity, in milliseconds. */
  function OneWay(specs: seq<PathSpec>): real {
    var ps := MakePaths(specs);
    var total := Sum(Capacities(ps));
    var weighted := Sum(seq(|ps|, i requires 0 <= i < |ps| => ps[i].capacity * specs[i].rttMs));
    if total == 0 then 0.0 else weighted as real / total as real / 2.0
  }

  /** Paths of one round trip have half of it one way, whatever their capacities. */
  lemma OneWayIsHalf(specs: seq<PathSpec>, rtt: nat)
    requires specs != [] && forall s :: s in specs ==> s.rttMs == rtt
    ensures OneWay(specs) == rtt as real / 2.0
  {
    hide Sum;
    var ps := MakePaths(specs);
    var caps := Capacities(ps);
    var weighted := seq(|ps|, i requires 0 <= i < |ps| => ps[i].capacity * specs[i].rttMs);
    SumTimes(caps, rtt, weighted);
    SumUpdate(caps, 0, 0);
    WeightedMean(Sum(caps), rtt);
  }

  lemma WeightedMean(total: nat, rtt: nat)
    requires total > 0
    ensures (total * rtt) as real / total as real == rtt as real
  {
    assert (total * rtt) as real == rtt as real * total as real;
  }

  lemma {:induction false} SumTimes(s: seq<nat>, c: nat, more: seq<nat>)
    requires |more| == |s| && forall i :: 0 <= i < |s| ==> more[i] == s[i] * c
    ensures Sum(more) == Sum(s) * c
  {
    if s != [] {
      SumTimes(s[..|s| - 1], c, more[..|s| - 1]);
    }
  }

  lemma MadePathsAreClamped(specs: seq<PathSpec>)
    ensures forall i :: 0 <= i < |specs| ==>
      var p := MakePath(specs[i]);
      && 1 <= p.capacity <= 16 && (1 <= specs[i].capacity <= 16 ==> p.capacity == specs[i].capacity)
      && (specs[i].capacity > 16 ==> p.capacity == 16)
      && p.rttTicks == (if specs[i].rttMs >= 2 then specs[i].rttMs else 2) && p.channel == specs[i].channel
  {}

  lemma MadePathsAreNew(specs: seq<PathSpec>)
    ensures forall i :: 0 <= i < |specs| ==> IsNewPath(MakePath(specs[i]))
  {}

  /** The first eligible symbol, or |ss|. */
  method Candidate(ss: seq<Symbol>, ps: seq<Path>, tick: nat) returns (i: nat)
    requires forall s :: s in ss ==> s.path < |ps|
    ensures i <= |ss| && (i < |ss| <==> AnyEligible(ss, ps, tick))
    ensures i < |ss| ==> FirstEligible(ss, ps, tick, i)
  {
    i := 0;
    while i < |ss|
      invariant i <= |ss|
      invariant forall j :: 0 <= j < i ==> !Eligible(ss[j], ps, tick)
    {
      if Open(ss[i]) && tick - ss[i].lastRetx >= ps[ss[i].path].rttTicks {
        return;
      }
      i := i + 1;
    }
  }

  /** The first of the paths with a spare slot whose estimated goodput is highest; without a spare slot, path 0. */
  method BestCorrectionPath(free: seq<nat>, goodput: seq<real>) returns (best: nat)
    requires |goodput| == |free|
    ensures if Spare(free) then IsBest(free, goodput, best) else best == 0
  {
    best := 0;
    var found := false;
    for i := 0 to |free|
      invariant found ==> best < i && free[best] > 0
      invariant !found ==> best == 0 && forall j :: 0 <= j < i ==> free[j] == 0
      invariant found ==> forall j :: 0 <= j < i && free[j] > 0 ==>
        goodput[j] < goodput[best] || (goodput[j] == goodput[best] && best <= j)
    {
      if free[i] > 0 && (!found || goodput[i] > goodput[best]) {
        found, best := true, i;
      }
    }
  }

  method BestSparePath(free: seq<nat>, goodput: seq<real>) returns (best: nat)
    requires |goodput| == |free| && Sum(free) > 0
    ensures IsBest(free, goodput, best) && best < |free| && free[best] > 0
  {
    hide Sum;
    SumPositive(free);
    best := BestCorrectionPath(free, goodput);
  }

  /** Drops the acknowledgements due and counts those that release a store slot. */
  method PopDue(fb: seq<Ack>, tick: nat, rtt: nat, ghost ids: seq<nat>, ghost sendTick: seq<nat>)
    returns (rest: seq<Ack>, released: nat, ghost left: seq<nat>)
    requires Carries(fb, ids, sendTick)
    ensures released + SourceAcks(rest) == SourceAcks(fb)
    ensures |rest| <= |fb| && rest == fb[|fb| - |rest|..]
    ensures |left| <= |ids| && left == ids[|ids| - |left|..] && Carries(rest, left, sendTick)
    ensures rest != [] ==> Less(tick, rest[0].tick) < rtt
    ensures forall i :: 0 <= i < |fb| - |rest| ==> Less(tick, fb[i].tick) >= rtt
  {
    rest, released, left := fb, 0, ids;
    while rest != [] && Less(tick, rest[0].tick) >= rtt
      invariant released + SourceAcks(rest) == SourceAcks(fb)
      invariant |rest| <= |fb| && rest == fb[|fb| - |rest|..]
      invariant |left| <= |ids| && left == ids[|ids| - |left|..] && Carries(rest, left, sendTick)
      invariant forall i :: 0 <= i < |fb| - |rest| ==> Less(tick, fb[i].tick) >= rtt
    {
      if rest[0].ok && rest[0].source {
        released := released + 1;
        left := left[1..];
      }
      rest := rest[1..];
    }
  }

  lemma MarkedTwice(ss: seq<Symbol>, a: set<nat>, q: nat)
    ensures Marked(Marked(ss, a), {q}) == Marked(ss, a + {q})
    ensures Marked(ss, {}) == ss
  {}

  lemma IndexKept(before: seq<(nat, seq<byte>)>, idx0: map<nat, nat>, after: seq<(nat, seq<byte>)>,
        idx1: map<nat, nat>, size: nat)
    requires IndexMatches(before, idx0, size) && IndexMatches(after, idx1, size) && before <= after
    ensures forall q: nat :: q in idx0 <==> q in idx1 && idx1[q] < |before|
  {
    forall i | 0 <= i < |before|
      ensures before[i].0 in idx1 && idx1[before[i].0] == i
    {
      assert after[i] == before[i];
    }
    forall q: nat | q in idx1 && idx1[q] < |before|
      ensures q in idx0
    {
      assert before[idx1[q]] == after[idx1[q]];
    }
  }

  lemma FreshFromIndex(before: seq<(nat, seq<byte>)>, idx0: map<nat, nat>, after: seq<(nat, seq<byte>)>,
        idx1: map<nat, nat>, size: nat, rec: seq<nat>)
    requires IndexMatches(before, idx0, size) && IndexMatches(after, idx1, size) && Appended(before, after, rec)
    ensures Fresh(rec, idx0.Keys, idx1.Keys)
  {
    IndexKept(before, idx0, after, idx1, size);
    forall i | 0 <= i < |rec|
      ensures rec[i] in idx1 && idx1[rec[i]] == |before| + i
    {
      assert after[|before| + i].0 == rec[i];
    }
    forall q: nat | q in idx1 && idx1[q] >= |before|
      ensures q in rec
    {
      assert rec[idx1[q] - |before|] == q;
    }
    FreshFromPositions(idx0, idx1, |before|, rec);
  }

  lemma FreshFromPositions(idx0: map<nat, nat>, idx1: map<nat, nat>, n: nat, rec: seq<nat>)
    requires forall q: nat :: q in idx0 <==> q in idx1 && idx1[q] < n
    requires forall i :: 0 <= i < |rec| ==> rec[i] in idx1 && idx1[rec[i]] == n + i
    requires forall q: nat :: q in idx1 && idx1[q] >= n ==> q in rec
    ensures Fresh(rec, idx0.Keys, idx1.Keys)
  {
    forall q: nat
      ensures q in idx1.Keys <==> q in idx0.Keys + Members(rec)
    {}
    assert idx1.Keys == idx0.Keys + Members(rec);
  }

  /** The equation a repair's header describes. */
  ghost function TermsOf(r: RepairInfo): seq<Term> {
    WindowTerms(r.windowStart, CoefficientStream.WindowCoefficients(r.windowStart, r.windowCount, r.repairIndex))
  }

  /** What was returned is what became known. */
  lemma FreshIsDifference(rec: seq<nat>, before: set<nat>, after: set<nat>)
    requires Fresh(rec, before, after)
    ensures before <= after && Members(rec) == after - before
  {}

  lemma NothingMarked(ss: seq<Symbol>, known: set<nat>)
    ensures Marked(ss, known - known) == ss
  {}

  class Simulation {
    const width: nat
    /** The capacity-weighted one-way delay of the paths. */
    const oneWay: real
    const mayGiveUp: bool
    const encoder: RlcEncoder
    const decoder: RlcDecoder
    var paths: seq<Path>
    var tick: nat
    var sourceDone: bool
    var finished: bool
    var symbols: seq<Symbol>
    var sourceStore: seq<seq<byte>>
    var sendTick: seq<nat>
    var nextSeq: nat
    var rate: real
    var debt: real
    var totalSrc: nat
    var totalFec: nat
    var totalArq: nat
    var totalLost: nat
    var cumSent: nat
    var cumArrived: nat
    var cumDecoded: nat
    var lostPending: nat
    var givenUp: nat
    var givenUpSeqs: set<nat>
    var latBySeq: seq<Option<real>>
    var deliveredLat: seq<real>
    var storeOccupancy: nat
    var poolStalls: nat
    var frontier: nat
    var frontierAcked: nat
    var frontierHist: seq<(nat, nat)>
    /** For each path, the sources whose acknowledgements wait in its queue. */
    ghost var acks: seq<seq<nat>>

    /** The first eight of the given paths, each with capacity 1 to 16 and a round trip of at least two ticks. */
    constructor (specs: seq<PathSpec>, width: nat, mayGiveUp: bool)
      requires specs != []
      ensures fresh(encoder) && fresh(decoder)
      ensures tick == 0 && !finished && nextSeq == 0 && this.mayGiveUp == mayGiveUp && this.width == width
      ensures oneWay == OneWay(specs) && deliveredLat == []
      ensures paths == MakePaths(specs)
      ensures forall i :: 0 <= i < |paths| ==>
        && 1 <= paths[i].capacity <= 16 && (1 <= specs[i].capacity <= 16 ==> paths[i].capacity == specs[i].capacity)
        && (specs[i].capacity > 16 ==> paths[i].capacity == 16)
        && paths[i].rttTicks == (if specs[i].rttMs >= 2 then specs[i].rttMs else 2)
        && paths[i].channel == specs[i].channel
      ensures debt == 0.0 && symbols == [] && frontierHist == [] && frontierAcked == 0
      ensures Valid() && Ended()
    {
      hide Valid, Ended, MakePath, IsNewPath, Max;
      MadePathsAreNew(specs);
      MadePathsAreClamped(specs);
      this.width, this.mayGiveUp, oneWay, deliveredLat := width, mayGiveUp, OneWay(specs), [];
      encoder := new RlcEncoder(SYMBOL_SIZE);
      decoder := new RlcDecoder(SYMBOL_SIZE);
      paths := MakePaths(specs);
      acks := seq(Min(|specs|, 8), i => []);
      tick, nextSeq, lostPending, givenUp, storeOccupancy, poolStalls := 0, 0, 0, 0, 0, 0;
      sourceDone, finished := false, false;
      symbols, sourceStore, sendTick := [], [], [];
      rate, debt := 0.0, 0.0;
      totalSrc, totalFec, totalArq, totalLost, cumSent, cumArrived, cumDecoded := 0, 0, 0, 0, 0, 0, 0;
      givenUpSeqs, latBySeq := {}, seq(NUM_SOURCE, i => None);
      frontier, frontierAcked, frontierHist := 0, 0, [];
      new;
      Opened();
    }

    lemma Opened()
      requires IsNew()
      ensures Valid() && Ended()
    {
      hide Books, Codec;
      assert Decoded() == {};
      EmptyBooks(Now());
      EmptyCodec();
    }

    /** Nothing sent, nothing decoded, nothing waiting. */
    ghost predicate IsNew()
      reads this, encoder, decoder
    {
      && paths != [] && |acks| == |paths|
      && (forall i :: 0 <= i < |paths| ==> acks[i] == [] && IsNewPath(paths[i]))
      && symbols == [] && sendTick == [] && sourceStore == [] && !sourceDone && !finished && givenUpSeqs == {}
      && tick == nextSeq == givenUp == storeOccupancy == frontier == frontierAcked == 0 && frontierHist == []
      && totalSrc == totalFec == totalArq == cumSent == cumArrived == cumDecoded == 0 && deliveredLat == []
      && |latBySeq| == NUM_SOURCE && (forall q :: 0 <= q < NUM_SOURCE ==> latBySeq[q].None?)
      && encoder.symbolSize == SYMBOL_SIZE == decoder.symbolSize && encoder.window == [] && encoder.nextSeq == 0
      && decoder.recovered == [] && decoder.recoveredIdx == map[] && decoder.pivots == [] && decoder.totalFed == 0
    }

    lemma EmptyCodec()
      requires encoder.symbolSize == SYMBOL_SIZE == decoder.symbolSize
      requires encoder.window == [] && encoder.nextSeq == 0
      requires decoder.recovered == [] && decoder.recoveredIdx == map[] && decoder.pivots == [] && decoder.totalFed == 0
      ensures Codec(0)
    {}

    /** How long source q has waited since it was sent, and its way to the receiver. */
    function Latency(q: nat): real
      reads this`tick, this`sendTick
    {
      Less(tick, if q < |sendTick| then sendTick[q] else tick) as real + oneWay
    }

    /** The latencies of the outputs that were not given up, in order. */
    function Latencies(rec: seq<nat>): seq<real>
      reads this`tick, this`sendTick, this`givenUpSeqs
    {
      if rec == [] then []
      else
        var q := rec[|rec| - 1];
        Latencies(rec[..|rec| - 1]) + (if q in givenUpSeqs then [] else [Latency(q)])
    }

    // ---- what one batch of decoder outputs changes

    method MarkOne(q: nat)
      requires Distinct(symbols) && storeOccupancy >= |Holes(symbols)|
      modifies this`symbols, this`storeOccupancy, this`lostPending
      ensures symbols == Marked(old(symbols), {q}) && Distinct(symbols)
      ensures storeOccupancy + |Holes(old(symbols))| == old(storeOccupancy) + |Holes(symbols)|
    {
      hide Holes, Distinct;
      ghost var before := symbols;
      for i := 0 to |symbols|
        invariant |symbols| == |before| && Distinct(symbols)
        invariant symbols[..i] == Marked(before, {q})[..i] && symbols[i..] == before[i..]
        invariant storeOccupancy + |Holes(before)| == old(storeOccupancy) + |Holes(symbols)|
      {
        assert symbols[i] == before[i];
        if symbols[i].at == q && symbols[i].lost && !symbols[i].recovered {
          CloseHole(symbols, i);
          symbols := symbols[i := symbols[i].(recovered := true)];
          lostPending := Less(lostPending, 1);
          storeOccupancy := Less(storeOccupancy, 1);
        }
      }
    }

    method MarkRecovered(rec: seq<nat>)
      requires Distinct(symbols) && storeOccupancy >= |Holes(symbols)|
      modifies this`symbols, this`storeOccupancy, this`lostPending
      ensures symbols == Marked(old(symbols), Members(rec)) && Distinct(symbols)
      ensures storeOccupancy + |Holes(old(symbols))| == old(storeOccupancy) + |Holes(symbols)|
    {
      hide Holes, Distinct, Members, Marked;
      MembersSnoc([], 0);
      MarkedTwice(symbols, {}, 0);
      assert rec[..0] == [];
      for j := 0 to |rec|
        invariant symbols == Marked(old(symbols), Members(rec[..j])) && Distinct(symbols)
        invariant storeOccupancy + |Holes(old(symbols))| == old(storeOccupancy) + |Holes(symbols)|
      {
        MarkOne(rec[j]);
        MembersSnoc(rec[..j], rec[j]);
        assert rec[..j + 1] == rec[..j] + [rec[j]];
        MarkedTwice(old(symbols), Members(rec[..j]), rec[j]);
      }
      assert rec[..|rec|] == rec;
    }

    /**
     * Records the latency of each delivered source, in the list every time and by number once, leaving out what was
     * given up.
     */
    method RecordDelivery(rec: seq<nat>)
      modifies this`latBySeq, this`deliveredLat
      ensures |latBySeq| == |old(latBySeq)|
      ensures forall q :: 0 <= q < |latBySeq| ==>
        latBySeq[q] ==
          (if old(latBySeq)[q].None? && q in rec && q !in givenUpSeqs then Some(Latency(q)) else old(latBySeq)[q])
      ensures deliveredLat == old(deliveredLat) + Latencies(rec)
      // the time since it was sent, and the way there
      ensures forall q :: 0 <= q < |latBySeq| && q < |sendTick| && sendTick[q] <= tick ==>
        old(latBySeq)[q].None? && q in rec && q !in givenUpSeqs ==>
          latBySeq[q] == Some((tick - sendTick[q]) as real + oneWay)
    {
      hide Latency, Latencies;
      LatencyMeans();
      NoLatencies();
      assert rec[..0] == [];
      for j := 0 to |rec|
        invariant |latBySeq| == |old(latBySeq)|
        invariant forall q :: 0 <= q < |latBySeq| ==>
          latBySeq[q] ==
            (if old(latBySeq)[q].None? && q in rec[..j] && q !in givenUpSeqs then Some(Latency(q))
             else old(latBySeq)[q])
        invariant deliveredLat == old(deliveredLat) + Latencies(rec[..j])
      {
        assert rec[..j + 1] == rec[..j] + [rec[j]];
        LatenciesSnoc(rec[..j], rec[j]);
        RecordOne(rec[j]);
      }
      assert rec[..|rec|] == rec;
    }

    lemma LatencyMeans()
      ensures forall q: nat :: q < |sendTick| && sendTick[q] <= tick ==>
        Latency(q) == (tick - sendTick[q]) as real + oneWay
    {}

    lemma NoLatencies()
      ensures Latencies([]) == []
    {}

    lemma LatenciesSnoc(rec: seq<nat>, q: nat)
      ensures Latencies(rec + [q]) == Latencies(rec) + (if q in givenUpSeqs then [] else [Latency(q)])
    {
      assert (rec + [q])[..|rec|] == rec;
    }

    method RecordOne(q: nat)
      modifies this`latBySeq, this`deliveredLat
      ensures deliveredLat == old(deliveredLat) + (if q in givenUpSeqs then [] else [Latency(q)])
      ensures latBySeq == if q !in givenUpSeqs && q < |old(latBySeq)| && old(latBySeq)[q].None?
        then old(latBySeq)[q := Some(Latency(q))] else old(latBySeq)
    {
      hide Latency;
      if q !in givenUpSeqs {
        deliveredLat := deliveredLat + [Latency(q)];
        if q < |latBySeq| && latBySeq[q].None? {
          latBySeq := latBySeq[q := Some(Latency(q))];
        }
      }
    }

    lemma {:induction false} LatencyCount(rec: seq<nat>)
      ensures |Latencies(rec)| == CountOutside(rec, givenUpSeqs)
    {
      if rec != [] {
        LatencyCount(rec[..|rec| - 1]);
      }
    }

    /** Marks, records and counts what the decoder just returned. */
    method Deliver(rec: seq<nat>)
      requires Distinct(symbols) && storeOccupancy >= |Holes(symbols)|
      modifies this`symbols, this`storeOccupancy, this`lostPending, this`latBySeq, this`deliveredLat, this`cumDecoded
      ensures symbols == Marked(old(symbols), Members(rec)) && Distinct(symbols)
      ensures storeOccupancy + |Holes(old(symbols))| == old(storeOccupancy) + |Holes(symbols)|
      ensures cumDecoded == old(cumDecoded) + CountOutside(rec, givenUpSeqs)
      ensures |latBySeq| == |old(latBySeq)|
      ensures forall q :: 0 <= q < |latBySeq| ==>
        (latBySeq[q].Some? <==> old(latBySeq)[q].Some? || (q in rec && q !in givenUpSeqs))
      ensures |deliveredLat| - cumDecoded == |old(deliveredLat)| - old(cumDecoded)
    {
      hide Holes, Distinct, Members, Marked, CountOutside, Latencies;
      MarkRecovered(rec);
      RecordDelivery(rec);
      LatencyCount(rec);
      cumDecoded := cumDecoded + CountOutside(rec, givenUpSeqs);
    }

    // ---- what every step keeps

    ghost function Decoded(): set<nat>
      reads decoder`recoveredIdx
    {
      decoder.recoveredIdx.Keys
    }

    /** The codec is sound: the window is the last width sources, and everything decoded is real. */
    ghost predicate Codec(n: nat)
      reads encoder, decoder
    {
      && encoder.symbolSize == SYMBOL_SIZE == decoder.symbolSize
      && encoder.Valid() && decoder.Valid()
      && encoder.nextSeq == n && SourcesHold(encoder.window, Sources()) && |encoder.window| == Min(width, n)
      && decoder.Truthful(Sources()) && decoder.Bounded(n)
    }

    ghost function Now(): View
      reads this`paths, this`symbols, this`sendTick, this`sourceStore, this`nextSeq, this`tick, this`sourceDone
      reads this`totalSrc, this`totalFec, this`totalArq, this`cumSent, this`cumArrived, this`cumDecoded,
          this`givenUp, this`givenUpSeqs
      reads this`storeOccupancy, this`acks, this`latBySeq, this`frontier, this`frontierHist, this`frontierAcked
    {
      View(mayGiveUp, paths, acks, symbols, sendTick, sourceStore, nextSeq, tick, sourceDone, givenUpSeqs, givenUp,
           totalSrc, totalFec, totalArq, cumSent, cumArrived, cumDecoded, storeOccupancy, latBySeq, frontier,
           frontierAcked, frontierHist)
    }

    ghost predicate Valid()
      reads this`paths, this`symbols, this`sendTick, this`sourceStore, this`nextSeq, this`tick, this`sourceDone
      reads this`totalSrc, this`totalFec, this`totalArq, this`cumSent, this`cumArrived, this`cumDecoded,
          this`givenUp, this`givenUpSeqs
      reads this`storeOccupancy, this`acks, this`latBySeq, this`frontier, this`frontierHist, this`frontierAcked
      reads this`deliveredLat, encoder, decoder
    {
      Codec(nextSeq) && Books(Now(), Decoded()) && cumArrived == decoder.totalFed && Logged()
    }

    /** One recorded latency for each delivery that counts. */
    ghost predicate Logged()
      reads this`deliveredLat, this`cumDecoded
    {
      |deliveredLat| == cumDecoded
    }

    /** What the next wire slot acts on. */
    ghost function Seen(free: seq<nat>): Scene
      reads this`paths, this`symbols, this`debt, this`nextSeq, this`storeOccupancy, this`poolStalls, this`totalFec,
          this`totalArq, this`totalLost, this`givenUpSeqs, encoder`repairCounter, decoder`recoveredIdx, decoder`pivots
    {
      Scene(paths, symbols, free, debt, nextSeq, storeOccupancy, Decoded(), decoder.pivots, encoder.repairCounter,
          poolStalls, totalFec, totalArq, totalLost, givenUpSeqs)
    }

    lemma SeenStored(free: seq<nat>)
      requires Valid()
      ensures Stored(Seen(free))
    {
      hide Codec, Ledger, Queues, Counts, LatenciesMatch, FrontiersHold, Routed, Sum, Queued, Holes;
    }

    // ---- feeding the decoder

    method FeedSymbol(q: nat, data: seq<byte>, ghost n: nat) returns (rec: seq<nat>)
      requires Codec(n) && q < n && data == Payload(q)
      modifies decoder
      ensures Codec(n) && decoder.totalFed == old(decoder.totalFed) + 1
      ensures Fresh(rec, old(Decoded()), Decoded()) && q in Decoded()
    {
      hide Appended, IndexMatches, SourcesHold, SourceHolds, PivotHolds, Triangular, Clear, Sized, Unfinished,
          RowsHold, Within, Consecutive;
      PayloadHolds(q);
      ghost var before, idx := decoder.recovered, decoder.recoveredIdx;
      rec := decoder.FeedSource(q, data, Sources(), n);
      FreshFromIndex(before, idx, decoder.recovered, decoder.recoveredIdx, decoder.symbolSize, rec);
    }

    method FeedRepairSymbol(r: RepairInfo, ghost n: nat) returns (rec: seq<nat>)
      requires Codec(n) && r.windowStart + r.windowCount <= n && |r.codedData| == SYMBOL_SIZE
      requires RepairHolds(r.windowStart, r.windowCount, r.repairIndex, r.codedData, Sources())
      modifies decoder
      ensures Codec(n) && decoder.totalFed == old(decoder.totalFed) + 1
      ensures Fresh(rec, old(Decoded()), Decoded())
      ensures Absorbed(TermsOf(r), old(Decoded()), old(decoder.pivots), Decoded(), decoder.pivots)
    {
      hide Appended, IndexMatches, SourcesHold, SourceHolds, PivotHolds, Triangular, Clear, Sized, Unfinished,
          RowsHold, Within, Consecutive, RepairHolds, Absorbed;
      ghost var before, idx := decoder.recovered, decoder.recoveredIdx;
      assert Wire.Pad(r.codedData, SYMBOL_SIZE) == r.codedData;
      rec := decoder.FeedRepair(r.windowStart, r.windowCount, r.repairIndex, r.codedData, Sources(), n);
      FreshFromIndex(before, idx, decoder.recovered, decoder.recoveredIdx, decoder.symbolSize, rec);
    }

    method EncodeRepair(ghost n: nat) returns (r: RepairInfo)
      requires Codec(n) && n <= NUM_SOURCE
      modifies encoder
      ensures Codec(n) && r.windowStart + r.windowCount <= n && |r.codedData| == SYMBOL_SIZE
      ensures RepairHolds(r.windowStart, r.windowCount, r.repairIndex, r.codedData, Sources())
      ensures Min(width, n) > 0 ==>
        && TermsOf(r) == RepairTerms(width, n, old(encoder.repairCounter))
        && encoder.repairCounter == old(encoder.repairCounter) + 1
    {
      hide IndexMatches, SourcesHold, Triangular, Clear, Sized, Unfinished, RowsHold, Within, RepairHolds;
      r := encoder.GenerateRepair(Sources());
    }

    /** The wire and the counters for one correction on path pi: no source slot is taken. */
    method Tally(pi: nat, kind: Kind) returns (lost: bool)
      requires pi < |paths| && kind != AsSource
      modifies this`paths, this`totalFec, this`totalArq, this`cumSent, this`cumArrived
      ensures paths == old(paths)[pi := SendOn(old(paths)[pi], kind, tick)] && lost == WireLost(old(paths)[pi])
      ensures cumSent == old(cumSent) + 1 && cumArrived == old(cumArrived) + (if lost then 0 else 1)
      ensures totalFec == old(totalFec) + (if kind == AsRepair then 1 else 0)
      ensures totalArq == old(totalArq) + (if kind == AsRetransmit then 1 else 0)
    {
      lost := WireLost(paths[pi]);
      if kind == AsRepair {
        totalFec := totalFec + 1;
      } else {
        totalArq := totalArq + 1;
      }
      cumSent := cumSent + 1;
      if !lost {
        cumArrived := cumArrived + 1;
      }
      paths := paths[pi := SendOn(paths[pi], kind, tick)];
    }

    method Transmit(pi: nat, kind: Kind) returns (lost: bool)
      requires Books(Now(), Decoded()) && Timely(Now()) && pi < |paths| && kind != AsSource
      modifies this`paths, this`totalFec, this`totalArq, this`cumSent, this`cumArrived
      ensures Books(Now(), Decoded()) && Timely(Now())
      ensures Now() == Corrected(old(Now()), pi, kind) && lost == WireLost(old(paths)[pi])
    {
      hide Books, SendOn, Timely, Recents, WireLost;
      AfterCorrection(Now(), Decoded(), pi, kind);
      lost := Tally(pi, kind);
    }

    /** One repair over the whole window on path pi: a new equation when it arrives. */
    method SendRepair(pi: nat) returns (ok: bool)
      requires Valid() && pi < |paths| && Timely(Now())
      modifies this`paths, this`totalFec, this`totalArq, this`cumSent, this`cumArrived, encoder, decoder
      modifies this`symbols, this`storeOccupancy, this`lostPending, this`latBySeq, this`deliveredLat, this`cumDecoded
      ensures Valid() && Timely(Now())
      ensures paths == old(paths)[pi := SendOn(old(paths)[pi], AsRepair, tick)] && ok == !WireLost(old(paths)[pi])
      ensures totalFec == old(totalFec) + 1 && totalArq == old(totalArq)
      ensures old(Decoded()) <= Decoded() && symbols == Marked(old(symbols), Decoded() - old(Decoded()))
      ensures !ok ==> Decoded() == old(Decoded()) && decoder.pivots == old(decoder.pivots)
      ensures Min(width, nextSeq) > 0 ==>
        && encoder.repairCounter == old(encoder.repairCounter) + 1
        && (ok ==> Absorbed(RepairTerms(width, nextSeq, old(encoder.repairCounter)), old(Decoded()),
                            old(decoder.pivots), Decoded(), decoder.pivots))
    {
      hide RepairHolds, Recents, Fresh, Members, SendOn, Codec, Books, Marked, WireLost, Decoded, Absorbed, TermsOf,
          RepairTerms;
      ghost var before := Decoded();
      BooksBounds(Now(), before);
      NothingMarked(symbols, before);
      var repair := EncodeRepair(nextSeq);
      var lost := Transmit(pi, AsRepair);
      if !lost {
        var rec := FeedRepairSymbol(repair, nextSeq);
        Settle(rec, before);
      }
      ok := !lost;
    }

    /** Absorbs decoder outputs in a state where everything else already agrees. */
    method Settle(rec: seq<nat>, ghost before: set<nat>)
      requires Codec(nextSeq) && Books(Now(), before) && cumArrived == decoder.totalFed && Fresh(rec, before, Decoded())
      requires Logged()
      modifies this`symbols, this`storeOccupancy, this`lostPending, this`latBySeq, this`deliveredLat, this`cumDecoded
      ensures Valid() && before <= Decoded() && symbols == Marked(old(symbols), Decoded() - before)
    {
      hide Books, Codec, Fresh, Marked, Members, Holes, CountOutside, Decoded, Distinct;
      FreshIsDifference(rec, before, Decoded());
      ghost var v := Now();
      DecodedBelow(nextSeq);
      BooksBounds(v, before);
      Deliver(rec);
      AfterDelivery(v, Now(), before, rec, Decoded());
    }

    /** Symbol i goes on the wire of path dest again. */
    method Resend(i: nat, dest: nat) returns (lost: bool)
      requires Books(Now(), Decoded()) && Timely(Now()) && i < |symbols| && dest < |paths|
      modifies this`symbols, this`paths, this`totalFec, this`totalArq, this`cumSent, this`cumArrived
      ensures Books(Now(), Decoded()) && Timely(Now()) && lost == WireLost(old(paths)[dest]) && nextSeq == old(nextSeq)
      ensures paths == old(paths)[dest := SendOn(old(paths)[dest], AsRetransmit, tick)]
      ensures symbols == old(symbols)[i := old(symbols)[i].(lastRetx := tick, path := dest)]
      ensures totalFec == old(totalFec) && totalArq == old(totalArq) + 1
        && cumArrived == old(cumArrived) + (if lost then 0 else 1)
    {
      hide Books, Recents, SendOn, Decoded, WireLost;
      AfterTouch(Now(), Decoded(), i, dest);
      symbols := symbols[i := symbols[i].(lastRetx := tick, path := dest)];
      lost := Transmit(dest, AsRetransmit);
    }

    /** The resent source arrives: the decoder takes it, and the symbol closes. */
    method ReceiveAgain(i: nat)
      requires Codec(nextSeq) && Books(Now(), Decoded()) && cumArrived == decoder.totalFed + 1 && i < |symbols|
        && Open(symbols[i])
      requires Logged()
      modifies this`symbols, this`storeOccupancy, this`lostPending, this`latBySeq, this`deliveredLat, this`cumDecoded,
          decoder
      ensures Valid() && |symbols| == |old(symbols)| && !Open(symbols[i]) && symbols[i].at in Decoded()
      ensures old(Decoded()) <= Decoded() && symbols == Marked(old(symbols), Decoded() - old(Decoded()))
    {
      hide Books, Fresh, Members, Codec, Marked, Decoded;
      ghost var before, resent := Decoded(), symbols;
      StoredPayload(Now(), before, i);
      var rec := FeedSymbol(symbols[i].at, sourceStore[symbols[i].at], nextSeq);
      FreshIsDifference(rec, before, Decoded());
      Settle(rec, before);
      ClosedByDelivery(resent, i, rec, before, Decoded());
      CloseRetransmitted(i);
    }

    /** Symbol i, lost and still open, sent again on path dest; an arrival closes it. */
    method Retransmit(i: nat, dest: nat) returns (lost: bool)
      requires Valid() && i < |symbols| && Open(symbols[i]) && dest < |paths| && Timely(Now())
      modifies this`paths, this`totalFec, this`totalArq, this`cumSent, this`cumArrived, decoder
      modifies this`symbols, this`storeOccupancy, this`lostPending, this`latBySeq, this`deliveredLat, this`cumDecoded
      ensures Valid() && Timely(Now())
      ensures paths == old(paths)[dest := SendOn(old(paths)[dest], AsRetransmit, tick)]
        && lost == WireLost(old(paths)[dest])
      ensures totalFec == old(totalFec) && totalArq == old(totalArq) + 1
      ensures |symbols| == |old(symbols)| && (!lost ==> !Open(symbols[i]) && old(symbols)[i].at in Decoded())
      ensures lost ==> Decoded() == old(Decoded()) && decoder.pivots == old(decoder.pivots)
      ensures old(Decoded()) <= Decoded() && symbols ==
        Marked(old(symbols)[i := old(symbols)[i].(lastRetx := tick, path := dest)], Decoded() - old(Decoded()))
    {
      hide Books, Recents, SendOn, Codec, Decoded, WireLost, Marked;
      lost := Resend(i, dest);
      NothingMarked(symbols, Decoded());
      if !lost {
        ReceiveAgain(i);
      }
    }

    /** The symbol is closed by now, so only the loose count of pending losses moves, a second time. */
    method CloseRetransmitted(i: nat)
      requires i < |symbols| && symbols[i].recovered
      modifies this`symbols, this`storeOccupancy, this`lostPending
      ensures symbols == old(symbols) && storeOccupancy == old(storeOccupancy)
    {
      storeOccupancy := Released(storeOccupancy, symbols[i].recovered);
      assert symbols[i := symbols[i].(recovered := true)] == symbols;
      symbols := symbols[i := symbols[i].(recovered := true)];
      lostPending := Less(lostPending, 1);
    }

    /** Adds a source to the encoder and slides its window. */
    method EncodeSource(data: seq<byte>, ghost n: nat) returns (q: nat)
      requires Codec(n) && data == Payload(n)
      modifies encoder
      ensures Codec(n + 1) && q == n && encoder.repairCounter == old(encoder.repairCounter)
    {
      hide IndexMatches, Triangular, Clear, Sized, Unfinished, RowsHold, SourceHolds;
      PayloadHolds(n);
      SourcesSnoc(encoder.window, n, data, Sources());
      q := encoder.AddSource(data);
      ghost var all := encoder.window;
      if |encoder.window| > width {
        encoder.Advance(Less(encoder.nextSeq, width));
        assert forall i :: 0 <= i < |encoder.window| ==> encoder.window[i] == all[|all| - |encoder.window| + i];
      }
    }

    /** The wire and the counters for a new source on path dest. */
    method PutOnWire(dest: nat) returns (lost: bool)
      requires dest < |paths|
      modifies this`paths, this`totalLost, this`lostPending, this`totalSrc, this`cumSent, this`cumArrived
      ensures lost == WireLost(old(paths)[dest])
        && paths == old(paths)[dest := SendOn(old(paths)[dest], AsSource, tick)]
      ensures totalSrc == old(totalSrc) + 1 && cumSent == old(cumSent) + 1
        && cumArrived == old(cumArrived) + (if lost then 0 else 1)
          && totalLost == old(totalLost) + (if lost then 1 else 0)
    {
      hide SendOn, WireLost;
      lost := WireLost(paths[dest]);
      paths := paths[dest := SendOn(paths[dest], AsSource, tick)];
      totalSrc := totalSrc + 1;
      cumSent := cumSent + 1;
      if lost {
        totalLost := totalLost + 1;
        lostPending := lostPending + 1;
      } else {
        cumArrived := cumArrived + 1;
      }
    }

    /** Keeps a new source for retransmission; it takes a store slot. */
    method Keep(dest: nat, data: seq<byte>, q: nat, lost: bool)
      requires dest < |acks|
      modifies this`symbols, this`sendTick, this`sourceStore, this`acks, this`storeOccupancy
      ensures symbols == old(symbols) + [Symbol(tick, q, lost, false, tick, dest)]
      ensures sendTick == old(sendTick) + [tick] && sourceStore == old(sourceStore) + [data]
      ensures acks == if lost then old(acks) else old(acks)[dest := old(acks)[dest] + [q]]
      ensures storeOccupancy == old(storeOccupancy) + 1
    {
      sourceStore := sourceStore + [data];
      sendTick := sendTick + [tick];
      storeOccupancy := storeOccupancy + 1;
      symbols := symbols + [Symbol(tick, q, lost, false, tick, dest)];
      acks := if lost then acks else acks[dest := acks[dest] + [q]];
    }

    method CountSource()
      modifies this`nextSeq, this`sourceDone
      ensures nextSeq == old(nextSeq) + 1 && sourceDone == (old(sourceDone) || nextSeq >= NUM_SOURCE)
      ensures !old(sourceDone) ==> Now() == Counted(old(Now()))
    {
      nextSeq := nextSeq + 1;
      if nextSeq >= NUM_SOURCE {
        sourceDone := true;
      }
    }

    method Launch(dest: nat, data: seq<byte>, q: nat) returns (lost: bool)
      requires dest < |paths| && |acks| == |paths| && data == Payload(nextSeq) && q == nextSeq
      modifies this`paths, this`symbols, this`sendTick, this`sourceStore, this`acks, this`totalLost, this`lostPending
      modifies this`totalSrc, this`cumSent, this`cumArrived, this`storeOccupancy
      ensures Now() == Sent(old(Now()), dest) && lost == WireLost(old(paths)[dest])
        && totalLost == old(totalLost) + (if lost then 1 else 0)
    {
      hide SendOn, WireLost;
      lost := PutOnWire(dest);
      Keep(dest, data, q, lost);
    }

    /** Feeds an arrived source to the decoder and settles what comes out. */
    method FeedAndDeliver(q: nat, data: seq<byte>, ghost n: nat) returns (rec: seq<nat>)
      requires Codec(n) && q < n && data == Payload(q) && Distinct(symbols) && storeOccupancy >= |Holes(symbols)|
      modifies this`symbols, this`storeOccupancy, this`lostPending, this`latBySeq, this`deliveredLat, this`cumDecoded,
          decoder
      ensures Codec(n) && decoder.totalFed == old(decoder.totalFed) + 1
      ensures q in Decoded() && forall p :: p in Decoded() ==> p < n
      ensures Fresh(rec, old(Decoded()), Decoded()) && DeliversTo(old(Now()), Now(), rec)
      ensures old(Logged()) ==> Logged()
    {
      hide Decoded, Codec, Fresh, Marked, Members, Holes, CountOutside, Distinct;
      rec := FeedSymbol(q, data, n);
      DecodedBelow(n);
      Deliver(rec);
    }

    method BookLoss(dest: nat, data: seq<byte>, q: nat) returns (lost: bool)
      requires Books(Now(), Decoded()) && Timely(Now()) && dest < |paths| && WireLost(paths[dest])
        && data == Payload(nextSeq) && q == nextSeq
      requires !sourceDone && storeOccupancy < STORE_PER_PATH * |paths|
      modifies this`paths, this`symbols, this`sendTick, this`sourceStore, this`acks, this`totalLost, this`lostPending
      modifies this`totalSrc, this`cumSent, this`cumArrived, this`storeOccupancy, this`nextSeq, this`sourceDone
      ensures Books(Now(), Decoded()) && Timely(Now()) && nextSeq == old(nextSeq) + 1 && cumArrived == old(cumArrived)
        && lost && totalLost == old(totalLost) + 1
      ensures paths == old(paths)[dest := SendOn(old(paths)[dest], AsSource, tick)] && acks == old(acks)
      ensures symbols == old(symbols) + [Symbol(tick, old(nextSeq), true, false, tick, dest)]
    {
      hide Books, Timely, SendOn, WireLost, Decoded;
      BooksBounds(Now(), Decoded());
      AfterLoss(Now(), Decoded(), dest);
      lost := Launch(dest, data, q);
      CountSource();
    }

    method LaunchAndFeed(dest: nat, data: seq<byte>, q: nat) returns (rec: seq<nat>)
      requires dest < |paths| && |acks| == |paths| && data == Payload(nextSeq) && q == nextSeq && Codec(nextSeq + 1)
        && !WireLost(paths[dest])
      requires Distinct(Sent(Now(), dest).symbols)
        && Sent(Now(), dest).storeOccupancy >= |Holes(Sent(Now(), dest).symbols)|
      modifies this`paths, this`symbols, this`sendTick, this`sourceStore, this`acks, this`totalLost, this`lostPending
      modifies this`totalSrc, this`cumSent, this`cumArrived, this`storeOccupancy, this`latBySeq, this`deliveredLat,
          this`cumDecoded,
          decoder
      ensures Codec(nextSeq + 1) && decoder.totalFed == old(decoder.totalFed) + 1 && nextSeq in Decoded()
      ensures forall p :: p in Decoded() ==> p < nextSeq + 1
      ensures Fresh(rec, old(Decoded()), Decoded()) && DeliversTo(Sent(old(Now()), dest), Now(), rec)
      ensures old(Logged()) ==> Logged()
      ensures Now().cumArrived == old(cumArrived) + 1 && totalLost == old(totalLost)
        && paths == old(paths)[dest := SendOn(old(paths)[dest], AsSource, tick)]
    {
      hide SendOn, WireLost, Decoded, Codec, Fresh, Holes, Distinct;
      var lost := Launch(dest, data, q);
      rec := FeedAndDeliver(q, data, nextSeq + 1);
    }

    method BookArrival(dest: nat, data: seq<byte>, q: nat) returns (lost: bool)
      requires Books(Now(), Decoded()) && Timely(Now()) && dest < |paths| && !WireLost(paths[dest])
        && data == Payload(nextSeq) && q == nextSeq
      requires !sourceDone && storeOccupancy < STORE_PER_PATH * |paths| && Codec(nextSeq + 1)
      modifies this`paths, this`symbols, this`sendTick, this`sourceStore, this`acks, this`totalLost, this`lostPending
      modifies this`totalSrc, this`cumSent, this`cumArrived, this`storeOccupancy, this`nextSeq, this`sourceDone
      modifies this`latBySeq, this`deliveredLat, this`cumDecoded, decoder
      ensures Books(Now(), Decoded()) && Timely(Now()) && nextSeq == old(nextSeq) + 1
        && cumArrived == old(cumArrived) + 1 && !lost && totalLost == old(totalLost)
      ensures Codec(nextSeq) && decoder.totalFed == old(decoder.totalFed) + 1
      ensures old(Logged()) ==> Logged()
      ensures paths == old(paths)[dest := SendOn(old(paths)[dest], AsSource, tick)]
      ensures |acks| == |paths| && acks == old(acks)[dest := old(acks)[dest] + [old(nextSeq)]]
      ensures NoneOpen(old(symbols)) ==> NoneOpen(symbols)
      ensures old(Decoded()) <= Decoded() && old(nextSeq) in Decoded()
      ensures symbols == Marked(old(symbols) + [Symbol(tick, old(nextSeq), false, false, tick, dest)],
          Decoded() - old(Decoded()))
    {
      hide Books, Timely, SendOn, WireLost, Decoded, Codec, Fresh, Holes, Distinct, DeliversTo, Counted, Sent, Marked;
      ghost var v, before := Now(), Decoded();
      BooksBounds(v, before);
      SentBounds(v, before, dest);
      var rec := LaunchAndFeed(dest, data, q);
      lost := false;
      AfterArrival(v, Now(), before, dest, rec, Decoded());
      ArrivalWaits(v, Now(), dest, rec);
      FreshIsDifference(rec, before, Decoded());
      CountSource();
    }

    /** A new source on path dest: open when lost, decoded at once when it arrives. */
    method SendSource(dest: nat, completion: real) returns (lost: bool)
      requires Valid() && Timely(Now()) && dest < |paths| && !sourceDone && storeOccupancy < STORE_PER_PATH * |paths|
      modifies this`paths, this`symbols, this`sendTick, this`sourceStore, this`nextSeq, this`sourceDone, this`acks,
          this`debt, this`totalLost
      modifies this`totalSrc, this`cumSent, this`cumArrived, this`storeOccupancy, this`lostPending, this`latBySeq,
          this`deliveredLat,
          this`cumDecoded
      modifies encoder, decoder
      ensures Valid() && Timely(Now())
      ensures paths == old(paths)[dest := SendOn(old(paths)[dest], AsSource, tick)]
        && lost == WireLost(old(paths)[dest])
      ensures nextSeq == old(nextSeq) + 1 && debt == Capped(old(debt) + rate + completion)
        && totalLost == old(totalLost) + (if lost then 1 else 0)
      ensures |acks| == |paths|
      ensures acks == if lost then old(acks) else old(acks)[dest := old(acks)[dest] + [old(nextSeq)]]
      ensures !lost && NoneOpen(old(symbols)) ==> NoneOpen(symbols)
      ensures encoder.repairCounter == old(encoder.repairCounter) && old(Decoded()) <= Decoded()
      ensures if lost then Decoded() == old(Decoded()) && decoder.pivots == old(decoder.pivots)
        else old(nextSeq) in Decoded()
      ensures symbols == Marked(old(symbols) + [Symbol(tick, old(nextSeq), lost, false, tick, dest)],
          Decoded() - old(Decoded()))
    {
      hide Books, SendOn, Codec, Decoded, WireLost, Timely, NoneOpen, Now, Marked;
      OneListEach();
      NothingMarked(symbols + [Symbol(tick, nextSeq, true, false, tick, dest)], Decoded());
      var data := Payload(nextSeq);
      var q := EncodeSource(data, nextSeq);
      debt := Capped(debt + rate + completion);
      if WireLost(paths[dest]) {
        lost := BookLoss(dest, data, q);
      } else {
        lost := BookArrival(dest, data, q);
      }
    }

    lemma DecodedBelow(n: nat)
      requires Codec(n)
      ensures forall q :: q in Decoded() ==> q < n
    {}

    // ---- one tick

    /** Feedback older than each path's round trip is taken in; acknowledged sources leave the store. */
    method CollectFeedback()
      requires Valid()
      modifies this`paths, this`acks, this`storeOccupancy
      ensures Valid() && Timely(Now())
      ensures AllDrained(old(paths), paths, old(acks), acks, sendTick, tick)
      ensures |paths| == |old(paths)| && forall i :: 0 <= i < |paths| ==>
        paths[i] == old(paths)[i].(feedback := paths[i].feedback)
      ensures storeOccupancy + Sum(Queued(old(paths))) == old(storeOccupancy) + Sum(Queued(paths))
      ensures Kept(old(acks), acks, paths, tick)
    {
      hide Books, Codec, Decoded, Timely, Sum, SourceAcks, Queued, Kept, Carries;
      ghost var v := Now();
      BooksCarry(v, Decoded());
      var released := PopQueues();
      NothingDue(v.paths, paths, v.acks, acks, sendTick, tick);
      AfterFeedback(v, Decoded(), paths, acks, released);
      storeOccupancy := Less(storeOccupancy, released);
    }

    method PopQueues() returns (released: nat)
      requires |acks| == |paths| && forall i :: 0 <= i < |paths| ==> Carries(paths[i].feedback, acks[i], sendTick)
      modifies this`paths, this`acks
      ensures AllDrained(old(paths), paths, old(acks), acks, sendTick, tick)
      ensures released + Sum(Queued(paths)) == Sum(Queued(old(paths)))
    {
      hide Carries, Sum, SourceAcks;
      ghost var ps, ids := paths, acks;
      released := 0;
      for i := 0 to |paths|
        invariant |paths| == |acks| == |ps| == |ids|
        invariant paths[i..] == ps[i..] && acks[i..] == ids[i..]
        invariant forall k :: 0 <= k < i ==> Drained(ps[k], paths[k], ids[k], acks[k], sendTick, tick)
        invariant released + Sum(Queued(paths)) == Sum(Queued(ps))
      {
        assert paths[i] == ps[i] && acks[i] == ids[i];
        ghost var before := paths;
        var rest, n, left := PopDue(paths[i].feedback, tick, paths[i].rttTicks, acks[i], sendTick);
        SumUpdate(Queued(before), i, SourceAcks(rest));
        paths := paths[i := paths[i].(feedback := rest)];
        acks := acks[i := left];
        assert Queued(paths) == Queued(before)[i := SourceAcks(rest)];
        released := released + n;
      }
    }

    /** Every path's credit grows by its share; returns the first spare path with the most credit, or path 0. */
    method SpreadCredit(free: seq<nat>, shares: seq<real>) returns (best: nat)
      requires |free| == |shares| == |paths| > 0
      requires forall i :: 0 <= i < |free| && free[i] == 0 ==> shares[i] == 0.0
      modifies this`paths
      ensures best < |free| == |paths| && CreditOnly(old(paths), paths)
      ensures if Spare(free) then free[best] > 0 else best == 0
      ensures forall i :: 0 <= i < |paths| ==> paths[i].stripeCredit == old(paths)[i].stripeCredit + shares[i]
      ensures forall i :: 0 <= i < |free| && free[i] > 0 ==> paths[i].stripeCredit <= paths[best].stripeCredit
      ensures forall i :: 0 <= i < best && free[i] > 0 ==> paths[i].stripeCredit < paths[best].stripeCredit
    {
      hide CreditOnly, Total, Credits, Spare;
      ghost var ps := paths;
      NoCreditChange(ps);
      best := 0;
      var found := false;
      for i := 0 to |paths|
        invariant CreditOnly(ps, paths) && |paths| == |ps|
        invariant forall k :: 0 <= k < i ==> paths[k].stripeCredit == ps[k].stripeCredit + shares[k]
        invariant forall k :: i <= k < |paths| ==> paths[k].stripeCredit == ps[k].stripeCredit
        invariant if found then best < i && free[best] > 0 else best == 0
        invariant forall j :: 0 <= j < i && free[j] > 0 ==> found && paths[j].stripeCredit <= paths[best].stripeCredit
        invariant forall j :: 0 <= j < best && free[j] > 0 ==> paths[j].stripeCredit < paths[best].stripeCredit
      {
        if free[i] > 0 {
          var credit := paths[i].stripeCredit + shares[i];
          CreditStep(ps, paths, i, credit);
          paths := paths[i := paths[i].(stripeCredit := credit)];
          if !found || credit > paths[best].stripeCredit {
            found, best := true, i;
          }
        }
      }
      SpareAt(free, best, found);
    }

    /**
     * Smooth weighted round robin over the paths with a spare slot: every credit grows by its share of the
     * goodput, and the first path with the most credit pays one. Credits never drift: their sum stays. Without a
     * spare slot no credit grows and path 0 pays.
     */
    method NextSourcePath(free: seq<nat>, goodput: seq<real>) returns (best: nat)
      requires |free| == |goodput| == |paths| > 0
      modifies this`paths
      ensures best < |free| == |paths| && CreditOnly(old(paths), paths)
      ensures if Spare(free) then IsNext(old(paths), free, goodput, best) else best == 0
      ensures paths == Striped(old(paths), free, goodput, best)
      ensures Total(Credits(paths)) == Total(Credits(old(paths))) - (if Spare(free) then 0.0 else 1.0)
    {
      hide Total, Credits, CreditOnly, Shares, Spare;
      ghost var ps := paths;
      SharesSpare(free, goodput);
      var shares := Shares(free, goodput);
      best := SpreadCredit(free, shares);
      ghost var grown := paths;
      CreditsGrown(ps, grown, shares);
      var paid := paths[best].stripeCredit - 1.0;
      CreditStep(ps, grown, best, paid);
      paths := paths[best := paths[best].(stripeCredit := paid)];
      AreStriped(ps, paths, free, goodput, best);
    }

    /** Resends an open symbol on the best path with a spare slot. */
    method RetransmitSlot(free: seq<nat>, goodput: seq<real>, cand: nat) returns (left: seq<nat>, dest: nat)
      requires Valid() && Timely(Now()) && |free| == |goodput| == |paths| && Sum(free) > 0
      requires cand < |symbols| && Open(symbols[cand])
      modifies this, decoder
      ensures frontierHist == old(frontierHist) && frontierAcked == old(frontierAcked)
      ensures Valid() && Timely(Now()) && tick == old(tick) && rate == old(rate) && finished == old(finished)
      ensures Used(old(paths), paths, free, left) && |paths| == |old(paths)|
      ensures IsBest(free, goodput, dest) && SentAgain(old(Seen(free)), cand, dest, Seen(left), tick)
    {
      hide Valid, Now, Timely, Sum, SendOn, Used, WireLost, Marked, Decoded, IsBest, SentAgain;
      ghost var was := Seen(free);
      dest := BestSparePath(free, goodput);
      UsedOne(paths, free, dest, AsRetransmit, tick);
      var lost := Retransmit(cand, dest);
      left := free[dest := free[dest] - 1];
      AsSentAgain(was, cand, dest, Seen(left), tick, lost);
    }

    /** Pays one unit of debt with a repair on the best path with a spare slot. */
    method RepairSlot(free: seq<nat>, goodput: seq<real>) returns (left: seq<nat>, dest: nat)
      requires Valid() && Timely(Now()) && |free| == |goodput| == |paths| && Sum(free) > 0 && Min(width, nextSeq) > 0
      modifies this, encoder, decoder
      ensures frontierHist == old(frontierHist) && frontierAcked == old(frontierAcked)
      ensures Valid() && Timely(Now()) && tick == old(tick) && rate == old(rate) && finished == old(finished)
      ensures Used(old(paths), paths, free, left) && |paths| == |old(paths)|
      ensures IsBest(free, goodput, dest) && Repaired(old(Seen(free)), dest, Seen(left), tick, width)
    {
      hide Valid, Now, Timely, Sum, SendOn, Used, WireLost, Marked, Decoded, IsBest, Absorbed, RepairTerms, Repaired;
      ghost var was := Seen(free);
      dest := BestSparePath(free, goodput);
      UsedOne(paths, free, dest, AsRepair, tick);
      debt := debt - 1.0;
      var ok := SendRepair(dest);
      left := free[dest := free[dest] - 1];
      AsRepaired(was, dest, Seen(left), tick, width, !ok);
    }

    /** One wire slot: a confirmed retransmit, else a repair that is due, else new source unless the store is full. */
    method RunSlot(free: seq<nat>, goodput: seq<real>, confirmed: bool, completion: real)
      returns (left: seq<nat>, ghost used: Use)
      requires Valid() && Timely(Now()) && |free| == |goodput| == |paths| && Sum(free) > 0
      modifies this, encoder, decoder
      ensures frontierHist == old(frontierHist) && frontierAcked == old(frontierAcked)
      ensures Valid() && Timely(Now()) && tick == old(tick) && rate == old(rate) && finished == old(finished)
      ensures Used(old(paths), paths, free, left)
      ensures Slot(old(Seen(free)), used, Seen(left), tick, width, goodput, confirmed, rate + completion)
      ensures used.Sourcing? ==> OneSource(old(paths), free, left, old(acks), acks, old(nextSeq), old(symbols), symbols)
    {
      hide Books, Codec, Timely, Sum, Decoded, Used, Eligible, FirstEligible, AnyEligible, SendOn, OneSource, Stored,
          SentAgain, Repaired, Sourced, IsBest, IsNext, Marked;
      SlotFacts(free);
      hide Valid, Now;
      left := free;
      ghost var was := Seen(free);
      var cand := Candidate(symbols, paths, tick);
      var dest: nat;
      if cand < |symbols| && confirmed {
        FirstIsOpen(symbols, paths, tick, cand);
        left, dest := RetransmitSlot(free, goodput, cand);
        used := Resending(cand, dest);
      } else if debt >= 1.0 && encoder.window != [] {
        left, dest := RepairSlot(free, goodput);
        used := Repairing(dest);
      } else if !sourceDone {
        left, used := OfferSource(free, goodput, completion);
      } else {
        used := Idle;
      }
      SeenStored(left);
    }

    lemma SlotFacts(free: seq<nat>)
      requires Valid() && |free| == |paths|
      ensures Used(paths, paths, free, free) && Stored(Seen(free)) && (forall s :: s in symbols ==> s.path < |paths|)
      ensures (sourceDone <==> nextSeq >= NUM_SOURCE) && (encoder.window != [] <==> Min(width, nextSeq) > 0)
    {
      hide Books, Decoded, Sum, SourcesHold, SourceHolds, Stored, Used;
      UsedNone(paths, free);
      SeenStored(free);
      BooksRouted(Now(), Decoded());
      BooksBounds(Now(), Decoded());
    }

    /** Striping moves credits only. */
    method ChooseSourcePath(free: seq<nat>, goodput: seq<real>) returns (dest: nat)
      requires Valid() && Timely(Now()) && |free| == |goodput| == |paths| && Sum(free) > 0
      modifies this`paths
      ensures Valid() && Timely(Now()) && |paths| == |old(paths)|
      ensures IsNext(old(paths), free, goodput, dest) && paths == Striped(old(paths), free, goodput, dest)
      ensures dest < |free| && free[dest] > 0 && WireLost(paths[dest]) == WireLost(old(paths)[dest])
      ensures Used(old(paths), paths[dest := SendOn(paths[dest], AsSource, tick)], free, free[dest := free[dest] - 1])
    {
      hide Books, Codec, Timely, Decoded, CreditOnly, Shares, IsNext, Striped, WireLost, Used, SendOn, Sum;
      ghost var v := Now();
      SumPositive(free);
      NextHasRoom(paths, free, goodput);
      dest := NextSourcePath(free, goodput);
      AfterCredit(v, Decoded(), paths);
      UsedOneAfterCredit(old(paths), paths, free, dest, tick);
      SameChannel(old(paths), paths, dest);
    }

    lemma OneListEach()
      requires Valid()
      ensures |acks| == |paths| > 0
    {
      hide Codec, Books;
      BooksBounds(Now(), Decoded());
    }

    /** A new source on the path whose turn it is. */
    method SourceSlot(free: seq<nat>, goodput: seq<real>, completion: real) returns (left: seq<nat>, dest: nat)
      requires Valid() && Timely(Now()) && |free| == |goodput| == |paths| && Sum(free) > 0 && !sourceDone
      requires storeOccupancy < STORE_PER_PATH * |paths|
      modifies this, encoder, decoder
      ensures frontierHist == old(frontierHist) && frontierAcked == old(frontierAcked)
      ensures Valid() && Timely(Now()) && tick == old(tick) && rate == old(rate) && finished == old(finished)
      ensures Used(old(paths), paths, free, left) && |paths| == |old(paths)|
      ensures IsNext(old(paths), free, goodput, dest)
        && Sourced(old(Seen(free)), dest, Seen(left), tick, goodput, rate + completion)
      ensures OneSource(old(paths), free, left, old(acks), acks, old(nextSeq), old(symbols), symbols)
    {
      hide Valid, Now, Timely, Sum, SendOn, Used, NoneOpen, WireLost, OneSource, Marked, Decoded, IsNext, Striped,
          Capped, Sourced;
      ghost var was := Seen(free);
      OneListEach();
      dest := ChooseSourcePath(free, goodput);
      var lost := SendSource(dest, completion);
      left := free[dest := free[dest] - 1];
      OneSourceAt(old(paths), free, dest, old(acks), acks, old(nextSeq), old(symbols), symbols);
      AsSourced(was, dest, Seen(left), tick, goodput, rate + completion, lost);
    }

    /** A new source if the pool has a slot; a full pool stalls. */
    method OfferSource(free: seq<nat>, goodput: seq<real>, completion: real) returns (left: seq<nat>, ghost used: Use)
      requires Valid() && Timely(Now()) && |free| == |goodput| == |paths| && Sum(free) > 0 && !sourceDone
      modifies this, encoder, decoder
      ensures frontierHist == old(frontierHist) && frontierAcked == old(frontierAcked)
      ensures Valid() && Timely(Now()) && tick == old(tick) && rate == old(rate) && finished == old(finished)
      ensures Used(old(paths), paths, free, left)
      ensures old(Full(Seen(free))) ==> used == Stalled && Seen(left) == old(Seen(free)).(stalls := old(poolStalls) + 1)
      ensures !old(Full(Seen(free))) ==>
        && used.Sourcing? && IsNext(old(paths), free, goodput, used.dest)
        && Sourced(old(Seen(free)), used.dest, Seen(left), tick, goodput, rate + completion)
        && OneSource(old(paths), free, left, old(acks), acks, old(nextSeq), old(symbols), symbols)
    {
      hide Valid, Now, Timely, Sum, Used, OneSource, Decoded, IsNext, Sourced;
      UsedNone(paths, free);
      NextHasRoom(paths, free, goodput);
      if storeOccupancy >= STORE_PER_PATH * |paths| {
        poolStalls := poolStalls + 1;
        return free, Stalled;
      }
      var dest: nat;
      left, dest := SourceSlot(free, goodput, completion);
      used := Sourcing(dest);
    }

    /** All wire slots of the tick, each doing what its scene calls for: no path sends more than its capacity. */
    method RunSlots(inputs: Inputs) returns (ghost scenes: seq<Scene>, ghost uses: seq<Use>)
      requires Valid() && Timely(Now()) && |inputs.goodput| == |paths| && rate == inputs.rate
      modifies this, encoder, decoder
      ensures frontierHist == old(frontierHist) && frontierAcked == old(frontierAcked)
      ensures Valid() && Timely(Now()) && tick == old(tick) && rate == old(rate) && finished == old(finished)
        && |paths| == |old(paths)|
      ensures forall i :: 0 <= i < |paths| ==> SameBuild(old(paths)[i], paths[i])
      ensures forall i :: 0 <= i < |paths| ==>
        old(paths)[i].sent <= paths[i].sent <= old(paths)[i].sent + paths[i].capacity
      ensures Slots(scenes, uses, tick, width, inputs) && |uses| == Sum(Capacities(old(paths)))
      ensures scenes[0] == old(Seen(Capacities(paths))) && scenes[|uses|] == Seen(scenes[|uses|].free)
      // with nothing but sources to send and nothing lost, every slot carries one that is then waiting
      ensures Plain(inputs) && old(Calm()) ==>
        && nextSeq == old(nextSeq) + Sum(Capacities(old(paths))) && debt == 0.0 && NoneOpen(symbols)
        && Longer(old(acks), acks, Capacities(old(paths)))
    {
      hide Valid, Now, Timely, Sum, OneSource, NoneOpen, WireLost, Used, AnyEligible, Longer, Slot, Slots, Decoded;
      var free: seq<nat> := Capacities(paths);
      var total := Sum(free);
      ghost var plain := Plain(inputs) && Calm();
      scenes, uses := [Seen(free)], [];
      NoSlots(scenes[0], tick, width, inputs);
      RoomLeft();
      LongerNow(acks, free);
      for i := 0 to total
        invariant Valid() && Timely(Now()) && tick == old(tick) && rate == old(rate) && finished == old(finished)
        invariant |paths| == |old(paths)| == |free| == |inputs.goodput| && Sum(free) + i >= total
        invariant forall p :: 0 <= p < |paths| ==>
          && free[p] + paths[p].sent == old(paths)[p].capacity + old(paths)[p].sent
            && paths[p].sent >= old(paths)[p].sent
          && SameBuild(old(paths)[p], paths[p])
        invariant frontierHist == old(frontierHist) && frontierAcked == old(frontierAcked)
        invariant Slots(scenes, uses, tick, width, inputs) && |uses| == i && |scenes| == i + 1
        invariant scenes[0] == old(Seen(Capacities(paths))) && scenes[i] == Seen(free)
        invariant plain ==> nextSeq == old(nextSeq) + i && debt == 0.0 && NoneOpen(symbols) && Sum(free) + i == total
        invariant plain ==> Filling(old(acks), acks, Capacities(old(paths)), free)
      {
        ghost var free0, ps0, acks0, q, ss0 := free, paths, acks, nextSeq, symbols;
        RoomLeft();
        ghost var used: Use;
        free, used := RunSlot(free, inputs.goodput, inputs.confirmed(i), inputs.completion(i));
        SlotsSnoc(scenes, uses, used, Seen(free), tick, width, inputs);
        SlotUsed(ps0, paths, free0, free);
        if plain {
          PlainUse(scenes[i], used, Seen(free), tick, width, inputs, i);
          PlainSlot(ps0, free0, free, acks0, acks, q, ss0, symbols);
          FillingOn(old(acks), acks0, acks, Capacities(old(paths)), free0, free);
        }
        scenes, uses := scenes + [Seen(free)], uses + [used];
      }
      if plain {
        Filled(old(acks), acks, Capacities(old(paths)), free);
      }
    }

    /** Nothing to correct, nothing that could be lost, and room for a tick of sources. */
    ghost predicate Calm()
      reads this`debt, this`symbols, this`paths, this`nextSeq
    {
      && debt == 0.0 && NoneOpen(symbols) && Lossless(paths)
      && nextSeq + Sum(Capacities(paths)) <= Min(NUM_SOURCE, STORE_PER_PATH * |paths|)
    }

    lemma RoomLeft()
      requires Valid()
      ensures |acks| == |paths| > 0 && (sourceDone <==> nextSeq == NUM_SOURCE) && storeOccupancy <= nextSeq
    {
      hide Codec, Books;
      BooksBounds(Now(), Decoded());
      OccupancyAtMostSent(Now(), Decoded());
    }

    // ---- giving up, acknowledging, finishing

    /** Gives one open symbol up. */
    method GiveUpOne(i: nat)
      requires Valid() && Timely(Now()) && i < |symbols| && Open(symbols[i]) && mayGiveUp
      modifies this`symbols, this`givenUp, this`givenUpSeqs, this`lostPending, this`storeOccupancy
      ensures Valid() && Timely(Now())
      ensures symbols == old(symbols)[i := old(symbols)[i].(recovered := true)]
      ensures givenUp == old(givenUp) + 1 && givenUpSeqs == old(givenUpSeqs) + {old(symbols)[i].at}
      ensures storeOccupancy + 1 == old(storeOccupancy)
    {
      hide Books, Timely, Decoded, Codec;
      AfterGivingUp(Now(), Decoded(), i);
      CloseGivenUp(i);
    }

    method CloseGivenUp(i: nat)
      requires i < |symbols|
      modifies this`symbols, this`givenUp, this`givenUpSeqs, this`lostPending, this`storeOccupancy
      ensures symbols == old(symbols)[i := old(symbols)[i].(recovered := true)] && givenUp == old(givenUp) + 1
      ensures givenUpSeqs == old(givenUpSeqs) + {old(symbols)[i].at} && storeOccupancy == Less(old(storeOccupancy), 1)
    {
      symbols := symbols[i := symbols[i].(recovered := true)];
      givenUp := givenUp + 1;
      givenUpSeqs := givenUpSeqs + {symbols[i].at};
      lostPending := Less(lostPending, 1);
      storeOccupancy := Less(storeOccupancy, 1);
    }

    method GiveUpOlder(cut: nat)
      requires Valid() && Timely(Now()) && mayGiveUp
      modifies this`symbols, this`givenUp, this`givenUpSeqs, this`lostPending, this`storeOccupancy
      ensures Valid() && Timely(Now()) && |symbols| == |old(symbols)|
      ensures forall i :: 0 <= i < |symbols| ==> symbols[i] == GivenUpAt(old(symbols)[i], tick, cut)
      ensures givenUpSeqs == old(givenUpSeqs) + TooOld(old(symbols), tick, Some(cut))
    {
      hide Valid, Timely, Now, TooOld;
      NoneOld(tick, Some(cut));
      assert symbols[..0] == [];
      for i := 0 to |symbols|
        invariant |symbols| == |old(symbols)| && Valid() && Timely(Now())
        invariant givenUpSeqs == old(givenUpSeqs) + TooOld(old(symbols)[..i], tick, Some(cut))
        invariant forall k :: 0 <= k < i ==> symbols[k] == GivenUpAt(old(symbols)[k], tick, cut)
        invariant forall k :: i <= k < |symbols| ==> symbols[k] == old(symbols)[k]
      {
        OneMoreOld(old(symbols), i, tick, Some(cut));
        if Open(symbols[i]) && Less(tick, symbols[i].tick) > cut {
          GiveUpOne(i);
        }
      }
      assert old(symbols)[..|symbols|] == old(symbols);
    }

    /** Below full reliability, losses older than the cut are given up; their slots go back to the store. */
    method GiveUp(tCut: Option<nat>)
      requires Valid() && Timely(Now())
      modifies this`symbols, this`givenUp, this`givenUpSeqs, this`lostPending, this`storeOccupancy
      ensures Valid() && Timely(Now()) && |symbols| == |old(symbols)|
      ensures !mayGiveUp || tCut.None? ==> symbols == old(symbols)
      ensures mayGiveUp && tCut.Some? ==>
        forall i :: 0 <= i < |symbols| ==>
          symbols[i] == GivenUpAt(old(symbols)[i], tick, Max(tCut.value, AggregateRtt(paths) * 2))
      ensures givenUpSeqs == old(givenUpSeqs) + TooOld(old(symbols), tick, CutOff(mayGiveUp, tCut, paths))
    {
      hide Valid, Timely, Now, AggregateRtt, Max, Less, Open, GivenUpAt, TooOld;
      NoCutNoneOld(symbols, tick);
      if mayGiveUp && tCut.Some? {
        GiveUpOlder(Max(tCut.value, AggregateRtt(paths) * 2));
      }
    }

    /** Arrived symbols whose path's round trip has passed are marked. */
    method MarkArrived()
      requires Valid() && Timely(Now())
      modifies this`symbols
      ensures Valid() && Timely(Now()) && |symbols| == |old(symbols)|
      ensures forall i :: 0 <= i < |symbols| ==> symbols[i] == ArrivedAt(old(symbols)[i], paths, tick)
    {
      hide Books, Timely, Decoded, Codec;
      BooksRouted(Now(), Decoded());
      ghost var v := Now();
      MarkEach();
      AfterMarking(v, Decoded(), symbols);
    }

    method MarkEach()
      requires forall s :: s in symbols ==> s.path < |paths|
      modifies this`symbols
      ensures |symbols| == |old(symbols)|
      ensures forall i :: 0 <= i < |symbols| ==> symbols[i] == ArrivedAt(old(symbols)[i], paths, tick)
    {
      for i := 0 to |symbols|
        invariant |symbols| == |old(symbols)| && symbols[i..] == old(symbols)[i..]
        invariant forall k :: 0 <= k < i ==> symbols[k] == ArrivedAt(old(symbols)[k], paths, tick)
      {
        assert symbols[i] == old(symbols)[i];
        assert symbols[i] in old(symbols);
        var s := symbols[i];
        if !s.lost && !s.recovered && Less(tick, s.tick) >= paths[s.path].rttTicks {
          symbols := symbols[i := s.(recovered := true)];
        }
      }
    }

    /** All delivered or given up, nothing open, or out of time. */
    method CheckFinish()
      requires Valid() && (finished ==> Settled() || tick > TICK_LIMIT)
      modifies this`finished
      ensures Valid() && (finished ==> Settled() || tick > TICK_LIMIT) && (tick > TICK_LIMIT ==> finished)
      ensures Settled() ==> finished
    {
      hide Valid, Now, Settled, Open;
      FinishFacts();
      if sourceDone && cumDecoded + givenUp >= NUM_SOURCE {
        finished := true;
      }
      if sourceDone && lostPending == 0 && (forall s :: s in symbols ==> !Open(s)) {
        finished := true;
      }
      if tick > TICK_LIMIT {
        finished := true;
      }
    }

    lemma FinishFacts()
      requires Valid()
      ensures Settled() ==> sourceDone
      ensures sourceDone ==> (cumDecoded + givenUp >= NUM_SOURCE <==> Settled())
      ensures sourceDone ==> ((forall s :: s in symbols ==> !Open(s)) <==> Settled())
    {
      hide Books, Decoded, Codec, Open;
      AllSettled(Now(), Decoded());
    }

    /** Every source was sent, and each was delivered or given up. */
    ghost predicate Settled()
      reads this`sourceDone, this`givenUpSeqs, decoder`recoveredIdx
    {
      sourceDone && Decoded() + givenUpSeqs == Upto(NUM_SOURCE)
    }

    /** The contiguous prefix that is delivered or given up. */
    method AdvanceFrontier()
      requires Valid() && Timely(Now())
      modifies this`frontier
      ensures Valid() && Timely(Now()) && frontier >= old(frontier)
      ensures frontier < NUM_SOURCE ==> latBySeq[frontier].None? && frontier !in givenUpSeqs
    {
      hide Books, Decoded, Codec, Recents;
      BooksLatencies(Now(), Decoded());
      while frontier < |latBySeq| && (latBySeq[frontier].Some? || frontier in givenUpSeqs)
        invariant Valid() && Timely(Now()) && frontier >= old(frontier)
        decreases |latBySeq| - frontier
      {
        FrontierStep(Now(), Decoded());
        frontier := frontier + 1;
      }
    }

    /** Records the frontier and lets the sender see it one aggregate round trip late. */
    method RecordFrontier()
      requires Valid() && Timely(Now())
      modifies this`frontierHist, this`frontierAcked
      ensures Valid() && Timely(Now()) && frontierHist != []
      ensures tick < AggregateRtt(paths) ==>
        frontierHist == old(frontierHist) + [(tick, frontier)] && frontierAcked == old(frontierAcked)
      ensures tick >= AggregateRtt(paths) ==>
        && Superseded(old(frontierHist) + [(tick, frontier)], frontierHist, tick - AggregateRtt(paths))
        && frontierAcked ==
          if frontierHist[0].0 <= tick - AggregateRtt(paths) then frontierHist[0].1 else old(frontierAcked)
    {
      hide Books, Decoded, Codec, Recents, AggregateRtt, Superseded;
      AfterRecording(Now(), Decoded());
      frontierHist := frontierHist + [(tick, frontier)];
      if tick >= AggregateRtt(paths) {
        Forget(tick - AggregateRtt(paths));
        if frontierHist[0].0 <= tick - AggregateRtt(paths) {
          AfterAcknowledging(Now(), Decoded());
          frontierAcked := frontierHist[0].1;
        }
      }
    }

    /** Drops recorded frontiers that a later one, also old enough, supersedes. */
    method Forget(cut: nat)
      requires Valid() && Timely(Now()) && frontierHist != []
      modifies this`frontierHist
      ensures Valid() && Timely(Now()) && Superseded(old(frontierHist), frontierHist, cut)
      ensures frontierHist != []
    {
      hide Valid, Now, Timely;
      ghost var d := 0;
      while |frontierHist| > 1 && frontierHist[1].0 <= cut
        invariant Valid() && Timely(Now()) && d < |old(frontierHist)| && frontierHist == old(frontierHist)[d..]
        invariant forall k :: 1 <= k <= d ==> old(frontierHist)[k].0 <= cut
        decreases |frontierHist|
      {
        ForgetFirst();
        d := d + 1;
      }
    }

    method ForgetFirst()
      requires Valid() && Timely(Now()) && |frontierHist| > 1
      modifies this`frontierHist
      ensures Valid() && Timely(Now()) && frontierHist == old(frontierHist)[1..]
    {
      hide Books, Decoded, Codec, Recents;
      AfterForgetting(Now(), Decoded());
      frontierHist := frontierHist[1..];
    }

    /** Resolved symbols older than ten ticks are dropped; then the clock moves on. */
    method Prune()
      requires Valid()
      modifies this`symbols, this`tick
      ensures Valid() && tick == old(tick) + 1 && symbols == Retained(old(symbols), old(tick))
    {
      hide Books, Decoded, Codec, Retained;
      AfterPruning(Now(), Decoded(), tick);
      AfterTick(Now().(symbols := Retained(symbols, tick)), Decoded());
      symbols := Retained(symbols, tick);
      tick := tick + 1;
    }

    /** Finished means settled or out of time; unfinished means there is time left. */
    ghost predicate Ended()
      reads this`finished, this`tick, this`sourceDone, this`givenUpSeqs, decoder`recoveredIdx
    {
      (finished ==> Settled() || tick > TICK_LIMIT + 1) && (!finished ==> tick <= TICK_LIMIT + 1)
    }

    /** After the wire: no open loss is older than the cut, and every arrival a round trip old is marked. */
    method Resolve(tCut: Option<nat>)
      requires Valid() && Timely(Now())
      modifies this`symbols, this`givenUp, this`givenUpSeqs, this`lostPending, this`storeOccupancy
      ensures Valid() && Timely(Now())
      ensures symbols == Resolved(old(symbols), paths, tick, CutOff(mayGiveUp, tCut, paths))
      ensures givenUpSeqs == old(givenUpSeqs) + TooOld(old(symbols), tick, CutOff(mayGiveUp, tCut, paths))
      ensures tCut.None? && NoneOpen(old(symbols)) ==> NoneOpen(symbols)
    {
      hide Valid, Now, Timely, AggregateRtt, Max, NoneOpen, GivenUpAt, ArrivedAt, TooOld;
      GiveUp(tCut);
      ghost var kept := symbols;
      MarkArrived();
      MarkedStayClosed(kept, symbols, paths, tick);
    }

    /** Feedback that is due is taken in, and the rate is set. */
    method Prepare(inputs: Inputs)
      requires Valid()
      modifies this`paths, this`acks, this`storeOccupancy, this`rate
      ensures Valid() && Timely(Now()) && rate == inputs.rate
      ensures Opens(old(Seen(Capacities(paths))), Seen(Capacities(paths)), tick)
      ensures |paths| == |old(paths)| && Capacities(paths) == Capacities(old(paths))
      ensures forall i :: 0 <= i < |paths| ==>
        SameBuild(old(paths)[i], paths[i]) && paths[i].sent == old(paths)[i].sent
      ensures Kept(old(acks), acks, old(paths), tick) && (old(Calm()) ==> Calm())
    {
      hide Valid, Now, Timely, AllDrained, Sum, Queued, NoneOpen, Lossless, Kept, Decoded, Popped;
      CollectFeedback();
      rate := inputs.rate;
      DrainedPopped(old(paths), paths, old(acks), acks, sendTick, tick);
      assert Capacities(paths) == Capacities(old(paths));
      StillLossless(old(paths), paths);
      SameClocks(old(acks), acks, old(paths), paths, tick);
    }

    /** Everything that moves within a tick before the clock does. */
    method Work(inputs: Inputs) returns (ghost scenes: seq<Scene>, ghost uses: seq<Use>)
      requires Valid() && |inputs.goodput| == |paths|
      modifies this, encoder, decoder
      ensures frontierHist == old(frontierHist) && frontierAcked == old(frontierAcked)
      ensures Valid() && Timely(Now()) && tick == old(tick) && finished == old(finished) && |paths| == |old(paths)|
      ensures forall i :: 0 <= i < |paths| ==>
        old(paths)[i].sent <= paths[i].sent <= old(paths)[i].sent + paths[i].capacity
      ensures rate == inputs.rate && forall i :: 0 <= i < |paths| ==> SameBuild(old(paths)[i], paths[i])
      ensures Plain(inputs) && old(Calm()) ==>
        && nextSeq == old(nextSeq) + Sum(Capacities(old(paths))) && debt == 0.0 && NoneOpen(symbols)
        && Waiters(old(acks), acks, old(paths), tick)
      ensures Slots(scenes, uses, tick, width, inputs) && |uses| == Sum(Capacities(old(paths)))
        && |scenes| == |uses| + 1
      ensures Opens(old(Seen(Capacities(paths))), scenes[0], tick)
      ensures Resolves(scenes[|uses|], Seen(scenes[|uses|].free), tick, CutOff(mayGiveUp, inputs.tCut, paths))
    {
      hide Valid, Now, Timely, Sum, NoneOpen, Longer, Waiters, Kept, Slots, Slot, Decoded, Resolved, CutOff, Opens,
          TooOld,
          Calm, Plain;
      PlainKeepsAll(inputs);
      Prepare(inputs);
      ghost var kept := acks;
      scenes, uses := RunSlots(inputs);
      OneScene(scenes, uses, tick, width, inputs);
      if Longer(kept, acks, Capacities(old(paths))) {
        WaitersNow(old(acks), kept, acks, old(paths), tick);
      }
      Resolve(inputs.tCut);
    }

    /** One tick. A finished simulation does not move; otherwise no path sends more than its capacity. */
    method Step(inputs: Inputs) returns (ghost scenes: seq<Scene>, ghost uses: seq<Use>)
      requires Valid() && Ended() && |inputs.goodput| == |paths|
      modifies this, encoder, decoder
      ensures Valid() && Ended() && |paths| == |old(paths)|
      ensures old(finished) ==> finished && tick == old(tick) && Now() == old(Now())
      ensures !old(finished) ==> tick == old(tick) + 1 && (Settled() ==> finished)
      ensures !old(finished) ==> forall s :: s in symbols ==> Open(s) || Less(old(tick), s.tick) < 10
      ensures !old(finished) && frontier < NUM_SOURCE ==> latBySeq[frontier].None? && frontier !in givenUpSeqs
      ensures !old(finished) ==> Recorded(old(frontierHist), old(frontierAcked), old(tick))
      ensures forall i :: 0 <= i < |paths| ==> SameBuild(old(paths)[i], paths[i])
      ensures !old(finished) && Plain(inputs) && old(Calm()) ==>
        && nextSeq == old(nextSeq) + Sum(Capacities(old(paths))) && debt == 0.0 && NoneOpen(symbols)
        && Waiters(old(acks), acks, old(paths), old(tick)) && frontier == nextSeq
      ensures forall i :: 0 <= i < |paths| ==>
        old(paths)[i].sent <= paths[i].sent <= old(paths)[i].sent + paths[i].capacity
      // the tick is the chain of its slots, between taking the feedback in and resolving what is old
      ensures !old(finished) ==>
        && rate == inputs.rate
        && Ticked(old(Seen(Capacities(paths))), scenes, uses, Seen([]), old(tick), width, inputs,
                  CutOff(mayGiveUp, inputs.tCut, paths))
      ensures !old(finished) && mayGiveUp && inputs.tCut.Some? ==>
        forall s :: s in symbols && Open(s) ==>
          Less(old(tick), s.tick) <= Max(inputs.tCut.value, AggregateRtt(paths) * 2)
      // a confirmed loss whose clock has run is sent again, and a repair that is owed is sent when no loss is confirmed
      ensures !old(finished) && old(AnyEligible(symbols, paths, tick)) && inputs.confirmed(0) ==>
        totalArq > old(totalArq)
      ensures !old(finished) && old(debt) >= 1.0 && Min(width, old(nextSeq)) > 0 && !inputs.confirmed(0) ==>
        totalFec > old(totalFec)
    {
      hide Valid, Now, Timely, Settled, NoneOpen, Waiters, Plain, Sum, AggregateRtt, Calm, Recorded, Less, Open,
          Slots, Decoded, AnyEligible, Retained, Opens, Resolves, Ticked, Max, Min;
      scenes, uses := [], [];
      if finished {
        return;
      }
      SomeSlot();
      ghost var was, cut := Seen(Capacities(paths)), CutOff(mayGiveUp, inputs.tCut, paths);
      scenes, uses := Work(inputs);
      SameAggregate(old(paths), paths);
      ghost var resolved := Seen(scenes[|uses|].free);
      EndTick();
      RetainedAre(resolved.symbols, old(tick));
      Closing(was, scenes, uses, resolved, Seen([]), old(tick), width, inputs, cut);
      FirstThings(was, scenes, uses, Seen([]), old(tick), width, inputs, cut);
    }

    lemma SomeSlot()
      requires Valid()
      ensures Sum(Capacities(paths)) > 0
    {
      hide Codec, Books, Decoded;
      BooksCapacities(Now(), Decoded());
      OneListEach();
      SumUpdate(Capacities(paths), 0, 0);
    }

    /** The end of a tick: finishing, the frontier and what the sender sees of it, and pruning. */
    method EndTick()
      requires Valid() && Timely(Now()) && !finished && tick <= TICK_LIMIT + 1
      modifies this`finished, this`frontier, this`frontierHist, this`frontierAcked, this`symbols, this`tick
      ensures Valid() && Ended() && tick == old(tick) + 1 && (Settled() ==> finished)
      ensures forall s :: s in symbols ==> Open(s) || Less(old(tick), s.tick) < 10
      ensures frontier < NUM_SOURCE ==> latBySeq[frontier].None? && frontier !in givenUpSeqs
      ensures Recorded(old(frontierHist), old(frontierAcked), old(tick))
      ensures old(NoneOpen(symbols)) ==> NoneOpen(symbols) && frontier == nextSeq
      ensures symbols == Retained(old(symbols), old(tick))
    {
      hide Valid, Now, Timely, Settled, NoneOpen, Superseded, AggregateRtt, Less, Open, Retained;
      CheckFinish();
      AdvanceFrontier();
      FrontierCatchesUp();
      RecordFrontier();
      RetainedAre(symbols, tick);
      RetainedClosed(symbols, tick);
      Prune();
    }

    /** The frontier of a tick is recorded, and the one the sender sees is an aggregate round trip old. */
    ghost predicate Recorded(hist: seq<(nat, nat)>, acked: nat, now: nat)
      reads this`paths, this`frontier, this`frontierHist, this`frontierAcked
    {
      var all := hist + [(now, frontier)];
      if now < AggregateRtt(paths) then frontierHist == all && frontierAcked == acked
      else
        && Superseded(all, frontierHist, now - AggregateRtt(paths))
        && frontierAcked == if frontierHist[0].0 <= now - AggregateRtt(paths) then frontierHist[0].1 else acked
    }

    /** With nothing open the frontier stops only at what was never sent. */
    lemma FrontierCatchesUp()
      requires Valid() && (frontier < NUM_SOURCE ==> latBySeq[frontier].None? && frontier !in givenUpSeqs)
      ensures NoneOpen(symbols) ==> frontier == nextSeq
    {
      hide Codec, Decoded, Ledger, Queues, Counts, LatenciesMatch, FrontiersHold, Routed, Sum, Queued, Holes, Open;
      FrontierWasSent(Now(), Decoded());
      BooksBounds(Now(), Decoded());
      BooksLatencies(Now(), Decoded());
      NothingOpen(symbols);
      LedgerPartition(symbols, nextSeq, Decoded(), givenUpSeqs, cumDecoded, givenUp);
      assert frontier < nextSeq ==> frontier in Upto(nextSeq);
      assert NoneOpen(symbols) ==> Decoded() + givenUpSeqs == Upto(nextSeq);
    }

    // ---- what every reachable state satisfies

    /** Sent sources are delivered, given up or still open, each exactly once. */
    lemma DeliveryConserved()
      requires Valid()
      ensures cumDecoded + givenUp + |Holes(symbols)| == nextSeq == totalSrc
      ensures cumDecoded == |Decoded() - givenUpSeqs| && givenUp == |givenUpSeqs|
      ensures Decoded() + givenUpSeqs + Holes(symbols) == Upto(nextSeq) && (Decoded() + givenUpSeqs) !! Holes(symbols)
      ensures !mayGiveUp ==> givenUp == 0
    {
      hide Codec, Ledger, Queues, Counts, FrontiersHold, LatenciesMatch, Routed, Sum, Queued, Holes, Upto, Decoded;
      BooksBalance(Now(), Decoded());
      LedgerPartition(symbols, nextSeq, Decoded(), givenUpSeqs, cumDecoded, givenUp);
    }

    /** With every source sent and settled, deliveries and give-ups add up to all of them. */
    lemma SettledIsComplete()
      requires Valid() && Ended()
      ensures finished && tick <= TICK_LIMIT + 1 ==> cumDecoded + givenUp == NUM_SOURCE
      ensures !finished ==> tick <= TICK_LIMIT + 1
    {
      hide Codec, Decoded, Holes, Open;
      DeliveryConserved();
      FinishFacts();
      BooksBounds(Now(), Decoded());
    }

    lemma QueuesAreLists()
      requires Valid()
      ensures |acks| == |paths| && forall i :: 0 <= i < |paths| ==> Queued(paths)[i] == |acks[i]|
    {
      hide Books, Codec, Decoded, Carries, SourceAcks;
      BooksCarry(Now(), Decoded());
      forall i | 0 <= i < |paths|
        ensures Queued(paths)[i] == |acks[i]|
      {
        CarriesCount(paths[i].feedback, acks[i], sendTick);
      }
    }

    /**
     * The store is exactly the unacknowledged arrivals plus the open losses, within the pool. It exceeds what lies
     * above the acknowledged frontier by no more than what waits on paths slower than the aggregate clock, so not at
     * all when there is none, as on a single path.
     */
    lemma StoreExact()
      requires Valid()
      ensures storeOccupancy == Sum(Queued(paths)) + |Holes(symbols)| <= STORE_PER_PATH * |paths|
      ensures storeOccupancy <= nextSeq - frontierAcked + Sum(SlowQueued(paths, AggregateRtt(paths)))
      ensures (forall i :: 0 <= i < |paths| ==> paths[i].rttTicks <= AggregateRtt(paths)) ==>
        storeOccupancy <= nextSeq - frontierAcked
      ensures |paths| == 1 ==> storeOccupancy <= nextSeq - frontierAcked
    {
      hide Books, Codec, Sum, Queued, SlowQueued, Holes, Decoded, AggregateRtt;
      BooksBalance(Now(), Decoded());
      OccupancyAboveFrontier(Now(), Decoded());
      if forall i :: 0 <= i < |paths| ==> paths[i].rttTicks <= AggregateRtt(paths) {
        NothingSlow(paths, AggregateRtt(paths));
      }
      if |paths| == 1 {
        BooksCapacities(Now(), Decoded());
        SinglePathRtt(paths);
        NothingSlow(paths, AggregateRtt(paths));
      }
    }

    /** Nothing is decoded for free: at most one source per symbol that arrived. */
    lemma InformationBound()
      requires Valid()
      ensures cumDecoded <= |Decoded()| == |decoder.recovered| <= cumArrived
      ensures cumSent == totalSrc + totalFec + totalArq && cumArrived <= cumSent
    {
      hide Ledger, Queues, FrontiersHold, LatenciesMatch, Routed, Sum, Queued, Holes, Triangular, Clear, Sized,
          Unfinished, SourcesHold, RowsHold, Within, Consecutive;
      DeliveredCount(Now(), Decoded());
      BooksBalance(Now(), Decoded());
      SubsetSize(Decoded() - givenUpSeqs, Decoded());
      ArrivedAtMostSent(paths);
    }

    /** What a path sent is of three kinds, and it lost exactly what its channel loses of so many. */
    lemma LossesAreTheChannels(i: nat)
      requires Valid() && i < |paths|
      ensures paths[i].sent == paths[i].src + paths[i].fec + paths[i].arq == paths[i].arrived + paths[i].lost
      ensures paths[i].lost == LossesIn(paths[i].channel, paths[i].sent)
    {
      hide Codec, Decoded, Ledger, Queues, FrontiersHold, LatenciesMatch, Routed, Sum, Queued, Holes, LossesIn;
    }

    /**
     * At full delivery the overhead, corrections per source, is at least what the realized channel
     * forced, losses per arrival; stated without the divisions.
     */
    lemma OverheadFloor()
      requires Valid() && cumDecoded == totalSrc
      ensures totalSrc <= cumArrived && (totalFec + totalArq) * cumArrived >= (cumSent - cumArrived) * totalSrc
    {
      hide Valid, Decoded;
      InformationBound();
      FloorHolds(totalSrc, totalFec + totalArq, cumArrived, cumSent);
    }

    /** Every decoded symbol is the source that was sent. */
    lemma DecodedIsTrue(i: nat)
      requires Valid() && i < |decoder.recovered|
      ensures decoder.recovered[i].1 == Payload(decoder.recovered[i].0) && decoder.recovered[i].0 < nextSeq
      ensures |decoder.recovered[i].1| == 8
        && forall k :: 0 <= k < 8 ==> ToInt(decoder.recovered[i].1[k]) == decoder.recovered[i].0 % 256
    {
      hide Books, Triangular, Clear, Sized, Unfinished, RowsHold, Within, Consecutive;
      var data := decoder.recovered[i].1;
      assert forall k :: 0 <= k < |data| ==> data[k] == Sources()(decoder.recovered[i].0, k);
    }
  }

  /**
   * A whole run from the start, over any channel, rates, goodput estimates, draws and give-up ages:
   * the counters balance at the end, the store is within its pool, nothing is decoded for free, and a
   * run that stops before the tick limit has every source delivered or given up.
   */
  method Run(specs: seq<PathSpec>, width: nat, mayGiveUp: bool, inputs: seq<Inputs>) returns (sim: Simulation)
    requires specs != [] && forall i :: 0 <= i < |inputs| ==> |inputs[i].goodput| == Min(|specs|, 8)
    ensures sim.Valid() && sim.Ended() && fresh(sim)
    ensures sim.cumDecoded + sim.givenUp + |Holes(sim.symbols)| == sim.nextSeq
    ensures sim.storeOccupancy == Sum(Queued(sim.paths)) + |Holes(sim.symbols)| <= STORE_PER_PATH * |sim.paths|
    ensures (forall i :: 0 <= i < |sim.paths| ==> sim.paths[i].rttTicks <= AggregateRtt(sim.paths))
      ==> sim.storeOccupancy <= sim.nextSeq - sim.frontierAcked
    ensures sim.cumDecoded <= sim.cumArrived <= sim.cumSent == sim.totalSrc + sim.totalFec + sim.totalArq
    ensures sim.finished && sim.tick <= TICK_LIMIT + 1 ==> sim.cumDecoded + sim.givenUp == NUM_SOURCE
    ensures sim.finished && sim.tick <= TICK_LIMIT + 1 && !mayGiveUp ==> sim.cumDecoded == NUM_SOURCE
    ensures |inputs| > TICK_LIMIT + 1 ==> sim.finished
    ensures forall i :: 0 <= i < |sim.decoder.recovered| ==>
      sim.decoder.recovered[i].1 == Payload(sim.decoder.recovered[i].0)
  {
    hide *;
    sim := new Simulation(specs, width, mayGiveUp);
    Drive(sim, inputs);
    sim.DeliveryConserved();
    sim.StoreExact();
    sim.InformationBound();
    sim.SettledIsComplete();
    forall i | 0 <= i < |sim.decoder.recovered|
      ensures sim.decoder.recovered[i].1 == Payload(sim.decoder.recovered[i].0)
    {
      sim.DecodedIsTrue(i);
    }
  }

  // ---- a slow path

  /** Four slots at five ticks and one slot at two ticks, none of them lossy; the aggregate round trip is four ticks. */
  predicate SlowAndFast(ps: seq<Path>) {
    && |ps| == 2 && ps[0].capacity == 4 && ps[0].rttTicks == 5 && ps[1].capacity == 1 && ps[1].rttTicks == 2
    && ps[0].channel == [] && ps[1].channel == []
  }

  lemma SumOfTwo(s: seq<nat>)
    requires |s| == 2
    ensures Sum(s) == s[0] + s[1]
  {
    var one := s[..1];
    assert one[..0] == [] && Sum(one) == s[0];
  }

  lemma SlowAndFastSums(ps: seq<Path>)
    requires SlowAndFast(ps)
    ensures Sum(Capacities(ps)) == 5 && AggregateRtt(ps) == 4
  {
    SumOfTwo(Capacities(ps));
    SumOfTwo(WeightedRtts(ps));
  }

  /** The frontiers recorded in t ticks of five sources each. */
  function Climbing(t: nat): (r: seq<(nat, nat)>)
    ensures |r| == t && forall i :: 0 <= i < t ==> r[i] == (i, 5 * (i + 1))
  {
    seq(t, i => (i, 5 * (i + 1)))
  }

  lemma FirstSeen(left: seq<(nat, nat)>)
    requires Superseded(Climbing(5), left, 0)
    ensures left[0] == (0, 5)
  {
    assert Climbing(5)[1] == (1, 10);
  }

  /** After t ticks of sources only. */
  ghost predicate Streamed(sim: Simulation, t: nat)
    reads sim, sim.encoder, sim.decoder
  {
    && sim.Valid() && sim.Ended() && !sim.finished && sim.tick == t && SlowAndFast(sim.paths) && |sim.acks| == 2
    && sim.debt == 0.0 && NoneOpen(sim.symbols) && sim.nextSeq == 5 * t
    && |sim.acks[0]| >= 4 * t && (t > 0 ==> |sim.acks[1]| >= 1)
    && (t <= 4 ==> sim.frontierHist == Climbing(t)) && sim.frontierAcked == if t <= 4 then 0 else 5
  }

  method StreamTick(sim: Simulation, t: nat)
    requires Streamed(sim, t) && t < 5
    modifies sim, sim.encoder, sim.decoder
    ensures Streamed(sim, t + 1)
  {
    hide Simulation.Valid, Sum, AggregateRtt, NoneOpen, Simulation.Now, Superseded, Slots, Opens, Closes, CutOff,
        AnyEligible;
    SlowAndFastSums(sim.paths);
    var inputs := Inputs(0.0, [1.0, 1.0], _ => false, _ => 0.0, None);
    assert Plain(inputs);
    var _, _ := sim.Step(inputs);
    assert sim.nextSeq == 5 * (t + 1);
    assert SlowAndFast(sim.paths);
    SlowAndFastSums(sim.paths);
    sim.RoomLeft();
    assert !sim.finished;
    assert Climbing(t + 1) == Climbing(t) + [(t, 5 * (t + 1))];
    if t == 4 {
      FirstSeen(sim.frontierHist);
    }
  }

  lemma TwoMade(specs: seq<PathSpec>)
    requires specs == [PathSpec(4, 5, []), PathSpec(1, 2, [])]
    ensures SlowAndFast(MakePaths(specs))
  {
    assert MakePaths(specs)[0] == MakePath(specs[0]) && MakePaths(specs)[1] == MakePath(specs[1]);
  }

  lemma StreamFallsShort(sim: Simulation)
    requires Streamed(sim, 5)
    ensures sim.storeOccupancy > sim.nextSeq - sim.frontierAcked
  {
    hide Simulation.Valid, Simulation.Ended, Sum, NoneOpen, AggregateRtt;
    sim.StoreExact();
    sim.QueuesAreLists();
    SumOfTwo(Queued(sim.paths));
  }

  /**
   * A path slower than the aggregate clock: after five ticks the store holds more than what lies above the frontier
   * that the sender sees.
   */
  method SlowPathFallsShort(width: nat) returns (sim: Simulation)
    ensures fresh(sim) && sim.Valid() && sim.Ended() && sim.tick == 5
    ensures sim.storeOccupancy > sim.nextSeq - sim.frontierAcked
  {
    hide Simulation.Valid, Simulation.Ended, MakePath, MakePaths;
    var specs := [PathSpec(4, 5, []), PathSpec(1, 2, [])];
    sim := new Simulation(specs, width, false);
    TwoMade(specs);
    sim.RoomLeft();
    assert Streamed(sim, 0);
    hide Streamed;
    for t := 0 to 5
      invariant fresh(sim) && fresh(sim.encoder) && fresh(sim.decoder) && Streamed(sim, t)
    {
      StreamTick(sim, t);
    }
    StreamMeans(sim, 5);
    StreamFallsShort(sim);
  }

  lemma StreamMeans(sim: Simulation, t: nat)
    requires Streamed(sim, t)
    ensures sim.Valid() && sim.Ended() && sim.tick == t
  {}

  method Drive(sim: Simulation, inputs: seq<Inputs>)
    requires sim.Valid() && sim.Ended() && sim.tick == 0 && !sim.finished
    requires forall i :: 0 <= i < |inputs| ==> |inputs[i].goodput| == |sim.paths|
    modifies sim, sim.encoder, sim.decoder
    ensures sim.Valid() && sim.Ended() && |sim.paths| == |old(sim.paths)|
    ensures !sim.finished ==> sim.tick == |inputs|
  {
    hide *;
    for i := 0 to |inputs|
      invariant sim.Valid() && sim.Ended() && |sim.paths| == |old(sim.paths)|
      invariant !sim.finished ==> sim.tick == i
    {
      var _, _ := sim.Step(inputs[i]);
    }
  }

  lemma DeliveredCount(v: View, decoded: set<nat>)
    requires Books(v, decoded)
    ensures v.cumDecoded == |decoded - v.givenUpSeqs| && v.cumSent == Sum(Sents(v.paths))
      && v.cumArrived == Sum(Arriveds(v.paths))
    ensures forall i :: 0 <= i < |v.paths| ==> PathCounts(v.paths[i])
  {}

  lemma ArrivedAtMostSent(ps: seq<Path>)
    requires forall i :: 0 <= i < |ps| ==> PathCounts(ps[i])
    ensures Sum(Arriveds(ps)) <= Sum(Sents(ps))
  {
    SumMonotone(Arriveds(ps), Sents(ps));
  }

  lemma {:induction false} SumMonotone(a: seq<nat>, b: seq<nat>)
    requires |a| == |b| && forall i :: 0 <= i < |a| ==> a[i] <= b[i]
    ensures Sum(a) <= Sum(b)
  {
    if a != [] {
      SumMonotone(a[..|a| - 1], b[..|b| - 1]);
    }
  }

  lemma FloorHolds(n: nat, corrections: nat, arrived: nat, sent: nat)
    requires n <= arrived <= sent && sent == n + corrections
    ensures corrections * arrived >= (sent - arrived) * n
  {
    assert corrections * arrived - (sent - arrived) * n == sent * (arrived - n);
  }

  /** What is left starts with the last entry of the leading run that is old enough; only older ones went. */
  predicate Superseded(hist: seq<(nat, nat)>, left: seq<(nat, nat)>, cut: nat) {
    && 0 < |left| <= |hist| && left == hist[|hist| - |left|..]
    && (forall k :: 1 <= k <= |hist| - |left| ==> hist[k].0 <= cut)
    && (|left| > 1 ==> left[1].0 > cut)
  }

  /** At most one slot was used, on a path that had one spare; nothing but what was sent moved the spare slots. */
  ghost predicate Used(ps: seq<Path>, qs: seq<Path>, free: seq<nat>, left: seq<nat>) {
    && |qs| == |ps| == |free| == |left|
    && Sum(left) + 1 >= Sum(free)
    && forall i :: 0 <= i < |ps| ==>
      left[i] + qs[i].sent == free[i] + ps[i].sent && qs[i].sent >= ps[i].sent && qs[i].capacity == ps[i].capacity
        && qs[i].rttTicks == ps[i].rttTicks && qs[i].channel == ps[i].channel
  }

  lemma UsedNone(ps: seq<Path>, free: seq<nat>)
    requires |free| == |ps|
    ensures Used(ps, ps, free, free)
  {}

  lemma UsedOne(ps: seq<Path>, free: seq<nat>, dest: nat, kind: Kind, tick: nat)
    requires |free| == |ps| && dest < |ps| && free[dest] > 0
    ensures Used(ps, ps[dest := SendOn(ps[dest], kind, tick)], free, free[dest := free[dest] - 1])
  {
    SumUpdate(free, dest, free[dest] - 1);
  }

  lemma UsedOneAfterCredit(ps: seq<Path>, qs: seq<Path>, free: seq<nat>, dest: nat, tick: nat)
    requires CreditOnly(ps, qs) && |free| == |ps| && dest < |ps| && free[dest] > 0
    ensures Used(ps, qs[dest := SendOn(qs[dest], AsSource, tick)], free, free[dest := free[dest] - 1])
  {
    SumUpdate(free, dest, free[dest] - 1);
  }

  // ---- a tick of nothing but arriving sources

  ghost predicate NoneOpen(ss: seq<Symbol>) { forall s :: s in ss ==> !Open(s) }

  /** The rate and the completion term accrue no debt, no loss is confirmed, and nothing is given up. */
  ghost predicate Plain(inputs: Inputs) {
    && inputs.rate == 0.0 && inputs.tCut.None?
    && (forall i :: !inputs.confirmed(i)) && (forall i :: inputs.completion(i) == 0.0)
  }

  /** What never changes about a path. */
  predicate SameBuild(p: Path, q: Path) {
    q.capacity == p.capacity && q.rttTicks == p.rttTicks && q.channel == p.channel
  }

  /** Every list is longer by at least so many. */
  ghost predicate Longer(before: seq<seq<nat>>, after: seq<seq<nat>>, more: seq<nat>) {
    |after| == |before| == |more| && forall p :: 0 <= p < |before| ==> |after[p]| >= |before[p]| + more[p]
  }

  /** Every list is longer by as much as there is less room. */
  ghost predicate Filling(before: seq<seq<nat>>, after: seq<seq<nat>>, room: seq<nat>, left: seq<nat>) {
    && |after| == |before| == |room| == |left|
    && forall p :: 0 <= p < |before| ==> |after[p]| + left[p] == |before[p]| + room[p]
  }

  lemma LongerNow(acks: seq<seq<nat>>, room: seq<nat>)
    requires |acks| == |room|
    ensures Filling(acks, acks, room, room)
  {}

  lemma FillingOn(before: seq<seq<nat>>, mid: seq<seq<nat>>, after: seq<seq<nat>>, room: seq<nat>, free: seq<nat>,
        left: seq<nat>)
    requires Filling(before, mid, room, free) && Filling(mid, after, free, left)
    ensures Filling(before, after, room, left)
  {}

  lemma Filled(before: seq<seq<nat>>, after: seq<seq<nat>>, room: seq<nat>, left: seq<nat>)
    requires Filling(before, after, room, left) && Sum(left) == 0
    ensures Longer(before, after, room)
  {
    forall p | 0 <= p < |left|
      ensures left[p] == 0
    {
      SumUpdate(left, p, 0);
    }
  }

  /** What waits on a path after a tick: what the tick sent, and what waited before unless it may be overdue. */
  ghost predicate Waiters(before: seq<seq<nat>>, after: seq<seq<nat>>, ps: seq<Path>, now: nat) {
    && |after| == |before| == |ps|
    && forall p :: 0 <= p < |ps| ==>
      |after[p]| >= ps[p].capacity + (if now < ps[p].rttTicks then |before[p]| else 0)
  }

  /** Nothing that cannot be overdue yet has left. */
  ghost predicate Kept(before: seq<seq<nat>>, after: seq<seq<nat>>, ps: seq<Path>, now: nat) {
    |after| == |before| == |ps| && forall p :: 0 <= p < |ps| && now < ps[p].rttTicks ==> after[p] == before[p]
  }

  lemma HeadIsDue(p: Path, q: Path, ids: seq<nat>, left: seq<nat>, sendTick: seq<nat>, now: nat)
    requires Drained(p, q, ids, left, sendTick, now) && |q.feedback| < |p.feedback|
    ensures now >= q.rttTicks
  {
    hide Carries;
    assert Less(now, p.feedback[0].tick) >= p.rttTicks;
  }

  lemma NothingDue(ps: seq<Path>, qs: seq<Path>, acks: seq<seq<nat>>, left: seq<seq<nat>>, sendTick: seq<nat>, now: nat)
    requires AllDrained(ps, qs, acks, left, sendTick, now)
    requires forall i :: 0 <= i < |ps| ==> Carries(ps[i].feedback, acks[i], sendTick)
    ensures Kept(acks, left, qs, now)
  {
    hide Carries, SourceAcks;
    forall i | 0 <= i < |ps| && now < qs[i].rttTicks
      ensures left[i] == acks[i]
    {
      assert Drained(ps[i], qs[i], acks[i], left[i], sendTick, now);
      if |qs[i].feedback| < |ps[i].feedback| {
        HeadIsDue(ps[i], qs[i], acks[i], left[i], sendTick, now);
        assert false;
      }
      CarriesCount(ps[i].feedback, acks[i], sendTick);
      CarriesCount(qs[i].feedback, left[i], sendTick);
    }
  }

  lemma SameAggregate(ps: seq<Path>, qs: seq<Path>)
    requires |qs| == |ps| && forall i :: 0 <= i < |ps| ==> SameBuild(ps[i], qs[i])
    ensures AggregateRtt(qs) == AggregateRtt(ps)
  {
    assert Capacities(qs) == Capacities(ps) && WeightedRtts(qs) == WeightedRtts(ps);
  }

  lemma SameClocks(before: seq<seq<nat>>, after: seq<seq<nat>>, ps: seq<Path>, qs: seq<Path>, now: nat)
    requires Kept(before, after, qs, now) && |qs| == |ps| && forall i :: 0 <= i < |ps| ==> SameBuild(ps[i], qs[i])
    ensures Kept(before, after, ps, now)
  {}

  lemma PlainKeepsAll(inputs: Inputs)
    ensures Plain(inputs) ==> inputs.rate == 0.0 && inputs.tCut.None?
  {}

  lemma StillLossless(ps: seq<Path>, qs: seq<Path>)
    requires Lossless(ps) ==> |qs| == |ps| && forall i :: 0 <= i < |ps| ==> SameBuild(ps[i], qs[i])
    ensures Lossless(ps) ==> Lossless(qs)
  {}

  lemma WaitersNow(before: seq<seq<nat>>, kept: seq<seq<nat>>, after: seq<seq<nat>>, ps: seq<Path>, now: nat)
    requires Kept(before, kept, ps, now) && Longer(kept, after, Capacities(ps))
    ensures Waiters(before, after, ps, now)
  {}

  lemma MarkedStayClosed(ss: seq<Symbol>, after: seq<Symbol>, ps: seq<Path>, tick: nat)
    requires |after| == |ss| && forall i :: 0 <= i < |ss| ==> after[i] == ArrivedAt(ss[i], ps, tick)
    ensures NoneOpen(ss) ==> NoneOpen(after)
  {
    if NoneOpen(ss) {
      forall s | s in after
        ensures !Open(s)
      {
        var i :| 0 <= i < |after| && after[i] == s;
        assert ss[i] in ss;
      }
    }
  }

  lemma RetainedClosed(ss: seq<Symbol>, tick: nat)
    ensures NoneOpen(ss) ==> NoneOpen(Retained(ss, tick))
  {
    RetainedAre(ss, tick);
  }

  /** Nothing to correct and room in the pool: the slot carries a source and no debt accrues. */
  lemma PlainUse(a: Scene, u: Use, b: Scene, now: nat, width: nat, inputs: Inputs, i: nat)
    requires Slot(a, u, b, now, width, inputs.goodput, inputs.confirmed(i), inputs.rate + inputs.completion(i))
    requires Plain(inputs) && a.debt == 0.0 && a.nextSeq < Min(NUM_SOURCE, STORE_PER_PATH * |a.paths|)
      && a.occupancy <= a.nextSeq
    ensures u.Sourcing? && b.nextSeq == a.nextSeq + 1 && b.debt == 0.0
  {
    hide Stored, SendOn, Shares, Absorbed, Marked, AnyEligible, IsNext, IsBest, FirstEligible;
  }

  lemma SlotUsed(ps: seq<Path>, qs: seq<Path>, free: seq<nat>, left: seq<nat>)
    requires Used(ps, qs, free, left)
    ensures |qs| == |ps| == |free| == |left| && Sum(left) + 1 >= Sum(free)
    ensures forall p :: 0 <= p < |ps| ==>
      SameBuild(ps[p], qs[p]) && left[p] + qs[p].sent == free[p] + ps[p].sent && qs[p].sent >= ps[p].sent
  {}

  lemma PlainSlot(ps: seq<Path>, free: seq<nat>, left: seq<nat>, acks0: seq<seq<nat>>, acks1: seq<seq<nat>>, q: nat,
        ss0: seq<Symbol>, ss1: seq<Symbol>)
    requires OneSource(ps, free, left, acks0, acks1, q, ss0, ss1) && Lossless(ps) && NoneOpen(ss0)
    ensures Sum(left) + 1 == Sum(free) && Filling(acks0, acks1, free, left) && NoneOpen(ss1)
  {
    hide NoneOpen, Sum;
    var dest :| 0 <= dest < |free| && OnPath(ps, free, left, dest, acks0, acks1, q, ss0, ss1);
    SumUpdate(free, dest, free[dest] - 1);
  }

  /** No channel loses anything. */
  predicate Lossless(ps: seq<Path>) { forall i :: 0 <= i < |ps| ==> ps[i].channel == [] }

  /** Source q took a spare slot; unless the channel lost it, it waits on that path, and nothing new is open. */
  ghost predicate OneSource(ps: seq<Path>, free: seq<nat>, left: seq<nat>, acks0: seq<seq<nat>>, acks1: seq<seq<nat>>,
        q: nat, ss0: seq<Symbol>, ss1: seq<Symbol>) {
    && |free| == |ps| == |acks0|
    && exists dest :: 0 <= dest < |free| && OnPath(ps, free, left, dest, acks0, acks1, q, ss0, ss1)
  }

  ghost predicate OnPath(ps: seq<Path>, free: seq<nat>, left: seq<nat>, dest: nat, acks0: seq<seq<nat>>,
        acks1: seq<seq<nat>>, q: nat, ss0: seq<Symbol>, ss1: seq<Symbol>)
    requires dest < |free| == |ps| == |acks0|
  {
    && free[dest] > 0 && left == free[dest := free[dest] - 1]
    && acks1 == (if WireLost(ps[dest]) then acks0 else acks0[dest := acks0[dest] + [q]])
    && (!WireLost(ps[dest]) && NoneOpen(ss0) ==> NoneOpen(ss1))
  }

  lemma OneSourceAt(ps: seq<Path>, free: seq<nat>, dest: nat, acks0: seq<seq<nat>>, acks1: seq<seq<nat>>, q: nat,
        ss0: seq<Symbol>, ss1: seq<Symbol>)
    requires dest < |free| == |ps| == |acks0| && free[dest] > 0
    requires acks1 == (if WireLost(ps[dest]) then acks0 else acks0[dest := acks0[dest] + [q]])
    requires !WireLost(ps[dest]) && NoneOpen(ss0) ==> NoneOpen(ss1)
    ensures OneSource(ps, free, free[dest := free[dest] - 1], acks0, acks1, q, ss0, ss1)
  {
    hide WireLost, NoneOpen;
    assert OnPath(ps, free, free[dest := free[dest] - 1], dest, acks0, acks1, q, ss0, ss1);
  }

  lemma SameChannel(ps: seq<Path>, qs: seq<Path>, i: nat)
    requires CreditOnly(ps, qs) && i < |ps|
    ensures |qs| == |ps| && WireLost(qs[i]) == WireLost(ps[i])
  {}

  lemma ArrivalWaits(v: View, w: View, i: nat, rec: seq<nat>)
    requires i < |v.paths| == |v.acks| && !WireLost(v.paths[i]) && DeliversTo(Sent(v, i), w, rec)
    ensures w.acks == v.acks[i := v.acks[i] + [v.nextSeq]]
    ensures w.symbols == Marked(v.symbols + [Symbol(v.tick, v.nextSeq, false, false, v.tick, i)], Members(rec))
    ensures NoneOpen(v.symbols) ==> NoneOpen(w.symbols)
  {
    hide SendOn, Members, CountOutside, Holes;
    var more := Sent(v, i).symbols;
    if NoneOpen(v.symbols) {
      forall s | s in w.symbols
        ensures !Open(s)
      {
        var k :| 0 <= k < |w.symbols| && w.symbols[k] == s;
        assert more[k] in more && !Open(more[k]);
      }
    }
  }

  lemma NoCreditChange(ps: seq<Path>)
    ensures CreditOnly(ps, ps)
  {}

  lemma CreditsGrown(ps: seq<Path>, qs: seq<Path>, shares: seq<real>)
    requires |ps| == |qs| == |shares| && forall i :: 0 <= i < |ps| ==>
      qs[i].stripeCredit == ps[i].stripeCredit + shares[i]
    ensures Total(Credits(qs)) == Total(Credits(ps)) + Total(shares)
  {
    TotalAdds(Credits(ps), shares, Credits(qs));
  }

  lemma CreditStep(ps: seq<Path>, qs: seq<Path>, i: nat, credit: real)
    requires CreditOnly(ps, qs) && i < |qs|
    ensures |ps| == |qs| && CreditOnly(ps, qs[i := qs[i].(stripeCredit := credit)])
    ensures Total(Credits(qs[i := qs[i].(stripeCredit := credit)])) == Total(Credits(qs)) - qs[i].stripeCredit + credit
  {
    TotalUpdate(Credits(qs), i, credit);
    assert Credits(qs[i := qs[i].(stripeCredit := credit)]) == Credits(qs)[i := credit];
  }
}
