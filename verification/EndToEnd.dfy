/** Whole runs of the generation codec over an arbitrary channel. */
module EndToEnd {
  import opened Basics
  import opened Gf256
  import opened Linear
  import opened Elimination
  import opened Wire
  import opened GenerationDecoding
  import opened GenerationEncoding

  /** One step of a link: an encoder call, the delivery of any earlier symbol, or a decoder advance. */
  datatype Op =
    | AddSource(data: seq<byte>)
    | Proactive
    | Filling
    | Deficit(anchor: nat)
    | Range(start: nat, count: nat)
    | Retransmit(q: nat)
    | Acknowledge(oldest: nat)
    | CodeBase(anchor: nat)
    | Idle(idle: bool)
    | Depth(m: nat)
    | Deliver(i: nat)
    | Raise(oldest: nat)

  /** The padded sources a run adds, by seq. */
  function Added(ops: seq<Op>, ss: nat): (r: seq<Row>)
    ensures |r| <= |ops|
  {
    if ops == [] then []
    else Added(ops[..|ops| - 1], ss) + (if ops[|ops| - 1].AddSource? then [Pad(ops[|ops| - 1].data, ss)] else [])
  }

  /** The decoder's knowledge is true of every continuation of the source history. */
  ghost predicate TrueOf(dec: GenerationDecoder, history: seq<Row>)
    reads dec
  {
    forall sources: seq<Row> :: history <= sources ==> SystemsHold(dec.gens, dec.recovered, dec.symbolSize, sources)
  }

  /** What is true of every continuation of the history cannot lie beyond it. */
  lemma RecoveredIsHistory(recovered: map<nat, Row>, gens: map<Key, Slot>, ss: nat, history: seq<Row>, q: nat)
    requires forall sources: seq<Row> :: history <= sources ==> SystemsHold(gens, recovered, ss, sources)
    requires forall i :: 0 <= i < |history| ==> |history[i]| == ss
    requires q in recovered
    ensures recovered[q] == Source(history, q, ss)
    ensures ss > 0 ==> q < |history| && recovered[q] == history[q]
  {
    TrueAt(recovered, gens, ss, history, history, q);
    if ss > 0 && q >= |history| {
      var other := Continuation(history, q, ss);
      TrueAt(recovered, gens, ss, history, other, q);
      assert false;
    }
  }

  lemma TrueAt(recovered: map<nat, Row>, gens: map<Key, Slot>, ss: nat, history: seq<Row>, sources: seq<Row>, q: nat)
    requires forall sources: seq<Row> :: history <= sources ==> SystemsHold(gens, recovered, ss, sources)
    requires history <= sources && q in recovered
    ensures recovered[q] == Source(sources, q, ss)
  {
    assert SystemsHold(gens, recovered, ss, sources);
  }

  /** A continuation of the history that has something else than zeros at q. */
  lemma Continuation(history: seq<Row>, q: nat, ss: nat) returns (other: seq<Row>)
    requires ss > 0 && q >= |history|
    ensures history <= other && Source(other, q, ss) != Source(history, q, ss)
  {
    other := history + seq(q + 1 - |history|, _ => seq(ss, _ => 1));
    assert other[q] == seq(ss, _ => 1);
    assert Source(other, q, ss)[0] == 1;
    assert Source(history, q, ss)[0] == 0;
  }

  lemma AddedStep(ops: seq<Op>, n: nat, ss: nat)
    requires n < |ops|
    ensures Added(ops[..n + 1], ss) == Added(ops[..n], ss) + (if ops[n].AddSource? then [Pad(ops[n].data, ss)] else [])
  {
    assert ops[..n + 1][..n] == ops[..n];
  }

  /** A longer history is no easier to be true of. */
  lemma TrueOfMore(dec: GenerationDecoder, history: seq<Row>, d: Row)
    requires TrueOf(dec, history)
    ensures TrueOf(dec, history + [d])
  {
    forall sources: seq<Row> | history + [d] <= sources
      ensures SystemsHold(dec.gens, dec.recovered, dec.symbolSize, sources)
    {
      assert history <= history + [d] <= sources;
    }
  }

  /** Feeding a genuine symbol keeps the decoder true. */
  lemma GenuineKeepsTrue(g0: map<Key, Slot>, r0: map<nat, Row>, g1: map<Key, Slot>, r1: map<nat, Row>, ss: nat,
        sym: WireSymbol, history: seq<Row>)
    requires forall sources: seq<Row> :: history <= sources ==> SystemsHold(g0, r0, ss, sources)
    requires SymbolFeedsTruth(g0, r0, g1, r1, ss, sym) && Genuine(sym, history, ss)
    ensures forall sources: seq<Row> :: history <= sources ==> SystemsHold(g1, r1, ss, sources)
  {
    hide SystemsHold, SymbolHolds;
  }

  predicate Emits(op: Op) {
    op.AddSource? || op.Proactive? || op.Filling? || op.Deficit? || op.Range? || op.Retransmit?
  }

  /** An encoder call that may put symbols on the wire. */
  method Emit(enc: GenerationEncoder, op: Op) returns (emitted: seq<WireSymbol>)
    requires enc.Valid() && enc.codedIndex < FILL_FLAG && enc.nextSeq <= SEQ_LIMIT && Emits(op)
    requires op.Range? ==> op.count < 0x1_0000
    modifies enc
    ensures enc.Valid() && enc.codedIndex <= old(enc.codedIndex) + 1
    ensures enc.history == old(enc.history) + (if op.AddSource? then [Pad(op.data, enc.symbolSize)] else [])
    ensures forall w :: w in emitted ==> Genuine(w, enc.history, enc.symbolSize)
  {
    hide Genuine, GenerationEncoder.Valid, GenerationEncoder.IsSealedSymbol, IsReal, Parse, GenerationEncoder.Sealed;
    var w: WireSymbol;
    match op {
      case AddSource(data) =>
        w := enc.AddSource(data);
      case Proactive =>
        w := enc.GenerateRepair();
      case Filling =>
        w := enc.GenerateRepairFilling();
      case Deficit(anchor) =>
        var r := enc.GenerateRepairFor(anchor);
        if r.None? { return []; }
        w := r.value;
      case Range(start, count) =>
        var r := enc.GenerateRepairRange(start, count);
        if r.None? { return []; }
        w := r.value;
      case Retransmit(q) =>
        var r := enc.GetSource(q);
        return if r.Some? then [r.value] else [];
    }
    enc.SentIsGenuine(w);
    return [w];
  }

  /** An encoder call that only moves its floors and cursors. */
  method Control(enc: GenerationEncoder, op: Op)
    requires enc.Valid()
    modifies enc
    ensures enc.Valid() && enc.codedIndex == old(enc.codedIndex) && enc.history == old(enc.history)
  {
    hide Genuine;
    match op {
      case Acknowledge(oldest) => enc.Advance(oldest);
      case CodeBase(anchor) =>
        if enc.baseGen <= enc.TopGen() { enc.SetCodeBase(anchor); }
      case Idle(idle) => enc.SetIntakeIdle(idle);
      case Depth(m) => enc.SetPipelineDepth(m);
      case _ =>
    }
  }

  /** The encoder's claims about everything on the wire so far. */
  ghost predicate LogGenuine(log: seq<WireSymbol>, history: seq<Row>, ss: nat) {
    forall i :: 0 <= i < |log| ==> Genuine(log[i], history, ss)
  }

  lemma LogGrows(log: seq<WireSymbol>, emitted: seq<WireSymbol>, history: seq<Row>, more: seq<Row>, ss: nat)
    requires LogGenuine(log, history, ss) && |more| <= 1
    requires forall w :: w in emitted ==> Genuine(w, history + more, ss)
    ensures LogGenuine(log + emitted, history + more, ss)
  {
    hide Genuine;
    forall i | 0 <= i < |log + emitted|
      ensures Genuine((log + emitted)[i], history + more, ss)
    {
      if i < |log| {
        if more == [] {
          assert history + more == history;
        } else {
          assert more == [more[0]];
          GenuineStays(log[i], history, more[0], ss);
        }
      } else {
        assert (log + emitted)[i] == emitted[i - |log|];
      }
    }
  }

  /** Every delivery is the padded source with that seq. */
  ghost predicate Sound(out: seq<(nat, Row)>, history: seq<Row>, ss: nat) {
    forall i :: 0 <= i < |out| ==>
      out[i].1 == Source(history, out[i].0, ss) && (ss > 0 ==> out[i].0 < |history| && out[i].1 == history[out[i].0])
  }

  lemma MoreDeliveries(out: seq<(nat, Row)>, more: seq<(nat, Row)>, returned: set<nat>)
    requires Unrepeated(out) && Unrepeated(more) && Seqs(out) <= returned && Seqs(more) !! returned
    ensures Unrepeated(out + more) && Seqs(out + more) <= returned + Seqs(more)
  {
    JoinDeliveries(out, more);
  }

  lemma SoundSoFar(out: seq<(nat, Row)>, more: seq<(nat, Row)>, gens: map<Key, Slot>, recovered: map<nat, Row>,
        ss: nat, history: seq<Row>)
    requires Sound(out, history, ss) && Held(recovered, more)
    requires forall sources: seq<Row> :: history <= sources ==> SystemsHold(gens, recovered, ss, sources)
    requires forall i :: 0 <= i < |history| ==> |history[i]| == ss
    ensures Sound(out + more, history, ss)
  {
    forall i | 0 <= i < |more|
      ensures more[i].1 == Source(history, more[i].0, ss)
        && (ss > 0 ==> more[i].0 < |history| && more[i].1 == history[more[i].0])
    {
      RecoveredIsHistory(recovered, gens, ss, history, more[i].0);
    }
  }

  lemma SoundStays(out: seq<(nat, Row)>, history: seq<Row>, more: seq<Row>, ss: nat)
    requires Sound(out, history, ss)
    ensures Sound(out, history + more, ss)
  {}

  ghost predicate LinkOk(dec: GenerationDecoder, history: seq<Row>, out: seq<(nat, Row)>)
    reads dec
  {
    && dec.Valid() && TrueOf(dec, history)
    && Sound(out, history, dec.symbolSize) && Unrepeated(out) && Seqs(out) <= dec.returned
  }

  method DeliverOneSymbol(dec: GenerationDecoder, w: WireSymbol, ghost history: seq<Row>, out: seq<(nat, Row)>)
    returns (out': seq<(nat, Row)>)
    requires LinkOk(dec, history, out) && Genuine(w, history, dec.symbolSize)
    requires forall i :: 0 <= i < |history| ==> |history[i]| == dec.symbolSize
    modifies dec
    ensures LinkOk(dec, history, out') && out <= out'
  {
    hide GenerationDecoder.Valid, Unrepeated, Sound, SymbolFeedsTruth, Seqs, Genuine, SystemsHold;
    ghost var g0, r0, returned0 := dec.gens, dec.recovered, dec.returned;
    var more := dec.AddSymbol(w);
    GenuineKeepsTrue(g0, r0, dec.gens, dec.recovered, dec.symbolSize, w, history);
    MoreDeliveries(out, more, returned0);
    SoundSoFar(out, more, dec.gens, dec.recovered, dec.symbolSize, history);
    out' := out + more;
  }

  method RaiseFloor(dec: GenerationDecoder, oldest: nat, ghost history: seq<Row>, ghost out: seq<(nat, Row)>)
    requires LinkOk(dec, history, out)
    modifies dec
    ensures LinkOk(dec, history, out)
  {
    hide GenerationDecoder.Valid, Unrepeated, Sound, Seqs, SystemsHold;
    dec.Advance(oldest);
  }

  lemma HistoryGrows(dec: GenerationDecoder, history: seq<Row>, more: seq<Row>, out: seq<(nat, Row)>)
    requires LinkOk(dec, history, out) && |more| <= 1
    ensures LinkOk(dec, history + more, out)
  {
    hide GenerationDecoder.Valid, Unrepeated, Sound, Seqs, SystemsHold;
    SoundStays(out, history, more, dec.symbolSize);
    if more == [] {
      assert history + more == history;
    } else {
      assert more == [more[0]];
      TrueOfMore(dec, history, more[0]);
    }
  }

  lemma LinkStarts(dec: GenerationDecoder)
    requires dec.Valid() && dec.recovered == map[] && dec.gens == map[]
    ensures LinkOk(dec, [], [])
  {
    assert Seqs<Row>([]) == {};
  }

  /**
   * A whole run: any sequence of encoder calls, any choice of which emitted symbols arrive, how often
   * and in which order, and any decoder advances. Every delivery is a true source, and none comes twice.
   */
  method Run(ss: nat, genSize: nat, depth: nat, overhead: real, systematic: bool, ops: seq<Op>)
    returns (out: seq<(nat, Row)>, dec: GenerationDecoder, enc: GenerationEncoder)
    requires genSize < 0x1_0000 && |ops| < FILL_FLAG
    requires forall op :: op in ops && op.Range? ==> op.count < 0x1_0000
    ensures dec.Valid() && enc.Valid() && fresh(dec) && fresh(enc)
    ensures enc.history == Added(ops, ss)
    ensures Sound(out, Added(ops, ss), ss) && Unrepeated(out)
  {
    hide Genuine, LinkOk, LogGenuine, GenerationDecoder.Valid;
    enc := new GenerationEncoder(ss, genSize, depth, overhead, systematic);
    dec := new GenerationDecoder(ss);
    out := [];
    var log: seq<WireSymbol> := [];
    LinkStarts(dec);
    LogStarts(ss);
    for n := 0 to |ops|
      invariant fresh(dec) && fresh(enc) && enc.Valid()
      invariant enc.symbolSize == ss == dec.symbolSize && enc.codedIndex <= n
      invariant enc.history == Added(ops[..n], ss)
      invariant LogGenuine(log, enc.history, ss) && LinkOk(dec, enc.history, out)
    {
      var op := ops[n];
      AddedStep(ops, n, ss);
      assert op in ops;
      ghost var history0 := enc.history;
      if op.Deliver? {
        if op.i < |log| {
          LogAt(log, enc.history, ss, op.i);
          out := DeliverOneSymbol(dec, log[op.i], enc.history, out);
        }
      } else if op.Raise? {
        RaiseFloor(dec, op.oldest, enc.history, out);
      } else if Emits(op) {
        var emitted := Emit(enc, op);
        ghost var more := if op.AddSource? then [Pad(op.data, ss)] else [];
        LogGrows(log, emitted, history0, more, ss);
        HistoryGrows(dec, history0, more, out);
        log := log + emitted;
      } else {
        Control(enc, op);
      }
    }
    assert ops[..|ops|] == ops;
    LinkMeans(dec, enc.history, out);
  }

  lemma LogStarts(ss: nat)
    ensures LogGenuine([], [], ss)
  {}

  lemma LogAt(log: seq<WireSymbol>, history: seq<Row>, ss: nat, i: nat)
    requires LogGenuine(log, history, ss) && i < |log|
    ensures Genuine(log[i], history, ss)
  {}

  lemma LinkMeans(dec: GenerationDecoder, history: seq<Row>, out: seq<(nat, Row)>)
    requires LinkOk(dec, history, out)
    ensures dec.Valid() && Sound(out, history, dec.symbolSize) && Unrepeated(out)
  {}
}
