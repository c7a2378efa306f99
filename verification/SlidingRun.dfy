/** Whole runs of the sliding-window codec over an arbitrary channel. */
module SlidingRun {
  import opened Basics
  import opened Gf256
  import opened TermLists
  import opened SimpleRlc
  import opened SlidingWindow
  import opened SlidingEncoding
  import opened Wire

  /** One step: an encoder call, the delivery of any symbol emitted so far, or a decoder advance. */
  datatype Event =
    | AddSource(data: seq<byte>)
    | Repair
    | RepairRange(start: nat, count: nat)
    | Retransmit(q: nat)
    | Slide(oldest: nat)
    | Deliver(i: nat)
    | Raise(oldest: nat)

  /** The padded sources the events add, by sequence number. */
  function SourcesOf(events: seq<Event>, size: nat): (r: seq<seq<byte>>)
    ensures |r| <= |events| && forall i :: 0 <= i < |r| ==> |r[i]| == size
  {
    if events == [] then []
    else
      var last := events[|events| - 1];
      SourcesOf(events[..|events| - 1], size) + (if last.AddSource? then [Pad(last.data, size)] else [])
  }

  ghost function TruthOf(all: seq<seq<byte>>): Truth {
    (q: nat, k: nat) => if q < |all| && k < |all[q]| then all[q][k] else 0
  }

  lemma {:induction false} SourcesPrefix(events: seq<Event>, n: nat, size: nat)
    requires n <= |events|
    ensures SourcesOf(events[..n], size) <= SourcesOf(events, size)
  {
    if n < |events| {
      SourcesPrefix(events[..|events| - 1], n, size);
      assert events[..|events| - 1][..n] == events[..n];
    } else {
      assert events[..n] == events;
    }
  }

  /** The source that event n adds is the one the whole run has at that sequence number. */
  lemma SourceAt(events: seq<Event>, n: nat, size: nat)
    requires n < |events|
    ensures events[n].AddSource? ==>
      var q := |SourcesOf(events[..n], size)|;
      |SourcesOf(events[..n + 1], size)| == q + 1 <= |SourcesOf(events, size)|
        && SourceHolds(q, Pad(events[n].data, size), TruthOf(SourcesOf(events, size)))
    ensures !events[n].AddSource? ==> SourcesOf(events[..n + 1], size) == SourcesOf(events[..n], size)
    ensures |SourcesOf(events[..n], size)| <= |SourcesOf(events, size)|
  {
    SourcesPrefix(events, n, size);
    SourcesPrefix(events, n + 1, size);
    assert events[..n + 1][..n] == events[..n];
    var before := SourcesOf(events[..n], size);
    if events[n].AddSource? {
      assert SourcesOf(events[..n + 1], size) == before + [Pad(events[n].data, size)];
      assert SourcesOf(events, size)[|before|] == Pad(events[n].data, size);
    }
  }

  /** Everything on the wire so far is true and about sources the run adds. */
  ghost predicate LogHolds(log: seq<WireSymbol>, size: nat, t: Truth, n: nat) {
    forall i :: 0 <= i < |log| ==> SymbolTrue(log[i], size, t) && SymbolBelow(log[i], n)
  }

  ghost predicate EncoderOk(enc: RlcWindowEncoder, t: Truth, next: nat, events: nat)
    reads enc
  {
    enc.Valid() && SourcesHold(enc.window, t) && enc.nextSeq == next && enc.repairCounter <= events
  }

  /** An encoder call; the symbols it puts on the wire are true. */
  method Emit(enc: RlcWindowEncoder, e: Event, ghost t: Truth, ghost n: nat) returns (emitted: seq<WireSymbol>)
    requires EncoderOk(enc, t, enc.nextSeq, enc.repairCounter) && enc.nextSeq < 0x1_0000_0000
      && enc.repairCounter < 0x1_0000_0000
    requires e.AddSource? ==> SourceHolds(enc.nextSeq, Pad(e.data, enc.symbolSize), t)
    requires (if e.AddSource? then enc.nextSeq + 1 else enc.nextSeq) <= n && (e.RepairRange? ==> e.count < 0x1_0000)
    modifies enc
    ensures EncoderOk(enc, t, old(enc.nextSeq) + (if e.AddSource? then 1 else 0), old(enc.repairCounter) + 1)
    ensures |emitted| <= 1 && LogHolds(emitted, enc.symbolSize, t, n)
  {
    hide SourceHolds, ReadRepair, RepairHolds;
    emitted := [];
    match e {
      case AddSource(data) =>
        SourcesSnoc(enc.window, enc.nextSeq, Pad(data, enc.symbolSize), t);
        var sym := enc.AddSource(data);
        assert Pad(sym.data, enc.symbolSize) == sym.data;
        emitted := [sym];
      case Repair =>
        if |enc.window| < 0x1_0000 {
          var sym := enc.GenerateRepair(t);
          BelowMore(sym, enc.nextSeq, n);
          emitted := [sym];
        }
      case RepairRange(start, count) =>
        var r := enc.GenerateRepairRange(start, count, t);
        if r.Some? {
          BelowMore(r.value, enc.nextSeq, n);
          emitted := [r.value];
        }
      case Retransmit(q) =>
        var r := enc.GetSource(q);
        if r.Some? {
          WindowSourceHolds(enc, r.value, q, t);
          emitted := [r.value];
        }
      case Slide(oldest) =>
        ghost var before := enc.window;
        enc.Advance(oldest);
        SuffixHolds(before, enc.window, t);
      case _ =>
    }
  }

  lemma BelowMore(sym: WireSymbol, m: nat, n: nat)
    requires SymbolBelow(sym, m) && m <= n
    ensures SymbolBelow(sym, n)
  {
    hide ReadRepair;
  }

  lemma SuffixHolds(window: seq<(nat, seq<byte>)>, rest: seq<(nat, seq<byte>)>, t: Truth)
    requires SourcesHold(window, t) && |rest| <= |window| && rest == window[|window| - |rest|..]
    ensures SourcesHold(rest, t)
  {
    var d := |window| - |rest|;
    assert forall i :: 0 <= i < |rest| ==> rest[i] == window[d + i];
  }

  lemma WindowSourceHolds(enc: RlcWindowEncoder, sym: WireSymbol, q: nat, t: Truth)
    requires enc.Valid() && SourcesHold(enc.window, t)
    requires exists i ::
      0 <= i < |enc.window| && enc.window[i].0 == q && sym == WireSymbol(q, 0, false, enc.window[i].1, Rlc)
    ensures SymbolTrue(sym, enc.symbolSize, t) && SymbolBelow(sym, enc.nextSeq)
  {
    assert Pad(sym.data, enc.symbolSize) == sym.data;
  }

  /** The decoder agrees with the true sources, and its output so far is true and unrepeated. */
  ghost predicate DecoderOk(dec: RlcWindowDecoder, out: seq<(nat, seq<byte>)>, t: Truth, n: nat)
    reads dec
  {
    && dec.Valid() && dec.Truthful(t) && dec.Bounded(n)
    && AllTrue(out, t, dec.symbolSize) && (forall i :: 0 <= i < |out| ==> out[i].0 < n)
      && Emitted({}, dec.returned, out)
  }

  method Receive(dec: RlcWindowDecoder, sym: WireSymbol, out: seq<(nat, seq<byte>)>, ghost t: Truth,
        ghost n: nat) returns (more: seq<(nat, seq<byte>)>)
    requires DecoderOk(dec, out, t, n) && SymbolTrue(sym, dec.symbolSize, t) && SymbolBelow(sym, n)
    modifies dec
    ensures DecoderOk(dec, out + more, t, n) && forall i :: 0 <= i < |more| ==> more[i].0 >= dec.floor
  {
    hide RlcWindowDecoder.Valid, RlcWindowDecoder.Truthful, RlcWindowDecoder.Bounded, SymbolTrue, SymbolBelow,
        AllTrue, Emitted, ReadRepair, Progress;
    ghost var sofar := dec.returned;
    more := dec.AddSymbol(sym, t, n);
    EmittedChain({}, sofar, dec.returned, out, more);
    HoldBoth(out, more, t, dec.symbolSize);
  }

  method RaiseFloor(dec: RlcWindowDecoder, oldest: nat, ghost out: seq<(nat, seq<byte>)>, ghost t: Truth, ghost n: nat)
    requires DecoderOk(dec, out, t, n)
    modifies dec
    ensures DecoderOk(dec, out, t, n) && dec.NothingBelow() && dec.floor >= oldest
  {
    hide RlcWindowDecoder.Valid, RlcWindowDecoder.Truthful, RlcWindowDecoder.Bounded, AllTrue, Emitted;
    dec.Advance(oldest);
  }

  lemma Starts(dec: RlcWindowDecoder, t: Truth, n: nat)
    requires dec.Valid() && dec.recovered == map[] && dec.pivots == map[] && dec.returned == {}
    ensures DecoderOk(dec, [], t, n)
  {
    EmittedNothing<seq<byte>>({});
  }

  /**
   * Any sequence of encoder calls, any loss, duplication and reordering of what they emit, any decoder
   * advances: every delivery is exactly the padded source with that sequence number, none comes twice, and what the
   * decoder holds at or above its last floor is what it delivered there.
   */
  method Run(size: nat, events: seq<Event>) returns (out: seq<(nat, seq<byte>)>, recovered: map<nat, seq<byte>>,
        floor: nat)
    requires |events| < 0x1_0000_0000 && forall e :: e in events && e.RepairRange? ==> e.count < 0x1_0000
    ensures forall i :: 0 <= i < |out| ==>
      out[i].0 < |SourcesOf(events, size)| && out[i].1 == SourcesOf(events, size)[out[i].0]
    ensures Unrepeated(out)
    ensures forall q: nat :: q >= floor ==> (q in recovered <==> q in Seqs(out))
    ensures forall q: nat :: q in recovered ==>
      q < |SourcesOf(events, size)| && recovered[q] == SourcesOf(events, size)[q]
  {
    hide EncoderOk, DecoderOk, LogHolds, SymbolTrue, SymbolBelow, SourceHolds, TruthOf, SourcesOf;
    ghost var all := SourcesOf(events, size);
    ghost var t, n := TruthOf(all), |all|;
    var enc := new RlcWindowEncoder(size);
    var dec := new RlcWindowDecoder(size);
    var log: seq<WireSymbol> := [];
    out := [];
    Starts(dec, t, n);
    EncoderStarts(enc, t, events, size);
    LogEmpty(size, t, n);
    for i := 0 to |events|
      invariant fresh(enc) && fresh(dec) && enc.symbolSize == size == dec.symbolSize
      invariant EncoderOk(enc, t, |SourcesOf(events[..i], size)|, i)
      invariant LogHolds(log, size, t, n) && DecoderOk(dec, out, t, n)
    {
      var e := events[i];
      SourceAt(events, i, size);
      assert e in events;
      if e.Deliver? {
        if e.i < |log| {
          LogAt(log, e.i, size, t, n);
          var more := Receive(dec, log[e.i], out, t, n);
          out := out + more;
        }
        OneEventLater(enc, t, |SourcesOf(events[..i], size)|, i, i + 1);
      } else if e.Raise? {
        RaiseFloor(dec, e.oldest, out, t, n);
        OneEventLater(enc, t, |SourcesOf(events[..i], size)|, i, i + 1);
      } else {
        Counters(enc, t, |SourcesOf(events[..i], size)|, i);
        ghost var was := enc.repairCounter;
        var emitted := Emit(enc, e, t, n);
        OneEventLater(enc, t, |SourcesOf(events[..i + 1], size)|, was + 1, i + 1);
        LogBoth(log, emitted, size, t, n);
        log := log + emitted;
      }
    }
    assert events[..|events|] == events;
    recovered, floor := dec.recovered, dec.floor;
    Ends(dec, out, all);
  }

  lemma EncoderStarts(enc: RlcWindowEncoder, t: Truth, events: seq<Event>, size: nat)
    requires enc.Valid() && enc.window == [] && enc.nextSeq == 0 && enc.repairCounter == 0
    ensures EncoderOk(enc, t, |SourcesOf(events[..0], size)|, 0)
  {}

  lemma LogEmpty(size: nat, t: Truth, n: nat)
    ensures LogHolds([], size, t, n)
  {}

  lemma LogAt(log: seq<WireSymbol>, i: nat, size: nat, t: Truth, n: nat)
    requires LogHolds(log, size, t, n) && i < |log|
    ensures SymbolTrue(log[i], size, t) && SymbolBelow(log[i], n)
  {}

  lemma LogBoth(a: seq<WireSymbol>, b: seq<WireSymbol>, size: nat, t: Truth, n: nat)
    requires LogHolds(a, size, t, n) && LogHolds(b, size, t, n)
    ensures LogHolds(a + b, size, t, n)
  {
    hide SymbolTrue, SymbolBelow;
  }

  lemma OneEventLater(enc: RlcWindowEncoder, t: Truth, next: nat, c: nat, i: nat)
    requires EncoderOk(enc, t, next, c) && c <= i
    ensures EncoderOk(enc, t, next, i)
  {}

  lemma Counters(enc: RlcWindowEncoder, t: Truth, next: nat, i: nat)
    requires EncoderOk(enc, t, next, i)
    ensures enc.nextSeq == next && enc.repairCounter <= i && EncoderOk(enc, t, enc.nextSeq, enc.repairCounter)
  {}

  lemma Ends(dec: RlcWindowDecoder, out: seq<(nat, seq<byte>)>, all: seq<seq<byte>>)
    requires DecoderOk(dec, out, TruthOf(all), |all|) && forall i :: 0 <= i < |all| ==> |all[i]| == dec.symbolSize
    ensures forall i :: 0 <= i < |out| ==> out[i].0 < |all| && out[i].1 == all[out[i].0]
    ensures Unrepeated(out)
    ensures forall q: nat :: q >= dec.floor ==> (q in dec.recovered <==> q in Seqs(out))
    ensures forall q: nat :: q in dec.recovered ==> q < |all| && dec.recovered[q] == all[q]
  {
    Delivered(dec, out, TruthOf(all), |all|);
    forall q: nat | q in dec.recovered
      ensures q < |all| && dec.recovered[q] == all[q]
    {
      dec.KnownAt(q, TruthOf(all));
      assert SourceHolds(q, dec.recovered[q], TruthOf(all));
    }
    hide RlcWindowDecoder.Valid, RlcWindowDecoder.Truthful, RlcWindowDecoder.Bounded, Seqs;
    forall i | 0 <= i < |out|
      ensures out[i].1 == all[out[i].0]
    {
      assert SourceHolds(out[i].0, out[i].1, TruthOf(all));
    }
  }

  lemma Delivered(dec: RlcWindowDecoder, out: seq<(nat, seq<byte>)>, t: Truth, n: nat)
    requires DecoderOk(dec, out, t, n)
    ensures forall q: nat :: q >= dec.floor ==> (q in dec.recovered <==> q in Seqs(out))
  {
    hide SourceHolds, Seqs, Table, Apart, Detached;
    dec.OutputIsRecovered();
  }
}
