/** The sliding-window encoder: sources in a contiguous window, repairs over all of it or any covered range. */
module SlidingEncoding {
  import opened Basics
  import opened Gf256
  import opened Linear
  import opened TermLists
  import opened SimpleRlc
  import opened SlidingWindow
  import opened Wire
  import CoefficientStream

  /** The wire symbol of a repair reads back as exactly its header and coded bytes. */
  lemma RepairReadsBack(start: nat, count: nat, index: nat, coded: seq<byte>)
    requires start < 0x1_0000_0000_0000_0000 && 0 < count < 0x1_0000 && index < 0x1_0000_0000
    ensures ReadRepair(Encode(start, count, index, coded)) == Some(RepairWire(start, count, index, coded))
  {
    Bounds();
    LeRoundTrip(start, 8);
    LeRoundTrip(count, 2);
    LeRoundTrip(index, 4);
    Fields(ToLe(start, 8), ToLe(count, 2), ToLe(index, 4), coded);
  }

  lemma ZerosReadAsNothing(data: seq<byte>)
    requires forall i :: 0 <= i < |data| ==> data[i] == 0
    ensures ReadRepair(data) == None
  {
    if |data| >= HEADER {
      ZeroWidth(data);
    }
  }

  class RlcWindowEncoder {
    const symbolSize: nat
    var window: seq<(nat, seq<byte>)>
    var nextSeq: nat
    var repairCounter: nat

    constructor (symbolSize: nat)
      ensures Valid() && this.symbolSize == symbolSize && window == [] && nextSeq == 0 && repairCounter == 0
    {
      this.symbolSize := symbolSize;
      window, nextSeq, repairCounter := [], 0, 0;
    }

    ghost predicate Valid()
      reads this
    {
      Consecutive(window, nextSeq, symbolSize)
    }

    method AddSource(data: seq<byte>) returns (sym: WireSymbol)
      requires Valid()
      modifies this`window, this`nextSeq
      ensures Valid() && nextSeq == old(nextSeq) + 1
      ensures window == old(window) + [(old(nextSeq), Pad(data, symbolSize))]
      ensures sym == WireSymbol(old(nextSeq), 0, false, Pad(data, symbolSize), Rlc)
    {
      var q, padded := nextSeq, Pad(data, symbolSize);
      nextSeq := nextSeq + 1;
      window := window + [(q, padded)];
      sym := WireSymbol(q, 0, false, padded, Rlc);
    }

    /** The combination of consecutive window entries from offset on. */
    method Combine(offset: nat, count: nat, index: nat, ghost t: Truth) returns (coded: seq<byte>)
      requires Valid() && offset + count <= |window| && count > 0
      ensures |coded| == symbolSize
      ensures SourcesHold(window, t) ==> RepairHolds(window[offset].0, count, index, coded, t)
    {
      hide CoefficientStream.WindowCoefficients, Add, Mul, TermSum;
      var start := window[offset].0;
      var coeffs := CoefficientStream.GenerateWindowCoefficients(start, count, index);
      ghost var terms := WindowTerms(start, coeffs);
      coded := Zero(symbolSize);
      forall k | 0 <= k < symbolSize
        ensures TermSum([], t, k) == 0
      {
        EmptySum(t, k);
      }
      for i := 0 to count
        invariant |coded| == symbolSize
        invariant SourcesHold(window, t) ==> EquationHolds(terms[..i], coded, t)
      {
        assert terms[..i + 1] == terms[..i] + [terms[i]];
        if SourcesHold(window, t) {
          OneMoreSource(terms[..i], coded, terms[i], window[offset + i].1, t);
        }
        coded := MulAcc(coeffs[i], window[offset + i].1, coded);
      }
      assert terms[..count] == terms;
    }

    /** A repair over the whole window; an inert placeholder when there is none. */
    method GenerateRepair(ghost t: Truth) returns (sym: WireSymbol)
      requires Valid() && |window| < 0x1_0000 && nextSeq < 0x1_0000_0000_0000_0000 && repairCounter < 0x1_0000_0000
      modifies this`repairCounter
      ensures sym.isRepair && sym.backend == Rlc && sym.payloadId == old(repairCounter) && SymbolBelow(sym, nextSeq)
      ensures SourcesHold(window, t) ==> SymbolTrue(sym, symbolSize, t)
      ensures window == [] ==>
        ReadRepair(sym.data).None? && repairCounter == old(repairCounter)
          && sym == WireSymbol(0, repairCounter, true, Zero(HEADER + symbolSize), Rlc)
      ensures window != [] ==> repairCounter == old(repairCounter) + 1 && sym.blockId == nextSeq - 1
      ensures window != [] ==>
        ReadRepair(sym.data).Some? && ReadRepair(sym.data).value.start == window[0].0
          && ReadRepair(sym.data).value.count == |window| && ReadRepair(sym.data).value.index == old(repairCounter)
    {
      hide RepairHolds, SourcesHold, ReadRepair, Encode;
      if window == [] {
        sym := WireSymbol(0, repairCounter, true, Zero(HEADER + symbolSize), Rlc);
        ZerosReadAsNothing(sym.data);
        return;
      }
      var index := repairCounter;
      repairCounter := repairCounter + 1;
      var coded := Combine(0, |window|, index, t);
      sym := WireSymbol(window[|window| - 1].0, index, true, Encode(window[0].0, |window|, index, coded), Rlc);
      RepairReadsBack(window[0].0, |window|, index, coded);
      PadSame(coded, symbolSize);
    }

    /** A repair over exactly [start, start + count) when the window still covers all of it, else nothing. */
    method GenerateRepairRange(start: nat, count: nat, ghost t: Truth) returns (r: Option<WireSymbol>)
      requires Valid() && count < 0x1_0000 && nextSeq < 0x1_0000_0000_0000_0000 && repairCounter < 0x1_0000_0000
      modifies this`repairCounter
      ensures r.Some? <==> count > 0 && nextSeq - |window| <= start && start + count <= nextSeq && window != []
      ensures repairCounter == old(repairCounter) + (if r.Some? then 1 else 0)
      ensures r.Some? ==>
        && r.value.isRepair && r.value.backend == Rlc && r.value.payloadId == old(repairCounter)
          && r.value.blockId == start + count - 1
        && SymbolBelow(r.value, nextSeq) && (SourcesHold(window, t) ==> SymbolTrue(r.value, symbolSize, t))
        && ReadRepair(r.value.data).Some? && ReadRepair(r.value.data).value.start == start
          && ReadRepair(r.value.data).value.count == count
          && ReadRepair(r.value.data).value.index == old(repairCounter)
    {
      hide RepairHolds, SourcesHold, ReadRepair, Encode;
      if count == 0 || window == [] || start < window[0].0 || start + count > window[|window| - 1].0 + 1 {
        return None;
      }
      var index := repairCounter;
      repairCounter := repairCounter + 1;
      var offset := start - window[0].0;
      var coded := Combine(offset, count, index, t);
      r := Some(WireSymbol(start + count - 1, index, true, Encode(start, count, index, coded), Rlc));
      RepairReadsBack(start, count, index, coded);
      PadSame(coded, symbolSize);
    }

    /** Drops the sources below a sequence number and no others. */
    method Advance(oldest: nat)
      requires Valid()
      modifies this`window
      ensures Valid() && |window| <= |old(window)| && window == old(window)[|old(window)| - |window|..]
      ensures window == old(window) || nextSeq - |window| <= oldest
      ensures window != [] ==> window[0].0 >= oldest
    {
      ghost var dropped := 0;
      while window != [] && window[0].0 < oldest
        invariant dropped <= |old(window)| && window == old(window)[dropped..] && Valid()
        invariant dropped == 0 || nextSeq - |window| <= oldest
        decreases |window|
      {
        dropped := dropped + 1;
        window := window[1..];
      }
    }

    /** The source still in the window with this sequence number. */
    method GetSource(q: nat) returns (r: Option<WireSymbol>)
      requires Valid()
      ensures r.Some? <==> nextSeq - |window| <= q < nextSeq
      ensures r.Some? ==> exists i ::
        0 <= i < |window| && window[i].0 == q && r.value == WireSymbol(q, 0, false, window[i].1, Rlc)
    {
      if window == [] || q < window[0].0 || q - window[0].0 >= |window| {
        return None;
      }
      var i := q - window[0].0;
      return Some(WireSymbol(q, 0, false, window[i].1, Rlc));
    }
  }

  lemma PadSame(coded: seq<byte>, size: nat)
    requires |coded| == size
    ensures Pad(coded, size) == coded
  {}
}
