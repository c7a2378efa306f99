/** The generation encoder: sealed and filling generations, coding budgets, round-robin cursors and deficit repairs. */
module GenerationEncoding {
  import opened Basics
  import opened Gf256
  import opened Linear
  import opened Elimination
  import opened CoefficientStream
  import opened Wire
  import opened GenerationDecoding

  // ---- combining sources

  function Combination(coeffs: Row, syms: seq<Row>, n: nat, ss: nat): (r: Row)
    requires n <= |coeffs| && n <= |syms| && forall i :: 0 <= i < |syms| ==> |syms[i]| == ss
    ensures |r| == ss
  {
    if n == 0 then Zero(ss) else MulAcc(coeffs[n - 1], syms[n - 1], Combination(coeffs, syms, n - 1, ss))
  }

  method Combine(coeffs: Row, syms: seq<Row>, ss: nat) returns (coded: Row)
    requires |syms| <= |coeffs| && forall i :: 0 <= i < |syms| ==> |syms[i]| == ss
    ensures coded == Combination(coeffs, syms, |syms|, ss)
  {
    coded := Zero(ss);
    for i := 0 to |syms|
      invariant coded == Combination(coeffs, syms, i, ss)
    {
      coded := MulAcc(coeffs[i], syms[i], coded);
    }
  }

  /** Byte k of a combination is the product of the coefficients with byte k of the sources. */
  lemma {:induction false} CombinationByte(coeffs: Row, syms: seq<Row>, n: nat, ss: nat, k: nat, x: Row)
    requires n <= |coeffs| && n <= |syms| <= |x| && k < ss && forall i :: 0 <= i < |syms| ==> |syms[i]| == ss
    requires forall i :: 0 <= i < |syms| ==> x[i] == syms[i][k]
    ensures Combination(coeffs, syms, n, ss)[k] == Dot(coeffs, x, n)
  {
    hide Add, Mul;
    if n > 0 {
      CombinationByte(coeffs, syms, n - 1, ss, k, x);
    }
  }

  lemma {:induction false} DotZeroTail(a: Row, x: Row, n: nat, m: nat)
    requires n <= m <= |a| && m <= |x| && forall i :: n <= i < m ==> a[i] == 0
    ensures Dot(a, x, m) == Dot(a, x, n)
  {
    hide Add, Mul;
    if m > n {
      DotZeroTail(a, x, n, m - 1);
      MulZero(x[m - 1]);
      AddCancels(Dot(a, x, n), 0);
    }
  }

  /** A symbol that stays true of every continuation of the source history. */
  ghost predicate Genuine(sym: WireSymbol, history: seq<Row>, ss: nat) {
    forall sources: seq<Row> :: history <= sources ==> SymbolHolds(sym, sources, ss)
  }

  lemma GenuineStays(sym: WireSymbol, history: seq<Row>, d: Row, ss: nat)
    requires Genuine(sym, history, ss)
    ensures Genuine(sym, history + [d], ss)
  {
    forall sources: seq<Row> | history + [d] <= sources
      ensures SymbolHolds(sym, sources, ss)
    {
      assert history <= history + [d] <= sources;
    }
  }

  /** The combination of the sources from anchor on, sent under a header of the given width, is true. */
  lemma RepairIsTrue(h: Header, syms: seq<Row>, coded: Row, sources: seq<Row>, ss: nat)
    requires |syms| == h.codedWidth <= h.width && forall i :: 0 <= i < |syms| ==> |syms[i]| == ss
    requires forall i :: 0 <= i < |syms| ==> h.anchor + i < |sources| && sources[h.anchor + i] == syms[i]
    requires coded == Combination(WindowCoefficients(h.anchor, h.width, h.index), syms, |syms|, ss)
    ensures RowHolds(RepairRow(h, coded, ss), h.width, ss, h.anchor, sources)
  {
    hide Add, Mul, WindowCoefficients;
    var w, n := h.width, h.codedWidth;
    var row := RepairRow(h, coded, ss);
    var coeffs := WindowCoefficients(h.anchor, w, h.index);
    assert Pad(coded, ss) == coded;
    assert row == RepairCoefficients(h) + coded;
    forall k | 0 <= k < ss
      ensures row[w + k] == Dot(row, Column(sources, h.anchor, w, ss, k), w)
    {
      var x := Column(sources, h.anchor, w, ss, k);
      forall i | 0 <= i < n
        ensures x[i] == syms[i][k]
      {
        assert Source(sources, h.anchor + i, ss) == sources[h.anchor + i] == syms[i];
      }
      CombinationByte(coeffs, syms, n, ss, k, x);
      assert row[..n] == coeffs[..n];
      DotPrefix(row, coeffs, x, x, n);
      forall i | n <= i < w ensures row[i] == 0 {
        assert row[i] == row[..w][i];
      }
      DotZeroTail(row, x, n, w);
    }
  }

  // ---- arithmetic of generations

  lemma MultipleDivides(g: nat, size: nat)
    requires size > 0
    ensures (g * size) / size == g
  {
    QuotientUnique(g * size, size, g);
  }

  lemma BelowMultiple(q: nat, g: nat, size: nat)
    requires size > 0
    ensures q >= g * size <==> q / size >= g
  {
    QuotientBounds(q, size);
    var h := q / size;
    if h < g {
      MultipleGap(h, g, size);
    } else if h > g {
      MultipleGap(g, h, size);
    }
  }

  /** The least integer not below x. */
  function Ceil(x: real): (c: int)
    ensures c as real - 1.0 < x <= c as real
  {
    -((-x).Floor)
  }

  lemma BelowCeil(e: nat, x: real)
    ensures e < Ceil(x) <==> e as real < x
  {}

  /** The retained seqs of the run [lo, hi). */
  ghost predicate Retains(sources: map<nat, Row>, lo: nat, hi: nat) {
    lo <= hi && forall q :: q in sources <==> lo <= q < hi
  }

  ghost function Members(sources: map<nat, Row>, start: nat, size: nat): (r: set<nat>) {
    set q | q in sources && q in Span(start, size)
  }

  lemma {:induction false} SpanSize(start: nat, n: nat)
    ensures |Span(start, n)| == n
  {
    if n > 0 {
      SpanSize(start, n - 1);
      assert Span(start, n) == Span(start, n - 1) + {start + n - 1};
    }
  }

  /** A generation holding as many sources as it spans holds all of them. */
  lemma FullGeneration(sources: map<nat, Row>, start: nat, size: nat)
    ensures |Members(sources, start, size)| <= size
    ensures |Members(sources, start, size)| == size ==> forall q :: start <= q < start + size ==> q in sources
  {
    var m, all := Members(sources, start, size), Span(start, size);
    SpanSize(start, size);
    assert m <= all;
    assert |all - m| == |all| - |m|;
    if |m| == size {
      assert all - m == {};
      forall q | start <= q < start + size
        ensures q in sources
      {
        assert q in all;
      }
    }
  }

  /** A repair carrying an equation, as opposed to a raw source or the inert placeholder. */
  ghost predicate IsReal(w: WireSymbol) { w.isRepair && Parse(w.data).Some? }

  /** No two repairs with an equation share an index. */
  ghost predicate Numbered(sent: set<WireSymbol>) {
    forall v, w :: v in sent && w in sent && IsReal(v) && IsReal(w) && v.payloadId == w.payloadId ==> v == w
  }

  /** A repair sums at least one source and is labelled with the last seq it spans, the inert placeholder with zero. */
  ghost predicate Labelled(w: WireSymbol, ss: nat) {
    w.isRepair ==>
      match Parse(w.data)
      case Some(h) => w.blockId + 1 == h.anchor + h.width && h.codedWidth > 0
      case None => w.blockId == 0 && w.data == Zero(HEADER + ss)
  }

  const SEQ_LIMIT: nat := 0x1_0000_0000_0000_0000

  /** n sources from start on are retained, exactly as added. */
  ghost predicate Block(syms: seq<Row>, start: nat, history: seq<Row>, ss: nat) {
    start + |syms| <= |history| && forall i :: 0 <= i < |syms| ==> syms[i] == history[start + i] && |syms[i]| == ss
  }

  lemma SealedSymbolIsGenuine(start: nat, index: nat, syms: seq<Row>, coded: Row, history: seq<Row>, ss: nat,
        sym: WireSymbol)
    requires 0 < |syms| < 0x1_0000 && index < FILL_FLAG && |history| <= SEQ_LIMIT && Block(syms, start, history, ss)
    requires coded == Combination(WindowCoefficients(start, |syms|, index), syms, |syms|, ss)
    requires sym.isRepair && sym.data == Encode(start, |syms|, index, coded)
    ensures Parse(sym.data) == Some(Header(start, |syms|, index, |syms|, HEADER)) && Genuine(sym, history, ss)
  {
    ParseEncode(start, |syms|, index, coded);
    forall sources: seq<Row> | history <= sources
      ensures SymbolHolds(sym, sources, ss)
    {
      RepairIsTrue(Header(start, |syms|, index, |syms|, HEADER), syms, coded, sources, ss);
    }
  }

  lemma FillingSymbolIsGenuine(start: nat, full: nat, index: nat, syms: seq<Row>, coded: Row, history: seq<Row>,
        ss: nat, sym: WireSymbol)
    requires 0 < |syms| <= full < 0x1_0000 && index < FILL_FLAG && |history| <= SEQ_LIMIT
      && Block(syms, start, history, ss)
    requires coded == Combination(WindowCoefficients(start, full, index), syms, |syms|, ss)
    requires sym.isRepair && sym.data == EncodeFilling(start, full, index, |syms|, coded)
    ensures Parse(sym.data) == Some(Header(start, full, index, |syms|, HEADER + 2)) && Genuine(sym, history, ss)
  {
    hide Parse, EncodeFilling, WindowCoefficients, Combination, RowHolds, RepairRow;
    ParseEncodeFilling(start, full, index, |syms|, coded);
    forall sources: seq<Row> | history <= sources
      ensures SymbolHolds(sym, sources, ss)
    {
      RepairIsTrue(Header(start, full, index, |syms|, HEADER + 2), syms, coded, sources, ss);
    }
  }

  lemma SourceIsGenuine(sym: WireSymbol, history: seq<Row>, ss: nat)
    requires !sym.isRepair && sym.blockId < |history| && sym.data == history[sym.blockId] && |sym.data| == ss
    ensures Genuine(sym, history, ss) && !IsReal(sym)
  {
    assert Pad(sym.data, ss) == sym.data;
  }

  lemma InertIsGenuine(sym: WireSymbol, history: seq<Row>, ss: nat)
    requires sym.isRepair && sym.data == Zero(|sym.data|)
    ensures Parse(sym.data).None? && Genuine(sym, history, ss) && !IsReal(sym)
  {
    InertParsesToNothing(sym.data);
  }

  lemma NoMembers(sources: map<nat, Row>, start: nat)
    ensures |Members(sources, start, 0)| == 0
  {
    assert Members(sources, start, 0) == {};
  }

  lemma OneMoreMember(sources: map<nat, Row>, start: nat, i: nat)
    ensures |Members(sources, start, i + 1)| == |Members(sources, start, i)| + (if start + i in sources then 1 else 0)
  {
    var q := start + i;
    assert Members(sources, start, i + 1) == Members(sources, start, i) + (if q in sources then {q} else {});
  }

  /** The emission counts of generations from base on. */
  function CountsFrom(emitted: map<nat, nat>, base: nat): map<nat, nat> {
    map g | g in emitted && g >= base :: emitted[g]
  }

  lemma RetainsFrom(sources: map<nat, Row>, kept: nat, hi: nat, point: nat, history: seq<Row>)
    requires Retains(sources, kept, hi) && hi <= |history|
    requires forall q :: q in sources ==> sources[q] == history[q]
    ensures var kept' := if kept >= point then kept else if point <= hi then point else hi;
      Retains(FromPoint(sources, point), kept', hi)
    ensures forall q :: q in FromPoint(sources, point) ==> q < hi && FromPoint(sources, point)[q] == history[q]
  {}

  class GenerationEncoder {
    const symbolSize: nat
    const genSize: nat
    const overhead: real
    const systematic: bool
    var pipeline: nat
    var sources: map<nat, Row>
    var nextSeq: nat
    var baseGen: nat
    var codeBase: nat
    var rr: nat
    var fillRr: nat
    var codedIndex: nat
    var emitted: map<nat, nat>
    var intakeIdle: bool

    /** Every padded source ever added, by seq. */
    ghost var history: seq<Row>
    /** Every symbol ever emitted. */
    ghost var sent: set<WireSymbol>
    /** The oldest seq still retained. */
    ghost var kept: nat

    ghost predicate Valid()
      reads this`pipeline, this`nextSeq, this`history, this`sources, this`sent, this`codedIndex, this`kept
    {
      && 0 < genSize < 0x1_0000 && pipeline > 0
      && nextSeq == |history|
      && (forall i :: 0 <= i < |history| ==> |history[i]| == symbolSize)
      && (forall q :: q in sources ==> q < nextSeq && sources[q] == history[q])
      && Retains(sources, kept, nextSeq)
      && (forall w :: w in sent ==> Genuine(w, history, symbolSize))
      && (forall w :: w in sent && IsReal(w) ==> w.payloadId < codedIndex)
      && Numbered(sent) && (forall w :: w in sent ==> Labelled(w, symbolSize))
    }

    constructor (symbolSize: nat, size: nat, depth: nat, overhead: real, systematic: bool)
      requires size < 0x1_0000
      ensures Valid() && Paced() && history == [] && sent == {} && codedIndex == 0
        && genSize == (if size >= 1 then size else 1) && this.symbolSize == symbolSize
      ensures this.systematic == systematic && this.overhead == (if overhead >= 0.0 then overhead else 0.0)
      ensures pipeline == (if depth >= 1 then depth else 1) && !intakeIdle && emitted == map[] && sources == map[]
      ensures nextSeq == baseGen == codeBase == rr == fillRr == 0
    {
      this.symbolSize := symbolSize;
      genSize := if size >= 1 then size else 1;
      pipeline := if depth >= 1 then depth else 1;
      this.overhead := if overhead >= 0.0 then overhead else 0.0;
      this.systematic := systematic;
      sources, nextSeq, baseGen, codeBase, rr, fillRr, codedIndex := map[], 0, 0, 0, 0, 0, 0;
      emitted, intakeIdle := map[], false;
      history, sent, kept := [], {}, 0;
      new;
      assert Start(0) == 0;
    }

    /** The anchor of generation g. */
    function Start(g: nat): nat { g * genSize }

    ghost function GenLen(g: nat): nat
      reads this`sources
    {
      |Members(sources, Start(g), genSize)|
    }

    function BudgetFor(len: nat): nat {
      var factor := if systematic then overhead else 1.0 + overhead;
      var c := Ceil(len as real * factor);
      if c >= 0 then c else 0
    }

    /**
     * What a budget allows: coded-only, as many repairs as it takes for all sources and the overhead; with the sources
     * themselves on the wire, only the overhead.
     */
    lemma BudgetMeans(len: nat, e: nat)
      ensures !systematic ==> (e < BudgetFor(len) <==> e as real < len as real * (1.0 + overhead))
      ensures systematic ==> (e < BudgetFor(len) <==> e as real < len as real * overhead)
    {
      BelowCeil(e, len as real * (if systematic then overhead else 1.0 + overhead));
    }

    function EmittedFor(g: nat): nat
      reads this`emitted
    {
      if g in emitted then emitted[g] else 0
    }

    ghost predicate Sealed(g: nat)
      reads this`sources, this`intakeIdle
    {
      GenLen(g) >= genSize || intakeIdle
    }

    /** Eligible for proactive coding: begun, sealed, and under its provisioning budget. */
    ghost predicate Codeable(g: nat)
      reads this`sources, this`intakeIdle, this`emitted
    {
      Start(g) in sources && Sealed(g) && EmittedFor(g) < BudgetFor(GenLen(g))
    }

    /** The newest generation with a retained source; the newest retained seq is nextSeq - 1. */
    function TopGen(): nat
      requires genSize > 0
      reads this`sources, this`nextSeq, this`baseGen
    {
      if sources != map[] && nextSeq > 0 then (nextSeq - 1) / genSize else baseGen
    }

    function Floor(): nat
      reads this`codeBase, this`baseGen
    {
      if codeBase >= baseGen then codeBase else baseGen
    }

    function End(): nat
      requires genSize > 0
      reads this`sources, this`nextSeq, this`baseGen, this`codeBase, this`pipeline
    {
      if Floor() + pipeline <= TopGen() + 1 then Floor() + pipeline else TopGen() + 1
    }

    /** Begun, below no floor, and one of the pipeline's generations from the higher floor on. */
    ghost predicate InPipeline(g: nat)
      reads this`sources, this`baseGen, this`codeBase, this`pipeline
    {
      g * genSize in sources && baseGen <= g && codeBase <= g && (g < baseGen + pipeline || g < codeBase + pipeline)
    }

    lemma PipelineMeans()
      requires Valid()
      ensures forall g: nat :: Start(g) in sources ==> (Floor() <= g < End() <==> InPipeline(g))
    {
      hide Genuine, IsReal, Retains;
      forall g: nat | Start(g) in sources
        ensures g <= TopGen() && (Floor() <= g < End() <==> InPipeline(g))
      {
        WholeBelow(g, genSize, nextSeq);
      }
    }

    /** Some generation between the coding floor and the end of the pipeline is codeable. */
    ghost predicate SomeCodeable()
      requires genSize > 0
      reads this`sources, this`nextSeq, this`baseGen, this`codeBase, this`pipeline, this`intakeIdle, this`emitted
    {
      exists g :: Floor() <= g < End() && Codeable(g)
    }

    method CountRetained(g: nat) returns (n: nat)
      ensures n == GenLen(g)
    {
      hide Members;
      n := 0;
      var start := Start(g);
      NoMembers(sources, start);
      for i := 0 to genSize
        invariant n == |Members(sources, start, i)|
      {
        OneMoreMember(sources, start, i);
        if start + i in sources {
          n := n + 1;
        }
      }
    }

    method IsCodeable(g: nat) returns (r: bool)
      ensures r == Codeable(g)
    {
      if Start(g) !in sources {
        return false;
      }
      var len := CountRetained(g);
      if !(len >= genSize || intakeIdle) {
        return false;
      }
      return EmittedFor(g) < BudgetFor(len);
    }

    method WantsCoding() returns (r: bool)
      requires Valid()
      ensures r == SomeCodeable()
    {
      var floor, hi := Floor(), End();
      if hi <= floor {
        return false;
      }
      for g := floor to hi
        invariant forall i :: floor <= i < g ==> !Codeable(i)
      {
        var c := IsCodeable(g);
        if c {
          return true;
        }
      }
      return false;
    }

    /** A scan of the pipeline from the cursor on, and around, comes by i before it comes to g. */
    predicate Passed(cursor: nat, g: nat, i: nat)
      requires genSize > 0
      reads this`sources, this`nextSeq, this`baseGen, this`codeBase, this`pipeline
    {
      var first := if cursor < Floor() || cursor >= End() then Floor() else cursor;
      if g >= first then first <= i < g else first <= i || i < g
    }

    /** The cyclic scan from the round-robin cursor; it misses no generation, wherever the cursor stands. */
    method NextActiveGen() returns (r: Option<nat>)
      requires Valid()
      modifies this`rr
      ensures Valid()
      ensures r.Some? ==> Floor() <= r.value < End() && Codeable(r.value) && rr == r.value + 1
      ensures r.Some? ==> forall i :: Floor() <= i < End() && Passed(old(rr), r.value, i) ==> !Codeable(i)
      ensures r.Some? <==> SomeCodeable()
    {
      hide Codeable, End, Floor, Retains, Genuine;
      var floor, hi := Floor(), End();
      if hi <= floor {
        return None;
      }
      var span := hi - floor;
      ghost var first := if rr < floor || rr >= hi then floor else rr;
      for n := 0 to span
        invariant Valid()
        invariant n == 0 ==> rr == old(rr)
        invariant 0 < n <= hi - first ==> rr == first + n
        invariant n > hi - first ==> rr == floor + (n - (hi - first))
        invariant forall i :: first <= i < hi && i < first + n ==> !Codeable(i)
        invariant forall i :: floor <= i < floor + (n - (hi - first)) ==> !Codeable(i)
      {
        if rr < floor || rr >= hi {
          rr := floor;
        }
        var g := rr;
        rr := rr + 1;
        var c := IsCodeable(g);
        if c {
          return Some(g);
        }
      }
      return None;
    }

    /** The contiguous retained sources of generation g from its start on. */
    method GenerationSymbols(g: nat) returns (start: nat, syms: seq<Row>)
      requires Valid()
      ensures start == Start(g) && |syms| <= genSize
      ensures forall q :: start <= q < start + |syms| ==> q in sources
      ensures Block(syms, start, history, symbolSize) || syms == []
      ensures start in sources ==> syms != []
      ensures |syms| == genSize || start + |syms| !in sources
    {
      hide Retains, Genuine, IsReal;
      start := Start(g);
      syms := [];
      var q := start;
      while q < start + genSize
        invariant q == start + |syms| && |syms| <= genSize
        invariant syms == [] || Block(syms, start, history, symbolSize)
        invariant syms == [] ==> q == start
        invariant forall p :: start <= p < q ==> p in sources
      {
        if q !in sources {
          return;
        }
        syms := syms + [sources[q]];
        q := q + 1;
      }
    }

    /** Notes an emitted symbol in the history of the run. */
    ghost method Record(sym: WireSymbol)
      requires Valid() && Genuine(sym, history, symbolSize) && (IsReal(sym) ==> sym.payloadId < codedIndex)
      requires Labelled(sym, symbolSize)
      requires IsReal(sym) ==> forall w :: w in sent && IsReal(w) ==> w.payloadId < sym.payloadId
      modifies this`sent
      ensures Valid() && sent == old(sent) + {sym}
    {
      hide Genuine, IsReal, Retains;
      sent := sent + {sym};
    }

    /** One coded symbol over the retained span of generation g. */
    method CodeGeneration(g: nat) returns (sym: WireSymbol)
      requires Valid() && Start(g) in sources && codedIndex < FILL_FLAG && nextSeq <= SEQ_LIMIT
      modifies this`codedIndex, this`emitted, this`sent
      ensures Valid() && sent == old(sent) + {sym}
      ensures codedIndex == old(codedIndex) + 1 && emitted == old(emitted)[g := old(EmittedFor(g)) + 1]
      ensures exists w: nat :: IsSealedSymbol(sym, Start(g), w, old(codedIndex))
    {
      hide Genuine, Parse, Encode, Combination, WindowCoefficients, IsReal, Retains;
      var index := codedIndex;
      codedIndex := codedIndex + 1;
      emitted := emitted[g := EmittedFor(g) + 1];
      var start, syms := GenerationSymbols(g);
      var coeffs := GenerateWindowCoefficients(start, |syms|, index);
      var coded := Combine(coeffs, syms, symbolSize);
      sym := WireSymbol(start + |syms| - 1, index, true, Encode(start, |syms|, index, coded), Rlc);
      SealedSymbolIsGenuine(start, index, syms, coded, history, symbolSize, sym);
      Record(sym);
      assert IsSealedSymbol(sym, start, |syms|, index);
    }

    /** sym is the repair with this index over the whole retained run [start, start + w) of a generation. */
    ghost predicate IsSealedSymbol(sym: WireSymbol, start: nat, w: nat, index: nat)
      reads this`sources
    {
      && Spans(start, w) && sym.isRepair && sym.backend == Rlc
      && sym.blockId == start + w - 1 && sym.payloadId == index
      && Parse(sym.data) == Some(Header(start, w, index, w, HEADER))
    }

    /** [start, start + w) is the whole retained run of a generation from its start on. */
    ghost predicate Spans(start: nat, w: nat)
      reads this`sources
    {
      && 0 < w <= genSize
      && (forall q :: start <= q < start + w ==> q in sources)
      && (w == genSize || start + w !in sources)
    }

    lemma SentIsGenuine(sym: WireSymbol)
      requires Valid() && sym in sent
      ensures Genuine(sym, history, symbolSize)
    {}

    lemma CodeableMeans(g: nat)
      requires Codeable(g)
      ensures Start(g) in sources && Sealed(g) && EmittedFor(g) < BudgetFor(GenLen(g))
    {}

    /** A sealed generation is coded over its full width unless intake is idle. */
    lemma SealedSpansAll(g: nat, w: nat)
      requires genSize > 0 && Sealed(g) && !intakeIdle && Spans(Start(g), w)
      ensures w == genSize
    {
      FullGeneration(sources, Start(g), genSize);
    }

    method GenerateRepair() returns (sym: WireSymbol)
      requires Valid() && codedIndex < FILL_FLAG && nextSeq <= SEQ_LIMIT
      modifies this`rr, this`codedIndex, this`emitted, this`sent
      ensures Valid() && sent == old(sent) + {sym}
      ensures IsReal(sym) <==> old(SomeCodeable())
      ensures !IsReal(sym) ==>
        && emitted == old(emitted) && codedIndex == old(codedIndex)
        && sym == WireSymbol(0, codedIndex, true, Zero(HEADER + symbolSize), Rlc)
      ensures IsReal(sym) ==> codedIndex == old(codedIndex) + 1
      ensures IsReal(sym) ==>
        (exists g: nat, w: nat ::
          Proactive(sym, g, w, old(codedIndex)) && old(Codeable(g))
            && emitted == old(emitted)[g := old(EmittedFor(g)) + 1])
      // a generation gets repairs while they are fewer than its sources and the overhead ask for, and then no more
      ensures !IsReal(sym) ==> forall g: nat :: InPipeline(g) && Sealed(g) ==> Provided(g)
      ensures IsReal(sym) ==>
        exists g: nat ::
          InPipeline(g) && Sealed(g) && !old(Provided(g)) && emitted == old(emitted)[g := old(EmittedFor(g)) + 1]
    {
      hide Genuine, Parse, Codeable, End, Floor, Retains, Spans, SomeCodeable, Start, BudgetFor, GenLen, Sealed,
          Provided, InPipeline;
      PipelineMeans();
      var r := NextActiveGen();
      if r.None? {
        AllProvided();
        sym := Inert();
        return;
      }
      NotProvided(r.value);
      var g := r.value;
      CodeableMeans(g);
      sym := CodeGeneration(g);
      ghost var w: nat :| IsSealedSymbol(sym, Start(g), w, old(codedIndex));
      if !intakeIdle {
        SealedSpansAll(g, w);
      }
      assert Proactive(sym, g, w, old(codedIndex));
    }

    /** As many repairs as the overhead asks for, on top of one for each source unless those travel themselves. */
    ghost predicate Provided(g: nat)
      reads this`sources, this`emitted
    {
      && (!systematic ==> EmittedFor(g) as real >= GenLen(g) as real * (1.0 + overhead))
      && (systematic ==> EmittedFor(g) as real >= GenLen(g) as real * overhead)
    }

    lemma NotProvided(g: nat)
      requires Codeable(g)
      ensures !Provided(g) && Sealed(g) && Start(g) in sources
    {
      hide GenLen;
      BudgetMeans(GenLen(g), EmittedFor(g));
    }

    lemma AllProvided()
      requires genSize > 0 && !SomeCodeable()
      requires Valid()
      ensures forall g: nat :: InPipeline(g) && Sealed(g) ==> Provided(g)
    {
      hide GenLen, Floor, End, BudgetFor, Genuine, IsReal, Retains;
      PipelineMeans();
      forall g: nat | InPipeline(g) && Sealed(g)
        ensures Provided(g)
      {
        assert Start(g) in sources && !Codeable(g);
        BudgetMeans(GenLen(g), EmittedFor(g));
      }
    }

    /** A coded-only generation that gets no more has had at least one repair for each source. */
    lemma ProvidedCovers(g: nat)
      requires Provided(g) && !systematic && overhead >= 0.0
      ensures EmittedFor(g) >= GenLen(g)
    {
      hide GenLen;
      NonnegativeTimes(GenLen(g), overhead);
    }

    /** A proactive symbol: within budget, between the floor and the end of the pipeline, full width unless idle. */
    ghost predicate Proactive(sym: WireSymbol, g: nat, w: nat, index: nat)
      requires genSize > 0
      reads this
    {
      && Floor() <= g < End() && IsSealedSymbol(sym, Start(g), w, index)
      && EmittedFor(g) <= BudgetFor(GenLen(g))
      && (!intakeIdle ==> w == genSize)
    }

    /** What an idle encoder sends. */
    method Inert() returns (sym: WireSymbol)
      requires Valid()
      modifies this`sent
      ensures Valid() && sent == old(sent) + {sym} && !IsReal(sym)
      ensures sym == WireSymbol(0, codedIndex, true, Zero(HEADER + symbolSize), Rlc)
    {
      sym := WireSymbol(0, codedIndex, true, Zero(HEADER + symbolSize), Rlc);
      InertIsGenuine(sym, history, symbolSize);
      Record(sym);
    }

    method GenerateRepairFor(anchor: nat) returns (r: Option<WireSymbol>)
      requires Valid() && codedIndex < FILL_FLAG && nextSeq <= SEQ_LIMIT
      modifies this`codedIndex, this`emitted, this`sent
      ensures Valid()
      ensures r.Some? <==> anchor % genSize == 0 && anchor in sources && Sealed(anchor / genSize)
      ensures r.None? ==> sent == old(sent) && codedIndex == old(codedIndex) && emitted == old(emitted)
      ensures r.Some? ==> sent == old(sent) + {r.value} && codedIndex == old(codedIndex) + 1
      ensures r.Some? ==> emitted == old(emitted)[anchor / genSize := old(EmittedFor(anchor / genSize)) + 1]
      ensures r.Some? ==> exists w: nat ::
        IsSealedSymbol(r.value, anchor, w, old(codedIndex)) && (!intakeIdle ==> w == genSize)
    {
      hide Genuine, Parse, Retains, Spans;
      if anchor % genSize != 0 {
        return None;
      }
      var g := anchor / genSize;
      assert Start(g) == anchor;
      if anchor !in sources {
        return None;
      }
      var len := CountRetained(g);
      if !(len >= genSize || intakeIdle) {
        return None;
      }
      var sym := CodeGeneration(g);
      ghost var w: nat :| IsSealedSymbol(sym, Start(g), w, old(codedIndex));
      if !intakeIdle {
        SealedSpansAll(g, w);
      }
      return Some(sym);
    }

    // ---- the filling pacer

    /** Eligible for the filling pacer: begun and under budget, sealed or not. */
    ghost predicate CodeableFilling(g: nat)
      reads this`sources, this`emitted
    {
      Start(g) in sources && EmittedFor(g) < BudgetFor(GenLen(g))
    }

    ghost predicate SomeFilling()
      requires genSize > 0
      reads this`sources, this`nextSeq, this`baseGen, this`codeBase, this`pipeline, this`emitted
    {
      exists g :: Floor() <= g < End() && CodeableFilling(g)
    }

    method IsCodeableFilling(g: nat) returns (r: bool)
      ensures r == CodeableFilling(g)
    {
      if Start(g) !in sources {
        return false;
      }
      var len := CountRetained(g);
      return EmittedFor(g) < BudgetFor(len);
    }

    method WantsFillingCoding() returns (r: bool)
      requires Valid()
      ensures r == SomeFilling()
    {
      var floor, hi := Floor(), End();
      if hi <= floor {
        return false;
      }
      for g := floor to hi
        invariant forall i :: floor <= i < g ==> !CodeableFilling(i)
      {
        var c := IsCodeableFilling(g);
        if c {
          return true;
        }
      }
      return false;
    }

    method NextFillGen() returns (r: Option<nat>)
      requires Valid()
      modifies this`fillRr
      ensures Valid()
      ensures r.Some? ==> Floor() <= r.value < End() && CodeableFilling(r.value) && fillRr == r.value + 1
      ensures r.Some? ==> forall i :: Floor() <= i < End() && Passed(old(fillRr), r.value, i) ==> !CodeableFilling(i)
      ensures r.Some? <==> SomeFilling()
    {
      hide CodeableFilling, End, Floor, Retains, Genuine;
      var floor, hi := Floor(), End();
      if hi <= floor {
        return None;
      }
      var span := hi - floor;
      ghost var first := if fillRr < floor || fillRr >= hi then floor else fillRr;
      for n := 0 to span
        invariant Valid()
        invariant n == 0 ==> fillRr == old(fillRr)
        invariant 0 < n <= hi - first ==> fillRr == first + n
        invariant n > hi - first ==> fillRr == floor + (n - (hi - first))
        invariant forall i :: first <= i < hi && i < first + n ==> !CodeableFilling(i)
        invariant forall i :: floor <= i < floor + (n - (hi - first)) ==> !CodeableFilling(i)
      {
        if fillRr < floor || fillRr >= hi {
          fillRr := floor;
        }
        var g := fillRr;
        fillRr := fillRr + 1;
        var c := IsCodeableFilling(g);
        if c {
          return Some(g);
        }
      }
      return None;
    }

    /** sym codes the retained prefix [start, start + w) of a generation at the full matrix width. */
    ghost predicate IsFillingSymbol(sym: WireSymbol, start: nat, w: nat, index: nat)
      reads this`sources
    {
      && Spans(start, w) && sym.isRepair && sym.backend == Rlc
      && sym.blockId == start + genSize - 1 && sym.payloadId == index
      && Parse(sym.data) == Some(Header(start, genSize, index, w, HEADER + 2))
    }

    method CodeGenerationFull(g: nat) returns (sym: WireSymbol)
      requires Valid() && Start(g) in sources && codedIndex < FILL_FLAG && nextSeq <= SEQ_LIMIT
      modifies this`codedIndex, this`emitted, this`sent
      ensures Valid() && sent == old(sent) + {sym}
      ensures codedIndex == old(codedIndex) + 1 && emitted == old(emitted)[g := old(EmittedFor(g)) + 1]
      ensures exists w: nat :: IsFillingSymbol(sym, Start(g), w, old(codedIndex))
    {
      hide Genuine, Parse, EncodeFilling, Combination, WindowCoefficients, IsReal, Retains, Start;
      var index := codedIndex;
      codedIndex := codedIndex + 1;
      emitted := emitted[g := EmittedFor(g) + 1];
      var start, syms := GenerationSymbols(g);
      var coeffs := GenerateWindowCoefficients(start, genSize, index);
      var coded := Combine(coeffs, syms, symbolSize);
      sym := WireSymbol(start + genSize - 1, index, true, EncodeFilling(start, genSize, index, |syms|, coded), Rlc);
      FillingSymbolIsGenuine(start, genSize, index, syms, coded, history, symbolSize, sym);
      Record(sym);
      assert IsFillingSymbol(sym, start, |syms|, index);
    }

    method GenerateRepairFilling() returns (sym: WireSymbol)
      requires Valid() && codedIndex < FILL_FLAG && nextSeq <= SEQ_LIMIT
      modifies this`fillRr, this`codedIndex, this`emitted, this`sent
      ensures Valid() && sent == old(sent) + {sym}
      ensures IsReal(sym) <==> old(SomeFilling())
      ensures !IsReal(sym) ==>
        && emitted == old(emitted) && codedIndex == old(codedIndex)
        && sym == WireSymbol(0, codedIndex, true, Zero(HEADER + symbolSize), Rlc)
      ensures IsReal(sym) ==> codedIndex == old(codedIndex) + 1
      ensures IsReal(sym) ==>
        (exists g: nat, w: nat ::
          IsFillingSymbol(sym, Start(g), w, old(codedIndex)) && Floor() <= g < End()
            && EmittedFor(g) <= BudgetFor(GenLen(g))
          && emitted == old(emitted)[g := old(EmittedFor(g)) + 1])
      ensures !IsReal(sym) ==> forall g: nat :: InPipeline(g) ==> Provided(g)
      ensures IsReal(sym) ==>
        exists g: nat ::
          InPipeline(g) && !old(Provided(g)) && emitted == old(emitted)[g := old(EmittedFor(g)) + 1]
    {
      hide Genuine, Parse, CodeableFilling, End, Floor, Retains, Spans, SomeFilling, Start, BudgetFor, GenLen, Provided,
          InPipeline;
      PipelineMeans();
      var r := NextFillGen();
      if r.None? {
        AllFilled();
        sym := Inert();
        return;
      }
      FillingNotProvided(r.value);
      var g := r.value;
      FillingMeans(g);
      sym := CodeGenerationFull(g);
    }

    lemma FillingNotProvided(g: nat)
      requires CodeableFilling(g)
      ensures !Provided(g)
    {
      hide GenLen;
      BudgetMeans(GenLen(g), EmittedFor(g));
    }

    lemma AllFilled()
      requires Valid() && !SomeFilling()
      ensures forall g: nat :: InPipeline(g) ==> Provided(g)
    {
      hide GenLen, Floor, End, BudgetFor, Genuine, IsReal, Retains;
      PipelineMeans();
      forall g: nat | InPipeline(g)
        ensures Provided(g)
      {
        assert Start(g) in sources && !CodeableFilling(g);
        BudgetMeans(GenLen(g), EmittedFor(g));
      }
    }

    lemma FillingMeans(g: nat)
      requires CodeableFilling(g)
      ensures Start(g) in sources && EmittedFor(g) < BudgetFor(GenLen(g))
    {}

    // ---- arbitrary ranges

    /** One coded symbol over [start, start + count), provided all of it is retained. */
    method GenerateRepairRange(start: nat, count: nat) returns (r: Option<WireSymbol>)
      requires Valid() && codedIndex < FILL_FLAG && nextSeq <= SEQ_LIMIT && count < 0x1_0000
      modifies this`codedIndex, this`sent
      ensures Valid()
      ensures r.Some? <==> count > 0 && forall q :: start <= q < start + count ==> q in sources
      ensures r.None? ==> sent == old(sent) && codedIndex == old(codedIndex)
      ensures r.Some? ==>
        && sent == old(sent) + {r.value} && codedIndex == old(codedIndex) + 1
        && r.value.isRepair && r.value.backend == Rlc
        && r.value.payloadId == old(codedIndex) && r.value.blockId == start + count - 1
        && Parse(r.value.data) == Some(Header(start, count, old(codedIndex), count, HEADER))
    {
      hide Genuine, Parse, Encode, Combination, WindowCoefficients, IsReal, Retains;
      if count == 0 {
        return None;
      }
      var syms: seq<Row> := [];
      for i := 0 to count
        invariant |syms| == i && (i > 0 ==> Block(syms, start, history, symbolSize))
        invariant forall q :: start <= q < start + i ==> q in sources
      {
        if start + i !in sources {
          return None;
        }
        syms := syms + [sources[start + i]];
      }
      var index := codedIndex;
      codedIndex := codedIndex + 1;
      var coeffs := GenerateWindowCoefficients(start, count, index);
      var coded := Combine(coeffs, syms, symbolSize);
      var sym := WireSymbol(start + count - 1, index, true, Encode(start, count, index, coded), Rlc);
      SealedSymbolIsGenuine(start, index, syms, coded, history, symbolSize, sym);
      Record(sym);
      return Some(sym);
    }

    // ---- intake, retention and pacing

    method AddSource(data: seq<byte>) returns (sym: WireSymbol)
      requires Valid()
      modifies this`nextSeq, this`sources, this`history, this`sent
      ensures Valid() && sent == old(sent) + {sym}
      ensures history == old(history) + [Pad(data, symbolSize)]
      ensures sym == WireSymbol(old(nextSeq), 0, false, Pad(data, symbolSize), Rlc)
      ensures sources == old(sources)[old(nextSeq) := Pad(data, symbolSize)] && nextSeq == old(nextSeq) + 1
    {
      hide Genuine, IsReal;
      var q := nextSeq;
      nextSeq := nextSeq + 1;
      var padded := Pad(data, symbolSize);
      sources := sources[q := padded];
      history := history + [padded];
      forall w | w in sent
        ensures Genuine(w, history, symbolSize)
      {
        GenuineStays(w, old(history), padded, symbolSize);
      }
      sym := WireSymbol(q, 0, false, padded, Rlc);
      SourceIsGenuine(sym, history, symbolSize);
      Record(sym);
    }

    /** Drops every source below genFloor, which is the anchor of generation base, and moves the floors up to it. */
    method AdvanceTo(genFloor: nat, base: nat)
      requires Valid()
      modifies this`sources, this`baseGen, this`codeBase, this`rr, this`emitted, this`kept
      ensures Valid()
      ensures sources == FromPoint(old(sources), genFloor)
      ensures baseGen == base && codeBase == (if old(codeBase) < base then base else old(codeBase))
      ensures rr == (if old(rr) < base then base else old(rr))
      ensures emitted == CountsFrom(old(emitted), base)
      ensures kept == if old(kept) >= genFloor then old(kept) else if genFloor <= nextSeq then genFloor else nextSeq
    {
      hide Genuine, IsReal, FromPoint, CountsFrom, Retains, Numbered, Labelled;
      RetainsFrom(sources, kept, nextSeq, genFloor, history);
      kept := if kept >= genFloor then kept else if genFloor <= nextSeq then genFloor else nextSeq;
      DropBelow(genFloor);
      RaiseFloors(base);
    }

    method RaiseFloors(base: nat)
      modifies this`baseGen, this`codeBase, this`rr, this`emitted
      ensures baseGen == base && codeBase == (if old(codeBase) < base then base else old(codeBase))
      ensures rr == (if old(rr) < base then base else old(rr)) && emitted == CountsFrom(old(emitted), base)
    {
      baseGen := base;
      if codeBase < baseGen {
        codeBase := baseGen;
      }
      if rr < baseGen {
        rr := baseGen;
      }
      emitted := CountsFrom(emitted, baseGen);
    }

    /** Drops whole generations below the frontier; a generation is never split. */
    method Advance(oldest: nat)
      requires Valid()
      modifies this`sources, this`baseGen, this`codeBase, this`rr, this`emitted, this`kept
      ensures Valid()
      ensures forall q :: q in sources <==> q in old(sources) && q / genSize >= oldest / genSize
      ensures baseGen == oldest / genSize && codeBase == (if old(codeBase) < baseGen then baseGen else old(codeBase))
      ensures rr == (if old(rr) < baseGen then baseGen else old(rr))
      ensures forall g: nat :: EmittedFor(g) == if g < baseGen then 0 else old(EmittedFor(g))
      ensures oldest <= nextSeq ==> Paced()
    {
      hide Genuine, IsReal;
      var genFloor := (oldest / genSize) * genSize;
      MultipleDivides(oldest / genSize, genSize);
      AdvanceTo(genFloor, genFloor / genSize);
      forall q | q in old(sources)
        ensures q >= genFloor <==> q / genSize >= oldest / genSize
      {
        BelowMultiple(q, oldest / genSize, genSize);
      }
      QuotientBounds(oldest, genSize);
    }

    /** No acknowledgement ran ahead of what was sent. */
    ghost predicate Paced()
      reads this`baseGen, this`kept
    {
      Start(baseGen) <= kept
    }

    /**
     * The clamp of SetCodeBase is well defined exactly when the retention floor has not passed the newest source,
     * or nothing is retained. Acknowledgements that stay within what was sent keep it so.
     */
    lemma ClampDefined()
      requires Valid()
      ensures baseGen <= TopGen() <==> sources == map[] || Start(baseGen) < nextSeq
      ensures Paced() ==> baseGen <= TopGen()
    {
      if sources != map[] {
        NewestRetained();
        BelowMultiple(nextSeq - 1, baseGen, genSize);
      }
    }

    lemma NewestRetained()
      requires Valid() && sources != map[]
      ensures nextSeq > 0 && nextSeq - 1 in sources && forall q :: q in sources ==> q <= nextSeq - 1
    {
      var q :| q in sources;
    }

    method DropBelow(genFloor: nat)
      modifies this`sources
      ensures sources == FromPoint(old(sources), genFloor)
    {
      var drop := set q | q in sources && q < genFloor;
      while drop != {}
        invariant forall q :: q in drop <==> q in sources && q < genFloor
        invariant forall q :: q in sources ==> q in old(sources) && sources[q] == old(sources)[q]
        invariant forall q :: q in old(sources) && q >= genFloor ==> q in sources
      {
        var q :| q in drop;
        drop := drop - {q};
        sources := sources - {q};
      }
    }

    /** Moves the proactive floor toward the send frontier, never back; the clamp needs base <= top. */
    method SetCodeBase(anchor: nat)
      requires Valid() && baseGen <= TopGen()
      modifies this`codeBase, this`rr
      ensures Valid()
      ensures codeBase == Max(old(codeBase), Min(Max(anchor / genSize, baseGen), TopGen()))
      ensures rr == if codeBase > old(codeBase) then Max(old(rr), codeBase) else old(rr)
    {
      hide Genuine, IsReal;
      var g := anchor / genSize;
      var top := TopGen();
      var want := if g < baseGen then baseGen else if g > top then top else g;
      if want > codeBase {
        codeBase := want;
        if rr < codeBase {
          rr := codeBase;
        }
      }
    }

    method SetIntakeIdle(idle: bool)
      requires Valid()
      modifies this`intakeIdle
      ensures Valid() && intakeIdle == idle
    {
      intakeIdle := idle;
    }

    method SetPipelineDepth(m: nat)
      requires Valid()
      modifies this`pipeline
      ensures Valid() && pipeline == if m >= 1 then m else 1
    {
      pipeline := if m >= 1 then m else 1;
    }

    method GetSource(q: nat) returns (r: Option<WireSymbol>)
      requires Valid()
      ensures r.Some? <==> q in sources
      ensures r.Some? ==> Genuine(r.value, history, symbolSize) && r.value == WireSymbol(q, 0, false, history[q], Rlc)
    {
      if q !in sources {
        return None;
      }
      var sym := WireSymbol(q, 0, false, sources[q], Rlc);
      SourceIsGenuine(sym, history, symbolSize);
      return Some(sym);
    }
  }

  /** After one whole generation was added and e repairs were emitted for it. */
  ghost predicate OneGeneration(enc: GenerationEncoder, size: nat, e: nat)
    reads enc
  {
    && enc.Valid() && enc.genSize == enc.nextSeq == size > 0 && enc.baseGen == enc.codeBase == 0 && !enc.intakeIdle
    && (forall q: nat :: q in enc.sources <==> q < size) && enc.emitted == (if e == 0 then map[] else map[0 := e])
    && enc.codedIndex == e
  }

  lemma OneGenerationMeans(enc: GenerationEncoder, size: nat, e: nat)
    requires OneGeneration(enc, size, e)
    ensures enc.Valid() && enc.GenLen(0) == size && enc.Sealed(0) && enc.Floor() == 0 && enc.End() == 1
      && enc.EmittedFor(0) == e
    ensures enc.Start(0) == 0 && (enc.SomeCodeable() <==> e < enc.BudgetFor(size))
  {
    hide Genuine, Retains, GenerationEncoder.BudgetFor;
    SpanSize(0, size);
    assert enc.Start(0) == 0;
    assert Members(enc.sources, 0, size) == Span(0, size);
    assert 0 in enc.sources;
    QuotientUnique(size - 1, size, 0);
    if enc.SomeCodeable() {
      var g :| enc.Floor() <= g < enc.End() && enc.Codeable(g);
      assert g == 0;
    } else {
      assert !enc.Codeable(0);
    }
  }

  /** Adds one whole generation. */
  method FillOne(enc: GenerationEncoder, datas: seq<seq<byte>>)
    requires enc.Valid() && enc.genSize == |datas| > 0
      && enc.nextSeq == enc.baseGen == enc.codeBase == enc.codedIndex == 0
    requires enc.sources == map[] && enc.emitted == map[] && !enc.intakeIdle
    modifies enc
    ensures OneGeneration(enc, |datas|, 0)
  {
    hide Genuine, GenerationEncoder.Valid;
    for i := 0 to |datas|
      invariant enc.Valid() && enc.nextSeq == i && (forall q: nat :: q in enc.sources <==> q < i)
      invariant enc.baseGen == enc.codeBase == enc.codedIndex == 0 && enc.emitted == map[] && !enc.intakeIdle
    {
      var sym := enc.AddSource(datas[i]);
    }
  }

  /** One more repair of a single generation that is still codeable. */
  method ProvideOne(enc: GenerationEncoder, size: nat, e: nat) returns (sym: WireSymbol)
    requires OneGeneration(enc, size, e) && enc.SomeCodeable() && e < FILL_FLAG && size <= SEQ_LIMIT
    modifies enc
    ensures OneGeneration(enc, size, e + 1)
    ensures Parse(sym.data) == Some(Header(0, size, e, size, HEADER))
  {
    OneGenerationMeans(enc, size, e);
    sym := enc.GenerateRepair();
  }

  /**
   * A whole generation, proactively coded until the encoder wants no more: coded-only, the least number of repairs
   * that is not below its sources and the overhead, so never fewer than its sources; with the sources themselves on
   * the wire, the least number not below the overhead.
   */
  method Provision(ss: nat, depth: nat, overhead: real, systematic: bool, datas: seq<seq<byte>>)
    returns (repairs: seq<WireSymbol>)
    requires 0 < |datas| < 0x1_0000 && overhead >= 0.0
    requires |datas| as real * (1.0 + overhead) < FILL_FLAG as real
    ensures forall i :: 0 <= i < |repairs| ==>
      Parse(repairs[i].data) == Some(Header(0, |datas|, i, |datas|, HEADER))
    ensures !systematic ==> |repairs| as real - 1.0 < |datas| as real * (1.0 + overhead) <= |repairs| as real
    ensures systematic ==> |repairs| as real - 1.0 < |datas| as real * overhead <= |repairs| as real
    ensures !systematic ==> |repairs| >= |datas|
  {
    hide *;
    var enc := new GenerationEncoder(ss, |datas|, depth, overhead, systematic);
    FillOne(enc, datas);
    BudgetFits(enc, |datas|);
    repairs := ProvideAll(enc, |datas|);
    LeastEnough(enc, |datas|, |repairs|);
  }

  method ProvideAll(enc: GenerationEncoder, size: nat) returns (repairs: seq<WireSymbol>)
    requires OneGeneration(enc, size, 0) && enc.BudgetFor(size) <= FILL_FLAG && size < 0x1_0000
    modifies enc
    ensures |repairs| == enc.BudgetFor(size)
    ensures forall i :: 0 <= i < |repairs| ==> Parse(repairs[i].data) == Some(Header(0, size, i, size, HEADER))
  {
    hide GenerationEncoder.Valid, GenerationEncoder.BudgetFor, GenerationEncoder.SomeCodeable, OneGeneration, Parse;
    repairs := [];
    OneGenerationMeans(enc, size, 0);
    var more := enc.WantsCoding();
    while more
      invariant OneGeneration(enc, size, |repairs|)
      invariant |repairs| <= enc.BudgetFor(size) && (more <==> |repairs| < enc.BudgetFor(size))
      invariant forall i :: 0 <= i < |repairs| ==> Parse(repairs[i].data) == Some(Header(0, size, i, size, HEADER))
      decreases enc.BudgetFor(size) - |repairs|
    {
      OneGenerationMeans(enc, size, |repairs|);
      var sym := ProvideOne(enc, size, |repairs|);
      repairs := repairs + [sym];
      OneGenerationMeans(enc, size, |repairs|);
      more := enc.WantsCoding();
    }
  }

  lemma BudgetFits(enc: GenerationEncoder, size: nat)
    requires enc.overhead >= 0.0 && size as real * (1.0 + enc.overhead) < FILL_FLAG as real
    ensures enc.BudgetFor(size) <= FILL_FLAG
  {
    hide GenerationEncoder.BudgetFor;
    enc.BudgetMeans(size, FILL_FLAG);
    NonnegativeTimes(size, enc.overhead);
  }

  lemma LeastEnough(enc: GenerationEncoder, size: nat, e: nat)
    requires e == enc.BudgetFor(size) && enc.overhead >= 0.0
    ensures !enc.systematic ==> e as real - 1.0 < size as real * (1.0 + enc.overhead) <= e as real && e >= size
    ensures enc.systematic ==> e as real - 1.0 < size as real * enc.overhead <= e as real
  {
    hide GenerationEncoder.BudgetFor;
    enc.BudgetMeans(size, e);
    NonnegativeTimes(size, enc.overhead);
    if e > 0 {
      enc.BudgetMeans(size, e - 1);
    }
    if enc.systematic {
      Squeezed(e, size as real * enc.overhead);
    } else {
      Squeezed(e, size as real * (1.0 + enc.overhead));
      CoversAll(size, e, size as real * enc.overhead);
    }
  }

  lemma Squeezed(e: nat, x: real)
    requires x >= 0.0 && !(e as real < x) && (e > 0 ==> (e - 1) as real < x)
    ensures e as real - 1.0 < x <= e as real
  {}

  lemma CoversAll(size: nat, e: nat, more: real)
    requires more >= 0.0 && e as real >= size as real + more
    ensures e >= size
  {}

  lemma WholeBelow(g: nat, size: nat, n: nat)
    requires size > 0 && g * size < n
    ensures g <= (n - 1) / size
  {
    QuotientBounds(n - 1, size);
    if g > (n - 1) / size {
      MultipleGap((n - 1) / size, g, size);
    }
  }

  lemma NonnegativeTimes(n: nat, x: real)
    requires x >= 0.0
    ensures n as real * x >= 0.0 && n as real * (1.0 + x) == n as real + n as real * x
  {
    ProductLaws(n as real, x);
  }

  lemma ProductLaws(a: real, x: real)
    requires a >= 0.0 && x >= 0.0
    ensures a * x >= 0.0 && a * (1.0 + x) == a + a * x
  {}

  /** An acknowledgement ahead of the sources leaves the next SetCodeBase nothing to clamp to. */
  method ClampUndefined() returns (enc: GenerationEncoder)
    ensures fresh(enc) && enc.Valid() && !(enc.baseGen <= enc.TopGen())
  {
    enc := new GenerationEncoder(8, 4, 1, 0.5, false);
    enc.Advance(8);
    var sym := enc.AddSource([]);
    assert 0 in enc.sources && enc.Start(enc.baseGen) == 8;
    enc.ClampDefined();
  }
}
