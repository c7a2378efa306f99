/** The burst-loss estimator: counters and block masses. */
module GilbertElliott {
  import opened RealSums

  datatype State = Good | Bad

  const DECAY: real := 0.999
  const MIN_SAMPLES: nat := 30
  const MASS_BLOCK_SCALE: nat := 64
  const MASS_SCALES: nat := 8

  function StateOf(received: bool): State { if received then Good else Bad }

  /** The state after a history of symbols. */
  function Current(history: seq<bool>): State {
    if history == [] then Good else StateOf(history[|history| - 1])
  }

  /** Transitions of one kind, each weighted by the decay since it happened. */
  function Decayed(history: seq<bool>, from: State, to: State): real {
    if history == [] then 0.0
    else
      var init := history[..|history| - 1];
      Decayed(init, from, to) * DECAY + (if Current(init) == from && Current(history) == to then 1.0 else 0.0)
  }

  function Departures(history: seq<bool>, from: State): real {
    Decayed(history, from, Good) + Decayed(history, from, Bad)
  }

  /** p is the decayed share of the departures from one state that lead to the other; zero before they weigh one. */
  ghost predicate IsRate(history: seq<bool>, from: State, to: State, p: real) {
    if Departures(history, from) < 1.0 then p == 0.0 else p * Departures(history, from) == Decayed(history, from, to)
  }

  /** All transitions together weigh 1000 (1 - decay^n): strictly less than 1000 for any history. */
  lemma {:induction false} TotalWeight(history: seq<bool>)
    ensures Decayed(history, Good, Good) + Decayed(history, Good, Bad)
      + Decayed(history, Bad, Good) + Decayed(history, Bad, Bad)
         == 1000.0 - 1000.0 * Pow(DECAY, |history|)
    ensures forall a, b :: Decayed(history, a, b) >= 0.0
  {
    if history != [] {
      TotalWeight(history[..|history| - 1]);
    }
  }

  /** Bursts are entered and left alternately, so the two weighted counts never differ by more than one. */
  lemma {:induction false} Alternation(history: seq<bool>)
    ensures var d := Decayed(history, Good, Bad) - Decayed(history, Bad, Good);
      if Current(history) == Bad then 0.0 <= d <= 1.0 else -1.0 <= d <= 0.0
  {
    if history != [] {
      Alternation(history[..|history| - 1]);
    }
  }

  // ---- blocks of losses

  function Losses(symbols: seq<bool>): nat {
    if symbols == [] then 0 else Losses(symbols[..|symbols| - 1]) + (if symbols[|symbols| - 1] then 0 else 1)
  }

  /** The loss counts of consecutive blocks, the incomplete last one left out. */
  ghost predicate BlocksOf(history: seq<bool>, blocks: seq<real>) {
    && |blocks| == |history| / MASS_BLOCK_SCALE
    && forall k :: 0 <= k < |blocks| ==>
      blocks[k] == Losses(history[k * MASS_BLOCK_SCALE..(k + 1) * MASS_BLOCK_SCALE]) as real
  }

  /** The mass of the last m blocks. */
  function LastMass(blocks: seq<real>, m: nat): real
    requires m <= |blocks|
  {
    Total(blocks[|blocks| - m..])
  }

  /** Decayed counts of spans and of spans with losses, and the decayed first and second moments of the latter. */
  datatype Scale = Scale(cnt: real, nz: real, s1: real, s2: real)

  const NO_SPANS := Scale(0.0, 0.0, 0.0, 0.0)

  function Folded(s: Scale, mass: real): Scale {
    if mass > 0.0 then
      Scale(s.cnt * DECAY + 1.0, s.nz * DECAY + 1.0, s.s1 * DECAY + mass, s.s2 * DECAY + mass * mass)
    else Scale(s.cnt * DECAY + 1.0, s.nz * DECAY, s.s1 * DECAY, s.s2 * DECAY)
  }

  /** The moments of all spans of m blocks that a block history contains. */
  function ScaleOf(blocks: seq<real>, m: nat): Scale {
    if |blocks| < m || blocks == [] then NO_SPANS
    else Folded(ScaleOf(blocks[..|blocks| - 1], m), LastMass(blocks, m))
  }

  /** The sum of the values, each decayed once for every later one. */
  function DecayedTotal(xs: seq<real>): real { Total(Aged(xs)) }

  function Aged(xs: seq<real>): (r: seq<real>)
    ensures |r| == |xs| && forall i :: 0 <= i < |r| ==> r[i] == Times(Pow(0.999, |xs| - 1 - i), xs[i])
  {
    seq(|xs|, i requires 0 <= i < |xs| => Times(Pow(0.999, |xs| - 1 - i), xs[i]))
  }

  /** The losses of every span of m consecutive blocks, oldest first. */
  function SpanMasses(blocks: seq<real>, m: nat): (r: seq<real>)
    requires 0 < m
    ensures |blocks| >= m ==> |r| == |blocks| - m + 1 && forall i :: 0 <= i < |r| ==> r[i] == Total(blocks[i..i + m])
    ensures |blocks| < m ==> r == []
  {
    if |blocks| < m then [] else seq(|blocks| - m + 1, i requires 0 <= i <= |blocks| - m => Total(blocks[i..i + m]))
  }

  function Ones(xs: seq<real>): (r: seq<real>)
    ensures |r| == |xs| && forall i :: 0 <= i < |r| ==> r[i] == 1.0
  {
    seq(|xs|, _ => 1.0)
  }

  function Lossy(xs: seq<real>): (r: seq<real>)
    ensures |r| == |xs| && forall i :: 0 <= i < |r| ==> r[i] == if xs[i] > 0.0 then 1.0 else 0.0
  {
    seq(|xs|, i requires 0 <= i < |xs| => if xs[i] > 0.0 then 1.0 else 0.0)
  }

  function Squares(xs: seq<real>): (r: seq<real>)
    ensures |r| == |xs| && forall i :: 0 <= i < |r| ==> r[i] == Times(xs[i], xs[i])
  {
    seq(|xs|, i requires 0 <= i < |xs| => Times(xs[i], xs[i]))
  }

  lemma ListsSnoc(xs: seq<real>, x: real)
    ensures Ones(xs + [x]) == Ones(xs) + [1.0] && Lossy(xs + [x]) == Lossy(xs) + [if x > 0.0 then 1.0 else 0.0]
    ensures Squares(xs + [x]) == Squares(xs) + [Times(x, x)]
  {
    hide Times;
  }

  lemma {:induction false} TotalTimes(s: seq<real>, c: real, t: seq<real>)
    requires |t| == |s| && forall i :: 0 <= i < |s| ==> t[i] == Times(c, s[i])
    ensures Total(t) == Times(c, Total(s))
  {
    hide Times;
    if s == [] {
      NothingTimes(c);
    } else {
      var n := |s| - 1;
      TotalTimes(s[..n], c, t[..n]);
      TimesSum(c, Total(s[..n]), s[n]);
    }
  }

  lemma NothingTimes(c: real)
    ensures Times(c, 0.0) == 0.0 && Times(1.0, c) == c
  {}

  lemma DecayedSnoc(xs: seq<real>, x: real)
    ensures DecayedTotal(xs + [x]) == DecayedTotal(xs) * DECAY + x
  {
    hide Times;
    var more := Aged(xs + [x]);
    forall i | 0 <= i < |xs|
      ensures more[i] == Times(DECAY, Aged(xs)[i])
    {
      assert Pow(0.999, |xs| - i) == Times(Pow(0.999, |xs| - 1 - i), 0.999);
      DecayedOnce(Pow(0.999, |xs| - 1 - i), xs[i]);
    }
    TotalTimes(Aged(xs), DECAY, more[..|xs|]);
    NothingTimes(x);
    TimesMeans(DECAY, DecayedTotal(xs));
  }

  lemma DecayedOnce(p: real, x: real)
    ensures Times(Times(p, 0.999), x) == Times(DECAY, Times(p, x))
  {}

  /** Which symbols of a history followed one outcome with another; the symbol before the first counts as received. */
  function Turns(history: seq<bool>, was: bool, now: bool): (r: seq<real>)
    ensures |r| == |history|
    ensures forall i :: 0 <= i < |r| ==>
      r[i] == if (if i == 0 then true else history[i - 1]) == was && history[i] == now then 1.0 else 0.0
  {
    seq(|history|, i requires 0 <= i < |history| =>
      if (if i == 0 then true else history[i - 1]) == was && history[i] == now then 1.0 else 0.0)
  }

  /** The transition counters are the decayed numbers of outcomes that followed each other so. */
  lemma {:induction false} TransitionsAreDecayedCounts(history: seq<bool>, was: bool, now: bool)
    ensures Decayed(history, if was then Good else Bad, if now then Good else Bad)
      == DecayedTotal(Turns(history, was, now))
  {
    hide DecayedTotal;
    if history == [] {
      NoDecay();
    } else {
      var init, last := history[..|history| - 1], |history| - 1;
      TransitionsAreDecayedCounts(init, was, now);
      DecayedSnoc(Turns(init, was, now), Turns(history, was, now)[last]);
      assert Turns(history, was, now) == Turns(init, was, now) + [Turns(history, was, now)[last]];
    }
  }

  lemma NoDecay()
    ensures DecayedTotal([]) == 0.0
  {}

  lemma TimesMeans(c: real, x: real)
    ensures Times(c, x) == x * c
  {}

  /** One block more is one span more, as soon as there are m. */
  lemma SpansSnoc(blocks: seq<real>, m: nat)
    requires blocks != [] && 0 < m
    ensures SpanMasses(blocks, m)
      == SpanMasses(blocks[..|blocks| - 1], m) + (if |blocks| < m then [] else [LastMass(blocks, m)])
  {
    var init := blocks[..|blocks| - 1];
    if |blocks| >= m {
      var all, before := SpanMasses(blocks, m), SpanMasses(init, m);
      forall i | 0 <= i < |before|
        ensures all[i] == before[i]
      {
        assert init[i..i + m] == blocks[i..i + m];
      }
      assert blocks[|blocks| - m..|blocks|] == blocks[|blocks| - m..];
      assert all == before + [LastMass(blocks, m)];
    }
  }

  /**
   * The recorded moments are decayed sums over the spans: their number, the number of those with losses, and the sums
   * of their losses and of the squares.
   */
  lemma {:induction false} ScaleIsDecayedSums(blocks: seq<real>, m: nat)
    requires 0 < m && forall i :: 0 <= i < |blocks| ==> blocks[i] >= 0.0
    ensures var masses, s := SpanMasses(blocks, m), ScaleOf(blocks, m);
      && s.cnt == DecayedTotal(Ones(masses)) && s.nz == DecayedTotal(Lossy(masses))
      && s.s1 == DecayedTotal(masses) && s.s2 == DecayedTotal(Squares(masses))
  {
    hide SpanMasses, DecayedTotal, Ones, Lossy, Squares, LastMass;
    if |blocks| < m || blocks == [] {
      NoSpans(blocks, m);
    } else {
      var init, x := blocks[..|blocks| - 1], LastMass(blocks, m);
      ScaleIsDecayedSums(init, m);
      SpansSnoc(blocks, m);
      MassIsNonnegative(blocks, m);
      var before := SpanMasses(init, m);
      ListsSnoc(before, x);
      DecayedSnoc(before, x);
      DecayedSnoc(Ones(before), 1.0);
      DecayedSnoc(Lossy(before), if x > 0.0 then 1.0 else 0.0);
      DecayedSnoc(Squares(before), Times(x, x));
    }
  }

  lemma NoSpans(blocks: seq<real>, m: nat)
    requires 0 < m && |blocks| < m
    ensures SpanMasses(blocks, m) == [] == Ones([]) == Lossy([]) == Squares([]) && DecayedTotal([]) == 0.0
  {
    NoTotal();
    assert Aged([]) == [];
  }

  lemma MassIsNonnegative(blocks: seq<real>, m: nat)
    requires m <= |blocks| && forall i :: 0 <= i < |blocks| ==> blocks[i] >= 0.0
    ensures LastMass(blocks, m) >= 0.0
  {
    TotalNonnegative(blocks[|blocks| - m..]);
  }

  /** What makes the reported moments consistent. */
  ghost predicate Consistent(s: Scale) {
    0.0 <= s.nz <= s.cnt && s.s1 >= 0.0 && s.s2 >= 0.0 && s.s1 * s.s1 <= s.nz * s.s2 && (s.nz == 0.0 ==> s.s1 == 0.0)
  }

  lemma FoldConsistent(s: Scale, mass: real)
    requires Consistent(s) && mass >= 0.0
    ensures Consistent(Folded(s, mass))
  {
    var d := DECAY;
    if mass > 0.0 {
      MeanSquare(s.nz, s.s1, s.s2, mass);
      Expanded(d, s.nz, s.s1, s.s2, mass);
      SquareIsNonnegative(mass);
    } else {
      Scaled(d, s.nz, s.s1, s.s2);
    }
  }

  lemma SquareIsNonnegative(x: real)
    ensures x * x >= 0.0
  {}

  /** 2 s1 x <= nz x^2 + s2, from s1^2 <= nz s2. */
  lemma MeanSquare(nz: real, s1: real, s2: real, x: real)
    requires nz >= 0.0 && s2 >= 0.0 && s1 * s1 <= nz * s2 && (nz == 0.0 ==> s1 == 0.0)
    ensures 2.0 * s1 * x <= nz * (x * x) + s2
  {
    if nz > 0.0 {
      var gap := nz * (x * x) + s2 - 2.0 * s1 * x;
      assert nz * gap == (nz * x - s1) * (nz * x - s1) + (nz * s2 - s1 * s1);
      SquareIsNonnegative(nz * x - s1);
      if gap < 0.0 {
        NegativeProduct(nz, gap);
      }
    }
  }

  lemma Expanded(d: real, nz: real, s1: real, s2: real, x: real)
    requires 0.0 <= d && s1 * s1 <= nz * s2 && 2.0 * s1 * x <= nz * (x * x) + s2
    ensures (s1 * d + x) * (s1 * d + x) <= (nz * d + 1.0) * (s2 * d + x * x)
  {
    var gap := nz * (x * x) + s2 - 2.0 * s1 * x;
    var room := nz * s2 - s1 * s1;
    assert (nz * d + 1.0) * (s2 * d + x * x) - (s1 * d + x) * (s1 * d + x) == d * d * room + d * gap;
    NonnegativeProduct(d * d, room);
    NonnegativeProduct(d, gap);
    NonnegativeProduct(d, d);
  }

  lemma Scaled(d: real, nz: real, s1: real, s2: real)
    requires s1 * s1 <= nz * s2
    ensures (s1 * d) * (s1 * d) <= (nz * d) * (s2 * d)
  {
    assert (nz * d) * (s2 * d) - (s1 * d) * (s1 * d) == d * d * (nz * s2 - s1 * s1);
    SquareIsNonnegative(d);
    NonnegativeProduct(d * d, nz * s2 - s1 * s1);
  }

  /** At every scale and for every block history: spans with losses are spans, and the moments obey Cauchy-Schwarz. */
  lemma {:induction false} ScaleIsConsistent(blocks: seq<real>, m: nat)
    requires forall k :: 0 <= k < |blocks| ==> blocks[k] >= 0.0
    ensures Consistent(ScaleOf(blocks, m))
  {
    if |blocks| >= m && blocks != [] {
      ScaleIsConsistent(blocks[..|blocks| - 1], m);
      TotalNonnegative(blocks[|blocks| - m..]);
      FoldConsistent(ScaleOf(blocks[..|blocks| - 1], m), LastMass(blocks, m));
    }
  }

  // ---- the ring of recent blocks

  /** Where block number k goes. */
  function Place(k: nat): (r: nat)
    ensures r < MASS_SCALES
  {
    k % MASS_SCALES
  }

  lemma WrapsAround(k: nat)
    ensures (k + MASS_SCALES) % MASS_SCALES == Place(k)
  {}

  lemma DifferentPlace(k: nat, n: nat)
    requires k < n < k + MASS_SCALES
    ensures Place(k) != Place(n)
  {}

  /** The ring holds the most recent blocks, each in its place. */
  ghost predicate RingHolds(ring: seq<real>, blocks: seq<real>) {
    && |ring| == MASS_SCALES
    && forall k :: 0 <= k < |blocks| && k + MASS_SCALES >= |blocks| ==> ring[Place(k)] == blocks[k]
  }

  lemma RingPush(ring: seq<real>, blocks: seq<real>, mass: real)
    requires RingHolds(ring, blocks)
    ensures RingHolds(ring[Place(|blocks|) := mass], blocks + [mass])
  {
    hide Place;
    var n := |blocks|;
    var after, more := ring[Place(n) := mass], blocks + [mass];
    forall k | 0 <= k < |more| && k + MASS_SCALES >= |more|
      ensures after[Place(k)] == more[k]
    {
      if k < n {
        DifferentPlace(k, n);
      }
    }
  }

  lemma OneBlockMore(blocks: seq<real>, back: nat)
    requires back < |blocks|
    ensures LastMass(blocks, back + 1) == LastMass(blocks, back) + blocks[|blocks| - 1 - back]
  {
    var s := blocks[|blocks| - 1 - back..];
    TotalCons(s);
    assert s[1..] == blocks[|blocks| - back..];
  }

  lemma NoBlocks(blocks: seq<real>)
    ensures LastMass(blocks, 0) == 0.0
  {
    assert blocks[|blocks|..] == [];
  }

  function NonzeroBlocks(blocks: seq<real>): nat {
    if blocks == [] then 0 else NonzeroBlocks(blocks[..|blocks| - 1]) + (if blocks[|blocks| - 1] > 0.0 then 1 else 0)
  }

  // ---- cutting the history into blocks

  lemma LossesSnoc(symbols: seq<bool>, received: bool)
    ensures Losses(symbols + [received]) == Losses(symbols) + (if received then 0 else 1)
  {
    assert (symbols + [received])[..|symbols|] == symbols;
  }

  /** A symbol that does not complete a block leaves the blocks as they are. */
  lemma WithinBlock(history: seq<bool>, blocks: seq<real>, received: bool)
    requires BlocksOf(history, blocks) && |history| % MASS_BLOCK_SCALE + 1 < MASS_BLOCK_SCALE
    ensures BlocksOf(history + [received], blocks)
  {
    forall k | 0 <= k < |blocks|
      ensures (history + [received])[k * MASS_BLOCK_SCALE..(k + 1) * MASS_BLOCK_SCALE]
        == history[k * MASS_BLOCK_SCALE..(k + 1) * MASS_BLOCK_SCALE]
    {}
  }

  /** A symbol that completes a block adds the losses since the last one. */
  lemma CompletesBlock(history: seq<bool>, blocks: seq<real>, received: bool)
    requires BlocksOf(history, blocks) && |history| % MASS_BLOCK_SCALE + 1 == MASS_BLOCK_SCALE
    ensures |blocks| * MASS_BLOCK_SCALE <= |history|
    ensures BlocksOf(history + [received],
        blocks + [Losses((history + [received])[|blocks| * MASS_BLOCK_SCALE..]) as real])
  {
    var more := history + [received];
    var n := |blocks|;
    var after := blocks + [Losses(more[n * MASS_BLOCK_SCALE..]) as real];
    assert more[n * MASS_BLOCK_SCALE..(n + 1) * MASS_BLOCK_SCALE] == more[n * MASS_BLOCK_SCALE..];
    forall k | 0 <= k < n
      ensures more[k * MASS_BLOCK_SCALE..(k + 1) * MASS_BLOCK_SCALE]
        == history[k * MASS_BLOCK_SCALE..(k + 1) * MASS_BLOCK_SCALE]
    {}
  }

  class GilbertElliottEstimator {
    var state: State
    var gToG: real
    var gToB: real
    var bToG: real
    var bToB: real
    var totalTransitions: nat
    var massCurLosses: real
    var massCurCount: nat
    const massRing: array<real>
    var massBlocksTotal: nat
    var massNzTotal: nat
    const scales: array<Scale>
    /** Every symbol recorded, and the masses of the blocks they complete. */
    ghost var history: seq<bool>
    ghost var blocks: seq<real>

    ghost predicate Counters()
      reads this
    {
      && state == Current(history) && totalTransitions == |history|
      && gToG == Decayed(history, Good, Good) && gToB == Decayed(history, Good, Bad)
      && bToG == Decayed(history, Bad, Good) && bToB == Decayed(history, Bad, Bad)
    }

    /** The ring and the moments are those of the completed blocks. */
    ghost predicate Masses()
      reads this`massBlocksTotal, this`massNzTotal, this`blocks, massRing, scales
    {
      && massRing.Length == scales.Length == MASS_SCALES && massBlocksTotal == |blocks|
        && massNzTotal == NonzeroBlocks(blocks)
      && (forall k :: 0 <= k < |blocks| ==> blocks[k] >= 0.0)
      && RingHolds(massRing[..], blocks)
      && forall s :: 0 <= s < MASS_SCALES ==> scales[s] == ScaleOf(blocks, s + 1)
    }

    ghost predicate Valid()
      reads this, massRing, scales
    {
      && Counters() && Masses() && BlocksOf(history, blocks)
      && massCurCount == |history| % MASS_BLOCK_SCALE
      && |blocks| * MASS_BLOCK_SCALE <= |history|
        && massCurLosses == Losses(history[|blocks| * MASS_BLOCK_SCALE..]) as real
    }

    constructor ()
      ensures Valid() && history == [] && fresh(massRing) && fresh(scales)
    {
      state, history, blocks := Good, [], [];
      gToG, gToB, bToG, bToB := 0.0, 0.0, 0.0, 0.0;
      totalTransitions, massCurLosses, massCurCount, massBlocksTotal, massNzTotal := 0, 0.0, 0, 0, 0;
      massRing := new real[MASS_SCALES](_ => 0.0);
      scales := new Scale[MASS_SCALES](_ => NO_SPANS);
    }

    method CountTransition(next: State)
      modifies this`gToG, this`gToB, this`bToG, this`bToB
      ensures gToG == old(gToG) * DECAY + (if state == Good && next == Good then 1.0 else 0.0)
      ensures gToB == old(gToB) * DECAY + (if state == Good && next == Bad then 1.0 else 0.0)
      ensures bToG == old(bToG) * DECAY + (if state == Bad && next == Good then 1.0 else 0.0)
      ensures bToB == old(bToB) * DECAY + (if state == Bad && next == Bad then 1.0 else 0.0)
    {
      gToG := gToG * DECAY;
      gToB := gToB * DECAY;
      bToG := bToG * DECAY;
      bToB := bToB * DECAY;
      match (state, next) {
        case (Good, Good) => gToG := gToG + 1.0;
        case (Good, Bad) => gToB := gToB + 1.0;
        case (Bad, Good) => bToG := bToG + 1.0;
        case (Bad, Bad) => bToB := bToB + 1.0;
      }
    }

    /** Records one symbol; every 64th completes a block. */
    method RecordSymbol(received: bool)
      requires Valid()
      modifies this, massRing, scales
      ensures Valid() && history == old(history) + [received]
    {
      hide Masses, BlocksOf, Losses, Decayed;
      ghost var before := history;
      CountedTransition(before, received);
      var newState := StateOf(received);
      CountTransition(newState);
      state := newState;
      totalTransitions := totalTransitions + 1;
      history := history + [received];
      assert Counters();
      hide Counters, Current, StateOf;
      BinSymbol(before, received);
    }

    /** Bins the newest symbol into the current block, and completes the block with its last. */
    method BinSymbol(ghost before: seq<bool>, received: bool)
      requires Masses() && BlocksOf(before, blocks) && history == before + [received]
      requires massCurCount == |before| % MASS_BLOCK_SCALE
      requires |blocks| * MASS_BLOCK_SCALE <= |before|
        && massCurLosses == Losses(before[|blocks| * MASS_BLOCK_SCALE..]) as real
      modifies this`massCurLosses, this`massCurCount, this`massBlocksTotal, this`massNzTotal, this`blocks, massRing,
          scales
      ensures Masses() && BlocksOf(history, blocks) && massCurCount == |history| % MASS_BLOCK_SCALE
      ensures |blocks| * MASS_BLOCK_SCALE <= |history|
        && massCurLosses == Losses(history[|blocks| * MASS_BLOCK_SCALE..]) as real
    {
      hide Masses, BlocksOf, Losses;
      ghost var tail := before[|blocks| * MASS_BLOCK_SCALE..];
      LossesSnoc(tail, received);
      assert history[|blocks| * MASS_BLOCK_SCALE..] == tail + [received];
      if !received {
        massCurLosses := massCurLosses + 1.0;
      }
      massCurCount := massCurCount + 1;
      if massCurCount >= MASS_BLOCK_SCALE {
        CompletesBlock(before, blocks, received);
        CompleteMassBlock();
        NothingLeft(history, blocks);
      } else {
        WithinBlock(before, blocks, received);
      }
    }

    /** Puts the completed block in the ring and folds the spans that end with it into every scale. */
    method CompleteMassBlock()
      requires Masses() && massCurLosses >= 0.0
      modifies this`massCurLosses, this`massCurCount, this`massBlocksTotal, this`massNzTotal, this`blocks, massRing,
          scales
      ensures Masses() && blocks == old(blocks) + [old(massCurLosses)] && massCurLosses == 0.0 && massCurCount == 0
    {
      hide ScaleOf, RingHolds, LastMass, NonzeroBlocks;
      ghost var earlier := blocks;
      var mass := massCurLosses;
      massCurLosses := 0.0;
      massCurCount := 0;
      PushBlock(mass);
      NonzeroSnoc(earlier, mass);
      if mass > 0.0 {
        massNzTotal := massNzTotal + 1;
      }
      FoldScales(earlier);
    }

    method PushBlock(mass: real)
      requires massRing.Length == MASS_SCALES && massBlocksTotal == |blocks| && RingHolds(massRing[..], blocks)
      modifies this`massBlocksTotal, this`blocks, massRing
      ensures massBlocksTotal == |blocks| && RingHolds(massRing[..], blocks) && blocks == old(blocks) + [mass]
    {
      hide RingHolds;
      RingPush(massRing[..], blocks, mass);
      massRing[massBlocksTotal % MASS_SCALES] := mass;
      assert massRing[..] == old(massRing[..])[Place(massBlocksTotal) := mass];
      massBlocksTotal := massBlocksTotal + 1;
      blocks := blocks + [mass];
    }

    method FoldScales(ghost earlier: seq<real>)
      requires massRing.Length == scales.Length == MASS_SCALES && massBlocksTotal == |blocks| > 0
        && blocks[..|blocks| - 1] == earlier
      requires RingHolds(massRing[..], blocks)
      requires forall s :: 0 <= s < MASS_SCALES ==> scales[s] == ScaleOf(earlier, s + 1)
      modifies scales
      ensures forall s :: 0 <= s < MASS_SCALES ==> scales[s] == ScaleOf(blocks, s + 1)
    {
      hide RingHolds, LastMass, Folded;
      var m := 1;
      while m <= MASS_SCALES && massBlocksTotal >= m
        invariant 1 <= m <= MASS_SCALES + 1
        invariant forall s :: 0 <= s < m - 1 ==> scales[s] == ScaleOf(blocks, s + 1)
        invariant forall s :: m - 1 <= s < MASS_SCALES ==> scales[s] == ScaleOf(earlier, s + 1)
      {
        var j := RingSum(m);
        scales[m - 1] := Folded(scales[m - 1], j);
        m := m + 1;
      }
    }

    /** The sum of the last m completed blocks, read backwards around the ring. */
    method RingSum(m: nat) returns (j: real)
      requires massRing.Length == MASS_SCALES && massBlocksTotal == |blocks| && m <= MASS_SCALES && m <= |blocks|
      requires RingHolds(massRing[..], blocks)
      ensures j == LastMass(blocks, m)
    {
      hide LastMass, Place;
      NoBlocks(blocks);
      j := 0.0;
      for back := 0 to m
        invariant j == LastMass(blocks, back)
      {
        WrapsAround(massBlocksTotal - 1 - back);
        OneBlockMore(blocks, back);
        j := j + massRing[(massBlocksTotal + MASS_SCALES - 1 - back) % MASS_SCALES];
      }
    }

    // ---- what is reported

    /** The four counters weigh exactly 1000 (1 - decay^n), and entered and left bursts balance to within one. */
    lemma CountersBounded()
      requires Valid()
      ensures gToG >= 0.0 && gToB >= 0.0 && bToG >= 0.0 && bToB >= 0.0
      ensures gToG + gToB + bToG + bToB == 1000.0 - 1000.0 * Pow(DECAY, totalTransitions) < 1000.0
      ensures if state == Bad then 0.0 <= gToB - bToG <= 1.0 else -1.0 <= gToB - bToG <= 0.0
    {
      TotalWeight(history);
      Alternation(history);
      PowFraction(DECAY, |history|);
    }

    method ProbGoodToBad() returns (p: real)
      requires Valid()
      ensures 0.0 <= p <= 1.0 && IsRate(history, Good, Bad, p)
    {
      hide Decayed, Masses, BlocksOf, IsRate;
      var total := gToG + gToB;
      RateOf(history, Good, Bad, gToB, total);
      if total < 1.0 {
        return 0.0;
      }
      p := gToB / total;
    }

    method ProbBadToGood() returns (p: real)
      requires Valid()
      ensures 0.0 <= p <= 1.0 && IsRate(history, Bad, Good, p)
    {
      hide Decayed, Masses, BlocksOf, IsRate;
      var total := bToG + bToB;
      RateOf(history, Bad, Good, bToG, total);
      if total < 1.0 {
        return 0.0;
      }
      p := bToG / total;
    }

    /** Departures from the bad state per exit from it, when exits are not vanishingly rare; one otherwise. */
    method MeanBurstLength() returns (l: real)
      requires Valid()
      ensures 1.0 <= l <= 1e10
      ensures var exits, departures := Decayed(history, Bad, Good), Departures(history, Bad);
        if departures >= 1.0 && exits >= 1e-10 * departures then l * exits == departures else l == 1.0
    {
      var p := ProbBadToGood();
      RateAgainst(p, Departures(history, Bad), Decayed(history, Bad, Good));
      if p < 1e-10 {
        return 1.0;
      }
      Reciprocal(p);
      l := 1.0 / p;
      Inverted(p, l, Departures(history, Bad), Decayed(history, Bad, Good));
    }

    /** The rate at which the current state is followed by a loss. */
    method ConditionalLossRate() returns (p: real)
      requires Valid()
      ensures 0.0 <= p <= 1.0 && IsRate(history, Current(history), Bad, p)
    {
      hide Decayed, Masses, BlocksOf, IsRate;
      match state {
        case Good =>
          p := ProbGoodToBad();
        case Bad =>
          var total := bToG + bToB;
          RateOf(history, Bad, Bad, bToB, total);
          if total < 1.0 {
            return 0.0;
          }
          p := bToB / total;
      }
    }

    /**
     * The reported moments of every scale with enough spans: the share of spans with losses needs no clamp, and the
     * mean and mean square of the others are those of a distribution. Nothing is reported before enough lossy blocks.
     */
    method Stats() returns (out: MassStats)
      requires Valid()
      ensures |out.nz| == |out.m1| == |out.m2| == MASS_SCALES
      ensures massNzTotal < MIN_SAMPLES ==> out == NO_STATS
      ensures massNzTotal >= MIN_SAMPLES ==> out.blockScale == MASS_BLOCK_SCALE as real
      ensures forall s :: 0 <= s < MASS_SCALES ==> Sane(out.nz[s], out.m1[s], out.m2[s])
      ensures forall s ::
        0 <= s < MASS_SCALES && massNzTotal >= MIN_SAMPLES && scales[s].cnt >= 1.0 && scales[s].nz > 0.0 ==>
        Averages(scales[s], out.nz[s], out.m1[s], out.m2[s])
      ensures forall s :: 0 <= s < MASS_SCALES && !(scales[s].cnt >= 1.0 && scales[s].nz > 0.0) ==>
        out.nz[s] == out.m1[s] == out.m2[s] == 0.0
    {
      NothingReported();
      hide ScaleOf, Counters, RingHolds, BlocksOf, Sane, Averages, Losses, NonzeroBlocks, Consistent;
      out := NO_STATS;
      if massNzTotal < MIN_SAMPLES {
        return;
      }
      var nz, m1, m2 := out.nz, out.m1, out.m2;
      for s := 0 to MASS_SCALES
        invariant |nz| == |m1| == |m2| == MASS_SCALES
        invariant forall k :: 0 <= k < MASS_SCALES ==> Sane(nz[k], m1[k], m2[k])
        invariant forall k :: 0 <= k < s && scales[k].cnt >= 1.0 && scales[k].nz > 0.0 ==>
          Averages(scales[k], nz[k], m1[k], m2[k])
        invariant forall k :: 0 <= k < MASS_SCALES && !(k < s && scales[k].cnt >= 1.0 && scales[k].nz > 0.0) ==>
          nz[k] == m1[k] == m2[k] == 0.0
      {
        var x := scales[s];
        if x.cnt >= 1.0 && x.nz > 0.0 {
          ScaleIsConsistent(blocks, s + 1);
          Moments(x);
          nz := nz[s := Clamp01(x.nz / x.cnt)];
          m1 := m1[s := x.s1 / x.nz];
          m2 := m2[s := x.s2 / x.nz];
        }
      }
      out := MassStats(MASS_BLOCK_SCALE as real, nz, m1, m2);
    }
  }

  /** A share, a mean and a mean square that belong to some distribution. */
  ghost predicate Sane(nz: real, m1: real, m2: real) {
    0.0 <= nz <= 1.0 && m1 >= 0.0 && m1 * m1 <= m2
  }

  /** Exactly the sums divided by their counts. */
  ghost predicate Averages(x: Scale, nz: real, m1: real, m2: real) {
    nz * x.cnt == x.nz && m1 * x.nz == x.s1 && m2 * x.nz == x.s2
  }

  lemma NothingReported()
    ensures Sane(0.0, 0.0, 0.0)
  {}

  datatype MassStats = MassStats(blockScale: real, nz: seq<real>, m1: seq<real>, m2: seq<real>)

  const NO_STATS := MassStats(0.0, seq(MASS_SCALES, i => 0.0), seq(MASS_SCALES, i => 0.0), seq(MASS_SCALES, i => 0.0))

  function Clamp01(x: real): real { if x < 0.0 then 0.0 else if x > 1.0 then 1.0 else x }

  lemma Fraction(part: real, total: real)
    requires 0.0 <= part <= total && total >= 1.0
    ensures 0.0 <= part / total <= 1.0 && part / total * total == part
  {
    var q := part / total;
    assert q * total == part;
    if q < 0.0 {
      NegativeProduct(total, q);
    } else if q > 1.0 {
      NegativeProduct(total, 1.0 - q);
    }
  }

  lemma RateOf(history: seq<bool>, from: State, to: State, part: real, total: real)
    requires total == Departures(history, from) && part == Decayed(history, from, to)
    ensures total < 1.0 ==> IsRate(history, from, to, 0.0)
    ensures total >= 1.0 ==> 0.0 <= part / total <= 1.0 && IsRate(history, from, to, part / total)
  {
    hide Decayed;
    TotalWeight(history);
    if total >= 1.0 {
      Fraction(part, total);
    }
  }

  lemma RateAgainst(p: real, total: real, part: real)
    requires total >= 1.0 ==> p * total == part
    ensures total >= 1.0 ==> (p >= 1e-10 <==> part >= 1e-10 * total)
  {
    if total >= 1.0 {
      if p >= 1e-10 {
        NonnegativeProduct(p - 1e-10, total);
      } else {
        NegativeProduct(total, p - 1e-10);
      }
    }
  }

  lemma Inverted(p: real, l: real, total: real, part: real)
    requires p * total == part && l * p == 1.0
    ensures l * part == total
  {
    calc {
      l * part;
      l * (p * total);
      (l * p) * total;
      total;
    }
  }

  lemma Reciprocal(p: real)
    requires 1e-10 <= p <= 1.0
    ensures 1.0 <= 1.0 / p <= 1e10 && (1.0 / p) * p == 1.0
  {
    var l := 1.0 / p;
    assert l * p == 1.0;
    if l < 1.0 {
      NegativeProduct(p, l - 1.0);
    } else if l > 1e10 {
      NonnegativeProduct(l - 1e10, p - 1e-10);
      NonnegativeProduct(l, p - 1e-10);
    }
  }

  /**
   * Dividing consistent sums by their counts: the clamp does nothing, and the mean's square is at most the mean
   * square.
   */
  lemma Moments(x: Scale)
    requires Consistent(x) && x.cnt >= 1.0 && x.nz > 0.0
    ensures Clamp01(x.nz / x.cnt) == x.nz / x.cnt
    ensures Sane(x.nz / x.cnt, x.s1 / x.nz, x.s2 / x.nz) && Averages(x, x.nz / x.cnt, x.s1 / x.nz, x.s2 / x.nz)
  {
    var m1, m2, n := x.s1 / x.nz, x.s2 / x.nz, x.nz;
    assert m1 * n == x.s1 && m2 * n == x.s2;
    assert (m1 * n) * (m1 * n) == (m1 * m1) * (n * n);
    assert n * (m2 * n) == m2 * (n * n);
    NonnegativeProduct(n, n);
    if m1 * m1 > m2 {
      assert n * n > 0.0;
      NegativeProduct(n * n, m2 - m1 * m1);
    }
  }

  lemma NonzeroSnoc(blocks: seq<real>, mass: real)
    ensures NonzeroBlocks(blocks + [mass]) == NonzeroBlocks(blocks) + (if mass > 0.0 then 1 else 0)
    ensures (blocks + [mass])[..|blocks|] == blocks
  {
    assert (blocks + [mass])[..|blocks|] == blocks;
  }

  lemma CountedTransition(history: seq<bool>, received: bool)
    ensures Current(history + [received]) == StateOf(received)
    ensures forall a, b ::
      Decayed(history + [received], a, b)
        == Decayed(history, a, b) * DECAY + (if Current(history) == a && StateOf(received) == b then 1.0 else 0.0)
  {
    assert (history + [received])[..|history|] == history;
  }

  lemma NothingLeft(history: seq<bool>, blocks: seq<real>)
    requires BlocksOf(history, blocks) && |history| % MASS_BLOCK_SCALE == 0
    ensures |blocks| * MASS_BLOCK_SCALE == |history| && history[|blocks| * MASS_BLOCK_SCALE..] == [] && Losses([]) == 0
  {
    assert |blocks| * MASS_BLOCK_SCALE == |history|;
  }
}
