/**
 * The coefficients of a repair: a 64-bit generator whose zero bytes are drawn again. The redraw ends from every state,
 * so every window has its nonzero coefficients.
 */
module CoefficientStream {
  import opened Gf256
  import opened Wire

  const GAMMA: bv64 := 0x9E3779B97F4A7C15

  /** The inverse of GAMMA modulo 2^64. */
  const GAMMA_INV: bv64 := 0xF1DE83E19937733D

  /** A state whose mixed low byte is nonzero. */
  const TARGET: bv64 := 1

  function Times1(z: bv64): bv64 { z * 0xBF58476D1CE4E5B9 }
  function Times2(z: bv64): bv64 { z * 0x94D049BB133111EB }
  function Fold30(z: bv64): bv64 { z ^ (z >> 30) }
  function Fold27(z: bv64): bv64 { z ^ (z >> 27) }
  function Fold31(z: bv64): bv64 { z ^ (z >> 31) }

  function Mix(state: bv64): bv64 {
    Fold31(Times2(Fold27(Times1(Fold30(state)))))
  }

  function LowByte(z: bv64): byte { (z & 0xFF) as byte }

  function Next(state: bv64): bv64 { state + GAMMA }

  /** How many increments lead from state to TARGET. */
  function Distance(state: bv64): bv64 { (TARGET - state) * GAMMA_INV }

  lemma OneIncrement(state: bv64)
    ensures Distance(Next(state)) == Distance(state) - 1
    ensures state != TARGET ==> Distance(state) != 0
  {
    assert GAMMA * GAMMA_INV == 1;
  }

  lemma PredecessorIsLess(x: bv64)
    requires x != 0
    ensures x - 1 < x
  {}

  lemma TargetIsNonzero()
    ensures LowByte(Mix(TARGET)) != 0
  {}

  /** While the byte drawn at a state is zero, the next state is strictly closer to TARGET. */
  lemma ZeroByteGetsCloser(state: bv64)
    requires LowByte(Mix(state)) == 0
    ensures Distance(Next(state)) < Distance(state)
  {
    hide Mix, LowByte, Next, Distance;
    TargetIsNonzero();
    OneIncrement(state);
    PredecessorIsLess(Distance(state));
  }

  /** How many zero bytes are drawn before the first nonzero one. */
  function ZeroDraws(state: bv64): nat
    decreases Distance(Next(state))
  {
    hide Mix, LowByte, Next, Distance;
    var s := Next(state);
    if LowByte(Mix(s)) != 0 then 0
    else
      ZeroByteGetsCloser(s);
      1 + ZeroDraws(s)
  }

  /** The first state after this one whose byte is nonzero. */
  function AfterNonzero(state: bv64): (s: bv64)
    ensures LowByte(Mix(s)) != 0
    decreases ZeroDraws(state)
  {
    hide Mix, LowByte, Next;
    var s := Next(state);
    if LowByte(Mix(s)) != 0 then s else AfterNonzero(s)
  }

  /** The states after 1, 2, ..., n draws of a nonzero byte. */
  function Draws(state: bv64, n: nat): (r: seq<byte>)
    ensures |r| == n
    decreases n
  {
    hide Mix, LowByte, AfterNonzero;
    if n == 0 then [] else
      var s := AfterNonzero(state);
      [LowByte(Mix(s))] + Draws(s, n - 1)
  }

  lemma {:induction false} DrawsNonzero(state: bv64, n: nat)
    ensures forall i :: 0 <= i < n ==> Draws(state, n)[i] != 0
    decreases n
  {
    hide Mix, LowByte, AfterNonzero;
    if n > 0 {
      DrawsNonzero(AfterNonzero(state), n - 1);
    }
  }

  class SplitMix64 {
    var state: bv64

    constructor (seed: bv64)
      ensures state == seed
    {
      state := seed;
    }

    method NextU64() returns (z: bv64)
      modifies this
      ensures state == Next(old(state)) && z == Mix(state)
    {
      hide Times1, Times2, Fold30, Fold27, Fold31;
      state := state + 0x9E3779B97F4A7C15;
      z := state;
      z := Times1(Fold30(z));
      z := Times2(Fold27(z));
      z := Fold31(z);
    }

    method NextNonzeroU8() returns (v: byte)
      modifies this
      ensures state == AfterNonzero(old(state)) && v == LowByte(Mix(state)) && v != 0
    {
      hide Mix, LowByte, Next;
      while true
        invariant AfterNonzero(state) == AfterNonzero(old(state))
        decreases ZeroDraws(state)
      {
        var z := NextU64();
        v := LowByte(z);
        if v != 0 {
          return;
        }
      }
    }
  }

  /** The low 64 bits of a number. */
  function Word(n: nat): bv64 { WordOf(ToLe(n, 8)) }

  /** Eight bytes, the lowest first, as one word. */
  function WordOf(b: seq<byte>): bv64
    requires |b| == 8
  {
    Joined(b[0], b[1], b[2], b[3], b[4], b[5], b[6], b[7])
  }

  function Joined(b0: byte, b1: byte, b2: byte, b3: byte, b4: byte, b5: byte, b6: byte, b7: byte): bv64 {
    (b0 as bv64) | ((b1 as bv64) << 8) | ((b2 as bv64) << 16) | ((b3 as bv64) << 24)
      | ((b4 as bv64) << 32) | ((b5 as bv64) << 40) | ((b6 as bv64) << 48) | ((b7 as bv64) << 56)
  }

  /** The window's start, its 16-bit width in the top bits, and the 32-bit index, wrapped to 64 bits. */
  function Seed(start: nat, count: nat, index: nat): bv64 {
    SeedOf(Word(start), Word(count % 0x1_0000), Word(index % 0x1_0000_0000))
  }

  function SeedOf(start: bv64, count: bv64, index: bv64): bv64 { start * 65537 + (count << 48) + index }

  // ---- what the seed and the mixing tell apart

  function Unfold30(y: bv64): bv64 { y ^ (y >> 30) ^ (y >> 60) }
  function Unfold27(y: bv64): bv64 { y ^ (y >> 27) ^ (y >> 54) }
  function Unfold31(y: bv64): bv64 { y ^ (y >> 31) ^ (y >> 62) }

  /** Multiplication by the inverses of the two multipliers modulo 2^64. */
  function Divide1(y: bv64): bv64 { y * 0x96DE1B173F119089 }
  function Divide2(y: bv64): bv64 { y * 0x319642B2D24D8EC3 }

  lemma Undoing(z: bv64)
    ensures Unfold30(z ^ (z >> 30)) == z && Unfold27(z ^ (z >> 27)) == z && Unfold31(z ^ (z >> 31)) == z
    ensures Divide1(z * 0xBF58476D1CE4E5B9) == z && Divide2(z * 0x94D049BB133111EB) == z
  {}

  lemma Undone(z: bv64)
    ensures Unfold30(Fold30(z)) == z && Unfold27(Fold27(z)) == z && Unfold31(Fold31(z)) == z
    ensures Divide1(Times1(z)) == z && Divide2(Times2(z)) == z
  {
    hide Unfold30, Unfold27, Unfold31, Divide1, Divide2;
    Undoing(z);
  }

  /** The mixing run backwards. */
  function Unmix(z: bv64): bv64 { Unfold30(Divide1(Unfold27(Divide2(Unfold31(z))))) }

  /** Mixing loses nothing: every output comes from one state only. */
  lemma MixUndone(state: bv64)
    ensures Unmix(Mix(state)) == state
  {
    hide Times1, Times2, Fold30, Fold27, Fold31, Unfold30, Unfold27, Unfold31, Divide1, Divide2;
    var a := Fold30(state);
    var b := Times1(a);
    var c := Fold27(b);
    var d := Times2(c);
    Undone(state);
    Undone(a);
    Undone(b);
    Undone(c);
    Undone(d);
  }

  lemma StatesDiffer(s: bv64, t: bv64)
    requires s != t
    ensures Mix(Next(s)) != Mix(Next(t))
  {
    hide Mix, Unmix;
    MixUndone(Next(s));
    MixUndone(Next(t));
  }

  function IndexOf(seed: bv64, start: bv64, count: bv64): bv64 { seed - start * 65537 - (count << 48) }

  function StartOf(seed: bv64, count: bv64, index: bv64): bv64 { (seed - (count << 48) - index) * 0xFFFF0000FFFF0001 }

  lemma SeedParts(start: bv64, count: bv64, index: bv64)
    ensures IndexOf(start * 65537 + (count << 48) + index, start, count) == index
    ensures StartOf(start * 65537 + (count << 48) + index, count, index) == start
  {}

  /** The seed gives back its index, and its start, when the rest is known. */
  lemma SeedTells(start: bv64, count: bv64, index: bv64)
    ensures IndexOf(SeedOf(start, count, index), start, count) == index
    ensures StartOf(SeedOf(start, count, index), count, index) == start
  {
    hide IndexOf, StartOf;
    SeedParts(start, count, index);
  }

  function Part0(w: bv64): byte { (w & 0xFF) as byte }
  function Part1(w: bv64): byte { ((w >> 8) & 0xFF) as byte }
  function Part2(w: bv64): byte { ((w >> 16) & 0xFF) as byte }
  function Part3(w: bv64): byte { ((w >> 24) & 0xFF) as byte }
  function Part4(w: bv64): byte { ((w >> 32) & 0xFF) as byte }
  function Part5(w: bv64): byte { ((w >> 40) & 0xFF) as byte }
  function Part6(w: bv64): byte { ((w >> 48) & 0xFF) as byte }
  function Part7(w: bv64): byte { ((w >> 56) & 0xFF) as byte }

  lemma Parts(b0: byte, b1: byte, b2: byte, b3: byte, b4: byte, b5: byte, b6: byte, b7: byte)
    ensures var w := Joined(b0, b1, b2, b3, b4, b5, b6, b7);
      && Part0(w) == b0 && Part1(w) == b1 && Part2(w) == b2 && Part3(w) == b3
      && Part4(w) == b4 && Part5(w) == b5 && Part6(w) == b6 && Part7(w) == b7
  {}

  lemma WordOfTells(a: seq<byte>, b: seq<byte>)
    requires |a| == |b| == 8 && WordOf(a) == WordOf(b)
    ensures a == b
  {
    hide Joined, Part0, Part1, Part2, Part3, Part4, Part5, Part6, Part7;
    Parts(a[0], a[1], a[2], a[3], a[4], a[5], a[6], a[7]);
    Parts(b[0], b[1], b[2], b[3], b[4], b[5], b[6], b[7]);
    assert a == [a[0], a[1], a[2], a[3], a[4], a[5], a[6], a[7]];
    assert b == [b[0], b[1], b[2], b[3], b[4], b[5], b[6], b[7]];
  }

  /** Numbers below 2^64 are told apart by their words. */
  lemma WordTells(m: nat, n: nat)
    requires m < 0x1_0000_0000_0000_0000 && n < 0x1_0000_0000_0000_0000 && m != n
    ensures Word(m) != Word(n)
  {
    hide WordOf, ToLe, FromLe;
    Bounds();
    LeRoundTrip(m, 8);
    LeRoundTrip(n, 8);
    if Word(m) == Word(n) {
      WordOfTells(ToLe(m, 8), ToLe(n, 8));
      assert false;
    }
  }

  /** For one window, different repair indices start different streams. */
  lemma IndicesDiffer(start: nat, count: nat, i: nat, j: nat)
    requires i < 0x1_0000_0000 && j < 0x1_0000_0000 && i != j
    ensures Seed(start, count, i) != Seed(start, count, j)
    ensures Mix(Next(Seed(start, count, i))) != Mix(Next(Seed(start, count, j)))
  {
    hide Mix, Next, Word, SeedOf;
    WordTells(i, j);
    hide IndexOf, StartOf;
    SeedTells(Word(start), Word(count % 0x1_0000), Word(i));
    SeedTells(Word(start), Word(count % 0x1_0000), Word(j));
    StatesDiffer(Seed(start, count, i), Seed(start, count, j));
  }

  /** Windows that start at different numbers start different streams. */
  lemma StartsDiffer(a: nat, b: nat, count: nat, index: nat)
    requires a < 0x1_0000_0000_0000_0000 && b < 0x1_0000_0000_0000_0000 && a != b
    ensures Seed(a, count, index) != Seed(b, count, index)
    ensures Mix(Next(Seed(a, count, index))) != Mix(Next(Seed(b, count, index)))
  {
    hide Mix, Next, Word, SeedOf;
    WordTells(a, b);
    hide IndexOf, StartOf;
    SeedTells(Word(a), Word(count % 0x1_0000), Word(index % 0x1_0000_0000));
    SeedTells(Word(b), Word(count % 0x1_0000), Word(index % 0x1_0000_0000));
    StatesDiffer(Seed(a, count, index), Seed(b, count, index));
  }

  /** The word of a number given by its bytes. */
  lemma WordFromBytes(b: seq<byte>)
    requires |b| == 8
    ensures Word(FromLe(b)) == WordOf(b)
  {
    hide WordOf;
    LeBytesRoundTrip(b);
  }

  function WindowCoefficients(start: nat, count: nat, index: nat): (r: seq<byte>)
    ensures |r| == count && forall i :: 0 <= i < count ==> r[i] != 0
  {
    DrawsNonzero(Seed(start, count, index), count);
    Draws(Seed(start, count, index), count)
  }

  method GenerateWindowCoefficients(start: nat, count: nat, index: nat) returns (r: seq<byte>)
    ensures r == WindowCoefficients(start, count, index)
  {
    hide Mix, LowByte, Seed, Next, AfterNonzero;
    var rng := new SplitMix64(Seed(start, count, index));
    r := [];
    for i := 0 to count
      invariant r + Draws(rng.state, count - i) == WindowCoefficients(start, count, index)
    {
      var v := rng.NextNonzeroU8();
      r := r + [v];
    }
  }

  // ---- known answers

  lemma {:induction false} ZerosAreZero(b: seq<byte>)
    requires forall i :: 0 <= i < |b| ==> b[i] == 0
    ensures FromLe(b) == 0
  {
    if b != [] {
      ToIntZero();
      ZerosAreZero(b[1..]);
    }
  }

  lemma SmallWord(b: byte)
    ensures Word(ToInt(b)) == Joined(b, 0, 0, 0, 0, 0, 0, 0)
  {
    hide ToInt, Joined, Word;
    var s := [b, 0, 0, 0, 0, 0, 0, 0];
    ZerosAreZero(s[1..]);
    WordFromBytes(s);
  }

  lemma SmallWords()
    ensures Word(0) == 0 && Word(1) == 1 && Word(2) == 2 && Word(3) == 3 && Word(179) == 179
  {
    assert ToInt(0) == 0 && ToInt(1) == 1 && ToInt(2) == 2 && ToInt(3) == 3 && ToInt(179) == 179;
    hide ToInt, Word;
    SmallWord(0);
    SmallWord(1);
    SmallWord(2);
    SmallWord(3);
    SmallWord(179);
  }

  lemma KnownSeeds()
    ensures Seed(0, 2, 0) == 0x0002_0000_0000_0000 && Seed(0, 2, 1) == 0x0002_0000_0000_0001
    ensures Seed(179, 3, 3) == 0x0003_0000_00B3_00B6
  {
    hide Word;
    SmallWords();
  }

  /** A state whose byte is zero is passed over, one whose byte is not is drawn. */
  lemma DrawnOrPassed(state: bv64, s: bv64)
    requires Next(state) == s
    ensures AfterNonzero(state) == if LowByte(Mix(s)) != 0 then s else AfterNonzero(s)
  {
    hide Mix, LowByte, Next;
  }

  lemma DrawsStep(state: bv64, n: nat)
    ensures n > 0 ==> Draws(state, n) == [LowByte(Mix(AfterNonzero(state)))] + Draws(AfterNonzero(state), n - 1)
    ensures Draws(state, 0) == []
  {
    hide Mix, LowByte, AfterNonzero;
  }

  /** Two draws from states with nonzero bytes. */
  lemma TwoDraws(s0: bv64, s1: bv64, s2: bv64)
    requires Next(s0) == s1 && Next(s1) == s2 && LowByte(Mix(s1)) != 0 && LowByte(Mix(s2)) != 0
    ensures Draws(s0, 2) == [LowByte(Mix(s1)), LowByte(Mix(s2))]
  {
    hide Mix, LowByte, Next, AfterNonzero, Draws;
    DrawnOrPassed(s0, s1);
    DrawnOrPassed(s1, s2);
    DrawsStep(s0, 2);
    DrawsStep(s1, 1);
    DrawsStep(s2, 0);
  }

  lemma KnownBytes()
    ensures LowByte(Mix(0x9E3979B97F4A7C15)) == 193 && LowByte(Mix(0x3C70F372FE94F82A)) == 174
    ensures LowByte(Mix(0x9E3979B97F4A7C16)) == 149 && LowByte(Mix(0x3C70F372FE94F82B)) == 253
    ensures LowByte(Mix(0x9E3A79B97FFD7CCB)) == 0 && LowByte(Mix(0x3C71F372FF47F8E0)) == 29
    ensures LowByte(Mix(0xDAA96D2C7E9274F5)) == 243 && LowByte(Mix(0x78E0E6E5FDDCF10A)) == 94
  {}

  lemma KnownStates()
    ensures Next(0x0002_0000_0000_0000) == 0x9E3979B97F4A7C15 && Next(0x9E3979B97F4A7C15) == 0x3C70F372FE94F82A
    ensures Next(0x0002_0000_0000_0001) == 0x9E3979B97F4A7C16 && Next(0x9E3979B97F4A7C16) == 0x3C70F372FE94F82B
    ensures Next(0x0003_0000_00B3_00B6) == 0x9E3A79B97FFD7CCB && Next(0x9E3A79B97FFD7CCB) == 0x3C71F372FF47F8E0
    ensures Next(0x3C71F372FF47F8E0) == 0xDAA96D2C7E9274F5 && Next(0xDAA96D2C7E9274F5) == 0x78E0E6E5FDDCF10A
  {}

  /** Two indices of one window, and a window whose first draw is zero and is made again. */
  lemma KnownAnswers()
    ensures WindowCoefficients(0, 2, 0) == [193, 174]
    ensures WindowCoefficients(0, 2, 1) == [149, 253]
    ensures WindowCoefficients(179, 3, 3) == [29, 243, 94]
  {
    hide Mix, LowByte, Next, Seed, Draws, AfterNonzero;
    KnownSeeds();
    KnownBytes();
    KnownStates();
    TwoDraws(0x0002_0000_0000_0000, 0x9E3979B97F4A7C15, 0x3C70F372FE94F82A);
    TwoDraws(0x0002_0000_0000_0001, 0x9E3979B97F4A7C16, 0x3C70F372FE94F82B);
    DrawnOrPassed(0x0003_0000_00B3_00B6, 0x9E3A79B97FFD7CCB);
    DrawnOrPassed(0x9E3A79B97FFD7CCB, 0x3C71F372FF47F8E0);
    DrawsStep(0x0003_0000_00B3_00B6, 3);
    TwoDraws(0x3C71F372FF47F8E0, 0xDAA96D2C7E9274F5, 0x78E0E6E5FDDCF10A);
  }
}
