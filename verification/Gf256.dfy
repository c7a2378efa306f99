/**
 * The field of 256 elements with polynomial 0x11D: powers of the generator, logarithms, products and inverses.
 * Addition is exclusive or.
 */
module Gf256 {
  import opened Basics

  type byte = bv8

  function Add(a: byte, b: byte): byte { a ^ b }

  function XTime(a: byte): byte {
    var r := a >> 7;
    (a << 1) ^ r ^ (r << 2) ^ (r << 3) ^ (r << 4)
  }

  function Exp(i: nat): (r: byte)
  { if i == 0 then 1 else XTime(Exp(i - 1)) }

  function LogFrom(x: byte, i: nat): nat
    decreases 255 - i
  {
    if i >= 255 then 0 else if Exp(i) == x then i else LogFrom(x, i + 1)
  }

  function Log(x: byte): nat { LogFrom(x, 0) }

  function Mul(a: byte, b: byte): byte {
    if a == 0 || b == 0 then 0 else Exp((Log(a) + Log(b)) % 255)
  }

  function PolyMul(a: byte, b: byte): byte
    decreases b
  {
    if b == 0 then 0 else Add(if b & 1 == 1 then a else 0, XTime(PolyMul(a, b >> 1)))
  }

  // ---- powers of the generator

  function Oct(a: byte): byte { XTime(XTime(XTime(XTime(XTime(XTime(XTime(XTime(a)))))))) }

  const STEP8: seq<byte> := [
    0x01, 0x1D, 0x4C, 0x8F, 0x9D, 0x6A, 0x46, 0x5D, 0x5F, 0x65, 0xFD,
    0xFE, 0xD9, 0x0D, 0x81, 0x3B, 0x85, 0x4F, 0xA8, 0x49, 0xE6, 0xFC,
    0xE3, 0x95, 0x82, 0x1C, 0x51, 0xC3, 0x12, 0xF7, 0x2C, 0x1B, 0x02]

  lemma OctExp(i: nat)
    ensures Exp(i + 8) == Oct(Exp(i))
  {
    assert Exp(i + 2) == XTime(XTime(Exp(i)));
    assert Exp(i + 4) == XTime(XTime(Exp(i + 2)));
    assert Exp(i + 6) == XTime(XTime(Exp(i + 4)));
  }

  lemma OctTable0()
    ensures forall m :: 0 <= m < 8 ==> Oct(STEP8[m]) == STEP8[m + 1]
  {
    assert Oct(0x01) == 0x1D;
    assert Oct(0x1D) == 0x4C;
    assert Oct(0x4C) == 0x8F;
    assert Oct(0x8F) == 0x9D;
    assert Oct(0x9D) == 0x6A;
    assert Oct(0x6A) == 0x46;
    assert Oct(0x46) == 0x5D;
    assert Oct(0x5D) == 0x5F;
  }

  lemma OctTable1()
    ensures forall m :: 8 <= m < 16 ==> Oct(STEP8[m]) == STEP8[m + 1]
  {
    assert Oct(0x5F) == 0x65;
    assert Oct(0x65) == 0xFD;
    assert Oct(0xFD) == 0xFE;
    assert Oct(0xFE) == 0xD9;
    assert Oct(0xD9) == 0x0D;
    assert Oct(0x0D) == 0x81;
    assert Oct(0x81) == 0x3B;
    assert Oct(0x3B) == 0x85;
  }

  lemma OctTable2()
    ensures forall m :: 16 <= m < 24 ==> Oct(STEP8[m]) == STEP8[m + 1]
  {
    assert Oct(0x85) == 0x4F;
    assert Oct(0x4F) == 0xA8;
    assert Oct(0xA8) == 0x49;
    assert Oct(0x49) == 0xE6;
    assert Oct(0xE6) == 0xFC;
    assert Oct(0xFC) == 0xE3;
    assert Oct(0xE3) == 0x95;
    assert Oct(0x95) == 0x82;
  }

  lemma OctTable3()
    ensures forall m :: 24 <= m < 32 ==> Oct(STEP8[m]) == STEP8[m + 1]
  {
    assert Oct(0x82) == 0x1C;
    assert Oct(0x1C) == 0x51;
    assert Oct(0x51) == 0xC3;
    assert Oct(0xC3) == 0x12;
    assert Oct(0x12) == 0xF7;
    assert Oct(0xF7) == 0x2C;
    assert Oct(0x2C) == 0x1B;
    assert Oct(0x1B) == 0x02;
  }

  lemma {:induction false} ExpTable(m: nat)
    requires m <= 32
    ensures Exp(8 * m) == STEP8[m]
  {
    if m > 0 {
      ExpTable(m - 1);
      OctTable0(); OctTable1(); OctTable2(); OctTable3();
      OctExp(8 * (m - 1));
    }
  }

  lemma XTimeAdd(a: byte, b: byte)
    ensures XTime(Add(a, b)) == Add(XTime(a), XTime(b))
  {}

  lemma XTimeInjective(a: byte)
    ensures a != 0 ==> XTime(a) != 0
  {}

  lemma ShiftAdd(a: byte, b: byte)
    ensures Add(a, b) >> 1 == Add(a >> 1, b >> 1)
    ensures Add(a, b) & 1 == Add(a & 1, b & 1)
    ensures a & 1 == 0 || a & 1 == 1
  {}

  lemma {:induction false} PolyMulXTime(a: byte, b: byte)
    ensures PolyMul(XTime(a), b) == XTime(PolyMul(a, b))
    decreases b
  {
    if b != 0 {
      PolyMulXTime(a, b >> 1);
      XTimeAdd(if b & 1 == 1 then a else 0, XTime(PolyMul(a, b >> 1)));
    }
  }

  lemma XTimeCancel(a: byte, b: byte)
    requires XTime(a) == XTime(b)
    ensures a == b
  {
    XTimeAdd(a, b);
    XTimeInjective(Add(a, b));
  }

  lemma {:induction false} ExpNonzero(i: nat)
    ensures Exp(i) != 0
  {
    if i > 0 {
      ExpNonzero(i - 1);
      XTimeInjective(Exp(i - 1));
    }
  }

  lemma {:induction false} ExpCancel(i: nat, d: nat)
    requires Exp(i + d) == Exp(i)
    ensures Exp(d) == 1
  {
    if i > 0 {
      XTimeCancel(Exp(i - 1 + d), Exp(i - 1));
      ExpCancel(i - 1, d);
    }
  }

  lemma {:induction false} ExpShift(d: nat, k: nat)
    requires Exp(d) == 1
    ensures Exp(d + k) == Exp(k)
  {
    if k > 0 {
      ExpShift(d, k - 1);
    }
  }

  const DOUBLINGS: seq<byte> := [0x01, 0x02, 0x04, 0x08, 0x10, 0x20, 0x40, 0x80, 0x1D]

  lemma {:induction false} ExpDoublings(k: nat)
    requires k <= 8
    ensures Exp(k) == DOUBLINGS[k]
  {
    if k > 0 {
      ExpDoublings(k - 1);
    }
  }

  lemma TableIsSparse(m: nat)
    requires 1 < m < 32
    ensures STEP8[m] !in DOUBLINGS
  {}

  /** At most eight doublings lead from Exp(d) to the next tabulated power, which rules out Exp(d) == 1. */
  lemma ExpOrder(d: nat)
    requires 0 < d < 255
    ensures Exp(d) != 1
  {
    var m := d / 8 + 1;
    var k := 8 * m - d;
    if Exp(d) == 1 {
      ExpTable(m);
      ExpShift(d, k);
      ExpDoublings(k);
      assert STEP8[m] == DOUBLINGS[k];
      if m == 1 {
        assert false;
      } else if m < 32 {
        TableIsSparse(m);
        assert false;
      } else {
        assert false;
      }
    }
  }

  lemma ExpFull()
    ensures Exp(255) == 1
  {
    ExpTable(32);
    assert XTime(Exp(255)) == XTime(1);
    XTimeCancel(Exp(255), 1);
  }

  lemma {:induction false} PolyMulOne(b: byte)
    ensures PolyMul(1, b) == b
    decreases b
  {
    if b != 0 {
      PolyMulOne(b >> 1);
      LowBit(b);
    }
  }

  lemma LowBit(b: byte)
    ensures Add(if b & 1 == 1 then 1 else 0, XTime(b >> 1)) == b
  {}

  lemma {:induction false} ExpAdd(i: nat, j: nat)
    ensures PolyMul(Exp(i), Exp(j)) == Exp(i + j)
  {
    if i == 0 {
      PolyMulOne(Exp(j));
    } else {
      ExpAdd(i - 1, j);
      PolyMulXTime(Exp(i - 1), Exp(j));
    }
  }

  lemma {:induction false} ExpPeriod(n: nat)
    ensures Exp(n) == Exp(n % 255)
  {
    if n >= 255 {
      ExpPeriod(n - 255);
      ExpAdd(255, n - 255);
      ExpFull();
      PolyMulOne(Exp(n - 255));
    }
  }

  // ---- discrete logarithms

  lemma ExpInjective(i: nat, j: nat)
    requires i < j < 255
    ensures Exp(i) != Exp(j)
  {
    if Exp(i) == Exp(j) {
      ExpCancel(i, j - i);
      ExpOrder(j - i);
      assert false;
    }
  }

  /** Pigeonhole: n distinct values below n are all the values below n. */
  lemma {:induction false} DistinctCovers(s: seq<int>, rest: set<int>, n: nat)
    requires |s| + |rest| == n
    requires forall v :: v in rest ==> 0 <= v < n
    requires forall i :: 0 <= i < |s| ==> 0 <= s[i] < n && s[i] !in rest
    requires forall i, j :: 0 <= i < j < |s| ==> s[i] != s[j]
    ensures forall v :: 0 <= v < n ==> v in s || v in rest
    decreases |s|
  {
    if s != [] {
      var t := s[..|s| - 1];
      DistinctCovers(t, rest + {s[|s| - 1]}, n);
      assert s == t + [s[|s| - 1]];
    } else {
      FullSet(rest, n);
    }
  }

  function ToInt(x: byte): int { x as int }

  lemma Successor(b: byte)
    requires ToInt(b) < 255
    ensures ToInt(b + 1) == ToInt(b) + 1
  {}

  /** The byte with a given value. */
  function ByteOf(n: nat): (r: byte)
    requires n < 256
    ensures ToInt(r) == n
  {
    hide ToInt;
    if n == 0 then ToIntZero(); 0 else Successor(ByteOf(n - 1)); ByteOf(n - 1) + 1
  }

  lemma ToIntZero()
    ensures ToInt(0) == 0
  {}

  lemma ToIntIsInjective(x: byte, y: byte)
    ensures 0 <= ToInt(x) < 256 && (ToInt(x) == ToInt(y) ==> x == y) && (x != 0 ==> ToInt(x) > 0)
  {}

  /** Every nonzero byte is a power of the generator. */
  lemma ExpCovers(x: byte) returns (i: nat)
    requires x != 0
    ensures i < 255 && Exp(i) == x
  {
    hide Exp;
    hide ToInt;
    var s := seq(255, k requires 0 <= k < 255 => ToInt(Exp(k)) - 1);
    forall k | 0 <= k < 255
      ensures 0 <= s[k] < 255
    {
      ExpNonzero(k);
      ToIntIsInjective(Exp(k), 0);
    }
    forall k, j | 0 <= k < j < 255
      ensures s[k] != s[j]
    {
      ExpInjective(k, j);
      ToIntIsInjective(Exp(k), Exp(j));
    }
    DistinctCovers(s, {}, 255);
    ToIntIsInjective(x, 0);
    assert ToInt(x) - 1 in s;
    i :| 0 <= i < 255 && s[i] == ToInt(x) - 1;
    ToIntIsInjective(Exp(i), x);
  }

  lemma {:induction false} LogFromFinds(x: byte, i: nat, j: nat)
    requires i <= j < 255 && Exp(j) == x
    ensures LogFrom(x, i) == j
    decreases j - i
  {
    if i < j {
      ExpInjective(i, j);
      LogFromFinds(x, i + 1, j);
    }
  }

  lemma LogOfExp(i: nat)
    requires i < 255
    ensures Log(Exp(i)) == i
  {
    LogFromFinds(Exp(i), 0, i);
  }

  lemma ExpOfLog(x: byte)
    requires x != 0
    ensures Log(x) < 255 && Exp(Log(x)) == x
  {
    var i := ExpCovers(x);
    LogOfExp(i);
  }

  // ---- field laws

  lemma {:induction false} PolyMulZero(b: byte)
    ensures PolyMul(0, b) == 0
    decreases b
  {
    if b != 0 {
      PolyMulZero(b >> 1);
    }
  }

  lemma PolyMulByZero(a: byte)
    ensures PolyMul(a, 0) == 0
  {}

  /** The table multiplication is the polynomial product modulo 0x11D. */
  lemma MulIsPolyMul(a: byte, b: byte)
    ensures Mul(a, b) == PolyMul(a, b)
  {
    hide Exp, Log, PolyMul;
    if a == 0 {
      PolyMulZero(b);
    } else if b == 0 {
      PolyMulByZero(a);
    } else {
      ExpOfLog(a);
      ExpOfLog(b);
      ExpAdd(Log(a), Log(b));
      ExpPeriod(Log(a) + Log(b));
    }
  }

  lemma {:induction false} PolyMulDistributes(a: byte, b: byte, c: byte)
    ensures PolyMul(a, Add(b, c)) == Add(PolyMul(a, b), PolyMul(a, c))
    decreases b, c
  {
    if b != 0 || c != 0 {
      PolyMulDistributes(a, b >> 1, c >> 1);
      ShiftAdd(b, c);
      PolyMulStep(a, b);
      PolyMulStep(a, c);
      PolyMulStep(a, Add(b, c));
      XTimeAdd(PolyMul(a, b >> 1), PolyMul(a, c >> 1));
      AddShuffle(if b & 1 == 1 then a else 0, XTime(PolyMul(a, b >> 1)),
          if c & 1 == 1 then a else 0, XTime(PolyMul(a, c >> 1)));
      ShiftAdd(c, b);
    }
  }

  lemma PolyMulStep(a: byte, b: byte)
    ensures PolyMul(a, b) == Add(if b & 1 == 1 then a else 0, XTime(PolyMul(a, b >> 1)))
  {}

  lemma AddShuffle(a: byte, b: byte, c: byte, d: byte)
    ensures Add(Add(a, b), Add(c, d)) == Add(Add(a, c), Add(b, d))
  {
    AddLaws(a, b, Add(c, d));
    AddLaws(b, c, d);
    AddLaws(c, b, d);
    AddLaws(a, c, Add(b, d));
    hide Add;
  }

  lemma AddLaws(a: byte, b: byte, c: byte)
    ensures Add(a, b) == Add(b, a)
    ensures Add(Add(a, b), c) == Add(a, Add(b, c))
    ensures Add(a, 0) == a && Add(a, a) == 0
  {}

  lemma MulCommutes(a: byte, b: byte)
    ensures Mul(a, b) == Mul(b, a)
  {}

  lemma MulOfPowers(i: nat, j: nat)
    ensures Mul(Exp(i), Exp(j)) == Exp(i + j)
  {
    MulIsPolyMul(Exp(i), Exp(j));
    ExpAdd(i, j);
  }

  lemma MulZero(a: byte)
    ensures Mul(a, 0) == 0 == Mul(0, a)
  {}

  lemma MulAssociates(a: byte, b: byte, c: byte)
    ensures Mul(Mul(a, b), c) == Mul(a, Mul(b, c))
  {
    hide Mul;
    hide Exp;
    hide Log;
    if a == 0 || b == 0 || c == 0 {
      MulZero(a); MulZero(b); MulZero(c); MulZero(Mul(a, b)); MulZero(Mul(b, c));
    } else {
      ExpOfLog(a);
      ExpOfLog(b);
      ExpOfLog(c);
      var i, j, k := Log(a), Log(b), Log(c);
      MulOfPowers(i, j);
      MulOfPowers(i + j, k);
      MulOfPowers(j, k);
      MulOfPowers(i, j + k);
    }
  }

  lemma MulDistributes(a: byte, b: byte, c: byte)
    ensures Mul(a, Add(b, c)) == Add(Mul(a, b), Mul(a, c))
  {
    MulIsPolyMul(a, b);
    MulIsPolyMul(a, c);
    MulIsPolyMul(a, Add(b, c));
    PolyMulDistributes(a, b, c);
  }

  lemma MulOne(a: byte)
    ensures Mul(1, a) == a
  {
    MulIsPolyMul(1, a);
    PolyMulOne(a);
  }

  function Inv(a: byte): (r: byte)
  {
    if a == 0 then 0 else ExpOfLog(a); Exp(255 - Log(a))
  }

  lemma InvIsInverse(a: byte)
    requires a != 0
    ensures Inv(a) != 0 && Mul(a, Inv(a)) == 1
  {
    ExpOfLog(a);
    var n := 255 - Log(a);
    ExpNonzero(n);
    ExpAdd(Log(a), n);
    ExpFull();
    MulIsPolyMul(a, Inv(a));
  }

  lemma NoZeroDivisors(a: byte, b: byte)
    ensures Mul(a, b) == 0 <==> a == 0 || b == 0
  {
    if a != 0 && b != 0 {
      ExpNonzero((Log(a) + Log(b)) % 255);
    }
  }
}
