/**
 * The field's bulk operations in place on arrays: the tables, the scalar loops, and the blocked split-nibble kernels
 * that must agree with them.
 */
module Kernels {
  import opened Gf256

  // ---- the tables

  function Widen(a: byte): bv16 { a as bv16 }

  function Narrow(x: bv16): byte { (x & 0xFF) as byte }

  function IndexOf(x: bv16): int { x as int }

  /** Multiplication by x as the table generator does it, on 16 bits. */
  function Doubled(x: bv16): bv16 {
    var y := x << 1;
    if y & 0x100 != 0 then y ^ 0x11D else y
  }

  lemma DoublingStep(a: byte)
    ensures Doubled(Widen(a)) == Widen(XTime(a))
    ensures Narrow(Widen(a)) == a && IndexOf(Widen(a)) == ToInt(a)
  {}

  lemma {:induction false} LogOfZero(i: nat)
    ensures LogFrom(0, i) == 0
    decreases 255 - i
  {
    if i < 255 {
      ExpNonzero(i);
      LogOfZero(i + 1);
    }
  }

  lemma Powers(i: nat)
    ensures Exp(0) == 1 && Exp(i + 1) == XTime(Exp(i)) && Widen(1) == 1 && ToInt(0) == 0 && ByteOf(0) == 0
  {}

  /** The table slot of the i-th power of the generator. */
  function SlotOf(i: nat): int { ToInt(Exp(i)) }

  lemma SlotsDiffer(i: nat)
    ensures 0 < SlotOf(i) < 256 && SlotOf(i) == ToInt(Exp(i))
    ensures i < 255 ==> forall j :: 0 <= j < i ==> SlotOf(j) != SlotOf(i)
  {
    hide Exp, ToInt;
    ExpNonzero(i);
    ToIntIsInjective(Exp(i), 0);
    ToIntIsInjective(0, Exp(i));
    if i < 255 {
      forall j | 0 <= j < i
        ensures SlotOf(j) != SlotOf(i)
      {
        ExpInjective(j, i);
        ToIntIsInjective(Exp(j), Exp(i));
      }
    }
  }

  /** A table holding i in the slot of the i-th power, and 0 in slot 0, holds every logarithm. */
  lemma TablesComplete(log: seq<byte>)
    requires |log| == 256 && log[0] == ByteOf(0)
    requires forall j :: 0 <= j < 255 ==> 0 < SlotOf(j) < 256 && log[SlotOf(j)] == ByteOf(j)
    ensures forall a: byte :: 0 <= ToInt(a) < 256 && ToInt(log[ToInt(a)]) == Log(a)
  {
    hide Exp, LogFrom, ToInt, ByteOf, SlotOf;
    forall a: byte
      ensures 0 <= ToInt(a) < 256 && ToInt(log[ToInt(a)]) == Log(a)
    {
      ToIntIsInjective(a, 0);
      Powers(0);
      if a == 0 {
        LogOfZero(0);
      } else {
        ExpOfLog(a);
        SlotsDiffer(Log(a));
      }
    }
  }

  /** Fills the exponential and logarithm tables by repeated doubling modulo 0x11D. */
  method GenTables() returns (exp: array<byte>, log: array<byte>)
    ensures exp.Length == 256 == log.Length
    ensures forall i :: 0 <= i < 256 ==> exp[i] == Exp(i)
    ensures forall a: byte :: 0 <= ToInt(a) < 256 && ToInt(log[ToInt(a)]) == Log(a)
  {
    hide Exp, LogFrom, ToInt, XTime, Widen, Narrow, ByteOf, Doubled, SlotOf, Log, IndexOf;
    Powers(0);
    exp := new byte[256](_ => 0);
    log := new byte[256](_ => 0);
    var x: bv16 := 1;
    for i := 0 to 255
      invariant x == Widen(Exp(i))
      invariant forall j :: 0 <= j < i ==> exp[j] == Exp(j)
      invariant forall j :: 0 <= j < i ==> 0 < SlotOf(j) < 256 && log[SlotOf(j)] == ByteOf(j)
      invariant log[0] == ByteOf(0)
    {
      DoublingStep(Exp(i));
      SlotsDiffer(i);
      Powers(i);
      exp[i] := Narrow(x);
      log[IndexOf(x)] := ByteOf(i);
      x := Doubled(x);
    }
    ExpFull();
    exp[255] := exp[0];
    TablesComplete(log[..]);
  }

  // ---- scalar loops

  /** dst[i] ^= coeff * src[i] on [lo, hi), through the logarithms; coeff must not be zero. */
  method MulAccScalar(coeff: byte, src: array<byte>, dst: array<byte>, lo: nat, hi: nat)
    requires coeff != 0 && src != dst && lo <= hi <= src.Length && hi <= dst.Length
    modifies dst
    ensures forall i :: lo <= i < hi ==> dst[i] == Add(old(dst[i]), Mul(coeff, src[i]))
    ensures forall i :: 0 <= i < dst.Length && !(lo <= i < hi) ==> dst[i] == old(dst[i])
  {
    hide Add, Exp, LogFrom;
    var logC := Log(coeff);
    for i := lo to hi
      invariant forall j :: lo <= j < i ==> dst[j] == Add(old(dst[j]), Mul(coeff, src[j]))
      invariant forall j :: 0 <= j < dst.Length && !(lo <= j < i) ==> dst[j] == old(dst[j])
    {
      AddZero(dst[i]);
      if src[i] != 0 {
        var logS := Log(src[i]);
        dst[i] := Add(dst[i], Exp((logC + logS) % 255));
      }
    }
  }

  lemma AddZero(a: byte)
    ensures Add(a, 0) == a
  {}

  method MulScalar(coeff: byte, src: array<byte>, dst: array<byte>, lo: nat, hi: nat)
    requires coeff != 0 && src != dst && lo <= hi <= src.Length && hi <= dst.Length
    modifies dst
    ensures forall i :: lo <= i < hi ==> dst[i] == Mul(coeff, src[i])
    ensures forall i :: 0 <= i < dst.Length && !(lo <= i < hi) ==> dst[i] == old(dst[i])
  {
    hide Exp, LogFrom;
    var logC := Log(coeff);
    for i := lo to hi
      invariant forall j :: lo <= j < i ==> dst[j] == Mul(coeff, src[j])
      invariant forall j :: 0 <= j < dst.Length && !(lo <= j < i) ==> dst[j] == old(dst[j])
    {
      if src[i] == 0 {
        dst[i] := 0;
      } else {
        var logS := Log(src[i]);
        dst[i] := Exp((logC + logS) % 255);
      }
    }
  }

  // ---- vector registers, as byte sequences

  function And(s: seq<byte>, mask: byte): (r: seq<byte>)
    ensures |r| == |s| && forall k :: 0 <= k < |s| ==> r[k] == s[k] & mask
  {
    seq(|s|, k requires 0 <= k < |s| => s[k] & mask)
  }

  function Xor(s: seq<byte>, t: seq<byte>): (r: seq<byte>)
    requires |s| == |t|
    ensures |r| == |s| && forall k :: 0 <= k < |s| ==> r[k] == Add(s[k], t[k])
  {
    seq(|s|, k requires 0 <= k < |s| => Add(s[k], t[k]))
  }

  lemma XorSwaps(s: seq<byte>, t: seq<byte>)
    requires |s| == |t|
    ensures Xor(s, t) == Xor(t, s)
  {
    hide Add;
    forall k | 0 <= k < |s|
      ensures Add(s[k], t[k]) == Add(t[k], s[k])
    {
      AddLaws(s[k], t[k], 0);
    }
  }

  /** One byte of a parallel 16-entry table lookup. */
  function Lookup(table: seq<byte>, i: byte): byte
    requires |table| == 16
  {
    if i & 0x80 != 0 then 0 else LowNibbleBound(i); table[(i & 0x0F) as int]
  }

  lemma LowNibbleBound(i: byte)
    ensures 0 <= (i & 0x0F) as int < 16
  {}

  /** The byte shuffle of one 16-byte lane; on wider registers the lanes are independent and share the table. */
  function Shuffle(table: seq<byte>, idx: seq<byte>): (r: seq<byte>)
    requires |table| == 16
    ensures |r| == |idx| && forall k :: 0 <= k < |idx| ==> r[k] == Lookup(table, idx[k])
  {
    seq(|idx|, k requires 0 <= k < |idx| => Lookup(table, idx[k]))
  }

  /** Byte k of s after every 16-bit little-endian lane was shifted right by four. */
  function LaneShifted(s: seq<byte>, k: nat): byte
    requires |s| % 2 == 0 && k < |s|
  {
    var j := k - k % 2;
    var lane := ((s[j] as bv16) | ((s[j + 1] as bv16) << 8)) >> 4;
    if k % 2 == 0 then (lane & 0xFF) as byte else ((lane >> 8) & 0xFF) as byte
  }

  function ShiftLanes(s: seq<byte>): (r: seq<byte>)
    requires |s| % 2 == 0
    ensures |r| == |s| && forall k :: 0 <= k < |s| ==> r[k] == LaneShifted(s, k)
  {
    seq(|s|, k requires 0 <= k < |s| => LaneShifted(s, k))
  }

  /** The mask removes what leaks in from the neighbouring byte of the lane. */
  lemma LaneBits(a: byte, b: byte)
    ensures var lane := ((a as bv16) | ((b as bv16) << 8)) >> 4;
      ((lane & 0xFF) as byte) & 0x0F == a >> 4 && (((lane >> 8) & 0xFF) as byte) & 0x0F == b >> 4
  {}

  lemma ShiftedNibble(s: seq<byte>, k: nat)
    requires |s| % 2 == 0 && k < |s|
    ensures LaneShifted(s, k) & 0x0F == s[k] >> 4
  {
    var j := k - k % 2;
    LaneBits(s[j], s[j + 1]);
  }

  // ---- split-nibble multiplication

  ghost predicate IsTablePair(c: byte, lo: seq<byte>, hi: seq<byte>) {
    && |lo| == 16 == |hi|
    && forall i: byte :: i & 0xF0 == 0 ==> lo[NibbleIndex(i)] == Mul(c, i) && hi[NibbleIndex(i)] == Mul(c, i << 4)
  }

  /** The table index of a low nibble. */
  function NibbleIndex(i: byte): nat
    ensures NibbleIndex(i) < 16
  {
    LowNibbleBound(i); (i & 0x0F) as int
  }

  lemma NibbleOf(n: nat)
    requires n < 16
    ensures ByteOf(n) & 0xF0 == 0 && NibbleIndex(ByteOf(n)) == n
    ensures forall i: byte :: i & 0xF0 == 0 && NibbleIndex(i) == n ==> i == ByteOf(n)
  {
    hide ByteOf, NibbleIndex, ToInt;
    var b := ByteOf(n);
    SmallByte(b);
    forall i: byte | i & 0xF0 == 0 && NibbleIndex(i) == n
      ensures i == b
    {
      SmallByte(i);
      ToIntIsInjective(i, b);
    }
  }

  lemma SmallByte(b: byte)
    ensures ToInt(b) < 16 <==> b & 0xF0 == 0
    ensures b & 0xF0 == 0 ==> NibbleIndex(b) == ToInt(b)
  {}

  method BuildMulTables(c: byte) returns (lo: seq<byte>, hi: seq<byte>)
    ensures IsTablePair(c, lo, hi) && |lo| == 16 == |hi|
  {
    hide Mul, NibbleIndex, ByteOf;
    lo, hi := seq(16, _ => 0), seq(16, _ => 0);
    for n := 0 to 16
      invariant |lo| == 16 == |hi|
      invariant forall i: byte :: i & 0xF0 == 0 && NibbleIndex(i) < n ==>
        lo[NibbleIndex(i)] == Mul(c, i) && hi[NibbleIndex(i)] == Mul(c, i << 4)
    {
      NibbleOf(n);
      var b := ByteOf(n);
      lo, hi := lo[n := Mul(c, b)], hi[n := Mul(c, b << 4)];
    }
  }

  /** The product of every byte of s with the tables' coefficient, by two shuffles and an exclusive or. */
  function Product(lo: seq<byte>, hi: seq<byte>, s: seq<byte>): (r: seq<byte>)
    requires |lo| == 16 == |hi| && |s| % 2 == 0
    ensures |r| == |s|
  {
    Xor(Shuffle(lo, And(s, 0x0F)), Shuffle(hi, And(ShiftLanes(s), 0x0F)))
  }

  lemma Nibbles(b: byte)
    ensures Add(b & 0x0F, (b >> 4) << 4) == b
    ensures (b & 0x0F) & 0xF0 == 0 && (b >> 4) & 0xF0 == 0
    ensures (b & 0x0F) & 0x80 == 0 && (b >> 4) & 0x80 == 0
  {}

  lemma LookupIs(table: seq<byte>, i: byte)
    requires |table| == 16 && i & 0x80 == 0
    ensures Lookup(table, i) == table[NibbleIndex(i)]
  {}

  lemma ProductIs(c: byte, lo: seq<byte>, hi: seq<byte>, s: seq<byte>, k: nat)
    requires IsTablePair(c, lo, hi) && |s| % 2 == 0 && k < |s|
    ensures Product(lo, hi, s)[k] == Mul(c, s[k])
  {
    hide Mul, Add, Lookup, NibbleIndex, LaneShifted;
    var b := s[k];
    Nibbles(b);
    ShiftedNibble(s, k);
    LookupIs(lo, b & 0x0F);
    LookupIs(hi, b >> 4);
    MulDistributes(c, b & 0x0F, (b >> 4) << 4);
  }

  // ---- blocked kernels

  method Store(dst: array<byte>, at: nat, v: seq<byte>)
    requires at + |v| <= dst.Length
    modifies dst
    ensures forall i :: 0 <= i < dst.Length ==> dst[i] == if at <= i < at + |v| then v[i - at] else old(dst[i])
  {
    forall k | 0 <= k < |v| {
      dst[at + k] := v[k];
    }
  }

  /** Everything before i is done, nothing from i on is touched. */
  twostate predicate AccDone(coeff: byte, src: array<byte>, dst: array<byte>, i: nat)
    requires i <= src.Length && i <= dst.Length
    reads src, dst
  {
    && (forall j :: 0 <= j < i ==> dst[j] == Add(old(dst[j]), Mul(coeff, src[j])))
    && (forall j :: i <= j < dst.Length ==> dst[j] == old(dst[j]))
  }

  /** One block: load, multiply by table lookups, accumulate, store. */
  method AccBlock(coeff: byte, lo: seq<byte>, hi: seq<byte>, src: array<byte>, dst: array<byte>, i: nat, n: nat)
    requires IsTablePair(coeff, lo, hi) && |lo| == 16 == |hi| && src != dst && n % 2 == 0 && i + n <= src.Length
      && i + n <= dst.Length
    modifies dst
    ensures forall j :: 0 <= j < dst.Length ==>
      dst[j] == if i <= j < i + n then Add(old(dst[j]), Mul(coeff, src[j])) else old(dst[j])
  {
    hide Add, Mul, Product, IsTablePair;
    var s, d := src[i..i + n], dst[i..i + n];
    var prod := Product(lo, hi, s);
    forall k | 0 <= k < n
      ensures prod[k] == Mul(coeff, src[i + k])
    {
      ProductIs(coeff, lo, hi, s, k);
    }
    Store(dst, i, Xor(d, prod));
  }

  method MulAccSsse3(coeff: byte, src: array<byte>, dst: array<byte>)
    requires coeff != 0 && src != dst
    modifies dst
    ensures AccDone(coeff, src, dst, Shorter(src, dst))
  {
    hide Add, Mul, IsTablePair;
    var len := Shorter(src, dst);
    var lo, hi := BuildMulTables(coeff);
    var i := 0;
    while i + 16 <= len
      invariant i <= len && AccDone(coeff, src, dst, i)
    {
      AccBlock(coeff, lo, hi, src, dst, i, 16);
      i := i + 16;
    }
    MulAccScalar(coeff, src, dst, i, len);
  }

  function Shorter(src: array<byte>, dst: array<byte>): nat {
    if src.Length <= dst.Length then src.Length else dst.Length
  }

  method MulAccAvx2(coeff: byte, src: array<byte>, dst: array<byte>)
    requires coeff != 0 && src != dst
    modifies dst
    ensures AccDone(coeff, src, dst, Shorter(src, dst))
  {
    hide Add, Mul, IsTablePair;
    var len := Shorter(src, dst);
    var lo, hi := BuildMulTables(coeff);
    var i := 0;
    while i + 32 <= len
      invariant i <= len && AccDone(coeff, src, dst, i)
    {
      AccBlock(coeff, lo, hi, src, dst, i, 32);
      i := i + 32;
    }
    if i + 16 <= len {
      AccBlock(coeff, lo, hi, src, dst, i, 16);
      i := i + 16;
    }
    MulAccScalar(coeff, src, dst, i, len);
  }

  method MulSliceAvx2(coeff: byte, src: array<byte>, dst: array<byte>)
    requires coeff != 0 && src != dst
    modifies dst
    ensures forall j :: 0 <= j < dst.Length ==>
      dst[j] == if j < src.Length then Mul(coeff, src[j]) else old(dst[j])
  {
    hide Add, Mul, IsTablePair;
    var len := Shorter(src, dst);
    var lo, hi := BuildMulTables(coeff);
    var i := 0;
    while i + 32 <= len
      invariant i <= len
      invariant forall j :: 0 <= j < dst.Length ==> dst[j] == if j < i then Mul(coeff, src[j]) else old(dst[j])
    {
      MulBlock(coeff, lo, hi, src, dst, i, 32);
      i := i + 32;
    }
    if i + 16 <= len {
      MulBlock(coeff, lo, hi, src, dst, i, 16);
      i := i + 16;
    }
    MulScalar(coeff, src, dst, i, len);
  }

  method MulSliceSsse3(coeff: byte, src: array<byte>, dst: array<byte>)
    requires coeff != 0 && src != dst
    modifies dst
    ensures forall j :: 0 <= j < dst.Length ==>
      dst[j] == if j < src.Length then Mul(coeff, src[j]) else old(dst[j])
  {
    hide Add, Mul, IsTablePair;
    var len := Shorter(src, dst);
    var lo, hi := BuildMulTables(coeff);
    var i := 0;
    while i + 16 <= len
      invariant i <= len
      invariant forall j :: 0 <= j < dst.Length ==> dst[j] == if j < i then Mul(coeff, src[j]) else old(dst[j])
    {
      MulBlock(coeff, lo, hi, src, dst, i, 16);
      i := i + 16;
    }
    MulScalar(coeff, src, dst, i, len);
  }

  method MulBlock(coeff: byte, lo: seq<byte>, hi: seq<byte>, src: array<byte>, dst: array<byte>, i: nat, n: nat)
    requires IsTablePair(coeff, lo, hi) && |lo| == 16 == |hi| && src != dst && n % 2 == 0 && i + n <= src.Length
      && i + n <= dst.Length
    modifies dst
    ensures forall j :: 0 <= j < dst.Length ==>
      dst[j] == if i <= j < i + n then Mul(coeff, src[j]) else old(dst[j])
  {
    hide Mul, Product, IsTablePair;
    var s := src[i..i + n];
    var prod := Product(lo, hi, s);
    forall k | 0 <= k < n
      ensures prod[k] == Mul(coeff, src[i + k])
    {
      ProductIs(coeff, lo, hi, s, k);
    }
    Store(dst, i, prod);
  }

  method XorAccAvx2(src: array<byte>, dst: array<byte>)
    requires src != dst
    modifies dst
    ensures forall j :: 0 <= j < dst.Length ==>
      dst[j] == if j < src.Length then Add(old(dst[j]), src[j]) else old(dst[j])
  {
    hide Add;
    var len := Shorter(src, dst);
    var i := 0;
    while i + 32 <= len
      invariant i <= len
      invariant forall j :: 0 <= j < dst.Length ==> dst[j] == if j < i then Add(old(dst[j]), src[j]) else old(dst[j])
    {
      XorSwaps(src[i..i + 32], dst[i..i + 32]);
      Store(dst, i, Xor(src[i..i + 32], dst[i..i + 32]));
      i := i + 32;
    }
    if i + 16 <= len {
      XorSwaps(src[i..i + 16], dst[i..i + 16]);
      Store(dst, i, Xor(src[i..i + 16], dst[i..i + 16]));
      i := i + 16;
    }
    XorScalar(src, dst, i, len);
  }

  method XorAccSsse3(src: array<byte>, dst: array<byte>)
    requires src != dst
    modifies dst
    ensures forall j :: 0 <= j < dst.Length ==>
      dst[j] == if j < src.Length then Add(old(dst[j]), src[j]) else old(dst[j])
  {
    hide Add;
    var len := Shorter(src, dst);
    var i := 0;
    while i + 16 <= len
      invariant i <= len
      invariant forall j :: 0 <= j < dst.Length ==> dst[j] == if j < i then Add(old(dst[j]), src[j]) else old(dst[j])
    {
      XorSwaps(src[i..i + 16], dst[i..i + 16]);
      Store(dst, i, Xor(src[i..i + 16], dst[i..i + 16]));
      i := i + 16;
    }
    XorScalar(src, dst, i, len);
  }

  method XorScalar(src: array<byte>, dst: array<byte>, lo: nat, hi: nat)
    requires src != dst && lo <= hi <= src.Length && hi <= dst.Length
    modifies dst
    ensures forall k :: 0 <= k < dst.Length ==> dst[k] == if lo <= k < hi then Add(old(dst[k]), src[k]) else old(dst[k])
  {
    hide Add;
    for j := lo to hi
      invariant forall k :: 0 <= k < dst.Length ==>
        dst[k] == if lo <= k < j then Add(old(dst[k]), src[k]) else old(dst[k])
    {
      dst[j] := Add(dst[j], src[j]);
    }
  }

  // ---- dispatch

  datatype Cpu = Scalar | Ssse3 | Avx2

  lemma TrivialCoefficients(a: byte, b: byte)
    ensures Add(b, Mul(0, a)) == b && Mul(0, a) == 0 && Mul(1, a) == a
  {
    hide Add, Mul;
    MulZero(a);
    MulOne(a);
    AddZero(b);
  }

  /** The public accumulate operation: the same result for every coefficient, length and processor. */
  method MulAccSlice(cpu: Cpu, coeff: byte, src: array<byte>, dst: array<byte>)
    requires src != dst
    modifies dst
    ensures AccDone(coeff, src, dst, Shorter(src, dst))
  {
    hide Add, Mul;
    forall a: byte, b: byte
      ensures Add(b, Mul(0, a)) == b
    {
      TrivialCoefficients(a, b);
    }
    forall a: byte
      ensures Mul(1, a) == a
    {
      TrivialCoefficients(a, 0);
    }
    if coeff == 0 {
      return;
    }
    if coeff == 1 {
      match cpu {
        case Scalar => XorScalar(src, dst, 0, Shorter(src, dst));
        case Ssse3 => XorAccSsse3(src, dst);
        case Avx2 => XorAccAvx2(src, dst);
      }
      return;
    }
    match cpu {
      case Scalar => MulAccScalar(coeff, src, dst, 0, Shorter(src, dst));
      case Ssse3 => MulAccSsse3(coeff, src, dst);
      case Avx2 => MulAccAvx2(coeff, src, dst);
    }
  }

  /**
   * The public scaling operation. It too gives the same products on every processor; beyond a shorter src only
   * coefficient 0 writes to dst, and coefficient 1 panics when dst is the shorter one.
   */
  method MulSlice(cpu: Cpu, coeff: byte, src: array<byte>, dst: array<byte>)
    requires src != dst
    requires coeff == 1 ==> src.Length <= dst.Length
    modifies dst
    ensures forall j :: 0 <= j < Shorter(src, dst) ==> dst[j] == Mul(coeff, src[j])
    ensures forall j :: src.Length <= j < dst.Length ==> dst[j] == if coeff == 0 then 0 else old(dst[j])
  {
    hide Add, Mul;
    forall a: byte
      ensures Mul(0, a) == 0 && Mul(1, a) == a
    {
      TrivialCoefficients(a, 0);
    }
    if coeff == 0 {
      for i := 0 to dst.Length
        invariant forall j :: 0 <= j < i ==> dst[j] == 0
      {
        dst[i] := 0;
      }
      return;
    }
    if coeff == 1 {
      Store(dst, 0, src[..]);
      return;
    }
    match cpu {
      case Scalar => MulScalar(coeff, src, dst, 0, Shorter(src, dst));
      case Ssse3 => MulSliceSsse3(coeff, src, dst);
      case Avx2 => MulSliceAvx2(coeff, src, dst);
    }
  }
}
