/**
 * What travels: symbols, and the header that a repair starts with. A header holds the anchor, the width and the coded
 * index, and a flag when only a prefix of the generation was summed.
 */
module Wire {
  import opened Basics
  import opened Gf256

  datatype Backend = RaptorQ | ReedSolomon | Rlc

  datatype WireSymbol = WireSymbol(blockId: nat, payloadId: nat, isRepair: bool, data: seq<byte>, backend: Backend)

  const HEADER: nat := 14
  const FILL_FLAG: nat := 0x8000_0000

  // ---- little-endian integers

  function ToLe(n: nat, k: nat): (r: seq<byte>)
    ensures |r| == k
  {
    if k == 0 then [] else [ByteOf(n % 256)] + ToLe(n / 256, k - 1)
  }

  function FromLe(b: seq<byte>): nat {
    if b == [] then 0 else ToInt(b[0]) + 256 * FromLe(b[1..])
  }

  function Bound(k: nat): nat { if k == 0 then 1 else 256 * Bound(k - 1) }

  lemma {:induction false} LeRoundTrip(n: nat, k: nat)
    requires n < Bound(k)
    ensures FromLe(ToLe(n, k)) == n
  {
    if k > 0 {
      LeRoundTrip(n / 256, k - 1);
      assert ToLe(n, k)[1..] == ToLe(n / 256, k - 1);
    }
  }

  lemma LowDigit(d: nat, n: nat)
    requires d < 256
    ensures (d + 256 * n) % 256 == d && (d + 256 * n) / 256 == n
  {}

  lemma {:induction false} LeBytesRoundTrip(b: seq<byte>)
    ensures ToLe(FromLe(b), |b|) == b
  {
    if b != [] {
      hide ToInt;
      ToIntIsInjective(b[0], ByteOf(ToInt(b[0])));
      LowDigit(ToInt(b[0]), FromLe(b[1..]));
      LeBytesRoundTrip(b[1..]);
    }
  }

  /** The least significant byte comes first. */
  lemma {:induction false} LeDigit(n: nat, k: nat, i: nat)
    requires i < k
    ensures Bound(i) > 0 && ToInt(ToLe(n, k)[i]) == n / Bound(i) % 256
  {
    BoundPositive(i);
    if i > 0 {
      LeDigit(n / 256, k - 1, i - 1);
      QuotientOfQuotient(n, Bound(i - 1));
    }
  }

  lemma {:induction false} BoundPositive(k: nat)
    ensures Bound(k) > 0
  {
    if k > 0 {
      BoundPositive(k - 1);
    }
  }

  lemma QuotientOfQuotient(n: nat, b: nat)
    requires b > 0
    ensures n / 256 / b == n / (256 * b)
  {
    var q := n / 256 / b;
    QuotientBounds(n / 256, b);
    assert 256 * (q * b) <= n < 256 * (q * b) + 256 * b;
    assert 256 * (q * b) == q * (256 * b);
    QuotientUnique(n, 256 * b, q);
  }

  /** Byte by byte, where a header's fields are. */
  lemma HeaderBytes(anchor: nat, count: nat, index: nat, coded: seq<byte>, i: nat)
    requires i < HEADER
    ensures |Encode(anchor, count, index, coded)| == 14 + |coded|
    ensures var b := ToInt(Encode(anchor, count, index, coded)[i]);
      Bound(i) > 0 && (i >= 8 ==> Bound(i - 8) > 0) && (i >= 10 ==> Bound(i - 10) > 0)
      && b == (if i < 8 then anchor / Bound(i) % 256
               else if i < 10 then count / Bound(i - 8) % 256 else index / Bound(i - 10) % 256)
  {
    hide ToInt, Bound, ToLe;
    BoundPositive(i);
    if i < 8 {
      LeDigit(anchor, 8, i);
    } else if i < 10 {
      BoundPositive(i - 8);
      LeDigit(count, 2, i - 8);
    } else {
      BoundPositive(i - 8);
      BoundPositive(i - 10);
      LeDigit(index, 4, i - 10);
    }
  }

  lemma Bounds()
    ensures Bound(2) == 0x1_0000 && Bound(4) == 0x1_0000_0000 && Bound(8) == 0x1_0000_0000_0000_0000
  {
    assert Bound(3) == 256 * Bound(2);
    assert Bound(6) == 256 * Bound(5);
  }

  // ---- repair headers

  /** A parsed repair header; end is where the coded bytes start. */
  datatype Header = Header(anchor: nat, width: nat, index: nat, codedWidth: nat, end: nat)

  function Encode(anchor: nat, count: nat, index: nat, coded: seq<byte>): (r: seq<byte>) {
    ToLe(anchor, 8) + ToLe(count, 2) + ToLe(index, 4) + coded
  }

  function EncodeFilling(anchor: nat, full: nat, index: nat, codedWidth: nat, coded: seq<byte>): (r: seq<byte>) {
    ToLe(anchor, 8) + ToLe(full, 2) + ToLe(index + FILL_FLAG, 4) + ToLe(codedWidth, 2) + coded
  }

  function Parse(data: seq<byte>): (h: Option<Header>)
    ensures h.Some? ==> h.value.width > 0 && h.value.codedWidth <= h.value.width && h.value.end <= |data|
  {
    if |data| < HEADER then None else
      var anchor, width, wireIndex := FromLe(data[0..8]), FromLe(data[8..10]), FromLe(data[10..14]);
      if width == 0 then None
      else if wireIndex >= FILL_FLAG then
        if |data| < HEADER + 2 then None
        else Some(Header(anchor, width, wireIndex - FILL_FLAG, Min(FromLe(data[14..16]), width), HEADER + 2))
      else Some(Header(anchor, width, wireIndex, width, HEADER))
  }

  lemma Fields(a: seq<byte>, b: seq<byte>, c: seq<byte>, rest: seq<byte>)
    requires |a| == 8 && |b| == 2 && |c| == 4
    ensures var d := a + b + c + rest; d[0..8] == a && d[8..10] == b && d[10..14] == c && d[14..] == rest
  {}

  lemma ParseEncode(anchor: nat, count: nat, index: nat, coded: seq<byte>)
    requires anchor < 0x1_0000_0000_0000_0000 && 0 < count < 0x1_0000 && index < FILL_FLAG
    ensures Parse(Encode(anchor, count, index, coded)) == Some(Header(anchor, count, index, count, HEADER))
    ensures Encode(anchor, count, index, coded)[HEADER..] == coded
  {
    Bounds();
    LeRoundTrip(anchor, 8);
    LeRoundTrip(count, 2);
    LeRoundTrip(index, 4);
    Fields(ToLe(anchor, 8), ToLe(count, 2), ToLe(index, 4), coded);
  }

  lemma ParseEncodeFilling(anchor: nat, full: nat, index: nat, codedWidth: nat, coded: seq<byte>)
    requires anchor < 0x1_0000_0000_0000_0000 && 0 < full < 0x1_0000 && index < FILL_FLAG && codedWidth <= full
    ensures Parse(EncodeFilling(anchor, full, index, codedWidth, coded))
      == Some(Header(anchor, full, index, codedWidth, HEADER + 2))
    ensures EncodeFilling(anchor, full, index, codedWidth, coded)[HEADER + 2..] == coded
  {
    Bounds();
    LeRoundTrip(anchor, 8);
    LeRoundTrip(full, 2);
    LeRoundTrip(index + FILL_FLAG, 4);
    LeRoundTrip(codedWidth, 2);
    var cw := ToLe(codedWidth, 2);
    var d := EncodeFilling(anchor, full, index, codedWidth, coded);
    assert d == ToLe(anchor, 8) + ToLe(full, 2) + ToLe(index + FILL_FLAG, 4) + (cw + coded);
    Fields(ToLe(anchor, 8), ToLe(full, 2), ToLe(index + FILL_FLAG, 4), cw + coded);
    assert d[14..16] == d[14..][..2] == cw;
    assert d[16..] == d[14..][2..] == coded;
  }

  lemma ZeroWidth(data: seq<byte>)
    requires |data| >= HEADER && forall i :: 0 <= i < |data| ==> data[i] == 0
    ensures FromLe(data[8..10]) == 0
  {
    assert FromLe(data[8..10]) == ToInt(data[8]) + 256 * FromLe(data[8..10][1..]);
    assert FromLe(data[8..10][1..]) == ToInt(data[9]) + 256 * FromLe(data[8..10][1..][1..]);
  }

  /** The inert symbol an encoder emits when it has nothing to code parses to nothing. */
  lemma InertParsesToNothing(data: seq<byte>)
    requires forall i :: 0 <= i < |data| ==> data[i] == 0
    ensures Parse(data) == None
  {
    if |data| >= HEADER {
      ZeroWidth(data);
    }
  }

  /** Truncated or zero-padded to n bytes. */
  function Pad(data: seq<byte>, n: nat): (r: seq<byte>)
    ensures |r| == n
    ensures forall i :: 0 <= i < n ==> r[i] == if i < |data| then data[i] else 0
  {
    seq(n, i requires 0 <= i < n => if i < |data| then data[i] else 0)
  }
}
