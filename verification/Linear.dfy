/**
 * Plain linear algebra over the field, against which the decoders are compared. Rows are sequences of bytes; the span
 * of a list of equations is the set of its combinations, and a vector solves the list when its product with every
 * equation is zero. Whatever solves all equations solves everything in their span, and the span grows with the list,
 * holds every equation, and is closed under adding multiples.
 */
module Linear {
  import opened Gf256

  type Row = seq<byte>

  function MulAcc(f: byte, src: Row, dst: Row): (r: Row)
    requires |src| == |dst|
    ensures |r| == |dst|
    ensures forall i :: 0 <= i < |dst| ==> r[i] == Add(dst[i], Mul(f, src[i]))
  {
    seq(|dst|, i requires 0 <= i < |dst| => Add(dst[i], Mul(f, src[i])))
  }

  function Scale(f: byte, a: Row): (r: Row)
    ensures |r| == |a|
    ensures forall i :: 0 <= i < |a| ==> r[i] == Mul(f, a[i])
  {
    seq(|a|, i requires 0 <= i < |a| => Mul(f, a[i]))
  }

  function Unit(n: nat, c: nat): (r: Row)
    ensures |r| == n
    ensures forall i :: 0 <= i < n ==> r[i] == if i == c then 1 else 0
  {
    seq(n, i => if i == c then 1 else 0)
  }

  function Zero(n: nat): (r: Row)
    ensures |r| == n
    ensures forall i :: 0 <= i < n ==> r[i] == 0
  {
    seq(n, _ => 0)
  }

  function Dot(a: Row, x: Row, n: nat): byte
    requires n <= |a| && n <= |x|
  {
    if n == 0 then 0 else Add(Dot(a, x, n - 1), Mul(a[n - 1], x[n - 1]))
  }

  lemma AddCancels(a: byte, b: byte)
    ensures Add(a, a) == 0 && Add(a, 0) == a && Add(0, a) == a
    ensures Add(a, b) == 0 <==> a == b
    ensures Add(a, b) == Add(b, a)
    ensures Add(Add(a, b), b) == a
  {}

  lemma FusedTerm(d: byte, m: byte, f: byte, b: byte, a: byte, x: byte)
    ensures Add(Add(d, Mul(f, m)), Mul(Add(b, Mul(f, a)), x))
         == Add(Add(d, Mul(b, x)), Mul(f, Add(m, Mul(a, x))))
  {
    hide Add, Mul;
    MulCommutes(Add(b, Mul(f, a)), x);
    MulDistributes(x, b, Mul(f, a));
    MulCommutes(b, x);
    MulCommutes(Mul(f, a), x);
    MulAssociates(f, a, x);
    MulDistributes(f, m, Mul(a, x));
    AddShuffle(d, Mul(f, m), Mul(b, x), Mul(f, Mul(a, x)));
  }

  lemma {:induction false} DotMulAcc(f: byte, a: Row, b: Row, x: Row, n: nat)
    requires |a| == |b| && n <= |a| && n <= |x|
    ensures Dot(MulAcc(f, a, b), x, n) == Add(Dot(b, x, n), Mul(f, Dot(a, x, n)))
  {
    hide Add, Mul;
    if n == 0 {
      MulZero(f);
      AddCancels(0, 0);
    } else {
      DotMulAcc(f, a, b, x, n - 1);
      FusedTerm(Dot(b, x, n - 1), Dot(a, x, n - 1), f, b[n - 1], a[n - 1], x[n - 1]);
    }
  }

  lemma {:induction false} DotScale(f: byte, a: Row, x: Row, n: nat)
    requires n <= |a| && n <= |x|
    ensures Dot(Scale(f, a), x, n) == Mul(f, Dot(a, x, n))
  {
    hide Add, Mul;
    if n == 0 {
      MulZero(f);
    } else {
      DotScale(f, a, x, n - 1);
      MulAssociates(f, a[n - 1], x[n - 1]);
      MulDistributes(f, Dot(a, x, n - 1), Mul(a[n - 1], x[n - 1]));
    }
  }

  /** A product that vanishes off column c is that one term. */
  lemma {:induction false} DotSingle(a: Row, x: Row, c: nat, n: nat)
    requires n <= |a| && n <= |x|
    requires forall i :: 0 <= i < n && i != c ==> Mul(a[i], x[i]) == 0
    ensures Dot(a, x, n) == if c < n then Mul(a[c], x[c]) else 0
  {
    hide Add, Mul;
    if n > 0 {
      DotSingle(a, x, c, n - 1);
      AddCancels(Dot(a, x, n - 1), Mul(a[n - 1], x[n - 1]));
      AddCancels(Mul(a[n - 1], x[n - 1]), 0);
    }
  }

  lemma {:induction false} DotPair(a: Row, x: Row, c: nat, d: nat, n: nat)
    requires n <= |a| && n <= |x| && c != d
    requires forall i :: 0 <= i < n && i != c && i != d ==> Mul(a[i], x[i]) == 0
    ensures Dot(a, x, n) == Add(if c < n then Mul(a[c], x[c]) else 0, if d < n then Mul(a[d], x[d]) else 0)
  {
    hide Add, Mul;
    AddCancels(0, 0);
    if n > 0 {
      DotPair(a, x, c, d, n - 1);
      AddCancels(Dot(a, x, n - 1), 0);
      AddCancels(if c < n then Mul(a[c], x[c]) else 0, 0);
      AddCancels(if d < n then Mul(a[d], x[d]) else 0, 0);
      AddCancels(if c < n then Mul(a[c], x[c]) else 0, if d < n then Mul(a[d], x[d]) else 0);
    }
  }

  lemma DotUnit(w: nat, c: nat, x: Row, n: nat)
    requires c < n <= w && n <= |x|
    ensures Dot(Unit(w, c), x, n) == x[c]
  {
    hide Add, Mul;
    forall i | 0 <= i < n && i != c
      ensures Mul(Unit(w, c)[i], x[i]) == 0
    {
      MulZero(x[i]);
    }
    DotSingle(Unit(w, c), x, c, n);
    MulOne(x[c]);
  }

  /** The product reads only the first n entries. */
  lemma {:induction false} DotPrefix(a: Row, b: Row, x: Row, y: Row, n: nat)
    requires n <= |a| && n <= |x| && n <= |b| && n <= |y|
    requires a[..n] == b[..n] && x[..n] == y[..n]
    ensures Dot(a, x, n) == Dot(b, y, n)
  {
    hide Add, Mul;
    if n > 0 {
      assert a[n - 1] == a[..n][n - 1] == b[n - 1];
      assert x[n - 1] == x[..n][n - 1] == y[n - 1];
      assert a[..n - 1] == a[..n][..n - 1] == b[..n - 1];
      assert x[..n - 1] == x[..n][..n - 1] == y[..n - 1];
      DotPrefix(a, b, x, y, n - 1);
    }
  }

  // ---- row spans and solution sets

  ghost predicate Shape(eqs: seq<Row>, w: nat) {
    forall j :: 0 <= j < |eqs| ==> |eqs[j]| == w
  }

  /** The linear combination of the equations with the given weights. */
  ghost function Comb(ks: Row, eqs: seq<Row>, w: nat): (r: Row)
    requires |ks| == |eqs| && Shape(eqs, w)
    ensures |r| == w
  {
    if |eqs| == 0 then Zero(w)
    else MulAcc(ks[|ks| - 1], eqs[|eqs| - 1], Comb(ks[..|ks| - 1], eqs[..|eqs| - 1], w))
  }

  ghost predicate InSpan(eqs: seq<Row>, v: Row) {
    Shape(eqs, |v|) && exists ks: Row :: |ks| == |eqs| && Comb(ks, eqs, |v|) == v
  }

  ghost predicate Solves(eqs: seq<Row>, x: Row) {
    Shape(eqs, |x|) && forall j :: 0 <= j < |eqs| ==> Dot(eqs[j], x, |x|) == 0
  }

  lemma CombSnoc(ks: Row, eqs: seq<Row>, k: byte, e: Row, w: nat)
    requires |ks| == |eqs| && Shape(eqs, w) && |e| == w
    ensures Shape(eqs + [e], w) && Comb(ks + [k], eqs + [e], w) == MulAcc(k, e, Comb(ks, eqs, w))
  {
    assert (ks + [k])[..|ks|] == ks && (eqs + [e])[..|eqs|] == eqs;
  }

  lemma MulAccZero(e: Row, a: Row)
    requires |e| == |a|
    ensures MulAcc(0, e, a) == a
  {
    hide Add, Mul;
    forall i | 0 <= i < |a|
      ensures MulAcc(0, e, a)[i] == a[i]
    {
      MulZero(e[i]);
      AddCancels(a[i], 0);
    }
  }

  lemma SpanGrows(eqs: seq<Row>, e: Row, v: Row)
    requires InSpan(eqs, v) && |e| == |v|
    ensures InSpan(eqs + [e], v)
  {
    var ks: Row :| |ks| == |eqs| && Comb(ks, eqs, |v|) == v;
    CombSnoc(ks, eqs, 0, e, |v|);
    MulAccZero(e, v);
    assert |ks + [0]| == |eqs + [e]|;
  }

  lemma {:induction false} CombZero(eqs: seq<Row>, w: nat)
    requires Shape(eqs, w)
    ensures Comb(Zero(|eqs|), eqs, w) == Zero(w)
  {
    if |eqs| > 0 {
      var n := |eqs| - 1;
      CombZero(eqs[..n], w);
      assert Zero(|eqs|)[..n] == Zero(n);
      MulAccZero(eqs[n], Zero(w));
    }
  }

  lemma SpanZero(eqs: seq<Row>, w: nat)
    requires Shape(eqs, w)
    ensures InSpan(eqs, Zero(w))
  {
    CombZero(eqs, w);
  }

  lemma FusedTerm2(c: byte, a: byte, f: byte, kc: byte, ka: byte, e: byte)
    ensures Add(Add(c, Mul(f, a)), Mul(Add(kc, Mul(f, ka)), e))
         == Add(Add(c, Mul(kc, e)), Mul(f, Add(a, Mul(ka, e))))
  {
    FusedTerm(c, a, f, kc, ka, e);
  }

  lemma {:induction false} CombMulAcc(f: byte, ka: Row, kb: Row, eqs: seq<Row>, w: nat)
    requires |ka| == |kb| == |eqs| && Shape(eqs, w)
    ensures Comb(MulAcc(f, ka, kb), eqs, w) == MulAcc(f, Comb(ka, eqs, w), Comb(kb, eqs, w))
  {
    hide Add, Mul;
    if |eqs| == 0 {
      MulZero(f);
      AddCancels(0, 0);
      assert MulAcc(f, Zero(w), Zero(w)) == Zero(w);
    } else {
      var n := |eqs| - 1;
      var es, e := eqs[..n], eqs[n];
      CombMulAcc(f, ka[..n], kb[..n], es, w);
      assert MulAcc(f, ka, kb)[..n] == MulAcc(f, ka[..n], kb[..n]);
      var a, b := Comb(ka[..n], es, w), Comb(kb[..n], es, w);
      var l := Comb(MulAcc(f, ka, kb), eqs, w);
      var r := MulAcc(f, Comb(ka, eqs, w), Comb(kb, eqs, w));
      forall i | 0 <= i < w
        ensures l[i] == r[i]
      {
        FusedTerm2(b[i], a[i], f, kb[n], ka[n], e[i]);
      }
      assert l == r;
    }
  }

  lemma SpanMulAcc(eqs: seq<Row>, f: byte, a: Row, b: Row)
    requires |a| == |b| && InSpan(eqs, a) && InSpan(eqs, b)
    ensures InSpan(eqs, MulAcc(f, a, b))
  {
    var ka: Row :| |ka| == |eqs| && Comb(ka, eqs, |a|) == a;
    var kb: Row :| |kb| == |eqs| && Comb(kb, eqs, |b|) == b;
    CombMulAcc(f, ka, kb, eqs, |a|);
    assert |MulAcc(f, ka, kb)| == |eqs|;
  }

  lemma ScaleAsMulAcc(f: byte, a: Row)
    ensures Scale(f, a) == MulAcc(f, a, Zero(|a|))
  {
    hide Add, Mul;
    forall i | 0 <= i < |a|
      ensures Scale(f, a)[i] == MulAcc(f, a, Zero(|a|))[i]
    {
      AddCancels(Mul(f, a[i]), 0);
    }
  }

  lemma SpanScale(eqs: seq<Row>, f: byte, a: Row)
    requires InSpan(eqs, a)
    ensures InSpan(eqs, Scale(f, a))
  {
    SpanZero(eqs, |a|);
    SpanMulAcc(eqs, f, a, Zero(|a|));
    ScaleAsMulAcc(f, a);
  }

  lemma SpanLast(eqs: seq<Row>, e: Row)
    requires Shape(eqs, |e|)
    ensures InSpan(eqs + [e], e)
  {
    hide Add, Mul;
    var w := |e|;
    CombZero(eqs, w);
    CombSnoc(Zero(|eqs|), eqs, 1, e, w);
    forall i | 0 <= i < w
      ensures MulAcc(1, e, Zero(w))[i] == e[i]
    {
      MulOne(e[i]);
      AddCancels(e[i], 0);
    }
    assert MulAcc(1, e, Zero(w)) == e;
    assert |Zero(|eqs|) + [1]| == |eqs + [e]|;
  }

  lemma {:induction false} CombAnnihilated(ks: Row, eqs: seq<Row>, x: Row)
    requires |ks| == |eqs| && Solves(eqs, x)
    ensures Dot(Comb(ks, eqs, |x|), x, |x|) == 0
  {
    hide Add, Mul;
    if |eqs| == 0 {
      forall i | 0 <= i < |x|
        ensures Mul(Zero(|x|)[i], x[i]) == 0
      {
        MulZero(x[i]);
      }
      DotSingle(Zero(|x|), x, |x|, |x|);
    } else {
      var n := |eqs| - 1;
      CombAnnihilated(ks[..n], eqs[..n], x);
      DotMulAcc(ks[n], eqs[n], Comb(ks[..n], eqs[..n], |x|), x, |x|);
      MulZero(ks[n]);
      AddCancels(0, 0);
    }
  }

  /** A solution of the equations annihilates every vector of their span. */
  lemma SpanAnnihilated(eqs: seq<Row>, v: Row, x: Row)
    requires InSpan(eqs, v) && |x| == |v| && Solves(eqs, x)
    ensures Dot(v, x, |x|) == 0
  {
    var ks: Row :| |ks| == |eqs| && Comb(ks, eqs, |v|) == v;
    CombAnnihilated(ks, eqs, x);
  }
}
