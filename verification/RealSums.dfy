/**
 * Sums of real sequences: how one changed, added or removed entry changes the total, what the total of shares of a
 * whole is, and when it is positive. The changepoint masses, the striping credits and the recorded block masses are
 * all summed this way. The sum runs from the front, so that one entry more at the end is one step more, and a lemma
 * gives the same for the front; sums of two sequences add up entry by entry, and dividing every entry divides the
 * sum.
 */
module RealSums {
  function Total(s: seq<real>): real {
    if s == [] then 0.0 else Total(s[..|s| - 1]) + s[|s| - 1]
  }

  lemma {:induction false} TotalUpdate(s: seq<real>, i: nat, v: real)
    requires i < |s|
    ensures Total(s[i := v]) == Total(s) - s[i] + v
  {
    var last := |s| - 1;
    if i == last {
      assert s[i := v][..last] == s[..last];
    } else {
      TotalUpdate(s[..last], i, v);
      assert s[i := v][..last] == s[..last][i := v];
    }
  }

  lemma {:induction false} TotalOfShares(s: seq<real>, c: real, shares: seq<real>)
    requires c > 0.0 && |shares| == |s| && forall i :: 0 <= i < |s| ==> shares[i] == s[i] / c
    ensures Total(shares) == Total(s) / c
  {
    if s != [] {
      TotalOfShares(s[..|s| - 1], c, shares[..|s| - 1]);
      DivideSum(Total(s[..|s| - 1]), s[|s| - 1], c);
    }
  }

  lemma DivideSum(a: real, b: real, c: real)
    requires c > 0.0
    ensures a / c + b / c == (a + b) / c
  {}

  lemma {:induction false} TotalPositive(s: seq<real>, i: nat)
    requires i < |s| && s[i] > 0.0 && forall j :: 0 <= j < |s| ==> s[j] >= 0.0
    ensures Total(s) > 0.0
  {
    var last := |s| - 1;
    if i == last {
      TotalNonnegative(s[..last]);
    } else {
      TotalPositive(s[..last], i);
    }
  }

  lemma {:induction false} TotalNonnegative(s: seq<real>)
    requires forall j :: 0 <= j < |s| ==> s[j] >= 0.0
    ensures Total(s) >= 0.0
  {
    if s != [] {
      TotalNonnegative(s[..|s| - 1]);
    }
  }

  lemma TotalSnoc(s: seq<real>, x: real)
    ensures Total(s + [x]) == Total(s) + x
  {
    assert (s + [x])[..|s|] == s;
  }

  lemma NoTotal()
    ensures Total([]) == 0.0
  {}

  lemma {:induction false} TotalCons(s: seq<real>)
    requires s != []
    ensures Total(s) == s[0] + Total(s[1..])
  {
    if |s| > 1 {
      TotalCons(s[..|s| - 1]);
      assert s[..|s| - 1][1..] == s[1..][..|s| - 2];
    } else {
      assert s[..0] == [] && s[1..] == [];
    }
  }

  lemma {:induction false} TotalAdds(a: seq<real>, b: seq<real>, c: seq<real>)
    requires |a| == |b| == |c| && forall i :: 0 <= i < |a| ==> c[i] == a[i] + b[i]
    ensures Total(c) == Total(a) + Total(b)
  {
    if a != [] {
      var n := |a| - 1;
      TotalAdds(a[..n], b[..n], c[..n]);
    }
  }

  lemma {:induction false} AllZero(s: seq<real>)
    requires forall i :: 0 <= i < |s| ==> s[i] == 0.0
    ensures Total(s) == 0.0
  {
    if s != [] {
      AllZero(s[..|s| - 1]);
    }
  }

  // ---- products

  /** The product, for proofs in which it should stay closed. */
  function Times(a: real, b: real): real { a * b }

  lemma TimesSum(f: real, a: real, b: real)
    ensures Times(f, a + b) == Times(f, a) + Times(f, b) && Times(b, f) == Times(f, b)
  {}

  lemma NonnegativeProduct(a: real, b: real)
    requires a >= 0.0 && b >= 0.0
    ensures Times(a, b) >= 0.0 && a * b >= 0.0
  {}

  lemma PositiveProduct(a: real, b: real)
    requires a > 0.0 && b > 0.0
    ensures Times(a, b) > 0.0
  {}

  lemma NegativeProduct(a: real, b: real)
    requires a > 0.0 && b < 0.0
    ensures a * b < 0.0
  {}

  /** A share below one of something at most the bound stays below the bound. */
  lemma ProperPart(f: real, x: real, bound: real)
    requires 0.0 <= f < 1.0 && 0.0 <= x <= bound && bound > 0.0
    ensures 0.0 <= Times(f, x) < bound && Times(f, x) <= x
  {
    NonnegativeProduct(f, x);
    if x > 0.0 {
      PositiveProduct(1.0 - f, x);
    }
  }

  // ---- powers

  function Pow(x: real, n: nat): real { if n == 0 then 1.0 else Times(Pow(x, n - 1), x) }

  /** Powers of a fraction are fractions. */
  lemma {:induction false} PowFraction(x: real, n: nat)
    requires 0.0 < x <= 1.0
    ensures 0.0 < Pow(x, n) <= 1.0
  {
    if n > 0 {
      PowFraction(x, n - 1);
      PositiveProduct(Pow(x, n - 1), x);
      NonnegativeProduct(Pow(x, n - 1), 1.0 - x);
    }
  }

  lemma {:induction false} PowSum(x: real, m: nat, n: nat)
    ensures Pow(x, m + n) == Times(Pow(x, m), Pow(x, n))
  {
    if n > 0 {
      PowSum(x, m, n - 1);
      TimesAssociates(Pow(x, m), Pow(x, n - 1), x);
    }
  }

  lemma TimesAssociates(a: real, b: real, c: real)
    ensures Times(Times(a, b), c) == Times(a, Times(b, c))
  {}
}
