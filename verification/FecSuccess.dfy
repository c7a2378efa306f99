/** The exact success probability over a two-state loss chain. */
module FecSuccess {
  import opened Basics
  import opened RealSums

  // ---- the channel and its paths (true = bad state, the symbol is lost)

  type Path = seq<bool>

  datatype Chain = Chain(p: real, q: real)

  ghost predicate IsChain(c: Chain) { 0.0 < c.p <= 1.0 && 0.0 < c.q <= 1.0 }

  ghost function BadShare(c: Chain): real
    requires IsChain(c)
  {
    c.p / (c.p + c.q)
  }

  function Step(c: Chain, a: bool, b: bool): real {
    if a then (if b then 1.0 - c.q else c.q) else (if b then c.p else 1.0 - c.p)
  }

  /** Mass arriving in state b from masses in the good and the bad state. */
  function Moved(c: Chain, good: real, bad: real, b: bool): real {
    Times(good, Step(c, false, b)) + Times(bad, Step(c, true, b))
  }

  ghost function Extended(ps: seq<Path>, b: bool): (r: seq<Path>)
    ensures |r| == |ps| && forall i :: 0 <= i < |ps| ==> r[i] == ps[i] + [b]
  {
    seq(|ps|, i requires 0 <= i < |ps| => ps[i] + [b])
  }

  /** Every state sequence of n slots, the state before the first slot included. */
  ghost function AllPaths(n: nat): (r: seq<Path>)
    ensures forall i :: 0 <= i < |r| ==> |r[i]| == n + 1
  {
    if n == 0 then [[false], [true]]
    else Extended(AllPaths(n - 1), false) + Extended(AllPaths(n - 1), true)
  }

  ghost function Last(s: Path): bool
    requires s != []
  {
    s[|s| - 1]
  }

  ghost function Init(s: Path): Path
    requires s != []
  {
    s[..|s| - 1]
  }

  ghost function Weight(c: Chain, s: Path): real
    requires IsChain(c) && s != []
  {
    if |s| == 1 then (if s[0] then BadShare(c) else 1.0 - BadShare(c))
    else Times(Weight(c, Init(s)), Step(c, Last(Init(s)), Last(s)))
  }

  // ---- the interleaved wire

  datatype Wire = Wire(sources: nat, repairs: nat)

  function Slots(w: Wire): nat { w.sources + w.repairs }

  lemma Nonnegative(a: nat, b: nat)
    ensures a * b >= 0
  {}

  /** Repairs among the first i slots. */
  function RepairsBefore(w: Wire, i: nat): nat
    requires Slots(w) > 0
  {
    Nonnegative(i, w.repairs);
    i * w.repairs / Slots(w)
  }

  predicate IsRepair(w: Wire, i: nat)
    requires Slots(w) > 0
  {
    RepairsBefore(w, i + 1) > RepairsBefore(w, i)
  }

  /** What slot i adds to the deficit when it sees state b. */
  function Shift(w: Wire, i: nat, b: bool): int
    requires Slots(w) > 0
  {
    if IsRepair(w, i) then (if b then 0 else -1) else (if b then 1 else 0)
  }

  /** Source losses minus surviving repairs. */
  ghost function Deficit(w: Wire, s: Path): int
    requires Slots(w) > 0 && s != []
  {
    if |s| == 1 then 0 else Deficit(w, Init(s)) + Shift(w, |s| - 2, Last(s))
  }

  // ---- sums over paths

  ghost predicate Started(ps: seq<Path>) { forall i :: 0 <= i < |ps| ==> ps[i] != [] }

  ghost function Mass(c: Chain, w: Wire, ps: seq<Path>, b: bool, d: int): real
    requires IsChain(c) && Slots(w) > 0 && Started(ps)
  {
    if ps == [] then 0.0
    else
      var s := ps[|ps| - 1];
      Mass(c, w, ps[..|ps| - 1], b, d) + (if Last(s) == b && Deficit(w, s) == d then Weight(c, s) else 0.0)
  }

  /** Probability that the source losses do not exceed the surviving repairs, over the listed paths. */
  ghost function Success(c: Chain, w: Wire, ps: seq<Path>): real
    requires IsChain(c) && Slots(w) > 0 && Started(ps)
  {
    if ps == [] then 0.0
    else
      var s := ps[|ps| - 1];
      Success(c, w, ps[..|ps| - 1]) + (if Deficit(w, s) <= 0 then Weight(c, s) else 0.0)
  }

  ghost function Failure(c: Chain, w: Wire, ps: seq<Path>): real
    requires IsChain(c) && Slots(w) > 0 && Started(ps)
  {
    if ps == [] then 0.0
    else
      var s := ps[|ps| - 1];
      Failure(c, w, ps[..|ps| - 1]) + (if Deficit(w, s) > 0 then Weight(c, s) else 0.0)
  }

  lemma ExtendedFacts(c: Chain, w: Wire, s: Path, b: bool)
    requires IsChain(c) && Slots(w) > 0 && s != []
    ensures Weight(c, s + [b]) == Times(Weight(c, s), Step(c, Last(s), b))
    ensures Deficit(w, s + [b]) == Deficit(w, s) + Shift(w, |s| - 1, b)
    ensures Last(s + [b]) == b
  {
    hide Step, Shift, BadShare, Times;
    assert Init(s + [b]) == s;
  }

  lemma {:induction false} MassAppend(c: Chain, w: Wire, a: seq<Path>, b: seq<Path>, t: bool, d: int)
    requires IsChain(c) && Slots(w) > 0 && Started(a) && Started(b)
    ensures Started(a + b) && Mass(c, w, a + b, t, d) == Mass(c, w, a, t, d) + Mass(c, w, b, t, d)
  {
    if b == [] {
      assert a + b == a;
    } else {
      MassAppend(c, w, a, b[..|b| - 1], t, d);
      assert (a + b)[..|a + b| - 1] == a + b[..|b| - 1];
      assert (a + b)[|a + b| - 1] == b[|b| - 1];
    }
  }

  lemma Distribute(a: real, b: real, t: real)
    ensures Times(a + b, t) == Times(a, t) + Times(b, t) && Times(0.0, t) == 0.0
  {}

  /** The transfer step: mass moves from either state, shifted by what the slot does to the deficit. */
  lemma {:induction false} MassExtended(c: Chain, w: Wire, ps: seq<Path>, n: nat, b: bool, t: bool, d: int)
    requires IsChain(c) && Slots(w) > 0 && forall i :: 0 <= i < |ps| ==> |ps[i]| == n + 1
    ensures Started(ps) && Started(Extended(ps, b))
    ensures Mass(c, w, Extended(ps, b), t, d) ==
      (if t != b then 0.0
       else Moved(c, Mass(c, w, ps, false, d - Shift(w, n, b)), Mass(c, w, ps, true, d - Shift(w, n, b)), b))
  {
    hide Step, Shift, Weight, Deficit, Times;
    Distribute(0.0, 0.0, Step(c, false, b));
    Distribute(0.0, 0.0, Step(c, true, b));
    if ps != [] {
      var m := |ps| - 1;
      Distribute(Mass(c, w, ps[..m], false, d - Shift(w, n, b)), Weight(c, ps[m]), Step(c, false, b));
      Distribute(Mass(c, w, ps[..m], true, d - Shift(w, n, b)), Weight(c, ps[m]), Step(c, true, b));
      MassExtended(c, w, ps[..m], n, b, t, d);
      assert Extended(ps, b)[..m] == Extended(ps[..m], b);
      ExtendedFacts(c, w, ps[m], b);
    }
  }

  lemma AllPathsStep(n: nat)
    ensures AllPaths(n + 1) == Extended(AllPaths(n), false) + Extended(AllPaths(n), true)
  {}

  lemma MassStep(c: Chain, w: Wire, n: nat, b: bool, d: int)
    requires IsChain(c) && Slots(w) > 0
    ensures Mass(c, w, AllPaths(n + 1), b, d)
      == Moved(c, Mass(c, w, AllPaths(n), false, d - Shift(w, n, b)),
          Mass(c, w, AllPaths(n), true, d - Shift(w, n, b)), b)
  {
    hide Moved, Shift, AllPaths, Mass, Extended;
    var ps := AllPaths(n);
    AllPathsStep(n);
    MassExtended(c, w, ps, n, false, b, d);
    MassExtended(c, w, ps, n, true, b, d);
    MassAppend(c, w, Extended(ps, false), Extended(ps, true), b, d);
  }

  // ---- where repairs fall

  lemma DivStep(a: nat, r: nat, n: nat)
    requires 0 < n && r <= n
    ensures a / n <= (a + r) / n <= a / n + 1
  {
    var k := a / n;
    QuotientBounds(a, n);
    if a + r < k * n + n {
      QuotientUnique(a + r, n, k);
    } else {
      assert (k + 1) * n == k * n + n;
      QuotientUnique(a + r, n, k + 1);
    }
  }

  /** Slot by slot, exactly floor(iR/N) of the first i slots are repairs. */
  lemma RepairStep(w: Wire, i: nat)
    requires Slots(w) > 0
    ensures RepairsBefore(w, i + 1) == RepairsBefore(w, i) + (if IsRepair(w, i) then 1 else 0)
    ensures RepairsBefore(w, i) * Slots(w) <= i * w.repairs < RepairsBefore(w, i) * Slots(w) + Slots(w)
  {
    Nonnegative(i, w.repairs);
    QuotientBounds(i * w.repairs, Slots(w));
    assert (i + 1) * w.repairs == i * w.repairs + w.repairs;
    DivStep(i * w.repairs, w.repairs, Slots(w));
  }

  lemma DivExact(r: nat, n: nat)
    requires n > 0
    ensures n * r / n == r
  {
    assert r * n == n * r;
    QuotientUnique(n * r, n, r);
  }

  lemma RepairEnds(w: Wire)
    requires Slots(w) > 0
    ensures RepairsBefore(w, 0) == 0 && RepairsBefore(w, Slots(w)) == w.repairs
  {
    DivExact(w.repairs, Slots(w));
  }

  lemma {:induction false} RepairBounds(w: Wire, i: nat, j: nat)
    requires Slots(w) > 0 && i <= j
    ensures RepairsBefore(w, i) <= RepairsBefore(w, j) <= RepairsBefore(w, i) + (j - i)
    decreases j - i
  {
    hide RepairsBefore, IsRepair;
    if i < j {
      RepairBounds(w, i, j - 1);
      RepairStep(w, j - 1);
    }
  }

  lemma {:induction false} DeficitBounds(w: Wire, s: Path)
    requires Slots(w) > 0 && s != []
    ensures -(RepairsBefore(w, |s| - 1) as int) <= Deficit(w, s) <= |s| - 1 - RepairsBefore(w, |s| - 1)
  {
    hide RepairsBefore, IsRepair;
    if |s| == 1 {
      RepairEnds(w);
    } else {
      DeficitBounds(w, Init(s));
      RepairStep(w, |s| - 2);
    }
  }

  lemma {:induction false} MassOutside(c: Chain, w: Wire, ps: seq<Path>, n: nat, b: bool, d: int)
    requires IsChain(c) && Slots(w) > 0 && forall i :: 0 <= i < |ps| ==> |ps[i]| == n + 1
    requires d < -(RepairsBefore(w, n) as int) || d > n - RepairsBefore(w, n)
    ensures Started(ps) && Mass(c, w, ps, b, d) == 0.0
  {
    hide RepairsBefore, Deficit, Weight;
    if ps != [] {
      MassOutside(c, w, ps[..|ps| - 1], n, b, d);
      DeficitBounds(w, ps[|ps| - 1]);
    }
  }

  // ---- total and stationary mass

  ghost function StateMass(c: Chain, ps: seq<Path>, b: bool): real
    requires IsChain(c) && Started(ps)
  {
    if ps == [] then 0.0
    else StateMass(c, ps[..|ps| - 1], b) + (if Last(ps[|ps| - 1]) == b then Weight(c, ps[|ps| - 1]) else 0.0)
  }

  lemma {:induction false} StateMassAppend(c: Chain, a: seq<Path>, b: seq<Path>, t: bool)
    requires IsChain(c) && Started(a) && Started(b)
    ensures Started(a + b) && StateMass(c, a + b, t) == StateMass(c, a, t) + StateMass(c, b, t)
  {
    hide Weight;
    if b == [] {
      assert a + b == a;
    } else {
      StateMassAppend(c, a, b[..|b| - 1], t);
      assert (a + b)[..|a + b| - 1] == a + b[..|b| - 1];
      assert (a + b)[|a + b| - 1] == b[|b| - 1];
    }
  }

  lemma WeightExtended(c: Chain, s: Path, b: bool)
    requires IsChain(c) && s != []
    ensures Weight(c, s + [b]) == Times(Weight(c, s), Step(c, Last(s), b)) && Last(s + [b]) == b
  {
    hide Step, BadShare, Times;
    assert Init(s + [b]) == s;
  }

  lemma {:induction false} StateMassExtended(c: Chain, ps: seq<Path>, b: bool, t: bool)
    requires IsChain(c) && Started(ps)
    ensures Started(Extended(ps, b))
    ensures StateMass(c, Extended(ps, b), t)
      == if t != b then 0.0 else Moved(c, StateMass(c, ps, false), StateMass(c, ps, true), b)
  {
    hide Step, Weight, Times;
    Distribute(0.0, 0.0, Step(c, false, b));
    Distribute(0.0, 0.0, Step(c, true, b));
    if ps != [] {
      var m := |ps| - 1;
      StateMassExtended(c, ps[..m], b, t);
      assert Extended(ps, b)[..m] == Extended(ps[..m], b);
      WeightExtended(c, ps[m], b);
      Distribute(StateMass(c, ps[..m], false), Weight(c, ps[m]), Step(c, false, b));
      Distribute(StateMass(c, ps[..m], true), Weight(c, ps[m]), Step(c, true, b));
    }
  }

  lemma BalanceEquation(x: real, p: real, q: real)
    requires x * (p + q) == p
    ensures (1.0 - x) * p + x * (1.0 - q) == x && (1.0 - x) * (1.0 - p) + x * q == 1.0 - x
  {
    assert x * p + x * q == p;
    assert (1.0 - x) * p == p - x * p;
    assert x * (1.0 - q) == x - x * q;
    assert (1.0 - x) * (1.0 - p) == 1.0 - x - p + x * p;
  }

  lemma ProperShare(p: real, q: real)
    requires p > 0.0 && q > 0.0
    ensures 0.0 < p / (p + q) < 1.0 && p / (p + q) * (p + q) == p
  {}

  lemma Balance(c: Chain)
    requires IsChain(c)
    ensures Moved(c, 1.0 - BadShare(c), BadShare(c), true) == BadShare(c)
    ensures Moved(c, 1.0 - BadShare(c), BadShare(c), false) == 1.0 - BadShare(c)
    ensures 0.0 < BadShare(c) < 1.0
  {
    ProperShare(c.p, c.q);
    BalanceEquation(BadShare(c), c.p, c.q);
  }

  lemma StationaryStart(c: Chain)
    requires IsChain(c)
    ensures StateMass(c, AllPaths(0), true) == BadShare(c) && StateMass(c, AllPaths(0), false) == 1.0 - BadShare(c)
  {
    hide BadShare;
    assert AllPaths(0) == [[false]] + [[true]];
    forall b
      ensures StateMass(c, AllPaths(0), b) == StateMass(c, [[false]], b) + StateMass(c, [[true]], b)
    {
      StateMassAppend(c, [[false]], [[true]], b);
      OnePath(c, [false], b);
      OnePath(c, [true], b);
    }
  }

  lemma OnePath(c: Chain, s: Path, b: bool)
    requires IsChain(c) && s != []
    ensures StateMass(c, [s], b) == if Last(s) == b then Weight(c, s) else 0.0
  {
    assert [s][..0] == [];
  }

  lemma StateStep(c: Chain, n: nat, b: bool)
    requires IsChain(c)
    ensures StateMass(c, AllPaths(n + 1), b)
      == Moved(c, StateMass(c, AllPaths(n), false), StateMass(c, AllPaths(n), true), b)
  {
    hide Moved, AllPaths, StateMass, Extended;
    var ps := AllPaths(n);
    AllPathsStep(n);
    StateMassExtended(c, ps, false, b);
    StateMassExtended(c, ps, true, b);
    StateMassAppend(c, Extended(ps, false), Extended(ps, true), b);
  }

  /** The chain is stationary: at every slot the bad state has probability p / (p + q). */
  lemma {:induction false} Stationary(c: Chain, n: nat)
    requires IsChain(c)
    ensures StateMass(c, AllPaths(n), true) == BadShare(c) && StateMass(c, AllPaths(n), false) == 1.0 - BadShare(c)
  {
    hide BadShare, Moved, AllPaths, StateMass;
    if n == 0 {
      StationaryStart(c);
    } else {
      Stationary(c, n - 1);
      Balance(c);
      StateStep(c, n - 1, true);
      StateStep(c, n - 1, false);
    }
  }

  lemma {:induction false} SplitMass(c: Chain, w: Wire, ps: seq<Path>)
    requires IsChain(c) && Slots(w) > 0 && Started(ps)
    ensures Success(c, w, ps) + Failure(c, w, ps) == StateMass(c, ps, false) + StateMass(c, ps, true)
  {
    hide Weight, Deficit;
    if ps != [] {
      SplitMass(c, w, ps[..|ps| - 1]);
    }
  }

  lemma {:induction false} WeightNonnegative(c: Chain, s: Path)
    requires IsChain(c) && s != []
    ensures Weight(c, s) >= 0.0
  {
    if |s| == 1 {
      Balance(c);
    } else {
      WeightNonnegative(c, Init(s));
      NonnegativeProduct(Weight(c, Init(s)), Step(c, Last(Init(s)), Last(s)));
    }
  }

  lemma {:induction false} SharesNonnegative(c: Chain, w: Wire, ps: seq<Path>)
    requires IsChain(c) && Slots(w) > 0 && Started(ps)
    ensures Success(c, w, ps) >= 0.0 && Failure(c, w, ps) >= 0.0
  {
    hide Weight, Deficit;
    if ps != [] {
      SharesNonnegative(c, w, ps[..|ps| - 1]);
      WeightNonnegative(c, ps[|ps| - 1]);
    }
  }

  /** Success and failure partition the paths, so the final clamp has nothing to do. */
  lemma SharesSumToOne(c: Chain, w: Wire, n: nat)
    requires IsChain(c) && Slots(w) > 0
    ensures Success(c, w, AllPaths(n)) + Failure(c, w, AllPaths(n)) == 1.0
    ensures 0.0 <= Success(c, w, AllPaths(n)) <= 1.0
  {
    Stationary(c, n);
    SplitMass(c, w, AllPaths(n));
    SharesNonnegative(c, w, AllPaths(n));
  }

  // ---- the table of the dynamic program

  /** Cell k, state b of the table after i slots: deficit k - repairs. */
  ghost function Cell(c: Chain, w: Wire, i: nat, b: bool, k: int): real
    requires IsChain(c) && Slots(w) > 0
  {
    Mass(c, w, AllPaths(i), b, k - w.repairs)
  }

  lemma CellStep(c: Chain, w: Wire, i: nat, b: bool, k: int)
    requires IsChain(c) && Slots(w) > 0
    ensures Cell(c, w, i + 1, b, k)
      == Moved(c, Cell(c, w, i, false, k - Shift(w, i, b)), Cell(c, w, i, true, k - Shift(w, i, b)), b)
  {
    hide Moved, Shift, Mass, AllPaths;
    MassStep(c, w, i, b, k - w.repairs);
    assert (k - w.repairs) - Shift(w, i, b) == (k - Shift(w, i, b)) - w.repairs;
  }

  lemma CellOutside(c: Chain, w: Wire, i: nat, b: bool, k: int)
    requires IsChain(c) && Slots(w) > 0 && i <= Slots(w)
    requires k < 0 || k > w.sources + w.repairs
    ensures Cell(c, w, i, b, k) == 0.0
  {
    hide RepairsBefore, Mass, AllPaths;
    RepairBounds(w, i, Slots(w));
    RepairEnds(w);
    MassOutside(c, w, AllPaths(i), i, b, k - w.repairs);
  }

  /** Before a repair the lowest cell is empty, before a source the highest is: neither clip ever binds. */
  lemma ClipsNeverBind(c: Chain, w: Wire, i: nat, b: bool)
    requires IsChain(c) && Slots(w) > 0 && i < Slots(w)
    ensures IsRepair(w, i) ==> Cell(c, w, i, b, 0) == 0.0
    ensures !IsRepair(w, i) ==> Cell(c, w, i, b, w.sources + w.repairs) == 0.0
  {
    hide RepairsBefore, Mass, AllPaths;
    RepairStep(w, i);
    RepairBounds(w, i + 1, Slots(w));
    RepairEnds(w);
    if IsRepair(w, i) {
      MassOutside(c, w, AllPaths(i), i, b, 0 - w.repairs);
    } else {
      MassOutside(c, w, AllPaths(i), i, b, w.sources);
    }
  }

  lemma NothingMoves(c: Chain, b: bool)
    ensures Moved(c, 0.0, 0.0, b) == 0.0
  {}

  lemma StartCell(c: Chain, w: Wire, b: bool, k: int)
    requires IsChain(c) && Slots(w) > 0
    ensures Cell(c, w, 0, b, k) == if k != w.repairs then 0.0 else if b then BadShare(c) else 1.0 - BadShare(c)
  {
    hide BadShare;
    assert AllPaths(0) == [[false], [true]];
    var ps: seq<Path> := [[false], [true]];
    assert ps[..1] == [[false]] && [[false]][..0] == [];
    var d := k - w.repairs;
    assert Mass(c, w, [[false]], b, d) == if b || d != 0 then 0.0 else 1.0 - BadShare(c);
    assert Mass(c, w, ps, b, d) == Mass(c, w, [[false]], b, d) + (if b && d == 0 then BadShare(c) else 0.0);
  }

  ghost predicate Holds(f: array<(real, real)>, c: Chain, w: Wire, i: nat)
    requires IsChain(c) && Slots(w) > 0
    reads f
  {
    && f.Length == w.sources + w.repairs + 1
    && forall k :: 0 <= k < f.Length ==> f[k].0 == Cell(c, w, i, false, k) && f[k].1 == Cell(c, w, i, true, k)
  }

  /** What the sweep has put in cell k, state b of the next table once the cells below d were processed. */
  ghost function Swept(f: seq<(real, real)>, c: Chain, shift: int, b: bool, k: int, d: int): real {
    if 0 <= k - shift < d && k - shift < |f| then Moved(c, f[k - shift].0, f[k - shift].1, b) else 0.0
  }

  /** One wire slot: every cell's mass moves to its neighbours in the next table. */
  method Sweep(f: array<(real, real)>, next: array<(real, real)>, c: Chain, w: Wire, i: nat)
    requires IsChain(c) && Slots(w) > 0 && i < Slots(w)
    requires Holds(f, c, w, i) && next.Length == f.Length && next != f
    modifies next
    ensures Holds(next, c, w, i + 1)
  {
    hide Moved, Cell, RepairsBefore, BadShare;
    var dmax := f.Length;
    var isRepair := IsRepair(w, i);
    var good, bad := Shift(w, i, false), Shift(w, i, true);
    for k := 0 to dmax
      invariant forall j :: 0 <= j < k ==> next[j] == (0.0, 0.0)
    {
      next[k] := (0.0, 0.0);
    }
    ClipsNeverBind(c, w, i, false);
    ClipsNeverBind(c, w, i, true);
    NothingMoves(c, false);
    NothingMoves(c, true);
    for d := 0 to dmax
      invariant forall k :: 0 <= k < dmax ==>
        next[k].0 == Swept(f[..], c, good, false, k, d) && next[k].1 == Swept(f[..], c, bad, true, k, d)
    {
      var (fg, fb) := f[d];
      if !(fg == 0.0 && fb == 0.0) {
        var toGood, toBad := Moved(c, fg, fb, false), Moved(c, fg, fb, true);
        if isRepair {
          var low := if d >= 1 then d - 1 else 0;
          next[low] := (next[low].0 + toGood, next[low].1);
          next[d] := (next[d].0, next[d].1 + toBad);
        } else {
          next[d] := (next[d].0 + toGood, next[d].1);
          var high := if d + 1 <= dmax - 1 then d + 1 else dmax - 1;
          next[high] := (next[high].0, next[high].1 + toBad);
        }
      }
    }
    forall k | 0 <= k < dmax
      ensures next[k].0 == Cell(c, w, i + 1, false, k) && next[k].1 == Cell(c, w, i + 1, true, k)
    {
      CellStep(c, w, i, false, k);
      CellStep(c, w, i, true, k);
      if k - good >= dmax {
        CellOutside(c, w, i, false, k - good);
        CellOutside(c, w, i, true, k - good);
      }
      if k - bad < 0 {
        CellOutside(c, w, i, false, k - bad);
        CellOutside(c, w, i, true, k - bad);
      }
    }
  }

  // ---- the result

  /** Mass at deficits 1 to m. */
  ghost function Tail(c: Chain, w: Wire, ps: seq<Path>, m: nat): real
    requires IsChain(c) && Slots(w) > 0 && Started(ps)
  {
    if m == 0 then 0.0 else Tail(c, w, ps, m - 1) + (Mass(c, w, ps, false, m) + Mass(c, w, ps, true, m))
  }

  lemma {:induction false} TailSnoc(c: Chain, w: Wire, ps: seq<Path>, m: nat)
    requires IsChain(c) && Slots(w) > 0 && Started(ps)
    ensures ps == [] ==> Tail(c, w, ps, m) == 0.0
    ensures ps != [] ==>
      (Tail(c, w, ps, m)
        == Tail(c, w, ps[..|ps| - 1], m)
          + (if 1 <= Deficit(w, ps[|ps| - 1]) <= m then Weight(c, ps[|ps| - 1]) else 0.0))
  {
    hide Weight, Deficit;
    if m > 0 {
      TailSnoc(c, w, ps, m - 1);
    }
  }

  lemma {:induction false} TailIsFailure(c: Chain, w: Wire, ps: seq<Path>)
    requires IsChain(c) && Slots(w) > 0 && forall i :: 0 <= i < |ps| ==> |ps[i]| == Slots(w) + 1
    ensures Started(ps) && Tail(c, w, ps, w.sources) == Failure(c, w, ps)
  {
    hide Weight, Deficit, Mass, RepairsBefore;
    TailSnoc(c, w, ps, w.sources);
    if ps != [] {
      TailIsFailure(c, w, ps[..|ps| - 1]);
      DeficitBounds(w, ps[|ps| - 1]);
      RepairEnds(w);
    }
  }

  function Clamp(x: real, lo: real, hi: real): real { if x < lo then lo else if x > hi then hi else x }

  /** The nearest integer, halves going up. */
  function Round(x: real): (n: int)
    ensures n as real - 0.5 <= x < n as real + 0.5
  {
    (x + 0.5).Floor
  }

  /** The chain and the wire the parameters stand for. */
  function ChainOf(pGb: real, qBg: real): Chain {
    Chain(if pGb > 1.0 then 1.0 else pGb, Clamp(qBg, 0.000000001, 1.0))
  }

  function WireOf(r: real, windowSize: nat): Wire { Wire(windowSize, RepairsFor(r, windowSize)) }

  /** As many repairs as the rate asks for, to within one half; a negative rate asks for none. */
  function RepairsFor(r: real, windowSize: nat): (n: nat)
    ensures r >= 0.0 ==> n as real - 0.5 <= r * windowSize as real < n as real + 0.5
    ensures r <= 0.0 ==> n == 0
  {
    var rate := if r > 0.0 then r else 0.0;
    NonnegativeProduct(rate, windowSize as real);
    var n := Round(rate * windowSize as real);
    if n >= 0 then n else 0
  }

  /** The success probability, as a sum over all loss patterns. */
  ghost function FecSuccess(pGb: real, qBg: real, r: real, windowSize: nat): real {
    if windowSize == 0 || pGb <= 0.0 then 1.0
    else
      var w := WireOf(r, windowSize);
      Success(ChainOf(pGb, qBg), w, AllPaths(Slots(w)))
  }

  method PFecExact(pGb: real, qBg: real, r: real, windowSize: nat) returns (res: real)
    ensures res == FecSuccess(pGb, qBg, r, windowSize)
    ensures windowSize > 0 && pGb > 0.0 ==>
      var w := WireOf(r, windowSize);
      res == SlotSuccess(ChainOf(pGb, qBg), w, AllPaths(Slots(w) - 1))
    // for probabilities in range, the chain enters the bad state with pGb and leaves it with qBg
    ensures windowSize > 0 && 0.0 < pGb <= 1.0 && 0.000000001 <= qBg <= 1.0 ==>
      var n := RepairsFor(r, windowSize);
      res == SlotSuccess(Chain(pGb, qBg), Wire(windowSize, n), AllPaths(windowSize + n - 1))
    ensures windowSize == 1 && r <= 0.0 && 0.0 < pGb <= 1.0 && 0.000000001 <= qBg <= 1.0 ==>
      res == qBg / (pGb + qBg)
    ensures windowSize == 1 && r == 1.0 && 0.0 < pGb <= 1.0 && 0.000000001 <= qBg <= 1.0 ==>
      res == 1.0 - pGb / (pGb + qBg) * (1.0 - qBg)
    ensures 0.0 <= res <= 1.0
  {
    hide Cell, Success, SlotSuccess, Failure, AllPaths, BadShare, Tail, StateMass;
    if windowSize == 0 || pGb <= 0.0 {
      return 1.0;
    }
    var c, w := ChainOf(pGb, qBg), WireOf(r, windowSize);
    var n, off := Slots(w), w.repairs;
    var dmax := n + 1;
    var piB := c.p / (c.p + c.q);
    var f := new (real, real)[dmax](_ => (0.0, 0.0));
    f[off] := (1.0 - piB, piB);
    var next := new (real, real)[dmax](_ => (0.0, 0.0));
    forall k | 0 <= k < dmax
      ensures f[k].0 == Cell(c, w, 0, false, k) && f[k].1 == Cell(c, w, 0, true, k)
    {
      StartCell(c, w, false, k);
      StartCell(c, w, true, k);
      ShareIs(c);
    }
    for i := 0 to n
      invariant Holds(f, c, w, i) && next.Length == dmax && next != f && fresh(f) && fresh(next)
    {
      Sweep(f, next, c, w, i);
      f, next := next, f;
    }
    var pFail := 0.0;
    TailStep(c, w, n, 0);
    for k := off + 1 to dmax
      invariant Holds(f, c, w, n) && pFail == Tail(c, w, AllPaths(n), k - (off + 1))
    {
      ghost var m := k - (off + 1);
      TailStep(c, w, n, m);
      assert w.repairs + m + 1 == k && (k + 1) - (off + 1) == m + 1;
      pFail := pFail + (f[k].0 + f[k].1);
    }
    TailIsFailure(c, w, AllPaths(n));
    SharesSumToOne(c, w, n);
    res := Clamp(1.0 - pFail, 0.0, 1.0);
    SuccessMeans(pGb, qBg, r, windowSize);
  }

  /** The success probability over the states of the slots alone, and in closed form for a window of one source. */
  lemma SuccessMeans(pGb: real, qBg: real, r: real, windowSize: nat)
    requires windowSize > 0 && pGb > 0.0
    ensures var w := WireOf(r, windowSize);
      FecSuccess(pGb, qBg, r, windowSize) == SlotSuccess(ChainOf(pGb, qBg), w, AllPaths(Slots(w) - 1))
    ensures 0.0 < pGb <= 1.0 && 0.000000001 <= qBg <= 1.0 ==>
      var n := RepairsFor(r, windowSize);
      FecSuccess(pGb, qBg, r, windowSize)
        == SlotSuccess(Chain(pGb, qBg), Wire(windowSize, n), AllPaths(windowSize + n - 1))
    ensures windowSize == 1 && r <= 0.0 && 0.0 < pGb <= 1.0 && 0.000000001 <= qBg <= 1.0 ==>
      FecSuccess(pGb, qBg, r, windowSize) == qBg / (pGb + qBg)
    ensures windowSize == 1 && r == 1.0 && 0.0 < pGb <= 1.0 && 0.000000001 <= qBg <= 1.0 ==>
      FecSuccess(pGb, qBg, r, windowSize) == 1.0 - pGb / (pGb + qBg) * (1.0 - qBg)
  {
    hide Success, SlotSuccess, AllPaths;
    var c, w := ChainOf(pGb, qBg), WireOf(r, windowSize);
    SuccessOverSlots(c, w, Slots(w) - 1);
    SmallWires(c);
    RoundsToOne(r);
  }

  lemma ShareIs(c: Chain)
    requires IsChain(c)
    ensures BadShare(c) == c.p / (c.p + c.q)
  {}

  lemma TailStep(c: Chain, w: Wire, n: nat, m: nat)
    requires IsChain(c) && Slots(w) > 0
    ensures Tail(c, w, AllPaths(n), 0) == 0.0
    ensures Tail(c, w, AllPaths(n), m + 1)
      == Tail(c, w, AllPaths(n), m) + (Cell(c, w, n, false, w.repairs + m + 1) + Cell(c, w, n, true, w.repairs + m + 1))
  {
    hide Mass, AllPaths;
    assert (w.repairs + m + 1) - w.repairs == m + 1;
  }

  // ---- the state before the first slot summed out

  /** Source losses minus surviving repairs when slot i sees state t[i]. */
  ghost function SlotDeficit(w: Wire, t: Path): int
    requires Slots(w) > 0 && t != []
  {
    (if |t| == 1 then 0 else SlotDeficit(w, Init(t))) + Shift(w, |t| - 1, Last(t))
  }

  /** Success as a sum over states of the slots alone, the first one stationary. */
  ghost function SlotSuccess(c: Chain, w: Wire, ts: seq<Path>): real
    requires IsChain(c) && Slots(w) > 0 && Started(ts)
  {
    if ts == [] then 0.0
    else
      var t := ts[|ts| - 1];
      SlotSuccess(c, w, ts[..|ts| - 1]) + (if SlotDeficit(w, t) <= 0 then Weight(c, t) else 0.0)
  }

  /** Every sequence with either state put before it. */
  ghost function Preceded(ts: seq<Path>): (r: seq<Path>)
    ensures Started(r)
  {
    if ts == [] then []
    else Preceded(ts[..|ts| - 1]) + [[false] + ts[|ts| - 1], [true] + ts[|ts| - 1]]
  }

  lemma {:induction false} PrecededAppend(a: seq<Path>, b: seq<Path>)
    ensures Preceded(a + b) == Preceded(a) + Preceded(b)
  {
    if b == [] {
      assert a + b == a;
    } else {
      var last := |b| - 1;
      PrecededAppend(a, b[..last]);
      assert (a + b)[..|a + b| - 1] == a + b[..last] && (a + b)[|a + b| - 1] == b[last];
    }
  }

  lemma {:induction false} PrecededExtended(ts: seq<Path>, b: bool)
    ensures Preceded(Extended(ts, b)) == Extended(Preceded(ts), b)
  {
    if ts != [] {
      var last := |ts| - 1;
      PrecededExtended(ts[..last], b);
      assert Extended(ts, b)[..last] == Extended(ts[..last], b);
      assert forall a: bool :: [a] + (ts[last] + [b]) == [a] + ts[last] + [b];
    }
  }

  lemma PrecededOne(t: Path)
    ensures Preceded([t]) == [[false] + t, [true] + t]
  {
    assert [t][..0] == [];
  }

  lemma OneSlotPreceded()
    ensures AllPaths(1) == Preceded(AllPaths(0))
  {
    AllPathsStep(0);
    assert AllPaths(0) == [[false]] + [[true]];
    hide Preceded;
    PrecededAppend([[false]], [[true]]);
    PrecededOne([false]);
    PrecededOne([true]);
    forall b: bool
      ensures Extended(AllPaths(0), b) == [[false, b], [true, b]]
    {
      assert [false] + [b] == [false, b] && [true] + [b] == [true, b];
    }
    assert [false] + [false] == [false, false] && [true] + [false] == [true, false];
    assert [false] + [true] == [false, true] && [true] + [true] == [true, true];
  }

  /** One state more in front is one state more behind. */
  lemma {:induction false} AllPathsPreceded(n: nat)
    ensures AllPaths(n + 1) == Preceded(AllPaths(n))
  {
    hide AllPaths, Extended, Preceded;
    if n == 0 {
      OneSlotPreceded();
    } else {
      var ps := AllPaths(n - 1);
      AllPathsStep(n);
      AllPathsPreceded(n - 1);
      AllPathsStep(n - 1);
      PrecededExtended(ps, false);
      PrecededExtended(ps, true);
      PrecededAppend(Extended(ps, false), Extended(ps, true));
    }
  }

  /** Summing out the state in front leaves the weight of the rest, and the deficit never depended on it. */
  lemma {:induction false} SummedOut(c: Chain, w: Wire, t: Path)
    requires IsChain(c) && Slots(w) > 0 && t != []
    ensures Weight(c, [false] + t) + Weight(c, [true] + t) == Weight(c, t)
    ensures Deficit(w, [false] + t) == Deficit(w, [true] + t) == SlotDeficit(w, t)
  {
    hide Step, BadShare, Times, Shift;
    if |t| == 1 {
      assert t == [Last(t)];
      FrontWeight(c, false, t);
      FrontWeight(c, true, t);
      Balance(c);
    } else {
      SummedOut(c, w, Init(t));
      forall a: bool
        ensures Weight(c, [a] + t) == Times(Weight(c, [a] + Init(t)), Step(c, Last(Init(t)), Last(t)))
        ensures Deficit(w, [a] + t) == Deficit(w, [a] + Init(t)) + Shift(w, |t| - 1, Last(t))
      {
        assert Init([a] + t) == [a] + Init(t);
      }
      Distribute(Weight(c, [false] + Init(t)), Weight(c, [true] + Init(t)), Step(c, Last(Init(t)), Last(t)));
    }
  }

  lemma FrontWeight(c: Chain, a: bool, t: Path)
    requires IsChain(c) && |t| == 1
    ensures Weight(c, [a] + t) == Times(if a then BadShare(c) else 1.0 - BadShare(c), Step(c, a, t[0]))
  {
    hide Step, BadShare, Times;
    assert Init([a] + t) == [a];
  }

  lemma {:induction false} SuccessPreceded(c: Chain, w: Wire, ts: seq<Path>)
    requires IsChain(c) && Slots(w) > 0 && Started(ts)
    ensures Success(c, w, Preceded(ts)) == SlotSuccess(c, w, ts)
  {
    hide Weight, Deficit, SlotDeficit;
    if ts != [] {
      var last := |ts| - 1;
      var more := Preceded(ts);
      SuccessPreceded(c, w, ts[..last]);
      SummedOut(c, w, ts[last]);
      assert more[..|more| - 1][..|more| - 2] == Preceded(ts[..last]);
      assert more[|more| - 1] == [true] + ts[last] && more[..|more| - 1][|more| - 2] == [false] + ts[last];
    }
  }

  /** The success probability is the sum over the states of the slots themselves. */
  lemma SuccessOverSlots(c: Chain, w: Wire, n: nat)
    requires IsChain(c) && Slots(w) > 0
    ensures Success(c, w, AllPaths(n + 1)) == SlotSuccess(c, w, AllPaths(n))
  {
    hide Success, SlotSuccess, AllPaths, Preceded;
    AllPathsPreceded(n);
    SuccessPreceded(c, w, AllPaths(n));
  }

  // ---- what it comes to on the smallest wires

  lemma RoundsToOne(r: real)
    ensures r == 1.0 ==> RepairsFor(r, 1) == 1
  {}

  lemma SmallSlots(w: Wire)
    requires w == Wire(1, 0) || w == Wire(1, 1)
    ensures !IsRepair(w, 0) && (w.repairs == 1 ==> IsRepair(w, 1))
  {}

  lemma OneSlotWeights(c: Chain)
    requires IsChain(c)
    ensures Weight(c, [true]) == c.p / (c.p + c.q) && Weight(c, [false]) == c.q / (c.p + c.q)
  {
    ProperShare(c.p, c.q);
    Complement(c.p, c.q);
  }

  lemma Complement(a: real, b: real)
    requires a > 0.0 && b > 0.0
    ensures 1.0 - a / (a + b) == b / (a + b)
  {
    assert a / (a + b) + b / (a + b) == (a + b) / (a + b);
  }

  lemma TwoSlotWeight(c: Chain, a: bool, b: bool)
    requires IsChain(c)
    ensures Weight(c, [a, b]) == Times(Weight(c, [a]), Step(c, a, b))
  {
    hide Times, Step, BadShare;
    assert Init([a, b]) == [a];
  }

  lemma TwoSlotWeights(c: Chain)
    requires IsChain(c)
    ensures Weight(c, [true, true]) == Times(c.p / (c.p + c.q), 1.0 - c.q)
    ensures Weight(c, [false, false]) + Weight(c, [false, true]) + Weight(c, [true, false]) + Weight(c, [true, true])
      == 1.0
  {
    hide Weight;
    OneSlotWeights(c);
    Complement(c.p, c.q);
    forall a: bool
      ensures Weight(c, [a, false]) + Weight(c, [a, true]) == Weight(c, [a])
    {
      TwoSlotWeight(c, a, false);
      TwoSlotWeight(c, a, true);
    }
    TwoSlotWeight(c, true, true);
  }

  lemma SlotSuccessSnoc(c: Chain, w: Wire, ts: seq<Path>, t: Path)
    requires IsChain(c) && Slots(w) > 0 && Started(ts) && t != []
    ensures SlotSuccess(c, w, ts + [t])
      == SlotSuccess(c, w, ts) + (if SlotDeficit(w, t) <= 0 then Weight(c, t) else 0.0)
  {
    assert (ts + [t])[..|ts|] == ts;
  }

  lemma OneSlotDeficit(w: Wire, b: bool)
    requires Slots(w) > 0
    ensures SlotDeficit(w, [b]) == Shift(w, 0, b)
  {}

  lemma TwoSlotDeficit(w: Wire, a: bool, b: bool)
    requires Slots(w) > 0
    ensures SlotDeficit(w, [a, b]) == Shift(w, 0, a) + Shift(w, 1, b)
  {
    hide Shift;
    assert Init([a, b]) == [a];
  }

  lemma OneSource(c: Chain)
    requires IsChain(c)
    ensures SlotSuccess(c, Wire(1, 0), AllPaths(0)) == c.q / (c.p + c.q)
  {
    hide Weight, SlotDeficit, SlotSuccess;
    var w := Wire(1, 0);
    SmallSlots(w);
    OneSlotWeights(c);
    OneSlotDeficit(w, false);
    OneSlotDeficit(w, true);
    assert SlotSuccess(c, w, []) == 0.0 by { NoSlots(c, w); }
    SlotSuccessSnoc(c, w, [], [false]);
    SlotSuccessSnoc(c, w, [[false]], [true]);
    assert [] + [[false]] == [[false]] && [[false]] + [[true]] == AllPaths(0);
  }

  lemma NoSlots(c: Chain, w: Wire)
    requires IsChain(c) && Slots(w) > 0
    ensures SlotSuccess(c, w, []) == 0.0
  {}

  lemma TwoSlotPaths()
    ensures AllPaths(1) == [[false, false], [true, false], [false, true], [true, true]]
  {
    assert [false] + [false] == [false, false] && [true] + [false] == [true, false];
    assert [false] + [true] == [false, true] && [true] + [true] == [true, true];
    AllPathsStep(0);
  }

  lemma SourceAndRepair(c: Chain)
    requires IsChain(c)
    ensures SlotSuccess(c, Wire(1, 1), AllPaths(1)) == 1.0 - c.p / (c.p + c.q) * (1.0 - c.q)
  {
    hide Weight, SlotDeficit, SlotSuccess, AllPaths;
    var w := Wire(1, 1);
    SmallSlots(w);
    TwoSlotWeights(c);
    TwoSlotDeficit(w, false, false);
    TwoSlotDeficit(w, true, false);
    TwoSlotDeficit(w, false, true);
    TwoSlotDeficit(w, true, true);
    NoSlots(c, w);
    SlotSuccessSnoc(c, w, [], [false, false]);
    SlotSuccessSnoc(c, w, [[false, false]], [true, false]);
    SlotSuccessSnoc(c, w, [[false, false], [true, false]], [false, true]);
    SlotSuccessSnoc(c, w, [[false, false], [true, false], [false, true]], [true, true]);
    TwoSlotPaths();
    assert [] + [[false, false]] == [[false, false]];
    assert [[false, false]] + [[true, false]] == [[false, false], [true, false]];
    assert [[false, false], [true, false]] + [[false, true]] == [[false, false], [true, false], [false, true]];
    assert [[false, false], [true, false], [false, true]] + [[true, true]] == AllPaths(1);
  }

  /**
   * One source alone gets through when the stationary chain is in the good state; with one repair behind it, unless the
   * bad state meets the source and stays for the repair.
   */
  lemma SmallWires(c: Chain)
    requires IsChain(c)
    ensures SlotSuccess(c, Wire(1, 0), AllPaths(0)) == c.q / (c.p + c.q)
    ensures SlotSuccess(c, Wire(1, 1), AllPaths(1)) == 1.0 - c.p / (c.p + c.q) * (1.0 - c.q)
  {
    hide SlotSuccess, AllPaths;
    OneSource(c);
    SourceAndRepair(c);
  }

  /** Probabilities out of range count as the nearest ones in range. */
  lemma ClampedAlike(pGb: real, qBg: real, r: real, windowSize: nat)
    ensures pGb > 1.0 ==> FecSuccess(pGb, qBg, r, windowSize) == FecSuccess(1.0, qBg, r, windowSize)
    ensures qBg > 1.0 ==> FecSuccess(pGb, qBg, r, windowSize) == FecSuccess(pGb, 1.0, r, windowSize)
    ensures qBg < 0.000000001 ==> FecSuccess(pGb, qBg, r, windowSize) == FecSuccess(pGb, 0.000000001, r, windowSize)
  {
    hide Success, AllPaths;
  }

  // ---- the minimal rate

  ghost function Fail(pGb: real, qBg: real, r: real, windowSize: nat): real {
    1.0 - FecSuccess(pGb, qBg, r, windowSize)
  }

  /** Bisection on the rate. No monotonicity of the failure probability is needed for the rate to meet the target. */
  method ComputeRStarExact(pGb: real, qBg: real, windowSize: nat, delta: real) returns (r: real)
    ensures windowSize == 0 || pGb <= 0.0 ==> r == 0.0
    ensures windowSize > 0 && pGb > 0.0 ==>
      && 0.0 < r <= 2.0
      && (r == 2.0 || Fail(pGb, qBg, r, windowSize) <= delta)
      && (Fail(pGb, qBg, 2.0, windowSize) > delta ==> r == 2.0)
      && (Fail(pGb, qBg, 2.0, windowSize) <= delta ==>
        Fail(pGb, qBg, r, windowSize) <= delta && Bracketed(pGb, qBg, windowSize, delta, r))
  {
    hide FecSuccess, Halves, SlotSuccess, WireOf, ChainOf, AllPaths;
    if windowSize == 0 || pGb <= 0.0 {
      return 0.0;
    }
    var hi := 2.0;
    var p := PFecExact(pGb, qBg, hi, windowSize);
    if 1.0 - p > delta {
      return hi;
    }
    var lo := 0.0;
    HalvesStart();
    for k := 0 to 40
      invariant 0.0 <= lo < hi <= 2.0 && hi - lo == Halves(k)
      invariant Fail(pGb, qBg, hi, windowSize) <= delta
      invariant lo == 0.0 || Fail(pGb, qBg, lo, windowSize) > delta
    {
      var mid := (lo + hi) / 2.0;
      p := PFecExact(pGb, qBg, mid, windowSize);
      HalvesStep(k);
      if 1.0 - p > delta {
        lo := mid;
      } else {
        hi := mid;
      }
    }
    r := hi;
    assert lo == r - Halves(40);
  }

  /** The width of the search interval after k halvings. */
  function Halves(k: nat): real { if k == 0 then 2.0 else Halves(k - 1) / 2.0 }

  lemma HalvesStart()
    ensures Halves(0) == 2.0
  {}

  lemma HalvesStep(k: nat)
    ensures Halves(k + 1) == Halves(k) / 2.0
  {}

  /** Just below the rate, by one search interval, the target was missed (or the rate was zero). */
  ghost predicate Bracketed(pGb: real, qBg: real, windowSize: nat, delta: real, r: real) {
    r - Halves(40) == 0.0 || Fail(pGb, qBg, r - Halves(40), windowSize) > delta
  }

  // ---- the mean deficit

  ghost function MeanBy(c: Chain, w: Wire, ps: seq<Path>, b: bool): real
    requires IsChain(c) && Slots(w) > 0 && Started(ps)
  {
    if ps == [] then 0.0
    else
      var s := ps[|ps| - 1];
      MeanBy(c, w, ps[..|ps| - 1], b) + (if Last(s) == b then Times(Weight(c, s), Deficit(w, s) as real) else 0.0)
  }

  lemma {:induction false} MeanAppend(c: Chain, w: Wire, a: seq<Path>, b: seq<Path>, t: bool)
    requires IsChain(c) && Slots(w) > 0 && Started(a) && Started(b)
    ensures Started(a + b) && MeanBy(c, w, a + b, t) == MeanBy(c, w, a, t) + MeanBy(c, w, b, t)
  {
    hide Weight, Deficit;
    if b == [] {
      assert a + b == a;
    } else {
      MeanAppend(c, w, a, b[..|b| - 1], t);
      assert (a + b)[..|a + b| - 1] == a + b[..|b| - 1];
      assert (a + b)[|a + b| - 1] == b[|b| - 1];
    }
  }

  lemma MeanTerm(x: real, t: real, d: real, e: real)
    ensures Times(Times(x, t), d + e) == Times(Times(x, d), t) + Times(Times(x, t), e)
  {
    assert (x * t) * (d + e) == (x * t) * d + (x * t) * e;
    assert (x * t) * d == (x * d) * t;
  }

  lemma {:induction false} MeanExtended(c: Chain, w: Wire, ps: seq<Path>, n: nat, b: bool, t: bool)
    requires IsChain(c) && Slots(w) > 0 && forall i :: 0 <= i < |ps| ==> |ps[i]| == n + 1
    ensures Started(ps) && Started(Extended(ps, b))
    ensures t != b ==> MeanBy(c, w, Extended(ps, b), t) == 0.0
    ensures t == b ==>
      (MeanBy(c, w, Extended(ps, b), t)
        == Moved(c, MeanBy(c, w, ps, false), MeanBy(c, w, ps, true), b)
          + Times(Moved(c, StateMass(c, ps, false), StateMass(c, ps, true), b), Shift(w, n, b) as real))
  {
    hide Step, Shift, Weight, Deficit, Times;
    var e := Shift(w, n, b) as real;
    Distribute(0.0, 0.0, Step(c, false, b));
    Distribute(0.0, 0.0, Step(c, true, b));
    Distribute(0.0, 0.0, e);
    if ps != [] {
      var m := |ps| - 1;
      var s := ps[m];
      MeanExtended(c, w, ps[..m], n, b, t);
      assert Extended(ps, b)[..m] == Extended(ps[..m], b);
      ExtendedFacts(c, w, s, b);
      var x, d, st := Weight(c, s), Deficit(w, s) as real, Step(c, Last(s), b);
      MeanTerm(x, st, d, e);
      Distribute(MeanBy(c, w, ps[..m], Last(s)), Times(x, d), st);
      Distribute(StateMass(c, ps[..m], Last(s)), x, st);
      Distribute(Moved(c, StateMass(c, ps[..m], false), StateMass(c, ps[..m], true), b), Times(x, st), e);
      assert StateMass(c, ps, Last(s)) == StateMass(c, ps[..m], Last(s)) + x;
      assert StateMass(c, ps, !Last(s)) == StateMass(c, ps[..m], !Last(s));
      assert MeanBy(c, w, ps, !Last(s)) == MeanBy(c, w, ps[..m], !Last(s));
    }
  }

  ghost function Mean(c: Chain, w: Wire, n: nat): real
    requires IsChain(c) && Slots(w) > 0
  {
    MeanBy(c, w, AllPaths(n), false) + MeanBy(c, w, AllPaths(n), true)
  }

  lemma MeanByStep(c: Chain, w: Wire, n: nat, b: bool)
    requires IsChain(c) && Slots(w) > 0
    ensures MeanBy(c, w, AllPaths(n + 1), b)
      == Moved(c, MeanBy(c, w, AllPaths(n), false), MeanBy(c, w, AllPaths(n), true), b)
        + Times(if b then BadShare(c) else 1.0 - BadShare(c), Shift(w, n, b) as real)
  {
    hide Moved, AllPaths, MeanBy, Extended, Times, BadShare, Shift, StateMass;
    var ps := AllPaths(n);
    AllPathsStep(n);
    Stationary(c, n);
    Balance(c);
    MeanExtended(c, w, ps, n, false, b);
    MeanExtended(c, w, ps, n, true, b);
    MeanAppend(c, w, Extended(ps, false), Extended(ps, true), b);
  }

  lemma MovesSum(c: Chain, x: real, y: real)
    ensures Moved(c, x, y, false) + Moved(c, x, y, true) == x + y
  {}

  /**
   * Slot n adds the loss rate to the mean deficit when it carries a source, and takes off the survival rate when it
   * carries a repair.
   */
  lemma MeanStep(c: Chain, w: Wire, n: nat)
    requires IsChain(c) && Slots(w) > 0
    ensures Mean(c, w, n + 1) == Mean(c, w, n) + (if IsRepair(w, n) then BadShare(c) - 1.0 else BadShare(c))
  {
    hide Moved, AllPaths, MeanBy, BadShare, IsRepair;
    MeanByStep(c, w, n, false);
    MeanByStep(c, w, n, true);
    MovesSum(c, MeanBy(c, w, AllPaths(n), false), MeanBy(c, w, AllPaths(n), true));
  }

  lemma MeanStart(c: Chain, w: Wire)
    requires IsChain(c) && Slots(w) > 0
    ensures Mean(c, w, 0) == 0.0
  {
    hide BadShare;
    assert AllPaths(0) == [[false], [true]];
    var ps: seq<Path> := [[false], [true]];
    assert ps[..1] == [[false]] && [[false]][..0] == [];
    assert MeanBy(c, w, [[false]], false) == 0.0 && MeanBy(c, w, [[false]], true) == 0.0;
  }

  /** After i slots the mean deficit is (sources sent) * eps - (repairs sent) * (1 - eps), with eps = p / (p + q). */
  lemma {:induction false} MeanDeficit(c: Chain, w: Wire, i: nat)
    requires IsChain(c) && Slots(w) > 0
    ensures Mean(c, w, i) == i as real * BadShare(c) - RepairsBefore(w, i) as real
  {
    hide Mean, BadShare, RepairsBefore, IsRepair;
    if i == 0 {
      MeanStart(c, w);
      RepairEnds(w);
    } else {
      MeanDeficit(c, w, i - 1);
      MeanStep(c, w, i - 1);
      RepairStep(w, i - 1);
      assert i as real * BadShare(c) == (i - 1) as real * BadShare(c) + BadShare(c);
    }
  }

  lemma FinalMeanDeficit(c: Chain, w: Wire)
    requires IsChain(c) && Slots(w) > 0
    ensures Mean(c, w, Slots(w)) == w.sources as real * BadShare(c) - w.repairs as real * (1.0 - BadShare(c))
  {
    hide Mean, BadShare, RepairsBefore;
    MeanDeficit(c, w, Slots(w));
    RepairEnds(w);
    assert Slots(w) as real * BadShare(c) == w.sources as real * BadShare(c) + w.repairs as real * BadShare(c);
  }

  // ---- the paths are all the loss patterns

  lemma {:induction false} AllPathsComplete(s: Path)
    requires s != []
    ensures s in AllPaths(|s| - 1)
  {
    hide AllPaths;
    if |s| == 1 {
      OneSlotPaths(s);
    } else {
      AllPathsComplete(Init(s));
      AllPathsStep(|s| - 2);
      ExtendedMember(AllPaths(|s| - 2), Init(s), Last(s));
      assert s == Init(s) + [Last(s)];
    }
  }

  lemma OneSlotPaths(s: Path)
    requires |s| == 1
    ensures s in AllPaths(0)
  {
    assert AllPaths(0) == [[false], [true]];
    assert [[false], [true]][if s[0] then 1 else 0] == s;
  }

  lemma ExtendedMember(ps: seq<Path>, s: Path, b: bool)
    requires s in ps
    ensures s + [b] in Extended(ps, b)
  {
    var i :| 0 <= i < |ps| && ps[i] == s;
    assert Extended(ps, b)[i] == s + [b];
  }

  lemma SnocDistinct(a: Path, x: bool, b: Path, y: bool)
    requires |a| == |b| && (a != b || x != y)
    ensures a + [x] != b + [y]
  {
    assert a == (a + [x])[..|a|] && b == (b + [y])[..|b|];
    assert x == (a + [x])[|a|] && y == (b + [y])[|b|];
  }

  lemma {:induction false} AllPathsDistinct(n: nat)
    ensures forall i, j :: 0 <= i < j < |AllPaths(n)| ==> AllPaths(n)[i] != AllPaths(n)[j]
  {
    if n > 0 {
      AllPathsDistinct(n - 1);
      var ps := AllPaths(n - 1);
      var m := |ps|;
      forall i, j | 0 <= i < j < |AllPaths(n)|
        ensures AllPaths(n)[i] != AllPaths(n)[j]
      {
        var k, l := if i < m then i else i - m, if j < m then j else j - m;
        assert AllPaths(n)[i] == ps[k] + [i >= m] && AllPaths(n)[j] == ps[l] + [j >= m];
        SnocDistinct(ps[k], i >= m, ps[l], j >= m);
      }
    }
  }
}
