/** Online changepoint detection over run lengths. */
module Changepoint {
  import opened RealSums

  const MAX_RUN_LENGTH: nat := 200

  /** Mass below this counts as none. */
  const TINY: real := 1e-300

  /** Pseudo-counts of received and lost symbols. */
  datatype Beta = Beta(alpha: real, beta: real)

  function Updated(s: Beta, received: nat, lost: nat): Beta {
    Beta(s.alpha + received as real, s.beta + lost as real)
  }

  function PredictiveLoss(s: Beta): real
    requires s.alpha > 0.0 && s.beta > 0.0
  {
    s.beta / (s.alpha + s.beta)
  }

  /** No probability counts as less than this. */
  function Floored(x: real): real { if x < TINY then TINY else x }

  /**
   * The probability of a batch under a run's statistics, symbols taken as independent: the exponential of a sum of
   * logarithms is a product of powers.
   */
  function Likelihood(s: Beta, received: nat, lost: nat): (r: real)
    requires s.alpha > 0.0 && s.beta > 0.0
  {
    var loss := PredictiveLoss(s);
    if lost == 0 then Pow(Floored(1.0 - loss), received + lost)
    else if received == 0 then Pow(Floored(loss), received + lost)
    else Times(Pow(Floored(loss), lost), Pow(Floored(1.0 - loss), received))
  }

  lemma LikelihoodIsFraction(s: Beta, received: nat, lost: nat)
    requires s.alpha > 0.0 && s.beta > 0.0
    ensures 0.0 < Likelihood(s, received, lost) <= 1.0
  {
    hide PredictiveLoss, Pow, Times;
    LossIsFraction(s);
    var losing, arriving := Floored(PredictiveLoss(s)), Floored(1.0 - PredictiveLoss(s));
    PowFraction(losing, lost);
    PowFraction(losing, received + lost);
    PowFraction(arriving, received);
    PowFraction(arriving, received + lost);
    FractionOfFraction(Pow(losing, lost), Pow(arriving, received));
  }

  lemma FractionOfFraction(a: real, b: real)
    requires 0.0 < a <= 1.0 && 0.0 < b <= 1.0
    ensures 0.0 < Times(a, b) <= 1.0
  {
    PositiveProduct(a, b);
    NonnegativeProduct(a, 1.0 - b);
  }

  lemma LossIsFraction(s: Beta)
    requires s.alpha > 0.0 && s.beta > 0.0
    ensures 0.0 < PredictiveLoss(s) < 1.0
  {
    var x := PredictiveLoss(s);
    assert x * (s.alpha + s.beta) == s.beta;
    if x <= 0.0 {
      NonnegativeProduct(-x, s.alpha + s.beta);
    } else if x >= 1.0 {
      NonnegativeProduct(x - 1.0, s.alpha + s.beta);
    }
  }

  /** The predicted loss rate is the share of the lost count, and the rest the share of the received. */
  lemma SharesOfCounts(s: Beta)
    requires s.alpha > 0.0 && s.beta > 0.0
    ensures PredictiveLoss(s) == s.beta / (s.alpha + s.beta) && 1.0 - PredictiveLoss(s) == s.alpha / (s.alpha + s.beta)
  {
    var total := s.alpha + s.beta;
    DivideSum(s.alpha, s.beta, total);
    TotalOverTotal(total);
  }

  /** A single symbol is lost or received with these shares, unless they are too small to count. */
  lemma SingleSymbols(s: Beta)
    requires s.alpha > 0.0 && s.beta > 0.0
    ensures s.beta / (s.alpha + s.beta) >= TINY ==> Likelihood(s, 0, 1) == s.beta / (s.alpha + s.beta)
    ensures s.alpha / (s.alpha + s.beta) >= TINY ==> Likelihood(s, 1, 0) == s.alpha / (s.alpha + s.beta)
    ensures Likelihood(s, 0, 0) == 1.0
  {
    SharesOfCounts(s);
    hide PredictiveLoss;
    var x, y := PredictiveLoss(s), 1.0 - PredictiveLoss(s);
    OnePower(Floored(x));
    OnePower(Floored(y));
  }

  lemma TotalOverTotal(total: real)
    requires total > 0.0
    ensures total / total == 1.0
  {}

  lemma OnePower(x: real)
    ensures Pow(x, 1) == x && Pow(x, 0) == 1.0
  {
    assert Pow(x, 0) == 1.0;
    assert 1.0 * x == x;
  }

  /** Symbols are independent: a batch is as likely as its two parts together. */
  lemma Independent(s: Beta, received: nat, lost: nat, moreReceived: nat, moreLost: nat)
    requires s.alpha > 0.0 && s.beta > 0.0
    ensures Likelihood(s, received + moreReceived, lost + moreLost)
      == Times(Likelihood(s, received, lost), Likelihood(s, moreReceived, moreLost))
  {
    hide PredictiveLoss, Pow, Likelihood;
    var x, y := Floored(PredictiveLoss(s)), Floored(1.0 - PredictiveLoss(s));
    InPowers(s, received, lost);
    InPowers(s, moreReceived, moreLost);
    InPowers(s, received + moreReceived, lost + moreLost);
    PowSum(x, lost, moreLost);
    PowSum(y, received, moreReceived);
    FourFactors(Pow(x, lost), Pow(y, received), Pow(x, moreLost), Pow(y, moreReceived));
  }

  /** The three branches are one product. */
  lemma InPowers(s: Beta, received: nat, lost: nat)
    requires s.alpha > 0.0 && s.beta > 0.0
    ensures Likelihood(s, received, lost)
      == Times(Pow(Floored(PredictiveLoss(s)), lost), Pow(Floored(1.0 - PredictiveLoss(s)), received))
  {
    hide PredictiveLoss;
    assert Pow(Floored(PredictiveLoss(s)), 0) == 1.0 && Pow(Floored(1.0 - PredictiveLoss(s)), 0) == 1.0;
  }

  lemma FourFactors(a: real, b: real, c: real, d: real)
    ensures Times(Times(a, c), Times(b, d)) == Times(Times(a, b), Times(c, d))
  {
    assert (a * c) * (b * d) == (a * b) * (c * d);
  }

  /** A lost symbol makes the next loss likelier, a received one less likely. */
  lemma EvidenceMoves(s: Beta, n: nat)
    requires s.alpha > 0.0 && s.beta > 0.0 && n > 0
    ensures PredictiveLoss(Updated(s, n, 0)) < PredictiveLoss(s) < PredictiveLoss(Updated(s, 0, n))
  {
    SharesOrder(s.beta, s.alpha, s.beta, s.alpha + n as real);
    SharesOrder(s.beta, s.alpha, s.beta + n as real, s.alpha);
  }

  lemma SharesOrder(a: real, b: real, c: real, d: real)
    requires a > 0.0 && b > 0.0 && c > 0.0 && d > 0.0
    ensures a * d < c * b ==> a / (b + a) < c / (d + c)
    ensures a * d > c * b ==> a / (b + a) > c / (d + c)
  {
    var x, y := a / (b + a), c / (d + c);
    assert x * (b + a) == a && y * (d + c) == c;
  }

  // ---- what the statistics should be

  /** The last n batches, or all of them when there are fewer. */
  function LastBatches(history: seq<(nat, nat)>, n: nat): seq<(nat, nat)> {
    if n >= |history| then history else history[|history| - n..]
  }

  function Received(batches: seq<(nat, nat)>): nat {
    if batches == [] then 0 else Received(batches[..|batches| - 1]) + batches[|batches| - 1].0
  }

  function Lost(batches: seq<(nat, nat)>): nat {
    if batches == [] then 0 else Lost(batches[..|batches| - 1]) + batches[|batches| - 1].1
  }

  /** The prior plus everything seen in the last r + 1 batches. */
  function Posterior(prior: Beta, history: seq<(nat, nat)>, r: nat): Beta {
    Updated(prior, Received(LastBatches(history, r + 1)), Lost(LastBatches(history, r + 1)))
  }

  /** A run one batch longer is the shorter run's posterior updated with the new batch. */
  lemma PosteriorGrows(prior: Beta, history: seq<(nat, nat)>, b: (nat, nat), r: nat)
    ensures Posterior(prior, history + [b], 0) == Updated(prior, b.0, b.1)
    ensures Posterior(prior, history + [b], r + 1) == Updated(Posterior(prior, history, r), b.0, b.1)
  {
    hide Received, Lost;
    OneMoreBatch(history, b, r);
    hide LastBatches;
    Snoc([], b);
    NoBatches();
    Snoc(LastBatches(history, r + 1), b);
    assert [] + [b] == [b];
  }

  lemma OneMoreBatch(history: seq<(nat, nat)>, b: (nat, nat), r: nat)
    ensures LastBatches(history + [b], 1) == [b]
    ensures LastBatches(history + [b], r + 2) == LastBatches(history, r + 1) + [b]
  {}

  lemma NoBatches()
    ensures Received([]) == 0 == Lost([])
  {}

  lemma Snoc(batches: seq<(nat, nat)>, b: (nat, nat))
    ensures Received(batches + [b]) == Received(batches) + b.0 && Lost(batches + [b]) == Lost(batches) + b.1
  {
    assert (batches + [b])[..|batches|] == batches;
  }

  /** The probability of a batch under each run length, after the batches so far. */
  function Likelihoods(prior: Beta, history: seq<(nat, nat)>, received: nat, lost: nat): (s: seq<real>)
    requires prior.alpha > 0.0 && prior.beta > 0.0
    ensures |s| == MAX_RUN_LENGTH + 1 && forall r :: 0 <= r <= MAX_RUN_LENGTH ==> 0.0 < s[r] <= 1.0
    ensures forall r :: 0 <= r <= MAX_RUN_LENGTH ==> s[r] == Likelihood(Posterior(prior, history, r), received, lost)
  {
    SomeLikelihood(prior, history, received, lost);
    seq(MAX_RUN_LENGTH + 1,
        r requires 0 <= r <= MAX_RUN_LENGTH => Likelihood(Posterior(prior, history, r), received, lost))
  }

  lemma SomeLikelihood(prior: Beta, history: seq<(nat, nat)>, received: nat, lost: nat)
    requires prior.alpha > 0.0 && prior.beta > 0.0
    ensures forall r: nat :: 0.0 < Likelihood(Posterior(prior, history, r), received, lost) <= 1.0
  {
    hide Likelihood, Received, Lost, LastBatches;
    forall r: nat
      ensures 0.0 < Likelihood(Posterior(prior, history, r), received, lost) <= 1.0
    {
      LikelihoodIsFraction(Posterior(prior, history, r), received, lost);
    }
  }

  // ---- what the run-length masses should be

  /** Mass of run length r together with the new batch; run lengths with no mass are skipped. */
  function Joint(probs: seq<real>, likelihood: seq<real>): (r: seq<real>)
    requires |probs| == |likelihood|
    ensures |r| == |probs| && forall i :: 0 <= i < |r| ==>
      r[i] == probs[i] * (if probs[i] < TINY then 0.0 else likelihood[i])
  {
    seq(|probs|, i requires 0 <= i < |probs| => probs[i] * (if probs[i] < TINY then 0.0 else likelihood[i]))
  }

  /** Every run grows by one, the longest absorbing; the hazard share of all of them starts over at zero. */
  function GrownAt(joint: seq<real>, hazard: real, r: nat): real
    requires |joint| == MAX_RUN_LENGTH + 1 && r <= MAX_RUN_LENGTH
  {
    if r == 0 then Times(hazard, Total(joint))
    else if r < MAX_RUN_LENGTH then Times(1.0 - hazard, joint[r - 1])
    else Times(1.0 - hazard, joint[r - 1] + joint[r])
  }

  ghost predicate Grown(joint: seq<real>, hazard: real, after: seq<real>) {
    && |joint| == |after| == MAX_RUN_LENGTH + 1
    && forall r :: 0 <= r <= MAX_RUN_LENGTH ==> after[r] == GrownAt(joint, hazard, r)
  }

  lemma JointNonnegative(probs: seq<real>, likelihood: seq<real>)
    requires |probs| == |likelihood| && forall i :: 0 <= i < |probs| ==> probs[i] >= 0.0 && likelihood[i] >= 0.0
    ensures forall i :: 0 <= i < |probs| ==> Joint(probs, likelihood)[i] >= 0.0
    ensures Total(Joint(probs, likelihood)) >= 0.0
  {
    forall i | 0 <= i < |probs|
      ensures Joint(probs, likelihood)[i] >= 0.0
    {
      NonnegativeProduct(probs[i], if probs[i] < TINY then 0.0 else likelihood[i]);
    }
    TotalNonnegative(Joint(probs, likelihood));
  }

  /** All mass at run length zero. */
  function AtZero(): (s: seq<real>)
    ensures |s| == MAX_RUN_LENGTH + 1 && s[0] == 1.0 && forall r :: 1 <= r <= MAX_RUN_LENGTH ==> s[r] == 0.0
  {
    seq(MAX_RUN_LENGTH + 1, r => if r == 0 then 1.0 else 0.0)
  }

  /** What a filter leaves of the masses that normalises when there is enough evidence and else restarts altogether. */
  function Refreshed(joint: seq<real>, hazard: real): (s: seq<real>)
    requires |joint| == MAX_RUN_LENGTH + 1
    ensures |s| == MAX_RUN_LENGTH + 1
  {
    var evidence := Total(joint);
    if evidence <= TINY then AtZero()
    else
      seq(MAX_RUN_LENGTH + 1, r requires 0 <= r <= MAX_RUN_LENGTH =>
        if r == 0 then hazard else Share(GrownAt(joint, hazard, r), evidence))
  }

  /** The masses of such a filter after a history of batches. */
  function Ideal(prior: Beta, hazard: real, history: seq<(nat, nat)>): (s: seq<real>)
    requires prior.alpha > 0.0 && prior.beta > 0.0
    ensures |s| == MAX_RUN_LENGTH + 1
  {
    if history == [] then AtZero()
    else
      var before, b := history[..|history| - 1], history[|history| - 1];
      Refreshed(Joint(Ideal(prior, hazard, before), Likelihoods(prior, before, b.0, b.1)), hazard)
  }

  /**
   * The masses are the ideal ones, a distribution; or these are a restart, and the masses differ from it by a residue
   * too small to count.
   */
  ghost predicate Resembles(probs: seq<real>, ideal: seq<real>) {
    && |probs| == |ideal| == MAX_RUN_LENGTH + 1 && Total(ideal) == 1.0
    && (forall r :: 0 <= r <= MAX_RUN_LENGTH ==> ideal[r] >= 0.0)
    && (probs == ideal ||
        (ideal == AtZero() && probs[0] == 1.0 && Total(probs) <= 1.0 + TINY
         && forall r :: 1 <= r <= MAX_RUN_LENGTH ==> 0.0 <= probs[r] < TINY))
  }

  /** Growing and restarting only move mass around. */
  lemma MassKept(hazard: real, mass: real)
    ensures Times(hazard, mass) + Times(1.0 - hazard, mass) == mass && hazard * mass + (1.0 - hazard) * mass == mass
  {}

  class BayesianChangepoint {
    const hazard: real
    const prior: Beta
    var runProbs: array<real>
    const stats: array<Beta>
    var updates: nat
    /** The non-empty batches seen so far. */
    ghost var history: seq<(nat, nat)>

    ghost predicate Valid()
      reads this, runProbs, stats
    {
      && 0.0 <= hazard <= 1.0 && prior.alpha > 0.0 && prior.beta > 0.0
      && runProbs.Length == stats.Length == MAX_RUN_LENGTH + 1
      && (forall r :: 0 <= r <= MAX_RUN_LENGTH ==> runProbs[r] >= 0.0)
      && (forall r :: 0 <= r <= MAX_RUN_LENGTH ==> stats[r] == Posterior(prior, history, r))
      && 1.0 <= Total(runProbs[..]) <= 1.0 + TINY
      && (hazard > 0.0 ==> Resembles(runProbs[..], Ideal(prior, hazard, history)))
    }

    constructor (hazard: real, prior: Beta)
      requires 0.0 <= hazard <= 1.0 && prior.alpha > 0.0 && prior.beta > 0.0
      ensures Valid() && history == [] && updates == 0 && fresh(runProbs) && fresh(stats)
      ensures Total(runProbs[..]) == 1.0 && runProbs[0] == 1.0 && forall r :: 1 <= r <= MAX_RUN_LENGTH ==>
        runProbs[r] == 0.0
      ensures this.hazard == hazard && this.prior == prior
    {
      this.hazard, this.prior, history, updates := hazard, prior, [], 0;
      runProbs := new real[MAX_RUN_LENGTH + 1](i => if i == 0 then 1.0 else 0.0);
      stats := new Beta[MAX_RUN_LENGTH + 1](_ => prior);
      new;
      OnlyFirst(runProbs[..]);
      assert runProbs[..] == AtZero() == Ideal(prior, hazard, history);
    }

    /** The probability of the new batch under every run length that carries mass. */
    method Predict(received: nat, lost: nat) returns (predictive: array<real>)
      requires Valid()
      ensures fresh(predictive) && predictive.Length == MAX_RUN_LENGTH + 1
      ensures forall r :: 0 <= r <= MAX_RUN_LENGTH ==>
        predictive[r] == if runProbs[r] < TINY then 0.0 else Likelihoods(prior, history, received, lost)[r]
    {
      hide Likelihood, Likelihoods, Ideal, Resembles, Total;
      ghost var likelihood := Likelihoods(prior, history, received, lost);
      predictive := new real[MAX_RUN_LENGTH + 1](_ => 0.0);
      for r := 0 to MAX_RUN_LENGTH + 1
        invariant forall k :: 0 <= k < r ==> predictive[k] == if runProbs[k] < TINY then 0.0 else likelihood[k]
        invariant forall k :: r <= k <= MAX_RUN_LENGTH ==> predictive[k] == 0.0
      {
        if runProbs[r] >= TINY {
          predictive[r] := Likelihood(stats[r], received, lost);
        }
      }
    }

    /** Every run but the longest grows by one; returns the mass that restarts so far. */
    method GrowRuns(predictive: array<real>, ghost joint: seq<real>) returns (newProbs: array<real>,
          changepointMass: real)
      requires Valid() && predictive.Length == |joint| == MAX_RUN_LENGTH + 1
      requires forall r :: 0 <= r <= MAX_RUN_LENGTH ==> joint[r] == Times(runProbs[r], predictive[r])
      ensures fresh(newProbs) && newProbs.Length == MAX_RUN_LENGTH + 1
      ensures changepointMass == Times(hazard, Total(joint[..MAX_RUN_LENGTH]))
      ensures Total(newProbs[..]) == Times(1.0 - hazard, Total(joint[..MAX_RUN_LENGTH])) && newProbs[0] == 0.0
      ensures forall k :: 1 <= k <= MAX_RUN_LENGTH ==> newProbs[k] == Times(1.0 - hazard, joint[k - 1])
    {
      hide Total, Posterior;
      newProbs := new real[MAX_RUN_LENGTH + 1](_ => 0.0);
      changepointMass := 0.0;
      AllZero(newProbs[..]);
      NoTotal();
      assert joint[..0] == [];
      assert Growing(joint, hazard, newProbs[..], changepointMass, 0);
      hide Growing, Times;
      for r := 0 to MAX_RUN_LENGTH
        invariant Growing(joint, hazard, newProbs[..], changepointMass, r)
      {
        var mass := Times(runProbs[r], predictive[r]);
        var grown, restarted := Times(mass, 1.0 - hazard), Times(mass, hazard);
        ghost var before := newProbs[..];
        GrowStep(joint, r, before, hazard, mass, grown, restarted, changepointMass);
        newProbs[r + 1] := newProbs[r + 1] + grown;
        assert newProbs[..] == before[r + 1 := grown];
        changepointMass := changepointMass + restarted;
      }
      GrownAll(joint, hazard, newProbs[..], changepointMass);
    }

    /** Adds the longest run, which stays where it is, and the restarting mass at run length zero. */
    method Absorb(newProbs: array<real>, mass: real, changepointMass: real, ghost joint: seq<real>)
      requires 0.0 <= hazard <= 1.0 && newProbs.Length == |joint| == MAX_RUN_LENGTH + 1 && mass == joint[MAX_RUN_LENGTH]
      requires changepointMass == Times(hazard, Total(joint[..MAX_RUN_LENGTH]))
      requires Total(newProbs[..]) == Times(1.0 - hazard, Total(joint[..MAX_RUN_LENGTH])) && newProbs[0] == 0.0
      requires forall k :: 1 <= k <= MAX_RUN_LENGTH ==> newProbs[k] == Times(1.0 - hazard, joint[k - 1])
      modifies newProbs
      ensures Grown(joint, hazard, newProbs[..]) && Total(newProbs[..]) == Total(joint)
    {
      hide Total, Times;
      ghost var grown := newProbs[..];
      newProbs[MAX_RUN_LENGTH] := newProbs[MAX_RUN_LENGTH] + Times(mass, 1.0 - hazard);
      ghost var absorbed := newProbs[..];
      assert absorbed == grown[MAX_RUN_LENGTH := grown[MAX_RUN_LENGTH] + Times(mass, 1.0 - hazard)];
      newProbs[0] := changepointMass + Times(mass, hazard);
      assert newProbs[..] == absorbed[0 := changepointMass + Times(mass, hazard)];
      AbsorbTotals(joint, grown, hazard, changepointMass + Times(mass, hazard));
      TimesSum(1.0 - hazard, joint[MAX_RUN_LENGTH - 1], mass);
    }

    method SumOf(a: array<real>) returns (total: real)
      ensures total == Total(a[..])
    {
      hide Total;
      NoTotal();
      total := 0.0;
      assert a[..0] == [];
      for i := 0 to a.Length
        invariant total == Total(a[..i])
      {
        assert a[..i + 1] == a[..i] + [a[i]];
        TotalSnoc(a[..i], a[i]);
        total := total + a[i];
      }
      assert a[..a.Length] == a[..];
    }

    /** Divides by the evidence; with too little of it, only run length zero is set to one. */
    method Normalize(probs: array<real>)
      requires probs.Length > 0
      modifies probs
      ensures Normalized(old(probs[..]), probs[..], old(Total(probs[..])))
      ensures old(forall r :: 0 <= r < probs.Length ==> probs[r] >= 0.0) ==> forall r :: 0 <= r < probs.Length ==>
        probs[r] >= 0.0
    {
      hide Total;
      ghost var before := probs[..];
      var mass := SumOf(probs);
      if mass > TINY {
        for r := 0 to probs.Length
          invariant forall k :: 0 <= k < r ==> probs[k] == Share(before[k], mass)
          invariant forall k :: r <= k < probs.Length ==> probs[k] == before[k]
          invariant forall k :: 0 <= k < probs.Length && before[k] >= 0.0 ==> probs[k] >= 0.0
        {
          if probs[r] >= 0.0 {
            NonnegativeShare(probs[r], mass);
          }
          probs[r] := probs[r] / mass;
        }
        TotalOfShares(before, mass, probs[..]);
        WholeIsOne(mass);
      } else {
        TotalUpdate(before, 0, 1.0);
        probs[0] := 1.0;
        assert probs[..] == before[0 := 1.0];
      }
    }

    /** Shifts every run's statistics to the run one longer, working down from the longest, and adds the batch. */
    method Shift(received: nat, lost: nat)
      requires Valid()
      modifies stats
      ensures stats[0] == Updated(prior, received, lost)
      ensures forall r :: 1 <= r <= MAX_RUN_LENGTH ==> stats[r] == Updated(old(stats[r - 1]), received, lost)
    {
      hide Posterior;
      var r := MAX_RUN_LENGTH;
      while r >= 1
        invariant 0 <= r <= MAX_RUN_LENGTH
        invariant forall k :: r < k <= MAX_RUN_LENGTH ==> stats[k] == Updated(old(stats[k - 1]), received, lost)
        invariant forall k :: 0 <= k <= r ==> stats[k] == old(stats[k])
      {
        stats[r] := stats[r - 1];
        stats[r] := Updated(stats[r], received, lost);
        r := r - 1;
      }
      stats[0] := Updated(prior, received, lost);
    }

    /** The masses after a batch. */
    method Reweigh(received: nat, lost: nat) returns (newProbs: array<real>)
      requires Valid()
      ensures fresh(newProbs) && newProbs.Length == MAX_RUN_LENGTH + 1
      ensures forall r :: 0 <= r <= MAX_RUN_LENGTH ==> newProbs[r] >= 0.0
      ensures 1.0 <= Total(newProbs[..]) <= 1.0 + TINY
      ensures var joint := Joint(runProbs[..], Likelihoods(prior, history, received, lost));
        && Redistributed(joint, hazard, newProbs[..])
        && (Total(newProbs[..]) == 1.0 <==> Total(joint) > TINY || hazard == 1.0)
      ensures hazard > 0.0 ==>
        Resembles(newProbs[..],
            Refreshed(Joint(Ideal(prior, hazard, history), Likelihoods(prior, history, received, lost)), hazard))
    {
      hide Posterior, Joint, Total, Likelihoods, Ideal, Resembles, Redistributed, Normalized, Grown, Refreshed, Share,
          Times;
      ghost var probs, likelihood := runProbs[..], Likelihoods(prior, history, received, lost);
      ghost var joint := Joint(probs, likelihood);
      var predictive := Predict(received, lost);
      JointAt(probs, likelihood, predictive[..]);
      var changepointMass;
      newProbs, changepointMass := GrowRuns(predictive, joint);
      Absorb(newProbs, Times(runProbs[MAX_RUN_LENGTH], predictive[MAX_RUN_LENGTH]), changepointMass, joint);
      JointNonnegative(probs, likelihood);
      ghost var grown := newProbs[..];
      forall r | 0 <= r <= MAX_RUN_LENGTH
        ensures newProbs[r] >= 0.0
      {
        GrownNonnegative(joint, hazard, grown, r);
      }
      Normalize(newProbs);
      Redistribution(joint, hazard, grown, newProbs[..]);
      EvidencePositive(probs, likelihood);
      TotalAfter(joint, hazard, newProbs[..]);
      if Total(joint) <= TINY {
        Excess(hazard, Total(joint), TINY);
      }
      if hazard > 0.0 {
        SameJoint(probs, Ideal(prior, hazard, history), likelihood);
        StillResembles(joint, hazard, newProbs[..]);
      }
    }

    /**
     * One batch. The evidence is the mass of all run lengths with the batch. With enough of it the masses are a
     * distribution again and run length zero has exactly the hazard; else the reset leaves the grown masses in place,
     * and they come on top of one unless the hazard is one.
     */
    method Update(received: nat, lost: nat)
      requires Valid()
      modifies this, stats
      ensures Valid() && updates == old(updates) + 1
      ensures received + lost == 0 ==>
        history == old(history) && runProbs == old(runProbs) && stats[..] == old(stats[..])
      ensures received + lost > 0 ==> history == old(history) + [(received, lost)]
      ensures received + lost > 0 ==>
        var joint := Joint(old(runProbs[..]), Likelihoods(prior, old(history), received, lost));
        && Redistributed(joint, hazard, runProbs[..])
        && (Total(runProbs[..]) == 1.0 <==> Total(joint) > TINY || hazard == 1.0)
    {
      hide Posterior, Joint, Total, Likelihoods, Ideal, Resembles, Redistributed, Share, Times;
      updates := updates + 1;
      if received + lost == 0 {
        return;
      }
      var newProbs := Reweigh(received, lost);
      if hazard > 0.0 {
        IdealGrows(prior, hazard, history, (received, lost));
      }
      Shift(received, lost);
      runProbs := newProbs;
      history := history + [(received, lost)];
      forall r | 0 <= r <= MAX_RUN_LENGTH
        ensures stats[r] == Posterior(prior, history, r)
      {
        PosteriorGrows(prior, old(history), (received, lost), if r == 0 then 0 else r - 1);
      }
    }

    /**
     * The mixture mean of the loss rate over the run lengths that carry mass: a convex combination, so it
     * lies between any two rates that bracket those of the run lengths. Some run length always carries mass, so
     * the fallback to zero is never taken.
     */
    method PredictiveMean(ghost lo: real, ghost hi: real) returns (mean: real)
      requires Valid()
      requires forall r :: 0 <= r <= MAX_RUN_LENGTH && runProbs[r] >= TINY ==> lo <= LossAt(r) <= hi
      ensures lo <= mean <= hi
      ensures mean * Total(Carrying(runProbs[..])) == Total(Joint(runProbs[..], LossRates(prior, history)))
      ensures Total(Carrying(runProbs[..])) > TINY
    {
      hide Posterior, PredictiveLoss, Total, Joint, Carrying, Ideal, Resembles;
      MostCarries(runProbs[..]);
      ghost var masses, losses := Carrying(runProbs[..]), Joint(runProbs[..], LossRates(prior, history));
      var weightedMean, totalWeight := 0.0, 0.0;
      assert masses[..0] == [] && losses[..0] == [];
      NoTotal();
      for r := 0 to MAX_RUN_LENGTH + 1
        invariant totalWeight >= 0.0 && lo * totalWeight <= weightedMean <= hi * totalWeight
        invariant totalWeight == Total(masses[..r]) && weightedMean == Total(losses[..r])
      {
        var w := runProbs[r];
        TotalNext(masses, r);
        TotalNext(losses, r);
        NothingTimes(w, LossAt(r));
        if w >= TINY {
          Weighted(lo, hi, w, LossAt(r), weightedMean, totalWeight);
          weightedMean := weightedMean + w * LossAt(r);
          totalWeight := totalWeight + w;
        }
      }
      assert masses[..MAX_RUN_LENGTH + 1] == masses && losses[..MAX_RUN_LENGTH + 1] == losses;
      if totalWeight > TINY {
        Averaged(lo, hi, weightedMean, totalWeight);
        mean := weightedMean / totalWeight;
      } else {
        mean := 0.0;
      }
    }

    /** The mass of the five shortest run lengths. */
    method ChangepointProbability() returns (p: real)
      requires Valid()
      ensures p == Total(runProbs[..5])
    {
      hide Total, Ideal, Resembles, Posterior;
      p := 0.0;
      NoTotal();
      assert runProbs[..0] == [];
      for r := 0 to 5
        invariant p == Total(runProbs[..r])
      {
        assert runProbs[..r + 1] == runProbs[..r] + [runProbs[r]];
        TotalSnoc(runProbs[..r], runProbs[r]);
        p := p + runProbs[r];
      }
    }

    /**
     * After any history, the masses an incomplete reset leaves in place make no difference: the run lengths that count,
     * the mean and every further update are those of a filter that restarts altogether, whose masses are a
     * distribution; and the mass of the shortest run lengths is off by less than counts.
     */
    lemma ResidueIsInert(likelihood: seq<real>)
      requires Valid() && hazard > 0.0 && |likelihood| == MAX_RUN_LENGTH + 1
      ensures var ideal := Ideal(prior, hazard, history);
        && Total(ideal) == 1.0 && (forall r :: 0 <= r <= MAX_RUN_LENGTH ==> ideal[r] >= 0.0)
        && Total(ideal) <= Total(runProbs[..]) <= Total(ideal) + TINY
        && Carrying(runProbs[..]) == Carrying(ideal)
        && Joint(runProbs[..], likelihood) == Joint(ideal, likelihood)
        && Total(ideal[..5]) <= Total(runProbs[..5]) <= Total(ideal[..5]) + TINY
    {
      hide Ideal, Posterior;
      var ideal := Ideal(prior, hazard, history);
      SameJoint(runProbs[..], ideal, likelihood);
      SameCarrying(runProbs[..], ideal);
      SameShortest(runProbs[..], ideal);
    }

    /** The loss rate that run length r predicts. */
    function LossAt(r: nat): real
      requires Valid() && r <= MAX_RUN_LENGTH
      reads this, runProbs, stats
    {
      PredictiveLoss(stats[r])
    }
  }

  /** The masses, those too small to count left out. */
  function Carrying(probs: seq<real>): (s: seq<real>)
    ensures |s| == |probs| && forall r :: 0 <= r < |s| ==> s[r] == if probs[r] < TINY then 0.0 else probs[r]
  {
    seq(|probs|, r requires 0 <= r < |probs| => if probs[r] < TINY then 0.0 else probs[r])
  }

  /** The loss rate each run length predicts after the batches so far. */
  function LossRates(prior: Beta, history: seq<(nat, nat)>): (s: seq<real>)
    requires prior.alpha > 0.0 && prior.beta > 0.0
    ensures |s| == MAX_RUN_LENGTH + 1
    ensures forall r :: 0 <= r <= MAX_RUN_LENGTH ==> s[r] == PredictiveLoss(Posterior(prior, history, r))
  {
    seq(MAX_RUN_LENGTH + 1, r requires 0 <= r <= MAX_RUN_LENGTH => PredictiveLoss(Posterior(prior, history, r)))
  }

  lemma TotalNext(s: seq<real>, r: nat)
    requires r < |s|
    ensures Total(s[..r + 1]) == Total(s[..r]) + s[r]
  {
    assert s[..r + 1] == s[..r] + [s[r]];
    TotalSnoc(s[..r], s[r]);
  }

  lemma NothingTimes(w: real, x: real)
    ensures w * 0.0 == 0.0 && w * (if w < TINY then 0.0 else x) == if w < TINY then 0.0 else w * x
  {}

  lemma Weighted(lo: real, hi: real, w: real, x: real, mean: real, total: real)
    requires w >= 0.0 && lo <= x <= hi && lo * total <= mean <= hi * total
    ensures lo * (total + w) <= mean + w * x <= hi * (total + w)
  {
    NonnegativeProduct(w, x - lo);
    NonnegativeProduct(w, hi - x);
  }

  lemma Averaged(lo: real, hi: real, mean: real, total: real)
    requires total > 0.0 && lo * total <= mean <= hi * total
    ensures lo <= mean / total <= hi && mean / total * total == mean
  {
    var m := mean / total;
    assert m * total == mean;
    if m < lo {
      PositiveProduct(lo - m, total);
    } else if m > hi {
      PositiveProduct(m - hi, total);
    }
  }

  /** What one non-empty batch leaves of the masses. */
  ghost predicate Redistributed(joint: seq<real>, hazard: real, after: seq<real>) {
    && |joint| == |after| == MAX_RUN_LENGTH + 1
    && var evidence := Total(joint);
      if evidence > TINY then
        && Total(after) == 1.0 && after[0] == hazard
        && forall r :: 1 <= r <= MAX_RUN_LENGTH ==> after[r] == Share(GrownAt(joint, hazard, r), evidence)
      else
        && Total(after) == 1.0 + Times(1.0 - hazard, evidence) && after[0] == 1.0
        && forall r :: 1 <= r <= MAX_RUN_LENGTH ==> after[r] == GrownAt(joint, hazard, r)
  }

  ghost predicate Normalized(grown: seq<real>, after: seq<real>, evidence: real) {
    |after| == |grown| &&
    if evidence > TINY then Total(after) == 1.0 && forall r :: 0 <= r < |after| ==>
      after[r] == Share(grown[r], evidence)
    else |grown| > 0 && after == grown[0 := 1.0] && Total(after) == evidence - grown[0] + 1.0
  }

  lemma Redistribution(joint: seq<real>, hazard: real, grown: seq<real>, after: seq<real>)
    requires Grown(joint, hazard, grown) && Normalized(grown, after, Total(joint))
    ensures Redistributed(joint, hazard, after)
  {
    hide Total, Share, Times;
    if Total(joint) > TINY {
      WholeShare(hazard, Total(joint));
    } else {
      MassKept(hazard, Total(joint));
    }
  }

  lemma GrownNonnegative(joint: seq<real>, hazard: real, grown: seq<real>, r: nat)
    requires Grown(joint, hazard, grown) && 0.0 <= hazard <= 1.0 && Total(joint) >= 0.0 && r <= MAX_RUN_LENGTH
    requires forall k :: 0 <= k <= MAX_RUN_LENGTH ==> joint[k] >= 0.0
    ensures grown[r] >= 0.0
  {
    hide Total;
    NonnegativeProduct(hazard, Total(joint));
    if r > 0 {
      NonnegativeProduct(1.0 - hazard, joint[r - 1]);
    }
    NonnegativeProduct(1.0 - hazard, joint[MAX_RUN_LENGTH - 1] + joint[MAX_RUN_LENGTH]);
  }

  lemma NonnegativeShare(a: real, b: real)
    requires a >= 0.0 && b > 0.0
    ensures Share(a, b) >= 0.0
  {}

  lemma WholeShare(f: real, b: real)
    requires b > 0.0
    ensures Share(Times(f, b), b) == f
  {}

  lemma WholeIsOne(b: real)
    requires b > 0.0
    ensures b / b == 1.0
  {}

  lemma JointAt(probs: seq<real>, likelihood: seq<real>, predictive: seq<real>)
    requires |probs| == |likelihood| == |predictive|
    requires forall r :: 0 <= r < |probs| ==> predictive[r] == if probs[r] < TINY then 0.0 else likelihood[r]
    ensures |Joint(probs, likelihood)| == |probs| && forall r :: 0 <= r < |probs| ==>
      Joint(probs, likelihood)[r] == Times(probs[r], predictive[r])
  {}

  /** The residue of a reset is skipped like no mass at all. */
  lemma SameJoint(probs: seq<real>, ideal: seq<real>, likelihood: seq<real>)
    requires Resembles(probs, ideal) && |likelihood| == MAX_RUN_LENGTH + 1
    ensures Joint(probs, likelihood) == Joint(ideal, likelihood)
  {
    hide Total;
    forall r | 0 <= r <= MAX_RUN_LENGTH
      ensures Joint(probs, likelihood)[r] == Joint(ideal, likelihood)[r]
    {
      Nothing(probs[r]);
    }
  }

  lemma Nothing(x: real)
    ensures x * 0.0 == 0.0
  {}

  lemma SameCarrying(probs: seq<real>, ideal: seq<real>)
    requires Resembles(probs, ideal)
    ensures Carrying(probs) == Carrying(ideal)
  {
    hide Total;
    assert forall r :: 0 <= r <= MAX_RUN_LENGTH ==> Carrying(probs)[r] == Carrying(ideal)[r];
  }

  lemma SameShortest(probs: seq<real>, ideal: seq<real>)
    requires Resembles(probs, ideal)
    ensures Total(ideal[..5]) <= Total(probs[..5]) <= Total(ideal[..5]) + TINY
  {
    hide Total;
    if probs != ideal {
      OnlyFirst(ideal[..5]);
      PrefixTotal(probs, 5);
      PrefixTotal(probs, 1);
      PrefixTotal(probs[..5], 1);
      assert probs[..5][..1] == [] + [probs[0]];
      TotalSnoc([], probs[0]);
      NoTotal();
    }
  }

  lemma {:induction false} PrefixTotal(s: seq<real>, n: nat)
    requires n <= |s| && forall i :: 0 <= i < |s| ==> s[i] >= 0.0
    ensures Total(s[..n]) <= Total(s)
  {
    if n < |s| {
      var init := s[..|s| - 1];
      assert init[..n] == s[..n];
      PrefixTotal(init, n);
    } else {
      assert s[..n] == s;
    }
  }

  lemma IdealGrows(prior: Beta, hazard: real, history: seq<(nat, nat)>, b: (nat, nat))
    requires prior.alpha > 0.0 && prior.beta > 0.0
    ensures Ideal(prior, hazard, history + [b])
      == Refreshed(Joint(Ideal(prior, hazard, history), Likelihoods(prior, history, b.0, b.1)), hazard)
  {
    hide Joint, Likelihoods, Refreshed;
    var longer := history + [b];
    assert longer[..|longer| - 1] == history;
  }

  /** One batch keeps the masses a shadow of the ideal ones. */
  lemma StillResembles(joint: seq<real>, hazard: real, after: seq<real>)
    requires Redistributed(joint, hazard, after) && 0.0 < hazard <= 1.0 && |joint| == |after| == MAX_RUN_LENGTH + 1
    requires forall r :: 0 <= r <= MAX_RUN_LENGTH ==> joint[r] >= 0.0
    requires forall r :: 0 <= r <= MAX_RUN_LENGTH ==> after[r] >= 0.0
    requires 1.0 <= Total(after) <= 1.0 + TINY
    ensures Resembles(after, Refreshed(joint, hazard))
  {
    hide Total, Redistributed;
    if Total(joint) > TINY {
      EnoughEvidence(joint, hazard, after);
    } else {
      OnlyFirst(AtZero());
      Restarted(joint, hazard, after);
      forall r | 1 <= r <= MAX_RUN_LENGTH
        ensures after[r] < TINY
      {
        ResidueEntry(joint, hazard, after, r);
      }
    }
  }

  lemma EnoughEvidence(joint: seq<real>, hazard: real, after: seq<real>)
    requires Redistributed(joint, hazard, after) && Total(joint) > TINY
    ensures after == Refreshed(joint, hazard) && Total(after) == 1.0
  {
    hide Total, GrownAt, Share;
  }

  lemma Restarted(joint: seq<real>, hazard: real, after: seq<real>)
    requires Redistributed(joint, hazard, after) && Total(joint) <= TINY
    ensures |after| == |joint| == MAX_RUN_LENGTH + 1 && after[0] == 1.0
  {
    hide Total, GrownAt, Share;
  }

  lemma ResidueEntry(joint: seq<real>, hazard: real, after: seq<real>, r: nat)
    requires Redistributed(joint, hazard, after) && 0.0 < hazard <= 1.0 && Total(joint) <= TINY
      && 1 <= r <= MAX_RUN_LENGTH
    requires forall k :: 0 <= k <= MAX_RUN_LENGTH ==> joint[k] >= 0.0
    ensures after[r] < TINY
  {
    hide Total, Times, Share;
    var x := if r < MAX_RUN_LENGTH then joint[r - 1] else joint[r - 1] + joint[r];
    PartOfTotal(joint, r - 1);
    ProperPart(1.0 - hazard, x, TINY);
  }

  /** Neighbouring entries of nonnegative masses are part of the total. */
  lemma {:induction false} PartOfTotal(s: seq<real>, i: nat)
    requires i < |s| && forall j :: 0 <= j < |s| ==> s[j] >= 0.0
    ensures s[i] + (if i + 1 < |s| then s[i + 1] else 0.0) <= Total(s)
  {
    var init := s[..|s| - 1];
    TotalNonnegative(init);
    if i + 1 < |s| {
      PartOfTotal(init, i);
    }
  }

  /** All but a negligible part of the mass is on run lengths that count. */
  lemma MostCarries(probs: seq<real>)
    requires |probs| == MAX_RUN_LENGTH + 1 && Total(probs) >= 1.0
    ensures Total(Carrying(probs)) > TINY
    ensures exists r :: 0 <= r <= MAX_RUN_LENGTH && probs[r] >= TINY
  {
    hide Total;
    CarryingTotal(probs);
    if forall r :: 0 <= r <= MAX_RUN_LENGTH ==> probs[r] < TINY {
      AllZero(Carrying(probs));
    }
  }

  lemma {:induction false} CarryingTotal(probs: seq<real>)
    ensures Total(Carrying(probs)) >= Total(probs) - |probs| as real * TINY
  {
    if probs != [] {
      var n := |probs| - 1;
      CarryingTotal(probs[..n]);
      assert Carrying(probs)[..n] == Carrying(probs[..n]);
    }
  }

  /** Every run length that counts gives the batch some probability, so there is always evidence. */
  lemma EvidencePositive(probs: seq<real>, likelihood: seq<real>)
    requires |probs| == |likelihood| == MAX_RUN_LENGTH + 1 && Total(probs) >= 1.0
    requires forall r :: 0 <= r <= MAX_RUN_LENGTH ==> probs[r] >= 0.0 && likelihood[r] > 0.0
    ensures Total(Joint(probs, likelihood)) > 0.0
  {
    hide Total;
    MostCarries(probs);
    JointNonnegative(probs, likelihood);
    var r :| 0 <= r <= MAX_RUN_LENGTH && probs[r] >= TINY;
    PositiveProduct(probs[r], likelihood[r]);
    TotalPositive(Joint(probs, likelihood), r);
  }

  lemma TotalAfter(joint: seq<real>, hazard: real, after: seq<real>)
    requires Redistributed(joint, hazard, after)
    ensures Total(after) == if Total(joint) > TINY then 1.0 else 1.0 + Times(1.0 - hazard, Total(joint))
  {
    hide Total, Times, GrownAt, Share;
  }

  /** What a reset leaves in place is at most the evidence, and nothing only if every run restarts. */
  lemma Excess(hazard: real, evidence: real, bound: real)
    requires 0.0 <= hazard <= 1.0 && 0.0 < evidence <= bound
    ensures 0.0 <= Times(1.0 - hazard, evidence) <= bound
    ensures Times(1.0 - hazard, evidence) == 0.0 <==> hazard == 1.0
  {
    NonnegativeProduct(hazard, evidence);
    MassKept(hazard, evidence);
    if hazard < 1.0 {
      PositiveProduct(1.0 - hazard, evidence);
    }
  }

  // ---- a batch whose evidence is too small

  /** Half to the tenth is below a thousandth, and so on. */
  lemma {:induction false} HalvesAgainstThousandths(k: nat)
    ensures 0.0 < Pow(0.5, 10 * k) <= Pow(0.001, k) && (k > 0 ==> Pow(0.5, 10 * k) < Pow(0.001, k))
  {
    if k > 0 {
      HalvesAgainstThousandths(k - 1);
      TenHalves();
      PowSum(0.5, 10 * (k - 1), 10);
      assert 10 * k == 10 * (k - 1) + 10;
      var x, y := Pow(0.5, 10 * (k - 1)), Pow(0.5, 10);
      PositiveProduct(x, y);
      PositiveProduct(x, 0.001 - y);
      NonnegativeProduct(Pow(0.001, k - 1) - x, 0.001);
    }
  }

  lemma TenHalves()
    ensures 0.0 < Pow(0.5, 10) < 0.001
  {
    assert Pow(0.5, 5) == 0.03125;
    PowSum(0.5, 5, 5);
  }

  lemma HundredThousandths()
    ensures Pow(0.001, 100) == TINY
  {
    assert Pow(0.001, 5) == 1e-15;
    PowSum(0.001, 5, 5);
    PowSum(0.001, 10, 10);
    PowSum(0.001, 20, 5);
    PowSum(0.001, 25, 25);
    PowSum(0.001, 50, 50);
  }

  /** A thousand symbols received, none lost: under the flat prior this has probability 2^-1000. */
  lemma UnlikelyBatch()
    ensures 0.0 < Likelihood(Beta(1.0, 1.0), 1000, 0) < TINY
  {
    hide Pow;
    assert PredictiveLoss(Beta(1.0, 1.0)) == 0.5;
    HalvesAgainstThousandths(100);
    HundredThousandths();
  }

  /**
   * The default detector, given such a first batch: the evidence is too small to normalise, and the masses it leaves
   * add up to more than one.
   */
  method ResetLeavesResidue() returns (b: BayesianChangepoint)
    ensures fresh(b) && b.Valid() && b.hazard == 0.01 && b.prior == Beta(1.0, 1.0) && b.history == [(1000, 0)]
    ensures 1.0 < Total(b.runProbs[..]) < 1.0 + TINY
  {
    hide Total, Joint, Likelihood, Likelihoods, Ideal, Resembles;
    b := new BayesianChangepoint(0.01, Beta(1.0, 1.0));
    ghost var joint := Joint(b.runProbs[..], Likelihoods(b.prior, [], 1000, 0));
    FirstEvidence(b.runProbs[..], b.prior, 1000, 0);
    UnlikelyBatch();
    b.Update(1000, 0);
    PositiveProduct(1.0 - b.hazard, Total(joint));
    ProperPart(1.0 - b.hazard, Total(joint), TINY);
  }

  /** Before the first batch all evidence is the batch's probability under the prior. */
  lemma FirstEvidence(probs: seq<real>, prior: Beta, received: nat, lost: nat)
    requires |probs| == MAX_RUN_LENGTH + 1 && probs[0] == 1.0 && forall r :: 1 <= r <= MAX_RUN_LENGTH ==>
      probs[r] == 0.0
    requires prior.alpha > 0.0 && prior.beta > 0.0
    ensures Total(Joint(probs, Likelihoods(prior, [], received, lost))) == Likelihood(prior, received, lost)
  {
    hide Total, Likelihood;
    NoBatches();
    OnlyFirst(Joint(probs, Likelihoods(prior, [], received, lost)));
  }

  /** The first r run lengths have grown; nothing has moved into the later ones or into zero yet. */
  ghost predicate Growing(joint: seq<real>, hazard: real, probs: seq<real>, restart: real, r: nat) {
    && r <= MAX_RUN_LENGTH && |joint| == |probs| == MAX_RUN_LENGTH + 1
    && restart == Times(hazard, Total(joint[..r])) && Total(probs) == Times(1.0 - hazard, Total(joint[..r]))
      && probs[0] == 0.0
    && (forall k :: 1 <= k <= r ==> probs[k] == Times(1.0 - hazard, joint[k - 1]))
    && (forall k :: r < k <= MAX_RUN_LENGTH ==> probs[k] == 0.0)
  }

  lemma GrownAll(joint: seq<real>, hazard: real, probs: seq<real>, restart: real)
    requires Growing(joint, hazard, probs, restart, MAX_RUN_LENGTH)
    ensures |joint| == |probs| == MAX_RUN_LENGTH + 1
    ensures restart == Times(hazard, Total(joint[..MAX_RUN_LENGTH]))
    ensures Total(probs) == Times(1.0 - hazard, Total(joint[..MAX_RUN_LENGTH])) && probs[0] == 0.0
    ensures forall k :: 1 <= k <= MAX_RUN_LENGTH ==> probs[k] == Times(1.0 - hazard, joint[k - 1])
  {}

  lemma GrowStep(joint: seq<real>, r: nat, before: seq<real>, hazard: real, mass: real, grown: real, restarted: real,
        restart: real)
    requires Growing(joint, hazard, before, restart, r) && r < MAX_RUN_LENGTH && mass == joint[r]
    requires grown == Times(mass, 1.0 - hazard) && restarted == Times(mass, hazard)
    ensures Growing(joint, hazard, before[r + 1 := grown], restart + restarted, r + 1) && before[r + 1] == 0.0
  {
    hide Total, Times;
    assert joint[..r + 1] == joint[..r] + [joint[r]];
    TotalSnoc(joint[..r], joint[r]);
    TotalUpdate(before, r + 1, grown);
    TimesSum(1.0 - hazard, Total(joint[..r]), mass);
    TimesSum(hazard, Total(joint[..r]), mass);
  }

  lemma AbsorbTotals(joint: seq<real>, grown: seq<real>, hazard: real, restart: real)
    requires |joint| == |grown| == MAX_RUN_LENGTH + 1 && grown[0] == 0.0
    requires Total(grown) == Times(1.0 - hazard, Total(joint[..MAX_RUN_LENGTH]))
    requires restart == Times(hazard, Total(joint[..MAX_RUN_LENGTH])) + Times(joint[MAX_RUN_LENGTH], hazard)
    ensures restart == Times(hazard, Total(joint))
    ensures var longest := grown[MAX_RUN_LENGTH] + Times(joint[MAX_RUN_LENGTH], 1.0 - hazard);
      Total(grown[MAX_RUN_LENGTH := longest][0 := restart]) == Total(joint)
  {
    hide Total, Times;
    var mass, most := joint[MAX_RUN_LENGTH], Total(joint[..MAX_RUN_LENGTH]);
    var longest := grown[MAX_RUN_LENGTH] + Times(mass, 1.0 - hazard);
    assert joint == joint[..MAX_RUN_LENGTH] + [mass];
    TotalSnoc(joint[..MAX_RUN_LENGTH], mass);
    TotalUpdate(grown, MAX_RUN_LENGTH, longest);
    TotalUpdate(grown[MAX_RUN_LENGTH := longest], 0, restart);
    TimesSum(1.0 - hazard, most, mass);
    TimesSum(hazard, most, mass);
    MassKept(hazard, Total(joint));
  }

  function Share(a: real, b: real): real
    requires b != 0.0
  {
    a / b
  }

  lemma OnlyFirst(s: seq<real>)
    requires |s| > 0 && forall i :: 1 <= i < |s| ==> s[i] == 0.0
    ensures Total(s) == s[0]
  {
    AllZero(s[0 := 0.0]);
    TotalUpdate(s, 0, 0.0);
  }
}
