/**
  Ensemble consensus: weighted mean and deviation of the models' probabilities, and the gates behind it.
  Arithmetic is exact; the deviation enters as a witness whose square is the variance.
 */
module Consensus {
  import opened Options
  import opened Permutations
  import opened Reals

  datatype Prediction = Prediction(model: string, weight: real, probability: real)

  /** One usable prediction: a positive weight and a probability in [0, 1]. */
  datatype Vote = Vote(weight: real, probability: real)

  datatype Direction = Up | Down | Flat | NoModels

  datatype Decision = Buy | Sell | Avoid

  /** The values before they are rounded for output. */
  datatype Result =
    Result(decision: Decision, direction: Direction, probability: real, confidence: real, agreement: real, used: nat)

  function Clip(x: real): real {
    if x < 0.0 then 0.0 else if x > 1.0 then 1.0 else x
  }

  // ----- Votes -----

  function PositiveVote(p: Prediction): seq<Vote> {
    if p.weight > 0.0 then [Vote(p.weight, Clip(p.probability))] else []
  }

  function EqualVote(p: Prediction): seq<Vote> {
    [Vote(1.0, Clip(p.probability))]
  }

  /** Predictions with a positive weight vote; when there are none, all vote with equal weight. */
  function Votes(ps: seq<Prediction>): seq<Vote> {
    if Collect(ps, PositiveVote) != [] then Collect(ps, PositiveVote) else Collect(ps, EqualVote)
  }

  function Weight(v: Vote): real { v.weight }

  function Weighted(v: Vote): real { v.weight * v.probability }

  function SquareFrom(mean: real): Vote -> real {
    (v: Vote) => v.weight * ((v.probability - mean) * (v.probability - mean))
  }

  ghost predicate Proper(vs: seq<Vote>) {
    vs != [] && forall i :: 0 <= i < |vs| ==> vs[i].weight > 0.0 && 0.0 <= vs[i].probability <= 1.0
  }

  lemma {:induction false} WeightIsPositive(vs: seq<Vote>)
    requires Proper(vs)
    ensures Total(vs, Weight) > 0.0
  {
    if |vs| == 1 {
      assert vs[1..] == [];
    } else {
      assert forall i :: 0 <= i < |vs[1..]| ==> vs[1..][i] == vs[i + 1];
      WeightIsPositive(vs[1..]);
    }
  }

  function Mean(vs: seq<Vote>): real
    requires Proper(vs)
  {
    WeightIsPositive(vs);
    Total(vs, Weighted) / Total(vs, Weight)
  }

  function Variance(vs: seq<Vote>): real
    requires Proper(vs)
  {
    WeightIsPositive(vs);
    Total(vs, SquareFrom(Mean(vs))) / Total(vs, Weight)
  }

  ghost predicate IsDeviation(std: real, vs: seq<Vote>)
    requires Proper(vs)
  {
    std >= 0.0 && std * std == Variance(vs)
  }

  lemma {:induction false} PositiveAreProper(ps: seq<Prediction>)
    ensures Collect(ps, PositiveVote) != [] ==> Proper(Collect(ps, PositiveVote))
    ensures |Collect(ps, PositiveVote)| <= |ps|
  {
    if ps != [] { PositiveAreProper(ps[1..]); }
  }

  lemma {:induction false} EqualAreProper(ps: seq<Prediction>)
    ensures ps != [] ==> Proper(Collect(ps, EqualVote))
    ensures |Collect(ps, EqualVote)| == |ps|
  {
    if ps != [] { EqualAreProper(ps[1..]); }
  }

  lemma VotesAreProper(ps: seq<Prediction>)
    requires ps != []
    ensures Proper(Votes(ps)) && |Votes(ps)| <= |ps|
  {
    PositiveAreProper(ps);
    EqualAreProper(ps);
  }

  // ----- Consensus -----

  function Side(p: real): Direction {
    if p > 0.5 then Up else if p < 0.5 then Down else Flat
  }

  function DecisionOf(d: Direction): Decision {
    match d
    case Up => Buy
    case Down => Sell
    case Flat | NoModels => Avoid
  }

  function Agreement(std: real): real {
    Clip(1.0 - std / 0.5)
  }

  function Strength(p: real): real {
    Abs(p - 0.5) * 2.0
  }

  /** Disagreement costs at most half of the strength. */
  function Discounted(strength: real, agreement: real): real {
    strength * (0.5 + 0.5 * agreement)
  }

  function Confidence(p: real, std: real): real {
    Clip(Discounted(Strength(p), Agreement(std)))
  }

  function Judged(p: real, std: real, avoidBand: real, minConfidence: real, used: nat): Result {
    var confidence := Confidence(p, std);
    var decision := if Abs(p - 0.5) < avoidBand || confidence < minConfidence then Avoid else DecisionOf(Side(p));
    Result(decision, Side(p), p, confidence, Agreement(std), used)
  }

  function ConsensusOf(ps: seq<Prediction>, std: real, avoidBand: real, minConfidence: real): Result {
    if ps == [] then Result(Avoid, NoModels, 0.5, 0.0, 0.0, 0)
    else
      VotesAreProper(ps);
      Judged(Mean(Votes(ps)), std, avoidBand, minConfidence, |Votes(ps)|)
  }

  // ----- The order of the predictions does not matter -----

  lemma VotesOfPermutation(ps: seq<Prediction>, qs: seq<Prediction>)
    requires multiset(ps) == multiset(qs)
    ensures multiset(Votes(ps)) == multiset(Votes(qs)) && |Votes(ps)| == |Votes(qs)|
  {
    CollectOfPermutation(ps, qs, PositiveVote);
    CollectOfPermutation(ps, qs, EqualVote);
    SameSize(Collect(ps, PositiveVote), Collect(qs, PositiveVote));
    SameSize(Votes(ps), Votes(qs));
  }

  lemma StatisticsOfPermutation(vs: seq<Vote>, us: seq<Vote>)
    requires multiset(vs) == multiset(us) && Proper(vs) && Proper(us)
    ensures Mean(vs) == Mean(us) && Variance(vs) == Variance(us)
  {
    TotalOfPermutation(vs, us, Weight);
    TotalOfPermutation(vs, us, Weighted);
    TotalOfPermutation(vs, us, SquareFrom(Mean(vs)));
  }

  /** Concurrent and sequential evaluation agree: the consensus does not depend on the order of the predictions. */
  lemma OrderDoesNotMatter(ps: seq<Prediction>, qs: seq<Prediction>, std: real, avoidBand: real, minConfidence: real)
    requires multiset(ps) == multiset(qs)
    ensures ConsensusOf(ps, std, avoidBand, minConfidence) == ConsensusOf(qs, std, avoidBand, minConfidence)
    ensures ps != [] ==>
              && Proper(Votes(ps)) && Proper(Votes(qs))
              && (IsDeviation(std, Votes(ps)) <==> IsDeviation(std, Votes(qs)))
  {
    SameSize(ps, qs);
    if ps != [] {
      VotesAreProper(ps);
      VotesAreProper(qs);
      VotesOfPermutation(ps, qs);
      StatisticsOfPermutation(Votes(ps), Votes(qs));
    }
  }

  // ----- Running the models -----

  /** A model evaluated on the current input: a prediction, or nothing when evaluation raises. */
  datatype Model = Model(name: string, outcome: Option<Prediction>)

  function Success(m: Model): seq<Prediction> {
    if m.outcome.Some? then [m.outcome.value] else []
  }

  /** Results in registration order, or in whatever order the concurrent evaluations complete. */
  method RunModels(models: seq<Model>, concurrent: bool, completed: seq<Model>) returns (results: seq<Prediction>)
    requires multiset(completed) == multiset(models)
    ensures multiset(results) == multiset(Collect(models, Success))
    ensures !concurrent ==> results == Collect(models, Success)
  {
    var order := if concurrent && |models| > 1 then completed else models;
    results := [];
    for i := 0 to |order|
      invariant results == Collect(order[..i], Success)
    {
      assert order[..i + 1] == order[..i] + [order[i]];
      CollectSnoc(order[..i], order[i], Success);
      if order[i].outcome.Some? {
        results := results + [order[i].outcome.value];
      }
    }
    assert order[..|order|] == order;
    CollectOfPermutation(order, models, Success);
  }

  // ----- The clamps never bite -----

  lemma UnitProduct(b: real, a: real)
    requires 0.0 <= a && 0.0 <= b <= 1.0
    ensures 0.0 <= a * b <= a
  {
  }

  lemma TermBound(w: real, x: real, mean: real)
    requires w > 0.0 && 0.0 <= x <= 1.0
    ensures 0.0 <= w * ((x - mean) * (x - mean)) <= (1.0 - 2.0 * mean) * (w * x) + (mean * mean) * w
  {
    var d := x - mean;
    assert d * d >= 0.0;
    assert x * x <= x;
    assert d * d == x * x - 2.0 * mean * x + mean * mean;
    assert d * d <= (1.0 - 2.0 * mean) * x + mean * mean;
    assert w * (d * d) <= w * ((1.0 - 2.0 * mean) * x + mean * mean);
    assert w * ((1.0 - 2.0 * mean) * x + mean * mean) == (1.0 - 2.0 * mean) * (w * x) + (mean * mean) * w;
  }

  lemma AddBounds(k: real, m: real, x: real, xs: real, w: real, ws: real, t: real, ts: real)
    requires t <= k * x + m * w && ts <= k * xs + m * ws
    ensures t + ts <= k * (x + xs) + m * (w + ws)
  {
    assert k * (x + xs) == k * x + k * xs;
    assert m * (w + ws) == m * w + m * ws;
  }

  ghost predicate Within(k: real, m: real, squares: real, weighted: real, weight: real) {
    0.0 <= squares <= k * weighted + m * weight
  }

  lemma TermWithin(mean: real, v: Vote)
    requires v.weight > 0.0 && 0.0 <= v.probability <= 1.0
    ensures Within(1.0 - 2.0 * mean, mean * mean, SquareFrom(mean)(v), Weighted(v), Weight(v))
    ensures 0.0 <= Weighted(v) <= Weight(v)
  {
    TermBound(v.weight, v.probability, mean);
    UnitProduct(v.probability, v.weight);
  }

  lemma AddWithin(k: real, m: real, t: real, x: real, w: real, ts: real, xs: real, ws: real)
    requires Within(k, m, t, x, w) && Within(k, m, ts, xs, ws)
    ensures Within(k, m, t + ts, x + xs, w + ws)
  {
    AddBounds(k, m, x, xs, w, ws, t, ts);
  }

  lemma {:induction false} SquaresBound(vs: seq<Vote>, mean: real)
    requires vs == [] || Proper(vs)
    ensures Within(1.0 - 2.0 * mean, mean * mean, Total(vs, SquareFrom(mean)), Total(vs, Weighted), Total(vs, Weight))
    ensures 0.0 <= Total(vs, Weighted) <= Total(vs, Weight)
  {
    if vs != [] {
      var v, rest := vs[0], vs[1..];
      assert forall i :: 0 <= i < |rest| ==> rest[i] == vs[i + 1];
      SquaresBound(rest, mean);
      TermWithin(mean, v);
      AddWithin(1.0 - 2.0 * mean, mean * mean, SquareFrom(mean)(v), Weighted(v), Weight(v),
                Total(rest, SquareFrom(mean)), Total(rest, Weighted), Total(rest, Weight));
    }
  }

  lemma MeanInRange(s: real, w: real)
    requires w > 0.0 && 0.0 <= s <= w
    ensures 0.0 <= s / w <= 1.0
  {
  }

  lemma QuotientWithin(s: real, w: real, q: real, p: real)
    requires w > 0.0 && p == s / w && Within(1.0 - 2.0 * p, p * p, q, s, w)
    ensures 0.0 <= q / w <= p * (1.0 - p)
  {
    assert s == p * w;
    assert (1.0 - 2.0 * p) * (p * w) + p * p * w == (p * (1.0 - p)) * w;
  }

  lemma QuarterBound(p: real)
    ensures p * (1.0 - p) <= 0.25
  {
    assert (p - 0.5) * (p - 0.5) >= 0.0;
  }

  lemma MeanBound(vs: seq<Vote>)
    requires Proper(vs)
    ensures 0.0 <= Mean(vs) <= 1.0
  {
    WeightIsPositive(vs);
    SquaresBound(vs, 0.0);
    MeanInRange(Total(vs, Weighted), Total(vs, Weight));
  }

  lemma VarianceWithin(vs: seq<Vote>, p: real)
    requires Proper(vs) && p == Mean(vs)
    ensures 0.0 <= Variance(vs) <= p * (1.0 - p)
  {
    WeightIsPositive(vs);
    SquaresBound(vs, p);
    QuotientWithin(Total(vs, Weighted), Total(vs, Weight), Total(vs, SquareFrom(p)), p);
  }

  /** The weighted variance is at most p(1 - p), hence at most 1/4. */
  lemma VarianceBound(vs: seq<Vote>)
    requires Proper(vs)
    ensures 0.0 <= Mean(vs) <= 1.0
    ensures 0.0 <= Variance(vs) <= Mean(vs) * (1.0 - Mean(vs)) <= 0.25
  {
    MeanBound(vs);
    VarianceWithin(vs, Mean(vs));
    QuarterBound(Mean(vs));
  }

  lemma RootBound(s: real)
    requires s >= 0.0 && s * s <= 0.25
    ensures s <= 0.5
  {
  }

  lemma DiscountedInRange(strength: real, agreement: real)
    requires 0.0 <= strength && 0.0 <= agreement <= 1.0
    ensures 0.0 <= Discounted(strength, agreement) <= strength
  {
    UnitProduct(0.5 + 0.5 * agreement, strength);
    assert Discounted(strength, agreement) == strength * (0.5 + 0.5 * agreement);
  }

  /** So agreement and confidence are their formulas: neither clamp ever changes a value. */
  lemma ClampsNeverBite(vs: seq<Vote>, std: real)
    requires Proper(vs) && IsDeviation(std, vs)
    ensures Agreement(std) == 1.0 - std / 0.5
    ensures Confidence(Mean(vs), std) == Discounted(Strength(Mean(vs)), Agreement(std))
    ensures 0.0 <= Confidence(Mean(vs), std) <= Strength(Mean(vs)) <= 1.0
  {
    VarianceBound(vs);
    RootBound(std);
    DiscountedInRange(Strength(Mean(vs)), Agreement(std));
  }

  // ----- Mirroring -----

  function Mirrored(v: Vote): Vote {
    Vote(v.weight, 1.0 - v.probability)
  }

  function Mirror(vs: seq<Vote>): seq<Vote> {
    if vs == [] then [] else [Mirrored(vs[0])] + Mirror(vs[1..])
  }

  function MirrorAll(ps: seq<Prediction>): seq<Prediction> {
    if ps == [] then [] else [ps[0].(probability := 1.0 - ps[0].probability)] + MirrorAll(ps[1..])
  }

  function Opposite(d: Decision): Decision {
    match d
    case Buy => Sell
    case Sell => Buy
    case Avoid => Avoid
  }

  lemma {:induction false} MirrorAppend(a: seq<Vote>, b: seq<Vote>)
    ensures Mirror(a + b) == Mirror(a) + Mirror(b)
  {
    if a == [] {
      assert a + b == b;
    } else {
      assert (a + b)[1..] == a[1..] + b;
      MirrorAppend(a[1..], b);
    }
  }

  lemma {:induction false} MirrorCollect(ps: seq<Prediction>, f: Prediction -> seq<Vote>)
    requires forall p: Prediction :: f(p.(probability := 1.0 - p.probability)) == Mirror(f(p))
    ensures Collect(MirrorAll(ps), f) == Mirror(Collect(ps, f))
    ensures |MirrorAll(ps)| == |ps|
  {
    if ps != [] {
      var rest := ps[1..];
      MirrorCollect(rest, f);
      assert MirrorAll(ps)[1..] == MirrorAll(rest);
      MirrorAppend(f(ps[0]), Collect(rest, f));
    }
  }

  lemma {:induction false} MirrorVotes(ps: seq<Prediction>)
    ensures Votes(MirrorAll(ps)) == Mirror(Votes(ps)) && |MirrorAll(ps)| == |ps|
  {
    forall p: Prediction
      ensures PositiveVote(p.(probability := 1.0 - p.probability)) == Mirror(PositiveVote(p))
      ensures EqualVote(p.(probability := 1.0 - p.probability)) == Mirror(EqualVote(p))
    {
      assert EqualVote(p)[1..] == [];
      if p.weight > 0.0 { assert PositiveVote(p)[1..] == []; }
    }
    MirrorCollect(ps, PositiveVote);
    MirrorCollect(ps, EqualVote);
  }

  lemma MirrorTerm(w: real, x: real, m: real)
    ensures w * ((1.0 - x - (1.0 - m)) * (1.0 - x - (1.0 - m))) == w * ((x - m) * (x - m))
    ensures w * (1.0 - x) == w - w * x
  {
    assert 1.0 - x - (1.0 - m) == -(x - m);
    assert (-(x - m)) * (-(x - m)) == (x - m) * (x - m);
  }

  lemma MirrorValues(v: Vote, mean: real)
    ensures Weight(Mirrored(v)) == Weight(v) && Weighted(Mirrored(v)) == Weight(v) - Weighted(v)
    ensures SquareFrom(1.0 - mean)(Mirrored(v)) == SquareFrom(mean)(v)
  {
    MirrorTerm(v.weight, v.probability, mean);
  }

  lemma {:induction false} MirrorWeights(vs: seq<Vote>)
    ensures Total(Mirror(vs), Weight) == Total(vs, Weight)
    ensures Total(Mirror(vs), Weighted) == Total(vs, Weight) - Total(vs, Weighted)
  {
    if vs != [] {
      MirrorWeights(vs[1..]);
      assert Mirror(vs)[0] == Mirrored(vs[0]) && Mirror(vs)[1..] == Mirror(vs[1..]);
      MirrorValues(vs[0], 0.0);
    }
  }

  lemma {:induction false} MirrorSquares(vs: seq<Vote>, mean: real)
    ensures Total(Mirror(vs), SquareFrom(1.0 - mean)) == Total(vs, SquareFrom(mean))
  {
    if vs != [] {
      MirrorSquares(vs[1..], mean);
      assert Mirror(vs)[0] == Mirrored(vs[0]) && Mirror(vs)[1..] == Mirror(vs[1..]);
      MirrorValues(vs[0], mean);
    }
  }

  lemma {:induction false} MirrorIsProper(vs: seq<Vote>)
    requires Proper(vs)
    ensures Proper(Mirror(vs)) && |Mirror(vs)| == |vs|
  {
    if |vs| == 1 {
      assert Mirror(vs[1..]) == [];
    } else {
      assert forall i :: 0 <= i < |vs[1..]| ==> vs[1..][i] == vs[i + 1];
      MirrorIsProper(vs[1..]);
    }
  }

  lemma MirrorQuotient(s: real, w: real)
    requires w > 0.0
    ensures (w - s) / w == 1.0 - s / w
  {
    var q := s / w;
    assert s == q * w;
    DivideUnique(w - s, w, 1.0 - q);
  }

  lemma {:induction false} MirrorStatistics(vs: seq<Vote>)
    requires Proper(vs)
    ensures Proper(Mirror(vs)) && |Mirror(vs)| == |vs|
    ensures Mean(Mirror(vs)) == 1.0 - Mean(vs) && Variance(Mirror(vs)) == Variance(vs)
  {
    MirrorIsProper(vs);
    MirrorWeights(vs);
    MirrorSquares(vs, Mean(vs));
    WeightIsPositive(vs);
    MirrorQuotient(Total(vs, Weighted), Total(vs, Weight));
  }

  lemma MirrorJudged(p: real, std: real, avoidBand: real, minConfidence: real, used: nat)
    ensures var a := Judged(p, std, avoidBand, minConfidence, used);
      var b := Judged(1.0 - p, std, avoidBand, minConfidence, used);
      b.decision == Opposite(a.decision) && b.confidence == a.confidence && b.agreement == a.agreement
      && DecisionOf(b.direction) == Opposite(DecisionOf(a.direction))
  {
    assert Strength(1.0 - p) == Strength(p);
  }

  /** Mapping every probability p to 1 - p swaps the decision and keeps agreement and confidence. */
  lemma {:induction false} MirrorSwapsDecision(ps: seq<Prediction>, std: real, avoidBand: real, minConfidence: real)
    requires ps != []
    ensures Proper(Votes(ps)) && Proper(Votes(MirrorAll(ps)))
    ensures IsDeviation(std, Votes(MirrorAll(ps))) <==> IsDeviation(std, Votes(ps))
    ensures var a := ConsensusOf(ps, std, avoidBand, minConfidence);
      var b := ConsensusOf(MirrorAll(ps), std, avoidBand, minConfidence);
      && b.probability == 1.0 - a.probability && b.decision == Opposite(a.decision)
      && DecisionOf(b.direction) == Opposite(DecisionOf(a.direction))
      && b.confidence == a.confidence && b.agreement == a.agreement && b.used == a.used
  {
    VotesAreProper(ps);
    MirrorVotes(ps);
    MirrorStatistics(Votes(ps));
    MirrorJudged(Mean(Votes(ps)), std, avoidBand, minConfidence, |Votes(ps)|);
  }

  // ----- From the ensemble to a recommendation -----

  /** `units` is x rounded to a multiple of 1/scale, whichever way ties go. */
  ghost predicate Rounds(x: real, units: int, scale: real) {
    -0.5 <= x * scale - units as real <= 0.5
  }

  /** What inference passes on: the direction's decision, and the number of models used. */
  datatype Inference = Inference(decision: Decision, used: nat)

  /** Probability, confidence and agreement arrive rounded to four digits; out-of-range values are refused. */
  function Infer(r: Result, probability4: int, confidence4: int, agreement4: int): Inference {
    if !(0 <= probability4 <= 10000) || !(0 <= confidence4 <= 1000000) || !(0 <= agreement4 <= 10000) || r.used < 1
    then Inference(Avoid, 0)
    else Inference(DecisionOf(r.direction), r.used)
  }

  datatype PriceAction = PriceAction(confluence: real, chop: real, alignment: real, trend: real)

  predicate Blocked(pa: PriceAction) {
    pa.chop > 0.80 || pa.confluence < 0.50 || (pa.alignment == 0.0 && Abs(pa.trend) > 0.15)
  }

  /** A confidence of at most one is read as a fraction, anything above as a percentage. */
  function Percent(confidence: real): real {
    if 0.0 <= confidence <= 1.0 then confidence * 100.0 else confidence
  }

  /** The recommended side; `Avoid` stands for the answer to wait. */
  function Recommend(i: Inference, confidence2: int, pa: PriceAction): Decision {
    if Percent(confidence2 as real / 100.0) >= 65.0 && i.used >= 1 && !Blocked(pa) then i.decision else Avoid
  }

  lemma RoundedUnit(x: real, units: int, scale: int)
    requires scale > 0 && 0.0 <= x <= 1.0 && Rounds(x, units, scale as real)
    ensures 0 <= units <= scale
  {
    var k := scale as real;
    assert 0.0 <= x * k <= k;
  }

  lemma InUnitRange(vs: seq<Vote>, std: real)
    requires Proper(vs) && IsDeviation(std, vs)
    ensures 0.0 <= Mean(vs) <= 1.0 && 0.0 <= Confidence(Mean(vs), std) <= 1.0 && 0.0 <= Agreement(std) <= 1.0
  {
    VarianceBound(vs);
    ClampsNeverBite(vs, std);
  }

  /** Inference never refuses what the ensemble computes. */
  lemma InferenceAccepts(ps: seq<Prediction>, std: real, avoidBand: real, minConfidence: real,
                         probability4: int, confidence4: int, agreement4: int)
    requires ps != [] && Proper(Votes(ps)) && IsDeviation(std, Votes(ps))
    requires var r := ConsensusOf(ps, std, avoidBand, minConfidence);
      Rounds(r.probability, probability4, 10000.0) && Rounds(r.confidence, confidence4, 10000.0)
      && Rounds(r.agreement, agreement4, 10000.0)
    ensures var r := ConsensusOf(ps, std, avoidBand, minConfidence);
      Infer(r, probability4, confidence4, agreement4) == Inference(DecisionOf(Side(Mean(Votes(ps)))), |Votes(ps)|)
    ensures 0 <= confidence4 <= 10000
  {
    var p := Mean(Votes(ps));
    InUnitRange(Votes(ps), std);
    RoundedUnit(p, probability4, 10000);
    RoundedUnit(Confidence(p, std), confidence4, 10000);
    RoundedUnit(Agreement(std), agreement4, 10000);
  }

  /** 65 after both roundings means at least 0.64495 before, and so a mean at least 0.322475 away from 0.5. */
  lemma ConfidentIsFar(p: real, std: real, confidence4: int, confidence2: int)
    requires Rounds(Confidence(p, std), confidence4, 10000.0)
    requires Rounds(confidence4 as real / 10000.0, confidence2, 100.0)
    requires 0 <= confidence4 <= 10000 && Percent(confidence2 as real / 100.0) >= 65.0
    requires Confidence(p, std) <= Strength(p)
    ensures Abs(p - 0.5) >= 0.322475
  {
    assert confidence2 >= 65;
    assert confidence4 >= 6450;
  }

  /** End to end: a recommendation to buy or sell means the ensemble's probability is far over on that side. */
  lemma RecommendationIsFarFromEven(ps: seq<Prediction>, std: real, avoidBand: real, minConfidence: real,
                                    probability4: int, confidence4: int, agreement4: int, confidence2: int,
                                    pa: PriceAction)
    requires ps != [] && Proper(Votes(ps)) && IsDeviation(std, Votes(ps))
    requires var r := ConsensusOf(ps, std, avoidBand, minConfidence);
      Rounds(r.probability, probability4, 10000.0) && Rounds(r.confidence, confidence4, 10000.0)
      && Rounds(r.agreement, agreement4, 10000.0)
    requires Rounds(confidence4 as real / 10000.0, confidence2, 100.0)
    ensures var r := ConsensusOf(ps, std, avoidBand, minConfidence);
      var advice := Recommend(Infer(r, probability4, confidence4, agreement4), confidence2, pa);
      && (advice == Buy ==> Mean(Votes(ps)) >= 0.822475)
      && (advice == Sell ==> Mean(Votes(ps)) <= 0.177525)
      && (advice != Avoid ==> !Blocked(pa))
  {
    InferenceAccepts(ps, std, avoidBand, minConfidence, probability4, confidence4, agreement4);
    ClampsNeverBite(Votes(ps), std);
    if Percent(confidence2 as real / 100.0) >= 65.0 {
      ConfidentIsFar(Mean(Votes(ps)), std, confidence4, confidence2);
    }
  }

  lemma DecisionMatchesIff(p: real, std: real, avoidBand: real, minConfidence: real, used: nat)
    requires Side(p) != Flat
    ensures Judged(p, std, avoidBand, minConfidence, used).decision == DecisionOf(Side(p))
            <==> Abs(p - 0.5) >= avoidBand && Confidence(p, std) >= minConfidence
  {
  }

  /**
    Inference reads the direction, not the ensemble's own decision.  A recommendation to buy or sell is that
    decision exactly when the ensemble's own two gates pass, before any rounding.
   */
  lemma RecommendationMatchesDecisionIff(ps: seq<Prediction>, std: real, avoidBand: real, minConfidence: real,
                                         probability4: int, confidence4: int, agreement4: int, confidence2: int,
                                         pa: PriceAction)
    requires ps != [] && Proper(Votes(ps)) && IsDeviation(std, Votes(ps))
    requires var r := ConsensusOf(ps, std, avoidBand, minConfidence);
      Rounds(r.probability, probability4, 10000.0) && Rounds(r.confidence, confidence4, 10000.0)
      && Rounds(r.agreement, agreement4, 10000.0)
    requires Recommend(Infer(ConsensusOf(ps, std, avoidBand, minConfidence), probability4, confidence4, agreement4),
                       confidence2, pa) != Avoid
    ensures var r := ConsensusOf(ps, std, avoidBand, minConfidence);
      r.decision == Recommend(Infer(r, probability4, confidence4, agreement4), confidence2, pa)
      <==> Abs(r.probability - 0.5) >= avoidBand && r.confidence >= minConfidence
  {
    InferenceAccepts(ps, std, avoidBand, minConfidence, probability4, confidence4, agreement4);
    DecisionMatchesIff(Mean(Votes(ps)), std, avoidBand, minConfidence, |Votes(ps)|);
  }

  const AVOID_BAND := 0.10
  const MIN_CONFIDENCE := 0.65

  lemma RoundedPercent(confidence: real, confidence4: int, confidence2: int)
    requires Rounds(confidence, confidence4, 10000.0) && Rounds(confidence4 as real / 10000.0, confidence2, 100.0)
    requires 0 <= confidence4 <= 10000
    ensures Percent(confidence2 as real / 100.0) >= 65.0 ==> confidence >= 0.64495
    ensures confidence > 0.64505 ==> Percent(confidence2 as real / 100.0) >= 65.0
  {
    if confidence2 >= 65 { assert confidence4 >= 6450; }
    if confidence > 0.64505 { assert confidence4 >= 6451 && confidence2 >= 65; }
  }

  /**
    With the default gates: a recommendation goes against the ensemble exactly at confidences from 0.64495 to below
    0.65.
   */
  lemma ConflictIff(ps: seq<Prediction>, std: real,
                    probability4: int, confidence4: int, agreement4: int, confidence2: int, pa: PriceAction)
    requires ps != [] && Proper(Votes(ps)) && IsDeviation(std, Votes(ps))
    requires var r := ConsensusOf(ps, std, AVOID_BAND, MIN_CONFIDENCE);
      Rounds(r.probability, probability4, 10000.0) && Rounds(r.confidence, confidence4, 10000.0)
      && Rounds(r.agreement, agreement4, 10000.0)
    requires Rounds(confidence4 as real / 10000.0, confidence2, 100.0)
    requires Recommend(Infer(ConsensusOf(ps, std, AVOID_BAND, MIN_CONFIDENCE), probability4, confidence4, agreement4),
                       confidence2, pa) != Avoid
    ensures var r := ConsensusOf(ps, std, AVOID_BAND, MIN_CONFIDENCE);
      r.decision != Recommend(Infer(r, probability4, confidence4, agreement4), confidence2, pa)
      <==> 0.64495 <= r.confidence < 0.65
  {
    RecommendationMatchesDecisionIff(ps, std, AVOID_BAND, MIN_CONFIDENCE,
                                     probability4, confidence4, agreement4, confidence2, pa);
    InferenceAccepts(ps, std, AVOID_BAND, MIN_CONFIDENCE, probability4, confidence4, agreement4);
    ClampsNeverBite(Votes(ps), std);
    RoundedPercent(Confidence(Mean(Votes(ps)), std), confidence4, confidence2);
  }

  /** And past the last rounding step of that range the conflict arises whichever way ties are rounded. */
  lemma ConflictIsForced(ps: seq<Prediction>, std: real,
                         probability4: int, confidence4: int, agreement4: int, confidence2: int, pa: PriceAction)
    requires ps != [] && Proper(Votes(ps)) && IsDeviation(std, Votes(ps)) && !Blocked(pa)
    requires var r := ConsensusOf(ps, std, AVOID_BAND, MIN_CONFIDENCE);
      Rounds(r.probability, probability4, 10000.0) && Rounds(r.confidence, confidence4, 10000.0)
      && Rounds(r.agreement, agreement4, 10000.0)
    requires Rounds(confidence4 as real / 10000.0, confidence2, 100.0)
    requires 0.64505 < ConsensusOf(ps, std, AVOID_BAND, MIN_CONFIDENCE).confidence < 0.65
    ensures var r := ConsensusOf(ps, std, AVOID_BAND, MIN_CONFIDENCE);
      r.decision == Avoid && Recommend(Infer(r, probability4, confidence4, agreement4), confidence2, pa) != Avoid
  {
    InferenceAccepts(ps, std, AVOID_BAND, MIN_CONFIDENCE, probability4, confidence4, agreement4);
    ClampsNeverBite(Votes(ps), std);
    RoundedPercent(Confidence(Mean(Votes(ps)), std), confidence4, confidence2);
    PositiveVotesCount(ps);
  }

  lemma PositiveVotesCount(ps: seq<Prediction>)
    requires ps != []
    ensures |Votes(ps)| >= 1
  {
    VotesAreProper(ps);
  }

  /** One such input: a single model at 0.8227. */
  lemma AvoidedYetRecommended()
    ensures var ps, pa := [Prediction("rf", 1.0, 0.8227)], PriceAction(0.6, 0.2, 1.0, 0.3);
      var r := ConsensusOf(ps, 0.0, 0.10, 0.65);
      && Proper(Votes(ps)) && IsDeviation(0.0, Votes(ps)) && r.decision == Avoid
      && Rounds(r.probability, 8227, 10000.0) && Rounds(r.confidence, 6454, 10000.0)
      && Rounds(r.agreement, 10000, 10000.0)
      && Rounds(0.6454, 65, 100.0)
      && Recommend(Infer(r, 8227, 6454, 10000), 65, pa) == Buy
  {
    var ps := [Prediction("rf", 1.0, 0.8227)];
    var vs := [Vote(1.0, 0.8227)];
    assert ps[1..] == [];
    assert Votes(ps) == vs;
    assert vs[1..] == [];
    assert Total(vs, Weight) == 1.0 && Total(vs, Weighted) == 0.8227;
    assert Mean(vs) == 0.8227;
    assert SquareFrom(0.8227)(vs[0]) == 0.0;
    assert Total(vs, SquareFrom(0.8227)) == 0.0;
    assert Variance(vs) == 0.0;
  }
}
