/**
  What the ensemble's numbers mean: the votes, their balance point and spread, what disagreement costs, and exactly
  which predictions lead to a decision and to a recommendation.
 */
module ConsensusMeaning {
  import opened Options
  import opened Permutations
  import opened Reals
  import opened Consensus

  // ----- Votes -----

  function Inside(x: real): real {
    if x <= 0.0 then 0.0 else if x >= 1.0 then 1.0 else x
  }

  ghost predicate SomePositive(ps: seq<Prediction>) {
    exists i :: 0 <= i < |ps| && ps[i].weight > 0.0
  }

  /** What a prediction adds to a sum over the votes. */
  function Share(p: Prediction, weighted: bool, f: Vote -> real): real {
    if !weighted then f(Vote(1.0, Inside(p.probability)))
    else if p.weight > 0.0 then f(Vote(p.weight, Inside(p.probability)))
    else 0.0
  }

  function SumOver(ps: seq<Prediction>, weighted: bool, f: Vote -> real): real {
    if ps == [] then 0.0 else Share(ps[0], weighted, f) + SumOver(ps[1..], weighted, f)
  }

  lemma {:induction false} PositiveSum(ps: seq<Prediction>, f: Vote -> real)
    ensures Total(Collect(ps, PositiveVote), f) == SumOver(ps, true, f)
  {
    if ps != [] {
      PositiveSum(ps[1..], f);
      if ps[0].weight > 0.0 {
        assert Collect(ps, PositiveVote)[1..] == Collect(ps[1..], PositiveVote);
      } else {
        assert Collect(ps, PositiveVote) == Collect(ps[1..], PositiveVote);
      }
    }
  }

  lemma {:induction false} SomeVote(ps: seq<Prediction>)
    ensures Collect(ps, PositiveVote) != [] <==> SomePositive(ps)
  {
    if ps != [] {
      var rest := ps[1..];
      SomeVote(rest);
      assert SomePositive(ps) <==> ps[0].weight > 0.0 || SomePositive(rest) by {
        assert forall i :: 0 <= i < |rest| ==> rest[i] == ps[i + 1];
        assert forall i :: 1 <= i < |ps| ==> ps[i] == rest[i - 1];
      }
    }
  }

  lemma {:induction false} EqualSum(ps: seq<Prediction>, f: Vote -> real)
    ensures Total(Collect(ps, EqualVote), f) == SumOver(ps, false, f)
  {
    if ps != [] {
      EqualSum(ps[1..], f);
      assert Collect(ps, EqualVote)[1..] == Collect(ps[1..], EqualVote);
    }
  }

  /**
    Any sum over the votes is the sum over the predictions of positive weight, each with its own weight; when there
    are none, over all predictions with weight one.  Probabilities are drawn into [0, 1].
   */
  lemma {:induction false} VotesSum(ps: seq<Prediction>, f: Vote -> real)
    ensures Total(Votes(ps), f) == SumOver(ps, SomePositive(ps), f)
  {
    SomeVote(ps);
    PositiveSum(ps, f);
    EqualSum(ps, f);
  }

  // ----- Balance and spread -----

  function FromPoint(c: real): Vote -> real {
    (v: Vote) => v.weight * (v.probability - c)
  }

  function Squared(): Vote -> real {
    (v: Vote) => v.weight * (v.probability * v.probability)
  }

  lemma {:induction false} TotalFromPoint(vs: seq<Vote>, c: real)
    ensures Total(vs, FromPoint(c)) == Total(vs, Weighted) - c * Total(vs, Weight)
  {
    if vs != [] {
      TotalFromPoint(vs[1..], c);
      Distribute(vs[0].weight, vs[0].probability, c, Total(vs[1..], Weight));
    }
  }

  lemma Distribute(w: real, x: real, c: real, rest: real)
    ensures w * (x - c) == w * x - c * w && c * (w + rest) == c * w + c * rest
  {
  }

  /** The mean is the one point at which the votes balance. */
  lemma {:induction false} MeanIsBalance(vs: seq<Vote>, c: real)
    requires Proper(vs)
    ensures Total(vs, FromPoint(c)) == 0.0 <==> c == Mean(vs)
  {
    WeightIsPositive(vs);
    TotalFromPoint(vs, c);
    if Total(vs, Weighted) == c * Total(vs, Weight) { DivideUnique(Total(vs, Weighted), Total(vs, Weight), c); }
  }

  lemma SquareExpands(w: real, x: real, m: real, k: real, l: real)
    requires k == 2.0 * m && l == m * m
    ensures w * ((x - m) * (x - m)) == w * (x * x) - k * (w * x) + l * w
  {
    assert (x - m) * (x - m) == x * x - k * x + l;
  }

  lemma Distribute2(k: real, a: real, b: real)
    ensures k * (a + b) == k * a + k * b
  {
  }

  /** A combination that holds vote by vote holds of the totals. */
  lemma {:induction false} TotalsCombine(vs: seq<Vote>, f: Vote -> real, g: Vote -> real, k: real, l: real)
    requires forall v: Vote :: f(v) == g(v) - k * Weighted(v) + l * Weight(v)
    ensures Total(vs, f) == Total(vs, g) - k * Total(vs, Weighted) + l * Total(vs, Weight)
  {
    if vs != [] {
      var v, rest := vs[0], vs[1..];
      TotalsCombine(rest, f, g, k, l);
      assert f(v) == g(v) - k * Weighted(v) + l * Weight(v);
      Distribute2(k, Weighted(v), Total(rest, Weighted));
      Distribute2(l, Weight(v), Total(rest, Weight));
    }
  }

  lemma MomentsOf(square: real, first: real, w: real, m: real, v: real, spread: real, k: real, l: real)
    requires k == 2.0 * m && l == m * m
    requires first == m * w && spread == v * w && spread == square - k * first + l * w
    ensures (v + l) * w == square
  {
    assert k * first == 2.0 * (l * w);
    Distribute2(w, v, l);
  }

  lemma {:induction false} SquaresCombine(vs: seq<Vote>, m: real, k: real, l: real)
    requires k == 2.0 * m && l == m * m
    ensures Total(vs, SquareFrom(m)) == Total(vs, Squared()) - k * Total(vs, Weighted) + l * Total(vs, Weight)
  {
    forall v: Vote ensures SquareFrom(m)(v) == Squared()(v) - k * Weighted(v) + l * Weight(v) {
      SquareExpands(v.weight, v.probability, m, k, l);
    }
    TotalsCombine(vs, SquareFrom(m), Squared(), k, l);
  }

  lemma {:induction false} SpreadOf(vs: seq<Vote>, w: real, m: real, v: real, first: real, spread: real, k: real,
                                    l: real)
    requires w == Total(vs, Weight) && first == Total(vs, Weighted) && spread == Total(vs, SquareFrom(m))
    requires first == m * w && spread == v * w && k == 2.0 * m && l == m * m
    ensures (v + l) * w == Total(vs, Squared())
  {
    SquaresCombine(vs, m, k, l);
    MomentsOf(Total(vs, Squared()), first, w, m, v, spread, k, l);
  }

  lemma QuotientTimes(a: real, w: real, q: real)
    requires w > 0.0 && q == a / w
    ensures a == q * w
  {
  }

  /** The mean square of the votes is the variance and the square of the mean together. */
  lemma {:induction false} VarianceIsSpread(vs: seq<Vote>, w: real, m: real, v: real)
    requires Proper(vs) && w == Total(vs, Weight) && m == Mean(vs) && v == Variance(vs)
    ensures (v + m * m) * w == Total(vs, Squared())
  {
    WeightIsPositive(vs);
    QuotientTimes(Total(vs, Weighted), w, m);
    QuotientTimes(Total(vs, SquareFrom(m)), w, v);
    SpreadOf(vs, w, m, v, Total(vs, Weighted), Total(vs, SquareFrom(m)), 2.0 * m, m * m);
  }

  // ----- What disagreement costs -----

  lemma CostOfSpread(strength: real, std: real)
    ensures strength * (0.5 + 0.5 * (1.0 - std / 0.5)) == strength * (1.0 - std)
  {
    assert std / 0.5 == 2.0 * std;
    assert 0.5 + 0.5 * (1.0 - 2.0 * std) == 1.0 - std;
  }

  /** The confidence is twice the distance of the mean from even, less the share that the deviation takes. */
  lemma {:induction false} ConfidenceIs(vs: seq<Vote>, std: real)
    requires Proper(vs) && IsDeviation(std, vs)
    ensures 0.0 <= std <= 0.5
    ensures Confidence(Mean(vs), std) == 2.0 * Abs(Mean(vs) - 0.5) * (1.0 - std)
    ensures Agreement(std) == 1.0 - 2.0 * std
  {
    ClampsNeverBite(vs, std);
    VarianceBound(vs);
    RootBound(std);
    CostOfSpread(Strength(Mean(vs)), std);
  }

  lemma ProductFalls(k: real, a: real, b: real)
    requires k > 0.0 && a < b
    ensures k * (1.0 - b) < k * (1.0 - a)
  {
  }

  /** At the same uneven mean more deviation means strictly less confidence; at a deviation of 0.5 half is left. */
  lemma {:induction false} DisagreementCosts(vs: seq<Vote>, a: real, us: seq<Vote>, b: real, p: real)
    requires Proper(vs) && IsDeviation(a, vs) && Proper(us) && IsDeviation(b, us)
    requires p == Mean(vs) == Mean(us) && p != 0.5 && a < b
    ensures Confidence(p, b) < Confidence(p, a) && (b == 0.5 ==> Confidence(p, b) == Abs(p - 0.5))
  {
    var before := ConfidenceAt(vs, a, p);
    var after := ConfidenceAt(us, b, p);
    CostGrows(p, a, b, before, after);
  }

  lemma {:induction false} ConfidenceAt(vs: seq<Vote>, std: real, p: real) returns (c: real)
    requires Proper(vs) && IsDeviation(std, vs) && p == Mean(vs)
    ensures c == Confidence(p, std) && c == 2.0 * Abs(p - 0.5) * (1.0 - std)
  {
    ConfidenceIs(vs, std);
    c := Confidence(p, std);
  }

  lemma CostGrows(p: real, a: real, b: real, before: real, after: real)
    requires p != 0.5 && a < b
    requires before == 2.0 * Abs(p - 0.5) * (1.0 - a) && after == 2.0 * Abs(p - 0.5) * (1.0 - b)
    ensures after < before && (b == 0.5 ==> after == Abs(p - 0.5))
  {
    ProductFalls(2.0 * Abs(p - 0.5), a, b);
  }

  // ----- Which predictions lead to a decision -----

  /** The ensemble decides for a side exactly when the mean is on it, outside the band, and confident enough. */
  lemma {:induction false} DecisionIff(ps: seq<Prediction>, std: real, avoidBand: real, minConfidence: real, p: real)
    requires ps != [] && Proper(Votes(ps)) && IsDeviation(std, Votes(ps)) && p == Mean(Votes(ps))
    ensures var r := ConsensusOf(ps, std, avoidBand, minConfidence);
      && r.probability == p && r.used == |Votes(ps)|
      && (r.decision == Buy <==> p > 0.5 && p - 0.5 >= avoidBand && 2.0 * (p - 0.5) * (1.0 - std) >= minConfidence)
      && (r.decision == Sell <==> p < 0.5 && 0.5 - p >= avoidBand && 2.0 * (0.5 - p) * (1.0 - std) >= minConfidence)
  {
    ConfidenceIs(Votes(ps), std);
    JudgedIff(p, std, avoidBand, minConfidence, |Votes(ps)|);
    assert ConsensusOf(ps, std, avoidBand, minConfidence) == Judged(p, std, avoidBand, minConfidence, |Votes(ps)|);
  }

  lemma {:induction false} JudgedIff(p: real, std: real, avoidBand: real, minConfidence: real, used: nat)
    requires Confidence(p, std) == 2.0 * Abs(p - 0.5) * (1.0 - std)
    ensures var r := Judged(p, std, avoidBand, minConfidence, used);
      && (r.decision == Buy <==> p > 0.5 && p - 0.5 >= avoidBand && 2.0 * (p - 0.5) * (1.0 - std) >= minConfidence)
      && (r.decision == Sell <==> p < 0.5 && 0.5 - p >= avoidBand && 2.0 * (0.5 - p) * (1.0 - std) >= minConfidence)
  {
    var c := Confidence(p, std);
    if p > 0.5 {
      assert Abs(p - 0.5) == p - 0.5 && c == 2.0 * (p - 0.5) * (1.0 - std);
    } else if p < 0.5 {
      assert Abs(p - 0.5) == 0.5 - p && c == 2.0 * (0.5 - p) * (1.0 - std);
    }
  }

  /** The price-action gate is open. */
  ghost predicate Open(pa: PriceAction) {
    pa.chop <= 0.80 && pa.confluence >= 0.50 && (pa.alignment != 0.0 || -0.15 <= pa.trend <= 0.15)
  }

  /**
    A side is recommended exactly when the mean is on it, the confidence rounds to at least 65 percent, and the
    price-action gate is open.
   */
  lemma {:induction false} RecommendationIff(ps: seq<Prediction>, std: real, avoidBand: real, minConfidence: real,
                                             probability4: int, confidence4: int, agreement4: int, confidence2: int,
                                             pa: PriceAction)
    requires ps != [] && Proper(Votes(ps)) && IsDeviation(std, Votes(ps))
    requires var r := ConsensusOf(ps, std, avoidBand, minConfidence);
      Rounds(r.probability, probability4, 10000.0) && Rounds(r.confidence, confidence4, 10000.0)
      && Rounds(r.agreement, agreement4, 10000.0)
    requires Rounds(confidence4 as real / 10000.0, confidence2, 100.0)
    ensures var advice := Recommend(Infer(ConsensusOf(ps, std, avoidBand, minConfidence), probability4, confidence4,
                                          agreement4), confidence2, pa);
      && (advice == Buy <==> Mean(Votes(ps)) > 0.5 && confidence2 >= 65 && Open(pa))
      && (advice == Sell <==> Mean(Votes(ps)) < 0.5 && confidence2 >= 65 && Open(pa))
  {
    InferenceAccepts(ps, std, avoidBand, minConfidence, probability4, confidence4, agreement4);
    PositiveVotesCount(ps);
    PercentOfRounded(confidence4, confidence2);
  }

  lemma PercentOfRounded(confidence4: int, confidence2: int)
    requires 0 <= confidence4 <= 10000 && Rounds(confidence4 as real / 10000.0, confidence2, 100.0)
    ensures Percent(confidence2 as real / 100.0) >= 65.0 <==> confidence2 >= 65
  {
    assert 0 <= confidence2 <= 100;
  }
}
