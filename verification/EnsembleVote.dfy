/** Combining finished predictions by weighted vote: the side with the largest share wins if the share is 60%. */
module EnsembleVote {
  import opened Consensus
  import opened Options
  import opened Permutations
  import opened Reals

  datatype Ballot = Ballot(decision: Decision, weight: real, confidence: Option<real>, probability: real)

  /** `top` is the largest share, and the decision its side's, unless the share is too small. */
  datatype Verdict = Verdict(decision: Decision, top: real, used: nat)

  const QUORUM := 0.60

  function Power(b: Ballot): real { Max(0.0, b.weight) }

  /** A confidence above one is a percentage; without a confidence the probability stands in. */
  function Conviction(b: Ballot): real {
    var stated := if b.confidence.Some? then b.confidence.value else b.probability;
    Clip(if b.confidence.Some? && b.confidence.value > 1.0 then stated / 100.0 else stated)
  }

  function Worth(power: real, conviction: real): real { power * conviction }

  function Score(b: Ballot): real { Worth(Power(b), Conviction(b)) }

  function For(side: Decision): Ballot -> real {
    (b: Ballot) => if b.decision == side then Score(b) else 0.0
  }

  function Electorate(ps: seq<Ballot>): real {
    if Total(ps, Power) == 0.0 then 1.0 else Total(ps, Power)
  }

  lemma {:induction false} PowerIsSigned(ps: seq<Ballot>)
    ensures Total(ps, Power) >= 0.0
  {
    if ps != [] { PowerIsSigned(ps[1..]); }
  }

  function Share(ps: seq<Ballot>, side: Decision): real {
    PowerIsSigned(ps);
    Total(ps, For(side)) / Electorate(ps)
  }

  /** The first of buy, sell, avoid that no other exceeds. */
  function Leader(buy: real, sell: real, avoid: real): Decision {
    if buy >= sell && buy >= avoid then Buy else if sell >= avoid then Sell else Avoid
  }

  function Settle(leader: Decision, top: real, used: nat): Verdict {
    Verdict(if top < QUORUM then Avoid else leader, top, used)
  }

  function Pick(side: Decision, buy: real, sell: real, avoid: real): real {
    match side
    case Buy => buy
    case Sell => sell
    case Avoid => avoid
  }

  function Combined(ps: seq<Ballot>): Verdict {
    if ps == [] then Verdict(Avoid, 0.0, 0)
    else
      var leader := Leader(Share(ps, Buy), Share(ps, Sell), Share(ps, Avoid));
      Settle(leader, Share(ps, leader), |ps|)
  }

  lemma {:induction false} TotalSnoc(ps: seq<Ballot>, b: Ballot, f: Ballot -> real)
    ensures Total(ps + [b], f) == Total(ps, f) + f(b)
  {
    if ps == [] {
      assert ps + [b] == [b] && [b][1..] == [];
    } else {
      assert (ps + [b])[1..] == ps[1..] + [b];
      TotalSnoc(ps[1..], b, f);
    }
  }

  method SumWeights(ps: seq<Ballot>) returns (total: real)
    ensures total == Total(ps, Power)
  {
    total := 0.0;
    for k := 0 to |ps|
      invariant total == Total(ps[..k], Power)
    {
      assert ps[..k + 1] == ps[..k] + [ps[k]];
      TotalSnoc(ps[..k], ps[k], Power);
      total := total + Power(ps[k]);
    }
    assert ps[..|ps|] == ps;
  }

  /** The scores of the three sides, and one ballot added to its own. */
  datatype Tally = Tally(buy: real, sell: real, avoid: real) {
    function Add(side: Decision, score: real): Tally {
      match side
      case Buy => this.(buy := buy + score)
      case Sell => this.(sell := sell + score)
      case Avoid => this.(avoid := avoid + score)
    }
  }

  function Tallied(ps: seq<Ballot>): Tally {
    Tally(Total(ps, For(Buy)), Total(ps, For(Sell)), Total(ps, For(Avoid)))
  }

  lemma TallySnoc(ps: seq<Ballot>, b: Ballot)
    ensures Tallied(ps + [b]) == Tallied(ps).Add(b.decision, Score(b))
  {
    TotalSnoc(ps, b, For(Buy));
    TotalSnoc(ps, b, For(Sell));
    TotalSnoc(ps, b, For(Avoid));
  }

  method SumScores(ps: seq<Ballot>) returns (scores: Tally)
    ensures scores == Tallied(ps)
  {
    scores := Tally(0.0, 0.0, 0.0);
    for k := 0 to |ps|
      invariant scores == Tallied(ps[..k])
    {
      assert ps[..k + 1] == ps[..k] + [ps[k]];
      TallySnoc(ps[..k], ps[k]);
      scores := scores.Add(ps[k].decision, Score(ps[k]));
    }
    assert ps[..|ps|] == ps;
  }

  method Combine(ps: seq<Ballot>) returns (v: Verdict)
    ensures v == Combined(ps)
  {
    if ps == [] {
      return Verdict(Avoid, 0.0, 0);
    }
    PowerIsSigned(ps);
    var total := SumWeights(ps);
    if total == 0.0 {
      total := 1.0;
    }
    var scores := SumScores(ps);
    var buy, sell, avoid := scores.buy / total, scores.sell / total, scores.avoid / total;
    var leader := Leader(buy, sell, avoid);
    return Settle(leader, Pick(leader, buy, sell, avoid), |ps|);
  }

  // ----- Shares -----

  lemma WorthInRange(power: real, conviction: real)
    requires 0.0 <= power && 0.0 <= conviction <= 1.0
    ensures 0.0 <= Worth(power, conviction) <= power
  {
    UnitProduct(conviction, power);
  }

  lemma ScoreInRange(b: Ballot, side: Decision)
    ensures 0.0 <= For(side)(b) <= Power(b)
    ensures For(Buy)(b) + For(Sell)(b) + For(Avoid)(b) <= Power(b)
  {
    WorthInRange(Power(b), Conviction(b));
  }

  lemma {:induction false} ScoresInRange(ps: seq<Ballot>)
    ensures Total(ps, For(Buy)) >= 0.0 && Total(ps, For(Sell)) >= 0.0 && Total(ps, For(Avoid)) >= 0.0
    ensures Total(ps, For(Buy)) + Total(ps, For(Sell)) + Total(ps, For(Avoid)) <= Total(ps, Power)
  {
    if ps != [] {
      ScoresInRange(ps[1..]);
      ScoreInRange(ps[0], Buy);
      ScoreInRange(ps[0], Sell);
      ScoreInRange(ps[0], Avoid);
    }
  }

  lemma ThreeShares(a: real, b: real, c: real, t: real)
    requires a >= 0.0 && b >= 0.0 && c >= 0.0 && t > 0.0 && a + b + c <= t
    ensures a / t >= 0.0 && b / t >= 0.0 && c / t >= 0.0 && a / t + b / t + c / t <= 1.0
  {
    DivideBetween(a + b + c, t, 0.0, 1.0);
    assert (a + b + c) / t == a / t + b / t + c / t;
  }

  /** The three shares are never negative and never exceed the whole together. */
  lemma SharesSplitTheWhole(ps: seq<Ballot>)
    ensures Share(ps, Buy) >= 0.0 && Share(ps, Sell) >= 0.0 && Share(ps, Avoid) >= 0.0
    ensures Share(ps, Buy) + Share(ps, Sell) + Share(ps, Avoid) <= 1.0
  {
    PowerIsSigned(ps);
    ScoresInRange(ps);
    ThreeShares(Total(ps, For(Buy)), Total(ps, For(Sell)), Total(ps, For(Avoid)), Electorate(ps));
  }

  /** A side wins exactly when at least 60% of the weight stands behind it; then no other side has more than 40%. */
  lemma WinnerHasQuorum(ps: seq<Ballot>, side: Decision, other: Decision)
    requires side != Avoid && other != side && ps != []
    ensures Combined(ps).decision == side <==> Share(ps, side) >= QUORUM
    ensures Combined(ps).decision == side ==> Share(ps, other) <= 0.40 && Combined(ps).top == Share(ps, side)
  {
    SharesSplitTheWhole(ps);
  }

  /** The verdict does not depend on the order of the ballots. */
  lemma VerdictIgnoresOrder(ps: seq<Ballot>, qs: seq<Ballot>)
    requires multiset(ps) == multiset(qs)
    ensures Combined(ps) == Combined(qs)
  {
    SameSize(ps, qs);
    TotalOfPermutation(ps, qs, Power);
    TotalOfPermutation(ps, qs, For(Buy));
    TotalOfPermutation(ps, qs, For(Sell));
    TotalOfPermutation(ps, qs, For(Avoid));
  }

  // ----- What a ballot is worth -----

  /** The ballot states the conviction x: as a fraction, as a percentage, or by its probability alone. */
  ghost predicate States(b: Ballot, x: real) {
    && 0.0 <= x <= 1.0
    && match b.confidence
       case Some(c) => (c == x) || (c > 1.0 && c == 100.0 * x)
       case None => b.probability == x
  }

  lemma StatedConviction(b: Ballot, x: real)
    requires States(b, x)
    ensures Conviction(b) == x
  {
    if b.confidence.Some? && b.confidence.value > 1.0 { assert b.confidence.value / 100.0 == x; }
  }

  /** The ballot names the side, with a positive weight and a conviction between lo and hi. */
  ghost predicate Backs(b: Ballot, side: Decision, lo: real, hi: real) {
    b.decision == side && b.weight > 0.0 && exists x :: States(b, x) && lo <= x <= hi
  }

  ghost predicate Unanimous(ps: seq<Ballot>, side: Decision, lo: real, hi: real) {
    ps != [] ==> Backs(ps[0], side, lo, hi) && Unanimous(ps[1..], side, lo, hi)
  }

  /** The score of a side lies between two multiples of the power. */
  ghost predicate Between(score: real, power: real, lo: real, hi: real) {
    lo * power <= score <= hi * power
  }

  lemma WorthBetween(w: real, x: real, lo: real, hi: real)
    requires w > 0.0 && lo <= x <= hi
    ensures Between(Worth(w, x), w, lo, hi)
  {
  }

  lemma SumBetween(a: real, w: real, b: real, rest: real, lo: real, hi: real)
    requires Between(a, w, lo, hi) && Between(b, rest, lo, hi)
    ensures Between(a + b, w + rest, lo, hi)
  {
    assert lo * (w + rest) == lo * w + lo * rest && hi * (w + rest) == hi * w + hi * rest;
  }

  lemma BackedBetween(b: Ballot, side: Decision, lo: real, hi: real)
    requires Backs(b, side, lo, hi)
    ensures Between(For(side)(b), Power(b), lo, hi) && Power(b) > 0.0
  {
    var x :| States(b, x) && lo <= x <= hi;
    StatedConviction(b, x);
    WorthBetween(b.weight, x, lo, hi);
  }

  lemma {:induction false} TotalsBetween(ps: seq<Ballot>, side: Decision, lo: real, hi: real, a: real, w: real)
    requires Unanimous(ps, side, lo, hi) && a == Total(ps, For(side)) && w == Total(ps, Power)
    ensures Between(a, w, lo, hi) && (ps != [] ==> w > 0.0)
    decreases ps
  {
    if ps != [] {
      var b, rest := Total(ps[1..], For(side)), Total(ps[1..], Power);
      TotalsBetween(ps[1..], side, lo, hi, b, rest);
      BackedBetween(ps[0], side, lo, hi);
      PowerIsSigned(ps[1..]);
      SumBetween(For(side)(ps[0]), Power(ps[0]), b, rest, lo, hi);
    }
  }

  lemma {:induction false} NothingElsewhere(ps: seq<Ballot>, side: Decision, lo: real, hi: real, other: Decision)
    requires Unanimous(ps, side, lo, hi) && other != side
    ensures Total(ps, For(other)) == 0.0
  {
    if ps != [] { NothingElsewhere(ps[1..], side, lo, hi, other); }
  }

  lemma QuotientBetween(a: real, w: real, lo: real, hi: real)
    requires w > 0.0 && Between(a, w, lo, hi)
    ensures lo <= a / w <= hi
  {
    DivideBetween(a, w, lo, hi);
  }

  /** A unanimous vote gives its side a share between its convictions, and the other sides none. */
  lemma {:induction false} UnanimousShare(ps: seq<Ballot>, side: Decision, lo: real, hi: real, other: Decision)
    requires ps != [] && Unanimous(ps, side, lo, hi)
    ensures lo <= Share(ps, side) <= hi && (other != side ==> Share(ps, other) == 0.0)
  {
    var a, w := Total(ps, For(side)), Total(ps, Power);
    TotalsBetween(ps, side, lo, hi, a, w);
    QuotientBetween(a, w, lo, hi);
    if other != side { NothingElsewhere(ps, side, lo, hi, other); }
  }

  /** A unanimous vote for a trade carries it from a conviction of 0.6 on, and fails below. */
  lemma {:induction false} UnanimousVerdict(ps: seq<Ballot>, side: Decision, lo: real, hi: real)
    requires ps != [] && Unanimous(ps, side, lo, hi) && side != Avoid && lo > 0.0
    ensures lo >= 0.6 ==> Combined(ps).decision == side
    ensures hi < 0.6 ==> Combined(ps).decision == Avoid
    ensures lo <= Combined(ps).top <= hi && Combined(ps).used == |ps|
  {
    UnanimousShare(ps, side, lo, hi, Buy);
    UnanimousShare(ps, side, lo, hi, Sell);
    UnanimousShare(ps, side, lo, hi, Avoid);
  }
}
