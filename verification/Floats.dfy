/** Floating-point values with exact finite part: reals, the two infinities and NaN. */
module Floats {
  datatype Float = Finite(r: real) | PosInf | NegInf | NaN {
    /** The language's `<`: false as soon as either side is NaN. */
    predicate Less(other: Float) {
      match (this, other)
      case (Finite(x), Finite(y)) => x < y
      case (NegInf, Finite(_)) => true
      case (NegInf, PosInf) => true
      case (Finite(_), PosInf) => true
      case _ => false
    }

    function Plus(other: Float): Float {
      if NaN? || other.NaN? then NaN
      else if Finite? && other.Finite? then Finite(r + other.r)
      else if Finite? then other
      else if other.Finite? || this == other then this
      else NaN
    }

    /** Product with a positive constant. */
    function Times(k: real): Float
      requires k > 0.0
    {
      if Finite? then Finite(r * k) else this
    }
  }

  /** min(a, b): the second only where it is smaller. */
  function Min(a: Float, b: Float): Float {
    if b.Less(a) then b else a
  }

  function ArgMaxFrom(scores: seq<Float>, i: nat, best: nat): (k: nat)
    requires best < i <= |scores|
    ensures k < |scores|
    decreases |scores| - i
  {
    if i == |scores| then best
    else ArgMaxFrom(scores, i + 1, if scores[best].Less(scores[i]) then i else best)
  }

  /** max(..., key=...): the position kept until a later one is greater. */
  function ArgMax(scores: seq<Float>): (k: nat)
    requires scores != []
    ensures k < |scores|
  {
    ArgMaxFrom(scores, 1, 0)
  }

  lemma {:induction false} ArgMaxFromIsFirst(scores: seq<Float>, i: nat, best: nat)
    requires best < i <= |scores| && NaN !in scores
    requires forall j :: 0 <= j < i ==> !scores[best].Less(scores[j]) && (j < best ==> scores[j].Less(scores[best]))
    ensures var k := ArgMaxFrom(scores, i, best);
      forall j :: 0 <= j < |scores| ==> !scores[k].Less(scores[j]) && (j < k ==> scores[j].Less(scores[k]))
    decreases |scores| - i
  {
    if i < |scores| {
      ArgMaxFromIsFirst(scores, i + 1, if scores[best].Less(scores[i]) then i else best);
    }
  }

  /** Without a NaN it is the first position of a greatest value. */
  lemma ArgMaxIsFirst(scores: seq<Float>)
    requires scores != [] && NaN !in scores
    ensures var k := ArgMax(scores);
      forall j :: 0 <= j < |scores| ==> !scores[k].Less(scores[j]) && (j < k ==> scores[j].Less(scores[k]))
  {
    ArgMaxFromIsFirst(scores, 1, 0);
  }
}
