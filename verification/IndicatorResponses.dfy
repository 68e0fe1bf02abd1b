/**
  How the indicators answer to a step: prices that are level, and then one at another level.  The answers fix the
  weight of the newest price, and the periods of convergence/divergence.
 */
module IndicatorResponses {
  import opened Options
  import opened Reals
  import opened Indicators

  /** The first k values are all x. */
  ghost predicate Level(values: seq<real>, k: nat, x: real) {
    k <= |values| && forall i :: 0 <= i < k ==> values[i] == x
  }

  // ----- Exponential average -----

  lemma BlendMoves(w: real, b: real, value: real, next: real)
    requires w > 0.0 && next == Blend(2.0 / w, b, value)
    ensures w * (next - b) == (w - 2.0) * (value - b)
  {
    var alpha := 2.0 / w;
    assert w * alpha == 2.0;
    assert next - b == (1.0 - alpha) * (value - b);
    assert w * ((1.0 - alpha) * (value - b)) == (w - w * alpha) * (value - b);
  }

  /** One more price x leaves (n - 1) of n + 1 parts of the average's distance from x. */
  lemma {:induction false} EmaMoves(values: seq<real>, n: nat, k: nat, before: real, after: real)
    requires 1 <= n < k <= |values| && before == EmaAt(values, n, k - 1) && after == EmaAt(values, n, k)
    ensures (n as real + 1.0) * (after - values[k - 1]) == (n as real - 1.0) * (before - values[k - 1])
  {
    BlendMoves(n as real + 1.0, values[k - 1], before, after);
  }

  lemma {:induction false} SumOfLevel(s: seq<real>, x: real)
    requires Level(s, |s|, x)
    ensures Sum(s) == |s| as real * x
  {
    if s != [] { SumOfLevel(s[..|s| - 1], x); }
  }

  /** The average of level prices is their level. */
  lemma {:induction false} EmaOfLevel(values: seq<real>, n: nat, k: nat, x: real)
    requires 1 <= n <= k && Level(values, k, x)
    ensures EmaAt(values, n, k) == x
    decreases k
  {
    if k == n {
      SumOfLevel(values[..n], x);
      DivideUnique(Sum(values[..n]), n as real, x);
    } else {
      EmaOfLevel(values, n, k - 1, x);
      BlendOfSame(Alpha(n), x);
    }
  }

  // ----- Wilder averages -----

  lemma SmoothMoves(w: real, b: real, value: real, next: real)
    requires w > 0.0 && next == (value * (w - 1.0) + b) / w
    ensures w * (next - b) == (w - 1.0) * (value - b)
  {
    assert w * next == value * (w - 1.0) + b;
  }

  /** One more value x leaves (n - 1) of n parts of Wilder's average's distance from x. */
  lemma {:induction false} WilderMoves(xs: seq<real>, n: nat, k: nat, before: real, after: real)
    requires 1 <= n < k <= |xs| && before == WilderAt(xs, n, k - 1) && after == WilderAt(xs, n, k)
    ensures n as real * (after - xs[k - 1]) == (n as real - 1.0) * (before - xs[k - 1])
  {
    SmoothMoves(n as real, xs[k - 1], before, after);
  }

  // ----- Relative strength -----

  lemma {:induction false} NoLosses(values: seq<real>, lo: real)
    requires values != [] && lo > 0.0 && forall i :: 0 <= i < |values| - 1 ==> values[i] + lo <= values[i + 1]
    ensures Between(Losses(values), 0.0, 0.0)
    ensures forall i :: 0 <= i < |Gains(values)| ==> Gains(values)[i] >= lo
  {
    forall i | 0 <= i < |values| - 1 ensures Losses(values)[i] == 0.0 && Gains(values)[i] >= lo {
      RiseIsGain(values[i], values[i + 1], lo);
    }
  }

  lemma RiseIsGain(x: real, y: real, lo: real)
    requires lo > 0.0 && x + lo <= y
    ensures LossOf(x, y) == 0.0 && GainOf(x, y) >= lo
  {
  }

  lemma {:induction false} WilderAtLeast(xs: seq<real>, n: nat, k: nat, lo: real)
    requires 1 <= n <= k <= |xs| && forall i :: 0 <= i < |xs| ==> xs[i] >= lo
    ensures WilderAt(xs, n, k) >= lo
  {
    var hi := Highest(xs, lo);
    WilderBetween(xs, n, k, lo, hi);
  }

  function Highest(xs: seq<real>, lo: real): (hi: real)
    ensures hi >= lo && forall i :: 0 <= i < |xs| ==> xs[i] <= hi
  {
    if xs == [] then lo else Max(Highest(xs[..|xs| - 1], lo), xs[|xs| - 1])
  }

  /** Prices that rise by at least lo every time have a relative strength of 100. */
  lemma {:induction false} RisingIsStrong(values: seq<real>, n: nat, lo: real)
    requires 1 <= n < |values| && lo > 0.0
    requires forall i :: 0 <= i < |values| - 1 ==> values[i] + lo <= values[i + 1]
    ensures Rsi(values, n) == Some(100.0)
  {
    NoLosses(values, lo);
    WilderBetween(Losses(values), n, |values| - 1, 0.0, 0.0);
    WilderAtLeast(Gains(values), n, |values| - 1, lo);
  }

  // ----- Convergence/divergence -----

  lemma {:induction false} StreamAt(values: seq<real>, k: nat)
    requires 26 <= k <= |values|
    ensures var stream := Stream(values, k);
      stream[|stream| - 1] == EmaAt(values, 12, k) - EmaAt(values, 26, k)
  {
    EmaOfPrefix(values, 12, k, k);
    EmaOfPrefix(values, 26, k, k);
  }

  /** The line is the difference of the averages of periods 12 and 26 over the whole series. */
  lemma {:induction false} LineIs(values: seq<real>)
    requires 26 <= |values|
    ensures MacdOf(Stream(values, |values|)).line == EmaAt(values, 12, |values|) - EmaAt(values, 26, |values|)
  {
    StreamAt(values, |values|);
  }

  /** On level prices line, signal and histogram are zero. */
  lemma {:induction false} LevelMacd(values: seq<real>, x: real)
    requires 26 <= |values| && Level(values, |values|, x)
    ensures MacdOf(Stream(values, |values|)) == Macd(0.0, 0.0, 0.0)
  {
    var stream := Stream(values, |values|);
    StreamOfLevel(values, |values|, x);
    EmaOfLevel(stream, if 9 <= |stream| then 9 else |stream|, |stream|, 0.0);
  }

  lemma {:induction false} StreamOfLevel(values: seq<real>, k: nat, x: real)
    requires 26 <= k && Level(values, k, x)
    ensures Level(Stream(values, k), |Stream(values, k)|, 0.0)
    decreases k
  {
    StreamAt(values, k);
    EmaOfLevel(values, 12, k, x);
    EmaOfLevel(values, 26, k, x);
    if k > 26 { StreamOfLevel(values, k - 1, x); }
  }

  /**
    After level prices a price that is higher by d moves the line by 2/13 of d less 2/27 of d, whatever the number of
    prices before.
   */
  lemma {:induction false} LineAnswersStep(values: seq<real>, k: nat, a: real, d: real)
    requires 26 <= k && |values| == k + 1 && Level(values, k, a) && values[k] == a + d
    ensures MacdOf(Stream(values, |values|)).line == 2.0 / 13.0 * d - 2.0 / 27.0 * d
  {
    var fast, slow := EmaAt(values, 12, k + 1), EmaAt(values, 26, k + 1);
    AverageAnswersStep(values, 12, k, a, d, fast);
    AverageAnswersStep(values, 26, k, a, d, slow);
    LineIs(values);
  }

  lemma {:induction false} AverageAnswersStep(values: seq<real>, n: nat, k: nat, a: real, d: real, after: real)
    requires 1 <= n <= k && |values| == k + 1 && Level(values, k, a) && values[k] == a + d
    requires after == EmaAt(values, n, k + 1)
    ensures (n as real + 1.0) * (after - a) == 2.0 * d
  {
    EmaOfLevel(values, n, k, a);
    EmaMoves(values, n, k + 1, a, after);
    Rearrange(n as real, after, a, d);
  }

  lemma Rearrange(n: real, after: real, a: real, d: real)
    requires (n + 1.0) * (after - (a + d)) == (n - 1.0) * (a - (a + d))
    ensures (n + 1.0) * (after - a) == 2.0 * d
  {
    assert (n + 1.0) * (after - (a + d)) == (n + 1.0) * (after - a) - (n + 1.0) * d;
    assert (n - 1.0) * (a - (a + d)) == -((n - 1.0) * d);
    assert (n + 1.0) * d == (n - 1.0) * d + 2.0 * d;
  }

  /** After level differences one that is higher by d moves the signal by a fifth of d. */
  lemma {:induction false} SignalAnswersStep(stream: seq<real>, k: nat, a: real, d: real)
    requires 9 <= k && |stream| == k + 1 && Level(stream, k, a) && stream[k] == a + d
    ensures MacdOf(stream) == Macd(a + d, a + 0.2 * d, 0.8 * d)
  {
    AverageAnswersStep(stream, 9, k, a, d, EmaAt(stream, 9, k + 1));
  }
}
