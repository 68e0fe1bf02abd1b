/**
  Technical indicators over a price series, oldest price first: exponential average, relative strength,
  average true range, and convergence/divergence of two averages.
 */
module Indicators {
  import opened Options
  import opened Reals

  function Mean(s: seq<real>): real
    requires s != []
  {
    Sum(s) / |s| as real
  }

  // ----- Exponential average -----

  function Blend(alpha: real, x: real, value: real): real {
    alpha * x + (1.0 - alpha) * value
  }

  function Alpha(n: nat): real {
    2.0 / (n as real + 1.0)
  }

  /** The average after the first k values, seeded with the mean of the first n. */
  function EmaAt(values: seq<real>, n: nat, k: nat): real
    requires 1 <= n <= k <= |values|
    decreases k
  {
    if k == n then Mean(values[..n]) else Blend(Alpha(n), values[k - 1], EmaAt(values, n, k - 1))
  }

  /** A period longer than the series shrinks to it. */
  function Ema(values: seq<real>, n: nat): Option<real>
    requires n >= 1
  {
    if values == [] then None else Some(EmaAt(values, if n <= |values| then n else |values|, |values|))
  }

  method ComputeEma(values: seq<real>, period: nat) returns (r: Option<real>)
    requires period >= 1
    ensures r == Ema(values, period)
  {
    if values == [] {
      return None;
    }
    var n := if period <= |values| then period else |values|;
    var value := Mean(values[..n]);
    var alpha := Alpha(n);
    for k := n to |values|
      invariant value == EmaAt(values, n, k)
    {
      value := Blend(alpha, values[k], value);
    }
    return Some(value);
  }

  ghost predicate Between(s: seq<real>, lo: real, hi: real) {
    forall i :: 0 <= i < |s| ==> lo <= s[i] <= hi
  }

  lemma {:induction false} SumBetween(s: seq<real>, lo: real, hi: real)
    requires Between(s, lo, hi)
    ensures lo * |s| as real <= Sum(s) <= hi * |s| as real
  {
    if s != [] {
      var init, last := s[..|s| - 1], s[|s| - 1];
      SumBetween(init, lo, hi);
      var n := |init| as real;
      assert |s| as real == n + 1.0;
      assert lo * (n + 1.0) == lo * n + lo && hi * (n + 1.0) == hi * n + hi;
    }
  }

  lemma MeanBetween(s: seq<real>, lo: real, hi: real)
    requires s != [] && Between(s, lo, hi)
    ensures lo <= Mean(s) <= hi
  {
    SumBetween(s, lo, hi);
    DivideBetween(Sum(s), |s| as real, lo, hi);
  }

  lemma AlphaIsAShare(n: nat)
    requires n >= 1
    ensures 0.0 <= Alpha(n) <= 1.0
  {
    DivideBetween(2.0, n as real + 1.0, 0.0, 1.0);
  }

  lemma MixGrows(a: real, b: real, x: real, v: real, y: real, w: real)
    requires a >= 0.0 && b >= 0.0 && x <= y && v <= w
    ensures a * x + b * v <= a * y + b * w
  {
    ScaleUp(a, x, y);
    ScaleUp(b, v, w);
  }

  lemma BlendGrows(alpha: real, x: real, value: real, y: real, w: real)
    requires 0.0 <= alpha <= 1.0 && x <= y && value <= w
    ensures Blend(alpha, x, value) <= Blend(alpha, y, w)
  {
    MixGrows(alpha, 1.0 - alpha, x, value, y, w);
  }

  lemma BlendOfSame(alpha: real, x: real)
    ensures Blend(alpha, x, x) == x
  {
  }

  lemma BlendBetween(alpha: real, x: real, value: real, lo: real, hi: real)
    requires 0.0 <= alpha <= 1.0 && lo <= x <= hi && lo <= value <= hi
    ensures lo <= Blend(alpha, x, value) <= hi
  {
    BlendGrows(alpha, x, value, hi, hi);
    BlendGrows(alpha, lo, lo, x, value);
    BlendOfSame(alpha, lo);
    BlendOfSame(alpha, hi);
  }

  lemma {:induction false} EmaAtBetween(values: seq<real>, n: nat, k: nat, lo: real, hi: real)
    requires 1 <= n <= k <= |values| && Between(values, lo, hi)
    ensures lo <= EmaAt(values, n, k) <= hi
    decreases k
  {
    if k == n {
      MeanBetween(values[..n], lo, hi);
    } else {
      EmaAtBetween(values, n, k - 1, lo, hi);
      AlphaIsAShare(n);
      BlendBetween(Alpha(n), values[k - 1], EmaAt(values, n, k - 1), lo, hi);
    }
  }

  /** The exponential average stays between any bounds of the series, so between its minimum and its maximum. */
  lemma EmaBetween(values: seq<real>, n: nat, lo: real, hi: real)
    requires n >= 1 && values != [] && Between(values, lo, hi)
    ensures Ema(values, n).Some? && lo <= Ema(values, n).value <= hi
  {
    EmaAtBetween(values, if n <= |values| then n else |values|, |values|, lo, hi);
  }

  // ----- Wilder averages -----

  function Smooth(n: nat, average: real, x: real): real
    requires n >= 1
  {
    (average * (n as real - 1.0) + x) / n as real
  }

  function WilderAt(xs: seq<real>, n: nat, k: nat): real
    requires 1 <= n <= k <= |xs|
    decreases k
  {
    if k == n then Mean(xs[..n]) else Smooth(n, WilderAt(xs, n, k - 1), xs[k - 1])
  }

  lemma SmoothBetween(n: nat, average: real, x: real, lo: real, hi: real)
    requires n >= 1 && lo <= x <= hi && lo <= average <= hi
    ensures lo <= Smooth(n, average, x) <= hi
  {
    var w := n as real;
    ScaleUp(w - 1.0, lo, average);
    ScaleUp(w - 1.0, average, hi);
    assert lo * w == (w - 1.0) * lo + lo && hi * w == (w - 1.0) * hi + hi;
    DivideBetween(average * (w - 1.0) + x, w, lo, hi);
  }

  lemma {:induction false} WilderBetween(xs: seq<real>, n: nat, k: nat, lo: real, hi: real)
    requires 1 <= n <= k <= |xs| && Between(xs, lo, hi)
    ensures lo <= WilderAt(xs, n, k) <= hi
    decreases k
  {
    if k == n {
      MeanBetween(xs[..n], lo, hi);
    } else {
      WilderBetween(xs, n, k - 1, lo, hi);
      SmoothBetween(n, WilderAt(xs, n, k - 1), xs[k - 1], lo, hi);
    }
  }

  function Scaled(s: seq<real>, c: real): (r: seq<real>)
    ensures |r| == |s|
  {
    seq(|s|, i requires 0 <= i < |s| => c * s[i])
  }

  lemma ScaledPrefix(s: seq<real>, c: real, n: nat)
    requires n <= |s|
    ensures Scaled(s, c)[..n] == Scaled(s[..n], c)
  {
    forall i | 0 <= i < n ensures Scaled(s, c)[..n][i] == Scaled(s[..n], c)[i] {
      assert s[..n][i] == s[i];
    }
  }

  lemma {:induction false} SumScaled(s: seq<real>, c: real)
    ensures Sum(Scaled(s, c)) == c * Sum(s)
  {
    if s != [] {
      var init, last := s[..|s| - 1], s[|s| - 1];
      SumScaled(init, c);
      ScaledPrefix(s, c, |s| - 1);
      assert c * (Sum(init) + last) == c * Sum(init) + c * last;
    }
  }

  lemma ScaleQuotient(c: real, a: real, b: real)
    requires b > 0.0
    ensures (c * a) / b == c * (a / b)
  {
    var q := a / b;
    assert a == q * b;
    assert c * a == (c * q) * b;
    DivideUnique(c * a, b, c * q);
  }

  lemma ScaledQuotient(c: real, a: real, b: real, ca: real)
    requires b > 0.0 && ca == c * a
    ensures ca / b == c * (a / b)
  {
    ScaleQuotient(c, a, b);
  }

  lemma SmoothScaled(n: nat, average: real, x: real, c: real, cAverage: real, cx: real)
    requires n >= 1 && cAverage == c * average && cx == c * x
    ensures Smooth(n, cAverage, cx) == c * Smooth(n, average, x)
  {
    var w := n as real;
    assert c * average * (w - 1.0) + c * x == c * (average * (w - 1.0) + x);
    ScaleQuotient(c, average * (w - 1.0) + x, w);
  }

  lemma MeanScaled(s: seq<real>, c: real)
    requires s != []
    ensures Mean(Scaled(s, c)) == c * Mean(s)
  {
    SumScaled(s, c);
    ScaledQuotient(c, Sum(s), |s| as real, Sum(Scaled(s, c)));
  }

  lemma SeedScaled(xs: seq<real>, ys: seq<real>, n: nat, c: real)
    requires 1 <= n <= |xs| && ys == Scaled(xs, c)
    ensures Mean(ys[..n]) == c * Mean(xs[..n])
  {
    ScaledPrefix(xs, c, n);
    MeanScaled(xs[..n], c);
  }

  lemma {:induction false} StepScaled(xs: seq<real>, ys: seq<real>, n: nat, k: nat, c: real, a: real, b: real)
    requires 1 <= n < k <= |xs| == |ys| && ys[k - 1] == c * xs[k - 1]
    requires a == WilderAt(xs, n, k - 1) && b == WilderAt(ys, n, k - 1) && b == c * a
    ensures WilderAt(ys, n, k) == c * WilderAt(xs, n, k)
  {
    SmoothScaled(n, a, xs[k - 1], c, b, ys[k - 1]);
  }

  lemma {:induction false} StartScaled(xs: seq<real>, ys: seq<real>, n: nat, c: real, a: real, b: real)
    requires 1 <= n <= |xs| == |ys| && ys == Scaled(xs, c) && a == WilderAt(xs, n, n) && b == WilderAt(ys, n, n)
    ensures b == c * a
  {
    SeedScaled(xs, ys, n, c);
  }

  lemma {:induction false} WilderScaled(xs: seq<real>, ys: seq<real>, n: nat, k: nat, c: real, a: real, b: real)
    requires 1 <= n <= k <= |xs| == |ys| && ys == Scaled(xs, c)
    requires a == WilderAt(xs, n, k) && b == WilderAt(ys, n, k)
    ensures b == c * a
    decreases k
  {
    if k == n {
      StartScaled(xs, ys, n, c, a, b);
    } else {
      var before, scaled := WilderAt(xs, n, k - 1), WilderAt(ys, n, k - 1);
      WilderScaled(xs, ys, n, k - 1, c, before, scaled);
      StepScaled(xs, ys, n, k, c, before, scaled);
    }
  }

  // ----- Relative strength -----

  function GainOf(x: real, y: real): real { Max(y - x, 0.0) }

  function LossOf(x: real, y: real): real { Max(-(y - x), 0.0) }

  function Gains(values: seq<real>): (g: seq<real>)
    requires values != []
    ensures |g| == |values| - 1
  {
    seq(|values| - 1, i requires 0 <= i < |values| - 1 => GainOf(values[i], values[i + 1]))
  }

  function Losses(values: seq<real>): (l: seq<real>)
    requires values != []
    ensures |l| == |values| - 1
  {
    seq(|values| - 1, i requires 0 <= i < |values| - 1 => LossOf(values[i], values[i + 1]))
  }

  function Strength(avgGain: real, avgLoss: real): real
    requires avgGain >= 0.0 && avgLoss >= 0.0
  {
    if avgLoss == 0.0 then (if avgGain > 0.0 then 100.0 else 50.0)
    else if avgGain == 0.0 then 0.0
    else
      RatioIsPositive(avgGain, avgLoss);
      100.0 - 100.0 / (1.0 + avgGain / avgLoss)
  }

  lemma RatioIsPositive(a: real, b: real)
    requires a >= 0.0 && b > 0.0
    ensures 1.0 + a / b >= 1.0
  {
  }

  lemma AveragesAreSigned(values: seq<real>, n: nat)
    requires 1 <= n < |values|
    ensures WilderAt(Gains(values), n, |values| - 1) >= 0.0 && WilderAt(Losses(values), n, |values| - 1) >= 0.0
  {
    WilderAtLeastZero(Gains(values), n, |values| - 1);
    WilderAtLeastZero(Losses(values), n, |values| - 1);
  }

  lemma {:induction false} BoundOf(xs: seq<real>) returns (hi: real)
    requires forall i :: 0 <= i < |xs| ==> xs[i] >= 0.0
    ensures hi >= 0.0 && Between(xs, 0.0, hi)
  {
    if xs == [] {
      hi := 0.0;
    } else {
      hi := BoundOf(xs[1..]);
      hi := Max(hi, xs[0]);
      assert forall i :: 1 <= i < |xs| ==> xs[i] == xs[1..][i - 1];
    }
  }

  lemma {:induction false} WilderAtLeastZero(xs: seq<real>, n: nat, k: nat)
    requires 1 <= n <= k <= |xs| && forall i :: 0 <= i < |xs| ==> xs[i] >= 0.0
    ensures WilderAt(xs, n, k) >= 0.0
  {
    var hi := BoundOf(xs);
    WilderBetween(xs, n, k, 0.0, hi);
  }

  function Rsi(values: seq<real>, n: nat): Option<real>
    requires n >= 1
  {
    if |values| <= n then None
    else
      AveragesAreSigned(values, n);
      Some(Strength(WilderAt(Gains(values), n, |values| - 1), WilderAt(Losses(values), n, |values| - 1)))
  }

  method ComputeRsi(values: seq<real>, n: nat) returns (r: Option<real>)
    requires n >= 1
    ensures r == Rsi(values, n)
  {
    if |values| <= n {
      return None;
    }
    var gains, losses := Gains(values), Losses(values);
    var avgGain, avgLoss := Mean(gains[..n]), Mean(losses[..n]);
    for k := n to |gains|
      invariant avgGain == WilderAt(gains, n, k) && avgLoss == WilderAt(losses, n, k)
    {
      avgGain := Smooth(n, avgGain, gains[k]);
      avgLoss := Smooth(n, avgLoss, losses[k]);
    }
    AveragesAreSigned(values, n);
    return Some(Strength(avgGain, avgLoss));
  }

  lemma CancelFactor(t: real, l: real)
    requires l > 0.0 && t * l == l
    ensures t == 1.0
  {
    assert (t - 1.0) * l == 0.0;
  }

  lemma Regroup(a: real, b: real, l: real, s: real, t: real)
    requires b * l == s && t == a * b
    ensures t * l == a * s
  {
    assert a * b * l == a * (b * l);
  }

  lemma ProductIsOne(a: real, b: real, l: real, s: real, t: real)
    requires l > 0.0 && b * l == s && a * s == l && t == a * b
    ensures t == 1.0
  {
    Regroup(a, b, l, s, t);
    CancelFactor(t, l);
  }

  lemma Complement(g: real, l: real)
    requires g > 0.0 && l > 0.0
    ensures (1.0 - g / (g + l)) * (1.0 + g / l) == 1.0
  {
    var p, q := g / (g + l), g / l;
    assert q * l == g && p * (g + l) == g;
    assert (1.0 + q) * l == g + l;
    assert (1.0 - p) * (g + l) == l;
    ProductIsOne(1.0 - p, 1.0 + q, l, g + l, (1.0 - p) * (1.0 + q));
  }

  lemma StrengthOf(g: real, l: real)
    requires g > 0.0 && l > 0.0
    ensures Strength(g, l) == 100.0 * (g / (g + l))
  {
    var p, q := g / (g + l), g / l;
    Complement(g, l);
    RatioIsPositive(g, l);
    assert 100.0 * (1.0 - p) * (1.0 + q) == 100.0 * ((1.0 - p) * (1.0 + q));
    DivideUnique(100.0, 1.0 + q, 100.0 * (1.0 - p));
  }

  lemma StrengthInRange(g: real, l: real)
    requires g >= 0.0 && l >= 0.0
    ensures 0.0 <= Strength(g, l) <= 100.0
  {
    if g > 0.0 && l > 0.0 {
      StrengthOf(g, l);
      DivideBetween(g, g + l, 0.0, 1.0);
    }
  }

  lemma StrengthSwaps(g: real, l: real)
    requires g >= 0.0 && l >= 0.0
    ensures Strength(l, g) == 100.0 - Strength(g, l)
  {
    if g > 0.0 && l > 0.0 {
      StrengthOf(g, l);
      StrengthOf(l, g);
      var p := g / (g + l);
      assert l == (1.0 - p) * (g + l);
      DivideUnique(l, g + l, 1.0 - p);
    }
  }

  lemma StrengthScales(g: real, l: real, c: real)
    requires g >= 0.0 && l >= 0.0 && c > 0.0
    ensures c * g >= 0.0 && c * l >= 0.0 && Strength(c * g, c * l) == Strength(g, l)
  {
    assert c * g == 0.0 <==> g == 0.0;
    assert c * l == 0.0 <==> l == 0.0;
    if g > 0.0 && l > 0.0 {
      var q := g / l;
      assert c * g == q * (c * l);
      DivideUnique(c * g, c * l, q);
    }
  }

  /** Relative strength is the share of the gains in all movement, in percent; without movement it is 50. */
  lemma StrengthIsShare(g: real, l: real)
    requires g >= 0.0 && l >= 0.0
    ensures g + l == 0.0 ==> Strength(g, l) == 50.0
    ensures g + l > 0.0 ==> Strength(g, l) == 100.0 * (g / (g + l))
  {
    if g > 0.0 && l > 0.0 {
      StrengthOf(g, l);
    } else if g > 0.0 {
      DivideUnique(g, g + l, 1.0);
    } else if l > 0.0 {
      DivideUnique(g, g + l, 0.0);
    }
  }

  /** Relative strength lies in [0, 100]. */
  lemma RsiInRange(values: seq<real>, n: nat)
    requires 1 <= n < |values|
    ensures Rsi(values, n).Some? && 0.0 <= Rsi(values, n).value <= 100.0
  {
    AveragesAreSigned(values, n);
    StrengthInRange(WilderAt(Gains(values), n, |values| - 1), WilderAt(Losses(values), n, |values| - 1));
  }

  function Reflected(values: seq<real>, c: real): (r: seq<real>)
    ensures |r| == |values|
  {
    seq(|values|, i requires 0 <= i < |values| => c - values[i])
  }

  function Moved(values: seq<real>, k: real, d: real): (r: seq<real>)
    ensures |r| == |values|
  {
    seq(|values|, i requires 0 <= i < |values| => k * values[i] + d)
  }

  lemma DeltasSwap(values: seq<real>, c: real)
    requires values != []
    ensures Gains(Reflected(values, c)) == Losses(values) && Losses(Reflected(values, c)) == Gains(values)
  {
  }

  lemma {:induction false} RsiOf(values: seq<real>, n: nat, g: real, l: real)
    requires 1 <= n < |values| && g >= 0.0 && l >= 0.0
    requires g == WilderAt(Gains(values), n, |values| - 1) && l == WilderAt(Losses(values), n, |values| - 1)
    ensures Rsi(values, n) == Some(Strength(g, l))
  {
  }

  /** Reflecting the prices turns the strength x into 100 - x, a flat series' 50 included. */
  lemma RsiReflects(values: seq<real>, n: nat, c: real)
    requires 1 <= n < |values|
    ensures Rsi(values, n).Some? && Rsi(Reflected(values, c), n) == Some(100.0 - Rsi(values, n).value)
  {
    var g, l := WilderAt(Gains(values), n, |values| - 1), WilderAt(Losses(values), n, |values| - 1);
    AveragesAreSigned(values, n);
    DeltasSwap(values, c);
    RsiOf(values, n, g, l);
    RsiOf(Reflected(values, c), n, l, g);
    StrengthSwaps(g, l);
  }

  lemma MaxScales(k: real, x: real)
    requires k > 0.0
    ensures Max(k * x, 0.0) == k * Max(x, 0.0)
  {
  }

  lemma MovedDelta(k: real, x: real, y: real, d: real, mx: real, my: real)
    requires k > 0.0 && mx == k * x + d && my == k * y + d
    ensures GainOf(mx, my) == k * GainOf(x, y) && LossOf(mx, my) == k * LossOf(x, y)
  {
    var delta := y - x;
    assert my - mx == k * delta;
    assert -(k * delta) == k * -delta;
    MaxScales(k, delta);
    MaxScales(k, -delta);
  }

  lemma DeltaScales(values: seq<real>, moved: seq<real>, k: real, d: real, i: nat)
    requires k > 0.0 && i + 1 < |values| && moved == Moved(values, k, d)
    ensures Gains(moved)[i] == Scaled(Gains(values), k)[i] && Losses(moved)[i] == Scaled(Losses(values), k)[i]
  {
    MovedDelta(k, values[i], values[i + 1], d, moved[i], moved[i + 1]);
  }

  lemma DeltasScale(values: seq<real>, moved: seq<real>, k: real, d: real)
    requires k > 0.0 && values != [] && moved == Moved(values, k, d)
    ensures Gains(moved) == Scaled(Gains(values), k) && Losses(moved) == Scaled(Losses(values), k)
  {
    forall i | 0 <= i < |values| - 1
      ensures Gains(moved)[i] == Scaled(Gains(values), k)[i] && Losses(moved)[i] == Scaled(Losses(values), k)[i]
    {
      DeltaScales(values, moved, k, d, i);
    }
  }

  lemma {:induction false} AverageScales(xs: seq<real>, ys: seq<real>, n: nat, m: nat, k: real, x: real)
    requires 1 <= n <= m <= |xs| && ys == Scaled(xs, k) && x == WilderAt(xs, n, m)
    ensures WilderAt(ys, n, m) == k * x
  {
    WilderScaled(xs, ys, n, m, k, x, WilderAt(ys, n, m));
  }

  lemma {:induction false} RsiOfScaledAverages(values: seq<real>, moved: seq<real>, n: nat, k: real, g: real, l: real)
    requires 1 <= n < |values| == |moved| && k > 0.0 && g >= 0.0 && l >= 0.0
    requires g == WilderAt(Gains(values), n, |values| - 1) && l == WilderAt(Losses(values), n, |values| - 1)
    requires Gains(moved) == Scaled(Gains(values), k) && Losses(moved) == Scaled(Losses(values), k)
    ensures Rsi(moved, n) == Rsi(values, n)
  {
    AverageScales(Gains(values), Gains(moved), n, |values| - 1, k, g);
    AverageScales(Losses(values), Losses(moved), n, |values| - 1, k, l);
    StrengthScales(g, l, k);
    RsiOf(values, n, g, l);
    RsiOf(moved, n, k * g, k * l);
  }

  /** Relative strength is unchanged by a positive scale and any shift of the prices. */
  lemma {:induction false} RsiIsInvariant(values: seq<real>, n: nat, k: real, d: real)
    requires n >= 1 && k > 0.0
    ensures Rsi(Moved(values, k, d), n) == Rsi(values, n)
  {
    if |values| > n {
      AveragesAreSigned(values, n);
      DeltasScale(values, Moved(values, k, d), k, d);
      RsiOfScaledAverages(values, Moved(values, k, d), n, k, WilderAt(Gains(values), n, |values| - 1),
                          WilderAt(Losses(values), n, |values| - 1));
    }
  }

  // ----- Average true range -----

  datatype Row = Row(high: real, low: real, close: real)

  function TrueRange(prev: Row, cur: Row): real {
    Max(Max(cur.high - cur.low, Abs(cur.high - prev.close)), Abs(cur.low - prev.close))
  }

  function TrueRanges(rows: seq<Row>): (trs: seq<real>)
    requires rows != []
    ensures |trs| == |rows| - 1
  {
    seq(|rows| - 1, i requires 0 <= i < |rows| - 1 => TrueRange(rows[i], rows[i + 1]))
  }

  function Atr(rows: seq<Row>, n: nat): Option<real>
    requires n >= 1
  {
    if |rows| <= n then None else Some(WilderAt(TrueRanges(rows), n, |rows| - 1))
  }

  method ComputeTrueRanges(rows: seq<Row>) returns (trueRanges: seq<real>)
    requires rows != []
    ensures trueRanges == TrueRanges(rows)
  {
    trueRanges := [];
    for i := 0 to |rows| - 1
      invariant trueRanges == TrueRanges(rows)[..i]
    {
      trueRanges := trueRanges + [TrueRange(rows[i], rows[i + 1])];
    }
  }

  method ComputeAtr(rows: seq<Row>, n: nat) returns (r: Option<real>)
    requires n >= 1
    ensures r == Atr(rows, n)
  {
    if |rows| <= n {
      return None;
    }
    var trueRanges := ComputeTrueRanges(rows);
    var value := Mean(trueRanges[..n]);
    for k := n to |trueRanges|
      invariant value == WilderAt(trueRanges, n, k)
    {
      value := Smooth(n, value, trueRanges[k]);
    }
    return Some(value);
  }

  /** The span of a candle together with the close before it. */
  lemma TrueRangeIsSpan(prev: Row, cur: Row)
    requires cur.low <= cur.high
    ensures TrueRange(prev, cur) == Max(cur.high, prev.close) - Min(cur.low, prev.close)
  {
  }

  /** The average true range stays between the bounds of the true ranges. */
  lemma AtrBetween(rows: seq<Row>, n: nat, lo: real, hi: real)
    requires 1 <= n < |rows| && Between(TrueRanges(rows), lo, hi)
    ensures Atr(rows, n).Some? && lo <= Atr(rows, n).value <= hi
  {
    WilderBetween(TrueRanges(rows), n, |rows| - 1, lo, hi);
  }

  // ----- Convergence/divergence -----

  const FAST := 12
  const SLOW := 26
  const SIGNAL := 9

  datatype Macd = Macd(line: real, signal: real, histogram: real)

  /** The averages are computed anew for every prefix of the series. */
  function Stream(values: seq<real>, k: nat): (stream: seq<real>)
    requires SLOW <= k <= |values|
    ensures |stream| == k - SLOW + 1
    decreases k
  {
    var last := Ema(values[..k], FAST).value - Ema(values[..k], SLOW).value;
    if k == SLOW then [last] else Stream(values, k - 1) + [last]
  }

  function MacdOf(stream: seq<real>): Macd
    requires stream != []
  {
    var line, signal := stream[|stream| - 1], Ema(stream, SIGNAL).value;
    Macd(line, signal, line - signal)
  }

  method ComputeMacd(values: seq<real>) returns (r: Option<Macd>)
    ensures r == if |values| < SLOW then None else Some(MacdOf(Stream(values, |values|)))
  {
    if |values| < SLOW {
      return None;
    }
    var fast := ComputeEma(values[..SLOW], FAST);
    var slow := ComputeEma(values[..SLOW], SLOW);
    var stream := [fast.value - slow.value];
    for k := SLOW to |values|
      invariant stream == Stream(values, k)
    {
      fast := ComputeEma(values[..k + 1], FAST);
      slow := ComputeEma(values[..k + 1], SLOW);
      stream := stream + [fast.value - slow.value];
    }
    var signal := ComputeEma(stream, SIGNAL);
    var line := stream[|stream| - 1];
    return Some(Macd(line, signal.value, line - signal.value));
  }

  /** The state of a single pass: both averages, and the differences so far. */
  datatype Pass = Pass(fast: real, slow: real, stream: seq<real>)

  function Started(values: seq<real>): Pass
    requires SLOW <= |values|
  {
    var fast, slow := EmaAt(values, FAST, SLOW), Mean(values[..SLOW]);
    Pass(fast, slow, [fast - slow])
  }

  /** One step per price, each from the averages before it. */
  function Advance(p: Pass, x: real): Pass {
    var fast, slow := Blend(Alpha(FAST), x, p.fast), Blend(Alpha(SLOW), x, p.slow);
    Pass(fast, slow, p.stream + [fast - slow])
  }

  function Linear(values: seq<real>, k: nat): Pass
    requires SLOW <= k <= |values|
    decreases k
  {
    if k == SLOW then Started(values) else Advance(Linear(values, k - 1), values[k - 1])
  }

  lemma {:induction false} EmaOfPrefix(values: seq<real>, n: nat, i: nat, k: nat)
    requires 1 <= n <= i <= k <= |values|
    ensures EmaAt(values[..k], n, i) == EmaAt(values, n, i)
    decreases i
  {
    if i == n {
      assert values[..k][..n] == values[..n];
    } else {
      EmaOfPrefix(values, n, i - 1, k);
    }
  }

  /** The recomputation over every prefix gives exactly what one linear pass gives. */
  lemma {:induction false} QuadraticIsLinear(values: seq<real>, k: nat)
    requires SLOW <= k <= |values|
    ensures Linear(values, k).fast == EmaAt(values, FAST, k) && Linear(values, k).slow == EmaAt(values, SLOW, k)
    ensures Linear(values, k).stream == Stream(values, k)
    decreases k
  {
    EmaOfPrefix(values, FAST, k, k);
    EmaOfPrefix(values, SLOW, k, k);
    if k > SLOW {
      QuadraticIsLinear(values, k - 1);
    }
  }
}
