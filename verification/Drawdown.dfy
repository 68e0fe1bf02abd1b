/**
  Drawdown and streaks: the one-pass loops of the backtest statistics against the array expressions of model
  validation, both measured by the largest drop from a point of a curve to a later one.
 */
module Drawdown {
  import opened Reals

  /** m is the largest drop curve[i] - curve[j] with i <= j, and zero for an empty curve. */
  ghost predicate IsLargestDrop(curve: seq<real>, m: real) {
    && (forall i, j :: 0 <= i <= j < |curve| ==> curve[i] - curve[j] <= m)
    && (if curve == [] then m == 0.0 else exists i, j :: 0 <= i <= j < |curve| && curve[i] - curve[j] == m)
  }

  lemma LargestDropIsUnique(curve: seq<real>, m: real, n: real)
    requires IsLargestDrop(curve, m) && IsLargestDrop(curve, n)
    ensures m == n
  {
    if curve != [] {
      var i, j :| 0 <= i <= j < |curve| && curve[i] - curve[j] == m;
      var k, l :| 0 <= k <= l < |curve| && curve[k] - curve[l] == n;
    }
  }

  // ----- The loops of the backtest statistics -----

  /** The running total after each profit. */
  function Equity(profits: seq<real>, start: real): (curve: seq<real>)
    ensures |curve| == |profits|
  {
    if profits == [] then [] else [start + profits[0]] + Equity(profits[1..], start + profits[0])
  }

  lemma {:induction false} SumFromFirst(s: seq<real>)
    requires s != []
    ensures Sum(s) == s[0] + Sum(s[1..])
  {
    var n := |s| - 1;
    if n > 0 {
      SumFromFirst(s[..n]);
      assert s[..n][1..] == s[1..][..n - 1];
    }
  }

  /** A point of the curve is the start and all profits up to it. */
  lemma {:induction false} EquityIs(profits: seq<real>, start: real, k: nat)
    requires k < |profits|
    ensures Equity(profits, start)[k] == start + Sum(profits[..k + 1])
  {
    assert profits[..k + 1][1..] == profits[1..][..k];
    SumFromFirst(profits[..k + 1]);
    if k > 0 {
      EquityIs(profits[1..], start + profits[0], k - 1);
    } else {
      assert profits[..1][1..] == [];
    }
  }

  method EquityCurve(profits: seq<real>, start: real) returns (out: seq<real>)
    ensures out == Equity(profits, start)
    ensures |out| == |profits| && forall k :: 0 <= k < |out| ==> out[k] == start + Sum(profits[..k + 1])
  {
    out := [];
    var total := start;
    for k := 0 to |profits|
      invariant out + Equity(profits[k..], total) == Equity(profits, start)
    {
      assert profits[k..][0] == profits[k] && profits[k..][1..] == profits[k + 1..];
      total := total + profits[k];
      out := out + [total];
    }
    forall k | 0 <= k < |out| ensures out[k] == start + Sum(profits[..k + 1]) { EquityIs(profits, start, k); }
  }

  method MaxDrawdown(curve: seq<real>) returns (m: real)
    ensures IsLargestDrop(curve, m)
  {
    var peak := if curve != [] then curve[0] else 0.0;
    m := 0.0;
    for k := 0 to |curve|
      invariant m >= 0.0
      invariant forall i :: 0 <= i < k ==> curve[i] <= peak
      invariant k == 0 && curve != [] ==> peak == curve[0]
      invariant k > 0 ==> exists i :: 0 <= i < k && curve[i] == peak
      invariant forall i, j :: 0 <= i <= j < k ==> curve[i] - curve[j] <= m
      invariant k == 0 ==> m == 0.0
      invariant k > 0 ==> exists i, j :: 0 <= i <= j < k && curve[i] - curve[j] == m
    {
      ghost var before := m;
      if curve[k] > peak || k == 0 {
        assert curve[k] - curve[k] == 0.0;
      }
      peak := Max(peak, curve[k]);
      m := Max(m, peak - curve[k]);
      assert exists i :: 0 <= i < k + 1 && curve[i] == peak;
      if m != before {
        var i :| 0 <= i < k + 1 && curve[i] == peak;
        assert curve[i] - curve[k] == m;
      }
    }
  }

  // ----- The array expressions of model validation -----

  /** maximum.accumulate */
  function RunningMax(curve: seq<real>): (peaks: seq<real>)
    ensures |peaks| == |curve|
  {
    if |curve| <= 1 then curve
    else
      var init := RunningMax(curve[..|curve| - 1]);
      init + [Max(init[|init| - 1], curve[|curve| - 1])]
  }

  function Below(curve: seq<real>, peaks: seq<real>): (d: seq<real>)
    requires |curve| == |peaks|
    ensures |d| == |curve|
  {
    seq(|curve|, i requires 0 <= i < |curve| => curve[i] - peaks[i])
  }

  function Least(s: seq<real>): (m: real)
    requires s != []
    ensures m in s && forall x :: x in s ==> m <= x
  {
    if |s| == 1 then s[0]
    else
      var m := Least(s[1..]);
      assert s == [s[0]] + s[1..];
      Min(s[0], m)
  }

  /** The drawdown of a fold's signed returns; the curve starts at zero. */
  function ValidationDrawdown(signed: seq<real>): real {
    var curve := [0.0] + Equity(signed, 0.0);
    Abs(Least(Below(curve, RunningMax(curve))))
  }

  lemma {:induction false} RunningMaxIs(curve: seq<real>, j: nat)
    requires j < |curve|
    ensures forall i :: 0 <= i <= j ==> curve[i] <= RunningMax(curve)[j]
    ensures exists i :: 0 <= i <= j && curve[i] == RunningMax(curve)[j]
  {
    var n := |curve| - 1;
    if n == 0 {
      assert curve[0] == RunningMax(curve)[j];
    } else {
      var init := curve[..n];
      if j < n {
        RunningMaxIs(init, j);
        var i :| 0 <= i <= j && init[i] == RunningMax(init)[j];
        assert curve[i] == RunningMax(curve)[j];
      } else {
        RunningMaxIs(init, n - 1);
        var i :| 0 <= i <= n - 1 && init[i] == RunningMax(init)[n - 1];
        assert curve[i] == RunningMax(init)[n - 1];
        assert RunningMax(curve)[n] == curve[i] || RunningMax(curve)[n] == curve[n];
        forall k | 0 <= k <= n ensures curve[k] <= RunningMax(curve)[n] {
          if k < n { assert init[k] == curve[k]; }
        }
      }
    }
  }

  lemma {:induction false} LeastBelowIsDrop(curve: seq<real>)
    requires curve != []
    ensures Least(Below(curve, RunningMax(curve))) <= 0.0
    ensures IsLargestDrop(curve, -Least(Below(curve, RunningMax(curve))))
  {
    var peaks := RunningMax(curve);
    var d := Below(curve, peaks);
    var least := Least(d);
    forall i, j | 0 <= i <= j < |curve| ensures curve[i] - curve[j] <= -least {
      RunningMaxIs(curve, j);
      assert d[j] in d;
    }
    var j :| 0 <= j < |d| && d[j] == least;
    RunningMaxIs(curve, j);
    var i :| 0 <= i <= j && curve[i] == peaks[j];
    assert curve[i] - curve[j] == -least;
    assert curve[0] - curve[0] <= -least;
  }

  /** The validation drawdown is the largest drop of the cumulative returns, the start included. */
  lemma {:induction false} ValidationIsLargestDrop(signed: seq<real>)
    ensures IsLargestDrop([0.0] + Equity(signed, 0.0), ValidationDrawdown(signed))
  {
    LeastBelowIsDrop([0.0] + Equity(signed, 0.0));
  }

  // ----- The two agree -----

  lemma {:induction false} EquityMoves(profits: seq<real>, s: real, t: real, k: nat)
    requires k < |profits|
    ensures Equity(profits, s)[k] - s == Equity(profits, t)[k] - t
  {
    if k > 0 {
      EquityMoves(profits[1..], s + profits[0], t + profits[0], k - 1);
    }
  }

  /** Moving a curve up or down keeps its drops. */
  lemma ShiftKeepsDrop(a: seq<real>, b: seq<real>, offset: real, m: real)
    requires |a| == |b| && forall i :: 0 <= i < |a| ==> b[i] == a[i] + offset
    requires IsLargestDrop(a, m)
    ensures IsLargestDrop(b, m)
  {
    if a != [] {
      var i, j :| 0 <= i <= j < |a| && a[i] - a[j] == m;
      assert b[i] - b[j] == m;
    }
  }

  /** The drawdown of an equity curve does not depend on its start. */
  lemma {:induction false} StartDoesNotMatter(profits: seq<real>, s: real, t: real, m: real)
    requires IsLargestDrop(Equity(profits, s), m)
    ensures IsLargestDrop(Equity(profits, t), m)
  {
    var a, b := Equity(profits, s), Equity(profits, t);
    forall k | 0 <= k < |a| ensures b[k] == a[k] + (t - s) {
      EquityMoves(profits, s, t, k);
    }
    ShiftKeepsDrop(a, b, t - s, m);
  }

  lemma {:induction false} WholeMoves(profits: seq<real>, s: real, t: real, k: nat)
    requires k <= |profits|
    ensures ([t] + Equity(profits, t))[k] == ([s] + Equity(profits, s))[k] + (t - s)
  {
    if k > 0 { EquityMoves(profits, s, t, k - 1); }
  }

  /** With the start value prepended it is the validation drawdown of the same returns. */
  lemma {:induction false} PrependedStartAgrees(profits: seq<real>, s: real, m: real)
    ensures IsLargestDrop([s] + Equity(profits, s), m) <==> m == ValidationDrawdown(profits)
  {
    var a, b := [0.0] + Equity(profits, 0.0), [s] + Equity(profits, s);
    forall k | 0 <= k < |a| ensures b[k] == a[k] + (s - 0.0) {
      WholeMoves(profits, 0.0, s, k);
    }
    ValidationIsLargestDrop(profits);
    ShiftKeepsDrop(a, b, s - 0.0, ValidationDrawdown(profits));
    if IsLargestDrop(b, m) { LargestDropIsUnique(b, m, ValidationDrawdown(profits)); }
  }

  lemma PrependRaises(curve: seq<real>, s: real, m: real, v: real)
    requires IsLargestDrop(curve, m) && IsLargestDrop([s] + curve, v)
    ensures m <= v && forall k :: 0 <= k < |curve| ==> s - curve[k] <= v
  {
    var whole := [s] + curve;
    assert whole[0] - whole[0] <= v;
    if curve != [] {
      var i, j :| 0 <= i <= j < |curve| && curve[i] - curve[j] == m;
      assert whole[i + 1] - whole[j + 1] == m;
    }
    forall k | 0 <= k < |curve| ensures s - curve[k] <= v {
      assert whole[0] - whole[k + 1] <= v;
    }
  }

  lemma DropOfWhole(curve: seq<real>, s: real, m: real, i: nat, j: nat)
    requires i <= j <= |curve| && IsLargestDrop(curve, m) && forall k :: 0 <= k < |curve| ==> s - curve[k] <= m
    ensures ([s] + curve)[i] - ([s] + curve)[j] <= m
  {
    if curve != [] { assert curve[0] - curve[0] <= m; }
    if i > 0 { assert curve[i - 1] - curve[j - 1] <= m; }
  }

  lemma PrependAddsNothing(curve: seq<real>, s: real, m: real, v: real)
    requires IsLargestDrop(curve, m) && IsLargestDrop([s] + curve, v)
    requires forall k :: 0 <= k < |curve| ==> s - curve[k] <= m
    ensures v <= m
  {
    var whole := [s] + curve;
    var i, j :| 0 <= i <= j < |whole| && whole[i] - whole[j] == v;
    DropOfWhole(curve, s, m, i, j);
  }

  /** Every fall from s to a point of the curve is matched by a fall between two points of the curve. */
  ghost predicate FallsAreMatched(curve: seq<real>, s: real) {
    forall k :: 0 <= k < |curve| ==> exists i, j :: 0 <= i <= j < |curve| && curve[i] - curve[j] >= s - curve[k]
  }

  lemma MatchedIff(curve: seq<real>, s: real, m: real)
    requires IsLargestDrop(curve, m)
    ensures FallsAreMatched(curve, s) <==> forall k :: 0 <= k < |curve| ==> s - curve[k] <= m
  {
    if curve != [] {
      var i, j :| 0 <= i <= j < |curve| && curve[i] - curve[j] == m;
    }
  }

  lemma CurveAgreesIff(curve: seq<real>, s: real, m: real, v: real)
    requires IsLargestDrop(curve, m) && IsLargestDrop([s] + curve, v)
    ensures m <= v && (m == v <==> FallsAreMatched(curve, s))
  {
    PrependRaises(curve, s, m, v);
    MatchedIff(curve, s, m);
    if FallsAreMatched(curve, s) { PrependAddsNothing(curve, s, m, v); }
  }

  /**
    Without the start the drawdown is at most the validation drawdown, and equal exactly when every fall from the
    start to a point of the curve is matched by a fall between two points of the curve.
   */
  lemma {:induction false} DrawdownAgreesIff(profits: seq<real>, s: real, m: real)
    requires IsLargestDrop(Equity(profits, s), m)
    ensures m <= ValidationDrawdown(profits)
    ensures m == ValidationDrawdown(profits) <==> FallsAreMatched(Equity(profits, s), s)
  {
    PrependedStartAgrees(profits, s, ValidationDrawdown(profits));
    CurveAgreesIff(Equity(profits, s), s, m, ValidationDrawdown(profits));
  }

  /** A single loss: the curve alone shows no drawdown, the validation shows the loss. */
  lemma FirstLossIsMissed()
    ensures IsLargestDrop(Equity([-1.0], 100000.0), 0.0) && ValidationDrawdown([-1.0]) == 1.0
  {
    assert [-1.0][1..] == [];
    var curve := Equity([-1.0], 100000.0);
    assert curve == [99999.0] && curve[0] - curve[0] == 0.0;
    var whole := [100000.0] + curve;
    assert whole[0] - whole[1] == 1.0;
    PrependedStartAgrees([-1.0], 100000.0, 1.0);
  }

  // ----- Streaks -----

  predicate Counts(profit: real, win: bool) {
    if win then profit > 0.0 else profit < 0.0
  }

  ghost predicate IsStreak(profits: seq<real>, win: bool, from: int, end: int) {
    0 <= from <= end <= |profits| && forall i :: from <= i < end ==> Counts(profits[i], win)
  }

  lemma StreakStartsAt(profits: seq<real>, win: bool, from: int, end: int, start: int)
    requires IsStreak(profits, win, from, end) && 0 <= start <= end
    requires start > 0 ==> !Counts(profits[start - 1], win)
    ensures from >= start
  {
  }

  /** The longest run of wins, or of losses. */
  method Streak(profits: seq<real>, win: bool) returns (best: nat)
    ensures exists from, end :: IsStreak(profits, win, from, end) && end - from == best
    ensures forall from, end :: IsStreak(profits, win, from, end) ==> end - from <= best
  {
    best := 0;
    var cur: nat := 0;
    assert IsStreak(profits, win, 0, 0);
    for k := 0 to |profits|
      invariant cur <= k && IsStreak(profits, win, k - cur, k)
      invariant k - cur > 0 ==> !Counts(profits[k - cur - 1], win)
      invariant exists from, end :: IsStreak(profits, win, from, end) && end - from == best
      invariant forall from, end :: IsStreak(profits, win, from, end) && end <= k ==> end - from <= best
    {
      var ok := Counts(profits[k], win);
      cur := if ok then cur + 1 else 0;
      ghost var start := k + 1 - cur;
      assert IsStreak(profits, win, start, k + 1);
      forall from, end | IsStreak(profits, win, from, end) && end == k + 1 ensures from >= start {
        StreakStartsAt(profits, win, from, end, start);
      }
      best := if cur > best then cur else best;
    }
  }
}
