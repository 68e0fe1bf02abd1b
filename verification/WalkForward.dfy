/** Expanding-window validation: every fold trains on all samples before its test window. */
module WalkForward {
  import opened Options

  /** Train on [0, trainEnd), test on [trainEnd, testEnd). */
  datatype Window = Window(fold: nat, trainEnd: nat, testEnd: nat)

  function MinTrain(n: nat, folds: nat): nat
    requires folds >= 1
  {
    if n / (folds + 1) > 100 then n / (folds + 1) else 100
  }

  function Step(n: nat, folds: nat): nat
    requires folds >= 1
  {
    var step := (n - MinTrain(n, folds)) / folds;
    if step > 1 then step else 1
  }

  function TrainEnd(n: nat, folds: nat, fold: nat): nat
    requires folds >= 1
  {
    MinTrain(n, folds) + fold * Step(n, folds)
  }

  function TestEnd(n: nat, folds: nat, fold: nat): nat
    requires folds >= 1
  {
    var end := TrainEnd(n, folds, fold) + Step(n, folds);
    if end < n then end else n
  }

  predicate NonEmpty(n: nat, folds: nat, fold: nat)
    requires folds >= 1
  {
    TestEnd(n, folds, fold) > TrainEnd(n, folds, fold) && TrainEnd(n, folds, fold) < n
  }

  function WindowAt(n: nat, folds: nat, fold: nat): Window
    requires folds >= 1
  {
    Window(fold + 1, TrainEnd(n, folds, fold), TestEnd(n, folds, fold))
  }

  /** The windows of the first k folds that have something to test. */
  function Windows(n: nat, folds: nat, k: nat): seq<Window>
    requires folds >= 1
  {
    if k == 0 then []
    else if NonEmpty(n, folds, k - 1) then Windows(n, folds, k - 1) + [WindowAt(n, folds, k - 1)]
    else Windows(n, folds, k - 1)
  }

  /** At least two different labels. */
  predicate TwoClasses(labels: seq<int>) {
    exists i | 0 <= i < |labels| :: labels[i] != labels[0]
  }

  /** Both sides of the window show two classes. */
  predicate Learnable(labels: seq<int>, w: Window)
    requires w.trainEnd <= w.testEnd <= |labels|
  {
    TwoClasses(labels[..w.trainEnd]) && TwoClasses(labels[w.trainEnd..w.testEnd])
  }

  function Learned(labels: seq<int>, windows: seq<Window>): seq<Window>
    requires forall i :: 0 <= i < |windows| ==> windows[i].trainEnd <= windows[i].testEnd <= |labels|
  {
    if windows == [] then []
    else
      var init, last := windows[..|windows| - 1], windows[|windows| - 1];
      if Learnable(labels, last) then Learned(labels, init) + [last] else Learned(labels, init)
  }

  /** The folds that are trained and tested; without any, validation fails. */
  method WalkForwardFolds(labels: seq<int>, folds: nat) returns (result: Option<seq<Window>>)
    requires folds >= 1
    ensures forall i :: 0 <= i < |Windows(|labels|, folds, folds)| ==>
              Windows(|labels|, folds, folds)[i].trainEnd <= Windows(|labels|, folds, folds)[i].testEnd <= |labels|
    ensures var tested := Learned(labels, Windows(|labels|, folds, folds));
      result == if tested == [] then None else Some(tested)
  {
    var n := |labels|;
    var tested: seq<Window> := [];
    for fold := 0 to folds
      invariant forall i :: 0 <= i < |Windows(n, folds, fold)| ==>
                  Windows(n, folds, fold)[i].trainEnd <= Windows(n, folds, fold)[i].testEnd <= n
      invariant tested == Learned(labels, Windows(n, folds, fold))
    {
      var trainEnd, testEnd := TrainEnd(n, folds, fold), TestEnd(n, folds, fold);
      if testEnd <= trainEnd || trainEnd >= n {
        continue;
      }
      ghost var before := Windows(n, folds, fold);
      assert Windows(n, folds, fold + 1) == before + [WindowAt(n, folds, fold)];
      assert (before + [WindowAt(n, folds, fold)])[..|before|] == before;
      if !TwoClasses(labels[..trainEnd]) || !TwoClasses(labels[trainEnd..testEnd]) {
        continue;
      }
      tested := tested + [Window(fold + 1, trainEnd, testEnd)];
    }
    return if tested == [] then None else Some(tested);
  }

  // ----- The windows tile the samples after the first training set -----

  /** How many folds have something to test. */
  function Count(n: nat, folds: nat): nat
    requires folds >= 1
  {
    var rest := n - MinTrain(n, folds);
    if rest >= folds then folds else if rest > 0 then rest else 0
  }

  lemma StepFits(rest: int, folds: nat)
    requires 1 <= folds <= rest
    ensures rest / folds >= 1 && folds * (rest / folds) <= rest < folds * (rest / folds) + folds
  {
  }

  lemma StepsGrow(a: nat, b: nat, step: nat)
    requires a <= b
    ensures a * step <= b * step
  {
  }

  lemma NextStep(k: nat, step: nat)
    ensures (k + 1) * step == k * step + step
  {
  }

  lemma NonEmptyIff(n: nat, folds: nat, fold: nat)
    requires 1 <= folds && fold < folds
    ensures NonEmpty(n, folds, fold) <==> fold < Count(n, folds)
    ensures fold < Count(n, folds) ==> TrainEnd(n, folds, fold) + Step(n, folds) <= n
  {
    var rest := n - MinTrain(n, folds);
    if rest >= folds {
      StepFits(rest, folds);
      StepsGrow(fold + 1, folds, Step(n, folds));
      NextStep(fold, Step(n, folds));
    } else {
      SmallStep(rest, folds);
    }
  }

  lemma SmallStep(rest: int, folds: nat)
    requires 1 <= folds && rest < folds
    ensures rest / folds <= 0
  {
  }

  lemma {:induction false} WindowsAre(n: nat, folds: nat, k: nat)
    requires 1 <= folds && k <= folds
    ensures |Windows(n, folds, k)| == if k < Count(n, folds) then k else Count(n, folds)
    ensures forall i :: 0 <= i < |Windows(n, folds, k)| ==> Windows(n, folds, k)[i] == WindowAt(n, folds, i)
  {
    if k > 0 {
      WindowsAre(n, folds, k - 1);
      NonEmptyIff(n, folds, k - 1);
    }
  }

  /** Consecutive windows start at the first untrained sample and leave fewer than `folds` samples at the end. */
  ghost predicate Tiles(ws: seq<Window>, start: nat, n: nat, folds: nat) {
    && ws != []
    && ws[0].trainEnd == start
    && (forall i :: 0 <= i < |ws| ==> start <= ws[i].trainEnd < ws[i].testEnd <= n && ws[i].fold == i + 1)
    && (forall i :: 0 <= i < |ws| - 1 ==> ws[i].testEnd == ws[i + 1].trainEnd)
    && n - folds < ws[|ws| - 1].testEnd
  }

  lemma Consecutive(n: nat, folds: nat, i: nat)
    requires 1 <= folds && i < Count(n, folds)
    ensures TrainEnd(n, folds, i) < TestEnd(n, folds, i) <= n && MinTrain(n, folds) <= TrainEnd(n, folds, i)
    ensures TestEnd(n, folds, i) == TrainEnd(n, folds, i + 1)
  {
    NonEmptyIff(n, folds, i);
    NextWindow(n, folds, i);
  }

  lemma NextWindow(n: nat, folds: nat, i: nat)
    requires 1 <= folds
    ensures TrainEnd(n, folds, i + 1) == TrainEnd(n, folds, i) + Step(n, folds)
    ensures MinTrain(n, folds) <= TrainEnd(n, folds, i)
  {
    NextStep(i, Step(n, folds));
  }

  lemma TailIsShort(n: nat, folds: nat)
    requires 1 <= folds && 0 < Count(n, folds)
    ensures n - folds < TestEnd(n, folds, Count(n, folds) - 1)
  {
    var rest := n - MinTrain(n, folds);
    Consecutive(n, folds, Count(n, folds) - 1);
    if rest >= folds {
      StepFits(rest, folds);
    } else {
      SmallStep(rest, folds);
    }
  }

  lemma ShareIsSmaller(n: nat, folds: nat)
    requires n >= 1 && folds >= 1
    ensures n / (folds + 1) < n
  {
  }

  lemma SomeWindowIff(n: nat, folds: nat)
    requires folds >= 1
    ensures Count(n, folds) > 0 <==> n > 100
  {
    if n >= 1 { ShareIsSmaller(n, folds); }
  }

  /** There is a window exactly when there are more than 100 samples, and then the windows tile the tested samples. */
  lemma {:induction false} WindowsTile(n: nat, folds: nat)
    requires folds >= 1
    ensures Windows(n, folds, folds) == [] <==> n <= 100
    ensures n > 100 ==> Tiles(Windows(n, folds, folds), MinTrain(n, folds), n, folds)
  {
    SomeWindowIff(n, folds);
    WindowsAre(n, folds, folds);
    if n > 100 {
      var ws := Windows(n, folds, folds);
      forall i | 0 <= i < |ws|
        ensures MinTrain(n, folds) <= ws[i].trainEnd < ws[i].testEnd <= n && ws[i].fold == i + 1
        ensures i < |ws| - 1 ==> ws[i].testEnd == ws[i + 1].trainEnd
      {
        Consecutive(n, folds, i);
      }
      TailIsShort(n, folds);
    }
  }

  lemma Quotient(n: nat, d: nat, q: nat)
    requires d >= 1 && q == n / d
    ensures d * q <= n < d * (q + 1)
  {
  }

  lemma Larger(n: nat, d: nat, q: nat, a: nat)
    requires q <= a && n < d * (q + 1)
    ensures n < d * (a + 1)
  {
    StepsGrow(q + 1, a + 1, d);
  }

  /** The first training set has a fold's even share of the samples, but at least 100. */
  lemma FirstTraining(n: nat, folds: nat, start: nat)
    requires folds >= 1 && start == MinTrain(n, folds)
    ensures start >= 100 && (start == 100 || (folds + 1) * start <= n) && n < (folds + 1) * (start + 1)
  {
    var share := n / (folds + 1);
    Quotient(n, folds + 1, share);
    Larger(n, folds + 1, share, start);
  }

  lemma WidthIsStep(n: nat, folds: nat, i: nat)
    requires folds >= 1 && i < Count(n, folds) && Count(n, folds) <= folds
    ensures WindowAt(n, folds, i).testEnd - WindowAt(n, folds, i).trainEnd == Step(n, folds)
  {
    NonEmptyIff(n, folds, i);
  }

  lemma EvenShare(rest: nat, folds: nat, count: nat, step: nat)
    requires folds >= 1 && count == (if rest < folds then rest else folds)
    requires step == if rest / folds > 1 then rest / folds else 1
    ensures count * step <= rest < count * step + folds
  {
    if rest >= folds { StepFits(rest, folds); } else { SmallStep(rest, folds); }
  }

  /** The windows share the samples after it evenly: all of one width, and fewer than `folds` samples left over. */
  lemma {:induction false} WindowSizes(n: nat, folds: nat, ws: seq<Window>, start: nat, width: int)
    requires folds >= 1 && n > 100 && ws == Windows(n, folds, folds) && ws != []
    requires start == ws[0].trainEnd && width == ws[0].testEnd - ws[0].trainEnd
    ensures start >= 100 && (start == 100 || (folds + 1) * start <= n) && n < (folds + 1) * (start + 1)
    ensures forall i :: 0 <= i < |ws| ==> ws[i].testEnd - ws[i].trainEnd == width
    ensures |ws| == if n - start < folds then n - start else folds
    ensures |ws| * width <= n - start < |ws| * width + folds
  {
    WindowsAre(n, folds, folds);
    assert ws[0] == WindowAt(n, folds, 0) && start == MinTrain(n, folds);
    FirstTraining(n, folds, start);
    forall i | 0 <= i < |ws| ensures ws[i].testEnd - ws[i].trainEnd == Step(n, folds) { WidthIsStep(n, folds, i); }
    SomeWindowIff(n, folds);
    EvenShare(n - start, folds, |ws|, width);
  }

  /** No sample is tested twice, and none is tested by a fold that trained on it. */
  lemma {:induction false} TilesAreDisjoint(ws: seq<Window>, start: nat, n: nat, folds: nat, i: nat, j: nat)
    requires Tiles(ws, start, n, folds) && i < j < |ws|
    ensures ws[i].testEnd <= ws[j].trainEnd
    decreases j
  {
    if i < j - 1 { TilesAreDisjoint(ws, start, n, folds, i, j - 1); }
    assert ws[j - 1].testEnd == ws[j].trainEnd;
  }

  /** The folds that are tested are exactly the windows that show two classes on both sides. */
  lemma {:induction false} LearnedAre(labels: seq<int>, windows: seq<Window>)
    requires forall i :: 0 <= i < |windows| ==> windows[i].trainEnd <= windows[i].testEnd <= |labels|
    ensures forall w :: w in Learned(labels, windows)
              <==> w in windows && w.trainEnd <= w.testEnd <= |labels| && Learnable(labels, w)
  {
    if windows != [] {
      var init, last := windows[..|windows| - 1], windows[|windows| - 1];
      LearnedAre(labels, init);
      assert windows == init + [last];
    }
  }
}
