/**
  The champion/challenger registry of one symbol and timeframe: training adds a model and may promote it,
  rollback restores the strongest safe model that is not the champion.
 */
module ModelRegistry {
  import opened Floats
  import opened Options

  /** What walk-forward validation averages over its folds. */
  datatype Aggregate =
    Aggregate(accuracy: Float, f1: Float, sharpe: Float, expectancy: Float, profitFactor: Float, totalReturn: Float)

  /** The part of a model's stored validation that later decisions read. */
  datatype Validation = Validation(score: Float, accuracy: Float, expectancy: Float, totalReturn: Float)

  datatype Status = Experimental | Active | Champion

  datatype Model = Model(status: Status, validation: Validation)

  /** Models in order of creation, oldest first. */
  type Models = seq<Model>

  const GATE := 0.52

  // ----- Training -----

  function Score(a: Aggregate): Float {
    a.accuracy.Times(0.30).Plus(a.f1.Times(0.15)).Plus(a.sharpe.Times(0.20))
    .Plus(a.expectancy.Times(1000.0).Times(0.20)).Plus(Min(a.profitFactor, Finite(5.0)).Times(0.2).Times(0.15))
  }

  /** The candidates that are not below the accuracy gate. */
  function Passing(candidates: seq<Aggregate>, minAccuracy: real): seq<Aggregate> {
    if candidates == [] then []
    else
      var init, last := candidates[..|candidates| - 1], candidates[|candidates| - 1];
      if last.accuracy.Less(Finite(minAccuracy)) then Passing(init, minAccuracy)
      else Passing(init, minAccuracy) + [last]
  }

  function Scores(results: seq<Aggregate>): (scores: seq<Float>)
    ensures |scores| == |results|
  {
    seq(|results|, i requires 0 <= i < |results| => Score(results[i]))
  }

  predicate NotPositive(f: Float) {
    !f.NaN? && !Finite(0.0).Less(f)
  }

  /** The validation a training run stores, unless no candidate passes or the best one is not profitable. */
  function Trained(candidates: seq<Aggregate>, minAccuracy: real): Option<Validation> {
    var results := Passing(candidates, minAccuracy);
    if results == [] then None
    else
      var best := results[ArgMax(Scores(results))];
      if NotPositive(best.expectancy) && NotPositive(best.totalReturn) then None
      else Some(Validation(Score(best), best.accuracy, best.expectancy, best.totalReturn))
  }

  /** The newest champion. */
  function NewestChampion(models: Models): (k: Option<nat>)
    ensures k.Some? ==> k.value < |models| && models[k.value].status.Champion?
  {
    if models == [] then None
    else if models[|models| - 1].status.Champion? then Some(|models| - 1)
    else NewestChampion(models[..|models| - 1])
  }

  function Demoted(models: Models): (r: Models)
    ensures |r| == |models|
  {
    seq(|models|, i requires 0 <= i < |models| =>
      if models[i].status.Champion? then models[i].(status := Active) else models[i])
  }

  /** A new model is promoted when there is no champion or it outscores the champion. */
  function Admit(models: Models, v: Validation): Models {
    var previous := NewestChampion(models);
    if previous.None? || models[previous.value].validation.score.Less(v.score)
    then Demoted(models) + [Model(Champion, v)]
    else models + [Model(Active, v)]
  }

  function TrainStep(models: Models, candidates: seq<Aggregate>, minAccuracy: real): Models {
    match Trained(candidates, minAccuracy)
    case None => models
    case Some(v) => Admit(models, v)
  }

  // ----- Rollback -----

  /** The gate that rollback applies to a stored validation. */
  predicate Gate(v: Validation) {
    && v.score.Finite? && v.accuracy.Finite? && v.expectancy.Finite? && v.totalReturn.Finite?
    && v.accuracy.r >= GATE && (v.expectancy.r > 0.0 || v.totalReturn.r > 0.0)
  }

  predicate Eligible(m: Model) {
    m.status.Active? && Gate(m.validation)
  }

  /** The eligible models among the first n, newest first. */
  function Safe(models: Models, n: nat): (safe: seq<nat>)
    requires n <= |models|
    ensures forall k :: 0 <= k < |safe| ==> safe[k] < n && Eligible(models[safe[k]])
  {
    if n == 0 then []
    else if Eligible(models[n - 1]) then [n - 1] + Safe(models, n - 1)
    else Safe(models, n - 1)
  }

  function ScoresAt(models: Models, at: seq<nat>): (scores: seq<Float>)
    requires forall k :: 0 <= k < |at| ==> at[k] < |models|
    ensures |scores| == |at|
  {
    seq(|at|, k requires 0 <= k < |at| => models[at[k]].validation.score)
  }

  function Replacement(models: Models): (k: Option<nat>)
    ensures k.Some? ==> k.value < |models| && Eligible(models[k.value])
  {
    var safe := Safe(models, |models|);
    if safe == [] then None else Some(safe[ArgMax(ScoresAt(models, safe))])
  }

  function SetStatus(models: Models, k: nat, status: Status): (r: Models)
    requires k < |models|
    ensures |r| == |models|
  {
    models[k := models[k].(status := status)]
  }

  function RollbackStep(models: Models): Models {
    match Replacement(models)
    case None => models
    case Some(k) =>
      var current := NewestChampion(models);
      SetStatus(if current.Some? then SetStatus(models, current.value, Active) else models, k, Champion)
  }

  /** The registry's rows and the two operations that change them. */
  class Registry {
    var models: Models

    method Train(candidates: seq<Aggregate>, minAccuracy: real) returns (promoted: Option<bool>)
      modifies this
      ensures models == TrainStep(old(models), candidates, minAccuracy)
      ensures promoted.None? <==> Trained(candidates, minAccuracy).None?
      ensures promoted == Some(true) ==> models[|models| - 1].status.Champion?
      ensures promoted == Some(false) ==> models[..|models| - 1] == old(models)
    {
      var results: seq<Aggregate> := [];
      for i := 0 to |candidates|
        invariant results == Passing(candidates[..i], minAccuracy)
      {
        assert candidates[..i + 1][..i] == candidates[..i];
        if candidates[i].accuracy.Less(Finite(minAccuracy)) {
          continue;
        }
        results := results + [candidates[i]];
      }
      assert candidates[..|candidates|] == candidates;
      if results == [] {
        return None;
      }
      var best := results[ArgMax(Scores(results))];
      if NotPositive(best.expectancy) && NotPositive(best.totalReturn) {
        return None;
      }
      var score := Score(best);
      models := models + [Model(Experimental, Validation(score, best.accuracy, best.expectancy, best.totalReturn))];
      var others := models[..|models| - 1];
      assert others == old(models);
      var previous := NewestChampion(others);
      if previous.None? || others[previous.value].validation.score.Less(score) {
        models := Demoted(others) + [models[|models| - 1].(status := Champion)];
        promoted := Some(true);
      } else {
        models := SetStatus(models, |models| - 1, Active);
        promoted := Some(false);
      }
    }

    method Rollback() returns (restored: Option<nat>)
      modifies this
      ensures models == RollbackStep(old(models))
      ensures restored == Replacement(old(models))
    {
      var rows := models;
      var current := NewestChampion(rows);
      restored := FindReplacement(rows);
      if restored.None? {
        return;
      }
      if current.Some? {
        models := SetStatus(models, current.value, Active);
      }
      models := SetStatus(models, restored.value, Champion);
    }

    /** The loop over the candidates, newest first. */
    static method FindReplacement(rows: Models) returns (replacement: Option<nat>)
      ensures replacement == Replacement(rows)
    {
      var safe: seq<nat> := [];
      var n: nat := |rows|;
      while n > 0
        invariant n <= |rows| && forall k :: 0 <= k < |safe| ==> safe[k] < |rows|
        invariant Safe(rows, |rows|) == safe + Safe(rows, n)
      {
        n := n - 1;
        if Eligible(rows[n]) {
          safe := safe + [n];
        }
      }
      if safe == [] {
        return None;
      }
      assert safe == Safe(rows, |rows|);
      return Some(safe[ArgMax(ScoresAt(rows, safe))]);
    }
  }

  // ----- Exactly one champion -----

  ghost predicate OneChampion(models: Models) {
    models != [] ==>
      exists k :: 0 <= k < |models| && models[k].status.Champion?
                  && forall j :: 0 <= j < |models| && models[j].status.Champion? ==> j == k
  }

  ghost predicate IsChampion(models: Models, k: int) {
    0 <= k < |models| && forall j :: 0 <= j < |models| ==> (models[j].status.Champion? <==> j == k)
  }

  lemma {:induction false} NoChampionFound(models: Models)
    ensures NewestChampion(models).None? <==> forall j :: 0 <= j < |models| ==> !models[j].status.Champion?
  {
    if models != [] {
      var init := models[..|models| - 1];
      NoChampionFound(init);
      assert forall j :: 0 <= j < |init| ==> models[j] == init[j];
    }
  }

  lemma {:induction false} TheChampion(models: Models)
    requires models != [] && OneChampion(models)
    ensures NewestChampion(models).Some? && IsChampion(models, NewestChampion(models).value)
  {
    NoChampionFound(models);
  }

  lemma {:induction false} ChampionIsOne(models: Models, k: int)
    requires IsChampion(models, k)
    ensures OneChampion(models) && NewestChampion(models) == Some(k)
  {
    NoChampionFound(models);
    assert 0 <= k < |models| && models[k].status.Champion?;
  }

  lemma AdmitKeepsOne(models: Models, v: Validation)
    requires OneChampion(models)
    ensures OneChampion(Admit(models, v))
  {
    if models != [] { TheChampion(models); }
    var previous := NewestChampion(models);
    if previous.None? || models[previous.value].validation.score.Less(v.score) {
      ChampionIsOne(Admit(models, v), |models|);
    } else {
      ChampionIsOne(Admit(models, v), previous.value);
    }
  }

  /** Rollback hands the title over, and changes nothing else. */
  lemma RollbackHandsOver(models: Models, c: nat, r: nat)
    requires IsChampion(models, c) && Replacement(models) == Some(r)
    ensures c != r && IsChampion(RollbackStep(models), r)
    ensures RollbackStep(models) == models[c := models[c].(status := Active)][r := models[r].(status := Champion)]
  {
    ChampionIsOne(models, c);
  }

  lemma RollbackKeepsOne(models: Models)
    requires OneChampion(models)
    ensures OneChampion(RollbackStep(models))
  {
    if Replacement(models).Some? {
      TheChampion(models);
      RollbackHandsOver(models, NewestChampion(models).value, Replacement(models).value);
      ChampionIsOne(RollbackStep(models), Replacement(models).value);
    }
  }

  // ----- Runs -----

  datatype Step = Train(candidates: seq<Aggregate>, minAccuracy: real) | Rollback

  function Apply(models: Models, step: Step): Models {
    match step
    case Train(candidates, minAccuracy) => TrainStep(models, candidates, minAccuracy)
    case Rollback => RollbackStep(models)
  }

  function After(models: Models, steps: seq<Step>): Models
    decreases |steps|
  {
    if steps == [] then models else After(Apply(models, steps[0]), steps[1..])
  }

  /** However often it is trained and rolled back, a registry that holds a model has exactly one champion. */
  lemma {:induction false} AlwaysOneChampion(models: Models, steps: seq<Step>)
    requires OneChampion(models)
    ensures OneChampion(After(models, steps))
    decreases |steps|
  {
    if steps != [] {
      match steps[0] {
        case Train(candidates, minAccuracy) =>
          var t := Trained(candidates, minAccuracy);
          if t.Some? { AdmitKeepsOne(models, t.value); }
        case Rollback => RollbackKeepsOne(models);
      }
      AlwaysOneChampion(Apply(models, steps[0]), steps[1..]);
    }
  }

  // ----- Until the first rollback the champion has the highest score -----

  /** No model outscores a champion. */
  ghost predicate ChampionOnTop(models: Models) {
    forall c, j :: 0 <= c < |models| && 0 <= j < |models| && models[c].status.Champion? ==>
      !models[c].validation.score.Less(models[j].validation.score)
  }

  lemma AdmitKeepsTop(models: Models, v: Validation)
    requires OneChampion(models) && ChampionOnTop(models)
    ensures ChampionOnTop(Admit(models, v))
  {
    if models != [] { TheChampion(models); }
    var previous, next := NewestChampion(models), Admit(models, v);
    forall c, j | 0 <= c < |next| && 0 <= j < |next| && next[c].status.Champion?
      ensures !next[c].validation.score.Less(next[j].validation.score)
    {
      if j < |models| { assert next[j].validation == models[j].validation; }
    }
  }

  lemma {:induction false} ChampionStaysOnTop(models: Models, steps: seq<Step>)
    requires OneChampion(models) && ChampionOnTop(models)
    requires forall i :: 0 <= i < |steps| ==> steps[i].Train?
    ensures OneChampion(After(models, steps)) && ChampionOnTop(After(models, steps))
    decreases |steps|
  {
    if steps != [] {
      var t := Trained(steps[0].candidates, steps[0].minAccuracy);
      if t.Some? {
        AdmitKeepsOne(models, t.value);
        AdmitKeepsTop(models, t.value);
      }
      ChampionStaysOnTop(Apply(models, steps[0]), steps[1..]);
    }
  }

  /** With finite scores: the champion's is at least every other. */
  lemma {:induction false} TrainingsLeaveTheBest(steps: seq<Step>, c: nat, j: nat)
    requires forall i :: 0 <= i < |steps| ==> steps[i].Train?
    requires var models := After([], steps);
      c < |models| && j < |models| && models[c].status.Champion?
      && models[c].validation.score.Finite? && models[j].validation.score.Finite?
    ensures After([], steps)[j].validation.score.r <= After([], steps)[c].validation.score.r
  {
    ChampionStaysOnTop([], steps);
  }

  // ----- The two gates agree -----

  lemma {:induction false} PassingPass(candidates: seq<Aggregate>, minAccuracy: real)
    ensures forall a :: a in Passing(candidates, minAccuracy)
                        <==> a in candidates && !a.accuracy.Less(Finite(minAccuracy))
  {
    if candidates != [] {
      var init, last := candidates[..|candidates| - 1], candidates[|candidates| - 1];
      PassingPass(init, minAccuracy);
      assert candidates == init + [last];
    }
  }

  ghost predicate AllFinite(v: Validation) {
    v.score.Finite? && v.accuracy.Finite? && v.expectancy.Finite? && v.totalReturn.Finite?
  }

  /** What training stores under an accuracy gate of at least 0.52 passes the rollback gate iff it is finite. */
  lemma TrainedPassesGate(candidates: seq<Aggregate>, minAccuracy: real)
    requires minAccuracy >= 0.52 && Trained(candidates, minAccuracy).Some?
    ensures var v := Trained(candidates, minAccuracy).value; Gate(v) <==> AllFinite(v)
  {
    var results := Passing(candidates, minAccuracy);
    var best := results[ArgMax(Scores(results))];
    PassingPass(candidates, minAccuracy);
    assert best in results;
  }

  /** A finite average of the metrics gives a finite score. */
  lemma ScoreIsFinite(a: Aggregate)
    requires a.accuracy.Finite? && a.f1.Finite? && a.sharpe.Finite? && a.expectancy.Finite?
    ensures Score(a).Finite? <==> !a.profitFactor.NaN? && !a.profitFactor.NegInf?
  {
  }

  ghost predicate GoodTraining(step: Step) {
    step.Train? ==>
      && step.minAccuracy >= 0.52
      && (Trained(step.candidates, step.minAccuracy).Some? ==>
            AllFinite(Trained(step.candidates, step.minAccuracy).value))
  }

  ghost predicate AllGated(models: Models) {
    forall k :: 0 <= k < |models| ==> Gate(models[k].validation)
  }

  lemma AdmitKeepsGated(models: Models, v: Validation)
    requires AllGated(models) && Gate(v)
    ensures AllGated(Admit(models, v))
  {
    forall k | 0 <= k < |Admit(models, v)| ensures Gate(Admit(models, v)[k].validation) {
      if k < |models| { assert Admit(models, v)[k].validation == models[k].validation; }
    }
  }

  /** In every run of such trainings and of rollbacks, every model passes the rollback gate. */
  lemma {:induction false} EveryModelIsGated(models: Models, steps: seq<Step>)
    requires AllGated(models) && forall i :: 0 <= i < |steps| ==> GoodTraining(steps[i])
    ensures AllGated(After(models, steps))
    decreases |steps|
  {
    if steps != [] {
      var step := steps[0];
      assert GoodTraining(step);
      match step {
        case Train(candidates, minAccuracy) =>
          if Trained(candidates, minAccuracy).Some? {
            TrainedPassesGate(candidates, minAccuracy);
            AdmitKeepsGated(models, Trained(candidates, minAccuracy).value);
          }
        case Rollback =>
      }
      EveryModelIsGated(Apply(models, step), steps[1..]);
    }
  }

  // ----- Rollback picks the strongest safe model, and a second rollback may bring the first champion back -----

  /** The stronger of two models; of equals, the newer. */
  ghost predicate Beats(models: Models, k: int, j: int)
    requires 0 <= k < |models| && 0 <= j < |models|
    requires Gate(models[k].validation) && Gate(models[j].validation)
  {
    models[j].validation.score.r < models[k].validation.score.r
    || (models[j].validation.score == models[k].validation.score && j <= k)
  }

  lemma {:induction false} SafeIsAll(models: Models, n: nat)
    requires n <= |models|
    ensures forall j :: 0 <= j < n && Eligible(models[j]) ==> j in Safe(models, n)
    ensures forall a, b :: 0 <= a < b < |Safe(models, n)| ==> Safe(models, n)[b] < Safe(models, n)[a]
  {
    if n > 0 { SafeIsAll(models, n - 1); }
  }

  /** The replacement is the eligible model that beats every eligible model. */
  lemma ReplacementBeatsAll(models: Models)
    ensures Replacement(models).None? <==> forall j :: 0 <= j < |models| ==> !Eligible(models[j])
    ensures forall k :: Replacement(models) == Some(k) ==>
              forall j :: 0 <= j < |models| && Eligible(models[j]) ==> Beats(models, k, j)
  {
    var safe := Safe(models, |models|);
    SafeIsAll(models, |models|);
    if safe != [] {
      assert Eligible(models[safe[0]]);
      var scores := ScoresAt(models, safe);
      ArgMaxIsFirst(scores);
      var a := ArgMax(scores);
      forall j | 0 <= j < |models| && Eligible(models[j]) ensures Beats(models, safe[a], j) {
        var b :| 0 <= b < |safe| && safe[b] == j;
        assert !scores[a].Less(scores[b]) && (b < a ==> scores[b].Less(scores[a]));
      }
    }
  }

  lemma BeatsAllIsReplacement(models: Models, k: nat)
    requires k < |models| && Eligible(models[k])
    requires forall j :: 0 <= j < |models| && Eligible(models[j]) ==> Beats(models, k, j)
    ensures Replacement(models) == Some(k)
  {
    ReplacementBeatsAll(models);
    var r := Replacement(models).value;
    assert Eligible(models[r]) && Beats(models, k, r) && Beats(models, r, k);
  }

  /** The champion would beat every eligible model other than its replacement. */
  ghost predicate BeatsTheOthers(models: Models, c: nat, r: nat)
    requires c < |models|
  {
    && Gate(models[c].validation)
    && forall j :: 0 <= j < |models| && j != r && Eligible(models[j]) ==> Beats(models, c, j)
  }

  /** After one rollback the eligible models are the same but for the exchange. */
  lemma EligibleAfterRollback(models: Models, c: nat, r: nat, j: nat)
    requires IsChampion(models, c) && Replacement(models) == Some(r) && j < |models|
    ensures |RollbackStep(models)| == |models|
    ensures RollbackStep(models)[j].validation == models[j].validation
    ensures Eligible(RollbackStep(models)[j])
            <==> if j == c then Gate(models[c].validation) else j != r && Eligible(models[j])
  {
    RollbackHandsOver(models, c, r);
  }

  lemma OthersBeaten(models: Models, c: nat, r: nat)
    requires IsChampion(models, c) && Replacement(models) == Some(r) && BeatsTheOthers(models, c, r)
    ensures Replacement(RollbackStep(models)) == Some(c)
  {
    var once := RollbackStep(models);
    EligibleAfterRollback(models, c, r, c);
    forall j | 0 <= j < |once| && Eligible(once[j]) ensures Beats(once, c, j) {
      EligibleAfterRollback(models, c, r, j);
      if j != c { assert Beats(models, c, j); }
    }
    BeatsAllIsReplacement(once, c);
  }

  lemma ReturnedBeats(models: Models, c: nat, r: nat)
    requires IsChampion(models, c) && Replacement(models) == Some(r) && Replacement(RollbackStep(models)) == Some(c)
    ensures BeatsTheOthers(models, c, r)
  {
    var once := RollbackStep(models);
    EligibleAfterRollback(models, c, r, c);
    ReplacementBeatsAll(once);
    forall j | 0 <= j < |models| && j != r && Eligible(models[j]) ensures Beats(models, c, j) {
      EligibleAfterRollback(models, c, r, j);
      if j != c { assert Beats(once, c, j); }
    }
  }

  /** A second rollback that restores the registry must have chosen the first champion, and conversely. */
  lemma RestoredIffChosen(models: Models, c: nat, r: nat)
    requires IsChampion(models, c) && Replacement(models) == Some(r)
    ensures RollbackStep(RollbackStep(models)) == models <==> Replacement(RollbackStep(models)) == Some(c)
  {
    var once := RollbackStep(models);
    RollbackHandsOver(models, c, r);
    var again := Replacement(once);
    if again.Some? {
      RollbackHandsOver(once, r, again.value);
      assert models[r].status == Active;
    }
  }

  /**
    Two rollbacks in a row restore the registry exactly when the first champion passes the gate and beats every
    eligible model other than its replacement.
   */
  lemma SecondRollbackRestoresIff(models: Models, c: nat, r: nat)
    requires IsChampion(models, c) && Replacement(models) == Some(r)
    ensures RollbackStep(RollbackStep(models)) == models <==> BeatsTheOthers(models, c, r)
  {
    RestoredIffChosen(models, c, r);
    if BeatsTheOthers(models, c, r) {
      OthersBeaten(models, c, r);
    } else if Replacement(RollbackStep(models)) == Some(c) {
      ReturnedBeats(models, c, r);
    }
  }

  lemma TopBeatsTheOthers(models: Models, c: nat, r: nat)
    requires IsChampion(models, c) && ChampionOnTop(models) && AllGated(models)
    requires forall j :: c < j < |models| && j != r ==> models[j].validation.score != models[c].validation.score
    ensures BeatsTheOthers(models, c, r)
  {
    forall j | 0 <= j < |models| && j != r && Eligible(models[j]) ensures Beats(models, c, j) {
      assert !models[c].validation.score.Less(models[j].validation.score);
    }
  }

  /**
    After gated trainings only, a champion that no newer model ties comes back on the second rollback: the two
    rollbacks cancel.
   */
  lemma {:induction false} SecondRollbackAfterTrainings(steps: seq<Step>, c: nat, r: nat)
    requires forall i :: 0 <= i < |steps| ==> steps[i].Train? && GoodTraining(steps[i])
    requires IsChampion(After([], steps), c) && Replacement(After([], steps)) == Some(r)
    requires forall j :: c < j < |After([], steps)| && j != r ==>
               After([], steps)[j].validation.score != After([], steps)[c].validation.score
    ensures RollbackStep(RollbackStep(After([], steps))) == After([], steps)
  {
    ChampionStaysOnTop([], steps);
    EveryModelIsGated([], steps);
    TopBeatsTheOthers(After([], steps), c, r);
    SecondRollbackRestoresIff(After([], steps), c, r);
  }
}
