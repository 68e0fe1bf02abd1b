/** Which candidate a training run stores: the numbers of its score, and the choice among the candidates that pass. */
module ModelSelection {
  import opened Floats
  import opened Options
  import opened ModelRegistry

  /** All metrics are numbers, but for a profit factor without losses. */
  ghost predicate Measured(a: Aggregate) {
    && a.accuracy.Finite? && a.f1.Finite? && a.sharpe.Finite? && a.expectancy.Finite? && a.totalReturn.Finite?
    && (a.profitFactor.Finite? || a.profitFactor.PosInf?)
  }

  /** Accuracy, f1, Sharpe ratio, a thousand times the expectancy, and a fifth of the profit factor up to five. */
  function ScoreNumber(a: Aggregate): real
    requires Measured(a)
  {
    var factor := if a.profitFactor.Finite? && a.profitFactor.r <= 5.0 then a.profitFactor.r else 5.0;
    (30.0 * a.accuracy.r + 15.0 * a.f1.r + 20.0 * a.sharpe.r + 20.0 * (1000.0 * a.expectancy.r)
     + 15.0 * (factor / 5.0)) / 100.0
  }

  lemma ScoreMeans(a: Aggregate)
    requires Measured(a)
    ensures Score(a) == Finite(ScoreNumber(a))
  {
  }

  /** Candidate k is not below the accuracy gate. */
  predicate Passes(candidates: seq<Aggregate>, gate: real, k: int) {
    0 <= k < |candidates| && candidates[k].accuracy.Finite? && candidates[k].accuracy.r >= gate
  }

  /** Candidate k passes, none that passes scores more, and none before it scores as much. */
  ghost predicate IsBest(candidates: seq<Aggregate>, gate: real, k: nat)
    requires forall j :: 0 <= j < |candidates| ==> Measured(candidates[j])
  {
    && Passes(candidates, gate, k)
    && forall j :: Passes(candidates, gate, j) ==>
         if j < k then ScoreNumber(candidates[j]) < ScoreNumber(candidates[k])
         else ScoreNumber(candidates[j]) <= ScoreNumber(candidates[k])
  }

  /** The passing candidates are those at the positions `at`, in order. */
  ghost predicate PassAt(candidates: seq<Aggregate>, gate: real, at: seq<nat>, results: seq<Aggregate>) {
    && |at| == |results| && (forall a, b :: 0 <= a < b < |at| ==> at[a] < at[b])
    && (forall k :: 0 <= k < |at| ==> Passes(candidates, gate, at[k]) && candidates[at[k]] == results[k])
    && forall j: nat {:trigger j in at} :: j in at <==> Passes(candidates, gate, j)
  }

  lemma {:induction false} FindPassing(candidates: seq<Aggregate>, gate: real) returns (at: seq<nat>)
    requires forall j :: 0 <= j < |candidates| ==> Measured(candidates[j])
    ensures PassAt(candidates, gate, at, Passing(candidates, gate))
  {
    if candidates == [] {
      at := [];
    } else {
      var n := |candidates| - 1;
      var init, last := candidates[..n], candidates[n];
      at := FindPassing(init, gate);
      forall j | 0 <= j < n ensures Passes(candidates, gate, j) <==> Passes(init, gate, j) { }
      if !last.accuracy.Less(Finite(gate)) {
        PassAtNext(candidates, gate, at, Passing(init, gate));
        at := at + [n];
      }
    }
  }

  lemma PassAtNext(candidates: seq<Aggregate>, gate: real, at: seq<nat>, results: seq<Aggregate>)
    requires candidates != [] && Passes(candidates, gate, |candidates| - 1)
    requires PassAt(candidates[..|candidates| - 1], gate, at, results)
    ensures PassAt(candidates, gate, at + [|candidates| - 1], results + [candidates[|candidates| - 1]])
  {
    var n := |candidates| - 1;
    var more := at + [n];
    forall j: nat ensures j in more <==> Passes(candidates, gate, j) {
      assert j in more <==> j in at || j == n;
      if j < n { assert Passes(candidates, gate, j) <==> Passes(candidates[..n], gate, j); }
    }
    forall k | 0 <= k < |at| ensures Passes(candidates, gate, at[k]) && candidates[at[k]] == results[k] {
      assert Passes(candidates[..n], gate, at[k]);
    }
  }

  /** What is stored of a candidate: its score and metrics, if it is profitable by one measure at least. */
  function Stored(a: Aggregate): Option<Validation>
    requires Measured(a)
  {
    if a.expectancy.r > 0.0 || a.totalReturn.r > 0.0
    then Some(Validation(Finite(ScoreNumber(a)), a.accuracy, a.expectancy, a.totalReturn))
    else None
  }

  lemma {:induction false} BestOfPassing(candidates: seq<Aggregate>, gate: real, at: seq<nat>, m: nat)
    requires forall j :: 0 <= j < |candidates| ==> Measured(candidates[j])
    requires PassAt(candidates, gate, at, Passing(candidates, gate)) && m < |at|
    requires forall j :: 0 <= j < |at| ==>
               !Score(candidates[at[m]]).Less(Score(candidates[at[j]]))
               && (j < m ==> Score(candidates[at[j]]).Less(Score(candidates[at[m]])))
    ensures IsBest(candidates, gate, at[m])
  {
    ScoreMeans(candidates[at[m]]);
    forall j | Passes(candidates, gate, j)
      ensures if j < at[m] then ScoreNumber(candidates[j]) < ScoreNumber(candidates[at[m]])
              else ScoreNumber(candidates[j]) <= ScoreNumber(candidates[at[m]])
    {
      assert j in at;
      var i :| 0 <= i < |at| && at[i] == j;
      ScoreMeans(candidates[j]);
    }
  }

  /**
    A training run stores the best of the candidates that pass, if it is profitable; nothing when none passes or the
    best is not.
   */
  lemma {:induction false} TrainingChooses(candidates: seq<Aggregate>, gate: real) returns (best: Option<nat>)
    requires forall j :: 0 <= j < |candidates| ==> Measured(candidates[j])
    ensures best.None? <==> forall j :: !Passes(candidates, gate, j)
    ensures best.Some? ==> best.value < |candidates| && IsBest(candidates, gate, best.value)
    ensures Trained(candidates, gate) == if best.None? then None else Stored(candidates[best.value])
  {
    var results := Passing(candidates, gate);
    var at := FindPassing(candidates, gate);
    if results == [] {
      best := None;
      assert forall j: nat :: j in at <==> Passes(candidates, gate, j);
    } else {
      forall k | 0 <= k < |results| ensures Scores(results)[k] == Finite(ScoreNumber(candidates[at[k]])) {
        ScoreMeans(candidates[at[k]]);
      }
      ArgMaxIsFirst(Scores(results));
      var m := ArgMax(Scores(results));
      BestOfPassing(candidates, gate, at, m);
      ScoreMeans(candidates[at[m]]);
      best := Some(at[m]);
    }
  }

  // ----- Promotion and rollback -----

  /** The new model takes the title exactly when it scores more than the champion. */
  lemma Promotes(models: Models, c: nat, v: Validation)
    requires IsChampion(models, c) && models[c].validation.score.Finite? && v.score.Finite?
    ensures Admit(models, v) ==
            if models[c].validation.score.r < v.score.r
            then models[c := models[c].(status := Active)] + [Model(Champion, v)]
            else models + [Model(Active, v)]
  {
    ChampionIsOne(models, c);
    assert Demoted(models) == models[c := models[c].(status := Active)];
  }

  /** An active model whose stored numbers are finite, accurate and profitable. */
  ghost predicate Restorable(models: Models, k: int, score: real) {
    && 0 <= k < |models| && models[k].status == Active
    && match models[k].validation
       case Validation(Finite(x), Finite(accuracy), Finite(expectancy), Finite(total)) =>
         x == score && accuracy >= 0.52 && (expectancy > 0.0 || total > 0.0)
       case _ => false
  }

  lemma RestorableIff(models: Models, k: nat)
    requires k < |models|
    ensures Eligible(models[k]) <==> exists score :: Restorable(models, k, score)
  {
    if Eligible(models[k]) { assert Restorable(models, k, models[k].validation.score.r); }
  }

  /** A rollback hands the title to the restorable model of the highest score, the newest of those; else nothing. */
  lemma {:induction false} RollbackChooses(models: Models, c: nat) returns (r: Option<nat>, best: real)
    requires IsChampion(models, c)
    ensures r.None? ==> RollbackStep(models) == models && forall k, score :: !Restorable(models, k, score)
    ensures r.Some? ==>
              && Restorable(models, r.value, best)
              && (forall k, score :: Restorable(models, k, score) ==>
                    if k <= r.value then score <= best else score < best)
              && RollbackStep(models)
                 == models[c := models[c].(status := Active)][r.value := models[r.value].(status := Champion)]
  {
    r, best := Replacement(models), 0.0;
    ReplacementBeatsAll(models);
    if r.Some? {
      best := models[r.value].validation.score.r;
      RollbackHandsOver(models, c, r.value);
    }
    forall k, score | Restorable(models, k, score) ensures Eligible(models[k]) { RestorableIff(models, k); }
  }
}
