/**
  Recovery does not starve a job: sweeps take the oldest pending jobs first, and whatever is queued or
  republished moves to the back, so the jobs ahead of a waiting one only ever get fewer.
 */
module BacktestFairness {
  import opened BacktestProtocol
  import opened BacktestSafety

  /** Job `j` is pending and has not been rescheduled since `since`. */
  predicate Waiting(s: System, j: nat, since: int) {
    && j in s.jobs && s.jobs[j].status == Pending && s.jobs[j].scheduledAt == since
    && j in s.rows && s.rows[j].status == Pending
  }

  /** The other pending jobs that were scheduled no later. */
  function Ahead(s: System, j: nat, since: int): set<nat> {
    set i | i in s.jobs && i != j && s.jobs[i].status == Pending && s.jobs[i].scheduledAt <= since
            && i in s.rows && s.rows[i].status == Pending
  }

  /** The step published a message for `j`, promised to, or took `j` out of pending. */
  predicate Served(s: System, t: System, j: nat) {
    || j !in t.rows || t.rows[j].status != Pending
    || t.bag[j] > s.bag[j] || t.owed[j] > s.owed[j]
  }

  function Sweeps(actions: seq<Action>): nat {
    if actions == [] then 0 else (if actions[0].Sweep? then 1 else 0) + Sweeps(actions[1..])
  }

  // ----- What the two passes of a sweep do -----

  lemma {:induction false} TimeoutsKeepPending(s: System, ids: seq<nat>)
    requires Inv(s)
    requires forall i :: i in ids && i in s.jobs ==> s.jobs[i].status != Pending
    ensures var t := TimeoutAll(s, ids);
      && t.now == s.now && t.bag == s.bag && t.owed == s.owed
      && t.jobs.Keys == s.jobs.Keys && t.rows.Keys == s.rows.Keys
      && (forall i :: i in s.jobs ==> (t.jobs[i].status == Pending <==> s.jobs[i].status == Pending))
      && (forall i :: i in s.jobs && s.jobs[i].status == Pending ==> t.jobs[i] == s.jobs[i])
      && (forall i :: i in s.rows && s.rows[i].status == Pending ==> t.rows[i] == s.rows[i])
    decreases |ids|
  {
    if ids != [] {
      var u := TimeoutOne(s, ids[0]);
      assert RowOk(s, ids[0]);
      TimeoutKeeps(s, ids[0]);
      TimeoutsKeepPending(u, ids[1..]);
    }
  }

  lemma {:induction false} Rescheduled(s: System, ids: seq<nat>)
    requires forall i :: i in ids ==> i in s.jobs
    ensures var t := RescheduleAll(s, ids);
      && t.now == s.now && t.rows == s.rows && t.bag == s.bag && t.jobs.Keys == s.jobs.Keys
      && t.owed == s.owed + multiset(ids)
      && (forall i :: i in s.jobs ==> t.jobs[i] == if i in ids then s.jobs[i].(scheduledAt := s.now) else s.jobs[i])
    decreases |ids|
  {
    if ids != [] {
      assert ids == [ids[0]] + ids[1..];
      Rescheduled(RescheduleOne(s, ids[0]), ids[1..]);
    }
  }

  function Elements(ids: seq<nat>): set<nat> {
    set i | i in ids
  }

  lemma {:induction false} DistinctSize(ids: seq<nat>)
    requires Distinct(ids)
    ensures |Elements(ids)| == |ids|
  {
    if ids != [] {
      var rest := ids[1..];
      DistinctSize(rest);
      assert ids[0] !in rest by {
        forall k | 0 <= k < |rest| ensures rest[k] != ids[0] { assert rest[k] == ids[k + 1]; }
      }
      assert Elements(ids) == {ids[0]} + Elements(rest);
    }
  }

  // ----- One step -----

  lemma WaitsOrIsServed(s: System, a: Action, j: nat, since: int)
    requires Inv(s) && Enabled(s, a) && Waiting(s, j, since)
    ensures Served(s, Step(s, a), j) || Waiting(Step(s, a), j, since)
  {
    assert RowOk(s, j) && RowOk(s, s.nextId);
    if a.Sweep? {
      TimeoutsKeepPending(s, a.stale);
      Rescheduled(TimeoutAll(s, a.stale), a.waiting);
    } else {
      StepRow(s, a, j);
    }
  }

  lemma OtherStepsAddNobodyAhead(s: System, a: Action, j: nat, since: int)
    requires Inv(s) && !a.Sweep? && since < s.now
    ensures Ahead(Step(s, a), j, since) <= Ahead(s, j, since)
  {
    var t := Step(s, a);
    forall i | i in Ahead(t, j, since) ensures i in Ahead(s, j, since) {
      assert RowOk(s, i) && RowOk(s, s.nextId);
      StepRow(s, a, i);
    }
  }

  /** When the limit keeps `j` out of the answer, the answer is `limit` jobs from ahead of it. */
  lemma ChosenJobsAreAhead(u: System, cutoff: int, limit: int, waiting: seq<nat>, j: nat, since: int)
    requires Inv(u) && IsPendingAnswer(u, cutoff, limit, waiting)
    requires Waiting(u, j, since) && since <= cutoff && j !in waiting
    ensures |waiting| == limit
    ensures forall i :: i in waiting ==> i in Ahead(u, j, since)
  {
    assert StalePending(u, cutoff, j);
    forall i | i in waiting ensures i in Ahead(u, j, since) {
      assert StalePending(u, cutoff, i) && Before(u.jobs[i], u.jobs[j]) && RowOk(u, i) && RowOk(u, j);
    }
  }

  lemma {:induction false} ReschedulingLeaves(u: System, waiting: seq<nat>, j: nat, since: int)
    requires since < u.now && forall i :: i in waiting ==> i in Ahead(u, j, since)
    ensures Ahead(RescheduleAll(u, waiting), j, since) == Ahead(u, j, since) - Elements(waiting)
  {
    Rescheduled(u, waiting);
  }

  lemma {:induction false} PendingPassDrains(u: System, cutoff: int, limit: int, waiting: seq<nat>, j: nat, since: int)
    requires Inv(u) && IsPendingAnswer(u, cutoff, limit, waiting)
    requires Waiting(u, j, since) && since <= cutoff && since < u.now && j !in waiting
    ensures |Ahead(RescheduleAll(u, waiting), j, since)| + limit == |Ahead(u, j, since)|
  {
    ChosenJobsAreAhead(u, cutoff, limit, waiting, j, since);
    ReschedulingLeaves(u, waiting, j, since);
    DistinctSize(waiting);
    var moved, ahead := Elements(waiting), Ahead(u, j, since);
    assert moved <= ahead;
    assert |ahead - moved| + |moved| == |ahead| by { assert ahead == (ahead - moved) + moved; }
  }

  lemma {:induction false} TimeoutsKeepAhead(s: System, ids: seq<nat>, j: nat, since: int)
    requires Inv(s) && forall i :: i in ids && i in s.jobs ==> s.jobs[i].status != Pending
    ensures Ahead(TimeoutAll(s, ids), j, since) == Ahead(s, j, since)
  {
    var u := TimeoutAll(s, ids);
    TimeoutsKeepPending(s, ids);
    TimeoutAllKeeps(s, ids);
    forall i ensures i in Ahead(u, j, since) <==> i in Ahead(s, j, since) {
      assert RowOk(s, i) && RowOk(u, i);
    }
  }

  /** A sweep that passes over `j` moves `limit` jobs from ahead of it to behind it. */
  lemma SweepDrains(s: System, a: Action, j: nat, since: int)
    requires Inv(s) && Enabled(s, a) && a.Sweep? && Waiting(s, j, since)
    requires since <= PendingCutoff(s.now, a.pendingAfter)
    requires !Served(s, Step(s, a), j)
    ensures |Ahead(Step(s, a), j, since)| + ClampLimit(a.limit) <= |Ahead(s, j, since)|
  {
    var u := TimeoutAll(s, a.stale);
    TimeoutsKeepPending(s, a.stale);
    TimeoutAllKeeps(s, a.stale);
    TimeoutsKeepAhead(s, a.stale, j, since);
    forall i | i in a.waiting ensures i in u.jobs { assert StalePending(u, PendingCutoff(s.now, a.pendingAfter), i); }
    Rescheduled(u, a.waiting);
    PendingPassDrains(u, PendingCutoff(s.now, a.pendingAfter), ClampLimit(a.limit), a.waiting, j, since);
  }

  lemma {:induction false} SubsetSize(a: set<nat>, b: set<nat>)
    requires a <= b
    ensures |a| <= |b|
  {
    if a != {} {
      var x :| x in a;
      SubsetSize(a - {x}, b - {x});
    }
  }

  // ----- Main result -----

  /** Until `j` is served, every sweep takes `limit` jobs out of its way. */
  lemma StepTowardsService(s: System, a: Action, j: nat, since: int, limit: nat)
    requires Inv(s) && Enabled(s, a) && Waiting(s, j, since) && since < s.now && !Served(s, Step(s, a), j)
    requires a.Sweep? ==> limit <= ClampLimit(a.limit) && since <= PendingCutoff(s.now, a.pendingAfter)
    ensures Inv(Step(s, a)) && Waiting(Step(s, a), j, since) && s.now <= Step(s, a).now
    ensures |Ahead(Step(s, a), j, since)| + (if a.Sweep? then limit else 0) <= |Ahead(s, j, since)|
  {
    WaitsOrIsServed(s, a, j, since);
    StepKeeps(s, a);
    TimePasses(s, a);
    if a.Sweep? {
      SweepDrains(s, a, j, since);
    } else {
      OtherStepsAddNobodyAhead(s, a, j, since);
      SubsetSize(Ahead(Step(s, a), j, since), Ahead(s, j, since));
    }
  }

  lemma {:induction false} SweepsLeft(actions: seq<Action>, limit: nat)
    requires actions != []
    ensures Sweeps(actions) * limit == (if actions[0].Sweep? then limit else 0) + Sweeps(actions[1..]) * limit
  {
    if actions[0].Sweep? { assert (1 + Sweeps(actions[1..])) * limit == limit + Sweeps(actions[1..]) * limit; }
  }

  lemma {:induction false} ServedLater(s: System, actions: seq<Action>, j: nat, n: nat)
    requires n + 1 < |actions|
    requires Served(After(Step(s, actions[0]), actions[1..][..n]), After(Step(s, actions[0]), actions[1..][..n + 1]), j)
    ensures Served(After(s, actions[..n + 1]), After(s, actions[..n + 2]), j)
  {
    AfterCons(s, actions, n);
    AfterCons(s, actions, n + 1);
  }

  /** The point of the run at which `j` is served. */
  lemma {:induction false} ServicePoint(s: System, actions: seq<Action>, j: nat, since: int, limit: nat)
    returns (n: nat)
    requires Inv(s) && IsRun(s, actions) && Waiting(s, j, since) && since < s.now
    requires forall a :: a in actions && a.Sweep? ==>
               limit <= ClampLimit(a.limit) && since <= PendingCutoff(s.now, a.pendingAfter)
    requires Sweeps(actions) * limit > |Ahead(s, j, since)|
    ensures n < |actions| && Served(After(s, actions[..n]), After(s, actions[..n + 1]), j)
    decreases |actions|
  {
    var a, rest := actions[0], actions[1..];
    assert a in actions;
    if Served(s, Step(s, a), j) {
      n := 0;
      assert actions[..0] == [] && actions[..1] == [a] && [a][1..] == [];
    } else {
      StepTowardsService(s, a, j, since, limit);
      SweepsLeft(actions, limit);
      n := ServicePoint(Step(s, a), rest, j, since, limit);
      ServedLater(s, actions, j, n);
      n := n + 1;
    }
  }

  /**
    A stale pending job with k pending jobs scheduled no later is served within k / limit + 1 sweeps,
    whatever else happens in between.
   */
  lemma {:induction false} NoStarvation(s: System, actions: seq<Action>, j: nat, since: int, limit: nat)
    requires Inv(s) && IsRun(s, actions) && Waiting(s, j, since) && 1 <= limit
    requires forall a :: a in actions && a.Sweep? ==>
               limit <= ClampLimit(a.limit) && since <= PendingCutoff(s.now, a.pendingAfter)
    requires Sweeps(actions) >= |Ahead(s, j, since)| / limit + 1
    ensures exists n :: 0 <= n < |actions| && Served(After(s, actions[..n]), After(s, actions[..n + 1]), j)
  {
    SomeSweep(actions);
    var a :| a in actions && a.Sweep?;
    EnoughSweeps(Sweeps(actions), |Ahead(s, j, since)|, limit);
    var n := ServicePoint(s, actions, j, since, limit);
  }

  lemma EnoughSweeps(sweeps: nat, k: nat, limit: nat)
    requires 1 <= limit && sweeps >= k / limit + 1
    ensures sweeps * limit > k
  {
    assert k == limit * (k / limit) + k % limit;
    assert sweeps * limit >= (k / limit + 1) * limit == limit * (k / limit) + limit;
  }

  lemma TimePasses(s: System, a: Action)
    requires Inv(s)
    ensures s.now <= Step(s, a).now
  {
    if a.Sweep? {
      TimeoutClock(s, a.stale);
      RescheduleClock(TimeoutAll(s, a.stale), a.waiting);
    }
  }

  lemma {:induction false} TimeoutClock(s: System, ids: seq<nat>)
    ensures TimeoutAll(s, ids).now == s.now
    decreases |ids|
  {
    if ids != [] { TimeoutClock(TimeoutOne(s, ids[0]), ids[1..]); }
  }

  lemma {:induction false} RescheduleClock(s: System, ids: seq<nat>)
    ensures RescheduleAll(s, ids).now == s.now
    decreases |ids|
  {
    if ids != [] { RescheduleClock(RescheduleOne(s, ids[0]), ids[1..]); }
  }

  lemma {:induction false} SomeSweep(actions: seq<Action>)
    requires Sweeps(actions) > 0
    ensures exists a :: a in actions && a.Sweep?
  {
    if actions[0].Sweep? {
      assert actions[0] in actions;
    } else {
      SomeSweep(actions[1..]);
      var a :| a in actions[1..] && a.Sweep?;
      assert a in actions;
    }
  }

  lemma {:induction false} AfterCons(s: System, actions: seq<Action>, n: nat)
    requires n < |actions|
    ensures After(s, actions[..n + 1]) == After(Step(s, actions[0]), actions[1..][..n])
  {
    assert actions[..n + 1][1..] == actions[1..][..n];
  }
}
