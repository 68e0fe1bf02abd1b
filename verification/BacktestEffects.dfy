/**
  What the queue gets done: the effect of every step on rows, jobs and messages in the states that runs reach, and
  the claims that do commit.  `BacktestSafety` bounds what may happen; this module says what must.
 */
module BacktestEffects {
  import opened Options
  import opened BacktestProtocol
  import opened BacktestSafety

  // ----- One backtest at a time -----

  /** No row and no job but those of `id` differ. */
  ghost predicate OnlyTouches(s: System, t: System, id: nat) {
    && (forall x :: x != id ==> (x in s.rows <==> x in t.rows) && (x in s.jobs <==> x in t.jobs))
    && (forall x :: x != id && x in s.rows ==> t.rows[x] == s.rows[x])
    && (forall x :: x != id && x in s.jobs ==> t.jobs[x] == s.jobs[x])
  }

  ghost predicate TouchesNothing(s: System, t: System) {
    t.rows == s.rows && t.jobs == s.jobs && t.log == s.log
  }

  /** The row stands at `status`, and its job has the same status and is unlocked. */
  ghost predicate StandsAt(s: System, id: nat, status: Status) {
    && id in s.rows && s.rows[id].status == status
    && id in s.jobs && s.jobs[id].status == status && s.jobs[id].lockedAt == None
  }

  ghost predicate RunsVersion(s: System, id: nat, version: nat) {
    id in s.rows && s.rows[id].status == Running && s.rows[id].version == version
  }

  // ----- Workers -----

  /** A commit stores the results exactly when the row runs the claimed version; anything else changes nothing. */
  lemma {:induction false} CommitLands(actions: seq<Action>, w: nat)
    requires w in After(Init(), actions).workers
    ensures var s := After(Init(), actions);
      var t, c := Step(s, Commit(w)), s.workers[w];
      && w !in t.workers && t.bag == s.bag && t.owed == s.owed
      && if RunsVersion(s, c.id, c.version) then
           && StandsAt(t, c.id, Completed) && OnlyTouches(s, t, c.id)
           && t.rows[c.id] == Backtest(Completed, c.version, Some(Outcome(c.version, w)))
           && t.log == s.log + [Committed(c.id, c.version, w)]
         else TouchesNothing(s, t)
  {
    var s := After(Init(), actions);
    RunKeeps(Init(), actions);
    assert RowOk(s, s.workers[w].id);
  }

  /** A worker's error fails the row exactly when the row runs the claimed version, and keeps its version. */
  lemma {:induction false} FailureLands(actions: seq<Action>, w: nat)
    requires w in After(Init(), actions).workers
    ensures var s := After(Init(), actions);
      var t, c := Step(s, Fail(w)), s.workers[w];
      && w !in t.workers && t.log == s.log && t.bag == s.bag && t.owed == s.owed
      && if RunsVersion(s, c.id, c.version) then
           && StandsAt(t, c.id, Failed) && OnlyTouches(s, t, c.id)
           && t.rows[c.id].version == c.version
         else TouchesNothing(s, t)
  {
    var s := After(Init(), actions);
    RunKeeps(Init(), actions);
    assert RowOk(s, s.workers[w].id);
  }

  /**
    A delivered message puts one more worker in flight exactly when the row is pending: the row runs, its job is
    locked now, and the worker carries the row's version.
   */
  lemma DeliveryClaims(s: System, id: nat, redelivered: bool)
    requires RowOk(s, id) && id in s.bag && s.nextWorker !in s.workers
    ensures var t, w := Step(s, Deliver(id, redelivered)), s.nextWorker;
      && t.bag[id] + (if redelivered then 0 else 1) == s.bag[id]
      && if id in s.rows && s.rows[id].status == Pending then
           && OnlyTouches(s, t, id) && RunsVersion(t, id, s.rows[id].version)
           && id in t.jobs
           && t.jobs[id] == Job(Running, 5, s.jobs[id].scheduledAt, Some(s.now), s.jobs[id].attempts + 1)
           && t.workers == s.workers[w := Claim(id, s.rows[id].version)]
           && t.log == s.log + [Claimed(id, s.rows[id].version, w)]
         else TouchesNothing(s, t) && t.workers == s.workers
  {
  }

  lemma WorkersAreOld(s: System)
    requires Inv(s)
    ensures forall w :: w in s.workers ==> w < s.nextWorker
  {
    forall w | w in s.workers ensures w < s.nextWorker {
      var i :| 0 <= i < |s.log| && s.log[i] == Claimed(s.workers[w].id, s.workers[w].version, w);
      assert ClaimOk(s, s.log[i]);
    }
  }

  // ----- Users -----

  /** Version `version` of the backtest has just been queued, or has failed because it could not be. */
  ghost predicate Queued(s: System, t: System, id: nat, version: nat, publication: Publication) {
    var status := if publication == Published then Pending else Failed;
    && OnlyTouches(s, t, id) && t.workers == s.workers && t.owed == s.owed && t.now == s.now
    && id in t.rows && t.rows[id] == Backtest(status, version, None)
    && id in t.jobs && t.jobs[id] == Job(status, 5, s.now, None, 0)
    && t.bag == if publication.GotThrough() then s.bag + multiset{id} else s.bag
  }

  /** A new backtest starts at version 1, under an id never used before. */
  lemma CreateQueues(s: System, publication: Publication)
    requires RowOk(s, s.nextId)
    ensures var t, id := Step(s, Create(publication)), s.nextId;
      id !in s.rows && t.nextId == id + 1 && t.log == s.log && Queued(s, t, id, 1, publication)
  {
  }

  /** An edit queues the next version exactly of a pending backtest. */
  lemma EditQueues(s: System, id: nat, publication: Publication)
    requires RowOk(s, id)
    ensures var t := Step(s, Edit(id, publication));
      if id in s.rows && s.rows[id].status == Pending
      then Queued(s, t, id, s.rows[id].version + 1, publication) && t.log == s.log + [Revoked(id, ByEdit)]
      else t == s
  {
  }

  /** A retry queues the next version exactly of a failed or cancelled backtest. */
  lemma RetryQueues(s: System, id: nat, publication: Publication)
    requires RowOk(s, id)
    ensures var t := Step(s, Retry(id, publication));
      if id in s.rows && (s.rows[id].status == Failed || s.rows[id].status == Cancelled)
      then Queued(s, t, id, s.rows[id].version + 1, publication) && t.log == s.log + [Revoked(id, ByRetry)]
      else t == s
  {
  }

  /** A cancel stops exactly a pending or running backtest, whose version it keeps; workers and messages stay. */
  lemma CancelStops(s: System, id: nat)
    requires RowOk(s, id)
    ensures var t := Step(s, Cancel(id));
      if id in s.rows && (s.rows[id].status == Pending || s.rows[id].status == Running)
      then StandsAt(t, id, Cancelled) && OnlyTouches(s, t, id) && t.rows[id].version == s.rows[id].version
           && t.workers == s.workers && t.bag == s.bag && t.log == s.log + [Revoked(id, ByCancel)]
      else t == s
  {
  }

  /** A delete takes away the row and its job, and neither workers nor messages. */
  lemma DeleteRemoves(s: System, id: nat)
    requires RowOk(s, id)
    ensures var t := Step(s, Delete(id));
      && id !in t.rows && id !in t.jobs && OnlyTouches(s, t, id) && t.workers == s.workers && t.bag == s.bag
      && t.log == if id in s.rows then s.log + [Revoked(id, ByDelete)] else s.log
  {
  }

  // ----- The sweeper -----

  ghost predicate AllRun(s: System, ids: seq<nat>) {
    Distinct(ids) && forall x :: x in ids ==> x in s.jobs && x in s.rows && s.rows[x].status == Running
  }

  lemma RestRuns(s: System, ids: seq<nat>)
    requires ids != [] && AllRun(s, ids)
    ensures AllRun(TimeoutOne(s, ids[0]), ids[1..]) && ids[0] !in ids[1..]
  {
    var x, rest, u := ids[0], ids[1..], TimeoutOne(s, ids[0]);
    forall y | y in rest ensures y in u.jobs && y in u.rows && u.rows[y].status == Running && y != x {
      var k :| 0 <= k < |rest| && rest[k] == y;
      assert ids[k + 1] == y && y in ids;
    }
  }

  lemma {:induction false} TimeoutsFail(s: System, ids: seq<nat>, id: nat)
    requires AllRun(s, ids)
    ensures var t := TimeoutAll(s, ids);
      && (id in ids ==> StandsAt(t, id, Failed) && t.rows[id].version == s.rows[id].version)
      && (id !in ids ==> (id in t.rows <==> id in s.rows) && (id in t.jobs <==> id in s.jobs))
      && (id !in ids && id in s.rows ==> t.rows[id] == s.rows[id])
      && (id !in ids && id in s.jobs ==> t.jobs[id] == s.jobs[id])
    decreases |ids|
  {
    if ids != [] {
      RestRuns(s, ids);
      TimeoutsFail(TimeoutOne(s, ids[0]), ids[1..], id);
      assert ids == [ids[0]] + ids[1..];
    }
  }

  ghost predicate LogsTimeouts(s: System, t: System, stale: seq<nat>) {
    && |t.log| == |s.log| + |stale| && t.log[..|s.log|] == s.log
    && forall k :: 0 <= k < |stale| ==> t.log[|s.log| + k] == Revoked(stale[k], ByTimeout)
  }

  lemma {:induction false} TimeoutsAreLogged(s: System, ids: seq<nat>)
    requires AllRun(s, ids)
    ensures var t := TimeoutAll(s, ids);
      LogsTimeouts(s, t, ids) && t.workers == s.workers && t.bag == s.bag && t.owed == s.owed && t.now == s.now
    decreases |ids|
  {
    if ids != [] {
      var u, rest := TimeoutOne(s, ids[0]), ids[1..];
      RestRuns(s, ids);
      TimeoutsAreLogged(u, rest);
      var t := TimeoutAll(u, rest);
      assert ids[0] in ids && u.log == s.log + [Revoked(ids[0], ByTimeout)];
      assert t.log[..|s.log|] == t.log[..|u.log|][..|s.log|];
      forall k | 0 <= k < |ids| ensures t.log[|s.log| + k] == Revoked(ids[k], ByTimeout) {
        if k == 0 { assert t.log[|s.log|] == t.log[..|u.log|][|s.log|]; } else { assert ids[k] == rest[k - 1]; }
      }
    }
  }

  lemma {:induction false} ReschedulesMove(s: System, ids: seq<nat>, id: nat)
    requires Distinct(ids) && forall x :: x in ids ==> x in s.jobs
    ensures var t := RescheduleAll(s, ids);
      && t.rows == s.rows && t.log == s.log && t.workers == s.workers && t.bag == s.bag && t.now == s.now
      && (id in t.jobs <==> id in s.jobs)
      && (id in s.jobs ==> t.jobs[id] == if id in ids then s.jobs[id].(scheduledAt := s.now) else s.jobs[id])
      && t.owed[id] == s.owed[id] + if id in ids then 1 else 0
    decreases |ids|
  {
    if ids != [] {
      var x, rest := ids[0], ids[1..];
      forall y | y in rest ensures y != x {
        var k :| 0 <= k < |rest| && rest[k] == y;
        assert ids[k + 1] == y;
      }
      ReschedulesMove(RescheduleOne(s, x), rest, id);
      assert ids == [x] + rest;
    }
  }

  /**
    A sweep fails the backtests of the stale running jobs, moves the stale pending jobs to the back and owes each a
    message, and leaves everything else alone.
   */
  ghost predicate Swept(s: System, t: System, stale: seq<nat>, waiting: seq<nat>, id: nat) {
    && (id in stale ==>
          id in s.rows && s.rows[id].status == Running
          && StandsAt(t, id, Failed) && t.rows[id].version == s.rows[id].version)
    && (id !in stale ==> (id in t.rows <==> id in s.rows) && (id in t.jobs <==> id in s.jobs))
    && (id !in stale && id in s.rows ==> t.rows[id] == s.rows[id])
    && (id !in stale && id in s.jobs ==>
          t.jobs[id] == if id in waiting then s.jobs[id].(scheduledAt := s.now) else s.jobs[id])
    && t.owed[id] == s.owed[id] + if id in waiting then 1 else 0
  }

  lemma {:induction false} SweepEffect(s: System, stale: seq<nat>, waiting: seq<nat>, id: nat)
    requires AllRun(s, stale) && Distinct(waiting)
    requires var u := TimeoutAll(s, stale); forall x :: x in waiting ==> x in u.jobs && u.jobs[x].status == Pending
    ensures var t := SweepStep(s, stale, waiting);
      Swept(s, t, stale, waiting, id) && LogsTimeouts(s, t, stale) && t.workers == s.workers && t.bag == s.bag
  {
    TimeoutsFail(s, stale, id);
    TimeoutsAreLogged(s, stale);
    ReschedulesMove(TimeoutAll(s, stale), waiting, id);
  }

  lemma RunningAnswerRuns(s: System, cutoff: int, limit: int, ids: seq<nat>)
    requires StateOk(s) && IsRunningAnswer(s, cutoff, limit, ids)
    ensures AllRun(s, ids)
  {
    forall x | x in ids ensures x in s.jobs && x in s.rows && s.rows[x].status == Running {
      assert StaleRunning(s, cutoff, x) && RowOk(s, x);
    }
  }

  lemma PendingAnswerWaits(s: System, cutoff: int, limit: int, ids: seq<nat>)
    requires IsPendingAnswer(s, cutoff, limit, ids)
    ensures forall x :: x in ids ==> x in s.jobs && s.jobs[x].status == Pending
  {
    forall x | x in ids ensures x in s.jobs && s.jobs[x].status == Pending { assert StalePending(s, cutoff, x); }
  }

  /** Over every run, for whatever the sweeper's two queries return. */
  lemma {:induction false} SweepRecovers(actions: seq<Action>, stale: seq<nat>, waiting: seq<nat>, limit: int,
                                         pendingAfter: int, runningAfter: int, id: nat)
    requires Enabled(After(Init(), actions), Sweep(stale, waiting, limit, pendingAfter, runningAfter))
    ensures var s := After(Init(), actions);
      var t := Step(s, Sweep(stale, waiting, limit, pendingAfter, runningAfter));
      Swept(s, t, stale, waiting, id) && LogsTimeouts(s, t, stale) && t.workers == s.workers && t.bag == s.bag
  {
    var s := After(Init(), actions);
    RunKeeps(Init(), actions);
    RunningAnswerRuns(s, RunningCutoff(s.now, runningAfter), ClampLimit(limit), stale);
    PendingAnswerWaits(TimeoutAll(s, stale), PendingCutoff(s.now, pendingAfter), ClampLimit(limit), waiting);
    SweepEffect(s, stale, waiting, id);
  }

  /**
    No sweep takes more than 100 jobs of a kind, times out a job locked within the last 300 seconds, or republishes
    one scheduled within the last 60; and it takes at least one job of a kind if any is due.
   */
  lemma {:induction false} SweepIsGentle(s: System, stale: seq<nat>, waiting: seq<nat>, limit: int,
                                         pendingAfter: int, runningAfter: int)
    requires Enabled(s, Sweep(stale, waiting, limit, pendingAfter, runningAfter))
    ensures |stale| <= 100 && |waiting| <= 100 && (1 <= limit ==> |stale| <= limit && |waiting| <= limit)
    ensures forall x :: x in stale ==>
              && x in s.jobs && s.jobs[x].status == Running && s.jobs[x].lockedAt.Some?
              && s.jobs[x].lockedAt.value + 300 <= s.now && s.jobs[x].lockedAt.value + runningAfter <= s.now
    ensures forall x :: x in waiting ==>
              var u := TimeoutAll(s, stale);
              && x in u.jobs && u.jobs[x].status == Pending
              && u.jobs[x].scheduledAt + 60 <= s.now && u.jobs[x].scheduledAt + pendingAfter <= s.now
    ensures stale == [] ==>
              forall x :: x in s.jobs && s.jobs[x].status == Running && s.jobs[x].lockedAt.Some? ==>
                s.jobs[x].lockedAt.value + 300 > s.now || s.jobs[x].lockedAt.value + runningAfter > s.now
  {
    var u := TimeoutAll(s, stale);
    forall x | x in stale ensures StaleRunning(s, RunningCutoff(s.now, runningAfter), x) { }
    forall x | x in waiting ensures StalePending(u, PendingCutoff(s.now, pendingAfter), x) { }
    var cutoff := RunningCutoff(s.now, runningAfter);
    forall x | x in s.jobs && x !in stale && StaleRunning(s, cutoff, x) ensures stale != [] { }
  }

  /** A stale job follows its row: a running row fails, any other row is left as it is. */
  lemma TimeoutSettles(s: System, id: nat)
    requires id in s.rows && id in s.jobs
    ensures var t := TimeoutOne(s, id);
      && OnlyTouches(s, t, id) && StandsAt(t, id, t.rows[id].status) && t.rows[id].version == s.rows[id].version
      && t.rows[id].status == (if s.rows[id].status == Running then Failed else s.rows[id].status)
      && t.log == if s.rows[id].status == Running then s.log + [Revoked(id, ByTimeout)] else s.log
  {
  }

  lemma UnqueuedFails(s: System, id: nat)
    requires RowOk(s, id) && id in s.rows && s.rows[id].status == Pending
    ensures var t := CloseUnqueued(s, id);
      && StandsAt(t, id, Failed) && OnlyTouches(s, t, id) && t.rows[id].version == s.rows[id].version
      && t.log == s.log + [Revoked(id, ByQueueFailure)]
      && t.owed == s.owed && t.workers == s.workers && t.bag == s.bag
  {
  }

  /** An owed message is handed over once; when that fails, a row that is still pending fails with its job. */
  lemma RepublicationLands(s: System, id: nat, publication: Publication)
    requires RowOk(s, id) && id in s.owed
    ensures var t := Step(s, Republish(id, publication));
      && t.owed == s.owed - multiset{id} && t.workers == s.workers
      && t.bag == (if publication.GotThrough() then s.bag + multiset{id} else s.bag)
      && if publication != Published && id in s.rows && s.rows[id].status == Pending
         then StandsAt(t, id, Failed) && OnlyTouches(s, t, id) && t.rows[id].version == s.rows[id].version
              && t.log == s.log + [Revoked(id, ByQueueFailure)]
         else TouchesNothing(s, t)
  {
    if publication != Published && id in s.rows && s.rows[id].status == Pending {
      UnqueuedFails(Emit(s, id, publication), id);
    }
  }

  // ----- Claims that stand -----

  /** After position `from` the log records a revocation of the backtest. */
  ghost predicate RevokedFrom(log: seq<Event>, from: nat, id: nat) {
    exists k :: from <= k < |log| && log[k].Revoked? && log[k].id == id
  }

  /** Worker w is in flight, and nothing has revoked its claim. */
  ghost predicate Stands(s: System, w: nat) {
    && w in s.workers
    && exists i :: 0 <= i < |s.log| && s.log[i] == Claimed(s.workers[w].id, s.workers[w].version, w)
                   && !RevokedFrom(s.log, i + 1, s.workers[w].id)
  }

  ghost predicate StandingClaimsRun(s: System) {
    forall w :: Stands(s, w) ==> RunsVersion(s, s.workers[w].id, s.workers[w].version)
  }

  lemma {:induction false} TimeoutsRevoke(s: System, ids: seq<nat>, c: Claim)
    requires RunsVersion(s, c.id, c.version)
    ensures var t := TimeoutAll(s, ids);
      && |s.log| <= |t.log| && t.log[..|s.log|] == s.log && t.workers == s.workers
      && (RunsVersion(t, c.id, c.version) || RevokedFrom(t.log, |s.log|, c.id))
    decreases |ids|
  {
    if ids != [] {
      var u := TimeoutOne(s, ids[0]);
      if RunsVersion(u, c.id, c.version) {
        TimeoutsRevoke(u, ids[1..], c);
        var t := TimeoutAll(u, ids[1..]);
        assert t.log[..|s.log|] == t.log[..|u.log|][..|s.log|];
        if RevokedFrom(t.log, |u.log|, c.id) {
          var k :| |u.log| <= k < |t.log| && t.log[k].Revoked? && t.log[k].id == c.id;
          assert RevokedFrom(t.log, |s.log|, c.id);
        }
      } else {
        TimeoutsLog(u, ids[1..]);
        var t := TimeoutAll(u, ids[1..]);
        assert t.log[|s.log|] == t.log[..|u.log|][|s.log|] == Revoked(c.id, ByTimeout);
        assert t.log[..|s.log|] == t.log[..|u.log|][..|s.log|];
      }
    }
  }

  lemma {:induction false} TimeoutsLog(s: System, ids: seq<nat>)
    ensures var t := TimeoutAll(s, ids); |s.log| <= |t.log| && t.log[..|s.log|] == s.log && t.workers == s.workers
    decreases |ids|
  {
    if ids != [] {
      TimeoutsLog(TimeoutOne(s, ids[0]), ids[1..]);
      var u, t := TimeoutOne(s, ids[0]), TimeoutAll(s, ids);
      assert t.log[..|s.log|] == t.log[..|u.log|][..|s.log|];
    }
  }

  /** How a step extends the log, and which workers it leaves in flight. */
  ghost predicate Extends(s: System, t: System) {
    && |s.log| <= |t.log| && t.log[..|s.log|] == s.log
    && (forall i :: |s.log| <= i < |t.log| && t.log[i].Claimed? ==> t.log[i].worker == s.nextWorker)
    && forall w :: w in t.workers && w != s.nextWorker ==> w in s.workers && t.workers[w] == s.workers[w]
  }

  lemma {:induction false} SweepExtends(s: System, stale: seq<nat>, waiting: seq<nat>)
    ensures Extends(s, SweepStep(s, stale, waiting)) && SweepStep(s, stale, waiting).workers == s.workers
  {
    TimeoutsLogNoClaim(s, stale);
    ReschedulesKeepRows(TimeoutAll(s, stale), waiting);
  }

  lemma {:induction false} TimeoutsLogNoClaim(s: System, ids: seq<nat>)
    ensures var t := TimeoutAll(s, ids);
      && |s.log| <= |t.log| && t.log[..|s.log|] == s.log && t.workers == s.workers
      && forall i :: |s.log| <= i < |t.log| ==> !t.log[i].Claimed?
    decreases |ids|
  {
    if ids != [] {
      var u, t := TimeoutOne(s, ids[0]), TimeoutAll(s, ids);
      TimeoutsLogNoClaim(u, ids[1..]);
      assert t.log[..|s.log|] == t.log[..|u.log|][..|s.log|];
      forall i | |s.log| <= i < |u.log| ensures !t.log[i].Claimed? { assert t.log[i] == t.log[..|u.log|][i]; }
    }
  }

  lemma {:induction false} ReschedulesKeepRows(s: System, ids: seq<nat>)
    ensures var t := RescheduleAll(s, ids); t.rows == s.rows && t.log == s.log && t.workers == s.workers
    decreases |ids|
  {
    if ids != [] { ReschedulesKeepRows(RescheduleOne(s, ids[0]), ids[1..]); }
  }

  predicate ByUser(a: Action) {
    a.Create? || a.Edit? || a.Retry? || a.Cancel? || a.Delete?
  }

  predicate ByWorker(a: Action) {
    a.Deliver? || a.Commit? || a.Fail? || a.Crash?
  }

  lemma QueueExtends(s: System, id: nat, publication: Publication)
    requires id in s.rows
    ensures Queue(s, id, publication).log == s.log && Queue(s, id, publication).workers == s.workers
  {
  }

  lemma UserExtends(s: System, a: Action)
    requires ByUser(a)
    ensures Extends(s, Step(s, a)) && Step(s, a).workers == s.workers
  {
    match a
    case Create(publication) =>
      QueueExtends(s.(nextId := s.nextId + 1, rows := s.rows[s.nextId := Backtest(Pending, 1, None)]), s.nextId,
                   publication);
    case Edit(id, publication) =>
    case Retry(id, publication) =>
    case Cancel(_) =>
    case Delete(_) =>
  }

  lemma DeliverExtends(s: System, id: nat, redelivered: bool)
    ensures Extends(s, Step(s, Deliver(id, redelivered)))
  {
  }

  lemma EndExtends(s: System, w: nat)
    ensures Extends(s, Step(s, Commit(w))) && Extends(s, Step(s, Fail(w)))
    ensures Step(s, Commit(w)).workers == s.workers - {w} == Step(s, Fail(w)).workers
  {
  }

  lemma WorkerExtends(s: System, a: Action)
    requires ByWorker(a)
    ensures Extends(s, Step(s, a))
  {
    match a
    case Deliver(id, redelivered) => DeliverExtends(s, id, redelivered);
    case Commit(w) => EndExtends(s, w);
    case Fail(w) => EndExtends(s, w);
    case Crash(_) =>
  }

  lemma StepExtends(s: System, a: Action)
    ensures Extends(s, Step(s, a))
  {
    if ByUser(a) {
      UserExtends(s, a);
    } else if ByWorker(a) {
      WorkerExtends(s, a);
    } else if a.Sweep? {
      SweepExtends(s, a.stale, a.waiting);
    } else {
      OtherExtends(s, a);
    }
  }

  lemma ClosingExtends(s: System, id: nat)
    ensures Extends(s, CloseUnqueued(s, id)) && CloseUnqueued(s, id).workers == s.workers
  {
  }

  lemma RepublishExtends(s: System, id: nat, publication: Publication)
    ensures Extends(s, RepublishStep(s, id, publication)) && RepublishStep(s, id, publication).workers == s.workers
  {
    ClosingExtends(Emit(s, id, publication), id);
  }

  lemma OtherExtends(s: System, a: Action)
    requires a.Tick? || a.Lose? || a.Republish?
    ensures Extends(s, Step(s, a)) && Step(s, a).workers == s.workers
  {
    if a.Republish? { RepublishExtends(s, a.id, a.publication); }
  }

  /** The step leaves the version running, or its log records a revocation of the backtest. */
  ghost predicate GoesOnOrRevoked(s: System, t: System, c: Claim) {
    RunsVersion(t, c.id, c.version) || RevokedFrom(t.log, |s.log|, c.id)
  }

  lemma GoesOnUnderUser(s: System, a: Action, c: Claim)
    requires RowOk(s, c.id) && RunsVersion(s, c.id, c.version) && ByUser(a)
    ensures GoesOnOrRevoked(s, Step(s, a), c)
  {
    if (a.Cancel? || a.Delete?) && a.id == c.id {
      assert Step(s, a).log[|s.log|].Revoked? && Step(s, a).log[|s.log|].id == c.id;
    }
  }

  lemma GoesOnUnderWorker(s: System, a: Action, c: Claim)
    requires RunsVersion(s, c.id, c.version) && ByWorker(a)
    requires !((a.Commit? || a.Fail?) && a.worker in s.workers && s.workers[a.worker] == c)
    ensures GoesOnOrRevoked(s, Step(s, a), c)
  {
    match a
    case Deliver(id, redelivered) => GoesOnUnderDelivery(s, id, redelivered, c);
    case Commit(w) => GoesOnBesideOthers(s, w, c);
    case Fail(w) => GoesOnBesideOthers(s, w, c);
    case Crash(_) =>
  }

  lemma GoesOnUnderDelivery(s: System, id: nat, redelivered: bool, c: Claim)
    requires RunsVersion(s, c.id, c.version)
    ensures RunsVersion(Step(s, Deliver(id, redelivered)), c.id, c.version)
  {
  }

  lemma GoesOnBesideOthers(s: System, w: nat, c: Claim)
    requires RunsVersion(s, c.id, c.version) && (w in s.workers ==> s.workers[w] != c)
    ensures RunsVersion(Step(s, Commit(w)), c.id, c.version) && RunsVersion(Step(s, Fail(w)), c.id, c.version)
  {
  }

  /** A running version goes on running until the log revokes it or a worker with that claim ends it. */
  lemma RunningGoesOn(s: System, a: Action, c: Claim)
    requires RowOk(s, c.id) && RunsVersion(s, c.id, c.version)
    requires !((a.Commit? || a.Fail?) && a.worker in s.workers && s.workers[a.worker] == c)
    ensures GoesOnOrRevoked(s, Step(s, a), c)
  {
    if ByUser(a) {
      GoesOnUnderUser(s, a, c);
    } else if ByWorker(a) {
      GoesOnUnderWorker(s, a, c);
    } else if a.Sweep? {
      TimeoutsRevoke(s, a.stale, c);
      ReschedulesKeepRows(TimeoutAll(s, a.stale), a.waiting);
    }
  }

  /** No two workers in flight carry the same claim. */
  lemma ClaimIsOwn(s: System, v: nat, w: nat)
    requires WorkersOk(s) && ClaimedOnce(s.log) && v in s.workers && w in s.workers && s.workers[v] == s.workers[w]
    ensures v == w
  {
    var c := s.workers[v];
    var i :| 0 <= i < |s.log| && s.log[i] == Claimed(c.id, c.version, v);
    var j :| 0 <= j < |s.log| && s.log[j] == Claimed(c.id, c.version, w);
  }

  lemma StoodBefore(s: System, t: System, w: nat)
    requires Extends(s, t) && Stands(t, w) && w in s.workers && w != s.nextWorker
    ensures Stands(s, w) && !RevokedFrom(t.log, |s.log|, s.workers[w].id)
  {
    var c := t.workers[w];
    var i :| 0 <= i < |t.log| && t.log[i] == Claimed(c.id, c.version, w) && !RevokedFrom(t.log, i + 1, c.id);
    assert i < |s.log|;
    forall k | i + 1 <= k < |s.log| ensures !(s.log[k].Revoked? && s.log[k].id == c.id) {
      assert s.log[k] == t.log[..|s.log|][k] == t.log[k];
    }
    assert s.log[i] == t.log[..|s.log|][i];
    forall k | |s.log| <= k < |t.log| ensures !(t.log[k].Revoked? && t.log[k].id == c.id) { }
  }

  lemma StandsOn(s: System, a: Action, w: nat)
    requires w in s.workers && w != s.nextWorker && Stands(Step(s, a), w)
    requires RowOk(s, s.workers[w].id) && WorkersOk(s) && ClaimedOnce(s.log) && StandingClaimsRun(s)
    ensures RunsVersion(Step(s, a), s.workers[w].id, s.workers[w].version)
  {
    StepExtends(s, a);
    StoodBefore(s, Step(s, a), w);
    if (a.Commit? || a.Fail?) && a.worker in s.workers && s.workers[a.worker] == s.workers[w] {
      ClaimIsOwn(s, a.worker, w);
    }
    RunningGoesOn(s, a, s.workers[w]);
  }

  lemma DeliveredClaimRuns(s: System, id: nat, redelivered: bool)
    requires s.nextWorker !in s.workers && s.nextWorker in Step(s, Deliver(id, redelivered)).workers
    ensures var t := Step(s, Deliver(id, redelivered));
      RunsVersion(t, t.workers[s.nextWorker].id, t.workers[s.nextWorker].version)
  {
  }

  lemma NewClaimRuns(s: System, a: Action)
    requires s.nextWorker !in s.workers && s.nextWorker in Step(s, a).workers
    ensures var c := Step(s, a).workers[s.nextWorker]; RunsVersion(Step(s, a), c.id, c.version)
  {
    if ByUser(a) {
      UserExtends(s, a);
    } else if a.Sweep? {
      SweepExtends(s, a.stale, a.waiting);
    } else if a.Deliver? {
      DeliveredClaimRuns(s, a.id, a.redelivered);
    } else if a.Commit? || a.Fail? {
      EndExtends(s, a.worker);
    } else if !a.Crash? {
      OtherExtends(s, a);
    }
  }

  lemma {:induction false} StepKeepsStanding(s: System, a: Action)
    requires Inv(s) && StandingClaimsRun(s)
    ensures StandingClaimsRun(Step(s, a))
  {
    var t := Step(s, a);
    StepExtends(s, a);
    WorkersAreOld(s);
    forall w | Stands(t, w) ensures RunsVersion(t, t.workers[w].id, t.workers[w].version) {
      if w == s.nextWorker {
        NewClaimRuns(s, a);
      } else {
        assert RowOk(s, s.workers[w].id);
        StandsOn(s, a, w);
      }
    }
  }

  lemma {:induction false} RunKeepsStanding(s: System, actions: seq<Action>)
    requires Inv(s) && StandingClaimsRun(s)
    ensures StandingClaimsRun(After(s, actions))
    decreases |actions|
  {
    if actions != [] {
      StepKeeps(s, actions[0]);
      StepKeepsStanding(s, actions[0]);
      RunKeepsStanding(Step(s, actions[0]), actions[1..]);
    }
  }

  lemma RevokedClaimIsClosed(s: System, w: nat)
    requires RevokedOk(s) && WorkersOk(s) && w in s.workers && !Stands(s, w)
    ensures !RunsVersion(s, s.workers[w].id, s.workers[w].version)
  {
    var c := s.workers[w];
    var i :| 0 <= i < |s.log| && s.log[i] == Claimed(c.id, c.version, w);
    var k :| i + 1 <= k < |s.log| && s.log[k].Revoked? && s.log[k].id == c.id;
    assert Closed(s, s.log[i]);
  }

  /**
    Over every run: a worker in flight that finishes now commits its results exactly when nothing has revoked its
    claim, whatever else was lost, duplicated or late.
   */
  lemma {:induction false} CommitsIffUnrevoked(actions: seq<Action>, w: nat)
    requires w in After(Init(), actions).workers
    ensures var s := After(Init(), actions);
      var t, c := Step(s, Commit(w)), s.workers[w];
      && (Stands(s, w) <==> t.log == s.log + [Committed(c.id, c.version, w)])
      && (Stands(s, w) ==>
            StandsAt(t, c.id, Completed)
            && t.rows[c.id] == Backtest(Completed, c.version, Some(Outcome(c.version, w))))
      && (!Stands(s, w) ==> TouchesNothing(s, t))
  {
    var s := After(Init(), actions);
    RunKeeps(Init(), actions);
    RunKeepsStanding(Init(), actions);
    CommitLands(actions, w);
    if !Stands(s, w) { RevokedClaimIsClosed(s, w); }
  }
}
