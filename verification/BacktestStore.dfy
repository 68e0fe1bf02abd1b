/**
  The database rows and the message broker as one mutable object, with the API actions, the worker task
  and the sweeper as methods that save row by row.  Each method is one step of `BacktestProtocol`, so whatever
  every step keeps (`BacktestSafety`), every method keeps.
 */
module BacktestStore {
  import opened Options
  import opened BacktestProtocol

  class Store {
    var now: int
    var rows: map<nat, Backtest>
    var jobs: map<nat, Job>
    var bag: multiset<nat>
    var owed: multiset<nat>
    var workers: map<nat, Claim>
    var nextId: nat
    var nextWorker: nat
    ghost var log: seq<Event>

    ghost function View(): System
      reads this
    {
      System(now, rows, jobs, bag, owed, workers, nextId, nextWorker, log)
    }

    constructor ()
      ensures View() == Init()
    {
      now, nextId, nextWorker := 0, 0, 0;
      rows, jobs, workers := map[], map[], map[];
      bag, owed := multiset{}, multiset{};
      log := [];
    }

    method SaveStatus(id: nat, status: Status)
      requires id in rows
      modifies this`rows
      ensures rows == old(rows)[id := old(rows)[id].(status := status)]
    {
      rows := rows[id := rows[id].(status := status)];
    }

    /** Update the job row, if there is one, to an unlocked status. */
    method ReleaseJob(id: nat, status: Status)
      modifies this`jobs
      ensures jobs == CloseJob(old(jobs), id, status)
    {
      if id in jobs {
        var job := jobs[id];
        job := job.(status := status);
        job := job.(lockedAt := None);
        jobs := jobs[id := job];
      }
    }

    method LockJob(id: nat)
      modifies this`jobs
      ensures jobs == if id in old(jobs)
                      then old(jobs)[id := old(jobs)[id].(status := Running, lockedAt := Some(now),
                                                          attempts := old(jobs)[id].attempts + 1)]
                      else old(jobs)
    {
      if id in jobs {
        var job := jobs[id];
        job := job.(status := Running);
        job := job.(lockedAt := Some(now));
        job := job.(attempts := job.attempts + 1);
        jobs := jobs[id := job];
      }
    }

    /** Nothing was queued: row and job have failed. */
    method GiveUp(id: nat)
      requires id in rows
      modifies this`rows, this`jobs
      ensures rows == old(rows)[id := old(rows)[id].(status := Failed)]
      ensures jobs == CloseJob(old(jobs), id, Failed)
    {
      SaveStatus(id, Failed);
      ReleaseJob(id, Failed);
    }

    /** Persist the job first, then publish; report whether the message went out. */
    method Enqueue(id: nat, publication: Publication) returns (ok: bool)
      requires id in rows
      modifies this
      ensures View() == Queue(old(View()), id, publication)
      ensures ok == (publication == Published)
    {
      jobs := jobs[id := Job(Pending, 5, now, None, 0)];
      if publication == NoWorker {
        GiveUp(id);
        return false;
      }
      SaveStatus(id, Pending);
      if publication == Published {
        bag := bag + multiset{id};
        return true;
      }
      if publication.leaked {
        bag := bag + multiset{id};
      }
      GiveUp(id);
      return false;
    }

    method PerformCreate(publication: Publication) returns (id: nat)
      modifies this
      ensures View() == Step(old(View()), Create(publication)) && id == old(nextId)
    {
      id := nextId;
      nextId := nextId + 1;
      rows := rows[id := Backtest(Pending, 1, None)];
      var _ := Enqueue(id, publication);
    }

    /** An edit is refused unless the row is pending. */
    method PerformUpdate(id: nat, publication: Publication) returns (accepted: bool)
      modifies this
      ensures View() == Step(old(View()), Edit(id, publication))
      ensures accepted == (id in old(rows) && old(rows)[id].status == Pending)
    {
      if id !in rows || rows[id].status != Pending {
        return false;
      }
      var row := rows[id];
      row := row.(status := Pending);
      row := row.(version := row.version + 1);
      row := row.(outcome := None);
      rows := rows[id := row];
      log := log + [Revoked(id, ByEdit)];
      var _ := Enqueue(id, publication);
      return true;
    }

    method PerformRetry(id: nat, publication: Publication) returns (accepted: bool)
      modifies this
      ensures View() == Step(old(View()), Retry(id, publication))
      ensures accepted == (id in old(rows) && old(rows)[id].status.Retryable())
    {
      if id !in rows || !rows[id].status.Retryable() {
        return false;
      }
      var row := rows[id];
      row := row.(status := Pending);
      row := row.(version := row.version + 1);
      rows := rows[id := row];
      log := log + [Revoked(id, ByRetry)];
      var _ := Enqueue(id, publication);
      return true;
    }

    method PerformCancel(id: nat) returns (accepted: bool)
      modifies this
      ensures View() == Step(old(View()), Cancel(id))
      ensures accepted == (id in old(rows) && old(rows)[id].status.Cancellable())
    {
      if id !in rows || !rows[id].status.Cancellable() {
        return false;
      }
      SaveStatus(id, Cancelled);
      if id in jobs && jobs[id].status.Cancellable() {
        ReleaseJob(id, Cancelled);
      }
      log := log + [Revoked(id, ByCancel)];
      return true;
    }

    method ReceiveMessage(id: nat, redelivered: bool)
      requires id in bag
      modifies this`bag
      ensures View() == Receive(old(View()), id, redelivered)
    {
      if !redelivered {
        bag := bag - multiset{id};
      }
    }

    /** The worker's first transaction: claim the row only while it is pending. */
    method ClaimRow(id: nat) returns (worker: Option<nat>)
      modifies this
      ensures View() == ClaimStep(old(View()), id)
      ensures worker == if id in old(rows) && old(rows)[id].status == Pending then Some(old(nextWorker)) else None
    {
      if id !in rows || rows[id].status != Pending {
        return None;
      }
      var claimedVersion := rows[id].version;
      SaveStatus(id, Running);
      LockJob(id);
      worker := Some(nextWorker);
      workers := workers[nextWorker := Claim(id, claimedVersion)];
      log := log + [Claimed(id, claimedVersion, nextWorker)];
      nextWorker := nextWorker + 1;
    }

    /** A delivered message starts a worker, which claims or gives up. */
    method ExecuteBacktest(id: nat, redelivered: bool) returns (worker: Option<nat>)
      requires id in bag
      modifies this
      ensures View() == Step(old(View()), Deliver(id, redelivered))
      ensures worker == if id in old(rows) && old(rows)[id].status == Pending then Some(old(nextWorker)) else None
    {
      ReceiveMessage(id, redelivered);
      worker := ClaimRow(id);
    }

    /** The worker's last transaction: persist results only if the fence still holds. */
    method CommitRow(worker: nat) returns (committed: bool)
      requires worker in workers
      modifies this
      ensures View() == Step(old(View()), Commit(worker))
      ensures committed == Fenced(old(View()), old(workers)[worker])
    {
      var claim := workers[worker];
      workers := workers - {worker};
      if claim.id !in rows || rows[claim.id].status != Running || rows[claim.id].version != claim.version {
        return false;
      }
      var row := rows[claim.id];
      row := row.(outcome := Some(Outcome(claim.version, worker)));
      row := row.(status := Completed);
      rows := rows[claim.id := row];
      ReleaseJob(claim.id, Completed);
      log := log + [Committed(claim.id, claim.version, worker)];
      return true;
    }

    /** The worker's error path, also taken when the strategy has vanished. */
    method FailRow(worker: nat)
      requires worker in workers
      modifies this
      ensures View() == Step(old(View()), Fail(worker))
    {
      var claim := workers[worker];
      workers := workers - {worker};
      if claim.id in rows && rows[claim.id].status == Running && rows[claim.id].version == claim.version {
        SaveStatus(claim.id, Failed);
        ReleaseJob(claim.id, Failed);
      }
    }

    /** Fail a running row; a job whose row is not running only takes over the row's status. */
    method TimeoutJob(id: nat) returns (timedOut: bool)
      modifies this`rows, this`jobs, this`log
      ensures View() == TimeoutOne(old(View()), id)
      ensures timedOut == (id in old(jobs) && id in old(rows) && old(rows)[id].status == Running)
    {
      if id !in jobs || id !in rows {
        return false;
      }
      if rows[id].status != Running {
        ReleaseJob(id, rows[id].status);
        return false;
      }
      SaveStatus(id, Failed);
      ReleaseJob(id, Failed);
      log := log + [Revoked(id, ByTimeout)];
      return true;
    }

    method TimeoutJobs(stale: seq<nat>) returns (timedOut: nat)
      modifies this`rows, this`jobs, this`log
      ensures View() == TimeoutAll(old(View()), stale)
      ensures |old(log)| + timedOut == |log|
    {
      timedOut := 0;
      for i := 0 to |stale|
        invariant TimeoutAll(old(View()), stale) == TimeoutAll(View(), stale[i..])
        invariant |old(log)| + timedOut == |log|
      {
        assert stale[i..][1..] == stale[i + 1..];
        var expired := TimeoutJob(stale[i]);
        timedOut := timedOut + if expired then 1 else 0;
      }
    }

    method RescheduleJob(id: nat)
      modifies this`jobs, this`owed
      ensures View() == RescheduleOne(old(View()), id)
    {
      if id in jobs {
        jobs := jobs[id := jobs[id].(scheduledAt := now)];
        owed := owed + multiset{id};
      }
    }

    method RescheduleJobs(waiting: seq<nat>) returns (recovered: seq<nat>)
      modifies this`jobs, this`owed
      ensures View() == RescheduleAll(old(View()), waiting)
      ensures recovered == waiting
    {
      recovered := [];
      for i := 0 to |waiting|
        invariant RescheduleAll(old(View()), waiting) == RescheduleAll(View(), waiting[i..])
        invariant recovered == waiting[..i]
      {
        assert waiting[i..][1..] == waiting[i + 1..];
        RescheduleJob(waiting[i]);
        recovered := recovered + [waiting[i]];
      }
    }

    /** The sweeper's transaction over the answers to its two queries. */
    method Reconcile(stale: seq<nat>, waiting: seq<nat>, limit: int, pendingAfter: int, runningAfter: int)
      returns (recovered: seq<nat>, timedOut: nat)
      requires Enabled(View(), Sweep(stale, waiting, limit, pendingAfter, runningAfter))
      modifies this
      ensures View() == Step(old(View()), Sweep(stale, waiting, limit, pendingAfter, runningAfter))
      ensures recovered == waiting && |old(log)| + timedOut == |log|
    {
      timedOut := TimeoutJobs(stale);
      recovered := RescheduleJobs(waiting);
    }

    method EmitMessage(id: nat, publication: Publication)
      requires id in owed
      modifies this`bag, this`owed
      ensures View() == Emit(old(View()), id, publication)
    {
      owed := owed - multiset{id};
      if publication.GotThrough() {
        bag := bag + multiset{id};
      }
    }

    /** Publish one recovered id; if that fails, close the row unless it has moved on. */
    method PublishRecovered(id: nat, publication: Publication)
      requires id in owed
      modifies this
      ensures View() == Step(old(View()), Republish(id, publication))
    {
      EmitMessage(id, publication);
      if publication != Published && id in rows && rows[id].status == Pending {
        GiveUp(id);
        log := log + [Revoked(id, ByQueueFailure)];
      }
    }
  }
}
