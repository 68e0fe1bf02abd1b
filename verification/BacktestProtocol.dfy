/**
  The backtest queue as a transition system: backtest rows, cluster-job rows, the bag of Celery
  messages, workers in flight and the republications a sweep still owes.

  A step is one database transaction of a worker or of the sweeper, one API action, one move of the
  message broker, or the passing of time.  `Step` is total: a request whose guard fails changes nothing.
 */
module BacktestProtocol {
  import opened Options

  datatype Status = Pending | Running | Completed | Failed | Cancelled {
    predicate Cancellable() { Pending? || Running? }
    predicate Retryable() { Failed? || Cancelled? }
  }

  /** The trades and statistics of one run, identified by the claim that computed them. */
  datatype Outcome = Outcome(version: nat, worker: nat)

  datatype Backtest = Backtest(status: Status, version: nat, outcome: Option<Outcome>)

  datatype Job = Job(status: Status, priority: nat, scheduledAt: int, lockedAt: Option<int>, attempts: nat)

  /** What a worker carries from its claim to its commit: the fencing token. */
  datatype Claim = Claim(id: nat, version: nat)

  datatype Cause = ByCancel | ByTimeout | ByEdit | ByRetry | ByQueueFailure | ByDelete

  datatype Event =
    | Claimed(id: nat, version: nat, worker: nat)
    | Committed(id: nat, version: nat, worker: nat)
    | Revoked(id: nat, cause: Cause)

  datatype System = System(
    now: int,
    rows: map<nat, Backtest>,
    jobs: map<nat, Job>,
    bag: multiset<nat>,
    owed: multiset<nat>,
    workers: map<nat, Claim>,
    nextId: nat,
    nextWorker: nat,
    log: seq<Event>)

  /** How publishing a message ended; an error may be reported although the message got through. */
  datatype Publication = Published | NoWorker | PublishError(leaked: bool) {
    predicate GotThrough() { Published? || (PublishError? && leaked) }
  }

  datatype Action =
    | Tick(seconds: nat)
    | Create(publication: Publication)
    | Edit(id: nat, publication: Publication)
    | Retry(id: nat, publication: Publication)
    | Cancel(id: nat)
    | Delete(id: nat)
    | Deliver(id: nat, redelivered: bool)
    | Lose(id: nat)
    | Commit(worker: nat)
    | Fail(worker: nat)
    | Crash(worker: nat)
    | Sweep(stale: seq<nat>, waiting: seq<nat>, limit: int, pendingAfter: int, runningAfter: int)
    | Republish(id: nat, publication: Publication)

  function Init(): System {
    System(0, map[], map[], multiset{}, multiset{}, map[], 0, 0, [])
  }

  // ----- API actions -----

  function QueuedJob(now: int): Job {
    Job(Pending, 5, now, None, 0)
  }

  function CloseJob(jobs: map<nat, Job>, id: nat, status: Status): map<nat, Job> {
    if id in jobs then jobs[id := jobs[id].(status := status, lockedAt := None)] else jobs
  }

  /** Upsert the job, then publish; any failure to publish fails the row and the job. */
  function Queue(s: System, id: nat, publication: Publication): System
    requires id in s.rows
  {
    var queued := s.jobs[id := QueuedJob(s.now)];
    match publication
    case Published =>
      s.(jobs := queued, rows := s.rows[id := s.rows[id].(status := Pending)], bag := s.bag + multiset{id})
    case NoWorker =>
      s.(jobs := CloseJob(queued, id, Failed), rows := s.rows[id := s.rows[id].(status := Failed)])
    case PublishError(leaked) =>
      s.(jobs := CloseJob(queued, id, Failed), rows := s.rows[id := s.rows[id].(status := Failed)],
         bag := if leaked then s.bag + multiset{id} else s.bag)
  }

  function CreateStep(s: System, publication: Publication): System {
    var id := s.nextId;
    Queue(s.(nextId := id + 1, rows := s.rows[id := Backtest(Pending, 1, None)]), id, publication)
  }

  /** Only a pending row may be edited; the edit bumps the version and drops trades and statistics. */
  function EditStep(s: System, id: nat, publication: Publication): System {
    if id in s.rows && s.rows[id].status == Pending then
      Queue(s.(rows := s.rows[id := Backtest(Pending, s.rows[id].version + 1, None)],
               log := s.log + [Revoked(id, ByEdit)]), id, publication)
    else s
  }

  /** Only a failed or cancelled row may be retried; trades and statistics are left alone. */
  function RetryStep(s: System, id: nat, publication: Publication): System {
    if id in s.rows && s.rows[id].status.Retryable() then
      Queue(s.(rows := s.rows[id := s.rows[id].(status := Pending, version := s.rows[id].version + 1)],
               log := s.log + [Revoked(id, ByRetry)]), id, publication)
    else s
  }

  function CancelStep(s: System, id: nat): System {
    if id in s.rows && s.rows[id].status.Cancellable() then
      s.(rows := s.rows[id := s.rows[id].(status := Cancelled)],
         jobs := if id in s.jobs && s.jobs[id].status.Cancellable()
                 then CloseJob(s.jobs, id, Cancelled) else s.jobs,
         log := s.log + [Revoked(id, ByCancel)])
    else s
  }

  function DeleteStep(s: System, id: nat): System {
    if id in s.rows then
      s.(rows := s.rows - {id}, jobs := s.jobs - {id}, log := s.log + [Revoked(id, ByDelete)])
    else s
  }

  // ----- Workers -----

  /** The broker hands a message over; under at-least-once delivery it may come again. */
  function Receive(s: System, id: nat, redelivered: bool): System {
    if redelivered then s else s.(bag := s.bag - multiset{id})
  }

  /** Claim the row if it is pending, remembering its version. */
  function ClaimStep(s: System, id: nat): System {
    if id in s.rows && s.rows[id].status == Pending then
      s.(rows := s.rows[id := s.rows[id].(status := Running)],
         jobs := if id in s.jobs
                 then s.jobs[id := s.jobs[id].(status := Running, lockedAt := Some(s.now),
                                               attempts := s.jobs[id].attempts + 1)]
                 else s.jobs,
         workers := s.workers[s.nextWorker := Claim(id, s.rows[id].version)],
         nextWorker := s.nextWorker + 1,
         log := s.log + [Claimed(id, s.rows[id].version, s.nextWorker)])
    else s
  }

  function DeliverStep(s: System, id: nat, redelivered: bool): System {
    ClaimStep(Receive(s, id, redelivered), id)
  }

  /** The fence: the row is still running the version this worker claimed. */
  predicate Fenced(s: System, c: Claim) {
    c.id in s.rows && s.rows[c.id].status == Running && s.rows[c.id].version == c.version
  }

  function CommitStep(s: System, w: nat): System {
    if w !in s.workers then s else
    var c := s.workers[w];
    var s := s.(workers := s.workers - {w});
    if Fenced(s, c) then
      s.(rows := s.rows[c.id := Backtest(Completed, c.version, Some(Outcome(c.version, w)))],
         jobs := CloseJob(s.jobs, c.id, Completed),
         log := s.log + [Committed(c.id, c.version, w)])
    else s
  }

  function FailStep(s: System, w: nat): System {
    if w !in s.workers then s else
    var c := s.workers[w];
    var s := s.(workers := s.workers - {w});
    if Fenced(s, c) then
      s.(rows := s.rows[c.id := s.rows[c.id].(status := Failed)], jobs := CloseJob(s.jobs, c.id, Failed))
    else s
  }

  // ----- The sweeper -----

  function ClampLimit(limit: int): int {
    var floor := if limit < 1 then 1 else limit;
    if floor > 100 then 100 else floor
  }

  function PendingCutoff(now: int, pendingAfter: int): int {
    now - (if pendingAfter < 60 then 60 else pendingAfter)
  }

  function RunningCutoff(now: int, runningAfter: int): int {
    now - (if runningAfter < 300 then 300 else runningAfter)
  }

  predicate StaleRunning(s: System, cutoff: int, id: nat) {
    id in s.jobs && s.jobs[id].status == Running && s.jobs[id].lockedAt.Some? && s.jobs[id].lockedAt.value <= cutoff
  }

  predicate StalePending(s: System, cutoff: int, id: nat) {
    id in s.jobs && s.jobs[id].status == Pending && s.jobs[id].scheduledAt <= cutoff
    && id in s.rows && s.rows[id].status == Pending
  }

  ghost predicate Distinct(ids: seq<nat>) {
    forall i, j :: 0 <= i < j < |ids| ==> ids[i] != ids[j]
  }

  /** `ids` answers the query for stale running jobs: oldest lock first, at most `limit`. */
  ghost predicate IsRunningAnswer(s: System, cutoff: int, limit: int, ids: seq<nat>) {
    && Distinct(ids)
    && (forall id :: id in ids ==> StaleRunning(s, cutoff, id))
    && |ids| <= limit
    && (forall id :: StaleRunning(s, cutoff, id) && id !in ids ==>
          |ids| == limit && forall x :: x in ids ==> s.jobs[x].lockedAt.value <= s.jobs[id].lockedAt.value)
  }

  predicate Before(a: Job, b: Job) {
    a.priority > b.priority || (a.priority == b.priority && a.scheduledAt <= b.scheduledAt)
  }

  /** `ids` answers the query for stale pending jobs: highest priority, then oldest, at most `limit`. */
  ghost predicate IsPendingAnswer(s: System, cutoff: int, limit: int, ids: seq<nat>) {
    && Distinct(ids)
    && (forall id :: id in ids ==> StalePending(s, cutoff, id))
    && |ids| <= limit
    && (forall id :: StalePending(s, cutoff, id) && id !in ids ==>
          |ids| == limit && forall x :: x in ids ==> Before(s.jobs[x], s.jobs[id]))
  }

  /** Fail a running row whose lease is stale; otherwise bring the job back in line with its row. */
  function TimeoutOne(s: System, id: nat): System {
    if id !in s.jobs || id !in s.rows then s
    else if s.rows[id].status == Running then
      s.(rows := s.rows[id := s.rows[id].(status := Failed)], jobs := CloseJob(s.jobs, id, Failed),
         log := s.log + [Revoked(id, ByTimeout)])
    else
      s.(jobs := CloseJob(s.jobs, id, s.rows[id].status))
  }

  function TimeoutAll(s: System, ids: seq<nat>): System
    decreases |ids|
  {
    if ids == [] then s else TimeoutAll(TimeoutOne(s, ids[0]), ids[1..])
  }

  function RescheduleOne(s: System, id: nat): System {
    if id !in s.jobs then s
    else s.(jobs := s.jobs[id := s.jobs[id].(scheduledAt := s.now)], owed := s.owed + multiset{id})
  }

  function RescheduleAll(s: System, ids: seq<nat>): System
    decreases |ids|
  {
    if ids == [] then s else RescheduleAll(RescheduleOne(s, ids[0]), ids[1..])
  }

  function SweepStep(s: System, stale: seq<nat>, waiting: seq<nat>): System {
    RescheduleAll(TimeoutAll(s, stale), waiting)
  }

  /** Hand an owed message to the broker. */
  function Emit(s: System, id: nat, publication: Publication): System {
    var s := s.(owed := s.owed - multiset{id});
    if publication.GotThrough() then s.(bag := s.bag + multiset{id}) else s
  }

  function CloseUnqueued(s: System, id: nat): System {
    if id in s.rows && s.rows[id].status == Pending then
      s.(rows := s.rows[id := s.rows[id].(status := Failed)], jobs := CloseJob(s.jobs, id, Failed),
         log := s.log + [Revoked(id, ByQueueFailure)])
    else s
  }

  /** The sweeper publishes outside its transaction; a failure closes the row if it is still pending. */
  function RepublishStep(s: System, id: nat, publication: Publication): System {
    var emitted := Emit(s, id, publication);
    if publication == Published then emitted else CloseUnqueued(emitted, id)
  }

  // ----- Runs -----

  /** What the environment allows; every request with a guard of its own is always allowed. */
  ghost predicate Enabled(s: System, a: Action) {
    match a
    case Deliver(id, _) => id in s.bag
    case Lose(id) => id in s.bag
    case Republish(id, _) => id in s.owed
    case Sweep(stale, waiting, limit, pendingAfter, runningAfter) =>
      && IsRunningAnswer(s, RunningCutoff(s.now, runningAfter), ClampLimit(limit), stale)
      && IsPendingAnswer(TimeoutAll(s, stale), PendingCutoff(s.now, pendingAfter), ClampLimit(limit), waiting)
    case _ => true
  }

  function Step(s: System, a: Action): System {
    match a
    case Tick(seconds) => s.(now := s.now + seconds)
    case Create(publication) => CreateStep(s, publication)
    case Edit(id, publication) => EditStep(s, id, publication)
    case Retry(id, publication) => RetryStep(s, id, publication)
    case Cancel(id) => CancelStep(s, id)
    case Delete(id) => DeleteStep(s, id)
    case Deliver(id, redelivered) => DeliverStep(s, id, redelivered)
    case Lose(id) => s.(bag := s.bag - multiset{id})
    case Commit(w) => CommitStep(s, w)
    case Fail(w) => FailStep(s, w)
    case Crash(w) => s.(workers := s.workers - {w})
    case Sweep(stale, waiting, _, _, _) => SweepStep(s, stale, waiting)
    case Republish(id, publication) => RepublishStep(s, id, publication)
  }

  ghost predicate IsRun(s: System, actions: seq<Action>)
    decreases |actions|
  {
    actions == [] || (Enabled(s, actions[0]) && IsRun(Step(s, actions[0]), actions[1..]))
  }

  function After(s: System, actions: seq<Action>): System
    decreases |actions|
  {
    if actions == [] then s else After(Step(s, actions[0]), actions[1..])
  }
}
