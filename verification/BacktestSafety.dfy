/** Safety of the backtest queue over every run: the state invariant and the history of claims and commits. */
module BacktestSafety {
  import opened Options
  import opened BacktestProtocol

  // ----- The state invariant -----

  /** Job and row agree, the lock is held exactly while running, results exist exactly on completed rows. */
  ghost predicate RowOk(s: System, id: nat) {
    && (id in s.rows <==> id in s.jobs)
    && (id in s.rows ==>
          && id < s.nextId
          && s.jobs[id].status == s.rows[id].status
          && s.jobs[id].priority == 5
          && s.jobs[id].scheduledAt <= s.now
          && (s.jobs[id].lockedAt.Some? <==> s.rows[id].status == Running)
          && (s.rows[id].outcome.Some? <==> s.rows[id].status == Completed))
  }

  ghost predicate StateOk(s: System) {
    forall id :: RowOk(s, id)
  }

  // ----- The history invariant -----

  /** Past claims concern known ids and workers, and versions the row has reached; a pending row is unclaimed. */
  ghost predicate ClaimOk(s: System, e: Event) {
    e.Claimed? ==>
      && e.id < s.nextId && e.worker < s.nextWorker
      && (e.id in s.rows ==>
            && e.version <= s.rows[e.id].version
            && (s.rows[e.id].status == Pending ==> e.version < s.rows[e.id].version))
  }

  /** A committed backtest is completed, at the committed version, with the committer's results. */
  ghost predicate CommitOk(s: System, e: Event) {
    e.Committed? ==>
      && e.id < s.nextId
      && (e.id in s.rows ==> s.rows[e.id] == Backtest(Completed, e.version, Some(Outcome(e.version, e.worker))))
  }

  /** The claim can no longer pass the fence. */
  ghost predicate Closed(s: System, e: Event)
    requires e.Claimed?
  {
    e.id in s.rows ==>
      || e.version < s.rows[e.id].version
      || (e.version == s.rows[e.id].version && s.rows[e.id].status.Retryable())
  }

  ghost predicate EventsOk(s: System) {
    && (forall i :: 0 <= i < |s.log| ==> ClaimOk(s, s.log[i]))
    && (forall i :: 0 <= i < |s.log| ==> CommitOk(s, s.log[i]))
  }

  ghost predicate RevokedOk(s: System) {
    forall i, k :: 0 <= i < k < |s.log| && s.log[i].Claimed? && s.log[k].Revoked? && s.log[k].id == s.log[i].id ==>
      Closed(s, s.log[i])
  }

  ghost predicate WorkersOk(s: System) {
    forall w :: w in s.workers ==> Claimed(s.workers[w].id, s.workers[w].version, w) in s.log
  }

  /** A completed row records a commit. */
  ghost predicate ResultsOk(s: System) {
    forall id :: id in s.rows && s.rows[id].status == Completed ==>
      s.rows[id].outcome.Some? && s.rows[id].outcome.value.version == s.rows[id].version
      && Committed(id, s.rows[id].version, s.rows[id].outcome.value.worker) in s.log
  }

  // ----- What is promised of a history -----

  /** Each (backtest, version) is claimed at most once, and each worker claims once. */
  ghost predicate ClaimedOnce(log: seq<Event>) {
    forall i, j :: 0 <= i < j < |log| && log[i].Claimed? && log[j].Claimed? ==>
      log[i].worker != log[j].worker && (log[i].id != log[j].id || log[i].version != log[j].version)
  }

  /** At most one commit for a backtest, at whatever version. */
  ghost predicate CommittedOnce(log: seq<Event>) {
    forall i, j :: 0 <= i < j < |log| && log[i].Committed? && log[j].Committed? ==> log[i].id != log[j].id
  }

  /** Every commit is by a worker that claimed exactly that backtest and version before. */
  ghost predicate CommitsFollowClaims(log: seq<Event>) {
    forall j :: 0 <= j < |log| && log[j].Committed? ==>
      Claimed(log[j].id, log[j].version, log[j].worker) in log[..j]
  }

  /** No worker commits after a cancel, timeout, edit, retry, queue failure or delete that followed its claim. */
  ghost predicate NoCommitAfterRevocation(log: seq<Event>) {
    forall i, k, j :: 0 <= i < k < j < |log| && log[i].Claimed? && log[k].Revoked? && log[k].id == log[i].id ==>
      log[j] != Committed(log[i].id, log[i].version, log[i].worker)
  }

  ghost predicate HistorySafe(log: seq<Event>) {
    ClaimedOnce(log) && CommittedOnce(log) && CommitsFollowClaims(log) && NoCommitAfterRevocation(log)
  }

  ghost predicate Inv(s: System) {
    && StateOk(s) && EventsOk(s) && RevokedOk(s) && WorkersOk(s) && ResultsOk(s) && HistorySafe(s.log)
  }

  // ----- Preservation -----

  lemma AppendedPrefix(log: seq<Event>, e: Event, j: nat)
    requires j <= |log|
    ensures (log + [e])[..j] == log[..j]
  {
  }

  /** Appending an event keeps the history safe when a claim is new, and a commit is first, own and unrevoked. */
  lemma AppendKeepsHistory(log: seq<Event>, e: Event)
    requires HistorySafe(log)
    requires e.Claimed? ==> forall i :: 0 <= i < |log| && log[i].Claimed? ==>
               log[i].worker != e.worker && (log[i].id != e.id || log[i].version != e.version)
    requires e.Committed? ==> Claimed(e.id, e.version, e.worker) in log
    requires e.Committed? ==> forall i :: 0 <= i < |log| && log[i].Committed? ==> log[i].id != e.id
    requires e.Committed? ==> forall i, k :: 0 <= i < k < |log| && log[i].Claimed? && log[k].Revoked?
                                              && log[k].id == log[i].id ==>
               e != Committed(log[i].id, log[i].version, log[i].worker)
    ensures HistorySafe(log + [e])
  {
    var l := log + [e];
    assert ClaimedOnce(l);
    assert CommittedOnce(l);
    forall j | 0 <= j < |l| && l[j].Committed?
      ensures Claimed(l[j].id, l[j].version, l[j].worker) in l[..j]
    {
      AppendedPrefix(log, e, j);
      if j == |log| { assert log[..j] == log; }
    }
    assert NoCommitAfterRevocation(l);
  }

  /** Facts about past events survive appending one that satisfies them itself. */
  lemma AppendKeepsEvents(s: System, t: System, e: Event)
    requires EventsOk(t.(log := s.log)) && t.log == s.log + [e] && ClaimOk(t, e) && CommitOk(t, e)
    ensures EventsOk(t)
  {
    forall i | 0 <= i < |t.log| ensures ClaimOk(t, t.log[i]) && CommitOk(t, t.log[i]) {
      if i < |s.log| {
        var u := t.(log := s.log);
        assert ClaimOk(u, u.log[i]) && CommitOk(u, u.log[i]);
      }
    }
  }

  /** How a step may change one row. */
  ghost predicate RowMove(s: System, t: System, id: nat) {
    || id !in t.rows
    || (id !in s.rows && s.nextId <= id)
    || (id in s.rows
        && s.rows[id].version <= t.rows[id].version
        && (t.rows[id].status == Pending ==> s.rows[id].status == Pending || s.rows[id].version < t.rows[id].version)
        && (s.rows[id].status.Retryable() && s.rows[id].version == t.rows[id].version ==>
              t.rows[id].status == s.rows[id].status)
        && (s.rows[id].status == Completed ==> t.rows[id] == s.rows[id]))
  }

  /** A step that appends no event keeps the invariant when rows move legally and results stay put. */
  lemma QuietStep(s: System, t: System)
    requires Inv(s) && StateOk(t) && t.log == s.log
    requires s.nextId <= t.nextId && s.nextWorker <= t.nextWorker
    requires forall id :: RowMove(s, t, id)
    requires forall w :: w in t.workers ==> w in s.workers && t.workers[w] == s.workers[w]
    requires forall id :: id in t.rows && t.rows[id].status == Completed ==> id in s.rows && t.rows[id] == s.rows[id]
    ensures Inv(t)
  {
    forall i | 0 <= i < |t.log| ensures ClaimOk(t, t.log[i]) && CommitOk(t, t.log[i]) {
      assert ClaimOk(s, s.log[i]) && CommitOk(s, s.log[i]);
      if !t.log[i].Revoked? { assert RowMove(s, t, t.log[i].id); }
    }
    forall i, k | 0 <= i < k < |t.log| && t.log[i].Claimed? && t.log[k].Revoked? && t.log[k].id == t.log[i].id
      ensures Closed(t, t.log[i])
    {
      assert Closed(s, s.log[i]);
      assert ClaimOk(s, s.log[i]) && ClaimOk(t, t.log[i]);
      assert RowMove(s, t, t.log[i].id);
    }
  }

  /** The same for a step that appends one revocation, which must close every claim on that backtest. */
  lemma RevokingStep(s: System, t: System, id: nat, cause: Cause)
    requires Inv(s) && StateOk(t) && t.log == s.log + [Revoked(id, cause)]
    requires s.nextId <= t.nextId && s.nextWorker <= t.nextWorker
    requires forall x :: RowMove(s, t, x)
    requires forall w :: w in t.workers ==> w in s.workers && t.workers[w] == s.workers[w]
    requires forall x :: x in t.rows && t.rows[x].status == Completed ==> x in s.rows && t.rows[x] == s.rows[x]
    requires forall i :: 0 <= i < |s.log| && s.log[i].Claimed? && s.log[i].id == id ==> Closed(t, s.log[i])
    ensures Inv(t)
  {
    var u := t.(log := s.log);
    forall x ensures RowOk(u, x) { assert RowOk(t, x); }
    forall x ensures RowMove(s, u, x) { assert RowMove(s, t, x); }
    QuietStep(s, u);
    AppendKeepsEvents(s, t, Revoked(id, cause));
    AppendKeepsHistory(s.log, Revoked(id, cause));
    RevokedAfterAppend(u, t, id, cause);
    assert forall w :: w in t.workers ==> Claimed(t.workers[w].id, t.workers[w].version, w) in u.log;
  }

  lemma RevokedAfterAppend(u: System, t: System, id: nat, cause: Cause)
    requires RevokedOk(u) && t == u.(log := u.log + [Revoked(id, cause)])
    requires forall i :: 0 <= i < |u.log| && u.log[i].Claimed? && u.log[i].id == id ==> Closed(t, u.log[i])
    ensures RevokedOk(t)
  {
    forall i, k | 0 <= i < k < |t.log| && t.log[i].Claimed? && t.log[k].Revoked? && t.log[k].id == t.log[i].id
      ensures Closed(t, t.log[i])
    {
      assert t.log[i] == u.log[i];
      if k < |u.log| { assert Closed(u, u.log[i]); }
    }
  }

  lemma QueueKeepsRow(s: System, id: nat, publication: Publication)
    requires id in s.rows && id < s.nextId && s.rows[id].status == Pending && s.rows[id].outcome.None?
    requires forall x :: x != id ==> RowOk(s, x)
    ensures StateOk(Queue(s, id, publication))
  {
    var t := Queue(s, id, publication);
    forall x ensures RowOk(t, x) {
      if x != id { assert RowOk(s, x); }
    }
  }

  lemma CreateKeeps(s: System, publication: Publication)
    requires Inv(s)
    ensures Inv(CreateStep(s, publication))
  {
    var t := CreateStep(s, publication);
    var u := s.(nextId := s.nextId + 1, rows := s.rows[s.nextId := Backtest(Pending, 1, None)]);
    forall x | x != s.nextId ensures RowOk(u, x) { assert RowOk(s, x); }
    assert RowOk(s, s.nextId);
    QueueKeepsRow(u, s.nextId, publication);
    QuietStep(s, t);
  }

  /** A new version that is queued closes every claim of an older one. */
  lemma {:induction false} NewVersionKeeps(s: System, t: System, id: nat, cause: Cause, publication: Publication)
    requires Inv(s) && id in s.rows && s.rows[id].status != Completed
    requires t == Queue(s.(rows := s.rows[id := Backtest(Pending, s.rows[id].version + 1, None)],
                           log := s.log + [Revoked(id, cause)]), id, publication)
    ensures Inv(t)
  {
    var u := s.(rows := s.rows[id := Backtest(Pending, s.rows[id].version + 1, None)],
                log := s.log + [Revoked(id, cause)]);
    forall x | x != id ensures RowOk(u, x) { assert RowOk(s, x); }
    assert RowOk(s, id);
    QueueKeepsRow(u, id, publication);
    forall i | 0 <= i < |s.log| && s.log[i].Claimed? && s.log[i].id == id ensures Closed(t, s.log[i]) {
      assert ClaimOk(s, s.log[i]);
    }
    RevokingStep(s, t, id, cause);
  }

  lemma EditKeeps(s: System, id: nat, publication: Publication)
    requires Inv(s)
    ensures Inv(EditStep(s, id, publication))
  {
    if id in s.rows && s.rows[id].status == Pending {
      NewVersionKeeps(s, EditStep(s, id, publication), id, ByEdit, publication);
    }
  }

  lemma RetryableHasNoResults(s: System, id: nat)
    requires StateOk(s) && id in s.rows && s.rows[id].status.Retryable()
    ensures s.rows[id].outcome == None
  {
    assert RowOk(s, id);
  }

  lemma RetryKeeps(s: System, id: nat, publication: Publication)
    requires Inv(s)
    ensures Inv(RetryStep(s, id, publication))
  {
    if id in s.rows && s.rows[id].status.Retryable() {
      RetryableHasNoResults(s, id);
      NewVersionKeeps(s, RetryStep(s, id, publication), id, ByRetry, publication);
    }
  }

  lemma CancelKeeps(s: System, id: nat)
    requires Inv(s)
    ensures Inv(CancelStep(s, id))
  {
    if id in s.rows && s.rows[id].status.Cancellable() {
      var t := CancelStep(s, id);
      forall x ensures RowOk(t, x) { assert RowOk(s, x) && RowOk(s, id); }
      forall i | 0 <= i < |s.log| && s.log[i].Claimed? && s.log[i].id == id ensures Closed(t, s.log[i]) {
        assert ClaimOk(s, s.log[i]);
      }
      RevokingStep(s, t, id, ByCancel);
    }
  }

  lemma DeleteKeeps(s: System, id: nat)
    requires Inv(s)
    ensures Inv(DeleteStep(s, id))
  {
    if id in s.rows {
      var t := DeleteStep(s, id);
      forall x ensures RowOk(t, x) { assert RowOk(s, x); }
      RevokingStep(s, t, id, ByDelete);
    }
  }

  lemma LeavingKeeps(s: System, w: nat)
    requires Inv(s)
    ensures Inv(s.(workers := s.workers - {w}))
  {
    var t := s.(workers := s.workers - {w});
    forall x ensures RowOk(t, x) { assert RowOk(s, x); }
    QuietStep(s, t);
  }

  lemma FencedFailKeeps(s: System, c: Claim, t: System)
    requires Inv(s) && Fenced(s, c)
    requires t == s.(rows := s.rows[c.id := s.rows[c.id].(status := Failed)], jobs := CloseJob(s.jobs, c.id, Failed))
    ensures Inv(t)
  {
    forall x ensures RowOk(t, x) { assert RowOk(s, x); }
    QuietStep(s, t);
  }

  lemma FailKeeps(s: System, w: nat)
    requires Inv(s)
    ensures Inv(FailStep(s, w))
  {
    if w in s.workers {
      var u := s.(workers := s.workers - {w});
      LeavingKeeps(s, w);
      if Fenced(u, s.workers[w]) { FencedFailKeeps(u, s.workers[w], FailStep(s, w)); }
    }
  }

  lemma TimeoutKeeps(s: System, id: nat)
    requires Inv(s)
    ensures Inv(TimeoutOne(s, id))
  {
    var t := TimeoutOne(s, id);
    if id in s.jobs && id in s.rows && s.rows[id].status == Running {
      forall x ensures RowOk(t, x) { assert RowOk(s, x); }
      forall i | 0 <= i < |s.log| && s.log[i].Claimed? && s.log[i].id == id ensures Closed(t, s.log[i]) {
        assert ClaimOk(s, s.log[i]);
      }
      RevokingStep(s, t, id, ByTimeout);
    } else {
      forall x ensures RowOk(t, x) { assert RowOk(s, x); }
      QuietStep(s, t);
    }
  }

  lemma {:induction false} TimeoutAllKeeps(s: System, ids: seq<nat>)
    requires Inv(s)
    ensures Inv(TimeoutAll(s, ids))
    decreases |ids|
  {
    if ids != [] {
      TimeoutKeeps(s, ids[0]);
      TimeoutAllKeeps(TimeoutOne(s, ids[0]), ids[1..]);
    }
  }

  lemma RescheduleKeeps(s: System, id: nat)
    requires Inv(s)
    ensures Inv(RescheduleOne(s, id))
  {
    var t := RescheduleOne(s, id);
    forall x ensures RowOk(t, x) { assert RowOk(s, x); }
    QuietStep(s, t);
  }

  lemma {:induction false} RescheduleAllKeeps(s: System, ids: seq<nat>)
    requires Inv(s)
    ensures Inv(RescheduleAll(s, ids))
    decreases |ids|
  {
    if ids != [] {
      RescheduleKeeps(s, ids[0]);
      RescheduleAllKeeps(RescheduleOne(s, ids[0]), ids[1..]);
    }
  }

  /** The invariant says nothing about messages. */
  lemma MessagesDoNotMatter(s: System, bag: multiset<nat>, owed: multiset<nat>)
    requires Inv(s)
    ensures Inv(s.(bag := bag, owed := owed))
  {
    var t := s.(bag := bag, owed := owed);
    forall x ensures RowOk(t, x) { assert RowOk(s, x); }
    QuietStep(s, t);
  }

  lemma CloseUnqueuedKeeps(s: System, id: nat)
    requires Inv(s)
    ensures Inv(CloseUnqueued(s, id))
  {
    var t := CloseUnqueued(s, id);
    if id in s.rows && s.rows[id].status == Pending {
      forall x ensures RowOk(t, x) { assert RowOk(s, x); }
      forall i | 0 <= i < |s.log| && s.log[i].Claimed? && s.log[i].id == id ensures Closed(t, s.log[i]) {
        assert ClaimOk(s, s.log[i]);
      }
      RevokingStep(s, t, id, ByQueueFailure);
    }
  }

  lemma RepublishKeeps(s: System, id: nat, publication: Publication)
    requires Inv(s)
    ensures Inv(RepublishStep(s, id, publication))
  {
    var emitted := Emit(s, id, publication);
    MessagesDoNotMatter(s, emitted.bag, emitted.owed);
    CloseUnqueuedKeeps(emitted, id);
  }

  /** A claim takes a pending version that nobody has claimed. */
  lemma ClaimKeeps(s: System, id: nat)
    requires Inv(s)
    ensures Inv(ClaimStep(s, id))
  {
    var t := ClaimStep(s, id);
    forall x ensures RowOk(t, x) { assert RowOk(s, x); }
    if id in s.rows && s.rows[id].status == Pending {
      var e := Claimed(id, s.rows[id].version, s.nextWorker);
      var u := t.(log := s.log);
      forall i | 0 <= i < |s.log| ensures ClaimOk(u, s.log[i]) && CommitOk(u, s.log[i]) {
        assert ClaimOk(s, s.log[i]) && CommitOk(s, s.log[i]);
      }
      assert RowOk(s, id);
      AppendKeepsEvents(s, t, e);
      forall i | 0 <= i < |s.log| && s.log[i].Claimed?
        ensures s.log[i].worker != e.worker && (s.log[i].id != e.id || s.log[i].version != e.version)
      {
        assert ClaimOk(s, s.log[i]);
      }
      AppendKeepsHistory(s.log, e);
      ClosedAfterAppend(s, t, e);
      assert t.log[|s.log|] == e;
    }
  }

  lemma ClosedAfterAppend(s: System, t: System, e: Event)
    requires RevokedOk(s) && EventsOk(s) && t.log == s.log + [e] && !e.Revoked?
    requires forall id :: id in t.rows ==> id in s.rows && s.rows[id].version == t.rows[id].version
    requires forall id :: id in t.rows && s.rows[id].status.Retryable() ==> t.rows[id] == s.rows[id]
    ensures RevokedOk(t)
  {
    forall i, k | 0 <= i < k < |t.log| && t.log[i].Claimed? && t.log[k].Revoked? && t.log[k].id == t.log[i].id
      ensures Closed(t, t.log[i])
    {
      assert k < |s.log| && t.log[i] == s.log[i] && t.log[k] == s.log[k];
      assert Closed(s, s.log[i]);
    }
  }

  /** Passing the fence means nothing has been committed for the backtest and nothing has revoked the claim. */
  lemma FenceMeansUnrevoked(s: System, c: Claim, w: nat)
    requires Inv(s) && Fenced(s, c)
    ensures forall i :: 0 <= i < |s.log| && s.log[i].Committed? ==> s.log[i].id != c.id
    ensures forall i, k :: 0 <= i < k < |s.log| && s.log[i].Claimed? && s.log[k].Revoked?
                           && s.log[k].id == s.log[i].id ==>
              Committed(c.id, c.version, w) != Committed(s.log[i].id, s.log[i].version, s.log[i].worker)
  {
    forall i | 0 <= i < |s.log| && s.log[i].Committed? ensures s.log[i].id != c.id {
      assert CommitOk(s, s.log[i]);
    }
    forall i, k | 0 <= i < k < |s.log| && s.log[i].Claimed? && s.log[k].Revoked? && s.log[k].id == s.log[i].id
      ensures Committed(c.id, c.version, w) != Committed(s.log[i].id, s.log[i].version, s.log[i].worker)
    {
      assert Closed(s, s.log[i]);
    }
  }

  lemma CommitKeepsEvents(s: System, w: nat)
    requires Inv(s) && w in s.workers && Fenced(s, s.workers[w])
    ensures EventsOk(CommitStep(s, w))
  {
    var t := CommitStep(s, w);
    var c := s.workers[w];
    FenceMeansUnrevoked(s, c, w);
    assert RowOk(s, c.id);
    forall i | 0 <= i < |s.log| ensures ClaimOk(t.(log := s.log), s.log[i]) && CommitOk(t.(log := s.log), s.log[i]) {
      assert ClaimOk(s, s.log[i]) && CommitOk(s, s.log[i]);
    }
    AppendKeepsEvents(s, t, Committed(c.id, c.version, w));
  }

  lemma CommitKeeps(s: System, w: nat)
    requires Inv(s)
    ensures Inv(CommitStep(s, w))
  {
    var t := CommitStep(s, w);
    if w in s.workers && Fenced(s, s.workers[w]) {
      var c := s.workers[w];
      forall x ensures RowOk(t, x) { assert RowOk(s, x); }
      var e := Committed(c.id, c.version, w);
      FenceMeansUnrevoked(s, c, w);
      CommitKeepsEvents(s, w);
      AppendKeepsHistory(s.log, e);
      ClosedAfterAppend(s, t, e);
    } else {
      LeavingKeeps(s, w);
    }
  }

  lemma DeliverKeeps(s: System, id: nat, redelivered: bool)
    requires Inv(s)
    ensures Inv(DeliverStep(s, id, redelivered))
  {
    MessagesDoNotMatter(s, Receive(s, id, redelivered).bag, s.owed);
    ClaimKeeps(Receive(s, id, redelivered), id);
  }

  lemma TickKeeps(s: System, seconds: nat)
    requires Inv(s)
    ensures Inv(s.(now := s.now + seconds))
  {
    var t := s.(now := s.now + seconds);
    forall x ensures RowOk(t, x) { assert RowOk(s, x); }
    QuietStep(s, t);
  }

  lemma UserStepKeeps(s: System, a: Action)
    requires Inv(s) && (a.Create? || a.Edit? || a.Retry? || a.Cancel? || a.Delete?)
    ensures Inv(Step(s, a))
  {
    match a
    case Create(publication) => CreateKeeps(s, publication);
    case Edit(id, publication) => EditKeeps(s, id, publication);
    case Retry(id, publication) => RetryKeeps(s, id, publication);
    case Cancel(id) => CancelKeeps(s, id);
    case Delete(id) => DeleteKeeps(s, id);
  }

  lemma WorkerStepKeeps(s: System, a: Action)
    requires Inv(s) && (a.Deliver? || a.Lose? || a.Commit? || a.Fail? || a.Crash?)
    ensures Inv(Step(s, a))
  {
    match a
    case Deliver(id, redelivered) => DeliverKeeps(s, id, redelivered);
    case Lose(_) => MessagesDoNotMatter(s, Step(s, a).bag, s.owed);
    case Commit(w) => CommitKeeps(s, w);
    case Fail(w) => FailKeeps(s, w);
    case Crash(w) => LeavingKeeps(s, w);
  }

  /** Every step keeps the invariant, whatever the environment does. */
  lemma StepKeeps(s: System, a: Action)
    requires Inv(s)
    ensures Inv(Step(s, a))
  {
    match a
    case Tick(seconds) => TickKeeps(s, seconds);
    case Sweep(stale, waiting, _, _, _) =>
      TimeoutAllKeeps(s, stale);
      RescheduleAllKeeps(TimeoutAll(s, stale), waiting);
    case Republish(id, publication) => RepublishKeeps(s, id, publication);
    case _ =>
      if a.Deliver? || a.Lose? || a.Commit? || a.Fail? || a.Crash? {
        WorkerStepKeeps(s, a);
      } else {
        UserStepKeeps(s, a);
      }
  }

  lemma {:induction false} RunKeeps(s: System, actions: seq<Action>)
    requires Inv(s)
    ensures Inv(After(s, actions))
    decreases |actions|
  {
    if actions != [] {
      StepKeeps(s, actions[0]);
      RunKeeps(Step(s, actions[0]), actions[1..]);
    }
  }

  // ----- Main results -----

  /** Claims and commits over every run. */
  lemma {:induction false} EveryRunIsSafe(actions: seq<Action>)
    ensures HistorySafe(After(Init(), actions).log)
  {
    RunKeeps(Init(), actions);
  }

  /**
    Every reachable row: its job mirrors it, the lock is held exactly while it runs, and trades and
    statistics exist exactly when it is completed, computed by the one committer of its current version,
    which claimed that version before.
   */
  lemma {:induction false} EveryReachableRow(actions: seq<Action>, id: nat)
    ensures var s := After(Init(), actions);
      && RowOk(s, id)
      && (id in s.rows && s.rows[id].outcome.Some? ==>
            var o := s.rows[id].outcome.value;
            && o.version == s.rows[id].version
            && Claimed(id, o.version, o.worker) in s.log
            && Committed(id, o.version, o.worker) in s.log)
  {
    var s := After(Init(), actions);
    RunKeeps(Init(), actions);
    assert RowOk(s, id);
    if id in s.rows && s.rows[id].outcome.Some? {
      var o := s.rows[id].outcome.value;
      var j :| 0 <= j < |s.log| && s.log[j] == Committed(id, o.version, o.worker);
      assert Claimed(id, o.version, o.worker) in s.log[..j];
    }
  }

  /**
    What a step other than a sweep may do to one backtest: a completed row stays as it is, a job that is
    pending and not newly scheduled was so before, and a pending job stays as it is, leaves pending, or
    gets a message.
   */
  ghost predicate RowStep(s: System, t: System, x: nat) {
    && (x in s.rows && s.rows[x].status == Completed ==> x !in t.rows || t.rows[x] == s.rows[x])
    && (x in t.jobs && t.jobs[x].status == Pending && t.jobs[x].scheduledAt < s.now ==>
          x in s.jobs && t.jobs[x] == s.jobs[x] && x in s.rows && s.rows[x].status == Pending)
    && (x in s.jobs && s.jobs[x].status == Pending && x in s.rows && s.rows[x].status == Pending ==>
          || x !in t.rows || t.rows[x].status != Pending
          || t.bag[x] > s.bag[x]
          || (x in t.jobs && t.jobs[x] == s.jobs[x]))
  }

  ghost predicate RowKept(s: System, t: System, x: nat) {
    x in s.rows ==> x in t.rows
  }

  lemma QueueRow(s: System, id: nat, publication: Publication, x: nat)
    requires id in s.rows && s.rows[id].status == Pending && (x != id ==> RowOk(s, x))
    ensures RowStep(s, Queue(s, id, publication), x) && RowKept(s, Queue(s, id, publication), x)
    ensures x != id ==> (x in Queue(s, id, publication).rows <==> x in s.rows)
  {
  }

  lemma CreateRow(s: System, publication: Publication, x: nat)
    requires RowOk(s, x) && RowOk(s, s.nextId)
    ensures RowStep(s, CreateStep(s, publication), x) && RowKept(s, CreateStep(s, publication), x)
  {
    var u := s.(nextId := s.nextId + 1, rows := s.rows[s.nextId := Backtest(Pending, 1, None)]);
    QueueRow(u, s.nextId, publication, x);
  }

  lemma EditRow(s: System, id: nat, publication: Publication, x: nat)
    requires RowOk(s, x)
    ensures RowStep(s, EditStep(s, id, publication), x) && RowKept(s, EditStep(s, id, publication), x)
  {
    if id in s.rows && s.rows[id].status == Pending {
      var u := s.(rows := s.rows[id := Backtest(Pending, s.rows[id].version + 1, None)],
                  log := s.log + [Revoked(id, ByEdit)]);
      QueueRow(u, id, publication, x);
    }
  }

  lemma RetryRow(s: System, id: nat, publication: Publication, x: nat)
    requires RowOk(s, x)
    ensures RowStep(s, RetryStep(s, id, publication), x) && RowKept(s, RetryStep(s, id, publication), x)
  {
    if id in s.rows && s.rows[id].status.Retryable() {
      var u := s.(rows := s.rows[id := s.rows[id].(status := Pending, version := s.rows[id].version + 1)],
                  log := s.log + [Revoked(id, ByRetry)]);
      QueueRow(u, id, publication, x);
    }
  }

  lemma ClaimRow(s: System, id: nat, x: nat)
    requires RowOk(s, x)
    ensures RowStep(s, ClaimStep(s, id), x) && RowKept(s, ClaimStep(s, id), x)
  {
  }

  lemma DeliverRow(s: System, id: nat, redelivered: bool, x: nat)
    requires RowOk(s, x)
    ensures RowStep(s, DeliverStep(s, id, redelivered), x) && RowKept(s, DeliverStep(s, id, redelivered), x)
  {
    ClaimRow(Receive(s, id, redelivered), id, x);
  }

  lemma EndRow(s: System, w: nat, x: nat)
    requires RowOk(s, x)
    ensures RowStep(s, CommitStep(s, w), x) && RowKept(s, CommitStep(s, w), x)
    ensures RowStep(s, FailStep(s, w), x) && RowKept(s, FailStep(s, w), x)
  {
  }

  lemma CloseUnqueuedRow(s: System, id: nat, x: nat)
    requires RowOk(s, x)
    ensures RowStep(s, CloseUnqueued(s, id), x) && RowKept(s, CloseUnqueued(s, id), x)
  {
  }

  lemma RepublishRow(s: System, id: nat, publication: Publication, x: nat)
    requires RowOk(s, x)
    ensures RowStep(s, RepublishStep(s, id, publication), x) && RowKept(s, RepublishStep(s, id, publication), x)
  {
    CloseUnqueuedRow(Emit(s, id, publication), id, x);
  }

  lemma WithdrawRow(s: System, id: nat, x: nat)
    requires RowOk(s, x)
    ensures RowStep(s, CancelStep(s, id), x) && RowKept(s, CancelStep(s, id), x)
    ensures RowStep(s, DeleteStep(s, id), x) && (x != id ==> RowKept(s, DeleteStep(s, id), x))
  {
  }

  lemma StepRow(s: System, a: Action, x: nat)
    requires RowOk(s, x) && RowOk(s, s.nextId) && !a.Sweep?
    ensures RowStep(s, Step(s, a), x) && (a != Delete(x) ==> RowKept(s, Step(s, a), x))
  {
    match a
    case Tick(_) =>
    case Create(p) => CreateRow(s, p, x);
    case Edit(id, p) => EditRow(s, id, p, x);
    case Retry(id, p) => RetryRow(s, id, p, x);
    case Cancel(id) => WithdrawRow(s, id, x);
    case Delete(id) => WithdrawRow(s, id, x);
    case Deliver(id, redelivered) => DeliverRow(s, id, redelivered, x);
    case Lose(_) =>
    case Commit(w) => EndRow(s, w, x);
    case Fail(w) => EndRow(s, w, x);
    case Crash(_) =>
    case Republish(id, p) => RepublishRow(s, id, p, x);
  }

  lemma StepSparesCompleted(s: System, a: Action, id: nat)
    requires RowOk(s, id) && RowOk(s, s.nextId)
    requires id in s.rows && s.rows[id].status == Completed && a != Delete(id)
    ensures id in Step(s, a).rows && Step(s, a).rows[id] == s.rows[id]
  {
    if a.Sweep? {
      TimeoutsSpareCompleted(s, a.stale, id);
      ReschedulesSpareRows(TimeoutAll(s, a.stale), a.waiting);
    } else {
      StepRow(s, a, id);
    }
  }

  /** Completed is absorbing: only deleting the backtest touches a completed row again. */
  lemma {:induction false} CompletedIsAbsorbing(s: System, actions: seq<Action>, id: nat)
    requires Inv(s) && id in s.rows && s.rows[id].status == Completed
    requires Delete(id) !in actions
    ensures id in After(s, actions).rows && After(s, actions).rows[id] == s.rows[id]
    decreases |actions|
  {
    if actions != [] {
      StepKeeps(s, actions[0]);
      assert RowOk(s, id) && RowOk(s, s.nextId);
      StepSparesCompleted(s, actions[0], id);
      CompletedIsAbsorbing(Step(s, actions[0]), actions[1..], id);
    }
  }

  lemma {:induction false} TimeoutsSpareCompleted(s: System, ids: seq<nat>, id: nat)
    requires id in s.rows && s.rows[id].status == Completed
    ensures id in TimeoutAll(s, ids).rows && TimeoutAll(s, ids).rows[id] == s.rows[id]
    decreases |ids|
  {
    if ids != [] {
      TimeoutsSpareCompleted(TimeoutOne(s, ids[0]), ids[1..], id);
    }
  }

  lemma {:induction false} ReschedulesSpareRows(s: System, ids: seq<nat>)
    ensures RescheduleAll(s, ids).rows == s.rows
    decreases |ids|
  {
    if ids != [] {
      ReschedulesSpareRows(RescheduleOne(s, ids[0]), ids[1..]);
    }
  }
}
