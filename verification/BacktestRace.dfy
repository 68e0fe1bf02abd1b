/**
  A finer view of one backtest: `_queue` writes `status = 'pending'` again, in a save of its own and
  without a new version, some time after the retry or edit that called it, and `failed` after that when
  publishing fails.  Other steps may come between.  Messages of earlier versions may be around and may be
  duplicated, so a claim may be attempted at any moment.
 */
module BacktestRace {
  import opened BacktestProtocol

  datatype Note = Claims(version: nat, worker: nat) | Commits(version: nat, worker: nat) | Bumps(version: nat) | Cancels

  /** `tails` calls of `_queue` have yet to write `pending`, `publishing` calls have written it and not returned. */
  datatype Race = Race(
    status: Status, version: nat, tails: nat, publishing: nat, workers: map<nat, nat>, nextWorker: nat, log: seq<Note>)

  datatype Move =
    | RetryHead          // failed or cancelled -> pending, version + 1
    | EditHead           // pending -> pending, version + 1
    | QueueTail          // the late write of `pending`
    | NoWorkerFails      // the late write of `failed` instead, without a worker to publish to
    | PublishReturns
    | PublishFails       // the late write of `failed` after that of `pending`
    | UserCancels
    | WorkerClaims
    | WorkerCommits(worker: nat)
    | WorkerFails(worker: nat)
    | SweepTimesOut

  /** A backtest that has failed before, with no call under way. */
  function Start(): Race {
    Race(Failed, 1, 0, 0, map[], 0, [])
  }

  function Bump(s: Race): Race {
    s.(status := Pending, version := s.version + 1, tails := s.tails + 1, log := s.log + [Bumps(s.version + 1)])
  }

  function Next(s: Race, m: Move): Race {
    match m
    case RetryHead => if s.status.Retryable() then Bump(s) else s
    case EditHead => if s.status == Pending then Bump(s) else s
    case QueueTail =>
      if s.tails > 0 then s.(status := Pending, tails := s.tails - 1, publishing := s.publishing + 1) else s
    case NoWorkerFails => if s.tails > 0 then s.(status := Failed, tails := s.tails - 1) else s
    case PublishReturns => if s.publishing > 0 then s.(publishing := s.publishing - 1) else s
    case PublishFails => if s.publishing > 0 then s.(status := Failed, publishing := s.publishing - 1) else s
    case UserCancels => if s.status.Cancellable() then s.(status := Cancelled, log := s.log + [Cancels]) else s
    case WorkerClaims =>
      if s.status == Pending then
        s.(status := Running, workers := s.workers[s.nextWorker := s.version], nextWorker := s.nextWorker + 1,
           log := s.log + [Claims(s.version, s.nextWorker)])
      else s
    case WorkerCommits(w) =>
      if w in s.workers && s.status == Running && s.workers[w] == s.version then
        s.(status := Completed, workers := s.workers - {w}, log := s.log + [Commits(s.version, w)])
      else s.(workers := s.workers - {w})
    case WorkerFails(w) =>
      if w in s.workers && s.status == Running && s.workers[w] == s.version then
        s.(status := Failed, workers := s.workers - {w})
      else s.(workers := s.workers - {w})
    case SweepTimesOut => if s.status == Running then s.(status := Failed) else s
  }

  function RunOf(s: Race, moves: seq<Move>): Race
    decreases |moves|
  {
    if moves == [] then s else RunOf(Next(s, moves[0]), moves[1..])
  }

  lemma {:induction false} RunOfAppend(s: Race, moves: seq<Move>, m: Move)
    ensures RunOf(s, moves + [m]) == Next(RunOf(s, moves), m)
    decreases |moves|
  {
    if moves == [] {
      assert [m][1..] == [];
      assert RunOf(s, [m]) == RunOf(Next(s, m), [m][1..]);
      assert moves + [m] == [m];
    } else {
      assert (moves + [m])[1..] == moves[1..] + [m];
      RunOfAppend(Next(s, moves[0]), moves[1..], m);
    }
  }

  ghost predicate EachVersionClaimedOnce(log: seq<Note>) {
    forall i, j :: 0 <= i < j < |log| && log[i].Claims? && log[j].Claims? ==> log[i].version != log[j].version
  }

  ghost predicate EachVersionCommittedOnce(log: seq<Note>) {
    forall i, j :: 0 <= i < j < |log| && log[i].Commits? && log[j].Commits? ==> log[i].version != log[j].version
  }

  /** No worker commits after a cancel that followed its claim. */
  ghost predicate NoCommitAfterCancel(log: seq<Note>) {
    forall i, k, j :: 0 <= i < k < j < |log| && log[i].Claims? && log[k].Cancels? ==>
      log[j] != Commits(log[i].version, log[i].worker)
  }

  /** After a retry or edit, no worker commits for an older version. */
  ghost predicate FencedByVersion(log: seq<Note>) {
    forall i, j :: 0 <= i < j < |log| && log[i].Bumps? && log[j].Commits? ==> log[i].version <= log[j].version
  }

  // ----- What survives: fencing against a later retry or edit -----

  ghost predicate VersionsReached(s: Race) {
    forall i :: 0 <= i < |s.log| && s.log[i].Bumps? ==> s.log[i].version <= s.version
  }

  lemma {:induction false} FencingSurvives(s: Race, moves: seq<Move>)
    requires FencedByVersion(s.log) && VersionsReached(s)
    ensures FencedByVersion(RunOf(s, moves).log) && VersionsReached(RunOf(s, moves))
    decreases |moves|
  {
    if moves != [] {
      FencingSurvives(Next(s, moves[0]), moves[1..]);
    }
  }

  lemma {:induction false} EveryRunIsFencedByVersion(s: Race, moves: seq<Move>)
    requires s.log == []
    ensures FencedByVersion(RunOf(s, moves).log)
  {
    FencingSurvives(s, moves);
  }

  // ----- What does not survive: three runs after a retry -----

  /** The late write reopens a version that has been committed; it is claimed and committed again. */
  lemma LateWriteRepeatsAVersion()
    ensures var moves := [RetryHead, WorkerClaims, WorkerCommits(0), QueueTail, WorkerClaims, WorkerCommits(1)];
      var log := RunOf(Start(), moves).log;
      log == [Bumps(2), Claims(2, 0), Commits(2, 0), Claims(2, 1), Commits(2, 1)]
      && !EachVersionClaimedOnce(log) && !EachVersionCommittedOnce(log)
  {
    RunOfAppend(Start(), [], RetryHead);
    RunOfAppend(Start(), [RetryHead], WorkerClaims);
    RunOfAppend(Start(), [RetryHead, WorkerClaims], WorkerCommits(0));
    RunOfAppend(Start(), [RetryHead, WorkerClaims, WorkerCommits(0)], QueueTail);
    RunOfAppend(Start(), [RetryHead, WorkerClaims, WorkerCommits(0), QueueTail], WorkerClaims);
    RunOfAppend(Start(), [RetryHead, WorkerClaims, WorkerCommits(0), QueueTail, WorkerClaims], WorkerCommits(1));
    var log := RunOf(Start(),
                     [RetryHead, WorkerClaims, WorkerCommits(0), QueueTail, WorkerClaims, WorkerCommits(1)]).log;
    assert log == [Bumps(2), Claims(2, 0), Commits(2, 0), Claims(2, 1), Commits(2, 1)];
    assert log[1].Claims? && log[3].Claims? && log[2].Commits? && log[4].Commits?;
  }

  /** A retried backtest is cancelled before any claim, and is picked up after all. */
  lemma LateWriteUndoesCancel()
    ensures RunOf(Start(), [RetryHead, UserCancels, QueueTail, WorkerClaims]).log == [Bumps(2), Cancels, Claims(2, 0)]
  {
    RunOfAppend(Start(), [], RetryHead);
    RunOfAppend(Start(), [RetryHead], UserCancels);
    RunOfAppend(Start(), [RetryHead, UserCancels], QueueTail);
    RunOfAppend(Start(), [RetryHead, UserCancels, QueueTail], WorkerClaims);
  }

  /** A worker commits after a cancel that followed its claim: a second claim has set the row running again. */
  lemma LateWriteRevivesAClaim()
    ensures var moves := [RetryHead, WorkerClaims, UserCancels, QueueTail, WorkerClaims, WorkerCommits(0)];
      var log := RunOf(Start(), moves).log;
      log == [Bumps(2), Claims(2, 0), Cancels, Claims(2, 1), Commits(2, 0)] && !NoCommitAfterCancel(log)
  {
    RunOfAppend(Start(), [], RetryHead);
    RunOfAppend(Start(), [RetryHead], WorkerClaims);
    RunOfAppend(Start(), [RetryHead, WorkerClaims], UserCancels);
    RunOfAppend(Start(), [RetryHead, WorkerClaims, UserCancels], QueueTail);
    RunOfAppend(Start(), [RetryHead, WorkerClaims, UserCancels, QueueTail], WorkerClaims);
    RunOfAppend(Start(), [RetryHead, WorkerClaims, UserCancels, QueueTail, WorkerClaims], WorkerCommits(0));
    var log := RunOf(Start(), [RetryHead, WorkerClaims, UserCancels, QueueTail, WorkerClaims, WorkerCommits(0)]).log;
    assert log == [Bumps(2), Claims(2, 0), Cancels, Claims(2, 1), Commits(2, 0)];
    assert log[1].Claims? && log[2].Cancels? && log[4] == Commits(log[1].version, log[1].worker);
  }

  // ----- Exactly when a cancel holds -----

  lemma {:induction false} RestsWithoutRetry(s: Race, moves: seq<Move>)
    requires s.status.Retryable() && s.tails == 0 && RetryHead !in moves
    ensures RunOf(s, moves).log == s.log
    decreases |moves|
  {
    if moves != [] {
      assert moves[0] in moves;
      RestsWithoutRetry(Next(s, moves[0]), moves[1..]);
    }
  }

  /** A cancelled backtest stays at rest until it is retried exactly when no late write is outstanding. */
  lemma {:induction false} CancelHoldsIff(s: Race)
    requires s.status == Cancelled
    ensures (forall moves: seq<Move> :: RetryHead !in moves ==> RunOf(s, moves).log == s.log) <==> s.tails == 0
  {
    if s.tails == 0 {
      forall moves: seq<Move> | RetryHead !in moves ensures RunOf(s, moves).log == s.log {
        RestsWithoutRetry(s, moves);
      }
    } else {
      var moves := [QueueTail, WorkerClaims];
      RunOfAppend(s, [], QueueTail);
      RunOfAppend(s, [QueueTail], WorkerClaims);
      assert [] + [QueueTail] == [QueueTail] && [QueueTail] + [WorkerClaims] == moves;
      assert RetryHead !in moves && |RunOf(s, moves).log| == |s.log| + 1;
    }
  }

  // ----- Exactly which runs repeat a claim, repeat a commit, or commit after a cancel -----

  /** The move is a late write of `pending` that takes effect. */
  predicate Lands(s: Race, m: Move) {
    m == QueueTail && s.tails > 0
  }

  /** Every late write of the run lands where `harmless` holds. */
  ghost predicate EveryTail(s: Race, moves: seq<Move>, harmless: Race -> bool)
    decreases |moves|
  {
    moves == []
    || ((Lands(s, moves[0]) ==> harmless(s)) && EveryTail(Next(s, moves[0]), moves[1..], harmless))
  }

  /** `safe` holds at every point of the run. */
  ghost predicate Throughout(s: Race, moves: seq<Move>, safe: Race -> bool)
    decreases |moves|
  {
    safe(s) && (moves != [] ==> Throughout(Next(s, moves[0]), moves[1..], safe))
  }

  lemma {:induction false} ThroughoutTheEnd(s: Race, moves: seq<Move>, safe: Race -> bool)
    requires Throughout(s, moves, safe)
    ensures safe(RunOf(s, moves))
    decreases |moves|
  {
    if moves != [] { ThroughoutTheEnd(Next(s, moves[0]), moves[1..], safe); }
  }

  /** The late writes decide: harmless ones keep an invariant that implies safety, any other breaks safety at once. */
  ghost predicate TailsDecide(inv: Race -> bool, harmless: Race -> bool, safe: Race -> bool) {
    && (forall s :: inv(s) ==> safe(s))
    && (forall s, m :: inv(s) && (Lands(s, m) ==> harmless(s)) ==> inv(Next(s, m)))
    && (forall s, m :: inv(s) && Lands(s, m) && !harmless(s) ==> !safe(Next(s, m)))
  }

  lemma {:induction false} SafeIffHarmless(s: Race, moves: seq<Move>,
                                           inv: Race -> bool, harmless: Race -> bool, safe: Race -> bool)
    requires TailsDecide(inv, harmless, safe) && inv(s)
    ensures Throughout(s, moves, safe) <==> EveryTail(s, moves, harmless)
    decreases |moves|
  {
    if moves != [] {
      var m, rest := moves[0], moves[1..];
      if Lands(s, m) && !harmless(s) {
        assert !safe(Next(s, m));
      } else {
        assert inv(Next(s, m));
        SafeIffHarmless(Next(s, m), rest, inv, harmless, safe);
      }
    }
  }

  // The current version has not been claimed.

  ghost predicate Unclaimed(s: Race) {
    forall i :: 0 <= i < |s.log| && s.log[i].Claims? ==> s.log[i].version != s.version
  }

  lemma NextExtendsLog(s: Race, m: Move)
    ensures |s.log| <= |Next(s, m).log| && forall i :: 0 <= i < |s.log| ==> Next(s, m).log[i] == s.log[i]
  {
  }

  lemma DeliveryExtendsLog(s: Race, w: nat)
    ensures var log := Next(Next(s, WorkerClaims), WorkerCommits(w)).log;
      |s.log| <= |log| && forall i :: 0 <= i < |s.log| ==> log[i] == s.log[i]
  {
    NextExtendsLog(s, WorkerClaims);
    NextExtendsLog(Next(s, WorkerClaims), WorkerCommits(w));
  }

  /** A message delivered here claims no version for the second time. */
  ghost predicate DeliveryClaimsOnce(s: Race) {
    EachVersionClaimedOnce(Next(s, WorkerClaims).log)
  }

  ghost predicate ClaimInv(s: Race) {
    && EachVersionClaimedOnce(s.log)
    && (forall i :: 0 <= i < |s.log| && s.log[i].Claims? ==> s.log[i].version <= s.version)
    && (s.status == Pending ==> Unclaimed(s))
  }

  lemma ClaimInvIsKept(s: Race, m: Move)
    requires ClaimInv(s) && (Lands(s, m) ==> Unclaimed(s))
    ensures ClaimInv(Next(s, m))
  {
  }

  lemma ReclaimIsUnsafe(s: Race)
    requires s.tails > 0 && !Unclaimed(s)
    ensures !DeliveryClaimsOnce(Next(s, QueueTail))
  {
    var i :| 0 <= i < |s.log| && s.log[i].Claims? && s.log[i].version == s.version;
    var log := Next(Next(s, QueueTail), WorkerClaims).log;
    assert log[i].version == log[|s.log|].version;
  }

  /**
    At no point of a run can a delivered message claim a version again exactly when every late write lands on a
    version that has not been claimed.
   */
  lemma {:induction false} ClaimedOnceIff(s: Race, moves: seq<Move>)
    requires s.log == []
    ensures Throughout(s, moves, DeliveryClaimsOnce) <==> EveryTail(s, moves, Unclaimed)
    ensures EveryTail(s, moves, Unclaimed) ==> EachVersionClaimedOnce(RunOf(s, moves).log)
  {
    forall r, m | ClaimInv(r) && (Lands(r, m) ==> Unclaimed(r)) ensures ClaimInv(Next(r, m)) {
      ClaimInvIsKept(r, m);
    }
    forall r, m | ClaimInv(r) && Lands(r, m) && !Unclaimed(r) ensures !DeliveryClaimsOnce(Next(r, m)) {
      ReclaimIsUnsafe(r);
    }
    SafeIffHarmless(s, moves, ClaimInv, Unclaimed, DeliveryClaimsOnce);
    if EveryTail(s, moves, Unclaimed) {
      ThroughoutTheEnd(s, moves, DeliveryClaimsOnce);
      NextExtendsLog(RunOf(s, moves), WorkerClaims);
    }
  }

  // The current version has not been committed.

  ghost predicate Uncommitted(s: Race) {
    forall i :: 0 <= i < |s.log| && s.log[i].Commits? ==> s.log[i].version != s.version
  }

  /** A message delivered here, and its worker's commit, commit no version for the second time. */
  ghost predicate DeliveryCommitsOnce(s: Race) {
    EachVersionCommittedOnce(Next(Next(s, WorkerClaims), WorkerCommits(s.nextWorker)).log)
  }

  ghost predicate CommitInv(s: Race) {
    && EachVersionCommittedOnce(s.log)
    && (forall i :: 0 <= i < |s.log| && s.log[i].Commits? ==> s.log[i].version <= s.version)
    && (s.status.Cancellable() ==> Uncommitted(s))
  }

  lemma CommitInvIsSafe(s: Race)
    requires CommitInv(s)
    ensures DeliveryCommitsOnce(s)
  {
  }

  lemma CommitInvIsKept(s: Race, m: Move)
    requires CommitInv(s) && (Lands(s, m) ==> Uncommitted(s))
    ensures CommitInv(Next(s, m))
  {
  }

  lemma RecommitIsUnsafe(s: Race)
    requires s.tails > 0 && !Uncommitted(s)
    ensures !DeliveryCommitsOnce(Next(s, QueueTail))
  {
    var i :| 0 <= i < |s.log| && s.log[i].Commits? && s.log[i].version == s.version;
    var t := Next(s, QueueTail);
    var log := Next(Next(t, WorkerClaims), WorkerCommits(t.nextWorker)).log;
    assert log == s.log + [Claims(s.version, s.nextWorker)] + [Commits(s.version, s.nextWorker)];
    assert log[i].version == log[|s.log| + 1].version;
  }

  /** The same for commits: every late write must land on a version that has not been committed. */
  lemma {:induction false} CommittedOnceIff(s: Race, moves: seq<Move>)
    requires s.log == []
    ensures Throughout(s, moves, DeliveryCommitsOnce) <==> EveryTail(s, moves, Uncommitted)
    ensures EveryTail(s, moves, Uncommitted) ==> EachVersionCommittedOnce(RunOf(s, moves).log)
  {
    forall r | CommitInv(r) ensures DeliveryCommitsOnce(r) { CommitInvIsSafe(r); }
    forall r, m | CommitInv(r) && (Lands(r, m) ==> Uncommitted(r)) ensures CommitInv(Next(r, m)) {
      CommitInvIsKept(r, m);
    }
    forall r, m | CommitInv(r) && Lands(r, m) && !Uncommitted(r) ensures !DeliveryCommitsOnce(Next(r, m)) {
      RecommitIsUnsafe(r);
    }
    SafeIffHarmless(s, moves, CommitInv, Uncommitted, DeliveryCommitsOnce);
    if EveryTail(s, moves, Uncommitted) {
      ThroughoutTheEnd(s, moves, DeliveryCommitsOnce);
      DeliveryExtendsLog(RunOf(s, moves), RunOf(s, moves).nextWorker);
    }
  }

  // No worker in flight holds a claim of the current version that a cancel has followed.

  /** Worker w is in flight with a claim of the current version, and a cancel has followed that claim. */
  ghost predicate CancelledClaim(s: Race, w: nat) {
    && w in s.workers && s.workers[w] == s.version
    && exists i, k :: 0 <= i < k < |s.log| && s.log[i] == Claims(s.version, w) && s.log[k].Cancels?
  }

  ghost predicate NoCancelledClaim(s: Race) {
    forall w: nat :: !CancelledClaim(s, w)
  }

  /** A message delivered here followed by any one worker's commit leaves no commit after a cancel. */
  ghost predicate DeliveryRespectsCancel(s: Race) {
    forall w: nat :: NoCommitAfterCancel(Next(Next(s, WorkerClaims), WorkerCommits(w)).log)
  }

  ghost predicate CancelInv(s: Race) {
    && NoCommitAfterCancel(s.log)
    && (forall i :: 0 <= i < |s.log| && s.log[i].Claims? ==>
          s.log[i].version <= s.version && s.log[i].worker < s.nextWorker)
    && (s.status.Cancellable() ==> NoCancelledClaim(s))
  }

  lemma NewClaimIsUncancelled(s: Race, w: nat)
    requires CancelInv(s) && s.status == Pending && CancelledClaim(Next(s, WorkerClaims), w)
    ensures CancelledClaim(s, w)
  {
    var t := Next(s, WorkerClaims);
    var i, k :| 0 <= i < k < |t.log| && t.log[i] == Claims(t.version, w) && t.log[k].Cancels?;
    assert t.log[i] == s.log[i] && t.log[k] == s.log[k] && s.log[i].Claims?;
  }

  lemma ClaimKeepsCancelInv(s: Race)
    requires CancelInv(s)
    ensures CancelInv(Next(s, WorkerClaims))
  {
    var t := Next(s, WorkerClaims);
    if s.status == Pending {
      forall w: nat ensures !CancelledClaim(t, w) {
        if CancelledClaim(t, w) { NewClaimIsUncancelled(s, w); }
      }
    }
  }

  lemma FencedCommitRespectsCancel(s: Race, w: nat)
    requires NoCommitAfterCancel(s.log) && w in s.workers && s.workers[w] == s.version && !CancelledClaim(s, w)
    ensures NoCommitAfterCancel(s.log + [Commits(s.version, w)])
  {
    var log := s.log + [Commits(s.version, w)];
    forall i, k, j | 0 <= i < k < j < |log| && log[i].Claims? && log[k].Cancels?
      ensures log[j] != Commits(log[i].version, log[i].worker)
    {
      if j == |s.log| { assert s.log[i] != Claims(s.version, w); }
    }
  }

  lemma CommitRespectsCancel(s: Race, w: nat)
    requires CancelInv(s)
    ensures NoCommitAfterCancel(Next(s, WorkerCommits(w)).log) && CancelInv(Next(s, WorkerCommits(w)))
  {
    var t := Next(s, WorkerCommits(w));
    if w in s.workers && s.status == Running && s.workers[w] == s.version {
      FencedCommitRespectsCancel(s, w);
    } else {
      forall v: nat | t.status.Cancellable() ensures !CancelledClaim(t, v) {
        if CancelledClaim(t, v) { assert CancelledClaim(s, v); }
      }
    }
  }

  /** The remaining moves log nothing, or a cancel that leaves the row cancelled. */
  lemma OtherMovesKeepCancelInv(s: Race, m: Move)
    requires CancelInv(s) && (Lands(s, m) ==> NoCancelledClaim(s))
    requires !m.WorkerClaims? && !m.WorkerCommits? && !m.RetryHead? && !m.EditHead?
    ensures CancelInv(Next(s, m))
  {
    var t := Next(s, m);
    if t.status.Cancellable() {
      forall w: nat ensures !CancelledClaim(t, w) {
        if CancelledClaim(t, w) { assert CancelledClaim(s, w); }
      }
    }
  }

  lemma CancelInvIsKept(s: Race, m: Move)
    requires CancelInv(s) && (Lands(s, m) ==> NoCancelledClaim(s))
    ensures CancelInv(Next(s, m))
  {
    match m
    case WorkerClaims => ClaimKeepsCancelInv(s);
    case WorkerCommits(w) => CommitRespectsCancel(s, w);
    case RetryHead =>
    case EditHead =>
    case _ => OtherMovesKeepCancelInv(s, m);
  }

  lemma CancelInvIsSafe(s: Race)
    requires CancelInv(s)
    ensures DeliveryRespectsCancel(s)
  {
    ClaimKeepsCancelInv(s);
    forall w: nat ensures NoCommitAfterCancel(Next(Next(s, WorkerClaims), WorkerCommits(w)).log) {
      CommitRespectsCancel(Next(s, WorkerClaims), w);
    }
  }

  lemma RespectedInLog(s: Race)
    requires DeliveryRespectsCancel(s)
    ensures NoCommitAfterCancel(s.log)
  {
    var log := Next(Next(s, WorkerClaims), WorkerCommits(0)).log;
    DeliveryExtendsLog(s, 0);
    assert NoCommitAfterCancel(log);
    forall i, k, j | 0 <= i < k < j < |s.log| && s.log[i].Claims? && s.log[k].Cancels?
      ensures s.log[j] != Commits(s.log[i].version, s.log[i].worker)
    {
      assert log[i] == s.log[i] && log[k] == s.log[k] && log[j] == s.log[j];
    }
  }

  lemma RevivedClaimIsUnsafe(s: Race)
    requires s.tails > 0 && !NoCancelledClaim(s)
    ensures !DeliveryRespectsCancel(Next(s, QueueTail))
  {
    var w: nat :| CancelledClaim(s, w);
    var i, k :| 0 <= i < k < |s.log| && s.log[i] == Claims(s.version, w) && s.log[k].Cancels?;
    var u := Next(Next(s, QueueTail), WorkerClaims);
    var log := Next(u, WorkerCommits(w)).log;
    assert log == s.log + [Claims(s.version, s.nextWorker)] + [Commits(s.version, w)];
    assert log[i] == s.log[i] && log[k] == s.log[k] && log[|s.log| + 1] == Commits(s.version, w);
    assert !NoCommitAfterCancel(log);
  }

  /**
    And for cancels: no late write may land while a worker is in flight whose claim of the current version a
    cancel has followed.
   */
  lemma {:induction false} CancelRespectedIff(s: Race, moves: seq<Move>)
    requires s.log == []
    ensures Throughout(s, moves, DeliveryRespectsCancel) <==> EveryTail(s, moves, NoCancelledClaim)
    ensures EveryTail(s, moves, NoCancelledClaim) ==> NoCommitAfterCancel(RunOf(s, moves).log)
  {
    forall r | CancelInv(r) ensures DeliveryRespectsCancel(r) { CancelInvIsSafe(r); }
    forall r, m | CancelInv(r) && (Lands(r, m) ==> NoCancelledClaim(r)) ensures CancelInv(Next(r, m)) {
      CancelInvIsKept(r, m);
    }
    forall r, m | CancelInv(r) && Lands(r, m) && !NoCancelledClaim(r) ensures !DeliveryRespectsCancel(Next(r, m)) {
      RevivedClaimIsUnsafe(r);
    }
    SafeIffHarmless(s, moves, CancelInv, NoCancelledClaim, DeliveryRespectsCancel);
    if EveryTail(s, moves, NoCancelledClaim) {
      ThroughoutTheEnd(s, moves, DeliveryRespectsCancel);
      RespectedInLog(RunOf(s, moves));
    }
  }

  // ----- Late writes that find the row still pending -----

  predicate IsPending(s: Race) {
    s.status == Pending
  }

  lemma {:induction false} PendingTailsAreHarmless(s: Race, moves: seq<Move>)
    requires ClaimInv(s) && CommitInv(s) && EveryTail(s, moves, IsPending)
    ensures EveryTail(s, moves, Unclaimed) && EveryTail(s, moves, Uncommitted)
    decreases |moves|
  {
    if moves != [] {
      ClaimInvIsKept(s, moves[0]);
      CommitInvIsKept(s, moves[0]);
      PendingTailsAreHarmless(Next(s, moves[0]), moves[1..]);
    }
  }

  /** When every late write lands on a row that is still pending, each version is claimed and committed at most once. */
  lemma {:induction false} CarefulRun(s: Race, moves: seq<Move>)
    requires s.log == []
    requires EveryTail(s, moves, IsPending)
    ensures Throughout(s, moves, DeliveryClaimsOnce) && Throughout(s, moves, DeliveryCommitsOnce)
    ensures EachVersionClaimedOnce(RunOf(s, moves).log) && EachVersionCommittedOnce(RunOf(s, moves).log)
  {
    PendingTailsAreHarmless(s, moves);
    ClaimedOnceIff(s, moves);
    CommittedOnceIff(s, moves);
  }

  /** One late write leads to a second claim of the version exactly when the version has been claimed. */
  lemma LateWriteIsHarmfulIff(s: Race)
    requires s.tails > 0 && EachVersionClaimedOnce(s.log)
    ensures DeliveryClaimsOnce(Next(s, QueueTail)) <==> Unclaimed(s)
  {
    var t := Next(Next(s, QueueTail), WorkerClaims);
    assert t.log == s.log + [Claims(s.version, s.nextWorker)];
    if !Unclaimed(s) {
      var i :| 0 <= i < |s.log| && s.log[i].Claims? && s.log[i].version == s.version;
      assert t.log[i].version == t.log[|s.log|].version;
    }
  }
}
