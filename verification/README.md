# AlgoBot: a Dafny model of its protocols, indexes and arithmetic

AlgoBot is a Django trading platform. This project models the parts of it that hold real protocols and arithmetic,
and proves what they promise over every input, every interleaving and every run. `dafny verify dfyconfig.toml`
checks all of it.

* **Backtest queue** (`BacktestProtocol`, `BacktestSafety`, `BacktestEffects`, `BacktestFairness`, `BacktestStore`,
  `BacktestRace`). Backtest rows, cluster-job rows, a bag of messages that may be lost or delivered twice, workers in
  flight, and a sweeper form a transition system. Workers carry the row's version as a fencing token.
  `BacktestSafety` says what no run does, `BacktestEffects` what every step gets done. `Store` is the same system as
  a mutable object whose methods each perform exactly one step. `BacktestRace` splits the late writes of `_queue` off
  from the action that called it and shows what survives that, and exactly when the rest does.
* **As-of joins** (`TimedRows`, `ExternalSignals`, `AsOfFeatures`, `TrainingDataset`, `TrainingColumns`). Preloading and
  bisecting against one query per epoch, and a dataset builder that must never look ahead.
* **Rate limiters** (`SlidingWindow`, `ThrottleBreaker`, `AuthRateLimit`). A sliding-window log behind a circuit
  breaker with a fallback bucket, and a fixed-window counter, each bounded over whole runs.
* **Automation** (`Martingale`, `MartingaleRun`, `MartingaleConfig`, `Conditions`, `ConditionLeaves`). The stake
  calculator's bounded scan, the losing streaks it can produce, and the condition validator against the recursive
  evaluator.
* **Models and predictions** (`ModelRegistry`, `ModelSelection`, `Consensus`, `ConsensusMeaning`, `EnsembleVote`).
  Promotion and rollback as a state machine; ensemble consensus, the gates behind it, and the weighted vote.
* **Dispatch** (`TaskDispatch`). Concurrent deliveries of one schedule slot around one cache key.
* **Sizing** (`StakeSizing`). Four budgets that fail closed, and the bound they give over a trading day.
* **Numeric loops** (`Drawdown`, `Indicators`, `IndicatorResponses`, `WalkForward`).
* Helpers: `Options`, `Floats`, `Reals`, `Permutations`.

Floats and decimals are exact reals, except where the code itself asks whether a value is finite (`Floats`). Square
roots enter as witnesses (`std >= 0 && std * std == variance`), rounded outputs as any value within half a unit.
Database transactions and single cache operations are atomic steps. Clocks, brokers, models and publication outcomes
are parameters or nondeterministic steps.

## Where the code does not do what one might expect

Each of these is proved, with the exact condition or a concrete run.

* `_queue` writes `status = 'pending'` a second time without a new version. If other steps come between, a version can
  be claimed and committed twice, a cancel can be undone, and a worker can commit after a cancel that followed its
  claim. `ClaimedOnceIff`, `CommittedOnceIff`, `CancelRespectedIff` and `CancelHoldsIff` say exactly when not; in this
  model fencing against a later retry or edit always survives (`BacktestRace`).
* The timeline index drops an observation that is exactly 24 hours old; the query it replaces keeps it. They give
  the same features exactly under the condition `SentimentAgrees`.
* The martingale window holds `max_steps + 1` orders. Two orders in it that were never executed can hide losses
  beyond it. Then an order is placed on a full losing streak, or stakes less than the next rung: exactly under the
  conditions of `MartingaleRun.LimitFailsIff` and `StakeIsNextRungIff`, and in the run `SkipsBreakTheLimit`.
* `validate_condition` treats an empty operator as `eq` and accepts a list as a field name; the evaluator raises on
  both. `EvaluateIsExact` says exactly when.
* `validate_martingale` reads floats and accepts `true` for an amount; the executor reads decimals and raises on it
  (`BooleanIsAccepted`).
* Inference reads the ensemble's `direction`, not its `decision`, so a recommendation can be made that the ensemble
  itself decided to avoid: with the default gates exactly at unrounded confidences from 0.64495 to below 0.65.
* A delivery that stalls for the idempotency key's whole life lets a second one send the task again; two successful
  sends within a shorter time are impossible. A failed send that got through all the same is sent again on retry
  (`LeakedSendIsRepeated`); within 24 h nothing else makes the task go out twice (`AtMostOnceIff`).
* A negative balance with a positive risk fraction makes the risk budget negative; the stake is then zero, which is
  above that budget, and only then.
* `_max_drawdown(_equity(...))` leaves out the start value, so it can be smaller than the validation drawdown.

## Model

| member | source | states |
|---|---|---|
| BacktestSafety.EveryRunIsSafe | apps/backtesting/tasks.py:234-298 | over every run with lost, duplicated and late messages: each (backtest, version) is claimed at most once, at most one commit per backtest, every commit by the worker that claimed that version, none after a cancel, timeout, edit, retry, queue failure or delete that followed the claim |
| BacktestSafety.EveryReachableRow | apps/backtesting/tasks.py:243-289 | in every reachable state the job mirrors the row, the lock is held exactly while running, results exist exactly on completed rows and come from the one claimer and committer of the current version |
| BacktestSafety.CompletedIsAbsorbing | apps/backtesting/api.py:305-327 | nothing but a delete ever changes a completed row again |
| BacktestSafety.StepKeeps | apps/backtesting/tasks.py:340-429 | every API action, worker step, sweep and republication keeps the state and history invariant |
| BacktestSafety.FenceMeansUnrevoked | apps/backtesting/tasks.py:278-282 | a worker that passes the fence has not been revoked and nothing was committed for its backtest |
| BacktestEffects.CommitsIffUnrevoked | apps/backtesting/tasks.py:278-290 | over every run: a worker in flight that finishes commits its results, and completes and unlocks row and job, iff nothing has revoked its claim; otherwise it changes nothing |
| BacktestEffects.CommitLands | apps/backtesting/tasks.py:278-290 | over every run: a finishing worker whose row still runs the claimed version stores its own outcome, completes row and job and logs the commit, and in every other case leaves rows, jobs and log alone |
| BacktestEffects.FailureLands | apps/backtesting/tasks.py:251-259 | over every run: an erring worker whose row still runs the claimed version fails row and job under that version, and in every other case changes nothing |
| BacktestEffects.DeliveryClaims | apps/backtesting/tasks.py:234-249 | in every state whose row and job agree: a delivered message puts one more worker in flight, with the row's version, iff the row is pending; the row then runs and its job is locked |
| BacktestEffects.SweepRecovers | apps/backtesting/tasks.py:360-402 | over every run: a sweep fails the row and job of every stale running job, reschedules every stale pending job and owes it one message, logs one timeout for each failed row, and touches nothing else |
| BacktestEffects.SweepIsGentle | apps/backtesting/tasks.py:340-366 | whatever it is called with, a sweep takes at most 100 jobs of a kind, none locked within 300 s or scheduled within 60 s, and leaves no due running job when it takes none |
| BacktestEffects.TimeoutSettles | apps/backtesting/tasks.py:367-391 | a timed-out job ends unlocked with its row's status; a running row has then failed |
| BacktestEffects.RepublicationLands | apps/backtesting/tasks.py:404-429 | an owed message is handed over once; row and job fail iff that raised and the row is still pending |
| BacktestEffects.CreateQueues | apps/backtesting/api.py:240-251 | a create queues version 1 of a new id, or fails it when publishing raises, and touches no other backtest |
| BacktestEffects.EditQueues | apps/backtesting/api.py:253-263 | an edit queues the next version without results iff the row is pending, and else changes nothing |
| BacktestEffects.RetryQueues | apps/backtesting/api.py:316-327 | a retry queues the next version without results iff the row failed or was cancelled, and else changes nothing |
| BacktestEffects.CancelStops | apps/backtesting/api.py:305-314 | a cancel stops row and job under the same version iff the row is pending or running, and else changes nothing |
| BacktestEffects.DeleteRemoves | apps/backtesting/api.py:28-33 | a delete takes away the row and its job, and neither workers nor messages |
| BacktestFairness.NoStarvation | apps/backtesting/tasks.py:393-402 | a stale pending job with k pending jobs scheduled no later is republished or leaves pending within k / limit + 1 sweeps, whatever else happens |
| BacktestFairness.SweepDrains | apps/backtesting/tasks.py:360-402 | a sweep that passes over a waiting job takes `limit` jobs from ahead of it |
| BacktestFairness.OtherStepsAddNobodyAhead | apps/backtesting/api.py:44-54 | newly queued, edited and retried jobs never get ahead of a job that is already waiting |
| BacktestStore.Store.constructor | apps/backtesting/tasks.py:341-351 | an empty store is the initial state of the protocol |
| BacktestStore.Store.Enqueue | apps/backtesting/api.py:35-88 | queueing upserts the job, publishes, and fails row and job when publishing fails |
| BacktestStore.Store.PerformCreate | apps/backtesting/api.py:240-251 | creating is one protocol step |
| BacktestStore.Store.PerformUpdate | apps/backtesting/api.py:253-263 | only a pending row is edited; the step bumps the version and drops results |
| BacktestStore.Store.PerformRetry | apps/backtesting/api.py:316-327 | only a failed or cancelled row is retried, under a new version |
| BacktestStore.Store.PerformCancel | apps/backtesting/api.py:305-314 | only a pending or running row is cancelled, together with its unfinished job |
| BacktestStore.Store.ExecuteBacktest | apps/backtesting/tasks.py:234-249 | a delivered message claims the row exactly when it is pending |
| BacktestStore.Store.CommitRow | apps/backtesting/tasks.py:278-290 | results are stored exactly when the row is still running the claimed version |
| BacktestStore.Store.FailRow | apps/backtesting/tasks.py:251-259 | the error paths fail the row only behind the same fence |
| BacktestStore.Store.TimeoutJob | apps/backtesting/tasks.py:367-391 | a stale running row is failed; otherwise the job takes over its row's status |
| BacktestStore.Store.Reconcile | apps/backtesting/tasks.py:360-402 | the sweeper's two loops over the answers to its queries are one protocol step |
| BacktestStore.Store.PublishRecovered | apps/backtesting/tasks.py:404-429 | republication closes a row that could not be queued only while it is pending |
| BacktestRace.EveryRunIsFencedByVersion | apps/backtesting/api.py:70-71 | with the late write split off, still no commit for a version older than a retry or edit before it |
| BacktestRace.LateWriteRepeatsAVersion | apps/backtesting/api.py:70-71 | a run in which one version is claimed and committed twice |
| BacktestRace.LateWriteUndoesCancel | apps/backtesting/api.py:70-71 | a run after a retry in which a backtest cancelled before any claim is claimed after all |
| BacktestRace.LateWriteRevivesAClaim | apps/backtesting/api.py:70-71 | a run after a retry in which a worker commits after a cancel that followed its claim |
| BacktestRace.CancelHoldsIff | apps/backtesting/api.py:305-314 | for a cancelled row: whatever happens, nothing is claimed or committed until the next retry, iff no late write is outstanding |
| BacktestRace.ClaimedOnceIff | apps/backtesting/api.py:70-71 | over every run: at no point can a delivered message claim a version for a second time iff every late write that takes effect lands on an unclaimed version; the log of such a run claims each version once |
| BacktestRace.CommittedOnceIff | apps/backtesting/api.py:70-71 | over every run: at no point can a delivery commit a version for a second time iff every late write lands on an uncommitted version; the log of such a run commits each version once |
| BacktestRace.CancelRespectedIff | apps/backtesting/api.py:70-71 | over every run: at no point can a delivery let a commit follow a cancel that followed its claim iff no late write lands while a worker in flight holds a claim of the current version that was cancelled; the log of such a run has no such commit |
| BacktestRace.LateWriteIsHarmfulIff | apps/backtesting/api.py:70-71 | one late write lets the version be claimed for a second time exactly when it was claimed before |
| BacktestRace.CarefulRun | apps/backtesting/api.py:316-326 | when every late write lands on a pending row, each version is claimed and committed at most once, and no delivery at any point could change that |
| TimedRows.BisectRight | apps/ai_engine/external_signals.py:450-451 | bisection finds the boundary: everything before it is at most x, everything after is greater |
| TimedRows.BisectionSelects | apps/ai_engine/external_signals.py:450-465 | two bisections on the sorted rows cut out exactly the rows of the time window |
| TimedRows.PreloadIsTransparent | apps/ai_engine/external_signals.py:429-447 | any preload that contains the window yields the rows the query yields |
| TimedRows.OrderIsForced | apps/ai_engine/external_signals.py:433-444 | with distinct times there is only one ordered result a database can return |
| ExternalSignals.SentimentIndexRefinesQueryIff | apps/ai_engine/external_signals.py:387-396 | index and query give the same sentiment features iff no row is exactly 24 h old, or 100 newer rows crowd it out, or it equals the newer rows' average |
| ExternalSignals.SentimentIndexRefinesQuery | apps/ai_engine/external_signals.py:448-463 | agreement at every epoch of the preload at which no row is exactly 24 h old |
| ExternalSignals.BoundaryDifference | apps/ai_engine/external_signals.py:450-452 | one row exactly 24 h old: the query reports it, the index does not |
| ExternalSignals.BookIndexRefinesQuery | apps/ai_engine/external_signals.py:399-404 | the order-book index always equals the query inside the preload |
| AsOfFeatures.SentimentQueryMeans | apps/ai_engine/external_signals.py:387-396 | the query reports, from the newest 100 observations of at most 24 hours, their average scores, their number and the age of the newest in minutes; nothing when there are none |
| AsOfFeatures.SentimentIndexMeans | apps/ai_engine/external_signals.py:448-463 | at every epoch of the preload the index reports the same of the newest 100 observations of less than 24 hours |
| AsOfFeatures.BookQueryMeans | apps/ai_engine/external_signals.py:399-404 | the query reports the depth features of a newest snapshot, and only if that is at most 300 s old |
| AsOfFeatures.BookIndexMeans | apps/ai_engine/external_signals.py:465-474 | at every epoch of the preload the index reports just that |
| ExternalSignals.ExternalSignalTimeline.constructor | apps/ai_engine/external_signals.py:426-446 | the preloaded rows are sorted and are exactly the rows of the widened window |
| ExternalSignals.ExternalSignalTimeline.SentimentAt | apps/ai_engine/external_signals.py:448-463 | the bisecting lookup is the filter-and-average over the preloaded rows |
| ExternalSignals.ExternalSignalTimeline.BookAt | apps/ai_engine/external_signals.py:465-474 | the bisecting lookup is the newest preloaded snapshot, if at most 300 s old |
| TrainingDataset.NoLookAhead | apps/ai_engine/training_dataset.py:106-137 | building on a chronological prefix of the candles yields a prefix of the full dataset |
| TrainingDataset.FeaturesDependOnThePast | apps/ai_engine/training_dataset.py:118-134 | row i of numbers is fixed by candles up to i and observations dated no later than its epoch; only label and return see candle i + 1 |
| TrainingDataset.JoinsDependOnThePast | apps/ai_engine/training_dataset.py:50-103 | later observations and a wider right-hand preload change no joined feature |
| TrainingDataset.BuildDirectionDataset | apps/ai_engine/training_dataset.py:106-162 | each row stands for one candle i from 60 to n - 2, in order: its label is 1 iff the next close is higher, and its return r satisfies r * close == next close - close; a candle is missing iff its window gives no features or its close is zero; too few candles or no valid row is refused |
| TrainingDataset.RowsAreEven | apps/ai_engine/training_dataset.py:120-134 | windows of one width give rows of one width: the window features and the fifteen joined columns |
| TrainingColumns.DatasetSays | apps/ai_engine/training_dataset.py:106-137 | every row begins with the features of its candle's window and ends with the joins of its epoch, and every label and return tells how the next candle closed |
| TrainingColumns.TimelineJoins | apps/ai_engine/training_dataset.py:50-103 | the fifteen joined columns are those of the newest feedback, signals, sentiment and depth at the epoch, taken from the whole tables |
| TrainingColumns.FeedbackIsNewest | apps/ai_engine/training_dataset.py:50-68 | the feedback columns look at the newest 100 outcomes resolved by the epoch and judged right or wrong |
| SlidingWindow.AllowWithCache | core/throttling.py:27-42 | one decision prunes, refuses or records on one key and touches no other |
| SlidingWindow.BucketBound | core/throttling.py:32-41 | over every run with a non-decreasing clock each half-open interval of length `duration` holds at most N of the requests the cached algorithm allows |
| SlidingWindow.AllowedIsIdeal | core/throttling.py:32-41 | the requests the cached algorithm allows over a run are the ones a perfect memory allows |
| SlidingWindow.DecidedByAllowed | core/throttling.py:32-41 | over every run with a non-decreasing clock the next request is allowed iff fewer than N requests were allowed within the last `duration` |
| SlidingWindow.ExpiryChangesNothing | core/throttling.py:32-41 | cache expiry after `duration` never changes a decision: it is the one a perfect memory would make |
| SlidingWindow.IntervalBound | core/throttling.py:34-38 | any log whose N + 1 successive entries span `duration` has at most N entries in such an interval |
| SlidingWindow.StoredKeeps | core/throttling.py:34-42 | each decision keeps the cached history a mirror of the newest part of the log |
| ThrottleBreaker.ProcessBound | core/throttling.py:44-66 | under any pattern of Redis failures and breaker moves one process passes at most 2N requests per interval |
| ThrottleBreaker.ProcessBoundIsReached | core/throttling.py:44-66 | a run that reaches the factor two |
| ThrottleBreaker.FailuresAreSpaced | core/throttling.py:47-57 | over every serial run of a process, requests for other keys included, two waits on a failing Redis are at least 120 s apart |
| ThrottleBreaker.FallbackDuringCooldown | core/throttling.py:47-66 | over every run that is serial from a failure on: a request within 120 s of it leaves the Redis cell alone and gets the fallback's answer |
| ThrottleBreaker.EveryAnswer | core/throttling.py:44-66 | over every run: Redis answers a request iff the breaker is closed and Redis does not raise, else the fallback; each answers that the request is allowed iff the requests recorded on its side leave room |
| ThrottleBreaker.ResilientThrottle.AllowRequest | core/throttling.py:44-66 | breaker, Redis attempt and fallback together are one step of the process model |
| AuthRateLimit.LifetimeBound | core/auth_rate_limit.py:33-43 | for every interleaving, expiry and failure, at most `limit` attempts pass in one lifetime of a counter |
| AuthRateLimit.WindowBound | core/auth_rate_limit.py:33-65 | at most 2 * `limit` attempts pass per backend in any interval of length `window` |
| AuthRateLimit.PassesAreAllowedAttempts | core/auth_rate_limit.py:33-65 | for every interleaving, expiry and failure, as many attempts are allowed as the two backends let through |
| AuthRateLimit.AttemptOn | core/auth_rate_limit.py:34-43 | one undisturbed attempt is the composition of the interleaved model's operations |
| AuthRateLimit.DecidedIff | core/auth_rate_limit.py:33-43 | over every interleaving without failures: an operation refuses its attempt iff the counter's lifetime lasts and has let `limit` attempts through, and allows it iff it opens a lifetime or counts in one that has let fewer through |
| AuthRateLimit.FirstOnesPass | core/auth_rate_limit.py:33-43 | of attempts made one after the other within one window of a fresh counter, the first `limit` pass and all later ones do not |
| Martingale.MartingaleStake | apps/automation/services.py:96-137 | the loop over the window computes the specified stake or refusal |
| Martingale.WindowIsEnough | apps/automation/services.py:99-107 | with at most one skipped order in the window the scan equals the scan of the full history |
| Martingale.WindowDecidesIff | apps/automation/services.py:104-125 | a full window settles the scan whatever is older, exactly unless it is all losses and skips with two or more skips |
| Martingale.NewestOrderCounts | apps/automation/services.py:106-125 | the newest order stops the scan while its outcome is open, is passed over if never executed, adds one when it lost, and ends the streak otherwise, a result of zero included |
| MartingaleRun.EveryStreakIsBounded | apps/automation/services.py:96-137 | after any serial run in which no trigger is misled by hidden losses, the current losing streak staked base, base * m, ..., each at most max_stake, is at most max_steps long, and lost at most (m * max_stake - base) / (m - 1) |
| MartingaleRun.StakeIsNextRungIff | apps/automation/services.py:99-127 | where a trigger places an order with nothing outstanding, its stake is base * m^(losing streak) iff no loss is hidden: not all of the newest max_steps + 1 orders are losses or skips, fewer than two are skips, or the streak ends with them |
| MartingaleRun.ProgressionKeptIff | apps/automation/services.py:99-127 | over every serial run every order stakes the next rung of the losing streak, within max_steps and max_stake, iff no trigger finds hidden losses and an allowed stake for the visible ones |
| MartingaleRun.LimitFailsIff | apps/automation/services.py:99-127 | on a full losing streak with nothing outstanding an order is placed all the same iff at least two of the newest max_steps + 1 orders were never executed and the stake for the losses left among them is within max_stake |
| MartingaleRun.LimitKeptIff | apps/automation/services.py:99-127 | over every serial run: no order is ever placed on a full losing streak iff no trigger meets that condition, and then no streak exceeds max_steps |
| MartingaleRun.SkipsBreakTheLimit | apps/automation/services.py:99-123 | a serial run with max_steps = 2 that places an order on a losing streak of two |
| MartingaleRun.LadderIsPower | apps/automation/services.py:126 | the n-th stake of a progression is base * m^n |
| MartingaleRun.NextStakeAfter | apps/automation/services.py:99-127 | where no loss is hidden, a loss multiplies the stake of the order that made it, a voided order's stake is staked again, and a profit or zero goes back to the base stake |
| MartingaleRun.ProfitResets | apps/automation/services.py:106-127 | after an order that settled without a loss the base stake is staked, whatever is hidden |
| MartingaleRun.ScanCountsStreak | apps/automation/services.py:106-125 | on resolved orders the scan counts exactly the current losing streak |
| MartingaleConfig.AcceptedIsValidIff | apps/automation/services.py:379-393 | settings the validator accepts give a valid configuration, or raise in the executor exactly when an amount is a boolean |
| MartingaleConfig.NumbersAcceptedIff | apps/automation/services.py:379-393 | settings given as numbers are accepted iff the base is positive, the multiplier above 1, the steps from 1 to 20 and the maximum at least the base; missing ones default to 2 and 5 |
| MartingaleConfig.BooleanIsAccepted | apps/automation/services.py:379-393 | settings with `true` for the base stake are accepted, and the executor raises on them |
| Conditions.EvaluateIsExact | apps/automation/services.py:35-69 | for every accepted condition and payload, evaluation raises exactly when it comes to a bad node and otherwise returns the for-all/exists/not meaning |
| Conditions.ValidationIsSound | apps/automation/services.py:347-376 | an accepted condition without bad nodes never raises on any payload and evaluates to its meaning |
| ConditionLeaves.NumbersCompare | apps/automation/services.py:54-69 | on two finite numbers within the float limit each of the six comparison operators is the comparison it is named for |
| ConditionLeaves.OrderingMeans | apps/automation/services.py:54-61 | for every field value and target the four orderings hold iff both sides read as finite numbers that compare that way, and never raise |
| ConditionLeaves.EqualityMeans | apps/automation/services.py:62-69 | `eq` holds iff the two values hold no NaN and are the same but for booleans written as numbers; `ne` is its negation |
| ConditionLeaves.ContainsMeans | apps/automation/services.py:64-68 | `contains` is membership in a list, a key of an object, an occurrence in a string at some position, and false on anything else |
| ConditionLeaves.RootMeans | apps/automation/services.py:36-39 | an empty root is true, and any other root that is no object raises |
| ConditionLeaves.AcceptedIff | apps/automation/services.py:347-376 | a condition is accepted iff every node follows the grammar and it is at most eight levels high |
| Conditions.ValidateCondition | apps/automation/services.py:347-376 | the recursive loop collects exactly the specified problems, in order |
| Conditions.AcceptedIsShallow | apps/automation/services.py:349-350 | accepted conditions nest at most eight levels below the root |
| Conditions.SameIsSymmetric | apps/automation/services.py:69 | equality of values is symmetric, over nested lists and objects |
| ConditionLeaves.SameMeans | apps/automation/services.py:69 | two values are equal iff they hold no NaN and are the same but for booleans written as numbers |
| Conditions.SameIsReflexiveIff | apps/automation/services.py:69 | a value equals itself exactly when it holds no NaN |
| Conditions.BadNodeRaises | apps/automation/services.py:40-53 | an accepted condition with a bad root raises on every payload |
| Conditions.EmptyOperatorRaises | apps/automation/services.py:353 | an empty operator is accepted, and evaluation raises |
| Conditions.ListFieldRaises | apps/automation/services.py:367 | a list for a field name is accepted, and evaluation raises |
| ModelRegistry.Registry.Train | apps/ai_engine/training.py:71-144 | the candidate loop and the promotion block perform the specified step |
| ModelRegistry.Registry.Rollback | apps/ai_engine/training.py:174-212 | rollback performs the specified step and reports the restored model |
| ModelRegistry.Registry.FindReplacement | apps/ai_engine/training.py:183-207 | the candidate loop and the maximum find the specified replacement |
| ModelRegistry.AlwaysOneChampion | apps/ai_engine/training.py:126-144 | over every run of trainings and rollbacks a registry with a model has exactly one champion |
| ModelRegistry.ChampionStaysOnTop | apps/ai_engine/training.py:129-140 | until the first rollback no model outscores the champion |
| ModelRegistry.TrainingsLeaveTheBest | apps/ai_engine/training.py:137-140 | after trainings only, the champion's finite score is at least every other |
| ModelRegistry.TrainedPassesGate | apps/ai_engine/training.py:76-87 | what training under min_accuracy >= 0.52 stores passes the rollback gate iff its numbers are finite |
| ModelRegistry.EveryModelIsGated | apps/ai_engine/training.py:193-198 | in every run of such trainings and rollbacks every model passes the rollback gate |
| ModelRegistry.ScoreIsFinite | apps/ai_engine/training.py:79 | finite metrics give a finite score, an infinite profit factor included |
| ModelRegistry.ReplacementBeatsAll | apps/ai_engine/training.py:183-207 | the replacement is the eligible model that beats every eligible one, the newest among equals |
| ModelRegistry.RollbackHandsOver | apps/ai_engine/training.py:207-212 | a rollback moves the title and changes nothing else |
| ModelSelection.ScoreMeans | apps/ai_engine/training.py:79 | on finite metrics the score is 0.3 accuracy + 0.15 f1 + 0.2 Sharpe + 200 expectancy + 0.03 profit factor up to 5 |
| ModelSelection.TrainingChooses | apps/ai_engine/training.py:71-87 | a training stores the first best-scoring candidate whose accuracy reaches the gate, iff that one is profitable |
| ModelSelection.Promotes | apps/ai_engine/training.py:126-144 | the new model takes the title iff it scores more than the champion, who stays in the registry as active |
| ModelSelection.RollbackChooses | apps/ai_engine/training.py:174-212 | a rollback hands the title to the best-scoring, of equals the newest, active model with finite numbers, accuracy of at least 0.52 and a positive expectancy or return; without one nothing changes |
| ModelRegistry.SecondRollbackRestoresIff | apps/ai_engine/training.py:168-212 | two rollbacks restore the registry iff the first champion passes the gate and beats every eligible model but its replacement |
| ModelRegistry.SecondRollbackAfterTrainings | apps/ai_engine/training.py:168-212 | after gated trainings, a champion no newer model ties comes back on the second rollback |
| Floats.ArgMaxIsFirst | apps/ai_engine/training.py:85 | without a NaN the maximum is the first of the greatest scores |
| Consensus.OrderDoesNotMatter | apps/ai_engine/ensemble_predictor.py:95-102 | the consensus does not depend on the order of the predictions |
| Consensus.RunModels | apps/ai_engine/ensemble_predictor.py:77-94 | sequential and concurrent evaluation collect the same predictions, failures skipped |
| Consensus.VarianceBound | apps/ai_engine/ensemble_predictor.py:100 | the weighted variance is at most p(1 - p), hence at most 1/4 |
| Consensus.ClampsNeverBite | apps/ai_engine/ensemble_predictor.py:100 | agreement and confidence are their formulas; neither clamp changes a value |
| ConsensusMeaning.ConfidenceIs | apps/ai_engine/ensemble_predictor.py:100 | for every vote the confidence is 2 * abs(mean - 0.5) * (1 - deviation) |
| ConsensusMeaning.DisagreementCosts | apps/ai_engine/ensemble_predictor.py:100 | at one uneven mean a larger deviation strictly lowers the confidence |
| ConsensusMeaning.VotesSum | apps/ai_engine/ensemble_predictor.py:95-100 | sums over the votes are sums over the predictions of positive weight, or over all of them with weight one if none is positive |
| ConsensusMeaning.MeanIsBalance | apps/ai_engine/ensemble_predictor.py:99 | the mean is the one point about which the weighted votes balance |
| ConsensusMeaning.VarianceIsSpread | apps/ai_engine/ensemble_predictor.py:100 | the variance is the weighted average of the squared distances from the mean |
| ConsensusMeaning.DecisionIff | apps/ai_engine/ensemble_predictor.py:98-102 | the ensemble decides for a side iff the mean is on it, at least the band away from even, and 2 * distance * (1 - deviation) reaches the minimum |
| ConsensusMeaning.RecommendationIff | apps/ai_engine/services.py:187-194 | a side is recommended iff the mean is on it, the confidence rounds to at least 65 percent, and the price-action gate is open |
| Consensus.MirrorSwapsDecision | apps/ai_engine/ensemble_predictor.py:98-101 | mapping every p to 1 - p swaps buy and sell at equal confidence and agreement |
| Consensus.InferenceAccepts | apps/ai_engine/services.py:74-92 | inference never refuses what the ensemble computes |
| Consensus.RecommendationIsFarFromEven | apps/ai_engine/services.py:187-194 | a buy (sell) recommendation implies an ensemble probability of at least 0.822475 (at most 0.177525), through both roundings |
| Consensus.RecommendationMatchesDecisionIff | apps/ai_engine/services.py:89-90 | a buy or sell recommendation is the ensemble's own decision iff the unrounded probability is outside the avoid band and the unrounded confidence reaches the minimum, for all predictions, bands and minimums |
| Consensus.ConflictIff | apps/ai_engine/ensemble_predictor.py:98-102 | with the default gates a recommendation goes against the ensemble iff its unrounded confidence is at least 0.64495 and below 0.65 |
| Consensus.ConflictIsForced | apps/ai_engine/services.py:187-194 | above 0.64505 and below 0.65, with the price-action gate open, the ensemble avoids and a recommendation is made, however ties are rounded |
| Consensus.AvoidedYetRecommended | apps/ai_engine/services.py:89 | one such prediction: a single model at 0.8227 |
| EnsembleVote.Combine | apps/ai_engine/services.py:172-181 | the loop over predictions computes the specified shares and verdict |
| EnsembleVote.SharesSplitTheWhole | apps/ai_engine/services.py:176-179 | the three shares are non-negative and sum to at most one |
| EnsembleVote.WinnerHasQuorum | apps/ai_engine/services.py:179-181 | buy or sell wins iff its share is at least 60%, and then no other side exceeds 40% |
| EnsembleVote.UnanimousShare | apps/ai_engine/services.py:173-179 | ballots that all name one side, with convictions between two bounds, give it a share between them, whatever their weights, and the other sides none; convictions may be fractions, percentages or bare probabilities |
| EnsembleVote.UnanimousVerdict | apps/ai_engine/services.py:179-181 | such a vote for a trade carries it if the convictions are at least 0.6, and fails if they are all below |
| EnsembleVote.VerdictIgnoresOrder | apps/ai_engine/services.py:173-181 | the verdict does not depend on the order of the predictions |
| Permutations.TotalOfPermutation | apps/ai_engine/ensemble_predictor.py:100 | a sum over predictions is the same in any order |
| TaskDispatch.Slot.Dispatch | apps/automation/cloudflare_hooks.py:131-155 | one undisturbed delivery is exactly the run of its interleaved steps, from any state, and gives the answer that run gives |
| TaskDispatch.UninterruptedIsARun | apps/automation/cloudflare_hooks.py:133-155 | those steps form a run in each of the four cases, and leave the answer, key and sends of that case |
| TaskDispatch.Redelivery | apps/automation/cloudflare_hooks.py:129-155 | a slot delivered a second time is a duplicate iff the first delivery was queued less than 86,400 s ago; after a refused expiry, a failed send or that time it is judged like a first one: 400 iff its expiry is not an integer from 1 to 300, 503 iff the broker raises, else sent |
| TaskDispatch.SendsAreSpaced | apps/automation/cloudflare_hooks.py:133-151 | in runs of any length in which each holder acts within the life its key was given, two successful sends took their keys at least 24 h apart |
| TaskDispatch.AtMostOnce | apps/automation/cloudflare_hooks.py:129-155 | for every interleaving within the key's 24 h there is at most one successful send, and at most one more than the failed sends that got through |
| TaskDispatch.AtMostOnceIff | apps/automation/cloudflare_hooks.py:133-155 | for every interleaving within the key's 24 h the task is sent at most once, failed sends that got through included, iff nothing is sent after such a failed send |
| TaskDispatch.LeakedSendIsRepeated | apps/automation/cloudflare_hooks.py:145-151 | a run within the key's life in which a failed send gets through, the key is released, and the next delivery sends again |
| TaskDispatch.AtLeastOnce | apps/automation/cloudflare_hooks.py:133-155 | in runs of any length: if every delivery was answered 202 the task was sent, and no failed send got through |
| TaskDispatch.ExactlyOnce | apps/automation/cloudflare_hooks.py:133-155 | within 24 h, if no delivery died and all were answered 202, it was sent exactly once |
| TaskDispatch.StalledDeliverySendsTwice | apps/automation/cloudflare_hooks.py:133-151 | beyond the key's life two deliveries can both send |
| TaskDispatch.SendsTwiceIff | apps/automation/cloudflare_hooks.py:133-151 | a run with two successful sends within some duration exists iff that duration is at least 86,400 s |
| StakeSizing.BuildAccountRiskContext | apps/analysis/broker_intelligence.py:35-137 | the step-by-step builder offers a stake that is never negative, zero while any figure is unknown, within all four limits when positive, and otherwise exactly the share that confidence and volatility leave of the largest amount within the limits, truncated to eight places |
| StakeSizing.RecommendedMeans | apps/analysis/broker_intelligence.py:117-137 | the recommended stake is that share for all inputs: of the largest amount within the risk, daily-loss, exposure and funds limits, tempered by confidence and volatility |
| StakeSizing.SumLosses | apps/analysis/broker_intelligence.py:82-87 | the loop sums the losses of the day's settled trades and ignores profits |
| StakeSizing.StakeWithinBudgets | apps/analysis/broker_intelligence.py:117-135 | the stake is never negative, never above the daily, exposure and funds budgets, and above the risk budget iff that budget is negative |
| StakeSizing.StakeAboveRiskIff | apps/analysis/broker_intelligence.py:114-124 | the stake is above the risk budget iff the balance is negative and the risk fraction positive |
| StakeSizing.DebtExceedsRiskBudget | apps/analysis/broker_intelligence.py:114-124 | such an account: a balance of -100 has a risk budget of -2 and a stake of zero |
| StakeSizing.CapIsLargest | apps/analysis/broker_intelligence.py:114-124 | with everything known, a positive amount is within the cap iff it keeps the risk, daily-loss, exposure and funds limits |
| StakeSizing.OfferedStakeKeepsLimits | apps/analysis/broker_intelligence.py:117-137 | an offered stake keeps all four limits: loss so far plus stake, open exposure plus stake, risk and funds |
| StakeSizing.TemperingIsMonotone | apps/analysis/broker_intelligence.py:125-135 | more confidence never lowers the stake, high volatility never raises it |
| StakeSizing.FailsClosed | apps/analysis/broker_intelligence.py:66-123 | unknown balance, funds, settled P/L or exposure makes the stake zero |
| StakeSizing.NoStakeInDebt | apps/analysis/broker_intelligence.py:117-124 | no stake on a balance that is zero, negative or unreadable |
| StakeSizing.PositionCountedOnce | apps/analysis/broker_intelligence.py:90-111 | the open order of a position that is already held changes nothing sizing looks at |
| StakeSizing.UncoveredIs | apps/analysis/broker_intelligence.py:90-103 | the orders counted are exactly the open ones neither settled nor held as a position |
| StakeSizing.MoneyTruncates | apps/analysis/broker_intelligence.py:27-28 | truncation never rounds a stake up and takes less than one unit of the eighth place |
| StakeSizing.DayIsBounded | apps/analysis/broker_intelligence.py:82-124 | over any day of one-at-a-time trades within the recommendation, realized loss stays within the highest daily limit of the day |
| StakeSizing.LimitIsFractionOfPeak | apps/analysis/broker_intelligence.py:114-119 | with one profile all day that limit is at most the daily fraction of the day's peak balance |
| StakeSizing.DayWithinFractionOfPeak | apps/analysis/broker_intelligence.py:82-124 | with one profile all day the realized loss stays within the daily fraction of the day's peak balance |
| Drawdown.MaxDrawdown | apps/backtesting/services.py:34-37 | the one pass finds the largest drop E_i - E_j over all i <= j |
| Drawdown.EquityCurve | apps/backtesting/services.py:30-33 | the loop computes the running totals |
| Drawdown.EquityIs | apps/backtesting/services.py:30-33 | a point of the curve is the start plus the sum of all profits up to it |
| Drawdown.ValidationIsLargestDrop | apps/ai_engine/validation.py:11-16 | the array expressions give the largest drop of the cumulative returns, the start included |
| Drawdown.StartDoesNotMatter | apps/backtesting/services.py:30-37 | the drawdown of an equity curve does not depend on its start |
| Drawdown.PrependedStartAgrees | apps/ai_engine/validation.py:13-16 | with the start prepended the two drawdowns are equal |
| Drawdown.DrawdownAgreesIff | apps/backtesting/services.py:30-37 | without the start the drawdown is at most the validation drawdown, equal iff every fall from the start to a point of the curve is matched by a fall between two points of the curve |
| Drawdown.FirstLossIsMissed | apps/backtesting/services.py:30-37 | one loss of 1: the curve shows no drawdown, the validation shows 1 |
| Drawdown.LargestDropIsUnique | apps/backtesting/services.py:34-37 | the largest drop is determined by the curve |
| Drawdown.Streak | apps/backtesting/services.py:43-47 | the loop finds the longest run of wins or losses: it occurs, and no longer one does |
| Indicators.ComputeEma | apps/analysis/advanced.py:24-32 | the loop computes the specified exponential average |
| Indicators.EmaBetween | apps/analysis/advanced.py:24-32 | the average stays between the series' minimum and maximum |
| IndicatorResponses.EmaMoves | apps/analysis/advanced.py:24-32 | each new value moves the average 2 / (n + 1) of the way towards it |
| IndicatorResponses.EmaOfLevel | apps/analysis/advanced.py:24-32 | the average of a series that stays at one level is that level |
| Indicators.ComputeRsi | apps/analysis/advanced.py:35-52 | the loop computes the specified relative strength |
| Indicators.StrengthIsShare | apps/analysis/advanced.py:47-52 | relative strength is the share of gains in all movement in percent, and 50 without movement |
| Indicators.RsiInRange | apps/analysis/advanced.py:47-52 | relative strength lies in [0, 100] |
| Indicators.RsiReflects | apps/analysis/advanced.py:39-52 | reflecting the prices maps x to 100 - x in every case, flat series included |
| Indicators.RsiIsInvariant | apps/analysis/advanced.py:39-52 | positive scaling and shifting change nothing |
| IndicatorResponses.RisingIsStrong | apps/analysis/advanced.py:35-52 | a series that rises by at least some amount each time has relative strength 100 |
| IndicatorResponses.WilderMoves | apps/analysis/advanced.py:39-71 | each new gain, loss or true range moves its average 1 / n of the way towards it |
| Indicators.ComputeAtr | apps/analysis/advanced.py:55-71 | the loops compute the specified average true range |
| Indicators.AtrBetween | apps/analysis/advanced.py:68-71 | the average stays between the bounds of the true ranges |
| Indicators.TrueRangeIsSpan | apps/analysis/advanced.py:61-66 | a true range is the span of the candle together with the close before it |
| Indicators.ComputeMacd | apps/analysis/advanced.py:83-89 | the recomputation over every prefix yields the specified stream, line, signal and histogram |
| Indicators.QuadraticIsLinear | apps/analysis/advanced.py:86 | that quadratic recomputation equals a single linear pass |
| IndicatorResponses.LevelMacd | apps/analysis/advanced.py:83-89 | a series that stays at one level has line, signal and histogram zero |
| IndicatorResponses.LineAnswersStep | apps/analysis/advanced.py:83-89 | a jump away from a level moves the line by 2/13 - 2/27 of the jump |
| IndicatorResponses.SignalAnswersStep | apps/analysis/advanced.py:83-89 | a jump of the line moves the signal by 2/10 of it |
| WalkForward.WalkForwardFolds | apps/ai_engine/validation.py:50-68 | the folds tested are the non-empty windows that show two classes on both sides; none at all is refused |
| WalkForward.WindowsTile | apps/ai_engine/validation.py:51-58 | windows exist iff n > 100; they are non-empty, consecutive from min_train, inside the samples, and leave fewer than `folds` untested |
| WalkForward.WindowSizes | apps/ai_engine/validation.py:51-58 | the first training set is the larger of 100 and an even share of the samples; all windows have one width, there are `folds` of them or one per sample left, and fewer than `folds` samples stay untested |
| WalkForward.TilesAreDisjoint | apps/ai_engine/validation.py:55-58 | no sample is tested twice |
| WalkForward.LearnedAre | apps/ai_engine/validation.py:59-60 | a window is tested iff both its sides show two classes |

## Left out

- BacktestStore.Store.PerformUpdate: the read, the serializer's pending check and the write are one step, as in the other API actions; the code takes no row lock there, and `BacktestRace` models only the late status write of such an action.
- The contents of `result_snapshot`, `worker_id`, the duplicate and quota checks before a create, `_window_result`, `_persist_trades` and the strategy run itself.
- A claimed job's heartbeat: the code has none, so a worker slower than the running cutoff is timed out in the model as in the code.
- Two database rows with the same timestamp: where their order would matter, times are required to be distinct.
- Cache eviction, and two requests that read and write one throttle history at the same time: the throttle's read and write are one step.
- AuthRateLimit.WindowBound: limits below one are treated as one, because the first attempt of a lifetime passes whatever the limit.
- ThrottleBreaker.FailuresAreSpaced: the requests of a process are taken one after another; two threads that both read the breaker before either has failed both wait. `ProcessBound` lets other threads move the breaker at any time.
- BacktestRace.EveryRunIsFencedByVersion: the read, check and version write of one retry or edit are one step; the code takes no lock there, so two overlapping ones could write the same version.
- ThrottleBreaker.ProcessBound: follows one key; requests for other keys only move the breaker.
- Concurrent triggers of one martingale node, and settlements that lose more than the stake: runs are serial and a trade loses at most its stake.
- MartingaleConfig.AcceptedIsValidIff: text is read by one function for floats and decimals, so the rounding and underflow in which the two differ are not captured.
- Python's identity shortcut for a NaN inside a container, and the interpreter's recursion limit on conditions that were never validated.
- Symbols whose registry prefix is a prefix of another's, models inserted by hand, and the refusal of a database to store a non-finite number.
- A NaN among probabilities or weights, and the order of floating-point summation.
- TaskDispatch.Redelivery: two deliveries with nothing in between; interleaved ones are the subject of the other rows.
- TaskDispatch.AtMostOnce: bounds failed sends that got through only by their own number, because the code releases the key after each; `TaskDispatch.AtMostOnceIff` says when there is one send in all.
- Authentication, payload checks and keyword validation of the dispatch endpoint, which only refuse before the key is touched.
- StakeSizing.DayIsBounded: trades are sized one after the other, each after the one before has settled, and lose at most their stake.
- The risk score, labels and other descriptive fields of the account context.
- Zero or negative indicator periods and zero folds, on which the code raises.
- Bollinger bands, swing points, pivots, gaps and candlestick flags; fitting of estimators; classification metrics.
- Login, OAuth, billing, broker adapters, feeds, storage, optimizers, Monte Carlo and replay.
