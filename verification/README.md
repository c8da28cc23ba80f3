# Inventory forecasting service: verified model

A Dafny model of the parts of the service where correctness spans several functions or several
transactions: the background-job and forecast-run protocol, the forecasting pipeline, the limiter of
authentication attempts, refresh-token rotation, the access-token codec, the stock ledger and the
reorder recommendations. `dafny verify dfyconfig.toml` checks everything.

## How it is organised

Pure specifications come first; where the service changes stored rows, a class performs the same
steps in place and its contracts say that it takes exactly the specified step.

| part | specification and theorems | the same steps in place |
|---|---|---|
| jobs and runs | `JobRules`, `ForecastTables`, `JobProtocol`, `JobInvariants`, `JobSafety`, `JobExclusion`, `JobCounterexamples`, `JobOperations` | `JobService` |
| forecasting pipeline | `Features`, `DailyGrid`, `Training`, `Evaluation`, `Fallback`, `Rounding`, `SortedLists`, `PipelineProperties`, `ForecastMeaning` | `FeatureFrame` in `Features`, the methods of `DailyGrid` and `Pipeline` |
| rate limiter | `RateLimit`, `RateLimiter` | `CounterStore`, `AuthRateLimiter` in `RateLimiter` |
| refresh tokens | `RefreshTokens` | `AuthService` |
| access tokens | `Base64Url`, `AccessTokens` | none: the code is expressions |
| stock ledger | `Inventory` | `InventoryService` |
| recommendations | `ReorderPolicy`, `Recommendations`, `Replenishment` | `RecommendationService` |

In the job protocol one action is one committed transaction, one change the queue makes to a message,
or one return to a caller. A run of the machine is any interleaving of any number of API calls and
workers, and the theorems are about every reachable state or every trace.

## What turned out to be false, and exactly when

- **The declared transition table is not always obeyed.** There are exactly two ways out of it, for
  every reachable state and every step (`JobSafety.StatusChangesFollowTable`). A job cancelled between
  its insert and a failed dispatch is then marked failed, because the failure is written without
  looking at the row again. And a finished or failed job is marked started again when its worker died
  after recording the outcome and the queue still had a retry: the start is written whatever the row
  holds, and only the unique index on active jobs can refuse it. Both are reachable
  (`JobCounterexamples.CancelledBecomesFailed`, `FinishedJobRestarts`, `FailedJobRestarts`).
- **Two pipelines can process one run, and the run of a finished job can end up cancelled.** Call an
  insert harmful if its run ever finished a job, or if it resets a run that is being processed.
  `JobExclusion.PromisesHoldExactly` proves, for every interleaving: both promises hold at each of its
  points and after every continuation without harmful inserts if and only if it contains no harmful
  insert. After a harmful one a single further cancel or direct call breaks a promise
  (`HarmfulInsertDoesHarm`). Worker deaths, retries, cancels, reconciles and direct processing never
  do. `JobCounterexamples.TwoPipelines` and `FinishedThenCancelled` reach both outcomes. An insert
  that commits while its run is still pending or failed is never harmful
  (`TimelyTracesAreHarmless`), and neither is one that directly follows its own check
  (`JobOperations.EnqueueAloneIsHarmless`, `RetryAloneIsHarmless`), so checking the status again in the
  insert's transaction would be enough.
- **"Retrying" does not always mean that the queue will retry.** It fails exactly when an earlier
  execution ended before it could mark the start and the last granted one then meets a retryable error
  (`JobSafety.RetryingMatchesQueue`, `JobCounterexamples.RetryingWithoutRetry`).
- **The trailing window of the fallback does not always narrow.** Between any two days of the horizon
  it stays within what it was exactly when its mean was positive or nothing was ever sold
  (`Fallback.WindowNarrowsOverRun`), which always holds after the first prediction. Before it, seven
  days without sales let the all-time mean exceed everything in the window (`Fallback.WindowCanWiden`).
- **More demand can make a product less urgent**: when there was none before and the stock now counts
  as a surplus, and only then (`ReorderPolicy.RiskIsMonotoneInDemand`, `MoreDemandCanLookLessUrgent`).
- **A token can outlive its end by less than a second** when that end lies before 1970 and is not a
  whole second, because the timestamp is truncated towards zero (`AccessTokens.LivesUntilItsEnd`,
  `OutlivesItsEnd`).
- **Not every malformed token is reported as invalid.** Non-ASCII text in the header or payload part
  raises an unhandled error, whatever the signature (`AccessTokens.UnsignedIsRefused`,
  `NonAsciiTextCrashes`).
- **The limiter admits fewer than twice the maximum**: at most `2 * maximum - 1` attempts in any
  half-open interval as long as the window, `2 * maximum` when both ends count, and both bounds are
  reached for every maximum (`RateLimit.BoundsAreReached`).

## Main results

- Jobs and runs: the coupling invariant (`JobInvariants.InvariantStep`), the exact exceptions to the
  transition table (`JobSafety.StatusChangesFollowTable`), what a run stores
  (`JobSafety.StoredResultsAreLatestOutput`), termination of every message
  (`JobSafety.MessageComesToRest`), races between enqueues (`JobSafety.LosingEnqueue`,
  `OneActiveJobPerRun`), the exact condition for the two promises
  (`JobExclusion.PromisesHoldExactly`), and exactly which calls are accepted, with what answer and what
  change (`JobOperations`).
- Pipeline: batch features equal serving features (`Features.BatchEqualsServing`), the nested loop
  equals isolated recursions (`Pipeline.PredictHorizon`), order of products and records is irrelevant
  (`PipelineProperties.ProductOrderIsIrrelevant`, `RecordOrderIsIrrelevant`), sales are conserved
  (`DailyGrid.GridConservesSales`), the split and what the scored model has seen
  (`Training.SplitIsChronologicalAndLossless`, `ValidationIsHonest`, `HeldOutSalesDoNotLeak`), the loop
  continues the training columns (`ForecastMeaning.ServingContinuesBatch`), every output row and the
  metrics row from the records on (`ForecastMeaning.ForecastRowExact`, `ReportExact`), the metric
  inequalities (`Evaluation.MaeRmseMax`), and the fallback over the horizon
  (`Fallback.FallbackForecastsBounded`, `WindowNarrowsOverRun`).
- Authentication: the interval bound and its tightness (`RateLimiter.LetThroughIsBounded`,
  `RateLimit.BoundsAreReached`), separate counters and exact verdicts
  (`RateLimiter.OtherSubjectsUntouched`, `VerdictExactly`), who can sign in
  (`RefreshTokens.LoginNeedsPassword`, `ChangedPasswordSignsIn`), chains of tokens
  (`RefreshTokens.ChainsOfEveryHistory`, `RevokedIsNeverAccepted`, `AcceptedAtMostOnce`), and the codec
  (`Base64Url.RoundTrip`, `AccessTokens.DecodeAfterCreate`).
- Stock: the ledger over all histories (`Inventory.StockIsLedgerSum`), conservation of demand
  (`Recommendations.RowsCoverRun`), and the two together
  (`Replenishment.FollowingARecommendationSettlesIt`).

The laws of single movements and of the reorder policy are supporting facts for these.

## Model

| member | source | states |
|---|---|---|
| JobInvariants.InvariantStep | app/modules/jobs/tasks.py:60-129 | Every step of every actor, worker death at any point included, keeps the coupling invariant: job row, queue message, API calls in progress, pipelines in flight and stored rows always fit together. |
| JobInvariants.InvariantAlongTraces | app/modules/jobs/application/services.py:45-84 | The invariant holds along every interleaving. |
| JobSafety.ReachableInv | app/modules/jobs/application/services.py:45-356 | Every reachable state satisfies the invariant. |
| JobSafety.StatusChangesFollowTable | app/modules/jobs/domain/rules.py:43-62 | In every reachable state, every step changes a job's status along the declared table if and only if it is neither the late "failed" write onto a cancelled job nor the restart of a finished or failed job. |
| JobSafety.TableIsDeclared | app/modules/jobs/domain/rules.py:43-62 | The nine changes the table declares, and no others. |
| JobSafety.StatusChangesThatOccur | app/modules/jobs/domain/rules.py:43-62 | In every reachable state a step changes a status in one of eight declared ways or in one of the three of the exceptions; a retrying job is never cancelled. |
| JobSafety.AttemptsCountStarts | app/modules/jobs/infrastructure/repositories.py:178-187 | Over any trace `attempts` grows by exactly the number of worker starts and never exceeds max(1, max_retries). |
| JobSafety.RetryingMatchesQueue | app/modules/jobs/tasks.py:176-207 | After a retryable error the job is "retrying" exactly when a queue retry is left, if and only if this is not the last execution after one that could not mark its start. |
| JobSafety.MessageComesToRest | app/modules/jobs/application/dispatchers.py:13-51 | Whatever everyone else does, the moves of a message plus its remaining measure never exceed the measure it started with. |
| JobSafety.DispatchedMessageIsBounded | app/modules/jobs/application/dispatchers.py:32-46 | A message just dispatched in a reachable state is moved at most eight times per execution granted by max_retries. |
| JobSafety.ActiveJobIsFound | app/modules/jobs/infrastructure/repositories.py:81-101 | The active-job query finds a job exactly when the unique index would refuse an insert, and finds the only one. |
| JobSafety.LosingEnqueue | app/modules/jobs/application/services.py:64-77 | An enqueue that loses the race creates nothing; whatever happens before it looks again, it answers with the active job if there is one and with the duplicate error otherwise. |
| JobSafety.LostRaceAnswer | app/modules/jobs/application/services.py:68-77 | The second look changes no job and answers with a job of the same owner and run that is active at that moment. |
| JobSafety.OneActiveJobPerRun | app/modules/jobs/infrastructure/models.py:33-44 | In every reachable state two active jobs of one run are the same job, for any number of concurrent calls. |
| JobSafety.DispatchedPayloadMatches | app/modules/jobs/tasks.py:132-139 | Every dispatched message finds its committed row with matching owner and run, and an active row never coexists with a finished message. |
| JobSafety.StoredResultsAreLatestOutput | app/modules/forecasting/application/service.py:211-268 | After any trace a run stores exactly the prediction rows and the one metrics row of its latest successful write, horizon x products rows with unique keys, or nothing; a completed run always has them. |
| JobSafety.LastIsLatest | app/modules/forecasting/application/service.py:211-261 | The output the invariant speaks about is the one the trace itself wrote last. |
| ForecastTables.ReplacementIsExact | app/modules/forecasting/infrastructure/repositories.py:193-246 | Delete and insert leave exactly the new rows and one metrics row for the run and every other run untouched. |
| ForecastTables.ValidOutputIsComplete | app/modules/forecasting/infrastructure/models.py:81-90 | A pipeline output meets the unique constraint and holds each product-day of its horizon exactly once. |
| JobExclusion.ExclusionStep | app/modules/jobs/application/services.py:150-201 | From any state with exclusion, a step leaves both promises safe under every continuation without harmful inserts if and only if it is not a harmful insert itself. |
| JobExclusion.PromisesHoldExactly | app/modules/jobs/application/services.py:45-201 | For every interleaving: at most one pipeline per run and completed runs for all jobs ever finished, safe at every point, if and only if no insert goes into a run that finished a job or resets a run being processed. |
| JobExclusion.HarmfulInsertDoesHarm | app/modules/jobs/application/services.py:174-194 | After any harmful insert one further cancel or direct call breaks one of the two promises. |
| JobExclusion.CancelUndoesCompletion | app/modules/jobs/application/services.py:123-148 | Cancelling a queued job of a run that finished a job leaves that run cancelled. |
| JobExclusion.SecondPipelineEnters | app/modules/forecasting/application/service.py:159-191 | A direct call enters a run that is pending although it is being processed. |
| JobExclusion.HistoryIsTrue | app/modules/jobs/tasks.py:102-103 | The history a message carries says exactly whether its job was finished at some point of the trace. |
| JobExclusion.TimelyTracesAreHarmless | app/modules/jobs/application/services.py:60-84 | Inserts that commit while their run is pending or failed are never harmful. |
| JobExclusion.OnePipelinePerRunAlways | app/modules/forecasting/application/service.py:159-191 | No interleaving without harmful inserts has two pipelines in flight for one run. |
| JobExclusion.FinishedMeansCompletedForEver | app/modules/jobs/tasks.py:87-103 | Without harmful inserts, once a job was finished at some point its run is completed in every later state, under cancels, reconciles, direct processing and late restarts of that job. |
| JobExclusion.ExclusionAlongTraces | app/modules/forecasting/application/service.py:130-191 | Exclusion and the invariant hold along every trace without harmful inserts. |
| JobCounterexamples.CancelledBecomesFailed | app/modules/jobs/application/services.py:294-304 | A reachable state from which the next step turns a cancelled job into a failed one. |
| JobCounterexamples.RetryingWithoutRetry | app/modules/jobs/tasks.py:196-201 | A reachable state in which a job is about to be marked retrying with no retry left. |
| JobCounterexamples.TwoPipelines | app/modules/jobs/application/services.py:172-194 | A reachable state with two pipelines in flight for one run. |
| JobCounterexamples.FinishedThenCancelled | app/modules/jobs/application/services.py:123-148 | A reachable state in which a job is finished and its run is cancelled. |
| JobCounterexamples.FinishedJobRestarts | app/modules/jobs/infrastructure/repositories.py:178-187 | A reachable state in which a finished job is about to be marked started. |
| JobCounterexamples.FailedJobRestarts | app/modules/jobs/infrastructure/repositories.py:178-187 | A reachable state in which a failed job is about to be marked started. |
| JobCounterexamples.RestartRefused | app/modules/jobs/infrastructure/models.py:33-44 | A reachable state in which the unique index refuses such a restart and no row changes. |
| JobService.JobStore.GetActiveJobForEntity | app/modules/jobs/infrastructure/repositories.py:81-101 | Finds the active job of an owner and run, or none. |
| JobService.JobStore.InsertJob | app/modules/jobs/application/services.py:230-269 | Inserts a queued job with no attempts, or changes nothing when the run already has an active job. |
| JobService.JobStore.MarkJobStarted | app/modules/jobs/infrastructure/repositories.py:178-187 | Marks the job started with one more attempt, or changes nothing when another job of the run is active. |
| JobService.JobStore.EnqueueCheck | app/modules/jobs/application/services.py:45-63 | One check transaction is exactly the protocol's check step; `JobOperations.EnqueueAnswersExactly` says which calls that step accepts and what it answers the others. |
| JobService.JobStore.EnqueueInsert | app/modules/jobs/application/services.py:64-69 | One insert transaction is exactly the protocol's insert step. |
| JobService.JobStore.ResolveLostRace | app/modules/jobs/application/services.py:68-77 | The second look is exactly the protocol's step. |
| JobService.JobStore.RetryCheck | app/modules/jobs/application/services.py:150-173 | The retry's checks are exactly the protocol's step; `JobOperations.RetryAnswersExactly` says which retries it accepts. |
| JobService.JobStore.RetryInsert | app/modules/jobs/application/services.py:174-194 | Run reset and insert are one step; a refused insert restores the run. |
| JobService.JobStore.Dispatch | app/modules/jobs/application/dispatchers.py:30-46 | Dispatch enqueues one message with max_retries - 1 retries, none below two, or records the failure. |
| JobService.JobStore.MarkEnqueueFailed | app/modules/jobs/application/services.py:294-304 | The blind failure write is exactly the protocol's step. |
| JobService.JobStore.Reconcile | app/modules/jobs/application/services.py:325-356 | Copies the queue's terminal or started status into a non-terminal row and does nothing else. |
| JobService.JobStore.CancelJob | app/modules/jobs/application/services.py:123-148 | Reconcile, guard, then one step that cancels message, job and run; a refusal changes nothing beyond the reconcile. |
| JobService.JobStore.CancelRun | app/modules/forecasting/application/service.py:130-146 | Cancels pending and running runs and no others. |
| JobService.JobStore.BeginProcessing | app/modules/forecasting/application/service.py:159-191 | Check and "running" in one step; missing dependencies fail the run. |
| JobService.JobStore.EndProcessing | app/modules/forecasting/application/service.py:193-268 | The final write is all or nothing: rows and "completed" together, or the old rows and "failed". |
| JobService.JobStore.WorkerLoad | app/modules/jobs/tasks.py:69-85 | Load, payload check, cancelled shortcut and start with one more attempt are one step; a start refused by the unique index changes no row and raises to the queue. |
| JobService.JobStore.WorkerFinish | app/modules/jobs/tasks.py:102-103 | Recording "finished" is exactly the protocol's step. |
| JobService.JobStore.WorkerAppFailure | app/modules/jobs/tasks.py:142-173 | A non-retryable error fails the job and returns normally to the queue. |
| JobService.JobStore.WorkerUnexpectedFailure | app/modules/jobs/tasks.py:176-215 | A retryable error marks retrying or failed by the attempts left, then raises to the queue. |
| JobOperations.EnqueueAnswersExactly | app/modules/jobs/application/services.py:45-63 | An enqueue goes on to its insert exactly for an owned run that is pending or failed, has no active job, and has inputs; an active job is the answer, and each refusal names exactly what is missing. |
| JobOperations.EnqueueInsertExactly | app/modules/jobs/application/services.py:64-69 | The insert adds one queued job with no attempts, or loses the race exactly when the run has an active job. |
| JobOperations.RetryAnswersExactly | app/modules/jobs/application/services.py:150-173 | A retry goes on to its insert exactly for the caller's own failed job with attempts left, on a run that can start, has no active job and has inputs; each refusal is exact. |
| JobOperations.RetryInsertExactly | app/modules/jobs/application/services.py:174-194 | The run becomes pending together with the new job, or the retry is refused and nothing else changes. |
| JobOperations.EnqueueAloneIsHarmless | app/modules/jobs/application/services.py:45-69 | In every state with exclusion, an enqueue that inserts right after its own check never does harm. |
| JobOperations.RetryAloneIsHarmless | app/modules/jobs/application/services.py:150-194 | The same of a retry: only a race between check and insert can do harm. |
| JobOperations.DispatchExactly | app/modules/jobs/application/dispatchers.py:13-51 | A delivered dispatch enqueues the row's own user and run for max(1, max_retries) executions. |
| JobOperations.EnqueueFailureExactly | app/modules/jobs/application/services.py:294-304 | A failed dispatch leaves the job failed and answers that the queue is unavailable. |
| JobOperations.ReconcileExactly | app/modules/jobs/application/services.py:325-356 | A row that has not ended takes the status its queue status stands for; waiting messages and ended rows stay as they are. |
| JobOperations.ReconcileSettles | app/modules/jobs/domain/rules.py:138-152 | In every reachable state, once the queue is done with a message a reconcile leaves its row ended; a row that was still active is then failed. |
| JobOperations.CancelJobExactly | app/modules/jobs/application/services.py:123-148 | Exactly queued jobs can be cancelled; message, job and run are then all cancelled. |
| JobOperations.CancelRunExactly | app/modules/forecasting/application/service.py:130-146 | Exactly pending and running runs can be cancelled. |
| JobOperations.DirectBeginExactly | app/modules/forecasting/application/service.py:159-191 | A run is taken exactly if it is owned, can start and the dependencies are there; without them it fails. |
| JobOperations.WorkerBeginExactly | app/modules/forecasting/application/service.py:159-191 | The same of a worker, which goes on computing or to recording a failure. |
| JobOperations.PipelineFailsExactly | app/modules/forecasting/application/service.py:308-320 | A failing pipeline leaves its run failed and every stored row as it was. |
| JobOperations.InterruptedExactly | app/modules/jobs/tasks.py:104-129 | A retryable exception leaves run and stored rows as they are. |
| JobOperations.CompleteExactly | app/modules/forecasting/application/service.py:193-268 | A final write completes its run, makes the output exactly what the run stores, and touches no other run. |
| JobOperations.LoadExactly | app/modules/jobs/tasks.py:60-85 | In every state with the invariant a fetched message starts its job with one more attempt, unless the job is cancelled or its run has another active job. |
| JobOperations.MismatchIsRaised | app/modules/jobs/tasks.py:132-139 | A message that fits no row is raised to the queue and changes nothing. |
| JobOperations.RecordingExactly | app/modules/jobs/tasks.py:87-103 | Success records "finished", a non-retryable error "failed", and both return to the queue. |
| JobOperations.RecordingTransientExactly | app/modules/jobs/tasks.py:176-215 | A retryable error records "retrying" while attempts are below max_retries and "failed" otherwise. |
| JobOperations.RaiseExactly | app/modules/jobs/application/dispatchers.py:32-46 | After a raise or a death the message waits again, with one retry less, exactly while retries were left. |
| Features.BatchEqualsServing | app/modules/forecasting/ml/features.py:41-113 | At every row of every frame each grouped shift, rolling and fill column equals the one-row computation on the product's earlier quantities; other products' rows do not matter. |
| Features.FeatureRowExact | app/modules/forecasting/ml/features.py:41-66 | A feature row said of single days: code and calendar of its day, the quantities one and seven days back, and the means of the last seven and fourteen days. |
| Features.DeviationExact | app/modules/forecasting/ml/features.py:103-113 | The deviation is the sample deviation of the last seven days, zero for fewer than two. |
| Features.ProductCodesAreRanks | app/modules/forecasting/ml/features.py:21-22 | Codes of distinct products are within 0 to n - 1 and ordered like the ids. |
| Features.FeatureFrame.constructor | app/modules/forecasting/ml/features.py:25-38 | Building the frame column by column gives every row exactly the features serving would compute for that day. |
| Features.FillColumns | app/modules/forecasting/ml/features.py:92-99 | Filling replaces the missing values of every column by zero and leaves the others. |
| Features.SortRowsSorts | app/modules/forecasting/ml/features.py:79 | Sorting by product and date keeps the rows as a multiset. |
| DailyGrid.SalesRecordsFromObjects | app/modules/forecasting/ml/preprocessing.py:22-37 | The loop keeps exactly the usable records, in order. |
| DailyGrid.CleanSalesExact | app/modules/forecasting/ml/preprocessing.py:22-37 | What is kept is positive and present in the input, and nothing usable is lost. |
| DailyGrid.GridRowsExact | app/modules/forecasting/ml/preprocessing.py:40-80 | Every active product has exactly one row per day of the span, in date order, holding that day's total; other products have none. |
| DailyGrid.SpanExact | app/modules/forecasting/ml/preprocessing.py:53-63 | The grid runs from the first to the last relevant sale, both included, or covers today alone. |
| DailyGrid.GridConservesSales | app/modules/forecasting/ml/preprocessing.py:40-80 | A product's grid total is the sum of its positive records, and all histories have the same length. |
| DailyGrid.HistoryOfProduct | app/modules/forecasting/ml/pipeline.py:156-158 | A product's history is its daily totals over the span, none negative. |
| DailyGrid.GridIgnoresRecordOrder | app/modules/forecasting/ml/preprocessing.py:49-63 | Permuting the sales changes no product's rows. |
| Training.SplitIsChronologicalAndLossless | app/modules/forecasting/ml/training.py:24-47 | On every path the parts together are the frame; when rows are held out every training day precedes every validation day and training keeps its minimum size. Which rows the scored model has seen is `Training.ValidationIsHonest`. |
| Training.SplitIsMadeExactlyWhen | app/modules/forecasting/ml/training.py:27-36 | The exact condition under which rows are held out. |
| Training.ValidationIsHonest | app/modules/forecasting/ml/training.py:37-47 | Held-out rows are predicted by a model fitted on the training part alone, and the model that goes on to forecast is fitted on everything. |
| Training.HeldOutSalesDoNotLeak | app/modules/forecasting/ml/training.py:31-46 | Changing the quantities of the held-out rows changes no prediction that is scored. |
| Training.HeldOutDaysExact | app/modules/forecasting/ml/training.py:29-31 | A fifth of the days is held out, at least one and at most seven. |
| Training.HeldOutIsLatest | app/modules/forecasting/ml/training.py:31-34 | The held-out days are the latest ones. |
| Evaluation.MaeRmseMax | app/modules/forecasting/ml/evaluation.py:14-16 | MAE <= RMSE <= the largest absolute error for all vectors of equal length. |
| Evaluation.SumSquared | app/modules/forecasting/ml/evaluation.py:14-16 | The squared sum of errors is at most their number times the sum of squares. |
| Evaluation.MapeBounded | app/modules/forecasting/ml/evaluation.py:17-18 | 0 <= MAPE <= 100 x MAE, as denominators are at least one. |
| Evaluation.StoredScoresOrdered | app/modules/forecasting/ml/evaluation.py:19-29 | Stored scores are all present or all missing, and MAE <= RMSE survives rounding to four places. |
| Evaluation.ScoresAreMeans | app/modules/forecasting/ml/evaluation.py:14-18 | Times the number of rows, the three scores are the sums of absolute errors, squared errors and percentages. |
| Evaluation.StoredScoresExact | app/modules/forecasting/ml/evaluation.py:19-29 | Each stored score is its own score to the nearest ten-thousandth. |
| Evaluation.EqualErrors | app/modules/forecasting/ml/evaluation.py:14-19 | When every error is the same, MAE and RMSE are that error. |
| Evaluation.ClippingNeverHurts | app/modules/forecasting/ml/pipeline.py:129-130 | Clipping predictions at zero never increases MAE or mean squared error. |
| Rounding.RoundMonotone | app/modules/forecasting/ml/evaluation.py:29 | Rounding half to even is monotone. |
| Fallback.FallbackBounds | app/modules/forecasting/ml/pipeline.py:161-170 | One fallback prediction lies between zero and the largest observed value, and is zero only for an all-zero history. |
| Fallback.FallbackPredictionExact | app/modules/forecasting/ml/pipeline.py:161-170 | The mean of the last seven days where positive, else of all positive days, else zero, said as sums over those days. |
| Fallback.FallbackForecastsBounded | app/modules/forecasting/ml/pipeline.py:74-93 | The same over the whole horizon, as predictions join the history. |
| Fallback.WindowNarrows | app/modules/forecasting/ml/pipeline.py:163-170 | The exact condition under which a prediction neither raises the trailing window's maximum nor lowers its minimum; a positive recent mean stays positive. |
| Fallback.WindowNarrowsOverRun | app/modules/forecasting/ml/pipeline.py:74-93 | Over the whole horizon: between any two days the window stays within what it was exactly when its mean was positive or nothing was ever sold; a positive recent mean stays positive. |
| Fallback.WindowCanWiden | app/modules/forecasting/ml/pipeline.py:161-170 | A history whose first prediction exceeds everything in its window. |
| Pipeline.PredictOne | app/modules/forecasting/ml/pipeline.py:76-101 | One turn extends the product's history by the specified next value and records that as demand; `ForecastMeaning.ModelSeesForecastDay` and `FallbackSeesHistory` say what the next value is. |
| Pipeline.PredictDay | app/modules/forecasting/ml/pipeline.py:76-101 | The inner loop extends every product's history by its own next value and touches no other. |
| Pipeline.PredictHorizon | app/modules/forecasting/ml/pipeline.py:74-101 | The day-major loop over shared histories yields each product's recursion run in isolation. |
| Pipeline.FallbackProductIds | app/modules/forecasting/ml/pipeline.py:144-153 | The loop collects exactly the products with too few days or too few positive days. |
| Pipeline.BuildLabelledFrame | app/modules/forecasting/ml/pipeline.py:57-58 | Training rows carry the serving features of their day as inputs and the day's quantity as label. |
| Pipeline.RunForecastingPipeline | app/modules/forecasting/ml/pipeline.py:40-115 | The whole pipeline returns the specified output, or names the missing dependency or the absence of dates. |
| PipelineProperties.ForecastsAreIsolated | app/modules/forecasting/ml/pipeline.py:74-101 | Every output row equals its product's recursion from its own history alone. |
| PipelineProperties.ProductOrderIsIrrelevant | app/modules/forecasting/ml/pipeline.py:66-101 | Listing the products in another order changes no forecast, from records to rows. |
| PipelineProperties.RecordOrderIsIrrelevant | app/modules/forecasting/ml/pipeline.py:50-115 | Permuting the records changes nothing of the output. |
| PipelineProperties.OutputIsValid | app/modules/forecasting/ml/pipeline.py:66-101 | The output holds each product-day from the day after the last sale to the horizon exactly once. |
| ForecastMeaning.ModelSeesForecastDay | app/modules/forecasting/ml/pipeline.py:74-93 | The value for the n-th day is what the model says of the features of exactly that day, from the history and the n - 1 earlier predictions, clipped at zero. |
| ForecastMeaning.FallbackSeesHistory | app/modules/forecasting/ml/pipeline.py:79-82 | Without a model it is the fallback of the same history. |
| ForecastMeaning.ServingContinuesBatch | app/modules/forecasting/ml/pipeline.py:74-93 | Append a product's predictions to the grid as if they were sales: the feature columns training would compute for the last day are the ones that day was predicted from. |
| ForecastMeaning.TrainingRowsAreHistory | app/modules/forecasting/ml/features.py:25-38 | A training row asks for one day of its product's history and knows only the days before it. |
| ForecastMeaning.SkipsModelExactly | app/modules/forecasting/ml/pipeline.py:66-80 | A product skips the model exactly if there are fewer than ten rows to train on or it has fewer than seven days or two positive ones; otherwise the model is the one fitted on the whole frame. |
| ForecastMeaning.ForecastRowExact | app/modules/forecasting/ml/pipeline.py:50-101 | Every output row from the records on: its model name, the features and the fit its value comes from, and its demand to the nearest thousandth. |
| ForecastMeaning.ReportExact | app/modules/forecasting/ml/pipeline.py:102-141 | The metrics row reports the sizes of the two parts, the scores of the clipped held-out predictions against the quantities, and the number of products that skip the model. |
| PipelineProperties.ReportedRowsAddUp | app/modules/forecasting/ml/pipeline.py:59-64 | Training rows plus validation rows equal products x days on every path. |
| PipelineProperties.ShortHistoryIsAllOrNone | app/modules/forecasting/ml/pipeline.py:144-153 | The short-history test puts all products on the fallback or none. |
| PipelineProperties.FallbackForecastOfDay | app/modules/forecasting/ml/pipeline.py:74-93 | A fallback forecast of any day never exceeds the product's largest observed day and is zero exactly when the product never sold. |
| PipelineProperties.FallbackWindowOfForecasts | app/modules/forecasting/ml/pipeline.py:74-93 | The same for the forecasts of a product on the fallback, from its records. |
| RateLimit.AtMostMaximumPerWindow | app/modules/auth/infrastructure/rate_limit.py:17-23 | In each window at most the maximum is admitted for a key, over all logs. |
| RateLimit.AdmittedWhileBelow | app/modules/auth/infrastructure/rate_limit.py:17-23 | The counter of a window is the number of attempts in it, and exactly the first `maximum` of them were admitted. |
| RateLimit.AtMostTwiceInAnyInterval | app/modules/auth/infrastructure/rate_limit.py:17-23 | In any interval as long as the window at most 2 x maximum - 1 are admitted, 2 x maximum if both ends count. |
| RateLimit.BoundsAreReached | app/modules/auth/infrastructure/rate_limit.py:17-23 | For every maximum and window a log that reaches either bound. |
| RateLimiter.LetThroughIsBounded | app/modules/auth/infrastructure/rate_limit.py:94-120 | Over any history of calls of all kinds, the calls let through for one address or account in such an interval obey the bound. |
| RateLimiter.AllowedCallsAreAdmitted | app/modules/auth/infrastructure/rate_limit.py:110-120 | A call let through was admitted on each of its limits. |
| RateLimiter.RefusedIpSparesAccount | app/modules/auth/infrastructure/rate_limit.py:94-98 | A login refused by the address limit leaves the account counter unchanged; otherwise it is counted once. |
| RateLimiter.RetryAfterIsUseful | app/modules/auth/infrastructure/rate_limit.py:63-67 | A refused caller is told to wait between one second and the window, and half a second more than told always suffices. |
| RateLimiter.ScopesAreSeparate | app/modules/auth/infrastructure/rate_limit.py:122-128 | Keys of different scopes differ whatever the digest does; subjects within one scope are `RateLimiter.SubjectsAreSeparate`. |
| RateLimiter.SubjectsAreSeparate | app/modules/auth/infrastructure/rate_limit.py:122-128 | Within a scope two subjects share a counter only if their digests coincide, so never for a digest without collisions. |
| RateLimiter.OtherSubjectsUntouched | app/modules/auth/infrastructure/rate_limit.py:110-128 | What one address or account does never changes the counter of another. |
| RateLimiter.OtherCallsUntouched | app/modules/auth/infrastructure/rate_limit.py:110-120 | Over any history of calls a counter that none of them is about stays what it was. |
| RateLimiter.VerdictExactly | app/modules/auth/infrastructure/rate_limit.py:110-120 | A call is refused exactly for the first of its limits whose own counter is beyond its maximum, and let through exactly if there is none. |
| RateLimiter.SubjectOfClient | app/modules/auth/infrastructure/rate_limit.py:94-108 | Clients without an address share one subject; every other address is its own. |
| RateLimiter.CounterStore.Increment | app/modules/auth/infrastructure/rate_limit.py:17-23 | Increment, expiry on the first attempt and remaining time agree with the log of all increments. |
| RateLimiter.AuthRateLimiter.Enforce | app/modules/auth/infrastructure/rate_limit.py:110-120 | The loop counts limits in order and stops at the first exceeded one; disabled, it counts nothing. |
| RateLimiter.AuthRateLimiter.EnforceLogin | app/modules/auth/infrastructure/rate_limit.py:94-98 | A login is limited by address first, then by account; disabled, it is let through and counted nowhere. Whom it refuses is `RateLimiter.VerdictExactly`, whose counters it touches `RateLimiter.OtherSubjectsUntouched`. |
| RateLimiter.AuthRateLimiter.EnforceRegistration | app/modules/auth/infrastructure/rate_limit.py:100-103 | A registration is limited by address alone. |
| RateLimiter.AuthRateLimiter.EnforceRefresh | app/modules/auth/infrastructure/rate_limit.py:105-108 | A refresh is limited by address alone. |
| RefreshTokens.HistoriesKeepInv | app/modules/auth/infrastructure/repositories.py:80-113 | After any history replacement links are injective, stay within one user and point to later tokens. |
| RefreshTokens.ChainsOfEveryHistory | app/modules/auth/application/service.py:123-234 | After any history tokens form disjoint chains, each within one user, with at most one unrevoked token, its tail. |
| RefreshTokens.ChainsNeverMerge | app/modules/auth/infrastructure/repositories.py:91-113 | Two tokens that lead to the same token lie on one path. |
| RefreshTokens.RevokedRowsAreFrozen | app/modules/auth/infrastructure/repositories.py:80-89 | A revoked row never changes again. |
| RefreshTokens.RevokedIsNeverAccepted | app/modules/auth/application/service.py:217-234 | After any further history a revoked token is answered "revoked" and changes nothing. |
| RefreshTokens.AcceptedAtMostOnce | app/modules/auth/application/service.py:123-177 | Over any history a token is accepted at most once, refresh and logout together. |
| RefreshTokens.RefreshIsExact | app/modules/auth/application/service.py:123-163 | A refresh is accepted exactly for a stored, unrevoked, unexpired token of an active user with an untaken new hash; it revokes and links that row, adds one live token of the same user and changes nothing else; refused, it changes nothing. |
| RefreshTokens.UnknownTokensAreRefused | app/modules/auth/application/service.py:217-229 | Tokens that were never stored are refused and change nothing. |
| RefreshTokens.RefusalsAreExact | app/modules/auth/application/service.py:217-234 | Which refusal a stored token meets: revoked before expired, expired before an inactive user. |
| RefreshTokens.LogoutIsExact | app/modules/auth/application/service.py:165-177 | A logout accepts exactly stored, unrevoked, unexpired tokens, revokes that row without a successor and changes nothing else. |
| RefreshTokens.HistoriesKeepEmails | app/modules/auth/infrastructure/models.py:19 | After any history no two users share an e-mail address. |
| RefreshTokens.LoginIsExact | app/modules/auth/application/service.py:93-112 | For a known address the password decides, then activity, then the drawn hash; success adds one token of that user and a refusal changes nothing. |
| RefreshTokens.LoginNeedsPassword | app/modules/auth/application/service.py:93-112 | A login succeeds if and only if some active user has that address and that password and the drawn hash is new. |
| RefreshTokens.ChangePasswordIsExact | app/modules/users/application/service.py:46-68 | Only an active user's current password and a strong new one change it; exactly that user's live tokens end and a refusal changes nothing. |
| RefreshTokens.ChangedPasswordSignsIn | app/modules/users/application/service.py:46-68 | After a change the new password signs in and the old one, if different, does not. |
| RefreshTokens.RegisterIsExact | app/modules/auth/application/service.py:52-83 | A registration succeeds exactly with a strong password, a new address and a new hash, and adds one active user and one token. |
| RefreshTokens.RegisteredPasswordSignsIn | app/modules/auth/application/service.py:52-112 | Afterwards exactly the registered password signs in. |
| RefreshTokens.LiveStep | app/modules/users/application/service.py:46-68 | A password change ends all live tokens of that user and nobody else's; a refresh keeps their number. |
| RefreshTokens.NoMoreSessionsThanSignIns | app/modules/auth/application/service.py:179-201 | A user never has more live tokens than successful sign-ins. |
| AuthService.AuthStore.GetValidRefreshToken | app/modules/auth/application/service.py:217-234 | Accepts exactly stored, unrevoked, unexpired tokens and names the first failing check. |
| AuthService.AuthStore.RefreshToken | app/modules/auth/application/service.py:123-163 | Rotation is one transaction: old row revoked and linked, new row inserted, or nothing. |
| AuthService.AuthStore.RegisterUser | app/modules/auth/application/service.py:52-83 | User and first token are created together or not at all. |
| AuthService.AuthStore.LoginUser | app/modules/auth/application/service.py:85-112 | One login transaction is exactly the specified step; `RefreshTokens.LoginIsExact` says whom it lets in. |
| AuthService.AuthStore.LogoutUser | app/modules/auth/application/service.py:165-177 | Revokes the presented token without a successor. |
| AuthService.AuthStore.ChangeUserPassword | app/modules/users/application/service.py:46-68 | New password and bulk revocation in one transaction. |
| AuthService.AuthStore.RevokeUserRefreshTokens | app/modules/users/infrastructure/repositories.py:39-48 | Revokes exactly the user's rows that were not revoked yet. |
| AuthService.AuthStore.RotateRefreshToken | app/modules/auth/infrastructure/repositories.py:91-113 | Inserts the successor and points the old row at it; a hash collision changes nothing. |
| Base64Url.RoundTrip | app/modules/auth/domain/tokens.py:28-34 | Decoding inverts encoding for every byte string. |
| Base64Url.EncodedText | app/modules/auth/domain/tokens.py:28-34 | Encodings hold no padding and no dots, have length 4n/3 rounded up, and the padding recomputed from the length is exactly what was stripped. |
| Base64Url.AlphabetIsStandard | app/modules/auth/domain/tokens.py:28-34 | Encoding uses the url-safe alphabet of RFC 4648, and decoding reads that and the standard one. |
| Base64Url.EncodedTextIsUrlSafe | app/modules/auth/domain/tokens.py:28-29 | Every character of an encoding is one of the 64 url-safe ones. |
| Base64Url.OnlyAlphabetIsData | app/modules/auth/domain/tokens.py:32-34 | No character outside the two alphabets stands for data. |
| Base64Url.OtherCharactersAreSkipped | app/modules/auth/domain/tokens.py:32-34 | Decoding skips such characters wherever they stand. |
| Base64Url.DecodesExactly | app/modules/auth/domain/tokens.py:32-34 | Text in the alphabet decodes exactly when its length is not one more than a multiple of four, to three quarters of its length. |
| AccessTokens.DecodeAfterCreate | app/modules/auth/domain/tokens.py:41-115 | A created token has three parts; under another secret it is invalid unless the two MACs coincide, under its own it gives back its subject until the whole second of its expiry and is expired from then on. |
| AccessTokens.LivesUntilItsEnd | app/modules/auth/domain/tokens.py:49-56 | Accepted at every instant up to one second before its end; expired at every instant from its end on, exactly when the end is not a fractional second before 1970. |
| AccessTokens.AcceptedExactly | app/modules/auth/domain/tokens.py:65-115 | A token is accepted exactly if it has three parts, the MAC of the first two as its third, and, in them, an HS256 header and unexpired access claims with a readable subject. |
| AccessTokens.RefusedClaimsAreExact | app/modules/auth/domain/tokens.py:84-115 | Exactly which claims are expired, and which raise an error that is neither of the two token errors. |
| AccessTokens.CreatedClaims | app/modules/auth/domain/tokens.py:41-62 | What a created token says in its header and payload, and what is signed. |
| AccessTokens.TamperingIsNoticed | app/modules/auth/domain/tokens.py:71-89 | A signature made for one header and payload is refused with any other texts whatever, unless the two MACs coincide. |
| AccessTokens.TokensAreUnambiguous | app/modules/auth/domain/tokens.py:41-62 | Equal tokens were created for the same subject, issue second and expiry second. |
| AccessTokens.NonAsciiTextCrashes | app/modules/auth/domain/tokens.py:76 | A token whose decoding raises an unhandled error. |
| AccessTokens.OutlivesItsEnd | app/modules/auth/domain/tokens.py:51-56 | A token still accepted at its end, one microsecond before 1970. |
| AccessTokens.UnsignedIsRefused | app/modules/auth/domain/tokens.py:71-89 | Without a right signature a token is invalid, except exactly for three-part tokens with non-ASCII text in the first two parts, which crash. |
| AccessTokens.ThreeParts | app/modules/auth/domain/tokens.py:71-74 | Three texts without dots, joined by dots, split into the same three. |
| Inventory.StockIsLedgerSum | app/modules/inventory/application/service.py:30-183 | After any history an item's stock is the sum of its deltas, is its last row's balance, and is never negative; the ledger chains. |
| Inventory.ConsecutiveRowsChain | app/modules/inventory/application/service.py:147-176 | Consecutive rows of one item satisfy before = previous after. |
| Inventory.HistoriesKeepInv | app/modules/inventory/application/service.py:30-183 | Creates, movements and threshold updates keep the invariant. |
| Inventory.HistoryIsAppendOnly | app/modules/inventory/application/service.py:132-183 | The ledger only grows, other items are untouched, and a refused operation changes nothing. |
| Inventory.QuantizeIsExact | app/modules/inventory/domain/stock.py:60-84 | Quantizing to thousandths is exact for every accepted decimal. |
| Inventory.NormalizeAcceptsExactly | app/modules/inventory/domain/stock.py:60-111 | Exactly which quantities are accepted, and as how many thousandths. |
| Inventory.StockInThenOut | app/modules/inventory/domain/stock.py:151-162 | Taking out what was put in succeeds and restores the item. |
| Inventory.StockOutIsExact | app/modules/inventory/domain/stock.py:157-171 | A stock-out succeeds exactly for a positive quantity that is there, is insufficient exactly when more is wanted, and takes exactly that. |
| Inventory.UpdatesKeepStock | app/modules/inventory/application/service.py:112-130 | Threshold updates leave stock and ledger alone. |
| Inventory.CreateIsExact | app/modules/inventory/application/service.py:30-76 | When an item is created, with which error otherwise, and what the new item and its opening row hold. |
| Inventory.UpdateIsExact | app/modules/inventory/application/service.py:112-130 | An update changes exactly the given fields to the given values; each refusal is exact. |
| Inventory.MoveIsExact | app/modules/inventory/application/service.py:132-183 | A movement of any kind goes through exactly when its target is neither negative nor too large; the stock is then the target and one row records the way there. |
| Inventory.AdjustmentSetsStock | app/modules/inventory/domain/stock.py:163-165 | An adjustment succeeds exactly for valid quantities, sets the stock to them, and repeated adds only a zero row. |
| Inventory.CorrectionsCancel | app/modules/inventory/domain/stock.py:166-171 | A correction succeeds exactly when the result stays in range, and its opposite undoes it. |
| Inventory.MovementAddsUp | app/modules/inventory/domain/stock.py:139-175 | Whatever the kind, the new stock is the old one plus the delta and not negative. |
| InventoryService.InventoryStore.CreateStockMovement | app/modules/inventory/application/service.py:132-183 | Item and ledger row change together; a value the column cannot hold rolls both back. |
| InventoryService.InventoryStore.CreateInventoryItem | app/modules/inventory/application/service.py:30-76 | Creates the item, with an opening row exactly for a positive opening stock. |
| InventoryService.InventoryStore.UpdateInventoryThresholds | app/modules/inventory/application/service.py:112-130 | One update is exactly the specified step, errors included. |
| ReorderPolicy.RiskIsBand | app/modules/recommendations/domain/risk_engine.py:6-25 | For positive demand the five classes are five bands of stock; for none there are two. |
| ReorderPolicy.ReorderMatchesRisk | app/modules/recommendations/domain/reorder_policy.py:12-31 | Something is to be reordered exactly for critical, high and medium, and it closes the gap exactly. |
| ReorderPolicy.RiskIsMonotoneInStock | app/modules/recommendations/domain/risk_engine.py:6-25 | More stock never makes a product more urgent, for any demand. |
| ReorderPolicy.RiskIsMonotoneInDemand | app/modules/recommendations/domain/risk_engine.py:6-25 | More demand never makes it less urgent, except exactly when there was none and the stock becomes a surplus. |
| ReorderPolicy.MoreDemandCanLookLessUrgent | app/modules/recommendations/domain/risk_engine.py:6-25 | Stock and demands for which more demand lowers the urgency. |
| Recommendations.RowsCoverRun | app/modules/recommendations/application/service.py:71-128 | One row per forecast product in increasing order; demands add up to the run's total; the five counts add up to the rows. |
| Recommendations.GroupsKeepTotal | app/modules/recommendations/infrastructure/repositories.py:72-96 | Grouping by product loses and doubles no demand. |
| Recommendations.RowIsExact | app/modules/recommendations/application/service.py:300-349 | Required stock is demand plus safety stock, the gap is what is missing to it, the reorder quantity is its positive part, and risk and advice are those of these numbers. |
| Recommendations.AdviceFollowsRisk | app/modules/recommendations/domain/risk_engine.py:28-35 | Reorder for critical and high, monitor medium, review overstock, nothing otherwise. |
| Recommendations.DemandIsOwnTotal | app/modules/recommendations/infrastructure/repositories.py:72-96 | A group's demand is the total of its own product's rows. |
| Recommendations.PredictionsAreOwn | app/modules/recommendations/infrastructure/repositories.py:72-96 | Only the user's own rows of that run are read. |
| Recommendations.RowFitsExactly | app/modules/recommendations/application/service.py:103-119 | When the columns can hold a row's numbers. |
| Recommendations.GenerateAnswersExactly | app/modules/recommendations/application/service.py:45-129 | A call succeeds exactly when nothing is missing, each refusal names the first thing that is, and the summary is right. |
| Recommendations.GenerateReplacesExactly | app/modules/recommendations/application/service.py:103-119 | Success leaves exactly the new rows for the run and all other rows as they were; failure changes nothing. |
| Recommendations.RegenerationIsIdempotent | app/modules/recommendations/application/service.py:60-68 | Repeating is refused without refresh and changes nothing with it. |
| RecommendationService.RecommendationStore.GenerateForForecastRun | app/modules/recommendations/application/service.py:45-129 | The transaction, with rollback, is exactly the specified step, with the errors in the same order. |
| RecommendationService.CountRisks | app/modules/recommendations/application/service.py:351-360 | The five counts are right and add up to the number of rows. |
| Replenishment.FollowingARecommendationSettlesIt | app/modules/recommendations/application/service.py:300-349 | Generate, receive a positive reorder quantity, generate again: the receipt is never refused, the product's gap and reorder are zero and its risk low, and no other row changes. |
| Replenishment.ReceiptIsAccepted | app/modules/inventory/application/service.py:132-183 | Receiving a recommended quantity succeeds and brings the stock to the required stock. |
| Replenishment.EveryForecastProductIsRecommended | app/modules/recommendations/application/service.py:71-102 | A stored pipeline output with a positive horizon leads to exactly one recommendation for each product it forecast. |

## Assumptions

- A transaction is one step. The worker's load and start are one step, and so are check and "running"
  in `process_forecast_run`, and read, look-up and write in a reconcile. Cancelling in the queue and
  cancelling in the database are one step. Refresh-token and inventory transactions run one at a time.
- The queue re-runs a message only after a raise with retries left; a dead worker counts as a raise,
  whenever it dies; a failed dispatch did not enqueue; nobody sends a stop command. The worker process
  runs without a scheduler of its own, so a delayed retry waits until some scheduler picks it up; the
  model lets it run at any time.
- A write that the unique index refuses leaves the session unusable until it is rolled back. The
  worker's own attempt to record the failure then fails too, is rolled back, and the error goes to the
  queue, so a refused start changes no row.
- An unchanged attribute is left out of an update, so a retry that read its run as pending does not
  write it.
- The queue's job id equals the requested one, so the branch that stores a different id is unused.
- Product ids are numbers: ordering canonical UUID text is ordering the numbers. Floats are reals;
  the square root, the calendar and the fitted regressor are parameters.
- The HMAC, JSON text and UUID text are parameters; only that JSON and UUID text can be read back is
  required. Times are exact microseconds.
- The counting store drops a key at its expiry instant and reports the remaining time rounded to
  seconds; a call that cannot reach it counts nothing.

## Left out

- Routes, schemas, cookies, logging, health checks, configuration and migrations: plumbing.
- Training of the random forest, pandas and numpy internals, float rounding, NaN and infinite values.
- Password hashing, and the normalization of e-mail addresses, names, notes and SKUs.
- Dashboards, reports, list filters, sorting and pagination: generated queries.
- Products, settings, sales upload and transaction validators: per-field rules that are easy beside the rest.
- Status changes of single recommendations, and the reason texts: one branch each.
- Row locks, session expiry and lazy loading; interleavings inside one transaction.
- Job columns that no rule reads (times, error texts, result summaries, queue names).
- Unsupported field names in a threshold update, and non-boolean activity flags: refused before any of the modelled checks.
- `JobService.JobStore.Dispatch`: does not model queue names, timeouts and result lifetimes, which only the queue reads.
- `RateLimiter.CounterStore.Increment`: does not model a call that times out after the script has counted.
