# A model of the workflow engine

This project models the parts of the engine where the promises span many functions and many
interleavings, and proves those promises: the executor that runs a job's dependency graph, the
tables that schedulers, workers and API servers share, and three smaller state machines beside
them. `dafny verify dfyconfig.toml` checks all of it.

**Jobs and their graph.** `Graph`, `JobGraph` and `Levels` hold the dependency graph: the cycle
search, Kahn's levels, both closures and the edit check. `Jobs` and `Validator` hold job definitions
and the checks that accept them. `JsonValues` and `Expressions` hold WHEN and FOREACH paths.

**The executor.** `RunSpec` says, with no scheduler in sight, what log every step of a run must end
with. `Rounds` says in which round a step starts, what blocks it and which failure speaks for the job.
`StepTask` (retries and fan-out), `Batch` (several workers that take turns step by step), `RunState`
and `Runner` (rounds, skipping, committing, cancelling) follow the code; `Runs` ties whole runs to
the meaning, and `RunLaws` relates several runs, or a run and the execution plan. `Limiter` is the
concurrency limiter every executor call goes through, and `Calls` has all the calls of a batch and its
fan-outs in flight at once. `Resume` says which steps a resumed or a test run executes, and which
resumed runs get stuck.

**The shared tables.** `Executions` has one function per database transaction over one state:
executions, queue policies, rate windows, leases, triggers and outbox rows, plus history that no table
holds. `ExecutionLaws` (lifecycle and claims), `ExecutionRates` (rate windows and leases),
`ExecutionOutbox` (webhook deliveries, trigger events, occurrences), `ExecutionEnds` (the moment of an
end) and `ExecutionOverlap` prove what every run of transactions keeps. `Transactions` tells what each
transaction does by rows and columns alone, and `ExecutionProgress` what claims must do, not only what
they may. `ExecutionRepository` has the methods that update the tables, each shown to be one of those
transactions, to do what is told of it, and together to be all of them.
`Schedule` adds the calendar, due jobs and backfills, `Worker` the dispatcher and one claimed execution
among everybody else's transactions, `StepTable` the step rows both of them write, `KeyedRuns` the runs
with an Idempotency-Key.

**Beside them.** `Automation` has job chains and their edits, and `Cascades` what chains make of the
executions in the shared tables. `Incidents` has the incident rows and their event log, `Idempotency`
the canonical text of JSON values.

## What is taken for granted

- A database transaction is one atomic step. The clock may go on inside a claim. Row locks that are
  skipped only make a claim or a reaper choose among fewer rows, so any eligible row may be chosen.
- An executor, a condition and a FOREACH list are functions of the step, the outputs of its
  dependencies, the item and the attempt. The runner hands them the whole context; reading the output
  of a step that is no dependency would make a run depend on its schedule. Where runs of a job with and
  without FAIL_JOB_ON_FAILURE are compared, none of them reads that flag.
- Only the reaper writes the code WORKER_LOST, only the scheduler enqueues scheduled executions, and only
  a dispatched trigger event makes an execution the child of another; so it is in the code.
- Observers and database writes of a run succeed. `createChain` checks and inserts outside a
  transaction in the code; here that is one step.
- A cron expression in its time zone is a strictly increasing sequence of times without end. SHA-256 is
  injective, and `localeCompare` is a total order of strings.
- Times inside the shared tables are microseconds, integers are unbounded.

## Where the code does less than its reader may expect

- After an abort a step can keep the log `pending`: `executeStep` throws before it writes one
  (src/core/JobRunner.ts:160) and the step has left the pending map (src/core/JobRunner.ts:110).
  `Runs.Ends` says that this happens to aborted runs only, and `Worker.ExecuteClaimed` that the row is
  repaired.
- On resume, a dependency that was skipped by its condition in the source is not reused
  (src/repositories/ExecutionRepository.ts:240-244), so a resumed run can end with the "Circular or
  unresolved" error. `Resume.ResumeGetsStuck` gives the exact condition, `SkippedDependencyGetsStuck` a
  source execution it happens to.
- `cancel_oldest` selects a running execution again that was already asked to cancel
  (src/repositories/ExecutionRepository.ts:1278-1284), so it bounds nothing:
  `ExecutionOverlap.CancelOldestReplacesQueued`, `CancelOldestDoesNotBound` and `PileIsReachable`.
- The limit per job is the one in each execution's own snapshot, and lowering a queue's cap leaves what
  is running alone. `ExecutionLaws.RunningWithinLatestLimit` and `RunningWithinLatestCap` say what does
  hold.
- Job limits and concurrency keys rest on claims being atomic. The code locks the policies of the queues
  a worker serves (src/repositories/ExecutionRepository.ts:449-451), so two claims of one job whose
  executions wait in different queues, after its QUEUE was edited, can be taken at once by workers that
  share no queue; that race is not in the model.
- A cancellation recorded between the last check and the finishing transaction
  (src/services/JobExecutionManager.ts:181-186) may still end in success:
  `Worker.LateCancellationSucceeds`.
- `stepFinished` looks at neither the status of the row nor of the execution
  (src/repositories/ExecutionRepository.ts:861-863), so a worker whose lease was reaped still overwrites
  the rows of a failed execution. `StepTable.EndedRowsChangeByReports` says exactly when a row changes
  after the end, `LateReportIsReachable` gives a run; no row is ever reopened.
- A failure whose fingerprint matches one incident and whose source belongs to another violates a
  unique constraint, and its transaction fails: `Incidents.RefusedFailure` and `RefusalIsReachable`.

## Model

| member | source | states |
|---|---|---|
| JobGraph.FindDependencyCycle | src/utils/jobGraph.ts:16-66 | finds nothing exactly when the graph without self and missing entries is acyclic; otherwise a closed path of real edges that repeats no node but its first |
| JobGraph.CanConnectDependency | src/utils/jobGraph.ts:181-195 | refuses a node itself, an unknown one, and a dependency the first node of that id has already; otherwise every node with the id gains the dependency as its last one, unless the graph with it is cyclic |
| JobGraph.ConnectionRefusesCycle | src/utils/jobGraph.ts:181-195 | on an acyclic graph an edge is refused as a cycle iff the source already depends on the target, directly or not |
| JobGraph.EditsStayAcyclic | src/utils/jobGraph.ts:181-195 | any sequence of edits leaves an acyclic graph acyclic |
| JobGraph.DependencyClosure | src/utils/jobGraph.ts:147-158 | exactly what the step reaches along dependencies, itself included; nothing for an unknown step |
| JobGraph.DependentClosure | src/utils/jobGraph.ts:160-179 | exactly the steps that reach the given one over the entries of all nodes, repeated ids and ids that are only listed included; nothing for an id nobody mentions; with unique ids the dependency closure read backwards |
| JobGraph.ReversalReach | src/utils/jobGraph.ts:160-179 | reachability over the lists of dependents is reachability over dependencies the other way round |
| Levels.BuildDependencyLevels | src/utils/jobGraph.ts:93-145 | succeeds exactly when nothing is missing, self-dependent or cyclic; level k is then, without repetition, the nodes of depth k, and the levels hold every node |
| Levels.LayerIsLongestChain | src/utils/jobGraph.ts:93-145 | a node is in level k exactly when its longest dependency chain has k + 1 nodes, even with repeated entries |
| Levels.EdgeDropsLayer | src/utils/jobGraph.ts:93-145 | a dependency is always in an earlier level than its dependent |
| Validator.ValidateJobDefinition | src/utils/jobValidator.ts:62-191 | reports nothing exactly for definitions with valid unique ids and orders, resolved distinct dependencies, references to the input or to dependencies only, positive limits and no cycle |
| Validator.CheckDependencies | src/utils/jobValidator.ts:608-653 | no issue iff the dependencies are distinct, not the step itself, and known |
| Validator.CheckReferences | src/utils/jobValidator.ts:581-606 | no issue iff every WHEN and FOREACH path has segments, none of them empty or a way into prototypes, and starts at the input or at a declared, known dependency |
| Validator.CheckIdentities | src/utils/jobValidator.ts:62-191 | no issue iff ids are unique, not empty, without dots and no root of the context, and orders unique and at least one |
| Validator.NothingIgnored | src/utils/jobValidator.ts:193-230 | once dependencies are sound, the cycle search sees every edge of the graph |
| Expressions.ParseDotted | src/utils/workflowExpressions.ts:75-84 | a path written with dots is parsed back into its segments |
| Expressions.TryResolveWorkflowPath | src/utils/workflowExpressions.ts:56-73 | the loop finds exactly the value the own properties along the path lead to |
| Expressions.OwnIsOwn | src/utils/workflowExpressions.ts:61-68 | a segment leads to the field of that name, to the element with that decimal index, or to the length of an array, and nowhere in any other value |
| Expressions.DescendInStages | src/utils/workflowExpressions.ts:56-73 | resolving a path is resolving its beginning and then its rest from there |
| Expressions.PathsFailOnlyBelowTheRoot | src/utils/workflowExpressions.ts:56-73 | in a run of an accepted job the root of every WHEN and FOREACH path of a started step is bound; a path that does not resolve stops at a later segment |
| RunSpec.RetriesDecide | src/core/JobRunner.ts:309-371 | the first attempt that succeeds decides a step, and if none does the error of the last one |
| RunSpec.VerdictsAgree | src/core/JobRunner.ts:84-126 | a verdict reached in any run, finished or not, is the verdict of every run that was left alone, stuck or not |
| RunSpec.ExhaustedLogsUnique | src/core/JobRunner.ts:84-126 | the logs of two runs of one job that were left alone are equal, also when they got stuck |
| StepTask.ExecuteWithRetry | src/core/JobRunner.ts:309-371 | the step's RETRY, before DEFAULT_STEP_RETRY, before a single attempt and fixed delays of a second, says how many attempts there may be and how long is waited between them in all; it ends by itself with the first success, in the last attempt logged, or with the failure of the last attempt allowed; an abort is the only other end, and after one no attempt is made |
| StepTask.TotalDelayClosed | src/core/JobRunner.ts:452-454 | exponential backoff waits one base delay less than a power of two of them in all, fixed backoff one delay per retry |
| StepTask.ExecuteFanOut | src/core/JobRunner.ts:246-307 | under every interleaving of its workers: the outputs in item order if all items succeed, the lowest failing index otherwise, or an abort; as many workers as the items, MAX_CONCURRENCY and FOREACH.MAX_CONCURRENCY allow |
| StepTask.Gather | src/core/JobRunner.ts:296-306 | the scan of the errors reports the lowest failing index, or collects the outputs in item order |
| StepTask.ExecuteStep | src/core/JobRunner.ts:150-213 | the log left for a step and the result handed on agree, and follow from the step's inputs unless an abort came first; its condition skips or fails it, a success stands even after an abort, and only a shutdown of the server leaves it interrupted |
| Batch.RunStepsWithConcurrency | src/core/JobRunner.ts:373-398 | under every interleaving each step of the batch has a settled result unless the policy stopped the workers, and steps outside the batch are untouched; it is stopped exactly when a failed step asks for that, under fail_fast or by FAIL_JOB_ON_FAILURE, by the first that did; no more results than MAX_CONCURRENCY come in from then on, and the started steps are the first in ORDER |
| Batch.OneAtATimeStops | src/core/JobRunner.ts:378-395 | with MAX_CONCURRENCY 1 no step after the one that stopped the batch was started |
| RunState.SortSorts | src/core/JobRunner.ts:58 | sorting puts the same steps into strictly increasing ORDER |
| RunState.Start | src/core/JobRunner.ts:63-78 | reused, unselected and pending steps get their initial logs, and sets and context mirror them |
| RunState.SkipDependencyBlocked | src/core/JobRunner.ts:400-419 | blocks pending steps only, and leaves none pending that has an unsuccessful dependency |
| Runner.Commit | src/core/JobRunner.ts:109-117 | removes exactly the steps with a result, mirrors the logs in the sets and the context, and keeps the first rejection in ORDER |
| Runner.BatchIsLevel | src/core/JobRunner.ts:89-93 | the runnable steps of round k are exactly level k of the graph of startable steps without its blocked ones, whatever the selection lacks |
| Runner.StuckIsUnavailable | src/core/JobRunner.ts:91-93 | nothing is runnable only when some selected step waits for one that is neither selected nor reused |
| Runner.Round | src/core/JobRunner.ts:84-123 | every round that goes on strictly shrinks the pending list and keeps all that was established |
| Runner.CancelPending | src/core/JobRunner.ts:421-436 | every step still listed ends cancelled, and no other log changes |
| Runner.StopIsStopped | src/core/JobRunner.ts:107-123 | after a stopped batch and the cancelling: earlier rounds are whole levels without a failure that stops the job, the last round has all that do, its started steps are the first in ORDER, with one at a time none after the stopping one, and no step of a later round was started |
| Runs.Run | src/core/JobRunner.ts:48-148 | an invalid job ends at once; otherwise every verdict is justified by the dependencies, nothing stays running, and success means a complete run without failures. Left alone, a run in which a failed step stops the job (fail_fast or FAIL_JOB_ON_FAILURE) ends by such a failure of its last round, with every step of a later round blocked or cancelled; any other one runs in rounds until nothing more can start, and ends unresolved exactly when it cut a step off, otherwise well or under the representative failure. An abort is the end of every run that has something to do, leaves a pending log only to steps of the last batch, and interrupts only for a shutdown. A run whose steps cannot fail ends unresolved exactly when a step waits for one never given |
| Runs.StuckIffUnavailable | src/core/JobRunner.ts:91-93 | when nothing else gets in the way, a run gets stuck exactly when some selected step waits for one that is neither selected nor reused, and ends well otherwise |
| Rounds.BlockedIffAncestorFailed | src/core/JobRunner.ts:400-419 | in a run that was left alone a selected step is skipped as blocked exactly when one of its selected ancestors failed |
| Rounds.CutOffIffLacking | src/core/JobRunner.ts:91-93 | in such a run the selected steps that are cancelled are exactly those at the start of a chain to a step that was never given a dependency, but for those a failure had blocked |
| Rounds.NothingBlocked | src/core/JobRunner.ts:84-126 | a complete run without failures leaves every step satisfied or unselected, and lacked nothing |
| Rounds.RepresentativeIsUnique | src/core/JobRunner.ts:115 | the failure in the earliest round, first in ORDER, is one failure only |
| RunLaws.ScheduleIndependence | src/core/JobRunner.ts:84-126 | two runs that are left alone and that no failure stops, under any policy, any interleaving, any MAX_CONCURRENCY and for any selection, agree on all logs, on every batch and on how they end, the representative failure or getting stuck included |
| RunLaws.RunInFull | src/core/JobRunner.ts:48-148 | an unaborted run of a job without FAIL_JOB_ON_FAILURE under continue_independent goes on until nothing more can start, so the next law always has a run to compare with |
| RunLaws.CutShortRunAgrees | src/core/JobRunner.ts:84-147 | a run cut short by an abort, fail_fast or FAIL_JOB_ON_FAILURE decided each step it did decide as the run of the job without them does, and left the others initial, cancelled or interrupted |
| RunLaws.GetExecutionPlan | src/services/JobService.ts:141-164 | the plan exists iff the graph is resolved and acyclic, and its levels are the depths of the steps |
| RunLaws.RunnerRefinesPlan | src/services/JobService.ts:141-164 | batch k of a full run is level k of the plan without the steps that have a failed ancestor; levels beyond the last batch hold only such steps |
| Resume.PrepareResume | src/repositories/ExecutionRepository.ts:219-246 | accepted exactly for a failed or cancelled source, a replay-safe step and a failed row, each refusal told; the closure is every transitive dependent, and of the other rows those that succeeded or were reused are reused with their outputs and the rest skipped |
| Resume.ReusedNeedsNoRerun | src/repositories/ExecutionRepository.ts:234-246 | no reused step depends on a rerun one |
| Resume.ResumeGetsStuck | src/repositories/ExecutionRepository.ts:234-246 | a resumed run gets stuck only if a dependency outside the closure was not reused, ends well only if all were, and once no step fails and nobody aborts it gets stuck exactly then |
| Resume.SourceRun | src/core/JobRunner.ts:215-229 | such a run exists, its logs are complete, and every unaborted run of these two steps ends so: one step skipped by its condition, its dependent failed |
| Resume.SkippedDependencyGetsStuck | src/repositories/ExecutionRepository.ts:240-244 | resuming that run at its failed step: the skipped dependency is neither rerun nor reused, and every run that nothing else stops ends unresolved |
| Resume.TestIsAvailable | src/repositories/ExecutionRepository.ts:258-278 | a test run of a step with its dependency closure never gets stuck |
| Limiter.AlwaysInv | src/utils/ConcurrencyLimiter.ts:10-67 | after any sequence of runs, aborts, listeners and releases the outstanding permits are active and at most the limit, waiting calls mean every permit is taken, and calls that were not rejected get permits in the order they queued |
| Limiter.ReleaseWakesOldestLive | src/utils/ConcurrencyLimiter.ts:49-66 | a release hands its permit to the oldest live waiter, drops the aborted ones before it and leaves the others waiting |
| Limiter.ReleasedForGood | src/utils/ConcurrencyLimiter.ts:50-53 | calling a release function again, whatever happened in between, changes nothing |
| Limiter.ConcurrencyLimiter.Acquire | src/utils/ConcurrencyLimiter.ts:27-47 | refuses an aborted call, grants below the limit and queues otherwise, as one step of the limiter |
| Limiter.ConcurrencyLimiter.Release | src/utils/ConcurrencyLimiter.ts:49-66 | the hand-off loop is the release step of the limiter |
| Limiter.ConcurrencyLimiter.ListenerCalled | src/utils/ConcurrencyLimiter.ts:38-42 | an aborted waiter leaves the list and no other one does; one that has left already changes nothing |
| Calls.CallsWithinLimit | src/core/JobRunner.ts:81-106 | over all batches of a run, which share one limiter, and whatever the interleaving of batch workers, fan-out workers, retries and aborts: every executor call in flight holds a permit, and there are never more than MAX_CONCURRENCY of them |
| Calls.NoPermitIsLost | src/utils/ConcurrencyLimiter.ts:18-25 | once nobody is inside a call, in or between the batches of a run, every permit is back and nobody waits, however the calls ended |
| Calls.WaitingMeansFull | src/utils/ConcurrencyLimiter.ts:27-47 | a call that waits, not yet served or rejected, waits behind as many calls of others as are allowed |
| Calls.StepsWithinLimit | src/core/JobRunner.ts:373-398 | a batch never has more steps in flight than MAX_CONCURRENCY, and a free worker below it takes the next step exactly until the batch is stopped |
| Calls.FanOutWithinLimits | src/core/JobRunner.ts:246-300 | a step never has more items in flight than MAX_CONCURRENCY and FOREACH.MAX_CONCURRENCY allow, and a free worker below both takes the next item exactly while there is one and nothing was aborted |
| ExecutionLaws.EndedForGood | src/repositories/ExecutionRepository.ts:709-810 | an execution that has ended stays exactly as it ended, whatever happens later |
| ExecutionLaws.AlwaysClaimsSafe | src/repositories/ExecutionRepository.ts:446-489 | in every run no two running executions of a job share a key, and each claim left its job within its own snapshot's limit and its queue within the cap of that moment |
| ExecutionLaws.RunningWithinLatestLimit | src/repositories/ExecutionRepository.ts:462-465 | the running executions of a job never exceed the limit in the snapshot of the most recently claimed one |
| ExecutionLaws.RunningWithinLatestCap | src/repositories/ExecutionRepository.ts:458-461 | the running executions of a queue never exceed the cap its most recently claimed one met |
| ExecutionLaws.ClaimRespectsQueue | src/repositories/ExecutionRepository.ts:456-461 | no claim takes from a paused queue or fills a queue beyond its current cap |
| Transactions.ClaimClaims | src/repositories/ExecutionRepository.ts:446-505 | what a claim needs and writes, told by rows, policies and windows alone |
| Transactions.EnqueueOpens | src/repositories/ExecutionRepository.ts:1028-1098 | what a request opens and makes room by, told by rows alone; refused exactly for a used id or an occurrence that is taken |
| Transactions.ReapReaps | src/repositories/ExecutionRepository.ts:980-995 | which rows a reaping fails, and that it leaves the others alone |
| Transactions.CancelIsAnswered | src/repositories/ExecutionRepository.ts:709-752 | what a cancellation does to a row of each status, and its answer |
| ExecutionProgress.QueueFills | src/repositories/ExecutionRepository.ts:456-470 | an idle queue with a cap and enough executions that nothing else obstructs ends up running exactly as many as its cap, and any queue below its cap the cap or all of them |
| ExecutionRates.StartsPerWindow | src/repositories/ExecutionRepository.ts:471-500 | since its policy was last written a queue never recorded more than max_starts starts in one window, even when the clock crosses a window inside a claim |
| ExecutionRates.StartsPerSpan | src/repositories/ExecutionRepository.ts:471-500 | any span of interval_ms holds at most twice max_starts recorded starts |
| ExecutionRates.RecordedWindow | src/repositories/ExecutionRepository.ts:492-500 | a start is recorded in the window that was checked, or in a later one that is still empty |
| ExecutionRates.PunctualWorkerKeepsExecutions | src/config.ts:66-68 | with a lease of three heartbeats, a worker whose last heartbeat is at most three periods old at every reaping of a run never has an execution failed as WORKER_LOST in that run |
| ExecutionRates.AlwaysLeased | src/repositories/WorkerRepository.ts:38-53 | every running execution is leased for a full lease from its worker's last heartbeat on, at least, also when it was claimed in between |
| ExecutionOutbox.AlwaysExact | src/repositories/ExecutionRepository.ts:1153-1209 | in every reachable state an execution that ended has exactly the deliveries of its interested webhooks and one event per trigger it was matched against, deleted triggers excepted; any other has none |
| ExecutionEnds.EndMatchesNow | src/repositories/ExecutionRepository.ts:1193-1209 | whichever transaction ends an execution, from then on it has exactly one event per enabled trigger that watched its job and status just before, but for triggers deleted later, and one delivery per webhook of its job that lists its status or lists none |
| ExecutionEnds.EndHasItsMoment | src/repositories/ExecutionRepository.ts:1288-1304 | every execution that is over was ended by exactly such a transaction of the run |
| ExecutionEnds.MatchedForGood | src/repositories/ExecutionRepository.ts:1193-1209 | the triggers an end was matched against never change afterwards |
| ExecutionOutbox.SuppressedIsSilent | src/repositories/ExecutionRepository.ts:1153-1155 | a suppressed execution never announces anything |
| ExecutionEnds.RequestDecides | src/repositories/ExecutionRepository.ts:1047-1066 | the request decides for good whether its execution announces anything: with side effects suppressed it never has a delivery or an event, otherwise it has, once over, exactly the deliveries due |
| ExecutionOutbox.AlwaysUnique | src/repositories/ExecutionRepository.ts:325-335 | scheduled and backfill executions of one job never share a scheduled time |
| ExecutionOverlap.EnqueueActive | src/repositories/ExecutionRepository.ts:1267-1313 | which executions are active after one more request, for each overlap mode |
| ExecutionOverlap.SkipKeepsOne | src/repositories/ExecutionRepository.ts:1267-1313 | skipping leaves exactly one active execution where there was at most one |
| ExecutionOverlap.CancelOldestReplacesQueued | src/repositories/ExecutionRepository.ts:1278-1313 | cancel_oldest keeps the number of active executions exactly when the oldest is still queued |
| ExecutionOverlap.CancelOldestDoesNotBound | src/repositories/ExecutionRepository.ts:1278-1313 | behind a running oldest execution any number of requests pile up |
| ExecutionOverlap.PileIsReachable | src/repositories/ExecutionRepository.ts:1278-1284 | such an execution is there two transactions and a moment after the start |
| ExecutionRepository.Repository.EnqueueTerminalWebhooks | src/repositories/ExecutionRepository.ts:1153-1191 | the loop adds exactly one delivery per webhook that lists the status or has no EVENTS, none for a suppressed execution |
| ExecutionRepository.Repository.EnqueueTerminalAutomations | src/repositories/ExecutionRepository.ts:1193-1209 | the loop adds exactly one event per enabled trigger that watches the job and the status, none for a suppressed execution |
| ExecutionRepository.Repository.ApplyOverlapPolicy | src/repositories/ExecutionRepository.ts:1267-1313 | SCHEDULED, skip by default, or TRIGGERED, queue by default, decides; of the active executions of the job, and of the key if there is one, the first requested is cancelled while it waits and asked to cancel while it runs, under cancel_oldest alone; the new one is skipped exactly when the mode says so and one is active |
| ExecutionRepository.Repository.EnqueueExecution | src/repositories/ExecutionRepository.ts:1028-1098 | overlap policy, insertion and announcement together are the enqueue transaction; the new row has the request's columns, suppression included, waits from now on or is skipped, and no other row changes but the one that makes room |
| ExecutionRepository.Repository.ClaimQueued | src/repositories/ExecutionRepository.ts:438-534 | a row is claimed exactly when it is queued, its queue has a policy, is not paused and runs less than its cap, its job runs less than its limit, one by default, and nothing under its key, and the window of the moment has a start left; it then runs here under a full lease and one start more is counted in the window of its record, and otherwise nothing changes |
| ExecutionRepository.Repository.ReconcileExpiredLeases | src/repositories/ExecutionRepository.ts:980-1025 | the loop over the locked rows is the reaping transaction: exactly the running ones without a lease or with one that is over fail as WORKER_LOST |
| ExecutionRepository.Repository.RequestCancellation | src/repositories/ExecutionRepository.ts:709-752 | ends a queued execution, marks a running one, and refuses the rest with nothing changed |
| ExecutionRepository.Repository.FinishExecution | src/repositories/ExecutionRepository.ts:771-810 | finishes a running execution and announces it; does nothing to any other |
| ExecutionRepository.Repository.HeartbeatWorker | src/repositories/WorkerRepository.ts:38-53 | a registered worker's running executions, and no others, are leased for a full lease from now; it is told exactly those of them that were asked to cancel; an unknown worker changes nothing |
| ExecutionRepository.Repository.DispatchOne | src/repositories/AutomationRepository.ts:167-224 | a pending event starts the execution of its enabled trigger's target as a child of its source, is skipped for a disabled trigger or an inactive target, fails for a source that is gone or an input too large, and otherwise nothing changes; it is settled for good |
| ExecutionRepository.Repository.Perform | src/repositories/ExecutionRepository.ts:438-1025 | the methods together are the transition system every run is made of |
| ExecutionRepository.Repository.UpdateQueuePolicy | src/repositories/WorkerRepository.ts:165-195 | refused for another version, half a rate limit, or a value out of the table's range, with nothing changed; otherwise the version rises by one, mentioned fields are set, the others and all other queues are kept |
| Schedule.CoalescedAreAdjacent | src/utils/cron.ts:43-48 | the scheduled time and the next run are neighbouring occurrences around now |
| Schedule.ScheduledTimesIncrease | src/repositories/ExecutionRepository.ts:310-344 | over any run of polls among other transactions, the executions the scheduler created for a job have strictly increasing scheduled times, all before the job's next run |
| Schedule.ScheduledAreFired | src/repositories/ExecutionRepository.ts:310-344 | and these are all the scheduled executions there are |
| Schedule.EnumerateOccurrences | src/repositories/ExecutionRepository.ts:1315-1328 | exactly the occurrences in the range, in order; refused exactly for an empty range or more than 500 of them |
| Schedule.Scheduler.ProcessDueJobs | src/repositories/ExecutionRepository.ts:310-344 | the loop is the poll of those runs; every due job ends up with an execution for its last occurrence by now and waits for the first one after, other jobs and ended executions are untouched |
| Schedule.Scheduler.ProcessDueJob | src/repositories/ExecutionRepository.ts:322-340 | unless an execution stands for it, the last occurrence by now is requested for the job with its key under the SCHEDULED mode; the job waits for the first occurrence after now |
| Schedule.Scheduler.ApplyBackfill | src/repositories/ExecutionRepository.ts:401-424 | refused exactly without a schedule, for an empty range and for more than 500 occurrences; covers exactly the occurrences of the range in order, each with its one execution; marked existing exactly when there was one before; nothing is added when all were there |
| Schedule.BackfillAgain | src/repositories/ExecutionRepository.ts:401-424 | whatever happened in between, a second backfill of the range adds nothing and names the same executions |
| Worker.ExecuteClaimed | src/services/JobExecutionManager.ts:164-196 | on the shared tables, whatever others do in between: the execution is over afterwards; a cancellation seen by the first check keeps every step from starting, one recorded before the start or seen by the last check never ends in success; with its lease intact it is written failed for an error around the run, else cancelled for a cancellation seen, else success exactly for a run that ended well, cancelled for one that was cancelled and failed for every other end, with the code of each; success means every step it had to run was reported; each step row tells the log of its step, and none is left pending or running |
| Worker.OthersProceed | src/repositories/ExecutionRepository.ts:709-810 | no transaction but the worker's own finish does more to its row than ask to cancel or reap a lost lease, for good |
| Worker.CancelledForGood | src/services/JobExecutionManager.ts:164-196 | in every reachable store: once a cancellation is recorded before the start or seen by the last check, the execution is over after the finish, not in success, and stays so whatever comes later |
| Worker.LateCancellationSucceeds | src/services/JobExecutionManager.ts:181-186 | a cancellation that comes between the last check and the finish is recorded, and the execution ends in success |
| Worker.JobExecutionManager.DispatcherTick | src/services/JobExecutionManager.ts:134-162 | never more executions than the worker's capacity, all of them claimed by it; none claimed while draining or while another tick is under way; it stops for want of capacity, candidates, or at one that may not be claimed |
| Worker.JobExecutionManager.BetweenTicks | src/services/JobExecutionManager.ts:134-162 | whatever others do between two ticks, what runs here stays claimed by this worker |
| Worker.JobExecutionManager.ClaimOne | src/services/JobExecutionManager.ts:138-150 | one claim adds an execution that was not running here exactly when it may be claimed, and nothing changes otherwise |
| StepTable.EndedRowsAreClosed | src/repositories/ExecutionRepository.ts:709-1012 | over every run of transactions and step writes, also of workers that lost their lease: no ended execution has a pending or running step row |
| StepTable.OthersWrite | src/repositories/ExecutionRepository.ts:728-1083 | what each transaction but a worker's own writes: a new execution opens its rows pending, reused or skipped, all skipped when it is skipped itself; a cancelled one cancels what waits, a lost one fails what ran and cancels what waits; nothing else changes |
| StepTable.ReportsStand | src/repositories/ExecutionRepository.ts:855-876 | the row a worker last reported of a step stands, whatever cancels, reaps or sweeps the execution |
| StepTable.EndedRowsChangeByReports | src/repositories/ExecutionRepository.ts:855-876 | the step rows of an ended execution change exactly by a late report of its worker, to exactly that report |
| StepTable.LateReportIsReachable | src/repositories/ExecutionRepository.ts:861-863 | a run in which an execution fails with WORKER_LOST and any one of its steps still ends up as a success |
| StepTable.SuccessIsInOrder | src/services/JobExecutionManager.ts:176-186 | a worker whose run ended well has reported every step left pending once it writes the success, whatever others did meanwhile |
| StepTable.FailureIsInOrder | src/services/JobExecutionManager.ts:185-191 | and one that cancelled the unfinished steps may write any other end |
| KeyedRuns.KeyedOnce | src/repositories/ExecutionRepository.ts:148-188 | a repeated keyed run returns the first execution and creates none exactly when its input is the same JSON value, and is refused otherwise, whatever happened in between |
| KeyedRuns.KeyedApart | src/repositories/ExecutionRepository.ts:148-188 | the same key of another actor or for another job, and any other key, runs on its own |
| KeyedRuns.KeyedRepository.EnqueueManualRun | src/repositories/ExecutionRepository.ts:142-190 | looks up the key, compares the request, enqueues and remembers, as one transaction |
| Idempotency.StableJsonIsCanonical | src/utils/idempotency.ts:28-35 | two normalised values have one text exactly when they are the same JSON value, order of keys and undefined fields aside |
| Idempotency.EscapedPrefix | src/utils/idempotency.ts:28-35 | an escaped string ends where it ends: no two strings, followed by anything, give one text |
| Idempotency.ValuePrefix | src/utils/idempotency.ts:28-35 | so does the text of any value |
| Automation.AlwaysSound | src/repositories/AutomationRepository.ts:66-93 | whatever chains are created, enabled, disabled and deleted, the enabled ones stay acyclic |
| Automation.AutomationRepository.AssertNoCycle | src/repositories/AutomationRepository.ts:239-252 | the recursive query passes exactly when the target does not reach the source along enabled chains, the given trigger left out |
| Automation.AutomationRepository.CreateChainTrigger | src/repositories/AutomationRepository.ts:66-76 | a chain is refused exactly when the chains with it would be cyclic |
| Automation.AutomationRepository.UpdateTrigger | src/repositories/AutomationRepository.ts:78-93 | absent fields are kept, mentioned ones set; refused exactly when there is no such trigger of the job, or the chains with it would be cyclic, although only a disabled chain that gets enabled is checked |
| Automation.AutomationRepository.DeleteTrigger | src/repositories/AutomationRepository.ts:106-109 | deletes the trigger of that job, or refuses |
| Cascades.EditsReachTheTable | src/repositories/AutomationRepository.ts:66-109 | whatever is edited and whatever else happens, the shared table of triggers holds the edited chains, and the enabled ones are acyclic |
| Cascades.ChildrenAreSpawned | src/repositories/AutomationRepository.ts:167-224 | over any run in which nobody edits a trigger, each new child was started by an enabled trigger that watches its parent's job and starts its own, through the one event of that trigger and parent |
| Cascades.ChildFollowsChain | src/repositories/AutomationRepository.ts:167-224 | so its job is a target of its parent's job in the graph of enabled chains |
| Cascades.ParentChainsVisitDistinctJobs | src/repositories/AutomationRepository.ts:167-224 | in such a run no chain of parents and children among the executions visits a job twice |
| Cascades.EndLowersSize | src/repositories/ExecutionRepository.ts:1193-1209 | what a child can still lead to is strictly less than what its parent could |
| Cascades.CascadesEnd | src/repositories/ExecutionRepository.ts:1193-1209 | however long such a run goes on, one execution leads to no more executions than the size of its job in the chain graph |
| Cascades.CascadesAreBounded | src/repositories/ExecutionRepository.ts:1193-1209 | one bound, of the chains and the job alone, holds for every cascade of every run |
| Cascades.CascadeIsWhole | src/repositories/AutomationRepository.ts:167-224 | and such a cascade has every descendant of an execution that had not ended when the edits stopped |
| Incidents.LogTellsRow | src/repositories/AttentionRepository.ts:559-598 | reading an incident's log back always gives its row; snoozed_until is set iff snoozed, a resolution action iff resolved, a note iff resolved by hand |
| Incidents.OccurrencesAreFailures | src/repositories/AttentionRepository.ts:380-432 | the occurrence counts of all incidents add up to the failures recorded |
| Incidents.RefusedFailure | src/repositories/AttentionRepository.ts:380-432 | a failure is refused exactly when its fingerprint and its source belong to two different incidents |
| Incidents.RefusalIsReachable | src/repositories/AttentionRepository.ts:380-432 | two recorded failures suffice for that |
| Incidents.UpsertKeeps | src/repositories/AttentionRepository.ts:380-432 | recording a failure keeps fingerprints and sources unique and the row in agreement with its log |
| Incidents.RemediateKeeps | src/repositories/AttentionRepository.ts:445-480 | resolving by a remedy leaves snoozed_until and the note alone, and never has to clear them |
| Incidents.ChangeStateKeeps | src/repositories/AttentionRepository.ts:307-335 | ignoring, restoring and acknowledging keep rows and logs in agreement |
| Incidents.SnoozeKeeps | src/repositories/AttentionRepository.ts:121-136 | so does snoozing |
| Incidents.ExpireKeeps | src/repositories/AttentionRepository.ts:337-347 | and the end of snoozes, which counts no failure |
| Incidents.AttentionRepository.RecordFailure | src/repositories/AttentionRepository.ts:380-432 | a failure that belongs to no incident opens one, high for an execution and medium for a webhook; one that belongs to an incident, by fingerprint before source, counts once more and reopens it if it was resolved or ignored, leaving any other state; a refused one changes nothing |
| Incidents.AttentionRepository.ExpireAllSnoozes | src/repositories/AttentionRepository.ts:337-347 | reopens exactly the snoozed rows whose time has come, now included, with one event each |
| Incidents.AttentionRepository.ResolveItem | src/repositories/AttentionRepository.ts:168-182 | resolves an incident by hand with its note, ending a snooze; a resolved one is left alone |
| Incidents.AttentionRepository.RemediateItem | src/repositories/AttentionRepository.ts:445-480 | a rerun of an execution or a retry of a webhook resolves an open or acknowledged incident of that kind; every other case is refused with nothing changed |
| Incidents.AttentionRepository.ChangeStateOf | src/repositories/AttentionRepository.ts:307-335 | restoring opens, acknowledging and ignoring set their states, each ending a snooze; a resolved incident is refused, one in that state left alone |
| Incidents.AttentionRepository.SnoozeItem | src/repositories/AttentionRepository.ts:121-136 | an unresolved incident is snoozed until a time that has to lie ahead |
| Incidents.AttentionRepository.SetSeverityOf | src/repositories/AttentionRepository.ts:154-166 | changes the severity in any state and logs whether it got graver |

## Left out

- Runs.Run: the texts of reasons, errors and blockers, timestamps and durations are not modelled; the signal may fire at any await, but only its first reason counts.
- StepTask.ExecuteWithRetry: the permit of the limiter is one await here; calls that overlap are the subject of `Calls`, where in turn it is left open which attempts succeed.
- Batch.RunStepsWithConcurrency: a worker is switched between steps; calls that overlap within steps are the subject of `Calls`.
- Levels.BuildDependencyLevels: node lists with a repeated id; its comment demands a validated graph (src/utils/jobGraph.ts:91).
- Worker.ExecuteClaimed: it returns the rows its reports leave when nobody else writes any; the table all transactions write is the subject of `StepTable`. Rows of attempts are not modelled.
- StepTable.EndedRowsAreClosed: a `cancelUnfinishedSteps` that fails in the database, whose error executeClaimed drops before it writes the end (src/services/JobExecutionManager.ts:188-191).
- Validator.ValidateJobDefinition: the checks of step types, inputs, schedules, webhooks, secrets, retry ranges and texts; definitions arrive here parsed and trimmed.
- ExecutionRepository.Repository.ClaimQueued: the order of candidates (priority, request time, id) is left open, since skipped locks may make any eligible row the first one.
- ExecutionRepository.Repository.EnqueueExecution: the step rows written with an execution (they are in `StepTable`), a concurrency key or an input that does not resolve (the transaction fails with nothing changed), and execution events.
- ExecutionRepository.Repository.HeartbeatWorker: the two statements of a heartbeat are one step, and the desired state it returns is left out.
- ExecutionRepository.Repository.ReconcileExpiredLeases: which expired rows it locks, in what order and up to which limit, is left open; the step rows it closes are in `StepTable`.
- ExecutionRepository.Repository.DispatchOne: the input built for the child, the time of the next attempt, and the order of events; the input being too large or refused is a case of its own.
- Automation.AutomationRepository.UpdateTrigger: the name of a trigger.
- Schedule.Scheduler.ProcessDueJobs: which due jobs the query returns, and its limit of 100, are parameters.
- Schedule.Scheduler.ApplyBackfill: the idempotency key of a backfill, which replays a stored response.
- Idempotency.StableJsonIsCanonical: numbers are their shortest decimal texts; NaN, infinities and lone surrogates do not occur in normalised values.
- Incidents.AttentionRepository.RecordFailure: `failureFingerprint` itself, whose text is hashed, and the notifications an incident event leads to.
- reconcileInterrupted, which nothing calls, and the retention that deletes ended executions, workers and incidents.
- Webhook and notification delivery, triggers called over HTTP, job revisions, dashboards, controllers, authentication, secrets, pagination and cursors: they would only add easy members.
- The operators of WHEN conditions (`evaluateWorkflowCondition`): a condition is part of the abstract guard of a step.
- Executors, child processes, outbound HTTP, cron-parser, time zones, Ajv, SHA-256 and encryption: foreign code, kept abstract.
- Shutdown, its grace period, and timers.
