/**
 * JobRunner.run (src/core/JobRunner.ts): rounds of batches over the pending steps, with blocked
 * steps skipped in between, until nothing is pending, a policy stops the job or it is aborted.
 */
module Runner {
  import opened Wrappers
  import opened Graph
  import opened JobGraph
  import opened Levels
  import opened Jobs
  import opened Validator
  import opened RunSpec
  import opened Rounds
  import opened RunState
  import opened StepTask
  import opened Batch

  // ----- Committing a batch -----

  // The steps that left the list are those of the batch with a result
  ghost predicate Kept(batch: seq<Step>, results: seq<Option<StepResult>>, n: nat, before: seq<Step>, after: seq<Step>)
    requires n <= |batch| == |results|
  {
    && Ordered(after)
    && forall s :: s in after <==> s in before && forall k :: 0 <= k < n && results[k].Some? ==> batch[k].id != s.id
  }

  // The sets mirror the logs, except for batch steps from n on, which are still in neither
  ghost predicate MirroredUpTo(batch: seq<Step>, n: nat, st: RunState) {
    && st.successful <= st.logs.Keys && st.unsuccessful <= st.logs.Keys && st.context.Keys == st.successful
    && (forall x :: x in st.logs && !Waits(batch, n, x) ==>
      (x in st.successful <==> st.logs[x].Satisfied()) && (x in st.unsuccessful <==> st.logs[x].Unsatisfied()))
    && (forall x :: x in st.logs && Waits(batch, n, x) ==> x !in st.successful && x !in st.unsuccessful)
    && (forall x :: x in st.successful ==> st.logs[x].Satisfied() && st.context[x] == st.logs[x].Output())
  }

  ghost predicate Waits(batch: seq<Step>, n: nat, x: Id) {
    exists k :: n <= k < |batch| && batch[k].id == x
  }

  // The first rejection among the first n results speaks for the run, unless one did before
  ghost predicate FirstRejection(results: seq<Option<StepResult>>, n: nat, before: Option<Problem>, after: Option<Problem>)
    requires n <= |results|
  {
    if before.Some? then after == before
    else if after.None? then forall k :: 0 <= k < n && results[k].Some? ==> results[k].value.Fulfilled?
    else exists k :: 0 <= k < n && IsFirstRejection(results, k, after.value)
  }

  ghost predicate IsFirstRejection(results: seq<Option<StepResult>>, k: nat, problem: Problem)
    requires k < |results|
  {
    && results[k] == Some(Rejected(problem))
    && forall m :: 0 <= m < k && results[m].Some? ==> results[m].value.Fulfilled?
  }

  // One turn of the loop over the batch's results
  function CommitOne(step: Step, result: StepResult, st: RunState): RunState {
    match result
    case Fulfilled(v) =>
      st.(pending := Without(st.pending, step.id),
          successful := st.successful + {step.id},
          context := st.context[step.id := v])
    case Rejected(_) =>
      st.(pending := Without(st.pending, step.id), unsuccessful := st.unsuccessful + {step.id})
  }

  // What a result says about the log, once no abort interfered
  ghost predicate Matches(log: StepLog, result: Option<StepResult>) {
    match result
    case None => log.Pending?
    case Some(Fulfilled(v)) => (log.Success? || log.Declined?) && log.Output() == v
    case Some(Rejected(p)) => log.Failed? && p == Failure(log.error)
  }

  lemma CommitKept(
    batch: seq<Step>, results: seq<Option<StepResult>>, n: nat, before: seq<Step>, after: seq<Step>)
    requires n < |batch| == |results| && Kept(batch, results, n, before, after)
    requires DistinctSteps(batch) && batch[n] in before
    ensures |Without(after, batch[n].id)| < |after|
    ensures results[n].Some? ==> Kept(batch, results, n + 1, before, Without(after, batch[n].id))
    ensures results[n].None? ==> Kept(batch, results, n + 1, before, after)
  {
    WithoutIsFilter(after, batch[n].id);
    assert batch[n] in after;
  }

  lemma CommitMirrored(batch: seq<Step>, n: nat, st: RunState, result: Option<StepResult>)
    requires DistinctSteps(batch) && n < |batch| && MirroredUpTo(batch, n, st)
    requires batch[n].id in st.logs && Matches(st.logs[batch[n].id], result)
    ensures MirroredUpTo(batch, n + 1, if result.Some? then CommitOne(batch[n], result.value, st) else st)
  {
    var id := batch[n].id;
    forall x ensures Waits(batch, n, x) <==> Waits(batch, n + 1, x) || x == id {
    }
    assert !Waits(batch, n + 1, id);
    hide Without, Waits, DistinctSteps;
  }

  function FirstOf(failure: Option<Problem>, result: Option<StepResult>): Option<Problem> {
    if failure.None? && result.Some? && result.value.Rejected? then Some(result.value.problem) else failure
  }

  lemma FirstRejectionNext(results: seq<Option<StepResult>>, n: nat, before: Option<Problem>, failure: Option<Problem>)
    requires n < |results| && FirstRejection(results, n, before, failure)
    ensures FirstRejection(results, n + 1, before, FirstOf(failure, results[n]))
  {
    if before.None? {
      if failure.Some? {
        var k :| 0 <= k < n && IsFirstRejection(results, k, failure.value);
      } else if FirstOf(failure, results[n]).Some? {
        assert IsFirstRejection(results, n, results[n].value.problem);
      }
    }
  }

  // The invariant of the loop over the results
  ghost predicate Committing(
    batch: seq<Step>, results: seq<Option<StepResult>>, n: nat, st0: RunState, failure0: Option<Problem>, clean: bool,
    st: RunState, failure: Option<Problem>)
    requires n <= |batch| == |results|
  {
    && st.logs == st0.logs
    && Kept(batch, results, n, st0.pending, st.pending)
    && (|st.pending| < |st0.pending|
        || (st.pending == st0.pending && forall k :: 0 <= k < n ==> results[k].None?))
    && (clean ==> MirroredUpTo(batch, n, st))
    && FirstRejection(results, n, failure0, failure)
  }

  lemma CommittingNext(
    batch: seq<Step>, results: seq<Option<StepResult>>, n: nat, st0: RunState, failure0: Option<Problem>, clean: bool,
    st: RunState, failure: Option<Problem>)
    requires n < |batch| == |results| && DistinctSteps(batch)
    requires Committing(batch, results, n, st0, failure0, clean, st, failure)
    requires batch[n] in st0.pending && batch[n].id in st0.logs
    requires clean ==> Matches(st0.logs[batch[n].id], results[n])
    ensures Committing(batch, results, n + 1, st0, failure0, clean,
      if results[n].Some? then CommitOne(batch[n], results[n].value, st) else st, FirstOf(failure, results[n]))
  {
    hide Kept, MirroredUpTo, Matches, DistinctSteps, FirstRejection, Without, FirstOf;
    CommitKept(batch, results, n, st0.pending, st.pending);
    FirstRejectionNext(results, n, failure0, failure);
    if clean {
      CommitMirrored(batch, n, st, results[n]);
    }
    if results[n].None? {
      assert Committing(batch, results, n + 1, st0, failure0, clean, st, FirstOf(failure, results[n]));
    } else {
      assert |Without(st.pending, batch[n].id)| < |st0.pending|;
    }
  }

  lemma CommittingFirst(
    batch: seq<Step>, results: seq<Option<StepResult>>, st: RunState, failure: Option<Problem>, clean: bool)
    requires |batch| == |results| && Ordered(st.pending) && (clean ==> MirroredUpTo(batch, 0, st))
    ensures Committing(batch, results, 0, st, failure, clean, st, failure)
  {
    hide MirroredUpTo;
  }

  method Commit(batch: seq<Step>, results: seq<Option<StepResult>>, st0: RunState, failure0: Option<Problem>, ghost clean: bool)
    returns (st: RunState, failure: Option<Problem>)
    requires |results| == |batch| && DistinctSteps(batch) && Ordered(st0.pending)
    requires forall i :: 0 <= i < |batch| ==> batch[i] in st0.pending && batch[i].id in st0.logs
    requires clean ==> MirroredUpTo(batch, 0, st0)
    requires clean ==> forall i :: 0 <= i < |batch| ==> Matches(st0.logs[batch[i].id], results[i])
    ensures Committing(batch, results, |batch|, st0, failure0, clean, st, failure)
  {
    hide Committing, MirroredUpTo, Matches, DistinctSteps, Ordered, Without, CommitOne;
    st, failure := st0, failure0;
    CommittingFirst(batch, results, st0, failure0, clean);
    for i := 0 to |batch|
      invariant Committing(batch, results, i, st0, failure0, clean, st, failure)
    {
      CommittingNext(batch, results, i, st0, failure0, clean, st, failure);
      if results[i].Some? {
        st := CommitOne(batch[i], results[i].value, st);
      }
      if failure.None? && results[i].Some? && results[i].value.Rejected? {
        failure := Some(results[i].value.problem);
      }
    }
  }

  // ----- A batch keeps the invariant -----

  lemma VisibleIsInputs(step: Step, st: RunState)
    requires Mirrored(st) && IsRunnable(step, st.successful)
    ensures AllSatisfied(step, st.logs) && Visible(step, st.context) == Inputs(step, st.logs)
  {
    forall d | d in step.dependsOn ensures d in st.context && d in st.logs && st.logs[d].Satisfied() {
      var j :| 0 <= j < |step.dependsOn| && step.dependsOn[j] == d;
    }
  }

  // The batch is made of pending, runnable steps
  ghost predicate Prepared(job: Job, st: RunState, batch: seq<Step>) {
    && Ordered(batch)
    && forall s :: s in batch <==> s in st.pending && IsRunnable(s, st.successful)
  }

  lemma PreparedBatch(job: Job, st: RunState, batch: seq<Step>)
    requires UniqueStepIds(job.steps) && Listed(job, st) && Prepared(job, st, batch)
    ensures DistinctSteps(batch)
    ensures forall i :: 0 <= i < |batch| ==>
      batch[i] in job.steps && batch[i].id in st.logs && st.logs[batch[i].id].Pending?
  {
    forall i, j | 0 <= i < j < |batch| ensures batch[i].id != batch[j].id {
      if batch[i].id == batch[j].id {
        SameIdSameStep(job, batch[i], batch[j]);
      }
    }
  }

  lemma BatchGrows(
    exec: Executor, job: Job, st: RunState, batch: seq<Step>, s: BatchState, signal: Signal)
    requires BatchDone(exec, job, batch, st.context, st.logs, s, signal)
    requires forall i :: 0 <= i < |batch| ==> batch[i].id in st.logs && st.logs[batch[i].id].Pending?
    ensures Grows(st.logs, s.logs)
  {
    hide StepSettled, BatchStop;
  }

  // What a batch leaves for one of its steps follows from the step's dependencies
  lemma BatchStepMoved(
    exec: Executor, job: Job, st: RunState, batch: seq<Step>, s: BatchState, signal: Signal, i: nat)
    requires Mirrored(st) && Prepared(job, st, batch) && Grows(st.logs, s.logs)
    requires BatchDone(exec, job, batch, st.context, st.logs, s, signal) && i < |batch|
    requires batch[i].id in st.logs && st.logs[batch[i].id].Pending?
    ensures Moved(exec, job, st.logs, s.logs, batch[i])
  {
    assert batch[i] in batch;
    VisibleIsInputs(batch[i], st);
    SameInputs(batch[i], st.logs, s.logs);
    hide Mirrored, Prepared, Grows, Visible, Inputs, AllSatisfied, SomeUnsatisfied, Ran, BatchStop;
  }

  lemma BatchJustified(
    exec: Executor, job: Job, opts: Options, st: RunState, batch: seq<Step>, s: BatchState, signal: Signal)
    requires UniqueStepIds(job.steps) && Inv(exec, job, opts, st) && Prepared(job, st, batch)
    requires BatchDone(exec, job, batch, st.context, st.logs, s, signal)
    ensures Justified(exec, job, opts, s.logs) && Grows(st.logs, s.logs)
  {
    PreparedBatch(job, st, batch);
    BatchGrows(exec, job, st, batch, s, signal);
    assert forall i :: 0 <= i < |job.steps| ==> job.steps[i].id in st.logs;
    assert Untouched(batch, st.logs, s.logs);
    hide Mirrored, Listed, NoneDropped, Justified, Prepared, BatchDone, Explained, UniqueStepIds, DistinctSteps, Grows;
    forall i | 0 <= i < |job.steps| ensures Moved(exec, job, st.logs, s.logs, job.steps[i]) {
      if k :| 0 <= k < |batch| && batch[k].id == job.steps[i].id {
        SameIdSameStep(job, batch[k], job.steps[i]);
        BatchStepMoved(exec, job, st, batch, s, signal, k);
      }
    }
    JustifiedGrows(exec, job, opts, st.logs, s.logs);
  }

  // ----- A batch without an abort -----

  lemma CleanResults(
    exec: Executor, job: Job, st: RunState, batch: seq<Step>, s: BatchState)
    requires BatchDone(exec, job, batch, st.context, st.logs, s, None)
    ensures |s.results| == |batch|
    ensures forall i :: 0 <= i < |batch| ==> batch[i].id in s.logs && Matches(s.logs[batch[i].id], s.results[i])
  {
    hide Ran, Untouched, BatchStop, Visible;
  }

  lemma MirroredFirst(
    exec: Executor, job: Job, st: RunState, batch: seq<Step>, s: BatchState, signal: Signal)
    requires Mirrored(st) && BatchDone(exec, job, batch, st.context, st.logs, s, signal)
    requires forall i :: 0 <= i < |batch| ==> batch[i].id in st.logs && st.logs[batch[i].id].Pending?
    ensures MirroredUpTo(batch, 0, st.(logs := s.logs))
  {
    assert Untouched(batch, st.logs, s.logs);
    hide BatchDone;
    forall x | x in st.logs && !Waits(batch, 0, x) ensures s.logs[x] == st.logs[x] {
    }
    forall x | x in st.logs && Waits(batch, 0, x) ensures st.logs[x].Pending? {
    }
    hide Waits, Untouched;
  }

  lemma MirroredLast(
    exec: Executor, job: Job, before: RunState, batch: seq<Step>, s: BatchState, st: RunState)
    requires Mirrored(before) && BatchDone(exec, job, batch, before.context, before.logs, s, None)
    requires st.logs == s.logs && MirroredUpTo(batch, |batch|, st)
    ensures Mirrored(st)
  {
    CleanResults(exec, job, before, batch, s);
    assert Untouched(batch, before.logs, s.logs);
    hide BatchDone;
    forall x | x in s.logs ensures !s.logs[x].Running? && !s.logs[x].Cancelled? && !s.logs[x].Interrupted? {
      if i :| 0 <= i < |batch| && batch[i].id == x {
        assert Matches(s.logs[batch[i].id], s.results[i]);
      }
    }
    hide Untouched;
  }

  lemma ListedLast(
    exec: Executor, job: Job, before: RunState, batch: seq<Step>, s: BatchState, signal: Signal, st: RunState)
    requires Listed(job, before) && BatchDone(exec, job, batch, before.context, before.logs, s, signal)
    requires st.logs == s.logs && Kept(batch, s.results, |batch|, before.pending, st.pending)
    ensures Listed(job, st)
  {
    hide StepSettled, Visible, BatchStop;
    forall x | x in st.pending ensures x in job.steps && x.id in st.logs && st.logs[x.id].Pending? {
      if i :| 0 <= i < |batch| && batch[i].id == x.id {
        assert s.results[i].None?;
      }
    }
  }

  lemma NoneDroppedLast(
    exec: Executor, job: Job, before: RunState, batch: seq<Step>, s: BatchState, st: RunState)
    requires NoneDropped(job, before) && BatchDone(exec, job, batch, before.context, before.logs, s, None)
    requires Grows(before.logs, s.logs)
    requires st.logs == s.logs && Kept(batch, s.results, |batch|, before.pending, st.pending)
    ensures NoneDropped(job, st)
  {
    CleanResults(exec, job, before, batch, s);
    hide BatchDone;
    forall i | 0 <= i < |job.steps|
      ensures job.steps[i].id in st.logs && (st.logs[job.steps[i].id].Pending? ==> job.steps[i] in st.pending)
    {
      if st.logs[job.steps[i].id].Pending? {
        assert before.logs[job.steps[i].id].Pending?;
        forall k | 0 <= k < |batch| && s.results[k].Some? ensures batch[k].id != job.steps[i].id {
          assert Matches(s.logs[batch[k].id], s.results[k]);
        }
      }
    }
  }

  // What every batch without an abort keeps
  lemma BatchKeepsInv(
    exec: Executor, job: Job, opts: Options, before: RunState, batch: seq<Step>, s: BatchState, st: RunState)
    requires UniqueStepIds(job.steps) && Inv(exec, job, opts, before) && Prepared(job, before, batch)
    requires BatchDone(exec, job, batch, before.context, before.logs, s, None)
    requires st.logs == s.logs && MirroredUpTo(batch, |batch|, st)
    requires Kept(batch, s.results, |batch|, before.pending, st.pending)
    ensures Inv(exec, job, opts, st)
  {
    hide Justified, Listed, NoneDropped, Mirrored, UniqueStepIds, Prepared, BatchDone, MirroredUpTo, Kept;
    BatchJustified(exec, job, opts, before, batch, s, None);
    ListedLast(exec, job, before, batch, s, None, st);
    NoneDroppedLast(exec, job, before, batch, s, st);
    MirroredLast(exec, job, before, batch, s, st);
  }

  // ----- The failure so far -----

  ghost predicate HasFailed(logs: Logs, error: Error) {
    exists x :: x in logs && logs[x] == Failed(error)
  }

  // The first rejection is a real failure, and there is one as soon as a step failed
  ghost predicate FailureKnown(logs: Logs, failure: Option<Problem>) {
    match failure
    case None => forall x :: x in logs ==> !logs[x].Failed?
    case Some(p) => p.Failure? && HasFailed(logs, p.error)
  }

  lemma FailureKnownBlocks(logs: Logs, after: Logs, failure: Option<Problem>)
    requires FailureKnown(logs, failure) && after.Keys == logs.Keys
    requires forall x :: x in logs && after[x] != logs[x] ==> logs[x].Pending? && after[x].Blocked?
    ensures FailureKnown(after, failure)
  {
    if failure.Some? {
      var x :| x in logs && logs[x] == Failed(failure.value.error);
      assert after[x] == logs[x];
    }
  }

  lemma FailureKnownNext(
    exec: Executor, job: Job, st: RunState, batch: seq<Step>, s: BatchState,
    before: Option<Problem>, after: Option<Problem>)
    requires BatchDone(exec, job, batch, st.context, st.logs, s, None) && Grows(st.logs, s.logs)
    requires FailureKnown(st.logs, before) && FirstRejection(s.results, |batch|, before, after)
    ensures FailureKnown(s.logs, after)
  {
    CleanResults(exec, job, st, batch, s);
    assert Untouched(batch, st.logs, s.logs);
    hide BatchDone;
    if before.Some? {
      var x :| x in st.logs && st.logs[x] == Failed(before.value.error);
      assert s.logs[x] == Failed(after.value.error);
    } else if after.Some? {
      var k :| 0 <= k < |batch| && IsFirstRejection(s.results, k, after.value);
      assert Matches(s.logs[batch[k].id], s.results[k]);
    } else {
      forall x | x in s.logs ensures !s.logs[x].Failed? {
        if i :| 0 <= i < |batch| && batch[i].id == x {
          assert Matches(s.logs[batch[i].id], s.results[i]);
        }
      }
    }
  }

  // ----- Rounds of a run whose failures stop nothing -----

  function BatchIds(batch: seq<Step>): set<Id> {
    set i | 0 <= i < |batch| :: batch[i].id
  }

  // Given the log of a selected step between rounds: pending, or its verdict
  lemma SelectedLog(exec: Executor, job: Job, opts: Options, st: RunState, x: Id)
    requires WellFormed(job) && Inv(exec, job, opts, st) && x in ToRun(job, opts)
    ensures x in st.logs && (st.logs[x].Pending? || Final(st.logs[x]))
  {
    SelectedHasLog(exec, job, opts, st.logs, x);
  }

  lemma PendingIsSelected(exec: Executor, job: Job, opts: Options, logs: Logs, i: nat)
    requires WellFormed(job) && Justified(exec, job, opts, logs) && i < |job.steps|
    requires job.steps[i].id in logs && !logs[job.steps[i].id].Outside? && !logs[job.steps[i].id].Reused?
    ensures job.steps[i].id in ToRun(job, opts)
  {
    StepInGraph(job, i);
  }

  // A pending, runnable step is startable
  lemma RunnableIsStartable(exec: Executor, job: Job, opts: Options, st: RunState, i: nat)
    requires WellFormed(job) && Inv(exec, job, opts, st) && i < |job.steps|
    requires job.steps[i] in st.pending && IsRunnable(job.steps[i], st.successful)
    ensures job.steps[i].id in Startable(job, opts)
  {
    InvParts(exec, job, opts, st);
    ListedStep(job, st, job.steps[i]);
    PendingIsSelected(exec, job, opts, st.logs, i);
    hide WellFormed, Inv, Justified, Startable, Listed, NoneDropped, Mirrored, IsRunnable, Visible, Dependencies;
    VisibleIsInputs(job.steps[i], st);
    hide AllSatisfied;
    if job.steps[i].id !in Startable(job, opts) {
      LackingNeverStarts(exec, job, opts, st.logs, i);
    }
  }

  // And it is in the next level
  lemma RunnableIsNext(exec: Executor, job: Job, opts: Options, st: RunState, i: nat, k: nat)
    requires WellFormed(job) && Inv(exec, job, opts, st) && i < |job.steps|
    requires Decided(CoreGraph(job, opts), st.logs, k)
    requires job.steps[i] in st.pending && IsRunnable(job.steps[i], st.successful)
    ensures job.steps[i].id in StartedIn(CoreGraph(job, opts), st.logs, k)
  {
    var g, step := CoreGraph(job, opts), job.steps[i];
    RunnableIsStartable(exec, job, opts, st, i);
    CoreNodes(job, opts);
    assert step.id in st.logs && st.logs[step.id].Pending?;
    assert Mirrored(st);
    StepInGraph(job, i);
    hide WellFormed, Inv, Dependencies, ToRun, Startable, CoreGraph, Mirrored, Decided, Listed, Justified, IsRunnable;
    forall d | d in g[step.id] ensures d in Below(g, k) {
      CoreEdge(job, opts, step.id, d);
      assert Edge(g, step.id, d);
      SucceededIsBelow(g, st, step, d, k);
    }
    assert step.id !in Below(g, k) by { PendingIsNotBelow(g, st.logs, step.id, k); }
  }

  lemma SucceededIsBelow(g: Graph, st: RunState, step: Step, d: Id, k: nat)
    requires Mirrored(st) && IsRunnable(step, st.successful) && Decided(g, st.logs, k)
    requires d in step.dependsOn && d in g
    ensures d in Below(g, k)
  {
    hide Below;
    var j :| 0 <= j < |step.dependsOn| && step.dependsOn[j] == d;
    assert d in st.successful;
  }

  lemma PendingIsNotBelow(g: Graph, logs: Logs, x: Id, k: nat)
    requires Decided(g, logs, k) && x in logs && logs[x].Pending?
    ensures x !in Below(g, k)
  {
  }

  // A step of the next level that is not blocked is pending and runnable
  lemma NextDependencySucceeded(exec: Executor, job: Job, opts: Options, st: RunState, i: nat, j: nat, k: nat)
    requires WellFormed(job) && Inv(exec, job, opts, st)
    requires i < |job.steps| && j < |job.steps[i].dependsOn|
    requires Decided(CoreGraph(job, opts), st.logs, k) && !HasBlocker(job.steps[i], st.unsuccessful)
    requires job.steps[i].id in Below(CoreGraph(job, opts), k + 1)
    ensures job.steps[i].dependsOn[j] in st.successful
  {
    var g, a, d := CoreGraph(job, opts), job.steps[i].id, job.steps[i].dependsOn[j];
    InvParts(exec, job, opts, st);
    DependencyLog(exec, job, opts, st.logs, i, j);
    CoreNodes(job, opts);
    assert a in g;
    hide WellFormed, Inv, Justified, Dependencies, InitialLog, Startable, CoreGraph, Mirrored, HasBlocker, Listed, NoneDropped, Below;
    StartableDependency(job, opts, a, d);
    if InitialLog(opts, d).Pending? {
      CoreEdge(job, opts, a, d);
      SelectedLog(exec, job, opts, st, d);
      BelowEdge(g, a, d, k + 1);
    } else {
      OutOfReachIsReused(exec, job, opts, st.logs, d);
    }
    UnblockedSucceeded(st, job.steps[i], j);
  }

  lemma OutOfReachIsReused(exec: Executor, job: Job, opts: Options, logs: Logs, d: Id)
    requires Justified(exec, job, opts, logs) && d in logs
    requires !InitialLog(opts, d).Pending? && !InitialLog(opts, d).Outside?
    ensures logs[d].Reused?
  {
    hide Explained;
  }

  lemma UnblockedSucceeded(st: RunState, step: Step, j: nat)
    requires Mirrored(st) && !HasBlocker(step, st.unsuccessful) && j < |step.dependsOn|
    requires step.dependsOn[j] in st.logs
    requires Final(st.logs[step.dependsOn[j]]) || st.logs[step.dependsOn[j]].Reused?
    ensures step.dependsOn[j] in st.successful
  {
  }

  lemma NextIsRunnable(exec: Executor, job: Job, opts: Options, st: RunState, i: nat, k: nat)
    requires WellFormed(job) && Inv(exec, job, opts, st) && NoneBlocked(st)
    requires Decided(CoreGraph(job, opts), st.logs, k) && i < |job.steps|
    requires job.steps[i].id in StartedIn(CoreGraph(job, opts), st.logs, k)
    ensures job.steps[i] in st.pending && IsRunnable(job.steps[i], st.successful)
  {
    hide WellFormed, Justified, Mirrored, CoreGraph, Below, HasBlocker;
    forall j | 0 <= j < |job.steps[i].dependsOn| ensures job.steps[i].dependsOn[j] in st.successful {
      NextDependencySucceeded(exec, job, opts, st, i, j, k);
    }
  }

  lemma StartedIsSelected(exec: Executor, job: Job, opts: Options, logs: Logs, x: Id, k: nat)
    requires Justified(exec, job, opts, logs) && x in StartedIn(CoreGraph(job, opts), logs, k)
    ensures HasStep(job.steps, x)
  {
    hide Justified, Below;
    SelectedHasLog(exec, job, opts, logs, x);
  }

  // The next batch is the next level without its blocked steps
  lemma BatchIsLevel(exec: Executor, job: Job, opts: Options, st: RunState, batch: seq<Step>, k: nat)
    requires WellFormed(job) && Inv(exec, job, opts, st) && NoneBlocked(st)
    requires Decided(CoreGraph(job, opts), st.logs, k) && Prepared(job, st, batch)
    ensures BatchIds(batch) == StartedIn(CoreGraph(job, opts), st.logs, k)
  {
    hide WellFormed, Inv, NoneBlocked, CoreGraph, Decided, StartedIn, Justified, IsRunnable, Mirrored, NoneDropped;
    var started := StartedIn(CoreGraph(job, opts), st.logs, k);
    InvParts(exec, job, opts, st);
    forall x | x in BatchIds(batch) ensures x in started {
      var b :| 0 <= b < |batch| && batch[b].id == x;
      assert batch[b] in batch;
      ListedStep(job, st, batch[b]);
      var i :| 0 <= i < |job.steps| && job.steps[i] == batch[b];
      RunnableIsNext(exec, job, opts, st, i, k);
    }
    forall x | x in started ensures x in BatchIds(batch) {
      StartedIsSelected(exec, job, opts, st.logs, x, k);
      var i :| 0 <= i < |job.steps| && job.steps[i].id == x;
      NextIsRunnable(exec, job, opts, st, i, k);
      assert job.steps[i] in batch;
    }
  }

  // A batch that no failure stops gives every one of its steps a verdict
  lemma BatchExecutes(
    exec: Executor, job: Job, g: Graph, st: RunState, batch: seq<Step>, s: BatchState, k: nat)
    requires BatchDone(exec, job, batch, st.context, st.logs, s, None) && s.stop.None?
    requires BatchIds(batch) == StartedIn(g, st.logs, k)
    ensures Executes(g, st.logs, s.logs, k)
  {
    CleanResults(exec, job, st, batch, s);
    assert Untouched(batch, st.logs, s.logs);
    assert forall i :: 0 <= i < |batch| ==> s.results[i].Some?;
    hide BatchDone, StartedIn;
    forall x | x in StartedIn(g, st.logs, k) ensures x in s.logs && !s.logs[x].Pending? && !s.logs[x].Blocked? {
      var i :| 0 <= i < |batch| && batch[i].id == x;
      assert Matches(s.logs[batch[i].id], s.results[i]);
    }
    forall x | x in st.logs && x !in StartedIn(g, st.logs, k) ensures s.logs[x] == st.logs[x] {
      forall i | 0 <= i < |batch| ensures batch[i].id != x {
        assert batch[i].id in BatchIds(batch);
      }
    }
  }

  // ----- Failures that stop the job -----

  // The i-th step failed, and its failure stops the job: under fail_fast, or by FAIL_JOB_ON_FAILURE
  ghost predicate StopsJob(job: Job, logs: Logs, i: nat) {
    && i < |job.steps| && job.steps[i].id in logs && logs[job.steps[i].id].Failed?
    && (job.failurePolicy.FailFast? || job.steps[i].failJobOnFailure)
  }

  ghost predicate NothingStops(job: Job, logs: Logs) {
    forall i :: 0 <= i < |job.steps| ==> !StopsJob(job, logs, i)
  }

  lemma NothingStopsBlocks(job: Job, logs: Logs, after: Logs)
    requires NothingStops(job, logs) && after.Keys == logs.Keys
    requires forall x :: x in logs && after[x] != logs[x] ==> logs[x].Pending? && after[x].Blocked?
    ensures NothingStops(job, after)
  {
    forall i | 0 <= i < |job.steps| ensures !StopsJob(job, after, i) {
      assert !StopsJob(job, logs, i);
    }
  }

  // In a batch without an abort a step stops the job exactly when its result asks for that
  lemma StopsInBatch(
    exec: Executor, job: Job, st: RunState, batch: seq<Step>, s: BatchState, i: nat, k: nat)
    requires BatchDone(exec, job, batch, st.context, st.logs, s, None)
    requires i < |job.steps| && k < |batch| && batch[k] == job.steps[i]
    ensures StopsJob(job, s.logs, i) <==> AsksToStop(job, batch, s.results, k)
  {
    CleanResults(exec, job, st, batch, s);
    hide BatchDone;
    assert Matches(s.logs[batch[k].id], s.results[k]);
  }

  // What stops the job after a batch is in the batch
  lemma StopsOnlyInBatch(
    exec: Executor, job: Job, st: RunState, batch: seq<Step>, s: BatchState, i: nat) returns (k: nat)
    requires UniqueStepIds(job.steps) && NothingStops(job, st.logs) && StopsJob(job, s.logs, i)
    requires BatchDone(exec, job, batch, st.context, st.logs, s, None)
    requires forall q :: 0 <= q < |batch| ==> batch[q] in job.steps
    ensures k < |batch| && batch[k] == job.steps[i] && AsksToStop(job, batch, s.results, k)
  {
    assert Untouched(batch, st.logs, s.logs) && s.logs.Keys == st.logs.Keys;
    assert !StopsJob(job, st.logs, i);
    hide BatchDone, UniqueStepIds;
    k :| 0 <= k < |batch| && batch[k].id == job.steps[i].id;
    SameIdSameStep(job, batch[k], job.steps[i]);
    StopsInBatch(exec, job, st, batch, s, i, k);
  }

  // A batch that was not stopped leaves no failure that stops the job
  lemma NothingStopsNext(
    exec: Executor, job: Job, st: RunState, batch: seq<Step>, s: BatchState)
    requires UniqueStepIds(job.steps) && NothingStops(job, st.logs) && s.stop.None?
    requires BatchDone(exec, job, batch, st.context, st.logs, s, None)
    requires forall q :: 0 <= q < |batch| ==> batch[q] in job.steps
    ensures NothingStops(job, s.logs)
  {
    assert BatchStop(job, batch, s);
    forall i | 0 <= i < |job.steps| ensures !StopsJob(job, s.logs, i) {
      if StopsJob(job, s.logs, i) {
        var k := StopsOnlyInBatch(exec, job, st, batch, s, i);
      }
    }
  }

  // ----- The failure that speaks for the job -----

  lemma EarlierRound(g: Graph, a: Step, b: Step, k: nat)
    requires a.id in Below(g, k) && b.id !in Below(g, k)
    ensures NoLater(g, a, b)
  {
    forall n: nat | b.id in Below(g, n) ensures a.id in Below(g, n) {
      if n <= k {
        BelowGrows(g, n, k);
      } else {
        BelowGrows(g, k, n);
      }
    }
  }

  lemma SameRound(g: Graph, a: Step, b: Step, k: nat)
    requires a.id in Layer(g, k) && b.id in Layer(g, k) && a.order <= b.order
    ensures NoLater(g, a, b)
  {
    forall n: nat | b.id in Below(g, n) ensures a.id in Below(g, n) {
      if n <= k {
        BelowGrows(g, n, k);
      } else {
        BelowGrows(g, k + 1, n);
      }
    }
  }

  ghost predicate FailureSpeaks(job: Job, opts: Options, logs: Logs, failure: Option<Problem>) {
    failure.Some? ==> failure.value.Failure? && RepresentativeFailure(job, CoreGraph(job, opts), logs, failure.value.error)
  }

  lemma FailureSpeaksBlocks(job: Job, opts: Options, logs: Logs, after: Logs, failure: Option<Problem>)
    requires FailureSpeaks(job, opts, logs, failure) && after.Keys == logs.Keys
    requires forall x :: x in logs && after[x] != logs[x] ==> logs[x].Pending? && after[x].Blocked?
    ensures FailureSpeaks(job, opts, after, failure)
  {
    hide NoLater, CoreGraph;
    if failure.Some? {
      var e := failure.value.error;
      var i :| 0 <= i < |job.steps| && Speaks(job, CoreGraph(job, opts), logs, e, i);
      assert Speaks(job, CoreGraph(job, opts), after, e, i);
    }
  }

  // A failed step is startable
  lemma FailedIsStartable(exec: Executor, job: Job, opts: Options, logs: Logs, i: nat)
    requires WellFormed(job) && Justified(exec, job, opts, logs)
    requires i < |job.steps| && job.steps[i].id in logs && logs[job.steps[i].id].Failed?
    ensures job.steps[i].id in Startable(job, opts)
  {
    PendingIsSelected(exec, job, opts, logs, i);
    hide WellFormed, Justified, Startable;
    if job.steps[i].id !in Startable(job, opts) {
      LackingNeverStarts(exec, job, opts, logs, i);
    }
  }

  // A failure of an earlier round keeps speaking
  lemma SpeaksOn(
    exec: Executor, job: Job, opts: Options, st: RunState, after: Logs, error: Error, k: nat, i: nat)
    requires WellFormed(job) && Inv(exec, job, opts, st) && i < |job.steps| && Speaks(job, CoreGraph(job, opts), st.logs, error, i)
    requires Decided(CoreGraph(job, opts), st.logs, k) && Executes(CoreGraph(job, opts), st.logs, after, k)
    ensures Speaks(job, CoreGraph(job, opts), after, error, i)
  {
    var g := CoreGraph(job, opts);
    FailedIsStartable(exec, job, opts, st.logs, i);
    CoreNodes(job, opts);
    hide WellFormed, Inv, CoreGraph, Startable, Below, NoLater;
    assert job.steps[i].id in Below(g, k);
    assert after[job.steps[i].id] == st.logs[job.steps[i].id];
    forall m | 0 <= m < |job.steps| && job.steps[m].id in after && after[job.steps[m].id].Failed?
      ensures NoLater(g, job.steps[i], job.steps[m])
    {
      if job.steps[m].id in StartedIn(g, st.logs, k) {
        EarlierRound(g, job.steps[i], job.steps[m], k);
      }
    }
  }

  // The first failure in ORDER of the first failing round starts speaking
  lemma SpeaksUp(
    job: Job, opts: Options, st: RunState, batch: seq<Step>, s: BatchState, k: nat, r: nat, problem: Problem)
    requires UniqueStepIds(job.steps) && Ordered(batch) && |batch| == |s.results|
    requires forall i :: 0 <= i < |batch| ==> batch[i] in job.steps
    requires forall i :: 0 <= i < |batch| ==> batch[i].id in s.logs && Matches(s.logs[batch[i].id], s.results[i])
    requires forall x :: x in st.logs ==> !st.logs[x].Failed?
    requires BatchIds(batch) == StartedIn(CoreGraph(job, opts), st.logs, k)
    requires Executes(CoreGraph(job, opts), st.logs, s.logs, k)
    requires r < |batch| && IsFirstRejection(s.results, r, problem)
    ensures problem.Failure? && RepresentativeFailure(job, CoreGraph(job, opts), s.logs, problem.error)
  {
    hide CoreGraph, Below, NoLater, UniqueStepIds, Ordered;
    var g := CoreGraph(job, opts);
    assert Matches(s.logs[batch[r].id], s.results[r]);
    assert batch[r].id in BatchIds(batch);
    var i :| 0 <= i < |job.steps| && job.steps[i] == batch[r];
    forall m | 0 <= m < |job.steps| && job.steps[m].id in s.logs && s.logs[job.steps[m].id].Failed?
      ensures NoLater(g, job.steps[i], job.steps[m])
    {
      assert job.steps[m].id in BatchIds(batch);
      var q :| 0 <= q < |batch| && batch[q].id == job.steps[m].id;
      SameIdSameStep(job, batch[q], job.steps[m]);
      assert Matches(s.logs[batch[q].id], s.results[q]);
      OrderedAt(batch, r, q);
      SameRound(g, batch[r], batch[q], k);
    }
    assert Speaks(job, CoreGraph(job, opts), s.logs, problem.error, i);
  }

  lemma OrderedAt(steps: seq<Step>, i: nat, j: nat)
    requires Ordered(steps) && i <= j < |steps|
    ensures steps[i].order <= steps[j].order
  {
  }

  lemma FailureSpeaksNext(
    exec: Executor, job: Job, opts: Options, st: RunState, batch: seq<Step>, s: BatchState, k: nat,
    before: Option<Problem>, after: Option<Problem>)
    requires WellFormed(job) && Inv(exec, job, opts, st) && Prepared(job, st, batch)
    requires BatchDone(exec, job, batch, st.context, st.logs, s, None)
    requires Decided(CoreGraph(job, opts), st.logs, k) && Executes(CoreGraph(job, opts), st.logs, s.logs, k)
    requires BatchIds(batch) == StartedIn(CoreGraph(job, opts), st.logs, k)
    requires FailureKnown(st.logs, before) && FailureSpeaks(job, opts, st.logs, before)
    requires FirstRejection(s.results, |batch|, before, after)
    ensures FailureSpeaks(job, opts, s.logs, after)
  {
    CleanResults(exec, job, st, batch, s);
    PreparedBatch(job, st, batch);
    assert UniqueStepIds(job.steps);
    hide WellFormed, Inv, CoreGraph, BatchDone, Executes, Decided, Matches, Speaks, DistinctSteps, UniqueStepIds;
    if before.Some? {
      var i :| 0 <= i < |job.steps| && Speaks(job, CoreGraph(job, opts), st.logs, before.value.error, i);
      SpeaksOn(exec, job, opts, st, s.logs, before.value.error, k, i);
    } else if after.Some? {
      var r :| 0 <= r < |batch| && IsFirstRejection(s.results, r, after.value);
      SpeaksUp(job, opts, st, batch, s, k, r, after.value);
    }
  }

  // ----- Cancelling what has not started -----

  // Only steps that had not started change, and only to cancelled
  ghost predicate OnlyCancels(logs: Logs, after: Logs) {
    after.Keys == logs.Keys &&
    forall x :: x in logs && after[x] != logs[x] ==> logs[x].Pending? && after[x].Cancelled?
  }

  lemma CancelsJustified(exec: Executor, job: Job, opts: Options, logs: Logs, after: Logs)
    requires Justified(exec, job, opts, logs) && OnlyCancels(logs, after)
    ensures Justified(exec, job, opts, after)
  {
    hide Justified, Ran, AllSatisfied, SomeUnsatisfied;
    StepsLogged(exec, job, opts, logs);
    JustifiedGrows(exec, job, opts, logs, after);
  }

  // ----- When nothing is runnable -----

  // Steps are left and none of them can start or be skipped
  ghost predicate IsStuck(st: RunState) {
    st.pending != [] && NoneBlocked(st) && forall s :: s in st.pending ==> !IsRunnable(s, st.successful)
  }

  // Cancelling a stuck step cuts it off
  lemma StuckIsCutOff(st: RunState, step: Step, after: Logs)
    requires Mirrored(st) && IsStuck(st) && step in st.pending && OnlyCancels(st.logs, after)
    ensures CutOff(step, after)
  {
    assert !HasBlocker(step, st.unsuccessful);
    var j :| 0 <= j < |step.dependsOn| && step.dependsOn[j] !in st.successful;
    assert step.dependsOn[j] in after ==> !after[step.dependsOn[j]].Satisfied();
  }

  // A stuck run whose remaining steps are cancelled has nothing left to decide
  lemma StuckIsExhausted(exec: Executor, job: Job, opts: Options, st: RunState, after: Logs)
    requires Inv(exec, job, opts, st) && IsStuck(st) && OnlyCancels(st.logs, after)
    requires forall s :: s in st.pending ==> s.id in after && after[s.id].Cancelled?
    ensures Exhausted(exec, job, opts, after)
  {
    InvParts(exec, job, opts, st);
    CancelsJustified(exec, job, opts, st.logs, after);
    StepsLogged(exec, job, opts, after);
    hide Inv, Justified, IsStuck, Listed, CutOff;
    forall i | 0 <= i < |job.steps| && InitialLog(opts, job.steps[i].id).Pending? ensures IsOver(job.steps[i], after) {
      if st.logs[job.steps[i].id].Pending? {
        StuckIsCutOff(st, job.steps[i], after);
      } else {
        JustifiedStep(exec, job, opts, st.logs, i);
      }
    }
  }

  // The logs that cancelling every pending step leaves
  function CancelAll(logs: Logs): Logs {
    map x | x in logs :: if logs[x].Pending? then Cancelled else logs[x]
  }

  lemma CancelAllCancels(job: Job, st: RunState)
    requires Listed(job, st)
    ensures OnlyCancels(st.logs, CancelAll(st.logs))
    ensures forall s :: s in st.pending ==> s.id in CancelAll(st.logs) && CancelAll(st.logs)[s.id].Cancelled?
  {
  }

  // A run gets stuck only on steps whose dependencies it was never given
  lemma StuckIsUnavailable(exec: Executor, job: Job, opts: Options, st: RunState)
    requires WellFormed(job) && Inv(exec, job, opts, st) && IsStuck(st)
    ensures !Available(job, opts)
  {
    InvParts(exec, job, opts, st);
    assert st.pending[0] in st.pending;
    hide *;
    CancelAllCancels(job, st);
    StuckIsExhausted(exec, job, opts, st, CancelAll(st.logs));
    StuckIsLacking(exec, job, opts, st, CancelAll(st.logs), st.pending[0]);
    if Available(job, opts) {
      AvailableIsStartable(job, opts);
    }
  }

  lemma StuckIsLacking(exec: Executor, job: Job, opts: Options, st: RunState, after: Logs, step: Step)
    requires WellFormed(job) && Justified(exec, job, opts, st.logs) && Exhausted(exec, job, opts, after)
    requires Listed(job, st) && step in st.pending && step.id in after && after[step.id].Cancelled?
    ensures step.id in ToRun(job, opts) && step.id !in Startable(job, opts)
  {
    ListedStep(job, st, step);
    var i :| 0 <= i < |job.steps| && job.steps[i] == step;
    PendingIsSelected(exec, job, opts, st.logs, i);
    hide *;
    CutOffIffLacking(exec, job, opts, after, step.id);
  }

  // The loop of cancelPending

  lemma {:induction false} WithoutAbsent(pending: seq<Step>, id: Id)
    requires forall s :: s in pending ==> s.id != id
    ensures Without(pending, id) == pending
  {
    if pending != [] {
      WithoutAbsent(pending[1..], id);
    }
  }

  lemma WithoutFirst(job: Job, snapshot: seq<Step>, i: nat)
    requires UniqueStepIds(job.steps) && Ordered(snapshot) && i < |snapshot|
    requires forall s :: s in snapshot ==> s in job.steps
    ensures Without(snapshot[i..], snapshot[i].id) == snapshot[i + 1..]
  {
    forall k | i < k < |snapshot| ensures snapshot[k].id != snapshot[i].id {
      if snapshot[k].id == snapshot[i].id {
        SameIdSameStep(job, snapshot[i], snapshot[k]);
      }
    }
    WithoutAbsent(snapshot[i + 1..], snapshot[i].id);
    assert snapshot[i..][1..] == snapshot[i + 1..];
  }

  // No listed step is running, so cancelPending never passes one over
  method CancelPending(job: Job, st0: RunState, before: Signal) returns (st: RunState, signal: Signal)
    requires UniqueStepIds(job.steps) && Listed(job, st0)
    ensures Later(before, signal)
    ensures st.pending == [] && OnlyCancels(st0.logs, st.logs)
    ensures st0.pending == [] ==> st == st0
    ensures forall s :: s in st0.pending ==> s.id in st.logs && st.logs[s.id].Cancelled?
  {
    hide UniqueStepIds, Without;
    st, signal := st0, before;
    for i := 0 to |st0.pending|
      invariant Later(before, signal) && OnlyCancels(st0.logs, st.logs)
      invariant st.pending == st0.pending[i..] && (i == 0 ==> st == st0)
      invariant forall k :: 0 <= k < i ==> st0.pending[k].id in st.logs && st.logs[st0.pending[k].id].Cancelled?
    {
      var step := st0.pending[i];
      signal := Await(signal);
      WithoutFirst(job, st0.pending, i);
      st := st.(
        logs := st.logs[step.id := Cancelled],
        unsuccessful := st.unsuccessful + {step.id},
        pending := Without(st.pending, step.id));
    }
  }

  // ----- One round -----

  // How a turn of the main loop ends
  datatype Turn = Again | Drained | Stuck | Thrown(problem: Problem)

  // What the rounds so far have established
  ghost predicate Tracked(job: Job, opts: Options, logs: Logs, failure: Option<Problem>, batches: seq<set<Id>>) {
    && FailureKnown(logs, failure) && NothingStops(job, logs)
    && Staged(CoreGraph(job, opts), logs, batches) && FailureSpeaks(job, opts, logs, failure)
  }

  // What holds when a problem is thrown out of the main loop
  ghost predicate Leaving(
    exec: Executor, job: Job, opts: Options, st: RunState, problem: Problem, signal: Signal, batches: seq<set<Id>>) {
    && Justified(exec, job, opts, st.logs) && Listed(job, st) && NoneRunning(st.logs)
    && (signal.None? ==> NoneDropped(job, st))
    && match problem
      case Abort(code) => signal == Some(code) && Interrupts(st.logs, signal) && DroppedFrom(job, st, batches)
      case Failure(e) => NoneInterrupted(st.logs) && st.pending == [] && NoneDropped(job, st) && Stopped(job, opts, st.logs, batches, e)
  }

  ghost predicate NoneInterrupted(logs: Logs) {
    forall x :: x in logs ==> !logs[x].Interrupted?
  }

  // Only a shutdown of the server interrupts a step
  ghost predicate Interrupts(logs: Logs, signal: Signal) {
    signal == Some(ServerInterrupted) || NoneInterrupted(logs)
  }

  // A step that has neither a log nor a place in the list any more is one of the batch that was aborted
  ghost predicate DroppedFrom(job: Job, st: RunState, batches: seq<set<Id>>) {
    forall i :: 0 <= i < |job.steps| && job.steps[i].id in st.logs && st.logs[job.steps[i].id].Pending? ==>
      job.steps[i] in st.pending || (batches != [] && job.steps[i].id in batches[|batches| - 1])
  }

  // A run that a failure stopped, by a failure of its last round
  ghost predicate Stopped(job: Job, opts: Options, logs: Logs, batches: seq<set<Id>>, error: Error) {
    && batches != []
    && (exists i: nat :: StopsJob(job, logs, i) && logs[job.steps[i].id] == Failed(error))
    && (forall i: nat :: StopsJob(job, logs, i) ==> job.steps[i].id in batches[|batches| - 1])
    && StoppedRounds(job, opts, logs, batches)
    && LastInOrder(job, logs, batches)
  }

  // The rounds are levels, in all but the last every step ended, and no step of a later round was started
  ghost predicate StoppedRounds(job: Job, opts: Options, logs: Logs, batches: seq<set<Id>>) {
    && (forall k :: 0 <= k < |batches| ==> batches[k] == StartedIn(CoreGraph(job, opts), logs, k))
    && (forall x, k :: 0 <= k < |batches| && x in batches[k] ==>
      x in logs && (Final(logs[x]) || (k == |batches| - 1 && logs[x].Cancelled?)))
    && (forall x :: x in logs && x in ToRun(job, opts) && x !in Below(CoreGraph(job, opts), |batches|) ==>
      logs[x].Blocked? || logs[x].Cancelled?)
  }

  // In the last round the steps first in ORDER were started and the others cancelled
  ghost predicate LastInOrder(job: Job, logs: Logs, batches: seq<set<Id>>) {
    forall i: nat, m: nat :: InLast(job, batches, i) && InLast(job, batches, m) && job.steps[i].order < job.steps[m].order ==>
      StartsInOrder(job, logs, i, m)
  }

  ghost predicate InLast(job: Job, batches: seq<set<Id>>, i: nat) {
    i < |job.steps| && batches != [] && job.steps[i].id in batches[|batches| - 1]
  }

  // Of two steps of the last round the later in ORDER is not started without the earlier, and with one step at a
  // time not after one that stops the job
  ghost predicate StartsInOrder(job: Job, logs: Logs, i: nat, m: nat)
    requires i < |job.steps| && m < |job.steps|
  {
    && job.steps[i].id in logs && job.steps[m].id in logs
    && (logs[job.steps[i].id].Cancelled? ==> logs[job.steps[m].id].Cancelled?)
    && (job.maxConcurrency == 1 && StopsJob(job, logs, i) ==> logs[job.steps[m].id].Cancelled?)
  }

  lemma TrackedBlocks(job: Job, opts: Options, st: RunState, after: RunState, failure: Option<Problem>, batches: seq<set<Id>>)
    requires Tracked(job, opts, st.logs, failure, batches) && OnlyBlocks(st, after)
    ensures Tracked(job, opts, after.logs, failure, batches)
  {
    hide FailureKnown, Staged, CoreGraph, FailureSpeaks, NothingStops;
    FailureKnownBlocks(st.logs, after.logs, failure);
    NothingStopsBlocks(job, st.logs, after.logs);
    StagedBlocks(CoreGraph(job, opts), st.logs, after.logs, batches);
    FailureSpeaksBlocks(job, opts, st.logs, after.logs, failure);
  }

  lemma TrackedNext(
    exec: Executor, job: Job, opts: Options, st: RunState, batch: seq<Step>, s: BatchState,
    before: Option<Problem>, after: Option<Problem>, batches: seq<set<Id>>)
    requires WellFormed(job) && Inv(exec, job, opts, st) && NoneBlocked(st)
    requires Prepared(job, st, batch) && batch != []
    requires BatchDone(exec, job, batch, st.context, st.logs, s, None) && s.stop.None?
    requires Tracked(job, opts, st.logs, before, batches)
    requires FirstRejection(s.results, |batch|, before, after)
    ensures Tracked(job, opts, s.logs, after, batches + [BatchIds(batch)])
  {
    assert UniqueStepIds(job.steps) && Listed(job, st);
    PreparedBatch(job, st, batch);
    assert batch[0].id in BatchIds(batch);
    hide WellFormed, Inv, NoneBlocked, Prepared, BatchDone, FirstRejection, UniqueStepIds, Listed, BatchIds, DistinctSteps;
    hide FailureKnown, CoreGraph, FailureSpeaks, NothingStops, Decided, StartedIn, Executes;
    BatchJustified(exec, job, opts, st, batch, s, None);
    FailureKnownNext(exec, job, st, batch, s, before, after);
    NothingStopsNext(exec, job, st, batch, s);
    var k := |batches|;
    BatchIsLevel(exec, job, opts, st, batch, k);
    BatchExecutes(exec, job, CoreGraph(job, opts), st, batch, s, k);
    StagedNext(CoreGraph(job, opts), st.logs, s.logs, batches);
    FailureSpeaksNext(exec, job, opts, st, batch, s, k, before, after);
  }

  lemma BatchNoneRunning(
    exec: Executor, job: Job, st: RunState, batch: seq<Step>, s: BatchState, signal: Signal)
    requires Mirrored(st) && BatchDone(exec, job, batch, st.context, st.logs, s, signal)
    ensures NoneRunning(s.logs)
  {
    hide Ran, Visible, BatchStop;
    forall x | x in s.logs ensures !s.logs[x].Running? {
      if i :| 0 <= i < |batch| && batch[i].id == x {
      }
    }
  }

  // ----- The failure policy stops the run -----

  // The stop reason is a failure that stops the job
  lemma StoppedByFailure(
    exec: Executor, job: Job, st: RunState, batch: seq<Step>, s: BatchState) returns (i: nat)
    requires BatchDone(exec, job, batch, st.context, st.logs, s, None) && s.stop.Some?
    requires forall q :: 0 <= q < |batch| ==> batch[q] in job.steps
    ensures StopsJob(job, s.logs, i)
    ensures s.stop.value.Failure? && s.logs[job.steps[i].id] == Failed(s.stop.value.error)
  {
    CleanResults(exec, job, st, batch, s);
    assert BatchStop(job, batch, s);
    hide BatchDone;
    var p: nat :| StoppedAt(job, batch, s, job.maxConcurrency, p);
    var k := s.order[p];
    assert Matches(s.logs[batch[k].id], s.results[k]);
    i :| 0 <= i < |job.steps| && job.steps[i] == batch[k];
  }

  // What a stopped batch and the cancelling after it make of the logs
  ghost predicate StopLogs(logs: Logs, batch: seq<Step>, s: BatchState, after: Logs) {
    && after.Keys == logs.Keys && s.logs.Keys == logs.Keys && |s.results| == |batch|
    && (forall k :: 0 <= k < |batch| ==> batch[k].id in logs && batch[k].id in s.logs && batch[k].id in after)
    && (forall k :: 0 <= k < |batch| && s.results[k].Some? ==>
      after[batch[k].id] == s.logs[batch[k].id] && Final(after[batch[k].id]) && !after[batch[k].id].Blocked?)
    && (forall k :: 0 <= k < |batch| && s.results[k].None? ==> after[batch[k].id].Cancelled?)
    && (forall x :: x in logs && x !in BatchIds(batch) ==> after[x] == if logs[x].Pending? then Cancelled else logs[x])
  }

  lemma StopLogsAre(
    exec: Executor, job: Job, st: RunState, batch: seq<Step>, s: BatchState, after: Logs)
    requires BatchDone(exec, job, batch, st.context, st.logs, s, None)
    requires OnlyCancels(s.logs, after) && forall x :: x in after ==> !after[x].Pending?
    requires forall k :: 0 <= k < |batch| ==> batch[k].id in st.logs
    ensures StopLogs(st.logs, batch, s, after)
  {
    CleanResults(exec, job, st, batch, s);
    assert Untouched(batch, st.logs, s.logs);
    hide BatchDone;
    forall k | 0 <= k < |batch|
      ensures s.results[k].Some? ==> Final(s.logs[batch[k].id]) && !s.logs[batch[k].id].Blocked? && after[batch[k].id] == s.logs[batch[k].id]
      ensures s.results[k].None? ==> after[batch[k].id].Cancelled?
    {
      assert Matches(s.logs[batch[k].id], s.results[k]);
    }
    forall x | x in st.logs && x !in BatchIds(batch) ensures s.logs[x] == st.logs[x] {
      forall k | 0 <= k < |batch| ensures batch[k].id != x {
        assert batch[k].id in BatchIds(batch);
      }
    }
  }

  lemma StopKeepsRounds(g: Graph, logs: Logs, batch: seq<Step>, s: BatchState, after: Logs, batches: seq<set<Id>>)
    requires Staged(g, logs, batches) && StopLogs(logs, batch, s, after)
    requires BatchIds(batch) == StartedIn(g, logs, |batches|)
    ensures forall k :: 0 <= k < |batches| ==> batches[k] == StartedIn(g, after, k)
    ensures BatchIds(batch) == StartedIn(g, after, |batches|)
    ensures forall x :: x in Below(g, |batches|) ==> x in logs && x in after && after[x] == logs[x] && !after[x].Pending?
  {
    var n := |batches|;
    hide Below;
    assert forall k :: 0 <= k < |batch| ==> batch[k].id in BatchIds(batch);
    forall x | x in Below(g, n) ensures x in logs && after[x] == logs[x] && !after[x].Pending? {
      assert x !in BatchIds(batch);
    }
    forall k | 0 <= k < n ensures batches[k] == StartedIn(g, after, k) {
      StartedInKept(g, logs, after, k, n);
    }
    forall x ensures x in StartedIn(g, after, n) <==> x in StartedIn(g, logs, n) {
      if x in BatchIds(batch) {
        var k :| 0 <= k < |batch| && batch[k].id == x;
        assert s.results[k].Some? || s.results[k].None?;
      }
    }
  }

  // The steps that stop the job after a stopped batch are those its results ask for
  lemma StopsAfterStop(
    exec: Executor, job: Job, st: RunState, batch: seq<Step>, s: BatchState, after: Logs, i: nat)
    requires UniqueStepIds(job.steps) && NothingStops(job, st.logs)
    requires BatchDone(exec, job, batch, st.context, st.logs, s, None) && OnlyCancels(s.logs, after)
    requires forall q :: 0 <= q < |batch| ==> batch[q] in job.steps
    ensures StopsJob(job, after, i) <==> StopsJob(job, s.logs, i)
    ensures StopsJob(job, after, i) ==> job.steps[i].id in BatchIds(batch)
  {
    if StopsJob(job, after, i) {
      hide UniqueStepIds, BatchDone;
      var k := StopsOnlyInBatch(exec, job, st, batch, s, i);
    }
  }

  // Where a step of the batch stands in it
  lemma PlaceInBatch(job: Job, batch: seq<Step>, i: nat) returns (k: nat)
    requires UniqueStepIds(job.steps) && forall q :: 0 <= q < |batch| ==> batch[q] in job.steps
    requires i < |job.steps| && job.steps[i].id in BatchIds(batch)
    ensures k < |batch| && batch[k] == job.steps[i]
  {
    hide UniqueStepIds;
    k :| 0 <= k < |batch| && batch[k].id == job.steps[i].id;
    SameIdSameStep(job, batch[k], job.steps[i]);
  }

  lemma StopStartsInOrder(
    exec: Executor, job: Job, st: RunState, batch: seq<Step>, s: BatchState, after: Logs, i: nat, m: nat)
    requires UniqueStepIds(job.steps) && NothingStops(job, st.logs) && Ordered(batch)
    requires BatchDone(exec, job, batch, st.context, st.logs, s, None) && OnlyCancels(s.logs, after)
    requires StopLogs(st.logs, batch, s, after)
    requires forall q :: 0 <= q < |batch| ==> batch[q] in job.steps
    requires i < |job.steps| && m < |job.steps| && job.steps[i].order < job.steps[m].order
    requires job.steps[i].id in BatchIds(batch) && job.steps[m].id in BatchIds(batch)
    ensures StartsInOrder(job, after, i, m)
  {
    assert BatchStop(job, batch, s);
    hide BatchDone, UniqueStepIds, BatchIds, NothingStops;
    var a := PlaceInBatch(job, batch, i);
    var b := PlaceInBatch(job, batch, m);
    assert a < b;
    hide Ordered;
    assert s.results[b].Some? ==> s.results[a].Some?;
    if job.maxConcurrency == 1 && StopsJob(job, after, i) {
      StopsInBatch(exec, job, st, batch, s, i, a);
      OneAtATimeStops(job, batch, s, a, b);
    }
  }

  // A step that can never start is blocked or waits when a batch is stopped
  lemma StopLeavesLacking(
    exec: Executor, job: Job, opts: Options, st: RunState, batch: seq<Step>, s: BatchState, after: Logs, x: Id)
    requires WellFormed(job) && Inv(exec, job, opts, st) && StopLogs(st.logs, batch, s, after)
    requires x in ToRun(job, opts) && x in st.logs && x !in Startable(job, opts) && x !in BatchIds(batch)
    ensures after[x].Blocked? || after[x].Cancelled?
  {
    SelectedLog(exec, job, opts, st, x);
    InvParts(exec, job, opts, st);
    hide Inv, BatchIds, Justified, ToRun, Startable, Mirrored, Listed, NoneDropped;
    var i := SelectedStep(exec, job, opts, st.logs, x);
    LackingNeverStarts(exec, job, opts, st.logs, i);
  }

  // A stopped batch and the cancelling after it leave a stopped run
  lemma StopIsStopped(
    exec: Executor, job: Job, opts: Options, st: RunState, batch: seq<Step>, s: BatchState, after: Logs,
    failure: Option<Problem>, batches: seq<set<Id>>)
    requires WellFormed(job) && Inv(exec, job, opts, st) && NoneBlocked(st) && Prepared(job, st, batch)
    requires BatchDone(exec, job, batch, st.context, st.logs, s, None) && s.stop.Some? && s.stop.value.Failure?
    requires Tracked(job, opts, st.logs, failure, batches)
    requires OnlyCancels(s.logs, after) && forall x :: x in after ==> !after[x].Pending?
    ensures Stopped(job, opts, after, batches + [BatchIds(batch)], s.stop.value.error)
  {
    hide *;
    var all := batches + [BatchIds(batch)];
    TrackedParts(job, opts, st.logs, failure, batches);
    BatchReady(exec, job, opts, st, batch);
    PreparedOrdered(job, st, batch);
    BatchIsLevel(exec, job, opts, st, batch, |batches|);
    StopLogsAre(exec, job, st, batch, s, after);
    StopRounds(exec, job, opts, st, batch, s, after, batches);
    StopLastInOrder(exec, job, st, batch, s, after, batches);
    StopFailures(exec, job, st, batch, s, after);
    StoppedParts(job, opts, after, all, s.stop.value.error);
  }

  lemma StoppedParts(job: Job, opts: Options, logs: Logs, batches: seq<set<Id>>, error: Error)
    requires batches != []
    requires exists i: nat :: StopsJob(job, logs, i) && logs[job.steps[i].id] == Failed(error)
    requires forall i: nat :: StopsJob(job, logs, i) ==> job.steps[i].id in batches[|batches| - 1]
    requires StoppedRounds(job, opts, logs, batches) && LastInOrder(job, logs, batches)
    ensures Stopped(job, opts, logs, batches, error)
  {
    hide StoppedRounds, LastInOrder;
  }

  lemma TrackedParts(job: Job, opts: Options, logs: Logs, failure: Option<Problem>, batches: seq<set<Id>>)
    requires Tracked(job, opts, logs, failure, batches)
    ensures NothingStops(job, logs) && Staged(CoreGraph(job, opts), logs, batches)
    ensures Decided(CoreGraph(job, opts), logs, |batches|)
  {
    hide FailureKnown, NothingStops, FailureSpeaks, Decided, StartedIn, CoreGraph;
  }

  lemma PreparedOrdered(job: Job, st: RunState, batch: seq<Step>)
    requires Prepared(job, st, batch)
    ensures Ordered(batch)
  {
  }

  // The failures that stop the job are in the stopped batch, and the stop reason is one of them
  lemma StopFailures(
    exec: Executor, job: Job, st: RunState, batch: seq<Step>, s: BatchState, after: Logs)
    requires UniqueStepIds(job.steps) && NothingStops(job, st.logs)
    requires BatchDone(exec, job, batch, st.context, st.logs, s, None) && s.stop.Some? && s.stop.value.Failure?
    requires OnlyCancels(s.logs, after) && forall q :: 0 <= q < |batch| ==> batch[q] in job.steps
    ensures exists i: nat :: StopsJob(job, after, i) && after[job.steps[i].id] == Failed(s.stop.value.error)
    ensures forall i: nat :: StopsJob(job, after, i) ==> job.steps[i].id in BatchIds(batch)
  {
    hide BatchDone, UniqueStepIds, NothingStops, BatchIds;
    var first := StoppedByFailure(exec, job, st, batch, s);
    StopsAfterStop(exec, job, st, batch, s, after, first);
    forall i: nat ensures StopsJob(job, after, i) ==> job.steps[i].id in BatchIds(batch) {
      StopsAfterStop(exec, job, st, batch, s, after, i);
    }
  }

  lemma StopLastInOrder(
    exec: Executor, job: Job, st: RunState, batch: seq<Step>, s: BatchState, after: Logs, batches: seq<set<Id>>)
    requires UniqueStepIds(job.steps) && NothingStops(job, st.logs) && Ordered(batch)
    requires BatchDone(exec, job, batch, st.context, st.logs, s, None) && OnlyCancels(s.logs, after)
    requires StopLogs(st.logs, batch, s, after)
    requires forall q :: 0 <= q < |batch| ==> batch[q] in job.steps
    ensures LastInOrder(job, after, batches + [BatchIds(batch)])
  {
    var all := batches + [BatchIds(batch)];
    hide UniqueStepIds, NothingStops, Ordered, BatchDone, OnlyCancels, StopLogs, BatchIds, StartsInOrder;
    forall i: nat, m: nat | InLast(job, all, i) && InLast(job, all, m) && job.steps[i].order < job.steps[m].order
      ensures StartsInOrder(job, after, i, m)
    {
      StopStartsInOrder(exec, job, st, batch, s, after, i, m);
    }
  }

  lemma StopRounds(
    exec: Executor, job: Job, opts: Options, st: RunState, batch: seq<Step>, s: BatchState, after: Logs,
    batches: seq<set<Id>>)
    requires WellFormed(job) && Inv(exec, job, opts, st) && Staged(CoreGraph(job, opts), st.logs, batches)
    requires Decided(CoreGraph(job, opts), st.logs, |batches|)
    requires StopLogs(st.logs, batch, s, after) && BatchIds(batch) == StartedIn(CoreGraph(job, opts), st.logs, |batches|)
    ensures StoppedRounds(job, opts, after, batches + [BatchIds(batch)])
  {
    var g, n, all := CoreGraph(job, opts), |batches|, batches + [BatchIds(batch)];
    hide WellFormed, Inv, Staged, Decided, StopLogs, BatchIds, ToRun, CoreGraph, Below, StartedIn;
    StopKeepsRounds(g, st.logs, batch, s, after, batches);
    forall x, k | 0 <= k < |all| && x in all[k] ensures x in after && (Final(after[x]) || (k == n && after[x].Cancelled?)) {
      if k < n {
        assert all[k] == batches[k];
        StartedIsBelow(g, after, x, k, n);
        StopEarlierEnded(exec, job, opts, st, x, n);
      } else {
        StopLast(st.logs, batch, s, after, x);
      }
    }
    forall x | x in after && x in ToRun(job, opts) && x !in Below(g, n + 1) ensures after[x].Blocked? || after[x].Cancelled? {
      StopNotStarted(exec, job, opts, st, batch, s, after, n, x);
    }
  }

  lemma StopNotStarted(
    exec: Executor, job: Job, opts: Options, st: RunState, batch: seq<Step>, s: BatchState, after: Logs, n: nat, x: Id)
    requires WellFormed(job) && Inv(exec, job, opts, st) && Decided(CoreGraph(job, opts), st.logs, n)
    requires StopLogs(st.logs, batch, s, after) && BatchIds(batch) == StartedIn(CoreGraph(job, opts), st.logs, n)
    requires x in after && x in ToRun(job, opts) && x !in Below(CoreGraph(job, opts), n + 1)
    ensures after[x].Blocked? || after[x].Cancelled?
  {
    hide *;
    var g := CoreGraph(job, opts);
    NotBelowNotStarted(g, st.logs, n, x);
    CoreNodes(job, opts);
    StopElsewhere(st.logs, batch, s, after, x);
    if x !in g {
      StopLeavesLacking(exec, job, opts, st, batch, s, after, x);
    } else {
      NotBelowWaits(g, st.logs, n, x);
    }
  }

  lemma NotBelowNotStarted(g: Graph, logs: Logs, n: nat, x: Id)
    requires x !in Below(g, n + 1)
    ensures x !in StartedIn(g, logs, n)
  {
  }

  lemma NotBelowWaits(g: Graph, logs: Logs, n: nat, x: Id)
    requires Decided(g, logs, n) && x in g && x !in Below(g, n + 1)
    ensures x in logs && (logs[x].Pending? || logs[x].Blocked?)
  {
    BelowGrows(g, n, n + 1);
    hide Below;
  }

  lemma StopElsewhere(logs: Logs, batch: seq<Step>, s: BatchState, after: Logs, x: Id)
    requires StopLogs(logs, batch, s, after) && x in after && x !in BatchIds(batch)
    ensures x in logs && after[x] == if logs[x].Pending? then Cancelled else logs[x]
  {
    hide BatchIds;
  }

  lemma StartedIsBelow(g: Graph, logs: Logs, x: Id, k: nat, n: nat)
    requires x in StartedIn(g, logs, k) && k < n
    ensures x in Below(g, n)
  {
    BelowGrows(g, k + 1, n);
    hide Below;
  }

  lemma StopEarlierEnded(exec: Executor, job: Job, opts: Options, st: RunState, x: Id, n: nat)
    requires WellFormed(job) && Inv(exec, job, opts, st) && Decided(CoreGraph(job, opts), st.logs, n)
    requires x in Below(CoreGraph(job, opts), n)
    ensures x in st.logs && Final(st.logs[x])
  {
    CoreNodes(job, opts);
    hide WellFormed, Inv, CoreGraph;
    assert x in Startable(job, opts);
    SelectedLog(exec, job, opts, st, x);
  }

  lemma StopLast(logs: Logs, batch: seq<Step>, s: BatchState, after: Logs, x: Id)
    requires StopLogs(logs, batch, s, after) && x in BatchIds(batch)
    ensures x in after && (Final(after[x]) || after[x].Cancelled?)
  {
    var k :| 0 <= k < |batch| && batch[k].id == x;
    assert s.results[k].Some? || s.results[k].None?;
  }

  lemma CancelledNoneDropped(job: Job, before: RunState, st: RunState)
    requires NoneDropped(job, before) && OnlyCancels(before.logs, st.logs)
    requires forall s :: s in before.pending ==> s.id in st.logs && st.logs[s.id].Cancelled?
    ensures NoneDropped(job, st)
  {
    forall i | 0 <= i < |job.steps| ensures job.steps[i].id in st.logs && !st.logs[job.steps[i].id].Pending? {
      assert before.logs[job.steps[i].id].Pending? ==> job.steps[i] in before.pending;
    }
  }

  lemma CancelledNoneRunning(before: RunState, st: RunState)
    requires Mirrored(before) && OnlyCancels(before.logs, st.logs)
    ensures NoneRunning(st.logs) && NoneInterrupted(st.logs)
  {
  }

  lemma CancelledNothingPending(exec: Executor, job: Job, opts: Options, before: RunState, after: Logs)
    requires Inv(exec, job, opts, before) && OnlyCancels(before.logs, after)
    requires forall s :: s in before.pending ==> s.id in after && after[s.id].Cancelled?
    ensures after.Keys == before.logs.Keys && forall x :: x in after ==> !after[x].Pending?
  {
    assert Covers(job, before.logs);
    hide Explained, Mirrored;
    forall x | x in after ensures !after[x].Pending? {
      var i :| 0 <= i < |job.steps| && job.steps[i].id == x;
      assert before.logs[x].Pending? ==> job.steps[i] in before.pending;
    }
  }

  lemma CancelledLeaves(
    exec: Executor, job: Job, opts: Options, before: RunState, st: RunState, problem: Problem, signal: Signal,
    batches: seq<set<Id>>)
    requires Inv(exec, job, opts, before) && problem.Failure?
    requires Stopped(job, opts, st.logs, batches, problem.error)
    requires st.pending == [] && OnlyCancels(before.logs, st.logs)
    requires forall s :: s in before.pending ==> s.id in st.logs && st.logs[s.id].Cancelled?
    ensures Leaving(exec, job, opts, st, problem, signal, batches)
  {
    hide Justified, Inv, Stopped, NoneDropped, NoneRunning, NoneInterrupted, OnlyCancels;
    InvParts(exec, job, opts, before);
    CancelledNoneRunning(before, st);
    hide Mirrored;
    CancelsJustified(exec, job, opts, before.logs, st.logs);
    CancelledNoneDropped(job, before, st);
  }

  lemma BatchIsValid(job: Job, batch: seq<Step>)
    requires WellFormed(job) && forall i :: 0 <= i < |batch| ==> batch[i] in job.steps
    ensures forall i :: 0 <= i < |batch| ==> ValidFanOut(batch[i])
  {
    forall i | 0 <= i < |batch| ensures ValidFanOut(batch[i]) {
      var k :| 0 <= k < |job.steps| && job.steps[k] == batch[i];
    }
  }

  lemma BatchShape(
    exec: Executor, job: Job, opts: Options, st: RunState, batch: seq<Step>, s: BatchState, signal: Signal)
    requires Listed(job, st) && Prepared(job, st, batch) && batch != []
    requires BatchDone(exec, job, batch, st.context, st.logs, s, signal)
    ensures |s.results| == |batch| && s.logs.Keys == st.logs.Keys
    ensures exists i :: 0 <= i < |batch| && s.results[i].Some?
    ensures forall i :: 0 <= i < |batch| ==> batch[i] in st.pending && batch[i].id in s.logs
  {
    hide StepSettled, Visible, BatchStop;
    forall i | 0 <= i < |batch| ensures batch[i] in st.pending {
      assert batch[i] in batch;
    }
  }

  lemma AbortLeaves(
    exec: Executor, job: Job, opts: Options, before: RunState, batch: seq<Step>, s: BatchState, signal: Signal, st: RunState,
    batches: seq<set<Id>>)
    requires UniqueStepIds(job.steps) && Inv(exec, job, opts, before) && Prepared(job, before, batch) && signal.Some?
    requires BatchDone(exec, job, batch, before.context, before.logs, s, signal)
    requires st.logs == s.logs && Kept(batch, s.results, |batch|, before.pending, st.pending)
    ensures Leaving(exec, job, opts, st, Abort(signal.value), signal, batches + [BatchIds(batch)])
  {
    InvParts(exec, job, opts, before);
    PreparedBatch(job, before, batch);
    hide Inv, Justified, Listed, Prepared, UniqueStepIds, BatchIds;
    AbortInterrupts(exec, job, before, batch, s, signal);
    AbortDrops(exec, job, before, batch, s, signal, st, batches);
    hide Mirrored, NoneDropped, BatchDone, Kept, NoneRunning, Interrupts, DroppedFrom;
    BatchJustified(exec, job, opts, before, batch, s, signal);
    ListedLast(exec, job, before, batch, s, signal, st);
    BatchNoneRunning(exec, job, before, batch, s, signal);
  }

  lemma AbortInterrupts(
    exec: Executor, job: Job, before: RunState, batch: seq<Step>, s: BatchState, signal: Signal)
    requires Mirrored(before) && BatchDone(exec, job, batch, before.context, before.logs, s, signal)
    ensures Interrupts(s.logs, signal)
  {
    hide Ran, Visible, BatchStop;
    forall x | x in s.logs && s.logs[x].Interrupted? ensures signal == Some(ServerInterrupted) {
      if i :| 0 <= i < |batch| && batch[i].id == x {
      }
    }
  }

  lemma AbortDrops(
    exec: Executor, job: Job, before: RunState, batch: seq<Step>, s: BatchState, signal: Signal, st: RunState,
    batches: seq<set<Id>>)
    requires NoneDropped(job, before) && BatchDone(exec, job, batch, before.context, before.logs, s, signal)
    requires forall k :: 0 <= k < |batch| ==> batch[k].id in before.logs && before.logs[batch[k].id].Pending?
    requires st.logs == s.logs && Kept(batch, s.results, |batch|, before.pending, st.pending)
    ensures DroppedFrom(job, st, batches + [BatchIds(batch)])
  {
    BatchGrows(exec, job, before, batch, s, signal);
    hide BatchDone;
    forall i | 0 <= i < |job.steps| && job.steps[i].id in st.logs && st.logs[job.steps[i].id].Pending?
      ensures job.steps[i] in st.pending || job.steps[i].id in BatchIds(batch)
    {
      assert before.logs[job.steps[i].id].Pending?;
    }
  }

  method RunBatch(
    exec: Executor, job: Job, ghost opts: Options, batch: seq<Step>, st0: RunState, failure0: Option<Problem>,
    before: Signal, ghost batches0: seq<set<Id>>)
    returns (st: RunState, failure: Option<Problem>, turn: Turn, signal: Signal, ghost batches: seq<set<Id>>)
    requires WellFormed(job) && Inv(exec, job, opts, st0) && NoneBlocked(st0)
    requires Prepared(job, st0, batch) && batch != []
    requires Tracked(job, opts, st0.logs, failure0, batches0)
    ensures Later(before, signal)
    ensures turn.Again? || turn.Drained? ==> Inv(exec, job, opts, st) && Tracked(job, opts, st.logs, failure, batches)
    ensures turn.Again? ==> st.pending != [] && |st.pending| < |st0.pending|
    ensures turn.Drained? ==> st.pending == []
    ensures !turn.Stuck? && (turn.Drained? ==> signal.None?)
    ensures turn.Thrown? ==> Leaving(exec, job, opts, st, turn.problem, signal, batches)
  {
    BatchReady(exec, job, opts, st0, batch);
    hide *;
    var s: BatchState;
    ghost var pool;
    s, signal, pool := RunStepsWithConcurrency(exec, job, batch, st0.context, st0.logs, before);
    BatchShape(exec, job, opts, st0, batch, s, signal);
    MirroredFirst(exec, job, st0, batch, s, signal);
    if signal.None? {
      CleanResults(exec, job, st0, batch, s);
    }
    st, failure := Commit(batch, s.results, st0.(logs := s.logs), failure0, signal.None?);
    CommittedFacts(batch, s.results, st0.(logs := s.logs), failure0, signal.None?, st, failure);
    batches := batches0 + [BatchIds(batch)];
    if signal.Some? {
      AbortLeaves(exec, job, opts, st0, batch, s, signal, st, batches0);
      turn := Thrown(Abort(signal.value));
      return;
    }
    BatchKeepsInv(exec, job, opts, st0, batch, s, st);
    if s.stop.Some? {
      var first := StoppedByFailure(exec, job, st0, batch, s);
      InvParts(exec, job, opts, st);
      ghost var stopped := st;
      st, signal := CancelPending(job, st, signal);
      CancelledNothingPending(exec, job, opts, stopped, st.logs);
      StopIsStopped(exec, job, opts, st0, batch, s, st.logs, failure0, batches0);
      CancelledLeaves(exec, job, opts, stopped, st, s.stop.value, signal, batches);
      turn := Thrown(s.stop.value);
      return;
    }
    TrackedNext(exec, job, opts, st0, batch, s, failure0, failure, batches0);
    turn := if st.pending == [] then Drained else Again;
  }

  lemma BatchReady(exec: Executor, job: Job, opts: Options, st: RunState, batch: seq<Step>)
    requires WellFormed(job) && Inv(exec, job, opts, st) && Prepared(job, st, batch)
    ensures UniqueStepIds(job.steps) && job.maxConcurrency >= 1
    ensures DistinctSteps(batch) && Ordered(st.pending) && Listed(job, st) && Mirrored(st)
    ensures forall i :: 0 <= i < |batch| ==> ValidFanOut(batch[i]) && batch[i] in job.steps
    ensures forall i :: 0 <= i < |batch| ==> batch[i].id in st.logs && st.logs[batch[i].id].Pending?
  {
    PreparedBatch(job, st, batch);
    BatchIsValid(job, batch);
  }

  lemma CommittedFacts(
    batch: seq<Step>, results: seq<Option<StepResult>>, st0: RunState, failure0: Option<Problem>, clean: bool,
    st: RunState, failure: Option<Problem>)
    requires |batch| == |results| && Committing(batch, results, |batch|, st0, failure0, clean, st, failure)
    ensures st.logs == st0.logs && Kept(batch, results, |batch|, st0.pending, st.pending)
    ensures |st.pending| < |st0.pending| || forall i :: 0 <= i < |batch| ==> results[i].None?
    ensures clean ==> MirroredUpTo(batch, |batch|, st)
    ensures FirstRejection(results, |batch|, failure0, failure)
  {
  }

  // One pass of the main loop; only a stuck pass, an abort or a stop leaves it early
  method Round(
    exec: Executor, job: Job, ghost opts: Options, st0: RunState, failure0: Option<Problem>,
    before: Signal, ghost batches0: seq<set<Id>>)
    returns (st: RunState, failure: Option<Problem>, turn: Turn, signal: Signal, ghost batches: seq<set<Id>>)
    requires WellFormed(job) && Inv(exec, job, opts, st0) && st0.pending != []
    requires Tracked(job, opts, st0.logs, failure0, batches0)
    ensures Later(before, signal)
    ensures !turn.Thrown? ==> Inv(exec, job, opts, st) && Tracked(job, opts, st.logs, failure, batches)
    ensures turn.Again? ==> st.pending != [] && |st.pending| < |st0.pending|
    ensures turn.Drained? ==> st.pending == []
    ensures turn.Stuck? ==> IsStuck(st)
    ensures turn.Drained? && failure.None? ==> signal.None?
    ensures turn.Thrown? ==> Leaving(exec, job, opts, st, turn.problem, signal, batches)
  {
    assert UniqueStepIds(job.steps);
    st, failure, signal, batches := st0, failure0, before, batches0;
    if signal.Some? {
      InvLeaves(exec, job, opts, st, signal.value, batches);
      return st, failure, Thrown(Abort(signal.value)), signal, batches;
    }
    hide *;
    st, signal := SkipDependencyBlocked(exec, job, opts, st, signal);
    TrackedBlocks(job, opts, st0, st, failure, batches);
    if st.pending == [] {
      DrainedByFailure(exec, job, opts, st0, st, failure);
      return st, failure, Drained, signal, batches;
    }
    var runnable := Runnable(st.pending, st.successful);
    RunnableIsPrepared(exec, job, opts, st);
    if runnable == [] {
      return st, failure, Stuck, signal, batches;
    }
    SkippedShrinks(st0, st);
    st, failure, turn, signal, batches := RunBatch(exec, job, opts, runnable, st, failure, signal, batches);
  }

  lemma SkippedShrinks(st: RunState, after: RunState)
    requires OnlyBlocks(st, after)
    ensures |after.pending| <= |st.pending|
  {
  }

  lemma InvLeaves(exec: Executor, job: Job, opts: Options, st: RunState, code: AbortCode, batches: seq<set<Id>>)
    requires Inv(exec, job, opts, st)
    ensures Leaving(exec, job, opts, st, Abort(code), Some(code), batches)
  {
    hide Justified;
  }

  // Only a failure makes the skipping empty the list
  lemma DrainedByFailure(exec: Executor, job: Job, opts: Options, before: RunState, st: RunState, failure: Option<Problem>)
    requires WellFormed(job) && Inv(exec, job, opts, before) && Inv(exec, job, opts, st)
    requires before.pending != [] && st.pending == [] && OnlyBlocks(before, st) && FailureKnown(st.logs, failure)
    ensures failure.Some?
  {
    var x := before.pending[0].id;
    ListedStep(job, before, before.pending[0]);
    InvParts(exec, job, opts, st);
    DrainedEntry(job, before, st);
    hide Inv, Listed, NoneDropped, Mirrored, WellFormed, Justified, Selected;
    var i := SelectedStep(exec, job, opts, st.logs, x);
    SelectedGraph(job, opts);
    EveryNodeHasDepth(Selected(job, opts), 0);
    var n: nat :| Below(Selected(job, opts), n) == Selected(job, opts).Keys;
    var f := BlockedHasFailedAncestor(exec, job, opts, st.logs, x, n);
  }

  lemma DrainedEntry(job: Job, before: RunState, st: RunState)
    requires Listed(job, before) && NoneDropped(job, st) && OnlyBlocks(before, st)
    requires before.pending != [] && st.pending == []
    ensures before.pending[0].id in st.logs && st.logs[before.pending[0].id].Blocked?
  {
    assert before.pending[0] in job.steps;
    var i :| 0 <= i < |job.steps| && job.steps[i] == before.pending[0];
  }

  lemma RunnableIsPrepared(exec: Executor, job: Job, opts: Options, st: RunState)
    requires Inv(exec, job, opts, st)
    ensures Prepared(job, st, Runnable(st.pending, st.successful))
    ensures Runnable(st.pending, st.successful) == [] ==>
      forall s :: s in st.pending ==> !IsRunnable(s, st.successful)
  {
    hide Justified, Mirrored, NoneDropped, Runnable;
    RunnableIsFilter(st.pending, st.successful);
  }
}
