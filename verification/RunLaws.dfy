/**
 * Laws that relate several runs, or a run and the execution plan (getExecutionPlan in
 * src/services/JobService.ts).
 */
module RunLaws {
  import opened Wrappers
  import opened Graph
  import opened JobGraph
  import opened Levels
  import opened Jobs
  import opened Validator
  import opened RunSpec
  import opened Rounds
  import opened RunState
  import opened StepTask
  import opened Runner
  import opened Runs

  // ----- MAX_CONCURRENCY does not matter -----

  function WithConcurrency(job: Job, n: nat): Job {
    job.(maxConcurrency := n)
  }

  lemma ConcurrencyKeepsStepEnds(exec: Executor, job: Job, n: nat, step: Step, ctx: Context, r: Outcome)
    requires StepEnds(exec, WithConcurrency(job, n), step, ctx, r)
    ensures StepEnds(exec, job, step, ctx, r)
  {
    var other := WithConcurrency(job, n);
    forall target ensures Attempts(exec, job, step, ctx, target) == Attempts(exec, other, step, ctx, target) {
    }
    hide Attempts;
  }

  lemma ConcurrencyKeepsExplained(exec: Executor, job: Job, n: nat, logs: Logs, step: Step)
    requires step.id in logs && Explained(exec, WithConcurrency(job, n), logs, step)
    ensures Explained(exec, job, logs, step)
  {
    hide StepEnds, AllSatisfied, SomeUnsatisfied;
    var log, ctx := logs[step.id], Inputs(step, logs);
    if log.Success? && exec.guard(step, ctx).Proceed? {
      ConcurrencyKeepsStepEnds(exec, job, n, step, ctx, Done(log.output));
    }
    if log.Failed? && exec.guard(step, ctx).Proceed? {
      ConcurrencyKeepsStepEnds(exec, job, n, step, ctx, Crash(log.error));
    }
  }

  lemma ConcurrencyKeepsExhausted(exec: Executor, job: Job, n: nat, opts: Options, logs: Logs)
    requires Exhausted(exec, WithConcurrency(job, n), opts, logs)
    ensures Exhausted(exec, job, opts, logs)
  {
    assert Covers(job, logs);
    hide Explained, IsOver;
    forall i | 0 <= i < |job.steps|
      ensures Explained(exec, job, logs, job.steps[i])
      ensures InitialLog(opts, job.steps[i].id).Pending? ==> IsOver(job.steps[i], logs)
    {
      assert Explained(exec, WithConcurrency(job, n), logs, WithConcurrency(job, n).steps[i]);
      assert job.steps[i] == WithConcurrency(job, n).steps[i];
      ConcurrencyKeepsExplained(exec, job, n, logs, job.steps[i]);
    }
  }

  lemma RoundsEnd(job: Job, opts: Options, logs: Logs, batches: seq<set<Id>>, k: nat)
    requires RunsInRounds(job, opts, logs, batches)
    ensures StartedIn(CoreGraph(job, opts), logs, k) == {} <==> k >= |batches|
    ensures k < |batches| ==> StartedIn(CoreGraph(job, opts), logs, k) == batches[k]
  {
    hide StartedIn, CoreGraph;
  }

  lemma SameRounds(job: Job, opts: Options, logs: Logs, batches: seq<set<Id>>, others: seq<set<Id>>)
    requires RunsInRounds(job, opts, logs, batches) && RunsInRounds(job, opts, logs, others)
    ensures batches == others
  {
    hide *;
    RoundsEnd(job, opts, logs, batches, |batches|);
    RoundsEnd(job, opts, logs, batches, |others|);
    RoundsEnd(job, opts, logs, others, |batches|);
    RoundsEnd(job, opts, logs, others, |others|);
    forall k | 0 <= k < |batches| ensures batches[k] == others[k] {
      RoundsEnd(job, opts, logs, batches, k);
      RoundsEnd(job, opts, logs, others, k);
    }
  }

  // Whatever the interleaving and the concurrency, two runs that are left alone and that no failure stops agree on
  // everything: how they end, each step's log and each batch. Getting stuck is no exception.
  lemma ScheduleIndependence(
    exec: Executor, job: Job, n: nat, opts: Options,
    end: End, logs: Logs, batches: seq<set<Id>>, otherEnd: End, otherLogs: Logs, otherBatches: seq<set<Id>>)
    requires WellFormed(job)
    requires RunsToTheEnd(exec, job, opts, end, logs, batches)
    requires RunsToTheEnd(exec, WithConcurrency(job, n), opts, otherEnd, otherLogs, otherBatches)
    ensures logs == otherLogs && end == otherEnd && batches == otherBatches
  {
    ConcurrencyKeepsExhausted(exec, job, n, opts, otherLogs);
    ExhaustedLogsUnique(exec, job, opts, logs, otherLogs);
    SameSelection(job, n, opts, logs, otherBatches);
    assert UniqueOrders(job.steps);
    hide WellFormed, Exhausted, RunsInRounds, CoreGraph, NoneCancelled, UniqueOrders;
    SameRounds(job, opts, logs, batches, otherBatches);
    if end.EndedBy? && otherEnd.EndedBy? {
      var g := CoreGraph(job, opts);
      SameRepresentative(job, n, g, logs, otherEnd.problem.error);
      hide RepresentativeFailure;
      RepresentativeIsUnique(job, g, logs, end.problem.error, otherEnd.problem.error);
    }
  }

  lemma SameSelection(job: Job, n: nat, opts: Options, logs: Logs, batches: seq<set<Id>>)
    ensures CoreGraph(WithConcurrency(job, n), opts) == CoreGraph(job, opts)
    ensures RunsInRounds(WithConcurrency(job, n), opts, logs, batches) ==> RunsInRounds(job, opts, logs, batches)
  {
    var other := WithConcurrency(job, n);
    assert Startable(other, opts) == Startable(job, opts) by {
      assert ToRun(other, opts) == ToRun(job, opts);
      forall x ensures Lacking(other, opts, x) <==> Lacking(job, opts, x) {
        SameLacking(job, n, opts, x);
      }
      hide ToRun, Lacking;
    }
    assert Dependencies(other.steps) == Dependencies(job.steps);
    hide StartedIn, Startable, Dependencies, Among;
  }

  lemma SameLacking(job: Job, n: nat, opts: Options, x: Id)
    ensures Lacking(WithConcurrency(job, n), opts, x) <==> Lacking(job, opts, x)
  {
    var other := WithConcurrency(job, n);
    assert other.steps == job.steps;
    assert Selected(other, opts) == Selected(job, opts);
    forall y ensures NeedsOutside(other, opts, y) <==> NeedsOutside(job, opts, y) {
    }
    hide Selected, NeedsOutside, Reach;
  }

  lemma SameRepresentative(job: Job, n: nat, g: Graph, logs: Logs, error: Error)
    requires RepresentativeFailure(WithConcurrency(job, n), g, logs, error)
    ensures RepresentativeFailure(job, g, logs, error)
  {
    var other := WithConcurrency(job, n);
    hide NoLater;
    var i :| 0 <= i < |other.steps| && Speaks(other, g, logs, error, i);
    assert Speaks(job, g, logs, error, i);
  }

  // ----- What a failure policy cuts short -----

  function Unflagged(step: Step): Step {
    step.(failJobOnFailure := false)
  }

  // The job with neither a failure policy nor FAIL_JOB_ON_FAILURE: its failures stop nothing
  function Lenient(job: Job): Job {
    job.(failurePolicy := ContinueIndependent, steps := seq(|job.steps|, i requires 0 <= i < |job.steps| => Unflagged(job.steps[i])))
  }

  lemma LenientIsIndependent(job: Job)
    ensures Independent(Lenient(job))
  {
  }

  lemma IndependentNeverStops(job: Job, logs: Logs)
    requires Independent(job)
    ensures NothingStops(job, logs)
  {
  }

  lemma LenientDependencies(job: Job)
    ensures Dependencies(Lenient(job).steps) == Dependencies(job.steps)
  {
    assert Nodes(Lenient(job).steps) == Nodes(job.steps);
  }

  lemma LenientIsWellFormed(job: Job)
    requires WellFormed(job)
    ensures WellFormed(Lenient(job))
  {
    var other := Lenient(job);
    LenientDependencies(job);
    hide Dependencies, Cyclic, IsValidPath;
    forall i | 0 <= i < |other.steps|
      ensures GoodDependencies(other.steps, other.steps[i]) && GoodReferences(other.steps[i])
    {
      assert GoodDependencies(job.steps, job.steps[i]) && GoodReferences(job.steps[i]);
      forall x { LenientSteps(job, x); }
      assert References(other.steps[i]) == References(job.steps[i]);
    }
  }

  // The run a cut short one is compared with: nobody aborts it, and it goes on whatever fails
  method RunInFull(exec: Executor, job: Job, opts: Options)
    returns (end: End, logs: Logs, signal: Signal, ghost batches: seq<set<Id>>)
    requires WellFormed(job)
    ensures signal.None? ==> RunsToTheEnd(exec, Lenient(job), opts, end, logs, batches)
    ensures signal.None? ==> Exhausted(exec, Lenient(job), opts, logs) && (end.Unresolved? <==> !NoneCancelled(logs))
  {
    LenientIsWellFormed(job);
    LenientIsIndependent(job);
    hide WellFormed, Exhausted, RunsInRounds, RepresentativeFailure, NoneCancelled, Ends, Lenient, NothingStops, Leftovers;
    end, logs, signal, batches := Run(exec, Lenient(job), opts, None);
    IndependentNeverStops(Lenient(job), logs);
  }

  // Conditions, lists and executors do not look at the flag
  ghost predicate IgnoresFlag(exec: Executor) {
    && (forall step, ctx :: exec.guard(Unflagged(step), ctx) == exec.guard(step, ctx))
    && (forall step, ctx :: exec.items(Unflagged(step), ctx) == exec.items(step, ctx))
    && (forall step, ctx, target, n :: exec.attempt(Unflagged(step), ctx, target, n) == exec.attempt(step, ctx, target, n))
  }

  lemma {:induction false} UnflaggedRetries(exec: Executor, step: Step, ctx: Context, target: Target, max: nat, n: nat, last: Error)
    requires IgnoresFlag(exec)
    ensures RetryFrom(exec, Unflagged(step), ctx, target, max, n, last) == RetryFrom(exec, step, ctx, target, max, n, last)
    decreases max + 1 - n
  {
    if n <= max {
      var outcome := exec.attempt(Unflagged(step), ctx, target, n);
      assert outcome == exec.attempt(step, ctx, target, n);
      if outcome.Crash? {
        UnflaggedRetries(exec, step, ctx, target, max, n + 1, outcome.error);
      }
    }
  }

  lemma UnflaggedStepEnds(exec: Executor, job: Job, step: Step, ctx: Context, r: Outcome)
    requires IgnoresFlag(exec) && StepEnds(exec, Lenient(job), Unflagged(step), ctx, r)
    ensures StepEnds(exec, job, step, ctx, r)
  {
    forall target ensures Attempts(exec, Lenient(job), Unflagged(step), ctx, target) == Attempts(exec, job, step, ctx, target) {
      UnflaggedRetries(exec, step, ctx, target, ResolveRetry(job.defaultRetry, step.retry).maxAttempts, 1, NO_ERROR);
    }
    assert exec.items(Unflagged(step), ctx) == exec.items(step, ctx);
    hide Attempts, IgnoresFlag, Lenient;
  }

  lemma UnflaggedRan(exec: Executor, job: Job, step: Step, ctx: Context, log: StepLog)
    requires IgnoresFlag(exec) && Ran(exec, Lenient(job), Unflagged(step), ctx, log)
    ensures Ran(exec, job, step, ctx, log)
  {
    assert exec.guard(Unflagged(step), ctx) == exec.guard(step, ctx);
    hide IgnoresFlag, StepEnds, Lenient;
    if exec.guard(step, ctx).Proceed? {
      if log.Success? {
        UnflaggedStepEnds(exec, job, step, ctx, Done(log.output));
      } else {
        UnflaggedStepEnds(exec, job, step, ctx, Crash(log.error));
      }
    }
  }

  lemma UnflaggedInputs(step: Step, logs: Logs)
    ensures Inputs(Unflagged(step), logs) == Inputs(step, logs)
    ensures AllSatisfied(Unflagged(step), logs) <==> AllSatisfied(step, logs)
    ensures SomeUnsatisfied(Unflagged(step), logs) <==> SomeUnsatisfied(step, logs)
  {
    assert Unflagged(step).dependsOn == step.dependsOn;
  }

  lemma UnflaggedExplained(exec: Executor, job: Job, logs: Logs, step: Step)
    requires IgnoresFlag(exec) && step.id in logs && Explained(exec, Lenient(job), logs, Unflagged(step))
    ensures Explained(exec, job, logs, step)
  {
    UnflaggedInputs(step, logs);
    hide IgnoresFlag, Ran, AllSatisfied, SomeUnsatisfied, Inputs, Lenient;
    var log := logs[step.id];
    if log.Success? || log.Failed? || log.Declined? {
      UnflaggedRan(exec, job, step, Inputs(step, logs), log);
    }
  }

  lemma LenientSteps(job: Job, x: Id)
    ensures HasStep(Lenient(job).steps, x) <==> HasStep(job.steps, x)
  {
    if i :| 0 <= i < |job.steps| && job.steps[i].id == x {
      assert Lenient(job).steps[i].id == x;
    }
    if i :| 0 <= i < |Lenient(job).steps| && Lenient(job).steps[i].id == x {
      assert job.steps[i].id == x;
    }
  }

  lemma LenientStep(exec: Executor, job: Job, opts: Options, logs: Logs, i: nat)
    requires IgnoresFlag(exec) && Exhausted(exec, Lenient(job), opts, logs) && i < |job.steps|
    ensures job.steps[i].id in logs && Explained(exec, job, logs, job.steps[i])
    ensures InitialLog(opts, job.steps[i].id).Pending? ==> IsOver(job.steps[i], logs)
  {
    var other := Lenient(job);
    assert other.steps[i] == Unflagged(job.steps[i]);
    ExhaustedParts(exec, other, opts, logs);
    JustifiedStep(exec, other, opts, logs, i);
    UnflaggedInputs(job.steps[i], logs);
    if InitialLog(opts, job.steps[i].id).Pending? {
      ExhaustedStep(exec, other, opts, logs, i);
    }
    hide Exhausted, Justified, Explained, IgnoresFlag, Lenient, AllSatisfied, SomeUnsatisfied;
    UnflaggedExplained(exec, job, logs, job.steps[i]);
  }

  lemma LenientExhausted(exec: Executor, job: Job, opts: Options, logs: Logs)
    requires IgnoresFlag(exec) && Exhausted(exec, Lenient(job), opts, logs)
    ensures Exhausted(exec, job, opts, logs)
  {
    hide Explained, IgnoresFlag, HasStep, Lenient, IsOver;
    assert Covers(Lenient(job), logs);
    forall x ensures x in logs <==> HasStep(job.steps, x) {
      LenientSteps(job, x);
    }
    forall i | 0 <= i < |job.steps|
      ensures job.steps[i].id in logs && Explained(exec, job, logs, job.steps[i])
      ensures InitialLog(opts, job.steps[i].id).Pending? ==> IsOver(job.steps[i], logs)
    {
      LenientStep(exec, job, opts, logs, i);
    }
  }

  // A run cut short by an abort, by the failure policy or by a step with FAIL_JOB_ON_FAILURE decided every step it did
  // decide as the run of the same job without them
  lemma CutShortRunAgrees(
    exec: Executor, job: Job, opts: Options, end: End, logs: Logs, signal: Signal,
    fullEnd: End, full: Logs, batches: seq<set<Id>>)
    requires WellFormed(job) && IgnoresFlag(exec)
    requires Ends(exec, job, opts, end, logs, signal)
    requires RunsToTheEnd(exec, Lenient(job), opts, fullEnd, full, batches)
    ensures forall x :: x in logs && Final(logs[x]) ==> x in full && full[x] == logs[x]
    ensures forall x :: x in logs ==> Final(logs[x]) || logs[x] == InitialLog(opts, x) || logs[x].Cancelled? || logs[x].Interrupted?
  {
    hide WellFormed, IgnoresFlag, Explained, Available, RunsInRounds, RepresentativeFailure, Lenient, Exhausted;
    LenientExhausted(exec, job, opts, full);
    VerdictsAgree(exec, job, opts, logs, full);
    hide Complete;
    assert forall x :: x in logs && !InitialLog(opts, x).Pending? ==> logs[x] == InitialLog(opts, x);
    assert forall x :: x in logs && InitialLog(opts, x).Pending? ==> !logs[x].Outside? && !logs[x].Reused?;
  }

  // ----- The execution plan -----

  lemma PermutedGraph(steps: seq<Step>, others: seq<Step>, x: Id)
    requires UniqueIds(Nodes(steps)) && UniqueIds(Nodes(others)) && forall s :: s in steps ==> s in others
    requires x in ById(Nodes(steps))
    ensures x in ById(Nodes(others)) && ById(Nodes(others))[x] == ById(Nodes(steps))[x]
  {
    var m :| 0 <= m < |Nodes(steps)| && Nodes(steps)[m].id == x;
    assert steps[m] in others;
    var i :| 0 <= i < |others| && others[i] == steps[m];
    assert Nodes(others)[i] == Nodes(steps)[m];
    hide Nodes;
    ByIdFinds(Nodes(steps), m);
    ByIdFinds(Nodes(others), i);
  }

  lemma SortedGraph(job: Job)
    requires UniqueStepIds(job.steps) && UniqueOrders(job.steps)
    ensures UniqueIds(Nodes(SortByOrder(job.steps)))
    ensures ById(Nodes(SortByOrder(job.steps))) == Dependencies(job.steps)
  {
    var sorted := SortByOrder(job.steps);
    SortSorts(job.steps);
    forall i, j | 0 <= i < j < |sorted| ensures sorted[i].id != sorted[j].id {
      if sorted[i].id == sorted[j].id {
        SameIdSameStep(job, sorted[i], sorted[j]);
      }
    }
    assert UniqueIds(Nodes(sorted)) && UniqueIds(Nodes(job.steps));
    hide Nodes, SortByOrder, UniqueIds, UniqueStepIds, UniqueOrders, Ordered;
    forall x | x in ById(Nodes(sorted)) { PermutedGraph(sorted, job.steps, x); }
    forall x | x in ById(Nodes(job.steps)) { PermutedGraph(job.steps, sorted, x); }
  }

  // The ids per level; each is the set of steps with one longest-chain depth
  ghost predicate IsPlan(job: Job, levels: seq<seq<Id>>) {
    && (forall k :: 0 <= k < |levels| ==> IsLevel(Dependencies(job.steps), levels[k], k))
    && Below(Dependencies(job.steps), |levels|) == Dependencies(job.steps).Keys
  }

  method GetExecutionPlan(job: Job) returns (levels: Option<seq<seq<Id>>>)
    requires UniqueStepIds(job.steps) && UniqueOrders(job.steps)
    ensures levels.Some? <==> Resolved(Dependencies(job.steps)) && !Cyclic(Dependencies(job.steps))
    ensures levels.Some? ==> IsPlan(job, levels.value)
  {
    var sorted := SortByOrder(job.steps);
    SortedGraph(job);
    hide Dependencies, SortByOrder, IsLevel, Below, Cyclic, Resolved;
    levels := BuildDependencyLevels(Nodes(sorted));
  }

  lemma PlannedReach(job: Job, x: Id, f: Id)
    requires WellFormed(job)
    ensures Reach(Selected(job, EVERYTHING), x, f) <==> Reach(Dependencies(job.steps), x, f)
  {
    var g, h := Dependencies(job.steps), Selected(job, EVERYTHING);
    forall a, b ensures Edge(h, a, b) <==> Edge(g, a, b) {
      WellFormedGraph(job);
      SelectedEdge(job, EVERYTHING, a, b);
    }
    hide Selected, Dependencies, WellFormed;
    forall p ensures PathFromTo(h, p, x, f) <==> PathFromTo(g, p, x, f) {
    }
  }

  // The k-th batch of a full run is level k of the plan, without the steps that have a failed ancestor
  lemma RunnerRefinesPlan(
    exec: Executor, job: Job, end: End, logs: Logs, batches: seq<set<Id>>, levels: seq<seq<Id>>, k: nat, x: Id)
    requires WellFormed(job) && RunsToTheEnd(exec, job, EVERYTHING, end, logs, batches) && IsPlan(job, levels)
    ensures |batches| <= |levels|
    ensures k < |batches| ==>
      (x in batches[k] <==>
        x in levels[k] && !exists f :: f != x && f in logs && logs[f].Failed? && Reach(Dependencies(job.steps), x, f))
    ensures |batches| <= k < |levels| && x in levels[k] ==>
      exists f :: f != x && f in logs && logs[f].Failed? && Reach(Dependencies(job.steps), x, f)
  {
    var g := Dependencies(job.steps);
    FullRunFacts(exec, job, end, logs, batches);
    hide RunsToTheEnd, Exhausted, WellFormed, RunsInRounds, IsPlan, Dependencies, Selected, CoreGraph, Reach;
    NoLevelBeyond(job, levels, logs);
    RoundsEnd(job, EVERYTHING, logs, batches, |levels|);
    if k < |levels| {
      PlannedStart(job, logs, levels, k, x);
      RoundsEnd(job, EVERYTHING, logs, batches, k);
      if x in levels[k] {
        PlannedIsSelected(job, levels, k, x);
        BlockedIffAncestorFailed(exec, job, EVERYTHING, logs, x);
        forall f ensures Reach(Selected(job, EVERYTHING), x, f) <==> Reach(g, x, f) {
          PlannedReach(job, x, f);
        }
      }
    }
  }

  lemma FullRunFacts(exec: Executor, job: Job, end: End, logs: Logs, batches: seq<set<Id>>)
    requires WellFormed(job) && RunsToTheEnd(exec, job, EVERYTHING, end, logs, batches)
    ensures RunsInRounds(job, EVERYTHING, logs, batches) && Exhausted(exec, job, EVERYTHING, logs)
    ensures CoreGraph(job, EVERYTHING) == Selected(job, EVERYTHING)
  {
    assert Available(job, EVERYTHING);
    AvailableIsStartable(job, EVERYTHING);
    hide RunsInRounds, Exhausted;
  }

  lemma PlannedIsSelected(job: Job, levels: seq<seq<Id>>, k: nat, x: Id)
    requires IsPlan(job, levels) && k < |levels| && x in levels[k]
    ensures x in ToRun(job, EVERYTHING)
  {
    assert IsLevel(Dependencies(job.steps), levels[k], k);
    hide Dependencies;
    assert x in Layer(Dependencies(job.steps), k);
  }

  lemma NoLevelBeyond(job: Job, levels: seq<seq<Id>>, logs: Logs)
    requires WellFormed(job) && IsPlan(job, levels)
    ensures StartedIn(Selected(job, EVERYTHING), logs, |levels|) == {}
  {
    FullSelectionLayers(job, |levels|);
  }

  lemma PlannedStart(job: Job, logs: Logs, levels: seq<seq<Id>>, k: nat, x: Id)
    requires WellFormed(job) && IsPlan(job, levels) && k < |levels|
    ensures x in StartedIn(Selected(job, EVERYTHING), logs, k) <==> x in levels[k] && x in logs && !logs[x].Blocked?
  {
    FullSelectionLayers(job, k);
    assert IsLevel(Dependencies(job.steps), levels[k], k);
    hide Layer, Selected;
    assert x in ToSet(levels[k]) <==> x in levels[k];
  }
}
