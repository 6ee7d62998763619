/**
 * Whole runs: how JobRunner.run (src/core/JobRunner.ts) ends, stopped by a failure, aborted, or left alone until
 * nothing more can start.
 */
module Runs {
  import opened Wrappers
  import opened Graph
  import opened JobGraph
  import opened Levels
  import opened Jobs
  import opened Validator
  import opened RunSpec
  import opened Rounds
  import opened RunState
  import opened StepTask
  import opened Runner

  // Unresolved is the "Circular or unresolved dependency detected" error
  datatype End = Invalid | EndedWell | EndedBy(problem: Problem) | Unresolved

  datatype Status = Succeeds | Fails | IsCancelled

  function RunStatus(end: End): Status {
    match end
    case EndedWell => Succeeds
    case EndedBy(Abort(ExecutionCancelled)) => IsCancelled
    case _ => Fails
  }

  // ----- What every run of a valid job guarantees -----

  ghost predicate Ends(exec: Executor, job: Job, opts: Options, end: End, logs: Logs, signal: Signal) {
    && Justified(exec, job, opts, logs)
    && NoneRunning(logs)
    && (forall x :: x in logs && logs[x].Pending? ==> signal.Some?)
    && match end
      case Invalid => false
      case EndedWell =>
        Complete(exec, job, opts, logs) && Available(job, opts) && forall x :: x in logs ==> !logs[x].Failed?
      case EndedBy(Abort(code)) => signal == Some(code)
      case EndedBy(Failure(e)) => signal.None? && HasFailed(logs, e)
      case Unresolved => signal.None? && !Available(job, opts)
  }

  // What an abort leaves: only a shutdown interrupts steps, and only a step of the last batch keeps no log of its own
  ghost predicate Leftovers(logs: Logs, signal: Signal, batches: seq<set<Id>>) {
    && Interrupts(logs, signal)
    && forall x :: x in logs && logs[x].Pending? ==> signal.Some? && batches != [] && x in batches[|batches| - 1]
  }

  // ----- And one that is left alone and that no failure stops -----

  ghost predicate RunsInRounds(job: Job, opts: Options, logs: Logs, batches: seq<set<Id>>) {
    && (forall k :: 0 <= k < |batches| ==> batches[k] != {})
    && (forall k: nat :: StartedIn(CoreGraph(job, opts), logs, k) == if k < |batches| then batches[k] else {})
  }

  // It ends well, by the failure that speaks for the job, or stuck on steps that lack a dependency
  ghost predicate RunsToTheEnd(exec: Executor, job: Job, opts: Options, end: End, logs: Logs, batches: seq<set<Id>>) {
    && Exhausted(exec, job, opts, logs)
    && RunsInRounds(job, opts, logs, batches)
    && match end
      case Invalid => false
      case EndedWell => NoneCancelled(logs) && forall x :: x in logs ==> !logs[x].Failed?
      case EndedBy(Abort(_)) => false
      case EndedBy(Failure(e)) => NoneCancelled(logs) && RepresentativeFailure(job, CoreGraph(job, opts), logs, e)
      case Unresolved => !NoneCancelled(logs)
  }

  ghost predicate NoneCancelled(logs: Logs) {
    forall x :: x in logs ==> !logs[x].Cancelled?
  }

  lemma DrainedIsComplete(exec: Executor, job: Job, opts: Options, st: RunState)
    requires Inv(exec, job, opts, st) && st.pending == []
    ensures Complete(exec, job, opts, st.logs) && NoneRunning(st.logs)
    ensures forall x :: x in st.logs ==> !st.logs[x].Pending?
  {
    assert Covers(job, st.logs) && Mirrored(st);
    hide Explained;
    forall x | x in st.logs ensures !st.logs[x].Pending? {
      var i :| 0 <= i < |job.steps| && job.steps[i].id == x;
      assert job.steps[i] !in st.pending;
    }
  }

  lemma StagedInRounds(job: Job, opts: Options, logs: Logs, batches: seq<set<Id>>)
    requires Staged(CoreGraph(job, opts), logs, batches)
    requires forall x :: x in logs ==> !logs[x].Pending?
    ensures RunsInRounds(job, opts, logs, batches)
  {
    hide CoreGraph, StartedIn;
    forall k: nat ensures StartedIn(CoreGraph(job, opts), logs, k) == if k < |batches| then batches[k] else {} {
      if k >= |batches| {
        StagedDone(CoreGraph(job, opts), logs, batches, k);
      }
    }
  }

  lemma CompleteNoneCancelled(exec: Executor, job: Job, opts: Options, logs: Logs)
    requires Complete(exec, job, opts, logs)
    ensures NoneCancelled(logs)
  {
    hide Explained;
  }

  lemma DrainedRun(exec: Executor, job: Job, opts: Options, st: RunState, failure: Option<Problem>, batches: seq<set<Id>>)
    requires Inv(exec, job, opts, st) && st.pending == [] && Tracked(job, opts, st.logs, failure, batches)
    ensures Complete(exec, job, opts, st.logs)
    ensures RunsToTheEnd(exec, job, opts, if failure.None? then EndedWell else EndedBy(failure.value), st.logs, batches)
    ensures NothingStops(job, st.logs)
  {
    DrainedIsComplete(exec, job, opts, st);
    assert FailureKnown(st.logs, failure);
    hide Inv, Complete, Exhausted, RunsInRounds, RepresentativeFailure, Staged, NoneCancelled, CoreGraph, NothingStops;
    CompleteIsExhausted(exec, job, opts, st.logs);
    CompleteNoneCancelled(exec, job, opts, st.logs);
    StagedInRounds(job, opts, st.logs, batches);
  }

  // What is cancelled when a run is stuck is no part of its rounds
  lemma StuckRun(
    exec: Executor, job: Job, opts: Options, st: RunState, failure: Option<Problem>, batches: seq<set<Id>>, after: Logs)
    requires WellFormed(job) && Inv(exec, job, opts, st) && IsStuck(st)
    requires Tracked(job, opts, st.logs, failure, batches) && OnlyCancels(st.logs, after)
    requires forall s :: s in st.pending ==> s.id in after && after[s.id].Cancelled?
    ensures RunsToTheEnd(exec, job, opts, Unresolved, after, batches) && NothingStops(job, after)
  {
    hide *;
    TrackedParts(job, opts, st.logs, failure, batches);
    StuckIsExhausted(exec, job, opts, st, after);
    CancelledNothingPending(exec, job, opts, st, after);
    CancelsStopNothing(job, st.logs, after);
    CoreNodes(job, opts);
    forall x | x in CoreGraph(job, opts) && x in st.logs ensures after[x] == st.logs[x] {
      StartableKeepsLog(exec, job, opts, st, after, x);
    }
    StagedElsewhere(CoreGraph(job, opts), st.logs, after, batches);
    StagedInRounds(job, opts, after, batches);
    StuckEnds(exec, job, opts, st, after, batches);
  }

  lemma StuckEnds(exec: Executor, job: Job, opts: Options, st: RunState, after: Logs, batches: seq<set<Id>>)
    requires Exhausted(exec, job, opts, after) && RunsInRounds(job, opts, after, batches) && IsStuck(st)
    requires forall s :: s in st.pending ==> s.id in after && after[s.id].Cancelled?
    ensures RunsToTheEnd(exec, job, opts, Unresolved, after, batches)
  {
    hide Exhausted, RunsInRounds, NoneBlocked;
    assert st.pending[0] in st.pending;
  }

  lemma CancelsStopNothing(job: Job, logs: Logs, after: Logs)
    requires NothingStops(job, logs) && OnlyCancels(logs, after)
    ensures NothingStops(job, after)
  {
    forall i | 0 <= i < |job.steps| ensures !StopsJob(job, after, i) {
      assert !StopsJob(job, logs, i);
    }
  }

  lemma StartableKeepsLog(exec: Executor, job: Job, opts: Options, st: RunState, after: Logs, x: Id)
    requires WellFormed(job) && Exhausted(exec, job, opts, after) && OnlyCancels(st.logs, after)
    requires x in Startable(job, opts) && x in st.logs
    ensures after[x] == st.logs[x]
  {
    assert x in ToRun(job, opts);
    hide WellFormed, Exhausted, Startable, ToRun;
    CutOffIffLacking(exec, job, opts, after, x);
  }

  // The catch block: what has not started is cancelled
  lemma CaughtRun(
    exec: Executor, job: Job, opts: Options, before: RunState, st: RunState, problem: Problem, signal: Signal)
    requires Justified(exec, job, opts, before.logs) && Listed(job, before) && NoneRunning(before.logs)
    requires signal.None? ==> NoneDropped(job, before)
    requires OnlyCancels(before.logs, st.logs) && forall s :: s in before.pending ==> st.logs[s.id].Cancelled?
    ensures Justified(exec, job, opts, st.logs) && NoneRunning(st.logs)
    ensures forall x :: x in st.logs && st.logs[x].Pending? ==> signal.Some?
    ensures forall e :: HasFailed(before.logs, e) ==> HasFailed(st.logs, e)
  {
    CancelsJustified(exec, job, opts, before.logs, st.logs);
    assert Covers(job, st.logs);
    hide Justified;
    if signal.None? {
      forall x | x in st.logs ensures !st.logs[x].Pending? {
        var i :| 0 <= i < |job.steps| && job.steps[i].id == x;
        assert before.logs[x].Pending? ==> job.steps[i] in before.pending;
      }
    }
    forall e | HasFailed(before.logs, e) ensures HasFailed(st.logs, e) {
      var x :| x in before.logs && before.logs[x] == Failed(e);
      assert st.logs[x] == Failed(e);
    }
  }

  lemma NothingTracked(exec: Executor, job: Job, opts: Options, st: RunState)
    requires WellFormed(job) && Inv(exec, job, opts, st) && Initial(opts, st.logs)
    ensures Tracked(job, opts, st.logs, None, [])
  {
    hide Explained, Available, WellFormed, Dependencies;
    forall x | x in Selected(job, opts) ensures x in st.logs && st.logs[x].Pending? {
      SelectedHasLog(exec, job, opts, st.logs, x);
    }
  }

  // The main loop
  method RunRounds(exec: Executor, job: Job, ghost opts: Options, st0: RunState, before: Signal)
    returns (st: RunState, failure: Option<Problem>, turn: Turn, signal: Signal, ghost batches: seq<set<Id>>)
    requires WellFormed(job) && Inv(exec, job, opts, st0) && Tracked(job, opts, st0.logs, None, [])
    ensures Later(before, signal) && !turn.Again?
    ensures !turn.Thrown? ==> Inv(exec, job, opts, st) && Tracked(job, opts, st.logs, failure, batches)
    ensures turn.Drained? ==> st.pending == []
    ensures turn.Drained? && failure.None? && signal.Some? ==> st0.pending == []
    ensures st0.pending == [] ==> turn.Drained? && failure.None? && batches == []
    ensures turn.Stuck? ==> IsStuck(st)
    ensures turn.Thrown? ==> Leaving(exec, job, opts, st, turn.problem, signal, batches)
  {
    hide Inv, Tracked, Leaving, IsStuck, WellFormed;
    st, failure, signal, batches := st0, None, before, [];
    turn := if st.pending == [] then Drained else Again;
    while turn.Again?
      invariant Later(before, signal)
      invariant !turn.Thrown? ==> Inv(exec, job, opts, st) && Tracked(job, opts, st.logs, failure, batches)
      invariant turn.Again? ==> st.pending != []
      invariant turn.Drained? ==> st.pending == []
      invariant turn.Drained? && failure.None? && signal.Some? ==> st0.pending == []
      invariant st0.pending == [] ==> turn.Drained? && failure.None? && batches == []
      invariant turn.Stuck? ==> IsStuck(st)
      invariant turn.Thrown? ==> Leaving(exec, job, opts, st, turn.problem, signal, batches)
      decreases turn.Again?, |st.pending|
    {
      st, failure, turn, signal, batches := Round(exec, job, opts, st, failure, signal, batches);
    }
  }

  // What the main loop leaves when it did not drain
  lemma UndrainedLeaves(
    exec: Executor, job: Job, opts: Options, st: RunState, turn: Turn, signal: Signal, batches: seq<set<Id>>)
    requires turn.Stuck? || turn.Drained? ==> Inv(exec, job, opts, st)
    requires turn.Thrown? ==> Leaving(exec, job, opts, st, turn.problem, signal, batches)
    requires !turn.Again?
    ensures Justified(exec, job, opts, st.logs) && Listed(job, st) && NoneRunning(st.logs)
    ensures signal.None? ==> NoneDropped(job, st)
  {
    hide Justified, Listed, NoneDropped, Stopped, Interrupts, DroppedFrom, NoneInterrupted;
  }

  // The end of run: the representative failure, or whatever was thrown, unless an abort overrides it
  function Conclusion(failure: Option<Problem>, turn: Turn, signal: Signal): End {
    if turn.Drained? && failure.None? then EndedWell
    else if signal.Some? then EndedBy(Abort(signal.value))
    else if turn.Drained? then EndedBy(failure.value)
    else if turn.Thrown? then EndedBy(turn.problem)
    else Unresolved
  }

  lemma TrackedFailure(job: Job, opts: Options, logs: Logs, failure: Option<Problem>, batches: seq<set<Id>>)
    requires Tracked(job, opts, logs, failure, batches)
    ensures FailureKnown(logs, failure)
  {
  }

  lemma LeavingProblem(
    exec: Executor, job: Job, opts: Options, st: RunState, problem: Problem, signal: Signal, batches: seq<set<Id>>)
    requires Leaving(exec, job, opts, st, problem, signal, batches)
    ensures problem.Failure? ==> HasFailed(st.logs, problem.error)
    ensures problem.Abort? ==> signal == Some(problem.code)
  {
    hide StoppedRounds, LastInOrder;
  }

  lemma ConclusionEnds(
    exec: Executor, job: Job, opts: Options, st: RunState, failure: Option<Problem>, turn: Turn, signal: Signal,
    batches: seq<set<Id>>, after: RunState)
    requires WellFormed(job) && !turn.Again?
    requires !turn.Thrown? ==> Inv(exec, job, opts, st) && Tracked(job, opts, st.logs, failure, batches)
    requires turn.Drained? ==> st.pending == []
    requires turn.Stuck? ==> IsStuck(st)
    requires turn.Thrown? ==> Leaving(exec, job, opts, st, turn.problem, signal, batches)
    requires Conclusion(failure, turn, signal).EndedWell? ==> after == st
    requires OnlyCancels(st.logs, after.logs) && (st.pending == [] ==> after == st)
    requires !Conclusion(failure, turn, signal).EndedWell? ==> forall s :: s in st.pending ==> after.logs[s.id].Cancelled?
    ensures Ends(exec, job, opts, Conclusion(failure, turn, signal), after.logs, signal)
  {
    hide WellFormed, Inv, Tracked, Leaving, Available, IsStuck, Complete, Justified, Listed, NoneDropped, NoneRunning, HasFailed;
    var end := Conclusion(failure, turn, signal);
    UndrainedLeaves(exec, job, opts, st, turn, signal, batches);
    if turn.Drained? {
      DrainedRun(exec, job, opts, st, failure, batches);
      TrackedFailure(job, opts, st.logs, failure, batches);
    }
    if turn.Stuck? {
      StuckIsUnavailable(exec, job, opts, st);
    }
    if turn.Thrown? {
      LeavingProblem(exec, job, opts, st, turn.problem, signal, batches);
    }
    if end.EndedWell? {
      DrainedIsComplete(exec, job, opts, st);
      NothingBlocked(exec, job, opts, st.logs);
    } else {
      CaughtRun(exec, job, opts, st, after, if turn.Thrown? then turn.problem else Abort(ExecutionCancelled), signal);
    }
  }

  // How a run that nobody aborts ends
  ghost predicate EndsAlone(exec: Executor, job: Job, opts: Options, end: End, logs: Logs, batches: seq<set<Id>>) {
    if NothingStops(job, logs) then RunsToTheEnd(exec, job, opts, end, logs, batches)
    else end.EndedBy? && end.problem.Failure? && Stopped(job, opts, logs, batches, end.problem.error)
  }

  lemma ConclusionAlone(
    exec: Executor, job: Job, opts: Options, st: RunState, failure: Option<Problem>, turn: Turn, signal: Signal,
    batches: seq<set<Id>>, after: RunState)
    requires WellFormed(job) && !turn.Again? && signal.None?
    requires !turn.Thrown? ==> Inv(exec, job, opts, st) && Tracked(job, opts, st.logs, failure, batches)
    requires turn.Drained? ==> st.pending == []
    requires turn.Stuck? ==> IsStuck(st)
    requires turn.Thrown? ==> Leaving(exec, job, opts, st, turn.problem, signal, batches)
    requires OnlyCancels(st.logs, after.logs) && (st.pending == [] ==> after == st)
    requires turn.Stuck? ==> forall s :: s in st.pending ==> s.id in after.logs && after.logs[s.id].Cancelled?
    ensures EndsAlone(exec, job, opts, Conclusion(failure, turn, signal), after.logs, batches)
  {
    hide WellFormed, Inv, Tracked, RunsToTheEnd, NothingStops, IsStuck, OnlyCancels, Stopped, Justified, Listed, NoneDropped;
    if turn.Drained? {
      DrainedRun(exec, job, opts, st, failure, batches);
    } else if turn.Stuck? {
      StuckRun(exec, job, opts, st, failure, batches, after.logs);
    } else {
      StoppedStops(job, opts, st.logs, batches, turn.problem.error);
    }
  }

  lemma StoppedStops(job: Job, opts: Options, logs: Logs, batches: seq<set<Id>>, error: Error)
    requires Stopped(job, opts, logs, batches, error)
    ensures !NothingStops(job, logs)
  {
    hide StoppedRounds, LastInOrder;
  }

  lemma ConclusionLeftovers(
    exec: Executor, job: Job, opts: Options, st: RunState, turn: Turn, signal: Signal, batches: seq<set<Id>>, after: RunState)
    requires !turn.Again? && (!turn.Thrown? ==> Inv(exec, job, opts, st))
    requires turn.Thrown? ==> Leaving(exec, job, opts, st, turn.problem, signal, batches)
    requires OnlyCancels(st.logs, after.logs) && forall s :: s in st.pending ==> s.id in after.logs && after.logs[s.id].Cancelled?
    ensures Leftovers(after.logs, signal, batches)
  {
    hide *;
    LeavingLogs(exec, job, opts, st, turn, signal, batches);
    LeftoversAre(job, st, after.logs, signal, batches);
  }

  lemma LeftoversAre(job: Job, st: RunState, after: Logs, signal: Signal, batches: seq<set<Id>>)
    requires Covers(job, st.logs) && Interrupts(st.logs, signal)
    requires forall i :: 0 <= i < |job.steps| && job.steps[i].id in st.logs && st.logs[job.steps[i].id].Pending? ==>
      job.steps[i] in st.pending || (signal.Some? && batches != [] && job.steps[i].id in batches[|batches| - 1])
    requires OnlyCancels(st.logs, after) && forall s :: s in st.pending ==> s.id in after && after[s.id].Cancelled?
    ensures Leftovers(after, signal, batches)
  {
    hide Covers;
    forall x | x in after && after[x].Pending? ensures signal.Some? && batches != [] && x in batches[|batches| - 1] {
      var i := LoggedStep(job, st.logs, x);
      assert job.steps[i] !in st.pending;
    }
  }

  lemma LoggedStep(job: Job, logs: Logs, x: Id) returns (i: nat)
    requires Covers(job, logs) && x in logs
    ensures i < |job.steps| && job.steps[i].id == x
  {
    i :| 0 <= i < |job.steps| && job.steps[i].id == x;
  }

  lemma LeavingLogs(
    exec: Executor, job: Job, opts: Options, st: RunState, turn: Turn, signal: Signal, batches: seq<set<Id>>)
    requires !turn.Again? && (!turn.Thrown? ==> Inv(exec, job, opts, st))
    requires turn.Thrown? ==> Leaving(exec, job, opts, st, turn.problem, signal, batches)
    ensures Covers(job, st.logs) && Interrupts(st.logs, signal)
    ensures forall i :: 0 <= i < |job.steps| && job.steps[i].id in st.logs && st.logs[job.steps[i].id].Pending? ==>
      job.steps[i] in st.pending || (signal.Some? && batches != [] && job.steps[i].id in batches[|batches| - 1])
  {
    hide Explained, Stopped;
  }

  // ----- Runs that get stuck -----

  // No condition breaks, every list resolves and every attempt succeeds
  ghost predicate NeverFails(exec: Executor) {
    && (forall step, ctx :: !exec.guard(step, ctx).Broken? && exec.items(step, ctx).Ok?)
    && (forall step, ctx, target, n :: exec.attempt(step, ctx, target, n).Done?)
  }

  // Every step may be attempted
  predicate AttemptsAllowed(job: Job) {
    forall i :: 0 <= i < |job.steps| ==> ResolveRetry(job.defaultRetry, job.steps[i].retry).maxAttempts >= 1
  }

  lemma AttemptSucceeds(exec: Executor, job: Job, step: Step, ctx: Context, target: Target)
    requires NeverFails(exec) && ResolveRetry(job.defaultRetry, step.retry).maxAttempts >= 1
    ensures Attempts(exec, job, step, ctx, target).Done?
  {
    assert exec.attempt(step, ctx, target, 1).Done?;
  }

  lemma NeverCrashes(exec: Executor, job: Job, step: Step, ctx: Context, e: Error)
    requires NeverFails(exec) && ResolveRetry(job.defaultRetry, step.retry).maxAttempts >= 1
    ensures !StepEnds(exec, job, step, ctx, Crash(e))
  {
    forall target ensures Attempts(exec, job, step, ctx, target).Done? {
      AttemptSucceeds(exec, job, step, ctx, target);
    }
    assert exec.items(step, ctx).Ok?;
    hide Attempts;
  }

  lemma NothingFailed(exec: Executor, job: Job, opts: Options, logs: Logs)
    requires NeverFails(exec) && AttemptsAllowed(job) && Justified(exec, job, opts, logs)
    ensures forall x :: x in logs ==> !logs[x].Failed?
  {
    assert Covers(job, logs);
    forall x | x in logs ensures !logs[x].Failed? {
      var i :| 0 <= i < |job.steps| && job.steps[i].id == x;
      assert Explained(exec, job, logs, job.steps[i]);
      if logs[x].Failed? {
        assert !exec.guard(job.steps[i], Inputs(job.steps[i], logs)).Broken?;
        NeverCrashes(exec, job, job.steps[i], Inputs(job.steps[i], logs), logs[x].error);
      }
    }
  }

  // When no step gets in the way, a run that is left alone gets stuck exactly when a step waits for one that is
  // neither selected nor reused, and ends well otherwise
  lemma StuckIffUnavailable(exec: Executor, job: Job, opts: Options, end: End, logs: Logs)
    requires NeverFails(exec) && AttemptsAllowed(job) && Ends(exec, job, opts, end, logs, None)
    ensures end.Unresolved? <==> !Available(job, opts)
    ensures end.EndedWell? <==> Available(job, opts)
  {
    NothingFailed(exec, job, opts, logs);
    hide Justified, Available, Complete, NeverFails, AttemptsAllowed;
  }

  lemma NothingToRun(exec: Executor, job: Job, opts: Options, st: RunState)
    requires UniqueStepIds(job.steps) && Inv(exec, job, opts, st) && Initial(opts, st.logs)
    ensures st.pending == [] <==> ToRun(job, opts) == {}
  {
    InvParts(exec, job, opts, st);
    hide Inv, Explained, Mirrored, InitialLog, UniqueStepIds;
    if st.pending != [] {
      ListedStep(job, st, st.pending[0]);
      assert HasStep(job.steps, st.pending[0].id);
      var i := StepOf(job, st.pending[0].id);
      assert st.pending[0].id in ToRun(job, opts);
    }
    if x :| x in ToRun(job, opts) {
      SelectedHasLog(exec, job, opts, st.logs, x);
      var i := LoggedStep(job, st.logs, x);
      assert job.steps[i] in st.pending;
    }
  }

  // An abort overrides every end but the success of a run that had nothing to do
  lemma ConclusionAborted(
    exec: Executor, job: Job, opts: Options, st0: RunState, failure: Option<Problem>, turn: Turn, signal: Signal)
    requires UniqueStepIds(job.steps) && Inv(exec, job, opts, st0) && Initial(opts, st0.logs) && !turn.Again?
    requires turn.Drained? && failure.None? && signal.Some? ==> st0.pending == []
    requires st0.pending == [] ==> turn.Drained? && failure.None?
    ensures ToRun(job, opts) == {} ==> Conclusion(failure, turn, signal) == EndedWell
    ensures ToRun(job, opts) != {} && signal.Some? ==> Conclusion(failure, turn, signal) == EndedBy(Abort(signal.value))
  {
    NothingToRun(exec, job, opts, st0);
  }

  method Run(exec: Executor, job: Job, opts: Options, before: Signal)
    returns (end: End, logs: Logs, signal: Signal, ghost batches: seq<set<Id>>)
    ensures Later(before, signal)
    ensures !WellFormed(job) ==>
      logs == map[] && signal == before && end == if before.Some? then EndedBy(Abort(before.value)) else Invalid
    ensures WellFormed(job) ==> Ends(exec, job, opts, end, logs, signal)
    ensures WellFormed(job) ==> Leftovers(logs, signal, batches)
    ensures WellFormed(job) && signal.None? ==> EndsAlone(exec, job, opts, end, logs, batches)
    ensures WellFormed(job) && ToRun(job, opts) == {} ==> end == EndedWell
    ensures WellFormed(job) && ToRun(job, opts) != {} && signal.Some? ==> end == EndedBy(Abort(signal.value))
    ensures WellFormed(job) && signal.None? && NeverFails(exec) && AttemptsAllowed(job) ==>
      (end.Unresolved? <==> !Available(job, opts))
  {
    signal, batches := before, [];
    var issues := ValidateJobDefinition(job);
    if issues != [] {
      return if before.Some? then EndedBy(Abort(before.value)) else Invalid, map[], signal, batches;
    }
    assert UniqueStepIds(job.steps) && UniqueOrders(job.steps);
    hide WellFormed, Inv, Tracked, Ends, EndsAlone, Leftovers, ToRun, Leaving, Available, IsStuck, Initial, UniqueStepIds, UniqueOrders;
    hide Justified, Listed, NoneDropped, NoneRunning, OnlyCancels;
    var st := Start(exec, job, opts);
    NothingTracked(exec, job, opts, st);
    var failure, turn;
    ghost var st0 := st;
    st, failure, turn, signal, batches := RunRounds(exec, job, opts, st, before);
    end, logs := Conclude(exec, job, opts, st, failure, turn, signal, batches);
    ConclusionAborted(exec, job, opts, st0, failure, turn, signal);
    hide NeverFails, AttemptsAllowed;
    if signal.None? && NeverFails(exec) && AttemptsAllowed(job) {
      StuckIffUnavailable(exec, job, opts, end, logs);
    }
  }

  // After the loop, and the catch block
  method Conclude(
    exec: Executor, job: Job, opts: Options, st: RunState, failure: Option<Problem>, turn: Turn, signal: Signal,
    ghost batches: seq<set<Id>>)
    returns (end: End, logs: Logs)
    requires WellFormed(job) && !turn.Again?
    requires !turn.Thrown? ==> Inv(exec, job, opts, st) && Tracked(job, opts, st.logs, failure, batches)
    requires turn.Drained? ==> st.pending == []
    requires turn.Stuck? ==> IsStuck(st)
    requires turn.Thrown? ==> Leaving(exec, job, opts, st, turn.problem, signal, batches)
    ensures Ends(exec, job, opts, end, logs, signal)
    ensures end == Conclusion(failure, turn, signal) && Leftovers(logs, signal, batches)
    ensures signal.None? ==> EndsAlone(exec, job, opts, end, logs, batches)
  {
    assert UniqueStepIds(job.steps) && OnlyCancels(st.logs, st.logs);
    hide *;
    end := Conclusion(failure, turn, signal);
    UndrainedLeaves(exec, job, opts, st, turn, signal, batches);
    var after := st;
    if !end.EndedWell? {
      var later;
      after, later := CancelPending(job, st, signal);
    }
    logs := after.logs;
    ConclusionEnds(exec, job, opts, st, failure, turn, signal, batches, after);
    ConclusionLeftovers(exec, job, opts, st, turn, signal, batches, after);
    if signal.None? {
      ConclusionAlone(exec, job, opts, st, failure, turn, signal, batches, after);
    }
  }
}
