/**
 * One batch of the runner (runStepsWithConcurrency in src/core/JobRunner.ts): several workers that take
 * turns, a step at a time, share an index, the step logs and the stop reason.
 */
module Batch {
  import opened Wrappers
  import opened Graph
  import opened Jobs
  import opened JsonValues
  import opened Validator
  import opened RunSpec
  import opened StepTask

  // The part of the run's context an executor reads: the outputs of the step's dependencies
  function Visible(step: Step, context: Context): Context {
    map d | d in step.dependsOn && d in context :: context[d]
  }

  predicate ShouldStop(job: Job, step: Step) {
    job.failurePolicy == FailFast || step.failJobOnFailure
  }

  // The i-th result asks for the job to stop: its step failed under fail_fast, or carries FAIL_JOB_ON_FAILURE
  ghost predicate AsksToStop(job: Job, batch: seq<Step>, results: seq<Option<StepResult>>, i: nat) {
    && i < |batch| && i < |results| && results[i].Some? && results[i].value.Rejected?
    && (job.failurePolicy.FailFast? || batch[i].failJobOnFailure)
  }

  ghost predicate DistinctSteps(steps: seq<Step>) {
    forall i, j :: 0 <= i < j < |steps| ==> steps[i].id != steps[j].id
  }

  // The shared variables of a batch: index, results, stopReason and stepResults; order is history, the indices in
  // the order their results came
  datatype BatchState = BatchState(
    next: nat, results: seq<Option<StepResult>>, stop: Option<Problem>, logs: Logs, order: seq<nat>)

  ghost predicate Untouched(batch: seq<Step>, logs0: Logs, logs: Logs) {
    && logs.Keys == logs0.Keys
    && forall x :: x in logs0 && (forall i :: 0 <= i < |batch| ==> batch[i].id != x) ==> logs[x] == logs0[x]
  }

  ghost predicate StepProgress(
    exec: Executor, job: Job, batch: seq<Step>, context: Context, s: BatchState, signal: Signal, i: nat)
    requires i < |batch| == |s.results|
  {
    var step := batch[i];
    step.id in s.logs &&
    match s.results[i]
    case Some(r) => i < s.next && StepSettled(exec, job, step, Visible(step, context), s.logs[step.id], r, signal)
    case None => s.logs[step.id].Pending? || (s.logs[step.id].Running? && i < s.next)
  }

  // The order holds each result once
  ghost predicate Chronicled(s: BatchState) {
    && (forall q :: 0 <= q < |s.order| ==> s.order[q] < |s.results| && s.results[s.order[q]].Some?)
    && (forall i :: 0 <= i < |s.results| && s.results[i].Some? ==> i in s.order)
    && (forall q, r :: 0 <= q < r < |s.order| ==> s.order[q] != s.order[r])
  }

  // The result at position p of the order was the first to ask for a stop, and at most room results came from then on
  ghost predicate StoppedAt(job: Job, batch: seq<Step>, s: BatchState, room: int, p: nat) {
    && p < |s.order| && s.order[p] < |s.results| && s.stop.Some?
    && AsksToStop(job, batch, s.results, s.order[p]) && s.results[s.order[p]] == Some(Rejected(s.stop.value))
    && (forall q :: 0 <= q < p ==> !AsksToStop(job, batch, s.results, s.order[q]))
    && |s.order| - p <= room
  }

  // The stop reason is the first rejection that asked for a stop; without one nothing asked
  ghost predicate StopExplained(job: Job, batch: seq<Step>, s: BatchState, room: int) {
    if s.stop.Some? then exists p: nat :: StoppedAt(job, batch, s, room, p)
    else forall i :: 0 <= i < |batch| ==> !AsksToStop(job, batch, s.results, i)
  }

  // A single worker takes one step after the other
  ghost predicate InSequence(workers: seq<Worker>, s: BatchState) {
    |workers| == 1 ==>
      && (forall q :: 0 <= q < |s.order| ==> s.order[q] == q)
      && (workers[0].Busy? ==> workers[0].index == |s.order| && s.next == |s.order| + 1)
      && (!workers[0].Busy? ==> s.next == |s.order|)
  }

  // The workers that hold no index
  function Free(workers: seq<Worker>): nat {
    if workers == [] then 0
    else Free(workers[..|workers| - 1]) + if workers[|workers| - 1].Busy? then 0 else 1
  }

  lemma {:induction false} FreeUpdate(workers: seq<Worker>, i: nat, w: Worker)
    requires i < |workers|
    ensures Free(workers[i := w]) ==
      Free(workers) + (if w.Busy? then 0 else 1) - (if workers[i].Busy? then 0 else 1)
    ensures Free(workers) <= |workers|
  {
    var last := |workers| - 1;
    if i < last {
      FreeUpdate(workers[..last], i, w);
      assert workers[i := w][..last] == workers[..last][i := w];
    } else {
      assert workers[i := w][..last] == workers[..last];
      FreeWithin(workers[..last]);
    }
  }

  lemma {:induction false} FreeWithin(workers: seq<Worker>)
    ensures Free(workers) <= |workers|
  {
    if workers != [] {
      FreeWithin(workers[..|workers| - 1]);
    }
  }

  // A worker's index is taken, open, and its own
  ghost predicate Working(workers: seq<Worker>, s: BatchState) {
    && (forall v :: 0 <= v < |workers| && workers[v].Busy? ==>
      workers[v].index < s.next && workers[v].index < |s.results| && s.results[workers[v].index].None?)
    && (forall u, v :: 0 <= u < v < |workers| && workers[u].Busy? ==> workers[u] != workers[v])
  }

  ghost predicate BatchPool(
    exec: Executor, job: Job, batch: seq<Step>, context: Context, logs0: Logs,
    workers: seq<Worker>, s: BatchState, signal: Signal) {
    && |s.results| == |batch| && workers != []
    && Accounted(workers, s.next, s.results)
    && Untouched(batch, logs0, s.logs)
    && (forall i :: 0 <= i < |batch| ==> StepProgress(exec, job, batch, context, s, signal, i))
    && Chronicled(s) && StopExplained(job, batch, s, Free(workers)) && InSequence(workers, s)
    && Working(workers, s)
    && (forall v :: 0 <= v < |workers| && !Alive(workers[v]) ==> s.stop.Some? || s.next >= |batch|)
  }

  // The first rejection of a step that asks for it becomes the stop reason
  function Stopping(job: Job, step: Step, r: StepResult, stop: Option<Problem>): Option<Problem> {
    if stop.None? && r.Rejected? && ShouldStop(job, step) then Some(r.problem) else stop
  }

  // A result is stored for step i
  function Stored(job: Job, batch: seq<Step>, s: BatchState, i: nat, r: StepResult, log: StepLog): BatchState
    requires i < |batch| == |s.results|
  {
    s.(results := s.results[i := Some(r)],
       stop := Stopping(job, batch[i], r, s.stop),
       logs := s.logs[batch[i].id := log],
       order := s.order + [i])
  }

  lemma StoredKeepsProgress(
    exec: Executor, job: Job, batch: seq<Step>, context: Context,
    s: BatchState, before: Signal, signal: Signal, i: nat, r: StepResult, log: StepLog, j: nat)
    requires DistinctSteps(batch) && |s.results| == |batch| && i < |batch| && i < s.next && j < |batch|
    requires Later(before, signal)
    requires StepProgress(exec, job, batch, context, s, before, j)
    requires StepSettled(exec, job, batch[i], Visible(batch[i], context), log, r, signal)
    ensures StepProgress(exec, job, batch, context, Stored(job, batch, s, i, r, log), signal, j)
  {
    hide Ran, Visible;
    if j != i {
      assert batch[j].id != batch[i].id;
    }
  }

  lemma StoredKeepsPool(
    exec: Executor, job: Job, batch: seq<Step>, context: Context, logs0: Logs,
    workers: seq<Worker>, s: BatchState, before: Signal, signal: Signal, w: nat, i: nat, r: StepResult, log: StepLog)
    requires DistinctSteps(batch) && BatchPool(exec, job, batch, context, logs0, workers, s, before)
    requires Later(before, signal) && w < |workers| && workers[w] == Busy(i)
    requires i < |batch| && StepSettled(exec, job, batch[i], Visible(batch[i], context), log, r, signal)
    ensures BatchPool(exec, job, batch, context, logs0, workers[w := AtLoop], Stored(job, batch, s, i, r, log), signal)
  {
    assert batch[i].id in s.logs by {
      assert StepProgress(exec, job, batch, context, s, before, i);
    }
    assert s.results[i].None?;
    hide StepSettled, Visible, Accounted, StopExplained, Chronicled;
    DoneKeepsAccounted(workers, w, s.next, s.results, i, r);
    FreeUpdate(workers, w, AtLoop);
    hide Free;
    var t := Stored(job, batch, s, i, r, log);
    StoredStop(job, batch, s, i, r, log, Free(workers));
    StoredInSequence(job, batch, workers, s, w, i, r, log);
    StoredWorking(job, batch, workers, s, w, i, r, log);
    hide InSequence, Working;
    forall j | 0 <= j < |batch| ensures StepProgress(exec, job, batch, context, t, signal, j) {
      StoredKeepsProgress(exec, job, batch, context, s, before, signal, i, r, log, j);
    }
    hide StepProgress, Stopping;
    assert t.logs.Keys == s.logs.Keys;
  }

  lemma StoredWorking(job: Job, batch: seq<Step>, workers: seq<Worker>, s: BatchState, w: nat, i: nat, r: StepResult, log: StepLog)
    requires i < |batch| == |s.results| && w < |workers| && workers[w] == Busy(i) && Working(workers, s)
    ensures Working(workers[w := AtLoop], Stored(job, batch, s, i, r, log))
  {
  }

  lemma StoredInSequence(job: Job, batch: seq<Step>, workers: seq<Worker>, s: BatchState, w: nat, i: nat, r: StepResult, log: StepLog)
    requires i < |batch| == |s.results| && w < |workers| && workers[w] == Busy(i) && InSequence(workers, s)
    ensures InSequence(workers[w := AtLoop], Stored(job, batch, s, i, r, log))
  {
  }

  lemma StoredChronicled(job: Job, batch: seq<Step>, s: BatchState, i: nat, r: StepResult, log: StepLog)
    requires i < |batch| == |s.results| && s.results[i].None? && Chronicled(s)
    ensures Chronicled(Stored(job, batch, s, i, r, log))
  {
    var t := Stored(job, batch, s, i, r, log);
    forall k | 0 <= k < |t.results| && t.results[k].Some? ensures k in t.order {
      if k == i {
        assert t.order[|s.order|] == i;
      } else {
        assert k in s.order;
      }
    }
  }

  lemma StoredStop(job: Job, batch: seq<Step>, s: BatchState, i: nat, r: StepResult, log: StepLog, room: nat)
    requires i < |batch| == |s.results| && s.results[i].None? && Chronicled(s)
    requires StopExplained(job, batch, s, room)
    ensures Chronicled(Stored(job, batch, s, i, r, log))
    ensures StopExplained(job, batch, Stored(job, batch, s, i, r, log), room + 1)
  {
    var t := Stored(job, batch, s, i, r, log);
    StoredChronicled(job, batch, s, i, r, log);
    assert forall q :: 0 <= q < |s.order| ==> t.order[q] == s.order[q] && s.order[q] != i;
    assert forall k :: k != i ==> (AsksToStop(job, batch, t.results, k) <==> AsksToStop(job, batch, s.results, k));
    if s.stop.Some? {
      var p: nat :| StoppedAt(job, batch, s, room, p);
      assert StoppedAt(job, batch, t, room + 1, p);
    } else if t.stop.Some? {
      assert t.order[|s.order|] == i;
      assert StoppedAt(job, batch, t, room + 1, |s.order|);
    }
  }

  // Taking an index; the log turns running once the condition allows the step
  function Taken(batch: seq<Step>, s: BatchState, starts: bool): BatchState
    requires s.next < |batch|
  {
    s.(next := s.next + 1, logs := if starts then s.logs[batch[s.next].id := Running] else s.logs)
  }

  lemma TakenKeepsPool(
    exec: Executor, job: Job, batch: seq<Step>, context: Context, logs0: Logs,
    workers: seq<Worker>, s: BatchState, signal: Signal, w: nat, starts: bool)
    requires DistinctSteps(batch) && BatchPool(exec, job, batch, context, logs0, workers, s, signal)
    requires w < |workers| && workers[w] == AtLoop && s.next < |batch| && s.stop.None?
    ensures batch[s.next].id in s.logs && s.logs[batch[s.next].id].Pending?
    ensures BatchPool(exec, job, batch, context, logs0, workers[w := Busy(s.next)], Taken(batch, s, starts), signal)
  {
    hide StepSettled, Visible, Accounted, AsksToStop;
    TakenKeepsAccounted(workers, w, s.next, s.results);
    var t := Taken(batch, s, starts);
    assert StepProgress(exec, job, batch, context, s, signal, s.next);
    forall j | 0 <= j < |batch| ensures StepProgress(exec, job, batch, context, t, signal, j) {
      assert StepProgress(exec, job, batch, context, s, signal, j);
      if j != s.next {
        assert batch[j].id != batch[s.next].id;
      }
    }
    hide StepProgress, Free;
    assert Chronicled(t) && StopExplained(job, batch, t, Free(workers[w := Busy(s.next)]));
    hide Chronicled, StopExplained;
    assert InSequence(workers[w := Busy(s.next)], t);
    hide InSequence;
  }

  lemma GoneKeepsPool(
    exec: Executor, job: Job, batch: seq<Step>, context: Context, logs0: Logs,
    workers: seq<Worker>, s: BatchState, signal: Signal, w: nat)
    requires BatchPool(exec, job, batch, context, logs0, workers, s, signal)
    requires w < |workers| && workers[w] == AtLoop && (s.stop.Some? || s.next >= |batch|)
    ensures BatchPool(exec, job, batch, context, logs0, workers[w := Returned], s, signal)
  {
    hide StepProgress, Accounted, StopExplained, Untouched, Chronicled, Free;
    GoneKeepsAccounted(workers, w, s.next, s.results, Returned);
    FreeUpdate(workers, w, Returned);
  }

  // One turn of one worker of the batch
  method StepBatch(
    exec: Executor, job: Job, batch: seq<Step>, context: Context, ghost logs0: Logs,
    workers0: seq<Worker>, s0: BatchState, before: Signal, w: nat)
    returns (workers: seq<Worker>, s: BatchState, signal: Signal)
    requires DistinctSteps(batch) && job.maxConcurrency >= 1
    requires forall i :: 0 <= i < |batch| ==> ValidFanOut(batch[i])
    requires BatchPool(exec, job, batch, context, logs0, workers0, s0, before)
    requires w < |workers0| && Alive(workers0[w])
    ensures Later(before, signal)
    ensures BatchPool(exec, job, batch, context, logs0, workers, s, signal) && |workers| == |workers0|
    ensures PoolMeasure(workers, s.next, |batch|) < PoolMeasure(workers0, s0.next, |batch|)
  {
    assert Working(workers0, s0) && |s0.results| == |batch|;
    hide BatchPool;
    s, signal := s0, before;
    match workers0[w]
    case AtLoop =>
      if s.stop.Some? || s.next >= |batch| {
        GoneKeepsPool(exec, job, batch, context, logs0, workers0, s, signal, w);
        WeightUpdate(workers0, w, Returned);
        workers := workers0[w := Returned];
        return;
      }
      var i := s.next;
      var step := batch[i];
      var starts := signal.None? && exec.guard(step, Visible(step, context)).Proceed?;
      TakenKeepsPool(exec, job, batch, context, logs0, workers0, s, signal, w, starts);
      WeightUpdate(workers0, w, Busy(i));
      workers := workers0[w := Busy(i)];
      s := Taken(batch, s, starts);
      if signal.Some? {
        // executeStep throws before the step has a log of its own
        var r := Rejected(Abort(signal.value));
        StoredKeepsPool(exec, job, batch, context, logs0, workers, s, signal, signal, w, i, r, Pending);
        WeightUpdate(workers, w, AtLoop);
        workers := workers[w := AtLoop];
        s := Stored(job, batch, s, i, r, Pending);
      }
    case Busy(i) =>
      var log, r;
      ghost var ending;
      log, r, signal, ending := ExecuteStep(exec, job, batch[i], Visible(batch[i], context), before);
      StoredKeepsPool(exec, job, batch, context, logs0, workers0, s, before, signal, w, i, r, log);
      WeightUpdate(workers0, w, AtLoop);
      workers := workers0[w := AtLoop];
      s := Stored(job, batch, s, i, r, log);
  }

  // A finished batch: every step has a result, unless the failure policy stopped the workers
  ghost predicate BatchDone(
    exec: Executor, job: Job, batch: seq<Step>, context: Context, logs0: Logs, s: BatchState, signal: Signal) {
    && |s.results| == |batch|
    && Untouched(batch, logs0, s.logs)
    && BatchStop(job, batch, s)
    && (forall i :: 0 <= i < |batch| ==>
      batch[i].id in s.logs &&
      match s.results[i]
      case Some(r) => StepSettled(exec, job, batch[i], Visible(batch[i], context), s.logs[batch[i].id], r, signal)
      case None => s.stop.Some? && s.logs[batch[i].id].Pending?)
    && (batch != [] ==> exists i :: 0 <= i < |batch| && s.results[i].Some?)
  }

  // The batch was stopped exactly when a result asked for it, by the first one that did; no more steps than there may
  // be at once ended from then on, and those that were started are the first in ORDER
  ghost predicate BatchStop(job: Job, batch: seq<Step>, s: BatchState)
    requires |s.results| == |batch|
  {
    && (s.stop.Some? <==> exists i :: AsksToStop(job, batch, s.results, i))
    && Chronicled(s) && StopExplained(job, batch, s, job.maxConcurrency)
    && (forall i, j :: 0 <= i < j < |batch| && s.results[j].Some? ==> s.results[i].Some?)
    && (job.maxConcurrency == 1 ==> forall q :: 0 <= q < |s.order| ==> s.order[q] == q)
  }

  // With one step at a time, nothing after the step that asked for the stop was started
  lemma OneAtATimeStops(job: Job, batch: seq<Step>, s: BatchState, i: nat, k: nat)
    requires |s.results| == |batch| && BatchStop(job, batch, s) && job.maxConcurrency == 1
    requires AsksToStop(job, batch, s.results, i) && i < k < |batch|
    ensures s.results[k].None?
  {
    assert s.stop.Some?;
    var p: nat :| StoppedAt(job, batch, s, 1, p);
    assert i in s.order;
    var q :| 0 <= q < |s.order| && s.order[q] == i;
    hide AsksToStop;
    assert s.results[k].Some? ==> k in s.order;
  }

  lemma PoolStop(workers: seq<Worker>, job: Job, batch: seq<Step>, s: BatchState)
    requires |s.results| == |batch| && 0 < |workers| <= job.maxConcurrency
    requires Chronicled(s) && StopExplained(job, batch, s, Free(workers)) && InSequence(workers, s)
    requires forall i :: 0 <= i < |batch| ==> (s.results[i].Some? <==> i < s.next)
    ensures BatchStop(job, batch, s)
  {
    FreeWithin(workers);
    hide AsksToStop, Free;
    if s.stop.Some? {
      var p: nat :| StoppedAt(job, batch, s, Free(workers), p);
      assert AsksToStop(job, batch, s.results, s.order[p]);
      assert StoppedAt(job, batch, s, job.maxConcurrency, p);
    } else {
      forall i ensures !AsksToStop(job, batch, s.results, i) {
        AsksInside(job, batch, s.results, i);
      }
    }
  }

  lemma AsksInside(job: Job, batch: seq<Step>, results: seq<Option<StepResult>>, i: nat)
    ensures AsksToStop(job, batch, results, i) ==> i < |batch|
  {
  }

  lemma PoolEnds(
    exec: Executor, job: Job, batch: seq<Step>, context: Context, logs0: Logs,
    workers: seq<Worker>, s: BatchState, signal: Signal)
    requires BatchPool(exec, job, batch, context, logs0, workers, s, signal) && |workers| <= job.maxConcurrency
    requires forall v :: 0 <= v < |workers| ==> !Alive(workers[v])
    ensures BatchDone(exec, job, batch, context, logs0, s, signal)
  {
    assert !Alive(workers[0]);
    forall i | 0 <= i < |batch| ensures s.results[i].Some? <==> i < s.next {
      assert StepProgress(exec, job, batch, context, s, signal, i);
      assert Busy(i) !in workers;
    }
    hide StepSettled, Visible, Accounted, Working, Chronicled, StopExplained, InSequence, Free;
    PoolStop(workers, job, batch, s);
    hide BatchStop;
    forall i | 0 <= i < |batch|
      ensures batch[i].id in s.logs
      ensures match s.results[i]
        case Some(r) => StepSettled(exec, job, batch[i], Visible(batch[i], context), s.logs[batch[i].id], r, signal)
        case None => s.stop.Some? && s.logs[batch[i].id].Pending?
    {
      assert StepProgress(exec, job, batch, context, s, signal, i);
    }
    if batch != [] && s.stop.None? {
      assert s.results[0].Some?;
    }
  }

  method RunStepsWithConcurrency(
    exec: Executor, job: Job, batch: seq<Step>, context: Context, logs0: Logs, before: Signal)
    returns (s: BatchState, signal: Signal, ghost pool: nat)
    requires DistinctSteps(batch) && batch != [] && job.maxConcurrency >= 1
    requires forall i :: 0 <= i < |batch| ==> ValidFanOut(batch[i])
    requires forall i :: 0 <= i < |batch| ==> batch[i].id in logs0 && logs0[batch[i].id].Pending?
    ensures Later(before, signal)
    ensures BatchDone(exec, job, batch, context, logs0, s, signal)
    // As many workers as there may be, but no more than steps
    ensures pool <= job.maxConcurrency && pool <= |batch| && (pool == job.maxConcurrency || pool == |batch|)
  {
    s := BatchState(0, seq(|batch|, _ => None), None, logs0, []);
    signal := before;
    var workers: seq<Worker> := seq(Least(job.maxConcurrency, |batch|), _ => AtLoop);
    pool := |workers|;
    assert BatchPool(exec, job, batch, context, logs0, workers, s, signal);
    hide BatchPool;
    var w: Option<nat> := NextAlive(workers);
    while w.Some?
      invariant Later(before, signal)
      invariant BatchPool(exec, job, batch, context, logs0, workers, s, signal) && |workers| == pool
      invariant w.Some? ==> w.value < |workers| && Alive(workers[w.value])
      invariant w.None? ==> forall v :: 0 <= v < |workers| ==> !Alive(workers[v])
      decreases PoolMeasure(workers, s.next, |batch|), w.Some?
    {
      workers, s, signal := StepBatch(exec, job, batch, context, logs0, workers, s, signal, w.value);
      w := NextAlive(workers);
    }
    PoolEnds(exec, job, batch, context, logs0, workers, s, signal);
  }
}
