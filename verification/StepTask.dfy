/**
 * What a worker does with one step (executeStep and below in src/core/JobRunner.ts):
 * its condition, its attempts and its fan-out, under an abort signal that may fire at any await.
 */
module StepTask {
  import opened Wrappers
  import opened Graph
  import opened Jobs
  import opened JsonValues
  import opened Validator
  import opened RunSpec

  // The abort signal: None until it fires, then its reason for good
  type Signal = Option<AbortCode>

  predicate Later(before: Signal, after: Signal) {
    before.Some? ==> after == before
  }

  // An await: other work runs, and the signal may fire
  method Await(before: Signal) returns (after: Signal)
    ensures Later(before, after)
  {
    after := before;
    if before.None? {
      if * {
        after := Some(ExecutionCancelled);
      } else if * {
        after := Some(JobTimeout);
      } else if * {
        after := Some(ServerInterrupted);
      }
    }
  }

  // How a task ends: by itself, or thrown out by the signal
  datatype Ending = Settled(outcome: Outcome) | Aborted

  datatype AttemptStatus = Succeeded | FailedAttempt | CancelledAttempt

  // ----- Retries -----

  // The delay before the attempt after number n; doubling when exponential
  function CalculateDelay(retry: Retry, n: nat): nat
    requires n >= 1
  {
    if retry.backoff.Exponential? then retry.delayMs * Pow2(n - 1) else retry.delayMs
  }

  function Pow2(n: nat): nat {
    if n == 0 then 1 else 2 * Pow2(n - 1)
  }

  // The delays after the attempts 1 .. n
  function TotalDelay(retry: Retry, n: nat): nat {
    if n == 0 then 0 else TotalDelay(retry, n - 1) + CalculateDelay(retry, n)
  }

  lemma Distribute(d: nat, a: int, b: int)
    ensures d * a + d * b == d * (a + b)
  {
  }

  // Exponential backoff waits one delay less than the next power of two; fixed backoff one delay per retry
  lemma {:induction false} TotalDelayClosed(retry: Retry, n: nat)
    ensures TotalDelay(retry, n) == retry.delayMs * if retry.backoff.Exponential? then Pow2(n) - 1 else n
  {
    if n > 0 {
      TotalDelayClosed(retry, n - 1);
      if retry.backoff.Exponential? {
        Distribute(retry.delayMs, Pow2(n - 1) - 1, Pow2(n - 1));
      } else {
        Distribute(retry.delayMs, n - 1, 1);
      }
    }
  }

  // The attempts that were logged: numbered from 1, and only the last may have succeeded
  ghost predicate AttemptsLogged(log: seq<AttemptStatus>, max: nat) {
    |log| <= max && forall k :: 0 <= k < |log| - 1 ==> log[k] == FailedAttempt
  }

  method ExecuteWithRetry(exec: Executor, job: Job, step: Step, ctx: Context, target: Target, before: Signal)
    returns (r: Ending, signal: Signal, log: seq<AttemptStatus>, waited: nat)
    ensures Later(before, signal)
    ensures r.Settled? ==> r.outcome == Attempts(exec, job, step, ctx, target)
    ensures r.Aborted? ==> signal.Some?
    ensures r.Settled? && log != [] ==> log[|log| - 1] == if r.outcome.Done? then Succeeded else FailedAttempt
    // The step's own policy comes first, then the job's, then a single attempt and fixed delays of a second
    ensures var max := if step.retry.maxAttempts.Some? then step.retry.maxAttempts.value
        else if job.defaultRetry.maxAttempts.Some? then job.defaultRetry.maxAttempts.value else 1;
      && AttemptsLogged(log, max)
      && (r.Settled? ==> FirstSuccessOrLastFailure(exec, step, ctx, target, max, 1, NO_ERROR, r.outcome))
      && (r.Settled? && r.outcome.Crash? ==> |log| == max)
      && (r.Settled? && r.outcome.Done? ==> log != [] && exec.attempt(step, ctx, target, |log|) == r.outcome)
      && (before.Some? && max > 0 ==> r.Aborted? && log == [])
    ensures var delayMs := if step.retry.delayMs.Some? then step.retry.delayMs.value
        else if job.defaultRetry.delayMs.Some? then job.defaultRetry.delayMs.value else 1000;
      var backoff := if step.retry.backoff.Some? then step.retry.backoff.value
        else if job.defaultRetry.backoff.Some? then job.defaultRetry.backoff.value else Fixed;
      r.Settled? && log != [] ==> waited == delayMs * if backoff.Exponential? then Pow2(|log| - 1) - 1 else |log| - 1
  {
    var retry := ResolveRetry(job.defaultRetry, step.retry);
    r, signal, log, waited := AttemptUntilDone(exec, step, ctx, target, retry, before);
    RetriesDecide(exec, step, ctx, target, retry.maxAttempts, 1, NO_ERROR);
    if log != [] {
      TotalDelayClosed(retry, |log| - 1);
    }
    hide RetryFrom, TotalDelay, FirstSuccessOrLastFailure, Pow2;
  }

  // The attempts under a policy
  method AttemptUntilDone(exec: Executor, step: Step, ctx: Context, target: Target, retry: Retry, before: Signal)
    returns (r: Ending, signal: Signal, log: seq<AttemptStatus>, waited: nat)
    ensures Later(before, signal)
    ensures r.Settled? ==> r.outcome == RetryFrom(exec, step, ctx, target, retry.maxAttempts, 1, NO_ERROR)
    ensures r.Aborted? ==> signal.Some?
    ensures AttemptsLogged(log, retry.maxAttempts)
    ensures r.Settled? && log != [] ==> log[|log| - 1] == if r.outcome.Done? then Succeeded else FailedAttempt
    ensures r.Settled? && log != [] ==> waited == TotalDelay(retry, |log| - 1)
    ensures r.Settled? && r.outcome.Crash? ==> |log| == retry.maxAttempts
    ensures r.Settled? && r.outcome.Done? ==> log != [] && exec.attempt(step, ctx, target, |log|) == r.outcome
    ensures before.Some? && retry.maxAttempts > 0 ==> r.Aborted? && log == []
  {
    signal, log, waited := before, [], 0;
    var lastError := NO_ERROR;
    for n := 1 to retry.maxAttempts + 1
      invariant Later(before, signal) && (before.Some? ==> n == 1)
      invariant |log| == n - 1 && forall k :: 0 <= k < |log| ==> log[k] == FailedAttempt
      invariant RetryFrom(exec, step, ctx, target, retry.maxAttempts, 1, NO_ERROR) ==
        RetryFrom(exec, step, ctx, target, retry.maxAttempts, n, lastError)
      invariant waited == TotalDelay(retry, if n <= retry.maxAttempts then n - 1 else if n >= 2 then n - 2 else 0)
    {
      if signal.Some? {
        return Aborted, signal, log, waited;
      }
      signal := Await(signal); // attemptStarted
      var outcome := exec.attempt(step, ctx, target, n);
      signal := Await(signal); // a limiter permit and the executor itself
      if signal.Some? {
        return Aborted, signal, log + [CancelledAttempt], waited;
      }
      if outcome.Done? {
        signal := Await(signal); // attemptFinished
        return Settled(outcome), signal, log + [Succeeded], waited;
      }
      lastError := outcome.error;
      log := log + [FailedAttempt];
      signal := Await(signal); // attemptFinished
      if n < retry.maxAttempts {
        if signal.Some? {
          return Aborted, signal, log, waited;
        }
        waited := waited + CalculateDelay(retry, n);
        signal := Await(signal); // abortableDelay
        if signal.Some? {
          return Aborted, signal, log, waited;
        }
      }
    }
    return Settled(Crash(lastError)), signal, log, waited;
  }

  // ----- Pools of interleaved workers -----

  // A worker of a pool, suspended: before taking an index, on an index, or gone
  datatype Worker = AtLoop | Busy(index: nat) | Returned | Threw

  predicate Alive(w: Worker) {
    w.AtLoop? || w.Busy?
  }

  function Weight(workers: seq<Worker>): nat {
    if workers == [] then 0
    else Weight(workers[..|workers| - 1]) + WorkerWeight(workers[|workers| - 1])
  }

  function WorkerWeight(w: Worker): nat {
    match w case AtLoop => 1 case Busy(_) => 2 case _ => 0
  }

  lemma {:induction false} WeightUpdate(workers: seq<Worker>, i: nat, w: Worker)
    requires i < |workers|
    ensures Weight(workers[i := w]) == Weight(workers) - WorkerWeight(workers[i]) + WorkerWeight(w)
  {
    var last := |workers| - 1;
    if i < last {
      WeightUpdate(workers[..last], i, w);
      assert workers[i := w][..last] == workers[..last][i := w];
    } else {
      assert workers[i := w][..last] == workers[..last];
    }
  }

  // How much a pool can still do: every step of a worker lowers it
  function PoolMeasure(workers: seq<Worker>, next: nat, size: nat): nat {
    Weight(workers) + if next < size then 3 * (size - next) else 0
  }

  // The scheduler resumes any worker that is not gone
  method NextAlive(workers: seq<Worker>) returns (w: Option<nat>)
    ensures w.Some? ==> w.value < |workers| && Alive(workers[w.value])
    ensures w.None? ==> forall i :: 0 <= i < |workers| ==> !Alive(workers[i])
  {
    if exists i :: 0 <= i < |workers| && Alive(workers[i]) {
      var i :| 0 <= i < |workers| && Alive(workers[i]);
      return Some(i);
    }
    return None;
  }

  // ----- Fan-out -----

  ghost predicate ItemEnds(exec: Executor, job: Job, step: Step, ctx: Context, items: seq<Json>, i: nat, r: Ending, signal: Signal)
    requires i < |items|
  {
    match r
    case Settled(o) => o == Attempts(exec, job, step, ctx, Item(i, items[i]))
    case Aborted => signal.Some?
  }

  // Every index taken has its result, or a worker is on it
  ghost predicate Accounted<T>(workers: seq<Worker>, next: nat, results: seq<Option<T>>) {
    forall i :: 0 <= i < |results| && i < next && results[i].None? ==> Busy(i) in workers
  }

  lemma TakenKeepsAccounted<T>(workers: seq<Worker>, w: nat, next: nat, results: seq<Option<T>>)
    requires Accounted(workers, next, results) && w < |workers| && workers[w] == AtLoop
    ensures Accounted(workers[w := Busy(next)], next + 1, results)
  {
    forall i | 0 <= i < |results| && i < next + 1 && results[i].None? ensures Busy(i) in workers[w := Busy(next)] {
      if i < next {
        var v :| 0 <= v < |workers| && workers[v] == Busy(i);
        assert workers[w := Busy(next)][v] == Busy(i);
      } else {
        assert workers[w := Busy(next)][w] == Busy(i);
      }
    }
  }

  lemma DoneKeepsAccounted<T>(workers: seq<Worker>, w: nat, next: nat, results: seq<Option<T>>, i: nat, r: T)
    requires Accounted(workers, next, results) && w < |workers| && workers[w] == Busy(i) && i < |results|
    ensures Accounted(workers[w := AtLoop], next, results[i := Some(r)])
  {
    forall j | 0 <= j < |results| && j < next && results[i := Some(r)][j].None? ensures Busy(j) in workers[w := AtLoop] {
      var v :| 0 <= v < |workers| && workers[v] == Busy(j);
      assert workers[w := AtLoop][v] == Busy(j);
    }
  }

  lemma GoneKeepsAccounted<T>(workers: seq<Worker>, w: nat, next: nat, results: seq<Option<T>>, gone: Worker)
    requires Accounted(workers, next, results) && w < |workers| && workers[w] == AtLoop
    ensures Accounted(workers[w := gone], next, results)
  {
    forall j | 0 <= j < |results| && j < next && results[j].None? ensures Busy(j) in workers[w := gone] {
      var v :| 0 <= v < |workers| && workers[v] == Busy(j);
      assert workers[w := gone][v] == Busy(j);
    }
  }

  ghost predicate FanOutPool(
    exec: Executor, job: Job, step: Step, ctx: Context, items: seq<Json>,
    workers: seq<Worker>, next: nat, results: seq<Option<Ending>>, signal: Signal) {
    && |results| == |items| && workers != []
    && Accounted(workers, next, results)
    && (forall i :: 0 <= i < |items| && results[i].Some? ==>
      ItemEnds(exec, job, step, ctx, items, i, results[i].value, signal))
    && (forall v :: 0 <= v < |workers| && workers[v].Busy? ==> workers[v].index < |items|)
    && (forall v :: 0 <= v < |workers| && workers[v].Returned? ==> next >= |items|)
    && (forall v :: 0 <= v < |workers| && workers[v].Threw? ==> signal.Some?)
  }

  // With every worker gone and no abort, every item has settled
  lemma FanOutFinished(
    exec: Executor, job: Job, step: Step, ctx: Context, items: seq<Json>,
    workers: seq<Worker>, next: nat, results: seq<Option<Ending>>)
    requires FanOutPool(exec, job, step, ctx, items, workers, next, results, None)
    requires forall v :: 0 <= v < |workers| ==> !Alive(workers[v])
    ensures forall i :: 0 <= i < |items| ==>
      results[i] == Some(Settled(Attempts(exec, job, step, ctx, Item(i, items[i]))))
  {
    assert !Alive(workers[0]);
    forall i | 0 <= i < |items| ensures results[i].Some? {
      assert Busy(i) !in workers;
    }
  }

  // One turn of one fan-out worker
  method StepFanOut(
    exec: Executor, job: Job, step: Step, ctx: Context, items: seq<Json>,
    workers0: seq<Worker>, next0: nat, results0: seq<Option<Ending>>, before: Signal, w: nat)
    returns (workers: seq<Worker>, next: nat, results: seq<Option<Ending>>, signal: Signal)
    requires FanOutPool(exec, job, step, ctx, items, workers0, next0, results0, before)
    requires w < |workers0| && Alive(workers0[w])
    ensures Later(before, signal)
    ensures FanOutPool(exec, job, step, ctx, items, workers, next, results, signal)
    ensures PoolMeasure(workers, next, |items|) < PoolMeasure(workers0, next0, |items|)
  {
    next, results, signal := next0, results0, before;
    match workers0[w]
    case AtLoop =>
      var gone := if signal.Some? then Threw else Returned;
      if signal.Some? || next >= |items| {
        GoneKeepsAccounted(workers0, w, next, results, gone);
        WeightUpdate(workers0, w, gone);
        workers := workers0[w := gone];
      } else {
        TakenKeepsAccounted(workers0, w, next, results);
        WeightUpdate(workers0, w, Busy(next));
        workers := workers0[w := Busy(next)];
        next := next + 1;
      }
    case Busy(i) =>
      var r, log, waited;
      r, signal, log, waited := ExecuteWithRetry(exec, job, step, ctx, Item(i, items[i]), before);
      DoneKeepsAccounted(workers0, w, next, results, i, r);
      WeightUpdate(workers0, w, AtLoop);
      workers := workers0[w := AtLoop];
      results := results[i := Some(r)];
  }

  // How many workers a fan-out of so many items gets: FOREACH.MAX_CONCURRENCY if the step has one, MAX_CONCURRENCY
  // and the number of items each allow no more
  ghost predicate IsPool(job: Job, step: Step, items: nat, pool: nat)
    requires step.foreach.Some?
  {
    var own := step.foreach.value.maxConcurrency;
    && pool <= items && pool <= job.maxConcurrency && (own.Some? ==> pool <= own.value)
    && (pool == items || pool == job.maxConcurrency || own == Some(pool))
  }

  method ExecuteFanOut(exec: Executor, job: Job, step: Step, ctx: Context, before: Signal)
    returns (r: Ending, signal: Signal, ghost pool: nat)
    requires step.foreach.Some? && job.maxConcurrency >= 1 && ValidFanOut(step)
    ensures Later(before, signal)
    ensures r.Settled? ==> StepEnds(exec, job, step, ctx, r.outcome)
    ensures r.Aborted? ==> signal.Some?
    ensures IsPool(job, step, match exec.items(step, ctx) case Ok(items) => |items| case Err(_) => 0, pool)
  {
    signal, pool := before, 0;
    var resolved := exec.items(step, ctx);
    if resolved.Err? {
      return Settled(Crash(resolved.error)), signal, pool;
    }
    var items := resolved.value;
    if items == [] {
      return Settled(Done(JsonArray([]))), signal, pool;
    }
    var results: seq<Option<Ending>> := seq(|items|, _ => None);
    var next: nat := 0;
    var fanOutConcurrency := Least(|items|, Least(Or(step.foreach.value.maxConcurrency, None, job.maxConcurrency), job.maxConcurrency));
    var workers: seq<Worker> := seq(fanOutConcurrency, _ => AtLoop);
    pool := |workers|;
    var w: Option<nat> := NextAlive(workers);
    while w.Some?
      invariant Later(before, signal)
      invariant FanOutPool(exec, job, step, ctx, items, workers, next, results, signal)
      invariant w.Some? ==> w.value < |workers| && Alive(workers[w.value])
      invariant w.None? ==> forall v :: 0 <= v < |workers| ==> !Alive(workers[v])
      decreases PoolMeasure(workers, next, |items|), w.Some?
    {
      workers, next, results, signal :=
        StepFanOut(exec, job, step, ctx, items, workers, next, results, signal, w.value);
      w := NextAlive(workers);
    }
    if signal.Some? {
      return Aborted, signal, pool;
    }
    FanOutFinished(exec, job, step, ctx, items, workers, next, results);
    var outcome := Gather(exec, job, step, ctx, items, results);
    return Settled(outcome), signal, pool;
  }

  function Least(a: nat, b: nat): nat {
    if a < b then a else b
  }

  // The first error in item order, or the collected outputs
  method Gather(
    exec: Executor, job: Job, step: Step, ctx: Context, items: seq<Json>, results: seq<Option<Ending>>)
    returns (r: Outcome)
    requires |results| == |items|
    requires forall i :: 0 <= i < |items| ==>
      results[i] == Some(Settled(Attempts(exec, job, step, ctx, Item(i, items[i]))))
    ensures FanOutEnds(exec, job, step, ctx, items, r)
  {
    var outputs := [];
    for i := 0 to |items|
      invariant |outputs| == i
      invariant forall k :: 0 <= k < i ==> Attempts(exec, job, step, ctx, Item(k, items[k])) == Done(outputs[k])
    {
      match results[i].value.outcome
      case Crash(e) => return Crash(FanOutError(i, e));
      case Done(v) => outputs := outputs + [v];
    }
    return Done(JsonArray(outputs));
  }

  // ----- One step of a batch -----

  datatype Problem = Failure(error: Error) | Abort(code: AbortCode)

  datatype StepResult = Fulfilled(output: Json) | Rejected(problem: Problem)

  // The log a batch leaves for a step, against the result it hands to the run loop
  ghost predicate StepSettled(
    exec: Executor, job: Job, step: Step, ctx: Context, log: StepLog, result: StepResult, signal: Signal) {
    match result
    case Fulfilled(v) => log.Satisfied() && !log.Reused? && log.Output() == v && Ran(exec, job, step, ctx, log)
    case Rejected(Failure(e)) => log == Failed(e) && Ran(exec, job, step, ctx, log)
    case Rejected(Abort(code)) =>
      signal == Some(code) && (log.Pending? || log == if code.ServerInterrupted? then Interrupted else Cancelled)
  }

  ghost predicate KeepsSuccess(ending: Ending, log: StepLog, result: StepResult) {
    ending.Settled? && ending.outcome.Done? ==>
      log == Success(ending.outcome.value) && result == Fulfilled(ending.outcome.value)
  }

  // What the condition says decides; a step that was started keeps its success even if an abort came first
  method ExecuteStep(exec: Executor, job: Job, step: Step, ctx: Context, before: Signal)
    returns (log: StepLog, result: StepResult, signal: Signal, ghost ending: Option<Ending>)
    requires job.maxConcurrency >= 1 && ValidFanOut(step)
    ensures Later(before, signal)
    ensures StepSettled(exec, job, step, ctx, log, result, signal) && !log.Pending?
    ensures match exec.guard(step, ctx)
      case Decline => ending.None? && log == Declined && result == Fulfilled(JsonNull)
      case Broken(e) => ending.None? && log == Failed(e) && result == Rejected(Failure(e))
      case Proceed => ending.Some? && KeepsSuccess(ending.value, log, result)
  {
    ending := None;
    match exec.guard(step, ctx) {
      case Decline =>
        signal := Await(before);
        return Declined, Fulfilled(JsonNull), signal, None;
      case Broken(e) =>
        signal := Await(before);
        return Failed(e), Rejected(Failure(e)), signal, None;
      case Proceed =>
    }
    signal := Await(before); // stepStarted
    var r;
    if step.foreach.None? {
      var attempts, waited;
      r, signal, attempts, waited := ExecuteWithRetry(exec, job, step, ctx, Whole, signal);
    } else {
      ghost var pool;
      r, signal, pool := ExecuteFanOut(exec, job, step, ctx, signal);
    }
    ending := Some(r);
    if r.Settled? && r.outcome.Done? {
      log, result := Success(r.outcome.value), Fulfilled(r.outcome.value);
    } else if signal.Some? {
      log := if signal.value.ServerInterrupted? then Interrupted else Cancelled;
      result := Rejected(Abort(signal.value));
    } else {
      log, result := Failed(r.outcome.error), Rejected(Failure(r.outcome.error));
    }
    signal := Await(signal); // stepFinished
  }
}
