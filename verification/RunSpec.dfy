/**
 * What a job run means, with no scheduler in sight: the log every step must end with,
 * given the logs of its dependencies.
 */
module RunSpec {
  import opened Wrappers
  import opened Graph
  import opened JobGraph
  import opened Levels
  import opened Jobs
  import opened JsonValues
  import opened Validator

  datatype Error = Error(code: string, message: string) | FanOutError(index: nat, cause: Error)

  datatype Outcome = Done(value: Json) | Crash(error: Error)

  // Outputs by step id
  type Context = map<Id, Json>

  datatype Guard = Proceed | Decline | Broken(error: Error)

  datatype Target = Whole | Item(index: nat, value: Json)

  // The world outside the runner: conditions, FOREACH lists and executors, as functions of a step,
  // the outputs of its dependencies, the item and the number of the attempt
  datatype Executor = Executor(
    guard: (Step, Context) -> Guard,
    items: (Step, Context) -> Result<seq<Json>, Error>,
    attempt: (Step, Context, Target, nat) -> Outcome)

  // A retry policy with its defaults filled in
  datatype Retry = Retry(maxAttempts: nat, delayMs: nat, backoff: Backoff)

  function Or<T>(first: Option<T>, second: Option<T>, default: T): T {
    if first.Some? then first.value else if second.Some? then second.value else default
  }

  function ResolveRetry(defaultPolicy: RetryPolicy, stepPolicy: RetryPolicy): Retry {
    Retry(
      Or(stepPolicy.maxAttempts, defaultPolicy.maxAttempts, 1),
      Or(stepPolicy.delayMs, defaultPolicy.delayMs, 1000),
      Or(stepPolicy.backoff, defaultPolicy.backoff, Fixed))
  }

  // ----- One step -----

  // The outcome of the attempts n .. max, when the attempts before n ended in last
  function RetryFrom(exec: Executor, step: Step, ctx: Context, target: Target, max: nat, n: nat, last: Error): Outcome
    decreases max + 1 - n
  {
    if n > max then Crash(last)
    else
      match exec.attempt(step, ctx, target, n)
      case Done(v) => Done(v)
      case Crash(e) => RetryFrom(exec, step, ctx, target, max, n + 1, e)
  }

  const NO_ERROR := Error("STEP_FAILED", "failed without returning an error.")

  function Attempts(exec: Executor, job: Job, step: Step, ctx: Context, target: Target): Outcome {
    RetryFrom(exec, step, ctx, target, ResolveRetry(job.defaultRetry, step.retry).maxAttempts, 1, NO_ERROR)
  }

  // The first attempt that succeeds decides; if none does, the error of the last one is reported
  ghost predicate FirstSuccessOrLastFailure(
    exec: Executor, step: Step, ctx: Context, target: Target, max: nat, n: nat, last: Error, r: Outcome) {
    match r
    case Done(v) =>
      exists k :: n <= k <= max && exec.attempt(step, ctx, target, k) == Done(v) &&
        forall j :: n <= j < k ==> exec.attempt(step, ctx, target, j).Crash?
    case Crash(e) =>
      && (forall j :: n <= j <= max ==> exec.attempt(step, ctx, target, j).Crash?)
      && (if n <= max then exec.attempt(step, ctx, target, max) == Crash(e) else e == last)
  }

  lemma {:induction false} RetriesDecide(
    exec: Executor, step: Step, ctx: Context, target: Target, max: nat, n: nat, last: Error)
    ensures FirstSuccessOrLastFailure(exec, step, ctx, target, max, n, last, RetryFrom(exec, step, ctx, target, max, n, last))
    decreases max + 1 - n
  {
    if n <= max {
      match exec.attempt(step, ctx, target, n)
      case Done(v) =>
      case Crash(e) => RetriesDecide(exec, step, ctx, target, max, n + 1, e);
    }
  }

  // The items succeed together, in item order, or the lowest failing index is reported
  ghost predicate FanOutEnds(exec: Executor, job: Job, step: Step, ctx: Context, items: seq<Json>, r: Outcome) {
    match r
    case Done(v) =>
      v.JsonArray? && |v.items| == |items| &&
      forall i :: 0 <= i < |items| ==> Attempts(exec, job, step, ctx, Item(i, items[i])) == Done(v.items[i])
    case Crash(e) =>
      e.FanOutError? && e.index < |items| &&
      Attempts(exec, job, step, ctx, Item(e.index, items[e.index])) == Crash(e.cause) &&
      forall i :: 0 <= i < e.index ==> Attempts(exec, job, step, ctx, Item(i, items[i])).Done?
  }

  ghost predicate StepEnds(exec: Executor, job: Job, step: Step, ctx: Context, r: Outcome) {
    if step.foreach.None? then r == Attempts(exec, job, step, ctx, Whole)
    else match exec.items(step, ctx)
      case Err(e) => r == Crash(e)
      case Ok(items) => FanOutEnds(exec, job, step, ctx, items, r)
  }

  // A step has one outcome
  lemma StepEndsOnce(exec: Executor, job: Job, step: Step, ctx: Context, r: Outcome, s: Outcome)
    requires StepEnds(exec, job, step, ctx, r) && StepEnds(exec, job, step, ctx, s)
    ensures r == s
  {
    if step.foreach.Some? && exec.items(step, ctx).Ok? {
      var items := exec.items(step, ctx).value;
      match (r, s) {
        case (Done(v), Done(w)) =>
          forall i | 0 <= i < |items| ensures v.items[i] == w.items[i] {
            assert Attempts(exec, job, step, ctx, Item(i, items[i])) == Done(v.items[i]);
          }
        case (_, _) =>
      }
    }
  }

  // ----- All steps -----

  datatype AbortCode = ExecutionCancelled | JobTimeout | ServerInterrupted

  datatype StepLog =
    | Pending
    | Running
    | Success(output: Json)
    | Failed(error: Error)
    | Cancelled      // aborted while running, or dropped by the failure policy
    | Interrupted    // aborted by a server shutdown: recorded as failed
    | Declined       // skipped: its WHEN condition was false
    | Blocked        // skipped: a dependency did not succeed
    | Outside        // skipped: not in the selected closure
    | Reused(output: Json)
  {
    // A dependent may use this step
    predicate Satisfied() {
      Success? || Declined? || Reused?
    }

    // A dependent can never run
    predicate Unsatisfied() {
      Failed? || Blocked?
    }

    function Output(): Json
      requires Satisfied()
    {
      if Declined? then JsonNull else output
    }
  }

  type Logs = map<Id, StepLog>

  // Which steps a run is for: a test or resume selects a closure, a resume reuses outputs
  datatype Options = Options(selected: Option<set<Id>>, reused: map<Id, Json>)

  const EVERYTHING := Options(None, map[])

  function InitialLog(opts: Options, id: Id): StepLog {
    if id in opts.reused then Reused(opts.reused[id])
    else if opts.selected.Some? && id !in opts.selected.value then Outside
    else Pending
  }

  ghost predicate Covers(job: Job, logs: Logs) {
    forall x :: x in logs <==> HasStep(job.steps, x)
  }

  // The outputs a step's conditions and executor see
  function Inputs(step: Step, logs: Logs): Context {
    map d | d in step.dependsOn && d in logs && logs[d].Satisfied() :: logs[d].Output()
  }

  ghost predicate AllSatisfied(step: Step, logs: Logs) {
    forall j :: 0 <= j < |step.dependsOn| ==> step.dependsOn[j] in logs && logs[step.dependsOn[j]].Satisfied()
  }

  ghost predicate SomeUnsatisfied(step: Step, logs: Logs) {
    exists j :: 0 <= j < |step.dependsOn| && step.dependsOn[j] in logs && logs[step.dependsOn[j]].Unsatisfied()
  }

  // The log of a step that was started on ctx and ended by itself
  ghost predicate Ran(exec: Executor, job: Job, step: Step, ctx: Context, log: StepLog) {
    match exec.guard(step, ctx)
    case Decline => log == Declined
    case Broken(e) => log == Failed(e)
    case Proceed =>
      match log
      case Success(v) => StepEnds(exec, job, step, ctx, Done(v))
      case Failed(e) => StepEnds(exec, job, step, ctx, Crash(e))
      case _ => false
  }

  lemma RanOnce(exec: Executor, job: Job, step: Step, ctx: Context, log: StepLog, other: StepLog)
    requires Ran(exec, job, step, ctx, log) && Ran(exec, job, step, ctx, other)
    ensures log == other
  {
    if exec.guard(step, ctx).Proceed? {
      var r := if log.Success? then Done(log.output) else Crash(log.error);
      var s := if other.Success? then Done(other.output) else Crash(other.error);
      StepEndsOnce(exec, job, step, ctx, r, s);
    }
  }

  // The verdict logs of a run
  predicate Final(log: StepLog) {
    log.Success? || log.Failed? || log.Declined? || log.Blocked?
  }

  // A verdict follows from the logs of the dependencies
  ghost predicate Explained(exec: Executor, job: Job, logs: Logs, step: Step)
    requires step.id in logs
  {
    var log := logs[step.id];
    && (log.Success? || log.Failed? || log.Declined? ==>
      AllSatisfied(step, logs) && Ran(exec, job, step, Inputs(step, logs), log))
    && (log.Blocked? ==> SomeUnsatisfied(step, logs))
  }

  // No log contradicts the meaning of the job; holds of every run, finished or not
  ghost predicate Justified(exec: Executor, job: Job, opts: Options, logs: Logs) {
    && Covers(job, logs)
    && (forall i :: 0 <= i < |job.steps| ==> Explained(exec, job, logs, job.steps[i]))
    && (forall x :: x in logs && !InitialLog(opts, x).Pending? ==> logs[x] == InitialLog(opts, x))
    && (forall x :: x in logs && InitialLog(opts, x).Pending? ==> !logs[x].Outside? && !logs[x].Reused?)
  }

  // Every selected step has its verdict
  ghost predicate Complete(exec: Executor, job: Job, opts: Options, logs: Logs) {
    && Justified(exec, job, opts, logs)
    && (forall x :: x in logs && InitialLog(opts, x).Pending? ==> Final(logs[x]))
  }

  // A cancelled step that could never start: it lacks a dependency, and none failed
  ghost predicate CutOff(step: Step, logs: Logs) {
    !AllSatisfied(step, logs) && !SomeUnsatisfied(step, logs)
  }

  // Every selected step has its verdict, or was cancelled when nothing could start any more
  ghost predicate Exhausted(exec: Executor, job: Job, opts: Options, logs: Logs) {
    && Justified(exec, job, opts, logs)
    && (forall i :: 0 <= i < |job.steps| && InitialLog(opts, job.steps[i].id).Pending? ==> IsOver(job.steps[i], logs))
  }

  ghost predicate IsOver(step: Step, logs: Logs) {
    step.id in logs && (Final(logs[step.id]) || (logs[step.id].Cancelled? && CutOff(step, logs)))
  }

  lemma CompleteIsExhausted(exec: Executor, job: Job, opts: Options, logs: Logs)
    requires Complete(exec, job, opts, logs)
    ensures Exhausted(exec, job, opts, logs)
  {
    hide Explained, CutOff;
    forall i | 0 <= i < |job.steps| && InitialLog(opts, job.steps[i].id).Pending? ensures IsOver(job.steps[i], logs) {
      assert HasStep(job.steps, job.steps[i].id);
    }
  }

  lemma StepOf(job: Job, x: Id) returns (i: nat)
    requires UniqueStepIds(job.steps) && HasStep(job.steps, x)
    ensures i < |job.steps| && job.steps[i].id == x
    ensures x in Dependencies(job.steps) && Dependencies(job.steps)[x] == job.steps[i].dependsOn
  {
    i :| 0 <= i < |job.steps| && job.steps[i].id == x;
    assert Nodes(job.steps)[i].id == x;
    ByIdFinds(Nodes(job.steps), i);
  }

  // One step: a verdict reached in one run is the verdict of every run that was left alone
  lemma VerdictAgrees(exec: Executor, job: Job, opts: Options, logs: Logs, full: Logs, step: Step)
    requires step.id in logs && step.id in full
    requires Explained(exec, job, logs, step) && Explained(exec, job, full, step)
    requires Final(logs[step.id]) && IsOver(step, full)
    requires forall j :: 0 <= j < |step.dependsOn| ==> step.dependsOn[j] in logs && step.dependsOn[j] in full
    requires forall j :: 0 <= j < |step.dependsOn| ==>
      var d := step.dependsOn[j]; Final(logs[d]) || logs[d].Reused? ==> full[d] == logs[d]
    ensures logs[step.id] == full[step.id]
  {
    if logs[step.id].Blocked? {
      var j :| 0 <= j < |step.dependsOn| && step.dependsOn[j] in logs && logs[step.dependsOn[j]].Unsatisfied();
      assert full[step.dependsOn[j]].Unsatisfied();
    } else {
      forall d | d in step.dependsOn ensures d in logs && d in full && logs[d].Satisfied() && full[d] == logs[d] {
        var j :| 0 <= j < |step.dependsOn| && step.dependsOn[j] == d;
      }
      assert Inputs(step, logs) == Inputs(step, full);
      assert !SomeUnsatisfied(step, full);
      RanOnce(exec, job, step, Inputs(step, logs), logs[step.id], full[step.id]);
    }
  }

  lemma DependencyIsStep(job: Job, x: Id, i: nat, j: nat, k: nat)
    requires UniqueStepIds(job.steps) && Resolved(Dependencies(job.steps))
    requires i < |job.steps| && job.steps[i].id == x && j < |job.steps[i].dependsOn|
    requires x in Below(Dependencies(job.steps), k)
    ensures k > 0 && job.steps[i].dependsOn[j] in Below(Dependencies(job.steps), k - 1)
    ensures HasStep(job.steps, job.steps[i].dependsOn[j])
  {
    var g, d := Dependencies(job.steps), job.steps[i].dependsOn[j];
    assert Nodes(job.steps)[i].id == x;
    ByIdFinds(Nodes(job.steps), i);
    assert Edge(g, x, d);
    var m :| 0 <= m < |Nodes(job.steps)| && Nodes(job.steps)[m].id == d;
    assert job.steps[m].id == d;
  }

  lemma JustifiedStep(exec: Executor, job: Job, opts: Options, logs: Logs, i: nat)
    requires Justified(exec, job, opts, logs) && i < |job.steps|
    ensures job.steps[i].id in logs && Explained(exec, job, logs, job.steps[i])
    ensures !InitialLog(opts, job.steps[i].id).Pending? ==> logs[job.steps[i].id] == InitialLog(opts, job.steps[i].id)
    ensures InitialLog(opts, job.steps[i].id).Pending? ==> !logs[job.steps[i].id].Reused?
  {
  }

  // The dependencies agree, so the step agrees
  lemma StepAgrees(exec: Executor, job: Job, opts: Options, logs: Logs, full: Logs, i: nat)
    requires Justified(exec, job, opts, logs) && Exhausted(exec, job, opts, full) && i < |job.steps|
    requires job.steps[i].id in logs && (Final(logs[job.steps[i].id]) || logs[job.steps[i].id].Reused?)
    requires forall j :: 0 <= j < |job.steps[i].dependsOn| ==>
      job.steps[i].dependsOn[j] in logs && job.steps[i].dependsOn[j] in full
    requires forall j :: 0 <= j < |job.steps[i].dependsOn| ==>
      var d := job.steps[i].dependsOn[j]; Final(logs[d]) || logs[d].Reused? ==> full[d] == logs[d]
    ensures job.steps[i].id in full && full[job.steps[i].id] == logs[job.steps[i].id]
  {
    var x := job.steps[i].id;
    JustifiedStep(exec, job, opts, logs, i);
    JustifiedStep(exec, job, opts, full, i);
    if InitialLog(opts, x).Pending? {
      assert IsOver(job.steps[i], full);
      hide *;
      VerdictAgrees(exec, job, opts, logs, full, job.steps[i]);
    }
  }

  lemma {:induction false} AgreesUpTo(exec: Executor, job: Job, opts: Options, logs: Logs, full: Logs, k: nat, i: nat)
    requires UniqueStepIds(job.steps) && Resolved(Dependencies(job.steps))
    requires Justified(exec, job, opts, logs) && Exhausted(exec, job, opts, full) && i < |job.steps|
    requires job.steps[i].id in Below(Dependencies(job.steps), k)
    requires job.steps[i].id in logs && (Final(logs[job.steps[i].id]) || logs[job.steps[i].id].Reused?)
    ensures job.steps[i].id in full && full[job.steps[i].id] == logs[job.steps[i].id]
    decreases k, 1
  {
    hide *;
    forall j | 0 <= j < |job.steps[i].dependsOn|
      ensures job.steps[i].dependsOn[j] in logs && job.steps[i].dependsOn[j] in full
      ensures var d := job.steps[i].dependsOn[j]; Final(logs[d]) || logs[d].Reused? ==> full[d] == logs[d]
    {
      DependencyAgrees(exec, job, opts, logs, full, k, i, j);
    }
    StepAgrees(exec, job, opts, logs, full, i);
  }

  lemma {:induction false} DependencyAgrees(
    exec: Executor, job: Job, opts: Options, logs: Logs, full: Logs, k: nat, i: nat, j: nat)
    requires UniqueStepIds(job.steps) && Resolved(Dependencies(job.steps))
    requires Justified(exec, job, opts, logs) && Exhausted(exec, job, opts, full) && i < |job.steps|
    requires job.steps[i].id in Below(Dependencies(job.steps), k) && j < |job.steps[i].dependsOn|
    ensures job.steps[i].dependsOn[j] in logs && job.steps[i].dependsOn[j] in full
    ensures var d := job.steps[i].dependsOn[j]; Final(logs[d]) || logs[d].Reused? ==> full[d] == logs[d]
    decreases k, 0
  {
    hide Below, Dependencies, Nodes, UniqueStepIds, Resolved, Explained;
    var d := job.steps[i].dependsOn[j];
    DependencyIsStep(job, job.steps[i].id, i, j, k);
    var m :| 0 <= m < |job.steps| && job.steps[m].id == d;
    if Final(logs[d]) || logs[d].Reused? {
      AgreesUpTo(exec, job, opts, logs, full, k - 1, m);
    }
  }

  // Whatever the policy, the interleaving or an abort cut short: what was decided was decided right
  lemma VerdictsAgree(exec: Executor, job: Job, opts: Options, logs: Logs, full: Logs)
    requires WellFormed(job)
    requires Justified(exec, job, opts, logs) && Exhausted(exec, job, opts, full)
    ensures forall x :: x in logs && Final(logs[x]) ==> x in full && full[x] == logs[x]
  {
    var g := Dependencies(job.steps);
    NothingIgnored(job.steps);
    EveryNodeHasDepth(g, 0);
    var n: nat :| Below(g, n) == g.Keys;
    forall x | x in logs && Final(logs[x]) ensures x in full && full[x] == logs[x] {
      var i := StepOf(job, x);
      AgreesUpTo(exec, job, opts, logs, full, n, i);
    }
  }

  // Two runs of one job that were left alone end with the same logs, stuck or not
  lemma ExhaustedLogsUnique(exec: Executor, job: Job, opts: Options, logs: Logs, other: Logs)
    requires WellFormed(job)
    requires Exhausted(exec, job, opts, logs) && Exhausted(exec, job, opts, other)
    ensures logs == other
  {
    VerdictsAgree(exec, job, opts, logs, other);
    VerdictsAgree(exec, job, opts, other, logs);
    assert Covers(job, logs) && Covers(job, other);
    hide WellFormed, Explained, CutOff;
    forall x | x in logs ensures x in other && logs[x] == other[x] {
      var i :| 0 <= i < |job.steps| && job.steps[i].id == x;
      assert HasStep(job.steps, x);
      if InitialLog(opts, x).Pending? {
        assert IsOver(job.steps[i], logs) && IsOver(job.steps[i], other);
      }
    }
    forall x | x in other ensures x in logs {
    }
  }
}
