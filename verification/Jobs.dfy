/** Job definitions as the validator and the runner see them, after normalisation. */
module Jobs {
  import opened Wrappers
  import opened Graph
  import opened JobGraph

  // The dot-separated segments of a WHEN.PATH or FOREACH.ITEMS path
  type Path = seq<string>

  datatype Backoff = Fixed | Exponential

  datatype RetryPolicy = RetryPolicy(maxAttempts: Option<nat>, delayMs: Option<nat>, backoff: Option<Backoff>)

  datatype Foreach = Foreach(items: Path, maxConcurrency: Option<nat>)

  datatype Step = Step(
    id: Id,
    order: int,
    dependsOn: seq<Id>,
    when: Option<Path>,
    foreach: Option<Foreach>,
    failJobOnFailure: bool,
    replaySafe: bool,
    retry: RetryPolicy)

  datatype FailurePolicy = FailFast | ContinueIndependent

  datatype Job = Job(steps: seq<Step>, failurePolicy: FailurePolicy, maxConcurrency: nat, defaultRetry: RetryPolicy)

  // The dependency nodes of a job, one per step
  function Nodes(steps: seq<Step>): seq<Node> {
    seq(|steps|, i requires 0 <= i < |steps| => Node(steps[i].id, steps[i].dependsOn))
  }

  function Dependencies(steps: seq<Step>): Graph {
    ById(Nodes(steps))
  }

  // The paths a step resolves against the run's context
  function References(step: Step): seq<Path> {
    (if step.when.Some? then [step.when.value] else []) +
    (if step.foreach.Some? then [step.foreach.value.items] else [])
  }
}
