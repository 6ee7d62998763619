/**
 * Which steps a resumed or a test run executes (enqueueReplay, enqueueTest and claimOldestQueued in
 * src/repositories/ExecutionRepository.ts).
 */
module Resume {
  import opened Wrappers
  import opened Graph
  import opened JobGraph
  import opened Jobs
  import opened JsonValues
  import opened Validator
  import opened RunSpec
  import opened Rounds
  import opened StepTask
  import opened Runs
  import opened Worker
  import E = Executions

  // A row of execution_steps of the source execution
  datatype SourceStep = SourceStep(id: Id, row: StepRow, output: Json)

  datatype InitialStep = ReusedStep(output: Json) | SkippedStep

  datatype ResumeError = SourceNotTerminalFailure | StepNotFound | StepNotReplaySafe | StepNotFailed

  predicate Reusable(step: SourceStep) {
    step.row.SuccessRow? || step.row.ReusedRow?
  }

  ghost predicate UniqueRows(rows: seq<SourceStep>) {
    forall i, j :: 0 <= i < j < |rows| ==> rows[i].id != rows[j].id
  }

  // What the rows outside the closure become
  ghost predicate Prepared(rows: seq<SourceStep>, n: nat, rerun: set<Id>, initial: map<Id, InitialStep>)
    requires n <= |rows|
  {
    && (forall x :: x in initial ==> exists i :: 0 <= i < n && rows[i].id == x)
    && forall i :: 0 <= i < n ==>
      if rows[i].id in rerun then rows[i].id !in initial
      else rows[i].id in initial && initial[rows[i].id] == if Reusable(rows[i]) then ReusedStep(rows[i].output) else SkippedStep
  }

  // The first step with the id
  function FindStep(steps: seq<Step>, id: Id): (r: Option<Step>)
    ensures r.None? <==> !HasStep(steps, id)
    ensures r.Some? ==> r.value in steps && r.value.id == id
  {
    if steps == [] then None
    else if steps[0].id == id then Some(steps[0])
    else
      assert steps == [steps[0]] + steps[1..];
      assert HasStep(steps, id) <==> HasStep(steps[1..], id) by { TailHasStep(steps, id); }
      FindStep(steps[1..], id)
  }

  lemma TailHasStep(steps: seq<Step>, id: Id)
    requires steps != [] && steps[0].id != id
    ensures HasStep(steps, id) <==> HasStep(steps[1..], id)
  {
    if i :| 0 <= i < |steps| && steps[i].id == id {
      assert steps[1..][i - 1].id == id;
    }
    if i :| 0 <= i < |steps[1..]| && steps[1..][i].id == id {
      assert steps[i + 1].id == id;
    }
  }

  ghost predicate RowPrepared(job: Job, stepId: Id, step: SourceStep, initial: map<Id, InitialStep>) {
    if Reach(Dependencies(job.steps), step.id, stepId) then step.id !in initial
    else if step.row == SuccessRow || step.row == ReusedRow then
      step.id in initial && initial[step.id] == ReusedStep(step.output)
    else step.id in initial && initial[step.id] == SkippedStep
  }

  // Every source step that transitively depends on the failed step reruns; the others are reused if they can be
  method PrepareResume(job: Job, status: E.Status, rows: seq<SourceStep>, stepId: Id)
    returns (r: Result<map<Id, InitialStep>, ResumeError>, rerun: set<Id>)
    requires UniqueStepIds(job.steps) && UniqueRows(rows)
    ensures r.Ok? ==> HasStep(job.steps, stepId) && Prepared(rows, |rows|, rerun, r.value)
    ensures r.Ok? ==> forall x :: x in rerun <==> Reach(Dependencies(job.steps), x, stepId)
    // Outside the closure a row that succeeded or was reused is reused with its output, any other one is skipped
    ensures r.Ok? ==> forall i :: 0 <= i < |rows| ==> RowPrepared(job, stepId, rows[i], r.value)
    ensures r == Err(SourceNotTerminalFailure) <==> !status.Failed? && !status.Cancelled?
    ensures r == Err(StepNotFound) <==> (status.Failed? || status.Cancelled?) && !HasStep(job.steps, stepId)
    ensures r == Err(StepNotReplaySafe) <==>
      (status.Failed? || status.Cancelled?) && exists s :: s in job.steps && s.id == stepId && !s.replaySafe
    ensures r.Ok? <==>
      (status.Failed? || status.Cancelled?) && (exists s :: s in job.steps && s.id == stepId && s.replaySafe) &&
      (exists i :: 0 <= i < |rows| && rows[i].id == stepId && rows[i].row.FailedRow?)
  {
    rerun := {};
    if !status.Failed? && !status.Cancelled? {
      return Err(SourceNotTerminalFailure), rerun;
    }
    var selected := FindStep(job.steps, stepId);
    OnlyStep(job, stepId, selected);
    OnlyUnsafeStep(job, stepId, selected);
    if selected.None? {
      return Err(StepNotFound), rerun;
    }
    if !selected.value.replaySafe {
      return Err(StepNotReplaySafe), rerun;
    }
    if !(exists i :: 0 <= i < |rows| && rows[i].id == stepId && rows[i].row.FailedRow?) {
      return Err(StepNotFailed), rerun;
    }
    StepIsNode(job, stepId);
    hide Nodes, Dependencies, UniqueStepIds;
    rerun := DependentClosure(Nodes(job.steps), stepId);
    var initial: map<Id, InitialStep> := map[];
    for i := 0 to |rows|
      invariant Prepared(rows, i, rerun, initial)
    {
      PrepareOne(rows, i, rerun, initial);
      if rows[i].id in rerun {
        continue;
      }
      if Reusable(rows[i]) {
        initial := initial[rows[i].id := ReusedStep(rows[i].output)];
      } else {
        initial := initial[rows[i].id := SkippedStep];
      }
    }
    return Ok(initial), rerun;
  }

  lemma OnlyStep(job: Job, id: Id, found: Option<Step>)
    requires UniqueStepIds(job.steps) && found == FindStep(job.steps, id)
    ensures (exists s :: s in job.steps && s.id == id && s.replaySafe) <==> found.Some? && found.value.replaySafe
  {
    if s :| s in job.steps && s.id == id && s.replaySafe {
      var i :| 0 <= i < |job.steps| && job.steps[i] == s;
      var k :| 0 <= k < |job.steps| && job.steps[k] == found.value;
    }
  }

  lemma OnlyUnsafeStep(job: Job, id: Id, found: Option<Step>)
    requires UniqueStepIds(job.steps) && found == FindStep(job.steps, id)
    ensures (exists s :: s in job.steps && s.id == id && !s.replaySafe) <==> found.Some? && !found.value.replaySafe
  {
    if s :| s in job.steps && s.id == id && !s.replaySafe {
      var i :| 0 <= i < |job.steps| && job.steps[i] == s;
      var k :| 0 <= k < |job.steps| && job.steps[k] == found.value;
    }
  }

  lemma StepIsNode(job: Job, id: Id)
    requires UniqueStepIds(job.steps) && HasStep(job.steps, id)
    ensures UniqueIds(Nodes(job.steps)) && id in ById(Nodes(job.steps))
    ensures Dependencies(job.steps) == ById(Nodes(job.steps))
  {
    var i :| 0 <= i < |job.steps| && job.steps[i].id == id;
    assert Nodes(job.steps)[i].id == id;
  }

  lemma PrepareOne(rows: seq<SourceStep>, i: nat, rerun: set<Id>, initial: map<Id, InitialStep>)
    requires UniqueRows(rows) && i < |rows| && Prepared(rows, i, rerun, initial)
    ensures rows[i].id in rerun ==> Prepared(rows, i + 1, rerun, initial)
    ensures rows[i].id !in rerun ==> Prepared(rows, i + 1, rerun,
      initial[rows[i].id := if Reusable(rows[i]) then ReusedStep(rows[i].output) else SkippedStep])
  {
    forall k | 0 <= k < i ensures rows[k].id != rows[i].id {
    }
    assert rows[i].id !in initial;
  }

  // What claimOldestQueued hands to the runner: the closure again, and the rows marked reused
  function ResumeOptions(rerun: set<Id>, initial: map<Id, InitialStep>): Options {
    Options(Some(rerun), map x | x in initial && initial[x].ReusedStep? :: initial[x].output)
  }

  // The source execution ran this job: one row per step
  ghost predicate RowsOf(job: Job, rows: seq<SourceStep>) {
    UniqueRows(rows) && forall x :: HasStep(job.steps, x) <==> exists i :: 0 <= i < |rows| && rows[i].id == x
  }

  ghost predicate IsDependentClosure(job: Job, stepId: Id, rerun: set<Id>) {
    forall x :: x in rerun <==> Reach(Dependencies(job.steps), x, stepId)
  }

  // Every step is rerun, reused or skipped, as the closure and its row in the source say
  lemma ResumePartition(job: Job, rows: seq<SourceStep>, rerun: set<Id>, initial: map<Id, InitialStep>, i: nat)
    requires RowsOf(job, rows) && Prepared(rows, |rows|, rerun, initial) && i < |rows|
    ensures var log := InitialLog(ResumeOptions(rerun, initial), rows[i].id);
      log ==
        if rows[i].id in rerun then Pending
        else if Reusable(rows[i]) then Reused(rows[i].output)
        else Outside
  {
  }

  // Nothing that is reused depends on anything that is rerun
  lemma ReusedNeedsNoRerun(job: Job, rows: seq<SourceStep>, stepId: Id, rerun: set<Id>, initial: map<Id, InitialStep>, x: Id, d: Id)
    requires RowsOf(job, rows) && Prepared(rows, |rows|, rerun, initial) && IsDependentClosure(job, stepId, rerun)
    requires HasStep(job.steps, x) && Edge(Dependencies(job.steps), x, d)
    requires InitialLog(ResumeOptions(rerun, initial), x).Reused?
    ensures d !in rerun
  {
    hide Dependencies;
    var i :| 0 <= i < |rows| && rows[i].id == x;
    ResumePartition(job, rows, rerun, initial, i);
    ReachEdge(Dependencies(job.steps), x, d);
    if d in rerun {
      ReachTransitive(Dependencies(job.steps), x, d, stepId);
    }
  }

  // Every dependency of a rerun step that is not rerun itself can be reused
  ghost predicate AllReused(job: Job, rows: seq<SourceStep>, rerun: set<Id>) {
    forall i, j, k :: 0 <= i < |job.steps| && 0 <= j < |job.steps[i].dependsOn| && 0 <= k < |rows| ==>
      job.steps[i].id in rerun && rows[k].id == job.steps[i].dependsOn[j] && rows[k].id !in rerun ==> Reusable(rows[k])
  }

  // A resumed run has all it needs exactly when every dependency that leaves the closure succeeded or was
  // reused in the source; one that was skipped there by its condition is not enough
  lemma ResumeIsAvailable(job: Job, rows: seq<SourceStep>, rerun: set<Id>, initial: map<Id, InitialStep>)
    requires WellFormed(job) && RowsOf(job, rows) && Prepared(rows, |rows|, rerun, initial)
    ensures Available(job, ResumeOptions(rerun, initial)) <==> AllReused(job, rows, rerun)
  {
    var opts := ResumeOptions(rerun, initial);
    forall k | 0 <= k < |rows|
      ensures InitialLog(opts, rows[k].id).Outside? <==> rows[k].id !in rerun && !Reusable(rows[k])
      ensures InitialLog(opts, rows[k].id).Pending? <==> rows[k].id in rerun
    {
      ResumePartition(job, rows, rerun, initial, k);
    }
    forall i | 0 <= i < |job.steps| ensures exists k :: 0 <= k < |rows| && rows[k].id == job.steps[i].id {
      assert HasStep(job.steps, job.steps[i].id);
    }
    forall i, j | 0 <= i < |job.steps| && 0 <= j < |job.steps[i].dependsOn|
      ensures exists k :: 0 <= k < |rows| && rows[k].id == job.steps[i].dependsOn[j]
    {
      assert GoodDependencies(job.steps, job.steps[i]);
    }
    hide WellFormed, InitialLog, ResumeOptions, Prepared, Reusable;
    if Available(job, opts) {
      forall i, j, k | 0 <= i < |job.steps| && 0 <= j < |job.steps[i].dependsOn| && 0 <= k < |rows| &&
        job.steps[i].id in rerun && rows[k].id == job.steps[i].dependsOn[j] && rows[k].id !in rerun
        ensures Reusable(rows[k])
      {
        assert InitialLog(opts, job.steps[i].id).Pending?;
        assert !InitialLog(opts, job.steps[i].dependsOn[j]).Outside?;
      }
    }
  }

  // And so it can only get stuck, and does get stuck once nothing else is in its way, when one of them is not reused
  lemma ResumeGetsStuck(
    exec: Executor, job: Job, rows: seq<SourceStep>, rerun: set<Id>, initial: map<Id, InitialStep>,
    end: End, logs: Logs, signal: Signal)
    requires WellFormed(job) && RowsOf(job, rows) && Prepared(rows, |rows|, rerun, initial)
    requires Ends(exec, job, ResumeOptions(rerun, initial), end, logs, signal)
    ensures end.Unresolved? ==> !AllReused(job, rows, rerun)
    ensures end.EndedWell? ==> AllReused(job, rows, rerun)
    ensures signal.None? && NeverFails(exec) && AttemptsAllowed(job) ==> (end.Unresolved? <==> !AllReused(job, rows, rerun))
  {
    ResumeIsAvailable(job, rows, rerun, initial);
    hide WellFormed, RowsOf, Prepared, AllReused, Available, NeverFails, AttemptsAllowed, ResumeOptions, Justified, Complete;
    if signal.None? && NeverFails(exec) && AttemptsAllowed(job) {
      StuckIffUnavailable(exec, job, ResumeOptions(rerun, initial), end, logs);
    }
  }

  // ----- A resumed run that gets stuck -----

  const NO_RETRY := RetryPolicy(None, None, None)
  const OPTIONAL := Step("a", 1, [], Some(["input", "flag"]), None, false, true, NO_RETRY)
  const DEPENDENT := Step("b", 2, ["a"], None, None, false, true, NO_RETRY)
  const TWO_STEPS := Job([OPTIONAL, DEPENDENT], FailFast, 1, NO_RETRY)
  const OFFLINE := Error("OFFLINE", "The service was offline.")

  // The condition of a is false, and every attempt fails
  function Unlucky(): Executor {
    Executor(
      (step: Step, ctx: Context) => if step.when.Some? then Decline else Proceed,
      (step: Step, ctx: Context) => Ok([]),
      (step: Step, ctx: Context, target: Target, n: nat) => Crash(OFFLINE))
  }

  const SOURCE_LOGS: Logs := map["a" := Declined, "b" := Failed(OFFLINE)]

  function SourceRows(): seq<SourceStep> {
    [SourceStep("a", RowOf(SOURCE_LOGS["a"]), JsonNull), SourceStep("b", RowOf(SOURCE_LOGS["b"]), JsonNull)]
  }

  lemma TwoStepsGraph()
    ensures Dependencies(TWO_STEPS.steps) == map["a" := [], "b" := ["a"]]
  {
    var nodes := Nodes(TWO_STEPS.steps);
    assert nodes == [Node("a", []), Node("b", ["a"])];
    assert nodes[..1] == [Node("a", [])] && nodes[..1][..0] == [];
    assert ById(nodes[..1]) == map["a" := []];
  }

  lemma TwoStepsWellFormed()
    ensures WellFormed(TWO_STEPS)
  {
    TwoStepsGraph();
    RankedIsAcyclic(Dependencies(TWO_STEPS.steps), map["a" := 0, "b" := 1]);
    hide Dependencies, Cyclic;
    assert HasStep(TWO_STEPS.steps, "a") by {
      assert TWO_STEPS.steps[0].id == "a";
    }
    assert References(OPTIONAL) == [["input", "flag"]] && References(DEPENDENT) == [];
    assert GoodReference(OPTIONAL, ["input", "flag"]);
    assert GoodDependencies(TWO_STEPS.steps, OPTIONAL) && GoodDependencies(TWO_STEPS.steps, DEPENDENT);
  }

  // Every run of these two steps that nobody aborts skips a by its condition and fails at b; and there is such a run
  lemma SourceRun(end: End, logs: Logs)
    ensures Complete(Unlucky(), TWO_STEPS, EVERYTHING, SOURCE_LOGS)
    ensures Ends(Unlucky(), TWO_STEPS, EVERYTHING, EndedBy(Failure(OFFLINE)), SOURCE_LOGS, None)
    ensures Ends(Unlucky(), TWO_STEPS, EVERYTHING, end, logs, None) ==> end == EndedBy(Failure(OFFLINE)) && logs == SOURCE_LOGS
  {
    SourceRunExists();
    if Ends(Unlucky(), TWO_STEPS, EVERYTHING, end, logs, None) {
      SourceRunIsOnly(end, logs);
    }
  }

  lemma SourceRunExists()
    ensures Complete(Unlucky(), TWO_STEPS, EVERYTHING, SOURCE_LOGS)
    ensures Ends(Unlucky(), TWO_STEPS, EVERYTHING, EndedBy(Failure(OFFLINE)), SOURCE_LOGS, None)
  {
    var exec := Unlucky();
    assert TWO_STEPS.steps[0].id == "a" && TWO_STEPS.steps[1].id == "b";
    assert Attempts(exec, TWO_STEPS, DEPENDENT, Inputs(DEPENDENT, SOURCE_LOGS), Whole) == Crash(OFFLINE);
    assert Explained(exec, TWO_STEPS, SOURCE_LOGS, OPTIONAL);
    assert Explained(exec, TWO_STEPS, SOURCE_LOGS, DEPENDENT);
    hide Explained, Attempts;
    assert SOURCE_LOGS["b"] == Failed(OFFLINE);
  }

  // The verdicts left to the two steps
  lemma SourceVerdicts(logs: Logs)
    requires Justified(Unlucky(), TWO_STEPS, EVERYTHING, logs)
    ensures logs.Keys == {"a", "b"}
    ensures !logs["a"].Success? && !logs["a"].Failed? && !logs["a"].Blocked? && !logs["a"].Outside? && !logs["a"].Reused?
    ensures !logs["b"].Success? && !logs["b"].Declined? && !logs["b"].Blocked? && !logs["b"].Outside? && !logs["b"].Reused?
    ensures logs["b"].Failed? ==> logs["a"].Declined? && logs["b"] == Failed(OFFLINE)
  {
    var exec := Unlucky();
    assert TWO_STEPS.steps[0] == OPTIONAL && TWO_STEPS.steps[1] == DEPENDENT;
    assert HasStep(TWO_STEPS.steps, "a") && HasStep(TWO_STEPS.steps, "b");
    forall x | x in logs ensures x == "a" || x == "b" {
      assert HasStep(TWO_STEPS.steps, x);
    }
    assert Explained(exec, TWO_STEPS, logs, TWO_STEPS.steps[0]) && Explained(exec, TWO_STEPS, logs, TWO_STEPS.steps[1]);
    assert Attempts(exec, TWO_STEPS, DEPENDENT, Inputs(DEPENDENT, logs), Whole) == Crash(OFFLINE);
    assert DEPENDENT.dependsOn[0] == "a";
    hide Attempts, Inputs;
  }

  lemma SourceRunIsOnly(end: End, logs: Logs)
    requires Ends(Unlucky(), TWO_STEPS, EVERYTHING, end, logs, None)
    ensures end == EndedBy(Failure(OFFLINE)) && logs == SOURCE_LOGS
  {
    SourceVerdicts(logs);
    assert Available(TWO_STEPS, EVERYTHING);
    hide Justified, Available;
    assert end.EndedWell? ==> Final(logs["b"]);
    if end.EndedBy? && end.problem.Failure? {
      var x :| x in logs && logs[x] == Failed(end.problem.error);
      assert x == "b";
    }
  }

  lemma OnlyDependentReruns(x: Id)
    ensures Reach(Dependencies(TWO_STEPS.steps), x, "b") <==> x == "b"
  {
    var g := Dependencies(TWO_STEPS.steps);
    TwoStepsGraph();
    ReachSelf(g, "b");
    hide Dependencies;
    if x != "b" && Reach(g, x, "b") {
      assert forall y, z :: Edge(g, y, z) ==> y == "b";
      assert ClosedUnder(g, {x});
      ReachStaysInside(g, {x}, x, "b");
    }
  }

  lemma SourcePrepared()
    ensures RowsOf(TWO_STEPS, SourceRows()) && Prepared(SourceRows(), 2, {"b"}, map["a" := SkippedStep])
    ensures !AllReused(TWO_STEPS, SourceRows(), {"b"})
  {
    var rows := SourceRows();
    assert TWO_STEPS.steps[0].id == "a" && TWO_STEPS.steps[1].id == "b";
    assert rows[0].id == "a" && rows[1].id == "b";
    assert RowsOf(TWO_STEPS, rows);
    assert TWO_STEPS.steps[1].dependsOn[0] == "a" && !Reusable(rows[0]);
  }

  lemma SourceClosure()
    ensures IsDependentClosure(TWO_STEPS, "b", {"b"}) && AttemptsAllowed(TWO_STEPS) && |SourceRows()| == 2
  {
    forall x { OnlyDependentReruns(x); }
    hide Reach, Dependencies;
  }

  // Resuming that run at b: a is neither rerun nor reused, so b waits for it and the run cannot go on, although
  // nothing fails any more
  lemma SkippedDependencyGetsStuck(exec: Executor, end: End, logs: Logs)
    requires NeverFails(exec)
    requires Ends(exec, TWO_STEPS, ResumeOptions({"b"}, map["a" := SkippedStep]), end, logs, None)
    ensures RowsOf(TWO_STEPS, SourceRows()) && Prepared(SourceRows(), 2, {"b"}, map["a" := SkippedStep])
    ensures IsDependentClosure(TWO_STEPS, "b", {"b"}) && !AllReused(TWO_STEPS, SourceRows(), {"b"})
    ensures end.Unresolved?
  {
    TwoStepsWellFormed();
    SourcePrepared();
    SourceClosure();
    hide WellFormed, IsDependentClosure, Dependencies, Ends, RowsOf, Prepared, AllReused, NeverFails, AttemptsAllowed, Reach, SourceRows, ResumeOptions;
    ResumeGetsStuck(exec, TWO_STEPS, SourceRows(), {"b"}, map["a" := SkippedStep], end, logs, None);
  }

  // A test run of a step and everything it needs never lacks anything
  lemma TestIsAvailable(job: Job, selectedId: Id, closure: set<Id>)
    requires WellFormed(job)
    requires forall x :: x in closure <==> Reach(Dependencies(job.steps), selectedId, x)
    ensures Available(job, Options(Some(closure), map[]))
  {
    hide Dependencies, WellFormed;
    forall i, j | 0 <= i < |job.steps| && 0 <= j < |job.steps[i].dependsOn| && job.steps[i].id in closure
      ensures job.steps[i].dependsOn[j] in closure
    {
      StepInGraph(job, i);
      assert Edge(Dependencies(job.steps), job.steps[i].id, job.steps[i].dependsOn[j]);
      ReachEdge(Dependencies(job.steps), job.steps[i].id, job.steps[i].dependsOn[j]);
      ReachTransitive(Dependencies(job.steps), selectedId, job.steps[i].id, job.steps[i].dependsOn[j]);
    }
  }
}
