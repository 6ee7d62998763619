/**
 * The graph part of validateJobDefinition (src/utils/jobValidator.ts): step identities,
 * dependencies, workflow references and cycles, each reported as an issue.
 */
module Validator {
  import opened Wrappers
  import opened Graph
  import opened JobGraph
  import opened Jobs

  datatype Code =
    | StepsRequired
    | InvalidStepId
    | ReservedStepId
    | DuplicateStepId
    | InvalidStepOrder
    | DuplicateStepOrder
    | DuplicateDependency
    | SelfDependency
    | MissingDependency
    | InvalidWorkflowPath
    | InvalidWorkflowRoot
    | MissingWorkflowSource
    | WorkflowSourceNotDependency
    | InvalidMaxConcurrency
    | InvalidForeachConcurrency
    | CircularDependency

  datatype Issue = Issue(step: nat, code: Code)

  const RESERVED_CONTEXT_ROOTS: set<string> := {"input", "secrets", "item", "index"}
  const FORBIDDEN_PATH_SEGMENTS: set<string> := {"__proto__", "prototype", "constructor"}

  // parsePath accepts: non-empty segments, none of them forbidden
  predicate IsValidPath(path: Path) {
    path != [] && forall i :: 0 <= i < |path| ==> path[i] != "" && path[i] !in FORBIDDEN_PATH_SEGMENTS
  }

  predicate ValidStepId(id: Id) {
    id != "" && '.' !in id && id !in RESERVED_CONTEXT_ROOTS
  }

  predicate ValidFanOut(step: Step) {
    step.foreach.Some? && step.foreach.value.maxConcurrency.Some? ==> step.foreach.value.maxConcurrency.value >= 1
  }

  // ----- What an accepted definition satisfies -----

  ghost predicate UniqueStepIds(steps: seq<Step>) {
    forall i, j :: 0 <= i < j < |steps| ==> steps[i].id != steps[j].id
  }

  ghost predicate UniqueOrders(steps: seq<Step>) {
    forall i, j :: 0 <= i < j < |steps| ==> steps[i].order != steps[j].order
  }

  ghost predicate HasStep(steps: seq<Step>, id: Id) {
    exists i :: 0 <= i < |steps| && steps[i].id == id
  }

  ghost predicate GoodDependencies(steps: seq<Step>, step: Step) {
    && Distinct(step.dependsOn)
    && forall j :: 0 <= j < |step.dependsOn| ==> step.dependsOn[j] != step.id && HasStep(steps, step.dependsOn[j])
  }

  // A path may start at the run's input or at a declared dependency
  ghost predicate GoodReference(step: Step, path: Path) {
    IsValidPath(path) && (path[0] == "input" || path[0] in step.dependsOn)
  }

  ghost predicate GoodReferences(step: Step) {
    forall k :: 0 <= k < |References(step)| ==> GoodReference(step, References(step)[k])
  }

  ghost predicate WellFormed(job: Job) {
    && job.steps != []
    && job.maxConcurrency >= 1
    && UniqueStepIds(job.steps)
    && UniqueOrders(job.steps)
    && (forall i :: 0 <= i < |job.steps| ==> ValidStepId(job.steps[i].id) && job.steps[i].order >= 1)
    && (forall i :: 0 <= i < |job.steps| ==> GoodDependencies(job.steps, job.steps[i]))
    && (forall i :: 0 <= i < |job.steps| ==> GoodReferences(job.steps[i]) && ValidFanOut(job.steps[i]))
    && !Cyclic(Dependencies(job.steps))
  }

  // ----- The checks -----

  // An id without dots that is no root of the context, and an ORDER from one on
  ghost predicate MayIdentify(step: Step) {
    step.id != "" && '.' !in step.id && step.id !in ["input", "secrets", "item", "index"] && step.order >= 1
  }

  lemma IdentityIsValid(step: Step)
    ensures MayIdentify(step) <==> ValidStepId(step.id) && step.order >= 1
  {
  }

  method CheckIdentities(steps: seq<Step>) returns (issues: seq<Issue>, stepIds: set<Id>)
    ensures stepIds == set i | 0 <= i < |steps| && steps[i].id != "" :: steps[i].id
    ensures issues == [] <==>
      UniqueStepIds(steps) && UniqueOrders(steps) && forall i :: 0 <= i < |steps| ==> MayIdentify(steps[i])
  {
    hide MayIdentify;
    issues, stepIds := [], {};
    var stepOrders: set<int> := {};
    for i := 0 to |steps|
      invariant stepIds == set k | 0 <= k < i && steps[k].id != "" :: steps[k].id
      invariant stepOrders == set k | 0 <= k < i && steps[k].order >= 1 :: steps[k].order
      invariant issues == [] <==>
        UniqueStepIds(steps[..i]) && UniqueOrders(steps[..i]) &&
        forall k :: 0 <= k < i ==> ValidStepId(steps[k].id) && steps[k].order >= 1
    {
      var step := steps[i];
      var found := CheckIdentity(step, i, stepIds, stepOrders);
      issues := issues + found;
      OneMoreIdentity(steps, i);
      if step.id != "" {
        stepIds := stepIds + {step.id};
      }
      if step.order >= 1 {
        stepOrders := stepOrders + {step.order};
      }
    }
    assert steps[..|steps|] == steps;
    IdentitiesAreValid(steps);
  }

  lemma IdentitiesAreValid(steps: seq<Step>)
    ensures (forall i :: 0 <= i < |steps| ==> MayIdentify(steps[i])) <==>
      forall i :: 0 <= i < |steps| ==> ValidStepId(steps[i].id) && steps[i].order >= 1
  {
    forall step: Step { IdentityIsValid(step); }
    hide MayIdentify, ValidStepId;
  }

  // The checks of one step against the steps before it
  method CheckIdentity(step: Step, i: nat, stepIds: set<Id>, stepOrders: set<int>) returns (issues: seq<Issue>)
    ensures issues == [] <==>
      ValidStepId(step.id) && step.id !in stepIds && step.order >= 1 && step.order !in stepOrders
  {
    issues := [];
    if step.id == "" {
      issues := issues + [Issue(i, InvalidStepId)];
    } else {
      if '.' in step.id {
        issues := issues + [Issue(i, InvalidStepId)];
      }
      if step.id in RESERVED_CONTEXT_ROOTS {
        issues := issues + [Issue(i, ReservedStepId)];
      }
      if step.id in stepIds {
        issues := issues + [Issue(i, DuplicateStepId)];
      }
    }
    if step.order < 1 {
      issues := issues + [Issue(i, InvalidStepOrder)];
    } else if step.order in stepOrders {
      issues := issues + [Issue(i, DuplicateStepOrder)];
    }
  }

  lemma OneMoreIdentity(steps: seq<Step>, i: nat)
    requires i < |steps|
    ensures UniqueStepIds(steps[..i + 1]) <==>
      UniqueStepIds(steps[..i]) && forall k :: 0 <= k < i ==> steps[k].id != steps[i].id
    ensures UniqueOrders(steps[..i + 1]) <==>
      UniqueOrders(steps[..i]) && forall k :: 0 <= k < i ==> steps[k].order != steps[i].order
  {
    var more, less := steps[..i + 1], steps[..i];
    assert more == less + [steps[i]];
    if UniqueStepIds(more) {
      assert forall k :: 0 <= k < i ==> more[k] == steps[k] == less[k];
      assert more[i] == steps[i];
    }
    if UniqueOrders(more) {
      assert forall k :: 0 <= k < i ==> more[k] == steps[k] == less[k];
      assert more[i] == steps[i];
    }
  }

  // The inner loop of validateDependencies
  method CheckDependencies(step: Step, index: nat, stepIds: set<Id>) returns (issues: seq<Issue>)
    ensures issues == [] <==>
      Distinct(step.dependsOn) &&
      forall j :: 0 <= j < |step.dependsOn| ==> step.dependsOn[j] != step.id && step.dependsOn[j] in stepIds
  {
    issues := [];
    var encountered: set<Id> := {};
    for j := 0 to |step.dependsOn|
      invariant forall k :: 0 <= k < j ==> step.dependsOn[k] in encountered
      invariant forall d :: d in encountered ==> exists k :: 0 <= k < j && step.dependsOn[k] == d
      invariant issues == [] <==>
        (forall i, k :: 0 <= i < k < j ==> step.dependsOn[i] != step.dependsOn[k]) &&
        forall k :: 0 <= k < j ==> step.dependsOn[k] != step.id && step.dependsOn[k] in stepIds
    {
      var dependencyId := step.dependsOn[j];
      if dependencyId in encountered {
        issues := issues + [Issue(index, DuplicateDependency)];
        continue;
      }
      encountered := encountered + {dependencyId};
      if dependencyId == step.id {
        issues := issues + [Issue(index, SelfDependency)];
      } else if dependencyId !in stepIds {
        issues := issues + [Issue(index, MissingDependency)];
      }
    }
  }

  // What one reference check accepts before the other checks are known to pass
  predicate AcceptedReference(step: Step, path: Path, stepIds: set<Id>) {
    && IsValidPath(path)
    && (path[0] == "input" || (path[0] !in RESERVED_CONTEXT_ROOTS && path[0] in stepIds && path[0] in step.dependsOn))
  }

  // One reference of validateWorkflowReferences, with the shape check of its path
  function ReferenceIssues(step: Step, index: nat, path: Path, stepIds: set<Id>): (issues: seq<Issue>)
    ensures issues == [] <==> AcceptedReference(step, path, stepIds)
  {
    if !IsValidPath(path) then [Issue(index, InvalidWorkflowPath)]
    else if path[0] == "input" then []
    else if path[0] in RESERVED_CONTEXT_ROOTS then [Issue(index, InvalidWorkflowRoot)]
    else if path[0] !in stepIds then [Issue(index, MissingWorkflowSource)]
    else if path[0] !in step.dependsOn then [Issue(index, WorkflowSourceNotDependency)]
    else []
  }

  // A path of a step may be followed: it has segments, none of them empty or a way into prototypes, and starts at the
  // input or at a known dependency that is no other root of the context
  ghost predicate MayFollow(step: Step, path: Path, stepIds: set<Id>) {
    && |path| > 0
    && (forall i :: 0 <= i < |path| ==> path[i] !in ["", "__proto__", "prototype", "constructor"])
    && (path[0] == "input" ||
      (path[0] in step.dependsOn && path[0] in stepIds && path[0] !in ["secrets", "item", "index"]))
  }

  method CheckReferences(step: Step, index: nat, stepIds: set<Id>) returns (issues: seq<Issue>)
    ensures issues == [] <==>
      forall k :: 0 <= k < |References(step)| ==> AcceptedReference(step, References(step)[k], stepIds)
    ensures issues == [] <==>
      (step.when.Some? ==> MayFollow(step, step.when.value, stepIds)) &&
      (step.foreach.Some? ==> MayFollow(step, step.foreach.value.items, stepIds))
  {
    ReferencesFollowed(step, stepIds);
    hide AcceptedReference, MayFollow;
    issues := [];
    var references := References(step);
    for k := 0 to |references|
      invariant issues == [] <==> forall j :: 0 <= j < k ==> AcceptedReference(step, references[j], stepIds)
    {
      issues := issues + ReferenceIssues(step, index, references[k], stepIds);
    }
  }

  lemma AcceptedIsFollowed(step: Step, path: Path, stepIds: set<Id>)
    ensures AcceptedReference(step, path, stepIds) <==> MayFollow(step, path, stepIds)
  {
    if path != [] {
      assert path[0] !in ["secrets", "item", "index"] && path[0] != "input" <==> path[0] !in RESERVED_CONTEXT_ROOTS;
      forall i | 0 <= i < |path|
        ensures path[i] !in ["", "__proto__", "prototype", "constructor"] <==> path[i] != "" && path[i] !in FORBIDDEN_PATH_SEGMENTS
      {
      }
    }
  }

  lemma ReferencesFollowed(step: Step, stepIds: set<Id>)
    ensures (forall k :: 0 <= k < |References(step)| ==> AcceptedReference(step, References(step)[k], stepIds)) <==>
      ((step.when.Some? ==> MayFollow(step, step.when.value, stepIds)) &&
      (step.foreach.Some? ==> MayFollow(step, step.foreach.value.items, stepIds)))
  {
    forall path { AcceptedIsFollowed(step, path, stepIds); }
    hide AcceptedReference, MayFollow;
    if step.when.Some? {
      assert References(step)[0] == step.when.value;
    }
    if step.foreach.Some? {
      assert References(step)[|References(step)| - 1] == step.foreach.value.items;
    }
  }

  // Both per-step checks over the whole job
  method CheckSteps(steps: seq<Step>, stepIds: set<Id>) returns (issues: seq<Issue>)
    ensures issues == [] <==> forall i :: 0 <= i < |steps| ==> AcceptedStep(steps[i], stepIds)
  {
    issues := [];
    for i := 0 to |steps|
      invariant issues == [] <==> forall k :: 0 <= k < i ==> AcceptedStep(steps[k], stepIds)
    {
      var dependencyIssues := CheckDependencies(steps[i], i, stepIds);
      var referenceIssues := CheckReferences(steps[i], i, stepIds);
      issues := issues + dependencyIssues + referenceIssues;
      if !ValidFanOut(steps[i]) {
        issues := issues + [Issue(i, InvalidForeachConcurrency)];
      }
    }
  }

  ghost predicate AcceptedStep(step: Step, stepIds: set<Id>) {
    && Distinct(step.dependsOn)
    && (forall j :: 0 <= j < |step.dependsOn| ==> step.dependsOn[j] != step.id && step.dependsOn[j] in stepIds)
    && ValidFanOut(step)
    && forall k :: 0 <= k < |References(step)| ==> AcceptedReference(step, References(step)[k], stepIds)
  }

  // Given valid identities, the checks of a step accept exactly the well-formed ones
  lemma AcceptedIsGood(steps: seq<Step>, step: Step, stepIds: set<Id>)
    requires stepIds == set i | 0 <= i < |steps| && steps[i].id != "" :: steps[i].id
    requires forall i :: 0 <= i < |steps| ==> ValidStepId(steps[i].id)
    ensures AcceptedStep(step, stepIds) <==> GoodDependencies(steps, step) && GoodReferences(step) && ValidFanOut(step)
  {
    forall id ensures id in stepIds <==> HasStep(steps, id) {
    }
    if GoodDependencies(steps, step) && GoodReferences(step) {
      forall k | 0 <= k < |References(step)| ensures AcceptedReference(step, References(step)[k], stepIds) {
        assert GoodReference(step, References(step)[k]);
      }
    }
    if AcceptedStep(step, stepIds) {
      forall k | 0 <= k < |References(step)| ensures GoodReference(step, References(step)[k]) {
        assert AcceptedReference(step, References(step)[k], stepIds);
      }
    }
  }

  // On resolved graphs without self-dependencies the cycle search sees every edge
  lemma NothingIgnored(steps: seq<Step>)
    requires UniqueStepIds(steps)
    requires forall i :: 0 <= i < |steps| ==> GoodDependencies(steps, steps[i])
    ensures Cyclic(Proper(Dependencies(steps))) <==> Cyclic(Dependencies(steps))
    ensures Resolved(Dependencies(steps))
  {
    var g := Dependencies(steps);
    forall a, b | Edge(g, a, b) ensures a != b && b in g {
      var i :| 0 <= i < |steps| && Nodes(steps)[i].id == a;
      ByIdFinds(Nodes(steps), i);
      var j :| 0 <= j < |g[a]| && g[a][j] == b;
      assert steps[i].dependsOn[j] == b;
      var k :| 0 <= k < |steps| && steps[k].id == b;
      assert Nodes(steps)[k].id == b;
    }
    forall a, b ensures Edge(Proper(g), a, b) <==> Edge(g, a, b) {
      ProperEdge(g, a, b);
    }
    forall p ensures ClosedPath(Proper(g), p) <==> ClosedPath(g, p) {
    }
  }

  method ValidateJobDefinition(job: Job) returns (issues: seq<Issue>)
    ensures issues == [] <==> WellFormed(job)
  {
    hide AcceptedStep, GoodDependencies, GoodReferences, Cyclic, Proper;
    if job.steps == [] {
      return [Issue(0, StepsRequired)];
    }
    issues := if job.maxConcurrency < 1 then [Issue(0, InvalidMaxConcurrency)] else [];
    var identityIssues, stepIds := CheckIdentities(job.steps);
    var stepIssues := CheckSteps(job.steps, stepIds);
    issues := issues + identityIssues + stepIssues;
    if identityIssues == [] {
      forall i | 0 <= i < |job.steps| {
        AcceptedIsGood(job.steps, job.steps[i], stepIds);
      }
    }
    // Absent or duplicate ids leave the graph ambiguous, so its cycles are not searched
    var ambiguous :=
      || (exists i :: 0 <= i < |job.steps| && job.steps[i].id == "")
      || (exists i, j :: 0 <= i < j < |job.steps| && job.steps[i].id == job.steps[j].id);
    if !ambiguous {
      var cycle := FindDependencyCycle(Nodes(job.steps));
      if cycle.Some? {
        issues := issues + [Issue(0, CircularDependency)];
      }
      if identityIssues == [] && stepIssues == [] {
        NothingIgnored(job.steps);
      }
    }
  }
}
