/**
 * The shape of a run: which steps it has to execute, in which rounds, which of them are
 * blocked, and which failure speaks for the job. Stated on logs alone, before any scheduler.
 */
module Rounds {
  import opened Wrappers
  import opened Graph
  import opened JobGraph
  import opened Levels
  import opened Jobs
  import opened Validator
  import opened RunSpec

  // The steps a run has to decide
  function ToRun(job: Job, opts: Options): set<Id> {
    set x | x in Dependencies(job.steps) && InitialLog(opts, x).Pending?
  }

  // The dependencies of some steps among each other
  function Among(g: Graph, s: set<Id>): Graph {
    map a | a in g && a in s :: ProperEntries(g[a], a, s)
  }

  function Selected(job: Job, opts: Options): Graph {
    Among(Dependencies(job.steps), ToRun(job, opts))
  }

  // No step waits for one that is neither selected nor reused
  ghost predicate Available(job: Job, opts: Options) {
    forall i, j :: 0 <= i < |job.steps| && 0 <= j < |job.steps[i].dependsOn| ==>
      InitialLog(opts, job.steps[i].id).Pending? ==> !InitialLog(opts, job.steps[i].dependsOn[j]).Outside?
  }

  // No failure stops the job: independent branches run to their end
  predicate Independent(job: Job) {
    job.failurePolicy == ContinueIndependent &&
    forall i :: 0 <= i < |job.steps| ==> !job.steps[i].failJobOnFailure
  }

  // ----- The selected graph -----

  lemma WellFormedGraph(job: Job)
    requires WellFormed(job)
    ensures Resolved(Dependencies(job.steps)) && !Cyclic(Dependencies(job.steps))
    ensures forall a :: !Edge(Dependencies(job.steps), a, a)
  {
    NothingIgnored(job.steps);
    forall a ensures !Edge(Dependencies(job.steps), a, a) {
      if Edge(Dependencies(job.steps), a, a) {
        assert ClosedPath(Dependencies(job.steps), [a, a]);
      }
    }
  }

  lemma AmongEdge(job: Job, s: set<Id>, a: Id, b: Id)
    requires WellFormed(job)
    ensures Edge(Among(Dependencies(job.steps), s), a, b) <==> Edge(Dependencies(job.steps), a, b) && a in s && b in s
  {
    WellFormedGraph(job);
    hide WellFormed, Dependencies;
    var g := Dependencies(job.steps);
    if a in g && a in s {
      ProperEntriesMember(g[a], a, s, b);
      assert !Edge(g, a, a);
    }
  }

  lemma SelectedEdge(job: Job, opts: Options, a: Id, b: Id)
    requires WellFormed(job)
    ensures Edge(Selected(job, opts), a, b) <==>
      Edge(Dependencies(job.steps), a, b) && a in ToRun(job, opts) && b in ToRun(job, opts)
  {
    hide WellFormed, Dependencies, ToRun;
    AmongEdge(job, ToRun(job, opts), a, b);
  }

  lemma SelectedGraph(job: Job, opts: Options)
    requires WellFormed(job)
    ensures Resolved(Selected(job, opts)) && !Cyclic(Selected(job, opts))
  {
    WellFormedGraph(job);
    hide WellFormed, Dependencies, ToRun, Cyclic;
    forall a, b ensures Edge(Selected(job, opts), a, b) ==> Edge(Dependencies(job.steps), a, b) && b in Selected(job, opts) {
      SelectedEdge(job, opts, a, b);
    }
    FewerEdgesAcyclic(Dependencies(job.steps), Selected(job, opts));
  }

  lemma StepInGraph(job: Job, i: nat)
    requires WellFormed(job) && i < |job.steps|
    ensures job.steps[i].id in Dependencies(job.steps)
    ensures Dependencies(job.steps)[job.steps[i].id] == job.steps[i].dependsOn
  {
    assert Nodes(job.steps)[i].id == job.steps[i].id;
    ByIdFinds(Nodes(job.steps), i);
  }

  // With everything selected, the rounds of a run are the levels of the execution plan
  lemma FullSelectionLayers(job: Job, k: nat)
    requires WellFormed(job)
    ensures Layer(Selected(job, EVERYTHING), k) == Layer(Dependencies(job.steps), k)
  {
    hide WellFormed, Dependencies, Below;
    var g, h := Dependencies(job.steps), Selected(job, EVERYTHING);
    assert ToRun(job, EVERYTHING) == g.Keys;
    forall a, b ensures Edge(h, a, b) <==> Edge(g, a, b) {
      WellFormedGraph(job);
      SelectedEdge(job, EVERYTHING, a, b);
    }
    SameEdgesBelow(g, h, k);
    SameEdgesBelow(g, h, k + 1);
  }

  // ----- Steps that can never start -----

  // A dependency of y is neither selected nor reused
  ghost predicate NeedsOutside(job: Job, opts: Options, y: Id) {
    y in Dependencies(job.steps) && exists d :: d in Dependencies(job.steps)[y] && InitialLog(opts, d).Outside?
  }

  // x waits, at the end of some chain of selected steps, for one that is neither selected nor reused
  ghost predicate Lacking(job: Job, opts: Options, x: Id) {
    exists y :: Reach(Selected(job, opts), x, y) && NeedsOutside(job, opts, y)
  }

  ghost function Startable(job: Job, opts: Options): set<Id> {
    set x | x in ToRun(job, opts) && !Lacking(job, opts, x)
  }

  // The part of the selected graph that a run can work off
  ghost function CoreGraph(job: Job, opts: Options): Graph {
    Among(Dependencies(job.steps), Startable(job, opts))
  }

  lemma CoreNodes(job: Job, opts: Options)
    ensures CoreGraph(job, opts).Keys == Startable(job, opts)
  {
    hide Lacking, Dependencies;
  }

  lemma CoreEdge(job: Job, opts: Options, a: Id, b: Id)
    requires WellFormed(job)
    ensures Edge(CoreGraph(job, opts), a, b) <==>
      Edge(Dependencies(job.steps), a, b) && a in Startable(job, opts) && b in Startable(job, opts)
  {
    hide WellFormed, Dependencies, Startable;
    AmongEdge(job, Startable(job, opts), a, b);
  }

  // A startable step waits only for reused and startable ones
  lemma StartableDependency(job: Job, opts: Options, x: Id, d: Id)
    requires WellFormed(job) && x in Startable(job, opts)
    requires Edge(Dependencies(job.steps), x, d)
    ensures !InitialLog(opts, d).Outside?
    ensures d in ToRun(job, opts) ==> d in Startable(job, opts)
  {
    var g := Selected(job, opts);
    ReachSelf(g, x);
    assert !NeedsOutside(job, opts, x);
    if d in ToRun(job, opts) {
      SelectedEdge(job, opts, x, d);
      hide WellFormed, Selected, Dependencies, ToRun, InitialLog, Reach, NeedsOutside;
      ReachEdge(g, x, d);
      forall y | Reach(g, d, y) ensures !NeedsOutside(job, opts, y) {
        ReachTransitive(g, x, d, y);
      }
    }
  }

  // When the selection lacks nothing, every selected step is startable
  lemma AvailableIsStartable(job: Job, opts: Options)
    requires WellFormed(job) && Available(job, opts)
    ensures Startable(job, opts) == ToRun(job, opts)
    ensures CoreGraph(job, opts) == Selected(job, opts)
  {
    hide WellFormed, Dependencies, Reach;
    forall x, y | x in ToRun(job, opts) && Reach(Selected(job, opts), x, y) ensures !NeedsOutside(job, opts, y) {
      SelectedReach(job, opts, x, y);
      AvailableToNode(job, opts, y);
    }
    CoreNodes(job, opts);
  }

  lemma SelectedReach(job: Job, opts: Options, x: Id, y: Id)
    requires WellFormed(job) && x in ToRun(job, opts) && Reach(Selected(job, opts), x, y)
    ensures y in ToRun(job, opts)
  {
    var g := Selected(job, opts);
    hide WellFormed, ToRun, Reach, Selected;
    forall a, b | Edge(g, a, b) ensures b in ToRun(job, opts) {
      SelectedEdge(job, opts, a, b);
    }
    ReachStaysInside(g, ToRun(job, opts), x, y);
  }

  lemma AvailableToNode(job: Job, opts: Options, y: Id)
    requires WellFormed(job) && Available(job, opts) && y in ToRun(job, opts)
    ensures !NeedsOutside(job, opts, y)
  {
    var m :| 0 <= m < |Nodes(job.steps)| && Nodes(job.steps)[m].id == y;
    assert job.steps[m].id == y;
    StepInGraph(job, m);
    hide WellFormed, Dependencies, Nodes, InitialLog;
  }

  // ----- Rounds -----

  // The steps of round k that really start: every ancestor succeeded
  ghost function StartedIn(g: Graph, logs: Logs, k: nat): set<Id> {
    set x | x in Layer(g, k) && x in logs && !logs[x].Blocked?
  }

  // Exactly the first k levels are decided, but for steps blocked early
  ghost predicate Decided(g: Graph, logs: Logs, k: nat) {
    && g.Keys <= logs.Keys
    && (forall x :: x in Below(g, k) ==> !logs[x].Pending?)
    && (forall x :: x in g && x !in Below(g, k) ==> logs[x].Pending? || logs[x].Blocked?)
  }

  // The batches so far are the first levels, without their blocked steps
  ghost predicate Staged(g: Graph, logs: Logs, batches: seq<set<Id>>) {
    && Decided(g, logs, |batches|)
    && (forall j :: 0 <= j < |batches| ==> batches[j] == StartedIn(g, logs, j) && batches[j] != {})
  }

  // Steps of earlier rounds keep their logs, so the rounds keep their steps
  lemma StartedInKept(g: Graph, logs: Logs, after: Logs, j: nat, k: nat)
    requires j < k && after.Keys == logs.Keys && g.Keys <= logs.Keys
    requires forall x :: x in Below(g, k) ==> after[x] == logs[x]
    ensures StartedIn(g, after, j) == StartedIn(g, logs, j)
  {
    hide Below;
    BelowGrows(g, j + 1, k);
    assert forall x :: x in Layer(g, j) ==> x in Below(g, k);
  }

  lemma StagedBlocks(g: Graph, logs: Logs, after: Logs, batches: seq<set<Id>>)
    requires Staged(g, logs, batches) && after.Keys == logs.Keys
    requires forall x :: x in logs && after[x] != logs[x] ==> logs[x].Pending? && after[x].Blocked?
    ensures Staged(g, after, batches)
  {
    hide Below, StartedIn;
    forall j | 0 <= j < |batches| ensures batches[j] == StartedIn(g, after, j) {
      StartedInKept(g, logs, after, j, |batches|);
    }
  }

  // A batch turns the steps of its level into verdicts, and no other step
  ghost predicate Executes(g: Graph, logs: Logs, after: Logs, k: nat) {
    && after.Keys == logs.Keys
    && (forall x :: x in logs && x !in StartedIn(g, logs, k) ==> after[x] == logs[x])
    && (forall x :: x in StartedIn(g, logs, k) ==> !after[x].Pending? && !after[x].Blocked?)
  }

  lemma DecidedNext(g: Graph, logs: Logs, after: Logs, k: nat)
    requires Decided(g, logs, k) && Executes(g, logs, after, k)
    ensures Decided(g, after, k + 1)
  {
    BelowGrows(g, k, k + 1);
    hide Below;
    forall x | x in Below(g, k + 1) ensures !after[x].Pending? {
      assert x in Below(g, k) || x in Layer(g, k);
    }
  }

  lemma StagedNext(g: Graph, logs: Logs, after: Logs, batches: seq<set<Id>>)
    requires Staged(g, logs, batches) && Executes(g, logs, after, |batches|)
    requires StartedIn(g, logs, |batches|) != {}
    ensures Staged(g, after, batches + [StartedIn(g, logs, |batches|)])
  {
    hide Below;
    var k := |batches|;
    var next := batches + [StartedIn(g, logs, k)];
    DecidedNext(g, logs, after, k);
    assert forall x :: x in Below(g, k) ==> x !in StartedIn(g, logs, k);
    assert StartedIn(g, after, k) == StartedIn(g, logs, k);
    hide StartedIn;
    forall j | 0 <= j < |next| ensures next[j] == StartedIn(g, after, j) && next[j] != {} {
      if j < k {
        StartedInKept(g, logs, after, j, k);
      }
    }
  }

  // Steps outside the graph do not matter
  lemma StagedElsewhere(g: Graph, logs: Logs, after: Logs, batches: seq<set<Id>>)
    requires Staged(g, logs, batches) && after.Keys == logs.Keys
    requires forall x :: x in g && x in logs ==> after[x] == logs[x]
    ensures Staged(g, after, batches)
  {
    assert forall k :: Below(g, k) <= g.Keys;
    hide Below;
    forall j | 0 <= j < |batches| ensures batches[j] == StartedIn(g, after, j) {
    }
  }

  // Once nothing is pending no further round has a step that could start
  lemma StagedDone(g: Graph, logs: Logs, batches: seq<set<Id>>, k: nat)
    requires Staged(g, logs, batches) && k >= |batches|
    requires forall x :: x in g && x in logs ==> !logs[x].Pending?
    ensures StartedIn(g, logs, k) == {}
  {
    BelowGrows(g, |batches|, k);
    hide Below;
  }

  // ----- The failure that speaks for the job -----

  // a is in no later round than b, and before b in ORDER when they share a round
  ghost predicate NoLater(g: Graph, a: Step, b: Step) {
    && (forall k: nat :: b.id in Below(g, k) ==> a.id in Below(g, k))
    && ((forall k: nat :: a.id in Below(g, k) ==> b.id in Below(g, k)) ==> a.order <= b.order)
  }

  ghost predicate Speaks(job: Job, g: Graph, logs: Logs, error: Error, i: nat)
    requires i < |job.steps|
  {
    && job.steps[i].id in logs && logs[job.steps[i].id] == Failed(error)
    && forall m :: 0 <= m < |job.steps| && job.steps[m].id in logs && logs[job.steps[m].id].Failed? ==>
      NoLater(g, job.steps[i], job.steps[m])
  }

  ghost predicate RepresentativeFailure(job: Job, g: Graph, logs: Logs, error: Error) {
    exists i :: 0 <= i < |job.steps| && Speaks(job, g, logs, error, i)
  }

  lemma RepresentativeIsUnique(job: Job, g: Graph, logs: Logs, error: Error, other: Error)
    requires UniqueOrders(job.steps)
    requires RepresentativeFailure(job, g, logs, error) && RepresentativeFailure(job, g, logs, other)
    ensures error == other
  {
    hide Below;
    var i :| 0 <= i < |job.steps| && Speaks(job, g, logs, error, i);
    var m :| 0 <= m < |job.steps| && Speaks(job, g, logs, other, m);
    assert NoLater(g, job.steps[i], job.steps[m]);
    assert NoLater(g, job.steps[m], job.steps[i]);
  }

  // ----- Laws of finished runs -----

  lemma SelectedStep(exec: Executor, job: Job, opts: Options, logs: Logs, x: Id) returns (i: nat)
    requires WellFormed(job) && Justified(exec, job, opts, logs) && x in logs
    ensures i < |job.steps| && job.steps[i].id == x && Explained(exec, job, logs, job.steps[i])
    ensures x in Dependencies(job.steps) && Dependencies(job.steps)[x] == job.steps[i].dependsOn
    ensures x in ToRun(job, opts) <==> InitialLog(opts, x).Pending?
    ensures logs[x].Unsatisfied() ==> x in ToRun(job, opts)
  {
    i := StepOf(job, x);
  }

  lemma SelectedHasLog(exec: Executor, job: Job, opts: Options, logs: Logs, x: Id)
    requires Justified(exec, job, opts, logs) && x in ToRun(job, opts)
    ensures x in logs && HasStep(job.steps, x)
  {
    var i :| 0 <= i < |Nodes(job.steps)| && Nodes(job.steps)[i].id == x;
    assert job.steps[i].id == x;
  }

  // A step at the start of a chain to one that waits for an outside step never has all it waits for
  lemma {:induction false} LackingPath(exec: Executor, job: Job, opts: Options, logs: Logs, p: seq<Id>, i: nat)
    requires WellFormed(job) && Justified(exec, job, opts, logs)
    requires IsPath(Selected(job, opts), p) && NeedsOutside(job, opts, p[|p| - 1])
    requires i < |job.steps| && job.steps[i].id == p[0]
    ensures !AllSatisfied(job.steps[i], logs)
    decreases |p|
  {
    if |p| == 1 {
      OutsideNeverSatisfied(exec, job, opts, logs, i);
    } else {
      StepInGraph(job, i);
      hide WellFormed, Justified, Selected, Dependencies, ToRun, InitialLog, NeedsOutside, Ran;
      var d := p[1];
      assert Edge(Selected(job, opts), p[0], d);
      SelectedEdge(job, opts, p[0], d);
      SelectedHasLog(exec, job, opts, logs, d);
      var m := SelectedStep(exec, job, opts, logs, d);
      LackingPath(exec, job, opts, logs, p[1..], m);
      SelectedNotReused(exec, job, opts, logs, d);
      var j :| 0 <= j < |job.steps[i].dependsOn| && job.steps[i].dependsOn[j] == d;
    }
  }

  lemma OutsideNeverSatisfied(exec: Executor, job: Job, opts: Options, logs: Logs, i: nat)
    requires WellFormed(job) && Justified(exec, job, opts, logs)
    requires i < |job.steps| && NeedsOutside(job, opts, job.steps[i].id)
    ensures !AllSatisfied(job.steps[i], logs)
  {
    StepInGraph(job, i);
    hide WellFormed, Dependencies, Explained;
    var d :| d in job.steps[i].dependsOn && InitialLog(opts, d).Outside?;
    var j :| 0 <= j < |job.steps[i].dependsOn| && job.steps[i].dependsOn[j] == d;
  }

  lemma SelectedNotReused(exec: Executor, job: Job, opts: Options, logs: Logs, x: Id)
    requires Justified(exec, job, opts, logs) && x in ToRun(job, opts) && x in logs
    ensures !logs[x].Reused? && !logs[x].Outside?
  {
    hide Explained, Dependencies;
  }

  // A lacking step never starts
  lemma LackingNeverStarts(exec: Executor, job: Job, opts: Options, logs: Logs, i: nat)
    requires WellFormed(job) && Justified(exec, job, opts, logs) && i < |job.steps|
    requires job.steps[i].id in ToRun(job, opts) && job.steps[i].id !in Startable(job, opts)
    ensures !AllSatisfied(job.steps[i], logs) && job.steps[i].id in logs
    ensures !logs[job.steps[i].id].Satisfied() && !logs[job.steps[i].id].Failed?
  {
    var x := job.steps[i].id;
    var y :| Reach(Selected(job, opts), x, y) && NeedsOutside(job, opts, y);
    var p :| PathFromTo(Selected(job, opts), p, x, y);
    JustifiedStep(exec, job, opts, logs, i);
    hide WellFormed, Justified, Selected, NeedsOutside, ToRun, AllSatisfied, SomeUnsatisfied, Ran;
    LackingPath(exec, job, opts, logs, p, i);
    SelectedNotReused(exec, job, opts, logs, x);
  }

  lemma DependencyLog(exec: Executor, job: Job, opts: Options, logs: Logs, i: nat, j: nat)
    requires WellFormed(job) && Justified(exec, job, opts, logs)
    requires i < |job.steps| && j < |job.steps[i].dependsOn|
    ensures job.steps[i].dependsOn[j] in logs
    ensures Edge(Dependencies(job.steps), job.steps[i].id, job.steps[i].dependsOn[j])
    ensures job.steps[i].dependsOn[j] in Dependencies(job.steps)
  {
    StepInGraph(job, i);
    assert GoodDependencies(job.steps, job.steps[i]);
    var m :| 0 <= m < |job.steps| && job.steps[m].id == job.steps[i].dependsOn[j];
    StepInGraph(job, m);
    assert HasStep(job.steps, job.steps[i].dependsOn[j]);
  }

  // A blocked step has an unsatisfied dependency among the selected steps
  lemma BlockedHasBlocker(exec: Executor, job: Job, opts: Options, logs: Logs, x: Id) returns (d: Id)
    requires WellFormed(job) && Justified(exec, job, opts, logs) && x in logs && logs[x].Blocked?
    ensures Edge(Selected(job, opts), x, d) && d in logs && logs[d].Unsatisfied()
  {
    var i := SelectedStep(exec, job, opts, logs, x);
    assert SomeUnsatisfied(job.steps[i], logs);
    hide WellFormed, Justified, Explained, Selected, Dependencies, ToRun, InitialLog;
    var j :| 0 <= j < |job.steps[i].dependsOn| && job.steps[i].dependsOn[j] in logs &&
      logs[job.steps[i].dependsOn[j]].Unsatisfied();
    d := job.steps[i].dependsOn[j];
    var m := SelectedStep(exec, job, opts, logs, d);
    SelectedEdge(job, opts, x, d);
  }

  // And so, at the end of a chain of blockers, a failed ancestor
  lemma {:induction false} BlockedHasFailedAncestor(
    exec: Executor, job: Job, opts: Options, logs: Logs, x: Id, k: nat) returns (f: Id)
    requires WellFormed(job) && Justified(exec, job, opts, logs)
    requires x in logs && logs[x].Blocked? && x in Below(Selected(job, opts), k)
    ensures f != x && f in logs && logs[f].Failed? && Reach(Selected(job, opts), x, f)
    decreases k
  {
    hide WellFormed, Justified, Selected, Reach;
    var d := BlockedHasBlocker(exec, job, opts, logs, x);
    ReachEdge(Selected(job, opts), x, d);
    f := d;
    if logs[d].Blocked? {
      BelowEdge(Selected(job, opts), x, d, k);
      f := BlockedHasFailedAncestor(exec, job, opts, logs, d, k - 1);
      ReachTransitive(Selected(job, opts), x, d, f);
    }
  }

  lemma ExhaustedStep(exec: Executor, job: Job, opts: Options, logs: Logs, i: nat)
    requires Exhausted(exec, job, opts, logs) && i < |job.steps| && InitialLog(opts, job.steps[i].id).Pending?
    ensures IsOver(job.steps[i], logs)
  {
    hide Justified, IsOver;
  }

  lemma ExhaustedParts(exec: Executor, job: Job, opts: Options, logs: Logs)
    requires Exhausted(exec, job, opts, logs)
    ensures Justified(exec, job, opts, logs)
  {
  }

  // A run that was left alone leaves no dependent of an unsatisfied step unblocked
  lemma DependentIsBlocked(exec: Executor, job: Job, opts: Options, logs: Logs, x: Id, d: Id)
    requires WellFormed(job) && Exhausted(exec, job, opts, logs)
    requires Edge(Selected(job, opts), x, d) && d in logs && logs[d].Unsatisfied()
    ensures x in logs && logs[x].Blocked?
  {
    hide WellFormed, Exhausted, Justified, Selected, Dependencies, ToRun, InitialLog, Ran, HasStep;
    ExhaustedParts(exec, job, opts, logs);
    SelectedEdge(job, opts, x, d);
    SelectedHasLog(exec, job, opts, logs, x);
    var i := SelectedStep(exec, job, opts, logs, x);
    ExhaustedStep(exec, job, opts, logs, i);
    var j :| 0 <= j < |job.steps[i].dependsOn| && job.steps[i].dependsOn[j] == d;
    assert !AllSatisfied(job.steps[i], logs);
  }

  lemma {:induction false} FailureBlocksPath(exec: Executor, job: Job, opts: Options, logs: Logs, p: seq<Id>)
    requires WellFormed(job) && Exhausted(exec, job, opts, logs)
    requires IsPath(Selected(job, opts), p) && |p| > 1
    requires p[|p| - 1] in logs && logs[p[|p| - 1]].Unsatisfied()
    ensures p[0] in logs && logs[p[0]].Blocked?
    decreases |p|
  {
    hide WellFormed, Exhausted, Selected;
    assert Edge(Selected(job, opts), p[0], p[1]);
    if |p| > 2 {
      FailureBlocksPath(exec, job, opts, logs, p[1..]);
    }
    DependentIsBlocked(exec, job, opts, logs, p[0], p[1]);
  }

  // A selected step is skipped exactly when one of its selected ancestors failed
  lemma BlockedIffAncestorFailed(exec: Executor, job: Job, opts: Options, logs: Logs, x: Id)
    requires WellFormed(job) && Exhausted(exec, job, opts, logs) && x in ToRun(job, opts)
    ensures x in logs
    ensures logs[x].Blocked? <==>
      exists f :: f != x && f in logs && logs[f].Failed? && Reach(Selected(job, opts), x, f)
  {
    var g := Selected(job, opts);
    SelectedHasLog(exec, job, opts, logs, x);
    SelectedGraph(job, opts);
    if logs[x].Blocked? {
      EveryNodeHasDepth(g, 0);
      var n: nat :| Below(g, n) == g.Keys;
      var f := BlockedHasFailedAncestor(exec, job, opts, logs, x, n);
    }
    if f :| f != x && f in logs && logs[f].Failed? && Reach(g, x, f) {
      var p :| PathFromTo(g, p, x, f);
      FailureBlocksPath(exec, job, opts, logs, p);
    }
  }

  // How a run that was left alone leaves a step
  lemma ExhaustedLog(exec: Executor, job: Job, opts: Options, logs: Logs, i: nat)
    requires Exhausted(exec, job, opts, logs) && i < |job.steps|
    ensures job.steps[i].id in logs
    ensures var log := logs[job.steps[i].id];
      if InitialLog(opts, job.steps[i].id).Pending? then Final(log) || log.Cancelled?
      else log == InitialLog(opts, job.steps[i].id)
  {
    JustifiedStep(exec, job, opts, logs, i);
    if InitialLog(opts, job.steps[i].id).Pending? {
      ExhaustedStep(exec, job, opts, logs, i);
    }
  }

  // A startable step that was cut off would wait for another one
  lemma CutOffPointsOn(exec: Executor, job: Job, opts: Options, logs: Logs, x: Id) returns (d: Id)
    requires WellFormed(job) && Exhausted(exec, job, opts, logs)
    requires x in Startable(job, opts) && x in logs && logs[x].Cancelled?
    ensures Edge(Dependencies(job.steps), x, d) && d in Startable(job, opts) && d in logs && logs[d].Cancelled?
  {
    ExhaustedParts(exec, job, opts, logs);
    assert x in ToRun(job, opts);
    hide WellFormed, Exhausted, Justified, Dependencies, ToRun, Startable, Explained;
    var i := SelectedStep(exec, job, opts, logs, x);
    ExhaustedStep(exec, job, opts, logs, i);
    var j :| 0 <= j < |job.steps[i].dependsOn| &&
      !(job.steps[i].dependsOn[j] in logs && logs[job.steps[i].dependsOn[j]].Satisfied());
    d := job.steps[i].dependsOn[j];
    DependencyLog(exec, job, opts, logs, i, j);
    assert !SomeUnsatisfied(job.steps[i], logs);
    var m := SelectedStep(exec, job, opts, logs, d);
    StartableDependency(job, opts, x, d);
    ExhaustedLog(exec, job, opts, logs, m);
  }

  // Of the steps of a run that was left alone, those it cut off are the lacking ones no failure had blocked
  lemma CutOffIffLacking(exec: Executor, job: Job, opts: Options, logs: Logs, x: Id)
    requires WellFormed(job) && Exhausted(exec, job, opts, logs) && x in ToRun(job, opts)
    ensures x in logs
    ensures logs[x].Cancelled? <==> x !in Startable(job, opts) && !logs[x].Blocked?
  {
    ExhaustedParts(exec, job, opts, logs);
    SelectedHasLog(exec, job, opts, logs, x);
    var i := SelectedStep(exec, job, opts, logs, x);
    ExhaustedLog(exec, job, opts, logs, i);
    hide WellFormed, Exhausted, Justified, Dependencies, ToRun, Startable, Explained, Cyclic;
    if x !in Startable(job, opts) {
      LackingNeverStarts(exec, job, opts, logs, i);
    } else if logs[x].Cancelled? {
      var g, cut := Dependencies(job.steps), set y | y in logs && y in Startable(job, opts) && logs[y].Cancelled?;
      assert x in cut;
      forall y | y in cut ensures PointsInto(g, cut, y) {
        var d := CutOffPointsOn(exec, job, opts, logs, y);
        assert d in cut;
      }
      StuckSetIsCyclic(g, cut);
      WellFormedGraph(job);
    }
  }

  // Without a failure nothing is blocked
  lemma NothingBlocked(exec: Executor, job: Job, opts: Options, logs: Logs)
    requires WellFormed(job) && Complete(exec, job, opts, logs)
    requires forall x :: x in logs ==> !logs[x].Failed?
    ensures forall x :: x in logs ==> logs[x].Satisfied() || logs[x].Outside?
    ensures Available(job, opts)
  {
    CompleteIsExhausted(exec, job, opts, logs);
    forall x | x in logs ensures !logs[x].Blocked? {
      if logs[x].Blocked? {
        var i := SelectedStep(exec, job, opts, logs, x);
        BlockedIffAncestorFailed(exec, job, opts, logs, x);
      }
    }
    forall i, j | 0 <= i < |job.steps| && 0 <= j < |job.steps[i].dependsOn| && InitialLog(opts, job.steps[i].id).Pending?
      ensures !InitialLog(opts, job.steps[i].dependsOn[j]).Outside?
    {
      JustifiedStep(exec, job, opts, logs, i);
      assert AllSatisfied(job.steps[i], logs);
    }
  }
}
