/**
 * The local variables of JobRunner.run (src/core/JobRunner.ts) and what holds of them between
 * rounds: the start of a run, and the skipping of blocked steps.
 */
module RunState {
  import opened Wrappers
  import opened Graph
  import opened JobGraph
  import opened Jobs
  import opened JsonValues
  import opened Validator
  import opened RunSpec
  import opened StepTask

  datatype RunState = RunState(
    logs: Logs, pending: seq<Step>, successful: set<Id>, unsuccessful: set<Id>, context: Context)

  // ----- Lists of steps in ORDER -----

  // In strictly increasing ORDER, as Map insertion after the sort keeps them
  ghost predicate Ordered(steps: seq<Step>) {
    forall i, j :: 0 <= i < j < |steps| ==> steps[i].order < steps[j].order
  }

  lemma PrependOrdered(head: Step, rest: seq<Step>)
    requires Ordered(rest) && forall s :: s in rest ==> head.order < s.order
    ensures Ordered([head] + rest)
  {
    assert forall j :: 0 <= j < |rest| ==> rest[j] in rest;
  }

  lemma OrderedHead(steps: seq<Step>)
    requires Ordered(steps) && steps != []
    ensures Ordered(steps[1..]) && forall s :: s in steps[1..] ==> steps[0].order < s.order
  {
  }

  function Insert(step: Step, sorted: seq<Step>): seq<Step> {
    if sorted == [] then [step]
    else if step.order < sorted[0].order then [step] + sorted
    else [sorted[0]] + Insert(step, sorted[1..])
  }

  // The steps in ascending ORDER
  function SortByOrder(steps: seq<Step>): seq<Step> {
    if steps == [] then [] else Insert(steps[0], SortByOrder(steps[1..]))
  }

  lemma {:induction false} InsertSorts(step: Step, sorted: seq<Step>)
    requires Ordered(sorted) && forall s :: s in sorted ==> s.order != step.order
    ensures Ordered(Insert(step, sorted))
    ensures forall s :: s in Insert(step, sorted) <==> s == step || s in sorted
  {
    if sorted != [] {
      OrderedHead(sorted);
      assert sorted == [sorted[0]] + sorted[1..];
      if step.order < sorted[0].order {
        PrependOrdered(step, sorted);
      } else {
        InsertSorts(step, sorted[1..]);
        PrependOrdered(sorted[0], Insert(step, sorted[1..]));
      }
    }
  }

  lemma {:induction false} SortSorts(steps: seq<Step>)
    requires UniqueOrders(steps)
    ensures Ordered(SortByOrder(steps))
    ensures forall s :: s in SortByOrder(steps) <==> s in steps
  {
    if steps != [] {
      assert steps == [steps[0]] + steps[1..];
      SortSorts(steps[1..]);
      InsertSorts(steps[0], SortByOrder(steps[1..]));
    }
  }

  // The pending steps but for one
  function Without(pending: seq<Step>, id: Id): seq<Step> {
    if pending == [] then []
    else if pending[0].id == id then Without(pending[1..], id)
    else [pending[0]] + Without(pending[1..], id)
  }

  lemma {:induction false} WithoutIsFilter(pending: seq<Step>, id: Id)
    requires Ordered(pending)
    ensures Ordered(Without(pending, id))
    ensures forall s :: s in Without(pending, id) <==> s in pending && s.id != id
    ensures |Without(pending, id)| <= |pending|
    ensures (exists s :: s in pending && s.id == id) ==> |Without(pending, id)| < |pending|
  {
    if pending != [] {
      OrderedHead(pending);
      assert pending == [pending[0]] + pending[1..];
      WithoutIsFilter(pending[1..], id);
      if pending[0].id != id {
        PrependOrdered(pending[0], Without(pending[1..], id));
      }
    }
  }

  // Every dependency is in the set of successful steps
  predicate IsRunnable(step: Step, successful: set<Id>) {
    forall j :: 0 <= j < |step.dependsOn| ==> step.dependsOn[j] in successful
  }

  // The pending steps that can start now, in their order
  function Runnable(pending: seq<Step>, successful: set<Id>): seq<Step> {
    if pending == [] then []
    else if IsRunnable(pending[0], successful) then [pending[0]] + Runnable(pending[1..], successful)
    else Runnable(pending[1..], successful)
  }

  lemma {:induction false} RunnableIsFilter(pending: seq<Step>, successful: set<Id>)
    requires Ordered(pending)
    ensures Ordered(Runnable(pending, successful))
    ensures forall s :: s in Runnable(pending, successful) <==> s in pending && IsRunnable(s, successful)
  {
    if pending != [] {
      OrderedHead(pending);
      assert pending == [pending[0]] + pending[1..];
      RunnableIsFilter(pending[1..], successful);
      if IsRunnable(pending[0], successful) {
        PrependOrdered(pending[0], Runnable(pending[1..], successful));
      }
    }
  }

  lemma SameIdSameStep(job: Job, step: Step, other: Step)
    requires UniqueStepIds(job.steps) && step in job.steps && other in job.steps && step.id == other.id
    ensures step == other
  {
    var i :| 0 <= i < |job.steps| && job.steps[i] == step;
    var k :| 0 <= k < |job.steps| && job.steps[k] == other;
  }

  // ----- What holds between rounds -----

  // The steps still listed have not started
  ghost predicate Listed(job: Job, st: RunState) {
    && Ordered(st.pending)
    && forall s :: s in st.pending ==> s in job.steps && s.id in st.logs && st.logs[s.id].Pending?
  }

  // No step that has not started was dropped from the list
  ghost predicate NoneDropped(job: Job, st: RunState) {
    forall i :: 0 <= i < |job.steps| ==>
      job.steps[i].id in st.logs && (st.logs[job.steps[i].id].Pending? ==> job.steps[i] in st.pending)
  }

  ghost predicate NoneRunning(logs: Logs) {
    forall x :: x in logs ==> !logs[x].Running?
  }

  // The sets and the context mirror the logs
  ghost predicate Mirrored(st: RunState) {
    && st.successful <= st.logs.Keys && st.unsuccessful <= st.logs.Keys
    && (forall x :: x in st.logs ==> (x in st.successful <==> st.logs[x].Satisfied()))
    && (forall x :: x in st.logs ==> (x in st.unsuccessful <==> st.logs[x].Unsatisfied()))
    && st.context.Keys == st.successful
    && (forall x :: x in st.successful ==> st.logs[x].Satisfied() && st.context[x] == st.logs[x].Output())
    && (forall x :: x in st.logs ==> !st.logs[x].Running? && !st.logs[x].Cancelled? && !st.logs[x].Interrupted?)
  }

  ghost predicate Inv(exec: Executor, job: Job, opts: Options, st: RunState) {
    Justified(exec, job, opts, st.logs) && Listed(job, st) && NoneDropped(job, st) && Mirrored(st)
  }

  lemma InvParts(exec: Executor, job: Job, opts: Options, st: RunState)
    requires Inv(exec, job, opts, st)
    ensures Justified(exec, job, opts, st.logs) && Listed(job, st) && NoneDropped(job, st) && Mirrored(st)
  {
  }

  lemma ListedStep(job: Job, st: RunState, step: Step)
    requires Listed(job, st) && step in st.pending
    ensures step in job.steps && step.id in st.logs && st.logs[step.id].Pending?
  {
  }

  lemma StepsLogged(exec: Executor, job: Job, opts: Options, logs: Logs)
    requires Justified(exec, job, opts, logs)
    ensures forall i :: 0 <= i < |job.steps| ==> job.steps[i].id in logs
  {
  }

  // ----- Logs that only move on from pending -----

  ghost predicate Grows(logs: Logs, after: Logs) {
    after.Keys == logs.Keys && forall x :: x in logs && !logs[x].Pending? ==> after[x] == logs[x]
  }

  lemma SameInputs(step: Step, logs: Logs, after: Logs)
    requires Grows(logs, after) && AllSatisfied(step, logs)
    ensures AllSatisfied(step, after) && Inputs(step, after) == Inputs(step, logs)
  {
    forall d | d in step.dependsOn ensures d in logs && logs[d].Satisfied() && after[d] == logs[d] {
      var j :| 0 <= j < |step.dependsOn| && step.dependsOn[j] == d;
    }
  }

  lemma SameBlocker(step: Step, logs: Logs, after: Logs)
    requires Grows(logs, after) && SomeUnsatisfied(step, logs)
    ensures SomeUnsatisfied(step, after)
  {
    var j :| 0 <= j < |step.dependsOn| && step.dependsOn[j] in logs && logs[step.dependsOn[j]].Unsatisfied();
    assert after[step.dependsOn[j]].Unsatisfied();
  }

  lemma ExplainedGrows(exec: Executor, job: Job, logs: Logs, after: Logs, step: Step)
    requires step.id in logs && Grows(logs, after) && after[step.id] == logs[step.id]
    requires Explained(exec, job, logs, step)
    ensures Explained(exec, job, after, step)
  {
    hide Ran, Inputs, AllSatisfied, SomeUnsatisfied;
    if SomeUnsatisfied(step, logs) {
      SameBlocker(step, logs, after);
    }
    if AllSatisfied(step, logs) {
      SameInputs(step, logs, after);
    }
  }

  // A step that moved on from pending, to anything its dependencies explain
  ghost predicate Moved(exec: Executor, job: Job, logs: Logs, after: Logs, step: Step)
    requires step.id in logs && after.Keys == logs.Keys
  {
    after[step.id] == logs[step.id]
    || (Explained(exec, job, after, step) && !after[step.id].Outside? && !after[step.id].Reused?)
  }

  lemma JustifiedGrows(exec: Executor, job: Job, opts: Options, logs: Logs, after: Logs)
    requires Justified(exec, job, opts, logs) && Grows(logs, after)
    requires forall i :: 0 <= i < |job.steps| ==> Moved(exec, job, logs, after, job.steps[i])
    ensures Justified(exec, job, opts, after)
  {
    hide Explained;
    forall i | 0 <= i < |job.steps| ensures Explained(exec, job, after, job.steps[i]) {
      assert Moved(exec, job, logs, after, job.steps[i]);
      if after[job.steps[i].id] == logs[job.steps[i].id] {
        ExplainedGrows(exec, job, logs, after, job.steps[i]);
      }
    }
    forall x | x in logs && logs[x].Pending? ensures !after[x].Outside? && !after[x].Reused? {
      var i :| 0 <= i < |job.steps| && job.steps[i].id == x;
      assert Moved(exec, job, logs, after, job.steps[i]);
    }
  }

  // ----- Skipping blocked steps -----

  predicate HasBlocker(step: Step, unsuccessful: set<Id>) {
    exists j :: 0 <= j < |step.dependsOn| && step.dependsOn[j] in unsuccessful
  }

  function Block(st: RunState, step: Step): RunState {
    st.(logs := st.logs[step.id := Blocked],
        pending := Without(st.pending, step.id),
        unsuccessful := st.unsuccessful + {step.id})
  }

  // What skipping may do to the state
  ghost predicate OnlyBlocks(st: RunState, after: RunState) {
    && after.successful == st.successful && after.context == st.context
    && after.logs.Keys == st.logs.Keys
    && (forall x :: x in st.logs && after.logs[x] != st.logs[x] ==> st.logs[x].Pending? && after.logs[x].Blocked?)
    && |after.pending| <= |st.pending|
  }

  lemma BlockExplained(exec: Executor, job: Job, st: RunState, step: Step)
    requires Mirrored(st) && step.id in st.logs && st.logs[step.id].Pending? && HasBlocker(step, st.unsuccessful)
    ensures Explained(exec, job, Block(st, step).logs, step)
  {
    hide Ran, Inputs, Without;
    var j :| 0 <= j < |step.dependsOn| && step.dependsOn[j] in st.unsuccessful;
    assert Block(st, step).logs[step.dependsOn[j]].Unsatisfied();
  }

  lemma BlockJustified(exec: Executor, job: Job, opts: Options, st: RunState, step: Step)
    requires UniqueStepIds(job.steps) && Inv(exec, job, opts, st)
    requires step in st.pending && HasBlocker(step, st.unsuccessful)
    ensures Justified(exec, job, opts, Block(st, step).logs)
  {
    hide Inv, Explained, Mirrored, Listed, NoneDropped, Justified, UniqueStepIds, HasBlocker, Without;
    var after := Block(st, step).logs;
    InvParts(exec, job, opts, st);
    ListedStep(job, st, step);
    StepsLogged(exec, job, opts, st.logs);
    BlockExplained(exec, job, st, step);
    forall i | 0 <= i < |job.steps| ensures Moved(exec, job, st.logs, after, job.steps[i]) {
      if job.steps[i].id == step.id {
        SameIdSameStep(job, step, job.steps[i]);
      }
    }
    JustifiedGrows(exec, job, opts, st.logs, after);
  }

  lemma BlockListed(job: Job, st: RunState, step: Step)
    requires UniqueStepIds(job.steps) && Listed(job, st) && NoneDropped(job, st) && step in st.pending
    ensures Listed(job, Block(st, step)) && NoneDropped(job, Block(st, step))
    ensures |Block(st, step).pending| < |st.pending|
  {
    WithoutIsFilter(st.pending, step.id);
  }

  lemma BlockMirrored(st: RunState, step: Step)
    requires Mirrored(st) && step.id in st.logs && st.logs[step.id].Pending?
    ensures Mirrored(Block(st, step))
  {
    hide Without;
  }

  lemma BlockKeepsInv(exec: Executor, job: Job, opts: Options, st: RunState, step: Step)
    requires UniqueStepIds(job.steps) && Inv(exec, job, opts, st)
    requires step in st.pending && HasBlocker(step, st.unsuccessful)
    ensures Inv(exec, job, opts, Block(st, step)) && OnlyBlocks(st, Block(st, step))
    ensures |Block(st, step).pending| < |st.pending|
  {
    hide Justified, Listed, NoneDropped, Mirrored, UniqueStepIds, HasBlocker, Without;
    ListedStep(job, st, step);
    BlockJustified(exec, job, opts, st, step);
    BlockListed(job, st, step);
    BlockMirrored(st, step);
  }

  ghost predicate NoneBlocked(st: RunState) {
    forall s :: s in st.pending ==> !HasBlocker(s, st.unsuccessful)
  }

  // One pass over a snapshot of the pending steps
  method SkipPass(ghost exec: Executor, job: Job, ghost opts: Options, st0: RunState, before: Signal)
    returns (st: RunState, changed: bool, signal: Signal)
    requires UniqueStepIds(job.steps) && Inv(exec, job, opts, st0)
    ensures Later(before, signal)
    ensures Inv(exec, job, opts, st) && OnlyBlocks(st0, st)
    ensures changed ==> |st.pending| < |st0.pending|
    ensures !changed ==> NoneBlocked(st)
  {
    hide Justified, Mirrored, NoneDropped, HasBlocker, Without, UniqueStepIds;
    st, changed, signal := st0, false, before;
    for i := 0 to |st0.pending|
      invariant Later(before, signal)
      invariant Inv(exec, job, opts, st) && OnlyBlocks(st0, st)
      invariant forall k :: i <= k < |st0.pending| ==> st0.pending[k] in st.pending
      invariant changed ==> |st.pending| < |st0.pending|
      invariant !changed ==> st == st0 && forall k :: 0 <= k < i ==> !HasBlocker(st0.pending[k], st.unsuccessful)
    {
      var step := st0.pending[i];
      if HasBlocker(step, st.unsuccessful) {
        BlockKeepsInv(exec, job, opts, st, step);
        StillPending(job, st0.pending, st.pending, i);
        signal := Await(signal);
        st := Block(st, step);
        changed := true;
      }
    }
  }

  lemma StillPending(job: Job, snapshot: seq<Step>, pending: seq<Step>, i: nat)
    requires UniqueStepIds(job.steps) && Ordered(snapshot) && Ordered(pending) && i < |snapshot|
    requires forall s :: s in snapshot ==> s in job.steps
    requires forall k :: i <= k < |snapshot| ==> snapshot[k] in pending
    ensures forall k :: i < k < |snapshot| ==> snapshot[k] in Without(pending, snapshot[i].id)
  {
    WithoutIsFilter(pending, snapshot[i].id);
    forall k | i < k < |snapshot| ensures snapshot[k].id != snapshot[i].id {
      if snapshot[k].id == snapshot[i].id {
        SameIdSameStep(job, snapshot[i], snapshot[k]);
      }
    }
  }

  method SkipDependencyBlocked(ghost exec: Executor, job: Job, ghost opts: Options, st0: RunState, before: Signal)
    returns (st: RunState, signal: Signal)
    requires UniqueStepIds(job.steps) && Inv(exec, job, opts, st0)
    ensures Later(before, signal)
    ensures Inv(exec, job, opts, st) && OnlyBlocks(st0, st) && NoneBlocked(st)
  {
    hide Inv, NoneBlocked, UniqueStepIds;
    st, signal := st0, before;
    var changed := true;
    while changed
      invariant Later(before, signal)
      invariant Inv(exec, job, opts, st) && OnlyBlocks(st0, st)
      invariant !changed ==> NoneBlocked(st)
      decreases |st.pending|, changed
    {
      st, changed, signal := SkipPass(exec, job, opts, st, signal);
    }
  }

  // ----- The start of a run -----

  ghost predicate Initial(opts: Options, logs: Logs) {
    forall x :: x in logs ==> logs[x] == InitialLog(opts, x)
  }

  // The steps before i in ORDER have their initial log
  ghost predicate Started(opts: Options, steps: seq<Step>, i: nat, st: RunState)
    requires i <= |steps|
  {
    && (forall x :: x in st.logs <==> exists k :: 0 <= k < i && steps[k].id == x)
    && Initial(opts, st.logs)
    && (forall s :: s in st.pending <==> s in steps[..i] && InitialLog(opts, s.id).Pending?)
  }

  function Begin(opts: Options, st: RunState, step: Step): RunState {
    match InitialLog(opts, step.id)
    case Reused(v) =>
      st.(logs := st.logs[step.id := Reused(v)],
          successful := st.successful + {step.id},
          context := st.context[step.id := v])
    case Pending => st.(logs := st.logs[step.id := Pending], pending := st.pending + [step])
    case log => st.(logs := st.logs[step.id := log])
  }

  lemma BeginShape(opts: Options, st: RunState, step: Step)
    ensures Begin(opts, st, step).logs == st.logs[step.id := InitialLog(opts, step.id)]
    ensures Begin(opts, st, step).pending == st.pending + if InitialLog(opts, step.id).Pending? then [step] else []
  {
  }

  lemma BeginStarted(opts: Options, steps: seq<Step>, i: nat, st: RunState)
    requires i < |steps| && Started(opts, steps, i, st)
    ensures Started(opts, steps, i + 1, Begin(opts, st, steps[i]))
  {
    hide Begin, InitialLog;
    BeginShape(opts, st, steps[i]);
    var after := Begin(opts, st, steps[i]);
    forall x ensures x in after.logs <==> exists k :: 0 <= k < i + 1 && steps[k].id == x {
      assert x in after.logs <==> x in st.logs || x == steps[i].id;
    }
    forall s ensures s in after.pending <==> s in steps[..i + 1] && InitialLog(opts, s.id).Pending? {
      assert steps[..i + 1] == steps[..i] + [steps[i]];
    }
  }

  lemma AppendOrdered(steps: seq<Step>, last: Step)
    requires Ordered(steps) && forall s :: s in steps ==> s.order < last.order
    ensures Ordered(steps + [last])
  {
  }

  lemma BeginOrdered(opts: Options, steps: seq<Step>, i: nat, st: RunState)
    requires Ordered(steps) && i < |steps| && Started(opts, steps, i, st) && Ordered(st.pending)
    ensures Ordered(Begin(opts, st, steps[i]).pending)
  {
    forall s | s in st.pending ensures s.order < steps[i].order {
      assert s in steps[..i];
    }
    hide Begin, InitialLog, Ordered, Started;
    BeginShape(opts, st, steps[i]);
    AppendOrdered(st.pending, steps[i]);
    assert st.pending + [] == st.pending;
  }

  lemma BeginMirrored(opts: Options, st: RunState, step: Step)
    requires Mirrored(st) && step.id !in st.logs
    ensures Mirrored(Begin(opts, st, step))
  {
  }

  lemma FreshId(job: Job, opts: Options, steps: seq<Step>, i: nat, st: RunState)
    requires UniqueStepIds(job.steps) && Ordered(steps) && forall s :: s in steps ==> s in job.steps
    requires i < |steps| && Started(opts, steps, i, st)
    ensures steps[i].id !in st.logs
  {
    if steps[i].id in st.logs {
      var k :| 0 <= k < i && steps[k].id == steps[i].id;
      SameIdSameStep(job, steps[k], steps[i]);
    }
  }

  lemma StartedCovers(job: Job, opts: Options, steps: seq<Step>, st: RunState)
    requires (forall s :: s in steps <==> s in job.steps) && Started(opts, steps, |steps|, st)
    ensures Covers(job, st.logs)
  {
    hide Initial, InitialLog;
    forall x ensures x in st.logs <==> HasStep(job.steps, x) {
      if x in st.logs {
        var k :| 0 <= k < |steps| && steps[k].id == x;
        assert steps[k] in job.steps;
      }
      if HasStep(job.steps, x) {
        var i :| 0 <= i < |job.steps| && job.steps[i].id == x;
        assert job.steps[i] in steps;
      }
    }
  }

  lemma StartedJustified(exec: Executor, job: Job, opts: Options, logs: Logs)
    requires Covers(job, logs) && Initial(opts, logs)
    ensures Justified(exec, job, opts, logs)
  {
    hide Ran, AllSatisfied, SomeUnsatisfied, Inputs;
    forall i | 0 <= i < |job.steps| ensures Explained(exec, job, logs, job.steps[i]) {
      assert HasStep(job.steps, job.steps[i].id);
    }
  }

  lemma StartedListed(job: Job, opts: Options, steps: seq<Step>, st: RunState)
    requires (forall s :: s in steps <==> s in job.steps) && Started(opts, steps, |steps|, st)
    requires Covers(job, st.logs) && Ordered(st.pending)
    ensures Listed(job, st) && NoneDropped(job, st)
  {
    assert steps[..|steps|] == steps;
    hide InitialLog, Ordered;
    forall i | 0 <= i < |job.steps|
      ensures job.steps[i].id in st.logs && (st.logs[job.steps[i].id].Pending? ==> job.steps[i] in st.pending)
    {
      assert HasStep(job.steps, job.steps[i].id) && job.steps[i] in steps;
    }
    forall s | s in st.pending ensures s in job.steps && s.id in st.logs {
      var i :| 0 <= i < |job.steps| && job.steps[i] == s;
    }
  }

  method Start(ghost exec: Executor, job: Job, opts: Options) returns (st: RunState)
    requires UniqueStepIds(job.steps) && UniqueOrders(job.steps)
    ensures Inv(exec, job, opts, st) && Initial(opts, st.logs)
    // A step is reused if it has an output to reuse, left out if it is not selected, and pending otherwise
    ensures forall x :: x in st.logs ==>
      st.logs[x] ==
        if x in opts.reused then Reused(opts.reused[x])
        else match opts.selected case None => Pending case Some(ids) => if x in ids then Pending else Outside
  {
    var steps := SortByOrder(job.steps);
    SortSorts(job.steps);
    st := RunState(map[], [], {}, {}, map[]);
    assert Mirrored(st);
    hide InitialLog, Mirrored, UniqueStepIds, UniqueOrders;
    for i := 0 to |steps|
      invariant Started(opts, steps, i, st) && Ordered(st.pending) && Mirrored(st)
    {
      FreshId(job, opts, steps, i, st);
      BeginStarted(opts, steps, i, st);
      BeginOrdered(opts, steps, i, st);
      BeginMirrored(opts, st, steps[i]);
      st := Begin(opts, st, steps[i]);
    }
    StartedCovers(job, opts, steps, st);
    StartedJustified(exec, job, opts, st.logs);
    StartedListed(job, opts, steps, st);
  }
}
