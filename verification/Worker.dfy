/**
 * The worker side (src/services/JobExecutionManager.ts): claiming up to the worker's capacity, and
 * running one claimed execution while other transactions go on.
 */
module Worker {
  import opened Wrappers
  import opened Graph
  import opened Jobs
  import opened JsonValues
  import opened Validator
  import opened RunSpec
  import opened Rounds
  import opened StepTask
  import opened Runs
  import E = Executions
  import Laws = ExecutionLaws
  import Rates = ExecutionRates
  import Repo = ExecutionRepository
  import Told = Transactions

  // ----- One claimed execution -----

  // The status column of execution_steps
  datatype StepRow = PendingRow | RunningRow | SuccessRow | FailedRow | CancelledRow | SkippedRow | ReusedRow

  // What the observer writes for a log
  function RowOf(log: StepLog): StepRow {
    match log
    case Pending => PendingRow
    case Running => RunningRow
    case Success(_) => SuccessRow
    case Failed(_) => FailedRow
    case Interrupted => FailedRow
    case Cancelled => CancelledRow
    case Declined => SkippedRow
    case Blocked => SkippedRow
    case Outside => SkippedRow
    case Reused(_) => ReusedRow
  }

  // ----- The other transactions -----

  // What a worker reads of its execution's row
  datatype ExecutionRow = ExecutionRow(status: E.Status, cancelRequested: bool)

  function RowOfExecution(s: E.State, id: E.ExecId): ExecutionRow
    requires id in s.executions
  {
    ExecutionRow(s.executions[id].status, s.executions[id].cancelRequested)
  }

  // Others may ask to cancel, and reap a lost lease; both are for good
  ghost predicate Proceeds(before: ExecutionRow, after: ExecutionRow) {
    && (before.cancelRequested ==> after.cancelRequested)
    && (before.status.Terminal() ==> after == before)
    && (before.status.Running? ==> after.status.Running? || after.status.Failed?)
  }

  // The one transaction that is its worker's own
  predicate IsOwn(event: E.Event, id: E.ExecId) {
    event.Finished? && event.id == id
  }

  predicate NoneIsOwn(events: seq<E.Event>, id: E.ExecId) {
    forall i :: 0 <= i < |events| ==> !IsOwn(events[i], id)
  }

  lemma DisplacedRunning(s: E.State, oldest: E.ExecId, id: E.ExecId)
    requires oldest in s.executions && !s.executions[oldest].status.Terminal() && Laws.IsRunning(s, id)
    ensures Laws.IsRunning(E.Displaced(s, oldest), id)
  {
    hide E.End;
    if s.executions[oldest].status.Queued? {
      Laws.EndQuiet(s, oldest, E.CancelledBy(s.executions[oldest], Some(E.OverlapCancelled)));
    }
  }

  lemma EnqueueRunning(s: E.State, other: E.ExecId, request: E.Request, id: E.ExecId)
    requires Laws.IsRunning(s, id)
    ensures Laws.IsRunning(E.Enqueue(s, other, request), id)
  {
    hide E.Displaced, E.Inserted, E.Admissible, E.IsOldest, Laws.Quiet;
    if E.Admissible(s, other, request) {
      Laws.AdmissibleIsFresh(s, other, request);
      Laws.OverlappedStatus(s, request.job, request.key, request.kind);
      Laws.OverlappedQuiet(s, request.job, request.key, request.kind);
      var (t, status) := E.Overlapped(s, request.job, request.key, request.kind);
      var active := E.ActiveFor(s, request.job.id, request.key);
      if active != {} && E.Mode(request.job, request.kind) == E.CancelOldest {
        Laws.OldestIsActive(s, active);
        DisplacedRunning(s, E.Oldest(s, active), id);
      }
      Laws.InsertedQuiet(t, other, request, status);
    }
  }

  lemma ClaimRunning(
    leaseMs: nat, s: E.State, worker: E.WorkerId, other: E.ExecId, checked: E.Time, claimed: E.Time, recorded: E.Time, id: E.ExecId)
    requires Laws.IsRunning(s, id)
    ensures Laws.IsRunning(E.Claim(s, leaseMs, worker, other, checked, claimed, recorded), id)
  {
    if s.clock <= checked <= claimed <= recorded && E.Eligible(s, other, checked) {
      Laws.ClaimDoes(leaseMs, s, worker, other, checked, claimed, recorded);
      hide E.Claim, E.Eligible;
    }
  }

  lemma FinishRunning(s: E.State, other: E.ExecId, status: E.Status, error: Option<E.Code>, id: E.ExecId)
    requires Laws.IsRunning(s, id) && other != id
    ensures Laws.IsRunning(E.Finish(s, other, status, error), id)
  {
    hide E.End;
    if other in s.executions && s.executions[other].status.Running? && E.WorkersEnd(status, error) {
      Laws.EndQuiet(s, other, s.executions[other].(status := status, error := error));
    }
  }

  lemma CancelRunning(s: E.State, other: E.ExecId, id: E.ExecId)
    requires Laws.IsRunning(s, id) && E.RequestCancel(s, other).Ok?
    ensures Laws.IsRunning(E.RequestCancel(s, other).value.0, id)
  {
    hide E.End;
    if s.executions[other].status.Queued? {
      Laws.EndQuiet(s, other, E.CancelledBy(s.executions[other], s.executions[other].error));
    }
  }

  // A running execution goes on running under everybody else's transactions, or its lease was reaped
  lemma OthersKeepRunning(leaseMs: nat, s: E.State, event: E.Event, id: E.ExecId)
    requires Laws.IsRunning(s, id) && !IsOwn(event, id)
    ensures id in E.Step(leaseMs, s, event).executions
    ensures E.Step(leaseMs, s, event).executions[id].status.Running? || E.Step(leaseMs, s, event).executions[id].status.Failed?
  {
    hide E.Enqueue, E.Claim, E.Reap, E.RequestCancel, E.Finish, E.Dispatch, E.Spawns, E.UpdatePolicy;
    match event
    case Enqueued(other, request) => EnqueueRunning(s, other, request, id);
    case Dispatched(pending, child, target) =>
      Laws.DispatchIs(s, pending, child, target);
      if E.Spawns(s, pending, child, target) {
        EnqueueRunning(s, child, E.ChildRequest(target, pending.source), id);
      }
    case Claimed(worker, other, checked, claimed, recorded) =>
      ClaimRunning(leaseMs, s, worker, other, checked, claimed, recorded, id);
    case Reaped(ids) => Rates.ReapRows(s, ids, id);
    case CancelRequested(other) =>
      if E.RequestCancel(s, other).Ok? {
        CancelRunning(s, other, id);
      }
    case Finished(other, status, error) => FinishRunning(s, other, status, error, id);
    case Beat(worker) =>
    case _ => Laws.SettingsFrame(leaseMs, s, event);
  }

  // Every transaction that is not the worker's own finish lets the row proceed
  lemma OthersProceed(leaseMs: nat, s: E.State, event: E.Event, id: E.ExecId)
    requires id in s.executions && !IsOwn(event, id)
    ensures id in E.Step(leaseMs, s, event).executions
    ensures Proceeds(RowOfExecution(s, id), RowOfExecution(E.Step(leaseMs, s, event), id))
  {
    Laws.StepEvolves(leaseMs, s, event);
    hide E.Step;
    assert Laws.RowEvolves(s.executions[id], E.Step(leaseMs, s, event).executions[id]);
    if s.executions[id].status.Running? {
      OthersKeepRunning(leaseMs, s, event, id);
    }
  }

  method Meanwhile(repository: Repo.Repository, leaseMs: nat, id: E.ExecId, events: seq<E.Event>)
    requires id in repository.executions && NoneIsOwn(events, id)
    modifies repository
    ensures repository.View() == Laws.Others(leaseMs, old(repository.View()), events)
    ensures id in repository.executions
    ensures Proceeds(RowOfExecution(old(repository.View()), id), RowOfExecution(repository.View(), id))
  {
    hide E.Step, Laws.Others;
    ghost var s := repository.View();
    NoOthers(leaseMs, s);
    assert events[..0] == [];
    for i := 0 to |events|
      invariant repository.View() == Laws.Others(leaseMs, s, events[..i])
      invariant id in repository.executions
      invariant Proceeds(RowOfExecution(s, id), RowOfExecution(repository.View(), id))
    {
      OthersProceed(leaseMs, repository.View(), events[i], id);
      OneMoreOther(leaseMs, s, events, i);
      repository.Perform(leaseMs, events[i]);
    }
    assert events[..|events|] == events;
  }

  lemma NoOthers(leaseMs: nat, s: E.State)
    ensures Laws.Others(leaseMs, s, []) == s
  {
  }

  lemma OneMoreOther(leaseMs: nat, s: E.State, events: seq<E.Event>, i: nat)
    requires i < |events|
    ensures Laws.Others(leaseMs, s, events[..i + 1]) == E.Step(leaseMs, Laws.Others(leaseMs, s, events[..i]), events[i])
  {
    hide E.Step;
    assert events[..i + 1][..i] == events[..i];
  }

  // cancelUnfinishedSteps
  function CancelUnfinished(rows: map<Id, StepRow>): map<Id, StepRow> {
    map x | x in rows :: if rows[x].PendingRow? || rows[x].RunningRow? then CancelledRow else rows[x]
  }

  // The rows insertExecution wrote, overwritten by what the run reported
  function Reported(job: Job, opts: Options, logs: Logs): map<Id, StepRow> {
    map x | x in Dependencies(job.steps) :: RowOf(if x in logs then logs[x] else InitialLog(opts, x))
  }

  function StatusOf(end: End): E.Status {
    match RunStatus(end)
    case Succeeds => E.Success
    case Fails => E.Failed
    case IsCancelled => E.Cancelled
  }

  // Every step row has reached its end
  ghost predicate AllEnded(rows: map<Id, StepRow>) {
    forall x :: x in rows ==> !rows[x].PendingRow? && !rows[x].RunningRow?
  }

  // Every step the execution was to run has its verdict
  ghost predicate AllReported(job: Job, opts: Options, logs: Logs) {
    forall x :: x in Dependencies(job.steps) && InitialLog(opts, x).Pending? ==> x in logs && Final(logs[x])
  }

  lemma CompleteLogEnded(exec: Executor, job: Job, opts: Options, logs: Logs, x: Id)
    requires Complete(exec, job, opts, logs) && x in logs
    ensures !logs[x].Pending? && !logs[x].Running?
  {
    hide Explained, HasStep;
  }

  lemma CompleteRowEnded(exec: Executor, job: Job, opts: Options, logs: Logs, x: Id)
    requires Complete(exec, job, opts, logs) && x in Dependencies(job.steps)
    ensures x in logs && !RowOf(logs[x]).PendingRow? && !RowOf(logs[x]).RunningRow?
  {
    var i :| 0 <= i < |Nodes(job.steps)| && Nodes(job.steps)[i].id == x;
    assert job.steps[i].id == x;
    assert HasStep(job.steps, x) && Covers(job, logs);
    hide Complete, HasStep, Dependencies;
    CompleteLogEnded(exec, job, opts, logs, x);
  }

  lemma CompleteIsReported(exec: Executor, job: Job, opts: Options, logs: Logs)
    requires Complete(exec, job, opts, logs)
    ensures AllReported(job, opts, logs)
  {
    hide Justified, Dependencies;
    forall x | x in Dependencies(job.steps) ensures x in logs {
      CompleteRowEnded(exec, job, opts, logs, x);
    }
  }

  lemma WellEndedRows(exec: Executor, job: Job, opts: Options, logs: Logs, signal: Signal)
    requires Ends(exec, job, opts, EndedWell, logs, signal)
    ensures AllEnded(Reported(job, opts, logs)) && AllReported(job, opts, logs)
    ensures forall x :: x in logs ==> !logs[x].Failed?
  {
    CompleteIsReported(exec, job, opts, logs);
    hide Complete, Justified, Available, Dependencies, RowOf;
    forall x | x in Reported(job, opts, logs)
      ensures !Reported(job, opts, logs)[x].PendingRow? && !Reported(job, opts, logs)[x].RunningRow?
    {
      CompleteRowEnded(exec, job, opts, logs, x);
    }
  }

  // The status and the code an execution is finished with: an error around the run has no end of its own
  function FinalStatus(end: Option<End>, cancelSeen: bool): E.Status {
    if end.None? then E.Failed else if cancelSeen then E.Cancelled else StatusOf(end.value)
  }

  function FinalCode(end: Option<End>, cancelSeen: bool): (code: Option<E.Code>)
    ensures code != Some(E.WorkerLost)
  {
    if end.None? then Some(E.Other("EXECUTION_PERSISTENCE_FAILED"))
    else if cancelSeen then Some(E.ExecutionCancelled)
    else
      match end.value
      case EndedWell => None
      case EndedBy(Abort(ExecutionCancelled)) => Some(E.ExecutionCancelled)
      case EndedBy(Abort(JobTimeout)) => Some(E.Other("JOB_TIMEOUT"))
      case EndedBy(Abort(ServerInterrupted)) => Some(E.Other("SERVER_INTERRUPTED"))
      case EndedBy(Failure(Error(name, _))) => Some(E.Other(name))
      case EndedBy(Failure(FanOutError(_, _))) => Some(E.Other("FOREACH_ITEM_FAILED"))
      case _ => Some(E.JobFailed)
  }

  // What executeClaimed writes for each end of the run
  ghost predicate WritesEnd(end: Option<End>, cancelSeen: bool, status: E.Status, code: Option<E.Code>) {
    match end
    case None => status == E.Failed && code == Some(E.Other("EXECUTION_PERSISTENCE_FAILED"))
    case Some(e) =>
      if cancelSeen then status == E.Cancelled && code == Some(E.ExecutionCancelled)
      else match e
        case EndedWell => status == E.Success && code == None
        case EndedBy(Abort(ExecutionCancelled)) => status == E.Cancelled && code == Some(E.ExecutionCancelled)
        case EndedBy(Abort(JobTimeout)) => status == E.Failed && code == Some(E.Other("JOB_TIMEOUT"))
        case EndedBy(Abort(ServerInterrupted)) => status == E.Failed && code == Some(E.Other("SERVER_INTERRUPTED"))
        case EndedBy(Failure(Error(name, _))) => status == E.Failed && code == Some(E.Other(name))
        case EndedBy(Failure(FanOutError(_, _))) => status == E.Failed && code == Some(E.Other("FOREACH_ITEM_FAILED"))
        case Invalid => status == E.Failed && code == Some(E.JobFailed)
        case Unresolved => status == E.Failed && code == Some(E.JobFailed)
  }

  lemma FinalIsWritten(end: Option<End>, cancelSeen: bool)
    ensures WritesEnd(end, cancelSeen, FinalStatus(end, cancelSeen), FinalCode(end, cancelSeen))
  {
  }

  // What a closed row says of its step: the log of the run, or how the execution was opened; what was left open is
  // cancelled
  ghost predicate RowTells(log: StepLog, row: StepRow) {
    match row
    case SuccessRow => log.Success?
    case FailedRow => log.Failed? || log.Interrupted?
    case SkippedRow => log.Declined? || log.Blocked? || log.Outside?
    case ReusedRow => log.Reused?
    case CancelledRow => log.Cancelled? || log.Pending? || log.Running?
    case _ => false
  }

  ghost predicate RowsTell(rows: map<Id, StepRow>, job: Job, opts: Options, logs: Logs) {
    rows.Keys == Dependencies(job.steps).Keys &&
    forall x :: x in rows ==> RowTells(if x in logs then logs[x] else InitialLog(opts, x), rows[x])
  }

  lemma ClosedRowsTell(rows: map<Id, StepRow>, job: Job, opts: Options, logs: Logs)
    requires rows == Reported(job, opts, logs) || rows == CancelUnfinished(Reported(job, opts, logs))
    requires AllEnded(rows)
    ensures RowsTell(rows, job, opts, logs)
  {
    hide Dependencies;
  }

  // The state the last check reads, and the state the finishing transaction meets
  ghost function Checked(leaseMs: nat, s: E.State, early: seq<E.Event>, during: seq<E.Event>): E.State {
    Laws.Others(leaseMs, s, early + during)
  }

  ghost function Met(leaseMs: nat, s: E.State, early: seq<E.Event>, during: seq<E.Event>, late: seq<E.Event>): E.State {
    Laws.Others(leaseMs, s, early + during + late)
  }

  // One claimed execution on the shared tables: others act before the first check (early), while it runs until
  // the last check (during), and from then on until it is finished (late). secretsFail stands for an error thrown
  // around the run
  method ExecuteClaimed(
    repository: Repo.Repository, leaseMs: nat, id: E.ExecId, exec: Executor, job: Job, opts: Options, secretsFail: bool,
    early: seq<E.Event>, during: seq<E.Event>, late: seq<E.Event>)
    returns (rows: map<Id, StepRow>, cancelSeen: bool, end: Option<End>, logs: Logs)
    requires id in repository.executions && repository.executions[id].status.Running?
    requires NoneIsOwn(early, id) && NoneIsOwn(during, id) && NoneIsOwn(late, id)
    modifies repository
    ensures secretsFail <==> end.None?
    ensures repository.View() ==
      E.Finish(Met(leaseMs, old(repository.View()), early, during, late), id, FinalStatus(end, cancelSeen), FinalCode(end, cancelSeen))
    ensures id in Checked(leaseMs, old(repository.View()), early, during).executions
    ensures end.Some? ==>
      cancelSeen == Checked(leaseMs, old(repository.View()), early, during).executions[id].cancelRequested
    ensures id in repository.executions && repository.executions[id].status.Terminal()
    ensures cancelSeen || old(repository.executions[id].cancelRequested) ==> !repository.executions[id].status.Success?
    ensures repository.executions[id].status.Success? ==>
      end == Some(EndedWell) && forall x :: x in logs ==> !logs[x].Failed?
    // A cancellation seen by the first check keeps every step from starting
    ensures id in Laws.Others(leaseMs, old(repository.View()), early).executions
    ensures Laws.Others(leaseMs, old(repository.View()), early).executions[id].cancelRequested ==>
      end.None? || (WellFormed(job) && ToRun(job, opts) == {}) || end == Some(EndedBy(Abort(ExecutionCancelled)))
    // With the lease intact its own end is written
    ensures id in Met(leaseMs, old(repository.View()), early, during, late).executions
    ensures Met(leaseMs, old(repository.View()), early, during, late).executions[id].status.Running? ==>
      WritesEnd(end, cancelSeen, repository.executions[id].status, repository.executions[id].error)
    ensures rows ==
      if FinalStatus(end, cancelSeen).Success? then Reported(job, opts, logs) else CancelUnfinished(Reported(job, opts, logs))
    ensures RowsTell(rows, job, opts, logs)
    ensures AllEnded(rows) && (FinalStatus(end, cancelSeen).Success? ==> AllReported(job, opts, logs))
  {
    hide AllReported, RowsTell, WritesEnd, ToRun;
    hide Ends, Complete, Justified, WellFormed, Available, EndsAlone, Leftovers, E.Finish, Laws.Others, Reported, AllEnded;
    ghost var s := repository.View();
    OthersInStages(leaseMs, s, early, during, late);
    var signal: Signal := None;
    end, logs, cancelSeen, rows := None, map[], false, map[];
    Meanwhile(repository, leaseMs, id, early);
    if repository.executions[id].cancelRequested {
      signal := Some(ExecutionCancelled);
    }
    signal := Await(signal); // the timeout may fire, a heartbeat may bring a cancellation
    if secretsFail {
      Meanwhile(repository, leaseMs, id, during);
      rows := CancelUnfinished(Reported(job, opts, map[]));
      CancelledEnd(Reported(job, opts, map[]));
    } else {
      var ended, stepLogs;
      ghost var batches;
      ended, stepLogs, signal, batches := Run(exec, job, opts, signal);
      end, logs := Some(ended), stepLogs;
      Meanwhile(repository, leaseMs, id, during);
      cancelSeen := repository.executions[id].cancelRequested;
      rows := Reported(job, opts, stepLogs);
      if cancelSeen || StatusOf(ended) != E.Success {
        CancelledEnd(rows);
        rows := CancelUnfinished(rows);
      } else {
        assert ended == EndedWell;
        WellEndedRows(exec, job, opts, stepLogs, signal);
      }
    }
    Meanwhile(repository, leaseMs, id, late);
    FinishOwn(repository.View(), id, end, cancelSeen);
    FinalIsWritten(end, cancelSeen);
    ClosedRowsTell(rows, job, opts, logs);
    repository.FinishExecution(id, FinalStatus(end, cancelSeen), FinalCode(end, cancelSeen));
  }

  lemma OthersInStages(leaseMs: nat, s: E.State, early: seq<E.Event>, during: seq<E.Event>, late: seq<E.Event>)
    ensures Checked(leaseMs, s, early, during) == Laws.Others(leaseMs, Laws.Others(leaseMs, s, early), during)
    ensures Met(leaseMs, s, early, during, late) == Laws.Others(leaseMs, Checked(leaseMs, s, early, during), late)
  {
    Laws.OthersConcat(leaseMs, s, early, during);
    Laws.OthersConcat(leaseMs, s, early + during, late);
  }

  lemma CancelledEnd(rows: map<Id, StepRow>)
    ensures AllEnded(CancelUnfinished(rows))
  {
  }

  // The finishing transaction on the row: a running one gets the final status, a reaped one stays failed
  lemma FinishOwn(s: E.State, id: E.ExecId, end: Option<End>, cancelSeen: bool)
    requires id in s.executions
    ensures var t := E.Finish(s, id, FinalStatus(end, cancelSeen), FinalCode(end, cancelSeen));
      id in t.executions &&
      t.executions[id].status == if s.executions[id].status.Running? then FinalStatus(end, cancelSeen) else s.executions[id].status
  {
    var status, code := FinalStatus(end, cancelSeen), FinalCode(end, cancelSeen);
    hide E.End;
    if s.executions[id].status.Running? {
      Laws.EndQuiet(s, id, s.executions[id].(status := status, error := code));
    }
  }

  // After a run of transactions from the empty store, a claimed execution and its finish are a longer run from there
  lemma ClaimedRunIsARun(
    leaseMs: nat, past: seq<E.Event>, id: E.ExecId, end: Option<End>, cancelSeen: bool,
    early: seq<E.Event>, during: seq<E.Event>, late: seq<E.Event>)
    ensures var finish := E.Finished(id, FinalStatus(end, cancelSeen), FinalCode(end, cancelSeen));
      E.Finish(Met(leaseMs, E.After(leaseMs, past), early, during, late), id, finish.status, finish.error) ==
      E.After(leaseMs, past + (early + during + late) + [finish])
  {
    var finish := E.Finished(id, FinalStatus(end, cancelSeen), FinalCode(end, cancelSeen));
    var others := early + during + late;
    Laws.AfterIsOthers(leaseMs, past);
    Laws.AfterIsOthers(leaseMs, past + others);
    Laws.OthersConcat(leaseMs, E.EMPTY, past, others);
    assert (past + others + [finish])[..|past + others|] == past + others;
    hide E.Finish, Laws.Others;
  }

  // What the last check reads
  ghost predicate SeenCancelled(leaseMs: nat, s: E.State, early: seq<E.Event>, during: seq<E.Event>, id: E.ExecId) {
    id in Checked(leaseMs, s, early, during).executions && Checked(leaseMs, s, early, during).executions[id].cancelRequested
  }

  // A cancellation recorded before the start or before the last check, in any run of the store: the execution is
  // over afterwards, not in success, and stays as it is whatever comes later
  lemma CancelledForGood(
    leaseMs: nat, past: seq<E.Event>, id: E.ExecId, end: Option<End>,
    early: seq<E.Event>, during: seq<E.Event>, late: seq<E.Event>, more: seq<E.Event>)
    requires Laws.IsRunning(E.After(leaseMs, past), id)
    requires NoneIsOwn(early + during, id) && NoneIsOwn(early + during + late, id)
    requires E.After(leaseMs, past).executions[id].cancelRequested || SeenCancelled(leaseMs, E.After(leaseMs, past), early, during, id)
    ensures var seen := SeenCancelled(leaseMs, E.After(leaseMs, past), early, during, id);
      var finish := E.Finished(id, FinalStatus(end, seen), FinalCode(end, seen));
      var t := E.After(leaseMs, past + (early + during + late) + [finish]);
      var u := E.After(leaseMs, past + (early + during + late) + [finish] + more);
      && id in t.executions && t.executions[id].status.Terminal() && !t.executions[id].status.Success?
      && id in u.executions && u.executions[id] == t.executions[id]
  {
    var seen := SeenCancelled(leaseMs, E.After(leaseMs, past), early, during, id);
    OthersProceedOn(leaseMs, E.After(leaseMs, past), early + during, id);
    assert seen;
    var others := early + during + late;
    var finish := E.Finished(id, FinalStatus(end, true), FinalCode(end, true));
    ClaimedRunIsARun(leaseMs, past, id, end, true, early, during, late);
    OthersProceedOn(leaseMs, E.After(leaseMs, past), others, id);
    FinishOwn(Met(leaseMs, E.After(leaseMs, past), early, during, late), id, end, true);
    hide E.After, E.Finish, Laws.Others, SeenCancelled;
    Laws.EndedForGood(leaseMs, past + others + [finish], more, id);
  }

  lemma {:induction false} OthersProceedOn(leaseMs: nat, s: E.State, events: seq<E.Event>, id: E.ExecId)
    requires id in s.executions && NoneIsOwn(events, id)
    ensures id in Laws.Others(leaseMs, s, events).executions
    ensures Proceeds(RowOfExecution(s, id), RowOfExecution(Laws.Others(leaseMs, s, events), id))
    decreases |events|
  {
    hide E.Step;
    if events != [] {
      var less, last := events[..|events| - 1], events[|events| - 1];
      OthersProceedOn(leaseMs, s, less, id);
      OthersProceed(leaseMs, Laws.Others(leaseMs, s, less), last, id);
    }
  }

  // A cancellation recorded after the last check comes too late: the execution still ends in success
  lemma LateCancellationSucceeds(leaseMs: nat, job: E.JobDef, worker: E.WorkerId)
    requires E.MaxRunning(job) > 0
    ensures var s := E.After(leaseMs, Laws.FirstEvents(job, worker));
      var t := E.Step(leaseMs, s, E.CancelRequested(0));
      var u := E.Finish(t, 0, FinalStatus(Some(EndedWell), false), FinalCode(Some(EndedWell), false));
      && 0 in s.executions && !s.executions[0].cancelRequested
      && 0 in t.executions && t.executions[0].cancelRequested
      && 0 in u.executions && u.executions[0].status.Success?
    ensures var s := E.After(leaseMs, Laws.FirstEvents(job, worker));
      Met(leaseMs, s, [], [], [E.CancelRequested(0)]) == E.Step(leaseMs, s, E.CancelRequested(0))
  {
    Laws.FirstExecutionRuns(leaseMs, job, worker);
    var s := E.After(leaseMs, Laws.FirstEvents(job, worker));
    hide E.After, E.End;
    var t := E.Step(leaseMs, s, E.CancelRequested(0));
    FinishOwn(t, 0, Some(EndedWell), false);
    OneOther(leaseMs, s, E.CancelRequested(0));
  }

  lemma OneOther(leaseMs: nat, s: E.State, event: E.Event)
    ensures Met(leaseMs, s, [], [], [event]) == E.Step(leaseMs, s, event)
  {
    hide E.Step;
    var none: seq<E.Event> := [];
    NoOthers(leaseMs, s);
    assert none + none + [event] == [event] && [event][..0] == none;
    assert Laws.Others(leaseMs, s, [event]) == E.Step(leaseMs, s, event);
  }

  // ----- Claiming -----

  /** The fields of the manager the dispatcher and the heartbeat update. */
  class JobExecutionManager {
    const repository: Repo.Repository
    const worker: E.WorkerId
    const capacity: nat
    const leaseMs: nat
    var acceptingWork: bool
    var draining: bool
    var dispatching: bool
    var running: set<E.ExecId>

    constructor (repository: Repo.Repository, worker: E.WorkerId, capacity: nat, leaseMs: nat)
      ensures this.repository == repository && this.worker == worker && this.capacity == capacity && this.leaseMs == leaseMs
      ensures acceptingWork && !draining && !dispatching && running == {}
    {
      this.repository, this.worker, this.capacity, this.leaseMs := repository, worker, capacity, leaseMs;
      acceptingWork, draining, dispatching, running := true, false, false, {};
    }

    // What runs here was claimed by this worker, and there is no more of it than the worker can take. An
    // execution whose lease was reaped goes on running here until it notices
    ghost predicate Valid()
      reads this, repository
    {
      |running| <= capacity && forall id :: id in running ==> ClaimedBy(repository.View(), id, worker)
    }

    // One transaction of the claim loop, at the current time
    method ClaimOne(id: E.ExecId) returns (taken: bool)
      requires Valid() && |running| < capacity
      modifies repository, this`running
      ensures Valid() && running == old(running) + if taken then {id} else {}
      ensures taken ==> id !in old(running) && Laws.IsRunning(repository.View(), id)
      ensures taken == Told.Claimable(old(repository.View()), id, old(repository.clock))
      ensures !taken ==> !Told.Claimable(repository.View(), id, repository.clock)
      ensures taken ==>
        Told.Claimed(old(repository.View()), repository.View(), leaseMs, worker, id, old(repository.clock), old(repository.clock))
      ensures Laws.Evolves(old(repository.View()), repository.View())
      ensures repository.View() ==
        E.Claim(old(repository.View()), leaseMs, worker, id, old(repository.clock), old(repository.clock), old(repository.clock))
    {
      hide E.Claim, E.Eligible, Told.Claimable, Told.Claimed;
      ghost var s := repository.View();
      var now := repository.clock;
      ClaimRows(s, leaseMs, worker, id, now);
      Laws.ClaimEvolves(leaseMs, s, worker, id, now, now, now);
      hide Laws.Evolves;
      taken := repository.ClaimQueued(leaseMs, worker, id, now, now, now);
      if taken {
        running := running + {id};
      }
    }

    // After some of the candidates: all of them joined, unless the last one was refused
    ghost predicate Claiming(s: E.State, before: set<E.ExecId>, candidates: seq<E.ExecId>, i: nat, refused: bool)
      requires i <= |candidates|
      reads this, repository
    {
      && Valid() && Laws.Evolves(s, repository.View()) && Took(before, running, candidates, i, refused)
      && (refused ==> 0 < i && !Told.Claimable(repository.View(), candidates[i - 1], repository.clock))
    }

    method ClaimNext(ghost s: E.State, ghost before: set<E.ExecId>, candidates: seq<E.ExecId>, i: nat) returns (taken: bool)
      requires i < |candidates| && Claiming(s, before, candidates, i, false) && |running| < capacity
      modifies repository, this`running
      ensures Claiming(s, before, candidates, i + 1, !taken)
    {
      hide Laws.Evolves, Told.Claimable, E.Claim, Took, Valid;
      ghost var t, had := repository.View(), running;
      taken := ClaimOne(candidates[i]);
      OneMoreTaken(before, had, candidates, i);
      EvolvesOn(s, t, repository.View());
    }

    // The loop of dispatcherTick: candidates are the answers of the successive queries
    method ClaimLoop(candidates: seq<E.ExecId>) returns (refused: bool)
      requires Valid() && acceptingWork && !draining
      modifies repository, this`running
      ensures Valid() && old(running) <= running <= old(running) + ToSet(candidates)
      ensures Laws.Evolves(old(repository.View()), repository.View())
      ensures refused ==> exists c :: c in candidates && !Told.Claimable(repository.View(), c, repository.clock)
      ensures !refused && |running| < capacity ==> running == old(running) + ToSet(candidates)
    {
      ghost var s, before := repository.View(), running;
      Laws.QuietSelf(s);
      NoneTaken(before, candidates);
      assert Claiming(s, before, candidates, 0, false);
      refused := false;
      var i := 0;
      hide Claiming, Valid;
      while !refused && |running| < capacity && i < |candidates|
        invariant i <= |candidates| && Claiming(s, before, candidates, i, refused)
        decreases |candidates| - i
      {
        var taken := ClaimNext(s, before, candidates, i);
        refused := !taken;
        i := i + 1;
      }
      Claimed(s, before, candidates, i, refused);
    }

    lemma Claimed(s: E.State, before: set<E.ExecId>, candidates: seq<E.ExecId>, i: nat, refused: bool)
      requires i <= |candidates| && Claiming(s, before, candidates, i, refused)
      ensures Valid() && Laws.Evolves(s, repository.View())
      ensures before <= running <= before + ToSet(candidates)
      ensures i == |candidates| && !refused ==> running == before + ToSet(candidates)
      ensures refused ==> exists c :: c in candidates && !Told.Claimable(repository.View(), c, repository.clock)
    {
      hide Laws.Evolves, Told.Claimable, Valid;
      AllTaken(before, running, candidates, i, refused);
      assert refused ==> candidates[i - 1] in candidates;
    }

    // A tick that finds another one under way does nothing
    method DispatcherTick(candidates: seq<E.ExecId>)
      requires Valid()
      modifies repository, this`running, this`dispatching
      ensures Valid() && dispatching == old(dispatching)
      ensures old(running) <= running <= old(running) + ToSet(candidates)
      ensures Laws.Evolves(old(repository.View()), repository.View())
      ensures !acceptingWork || draining || old(dispatching) ==> running == old(running) && repository.View() == old(repository.View())
      ensures acceptingWork && !draining && !old(dispatching) && |running| < capacity ==>
        running == old(running) + ToSet(candidates) || exists c :: c in candidates && !Told.Claimable(repository.View(), c, repository.clock)
    {
      Laws.QuietSelf(repository.View());
      hide Told.Claimable, Laws.Evolves;
      if !acceptingWork || dispatching {
        return;
      }
      dispatching := true;
      if !draining {
        var refused := ClaimLoop(candidates);
      }
      dispatching := false;
    }

    // Whatever others do between two ticks, what runs here stays this worker's
    method BetweenTicks(events: seq<E.Event>)
      requires Valid()
      modifies repository
      ensures Valid() && running == old(running)
      ensures repository.View() == Laws.Others(leaseMs, old(repository.View()), events)
    {
      hide E.Step, Laws.Others, Laws.Evolves, ClaimedBy;
      ghost var s := repository.View();
      NoOthers(leaseMs, s);
      assert events[..0] == [];
      for i := 0 to |events|
        invariant Valid() && repository.View() == Laws.Others(leaseMs, s, events[..i])
      {
        ghost var t := repository.View();
        Laws.StepEvolves(leaseMs, t, events[i]);
        OneMoreOther(leaseMs, s, events, i);
        repository.Perform(leaseMs, events[i]);
        forall id | id in running ensures ClaimedBy(repository.View(), id, worker) {
          ClaimedForGood(t, repository.View(), id, worker);
        }
      }
      assert events[..|events|] == events;
    }

    // The work of an execution is over here
    method Settle(id: E.ExecId)
      requires Valid()
      modifies this`running
      ensures Valid() && running == old(running) - {id}
    {
      running := running - {id};
    }
  }

  // Once claimed by a worker, an execution is its own for good, running or over
  ghost predicate ClaimedBy(s: E.State, id: E.ExecId, worker: E.WorkerId) {
    id in s.executions && s.executions[id].worker == Some(worker) && !s.executions[id].status.Queued?
  }

  lemma ClaimedForGood(s: E.State, t: E.State, id: E.ExecId, worker: E.WorkerId)
    requires ClaimedBy(s, id, worker) && Laws.Evolves(s, t)
    ensures ClaimedBy(t, id, worker)
  {
    assert Laws.RowEvolves(s.executions[id], t.executions[id]);
  }

  function ToSet(ids: seq<E.ExecId>): set<E.ExecId> {
    set id | id in ids
  }

  // Of the first candidates, some joined those running; all of them unless one was refused
  ghost predicate Took(before: set<E.ExecId>, now: set<E.ExecId>, candidates: seq<E.ExecId>, i: nat, refused: bool)
    requires i <= |candidates|
  {
    before <= now <= before + ToSet(candidates[..i]) && (!refused ==> now == before + ToSet(candidates[..i]))
  }

  lemma NoneTaken(before: set<E.ExecId>, candidates: seq<E.ExecId>)
    ensures Took(before, before, candidates, 0, false)
  {
  }

  lemma OneMoreTaken(before: set<E.ExecId>, had: set<E.ExecId>, candidates: seq<E.ExecId>, i: nat)
    requires i < |candidates| && Took(before, had, candidates, i, false)
    ensures Took(before, had + {candidates[i]}, candidates, i + 1, false) && Took(before, had + {}, candidates, i + 1, true)
  {
    assert candidates[..i + 1] == candidates[..i] + [candidates[i]];
  }

  lemma AllTaken(before: set<E.ExecId>, now: set<E.ExecId>, candidates: seq<E.ExecId>, i: nat, refused: bool)
    requires i <= |candidates| && Took(before, now, candidates, i, refused)
    ensures before <= now <= before + ToSet(candidates)
    ensures i == |candidates| && !refused ==> now == before + ToSet(candidates)
  {
    assert candidates[..|candidates|] == candidates;
    assert ToSet(candidates[..i]) <= ToSet(candidates);
  }

  lemma EvolvesOn(s: E.State, t: E.State, u: E.State)
    requires Laws.Evolves(s, t) && Laws.Evolves(t, u)
    ensures Laws.Evolves(s, u)
  {
    hide Laws.RowEvolves;
    forall x | x in s.executions ensures x in u.executions && Laws.RowEvolves(s.executions[x], u.executions[x]) {
      RowEvolvesTwice(s.executions[x], t.executions[x], u.executions[x]);
    }
  }

  lemma RowEvolvesTwice(a: E.Execution, b: E.Execution, c: E.Execution)
    requires Laws.RowEvolves(a, b) && Laws.RowEvolves(b, c)
    ensures Laws.RowEvolves(a, c)
  {
  }

  lemma ClaimRows(s: E.State, leaseMs: nat, worker: E.WorkerId, id: E.ExecId, now: E.Time)
    requires now == s.clock
    ensures var t := E.Claim(s, leaseMs, worker, id, now, now, now);
      && (forall x :: x in s.executions && x != id ==> x in t.executions && t.executions[x] == s.executions[x])
      && (E.Eligible(s, id, now) ==> id in s.executions && s.executions[id].status.Queued?)
      && (E.Eligible(s, id, now) ==> id in t.executions && t.executions[id].status.Running? && t.executions[id].worker == Some(worker))
      && (!E.Eligible(s, id, now) ==> t == s)
  {
    hide E.RateAllows, E.RunningInQueue, E.RunningOfJob, E.Window;
  }
}
