/**
 * The rows of execution_steps over whole runs (src/repositories/ExecutionRepository.ts): opened with the
 * execution, written by its worker, and closed by whichever transaction ends the execution.
 */
module StepTable {
  import opened Wrappers
  import opened Graph
  import opened Jobs
  import opened RunSpec
  import opened Worker
  import E = Executions
  import Laws = ExecutionLaws
  import Outbox = ExecutionOutbox

  type StepRows = map<Id, StepRow>

  // From atStart on, history that the promises are about: the rows at the start, the last row a worker reported of
  // each step, and the executions whose unfinished steps their worker cancelled
  datatype Tables = Tables(
    store: E.State,
    steps: map<E.ExecId, StepRows>,
    atStart: map<E.ExecId, StepRows>,
    reports: map<E.ExecId, StepRows>,
    swept: set<E.ExecId>)

  const NO_TABLES := Tables(E.EMPTY, map[], map[], map[], {})

  predicate IsOpen(row: StepRow) {
    row.PendingRow? || row.RunningRow?
  }

  // ----- Transactions that write step rows -----

  // insertExecution
  function Opening(job: Job, opts: Options, status: E.Status): StepRows {
    if status.Skipped? then map x | x in Dependencies(job.steps) :: SkippedRow else Reported(job, opts, map[])
  }

  // A queued execution is cancelled: only pending rows are touched
  function Dropped(rows: StepRows): StepRows {
    map x | x in rows :: if rows[x].PendingRow? then CancelledRow else rows[x]
  }

  // A running execution is reaped
  function LostRows(rows: StepRows): StepRows {
    map x | x in rows :: if rows[x].RunningRow? then FailedRow else if rows[x].PendingRow? then CancelledRow else rows[x]
  }

  // What a transaction that is not a worker's finish does to the rows of one execution
  function RowsThrough(rows: StepRows, before: E.Status, after: E.Status): StepRows {
    if before.Queued? && after.Terminal() then Dropped(rows)
    else if before.Running? && after.Terminal() then LostRows(rows)
    else rows
  }

  datatype Act =
    // Any transaction but a worker's finish; job and opts are those of an execution it inserts
    | Other(event: E.Event, job: Job, opts: Options)
    // stepStarted, stepFinished, cancelUnfinishedSteps and finishExecution of a worker
    | StepStarted(id: E.ExecId, step: Id)
    | StepFinished(id: E.ExecId, step: Id, row: StepRow)
    | UnfinishedCancelled(id: E.ExecId)
    | Finish(id: E.ExecId, status: E.Status, error: Option<E.Code>)

  // Workers write only of executions that have been claimed
  predicate WasClaimed(s: Tables, id: E.ExecId) {
    id in s.store.executions && !s.store.executions[id].status.Queued? &&
    id in s.steps && id in s.atStart && id in s.reports
  }

  // The order executeClaimed keeps: success is written once every step left pending was reported, any other end
  // once the unfinished steps were cancelled. A worker whose execution was reaped may still be writing
  predicate InOrder(s: Tables, act: Act) {
    match act
    case Other(event, _, _) => !event.Finished?
    case StepStarted(id, _) => WasClaimed(s, id)
    case StepFinished(id, _, row) => WasClaimed(s, id) && !IsOpen(row)
    case UnfinishedCancelled(id) => WasClaimed(s, id)
    case Finish(id, status, _) =>
      WasClaimed(s, id) && if status.Success? then PendingReported(s.atStart[id], s.reports[id]) else id in s.swept
  }

  predicate PendingReported(atStart: StepRows, reports: StepRows) {
    forall x :: x in atStart && atStart[x].PendingRow? ==> x in reports
  }

  ghost function Performed(leaseMs: nat, s: Tables, event: E.Event, job: Job, opts: Options): Tables {
    var t := E.Step(leaseMs, s.store, event);
    Tables(
      t,
      map id | id in t.executions ::
        if id in s.steps && id in s.store.executions
        then RowsThrough(s.steps[id], s.store.executions[id].status, t.executions[id].status)
        else Opening(job, opts, t.executions[id].status),
      map id | id in t.executions :: if id in s.atStart then s.atStart[id] else Opening(job, opts, t.executions[id].status),
      map id | id in t.executions :: if id in s.reports then s.reports[id] else map[],
      s.swept)
  }

  // An act out of order does not take place
  ghost function Step(leaseMs: nat, s: Tables, act: Act): Tables {
    if !InOrder(s, act) then s
    else
      match act
      case Other(event, job, opts) => Performed(leaseMs, s, event, job, opts)
      case StepStarted(id, x) =>
        var rows := s.steps[id];
        if x in rows && rows[x].PendingRow? then s.(steps := s.steps[id := rows[x := RunningRow]]) else s
      case StepFinished(id, x, row) =>
        var rows := s.steps[id];
        if x in rows then s.(steps := s.steps[id := rows[x := row]], reports := s.reports[id := s.reports[id][x := row]]) else s
      case UnfinishedCancelled(id) => s.(steps := s.steps[id := CancelUnfinished(s.steps[id])], swept := s.swept + {id})
      case Finish(id, status, error) => s.(store := E.Finish(s.store, id, status, error))
  }

  ghost function After(leaseMs: nat, acts: seq<Act>): Tables {
    if acts == [] then NO_TABLES
    else Step(leaseMs, After(leaseMs, acts[..|acts| - 1]), acts[|acts| - 1])
  }

  // ----- What every run keeps -----

  // The rows of one execution: untouched while it is queued, as reported wherever its worker reported, and open only
  // where they were pending at the start, not reported, not swept, and the execution has not ended
  ghost predicate Sound(status: E.Status, rows: StepRows, atStart: StepRows, reports: StepRows, swept: bool) {
    && rows.Keys == atStart.Keys && reports.Keys <= rows.Keys
    && (forall x :: x in atStart ==> !atStart[x].RunningRow?)
    && (status.Queued? ==> rows == atStart && reports == map[] && !swept)
    && (forall x :: x in reports ==> rows[x] == reports[x] && !IsOpen(reports[x]))
    && (forall x :: x in rows && IsOpen(rows[x]) ==> atStart[x].PendingRow? && !swept && !status.Terminal())
  }

  ghost predicate SoundAt(s: Tables, id: E.ExecId)
    requires id in s.store.executions && id in s.steps && id in s.atStart && id in s.reports
  {
    Sound(s.store.executions[id].status, s.steps[id], s.atStart[id], s.reports[id], id in s.swept)
  }

  ghost predicate Inv(s: Tables) {
    && s.steps.Keys == s.store.executions.Keys && s.atStart.Keys == s.steps.Keys && s.reports.Keys == s.steps.Keys
    && s.swept <= s.steps.Keys
    && forall id :: id in s.steps ==> SoundAt(s, id)
  }

  lemma OpeningSound(job: Job, opts: Options, status: E.Status)
    requires status.Queued? || status.Skipped?
    ensures Sound(status, Opening(job, opts, status), Opening(job, opts, status), map[], false)
  {
    hide Dependencies;
  }

  lemma ThroughSound(before: E.Status, after: E.Status, rows: StepRows, atStart: StepRows, reports: StepRows, swept: bool)
    requires Sound(before, rows, atStart, reports, swept)
    requires before.Terminal() ==> after == before
    requires before.Running? ==> !after.Queued?
    ensures Sound(after, RowsThrough(rows, before, after), atStart, reports, swept)
  {
  }

  lemma StartedSound(status: E.Status, rows: StepRows, atStart: StepRows, reports: StepRows, swept: bool, x: Id)
    requires Sound(status, rows, atStart, reports, swept) && !status.Queued? && x in rows && rows[x].PendingRow?
    ensures Sound(status, rows[x := RunningRow], atStart, reports, swept)
  {
  }

  lemma FinishedSound(status: E.Status, rows: StepRows, atStart: StepRows, reports: StepRows, swept: bool, x: Id, row: StepRow)
    requires Sound(status, rows, atStart, reports, swept) && !status.Queued? && x in rows && !IsOpen(row)
    ensures Sound(status, rows[x := row], atStart, reports[x := row], swept)
  {
  }

  lemma SweptSound(status: E.Status, rows: StepRows, atStart: StepRows, reports: StepRows, swept: bool)
    requires Sound(status, rows, atStart, reports, swept) && !status.Queued?
    ensures Sound(status, CancelUnfinished(rows), atStart, reports, true)
  {
  }

  // The worker's order is what closes every row before the end
  lemma EndSound(status: E.Status, end: E.Status, rows: StepRows, atStart: StepRows, reports: StepRows, swept: bool)
    requires Sound(status, rows, atStart, reports, swept) && !end.Queued?
    requires PendingReported(atStart, reports) || swept
    ensures Sound(end, rows, atStart, reports, swept)
  {
  }

  // A transaction inserts an execution queued or skipped
  lemma NewRowOpens(leaseMs: nat, s: E.State, event: E.Event, id: E.ExecId)
    requires id !in s.executions && id in E.Step(leaseMs, s, event).executions
    ensures E.Step(leaseMs, s, event).executions[id].status.Queued? || E.Step(leaseMs, s, event).executions[id].status.Skipped?
  {
    hide E.Enqueue, E.Dispatch, E.Spawns;
    match event
    case Enqueued(other, request) => EnqueueOpens(s, other, request, id);
    case Dispatched(pending, child, target) =>
      Laws.DispatchIs(s, pending, child, target);
      if E.Spawns(s, pending, child, target) {
        EnqueueOpens(s, child, E.ChildRequest(target, pending.source), id);
      }
    case _ => Outbox.NoNewRows(leaseMs, s, event);
  }

  lemma EnqueueOpens(s: E.State, other: E.ExecId, request: E.Request, id: E.ExecId)
    requires id !in s.executions && id in E.Enqueue(s, other, request).executions
    ensures E.Enqueue(s, other, request).executions[id].status.Queued? || E.Enqueue(s, other, request).executions[id].status.Skipped?
  {
    hide E.Overlapped, E.Inserted, E.Admissible, Laws.Quiet;
    if E.Admissible(s, other, request) {
      Laws.AdmissibleIsFresh(s, other, request);
      Laws.OverlappedStatus(s, request.job, request.key, request.kind);
      Laws.OverlappedQuiet(s, request.job, request.key, request.kind);
      var (t, status) := E.Overlapped(s, request.job, request.key, request.kind);
      Laws.InsertedQuiet(t, other, request, status);
      Laws.NewRowStatus(t, request, status);
    }
  }

  lemma PerformedKeeps(leaseMs: nat, s: Tables, event: E.Event, job: Job, opts: Options)
    requires Inv(s)
    ensures Inv(Performed(leaseMs, s, event, job, opts))
  {
    var next := Performed(leaseMs, s, event, job, opts);
    Laws.StepEvolves(leaseMs, s.store, event);
    hide E.Step, Sound, Opening, RowsThrough;
    forall id | id in next.steps ensures SoundAt(next, id) {
      if id in s.steps {
        assert SoundAt(s, id) && Laws.RowEvolves(s.store.executions[id], next.store.executions[id]);
        ThroughSound(s.store.executions[id].status, next.store.executions[id].status,
          s.steps[id], s.atStart[id], s.reports[id], id in s.swept);
      } else {
        NewRowOpens(leaseMs, s.store, event, id);
        OpeningSound(job, opts, next.store.executions[id].status);
      }
    }
  }

  lemma FinishRows(s: E.State, id: E.ExecId, status: E.Status, error: Option<E.Code>)
    requires id in s.executions
    ensures var t := E.Finish(s, id, status, error);
      && t.executions.Keys == s.executions.Keys
      && (forall x :: x in s.executions && x != id ==> t.executions[x] == s.executions[x])
      && (t.executions[id].status == s.executions[id].status || (t.executions[id].status == status && !status.Queued?))
  {
    hide E.End;
    if s.executions[id].status.Running? && E.WorkersEnd(status, error) {
      Laws.EndQuiet(s, id, s.executions[id].(status := status, error := error));
    }
  }

  lemma FinishKeeps(s: Tables, id: E.ExecId, status: E.Status, error: Option<E.Code>)
    requires Inv(s) && InOrder(s, Finish(id, status, error))
    ensures Inv(s.(store := E.Finish(s.store, id, status, error)))
  {
    var next := s.(store := E.Finish(s.store, id, status, error));
    FinishRows(s.store, id, status, error);
    hide E.Finish, Sound, PendingReported;
    forall x | x in next.steps ensures SoundAt(next, x) {
      assert SoundAt(s, x);
      if x == id && next.store.executions[id].status != s.store.executions[id].status {
        EndSound(s.store.executions[id].status, status, s.steps[id], s.atStart[id], s.reports[id], id in s.swept);
      }
    }
  }

  lemma StepKeeps(leaseMs: nat, s: Tables, act: Act)
    requires Inv(s)
    ensures Inv(Step(leaseMs, s, act))
  {
    hide Sound, Performed, E.Finish, CancelUnfinished, PendingReported;
    if InOrder(s, act) {
      match act
      case Other(event, job, opts) => PerformedKeeps(leaseMs, s, event, job, opts);
      case StepStarted(id, x) =>
        assert SoundAt(s, id);
        if x in s.steps[id] && s.steps[id][x].PendingRow? {
          StartedSound(s.store.executions[id].status, s.steps[id], s.atStart[id], s.reports[id], id in s.swept, x);
        }
      case StepFinished(id, x, row) =>
        assert SoundAt(s, id);
        if x in s.steps[id] {
          FinishedSound(s.store.executions[id].status, s.steps[id], s.atStart[id], s.reports[id], id in s.swept, x, row);
        }
      case UnfinishedCancelled(id) =>
        assert SoundAt(s, id);
        SweptSound(s.store.executions[id].status, s.steps[id], s.atStart[id], s.reports[id], id in s.swept);
      case Finish(id, status, error) => FinishKeeps(s, id, status, error);
    }
  }

  lemma {:induction false} AlwaysInv(leaseMs: nat, acts: seq<Act>)
    ensures Inv(After(leaseMs, acts))
    decreases |acts|
  {
    hide Step, Inv;
    if acts == [] {
      NoTables();
    } else {
      AlwaysInv(leaseMs, acts[..|acts| - 1]);
      StepKeeps(leaseMs, After(leaseMs, acts[..|acts| - 1]), acts[|acts| - 1]);
    }
  }

  lemma NoTables()
    ensures Inv(NO_TABLES)
  {
  }

  // ----- What each transaction writes -----

  // How rows are opened: all skipped with a skipped execution; otherwise reused where there is an output to reuse,
  // skipped where not selected, and pending elsewhere
  ghost predicate OpenedAs(rows: StepRows, job: Job, opts: Options, status: E.Status) {
    && rows.Keys == Dependencies(job.steps).Keys
    && forall x :: x in rows ==> IsOpening(rows[x], x, opts, status)
  }

  ghost predicate IsOpening(row: StepRow, x: Id, opts: Options, status: E.Status) {
    if status == E.Skipped then row == SkippedRow
    else if x in opts.reused then row == ReusedRow
    else match opts.selected
      case None => row == PendingRow
      case Some(ids) => row == if x in ids then PendingRow else SkippedRow
  }

  // How an end closes rows: what waits is cancelled, what ran when the lease was lost has failed, the rest stays
  ghost predicate ClosedAs(before: StepRows, after: StepRows, wasRunning: bool) {
    && after.Keys == before.Keys
    && forall x :: x in before ==> IsClosing(before[x], after[x], wasRunning)
  }

  ghost predicate IsClosing(before: StepRow, after: StepRow, wasRunning: bool) {
    if before == PendingRow then after == CancelledRow
    else if before == RunningRow && wasRunning then after == FailedRow
    else after == before
  }

  // What the rows of one execution become over a transaction
  ghost predicate Written(s: Tables, t: Tables, job: Job, opts: Options, id: E.ExecId)
    requires id in t.store.executions
  {
    var status := t.store.executions[id].status;
    if id !in s.store.executions then id in t.steps && OpenedAs(t.steps[id], job, opts, status)
    else
      && id in s.steps && id in t.steps
      && if status.Terminal() && !s.store.executions[id].status.Terminal()
        then ClosedAs(s.steps[id], t.steps[id], s.store.executions[id].status == E.Running)
        else t.steps[id] == s.steps[id]
  }

  // What a transaction that is not a worker's own writes: it opens the rows of a new execution, closes those of one
  // it ends, and leaves all others alone
  lemma OthersWrite(leaseMs: nat, acts: seq<Act>, event: E.Event, job: Job, opts: Options, id: E.ExecId)
    requires !event.Finished?
    ensures var s, t := After(leaseMs, acts), After(leaseMs, acts + [Other(event, job, opts)]);
      id in t.store.executions ==> Written(s, t, job, opts, id)
  {
    var s := After(leaseMs, acts);
    AlwaysInv(leaseMs, acts);
    var all := acts + [Other(event, job, opts)];
    assert all[..|acts|] == acts;
    assert After(leaseMs, all) == Performed(leaseMs, s, event, job, opts);
    hide After, E.Step, Inv;
    var t := Performed(leaseMs, s, event, job, opts);
    if id in t.store.executions {
      if id in s.store.executions {
        InvKeys(s);
        Laws.StepEvolves(leaseMs, s.store, event);
        assert Laws.RowEvolves(s.store.executions[id], t.store.executions[id]);
        hide Opening;
        ThroughCloses(s.steps[id], s.store.executions[id].status, t.store.executions[id].status);
      } else {
        InvKeys(s);
        OpeningOpens(job, opts, t.store.executions[id].status);
      }
    }
  }

  lemma InvKeys(s: Tables)
    requires Inv(s)
    ensures s.steps.Keys == s.store.executions.Keys
  {
    hide SoundAt;
  }

  lemma OpeningOpens(job: Job, opts: Options, status: E.Status)
    ensures OpenedAs(Opening(job, opts, status), job, opts, status)
  {
    hide Dependencies;
  }

  lemma ThroughCloses(rows: StepRows, before: E.Status, after: E.Status)
    requires before.Terminal() ==> after == before
    ensures if after.Terminal() && !before.Terminal() then ClosedAs(rows, RowsThrough(rows, before, after), before == E.Running)
      else RowsThrough(rows, before, after) == rows
  {
  }

  // ----- What follows for ended executions -----

  // No ended execution has a pending or running step, even while a worker it was taken from still writes
  lemma EndedRowsAreClosed(leaseMs: nat, acts: seq<Act>, id: E.ExecId)
    ensures var s := After(leaseMs, acts);
      id in s.store.executions && s.store.executions[id].status.Terminal() ==> id in s.steps && AllEnded(s.steps[id])
  {
    AlwaysInv(leaseMs, acts);
    hide After;
    var s := After(leaseMs, acts);
    if id in s.store.executions {
      assert SoundAt(s, id);
    }
  }

  // What a worker last reported of a step stands, whatever happens to the execution
  lemma ReportsStand(leaseMs: nat, acts: seq<Act>, id: E.ExecId, x: Id)
    ensures var s := After(leaseMs, acts);
      id in s.reports && x in s.reports[id] ==> id in s.steps && x in s.steps[id] && s.steps[id][x] == s.reports[id][x]
  {
    AlwaysInv(leaseMs, acts);
    hide After;
    var s := After(leaseMs, acts);
    if id in s.reports {
      assert SoundAt(s, id);
    }
  }

  // The rows of an ended execution change by a late report, and by nothing else
  lemma EndedRowsChangeByReports(leaseMs: nat, acts: seq<Act>, act: Act, id: E.ExecId)
    requires id in After(leaseMs, acts).store.executions && After(leaseMs, acts).store.executions[id].status.Terminal()
    ensures var s, t := After(leaseMs, acts), After(leaseMs, acts + [act]);
      && id in s.steps && id in t.steps
      && t.steps[id] == if IsLateReport(s.steps[id], act, id) then s.steps[id][act.step := act.row] else s.steps[id]
  {
    var s := After(leaseMs, acts);
    AlwaysInv(leaseMs, acts);
    assert (acts + [act])[..|acts|] == acts;
    assert After(leaseMs, acts + [act]) == Step(leaseMs, s, act);
    hide After, Step, Inv;
    EndedRowsStep(leaseMs, s, act, id);
  }

  predicate IsLateReport(rows: StepRows, act: Act, id: E.ExecId) {
    act.StepFinished? && act.id == id && act.step in rows && !IsOpen(act.row)
  }

  lemma EndedRowsStep(leaseMs: nat, s: Tables, act: Act, id: E.ExecId)
    requires Inv(s) && id in s.store.executions && s.store.executions[id].status.Terminal()
    ensures id in s.steps && id in Step(leaseMs, s, act).steps
    ensures Step(leaseMs, s, act).steps[id] ==
      if IsLateReport(s.steps[id], act, id) then s.steps[id][act.step := act.row] else s.steps[id]
  {
    assert SoundAt(s, id);
    assert forall x :: x in s.steps[id] ==> !IsOpen(s.steps[id][x]);
    assert WasClaimed(s, id);
    hide Inv, SoundAt, Performed, WasClaimed;
    if act.Other? {
      EndedRowsPerformed(leaseMs, s, act.event, act.job, act.opts, id);
    } else {
      EndedRowsWritten(leaseMs, s, act, id);
    }
  }

  lemma EndedRowsWritten(leaseMs: nat, s: Tables, act: Act, id: E.ExecId)
    requires !act.Other? && WasClaimed(s, id) && forall x :: x in s.steps[id] ==> !IsOpen(s.steps[id][x])
    ensures id in Step(leaseMs, s, act).steps
    ensures Step(leaseMs, s, act).steps[id] ==
      if IsLateReport(s.steps[id], act, id) then s.steps[id][act.step := act.row] else s.steps[id]
  {
    NothingToCancel(s.steps[id]);
    hide Performed, E.Finish, CancelUnfinished, PendingReported;
  }

  lemma EndedRowsPerformed(leaseMs: nat, s: Tables, event: E.Event, job: Job, opts: Options, id: E.ExecId)
    requires id in s.steps && id in s.store.executions && s.store.executions[id].status.Terminal()
    ensures id in Performed(leaseMs, s, event, job, opts).steps
    ensures Performed(leaseMs, s, event, job, opts).steps[id] == s.steps[id]
  {
    var t := E.Step(leaseMs, s.store, event);
    Laws.StepEvolves(leaseMs, s.store, event);
    assert Laws.RowEvolves(s.store.executions[id], t.executions[id]);
    hide E.Step, Opening;
    ThroughTerminal(s.steps[id], s.store.executions[id].status);
  }

  lemma ThroughTerminal(rows: StepRows, status: E.Status)
    requires status.Terminal()
    ensures RowsThrough(rows, status, status) == rows
  {
  }

  lemma NothingToCancel(rows: StepRows)
    requires forall x :: x in rows ==> !IsOpen(rows[x])
    ensures CancelUnfinished(rows) == rows
  {
  }

  // ----- Late reports happen -----

  function Others(events: seq<E.Event>, job: Job, opts: Options): seq<Act> {
    seq(|events|, i requires 0 <= i < |events| => Other(events[i], job, opts))
  }

  // Without a worker's writes, the store runs as ever and each execution keeps a row per step
  lemma {:induction false} OthersRun(leaseMs: nat, events: seq<E.Event>, job: Job, opts: Options)
    requires forall i :: 0 <= i < |events| ==> !events[i].Finished?
    ensures var s := After(leaseMs, Others(events, job, opts));
      && s.store == E.After(leaseMs, events)
      && forall id :: id in s.atStart ==> s.atStart[id].Keys == Dependencies(job.steps).Keys
    decreases |events|
  {
    var acts := Others(events, job, opts);
    if events != [] {
      var less := events[..|events| - 1];
      OthersRun(leaseMs, less, job, opts);
      assert acts[..|acts| - 1] == Others(less, job, opts);
      assert acts[|acts| - 1] == Other(events[|events| - 1], job, opts);
      hide E.Step, Dependencies, RowOf;
    }
  }

  // A worker loses its lease before it reports a step
  function LostEvents(leaseMs: nat, def: E.JobDef, worker: E.WorkerId): seq<E.Event> {
    Laws.FirstEvents(def, worker) + [E.Tick(E.Micros(leaseMs) + 1), E.Reaped([0])]
  }

  lemma FirstIsLost(leaseMs: nat, def: E.JobDef, worker: E.WorkerId)
    requires E.MaxRunning(def) > 0
    ensures var s := E.After(leaseMs, LostEvents(leaseMs, def, worker));
      0 in s.executions && s.executions[0].status.Failed? && s.executions[0].error == Some(E.WorkerLost)
  {
    var events := LostEvents(leaseMs, def, worker);
    var s := E.After(leaseMs, Laws.FirstEvents(def, worker));
    Laws.FirstExecutionRuns(leaseMs, def, worker);
    assert events[..3][..2] == Laws.FirstEvents(def, worker);
    var t := E.After(leaseMs, events[..3]);
    assert t == E.Step(leaseMs, s, E.Tick(E.Micros(leaseMs) + 1));
    assert E.After(leaseMs, events) == E.Step(leaseMs, t, E.Reaped([0]));
    hide E.After, E.End;
    assert [0][..0] == [] && E.Reap(t, []) == t;
    Laws.EndQuiet(t, 0, E.Lost(t.executions[0]));
  }

  lemma FirstIsLostWithRows(leaseMs: nat, def: E.JobDef, worker: E.WorkerId, job: Job, opts: Options)
    requires E.MaxRunning(def) > 0
    ensures var s := After(leaseMs, Others(LostEvents(leaseMs, def, worker), job, opts));
      && 0 in s.store.executions && s.store.executions[0].status.Failed?
      && 0 in s.steps && s.steps[0].Keys == Dependencies(job.steps).Keys
  {
    var acts := Others(LostEvents(leaseMs, def, worker), job, opts);
    FirstIsLost(leaseMs, def, worker);
    OthersRun(leaseMs, LostEvents(leaseMs, def, worker), job, opts);
    AlwaysInv(leaseMs, acts);
    hide LostEvents, Others, Dependencies, After;
    assert SoundAt(After(leaseMs, acts), 0);
  }

  // So a step of a failed execution can end as a success: the rows do not tell how an execution ended
  lemma LateReportIsReachable(leaseMs: nat, def: E.JobDef, worker: E.WorkerId, job: Job, opts: Options, x: Id)
    requires E.MaxRunning(def) > 0 && x in Dependencies(job.steps)
    ensures var s := After(leaseMs, Others(LostEvents(leaseMs, def, worker), job, opts) + [StepFinished(0, x, SuccessRow)]);
      && 0 in s.store.executions && s.store.executions[0].status.Failed?
      && 0 in s.steps && x in s.steps[0] && s.steps[0][x] == SuccessRow
  {
    FirstIsLostWithRows(leaseMs, def, worker, job, opts);
    hide LostEvents, Others, Dependencies, After;
    var acts := Others(LostEvents(leaseMs, def, worker), job, opts);
    EndedRowsChangeByReports(leaseMs, acts, StepFinished(0, x, SuccessRow), 0);
    LateReportKeepsStore(leaseMs, acts, StepFinished(0, x, SuccessRow));
  }

  lemma LateReportKeepsStore(leaseMs: nat, acts: seq<Act>, act: Act)
    requires act.StepFinished?
    ensures After(leaseMs, acts + [act]).store == After(leaseMs, acts).store
  {
    assert (acts + [act])[..|acts|] == acts;
    hide E.Step;
  }

  // ----- The order a worker keeps -----

  // What a worker has written stays on record
  ghost predicate Recorded(s: Tables, t: Tables, id: E.ExecId) {
    && WasClaimed(s, id) && WasClaimed(t, id)
    && t.atStart[id] == s.atStart[id] && t.steps[id].Keys == s.steps[id].Keys
    && s.reports[id].Keys <= t.reports[id].Keys && (id in s.swept ==> id in t.swept)
  }

  lemma StepRecords(leaseMs: nat, s: Tables, act: Act, id: E.ExecId)
    requires WasClaimed(s, id)
    ensures Recorded(s, Step(leaseMs, s, act), id)
    ensures act == UnfinishedCancelled(id) ==> id in Step(leaseMs, s, act).swept
    ensures act.StepFinished? && act.id == id && act.step in s.steps[id] && !IsOpen(act.row) ==>
      act.step in Step(leaseMs, s, act).reports[id]
  {
    hide E.Step, E.Finish, Opening, PendingReported;
    if act.Other? {
      Laws.StepEvolves(leaseMs, s.store, act.event);
      assert Laws.RowEvolves(s.store.executions[id], E.Step(leaseMs, s.store, act.event).executions[id]);
    }
    if act.Finish? && act.id in s.store.executions {
      FinishRows(s.store, act.id, act.status, act.error);
    }
  }

  // Whatever happens in between
  lemma {:induction false} RunRecords(leaseMs: nat, acts: seq<Act>, more: seq<Act>, id: E.ExecId)
    requires WasClaimed(After(leaseMs, acts), id)
    ensures Recorded(After(leaseMs, acts), After(leaseMs, acts + more), id)
    ensures UnfinishedCancelled(id) in more ==> id in After(leaseMs, acts + more).swept
    ensures forall x, row :: StepFinished(id, x, row) in more && x in After(leaseMs, acts).steps[id] && !IsOpen(row) ==>
      x in After(leaseMs, acts + more).reports[id]
    decreases |more|
  {
    hide Step, WasClaimed, IsOpen;
    if more == [] {
      assert acts + more == acts;
    } else {
      var less, last := more[..|more| - 1], more[|more| - 1];
      RunRecords(leaseMs, acts, less, id);
      assert (acts + more)[..|acts + more| - 1] == acts + less;
      assert more == less + [last];
      StepRecords(leaseMs, After(leaseMs, acts + less), last, id);
    }
  }

  // The steps of a run that have their verdict, as its worker reports them
  ghost predicate Reports(acts: seq<Act>, id: E.ExecId, job: Job, logs: Logs) {
    forall x :: x in Dependencies(job.steps) && x in logs && Final(logs[x]) ==> StepFinished(id, x, RowOf(logs[x])) in acts
  }

  // Once its steps are reported, a worker may write the success of a run that ended well, whatever others did meanwhile
  lemma SuccessIsInOrder(
    leaseMs: nat, acts: seq<Act>, more: seq<Act>, id: E.ExecId, job: Job, opts: Options, logs: Logs, error: Option<E.Code>)
    requires WasClaimed(After(leaseMs, acts), id) && After(leaseMs, acts).atStart[id] == Opening(job, opts, E.Queued)
    requires AllReported(job, opts, logs) && Reports(more, id, job, logs)
    ensures InOrder(After(leaseMs, acts + more), Finish(id, E.Success, error))
  {
    var s, t := After(leaseMs, acts), After(leaseMs, acts + more);
    SameSteps(leaseMs, acts, id);
    RunRecords(leaseMs, acts, more, id);
    hide After, AllReported, Reports, Dependencies;
    forall x | x in s.atStart[id] && s.atStart[id][x].PendingRow? ensures x in t.reports[id] {
      PendingIsReported(more, id, job, opts, logs, x);
    }
  }

  lemma SameSteps(leaseMs: nat, acts: seq<Act>, id: E.ExecId)
    requires WasClaimed(After(leaseMs, acts), id)
    ensures After(leaseMs, acts).steps[id].Keys == After(leaseMs, acts).atStart[id].Keys
  {
    AlwaysInv(leaseMs, acts);
    hide After;
    assert SoundAt(After(leaseMs, acts), id);
  }

  lemma PendingIsReported(acts: seq<Act>, id: E.ExecId, job: Job, opts: Options, logs: Logs, x: Id)
    requires AllReported(job, opts, logs) && Reports(acts, id, job, logs)
    requires x in Opening(job, opts, E.Queued) && Opening(job, opts, E.Queued)[x].PendingRow?
    ensures exists row :: StepFinished(id, x, row) in acts && !IsOpen(row)
  {
    hide Dependencies;
    assert StepFinished(id, x, RowOf(logs[x])) in acts;
  }

  // And any other end once the unfinished steps are cancelled
  lemma FailureIsInOrder(
    leaseMs: nat, acts: seq<Act>, more: seq<Act>, id: E.ExecId, status: E.Status, error: Option<E.Code>)
    requires WasClaimed(After(leaseMs, acts), id) && !status.Success? && UnfinishedCancelled(id) in more
    ensures InOrder(After(leaseMs, acts + more), Finish(id, status, error))
  {
    RunRecords(leaseMs, acts, more, id);
    hide After;
  }
}
