/**
 * The repository (src/repositories/ExecutionRepository.ts and src/repositories/WorkerRepository.ts):
 * methods that update the tables row by row, each shown to be one transaction of Executions.
 */
module ExecutionRepository {
  import opened Wrappers
  import opened Executions
  import opened ExecutionLaws
  import Told = Transactions

  class Repository {
    var clock: Time
    var executions: map<ExecId, Execution>
    var policies: map<Queue, Policy>
    var windows: map<(Queue, Time), int>
    var triggers: map<TriggerId, CompletionTrigger>
    var deliveries: set<Delivery>
    var events: set<TriggerEvent>
    var settled: map<TriggerEvent, Settlement>
    // History, as in Executions.State
    var claims: nat
    var starts: map<Queue, seq<Time>>
    var renewed: map<WorkerId, Time>
    var matched: map<ExecId, set<TriggerId>>
    var deleted: set<TriggerId>

    function View(): State
      reads this
    {
      State(clock, executions, policies, windows, triggers, deliveries, events, settled, claims, starts, renewed, matched, deleted)
    }

    constructor ()
      ensures View() == EMPTY
    {
      clock, executions, policies, windows, triggers := 0, map[], map[], map[], map[];
      deliveries, events, settled, claims, starts, renewed, matched, deleted := {}, {}, map[], 0, map[], map[], map[], {};
    }

    // A delivery that is already there, under its unique key, is not added again
    method EnqueueTerminalWebhooks(id: ExecId)
      requires id in executions
      modifies this`deliveries
      ensures deliveries == old(deliveries) +
        if executions[id].status.Terminal() && !executions[id].suppressed then Deliveries(id, executions[id]) else {}
      ensures forall d :: d in deliveries <==> (d in old(deliveries) || Told.IsDue(id, executions[id], d))
    {
      var row := executions[id];
      if row.suppressed || !row.status.Terminal() {
        return;
      }
      for i := 0 to |row.job.webhooks|
        invariant deliveries == old(deliveries) +
          set k | 0 <= k < i && Wants(row.job.webhooks[k], row.status) :: Delivery(id, row.status, k)
      {
        if !Wants(row.job.webhooks[i], row.status) {
          continue;
        }
        deliveries := deliveries + {Delivery(id, row.status, i)};
      }
    }

    // One event per trigger that matches now
    method EnqueueTerminalAutomations(id: ExecId)
      requires id in executions
      modifies this`events, this`matched
      ensures var row := executions[id];
        if row.suppressed || !row.status.Terminal() then events == old(events) && matched == old(matched)
        else
          var matching := Matching(triggers, row);
          events == old(events) + EventsFor(id, matching) && matched == old(matched)[id := matching]
      ensures forall e :: e in events <==> (e in old(events) || Told.IsSetOff(triggers, id, executions[id], e))
    {
      var row := executions[id];
      if row.suppressed || !row.status.Terminal() {
        return;
      }
      var rows := Matching(triggers, row);
      matched := matched[id := rows];
      ghost var done: set<TriggerId> := {};
      while rows != {}
        invariant rows + done == Matching(triggers, row)
        invariant events == old(events) + EventsFor(id, done) && matched == old(matched)[id := Matching(triggers, row)]
        decreases rows
      {
        var trigger :| trigger in rows;
        events := events + {TriggerEvent(trigger, id)};
        rows := rows - {trigger};
        done := done + {trigger};
      }
      assert done == Matching(triggers, row);
    }

    // A row reaches its end and is announced
    method EndExecution(id: ExecId, row: Execution)
      requires id in executions
      modifies this
      ensures View() == End(old(View()), id, row)
    {
      executions := executions[id := row];
      EnqueueTerminalWebhooks(id);
      EnqueueTerminalAutomations(id);
    }

    // The active row that was requested first; of rows requested at one time the one with the least id
    method FindOldest(active: set<ExecId>) returns (oldest: ExecId)
      requires active != {} && active <= executions.Keys
      ensures oldest == Oldest(View(), active)
    {
      var rest := active;
      oldest :| oldest in rest;
      rest := rest - {oldest};
      ghost var seen := {oldest};
      while rest != {}
        invariant seen + rest == active
        invariant IsOldest(View(), seen, oldest)
        decreases rest
      {
        var id :| id in rest;
        if !Before(View(), oldest, id) {
          oldest := id;
        }
        rest := rest - {id};
        seen := seen + {id};
      }
      assert seen == active;
    }

    method ApplyOverlapPolicy(job: JobDef, key: Option<string>, kind: Kind) returns (status: Status)
      modifies this
      ensures (View(), status) == Overlapped(old(View()), job, key, kind)
      ensures forall request: Request | request.job == job && request.key == key && request.kind == kind ::
        Told.MakesRoom(old(View()), executions, request, status)
    {
      forall request: Request | request.job == job && request.key == key && request.kind == kind {
        Told.OverlappedRows(View(), request);
      }
      hide Told.MakesRoom;
      var mode := Mode(job, kind);
      if mode == QueueNew {
        return Queued;
      }
      var active := ActiveFor(View(), job.id, key);
      if active == {} {
        return Queued;
      }
      if mode == SkipNew {
        return Skipped;
      }
      var oldest := FindOldest(active);
      OldestIsActive(View(), active);
      if executions[oldest].status.Queued? {
        EndExecution(oldest, CancelledBy(executions[oldest], Some(OverlapCancelled)));
      } else {
        executions := executions[oldest := executions[oldest].(cancelRequested := true)];
      }
      return Queued;
    }

    method InsertExecution(id: ExecId, request: Request, status: Status)
      modifies this
      ensures View() == Inserted(old(View()), id, request, status)
    {
      hide Matching, Deliveries, EventsFor, WithPolicy, NewRow;
      policies := WithPolicy(policies, request.job.queue);
      NewRowIgnoresPolicies(old(View()), View(), request, status);
      executions := executions[id := NewRow(View(), request, status)];
      EnqueueTerminalWebhooks(id);
      EnqueueTerminalAutomations(id);
    }

    method EnqueueExecution(id: ExecId, request: Request)
      requires Admissible(View(), id, request)
      modifies this
      ensures View() == Enqueue(old(View()), id, request)
      ensures Told.Opened(old(View()), View(), id, request)
    {
      Told.EnqueueOpens(View(), id, request);
      Told.FitsIsAdmissible(View(), id, request);
      hide Told.Opened, Told.Fits, Overlapped, Inserted, Told.MakesRoom;
      var status := ApplyOverlapPolicy(request.job, request.key, request.kind);
      InsertExecution(id, request, status);
    }

    // Counts a start in its window's row, which is created by the first one
    method RecordStart(queue: Queue, policy: Policy)
      modifies this
      ensures View() == Recorded(old(View()), queue, policy, old(clock))
    {
      if policy.maxStarts.Some? && policy.intervalMs.Some? && policy.intervalMs.value > 0 {
        var window := Window(clock, policy.intervalMs.value);
        var count := StartsCount(View(), queue, window);
        var recorded := Starts(View(), queue);
        hide Window, StartsCount, Starts;
        windows := windows[(queue, window) := count + 1];
        starts := starts[queue := recorded + [clock]];
      }
    }

    // The claimed row starts running under its lease, and a new worker is registered
    method TakeRow(leaseMs: nat, worker: WorkerId, id: ExecId, checked: Time, claimed: Time, recorded: Time)
      requires id in executions && executions[id].job.queue in policies
      modifies this
      ensures View() == Taken(old(View()), leaseMs, worker, id, checked, claimed, recorded)
    {
      var row, policy := executions[id], policies[executions[id].job.queue];
      executions := executions[id := row.(
        status := Running, worker := Some(worker), leaseExpires := Some(claimed + Micros(leaseMs)),
        claimNo := claims, capAtClaim := policy.maxRunning)];
      claims := claims + 1;
      clock := recorded;
      if worker !in renewed {
        renewed := renewed[worker := checked];
      }
    }

    // Whether the window this moment falls in has had all the starts it may have
    method WindowIsFull(queue: Queue, policy: Policy, now: Time) returns (full: bool)
      ensures full <==> !RateAllows(View(), queue, policy, now)
    {
      if policy.maxStarts.None? || policy.intervalMs.None? || policy.intervalMs.value <= 0 {
        return false;
      }
      var row := (queue, Window(now, policy.intervalMs.value));
      return row in windows && windows[row] >= policy.maxStarts.value;
    }

    // The conditions of the claiming query on one row, against the tables as they are
    method MayClaim(id: ExecId, now: Time) returns (eligible: bool)
      ensures eligible == Eligible(View(), id, now)
    {
      hide RateAllows, RunningInQueue, RunningOfJob;
      if id !in executions || !executions[id].status.Queued? {
        return false;
      }
      var row := executions[id];
      if row.job.queue !in policies {
        return false;
      }
      var policy := policies[row.job.queue];
      if policy.paused {
        return false;
      }
      var inQueue := CountWhere(executions, IsInQueue(row.job.queue));
      QueueCount(View(), row.job.queue);
      if policy.maxRunning.Some? && inQueue >= policy.maxRunning.value {
        return false;
      }
      var ofJob := CountWhere(executions, IsOfJob(row.job.id));
      JobCount(View(), row.job.id);
      if ofJob >= (if row.job.maxRunning.Some? then row.job.maxRunning.value else 1) {
        return false;
      }
      var keyed := CountWhere(executions, HoldsKey(row.job.id, row.key));
      KeyCount(View(), row.job.id, row.key);
      if row.key.Some? && keyed > 0 {
        return false;
      }
      var full := WindowIsFull(row.job.queue, policy, now);
      return !full;
    }

    // Any eligible row may be the one that is not locked by another transaction
    method ClaimQueued(
      leaseMs: nat, worker: WorkerId, id: ExecId, checked: Time, claimed: Time, recorded: Time) returns (taken: bool)
      requires clock <= checked <= claimed <= recorded
      modifies this
      ensures View() == Claim(old(View()), leaseMs, worker, id, checked, claimed, recorded)
      ensures taken <==> Told.Claimable(old(View()), id, checked)
      ensures taken <==> Eligible(old(View()), id, checked)
      ensures if taken then Told.Claimed(old(View()), View(), leaseMs, worker, id, claimed, recorded) else View() == old(View())
      ensures taken ==> id in executions && RunsOn(executions[id], worker)
    {
      Told.ClaimableIsEligible(View(), id, checked);
      Told.ClaimClaims(leaseMs, View(), worker, id, checked, claimed, recorded);
      hide Told.Claimable, Told.Claimed;
      hide RateAllows, Recorded, RunningInQueue, RunningOfJob;
      taken := MayClaim(id, checked);
      if taken {
        var queue := executions[id].job.queue;
        var policy := policies[queue];
        TakeRow(leaseMs, worker, id, checked, claimed, recorded);
        ghost var row := executions[id];
        RecordStart(queue, policy);
        RecordedRows(old(View()), leaseMs, worker, id, checked, claimed, recorded, queue, policy);
      }
    }

    // Renews the leases of a registered worker and tells it which of its executions were asked to cancel
    method HeartbeatWorker(leaseMs: nat, worker: WorkerId) returns (r: Result<set<ExecId>, WorkerError>)
      modifies this
      ensures View() == Heartbeat(old(View()), leaseMs, worker)
      ensures r.Err? <==> worker !in old(renewed)
      ensures r.Err? ==> View() == old(View())
      ensures r.Ok? ==>
        && executions.Keys == old(executions).Keys
        && (forall id :: id in executions ==>
          if RunsOn(old(executions)[id], worker) then
            executions[id] == old(executions)[id].(leaseExpires := Some(clock + Micros(leaseMs)))
          else executions[id] == old(executions)[id])
        && (forall id :: id in r.value <==> id in executions && RunsOn(executions[id], worker) && executions[id].cancelRequested)
        && View() == old(View()).(executions := executions, renewed := old(renewed)[worker := clock])
    {
      if worker !in renewed {
        return Err(WorkerNotFound);
      }
      hide RunsOn;
      var expires := Some(clock + Micros(leaseMs));
      var rows := UpdateWhere(
        executions, (row: Execution) => RunsOn(row, worker), (row: Execution) => row.(leaseExpires := expires));
      RenewalsAre(View(), leaseMs, worker, rows);
      var cancellations := SelectWhere(rows, (row: Execution) => RunsOn(row, worker) && row.cancelRequested);
      hide Heartbeat, Micros;
      renewed := renewed[worker := clock];
      executions := rows;
      return Ok(cancellations);
    }

    // A worker that registers again keeps its last heartbeat
    method RegisterWorker(worker: WorkerId)
      modifies this`renewed
      ensures View() == Register(old(View()), worker)
    {
      if worker !in renewed {
        renewed := renewed[worker := clock];
      }
    }

    method ReconcileExpiredLeases(ids: seq<ExecId>)
      modifies this
      ensures View() == Reap(old(View()), ids)
      ensures Told.ReapedRows(old(View()), View(), ids)
    {
      Told.ReapReaps(View(), ids);
      hide Told.ReapedRows;
      for i := 0 to |ids|
        invariant View() == Reap(old(View()), ids[..i])
      {
        assert ids[..i + 1][..i] == ids[..i];
        if ids[i] in executions && Expired(View(), executions[ids[i]]) {
          EndExecution(ids[i], Lost(executions[ids[i]]));
        }
      }
      assert ids[..|ids|] == ids;
    }

    method RequestCancellation(id: ExecId) returns (r: Result<bool, CancelError>)
      modifies this
      ensures match RequestCancel(old(View()), id)
        case Ok(after) => View() == after.0 && r == Ok(after.1)
        case Err(e) => View() == old(View()) && r == Err(e)
      ensures Told.CancelAnswers(old(View()), View(), id, r)
    {
      Told.CancelIsAnswered(View(), id);
      hide End;
      if id !in executions {
        return Err(ExecutionNotFound);
      }
      match executions[id].status {
        case Cancelled => return Ok(false);
        case Queued =>
          EndExecution(id, CancelledBy(executions[id], executions[id].error));
          return Ok(false);
        case Running =>
          executions := executions[id := executions[id].(cancelRequested := true)];
          return Ok(true);
        case _ => return Err(NotCancellable);
      }
    }

    method FinishExecution(id: ExecId, status: Status, error: Option<Code>)
      requires WorkersEnd(status, error)
      modifies this
      ensures View() == Finish(old(View()), id, status, error)
      ensures executions ==
        if id in old(executions) && old(executions)[id].status == Running
        then old(executions)[id := old(executions)[id].(status := status, error := error)] else old(executions)
    {
      Told.FinishWrites(View(), id, status, error);
      if id !in executions || !executions[id].status.Running? {
        return;
      }
      EndExecution(id, executions[id].(status := status, error := error));
    }

    // Writes what the patch mentions, under the version the caller saw
    method UpdateQueuePolicy(queue: Queue, patch: Patch, expectedVersion: nat) returns (r: Result<(), PolicyError>)
      modifies this
      ensures match UpdatePolicy(old(View()), queue, patch, expectedVersion)
        case Ok(after) => View() == after && r == Ok(())
        case Err(e) => View() == old(View()) && r == Err(e)
      ensures Told.PolicyAnswers(old(View()), View(), queue, patch, expectedVersion, r)
    {
      Told.UpdateIsAnswered(View(), queue, patch, expectedVersion);
      hide Told.PolicyAnswers;
      hide ValidPolicy, Patched;
      var row := if queue in policies then policies[queue] else DEFAULT_POLICY;
      if row.version != expectedVersion {
        return Err(VersionConflict(row.version));
      }
      var next := ApplyPatch(row, patch);
      if next.maxStarts.None? != next.intervalMs.None? {
        return Err(InvalidRatePolicy);
      }
      if !ValidPolicy(next) {
        return Err(CheckViolated);
      }
      policies := policies[queue := next];
      starts := starts[queue := []];
      return Ok(());
    }

    method SaveTrigger(id: TriggerId, row: CompletionTrigger)
      modifies this`triggers
      ensures View() == PutTrigger(old(View()), id, row)
    {
      if Puttable(View(), id, row) {
        triggers := triggers[id := row];
      }
    }

    method DropTrigger(id: TriggerId)
      modifies this
      ensures View() == DeleteTrigger(old(View()), id)
    {
      triggers := map t | t in triggers && t != id :: triggers[t];
      events := set e | e in events && e.trigger != id;
      settled := map e | e in settled && e.trigger != id :: settled[e];
      deleted := deleted + {id};
    }

    // The child of an event and the settlement of that event, in one transaction
    method StartChild(event: TriggerEvent, child: ExecId, target: Target)
      requires Spawns(View(), event, child, target)
      modifies this
      ensures View() == Dispatch(old(View()), event, child, target)
      ensures DispatchSettles(old(View()), View(), event, child, true)
      ensures Told.DispatchAnswers(old(View()), View(), event, child, target)
    {
      hide Enqueue, Overlapped, Admissible, Told.Opened;
      ghost var s := View();
      SpawnSettles(View(), event, child, target);
      var request := Request(target.job, target.key, JobCompletion, OnRequest, None, false, Some(event.source));
      EnqueueExecution(child, request);
      ghost var t := View();
      EnqueueSettles(s, child, request);
      settled := settled[event := QueuedAs(child)];
      Told.OpenedRest(s, t, View(), child, request);
    }

    // One pending event is settled for good: skipped, failed, or turned into an execution of its trigger's target
    method DispatchOne(event: TriggerEvent, child: ExecId, target: Target) returns (dispatched: bool)
      requires target.Runs? ==> child !in executions
      requires Dispatchable(View(), event) && target.Runs? ==> target.job.id == triggers[event.trigger].target
      modifies this
      ensures View() == Dispatch(old(View()), event, child, target)
      ensures DispatchSettles(old(View()), View(), event, child, dispatched)
      ensures Told.DispatchAnswers(old(View()), View(), event, child, target)
      ensures dispatched <==>
        (Dispatchable(old(View()), event) &&
        (!old(triggers)[event.trigger].enabled || event.source !in old(executions) || !target.Refusing?))
    {
      hide Enqueue, Occupied, Told.Opened;
      if event !in events || event in settled || event.trigger !in triggers {
        return false;
      }
      var row := triggers[event.trigger];
      if row.enabled && event.source in executions && target.Runs? {
        assert Spawns(View(), event, child, target);
        hide Spawns, Dispatch, DispatchSettles, Told.DispatchAnswers;
        StartChild(event, child, target);
        return true;
      }
      if !row.enabled || target.Inactive? {
        settled := settled[event := EventSkipped];
        return true;
      }
      if event.source !in executions || target.Oversized? {
        settled := settled[event := EventFailed];
        return true;
      }
      return false;
    }

    // Any transaction, and the clock: the methods together are the transition system of Executions. What the
    // callers of a method never ask of it changes nothing
    method Perform(leaseMs: nat, event: Event)
      modifies this
      ensures View() == Step(leaseMs, old(View()), event)
    {
      hide Enqueue, Claim, Heartbeat, Reap, RequestCancel, Finish, UpdatePolicy, Dispatch, Admissible;
      hide Told.Opened, Told.Claimed, Told.Claimable, Told.ReapedRows, Told.CancelAnswers, Told.PolicyAnswers, DispatchSettles;
      match event
      case Tick(now) =>
        if now > clock {
          clock := now;
        }
      case Enqueued(id, request) =>
        NotAdmissible(View(), id, request);
        if Direct(request) && Admissible(View(), id, request) {
          EnqueueExecution(id, request);
        }
      case Claimed(worker, id, checked, claimed, recorded) =>
        NotInOrder(leaseMs, View(), worker, id, checked, claimed, recorded);
        if clock <= checked <= claimed <= recorded {
          var taken := ClaimQueued(leaseMs, worker, id, checked, claimed, recorded);
        }
      case Registered(worker) => RegisterWorker(worker);
      case Beat(worker) => var r := HeartbeatWorker(leaseMs, worker);
      case Reaped(ids) => ReconcileExpiredLeases(ids);
      case CancelRequested(id) => var r := RequestCancellation(id);
      case Finished(id, status, error) =>
        NotAWorkersEnd(View(), id, status, error);
        if WorkersEnd(status, error) {
          FinishExecution(id, status, error);
        }
      case PolicyUpdated(queue, patch, expectedVersion) => var r := UpdateQueuePolicy(queue, patch, expectedVersion);
      case TriggerPut(trigger, row) => SaveTrigger(trigger, row);
      case TriggerDeleted(trigger) => DropTrigger(trigger);
      case Dispatched(pending, child, target) =>
        var fits := !target.Runs? ||
          (child !in executions && (Dispatchable(View(), pending) ==> target.job.id == triggers[pending.trigger].target));
        if !fits {
          MisfitIsRefused(View(), pending, child, target);
        }
        var dispatched := DispatchOne(pending, child, if fits then target else Refusing);
    }
  }

  // What a caller can rely on: a pending event is settled by this call or everything stays as it was, and it is
  // queued only as a new execution of the trigger's target whose parent is the event's source
  ghost predicate DispatchSettles(s: State, t: State, event: TriggerEvent, child: ExecId, dispatched: bool) {
    if dispatched then
      && Dispatchable(s, event) && event in t.settled && t.settled == s.settled[event := t.settled[event]]
      && (t.settled[event].QueuedAs? ==>
        && s.triggers[event.trigger].enabled && t.settled[event].child == child && child !in s.executions
        && child in t.executions && t.executions[child].parent == Some(event.source)
        && t.executions[child].job.id == s.triggers[event.trigger].target)
      && (!t.settled[event].QueuedAs? ==> t == s.(settled := t.settled))
    else t == s
  }

  lemma SpawnSettles(s: State, event: TriggerEvent, child: ExecId, target: Target)
    requires Spawns(s, event, child, target)
    ensures DispatchSettles(s, Dispatch(s, event, child, target), event, child, true)
  {
    var request := ChildRequest(target, event.source);
    AdmissibleIsFresh(s, child, request);
    EnqueuedChild(s, child, request);
    hide Enqueue, Admissible;
  }

  lemma NotAdmissible(s: State, id: ExecId, request: Request)
    ensures !Admissible(s, id, request) ==> Enqueue(s, id, request) == s
  {
    hide Admissible;
  }

  lemma NotInOrder(leaseMs: nat, s: State, worker: WorkerId, id: ExecId, checked: Time, claimed: Time, recorded: Time)
    ensures !(s.clock <= checked <= claimed <= recorded) ==> Claim(s, leaseMs, worker, id, checked, claimed, recorded) == s
  {
  }

  lemma NotAWorkersEnd(s: State, id: ExecId, status: Status, error: Option<Code>)
    ensures !WorkersEnd(status, error) ==> Finish(s, id, status, error) == s
  {
    hide WorkersEnd;
  }

  lemma MisfitIsRefused(s: State, event: TriggerEvent, child: ExecId, target: Target)
    requires target.Runs?
    requires child in s.executions || (Dispatchable(s, event) && target.job.id != s.triggers[event.trigger].target)
    ensures Dispatch(s, event, child, Refusing) == Dispatch(s, event, child, target)
  {
    hide Enqueue;
  }

  // ----- Statements on the executions table -----

  // The number of rows a condition holds of
  method CountWhere(rows: map<ExecId, Execution>, condition: Execution -> bool) returns (n: nat)
    ensures n == |set id | id in rows && condition(rows[id])|
  {
    var ids := SelectWhere(rows, condition);
    assert ids == set id | id in rows && condition(rows[id]);
    return |ids|;
  }

  // Their ids
  method SelectWhere(rows: map<ExecId, Execution>, condition: Execution -> bool) returns (ids: set<ExecId>)
    ensures forall id :: id in ids <==> id in rows && condition(rows[id])
  {
    ids := {};
    var rest := rows.Keys;
    while rest != {}
      invariant rest <= rows.Keys
      invariant forall id :: id in ids <==> id in rows && id !in rest && condition(rows[id])
      decreases rest
    {
      var id :| id in rest;
      if condition(rows[id]) {
        ids := ids + {id};
      }
      rest := rest - {id};
    }
  }

  // The rows after an update of those a condition holds of
  method UpdateWhere(
    rows: map<ExecId, Execution>, condition: Execution -> bool, update: Execution -> Execution)
    returns (after: map<ExecId, Execution>)
    ensures after.Keys == rows.Keys
    ensures forall id :: id in rows ==> after[id] == if condition(rows[id]) then update(rows[id]) else rows[id]
  {
    after := rows;
    var rest := rows.Keys;
    while rest != {}
      invariant after.Keys == rows.Keys && rest <= rows.Keys
      invariant forall id :: id in rows ==>
        after[id] == if id !in rest && condition(rows[id]) then update(rows[id]) else rows[id]
      decreases rest
    {
      var id :| id in rest;
      if condition(rows[id]) {
        after := after[id := update(rows[id])];
      }
      rest := rest - {id};
    }
  }

  // The conditions of the claiming query's counts
  function IsInQueue(queue: Queue): Execution -> bool {
    (r: Execution) => r.status.Running? && r.job.queue == queue
  }

  function IsOfJob(job: JobId): Execution -> bool {
    (r: Execution) => r.status.Running? && r.job.id == job
  }

  function HoldsKey(job: JobId, key: Option<string>): Execution -> bool {
    (r: Execution) => r.status.Running? && r.job.id == job && r.key == key
  }

  lemma QueueCount(s: State, queue: Queue)
    ensures (set id | id in s.executions && IsInQueue(queue)(s.executions[id])) == RunningInQueue(s, queue)
  {
  }

  lemma JobCount(s: State, job: JobId)
    ensures (set id | id in s.executions && IsOfJob(job)(s.executions[id])) == RunningOfJob(s, job)
  {
  }

  lemma KeyCount(s: State, job: JobId, key: Option<string>)
    ensures |set id | id in s.executions && HoldsKey(job, key)(s.executions[id])| > 0 <==>
      exists r :: r in RunningOfJob(s, job) && s.executions[r].key == key
  {
    var ids := set id | id in s.executions && HoldsKey(job, key)(s.executions[id]);
    if r :| r in RunningOfJob(s, job) && s.executions[r].key == key {
      assert r in ids;
    }
    if ids != {} {
      var r :| r in ids;
      assert r in RunningOfJob(s, job);
    }
  }

  lemma RenewalsAre(s: State, leaseMs: nat, worker: WorkerId, rows: map<ExecId, Execution>)
    requires worker in s.renewed && rows.Keys == s.executions.Keys
    requires forall id :: id in rows ==>
      rows[id] ==
        if RunsOn(s.executions[id], worker) then s.executions[id].(leaseExpires := Some(s.clock + Micros(leaseMs)))
        else s.executions[id]
    ensures Heartbeat(s, leaseMs, worker) == s.(executions := rows, renewed := s.renewed[worker := s.clock])
  {
    assert Heartbeat(s, leaseMs, worker).executions == rows;
  }

  lemma RecordedRows(
    s: State, leaseMs: nat, worker: WorkerId, id: ExecId, checked: Time, claimed: Time, recorded: Time, queue: Queue, policy: Policy)
    requires id in s.executions && s.executions[id].job.queue in s.policies
    ensures var t := Recorded(Taken(s, leaseMs, worker, id, checked, claimed, recorded), queue, policy, recorded);
      id in t.executions && RunsOn(t.executions[id], worker)
  {
    hide Window, StartsCount, Starts;
  }

  // ----- Policies -----

  // One field after the other, each left alone unless the patch mentions it
  method ApplyPatch(row: Policy, patch: Patch) returns (next: Policy)
    ensures next == Patched(row, patch)
  {
    next := row.(version := row.version + 1);
    if patch.paused.Some? {
      next := next.(paused := patch.paused.value);
    }
    if patch.maxRunning.Some? {
      next := next.(maxRunning := patch.maxRunning.value);
    }
    if patch.maxStarts.Some? {
      next := next.(maxStarts := patch.maxStarts.value);
    }
    if patch.intervalMs.Some? {
      next := next.(intervalMs := patch.intervalMs.value);
    }
  }

  datatype WorkerError = WorkerNotFound

  predicate RunsOn(row: Execution, worker: WorkerId) {
    row.status.Running? && row.worker == Some(worker)
  }

  lemma EnqueuedChild(s: State, id: ExecId, request: Request)
    requires Admissible(s, id, request)
    ensures var t := Enqueue(s, id, request);
      id in t.executions && t.executions[id].parent == request.parent && t.executions[id].job == request.job
    ensures Enqueue(s, id, request).settled == s.settled
  {
    AdmissibleIsFresh(s, id, request);
    hide Admissible, Overlapped, Inserted;
    OverlappedQuiet(s, request.job, request.key, request.kind);
    OverlappedStatus(s, request.job, request.key, request.kind);
    OverlappedSettled(s, request.job, request.key, request.kind);
    var (t, status) := Overlapped(s, request.job, request.key, request.kind);
    InsertedQuiet(t, id, request, status);
    InsertedSettled(t, id, request, status);
    hide Quiet;
  }

  lemma EnqueueSettles(s: State, id: ExecId, request: Request)
    requires Admissible(s, id, request)
    ensures Enqueue(s, id, request).settled == s.settled
  {
    EnqueuedChild(s, id, request);
    hide Enqueue;
  }

  lemma OverlappedSettled(s: State, job: JobDef, key: Option<string>, kind: Kind)
    ensures Overlapped(s, job, key, kind).0.settled == s.settled
  {
    hide IsOldest, Matching, Deliveries, EventsFor;
    var active := ActiveFor(s, job.id, key);
    if active != {} && Mode(job, kind) == CancelOldest {
      OldestIsActive(s, active);
    }
  }

  lemma InsertedSettled(s: State, id: ExecId, request: Request, status: Status)
    ensures Inserted(s, id, request, status).settled == s.settled
  {
    hide Matching, Deliveries, EventsFor, NewRow, WithPolicy;
  }

  lemma NewRowIgnoresPolicies(s: State, t: State, request: Request, status: Status)
    requires t == s.(policies := t.policies)
    ensures NewRow(t, request, status) == NewRow(s, request, status)
  {
  }
}
