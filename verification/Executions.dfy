/**
 * The shared state of schedulers, workers and API servers: executions, queue policies, rate
 * windows, leases and outbox rows. Each function is one database transaction
 * (src/repositories/ExecutionRepository.ts, src/repositories/WorkerRepository.ts).
 */
module Executions {
  import opened Wrappers

  // UUIDs, numbered in their own order
  type ExecId = nat
  type JobId = string
  type Queue = string
  type WorkerId = string
  type TriggerId = string

  // Microseconds since the epoch
  type Time = int

  function Micros(ms: int): Time {
    1000 * ms
  }

  datatype Status = Queued | Running | Success | Failed | Cancelled | Skipped
  {
    predicate Terminal() {
      !Queued? && !Running?
    }
  }

  datatype Source = Manual | Scheduled | Backfill | Replay | Test | Webhook | JobCompletion

  datatype Code = WorkerLost | ExecutionCancelled | OverlapCancelled | JobFailed | Other(name: string)

  datatype Overlap = QueueNew | SkipNew | CancelOldest

  // A webhook without EVENTS is told of every end
  type Subscription = Option<set<Status>>

  predicate Wants(subscription: Subscription, status: Status) {
    subscription.None? || status in subscription.value
  }

  // The parts of a job definition an execution row keeps a snapshot of
  datatype JobDef = JobDef(
    id: JobId,
    queue: Queue,
    priority: int,
    maxRunning: Option<nat>,
    overlapScheduled: Option<Overlap>,
    overlapTriggered: Option<Overlap>,
    webhooks: seq<Subscription>)

  // claimNo and capAtClaim remember how the row was claimed; the program has no such columns
  datatype Execution = Execution(
    job: JobDef,
    key: Option<string>,
    source: Source,
    status: Status,
    requestedAt: Time,
    scheduledFor: Option<Time>,
    worker: Option<WorkerId>,
    leaseExpires: Option<Time>,
    cancelRequested: bool,
    error: Option<Code>,
    suppressed: bool,
    parent: Option<ExecId>,
    claimNo: nat,
    capAtClaim: Option<int>)

  // A job without a limit of its own runs one execution at a time
  function MaxRunning(job: JobDef): nat {
    if job.maxRunning.Some? then job.maxRunning.value else 1
  }

  datatype Policy = Policy(
    paused: bool, maxRunning: Option<int>, maxStarts: Option<int>, intervalMs: Option<int>, version: nat)

  const DEFAULT_POLICY := Policy(false, None, None, None, 1)

  datatype CompletionTrigger = CompletionTrigger(enabled: bool, source: JobId, target: JobId, statuses: set<Status>)

  datatype Delivery = Delivery(execution: ExecId, status: Status, subscription: nat)

  // One event per trigger and source execution; settled says what became of those no longer pending
  datatype TriggerEvent = TriggerEvent(trigger: TriggerId, source: ExecId)

  datatype Settlement = QueuedAs(child: ExecId) | EventSkipped | EventFailed

  // From claims on, history that the promises are about and that no table holds
  datatype State = State(
    clock: Time,
    executions: map<ExecId, Execution>,
    policies: map<Queue, Policy>,
    windows: map<(Queue, Time), int>,
    triggers: map<TriggerId, CompletionTrigger>,
    deliveries: set<Delivery>,
    events: set<TriggerEvent>,
    settled: map<TriggerEvent, Settlement>,
    claims: nat,
    starts: map<Queue, seq<Time>>,
    renewed: map<WorkerId, Time>,
    matched: map<ExecId, set<TriggerId>>,
    deleted: set<TriggerId>)

  const EMPTY := State(0, map[], map[], map[], map[], {}, {}, map[], 0, map[], map[], map[], {})

  // ----- The outbox -----

  function Deliveries(id: ExecId, row: Execution): set<Delivery> {
    set i | 0 <= i < |row.job.webhooks| && Wants(row.job.webhooks[i], row.status) :: Delivery(id, row.status, i)
  }

  function Matching(triggers: map<TriggerId, CompletionTrigger>, row: Execution): set<TriggerId> {
    set t | t in triggers && triggers[t].enabled && triggers[t].source == row.job.id && row.status in triggers[t].statuses
  }

  function EventsFor(id: ExecId, matching: set<TriggerId>): set<TriggerEvent> {
    set t | t in matching :: TriggerEvent(t, id)
  }

  // enqueueTerminalWebhooks and enqueueTerminalAutomations
  function Announce(s: State, id: ExecId): State
    requires id in s.executions
  {
    var row := s.executions[id];
    if row.suppressed || !row.status.Terminal() then s
    else
      var matching := Matching(s.triggers, row);
      s.(deliveries := s.deliveries + Deliveries(id, row),
         events := s.events + EventsFor(id, matching),
         matched := s.matched[id := matching])
  }

  // An execution reaches its end
  function End(s: State, id: ExecId, row: Execution): State
    requires id in s.executions
  {
    Announce(s.(executions := s.executions[id := row]), id)
  }

  // ----- Enqueueing -----

  function WithPolicy(policies: map<Queue, Policy>, queue: Queue): map<Queue, Policy> {
    if queue in policies then policies else policies[queue := DEFAULT_POLICY]
  }

  // The executions an overlap policy looks at: all active ones of the job, or those with the key
  function ActiveFor(s: State, job: JobId, key: Option<string>): set<ExecId> {
    set id | id in s.executions && s.executions[id].job.id == job && !s.executions[id].status.Terminal() &&
      (key.None? || s.executions[id].key == key)
  }

  // Earlier requests come first, and of two at one time the one with the smaller id
  predicate Before(s: State, a: ExecId, b: ExecId)
    requires a in s.executions && b in s.executions
  {
    s.executions[a].requestedAt < s.executions[b].requestedAt
    || (s.executions[a].requestedAt == s.executions[b].requestedAt && a <= b)
  }

  ghost predicate IsOldest(s: State, ids: set<ExecId>, a: ExecId) {
    a in ids && forall b :: b in ids && a in s.executions && b in s.executions ==> Before(s, a, b)
  }

  lemma {:induction false} OldestExists(s: State, ids: set<ExecId>)
    requires ids != {} && ids <= s.executions.Keys
    ensures exists a :: IsOldest(s, ids, a)
    decreases |ids|
  {
    var x :| x in ids;
    if ids == {x} {
      assert IsOldest(s, ids, x);
    } else {
      assert ids - {x} != {};
      OldestExists(s, ids - {x});
      var a :| IsOldest(s, ids - {x}, a);
      assert IsOldest(s, ids, if Before(s, a, x) then a else x);
    }
  }

  ghost function Oldest(s: State, ids: set<ExecId>): (a: ExecId)
    requires ids != {} && ids <= s.executions.Keys
    ensures IsOldest(s, ids, a)
  {
    OldestExists(s, ids);
    var a :| IsOldest(s, ids, a);
    a
  }

  datatype Kind = OnSchedule | OnRequest | ForTest

  function Mode(job: JobDef, kind: Kind): Overlap {
    match kind
    case OnSchedule => if job.overlapScheduled.Some? then job.overlapScheduled.value else SkipNew
    case OnRequest => if job.overlapTriggered.Some? then job.overlapTriggered.value else QueueNew
    case ForTest => QueueNew
  }

  function CancelledBy(row: Execution, error: Option<Code>): Execution {
    row.(status := Cancelled, cancelRequested := true, error := error)
  }

  // The oldest active execution makes room: at once while queued, on request while running
  function Displaced(s: State, oldest: ExecId): State
    requires oldest in s.executions
  {
    var row := s.executions[oldest];
    if row.status.Queued? then End(s, oldest, CancelledBy(row, Some(OverlapCancelled)))
    else s.(executions := s.executions[oldest := row.(cancelRequested := true)])
  }

  // applyOverlapPolicy: what happens to the oldest active execution, and the new one's status
  ghost function Overlapped(s: State, job: JobDef, key: Option<string>, kind: Kind): (State, Status) {
    var active := ActiveFor(s, job.id, key);
    if Mode(job, kind) == QueueNew || active == {} then (s, Queued)
    else if Mode(job, kind) == SkipNew then (s, Skipped)
    else (Displaced(s, Oldest(s, active)), Queued)
  }

  datatype Request = Request(
    job: JobDef, key: Option<string>, source: Source, kind: Kind, scheduledFor: Option<Time>, suppressed: bool, parent: Option<ExecId>)

  function NewRow(s: State, request: Request, status: Status): Execution {
    Execution(request.job, request.key, request.source, status, s.clock, request.scheduledFor, None, None, false, None,
      request.suppressed, request.parent, 0, None)
  }

  // insertExecution
  function Inserted(s: State, id: ExecId, request: Request, status: Status): State {
    var t := s.(
      executions := s.executions[id := NewRow(s, request, status)],
      policies := WithPolicy(s.policies, request.job.queue));
    Announce(t, id)
  }

  predicate IsOccurrence(source: Source) {
    source.Scheduled? || source.Backfill?
  }

  // Some execution already stands for this occurrence of the job's schedule
  predicate Occupied(s: State, job: JobId, at: Time) {
    exists id :: id in s.executions && s.executions[id].job.id == job &&
      IsOccurrence(s.executions[id].source) && s.executions[id].scheduledFor == Some(at)
  }

  // Only scheduled and backfill executions have an occurrence, and each occurrence only one of them
  predicate Admissible(s: State, id: ExecId, request: Request) {
    && id !in s.executions
    && (request.scheduledFor.Some? <==> IsOccurrence(request.source))
    && (request.scheduledFor.Some? ==> !Occupied(s, request.job.id, request.scheduledFor.value))
  }

  ghost function Enqueue(s: State, id: ExecId, request: Request): State {
    if !Admissible(s, id, request) then s
    else
      var (t, status) := Overlapped(s, request.job, request.key, request.kind);
      Inserted(t, id, request, status)
  }

  // ----- Claiming -----

  function RunningInQueue(s: State, queue: Queue): set<ExecId> {
    set id | id in s.executions && s.executions[id].job.queue == queue && s.executions[id].status.Running?
  }

  function RunningOfJob(s: State, job: JobId): set<ExecId> {
    set id | id in s.executions && s.executions[id].job.id == job && s.executions[id].status.Running?
  }

  // The start of the rate window a time falls in
  function Window(t: Time, intervalMs: int): Time
    requires intervalMs > 0
  {
    t / Micros(intervalMs) * Micros(intervalMs)
  }

  function StartsCount(s: State, queue: Queue, window: Time): int {
    if (queue, window) in s.windows then s.windows[(queue, window)] else 0
  }

  predicate RateAllows(s: State, queue: Queue, policy: Policy, now: Time) {
    policy.maxStarts.None? || policy.intervalMs.None? || policy.intervalMs.value <= 0 ||
    var window := Window(now, policy.intervalMs.value);
    !((queue, window) in s.windows && s.windows[(queue, window)] >= policy.maxStarts.value)
  }

  predicate Eligible(s: State, id: ExecId, now: Time) {
    id in s.executions && s.executions[id].status.Queued? && s.executions[id].job.queue in s.policies &&
    var row, policy := s.executions[id], s.policies[s.executions[id].job.queue];
    && !policy.paused
    && (policy.maxRunning.None? || |RunningInQueue(s, row.job.queue)| < policy.maxRunning.value)
    && |RunningOfJob(s, row.job.id)| < MaxRunning(row.job)
    && (row.key.None? || forall r :: r in RunningOfJob(s, row.job.id) ==> s.executions[r].key != row.key)
    && RateAllows(s, row.job.queue, policy, now)
  }

  function Recorded(s: State, queue: Queue, policy: Policy, now: Time): State {
    if policy.maxStarts.None? || policy.intervalMs.None? || policy.intervalMs.value <= 0 then s
    else
      var window := Window(now, policy.intervalMs.value);
      s.(windows := s.windows[(queue, window) := StartsCount(s, queue, window) + 1],
         starts := s.starts[queue := Starts(s, queue) + [now]])
  }

  // The recorded starts of a queue since its policy was last written
  function Starts(s: State, queue: Queue): seq<Time> {
    if queue in s.starts then s.starts[queue] else []
  }

  // The claimed row starts running under a lease
  function Taken(s: State, leaseMs: nat, worker: WorkerId, id: ExecId, checked: Time, claimed: Time, recorded: Time): State
    requires id in s.executions && s.executions[id].job.queue in s.policies
  {
    var row, policy := s.executions[id], s.policies[s.executions[id].job.queue];
    var running := row.(
      status := Running, worker := Some(worker), leaseExpires := Some(claimed + Micros(leaseMs)),
      claimNo := s.claims, capAtClaim := policy.maxRunning);
    s.(clock := recorded,
       executions := s.executions[id := running],
       claims := s.claims + 1,
       renewed := if worker in s.renewed then s.renewed else s.renewed[worker := checked])
  }

  // claimOldestQueued for one eligible row. The clock goes on inside the transaction: it is read for
  // the check, for the lease and for the record
  function Claim(s: State, leaseMs: nat, worker: WorkerId, id: ExecId, checked: Time, claimed: Time, recorded: Time): State {
    if !(s.clock <= checked <= claimed <= recorded) || !Eligible(s, id, checked) then s
    else
      var queue := s.executions[id].job.queue;
      Recorded(Taken(s, leaseMs, worker, id, checked, claimed, recorded), queue, s.policies[queue], recorded)
  }

  // ----- Workers -----

  function Register(s: State, worker: WorkerId): State {
    if worker in s.renewed then s else s.(renewed := s.renewed[worker := s.clock])
  }

  function Renewed(row: Execution, worker: WorkerId, expires: Time): Execution {
    if row.status.Running? && row.worker == Some(worker) then row.(leaseExpires := Some(expires)) else row
  }

  // heartbeat: every running execution of the worker is renewed
  function Heartbeat(s: State, leaseMs: nat, worker: WorkerId): State {
    if worker !in s.renewed then s
    else
      s.(executions := map id | id in s.executions :: Renewed(s.executions[id], worker, s.clock + Micros(leaseMs)),
         renewed := s.renewed[worker := s.clock])
  }

  predicate Expired(s: State, row: Execution) {
    row.status.Running? && (row.leaseExpires.None? || row.leaseExpires.value < s.clock)
  }

  function Lost(row: Execution): Execution {
    row.(status := Failed, error := Some(WorkerLost))
  }

  // reconcileExpiredLeases, over the rows it locked
  function Reap(s: State, ids: seq<ExecId>): State {
    if ids == [] then s
    else
      var t := Reap(s, ids[..|ids| - 1]);
      var id := ids[|ids| - 1];
      if id in t.executions && Expired(t, t.executions[id]) then End(t, id, Lost(t.executions[id])) else t
  }

  // ----- Ends and cancellations -----

  datatype CancelError = ExecutionNotFound | NotCancellable

  // requestCancellation: the new state and whether a local run has to be aborted
  function RequestCancel(s: State, id: ExecId): Result<(State, bool), CancelError> {
    if id !in s.executions then Err(ExecutionNotFound)
    else
      var row := s.executions[id];
      match row.status
      case Cancelled => Ok((s, false))
      case Queued => Ok((End(s, id, CancelledBy(row, row.error)), false))
      case Running => Ok((s.(executions := s.executions[id := row.(cancelRequested := true)]), true))
      case _ => Err(NotCancellable)
  }

  // The ends a worker writes; the code of a lost worker is written by the reaper alone
  predicate WorkersEnd(status: Status, error: Option<Code>) {
    (status.Success? || status.Failed? || status.Cancelled?) && error != Some(WorkerLost)
  }

  // finishExecution: only a running row is finished
  function Finish(s: State, id: ExecId, status: Status, error: Option<Code>): State {
    if id in s.executions && s.executions[id].status.Running? && WorkersEnd(status, error)
    then End(s, id, s.executions[id].(status := status, error := error))
    else s
  }

  // ----- Queue policies -----

  // An absent field leaves the column as it is; a present one may clear it
  datatype Patch = Patch(
    paused: Option<bool>, maxRunning: Option<Option<int>>, maxStarts: Option<Option<int>>, intervalMs: Option<Option<int>>)

  datatype PolicyError = VersionConflict(current: nat) | InvalidRatePolicy | CheckViolated

  function Patched(policy: Policy, patch: Patch): Policy {
    Policy(
      if patch.paused.Some? then patch.paused.value else policy.paused,
      if patch.maxRunning.Some? then patch.maxRunning.value else policy.maxRunning,
      if patch.maxStarts.Some? then patch.maxStarts.value else policy.maxStarts,
      if patch.intervalMs.Some? then patch.intervalMs.value else policy.intervalMs,
      policy.version + 1)
  }

  // The CHECK constraints of queue_policies (migrations/013_queue_policies_and_backfills.sql)
  predicate ValidPolicy(policy: Policy) {
    && (policy.maxRunning.Some? ==> policy.maxRunning.value > 0)
    && (policy.maxStarts.Some? ==> policy.maxStarts.value > 0)
    && (policy.intervalMs.Some? ==> 1000 <= policy.intervalMs.value <= 86400000)
    && (policy.maxStarts.Some? <==> policy.intervalMs.Some?)
  }

  function UpdatePolicy(s: State, queue: Queue, patch: Patch, expectedVersion: nat): Result<State, PolicyError> {
    var policies := WithPolicy(s.policies, queue);
    var next := Patched(policies[queue], patch);
    if policies[queue].version != expectedVersion then Err(VersionConflict(policies[queue].version))
    else if next.maxStarts.None? != next.intervalMs.None? then Err(InvalidRatePolicy)
    else if !ValidPolicy(next) then Err(CheckViolated)
    else Ok(s.(policies := policies[queue := next], starts := s.starts[queue := []]))
  }

  // ----- Triggers -----

  // A trigger may be enabled, disabled and told other statuses, but never moved to other jobs
  predicate Puttable(s: State, id: TriggerId, trigger: CompletionTrigger) {
    id !in s.deleted &&
    (id in s.triggers ==> s.triggers[id].source == trigger.source && s.triggers[id].target == trigger.target)
  }

  function PutTrigger(s: State, id: TriggerId, trigger: CompletionTrigger): State {
    if Puttable(s, id, trigger) then s.(triggers := s.triggers[id := trigger]) else s
  }

  // A deleted trigger takes its events along
  function DeleteTrigger(s: State, id: TriggerId): State {
    s.(triggers := map t | t in s.triggers && t != id :: s.triggers[t],
       events := (set e | e in s.events && e.trigger != id),
       settled := map e | e in s.settled && e.trigger != id :: s.settled[e],
       deleted := s.deleted + {id})
  }

  // ----- Dispatching -----

  // What dispatchOne finds for the target job: inactive, an input too large to store, an input the job
  // refuses (which fails the transaction), or the definition and concurrency key to run with
  datatype Target = Inactive | Oversized | Refusing | Runs(job: JobDef, key: Option<string>)

  function ChildRequest(target: Target, parent: ExecId): Request
    requires target.Runs?
  {
    Request(target.job, target.key, JobCompletion, OnRequest, None, false, Some(parent))
  }

  // A pending event, with its trigger's row
  predicate Dispatchable(s: State, event: TriggerEvent) {
    event in s.events && event !in s.settled && event.trigger in s.triggers
  }

  // The event's trigger is enabled, and its target job can take the execution
  predicate Spawns(s: State, event: TriggerEvent, id: ExecId, target: Target) {
    && Dispatchable(s, event) && s.triggers[event.trigger].enabled
    && event.source in s.executions
    && target.Runs? && target.job.id == s.triggers[event.trigger].target
    && Admissible(s, id, ChildRequest(target, event.source))
  }

  // What settles an event without a child, if anything does
  function Dismissal(s: State, event: TriggerEvent, target: Target): Option<Settlement>
    requires Dispatchable(s, event)
  {
    if !s.triggers[event.trigger].enabled || target.Inactive? then Some(EventSkipped)
    else if event.source !in s.executions || target.Oversized? then Some(EventFailed)
    else None
  }

  // dispatchOne, for whichever pending event no other dispatcher has locked
  ghost function Dispatch(s: State, event: TriggerEvent, id: ExecId, target: Target): State {
    if Spawns(s, event, id, target) then
      var t := Enqueue(s, id, ChildRequest(target, event.source));
      t.(settled := t.settled[event := QueuedAs(id)])
    else if Dispatchable(s, event) && Dismissal(s, event, target).Some? then
      s.(settled := s.settled[event := Dismissal(s, event, target).value])
    else s
  }

  // ----- Runs -----

  datatype Event =
    | Tick(now: Time)
    | Enqueued(id: ExecId, request: Request)
    | Claimed(worker: WorkerId, id: ExecId, checked: Time, claimed: Time, recorded: Time)
    | Registered(worker: WorkerId)
    | Beat(worker: WorkerId)
    | Reaped(ids: seq<ExecId>)
    | CancelRequested(id: ExecId)
    | Finished(id: ExecId, status: Status, error: Option<Code>)
    | PolicyUpdated(queue: Queue, patch: Patch, expectedVersion: nat)
    | TriggerPut(trigger: TriggerId, row: CompletionTrigger)
    | TriggerDeleted(trigger: TriggerId)
    | Dispatched(event: TriggerEvent, child: ExecId, target: Target)

  // Only a dispatched event makes an execution of a parent
  predicate Direct(request: Request) {
    request.parent.None? && !request.source.JobCompletion?
  }

  // A refused transaction changes nothing
  ghost function Step(leaseMs: nat, s: State, event: Event): State {
    match event
    case Tick(now) => s.(clock := if now > s.clock then now else s.clock)
    case Enqueued(id, request) => if Direct(request) then Enqueue(s, id, request) else s
    case Claimed(worker, id, checked, claimed, recorded) => Claim(s, leaseMs, worker, id, checked, claimed, recorded)
    case Registered(worker) => Register(s, worker)
    case Beat(worker) => Heartbeat(s, leaseMs, worker)
    case Reaped(ids) => Reap(s, ids)
    case CancelRequested(id) =>
      var r := RequestCancel(s, id);
      if r.Ok? then r.value.0 else s
    case Finished(id, status, error) => Finish(s, id, status, error)
    case PolicyUpdated(queue, patch, expectedVersion) =>
      var r := UpdatePolicy(s, queue, patch, expectedVersion);
      if r.Ok? then r.value else s
    case TriggerPut(trigger, row) => PutTrigger(s, trigger, row)
    case TriggerDeleted(trigger) => DeleteTrigger(s, trigger)
    case Dispatched(pending, child, target) => Dispatch(s, pending, child, target)
  }

  // Every reachable state is the state after some events
  ghost function After(leaseMs: nat, events: seq<Event>): State {
    if events == [] then EMPTY
    else Step(leaseMs, After(leaseMs, events[..|events| - 1]), events[|events| - 1])
  }
}
