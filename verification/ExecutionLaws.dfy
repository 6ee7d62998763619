/**
 * What holds of the shared state over every run of schedulers, workers and API servers:
 * lifecycle, claims, rates, leases, outbox and occurrences.
 */
module ExecutionLaws {
  import opened Wrappers
  import opened Executions

  // ----- Rows -----

  // A row keeps its identity, and a terminal row never changes at all
  ghost predicate RowEvolves(a: Execution, b: Execution) {
    && b.job == a.job && b.key == a.key && b.source == a.source && b.requestedAt == a.requestedAt
    && b.scheduledFor == a.scheduledFor && b.suppressed == a.suppressed && b.parent == a.parent
    && (a.status.Terminal() ==> b == a)
    && (a.status.Running? ==> !b.status.Queued?)
    && (a.status.Running? ==> b.worker == a.worker && b.claimNo == a.claimNo && b.capAtClaim == a.capAtClaim)
    && (a.cancelRequested ==> b.cancelRequested)
  }

  ghost predicate Evolves(s: State, t: State) {
    s.clock <= t.clock && forall id :: id in s.executions ==> id in t.executions && RowEvolves(s.executions[id], t.executions[id])
  }

  // What every transaction but a claim does to the rows and the claim history
  ghost predicate Quiet(s: State, t: State) {
    && Evolves(s, t)
    && t.claims == s.claims && t.windows == s.windows
    && (forall id :: id in t.executions && t.executions[id].status.Running? ==>
      id in s.executions && s.executions[id].status.Running?)
  }

  lemma QuietTransitive(s: State, t: State, u: State)
    requires Quiet(s, t) && Quiet(t, u)
    ensures Quiet(s, u)
  {
    forall id | id in s.executions ensures id in u.executions && RowEvolves(s.executions[id], u.executions[id]) {
      assert RowEvolves(s.executions[id], t.executions[id]) && RowEvolves(t.executions[id], u.executions[id]);
    }
  }

  // Neither policies, starts, leases nor the clock are touched
  ghost predicate SameSettings(s: State, t: State) {
    t.policies == s.policies && t.starts == s.starts && t.renewed == s.renewed && t.clock == s.clock
  }

  // Announcing an end touches the outbox only
  ghost predicate SameButOutbox(s: State, t: State) {
    t == s.(deliveries := t.deliveries, events := t.events, matched := t.matched)
  }

  lemma AnnounceFrame(s: State, id: ExecId)
    requires id in s.executions
    ensures SameButOutbox(s, Announce(s, id))
  {
    hide Matching, Deliveries, EventsFor;
  }

  lemma EndQuiet(s: State, id: ExecId, row: Execution)
    requires id in s.executions && RowEvolves(s.executions[id], row) && !row.status.Running?
    ensures Quiet(s, End(s, id, row)) && SameSettings(s, End(s, id, row))
    ensures End(s, id, row).executions == s.executions[id := row]
  {
    hide Announce;
    AnnounceFrame(s.(executions := s.executions[id := row]), id);
  }

  lemma DisplacedQuiet(s: State, oldest: ExecId)
    requires oldest in s.executions && !s.executions[oldest].status.Terminal()
    ensures Quiet(s, Displaced(s, oldest)) && SameSettings(s, Displaced(s, oldest))
    ensures Displaced(s, oldest).executions.Keys == s.executions.Keys
  {
    hide End;
    var row := s.executions[oldest];
    if row.status.Queued? {
      EndQuiet(s, oldest, CancelledBy(row, Some(OverlapCancelled)));
    } else {
      RequestedQuiet(s, oldest);
    }
    hide Quiet;
  }

  lemma RequestedQuiet(s: State, id: ExecId)
    requires id in s.executions && s.executions[id].status.Running?
    ensures Quiet(s, s.(executions := s.executions[id := s.executions[id].(cancelRequested := true)]))
  {
  }

  lemma OverlappedQuiet(s: State, job: JobDef, key: Option<string>, kind: Kind)
    ensures Quiet(s, Overlapped(s, job, key, kind).0) && SameSettings(s, Overlapped(s, job, key, kind).0)
    ensures Overlapped(s, job, key, kind).0.executions.Keys == s.executions.Keys
  {
    hide IsOldest, Displaced, Quiet;
    QuietSelf(s);
    var active := ActiveFor(s, job.id, key);
    if active != {} && Mode(job, kind) == CancelOldest {
      OldestIsActive(s, active);
      DisplacedQuiet(s, Oldest(s, active));
    }
  }

  lemma OldestIsActive(s: State, ids: set<ExecId>)
    requires ids != {} && ids <= s.executions.Keys
    ensures Oldest(s, ids) in ids
  {
  }

  lemma InsertedQuiet(s: State, id: ExecId, request: Request, status: Status)
    requires id !in s.executions && !status.Running?
    ensures Quiet(s, Inserted(s, id, request, status))
    ensures id in Inserted(s, id, request, status).executions
    ensures var t := Inserted(s, id, request, status);
      && t.executions == s.executions[id := NewRow(s, request, status)]
      && t.policies == WithPolicy(s.policies, request.job.queue)
      && SameSettings(s.(policies := t.policies), t)
  {
    hide Announce, NewRow;
    var t := s.(executions := s.executions[id := NewRow(s, request, status)], policies := WithPolicy(s.policies, request.job.queue));
    AnnounceFrame(t, id);
    NewRowStatus(s, request, status);
  }

  lemma NewRowStatus(s: State, request: Request, status: Status)
    ensures NewRow(s, request, status).status == status
  {
  }

  lemma OverlappedStatus(s: State, job: JobDef, key: Option<string>, kind: Kind)
    ensures Overlapped(s, job, key, kind).1.Queued? || Overlapped(s, job, key, kind).1.Skipped?
  {
    hide End, IsOldest;
  }

  lemma EnqueueQuiet(s: State, id: ExecId, request: Request)
    ensures Quiet(s, Enqueue(s, id, request))
  {
    hide Overlapped, Inserted, Quiet, RowEvolves, Admissible;
    QuietSelf(s);
    if Admissible(s, id, request) {
      var (t, status) := Overlapped(s, request.job, request.key, request.kind);
      AdmissibleIsFresh(s, id, request);
      OverlappedQuiet(s, request.job, request.key, request.kind);
      OverlappedStatus(s, request.job, request.key, request.kind);
      InsertedQuiet(t, id, request, status);
      QuietTransitive(s, t, Inserted(t, id, request, status));
    }
  }

  lemma AdmissibleIsFresh(s: State, id: ExecId, request: Request)
    requires Admissible(s, id, request)
    ensures id !in s.executions
  {
  }

  lemma QuietSelf(s: State)
    ensures Quiet(s, s)
  {
  }

  lemma {:induction false} ReapQuiet(s: State, ids: seq<ExecId>)
    ensures Quiet(s, Reap(s, ids)) && Reap(s, ids).executions.Keys == s.executions.Keys
    ensures SameSettings(s, Reap(s, ids))
    decreases |ids|
  {
    if ids == [] {
    } else {
      var t, id := Reap(s, ids[..|ids| - 1]), ids[|ids| - 1];
      ReapQuiet(s, ids[..|ids| - 1]);
      if id in t.executions && Expired(t, t.executions[id]) {
        EndQuiet(t, id, Lost(t.executions[id]));
        hide End, Quiet, RowEvolves;
        QuietTransitive(s, t, End(t, id, Lost(t.executions[id])));
      }
    }
  }

  // A dispatched event enqueues its child, or is settled without touching anything else
  lemma DispatchIs(s: State, event: TriggerEvent, id: ExecId, target: Target)
    ensures Spawns(s, event, id, target) ==> target.Runs?
    ensures var t := Dispatch(s, event, id, target);
      if Spawns(s, event, id, target) then
        t == Enqueue(s, id, ChildRequest(target, event.source)).(settled := t.settled)
      else t == s.(settled := t.settled)
  {
    hide Enqueue, Admissible;
  }

  lemma DispatchQuiet(s: State, event: TriggerEvent, id: ExecId, target: Target)
    ensures Quiet(s, Dispatch(s, event, id, target))
  {
    DispatchIs(s, event, id, target);
    QuietSelf(s);
    hide Dispatch, Spawns, Enqueue;
    if Spawns(s, event, id, target) {
      EnqueueQuiet(s, id, ChildRequest(target, event.source));
    }
  }

  lemma HeartbeatQuiet(leaseMs: nat, s: State, worker: WorkerId)
    ensures Quiet(s, Heartbeat(s, leaseMs, worker))
  {
  }

  lemma CancelQuiet(s: State, id: ExecId)
    requires RequestCancel(s, id).Ok?
    ensures Quiet(s, RequestCancel(s, id).value.0)
  {
    hide Announce;
    if s.executions[id].status.Queued? {
      EndQuiet(s, id, CancelledBy(s.executions[id], s.executions[id].error));
    }
  }

  lemma FinishQuiet(s: State, id: ExecId, status: Status, error: Option<Code>)
    ensures Quiet(s, Finish(s, id, status, error))
  {
    hide Announce;
    QuietSelf(s);
    if id in s.executions && s.executions[id].status.Running? && WorkersEnd(status, error) {
      EndQuiet(s, id, s.executions[id].(status := status, error := error));
    }
  }

  lemma StepQuiet(leaseMs: nat, s: State, event: Event)
    requires !event.Claimed?
    ensures Quiet(s, Step(leaseMs, s, event))
  {
    hide Quiet, Enqueue, Heartbeat, Reap, RequestCancel, Finish, Dispatch;
    QuietSelf(s);
    match event
    case Enqueued(id, request) => EnqueueQuiet(s, id, request);
    case Dispatched(pending, child, target) => DispatchQuiet(s, pending, child, target);
    case Beat(worker) => HeartbeatQuiet(leaseMs, s, worker);
    case Reaped(ids) => ReapQuiet(s, ids);
    case CancelRequested(id) =>
      if RequestCancel(s, id).Ok? {
        CancelQuiet(s, id);
      }
    case Finished(id, status, error) => FinishQuiet(s, id, status, error);
    case _ => SettingsQuiet(leaseMs, s, event);
  }

  lemma SettingsQuiet(leaseMs: nat, s: State, event: Event)
    requires event.Tick? || event.Registered? || event.PolicyUpdated? || event.TriggerPut? || event.TriggerDeleted?
    ensures Quiet(s, Step(leaseMs, s, event)) && Step(leaseMs, s, event).executions == s.executions
  {
    SettingsFrame(leaseMs, s, event);
    hide Step;
  }

  lemma SettingsFrame(leaseMs: nat, s: State, event: Event)
    requires event.Tick? || event.Registered? || event.PolicyUpdated? || event.TriggerPut? || event.TriggerDeleted?
    ensures SettingsOnly(s, Step(leaseMs, s, event))
  {
    match event
    case Tick(now) =>
    case Registered(worker) => RegisterFrame(s, worker);
    case PolicyUpdated(queue, patch, expectedVersion) => PolicyFrame(s, queue, patch, expectedVersion);
    case TriggerPut(trigger, row) => PutFrame(s, trigger, row);
    case TriggerDeleted(trigger) => DeleteFrame(s, trigger);
  }

  ghost predicate SettingsOnly(s: State, t: State) {
    t.executions == s.executions && t.claims == s.claims && t.windows == s.windows && s.clock <= t.clock
  }

  lemma RegisterFrame(s: State, worker: WorkerId)
    ensures SettingsOnly(s, Register(s, worker))
  {
  }

  lemma PolicyFrame(s: State, queue: Queue, patch: Patch, expectedVersion: nat)
    ensures UpdatePolicy(s, queue, patch, expectedVersion).Ok? ==>
      SettingsOnly(s, UpdatePolicy(s, queue, patch, expectedVersion).value)
  {
    hide Patched, ValidPolicy, WithPolicy;
  }

  lemma PutFrame(s: State, id: TriggerId, row: CompletionTrigger)
    ensures SettingsOnly(s, PutTrigger(s, id, row))
  {
  }

  lemma DeleteFrame(s: State, id: TriggerId)
    ensures SettingsOnly(s, DeleteTrigger(s, id))
  {
  }

  // ----- Lifecycle -----

  lemma ClaimEvolves(leaseMs: nat, s: State, worker: WorkerId, id: ExecId, checked: Time, claimed: Time, recorded: Time)
    ensures Evolves(s, Claim(s, leaseMs, worker, id, checked, claimed, recorded))
  {
    hide RateAllows, Window, RunningInQueue, RunningOfJob;
  }

  lemma StepEvolves(leaseMs: nat, s: State, event: Event)
    ensures Evolves(s, Step(leaseMs, s, event))
  {
    if event.Claimed? {
      hide Claim, Evolves;
      ClaimEvolves(leaseMs, s, event.worker, event.id, event.checked, event.claimed, event.recorded);
    } else {
      hide Step, RowEvolves;
      StepQuiet(leaseMs, s, event);
    }
  }

  // Whatever happens later, an execution that has ended stays exactly as it ended
  lemma {:induction false} EndedForGood(leaseMs: nat, events: seq<Event>, more: seq<Event>, id: ExecId)
    requires id in After(leaseMs, events).executions && After(leaseMs, events).executions[id].status.Terminal()
    ensures id in After(leaseMs, events + more).executions
    ensures After(leaseMs, events + more).executions[id] == After(leaseMs, events).executions[id]
    decreases |more|
  {
    hide Step;
    if more == [] {
      assert events + more == events;
    } else {
      var less := more[..|more| - 1];
      EndedForGood(leaseMs, events, less, id);
      assert (events + more)[..|events + more| - 1] == events + less;
      StepEvolves(leaseMs, After(leaseMs, events + less), more[|more| - 1]);
    }
  }

  // ----- Claims -----

  // Of a set of executions, those claimed no later than number no
  function Earlier(s: State, ids: set<ExecId>, no: nat): set<ExecId> {
    set r | r in ids && r in s.executions && s.executions[r].claimNo <= no
  }

  ghost predicate IsRunning(s: State, id: ExecId) {
    id in s.executions && s.executions[id].status.Running?
  }

  // No two running executions of a job share a concurrency key
  ghost predicate KeysExclusive(s: State) {
    forall a, b :: IsRunning(s, a) && IsRunning(s, b) && a != b && s.executions[a].job.id == s.executions[b].job.id ==>
      s.executions[a].key.None? || s.executions[a].key != s.executions[b].key
  }

  // Each claim left the job within the limit of the claimed execution's own snapshot
  ghost predicate JobsBounded(s: State) {
    forall e :: IsRunning(s, e) ==>
      |Earlier(s, RunningOfJob(s, s.executions[e].job.id), s.executions[e].claimNo)| <= MaxRunning(s.executions[e].job)
  }

  // Each claim left the queue within the cap of that moment
  ghost predicate QueuesBounded(s: State) {
    forall e :: IsRunning(s, e) && s.executions[e].capAtClaim.Some? ==>
      |Earlier(s, RunningInQueue(s, s.executions[e].job.queue), s.executions[e].claimNo)| <= s.executions[e].capAtClaim.value
  }

  ghost predicate ClaimsNumbered(s: State) {
    forall e :: IsRunning(s, e) ==> s.executions[e].claimNo < s.claims
  }

  ghost predicate ClaimsSafe(s: State) {
    KeysExclusive(s) && JobsBounded(s) && QueuesBounded(s) && ClaimsNumbered(s)
  }

  lemma SubsetSize(a: set<ExecId>, b: set<ExecId>)
    requires a <= b
    ensures |a| <= |b|
  {
    assert b == a + (b - a);
  }

  lemma QuietRow(s: State, t: State, id: ExecId)
    requires Quiet(s, t) && IsRunning(t, id)
    ensures IsRunning(s, id) && RowEvolves(s.executions[id], t.executions[id])
  {
  }

  lemma QuietShrinks(s: State, t: State, e: ExecId)
    requires Quiet(s, t) && IsRunning(t, e)
    ensures var row := t.executions[e];
      && Earlier(t, RunningOfJob(t, row.job.id), row.claimNo) <= Earlier(s, RunningOfJob(s, row.job.id), row.claimNo)
      && Earlier(t, RunningInQueue(t, row.job.queue), row.claimNo) <= Earlier(s, RunningInQueue(s, row.job.queue), row.claimNo)
  {
    hide Quiet;
    var row := t.executions[e];
    forall r | r in Earlier(t, RunningOfJob(t, row.job.id), row.claimNo)
      ensures r in Earlier(s, RunningOfJob(s, row.job.id), row.claimNo)
    {
      QuietRow(s, t, r);
    }
    forall r | r in Earlier(t, RunningInQueue(t, row.job.queue), row.claimNo)
      ensures r in Earlier(s, RunningInQueue(s, row.job.queue), row.claimNo)
    {
      QuietRow(s, t, r);
    }
  }

  lemma QuietKeepsClaims(s: State, t: State)
    requires ClaimsSafe(s) && Quiet(s, t)
    ensures ClaimsSafe(t)
  {
    forall e | IsRunning(t, e) ensures IsRunning(s, e) && RowEvolves(s.executions[e], t.executions[e]) {
      QuietRow(s, t, e);
    }
    assert t.claims == s.claims;
    hide Quiet, Earlier, RunningOfJob, RunningInQueue;
    forall e | IsRunning(t, e)
      ensures |Earlier(t, RunningOfJob(t, t.executions[e].job.id), t.executions[e].claimNo)| <= MaxRunning(t.executions[e].job)
    {
      QuietShrinks(s, t, e);
      SubsetSize(Earlier(t, RunningOfJob(t, t.executions[e].job.id), t.executions[e].claimNo),
        Earlier(s, RunningOfJob(s, t.executions[e].job.id), t.executions[e].claimNo));
    }
    forall e | IsRunning(t, e) && t.executions[e].capAtClaim.Some?
      ensures |Earlier(t, RunningInQueue(t, t.executions[e].job.queue), t.executions[e].claimNo)| <= t.executions[e].capAtClaim.value
    {
      QuietShrinks(s, t, e);
      SubsetSize(Earlier(t, RunningInQueue(t, t.executions[e].job.queue), t.executions[e].claimNo),
        Earlier(s, RunningInQueue(s, t.executions[e].job.queue), t.executions[e].claimNo));
    }
  }

  // What a successful claim does
  ghost predicate ClaimOf(s: State, t: State, id: ExecId) {
    && id in s.executions && s.executions[id].status.Queued?
    && t.executions.Keys == s.executions.Keys
    && (forall r :: r in s.executions && r != id ==> t.executions[r] == s.executions[r])
    && t.executions[id].status.Running? && t.executions[id].job == s.executions[id].job
    && t.executions[id].key == s.executions[id].key
    && t.executions[id].claimNo == s.claims && t.claims == s.claims + 1
  }

  lemma ClaimDoes(leaseMs: nat, s: State, worker: WorkerId, id: ExecId, checked: Time, claimed: Time, recorded: Time)
    requires s.clock <= checked <= claimed <= recorded && Eligible(s, id, checked)
    ensures var t := Claim(s, leaseMs, worker, id, checked, claimed, recorded);
      ClaimOf(s, t, id) && t.policies == s.policies && t.clock == recorded &&
      t.executions[id].capAtClaim == s.policies[s.executions[id].job.queue].maxRunning
  {
    hide RateAllows, Window, RunningInQueue, RunningOfJob;
  }

  lemma ClaimCounts(s: State, t: State, id: ExecId)
    requires ClaimOf(s, t, id) && ClaimsNumbered(s)
    ensures Earlier(t, RunningOfJob(t, t.executions[id].job.id), t.executions[id].claimNo) == RunningOfJob(s, s.executions[id].job.id) + {id}
    ensures Earlier(t, RunningInQueue(t, t.executions[id].job.queue), t.executions[id].claimNo) ==
      RunningInQueue(s, s.executions[id].job.queue) + {id}
    ensures RunningInQueue(t, t.executions[id].job.queue) == RunningInQueue(s, s.executions[id].job.queue) + {id}
  {
    forall r | IsRunning(s, r) ensures s.executions[r].claimNo < s.claims && r != id {
    }
  }

  lemma ClaimLeavesOthers(s: State, t: State, id: ExecId, e: ExecId)
    requires ClaimOf(s, t, id) && ClaimsNumbered(s) && IsRunning(t, e) && e != id
    ensures IsRunning(s, e) && t.executions[e] == s.executions[e]
    ensures var row := s.executions[e];
      && Earlier(t, RunningOfJob(t, row.job.id), row.claimNo) == Earlier(s, RunningOfJob(s, row.job.id), row.claimNo)
      && Earlier(t, RunningInQueue(t, row.job.queue), row.claimNo) == Earlier(s, RunningInQueue(s, row.job.queue), row.claimNo)
  {
    assert IsRunning(s, e);
  }

  lemma ClaimKeepsKeys(s: State, t: State, id: ExecId)
    requires ClaimOf(s, t, id) && KeysExclusive(s)
    requires s.executions[id].key.None? ||
      forall r :: r in RunningOfJob(s, s.executions[id].job.id) ==> s.executions[r].key != s.executions[id].key
    ensures KeysExclusive(t)
  {
    forall a, b | IsRunning(t, a) && IsRunning(t, b) && a != b && t.executions[a].job.id == t.executions[b].job.id
      ensures t.executions[a].key.None? || t.executions[a].key != t.executions[b].key
    {
      if a == id {
        assert b in RunningOfJob(s, s.executions[id].job.id);
      } else if b == id {
        assert a in RunningOfJob(s, s.executions[id].job.id);
      } else {
        assert IsRunning(s, a) && IsRunning(s, b);
      }
    }
  }

  lemma EligibleFacts(s: State, id: ExecId, now: Time)
    requires Eligible(s, id, now)
    ensures var row := s.executions[id];
      && row.job.queue in s.policies
      && (row.key.None? || forall r :: r in RunningOfJob(s, row.job.id) ==> s.executions[r].key != row.key)
      && |RunningOfJob(s, row.job.id)| < MaxRunning(row.job)
      && (s.policies[row.job.queue].maxRunning.Some? ==>
        |RunningInQueue(s, row.job.queue)| < s.policies[row.job.queue].maxRunning.value)
  {
    hide RateAllows;
  }

  lemma ClaimKeepsSafe(s: State, t: State, id: ExecId, now: Time)
    requires ClaimsSafe(s) && ClaimOf(s, t, id) && Eligible(s, id, now)
    requires t.executions[id].capAtClaim == s.policies[s.executions[id].job.queue].maxRunning
    ensures ClaimsSafe(t)
  {
    hide Eligible, KeysExclusive, Earlier, RunningOfJob, RunningInQueue;
    EligibleFacts(s, id, now);
    ClaimKeepsKeys(s, t, id);
    ClaimCounts(s, t, id);
    forall e | IsRunning(t, e)
      ensures |Earlier(t, RunningOfJob(t, t.executions[e].job.id), t.executions[e].claimNo)| <= MaxRunning(t.executions[e].job)
      ensures t.executions[e].capAtClaim.Some? ==>
        |Earlier(t, RunningInQueue(t, t.executions[e].job.queue), t.executions[e].claimNo)| <= t.executions[e].capAtClaim.value
      ensures t.executions[e].claimNo < t.claims
    {
      if e != id {
        ClaimLeavesOthers(s, t, id, e);
      }
    }
  }

  lemma StepKeepsClaims(leaseMs: nat, s: State, event: Event)
    requires ClaimsSafe(s)
    ensures ClaimsSafe(Step(leaseMs, s, event))
  {
    hide ClaimsSafe, Quiet, Eligible, ClaimOf;
    if event.Claimed? {
      if s.clock <= event.checked <= event.claimed <= event.recorded && Eligible(s, event.id, event.checked) {
        ClaimDoes(leaseMs, s, event.worker, event.id, event.checked, event.claimed, event.recorded);
        hide Claim;
        ClaimKeepsSafe(s, Step(leaseMs, s, event), event.id, event.checked);
      }
    } else {
      StepQuiet(leaseMs, s, event);
      hide Step;
      QuietKeepsClaims(s, Step(leaseMs, s, event));
    }
  }

  // Claim safety, over every run of any number of workers
  lemma {:induction false} AlwaysClaimsSafe(leaseMs: nat, events: seq<Event>)
    ensures ClaimsSafe(After(leaseMs, events))
  {
    if events != [] {
      AlwaysClaimsSafe(leaseMs, events[..|events| - 1]);
      hide Step, ClaimsSafe;
      StepKeepsClaims(leaseMs, After(leaseMs, events[..|events| - 1]), events[|events| - 1]);
    }
  }

  // The running executions of a job never exceed the limit of the most recently claimed one
  lemma RunningWithinLatestLimit(leaseMs: nat, events: seq<Event>, e: ExecId)
    requires IsRunning(After(leaseMs, events), e)
    requires forall r :: r in RunningOfJob(After(leaseMs, events), After(leaseMs, events).executions[e].job.id) ==>
      After(leaseMs, events).executions[r].claimNo <= After(leaseMs, events).executions[e].claimNo
    ensures |RunningOfJob(After(leaseMs, events), After(leaseMs, events).executions[e].job.id)| <=
      MaxRunning(After(leaseMs, events).executions[e].job)
  {
    AlwaysClaimsSafe(leaseMs, events);
    var s := After(leaseMs, events);
    var row := s.executions[e];
    hide After;
    assert Earlier(s, RunningOfJob(s, row.job.id), row.claimNo) == RunningOfJob(s, row.job.id);
  }

  // And those of a queue never exceed the cap its most recently claimed one met
  lemma RunningWithinLatestCap(leaseMs: nat, events: seq<Event>, e: ExecId)
    requires IsRunning(After(leaseMs, events), e) && After(leaseMs, events).executions[e].capAtClaim.Some?
    requires forall r :: r in RunningInQueue(After(leaseMs, events), After(leaseMs, events).executions[e].job.queue) ==>
      After(leaseMs, events).executions[r].claimNo <= After(leaseMs, events).executions[e].claimNo
    ensures |RunningInQueue(After(leaseMs, events), After(leaseMs, events).executions[e].job.queue)| <=
      After(leaseMs, events).executions[e].capAtClaim.value
  {
    AlwaysClaimsSafe(leaseMs, events);
    var s := After(leaseMs, events);
    var row := s.executions[e];
    hide After;
    assert Earlier(s, RunningInQueue(s, row.job.queue), row.claimNo) == RunningInQueue(s, row.job.queue);
  }

  // A claim takes nothing out of a paused queue and never fills a queue beyond its current cap
  lemma ClaimRespectsQueue(
    leaseMs: nat, events: seq<Event>, worker: WorkerId, id: ExecId, checked: Time, claimed: Time, recorded: Time)
    requires var s := After(leaseMs, events);
      !IsRunning(s, id) && IsRunning(Claim(s, leaseMs, worker, id, checked, claimed, recorded), id)
    ensures var s := After(leaseMs, events);
      var t := Claim(s, leaseMs, worker, id, checked, claimed, recorded);
      var queue := s.executions[id].job.queue;
      queue in t.policies && !t.policies[queue].paused &&
      (t.policies[queue].maxRunning.Some? ==> |RunningInQueue(t, queue)| <= t.policies[queue].maxRunning.value)
  {
    AlwaysClaimsSafe(leaseMs, events);
    var s := After(leaseMs, events);
    hide After;
    assert s.clock <= checked <= claimed <= recorded && Eligible(s, id, checked);
    ClaimDoes(leaseMs, s, worker, id, checked, claimed, recorded);
    hide Claim, RateAllows;
    ClaimCounts(s, Claim(s, leaseMs, worker, id, checked, claimed, recorded), id);
  }

  // ----- Runs from any state -----

  // What a sequence of transactions makes of a state
  ghost function Others(leaseMs: nat, s: State, events: seq<Event>): State {
    if events == [] then s else Step(leaseMs, Others(leaseMs, s, events[..|events| - 1]), events[|events| - 1])
  }

  lemma {:induction false} OthersConcat(leaseMs: nat, s: State, events: seq<Event>, more: seq<Event>)
    ensures Others(leaseMs, s, events + more) == Others(leaseMs, Others(leaseMs, s, events), more)
    decreases |more|
  {
    hide Step;
    if more == [] {
      assert events + more == events;
    } else {
      OthersConcat(leaseMs, s, events, more[..|more| - 1]);
      assert (events + more)[..|events + more| - 1] == events + more[..|more| - 1];
    }
  }

  lemma {:induction false} AfterIsOthers(leaseMs: nat, events: seq<Event>)
    ensures After(leaseMs, events) == Others(leaseMs, EMPTY, events)
  {
    hide Step;
    if events != [] {
      AfterIsOthers(leaseMs, events[..|events| - 1]);
    }
  }

  // The first execution of a job in an empty store, requested and claimed at once
  function FirstRequest(job: JobDef): Request {
    Request(job, None, Manual, OnRequest, None, false, None)
  }

  function FirstEvents(job: JobDef, worker: WorkerId): seq<Event> {
    [Enqueued(0, FirstRequest(job)), Claimed(worker, 0, 0, 0, 0)]
  }

  lemma FirstExecutionRuns(leaseMs: nat, job: JobDef, worker: WorkerId)
    requires MaxRunning(job) > 0
    ensures var s := After(leaseMs, FirstEvents(job, worker));
      && s.clock == 0 && s.executions.Keys == {0} && s.executions[0].status.Running? && s.executions[0].job == job
      && s.executions[0].requestedAt == 0 && s.executions[0].key.None? && !s.executions[0].cancelRequested
      && s.executions[0].leaseExpires == Some(Micros(leaseMs))
  {
    var events := FirstEvents(job, worker);
    assert events[..1] == [events[0]] && events[..1][..0] == [];
    var t := Enqueue(EMPTY, 0, FirstRequest(job));
    FirstEnqueued(job);
    assert After(leaseMs, [events[0]]) == t by {
      assert [events[0]][..0] == [];
      hide Enqueue;
    }
    hide Enqueue;
    assert RunningOfJob(t, job.id) == {};
    assert RunningInQueue(t, job.queue) == {};
  }

  lemma FirstEnqueued(job: JobDef)
    ensures var t := Enqueue(EMPTY, 0, FirstRequest(job));
      t == EMPTY.(executions := map[0 := NewRow(EMPTY, FirstRequest(job), Queued)], policies := map[job.queue := DEFAULT_POLICY])
  {
    assert ActiveFor(EMPTY, job.id, None) == {};
    hide IsOldest;
  }
}
