/**
 * The outbox over every run: one delivery per interested webhook and one event per matching trigger
 * for every execution that ended, none for any other; and one execution per occurrence of a schedule.
 */
module ExecutionOutbox {
  import opened Wrappers
  import opened Executions
  import opened ExecutionLaws

  // ----- Exactly one announcement -----

  function DeliveriesOf(s: State, id: ExecId): set<Delivery> {
    set d | d in s.deliveries && d.execution == id
  }

  function EventsOf(s: State, id: ExecId): set<TriggerEvent> {
    set e | e in s.events && e.source == id
  }

  // An execution whose end is to be announced
  predicate Announced(row: Execution) {
    row.status.Terminal() && !row.suppressed
  }

  ghost predicate OutboxOf(s: State, id: ExecId)
    requires id in s.executions
  {
    var row := s.executions[id];
    if Announced(row) then
      && DeliveriesOf(s, id) == Deliveries(id, row)
      && id in s.matched
      && EventsOf(s, id) == EventsFor(id, s.matched[id] - s.deleted)
    else
      DeliveriesOf(s, id) == {} && EventsOf(s, id) == {} && id !in s.matched
  }

  ghost predicate OutboxExact(s: State) {
    && (forall id :: id in s.executions ==> OutboxOf(s, id))
    && (forall d :: d in s.deliveries ==> d.execution in s.executions)
    && (forall e :: e in s.events ==> e.source in s.executions && e.trigger !in s.deleted)
    && (forall id :: id in s.matched ==> id in s.executions)
    && (forall t :: t in s.triggers ==> t !in s.deleted)
  }

  ghost predicate SameOutbox(s: State, t: State) {
    t.deliveries == s.deliveries && t.events == s.events && t.matched == s.matched && t.deleted == s.deleted
  }

  // Rows may come and change, but not from unannounced to announced
  lemma SameOutboxExact(s: State, t: State)
    requires OutboxExact(s) && SameOutbox(s, t) && t.triggers == s.triggers
    requires forall id :: id in s.executions ==> id in t.executions
    requires forall id :: id in t.executions ==>
      if id in s.executions then
        t.executions[id] == s.executions[id] || (!Announced(s.executions[id]) && !Announced(t.executions[id]))
      else !Announced(t.executions[id])
    ensures OutboxExact(t)
  {
    hide Announced, Deliveries, EventsFor;
    forall id | id in t.executions ensures OutboxOf(t, id) {
      assert DeliveriesOf(t, id) == DeliveriesOf(s, id) && EventsOf(t, id) == EventsOf(s, id);
      if id in s.executions {
        assert OutboxOf(s, id);
      } else {
        assert DeliveriesOf(s, id) == {};
        assert EventsOf(s, id) == {};
      }
    }
  }

  // The moment of the end: deliveries and events are added for this execution alone
  lemma AnnounceAdds(s: State, id: ExecId, x: ExecId)
    requires id in s.executions && Announced(s.executions[id])
    ensures x != id ==> DeliveriesOf(Announce(s, id), x) == DeliveriesOf(s, x) && EventsOf(Announce(s, id), x) == EventsOf(s, x)
    ensures DeliveriesOf(Announce(s, id), id) == DeliveriesOf(s, id) + Deliveries(id, s.executions[id])
    ensures EventsOf(Announce(s, id), id) == EventsOf(s, id) + EventsFor(id, Matching(s.triggers, s.executions[id]))
  {
    hide Matching;
  }

  lemma AnnounceExact(s: State, id: ExecId, row: Execution)
    requires OutboxExact(s) && id in s.executions && !Announced(s.executions[id])
    requires Announced(row)
    ensures OutboxExact(End(s, id, row))
  {
    var u := s.(executions := s.executions[id := row]);
    var t := Announce(u, id);
    AnnounceFrame(u, id);
    AnnounceTargets(u, id);
    MatchingIsLive(s, row);
    forall x | x in t.executions ensures OutboxOf(t, x) {
      AnnouncedOutbox(s, id, row, x);
    }
    assert id in s.executions && t.triggers == s.triggers;
    AnnounceMatched(u, id);
    hide OutboxOf, Matching, Announce;
  }

  lemma AnnounceMatched(s: State, id: ExecId)
    requires id in s.executions && Announced(s.executions[id])
    ensures Announce(s, id).matched == s.matched[id := Matching(s.triggers, s.executions[id])]
  {
    hide Matching;
  }

  lemma AnnouncedOutbox(s: State, id: ExecId, row: Execution, x: ExecId)
    requires OutboxExact(s) && id in s.executions && !Announced(s.executions[id]) && Announced(row) && x in s.executions
    ensures OutboxOf(End(s, id, row), x)
  {
    var u := s.(executions := s.executions[id := row]);
    assert OutboxOf(s, id) && OutboxOf(s, x);
    MatchingIsLive(s, row);
    AnnounceAdds(u, id, x);
    AnnounceFrame(u, id);
    AnnounceMatched(u, id);
    assert DeliveriesOf(u, x) == DeliveriesOf(s, x) && EventsOf(u, x) == EventsOf(s, x);
    hide Matching, Deliveries, EventsFor, Announce, OutboxExact, Announced;
    if x == id {
      assert Matching(s.triggers, row) - s.deleted == Matching(s.triggers, row);
    }
  }

  lemma MatchingIsLive(s: State, row: Execution)
    requires OutboxExact(s)
    ensures forall t :: t in Matching(s.triggers, row) ==> t !in s.deleted
  {
  }

  lemma AnnounceTargets(s: State, id: ExecId)
    requires id in s.executions && Announced(s.executions[id])
    ensures forall d :: d in Announce(s, id).deliveries ==> d in s.deliveries || d.execution == id
    ensures forall e :: e in Announce(s, id).events ==>
      e in s.events || (e.source == id && e.trigger in Matching(s.triggers, s.executions[id]))
  {
    hide Matching;
  }

  lemma EndExact(s: State, id: ExecId, row: Execution)
    requires OutboxExact(s) && id in s.executions && !s.executions[id].status.Terminal()
    requires row.status.Terminal() && row.suppressed == s.executions[id].suppressed
    ensures OutboxExact(End(s, id, row))
  {
    hide OutboxOf;
    if Announced(row) {
      AnnounceExact(s, id, row);
    } else {
      SameOutboxExact(s, s.(executions := s.executions[id := row]));
    }
  }

  // Inserting a row, announced at once when the overlap policy skips it
  lemma InsertedExact(s: State, id: ExecId, request: Request, status: Status)
    requires OutboxExact(s) && id !in s.executions && !status.Running?
    ensures OutboxExact(Inserted(s, id, request, status))
  {
    var row := NewRow(s, request, status);
    var waiting := NewRow(s, request, Queued);
    var t := s.(executions := s.executions[id := waiting], policies := WithPolicy(s.policies, request.job.queue));
    SameOutboxExact(s, t);
    hide OutboxOf, WithPolicy;
    assert t.executions[id := row] == s.executions[id := row];
    if Announced(row) {
      AnnounceExact(t, id, row);
    } else {
      SameOutboxExact(t, t.(executions := t.executions[id := row]));
    }
  }

  lemma DisplacedExact(s: State, oldest: ExecId)
    requires OutboxExact(s) && oldest in s.executions && !s.executions[oldest].status.Terminal()
    ensures OutboxExact(Displaced(s, oldest))
  {
    var row := s.executions[oldest];
    if row.status.Queued? {
      EndExact(s, oldest, CancelledBy(row, Some(OverlapCancelled)));
    } else {
      SameOutboxExact(s, Displaced(s, oldest));
    }
  }

  lemma OverlappedExact(s: State, job: JobDef, key: Option<string>, kind: Kind)
    requires OutboxExact(s)
    ensures OutboxExact(Overlapped(s, job, key, kind).0)
  {
    hide OutboxExact, Displaced, IsOldest;
    var active := ActiveFor(s, job.id, key);
    if active != {} && Mode(job, kind) == CancelOldest {
      OldestIsActive(s, active);
      DisplacedExact(s, Oldest(s, active));
    }
  }

  lemma EnqueueExact(s: State, id: ExecId, request: Request)
    requires OutboxExact(s)
    ensures OutboxExact(Enqueue(s, id, request))
  {
    hide OutboxExact, Overlapped, Inserted, Admissible, Quiet;
    if Admissible(s, id, request) {
      AdmissibleIsFresh(s, id, request);
      OverlappedExact(s, request.job, request.key, request.kind);
      OverlappedQuiet(s, request.job, request.key, request.kind);
      OverlappedStatus(s, request.job, request.key, request.kind);
      var (t, status) := Overlapped(s, request.job, request.key, request.kind);
      InsertedExact(t, id, request, status);
    }
  }

  lemma DispatchExact(s: State, event: TriggerEvent, id: ExecId, target: Target)
    requires OutboxExact(s)
    ensures OutboxExact(Dispatch(s, event, id, target))
  {
    hide OutboxExact, Dispatch, Spawns, Enqueue;
    DispatchIs(s, event, id, target);
    var t := Dispatch(s, event, id, target);
    if Spawns(s, event, id, target) {
      EnqueueExact(s, id, ChildRequest(target, event.source));
      SameOutboxExact(Enqueue(s, id, ChildRequest(target, event.source)), t);
    } else {
      SameOutboxExact(s, t);
    }
  }

  lemma {:induction false} ReapExact(s: State, ids: seq<ExecId>)
    requires OutboxExact(s)
    ensures OutboxExact(Reap(s, ids))
    decreases |ids|
  {
    hide OutboxExact;
    if ids != [] {
      var t, id := Reap(s, ids[..|ids| - 1]), ids[|ids| - 1];
      ReapExact(s, ids[..|ids| - 1]);
      if id in t.executions && Expired(t, t.executions[id]) {
        EndExact(t, id, Lost(t.executions[id]));
      }
    }
  }

  lemma ClaimExact(leaseMs: nat, s: State, worker: WorkerId, id: ExecId, checked: Time, claimed: Time, recorded: Time)
    requires OutboxExact(s)
    ensures OutboxExact(Claim(s, leaseMs, worker, id, checked, claimed, recorded))
  {
    hide OutboxExact, RateAllows, RunningInQueue, RunningOfJob, Window;
    var t := Claim(s, leaseMs, worker, id, checked, claimed, recorded);
    if s.clock <= checked <= claimed <= recorded && Eligible(s, id, checked) {
      assert SameOutbox(s, t) && t.triggers == s.triggers;
      SameOutboxExact(s, t);
    }
  }

  lemma HeartbeatExact(leaseMs: nat, s: State, worker: WorkerId)
    requires OutboxExact(s)
    ensures OutboxExact(Heartbeat(s, leaseMs, worker))
  {
    hide OutboxExact;
    SameOutboxExact(s, Heartbeat(s, leaseMs, worker));
  }

  lemma CancelExact(s: State, id: ExecId)
    requires OutboxExact(s) && RequestCancel(s, id).Ok?
    ensures OutboxExact(RequestCancel(s, id).value.0)
  {
    hide OutboxExact, End;
    var row := s.executions[id];
    if row.status.Queued? {
      EndExact(s, id, CancelledBy(row, row.error));
    } else if row.status.Running? {
      SameOutboxExact(s, s.(executions := s.executions[id := row.(cancelRequested := true)]));
    }
  }

  lemma FinishExact(s: State, id: ExecId, status: Status, error: Option<Code>)
    requires OutboxExact(s)
    ensures OutboxExact(Finish(s, id, status, error))
  {
    hide OutboxExact, End;
    if id in s.executions && s.executions[id].status.Running? && WorkersEnd(status, error) {
      EndExact(s, id, s.executions[id].(status := status, error := error));
    }
  }

  lemma DeleteExact(s: State, trigger: TriggerId)
    requires OutboxExact(s)
    ensures OutboxExact(DeleteTrigger(s, trigger))
  {
    var t := DeleteTrigger(s, trigger);
    forall id | id in t.executions ensures OutboxOf(t, id) {
      assert OutboxOf(s, id);
      hide Deliveries, Announced;
      assert DeliveriesOf(t, id) == DeliveriesOf(s, id);
      forall e ensures e in EventsOf(t, id) <==> e in EventsOf(s, id) && e.trigger != trigger {
      }
    }
  }

  lemma SettingsExact(leaseMs: nat, s: State, event: Event)
    requires OutboxExact(s) && (event.Tick? || event.Registered? || event.PolicyUpdated? || event.TriggerPut?)
    ensures OutboxExact(Step(leaseMs, s, event))
  {
    hide Patched, ValidPolicy, WithPolicy, OutboxOf;
    var t := Step(leaseMs, s, event);
    var u := s.(triggers := t.triggers);
    forall id | id in s.executions ensures OutboxOf(t, id) {
      assert OutboxOf(s, id);
      SameRowOutbox(s, t, id);
    }
  }

  lemma SameRowOutbox(s: State, t: State, id: ExecId)
    requires id in s.executions && id in t.executions && t.executions[id] == s.executions[id] && SameOutbox(s, t)
    requires OutboxOf(s, id)
    ensures OutboxOf(t, id)
  {
    hide Deliveries, EventsFor, Announced;
    assert DeliveriesOf(t, id) == DeliveriesOf(s, id) && EventsOf(t, id) == EventsOf(s, id);
  }

  lemma StepExact(leaseMs: nat, s: State, event: Event)
    requires OutboxExact(s)
    ensures OutboxExact(Step(leaseMs, s, event))
  {
    hide OutboxExact, Enqueue, Claim, Heartbeat, Reap, RequestCancel, Finish, DeleteTrigger, Dispatch;
    match event
    case Enqueued(id, request) => EnqueueExact(s, id, request);
    case Dispatched(pending, child, target) => DispatchExact(s, pending, child, target);
    case Claimed(worker, id, checked, claimed, recorded) => ClaimExact(leaseMs, s, worker, id, checked, claimed, recorded);
    case Beat(worker) => HeartbeatExact(leaseMs, s, worker);
    case Reaped(ids) => ReapExact(s, ids);
    case CancelRequested(id) =>
      if RequestCancel(s, id).Ok? {
        CancelExact(s, id);
      }
    case Finished(id, status, error) => FinishExact(s, id, status, error);
    case TriggerDeleted(trigger) => DeleteExact(s, trigger);
    case _ => SettingsExact(leaseMs, s, event);
  }

  // In every reachable state the outbox is exact
  lemma {:induction false} AlwaysExact(leaseMs: nat, events: seq<Event>)
    ensures OutboxExact(After(leaseMs, events))
  {
    if events != [] {
      AlwaysExact(leaseMs, events[..|events| - 1]);
      hide OutboxExact, Step;
      StepExact(leaseMs, After(leaseMs, events[..|events| - 1]), events[|events| - 1]);
    }
  }

  // A test run, or any other suppressed execution, announces nothing, ever
  lemma SuppressedIsSilent(leaseMs: nat, events: seq<Event>, id: ExecId)
    requires id in After(leaseMs, events).executions && After(leaseMs, events).executions[id].suppressed
    ensures DeliveriesOf(After(leaseMs, events), id) == {} && EventsOf(After(leaseMs, events), id) == {}
  {
    AlwaysExact(leaseMs, events);
    hide After;
    assert OutboxOf(After(leaseMs, events), id);
  }

  // ----- One execution per occurrence -----

  ghost predicate OccurrencesUnique(s: State) {
    && (forall id :: id in s.executions ==> (s.executions[id].scheduledFor.Some? <==> IsOccurrence(s.executions[id].source)))
    && forall a, b :: a in s.executions && b in s.executions && a != b && s.executions[a].job.id == s.executions[b].job.id ==>
      s.executions[a].scheduledFor.None? || s.executions[a].scheduledFor != s.executions[b].scheduledFor
  }

  ghost predicate SameRows(s: State, t: State) {
    t.executions.Keys == s.executions.Keys && forall id :: id in s.executions ==> RowEvolves(s.executions[id], t.executions[id])
  }

  lemma SameRowsUnique(s: State, t: State)
    requires OccurrencesUnique(s) && SameRows(s, t)
    ensures OccurrencesUnique(t)
  {
  }

  lemma AddedUnique(s: State, t: State, id: ExecId)
    requires OccurrencesUnique(s) && id !in s.executions && t.executions.Keys == s.executions.Keys + {id}
    requires forall a :: a in s.executions ==> t.executions[a] == s.executions[a]
    requires t.executions[id].scheduledFor.Some? <==> IsOccurrence(t.executions[id].source)
    requires t.executions[id].scheduledFor.Some? ==>
      forall a :: a in s.executions && s.executions[a].job.id == t.executions[id].job.id ==>
        s.executions[a].scheduledFor != t.executions[id].scheduledFor
    ensures OccurrencesUnique(t)
  {
  }

  lemma NotOccupied(s: State, t: State, job: JobId, at: Time)
    requires OccurrencesUnique(s) && SameRows(s, t) && !Occupied(s, job, at)
    ensures forall a :: a in t.executions && t.executions[a].job.id == job ==> t.executions[a].scheduledFor != Some(at)
  {
    forall a | a in t.executions && t.executions[a].job.id == job ensures t.executions[a].scheduledFor != Some(at) {
      assert a in s.executions;
    }
  }

  lemma EnqueueUnique(s: State, id: ExecId, request: Request)
    requires OccurrencesUnique(s)
    ensures OccurrencesUnique(Enqueue(s, id, request))
  {
    hide Overlapped, Inserted, Occupied, OccurrencesUnique, SameRows;
    if Admissible(s, id, request) {
      var (t, status) := Overlapped(s, request.job, request.key, request.kind);
      OverlappedQuiet(s, request.job, request.key, request.kind);
      OverlappedStatus(s, request.job, request.key, request.kind);
      QuietSameRows(s, t);
      SameRowsUnique(s, t);
      InsertedQuiet(t, id, request, status);
      if request.scheduledFor.Some? {
        NotOccupied(s, t, request.job.id, request.scheduledFor.value);
      }
      hide Quiet;
      AddedUnique(t, Inserted(t, id, request, status), id);
    }
  }

  lemma DispatchUnique(s: State, event: TriggerEvent, id: ExecId, target: Target)
    requires OccurrencesUnique(s)
    ensures OccurrencesUnique(Dispatch(s, event, id, target))
  {
    DispatchIs(s, event, id, target);
    hide Dispatch, Spawns, Enqueue;
    if Spawns(s, event, id, target) {
      EnqueueUnique(s, id, ChildRequest(target, event.source));
    }
  }

  lemma QuietSameRows(s: State, t: State)
    requires Evolves(s, t) && t.executions.Keys == s.executions.Keys
    ensures SameRows(s, t)
  {
  }

  lemma EndKeys(s: State, id: ExecId, row: Execution)
    requires id in s.executions
    ensures End(s, id, row).executions.Keys == s.executions.Keys
  {
    AnnounceFrame(s.(executions := s.executions[id := row]), id);
    hide Announce;
  }

  lemma ClaimKeys(leaseMs: nat, s: State, worker: WorkerId, id: ExecId, checked: Time, claimed: Time, recorded: Time)
    ensures Claim(s, leaseMs, worker, id, checked, claimed, recorded).executions.Keys == s.executions.Keys
  {
    if s.clock <= checked <= claimed <= recorded && Eligible(s, id, checked) {
      ClaimDoes(leaseMs, s, worker, id, checked, claimed, recorded);
      hide Claim, Eligible;
    }
  }

  lemma NoNewRows(leaseMs: nat, s: State, event: Event)
    requires !event.Enqueued? && !event.Dispatched?
    ensures Step(leaseMs, s, event).executions.Keys == s.executions.Keys
  {
    hide End, Enqueue, Claim, Eligible, UpdatePolicy, Reap;
    match event
    case Reaped(ids) => ReapQuiet(s, ids);
    case CancelRequested(id) =>
      if id in s.executions {
        EndKeys(s, id, CancelledBy(s.executions[id], s.executions[id].error));
      }
    case Finished(id, status, error) =>
      if id in s.executions {
        EndKeys(s, id, s.executions[id].(status := status, error := error));
      }
    case PolicyUpdated(queue, patch, expectedVersion) => SettingsQuiet(leaseMs, s, event);
    case Claimed(worker, id, checked, claimed, recorded) => ClaimKeys(leaseMs, s, worker, id, checked, claimed, recorded);
    case _ =>
  }

  lemma StepUnique(leaseMs: nat, s: State, event: Event)
    requires OccurrencesUnique(s)
    ensures OccurrencesUnique(Step(leaseMs, s, event))
  {
    hide OccurrencesUnique, SameRows, Evolves, Dispatch;
    if event.Enqueued? {
      EnqueueUnique(s, event.id, event.request);
    } else if event.Dispatched? {
      DispatchUnique(s, event.event, event.child, event.target);
    } else {
      NoNewRows(leaseMs, s, event);
      StepEvolves(leaseMs, s, event);
      hide Step;
      QuietSameRows(s, Step(leaseMs, s, event));
      SameRowsUnique(s, Step(leaseMs, s, event));
    }
  }

  // Scheduled and backfill executions of a job never share their occurrence
  lemma {:induction false} AlwaysUnique(leaseMs: nat, events: seq<Event>)
    ensures OccurrencesUnique(After(leaseMs, events))
  {
    if events != [] {
      AlwaysUnique(leaseMs, events[..|events| - 1]);
      hide OccurrencesUnique, Step;
      StepUnique(leaseMs, After(leaseMs, events[..|events| - 1]), events[|events| - 1]);
    }
  }
}
