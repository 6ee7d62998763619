/**
 * The moment an execution ends, in whichever transaction that happens, and what later states still
 * owe to it: one event for every trigger that was enabled and matched just then.
 */
module ExecutionEnds {
  import opened Wrappers
  import opened Executions
  import opened ExecutionLaws
  import opened ExecutionOutbox
  import Told = Transactions

  // The matched set of an execution whose end is to be announced: the one it has, or that of the moment
  ghost predicate MatchedAt(s: State, t: State, id: ExecId)
    requires id in t.executions
  {
    Announced(t.executions[id]) ==>
      id in t.matched &&
      if id in s.executions && Announced(s.executions[id]) then id in s.matched && t.matched[id] == s.matched[id]
      else t.matched[id] == Matching(s.triggers, t.executions[id])
  }

  ghost predicate AllMatchedAt(s: State, t: State) {
    forall id :: id in t.executions ==> MatchedAt(s, t, id)
  }

  // One transaction, or a part of one: rows evolve, and the triggers stay as they are
  ghost predicate Moves(s: State, t: State) {
    Evolves(s, t) && t.triggers == s.triggers && AllMatchedAt(s, t)
  }

  lemma AnnouncedStays(s: State, t: State, id: ExecId)
    requires Evolves(s, t) && id in s.executions && Announced(s.executions[id])
    ensures id in t.executions && t.executions[id] == s.executions[id]
  {
    assert RowEvolves(s.executions[id], t.executions[id]);
  }

  lemma MovesTransitive(s: State, t: State, u: State)
    requires Moves(s, t) && Moves(t, u)
    ensures Moves(s, u)
  {
    EvolvesTwice(s, t, u);
    forall id | id in u.executions ensures MatchedAt(s, u, id) {
      assert MatchedAt(t, u, id);
      if id in t.executions {
        assert MatchedAt(s, t, id);
        if Announced(t.executions[id]) {
          AnnouncedStays(t, u, id);
        }
      }
      if id in s.executions && Announced(s.executions[id]) {
        AnnouncedStays(s, t, id);
      }
    }
  }

  lemma EvolvesTwice(s: State, t: State, u: State)
    requires Evolves(s, t) && Evolves(t, u)
    ensures Evolves(s, u)
  {
    forall id | id in s.executions ensures id in u.executions && RowEvolves(s.executions[id], u.executions[id]) {
      assert RowEvolves(s.executions[id], t.executions[id]) && RowEvolves(t.executions[id], u.executions[id]);
    }
  }

  lemma HasMatched(s: State, id: ExecId)
    requires OutboxExact(s) && id in s.executions && Announced(s.executions[id])
    ensures id in s.matched
  {
    assert OutboxOf(s, id);
  }

  // Nothing ends here
  lemma StillMoves(s: State, t: State)
    requires OutboxExact(s) && Evolves(s, t) && t.triggers == s.triggers && t.matched == s.matched
    requires forall id :: id in t.executions && Announced(t.executions[id]) ==> id in s.executions && Announced(s.executions[id])
    ensures Moves(s, t)
  {
    forall id | id in t.executions ensures MatchedAt(s, t, id) {
      if Announced(t.executions[id]) {
        HasMatched(s, id);
      }
    }
  }

  lemma AnnounceMatches(s: State, id: ExecId)
    requires id in s.executions
    ensures Announce(s, id).matched ==
      if Announced(s.executions[id]) then s.matched[id := Matching(s.triggers, s.executions[id])] else s.matched
    ensures Announce(s, id).triggers == s.triggers
  {
    hide Matching;
  }

  lemma EndMoves(s: State, id: ExecId, row: Execution)
    requires OutboxExact(s) && id in s.executions && !s.executions[id].status.Terminal()
    requires RowEvolves(s.executions[id], row) && !row.status.Running?
    ensures Moves(s, End(s, id, row))
  {
    EndQuiet(s, id, row);
    AnnounceMatches(s.(executions := s.executions[id := row]), id);
    var t := End(s, id, row);
    assert t.matched == if Announced(row) then s.matched[id := Matching(s.triggers, row)] else s.matched;
    hide End, Announce, Matching;
    forall x | x in t.executions ensures MatchedAt(s, t, x) {
      if x != id && Announced(t.executions[x]) {
        HasMatched(s, x);
      }
    }
  }

  lemma InsertedMoves(s: State, id: ExecId, request: Request, status: Status)
    requires OutboxExact(s) && id !in s.executions && !status.Running?
    ensures Moves(s, Inserted(s, id, request, status))
  {
    InsertedQuiet(s, id, request, status);
    var row := NewRow(s, request, status);
    var u := s.(executions := s.executions[id := row], policies := WithPolicy(s.policies, request.job.queue));
    AnnounceMatches(u, id);
    var t := Inserted(s, id, request, status);
    assert t.matched == if Announced(row) then s.matched[id := Matching(s.triggers, row)] else s.matched;
    hide Inserted, Announce, Matching, NewRow, WithPolicy;
    forall x | x in t.executions ensures MatchedAt(s, t, x) {
      if x != id && Announced(t.executions[x]) {
        HasMatched(s, x);
      }
    }
  }

  lemma DisplacedMoves(s: State, oldest: ExecId)
    requires OutboxExact(s) && oldest in s.executions && !s.executions[oldest].status.Terminal()
    ensures Moves(s, Displaced(s, oldest))
  {
    hide End, OutboxExact, Moves;
    if s.executions[oldest].status.Queued? {
      EndMoves(s, oldest, CancelledBy(s.executions[oldest], Some(OverlapCancelled)));
    } else {
      AskedMoves(s, oldest);
    }
  }

  // A running execution is asked to cancel
  lemma AskedMoves(s: State, id: ExecId)
    requires OutboxExact(s) && id in s.executions && s.executions[id].status.Running?
    ensures Moves(s, s.(executions := s.executions[id := s.executions[id].(cancelRequested := true)]))
  {
    RequestedQuiet(s, id);
    hide OutboxExact, Moves, Evolves;
    StillMoves(s, s.(executions := s.executions[id := s.executions[id].(cancelRequested := true)]));
  }

  lemma OverlappedMoves(s: State, job: JobDef, key: Option<string>, kind: Kind)
    requires OutboxExact(s)
    ensures Moves(s, Overlapped(s, job, key, kind).0)
  {
    hide OutboxExact, Displaced, IsOldest, Moves;
    SelfMoves(s);
    var active := ActiveFor(s, job.id, key);
    if active != {} && Mode(job, kind) == CancelOldest {
      OldestIsActive(s, active);
      DisplacedMoves(s, Oldest(s, active));
    }
  }

  lemma SelfMoves(s: State)
    requires OutboxExact(s)
    ensures Moves(s, s)
  {
    hide OutboxExact;
    StillMoves(s, s);
  }

  // The end of the oldest execution and that of a skipped one, both at once perhaps
  lemma EnqueueMoves(s: State, id: ExecId, request: Request)
    requires OutboxExact(s)
    ensures Moves(s, Enqueue(s, id, request))
  {
    hide OutboxExact, Overlapped, Inserted, Admissible, Moves, Quiet;
    SelfMoves(s);
    if Admissible(s, id, request) {
      AdmissibleIsFresh(s, id, request);
      OverlappedExact(s, request.job, request.key, request.kind);
      OverlappedMoves(s, request.job, request.key, request.kind);
      OverlappedQuiet(s, request.job, request.key, request.kind);
      OverlappedStatus(s, request.job, request.key, request.kind);
      var (t, status) := Overlapped(s, request.job, request.key, request.kind);
      InsertedMoves(t, id, request, status);
      MovesTransitive(s, t, Inserted(t, id, request, status));
    }
  }

  lemma SettlingMoves(s: State, t: State, settled: map<TriggerEvent, Settlement>)
    requires Moves(s, t)
    ensures Moves(s, t.(settled := settled))
  {
    var u := t.(settled := settled);
    forall id | id in u.executions ensures MatchedAt(s, u, id) {
      assert MatchedAt(s, t, id);
    }
  }

  lemma DispatchMoves(s: State, event: TriggerEvent, id: ExecId, target: Target)
    requires OutboxExact(s)
    ensures Moves(s, Dispatch(s, event, id, target))
  {
    hide OutboxExact, Dispatch, Spawns, Enqueue, Moves;
    DispatchIs(s, event, id, target);
    var t := Dispatch(s, event, id, target);
    if Spawns(s, event, id, target) {
      EnqueueMoves(s, id, ChildRequest(target, event.source));
      SettlingMoves(s, Enqueue(s, id, ChildRequest(target, event.source)), t.settled);
    } else {
      SelfMoves(s);
      SettlingMoves(s, s, t.settled);
    }
  }

  lemma {:induction false} ReapMoves(s: State, ids: seq<ExecId>)
    requires OutboxExact(s)
    ensures Moves(s, Reap(s, ids))
    decreases |ids|
  {
    hide OutboxExact, Moves, End;
    if ids == [] {
      SelfMoves(s);
    } else {
      var t, id := Reap(s, ids[..|ids| - 1]), ids[|ids| - 1];
      ReapMoves(s, ids[..|ids| - 1]);
      ReapExact(s, ids[..|ids| - 1]);
      if id in t.executions && Expired(t, t.executions[id]) {
        EndMoves(t, id, Lost(t.executions[id]));
        MovesTransitive(s, t, End(t, id, Lost(t.executions[id])));
      }
    }
  }

  lemma ClaimMoves(leaseMs: nat, s: State, worker: WorkerId, id: ExecId, checked: Time, claimed: Time, recorded: Time)
    requires OutboxExact(s)
    ensures Moves(s, Claim(s, leaseMs, worker, id, checked, claimed, recorded))
  {
    hide OutboxExact, RateAllows, RunningInQueue, RunningOfJob, Window, Moves;
    SelfMoves(s);
    if s.clock <= checked <= claimed <= recorded && Eligible(s, id, checked) {
      ClaimEvolves(leaseMs, s, worker, id, checked, claimed, recorded);
      ClaimDoes(leaseMs, s, worker, id, checked, claimed, recorded);
      ClaimOutbox(leaseMs, s, worker, id, checked, claimed, recorded);
      hide Evolves, Claim, Eligible;
      StillMoves(s, Claim(s, leaseMs, worker, id, checked, claimed, recorded));
    }
  }

  lemma ClaimOutbox(leaseMs: nat, s: State, worker: WorkerId, id: ExecId, checked: Time, claimed: Time, recorded: Time)
    ensures var t := Claim(s, leaseMs, worker, id, checked, claimed, recorded);
      SameOutbox(s, t) && t.triggers == s.triggers
  {
    hide Eligible, Window, StartsCount, Starts;
  }

  lemma HeartbeatMoves(leaseMs: nat, s: State, worker: WorkerId)
    requires OutboxExact(s)
    ensures Moves(s, Heartbeat(s, leaseMs, worker))
  {
    hide OutboxExact, Moves;
    HeartbeatQuiet(leaseMs, s, worker);
    StillMoves(s, Heartbeat(s, leaseMs, worker));
  }

  lemma CancelMoves(s: State, id: ExecId)
    requires OutboxExact(s) && RequestCancel(s, id).Ok?
    ensures Moves(s, RequestCancel(s, id).value.0)
  {
    hide OutboxExact, End, Moves;
    SelfMoves(s);
    var row := s.executions[id];
    if row.status.Queued? {
      EndMoves(s, id, CancelledBy(row, row.error));
    } else if row.status.Running? {
      AskedMoves(s, id);
    }
  }

  lemma FinishMoves(s: State, id: ExecId, status: Status, error: Option<Code>)
    requires OutboxExact(s)
    ensures Moves(s, Finish(s, id, status, error))
  {
    hide OutboxExact, End, Moves;
    SelfMoves(s);
    if id in s.executions && s.executions[id].status.Running? && WorkersEnd(status, error) {
      EndMoves(s, id, s.executions[id].(status := status, error := error));
    }
  }

  // Whatever a transaction is, it matches what ends in it against the triggers before it, and nothing else
  lemma StepMatches(leaseMs: nat, s: State, event: Event)
    requires OutboxExact(s)
    ensures AllMatchedAt(s, Step(leaseMs, s, event))
  {
    hide OutboxExact, Evolves, AllMatchedAt, Enqueue, Claim, Heartbeat, Reap, RequestCancel, Finish, Dispatch;
    SelfMoves(s);
    match event
    case Enqueued(id, request) => EnqueueMoves(s, id, request);
    case Claimed(worker, id, checked, claimed, recorded) => ClaimMoves(leaseMs, s, worker, id, checked, claimed, recorded);
    case Beat(worker) => HeartbeatMoves(leaseMs, s, worker);
    case Reaped(ids) => ReapMoves(s, ids);
    case CancelRequested(id) =>
      if RequestCancel(s, id).Ok? {
        CancelMoves(s, id);
      }
    case Finished(id, status, error) => FinishMoves(s, id, status, error);
    case Dispatched(pending, child, target) => DispatchMoves(s, pending, child, target);
    case _ => SettingsMatch(leaseMs, s, event);
  }

  lemma SettingsMatch(leaseMs: nat, s: State, event: Event)
    requires OutboxExact(s)
    requires event.Tick? || event.Registered? || event.PolicyUpdated? || event.TriggerPut? || event.TriggerDeleted?
    ensures AllMatchedAt(s, Step(leaseMs, s, event))
  {
    hide OutboxExact, Patched, ValidPolicy, WithPolicy, Puttable, Matching;
    SettingsFrame(leaseMs, s, event);
    var t := Step(leaseMs, s, event);
    assert t.matched == s.matched;
    hide Step;
    forall id | id in t.executions ensures MatchedAt(s, t, id) {
      if Announced(t.executions[id]) {
        HasMatched(s, id);
      }
    }
  }

  // ----- Over runs -----

  // An execution is over after a transaction and was not before it
  ghost predicate EndsIn(s: State, t: State, id: ExecId) {
    id in t.executions && t.executions[id].status.Terminal() && (id in s.executions ==> !s.executions[id].status.Terminal())
  }

  // What an execution that has ended is matched against never changes
  lemma {:induction false} MatchedForGood(leaseMs: nat, events: seq<Event>, more: seq<Event>, id: ExecId)
    requires id in After(leaseMs, events).executions && Announced(After(leaseMs, events).executions[id])
    ensures var t, u := After(leaseMs, events), After(leaseMs, events + more);
      id in u.executions && u.executions[id] == t.executions[id] &&
      id in t.matched && id in u.matched && u.matched[id] == t.matched[id]
    decreases |more|
  {
    AlwaysExact(leaseMs, events);
    HasMatched(After(leaseMs, events), id);
    if more == [] {
      assert events + more == events;
    } else {
      var less, last := more[..|more| - 1], more[|more| - 1];
      MatchedForGood(leaseMs, events, less, id);
      assert (events + more)[..|events + more| - 1] == events + less;
      AlwaysExact(leaseMs, events + less);
      StepMatches(leaseMs, After(leaseMs, events + less), last);
      StepEvolves(leaseMs, After(leaseMs, events + less), last);
      hide Step, OutboxExact;
      AnnouncedStays(After(leaseMs, events + less), After(leaseMs, events + more), id);
      assert MatchedAt(After(leaseMs, events + less), After(leaseMs, events + more), id);
    }
  }

  lemma StepMatchesEnd(leaseMs: nat, events: seq<Event>, event: Event, id: ExecId)
    requires EndsIn(After(leaseMs, events), After(leaseMs, events + [event]), id)
    requires !After(leaseMs, events + [event]).executions[id].suppressed
    ensures var s, t := After(leaseMs, events), After(leaseMs, events + [event]);
      Announced(t.executions[id]) && id in t.matched && t.matched[id] == Matching(s.triggers, t.executions[id])
  {
    assert (events + [event])[..|events|] == events;
    AlwaysExact(leaseMs, events);
    StepMatches(leaseMs, After(leaseMs, events), event);
    hide OutboxExact, Step, Matching;
    assert MatchedAt(After(leaseMs, events), After(leaseMs, events + [event]), id);
  }

  // An execution that ends has, from then on, exactly one delivery per interested subscription and one event per
  // trigger that was enabled and matching just before, but for those of triggers that were deleted later
  lemma EndMatchesNow(leaseMs: nat, events: seq<Event>, event: Event, more: seq<Event>, id: ExecId)
    requires EndsIn(After(leaseMs, events), After(leaseMs, events + [event]), id)
    requires !After(leaseMs, events + [event]).executions[id].suppressed
    ensures var s, t, u := After(leaseMs, events), After(leaseMs, events + [event]), After(leaseMs, events + [event] + more);
      && id in u.executions && u.executions[id] == t.executions[id]
      && EventsOf(u, id) == EventsFor(id, Matching(s.triggers, t.executions[id]) - u.deleted)
      && DeliveriesOf(u, id) == Deliveries(id, t.executions[id])
      && (forall e: TriggerEvent :: e.source == id ==>
        (e in u.events <==> Told.IsSetOff(s.triggers, id, t.executions[id], e) && e.trigger !in u.deleted))
      && (forall d: Delivery :: d.execution == id ==> (d in u.deliveries <==> Told.IsDue(id, t.executions[id], d)))
  {
    var s, t, u := After(leaseMs, events), After(leaseMs, events + [event]), After(leaseMs, events + [event] + more);
    EndedIsTold(s, u, id, t.executions[id]);
    StepMatchesEnd(leaseMs, events, event, id);
    MatchedForGood(leaseMs, events + [event], more, id);
    AlwaysExact(leaseMs, events + [event] + more);
    hide After, Matching, Deliveries;
    assert OutboxOf(After(leaseMs, events + [event] + more), id);
  }

  lemma EndedIsTold(s: State, u: State, id: ExecId, row: Execution)
    requires row.status.Terminal() && !row.suppressed
    ensures EventsOf(u, id) == EventsFor(id, Matching(s.triggers, row) - u.deleted) ==>
      forall e: TriggerEvent :: e.source == id ==> (e in u.events <==> Told.IsSetOff(s.triggers, id, row, e) && e.trigger !in u.deleted)
    ensures DeliveriesOf(u, id) == Deliveries(id, row) ==>
      forall d: Delivery :: d.execution == id ==> (d in u.deliveries <==> Told.IsDue(id, row, d))
  {
    EventsAreTold(s, u, id, row);
    DeliveriesAreTold(u, id, row);
  }

  lemma EventsAreTold(s: State, u: State, id: ExecId, row: Execution)
    requires row.status.Terminal() && !row.suppressed
    ensures EventsOf(u, id) == EventsFor(id, Matching(s.triggers, row) - u.deleted) ==>
      forall e: TriggerEvent :: e.source == id ==> (e in u.events <==> Told.IsSetOff(s.triggers, id, row, e) && e.trigger !in u.deleted)
  {
    forall e: TriggerEvent | e.source == id
      ensures e in EventsOf(u, id) <==> e in u.events
      ensures e in EventsFor(id, Matching(s.triggers, row) - u.deleted) <==>
        Told.IsSetOff(s.triggers, id, row, e) && e.trigger !in u.deleted
    {
      assert e == TriggerEvent(e.trigger, id);
    }
  }

  lemma DeliveriesAreTold(u: State, id: ExecId, row: Execution)
    requires row.status.Terminal() && !row.suppressed
    ensures DeliveriesOf(u, id) == Deliveries(id, row) ==>
      forall d: Delivery :: d.execution == id ==> (d in u.deliveries <==> Told.IsDue(id, row, d))
  {
    forall d: Delivery | d.execution == id
      ensures d in DeliveriesOf(u, id) <==> d in u.deliveries
      ensures d in Deliveries(id, row) <==> Told.IsDue(id, row, d)
    {
      assert d == Delivery(id, d.status, d.subscription);
    }
  }

  // A request decides for good whether its execution announces anything: a suppressed one never has a delivery or an
  // event, and any other one has, once it is over, exactly those that are due
  lemma RequestDecides(leaseMs: nat, events: seq<Event>, id: ExecId, request: Request, more: seq<Event>)
    requires Told.Fits(After(leaseMs, events), id, request) && request.parent.None? && !request.source.JobCompletion?
    ensures var u := After(leaseMs, events + [Enqueued(id, request)] + more);
      && id in u.executions && u.executions[id].suppressed == request.suppressed
      && u.executions[id].job == request.job && u.executions[id].key == request.key && u.executions[id].source == request.source
      && (forall d: Delivery :: d.execution == id ==> (d in u.deliveries <==> Told.IsDue(id, u.executions[id], d)))
      && (request.suppressed ==> !exists e :: e in u.events && e.source == id)
  {
    var s := After(leaseMs, events);
    var before := events + [Enqueued(id, request)];
    assert before[..|events|] == events;
    assert After(leaseMs, before) == Enqueue(s, id, request);
    Told.EnqueueOpens(s, id, request);
    RowKept(leaseMs, before, more, id);
    AlwaysExact(leaseMs, before + more);
    var u := After(leaseMs, before + more);
    hide After, Enqueue, Told.Fits, Told.MakesRoom, OutboxExact;
    OutboxTold(u, id);
  }

  lemma {:induction false} RowKept(leaseMs: nat, events: seq<Event>, more: seq<Event>, id: ExecId)
    requires id in After(leaseMs, events).executions
    ensures id in After(leaseMs, events + more).executions
    ensures var a, b := After(leaseMs, events).executions[id], After(leaseMs, events + more).executions[id];
      b.suppressed == a.suppressed && b.job == a.job && b.key == a.key && b.source == a.source
    decreases |more|
  {
    if more == [] {
      assert events + more == events;
    } else {
      var less := more[..|more| - 1];
      RowKept(leaseMs, events, less, id);
      assert (events + more)[..|events + more| - 1] == events + less;
      hide Step;
      StepEvolves(leaseMs, After(leaseMs, events + less), more[|more| - 1]);
      assert RowEvolves(After(leaseMs, events + less).executions[id], After(leaseMs, events + more).executions[id]);
    }
  }

  // The outbox of any execution of a reachable store, told by its row
  lemma OutboxTold(u: State, id: ExecId)
    requires OutboxExact(u) && id in u.executions
    ensures forall d: Delivery :: d.execution == id ==> (d in u.deliveries <==> Told.IsDue(id, u.executions[id], d))
    ensures u.executions[id].suppressed ==> !exists e :: e in u.events && e.source == id
  {
    assert OutboxOf(u, id);
    hide OutboxExact;
    var row := u.executions[id];
    if Announced(row) {
      DeliveriesAreTold(u, id, row);
    } else {
      forall d: Delivery | d.execution == id ensures d !in u.deliveries && !Told.IsDue(id, row, d) {
        assert d !in DeliveriesOf(u, id);
      }
      forall e: TriggerEvent | e.source == id ensures e !in u.events {
        assert e !in EventsOf(u, id);
      }
    }
  }

  // And every execution that is over has such a moment behind it
  lemma {:induction false} EndHasItsMoment(leaseMs: nat, events: seq<Event>, id: ExecId) returns (n: nat)
    requires id in After(leaseMs, events).executions && After(leaseMs, events).executions[id].status.Terminal()
    ensures n < |events| && EndsIn(After(leaseMs, events[..n]), After(leaseMs, events[..n + 1]), id)
    decreases |events|
  {
    n := |events| - 1;
    var less := events[..n];
    assert events[..n + 1] == events;
    if !EndsIn(After(leaseMs, less), After(leaseMs, events), id) {
      n := EndHasItsMoment(leaseMs, less, id);
      assert less[..n] == events[..n] && less[..n + 1] == events[..n + 1];
    }
  }
}
