/**
 * Cascades: what the end of one execution starts through job chains (dispatchOne in
 * src/repositories/AutomationRepository.ts, enqueueTerminalAutomations in
 * src/repositories/ExecutionRepository.ts), over every run of edits and transactions.
 */
module Cascades {
  import opened Wrappers
  import opened Graph
  import opened JobGraph
  import opened Levels
  import opened Automation
  import E = Executions
  import Laws = ExecutionLaws
  import Outbox = ExecutionOutbox
  import Ends = ExecutionEnds
  import Repo = ExecutionRepository

  // ----- Edits and transactions on one table of triggers -----

  function ChainRow(row: Trigger): E.CompletionTrigger
    requires row.ChainTrigger?
  {
    E.CompletionTrigger(row.enabled, row.source, row.target, row.statuses)
  }

  // The chains among the rows, as the shared tables hold them
  function Stored(rows: seq<Trigger>): map<TriggerId, E.CompletionTrigger> {
    if rows == [] then map[]
    else
      var less, row := Stored(rows[..|rows| - 1]), rows[|rows| - 1];
      if row.ChainTrigger? then less[row.id := ChainRow(row)] else less
  }

  ghost predicate IsChainRow(rows: seq<Trigger>, i: int, id: TriggerId, row: E.CompletionTrigger) {
    0 <= i < |rows| && rows[i].id == id && rows[i].ChainTrigger? && ChainRow(rows[i]) == row
  }

  lemma {:induction false} StoredFrom(rows: seq<Trigger>, id: TriggerId) returns (i: nat)
    requires id in Stored(rows)
    ensures IsChainRow(rows, i, id, Stored(rows)[id])
  {
    i := |rows| - 1;
    if !(rows[i].ChainTrigger? && rows[i].id == id) {
      i := StoredFrom(rows[..i], id);
    }
  }

  lemma {:induction false} StoredHolds(rows: seq<Trigger>, i: nat)
    requires UniqueTriggers(rows) && i < |rows| && rows[i].ChainTrigger?
    ensures rows[i].id in Stored(rows) && Stored(rows)[rows[i].id] == ChainRow(rows[i])
  {
    if i < |rows| - 1 {
      StoredHolds(rows[..|rows| - 1], i);
    }
  }

  // Rows and table agree
  ghost predicate Agree(rows: seq<Trigger>, triggers: map<TriggerId, E.CompletionTrigger>) {
    && (forall i :: 0 <= i < |rows| && rows[i].ChainTrigger? ==> rows[i].id in triggers && triggers[rows[i].id] == ChainRow(rows[i]))
    && (forall t :: t in triggers ==> exists i :: IsChainRow(rows, i, t, triggers[t]))
  }

  lemma AgreeIsStored(rows: seq<Trigger>, triggers: map<TriggerId, E.CompletionTrigger>)
    requires UniqueTriggers(rows)
    ensures Agree(rows, triggers) <==> triggers == Stored(rows)
  {
    forall i | 0 <= i < |rows| && rows[i].ChainTrigger? { StoredHolds(rows, i); }
    forall t | t in Stored(rows) ensures exists i :: IsChainRow(rows, i, t, Stored(rows)[t]) {
      var i := StoredFrom(rows, t);
    }
    if Agree(rows, triggers) {
      forall t | t in triggers ensures t in Stored(rows) && Stored(rows)[t] == triggers[t] {
        var i :| IsChainRow(rows, i, t, triggers[t]);
      }
      forall t | t in Stored(rows) ensures t in triggers {
        var i :| IsChainRow(rows, i, t, Stored(rows)[t]);
      }
    }
  }

  // The statement an edit sends to the table, if it changes a chain
  function Statement(rows: seq<Trigger>, edit: Edit): Option<E.Event> {
    match edit
    case CreateWebhook(_, _) => None
    case CreateChain(id, source, target, statuses) =>
      Some(E.TriggerPut(id, E.CompletionTrigger(true, source, target, statuses)))
    case Update(target, id, enabled, statuses) =>
      if !Has(rows, target, id) then None
      else
        var row := Patched(rows[Find(rows, target, id)], enabled, statuses);
        if row.ChainTrigger? then Some(E.TriggerPut(id, ChainRow(row))) else None
    case Delete(_, id) => Some(E.TriggerDeleted(id))
  }

  // Edits of triggers, among all other transactions
  datatype Act = Edited(edit: Edit) | Elsewhere(event: E.Event)

  datatype Session = Session(rows: seq<Trigger>, events: seq<E.Event>)

  predicate EditsTriggers(event: E.Event) {
    event.TriggerPut? || event.TriggerDeleted?
  }

  // A new trigger gets an id no trigger ever had
  ghost predicate Allowed(leaseMs: nat, s: Session, edit: Edit) {
    edit.CreateWebhook? || edit.CreateChain? ==> NewId(s.rows, edit.id) && edit.id !in E.After(leaseMs, s.events).deleted
  }

  ghost function Next(jobs: set<Id>, leaseMs: nat, s: Session, act: Act): Session {
    match act
    case Edited(edit) =>
      if !Allowed(leaseMs, s, edit) || AfterEdit(jobs, s.rows, edit).Err? then s
      else
        var statement := Statement(s.rows, edit);
        Session(AfterEdit(jobs, s.rows, edit).value, s.events + if statement.Some? then [statement.value] else [])
    case Elsewhere(event) => if EditsTriggers(event) then s else s.(events := s.events + [event])
  }

  ghost function SessionAfter(jobs: set<Id>, leaseMs: nat, acts: seq<Act>): Session {
    if acts == [] then Session([], [])
    else Next(jobs, leaseMs, SessionAfter(jobs, leaseMs, acts[..|acts| - 1]), acts[|acts| - 1])
  }

  // The edited rows are sound and are the rows of the table
  ghost predicate InStep(jobs: set<Id>, leaseMs: nat, s: Session) {
    var store := E.After(leaseMs, s.events);
    && Sound(jobs, s.rows) && Agree(s.rows, store.triggers)
    && (forall i :: 0 <= i < |s.rows| ==> s.rows[i].id !in store.deleted)
  }

  lemma AfterAppend(leaseMs: nat, events: seq<E.Event>, event: E.Event)
    ensures E.After(leaseMs, events + [event]) == E.Step(leaseMs, E.After(leaseMs, events), event)
  {
    assert (events + [event])[..|events|] == events;
    hide E.Step;
  }

  lemma CreatedAgrees(rows: seq<Trigger>, store: E.State, row: Trigger)
    requires Agree(rows, store.triggers) && NewId(rows, row.id) && row.ChainTrigger? && row.id !in store.deleted
    ensures Agree(rows + [row], E.PutTrigger(store, row.id, ChainRow(row)).triggers)
  {
    var next, after := rows + [row], E.PutTrigger(store, row.id, ChainRow(row)).triggers;
    forall t | t in store.triggers ensures t != row.id {
      var i :| IsChainRow(rows, i, t, store.triggers[t]);
    }
    forall t | t in after ensures exists i :: IsChainRow(next, i, t, after[t]) {
      if t == row.id {
        assert IsChainRow(next, |rows|, t, after[t]);
      } else {
        var i :| IsChainRow(rows, i, t, store.triggers[t]);
        assert IsChainRow(next, i, t, after[t]);
      }
    }
  }

  lemma UpdatedAgrees(rows: seq<Trigger>, store: E.State, i: nat, row: Trigger)
    requires UniqueTriggers(rows) && Agree(rows, store.triggers) && i < |rows| && rows[i].id !in store.deleted
    requires row.id == rows[i].id && SameLink(row, rows[i])
    ensures Agree(rows[i := row], E.PutTrigger(store, row.id, ChainRow(row)).triggers)
  {
    var next, after := rows[i := row], E.PutTrigger(store, row.id, ChainRow(row)).triggers;
    assert E.Puttable(store, row.id, ChainRow(row));
    forall t | t in after ensures exists k :: IsChainRow(next, k, t, after[t]) {
      if t == row.id {
        assert IsChainRow(next, i, t, after[t]);
      } else {
        var k :| IsChainRow(rows, k, t, store.triggers[t]);
        assert IsChainRow(next, k, t, after[t]);
      }
    }
  }

  // Rows that are no chains, or come and go beside the chains, do not matter to the table
  lemma SameChainsAgree(rows: seq<Trigger>, next: seq<Trigger>, triggers: map<TriggerId, E.CompletionTrigger>, id: TriggerId)
    requires Agree(rows, triggers)
    requires forall row :: row in next && row.ChainTrigger? ==> row in rows && row.id != id
    requires forall row :: row in rows && row.ChainTrigger? && row.id != id ==> row in next
    ensures Agree(next, map t | t in triggers && t != id :: triggers[t])
  {
    var after := map t | t in triggers && t != id :: triggers[t];
    forall i | 0 <= i < |next| && next[i].ChainTrigger? ensures next[i].id in after && after[next[i].id] == ChainRow(next[i]) {
      assert next[i] in next;
      var k :| 0 <= k < |rows| && rows[k] == next[i];
    }
    forall t | t in after ensures exists k :: IsChainRow(next, k, t, after[t]) {
      var i :| IsChainRow(rows, i, t, triggers[t]);
      assert rows[i] in rows;
      var k :| 0 <= k < |next| && next[k] == rows[i];
      assert IsChainRow(next, k, t, after[t]);
    }
  }

  lemma WebhookAgrees(rows: seq<Trigger>, next: seq<Trigger>, triggers: map<TriggerId, E.CompletionTrigger>)
    requires Agree(rows, triggers) && |rows| <= |next|
    requires forall i :: 0 <= i < |rows| ==> next[i].ChainTrigger? == rows[i].ChainTrigger? && (rows[i].ChainTrigger? ==> next[i] == rows[i])
    requires forall i :: |rows| <= i < |next| ==> !next[i].ChainTrigger?
    ensures Agree(next, triggers)
  {
    forall t | t in triggers ensures exists k :: IsChainRow(next, k, t, triggers[t]) {
      var i :| IsChainRow(rows, i, t, triggers[t]);
      assert IsChainRow(next, i, t, triggers[t]);
    }
  }

  lemma CreateInStep(jobs: set<Id>, leaseMs: nat, s: Session, edit: Edit)
    requires InStep(jobs, leaseMs, s) && Allowed(leaseMs, s, edit) && AfterEdit(jobs, s.rows, edit).Ok?
    requires edit.CreateChain? || edit.CreateWebhook?
    ensures InStep(jobs, leaseMs, Next(jobs, leaseMs, s, Edited(edit)))
  {
    EditKeepsSound(jobs, s.rows, edit);
    hide Sound, ChainGraph, Cyclic, E.After, Agree;
    var store := E.After(leaseMs, s.events);
    match edit
    case CreateChain(id, source, target, statuses) =>
      var row := ChainTrigger(id, target, true, source, statuses);
      PutInStep(leaseMs, s, id, ChainRow(row));
      CreatedAgrees(s.rows, store, row);
    case CreateWebhook(id, target) =>
      var next := s.rows + [WebhookTrigger(id, target, true)];
      WebhookAgrees(s.rows, next, store.triggers);
      assert s.events + [] == s.events;
  }

  // Putting a trigger deletes none
  lemma PutInStep(leaseMs: nat, s: Session, id: TriggerId, row: E.CompletionTrigger)
    ensures var store := E.After(leaseMs, s.events);
      var after := E.After(leaseMs, s.events + [E.TriggerPut(id, row)]);
      after.triggers == E.PutTrigger(store, id, row).triggers && after.deleted == store.deleted
  {
    AfterAppend(leaseMs, s.events, E.TriggerPut(id, row));
    hide E.After;
  }

  lemma UpdateInStep(jobs: set<Id>, leaseMs: nat, s: Session, edit: Edit)
    requires InStep(jobs, leaseMs, s) && edit.Update? && AfterEdit(jobs, s.rows, edit).Ok?
    ensures InStep(jobs, leaseMs, Next(jobs, leaseMs, s, Edited(edit)))
  {
    EditKeepsSound(jobs, s.rows, edit);
    assert UniqueTriggers(s.rows);
    hide Sound, ChainGraph, Cyclic, E.After, UniqueTriggers, Agree;
    var store := E.After(leaseMs, s.events);
    var i := Find(s.rows, edit.target, edit.id);
    var row := Patched(s.rows[i], edit.enabled, edit.restated);
    if row.ChainTrigger? {
      PutInStep(leaseMs, s, edit.id, ChainRow(row));
      UpdatedAgrees(s.rows, store, i, row);
    } else {
      WebhookAgrees(s.rows, s.rows[i := row], store.triggers);
      assert s.events + [] == s.events;
    }
  }

  lemma DeleteInStep(jobs: set<Id>, leaseMs: nat, s: Session, edit: Edit)
    requires InStep(jobs, leaseMs, s) && edit.Delete? && AfterEdit(jobs, s.rows, edit).Ok?
    ensures InStep(jobs, leaseMs, Next(jobs, leaseMs, s, Edited(edit)))
  {
    EditKeepsSound(jobs, s.rows, edit);
    hide Sound, ChainGraph, Cyclic, E.After, Agree, WithoutTrigger;
    var store := E.After(leaseMs, s.events);
    DropInStep(leaseMs, s, edit.id);
    RowsLeft(s.rows, edit.id, store.triggers, store.deleted);
  }

  lemma DropInStep(leaseMs: nat, s: Session, id: TriggerId)
    ensures var store := E.After(leaseMs, s.events);
      var after := E.After(leaseMs, s.events + [E.TriggerDeleted(id)]);
      && after.triggers == (map t | t in store.triggers && t != id :: store.triggers[t])
      && after.deleted == store.deleted + {id}
  {
    AfterAppend(leaseMs, s.events, E.TriggerDeleted(id));
    hide E.After;
  }

  lemma RowsLeft(rows: seq<Trigger>, id: TriggerId, triggers: map<TriggerId, E.CompletionTrigger>, deleted: set<TriggerId>)
    requires Agree(rows, triggers) && forall i :: 0 <= i < |rows| ==> rows[i].id !in deleted
    ensures Agree(WithoutTrigger(rows, id), map t | t in triggers && t != id :: triggers[t])
    ensures forall i :: 0 <= i < |WithoutTrigger(rows, id)| ==> WithoutTrigger(rows, id)[i].id !in deleted + {id}
  {
    var next := WithoutTrigger(rows, id);
    WithoutTriggerIsFilter(rows, id);
    hide WithoutTrigger, Agree;
    SameChainsAgree(rows, next, triggers, id);
    forall i | 0 <= i < |next| ensures next[i].id !in deleted + {id} {
      assert next[i] in next;
      var k :| 0 <= k < |rows| && rows[k] == next[i];
    }
  }

  // No other transaction touches the triggers
  lemma TriggersKept(leaseMs: nat, s: E.State, event: E.Event)
    requires Outbox.OutboxExact(s) && !EditsTriggers(event)
    ensures E.Step(leaseMs, s, event).triggers == s.triggers
    ensures E.Step(leaseMs, s, event).deleted == s.deleted
  {
    hide Outbox.OutboxExact, E.Enqueue, E.Claim, E.Heartbeat, E.Reap, E.RequestCancel, E.Finish, E.Dispatch, E.UpdatePolicy;
    match event
    case Enqueued(id, request) => EnqueueTables(s, id, request);
    case Claimed(worker, id, checked, claimed, recorded) =>
      Ends.ClaimOutbox(leaseMs, s, worker, id, checked, claimed, recorded);
    case Beat(worker) => HeartbeatTables(leaseMs, s, worker);
    case Reaped(ids) => ReapTables(s, ids);
    case CancelRequested(id) => CancelTables(s, id);
    case Finished(id, status, error) => FinishTables(s, id, status, error);
    case Dispatched(pending, child, target) => DispatchTables(s, pending, child, target);
    case PolicyUpdated(queue, patch, expectedVersion) => PolicyTables(s, queue, patch, expectedVersion);
    case _ =>
  }

  lemma PolicyTables(s: E.State, queue: E.Queue, patch: E.Patch, expectedVersion: nat)
    ensures E.UpdatePolicy(s, queue, patch, expectedVersion).Ok? ==>
      SameTables(s, E.UpdatePolicy(s, queue, patch, expectedVersion).value)
  {
    hide E.Patched, E.ValidPolicy, E.WithPolicy;
  }

  // Neither triggers nor settled events change
  ghost predicate SameTables(s: E.State, t: E.State) {
    t.triggers == s.triggers && t.deleted == s.deleted && t.settled == s.settled
  }

  lemma EndTables(s: E.State, id: E.ExecId, row: E.Execution)
    requires id in s.executions
    ensures SameTables(s, E.End(s, id, row))
  {
    Laws.AnnounceFrame(s.(executions := s.executions[id := row]), id);
    hide E.Announce;
  }

  lemma EnqueueTables(s: E.State, id: E.ExecId, request: E.Request)
    ensures SameTables(s, E.Enqueue(s, id, request))
  {
    hide E.End, E.Inserted, E.Admissible, E.IsOldest;
    if E.Admissible(s, id, request) {
      var (t, status) := E.Overlapped(s, request.job, request.key, request.kind);
      var active := E.ActiveFor(s, request.job.id, request.key);
      if active != {} && E.Mode(request.job, request.kind) == E.CancelOldest {
        Laws.OldestIsActive(s, active);
        EndTables(s, E.Oldest(s, active), E.CancelledBy(s.executions[E.Oldest(s, active)], Some(E.OverlapCancelled)));
      }
      InsertedTables(t, id, request, status);
    }
  }

  lemma InsertedTables(s: E.State, id: E.ExecId, request: E.Request, status: E.Status)
    ensures SameTables(s, E.Inserted(s, id, request, status))
  {
    hide E.Announce, E.NewRow, E.WithPolicy;
    var t := s.(
      executions := s.executions[id := E.NewRow(s, request, status)],
      policies := E.WithPolicy(s.policies, request.job.queue));
    Laws.AnnounceFrame(t, id);
  }

  lemma HeartbeatTables(leaseMs: nat, s: E.State, worker: E.WorkerId)
    ensures SameTables(s, E.Heartbeat(s, leaseMs, worker))
  {
  }

  lemma {:induction false} ReapTables(s: E.State, ids: seq<E.ExecId>)
    ensures SameTables(s, E.Reap(s, ids))
    decreases |ids|
  {
    hide E.End;
    if ids != [] {
      var t, id := E.Reap(s, ids[..|ids| - 1]), ids[|ids| - 1];
      ReapTables(s, ids[..|ids| - 1]);
      if id in t.executions && E.Expired(t, t.executions[id]) {
        EndTables(t, id, E.Lost(t.executions[id]));
      }
    }
  }

  lemma CancelTables(s: E.State, id: E.ExecId)
    ensures E.RequestCancel(s, id).Ok? ==> SameTables(s, E.RequestCancel(s, id).value.0)
  {
    hide E.End;
    if id in s.executions {
      EndTables(s, id, E.CancelledBy(s.executions[id], s.executions[id].error));
    }
  }

  lemma FinishTables(s: E.State, id: E.ExecId, status: E.Status, error: Option<E.Code>)
    ensures SameTables(s, E.Finish(s, id, status, error))
  {
    hide E.End;
    if id in s.executions {
      EndTables(s, id, s.executions[id].(status := status, error := error));
    }
  }

  lemma DispatchTables(s: E.State, event: E.TriggerEvent, id: E.ExecId, target: E.Target)
    ensures E.Dispatch(s, event, id, target).triggers == s.triggers && E.Dispatch(s, event, id, target).deleted == s.deleted
    ensures forall e :: e in s.settled ==>
      e in E.Dispatch(s, event, id, target).settled && E.Dispatch(s, event, id, target).settled[e] == s.settled[e]
    ensures E.Spawns(s, event, id, target) ==>
      event in E.Dispatch(s, event, id, target).settled && E.Dispatch(s, event, id, target).settled[event] == E.QueuedAs(id)
  {
    hide E.Enqueue, E.Admissible;
    if E.Spawns(s, event, id, target) {
      EnqueueTables(s, id, E.ChildRequest(target, event.source));
    }
  }

  lemma ElsewhereInStep(jobs: set<Id>, leaseMs: nat, s: Session, event: E.Event)
    requires InStep(jobs, leaseMs, s) && !EditsTriggers(event)
    ensures InStep(jobs, leaseMs, s.(events := s.events + [event]))
  {
    Outbox.AlwaysExact(leaseMs, s.events);
    AfterAppend(leaseMs, s.events, event);
    TriggersKept(leaseMs, E.After(leaseMs, s.events), event);
    hide Sound, Agree, E.After, E.Step, Outbox.OutboxExact;
  }

  // Whatever is edited and whatever else happens: the table holds the edited chains, and the enabled ones are acyclic
  lemma {:induction false} EditsReachTheTable(jobs: set<Id>, leaseMs: nat, acts: seq<Act>)
    ensures var s := SessionAfter(jobs, leaseMs, acts);
      Sound(jobs, s.rows) && E.After(leaseMs, s.events).triggers == Stored(s.rows)
  {
    AlwaysInStep(jobs, leaseMs, acts);
    var s := SessionAfter(jobs, leaseMs, acts);
    hide SessionAfter, E.After;
    AgreeIsStored(s.rows, E.After(leaseMs, s.events).triggers);
  }

  lemma {:induction false} AlwaysInStep(jobs: set<Id>, leaseMs: nat, acts: seq<Act>)
    ensures InStep(jobs, leaseMs, SessionAfter(jobs, leaseMs, acts))
  {
    if acts == [] {
      RankedIsAcyclic(ChainGraph(jobs, []), map[]);
    } else {
      var s, act := SessionAfter(jobs, leaseMs, acts[..|acts| - 1]), acts[|acts| - 1];
      AlwaysInStep(jobs, leaseMs, acts[..|acts| - 1]);
      hide InStep, Allowed, AfterEdit, Statement;
      match act
      case Elsewhere(event) =>
        if !EditsTriggers(event) {
          ElsewhereInStep(jobs, leaseMs, s, event);
        }
      case Edited(edit) =>
        if Allowed(leaseMs, s, edit) && AfterEdit(jobs, s.rows, edit).Ok? {
          match edit {
            case Update(_, _, _, _) => UpdateInStep(jobs, leaseMs, s, edit);
            case Delete(_, _) => DeleteInStep(jobs, leaseMs, s, edit);
            case _ => CreateInStep(jobs, leaseMs, s, edit);
          }
        }
    }
  }

  // ----- Parents -----

  // The triggers an ended execution was matched against are triggers of its job, unless deleted since
  ghost predicate MatchedOfJob(s: E.State, id: E.ExecId)
    requires id in s.executions && id in s.matched
  {
    forall t :: t in s.matched[id] ==> t in s.deleted || (t in s.triggers && s.triggers[t].source == s.executions[id].job.id)
  }

  ghost predicate Related(s: E.State) {
    && (forall id :: id in s.matched && id in s.executions ==> MatchedOfJob(s, id))
    && (forall id :: id in s.executions && s.executions[id].parent.Some? ==> HasEndedParent(s, id))
  }

  ghost predicate HasEndedParent(s: E.State, id: E.ExecId)
    requires id in s.executions && s.executions[id].parent.Some?
  {
    var parent := s.executions[id].parent.value;
    parent in s.executions && s.executions[parent].status.Terminal()
  }

  // An event belongs to an execution that has ended, of the job its trigger watches
  lemma EventIsOfJob(s: E.State, event: E.TriggerEvent)
    requires Outbox.OutboxExact(s) && Related(s) && event in s.events
    ensures event.source in s.executions && s.executions[event.source].status.Terminal()
    ensures event.trigger in s.triggers && s.triggers[event.trigger].source == s.executions[event.source].job.id
  {
    assert Outbox.OutboxOf(s, event.source);
    assert event in Outbox.EventsOf(s, event.source);
    assert event in E.EventsFor(event.source, s.matched[event.source] - s.deleted);
    assert MatchedOfJob(s, event.source);
  }

  // Triggers keep their jobs, or are deleted for good
  lemma TriggersStay(leaseMs: nat, s: E.State, event: E.Event, t: E.TriggerId)
    requires Outbox.OutboxExact(s) && (t in s.deleted || t in s.triggers)
    ensures var u := E.Step(leaseMs, s, event);
      t in u.deleted || (t in s.triggers && t in u.triggers && u.triggers[t].source == s.triggers[t].source)
  {
    if EditsTriggers(event) {
      hide Outbox.OutboxExact;
    } else {
      TriggersKept(leaseMs, s, event);
      hide E.Step, Outbox.OutboxExact;
    }
  }

  lemma StepMatchedOfJob(leaseMs: nat, s: E.State, event: E.Event, id: E.ExecId)
    requires Outbox.OutboxExact(s) && Related(s)
    requires id in E.Step(leaseMs, s, event).executions && id in E.Step(leaseMs, s, event).matched
    ensures MatchedOfJob(E.Step(leaseMs, s, event), id)
  {
    var u := E.Step(leaseMs, s, event);
    Outbox.StepExact(leaseMs, s, event);
    Ends.StepMatches(leaseMs, s, event);
    Laws.StepEvolves(leaseMs, s, event);
    assert Outbox.OutboxOf(u, id) && Ends.MatchedAt(s, u, id);
    forall t | t in u.matched[id] ensures t in u.deleted || (t in u.triggers && u.triggers[t].source == u.executions[id].job.id) {
      if id in s.executions && Outbox.Announced(s.executions[id]) {
        assert MatchedOfJob(s, id);
        assert Laws.RowEvolves(s.executions[id], u.executions[id]);
      }
      hide E.Step, Outbox.OutboxExact, Laws.Evolves;
      TriggersStay(leaseMs, s, event, t);
    }
  }

  // Where a new execution comes from
  lemma NewRowOf(leaseMs: nat, s: E.State, event: E.Event, id: E.ExecId)
    requires id in E.Step(leaseMs, s, event).executions && id !in s.executions
    ensures var row := E.Step(leaseMs, s, event).executions[id];
      if event.Dispatched? then
        event.child == id && E.Spawns(s, event.event, id, event.target) && row.parent == Some(event.event.source) &&
        row.job.id == s.triggers[event.event.trigger].target
      else row.parent.None?
  {
    if event.Enqueued? {
      NewRowEnqueued(s, event.id, event.request, id);
    } else if event.Dispatched? {
      Laws.DispatchIs(s, event.event, event.child, event.target);
      hide E.Dispatch, E.Enqueue, E.Spawns;
      if E.Spawns(s, event.event, event.child, event.target) {
        NewRowEnqueued(s, event.child, E.ChildRequest(event.target, event.event.source), id);
        SpawnsTarget(s, event.event, event.child, event.target);
      }
    } else {
      hide E.Step;
      Outbox.NoNewRows(leaseMs, s, event);
    }
  }

  lemma SpawnsTarget(s: E.State, event: E.TriggerEvent, id: E.ExecId, target: E.Target)
    requires E.Spawns(s, event, id, target)
    ensures target.Runs? && event.trigger in s.triggers && target.job.id == s.triggers[event.trigger].target
    ensures s.triggers[event.trigger].enabled && event in s.events
  {
    hide E.Admissible;
  }

  lemma NewRowEnqueued(s: E.State, other: E.ExecId, request: E.Request, id: E.ExecId)
    requires id in E.Enqueue(s, other, request).executions && id !in s.executions
    ensures id == other && E.Enqueue(s, other, request).executions[id].parent == request.parent
    ensures E.Enqueue(s, other, request).executions[id].job == request.job
  {
    if E.Admissible(s, other, request) {
      Repo.EnqueuedChild(s, other, request);
      Laws.AdmissibleIsFresh(s, other, request);
      hide E.Admissible, E.Overlapped, E.Inserted;
      Laws.OverlappedQuiet(s, request.job, request.key, request.kind);
      Laws.OverlappedStatus(s, request.job, request.key, request.kind);
      var (t, status) := E.Overlapped(s, request.job, request.key, request.kind);
      Laws.InsertedQuiet(t, other, request, status);
      hide Laws.Quiet;
    }
  }

  lemma StepParent(leaseMs: nat, s: E.State, event: E.Event, id: E.ExecId)
    requires Outbox.OutboxExact(s) && Related(s)
    requires id in E.Step(leaseMs, s, event).executions && E.Step(leaseMs, s, event).executions[id].parent.Some?
    ensures HasEndedParent(E.Step(leaseMs, s, event), id)
  {
    var u := E.Step(leaseMs, s, event);
    Laws.StepEvolves(leaseMs, s, event);
    hide E.Step, Outbox.OutboxExact;
    if id in s.executions {
      assert Laws.RowEvolves(s.executions[id], u.executions[id]);
      assert HasEndedParent(s, id);
    } else {
      NewRowOf(leaseMs, s, event, id);
      SpawnsTarget(s, event.event, id, event.target);
      EventIsOfJob(s, event.event);
    }
    var parent := u.executions[id].parent.value;
    assert Laws.RowEvolves(s.executions[parent], u.executions[parent]);
  }

  lemma {:induction false} AlwaysRelated(leaseMs: nat, events: seq<E.Event>)
    ensures Related(E.After(leaseMs, events))
  {
    if events != [] {
      var s, event := E.After(leaseMs, events[..|events| - 1]), events[|events| - 1];
      var u := E.After(leaseMs, events);
      AlwaysRelated(leaseMs, events[..|events| - 1]);
      Outbox.AlwaysExact(leaseMs, events[..|events| - 1]);
      assert u == E.Step(leaseMs, s, event);
      hide E.Step, Outbox.OutboxExact, MatchedOfJob, HasEndedParent, E.After, Related;
      RelatedNext(leaseMs, s, event);
    }
  }

  lemma RelatedNext(leaseMs: nat, s: E.State, event: E.Event)
    requires Outbox.OutboxExact(s) && Related(s)
    ensures Related(E.Step(leaseMs, s, event))
  {
    hide E.Step, Outbox.OutboxExact, MatchedOfJob, HasEndedParent;
    var u := E.Step(leaseMs, s, event);
    forall id | id in u.matched && id in u.executions ensures MatchedOfJob(u, id) {
      StepMatchedOfJob(leaseMs, s, event, id);
    }
    forall id | id in u.executions && u.executions[id].parent.Some? ensures HasEndedParent(u, id) {
      StepParent(leaseMs, s, event, id);
    }
  }

  // ----- While nobody edits a trigger -----

  ghost predicate NoEdits(events: seq<E.Event>) {
    forall i :: 0 <= i < |events| ==> !EditsTriggers(events[i])
  }

  // The trigger that made an execution the child of another
  ghost predicate SpawnedBy(s: E.State, t: E.TriggerId, parent: E.ExecId, child: E.ExecId) {
    && parent in s.executions && child in s.executions && s.executions[child].parent == Some(parent)
    && t in s.triggers && s.triggers[t].enabled
    && s.triggers[t].source == s.executions[parent].job.id && s.triggers[t].target == s.executions[child].job.id
    && E.TriggerEvent(t, parent) in s.settled && s.settled[E.TriggerEvent(t, parent)] == E.QueuedAs(child)
  }

  lemma SettledStays(leaseMs: nat, s: E.State, event: E.Event, e: E.TriggerEvent)
    requires !EditsTriggers(event) && e in s.settled
    ensures e in E.Step(leaseMs, s, event).settled && E.Step(leaseMs, s, event).settled[e] == s.settled[e]
  {
    hide E.Enqueue, E.Claim, E.Heartbeat, E.Reap, E.RequestCancel, E.Finish, E.Dispatch, E.UpdatePolicy;
    match event
    case Enqueued(id, request) => EnqueueTables(s, id, request);
    case Claimed(worker, id, checked, claimed, recorded) => ClaimSettled(leaseMs, s, worker, id, checked, claimed, recorded);
    case Beat(worker) => HeartbeatTables(leaseMs, s, worker);
    case Reaped(ids) => ReapTables(s, ids);
    case CancelRequested(id) => CancelTables(s, id);
    case Finished(id, status, error) => FinishTables(s, id, status, error);
    case Dispatched(pending, child, target) => DispatchTables(s, pending, child, target);
    case PolicyUpdated(queue, patch, expectedVersion) => PolicyTables(s, queue, patch, expectedVersion);
    case _ =>
  }

  lemma ClaimSettled(leaseMs: nat, s: E.State, worker: E.WorkerId, id: E.ExecId, checked: E.Time, claimed: E.Time, recorded: E.Time)
    ensures E.Claim(s, leaseMs, worker, id, checked, claimed, recorded).settled == s.settled
  {
    hide E.Eligible, E.Window, E.StartsCount, E.Starts;
  }

  lemma SpawnedStays(leaseMs: nat, s: E.State, event: E.Event, t: E.TriggerId, parent: E.ExecId, child: E.ExecId)
    requires Outbox.OutboxExact(s) && !EditsTriggers(event) && SpawnedBy(s, t, parent, child)
    ensures SpawnedBy(E.Step(leaseMs, s, event), t, parent, child)
  {
    TriggersKept(leaseMs, s, event);
    SettledStays(leaseMs, s, event, E.TriggerEvent(t, parent));
    Laws.StepEvolves(leaseMs, s, event);
    hide E.Step, Outbox.OutboxExact;
    var u := E.Step(leaseMs, s, event);
    assert Laws.RowEvolves(s.executions[parent], u.executions[parent]) && Laws.RowEvolves(s.executions[child], u.executions[child]);
  }

  lemma SpawnedNow(leaseMs: nat, s: E.State, event: E.Event, child: E.ExecId)
    requires Outbox.OutboxExact(s) && Related(s) && child !in s.executions
    requires child in E.Step(leaseMs, s, event).executions && E.Step(leaseMs, s, event).executions[child].parent.Some?
    ensures event.Dispatched?
    ensures SpawnedBy(E.Step(leaseMs, s, event), event.event.trigger, event.event.source, child)
  {
    NewRowOf(leaseMs, s, event, child);
    SpawnsTarget(s, event.event, child, event.target);
    EventIsOfJob(s, event.event);
    Laws.StepEvolves(leaseMs, s, event);
    DispatchTables(s, event.event, child, event.target);
    hide Outbox.OutboxExact, E.Dispatch, E.Spawns;
    var u := E.Step(leaseMs, s, event);
    assert Laws.RowEvolves(s.executions[event.event.source], u.executions[event.event.source]);
  }

  // Every child that appeared since was started by a trigger of its parent's job that is enabled
  lemma {:induction false} ChildrenAreSpawned(leaseMs: nat, before: seq<E.Event>, more: seq<E.Event>, child: E.ExecId)
    returns (t: E.TriggerId)
    requires NoEdits(more) && child !in E.After(leaseMs, before).executions
    requires child in E.After(leaseMs, before + more).executions && E.After(leaseMs, before + more).executions[child].parent.Some?
    ensures var s := E.After(leaseMs, before + more); SpawnedBy(s, t, s.executions[child].parent.value, child)
    decreases |more|
  {
    t := "";
    NothingMore(before, more);
    if more != [] {
      var less, event := more[..|more| - 1], more[|more| - 1];
      assert before + more == before + less + [event];
      AfterAppend(leaseMs, before + less, event);
      Outbox.AlwaysExact(leaseMs, before + less);
      AlwaysRelated(leaseMs, before + less);
      var s := E.After(leaseMs, before + less);
      Laws.StepEvolves(leaseMs, s, event);
      hide E.After, E.Step, Outbox.OutboxExact, Related, SpawnedBy;
      if child in s.executions {
        SameParent(s, E.Step(leaseMs, s, event), child);
        t := ChildrenAreSpawned(leaseMs, before, less, child);
        SpawnedStays(leaseMs, s, event, t, s.executions[child].parent.value, child);
      } else {
        SpawnedNow(leaseMs, s, event, child);
        SpawnedParent(E.Step(leaseMs, s, event), event.event.trigger, event.event.source, child);
        t := event.event.trigger;
      }
    }
  }

  lemma SameParent(s: E.State, u: E.State, child: E.ExecId)
    requires Laws.Evolves(s, u) && child in s.executions
    ensures child in u.executions && u.executions[child].parent == s.executions[child].parent
  {
    assert Laws.RowEvolves(s.executions[child], u.executions[child]);
  }

  lemma SpawnedParent(s: E.State, t: E.TriggerId, parent: E.ExecId, child: E.ExecId)
    requires SpawnedBy(s, t, parent, child)
    ensures child in s.executions && s.executions[child].parent == Some(parent)
  {
  }

  lemma NothingMore(before: seq<E.Event>, more: seq<E.Event>)
    ensures more == [] ==> before + more == before
  {
  }

  lemma {:induction false} TriggersUnedited(leaseMs: nat, before: seq<E.Event>, more: seq<E.Event>)
    requires NoEdits(more)
    ensures E.After(leaseMs, before + more).triggers == E.After(leaseMs, before).triggers
    decreases |more|
  {
    if more == [] {
      assert before + more == before;
    } else {
      var less, event := more[..|more| - 1], more[|more| - 1];
      TriggersUnedited(leaseMs, before, less);
      assert before + more == before + less + [event];
      AfterAppend(leaseMs, before + less, event);
      Outbox.AlwaysExact(leaseMs, before + less);
      hide E.After, E.Step, Outbox.OutboxExact;
      TriggersKept(leaseMs, E.After(leaseMs, before + less), event);
    }
  }

  // A child's job is a target of its parent's job in the chain graph
  lemma ChildFollowsChain(jobs: set<Id>, rows: seq<Trigger>, s: E.State, t: E.TriggerId, parent: E.ExecId, child: E.ExecId)
    requires s.triggers == Stored(rows) && SpawnedBy(s, t, parent, child)
    ensures Edge(ChainGraph(jobs, rows), s.executions[parent].job.id, s.executions[child].job.id)
  {
    var i := StoredFrom(rows, t);
    ChainEdges(jobs, rows, s.executions[parent].job.id, s.executions[child].job.id);
    assert IsLink(rows[i]);
  }

  // ----- Chains of parents -----

  // Each execution is the parent of the next, and all but the first appeared since
  ghost predicate ParentChain(leaseMs: nat, before: seq<E.Event>, s: E.State, chain: seq<E.ExecId>) {
    && chain != [] && (forall i :: 0 <= i < |chain| ==> chain[i] in s.executions)
    && (forall i :: 0 < i < |chain| ==> chain[i] !in E.After(leaseMs, before).executions)
    && (forall i, j {:trigger chain[i], chain[j]} :: 0 <= i && j == i + 1 && j < |chain| ==> s.executions[chain[j]].parent == Some(chain[i]))
  }

  function JobsOf(s: E.State, chain: seq<E.ExecId>): seq<Id>
    requires forall i :: 0 <= i < |chain| ==> chain[i] in s.executions
  {
    seq(|chain|, i requires 0 <= i < |chain| => s.executions[chain[i]].job.id)
  }

  // The edited chains, and the transactions since nobody edits any more
  ghost predicate Settled(jobs: set<Id>, rows: seq<Trigger>, leaseMs: nat, before: seq<E.Event>, more: seq<E.Event>) {
    Sound(jobs, rows) && E.After(leaseMs, before).triggers == Stored(rows) && NoEdits(more)
  }

  lemma ParentChainIsPath(
    jobs: set<Id>, rows: seq<Trigger>, leaseMs: nat, before: seq<E.Event>, more: seq<E.Event>, chain: seq<E.ExecId>)
    requires Settled(jobs, rows, leaseMs, before, more) && ParentChain(leaseMs, before, E.After(leaseMs, before + more), chain)
    ensures IsPath(ChainGraph(jobs, rows), JobsOf(E.After(leaseMs, before + more), chain))
  {
    var s := E.After(leaseMs, before + more);
    TriggersUnedited(leaseMs, before, more);
    hide E.After, ChainGraph, Sound, SpawnedBy;
    var path := JobsOf(s, chain);
    forall i, j | 0 <= i && j == i + 1 && j < |path| ensures Edge(ChainGraph(jobs, rows), path[i], path[j]) {
      assert s.executions[chain[j]].parent == Some(chain[i]);
      var t := ChildrenAreSpawned(leaseMs, before, more, chain[j]);
      ChildFollowsChain(jobs, rows, s, t, chain[i], chain[j]);
    }
  }

  // As long as nobody edits a trigger, no chain of parents and children visits a job twice
  lemma ParentChainsVisitDistinctJobs(
    jobs: set<Id>, rows: seq<Trigger>, leaseMs: nat, before: seq<E.Event>, more: seq<E.Event>, chain: seq<E.ExecId>)
    requires Settled(jobs, rows, leaseMs, before, more) && ParentChain(leaseMs, before, E.After(leaseMs, before + more), chain)
    ensures Distinct(JobsOf(E.After(leaseMs, before + more), chain))
  {
    ParentChainIsPath(jobs, rows, leaseMs, before, more, chain);
    var g, path := ChainGraph(jobs, rows), JobsOf(E.After(leaseMs, before + more), chain);
    assert !Cyclic(g);
    hide ChainGraph, E.After, JobsOf, Sound;
    AcyclicPathIsDistinct(g, path);
  }

  lemma AcyclicPathIsDistinct(g: Graph, path: seq<Id>)
    requires !Cyclic(g) && IsPath(g, path)
    ensures Distinct(path)
  {
    forall i, j | 0 <= i < j < |path| ensures path[i] != path[j] {
      SubPath(g, path, i, j);
      var cut := path[i..j + 1];
      assert cut[0] == cut[|cut| - 1] ==> ClosedPath(g, cut);
    }
  }

  // ----- The size of a cascade -----

  // How many executions the end of one of a job can lead to, itself included; k bounds its depth
  ghost function Size(g: Graph, a: Id, k: nat): nat
    decreases k, 1, 0
  {
    if k == 0 || a !in g then 1 else 1 + Sizes(g, g[a], k - 1)
  }

  ghost function Sizes(g: Graph, targets: seq<Id>, k: nat): nat
    decreases k, 2, |targets|
  {
    if targets == [] then 0 else Sizes(g, targets[..|targets| - 1], k) + Size(g, targets[|targets| - 1], k)
  }

  // The size of a job does not depend on the bound once the bound covers its depth
  lemma {:induction false} SizeStable(g: Graph, a: Id, j: nat, k: nat)
    requires a in Below(g, j) && j <= k
    ensures Size(g, a, j) == Size(g, a, k)
    decreases j, 1, 0
  {
    SizesStable(g, g[a], j - 1, k - 1);
  }

  lemma {:induction false} SizesStable(g: Graph, targets: seq<Id>, j: nat, k: nat)
    requires (forall b :: b in targets ==> b in Below(g, j)) && j <= k
    ensures Sizes(g, targets, j) == Sizes(g, targets, k)
    decreases j, 2, |targets|
  {
    if targets != [] {
      SizesStable(g, targets[..|targets| - 1], j, k);
      SizeStable(g, targets[|targets| - 1], j, k);
    }
  }

  lemma {:induction false} SizesCover(g: Graph, targets: seq<Id>, b: Id, k: nat)
    requires b in targets
    ensures Size(g, b, k) <= Sizes(g, targets, k)
  {
    if targets[|targets| - 1] != b {
      assert targets == targets[..|targets| - 1] + [targets[|targets| - 1]];
      SizesCover(g, targets[..|targets| - 1], b, k);
    }
  }

  // Along every parent link the size drops: what a child can still lead to is strictly less
  lemma EndLowersSize(
    jobs: set<Id>, rows: seq<Trigger>, s: E.State, t: E.TriggerId, parent: E.ExecId, child: E.ExecId, k: nat)
    requires s.triggers == Stored(rows) && SpawnedBy(s, t, parent, child)
    requires Below(ChainGraph(jobs, rows), k) == ChainGraph(jobs, rows).Keys
    ensures var g := ChainGraph(jobs, rows);
      Size(g, s.executions[child].job.id, k) < Size(g, s.executions[parent].job.id, k)
  {
    var g, a, b := ChainGraph(jobs, rows), s.executions[parent].job.id, s.executions[child].job.id;
    ChildFollowsChain(jobs, rows, s, t, parent, child);
    hide ChainGraph, SpawnedBy;
    assert a in Below(g, k) && b in Below(g, k - 1);
    SizeStable(g, b, k - 1, k);
    SizesCover(g, g[a], b, k - 1);
  }

  // The child a chain gave an execution, if it gave it one
  ghost predicate Bears(s: E.State, row: Trigger, parent: E.ExecId) {
    var event := E.TriggerEvent(row.id, parent);
    && IsLink(row) && parent in s.executions && row.source == s.executions[parent].job.id
    && event in s.settled && s.settled[event].QueuedAs?
    && s.settled[event].child in s.executions && s.executions[s.settled[event].child].job.id == row.target
  }

  // An execution and what it led to, k generations deep
  ghost function Tree(s: E.State, rows: seq<Trigger>, x: E.ExecId, k: nat): set<E.ExecId>
    decreases k, 1, 0
  {
    {x} + if k == 0 then {} else Branches(s, rows, rows, x, k - 1)
  }

  ghost function Branches(s: E.State, rows: seq<Trigger>, some: seq<Trigger>, x: E.ExecId, k: nat): set<E.ExecId>
    decreases k, 2, |some|
  {
    if some == [] then {}
    else
      var less, row := Branches(s, rows, some[..|some| - 1], x, k), some[|some| - 1];
      if Bears(s, row, x) then less + Tree(s, rows, s.settled[E.TriggerEvent(row.id, x)].child, k) else less
  }

  function Entries(g: Graph, a: Id): seq<Id> {
    if a in g then g[a] else []
  }

  lemma ChainEntries(jobs: set<Id>, some: seq<Trigger>, a: Id)
    requires some != []
    ensures var row := some[|some| - 1];
      Entries(ChainGraph(jobs, some), a) ==
        Entries(ChainGraph(jobs, some[..|some| - 1]), a) + if IsLink(row) && row.source == a then [row.target] else []
  {
  }

  lemma UnionSize(a: set<E.ExecId>, b: set<E.ExecId>)
    ensures |a + b| <= |a| + |b|
  {
    assert a + b == a + (b - a);
    assert b == (b - a) + (b * a);
  }

  lemma {:induction false} TreeIsSmall(jobs: set<Id>, rows: seq<Trigger>, s: E.State, x: E.ExecId, k: nat)
    requires x in s.executions
    ensures |Tree(s, rows, x, k)| <= Size(ChainGraph(jobs, rows), s.executions[x].job.id, k)
    decreases k, 1, 0
  {
    hide ChainGraph;
    if k > 0 {
      BranchesAreSmall(jobs, rows, rows, s, x, k - 1);
      UnionSize({x}, Branches(s, rows, rows, x, k - 1));
    }
  }

  lemma {:induction false} BranchesAreSmall(
    jobs: set<Id>, rows: seq<Trigger>, some: seq<Trigger>, s: E.State, x: E.ExecId, k: nat)
    requires x in s.executions
    ensures |Branches(s, rows, some, x, k)| <=
      Sizes(ChainGraph(jobs, rows), Entries(ChainGraph(jobs, some), s.executions[x].job.id), k)
    decreases k, 2, |some|
  {
    if some != [] {
      var less, row := some[..|some| - 1], some[|some| - 1];
      BranchesAreSmall(jobs, rows, less, s, x, k);
      ChainEntries(jobs, some, s.executions[x].job.id);
      hide ChainGraph, Entries;
      if Bears(s, row, x) {
        var child := s.settled[E.TriggerEvent(row.id, x)].child;
        TreeIsSmall(jobs, rows, s, child, k);
        UnionSize(Branches(s, rows, less, x, k), Tree(s, rows, child, k));
        var entries := Entries(ChainGraph(jobs, less), s.executions[x].job.id);
        assert (entries + [row.target])[..|entries|] == entries;
      } else {
        SizesMore(ChainGraph(jobs, rows), Entries(ChainGraph(jobs, less), s.executions[x].job.id), row.target, k);
        assert Entries(ChainGraph(jobs, less), s.executions[x].job.id) + [] == Entries(ChainGraph(jobs, less), s.executions[x].job.id);
      }
    }
  }

  lemma SizesMore(g: Graph, targets: seq<Id>, b: Id, k: nat)
    ensures Sizes(g, targets, k) <= Sizes(g, targets + [b], k)
  {
    assert (targets + [b])[..|targets|] == targets;
  }

  lemma {:induction false} BranchHolds(s: E.State, rows: seq<Trigger>, some: seq<Trigger>, i: nat, x: E.ExecId, k: nat)
    requires i < |some| && Bears(s, some[i], x)
    ensures Tree(s, rows, s.settled[E.TriggerEvent(some[i].id, x)].child, k) <= Branches(s, rows, some, x, k)
    decreases |some|
  {
    hide Tree;
    if i < |some| - 1 {
      BranchHolds(s, rows, some[..|some| - 1], i, x, k);
    }
  }

  // Every link of a chain of parents was made by a trigger
  ghost predicate AllSpawned(s: E.State, chain: seq<E.ExecId>) {
    forall i, j {:trigger chain[i], chain[j]} :: 0 <= i && j == i + 1 && j < |chain| ==> WasSpawned(s, chain[i], chain[j])
  }

  ghost predicate WasSpawned(s: E.State, parent: E.ExecId, child: E.ExecId) {
    exists t :: SpawnedBy(s, t, parent, child)
  }

  lemma SpawnedIsBorne(rows: seq<Trigger>, s: E.State, parent: E.ExecId, child: E.ExecId) returns (i: nat)
    requires s.triggers == Stored(rows) && WasSpawned(s, parent, child)
    ensures i < |rows| && Bears(s, rows[i], parent) && s.settled[E.TriggerEvent(rows[i].id, parent)].child == child
  {
    var t :| SpawnedBy(s, t, parent, child);
    i := StoredFrom(rows, t);
  }

  lemma {:induction false} TreeHolds(rows: seq<Trigger>, s: E.State, chain: seq<E.ExecId>, k: nat)
    requires s.triggers == Stored(rows) && chain != [] && AllSpawned(s, chain) && |chain| <= k + 1
    ensures chain[|chain| - 1] in Tree(s, rows, chain[0], k)
    decreases |chain|
  {
    if |chain| > 1 {
      assert WasSpawned(s, chain[0], chain[1]);
      hide WasSpawned, Stored;
      var i := SpawnedIsBorne(rows, s, chain[0], chain[1]);
      TreeHolds(rows, s, chain[1..], k - 1);
      BranchHolds(s, rows, rows, i, chain[0], k - 1);
    }
  }

  // y came of x: through some chain of parents
  ghost predicate Descends(leaseMs: nat, before: seq<E.Event>, s: E.State, x: E.ExecId, y: E.ExecId) {
    exists chain :: ParentChain(leaseMs, before, s, chain) && chain[0] == x && chain[|chain| - 1] == y
  }

  lemma ChainWasSpawned(leaseMs: nat, before: seq<E.Event>, more: seq<E.Event>, chain: seq<E.ExecId>)
    requires NoEdits(more) && ParentChain(leaseMs, before, E.After(leaseMs, before + more), chain)
    ensures AllSpawned(E.After(leaseMs, before + more), chain)
  {
    var s := E.After(leaseMs, before + more);
    hide E.After, SpawnedBy;
    forall i, j | 0 <= i && j == i + 1 && j < |chain| ensures WasSpawned(s, chain[i], chain[j]) {
      assert s.executions[chain[j]].parent == Some(chain[i]);
      var t := ChildrenAreSpawned(leaseMs, before, more, chain[j]);
    }
  }

  lemma DescendantInTree(
    jobs: set<Id>, rows: seq<Trigger>, leaseMs: nat, before: seq<E.Event>, more: seq<E.Event>, x: E.ExecId, y: E.ExecId, k: nat)
    requires Settled(jobs, rows, leaseMs, before, more) && Descends(leaseMs, before, E.After(leaseMs, before + more), x, y)
    requires Below(ChainGraph(jobs, rows), k) == ChainGraph(jobs, rows).Keys
    ensures y in Tree(E.After(leaseMs, before + more), rows, x, k)
  {
    var s := E.After(leaseMs, before + more);
    var chain :| ParentChain(leaseMs, before, s, chain) && chain[0] == x && chain[|chain| - 1] == y;
    ParentChainIsPath(jobs, rows, leaseMs, before, more, chain);
    TriggersUnedited(leaseMs, before, more);
    hide E.After, ChainGraph, Sound, Tree, AllSpawned;
    ChainWasSpawned(leaseMs, before, more, chain);
    PathFits(ChainGraph(jobs, rows), JobsOf(s, chain), k);
    TreeHolds(rows, s, chain, k);
  }

  lemma PathFits(g: Graph, path: seq<Id>, k: nat)
    requires IsPath(g, path) && Below(g, k) == g.Keys
    ensures |path| <= k + 1
  {
    if |path| > 1 {
      assert Edge(g, path[0], path[1]);
      BelowStaysInside(g, path, k);
    }
  }

  // However long the run goes on, one execution leads to no more executions than the size of its job in the
  // graph of enabled chains, itself included
  lemma CascadesEnd(
    jobs: set<Id>, rows: seq<Trigger>, leaseMs: nat, before: seq<E.Event>, more: seq<E.Event>,
    x: E.ExecId, cascade: set<E.ExecId>, k: nat)
    requires Settled(jobs, rows, leaseMs, before, more) && x in E.After(leaseMs, before + more).executions
    requires forall y :: y in cascade ==> Descends(leaseMs, before, E.After(leaseMs, before + more), x, y)
    requires Below(ChainGraph(jobs, rows), k) == ChainGraph(jobs, rows).Keys
    ensures |cascade| <= Size(ChainGraph(jobs, rows), E.After(leaseMs, before + more).executions[x].job.id, k)
  {
    var s := E.After(leaseMs, before + more);
    hide E.After, ChainGraph, Tree, Descends, Settled, Below, Size;
    forall y | y in cascade ensures y in Tree(s, rows, x, k) {
      DescendantInTree(jobs, rows, leaseMs, before, more, x, y, k);
    }
    TreeIsSmall(jobs, rows, s, x, k);
    Laws.SubsetSize(cascade, Tree(s, rows, x, k));
  }

  // The executions one execution led to while nobody edited a trigger
  ghost predicate IsCascade(
    jobs: set<Id>, rows: seq<Trigger>, leaseMs: nat, before: seq<E.Event>, more: seq<E.Event>, x: E.ExecId,
    cascade: set<E.ExecId>) {
    && Settled(jobs, rows, leaseMs, before, more) && x in E.After(leaseMs, before + more).executions
    && forall y :: y in cascade ==> Descends(leaseMs, before, E.After(leaseMs, before + more), x, y)
  }

  lemma DepthExists(jobs: set<Id>, rows: seq<Trigger>)
    requires Sound(jobs, rows)
    ensures exists k: nat :: Below(ChainGraph(jobs, rows), k) == ChainGraph(jobs, rows).Keys
  {
    ChainKeys(jobs, rows);
    EveryNodeHasDepth(ChainGraph(jobs, rows), 0);
  }

  // So the chains and the job alone bound every cascade, in every run
  lemma CascadesAreBounded(jobs: set<Id>, rows: seq<Trigger>, job: Id) returns (bound: nat)
    requires Sound(jobs, rows)
    ensures forall leaseMs, before, more, x, cascade ::
      IsCascade(jobs, rows, leaseMs, before, more, x, cascade) && E.After(leaseMs, before + more).executions[x].job.id == job ==>
        |cascade| <= bound
  {
    DepthExists(jobs, rows);
    var k: nat :| Below(ChainGraph(jobs, rows), k) == ChainGraph(jobs, rows).Keys;
    bound := Size(ChainGraph(jobs, rows), job, k);
    hide E.After, ChainGraph, Descends, Settled, Below, Size;
    forall leaseMs, before, more, x, cascade |
      IsCascade(jobs, rows, leaseMs, before, more, x, cascade) && E.After(leaseMs, before + more).executions[x].job.id == job
      ensures |cascade| <= bound
    {
      CascadesEnd(jobs, rows, leaseMs, before, more, x, cascade, k);
    }
  }

  // And a cascade holds every child there is of an execution that had not ended when the edits stopped
  lemma {:induction false} CascadeIsWhole(
    leaseMs: nat, before: seq<E.Event>, more: seq<E.Event>, x: E.ExecId, chain: seq<E.ExecId>)
    requires x in E.After(leaseMs, before).executions ==> !E.After(leaseMs, before).executions[x].status.Terminal()
    requires chain != [] && chain[0] == x
    requires forall i :: 0 <= i < |chain| ==> chain[i] in E.After(leaseMs, before + more).executions
    requires forall i, j {:trigger chain[i], chain[j]} :: 0 <= i && j == i + 1 && j < |chain| ==>
      E.After(leaseMs, before + more).executions[chain[j]].parent == Some(chain[i])
    ensures Descends(leaseMs, before, E.After(leaseMs, before + more), x, chain[|chain| - 1])
  {
    var s, u := E.After(leaseMs, before), E.After(leaseMs, before + more);
    AlwaysRelated(leaseMs, before);
    RunEvolves(leaseMs, before, more);
    hide E.After;
    var n := 1;
    while n < |chain|
      invariant 1 <= n <= |chain|
      invariant forall i :: 0 < i < n ==> chain[i] !in s.executions
    {
      if chain[n] in s.executions {
        assert Laws.RowEvolves(s.executions[chain[n]], u.executions[chain[n]]);
        assert u.executions[chain[n]].parent == Some(chain[n - 1]);
        assert HasEndedParent(s, chain[n]);
      }
      n := n + 1;
    }
    assert ParentChain(leaseMs, before, u, chain);
  }

  lemma {:induction false} RunEvolves(leaseMs: nat, before: seq<E.Event>, more: seq<E.Event>)
    ensures Laws.Evolves(E.After(leaseMs, before), E.After(leaseMs, before + more))
    decreases |more|
  {
    if more == [] {
      assert before + more == before;
      Laws.QuietSelf(E.After(leaseMs, before));
    } else {
      var less, event := more[..|more| - 1], more[|more| - 1];
      RunEvolves(leaseMs, before, less);
      assert before + more == before + less + [event];
      AfterAppend(leaseMs, before + less, event);
      Laws.StepEvolves(leaseMs, E.After(leaseMs, before + less), event);
      hide E.After, E.Step;
      Ends.EvolvesTwice(E.After(leaseMs, before), E.After(leaseMs, before + less), E.After(leaseMs, before + more));
    }
  }
}
