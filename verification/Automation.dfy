/**
 * Job chains (src/repositories/AutomationRepository.ts): triggers that start one job when another
 * ends, and the cycle check of their edits.
 */
module Automation {
  import opened Wrappers
  import opened Graph
  import opened JobGraph
  import E = Executions

  type TriggerId = E.TriggerId

  datatype Trigger =
    | WebhookTrigger(id: TriggerId, target: Id, enabled: bool)
    | ChainTrigger(id: TriggerId, target: Id, enabled: bool, source: Id, statuses: set<E.Status>)

  // ----- The graph of the enabled chains -----

  predicate IsLink(row: Trigger) {
    row.ChainTrigger? && row.enabled
  }

  // One entry per enabled chain: from the job that ends to the job that starts
  function ChainGraph(jobs: set<Id>, rows: seq<Trigger>): Graph {
    if rows == [] then map j | j in jobs :: []
    else
      var g, row := ChainGraph(jobs, rows[..|rows| - 1]), rows[|rows| - 1];
      if IsLink(row) then Push(g, row.source, row.target) else g
  }

  lemma {:induction false} ChainEdges(jobs: set<Id>, rows: seq<Trigger>, a: Id, b: Id)
    ensures Edge(ChainGraph(jobs, rows), a, b) <==>
      exists i :: 0 <= i < |rows| && rows[i].ChainTrigger? && rows[i].enabled && rows[i].source == a && rows[i].target == b
  {
    if rows != [] {
      var less, row := rows[..|rows| - 1], rows[|rows| - 1];
      ChainEdges(jobs, less, a, b);
      if i :| 0 <= i < |less| && IsLink(less[i]) && less[i].source == a && less[i].target == b {
        assert rows[i] == less[i];
      }
      if i :| 0 <= i < |rows| && IsLink(rows[i]) && rows[i].source == a && rows[i].target == b {
        if i < |less| {
          assert less[i] == rows[i];
        }
      }
    }
  }

  lemma {:induction false} ChainKeys(jobs: set<Id>, rows: seq<Trigger>)
    requires forall i :: 0 <= i < |rows| ==> Known(jobs, rows[i])
    ensures ChainGraph(jobs, rows).Keys == jobs && Resolved(ChainGraph(jobs, rows))
  {
    forall a, b { ChainEdges(jobs, rows, a, b); }
    ChainKeysOnly(jobs, rows);
  }

  lemma {:induction false} ChainKeysOnly(jobs: set<Id>, rows: seq<Trigger>)
    requires forall i :: 0 <= i < |rows| ==> Known(jobs, rows[i])
    ensures ChainGraph(jobs, rows).Keys == jobs
  {
    if rows != [] {
      assert forall i :: 0 <= i < |rows| - 1 ==> rows[..|rows| - 1][i] == rows[i];
      ChainKeysOnly(jobs, rows[..|rows| - 1]);
    }
  }

  // assertJob, for both ends
  predicate Known(jobs: set<Id>, row: Trigger) {
    row.target in jobs && (row.ChainTrigger? ==> row.source in jobs)
  }

  // Adding one edge a -> b closes a cycle exactly when b reached a
  lemma NewEdgeCyclic(g: Graph, h: Graph, a: Id, b: Id)
    requires !Cyclic(g) && forall x, y :: Edge(h, x, y) <==> Edge(g, x, y) || (x == a && y == b)
    ensures Cyclic(h) <==> Reach(g, b, a)
  {
    var g' := if a in g then g else g[a := []];
    assert forall x, y :: Edge(g', x, y) <==> Edge(g, x, y);
    FewerEdgesAcyclic(g, g');
    WithEdgeCyclic(g', a, b);
    SameReach(g, g', b, a);
    assert forall x, y :: Edge(WithEdge(g', a, b), x, y) <==> Edge(h, x, y);
    SameCyclic(WithEdge(g', a, b), h);
  }

  lemma SameReach(g: Graph, h: Graph, a: Id, b: Id)
    requires forall x, y :: Edge(h, x, y) <==> Edge(g, x, y)
    ensures Reach(h, a, b) <==> Reach(g, a, b)
  {
    forall p ensures PathFromTo(h, p, a, b) <==> PathFromTo(g, p, a, b) {
    }
  }

  lemma SameCyclic(g: Graph, h: Graph)
    requires forall x, y :: Edge(h, x, y) <==> Edge(g, x, y)
    ensures Cyclic(h) <==> Cyclic(g)
  {
    forall p ensures ClosedPath(h, p) <==> ClosedPath(g, p) {
    }
  }

  // ----- Edits -----

  function WithoutTrigger(rows: seq<Trigger>, id: TriggerId): seq<Trigger> {
    if rows == [] then []
    else
      var rest := WithoutTrigger(rows[..|rows| - 1], id);
      if rows[|rows| - 1].id == id then rest else rest + [rows[|rows| - 1]]
  }

  lemma {:induction false} WithoutTriggerIsFilter(rows: seq<Trigger>, id: TriggerId)
    ensures forall row :: row in WithoutTrigger(rows, id) <==> row in rows && row.id != id
  {
    if rows != [] {
      assert rows == rows[..|rows| - 1] + [rows[|rows| - 1]];
      WithoutTriggerIsFilter(rows[..|rows| - 1], id);
    }
  }

  // Absent fields are kept; only a chain has statuses
  function Patched(row: Trigger, enabled: Option<bool>, statuses: Option<set<E.Status>>): Trigger {
    var next := if enabled.Some? then row.(enabled := enabled.value) else row;
    if next.ChainTrigger? && statuses.Some? then next.(statuses := statuses.value) else next
  }

  datatype Edit =
    | CreateWebhook(id: TriggerId, target: Id)
    | CreateChain(id: TriggerId, source: Id, target: Id, statuses: set<E.Status>)
    | Update(target: Id, id: TriggerId, enabled: Option<bool>, restated: Option<set<E.Status>>)
    | Delete(target: Id, id: TriggerId)

  datatype EditError = JobNotFound | TriggerNotFound | AutomationCycle

  // A trigger is addressed by its id together with the job it starts
  predicate Has(rows: seq<Trigger>, target: Id, id: TriggerId) {
    exists i :: 0 <= i < |rows| && rows[i].id == id && rows[i].target == target
  }

  function Find(rows: seq<Trigger>, target: Id, id: TriggerId): (i: nat)
    requires Has(rows, target, id)
    ensures i < |rows| && rows[i].id == id && rows[i].target == target
  {
    if rows[|rows| - 1].id == id && rows[|rows| - 1].target == target then |rows| - 1
    else Find(rows[..|rows| - 1], target, id)
  }

  // An edit is refused exactly when it would close a cycle (or names something unknown)
  ghost function AfterEdit(jobs: set<Id>, rows: seq<Trigger>, edit: Edit): Result<seq<Trigger>, EditError> {
    match edit
    case CreateWebhook(id, target) =>
      if target !in jobs then Err(JobNotFound) else Ok(rows + [WebhookTrigger(id, target, true)])
    case CreateChain(id, source, target, statuses) =>
      if target !in jobs || source !in jobs then Err(JobNotFound)
      else
        var next := rows + [ChainTrigger(id, target, true, source, statuses)];
        if Cyclic(ChainGraph(jobs, next)) then Err(AutomationCycle) else Ok(next)
    case Update(target, id, enabled, statuses) =>
      if !Has(rows, target, id) then Err(TriggerNotFound)
      else
        var i := Find(rows, target, id);
        var next := rows[i := Patched(rows[i], enabled, statuses)];
        if Cyclic(ChainGraph(jobs, next)) then Err(AutomationCycle) else Ok(next)
    case Delete(target, id) =>
      if !Has(rows, target, id) then Err(TriggerNotFound) else Ok(WithoutTrigger(rows, id))
  }

  ghost predicate UniqueTriggers(rows: seq<Trigger>) {
    forall i, j :: 0 <= i < j < |rows| ==> rows[i].id != rows[j].id
  }

  predicate AllKnown(jobs: set<Id>, rows: seq<Trigger>) {
    forall i :: 0 <= i < |rows| ==> Known(jobs, rows[i])
  }

  ghost predicate Sound(jobs: set<Id>, rows: seq<Trigger>) {
    UniqueTriggers(rows) && AllKnown(jobs, rows) && !Cyclic(ChainGraph(jobs, rows))
  }

  predicate NewId(rows: seq<Trigger>, id: TriggerId) {
    forall i :: 0 <= i < |rows| ==> rows[i].id != id
  }

  lemma FewerRowsAcyclic(jobs: set<Id>, rows: seq<Trigger>, fewer: seq<Trigger>)
    requires !Cyclic(ChainGraph(jobs, rows))
    requires forall row :: row in fewer && IsLink(row) ==> row in rows
    ensures !Cyclic(ChainGraph(jobs, fewer))
  {
    forall a, b ensures Edge(ChainGraph(jobs, fewer), a, b) ==> Edge(ChainGraph(jobs, rows), a, b) {
      ChainEdges(jobs, fewer, a, b);
      ChainEdges(jobs, rows, a, b);
      if i :| 0 <= i < |fewer| && IsLink(fewer[i]) && fewer[i].source == a && fewer[i].target == b {
        assert fewer[i] in rows;
      }
    }
    FewerEdgesAcyclic(ChainGraph(jobs, rows), ChainGraph(jobs, fewer));
  }

  lemma {:induction false} WithoutTriggerUnique(rows: seq<Trigger>, id: TriggerId)
    requires UniqueTriggers(rows)
    ensures UniqueTriggers(WithoutTrigger(rows, id))
  {
    if rows != [] {
      var rest := rows[..|rows| - 1];
      WithoutTriggerUnique(rest, id);
      WithoutTriggerIsFilter(rest, id);
      forall i | 0 <= i < |WithoutTrigger(rest, id)| ensures WithoutTrigger(rest, id)[i].id != rows[|rows| - 1].id {
        assert WithoutTrigger(rest, id)[i] in rest;
        var k :| 0 <= k < |rest| && rest[k] == WithoutTrigger(rest, id)[i];
        assert rows[k] == rest[k];
      }
    }
  }

  lemma EditKeepsShape(jobs: set<Id>, rows: seq<Trigger>, edit: Edit)
    requires UniqueTriggers(rows) && AllKnown(jobs, rows) && AfterEdit(jobs, rows, edit).Ok?
    requires edit.CreateWebhook? || edit.CreateChain? ==> NewId(rows, edit.id)
    ensures UniqueTriggers(AfterEdit(jobs, rows, edit).value) && AllKnown(jobs, AfterEdit(jobs, rows, edit).value)
  {
    hide ChainGraph, Cyclic, WithoutTrigger;
    if edit.Delete? {
      WithoutTriggerIsFilter(rows, edit.id);
      WithoutTriggerUnique(rows, edit.id);
      hide UniqueTriggers;
      var next := AfterEdit(jobs, rows, edit).value;
      forall i | 0 <= i < |next| ensures Known(jobs, next[i]) {
        assert next[i] in rows;
      }
    }
  }

  lemma EditKeepsSound(jobs: set<Id>, rows: seq<Trigger>, edit: Edit)
    requires Sound(jobs, rows) && AfterEdit(jobs, rows, edit).Ok?
    requires edit.CreateWebhook? || edit.CreateChain? ==> NewId(rows, edit.id)
    ensures Sound(jobs, AfterEdit(jobs, rows, edit).value)
  {
    EditKeepsShape(jobs, rows, edit);
    hide ChainGraph, Cyclic, WithoutTrigger, UniqueTriggers, AllKnown;
    match edit
    case CreateWebhook(id, target) => FewerRowsAcyclic(jobs, rows, AfterEdit(jobs, rows, edit).value);
    case Delete(target, id) =>
      WithoutTriggerIsFilter(rows, id);
      FewerRowsAcyclic(jobs, rows, WithoutTrigger(rows, id));
    case _ =>
  }

  // A session of edits; refused ones change nothing
  ghost function AfterEdits(jobs: set<Id>, edits: seq<Edit>): seq<Trigger> {
    if edits == [] then []
    else
      var rows, edit := AfterEdits(jobs, edits[..|edits| - 1]), edits[|edits| - 1];
      if (edit.CreateWebhook? || edit.CreateChain?) && !NewId(rows, edit.id) then rows
      else
        match AfterEdit(jobs, rows, edit)
        case Ok(next) => next
        case Err(_) => rows
  }

  // Whatever is created, enabled, disabled and deleted, the enabled chains stay acyclic
  lemma {:induction false} AlwaysSound(jobs: set<Id>, edits: seq<Edit>)
    ensures Sound(jobs, AfterEdits(jobs, edits))
  {
    if edits == [] {
      RankedIsAcyclic(ChainGraph(jobs, []), map[]);
    } else {
      var rows, edit := AfterEdits(jobs, edits[..|edits| - 1]), edits[|edits| - 1];
      AlwaysSound(jobs, edits[..|edits| - 1]);
      hide Sound, AfterEdit;
      if (edit.CreateWebhook? || edit.CreateChain? ==> NewId(rows, edit.id)) && AfterEdit(jobs, rows, edit).Ok? {
        EditKeepsSound(jobs, rows, edit);
      }
    }
  }

  // ----- The repository -----

  class AutomationRepository {
    const jobs: set<Id>
    var triggers: seq<Trigger>

    ghost predicate Valid()
      reads this
    {
      Sound(jobs, triggers)
    }

    constructor (jobs: set<Id>)
      ensures Valid() && triggers == [] && this.jobs == jobs
    {
      this.jobs, triggers := jobs, [];
      new;
      RankedIsAcyclic(ChainGraph(jobs, []), map[]);
    }

    // The targets of the enabled chains out of some jobs, one trigger left out
    method TargetsOf(sources: set<Id>, excluded: Option<TriggerId>) returns (targets: set<Id>)
      ensures forall b :: b in targets <==>
        exists i :: 0 <= i < |triggers| && KeptRow(triggers[i], excluded) && triggers[i].source in sources && triggers[i].target == b
    {
      targets := {};
      for i := 0 to |triggers|
        invariant forall b :: b in targets <==>
          exists k :: 0 <= k < i && KeptRow(triggers[k], excluded) && triggers[k].source in sources && triggers[k].target == b
      {
        if KeptRow(triggers[i], excluded) && triggers[i].source in sources {
          targets := targets + {triggers[i].target};
        }
      }
    }

    // The recursive query: everything the target starts, directly or not, must not include the source
    method AssertNoCycle(source: Id, target: Id, excluded: Option<TriggerId>) returns (ok: bool)
      requires AllKnown(jobs, triggers)
      ensures ok <==> !Reach(ChainGraph(jobs, Kept(triggers, excluded)), target, source)
    {
      if source == target {
        ReachSelf(ChainGraph(jobs, Kept(triggers, excluded)), target);
        return false;
      }
      ghost var g := ChainGraph(jobs, Kept(triggers, excluded));
      KeptEdges(jobs, triggers, excluded);
      hide ChainGraph, Kept, Reach, IsLink, KeptRow;
      var reachable: set<Id> := TargetsOf({target}, excluded);
      TargetsReached(jobs, triggers, excluded, target, {target}, reachable);
      var step := TargetsOf(reachable, excluded);
      TargetsReached(jobs, triggers, excluded, target, reachable, step);
      while !(step <= reachable)
        invariant reachable <= jobs && step <= jobs
        invariant forall x :: x in reachable || x in step ==> Reach(g, target, x)
        invariant forall b :: Edge(g, target, b) ==> b in reachable
        invariant forall a, b :: a in reachable && Edge(g, a, b) ==> b in step
        decreases jobs - reachable
      {
        ghost var before := reachable;
        reachable := reachable + step;
        assert jobs - reachable < jobs - before;
        step := TargetsOf(reachable, excluded);
        TargetsReached(jobs, triggers, excluded, target, reachable, step);
      }
      ok := source !in reachable;
      if Reach(g, target, source) {
        ReachStaysInside(g, reachable + {target}, target, source);
      }
    }

    method CreateWebhookTrigger(id: TriggerId, job: Id) returns (r: Result<(), EditError>)
      requires Valid() && NewId(triggers, id)
      modifies this
      ensures Valid() && Outcome(AfterEdit(jobs, old(triggers), CreateWebhook(id, job)), old(triggers), triggers, r)
      ensures if job !in jobs then r == Err(JobNotFound) && triggers == old(triggers)
        else r.Ok? && triggers == old(triggers) + [WebhookTrigger(id, job, true)]
    {
      if job !in jobs {
        return Err(JobNotFound);
      }
      EditKeepsSound(jobs, triggers, CreateWebhook(id, job));
      hide Sound;
      triggers := triggers + [WebhookTrigger(id, job, true)];
      return Ok(());
    }

    // The check and the insertion are one step here
    method CreateChainTrigger(id: TriggerId, job: Id, sourceJob: Id, statuses: set<E.Status>) returns (r: Result<(), EditError>)
      requires Valid() && NewId(triggers, id)
      modifies this
      ensures Valid() && Outcome(AfterEdit(jobs, old(triggers), CreateChain(id, sourceJob, job, statuses)), old(triggers), triggers, r)
      ensures var next := old(triggers) + [ChainTrigger(id, job, true, sourceJob, statuses)];
        if job !in jobs || sourceJob !in jobs then r == Err(JobNotFound) && triggers == old(triggers)
        else if Cyclic(ChainGraph(jobs, next)) then r == Err(AutomationCycle) && triggers == old(triggers)
        else r.Ok? && triggers == next
    {
      if job !in jobs || sourceJob !in jobs {
        return Err(JobNotFound);
      }
      var ok := AssertNoCycle(sourceJob, job, None);
      var row := ChainTrigger(id, job, true, sourceJob, statuses);
      LinkCyclic(jobs, triggers, triggers + [row], row, None);
      if ok {
        EditKeepsSound(jobs, triggers, CreateChain(id, sourceJob, job, statuses));
      }
      hide Sound, Cyclic, ChainGraph, Reach;
      if !ok {
        return Err(AutomationCycle);
      }
      triggers := triggers + [row];
      return Ok(());
    }

    // Only a disabled chain that gets enabled is checked
    method UpdateTrigger(job: Id, id: TriggerId, enabled: Option<bool>, statuses: Option<set<E.Status>>)
      returns (r: Result<(), EditError>)
      requires Valid()
      modifies this
      ensures Valid() && Outcome(AfterEdit(jobs, old(triggers), Update(job, id, enabled, statuses)), old(triggers), triggers, r)
      ensures UpdateTold(jobs, old(triggers), triggers, job, id, enabled, statuses, r)
    {
      if !Has(triggers, job, id) {
        return Err(TriggerNotFound);
      }
      var i := Find(triggers, job, id);
      var current := triggers[i];
      var changed := current;
      if enabled.Some? {
        changed := changed.(enabled := enabled.value);
      }
      if current.ChainTrigger? && statuses.Some? {
        changed := changed.(statuses := statuses.value);
      }
      var next := triggers[i := changed];
      assert Restated(current, changed, enabled, statuses);
      if enabled == Some(true) && current.ChainTrigger? && !current.enabled {
        var ok := AssertNoCycle(current.source, current.target, Some(id));
        LinkCyclic(jobs, triggers, next, changed, Some(id)) by { EnablingAdds(triggers, i, changed); }
        if !ok {
          assert RestatedAt(jobs, triggers, triggers, i, changed, Err(AutomationCycle));
          return Err(AutomationCycle);
        }
      } else {
        OtherwiseFewer(jobs, triggers, i, changed);
      }
      EditKeepsSound(jobs, triggers, Update(job, id, enabled, statuses));
      assert RestatedAt(jobs, triggers, next, i, changed, Ok(()));
      hide Sound, Cyclic, ChainGraph, Reach;
      triggers := next;
      return Ok(());
    }

    method DeleteTrigger(job: Id, id: TriggerId) returns (r: Result<(), EditError>)
      requires Valid()
      modifies this
      ensures Valid() && Outcome(AfterEdit(jobs, old(triggers), Delete(job, id)), old(triggers), triggers, r)
      ensures if !exists i :: 0 <= i < |old(triggers)| && old(triggers)[i].id == id && old(triggers)[i].target == job
        then r == Err(TriggerNotFound) && triggers == old(triggers)
        else r.Ok? && forall row :: row in triggers <==> row in old(triggers) && row.id != id
    {
      WithoutTriggerIsFilter(triggers, id);
      if !Has(triggers, job, id) {
        return Err(TriggerNotFound);
      }
      EditKeepsSound(jobs, triggers, Delete(job, id));
      hide Sound;
      triggers := WithoutTrigger(triggers, id);
      return Ok(());
    }
  }

  // The mentioned columns of a trigger are set and the others kept; a webhook trigger has no statuses
  ghost predicate Restated(before: Trigger, after: Trigger, enabled: Option<bool>, statuses: Option<set<E.Status>>) {
    && after.id == before.id && after.target == before.target
    && after.enabled == (match enabled case None => before.enabled case Some(value) => value)
    && (before.ChainTrigger? <==> after.ChainTrigger?)
    && (before.ChainTrigger? ==> after.source == before.source)
    && (before.ChainTrigger? ==> after.statuses == match statuses case None => before.statuses case Some(value) => value)
  }

  // The trigger of that id and job is restated, unless there is none or the chains would be cyclic
  ghost predicate UpdateTold(
    jobs: set<Id>, before: seq<Trigger>, after: seq<Trigger>, job: Id, id: TriggerId, enabled: Option<bool>,
    statuses: Option<set<E.Status>>, r: Result<(), EditError>) {
    if !exists i :: 0 <= i < |before| && before[i].id == id && before[i].target == job
    then r == Err(TriggerNotFound) && after == before
    else exists i, row :: (0 <= i < |before| && before[i].id == id && before[i].target == job &&
      Restated(before[i], row, enabled, statuses) && RestatedAt(jobs, before, after, i, row, r))
  }

  ghost predicate RestatedAt(jobs: set<Id>, before: seq<Trigger>, after: seq<Trigger>, i: nat, row: Trigger, r: Result<(), EditError>)
    requires i < |before|
  {
    if Cyclic(ChainGraph(jobs, before[i := row])) then r == Err(AutomationCycle) && after == before
    else r.Ok? && after == before[i := row]
  }

  // A method does what the specification of its edit says: the new rows, or the error and the old rows
  ghost predicate Outcome(
    edited: Result<seq<Trigger>, EditError>, before: seq<Trigger>, after: seq<Trigger>, r: Result<(), EditError>) {
    match edited
    case Ok(rows) => after == rows && r == Ok(())
    case Err(e) => after == before && r == Err(e)
  }

  // What enabling or creating one chain does to the graph, against the check that leaves it out
  lemma LinkCyclic(jobs: set<Id>, rows: seq<Trigger>, next: seq<Trigger>, row: Trigger, excluded: Option<TriggerId>)
    requires Sound(jobs, rows) && IsLink(row)
    requires forall r :: r in next <==> r == row || (r in rows && Some(r.id) != excluded)
    requires forall r :: r in rows && Some(r.id) == excluded ==> !IsLink(r)
    ensures Cyclic(ChainGraph(jobs, next)) <==> Reach(ChainGraph(jobs, Kept(rows, excluded)), row.target, row.source)
  {
    var g, h := ChainGraph(jobs, rows), ChainGraph(jobs, next);
    KeptEdges(jobs, rows, excluded);
    hide ChainGraph, Kept, Reach, Cyclic;
    forall a, b
      ensures Edge(h, a, b) <==> Edge(g, a, b) || (a == row.source && b == row.target)
      ensures Edge(ChainGraph(jobs, Kept(rows, excluded)), a, b) <==> Edge(g, a, b)
    {
      ChainEdges(jobs, rows, a, b);
      ChainEdges(jobs, next, a, b);
      RowEdges(rows, next, row, excluded, a, b);
    }
    NewEdgeCyclic(g, h, row.source, row.target);
    SameReach(g, ChainGraph(jobs, Kept(rows, excluded)), row.target, row.source);
  }

  ghost predicate RowEdge(rows: seq<Trigger>, a: Id, b: Id) {
    exists i :: 0 <= i < |rows| && IsLink(rows[i]) && rows[i].source == a && rows[i].target == b
  }

  lemma RowEdges(rows: seq<Trigger>, next: seq<Trigger>, row: Trigger, excluded: Option<TriggerId>, a: Id, b: Id)
    requires IsLink(row)
    requires forall r :: r in next <==> r == row || (r in rows && Some(r.id) != excluded)
    requires forall r :: r in rows && Some(r.id) == excluded ==> !IsLink(r)
    ensures RowEdge(next, a, b) <==> RowEdge(rows, a, b) || (a == row.source && b == row.target)
    ensures KeptEdge(rows, excluded, a, b) <==> RowEdge(rows, a, b)
  {
    if i :| 0 <= i < |next| && IsLink(next[i]) && next[i].source == a && next[i].target == b {
      assert next[i] in next;
      if next[i] != row {
        var k :| 0 <= k < |rows| && rows[k] == next[i];
      }
    }
    if k :| 0 <= k < |rows| && IsLink(rows[k]) && rows[k].source == a && rows[k].target == b {
      assert rows[k] in rows;
      assert rows[k] in next;
      var i :| 0 <= i < |next| && next[i] == rows[k];
    }
    if a == row.source && b == row.target {
      assert row in next;
      var i :| 0 <= i < |next| && next[i] == row;
    }
  }

  lemma EnablingAdds(rows: seq<Trigger>, i: nat, changed: Trigger)
    requires UniqueTriggers(rows) && i < |rows| && changed.id == rows[i].id
    ensures var next := rows[i := changed];
      forall r :: r in next <==> r == changed || (r in rows && r.id != rows[i].id)
    ensures forall r :: r in rows && r.id == rows[i].id ==> r == rows[i]
  {
    var next := rows[i := changed];
    forall r | r in rows && r.id != rows[i].id ensures r in next {
      var k :| 0 <= k < |rows| && rows[k] == r;
      assert next[k] == r;
    }
    assert next[i] == changed;
    forall r | r in next && r != changed ensures r in rows && r.id != rows[i].id {
      var k :| 0 <= k < |next| && next[k] == r;
      assert rows[k] == r;
    }
  }

  predicate SameLink(row: Trigger, other: Trigger) {
    row.ChainTrigger? && other.ChainTrigger? && row.source == other.source && row.target == other.target
  }

  // A changed row that is no link, or was the same link before, adds none
  lemma OtherwiseFewer(jobs: set<Id>, rows: seq<Trigger>, i: nat, changed: Trigger)
    requires Sound(jobs, rows) && i < |rows|
    requires IsLink(changed) ==> IsLink(rows[i]) && SameLink(changed, rows[i])
    ensures !Cyclic(ChainGraph(jobs, rows[i := changed]))
  {
    var next := rows[i := changed];
    var g, h := ChainGraph(jobs, rows), ChainGraph(jobs, next);
    forall a, b ensures Edge(h, a, b) ==> Edge(g, a, b) {
      ChainEdges(jobs, rows, a, b);
      ChainEdges(jobs, next, a, b);
      if k :| 0 <= k < |next| && IsLink(next[k]) && next[k].source == a && next[k].target == b {
        assert IsLink(rows[k]) && rows[k].source == a && rows[k].target == b;
      }
    }
    FewerEdgesAcyclic(g, h);
  }

  function Kept(rows: seq<Trigger>, excluded: Option<TriggerId>): seq<Trigger> {
    if excluded.Some? then WithoutTrigger(rows, excluded.value) else rows
  }

  predicate KeptRow(row: Trigger, excluded: Option<TriggerId>) {
    IsLink(row) && Some(row.id) != excluded
  }

  ghost predicate KeptEdge(rows: seq<Trigger>, excluded: Option<TriggerId>, a: Id, b: Id) {
    exists i :: 0 <= i < |rows| && KeptRow(rows[i], excluded) && rows[i].source == a && rows[i].target == b
  }

  lemma KeptEdges(jobs: set<Id>, rows: seq<Trigger>, excluded: Option<TriggerId>)
    ensures forall a, b :: Edge(ChainGraph(jobs, Kept(rows, excluded)), a, b) <==> KeptEdge(rows, excluded, a, b)
  {
    var kept := Kept(rows, excluded);
    if excluded.Some? {
      WithoutTriggerIsFilter(rows, excluded.value);
    }
    hide Kept, WithoutTrigger;
    forall a, b ensures Edge(ChainGraph(jobs, kept), a, b) <==> KeptEdge(rows, excluded, a, b) {
      ChainEdges(jobs, kept, a, b);
      if i :| 0 <= i < |kept| && IsLink(kept[i]) && kept[i].source == a && kept[i].target == b {
        assert kept[i] in rows;
        var k :| 0 <= k < |rows| && rows[k] == kept[i];
      }
      if k :| 0 <= k < |rows| && KeptRow(rows[k], excluded) && rows[k].source == a && rows[k].target == b {
        assert rows[k] in kept;
        var i :| 0 <= i < |kept| && kept[i] == rows[k];
      }
    }
  }

  // One step of the recursive query adds only what the target reaches, and all the targets of its sources
  lemma TargetsReached(
    jobs: set<Id>, rows: seq<Trigger>, excluded: Option<TriggerId>, target: Id, sources: set<Id>, targets: set<Id>)
    requires AllKnown(jobs, rows)
    requires forall a, b :: Edge(ChainGraph(jobs, Kept(rows, excluded)), a, b) <==> KeptEdge(rows, excluded, a, b)
    requires forall b :: b in targets <==>
      exists i :: 0 <= i < |rows| && KeptRow(rows[i], excluded) && rows[i].source in sources && rows[i].target == b
    requires forall x :: x in sources ==> Reach(ChainGraph(jobs, Kept(rows, excluded)), target, x) || x == target
    ensures targets <= jobs
    ensures forall x :: x in targets ==> Reach(ChainGraph(jobs, Kept(rows, excluded)), target, x)
    ensures forall a, b :: a in sources && Edge(ChainGraph(jobs, Kept(rows, excluded)), a, b) ==> b in targets
  {
    var g := ChainGraph(jobs, Kept(rows, excluded));
    hide ChainGraph, Kept, Reach;
    forall x | x in targets ensures x in jobs && Reach(g, target, x) {
      var i :| 0 <= i < |rows| && KeptRow(rows[i], excluded) && rows[i].source in sources && rows[i].target == x;
      assert KeptEdge(rows, excluded, rows[i].source, x);
      assert Known(jobs, rows[i]);
      ReachEdge(g, rows[i].source, x);
      ReachSelf(g, target);
      ReachTransitive(g, target, rows[i].source, x);
    }
    forall a, b | a in sources && Edge(g, a, b) ensures b in targets {
      assert KeptEdge(rows, excluded, a, b);
    }
  }
}
