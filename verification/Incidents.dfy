/**
 * Incidents (src/repositories/AttentionRepository.ts): a row per failure fingerprint, updated in
 * place, beside an event log that is only appended to.
 */
module Incidents {
  import opened Wrappers

  datatype Kind = ExecutionFailure | WebhookFailure

  datatype State = Open | Acknowledged | Snoozed | Ignored | Resolved

  datatype Severity = Low | Medium | High | Critical

  datatype Action = Rerun | WebhookRetry | Manual

  // The hashed text of a fingerprint starts with the kind of the failure
  datatype Fingerprint = Fingerprint(kind: Kind, text: string)

  type Time = int

  // The columns the lifecycle is about; every updater sets some of them and relies on the others
  datatype Incident = Incident(
    kind: Kind,
    source: string,
    fingerprint: Fingerprint,
    state: State,
    severity: Severity,
    assignee: Option<string>,
    occurrences: nat,
    snoozedUntil: Option<Time>,
    action: Option<Action>,
    note: Option<string>)

  datatype Event =
    | Opened(severity: Severity)
    | Occurred
    | Reopened                       // a failure came back after resolved or ignored
    | SnoozeExpired                  // logged as 'reopened' with its reason
    | Restored
    | WasAcknowledged
    | WasIgnored
    | WasSnoozed(until: Time)
    | Assigned(user: Option<string>)
    | SeverityChanged(severity: Severity)
    | SeverityIncreased(severity: Severity)
    | WasResolved(action: Action, note: Option<string>)

  // Rows are numbered in the order of their insertion; recorded counts the failures that were recorded
  datatype Table = Table(rows: seq<Incident>, logs: seq<seq<Event>>, recorded: nat)

  const EMPTY := Table([], [], 0)

  // ----- The log, read back -----

  datatype Story = Story(
    state: State, severity: Severity, assignee: Option<string>, occurrences: nat,
    snoozedUntil: Option<Time>, action: Option<Action>, note: Option<string>)

  function Told(story: Story, event: Event): Story {
    match event
    case Opened(severity) => Story(Open, severity, None, 1, None, None, None)
    case Occurred => story.(occurrences := story.occurrences + 1)
    case Reopened => Story(Open, story.severity, story.assignee, story.occurrences + 1, None, None, None)
    case SnoozeExpired => Story(Open, story.severity, story.assignee, story.occurrences, None, None, None)
    case Restored => Story(Open, story.severity, story.assignee, story.occurrences, None, None, None)
    case WasAcknowledged => Story(Acknowledged, story.severity, story.assignee, story.occurrences, None, None, None)
    case WasIgnored => Story(Ignored, story.severity, story.assignee, story.occurrences, None, None, None)
    case WasSnoozed(until) => Story(Snoozed, story.severity, story.assignee, story.occurrences, Some(until), None, None)
    case Assigned(user) => story.(assignee := user)
    case SeverityChanged(severity) => story.(severity := severity)
    case SeverityIncreased(severity) => story.(severity := severity)
    case WasResolved(action, note) =>
      Story(Resolved, story.severity, story.assignee, story.occurrences, None, Some(action), note)
  }

  const NO_STORY := Story(Open, Low, None, 0, None, None, None)

  function Fold(log: seq<Event>): Story {
    if log == [] then NO_STORY else Told(Fold(log[..|log| - 1]), log[|log| - 1])
  }

  function StoryOf(row: Incident): Story {
    Story(row.state, row.severity, row.assignee, row.occurrences, row.snoozedUntil, row.action, row.note)
  }

  // ----- Updates -----

  datatype Failure = Failure(source: string, fingerprint: Fingerprint)

  datatype UpdateError = NotFound | AlreadyResolved | InvalidSnooze | AssigneeNotFound | KindConflict | StateConflict | SourceTaken

  function Write(t: Table, i: nat, row: Incident, event: Event): Table
    requires i < |t.rows| == |t.logs|
  {
    t.(rows := t.rows[i := row], logs := t.logs[i := t.logs[i] + [event]])
  }

  predicate HasFingerprint(rows: seq<Incident>, fingerprint: Fingerprint) {
    exists i :: 0 <= i < |rows| && rows[i].fingerprint == fingerprint
  }

  predicate HasSource(rows: seq<Incident>, kind: Kind, source: string) {
    exists i :: 0 <= i < |rows| && rows[i].kind == kind && rows[i].source == source
  }

  function ByFingerprint(rows: seq<Incident>, fingerprint: Fingerprint): (i: nat)
    requires HasFingerprint(rows, fingerprint)
    ensures i < |rows| && rows[i].fingerprint == fingerprint
  {
    if rows[|rows| - 1].fingerprint == fingerprint then |rows| - 1 else ByFingerprint(rows[..|rows| - 1], fingerprint)
  }

  function BySource(rows: seq<Incident>, kind: Kind, source: string): (i: nat)
    requires HasSource(rows, kind, source)
    ensures i < |rows| && rows[i].kind == kind && rows[i].source == source
  {
    if rows[|rows| - 1].kind == kind && rows[|rows| - 1].source == source then |rows| - 1
    else BySource(rows[..|rows| - 1], kind, source)
  }

  // The row with the failure's fingerprint, or failing that the one with its source
  function Existing(rows: seq<Incident>, failure: Failure): (i: nat)
    requires HasFingerprint(rows, failure.fingerprint) || HasSource(rows, failure.fingerprint.kind, failure.source)
    ensures i < |rows|
  {
    if HasFingerprint(rows, failure.fingerprint) then ByFingerprint(rows, failure.fingerprint)
    else BySource(rows, failure.fingerprint.kind, failure.source)
  }

  function Reopens(row: Incident): bool {
    row.state.Resolved? || row.state.Ignored?
  }

  function Recurred(row: Incident, failure: Failure): Incident {
    var next := row.(source := failure.source, fingerprint := failure.fingerprint, occurrences := row.occurrences + 1);
    if Reopens(row) then next.(state := Open, action := None, note := None, snoozedUntil := None) else next
  }

  // Moving a row to a source another row of its kind has violates UNIQUE (kind, source_id)
  predicate TakenBySomeoneElse(rows: seq<Incident>, i: nat, source: string)
    requires i < |rows|
  {
    exists j :: 0 <= j < |rows| && j != i && rows[j].kind == rows[i].kind && rows[j].source == source
  }

  function UpsertFailure(t: Table, failure: Failure): Result<Table, UpdateError>
    requires |t.rows| == |t.logs|
  {
    if !HasFingerprint(t.rows, failure.fingerprint) && !HasSource(t.rows, failure.fingerprint.kind, failure.source) then
      var severity := if failure.fingerprint.kind.ExecutionFailure? then High else Medium;
      var row := Incident(failure.fingerprint.kind, failure.source, failure.fingerprint, Open, severity, None, 1, None, None, None);
      Ok(Table(t.rows + [row], t.logs + [[Opened(severity)]], t.recorded + 1))
    else
      var i := Existing(t.rows, failure);
      if TakenBySomeoneElse(t.rows, i, failure.source) then Err(SourceTaken)
      else
        var event := if Reopens(t.rows[i]) then Reopened else Occurred;
        Ok(Write(t, i, Recurred(t.rows[i], failure), event).(recorded := t.recorded + 1))
  }

  // changeState: ignore, restore and acknowledge
  function Target(event: Event): State
    requires event.Restored? || event.WasAcknowledged? || event.WasIgnored?
  {
    match event
    case Restored => Open
    case WasAcknowledged => Acknowledged
    case _ => Ignored
  }

  function ChangeState(t: Table, i: nat, event: Event): Result<Table, UpdateError>
    requires |t.rows| == |t.logs| && (event.Restored? || event.WasAcknowledged? || event.WasIgnored?)
  {
    if i >= |t.rows| then Err(NotFound)
    else if t.rows[i].state.Resolved? then Err(AlreadyResolved)
    else if t.rows[i].state == Target(event) then Ok(t)
    else Ok(Write(t, i, t.rows[i].(state := Target(event), action := None, note := None, snoozedUntil := None), event))
  }

  function Snooze(t: Table, i: nat, until: Time, now: Time): Result<Table, UpdateError>
    requires |t.rows| == |t.logs|
  {
    if until <= now then Err(InvalidSnooze)
    else if i >= |t.rows| then Err(NotFound)
    else if t.rows[i].state.Resolved? then Err(AlreadyResolved)
    else Ok(Write(t, i, t.rows[i].(state := Snoozed, snoozedUntil := Some(until), action := None), WasSnoozed(until)))
  }

  function Assign(t: Table, i: nat, user: Option<string>, isActiveUser: bool): Result<Table, UpdateError>
    requires |t.rows| == |t.logs|
  {
    if i >= |t.rows| then Err(NotFound)
    else if user.Some? && !isActiveUser then Err(AssigneeNotFound)
    else Ok(Write(t, i, t.rows[i].(assignee := user), Assigned(user)))
  }

  function Rank(severity: Severity): nat {
    match severity case Low => 1 case Medium => 2 case High => 3 case Critical => 4
  }

  function SetSeverity(t: Table, i: nat, severity: Severity): Result<Table, UpdateError>
    requires |t.rows| == |t.logs|
  {
    if i >= |t.rows| then Err(NotFound)
    else
      var event := if Rank(severity) > Rank(t.rows[i].severity) then SeverityIncreased(severity) else SeverityChanged(severity);
      Ok(Write(t, i, t.rows[i].(severity := severity), event))
  }

  function Resolve(t: Table, i: nat, note: string): Result<Table, UpdateError>
    requires |t.rows| == |t.logs|
  {
    if i >= |t.rows| then Err(NotFound)
    else if t.rows[i].state.Resolved? then Ok(t)
    else Ok(Write(t, i, t.rows[i].(state := Resolved, action := Some(Manual), note := Some(note), snoozedUntil := None), WasResolved(Manual, Some(note))))
  }

  // rerun and retryWebhook: assertRemediable, the remedy itself, updateResolved. The last one touches
  // neither snoozed_until nor the note
  function Remediate(t: Table, i: nat, action: Action, possible: bool): Result<Table, UpdateError>
    requires |t.rows| == |t.logs| && !action.Manual?
  {
    if i >= |t.rows| then Err(NotFound)
    else if t.rows[i].kind != (if action.Rerun? then ExecutionFailure else WebhookFailure) then Err(KindConflict)
    else if !t.rows[i].state.Open? && !t.rows[i].state.Acknowledged? then Err(StateConflict)
    else if !possible then Err(NotFound)
    else Ok(Write(t, i, t.rows[i].(state := Resolved, action := Some(action)), WasResolved(action, None)))
  }

  predicate SnoozeOver(row: Incident, now: Time) {
    row.state.Snoozed? && row.snoozedUntil.Some? && row.snoozedUntil.value <= now
  }

  // expireSnoozes, for the first n rows
  function ExpireSnoozes(t: Table, now: Time, n: nat): (u: Table)
    requires |t.rows| == |t.logs| && n <= |t.rows|
    ensures |u.rows| == |u.logs| == |t.rows|
  {
    if n == 0 then t
    else
      var u := ExpireSnoozes(t, now, n - 1);
      if SnoozeOver(u.rows[n - 1], now) then
        Write(u, n - 1, u.rows[n - 1].(state := Open, snoozedUntil := None), SnoozeExpired)
      else u
  }

  // ----- Agreement of rows and logs -----

  // snoozed_until is set iff snoozed, a resolution action iff resolved, a note iff resolved by hand
  ghost predicate Tidy(row: Incident) {
    && (row.snoozedUntil.Some? <==> row.state.Snoozed?)
    && (row.action.Some? <==> row.state.Resolved?)
    && (row.note.Some? <==> row.action == Some(Manual))
    && row.fingerprint.kind == row.kind
  }

  ghost predicate Agrees(row: Incident, log: seq<Event>) {
    log != [] && log[0].Opened? && Fold(log) == StoryOf(row)
  }

  ghost predicate UniqueFingerprints(rows: seq<Incident>) {
    forall i, j :: 0 <= i < j < |rows| ==> rows[i].fingerprint != rows[j].fingerprint
  }

  ghost predicate UniqueSources(rows: seq<Incident>) {
    forall i, j :: 0 <= i < j < |rows| ==> rows[i].kind != rows[j].kind || rows[i].source != rows[j].source
  }

  function Occurrences(rows: seq<Incident>): nat {
    if rows == [] then 0 else Occurrences(rows[..|rows| - 1]) + rows[|rows| - 1].occurrences
  }

  ghost predicate Consistent(t: Table) {
    && |t.rows| == |t.logs|
    && (forall i :: 0 <= i < |t.rows| ==> Tidy(t.rows[i]) && Agrees(t.rows[i], t.logs[i]))
    && UniqueFingerprints(t.rows) && UniqueSources(t.rows)
    && Occurrences(t.rows) == t.recorded
  }

  lemma {:induction false} OccurrencesUpdate(rows: seq<Incident>, i: nat, row: Incident)
    requires i < |rows|
    ensures Occurrences(rows[i := row]) == Occurrences(rows) - rows[i].occurrences + row.occurrences
  {
    var last := |rows| - 1;
    if i < last {
      OccurrencesUpdate(rows[..last], i, row);
      assert rows[i := row][..last] == rows[..last][i := row];
    } else {
      assert rows[i := row][..last] == rows[..last];
    }
  }

  lemma FoldAppend(log: seq<Event>, event: Event)
    ensures Fold(log + [event]) == Told(Fold(log), event)
  {
    assert (log + [event])[..|log|] == log;
  }

  // Writing a row together with the event that tells of it
  lemma WriteKeeps(t: Table, i: nat, row: Incident, event: Event, recorded: nat)
    requires Consistent(t) && i < |t.rows|
    requires Tidy(row) && Told(StoryOf(t.rows[i]), event) == StoryOf(row)
    requires UniqueFingerprints(t.rows[i := row]) && UniqueSources(t.rows[i := row])
    requires recorded == t.recorded + row.occurrences - t.rows[i].occurrences
    ensures Consistent(Write(t, i, row, event).(recorded := recorded))
  {
    var u := Write(t, i, row, event).(recorded := recorded);
    FoldAppend(t.logs[i], event);
    OccurrencesUpdate(t.rows, i, row);
    assert Agrees(t.rows[i], t.logs[i]);
    assert (t.logs[i] + [event])[0] == t.logs[i][0];
    hide Fold, Told, Occurrences, Tidy;
    forall k | 0 <= k < |u.rows| ensures Tidy(u.rows[k]) && Agrees(u.rows[k], u.logs[k]) {
      if k != i {
        assert Tidy(t.rows[k]) && Agrees(t.rows[k], t.logs[k]);
      }
    }
  }

  // An update that neither moves the row to another source nor records a failure
  lemma UpdateKeeps(t: Table, i: nat, row: Incident, event: Event)
    requires Consistent(t) && i < |t.rows|
    requires Tidy(row) && Told(StoryOf(t.rows[i]), event) == StoryOf(row)
    requires row.fingerprint == t.rows[i].fingerprint && row.kind == t.rows[i].kind && row.source == t.rows[i].source
    requires row.occurrences == t.rows[i].occurrences
    ensures Consistent(Write(t, i, row, event))
  {
    assert UniqueFingerprints(t.rows[i := row]) && UniqueSources(t.rows[i := row]);
    hide Tidy, Told, Consistent;
    WriteKeeps(t, i, row, event, t.recorded);
  }

  lemma RowTidy(t: Table, i: nat)
    requires Consistent(t) && i < |t.rows|
    ensures |t.logs| == |t.rows| && Tidy(t.rows[i])
  {
  }

  lemma ChangeStateKeeps(t: Table, i: nat, event: Event)
    requires Consistent(t) && (event.Restored? || event.WasAcknowledged? || event.WasIgnored?)
    ensures ChangeState(t, i, event).Ok? ==> Consistent(ChangeState(t, i, event).value)
  {
    hide Consistent;
    if i < |t.rows| && !t.rows[i].state.Resolved? && t.rows[i].state != Target(event) {
      RowTidy(t, i);
      UpdateKeeps(t, i, t.rows[i].(state := Target(event), action := None, note := None, snoozedUntil := None), event);
    }
  }

  lemma SnoozeKeeps(t: Table, i: nat, until: Time, now: Time)
    requires Consistent(t)
    ensures Snooze(t, i, until, now).Ok? ==> Consistent(Snooze(t, i, until, now).value)
  {
    hide Consistent;
    if i < |t.rows| && !t.rows[i].state.Resolved? {
      RowTidy(t, i);
      UpdateKeeps(t, i, t.rows[i].(state := Snoozed, snoozedUntil := Some(until), action := None), WasSnoozed(until));
    }
  }

  lemma AssignKeeps(t: Table, i: nat, user: Option<string>, isActiveUser: bool)
    requires Consistent(t)
    ensures Assign(t, i, user, isActiveUser).Ok? ==> Consistent(Assign(t, i, user, isActiveUser).value)
  {
    hide Consistent;
    if i < |t.rows| {
      RowTidy(t, i);
      UpdateKeeps(t, i, t.rows[i].(assignee := user), Assigned(user));
    }
  }

  lemma SetSeverityKeeps(t: Table, i: nat, severity: Severity)
    requires Consistent(t)
    ensures SetSeverity(t, i, severity).Ok? ==> Consistent(SetSeverity(t, i, severity).value)
  {
    hide Consistent;
    if i < |t.rows| {
      RowTidy(t, i);
      UpdateKeeps(t, i, t.rows[i].(severity := severity), SeverityIncreased(severity));
      UpdateKeeps(t, i, t.rows[i].(severity := severity), SeverityChanged(severity));
    }
  }

  lemma ResolveKeeps(t: Table, i: nat, note: string)
    requires Consistent(t)
    ensures Resolve(t, i, note).Ok? ==> Consistent(Resolve(t, i, note).value)
  {
    hide Consistent;
    if i < |t.rows| && !t.rows[i].state.Resolved? {
      RowTidy(t, i);
      UpdateKeeps(t, i, t.rows[i].(state := Resolved, action := Some(Manual), note := Some(note), snoozedUntil := None),
        WasResolved(Manual, Some(note)));
    }
  }

  // The one update that leaves snoozed_until and the note alone: only rows that have neither get there
  lemma RemediateKeeps(t: Table, i: nat, action: Action, possible: bool)
    requires Consistent(t) && !action.Manual?
    ensures Remediate(t, i, action, possible).Ok? ==> Consistent(Remediate(t, i, action, possible).value)
  {
    hide Consistent;
    if i < |t.rows| && (t.rows[i].state.Open? || t.rows[i].state.Acknowledged?) {
      RowTidy(t, i);
      UpdateKeeps(t, i, t.rows[i].(state := Resolved, action := Some(action)), WasResolved(action, None));
    }
  }

  lemma {:induction false} ExpireKeeps(t: Table, now: Time, n: nat)
    requires Consistent(t) && n <= |t.rows|
    ensures Consistent(ExpireSnoozes(t, now, n))
    decreases n
  {
    hide Consistent;
    if n > 0 {
      ConsistentSizes(t);
      ExpireKeeps(t, now, n - 1);
      var u := ExpireSnoozes(t, now, n - 1);
      RowTidy(u, n - 1);
      if SnoozeOver(u.rows[n - 1], now) {
        UpdateKeeps(u, n - 1, u.rows[n - 1].(state := Open, snoozedUntil := None), SnoozeExpired);
      }
    } else {
      ConsistentSizes(t);
    }
  }

  lemma ConsistentSizes(t: Table)
    requires Consistent(t)
    ensures |t.rows| == |t.logs|
  {
  }

  // A failure that is new, comes back, or happens again
  lemma InsertKeeps(t: Table, failure: Failure)
    requires Consistent(t)
    requires !HasFingerprint(t.rows, failure.fingerprint) && !HasSource(t.rows, failure.fingerprint.kind, failure.source)
    ensures UpsertFailure(t, failure).Ok? && Consistent(UpsertFailure(t, failure).value)
  {
    var u := UpsertFailure(t, failure).value;
    var n := |t.rows|;
    assert u.rows[..n] == t.rows;
    assert Fold(u.logs[n]) == StoryOf(u.rows[n]) by {
      assert u.logs[n][..0] == [];
    }
    forall i | 0 <= i < n ensures u.rows[i].fingerprint != failure.fingerprint {
    }
    hide Fold;
    forall k | 0 <= k < |u.rows| ensures Tidy(u.rows[k]) && Agrees(u.rows[k], u.logs[k]) {
      if k < n {
        assert Tidy(t.rows[k]) && Agrees(t.rows[k], t.logs[k]);
      }
    }
  }

  lemma RecurrenceKeepsUnique(t: Table, failure: Failure, i: nat)
    requires Consistent(t) && i < |t.rows| && t.rows[i].kind == failure.fingerprint.kind
    requires !TakenBySomeoneElse(t.rows, i, failure.source)
    requires t.rows[i].fingerprint == failure.fingerprint || !HasFingerprint(t.rows, failure.fingerprint)
    ensures UniqueFingerprints(t.rows[i := Recurred(t.rows[i], failure)])
    ensures UniqueSources(t.rows[i := Recurred(t.rows[i], failure)])
  {
    hide Fold, Told, Tidy, Occurrences;
  }

  lemma ExistingRow(t: Table, failure: Failure)
    requires Consistent(t)
    requires HasFingerprint(t.rows, failure.fingerprint) || HasSource(t.rows, failure.fingerprint.kind, failure.source)
    ensures t.rows[Existing(t.rows, failure)].kind == failure.fingerprint.kind
    ensures t.rows[Existing(t.rows, failure)].fingerprint == failure.fingerprint || !HasFingerprint(t.rows, failure.fingerprint)
  {
    hide Consistent, ByFingerprint, BySource;
    RowTidy(t, Existing(t.rows, failure));
  }

  lemma UpsertKeeps(t: Table, failure: Failure)
    requires Consistent(t)
    ensures UpsertFailure(t, failure).Ok? ==> Consistent(UpsertFailure(t, failure).value)
  {
    hide Consistent, HasFingerprint, HasSource, TakenBySomeoneElse;
    ConsistentSizes(t);
    if !HasFingerprint(t.rows, failure.fingerprint) && !HasSource(t.rows, failure.fingerprint.kind, failure.source) {
      InsertKeeps(t, failure);
    } else {
      var i := Existing(t.rows, failure);
      ExistingRow(t, failure);
      RowTidy(t, i);
      if !TakenBySomeoneElse(t.rows, i, failure.source) {
        RecurrenceKeepsUnique(t, failure, i);
        hide Existing;
        WriteKeeps(t, i, Recurred(t.rows[i], failure), if Reopens(t.rows[i]) then Reopened else Occurred, t.recorded + 1);
      }
    }
  }

  // A failure is refused exactly when the row of its fingerprint would take another row's source
  lemma RefusedFailure(t: Table, failure: Failure)
    requires Consistent(t)
    ensures UpsertFailure(t, failure).Err? <==>
      exists i, j :: 0 <= i < |t.rows| && 0 <= j < |t.rows| && i != j && t.rows[i].fingerprint == failure.fingerprint &&
        t.rows[j].kind == failure.fingerprint.kind && t.rows[j].source == failure.source
  {
    ConsistentSizes(t);
    if HasFingerprint(t.rows, failure.fingerprint) || HasSource(t.rows, failure.fingerprint.kind, failure.source) {
      var i := Existing(t.rows, failure);
      ExistingRow(t, failure);
      hide Fold, Occurrences, Tidy, Existing;
      if !HasFingerprint(t.rows, failure.fingerprint) {
        assert t.rows[i].source == failure.source by { ExistingSource(t, failure); }
      }
    }
  }

  lemma ExistingSource(t: Table, failure: Failure)
    requires !HasFingerprint(t.rows, failure.fingerprint) && HasSource(t.rows, failure.fingerprint.kind, failure.source)
    ensures t.rows[Existing(t.rows, failure)].source == failure.source
  {
  }

  // ----- Updates, told by rows -----

  // Critical is graver than high, high than medium, medium than low
  ghost predicate Graver(a: Severity, b: Severity) {
    (a == Critical && b != Critical) || (a == High && (b == Medium || b == Low)) || (a == Medium && b == Low)
  }

  // One row is written, and one event added to its log
  ghost predicate Writes(t: Table, u: Table, i: nat, row: Incident, event: Event) {
    && i < |t.rows| == |t.logs|
    && u.rows == t.rows[i := row] && u.logs == t.logs[i := t.logs[i] + [event]]
  }

  // The incident a failure belongs to: the one with its fingerprint, or else the one with its source
  ghost predicate IsOf(rows: seq<Incident>, failure: Failure, i: nat) {
    && i < |rows|
    && (rows[i].fingerprint == failure.fingerprint ||
      (rows[i].kind == failure.fingerprint.kind && rows[i].source == failure.source &&
      forall k :: 0 <= k < |rows| ==> rows[k].fingerprint != failure.fingerprint))
  }

  // A failure opens an incident, high for an execution and medium for a webhook, or happens again to the one it
  // belongs to, which it reopens if that was resolved or ignored and leaves in its state otherwise
  ghost predicate RecordTold(t: Table, u: Table, failure: Failure, r: Result<(), UpdateError>) {
    if !exists i: nat :: IsOf(t.rows, failure, i) then
      var severity := if failure.fingerprint.kind == ExecutionFailure then High else Medium;
      && r.Ok? && u.logs == t.logs + [[Opened(severity)]]
      && u.rows == t.rows +
        [Incident(failure.fingerprint.kind, failure.source, failure.fingerprint, Open, severity, None, 1, None, None, None)]
    else exists i: nat :: IsOf(t.rows, failure, i) && RecurrenceTold(t, u, failure, i, r)
  }

  ghost predicate RecurrenceTold(t: Table, u: Table, failure: Failure, i: nat, r: Result<(), UpdateError>)
    requires i < |t.rows|
  {
    var again := t.rows[i].(
      source := failure.source, fingerprint := failure.fingerprint, occurrences := t.rows[i].occurrences + 1);
    if exists j :: 0 <= j < |t.rows| && j != i && t.rows[j].kind == t.rows[i].kind && t.rows[j].source == failure.source
    then r == Err(SourceTaken) && u == t
    else if t.rows[i].state == Resolved || t.rows[i].state == Ignored then
      r.Ok? && Writes(t, u, i, again.(state := Open, snoozedUntil := None, action := None, note := None), Reopened)
    else r.Ok? && Writes(t, u, i, again, Occurred)
  }

  lemma BelongsIsExisting(t: Table, failure: Failure)
    requires Consistent(t)
    ensures (exists i: nat :: IsOf(t.rows, failure, i)) <==>
      HasFingerprint(t.rows, failure.fingerprint) || HasSource(t.rows, failure.fingerprint.kind, failure.source)
    ensures HasFingerprint(t.rows, failure.fingerprint) || HasSource(t.rows, failure.fingerprint.kind, failure.source) ==>
      IsOf(t.rows, failure, Existing(t.rows, failure))
  {
    hide Consistent;
    if i: nat :| IsOf(t.rows, failure, i) {
      assert t.rows[i].fingerprint == failure.fingerprint ==> HasFingerprint(t.rows, failure.fingerprint);
    }
    if HasFingerprint(t.rows, failure.fingerprint) || HasSource(t.rows, failure.fingerprint.kind, failure.source) {
      assert IsOf(t.rows, failure, Existing(t.rows, failure));
    }
  }

  lemma RecordIsTold(t: Table, failure: Failure)
    requires Consistent(t)
    ensures |t.rows| == |t.logs|
    ensures match UpsertFailure(t, failure)
      case Ok(u) => RecordTold(t, u, failure, Ok(()))
      case Err(e) => RecordTold(t, t, failure, Err(e))
  {
    ConsistentSizes(t);
    BelongsIsExisting(t, failure);
    hide Consistent, IsOf, HasFingerprint, HasSource, Existing;
    if HasFingerprint(t.rows, failure.fingerprint) || HasSource(t.rows, failure.fingerprint.kind, failure.source) {
      var i := Existing(t.rows, failure);
      match UpsertFailure(t, failure)
      case Ok(u) => assert RecurrenceTold(t, u, failure, i, Ok(()));
      case Err(e) => assert RecurrenceTold(t, t, failure, i, Err(e));
    }
  }

  // A snooze that is over reopens its incident, and nothing else happens to a row
  ghost predicate SnoozesTold(t: Table, u: Table, now: Time, n: nat) {
    && |u.rows| == |u.logs| == |t.rows| == |t.logs| && n <= |t.rows|
    && forall k :: 0 <= k < |t.rows| ==>
      if k < n && t.rows[k].state == Snoozed && (match t.rows[k].snoozedUntil case None => false case Some(until) => until <= now)
      then u.rows[k] == t.rows[k].(state := Open, snoozedUntil := None) && u.logs[k] == t.logs[k] + [SnoozeExpired]
      else u.rows[k] == t.rows[k] && u.logs[k] == t.logs[k]
  }

  lemma {:induction false} ExpiryIsTold(t: Table, now: Time, n: nat)
    requires |t.rows| == |t.logs| && n <= |t.rows|
    ensures SnoozesTold(t, ExpireSnoozes(t, now, n), now, n)
    decreases n
  {
    if n > 0 {
      ExpiryIsTold(t, now, n - 1);
    }
  }

  // ----- Runs -----

  datatype Operation =
    | Record(failure: Failure)
    | Change(item: nat, event: Event)
    | SnoozeUntil(item: nat, until: Time, now: Time)
    | AssignTo(item: nat, user: Option<string>, isActiveUser: bool)
    | Rate(item: nat, severity: Severity)
    | ResolveBy(item: nat, note: string)
    | Remedy(item: nat, action: Action, possible: bool)
    | Expire(now: Time)

  ghost predicate Proper(op: Operation) {
    && (op.Change? ==> op.event.Restored? || op.event.WasAcknowledged? || op.event.WasIgnored?)
    && (op.Remedy? ==> !op.action.Manual?)
  }

  function Apply(t: Table, op: Operation): Result<Table, UpdateError>
    requires |t.rows| == |t.logs| && Proper(op)
  {
    match op
    case Record(failure) => UpsertFailure(t, failure)
    case Change(i, event) => ChangeState(t, i, event)
    case SnoozeUntil(i, until, now) => Snooze(t, i, until, now)
    case AssignTo(i, user, isActiveUser) => Assign(t, i, user, isActiveUser)
    case Rate(i, severity) => SetSeverity(t, i, severity)
    case ResolveBy(i, note) => Resolve(t, i, note)
    case Remedy(i, action, possible) => Remediate(t, i, action, possible)
    case Expire(now) => Ok(ExpireSnoozes(t, now, |t.rows|))
  }

  // The table a sequence of operations leads to; refused ones change nothing
  ghost function After(ops: seq<Operation>): (t: Table)
    requires forall i :: 0 <= i < |ops| ==> Proper(ops[i])
    ensures Consistent(t)
  {
    if ops == [] then EMPTY
    else
      var t := After(ops[..|ops| - 1]);
      ApplyKeeps(t, ops[|ops| - 1]);
      match Apply(t, ops[|ops| - 1])
      case Ok(u) => u
      case Err(_) => t
  }

  lemma ApplyKeeps(t: Table, op: Operation)
    requires Consistent(t) && Proper(op)
    ensures |t.rows| == |t.logs|
    ensures Apply(t, op).Ok? ==> Consistent(Apply(t, op).value)
  {
    hide Consistent;
    ConsistentSizes(t);
    match op
    case Record(failure) => UpsertKeeps(t, failure);
    case Change(i, event) => ChangeStateKeeps(t, i, event);
    case SnoozeUntil(i, until, now) => SnoozeKeeps(t, i, until, now);
    case AssignTo(i, user, isActiveUser) => AssignKeeps(t, i, user, isActiveUser);
    case Rate(i, severity) => SetSeverityKeeps(t, i, severity);
    case ResolveBy(i, note) => ResolveKeeps(t, i, note);
    case Remedy(i, action, possible) => RemediateKeeps(t, i, action, possible);
    case Expire(now) => ExpireKeeps(t, now, |t.rows|);
  }

  lemma TwoRecorded(first: Failure, second: Failure)
    requires first.fingerprint != second.fingerprint && first.source != second.source
    ensures var t := After([Record(first), Record(second)]);
      && |t.rows| == 2 && t.rows[0].fingerprint == first.fingerprint && t.rows[1].fingerprint == second.fingerprint
      && t.rows[1].source == second.source && t.rows[1].kind == second.fingerprint.kind
      && t.rows[0].kind == first.fingerprint.kind
  {
    var ops := [Record(first), Record(second)];
    assert ops[..1] == [Record(first)] && [Record(first)][..0] == [];
    hide Consistent, Fold, Told;
    assert After([Record(first)]) == UpsertFailure(EMPTY, first).value;
  }

  // Two failures recorded, and a third one with the fingerprint of the first and the source of the second: refused
  lemma RefusalIsReachable(text: string, otherText: string, source: string, otherSource: string)
    requires text != otherText && source != otherSource
    ensures var first, second := Failure(source, Fingerprint(ExecutionFailure, text)), Failure(otherSource, Fingerprint(ExecutionFailure, otherText));
      UpsertFailure(After([Record(first), Record(second)]), Failure(otherSource, first.fingerprint)) == Err(SourceTaken)
  {
    var first, second := Failure(source, Fingerprint(ExecutionFailure, text)), Failure(otherSource, Fingerprint(ExecutionFailure, otherText));
    TwoRecorded(first, second);
    var t := After([Record(first), Record(second)]);
    hide After, Consistent;
    RefusedFailure(t, Failure(otherSource, first.fingerprint));
    assert TakenBySomeoneElse(t.rows, 0, otherSource);
  }

  // Failures among the operations that were not refused
  ghost function Failures(ops: seq<Operation>): nat
    requires forall i :: 0 <= i < |ops| ==> Proper(ops[i])
  {
    if ops == [] then 0
    else
      var op := ops[|ops| - 1];
      Failures(ops[..|ops| - 1]) + if op.Record? && UpsertFailure(After(ops[..|ops| - 1]), op.failure).Ok? then 1 else 0
  }

  lemma {:induction false} ExpireRecords(t: Table, now: Time, n: nat)
    requires |t.rows| == |t.logs| && n <= |t.rows|
    ensures ExpireSnoozes(t, now, n).recorded == t.recorded
    decreases n
  {
    if n > 0 {
      ExpireRecords(t, now, n - 1);
    }
  }

  // No failure is lost or counted twice, however incidents are worked on in between
  lemma {:induction false} OccurrencesAreFailures(ops: seq<Operation>)
    requires forall i :: 0 <= i < |ops| ==> Proper(ops[i])
    ensures Occurrences(After(ops).rows) == Failures(ops)
  {
    RecordedAreFailures(ops);
  }

  lemma {:induction false} RecordedAreFailures(ops: seq<Operation>)
    requires forall i :: 0 <= i < |ops| ==> Proper(ops[i])
    ensures After(ops).recorded == Failures(ops)
  {
    if ops != [] {
      RecordedAreFailures(ops[..|ops| - 1]);
      var t, op := After(ops[..|ops| - 1]), ops[|ops| - 1];
      hide Occurrences, Fold, Existing, HasFingerprint, HasSource, TakenBySomeoneElse;
      if op.Expire? {
        ExpireRecords(t, op.now, |t.rows|);
      }
    }
  }

  // Reading an incident's log back always gives its row
  lemma LogTellsRow(ops: seq<Operation>, i: nat)
    requires forall k :: 0 <= k < |ops| ==> Proper(ops[k])
    requires i < |After(ops).rows|
    ensures i < |After(ops).logs| && Fold(After(ops).logs[i]) == StoryOf(After(ops).rows[i])
    ensures Tidy(After(ops).rows[i])
  {
    hide After, Fold;
    assert Consistent(After(ops));
    assert Agrees(After(ops).rows[i], After(ops).logs[i]);
  }

  // ----- The repository -----

  class AttentionRepository {
    var rows: seq<Incident>
    var logs: seq<seq<Event>>
    ghost var recorded: nat

    ghost function View(): Table
      reads this
    {
      Table(rows, logs, recorded)
    }

    ghost predicate Valid()
      reads this
    {
      Consistent(View())
    }

    constructor ()
      ensures Valid() && View() == EMPTY
    {
      rows, logs, recorded := [], [], 0;
    }

    method UpdateRow(i: nat, row: Incident, event: Event)
      requires i < |rows| == |logs|
      modifies this`rows, this`logs
      ensures View() == Write(old(View()), i, row, event)
    {
      rows := rows[i := row];
      logs := logs[i := logs[i] + [event]];
    }

    method RecordFailure(failure: Failure) returns (r: Result<(), UpdateError>)
      requires Valid()
      modifies this
      ensures Valid() && Applied(UpsertFailure(old(View()), failure), old(View()), View(), r)
      ensures RecordTold(old(View()), View(), failure, r)
    {
      RecordIsTold(View(), failure);
      hide RecordTold;
      UpsertKeeps(View(), failure);
      ConsistentSizes(View());
      hide Consistent, HasFingerprint, HasSource, TakenBySomeoneElse, Existing;
      if !HasFingerprint(rows, failure.fingerprint) && !HasSource(rows, failure.fingerprint.kind, failure.source) {
        var severity := if failure.fingerprint.kind.ExecutionFailure? then High else Medium;
        rows := rows +
          [Incident(failure.fingerprint.kind, failure.source, failure.fingerprint, Open, severity, None, 1, None, None, None)];
        logs := logs + [[Opened(severity)]];
      } else {
        var i := Existing(rows, failure);
        if TakenBySomeoneElse(rows, i, failure.source) {
          return Err(SourceTaken);
        }
        UpdateRow(i, Recurred(rows[i], failure), if Reopens(rows[i]) then Reopened else Occurred);
      }
      recorded := recorded + 1;
      return Ok(());
    }

    method ChangeStateOf(i: nat, event: Event) returns (r: Result<(), UpdateError>)
      requires Valid() && (event.Restored? || event.WasAcknowledged? || event.WasIgnored?)
      modifies this
      ensures Valid() && Applied(ChangeState(old(View()), i, event), old(View()), View(), r)
      ensures
        var target := if event.Restored? then Open else if event.WasAcknowledged? then Acknowledged else Ignored;
        if i >= |old(rows)| then r == Err(NotFound) && View() == old(View())
        else if old(rows)[i].state == Resolved then r == Err(AlreadyResolved) && View() == old(View())
        else if old(rows)[i].state == target then r.Ok? && View() == old(View())
        else r.Ok? && Writes(old(View()), View(), i,
          old(rows)[i].(state := target, snoozedUntil := None, action := None, note := None), event)
    {
      ChangeStateKeeps(View(), i, event);
      ConsistentSizes(View());
      hide Consistent;
      if i >= |rows| {
        return Err(NotFound);
      }
      var item := rows[i];
      if item.state.Resolved? {
        return Err(AlreadyResolved);
      }
      if item.state != Target(event) {
        UpdateRow(i, item.(state := Target(event), action := None, note := None, snoozedUntil := None), event);
      }
      return Ok(());
    }

    method SnoozeItem(i: nat, until: Time, now: Time) returns (r: Result<(), UpdateError>)
      requires Valid()
      modifies this
      ensures Valid() && Applied(Snooze(old(View()), i, until, now), old(View()), View(), r)
      ensures
        if until <= now then r == Err(InvalidSnooze) && View() == old(View())
        else if i >= |old(rows)| then r == Err(NotFound) && View() == old(View())
        else if old(rows)[i].state == Resolved then r == Err(AlreadyResolved) && View() == old(View())
        else r.Ok? && Writes(old(View()), View(), i,
          old(rows)[i].(state := Snoozed, snoozedUntil := Some(until), action := None), WasSnoozed(until))
    {
      SnoozeKeeps(View(), i, until, now);
      ConsistentSizes(View());
      hide Consistent;
      if until <= now {
        return Err(InvalidSnooze);
      }
      if i >= |rows| {
        return Err(NotFound);
      }
      if rows[i].state.Resolved? {
        return Err(AlreadyResolved);
      }
      UpdateRow(i, rows[i].(state := Snoozed, snoozedUntil := Some(until), action := None), WasSnoozed(until));
      return Ok(());
    }

    method AssignItem(i: nat, user: Option<string>, isActiveUser: bool) returns (r: Result<(), UpdateError>)
      requires Valid()
      modifies this
      ensures Valid() && Applied(Assign(old(View()), i, user, isActiveUser), old(View()), View(), r)
      ensures
        if i >= |old(rows)| then r == Err(NotFound) && View() == old(View())
        else if user.Some? && !isActiveUser then r == Err(AssigneeNotFound) && View() == old(View())
        else r.Ok? && Writes(old(View()), View(), i, old(rows)[i].(assignee := user), Assigned(user))
    {
      AssignKeeps(View(), i, user, isActiveUser);
      ConsistentSizes(View());
      hide Consistent;
      if i >= |rows| {
        return Err(NotFound);
      }
      if user.Some? && !isActiveUser {
        return Err(AssigneeNotFound);
      }
      UpdateRow(i, rows[i].(assignee := user), Assigned(user));
      return Ok(());
    }

    method SetSeverityOf(i: nat, severity: Severity) returns (r: Result<(), UpdateError>)
      requires Valid()
      modifies this
      ensures Valid() && Applied(SetSeverity(old(View()), i, severity), old(View()), View(), r)
      ensures
        if i >= |old(rows)| then r == Err(NotFound) && View() == old(View())
        else r.Ok? && Writes(old(View()), View(), i, old(rows)[i].(severity := severity),
          if Graver(severity, old(rows)[i].severity) then SeverityIncreased(severity) else SeverityChanged(severity))
    {
      SetSeverityKeeps(View(), i, severity);
      ConsistentSizes(View());
      hide Consistent;
      if i >= |rows| {
        return Err(NotFound);
      }
      var increased := Rank(severity) > Rank(rows[i].severity);
      UpdateRow(i, rows[i].(severity := severity), if increased then SeverityIncreased(severity) else SeverityChanged(severity));
      return Ok(());
    }

    method ResolveItem(i: nat, note: string) returns (r: Result<(), UpdateError>)
      requires Valid()
      modifies this
      ensures Valid() && Applied(Resolve(old(View()), i, note), old(View()), View(), r)
      ensures
        if i >= |old(rows)| then r == Err(NotFound) && View() == old(View())
        else if old(rows)[i].state == Resolved then r.Ok? && View() == old(View())
        else r.Ok? && Writes(old(View()), View(), i,
          old(rows)[i].(state := Resolved, snoozedUntil := None, action := Some(Manual), note := Some(note)),
          WasResolved(Manual, Some(note)))
    {
      ResolveKeeps(View(), i, note);
      ConsistentSizes(View());
      hide Consistent;
      if i >= |rows| {
        return Err(NotFound);
      }
      if !rows[i].state.Resolved? {
        UpdateRow(i, rows[i].(state := Resolved, action := Some(Manual), note := Some(note), snoozedUntil := None),
          WasResolved(Manual, Some(note)));
      }
      return Ok(());
    }

    // possible says whether the source and the job are still there and the remedy was applied
    method RemediateItem(i: nat, action: Action, possible: bool) returns (r: Result<(), UpdateError>)
      requires Valid() && !action.Manual?
      modifies this
      ensures Valid() && Applied(Remediate(old(View()), i, action, possible), old(View()), View(), r)
      // A rerun is for executions and a retry for webhooks, of incidents that are open or acknowledged
      ensures
        if i >= |old(rows)| then r == Err(NotFound) && View() == old(View())
        else if (action == Rerun && old(rows)[i].kind == WebhookFailure) ||
          (action == WebhookRetry && old(rows)[i].kind == ExecutionFailure) then r == Err(KindConflict) && View() == old(View())
        else if old(rows)[i].state != Open && old(rows)[i].state != Acknowledged then r == Err(StateConflict) && View() == old(View())
        else if !possible then r == Err(NotFound) && View() == old(View())
        else r.Ok? && Writes(old(View()), View(), i,
          old(rows)[i].(state := Resolved, action := Some(action)), WasResolved(action, None))
    {
      RemediateKeeps(View(), i, action, possible);
      ConsistentSizes(View());
      hide Consistent;
      if i >= |rows| {
        return Err(NotFound);
      }
      var item := rows[i];
      if item.kind != (if action.Rerun? then ExecutionFailure else WebhookFailure) {
        return Err(KindConflict);
      }
      if !item.state.Open? && !item.state.Acknowledged? {
        return Err(StateConflict);
      }
      if !possible {
        return Err(NotFound);
      }
      UpdateRow(i, item.(state := Resolved, action := Some(action)), WasResolved(action, None));
      return Ok(());
    }

    method ExpireAllSnoozes(now: Time)
      requires Valid()
      modifies this
      ensures Valid() && View() == ExpireSnoozes(old(View()), now, |old(rows)|)
      ensures SnoozesTold(old(View()), View(), now, |old(rows)|)
    {
      ExpireKeeps(View(), now, |rows|);
      ConsistentSizes(View());
      hide Consistent;
      ghost var t := View();
      ExpiryIsTold(t, now, |rows|);
      hide SnoozesTold;
      for n := 0 to |rows|
        invariant |rows| == |logs| == |t.rows|
        invariant View() == ExpireSnoozes(t, now, n)
      {
        if SnoozeOver(rows[n], now) {
          UpdateRow(n, rows[n].(state := Open, snoozedUntil := None), SnoozeExpired);
        }
      }
    }
  }

  ghost predicate Applied(applied: Result<Table, UpdateError>, before: Table, after: Table, r: Result<(), UpdateError>) {
    match applied
    case Ok(t) => after == t && r == Ok(())
    case Err(e) => after == before && r == Err(e)
  }
}
