/**
 * Schedules (src/utils/cron.ts, and processDueJobs, enumerateOccurrences and applyBackfill in
 * src/repositories/ExecutionRepository.ts) over an abstract calendar.
 */
module Schedule {
  import opened Wrappers
  import opened Executions
  import opened ExecutionLaws
  import opened ExecutionOutbox
  import opened ExecutionRepository
  import Told = Transactions

  // The occurrences of a cron expression in a time zone, numbered in order
  type Calendar = int -> Time

  ghost predicate Increasing(at: Calendar) {
    forall i, j :: i < j ==> at(i) < at(j)
  }

  ghost predicate IsOccurrenceAt(at: Calendar, t: Time) {
    exists i :: at(i) == t
  }

  // ----- cron.ts -----

  // The number of the last occurrence at or before a time
  function Upwards(at: Calendar, t: Time, i: int): (n: int)
    requires Increasing(at) && at(i) <= t
    ensures at(n) <= t < at(n + 1)
    decreases t - at(i)
  {
    if t < at(i + 1) then i else Upwards(at, t, i + 1)
  }

  function Downwards(at: Calendar, t: Time, i: int): (n: int)
    requires Increasing(at) && t < at(i)
    ensures at(n) <= t < at(n + 1)
    decreases at(i) - t
  {
    assert at(i - 1) < at(i);
    if at(i - 1) <= t then i - 1 else Downwards(at, t, i - 1)
  }

  function LastBy(at: Calendar, t: Time): (n: int)
    requires Increasing(at)
    ensures at(n) <= t < at(n + 1)
  {
    if at(0) <= t then Upwards(at, t, 0) else Downwards(at, t, 0)
  }

  // The first occurrence after a time
  function NextOccurrence(at: Calendar, after: Time): (t: Time)
    requires Increasing(at)
    ensures after < t && IsOccurrenceAt(at, t)
    ensures forall i :: after < at(i) ==> t <= at(i)
  {
    assert forall i :: after < at(i) ==> i > LastBy(at, after);
    at(LastBy(at, after) + 1)
  }

  // The last occurrence at or before a time
  function LatestOccurrence(at: Calendar, atOrBefore: Time): (t: Time)
    requires Increasing(at)
    ensures t <= atOrBefore && IsOccurrenceAt(at, t)
    ensures forall i :: at(i) <= atOrBefore ==> at(i) <= t
  {
    assert forall i :: at(i) <= atOrBefore ==> i <= LastBy(at, atOrBefore);
    at(LastBy(at, atOrBefore))
  }

  datatype Coalesced = Coalesced(scheduledFor: Time, nextRunAt: Time)

  function CoalesceOccurrences(at: Calendar, now: Time): Coalesced
    requires Increasing(at)
  {
    Coalesced(LatestOccurrence(at, now), NextOccurrence(at, now))
  }

  // However long the scheduler slept, it fires the last missed occurrence and waits for the one after it
  lemma CoalescedAreAdjacent(at: Calendar, now: Time)
    requires Increasing(at)
    ensures var c := CoalesceOccurrences(at, now);
      c.scheduledFor <= now < c.nextRunAt && !exists i :: c.scheduledFor < at(i) < c.nextRunAt
  {
    forall i ensures !(CoalesceOccurrences(at, now).scheduledFor < at(i) < CoalesceOccurrences(at, now).nextRunAt) {
      if at(i) <= now {
        assert at(i) <= CoalesceOccurrences(at, now).scheduledFor;
      } else {
        assert CoalesceOccurrences(at, now).nextRunAt <= at(i);
      }
    }
  }

  // ----- Backfill ranges -----

  datatype RangeError = InvalidRange | LimitExceeded

  const LIMIT: nat := 500

  // Occurrence number first, first + 1, ... up to length of them
  function Stretch(at: Calendar, first: int, length: nat): (times: seq<Time>)
    ensures |times| == length
  {
    seq(length, k => at(first + k))
  }

  // The occurrences in [from, to], in order and without a gap
  ghost predicate AllOccurrences(at: Calendar, from: Time, to: Time, times: seq<Time>) {
    exists first :: times == Stretch(at, first, |times|) && IsRange(at, from, to, first, |times|)
  }

  lemma StretchGrows(at: Calendar, first: int, n: nat)
    ensures Stretch(at, first, n + 1) == Stretch(at, first, n) + [at(first + n)]
  {
  }

  // Midway: the occurrences found are the first ones from the start of the range on
  ghost predicate Scanning(at: Calendar, from: Time, to: Time, first: int, found: seq<Time>, cursor: Time) {
    && |found| <= LIMIT && found == Stretch(at, first, |found|)
    && at(first - 1) < from <= at(first)
    && cursor == Cursor(at, from, first, |found|) && cursor <= to
  }

  lemma ScanStarts(at: Calendar, from: Time, to: Time)
    requires Increasing(at) && from < to
    ensures Scanning(at, from, to, LastBy(at, from - 1) + 1, [], from - 1)
  {
  }

  lemma ScanEnds(at: Calendar, from: Time, to: Time, first: int, found: seq<Time>, cursor: Time)
    requires Increasing(at) && Scanning(at, from, to, first, found, cursor) && NextOccurrence(at, cursor) > to
    ensures AllOccurrences(at, from, to, found) && !exists i :: from <= at(i) && at(i + LIMIT) <= to
  {
    NextInStretch(at, from, first, |found|);
    RangeEnds(at, from, to, first, |found|);
  }

  lemma ScanGoesOn(at: Calendar, from: Time, to: Time, first: int, found: seq<Time>, cursor: Time)
    requires Increasing(at) && Scanning(at, from, to, first, found, cursor) && NextOccurrence(at, cursor) <= to
    ensures |found| < LIMIT ==> Scanning(at, from, to, first, found + [NextOccurrence(at, cursor)], NextOccurrence(at, cursor))
    ensures |found| == LIMIT ==> exists i :: from <= at(i) && at(i + LIMIT) <= to
  {
    NextInStretch(at, from, first, |found|);
    StretchGrows(at, first, |found|);
    assert |found| == LIMIT ==> from <= at(first) && at(first + LIMIT) <= to;
  }

  method EnumerateOccurrences(at: Calendar, from: Time, to: Time) returns (r: Result<seq<Time>, RangeError>)
    requires Increasing(at)
    ensures r == Err(InvalidRange) <==> from >= to
    ensures r == Err(LimitExceeded) <==> from < to && exists i :: from <= at(i) && at(i + 500) <= to
    ensures r.Ok? ==> |r.value| <= LIMIT && AllOccurrences(at, from, to, r.value)
  {
    if from >= to {
      return Err(InvalidRange);
    }
    hide Increasing, NextOccurrence, LastBy, Stretch, Scanning, AllOccurrences;
    ghost var first := LastBy(at, from - 1) + 1;
    ScanStarts(at, from, to);
    var occurrences: seq<Time> := [];
    var cursor := from - 1;
    while true
      invariant |occurrences| <= LIMIT && Scanning(at, from, to, first, occurrences, cursor)
      decreases LIMIT + 1 - |occurrences|
    {
      var next := NextOccurrence(at, cursor);
      if next > to {
        ScanEnds(at, from, to, first, occurrences, cursor);
        break;
      }
      ScanGoesOn(at, from, to, first, occurrences, cursor);
      occurrences := occurrences + [next];
      cursor := next;
      if |occurrences| > LIMIT {
        return Err(LimitExceeded);
      }
    }
    return Ok(occurrences);
  }

  // Where the loop stands after n occurrences
  function Cursor(at: Calendar, from: Time, first: int, n: nat): Time {
    if n == 0 then from - 1 else at(first + n - 1)
  }

  // Exactly the occurrences in [from, to]
  ghost predicate IsRange(at: Calendar, from: Time, to: Time, first: int, length: nat) {
    forall i :: from <= at(i) <= to <==> first <= i < first + length
  }

  lemma LastByUnique(at: Calendar, t: Time, n: int)
    requires Increasing(at) && at(n) <= t < at(n + 1)
    ensures LastBy(at, t) == n
  {
    var m := LastBy(at, t);
    assert m < n ==> at(m + 1) <= at(n);
    assert n < m ==> at(n + 1) <= at(m);
  }

  lemma NextInStretch(at: Calendar, from: Time, first: int, n: nat)
    requires Increasing(at) && at(first - 1) < from <= at(first)
    ensures NextOccurrence(at, Cursor(at, from, first, n)) == at(first + n)
  {
    LastByUnique(at, Cursor(at, from, first, n), first + n - 1);
  }

  lemma RangeEnds(at: Calendar, from: Time, to: Time, first: int, n: nat)
    requires Increasing(at) && at(first - 1) < from <= at(first) && n <= LIMIT
    requires to < at(first + n) && Cursor(at, from, first, n) <= to
    ensures IsRange(at, from, to, first, n)
    ensures !exists i :: from <= at(i) && at(i + LIMIT) <= to
  {
    forall i ensures from <= at(i) <= to <==> first <= i < first + n {
      if i < first {
        assert at(i) <= at(first - 1);
      } else if i < first + n {
        assert at(first) <= at(i) <= at(first + n - 1);
      } else {
        assert at(first + n) <= at(i);
      }
    }
    forall i ensures !(from <= at(i) && at(i + LIMIT) <= to) {
      if i < first {
        assert at(i) <= at(first - 1);
      } else {
        assert at(first + n) <= at(i + LIMIT);
      }
    }
  }

  // ----- Scheduling and backfilling -----

  // The execution that stands for an occurrence of a job
  predicate Stands(s: State, job: JobId, at: Time, id: ExecId) {
    id in s.executions && s.executions[id].job.id == job && IsOccurrence(s.executions[id].source) &&
    s.executions[id].scheduledFor == Some(at)
  }

  lemma StandsAlone(s: State, job: JobId, at: Time, a: ExecId, b: ExecId)
    requires OccurrencesUnique(s) && Stands(s, job, at, a) && Stands(s, job, at, b)
    ensures a == b
  {
  }

  lemma StandsOn(s: State, t: State, job: JobId, at: Time, id: ExecId)
    requires Evolves(s, t) && Stands(s, job, at, id)
    ensures Stands(t, job, at, id)
  {
  }

  lemma EnqueueOccupies(s: State, id: ExecId, request: Request, job: JobId, at: Time)
    requires Admissible(s, id, request) && IsOccurrence(request.source) && request.scheduledFor.Some?
    ensures var t := Enqueue(s, id, request);
      && (forall x :: x in t.executions <==> x == id || x in s.executions)
      && Evolves(s, t)
      && Stands(t, request.job.id, request.scheduledFor.value, id)
      && (Occupied(t, job, at) <==> Occupied(s, job, at) || (job == request.job.id && at == request.scheduledFor.value))
  {
    var t := Enqueue(s, id, request);
    EnqueueQuiet(s, id, request);
    EnqueuedRow(s, id, request);
    hide Enqueue, Admissible;
    if x :| x in s.executions && Stands(s, job, at, x) {
      assert Stands(t, job, at, x);
    }
    if x :| x in t.executions && Stands(t, job, at, x) {
      if x != id {
        assert Stands(s, job, at, x);
      }
    }
    if job == request.job.id && at == request.scheduledFor.value {
      assert Stands(t, job, at, id);
    }
  }

  lemma EnqueuedRow(s: State, id: ExecId, request: Request)
    requires Admissible(s, id, request)
    ensures id !in s.executions
    ensures var t := Enqueue(s, id, request);
      && (forall x :: x in t.executions <==> x == id || x in s.executions)
      && t.executions[id].job == request.job && t.executions[id].source == request.source
      && t.executions[id].scheduledFor == request.scheduledFor
  {
    AdmissibleIsFresh(s, id, request);
    hide Admissible, Overlapped, Inserted;
    OverlappedQuiet(s, request.job, request.key, request.kind);
    OverlappedStatus(s, request.job, request.key, request.kind);
    var (t, status) := Overlapped(s, request.job, request.key, request.kind);
    InsertedQuiet(t, id, request, status);
    hide Quiet;
  }

  datatype ScheduledJob = ScheduledJob(
    def: JobDef, key: Option<string>, active: bool, schedule: Option<Calendar>, nextRunAt: Option<Time>)

  ghost predicate Due(job: ScheduledJob, now: Time) {
    job.active && job.schedule.Some? && Increasing(job.schedule.value) && job.nextRunAt.Some? && job.nextRunAt.value <= now
  }

  function OccurrenceRequest(def: JobDef, key: Option<string>, source: Source, at: Time): Request {
    Request(def, key, source, if source.Scheduled? then OnSchedule else OnRequest, Some(at), false, None)
  }

  // One due job: its coalesced occurrence is enqueued unless an execution stands for it
  ghost function Fire(s: State, job: ScheduledJob, newId: ExecId, now: Time): State
    requires Due(job, now)
  {
    var at := CoalesceOccurrences(job.schedule.value, now).scheduledFor;
    if Occupied(s, job.def.id, at) then s else Enqueue(s, newId, OccurrenceRequest(job.def, job.key, Scheduled, at))
  }

  function Rescheduled(job: ScheduledJob, now: Time): ScheduledJob
    requires job.schedule.Some? && Increasing(job.schedule.value)
  {
    job.(nextRunAt := Some(CoalesceOccurrences(job.schedule.value, now).nextRunAt))
  }

  ghost predicate AllDue(jobs: map<JobId, ScheduledJob>, due: seq<JobId>, now: Time) {
    && (forall i :: 0 <= i < |due| ==> due[i] in jobs && jobs[due[i]].def.id == due[i] && Due(jobs[due[i]], now))
    && (forall i, j :: 0 <= i < j < |due| ==> due[i] != due[j])
  }

  ghost predicate AllFresh(s: State, ids: seq<ExecId>) {
    && (forall i :: 0 <= i < |ids| ==> ids[i] !in s.executions)
    && (forall i, j :: 0 <= i < j < |ids| ==> ids[i] != ids[j])
  }

  lemma FireOccupies(s: State, job: ScheduledJob, newId: ExecId, now: Time)
    requires Due(job, now) && newId !in s.executions && OccurrencesUnique(s)
    ensures var t := Fire(s, job, newId, now);
      && OccurrencesUnique(t) && Evolves(s, t)
      && Occupied(t, job.def.id, CoalesceOccurrences(job.schedule.value, now).scheduledFor)
      && (forall x :: x in t.executions ==> x == newId || x in s.executions)
  {
    var at := CoalesceOccurrences(job.schedule.value, now).scheduledFor;
    hide Increasing;
    if Occupied(s, job.def.id, at) {
      QuietSelf(s);
    } else {
      var request := OccurrenceRequest(job.def, job.key, Scheduled, at);
      EnqueueUnique(s, newId, request);
      EnqueueOccupies(s, newId, request, job.def.id, at);
    }
  }

  // ----- Runs of the scheduler -----

  // The store, the jobs, and the scheduled executions of each job in the order they were created
  datatype Scheduling = Scheduling(store: State, jobs: map<JobId, ScheduledJob>, fired: map<JobId, seq<ExecId>>)

  function FiredOf(st: Scheduling, id: JobId): seq<ExecId> {
    if id in st.fired then st.fired[id] else []
  }

  ghost predicate IsDue(st: Scheduling, id: JobId, now: Time) {
    id in st.jobs && st.jobs[id].def.id == id && Due(st.jobs[id], now)
  }

  ghost predicate Creates(st: Scheduling, id: JobId, newId: ExecId, now: Time)
    requires IsDue(st, id, now)
  {
    var at := CoalesceOccurrences(st.jobs[id].schedule.value, now).scheduledFor;
    !Occupied(st.store, id, at) && newId !in st.store.executions
  }

  // One due job of a poll
  ghost function FireJob(st: Scheduling, id: JobId, newId: ExecId, now: Time): Scheduling {
    if !IsDue(st, id, now) then st
    else
      Scheduling(
        Fire(st.store, st.jobs[id], newId, now),
        st.jobs[id := Rescheduled(st.jobs[id], now)],
        if Creates(st, id, newId, now) then st.fired[id := FiredOf(st, id) + [newId]] else st.fired)
  }

  // A poll: its due jobs one after the other
  ghost function Poll(st: Scheduling, due: seq<JobId>, newIds: seq<ExecId>, now: Time): Scheduling
    requires |newIds| == |due|
  {
    if due == [] then st
    else FireJob(Poll(st, due[..|due| - 1], newIds[..|due| - 1], now), due[|due| - 1], newIds[|due| - 1], now)
  }

  // Polls, at whatever times the scheduler gets to them, among everything else that happens
  datatype Act = Polled(due: seq<JobId>, newIds: seq<ExecId>, now: Time) | Elsewhere(event: Event)

  // Nobody but the scheduler enqueues a scheduled execution
  predicate Foreign(event: Event) {
    event.Enqueued? ==> !event.request.source.Scheduled?
  }

  ghost function Performed(leaseMs: nat, st: Scheduling, act: Act): Scheduling {
    match act
    case Polled(due, newIds, now) => if |newIds| == |due| then Poll(st, due, newIds, now) else st
    case Elsewhere(event) => if Foreign(event) then st.(store := Step(leaseMs, st.store, event)) else st
  }

  ghost function AfterActs(leaseMs: nat, jobs: map<JobId, ScheduledJob>, acts: seq<Act>): Scheduling {
    if acts == [] then Scheduling(EMPTY, jobs, map[])
    else Performed(leaseMs, AfterActs(leaseMs, jobs, acts[..|acts| - 1]), acts[|acts| - 1])
  }

  // A scheduled execution of this job, for a time before the job's next run
  ghost predicate FiredBefore(st: Scheduling, id: JobId, x: ExecId) {
    && id in st.jobs && st.jobs[id].nextRunAt.Some?
    && x in st.store.executions && st.store.executions[x].job.id == id && st.store.executions[x].source.Scheduled?
    && st.store.executions[x].scheduledFor.Some? && st.store.executions[x].scheduledFor.value < st.jobs[id].nextRunAt.value
  }

  // The next run of a job that fired is an occurrence after all it fired, and it fired in order
  ghost predicate FiredInOrder(st: Scheduling, id: JobId)
    requires id in st.fired
  {
    && (forall i :: 0 <= i < |st.fired[id]| ==> FiredBefore(st, id, st.fired[id][i]))
    && id in st.jobs && st.jobs[id].schedule.Some? && Increasing(st.jobs[id].schedule.value) && st.jobs[id].nextRunAt.Some?
    && IsOccurrenceAt(st.jobs[id].schedule.value, st.jobs[id].nextRunAt.value)
    && (forall i, j :: 0 <= i < j < |st.fired[id]| ==>
      st.store.executions[st.fired[id][i]].scheduledFor.value < st.store.executions[st.fired[id][j]].scheduledFor.value)
  }

  ghost predicate IsFired(st: Scheduling, x: ExecId)
    requires x in st.store.executions
  {
    st.store.executions[x].job.id in st.fired && x in st.fired[st.store.executions[x].job.id]
  }

  ghost predicate WellFired(st: Scheduling) {
    && (forall id :: id in st.fired ==> FiredInOrder(st, id))
    && (forall x :: x in st.store.executions && st.store.executions[x].source.Scheduled? ==> IsFired(st, x))
  }

  // The coalesced time of a due job is never before its next run
  lemma CoalescedNotBefore(at: Calendar, next: Time, now: Time)
    requires Increasing(at) && IsOccurrenceAt(at, next) && next <= now
    ensures next <= CoalesceOccurrences(at, now).scheduledFor < CoalesceOccurrences(at, now).nextRunAt
    ensures IsOccurrenceAt(at, CoalesceOccurrences(at, now).nextRunAt)
  {
    var i :| at(i) == next;
    assert at(i) <= LatestOccurrence(at, now);
  }

  lemma RowKept(s: State, t: State, x: ExecId)
    requires Evolves(s, t) && x in s.executions
    ensures x in t.executions && t.executions[x].job == s.executions[x].job && t.executions[x].source == s.executions[x].source
    ensures t.executions[x].scheduledFor == s.executions[x].scheduledFor
  {
    assert RowEvolves(s.executions[x], t.executions[x]);
  }

  // Rows that evolve keep a job's order
  lemma OrderKept(st: Scheduling, store: State, id: JobId)
    requires id in st.fired && FiredInOrder(st, id) && Evolves(st.store, store)
    ensures FiredInOrder(st.(store := store), id)
  {
    hide Increasing, IsOccurrenceAt;
    forall i | 0 <= i < |st.fired[id]| ensures FiredBefore(st.(store := store), id, st.fired[id][i]) {
      assert FiredBefore(st, id, st.fired[id][i]);
      RowKept(st.store, store, st.fired[id][i]);
    }
    forall i, j | 0 <= i < j < |st.fired[id]|
      ensures store.executions[st.fired[id][i]].scheduledFor.value < store.executions[st.fired[id][j]].scheduledFor.value
    {
      assert FiredBefore(st, id, st.fired[id][i]) && FiredBefore(st, id, st.fired[id][j]);
      RowKept(st.store, store, st.fired[id][i]);
      RowKept(st.store, store, st.fired[id][j]);
    }
  }

  // A transaction of somebody else creates no scheduled execution
  lemma ForeignRows(leaseMs: nat, s: State, event: Event, x: ExecId)
    requires Foreign(event) && x in Step(leaseMs, s, event).executions && x !in s.executions
    ensures !Step(leaseMs, s, event).executions[x].source.Scheduled?
  {
    if event.Enqueued? {
      NewRowSource(s, event.id, event.request, x);
    } else if event.Dispatched? {
      DispatchIs(s, event.event, event.child, event.target);
      hide Dispatch, Spawns, Enqueue;
      if Spawns(s, event.event, event.child, event.target) {
        NewRowSource(s, event.child, ChildRequest(event.target, event.event.source), x);
      }
    } else {
      hide Step;
      NoNewRows(leaseMs, s, event);
    }
  }

  lemma NewRowSource(s: State, id: ExecId, request: Request, x: ExecId)
    requires x in Enqueue(s, id, request).executions && x !in s.executions
    ensures x == id && Enqueue(s, id, request).executions[x].source == request.source
  {
    hide Admissible;
    if Admissible(s, id, request) {
      EnqueuedRow(s, id, request);
    }
  }

  lemma ForeignKeepsOrder(leaseMs: nat, st: Scheduling, event: Event)
    requires WellFired(st) && Foreign(event)
    ensures WellFired(st.(store := Step(leaseMs, st.store, event)))
  {
    var u := st.(store := Step(leaseMs, st.store, event));
    StepEvolves(leaseMs, st.store, event);
    hide Step, FiredInOrder;
    forall id | id in u.fired ensures FiredInOrder(u, id) {
      OrderKept(st, u.store, id);
    }
    forall x | x in u.store.executions && u.store.executions[x].source.Scheduled? ensures IsFired(u, x) {
      if x in st.store.executions {
        RowKept(st.store, u.store, x);
        assert IsFired(st, x);
      } else {
        ForeignRows(leaseMs, st.store, event, x);
      }
    }
  }

  // What firing does to the store
  lemma FireRows(st: Scheduling, id: JobId, newId: ExecId, now: Time)
    requires IsDue(st, id, now)
    ensures var t := Fire(st.store, st.jobs[id], newId, now);
      var at := CoalesceOccurrences(st.jobs[id].schedule.value, now).scheduledFor;
      && Evolves(st.store, t)
      && (!Creates(st, id, newId, now) ==> t.executions.Keys == st.store.executions.Keys)
      && (Creates(st, id, newId, now) ==>
        && t.executions.Keys == st.store.executions.Keys + {newId} && newId !in st.store.executions
        && t.executions[newId].job.id == id && t.executions[newId].source.Scheduled?
        && t.executions[newId].scheduledFor == Some(at))
  {
    var at := CoalesceOccurrences(st.jobs[id].schedule.value, now).scheduledFor;
    var request := OccurrenceRequest(st.jobs[id].def, st.jobs[id].key, Scheduled, at);
    hide Increasing, Enqueue, CoalesceOccurrences;
    QuietSelf(st.store);
    EnqueueQuiet(st.store, newId, request);
    if Creates(st, id, newId, now) {
      assert Admissible(st.store, newId, request);
      EnqueuedRow(st.store, newId, request);
    } else if newId in st.store.executions {
      NotFresh(st.store, newId, request);
    }
  }

  lemma NotFresh(s: State, id: ExecId, request: Request)
    requires id in s.executions
    ensures Enqueue(s, id, request) == s
  {
    assert !Admissible(s, id, request);
  }

  // The job that fires: its new execution comes after all the others, and before the next run
  lemma FireKeepsOwnOrder(st: Scheduling, id: JobId, newId: ExecId, now: Time)
    requires WellFired(st) && IsDue(st, id, now)
    ensures id in FireJob(st, id, newId, now).fired ==> FiredInOrder(FireJob(st, id, newId, now), id)
  {
    var u := FireJob(st, id, newId, now);
    var calendar := st.jobs[id].schedule.value;
    var coalesced := CoalesceOccurrences(calendar, now);
    FireRows(st, id, newId, now);
    CoalescedAreAdjacent(calendar, now);
    assert IsOccurrenceAt(calendar, coalesced.nextRunAt);
    hide Fire, Increasing, IsOccurrenceAt, CoalesceOccurrences, Creates, Evolves;
    if id in st.fired {
      assert FiredInOrder(st, id);
      CoalescedNotBefore(calendar, st.jobs[id].nextRunAt.value, now);
    }
    if id in u.fired {
      forall i | 0 <= i < |u.fired[id]| ensures FiredBefore(u, id, u.fired[id][i]) {
        if i < |FiredOf(st, id)| {
          assert FiredBefore(st, id, st.fired[id][i]);
          RowKept(st.store, u.store, st.fired[id][i]);
        }
      }
      forall i, j | 0 <= i < j < |u.fired[id]|
        ensures u.store.executions[u.fired[id][i]].scheduledFor.value < u.store.executions[u.fired[id][j]].scheduledFor.value
      {
        assert FiredBefore(st, id, st.fired[id][i]);
        RowKept(st.store, u.store, st.fired[id][i]);
        if j < |FiredOf(st, id)| {
          assert FiredBefore(st, id, st.fired[id][j]);
          RowKept(st.store, u.store, st.fired[id][j]);
        }
      }
    }
  }

  // Firing touches no other job, and lists what it creates
  ghost predicate FiresOnly(st: Scheduling, u: Scheduling, id: JobId, newId: ExecId) {
    && Evolves(st.store, u.store)
    && id in u.jobs && u.jobs == st.jobs[id := u.jobs[id]]
    && if u.store.executions.Keys == st.store.executions.Keys then u.fired == st.fired
      else
        && u.store.executions.Keys == st.store.executions.Keys + {newId} && u.store.executions[newId].job.id == id
        && u.fired == st.fired[id := FiredOf(st, id) + [newId]]
  }

  lemma FireShape(st: Scheduling, id: JobId, newId: ExecId, now: Time)
    requires IsDue(st, id, now)
    ensures FiresOnly(st, FireJob(st, id, newId, now), id, newId)
  {
    FireRows(st, id, newId, now);
    hide Fire, CoalesceOccurrences, Creates, Evolves, Increasing, FiredOf;
  }

  lemma OthersKeepOrder(st: Scheduling, u: Scheduling, id: JobId, newId: ExecId, other: JobId)
    requires WellFired(st) && FiresOnly(st, u, id, newId) && other != id && other in u.fired
    ensures FiredInOrder(u, other)
  {
    hide Evolves;
    assert other in st.fired && u.fired[other] == st.fired[other];
    hide FiredInOrder;
    OrderKept(st, u.store, other);
    FiredBeforeIsJob(st, other);
    OtherJobsOrder(st.(store := u.store), u, other);
  }

  lemma FiredStays(st: Scheduling, u: Scheduling, id: JobId, newId: ExecId, x: ExecId)
    requires WellFired(st) && FiresOnly(st, u, id, newId)
    requires x in u.store.executions && u.store.executions[x].source.Scheduled?
    ensures IsFired(u, x)
  {
    hide FiredInOrder;
    if x in st.store.executions {
      RowKept(st.store, u.store, x);
      hide Evolves;
      assert IsFired(st, x);
    } else {
      hide Evolves;
      assert x == newId;
      assert newId in FiredOf(st, id) + [newId];
    }
  }

  lemma FireKeepsOrder(st: Scheduling, id: JobId, newId: ExecId, now: Time)
    requires WellFired(st)
    ensures WellFired(FireJob(st, id, newId, now))
  {
    if IsDue(st, id, now) {
      var u := FireJob(st, id, newId, now);
      FireShape(st, id, newId, now);
      FireKeepsOwnOrder(st, id, newId, now);
      hide FireJob, IsDue, FiresOnly, FiredInOrder, IsFired;
      forall other | other in u.fired ensures FiredInOrder(u, other) {
        if other != id {
          OthersKeepOrder(st, u, id, newId, other);
        }
      }
      forall x | x in u.store.executions && u.store.executions[x].source.Scheduled? ensures IsFired(u, x) {
        FiredStays(st, u, id, newId, x);
      }
    } else {
      assert FireJob(st, id, newId, now) == st;
    }
  }

  lemma FiredBeforeIsJob(st: Scheduling, id: JobId)
    requires id in st.fired && FiredInOrder(st, id)
    ensures id in st.jobs
  {
  }

  lemma OtherJobsOrder(st: Scheduling, u: Scheduling, id: JobId)
    requires id in st.fired && FiredInOrder(st, id) && u.store == st.store
    requires id in u.fired && u.fired[id] == st.fired[id] && id in u.jobs && u.jobs[id] == st.jobs[id]
    ensures FiredInOrder(u, id)
  {
    hide Increasing, IsOccurrenceAt;
    forall i | 0 <= i < |u.fired[id]| ensures FiredBefore(u, id, u.fired[id][i]) {
      assert FiredBefore(st, id, st.fired[id][i]);
    }
  }

  lemma {:induction false} PollKeepsOrder(st: Scheduling, due: seq<JobId>, newIds: seq<ExecId>, now: Time)
    requires WellFired(st) && |newIds| == |due|
    ensures WellFired(Poll(st, due, newIds, now))
    decreases |due|
  {
    hide WellFired, FireJob;
    if due != [] {
      PollKeepsOrder(st, due[..|due| - 1], newIds[..|due| - 1], now);
      FireKeepsOrder(Poll(st, due[..|due| - 1], newIds[..|due| - 1], now), due[|due| - 1], newIds[|due| - 1], now);
    }
  }

  lemma {:induction false} AlwaysWellFired(leaseMs: nat, jobs: map<JobId, ScheduledJob>, acts: seq<Act>)
    ensures WellFired(AfterActs(leaseMs, jobs, acts))
  {
    if acts != [] {
      var st, act := AfterActs(leaseMs, jobs, acts[..|acts| - 1]), acts[|acts| - 1];
      AlwaysWellFired(leaseMs, jobs, acts[..|acts| - 1]);
      hide WellFired, Step, Poll;
      match act
      case Polled(due, newIds, now) =>
        if |newIds| == |due| {
          PollKeepsOrder(st, due, newIds, now);
        }
      case Elsewhere(event) =>
        if Foreign(event) {
          ForeignKeepsOrder(leaseMs, st, event);
        }
    }
  }

  // The executions the scheduler created for a job have strictly increasing scheduled times, all of them before its
  // next run, at whatever times it polled and whatever happened in between
  lemma ScheduledTimesIncrease(leaseMs: nat, jobs: map<JobId, ScheduledJob>, acts: seq<Act>, id: JobId, i: nat, j: nat)
    requires id in AfterActs(leaseMs, jobs, acts).fired && i < j < |AfterActs(leaseMs, jobs, acts).fired[id]|
    ensures var st := AfterActs(leaseMs, jobs, acts);
      && FiredBefore(st, id, st.fired[id][i]) && FiredBefore(st, id, st.fired[id][j])
      && st.store.executions[st.fired[id][i]].scheduledFor.value < st.store.executions[st.fired[id][j]].scheduledFor.value
  {
    AlwaysWellFired(leaseMs, jobs, acts);
    hide AfterActs;
    assert FiredInOrder(AfterActs(leaseMs, jobs, acts), id);
  }

  // And there are no other scheduled executions: each one is in the list of its job
  lemma ScheduledAreFired(leaseMs: nat, jobs: map<JobId, ScheduledJob>, acts: seq<Act>, x: ExecId)
    requires x in AfterActs(leaseMs, jobs, acts).store.executions
    requires AfterActs(leaseMs, jobs, acts).store.executions[x].source.Scheduled?
    ensures IsFired(AfterActs(leaseMs, jobs, acts), x)
  {
    AlwaysWellFired(leaseMs, jobs, acts);
    hide AfterActs;
  }

  ghost predicate DueTold(s: State, t: State, job: ScheduledJob, after: ScheduledJob, newId: ExecId, now: Time) {
    && job.schedule.Some? && after.nextRunAt.Some?
    && IsFirstAfter(job.schedule.value, now, after.nextRunAt.value) && after == job.(nextRunAt := after.nextRunAt)
    && exists due :: IsLastBy(job.schedule.value, now, due) && DueOpened(s, t, job, newId, due)
  }

  ghost predicate DueOpened(s: State, t: State, job: ScheduledJob, newId: ExecId, due: Time) {
    if Occupied(s, job.def.id, due) then t == s
    else Told.Opened(s, t, newId, Request(job.def, job.key, Scheduled, OnSchedule, Some(due), false, None))
  }

  ghost predicate IsLastBy(at: Calendar, now: Time, t: Time) {
    t <= now && IsOccurrenceAt(at, t) && forall i :: at(i) <= now ==> at(i) <= t
  }

  ghost predicate IsFirstAfter(at: Calendar, now: Time, t: Time) {
    now < t && IsOccurrenceAt(at, t) && forall i :: now < at(i) ==> t <= at(i)
  }

  datatype BackfillItem = BackfillItem(scheduledFor: Time, execution: ExecId, existing: bool)

  datatype BackfillError = RequiresSchedule | BadRange(error: RangeError)

  class Scheduler {
    const repository: Repository
    var jobs: map<JobId, ScheduledJob>
    ghost var fired: map<JobId, seq<ExecId>>

    constructor (repository: Repository, jobs: map<JobId, ScheduledJob>)
      ensures this.repository == repository && Whole() == Scheduling(repository.View(), jobs, map[])
    {
      this.repository, this.jobs, fired := repository, jobs, map[];
    }

    ghost function Whole(): Scheduling
      reads this, repository
    {
      Scheduling(repository.View(), jobs, fired)
    }

    // One turn of processDueJobs
    method ProcessDueJob(id: JobId, newId: ExecId, now: Time)
      requires id in jobs && jobs[id].def.id == id && Due(jobs[id], now)
      requires newId !in repository.executions && OccurrencesUnique(repository.View())
      modifies this`jobs, this`fired, repository
      ensures Whole() == FireJob(old(Whole()), id, newId, now)
      ensures repository.View() == Fire(old(repository.View()), old(jobs)[id], newId, now)
      ensures jobs == old(jobs)[id := Rescheduled(old(jobs)[id], now)]
      // It waits for the first occurrence from now on, and its last one by now is enqueued unless something stands for it
      ensures DueTold(old(repository.View()), repository.View(), old(jobs)[id], jobs[id], newId, now)
    {
      var job := jobs[id];
      var occurrence := CoalesceOccurrences(job.schedule.value, now);
      assert IsLastBy(job.schedule.value, now, occurrence.scheduledFor);
      assert IsFirstAfter(job.schedule.value, now, occurrence.nextRunAt);
      hide OccurrencesUnique, Occupied, CoalesceOccurrences, Overlapped, Told.Opened, Told.MakesRoom, IsLastBy, IsFirstAfter;
      if Creates(Whole(), id, newId, now) {
        fired := fired[id := FiredOf(Whole(), id) + [newId]];
      }
      if !Occupied(repository.View(), id, occurrence.scheduledFor) {
        repository.EnqueueExecution(newId, OccurrenceRequest(job.def, job.key, Scheduled, occurrence.scheduledFor));
      }
      jobs := jobs[id := job.(nextRunAt := Some(occurrence.nextRunAt))];
      assert DueOpened(old(repository.View()), repository.View(), job, newId, occurrence.scheduledFor);
    }

    // Every due job gets the execution for its coalesced occurrence and waits for the next one
    method ProcessDueJobs(due: seq<JobId>, newIds: seq<ExecId>, now: Time)
      requires AllDue(jobs, due, now) && |newIds| == |due| && AllFresh(repository.View(), newIds)
      requires OccurrencesUnique(repository.View())
      modifies this`jobs, this`fired, repository
      ensures Whole() == Poll(old(Whole()), due, newIds, now)
      ensures OccurrencesUnique(repository.View()) && Evolves(old(repository.View()), repository.View())
      ensures jobs.Keys == old(jobs).Keys
      ensures forall i :: 0 <= i < |due| ==>
        jobs[due[i]] == Rescheduled(old(jobs)[due[i]], now) &&
        Occupied(repository.View(), due[i], CoalesceOccurrences(jobs[due[i]].schedule.value, now).scheduledFor)
      ensures forall id :: id in jobs && id !in due ==> jobs[id] == old(jobs)[id]
    {
      hide OccurrencesUnique, Occupied, Evolves, CoalesceOccurrences, Increasing, Fire, FireJob, Poll, DueTold;
      NothingPolled(Whole(), now);
      ghost var s := repository.View();
      EvolvesSelf(s);
      for i := 0 to |due|
        invariant Whole() == Poll(old(Whole()), due[..i], newIds[..i], now)
        invariant OccurrencesUnique(repository.View()) && Evolves(s, repository.View())
        invariant jobs.Keys == old(jobs).Keys
        invariant forall k :: i <= k < |due| ==> newIds[k] !in repository.executions && jobs[due[k]] == old(jobs)[due[k]]
        invariant forall k :: 0 <= k < i ==>
          jobs[due[k]] == Rescheduled(old(jobs)[due[k]], now) &&
          Occupied(repository.View(), due[k], CoalesceOccurrences(jobs[due[k]].schedule.value, now).scheduledFor)
        invariant forall id :: id in jobs && id !in due ==> jobs[id] == old(jobs)[id]
      {
        ghost var t := repository.View();
        ghost var job := jobs[due[i]];
        PollNext(old(Whole()), due, newIds, i, now);
        ProcessDueJob(due[i], newIds[i], now);
        FireOccupies(t, job, newIds[i], now);
        EvolvesTransitive(s, t, repository.View());
        forall k | 0 <= k < i
          ensures Occupied(repository.View(), due[k], CoalesceOccurrences(jobs[due[k]].schedule.value, now).scheduledFor)
        {
          OccupiedOn(t, repository.View(), due[k], CoalesceOccurrences(jobs[due[k]].schedule.value, now).scheduledFor);
        }
      }
      assert due[..|due|] == due && newIds[..|newIds|] == newIds;
    }

    // One turn of applyBackfill's loop
    method BackfillOccurrence(job: ScheduledJob, key: Option<string>, at: Time, newId: ExecId) returns (item: BackfillItem)
      requires newId !in repository.executions && OccurrencesUnique(repository.View())
      modifies repository
      ensures item.scheduledFor == at && item.existing == Occupied(old(repository.View()), job.def.id, at)
      ensures item.existing ==>
        repository.View() == old(repository.View()) && Stands(repository.View(), job.def.id, at, item.execution)
      ensures !item.existing ==> item.execution == newId
      ensures !item.existing ==>
        Told.Opened(old(repository.View()), repository.View(), newId, Request(job.def, key, Backfill, OnRequest, Some(at), false, None))
      ensures !item.existing ==>
        repository.View() == Enqueue(old(repository.View()), newId, OccurrenceRequest(job.def, key, Backfill, at))
    {
      hide OccurrencesUnique, Overlapped, Told.Opened, Told.MakesRoom;
      var s := repository.View();
      if Occupied(s, job.def.id, at) {
        var id :| id in s.executions && s.executions[id].job.id == job.def.id &&
          IsOccurrence(s.executions[id].source) && s.executions[id].scheduledFor == Some(at);
        return BackfillItem(at, id, true);
      }
      repository.EnqueueExecution(newId, OccurrenceRequest(job.def, key, Backfill, at));
      return BackfillItem(at, newId, false);
    }

    // Every occurrence of the range ends up with its one execution, in order, and a repetition adds none
    method ApplyBackfill(job: ScheduledJob, key: Option<string>, from: Time, to: Time, newIds: seq<ExecId>)
      returns (r: Result<seq<BackfillItem>, BackfillError>)
      requires job.schedule.Some? ==> Increasing(job.schedule.value)
      requires AllFresh(repository.View(), newIds) && |newIds| == LIMIT
      requires OccurrencesUnique(repository.View())
      modifies repository
      ensures r == Err(RequiresSchedule) <==> job.schedule.None?
      ensures r == Err(BadRange(InvalidRange)) <==> job.schedule.Some? && from >= to
      ensures r == Err(BadRange(LimitExceeded)) <==>
        job.schedule.Some? && from < to && exists i :: from <= job.schedule.value(i) && job.schedule.value(i + 500) <= to
      ensures r.Err? ==> repository.View() == old(repository.View())
      ensures r.Ok? ==> AllOccurrences(job.schedule.value, from, to, Times(r.value))
      ensures r.Ok? ==> Backfilled(old(repository.View()), repository.View(), job.def.id, r.value)
    {
      hide Stands, Occupied, Enqueue, OccurrencesUnique, Evolves, Increasing, Filling, Backfilled, AllFresh, AllOccurrences;
      if job.schedule.None? {
        return Err(RequiresSchedule);
      }
      var range := EnumerateOccurrences(job.schedule.value, from, to);
      if range.Err? {
        return Err(BadRange(range.error));
      }
      var occurrences := range.value;
      RangeDistinct(job.schedule.value, from, to, occurrences);
      var items: seq<BackfillItem> := [];
      ghost var s := repository.View();
      NothingBackfilled(s, job.def.id, occurrences, newIds);
      for i := 0 to |occurrences|
        invariant Filling(s, repository.View(), job.def.id, occurrences, newIds, items) && |items| == i
      {
        ghost var t := repository.View();
        FillingFacts(s, t, job.def.id, occurrences, newIds, items);
        var item := BackfillOccurrence(job, key, occurrences[i], newIds[i]);
        OneMoreFilled(s, t, repository.View(), job, key, occurrences, newIds, items, item);
        items := items + [item];
      }
      FilledAll(s, repository.View(), job.def.id, occurrences, newIds, items);
      assert Times(items) == occurrences;
      return Ok(items);
    }
  }

  lemma NothingPolled(st: Scheduling, now: Time)
    ensures Poll(st, [], [], now) == st
  {
  }

  lemma PollNext(st: Scheduling, due: seq<JobId>, newIds: seq<ExecId>, i: nat, now: Time)
    requires i < |due| == |newIds|
    ensures Poll(st, due[..i + 1], newIds[..i + 1], now) == FireJob(Poll(st, due[..i], newIds[..i], now), due[i], newIds[i], now)
  {
    assert due[..i + 1][..i] == due[..i] && newIds[..i + 1][..i] == newIds[..i];
    hide FireJob;
  }

  function Times(items: seq<BackfillItem>): seq<Time> {
    seq(|items|, k requires 0 <= k < |items| => items[k].scheduledFor)
  }

  // What a backfill leaves: each item stands for its occurrence, and existing ones were there before
  ghost predicate Backfilled(s: State, t: State, job: JobId, items: seq<BackfillItem>) {
    && OccurrencesUnique(t) && Evolves(s, t)
    && (forall k :: 0 <= k < |items| ==> Stands(t, job, items[k].scheduledFor, items[k].execution))
    && (forall k :: 0 <= k < |items| ==> (items[k].existing <==> Occupied(s, job, items[k].scheduledFor)))
    && ((forall k :: 0 <= k < |items| ==> items[k].existing) ==> t == s)
  }

  // The loop of a backfill, after the items so far
  ghost predicate Filling(
    s: State, t: State, job: JobId, occurrences: seq<Time>, newIds: seq<ExecId>, items: seq<BackfillItem>) {
    && |items| <= |occurrences| <= |newIds|
    && Backfilled(s, t, job, items)
    && (forall i, j :: 0 <= i < j < |occurrences| ==> occurrences[i] != occurrences[j])
    && (forall i, j :: 0 <= i < j < |newIds| ==> newIds[i] != newIds[j])
    && (forall k :: 0 <= k < |items| ==> items[k].scheduledFor == occurrences[k])
    && (forall k :: |items| <= k < |occurrences| ==>
      newIds[k] !in t.executions && (Occupied(t, job, occurrences[k]) <==> Occupied(s, job, occurrences[k])))
  }

  lemma NothingBackfilled(s: State, job: JobId, occurrences: seq<Time>, newIds: seq<ExecId>)
    requires OccurrencesUnique(s) && AllFresh(s, newIds) && |occurrences| <= |newIds|
    requires forall i, j :: 0 <= i < j < |occurrences| ==> occurrences[i] != occurrences[j]
    ensures Filling(s, s, job, occurrences, newIds, [])
  {
    hide Occupied, OccurrencesUnique;
    EvolvesSelf(s);
  }

  lemma FillingFacts(s: State, t: State, job: JobId, occurrences: seq<Time>, newIds: seq<ExecId>, items: seq<BackfillItem>)
    requires Filling(s, t, job, occurrences, newIds, items)
    ensures |occurrences| <= |newIds| && OccurrencesUnique(t)
    ensures |items| < |occurrences| ==> newIds[|items|] !in t.executions
  {
    hide Occupied, Evolves, OccurrencesUnique;
  }

  lemma FilledAll(s: State, t: State, job: JobId, occurrences: seq<Time>, newIds: seq<ExecId>, items: seq<BackfillItem>)
    requires Filling(s, t, job, occurrences, newIds, items) && |items| == |occurrences|
    ensures Backfilled(s, t, job, items) && forall k :: 0 <= k < |items| ==> items[k].scheduledFor == occurrences[k]
  {
    hide Backfilled, Occupied;
  }

  // What one occurrence does to the executions that stand for any
  ghost predicate FillsOne(s: State, t: State, job: JobId, at: Time, item: BackfillItem, newId: ExecId) {
    && OccurrencesUnique(t) && Evolves(s, t)
    && (forall x :: x in t.executions ==> x == newId || x in s.executions)
    && Stands(t, job, at, item.execution)
    && (forall other :: other != at ==> (Occupied(t, job, other) <==> Occupied(s, job, other)))
    && (item.existing <==> Occupied(s, job, at)) && (item.existing ==> t == s)
  }

  lemma ItemFillsOne(s: State, t: State, job: ScheduledJob, key: Option<string>, at: Time, item: BackfillItem, newId: ExecId)
    requires OccurrencesUnique(s) && newId !in s.executions
    requires item.existing == Occupied(s, job.def.id, at)
    requires item.existing ==> t == s && Stands(t, job.def.id, at, item.execution)
    requires !item.existing ==> item.execution == newId && t == Enqueue(s, newId, OccurrenceRequest(job.def, key, Backfill, at))
    ensures FillsOne(s, t, job.def.id, at, item, newId)
  {
    hide Occupied, Evolves, OccurrencesUnique, Enqueue, Stands;
    if item.existing {
      EvolvesSelf(s);
    } else {
      var request := OccurrenceRequest(job.def, key, Backfill, at);
      assert Admissible(s, newId, request);
      EnqueueUnique(s, newId, request);
      forall other {
        EnqueueOccupies(s, newId, request, job.def.id, other);
      }
    }
  }

  lemma OneMoreFilled(
    s: State, t: State, u: State, job: ScheduledJob, key: Option<string>, occurrences: seq<Time>, newIds: seq<ExecId>,
    items: seq<BackfillItem>, item: BackfillItem)
    requires Filling(s, t, job.def.id, occurrences, newIds, items) && |items| < |occurrences|
    requires item.scheduledFor == occurrences[|items|] && item.existing == Occupied(t, job.def.id, occurrences[|items|])
    requires item.existing ==> u == t && Stands(u, job.def.id, occurrences[|items|], item.execution)
    requires !item.existing ==> item.execution == newIds[|items|]
    requires !item.existing ==>
      u == Enqueue(t, newIds[|items|], OccurrenceRequest(job.def, key, Backfill, occurrences[|items|]))
    ensures Filling(s, u, job.def.id, occurrences, newIds, items + [item])
  {
    var i := |items|;
    hide Occupied, Evolves, OccurrencesUnique, Enqueue, Stands;
    ItemFillsOne(t, u, job, key, occurrences[i], item, newIds[i]);
    EvolvesTransitive(s, t, u);
    forall k | 0 <= k < i ensures Stands(u, job.def.id, items[k].scheduledFor, items[k].execution) {
      StandsOn(t, u, job.def.id, items[k].scheduledFor, items[k].execution);
    }
    forall k | 0 <= k <= i
      ensures Stands(u, job.def.id, (items + [item])[k].scheduledFor, (items + [item])[k].execution)
      ensures (items + [item])[k].existing <==> Occupied(s, job.def.id, (items + [item])[k].scheduledFor)
    {
      if k < i {
        assert (items + [item])[k] == items[k];
      }
    }
    if forall k :: 0 <= k <= i ==> (items + [item])[k].existing {
      assert forall k :: 0 <= k < i ==> items[k] == (items + [item])[k];
      assert (items + [item])[i].existing;
    }
  }

  lemma Earlier(at: Calendar, i: int, j: int)
    requires Increasing(at) && i < j
    ensures at(i) < at(j)
  {
  }

  lemma RangeDistinct(at: Calendar, from: Time, to: Time, occurrences: seq<Time>)
    requires Increasing(at)
    requires AllOccurrences(at, from, to, occurrences)
    ensures forall i, j :: 0 <= i < j < |occurrences| ==> occurrences[i] != occurrences[j]
  {
    hide IsRange, Increasing;
    var first :| occurrences == Stretch(at, first, |occurrences|) && IsRange(at, from, to, first, |occurrences|);
    forall i, j | 0 <= i < j < |occurrences| ensures occurrences[i] != occurrences[j] {
      assert occurrences[i] == at(first + i) && occurrences[j] == at(first + j);
      Earlier(at, first + i, first + j);
    }
  }

  // Whatever happened in between, a second backfill of the range finds every execution of the first
  lemma BackfillAgain(s: State, t: State, u: State, v: State, job: JobId, items: seq<BackfillItem>, again: seq<BackfillItem>)
    requires Backfilled(s, t, job, items) && Evolves(t, u) && Backfilled(u, v, job, again)
    requires |again| == |items| && forall k :: 0 <= k < |items| ==> again[k].scheduledFor == items[k].scheduledFor
    ensures v == u
    ensures forall k :: 0 <= k < |items| ==> again[k].existing && again[k].execution == items[k].execution
  {
    hide Evolves, OccurrencesUnique, Occupied;
    forall k | 0 <= k < |items| ensures again[k].existing {
      StandsOn(t, u, job, items[k].scheduledFor, items[k].execution);
      StandsOccupies(u, job, items[k].scheduledFor, items[k].execution);
    }
    forall k | 0 <= k < |items| ensures again[k].execution == items[k].execution {
      StandsOn(t, u, job, items[k].scheduledFor, items[k].execution);
      StandsAlone(v, job, items[k].scheduledFor, items[k].execution, again[k].execution);
    }
  }

  lemma StandsOccupies(s: State, job: JobId, at: Time, id: ExecId)
    requires Stands(s, job, at, id)
    ensures Occupied(s, job, at)
  {
  }

  lemma EvolvesSelf(s: State)
    ensures Evolves(s, s)
  {
  }

  lemma EvolvesTransitive(s: State, t: State, u: State)
    requires Evolves(s, t) && Evolves(t, u)
    ensures Evolves(s, u)
  {
    forall id | id in s.executions ensures id in u.executions && RowEvolves(s.executions[id], u.executions[id]) {
      assert RowEvolves(s.executions[id], t.executions[id]) && RowEvolves(t.executions[id], u.executions[id]);
    }
  }

  lemma OccupiedOn(s: State, t: State, job: JobId, at: Time)
    requires Evolves(s, t) && Occupied(s, job, at)
    ensures Occupied(t, job, at)
  {
    var id :| id in s.executions && Stands(s, job, at, id);
    StandsOn(s, t, job, at, id);
  }
}
