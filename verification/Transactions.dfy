/**
 * What the transactions on executions do, told by rows and columns alone: which executions may be claimed,
 * what a request opens and what it makes room by, what reaping, cancelling and finishing write.
 */
module Transactions {
  import opened Wrappers
  import opened Executions
  import opened ExecutionLaws
  import Rates = ExecutionRates

  // ----- Claims -----

  // The multiple of the interval, in microseconds, that a moment falls behind
  ghost predicate IsWindowOf(w: Time, now: Time, intervalMs: int)
    requires intervalMs > 0
  {
    w % (1000 * intervalMs) == 0 && w <= now < w + 1000 * intervalMs
  }

  ghost predicate HasRateLimit(policy: Policy) {
    policy.maxStarts.Some? && policy.intervalMs.Some? && policy.intervalMs.value > 0
  }

  // A queued execution may be claimed: its queue is neither paused nor full, its job has a free place, nothing runs
  // under its key, and the current window of its queue has a start left
  ghost predicate Claimable(s: State, id: ExecId, now: Time) {
    && id in s.executions && s.executions[id].status == Queued
    && var row, queue := s.executions[id], s.executions[id].job.queue;
    && queue in s.policies && !s.policies[queue].paused
    && (s.policies[queue].maxRunning.Some? ==>
      |set r | r in s.executions && s.executions[r].status == Running && s.executions[r].job.queue == queue| <
        s.policies[queue].maxRunning.value)
    && |set r | r in s.executions && s.executions[r].status == Running && s.executions[r].job.id == row.job.id| <
      (match row.job.maxRunning case None => 1 case Some(n) => n)
    && (row.key.Some? ==>
      !exists r :: r in s.executions && s.executions[r].status == Running && s.executions[r].job.id == row.job.id &&
        s.executions[r].key == row.key)
    && (HasRateLimit(s.policies[queue]) ==> HasStartLeft(s, queue, now))
  }

  ghost predicate HasStartLeft(s: State, queue: Queue, now: Time)
    requires queue in s.policies && HasRateLimit(s.policies[queue])
  {
    forall w :: (queue, w) in s.windows && IsWindowOf(w, now, s.policies[queue].intervalMs.value) ==>
      s.windows[(queue, w)] < s.policies[queue].maxStarts.value
  }

  lemma MultipleBelow(w: int, now: int, d: int)
    requires d > 0 && w % d == 0 && w <= now < w + d
    ensures w == now / d * d
  {
    var k, m := w / d, now / d;
    assert (m - k) * d == now - now % d - w;
    assert (k - m) * d == w - now + now % d;
    Rates.SmallFactor(m - k, d);
    Rates.SmallFactor(k - m, d);
  }

  lemma MultipleRemainder(k: int, d: int)
    requires d > 0
    ensures k * d % d == 0
  {
    var q, r := k * d / d, k * d % d;
    assert (k - q) * d == r && (q - k) * d == -r;
    Rates.SmallFactor(k - q, d);
    Rates.SmallFactor(q - k, d);
  }

  lemma WindowIsMultiple(w: Time, now: Time, intervalMs: int)
    requires intervalMs > 0
    ensures IsWindowOf(w, now, intervalMs) <==> w == Window(now, intervalMs)
  {
    var d := 1000 * intervalMs;
    assert Micros(intervalMs) == d;
    MultipleRemainder(now / d, d);
    if IsWindowOf(w, now, intervalMs) {
      MultipleBelow(w, now, d);
    }
  }

  lemma RateIsStartLeft(s: State, queue: Queue, now: Time)
    requires queue in s.policies && HasRateLimit(s.policies[queue])
    ensures RateAllows(s, queue, s.policies[queue], now) <==> HasStartLeft(s, queue, now)
  {
    var interval := s.policies[queue].intervalMs.value;
    forall w { WindowIsMultiple(w, now, interval); }
    hide IsWindowOf, Window;
  }

  lemma ClaimableIsEligible(s: State, id: ExecId, now: Time)
    ensures Eligible(s, id, now) <==> Claimable(s, id, now)
  {
    if id in s.executions && s.executions[id].job.queue in s.policies {
      var row, queue := s.executions[id], s.executions[id].job.queue;
      assert RunningInQueue(s, queue) ==
        set r | r in s.executions && s.executions[r].status == Running && s.executions[r].job.queue == queue;
      assert RunningOfJob(s, row.job.id) ==
        set r | r in s.executions && s.executions[r].status == Running && s.executions[r].job.id == row.job.id;
      if HasRateLimit(s.policies[queue]) {
        RateIsStartLeft(s, queue, now);
      }
      hide HasStartLeft, Window;
    }
  }

  // A claim: the row runs under a fresh lease, and a start is counted in the window it is recorded in
  ghost predicate Claimed(
    s: State, t: State, leaseMs: nat, worker: WorkerId, id: ExecId, claimed: Time, recorded: Time) {
    && id in s.executions && s.executions[id].job.queue in s.policies
    && var queue := s.executions[id].job.queue;
    && t.executions == s.executions[id := s.executions[id].(
      status := Running, worker := Some(worker), leaseExpires := Some(claimed + 1000 * leaseMs),
      claimNo := s.claims, capAtClaim := s.policies[queue].maxRunning)]
    && t.clock == recorded && t.policies == s.policies
    && (if HasRateLimit(s.policies[queue])
        then exists w :: IsWindowOf(w, recorded, s.policies[queue].intervalMs.value) && CountsOneMore(s, t, queue, w)
        else t.windows == s.windows)
    && t.deliveries == s.deliveries && t.events == s.events
  }

  ghost predicate CountsOneMore(s: State, t: State, queue: Queue, w: Time) {
    t.windows == s.windows[(queue, w) := 1 + if (queue, w) in s.windows then s.windows[(queue, w)] else 0]
  }

  lemma ClaimClaims(
    leaseMs: nat, s: State, worker: WorkerId, id: ExecId, checked: Time, claimed: Time, recorded: Time)
    requires s.clock <= checked <= claimed <= recorded
    ensures var t := Claim(s, leaseMs, worker, id, checked, claimed, recorded);
      if Claimable(s, id, checked) then Claimed(s, t, leaseMs, worker, id, claimed, recorded) else t == s
  {
    ClaimableIsEligible(s, id, checked);
    hide Claimable;
    if Eligible(s, id, checked) {
      hide RateAllows, RunningInQueue, RunningOfJob;
      var queue := s.executions[id].job.queue;
      if HasRateLimit(s.policies[queue]) {
        var w := Window(recorded, s.policies[queue].intervalMs.value);
        WindowIsMultiple(w, recorded, s.policies[queue].intervalMs.value);
        hide Window, IsWindowOf, Starts;
        assert CountsOneMore(s, Claim(s, leaseMs, worker, id, checked, claimed, recorded), queue, w);
      }
    }
  }

  // ----- Requests -----

  // A request stands for an occurrence exactly when the scheduler or a backfill makes it, and no other execution of
  // the job stands for the same one
  ghost predicate Fits(s: State, id: ExecId, request: Request) {
    && id !in s.executions
    && (request.scheduledFor.Some? <==> request.source == Scheduled || request.source == Backfill)
    && (request.scheduledFor.Some? ==>
      !exists r :: r in s.executions && s.executions[r].job.id == request.job.id &&
        (s.executions[r].source == Scheduled || s.executions[r].source == Backfill) &&
        s.executions[r].scheduledFor == request.scheduledFor)
  }

  // The overlap mode of a request: SCHEDULED, skip by default, for the scheduler; TRIGGERED, queue by default, for
  // other requests; none for a test
  ghost predicate Asks(request: Request, mode: Overlap) {
    match request.kind
    case OnSchedule => request.job.overlapScheduled == Some(mode) || (request.job.overlapScheduled.None? && mode == SkipNew)
    case OnRequest => request.job.overlapTriggered == Some(mode) || (request.job.overlapTriggered.None? && mode == QueueNew)
    case ForTest => mode == QueueNew
  }

  // An active execution in the way of a request: of its job, and of its key if it has one
  ghost predicate IsInTheWay(s: State, request: Request, r: ExecId) {
    && r in s.executions && s.executions[r].job.id == request.job.id
    && (s.executions[r].status == Queued || s.executions[r].status == Running)
    && (request.key.Some? ==> s.executions[r].key == request.key)
  }

  // The one requested first, by its id among those of one moment
  ghost predicate IsFirstInTheWay(s: State, request: Request, r: ExecId) {
    && IsInTheWay(s, request, r)
    && forall q :: IsInTheWay(s, request, q) && q != r ==>
      s.executions[r].requestedAt < s.executions[q].requestedAt
      || (s.executions[r].requestedAt == s.executions[q].requestedAt && r < q)
  }

  // What a request does to the rows and policies. The new row has the request's columns, waits from now on, or is
  // skipped when the mode says so and something is in the way; under cancel_oldest the first in the way is cancelled
  // if it waits and asked to cancel if it runs
  ghost predicate Opened(s: State, t: State, id: ExecId, request: Request) {
    && id !in s.executions && id in t.executions && OpenedRow(t.executions[id], request, s.clock)
    && MakesRoom(s, t.executions - {id}, request, t.executions[id].status)
    && t.policies == (if request.job.queue in s.policies then s.policies
      else s.policies[request.job.queue := Policy(false, None, None, None, 1)])
  }

  lemma OpenedRest(s: State, t: State, u: State, id: ExecId, request: Request)
    requires Opened(s, t, id, request) && u.executions == t.executions && u.policies == t.policies
    ensures Opened(s, u, id, request)
  {
    hide MakesRoom, OpenedRow;
  }

  // What the overlap policy does for a request, and the status it gives the new row
  ghost predicate MakesRoom(s: State, rows: map<ExecId, Execution>, request: Request, status: Status) {
    && rows.Keys == s.executions.Keys
    && status == (if Asks(request, SkipNew) && exists r :: IsInTheWay(s, request, r) then Skipped else Queued)
    && forall r :: r in s.executions ==>
      if Asks(request, CancelOldest) && IsFirstInTheWay(s, request, r)
      then MadeRoom(s.executions[r], rows[r]) else rows[r] == s.executions[r]
  }

  ghost predicate OpenedRow(row: Execution, request: Request, now: Time) {
    && row.job == request.job && row.key == request.key && row.source == request.source
    && row.scheduledFor == request.scheduledFor && row.suppressed == request.suppressed && row.parent == request.parent
    && row.requestedAt == now && row.worker.None? && row.leaseExpires.None? && !row.cancelRequested && row.error.None?
  }

  ghost predicate MadeRoom(before: Execution, after: Execution) {
    after == if before.status == Queued
      then before.(status := Cancelled, cancelRequested := true, error := Some(OverlapCancelled))
      else before.(cancelRequested := true)
  }

  lemma FitsIsAdmissible(s: State, id: ExecId, request: Request)
    ensures Fits(s, id, request) <==> Admissible(s, id, request)
  {
  }

  lemma ModeIsAsked(request: Request, mode: Overlap)
    ensures Mode(request.job, request.kind) == mode <==> Asks(request, mode)
  {
  }

  lemma InTheWayIsActive(s: State, request: Request, r: ExecId)
    ensures IsInTheWay(s, request, r) <==> r in ActiveFor(s, request.job.id, request.key)
  {
  }

  lemma FirstIsOldest(s: State, request: Request, r: ExecId)
    requires ActiveFor(s, request.job.id, request.key) != {}
    ensures IsFirstInTheWay(s, request, r) <==> r == Oldest(s, ActiveFor(s, request.job.id, request.key))
  {
    var active := ActiveFor(s, request.job.id, request.key);
    forall q { InTheWayIsActive(s, request, q); }
    ActiveIsStored(s, request);
    var oldest := Oldest(s, active);
    assert IsOldest(s, active, oldest);
    hide ActiveFor, IsInTheWay, Oldest;
    assert IsFirstInTheWay(s, request, oldest);
    if IsFirstInTheWay(s, request, r) && r != oldest {
      assert IsInTheWay(s, request, oldest) && IsInTheWay(s, request, r);
      assert Before(s, oldest, r);
    }
  }

  lemma ActiveIsStored(s: State, request: Request)
    ensures ActiveFor(s, request.job.id, request.key) <= s.executions.Keys
  {
  }

  lemma DisplacedMakesRoom(s: State, oldest: ExecId)
    requires oldest in s.executions && !s.executions[oldest].status.Terminal()
    ensures var t := Displaced(s, oldest);
      && t.executions.Keys == s.executions.Keys && MadeRoom(s.executions[oldest], t.executions[oldest])
      && (forall r :: r in s.executions && r != oldest ==> t.executions[r] == s.executions[r])
  {
    hide End;
    if s.executions[oldest].status.Queued? {
      EndQuiet(s, oldest, CancelledBy(s.executions[oldest], Some(OverlapCancelled)));
      hide Quiet;
    }
  }

  // The rows after the overlap policy, and the status it gives the new one
  lemma OverlappedRows(s: State, request: Request)
    ensures var (t, status) := Overlapped(s, request.job, request.key, request.kind); MakesRoom(s, t.executions, request, status)
  {
    var active := ActiveFor(s, request.job.id, request.key);
    ModeIsAsked(request, SkipNew);
    ModeIsAsked(request, CancelOldest);
    forall r { InTheWayIsActive(s, request, r); }
    ActiveIsStored(s, request);
    if active != {} {
      forall r { FirstIsOldest(s, request, r); }
      OldestIsActive(s, active);
      assert !s.executions[Oldest(s, active)].status.Terminal();
      DisplacedMakesRoom(s, Oldest(s, active));
    } else {
      assert forall r :: !IsFirstInTheWay(s, request, r);
    }
    hide Asks, IsInTheWay, IsFirstInTheWay, ActiveFor, Mode, Displaced, Oldest, MadeRoom;
  }

  lemma InsertedOpens(s: State, t: State, status: Status, id: ExecId, request: Request)
    requires id !in s.executions && MakesRoom(s, t.executions, request, status)
    requires t.policies == s.policies && t.clock == s.clock && !status.Running?
    ensures Opened(s, Inserted(t, id, request, status), id, request)
  {
    assert t.executions.Keys == s.executions.Keys;
    InsertedQuiet(t, id, request, status);
    NewRowIsOpened(t, request, status);
    hide Inserted, Quiet, NewRow, MakesRoom, OpenedRow, Evolves;
    assert Inserted(t, id, request, status).executions - {id} == t.executions;
  }

  lemma EnqueueOpens(s: State, id: ExecId, request: Request)
    ensures if Fits(s, id, request) then Opened(s, Enqueue(s, id, request), id, request) else Enqueue(s, id, request) == s
  {
    FitsIsAdmissible(s, id, request);
    hide Fits, Admissible, Opened, MakesRoom, Inserted, Overlapped, Quiet;
    if Admissible(s, id, request) {
      AdmissibleIsFresh(s, id, request);
      OverlappedRows(s, request);
      OverlappedQuiet(s, request.job, request.key, request.kind);
      OverlappedStatus(s, request.job, request.key, request.kind);
      var (t, status) := Overlapped(s, request.job, request.key, request.kind);
      InsertedOpens(s, t, status, id, request);
    }
  }

  lemma NewRowIsOpened(s: State, request: Request, status: Status)
    ensures OpenedRow(NewRow(s, request, status), request, s.clock) && NewRow(s, request, status).status == status
  {
  }

  // ----- Lost leases -----

  // A running execution without a lease, or with one that is over, fails as lost; nothing else happens to a row
  ghost predicate ReapedRows(s: State, t: State, ids: seq<ExecId>) {
    && t.executions.Keys == s.executions.Keys
    && forall r :: r in s.executions ==>
      t.executions[r] ==
        if r in ids && s.executions[r].status == Running &&
          (match s.executions[r].leaseExpires case None => true case Some(over) => over < s.clock)
        then s.executions[r].(status := Failed, error := Some(WorkerLost)) else s.executions[r]
  }

  lemma {:induction false} ReapReaps(s: State, ids: seq<ExecId>)
    ensures ReapedRows(s, Reap(s, ids), ids) && Reap(s, ids).clock == s.clock
    decreases |ids|
  {
    if ids != [] {
      ReapReaps(s, ids[..|ids| - 1]);
      hide ReapedRows;
      ReapsOneMore(s, Reap(s, ids[..|ids| - 1]), ids);
    }
  }

  lemma ReapsOneMore(s: State, t: State, ids: seq<ExecId>)
    requires ids != [] && ReapedRows(s, t, ids[..|ids| - 1]) && t.clock == s.clock
    ensures var id := ids[|ids| - 1];
      var u := if id in t.executions && Expired(t, t.executions[id]) then End(t, id, Lost(t.executions[id])) else t;
      ReapedRows(s, u, ids) && u.clock == s.clock
  {
    var id := ids[|ids| - 1];
    assert ids == ids[..|ids| - 1] + [id];
    if id in t.executions && Expired(t, t.executions[id]) {
      EndQuiet(t, id, Lost(t.executions[id]));
      hide End, Quiet;
    }
  }

  // ----- Ends and cancellations -----

  // A cancellation ends what waits, marks what runs, leaves what is cancelled alone and is refused for the rest
  ghost predicate CancelAnswers(s: State, t: State, id: ExecId, r: Result<bool, CancelError>) {
    if id !in s.executions then t == s && r == Err(ExecutionNotFound)
    else match s.executions[id].status
      case Queued => r == Ok(false) && t.executions == s.executions[id := s.executions[id].(status := Cancelled, cancelRequested := true)]
      case Running => r == Ok(true) && t == s.(executions := s.executions[id := s.executions[id].(cancelRequested := true)])
      case Cancelled => r == Ok(false) && t == s
      case _ => r == Err(NotCancellable) && t == s
  }

  lemma CancelIsAnswered(s: State, id: ExecId)
    ensures match RequestCancel(s, id)
      case Ok((t, abort)) => CancelAnswers(s, t, id, Ok(abort))
      case Err(e) => CancelAnswers(s, s, id, Err(e))
  {
    hide End;
    if id in s.executions && s.executions[id].status.Queued? {
      EndQuiet(s, id, CancelledBy(s.executions[id], s.executions[id].error));
      hide Quiet;
    }
  }

  // Finishing writes the status and the code of a running row, and nothing else
  lemma FinishWrites(s: State, id: ExecId, status: Status, error: Option<Code>)
    requires WorkersEnd(status, error)
    ensures Finish(s, id, status, error).executions ==
      if id in s.executions && s.executions[id].status == Running
      then s.executions[id := s.executions[id].(status := status, error := error)] else s.executions
  {
    hide End;
    if id in s.executions && s.executions[id].status.Running? {
      EndQuiet(s, id, s.executions[id].(status := status, error := error));
      hide Quiet;
    }
  }

  // ----- The outbox -----

  // A webhook without EVENTS is told of every end, another one of the ends it lists; nobody of a suppressed one
  ghost predicate IsDue(id: ExecId, row: Execution, d: Delivery) {
    && d.execution == id && d.status == row.status && row.status != Queued && row.status != Running && !row.suppressed
    && d.subscription < |row.job.webhooks|
    && match row.job.webhooks[d.subscription] case None => true case Some(statuses) => row.status in statuses
  }

  // An end sets off each enabled trigger that watches its job and its status, unless it is suppressed
  ghost predicate IsSetOff(triggers: map<TriggerId, CompletionTrigger>, id: ExecId, row: Execution, e: TriggerEvent) {
    && e.source == id && row.status != Queued && row.status != Running && !row.suppressed
    && e.trigger in triggers && triggers[e.trigger].enabled
    && triggers[e.trigger].source == row.job.id && row.status in triggers[e.trigger].statuses
  }

  // ----- Policies -----

  predicate KeptOrSet<T(==)>(before: T, patched: Option<T>, after: T) {
    after == match patched case None => before case Some(value) => value
  }

  // The next version of a policy: the mentioned fields set, the others kept
  ghost predicate IsNext(before: Policy, patch: Patch, next: Policy) {
    && next.version == before.version + 1
    && KeptOrSet(before.paused, patch.paused, next.paused)
    && KeptOrSet(before.maxRunning, patch.maxRunning, next.maxRunning)
    && KeptOrSet(before.maxStarts, patch.maxStarts, next.maxStarts)
    && KeptOrSet(before.intervalMs, patch.intervalMs, next.intervalMs)
  }

  // A cap or a number of starts that is not positive, or an interval shorter than a second or longer than a day
  ghost predicate OutOfRange(policy: Policy) {
    || (policy.maxRunning.Some? && policy.maxRunning.value <= 0)
    || (policy.maxStarts.Some? && policy.maxStarts.value <= 0)
    || (policy.intervalMs.Some? && (policy.intervalMs.value < 1000 || policy.intervalMs.value > 24 * 60 * 60 * 1000))
  }

  // An update is refused for another version, for half a rate limit, and for a value the table does not take;
  // otherwise the queue has the next version of its policy
  ghost predicate PolicyAnswers(
    s: State, t: State, queue: Queue, patch: Patch, expectedVersion: nat, r: Result<(), PolicyError>) {
    var before := if queue in s.policies then s.policies[queue] else Policy(false, None, None, None, 1);
    exists next :: IsNext(before, patch, next) &&
      if before.version != expectedVersion then r == Err(VersionConflict(before.version)) && t == s
      else if next.maxStarts.Some? != next.intervalMs.Some? then r == Err(InvalidRatePolicy) && t == s
      else if OutOfRange(next) then r == Err(CheckViolated) && t == s
      else r == Ok(()) && t == s.(policies := s.policies[queue := next], starts := s.starts[queue := []])
  }

  lemma PatchedIsNext(before: Policy, patch: Patch)
    ensures IsNext(before, patch, Patched(before, patch))
  {
  }

  lemma OutOfRangeIsInvalid(policy: Policy)
    requires policy.maxStarts.Some? == policy.intervalMs.Some?
    ensures OutOfRange(policy) <==> !ValidPolicy(policy)
  {
  }

  lemma UpdateIsAnswered(s: State, queue: Queue, patch: Patch, expectedVersion: nat)
    ensures match UpdatePolicy(s, queue, patch, expectedVersion)
      case Ok(t) => PolicyAnswers(s, t, queue, patch, expectedVersion, Ok(()))
      case Err(e) => PolicyAnswers(s, s, queue, patch, expectedVersion, Err(e))
  {
    var before := if queue in s.policies then s.policies[queue] else Policy(false, None, None, None, 1);
    var next := Patched(before, patch);
    PatchedIsNext(before, patch);
    hide IsNext, Patched, OutOfRange, ValidPolicy;
    if next.maxStarts.Some? == next.intervalMs.Some? {
      OutOfRangeIsInvalid(next);
    }
  }

  // ----- Dispatching -----

  // A pending event starts the execution of its enabled trigger's target when that can take it; it is skipped when
  // the trigger is disabled or the target inactive, and fails when its source is gone or the input too large
  ghost predicate DispatchAnswers(s: State, t: State, event: TriggerEvent, child: ExecId, target: Target) {
    if event !in s.events || event in s.settled || event.trigger !in s.triggers then t == s
    else if !s.triggers[event.trigger].enabled || target == Inactive then t == s.(settled := s.settled[event := EventSkipped])
    else if event.source !in s.executions || target == Oversized then t == s.(settled := s.settled[event := EventFailed])
    else if target == Refusing then t == s
    else
      && Opened(s, t, child, Request(target.job, target.key, JobCompletion, OnRequest, None, false, Some(event.source)))
      && t.settled == s.settled[event := QueuedAs(child)]
  }
}
