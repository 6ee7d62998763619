/**
 * Rate windows and leases over every run: starts per window and per span of time, and that a
 * worker whose heartbeats are on time never loses an execution.
 */
module ExecutionRates {
  import opened Wrappers
  import opened Executions
  import opened ExecutionLaws

  // ----- Rates -----

  predicate Rated(policy: Policy) {
    policy.maxStarts.Some? && policy.intervalMs.Some? && policy.intervalMs.value > 0
  }

  // How many of the recorded starts fall in a window
  function CountIn(starts: seq<Time>, intervalMs: int, window: Time): nat
    requires intervalMs > 0
  {
    if starts == [] then 0
    else
      CountIn(starts[..|starts| - 1], intervalMs, window) +
      if Window(starts[|starts| - 1], intervalMs) == window then 1 else 0
  }

  // How many fall in the span of one interval from a time on
  function CountFrom(starts: seq<Time>, intervalMs: int, from: Time): nat {
    if starts == [] then 0
    else
      CountFrom(starts[..|starts| - 1], intervalMs, from) +
      if from <= starts[|starts| - 1] < from + Micros(intervalMs) then 1 else 0
  }

  ghost predicate QueueRated(s: State, queue: Queue) {
    queue in s.policies && ValidPolicy(s.policies[queue]) &&
    (Rated(s.policies[queue]) ==>
      forall window :: WindowWithin(s, queue, s.policies[queue], window))
  }

  // The recorded starts are counted in the window's row, and within the limit
  ghost predicate WindowWithin(s: State, queue: Queue, policy: Policy, window: Time)
    requires Rated(policy)
  {
    var n := CountIn(Starts(s, queue), policy.intervalMs.value, window);
    n <= StartsCount(s, queue, window) && n <= policy.maxStarts.value
  }

  // No window starts in the future
  ghost predicate WindowsPast(s: State) {
    forall queue, window :: (queue, window) in s.windows ==> window <= s.clock
  }

  ghost predicate RatesKept(s: State) {
    WindowsPast(s) && (forall queue :: queue in s.policies ==> QueueRated(s, queue))
    && (forall queue, window :: (queue, window) in s.windows ==> s.windows[(queue, window)] >= 0)
    && (forall queue :: queue in s.starts ==> queue in s.policies)
  }

  lemma WindowBounds(t: Time, intervalMs: int)
    requires intervalMs > 0
    ensures Window(t, intervalMs) <= t < Window(t, intervalMs) + Micros(intervalMs)
  {
  }

  lemma SmallFactor(k: int, d: int)
    requires d > 0 && k * d < d
    ensures k <= 0
  {
    assert k >= 1 ==> k * d >= d;
  }

  lemma QuotientGrows(t: Time, u: Time, d: int)
    requires d > 0 && t <= u
    ensures t / d <= u / d
  {
    assert (t / d - u / d) * d == (t - t % d) - (u - u % d);
    SmallFactor(t / d - u / d, d);
  }

  lemma NonNegative(k: nat, d: nat)
    ensures k * d >= 0
  {
  }

  lemma Multiples(a: int, b: int, d: int)
    requires d > 0 && a <= b
    ensures a == b || b * d >= a * d + d
  {
    if a < b {
      assert (b - a - 1) * d >= 0 by { NonNegative(b - a - 1, d); }
      assert b * d == (b - a - 1) * d + a * d + d;
    }
  }

  // Windows are disjoint and a later one starts a whole interval later
  lemma WindowsApart(t: Time, u: Time, intervalMs: int)
    requires intervalMs > 0 && t <= u
    ensures Window(u, intervalMs) == Window(t, intervalMs) || Window(u, intervalMs) >= Window(t, intervalMs) + Micros(intervalMs)
  {
    QuotientGrows(t, u, Micros(intervalMs));
    Multiples(t / Micros(intervalMs), u / Micros(intervalMs), Micros(intervalMs));
  }

  // A start recorded in the checked window or, after the clock crossed into a later one, in a fresh window
  lemma RecordedWindow(s: State, queue: Queue, policy: Policy, checked: Time, recorded: Time)
    requires WindowsPast(s) && Rated(policy) && ValidPolicy(policy)
    requires s.clock <= checked <= recorded && RateAllows(s, queue, policy, checked)
    ensures StartsCount(s, queue, Window(recorded, policy.intervalMs.value)) < policy.maxStarts.value
  {
    var i := policy.intervalMs.value;
    WindowsApart(checked, recorded, i);
    WindowBounds(checked, i);
    hide Window;
    if Window(recorded, i) != Window(checked, i) {
      assert Window(recorded, i) > s.clock;
      assert (queue, Window(recorded, i)) !in s.windows;
    }
  }

  lemma RecordKeepsWindow(s: State, queue: Queue, policy: Policy, recorded: Time, window: Time)
    requires Rated(policy) && WindowWithin(s, queue, policy, window)
    requires StartsCount(s, queue, Window(recorded, policy.intervalMs.value)) < policy.maxStarts.value
    ensures WindowWithin(Recorded(s.(clock := recorded), queue, policy, recorded), queue, policy, window)
  {
    var t := Recorded(s.(clock := recorded), queue, policy, recorded);
    assert Starts(t, queue) == Starts(s, queue) + [recorded];
    hide Window, CountIn;
    RecordCounts(Starts(s, queue), policy.intervalMs.value, recorded, window);
  }

  lemma RecordKeepsQueue(s: State, queue: Queue, policy: Policy, checked: Time, recorded: Time)
    requires RatesKept(s) && queue in s.policies && policy == s.policies[queue] && Rated(policy)
    requires s.clock <= checked <= recorded && RateAllows(s, queue, policy, checked)
    ensures QueueRated(Recorded(s.(clock := recorded), queue, policy, recorded), queue)
  {
    hide Window, RateAllows, CountIn, WindowWithin, StartsCount, Starts;
    var t := Recorded(s.(clock := recorded), queue, policy, recorded);
    assert QueueRated(s, queue);
    RecordedWindow(s, queue, policy, checked, recorded);
    forall window ensures WindowWithin(t, queue, policy, window) {
      assert WindowWithin(s, queue, s.policies[queue], window);
      RecordKeepsWindow(s, queue, policy, recorded, window);
    }
  }

  lemma RecordKeepsRates(s: State, queue: Queue, policy: Policy, checked: Time, recorded: Time)
    requires RatesKept(s) && queue in s.policies && policy == s.policies[queue]
    requires s.clock <= checked <= recorded && RateAllows(s, queue, policy, checked)
    ensures RatesKept(Recorded(s.(clock := recorded), queue, policy, recorded))
  {
    var t := Recorded(s.(clock := recorded), queue, policy, recorded);
    if Rated(policy) {
      RecordKeepsQueue(s, queue, policy, checked, recorded);
      WindowBounds(recorded, policy.intervalMs.value);
    }
    hide Window, RateAllows, QueueRated;
    forall q | q in t.policies ensures QueueRated(t, q) {
      if q != queue || !Rated(policy) {
        OtherQueue(s, t, q);
      }
    }
  }

  lemma RecordCounts(starts: seq<Time>, intervalMs: int, recorded: Time, window: Time)
    requires intervalMs > 0
    ensures CountIn(starts + [recorded], intervalMs, window) ==
      CountIn(starts, intervalMs, window) + if Window(recorded, intervalMs) == window then 1 else 0
  {
    assert (starts + [recorded])[..|starts|] == starts;
  }

  // A queue whose policy, starts and windows are untouched keeps its rate
  lemma OtherQueue(s: State, t: State, queue: Queue)
    requires queue in s.policies && queue in t.policies && t.policies[queue] == s.policies[queue] && QueueRated(s, queue)
    requires Starts(t, queue) == Starts(s, queue)
    requires forall window :: StartsCount(t, queue, window) == StartsCount(s, queue, window)
    ensures QueueRated(t, queue)
  {
    if Rated(t.policies[queue]) {
      forall window ensures WindowWithin(t, queue, t.policies[queue], window) {
        assert WindowWithin(s, queue, s.policies[queue], window);
      }
    }
  }

  // Rows of executions do not matter for rates
  ghost predicate SameRates(s: State, t: State) {
    && t.policies == s.policies && t.starts == s.starts && t.windows == s.windows && s.clock <= t.clock
  }

  lemma SameRatesKept(s: State, t: State)
    requires RatesKept(s) && SameRates(s, t)
    ensures RatesKept(t)
  {
    forall q | q in t.policies ensures QueueRated(t, q) {
      OtherQueue(s, t, q);
    }
  }

  // A queue gets the default policy when it is first mentioned
  lemma DefaultKept(s: State, queue: Queue)
    requires RatesKept(s)
    ensures RatesKept(s.(policies := WithPolicy(s.policies, queue)))
  {
    var t := s.(policies := WithPolicy(s.policies, queue));
    forall q | q in t.policies ensures QueueRated(t, q) {
      if q in s.policies {
        OtherQueue(s, t, q);
      }
    }
  }

  lemma EnqueueKeepsRates(s: State, id: ExecId, request: Request)
    requires RatesKept(s)
    ensures RatesKept(Enqueue(s, id, request))
  {
    hide RatesKept, Overlapped, Inserted, Admissible, Quiet;
    if Admissible(s, id, request) {
      var (t, status) := Overlapped(s, request.job, request.key, request.kind);
      OverlappedQuiet(s, request.job, request.key, request.kind);
      QuietWindows(s, t);
      SameRatesKept(s, t);
      AdmissibleIsFresh(s, id, request);
      OverlappedStatus(s, request.job, request.key, request.kind);
      InsertedQuiet(t, id, request, status);
      DefaultKept(t, request.job.queue);
      QuietWindows(t, Inserted(t, id, request, status));
      SameRatesKept(t.(policies := WithPolicy(t.policies, request.job.queue)), Inserted(t, id, request, status));
    }
  }

  lemma DispatchKeepsRates(s: State, event: TriggerEvent, id: ExecId, target: Target)
    requires RatesKept(s)
    ensures RatesKept(Dispatch(s, event, id, target))
  {
    hide RatesKept, Dispatch, Spawns, Enqueue;
    DispatchIs(s, event, id, target);
    var t := Dispatch(s, event, id, target);
    if Spawns(s, event, id, target) {
      EnqueueKeepsRates(s, id, ChildRequest(target, event.source));
      SameRatesKept(Enqueue(s, id, ChildRequest(target, event.source)), t);
    } else {
      SameRatesKept(s, t);
    }
  }

  lemma QuietWindows(s: State, t: State)
    requires Quiet(s, t)
    ensures t.windows == s.windows && s.clock <= t.clock
  {
  }

  lemma {:induction false} PolicyKeepsRates(s: State, queue: Queue, patch: Patch, expectedVersion: nat)
    requires RatesKept(s) && UpdatePolicy(s, queue, patch, expectedVersion).Ok?
    ensures RatesKept(UpdatePolicy(s, queue, patch, expectedVersion).value)
  {
    var t := UpdatePolicy(s, queue, patch, expectedVersion).value;
    hide Patched, Window;
    assert Starts(t, queue) == [];
    forall q | q in t.policies ensures QueueRated(t, q) {
      if q != queue {
        OtherQueue(s, t, q);
      } else if Rated(t.policies[q]) {
        forall window ensures WindowWithin(t, q, t.policies[q], window) {
        }
      }
    }
  }

  lemma ClaimKeepsRates(leaseMs: nat, s: State, worker: WorkerId, id: ExecId, checked: Time, claimed: Time, recorded: Time)
    requires RatesKept(s)
    ensures RatesKept(Claim(s, leaseMs, worker, id, checked, claimed, recorded))
  {
    hide RatesKept, RateAllows, RunningInQueue, RunningOfJob, Window;
    if s.clock <= checked <= claimed <= recorded && Eligible(s, id, checked) {
      var queue := s.executions[id].job.queue;
      RecordKeepsRates(s, queue, s.policies[queue], checked, recorded);
      SameRatesKept(Recorded(s.(clock := recorded), queue, s.policies[queue], recorded),
        Claim(s, leaseMs, worker, id, checked, claimed, recorded));
    }
  }

  lemma EndSameRates(s: State, t: State)
    requires Quiet(s, t) && SameSettings(s, t)
    ensures SameRates(s, t)
  {
  }

  lemma CancelSameRates(s: State, id: ExecId)
    requires RequestCancel(s, id).Ok?
    ensures SameRates(s, RequestCancel(s, id).value.0)
  {
    hide End;
    if s.executions[id].status.Queued? {
      EndQuiet(s, id, CancelledBy(s.executions[id], s.executions[id].error));
      EndSameRates(s, End(s, id, CancelledBy(s.executions[id], s.executions[id].error)));
    }
  }

  lemma FinishSameRates(s: State, id: ExecId, status: Status, error: Option<Code>)
    ensures SameRates(s, Finish(s, id, status, error))
  {
    hide End;
    if id in s.executions && s.executions[id].status.Running? && WorkersEnd(status, error) {
      EndQuiet(s, id, s.executions[id].(status := status, error := error));
      EndSameRates(s, End(s, id, s.executions[id].(status := status, error := error)));
    }
  }

  lemma StepKeepsRates(leaseMs: nat, s: State, event: Event)
    requires RatesKept(s)
    ensures RatesKept(Step(leaseMs, s, event))
  {
    hide RatesKept, Enqueue, Claim, Reap, RequestCancel, Finish, UpdatePolicy, Dispatch;
    match event
    case Enqueued(id, request) => EnqueueKeepsRates(s, id, request);
    case Dispatched(pending, child, target) => DispatchKeepsRates(s, pending, child, target);
    case Claimed(worker, id, checked, claimed, recorded) => ClaimKeepsRates(leaseMs, s, worker, id, checked, claimed, recorded);
    case Reaped(ids) =>
      ReapQuiet(s, ids);
      EndSameRates(s, Reap(s, ids));
      SameRatesKept(s, Reap(s, ids));
    case CancelRequested(id) =>
      if RequestCancel(s, id).Ok? {
        CancelSameRates(s, id);
        SameRatesKept(s, RequestCancel(s, id).value.0);
      }
    case Finished(id, status, error) =>
      FinishSameRates(s, id, status, error);
      SameRatesKept(s, Finish(s, id, status, error));
    case PolicyUpdated(queue, patch, expectedVersion) =>
      if UpdatePolicy(s, queue, patch, expectedVersion).Ok? {
        PolicyKeepsRates(s, queue, patch, expectedVersion);
      }
    case _ => SameRatesKept(s, Step(leaseMs, s, event));
  }

  lemma {:induction false} AlwaysRatesKept(leaseMs: nat, events: seq<Event>)
    ensures RatesKept(After(leaseMs, events))
  {
    if events != [] {
      AlwaysRatesKept(leaseMs, events[..|events| - 1]);
      hide RatesKept, Step;
      StepKeepsRates(leaseMs, After(leaseMs, events[..|events| - 1]), events[|events| - 1]);
    }
  }

  // Since its policy was last written, no queue ever started more than max_starts in one window
  lemma StartsPerWindow(leaseMs: nat, events: seq<Event>, queue: Queue, window: Time)
    requires queue in After(leaseMs, events).policies && Rated(After(leaseMs, events).policies[queue])
    ensures var s := After(leaseMs, events);
      CountIn(Starts(s, queue), s.policies[queue].intervalMs.value, window) <= s.policies[queue].maxStarts.value
  {
    AlwaysRatesKept(leaseMs, events);
    var s := After(leaseMs, events);
    hide After, CountIn;
    assert QueueRated(s, queue);
    assert WindowWithin(s, queue, s.policies[queue], window);
  }

  lemma WindowAt(t: Time, from: Time, intervalMs: int)
    requires intervalMs > 0 && from <= t < from + Micros(intervalMs)
    ensures Window(t, intervalMs) == Window(from, intervalMs) || Window(t, intervalMs) == Window(from, intervalMs) + Micros(intervalMs)
  {
    hide Window;
    WindowsApart(from, t, intervalMs);
    if Window(t, intervalMs) != Window(from, intervalMs) {
      SameWindow(t, from, intervalMs);
    }
  }

  // An interval's span reaches no further than the window after the one it starts in
  lemma SameWindow(t: Time, from: Time, intervalMs: int)
    requires intervalMs > 0 && from <= t < from + Micros(intervalMs)
    requires Window(t, intervalMs) >= Window(from, intervalMs) + Micros(intervalMs)
    ensures Window(t, intervalMs) == Window(from, intervalMs) + Micros(intervalMs)
  {
    NextWindow(from, intervalMs);
    WindowBounds(t, intervalMs);
    WindowBounds(from, intervalMs);
    var next := Window(from, intervalMs) + Micros(intervalMs);
    WindowsApart(next, t, intervalMs);
    hide Window;
  }

  lemma NextWindow(from: Time, intervalMs: int)
    requires intervalMs > 0
    ensures Window(Window(from, intervalMs) + Micros(intervalMs), intervalMs) == Window(from, intervalMs) + Micros(intervalMs)
  {
    var d := Micros(intervalMs);
    var k := from / d + 1;
    assert k * d == from / d * d + d;
    ExactQuotient(k, d);
  }

  lemma ExactQuotient(k: int, d: int)
    requires d > 0
    ensures k * d / d == k
  {
    assert (k - k * d / d) * d == k * d % d;
    SmallFactor(k - k * d / d, d);
    assert (k * d / d - k) * d == -(k * d % d);
    SmallFactor(k * d / d - k, d);
  }

  lemma {:induction false} SpanCoversTwoWindows(starts: seq<Time>, intervalMs: int, from: Time)
    requires intervalMs > 0
    ensures CountFrom(starts, intervalMs, from) <=
      CountIn(starts, intervalMs, Window(from, intervalMs)) +
      CountIn(starts, intervalMs, Window(from, intervalMs) + Micros(intervalMs))
  {
    hide Window;
    if starts != [] {
      var t := starts[|starts| - 1];
      SpanCoversTwoWindows(starts[..|starts| - 1], intervalMs, from);
      if from <= t < from + Micros(intervalMs) {
        WindowAt(t, from, intervalMs);
      }
    }
  }

  // And so any span of interval_ms holds at most twice max_starts
  lemma StartsPerSpan(leaseMs: nat, events: seq<Event>, queue: Queue, from: Time)
    requires queue in After(leaseMs, events).policies && Rated(After(leaseMs, events).policies[queue])
    ensures var s := After(leaseMs, events);
      CountFrom(Starts(s, queue), s.policies[queue].intervalMs.value, from) <= 2 * s.policies[queue].maxStarts.value
  {
    hide After, CountIn, CountFrom, Window, Starts;
    var s := After(leaseMs, events);
    var i := s.policies[queue].intervalMs.value;
    SpanCoversTwoWindows(Starts(s, queue), i, from);
    StartsPerWindow(leaseMs, events, queue, Window(from, i));
    StartsPerWindow(leaseMs, events, queue, Window(from, i) + Micros(i));
  }

  // ----- Leases -----

  // A running execution is leased for the full lease from its worker's last heartbeat on, at least
  ghost predicate Leased(leaseMs: nat, s: State, id: ExecId)
    requires id in s.executions
  {
    var row := s.executions[id];
    row.status.Running? ==>
      row.worker.Some? && row.worker.value in s.renewed && row.leaseExpires.Some? &&
      row.leaseExpires.value >= s.renewed[row.worker.value] + Micros(leaseMs)
  }

  ghost predicate AllLeased(leaseMs: nat, s: State) {
    && (forall worker :: worker in s.renewed ==> s.renewed[worker] <= s.clock)
    && (forall id :: id in s.executions ==> Leased(leaseMs, s, id))
  }

  // No row gains time and no worker is renewed
  lemma QuietKeepsLeases(leaseMs: nat, s: State, t: State)
    requires AllLeased(leaseMs, s) && Quiet(s, t) && t.renewed == s.renewed
    requires forall id :: id in t.executions && t.executions[id].status.Running? && id in s.executions ==>
      t.executions[id].leaseExpires == s.executions[id].leaseExpires
    ensures AllLeased(leaseMs, t)
  {
    forall id | id in t.executions ensures Leased(leaseMs, t, id) {
      if t.executions[id].status.Running? {
        assert Leased(leaseMs, s, id);
        assert RowEvolves(s.executions[id], t.executions[id]);
      }
    }
  }

  ghost predicate SameLeases(s: State, t: State) {
    forall id :: id in t.executions && t.executions[id].status.Running? && id in s.executions ==>
      t.executions[id].leaseExpires == s.executions[id].leaseExpires
  }

  lemma EndSameLeases(s: State, id: ExecId, row: Execution)
    requires id in s.executions && !row.status.Running?
    requires RowEvolves(s.executions[id], row)
    ensures SameLeases(s, End(s, id, row))
  {
    EndQuiet(s, id, row);
    hide End, Quiet;
  }

  lemma {:induction false} ReapSameLeases(s: State, ids: seq<ExecId>)
    ensures SameLeases(s, Reap(s, ids))
    decreases |ids|
  {
    if ids != [] {
      var t, id := Reap(s, ids[..|ids| - 1]), ids[|ids| - 1];
      ReapSameLeases(s, ids[..|ids| - 1]);
      ReapQuiet(s, ids[..|ids| - 1]);
      if id in t.executions && Expired(t, t.executions[id]) {
        EndSameLeases(t, id, Lost(t.executions[id]));
        EndQuiet(t, id, Lost(t.executions[id]));
        hide End, Quiet;
        assert forall x :: x in t.executions && x in s.executions && t.executions[x].status.Running? ==>
          t.executions[x].leaseExpires == s.executions[x].leaseExpires;
      }
    }
  }

  lemma DisplacedSameLeases(s: State, oldest: ExecId)
    requires oldest in s.executions && !s.executions[oldest].status.Terminal()
    ensures SameLeases(s, Displaced(s, oldest))
  {
    hide End;
    if s.executions[oldest].status.Queued? {
      EndSameLeases(s, oldest, CancelledBy(s.executions[oldest], Some(OverlapCancelled)));
    }
  }

  lemma EnqueueSameLeases(s: State, id: ExecId, request: Request)
    ensures SameLeases(s, Enqueue(s, id, request)) && Enqueue(s, id, request).renewed == s.renewed
  {
    hide Displaced, Inserted, Admissible, Quiet, IsOldest, ActiveFor;
    if Admissible(s, id, request) {
      var (t, status) := Overlapped(s, request.job, request.key, request.kind);
      OverlappedQuiet(s, request.job, request.key, request.kind);
      OverlappedStatus(s, request.job, request.key, request.kind);
      AdmissibleIsFresh(s, id, request);
      InsertedQuiet(t, id, request, status);
      var active := ActiveFor(s, request.job.id, request.key);
      if active != {} && Mode(request.job, request.kind) == CancelOldest {
        ActiveIsNotTerminal(s, request.job.id, request.key);
        OldestIsActive(s, active);
        DisplacedSameLeases(s, Oldest(s, active));
      }
    }
  }

  lemma DispatchSameLeases(s: State, event: TriggerEvent, id: ExecId, target: Target)
    ensures SameLeases(s, Dispatch(s, event, id, target)) && Dispatch(s, event, id, target).renewed == s.renewed
  {
    DispatchIs(s, event, id, target);
    hide Dispatch, Spawns, Enqueue;
    if Spawns(s, event, id, target) {
      EnqueueSameLeases(s, id, ChildRequest(target, event.source));
    }
  }

  lemma ActiveIsNotTerminal(s: State, job: JobId, key: Option<string>)
    ensures ActiveFor(s, job, key) <= s.executions.Keys
    ensures forall id :: id in ActiveFor(s, job, key) ==> !s.executions[id].status.Terminal()
  {
  }

  lemma CancelSameLeases(s: State, id: ExecId)
    requires RequestCancel(s, id).Ok?
    ensures SameLeases(s, RequestCancel(s, id).value.0) && RequestCancel(s, id).value.0.renewed == s.renewed
  {
    hide End;
    if s.executions[id].status.Queued? {
      EndSameLeases(s, id, CancelledBy(s.executions[id], s.executions[id].error));
      EndQuiet(s, id, CancelledBy(s.executions[id], s.executions[id].error));
    }
  }

  lemma FinishSameLeases(s: State, id: ExecId, status: Status, error: Option<Code>)
    ensures SameLeases(s, Finish(s, id, status, error)) && Finish(s, id, status, error).renewed == s.renewed
  {
    hide End;
    if id in s.executions && s.executions[id].status.Running? && WorkersEnd(status, error) {
      EndSameLeases(s, id, s.executions[id].(status := status, error := error));
      EndQuiet(s, id, s.executions[id].(status := status, error := error));
    }
  }

  lemma ClaimKeepsLeases(leaseMs: nat, s: State, worker: WorkerId, id: ExecId, checked: Time, claimed: Time, recorded: Time)
    requires AllLeased(leaseMs, s)
    ensures AllLeased(leaseMs, Claim(s, leaseMs, worker, id, checked, claimed, recorded))
  {
    hide RateAllows, RunningInQueue, RunningOfJob, Window;
    var t := Claim(s, leaseMs, worker, id, checked, claimed, recorded);
    if s.clock <= checked <= claimed <= recorded && Eligible(s, id, checked) {
      forall e | e in t.executions ensures Leased(leaseMs, t, e) {
        assert Leased(leaseMs, s, e);
      }
    }
  }

  lemma HeartbeatKeepsLeases(leaseMs: nat, s: State, worker: WorkerId)
    requires AllLeased(leaseMs, s)
    ensures AllLeased(leaseMs, Heartbeat(s, leaseMs, worker))
  {
    var t := Heartbeat(s, leaseMs, worker);
    forall e | e in t.executions ensures Leased(leaseMs, t, e) {
      assert Leased(leaseMs, s, e);
    }
  }

  lemma StepKeepsLeases(leaseMs: nat, s: State, event: Event)
    requires AllLeased(leaseMs, s)
    ensures AllLeased(leaseMs, Step(leaseMs, s, event))
  {
    match event
    case Claimed(worker, id, checked, claimed, recorded) => ClaimKeepsLeases(leaseMs, s, worker, id, checked, claimed, recorded);
    case Beat(worker) => HeartbeatKeepsLeases(leaseMs, s, worker);
    case Registered(worker) =>
      assert forall id :: id in s.executions ==> Leased(leaseMs, s, id);
      RegisterKeepsLeases(leaseMs, s, worker);
    case _ =>
      StepQuiet(leaseMs, s, event);
      StepSameLeases(leaseMs, s, event);
      hide Step;
      QuietKeepsLeases(leaseMs, s, Step(leaseMs, s, event));
  }

  lemma RegisterKeepsLeases(leaseMs: nat, s: State, worker: WorkerId)
    requires AllLeased(leaseMs, s)
    ensures AllLeased(leaseMs, Register(s, worker))
  {
    forall e | e in s.executions ensures Leased(leaseMs, Register(s, worker), e) {
      assert Leased(leaseMs, s, e);
    }
  }

  lemma StepSameLeases(leaseMs: nat, s: State, event: Event)
    requires !event.Claimed? && !event.Beat? && !event.Registered?
    ensures SameLeases(s, Step(leaseMs, s, event)) && Step(leaseMs, s, event).renewed == s.renewed
  {
    hide Enqueue, Claim, Reap, RequestCancel, Finish, Patched, ValidPolicy, WithPolicy, Dispatch;
    match event
    case Enqueued(id, request) => EnqueueSameLeases(s, id, request);
    case Dispatched(pending, child, target) => DispatchSameLeases(s, pending, child, target);
    case Reaped(ids) =>
      ReapQuiet(s, ids);
      ReapSameLeases(s, ids);
    case CancelRequested(id) =>
      if RequestCancel(s, id).Ok? {
        CancelSameLeases(s, id);
      }
    case Finished(id, status, error) => FinishSameLeases(s, id, status, error);
    case _ =>
  }

  lemma {:induction false} AlwaysLeased(leaseMs: nat, events: seq<Event>)
    ensures AllLeased(leaseMs, After(leaseMs, events))
  {
    if events != [] {
      AlwaysLeased(leaseMs, events[..|events| - 1]);
      hide AllLeased, Step;
      StepKeepsLeases(leaseMs, After(leaseMs, events[..|events| - 1]), events[|events| - 1]);
    }
  }

  // The worker's last successful heartbeat, if it ever registered, is at most three heartbeat periods ago
  predicate Punctual(heartbeatMs: nat, s: State, worker: WorkerId) {
    worker in s.renewed ==> s.clock - s.renewed[worker] <= Micros(3 * heartbeatMs)
  }

  lemma {:induction false} ReapSpares(s: State, ids: seq<ExecId>, id: ExecId)
    requires id in s.executions && !Expired(s, s.executions[id])
    ensures id in Reap(s, ids).executions && Reap(s, ids).executions[id] == s.executions[id]
    decreases |ids|
  {
    if ids != [] {
      var t, last := Reap(s, ids[..|ids| - 1]), ids[|ids| - 1];
      ReapSpares(s, ids[..|ids| - 1], id);
      ReapQuiet(s, ids[..|ids| - 1]);
      if last in t.executions && Expired(t, t.executions[last]) {
        EndQuiet(t, last, Lost(t.executions[last]));
        hide End, Quiet;
        assert last != id;
      }
    }
  }

  // A worker that is punctual at this moment loses nothing to a reaper
  lemma PunctualIsSpared(
    leaseMs: nat, heartbeatMs: nat, s: State, worker: WorkerId, id: ExecId, ids: seq<ExecId>)
    requires leaseMs >= 3 * heartbeatMs && AllLeased(leaseMs, s) && Punctual(heartbeatMs, s, worker)
    requires id in s.executions && s.executions[id].worker == Some(worker)
    ensures id in Reap(s, ids).executions && Reap(s, ids).executions[id] == s.executions[id]
  {
    assert Leased(leaseMs, s, id);
    hide Reap;
    ReapSpares(s, ids, id);
  }

  // Only an execution that failed was lost, and none of this worker's was
  ghost predicate NotLost(s: State, worker: WorkerId, id: ExecId)
    requires id in s.executions
  {
    s.executions[id].error == Some(WorkerLost) ==> s.executions[id].status.Failed? && s.executions[id].worker != Some(worker)
  }

  ghost predicate NoneLost(s: State, worker: WorkerId) {
    forall id :: id in s.executions ==> NotLost(s, worker, id)
  }

  // Rows of an execution that a transaction leaves as it is, starts, ends with another code, or creates
  ghost predicate LostBefore(s: State, t: State) {
    forall id :: id in t.executions && t.executions[id].error == Some(WorkerLost) ==>
      id in s.executions && s.executions[id].error == Some(WorkerLost)
  }

  lemma LostBeforeKeeps(s: State, t: State, worker: WorkerId)
    requires NoneLost(s, worker) && Evolves(s, t) && LostBefore(s, t)
    ensures NoneLost(t, worker)
  {
    forall id | id in t.executions ensures NotLost(t, worker, id) {
      if t.executions[id].error == Some(WorkerLost) {
        assert NotLost(s, worker, id);
        assert RowEvolves(s.executions[id], t.executions[id]);
      }
    }
  }

  lemma EndLoses(s: State, id: ExecId, row: Execution)
    requires id in s.executions && RowEvolves(s.executions[id], row) && !row.status.Running?
    requires row.error == Some(WorkerLost) ==> s.executions[id].error == Some(WorkerLost)
    ensures LostBefore(s, End(s, id, row))
  {
    EndQuiet(s, id, row);
    hide End;
  }

  lemma DisplacedLoses(s: State, oldest: ExecId)
    requires oldest in s.executions && !s.executions[oldest].status.Terminal()
    ensures LostBefore(s, Displaced(s, oldest))
  {
    hide End;
    if s.executions[oldest].status.Queued? {
      EndLoses(s, oldest, CancelledBy(s.executions[oldest], Some(OverlapCancelled)));
    }
  }

  lemma OverlappedLoses(s: State, job: JobDef, key: Option<string>, kind: Kind)
    ensures LostBefore(s, Overlapped(s, job, key, kind).0)
  {
    hide Displaced, IsOldest;
    var active := ActiveFor(s, job.id, key);
    if active != {} && Mode(job, kind) == CancelOldest {
      OldestIsActive(s, active);
      DisplacedLoses(s, Oldest(s, active));
    }
  }

  lemma EnqueueLoses(s: State, id: ExecId, request: Request)
    ensures LostBefore(s, Enqueue(s, id, request))
  {
    hide Overlapped, Inserted, Admissible, Quiet;
    if Admissible(s, id, request) {
      AdmissibleIsFresh(s, id, request);
      OverlappedLoses(s, request.job, request.key, request.kind);
      OverlappedQuiet(s, request.job, request.key, request.kind);
      OverlappedStatus(s, request.job, request.key, request.kind);
      var (t, status) := Overlapped(s, request.job, request.key, request.kind);
      InsertedQuiet(t, id, request, status);
    }
  }

  lemma ClaimLoses(leaseMs: nat, s: State, worker: WorkerId, id: ExecId, checked: Time, claimed: Time, recorded: Time)
    ensures LostBefore(s, Claim(s, leaseMs, worker, id, checked, claimed, recorded))
  {
    hide RateAllows, RunningInQueue, RunningOfJob, Window;
  }

  // Nothing but the reaper writes the code of a lost worker
  lemma StepLoses(leaseMs: nat, s: State, event: Event)
    requires !event.Reaped?
    ensures LostBefore(s, Step(leaseMs, s, event))
  {
    hide Enqueue, Claim, Dispatch, Spawns, RequestCancel, Finish, UpdatePolicy;
    match event
    case Enqueued(id, request) => EnqueueLoses(s, id, request);
    case Dispatched(pending, child, target) =>
      DispatchIs(s, pending, child, target);
      if Spawns(s, pending, child, target) {
        EnqueueLoses(s, child, ChildRequest(target, pending.source));
      }
    case Claimed(worker, id, checked, claimed, recorded) => ClaimLoses(leaseMs, s, worker, id, checked, claimed, recorded);
    case CancelRequested(id) => CancelLoses(s, id);
    case Finished(id, status, error) => FinishLoses(s, id, status, error);
    case Beat(worker) =>
    case _ => SettingsFrame(leaseMs, s, event);
  }

  lemma CancelLoses(s: State, id: ExecId)
    ensures RequestCancel(s, id).Ok? ==> LostBefore(s, RequestCancel(s, id).value.0)
  {
    hide End;
    if id in s.executions && s.executions[id].status.Queued? {
      EndLoses(s, id, CancelledBy(s.executions[id], s.executions[id].error));
    }
  }

  lemma FinishLoses(s: State, id: ExecId, status: Status, error: Option<Code>)
    ensures LostBefore(s, Finish(s, id, status, error))
  {
    hide End;
    if id in s.executions && s.executions[id].status.Running? && WorkersEnd(status, error) {
      EndLoses(s, id, s.executions[id].(status := status, error := error));
    }
  }

  lemma {:induction false} ReapRows(s: State, ids: seq<ExecId>, id: ExecId)
    requires id in s.executions
    ensures id in Reap(s, ids).executions
    ensures Reap(s, ids).executions[id] == s.executions[id] || Reap(s, ids).executions[id] == Lost(s.executions[id])
    decreases |ids|
  {
    if ids != [] {
      var t, last := Reap(s, ids[..|ids| - 1]), ids[|ids| - 1];
      ReapRows(s, ids[..|ids| - 1], id);
      ReapQuiet(s, ids[..|ids| - 1]);
      if last in t.executions && Expired(t, t.executions[last]) {
        EndQuiet(t, last, Lost(t.executions[last]));
        hide End, Quiet;
      }
    }
  }

  lemma ReapNoneLost(leaseMs: nat, heartbeatMs: nat, s: State, worker: WorkerId, ids: seq<ExecId>)
    requires leaseMs >= 3 * heartbeatMs && AllLeased(leaseMs, s) && Punctual(heartbeatMs, s, worker)
    requires NoneLost(s, worker)
    ensures NoneLost(Reap(s, ids), worker)
  {
    ReapQuiet(s, ids);
    hide AllLeased, Reap, Quiet;
    var t := Reap(s, ids);
    forall id | id in t.executions ensures NotLost(t, worker, id) {
      assert NotLost(s, worker, id);
      ReapRows(s, ids, id);
      if s.executions[id].worker == Some(worker) {
        PunctualIsSpared(leaseMs, heartbeatMs, s, worker, id, ids);
      }
    }
  }

  // At every reaping, whoever's it is, the worker's last heartbeat is recent enough
  ghost predicate PunctualWhenReaped(leaseMs: nat, heartbeatMs: nat, events: seq<Event>, worker: WorkerId) {
    forall n :: 0 <= n < |events| && events[n].Reaped? ==> Punctual(heartbeatMs, After(leaseMs, events[..n]), worker)
  }

  // With a lease of three heartbeats, a worker that is never later than that has no execution failed as lost: over
  // the whole run, whatever other workers do and whenever they reap
  lemma {:induction false} PunctualWorkerKeepsExecutions(
    leaseMs: nat, heartbeatMs: nat, events: seq<Event>, worker: WorkerId)
    requires leaseMs >= 3 * heartbeatMs && PunctualWhenReaped(leaseMs, heartbeatMs, events, worker)
    ensures NoneLost(After(leaseMs, events), worker)
  {
    if events != [] {
      var less, event := events[..|events| - 1], events[|events| - 1];
      assert forall n :: 0 <= n < |less| ==> less[..n] == events[..n] && less[n] == events[n];
      assert PunctualWhenReaped(leaseMs, heartbeatMs, less, worker);
      PunctualWorkerKeepsExecutions(leaseMs, heartbeatMs, less, worker);
      var s := After(leaseMs, less);
      AlwaysLeased(leaseMs, less);
      if event.Reaped? {
        hide AllLeased, NoneLost, Reap, Punctual;
        ReapNoneLost(leaseMs, heartbeatMs, s, worker, event.ids);
      } else {
        StepLoses(leaseMs, s, event);
        StepEvolves(leaseMs, s, event);
        hide Step, AllLeased, NoneLost, LostBefore, Evolves;
        LostBeforeKeeps(s, Step(leaseMs, s, event), worker);
      }
    }
  }
}
