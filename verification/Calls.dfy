/**
 * Executor calls in flight (run in src/utils/ConcurrencyLimiter.ts, as executeWithRetry in
 * src/core/JobRunner.ts calls it): the workers of one batch after the other and the fan-out workers of
 * their steps, each asking the one limiter of the run for a permit, executing under it and giving it back.
 */
module Calls {
  import opened Wrappers
  import opened StepTask
  import L = Limiter

  // A step of the batch: its list if it fans out, its own FOREACH limit, and the attempts it may make
  datatype Task = Task(items: Option<nat>, itemLimit: Option<nat>, attempts: nat)

  // A worker of the batch, or one of the fan-out workers of the step that worker is on
  datatype Place = Place(worker: nat, lane: Option<nat>)

  // Inside one call of run: waiting for the permit, or executing under it
  datatype Phase = Idle | Asking(call: L.Call) | Executing(call: L.Call)

  // What a worker is at: attempt number of a step, or of one of its items
  datatype Work = Work(step: nat, item: Option<nat>, attempt: nat, phase: Phase)

  // The limiter, the work under way, which batch it belongs to, the batch's index and the index of each fan-out,
  // and whether a failure stopped the batch; calls numbers the calls of run
  datatype State = State(
    limiter: L.State, seats: map<Place, Work>, round: nat, next: nat, nextItem: map<nat, nat>, stopped: bool, calls: L.Call)

  // The signal all calls of a run share
  const ABORT: L.SignalId := 0

  function Fresh(limit: nat): State {
    State(L.Fresh(limit), map[], 0, 0, map[], false, 0)
  }

  predicate Aborted(s: State) {
    ABORT in s.limiter.aborted
  }

  // How many fan-out workers a step gets
  function Lanes(task: Task, limit: nat): nat {
    if task.items.None? then 0 else Least(task.items.value, Least(Or(task.itemLimit, limit), limit))
  }

  function Or(first: Option<nat>, default: nat): nat {
    if first.Some? then first.value else default
  }

  function Without(seats: map<Place, Work>, p: Place): map<Place, Work> {
    map q | q in seats && q != p :: seats[q]
  }

  // One turn of one worker, the abort signal, or one of its listeners
  datatype Turn =
    | TakeStep(worker: nat)
    | TakeItem(worker: nat, lane: nat)
    | Ask(place: Place)
    | Begin(place: Place)
    | Refused(place: Place)
    | End(place: Place, succeeded: bool)
    | Gathered(worker: nat)
    | NextBatch
    | Stop
    | Fire
    | Hear(place: Place)

  // The next step of the batch, unless the batch was stopped; after an abort the step is thrown out at once
  function TakesStep(batch: seq<Task>, limit: nat, s: State, worker: nat): State {
    if worker >= Least(limit, |batch|) || s.stopped || s.next >= |batch| || Place(worker, None) in s.seats then s
    else if Aborted(s) then s.(next := s.next + 1)
    else
      s.(seats := s.seats[Place(worker, None) := Work(s.next, None, if batch[s.next].items.Some? then 0 else 1, Idle)],
         nextItem := s.nextItem[s.next := 0],
         next := s.next + 1)
  }

  // The worker is on a step that fans out
  predicate FansOut(batch: seq<Task>, s: State, worker: nat) {
    Place(worker, None) in s.seats &&
    var step := s.seats[Place(worker, None)].step;
    step < |batch| && batch[step].items.Some? && step in s.nextItem
  }

  function TakesItem(batch: seq<Task>, limit: nat, s: State, worker: nat, lane: nat): State {
    if !FansOut(batch, s, worker) || Place(worker, Some(lane)) in s.seats || Aborted(s) then s
    else
      var step := s.seats[Place(worker, None)].step;
      if lane >= Lanes(batch[step], limit) || s.nextItem[step] >= batch[step].items.value then s
      else
        s.(seats := s.seats[Place(worker, Some(lane)) := Work(step, Some(s.nextItem[step]), 1, Idle)],
           nextItem := s.nextItem[step := s.nextItem[step] + 1])
  }

  // A step that fans out makes no calls of its own
  predicate MayCall(s: State, p: Place) {
    p in s.seats && s.seats[p].phase.Idle? && s.seats[p].attempt > 0
  }

  // A call of run: thrown out after an abort, granted, or queued
  function Asks(s: State, p: Place): State {
    if !MayCall(s, p) then s
    else if Aborted(s) then s.(seats := Without(s.seats, p))
    else
      s.(limiter := L.Step(s.limiter, L.Run(s.calls, ABORT)),
         seats := s.seats[p := s.seats[p].(phase := Asking(s.calls))],
         calls := s.calls + 1)
  }

  predicate IsAsking(s: State, p: Place) {
    p in s.seats && s.seats[p].phase.Asking?
  }

  // The permit is there: the executor starts
  function Begins(s: State, p: Place): State {
    if IsAsking(s, p) && s.seats[p].phase.call in L.Outstanding(s.limiter)
    then s.(seats := s.seats[p := s.seats[p].(phase := Executing(s.seats[p].phase.call))])
    else s
  }

  // The waiter was rejected: the abort is thrown on
  function IsRefused(s: State, p: Place): State {
    if IsAsking(s, p) && s.seats[p].phase.call in s.limiter.rejected then s.(seats := Without(s.seats, p)) else s
  }

  // The executor settles and the permit is given back, whatever came of it; a failure is tried again
  function Ends(batch: seq<Task>, s: State, p: Place, succeeded: bool): State {
    if !(p in s.seats && s.seats[p].phase.Executing?) then s
    else
      var work := s.seats[p];
      var t := s.(limiter := L.Step(s.limiter, L.Finish(work.phase.call)));
      if succeeded || Aborted(s) || work.step >= |batch| || work.attempt >= batch[work.step].attempts
      then t.(seats := Without(s.seats, p))
      else t.(seats := s.seats[p := work.(phase := Idle, attempt := work.attempt + 1)])
  }

  // All fan-out workers of the step are gone
  predicate NoLane(s: State, worker: nat) {
    forall p :: p in s.seats && p.worker == worker ==> p.lane.None?
  }

  function Gathers(batch: seq<Task>, s: State, worker: nat): State {
    if FansOut(batch, s, worker) && s.seats[Place(worker, None)].phase.Idle? && NoLane(s, worker)
    then s.(seats := Without(s.seats, Place(worker, None)))
    else s
  }

  function Hears(s: State, p: Place): State {
    if IsAsking(s, p) then s.(limiter := L.Step(s.limiter, L.Listener(s.seats[p].phase.call))) else s
  }

  // Every step of the batch is through, and nothing ended the run: its next batch starts
  function StartsBatch(batch: seq<Task>, s: State): State {
    if s.seats.Keys == {} && s.next >= |batch| && !s.stopped && !Aborted(s) then s.(round := s.round + 1, next := 0, nextItem := map[]) else s
  }

  function Batch(batches: seq<seq<Task>>, s: State): seq<Task> {
    if s.round < |batches| then batches[s.round] else []
  }

  function Step(batches: seq<seq<Task>>, limit: nat, s: State, turn: Turn): State {
    var batch := Batch(batches, s);
    match turn
    case TakeStep(worker) => TakesStep(batch, limit, s, worker)
    case TakeItem(worker, lane) => TakesItem(batch, limit, s, worker, lane)
    case Ask(p) => Asks(s, p)
    case Begin(p) => Begins(s, p)
    case Refused(p) => IsRefused(s, p)
    case End(p, succeeded) => Ends(batch, s, p, succeeded)
    case Gathered(worker) => Gathers(batch, s, worker)
    case NextBatch => StartsBatch(batch, s)
    case Stop => s.(stopped := true)
    case Fire => s.(limiter := L.Step(s.limiter, L.Fire(ABORT)))
    case Hear(p) => Hears(s, p)
  }

  function After(batches: seq<seq<Task>>, limit: nat, turns: seq<Turn>): State {
    if turns == [] then Fresh(limit) else Step(batches, limit, After(batches, limit, turns[..|turns| - 1]), turns[|turns| - 1])
  }

  // ----- Who is seated -----

  // A step of its batch, and with a lane an item of the step its worker is on, within every limit there is
  ghost predicate SeatWithin(batch: seq<Task>, limit: nat, s: State, p: Place)
    requires p in s.seats
  {
    var work := s.seats[p];
    && p.worker < limit && p.worker < |batch| && work.step < |batch|
    && match p.lane
      case None => batch[work.step].items.Some? ==> work.attempt == 0 && work.phase.Idle?
      case Some(lane) =>
        && Place(p.worker, None) in s.seats && s.seats[Place(p.worker, None)].step == work.step
        && WithinLimits(batch[work.step], limit, lane)
  }

  // Fewer than the items, than MAX_CONCURRENCY and than FOREACH.MAX_CONCURRENCY, if the step has one
  ghost predicate WithinLimits(task: Task, limit: nat, n: nat) {
    && task.items.Some? && n < task.items.value && n < limit
    && (task.itemLimit.Some? ==> n < task.itemLimit.value)
  }

  ghost predicate Seated(batch: seq<Task>, limit: nat, s: State) {
    forall p :: p in s.seats ==> SeatWithin(batch, limit, s, p)
  }

  lemma LanesAreLimits(task: Task, limit: nat, lane: nat)
    ensures lane < Lanes(task, limit) <==> WithinLimits(task, limit, lane)
  {
  }

  lemma EndKeepsSeated(batch: seq<Task>, limit: nat, s: State, p: Place, succeeded: bool)
    requires Seated(batch, limit, s)
    ensures Seated(batch, limit, Ends(batch, s, p, succeeded))
  {
    var t := Ends(batch, s, p, succeeded);
    hide Lanes, L.Step;
    forall q | q in t.seats ensures SeatWithin(batch, limit, t, q) {
      assert q in s.seats && SeatWithin(batch, limit, s, q);
      if p in s.seats {
        assert SeatWithin(batch, limit, s, p);
      }
    }
  }

  lemma CallKeepsSeated(batches: seq<seq<Task>>, limit: nat, s: State, turn: Turn)
    requires turn.Ask? || turn.Begin? || turn.Refused? || turn.Hear?
    requires Seated(Batch(batches, s), limit, s)
    ensures var t := Step(batches, limit, s, turn); t.round == s.round && Seated(Batch(batches, s), limit, t)
  {
    var batch, t := Batch(batches, s), Step(batches, limit, s, turn);
    hide Lanes, L.Step, L.Outstanding;
    forall q | q in t.seats ensures SeatWithin(batch, limit, t, q) {
      assert q in s.seats && SeatWithin(batch, limit, s, q);
      if turn.place in s.seats {
        assert SeatWithin(batch, limit, s, turn.place);
      }
    }
  }

  lemma StepKeepsSeated(batches: seq<seq<Task>>, limit: nat, s: State, turn: Turn)
    requires Seated(Batch(batches, s), limit, s)
    ensures var t := Step(batches, limit, s, turn); Seated(Batch(batches, t), limit, t)
  {
    var batch, t := Batch(batches, s), Step(batches, limit, s, turn);
    hide WithinLimits, Lanes, L.Step, L.Outstanding;
    if turn.Ask? || turn.Begin? || turn.Refused? || turn.Hear? {
      CallKeepsSeated(batches, limit, s, turn);
      return;
    }
    if turn.End? {
      EndKeepsSeated(batch, limit, s, turn.place, turn.succeeded);
      return;
    }
    hide Asks, Begins, IsRefused, Hears, Ends;
    if turn.TakeItem? {
      if FansOut(batch, s, turn.worker) {
        LanesAreLimits(batch[s.seats[Place(turn.worker, None)].step], limit, turn.lane);
      }
    }
    forall p | p in t.seats ensures SeatWithin(Batch(batches, t), limit, t, p) {
      if p in s.seats {
        assert SeatWithin(batch, limit, s, p);
      }
    }
  }

  lemma {:induction false} AlwaysSeated(batches: seq<seq<Task>>, limit: nat, turns: seq<Turn>)
    ensures var s := After(batches, limit, turns); Seated(Batch(batches, s), limit, s)
  {
    if turns != [] {
      AlwaysSeated(batches, limit, turns[..|turns| - 1]);
      hide Step, Seated;
      StepKeepsSeated(batches, limit, After(batches, limit, turns[..|turns| - 1]), turns[|turns| - 1]);
    }
  }

  // ----- Permits and calls -----

  predicate Has(s: State, p: Place, call: L.Call) {
    p in s.seats && !s.seats[p].phase.Idle? && s.seats[p].phase.call == call
  }

  predicate IsWaiting(s: L.State, call: L.Call) {
    exists i :: 0 <= i < |s.waiters| && s.waiters[i].call == call
  }

  // A call that was made is served, waits, or was rejected
  predicate Accounted(s: L.State, call: L.Call) {
    call in L.Outstanding(s) || IsWaiting(s, call) || call in s.rejected
  }

  ghost predicate Reached(limit: nat, s: L.State) {
    exists events :: s == L.After(limit, events)
  }

  ghost predicate Unshared(s: State) {
    forall p, q, call :: Has(s, p, call) && Has(s, q, call) ==> p == q
  }

  // Whoever executes holds a permit
  ghost predicate ExecutesUnderPermit(s: State) {
    forall p :: p in s.seats && s.seats[p].phase.Executing? ==> s.seats[p].phase.call in L.Outstanding(s.limiter)
  }

  // Every permit and every waiter is somebody's
  ghost predicate Owned(s: State, call: L.Call) {
    exists p :: Has(s, p, call)
  }

  ghost predicate NoneLeaked(s: State) {
    forall call :: call in L.Outstanding(s.limiter) || IsWaiting(s.limiter, call) ==> Owned(s, call)
  }

  ghost predicate Inv(limit: nat, s: State) {
    && Reached(limit, s.limiter) && Unshared(s) && ExecutesUnderPermit(s) && NoneLeaked(s)
    && (forall p, call: L.Call :: Has(s, p, call) ==> call < s.calls && Accounted(s.limiter, call))
    && (forall call: L.Call :: L.Known(s.limiter, call) ==> call < s.calls)
  }

  lemma ReachedNext(limit: nat, s: L.State, event: L.Event)
    requires Reached(limit, s)
    ensures Reached(limit, L.Step(s, event)) && L.Inv(s) && L.Inv(L.Step(s, event)) && L.RejectedUnserved(s)
    ensures s.limit == limit
  {
    var events :| s == L.After(limit, events);
    assert (events + [event])[..|events|] == events;
    assert L.Step(s, event) == L.After(limit, events + [event]);
    L.AlwaysInv(limit, events);
    L.AlwaysInv(limit, events + [event]);
    L.AlwaysRejectedUnserved(limit, events);
  }

  // A hand-off serves one waiter at most, and loses none
  lemma {:induction false} HandOffServes(s: L.State)
    requires L.Apart(s)
    ensures L.Outstanding(s) <= L.Outstanding(L.HandOff(s))
    ensures forall c :: c in L.Outstanding(L.HandOff(s)) ==> c in L.Outstanding(s) || IsWaiting(s, c)
    ensures forall c :: IsWaiting(L.HandOff(s), c) ==> IsWaiting(s, c)
    ensures forall c :: Accounted(s, c) ==> Accounted(L.HandOff(s), c)
    ensures forall c :: L.Known(L.HandOff(s), c) ==> L.Known(s, c)
    decreases |s.waiters|
  {
    if s.waiters != [] {
      var rest := s.waiters[1..];
      assert forall i :: 0 <= i < |rest| ==> rest[i] == s.waiters[i + 1];
      HeadOrRest(s);
      if s.waiters[0].signal in s.aborted {
        HandOffServes(L.PassOver(s));
        assert L.Outstanding(L.PassOver(s)) == L.Outstanding(s);
      } else {
        assert s.waiters[0].call !in s.released;
        assert L.Outstanding(L.HandOff(s)) == L.Outstanding(s) + {s.waiters[0].call};
      }
    } else {
      assert L.Outstanding(L.HandOff(s)) == L.Outstanding(s);
    }
  }

  lemma HeadOrRest(s: L.State)
    requires s.waiters != []
    ensures forall c :: IsWaiting(s, c) <==> c == s.waiters[0].call || IsWaiting(s.(waiters := s.waiters[1..]), c)
  {
    var rest := s.(waiters := s.waiters[1..]);
    assert forall i :: 0 <= i < |rest.waiters| ==> rest.waiters[i] == s.waiters[i + 1];
    forall c | IsWaiting(s, c) ensures c == s.waiters[0].call || IsWaiting(rest, c) {
      var i :| 0 <= i < |s.waiters| && s.waiters[i].call == c;
      assert i > 0 ==> rest.waiters[i - 1].call == c;
    }
    forall c | IsWaiting(rest, c) ensures IsWaiting(s, c) {
      var i :| 0 <= i < |rest.waiters| && rest.waiters[i].call == c;
      assert s.waiters[i + 1].call == c;
    }
  }

  // What giving a permit back does to everybody else
  lemma FinishServes(s: L.State, call: L.Call)
    requires L.Inv(s) && call in L.Outstanding(s)
    ensures var t := L.Step(s, L.Finish(call));
      && L.Outstanding(s) - {call} <= L.Outstanding(t)
      && (forall c :: c in L.Outstanding(t) ==> (c in L.Outstanding(s) && c != call) || IsWaiting(s, c))
      && (forall c :: IsWaiting(t, c) ==> IsWaiting(s, c))
      && (forall c :: c != call && Accounted(s, c) ==> Accounted(t, c))
      && (forall c :: L.Known(t, c) ==> L.Known(s, c))
      && call !in L.Outstanding(t) && !IsWaiting(t, call)
  {
    var u := s.(released := s.released[call := true]);
    assert L.Outstanding(u) == L.Outstanding(s) - {call};
    assert L.Apart(u);
    HandOffServes(u);
    assert !IsWaiting(s, call);
  }

  // A call of run gets a permit or a place in the queue
  lemma RunAccounts(s: L.State, call: L.Call)
    requires L.Inv(s) && !L.Known(s, call) && ABORT !in s.aborted
    ensures var t := L.Step(s, L.Run(call, ABORT));
      && Accounted(t, call)
      && (forall c :: c in L.Outstanding(t) <==> c in L.Outstanding(s) || (c == call && c in L.Outstanding(t)))
      && (forall c :: IsWaiting(t, c) ==> IsWaiting(s, c) || c == call)
      && (forall c :: Accounted(s, c) ==> Accounted(t, c))
      && (forall c :: L.Known(t, c) ==> L.Known(s, c) || c == call)
  {
    var t := L.Step(s, L.Run(call, ABORT));
    hide L.InOrder, L.Apart;
    if s.active < s.limit {
      assert L.Outstanding(t) == L.Outstanding(s) + {call};
    } else {
      assert L.Outstanding(t) == L.Outstanding(s);
      assert t.waiters[|s.waiters|].call == call;
      forall c | IsWaiting(s, c) ensures IsWaiting(t, c) {
        var i :| 0 <= i < |s.waiters| && s.waiters[i].call == c;
        assert t.waiters[i].call == c;
      }
    }
  }

  // A listener takes one waiter out of the queue, and rejects it
  lemma ListenerAccounts(s: L.State, call: L.Call)
    requires L.Inv(s)
    ensures var t := L.Step(s, L.Listener(call));
      && L.Outstanding(t) == L.Outstanding(s)
      && (forall c :: IsWaiting(t, c) ==> IsWaiting(s, c))
      && (forall c :: Accounted(s, c) ==> Accounted(t, c))
      && (forall c :: L.Known(t, c) ==> L.Known(s, c))
  {
    var t := L.Step(s, L.Listener(call));
    L.RemoveIsFilter(s.waiters, call);
    forall c | IsWaiting(t, c) ensures IsWaiting(s, c) {
      var i :| 0 <= i < |t.waiters| && t.waiters[i].call == c;
      assert t.waiters[i] in t.waiters;
    }
    forall c | IsWaiting(s, c) ensures IsWaiting(t, c) || c in t.rejected {
      var i :| 0 <= i < |s.waiters| && s.waiters[i].call == c;
      if t.waiters != s.waiters && c != call {
        assert s.waiters[i] in t.waiters;
        var k :| 0 <= k < |t.waiters| && t.waiters[k] == s.waiters[i];
      }
    }
  }

  // ----- Every turn keeps the accounts -----

  // The limiter and the calls under way stay; only work without a call comes or goes
  ghost predicate SameCalls(s: State, t: State) {
    t.limiter == s.limiter && t.calls == s.calls && forall p, call :: Has(t, p, call) <==> Has(s, p, call)
  }

  lemma SameCallsKeep(limit: nat, s: State, t: State)
    requires Inv(limit, s) && SameCalls(s, t)
    requires forall p :: p in t.seats && t.seats[p].phase.Executing? ==> p in s.seats && s.seats[p].phase.Executing?
    ensures Inv(limit, t)
  {
    hide Accounted, L.Known, Reached;
    forall p | p in t.seats && t.seats[p].phase.Executing? ensures t.seats[p].phase.call in L.Outstanding(t.limiter) {
      assert Has(t, p, t.seats[p].phase.call);
      assert Has(s, p, t.seats[p].phase.call);
    }
    forall call | call in L.Outstanding(t.limiter) || IsWaiting(t.limiter, call) ensures Owned(t, call) {
      assert Owned(s, call);
      var p :| Has(s, p, call);
      assert Has(t, p, call);
    }
  }

  lemma AskKeeps(limit: nat, s: State, p: Place)
    requires Inv(limit, s)
    ensures Inv(limit, Asks(s, p))
  {
    var t := Asks(s, p);
    if MayCall(s, p) {
      if Aborted(s) {
        SameCallsKeep(limit, s, t);
      } else {
        ReachedNext(limit, s.limiter, L.Run(s.calls, ABORT));
        assert !L.Known(s.limiter, s.calls);
        RunAccounts(s.limiter, s.calls);
        AskedKeeps(limit, s, t, p);
      }
    }
  }

  // The seats after a call was made
  lemma AskedKeeps(limit: nat, s: State, t: State, p: Place)
    requires Inv(limit, s) && p in s.seats && s.seats[p].phase.Idle?
    requires t.seats == s.seats[p := s.seats[p].(phase := Asking(s.calls))] && t.calls == s.calls + 1
    requires Reached(limit, t.limiter) && Accounted(t.limiter, s.calls)
    requires forall c :: c in L.Outstanding(t.limiter) <==> c in L.Outstanding(s.limiter) || (c == s.calls && c in L.Outstanding(t.limiter))
    requires forall c :: IsWaiting(t.limiter, c) ==> IsWaiting(s.limiter, c) || c == s.calls
    requires forall c :: Accounted(s.limiter, c) ==> Accounted(t.limiter, c)
    requires forall c :: L.Known(t.limiter, c) ==> L.Known(s.limiter, c) || c == s.calls
    ensures Inv(limit, t)
  {
    hide Accounted, L.Known, Reached, L.Outstanding, IsWaiting;
    assert Has(t, p, s.calls);
    forall q, call ensures Has(t, q, call) <==> if q == p then call == s.calls else Has(s, q, call) {
    }
    forall call | call in L.Outstanding(t.limiter) || IsWaiting(t.limiter, call) ensures Owned(t, call) {
      if call != s.calls {
        assert Owned(s, call);
        var q :| Has(s, q, call);
        assert Has(t, q, call);
      }
    }
  }

  lemma BeginKeeps(limit: nat, s: State, p: Place)
    requires Inv(limit, s)
    ensures Inv(limit, Begins(s, p))
  {
    var t := Begins(s, p);
    hide Accounted, L.Known, Reached;
    forall q, call ensures Has(t, q, call) <==> Has(s, q, call) {
    }
    forall call | call in L.Outstanding(t.limiter) || IsWaiting(t.limiter, call) ensures Owned(t, call) {
      assert Owned(s, call);
      var q :| Has(s, q, call);
      assert Has(t, q, call);
    }
  }

  // A place leaves with a call that is neither served nor waiting any more
  lemma LeaveKeeps(limit: nat, s: State, t: State, p: Place, call: L.Call)
    requires Unshared(s) && NoneLeaked(s) && ExecutesUnderPermit(s) && Has(s, p, call) && Reached(limit, t.limiter)
    requires forall q, c: L.Call :: Has(s, q, c) ==> c < s.calls && Accounted(s.limiter, c)
    requires forall c: L.Call :: L.Known(s.limiter, c) ==> c < s.calls
    requires t.calls == s.calls && forall q :: q != p ==> (q in t.seats <==> q in s.seats) && (q in s.seats ==> t.seats[q] == s.seats[q])
    requires p in t.seats ==> t.seats[p].phase.Idle?
    requires call !in L.Outstanding(t.limiter) && !IsWaiting(t.limiter, call)
    requires L.Outstanding(s.limiter) - {call} <= L.Outstanding(t.limiter)
    requires forall c :: c in L.Outstanding(t.limiter) ==> c in L.Outstanding(s.limiter) || IsWaiting(s.limiter, c)
    requires forall c :: IsWaiting(t.limiter, c) ==> IsWaiting(s.limiter, c)
    requires forall c :: c != call && Accounted(s.limiter, c) ==> Accounted(t.limiter, c)
    requires forall c :: L.Known(t.limiter, c) ==> L.Known(s.limiter, c)
    ensures Inv(limit, t)
  {
    hide Accounted, L.Known, Reached, L.Outstanding, IsWaiting;
    forall q, c ensures Has(t, q, c) <==> q != p && Has(s, q, c) {
    }
    forall q, c | Has(t, q, c) ensures c != call {
      assert Has(s, q, c);
    }
    forall c | c in L.Outstanding(t.limiter) || IsWaiting(t.limiter, c) ensures Owned(t, c) {
      assert Owned(s, c);
      var q :| Has(s, q, c);
      assert Has(t, q, c);
    }
    forall q | q in t.seats && t.seats[q].phase.Executing? ensures t.seats[q].phase.call in L.Outstanding(t.limiter) {
      assert Has(t, q, t.seats[q].phase.call);
    }
  }

  lemma RefusedKeeps(limit: nat, s: State, p: Place)
    requires Inv(limit, s)
    ensures Inv(limit, IsRefused(s, p))
  {
    if IsAsking(s, p) && s.seats[p].phase.call in s.limiter.rejected {
      var call := s.seats[p].phase.call;
      ReachedNext(limit, s.limiter, L.Fire(ABORT));
      RejectedIsOut(s.limiter, call);
      hide Accounted, L.Known, Reached, L.Outstanding, IsWaiting, L.Inv;
      LeaveKeeps(limit, s, IsRefused(s, p), p, call);
    }
  }

  lemma RejectedIsOut(s: L.State, call: L.Call)
    requires L.Inv(s) && L.RejectedUnserved(s) && call in s.rejected
    ensures !IsWaiting(s, call) && call !in L.Outstanding(s)
  {
  }

  lemma EndKeeps(batch: seq<Task>, limit: nat, s: State, p: Place, succeeded: bool)
    requires Inv(limit, s)
    ensures Inv(limit, Ends(batch, s, p, succeeded))
  {
    if p in s.seats && s.seats[p].phase.Executing? {
      var call := s.seats[p].phase.call;
      ReachedNext(limit, s.limiter, L.Finish(call));
      FinishServes(s.limiter, call);
      assert Has(s, p, call);
      hide Accounted, L.Known, Reached, L.Outstanding, IsWaiting, L.Inv, L.Step;
      LeaveKeeps(limit, s, Ends(batch, s, p, succeeded), p, call);
    }
  }

  // The limiter moves on while nobody's work does
  lemma LimiterKeeps(limit: nat, s: State, t: State)
    requires Inv(limit, s) && t == s.(limiter := t.limiter) && Reached(limit, t.limiter)
    requires L.Outstanding(t.limiter) == L.Outstanding(s.limiter)
    requires forall c :: IsWaiting(t.limiter, c) ==> IsWaiting(s.limiter, c)
    requires forall c :: Accounted(s.limiter, c) ==> Accounted(t.limiter, c)
    requires forall c :: L.Known(t.limiter, c) ==> L.Known(s.limiter, c)
    ensures Inv(limit, t)
  {
    hide Accounted, L.Known, Reached, L.Outstanding, IsWaiting;
    forall q, c ensures Has(t, q, c) <==> Has(s, q, c) {
    }
    forall c | c in L.Outstanding(t.limiter) || IsWaiting(t.limiter, c) ensures Owned(t, c) {
      assert Owned(s, c);
      var q :| Has(s, q, c);
      assert Has(t, q, c);
    }
  }

  lemma FireKeeps(limit: nat, s: State)
    requires Inv(limit, s)
    ensures Inv(limit, s.(limiter := L.Step(s.limiter, L.Fire(ABORT))))
  {
    var t := s.(limiter := L.Step(s.limiter, L.Fire(ABORT)));
    ReachedNext(limit, s.limiter, L.Fire(ABORT));
    assert L.Outstanding(t.limiter) == L.Outstanding(s.limiter);
    forall c ensures IsWaiting(t.limiter, c) <==> IsWaiting(s.limiter, c) {
    }
    LimiterKeeps(limit, s, t);
  }

  lemma HearKeeps(limit: nat, s: State, p: Place)
    requires Inv(limit, s)
    ensures Inv(limit, Hears(s, p))
  {
    if IsAsking(s, p) {
      ReachedNext(limit, s.limiter, L.Listener(s.seats[p].phase.call));
      ListenerAccounts(s.limiter, s.seats[p].phase.call);
      hide L.Step, Reached, Accounted, L.Inv;
      LimiterKeeps(limit, s, Hears(s, p));
    }
  }

  lemma StepKeeps(batches: seq<seq<Task>>, limit: nat, s: State, turn: Turn)
    requires Inv(limit, s)
    ensures Inv(limit, Step(batches, limit, s, turn))
  {
    hide Inv, Asks, Begins, IsRefused, Ends, Hears, L.Step, Lanes;
    match turn
    case Ask(p) => AskKeeps(limit, s, p);
    case Begin(p) => BeginKeeps(limit, s, p);
    case Refused(p) => RefusedKeeps(limit, s, p);
    case End(p, succeeded) => EndKeeps(Batch(batches, s), limit, s, p, succeeded);
    case Fire => FireKeeps(limit, s);
    case Hear(p) => HearKeeps(limit, s, p);
    case _ => SameCallsKeep(limit, s, Step(batches, limit, s, turn));
  }

  lemma {:induction false} AlwaysKept(batches: seq<seq<Task>>, limit: nat, turns: seq<Turn>)
    ensures Inv(limit, After(batches, limit, turns))
  {
    if turns == [] {
      assert L.Fresh(limit) == L.After(limit, []);
      assert L.Outstanding(L.Fresh(limit)) == {};
    } else {
      AlwaysKept(batches, limit, turns[..|turns| - 1]);
      hide Inv, Step;
      StepKeeps(batches, limit, After(batches, limit, turns[..|turns| - 1]), turns[|turns| - 1]);
    }
  }

  // ----- What it means -----

  function ExecutingPlaces(s: State): set<Place> {
    set p | p in s.seats && s.seats[p].phase.Executing?
  }

  // Different places execute different calls, so there are as many calls as places
  lemma {:induction false} OneCallEach(s: State, places: set<Place>, permits: set<L.Call>)
    requires Unshared(s) && forall p :: p in places ==> p in s.seats && s.seats[p].phase.Executing? && s.seats[p].phase.call in permits
    ensures |places| <= |permits|
    decreases |places|
  {
    if places != {} {
      var p :| p in places;
      var call := s.seats[p].phase.call;
      forall q | q in places - {p} ensures s.seats[q].phase.call in permits - {call} {
        assert Has(s, p, call) && Has(s, q, s.seats[q].phase.call);
      }
      OneCallEach(s, places - {p}, permits - {call});
    }
  }

  // In every batch of a run, whatever the interleaving of batch workers, fan-out workers, retries and aborts: the
  // executor calls in flight all hold a permit, and there are never more of them than MAX_CONCURRENCY
  lemma CallsWithinLimit(batches: seq<seq<Task>>, limit: nat, turns: seq<Turn>)
    ensures var s := After(batches, limit, turns);
      (forall p :: p in ExecutingPlaces(s) ==> s.seats[p].phase.call in L.Outstanding(s.limiter)) && |ExecutingPlaces(s)| <= limit
  {
    AlwaysKept(batches, limit, turns);
    var s := After(batches, limit, turns);
    hide After, L.Step;
    ReachedNext(limit, s.limiter, L.Fire(ABORT));
    OneCallEach(s, ExecutingPlaces(s), L.Outstanding(s.limiter));
  }

  // The places of the lanes below a bound
  function LanePlaces(worker: nat, n: nat): set<Place> {
    if n == 0 then {} else LanePlaces(worker, n - 1) + {Place(worker, Some(n - 1))}
  }

  lemma {:induction false} LanePlacesAre(worker: nat, n: nat)
    ensures forall p :: p in LanePlaces(worker, n) <==> p.worker == worker && p.lane.Some? && p.lane.value < n
    ensures |LanePlaces(worker, n)| == n
  {
    if n > 0 {
      LanePlacesAre(worker, n - 1);
    }
  }

  function ItemPlaces(s: State, worker: nat): set<Place> {
    set p | p in s.seats && p.worker == worker && p.lane.Some?
  }

  lemma ItemsBelow(s: State, worker: nat, n: nat)
    requires forall p :: p in ItemPlaces(s, worker) ==> p.lane.value < n
    ensures |ItemPlaces(s, worker)| <= n
  {
    LanePlacesAre(worker, n);
    assert ItemPlaces(s, worker) <= LanePlaces(worker, n);
    assert LanePlaces(worker, n) == ItemPlaces(s, worker) + (LanePlaces(worker, n) - ItemPlaces(s, worker));
  }

  // A step has no more items in flight than MAX_CONCURRENCY and its own FOREACH.MAX_CONCURRENCY allow; and a lane below
  // both that is free takes the next item
  lemma FanOutWithinLimits(batches: seq<seq<Task>>, limit: nat, turns: seq<Turn>, worker: nat, lane: nat)
    requires FansOut(Batch(batches, After(batches, limit, turns)), After(batches, limit, turns), worker)
    ensures var s := After(batches, limit, turns);
      var step := s.seats[Place(worker, None)].step;
      var task := Batch(batches, s)[step];
      && |ItemPlaces(s, worker)| <= limit && |ItemPlaces(s, worker)| <= task.items.value
      && (task.itemLimit.Some? ==> |ItemPlaces(s, worker)| <= task.itemLimit.value)
      && (forall p :: p in ItemPlaces(s, worker) ==> s.seats[p].step == step)
      && (if WithinLimits(task, limit, lane) && s.nextItem[step] < task.items.value && !Aborted(s) && Place(worker, Some(lane)) !in s.seats
        then After(batches, limit, turns + [TakeItem(worker, lane)]).seats ==
          s.seats[Place(worker, Some(lane)) := Work(step, Some(s.nextItem[step]), 1, Idle)]
        else After(batches, limit, turns + [TakeItem(worker, lane)]) == s)
  {
    AlwaysSeated(batches, limit, turns);
    var s := After(batches, limit, turns);
    var batch := Batch(batches, s);
    var step := s.seats[Place(worker, None)].step;
    assert (turns + [TakeItem(worker, lane)])[..|turns|] == turns;
    LanesAreLimits(batch[step], limit, lane);
    hide Lanes;
    forall p | p in ItemPlaces(s, worker) ensures s.seats[p].step == step && WithinLimits(batch[step], limit, p.lane.value) {
      assert SeatWithin(batch, limit, s, p);
    }
    ItemsBelow(s, worker, limit);
    ItemsBelow(s, worker, batch[step].items.value);
    if batch[step].itemLimit.Some? {
      ItemsBelow(s, worker, batch[step].itemLimit.value);
    }
  }

  function StepPlaces(s: State): set<Place> {
    set p | p in s.seats && p.lane.None?
  }

  function WorkerPlaces(n: nat): set<Place> {
    if n == 0 then {} else WorkerPlaces(n - 1) + {Place(n - 1, None)}
  }

  lemma {:induction false} WorkerPlacesAre(n: nat)
    ensures forall p :: p in WorkerPlaces(n) <==> p.worker < n && p.lane.None?
    ensures |WorkerPlaces(n)| == n
  {
    if n > 0 {
      WorkerPlacesAre(n - 1);
    }
  }

  lemma StepsBelow(s: State, n: nat)
    requires forall p :: p in StepPlaces(s) ==> p.worker < n
    ensures |StepPlaces(s)| <= n
  {
    WorkerPlacesAre(n);
    assert StepPlaces(s) <= WorkerPlaces(n);
    assert WorkerPlaces(n) == StepPlaces(s) + (WorkerPlaces(n) - StepPlaces(s));
  }

  // A batch has no more steps in flight than MAX_CONCURRENCY allows; and a worker below it that is free takes the next
  // step until the batch is stopped
  lemma StepsWithinLimit(batches: seq<seq<Task>>, limit: nat, turns: seq<Turn>, worker: nat)
    ensures var s := After(batches, limit, turns);
      var batch := Batch(batches, s);
      var t := After(batches, limit, turns + [TakeStep(worker)]);
      && |StepPlaces(s)| <= limit && |StepPlaces(s)| <= |batch|
      && (if worker < limit && worker < |batch| && Place(worker, None) !in s.seats && s.next < |batch| && !s.stopped
        then t.next == s.next + 1 &&
          (!Aborted(s) ==> Place(worker, None) in t.seats && t.seats[Place(worker, None)].step == s.next)
        else t == s)
  {
    AlwaysSeated(batches, limit, turns);
    var s := After(batches, limit, turns);
    assert (turns + [TakeStep(worker)])[..|turns|] == turns;
    forall p | p in StepPlaces(s) ensures p.worker < limit && p.worker < |Batch(batches, s)| {
      assert SeatWithin(Batch(batches, s), limit, s, p);
    }
    StepsBelow(s, limit);
    StepsBelow(s, |Batch(batches, s)|);
  }

  // No permit is lost: once nobody is in a call, all of them are back and nobody waits
  lemma NoPermitIsLost(batches: seq<seq<Task>>, limit: nat, turns: seq<Turn>)
    requires forall p :: p in After(batches, limit, turns).seats ==> After(batches, limit, turns).seats[p].phase.Idle?
    ensures After(batches, limit, turns).limiter.active == 0 && After(batches, limit, turns).limiter.waiters == []
  {
    AlwaysKept(batches, limit, turns);
    var s := After(batches, limit, turns);
    hide After, L.Step;
    ReachedNext(limit, s.limiter, L.Fire(ABORT));
    forall call ensures call !in L.Outstanding(s.limiter) && !IsWaiting(s.limiter, call) {
      assert !Owned(s, call);
    }
    assert L.Outstanding(s.limiter) == {};
    FirstIsWaiting(s.limiter);
  }

  lemma FirstIsWaiting(s: L.State)
    ensures s.waiters != [] ==> IsWaiting(s, s.waiters[0].call)
  {
  }

  // Nobody waits in vain: a call that is neither served nor rejected waits behind as many others as are allowed
  lemma WaitingMeansFull(batches: seq<seq<Task>>, limit: nat, turns: seq<Turn>, p: Place)
    requires IsAsking(After(batches, limit, turns), p)
    ensures var s := After(batches, limit, turns);
      var call := s.seats[p].phase.call;
      call in L.Outstanding(s.limiter) || call in s.limiter.rejected ||
      (|L.Outstanding(s.limiter)| == limit && forall c :: c in L.Outstanding(s.limiter) ==> c != call && Owned(s, c))
  {
    AlwaysKept(batches, limit, turns);
    var s := After(batches, limit, turns);
    hide After, L.Step;
    ReachedNext(limit, s.limiter, L.Fire(ABORT));
    assert Has(s, p, s.seats[p].phase.call);
  }
}
