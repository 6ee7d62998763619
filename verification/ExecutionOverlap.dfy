/**
 * Overlap policies (applyOverlapPolicy in src/repositories/ExecutionRepository.ts): which executions
 * are active after one more was requested.
 */
module ExecutionOverlap {
  import opened Wrappers
  import opened Executions
  import opened ExecutionLaws

  lemma InsertedActive(s: State, id: ExecId, request: Request, status: Status)
    requires id !in s.executions && (status.Queued? || status.Skipped?)
    ensures ActiveFor(Inserted(s, id, request, status), request.job.id, request.key) ==
      ActiveFor(s, request.job.id, request.key) + if status.Queued? then {id} else {}
  {
    InsertedQuiet(s, id, request, status);
    hide Inserted, Quiet;
  }

  lemma DisplacedActive(s: State, oldest: ExecId, job: JobId, key: Option<string>)
    requires oldest in s.executions && !s.executions[oldest].status.Terminal()
    ensures ActiveFor(Displaced(s, oldest), job, key) ==
      ActiveFor(s, job, key) - if s.executions[oldest].status.Queued? then {oldest} else {}
  {
    hide End;
    if s.executions[oldest].status.Queued? {
      EndQuiet(s, oldest, CancelledBy(s.executions[oldest], Some(OverlapCancelled)));
      hide Quiet;
    }
  }

  // What each policy makes of one more request
  lemma EnqueueActive(s: State, id: ExecId, request: Request)
    requires Admissible(s, id, request)
    ensures var active, after := ActiveFor(s, request.job.id, request.key), ActiveFor(Enqueue(s, id, request), request.job.id, request.key);
      after ==
        if active == {} || Mode(request.job, request.kind) == QueueNew then active + {id}
        else if Mode(request.job, request.kind) == SkipNew then active
        else if s.executions[Oldest(s, active)].status.Queued? then active - {Oldest(s, active)} + {id}
        else active + {id}
  {
    var job, key := request.job, request.key;
    var active := ActiveFor(s, job.id, key);
    AdmissibleIsFresh(s, id, request);
    hide Admissible, ActiveFor, Displaced, IsOldest, Inserted;
    var (t, status) := Overlapped(s, job, key, request.kind);
    OverlappedQuiet(s, job, key, request.kind);
    OverlappedStatus(s, job, key, request.kind);
    InsertedActive(t, id, request, status);
    if active != {} && Mode(job, request.kind) == CancelOldest {
      ActiveRows(s, job.id, key);
      OldestIsActive(s, active);
      DisplacedActive(s, Oldest(s, active), job.id, key);
    }
  }

  lemma ActiveRows(s: State, job: JobId, key: Option<string>)
    ensures ActiveFor(s, job, key) <= s.executions.Keys
    ensures forall id :: id in ActiveFor(s, job, key) ==> !s.executions[id].status.Terminal()
  {
  }

  // Skipping keeps a single active execution single
  lemma SkipKeepsOne(s: State, id: ExecId, request: Request)
    requires Admissible(s, id, request) && Mode(request.job, request.kind) == SkipNew
    requires |ActiveFor(s, request.job.id, request.key)| <= 1
    ensures |ActiveFor(Enqueue(s, id, request), request.job.id, request.key)| == 1
  {
    hide Enqueue, Admissible, ActiveFor;
    EnqueueActive(s, id, request);
  }

  // cancel_oldest keeps the number of active executions exactly when the oldest is still queued
  lemma CancelOldestReplacesQueued(s: State, id: ExecId, request: Request)
    requires Admissible(s, id, request) && Mode(request.job, request.kind) == CancelOldest
    requires ActiveFor(s, request.job.id, request.key) != {}
    ensures var active := ActiveFor(s, request.job.id, request.key);
      |ActiveFor(Enqueue(s, id, request), request.job.id, request.key)| == |active| <==>
        s.executions[Oldest(s, active)].status.Queued?
  {
    var active := ActiveFor(s, request.job.id, request.key);
    AdmissibleIsFresh(s, id, request);
    EnqueueActive(s, id, request);
    ActiveRows(s, request.job.id, request.key);
    hide Enqueue, Admissible, ActiveFor;
    OldestIsActive(s, active);
    assert id !in active;
  }

  ghost function EnqueueAll(s: State, ids: seq<ExecId>, request: Request): State {
    if ids == [] then s else Enqueue(EnqueueAll(s, ids[..|ids| - 1], request), ids[|ids| - 1], request)
  }

  // The oldest active execution of a request, running since before now
  ghost predicate LongRunning(s: State, request: Request, a: ExecId) {
    IsOldest(s, ActiveFor(s, request.job.id, request.key), a) && a in s.executions && s.executions[a].status.Running?
    && s.executions[a].requestedAt < s.clock
  }

  lemma OldestIsUnique(s: State, ids: set<ExecId>, a: ExecId)
    requires ids <= s.executions.Keys && IsOldest(s, ids, a)
    ensures Oldest(s, ids) == a
  {
  }

  lemma EnqueueRows(s: State, id: ExecId, request: Request, x: ExecId)
    requires Admissible(s, id, request)
    ensures Enqueue(s, id, request).clock == s.clock
    ensures id in Enqueue(s, id, request).executions && Enqueue(s, id, request).executions[id].requestedAt == s.clock
    ensures x in Enqueue(s, id, request).executions <==> x == id || x in s.executions
    ensures x in s.executions ==> RowEvolves(s.executions[x], Enqueue(s, id, request).executions[x])
  {
    AdmissibleIsFresh(s, id, request);
    hide Admissible, Overlapped, Inserted;
    OverlappedQuiet(s, request.job, request.key, request.kind);
    OverlappedStatus(s, request.job, request.key, request.kind);
    var (t, status) := Overlapped(s, request.job, request.key, request.kind);
    InsertedQuiet(t, id, request, status);
    NewRowTime(t, request, status);
    hide NewRow;
  }

  lemma NewRowTime(s: State, request: Request, status: Status)
    ensures NewRow(s, request, status).requestedAt == s.clock
  {
  }

  lemma LongRunningStays(s: State, id: ExecId, request: Request, a: ExecId)
    requires Admissible(s, id, request) && Mode(request.job, request.kind) == CancelOldest && LongRunning(s, request, a)
    ensures LongRunning(Enqueue(s, id, request), request, a)
  {
    var t := Enqueue(s, id, request);
    var active := ActiveFor(s, request.job.id, request.key);
    ActiveRows(s, request.job.id, request.key);
    OldestIsUnique(s, active, a);
    EnqueueActive(s, id, request);
    forall x { EnqueueRows(s, id, request, x); }
    StillRunning(s, id, request, a);
    hide Enqueue, Admissible, ActiveFor;
    assert ActiveFor(t, request.job.id, request.key) == active + {id};
    forall b | b in active + {id} && b in t.executions ensures Before(t, a, b) {
      if b != id {
        assert Before(s, a, b);
        assert RowEvolves(s.executions[b], t.executions[b]) && RowEvolves(s.executions[a], t.executions[a]);
      }
    }
  }

  lemma StillRunning(s: State, id: ExecId, request: Request, a: ExecId)
    requires Admissible(s, id, request) && Mode(request.job, request.kind) == CancelOldest && LongRunning(s, request, a)
    ensures a in Enqueue(s, id, request).executions && Enqueue(s, id, request).executions[a].status.Running?
  {
    var active := ActiveFor(s, request.job.id, request.key);
    AdmissibleIsFresh(s, id, request);
    ActiveRows(s, request.job.id, request.key);
    OldestIsUnique(s, active, a);
    hide Admissible, ActiveFor, Inserted;
    var (t, status) := Overlapped(s, request.job, request.key, request.kind);
    OverlappedStatus(s, request.job, request.key, request.kind);
    OverlappedQuiet(s, request.job, request.key, request.kind);
    InsertedQuiet(t, id, request, status);
  }

  // New ids, and requests that no occurrence guards
  ghost predicate NewIds(s: State, ids: seq<ExecId>, request: Request) {
    && request.scheduledFor.None? && !IsOccurrence(request.source)
    && (forall i :: 0 <= i < |ids| ==> ids[i] !in s.executions)
    && (forall i, j :: 0 <= i < j < |ids| ==> ids[i] != ids[j])
  }

  lemma {:induction false} EnqueueAllAdds(s: State, ids: seq<ExecId>, request: Request)
    requires NewIds(s, ids, request)
    ensures forall x :: x in EnqueueAll(s, ids, request).executions <==> x in s.executions || x in ids
    ensures ids != [] ==> Admissible(EnqueueAll(s, ids[..|ids| - 1], request), ids[|ids| - 1], request)
    decreases |ids|
  {
    hide Enqueue;
    if ids != [] {
      var less, id := ids[..|ids| - 1], ids[|ids| - 1];
      EnqueueAllAdds(s, less, request);
      var t := EnqueueAll(s, less, request);
      assert Admissible(t, id, request);
      hide Admissible;
      forall x { EnqueueRows(t, id, request, x); }
      assert ids == less + [id];
    }
  }

  // It bounds nothing: behind a running execution that was already asked to cancel, every request queues up
  lemma {:induction false} CancelOldestDoesNotBound(s: State, ids: seq<ExecId>, request: Request, a: ExecId)
    requires Mode(request.job, request.kind) == CancelOldest && NewIds(s, ids, request)
    requires LongRunning(s, request, a)
    ensures LongRunning(EnqueueAll(s, ids, request), request, a)
    ensures |ActiveFor(EnqueueAll(s, ids, request), request.job.id, request.key)| == |ActiveFor(s, request.job.id, request.key)| + |ids|
    decreases |ids|
  {
    hide Enqueue, ActiveFor, LongRunning, Admissible, Mode;
    if ids != [] {
      var less, id := ids[..|ids| - 1], ids[|ids| - 1];
      CancelOldestDoesNotBound(s, less, request, a);
      EnqueueAllAdds(s, ids, request);
      var t := EnqueueAll(s, less, request);
      OneMoreActive(t, id, request, a);
      LongRunningStays(t, id, request, a);
    }
  }

  lemma OneMoreActive(s: State, id: ExecId, request: Request, a: ExecId)
    requires Admissible(s, id, request) && Mode(request.job, request.kind) == CancelOldest && LongRunning(s, request, a)
    ensures |ActiveFor(Enqueue(s, id, request), request.job.id, request.key)| == |ActiveFor(s, request.job.id, request.key)| + 1
  {
    var active := ActiveFor(s, request.job.id, request.key);
    AdmissibleIsFresh(s, id, request);
    ActiveRows(s, request.job.id, request.key);
    OldestIsUnique(s, active, a);
    EnqueueActive(s, id, request);
    hide Enqueue, Admissible, ActiveFor;
    assert id !in active;
  }

  // Such an execution is soon there: requested, claimed, and a moment later every request piles up behind it
  lemma PileIsReachable(leaseMs: nat, job: JobDef, worker: WorkerId, ids: seq<ExecId>)
    requires MaxRunning(job) > 0 && Mode(job, OnRequest) == CancelOldest
    requires NewIds(After(leaseMs, FirstEvents(job, worker) + [Tick(1)]), ids, FirstRequest(job))
    ensures var s := After(leaseMs, FirstEvents(job, worker) + [Tick(1)]);
      LongRunning(s, FirstRequest(job), 0) && |ActiveFor(EnqueueAll(s, ids, FirstRequest(job)), job.id, None)| == 1 + |ids|
  {
    var events := FirstEvents(job, worker);
    var s := After(leaseMs, events + [Tick(1)]);
    FirstExecutionRuns(leaseMs, job, worker);
    assert (events + [Tick(1)])[..|events|] == events;
    assert s == After(leaseMs, events).(clock := 1);
    hide After;
    assert ActiveFor(s, job.id, None) == {0};
    CancelOldestDoesNotBound(s, ids, FirstRequest(job), 0);
  }
}
