/**
 * What claims must do, not only what they may: a queue fills up to its cap whenever enough of its
 * executions have nothing else in their way.
 */
module ExecutionProgress {
  import opened Wrappers
  import opened Executions
  import opened ExecutionLaws
  import Told = Transactions

  // A worker tries one execution after the other
  ghost function ClaimAll(leaseMs: nat, s: State, worker: WorkerId, ids: seq<ExecId>): State {
    if ids == [] then s
    else
      var t := ClaimAll(leaseMs, s, worker, ids[..|ids| - 1]);
      Claim(t, leaseMs, worker, ids[|ids| - 1], t.clock, t.clock, t.clock)
  }

  function RunningIn(s: State, queue: Queue): set<ExecId> {
    set r | r in s.executions && s.executions[r].status == Running && s.executions[r].job.queue == queue
  }

  // A queued execution of the queue whose job allows one to run and runs none
  ghost predicate Ready(s: State, queue: Queue, id: ExecId) {
    && id in s.executions && s.executions[id].status == Queued && s.executions[id].job.queue == queue
    && s.executions[id].job.maxRunning != Some(0)
    && forall r :: r in s.executions && s.executions[r].status == Running ==> s.executions[r].job.id != s.executions[id].job.id
  }

  // Executions of different jobs that wait for nothing but a place in their queue, which has a cap and no rate limit
  ghost predicate Unobstructed(s: State, queue: Queue, ids: seq<ExecId>) {
    && queue in s.policies && !s.policies[queue].paused
    && s.policies[queue].maxRunning.Some? && s.policies[queue].maxStarts.None?
    && (forall i :: 0 <= i < |ids| ==> Ready(s, queue, ids[i]))
    && (forall i, j :: 0 <= i < j < |ids| ==> s.executions[ids[i]].job.id != s.executions[ids[j]].job.id)
  }

  function Least(a: int, b: int): int {
    if a < b then a else b
  }

  ghost predicate SameJobs(before: map<ExecId, Execution>, after: map<ExecId, Execution>) {
    after.Keys == before.Keys && forall r :: r in before ==> after[r].job == before[r].job
  }

  ghost predicate SameBut(before: map<ExecId, Execution>, after: map<ExecId, Execution>, ids: seq<ExecId>) {
    forall r :: r in before && r in after && r !in ids ==> after[r] == before[r]
  }

  lemma SameKeys(before: map<ExecId, Execution>, after: map<ExecId, Execution>)
    requires SameJobs(before, after)
    ensures after.Keys == before.Keys
  {
  }

  lemma SameButOneMore(
    before: map<ExecId, Execution>, middle: map<ExecId, Execution>, after: map<ExecId, Execution>, ids: seq<ExecId>, k: nat)
    requires k < |ids| && SameBut(before, middle, ids[..k]) && middle.Keys == before.Keys == after.Keys
    requires forall r :: r in middle && r != ids[k] ==> after[r] == middle[r]
    requires SameJobs(before, middle) && ids[k] in middle && after[ids[k]].job == middle[ids[k]].job
    ensures SameBut(before, after, ids[..k + 1]) && SameJobs(before, after)
  {
    assert ids[..k + 1] == ids[..k] + [ids[k]];
  }

  // After trying the first k: as many of them run as there was room for
  ghost predicate Filled(s: State, t: State, queue: Queue, ids: seq<ExecId>, k: nat)
    requires k <= |ids| && Unobstructed(s, queue, ids)
  {
    && t.policies == s.policies && SameJobs(s.executions, t.executions)
    && SameBut(s.executions, t.executions, ids[..k])
    && |RunningIn(t, queue)| == Least(s.policies[queue].maxRunning.value, |RunningIn(s, queue)| + k)
  }

  // The next one has at most the cap in its way
  lemma NextIsClaimable(s: State, t: State, queue: Queue, ids: seq<ExecId>, k: nat, now: Time)
    requires k < |ids| && Unobstructed(s, queue, ids) && Filled(s, t, queue, ids, k)
    ensures Told.Claimable(t, ids[k], now) <==> |RunningIn(t, queue)| < s.policies[queue].maxRunning.value
  {
    var id := ids[k];
    assert Ready(s, queue, id);
    forall i | 0 <= i < k ensures ids[i] != id && s.executions[ids[i]].job.id != s.executions[id].job.id {
    }
    assert t.executions[id] == s.executions[id];
    forall r | r in t.executions && t.executions[r].status == Running ensures t.executions[r].job.id != t.executions[id].job.id {
      if r in ids[..k] {
        var i :| 0 <= i < k && ids[i] == r;
      }
    }
    assert (set r | r in t.executions && t.executions[r].status == Running && t.executions[r].job.id == t.executions[id].job.id) == {};
    assert RunningIn(t, queue) ==
      set r | r in t.executions && t.executions[r].status == Running && t.executions[r].job.queue == t.executions[id].job.queue;
    hide RunningIn;
    assert !Told.HasRateLimit(t.policies[queue]);
  }

  // What a claim adds to its queue
  lemma ClaimAdds(
    leaseMs: nat, s: State, t: State, worker: WorkerId, id: ExecId, claimed: Time, recorded: Time, queue: Queue)
    requires Told.Claimed(s, t, leaseMs, worker, id, claimed, recorded)
    requires s.executions[id].status == Queued && s.executions[id].job.queue == queue
    ensures t.policies == s.policies && t.executions.Keys == s.executions.Keys && t.executions[id].job == s.executions[id].job
    ensures forall r :: r in s.executions && r != id ==> t.executions[r] == s.executions[r]
    ensures id !in RunningIn(s, queue) && RunningIn(t, queue) == RunningIn(s, queue) + {id}
  {
  }

  lemma FilledByOne(s: State, t: State, u: State, queue: Queue, ids: seq<ExecId>, k: nat)
    requires k < |ids| && Unobstructed(s, queue, ids) && Filled(s, t, queue, ids, k)
    requires u.policies == t.policies && u.executions.Keys == t.executions.Keys
    requires ids[k] in t.executions && u.executions[ids[k]].job == t.executions[ids[k]].job
    requires forall r :: r in t.executions && r != ids[k] ==> u.executions[r] == t.executions[r]
    requires if |RunningIn(t, queue)| < s.policies[queue].maxRunning.value
      then ids[k] !in RunningIn(t, queue) && RunningIn(u, queue) == RunningIn(t, queue) + {ids[k]} else u == t
    ensures Filled(s, u, queue, ids, k + 1)
  {
    SameKeys(s.executions, t.executions);
    SameButOneMore(s.executions, t.executions, u.executions, ids, k);
    hide RunningIn, Unobstructed, SameBut, SameJobs;
  }

  lemma FillsNext(leaseMs: nat, s: State, t: State, worker: WorkerId, queue: Queue, ids: seq<ExecId>, k: nat)
    requires k < |ids| && Unobstructed(s, queue, ids) && Filled(s, t, queue, ids, k)
    ensures Filled(s, Claim(t, leaseMs, worker, ids[k], t.clock, t.clock, t.clock), queue, ids, k + 1)
  {
    var u := Claim(t, leaseMs, worker, ids[k], t.clock, t.clock, t.clock);
    hide Claim, Told.Claimable, Told.Claimed, RunningIn;
    NextIsClaimable(s, t, queue, ids, k, t.clock);
    Told.ClaimClaims(leaseMs, t, worker, ids[k], t.clock, t.clock, t.clock);
    StillReady(s, t, queue, ids, k);
    hide Unobstructed, Filled;
    if |RunningIn(t, queue)| < s.policies[queue].maxRunning.value {
      ClaimAdds(leaseMs, t, u, worker, ids[k], t.clock, t.clock, queue);
    }
    FilledByOne(s, t, u, queue, ids, k);
  }

  lemma StillReady(s: State, t: State, queue: Queue, ids: seq<ExecId>, k: nat)
    requires k < |ids| && Unobstructed(s, queue, ids) && Filled(s, t, queue, ids, k)
    ensures ids[k] in t.executions && t.executions[ids[k]].status == Queued && t.executions[ids[k]].job.queue == queue
  {
    assert Ready(s, queue, ids[k]);
    NotBefore(s, queue, ids, k);
    hide RunningIn;
  }

  lemma NotBefore(s: State, queue: Queue, ids: seq<ExecId>, k: nat)
    requires Unobstructed(s, queue, ids) && k < |ids|
    ensures ids[k] !in ids[..k]
  {
  }

  lemma {:induction false} FillsUpTo(leaseMs: nat, s: State, worker: WorkerId, queue: Queue, ids: seq<ExecId>, k: nat)
    requires k <= |ids| && Unobstructed(s, queue, ids)
    requires |RunningIn(s, queue)| <= s.policies[queue].maxRunning.value
    ensures Filled(s, ClaimAll(leaseMs, s, worker, ids[..k]), queue, ids, k)
  {
    if k > 0 {
      FillsUpTo(leaseMs, s, worker, queue, ids, k - 1);
      assert ids[..k][..k - 1] == ids[..k - 1];
      hide Filled, Claim, Unobstructed;
      FillsNext(leaseMs, s, ClaimAll(leaseMs, s, worker, ids[..k - 1]), worker, queue, ids, k - 1);
    }
  }

  // The queue fills up to its cap, or takes all of them; an idle queue with enough of them runs exactly as many as its cap
  lemma QueueFills(leaseMs: nat, s: State, worker: WorkerId, queue: Queue, ids: seq<ExecId>)
    requires Unobstructed(s, queue, ids) && |RunningIn(s, queue)| <= s.policies[queue].maxRunning.value
    ensures var cap := s.policies[queue].maxRunning.value;
      var running := |RunningIn(ClaimAll(leaseMs, s, worker, ids), queue)|;
      && running == Least(cap, |RunningIn(s, queue)| + |ids|)
      && (RunningIn(s, queue) == {} && |ids| >= cap ==> running == cap)
  {
    FillsUpTo(leaseMs, s, worker, queue, ids, |ids|);
    assert ids[..|ids|] == ids;
    hide ClaimAll, RunningIn;
  }
}
