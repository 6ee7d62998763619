/**
 * The concurrency limiter (src/utils/ConcurrencyLimiter.ts): permits, a waiting list, hand-off on
 * release, and waiters that are aborted.
 */
module Limiter {
  // A call of run, and the abort signal it was given
  type Call = nat
  type SignalId = nat

  datatype Waiter = Waiter(call: Call, signal: SignalId)

  // released holds, for every release function handed out, whether it was called;
  // the last three fields are the history the promises are about
  datatype State = State(
    limit: nat,
    active: int,
    waiters: seq<Waiter>,
    released: map<Call, bool>,
    aborted: set<SignalId>,
    queued: seq<Call>,
    rejected: set<Call>,
    handed: seq<Call>)

  function Fresh(limit: nat): State {
    State(limit, 0, [], map[], {}, [], {}, [])
  }

  // The calls that hold a permit
  function Outstanding(s: State): set<Call> {
    set c | c in s.released && !s.released[c]
  }

  function Calls(waiters: seq<Waiter>): seq<Call> {
    seq(|waiters|, i requires 0 <= i < |waiters| => waiters[i].call)
  }

  function Surviving(queued: seq<Call>, rejected: set<Call>): seq<Call> {
    if queued == [] then []
    else
      var rest := Surviving(queued[..|queued| - 1], rejected);
      if queued[|queued| - 1] in rejected then rest else rest + [queued[|queued| - 1]]
  }

  // ----- What every event does -----

  // releaseOnce, called for a call that gets a permit
  function Grant(s: State, call: Call): State {
    s.(released := s.released[call := false])
  }

  // acquire
  function Acquire(s: State, call: Call, signal: SignalId): State {
    if signal in s.aborted then s
    else if s.active < s.limit then Grant(s.(active := s.active + 1), call)
    else s.(waiters := s.waiters + [Waiter(call, signal)], queued := s.queued + [call])
  }

  // The loop of a release: aborted waiters are passed over, the first live one takes the permit
  function HandOff(s: State): State
    decreases |s.waiters|
  {
    if s.waiters == [] then s.(active := s.active - 1)
    else
      var waiter, rest := s.waiters[0], s.(waiters := s.waiters[1..]);
      if waiter.signal in s.aborted then HandOff(rest.(rejected := s.rejected + {waiter.call}))
      else Grant(rest, waiter.call).(handed := s.handed + [waiter.call])
  }

  function Release(s: State, call: Call): State {
    if call !in s.released || s.released[call] then s else HandOff(s.(released := s.released[call := true]))
  }

  function Remove(waiters: seq<Waiter>, call: Call): seq<Waiter> {
    if waiters == [] then []
    else if waiters[0].call == call then waiters[1..]
    else [waiters[0]] + Remove(waiters[1..], call)
  }

  // onAbort, the listener of a waiter whose signal fired
  function OnAbort(s: State, call: Call): State {
    if exists i :: 0 <= i < |s.waiters| && s.waiters[i].call == call && s.waiters[i].signal in s.aborted
    then s.(waiters := Remove(s.waiters, call), rejected := s.rejected + {call})
    else s
  }

  datatype Event =
    | Run(call: Call, signal: SignalId)
    | Fire(signal: SignalId)       // the signal aborts; its listeners follow
    | Listener(call: Call)
    | Finish(call: Call)           // a release function is called, perhaps again

  predicate Known(s: State, call: Call) {
    call in s.released || call in s.queued
  }

  function Step(s: State, event: Event): State {
    match event
    case Run(call, signal) => if Known(s, call) then s else Acquire(s, call, signal)
    case Fire(signal) => s.(aborted := s.aborted + {signal})
    case Listener(call) => OnAbort(s, call)
    case Finish(call) => Release(s, call)
  }

  function After(limit: nat, events: seq<Event>): State {
    if events == [] then Fresh(limit) else Step(After(limit, events[..|events| - 1]), events[|events| - 1])
  }

  // ----- What every event keeps -----

  ghost predicate DistinctCalls(waiters: seq<Waiter>) {
    forall i, j :: 0 <= i < j < |waiters| ==> waiters[i].call != waiters[j].call
  }

  ghost predicate Apart(s: State) {
    && (forall i, j :: 0 <= i < j < |s.queued| ==> s.queued[i] != s.queued[j])
    && DistinctCalls(s.waiters)
    && (forall i :: 0 <= i < |s.waiters| ==>
      s.waiters[i].call in s.queued && s.waiters[i].call !in s.released && s.waiters[i].call !in s.rejected)
    && (forall c :: c in s.rejected ==> c in s.queued)
    && (forall c :: c in s.handed ==> c in s.released && c in s.queued)
  }

  // No permit is lost or made up, and waiting is only for want of one
  ghost predicate Accounted(s: State) {
    && |Outstanding(s)| == s.active <= s.limit
    && (s.waiters != [] ==> s.active == s.limit)
  }

  // First come, first served among the calls that were not rejected
  ghost predicate InOrder(s: State) {
    Surviving(s.queued, s.rejected) == s.handed + Calls(s.waiters)
  }

  ghost predicate Inv(s: State) {
    Apart(s) && Accounted(s) && InOrder(s)
  }

  lemma GrantAddsPermit(s: State, call: Call)
    requires call !in s.released
    ensures |Outstanding(Grant(s, call))| == |Outstanding(s)| + 1
  {
    assert Outstanding(Grant(s, call)) == Outstanding(s) + {call};
  }

  lemma ReturnDropsPermit(s: State, call: Call)
    requires call in s.released && !s.released[call]
    ensures |Outstanding(s.(released := s.released[call := true]))| == |Outstanding(s)| - 1
  {
    assert Outstanding(s.(released := s.released[call := true])) == Outstanding(s) - {call};
  }

  lemma {:induction false} SurvivingTwice(queued: seq<Call>, rejected: set<Call>, call: Call)
    ensures Surviving(queued, rejected + {call}) == Surviving(Surviving(queued, rejected), {call})
  {
    if queued != [] {
      SurvivingTwice(queued[..|queued| - 1], rejected, call);
    }
  }

  lemma {:induction false} SurvivingConcat(left: seq<Call>, right: seq<Call>, rejected: set<Call>)
    ensures Surviving(left + right, rejected) == Surviving(left, rejected) + Surviving(right, rejected)
  {
    if right == [] {
      assert left + right == left;
    } else {
      SurvivingConcat(left, right[..|right| - 1], rejected);
      assert (left + right)[..|left + right| - 1] == left + right[..|right| - 1];
    }
  }

  lemma {:induction false} SurvivingAll(calls: seq<Call>, call: Call)
    requires call !in calls
    ensures Surviving(calls, {call}) == calls
  {
    if calls != [] {
      SurvivingAll(calls[..|calls| - 1], call);
    }
  }

  // Taking one call out of the middle
  lemma SurvivingMiddle(left: seq<Call>, call: Call, right: seq<Call>)
    requires call !in left && call !in right
    ensures Surviving(left + [call] + right, {call}) == left + right
  {
    SurvivingConcat(left + [call], right, {call});
    SurvivingConcat(left, [call], {call});
    SurvivingAll(left, call);
    SurvivingAll(right, call);
    assert Surviving([call], {call}) == [];
  }

  lemma CallsConcat(left: seq<Waiter>, right: seq<Waiter>)
    ensures Calls(left + right) == Calls(left) + Calls(right)
  {
  }

  lemma CallsMember(waiters: seq<Waiter>, call: Call)
    ensures call in Calls(waiters) <==> exists i :: 0 <= i < |waiters| && waiters[i].call == call
  {
    if i :| 0 <= i < |waiters| && waiters[i].call == call {
      assert Calls(waiters)[i] == call;
    }
  }

  lemma {:induction false} RemoveIsFilter(waiters: seq<Waiter>, call: Call)
    requires DistinctCalls(waiters)
    ensures forall w :: w in Remove(waiters, call) <==> w in waiters && w.call != call
  {
    if waiters != [] {
      assert waiters == [waiters[0]] + waiters[1..];
      HeadDistinct(waiters);
      RemoveIsFilter(waiters[1..], call);
    }
  }

  lemma {:induction false} RemoveIsSurviving(waiters: seq<Waiter>, call: Call)
    requires DistinctCalls(waiters)
    ensures Calls(Remove(waiters, call)) == Surviving(Calls(waiters), {call})
  {
    if waiters == [] {
      assert Calls(waiters) == [];
    } else {
      var head, rest := [waiters[0]], waiters[1..];
      assert waiters == head + rest;
      assert Calls(head) == [waiters[0].call];
      assert Surviving(Calls(head), {call}) == if waiters[0].call == call then [] else Calls(head);
      RemoveIsSurviving(rest, call);
      CallsConcat(head, rest);
      CallsConcat(head, Remove(rest, call));
      CallsMember(rest, call);
      hide Calls, Surviving;
      SurvivingConcat(Calls(head), Calls(rest), {call});
      if waiters[0].call == call {
        SurvivingAll(Calls(rest), call);
      }
    }
  }

  lemma PrependDistinct(head: Waiter, rest: seq<Waiter>)
    requires DistinctCalls(rest) && forall w :: w in rest ==> w.call != head.call
    ensures DistinctCalls([head] + rest)
  {
    assert forall i :: 0 <= i < |rest| ==> rest[i] in rest;
  }

  lemma HeadDistinct(waiters: seq<Waiter>)
    requires DistinctCalls(waiters) && waiters != []
    ensures DistinctCalls(waiters[1..]) && forall w :: w in waiters[1..] ==> w.call != waiters[0].call
  {
  }

  lemma {:induction false} RemoveKeepsDistinct(waiters: seq<Waiter>, call: Call)
    requires DistinctCalls(waiters)
    ensures DistinctCalls(Remove(waiters, call))
  {
    if waiters != [] {
      HeadDistinct(waiters);
      RemoveKeepsDistinct(waiters[1..], call);
      RemoveIsFilter(waiters[1..], call);
      PrependDistinct(waiters[0], Remove(waiters[1..], call));
    }
  }

  lemma WaitersApart(s: State, left: seq<Waiter>, waiter: Waiter, right: seq<Waiter>)
    requires Apart(s) && s.waiters == left + [waiter] + right
    ensures waiter.call !in s.handed
    ensures forall i :: 0 <= i < |left| ==> left[i].call != waiter.call
    ensures forall i :: 0 <= i < |right| ==> right[i].call != waiter.call
  {
    assert s.waiters[|left|] == waiter;
    assert forall i :: 0 <= i < |left| ==> s.waiters[i] == left[i];
    assert forall i :: 0 <= i < |right| ==> s.waiters[|left| + 1 + i] == right[i];
  }

  // A waiter leaves the list for good
  lemma RejectedKeepsOrder(s: State, left: seq<Waiter>, waiter: Waiter, right: seq<Waiter>)
    requires Apart(s) && InOrder(s) && s.waiters == left + [waiter] + right
    ensures Surviving(s.queued, s.rejected + {waiter.call}) == s.handed + Calls(left + right)
  {
    WaitersApart(s, left, waiter, right);
    assert Calls([waiter]) == [waiter.call];
    hide Apart, Surviving, Calls;
    SurvivingTwice(s.queued, s.rejected, waiter.call);
    CallsMember(left, waiter.call);
    CallsMember(right, waiter.call);
    CallsConcat(left + [waiter], right);
    CallsConcat(left, [waiter]);
    CallsConcat(left, right);
    assert s.handed + Calls(s.waiters) == (s.handed + Calls(left)) + [waiter.call] + Calls(right);
    SurvivingMiddle(s.handed + Calls(left), waiter.call, Calls(right));
  }

  // Between taking a permit back and handing it on
  ghost predicate Owing(s: State) {
    && Apart(s) && InOrder(s)
    && |Outstanding(s)| == s.active - 1 && s.active <= s.limit
    && (s.waiters != [] ==> s.active == s.limit)
  }

  function PassOver(s: State): State
    requires s.waiters != []
  {
    s.(waiters := s.waiters[1..], rejected := s.rejected + {s.waiters[0].call})
  }

  lemma PassOverApart(s: State)
    requires Apart(s) && s.waiters != []
    ensures Apart(PassOver(s))
  {
    var rest := s.waiters[1..];
    assert forall i :: 0 <= i < |rest| ==> rest[i] == s.waiters[i + 1];
  }

  lemma PassOverKeeps(s: State)
    requires Owing(s) && s.waiters != []
    ensures Owing(PassOver(s))
  {
    var rest := s.waiters[1..];
    assert Outstanding(PassOver(s)) == Outstanding(s);
    PassOverApart(s);
    hide Surviving, Outstanding, Calls, Apart;
    assert s.waiters == [] + [s.waiters[0]] + rest;
    assert [] + rest == rest;
    RejectedKeepsOrder(s, [], s.waiters[0], rest);
  }

  function HandTo(s: State): State
    requires s.waiters != []
  {
    Grant(s.(waiters := s.waiters[1..]), s.waiters[0].call).(handed := s.handed + [s.waiters[0].call])
  }

  lemma HandToKeeps(s: State)
    requires Owing(s) && s.waiters != []
    ensures Inv(HandTo(s))
  {
    var waiter, rest := s.waiters[0], s.waiters[1..];
    var less := s.(waiters := rest);
    assert waiter.call !in s.released;
    GrantAddsPermit(less, waiter.call);
    assert Outstanding(less) == Outstanding(s);
    assert Outstanding(HandTo(s)) == Outstanding(Grant(less, waiter.call));
    assert s.handed + Calls(s.waiters) == (s.handed + [waiter.call]) + Calls(rest);
    hide Surviving, Outstanding, Calls;
    assert forall i :: 0 <= i < |rest| ==> rest[i] == s.waiters[i + 1];
    assert Apart(HandTo(s));
  }

  // Handing a returned permit on
  lemma {:induction false} HandOffKeeps(s: State)
    requires Owing(s)
    ensures Inv(HandOff(s))
    decreases |s.waiters|
  {
    if s.waiters == [] {
      assert Outstanding(HandOff(s)) == Outstanding(s);
    } else if s.waiters[0].signal in s.aborted {
      PassOverKeeps(s);
      hide Owing, Inv;
      HandOffKeeps(PassOver(s));
    } else {
      HandToKeeps(s);
    }
  }

  lemma AcquireKeeps(s: State, call: Call, signal: SignalId)
    requires Inv(s) && !Known(s, call)
    ensures Inv(Acquire(s, call, signal))
  {
    if signal !in s.aborted {
      if s.active < s.limit {
        GrantAddsPermit(s.(active := s.active + 1), call);
        assert Outstanding(s.(active := s.active + 1)) == Outstanding(s);
      } else {
        var next := Acquire(s, call, signal);
        assert Outstanding(next) == Outstanding(s);
        assert next.queued[..|next.queued| - 1] == s.queued;
        assert Calls(next.waiters) == Calls(s.waiters) + [call];
      }
    }
  }

  lemma OnAbortApart(s: State, call: Call)
    requires Apart(s)
    ensures Apart(OnAbort(s, call))
  {
    hide Remove;
    RemoveKeepsDistinct(s.waiters, call);
    RemoveIsFilter(s.waiters, call);
    hide Surviving, Calls;
    var next := OnAbort(s, call);
    forall k | 0 <= k < |next.waiters|
      ensures next.waiters[k].call in s.queued && next.waiters[k].call !in s.released
      ensures next.waiters[k].call !in next.rejected
    {
      assert next.waiters[k] in next.waiters;
      var j :| 0 <= j < |s.waiters| && s.waiters[j] == next.waiters[k];
    }
  }

  lemma OnAbortInOrder(s: State, call: Call)
    requires Apart(s) && InOrder(s)
    ensures InOrder(OnAbort(s, call))
  {
    hide Remove;
    if i :| 0 <= i < |s.waiters| && s.waiters[i].call == call && s.waiters[i].signal in s.aborted {
      assert call !in s.handed;
      RemoveIsSurviving(s.waiters, call);
      SurvivingTwice(s.queued, s.rejected, call);
      SurvivingConcat(s.handed, Calls(s.waiters), {call});
      SurvivingAll(s.handed, call);
      hide Apart, Surviving, Calls;
    }
  }

  lemma OnAbortKeeps(s: State, call: Call)
    requires Inv(s)
    ensures Inv(OnAbort(s, call))
  {
    assert Outstanding(OnAbort(s, call)) == Outstanding(s);
    OnAbortApart(s, call);
    OnAbortInOrder(s, call);
    hide Apart, InOrder, Outstanding;
    RemoveFits(s.waiters, call);
  }

  lemma {:induction false} RemoveFits(waiters: seq<Waiter>, call: Call)
    ensures |Remove(waiters, call)| <= |waiters|
  {
    if waiters != [] {
      RemoveFits(waiters[1..], call);
    }
  }

  lemma ReleaseKeeps(s: State, call: Call)
    requires Inv(s)
    ensures Inv(Release(s, call))
  {
    if call in s.released && !s.released[call] {
      ReturnDropsPermit(s, call);
      HandOffKeeps(s.(released := s.released[call := true]));
    }
  }

  // Every reachable state of the limiter, whatever the interleaving of runs, aborts and releases
  lemma {:induction false} AlwaysInv(limit: nat, events: seq<Event>)
    ensures Inv(After(limit, events)) && After(limit, events).limit == limit
  {
    if events == [] {
      assert Outstanding(Fresh(limit)) == {};
    } else {
      var s, event := After(limit, events[..|events| - 1]), events[|events| - 1];
      AlwaysInv(limit, events[..|events| - 1]);
      LimitKept(s, event);
      match event
      case Run(call, signal) =>
        if !Known(s, call) {
          AcquireKeeps(s, call, signal);
        }
      case Fire(signal) => assert Outstanding(Step(s, event)) == Outstanding(s);
      case Listener(call) => OnAbortKeeps(s, call);
      case Finish(call) => ReleaseKeeps(s, call);
    }
  }

  lemma {:induction false} HandOffLimit(s: State)
    ensures HandOff(s).limit == s.limit
    decreases |s.waiters|
  {
    if s.waiters != [] && s.waiters[0].signal in s.aborted {
      HandOffLimit(s.(waiters := s.waiters[1..], rejected := s.rejected + {s.waiters[0].call}));
    }
  }

  lemma LimitKept(s: State, event: Event)
    ensures Step(s, event).limit == s.limit
  {
    if event.Finish? && event.call in s.released && !s.released[event.call] {
      HandOffLimit(s.(released := s.released[event.call := true]));
    }
  }

  // A rejected call never had a permit
  ghost predicate RejectedUnserved(s: State) {
    forall c :: c in s.rejected ==> c !in s.released
  }

  lemma {:induction false} HandOffUnserved(s: State)
    requires Apart(s) && RejectedUnserved(s)
    ensures RejectedUnserved(HandOff(s))
    decreases |s.waiters|
  {
    if s.waiters != [] {
      assert forall i :: 0 <= i < |s.waiters| - 1 ==> s.waiters[1..][i] == s.waiters[i + 1];
      if s.waiters[0].signal in s.aborted {
        HandOffUnserved(PassOver(s));
      }
    }
  }

  lemma {:induction false} AlwaysRejectedUnserved(limit: nat, events: seq<Event>)
    ensures RejectedUnserved(After(limit, events))
  {
    if events != [] {
      var s, event := After(limit, events[..|events| - 1]), events[|events| - 1];
      AlwaysRejectedUnserved(limit, events[..|events| - 1]);
      AlwaysInv(limit, events[..|events| - 1]);
      hide Accounted, InOrder;
      if event.Finish? && event.call in s.released && !s.released[event.call] {
        HandOffUnserved(s.(released := s.released[event.call := true]));
      }
    }
  }

  // Calling a release function again changes nothing, whatever happened in between
  lemma {:induction false} ReleasedForGood(limit: nat, events: seq<Event>, more: seq<Event>, call: Call)
    requires call in After(limit, events).released && After(limit, events).released[call]
    ensures After(limit, events + more + [Finish(call)]) == After(limit, events + more)
  {
    ReleasedStays(limit, events, more, call);
    assert (events + more + [Finish(call)])[..|events + more|] == events + more;
  }

  lemma {:induction false} ReleasedStays(limit: nat, events: seq<Event>, more: seq<Event>, call: Call)
    requires call in After(limit, events).released && After(limit, events).released[call]
    ensures call in After(limit, events + more).released && After(limit, events + more).released[call]
    decreases |more|
  {
    if more == [] {
      assert events + more == events;
    } else {
      var less := more[..|more| - 1];
      ReleasedStays(limit, events, less, call);
      assert (events + more)[..|events + more| - 1] == events + less;
      AlwaysInv(limit, events + less);
      StepKeepsReleased(After(limit, events + less), more[|more| - 1], call);
    }
  }

  lemma StepKeepsReleased(s: State, event: Event, call: Call)
    requires Inv(s) && call in s.released && s.released[call]
    ensures call in Step(s, event).released && Step(s, event).released[call]
  {
    if event.Finish? && event.call in s.released && !s.released[event.call] {
      HandOffKeepsReleased(s.(released := s.released[event.call := true]), call);
    }
  }

  lemma {:induction false} HandOffKeepsReleased(s: State, call: Call)
    requires Apart(s) && call in s.released && s.released[call]
    ensures call in HandOff(s).released && HandOff(s).released[call]
    decreases |s.waiters|
  {
    if s.waiters != [] && s.waiters[0].signal in s.aborted {
      var rest := s.waiters[1..];
      assert forall i :: 0 <= i < |rest| ==> rest[i] == s.waiters[i + 1];
      HandOffKeepsReleased(s.(waiters := rest, rejected := s.rejected + {s.waiters[0].call}), call);
    }
  }

  // A release wakes the oldest live waiter and nobody else
  lemma {:induction false} ReleaseWakesOldestLive(s: State, i: nat)
    requires i < |s.waiters| && s.waiters[i].signal !in s.aborted
    requires forall j :: 0 <= j < i ==> s.waiters[j].signal in s.aborted
    ensures HandOff(s).handed == s.handed + [s.waiters[i].call]
    ensures HandOff(s).waiters == s.waiters[i + 1..] && HandOff(s).active == s.active
    decreases i
  {
    if i > 0 {
      var next := s.(waiters := s.waiters[1..], rejected := s.rejected + {s.waiters[0].call});
      ReleaseWakesOldestLive(next, i - 1);
    }
  }

  // ----- The class -----

  class ConcurrencyLimiter {
    const limit: nat
    var active: int
    var waiters: seq<Waiter>
    var released: map<Call, bool>
    var aborted: set<SignalId>
    ghost var queued: seq<Call>
    ghost var rejected: set<Call>
    ghost var handed: seq<Call>

    ghost function View(): State
      reads this
    {
      State(limit, active, waiters, released, aborted, queued, rejected, handed)
    }

    // Anything below one throws
    constructor (limit: nat)
      requires limit >= 1
      ensures View() == Fresh(limit)
    {
      this.limit, active, waiters, released, aborted := limit, 0, [], map[], {};
      queued, rejected, handed := [], {}, [];
    }

    // The signals are shared with the callers: one of them aborts
    method Fires(signal: SignalId)
      modifies this
      ensures View() == Step(old(View()), Fire(signal))
    {
      aborted := aborted + {signal};
    }

    method Acquire(call: Call, signal: SignalId) returns (granted: bool)
      requires !Known(View(), call)
      modifies this
      ensures View() == Step(old(View()), Run(call, signal))
      ensures granted <==> call in released && !released[call]
      // An aborted call is refused, one below the limit gets a permit, and any other one waits behind those that wait
      ensures granted <==> signal !in old(aborted) && old(active) < limit
      ensures active == old(active) + if granted then 1 else 0
      ensures waiters == old(waiters) + if signal in old(aborted) || granted then [] else [Waiter(call, signal)]
    {
      if signal in aborted {
        return false;
      }
      if active < limit {
        active := active + 1;
        released := released[call := false];
        return true;
      }
      waiters := waiters + [Waiter(call, signal)];
      queued := queued + [call];
      return false;
    }

    // A waiter that has left the list already is left alone
    method ListenerCalled(waiter: Waiter)
      requires waiter.signal in aborted && Inv(View())
      requires forall w :: w in waiters && w.call == waiter.call ==> w == waiter
      modifies this
      ensures View() == Step(old(View()), Listener(waiter.call))
      ensures waiter !in waiters
    {
      var index := 0;
      while index < |waiters| && waiters[index].call != waiter.call
        invariant index <= |waiters| && unchanged(this)
        invariant forall j :: 0 <= j < index ==> waiters[j].call != waiter.call
      {
        index := index + 1;
      }
      if index < |waiters| {
        RemoveAt(waiters, waiter.call, index);
        RemoveIsFilter(waiters, waiter.call);
        assert waiters[index] in waiters;
        waiters := waiters[..index] + waiters[index + 1..];
        rejected := rejected + {waiter.call};
      }
    }

    method Release(call: Call)
      requires call in released
      modifies this
      ensures View() == Step(old(View()), Finish(call))
    {
      if released[call] {
        return;
      }
      released := released[call := true];
      label start:
      while |waiters| > 0
        invariant HandOff(View()) == HandOff(old@start(View()))
        decreases |waiters|
      {
        var waiter := waiters[0];
        waiters := waiters[1..];
        if waiter.signal in aborted {
          rejected := rejected + {waiter.call};
          continue;
        }
        released := released[waiter.call := false];
        handed := handed + [waiter.call];
        return;
      }
      active := active - 1;
    }
  }

  lemma {:induction false} RemoveAt(waiters: seq<Waiter>, call: Call, index: nat)
    requires index < |waiters| && waiters[index].call == call
    requires forall j :: 0 <= j < index ==> waiters[j].call != call
    ensures Remove(waiters, call) == waiters[..index] + waiters[index + 1..]
  {
    if index > 0 {
      RemoveAt(waiters[1..], call, index - 1);
    }
  }
}
