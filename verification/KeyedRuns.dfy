/**
 * Manual runs with an Idempotency-Key (enqueueManual in src/repositories/ExecutionRepository.ts).
 */
module KeyedRuns {
  import opened Wrappers
  import opened Idempotency
  import opened JsonValues
  import E = Executions
  import Laws = ExecutionLaws
  import Repo = ExecutionRepository
  import Told = Transactions

  // SHA-256, taken as an injective function
  type Hash = string -> string

  ghost predicate Injective(hash: Hash) {
    forall a, b :: hash(a) == hash(b) ==> a == b
  }

  // A row of execution_idempotency
  datatype RowKey = RowKey(actor: string, job: E.JobId, key: string)

  datatype Row = Row(request: string, execution: E.ExecId)

  datatype State = State(store: E.State, keyed: map<RowKey, Row>)

  // resolved is None when the job is gone or refuses the input; newId is the UUID drawn for a new execution
  datatype Call = Call(
    actor: string, job: E.JobId, key: string, input: Option<Json>, newId: E.ExecId, resolved: Option<E.Request>)

  datatype RunError = KeyReused | Refused

  // { inputProvided, input }
  function RequestJson(input: Option<Json>): Json {
    JsonObject([Field("inputProvided", Some(JsonBool(input.Some?))), Field("input", input)])
  }

  function KeyOf(hash: Hash, call: Call): RowKey {
    RowKey(hash(call.actor), call.job, hash(call.key))
  }

  function RequestHash(hash: Hash, leq: Order, call: Call): string {
    hash(StableJson(leq, RequestJson(call.input)))
  }

  ghost function EnqueueManual(hash: Hash, leq: Order, s: State, call: Call): Result<(State, E.ExecId), RunError> {
    var key := KeyOf(hash, call);
    if key in s.keyed then
      if s.keyed[key].request != RequestHash(hash, leq, call) then Err(KeyReused) else Ok((s, s.keyed[key].execution))
    else if call.resolved.None? then Err(Refused)
    else
      Ok((State(
        E.Enqueue(s.store, call.newId, call.resolved.value),
        s.keyed[key := Row(RequestHash(hash, leq, call), call.newId)]), call.newId))
  }

  // Keyed calls among anything else that happens to the store
  datatype Act = Keyed(call: Call) | Elsewhere(event: E.Event)

  ghost function Next(hash: Hash, leq: Order, leaseMs: nat, s: State, act: Act): State {
    match act
    case Keyed(call) =>
      var r := EnqueueManual(hash, leq, s, call);
      if r.Ok? then r.value.0 else s
    case Elsewhere(event) => s.(store := E.Step(leaseMs, s.store, event))
  }

  ghost function After(hash: Hash, leq: Order, leaseMs: nat, s: State, acts: seq<Act>): State {
    if acts == [] then s else Next(hash, leq, leaseMs, After(hash, leq, leaseMs, s, acts[..|acts| - 1]), acts[|acts| - 1])
  }

  // A key keeps its row, and its execution stays in the store
  lemma {:induction false} KeyPersists(hash: Hash, leq: Order, leaseMs: nat, s: State, acts: seq<Act>, key: RowKey)
    requires key in s.keyed && s.keyed[key].execution in s.store.executions
    ensures var t := After(hash, leq, leaseMs, s, acts);
      key in t.keyed && t.keyed[key] == s.keyed[key] && s.keyed[key].execution in t.store.executions
  {
    hide E.Step, E.Enqueue;
    if acts != [] {
      KeyPersists(hash, leq, leaseMs, s, acts[..|acts| - 1], key);
      var t, act := After(hash, leq, leaseMs, s, acts[..|acts| - 1]), acts[|acts| - 1];
      match act
      case Keyed(call) =>
        if call.resolved.Some? {
          Laws.EnqueueQuiet(t.store, call.newId, call.resolved.value);
        }
      case Elsewhere(event) => Laws.StepEvolves(leaseMs, t.store, event);
    }
  }

  lemma SameRequests(a: Option<Json>, b: Option<Json>)
    ensures Same(RequestJson(a), RequestJson(b)) <==> a.Some? == b.Some? && (a.Some? ==> Same(a.value, b.value))
  {
    var v, w := RequestJson(a), RequestJson(b);
    assert v.fields[0].key == w.fields[0].key == "inputProvided";
    assert v.fields[1].key == w.fields[1].key == "input";
    if a.Some? == b.Some? && (a.Some? ==> Same(a.value, b.value)) {
      assert |"inputProvided"| != |"input"|;
      forall key ensures HasKey(v.fields, key) <==> HasKey(w.fields, key) {
        SameShape(v.fields, w.fields, key);
      }
      assert Same(v.fields[0].value.value, w.fields[0].value.value);
    }
    if Same(v, w) {
      assert Same(v.fields[0].value.value, w.fields[0].value.value);
    }
  }

  lemma SameShape(p: seq<Field>, q: seq<Field>, key: string)
    requires |p| == |q| && forall i :: 0 <= i < |p| ==> p[i].key == q[i].key && (p[i].value.Some? <==> q[i].value.Some?)
    ensures HasKey(p, key) <==> HasKey(q, key)
  {
    if i :| 0 <= i < |p| && p[i].key == key && p[i].value.Some? {
      assert q[i].key == key && q[i].value.Some?;
    }
    if i :| 0 <= i < |q| && q[i].key == key && q[i].value.Some? {
      assert p[i].key == key && p[i].value.Some?;
    }
  }

  lemma RequestNormal(input: Option<Json>)
    requires input.Some? ==> Normal(input.value)
    ensures Normal(RequestJson(input))
  {
    assert |"inputProvided"| != |"input"|;
  }

  // However often, whenever and in whatever key order a request is repeated under its key, it ran once;
  // another request under the same key is refused
  lemma KeyedOnce(
    hash: Hash, leq: Order, leaseMs: nat, s: State, first: Call, acts: seq<Act>, again: Call)
    requires Injective(hash) && TotalOrder(leq)
    requires first.input.Some? ==> Normal(first.input.value)
    requires again.input.Some? ==> Normal(again.input.value)
    requires KeyOf(hash, first) !in s.keyed && first.resolved.Some? && E.Admissible(s.store, first.newId, first.resolved.value)
    requires again.actor == first.actor && again.job == first.job && again.key == first.key
    ensures EnqueueManual(hash, leq, s, first).Ok?
    ensures var t := After(hash, leq, leaseMs, EnqueueManual(hash, leq, s, first).value.0, acts);
      && first.newId in t.store.executions
      && EnqueueManual(hash, leq, t, again) ==
        if first.input.Some? == again.input.Some? && (first.input.Some? ==> Same(first.input.value, again.input.value))
        then Ok((t, first.newId)) else Err(KeyReused)
  {
    var u := EnqueueManual(hash, leq, s, first).value.0;
    FirstRuns(s.store, first.newId, first.resolved.value);
    hide E.Enqueue, E.Admissible;
    KeyPersists(hash, leq, leaseMs, u, acts, KeyOf(hash, first));
    RequestNormal(first.input);
    RequestNormal(again.input);
    SameRequests(first.input, again.input);
    StableJsonIsCanonical(leq, RequestJson(first.input), RequestJson(again.input));
    hide StableJson, Same, Normal, RequestJson, After;
  }

  // A call that differs in its actor, its job or its key has nothing to do with that
  lemma KeyedApart(hash: Hash, leq: Order, s: State, first: Call, other: Call)
    requires Injective(hash) && EnqueueManual(hash, leq, s, first).Ok?
    requires other.actor != first.actor || other.job != first.job || other.key != first.key
    requires KeyOf(hash, other) !in s.keyed && other.resolved.Some?
    ensures var t := EnqueueManual(hash, leq, s, first).value.0;
      EnqueueManual(hash, leq, t, other).Ok? && EnqueueManual(hash, leq, t, other).value.1 == other.newId
  {
    assert KeyOf(hash, other) != KeyOf(hash, first);
    hide E.Enqueue, StableJson;
  }

  lemma FirstRuns(s: E.State, id: E.ExecId, request: E.Request)
    requires E.Admissible(s, id, request)
    ensures id in E.Enqueue(s, id, request).executions
  {
    hide E.Overlapped, E.Inserted, E.Admissible;
    Laws.AdmissibleIsFresh(s, id, request);
    Laws.OverlappedQuiet(s, request.job, request.key, request.kind);
    Laws.OverlappedStatus(s, request.job, request.key, request.kind);
    var (t, status) := E.Overlapped(s, request.job, request.key, request.kind);
    Laws.InsertedQuiet(t, id, request, status);
  }

  class KeyedRepository {
    const repository: Repo.Repository
    var keyed: map<RowKey, Row>

    constructor (repository: Repo.Repository)
      ensures this.repository == repository && keyed == map[]
    {
      this.repository, keyed := repository, map[];
    }

    ghost function View(): State
      reads this, repository
    {
      State(repository.View(), keyed)
    }

    method EnqueueManualRun(hash: Hash, leq: Order, call: Call) returns (r: Result<E.ExecId, RunError>)
      requires call.resolved.Some? ==> E.Admissible(repository.View(), call.newId, call.resolved.value)
      modifies this`keyed, repository
      ensures match EnqueueManual(hash, leq, old(View()), call)
        case Ok(after) => View() == after.0 && r == Ok(after.1)
        case Err(e) => View() == old(View()) && r == Err(e)
      ensures r == Ok(call.newId) && KeyOf(hash, call) !in old(keyed) ==>
        call.resolved.Some? && Told.Opened(old(repository.View()), repository.View(), call.newId, call.resolved.value)
    {
      hide E.Enqueue, E.Admissible, StableJson, Told.Opened;
      var key := KeyOf(hash, call);
      var requestHash := RequestHash(hash, leq, call);
      if key in keyed {
        if keyed[key].request != requestHash {
          return Err(KeyReused);
        }
        return Ok(keyed[key].execution);
      }
      if call.resolved.None? {
        return Err(Refused);
      }
      repository.EnqueueExecution(call.newId, call.resolved.value);
      keyed := keyed[key := Row(requestHash, call.newId)];
      return Ok(call.newId);
    }
  }
}
