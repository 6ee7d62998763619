/**
 * The paths of WHEN and FOREACH (src/utils/workflowExpressions.ts): how they are parsed, and what they
 * lead to in the context of a run.
 */
module Expressions {
  import opened Wrappers
  import opened Graph
  import opened Jobs
  import opened JsonValues
  import opened Validator
  import opened RunSpec

  // ----- parsePath -----

  // What String.prototype.trim removes
  predicate IsSpace(c: char) {
    var n := c as int;
    9 <= n <= 13 || n in {32, 160, 5760, 8232, 8233, 8239, 8287, 12288, 65279} || 8192 <= n <= 8202
  }

  function TrimStart(s: string): string {
    if s != [] && IsSpace(s[0]) then TrimStart(s[1..]) else s
  }

  function TrimEnd(s: string): string {
    if s != [] && IsSpace(s[|s| - 1]) then TrimEnd(s[..|s| - 1]) else s
  }

  function Trim(s: string): string {
    TrimEnd(TrimStart(s))
  }

  function Split(s: string): (parts: seq<string>)
    ensures parts != []
  {
    if s == [] then [[]]
    else
      var rest := Split(s[1..]);
      if s[0] == '.' then [[]] + rest else [[s[0]] + rest[0]] + rest[1..]
  }

  function TrimAll(parts: seq<string>): seq<string> {
    seq(|parts|, i requires 0 <= i < |parts| => Trim(parts[i]))
  }

  // None where parsePath throws
  function ParsePath(path: string): Option<Path> {
    var segments := TrimAll(Split(path));
    if IsValidPath(segments) then Some(segments) else None
  }

  function Dotted(path: Path): string {
    if path == [] then [] else if |path| == 1 then path[0] else path[0] + "." + Dotted(path[1..])
  }

  // A segment that can be written down: not empty, no dot, nothing to trim, not forbidden
  predicate Plain(segment: string) {
    segment != "" && '.' !in segment && Trim(segment) == segment && segment !in FORBIDDEN_PATH_SEGMENTS
  }

  lemma {:induction false} SplitPlain(segment: string, rest: string)
    requires '.' !in segment
    ensures Split(segment + ['.'] + rest) == [segment] + Split(rest)
  {
    var text := segment + ['.'] + rest;
    if segment == [] {
      assert text[1..] == rest;
    } else {
      assert text[0] == segment[0] && text[1..] == segment[1..] + ['.'] + rest;
      SplitPlain(segment[1..], rest);
      assert [segment[0]] + segment[1..] == segment;
    }
  }

  lemma {:induction false} SplitOne(segment: string)
    requires '.' !in segment
    ensures Split(segment) == [segment]
  {
    if segment != [] {
      SplitOne(segment[1..]);
      assert [segment[0]] + segment[1..] == segment;
    }
  }

  lemma {:induction false} SplitDotted(path: Path)
    requires path != [] && forall i :: 0 <= i < |path| ==> '.' !in path[i]
    ensures Split(Dotted(path)) == path
  {
    if |path| == 1 {
      SplitOne(path[0]);
    } else {
      SplitDotted(path[1..]);
      SplitPlain(path[0], Dotted(path[1..]));
      assert path == [path[0]] + path[1..];
    }
  }

  // Written with dots, a path reads back as itself
  lemma ParseDotted(path: Path)
    requires path != [] && forall i :: 0 <= i < |path| ==> Plain(path[i])
    ensures ParsePath(Dotted(path)) == Some(path)
  {
    hide Trim, Split;
    SplitDotted(path);
    assert TrimAll(path) == path;
  }

  // ----- tryResolveWorkflowPath -----

  function Digit(n: nat): char
    requires n < 10
  {
    "0123456789"[n]
  }

  function Decimal(n: nat): string {
    if n < 10 then [Digit(n)] else Decimal(n / 10) + [Digit(n % 10)]
  }

  function FieldAt(fields: seq<Field>, key: string): Option<Json> {
    if fields == [] then None
    else if fields[0].key == key then fields[0].value
    else FieldAt(fields[1..], key)
  }

  function ItemAt(items: seq<Json>, index: nat, key: string): Option<Json> {
    if items == [] then None
    else if Decimal(index) == key then Some(items[0])
    else ItemAt(items[1..], index + 1, key)
  }

  // An own property: a field, an array element, or an array's length
  function Own(value: Json, segment: string): Option<Json> {
    match value
    case JsonObject(fields) => FieldAt(fields, segment)
    case JsonArray(items) => if segment == "length" then Some(JsonNumber(Decimal(|items|))) else ItemAt(items, 0, segment)
    case _ => None
  }

  // The number a decimal numeral stands for
  function Number(digits: string): int {
    if digits == [] then 0 else 10 * Number(digits[..|digits| - 1]) + (digits[|digits| - 1] as int - '0' as int)
  }

  lemma {:induction false} DecimalReads(n: nat)
    ensures Number(Decimal(n)) == n && Decimal(n) != []
    ensures forall i :: 0 <= i < |Decimal(n)| ==> '0' <= Decimal(n)[i] <= '9'
    ensures n > 0 ==> Decimal(n)[0] != '0'
    ensures n == 0 ==> Decimal(n) == "0"
  {
    if n < 10 {
      assert Decimal(n)[..0] == [];
    } else {
      DecimalReads(n / 10);
      assert Decimal(n)[..|Decimal(n)| - 1] == Decimal(n / 10);
    }
  }

  lemma {:induction false} ItemFound(items: seq<Json>, index: nat, key: string)
    ensures forall n :: index <= n < index + |items| && Decimal(n) == key ==> ItemAt(items, index, key) == Some(items[n - index])
    ensures ItemAt(items, index, key).Some? ==> exists n :: index <= n < index + |items| && Decimal(n) == key
    decreases |items|
  {
    if items != [] {
      ItemFound(items[1..], index + 1, key);
      DecimalReads(index);
      forall n | index <= n < index + |items| && Decimal(n) == key ensures ItemAt(items, index, key) == Some(items[n - index]) {
        DecimalReads(n);
        if n > index {
          assert items[1..][n - index - 1] == items[n - index];
        }
      }
    }
  }

  // What hasOwnProperty finds: the value of the first field with the name, an element under its decimal index, the
  // length of an array, and nothing in any other value
  ghost predicate IsOwn(value: Json, segment: string, r: Option<Json>) {
    match value
    case JsonObject(fields) =>
      if exists i :: 0 <= i < |fields| && fields[i].key == segment
      then exists i :: IsFirstField(fields, segment, i) && r == fields[i].value
      else r == None
    case JsonArray(items) =>
      && (segment == "length" ==> r.Some? && r.value.JsonNumber? && Number(r.value.text) == |items|)
      && (segment != "length" ==> forall i :: 0 <= i < |items| && Decimal(i) == segment ==> r == Some(items[i]))
      && (segment != "length" && r.Some? ==> exists i :: 0 <= i < |items| && Decimal(i) == segment)
    case _ => r == None
  }

  ghost predicate IsFirstField(fields: seq<Field>, key: string, i: int) {
    0 <= i < |fields| && fields[i].key == key && forall j :: 0 <= j < i ==> fields[j].key != key
  }

  lemma {:induction false} FirstField(fields: seq<Field>, key: string)
    ensures IsOwn(JsonObject(fields), key, FieldAt(fields, key))
    decreases |fields|
  {
    if fields != [] {
      var rest := fields[1..];
      FirstField(rest, key);
      assert forall i :: 0 <= i < |rest| ==> rest[i] == fields[i + 1];
      if fields[0].key != key {
        if i :| 0 <= i < |fields| && fields[i].key == key {
          assert rest[i - 1].key == key;
          var k :| IsFirstField(rest, key, k) && FieldAt(rest, key) == rest[k].value;
          assert IsFirstField(fields, key, k + 1);
        }
      } else {
        assert IsFirstField(fields, key, 0);
      }
    }
  }

  lemma OwnIsOwn(value: Json, segment: string)
    ensures IsOwn(value, segment, Own(value, segment))
  {
    match value
    case JsonObject(fields) => FirstField(fields, segment);
    case JsonArray(items) =>
      DecimalReads(|items|);
      ItemFound(items, 0, segment);
    case _ =>
  }

  function Descend(value: Json, path: Path): Option<Json>
    decreases |path|
  {
    if path == [] then Some(value)
    else
      match Own(value, path[0])
      case None => None
      case Some(next) => Descend(next, path[1..])
  }

  // The input and the outputs of the step's dependencies are the fields of the context
  function Resolve(context: Context, path: Path): Option<Json>
    requires path != []
  {
    if path[0] in context then Descend(context[path[0]], path[1..]) else None
  }

  method TryResolveWorkflowPath(path: Path, context: Context) returns (r: Option<Json>)
    requires path != []
    ensures r == Resolve(context, path)
  {
    if path[0] !in context {
      return None;
    }
    var value := context[path[0]];
    for i := 1 to |path|
      invariant Resolve(context, path) == Descend(value, path[i..])
    {
      assert path[i..][1..] == path[i + 1..];
      var next := Own(value, path[i]);
      if next.None? {
        return None;
      }
      value := next.value;
    }
    return Some(value);
  }

  // A path resolves in stages, at any of its dots
  lemma {:induction false} DescendInStages(value: Json, first: Path, second: Path)
    ensures Descend(value, first + second) ==
      match Descend(value, first)
      case None => None
      case Some(next) => Descend(next, second)
    decreases |first|
  {
    if first == [] {
      assert first + second == second;
    } else {
      assert (first + second)[0] == first[0] && (first + second)[1..] == first[1..] + second;
      if Own(value, first[0]).Some? {
        DescendInStages(Own(value, first[0]).value, first[1..], second);
      }
    }
  }

  // ----- In a run -----

  // What a started step's expressions see: the input and the outputs of its dependencies
  function Scope(input: Json, step: Step, logs: Logs): Context {
    Inputs(step, logs)["input" := input]
  }

  // In a run of an accepted job no WHEN or FOREACH path fails at its root: if it does not resolve,
  // some value along the way lacks the next segment
  lemma PathsFailOnlyBelowTheRoot(job: Job, i: nat, k: nat, input: Json, logs: Logs)
    requires WellFormed(job) && i < |job.steps| && AllSatisfied(job.steps[i], logs)
    requires k < |References(job.steps[i])|
    ensures var path := References(job.steps[i])[k];
      && path != [] && path[0] in Scope(input, job.steps[i], logs)
      && (Resolve(Scope(input, job.steps[i], logs), path).None? ==>
        exists n :: StopsAt(Scope(input, job.steps[i], logs)[path[0]], path[1..], n))
  {
    var step := job.steps[i];
    assert GoodReferences(step);
    var path := References(step)[k];
    assert GoodReference(step, path);
    hide WellFormed, References, IsValidPath, Own;
    assert path != [] by { ValidPathNotEmpty(path); }
    if path[0] != "input" {
      var j :| 0 <= j < |step.dependsOn| && step.dependsOn[j] == path[0];
    }
    var context := Scope(input, step, logs);
    assert path[0] in context;
    if Resolve(context, path).None? {
      var n := FailingSegment(context[path[0]], path[1..]);
    }
  }

  lemma ValidPathNotEmpty(path: Path)
    requires IsValidPath(path)
    ensures path != []
  {
  }

  // The first n segments resolve, and the next one is missing there
  ghost predicate StopsAt(value: Json, path: Path, n: nat) {
    n < |path| && Descend(value, path[..n]).Some? && Own(Descend(value, path[..n]).value, path[n]).None?
  }

  lemma {:induction false} FailingSegment(value: Json, path: Path) returns (n: nat)
    requires Descend(value, path).None?
    ensures StopsAt(value, path, n)
    decreases |path|
  {
    if Own(value, path[0]).None? {
      n := 0;
      assert path[..0] == [];
    } else {
      var next := Own(value, path[0]).value;
      var m := FailingSegment(next, path[1..]);
      n := m + 1;
      assert path[..n] == [path[0]] + path[1..][..m];
      DescendInStages(value, [path[0]], path[1..][..m]);
      assert Descend(value, [path[0]]) == Some(next) by {
        assert [path[0]][1..] == [];
      }
    }
  }
}
