/**
 * Idempotent runs (src/utils/idempotency.ts, and enqueueManual in
 * src/repositories/ExecutionRepository.ts): a canonical text of JSON values and the keys built on it.
 */
module Idempotency {
  import opened JsonValues
  import opened Wrappers

  // A field with its value
  datatype Pair = Pair(key: string, value: Json)

  // localeCompare, taken as a total order of strings
  type Order = (string, string) -> bool

  ghost predicate TotalOrder(leq: Order) {
    && (forall a, b :: leq(a, b) || leq(b, a))
    && (forall a, b :: leq(a, b) && leq(b, a) ==> a == b)
    && (forall a, b, c :: leq(a, b) && leq(b, c) ==> leq(a, c))
  }

  // ----- JSON.stringify of a string: section 7 of RFC 8259 -----

  const HEX := "0123456789abcdef"

  function Escape(c: char): string {
    if c == '\"' then "\\\""
    else if c == '\\' then "\\\\"
    else if c as int == 8 then "\\b"
    else if c as int == 9 then "\\t"
    else if c as int == 10 then "\\n"
    else if c as int == 12 then "\\f"
    else if c as int == 13 then "\\r"
    else if c as int < 32 then "\\u00" + [HEX[c as int / 16], HEX[c as int % 16]]
    else [c]
  }

  function Escaped(s: string): string {
    if s == [] then [] else Escape(s[0]) + Escaped(s[1..])
  }

  function Quoted(s: string): string {
    "\"" + Escaped(s) + "\""
  }

  lemma EscapeShape(c: char)
    ensures |Escape(c)| >= 1 && Escape(c)[0] != '\"'
    ensures |Escape(c)| == 1 ==> Escape(c) == [c] && c != '\\'
    ensures |Escape(c)| > 1 ==> Escape(c)[0] == '\\'
    ensures |Escape(c)| > 1 && Escape(c)[1] != 'u' ==> |Escape(c)| == 2
    ensures |Escape(c)| > 1 && Escape(c)[1] == 'u' ==> |Escape(c)| == 6
  {
  }

  lemma HexInjective(c: char, d: char)
    requires c as int < 32 && d as int < 32
    requires HEX[c as int / 16] == HEX[d as int / 16] && HEX[c as int % 16] == HEX[d as int % 16]
    ensures c == d
  {
  }

  // No escape is the beginning of another one
  lemma EscapePrefix(c: char, d: char, x: string, y: string)
    requires Escape(c) + x == Escape(d) + y
    ensures c == d && x == y
  {
    EscapeShape(c);
    EscapeShape(d);
    var text := Escape(c) + x;
    assert text[0] == Escape(c)[0] == Escape(d)[0];
    if |Escape(c)| > 1 && |Escape(d)| > 1 {
      assert text[1] == Escape(c)[1] == Escape(d)[1];
    }
    assert |Escape(c)| == |Escape(d)|;
    assert Escape(c) == text[..|Escape(c)|] == Escape(d);
    assert x == text[|Escape(c)|..] == y;
    if |Escape(c)| == 6 {
      assert Escape(c)[4] == Escape(d)[4] && Escape(c)[5] == Escape(d)[5];
      HexInjective(c, d);
    }
  }

  // The rest of a quoted string, and what follows it
  function EscapedThen(s: string, rest: string): string {
    if s == [] then ['\"'] + rest else Escape(s[0]) + EscapedThen(s[1..], rest)
  }

  lemma {:induction false} EscapedThenIs(s: string, rest: string)
    ensures EscapedThen(s, rest) == Escaped(s) + (['\"'] + rest)
  {
    hide Escape;
    if s != [] {
      EscapedThenIs(s[1..], rest);
      assert Escape(s[0]) + (Escaped(s[1..]) + (['\"'] + rest)) == (Escape(s[0]) + Escaped(s[1..])) + (['\"'] + rest);
    }
  }

  lemma EscapedThenFirst(s: string, rest: string)
    ensures EscapedThen(s, rest) != []
    ensures EscapedThen(s, rest)[0] == '\"' <==> s == []
  {
    if s != [] {
      EscapeShape(s[0]);
      hide Escape;
    }
  }

  // A quoted string ends where it ends
  lemma {:induction false} EscapedPrefix(s: string, t: string, x: string, y: string)
    requires EscapedThen(s, x) == EscapedThen(t, y)
    ensures s == t && x == y
    decreases |s|
  {
    hide Escape;
    EscapedThenFirst(s, x);
    EscapedThenFirst(t, y);
    if s == [] {
      assert x == EscapedThen(s, x)[1..] && y == EscapedThen(t, y)[1..];
    } else {
      EscapePrefix(s[0], t[0], EscapedThen(s[1..], x), EscapedThen(t[1..], y));
      EscapedPrefix(s[1..], t[1..], x, y);
      assert s == [s[0]] + s[1..] && t == [t[0]] + t[1..];
    }
  }

  // ----- Fields in order -----

  // The fields that have a value
  function Defined(fields: seq<Field>): (pairs: seq<Pair>)
    ensures forall p :: p in pairs <==> Field(p.key, Some(p.value)) in fields
  {
    if fields == [] then []
    else
      var rest := Defined(fields[1..]);
      assert fields == [fields[0]] + fields[1..];
      if fields[0].value.Some? then [Pair(fields[0].key, fields[0].value.value)] + rest else rest
  }

  function Insert(leq: Order, pair: Pair, sorted: seq<Pair>): (r: seq<Pair>)
    ensures forall p :: p in r <==> p == pair || p in sorted
  {
    if sorted == [] then [pair]
    else if leq(pair.key, sorted[0].key) then [pair] + sorted
    else
      assert sorted == [sorted[0]] + sorted[1..];
      [sorted[0]] + Insert(leq, pair, sorted[1..])
  }

  // The fields by ascending key
  function Sort(leq: Order, pairs: seq<Pair>): (r: seq<Pair>)
    ensures forall p :: p in r <==> p in pairs
  {
    if pairs == [] then []
    else
      assert pairs == [pairs[0]] + pairs[1..];
      Insert(leq, pairs[0], Sort(leq, pairs[1..]))
  }

  ghost predicate DistinctKeys(pairs: seq<Pair>) {
    forall i, j :: 0 <= i < j < |pairs| ==> pairs[i].key != pairs[j].key
  }

  ghost predicate Sorted(leq: Order, pairs: seq<Pair>) {
    forall i, j :: 0 <= i < j < |pairs| ==> leq(pairs[i].key, pairs[j].key) && pairs[i].key != pairs[j].key
  }

  lemma {:induction false} InsertSorts(leq: Order, pair: Pair, sorted: seq<Pair>)
    requires TotalOrder(leq) && Sorted(leq, sorted) && forall p :: p in sorted ==> p.key != pair.key
    ensures Sorted(leq, Insert(leq, pair, sorted))
  {
    if sorted != [] && !leq(pair.key, sorted[0].key) {
      assert sorted == [sorted[0]] + sorted[1..];
      InsertSorts(leq, pair, sorted[1..]);
      var rest := Insert(leq, pair, sorted[1..]);
      forall j | 0 <= j < |rest| ensures leq(sorted[0].key, rest[j].key) && sorted[0].key != rest[j].key {
        assert rest[j] in rest;
        if rest[j] != pair {
          var k :| 0 <= k < |sorted[1..]| && sorted[1..][k] == rest[j];
          assert sorted[k + 1] == rest[j];
        }
      }
    }
  }

  lemma {:induction false} SortSorts(leq: Order, pairs: seq<Pair>)
    requires TotalOrder(leq) && DistinctKeys(pairs)
    ensures Sorted(leq, Sort(leq, pairs))
  {
    if pairs != [] {
      SortSorts(leq, pairs[1..]);
      forall p | p in Sort(leq, pairs[1..]) ensures p.key != pairs[0].key {
        var k :| 0 <= k < |pairs[1..]| && pairs[1..][k] == p;
        assert pairs[k + 1] == p;
      }
      InsertSorts(leq, pairs[0], Sort(leq, pairs[1..]));
    }
  }

  // ----- stableJson -----

  function Join(texts: seq<string>): string {
    if texts == [] then []
    else if |texts| == 1 then texts[0]
    else texts[0] + "," + Join(texts[1..])
  }

  lemma PairsInside(leq: Order, fields: seq<Field>)
    ensures forall p :: p in Sort(leq, Defined(fields)) ==> p.value < JsonObject(fields)
  {
    forall p | p in Sort(leq, Defined(fields)) ensures p.value < JsonObject(fields) {
      var i :| 0 <= i < |fields| && fields[i] == Field(p.key, Some(p.value));
      assert fields[i] < JsonObject(fields);
      assert fields[i].value < fields[i];
      assert fields[i].value.value < fields[i].value;
    }
  }

  function StableJson(leq: Order, v: Json): string
    decreases v, 2, 0
  {
    match v
    case JsonNull => "null"
    case JsonBool(b) => if b then "true" else "false"
    case JsonNumber(text) => text
    case JsonString(chars) => Quoted(chars)
    case JsonArray(items) => "[" + Join(ItemTexts(leq, v, items)) + "]"
    case JsonObject(fields) =>
      PairsInside(leq, fields);
      "{" + Join(PairTexts(leq, v, Sort(leq, Defined(fields)))) + "}"
  }

  function ItemTexts(leq: Order, ghost bound: Json, items: seq<Json>): seq<string>
    requires forall i :: 0 <= i < |items| ==> items[i] < bound
    decreases bound, 1, |items|
  {
    if items == [] then [] else [StableJson(leq, items[0])] + ItemTexts(leq, bound, items[1..])
  }

  function PairTexts(leq: Order, ghost bound: Json, pairs: seq<Pair>): seq<string>
    requires forall p :: p in pairs ==> p.value < bound
    decreases bound, 1, |pairs|
  {
    if pairs == [] then []
    else [Quoted(pairs[0].key) + ":" + StableJson(leq, pairs[0].value)] + PairTexts(leq, bound, pairs[1..])
  }

  // ----- The same text, followed by something -----

  function ValueThen(leq: Order, v: Json, rest: string): string
    decreases v, 2, 0
  {
    match v
    case JsonNull => "null" + rest
    case JsonBool(b) => (if b then "true" else "false") + rest
    case JsonNumber(text) => text + rest
    case JsonString(chars) => ['\"'] + EscapedThen(chars, rest)
    case JsonArray(items) => ['['] + ItemsThen(leq, v, items, rest)
    case JsonObject(fields) =>
      PairsInside(leq, fields);
      ['{'] + PairsThen(leq, v, Sort(leq, Defined(fields)), rest)
  }

  function ItemsThen(leq: Order, ghost bound: Json, items: seq<Json>, rest: string): string
    requires forall i :: 0 <= i < |items| ==> items[i] < bound
    decreases bound, 1, |items|
  {
    if items == [] then [']'] + rest
    else ValueThen(leq, items[0], if |items| == 1 then [']'] + rest else [','] + ItemsThen(leq, bound, items[1..], rest))
  }

  function PairsThen(leq: Order, ghost bound: Json, pairs: seq<Pair>, rest: string): string
    requires forall p :: p in pairs ==> p.value < bound
    decreases bound, 1, |pairs|
  {
    if pairs == [] then ['}'] + rest
    else
      ['\"'] + EscapedThen(pairs[0].key, [':'] + ValueThen(leq, pairs[0].value,
        if |pairs| == 1 then ['}'] + rest else [','] + PairsThen(leq, bound, pairs[1..], rest)))
  }

  lemma QuotedThen(s: string, rest: string)
    ensures Quoted(s) + rest == ['\"'] + EscapedThen(s, rest)
  {
    EscapedThenIs(s, rest);
    hide Escaped;
    assert "\"" + Escaped(s) + "\"" + rest == ['\"'] + (Escaped(s) + (['\"'] + rest));
  }

  lemma Wrapped(open: char, inside: string, close: char, rest: string)
    ensures [open] + inside + [close] + rest == [open] + (inside + ([close] + rest))
  {
  }

  lemma {:induction false} TextThen(leq: Order, v: Json, rest: string)
    ensures StableJson(leq, v) + rest == ValueThen(leq, v, rest)
    decreases v, 2, 0
  {
    hide Join, Quoted, EscapedThen, Sort, Defined, ItemTexts, PairTexts, ItemsThen, PairsThen;
    match v
    case JsonString(chars) => QuotedThen(chars, rest);
    case JsonArray(items) =>
      ItemTextsThen(leq, v, items, rest);
      Wrapped('[', Join(ItemTexts(leq, v, items)), ']', rest);
    case JsonObject(fields) =>
      PairsInside(leq, fields);
      PairTextsThen(leq, v, Sort(leq, Defined(fields)), rest);
      Wrapped('{', Join(PairTexts(leq, v, Sort(leq, Defined(fields)))), '}', rest);
    case _ =>
  }

  lemma {:induction false} ItemTextsThen(leq: Order, bound: Json, items: seq<Json>, rest: string)
    requires forall i :: 0 <= i < |items| ==> items[i] < bound
    ensures Join(ItemTexts(leq, bound, items)) + ([']'] + rest) == ItemsThen(leq, bound, items, rest)
    decreases bound, 1, |items|
  {
    if items != [] {
      var first, others := StableJson(leq, items[0]), ItemTexts(leq, bound, items[1..]);
      assert ItemTexts(leq, bound, items)[1..] == others && |others| == |items| - 1 by { ItemTextsSize(leq, bound, items); }
      if |items| == 1 {
        TextThen(leq, items[0], [']'] + rest);
      } else {
        ItemTextsThen(leq, bound, items[1..], rest);
        TextThen(leq, items[0], [','] + ItemsThen(leq, bound, items[1..], rest));
        hide StableJson, ItemsThen, ItemTexts;
        JoinThen(first, others, [']'] + rest);
      }
    }
  }

  lemma JoinThen(first: string, others: seq<string>, rest: string)
    requires others != []
    ensures Join([first] + others) + rest == first + ([','] + (Join(others) + rest))
  {
    assert ([first] + others)[1..] == others;
    assert first + "," + Join(others) + rest == first + ([','] + (Join(others) + rest));
  }

  lemma {:induction false} ItemTextsSize(leq: Order, bound: Json, items: seq<Json>)
    requires forall i :: 0 <= i < |items| ==> items[i] < bound
    ensures |ItemTexts(leq, bound, items)| == |items|
    decreases |items|
  {
    if items != [] {
      ItemTextsSize(leq, bound, items[1..]);
    }
  }

  lemma {:induction false} PairTextsSize(leq: Order, bound: Json, pairs: seq<Pair>)
    requires forall p :: p in pairs ==> p.value < bound
    ensures |PairTexts(leq, bound, pairs)| == |pairs|
    decreases |pairs|
  {
    if pairs != [] {
      PairTextsSize(leq, bound, pairs[1..]);
    }
  }

  function PairText(leq: Order, pair: Pair): string {
    Quoted(pair.key) + ":" + StableJson(leq, pair.value)
  }

  function AfterFirst(leq: Order, ghost bound: Json, pairs: seq<Pair>, rest: string): string
    requires pairs != [] && forall p :: p in pairs ==> p.value < bound
  {
    if |pairs| == 1 then ['}'] + rest else [','] + PairsThen(leq, bound, pairs[1..], rest)
  }

  lemma PairThen(leq: Order, pair: Pair, more: string)
    requires StableJson(leq, pair.value) + more == ValueThen(leq, pair.value, more)
    ensures PairText(leq, pair) + more == ['\"'] + EscapedThen(pair.key, [':'] + ValueThen(leq, pair.value, more))
  {
    var value := StableJson(leq, pair.value);
    QuotedThen(pair.key, [':'] + (value + more));
    hide StableJson, ValueThen, Quoted, EscapedThen;
    assert PairText(leq, pair) + more == Quoted(pair.key) + ([':'] + (value + more));
  }

  lemma {:induction false} PairTextsThen(leq: Order, bound: Json, pairs: seq<Pair>, rest: string)
    requires forall p :: p in pairs ==> p.value < bound
    ensures Join(PairTexts(leq, bound, pairs)) + (['}'] + rest) == PairsThen(leq, bound, pairs, rest)
    decreases bound, 1, |pairs|
  {
    if pairs != [] {
      var first, others := PairText(leq, pairs[0]), PairTexts(leq, bound, pairs[1..]);
      var more := AfterFirst(leq, bound, pairs, rest);
      PairTextsSize(leq, bound, pairs);
      PairTextsSize(leq, bound, pairs[1..]);
      assert PairTexts(leq, bound, pairs) == [first] + others;
      assert PairsThen(leq, bound, pairs, rest) == ['\"'] + EscapedThen(pairs[0].key, [':'] + ValueThen(leq, pairs[0].value, more));
      hide StableJson, ValueThen, PairsThen, PairTexts, PairText, EscapedThen;
      TextThen(leq, pairs[0].value, more);
      PairThen(leq, pairs[0], more);
      if |pairs| > 1 {
        PairTextsThen(leq, bound, pairs[1..], rest);
        JoinThen(first, others, ['}'] + rest);
      }
    }
  }

  // ----- Equal texts are equal values -----

  const NUMERALS: set<char> := {'0', '1', '2', '3', '4', '5', '6', '7', '8', '9', '-', '+', '.', 'e', 'E'}

  predicate IsNumeral(text: string) {
    text != [] && (text[0] == '-' || '0' <= text[0] <= '9') && forall i :: 0 <= i < |text| ==> text[i] in NUMERALS
  }

  // Numbers are numerals, and no key of an object repeats
  ghost predicate Normal(v: Json) {
    match v
    case JsonNumber(text) => IsNumeral(text)
    case JsonArray(items) => forall i :: 0 <= i < |items| ==> Normal(items[i])
    case JsonObject(fields) =>
      && (forall i, j :: 0 <= i < j < |fields| ==> fields[i].key != fields[j].key)
      && (forall i :: 0 <= i < |fields| && fields[i].value.Some? ==> Normal(fields[i].value.value))
    case _ => true
  }

  ghost predicate HasKey(fields: seq<Field>, key: string) {
    exists i :: 0 <= i < |fields| && fields[i].key == key && fields[i].value.Some?
  }

  // Equality of JSON values: the order of an object's fields and undefined ones do not count
  ghost predicate Same(v: Json, w: Json) {
    match v
    case JsonArray(items) =>
      w.JsonArray? && |items| == |w.items| && forall i :: 0 <= i < |items| ==> Same(items[i], w.items[i])
    case JsonObject(fields) =>
      w.JsonObject?
      && (forall key :: HasKey(fields, key) <==> HasKey(w.fields, key))
      && (forall i, j :: 0 <= i < |fields| && 0 <= j < |w.fields| && fields[i].key == w.fields[j].key ==>
        fields[i].value.Some? && w.fields[j].value.Some? ==> Same(fields[i].value.value, w.fields[j].value.value))
    case _ => v == w
  }

  predicate Ends(rest: string) {
    rest == [] || rest[0] !in NUMERALS
  }

  lemma {:induction false} NumeralPrefix(a: string, b: string, x: string, y: string)
    requires (forall i :: 0 <= i < |a| ==> a[i] in NUMERALS) && (forall i :: 0 <= i < |b| ==> b[i] in NUMERALS)
    requires Ends(x) && Ends(y) && a + x == b + y
    ensures a == b && x == y
    decreases |a|
  {
    assert a != [] ==> (a + x)[0] == a[0];
    assert b != [] ==> (b + y)[0] == b[0];
    if a == [] {
      assert a + x == x;
      assert b + y == y;
    } else {
      assert (a + x)[1..] == a[1..] + x && (b + y)[1..] == b[1..] + y;
      NumeralPrefix(a[1..], b[1..], x, y);
      assert a == [a[0]] + a[1..] && b == [b[0]] + b[1..];
    }
  }

  // What a text starts with tells the constructor of its value
  function Head(v: Json): char {
    match v
    case JsonNull => 'n'
    case JsonBool(b) => if b then 't' else 'f'
    case JsonNumber(text) => '0'
    case JsonString(_) => '\"'
    case JsonArray(_) => '['
    case JsonObject(_) => '{'
  }

  function HeadOf(c: char): char {
    if c == '-' || '0' <= c <= '9' then '0' else c
  }

  lemma FirstChar(leq: Order, v: Json, rest: string)
    requires Normal(v)
    ensures ValueThen(leq, v, rest) != [] && HeadOf(ValueThen(leq, v, rest)[0]) == Head(v)
  {
    hide ItemsThen, PairsThen, EscapedThen, Sort, Defined;
  }

  lemma {:induction false} ValuePrefix(leq: Order, v: Json, w: Json, x: string, y: string)
    requires TotalOrder(leq) && Normal(v) && Normal(w) && Ends(x) && Ends(y)
    requires ValueThen(leq, v, x) == ValueThen(leq, w, y)
    ensures Same(v, w) && x == y
    decreases v, 2, 0
  {
    FirstChar(leq, v, x);
    FirstChar(leq, w, y);
    assert Head(v) == Head(w);
    match v
    case JsonNull => assert x == ValueThen(leq, v, x)[4..] == ValueThen(leq, w, y)[4..] == y;
    case JsonBool(b) =>
      var n := if b then 4 else 5;
      assert x == ValueThen(leq, v, x)[n..] && y == ValueThen(leq, w, y)[n..];
    case JsonNumber(text) => NumeralPrefix(text, w.text, x, y);
    case JsonString(chars) =>
      TailEqual('\"', EscapedThen(chars, x), EscapedThen(w.chars, y));
      EscapedPrefix(chars, w.chars, x, y);
    case JsonArray(items) =>
      TailEqual('[', ItemsThen(leq, v, items, x), ItemsThen(leq, w, w.items, y));
      ItemsPrefix(leq, v, w, items, w.items, x, y);
    case JsonObject(fields) =>
      var p, q := Sort(leq, Defined(fields)), Sort(leq, Defined(w.fields));
      PairsInside(leq, fields);
      PairsInside(leq, w.fields);
      TailEqual('{', PairsThen(leq, v, p, x), PairsThen(leq, w, q, y));
      NormalPairs(leq, v);
      NormalPairs(leq, w);
      PairsPrefix(leq, v, w, p, q, x, y);
      SamePairs(leq, v, w);
  }

  lemma TailEqual(c: char, a: string, b: string)
    requires [c] + a == [c] + b
    ensures a == b
  {
    assert a == ([c] + a)[1..] && b == ([c] + b)[1..];
  }

  lemma NormalPairs(leq: Order, v: Json)
    requires v.JsonObject? && Normal(v)
    ensures forall p :: p in Sort(leq, Defined(v.fields)) ==> Normal(p.value)
  {
    forall p | p in Sort(leq, Defined(v.fields)) ensures Normal(p.value) {
      var i :| 0 <= i < |v.fields| && v.fields[i] == Field(p.key, Some(p.value));
    }
  }

  function AfterItem(leq: Order, ghost bound: Json, items: seq<Json>, rest: string): string
    requires items != [] && forall i :: 0 <= i < |items| ==> items[i] < bound
  {
    if |items| == 1 then [']'] + rest else [','] + ItemsThen(leq, bound, items[1..], rest)
  }

  // A list of items starts like its first one, or closes
  lemma ItemsStart(leq: Order, v: Json, a: seq<Json>, x: string)
    requires forall i :: 0 <= i < |a| ==> a[i] < v && Normal(a[i])
    ensures ItemsThen(leq, v, a, x) != [] && (a == [] <==> ItemsThen(leq, v, a, x)[0] == ']')
    ensures a == [] ==> ItemsThen(leq, v, a, x) == [']'] + x
    ensures a != [] ==> ItemsThen(leq, v, a, x) == ValueThen(leq, a[0], AfterItem(leq, v, a, x))
    ensures a != [] ==> AfterItem(leq, v, a, x) != [] && Ends(AfterItem(leq, v, a, x))
    ensures a != [] ==> (|a| == 1 <==> AfterItem(leq, v, a, x)[0] == ']')
    ensures |a| == 1 ==> AfterItem(leq, v, a, x) == [']'] + x
    ensures |a| > 1 ==> AfterItem(leq, v, a, x) == [','] + ItemsThen(leq, v, a[1..], x)
  {
    if a != [] {
      FirstChar(leq, a[0], AfterItem(leq, v, a, x));
    }
    hide ValueThen, Normal;
  }

  lemma {:induction false} ItemsPrefix(leq: Order, v: Json, w: Json, a: seq<Json>, b: seq<Json>, x: string, y: string)
    requires TotalOrder(leq) && (forall i :: 0 <= i < |a| ==> a[i] < v && Normal(a[i]))
    requires forall i :: 0 <= i < |b| ==> b[i] < w && Normal(b[i])
    requires ItemsThen(leq, v, a, x) == ItemsThen(leq, w, b, y)
    ensures |a| == |b| && (forall i :: 0 <= i < |a| ==> Same(a[i], b[i])) && x == y
    decreases v, 1, |a|
  {
    hide Normal, Same, ItemsThen, ValueThen, AfterItem, Ends, TotalOrder;
    ItemsStart(leq, v, a, x);
    ItemsStart(leq, w, b, y);
    if a == [] {
      TailEqual(']', x, y);
    } else {
      ValuePrefix(leq, a[0], b[0], AfterItem(leq, v, a, x), AfterItem(leq, w, b, y));
      if |a| == 1 {
        TailEqual(']', x, y);
      } else {
        TailEqual(',', ItemsThen(leq, v, a[1..], x), ItemsThen(leq, w, b[1..], y));
        ItemsPrefix(leq, v, w, a[1..], b[1..], x, y);
        forall i | 0 <= i < |a| ensures Same(a[i], b[i]) {
          assert i > 0 ==> a[i] == a[1..][i - 1] && b[i] == b[1..][i - 1];
        }
      }
    }
  }

  lemma PairsStart(leq: Order, v: Json, p: seq<Pair>, x: string)
    requires forall d :: d in p ==> d.value < v
    ensures PairsThen(leq, v, p, x) != [] && (p == [] <==> PairsThen(leq, v, p, x)[0] == '}')
    ensures p == [] ==> PairsThen(leq, v, p, x) == ['}'] + x
    ensures p != [] ==>
      PairsThen(leq, v, p, x) == ['\"'] + EscapedThen(p[0].key, [':'] + ValueThen(leq, p[0].value, AfterFirst(leq, v, p, x)))
    ensures p != [] ==> AfterFirst(leq, v, p, x) != [] && Ends(AfterFirst(leq, v, p, x))
    ensures p != [] ==> (|p| == 1 <==> AfterFirst(leq, v, p, x)[0] == '}')
    ensures |p| == 1 ==> AfterFirst(leq, v, p, x) == ['}'] + x
    ensures |p| > 1 ==> AfterFirst(leq, v, p, x) == [','] + PairsThen(leq, v, p[1..], x)
  {
    hide ValueThen, EscapedThen;
  }

  lemma {:induction false} PairsPrefix(leq: Order, v: Json, w: Json, p: seq<Pair>, q: seq<Pair>, x: string, y: string)
    requires TotalOrder(leq) && (forall d :: d in p ==> d.value < v && Normal(d.value))
    requires forall d :: d in q ==> d.value < w && Normal(d.value)
    requires PairsThen(leq, v, p, x) == PairsThen(leq, w, q, y)
    ensures |p| == |q| && (forall i :: 0 <= i < |p| ==> p[i].key == q[i].key && Same(p[i].value, q[i].value)) && x == y
    decreases v, 1, |p|
  {
    hide Normal, Same, PairsThen, ValueThen, AfterFirst, EscapedThen, Ends, TotalOrder;
    PairsStart(leq, v, p, x);
    PairsStart(leq, w, q, y);
    if p == [] {
      TailEqual('}', x, y);
    } else {
      var moreP, moreQ := AfterFirst(leq, v, p, x), AfterFirst(leq, w, q, y);
      var valueP, valueQ := ValueThen(leq, p[0].value, moreP), ValueThen(leq, q[0].value, moreQ);
      TailEqual('\"', EscapedThen(p[0].key, [':'] + valueP), EscapedThen(q[0].key, [':'] + valueQ));
      EscapedPrefix(p[0].key, q[0].key, [':'] + valueP, [':'] + valueQ);
      TailEqual(':', valueP, valueQ);
      ValuePrefix(leq, p[0].value, q[0].value, moreP, moreQ);
      if |p| == 1 {
        TailEqual('}', x, y);
      } else {
        TailEqual(',', PairsThen(leq, v, p[1..], x), PairsThen(leq, w, q[1..], y));
        PairsPrefix(leq, v, w, p[1..], q[1..], x, y);
        forall i | 0 <= i < |p| ensures p[i].key == q[i].key && Same(p[i].value, q[i].value) {
          assert i > 0 ==> p[i] == p[1..][i - 1] && q[i] == q[1..][i - 1];
        }
      }
    }
  }

  ghost predicate PairKey(pairs: seq<Pair>, key: string) {
    exists k :: 0 <= k < |pairs| && pairs[k].key == key
  }

  lemma KeyInPairs(leq: Order, fields: seq<Field>, key: string)
    ensures HasKey(fields, key) <==> PairKey(Sort(leq, Defined(fields)), key)
  {
    var p := Sort(leq, Defined(fields));
    if i :| 0 <= i < |fields| && fields[i].key == key && fields[i].value.Some? {
      assert Field(key, Some(fields[i].value.value)) in fields;
      assert Pair(key, fields[i].value.value) in p;
      var k :| 0 <= k < |p| && p[k] == Pair(key, fields[i].value.value);
    }
    if k :| 0 <= k < |p| && p[k].key == key {
      assert p[k] in p;
      var i :| 0 <= i < |fields| && fields[i] == Field(p[k].key, Some(p[k].value));
    }
  }

  lemma SameKeys(p: seq<Pair>, q: seq<Pair>, key: string)
    requires |p| == |q| && forall i :: 0 <= i < |p| ==> p[i].key == q[i].key
    ensures PairKey(p, key) <==> PairKey(q, key)
  {
    if k :| 0 <= k < |p| && p[k].key == key {
      assert q[k].key == key;
    }
    if k :| 0 <= k < |q| && q[k].key == key {
      assert p[k].key == key;
    }
  }

  // Objects whose sorted pairs agree are the same
  lemma SamePairs(leq: Order, v: Json, w: Json)
    requires v.JsonObject? && w.JsonObject? && Normal(v) && Normal(w)
    requires var p, q := Sort(leq, Defined(v.fields)), Sort(leq, Defined(w.fields));
      |p| == |q| && forall i :: 0 <= i < |p| ==> p[i].key == q[i].key && Same(p[i].value, q[i].value)
    ensures Same(v, w)
  {
    var p, q := Sort(leq, Defined(v.fields)), Sort(leq, Defined(w.fields));
    forall key ensures HasKey(v.fields, key) <==> HasKey(w.fields, key) {
      KeyInPairs(leq, v.fields, key);
      KeyInPairs(leq, w.fields, key);
      SameKeys(p, q, key);
    }
    forall i, j | 0 <= i < |v.fields| && 0 <= j < |w.fields| && v.fields[i].key == w.fields[j].key
      ensures v.fields[i].value.Some? && w.fields[j].value.Some? ==> Same(v.fields[i].value.value, w.fields[j].value.value)
    {
      if v.fields[i].value.Some? && w.fields[j].value.Some? {
        SamePair(leq, v, w, i, j);
      }
    }
  }

  lemma SamePair(leq: Order, v: Json, w: Json, i: nat, j: nat)
    requires v.JsonObject? && w.JsonObject? && Normal(v) && Normal(w)
    requires var p, q := Sort(leq, Defined(v.fields)), Sort(leq, Defined(w.fields));
      |p| == |q| && forall i :: 0 <= i < |p| ==> p[i].key == q[i].key && Same(p[i].value, q[i].value)
    requires i < |v.fields| && j < |w.fields| && v.fields[i].key == w.fields[j].key
    requires v.fields[i].value.Some? && w.fields[j].value.Some?
    ensures Same(v.fields[i].value.value, w.fields[j].value.value)
  {
    var p, q := Sort(leq, Defined(v.fields)), Sort(leq, Defined(w.fields));
    var pair := Pair(v.fields[i].key, v.fields[i].value.value);
    assert v.fields[i] == Field(pair.key, Some(pair.value));
    assert pair in p;
    var k :| 0 <= k < |p| && p[k] == pair;
    assert q[k] in q;
    var m :| 0 <= m < |w.fields| && w.fields[m] == Field(q[k].key, Some(q[k].value));
    assert m == j;
  }

  // ----- Same values are equal texts -----

  lemma HeadIsLeast(leq: Order, pairs: seq<Pair>, k: nat)
    requires TotalOrder(leq) && Sorted(leq, pairs) && k < |pairs|
    ensures leq(pairs[0].key, pairs[k].key)
  {
    assert leq(pairs[0].key, pairs[0].key);
  }

  // Two strictly ordered lists with the same keys have them at the same places
  lemma {:induction false} SortedKeysEqual(leq: Order, p: seq<Pair>, q: seq<Pair>)
    requires TotalOrder(leq) && Sorted(leq, p) && Sorted(leq, q)
    requires forall key :: PairKey(p, key) <==> PairKey(q, key)
    ensures |p| == |q| && forall i :: 0 <= i < |p| ==> p[i].key == q[i].key
    decreases |p|
  {
    if p == [] {
      assert q != [] ==> PairKey(q, q[0].key);
    } else {
      assert PairKey(p, p[0].key);
      assert q != [] ==> PairKey(q, q[0].key);
      var k :| 0 <= k < |q| && q[k].key == p[0].key;
      var m :| 0 <= m < |p| && p[m].key == q[0].key;
      HeadIsLeast(leq, q, k);
      HeadIsLeast(leq, p, m);
      assert p[0].key == q[0].key;
      forall key ensures PairKey(p[1..], key) <==> PairKey(q[1..], key) {
        RestKeys(leq, p, key);
        RestKeys(leq, q, key);
      }
      assert Sorted(leq, p[1..]) && Sorted(leq, q[1..]);
      SortedKeysEqual(leq, p[1..], q[1..]);
      forall i | 0 <= i < |p| ensures p[i].key == q[i].key {
        assert i > 0 ==> p[i] == p[1..][i - 1] && q[i] == q[1..][i - 1];
      }
    }
  }

  lemma RestKeys(leq: Order, p: seq<Pair>, key: string)
    requires p != [] && Sorted(leq, p)
    ensures PairKey(p[1..], key) <==> PairKey(p, key) && key != p[0].key
  {
    if k :| 0 <= k < |p| && p[k].key == key && k > 0 {
      assert p[1..][k - 1].key == key;
    }
    if k :| 0 <= k < |p[1..]| && p[1..][k].key == key {
      assert p[k + 1].key == key;
    }
  }

  lemma {:induction false} DefinedDistinct(fields: seq<Field>)
    requires forall i, j :: 0 <= i < j < |fields| ==> fields[i].key != fields[j].key
    ensures DistinctKeys(Defined(fields))
  {
    if fields != [] {
      var rest := fields[1..];
      assert forall i :: 0 <= i < |rest| ==> rest[i] == fields[i + 1];
      DefinedDistinct(rest);
      forall p | p in Defined(rest) ensures p.key != fields[0].key {
        var i :| 0 <= i < |rest| && rest[i] == Field(p.key, Some(p.value));
        assert fields[i + 1].key == p.key;
      }
    }
  }

  lemma {:induction false} SameText(leq: Order, v: Json, w: Json, rest: string)
    requires TotalOrder(leq) && Normal(v) && Normal(w) && Same(v, w)
    ensures ValueThen(leq, v, rest) == ValueThen(leq, w, rest)
    decreases v, 2, 0
  {
    match v
    case JsonArray(items) => SameItems(leq, v, w, items, w.items, rest);
    case JsonObject(fields) =>
      var p, q := Sort(leq, Defined(fields)), Sort(leq, Defined(w.fields));
      PairsInside(leq, fields);
      PairsInside(leq, w.fields);
      NormalPairs(leq, v);
      NormalPairs(leq, w);
      SameObjects(leq, v, w);
      SamePairTexts(leq, v, w, p, q, rest);
    case _ =>
  }

  lemma SameObjects(leq: Order, v: Json, w: Json)
    requires TotalOrder(leq) && v.JsonObject? && w.JsonObject? && Normal(v) && Normal(w) && Same(v, w)
    ensures var p, q := Sort(leq, Defined(v.fields)), Sort(leq, Defined(w.fields));
      |p| == |q| && forall i :: 0 <= i < |p| ==> p[i].key == q[i].key && Same(p[i].value, q[i].value)
  {
    var p, q := Sort(leq, Defined(v.fields)), Sort(leq, Defined(w.fields));
    DefinedDistinct(v.fields);
    DefinedDistinct(w.fields);
    SortSorts(leq, Defined(v.fields));
    SortSorts(leq, Defined(w.fields));
    forall key ensures PairKey(p, key) <==> PairKey(q, key) {
      KeyInPairs(leq, v.fields, key);
      KeyInPairs(leq, w.fields, key);
      assert HasKey(v.fields, key) <==> HasKey(w.fields, key);
    }
    SortedKeysEqual(leq, p, q);
    forall k | 0 <= k < |p| ensures Same(p[k].value, q[k].value) {
      assert p[k] in p && q[k] in q;
      var i :| 0 <= i < |v.fields| && v.fields[i] == Field(p[k].key, Some(p[k].value));
      var j :| 0 <= j < |w.fields| && w.fields[j] == Field(q[k].key, Some(q[k].value));
    }
  }

  lemma {:induction false} SameItems(leq: Order, v: Json, w: Json, a: seq<Json>, b: seq<Json>, rest: string)
    requires TotalOrder(leq) && |a| == |b|
    requires forall i :: 0 <= i < |a| ==> a[i] < v && Normal(a[i]) && b[i] < w && Normal(b[i]) && Same(a[i], b[i])
    ensures ItemsThen(leq, v, a, rest) == ItemsThen(leq, w, b, rest)
    decreases v, 1, |a|
  {
    hide Normal, Same, ItemsThen, ValueThen, AfterItem, Ends, TotalOrder;
    ItemsStart(leq, v, a, rest);
    ItemsStart(leq, w, b, rest);
    if a != [] {
      if |a| > 1 {
        SameItems(leq, v, w, a[1..], b[1..], rest);
      }
      SameText(leq, a[0], b[0], AfterItem(leq, v, a, rest));
    }
  }

  lemma {:induction false} SamePairTexts(leq: Order, v: Json, w: Json, p: seq<Pair>, q: seq<Pair>, rest: string)
    requires TotalOrder(leq) && |p| == |q|
    requires (forall d :: d in p ==> d.value < v && Normal(d.value)) && (forall d :: d in q ==> d.value < w && Normal(d.value))
    requires forall i :: 0 <= i < |p| ==> p[i].key == q[i].key && Same(p[i].value, q[i].value)
    ensures PairsThen(leq, v, p, rest) == PairsThen(leq, w, q, rest)
    decreases v, 1, |p|
  {
    hide Normal, Same, PairsThen, ValueThen, AfterFirst, EscapedThen, Ends, TotalOrder;
    PairsStart(leq, v, p, rest);
    PairsStart(leq, w, q, rest);
    if p != [] {
      if |p| > 1 {
        SamePairTexts(leq, v, w, p[1..], q[1..], rest);
      }
      SameText(leq, p[0].value, q[0].value, AfterFirst(leq, v, p, rest));
    }
  }

  // Two values have one text exactly when they are the same
  lemma StableJsonIsCanonical(leq: Order, v: Json, w: Json)
    requires TotalOrder(leq) && Normal(v) && Normal(w)
    ensures StableJson(leq, v) == StableJson(leq, w) <==> Same(v, w)
  {
    TextThen(leq, v, []);
    TextThen(leq, w, []);
    assert StableJson(leq, v) + [] == StableJson(leq, v) && StableJson(leq, w) + [] == StableJson(leq, w);
    if Same(v, w) {
      SameText(leq, v, w, []);
    }
    if StableJson(leq, v) == StableJson(leq, w) {
      ValuePrefix(leq, v, w, [], []);
    }
  }
}
