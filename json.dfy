/**
 * JSON values as the tracer emits them (json.dumps) and as the viewer sees them
 * after JSON.parse, together with the handful of JavaScript operations the
 * viewer applies to them: truthiness, property probes, `??`, `String(x)`,
 * `JSON.stringify(x)` and the own-property order of `Object.entries`.
 */
module Json {
  import opened Common

  /** Object members are kept in the order they were written, with distinct keys. */
  datatype Json =
    | JNull
    | JBool(b: bool)
    | JNum(n: int)
    | JStr(s: string)
    | JArr(items: seq<Json>)
    | JObj(fields: seq<(string, Json)>)

  type Fields = seq<(string, Json)>

  function KeysOf<T>(fields: seq<(string, T)>): (ks: seq<string>)
    ensures |ks| == |fields|
    ensures forall i :: 0 <= i < |fields| ==> ks[i] == fields[i].0
  {
    if |fields| == 0 then [] else [fields[0].0] + KeysOf(fields[1..])
  }

  predicate DistinctKeys<T>(fields: seq<(string, T)>) {
    Distinct(KeysOf(fields))
  }

  function Lookup<T>(fields: seq<(string, T)>, k: string): (r: Option<T>)
    ensures r.None? <==> k !in KeysOf(fields)
    ensures r.Some? ==> (k, r.value) in fields
  {
    if |fields| == 0 then None
    else if fields[0].0 == k then Some(fields[0].1)
    else Lookup(fields[1..], k)
  }

  /** The first entry with key `fields[i].0` is entry `i` when no earlier entry has that key. */
  lemma {:induction false} LookupAt<T>(fields: seq<(string, T)>, i: nat)
    requires i < |fields|
    requires forall j :: 0 <= j < i ==> fields[j].0 != fields[i].0
    ensures Lookup(fields, fields[i].0) == Some(fields[i].1)
  {
    if i > 0 {
      LookupAt(fields[1..], i - 1);
    }
  }

  /**
   * Python's `d[k] = v` on an insertion-ordered dict: an existing key keeps its
   * position and takes the new value, a new key goes to the end.
   */
  function Put<T>(fields: seq<(string, T)>, k: string, v: T): (r: seq<(string, T)>)
    ensures k in KeysOf(fields) ==> KeysOf(r) == KeysOf(fields)
    ensures k !in KeysOf(fields) ==> KeysOf(r) == KeysOf(fields) + [k]
    ensures Lookup(r, k) == Some(v)
    ensures forall k' :: k' != k ==> Lookup(r, k') == Lookup(fields, k')
  {
    if |fields| == 0 then [(k, v)]
    else if fields[0].0 == k then
      PutFront(fields, v);
      [(k, v)] + fields[1..]
    else
      var rest := Put(fields[1..], k, v);
      PutBehind(fields, k, v, rest);
      [fields[0]] + rest
  }

  /** `Put` on a key that heads the list replaces that entry in place. */
  lemma PutFront<T>(fields: seq<(string, T)>, v: T)
    requires |fields| > 0
    ensures var k, r := fields[0].0, [(fields[0].0, v)] + fields[1..];
            && KeysOf(r) == KeysOf(fields) && Lookup(r, k) == Some(v)
            && forall k' :: k' != k ==> Lookup(r, k') == Lookup(fields, k')
  {
    var r := [(fields[0].0, v)] + fields[1..];
    assert r[1..] == fields[1..];
  }

  /** `Put` past a head entry with another key keeps that entry in front of the updated rest. */
  lemma PutBehind<T>(fields: seq<(string, T)>, k: string, v: T, rest: seq<(string, T)>)
    requires |fields| > 0 && fields[0].0 != k
    requires k in KeysOf(fields[1..]) ==> KeysOf(rest) == KeysOf(fields[1..])
    requires k !in KeysOf(fields[1..]) ==> KeysOf(rest) == KeysOf(fields[1..]) + [k]
    requires Lookup(rest, k) == Some(v)
    requires forall k' :: k' != k ==> Lookup(rest, k') == Lookup(fields[1..], k')
    ensures var r := [fields[0]] + rest;
            && (k in KeysOf(fields) ==> KeysOf(r) == KeysOf(fields))
            && (k !in KeysOf(fields) ==> KeysOf(r) == KeysOf(fields) + [k])
            && Lookup(r, k) == Some(v)
            && forall k' :: k' != k ==> Lookup(r, k') == Lookup(fields, k')
  {
    PutBehindKeys(fields, k, rest);
    var r := [fields[0]] + rest;
    assert r[1..] == rest;
    forall k' | k' != k ensures Lookup(r, k') == Lookup(fields, k') {
      LookupHead(r, k');
      LookupHead(fields, k');
    }
  }

  lemma PutBehindKeys<T>(fields: seq<(string, T)>, k: string, rest: seq<(string, T)>)
    requires |fields| > 0 && fields[0].0 != k
    requires k in KeysOf(fields[1..]) ==> KeysOf(rest) == KeysOf(fields[1..])
    requires k !in KeysOf(fields[1..]) ==> KeysOf(rest) == KeysOf(fields[1..]) + [k]
    ensures var r := [fields[0]] + rest;
            && (k in KeysOf(fields) ==> KeysOf(r) == KeysOf(fields))
            && (k !in KeysOf(fields) ==> KeysOf(r) == KeysOf(fields) + [k])
  {
    var r := [fields[0]] + rest;
    assert r[1..] == rest;
    assert KeysOf(r) == [fields[0].0] + KeysOf(rest);
    assert KeysOf(fields) == [fields[0].0] + KeysOf(fields[1..]);
    assert k in KeysOf(fields) <==> k in KeysOf(fields[1..]);
  }

  lemma LookupHead<T>(fields: seq<(string, T)>, k: string)
    requires |fields| > 0
    ensures Lookup(fields, k) == if fields[0].0 == k then Some(fields[0].1) else Lookup(fields[1..], k)
  {
  }

  lemma PutKeepsDistinct<T>(fields: seq<(string, T)>, k: string, v: T)
    requires DistinctKeys(fields)
    ensures DistinctKeys(Put(fields, k, v))
  {
  }

  /** JavaScript truthiness of a parsed JSON value. */
  predicate Truthy(j: Json) {
    match j
    case JNull => false
    case JBool(b) => b
    case JNum(n) => n != 0
    case JStr(s) => s != ""
    case JArr(_) => true
    case JObj(_) => true
  }

  /** `j.k`: a present member of an object; `None` stands for `undefined`. */
  function Member(j: Json, k: string): Option<Json> {
    if j.JObj? then Lookup(j.fields, k) else None
  }

  /** `k in j` for an object `j`; the model answers false on non-objects. */
  predicate HasKey(j: Json, k: string) {
    j.JObj? && k in KeysOf(j.fields)
  }

  /** The value of `__type__`, when it is a string. */
  function Tag(j: Json): Option<string> {
    match Member(j, "__type__")
    case Some(JStr(t)) => Some(t)
    case _ => None
  }

  /** `j.__type__ === t` */
  predicate HasTag(j: Json, t: string) {
    Member(j, "__type__") == Some(JStr(t))
  }

  /** `!j.__type__` */
  predicate Untagged(j: Json) {
    match Member(j, "__type__")
    case None => true
    case Some(t) => !Truthy(t)
  }

  /** `x === null || x === undefined`, the test behind `??` and `?.`. */
  predicate Nullish(x: Option<Json>) {
    x.None? || x.value == JNull
  }

  // ---------------------------------------------------------------------------
  // Decimal text of integers (Python str(int), JavaScript String(number)).

  function DigitChar(d: nat): char
    requires d < 10
  {
    "0123456789"[d]
  }

  predicate IsDigit(c: char) {
    '0' <= c <= '9'
  }

  function DigitValue(c: char): nat
    requires IsDigit(c)
  {
    (c as int) - ('0' as int)
  }

  function NatToString(n: nat): (s: string)
    ensures |s| > 0
    ensures forall i :: 0 <= i < |s| ==> IsDigit(s[i])
    ensures s[0] == '0' ==> n == 0 && s == "0"
    decreases n
  {
    if n < 10 then [DigitChar(n)] else NatToString(n / 10) + [DigitChar(n % 10)]
  }

  function IntToString(i: int): string {
    if i < 0 then "-" + NatToString(-i) else NatToString(i)
  }

  /** The value of a string of decimal digits. */
  function DigitsValue(s: string): nat
    requires forall i :: 0 <= i < |s| ==> IsDigit(s[i])
  {
    if |s| == 0 then 0 else 10 * DigitsValue(s[..|s| - 1]) + DigitValue(s[|s| - 1])
  }

  lemma {:induction false} DigitsValueOfNatToString(n: nat)
    ensures DigitsValue(NatToString(n)) == n
    decreases n
  {
    var s := NatToString(n);
    if n >= 10 {
      DigitsValueOfNatToString(n / 10);
      assert s[..|s| - 1] == NatToString(n / 10);
    }
  }

  // ---------------------------------------------------------------------------
  // JavaScript own-property order: keys that are array indices (canonical
  // decimal numerals below 2^32 - 1) come first in ascending numeric order,
  // every other key follows in insertion order.

  predicate IsArrayIndex(k: string) {
    && |k| > 0
    && (forall i :: 0 <= i < |k| ==> IsDigit(k[i]))
    && (k[0] != '0' || |k| == 1)
    && DigitsValue(k) < 0xFFFF_FFFF
  }

  function IndexValue(k: string): nat
    requires IsArrayIndex(k)
  {
    DigitsValue(k)
  }

  function InsertByIndex<T>(e: (string, T), sorted: seq<(string, T)>): (r: seq<(string, T)>)
    requires IsArrayIndex(e.0)
    requires forall i :: 0 <= i < |sorted| ==> IsArrayIndex(sorted[i].0)
    ensures forall i :: 0 <= i < |r| ==> IsArrayIndex(r[i].0)
    ensures multiset(r) == multiset(sorted) + multiset{e}
  {
    if |sorted| == 0 || IndexValue(e.0) <= IndexValue(sorted[0].0) then [e] + sorted
    else
      var rest := InsertByIndex(e, sorted[1..]);
      assert sorted == [sorted[0]] + sorted[1..];
      [sorted[0]] + rest
  }

  lemma {:induction false} InsertByIndexSorted<T>(e: (string, T), sorted: seq<(string, T)>)
    requires IsArrayIndex(e.0)
    requires forall i :: 0 <= i < |sorted| ==> IsArrayIndex(sorted[i].0)
    requires IndexSorted(sorted)
    ensures IndexSorted(InsertByIndex(e, sorted))
    ensures |sorted| > 0 ==> InsertByIndex(e, sorted)[0] == e || InsertByIndex(e, sorted)[0] == sorted[0]
  {
    if |sorted| > 0 && IndexValue(e.0) > IndexValue(sorted[0].0) {
      InsertByIndexSorted(e, sorted[1..]);
    }
  }

  predicate IndexSorted<T>(s: seq<(string, T)>)
    requires forall i :: 0 <= i < |s| ==> IsArrayIndex(s[i].0)
  {
    forall i, j :: 0 <= i < j < |s| ==> IndexValue(s[i].0) <= IndexValue(s[j].0)
  }

  function IndexEntries<T>(fields: seq<(string, T)>): (r: seq<(string, T)>)
    ensures forall i :: 0 <= i < |r| ==> IsArrayIndex(r[i].0)
    ensures IndexSorted(r)
    ensures multiset(r) == multiset(FilterEntries(fields, true))
  {
    if |fields| == 0 then []
    else
      var rest := IndexEntries(fields[..|fields| - 1]);
      var last := fields[|fields| - 1];
      assert fields == fields[..|fields| - 1] + [last];
      if IsArrayIndex(last.0) then InsertByIndexSorted(last, rest); InsertByIndex(last, rest) else rest
  }

  /** The entries whose key is (`wanted`) or is not (`!wanted`) an array index, in order. */
  function FilterEntries<T>(fields: seq<(string, T)>, wanted: bool): (r: seq<(string, T)>)
    ensures forall i :: 0 <= i < |r| ==> IsArrayIndex(r[i].0) == wanted
  {
    if |fields| == 0 then []
    else
      var rest := FilterEntries(fields[..|fields| - 1], wanted);
      var last := fields[|fields| - 1];
      if IsArrayIndex(last.0) == wanted then rest + [last] else rest
  }

  /** `Object.entries(o)` of an object built by JSON.parse. */
  function JsEntries<T>(fields: seq<(string, T)>): (r: seq<(string, T)>)
    ensures multiset(r) == multiset(fields)
  {
    EntriesSplit(fields);
    IndexEntries(fields) + FilterEntries(fields, false)
  }

  lemma {:induction false} EntriesSplit<T>(fields: seq<(string, T)>)
    ensures multiset(FilterEntries(fields, true)) + multiset(FilterEntries(fields, false)) == multiset(fields)
  {
    if |fields| > 0 {
      EntriesSplit(fields[..|fields| - 1]);
      assert fields == fields[..|fields| - 1] + [fields[|fields| - 1]];
    }
  }

  lemma {:induction false} NoIndexKeysKeepOrder<T>(fields: seq<(string, T)>)
    requires forall i :: 0 <= i < |fields| ==> !IsArrayIndex(fields[i].0)
    ensures JsEntries(fields) == fields
  {
    NoIndexKeysFilter(fields);
  }

  lemma {:induction false} NoIndexKeysFilter<T>(fields: seq<(string, T)>)
    requires forall i :: 0 <= i < |fields| ==> !IsArrayIndex(fields[i].0)
    ensures IndexEntries(fields) == [] && FilterEntries(fields, false) == fields
  {
    if |fields| > 0 {
      NoIndexKeysFilter(fields[..|fields| - 1]);
      assert fields == fields[..|fields| - 1] + [fields[|fields| - 1]];
    }
  }

  // ---------------------------------------------------------------------------
  // String(x) and JSON.stringify(x).

  function Join(parts: seq<string>, sep: string): string {
    if |parts| == 0 then ""
    else if |parts| == 1 then parts[0]
    else parts[0] + sep + Join(parts[1..], sep)
  }

  /** JavaScript `String(j)`: arrays join their elements with commas, null elements as "". */
  function JsString(j: Json): string {
    match j
    case JNull => "null"
    case JBool(b) => if b then "true" else "false"
    case JNum(n) => IntToString(n)
    case JStr(s) => s
    case JArr(items) =>
      Join(seq(|items|, i requires 0 <= i < |items| =>
        if items[i] == JNull then "" else JsString(items[i])), ",")
    case JObj(_) => "[object Object]"
  }

  /** `Join` is at least as long as any one of its parts. */
  lemma {:induction false} JoinCovers(parts: seq<string>, sep: string, i: nat)
    requires i < |parts|
    ensures |parts[i]| <= |Join(parts, sep)|
  {
    if |parts| > 1 && i > 0 {
      JoinCovers(parts[1..], sep, i - 1);
    }
  }

  function HexDigit(d: nat): char
    requires d < 16
  {
    "0123456789abcdef"[d]
  }

  /** The JSON text of one character inside a string literal. */
  function EscapeChar(c: char): string {
    if c == '"' then "\\\""
    else if c == '\\' then "\\\\"
    else if c == '\U{8}' then "\\b"
    else if c == '\U{C}' then "\\f"
    else if c == '\n' then "\\n"
    else if c == '\r' then "\\r"
    else if c == '\t' then "\\t"
    else if (c as int) < 0x20 then "\\u00" + [HexDigit((c as int) / 16), HexDigit((c as int) % 16)]
    else [c]
  }

  function Escape(s: string): string {
    if |s| == 0 then "" else EscapeChar(s[0]) + Escape(s[1..])
  }

  function Quote(s: string): string {
    "\"" + Escape(s) + "\""
  }

  /** `JSON.stringify(j)`: members are written in own-property order. */
  function Stringify(j: Json): string {
    match j
    case JNull => "null"
    case JBool(b) => if b then "true" else "false"
    case JNum(n) => IntToString(n)
    case JStr(s) => Quote(s)
    case JArr(items) =>
      "[" + Join(seq(|items|, i requires 0 <= i < |items| => Stringify(items[i])), ",") + "]"
    case JObj(fields) =>
      var entries := JsEntries(fields);
      assert forall i :: 0 <= i < |entries| ==> entries[i] in multiset(fields);
      "{" + Join(seq(|entries|, i requires 0 <= i < |entries| =>
        Quote(entries[i].0) + ":" + Stringify(entries[i].1)), ",") + "}"
  }

  // ---------------------------------------------------------------------------
  // Size, the measure that bounds the viewer's walks over a value.

  /** The number of JSON values in `j`, itself included. */
  function Size(j: Json): (n: nat)
    ensures n >= 1
    decreases j, 1
  {
    1 + if j.JArr? || j.JObj? then ItemsSize(j, 0) else 0
  }

  function Width(j: Json): nat {
    if j.JArr? then |j.items| else if j.JObj? then |j.fields| else 0
  }

  /** The sizes of the elements (or member values) of `j` from index `from` on. */
  function ItemsSize(j: Json, from: nat): nat
    requires j.JArr? || j.JObj?
    decreases j, 0, Width(j) - from
  {
    if from >= Width(j) then 0
    else if j.JArr? then Size(j.items[from]) + ItemsSize(j, from + 1)
    else Size(j.fields[from].1) + ItemsSize(j, from + 1)
  }

  lemma {:induction false} ItemsSizeCovers(j: Json, from: nat, i: nat)
    requires j.JArr? || j.JObj?
    requires from <= i < Width(j)
    ensures j.JArr? ==> Size(j.items[i]) <= ItemsSize(j, from)
    ensures j.JObj? ==> Size(j.fields[i].1) <= ItemsSize(j, from)
    decreases i - from
  {
    if from < i {
      ItemsSizeCovers(j, from + 1, i);
    }
  }

  lemma ElementSmaller(items: seq<Json>, i: nat)
    requires i < |items|
    ensures Size(items[i]) < Size(JArr(items))
  {
    ItemsSizeCovers(JArr(items), 0, i);
  }

  /** A member is smaller than the object holding it. */
  lemma MemberSmaller(j: Json, k: string)
    requires Member(j, k).Some?
    ensures Size(Member(j, k).value) < Size(j)
  {
    var v := Member(j, k).value;
    assert (k, v) in j.fields;
    var i :| 0 <= i < |j.fields| && j.fields[i] == (k, v);
    ItemsSizeCovers(j, 0, i);
  }

  /** The JSON text of an element is strictly shorter than that of its array. */
  lemma ElementTextShorter(items: seq<Json>, i: nat)
    requires i < |items|
    ensures |Stringify(items[i])| < |Stringify(JArr(items))|
  {
    var parts := seq(|items|, k requires 0 <= k < |items| => Stringify(items[k]));
    JoinCovers(parts, ",", i);
  }

  /** The JSON text of a member is strictly shorter than that of its object. */
  lemma MemberTextShorter(j: Json, k: string)
    requires Member(j, k).Some?
    ensures |Stringify(Member(j, k).value)| < |Stringify(j)|
  {
    var v := Member(j, k).value;
    var entries := JsEntries(j.fields);
    assert (k, v) in multiset(entries);
    var i :| 0 <= i < |entries| && entries[i] == (k, v);
    var parts := seq(|entries|, n requires 0 <= n < |entries| => Quote(entries[n].0) + ":" + Stringify(entries[n].1));
    JoinCovers(parts, ",", i);
  }

  /** The JSON text of an object opens with a brace. */
  lemma ObjectTextOpensWithBrace(j: Json)
    requires j.JObj?
    ensures |Stringify(j)| > 0 && Stringify(j)[0] == '{'
  {
  }
}
