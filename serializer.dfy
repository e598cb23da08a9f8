/**
 * `Tracer.serialize`: one runtime value to its JSON shape. Each recursive call
 * receives its own copy of the `seen` set, which a pure function gets for free
 * by passing the set as a value: identities are tracked along one path from the
 * root only.
 */
module Serializer {
  import opened Common
  import opened Json
  import opened PyHeap

  /** Deeper than this, any value becomes "...". */
  const MaxDepth: nat := 10

  function Budget(depth: nat): nat {
    if depth > MaxDepth then 0 else MaxDepth + 1 - depth
  }

  /** The back-reference written when an identity repeats along the current path. */
  function Cyclic(id: ObjId): Json {
    JObj([("__type__", JStr("cyclic")), ("id", JNum(id)), ("val", JStr("⟳"))])
  }

  /** What serialising one value yields when converting it raised `message`. */
  function ErrorText(message: string): Json {
    JStr("<Error: " + message + ">")
  }

  function Primitive(v: PyVal): Json
    requires !v.Ref?
  {
    match v
    case PNone => JNull
    case PBool(b) => JBool(b)
    case PInt(i) => JNum(i)
    case PStr(s) => JStr(s)
  }

  function Tagged(tag: string, items: seq<Json>): Json {
    JObj([("__type__", JStr(tag)), ("items", JArr(items))])
  }

  function ObjectJson(id: ObjId, className: string, data: Fields): Json {
    JObj([("__type__", JStr("object")), ("id", JNum(id)), ("class", JStr(className)), ("data", JObj(data))])
  }

  function Serialize(h: Heap, v: PyVal, depth: nat, seen: set<ObjId>): (r: Json)
    requires Closed(h) && Defined(h, v)
    ensures depth > MaxDepth ==> r == JStr("...")
    ensures depth <= MaxDepth && !v.Ref? ==> r == Primitive(v)
    ensures depth <= MaxDepth && v.Ref? && v.id in seen ==> r == Cyclic(v.id)
    decreases Budget(depth), 2, 0
  {
    if depth > MaxDepth then JStr("...")
    else if !v.Ref? then Primitive(v)
    else if v.id in seen then Cyclic(v.id)
    else SerializeObject(h, v.id, depth, seen + {v.id})
  }

  /** The branches after `seen.add(id)`; `seen` already holds `id`. */
  function SerializeObject(h: Heap, id: ObjId, depth: nat, seen: set<ObjId>): (r: Json)
    requires Closed(h) && id in h && depth <= MaxDepth
    ensures r.JArr? <==> h[id].OList?
    ensures r.JArr? ==> |r.items| == |h[id].items|
    ensures r.JStr? ==> h[id].ODict? || h[id].OOpaque?
    ensures r.JObj? || r.JArr? || r.JStr?
    decreases Budget(depth), 1, 0
  {
    var o := h[id];
    assert forall i :: 0 <= i < |Children(o)| ==> Defined(h, Children(o)[i]);
    match o
    case OTracked(items, listId) =>
      assert Children(o) == items;
      JObj([("__type__", JStr("list")), ("id", JStr(listId)),
            ("items", JArr(SerializeAll(h, items, depth, seen)))])
    case OList(items, _) =>
      assert Children(o) == items;
      JArr(SerializeAll(h, items, depth, seen))
    case OTuple(items, _) =>
      assert Children(o) == items;
      Tagged("tuple", SerializeAll(h, items, depth, seen))
    case OSet(items, _) =>
      assert Children(o) == items;
      Tagged("set", SerializeAll(h, items, depth, seen))
    case ODeque(items, _) =>
      assert Children(o) == items;
      Tagged("deque", SerializeAll(h, items, depth, seen))
    case ODict(entries, _) =>
      assert forall i :: 0 <= i < |entries| ==> Children(o)[i] == entries[i].1;
      (match SerializeEntries(h, entries, depth, seen, [])
       case Ok(fields) => JObj(fields)
       case Err(message) => ErrorText(message))
    case OObject(className, _, attrs) =>
      assert forall i :: 0 <= i < |attrs| ==> Children(o)[i] == attrs[i].1;
      ObjectJson(id, className, SerializeAttrs(h, attrs, depth, seen))
    case OOpaque(_, text) =>
      match text
      case Ok(s) => JStr(s)
      case Err(message) => ErrorText(message)
  }

  /**
   * `[self.serialize(x, depth + 1, seen.copy()) for x in items]`: every item is
   * judged one level down against the container's own path. At the depth cap
   * every item is "..."; below it primitives pass through and an item already
   * on the path becomes its back-reference.
   */
  function SerializeAll(h: Heap, items: seq<PyVal>, depth: nat, seen: set<ObjId>): (r: seq<Json>)
    requires Closed(h) && depth <= MaxDepth
    requires forall i :: 0 <= i < |items| ==> Defined(h, items[i])
    ensures |r| == |items|
    ensures forall i :: 0 <= i < |items| ==> r[i] == Serialize(h, items[i], depth + 1, seen)
    ensures depth == MaxDepth ==> forall i :: 0 <= i < |r| ==> r[i] == JStr("...")
    ensures depth < MaxDepth ==> forall i :: 0 <= i < |items| && !items[i].Ref? ==> r[i] == Primitive(items[i])
    ensures depth < MaxDepth ==> forall i :: 0 <= i < |items| && items[i].Ref? && items[i].id in seen ==>
              r[i] == Cyclic(items[i].id)
    decreases Budget(depth), 0, 0
  {
    seq(|items|, i requires 0 <= i < |items| => Serialize(h, items[i], depth + 1, seen))
  }

  /**
   * `{str(k): self.serialize(v, depth + 1, seen.copy()) for k, v in entries}`,
   * accumulated into `acc`; the first `str(k)` that raises aborts the whole dict.
   */
  function SerializeEntries(h: Heap, entries: seq<(Result<string, string>, PyVal)>, depth: nat,
                            seen: set<ObjId>, acc: Fields): Result<Fields, string>
    requires Closed(h) && depth <= MaxDepth
    requires forall i :: 0 <= i < |entries| ==> Defined(h, entries[i].1)
    decreases Budget(depth), 0, |entries|
  {
    if |entries| == 0 then Ok(acc)
    else
      match entries[0].0
      case Err(message) => Err(message)
      case Ok(key) =>
        SerializeEntries(h, entries[1..], depth, seen,
                         Put(acc, key, Serialize(h, entries[0].1, depth + 1, seen)))
  }

  /** The instance dictionary without its `__`-prefixed keys, each value serialised. */
  function SerializeAttrs(h: Heap, attrs: seq<(string, PyVal)>, depth: nat, seen: set<ObjId>): (r: Fields)
    requires Closed(h) && depth <= MaxDepth
    requires forall i :: 0 <= i < |attrs| ==> Defined(h, attrs[i].1)
    decreases Budget(depth), 0, |attrs|
  {
    if |attrs| == 0 then []
    else
      var rest := SerializeAttrs(h, attrs[1..], depth, seen);
      if StartsWith(attrs[0].0, "__") then rest
      else [(attrs[0].0, Serialize(h, attrs[0].1, depth + 1, seen))] + rest
  }

  /** `self.serialize(v)` as the snapshot calls it: depth 0, nothing seen. */
  function SerializeRoot(h: Heap, v: PyVal): Json
    requires Closed(h) && Defined(h, v)
  {
    Serialize(h, v, 0, {})
  }

  // ---------------------------------------------------------------------------
  // The members of the shapes above.

  lemma ObjectJsonMembers(id: ObjId, className: string, data: Fields)
    ensures var r := ObjectJson(id, className, data);
            && Tag(r) == Some("object") && Member(r, "id") == Some(JNum(id))
            && Member(r, "class") == Some(JStr(className)) && Member(r, "data") == Some(JObj(data))
  {
    ObjectJsonTag(id, className, data);
    ObjectJsonId(id, className, data);
    ObjectJsonClass(id, className, data);
    ObjectJsonData(id, className, data);
  }

  lemma ObjectJsonTag(id: ObjId, className: string, data: Fields)
    ensures Tag(ObjectJson(id, className, data)) == Some("object")
  {
    LookupAt(ObjectJson(id, className, data).fields, 0);
  }

  lemma ObjectJsonId(id: ObjId, className: string, data: Fields)
    ensures Member(ObjectJson(id, className, data), "id") == Some(JNum(id))
  {
    assert "__type__" != "id";
    LookupAt(ObjectJson(id, className, data).fields, 1);
  }

  lemma ObjectJsonClass(id: ObjId, className: string, data: Fields)
    ensures Member(ObjectJson(id, className, data), "class") == Some(JStr(className))
  {
    assert "__type__" != "class" && "id" != "class";
    LookupAt(ObjectJson(id, className, data).fields, 2);
  }

  lemma ObjectJsonData(id: ObjId, className: string, data: Fields)
    ensures Member(ObjectJson(id, className, data), "data") == Some(JObj(data))
  {
    assert "__type__" != "data" && "id" != "data" && "class" != "data";
    LookupAt(ObjectJson(id, className, data).fields, 3);
  }

  lemma TaggedMembers(tag: string, items: seq<Json>)
    ensures Tag(Tagged(tag, items)) == Some(tag) && Member(Tagged(tag, items), "items") == Some(JArr(items))
  {
    var fs := Tagged(tag, items).fields;
    assert "__type__" != "items";
    LookupAt(fs, 0);
    LookupAt(fs, 1);
  }

  lemma TrackedMembers(listId: string, items: seq<Json>)
    ensures var r := JObj([("__type__", JStr("list")), ("id", JStr(listId)), ("items", JArr(items))]);
            && Tag(r) == Some("list") && Member(r, "id") == Some(JStr(listId))
            && Member(r, "items") == Some(JArr(items))
  {
    var fs := [("__type__", JStr("list")), ("id", JStr(listId)), ("items", JArr(items))];
    assert "__type__" != "id" && "__type__" != "items" && "id" != "items";
    LookupAt(fs, 0);
    LookupAt(fs, 1);
    LookupAt(fs, 2);
  }

  // ---------------------------------------------------------------------------
  // Properties.

  /** The keys an instance dictionary keeps once `__`-prefixed ones are dropped. */
  function PublicKeys(attrs: seq<(string, PyVal)>): seq<string> {
    if |attrs| == 0 then []
    else if StartsWith(attrs[0].0, "__") then PublicKeys(attrs[1..])
    else [attrs[0].0] + PublicKeys(attrs[1..])
  }

  /** `data` holds exactly the public attributes, in `__dict__` order, each serialised one level deeper. */
  lemma {:induction false} AttrsArePublicOnes(h: Heap, attrs: seq<(string, PyVal)>, depth: nat, seen: set<ObjId>)
    requires Closed(h) && depth <= MaxDepth
    requires forall i :: 0 <= i < |attrs| ==> Defined(h, attrs[i].1)
    ensures KeysOf(SerializeAttrs(h, attrs, depth, seen)) == PublicKeys(attrs)
    ensures forall k, v :: (k, v) in attrs && !StartsWith(k, "__") ==>
              (k, Serialize(h, v, depth + 1, seen)) in SerializeAttrs(h, attrs, depth, seen)
  {
    if |attrs| > 0 {
      AttrsArePublicOnes(h, attrs[1..], depth, seen);
      forall k, v | (k, v) in attrs && !StartsWith(k, "__")
        ensures (k, Serialize(h, v, depth + 1, seen)) in SerializeAttrs(h, attrs, depth, seen)
      {
        if (k, v) != attrs[0] {
          assert (k, v) in attrs[1..];
        }
      }
    }
  }

  /** The message of the first dictionary key whose `str()` raised, if any. */
  function FirstKeyError(entries: seq<(Result<string, string>, PyVal)>): Option<string> {
    if |entries| == 0 then None
    else if entries[0].0.Err? then Some(entries[0].0.error)
    else FirstKeyError(entries[1..])
  }

  /** The position of the last entry whose key text is `k` (the one a dict comprehension keeps), or -1. */
  function LastIndexFor(entries: seq<(Result<string, string>, PyVal)>, k: string): (r: int)
    ensures -1 <= r < |entries|
    ensures r >= 0 ==> entries[r].0 == Ok(k)
    ensures forall j :: r < j < |entries| ==> entries[j].0 != Ok(k)
  {
    if |entries| == 0 then -1
    else if entries[|entries| - 1].0 == Ok(k) then |entries| - 1
    else LastIndexFor(entries[..|entries| - 1], k)
  }

  lemma {:induction false} LastIndexSplit(entries: seq<(Result<string, string>, PyVal)>, k: string)
    requires |entries| > 0
    ensures LastIndexFor(entries, k) ==
      (if LastIndexFor(entries[1..], k) >= 0 then LastIndexFor(entries[1..], k) + 1
       else if entries[0].0 == Ok(k) then 0 else -1)
  {
    var r := LastIndexFor(entries, k);
    var r' := LastIndexFor(entries[1..], k);
    if r' >= 0 {
      assert entries[r' + 1] == entries[1..][r'];
    } else if entries[0].0 == Ok(k) {
      assert forall j :: 0 < j < |entries| ==> entries[j] == entries[1..][j - 1];
    } else {
      assert forall j :: 0 < j < |entries| ==> entries[j] == entries[1..][j - 1];
    }
    // The three characterising ensures of LastIndexFor pin r down.
    LastIndexUnique(entries, k, r, if r' >= 0 then r' + 1 else if entries[0].0 == Ok(k) then 0 else -1);
  }

  lemma LastIndexUnique(entries: seq<(Result<string, string>, PyVal)>, k: string, a: int, b: int)
    requires -1 <= a < |entries| && -1 <= b < |entries|
    requires a >= 0 ==> entries[a].0 == Ok(k)
    requires b >= 0 ==> entries[b].0 == Ok(k)
    requires forall j :: a < j < |entries| ==> entries[j].0 != Ok(k)
    requires forall j :: b < j < |entries| ==> entries[j].0 != Ok(k)
    ensures a == b
  {
  }

  /**
   * A dict serialises to an error text exactly when some `str(key)` raises, and
   * then to the first such message; otherwise every key text maps to the
   * serialisation of the last value stored under it, as `{str(k): ...}` builds it.
   */
  lemma EntriesOutcome(h: Heap, entries: seq<(Result<string, string>, PyVal)>, depth: nat,
                        seen: set<ObjId>, acc: Fields)
    requires Closed(h) && depth <= MaxDepth
    requires forall i :: 0 <= i < |entries| ==> Defined(h, entries[i].1)
    ensures FirstKeyError(entries).Some? ==>
              SerializeEntries(h, entries, depth, seen, acc) == Err(FirstKeyError(entries).value)
    ensures FirstKeyError(entries).None? ==>
              && SerializeEntries(h, entries, depth, seen, acc).Ok?
              && forall k :: Lookup(SerializeEntries(h, entries, depth, seen, acc).value, k) ==
                   var j := LastIndexFor(entries, k);
                   if j >= 0 then Some(Serialize(h, entries[j].1, depth + 1, seen)) else Lookup(acc, k)
  {
    EntriesError(h, entries, depth, seen, acc);
    if FirstKeyError(entries).None? {
      forall k
        ensures Lookup(SerializeEntries(h, entries, depth, seen, acc).value, k) ==
                var j := LastIndexFor(entries, k);
                if j >= 0 then Some(Serialize(h, entries[j].1, depth + 1, seen)) else Lookup(acc, k)
      {
        EntriesLookup(h, entries, depth, seen, acc, k);
      }
    }
  }

  lemma {:induction false} EntriesError(h: Heap, entries: seq<(Result<string, string>, PyVal)>, depth: nat,
                                        seen: set<ObjId>, acc: Fields)
    requires Closed(h) && depth <= MaxDepth
    requires forall i :: 0 <= i < |entries| ==> Defined(h, entries[i].1)
    ensures FirstKeyError(entries).Some? <==> SerializeEntries(h, entries, depth, seen, acc).Err?
    ensures FirstKeyError(entries).Some? ==>
              SerializeEntries(h, entries, depth, seen, acc) == Err(FirstKeyError(entries).value)
    decreases |entries|
  {
    if |entries| > 0 && entries[0].0.Ok? {
      var acc' := Put(acc, entries[0].0.value, Serialize(h, entries[0].1, depth + 1, seen));
      EntriesError(h, entries[1..], depth, seen, acc');
      EntriesUnfold(h, entries, depth, seen, acc);
    }
  }

  lemma {:induction false} EntriesLookup(h: Heap, entries: seq<(Result<string, string>, PyVal)>, depth: nat,
                                         seen: set<ObjId>, acc: Fields, k: string)
    requires Closed(h) && depth <= MaxDepth
    requires forall i :: 0 <= i < |entries| ==> Defined(h, entries[i].1)
    requires SerializeEntries(h, entries, depth, seen, acc).Ok?
    ensures Lookup(SerializeEntries(h, entries, depth, seen, acc).value, k) ==
              var j := LastIndexFor(entries, k);
              if j >= 0 then Some(Serialize(h, entries[j].1, depth + 1, seen)) else Lookup(acc, k)
    decreases |entries|
  {
    if |entries| > 0 {
      assert entries[0].0.Ok?;
      var acc' := Put(acc, entries[0].0.value, Serialize(h, entries[0].1, depth + 1, seen));
      EntriesUnfold(h, entries, depth, seen, acc);
      EntriesLookup(h, entries[1..], depth, seen, acc', k);
      EntriesLookupStep(h, entries, depth, seen, acc, k);
    }
  }

  /** One entry: where the last entry for `k` lies, given where it lies in the rest. */
  lemma EntriesLookupStep(h: Heap, entries: seq<(Result<string, string>, PyVal)>, depth: nat,
                          seen: set<ObjId>, acc: Fields, k: string)
    requires Closed(h) && depth <= MaxDepth
    requires forall i :: 0 <= i < |entries| ==> Defined(h, entries[i].1)
    requires |entries| > 0 && entries[0].0.Ok?
    ensures var acc' := Put(acc, entries[0].0.value, Serialize(h, entries[0].1, depth + 1, seen));
            var j' := LastIndexFor(entries[1..], k);
            var j := LastIndexFor(entries, k);
            (if j' >= 0 then Some(Serialize(h, entries[1..][j'].1, depth + 1, seen)) else Lookup(acc', k)) ==
            (if j >= 0 then Some(Serialize(h, entries[j].1, depth + 1, seen)) else Lookup(acc, k))
  {
    LastIndexSplit(entries, k);
    var j' := LastIndexFor(entries[1..], k);
    if j' >= 0 {
      assert entries[j' + 1] == entries[1..][j'];
    }
  }

  lemma EntriesUnfold(h: Heap, entries: seq<(Result<string, string>, PyVal)>, depth: nat,
                      seen: set<ObjId>, acc: Fields)
    requires Closed(h) && depth <= MaxDepth
    requires forall i :: 0 <= i < |entries| ==> Defined(h, entries[i].1)
    requires |entries| > 0 && entries[0].0.Ok?
    ensures FirstKeyError(entries) == FirstKeyError(entries[1..])
    ensures SerializeEntries(h, entries, depth, seen, acc) ==
            SerializeEntries(h, entries[1..], depth, seen, Put(acc, entries[0].0.value, Serialize(h, entries[0].1, depth + 1, seen)))
  {
  }

  /** The number of `cyclic` markers anywhere inside a JSON value. */
  function CountCyclic(j: Json): nat
    decreases j, 1
  {
    match j
    case JArr(_) => CountFrom(j, 0)
    case JObj(_) => (if HasTag(j, "cyclic") then 1 else 0) + CountFrom(j, 0)
    case _ => 0
  }

  /** The markers inside the elements (or property values) of `j` from position `from` on. */
  function CountFrom(j: Json, from: nat): nat
    decreases j, 0, (match j case JArr(items) => |items| case JObj(fields) => |fields| case _ => 0) - from
  {
    match j
    case JArr(items) => if from < |items| then CountCyclic(items[from]) + CountFrom(j, from + 1) else 0
    case JObj(fields) => if from < |fields| then CountCyclic(fields[from].1) + CountFrom(j, from + 1) else 0
    case _ => 0
  }

  lemma CyclicCountsOnce(x: ObjId)
    ensures CountCyclic(Cyclic(x)) == 1
  {
    var r := Cyclic(x);
    assert HasTag(r, "cyclic");
    assert CountFrom(r, 3) == 0;
    assert CountFrom(r, 2) == 0;
    assert CountFrom(r, 1) == 0;
    assert CountFrom(r, 0) == 0;
  }

  /** The markers inside an instance are the ones inside its attribute values. */
  lemma CountObjectJson(id: ObjId, className: string, data: Fields)
    ensures CountCyclic(ObjectJson(id, className, data)) == CountCyclic(JObj(data))
  {
    var r := ObjectJson(id, className, data);
    ObjectJsonTag(id, className, data);
    assert !HasTag(r, "cyclic");
    assert CountFrom(r, 4) == 0;
    CountFromStep(r, 3);
    CountFromStep(r, 2);
    CountFromStep(r, 1);
    CountFromStep(r, 0);
  }

  lemma CountFromStep(j: Json, from: nat)
    requires j.JObj? && from < |j.fields|
    ensures CountFrom(j, from) == CountCyclic(j.fields[from].1) + CountFrom(j, from + 1)
  {
  }

  /** The identities of the first `k` members of `ring`: the path from the root down to member `k`. */
  function PathSet(ring: seq<ObjId>, k: nat): set<ObjId>
    requires k <= |ring|
  {
    if k == 0 then {} else PathSet(ring, k - 1) + {ring[k - 1]}
  }

  lemma {:induction false} PathSetMembers(ring: seq<ObjId>, k: nat, x: ObjId)
    requires k <= |ring|
    ensures x in PathSet(ring, k) <==> x in ring[..k]
  {
    if k > 0 {
      PathSetMembers(ring, k - 1, x);
      assert ring[..k] == ring[..k - 1] + [ring[k - 1]];
    }
  }

  /** No attribute holds a reference: every value is a primitive. */
  predicate RefFree(attrs: seq<(string, PyVal)>) {
    forall k :: 0 <= k < |attrs| ==> !attrs[k].1.Ref?
  }

  /** Attribute `j` is `next`, naming `succ`, and every other attribute holds a primitive. */
  predicate NextLinkAt(attrs: seq<(string, PyVal)>, j: nat, succ: ObjId) {
    j < |attrs| && attrs[j] == ("next", Ref(succ)) && RefFree(attrs[..j]) && RefFree(attrs[j + 1..])
  }

  /** Some attribute is `next`, naming `succ`, and all the others hold primitives. */
  predicate HasNextLink(attrs: seq<(string, PyVal)>, succ: ObjId) {
    exists j :: 0 <= j < |attrs| && attrs[j] == ("next", Ref(succ)) && RefFree(attrs[..j]) && RefFree(attrs[j + 1..])
  }

  /**
   * Member `i` of a ring is an instance whose `next` attribute names member
   * `i + 1` (the last names the first); its other attributes, such as a `val`,
   * hold primitives.
   */
  predicate RingLink(h: Heap, ring: seq<ObjId>, i: nat)
    requires i < |ring|
  {
    && ring[i] in h
    && h[ring[i]].OObject?
    && HasNextLink(h[ring[i]].attrs, ring[(i + 1) % |ring|])
  }

  /** `ring` lists distinct objects linked in a cycle through their `next` attribute. */
  predicate IsRing(h: Heap, ring: seq<ObjId>) {
    && |ring| > 0
    && Distinct(ring)
    && (forall i :: 0 <= i < |ring| ==> ring[i] in h)
    && (forall i: nat :: i < |ring| ==> RingLink(h, ring, i))
  }

  /**
   * Serialising ring member `k` at depth `k` with members `0..k` on the path:
   * the value holds no marker when the depth cap comes first, and one marker
   * (at member `|ring|`, which is member 0 again) otherwise.
   */
  lemma {:induction false} RingFrom(h: Heap, ring: seq<ObjId>, k: nat)
    requires Closed(h) && IsRing(h, ring) && k <= |ring| && k <= MaxDepth + 1
    ensures CountCyclic(Serialize(h, Ref(ring[k % |ring|]), k, PathSet(ring, k))) ==
            if |ring| <= MaxDepth then 1 else 0
    decreases |ring| - k
  {
    var n := |ring|;
    if k == MaxDepth + 1 {
    } else if k == n {
      PathSetMembers(ring, k, ring[0]);
      assert ring[k % n] == ring[0];
      CyclicCountsOnce(ring[0]);
    } else {
      assert k % n == k;
      RingFrom(h, ring, k + 1);
      RingMemberCount(h, ring, k);
    }
  }

  /** Member `k` of a ring, not yet on the path, holds exactly the markers of its successor one level down. */
  lemma RingMemberCount(h: Heap, ring: seq<ObjId>, k: nat)
    requires Closed(h) && IsRing(h, ring) && k < |ring| && k <= MaxDepth
    ensures CountCyclic(Serialize(h, Ref(ring[k]), k, PathSet(ring, k))) ==
            CountCyclic(Serialize(h, Ref(ring[(k + 1) % |ring|]), k + 1, PathSet(ring, k + 1)))
  {
    var id, succ := ring[k], ring[(k + 1) % |ring|];
    var seen := PathSet(ring, k + 1);
    assert RingLink(h, ring, k);
    PathSetMembers(ring, k, id);
    assert seen == PathSet(ring, k) + {id};
    assert Serialize(h, Ref(id), k, PathSet(ring, k)) == SerializeObject(h, id, k, seen);
    ObjectCase(h, id, k, seen);
    var attrs := h[id].attrs;
    var data := SerializeAttrs(h, attrs, k, seen);
    CountObjectJson(id, h[id].className, data);
    AttrsCount(h, attrs, k, seen);
    var j :| 0 <= j < |attrs| && attrs[j] == ("next", Ref(succ)) && RefFree(attrs[..j]) && RefFree(attrs[j + 1..]);
    NextLinkCount(h, attrs, j, succ, k, seen);
  }

  /** The markers inside the values of `fields`. */
  function SumCount(fields: Fields): nat {
    if |fields| == 0 then 0 else CountCyclic(fields[0].1) + SumCount(fields[1..])
  }

  lemma {:induction false} CountFromSum(j: Json, from: nat)
    requires j.JObj? && from <= |j.fields|
    ensures CountFrom(j, from) == SumCount(j.fields[from..])
    decreases |j.fields| - from
  {
    if from < |j.fields| {
      CountFromSum(j, from + 1);
      assert j.fields[from..][1..] == j.fields[from + 1..];
    }
  }

  lemma {:induction false} SumCountAppend(a: Fields, b: Fields)
    ensures SumCount(a + b) == SumCount(a) + SumCount(b)
  {
    if |a| > 0 {
      SumCountAppend(a[1..], b);
      assert (a + b)[1..] == a[1..] + b;
    } else {
      assert a + b == b;
    }
  }

  lemma {:induction false} DunderNotPublic(attrs: seq<(string, PyVal)>, k: string)
    requires StartsWith(k, "__")
    ensures k !in PublicKeys(attrs)
  {
    if |attrs| > 0 {
      DunderNotPublic(attrs[1..], k);
    }
  }

  /** Instance data has no `__type__` member, so its markers are those of its values. */
  lemma AttrsCount(h: Heap, attrs: seq<(string, PyVal)>, depth: nat, seen: set<ObjId>)
    requires Closed(h) && depth <= MaxDepth
    requires forall i :: 0 <= i < |attrs| ==> Defined(h, attrs[i].1)
    ensures CountCyclic(JObj(SerializeAttrs(h, attrs, depth, seen))) == SumCount(SerializeAttrs(h, attrs, depth, seen))
  {
    var data := SerializeAttrs(h, attrs, depth, seen);
    AttrsArePublicOnes(h, attrs, depth, seen);
    assert "__type__"[..2] == "__";
    DunderNotPublic(attrs, "__type__");
    assert Lookup(data, "__type__") == None;
    CountFromSum(JObj(data), 0);
    assert data[0..] == data;
  }

  lemma {:induction false} AttrsAppend(h: Heap, a: seq<(string, PyVal)>, b: seq<(string, PyVal)>, depth: nat, seen: set<ObjId>)
    requires Closed(h) && depth <= MaxDepth
    requires forall i :: 0 <= i < |a| ==> Defined(h, a[i].1)
    requires forall i :: 0 <= i < |b| ==> Defined(h, b[i].1)
    ensures forall i :: 0 <= i < |a + b| ==> Defined(h, (a + b)[i].1)
    ensures SerializeAttrs(h, a + b, depth, seen) == SerializeAttrs(h, a, depth, seen) + SerializeAttrs(h, b, depth, seen)
  {
    if |a| > 0 {
      assert (a + b)[1..] == a[1..] + b;
      AttrsAppend(h, a[1..], b, depth, seen);
    } else {
      assert a + b == b;
    }
  }

  /** Attributes holding only primitives carry no marker. */
  lemma {:induction false} RefFreeNoMarkers(h: Heap, attrs: seq<(string, PyVal)>, depth: nat, seen: set<ObjId>)
    requires Closed(h) && depth <= MaxDepth && RefFree(attrs)
    ensures SumCount(SerializeAttrs(h, attrs, depth, seen)) == 0
  {
    if |attrs| > 0 {
      RefFreeNoMarkers(h, attrs[1..], depth, seen);
    }
  }

  /** The attributes of a ring member hold exactly the markers of its `next` value. */
  lemma NextLinkCount(h: Heap, attrs: seq<(string, PyVal)>, j: nat, succ: ObjId, depth: nat, seen: set<ObjId>)
    requires Closed(h) && depth <= MaxDepth && succ in h && NextLinkAt(attrs, j, succ)
    ensures forall i :: 0 <= i < |attrs| ==> Defined(h, attrs[i].1)
    ensures SumCount(SerializeAttrs(h, attrs, depth, seen)) == CountCyclic(Serialize(h, Ref(succ), depth + 1, seen))
  {
    var pre, mid, post := attrs[..j], [attrs[j]], attrs[j + 1..];
    assert attrs == pre + mid + post;
    AttrsAppend(h, pre, mid, depth, seen);
    AttrsAppend(h, pre + mid, post, depth, seen);
    RefFreeNoMarkers(h, pre, depth, seen);
    RefFreeNoMarkers(h, post, depth, seen);
    var child := Serialize(h, Ref(succ), depth + 1, seen);
    assert "next"[..2][0] == 'n';
    assert mid[1..] == [];
    assert SerializeAttrs(h, mid, depth, seen) == [("next", child)];
    SumCountAppend(SerializeAttrs(h, pre, depth, seen), [("next", child)]);
    SumCountAppend(SerializeAttrs(h, pre + mid, depth, seen), SerializeAttrs(h, post, depth, seen));
    assert SumCount([("next", child)]) == CountCyclic(child) + SumCount([]);
  }

  /** The instance branch of `serialize`. */
  lemma ObjectCase(h: Heap, id: ObjId, depth: nat, seen: set<ObjId>)
    requires Closed(h) && id in h && depth <= MaxDepth && h[id].OObject?
    ensures forall i :: 0 <= i < |h[id].attrs| ==> Defined(h, h[id].attrs[i].1)
    ensures SerializeObject(h, id, depth, seen) == ObjectJson(id, h[id].className, SerializeAttrs(h, h[id].attrs, depth, seen))
  {
    var o := h[id];
    assert forall i :: 0 <= i < |Children(o)| ==> Defined(h, Children(o)[i]);
    assert forall i :: 0 <= i < |o.attrs| ==> Children(o)[i] == o.attrs[i].1;
  }

  /**
   * A cycle of references no longer than the depth cap (a self-reference
   * included) serialises to a finite value with exactly one `cyclic` marker;
   * a longer cycle never reaches its back-reference, because the depth cap
   * turns the path into "..." first.
   */
  lemma RingCyclicMarkers(h: Heap, ring: seq<ObjId>)
    requires Closed(h) && IsRing(h, ring)
    ensures CountCyclic(SerializeRoot(h, Ref(ring[0]))) == if |ring| <= MaxDepth then 1 else 0
  {
    RingFrom(h, ring, 0);
  }

  /**
   * Identity tracking is per path: an object that is not on the current path is
   * expanded in full, however often it has been expanded on other paths.
   */
  lemma OffPathObjectIsExpanded(h: Heap, y: ObjId, depth: nat, seen: set<ObjId>)
    requires Closed(h) && y in h && h[y].OObject? && y !in seen && depth <= MaxDepth
    ensures Tag(Serialize(h, Ref(y), depth, seen)) == Some("object")
    ensures Member(Serialize(h, Ref(y), depth, seen), "id") == Some(JNum(y))
  {
    var o := h[y];
    assert forall i :: 0 <= i < |o.attrs| ==> Children(o)[i] == o.attrs[i].1;
    ObjectJsonMembers(y, o.className, SerializeAttrs(h, o.attrs, depth, seen + {y}));
  }

  /**
   * A node shared by two attributes of its parent (a DAG, not a cycle) is
   * expanded under both, to the same value.
   */
  lemma SharedChildExpandedTwice(h: Heap, x: ObjId, y: ObjId, a: string, b: string)
    requires Closed(h) && x in h && y in h && x != y && h[y].OObject?
    requires h[x].OObject? && h[x].attrs == [(a, Ref(y)), (b, Ref(y))]
    requires !StartsWith(a, "__") && !StartsWith(b, "__")
    ensures var data := SerializeAttrs(h, h[x].attrs, 0, {x});
            && SerializeRoot(h, Ref(x)) == ObjectJson(x, h[x].className, data)
            && data == [(a, Serialize(h, Ref(y), 1, {x})), (b, Serialize(h, Ref(y), 1, {x}))]
            && Tag(data[0].1) == Some("object") && Tag(data[1].1) == Some("object")
  {
    var attrs := h[x].attrs;
    assert Children(h[x])[0] == Ref(y);
    assert attrs[1..][1..] == [];
    var child := Serialize(h, Ref(y), 1, {x});
    assert SerializeAttrs(h, attrs[1..][1..], 0, {x}) == [];
    assert SerializeAttrs(h, attrs[1..], 0, {x}) == [(b, child)];
    assert SerializeAttrs(h, attrs, 0, {x}) == [(a, child), (b, child)];
    assert Serialize(h, Ref(x), 0, {}) == SerializeObject(h, x, 0, {} + {x});
    assert {} + {x} == {x};
    OffPathObjectIsExpanded(h, y, 1, {x});
  }

  /**
   * A value whose conversion raises degrades to its error text alone: the
   * enclosing list keeps its length and every other element.
   */
  lemma ErrorStaysLocal(h: Heap, x: ObjId, i: nat, d: ObjId)
    requires Closed(h) && x in h && d in h && x != d
    requires h[x].OList? && i < |h[x].items| && h[x].items[i] == Ref(d)
    requires h[d].ODict? && FirstKeyError(h[d].entries).Some?
    ensures var r := SerializeRoot(h, Ref(x));
            && r.JArr? && |r.items| == |h[x].items|
            && r.items[i] == ErrorText(FirstKeyError(h[d].entries).value)
            && forall j :: 0 <= j < |r.items| && j != i ==> r.items[j] == Serialize(h, Children(h[x])[j], 1, {x})
  {
    var entries := h[d].entries;
    assert Children(h[x]) == h[x].items;
    assert forall i :: 0 <= i < |entries| ==> Children(h[d])[i] == entries[i].1;
    var path := {x} + {d};
    EntriesOutcome(h, entries, 1, path, []);
    assert SerializeObject(h, d, 1, path) == ErrorText(FirstKeyError(entries).value);
    assert Serialize(h, Ref(d), 1, {x}) == SerializeObject(h, d, 1, path);
    assert {} + {x} == {x};
    assert Serialize(h, Ref(x), 0, {}) == SerializeObject(h, x, 0, {x});
    assert SerializeObject(h, x, 0, {x}) == JArr(SerializeAll(h, h[x].items, 0, {x}));
  }

  /**
   * Which JSON shape each kind of object gets, in the order of the
   * `isinstance` tests: a TrackedList is tagged 'list' with its `_id`
   * attribute (which a copy shares with its original), a plain list is an untagged array, tuples, sets and deques are
   * tagged, a dict is an object or its error text, an instance is tagged
   * 'object' with its identity as a number and its public attributes as data.
   */
  lemma ShapeByKind(h: Heap, y: ObjId, depth: nat, seen: set<ObjId>)
    requires Closed(h) && y in h && y !in seen && depth <= MaxDepth
    ensures var o, r := h[y], Serialize(h, Ref(y), depth, seen);
      && (o.OTracked? ==>
            Tag(r) == Some("list") && Member(r, "id") == Some(JStr(o.listId))
            && Member(r, "items") == Some(JArr(SerializeAll(h, Children(o), depth, seen + {y}))))
      && (o.OList? ==> r == JArr(SerializeAll(h, Children(o), depth, seen + {y})))
      && (o.OTuple? ==>
            Tag(r) == Some("tuple") && Member(r, "items") == Some(JArr(SerializeAll(h, Children(o), depth, seen + {y}))))
      && (o.OSet? ==>
            Tag(r) == Some("set") && Member(r, "items") == Some(JArr(SerializeAll(h, Children(o), depth, seen + {y}))))
      && (o.ODeque? ==>
            Tag(r) == Some("deque") && Member(r, "items") == Some(JArr(SerializeAll(h, Children(o), depth, seen + {y}))))
      && (o.ODict? && FirstKeyError(o.entries).Some? ==> r == ErrorText(FirstKeyError(o.entries).value))
      && (o.ODict? && FirstKeyError(o.entries).None? ==> r.JObj?)
      && (o.OObject? ==>
            Tag(r) == Some("object") && Member(r, "id") == Some(JNum(y))
            && Member(r, "class") == Some(JStr(o.className))
            && Member(r, "data").Some? && Member(r, "data").value.JObj?
            && KeysOf(Member(r, "data").value.fields) == PublicKeys(o.attrs))
      && (o.OOpaque? ==> r.JStr?)
  {
    var o := h[y];
    var seen' := seen + {y};
    assert Serialize(h, Ref(y), depth, seen) == SerializeObject(h, y, depth, seen');
    assert forall i :: 0 <= i < |Children(o)| ==> Defined(h, Children(o)[i]);
    match o
    case OTracked(items, listId) =>
      assert Children(o) == items;
      TrackedMembers(listId, SerializeAll(h, items, depth, seen'));
    case OTuple(items, _) =>
      assert Children(o) == items;
      TaggedMembers("tuple", SerializeAll(h, items, depth, seen'));
    case OSet(items, _) =>
      assert Children(o) == items;
      TaggedMembers("set", SerializeAll(h, items, depth, seen'));
    case ODeque(items, _) =>
      assert Children(o) == items;
      TaggedMembers("deque", SerializeAll(h, items, depth, seen'));
    case ODict(entries, _) =>
      assert forall i :: 0 <= i < |entries| ==> Children(o)[i] == entries[i].1;
      EntriesOutcome(h, entries, depth, seen', []);
    case OObject(className, _, attrs) =>
      assert forall i :: 0 <= i < |attrs| ==> Children(o)[i] == attrs[i].1;
      AttrsArePublicOnes(h, attrs, depth, seen');
      ObjectJsonMembers(y, className, SerializeAttrs(h, attrs, depth, seen'));
    case _ =>
  }

  /** A `TrackedList` at the root: the `list` tag and its items, each serialised one level down. */
  lemma TrackedShape(h: Heap, y: ObjId)
    requires Closed(h) && y in h && h[y].OTracked?
    ensures forall i :: 0 <= i < |h[y].items| ==> Defined(h, h[y].items[i])
    ensures var r := SerializeRoot(h, Ref(y));
            HasTag(r, "list") && Member(r, "items") == Some(JArr(SerializeAll(h, h[y].items, 0, {y})))
  {
    ShapeByKind(h, y, 0, {});
    assert Children(h[y]) == h[y].items;
    assert {} + {y} == {y};
  }
}
