/**
 * The part of a running Python program the tracer looks at: values, and a heap
 * of objects indexed by their `id()`.
 */
module PyHeap {
  import opened Common

  /** What `id(obj)` returns: an abstract object identity. */
  type ObjId = nat

  /**
   * A Python value as a variable or a container slot holds it. Primitives (the
   * types `serialize` passes through) are values; everything else is a reference
   * into the heap. Floats are not part of the model.
   */
  datatype PyVal =
    | PNone
    | PBool(b: bool)
    | PInt(i: int)
    | PStr(s: string)
    | Ref(id: ObjId)

  /** The objects the snapshot filter recognises as code rather than data. */
  datatype ObjKind = Instance | Module | Function | Method | Class

  /**
   * A heap object, classified by the first `isinstance` test of `serialize` it
   * passes. Containers list their elements in iteration order. For a dict the
   * key is represented by what `str(key)` gave: its text, or the message of the
   * exception it raised. An object with a `__dict__` lists that dict's items.
   * A container carries `type(obj).__name__`, which differs from the builtin's
   * name for a subclass (`defaultdict`, `Counter`, `OrderedDict`, a namedtuple).
   * A `TrackedList` carries its `_id` attribute: the text of the identity the
   * list had when `__init__` ran. `copy.copy` and `copy.deepcopy` rebuild a
   * list subclass without calling `__init__`, so a copy keeps the original's.
   */
  datatype PyObj =
    | OTracked(items: seq<PyVal>, listId: string)
    | OList(items: seq<PyVal>, className: string)
    | OTuple(items: seq<PyVal>, className: string)
    | OSet(items: seq<PyVal>, className: string)
    | ODeque(items: seq<PyVal>, className: string)
    | ODict(entries: seq<(Result<string, string>, PyVal)>, className: string)
    | OObject(className: string, kind: ObjKind, attrs: seq<(string, PyVal)>)
    | OOpaque(className: string, text: Result<string, string>)

  type Heap = map<ObjId, PyObj>

  /** The values an object refers to directly. */
  function Children(o: PyObj): seq<PyVal> {
    match o
    case OTracked(items, _) => items
    case OList(items, _) => items
    case OTuple(items, _) => items
    case OSet(items, _) => items
    case ODeque(items, _) => items
    case ODict(entries, _) => seq(|entries|, i requires 0 <= i < |entries| => entries[i].1)
    case OObject(_, _, attrs) => seq(|attrs|, i requires 0 <= i < |attrs| => attrs[i].1)
    case OOpaque(_, _) => []
  }

  predicate Defined(h: Heap, v: PyVal) {
    v.Ref? ==> v.id in h
  }

  /** No reference in the heap dangles, as in any live Python process. */
  predicate Closed(h: Heap) {
    forall id, i :: id in h && 0 <= i < |Children(h[id])| ==> Defined(h, Children(h[id])[i])
  }

  /** `type(v).__name__`, with a TrackedList reported as 'list'. */
  function TypeLabel(h: Heap, v: PyVal): string
    requires Defined(h, v)
  {
    match v
    case PNone => "NoneType"
    case PBool(_) => "bool"
    case PInt(_) => "int"
    case PStr(_) => "str"
    case Ref(id) => if h[id].OTracked? then "list" else h[id].className
  }

  /** Modules, functions, methods and classes: the snapshot skips locals bound to these. */
  predicate IsCode(h: Heap, v: PyVal)
    requires Defined(h, v)
  {
    v.Ref? && h[v.id].OObject? && h[v.id].kind != Instance
  }

  /** `isinstance(v, (list, TrackedList))` */
  predicate IsListLike(h: Heap, v: PyVal)
    requires Defined(h, v)
  {
    v.Ref? && (h[v.id].OTracked? || h[v.id].OList?)
  }
}
