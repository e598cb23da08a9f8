/**
 * The graph view of the visualiser: which variables get a panel, which badge
 * a panel wears, and which component draws it.
 */
module GraphView {
  import opened Common
  import opened Json
  import opened PyHeap
  import opened Serializer
  import opened Tracing
  import opened VariableOrder

  /** The member names whose presence in an object's `data` makes it a structure. */
  const StructureNames: seq<string> := ["next", "left", "right", "children", "neighbors", "adj", "edges"]
  /** The member names that make an object a graph. */
  const GraphNames: seq<string> := ["neighbors", "adj", "edges"]

  /**
   * `n1 in d || n2 in d || …`: `None` is the `TypeError` the `in` operator
   * throws when `d` is neither an object nor an array. The probed names are
   * plain words, so an array holds none of them.
   */
  function Probe(names: seq<string>, d: Json): (r: Option<bool>)
    ensures r.None? <==> !(d.JObj? || d.JArr?)
    ensures r == Some(true) <==> exists i :: 0 <= i < |names| && HasKey(d, names[i])
  {
    if d.JObj? || d.JArr? then Some(exists i :: 0 <= i < |names| && HasKey(d, names[i])) else None
  }

  /** `val.__type__ === 'object' && val.data`: the `data` member the structure tests probe. */
  function ObjectData(val: Json): (r: Option<Json>)
    ensures r.Some? ==> HasTag(val, "object") && Member(val, "data") == r && Truthy(r.value)
    ensures HasTag(val, "object") && Member(val, "data").Some? && Truthy(Member(val, "data").value) ==> r.Some?
  {
    if HasTag(val, "object") then
      match Member(val, "data")
      case Some(d) => if Truthy(d) then Some(d) else None
      case None => None
    else None
  }

  /** `typeof val === 'object' && !val.__type__` for a truthy value: an untagged object or an array. */
  predicate PlainObject(val: Json) {
    (val.JObj? || val.JArr?) && Untagged(val)
  }

  /**
   * The filter both passes of the graph view apply to a variable's value;
   * `None` is the `TypeError` of a structure test on a primitive `data`.
   */
  function GraphVisible(val: Json): (r: Option<bool>)
    ensures r == Some(true) ==> Truthy(val)
    ensures PlainObject(val) ==> r == Some(true)
    ensures r.None? ==> HasTag(val, "object")
  {
    if !Truthy(val) then Some(false)
    else if val.JArr? && |val.items| > 0 then Some(true)
    else if HasTag(val, "deque") || HasTag(val, "tuple") || HasTag(val, "set") then Some(true)
    else
      match ObjectData(val)
      case Some(d) =>
        (match Probe(StructureNames, d)
         case None => None
         case Some(true) => Some(true)
         case Some(false) => Some(PlainObject(val)))
      case None => Some(PlainObject(val))
  }

  /** `Object.values(val)`: the members of an object, in own-property order, or the elements of an array. */
  function ValuesOf(val: Json): seq<Json> {
    if val.JArr? then val.items
    else if val.JObj? then
      var entries := JsEntries(val.fields);
      seq(|entries|, i requires 0 <= i < |entries| => entries[i].1)
    else []
  }

  /** The badge next to a panel's name. */
  datatype Badge = NoBadge | GraphBadge | MapBadge

  /** `isGraph` and `isHashMap`, which never hold together. */
  function Classify(val: Json): (r: Option<Badge>)
    ensures r == Some(MapBadge) ==> PlainObject(val)
    ensures PlainObject(val) ==> r.Some? && r.value != NoBadge
    ensures r.None? ==> HasTag(val, "object")
    ensures !PlainObject(val) && !HasTag(val, "object") ==> r == Some(NoBadge)
  {
    var objectGraph :=
      match ObjectData(val)
      case Some(d) => Probe(GraphNames, d)
      case None => Some(false);
    if objectGraph.None? then None
    else if PlainObject(val) then
      var values := ValuesOf(val);
      if |values| > 0 && forall i :: 0 <= i < |values| ==> values[i].JArr? then Some(GraphBadge) else Some(MapBadge)
    else if objectGraph == Some(true) then Some(GraphBadge)
    else Some(NoBadge)
  }

  /** The component a panel renders. */
  datatype Panel =
    | ArrayPanel(items: seq<Json>, prevData: Option<seq<Json>>, isDeque: bool)
    | NetworkPanel(data: Json)
    | HashMapPanel(data: Json)
    | NodePanel(data: Json, title: string)
    | NoPreview

  /**
   * `val.items || []` for a deque; `None` when `items` is some other truthy
   * value, on which `GraphArray` fails.
   */
  function DequeItems(val: Json): Option<seq<Json>> {
    match Member(val, "items")
    case Some(JArr(xs)) => Some(xs)
    case Some(x) => if Truthy(x) then None else Some([])
    case None => Some([])
  }

  /** The previous deque's items, when the previous value was a deque holding an array. */
  function PrevDequeItems(prevVal: Option<Json>): Option<seq<Json>> {
    if prevVal.Some? && HasTag(prevVal.value, "deque") then
      match Member(prevVal.value, "items")
      case Some(JArr(xs)) => Some(xs)
      case _ => None
    else None
  }

  /** The chain of conditionals that picks the component for a panel named `name`. */
  function Dispatch(name: string, val: Json, prevVal: Option<Json>, badge: Badge): (r: Option<Panel>)
    ensures r.None? ==> HasTag(val, "deque")
    ensures val.JArr? ==> r.Some? && r.value.ArrayPanel? && r.value.items == val.items && !r.value.isDeque
    ensures r.Some? && r.value.NodePanel? ==> r.value.title == name && HasTag(val, "object")
    ensures r.Some? && (r.value.NetworkPanel? || r.value.HashMapPanel?) ==> r.value.data == val
  {
    if val.JArr? then
      Some(ArrayPanel(val.items, if prevVal.Some? && prevVal.value.JArr? then Some(prevVal.value.items) else None, false))
    else if HasTag(val, "deque") then
      match DequeItems(val)
      case Some(items) => Some(ArrayPanel(items, PrevDequeItems(prevVal), true))
      case None => None
    else if badge == GraphBadge then Some(NetworkPanel(val))
    else if badge == MapBadge then Some(HashMapPanel(val))
    else if HasTag(val, "object") then Some(NodePanel(val, name))
    else Some(NoPreview)
  }

  /** `step.variables[key]?.value`, `undefined` (here: null, just as falsy) for a missing key. */
  function ValueOf(vars: seq<(string, VariableValue)>, key: string): Json {
    match Lookup(vars, key)
    case Some(v) => v.value
    case None => JNull
  }

  /** The filter's verdict on each key's value: shown, hidden, or `None` when the test throws. */
  function Verdicts(vars: seq<(string, VariableValue)>, keys: seq<string>): (r: seq<Option<bool>>)
    ensures |r| == |keys| && forall i :: 0 <= i < |keys| ==> r[i] == GraphVisible(ValueOf(vars, keys[i]))
  {
    seq(|keys|, i requires 0 <= i < |keys| => GraphVisible(ValueOf(vars, keys[i])))
  }

  /** `keys.filter(...)` given the verdicts: the shown keys in order, or `None` when a test throws. */
  function Kept(keys: seq<string>, verdicts: seq<Option<bool>>): (r: Option<seq<string>>)
    requires |verdicts| == |keys|
    ensures r.Some? <==> forall i :: 0 <= i < |keys| ==> verdicts[i].Some?
    ensures r.Some? ==> forall k :: k in r.value <==> exists i :: 0 <= i < |keys| && keys[i] == k && verdicts[i] == Some(true)
  {
    if |keys| == 0 then Some([])
    else
      var rest := Kept(keys[1..], verdicts[1..]);
      assert forall i :: 1 <= i < |keys| ==> keys[i] == keys[1..][i - 1] && verdicts[i] == verdicts[1..][i - 1];
      match verdicts[0]
      case None => None
      case Some(shown) =>
        if rest.None? then None
        else
          assert forall k :: k in rest.value ==> exists i :: 0 <= i < |keys| && keys[i] == k && verdicts[i] == Some(true) by {
            forall k | k in rest.value
              ensures exists i :: 0 <= i < |keys| && keys[i] == k && verdicts[i] == Some(true)
            {
              var j :| 0 <= j < |keys| - 1 && keys[1..][j] == k && verdicts[1..][j] == Some(true);
              assert keys[j + 1] == k && verdicts[j + 1] == Some(true);
            }
          }
          Some(if shown then [keys[0]] + rest.value else rest.value)
  }

  /** The keys that pass the filter, in the order given. */
  function VisibleKeys(vars: seq<(string, VariableValue)>, keys: seq<string>): (r: Option<seq<string>>)
    ensures r.Some? ==> forall k :: k in r.value <==> k in keys && GraphVisible(ValueOf(vars, k)) == Some(true)
    ensures r.None? <==> exists i :: 0 <= i < |keys| && GraphVisible(ValueOf(vars, keys[i])).None?
  {
    Kept(keys, Verdicts(vars, keys))
  }

  /** One panel: the variable's name and type, its badge and its component. */
  datatype NamedPanel = NamedPanel(name: string, typ: string, badge: Badge, panel: Panel)

  /**
   * The variables pane in graph mode: "No local variables" for a step without
   * variables, a placeholder when no variable qualifies, the panels otherwise.
   */
  datatype GraphPane = NoLocalVariables | NothingToVisualize | Panels(panels: seq<NamedPanel>)

  function PanelFor(step: Step, prevStep: Option<Step>, name: string): Option<NamedPanel> {
    var val := ValueOf(step.variables, name);
    var prevVal :=
      if prevStep.Some? && Lookup(prevStep.value.variables, name).Some?
      then Some(Lookup(prevStep.value.variables, name).value.value) else None;
    var typ := match Lookup(step.variables, name) case Some(v) => v.typ case None => "";
    match Classify(val)
    case None => None
    case Some(badge) =>
      match Dispatch(name, val, prevVal, badge)
      case None => None
      case Some(panel) => Some(NamedPanel(name, typ, badge, panel))
  }

  function PanelsFor(step: Step, prevStep: Option<Step>, names: seq<string>): (r: Option<seq<NamedPanel>>)
    ensures r.Some? ==> |r.value| == |names| && forall i :: 0 <= i < |names| ==> r.value[i].name == names[i]
  {
    if |names| == 0 then Some([])
    else
      match PanelFor(step, prevStep, names[0])
      case None => None
      case Some(p) =>
        match PanelsFor(step, prevStep, names[1..])
        case None => None
        case Some(rest) => Some([p] + rest)
  }

  /** The graph view of `step` under the current variable order; `None` when rendering throws. */
  function GraphPaneFor(step: Step, prevStep: Option<Step>, order: seq<string>): Option<GraphPane> {
    var keys := SortedKeys(order, KeysOf(JsEntries(step.variables)));
    if |step.variables| == 0 then Some(NoLocalVariables)
    else
    match VisibleKeys(step.variables, keys)
    case None => None
    case Some(visible) =>
      if |visible| == 0 then Some(NothingToVisualize)
      else
        match PanelsFor(step, prevStep, visible)
        case None => None
        case Some(panels) => Some(Panels(panels))
  }

  // ---------------------------------------------------------------------------
  // Properties

  /** A value is dropped by the filter for exactly one reason: it throws only on a primitive `data`. */
  lemma FilterThrowsOnlyOnPrimitiveData(val: Json)
    ensures GraphVisible(val).None? <==>
              !(val.JArr? && |val.items| > 0)
              && !HasTag(val, "deque") && !HasTag(val, "tuple") && !HasTag(val, "set")
              && ObjectData(val).Some? && !(ObjectData(val).value.JObj? || ObjectData(val).value.JArr?)
  {
  }

  /** An object-tagged value with an object `data` is shown exactly when `data` has a structure name. */
  lemma ObjectShownIffStructureName(r: Json)
    requires HasTag(r, "object") && Member(r, "data").Some? && Member(r, "data").value.JObj?
    ensures GraphVisible(r) == Some(exists i :: 0 <= i < |StructureNames| && StructureNames[i] in KeysOf(Member(r, "data").value.fields))
  {
    assert !HasTag(r, "deque") && !HasTag(r, "tuple") && !HasTag(r, "set") && !PlainObject(r);
    var d := Member(r, "data").value;
    assert ObjectData(r) == Some(d);
  }

  /** An instance appears exactly when one of its public attributes has a structure name. */
  lemma InstanceShownIffStructureAttribute(h: Heap, y: ObjId)
    requires Closed(h) && y in h && h[y].OObject?
    ensures GraphVisible(SerializeRoot(h, Ref(y))) ==
              Some(exists i :: 0 <= i < |StructureNames| && StructureNames[i] in PublicKeys(h[y].attrs))
  {
    ShapeByKind(h, y, 0, {});
    ObjectShownIffStructureName(SerializeRoot(h, Ref(y)));
  }

  /** Tuples and sets pass the filter but no component draws them. */
  lemma TuplesAndSetsHaveNoPreview(name: string, val: Json, prevVal: Option<Json>)
    requires HasTag(val, "tuple") || HasTag(val, "set")
    ensures GraphVisible(val) == Some(true)
    ensures Classify(val) == Some(NoBadge)
    ensures Dispatch(name, val, prevVal, NoBadge) == Some(NoPreview)
  {
    assert !HasTag(val, "object") && !HasTag(val, "deque") && !Untagged(val);
    assert ObjectData(val).None? && !PlainObject(val);
  }

  /** An empty list is not caught by the length test but by the plain-object test, and is drawn as an empty array. */
  lemma EmptyListStillShown(name: string, prevVal: Option<Json>)
    ensures GraphVisible(JArr([])) == Some(true)
    ensures Classify(JArr([])) == Some(MapBadge)
    ensures Dispatch(name, JArr([]), prevVal, MapBadge).value.ArrayPanel?
  {
  }

  /** An untagged dict whose every value is a list is drawn as a graph, any other untagged dict as a hash map. */
  lemma DictOfListsIsGraph(fields: Fields)
    requires Member(JObj(fields), "__type__").None?
    ensures var values := ValuesOf(JObj(fields));
            Classify(JObj(fields)) ==
              if |values| > 0 && forall i :: 0 <= i < |values| ==> values[i].JArr? then Some(GraphBadge) else Some(MapBadge)
  {
  }

  /** The names of the panels, in order. */
  function PanelNames(panels: seq<NamedPanel>): (r: seq<string>)
    ensures |r| == |panels| && forall i :: 0 <= i < |panels| ==> r[i] == panels[i].name
  {
    seq(|panels|, i requires 0 <= i < |panels| => panels[i].name)
  }

  /** Both lists, one after the other, when neither filter threw. */
  function AppendBoth(a: Option<seq<string>>, b: Option<seq<string>>): Option<seq<string>> {
    if a.Some? && b.Some? then Some(a.value + b.value) else None
  }

  /**
   * The filter keeps order: filtering two runs of keys one after the other is
   * filtering each and joining the results.
   */
  lemma {:induction false} KeptInOrder(a: seq<string>, va: seq<Option<bool>>, b: seq<string>, vb: seq<Option<bool>>)
    requires |va| == |a| && |vb| == |b|
    ensures Kept(a + b, va + vb) == AppendBoth(Kept(a, va), Kept(b, vb))
    decreases |a|
  {
    if |a| == 0 {
      assert a + b == b && va + vb == vb;
      if Kept(b, vb).Some? {
        assert [] + Kept(b, vb).value == Kept(b, vb).value;
      }
    } else {
      assert (a + b)[1..] == a[1..] + b && (va + vb)[1..] == va[1..] + vb;
      assert (a + b)[0] == a[0] && (va + vb)[0] == va[0];
      KeptInOrder(a[1..], va[1..], b, vb);
      var ra, rb := Kept(a[1..], va[1..]), Kept(b, vb);
      if va[0] == Some(true) && ra.Some? && rb.Some? {
        assert [a[0]] + (ra.value + rb.value) == ([a[0]] + ra.value) + rb.value;
      }
    }
  }

  /**
   * The graph view's filter keeps `sortedKeys` order: on two runs of keys it
   * is the filter of each, joined; on a single key it keeps the key exactly
   * when its value passes.
   */
  lemma VisibleKeysInOrder(vars: seq<(string, VariableValue)>, a: seq<string>, b: seq<string>)
    ensures VisibleKeys(vars, a + b) == AppendBoth(VisibleKeys(vars, a), VisibleKeys(vars, b))
    ensures |a| == 1 && GraphVisible(ValueOf(vars, a[0])) == Some(true) ==> VisibleKeys(vars, a) == Some(a)
    ensures |a| == 1 && GraphVisible(ValueOf(vars, a[0])) == Some(false) ==> VisibleKeys(vars, a) == Some([])
  {
    assert Verdicts(vars, a + b) == Verdicts(vars, a) + Verdicts(vars, b);
    KeptInOrder(a, Verdicts(vars, a), b, Verdicts(vars, b));
    if |a| == 1 {
      assert a[1..] == [];
      assert Verdicts(vars, a)[1..] == [];
      assert [a[0]] + [] == a;
    }
  }

  /**
   * The graph view's structure: a step without variables says so; otherwise
   * the panels are exactly the keys that pass the filter, in the order
   * `sortedKeys` gives them, and the placeholder appears when there are none.
   */
  lemma GraphPaneListsVisibleKeys(step: Step, prevStep: Option<Step>, order: seq<string>)
    ensures var keys := SortedKeys(order, KeysOf(JsEntries(step.variables)));
            var pane := GraphPaneFor(step, prevStep, order);
            && (pane == Some(NoLocalVariables) <==> |step.variables| == 0)
            && (|step.variables| > 0 && pane.Some? ==> VisibleKeys(step.variables, keys).Some?)
            && (pane == Some(NothingToVisualize) <==>
                  |step.variables| > 0 && VisibleKeys(step.variables, keys) == Some([]))
            && (pane.Some? && pane.value.Panels? ==>
                  PanelNames(pane.value.panels) == VisibleKeys(step.variables, keys).value
                  && |pane.value.panels| > 0)
  {
    var keys := SortedKeys(order, KeysOf(JsEntries(step.variables)));
    var pane := GraphPaneFor(step, prevStep, order);
    if pane.Some? && pane.value.Panels? {
      var visible := VisibleKeys(step.variables, keys).value;
      var panels := PanelsFor(step, prevStep, visible).value;
      assert pane.value.panels == panels;
      assert PanelNames(panels) == visible;
    }
  }

  // ---------------------------------------------------------------------------
  // Tracked lists

  /**
   * As written, a value tagged 'list' fails every test of the filter: no
   * `TrackedList`, which is what every list display of the traced program
   * becomes, ever gets a panel in the graph view.
   */
  lemma TrackedListsHidden(val: Json)
    requires HasTag(val, "list")
    ensures GraphVisible(val) == Some(false)
  {
  }

  lemma TrackedListNeverInGraphView(h: Heap, y: ObjId)
    requires Closed(h) && y in h && h[y].OTracked?
    ensures GraphVisible(SerializeRoot(h, Ref(y))) == Some(false)
  {
    TrackedShape(h, y);
    TrackedListsHidden(SerializeRoot(h, Ref(y)));
  }

  /** The evidently intended filter: a 'list'-tagged value with items is shown like a non-empty array. */
  function GraphVisibleWithLists(val: Json): Option<bool> {
    if HasTag(val, "list") && Member(val, "items").Some? && Member(val, "items").value.JArr?
       && |Member(val, "items").value.items| > 0
    then Some(true)
    else GraphVisible(val)
  }

  /** The evidently intended dispatch: a 'list'-tagged value is drawn as the array of its items. */
  function DispatchWithLists(name: string, val: Json, prevVal: Option<Json>, badge: Badge): Option<Panel> {
    if HasTag(val, "list") && Member(val, "items").Some? && Member(val, "items").value.JArr? then
      var prev :=
        if prevVal.Some? && HasTag(prevVal.value, "list") && Member(prevVal.value, "items").Some?
           && Member(prevVal.value, "items").value.JArr?
        then Some(Member(prevVal.value, "items").value.items) else None;
      Some(ArrayPanel(Member(val, "items").value.items, prev, false))
    else Dispatch(name, val, prevVal, badge)
  }

  /**
   * With the corrected filter and dispatch, a non-empty `TrackedList` gets an
   * array panel over its serialised items, with the previous step's items as
   * the comparison; every other value is treated as before.
   */
  lemma ListShownWithLists(name: string, r: Json, items: seq<Json>, prev: seq<Json>)
    requires HasTag(r, "list") && Member(r, "items") == Some(JArr(items)) && |items| > 0
    ensures var prevVal := JObj([("__type__", JStr("list")), ("items", JArr(prev))]);
            && GraphVisibleWithLists(r) == Some(true)
            && DispatchWithLists(name, r, Some(prevVal), NoBadge) == Some(ArrayPanel(items, Some(prev), false))
  {
    var prevVal := JObj([("__type__", JStr("list")), ("items", JArr(prev))]);
    assert Lookup(prevVal.fields[1..], "items") == Some(JArr(prev));
  }

  lemma TrackedListShownWithLists(h: Heap, y: ObjId, name: string, prev: seq<Json>)
    requires Closed(h) && y in h && h[y].OTracked? && |h[y].items| > 0
    ensures forall i :: 0 <= i < |h[y].items| ==> Defined(h, h[y].items[i])
    ensures var r := SerializeRoot(h, Ref(y));
            var prevVal := JObj([("__type__", JStr("list")), ("items", JArr(prev))]);
            && GraphVisibleWithLists(r) == Some(true)
            && DispatchWithLists(name, r, Some(prevVal), NoBadge) ==
                 Some(ArrayPanel(SerializeAll(h, h[y].items, 0, {y}), Some(prev), false))
  {
    TrackedShape(h, y);
    ListShownWithLists(name, SerializeRoot(h, Ref(y)), SerializeAll(h, h[y].items, 0, {y}), prev);
  }

  lemma WithListsChangesOnlyLists(name: string, val: Json, prevVal: Option<Json>, badge: Badge)
    requires !HasTag(val, "list")
    ensures GraphVisibleWithLists(val) == GraphVisible(val)
    ensures DispatchWithLists(name, val, prevVal, badge) == Dispatch(name, val, prevVal, badge)
  {
  }
}
