/**
 * `GraphNode`: the recursive drawing of a tagged `object` as a linked-list
 * cell, a binary-tree node or a generic-tree node, with the round arrow
 * glyph for a back reference. Each child is drawn with its own copy of the
 * set of JSON texts already drawn on the path from the root.
 */
module GraphNodeView {
  import opened Common
  import opened Json
  import opened NetworkGraphView

  /**
   * What one `GraphNode` draws. `caption` is the `label` prop shown above a list cell
   * or a tree node ("L", "R", the variable name, or empty). A `None` child of a
   * list cell is the "None" text after the last cell. A `None` side of a tree
   * node is the dashed `null` placeholder beside a drawn side; when both sides
   * are `None` no row of sides is drawn at all.
   */
  datatype Render =
    | BackRef
    | ListNode(value: string, caption: string, next: Option<Render>)
    | TreeNode(value: string, caption: string, left: Option<Render>, right: Option<Render>)
    | GenericNode(value: string, children: seq<Render>)
    | Complex

  /** `data.data || {}` */
  function Props(data: Json): (p: Json)
    ensures p == JObj([]) || (Member(data, "data") == Some(p) && Truthy(p))
  {
    match Member(data, "data")
    case Some(d) => if Truthy(d) then d else JObj([])
    case None => JObj([])
  }

  /** A member of `Props(data)` has a strictly shorter JSON text than `data`. */
  lemma PropTextShorter(data: Json, k: string)
    requires Member(Props(data), k).Some?
    ensures |Stringify(Member(Props(data), k).value)| < |Stringify(data)|
  {
    MemberTextShorter(data, "data");
    MemberTextShorter(Props(data), k);
  }

  /** `a ?? d` when the fallback `d` is a value. */
  function OrElse(a: Option<Json>, d: Json): (r: Json)
    ensures Nullish(a) ==> r == d
    ensures !Nullish(a) ==> Some(r) == a
  {
    if Nullish(a) then d else a.value
  }

  /** `String(props.val ?? props.value ?? props.data ?? '?')` */
  function ValueText(props: Json): string {
    JsString(OrElse(Coalesce(Coalesce(Member(props, "val"), Member(props, "value")), Member(props, "data")), JStr("?")))
  }

  /** `'children' in props && Array.isArray(props.children)` */
  predicate HasChildArray(props: Json) {
    Member(props, "children").Some? && Member(props, "children").value.JArr?
  }

  /** The node reaches the structure tests: not drawn yet, tagged `object`, and `'k' in props` does not throw. */
  predicate Drawn(data: Json, visited: set<string>) {
    Stringify(data) !in visited && HasTag(data, "object") && (Props(data).JObj? || Props(data).JArr?)
  }

  function Lift(o: Option<Render>): (r: Option<Option<Render>>)
    ensures r.None? <==> o.None?
    ensures r.Some? ==> r.value == o
  {
    if o.None? then None else Some(o)
  }

  /**
   * `GraphNode({ data, visited, label })`; `None` is a `TypeError` thrown while
   * drawing `data` or any part of it (`null.__type__`, or `'next' in props`
   * for a primitive `props`).
   */
  function GraphNode(data: Json, visited: set<string>, caption: string): (r: Option<Render>)
    ensures Stringify(data) in visited ==> r == Some(BackRef)
    ensures r.None? ==> data.JNull? || HasTag(data, "object")
    ensures !data.JNull? && !HasTag(data, "object") ==> r.Some?
    decreases data, 3
  {
    var id := Stringify(data);
    if id in visited then Some(BackRef)
    else if data.JNull? then None
    else if HasTag(data, "cyclic") then Some(BackRef)
    else if !HasTag(data, "object") then Some(Complex)
    else Structure(data, visited + {id}, caption)
  }

  /**
   * The structure tests of an `object` node, after `visited.add(id)`: `seen`
   * is the set each child receives a copy of. `'next' in props` throws for a
   * primitive `props`.
   */
  function Structure(data: Json, seen: set<string>, caption: string): Option<Render>
    decreases data, 2
  {
    var props := Props(data);
    if !(props.JObj? || props.JArr?) then None
    else if HasKey(props, "next") then Linked(data, seen, caption)
    else if HasKey(props, "left") || HasKey(props, "right") then Binary(data, seen, caption)
    else if HasChildArray(props) then Generic(data, seen, caption)
    else Some(Complex)
  }

  /** A linked-list cell: the value, then "None" for a null `next` or the drawing of `next`. */
  function Linked(data: Json, seen: set<string>, caption: string): (r: Option<Render>)
    requires HasKey(Props(data), "next")
    ensures r.Some? ==> r.value.ListNode? && r.value.value == ValueText(Props(data)) && r.value.caption == caption
    ensures Member(Props(data), "next").value.JNull? ==> r == Some(ListNode(ValueText(Props(data)), caption, None))
    ensures var next := Member(Props(data), "next").value;
            !next.JNull? ==> (r.Some? <==> GraphNode(next, seen, "").Some?)
                             && (r.Some? ==> r.value.next == GraphNode(next, seen, ""))
    decreases data, 1
  {
    var next := Member(Props(data), "next").value;
    if next.JNull? then Some(ListNode(ValueText(Props(data)), caption, None))
    else
      match GraphNode(next, seen, "")
      case None => None
      case Some(n) => Some(ListNode(ValueText(Props(data)), caption, Some(n)))
  }

  /** A binary-tree node: the value over its two sides, labelled "L" and "R". */
  function Binary(data: Json, seen: set<string>, caption: string): (r: Option<Render>)
    ensures var left, right := Side(data, "left", seen, "L"), Side(data, "right", seen, "R");
            && (r.Some? <==> left.Some? && right.Some?)
            && (r.Some? ==> r.value == TreeNode(ValueText(Props(data)), caption, left.value, right.value))
    decreases data, 1
  {
    var left := Side(data, "left", seen, "L");
    var right := Side(data, "right", seen, "R");
    if left.None? || right.None? then None
    else Some(TreeNode(ValueText(Props(data)), caption, left.value, right.value))
  }

  /**
   * One side of a binary-tree node: a truthy `props[k]` is drawn; a falsy or
   * absent one is the dashed `null` placeholder, `Some(None)`.
   */
  function Side(data: Json, k: string, seen: set<string>, caption: string): Option<Option<Render>>
    decreases data, 0
  {
    match Member(Props(data), k)
    case Some(c) => if Truthy(c) then Lift(GraphNode(c, seen, caption)) else Some(None)
    case None => Some(None)
  }

  /** A generic-tree node: the value over the drawing of every element of `children`. */
  function Generic(data: Json, seen: set<string>, caption: string): (r: Option<Render>)
    requires HasChildArray(Props(data))
    ensures r.Some? ==> r.value.GenericNode?
    decreases data, 1
  {
    match Collect(Drawings(Member(Props(data), "children").value, seen))
    case None => None
    case Some(kids) => Some(GenericNode(ValueText(Props(data)), kids))
  }

  /** `props.children.map(child => <GraphNode data={child} visited={new Set(visited)} />)` */
  function Drawings(arr: Json, seen: set<string>): (r: seq<Option<Render>>)
    requires arr.JArr?
    ensures |r| == |arr.items|
    decreases arr, 0
  {
    seq(|arr.items|, i requires 0 <= i < |arr.items| => GraphNode(arr.items[i], seen, ""))
  }

  /**
   * The glyph for an already drawn text or a `cyclic` tag; otherwise, for an
   * `object` whose `props` admits `in`, the first of `next`, `left`/`right`,
   * an array `children` decides the shape; everything else is "Complex Object".
   */
  lemma ShapeByPriority(data: Json, visited: set<string>, caption: string)
    ensures var r := GraphNode(data, visited, caption);
            (r == Some(BackRef) <==> Stringify(data) in visited || HasTag(data, "cyclic"))
    ensures var r, props := GraphNode(data, visited, caption), Props(data);
            r.Some? ==> (r.value.ListNode? <==> Drawn(data, visited) && HasKey(props, "next"))
    ensures var r, props := GraphNode(data, visited, caption), Props(data);
            r.Some? ==> (r.value.TreeNode? <==>
                         Drawn(data, visited) && !HasKey(props, "next") && (HasKey(props, "left") || HasKey(props, "right")))
    ensures var r, props := GraphNode(data, visited, caption), Props(data);
            r.Some? ==> (r.value.GenericNode? <==>
                         Drawn(data, visited) && !HasKey(props, "next") && !HasKey(props, "left")
                         && !HasKey(props, "right") && HasChildArray(props))
    ensures var r, props := GraphNode(data, visited, caption), Props(data);
            (r == Some(Complex) <==>
             Stringify(data) !in visited && !data.JNull? && !HasTag(data, "cyclic")
             && (!HasTag(data, "object")
                 || (Drawn(data, visited) && !HasKey(props, "next") && !HasKey(props, "left")
                     && !HasKey(props, "right") && !HasChildArray(props))))
  {
    var id := Stringify(data);
    if id !in visited && !data.JNull? && !HasTag(data, "cyclic") && HasTag(data, "object") {
      var seen := visited + {id};
      assert GraphNode(data, visited, caption) == Structure(data, seen, caption);
      var props := Props(data);
      if !(props.JObj? || props.JArr?) {
      } else if HasKey(props, "next") {
        assert Structure(data, seen, caption) == Linked(data, seen, caption);
      } else if HasKey(props, "left") || HasKey(props, "right") {
        assert Structure(data, seen, caption) == Binary(data, seen, caption);
      } else if HasChildArray(props) {
        assert Structure(data, seen, caption) == Generic(data, seen, caption);
      }
    }
  }

  /** The `children` array of a generic-tree node. */
  function ChildArray(data: Json): (arr: Json)
    requires HasChildArray(Props(data))
    ensures arr.JArr?
  {
    Member(Props(data), "children").value
  }

  /** A generic-tree node: drawn, with `children` and none of `next`, `left`, `right`. */
  predicate GenericShape(data: Json, visited: set<string>) {
    Drawn(data, visited) && !HasKey(Props(data), "next") && !HasKey(Props(data), "left")
    && !HasKey(Props(data), "right") && HasChildArray(Props(data))
  }

  /** Once `visited.add(id)` is done, a generic-tree node draws `Generic`. */
  lemma GenericUnfold(data: Json, visited: set<string>, caption: string)
    requires GenericShape(data, visited)
    ensures GraphNode(data, visited, caption) == Generic(data, visited + {Stringify(data)}, caption)
  {
    assert GraphNode(data, visited, caption) == Structure(data, visited + {Stringify(data)}, caption);
  }

  /** A generic-tree node that draws shows the drawings of its children under its value. */
  lemma GenericKids(data: Json, seen: set<string>, caption: string) returns (kids: seq<Render>)
    requires HasChildArray(Props(data)) && Generic(data, seen, caption).Some?
    ensures Collect(Drawings(ChildArray(data), seen)) == Some(kids)
    ensures Generic(data, seen, caption) == Some(GenericNode(ValueText(Props(data)), kids))
  {
    kids := Collect(Drawings(ChildArray(data), seen)).value;
  }

  /**
   * A generic-tree node draws each child with its own copy of `visited` plus
   * the node's own text, so a child reached twice among siblings is drawn the
   * same way both times.
   */
  lemma SiblingsDrawnAlike(data: Json, visited: set<string>, caption: string, i: nat, j: nat) returns (kids: seq<Render>)
    requires GenericShape(data, visited)
    requires i < |ChildArray(data).items| && j < |ChildArray(data).items|
    requires ChildArray(data).items[i] == ChildArray(data).items[j]
    requires GraphNode(data, visited, caption).Some?
    ensures GraphNode(data, visited, caption) == Some(GenericNode(ValueText(Props(data)), kids))
    ensures |kids| == |ChildArray(data).items| && kids[i] == kids[j]
    ensures Some(kids[i]) == GraphNode(ChildArray(data).items[i], visited + {Stringify(data)}, "")
  {
    var seen := visited + {Stringify(data)};
    GenericUnfold(data, visited, caption);
    kids := GenericKids(data, seen, caption);
    var arr := ChildArray(data);
    assert Drawings(arr, seen)[i] == Some(kids[i]) && Drawings(arr, seen)[j] == Some(kids[j]);
  }

  /** A `null` element of `children` makes the whole drawing throw (`null.__type__`). */
  lemma NullChildThrows(data: Json, visited: set<string>, caption: string, i: nat)
    requires GenericShape(data, visited) && "null" !in visited
    requires i < |ChildArray(data).items| && ChildArray(data).items[i] == JNull
    ensures GraphNode(data, visited, caption).None?
  {
    var seen := visited + {Stringify(data)};
    assert Stringify(data) != "null" by {
      ObjectTextOpensWithBrace(data);
    }
    NullDrawsNothing(seen);
    ThrowingChild(data, seen, caption, i);
    GenericUnfold(data, visited, caption);
  }

  /** `null` outside the visited set is not drawn: the component throws. */
  lemma NullDrawsNothing(seen: set<string>)
    requires "null" !in seen
    ensures GraphNode(JNull, seen, "").None?
  {
    assert Stringify(JNull) == "null";
  }

  /** One child that cannot be drawn leaves the whole generic-tree node undrawn. */
  lemma ThrowingChild(data: Json, seen: set<string>, caption: string, i: nat)
    requires HasChildArray(Props(data))
    requires i < |ChildArray(data).items| && GraphNode(ChildArray(data).items[i], seen, "").None?
    ensures Generic(data, seen, caption).None?
  {
    assert Drawings(ChildArray(data), seen)[i].None?;
  }

  /** `v1` and `v2` hold the same strings of length at most `n`. */
  ghost predicate AgreeUpTo(v1: set<string>, v2: set<string>, n: nat) {
    forall s :: |s| <= n ==> (s in v1 <==> s in v2)
  }

  lemma AgreeShorter(v1: set<string>, v2: set<string>, n: nat, m: nat)
    requires AgreeUpTo(v1, v2, n) && m <= n
    ensures AgreeUpTo(v1, v2, m)
  {
  }

  /**
   * Only texts no longer than `Stringify(data)` can change how `data` is
   * drawn: the visited set is consulted with the node's own text, and every
   * part of a value has a strictly shorter text.
   */
  lemma {:induction false} DrawingSeesOnlyShortTexts(data: Json, v1: set<string>, v2: set<string>, caption: string)
    requires AgreeUpTo(v1, v2, |Stringify(data)|)
    ensures GraphNode(data, v1, caption) == GraphNode(data, v2, caption)
    decreases data, 3
  {
    var id := Stringify(data);
    assert id in v1 <==> id in v2;
    if id !in v1 && !data.JNull? && !HasTag(data, "cyclic") && HasTag(data, "object") {
      StructureSeesOnlyShortTexts(data, v1 + {id}, v2 + {id}, caption);
    }
  }

  lemma {:induction false} StructureSeesOnlyShortTexts(data: Json, s1: set<string>, s2: set<string>, caption: string)
    requires AgreeUpTo(s1, s2, |Stringify(data)|)
    ensures Structure(data, s1, caption) == Structure(data, s2, caption)
    decreases data, 2
  {
    var props := Props(data);
    if !(props.JObj? || props.JArr?) {
    } else if HasKey(props, "next") {
      LinkedSeesOnlyShortTexts(data, s1, s2, caption);
    } else if HasKey(props, "left") || HasKey(props, "right") {
      BinarySeesOnlyShortTexts(data, s1, s2, caption);
    } else if HasChildArray(props) {
      GenericSeesOnlyShortTexts(data, s1, s2, caption);
    }
  }

  lemma {:induction false} BinarySeesOnlyShortTexts(data: Json, s1: set<string>, s2: set<string>, caption: string)
    requires AgreeUpTo(s1, s2, |Stringify(data)|)
    ensures Binary(data, s1, caption) == Binary(data, s2, caption)
    decreases data, 1
  {
    SideSeesOnlyShortTexts(data, "left", s1, s2, "L");
    SideSeesOnlyShortTexts(data, "right", s1, s2, "R");
  }

  lemma {:induction false} GenericSeesOnlyShortTexts(data: Json, s1: set<string>, s2: set<string>, caption: string)
    requires AgreeUpTo(s1, s2, |Stringify(data)|) && HasChildArray(Props(data))
    ensures Generic(data, s1, caption) == Generic(data, s2, caption)
    decreases data, 1
  {
    PropTextShorter(data, "children");
    AgreeShorter(s1, s2, |Stringify(data)|, |Stringify(ChildArray(data))|);
    DrawingsSeeOnlyShortTexts(ChildArray(data), s1, s2);
  }

  lemma {:induction false} LinkedSeesOnlyShortTexts(data: Json, s1: set<string>, s2: set<string>, caption: string)
    requires AgreeUpTo(s1, s2, |Stringify(data)|) && HasKey(Props(data), "next")
    ensures Linked(data, s1, caption) == Linked(data, s2, caption)
    decreases data, 1
  {
    var next := Member(Props(data), "next").value;
    PropAgrees(data, "next", s1, s2);
    DrawingSeesOnlyShortTexts(next, s1, s2, "");
  }

  /** Two sets that agree on texts up to a value's length agree up to the length of any of its props. */
  lemma PropAgrees(data: Json, k: string, s1: set<string>, s2: set<string>)
    requires AgreeUpTo(s1, s2, |Stringify(data)|) && Member(Props(data), k).Some?
    ensures AgreeUpTo(s1, s2, |Stringify(Member(Props(data), k).value)|)
  {
    PropTextShorter(data, k);
    AgreeShorter(s1, s2, |Stringify(data)|, |Stringify(Member(Props(data), k).value)|);
  }

  lemma {:induction false} SideSeesOnlyShortTexts(data: Json, k: string, s1: set<string>, s2: set<string>, caption: string)
    requires AgreeUpTo(s1, s2, |Stringify(data)|)
    ensures Side(data, k, s1, caption) == Side(data, k, s2, caption)
    decreases data, 0
  {
    if Member(Props(data), k).Some? {
      var c := Member(Props(data), k).value;
      PropAgrees(data, k, s1, s2);
      DrawingSeesOnlyShortTexts(c, s1, s2, caption);
    }
  }

  lemma {:induction false} DrawingsSeeOnlyShortTexts(arr: Json, s1: set<string>, s2: set<string>)
    requires arr.JArr?
    requires AgreeUpTo(s1, s2, |Stringify(arr)|)
    ensures Drawings(arr, s1) == Drawings(arr, s2)
    decreases arr, 0
  {
    forall i | 0 <= i < |arr.items|
      ensures Drawings(arr, s1)[i] == Drawings(arr, s2)[i]
    {
      var child := arr.items[i];
      ElementTextShorter(arr.items, i);
      AgreeShorter(s1, s2, |Stringify(arr)|, |Stringify(child)|);
      DrawingSeesOnlyShortTexts(child, s1, s2, "");
    }
  }

  /**
   * Every id `visited` gathers on the way down is the text of an ancestor,
   * hence longer than the text of the value drawn: the drawing is the same as
   * with an empty set, and the glyph appears exactly for `cyclic` tags.
   */
  lemma AncestorTextsNeverMatch(data: Json, visited: set<string>, caption: string)
    requires forall s :: s in visited ==> |s| > |Stringify(data)|
    ensures GraphNode(data, visited, caption) == GraphNode(data, {}, caption)
    ensures GraphNode(data, visited, caption) == Some(BackRef) <==> HasTag(data, "cyclic")
  {
    DrawingSeesOnlyShortTexts(data, visited, {}, caption);
    ShapeByPriority(data, {}, caption);
  }
}
