/**
 * `NetworkGraph`: the nodes and edges the graph panel extracts from a
 * dict of lists (an adjacency list) or from an object whose `data` holds
 * `neighbors`, `adj` or `edges` (walked breadth first).
 */
module NetworkGraphView {
  import opened Common
  import opened Json

  /** Nodes as `(id, label)` in the insertion order of the `Map`, edges as `(source, target)`. */
  datatype Graph = Graph(nodes: seq<(string, string)>, edges: seq<(string, string)>)

  /** `String(x)`, with `None` for `undefined`. */
  function JsStringOf(x: Option<Json>): string {
    match x
    case Some(j) => JsString(j)
    case None => "undefined"
  }

  /** `a ?? b` */
  function Coalesce(a: Option<Json>, b: Option<Json>): (r: Option<Json>)
    ensures r == a || r == b
  {
    if Nullish(a) then b else a
  }

  /** `x?.k` */
  function MemberOf(x: Option<Json>, k: string): (r: Option<Json>)
    ensures r.Some? ==> x.Some? && Member(x.value, k) == r
  {
    if x.Some? then Member(x.value, k) else None
  }

  /** Every edge starts at a node. */
  predicate SourcesAreNodes(g: Graph) {
    forall i :: 0 <= i < |g.edges| ==> g.edges[i].0 in KeysOf(g.nodes)
  }

  /** `extractedNodes.set(id, node)`, keeping the `Map` invariants. */
  function SetNode(g: Graph, id: string, text: string): (r: Graph)
    ensures KeysOf(r.nodes) == KeysOf(g.nodes) || KeysOf(r.nodes) == KeysOf(g.nodes) + [id]
    ensures id in KeysOf(r.nodes) && Lookup(r.nodes, id) == Some(text)
    ensures r.edges == g.edges
    ensures DistinctKeys(g.nodes) ==> DistinctKeys(r.nodes)
    ensures SourcesAreNodes(g) ==> SourcesAreNodes(r)
  {
    assert DistinctKeys(g.nodes) ==> DistinctKeys(Put(g.nodes, id, text)) by {
      if DistinctKeys(g.nodes) {
        PutKeepsDistinct(g.nodes, id, text);
      }
    }
    var r := g.(nodes := Put(g.nodes, id, text));
    assert forall k :: k in KeysOf(g.nodes) ==> k in KeysOf(r.nodes) by {
      if id !in KeysOf(g.nodes) {
        assert KeysOf(r.nodes) == KeysOf(g.nodes) + [id];
      }
    }
    SourcesKept(g, r);
    r
  }

  lemma SourcesKept(g: Graph, r: Graph)
    requires r.edges == g.edges
    requires forall k :: k in KeysOf(g.nodes) ==> k in KeysOf(r.nodes)
    ensures SourcesAreNodes(g) ==> SourcesAreNodes(r)
  {
  }

  /** `if (!extractedNodes.has(id)) extractedNodes.set(id, node)` */
  function AddNodeIfAbsent(g: Graph, id: string, text: string): (r: Graph)
    ensures KeysOf(r.nodes) == KeysOf(g.nodes) || KeysOf(r.nodes) == KeysOf(g.nodes) + [id]
    ensures id in KeysOf(r.nodes)
    ensures id in KeysOf(g.nodes) ==> r == g
    ensures r.edges == g.edges
    ensures DistinctKeys(g.nodes) ==> DistinctKeys(r.nodes)
    ensures SourcesAreNodes(g) ==> SourcesAreNodes(r)
  {
    if id in KeysOf(g.nodes) then g else SetNode(g, id, text)
  }

  /** `extractedEdges.push({ source, target })` */
  function AddEdge(g: Graph, source: string, target: string): (r: Graph)
    ensures r.nodes == g.nodes && r.edges == g.edges + [(source, target)]
    ensures SourcesAreNodes(g) && source in KeysOf(g.nodes) ==> SourcesAreNodes(r)
  {
    g.(edges := g.edges + [(source, target)])
  }

  // ---------------------------------------------------------------------------
  // Case 1: a dict of lists.

  /** The inner `value.forEach` from neighbour `j` on. */
  function ListedFrom(g: Graph, id: string, ns: seq<Json>, j: nat): Graph
    requires j <= |ns|
    decreases |ns| - j
  {
    if j == |ns| then g
    else
      var target := JsString(ns[j]);
      ListedFrom(AddNodeIfAbsent(AddEdge(g, id, target), target, target), id, ns, j + 1)
  }

  /** The outer `Object.entries(data).forEach` from entry `i` on. */
  function AdjacencyFrom(g: Graph, entries: seq<(string, Json)>, i: nat): Graph
    requires i <= |entries|
    decreases |entries| - i
  {
    if i == |entries| then g
    else
      var (key, value) := entries[i];
      var g1 := SetNode(g, key, key);
      var g2 := if value.JArr? then ListedFrom(g1, key, value.items, 0) else g1;
      AdjacencyFrom(g2, entries, i + 1)
  }

  // ---------------------------------------------------------------------------
  // Case 2: breadth-first over objects.

  datatype Walk = Walk(queue: seq<Json>, visited: set<string>, graph: Graph)

  function QueueSize(q: seq<Json>): nat {
    if |q| == 0 then 0 else Size(q[0]) + QueueSize(q[1..])
  }

  lemma {:induction false} QueueSizeAppend(q: seq<Json>, x: Json)
    ensures QueueSize(q + [x]) == QueueSize(q) + Size(x)
  {
    if |q| > 0 {
      assert (q + [x])[1..] == q[1..] + [x];
      QueueSizeAppend(q[1..], x);
    } else {
      assert (q + [x])[1..] == [];
    }
  }

  /** `String(curr.id || JSON.stringify(curr))` */
  function CurrId(curr: Json): string {
    match Member(curr, "id")
    case Some(id) => if Truthy(id) then JsString(id) else Stringify(curr)
    case None => Stringify(curr)
  }

  /** `String(curr.data?.val ?? curr.data?.value ?? curr.class)` */
  function NodeLabel(curr: Json): string {
    var data := Member(curr, "data");
    JsStringOf(Coalesce(Coalesce(MemberOf(data, "val"), MemberOf(data, "value")), Member(curr, "class")))
  }

  /** `curr.data?.neighbors ?? curr.data?.adj ?? curr.data?.edges` */
  function Neighbors(curr: Json): (r: Option<Json>)
    ensures r.Some? ==> Size(r.value) < Size(curr)
  {
    var data := Member(curr, "data");
    var r := Coalesce(Coalesce(MemberOf(data, "neighbors"), MemberOf(data, "adj")), MemberOf(data, "edges"));
    if r.Some? then
      MemberSmaller(curr, "data");
      MemberSmaller(data.value, if r == MemberOf(data, "neighbors") then "neighbors"
                                else if r == MemberOf(data, "adj") then "adj" else "edges");
      r
    else r
  }

  /**
   * One neighbour of `currId`; `None` is the `TypeError` of `neighbor.__type__`
   * on a null neighbour. A `cyclic` neighbour only adds an edge to its id and
   * is never queued; an `object` neighbour adds an edge and is queued whether
   * or not it was visited (the visited test happens at dequeue); anything
   * else becomes a leaf node of its own text.
   */
  function VisitNeighbor(w: Walk, currId: string, n: Json): (r: Option<Walk>)
    ensures r.None? <==> n == JNull
    ensures r.Some? ==> QueueSize(r.value.queue) <= QueueSize(w.queue) + Size(n)
    ensures r.Some? ==> r.value.visited == w.visited
    ensures r.Some? && HasTag(n, "cyclic") ==>
              r.value.queue == w.queue && r.value.graph == AddEdge(w.graph, currId, JsStringOf(Member(n, "id")))
    ensures r.Some? && HasTag(n, "object") ==>
              r.value.queue == w.queue + [n] && r.value.graph == AddEdge(w.graph, currId, JsStringOf(Member(n, "id")))
    ensures r.Some? && !HasTag(n, "cyclic") && !HasTag(n, "object") ==>
              && r.value.queue == w.queue
              && JsString(n) in KeysOf(r.value.graph.nodes)
              && r.value.graph.edges == w.graph.edges + [(currId, JsString(n))]
  {
    if n == JNull then None
    else if HasTag(n, "cyclic") then
      Some(w.(graph := AddEdge(w.graph, currId, JsStringOf(Member(n, "id")))))
    else if HasTag(n, "object") then
      QueueSizeAppend(w.queue, n);
      Some(Walk(w.queue + [n], w.visited, AddEdge(w.graph, currId, JsStringOf(Member(n, "id")))))
    else
      var target := JsString(n);
      Some(w.(graph := AddEdge(AddNodeIfAbsent(w.graph, target, target), currId, target)))
  }

  /** The neighbours from `j` on that the loop queues: exactly the `object` ones, in order. */
  function Queued(ns: seq<Json>, j: nat): (r: seq<Json>)
    requires j <= |ns|
    ensures forall i :: 0 <= i < |r| ==> HasTag(r[i], "object") && !HasTag(r[i], "cyclic")
    ensures |r| <= |ns| - j
    decreases |ns| - j
  {
    if j == |ns| then []
    else QueuedOne(ns[j]) + Queued(ns, j + 1)
  }

  /** `neighbors.forEach` from neighbour `j` on. */
  function VisitFrom(w: Walk, currId: string, ns: seq<Json>, j: nat): (r: Option<Walk>)
    requires j <= |ns|
    ensures r.Some? ==> QueueSize(r.value.queue) <= QueueSize(w.queue) + ItemsSize(JArr(ns), j)
    ensures r.Some? ==> r.value.visited == w.visited
    decreases |ns| - j
  {
    if j == |ns| then Some(w)
    else
      match VisitNeighbor(w, currId, ns[j])
      case None => None
      case Some(w1) => VisitFrom(w1, currId, ns, j + 1)
  }

  /**
   * One turn of the loop on a head not yet visited: its node, then its
   * neighbours; `None` when a neighbour throws.
   */
  function VisitHead(w: Walk): (r: Option<Walk>)
    requires |w.queue| > 0
    ensures r.Some? ==> QueueSize(r.value.queue) < QueueSize(w.queue)
    ensures r.Some? ==> r.value.visited == w.visited + {CurrId(w.queue[0])}
  {
    var curr := w.queue[0];
    var currId := CurrId(curr);
    var w1 := Walk(w.queue[1..], w.visited + {currId}, SetNode(w.graph, currId, NodeLabel(curr)));
    match Neighbors(curr)
    case Some(JArr(ns)) => VisitFrom(w1, currId, ns, 0)
    case _ => Some(w1)
  }

  /** The `while (queue.length > 0)` loop from state `w` on. */
  function WalkFrom(w: Walk): Option<Graph>
    decreases QueueSize(w.queue)
  {
    if |w.queue| == 0 then Some(w.graph)
    else if CurrId(w.queue[0]) in w.visited then WalkFrom(w.(queue := w.queue[1..]))
    else
      match VisitHead(w)
      case None => None
      case Some(w2) => WalkFrom(w2)
  }

  /** The ids the loop expands, in order: the heads not yet visited when dequeued. */
  function Expanded(w: Walk): Option<seq<string>>
    decreases QueueSize(w.queue)
  {
    if |w.queue| == 0 then Some([])
    else if CurrId(w.queue[0]) in w.visited then Expanded(w.(queue := w.queue[1..]))
    else
      match VisitHead(w)
      case None => None
      case Some(w2) =>
        match Expanded(w2)
        case None => None
        case Some(rest) => Some([CurrId(w.queue[0])] + rest)
  }

  /** Which of the two extractions applies. */
  predicate IsAdjacencyList(data: Json) {
    data.JObj? && Member(data, "__type__").None?
  }

  /**
   * What the effect puts in `nodes` and `edges`; `None` when it throws (a
   * null `data`, or a null neighbour in case 2).
   */
  function Extract(data: Json): (r: Option<Graph>)
    ensures IsAdjacencyList(data) ==> r.Some?
    ensures data == JNull ==> r.None?
    ensures r.None? ==> data == JNull || HasTag(data, "object")
  {
    if IsAdjacencyList(data) then Some(AdjacencyFrom(Graph([], []), JsEntries(data.fields), 0))
    else if data == JNull then None
    else if HasTag(data, "object") then WalkFrom(Walk([data], {}, Graph([], [])))
    else Some(Graph([], []))
  }

  /** The effect of `NetworkGraph`, step by step. */
  method NetworkGraph(data: Json) returns (g: Option<Graph>)
    ensures g == Extract(data)
  {
    if IsAdjacencyList(data) {
      var graph := AdjacencyLoop(JsEntries(data.fields));
      return Some(graph);
    }
    if data == JNull {
      return None;
    }
    if !HasTag(data, "object") {
      return Some(Graph([], []));
    }
    g := WalkLoop(data);
  }

  /** Case 1: `Object.entries(data).forEach`, each key a node, each listed neighbour an edge. */
  method AdjacencyLoop(entries: seq<(string, Json)>) returns (graph: Graph)
    ensures graph == AdjacencyFrom(Graph([], []), entries, 0)
  {
    graph := Graph([], []);
    var i := 0;
    while i < |entries|
      invariant 0 <= i <= |entries|
      invariant AdjacencyFrom(graph, entries, i) == AdjacencyFrom(Graph([], []), entries, 0)
    {
      var (key, value) := entries[i];
      graph := SetNode(graph, key, key);
      if value.JArr? {
        graph := ListNeighbors(graph, key, value.items);
      }
      i := i + 1;
    }
  }

  /** The inner `forEach` of case 1: an edge to each neighbour, and its node if new. */
  method ListNeighbors(g0: Graph, key: string, ns: seq<Json>) returns (graph: Graph)
    ensures graph == ListedFrom(g0, key, ns, 0)
  {
    graph := g0;
    var j := 0;
    while j < |ns|
      invariant 0 <= j <= |ns|
      invariant ListedFrom(graph, key, ns, j) == ListedFrom(g0, key, ns, 0)
    {
      var target := JsString(ns[j]);
      graph := AddEdge(graph, key, target);
      graph := AddNodeIfAbsent(graph, target, target);
      j := j + 1;
    }
  }

  /** Case 2: the breadth-first `while (queue.length > 0)` loop from the root object. */
  method WalkLoop(data: Json) returns (g: Option<Graph>)
    requires !IsAdjacencyList(data) && data != JNull && HasTag(data, "object")
    ensures g == Extract(data)
  {
    var w := Walk([data], {}, Graph([], []));
    while |w.queue| > 0
      invariant WalkFrom(w) == Extract(data)
      decreases QueueSize(w.queue)
    {
      if CurrId(w.queue[0]) in w.visited {
        w := w.(queue := w.queue[1..]);
      } else {
        var next := VisitHeadOnce(w);
        if next.None? {
          return None;
        }
        w := next.value;
      }
    }
    g := Some(w.graph);
  }

  /** One turn of the loop on an unvisited head: shift it, add its node, visit its neighbours. */
  method VisitHeadOnce(w0: Walk) returns (r: Option<Walk>)
    requires |w0.queue| > 0
    ensures r == VisitHead(w0)
  {
    var curr := w0.queue[0];
    var currId := CurrId(curr);
    var w := Walk(w0.queue[1..], w0.visited + {currId}, SetNode(w0.graph, currId, NodeLabel(curr)));
    var neighbors := Neighbors(curr);
    if neighbors.Some? && neighbors.value.JArr? {
      r := VisitNeighbors(w, currId, neighbors.value.items);
    } else {
      r := Some(w);
    }
  }

  /** The inner `forEach` over the neighbours of the node just visited. */
  method VisitNeighbors(w0: Walk, currId: string, ns: seq<Json>) returns (r: Option<Walk>)
    ensures r == VisitFrom(w0, currId, ns, 0)
  {
    var w := w0;
    var j := 0;
    while j < |ns|
      invariant 0 <= j <= |ns|
      invariant VisitFrom(w, currId, ns, j) == VisitFrom(w0, currId, ns, 0)
      decreases |ns| - j
    {
      var next := VisitNeighbor(w, currId, ns[j]);
      if next.None? {
        return None;
      }
      w := next.value;
      j := j + 1;
    }
    return Some(w);
  }

  // ---------------------------------------------------------------------------
  // Properties

  /** The `Map` has one entry per id and every edge starts at one of them. */
  predicate WellFormed(g: Graph) {
    DistinctKeys(g.nodes) && SourcesAreNodes(g)
  }

  /** Every edge ends at a node. */
  predicate TargetsAreNodes(g: Graph) {
    forall i :: 0 <= i < |g.edges| ==> g.edges[i].1 in KeysOf(g.nodes)
  }

  /** Every node is labelled with its own id. */
  predicate LabelsAreIds(g: Graph) {
    OwnLabels(g.nodes)
  }

  predicate OwnLabels(nodes: seq<(string, string)>) {
    forall i :: 0 <= i < |nodes| ==> nodes[i].1 == nodes[i].0
  }

  /** The invariant of case 1. */
  predicate Good(g: Graph) {
    WellFormed(g) && TargetsAreNodes(g) && LabelsAreIds(g)
  }

  function NodeSet(g: Graph): set<string> {
    set k | k in KeysOf(g.nodes)
  }

  function TargetSet(edges: seq<(string, string)>): set<string> {
    set e | e in edges :: e.1
  }

  function KeySet(entries: seq<(string, Json)>): set<string> {
    set e | e in entries :: e.0
  }

  /** One edge from `id` to `String(n)` per listed neighbour `n`, in list order. */
  function Listed(id: string, ns: seq<Json>): (r: seq<(string, string)>)
    ensures |r| == |ns|
  {
    seq(|ns|, i requires 0 <= i < |ns| => (id, JsString(ns[i])))
  }

  /** The edges an adjacency list describes: each key's listed neighbours, key by key. */
  function ListedEdges(entries: seq<(string, Json)>): seq<(string, string)> {
    if |entries| == 0 then []
    else (if entries[0].1.JArr? then Listed(entries[0].0, entries[0].1.items) else []) + ListedEdges(entries[1..])
  }

  lemma {:induction false} PutLabels(fields: seq<(string, string)>, k: string)
    requires OwnLabels(fields)
    ensures OwnLabels(Put(fields, k, k))
  {
    if |fields| == 0 {
    } else if fields[0].0 == k {
      var r := [(k, k)] + fields[1..];
      assert Put(fields, k, k) == r;
      forall i | 0 <= i < |r| ensures r[i].1 == r[i].0 {
        if i > 0 {
          assert r[i] == fields[i];
        }
      }
    } else {
      assert OwnLabels(fields[1..]) by {
        forall i | 0 <= i < |fields| - 1 ensures fields[1..][i].1 == fields[1..][i].0 {
          assert fields[1..][i] == fields[i + 1];
        }
      }
      PutLabels(fields[1..], k);
      var rest := Put(fields[1..], k, k);
      var r := [fields[0]] + rest;
      assert Put(fields, k, k) == r;
      forall i | 0 <= i < |r| ensures r[i].1 == r[i].0 {
        if i > 0 {
          assert r[i] == rest[i - 1];
        }
      }
    }
  }

  lemma SetNodeOwnLabel(g: Graph, id: string)
    requires LabelsAreIds(g)
    ensures LabelsAreIds(SetNode(g, id, id))
    ensures NodeSet(SetNode(g, id, id)) == NodeSet(g) + {id}
  {
    PutLabels(g.nodes, id);
    var r := SetNode(g, id, id);
    assert r.nodes == Put(g.nodes, id, id);
    if KeysOf(r.nodes) == KeysOf(g.nodes) {
      assert NodeSet(r) == NodeSet(g);
    } else {
      assert KeysOf(r.nodes) == KeysOf(g.nodes) + [id];
    }
  }

  lemma TargetsKept(g: Graph, r: Graph)
    requires TargetsAreNodes(g) && r.edges == g.edges && NodeSet(g) <= NodeSet(r)
    ensures TargetsAreNodes(r)
  {
    forall i | 0 <= i < |r.edges| ensures r.edges[i].1 in KeysOf(r.nodes) {
      assert r.edges[i].1 in NodeSet(g);
    }
  }

  /** One listed neighbour: an edge to it, and a node for it unless there is one. */
  lemma ListedStep(g: Graph, id: string, t: string)
    requires Good(g) && id in KeysOf(g.nodes)
    ensures var r := AddNodeIfAbsent(AddEdge(g, id, t), t, t);
            && Good(r) && id in KeysOf(r.nodes)
            && r.edges == g.edges + [(id, t)]
            && NodeSet(r) == NodeSet(g) + {t}
  {
    var g1 := AddEdge(g, id, t);
    var r := AddNodeIfAbsent(g1, t, t);
    if t !in KeysOf(g1.nodes) {
      SetNodeOwnLabel(g1, t);
    } else {
      assert NodeSet(g) + {t} == NodeSet(g);
    }
    TargetsKept(g, r.(edges := g.edges));
  }

  lemma ListedFromProps(g: Graph, id: string, ns: seq<Json>, j: nat)
    requires j <= |ns|
    requires Good(g) && id in KeysOf(g.nodes)
    ensures var r := ListedFrom(g, id, ns, j);
            && Good(r) && id in KeysOf(r.nodes)
            && r.edges == g.edges + Listed(id, ns[j..])
            && NodeSet(r) == NodeSet(g) + TargetSet(Listed(id, ns[j..]))
  {
    ListedFromGood(g, id, ns, j);
    ListedFromEdges(g, id, ns, j);
    ListedFromNodes(g, id, ns, j);
  }

  lemma {:induction false} ListedFromGood(g: Graph, id: string, ns: seq<Json>, j: nat)
    requires j <= |ns|
    requires Good(g) && id in KeysOf(g.nodes)
    ensures var r := ListedFrom(g, id, ns, j); Good(r) && id in KeysOf(r.nodes)
    decreases |ns| - j
  {
    if j < |ns| {
      var t := JsString(ns[j]);
      ListedStep(g, id, t);
      ListedFromUnfold(g, id, ns, j);
      ListedFromGood(AddNodeIfAbsent(AddEdge(g, id, t), t, t), id, ns, j + 1);
    }
  }

  lemma {:induction false} ListedFromEdges(g: Graph, id: string, ns: seq<Json>, j: nat)
    requires j <= |ns|
    requires Good(g) && id in KeysOf(g.nodes)
    ensures ListedFrom(g, id, ns, j).edges == g.edges + Listed(id, ns[j..])
    decreases |ns| - j
  {
    if j == |ns| {
      assert Listed(id, ns[j..]) == [];
    } else {
      var t := JsString(ns[j]);
      ListedStep(g, id, t);
      ListedFromUnfold(g, id, ns, j);
      ListedFromEdges(AddNodeIfAbsent(AddEdge(g, id, t), t, t), id, ns, j + 1);
      ListedSplit(id, ns, j);
      ConcatAssoc(g.edges, [(id, t)], Listed(id, ns[j + 1..]));
    }
  }

  lemma {:induction false} ListedFromNodes(g: Graph, id: string, ns: seq<Json>, j: nat)
    requires j <= |ns|
    requires Good(g) && id in KeysOf(g.nodes)
    ensures NodeSet(ListedFrom(g, id, ns, j)) == NodeSet(g) + TargetSet(Listed(id, ns[j..]))
    decreases |ns| - j
  {
    if j == |ns| {
      assert Listed(id, ns[j..]) == [];
      assert TargetSet([]) == {};
    } else {
      var t := JsString(ns[j]);
      ListedStep(g, id, t);
      ListedFromUnfold(g, id, ns, j);
      ListedFromNodes(AddNodeIfAbsent(AddEdge(g, id, t), t, t), id, ns, j + 1);
      ListedSplit(id, ns, j);
    }
  }

  lemma ListedFromUnfold(g: Graph, id: string, ns: seq<Json>, j: nat)
    requires j < |ns|
    ensures ListedFrom(g, id, ns, j) ==
            ListedFrom(AddNodeIfAbsent(AddEdge(g, id, JsString(ns[j])), JsString(ns[j]), JsString(ns[j])), id, ns, j + 1)
  {
  }

  lemma ListedSplit(id: string, ns: seq<Json>, j: nat)
    requires j < |ns|
    ensures Listed(id, ns[j..]) == [(id, JsString(ns[j]))] + Listed(id, ns[j + 1..])
    ensures TargetSet(Listed(id, ns[j..])) == {JsString(ns[j])} + TargetSet(Listed(id, ns[j + 1..]))
  {
    var l := Listed(id, ns[j..]);
    assert l == [(id, JsString(ns[j]))] + Listed(id, ns[j + 1..]);
  }

  /** One entry of the adjacency list. */
  lemma EntryStep(g: Graph, key: string, value: Json)
    requires Good(g)
    ensures var g1 := SetNode(g, key, key);
            var r := if value.JArr? then ListedFrom(g1, key, value.items, 0) else g1;
            var listed := if value.JArr? then Listed(key, value.items) else [];
            && Good(r)
            && r.edges == g.edges + listed
            && NodeSet(r) == NodeSet(g) + {key} + TargetSet(listed)
  {
    var g1 := SetNode(g, key, key);
    SetNodeOwnLabel(g, key);
    TargetsKept(g, g1);
    if value.JArr? {
      ListedFromProps(g1, key, value.items, 0);
      assert value.items[0..] == value.items;
    } else {
      assert TargetSet([]) == {};
    }
  }

  /** The graph after entry `i`, in the terms of `AdjacencyFromUnfold`. */
  function AfterEntry(g: Graph, entries: seq<(string, Json)>, i: nat): Graph
    requires i < |entries|
  {
    var key, value := entries[i].0, entries[i].1;
    if value.JArr? then ListedFrom(SetNode(g, key, key), key, value.items, 0) else SetNode(g, key, key)
  }

  function EntryEdges(entries: seq<(string, Json)>, i: nat): seq<(string, string)>
    requires i < |entries|
  {
    if entries[i].1.JArr? then Listed(entries[i].0, entries[i].1.items) else []
  }

  lemma {:induction false} AdjacencyFromGood(g: Graph, entries: seq<(string, Json)>, i: nat)
    requires i <= |entries| && Good(g)
    ensures Good(AdjacencyFrom(g, entries, i))
    decreases |entries| - i
  {
    if i < |entries| {
      EntryStep(g, entries[i].0, entries[i].1);
      AdjacencyFromUnfold(g, entries, i);
      AdjacencyFromGood(AfterEntry(g, entries, i), entries, i + 1);
    }
  }

  lemma {:induction false} AdjacencyFromEdges(g: Graph, entries: seq<(string, Json)>, i: nat)
    requires i <= |entries| && Good(g)
    ensures AdjacencyFrom(g, entries, i).edges == g.edges + ListedEdges(entries[i..])
    decreases |entries| - i
  {
    if i == |entries| {
      assert entries[i..] == [];
    } else {
      var g2 := AfterEntry(g, entries, i);
      EntryStep(g, entries[i].0, entries[i].1);
      assert g2.edges == g.edges + EntryEdges(entries, i);
      AdjacencyFromUnfold(g, entries, i);
      AdjacencyFromEdges(g2, entries, i + 1);
      EntriesStep(entries, i);
      ConcatAssoc(g.edges, EntryEdges(entries, i), ListedEdges(entries[i + 1..]));
    }
  }

  lemma ConcatAssoc<T>(a: seq<T>, b: seq<T>, c: seq<T>)
    ensures (a + b) + c == a + (b + c)
  {
  }

  lemma {:induction false} AdjacencyFromNodes(g: Graph, entries: seq<(string, Json)>, i: nat)
    requires i <= |entries| && Good(g)
    ensures NodeSet(AdjacencyFrom(g, entries, i)) == NodeSet(g) + KeySet(entries[i..]) + TargetSet(ListedEdges(entries[i..]))
    decreases |entries| - i
  {
    if i == |entries| {
      assert entries[i..] == [];
      assert KeySet([]) == {} && TargetSet(ListedEdges([])) == {};
    } else {
      var g2 := AfterEntry(g, entries, i);
      EntryStep(g, entries[i].0, entries[i].1);
      assert NodeSet(g2) == NodeSet(g) + {entries[i].0} + TargetSet(EntryEdges(entries, i));
      AdjacencyFromUnfold(g, entries, i);
      AdjacencyFromNodes(g2, entries, i + 1);
      EntriesStep(entries, i);
    }
  }

  lemma AdjacencyFromUnfold(g: Graph, entries: seq<(string, Json)>, i: nat)
    requires i < |entries|
    ensures var (key, value) := entries[i];
            AdjacencyFrom(g, entries, i) ==
            AdjacencyFrom(if value.JArr? then ListedFrom(SetNode(g, key, key), key, value.items, 0) else SetNode(g, key, key), entries, i + 1)
  {
  }

  lemma EntriesStep(entries: seq<(string, Json)>, i: nat)
    requires i < |entries|
    ensures var listed := if entries[i].1.JArr? then Listed(entries[i].0, entries[i].1.items) else [];
            && ListedEdges(entries[i..]) == listed + ListedEdges(entries[i + 1..])
            && KeySet(entries[i..]) == {entries[i].0} + KeySet(entries[i + 1..])
            && TargetSet(ListedEdges(entries[i..])) == TargetSet(listed) + TargetSet(ListedEdges(entries[i + 1..]))
  {
    var rest := entries[i + 1..];
    assert entries[i..] == [entries[i]] + rest;
    assert entries[i..][1..] == rest;
  }

  /**
   * Case 1: one node per key and per listed neighbour, each labelled with its
   * id and none twice; one edge per listed neighbour, in the order of
   * `Object.entries`; every edge joins two nodes.
   */
  lemma AdjacencyListGraph(data: Json)
    requires IsAdjacencyList(data)
    ensures var entries := JsEntries(data.fields);
            var g := Extract(data).value;
            && Extract(data).Some?
            && Good(g)
            && g.edges == ListedEdges(entries)
            && NodeSet(g) == KeySet(entries) + TargetSet(ListedEdges(entries))
  {
    var entries := JsEntries(data.fields);
    AdjacencyFromGood(Graph([], []), entries, 0);
    AdjacencyFromEdges(Graph([], []), entries, 0);
    AdjacencyFromNodes(Graph([], []), entries, 0);
    assert entries[0..] == entries;
    assert NodeSet(Graph([], [])) == {};
  }

  // ---------------------------------------------------------------------------
  // Case 2

  /** The node ids of `g` are a prefix of those of `r`: ids are only ever appended. */
  predicate Extends(g: Graph, r: Graph) {
    KeysOf(g.nodes) <= KeysOf(r.nodes)
  }

  lemma VisitNeighborProps(w: Walk, currId: string, n: Json)
    requires WellFormed(w.graph) && currId in KeysOf(w.graph.nodes)
    ensures var r := VisitNeighbor(w, currId, n);
            r.Some? ==> WellFormed(r.value.graph) && Extends(w.graph, r.value.graph)
  {
    if n != JNull && !HasTag(n, "cyclic") && !HasTag(n, "object") {
      var t := JsString(n);
      var g1 := AddNodeIfAbsent(w.graph, t, t);
      assert currId in KeysOf(g1.nodes);
    }
  }

  lemma {:induction false} VisitFromProps(w: Walk, currId: string, ns: seq<Json>, j: nat)
    requires j <= |ns|
    requires WellFormed(w.graph) && currId in KeysOf(w.graph.nodes)
    ensures var r := VisitFrom(w, currId, ns, j);
            r.Some? ==> WellFormed(r.value.graph) && Extends(w.graph, r.value.graph)
    decreases |ns| - j
  {
    if j < |ns| {
      VisitNeighborProps(w, currId, ns[j]);
      var next := VisitNeighbor(w, currId, ns[j]);
      if next.Some? {
        assert currId in KeysOf(next.value.graph.nodes);
        VisitFromProps(next.value, currId, ns, j + 1);
      }
    }
  }

  /** The head's node comes first, and the neighbours only append. */
  lemma VisitHeadProps(w: Walk)
    requires |w.queue| > 0 && WellFormed(w.graph)
    ensures var r := VisitHead(w);
            var g1 := SetNode(w.graph, CurrId(w.queue[0]), NodeLabel(w.queue[0]));
            r.Some? ==> WellFormed(r.value.graph) && Extends(g1, r.value.graph) && Extends(w.graph, r.value.graph)
  {
    var curr := w.queue[0];
    var currId := CurrId(curr);
    var w1 := Walk(w.queue[1..], w.visited + {currId}, SetNode(w.graph, currId, NodeLabel(curr)));
    assert Extends(w.graph, w1.graph);
    match Neighbors(curr)
    case Some(JArr(ns)) =>
      VisitFromProps(w1, currId, ns, 0);
    case _ =>
  }

  lemma {:induction false} WalkFromProps(w: Walk)
    requires WellFormed(w.graph)
    ensures var r := WalkFrom(w); r.Some? ==> WellFormed(r.value) && Extends(w.graph, r.value)
    decreases QueueSize(w.queue)
  {
    if |w.queue| > 0 {
      if CurrId(w.queue[0]) in w.visited {
        WalkFromProps(w.(queue := w.queue[1..]));
      } else {
        VisitHeadProps(w);
        var r := VisitHead(w);
        if r.Some? {
          WalkFromProps(r.value);
        }
      }
    }
  }

  /** A walk whose head is not yet visited starts by giving the head its node. */
  lemma WalkFromFresh(w: Walk)
    requires WellFormed(w.graph) && |w.queue| > 0 && CurrId(w.queue[0]) !in w.visited
    ensures var r := WalkFrom(w);
            r.Some? ==> Extends(SetNode(w.graph, CurrId(w.queue[0]), NodeLabel(w.queue[0])), r.value)
  {
    VisitHeadProps(w);
    var r := VisitHead(w);
    if r.Some? {
      WalkFromProps(r.value);
    }
  }

  /**
   * The neighbour loop queues exactly the `object` neighbours, in order, and
   * never a `cyclic` one.
   */
  lemma {:induction false} VisitFromQueues(w: Walk, currId: string, ns: seq<Json>, j: nat)
    requires j <= |ns|
    ensures var r := VisitFrom(w, currId, ns, j);
            r.Some? ==> r.value.queue == w.queue + Queued(ns, j)
    decreases |ns| - j
  {
    if j < |ns| {
      var next := VisitNeighbor(w, currId, ns[j]);
      if next.Some? {
        var w1 := next.value;
        assert VisitFrom(w, currId, ns, j) == VisitFrom(w1, currId, ns, j + 1);
        VisitFromQueues(w1, currId, ns, j + 1);
        NeighborQueued(w, currId, ns[j]);
        QueuedAppend(w.queue, QueuedOne(ns[j]), Queued(ns, j + 1));
      }
    }
  }

  lemma QueuedAppend(q: seq<Json>, one: seq<Json>, rest: seq<Json>)
    ensures (q + one) + rest == q + (one + rest)
  {
  }

  /** What one neighbour adds to the queue. */
  function QueuedOne(n: Json): seq<Json> {
    if HasTag(n, "object") then [n] else []
  }

  lemma NeighborQueued(w: Walk, currId: string, n: Json)
    requires VisitNeighbor(w, currId, n).Some?
    ensures VisitNeighbor(w, currId, n).value.queue == w.queue + QueuedOne(n)
  {
    if !HasTag(n, "object") {
      assert w.queue + [] == w.queue;
    }
  }

  /**
   * The visited set at work: the walk expands each id at most once, never
   * one visited before it starts, and every expanded id becomes a node.
   */
  lemma {:induction false} ExpandedOnce(w: Walk)
    requires WellFormed(w.graph)
    ensures Expanded(w).Some? <==> WalkFrom(w).Some?
    ensures var e := Expanded(w);
            e.Some? ==>
              && Distinct(e.value)
              && (forall i :: 0 <= i < |e.value| ==> e.value[i] !in w.visited)
              && (forall i :: 0 <= i < |e.value| ==> e.value[i] in KeysOf(WalkFrom(w).value.nodes))
    decreases QueueSize(w.queue)
  {
    if |w.queue| > 0 {
      var c := CurrId(w.queue[0]);
      if c in w.visited {
        ExpandedOnce(w.(queue := w.queue[1..]));
      } else {
        VisitHeadProps(w);
        var r := VisitHead(w);
        if r.Some? {
          var w2 := r.value;
          ExpandedOnce(w2);
          WalkFromProps(w2);
          if Expanded(w2).Some? {
            var rest := Expanded(w2).value;
            var g1 := SetNode(w.graph, c, NodeLabel(w.queue[0]));
            assert c in KeysOf(g1.nodes);
            assert c in KeysOf(WalkFrom(w2).value.nodes);
            assert c !in rest by {
              forall i | 0 <= i < |rest| ensures rest[i] != c {
                assert rest[i] !in w2.visited;
              }
            }
            var e := [c] + rest;
            assert forall i :: 0 < i < |e| ==> e[i] == rest[i - 1];
          }
        }
      }
    }
  }

  /**
   * Case 2: the walk yields one node per id and every edge leaves a node;
   * the object the panel shows is the first node, and the walk expands each
   * id once, starting with the root's.
   */
  lemma ObjectGraphRootFirst(data: Json)
    requires HasTag(data, "object") && Extract(data).Some?
    ensures var g := Extract(data).value;
            WellFormed(g) && |g.nodes| > 0 && g.nodes[0].0 == CurrId(data)
    ensures var e := Expanded(Walk([data], {}, Graph([], [])));
            && e.Some? && Distinct(e.value) && |e.value| > 0 && e.value[0] == CurrId(data)
            && (forall i :: 0 <= i < |e.value| ==> e.value[i] in KeysOf(Extract(data).value.nodes))
  {
    var w := Walk([data], {}, Graph([], []));
    assert Extract(data) == WalkFrom(w);
    WalkFromProps(w);
    WalkFromFresh(w);
    assert KeysOf(SetNode(Graph([], []), CurrId(data), NodeLabel(data)).nodes) == [CurrId(data)];
    assert WellFormed(w.graph);
    ExpandedOnce(w);
  }

  /** The panel says "Empty Graph" only for an empty dict or a value neither extraction applies to. */
  lemma EmptyGraphIff(data: Json)
    requires Extract(data).Some?
    ensures |Extract(data).value.nodes| == 0 <==>
              (IsAdjacencyList(data) && |data.fields| == 0) || (!IsAdjacencyList(data) && !HasTag(data, "object"))
  {
    if IsAdjacencyList(data) {
      AdjacencyListGraph(data);
      var entries := JsEntries(data.fields);
      assert |entries| == |data.fields| by {
        assert |multiset(entries)| == |multiset(data.fields)|;
      }
      if |entries| > 0 {
        assert entries[0].0 in KeySet(entries);
        assert entries[0].0 in NodeSet(Extract(data).value);
      }
    } else if HasTag(data, "object") {
      ObjectGraphRootFirst(data);
    }
  }
}
