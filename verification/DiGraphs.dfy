/**
 Directed graphs as the networkx library keeps them: a dictionary of node attributes, and for
 each node the insertion-ordered dictionary of its incoming edges. A library call on a graph
 (topological sort, acyclicity test) is described by what it promises; the last section proves
 that the two promises fit together.
 */
module DiGraphs {
  import opened Prelude

  type Node = string

  /** Attributes of a node; None is an attribute that was never set. */
  datatype NodeData = NodeData(
    kind: Option<string>,
    depth: Option<int>,
    activeCves: Option<seq<string>>,
    name: Option<string>,
    version: Option<string>)

  /** The entry that node `src` has in the dictionary of predecessors of another node. */
  datatype InEdge = InEdge(src: Node, relation: string, weight: Option<real>)

  const NO_DATA := NodeData(None, None, None, None, None)
  const EMPTY_GRAPH := DiGraph(map[], map[])

  /** `data.get("active_cves", [])` */
  function Cves(data: NodeData): seq<string> {
    data.activeCves.GetOr([])
  }

  /** `graph[u][v].get('weight', 1.0)` */
  function Weight(e: InEdge): real {
    e.weight.GetOr(1.0)
  }

  ghost predicate DistinctSources(es: seq<InEdge>) {
    forall i, j :: 0 <= i < j < |es| ==> es[i].src != es[j].src
  }

  ghost predicate HasSource(es: seq<InEdge>, u: Node) {
    exists i :: 0 <= i < |es| && es[i].src == u
  }

  function SourceIndex(es: seq<InEdge>, u: Node): (k: nat)
    ensures k <= |es|
    ensures k < |es| ==> es[k].src == u
    ensures k == |es| ==> !HasSource(es, u)
  {
    if es == [] then 0
    else if es[0].src == u then 0
    else
      var k := SourceIndex(es[1..], u);
      assert k == |es[1..]| ==> forall i :: 1 <= i < |es| ==> es[i] == es[1..][i - 1];
      k + 1
  }

  /** Overwrites the entry with the same source, or adds one at the end. */
  function PutEdge(es: seq<InEdge>, e: InEdge): (r: seq<InEdge>)
    requires DistinctSources(es)
    ensures DistinctSources(r)
    ensures forall a :: HasSource(r, a) <==> HasSource(es, a) || a == e.src
    ensures forall i :: 0 <= i < |r| ==> r[i] == e || r[i] in es
    ensures !HasSource(es, e.src) ==> r == es + [e]
  {
    var k := SourceIndex(es, e.src);
    var r := if k < |es| then es[k := e] else es + [e];
    assert r[k].src == e.src;
    assert forall a :: HasSource(es, a) ==> HasSource(r, a) by {
      forall a | HasSource(es, a) ensures HasSource(r, a) {
        var i :| 0 <= i < |es| && es[i].src == a;
        assert r[i].src == a;
      }
    }
    assert k == |es| ==> forall i :: 0 <= i < |es| ==> es[i].src != e.src;
    r
  }

  datatype DiGraph = DiGraph(nodes: map<Node, NodeData>, pred: map<Node, seq<InEdge>>)
  {
    ghost predicate Valid() {
      && pred.Keys == nodes.Keys
      && (forall v :: v in pred ==> DistinctSources(pred[v]))
      && (forall v, i :: v in pred && 0 <= i < |pred[v]| ==> pred[v][i].src in nodes)
    }

    ghost predicate HasEdge(u: Node, v: Node) {
      v in pred && HasSource(pred[v], u)
    }

    ghost predicate Linked(p: seq<Node>, i: int) {
      0 < i < |p| && HasEdge(p[i - 1], p[i])
    }

    /** `p` is a directed path (possibly of length 0) along the edges of the graph. */
    ghost predicate IsPath(p: seq<Node>) {
      && |p| > 0
      && p[0] in nodes
      && forall i :: 0 < i < |p| ==> Linked(p, i)
    }

    /** `nx.is_directed_acyclic_graph`: no closed walk of positive length. */
    ghost predicate Acyclic() {
      forall p :: IsPath(p) && |p| > 1 ==> p[0] != p[|p| - 1]
    }

    /** The nodes of `order` are distinct and each one's predecessors come before it. */
    ghost predicate PredecessorsFirst(order: seq<Node>) {
      && Distinct(order)
      && (forall k :: 0 <= k < |order| ==> order[k] in nodes && order[k] in pred)
      && (forall k, i :: 0 <= k < |order| && 0 <= i < |pred[order[k]]| ==>
            pred[order[k]][i].src in order[..k])
    }

    /** The i-th predecessor of the k-th node of an order stands before it. */
    lemma SupplierPosition(order: seq<Node>, k: nat, i: nat) returns (m: nat)
      requires PredecessorsFirst(order) && k < |order| && order[k] in pred && i < |pred[order[k]]|
      ensures m < k && order[m] == pred[order[k]][i].src
    {
      assert pred[order[k]][i].src in order[..k];
      m :| 0 <= m < k && order[..k][m] == pred[order[k]][i].src;
    }

    /** `order` is a possible result of `nx.topological_sort`. */
    ghost predicate IsTopological(order: seq<Node>) {
      && PredecessorsFirst(order)
      && forall v :: v in nodes ==> v in order
    }

    /** What the two library calls promise: an order when there is no cycle, none otherwise. */
    ghost predicate IsSortOf(topo: Option<seq<Node>>) {
      match topo
      case Some(order) => IsTopological(order)
      case None => !Acyclic()
    }

    /** `graph.add_node`: attributes given override, the others stay. */
    function AddNode(v: Node, data: NodeData): (g: DiGraph)
      requires Valid()
      ensures g.Valid()
      ensures g.nodes.Keys == nodes.Keys + {v}
      ensures forall a, b :: g.HasEdge(a, b) <==> HasEdge(a, b)
    {
      var before := if v in nodes then nodes[v] else NO_DATA;
      var g := DiGraph(nodes[v := Merge(before, data)], if v in pred then pred else pred[v := []]);
      assert g.pred[v] == if v in pred then pred[v] else [];
      g
    }

    /** `graph.add_edge`: creates missing end points, overwrites the attributes of an existing edge. */
    function AddEdge(u: Node, v: Node, relation: string, weight: real): (g: DiGraph)
      requires Valid()
      ensures g.Valid()
      ensures g.nodes.Keys == nodes.Keys + {u, v}
      ensures forall a, b :: g.HasEdge(a, b) <==> HasEdge(a, b) || (a == u && b == v)
    {
      var g := AddNode(u, NO_DATA).AddNode(v, NO_DATA);
      var es := PutEdge(g.pred[v], InEdge(u, relation, Some(weight)));
      g.(pred := g.pred[v := es])
    }
  }

  function Merge(before: NodeData, data: NodeData): NodeData {
    NodeData(
      if data.kind.Some? then data.kind else before.kind,
      if data.depth.Some? then data.depth else before.depth,
      if data.activeCves.Some? then data.activeCves else before.activeCves,
      if data.name.Some? then data.name else before.name,
      if data.version.Some? then data.version else before.version)
  }

  // ---------- the attributes of one node and of one edge ----------

  /** The attributes of a node; none when it is not there. */
  ghost function DataAt(g: DiGraph, w: Node): NodeData {
    if w in g.nodes then g.nodes[w] else NO_DATA
  }

  /** The edge between two nodes with its attributes, if there is one. */
  ghost function EdgeAt(g: DiGraph, u: Node, v: Node): Option<InEdge> {
    if v in g.pred && SourceIndex(g.pred[v], u) < |g.pred[v]| then Some(g.pred[v][SourceIndex(g.pred[v], u)]) else None
  }

  lemma EdgeAtIff(g: DiGraph, u: Node, v: Node)
    ensures EdgeAt(g, u, v).Some? <==> g.HasEdge(u, v)
  {
    if v in g.pred && HasSource(g.pred[v], u) {
      var k := SourceIndex(g.pred[v], u);
    }
  }

  /** `graph.add_node` writes the attributes given over those of that node, and changes nothing else. */
  lemma AddNodeKeeps(g: DiGraph, v: Node, data: NodeData, g': DiGraph)
    requires g.Valid() && g' == g.AddNode(v, data)
    ensures g'.Valid() && g'.nodes.Keys == g.nodes.Keys + {v}
    ensures forall w :: DataAt(g', w) == if w == v then Merge(DataAt(g, v), data) else DataAt(g, w)
    ensures forall a, b :: EdgeAt(g', a, b) == EdgeAt(g, a, b)
  {
    hide SourceIndex;
  }

  lemma {:induction false} IndexIsUnique(es: seq<InEdge>, k: nat)
    requires DistinctSources(es) && k < |es|
    ensures SourceIndex(es, es[k].src) == k
  {
    assert HasSource(es, es[k].src);
  }

  lemma PutEdgeAt(es: seq<InEdge>, e: InEdge, a: Node)
    requires DistinctSources(es)
    ensures var r := PutEdge(es, e);
            var k := SourceIndex(r, a);
            && (a == e.src ==> k < |r| && r[k] == e)
            && (a != e.src ==> if SourceIndex(es, a) < |es| then k < |r| && r[k] == es[SourceIndex(es, a)]
                else k == |r|)
  {
    var r := PutEdge(es, e);
    var at := SourceIndex(es, e.src);
    assert r[at] == e;
    IndexIsUnique(r, at);
    var k := SourceIndex(es, a);
    if a != e.src && k < |es| {
      assert r[k] == es[k];
      IndexIsUnique(r, k);
    }
    if a != e.src && k == |es| {
      assert !HasSource(r, a);
    }
  }

  lemma AddEdgeShape(g: DiGraph, u: Node, v: Node, relation: string, weight: real)
    requires g.Valid() && u in g.nodes && v in g.nodes
    ensures v in g.pred && DistinctSources(g.pred[v])
    ensures g.AddEdge(u, v, relation, weight)
         == g.(pred := g.pred[v := PutEdge(g.pred[v], InEdge(u, relation, Some(weight)))])
  {
    hide PutEdge;
    assert g.nodes[u := Merge(g.nodes[u], NO_DATA)] == g.nodes;
    assert g.AddNode(u, NO_DATA) == g;
    assert g.nodes[v := Merge(g.nodes[v], NO_DATA)] == g.nodes;
    assert g.AddNode(v, NO_DATA) == g;
  }

  lemma EdgePut(g: DiGraph, v: Node, e: InEdge, a: Node, b: Node)
    requires v in g.pred && DistinctSources(g.pred[v])
    ensures EdgeAt(g.(pred := g.pred[v := PutEdge(g.pred[v], e)]), a, b)
         == if a == e.src && b == v then Some(e) else EdgeAt(g, a, b)
  {
    PutEdgeAt(g.pred[v], e, a);
    hide PutEdge, SourceIndex, DistinctSources, HasSource;
  }

  /** `graph.add_edge` between nodes that are there writes that edge, and changes nothing else. */
  lemma {:induction false} AddEdgeKeeps(g: DiGraph, u: Node, v: Node, relation: string, weight: real, g': DiGraph)
    requires g.Valid() && u in g.nodes && v in g.nodes && g' == g.AddEdge(u, v, relation, weight)
    ensures g'.Valid() && g'.nodes == g.nodes
    ensures forall a, b :: EdgeAt(g', a, b) == if a == u && b == v then Some(InEdge(u, relation, Some(weight)))
              else EdgeAt(g, a, b)
  {
    AddEdgeShape(g, u, v, relation, weight);
    hide DiGraph.Valid, DiGraph.AddEdge, PutEdge, EdgeAt, DistinctSources;
    forall a, b
      ensures EdgeAt(g', a, b) == if a == u && b == v then Some(InEdge(u, relation, Some(weight))) else EdgeAt(g, a, b)
    {
      EdgePut(g, v, InEdge(u, relation, Some(weight)), a, b);
    }
  }

  // ---------- paths ----------

  lemma PathFacts(g: DiGraph, p: seq<Node>, i: nat)
    requires g.Valid() && g.IsPath(p) && i < |p|
    ensures p[i] in g.nodes
  {
    if i > 0 {
      assert g.Linked(p, i);
    }
  }

  lemma PathPrefix(g: DiGraph, p: seq<Node>, n: nat)
    requires g.IsPath(p) && 0 < n <= |p|
    ensures g.IsPath(p[..n])
  {
    forall i | 0 < i < n
      ensures g.Linked(p[..n], i)
    {
      assert g.Linked(p, i);
    }
  }

  lemma PathSuffix(g: DiGraph, p: seq<Node>, n: nat)
    requires g.Valid() && g.IsPath(p) && n < |p|
    ensures g.IsPath(p[n..])
  {
    PathFacts(g, p, n);
    forall i | 0 < i < |p[n..]|
      ensures g.Linked(p[n..], i)
    {
      assert g.Linked(p, n + i);
    }
  }

  lemma PathExtend(g: DiGraph, p: seq<Node>, v: Node)
    requires g.IsPath(p) && g.HasEdge(p[|p| - 1], v)
    ensures g.IsPath(p + [v])
  {
    forall i | 0 < i < |p + [v]|
      ensures g.Linked(p + [v], i)
    {
      if i < |p| {
        assert g.Linked(p, i);
      }
    }
  }

  lemma PathPrepend(g: DiGraph, u: Node, p: seq<Node>)
    requires g.IsPath(p) && g.HasEdge(u, p[0]) && u in g.nodes
    ensures g.IsPath([u] + p)
  {
    forall i | 0 < i < |[u] + p|
      ensures g.Linked([u] + p, i)
    {
      if i > 1 {
        assert g.Linked(p, i - 1);
      }
    }
  }

  // ---------- an order exists exactly when there is no cycle ----------

  /** Along a path, positions in a topological order strictly increase. */
  lemma {:induction false} PathIncreases(g: DiGraph, order: seq<Node>, p: seq<Node>, k: nat)
    requires g.PredecessorsFirst(order) && g.IsPath(p)
    requires k < |order| && order[k] == p[|p| - 1]
    ensures |p| > 1 ==> p[0] in order[..k]
    decreases |p|
  {
    var n := |p| - 1;
    if n > 0 {
      assert g.Linked(p, n);
      var i :| 0 <= i < |g.pred[p[n]]| && g.pred[p[n]][i].src == p[n - 1];
      assert p[n - 1] in order[..k];
      var m :| 0 <= m < k && order[m] == p[n - 1];
      PathPrefix(g, p, n);
      PathIncreases(g, order, p[..n], m);
    }
  }

  lemma TopologicalImpliesAcyclic(g: DiGraph, order: seq<Node>)
    requires g.Valid() && g.IsTopological(order)
    ensures g.Acyclic()
  {
    forall p | g.IsPath(p) && |p| > 1
      ensures p[0] != p[|p| - 1]
    {
      PathFacts(g, p, |p| - 1);
      var k :| 0 <= k < |order| && order[k] == p[|p| - 1];
      PathIncreases(g, order, p, k);
    }
  }

  ghost predicate HasPredIn(g: DiGraph, v: Node, rest: set<Node>) {
    exists u :: u in rest && g.HasEdge(u, v)
  }

  /** When every node of `rest` has a predecessor there, one can walk backwards for ever. */
  lemma {:induction false} WalkBack(g: DiGraph, rest: set<Node>, n: nat) returns (p: seq<Node>)
    requires g.Valid() && rest != {} && rest <= g.nodes.Keys
    requires forall v {:trigger HasPredIn(g, v, rest)} :: v in rest ==> HasPredIn(g, v, rest)
    ensures g.IsPath(p) && |p| == n + 1
    ensures forall i :: 0 <= i < |p| ==> p[i] in rest
  {
    if n == 0 {
      var v :| v in rest;
      p := [v];
    } else {
      var q := WalkBack(g, rest, n - 1);
      assert HasPredIn(g, q[0], rest);
      var u :| u in rest && g.HasEdge(u, q[0]);
      PathPrepend(g, u, q);
      p := [u] + q;
    }
  }

  lemma FindCycle(g: DiGraph, rest: set<Node>) returns (cycle: seq<Node>)
    requires g.Valid() && rest != {} && rest <= g.nodes.Keys
    requires forall v {:trigger HasPredIn(g, v, rest)} :: v in rest ==> HasPredIn(g, v, rest)
    ensures g.IsPath(cycle) && |cycle| > 1 && cycle[0] == cycle[|cycle| - 1]
  {
    var p := WalkBack(g, rest, |rest|);
    var i, j := Pigeonhole(p, rest);
    PathPrefix(g, p, j + 1);
    PathSuffix(g, p[..j + 1], i);
    cycle := p[..j + 1][i..];
  }

  lemma SomeNodeIsReady(g: DiGraph, rest: set<Node>) returns (v: Node)
    requires g.Valid() && g.Acyclic() && rest != {} && rest <= g.nodes.Keys
    ensures v in rest && !HasPredIn(g, v, rest)
  {
    if forall v {:trigger HasPredIn(g, v, rest)} :: v in rest ==> HasPredIn(g, v, rest) {
      var cycle := FindCycle(g, rest);
      assert false;
    }
    v :| v in rest && !HasPredIn(g, v, rest);
  }

  lemma {:induction false} ExtendOrder(g: DiGraph, order: seq<Node>, rest: set<Node>)
    returns (full: seq<Node>)
    requires g.Valid() && g.Acyclic() && g.PredecessorsFirst(order)
    requires rest == g.nodes.Keys - set v | v in order
    ensures g.IsTopological(full)
    decreases rest
  {
    hide DiGraph.Acyclic;
    if rest == {} {
      full := order;
      forall v | v in g.nodes
        ensures v in order
      {
        assert v !in rest;
      }
    } else {
      var v := SomeNodeIsReady(g, rest);
      var longer := order + [v];
      assert forall k :: 0 <= k < |order| ==> longer[..k] == order[..k];
      assert longer[..|order|] == order;
      forall i | 0 <= i < |g.pred[v]|
        ensures g.pred[v][i].src in order
      {
        assert g.HasEdge(g.pred[v][i].src, v);
      }
      assert (set w | w in longer) == (set w | w in order) + {v};
      full := ExtendOrder(g, longer, rest - {v});
    }
  }

  /** A graph has a topological order if and only if it has no directed cycle. */
  lemma AcyclicIffSortable(g: DiGraph)
    requires g.Valid()
    ensures g.Acyclic() <==> exists order :: g.IsTopological(order)
  {
    if g.Acyclic() {
      var order := ExtendOrder(g, [], g.nodes.Keys);
    }
    if order :| g.IsTopological(order) {
      TopologicalImpliesAcyclic(g, order);
    }
  }
}
