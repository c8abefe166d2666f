/**
 predictive_inference/graph_builder.py: turning the discovered topology into the graph on which
 risk is propagated.
 */
module GraphBuilder {
  import opened Prelude
  import opened DiGraphs
  import opened DiscoveryEngine
  import CI = CausalInference

  const VENDOR_WEIGHT := 1.0
  const COMPONENT_WEIGHT := 0.8

  function ComponentId(dep: Dependency): string {
    dep.name + "@" + dep.version.GetOr("unknown")
  }

  /** The node a dependency stands for; dependencies of any other type are ignored. */
  function SourceOf(dep: Dependency): Option<Node> {
    if dep.kind == "vendor" then Some(dep.name)
    else if dep.kind == "component" then Some(ComponentId(dep))
    else None
  }

  // ---------- what the topology says ----------

  ghost predicate ListsSource(deps: seq<Dependency>, u: Node) {
    exists j :: 0 <= j < |deps| && SourceOf(deps[j]) == Some(u)
  }

  ghost predicate EdgeIn(topology: seq<Entry>, u: Node, v: Node) {
    exists i :: 0 <= i < |topology| && topology[i].vendor == v && ListsSource(topology[i].dependencies, u)
  }

  ghost predicate VendorIn(topology: seq<Entry>, v: Node) {
    exists i :: 0 <= i < |topology| && topology[i].vendor == v
  }

  ghost predicate NodeIn(topology: seq<Entry>, w: Node) {
    VendorIn(topology, w) || exists i :: 0 <= i < |topology| && ListsSource(topology[i].dependencies, w)
  }

  /** The last of the dependencies that stands for `u`. */
  ghost function LastFor(deps: seq<Dependency>, u: Node): Option<Dependency> {
    if deps == [] then None
    else
      var n := |deps| - 1;
      if SourceOf(deps[n]) == Some(u) then Some(deps[n]) else LastFor(deps[..n], u)
  }

  /** The last of the components that stand for `u`. */
  ghost function LastComponent(deps: seq<Dependency>, u: Node): Option<Dependency> {
    if deps == [] then None
    else
      var n := |deps| - 1;
      if deps[n].kind == "component" && ComponentId(deps[n]) == u then Some(deps[n]) else LastComponent(deps[..n], u)
  }

  /** The edge that a dependency gives: suppliers pass their whole risk on, components four fifths. */
  function EdgeFor(dep: Dependency, u: Node): InEdge {
    if dep.kind == "vendor" then InEdge(u, "SUPPLIES", Some(VENDOR_WEIGHT))
    else InEdge(u, "RUNS", Some(COMPONENT_WEIGHT))
  }

  function KindFor(dep: Dependency): string {
    if dep.kind == "vendor" then "Vendor" else "Component"
  }

  /** The attributes that a dependency gives its node. */
  function DataFor(dep: Dependency): NodeData {
    if dep.kind == "vendor" then NO_DATA.(kind := Some("Vendor"))
    else NO_DATA.(kind := Some("Component"), name := Some(dep.name), version := Some(dep.version.GetOr("unknown")))
  }

  function VendorData(depth: int, cves: seq<string>): NodeData {
    NO_DATA.(kind := Some("Vendor"), depth := Some(depth), activeCves := Some(cves))
  }

  /** The attributes of node `w` after an entry: the last dependency that stands for it settles its
      kind, the last component that does its name and version, and an entry of its own its depth and
      its CVEs. */
  ghost function DataAfter(before: NodeData, vendor: Node, depth: int, cves: seq<string>, deps: seq<Dependency>,
                           w: Node): NodeData
  {
    NodeData(
      if LastFor(deps, w).Some? then Some(KindFor(LastFor(deps, w).value))
      else if w == vendor then Some("Vendor") else before.kind,
      if w == vendor then Some(depth) else before.depth,
      if w == vendor then Some(cves) else before.activeCves,
      if LastComponent(deps, w).Some? then Some(LastComponent(deps, w).value.name) else before.name,
      if LastComponent(deps, w).Some? then Some(LastComponent(deps, w).value.version.GetOr("unknown"))
      else before.version)
  }

  /** The attributes of node `w` after all entries, when it had some before. */
  ghost function DataIn(before: NodeData, topology: seq<Entry>, w: Node): NodeData {
    if topology == [] then before
    else
      var e := topology[|topology| - 1];
      DataAfter(DataIn(before, topology[..|topology| - 1], w), e.vendor, e.depth, e.cves, e.dependencies, w)
  }

  /** The edge from `u` to `v` after all entries: the last dependency that gives it settles it. */
  ghost function EdgeOf(before: Option<InEdge>, topology: seq<Entry>, u: Node, v: Node): Option<InEdge> {
    if topology == [] then before
    else
      var e := topology[|topology| - 1];
      if e.vendor == v && LastFor(e.dependencies, u).Some? then Some(EdgeFor(LastFor(e.dependencies, u).value, u))
      else EdgeOf(before, topology[..|topology| - 1], u, v)
  }

  // ---------- one entry ----------

  /** The graph `now` is the graph `before` with one vendor and some of its dependencies added. */
  ghost predicate Grown(before: DiGraph, now: DiGraph, vendor: Node, depth: int, cves: seq<string>,
                        deps: seq<Dependency>)
  {
    && now.Valid()
    && (forall w :: w in now.nodes <==> w in before.nodes || w == vendor || ListsSource(deps, w))
    && (forall w :: DataAt(now, w) == DataAfter(DataAt(before, w), vendor, depth, cves, deps, w))
    && (forall a, b :: EdgeAt(now, a, b)
          == if b == vendor && LastFor(deps, a).Some? then Some(EdgeFor(LastFor(deps, a).value, a))
              else EdgeAt(before, a, b))
  }

  lemma {:induction false} LastForIff(deps: seq<Dependency>, u: Node)
    ensures LastFor(deps, u).Some? <==> ListsSource(deps, u)
    ensures LastFor(deps, u).Some? ==> SourceOf(LastFor(deps, u).value) == Some(u)
  {
    if deps != [] {
      var n := |deps| - 1;
      LastForIff(deps[..n], u);
      if ListsSource(deps, u) && SourceOf(deps[n]) != Some(u) {
        var k :| 0 <= k < |deps| && SourceOf(deps[k]) == Some(u);
        assert deps[..n][k] == deps[k];
      }
      if ListsSource(deps[..n], u) {
        var k :| 0 <= k < n && SourceOf(deps[..n][k]) == Some(u);
        assert deps[k] == deps[..n][k];
      }
    }
  }

  lemma LastForGrows(deps: seq<Dependency>, j: nat)
    requires j < |deps|
    ensures forall u :: LastFor(deps[..j + 1], u) == if SourceOf(deps[j]) == Some(u) then Some(deps[j])
              else LastFor(deps[..j], u)
  {
    assert deps[..j + 1][..j] == deps[..j];
  }

  lemma ListsSourceGrows(deps: seq<Dependency>, j: nat)
    requires j < |deps|
    ensures forall u :: ListsSource(deps[..j + 1], u) <==> ListsSource(deps[..j], u) || SourceOf(deps[j]) == Some(u)
  {
    forall u
      ensures ListsSource(deps[..j + 1], u) <==> ListsSource(deps[..j], u) || SourceOf(deps[j]) == Some(u)
    {
      if ListsSource(deps[..j], u) {
        var k :| 0 <= k < j && SourceOf(deps[..j][k]) == Some(u);
        assert deps[..j + 1][k] == deps[k];
      }
      assert deps[..j + 1][j] == deps[j];
    }
  }

  lemma {:induction false} DependencyAdded(before: DiGraph, now: DiGraph, vendor: Node, depth: int, cves: seq<string>,
                                           deps: seq<Dependency>, j: nat, u: Node, relation: string, weight: real)
    requires before.Valid() && j < |deps| && Grown(before, now, vendor, depth, cves, deps[..j])
               && SourceOf(deps[j]) == Some(u)
    requires EdgeFor(deps[j], u) == InEdge(u, relation, Some(weight)) && vendor in now.nodes
    ensures Grown(before, now.AddNode(u, DataFor(deps[j])).AddEdge(u, vendor, relation, weight), vendor, depth, cves,
                  deps[..j + 1])
  {
    hide DiGraph.AddNode, DiGraph.AddEdge, DiGraph.HasEdge, DiGraph.Valid, ListsSource, LastFor, EdgeFor, DataFor,
      SourceOf, DataAfter, Merge, DataAt, EdgeAt;
    ListsSourceGrows(deps, j);
    LastForGrows(deps, j);
    var g1 := now.AddNode(u, DataFor(deps[j]));
    var g2 := g1.AddEdge(u, vendor, relation, weight);
    AddNodeKeeps(now, u, DataFor(deps[j]), g1);
    AddEdgeKeeps(g1, u, vendor, relation, weight, g2);
    SameData(g1, g2);
    forall w
      ensures DataAt(g2, w) == DataAfter(DataAt(before, w), vendor, depth, cves, deps[..j + 1], w)
    {
      DataGrows(DataAt(before, w), vendor, depth, cves, deps, j, w);
    }
  }

  lemma SameData(g: DiGraph, g': DiGraph)
    requires g.nodes == g'.nodes
    ensures forall w :: DataAt(g, w) == DataAt(g', w)
  {
  }

  /** One more dependency writes its attributes over those of its node. */
  lemma DataGrows(before: NodeData, vendor: Node, depth: int, cves: seq<string>, deps: seq<Dependency>, j: nat, w: Node)
    requires j < |deps|
    ensures DataAfter(before, vendor, depth, cves, deps[..j + 1], w)
         == if SourceOf(deps[j]) == Some(w)
            then Merge(DataAfter(before, vendor, depth, cves, deps[..j], w), DataFor(deps[j]))
            else DataAfter(before, vendor, depth, cves, deps[..j], w)
  {
    assert deps[..j + 1][..j] == deps[..j];
  }

  class SupplyChainGraph {
    var graph: DiGraph

    constructor ()
      ensures graph == EMPTY_GRAPH
    {
      graph := EMPTY_GRAPH;
    }

    /** The body of the loop over entries. */
    method AddEntry(entry: Entry)
      requires graph.Valid()
      modifies this
      ensures graph.Valid() && Grown(old(graph), graph, entry.vendor, entry.depth, entry.cves, entry.dependencies)
    {
      hide DiGraph.AddEdge, DiGraph.AddNode, DiGraph.Valid, Grown, DataFor, VendorData;
      var vendor, deps := entry.vendor, entry.dependencies;
      ghost var before := graph;
      graph := graph.AddNode(vendor, VendorData(entry.depth, entry.cves));
      VendorAdded(before, vendor, entry.depth, entry.cves, deps);
      for j := 0 to |deps|
        invariant graph.Valid() && vendor in graph.nodes
        invariant Grown(before, graph, vendor, entry.depth, entry.cves, deps[..j])
      {
        if deps[j].kind == "vendor" {
          DependencyAdded(before, graph, vendor, entry.depth, entry.cves, deps, j, deps[j].name, "SUPPLIES",
                          VENDOR_WEIGHT);
          graph := graph.AddNode(deps[j].name, DataFor(deps[j]));
          graph := graph.AddEdge(deps[j].name, vendor, "SUPPLIES", VENDOR_WEIGHT);
        } else if deps[j].kind == "component" {
          var id := ComponentId(deps[j]);
          DependencyAdded(before, graph, vendor, entry.depth, entry.cves, deps, j, id, "RUNS", COMPONENT_WEIGHT);
          graph := graph.AddNode(id, DataFor(deps[j]));
          graph := graph.AddEdge(id, vendor, "RUNS", COMPONENT_WEIGHT);
        } else {
          NothingAdded(before, graph, vendor, entry.depth, entry.cves, deps, j);
        }
      }
      assert deps[..|deps|] == deps;
    }

    method BuildFromTopology(topology: seq<Entry>)
      requires graph.Valid()
      modifies this
      ensures graph.Valid() && Extends(old(graph), graph, topology)
    {
      hide Extends, Grown;
      NothingExtended(graph);
      for i := 0 to |topology|
        invariant graph.Valid() && Extends(old(graph), graph, topology[..i])
      {
        ghost var before := graph;
        AddEntry(topology[i]);
        EntryAdded(old(graph), before, graph, topology, i);
      }
      assert topology[..|topology|] == topology;
    }
  }

  lemma VendorAdded(before: DiGraph, vendor: Node, depth: int, cves: seq<string>, deps: seq<Dependency>)
    requires before.Valid()
    ensures Grown(before, before.AddNode(vendor, VendorData(depth, cves)), vendor, depth, cves, deps[..0])
  {
    hide EdgeAt, DataAt, DiGraph.AddNode;
    var data := VendorData(depth, cves);
    AddNodeKeeps(before, vendor, data, before.AddNode(vendor, data));
  }

  lemma NothingAdded(before: DiGraph, now: DiGraph, vendor: Node, depth: int, cves: seq<string>,
                     deps: seq<Dependency>, j: nat)
    requires j < |deps| && SourceOf(deps[j]) == None && Grown(before, now, vendor, depth, cves, deps[..j])
    ensures Grown(before, now, vendor, depth, cves, deps[..j + 1])
  {
    hide EdgeAt, DataAt, DataAfter;
    ListsSourceGrows(deps, j);
    LastForGrows(deps, j);
    forall w
      ensures DataAt(now, w) == DataAfter(DataAt(before, w), vendor, depth, cves, deps[..j + 1], w)
    {
      DataGrows(DataAt(before, w), vendor, depth, cves, deps, j, w);
    }
  }

  /** The graph `g` is `base` with exactly the nodes and edges the topology lists added, and with the
      attributes that the last mention of each gives. */
  ghost predicate Extends(base: DiGraph, g: DiGraph, topology: seq<Entry>) {
    && g.Valid()
    && (forall w :: w in g.nodes <==> w in base.nodes || NodeIn(topology, w))
    && (forall w :: DataAt(g, w) == DataIn(DataAt(base, w), topology, w))
    && (forall a, b :: EdgeAt(g, a, b) == EdgeOf(EdgeAt(base, a, b), topology, a, b))
  }

  /** What the builder makes of a topology, starting with no nodes. */
  ghost predicate Represents(g: DiGraph, topology: seq<Entry>) {
    Extends(EMPTY_GRAPH, g, topology)
  }

  lemma NothingExtended(base: DiGraph)
    requires base.Valid()
    ensures Extends(base, base, [])
  {
    hide EdgeAt, DataAt;
  }

  lemma EntryAdded(base: DiGraph, before: DiGraph, now: DiGraph, topology: seq<Entry>, i: nat)
    requires i < |topology| && Extends(base, before, topology[..i])
    requires Grown(before, now, topology[i].vendor, topology[i].depth, topology[i].cves, topology[i].dependencies)
    ensures Extends(base, now, topology[..i + 1])
  {
    hide EdgeAt, DataAt, DiGraph.Valid, ListsSource, LastFor, DataAfter, EdgeFor;
    var shorter, longer := topology[..i], topology[..i + 1];
    assert longer[..i] == shorter && longer[i] == topology[i];
    assert forall k :: 0 <= k < i ==> longer[k] == shorter[k];
    forall w
      ensures NodeIn(longer, w) <==>
                NodeIn(shorter, w) || w == longer[i].vendor || ListsSource(longer[i].dependencies, w)
    {
    }
  }

  /** There is an edge exactly when the topology lists the supplier for the consumer, of weight 1.0
      or 0.8. */
  lemma {:induction false} EdgeOfIff(topology: seq<Entry>, u: Node, v: Node)
    ensures EdgeOf(None, topology, u, v).Some? <==> EdgeIn(topology, u, v)
    ensures EdgeOf(None, topology, u, v).Some? ==>
              EdgeOf(None, topology, u, v).value.weight == Some(VENDOR_WEIGHT)
                  || EdgeOf(None, topology, u, v).value.weight == Some(COMPONENT_WEIGHT)
  {
    if topology != [] {
      var n := |topology| - 1;
      EdgeOfIff(topology[..n], u, v);
      LastForIff(topology[n].dependencies, u);
      assert forall i :: 0 <= i < n ==> topology[..n][i] == topology[i];
    }
  }

  lemma EdgesOfGraph(g: DiGraph, topology: seq<Entry>)
    requires Represents(g, topology)
    ensures forall a, b :: g.HasEdge(a, b) <==> EdgeIn(topology, a, b)
  {
    forall a, b
      ensures g.HasEdge(a, b) <==> EdgeIn(topology, a, b)
    {
      EdgeAtIff(g, a, b);
      EdgeOfIff(topology, a, b);
      assert EdgeAt(EMPTY_GRAPH, a, b) == None;
    }
  }

  // ---------- what a mention gives ----------

  /** The dependency stands for the node: a vendor for that of its name, a component for that of its name and its
      version, if it has one. */
  ghost predicate StandsFor(d: Dependency, w: Node) {
    || (d.kind == "vendor" && w == d.name)
    || (d.kind == "component" && w == d.name + "@" + (if d.version.Some? then d.version.value else "unknown"))
  }

  /** There is an edge to a vendor from each node that a dependency of one of its entries stands for, and no other,
      and there is a node for each of them and for each vendor, and no other. */
  lemma GraphHasWhatIsListed(g: DiGraph, topology: seq<Entry>, u: Node, v: Node)
    requires Represents(g, topology)
    ensures g.HasEdge(u, v) <==>
            exists i, j ::
              0 <= i < |topology| && topology[i].vendor == v
              && 0 <= j < |topology[i].dependencies| && StandsFor(topology[i].dependencies[j], u)
    ensures v in g.nodes <==>
            || (exists i :: 0 <= i < |topology| && topology[i].vendor == v)
            || exists i, j :: 0 <= i < |topology| && 0 <= j < |topology[i].dependencies|
                              && StandsFor(topology[i].dependencies[j], v)
  {
    hide Extends;
    EdgesOfGraph(g, topology);
    SourcesAre(topology, u);
    SourcesAre(topology, v);
    NodesOfGraph(g, topology);
  }

  lemma NodesOfGraph(g: DiGraph, topology: seq<Entry>)
    requires Represents(g, topology)
    ensures forall w :: w in g.nodes <==> NodeIn(topology, w)
  {
  }

  lemma SourcesAre(topology: seq<Entry>, u: Node)
    ensures forall i :: 0 <= i < |topology| ==>
              (ListsSource(topology[i].dependencies, u) <==>
               exists j :: 0 <= j < |topology[i].dependencies| && StandsFor(topology[i].dependencies[j], u))
  {
    forall i | 0 <= i < |topology|
      ensures ListsSource(topology[i].dependencies, u) <==>
              exists j :: 0 <= j < |topology[i].dependencies| && StandsFor(topology[i].dependencies[j], u)
    {
      var deps := topology[i].dependencies;
      assert forall j :: 0 <= j < |deps| ==> (SourceOf(deps[j]) == Some(u) <==> StandsFor(deps[j], u));
    }
  }

  /** The last mention decides. A vendor supplies with weight 1.0 and a component runs with weight 0.8; a node gets its
      kind, a component its name and version, and the vendor of the entry its depth and its CVEs. */
  lemma {:induction false} LastMentionDecides(front: seq<Entry>, e: Entry, deps: seq<Dependency>, d: Dependency)
    requires e.dependencies == deps + [d]
    ensures var t := front + [e];
            && DataIn(NO_DATA, t, e.vendor).depth == Some(e.depth)
            && DataIn(NO_DATA, t, e.vendor).activeCves == Some(e.cves)
            && (d.kind == "vendor" ==>
                  && EdgeOf(None, t, d.name, e.vendor) == Some(InEdge(d.name, "SUPPLIES", Some(1.0)))
                  && DataIn(NO_DATA, t, d.name).kind == Some("Vendor"))
            && (d.kind == "component" ==>
                  var version := if d.version.Some? then d.version.value else "unknown";
                  var id := d.name + "@" + version;
                  && EdgeOf(None, t, id, e.vendor) == Some(InEdge(id, "RUNS", Some(0.8)))
                  && DataIn(NO_DATA, t, id).kind == Some("Component")
                  && DataIn(NO_DATA, t, id).name == Some(d.name) && DataIn(NO_DATA, t, id).version == Some(version))
  {
    assert (front + [e])[..|front|] == front;
    assert (deps + [d])[..|deps|] == deps;
  }

  /** What an entry does not mention stays as it was before. */
  lemma {:induction false} UnmentionedStays(front: seq<Entry>, e: Entry, u: Node, w: Node)
    requires forall j :: 0 <= j < |e.dependencies| ==> !StandsFor(e.dependencies[j], u)
    ensures EdgeOf(None, front + [e], u, w) == EdgeOf(None, front, u, w)
    ensures w != e.vendor ==> EdgeOf(None, front + [e], w, w) == EdgeOf(None, front, w, w)
    ensures u != e.vendor ==> DataIn(NO_DATA, front + [e], u) == DataIn(NO_DATA, front, u)
    ensures e.dependencies == [] ==> DataIn(NO_DATA, front + [e], e.vendor).kind == Some("Vendor")
  {
    hide StandsFor;
    assert (front + [e])[..|front|] == front;
    NeverLast(e.dependencies, u);
  }

  lemma {:induction false} NeverLast(deps: seq<Dependency>, u: Node)
    requires forall j :: 0 <= j < |deps| ==> !StandsFor(deps[j], u)
    ensures LastFor(deps, u) == None && LastComponent(deps, u) == None
  {
    if deps != [] {
      NeverLast(deps[..|deps| - 1], u);
    }
  }

  // ---------- independence of order and repetition ----------

  /** Two topologies with the same entries, in any order and any number, give the same nodes and edges. */
  lemma OrderAndRepetitionIrrelevant(t: seq<Entry>, t': seq<Entry>, g: DiGraph, g': DiGraph)
    requires forall e :: e in t <==> e in t'
    requires Represents(g, t) && Represents(g', t')
    ensures g.nodes.Keys == g'.nodes.Keys
    ensures forall a, b :: g.HasEdge(a, b) <==> g'.HasEdge(a, b)
  {
    EdgesOfGraph(g, t);
    EdgesOfGraph(g', t');
    SameEntries(t, t');
    SameEntries(t', t);
  }

  lemma SameEntries(t: seq<Entry>, t': seq<Entry>)
    requires forall e :: e in t ==> e in t'
    ensures forall a, b :: EdgeIn(t, a, b) ==> EdgeIn(t', a, b)
    ensures forall w :: NodeIn(t, w) ==> NodeIn(t', w)
  {
    forall a, b | EdgeIn(t, a, b)
      ensures EdgeIn(t', a, b)
    {
      var i :| 0 <= i < |t| && t[i].vendor == b && ListsSource(t[i].dependencies, a);
      assert t[i] in t';
    }
    forall w | NodeIn(t, w)
      ensures NodeIn(t', w)
    {
      if i :| 0 <= i < |t| && t[i].vendor == w {
        assert t[i] in t';
      } else {
        var i :| 0 <= i < |t| && ListsSource(t[i].dependencies, w);
        assert t[i] in t';
      }
    }
  }

  /** The weights the builder writes are probabilities, as the causal model needs them to be. */
  lemma BuiltGraphSuitsModel(scm: CI.SupplyChainSCM, g: DiGraph, topology: seq<Entry>)
    requires Represents(g, topology) && CI.Unit(scm.baseProb) && CI.Unit(scm.causalStrength)
    ensures CI.UnitModel(scm, g)
  {
    forall v, i | v in g.pred && 0 <= i < |g.pred[v]|
      ensures CI.Unit(Weight(g.pred[v][i]))
    {
      var u := g.pred[v][i].src;
      IndexIsUnique(g.pred[v], i);
      assert EdgeAt(g, u, v) == Some(g.pred[v][i]);
      EdgeOfIff(topology, u, v);
      assert EdgeAt(EMPTY_GRAPH, u, v) == None;
    }
  }

  // ---------- acyclicity ----------

  /** `v` has an entry that lists the vendor `u` as a dependency. */
  ghost predicate DependsOnVendor(topology: seq<Entry>, v: Node, u: Node) {
    exists i, j :: 0 <= i < |topology| && topology[i].vendor == v
                && 0 <= j < |topology[i].dependencies|
                && topology[i].dependencies[j].kind == "vendor" && topology[i].dependencies[j].name == u
  }

  /** A component whose identifier `name@version` is also the name of a vendor that has an entry. */
  ghost predicate NameClash(topology: seq<Entry>) {
    exists i, j :: 0 <= i < |topology| && 0 <= j < |topology[i].dependencies|
                && topology[i].dependencies[j].kind == "component"
                && VendorIn(topology, ComponentId(topology[i].dependencies[j]))
  }

  /** The step from a supplier that has an entry itself to its consumer. */
  ghost predicate SupplyStep(topology: seq<Entry>, p: seq<Node>, i: int) {
    0 < i < |p| && VendorIn(topology, p[i - 1]) && EdgeIn(topology, p[i - 1], p[i])
  }

  ghost predicate VendorStep(topology: seq<Entry>, p: seq<Node>, i: int) {
    0 < i < |p| && DependsOnVendor(topology, p[i], p[i - 1])
  }

  /** No vendor depends on itself, directly or through others. */
  ghost predicate VendorsAcyclic(topology: seq<Entry>) {
    forall p: seq<Node> :: |p| > 1 && (forall i :: 0 < i < |p| ==> VendorStep(topology, p, i)) ==> p[0] != p[|p| - 1]
  }

  /** The same with a component counted as a vendor when its identifier names one. */
  ghost predicate SuppliersAcyclic(topology: seq<Entry>) {
    forall p: seq<Node> :: |p| > 1 && (forall i :: 0 < i < |p| ==> SupplyStep(topology, p, i)) ==> p[0] != p[|p| - 1]
  }

  lemma EdgeNeedsEntry(topology: seq<Entry>, u: Node, v: Node)
    requires EdgeIn(topology, u, v)
    ensures VendorIn(topology, v)
  {
  }

  lemma CycleInEntries(g: DiGraph, topology: seq<Entry>, p: seq<Node>)
    requires Represents(g, topology) && g.IsPath(p) && |p| > 1 && p[0] == p[|p| - 1]
    ensures forall i :: 0 < i < |p| ==> SupplyStep(topology, p, i)
  {
    EdgesOfGraph(g, topology);
    forall i | 0 < i < |p|
      ensures SupplyStep(topology, p, i)
    {
      assert g.Linked(p, i);
      var k := if i == 1 then |p| - 1 else i - 1;
      assert g.Linked(p, k);
      EdgeNeedsEntry(topology, p[k - 1], p[k]);
    }
  }

  lemma SupplyPath(g: DiGraph, topology: seq<Entry>, p: seq<Node>)
    requires Represents(g, topology) && |p| > 1 && forall i :: 0 < i < |p| ==> SupplyStep(topology, p, i)
    ensures g.IsPath(p)
  {
    EdgesOfGraph(g, topology);
    assert SupplyStep(topology, p, 1);
    forall i | 0 < i < |p|
      ensures g.Linked(p, i)
    {
      assert SupplyStep(topology, p, i);
    }
  }

  /** The built graph is a DAG if and only if the suppliers' relation has no cycle. */
  lemma BuiltGraphIsDag(g: DiGraph, topology: seq<Entry>)
    requires Represents(g, topology)
    ensures g.Acyclic() <==> SuppliersAcyclic(topology)
  {
    forall p | g.IsPath(p) && |p| > 1 && p[0] == p[|p| - 1]
      ensures !SuppliersAcyclic(topology)
    {
      CycleInEntries(g, topology, p);
    }
    forall p: seq<Node> | |p| > 1 && (forall i :: 0 < i < |p| ==> SupplyStep(topology, p, i)) && p[0] == p[|p| - 1]
      ensures !g.Acyclic()
    {
      SupplyPath(g, topology, p);
    }
  }

  lemma VendorEdge(topology: seq<Entry>, u: Node, v: Node)
    requires !NameClash(topology) && VendorIn(topology, u) && EdgeIn(topology, u, v)
    ensures DependsOnVendor(topology, v, u)
  {
    var i :| 0 <= i < |topology| && topology[i].vendor == v && ListsSource(topology[i].dependencies, u);
    var j :| 0 <= j < |topology[i].dependencies| && SourceOf(topology[i].dependencies[j]) == Some(u);
  }

  lemma VendorStepIsEdge(topology: seq<Entry>, u: Node, v: Node)
    requires DependsOnVendor(topology, v, u)
    ensures EdgeIn(topology, u, v) && VendorIn(topology, v)
  {
    var i, j :| 0 <= i < |topology| && topology[i].vendor == v
                && 0 <= j < |topology[i].dependencies|
                && topology[i].dependencies[j].kind == "vendor" && topology[i].dependencies[j].name == u;
    assert SourceOf(topology[i].dependencies[j]) == Some(u);
    assert ListsSource(topology[i].dependencies, u);
  }

  lemma SupplyCycleIsVendorCycle(topology: seq<Entry>, p: seq<Node>)
    requires !NameClash(topology) && forall i :: 0 < i < |p| ==> SupplyStep(topology, p, i)
    ensures forall i :: 0 < i < |p| ==> VendorStep(topology, p, i)
  {
    forall i | 0 < i < |p|
      ensures VendorStep(topology, p, i)
    {
      assert SupplyStep(topology, p, i);
      VendorEdge(topology, p[i - 1], p[i]);
    }
  }

  lemma VendorCycleIsSupplyCycle(topology: seq<Entry>, p: seq<Node>)
    requires |p| > 1 && p[0] == p[|p| - 1] && forall i :: 0 < i < |p| ==> VendorStep(topology, p, i)
    ensures forall i :: 0 < i < |p| ==> SupplyStep(topology, p, i)
  {
    forall i | 0 < i < |p|
      ensures SupplyStep(topology, p, i)
    {
      var k := if i == 1 then |p| - 1 else i - 1;
      assert VendorStep(topology, p, i) && VendorStep(topology, p, k);
      VendorStepIsEdge(topology, p[i - 1], p[i]);
      VendorStepIsEdge(topology, p[k - 1], p[k]);
    }
  }

  /** Unless a component's identifier is the name of a vendor, the graph is a DAG if and only if no
      vendor depends on itself. */
  lemma DagIffVendorsAcyclic(g: DiGraph, topology: seq<Entry>)
    requires Represents(g, topology) && !NameClash(topology)
    ensures g.Acyclic() <==> VendorsAcyclic(topology)
  {
    BuiltGraphIsDag(g, topology);
    forall p: seq<Node> | |p| > 1 && (forall i :: 0 < i < |p| ==> SupplyStep(topology, p, i)) && p[0] == p[|p| - 1]
      ensures !VendorsAcyclic(topology)
    {
      SupplyCycleIsVendorCycle(topology, p);
    }
    forall p: seq<Node> | |p| > 1 && (forall i :: 0 < i < |p| ==> VendorStep(topology, p, i)) && p[0] == p[|p| - 1]
      ensures !SuppliersAcyclic(topology)
    {
      VendorCycleIsSupplyCycle(topology, p);
    }
  }

  /** With a clash the graph can have a cycle although no vendor depends on any vendor. */
  lemma ClashBreaksDag(g: DiGraph)
    requires Represents(g, [Entry("log4j@2.14", 0, [], [], [Dependency("component", "log4j", Some("2.14"))])])
    ensures VendorsAcyclic([Entry("log4j@2.14", 0, [], [], [Dependency("component", "log4j", Some("2.14"))])])
    ensures !g.Acyclic()
  {
    var dep := Dependency("component", "log4j", Some("2.14"));
    var v := "log4j@2.14";
    var topology := [Entry(v, 0, [], [], [dep])];
    assert ComponentId(dep) == v;
    assert SourceOf(topology[0].dependencies[0]) == Some(v);
    assert ListsSource(topology[0].dependencies, v);
    assert EdgeIn(topology, v, v);
    assert VendorIn(topology, v);
    EdgesOfGraph(g, topology);
    var p := [v, v];
    assert g.Linked(p, 1);
    assert g.IsPath(p);
    forall q: seq<Node> | |q| > 1 && forall i :: 0 < i < |q| ==> VendorStep(topology, q, i)
      ensures q[0] != q[|q| - 1]
    {
      assert VendorStep(topology, q, 1);
    }
  }
}
