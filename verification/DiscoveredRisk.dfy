/**
 From discovery to risk: the graph built from a topology, and the risks computed on it, do not depend on
 the order in which the entries were recorded or on how often (discovery_engine.py, graph_builder.py
 and causal_inference.py together).
 */
module DiscoveredRisk {
  import opened Prelude
  import opened DiGraphs
  import opened DiscoveryEngine
  import opened GraphBuilder
  import CI = CausalInference

  /** Entries of one vendor tell the same of it. */
  ghost predicate Consistent(topology: seq<Entry>) {
    forall i, j :: 0 <= i < |topology| && 0 <= j < |topology| && topology[i].vendor == topology[j].vendor ==>
      topology[i].cves == topology[j].cves && topology[i].dependencies == topology[j].dependencies
  }

  lemma NoEntryNoEdge(topology: seq<Entry>, u: Node, v: Node)
    requires !VendorIn(topology, v)
    ensures EdgeOf(None, topology, u, v) == None
  {
    EdgeOfIff(topology, u, v);
  }

  /** Any entry of a vendor says which edges lead to it. */
  lemma {:induction false} EdgeOfEntry(topology: seq<Entry>, k: nat, u: Node)
    requires Consistent(topology) && k < |topology|
    ensures var deps := topology[k].dependencies;
            EdgeOf(None, topology, u, topology[k].vendor)
              == (if LastFor(deps, u).Some? then Some(EdgeFor(LastFor(deps, u).value, u)) else None)
    decreases |topology|
  {
    hide LastFor, EdgeFor;
    var n := |topology| - 1;
    var front, v := topology[..n], topology[k].vendor;
    assert Consistent(front);
    assert k < n ==> front[k].vendor == v;
    if VendorIn(front, v) {
      var i :| 0 <= i < n && front[i].vendor == v;
      EdgeOfEntry(front, i, u);
      assert topology[i].dependencies == topology[k].dependencies;
    } else {
      NoEntryNoEdge(front, u, v);
    }
  }

  lemma {:induction false} CvesOfEntry(topology: seq<Entry>, v: Node)
    requires Consistent(topology)
    ensures forall k :: 0 <= k < |topology| && topology[k].vendor == v ==>
              DataIn(NO_DATA, topology, v).activeCves == Some(topology[k].cves)
    ensures !VendorIn(topology, v) ==> DataIn(NO_DATA, topology, v).activeCves == None
    decreases |topology|
  {
    hide LastFor, LastComponent, KindFor;
    if topology != [] {
      var n := |topology| - 1;
      var front := topology[..n];
      assert Consistent(front);
      CvesOfEntry(front, v);
      forall k | 0 <= k < |topology| && topology[k].vendor == v
        ensures DataIn(NO_DATA, topology, v).activeCves == Some(topology[k].cves)
      {
        if topology[n].vendor != v {
          assert front[k] == topology[k];
        }
      }
      if VendorIn(front, v) {
        var i :| 0 <= i < n && front[i].vendor == v;
        assert topology[i].vendor == v;
      }
    }
  }

  ghost predicate EqualEntries(t: seq<Entry>, t': seq<Entry>) {
    forall e :: e in t <==> e in t'
  }

  lemma EntryOfOther(t: seq<Entry>, t': seq<Entry>, k: nat) returns (k': nat)
    requires EqualEntries(t, t') && k < |t|
    ensures k' < |t'| && t'[k'] == t[k]
  {
    assert t[k] in t';
    k' :| 0 <= k' < |t'| && t'[k'] == t[k];
  }

  lemma SameEdge(t: seq<Entry>, t': seq<Entry>, u: Node, v: Node)
    requires Consistent(t) && Consistent(t') && EqualEntries(t, t')
    ensures EdgeOf(None, t, u, v) == EdgeOf(None, t', u, v)
  {
    if VendorIn(t, v) {
      var k :| 0 <= k < |t| && t[k].vendor == v;
      var k' := EntryOfOther(t, t', k);
      EdgeOfEntry(t, k, u);
      EdgeOfEntry(t', k', u);
    } else {
      NoEntryNoEdge(t, u, v);
      OtherHasNone(t, t', v);
      NoEntryNoEdge(t', u, v);
    }
  }

  lemma OtherHasNone(t: seq<Entry>, t': seq<Entry>, v: Node)
    requires EqualEntries(t, t') && !VendorIn(t, v)
    ensures !VendorIn(t', v)
  {
    if VendorIn(t', v) {
      var k' :| 0 <= k' < |t'| && t'[k'].vendor == v;
      var k := EntryOfOther(t', t, k');
    }
  }

  lemma SameCves(t: seq<Entry>, t': seq<Entry>, v: Node)
    requires Consistent(t) && Consistent(t') && EqualEntries(t, t')
    ensures DataIn(NO_DATA, t, v).activeCves == DataIn(NO_DATA, t', v).activeCves
  {
    CvesOfEntry(t, v);
    CvesOfEntry(t', v);
    if VendorIn(t, v) {
      var k :| 0 <= k < |t| && t[k].vendor == v;
      var k' := EntryOfOther(t, t', k);
    } else {
      OtherHasNone(t, t', v);
    }
  }

  lemma OtherEdgeIsSame(g: DiGraph, g': DiGraph, v: Node, i: nat)
    requires g.Valid() && g'.Valid() && v in g.pred && i < |g.pred[v]|
    requires EdgeAt(g, g.pred[v][i].src, v) == EdgeAt(g', g.pred[v][i].src, v)
    ensures v in g'.pred && CI.Outweighed(g.pred[v][i], g'.pred[v])
  {
    IndexIsUnique(g.pred[v], i);
    var j := SourceIndex(g'.pred[v], g.pred[v][i].src);
    assert g'.pred[v][j] == g.pred[v][i];
  }

  lemma SameEntriesHeavier(t: seq<Entry>, t': seq<Entry>, g: DiGraph, g': DiGraph)
    requires Consistent(t) && Consistent(t') && EqualEntries(t, t') && Represents(g, t) && Represents(g', t')
    ensures CI.Heavier(g, g')
  {
    hide Consistent, EqualEntries, EdgeOf, DataIn;
    SameNodes(t, t', g, g');
    forall v | v in g.nodes
      ensures |Cves(g.nodes[v])| == |Cves(g'.nodes[v])|
    {
      SameCves(t, t', v);
      assert DataAt(EMPTY_GRAPH, v) == NO_DATA;
      assert DataAt(g, v) == DataIn(NO_DATA, t, v) && DataAt(g', v) == DataIn(NO_DATA, t', v);
    }
    forall v, i | v in g.pred && v in g'.pred && 0 <= i < |g.pred[v]|
      ensures CI.Outweighed(g.pred[v][i], g'.pred[v])
    {
      var u := g.pred[v][i].src;
      SameEdge(t, t', u, v);
      assert EdgeAt(EMPTY_GRAPH, u, v) == None;
      assert EdgeAt(g, u, v) == EdgeOf(None, t, u, v) && EdgeAt(g', u, v) == EdgeOf(None, t', u, v);
      OtherEdgeIsSame(g, g', v, i);
    }
  }

  lemma SameNodes(t: seq<Entry>, t': seq<Entry>, g: DiGraph, g': DiGraph)
    requires EqualEntries(t, t') && Represents(g, t) && Represents(g', t')
    ensures g.nodes.Keys == g'.nodes.Keys
  {
    hide Extends;
    OrderAndRepetitionIrrelevant(t, t', g, g');
  }

  /** Two topologies with the same entries, which agree on each vendor, give the same risks, whatever
      their order and repetitions. */
  lemma RiskIgnoresOrder(scm: CI.SupplyChainSCM, t: seq<Entry>, t': seq<Entry>, g: DiGraph, g': DiGraph,
                         iv: CI.Risks, r: CI.Risks, r': CI.Risks)
    requires Consistent(t) && Consistent(t') && EqualEntries(t, t') && Represents(g, t) && Represents(g', t')
               && g.Acyclic()
    requires CI.Unit(scm.baseProb) && CI.Unit(scm.causalStrength) && CI.UnitForced(iv)
    requires CI.Solves(scm, g, iv, r) && CI.Solves(scm, g', iv, r')
    ensures r == r'
  {
    hide Consistent, CI.Solves, CI.UnitModel, CI.Heavier;
    SameEntriesHeavier(t, t', g, g');
    SameEntriesHeavier(t', t, g', g);
    BuiltGraphSuitsModel(scm, g, t);
    BuiltGraphSuitsModel(scm, g', t');
    CI.SupplierOrderIrrelevant(scm, g, g', iv, r, r');
  }

  /** What discovery records agrees on each vendor. */
  lemma DiscoveredIsConsistent(s: Services, seed: string, maxDepth: int, topology: seq<Entry>)
    requires EqualEntries(Traversal(s, seed, maxDepth, 0), topology)
    ensures Consistent(topology)
  {
    RecordsAreFaithful(s, seed, maxDepth, 0);
    forall i | 0 <= i < |topology|
      ensures topology[i] == EntryOf(s, topology[i].vendor, topology[i].depth)
    {
      assert topology[i] in topology;
    }
  }

  /** From discovery to risk: the records of a seed, in any order and repeated at will, lead to one risk
      map, with or without interventions. */
  lemma DiscoveredRiskIsUnique(scm: CI.SupplyChainSCM, s: Services, seed: string, maxDepth: int, t: seq<Entry>,
                               t': seq<Entry>, g: DiGraph, g': DiGraph, iv: CI.Risks, r: CI.Risks, r': CI.Risks)
    requires EqualEntries(Traversal(s, seed, maxDepth, 0), t) && EqualEntries(Traversal(s, seed, maxDepth, 0), t')
    requires Represents(g, t) && Represents(g', t') && g.Acyclic()
    requires CI.Unit(scm.baseProb) && CI.Unit(scm.causalStrength) && CI.UnitForced(iv)
    requires CI.Solves(scm, g, iv, r) && CI.Solves(scm, g', iv, r')
    ensures r == r'
  {
    hide Consistent, Represents, CI.Solves;
    DiscoveredIsConsistent(s, seed, maxDepth, t);
    DiscoveredIsConsistent(s, seed, maxDepth, t');
    RiskIgnoresOrder(scm, t, t', g, g', iv, r, r');
  }
}
