/**
 predictive_inference/causal_inference.py: the structural causal model that propagates compromise
 risk from suppliers to consumers. Probabilities are reals. The two propagation loops are proved to
 compute the solution of the structural equations; the lemmas after them are about that solution.
 */
module CausalInference {
  import opened Prelude
  import opened DiGraphs

  type Risks = map<Node, real>

  datatype SupplyChainSCM = SupplyChainSCM(baseProb: real, causalStrength: real)

  /** `min(0.99, base + 0.2 * len(cves))` */
  function Intrinsic(baseProb: real, data: NodeData): real {
    var u := baseProb + |Cves(data)| as real * 0.2;
    if u < 0.99 then u else 0.99
  }

  function Impact(risk: real, e: InEdge, strength: real): real {
    risk * Weight(e) * strength
  }

  ghost predicate Known(es: seq<InEdge>, r: Risks) {
    forall i :: 0 <= i < |es| ==> es[i].src in r
  }

  /** The probability that no supplier passes its compromise on. */
  ghost function Safe(es: seq<InEdge>, r: Risks, strength: real): real
    requires Known(es, r)
  {
    if es == [] then 1.0
    else
      var n := |es| - 1;
      Safe(es[..n], r, strength) * (1.0 - Impact(r[es[n].src], es[n], strength))
  }

  /** A name for multiplication, so that a proof may hide it. */
  ghost predicate IsProduct(ab: real, a: real, b: real) {
    ab == a * b
  }

  /** `u + (1 - safe) - u * (1 - safe)` is the noisy-or of the intrinsic risk and the suppliers' one:
      the node is safe when it is safe from both. */
  ghost predicate IsNoisyOr(risk: real, u: real, safe: real) {
    IsProduct(1.0 - risk, 1.0 - u, safe)
  }

  /** The structural equation of node `v` under the interventions `iv`; it has no default value. */
  ghost predicate SolvesAt(scm: SupplyChainSCM, g: DiGraph, iv: Risks, r: Risks, v: Node) {
    && v in g.nodes && v in g.pred && v in r && Known(g.pred[v], r)
    && if v in iv then r[v] == iv[v]
       else IsNoisyOr(r[v], Intrinsic(scm.baseProb, g.nodes[v]), Safe(g.pred[v], r, scm.causalStrength))
  }

  /** `r` assigns a risk to every node, and each one satisfies its structural equation. */
  ghost predicate Solves(scm: SupplyChainSCM, g: DiGraph, iv: Risks, r: Risks) {
    r.Keys == g.nodes.Keys && forall v :: v in g.nodes ==> SolvesAt(scm, g, iv, r, v)
  }

  ghost function Members(s: seq<Node>): set<Node> {
    set v | v in s
  }

  lemma {:induction false} SafeFrame(es: seq<InEdge>, r: Risks, r': Risks, strength: real)
    requires Known(es, r) && Known(es, r')
    requires forall i :: 0 <= i < |es| ==> r[es[i].src] == r'[es[i].src]
    ensures Safe(es, r, strength) == Safe(es, r', strength)
  {
    if es != [] {
      SafeFrame(es[..|es| - 1], r, r', strength);
    }
  }

  /** Giving a risk to a further node leaves the equations already satisfied as they are. */
  lemma SolvesAtFrame(scm: SupplyChainSCM, g: DiGraph, iv: Risks, r: Risks, v: Node, newNode: Node, x: real)
    requires SolvesAt(scm, g, iv, r, v) && newNode !in r
    ensures SolvesAt(scm, g, iv, r[newNode := x], v)
  {
    hide IsNoisyOr;
    SafeFrame(g.pred[v], r, r[newNode := x], scm.causalStrength);
  }

  /** The loop over the parents of one node; the default of the lookup is never the value read. */
  method SafeFromParents(scm: SupplyChainSCM, parents: seq<InEdge>, riskState: Risks) returns (pSafe: real)
    requires Known(parents, riskState)
    ensures pSafe == Safe(parents, riskState, scm.causalStrength)
  {
    pSafe := 1.0;
    for i := 0 to |parents|
      invariant pSafe == Safe(parents[..i], riskState, scm.causalStrength)
    {
      var parent := parents[i].src;
      var parentRisk := if parent in riskState then riskState[parent] else scm.baseProb;
      var impact := parentRisk * Weight(parents[i]) * scm.causalStrength;
      pSafe := pSafe * (1.0 - impact);
      assert parents[..i + 1][..i] == parents[..i];
    }
    assert parents[..|parents|] == parents;
  }

  /** The body of the loop over nodes, for a node that is not forced. */
  method NodeRisk(scm: SupplyChainSCM, data: NodeData, parents: seq<InEdge>, riskState: Risks) returns (risk: real)
    requires Known(parents, riskState)
    ensures IsNoisyOr(risk, Intrinsic(scm.baseProb, data), Safe(parents, riskState, scm.causalStrength))
    ensures parents == [] ==>
              risk == if scm.baseProb + |Cves(data)| as real * 0.2 < 0.99
                      then scm.baseProb + |Cves(data)| as real * 0.2 else 0.99
  {
    var u := scm.baseProb + |Cves(data)| as real * 0.2;
    u := if u < 0.99 then u else 0.99;
    var pSafe := SafeFromParents(scm, parents, riskState);
    var pParent := 1.0 - pSafe;
    risk := u + pParent - (u * pParent);
  }

  ghost predicate SolvesPrefix(scm: SupplyChainSCM, g: DiGraph, iv: Risks, order: seq<Node>, k: nat, r: Risks)
    requires k <= |order|
  {
    r.Keys == Members(order[..k]) && forall j :: 0 <= j < k ==> SolvesAt(scm, g, iv, r, order[j])
  }

  /** When a node's turn comes, its suppliers have their risks and it has not. */
  lemma ParentsKnown(scm: SupplyChainSCM, g: DiGraph, iv: Risks, order: seq<Node>, k: nat, r: Risks)
    requires g.IsTopological(order) && k < |order| && SolvesPrefix(scm, g, iv, order, k, r)
    ensures order[k] in g.nodes && order[k] in g.pred && order[k] !in r && Known(g.pred[order[k]], r)
  {
  }

  lemma SolvesNew(scm: SupplyChainSCM, g: DiGraph, iv: Risks, r: Risks, v: Node, x: real)
    requires v in g.nodes && v in g.pred && v !in r && Known(g.pred[v], r)
    requires if v in iv then x == iv[v]
             else IsNoisyOr(x, Intrinsic(scm.baseProb, g.nodes[v]), Safe(g.pred[v], r, scm.causalStrength))
    ensures SolvesAt(scm, g, iv, r[v := x], v)
  {
    hide IsNoisyOr;
    SafeFrame(g.pred[v], r, r[v := x], scm.causalStrength);
  }

  lemma {:induction false} PrefixGrows(scm: SupplyChainSCM, g: DiGraph, iv: Risks, order: seq<Node>, k: nat, r: Risks,
                                       x: real)
    requires g.IsTopological(order) && k < |order| && SolvesPrefix(scm, g, iv, order, k, r) && order[k] !in r
    requires SolvesAt(scm, g, iv, r[order[k] := x], order[k])
    ensures SolvesPrefix(scm, g, iv, order, k + 1, r[order[k] := x])
  {
    hide SolvesAt;
    var v := order[k];
    assert order[..k + 1] == order[..k] + [v];
    forall j | 0 <= j < k
      ensures SolvesAt(scm, g, iv, r[v := x], order[j])
    {
      SolvesAtFrame(scm, g, iv, r, order[j], v, x);
    }
  }

  lemma {:induction false} PrefixComplete(scm: SupplyChainSCM, g: DiGraph, iv: Risks, order: seq<Node>, r: Risks)
    requires g.Valid() && g.IsTopological(order) && SolvesPrefix(scm, g, iv, order, |order|, r)
    ensures g.Acyclic() && Solves(scm, g, iv, r)
  {
    assert order[..|order|] == order;
    TopologicalImpliesAcyclic(g, order);
    forall v | v in g.nodes
      ensures SolvesAt(scm, g, iv, r, v)
    {
      var k :| 0 <= k < |order| && order[k] == v;
    }
  }

  /** `topo` stands for the answers of the two networkx calls on `g`. */
  method ComputeObservationalRisk(scm: SupplyChainSCM, g: DiGraph, topo: Option<seq<Node>>)
    returns (riskState: Risks)
    requires g.Valid() && g.IsSortOf(topo)
    ensures g.Acyclic() ==> Solves(scm, g, map[], riskState)
    ensures !g.Acyclic() ==> riskState == map[]
  {
    hide IsNoisyOr;
    riskState := map[];
    if topo.None? {
      return;
    }
    var order := topo.value;
    for k := 0 to |order|
      invariant SolvesPrefix(scm, g, map[], order, k, riskState)
    {
      var node := order[k];
      ParentsKnown(scm, g, map[], order, k, riskState);
      var risk := NodeRisk(scm, g.nodes[node], g.pred[node], riskState);
      SolvesNew(scm, g, map[], riskState, node, risk);
      PrefixGrows(scm, g, map[], order, k, riskState, risk);
      riskState := riskState[node := risk];
    }
    PrefixComplete(scm, g, map[], order, riskState);
  }

  method ComputeInterventionalRisk(scm: SupplyChainSCM, g: DiGraph, topo: Option<seq<Node>>, interventions: Risks)
    returns (riskState: Risks)
    requires g.Valid() && g.IsSortOf(topo)
    ensures g.Acyclic() ==> Solves(scm, g, interventions, riskState)
    ensures !g.Acyclic() ==> riskState == map[]
  {
    hide IsNoisyOr;
    riskState := map[];
    if topo.None? {
      return;
    }
    var order := topo.value;
    for k := 0 to |order|
      invariant SolvesPrefix(scm, g, interventions, order, k, riskState)
    {
      var node := order[k];
      ParentsKnown(scm, g, interventions, order, k, riskState);
      var risk;
      if node in interventions {
        risk := interventions[node];
      } else {
        risk := NodeRisk(scm, g.nodes[node], g.pred[node], riskState);
      }
      SolvesNew(scm, g, interventions, riskState, node, risk);
      PrefixGrows(scm, g, interventions, order, k, riskState, risk);
      riskState := riskState[node := risk];
    }
    PrefixComplete(scm, g, interventions, order, riskState);
  }

  // ---------- the solution is unique ----------

  ghost predicate Agree(r: Risks, r': Risks, v: Node) {
    v in r && v in r' && r[v] == r'[v]
  }

  lemma EquationAgrees(scm: SupplyChainSCM, g: DiGraph, iv: Risks, iv': Risks, r: Risks, r': Risks, v: Node)
    requires SolvesAt(scm, g, iv, r, v) && SolvesAt(scm, g, iv', r', v)
    requires v in iv && v !in iv' ==> iv[v] == r'[v]
    requires v in iv' ==> v in iv && iv'[v] == iv[v]
    requires forall i :: 0 <= i < |g.pred[v]| ==> Agree(r, r', g.pred[v][i].src)
    ensures Agree(r, r', v)
  {
    SafeFrame(g.pred[v], r, r', scm.causalStrength);
  }

  lemma {:induction false} SolutionsAgree(scm: SupplyChainSCM, g: DiGraph, order: seq<Node>, iv: Risks, iv': Risks,
                                         r: Risks, r': Risks, k: nat)
    requires g.IsTopological(order) && k < |order|
    requires Solves(scm, g, iv, r) && Solves(scm, g, iv', r')
    requires forall v :: v in iv && v in g.nodes && v !in iv' ==> iv[v] == r'[v]
    requires forall v :: v in iv' ==> v in iv && iv'[v] == iv[v]
    ensures Agree(r, r', order[k])
    decreases k
  {
    var v := order[k];
    assert SolvesAt(scm, g, iv, r, v) && SolvesAt(scm, g, iv', r', v);
    forall i | 0 <= i < |g.pred[v]|
      ensures Agree(r, r', g.pred[v][i].src)
    {
      var m := g.SupplierPosition(order, k, i);
      SolutionsAgree(scm, g, order, iv, iv', r, r', m);
    }
    EquationAgrees(scm, g, iv, iv', r, r', v);
  }

  /** The structural equations have at most one solution, whatever order it was computed in. */
  lemma {:induction false} SolutionUnique(scm: SupplyChainSCM, g: DiGraph, iv: Risks, r: Risks, r': Risks)
    requires g.Valid() && g.Acyclic() && Solves(scm, g, iv, r) && Solves(scm, g, iv, r')
    ensures r == r'
  {
    ForcingToOwnValues(scm, g, iv, iv, r, r');
  }

  /** Forcing any set of nodes, in addition to `iv'`, to the values they have anyway changes nothing. */
  lemma ForcingToOwnValues(scm: SupplyChainSCM, g: DiGraph, iv: Risks, iv': Risks, r: Risks, r': Risks)
    requires g.Valid() && g.Acyclic() && Solves(scm, g, iv, r) && Solves(scm, g, iv', r')
    requires forall v :: v in iv && v in g.nodes && v !in iv' ==> iv[v] == r'[v]
    requires forall v :: v in iv' ==> v in iv && iv'[v] == iv[v]
    ensures r == r'
  {
    hide SolvesAt;
    AcyclicIffSortable(g);
    var order :| g.IsTopological(order);
    forall v | v in g.nodes
      ensures Agree(r, r', v)
    {
      var k :| 0 <= k < |order| && order[k] == v;
      SolutionsAgree(scm, g, order, iv, iv', r, r', k);
    }
  }

  // ---------- bounds and monotonicity ----------

  ghost predicate Unit(x: real) {
    0.0 <= x <= 1.0
  }

  ghost predicate UnitWeights(es: seq<InEdge>) {
    forall i :: 0 <= i < |es| ==> Unit(Weight(es[i]))
  }

  ghost predicate UnitModel(scm: SupplyChainSCM, g: DiGraph) {
    Unit(scm.baseProb) && Unit(scm.causalStrength) && forall v :: v in g.pred ==> UnitWeights(g.pred[v])
  }

  ghost predicate UnitRisks(es: seq<InEdge>, r: Risks)
    requires Known(es, r)
  {
    forall i :: 0 <= i < |es| ==> Unit(r[es[i].src])
  }

  ghost predicate UnitForced(iv: Risks) {
    forall v :: v in iv ==> Unit(iv[v])
  }

  lemma ImpactUnit(risk: real, e: InEdge, strength: real)
    requires Unit(risk) && Unit(Weight(e)) && Unit(strength)
    ensures Unit(Impact(risk, e, strength)) && Unit(1.0 - Impact(risk, e, strength))
  {
    MulUnit(risk, Weight(e));
    MulUnit(risk * Weight(e), strength);
  }

  lemma {:induction false} SafeUnit(es: seq<InEdge>, r: Risks, strength: real)
    requires Known(es, r) && UnitRisks(es, r) && UnitWeights(es) && Unit(strength)
    ensures Unit(Safe(es, r, strength))
  {
    if es != [] {
      var n := |es| - 1;
      SafeUnit(es[..n], r, strength);
      ImpactUnit(r[es[n].src], es[n], strength);
      MulUnit(Safe(es[..n], r, strength), 1.0 - Impact(r[es[n].src], es[n], strength));
    }
  }

  lemma IntrinsicUnit(baseProb: real, data: NodeData)
    requires Unit(baseProb)
    ensures 0.0 <= Intrinsic(baseProb, data) <= 0.99
  {
  }

  lemma EquationInUnit(scm: SupplyChainSCM, g: DiGraph, iv: Risks, r: Risks, v: Node)
    requires UnitModel(scm, g) && UnitForced(iv) && SolvesAt(scm, g, iv, r, v) && UnitRisks(g.pred[v], r)
    ensures Unit(r[v])
  {
    if v !in iv {
      SafeUnit(g.pred[v], r, scm.causalStrength);
      IntrinsicUnit(scm.baseProb, g.nodes[v]);
      MulUnit(1.0 - Intrinsic(scm.baseProb, g.nodes[v]), Safe(g.pred[v], r, scm.causalStrength));
    }
  }

  lemma IntrinsicMono(baseProb: real, data: NodeData, data': NodeData)
    requires |Cves(data)| <= |Cves(data')|
    ensures Intrinsic(baseProb, data) <= Intrinsic(baseProb, data')
  {
  }

  lemma {:induction false} RiskAtIsProbability(scm: SupplyChainSCM, g: DiGraph, order: seq<Node>, iv: Risks, r: Risks,
                                               k: nat)
    requires g.IsTopological(order) && k < |order| && UnitModel(scm, g) && UnitForced(iv)
    requires Solves(scm, g, iv, r)
    ensures order[k] in r && Unit(r[order[k]])
    decreases k
  {
    var v := order[k];
    assert SolvesAt(scm, g, iv, r, v);
    forall i | 0 <= i < |g.pred[v]|
      ensures Unit(r[g.pred[v][i].src])
    {
      var m := g.SupplierPosition(order, k, i);
      RiskAtIsProbability(scm, g, order, iv, r, m);
    }
    EquationInUnit(scm, g, iv, r, v);
  }

  /** Every risk is a probability. */
  lemma RisksAreProbabilities(scm: SupplyChainSCM, g: DiGraph, iv: Risks, r: Risks)
    requires g.Valid() && g.Acyclic() && UnitModel(scm, g) && UnitForced(iv) && Solves(scm, g, iv, r)
    ensures forall v :: v in g.nodes ==> Unit(r[v])
  {
    AcyclicIffSortable(g);
    var order :| g.IsTopological(order);
    forall v | v in g.nodes
      ensures Unit(r[v])
    {
      var k :| 0 <= k < |order| && order[k] == v;
      RiskAtIsProbability(scm, g, order, iv, r, k);
    }
  }

  /** `e` has a counterpart in `es` that is at least as heavy. */
  ghost predicate Outweighed(e: InEdge, es: seq<InEdge>) {
    exists j :: 0 <= j < |es| && es[j].src == e.src && Weight(e) <= Weight(es[j])
  }

  /** `g'` has the nodes of `g`, at least its CVEs, and at least its edges with at least their weights. */
  ghost predicate Heavier(g: DiGraph, g': DiGraph) {
    && g.nodes.Keys == g'.nodes.Keys
    && (forall v :: v in g.nodes ==> |Cves(g.nodes[v])| <= |Cves(g'.nodes[v])|)
    && (forall v, i :: v in g.pred && v in g'.pred && 0 <= i < |g.pred[v]| ==> Outweighed(g.pred[v][i], g'.pred[v]))
  }

  lemma SafeOfNone(r: Risks, r': Risks, strength: real)
    ensures Safe([], r, strength) == Safe([], r', strength)
  {
  }

  lemma NothingOutweighs(es: seq<InEdge>)
    requires es != []
    ensures exists i :: 0 <= i < |es| && !Outweighed(es[i], [])
  {
    assert !Outweighed(es[0], []);
  }

  function Without(es: seq<InEdge>, k: nat): seq<InEdge>
    requires k < |es|
  {
    es[..k] + es[k + 1..]
  }

  lemma WithoutLast(es: seq<InEdge>, k: nat)
    requires k < |es| - 1
    ensures |Without(es, k)| == |es| - 1
    ensures Without(es, k)[..|es| - 2] == Without(es[..|es| - 1], k)
    ensures Without(es, k)[|es| - 2] == es[|es| - 1]
  {
  }

  lemma WithoutKnown(es: seq<InEdge>, k: nat, r: Risks)
    requires k < |es| && Known(es, r)
    ensures Known(Without(es, k), r)
  {
  }

  lemma SwapFactors(whole: real, front: real, rest: real, restFront: real, f: real, g: real)
    requires IsProduct(whole, front, f) && IsProduct(front, restFront, g) && IsProduct(rest, restFront, f)
    ensures IsProduct(whole, rest, g)
  {
  }

  lemma {:induction false} SafeWithout(es: seq<InEdge>, k: nat, r: Risks, strength: real)
    requires k < |es| && Known(es, r) && Known(Without(es, k), r)
    ensures IsProduct(Safe(es, r, strength), Safe(Without(es, k), r, strength),
                      1.0 - Impact(r[es[k].src], es[k], strength))
  {
    hide IsProduct, Safe, Impact;
    var n := |es| - 1;
    SafeLast(es, r, strength);
    if k == n {
      assert Without(es, k) == es[..n];
    } else {
      WithoutLast(es, k);
      WithoutKnown(es[..n], k, r);
      SafeWithout(es[..n], k, r, strength);
      SafeLast(Without(es, k), r, strength);
      SwapFactors(Safe(es, r, strength), Safe(es[..n], r, strength), Safe(Without(es, k), r, strength),
                  Safe(Without(es[..n], k), r, strength), 1.0 - Impact(r[es[n].src], es[n], strength),
                  1.0 - Impact(r[es[k].src], es[k], strength));
    }
  }

  lemma WithoutFacts(es: seq<InEdge>, es': seq<InEdge>, k: nat)
    requires DistinctSources(es) && DistinctSources(es') && es' != []
    requires forall i :: 0 <= i < |es| ==> Outweighed(es[i], es')
    requires k < |es| && es[k].src == es'[|es'| - 1].src
    ensures DistinctSources(Without(es, k))
    ensures Weight(es[k]) <= Weight(es'[|es'| - 1])
    ensures forall i :: 0 <= i < |Without(es, k)| ==> Outweighed(Without(es, k)[i], es'[..|es'| - 1])
  {
    var n := |es'| - 1;
    assert Outweighed(es[k], es');
    forall i | 0 <= i < |Without(es, k)|
      ensures Outweighed(Without(es, k)[i], es'[..n])
    {
      var m := if i < k then i else i + 1;
      assert Outweighed(es[m], es');
      var j :| 0 <= j < |es'| && es'[j].src == es[m].src && Weight(es[m]) <= Weight(es'[j]);
      assert es'[..n][j] == es'[j];
    }
  }

  lemma OutweighedShrinks(es: seq<InEdge>, es': seq<InEdge>)
    requires es' != [] && !HasSource(es, es'[|es'| - 1].src)
    requires forall i :: 0 <= i < |es| ==> Outweighed(es[i], es')
    ensures forall i :: 0 <= i < |es| ==> Outweighed(es[i], es'[..|es'| - 1])
  {
    forall i | 0 <= i < |es|
      ensures Outweighed(es[i], es'[..|es'| - 1])
    {
      assert Outweighed(es[i], es');
      var j :| 0 <= j < |es'| && es'[j].src == es[i].src && Weight(es[i]) <= Weight(es'[j]);
      assert es'[..|es'| - 1][j] == es'[j];
    }
  }

  lemma ImpactMono(x: real, e: InEdge, x': real, e': InEdge, strength: real)
    requires 0.0 <= x <= x' && 0.0 <= Weight(e) <= Weight(e') && 0.0 <= strength
    ensures Impact(x, e, strength) <= Impact(x', e', strength)
  {
    MulMono(x, x', Weight(e));
    MulMono(Weight(e), Weight(e'), x');
    MulMono(x * Weight(e), x' * Weight(e'), strength);
  }

  lemma SafeLast(es: seq<InEdge>, r: Risks, strength: real)
    requires es != [] && Known(es, r)
    ensures Known(es[..|es| - 1], r)
    ensures IsProduct(Safe(es, r, strength), Safe(es[..|es| - 1], r, strength),
                      1.0 - Impact(r[es[|es| - 1].src], es[|es| - 1], strength))
  {
  }

  lemma ProductMono(a: real, b: real, ab: real, a': real, b': real, ab': real)
    requires 0.0 <= a <= a' && 0.0 <= b <= b' && IsProduct(ab, a, b) && IsProduct(ab', a', b')
    ensures ab <= ab'
  {
    MulMono(a, a', b);
    MulMono(b, b', a');
  }

  ghost predicate RisksBelow(es: seq<InEdge>, r: Risks, r': Risks) {
    forall i :: 0 <= i < |es| ==> es[i].src in r && es[i].src in r' && r[es[i].src] <= r'[es[i].src]
  }

  ghost predicate UnitEdges(es: seq<InEdge>, r: Risks) {
    DistinctSources(es) && Known(es, r) && UnitRisks(es, r) && UnitWeights(es)
  }

  ghost predicate AllOutweighed(es: seq<InEdge>, es': seq<InEdge>) {
    forall i :: 0 <= i < |es| ==> Outweighed(es[i], es')
  }

  lemma FactorMono(x: real, e: InEdge, x': real, e': InEdge, strength: real)
    requires Unit(x) && Unit(x') && x <= x' && Unit(strength)
    requires Unit(Weight(e)) && Unit(Weight(e')) && Weight(e) <= Weight(e')
    ensures 0.0 <= 1.0 - Impact(x', e', strength) <= 1.0 - Impact(x, e, strength)
  {
    hide Impact;
    ImpactUnit(x', e', strength);
    ImpactMono(x, e, x', e', strength);
  }

  /** The step for a last supplier that both lists have. */
  lemma {:induction false} SafeAntitoneShared(es: seq<InEdge>, k: nat, r: Risks, es': seq<InEdge>, r': Risks,
                                              strength: real)
    requires es' != [] && k < |es| && Known(es, r) && Known(es', r') && Known(Without(es, k), r)
    requires 0.0 <= 1.0 - Impact(r'[es'[|es'| - 1].src], es'[|es'| - 1], strength)
                 <= 1.0 - Impact(r[es[k].src], es[k], strength)
    requires 0.0 <= Safe(es'[..|es'| - 1], r', strength) <= Safe(Without(es, k), r, strength)
    ensures Safe(es', r', strength) <= Safe(es, r, strength)
  {
    hide IsProduct, Impact, Safe, Without;
    var n := |es'| - 1;
    SafeLast(es', r', strength);
    SafeWithout(es, k, r, strength);
    ProductMono(Safe(es'[..n], r', strength), 1.0 - Impact(r'[es'[n].src], es'[n], strength), Safe(es', r', strength),
                Safe(Without(es, k), r, strength), 1.0 - Impact(r[es[k].src], es[k], strength), Safe(es, r, strength));
  }

  /** The step for a last supplier that only the second list has. */
  lemma SafeAntitoneExtra(safe: real, r': Risks, es': seq<InEdge>, strength: real)
    requires es' != [] && UnitEdges(es', r') && Unit(strength)
    requires Safe(es'[..|es'| - 1], r', strength) <= safe
    ensures Safe(es', r', strength) <= safe
  {
    var n := |es'| - 1;
    SafeUnit(es'[..n], r', strength);
    ImpactUnit(r'[es'[n].src], es'[n], strength);
    MulUnit(Safe(es'[..n], r', strength), 1.0 - Impact(r'[es'[n].src], es'[n], strength));
  }

  lemma WithoutUnit(es: seq<InEdge>, k: nat, r: Risks, r': Risks)
    requires k < |es| && UnitEdges(es, r) && RisksBelow(es, r, r')
    ensures UnitEdges(Without(es, k), r) && RisksBelow(Without(es, k), r, r')
  {
  }

  lemma DropLastUnit(es: seq<InEdge>, r: Risks)
    requires es != [] && UnitEdges(es, r)
    ensures UnitEdges(es[..|es| - 1], r)
  {
  }

  /** More and heavier suppliers with higher risks leave less safety. */
  lemma {:induction false} SafeAntitone(es: seq<InEdge>, r: Risks, es': seq<InEdge>, r': Risks, strength: real)
    requires UnitEdges(es, r) && UnitEdges(es', r') && Unit(strength)
    requires RisksBelow(es, r, r') && AllOutweighed(es, es')
    ensures Safe(es', r', strength) <= Safe(es, r, strength)
    decreases |es'|
  {
    hide Safe, Impact;
    if es' == [] {
      if es != [] {
        NothingOutweighs(es);
        assert false;
      }
      SafeOfNone(r, r', strength);
    } else {
      var n := |es'| - 1;
      DropLastUnit(es', r');
      var k := SourceIndex(es, es'[n].src);
      if k < |es| {
        WithoutFacts(es, es', k);
        WithoutUnit(es, k, r, r');
        SafeAntitone(Without(es, k), r, es'[..n], r', strength);
        SafeUnit(es'[..n], r', strength);
        FactorMono(r[es[k].src], es[k], r'[es'[n].src], es'[n], strength);
        SafeAntitoneShared(es, k, r, es', r', strength);
      } else {
        OutweighedShrinks(es, es');
        SafeAntitone(es, r, es'[..n], r', strength);
        SafeAntitoneExtra(Safe(es, r, strength), r', es', strength);
      }
    }
  }

  ghost predicate ForcedBelow(iv: Risks, iv': Risks) {
    iv.Keys == iv'.Keys && forall v :: v in iv ==> iv[v] <= iv'[v]
  }

  lemma ComplementMono(u: real, safe: real, x: real, u': real, safe': real, x': real)
    requires 0.0 <= u <= u' <= 1.0 && 0.0 <= safe' <= safe
    requires IsNoisyOr(x, u, safe) && IsNoisyOr(x', u', safe')
    ensures x <= x'
  {
    ProductMono(1.0 - u', safe', 1.0 - x', 1.0 - u, safe, 1.0 - x);
  }

  /** One equation: suppliers that are more, heavier and riskier give a higher risk. */
  lemma EquationMono(scm: SupplyChainSCM, g: DiGraph, g': DiGraph, iv: Risks, iv': Risks, r: Risks, r': Risks, v: Node)
    requires g.Valid() && g'.Valid() && Heavier(g, g') && UnitModel(scm, g) && UnitModel(scm, g')
    requires SolvesAt(scm, g, iv, r, v) && SolvesAt(scm, g', iv', r', v) && v !in iv && v !in iv'
    requires UnitRisks(g.pred[v], r) && UnitRisks(g'.pred[v], r') && RisksBelow(g.pred[v], r, r')
    ensures r[v] <= r'[v]
  {
    hide IsNoisyOr, Safe, Impact, Intrinsic;
    SafeAntitone(g.pred[v], r, g'.pred[v], r', scm.causalStrength);
    SafeUnit(g'.pred[v], r', scm.causalStrength);
    IntrinsicUnit(scm.baseProb, g.nodes[v]);
    IntrinsicUnit(scm.baseProb, g'.nodes[v]);
    IntrinsicMono(scm.baseProb, g.nodes[v], g'.nodes[v]);
    ComplementMono(Intrinsic(scm.baseProb, g.nodes[v]), Safe(g.pred[v], r, scm.causalStrength), r[v],
                   Intrinsic(scm.baseProb, g'.nodes[v]), Safe(g'.pred[v], r', scm.causalStrength), r'[v]);
  }

  ghost predicate NoRiskier(r: Risks, r': Risks, v: Node) {
    v in r && v in r' && r[v] <= r'[v]
  }

  lemma {:induction false} RiskAtMono(scm: SupplyChainSCM, g: DiGraph, g': DiGraph, order: seq<Node>,
                                     iv: Risks, iv': Risks, r: Risks, r': Risks, k: nat)
    requires g.Valid() && g'.Valid() && g'.IsTopological(order) && k < |order|
    requires Heavier(g, g') && UnitModel(scm, g) && UnitModel(scm, g') && ForcedBelow(iv, iv')
    requires Solves(scm, g, iv, r) && Solves(scm, g', iv', r')
    requires forall v :: v in g.nodes ==> Unit(r[v]) && Unit(r'[v])
    ensures NoRiskier(r, r', order[k])
    decreases k
  {
    hide IsNoisyOr, Safe, Impact, Intrinsic, UnitModel, Weight;
    var v := order[k];
    assert SolvesAt(scm, g, iv, r, v) && SolvesAt(scm, g', iv', r', v);
    if v !in iv {
      forall i | 0 <= i < |g.pred[v]|
        ensures NoRiskier(r, r', g.pred[v][i].src)
      {
        assert Outweighed(g.pred[v][i], g'.pred[v]);
        var j :| 0 <= j < |g'.pred[v]| && g'.pred[v][j].src == g.pred[v][i].src;
        var m := g'.SupplierPosition(order, k, j);
        RiskAtMono(scm, g, g', order, iv, iv', r, r', m);
      }
      EquationMono(scm, g, g', iv, iv', r, r', v);
    }
  }

  /** An acyclic graph stays acyclic when edges are dropped. */
  lemma HeavierAcyclic(g: DiGraph, g': DiGraph)
    requires g.Valid() && g'.Valid() && Heavier(g, g') && g'.Acyclic()
    ensures g.Acyclic()
  {
    forall p | g.IsPath(p)
      ensures g'.IsPath(p)
    {
      forall i | 0 < i < |p|
        ensures g'.Linked(p, i)
      {
        assert g.Linked(p, i);
        var j :| 0 <= j < |g.pred[p[i]]| && g.pred[p[i]][j].src == p[i - 1];
        assert Outweighed(g.pred[p[i]][j], g'.pred[p[i]]);
      }
    }
  }

  /** Raising forced values, adding CVEs and adding or strengthening edges never lowers a risk. */
  lemma {:induction false} RiskMonotone(scm: SupplyChainSCM, g: DiGraph, g': DiGraph, iv: Risks, iv': Risks, r: Risks,
                                        r': Risks)
    requires g.Valid() && g'.Valid() && g'.Acyclic() && Heavier(g, g')
    requires UnitModel(scm, g) && UnitModel(scm, g') && UnitForced(iv) && UnitForced(iv') && ForcedBelow(iv, iv')
    requires Solves(scm, g, iv, r) && Solves(scm, g', iv', r')
    ensures forall v :: v in g.nodes ==> r[v] <= r'[v]
  {
    hide SolvesAt;
    HeavierAcyclic(g, g');
    RisksAreProbabilities(scm, g, iv, r);
    RisksAreProbabilities(scm, g', iv', r');
    AcyclicIffSortable(g');
    var order :| g'.IsTopological(order);
    forall v | v in g.nodes
      ensures NoRiskier(r, r', v)
    {
      var k :| 0 <= k < |order| && order[k] == v;
      RiskAtMono(scm, g, g', order, iv, iv', r, r', k);
    }
  }

  lemma HeavierReflexive(g: DiGraph, v: Node, i: nat)
    requires v in g.pred && i < |g.pred[v]|
    ensures Outweighed(g.pred[v][i], g.pred[v])
  {
  }

  /** `graph.add_edge` between stored nodes, not overwriting an edge, makes the graph heavier. */
  lemma AddEdgeHeavier(g: DiGraph, u: Node, v: Node, relation: string, weight: real)
    requires g.Valid() && u in g.nodes && v in g.nodes && !g.HasEdge(u, v)
    ensures Heavier(g, g.AddEdge(u, v, relation, weight))
  {
    var g' := g.AddEdge(u, v, relation, weight);
    forall w, i | w in g.pred && w in g'.pred && 0 <= i < |g.pred[w]|
      ensures Outweighed(g.pred[w][i], g'.pred[w])
    {
      assert g'.pred[w][i] == g.pred[w][i];
    }
  }

  /** A further CVE on a stored node makes the graph heavier and keeps its edges. */
  lemma AddCveHeavier(g: DiGraph, v: Node, cve: string)
    requires g.Valid() && v in g.nodes
    ensures Heavier(g, g.AddNode(v, NO_DATA.(activeCves := Some(Cves(g.nodes[v]) + [cve]))))
  {
    var g' := g.AddNode(v, NO_DATA.(activeCves := Some(Cves(g.nodes[v]) + [cve])));
    forall w, i | w in g.pred && 0 <= i < |g.pred[w]|
      ensures Outweighed(g.pred[w][i], g'.pred[w])
    {
      HeavierReflexive(g, w, i);
    }
  }

  lemma AddEdgeUnit(scm: SupplyChainSCM, g: DiGraph, u: Node, v: Node, relation: string, weight: real)
    requires g.Valid() && u in g.nodes && v in g.nodes && UnitModel(scm, g) && Unit(weight)
    ensures UnitModel(scm, g.AddEdge(u, v, relation, weight))
  {
    var g' := g.AddEdge(u, v, relation, weight);
    var es := PutEdge(g.pred[v], InEdge(u, relation, Some(weight)));
    assert g'.pred == g.pred[v := es];
    assert UnitWeights(es) by {
      forall i | 0 <= i < |es|
        ensures Unit(Weight(es[i]))
      {
        assert es[i] == InEdge(u, relation, Some(weight)) || es[i] in g.pred[v];
      }
    }
  }

  /** Adding an edge that keeps the graph acyclic never lowers a risk. */
  lemma {:induction false} AddedEdgeNeverLowers(scm: SupplyChainSCM, g: DiGraph, u: Node, v: Node, relation: string,
                                                weight: real, iv: Risks, r: Risks, r': Risks)
    requires g.Valid() && u in g.nodes && v in g.nodes && !g.HasEdge(u, v) && UnitModel(scm, g) && Unit(weight)
    requires g.AddEdge(u, v, relation, weight).Acyclic() && UnitForced(iv)
    requires Solves(scm, g, iv, r) && Solves(scm, g.AddEdge(u, v, relation, weight), iv, r')
    ensures forall w :: w in g.nodes ==> r[w] <= r'[w]
  {
    hide Solves, DiGraph.AddEdge;
    AddEdgeHeavier(g, u, v, relation, weight);
    AddEdgeUnit(scm, g, u, v, relation, weight);
    RiskMonotone(scm, g, g.AddEdge(u, v, relation, weight), iv, iv, r, r');
  }

  /** A further CVE never lowers a risk. */
  lemma {:induction false} AddedCveNeverLowers(scm: SupplyChainSCM, g: DiGraph, v: Node, cve: string, iv: Risks,
                                               r: Risks, r': Risks)
    requires g.Valid() && g.Acyclic() && v in g.nodes && UnitModel(scm, g) && UnitForced(iv)
    requires Solves(scm, g, iv, r)
    requires Solves(scm, g.AddNode(v, NO_DATA.(activeCves := Some(Cves(g.nodes[v]) + [cve]))), iv, r')
    ensures forall w :: w in g.nodes ==> r[w] <= r'[w]
  {
    var g' := g.AddNode(v, NO_DATA.(activeCves := Some(Cves(g.nodes[v]) + [cve])));
    AddCveHeavier(g, v, cve);
    SameEdgesAcyclic(g, g');
    RiskMonotone(scm, g, g', iv, iv, r, r');
  }

  lemma SameEdgesAcyclic(g: DiGraph, g': DiGraph)
    requires g.Acyclic() && g.nodes.Keys == g'.nodes.Keys && forall a, b :: g.HasEdge(a, b) <==> g'.HasEdge(a, b)
    ensures g'.Acyclic()
  {
    forall p | g'.IsPath(p)
      ensures g.IsPath(p)
    {
      forall i | 0 < i < |p|
        ensures g.Linked(p, i)
      {
        assert g'.Linked(p, i);
      }
    }
  }

  /** The order in which a node's suppliers are stored, or any other difference between two graphs
      with the same edges, weights and CVE counts, does not affect the risks. */
  lemma {:induction false} SupplierOrderIrrelevant(scm: SupplyChainSCM, g: DiGraph, g': DiGraph, iv: Risks, r: Risks,
                                                   r': Risks)
    requires g.Valid() && g'.Valid() && g.Acyclic() && Heavier(g, g') && Heavier(g', g)
    requires UnitModel(scm, g) && UnitModel(scm, g') && UnitForced(iv)
    requires Solves(scm, g, iv, r) && Solves(scm, g', iv, r')
    ensures r == r'
  {
    HeavierAcyclic(g', g);
    RiskMonotone(scm, g, g', iv, iv, r, r');
    RiskMonotone(scm, g', g, iv, iv, r', r);
  }
}
