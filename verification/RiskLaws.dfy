/**
 What a risk map says of one node, in plain arithmetic: its own vulnerabilities, its suppliers, and what one
 more of either changes (causal_inference.py and the Bayesian overlay of risk_algorithms.py).
 */
module RiskLaws {
  import opened Prelude
  import opened DiGraphs
  import opened CausalInference
  import opened RiskAlgorithms

  function CveCount(data: NodeData): nat {
    if data.activeCves.Some? then |data.activeCves.value| else 0
  }

  /** A missing weight counts as one. */
  function WeightOf(e: InEdge): real {
    if e.weight.Some? then e.weight.value else 1.0
  }

  /** The base probability and a fifth for every CVE, at most 0.99. */
  function OwnRisk(baseProb: real, cves: nat): real {
    if baseProb + cves as real / 5.0 < 0.99 then baseProb + cves as real / 5.0 else 0.99
  }

  /** What a supplier of the given risk passes on. */
  function Transferred(risk: real, e: InEdge, strength: real): real {
    risk * WeightOf(e) * strength
  }

  lemma IntrinsicIsOwn(baseProb: real, data: NodeData)
    ensures Intrinsic(baseProb, data) == OwnRisk(baseProb, CveCount(data))
  {
  }

  lemma ImpactIsTransferred(risk: real, e: InEdge, strength: real)
    ensures Impact(risk, e, strength) == Transferred(risk, e, strength)
  {
  }

  // ---------- one node ----------

  /** Without suppliers the risk is the base probability and a fifth for every CVE, at most 0.99. */
  lemma {:induction false} RootRisk(scm: SupplyChainSCM, g: DiGraph, iv: Risks, r: Risks, v: Node)
    requires Solves(scm, g, iv, r) && v in g.nodes && v !in iv && v in g.pred && g.pred[v] == []
    ensures r[v] == OwnRisk(scm.baseProb, CveCount(g.nodes[v]))
  {
    assert SolvesAt(scm, g, iv, r, v);
    IntrinsicIsOwn(scm.baseProb, g.nodes[v]);
    hide OwnRisk, Intrinsic;
  }

  /** With one supplier, the chance to be safe is the product of the chances to be safe from one's own
      vulnerabilities and from what the supplier passes on. */
  lemma {:induction false} OneSupplierRisk(scm: SupplyChainSCM, g: DiGraph, iv: Risks, r: Risks, v: Node, e: InEdge)
    requires Solves(scm, g, iv, r) && v in g.nodes && v !in iv && v in g.pred && g.pred[v] == [e]
    ensures e.src in r
    ensures 1.0 - r[v] == (1.0 - OwnRisk(scm.baseProb, CveCount(g.nodes[v])))
                          * (1.0 - Transferred(r[e.src], e, scm.causalStrength))
  {
    hide OwnRisk, Intrinsic, Transferred, Impact;
    assert SolvesAt(scm, g, iv, r, v);
    assert g.pred[v][0] == e;
    LastFactor([], e, r, scm.causalStrength);
    assert [] + [e] == [e];
    IntrinsicIsOwn(scm.baseProb, g.nodes[v]);
    NothingSafe(r, scm.causalStrength);
    OneTimes(1.0 - Transferred(r[e.src], e, scm.causalStrength), Safe([e], r, scm.causalStrength));
  }

  lemma NothingSafe(r: Risks, strength: real)
    ensures Safe([], r, strength) == 1.0
  {
  }

  lemma OneTimes(x: real, product: real)
    requires IsProduct(product, 1.0, x)
    ensures product == x
  {
  }

  lemma {:induction false} LastFactor(es: seq<InEdge>, e: InEdge, r: Risks, strength: real)
    requires Known(es + [e], r)
    ensures Known(es, r) && e.src in r
    ensures IsProduct(Safe(es + [e], r, strength), Safe(es, r, strength), 1.0 - Transferred(r[e.src], e, strength))
  {
    hide Transferred, Impact;
    assert (es + [e])[..|es|] == es;
    assert (es + [e])[|es|] == e;
    assert forall i :: 0 <= i < |es| ==> (es + [e])[i] == es[i];
    ImpactIsTransferred(r[e.src], e, strength);
  }

  // ---------- what does not change ----------

  /** The graphs differ in nothing but the attributes and suppliers of `v`. */
  ghost predicate DifferAt(g: DiGraph, g': DiGraph, v: Node) {
    && g.nodes.Keys == g'.nodes.Keys && g.pred.Keys == g'.pred.Keys
    && forall w :: w in g.nodes && w in g.pred && w != v ==> g'.nodes[w] == g.nodes[w] && g'.pred[w] == g.pred[w]
  }

  /** Nodes before `v` in a topological order have the same risk in both graphs. */
  lemma {:induction false} UpstreamAgrees(scm: SupplyChainSCM, g: DiGraph, g': DiGraph, iv: Risks, r: Risks, r': Risks,
                                          order: seq<Node>, v: Node, k: nat)
    requires g.Valid() && g'.Valid() && DifferAt(g, g', v) && g'.IsTopological(order)
    requires Solves(scm, g, iv, r) && Solves(scm, g', iv, r')
    requires k < |order| && v !in order[..k + 1]
    ensures order[k] in r && order[k] in r' && r[order[k]] == r'[order[k]]
    decreases k
  {
    hide IsNoisyOr, Safe, Intrinsic, DiGraph.Valid;
    var w := order[k];
    assert w == order[..k + 1][k];
    assert SolvesAt(scm, g, iv, r, w) && SolvesAt(scm, g', iv, r', w);
    forall i | 0 <= i < |g.pred[w]|
      ensures r[g.pred[w][i].src] == r'[g.pred[w][i].src]
    {
      var m := g'.SupplierPosition(order, k, i);
      assert order[..k + 1][..m + 1] == order[..m + 1];
      UpstreamAgrees(scm, g, g', iv, r, r', order, v, m);
    }
    SafeFrame(g.pred[w], r, r', scm.causalStrength);
    hide Solves, SolvesAt;
    if w !in iv {
      SameEquation(r[w], r'[w], Intrinsic(scm.baseProb, g.nodes[w]), Safe(g.pred[w], r, scm.causalStrength));
    }
  }

  lemma SameEquation(x: real, x': real, u: real, safe: real)
    requires IsNoisyOr(x, u, safe) && IsNoisyOr(x', u, safe)
    ensures x == x'
  {
  }

  /** The suppliers of `v` in the second graph have the same risk in both. */
  lemma SuppliersAgree(scm: SupplyChainSCM, g: DiGraph, g': DiGraph, iv: Risks, r: Risks, r': Risks, v: Node)
    requires g.Valid() && g'.Valid() && g'.Acyclic() && DifferAt(g, g', v) && v in g.nodes
    requires Solves(scm, g, iv, r) && Solves(scm, g', iv, r')
    ensures forall i :: 0 <= i < |g'.pred[v]| ==>
              var u := g'.pred[v][i].src;
              u in r && u in r' && r[u] == r'[u]
  {
    hide Solves;
    AcyclicIffSortable(g');
    var order :| g'.IsTopological(order);
    var k :| 0 <= k < |order| && order[k] == v;
    forall i | 0 <= i < |g'.pred[v]|
      ensures g'.pred[v][i].src in r && g'.pred[v][i].src in r' && r[g'.pred[v][i].src] == r'[g'.pred[v][i].src]
    {
      var m := g'.SupplierPosition(order, k, i);
      UpstreamAgrees(scm, g, g', iv, r, r', order, v, m);
    }
  }

  // ---------- one more CVE ----------

  /** The graph `g'` is `g` with one more CVE on `v`. */
  ghost predicate OneMoreCve(g: DiGraph, g': DiGraph, v: Node) {
    && v in g.nodes && v in g'.nodes && g'.pred == g.pred && DifferAt(g, g', v)
    && CveCount(g'.nodes[v]) == CveCount(g.nodes[v]) + 1
  }

  lemma SafetyUnchanged(scm: SupplyChainSCM, g: DiGraph, g': DiGraph, v: Node, iv: Risks, r: Risks, r': Risks)
    requires g.Valid() && g'.Valid() && g'.Acyclic() && OneMoreCve(g, g', v) && v !in iv
    requires Solves(scm, g, iv, r) && Solves(scm, g', iv, r')
    ensures v in g.pred && Known(g.pred[v], r) && v in r && v in r'
    ensures var safe := Safe(g.pred[v], r, scm.causalStrength);
            && IsNoisyOr(r[v], Intrinsic(scm.baseProb, g.nodes[v]), safe)
            && IsNoisyOr(r'[v], Intrinsic(scm.baseProb, g'.nodes[v]), safe)
  {
    hide IsNoisyOr;
    SuppliersAgree(scm, g, g', iv, r, r', v);
    assert SolvesAt(scm, g, iv, r, v) && SolvesAt(scm, g', iv, r', v);
    SafeFrame(g.pred[v], r, r', scm.causalStrength);
  }

  lemma CrossMultiply(x: real, x': real, u: real, u': real, safe: real, own: real, own': real)
    requires IsNoisyOr(x, u, safe) && IsNoisyOr(x', u', safe) && own == 1.0 - u && own' == 1.0 - u'
    ensures (1.0 - x') * own == (1.0 - x) * own'
  {
    Commute3(own', safe, own);
  }

  lemma Commute3(a: real, b: real, c: real)
    ensures a * b * c == c * b * a
  {
  }

  /** The chance to be safe from one's own vulnerabilities, below the cap. */
  function OwnSafety(baseProb: real, cves: nat): real {
    1.0 - baseProb - cves as real / 5.0
  }

  lemma IntrinsicBelowCap(baseProb: real, data: NodeData)
    requires baseProb + CveCount(data) as real / 5.0 <= 0.99
    ensures 1.0 - Intrinsic(baseProb, data) == OwnSafety(baseProb, CveCount(data))
  {
  }

  /** Below the cap, one more CVE takes the chance to be safe from one's own vulnerabilities from
      1 - base - n/5 to 1 - base - (n+1)/5, and the chance to be safe at all in the same proportion. */
  lemma {:induction false} CveScalesSafety(scm: SupplyChainSCM, g: DiGraph, g': DiGraph, v: Node,
                                           iv: Risks, r: Risks, r': Risks)
    requires g.Valid() && g'.Valid() && g'.Acyclic() && OneMoreCve(g, g', v) && v !in iv
    requires Solves(scm, g, iv, r) && Solves(scm, g', iv, r')
    requires scm.baseProb + (CveCount(g.nodes[v]) + 1) as real / 5.0 <= 0.99
    ensures var n := CveCount(g.nodes[v]);
            (1.0 - r'[v]) * OwnSafety(scm.baseProb, n) == (1.0 - r[v]) * OwnSafety(scm.baseProb, n + 1)
  {
    hide SolvesAt, OwnSafety, DifferAt, IsNoisyOr, Intrinsic, Safe, DiGraph.Valid, DiGraph.Acyclic;
    SafetyUnchanged(scm, g, g', v, iv, r, r');
    ScaledByCve(r[v], r'[v], scm.baseProb, g.nodes[v], g'.nodes[v], Safe(g.pred[v], r, scm.causalStrength));
  }

  lemma ScaledByCve(x: real, x': real, baseProb: real, data: NodeData, data': NodeData, safe: real)
    requires IsNoisyOr(x, Intrinsic(baseProb, data), safe) && IsNoisyOr(x', Intrinsic(baseProb, data'), safe)
    requires CveCount(data') == CveCount(data) + 1 && baseProb + CveCount(data') as real / 5.0 <= 0.99
    ensures (1.0 - x') * OwnSafety(baseProb, CveCount(data)) == (1.0 - x) * OwnSafety(baseProb, CveCount(data) + 1)
  {
    IntrinsicBelowCap(baseProb, data);
    IntrinsicBelowCap(baseProb, data');
    CrossMultiply(x, x', Intrinsic(baseProb, data), Intrinsic(baseProb, data'), safe,
                  OwnSafety(baseProb, CveCount(data)), OwnSafety(baseProb, CveCount(data')));
  }

  /** No supplier is certain to pass a compromise on. */
  ghost predicate SuppliersLeaveSafety(scm: SupplyChainSCM, g: DiGraph, v: Node, r: Risks)
    requires v in g.pred && Known(g.pred[v], r)
  {
    forall i :: 0 <= i < |g.pred[v]| ==> Transferred(r[g.pred[v][i].src], g.pred[v][i], scm.causalStrength) < 1.0
  }

  ghost predicate ImpactsBelowOne(es: seq<InEdge>, r: Risks, strength: real)
    requires Known(es, r)
  {
    forall i :: 0 <= i < |es| ==> Impact(r[es[i].src], es[i], strength) < 1.0
  }

  lemma {:induction false} PositiveFactors(a: real, b: real, ab: real)
    requires 0.0 <= a && 0.0 <= b && IsProduct(ab, a, b)
    ensures ab > 0.0 <==> a > 0.0 && b > 0.0
  {
    if a > 0.0 && b > 0.0 {
      assert a * b > 0.0;
    }
  }

  lemma {:induction false} SafePositiveIff(es: seq<InEdge>, r: Risks, strength: real)
    requires Known(es, r) && UnitRisks(es, r) && UnitWeights(es) && Unit(strength)
    ensures Safe(es, r, strength) > 0.0 <==> ImpactsBelowOne(es, r, strength)
  {
    hide Impact, IsProduct;
    if es != [] {
      var n := |es| - 1;
      SafePositiveIff(es[..n], r, strength);
      SafeUnit(es[..n], r, strength);
      ImpactUnit(r[es[n].src], es[n], strength);
      SafeLast(es, r, strength);
      hide Safe;
      PositiveFactors(Safe(es[..n], r, strength), 1.0 - Impact(r[es[n].src], es[n], strength), Safe(es, r, strength));
      assert forall i :: 0 <= i < n ==> es[..n][i] == es[i];
    }
  }

  lemma IntrinsicRises(baseProb: real, data: NodeData, data': NodeData)
    requires CveCount(data') == CveCount(data) + 1
    ensures Intrinsic(baseProb, data) <= Intrinsic(baseProb, data')
    ensures Intrinsic(baseProb, data) < Intrinsic(baseProb, data') <==> baseProb + CveCount(data) as real / 5.0 < 0.99
  {
  }

  lemma {:induction false} ComplementRises(u: real, u': real, safe: real, x: real, x': real)
    requires u <= u' && 0.0 <= safe && IsNoisyOr(x, u, safe) && IsNoisyOr(x', u', safe)
    ensures x < x' <==> u < u' && safe > 0.0
  {
    assert x' - x == (u' - u) * safe;
    assert IsProduct(x' - x, u' - u, safe);
    hide IsNoisyOr;
    PositiveFactors(u' - u, safe, x' - x);
  }

  /** One more CVE raises the risk of its node if and only if the node is not forced, the cap is not
      reached, and the suppliers leave some safety to lose. */
  lemma {:induction false} CveRaisesRiskIff(scm: SupplyChainSCM, g: DiGraph, g': DiGraph, v: Node, iv: Risks,
                                            r: Risks, r': Risks)
    requires g.Valid() && g'.Valid() && g.Acyclic() && g'.Acyclic() && OneMoreCve(g, g', v)
    requires UnitModel(scm, g) && UnitForced(iv) && Solves(scm, g, iv, r) && Solves(scm, g', iv, r')
    ensures v in g.pred && Known(g.pred[v], r)
    ensures r[v] < r'[v] <==>
            v !in iv && scm.baseProb + CveCount(g.nodes[v]) as real / 5.0 < 0.99 && SuppliersLeaveSafety(scm, g, v, r)
  {
    assert SolvesAt(scm, g, iv, r, v) && SolvesAt(scm, g', iv, r', v);
    hide IsNoisyOr, Intrinsic, Safe, Transferred, UnitModel, DifferAt, Impact;
    if v !in iv {
      SafetyUnchanged(scm, g, g', v, iv, r, r');
      SupplierSafety(scm, g, iv, r, v);
      IntrinsicRises(scm.baseProb, g.nodes[v], g'.nodes[v]);
      ComplementRises(Intrinsic(scm.baseProb, g.nodes[v]), Intrinsic(scm.baseProb, g'.nodes[v]),
                      Safe(g.pred[v], r, scm.causalStrength), r[v], r'[v]);
    }
  }

  /** The suppliers leave some safety exactly when none is certain to pass a compromise on. */
  lemma SupplierSafety(scm: SupplyChainSCM, g: DiGraph, iv: Risks, r: Risks, v: Node)
    requires g.Valid() && g.Acyclic() && UnitModel(scm, g) && UnitForced(iv) && Solves(scm, g, iv, r)
    requires v in g.nodes && v in g.pred && Known(g.pred[v], r)
    ensures 0.0 <= Safe(g.pred[v], r, scm.causalStrength)
    ensures Safe(g.pred[v], r, scm.causalStrength) > 0.0 <==> SuppliersLeaveSafety(scm, g, v, r)
  {
    hide Solves, Impact, Transferred, Safe;
    RisksAreProbabilities(scm, g, iv, r);
    SafeUnit(g.pred[v], r, scm.causalStrength);
    SafePositiveIff(g.pred[v], r, scm.causalStrength);
    forall i | 0 <= i < |g.pred[v]|
      ensures Impact(r[g.pred[v][i].src], g.pred[v][i], scm.causalStrength)
           == Transferred(r[g.pred[v][i].src], g.pred[v][i], scm.causalStrength)
    {
      ImpactIsTransferred(r[g.pred[v][i].src], g.pred[v][i], scm.causalStrength);
    }
  }

  // ---------- one more supplier ----------

  /** The graph `g'` is `g` with the edge `e` to `v` added. */
  ghost predicate OneMoreSupplier(g: DiGraph, g': DiGraph, v: Node, e: InEdge) {
    v in g.nodes && v in g.pred && e.src in g.nodes && g'.nodes == g.nodes && g'.pred == g.pred[v := g.pred[v] + [e]]
  }

  lemma ScaleSafe(x: real, x': real, u: real, safe: real, safe': real, f: real)
    requires IsNoisyOr(x, u, safe) && IsNoisyOr(x', u, safe') && IsProduct(safe', safe, f)
    ensures IsProduct(1.0 - x', 1.0 - x, f)
  {
  }

  /** The equations of `v` in the two graphs, over the risks of the first. */
  lemma SupplierEquations(scm: SupplyChainSCM, g: DiGraph, g': DiGraph, v: Node, e: InEdge, iv: Risks, r: Risks,
                          r': Risks)
    requires g.Valid() && g'.Valid() && g'.Acyclic() && OneMoreSupplier(g, g', v, e) && v !in iv
    requires Solves(scm, g, iv, r) && Solves(scm, g', iv, r')
    ensures Known(g.pred[v] + [e], r) && Known(g.pred[v], r) && r'[e.src] == r[e.src]
    ensures var u := Intrinsic(scm.baseProb, g.nodes[v]);
            && IsNoisyOr(r[v], u, Safe(g.pred[v], r, scm.causalStrength))
            && IsNoisyOr(r'[v], u, Safe(g.pred[v] + [e], r, scm.causalStrength))
  {
    hide IsNoisyOr, Safe, Intrinsic;
    var es := g.pred[v];
    SuppliersAgree(scm, g, g', iv, r, r', v);
    assert g'.pred[v] == es + [e] && g'.pred[v][|es|] == e;
    assert SolvesAt(scm, g, iv, r, v) && SolvesAt(scm, g', iv, r', v);
    SafeFrame(es + [e], r, r', scm.causalStrength);
  }

  /** One more supplier multiplies the chance to be safe by the chance that it passes nothing on, and changes
      nothing for the suppliers. */
  lemma {:induction false} SupplierScalesSafety(scm: SupplyChainSCM, g: DiGraph, g': DiGraph, v: Node, e: InEdge,
                                                iv: Risks, r: Risks, r': Risks)
    requires g.Valid() && g'.Valid() && g'.Acyclic() && OneMoreSupplier(g, g', v, e) && v !in iv
    requires Solves(scm, g, iv, r) && Solves(scm, g', iv, r')
    ensures e.src in r && r'[e.src] == r[e.src]
    ensures IsProduct(1.0 - r'[v], 1.0 - r[v], 1.0 - Transferred(r[e.src], e, scm.causalStrength))
  {
    hide SolvesAt, IsNoisyOr, IsProduct, Intrinsic, Safe, Transferred, DiGraph.Valid, DiGraph.Acyclic;
    SupplierEquations(scm, g, g', v, e, iv, r, r');
    LastFactor(g.pred[v], e, r, scm.causalStrength);
    ScaleSafe(r[v], r'[v], Intrinsic(scm.baseProb, g.nodes[v]), Safe(g.pred[v], r, scm.causalStrength),
              Safe(g.pred[v] + [e], r, scm.causalStrength), 1.0 - Transferred(r[e.src], e, scm.causalStrength));
  }

  // ---------- the overlay ----------

  /** The posteriors of the overlay obey the same laws. */
  lemma {:induction false} PosteriorRoot(overlay: BayesianRiskOverlay, g: DiGraph, p: Risks, v: Node)
    requires Solves(AsScm(overlay), g, map[], p) && v in g.nodes && v in g.pred && g.pred[v] == []
    ensures p[v] == OwnRisk(overlay.baseProb, CveCount(g.nodes[v]))
  {
    RootRisk(AsScm(overlay), g, map[], p, v);
  }

  lemma {:induction false} PosteriorOneSupplier(overlay: BayesianRiskOverlay, g: DiGraph, p: Risks, v: Node, e: InEdge)
    requires Solves(AsScm(overlay), g, map[], p) && v in g.nodes && v in g.pred && g.pred[v] == [e]
    ensures e.src in p
    ensures 1.0 - p[v] == (1.0 - OwnRisk(overlay.baseProb, CveCount(g.nodes[v])))
                          * (1.0 - Transferred(p[e.src], e, overlay.attenuation))
  {
    hide OwnRisk, Transferred, Solves;
    OneSupplierRisk(AsScm(overlay), g, map[], p, v, e);
  }

  lemma {:induction false} PosteriorCve(overlay: BayesianRiskOverlay, g: DiGraph, g': DiGraph, v: Node, p: Risks,
                                        p': Risks)
    requires g.Valid() && g'.Valid() && g.Acyclic() && g'.Acyclic() && OneMoreCve(g, g', v)
    requires UnitModel(AsScm(overlay), g)
    requires Solves(AsScm(overlay), g, map[], p) && Solves(AsScm(overlay), g', map[], p')
    ensures v in g.pred && Known(g.pred[v], p) && v in p && v in p'
    ensures p[v] < p'[v] <==>
            && overlay.baseProb + CveCount(g.nodes[v]) as real / 5.0 < 0.99
            && SuppliersLeaveSafety(AsScm(overlay), g, v, p)
    ensures overlay.baseProb + (CveCount(g.nodes[v]) + 1) as real / 5.0 <= 0.99 ==>
              var n := CveCount(g.nodes[v]);
              (1.0 - p'[v]) * OwnSafety(overlay.baseProb, n) == (1.0 - p[v]) * OwnSafety(overlay.baseProb, n + 1)
  {
    hide SolvesAt, UnitModel, SuppliersLeaveSafety, OwnSafety, DifferAt;
    CveRaisesRiskIff(AsScm(overlay), g, g', v, map[], p, p');
    if overlay.baseProb + (CveCount(g.nodes[v]) + 1) as real / 5.0 <= 0.99 {
      CveScalesSafety(AsScm(overlay), g, g', v, map[], p, p');
    }
  }
}
