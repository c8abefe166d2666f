/**
 predictive_inference/risk_algorithms.py, the Bayesian overlay: the same structural equations as
 the causal model, computed by a loop of its own.
 */
module RiskAlgorithms {
  import opened Prelude
  import opened DiGraphs
  import opened CausalInference

  datatype BayesianRiskOverlay = BayesianRiskOverlay(baseProb: real, attenuation: real)

  /** The causal model whose strength is the attenuation of the overlay. */
  ghost function AsScm(overlay: BayesianRiskOverlay): SupplyChainSCM {
    SupplyChainSCM(overlay.baseProb, overlay.attenuation)
  }

  method UpstreamSafety(overlay: BayesianRiskOverlay, predecessors: seq<InEdge>, posteriors: Risks)
    returns (pSafe: real)
    requires Known(predecessors, posteriors)
    ensures pSafe == Safe(predecessors, posteriors, overlay.attenuation)
  {
    pSafe := 1.0;
    for i := 0 to |predecessors|
      invariant pSafe == Safe(predecessors[..i], posteriors, overlay.attenuation)
    {
      var pred := predecessors[i].src;
      var edgeWeight := Weight(predecessors[i]);
      var predProb := if pred in posteriors then posteriors[pred] else overlay.baseProb;
      var transferredRisk := predProb * edgeWeight * overlay.attenuation;
      pSafe := pSafe * (1.0 - transferredRisk);
      assert predecessors[..i + 1][..i] == predecessors[..i];
    }
    assert predecessors[..|predecessors|] == predecessors;
  }

  method TotalProbability(overlay: BayesianRiskOverlay, data: NodeData, predecessors: seq<InEdge>, posteriors: Risks)
    returns (pTotal: real)
    requires Known(predecessors, posteriors)
    ensures IsNoisyOr(pTotal, Intrinsic(overlay.baseProb, data), Safe(predecessors, posteriors, overlay.attenuation))
    ensures predecessors == [] ==>
              pTotal == if overlay.baseProb + |Cves(data)| as real * 0.2 < 0.99
                        then overlay.baseProb + |Cves(data)| as real * 0.2 else 0.99
  {
    var pLocal := overlay.baseProb + |Cves(data)| as real * 0.2;
    pLocal := if pLocal < 0.99 then pLocal else 0.99;
    var pSafe := UpstreamSafety(overlay, predecessors, posteriors);
    var pUpstream := 1.0 - pSafe;
    pTotal := pLocal + pUpstream - (pLocal * pUpstream);
  }

  method EvaluatePosteriorProbabilities(overlay: BayesianRiskOverlay, g: DiGraph, topo: Option<seq<Node>>)
    returns (posteriors: Risks)
    requires g.Valid() && g.IsSortOf(topo)
    ensures g.Acyclic() ==> Solves(AsScm(overlay), g, map[], posteriors)
    ensures !g.Acyclic() ==> posteriors == map[]
  {
    hide IsNoisyOr;
    posteriors := map[];
    if topo.None? {
      return;
    }
    var order := topo.value;
    for k := 0 to |order|
      invariant SolvesPrefix(AsScm(overlay), g, map[], order, k, posteriors)
    {
      var node := order[k];
      ParentsKnown(AsScm(overlay), g, map[], order, k, posteriors);
      var pTotal := TotalProbability(overlay, g.nodes[node], g.pred[node], posteriors);
      SolvesNew(AsScm(overlay), g, map[], posteriors, node, pTotal);
      PrefixGrows(AsScm(overlay), g, map[], order, k, posteriors, pTotal);
      posteriors := posteriors[node := pTotal];
    }
    PrefixComplete(AsScm(overlay), g, map[], order, posteriors);
  }

  /** With the attenuation equal to the causal strength, the posteriors are the risks of the causal
      model under any interventions that force nodes to the values they have anyway. */
  lemma OverlayIsScm(overlay: BayesianRiskOverlay, scm: SupplyChainSCM, g: DiGraph, iv: Risks, posteriors: Risks,
                     r: Risks)
    requires g.Valid() && g.Acyclic()
    requires overlay.baseProb == scm.baseProb && overlay.attenuation == scm.causalStrength
    requires Solves(AsScm(overlay), g, map[], posteriors) && Solves(scm, g, iv, r)
    requires forall v :: v in iv && v in g.nodes ==> iv[v] == posteriors[v]
    ensures posteriors == r
  {
    ForcingToOwnValues(scm, g, iv, map[], r, posteriors);
  }
}
