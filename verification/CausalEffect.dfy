/**
 predictive_inference/causal_inference.py, `estimate_causal_effect`: the average causal effect of
 compromising one node on another, compared with the weights of the directed paths between them.
 */
module CausalEffect {
  import opened Prelude
  import opened DiGraphs
  import opened CausalInference

  // ---------- directed paths and their weights ----------

  ghost predicate Joins(g: DiGraph, x: Node, v: Node, p: seq<Node>) {
    g.IsPath(p) && p[0] == x && p[|p| - 1] == v
  }

  /** `ps` lists every directed path from `x` to `v`, once. */
  ghost predicate ListsPaths(g: DiGraph, x: Node, v: Node, ps: seq<seq<Node>>) {
    Distinct(ps) && forall p :: p in ps <==> Joins(g, x, v, p)
  }

  /** weight * causal_strength of the edge from `u` to `v` */
  ghost function EdgeStrength(scm: SupplyChainSCM, g: DiGraph, u: Node, v: Node): real {
    if v in g.pred && SourceIndex(g.pred[v], u) < |g.pred[v]|
    then Weight(g.pred[v][SourceIndex(g.pred[v], u)]) * scm.causalStrength
    else 0.0
  }

  /** 1 - u, the chance that `v` is not compromised on its own account */
  ghost function Spared(scm: SupplyChainSCM, g: DiGraph, v: Node): real {
    if v in g.nodes then 1.0 - Intrinsic(scm.baseProb, g.nodes[v]) else 0.0
  }

  /** (1 - u) * weight * causal_strength, with u the intrinsic risk of `v` */
  ghost function StepWeight(scm: SupplyChainSCM, g: DiGraph, u: Node, v: Node): real {
    Spared(scm, g, v) * EdgeStrength(scm, g, u, v)
  }

  ghost function PathWeight(scm: SupplyChainSCM, g: DiGraph, p: seq<Node>): real {
    if |p| <= 1 then 1.0
    else PathWeight(scm, g, p[..|p| - 1]) * StepWeight(scm, g, p[|p| - 2], p[|p| - 1])
  }

  ghost function SumWeights(scm: SupplyChainSCM, g: DiGraph, ps: seq<seq<Node>>): real {
    if ps == [] then 0.0
    else SumWeights(scm, g, ps[..|ps| - 1]) + PathWeight(scm, g, ps[|ps| - 1])
  }

  function Appended(ps: seq<seq<Node>>, v: Node): (qs: seq<seq<Node>>)
    ensures |qs| == |ps|
    ensures forall i :: 0 <= i < |ps| ==> qs[i] == ps[i] + [v]
  {
    seq(|ps|, i requires 0 <= i < |ps| => ps[i] + [v])
  }

  /** The paths from `x` to `v` through the nodes of `order`, which has predecessors first. */
  ghost function PathsTo(g: DiGraph, x: Node, order: seq<Node>, v: Node): seq<seq<Node>>
    decreases |order|, 0
  {
    if order == [] then []
    else
      var n := |order| - 1;
      if v != order[n] then PathsTo(g, x, order[..n], v)
      else if v == x then [[x]]
      else if v in g.pred then PathsOver(g, x, order[..n], g.pred[v], v)
      else []
  }

  ghost function PathsOver(g: DiGraph, x: Node, order: seq<Node>, es: seq<InEdge>, v: Node): seq<seq<Node>>
    decreases |order|, |es|
  {
    if es == [] then []
    else
      var m := |es| - 1;
      PathsOver(g, x, order, es[..m], v) + Appended(PathsTo(g, x, order, es[m].src), v)
  }

  ghost predicate SourcesIn(es: seq<InEdge>, order: seq<Node>) {
    forall i :: 0 <= i < |es| ==> es[i].src in order
  }

  lemma PrefixOfOrder(g: DiGraph, order: seq<Node>)
    requires g.PredecessorsFirst(order) && order != []
    ensures g.PredecessorsFirst(order[..|order| - 1])
    ensures order[|order| - 1] in g.pred && order[|order| - 1] in g.nodes
    ensures SourcesIn(g.pred[order[|order| - 1]], order[..|order| - 1])
  {
    var n := |order| - 1;
    assert forall k :: 0 <= k < n ==> order[..n][k] == order[k] && order[..n][..k] == order[..k];
  }

  ghost predicate AllJoin(g: DiGraph, x: Node, v: Node, ps: seq<seq<Node>>) {
    forall i :: 0 <= i < |ps| ==> Joins(g, x, v, ps[i])
  }

  ghost predicate EdgesInto(g: DiGraph, v: Node, es: seq<InEdge>) {
    forall i :: 0 <= i < |es| ==> g.HasEdge(es[i].src, v)
  }

  lemma {:induction false} PathsToSound(g: DiGraph, x: Node, order: seq<Node>, v: Node)
    requires g.Valid() && g.PredecessorsFirst(order)
    ensures AllJoin(g, x, v, PathsTo(g, x, order, v))
    decreases |order|, 0
  {
    if order != [] {
      PrefixOfOrder(g, order);
      var n := |order| - 1;
      if v != order[n] {
        PathsToSound(g, x, order[..n], v);
      } else if v != x {
        PathsOverSound(g, x, order[..n], g.pred[v], v);
      }
    }
  }

  lemma {:induction false} PathsOverSound(g: DiGraph, x: Node, order: seq<Node>, es: seq<InEdge>, v: Node)
    requires g.Valid() && g.PredecessorsFirst(order) && EdgesInto(g, v, es)
    ensures AllJoin(g, x, v, PathsOver(g, x, order, es, v))
    decreases |order|, |es|
  {
    if es != [] {
      var m := |es| - 1;
      PathsOverSound(g, x, order, es[..m], v);
      var ps := PathsTo(g, x, order, es[m].src);
      PathsToSound(g, x, order, es[m].src);
      forall i | 0 <= i < |ps|
        ensures Joins(g, x, v, Appended(ps, v)[i])
      {
        assert Joins(g, x, es[m].src, ps[i]);
        PathExtend(g, ps[i], v);
      }
    }
  }

  lemma {:induction false} InPathsOver(g: DiGraph, x: Node, order: seq<Node>, es: seq<InEdge>, v: Node, i: nat,
                                       q: seq<Node>)
    requires i < |es| && q in PathsTo(g, x, order, es[i].src)
    ensures q + [v] in PathsOver(g, x, order, es, v)
    decreases |es|
  {
    var m := |es| - 1;
    if i == m {
      var ps := PathsTo(g, x, order, es[m].src);
      var j :| 0 <= j < |ps| && ps[j] == q;
      assert Appended(ps, v)[j] == q + [v];
    } else {
      InPathsOver(g, x, order, es[..m], v, i, q);
    }
  }

  lemma {:induction false} PathsToComplete(g: DiGraph, x: Node, order: seq<Node>, v: Node, p: seq<Node>)
    requires g.Valid() && g.PredecessorsFirst(order) && v in order && Joins(g, x, v, p)
    ensures p in PathsTo(g, x, order, v)
    decreases |order|
  {
    PrefixOfOrder(g, order);
    var n := |order| - 1;
    if v != order[n] {
      PathsToComplete(g, x, order[..n], v, p);
    } else {
      PathIncreases(g, order, p, n);
      if |p| == 1 {
        assert p == [x];
      } else {
        var u := p[|p| - 2];
        assert g.Linked(p, |p| - 1);
        var i :| 0 <= i < |g.pred[v]| && g.pred[v][i].src == u;
        var q := p[..|p| - 1];
        PathPrefix(g, p, |p| - 1);
        PathsToComplete(g, x, order[..n], u, q);
        InPathsOver(g, x, order[..n], g.pred[v], v, i, q);
        assert p == q + [v];
        assert x in order[..n] && v !in order[..n];
      }
    }
  }

  ghost predicate EndsAtSource(p: seq<Node>, es: seq<InEdge>, v: Node) {
    |p| >= 2 && p[|p| - 1] == v && HasSource(es, p[|p| - 2])
  }

  lemma {:induction false} PathsOverEnds(g: DiGraph, x: Node, order: seq<Node>, es: seq<InEdge>, v: Node)
    requires g.Valid() && g.PredecessorsFirst(order)
    ensures forall i :: 0 <= i < |PathsOver(g, x, order, es, v)| ==>
              EndsAtSource(PathsOver(g, x, order, es, v)[i], es, v)
    decreases |es|
  {
    if es != [] {
      var m := |es| - 1;
      PathsOverEnds(g, x, order, es[..m], v);
      PathsToSound(g, x, order, es[m].src);
      var front, ps := PathsOver(g, x, order, es[..m], v), PathsTo(g, x, order, es[m].src);
      forall i | 0 <= i < |front|
        ensures EndsAtSource(front[i], es, v)
      {
        assert EndsAtSource(front[i], es[..m], v);
        var j :| 0 <= j < m && es[..m][j].src == front[i][|front[i]| - 2];
        assert es[j].src == front[i][|front[i]| - 2];
      }
      forall i | 0 <= i < |ps|
        ensures EndsAtSource(ps[i] + [v], es, v)
      {
        assert Joins(g, x, es[m].src, ps[i]);
        assert (ps[i] + [v])[|ps[i]| - 1] == es[m].src;
      }
    }
  }

  lemma DistinctConcat<T>(a: seq<T>, b: seq<T>)
    requires Distinct(a) && Distinct(b)
    requires forall i, j :: 0 <= i < |a| && 0 <= j < |b| ==> a[i] != b[j]
    ensures Distinct(a + b)
  {
  }

  lemma DistinctAppended(ps: seq<seq<Node>>, v: Node)
    requires Distinct(ps)
    ensures Distinct(Appended(ps, v))
  {
    forall i, j | 0 <= i < j < |ps|
      ensures Appended(ps, v)[i] != Appended(ps, v)[j]
    {
      assert (ps[i] + [v])[..|ps[i]|] == ps[i];
      assert (ps[j] + [v])[..|ps[j]|] == ps[j];
    }
  }

  lemma {:induction false} PathsToDistinct(g: DiGraph, x: Node, order: seq<Node>, v: Node)
    requires g.Valid() && g.PredecessorsFirst(order)
    ensures Distinct(PathsTo(g, x, order, v))
    decreases |order|, 0
  {
    if order != [] {
      PrefixOfOrder(g, order);
      var n := |order| - 1;
      if v != order[n] {
        PathsToDistinct(g, x, order[..n], v);
      } else if v != x {
        PathsOverDistinct(g, x, order[..n], g.pred[v], v);
      }
    }
  }

  lemma {:induction false} PathsOverDistinct(g: DiGraph, x: Node, order: seq<Node>, es: seq<InEdge>, v: Node)
    requires g.Valid() && g.PredecessorsFirst(order) && DistinctSources(es)
    ensures Distinct(PathsOver(g, x, order, es, v))
    decreases |order|, |es|
  {
    if es != [] {
      var m := |es| - 1;
      var front, ps := PathsOver(g, x, order, es[..m], v), PathsTo(g, x, order, es[m].src);
      PathsOverDistinct(g, x, order, es[..m], v);
      PathsToDistinct(g, x, order, es[m].src);
      DistinctAppended(ps, v);
      PathsOverEnds(g, x, order, es[..m], v);
      PathsToSound(g, x, order, es[m].src);
      forall i, j | 0 <= i < |front| && 0 <= j < |ps|
        ensures front[i] != Appended(ps, v)[j]
      {
        assert EndsAtSource(front[i], es[..m], v);
        assert Joins(g, x, es[m].src, ps[j]);
        assert (ps[j] + [v])[|ps[j]| - 1] == es[m].src;
      }
      DistinctConcat(front, Appended(ps, v));
    }
  }

  /** The enumeration is exactly the set of directed paths, without repetition. */
  lemma PathsListed(g: DiGraph, x: Node, order: seq<Node>, v: Node)
    requires g.Valid() && g.IsTopological(order)
    ensures ListsPaths(g, x, v, PathsTo(g, x, order, v))
  {
    var ps := PathsTo(g, x, order, v);
    PathsToDistinct(g, x, order, v);
    PathsToSound(g, x, order, v);
    forall p
      ensures p in ps <==> Joins(g, x, v, p)
    {
      if Joins(g, x, v, p) {
        PathFacts(g, p, |p| - 1);
        PathsToComplete(g, x, order, v, p);
      }
    }
  }

  // ---------- sums of path weights ----------

  lemma StepWeightUnit(scm: SupplyChainSCM, g: DiGraph, u: Node, v: Node)
    requires UnitModel(scm, g)
    ensures Unit(Spared(scm, g, v)) && Unit(EdgeStrength(scm, g, u, v)) && Unit(StepWeight(scm, g, u, v))
    ensures StepWeight(scm, g, u, v) <= EdgeStrength(scm, g, u, v)
  {
    if v in g.pred && SourceIndex(g.pred[v], u) < |g.pred[v]| {
      MulUnit(Weight(g.pred[v][SourceIndex(g.pred[v], u)]), scm.causalStrength);
    }
    if v in g.nodes {
      IntrinsicUnit(scm.baseProb, g.nodes[v]);
    }
    hide Spared, EdgeStrength;
    var spared, strength := Spared(scm, g, v), EdgeStrength(scm, g, u, v);
    MulUnit(spared, strength);
    assert StepWeight(scm, g, u, v) == spared * strength;
  }

  lemma {:induction false} PathWeightUnit(scm: SupplyChainSCM, g: DiGraph, p: seq<Node>)
    requires UnitModel(scm, g)
    ensures Unit(PathWeight(scm, g, p))
  {
    if |p| > 1 {
      PathWeightUnit(scm, g, p[..|p| - 1]);
      StepWeightUnit(scm, g, p[|p| - 2], p[|p| - 1]);
      MulUnit(PathWeight(scm, g, p[..|p| - 1]), StepWeight(scm, g, p[|p| - 2], p[|p| - 1]));
    }
  }

  lemma {:induction false} SumConcat(scm: SupplyChainSCM, g: DiGraph, ps: seq<seq<Node>>, qs: seq<seq<Node>>)
    ensures SumWeights(scm, g, ps + qs) == SumWeights(scm, g, ps) + SumWeights(scm, g, qs)
    decreases |qs|
  {
    if qs == [] {
      assert ps + qs == ps;
    } else {
      assert (ps + qs)[..|ps + qs| - 1] == ps + qs[..|qs| - 1];
      SumConcat(scm, g, ps, qs[..|qs| - 1]);
    }
  }

  lemma {:induction false} SumNonNegative(scm: SupplyChainSCM, g: DiGraph, ps: seq<seq<Node>>)
    requires UnitModel(scm, g)
    ensures SumWeights(scm, g, ps) >= 0.0
  {
    if ps != [] {
      SumNonNegative(scm, g, ps[..|ps| - 1]);
      PathWeightUnit(scm, g, ps[|ps| - 1]);
    }
  }

  lemma SumRemove(scm: SupplyChainSCM, g: DiGraph, ps: seq<seq<Node>>, k: nat)
    requires k < |ps|
    ensures SumWeights(scm, g, ps) == SumWeights(scm, g, ps[..k] + ps[k + 1..]) + PathWeight(scm, g, ps[k])
  {
    assert ps == ps[..k] + ([ps[k]] + ps[k + 1..]);
    SumConcat(scm, g, ps[..k], [ps[k]] + ps[k + 1..]);
    SumConcat(scm, g, [ps[k]], ps[k + 1..]);
    SumConcat(scm, g, ps[..k], ps[k + 1..]);
    assert [ps[k]][..0] == [];
  }

  /** Listing more paths never lowers the sum. */
  lemma {:induction false} SumSubset(scm: SupplyChainSCM, g: DiGraph, ps: seq<seq<Node>>, qs: seq<seq<Node>>)
    requires UnitModel(scm, g) && Distinct(ps) && forall p :: p in ps ==> p in qs
    ensures SumWeights(scm, g, ps) <= SumWeights(scm, g, qs)
    decreases |ps|
  {
    if ps == [] {
      SumNonNegative(scm, g, qs);
    } else {
      var n := |ps| - 1;
      assert ps[n] in ps;
      var k :| 0 <= k < |qs| && qs[k] == ps[n];
      var rest := qs[..k] + qs[k + 1..];
      forall p | p in ps[..n]
        ensures p in rest
      {
        assert p in ps && p != ps[n];
        var j :| 0 <= j < |qs| && qs[j] == p;
        assert rest[if j < k then j else j - 1] == p;
      }
      SumSubset(scm, g, ps[..n], rest);
      SumRemove(scm, g, qs, k);
    }
  }

  lemma AppendedWeight(scm: SupplyChainSCM, g: DiGraph, p: seq<Node>, v: Node)
    requires p != []
    ensures PathWeight(scm, g, p + [v]) == PathWeight(scm, g, p) * StepWeight(scm, g, p[|p| - 1], v)
  {
    assert (p + [v])[..|p|] == p;
  }

  lemma Distribute(a: real, b: real, c: real)
    ensures (a + b) * c == a * c + b * c
  {
  }

  lemma {:induction false} SumAppended(scm: SupplyChainSCM, g: DiGraph, ps: seq<seq<Node>>, x: Node, u: Node, v: Node)
    requires AllJoin(g, x, u, ps)
    ensures SumWeights(scm, g, Appended(ps, v)) == SumWeights(scm, g, ps) * StepWeight(scm, g, u, v)
  {
    hide StepWeight;
    if ps != [] {
      var n := |ps| - 1;
      assert Joins(g, x, u, ps[n]);
      SumAppended(scm, g, ps[..n], x, u, v);
      assert Appended(ps, v)[..n] == Appended(ps[..n], v);
      AppendedWeight(scm, g, ps[n], v);
      Distribute(SumWeights(scm, g, ps[..n]), PathWeight(scm, g, ps[n]), StepWeight(scm, g, u, v));
    }
  }

  // ---------- the effect is at most the sum over paths ----------

  /** do(node = level) */
  function Do(node: Node, level: real): Risks {
    map[node := level]
  }

  ghost function Effect(r1: Risks, r0: Risks, target: Node): real {
    (if target in r1 then r1[target] else 0.0) - (if target in r0 then r0[target] else 0.0)
  }

  ghost predicate IsEffectOf(scm: SupplyChainSCM, g: DiGraph, x: Node, r1: Risks, r0: Risks) {
    Solves(scm, g, Do(x, 1.0), r1) && Solves(scm, g, Do(x, 0.0), r0)
  }

  /** Risks under the two interventions are probabilities, and ordered. */
  lemma LevelsOrdered(scm: SupplyChainSCM, g: DiGraph, x: Node, r1: Risks, r0: Risks)
    requires g.Valid() && g.Acyclic() && UnitModel(scm, g) && IsEffectOf(scm, g, x, r1, r0)
    ensures forall v :: v in g.nodes ==> 0.0 <= r0[v] <= r1[v] <= 1.0
  {
    RisksAreProbabilities(scm, g, Do(x, 1.0), r1);
    RisksAreProbabilities(scm, g, Do(x, 0.0), r0);
    forall v, i | v in g.pred && 0 <= i < |g.pred[v]|
      ensures Outweighed(g.pred[v][i], g.pred[v])
    {
      HeavierReflexive(g, v, i);
    }
    RiskMonotone(scm, g, g, Do(x, 0.0), Do(x, 1.0), r0, r1);
  }

  ghost predicate Ordered(es: seq<InEdge>, r1: Risks, r0: Risks) {
    && Known(es, r1) && Known(es, r0)
    && forall i :: 0 <= i < |es| ==> 0.0 <= r0[es[i].src] <= r1[es[i].src] <= 1.0
  }

  /** The sum over the suppliers of the difference in impact. */
  ghost function Spread(es: seq<InEdge>, r1: Risks, r0: Risks, strength: real): real
    requires Known(es, r1) && Known(es, r0)
  {
    if es == [] then 0.0
    else
      var n := |es| - 1;
      Spread(es[..n], r1, r0, strength)
        + (Impact(r1[es[n].src], es[n], strength) - Impact(r0[es[n].src], es[n], strength))
  }

  lemma Subtract(a: real, b: real, c: real, ac: real, bc: real, gap: real)
    requires IsProduct(ac, a, c) && IsProduct(bc, b, c) && IsProduct(gap, a - b, c)
    ensures gap == ac - bc
  {
  }

  lemma Shrink(x: real, c: real, xc: real)
    requires 0.0 <= x && Unit(c) && IsProduct(xc, x, c)
    ensures 0.0 <= xc <= x
  {
    MulMono(c, 1.0, x);
    MulMono(0.0, c, x);
  }

  lemma TimesDifference(a: real, b: real, c: real, ac: real, bc: real)
    requires b <= a && Unit(c) && IsProduct(ac, a, c) && IsProduct(bc, b, c)
    ensures 0.0 <= ac - bc <= a - b
  {
    var gap := (a - b) * c;
    assert IsProduct(gap, a - b, c);
    hide IsProduct;
    Subtract(a, b, c, ac, bc, gap);
    Shrink(a - b, c, gap);
  }

  lemma ProductGap(s0: real, s1: real, f0: real, f1: real, t0: real, t1: real)
    requires Unit(s0) && Unit(s1) && Unit(f0) && Unit(f1) && s1 <= s0 && f1 <= f0
    requires IsProduct(t0, s0, f0) && IsProduct(t1, s1, f1)
    ensures t1 <= t0 <= t1 + (s0 - s1) + (f0 - f1)
  {
    TimesDifference(s0, s1, f0, t0, s1 * f0);
    TimesDifference(f0, f1, s1, f0 * s1, t1);
  }

  /** Raising the suppliers' risks costs at most the sum of the differences in impact. */
  lemma {:induction false} SafetyGap(es: seq<InEdge>, r1: Risks, r0: Risks, strength: real)
    requires Ordered(es, r1, r0) && UnitWeights(es) && Unit(strength)
    ensures Unit(Safe(es, r0, strength)) && Unit(Safe(es, r1, strength))
    ensures Safe(es, r1, strength) <= Safe(es, r0, strength) <= Safe(es, r1, strength) + Spread(es, r1, r0, strength)
  {
    hide Impact, IsProduct;
    SafeUnit(es, r0, strength);
    SafeUnit(es, r1, strength);
    if es != [] {
      var n := |es| - 1;
      SafetyGap(es[..n], r1, r0, strength);
      SafeLast(es, r0, strength);
      SafeLast(es, r1, strength);
      FactorMono(r0[es[n].src], es[n], r1[es[n].src], es[n], strength);
      ImpactUnit(r0[es[n].src], es[n], strength);
      ImpactUnit(r1[es[n].src], es[n], strength);
      ProductGap(Safe(es[..n], r0, strength), Safe(es[..n], r1, strength),
                 1.0 - Impact(r0[es[n].src], es[n], strength), 1.0 - Impact(r1[es[n].src], es[n], strength),
                 Safe(es, r0, strength), Safe(es, r1, strength));
    }
  }

  lemma ImpactGap(x1: real, x0: real, e: InEdge, strength: real, bound: real)
    requires x1 - x0 <= bound && 0.0 <= Weight(e) && 0.0 <= strength
    ensures Impact(x1, e, strength) - Impact(x0, e, strength) <= bound * (Weight(e) * strength)
  {
    MulMono(0.0, Weight(e), strength);
    MulMono(x1 - x0, bound, Weight(e) * strength);
  }

  /** Every node before the end of `order` satisfies the bound. */
  ghost predicate Bounded(scm: SupplyChainSCM, g: DiGraph, x: Node, order: seq<Node>, r1: Risks, r0: Risks, v: Node) {
    v in r1 && v in r0 && r1[v] - r0[v] <= SumWeights(scm, g, PathsTo(g, x, order, v))
  }

  lemma EdgeStrengthOf(scm: SupplyChainSCM, g: DiGraph, v: Node, i: nat)
    requires g.Valid() && v in g.pred && i < |g.pred[v]|
    ensures EdgeStrength(scm, g, g.pred[v][i].src, v) == Weight(g.pred[v][i]) * scm.causalStrength
  {
    var k := SourceIndex(g.pred[v], g.pred[v][i].src);
    assert HasSource(g.pred[v], g.pred[v][i].src);
    assert k == i;
  }

  lemma SumOverLast(scm: SupplyChainSCM, g: DiGraph, x: Node, order: seq<Node>, v: Node, m: nat)
    requires g.Valid() && g.PredecessorsFirst(order) && v in g.pred && m < |g.pred[v]|
    ensures SumWeights(scm, g, PathsOver(g, x, order, g.pred[v][..m + 1], v))
         == SumWeights(scm, g, PathsOver(g, x, order, g.pred[v][..m], v))
          + SumWeights(scm, g, PathsTo(g, x, order, g.pred[v][m].src)) * StepWeight(scm, g, g.pred[v][m].src, v)
  {
    hide StepWeight, SumWeights;
    var u := g.pred[v][m].src;
    var ps := PathsTo(g, x, order, u);
    assert g.pred[v][..m + 1][..m] == g.pred[v][..m];
    PathsToSound(g, x, order, u);
    SumConcat(scm, g, PathsOver(g, x, order, g.pred[v][..m], v), Appended(ps, v));
    SumAppended(scm, g, ps, x, u, v);
  }

  lemma SpreadLast(es: seq<InEdge>, m: nat, r1: Risks, r0: Risks, strength: real)
    requires m < |es| && Known(es, r1) && Known(es, r0)
    ensures Spread(es[..m + 1], r1, r0, strength) == Spread(es[..m], r1, r0, strength)
              + (Impact(r1[es[m].src], es[m], strength) - Impact(r0[es[m].src], es[m], strength))
  {
    hide Impact;
    assert es[..m + 1][..m] == es[..m];
  }

  lemma {:induction false} SpreadBounded(scm: SupplyChainSCM, g: DiGraph, x: Node, order: seq<Node>, v: Node, m: nat,
                                        r1: Risks, r0: Risks)
    requires g.Valid() && g.PredecessorsFirst(order) && UnitModel(scm, g)
    requires v in g.pred && m <= |g.pred[v]| && Known(g.pred[v], r1) && Known(g.pred[v], r0)
    requires forall i :: 0 <= i < |g.pred[v]| ==> Bounded(scm, g, x, order, r1, r0, g.pred[v][i].src)
    ensures Scaled(Spared(scm, g, v), Spread(g.pred[v][..m], r1, r0, scm.causalStrength))
         <= SumWeights(scm, g, PathsOver(g, x, order, g.pred[v][..m], v))
    decreases m
  {
    hide Impact, PathsOver, PathsTo, SumWeights, Spread, Scaled, Spared, StepWeight, EdgeStrength;
    if m == 0 {
      NothingSpread(scm, g, x, order, v, r1, r0);
    } else {
      var e := g.pred[v][m - 1];
      SpreadBounded(scm, g, x, order, v, m - 1, r1, r0);
      SumOverLast(scm, g, x, order, v, m - 1);
      SpreadLast(g.pred[v], m - 1, r1, r0, scm.causalStrength);
      assert Bounded(scm, g, x, order, r1, r0, e.src);
      var gap := Impact(r1[e.src], e, scm.causalStrength) - Impact(r0[e.src], e, scm.causalStrength);
      var before := Spread(g.pred[v][..m - 1], r1, r0, scm.causalStrength);
      assert Spread(g.pred[v][..m], r1, r0, scm.causalStrength) == before + gap;
      ScaledAdds(Spared(scm, g, v), before, gap);
      ImpactWithinStep(scm, g, v, m - 1, r1[e.src], r0[e.src], SumWeights(scm, g, PathsTo(g, x, order, e.src)));
    }
  }

  /** A name for multiplication by the chance that a node is spared. */
  ghost function Scaled(spared: real, x: real): real {
    spared * x
  }

  lemma ScaledAdds(spared: real, a: real, b: real)
    ensures Scaled(spared, a + b) == Scaled(spared, a) + Scaled(spared, b)
  {
  }

  lemma ScaledMono(spared: real, a: real, b: real)
    requires 0.0 <= spared && a <= b
    ensures Scaled(spared, a) <= Scaled(spared, b)
  {
    MulMono(a, b, spared);
  }

  lemma ScaledProduct(spared: real, bound: real, strength: real)
    ensures Scaled(spared, bound * strength) == bound * (spared * strength)
  {
  }

  /** The difference that one supplier makes is at most its own difference times the step's weight. */
  lemma ImpactWithinStep(scm: SupplyChainSCM, g: DiGraph, v: Node, i: nat, x1: real, x0: real, bound: real)
    requires g.Valid() && UnitModel(scm, g) && v in g.pred && i < |g.pred[v]| && x1 - x0 <= bound
    ensures var e := g.pred[v][i];
            Scaled(Spared(scm, g, v), Impact(x1, e, scm.causalStrength) - Impact(x0, e, scm.causalStrength))
              <= bound * StepWeight(scm, g, e.src, v)
  {
    var e := g.pred[v][i];
    EdgeStrengthOf(scm, g, v, i);
    StepWeightUnit(scm, g, e.src, v);
    ImpactGap(x1, x0, e, scm.causalStrength, bound);
    hide Spared, EdgeStrength, Impact;
    ScaledMono(Spared(scm, g, v), Impact(x1, e, scm.causalStrength) - Impact(x0, e, scm.causalStrength),
               bound * EdgeStrength(scm, g, e.src, v));
    ScaledProduct(Spared(scm, g, v), bound, EdgeStrength(scm, g, e.src, v));
  }

  lemma NothingSpread(scm: SupplyChainSCM, g: DiGraph, x: Node, order: seq<Node>, v: Node, r1: Risks, r0: Risks)
    requires v in g.pred
    ensures Scaled(Spared(scm, g, v), Spread(g.pred[v][..0], r1, r0, scm.causalStrength))
         <= SumWeights(scm, g, PathsOver(g, x, order, g.pred[v][..0], v))
  {
  }

  lemma ComplementGap(u: real, safe1: real, safe0: real, x1: real, x0: real)
    requires IsNoisyOr(x1, u, safe1) && IsNoisyOr(x0, u, safe0)
    ensures x1 - x0 == Scaled(1.0 - u, safe0 - safe1)
  {
  }

  lemma EquationGap(scm: SupplyChainSCM, g: DiGraph, x: Node, v: Node, r1: Risks, r0: Risks)
    requires g.Valid() && UnitModel(scm, g) && v != x
    requires SolvesAt(scm, g, Do(x, 1.0), r1, v) && SolvesAt(scm, g, Do(x, 0.0), r0, v)
    requires Ordered(g.pred[v], r1, r0)
    ensures r1[v] - r0[v] <= Scaled(Spared(scm, g, v), Spread(g.pred[v], r1, r0, scm.causalStrength))
  {
    hide IsNoisyOr, Safe, Spread, Intrinsic, Scaled;
    var safe1, safe0 := Safe(g.pred[v], r1, scm.causalStrength), Safe(g.pred[v], r0, scm.causalStrength);
    SafetyGap(g.pred[v], r1, r0, scm.causalStrength);
    IntrinsicUnit(scm.baseProb, g.nodes[v]);
    ComplementGap(Intrinsic(scm.baseProb, g.nodes[v]), safe1, safe0, r1[v], r0[v]);
    ScaledMono(Spared(scm, g, v), safe0 - safe1, Spread(g.pred[v], r1, r0, scm.causalStrength));
  }

  lemma {:induction false} PrefixBounded(scm: SupplyChainSCM, g: DiGraph, x: Node, order: seq<Node>, v: Node,
                                        r1: Risks, r0: Risks)
    requires g.Valid() && g.PredecessorsFirst(order) && UnitModel(scm, g) && v in order
    requires IsEffectOf(scm, g, x, r1, r0)
    requires forall w :: w in g.nodes ==> 0.0 <= r0[w] <= r1[w] <= 1.0
    ensures Bounded(scm, g, x, order, r1, r0, v)
    decreases |order|
  {
    hide SolvesAt;
    PrefixOfOrder(g, order);
    var n := |order| - 1;
    if v != order[n] {
      PrefixBounded(scm, g, x, order[..n], v, r1, r0);
    } else {
      assert SolvesAt(scm, g, Do(x, 1.0), r1, v) && SolvesAt(scm, g, Do(x, 0.0), r0, v);
      if v == x {
        ForcedEffect(scm, g, x, r1, r0);
        SumOfTrivial(scm, g, x);
      } else {
        var es := g.pred[v];
        forall i | 0 <= i < |es|
          ensures Bounded(scm, g, x, order[..n], r1, r0, es[i].src)
        {
          PrefixBounded(scm, g, x, order[..n], es[i].src, r1, r0);
        }
        assert es[..|es|] == es;
        SpreadBounded(scm, g, x, order[..n], v, |es|, r1, r0);
        EquationGap(scm, g, x, v, r1, r0);
      }
    }
  }

  lemma SumOfTrivial(scm: SupplyChainSCM, g: DiGraph, x: Node)
    ensures SumWeights(scm, g, [[x]]) == 1.0
  {
    assert [[x]][..0] == [];
  }

  lemma ForcedEffect(scm: SupplyChainSCM, g: DiGraph, x: Node, r1: Risks, r0: Risks)
    requires IsEffectOf(scm, g, x, r1, r0) && x in g.nodes
    ensures x in r1 && x in r0 && r1[x] == 1.0 && r0[x] == 0.0
  {
    assert SolvesAt(scm, g, Do(x, 1.0), r1, x) && SolvesAt(scm, g, Do(x, 0.0), r0, x);
  }

  /** The causal effect is at most the sum, over all directed paths from the intervention to the
      target, of the product of (1 - u) * weight * causal_strength along the path. */
  lemma {:induction false} EffectAtMostPathSum(scm: SupplyChainSCM, g: DiGraph, x: Node, target: Node, r1: Risks,
                                               r0: Risks, ps: seq<seq<Node>>)
    requires g.Valid() && g.Acyclic() && UnitModel(scm, g) && IsEffectOf(scm, g, x, r1, r0)
    requires ListsPaths(g, x, target, ps)
    ensures 0.0 <= Effect(r1, r0, target) <= 1.0
    ensures Effect(r1, r0, target) <= SumWeights(scm, g, ps)
  {
    LevelsOrdered(scm, g, x, r1, r0);
    SumNonNegative(scm, g, ps);
    if target in g.nodes {
      AcyclicIffSortable(g);
      var order :| g.IsTopological(order);
      PrefixBounded(scm, g, x, order, target, r1, r0);
      PathsListed(g, x, order, target);
      SumSubset(scm, g, PathsTo(g, x, order, target), ps);
    }
  }

  // ---------- the bound without the intrinsic risks ----------

  ghost function PathStrength(scm: SupplyChainSCM, g: DiGraph, p: seq<Node>): real {
    if |p| <= 1 then 1.0
    else PathStrength(scm, g, p[..|p| - 1]) * EdgeStrength(scm, g, p[|p| - 2], p[|p| - 1])
  }

  ghost function SumStrengths(scm: SupplyChainSCM, g: DiGraph, ps: seq<seq<Node>>): real {
    if ps == [] then 0.0
    else SumStrengths(scm, g, ps[..|ps| - 1]) + PathStrength(scm, g, ps[|ps| - 1])
  }

  lemma PathWeightLast(scm: SupplyChainSCM, g: DiGraph, p: seq<Node>)
    requires |p| > 1
    ensures IsProduct(PathWeight(scm, g, p), PathWeight(scm, g, p[..|p| - 1]),
                      StepWeight(scm, g, p[|p| - 2], p[|p| - 1]))
  {
    hide StepWeight;
  }

  lemma PathStrengthLast(scm: SupplyChainSCM, g: DiGraph, p: seq<Node>)
    requires |p| > 1
    ensures IsProduct(PathStrength(scm, g, p), PathStrength(scm, g, p[..|p| - 1]),
                      EdgeStrength(scm, g, p[|p| - 2], p[|p| - 1]))
  {
    hide EdgeStrength;
  }

  lemma {:induction false} WeightAtMostStrength(scm: SupplyChainSCM, g: DiGraph, p: seq<Node>)
    requires UnitModel(scm, g)
    ensures PathWeight(scm, g, p) <= PathStrength(scm, g, p)
    decreases |p|
  {
    if |p| > 1 {
      hide EdgeStrength, StepWeight, PathWeight, PathStrength, IsProduct;
      var front, u, v := p[..|p| - 1], p[|p| - 2], p[|p| - 1];
      WeightAtMostStrength(scm, g, front);
      PathWeightUnit(scm, g, front);
      StepWeightUnit(scm, g, u, v);
      PathWeightLast(scm, g, p);
      PathStrengthLast(scm, g, p);
      ProductMono(PathWeight(scm, g, front), StepWeight(scm, g, u, v), PathWeight(scm, g, p),
                  PathStrength(scm, g, front), EdgeStrength(scm, g, u, v), PathStrength(scm, g, p));
    }
  }

  lemma {:induction false} WeightsAtMostStrengths(scm: SupplyChainSCM, g: DiGraph, ps: seq<seq<Node>>)
    requires UnitModel(scm, g)
    ensures SumWeights(scm, g, ps) <= SumStrengths(scm, g, ps)
  {
    if ps != [] {
      WeightsAtMostStrengths(scm, g, ps[..|ps| - 1]);
      WeightAtMostStrength(scm, g, ps[|ps| - 1]);
    }
  }

  /** So it is at most the sum over all directed paths of the product of weight * causal_strength. */
  lemma {:induction false} EffectAtMostStrengthSum(scm: SupplyChainSCM, g: DiGraph, x: Node, target: Node, r1: Risks,
                                                   r0: Risks, ps: seq<seq<Node>>)
    requires g.Valid() && g.Acyclic() && UnitModel(scm, g) && IsEffectOf(scm, g, x, r1, r0)
    requires ListsPaths(g, x, target, ps)
    ensures Effect(r1, r0, target) <= SumStrengths(scm, g, ps)
  {
    hide *;
    EffectAtMostPathSum(scm, g, x, target, r1, r0, ps);
    WeightsAtMostStrengths(scm, g, ps);
  }

  /** Without a directed path there is no effect. */
  lemma {:induction false} NoPathNoEffect(scm: SupplyChainSCM, g: DiGraph, x: Node, target: Node, r1: Risks, r0: Risks)
    requires g.Valid() && g.Acyclic() && UnitModel(scm, g) && IsEffectOf(scm, g, x, r1, r0)
    requires !exists p :: Joins(g, x, target, p)
    ensures Effect(r1, r0, target) == 0.0
  {
    EffectAtMostPathSum(scm, g, x, target, r1, r0, []);
  }

  // ---------- a single chain ----------

  /** `p` is a path whose nodes after the first have no other supplier. */
  ghost predicate IsChain(g: DiGraph, p: seq<Node>) {
    g.IsPath(p) && forall i :: 0 < i < |p| && p[i] in g.pred ==> |g.pred[p[i]]| == 1
  }

  lemma ProductUnique(ab: real, ab': real, a: real, b: real)
    requires IsProduct(ab, a, b) && IsProduct(ab', a, b)
    ensures ab == ab'
  {
  }

  lemma OnlySupplier(g: DiGraph, p: seq<Node>)
    requires g.Valid() && IsChain(g, p) && |p| > 1
    ensures p[|p| - 1] in g.pred && |g.pred[p[|p| - 1]]| == 1
    ensures g.pred[p[|p| - 1]][0].src == p[|p| - 2]
    ensures IsChain(g, p[..|p| - 1])
  {
    assert g.Linked(p, |p| - 1);
    PathPrefix(g, p, |p| - 1);
  }

  lemma SafeOfOne(es: seq<InEdge>, r: Risks, strength: real)
    requires |es| == 1 && Known(es, r)
    ensures Safe(es, r, strength) == 1.0 - Impact(r[es[0].src], es[0], strength)
  {
    hide Impact;
    assert es[..0] == [];
  }

  lemma ChainArithmetic(u: real, w: real, s: real, y1: real, y0: real, x1: real, x0: real, safe1: real, safe0: real)
    requires safe1 == 1.0 - y1 * w * s && safe0 == 1.0 - y0 * w * s
    requires IsNoisyOr(x1, u, safe1) && IsNoisyOr(x0, u, safe0)
    ensures x1 - x0 == (y1 - y0) * ((1.0 - u) * (w * s))
  {
    assert safe0 - safe1 == (y1 - y0) * (w * s);
    assert x1 - x0 == (1.0 - u) * (safe0 - safe1);
    Commute(y1 - y0, 1.0 - u, w * s);
  }

  lemma Commute(a: real, b: real, c: real)
    ensures b * (a * c) == a * (b * c)
  {
  }

  lemma {:induction false} ChainStep(scm: SupplyChainSCM, g: DiGraph, x: Node, v: Node, y: Node, r1: Risks, r0: Risks)
    requires g.Valid() && IsEffectOf(scm, g, x, r1, r0) && v in g.nodes && y in g.nodes && v != x
    requires |g.pred[v]| == 1 && g.pred[v][0].src == y
    ensures IsProduct(Effect(r1, r0, v), Effect(r1, r0, y), StepWeight(scm, g, y, v))
  {
    hide IsNoisyOr, EdgeStrength, Intrinsic, Safe;
    var e := g.pred[v][0];
    assert SolvesAt(scm, g, Do(x, 1.0), r1, v) && SolvesAt(scm, g, Do(x, 0.0), r0, v);
    SafeOfOne(g.pred[v], r1, scm.causalStrength);
    SafeOfOne(g.pred[v], r0, scm.causalStrength);
    EdgeStrengthOf(scm, g, v, 0);
    ChainArithmetic(Intrinsic(scm.baseProb, g.nodes[v]), Weight(e), scm.causalStrength, r1[y], r0[y], r1[v], r0[v],
                    Safe(g.pred[v], r1, scm.causalStrength), Safe(g.pred[v], r0, scm.causalStrength));
  }

  /** On a chain the effect is exactly the product of (1 - u) * weight * causal_strength, so the bound is met. */
  lemma {:induction false} EffectOnChain(scm: SupplyChainSCM, g: DiGraph, p: seq<Node>, r1: Risks, r0: Risks)
    requires g.Valid() && g.Acyclic() && IsChain(g, p) && IsEffectOf(scm, g, p[0], r1, r0)
    ensures Effect(r1, r0, p[|p| - 1]) == PathWeight(scm, g, p)
    decreases |p|
  {
    hide IsProduct, StepWeight, Solves;
    if |p| == 1 {
      ForcedEffect(scm, g, p[0], r1, r0);
    } else {
      hide PathWeight, Effect;
      var n := |p| - 1;
      OnlySupplier(g, p);
      PathFacts(g, p, n);
      PathFacts(g, p, n - 1);
      EffectOnChain(scm, g, p[..n], r1, r0);
      ChainStep(scm, g, p[0], p[n], p[n - 1], r1, r0);
      PathWeightLast(scm, g, p);
      ProductUnique(Effect(r1, r0, p[n]), PathWeight(scm, g, p), PathWeight(scm, g, p[..n]),
                    StepWeight(scm, g, p[n - 1], p[n]));
    }
  }

  // ---------- when there is an effect at all ----------

  /** The product of positive upper factors is met only by the factors themselves. */
  lemma StrictProduct(a: real, b: real, ab: real, a': real, b': real, ab': real)
    requires 0.0 <= a <= a' && 0.0 <= b <= b' && 0.0 < a' && 0.0 < b'
    requires IsProduct(ab, a, b) && IsProduct(ab', a', b')
    ensures ab < ab' <==> a < a' || b < b'
    ensures 0.0 < ab'
  {
    if a < a' {
      MulMono(b, b', a);
      assert a * b' < a' * b';
    } else if b < b' {
      assert a * b < a * b';
    }
  }

  /** Some supplier's impact differs between the two interventions. */
  ghost predicate ImpactsDiffer(es: seq<InEdge>, r1: Risks, r0: Risks, strength: real)
    requires Known(es, r1) && Known(es, r0)
  {
    exists i :: 0 <= i < |es| && Impact(r0[es[i].src], es[i], strength) < Impact(r1[es[i].src], es[i], strength)
  }

  /** No supplier is certain to be compromised. */
  ghost predicate Uncertain(es: seq<InEdge>, r: Risks) {
    Known(es, r) && forall i :: 0 <= i < |es| ==> r[es[i].src] < 1.0
  }

  lemma ImpactBelowOne(x: real, e: InEdge, strength: real)
    requires 0.0 <= x < 1.0 && Unit(Weight(e)) && Unit(strength)
    ensures Impact(x, e, strength) < 1.0
  {
    MulUnit(x, Weight(e));
    MulUnit(x * Weight(e), strength);
  }

  lemma DifferInFront(es: seq<InEdge>, r1: Risks, r0: Risks, strength: real)
    requires es != [] && Known(es, r1) && Known(es, r0)
    ensures var n := |es| - 1;
            ImpactsDiffer(es, r1, r0, strength) <==>
            || ImpactsDiffer(es[..n], r1, r0, strength)
            || Impact(r0[es[n].src], es[n], strength) < Impact(r1[es[n].src], es[n], strength)
  {
    hide Impact;
    var n := |es| - 1;
    if ImpactsDiffer(es[..n], r1, r0, strength) {
      var i :| 0 <= i < n
            && Impact(r0[es[..n][i].src], es[..n][i], strength) < Impact(r1[es[..n][i].src], es[..n][i], strength);
      assert es[i] == es[..n][i];
    }
    if i :| 0 <= i < n && Impact(r0[es[i].src], es[i], strength) < Impact(r1[es[i].src], es[i], strength) {
      assert es[..n][i] == es[i];
    }
  }

  /** Safety is lost if and only if some supplier's impact grows. */
  lemma {:induction false} SafetyLostIff(es: seq<InEdge>, r1: Risks, r0: Risks, strength: real)
    requires Ordered(es, r1, r0) && Uncertain(es, r0) && UnitWeights(es) && Unit(strength)
    ensures 0.0 < Safe(es, r0, strength)
    ensures Safe(es, r1, strength) < Safe(es, r0, strength) <==> ImpactsDiffer(es, r1, r0, strength)
  {
    hide Impact, IsProduct;
    if es != [] {
      var n := |es| - 1;
      SafetyLostIff(es[..n], r1, r0, strength);
      SafetyGap(es[..n], r1, r0, strength);
      SafeLast(es, r0, strength);
      SafeLast(es, r1, strength);
      FactorMono(r0[es[n].src], es[n], r1[es[n].src], es[n], strength);
      ImpactBelowOne(r0[es[n].src], es[n], strength);
      DifferInFront(es, r1, r0, strength);
      hide Safe, ImpactsDiffer;
      StrictProduct(Safe(es[..n], r1, strength), 1.0 - Impact(r1[es[n].src], es[n], strength), Safe(es, r1, strength),
                    Safe(es[..n], r0, strength), 1.0 - Impact(r0[es[n].src], es[n], strength), Safe(es, r0, strength));
    }
  }

  lemma {:induction false} PositiveProduct(a: real, b: real, ab: real)
    requires 0.0 <= a && 0.0 <= b && IsProduct(ab, a, b)
    ensures ab > 0.0 <==> a > 0.0 && b > 0.0
  {
    if a > 0.0 && b > 0.0 {
      assert a * b > 0.0;
    }
  }

  /** The equation of a node passes a difference in safety on, and keeps the risk below one. */
  lemma {:induction false} ComplementStrict(u: real, safe1: real, safe0: real, x1: real, x0: real)
    requires 0.0 <= u < 1.0 && 0.0 < safe0 && safe1 <= safe0 && IsNoisyOr(x1, u, safe1) && IsNoisyOr(x0, u, safe0)
    ensures x0 < 1.0
    ensures x0 < x1 <==> safe1 < safe0
  {
    PositiveProduct(1.0 - u, safe0, 1.0 - x0);
    ComplementGap(u, safe1, safe0, x1, x0);
    hide IsNoisyOr;
    PositiveProduct(1.0 - u, safe0 - safe1, x1 - x0);
  }

  /** What is known of a node: its risk without the compromise is below one, and the compromise raises it if
      and only if some path of positive weight leads to it. */
  ghost predicate EffectKnown(scm: SupplyChainSCM, g: DiGraph, x: Node, r1: Risks, r0: Risks, v: Node) {
    && v in r1 && v in r0 && r0[v] < 1.0
    && (r0[v] < r1[v] <==> HasWeight(scm, g, x, v))
  }

  ghost predicate HasWeight(scm: SupplyChainSCM, g: DiGraph, x: Node, v: Node) {
    exists p :: Joins(g, x, v, p) && PathWeight(scm, g, p) > 0.0
  }

  /** A step has weight if and only if its edge has strength: no node is certain to fail by itself. */
  lemma StepWeightPositive(scm: SupplyChainSCM, g: DiGraph, u: Node, v: Node)
    requires UnitModel(scm, g) && v in g.nodes
    ensures StepWeight(scm, g, u, v) > 0.0 <==> EdgeStrength(scm, g, u, v) > 0.0
  {
    hide EdgeStrength, Intrinsic;
    StepWeightUnit(scm, g, u, v);
    IntrinsicUnit(scm.baseProb, g.nodes[v]);
    PositiveProduct(Spared(scm, g, v), EdgeStrength(scm, g, u, v), StepWeight(scm, g, u, v));
  }

  /** A longer path has weight if and only if the path before has, and the last edge has strength. */
  lemma LastStepPositive(scm: SupplyChainSCM, g: DiGraph, p: seq<Node>)
    requires UnitModel(scm, g) && |p| > 1 && p[|p| - 1] in g.nodes
    ensures PathWeight(scm, g, p) > 0.0 <==>
            PathWeight(scm, g, p[..|p| - 1]) > 0.0 && EdgeStrength(scm, g, p[|p| - 2], p[|p| - 1]) > 0.0
  {
    hide StepWeight, EdgeStrength, IsProduct, PathWeight;
    PathWeightUnit(scm, g, p[..|p| - 1]);
    StepWeightUnit(scm, g, p[|p| - 2], p[|p| - 1]);
    StepWeightPositive(scm, g, p[|p| - 2], p[|p| - 1]);
    PathWeightLast(scm, g, p);
    PositiveProduct(PathWeight(scm, g, p[..|p| - 1]), StepWeight(scm, g, p[|p| - 2], p[|p| - 1]),
                    PathWeight(scm, g, p));
  }

  /** A supplier makes a difference if and only if it differs itself, and its edge has strength. */
  lemma ImpactDiffersIff(scm: SupplyChainSCM, g: DiGraph, v: Node, i: nat, x1: real, x0: real)
    requires g.Valid() && UnitModel(scm, g) && v in g.pred && i < |g.pred[v]| && x0 <= x1
    ensures var e := g.pred[v][i];
            Impact(x0, e, scm.causalStrength) < Impact(x1, e, scm.causalStrength) <==>
            x0 < x1 && EdgeStrength(scm, g, e.src, v) > 0.0
  {
    var e := g.pred[v][i];
    EdgeStrengthOf(scm, g, v, i);
    StepWeightUnit(scm, g, e.src, v);
    var strength := EdgeStrength(scm, g, e.src, v);
    ImpactIsProduct(x0, e, scm.causalStrength, strength);
    ImpactIsProduct(x1, e, scm.causalStrength, strength);
    hide EdgeStrength, Impact;
    var gap := (x1 - x0) * strength;
    assert gap == Impact(x1, e, scm.causalStrength) - Impact(x0, e, scm.causalStrength);
    PositiveProduct(x1 - x0, strength, gap);
  }

  lemma ImpactIsProduct(x: real, e: InEdge, strength: real, product: real)
    requires product == Weight(e) * strength
    ensures Impact(x, e, strength) == x * product
  {
  }

  /** Some supplier is reached with weight over an edge with strength. */
  ghost predicate SupplierHasWeight(scm: SupplyChainSCM, g: DiGraph, x: Node, v: Node)
    requires v in g.pred
  {
    exists i :: 0 <= i < |g.pred[v]| && HasWeight(scm, g, x, g.pred[v][i].src)
                && EdgeStrength(scm, g, g.pred[v][i].src, v) > 0.0
  }

  lemma WeightThroughSupplier(scm: SupplyChainSCM, g: DiGraph, x: Node, v: Node)
    requires g.Valid() && UnitModel(scm, g) && v in g.pred && v != x
    ensures HasWeight(scm, g, x, v) <==> SupplierHasWeight(scm, g, x, v)
  {
    hide PathWeight, EdgeStrength;
    if HasWeight(scm, g, x, v) {
      var p :| Joins(g, x, v, p) && PathWeight(scm, g, p) > 0.0;
      var n := |p| - 1;
      assert g.Linked(p, n);
      PathPrefix(g, p, n);
      LastStepPositive(scm, g, p);
      assert Joins(g, x, p[n - 1], p[..n]);
      var i :| 0 <= i < |g.pred[v]| && g.pred[v][i].src == p[n - 1];
    }
    if i :| 0 <= i < |g.pred[v]| && HasWeight(scm, g, x, g.pred[v][i].src)
            && EdgeStrength(scm, g, g.pred[v][i].src, v) > 0.0 {
      var u := g.pred[v][i].src;
      var q :| Joins(g, x, u, q) && PathWeight(scm, g, q) > 0.0;
      assert g.HasEdge(u, v);
      PathExtend(g, q, v);
      assert (q + [v])[..|q|] == q;
      LastStepPositive(scm, g, q + [v]);
      assert Joins(g, x, v, q + [v]);
    }
  }

  /** One equation, when everything is known of the suppliers. */
  lemma EffectOfSuppliers(scm: SupplyChainSCM, g: DiGraph, x: Node, v: Node, r1: Risks, r0: Risks)
    requires g.Valid() && UnitModel(scm, g) && v != x
    requires SolvesAt(scm, g, Do(x, 1.0), r1, v) && SolvesAt(scm, g, Do(x, 0.0), r0, v)
    requires Ordered(g.pred[v], r1, r0)
    requires forall i :: 0 <= i < |g.pred[v]| ==> EffectKnown(scm, g, x, r1, r0, g.pred[v][i].src)
    ensures EffectKnown(scm, g, x, r1, r0, v)
  {
    hide IsNoisyOr, Safe, Impact, Intrinsic, HasWeight, EdgeStrength;
    var es, strength := g.pred[v], scm.causalStrength;
    assert Uncertain(es, r0);
    SafetyLostIff(es, r1, r0, strength);
    SafetyGap(es, r1, r0, strength);
    IntrinsicUnit(scm.baseProb, g.nodes[v]);
    ComplementStrict(Intrinsic(scm.baseProb, g.nodes[v]), Safe(es, r1, strength), Safe(es, r0, strength), r1[v], r0[v]);
    WeightThroughSupplier(scm, g, x, v);
    forall i | 0 <= i < |es|
      ensures Impact(r0[es[i].src], es[i], strength) < Impact(r1[es[i].src], es[i], strength) <==>
              HasWeight(scm, g, x, es[i].src) && EdgeStrength(scm, g, es[i].src, v) > 0.0
    {
      assert EffectKnown(scm, g, x, r1, r0, es[i].src);
      ImpactDiffersIff(scm, g, v, i, r1[es[i].src], r0[es[i].src]);
    }
  }

  lemma {:induction false} EffectKnownAt(scm: SupplyChainSCM, g: DiGraph, x: Node, order: seq<Node>, r1: Risks,
                                         r0: Risks, k: nat)
    requires g.Valid() && g.IsTopological(order) && UnitModel(scm, g) && k < |order|
    requires IsEffectOf(scm, g, x, r1, r0)
    requires forall w :: w in g.nodes ==> 0.0 <= r0[w] <= r1[w] <= 1.0
    ensures EffectKnown(scm, g, x, r1, r0, order[k])
    decreases k
  {
    hide SolvesAt, UnitModel, HasWeight;
    var v := order[k];
    assert SolvesAt(scm, g, Do(x, 1.0), r1, v) && SolvesAt(scm, g, Do(x, 0.0), r0, v);
    if v == x {
      ForcedEffect(scm, g, x, r1, r0);
      WeightOfItself(scm, g, x);
    } else {
      forall i | 0 <= i < |g.pred[v]|
        ensures EffectKnown(scm, g, x, r1, r0, g.pred[v][i].src)
      {
        var m := g.SupplierPosition(order, k, i);
        EffectKnownAt(scm, g, x, order, r1, r0, m);
      }
      EffectOfSuppliers(scm, g, x, v, r1, r0);
    }
  }

  lemma WeightOfItself(scm: SupplyChainSCM, g: DiGraph, x: Node)
    requires x in g.nodes
    ensures HasWeight(scm, g, x, x)
  {
    assert Joins(g, x, x, [x]) && PathWeight(scm, g, [x]) == 1.0;
  }

  /** Compromising a node has an effect on another if and only if some directed path of positive weight
      leads there. */
  lemma {:induction false} EffectPositiveIff(scm: SupplyChainSCM, g: DiGraph, x: Node, target: Node, r1: Risks,
                                             r0: Risks)
    requires g.Valid() && g.Acyclic() && UnitModel(scm, g) && IsEffectOf(scm, g, x, r1, r0)
    ensures Effect(r1, r0, target) > 0.0 <==> HasWeight(scm, g, x, target)
  {
    hide PathWeight, SolvesAt, UnitModel;
    if target in g.nodes {
      LevelsOrdered(scm, g, x, r1, r0);
      AcyclicIffSortable(g);
      var order :| g.IsTopological(order);
      var k :| 0 <= k < |order| && order[k] == target;
      EffectKnownAt(scm, g, x, order, r1, r0, k);
    } else if p :| Joins(g, x, target, p) {
      PathFacts(g, p, |p| - 1);
    }
  }

  // ---------- the method ----------

  /** What the estimate promises when all parameters are probabilities. */
  ghost predicate WithinPathSums(scm: SupplyChainSCM, g: DiGraph, x: Node, target: Node, effect: real) {
    && 0.0 <= effect <= 1.0
    && (forall ps :: ListsPaths(g, x, target, ps) ==> effect <= SumWeights(scm, g, ps) <= SumStrengths(scm, g, ps))
    && ((forall p :: !Joins(g, x, target, p)) ==> effect == 0.0)
  }

  lemma EffectWithinPathSums(scm: SupplyChainSCM, g: DiGraph, x: Node, target: Node, r1: Risks, r0: Risks)
    requires g.Valid() && g.Acyclic() && UnitModel(scm, g) && IsEffectOf(scm, g, x, r1, r0)
    ensures WithinPathSums(scm, g, x, target, Effect(r1, r0, target))
  {
    hide SolvesAt;
    LevelsOrdered(scm, g, x, r1, r0);
    forall ps | ListsPaths(g, x, target, ps)
      ensures Effect(r1, r0, target) <= SumWeights(scm, g, ps) <= SumStrengths(scm, g, ps)
    {
      EffectAtMostPathSum(scm, g, x, target, r1, r0, ps);
      WeightsAtMostStrengths(scm, g, ps);
    }
    if forall p :: !Joins(g, x, target, p) {
      NoPathNoEffect(scm, g, x, target, r1, r0);
    }
  }

  lemma NothingWithinPathSums(scm: SupplyChainSCM, g: DiGraph, x: Node, target: Node)
    requires UnitModel(scm, g)
    ensures WithinPathSums(scm, g, x, target, 0.0)
  {
    forall ps
      ensures 0.0 <= SumWeights(scm, g, ps) <= SumStrengths(scm, g, ps)
    {
      SumNonNegative(scm, g, ps);
      WeightsAtMostStrengths(scm, g, ps);
    }
  }

  lemma EffectUnique(scm: SupplyChainSCM, g: DiGraph, x: Node, r1: Risks, r0: Risks, r1': Risks, r0': Risks)
    requires g.Valid() && g.Acyclic() && IsEffectOf(scm, g, x, r1, r0) && IsEffectOf(scm, g, x, r1', r0')
    ensures r1 == r1' && r0 == r0'
  {
    hide Solves;
    SolutionUnique(scm, g, Do(x, 1.0), r1, r1');
    SolutionUnique(scm, g, Do(x, 0.0), r0, r0');
  }

  method EstimateCausalEffect(scm: SupplyChainSCM, g: DiGraph, topo1: Option<seq<Node>>, topo0: Option<seq<Node>>,
                              target: Node, node: Node)
    returns (effect: real)
    requires g.Valid() && g.IsSortOf(topo1) && g.IsSortOf(topo0)
    ensures !g.Acyclic() ==> effect == 0.0
    ensures g.Acyclic() ==> forall r1, r0 :: IsEffectOf(scm, g, node, r1, r0) ==> effect == Effect(r1, r0, target)
    ensures g.Acyclic() ==> exists r1, r0 :: IsEffectOf(scm, g, node, r1, r0)
    ensures UnitModel(scm, g) ==> WithinPathSums(scm, g, node, target, effect)
    ensures UnitModel(scm, g) && g.Acyclic() ==> (effect > 0.0 <==> HasWeight(scm, g, node, target))
  {
    hide Solves, WithinPathSums, UnitModel, HasWeight;
    var do1 := ComputeInterventionalRisk(scm, g, topo1, Do(node, 1.0));
    var do0 := ComputeInterventionalRisk(scm, g, topo0, Do(node, 0.0));
    effect := (if target in do1 then do1[target] else 0.0) - (if target in do0 then do0[target] else 0.0);
    if g.Acyclic() {
      assert IsEffectOf(scm, g, node, do1, do0);
      forall r1, r0 | IsEffectOf(scm, g, node, r1, r0)
        ensures effect == Effect(r1, r0, target)
      {
        EffectUnique(scm, g, node, r1, r0, do1, do0);
      }
      if UnitModel(scm, g) {
        EffectWithinPathSums(scm, g, node, target, do1, do0);
        EffectPositiveIff(scm, g, node, target, do1, do0);
      }
    } else if UnitModel(scm, g) {
      NothingWithinPathSums(scm, g, node, target);
    }
  }
}
