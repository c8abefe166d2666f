/**
 Distances in the in-memory knowledge graph, and the invariant of the breadth-first search of
 semantic_fusion/graph_client.py, which marks an id as visited when it leaves the queue.
 */
module Subgraph {
  datatype Value = Str(s: string) | Num(r: real) | Int(n: int) | Flag(b: bool) | List(items: seq<string>)
      | Ints(ns: seq<int>) | Null

  type Properties = map<string, Value>

  datatype NodeRecord = NodeRecord(nodeLabel: string, properties: Properties)

  /** An element of `mock_edges`; the query returns the same four values under other keys. */
  datatype Edge = Edge(source: string, target: string, kind: string, properties: Properties)

  datatype NodeOut = NodeOut(id: string, labels: seq<string>, properties: Properties)

  datatype SubgraphResult = SubgraphResult(nodes: seq<NodeOut>, edges: seq<Edge>)

  datatype Item = Item(id: string, depth: nat)

  // ---------- distances ----------

  ghost function Targets(edges: seq<Edge>, from: set<string>): set<string> {
    set i | 0 <= i < |edges| && edges[i].source in from :: edges[i].target
  }

  /** The ids within `d` edges of the root. */
  ghost function Reach(edges: seq<Edge>, root: string, d: nat): set<string> {
    if d == 0 then {root}
    else Reach(edges, root, d - 1) + Targets(edges, Reach(edges, root, d - 1))
  }

  ghost predicate Step(edges: seq<Edge>, u: string, v: string) {
    exists i :: 0 <= i < |edges| && edges[i].source == u && edges[i].target == v
  }

  /** `w` walks along edges from the root to `v`. */
  ghost predicate IsWalk(edges: seq<Edge>, root: string, v: string, w: seq<string>)
    decreases |w|
  {
    w != [] && w[|w| - 1] == v &&
    if |w| == 1 then v == root
    else Step(edges, w[|w| - 2], v) && IsWalk(edges, root, w[|w| - 2], w[..|w| - 1])
  }

  lemma {:induction false} ReachMonotone(edges: seq<Edge>, root: string, c: nat, d: nat)
    requires c <= d
    ensures Reach(edges, root, c) <= Reach(edges, root, d)
    decreases d - c
  {
    if c < d {
      ReachMonotone(edges, root, c, d - 1);
    }
  }

  lemma {:induction false} WalkToReached(edges: seq<Edge>, root: string, v: string, d: nat) returns (w: seq<string>)
    requires v in Reach(edges, root, d)
    ensures IsWalk(edges, root, v, w) && |w| <= d + 1
    decreases d
  {
    if d == 0 {
      w := [v];
    } else if v in Reach(edges, root, d - 1) {
      w := WalkToReached(edges, root, v, d - 1);
    } else {
      var i :| 0 <= i < |edges| && edges[i].source in Reach(edges, root, d - 1) && edges[i].target == v;
      var front := WalkToReached(edges, root, edges[i].source, d - 1);
      w := front + [v];
      assert w[..|w| - 1] == front;
    }
  }

  lemma {:induction false} WalkReaches(edges: seq<Edge>, root: string, v: string, w: seq<string>)
    requires IsWalk(edges, root, v, w)
    ensures v in Reach(edges, root, |w| - 1)
    decreases |w|
  {
    if |w| > 1 {
      var n := |w| - 1;
      WalkReaches(edges, root, w[n - 1], w[..n]);
      var i :| 0 <= i < |edges| && edges[i].source == w[n - 1] && edges[i].target == v;
    }
  }

  /** `Reach` is distance: an id is in it exactly when some walk of at most `d` edges leads there. */
  lemma ReachIsDistance(edges: seq<Edge>, root: string, v: string, d: nat)
    ensures v in Reach(edges, root, d) <==> exists w :: IsWalk(edges, root, v, w) && |w| <= d + 1
  {
    if v in Reach(edges, root, d) {
      var w := WalkToReached(edges, root, v, d);
    }
    if w :| IsWalk(edges, root, v, w) && |w| <= d + 1 {
      WalkReaches(edges, root, v, w);
      ReachMonotone(edges, root, |w| - 1, d);
    }
  }

  // ---------- what the query promises ----------

  ghost function Depth(maxDepth: int): nat {
    if maxDepth < 0 then 0 else maxDepth
  }

  /** The ids whose outgoing edges are followed. */
  ghost function Expanded(edges: seq<Edge>, root: string, maxDepth: int): set<string> {
    if maxDepth <= 0 then {} else Reach(edges, root, maxDepth - 1)
  }

  ghost function EdgesFrom(edges: seq<Edge>, from: set<string>): seq<Edge> {
    if edges == [] then []
    else
      var n := |edges| - 1;
      EdgesFrom(edges[..n], from) + (if edges[n].source in from then [edges[n]] else [])
  }

  ghost predicate Listed(out: seq<NodeOut>, v: string) {
    exists i :: 0 <= i < |out| && out[i].id == v
  }

  ghost predicate NoNodeTwice(out: seq<NodeOut>) {
    forall i, j :: 0 <= i < j < |out| ==> out[i].id != out[j].id
  }

  ghost predicate StoredRecords(nodes: map<string, NodeRecord>, out: seq<NodeOut>) {
    forall i :: 0 <= i < |out| ==>
      && out[i].id in nodes
      && out[i] == NodeOut(out[i].id, [nodes[out[i].id].nodeLabel], nodes[out[i].id].properties)
  }

  /** No id comes after one that is farther from the root. */
  ghost predicate ByDistance(edges: seq<Edge>, root: string, out: seq<NodeOut>) {
    forall i, j, d: nat :: 0 <= i < j < |out| && out[j].id in Reach(edges, root, d) ==>
             out[i].id in Reach(edges, root, d)
  }

  ghost predicate IsSubgraph(nodes: map<string, NodeRecord>, edges: seq<Edge>, root: string, maxDepth: int,
                             sub: SubgraphResult)
  {
    && NoNodeTwice(sub.nodes)
    && StoredRecords(nodes, sub.nodes)
    && (forall v :: Listed(sub.nodes, v) <==> v in nodes && v in Reach(edges, root, Depth(maxDepth)))
    && ByDistance(edges, root, sub.nodes)
    && multiset(sub.edges) == multiset(EdgesFrom(edges, Expanded(edges, root, maxDepth)))
  }

  // ---------- the invariant of the search ----------

  ghost predicate Queued(queue: seq<Item>, v: string, d: nat) {
    exists i :: 0 <= i < |queue| && queue[i].id == v && queue[i].depth <= d
  }

  /** First in, first out: depths in the queue do not decrease and span at most one step. */
  ghost predicate Fifo(queue: seq<Item>) {
    && (forall i, j :: 0 <= i < j < |queue| ==> queue[i].depth <= queue[j].depth)
    && (forall i :: 0 <= i < |queue| ==> queue[i].depth <= queue[0].depth + 1)
  }

  /** `d` is the distance of `v`. */
  ghost predicate IsDistance(edges: seq<Edge>, root: string, v: string, d: nat) {
    v in Reach(edges, root, d) && forall c: nat :: v in Reach(edges, root, c) ==> d <= c
  }

  ghost predicate Followed(edges: seq<Edge>, maxDepth: int, dist: map<string, nat>, queue: seq<Item>) {
    forall i :: 0 <= i < |edges| && edges[i].source in dist && dist[edges[i].source] < maxDepth ==>
      edges[i].target in dist || Queued(queue, edges[i].target, dist[edges[i].source] + 1)
  }

  ghost predicate Reachable(edges: seq<Edge>, root: string, maxDepth: int, p: Item) {
    p.id in Reach(edges, root, p.depth) && p.depth <= Depth(maxDepth)
  }

  /** `dist` holds the depth at which each visited id left the queue. */
  ghost predicate Searching(edges: seq<Edge>, root: string, maxDepth: int, dist: map<string, nat>, queue: seq<Item>) {
    && Fifo(queue)
    && (forall p :: p in queue ==> Reachable(edges, root, maxDepth, p))
    && (forall v :: v in dist ==> IsDistance(edges, root, v, dist[v]) && dist[v] <= Depth(maxDepth))
    && (forall v :: v in dist && queue != [] ==> dist[v] <= queue[0].depth)
    && Followed(edges, maxDepth, dist, queue)
    && (root in dist || Queued(queue, root, 0))
  }

  /** The target of an expanded id is visited, or the head of the queue is no farther away. */
  lemma TargetIsNear(edges: seq<Edge>, root: string, maxDepth: int, dist: map<string, nat>, queue: seq<Item>, i: nat)
    requires Searching(edges, root, maxDepth, dist, queue)
    requires i < |edges| && edges[i].source in dist && dist[edges[i].source] < maxDepth
    ensures edges[i].target in dist || (queue != [] && queue[0].depth <= dist[edges[i].source] + 1)
  {
    hide Reach;
  }

  lemma RootIsNear(edges: seq<Edge>, root: string, maxDepth: int, dist: map<string, nat>, queue: seq<Item>)
    requires Searching(edges, root, maxDepth, dist, queue)
    ensures root in dist || (queue != [] && queue[0].depth == 0)
  {
  }

  lemma DistanceAtMost(edges: seq<Edge>, root: string, maxDepth: int, dist: map<string, nat>, queue: seq<Item>,
                       v: string, c: nat)
    requires Searching(edges, root, maxDepth, dist, queue) && v in dist && v in Reach(edges, root, c)
    ensures dist[v] <= c
  {
    hide Reach, Fifo, Followed;
    assert IsDistance(edges, root, v, dist[v]);
  }

  /** Everything closer to the root than the head of the queue has been visited. */
  lemma {:induction false} NearerIsVisited(edges: seq<Edge>, root: string, maxDepth: int, dist: map<string, nat>,
                                           queue: seq<Item>, v: string, k: nat)
    requires Searching(edges, root, maxDepth, dist, queue)
    requires v in Reach(edges, root, k) && k <= Depth(maxDepth) && (queue == [] || k < queue[0].depth)
    ensures v in dist
    decreases k
  {
    hide Searching;
    if k == 0 {
      RootIsNear(edges, root, maxDepth, dist, queue);
    } else if v in Reach(edges, root, k - 1) {
      NearerIsVisited(edges, root, maxDepth, dist, queue, v, k - 1);
    } else {
      var i :| 0 <= i < |edges| && edges[i].source in Reach(edges, root, k - 1) && edges[i].target == v;
      NearerIsVisited(edges, root, maxDepth, dist, queue, edges[i].source, k - 1);
      DistanceAtMost(edges, root, maxDepth, dist, queue, edges[i].source, k - 1);
      TargetIsNear(edges, root, maxDepth, dist, queue, i);
    }
  }

  /** An id that leaves the queue for the first time leaves it at its distance. */
  lemma HeadAtItsDistance(edges: seq<Edge>, root: string, maxDepth: int, dist: map<string, nat>, queue: seq<Item>)
    requires Searching(edges, root, maxDepth, dist, queue) && queue != [] && queue[0].id !in dist
    ensures IsDistance(edges, root, queue[0].id, queue[0].depth)
  {
    assert Reachable(edges, root, maxDepth, queue[0]);
    forall c: nat | queue[0].id in Reach(edges, root, c)
      ensures queue[0].depth <= c
    {
      if c < queue[0].depth {
        NearerIsVisited(edges, root, maxDepth, dist, queue, queue[0].id, c);
      }
    }
  }

  lemma QueuedInTail(queue: seq<Item>, more: seq<Item>, v: string, d: nat)
    requires queue != [] && Queued(queue, v, d)
    ensures v == queue[0].id || Queued(queue[1..] + more, v, d)
  {
    var i :| 0 <= i < |queue| && queue[i].id == v && queue[i].depth <= d;
    if i > 0 {
      assert (queue[1..] + more)[i - 1] == queue[i];
    }
  }

  lemma TailFacts(queue: seq<Item>, more: seq<Item>)
    requires queue != [] && Fifo(queue)
    requires forall i :: 0 <= i < |more| ==> more[i].depth == queue[0].depth + 1
    ensures Fifo(queue[1..] + more)
    ensures forall i :: 0 <= i < |queue[1..] + more| ==> queue[0].depth <= (queue[1..] + more)[i].depth
    ensures forall p :: p in queue[1..] + more ==> p in queue || p in more
  {
  }

  /** Skipping an id that was visited before. */
  lemma SkipKeeps(edges: seq<Edge>, root: string, maxDepth: int, dist: map<string, nat>, queue: seq<Item>)
    requires Searching(edges, root, maxDepth, dist, queue) && queue != [] && queue[0].id in dist
    ensures Searching(edges, root, maxDepth, dist, queue[1..])
  {
    var rest := queue[1..];
    assert rest + [] == rest;
    TailFacts(queue, []);
    forall i | 0 <= i < |edges| && edges[i].source in dist && dist[edges[i].source] < maxDepth
      ensures edges[i].target in dist || Queued(rest, edges[i].target, dist[edges[i].source] + 1)
    {
      if edges[i].target !in dist {
        QueuedInTail(queue, [], edges[i].target, dist[edges[i].source] + 1);
      }
    }
    if root !in dist {
      QueuedInTail(queue, [], root, 0);
    }
  }

  /** What expanding `id` appends to the queue. */
  ghost function Pushed(edges: seq<Edge>, id: string, depth: nat): seq<Item> {
    if edges == [] then []
    else
      var n := |edges| - 1;
      Pushed(edges[..n], id, depth) + (if edges[n].source == id then [Item(edges[n].target, depth)] else [])
  }

  lemma {:induction false} PushedFacts(edges: seq<Edge>, id: string, depth: nat)
    ensures forall p :: p in Pushed(edges, id, depth) ==> p.depth == depth && Step(edges, id, p.id)
    ensures forall i :: 0 <= i < |edges| && edges[i].source == id ==>
              Item(edges[i].target, depth) in Pushed(edges, id, depth)
  {
    if edges != [] {
      var n := |edges| - 1;
      PushedFacts(edges[..n], id, depth);
      forall p | p in Pushed(edges, id, depth)
        ensures p.depth == depth && Step(edges, id, p.id)
      {
        if p in Pushed(edges[..n], id, depth) {
          var i :| 0 <= i < n && edges[..n][i].source == id && edges[..n][i].target == p.id;
          assert edges[i].source == id && edges[i].target == p.id;
        } else {
          assert edges[n].source == id && edges[n].target == p.id;
        }
      }
      forall i | 0 <= i < |edges| && edges[i].source == id
        ensures Item(edges[i].target, depth) in Pushed(edges, id, depth)
      {
        if i < n {
          assert edges[..n][i] == edges[i];
        }
      }
    }
  }

  ghost function Appended(edges: seq<Edge>, maxDepth: int, head: Item): seq<Item> {
    if head.depth >= maxDepth then [] else Pushed(edges, head.id, head.depth + 1)
  }

  lemma AppendedFacts(edges: seq<Edge>, root: string, maxDepth: int, head: Item)
    requires head.id in Reach(edges, root, head.depth)
    ensures forall p :: p in Appended(edges, maxDepth, head) ==>
              p.depth == head.depth + 1 && Reachable(edges, root, maxDepth, p)
  {
    PushedFacts(edges, head.id, head.depth + 1);
  }

  lemma QueuedAppended(queue: seq<Item>, more: seq<Item>, p: Item)
    requires p in more
    ensures Queued(queue + more, p.id, p.depth)
  {
    var i :| 0 <= i < |more| && more[i] == p;
    assert (queue + more)[|queue| + i] == p;
  }

  lemma VisitFollows(edges: seq<Edge>, maxDepth: int, dist: map<string, nat>, queue: seq<Item>)
    requires queue != [] && queue[0].id !in dist && Followed(edges, maxDepth, dist, queue)
    ensures Followed(edges, maxDepth, dist[queue[0].id := queue[0].depth],
                     queue[1..] + Appended(edges, maxDepth, queue[0]))
  {
    var head := queue[0];
    var more := Appended(edges, maxDepth, head);
    var dist' := dist[head.id := head.depth];
    forall i | 0 <= i < |edges| && edges[i].source in dist' && dist'[edges[i].source] < maxDepth
      ensures edges[i].target in dist' || Queued(queue[1..] + more, edges[i].target, dist'[edges[i].source] + 1)
    {
      if edges[i].source == head.id {
        PushedFacts(edges, head.id, head.depth + 1);
        QueuedAppended(queue[1..], more, Item(edges[i].target, head.depth + 1));
      } else if edges[i].target !in dist {
        QueuedInTail(queue, more, edges[i].target, dist[edges[i].source] + 1);
      }
    }
  }

  /** Visiting the head of the queue and appending what it leads to. */
  lemma VisitKeeps(edges: seq<Edge>, root: string, maxDepth: int, dist: map<string, nat>, queue: seq<Item>)
    requires Searching(edges, root, maxDepth, dist, queue) && queue != [] && queue[0].id !in dist
    ensures Searching(edges, root, maxDepth, dist[queue[0].id := queue[0].depth],
                      queue[1..] + Appended(edges, maxDepth, queue[0]))
  {
    hide Followed, IsDistance, Appended;
    var head := queue[0];
    var more := Appended(edges, maxDepth, head);
    assert Reachable(edges, root, maxDepth, head);
    HeadAtItsDistance(edges, root, maxDepth, dist, queue);
    hide Reach;
    AppendedFacts(edges, root, maxDepth, head);
    TailFacts(queue, more);
    VisitFollows(edges, maxDepth, dist, queue);
    if root !in dist {
      QueuedInTail(queue, more, root, 0);
    }
  }

  lemma VisitedIsReached(edges: seq<Edge>, root: string, maxDepth: int, dist: map<string, nat>, queue: seq<Item>,
                         v: string, d: nat)
    requires Searching(edges, root, maxDepth, dist, queue) && v in dist && dist[v] <= d
    ensures v in Reach(edges, root, d) && dist[v] <= Depth(maxDepth)
  {
    hide Reach, Fifo, Followed;
    assert IsDistance(edges, root, v, dist[v]);
    ReachMonotone(edges, root, dist[v], d);
  }

  /** When the queue is empty, the visited ids are those within the depth. */
  lemma SearchComplete(edges: seq<Edge>, root: string, maxDepth: int, dist: map<string, nat>, v: string, d: nat)
    requires Searching(edges, root, maxDepth, dist, []) && d <= Depth(maxDepth)
    ensures v in dist && dist[v] <= d <==> v in Reach(edges, root, d)
  {
    hide Searching, Reach;
    if v in dist && dist[v] <= d {
      VisitedIsReached(edges, root, maxDepth, dist, [], v, d);
    }
    if v in Reach(edges, root, d) {
      NearerIsVisited(edges, root, maxDepth, dist, [], v, d);
      DistanceAtMost(edges, root, maxDepth, dist, [], v, d);
    }
  }

  lemma {:induction false} VisitedAtEnd(edges: seq<Edge>, root: string, maxDepth: int, dist: map<string, nat>)
    requires Searching(edges, root, maxDepth, dist, [])
    ensures forall v :: v in dist <==> v in Reach(edges, root, Depth(maxDepth))
    ensures forall v :: v in dist && dist[v] < maxDepth <==> v in Expanded(edges, root, maxDepth)
  {
    hide Searching, Reach;
    forall v
      ensures v in dist <==> v in Reach(edges, root, Depth(maxDepth))
    {
      SearchComplete(edges, root, maxDepth, dist, v, Depth(maxDepth));
      if v in dist {
        VisitedIsReached(edges, root, maxDepth, dist, [], v, dist[v]);
      }
    }
    forall v
      ensures v in dist && dist[v] < maxDepth <==> v in Expanded(edges, root, maxDepth)
    {
      if maxDepth > 0 {
        SearchComplete(edges, root, maxDepth, dist, v, maxDepth - 1);
      }
    }
  }

  // ---------- the collected nodes and edges ----------

  /** The nodes collected so far are the visited ids that are stored, in the order of their distance. */
  ghost predicate Collected(nodes: map<string, NodeRecord>, dist: map<string, nat>, out: seq<NodeOut>) {
    && NoNodeTwice(out)
    && StoredRecords(nodes, out)
    && (forall i :: 0 <= i < |out| ==> out[i].id in dist)
    && (forall v :: v in dist && v in nodes ==> Listed(out, v))
    && (forall i, j :: 0 <= i < j < |out| && out[i].id in dist && out[j].id in dist ==>
        dist[out[i].id] <= dist[out[j].id])
  }

  lemma CollectStored(nodes: map<string, NodeRecord>, dist: map<string, nat>, out: seq<NodeOut>, id: string, depth: nat)
    requires Collected(nodes, dist, out) && id !in dist && id in nodes
    requires forall v :: v in dist ==> dist[v] <= depth
    ensures Collected(nodes, dist[id := depth], out + [NodeOut(id, [nodes[id].nodeLabel], nodes[id].properties)])
  {
    var dist' := dist[id := depth];
    var out' := out + [NodeOut(id, [nodes[id].nodeLabel], nodes[id].properties)];
    forall v | v in dist' && v in nodes
      ensures Listed(out', v)
    {
      if v == id {
        assert out'[|out|].id == v;
      } else {
        var i :| 0 <= i < |out| && out[i].id == v;
        assert out'[i].id == v;
      }
    }
  }

  lemma CollectMissing(nodes: map<string, NodeRecord>, dist: map<string, nat>, out: seq<NodeOut>, id: string,
                       depth: nat)
    requires Collected(nodes, dist, out) && id !in dist && id !in nodes
    ensures Collected(nodes, dist[id := depth], out)
  {
  }

  lemma CollectedByDistance(nodes: map<string, NodeRecord>, edges: seq<Edge>, root: string, dist: map<string, nat>,
                            out: seq<NodeOut>)
    requires Collected(nodes, dist, out)
    requires forall v :: v in dist ==> IsDistance(edges, root, v, dist[v])
    ensures ByDistance(edges, root, out)
  {
    forall i, j, d: nat | 0 <= i < j < |out| && out[j].id in Reach(edges, root, d)
      ensures out[i].id in Reach(edges, root, d)
    {
      assert IsDistance(edges, root, out[i].id, dist[out[i].id]) && IsDistance(edges, root, out[j].id, dist[out[j].id]);
      assert dist[out[i].id] <= dist[out[j].id] <= d;
      ReachMonotone(edges, root, dist[out[i].id], d);
    }
  }

  lemma {:induction false} EdgesFromCount(edges: seq<Edge>, from: set<string>, e: Edge)
    ensures multiset(EdgesFrom(edges, from))[e] == if e.source in from then multiset(edges)[e] else 0
  {
    if edges != [] {
      var n := |edges| - 1;
      EdgesFromCount(edges[..n], from, e);
      assert edges == edges[..n] + [edges[n]];
    }
  }

  ghost predicate EdgesCollected(edges: seq<Edge>, maxDepth: int, dist: map<string, nat>, out: seq<Edge>) {
    forall e :: multiset(out)[e] == if e.source in dist && dist[e.source] < maxDepth then multiset(edges)[e] else 0
  }

  lemma EdgesCollectMore(edges: seq<Edge>, maxDepth: int, dist: map<string, nat>, out: seq<Edge>, id: string,
                         depth: nat)
    requires EdgesCollected(edges, maxDepth, dist, out) && id !in dist
    ensures EdgesCollected(edges, maxDepth, dist[id := depth],
                           if depth < maxDepth then out + EdgesFrom(edges, {id}) else out)
  {
    forall e
      ensures multiset(if depth < maxDepth then out + EdgesFrom(edges, {id}) else out)[e]
           == if e.source in dist[id := depth] && dist[id := depth][e.source] < maxDepth then multiset(edges)[e] else 0
    {
      EdgesFromCount(edges, {id}, e);
    }
  }

  lemma EdgesComplete(edges: seq<Edge>, maxDepth: int, dist: map<string, nat>, out: seq<Edge>, expanded: set<string>)
    requires EdgesCollected(edges, maxDepth, dist, out)
    requires forall v :: v in dist && dist[v] < maxDepth <==> v in expanded
    ensures multiset(out) == multiset(EdgesFrom(edges, expanded))
  {
    forall e
      ensures multiset(out)[e] == multiset(EdgesFrom(edges, expanded))[e]
    {
      EdgesFromCount(edges, expanded, e);
    }
  }

  lemma {:induction false} ResultIsSubgraph(nodes: map<string, NodeRecord>, edges: seq<Edge>, root: string,
                                            maxDepth: int, dist: map<string, nat>, sub: SubgraphResult)
    requires Searching(edges, root, maxDepth, dist, [])
    requires Collected(nodes, dist, sub.nodes) && EdgesCollected(edges, maxDepth, dist, sub.edges)
    ensures IsSubgraph(nodes, edges, root, maxDepth, sub)
  {
    VisitedAtEnd(edges, root, maxDepth, dist);
    hide Reach;
    EdgesComplete(edges, maxDepth, dist, sub.edges, Expanded(edges, root, maxDepth));
    CollectedByDistance(nodes, edges, root, dist, sub.nodes);
  }
}
