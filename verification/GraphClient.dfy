/**
 semantic_fusion/graph_client.py, the in-memory store: eleven operations that write to a dictionary
 of nodes and a list of edges, and the depth-bounded query. The clock is a parameter.
 */
module GraphClient {
  import opened Prelude
  import opened Subgraph

  // ---------- the store as a value ----------

  datatype Store = Store(nodes: map<string, NodeRecord>, edges: seq<Edge>)
  {
    /** `if id not in mock_nodes: mock_nodes[id] = ...` followed by an update of the properties */
    function Merge(id: string, nodeLabel: string, initial: Properties, props: Properties): (r: Store)
      ensures r.nodes.Keys == nodes.Keys + {id} && r.edges == edges
    {
      var before := if id in nodes then nodes[id] else NodeRecord(nodeLabel, initial);
      this.(nodes := nodes[id := NodeRecord(before.nodeLabel, before.properties + props)])
    }

    function Put(id: string, nodeLabel: string, props: Properties): (r: Store)
      ensures r.nodes.Keys == nodes.Keys + {id} && r.edges == edges
    {
      this.(nodes := nodes[id := NodeRecord(nodeLabel, props)])
    }

    function Link(source: string, target: string, kind: string, props: Properties): Store {
      this.(edges := edges + [Edge(source, target, kind, props)])
    }

    function LinkCves(comp: string, cves: seq<string>): Store {
      if cves == [] then this
      else
        var n := |cves| - 1;
        var id := VulnerabilityId(cves[n]);
        LinkCves(comp, cves[..n])
          .Merge(id, "Vulnerability", map["id" := Str(cves[n])], map[])
          .Link(comp, id, "HAS_VULNERABILITY", map[])
    }
  }

  const EMPTY_STORE := Store(map[], [])

  function IdentityId(name: string): string { "Identity:" + name }
  function ThreatActorId(name: string): string { "ThreatActor:" + name }
  function ComponentId(purl: string): string { "SoftwareComponent:" + purl }
  function VulnerabilityId(cve: string): string { "Vulnerability:" + cve }
  function DeviceId(ip: string): string { "Device:" + ip }
  function ModelId(purl: string): string { "AIModel:" + purl }
  function DatasetId(id: string): string { "Dataset:" + id }
  function ReportId(id: string): string { "BinaryAnalysisReport:" + id }

  function Get(props: Properties, key: string, default: Value): Value {
    if key in props then props[key] else default
  }

  /** `purl if purl else f"pkg:generic/{name}@{version}"`; the empty string stands for a missing purl. */
  function PurlOr(purl: string, name: string, version: string): string {
    if purl != "" then purl else "pkg:generic/" + name + "@" + version
  }

  function IdentityProps(name: string, score: Option<int>, tier: Option<string>): Properties {
    map["name" := Str(name), "stix_type" := Str("identity")]
      + (if score.Some? then map["security_score" := Int(score.value)] else map[])
      + (if tier.Some? then map["risk_tier" := Str(tier.value)] else map[])
  }

  function ComponentProps(name: string, version: string, purl: string, prov: Properties): Properties {
    map["name" := Str(name), "version" := Str(version), "purl" := Str(purl),
        "has_provenance" := Get(prov, "has_provenance", Flag(false)),
        "signature_verified" := Get(prov, "signature_verified", Flag(false)),
        "slsa_level" := Get(prov, "slsa_level", Null)]
  }

  function ModelProps(name: string, version: string, purl: string, arch: Properties, signed: bool): Properties {
    map["name" := Str(name), "version" := Str(version), "purl" := Str(purl),
        "arch_name" := Get(arch, "name", Str("unknown")),
        "parameters_count" := Get(arch, "parameters_count", Null),
        "layers_count" := Get(arch, "layers_count", Null),
        "framework" := Get(arch, "framework", Str("PyTorch")),
        "signature_verified" := Flag(signed)]
  }

  function StrOrNull(s: Option<string>): Value {
    if s.Some? then Str(s.value) else Null
  }

  function DatasetProps(name: string, sizeGb: Option<real>, license: Option<string>, sha256: Option<string>,
                        url: Option<string>): Properties
  {
    map["name" := Str(name), "stix_type" := Str("dataset"),
        "size_gb" := if sizeGb.Some? then Num(sizeGb.value) else Null,
        "license" := StrOrNull(license), "hash_sha256" := StrOrNull(sha256), "source_url" := StrOrNull(url)]
  }

  /** What the analysis of a binary found; `features` is the text of the feature dictionary. */
  datatype Finding = Finding(status: string, threatName: Option<string>, trustFactor: int, malwareProb: real,
                             malicious: bool, features: string)

  function ReportProps(hash: string, f: Finding, now: real): Properties {
    map["hash" := Str(hash), "status" := Str(f.status), "threat_name" := StrOrNull(f.threatName),
        "trust_factor" := Int(f.trustFactor), "malware_probability" := Num(f.malwareProb),
        "is_malicious" := Flag(f.malicious),
        "features_json" := Str(f.features), "timestamp" := Num(now)]
  }

  /** One call of a mutator. */
  datatype Operation =
    | CreateIdentity(name: string, score: Option<int>, tier: Option<string>)
    | AddThreatActor(name: string)
    | LinkThreat(actor: string, identity: string, confidence: real, now: real)
    | AddComponent(owner: string, name: string, version: string, purl: string, origin: string, prov: Properties,
                   now: real)
    | LinkVulnerabilities(purl: string, cves: seq<string>, exploitScore: real, severity: string)
    | AddDevice(ip: string, ports: seq<int>, cves: seq<string>, now: real)
    | LinkDevice(device: string, purl: string, cves: seq<string>, now: real)
    | AddModel(owner: string, name: string, version: string, arch: Properties, signed: bool, now: real)
    | AddDataset(modelPurl: string, name: string, sizeGb: Option<real>, license: Option<string>,
                 sha256: Option<string>, url: Option<string>, now: real)
    | LinkModelDependency(modelPurl: string, name: string, version: string, purl: string, now: real)
    | AddReport(purl: string, hash: string, finding: Finding, now: real)

  function WithIdentity(s: Store, name: string, score: Option<int>, tier: Option<string>): Store {
    s.Merge(IdentityId(name), "Identity", map["name" := Str(name)], IdentityProps(name, score, tier))
  }

  function WithActor(s: Store, name: string): Store {
    s.Put(ThreatActorId(name), "ThreatActor", map["name" := Str(name), "stix_type" := Str("threat-actor")])
  }

  function Apply(s: Store, op: Operation): Store {
    match op
    case CreateIdentity(name, score, tier) => WithIdentity(s, name, score, tier)
    case AddThreatActor(name) => WithActor(s, name)
    case LinkThreat(actor, identity, confidence, now) =>
      WithIdentity(WithActor(s, actor), identity, None, None)
        .Link(ThreatActorId(actor), IdentityId(identity), "TARGETS",
              map["confidence" := Num(confidence), "timestamp" := Num(now)])
    case AddComponent(owner, name, version, purl, origin, prov, now) =>
      var comp := PurlOr(purl, name, version);
      WithIdentity(s, owner, None, None)
        .Put(ComponentId(comp), "SoftwareComponent", ComponentProps(name, version, comp, prov))
        .Link(IdentityId(owner), ComponentId(comp), "DEVELOPED", map["source" := Str(origin), "timestamp" := Num(now)])
    case LinkVulnerabilities(purl, cves, exploitScore, severity) =>
      if cves == [] || ComponentId(purl) !in s.nodes then s
      else
        s.Merge(ComponentId(purl), "SoftwareComponent", map[],
                map["exploit_score" := Num(exploitScore), "predicted_severity" := Str(severity)])
         .LinkCves(ComponentId(purl), cves)
    case AddDevice(ip, ports, cves, now) =>
      s.Merge(DeviceId(ip), "Device", map["id" := Str(ip)],
              map["open_ports" := Ints(ports), "cves" := List(cves), "last_seen" := Num(now)])
    case LinkDevice(device, purl, cves, now) =>
      s.Merge(DeviceId(device), "Device", map["id" := Str(device)], map[])
       .Merge(ComponentId(purl), "SoftwareComponent", map["purl" := Str(purl)], map[])
       .Link(DeviceId(device), ComponentId(purl), "RUNS", map["cves" := List(cves), "timestamp" := Num(now)])
    case AddModel(owner, name, version, arch, signed, now) =>
      var model := "pkg:ml/" + name + "@" + version;
      WithIdentity(s, owner, None, None)
        .Put(ModelId(model), "AIModel", ModelProps(name, version, model, arch, signed))
        .Link(IdentityId(owner), ModelId(model), "DEVELOPED", map["source" := Str("MBOM"), "timestamp" := Num(now)])
    case AddDataset(modelPurl, name, sizeGb, license, sha256, url, now) =>
      var id := DatasetId("pkg:dataset/" + name);
      s.Put(id, "Dataset", DatasetProps(name, sizeGb, license, sha256, url))
       .Link(ModelId(modelPurl), id, "TRAINED_ON", map["timestamp" := Num(now)])
    case LinkModelDependency(modelPurl, name, version, purl, now) =>
      var dep := PurlOr(purl, name, version);
      s.Merge(ComponentId(dep), "SoftwareComponent",
              map["name" := Str(name), "version" := Str(version), "purl" := Str(dep)], map[])
       .Link(ModelId(modelPurl), ComponentId(dep), "DEPENDS_ON", map["timestamp" := Num(now)])
    case AddReport(purl, hash, finding, now) =>
      var id := ReportId("report:binary/" + hash);
      var s1 := s.Put(id, "BinaryAnalysisReport", ReportProps(hash, finding, now));
      if ComponentId(purl) in s1.nodes then s1.Link(ComponentId(purl), id, "HAS_ANALYSIS_REPORT", map[])
      else if ModelId(purl) in s1.nodes then s1.Link(ModelId(purl), id, "HAS_ANALYSIS_REPORT", map[])
      else s1
  }

  function Run(s: Store, ops: seq<Operation>): Store {
    if ops == [] then s else Apply(Run(s, ops[..|ops| - 1]), ops[|ops| - 1])
  }

  // ---------- the class ----------

  class Client {
    var mockNodes: map<string, NodeRecord>
    var mockEdges: seq<Edge>

    ghost function State(): Store
      reads this
    {
      Store(mockNodes, mockEdges)
    }

    constructor ()
      ensures State() == EMPTY_STORE
    {
      mockNodes, mockEdges := map[], [];
    }

    static method GivenProps(name: string, score: Option<int>, tier: Option<string>) returns (given: Properties)
      ensures given == IdentityProps(name, score, tier)
    {
      given := map["name" := Str(name), "stix_type" := Str("identity")];
      if score.Some? {
        given := given["security_score" := Int(score.value)];
      }
      if tier.Some? {
        given := given["risk_tier" := Str(tier.value)];
      }
    }

    method CreateIdentity(name: string, score: Option<int>, tier: Option<string>) returns (props: Properties)
      modifies this
      ensures State() == Apply(old(State()), Operation.CreateIdentity(name, score, tier))
      ensures props == mockNodes[IdentityId(name)].properties
    {
      hide IdentityProps;
      var given := GivenProps(name, score, tier);
      var id := IdentityId(name);
      if id !in mockNodes {
        mockNodes := mockNodes[id := NodeRecord("Identity", map["name" := Str(name)])];
      }
      mockNodes := mockNodes[id := mockNodes[id].(properties := mockNodes[id].properties + given)];
      props := mockNodes[id].properties;
    }

    method AddThreatActor(name: string) returns (props: Properties)
      modifies this
      ensures State() == Apply(old(State()), Operation.AddThreatActor(name))
      ensures props == mockNodes[ThreatActorId(name)].properties
    {
      props := map["name" := Str(name), "stix_type" := Str("threat-actor")];
      mockNodes := mockNodes[ThreatActorId(name) := NodeRecord("ThreatActor", props)];
    }

    method LinkThreatToIdentity(actor: string, identity: string, confidence: real, now: real)
      modifies this
      ensures State() == Apply(old(State()), LinkThreat(actor, identity, confidence, now))
    {
      var _ := AddThreatActor(actor);
      var _ := CreateIdentity(identity, None, None);
      mockEdges := mockEdges + [Edge(ThreatActorId(actor), IdentityId(identity), "TARGETS",
                                     map["confidence" := Num(confidence), "timestamp" := Num(now)])];
    }

    method AddComponent(owner: string, name: string, version: string, purl: string, origin: string, prov: Properties,
                        now: real)
      returns (props: Properties)
      modifies this
      ensures State() == Apply(old(State()), Operation.AddComponent(owner, name, version, purl, origin, prov, now))
      ensures props == ComponentProps(name, version, PurlOr(purl, name, version), prov)
    {
      var _ := CreateIdentity(owner, None, None);
      var comp := if purl != "" then purl else "pkg:generic/" + name + "@" + version;
      var id := ComponentId(comp);
      props := ComponentProps(name, version, comp, prov);
      mockNodes := mockNodes[id := NodeRecord("SoftwareComponent", props)];
      mockEdges := mockEdges + [Edge(IdentityId(owner), id, "DEVELOPED",
                                     map["source" := Str(origin), "timestamp" := Num(now)])];
    }

    method LinkVulnerabilitiesToComponent(purl: string, cves: seq<string>, exploitScore: real, severity: string)
      returns (done: bool)
      modifies this
      ensures State() == Apply(old(State()), LinkVulnerabilities(purl, cves, exploitScore, severity))
      ensures done
    {
      done := true;
      if cves == [] {
        return;
      }
      var comp := ComponentId(purl);
      if comp in mockNodes {
        var node := mockNodes[comp];
        mockNodes := mockNodes[comp := node.(properties := node.properties["exploit_score" := Num(exploitScore)])];
        node := mockNodes[comp];
        mockNodes := mockNodes[comp := node.(properties := node.properties["predicted_severity" := Str(severity)])];
        ScoresMerged(old(State()), comp, exploitScore, severity);
        hide Store.Merge, Store.LinkCves;
        LinkEach(comp, cves);
      }
    }

    /** The loop over the reported vulnerabilities. */
    method LinkEach(comp: string, cves: seq<string>)
      modifies this
      ensures State() == old(State()).LinkCves(comp, cves)
    {
      for i := 0 to |cves|
        invariant State() == old(State()).LinkCves(comp, cves[..i])
      {
        assert cves[..i + 1][..i] == cves[..i];
        ghost var before := State();
        var id := VulnerabilityId(cves[i]);
        if id !in mockNodes {
          mockNodes := mockNodes[id := NodeRecord("Vulnerability", map["id" := Str(cves[i])])];
        }
        mockEdges := mockEdges + [Edge(comp, id, "HAS_VULNERABILITY", map[])];
        EnsureNode(before, id, "Vulnerability", map["id" := Str(cves[i])]);
      }
      assert cves[..|cves|] == cves;
    }

    method AddDeviceAndVulnerabilities(ip: string, ports: seq<int>, cves: seq<string>, now: real) returns (done: bool)
      modifies this
      ensures State() == Apply(old(State()), AddDevice(ip, ports, cves, now))
      ensures done
    {
      var id := DeviceId(ip);
      if id !in mockNodes {
        mockNodes := mockNodes[id := NodeRecord("Device", map["id" := Str(ip)])];
      }
      var node := mockNodes[id];
      mockNodes := mockNodes[id := node.(properties := node.properties
                     + map["open_ports" := Ints(ports), "cves" := List(cves), "last_seen" := Num(now)])];
      done := true;
    }

    method LinkDeviceToComponent(device: string, purl: string, cves: seq<string>, now: real) returns (done: bool)
      modifies this
      ensures State() == Apply(old(State()), LinkDevice(device, purl, cves, now))
      ensures done
    {
      ghost var before := State();
      var dev := DeviceId(device);
      if dev !in mockNodes {
        mockNodes := mockNodes[dev := NodeRecord("Device", map["id" := Str(device)])];
      }
      EnsureNode(before, dev, "Device", map["id" := Str(device)]);
      ghost var middle := State();
      var comp := ComponentId(purl);
      if comp !in mockNodes {
        mockNodes := mockNodes[comp := NodeRecord("SoftwareComponent", map["purl" := Str(purl)])];
      }
      EnsureNode(middle, comp, "SoftwareComponent", map["purl" := Str(purl)]);
      mockEdges := mockEdges + [Edge(dev, comp, "RUNS", map["cves" := List(cves), "timestamp" := Num(now)])];
      done := true;
    }

    method AddAiModel(owner: string, name: string, version: string, arch: Properties, signed: bool, now: real)
      returns (props: Properties)
      modifies this
      ensures State() == Apply(old(State()), AddModel(owner, name, version, arch, signed, now))
      ensures props == ModelProps(name, version, "pkg:ml/" + name + "@" + version, arch, signed)
    {
      var _ := CreateIdentity(owner, None, None);
      var model := "pkg:ml/" + name + "@" + version;
      var id := ModelId(model);
      props := ModelProps(name, version, model, arch, signed);
      mockNodes := mockNodes[id := NodeRecord("AIModel", props)];
      mockEdges := mockEdges + [Edge(IdentityId(owner), id, "DEVELOPED",
                                     map["source" := Str("MBOM"), "timestamp" := Num(now)])];
    }

    method AddDataset(modelPurl: string, name: string, sizeGb: Option<real>, license: Option<string>,
                      sha256: Option<string>, url: Option<string>, now: real)
      returns (props: Properties)
      modifies this
      ensures State() == Apply(old(State()), Operation.AddDataset(modelPurl, name, sizeGb, license, sha256, url, now))
      ensures props == DatasetProps(name, sizeGb, license, sha256, url)
    {
      props := DatasetProps(name, sizeGb, license, sha256, url);
      hide DatasetProps;
      var id := DatasetId("pkg:dataset/" + name);
      mockNodes := mockNodes[id := NodeRecord("Dataset", props)];
      mockEdges := mockEdges + [Edge(ModelId(modelPurl), id, "TRAINED_ON", map["timestamp" := Num(now)])];
    }

    method LinkModelDependency(modelPurl: string, name: string, version: string, purl: string, now: real)
        returns (done: bool)
      modifies this
      ensures State() == Apply(old(State()), Operation.LinkModelDependency(modelPurl, name, version, purl, now))
      ensures done
    {
      ghost var before := State();
      var dep := if purl != "" then purl else "pkg:generic/" + name + "@" + version;
      var id := ComponentId(dep);
      if id !in mockNodes {
        mockNodes := mockNodes[id := NodeRecord("SoftwareComponent",
                                 map["name" := Str(name), "version" := Str(version), "purl" := Str(dep)])];
      }
      EnsureNode(before, id, "SoftwareComponent",
                 map["name" := Str(name), "version" := Str(version), "purl" := Str(dep)]);
      mockEdges := mockEdges + [Edge(ModelId(modelPurl), id, "DEPENDS_ON", map["timestamp" := Num(now)])];
      done := true;
    }

    method AddBinaryAnalysisReport(purl: string, hash: string, finding: Finding, now: real) returns (props: Properties)
      modifies this
      ensures State() == Apply(old(State()), AddReport(purl, hash, finding, now))
      ensures props == ReportProps(hash, finding, now)
    {
      props := ReportProps(hash, finding, now);
      hide ReportProps;
      var id := ReportId("report:binary/" + hash);
      mockNodes := mockNodes[id := NodeRecord("BinaryAnalysisReport", props)];
      if ComponentId(purl) in mockNodes {
        mockEdges := mockEdges + [Edge(ComponentId(purl), id, "HAS_ANALYSIS_REPORT", map[])];
      } else if ModelId(purl) in mockNodes {
        mockEdges := mockEdges + [Edge(ModelId(purl), id, "HAS_ANALYSIS_REPORT", map[])];
      }
    }

    /** The loop over the edges, for one id that leaves the queue. */
    method Expand(item: Item, edgesOut: seq<Edge>, queue: seq<Item>) returns (edgesOut': seq<Edge>, queue': seq<Item>)
      ensures edgesOut' == edgesOut + EdgesFrom(mockEdges, {item.id})
      ensures queue' == queue + Pushed(mockEdges, item.id, item.depth + 1)
    {
      edgesOut', queue' := edgesOut, queue;
      for i := 0 to |mockEdges|
        invariant edgesOut' == edgesOut + EdgesFrom(mockEdges[..i], {item.id})
        invariant queue' == queue + Pushed(mockEdges[..i], item.id, item.depth + 1)
      {
        assert mockEdges[..i + 1][..i] == mockEdges[..i];
        var edge := mockEdges[i];
        if edge.source == item.id {
          edgesOut' := edgesOut' + [edge];
          queue' := queue' + [Item(edge.target, item.depth + 1)];
        }
      }
      assert mockEdges[..|mockEdges|] == mockEdges;
    }

    method GetNthPartySubgraph(rootIdentity: string, maxDepth: int) returns (sub: SubgraphResult)
      ensures IsSubgraph(mockNodes, mockEdges, IdentityId(rootIdentity), maxDepth, sub)
    {
      hide Searching, Collected, EdgesCollected, IsSubgraph, Reach, Pushed, EdgesFrom;
      var root := IdentityId(rootIdentity);
      var nodesOut: seq<NodeOut>, edgesOut: seq<Edge> := [], [];
      var visited: set<string> := {};
      var queue := [Item(root, 0)];
      ghost var dist: map<string, nat> := map[];
      SearchStarts(mockNodes, mockEdges, root, maxDepth);
      while queue != []
        invariant visited == dist.Keys && visited <= Ids(mockEdges, root)
        invariant Searching(mockEdges, root, maxDepth, dist, queue)
        invariant Collected(mockNodes, dist, nodesOut)
        invariant EdgesCollected(mockEdges, maxDepth, dist, edgesOut)
        decreases Ids(mockEdges, root) - visited, |queue|
      {
        var item := queue[0];
        HeadIsKnown(mockEdges, root, maxDepth, dist, queue);
        if item.id in visited {
          SkipKeeps(mockEdges, root, maxDepth, dist, queue);
          queue := queue[1..];
          continue;
        }
        VisitKeeps(mockEdges, root, maxDepth, dist, queue);
        EdgesCollectMore(mockEdges, maxDepth, dist, edgesOut, item.id, item.depth);
        queue := queue[1..];
        visited := visited + {item.id};
        if item.id in mockNodes {
          CollectStored(mockNodes, dist, nodesOut, item.id, item.depth);
          var node := mockNodes[item.id];
          nodesOut := nodesOut + [NodeOut(item.id, [node.nodeLabel], node.properties)];
        } else {
          CollectMissing(mockNodes, dist, nodesOut, item.id, item.depth);
        }
        dist := dist[item.id := item.depth];
        if item.depth >= maxDepth {
          assert Appended(mockEdges, maxDepth, item) == [] && queue + [] == queue;
          continue;
        }
        edgesOut, queue := Expand(item, edgesOut, queue);
      }
      sub := SubgraphResult(nodesOut, edgesOut);
      ResultIsSubgraph(mockNodes, mockEdges, root, maxDepth, dist, sub);
    }
  }

  /** Two updates of a stored node, one after the other, are one merge. */
  lemma ScoresMerged(s: Store, comp: string, exploitScore: real, severity: string)
    requires comp in s.nodes
    ensures var first := s.nodes[comp].(properties := s.nodes[comp].properties["exploit_score" := Num(exploitScore)]);
            var second := first.(properties := first.properties["predicted_severity" := Str(severity)]);
            s.Merge(comp, "SoftwareComponent", map[],
                    map["exploit_score" := Num(exploitScore), "predicted_severity" := Str(severity)])
              == s.(nodes := s.nodes[comp := first][comp := second])
  {
    var before := s.nodes[comp].properties;
    assert before["exploit_score" := Num(exploitScore)]["predicted_severity" := Str(severity)]
        == before + map["exploit_score" := Num(exploitScore), "predicted_severity" := Str(severity)];
  }

  /** Creating a node when it is missing is a merge of nothing. */
  lemma EnsureNode(s: Store, id: string, nodeLabel: string, initial: Properties)
    ensures s.Merge(id, nodeLabel, initial, map[])
         == if id in s.nodes then s else s.(nodes := s.nodes[id := NodeRecord(nodeLabel, initial)])
  {
    assert initial + map[] == initial;
    if id in s.nodes {
      assert s.nodes[id].properties + map[] == s.nodes[id].properties;
      assert s.nodes[id := s.nodes[id]] == s.nodes;
    }
  }

  /** All ids a search can meet. */
  ghost function Ids(edges: seq<Edge>, root: string): set<string> {
    {root} + set i | 0 <= i < |edges| :: edges[i].target
  }

  lemma SearchStarts(nodes: map<string, NodeRecord>, edges: seq<Edge>, root: string, maxDepth: int)
    ensures Searching(edges, root, maxDepth, map[], [Item(root, 0)])
    ensures Collected(nodes, map[], []) && EdgesCollected(edges, maxDepth, map[], [])
  {
    assert Queued([Item(root, 0)], root, 0) by {
      assert [Item(root, 0)][0].id == root;
    }
  }

  lemma {:induction false} ReachInIds(edges: seq<Edge>, root: string, d: nat)
    ensures Reach(edges, root, d) <= Ids(edges, root)
  {
    if d > 0 {
      ReachInIds(edges, root, d - 1);
    }
  }

  lemma HeadIsKnown(edges: seq<Edge>, root: string, maxDepth: int, dist: map<string, nat>, queue: seq<Item>)
    requires Searching(edges, root, maxDepth, dist, queue) && queue != []
    ensures queue[0].id in Ids(edges, root)
    ensures forall v :: v in dist ==> dist[v] <= queue[0].depth
  {
    assert Reachable(edges, root, maxDepth, queue[0]);
    ReachInIds(edges, root, queue[0].depth);
  }

  // ---------- referential integrity over all runs ----------

  ghost predicate IsModelId(id: string) {
    "AIModel:" <= id
  }

  /** The target of every edge is stored, and so is its source unless it is an AI model. */
  ghost predicate Sound(s: Store) {
    forall e :: e in s.edges ==> e.target in s.nodes && (e.source in s.nodes || IsModelId(e.source))
  }

  /** Both ends of every edge are stored. */
  ghost predicate FullySound(s: Store) {
    forall e :: e in s.edges ==> e.target in s.nodes && e.source in s.nodes
  }

  /** The model that an operation hangs an edge on without creating it. */
  function AssumedModel(op: Operation): Option<string> {
    match op
    case AddDataset(modelPurl, _, _, _, _, _, _) => Some(ModelId(modelPurl))
    case LinkModelDependency(modelPurl, _, _, _, _) => Some(ModelId(modelPurl))
    case _ => None
  }

  lemma ModelIdsDiffer(x: string, y: string)
    ensures IsModelId(ModelId(x))
    ensures !IsModelId(IdentityId(y)) && ModelId(x) != ComponentId(y) && ModelId(x) != DatasetId(y)
  {
    assert ModelId(x)[0] == 'A' && ComponentId(y)[0] == 'S' && DatasetId(y)[0] == 'D' && IdentityId(y)[0] == 'I';
    assert ModelId(x)[..8] == "AIModel:";
  }

  lemma OtherIdsDiffer(x: string)
    ensures !IsModelId(IdentityId(x)) && !IsModelId(ThreatActorId(x)) && !IsModelId(ComponentId(x))
              && !IsModelId(VulnerabilityId(x))
    ensures !IsModelId(DeviceId(x)) && !IsModelId(DatasetId(x)) && !IsModelId(ReportId(x))
  {
    assert IdentityId(x)[0] == 'I' && ThreatActorId(x)[0] == 'T' && ComponentId(x)[0] == 'S'
             && VulnerabilityId(x)[0] == 'V';
    assert DeviceId(x)[0] == 'D' && DatasetId(x)[0] == 'D' && ReportId(x)[0] == 'B';
  }

  ghost predicate Assumed(ops: seq<Operation>, id: string) {
    exists i :: 0 <= i < |ops| && AssumedModel(ops[i]) == Some(id)
  }

  /** An edge of the store after an operation is an old one, or its target is stored, and its source
      too unless it is the model the operation assumes. */
  ghost predicate EdgeAccounted(s: Store, op: Operation, e: Edge) {
    || e in s.edges
    || (e.target in Apply(s, op).nodes && (e.source in Apply(s, op).nodes || AssumedModel(op) == Some(e.source)))
  }

  lemma {:induction false} LinkCvesEdges(s: Store, comp: string, cves: seq<string>)
    ensures s.nodes.Keys <= s.LinkCves(comp, cves).nodes.Keys
    ensures s.edges <= s.LinkCves(comp, cves).edges
    ensures forall e :: e in s.LinkCves(comp, cves).edges ==>
              e in s.edges || (e.source == comp && e.target in s.LinkCves(comp, cves).nodes)
    ensures forall id :: id in s.LinkCves(comp, cves).nodes && IsModelId(id) ==> id in s.nodes
    decreases |cves|
  {
    hide Store.Merge;
    if cves != [] {
      LinkCvesEdges(s, comp, cves[..|cves| - 1]);
      OtherIdsDiffer(cves[|cves| - 1]);
      hide IsModelId;
    }
  }

  /** What linking vulnerabilities to a stored component does to nodes and edges. */
  lemma LinkingKeeps(s: Store, purl: string, cves: seq<string>, exploitScore: real, severity: string)
    ensures var op := LinkVulnerabilities(purl, cves, exploitScore, severity);
            && s.nodes.Keys <= Apply(s, op).nodes.Keys
            && s.edges <= Apply(s, op).edges
            && (forall e :: e in Apply(s, op).edges ==> EdgeAccounted(s, op, e))
            && (forall id :: id in Apply(s, op).nodes && IsModelId(id) ==> id in s.nodes)
  {
    hide Store.Merge, IsModelId;
    if cves != [] && ComponentId(purl) in s.nodes {
      LinkCvesEdges(s.Merge(ComponentId(purl), "SoftwareComponent", map[],
                            map["exploit_score" := Num(exploitScore), "predicted_severity" := Str(severity)]),
                    ComponentId(purl), cves);
    }
  }

  /** No operation removes a node or an edge, and every new edge is accounted for. */
  lemma EdgesOfOperation(s: Store, op: Operation)
    ensures s.nodes.Keys <= Apply(s, op).nodes.Keys
    ensures s.edges <= Apply(s, op).edges
    ensures forall e :: e in Apply(s, op).edges ==> EdgeAccounted(s, op, e)
  {
    hide Store.Merge, Store.Put, Store.LinkCves, ComponentProps, ModelProps, IdentityProps, DatasetProps, ReportProps,
      Get, PurlOr;
    match op
    case LinkVulnerabilities(purl, cves, exploitScore, severity) => LinkingKeeps(s, purl, cves, exploitScore, severity);
    case _ =>
  }

  /** No operation removes a node. */
  lemma NodesStay(s: Store, op: Operation)
    ensures s.nodes.Keys <= Apply(s, op).nodes.Keys
  {
    hide Apply;
    EdgesOfOperation(s, op);
  }

  /** Every operation keeps the integrity of the store. */
  lemma {:induction false} ApplyKeepsSound(s: Store, op: Operation)
    requires Sound(s)
    ensures Sound(Apply(s, op))
  {
    hide Apply;
    EdgesOfOperation(s, op);
    AssumedIsModel(op);
    forall e | e in Apply(s, op).edges
      ensures e.target in Apply(s, op).nodes && (e.source in Apply(s, op).nodes || IsModelId(e.source))
    {
      assert EdgeAccounted(s, op, e);
    }
  }

  lemma AssumedIsModel(op: Operation)
    ensures AssumedModel(op).Some? ==> IsModelId(AssumedModel(op).value)
  {
    match op
    case AddDataset(modelPurl, _, _, _, _, _, _) => ModelIdsDiffer(modelPurl, "");
    case LinkModelDependency(modelPurl, _, _, _, _) => ModelIdsDiffer(modelPurl, "");
    case _ =>
  }

  /** After any sequence of operations on the empty store. */
  lemma {:induction false} RunIsSound(ops: seq<Operation>)
    ensures Sound(Run(EMPTY_STORE, ops))
  {
    if ops != [] {
      RunIsSound(ops[..|ops| - 1]);
      ApplyKeepsSound(Run(EMPTY_STORE, ops[..|ops| - 1]), ops[|ops| - 1]);
    }
  }

  // ---------- when both ends of every edge are stored ----------

  /** The AI model that an operation stores. */
  function AddedModel(op: Operation): Option<string> {
    match op
    case AddModel(_, name, version, _, _, _) => Some(ModelId("pkg:ml/" + name + "@" + version))
    case _ => None
  }

  ghost predicate ModelAdded(ops: seq<Operation>, id: string) {
    exists i :: 0 <= i < |ops| && AddedModel(ops[i]) == Some(id)
  }

  /** AI models come from `AddModel` only. */
  lemma ModelsOfOperation(s: Store, op: Operation, id: string)
    requires IsModelId(id)
    ensures id in Apply(s, op).nodes <==> id in s.nodes || AddedModel(op) == Some(id)
  {
    hide Store.Merge, Store.Put, Store.LinkCves, ComponentProps, ModelProps, IdentityProps, DatasetProps, ReportProps,
      Get, PurlOr;
    hide IsModelId, IdentityId, ThreatActorId, ComponentId, VulnerabilityId, DeviceId, DatasetId, ReportId;
    match op
    case CreateIdentity(name, _, _) => OtherIdsDiffer(name);
    case AddThreatActor(name) => OtherIdsDiffer(name);
    case LinkThreat(actor, identity, _, _) =>
      OtherIdsDiffer(actor);
      OtherIdsDiffer(identity);
    case AddComponent(owner, name, version, purl, _, _, _) =>
      OtherIdsDiffer(owner);
      OtherIdsDiffer(PurlOr(purl, name, version));
    case LinkVulnerabilities(purl, cves, exploitScore, severity) => LinkingKeeps(s, purl, cves, exploitScore, severity);
    case AddDevice(ip, _, _, _) => OtherIdsDiffer(ip);
    case LinkDevice(device, purl, _, _) =>
      OtherIdsDiffer(device);
      OtherIdsDiffer(purl);
    case AddModel(owner, _, _, _, _, _) => OtherIdsDiffer(owner);
    case AddDataset(_, name, _, _, _, _, _) => OtherIdsDiffer("pkg:dataset/" + name);
    case LinkModelDependency(_, name, version, purl, _) => OtherIdsDiffer(PurlOr(purl, name, version));
    case AddReport(_, hash, _, _) => OtherIdsDiffer("report:binary/" + hash);
  }

  lemma {:induction false} ModelsOfRun(ops: seq<Operation>, id: string)
    requires IsModelId(id)
    ensures id in Run(EMPTY_STORE, ops).nodes <==> ModelAdded(ops, id)
  {
    hide Apply, AddedModel, IsModelId;
    if ops != [] {
      var n := |ops| - 1;
      ModelsOfRun(ops[..n], id);
      ModelsOfOperation(Run(EMPTY_STORE, ops[..n]), ops[n], id);
      if ModelAdded(ops[..n], id) {
        var i :| 0 <= i < n && AddedModel(ops[..n][i]) == Some(id);
        assert ops[i] == ops[..n][i];
      }
      if i :| 0 <= i < n && AddedModel(ops[i]) == Some(id) {
        assert ops[..n][i] == ops[i];
      }
    }
  }

  ghost predicate HasEdgeFrom(s: Store, id: string) {
    exists i :: 0 <= i < |s.edges| && s.edges[i].source == id
  }

  lemma AssumedHasEdge(s: Store, op: Operation)
    requires AssumedModel(op).Some?
    ensures HasEdgeFrom(Apply(s, op), AssumedModel(op).value) && AddedModel(op) == None
  {
    hide Store.Merge, Store.Put;
    assert Apply(s, op).edges[|s.edges|].source == AssumedModel(op).value;
  }

  /** An operation keeps both ends of every edge stored if and only if the model it hangs an edge on
      is stored at that time. */
  lemma FullIntegrityIff(s: Store, op: Operation)
    requires FullySound(s)
    ensures FullySound(Apply(s, op)) <==> (AssumedModel(op).Some? ==> AssumedModel(op).value in s.nodes)
  {
    hide Apply, AssumedModel, AddedModel, IsModelId;
    EdgesOfOperation(s, op);
    forall e | e in Apply(s, op).edges
      ensures e.target in Apply(s, op).nodes && (e.source in Apply(s, op).nodes || AssumedModel(op) == Some(e.source))
    {
      assert EdgeAccounted(s, op, e);
    }
    if AssumedModel(op).Some? {
      var id := AssumedModel(op).value;
      AssumedIsModel(op);
      AssumedHasEdge(s, op);
      ModelsOfOperation(s, op, id);
      var i :| 0 <= i < |Apply(s, op).edges| && Apply(s, op).edges[i].source == id;
      assert Apply(s, op).edges[i] in Apply(s, op).edges;
    }
  }

  lemma {:induction false} RunEdges(ops: seq<Operation>)
    ensures forall e :: e in Run(EMPTY_STORE, ops).edges ==>
              e.target in Run(EMPTY_STORE, ops).nodes
              && (e.source in Run(EMPTY_STORE, ops).nodes || Assumed(ops, e.source))
    ensures forall id :: Assumed(ops, id) ==> HasEdgeFrom(Run(EMPTY_STORE, ops), id)
  {
    hide Apply, AssumedModel;
    if ops != [] {
      var n := |ops| - 1;
      var s, op := Run(EMPTY_STORE, ops[..n]), ops[n];
      RunEdges(ops[..n]);
      EdgesOfOperation(s, op);
      forall e | e in Apply(s, op).edges
        ensures e.target in Apply(s, op).nodes && (e.source in Apply(s, op).nodes || Assumed(ops, e.source))
      {
        assert EdgeAccounted(s, op, e);
        AssumedLater(ops, e.source);
      }
      forall id | Assumed(ops, id)
        ensures HasEdgeFrom(Apply(s, op), id)
      {
        AssumedLater(ops, id);
        if Assumed(ops[..n], id) {
          var i :| 0 <= i < |s.edges| && s.edges[i].source == id;
          assert Apply(s, op).edges[i] == s.edges[i];
        } else {
          AssumedHasEdge(s, op);
        }
      }
    }
  }

  lemma AssumedLater(ops: seq<Operation>, id: string)
    requires ops != []
    ensures Assumed(ops, id) <==> Assumed(ops[..|ops| - 1], id) || AssumedModel(ops[|ops| - 1]) == Some(id)
  {
    hide AssumedModel;
    var n := |ops| - 1;
    if Assumed(ops[..n], id) {
      var i :| 0 <= i < n && AssumedModel(ops[..n][i]) == Some(id);
      assert ops[i] == ops[..n][i];
    }
    if i :| 0 <= i < n && AssumedModel(ops[i]) == Some(id) {
      assert ops[..n][i] == ops[i];
    }
  }

  /** After any run both ends of every edge are stored if and only if every model that a data set or a
      dependency was hung on has been added, sooner or later, by a call of its own. */
  lemma {:induction false} FullIntegrityOfRunIff(ops: seq<Operation>)
    ensures FullySound(Run(EMPTY_STORE, ops)) <==> forall id :: Assumed(ops, id) ==> ModelAdded(ops, id)
  {
    hide Run, AssumedModel, ModelAdded;
    RunEdges(ops);
    var s := Run(EMPTY_STORE, ops);
    forall id | Assumed(ops, id)
      ensures id in s.nodes <==> ModelAdded(ops, id)
      ensures HasEdgeFrom(s, id)
    {
      var i :| 0 <= i < |ops| && AssumedModel(ops[i]) == Some(id);
      AssumedIsModel(ops[i]);
      ModelsOfRun(ops, id);
    }
    if FullySound(s) {
      forall id | Assumed(ops, id)
        ensures id in s.nodes
      {
        var i :| 0 <= i < |s.edges| && s.edges[i].source == id;
        assert s.edges[i] in s.edges;
      }
    }
  }

  /** The failing case: a data set for a model that nobody stored. */
  lemma DanglingModel(modelPurl: string, name: string, now: real)
    ensures !FullySound(Run(EMPTY_STORE, [AddDataset(modelPurl, name, None, None, None, None, now)]))
  {
    var op := AddDataset(modelPurl, name, None, None, None, None, now);
    assert [op][..0] == [];
    FullIntegrityIff(EMPTY_STORE, op);
    assert Run(EMPTY_STORE, [op]) == Apply(EMPTY_STORE, op);
  }

  // ---------- closed answers ----------

  ghost predicate Closed(sub: SubgraphResult) {
    forall e :: e in sub.edges ==> Listed(sub.nodes, e.source) && Listed(sub.nodes, e.target)
  }

  lemma {:induction false} ReachedIsStored(s: Store, root: string, v: string, d: nat)
    requires Sound(s) && v in Reach(s.edges, root, d)
    ensures v == root || v in s.nodes
    decreases d
  {
    if d > 0 && v !in Reach(s.edges, root, d - 1) {
      var i :| 0 <= i < |s.edges| && s.edges[i].source in Reach(s.edges, root, d - 1) && s.edges[i].target == v;
      assert s.edges[i] in s.edges;
    } else if d > 0 {
      ReachedIsStored(s, root, v, d - 1);
    }
  }

  lemma EdgeFromReached(edges: seq<Edge>, root: string, e: Edge, d: nat)
    requires e in edges && e.source in Reach(edges, root, d)
    ensures e.target in Reach(edges, root, d + 1)
  {
    var i :| 0 <= i < |edges| && edges[i] == e;
    assert edges[i].target in Targets(edges, Reach(edges, root, d));
  }

  /** Every answer from a sound store is closed: both ends of a returned edge are returned nodes. */
  lemma AnswersAreClosed(s: Store, name: string, maxDepth: int, sub: SubgraphResult)
    requires Sound(s) && IsSubgraph(s.nodes, s.edges, IdentityId(name), maxDepth, sub)
    ensures Closed(sub)
  {
    hide Reach;
    var root := IdentityId(name);
    forall e | e in sub.edges
      ensures Listed(sub.nodes, e.source) && Listed(sub.nodes, e.target)
    {
      var expanded := Expanded(s.edges, root, maxDepth);
      EdgesFromCount(s.edges, expanded, e);
      assert e in multiset(sub.edges);
      assert e in multiset(s.edges) && e in s.edges;
      EdgeFromReached(s.edges, root, e, maxDepth - 1);
      ReachMonotone(s.edges, root, maxDepth - 1, maxDepth);
      ReachedIsStored(s, root, e.source, maxDepth - 1);
      ModelIdsDiffer("", name);
    }
  }

  /** From the empty store, after any operations, every answer to a query is closed. */
  lemma {:induction false} ReachableAnswersAreClosed(ops: seq<Operation>, name: string, maxDepth: int,
                                                     sub: SubgraphResult)
    requires IsSubgraph(Run(EMPTY_STORE, ops).nodes, Run(EMPTY_STORE, ops).edges, IdentityId(name), maxDepth, sub)
    ensures Closed(sub)
  {
    RunIsSound(ops);
    AnswersAreClosed(Run(EMPTY_STORE, ops), name, maxDepth, sub);
  }
}
