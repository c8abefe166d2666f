/**
 semantic_fusion/graph_client.py, what each call leaves in the store, in literal identifiers and kinds: which
 nodes it writes, which way its edges run, and what a query from an identity therefore answers.
 */
module GraphLaws {
  import opened Prelude
  import opened Subgraph
  import opened GraphClient

  // ---------- identifiers ----------

  lemma ReportIdIs(hash: string)
    ensures ReportId("report:binary/" + hash) == "BinaryAnalysisReport:report:binary/" + hash
  {
    assert "BinaryAnalysisReport:" + ("report:binary/" + hash) == "BinaryAnalysisReport:report:binary/" + hash;
  }

  lemma ModelIdIs(name: string, version: string)
    ensures ModelId("pkg:ml/" + name + "@" + version) == "AIModel:pkg:ml/" + name + "@" + version
  {
    assert "AIModel:" + ("pkg:ml/" + name + "@" + version) == "AIModel:pkg:ml/" + name + "@" + version;
  }

  lemma DatasetIdIs(name: string)
    ensures DatasetId("pkg:dataset/" + name) == "Dataset:pkg:dataset/" + name
  {
    assert "Dataset:" + ("pkg:dataset/" + name) == "Dataset:pkg:dataset/" + name;
  }

  // ---------- the edges of one call ----------

  /** The edges `edges'` are `edges` and those of the call: none for the calls that only write a node, and none
      from a component or model that is not among the nodes when the call asks for it. */
  ghost predicate EdgesAdded(nodes: map<string, NodeRecord>, edges: seq<Edge>, edges': seq<Edge>, op: Operation) {
    match op
    case CreateIdentity(_, _, _) => edges' == edges
    case AddThreatActor(_) => edges' == edges
    case AddDevice(_, _, _, _) => edges' == edges
    case LinkThreat(actor, identity, confidence, now) =>
      edges' == edges + [Edge("ThreatActor:" + actor, "Identity:" + identity, "TARGETS",
                               map["confidence" := Num(confidence), "timestamp" := Num(now)])]
    case AddComponent(owner, name, version, purl, origin, _, now) =>
      var comp := if purl != "" then purl else "pkg:generic/" + name + "@" + version;
      edges' == edges + [Edge("Identity:" + owner, "SoftwareComponent:" + comp, "DEVELOPED",
                               map["source" := Str(origin), "timestamp" := Num(now)])]
    case LinkVulnerabilities(purl, cves, _, _) =>
      if "SoftwareComponent:" + purl in nodes then
        edges' == edges + seq(|cves|, i requires 0 <= i < |cves| =>
          Edge("SoftwareComponent:" + purl, "Vulnerability:" + cves[i], "HAS_VULNERABILITY", map[]))
      else edges' == edges
    case LinkDevice(device, purl, cves, now) =>
      edges' == edges + [Edge("Device:" + device, "SoftwareComponent:" + purl, "RUNS",
                               map["cves" := List(cves), "timestamp" := Num(now)])]
    case AddModel(owner, name, version, _, _, now) =>
      edges' == edges + [Edge("Identity:" + owner, "AIModel:pkg:ml/" + name + "@" + version, "DEVELOPED",
                               map["source" := Str("MBOM"), "timestamp" := Num(now)])]
    case AddDataset(modelPurl, name, _, _, _, _, now) =>
      edges' == edges + [Edge("AIModel:" + modelPurl, "Dataset:pkg:dataset/" + name, "TRAINED_ON",
                               map["timestamp" := Num(now)])]
    case LinkModelDependency(modelPurl, name, version, purl, now) =>
      var dep := if purl != "" then purl else "pkg:generic/" + name + "@" + version;
      edges' == edges + [Edge("AIModel:" + modelPurl, "SoftwareComponent:" + dep, "DEPENDS_ON",
                               map["timestamp" := Num(now)])]
    case AddReport(purl, hash, _, _) =>
      var report := "BinaryAnalysisReport:report:binary/" + hash;
      if "SoftwareComponent:" + purl in nodes then
        edges' == edges + [Edge("SoftwareComponent:" + purl, report, "HAS_ANALYSIS_REPORT", map[])]
      else if "AIModel:" + purl in nodes then
        edges' == edges + [Edge("AIModel:" + purl, report, "HAS_ANALYSIS_REPORT", map[])]
      else edges' == edges
  }

  /** Every call appends its edges, and nothing else, to those stored. */
  lemma EdgesOfCall(s: Store, op: Operation)
    ensures EdgesAdded(s.nodes, s.edges, Apply(s, op).edges, op)
  {
    match op
    case LinkVulnerabilities(_, _, _, _) => EdgesOfVulnerabilities(s, op);
    case AddReport(_, _, _, _) => EdgesOfReport(s, op);
    case AddDataset(_, _, _, _, _, _, _) => EdgesOfDataset(s, op);
    case AddModel(_, _, _, _, _, _) | AddComponent(_, _, _, _, _, _, _) => EdgesOfOwner(s, op);
    case _ => EdgesOfOther(s, op);
  }

  lemma EdgesOfOther(s: Store, op: Operation)
    requires op.CreateIdentity? || op.AddThreatActor? || op.LinkThreat? || op.AddDevice? || op.LinkDevice?
               || op.LinkModelDependency?
    ensures EdgesAdded(s.nodes, s.edges, Apply(s, op).edges, op)
  {
    hide Store.Merge, Store.Put, IdentityProps;
  }

  lemma EdgesOfOwner(s: Store, op: Operation)
    requires op.AddModel? || op.AddComponent?
    ensures EdgesAdded(s.nodes, s.edges, Apply(s, op).edges, op)
  {
    hide Store.Merge, Store.Put, ComponentProps, ModelProps, IdentityProps, ModelId;
    if op.AddModel? {
      ModelIdIs(op.name, op.version);
    }
  }

  lemma EdgesOfDataset(s: Store, op: Operation)
    requires op.AddDataset?
    ensures EdgesAdded(s.nodes, s.edges, Apply(s, op).edges, op)
  {
    hide Store.Put, DatasetProps, DatasetId;
    DatasetIdIs(op.name);
  }

  lemma EdgesOfReport(s: Store, op: Operation)
    requires op.AddReport?
    ensures EdgesAdded(s.nodes, s.edges, Apply(s, op).edges, op)
  {
    hide ReportProps, ReportId;
    ReportIdIs(op.hash);
    ReportIsNoOther(op.purl, op.hash);
  }

  lemma EdgesOfVulnerabilities(s: Store, op: Operation)
    requires op.LinkVulnerabilities?
    ensures EdgesAdded(s.nodes, s.edges, Apply(s, op).edges, op)
  {
    hide Store.Merge, Store.LinkCves;
    if op.cves == [] {
      assert s.edges + seq(|op.cves|, i requires 0 <= i < |op.cves| =>
          Edge("SoftwareComponent:" + op.purl, "Vulnerability:" + op.cves[i], "HAS_VULNERABILITY", map[])) == s.edges;
    } else if ComponentId(op.purl) in s.nodes {
      CveEdges(s.Merge(ComponentId(op.purl), "SoftwareComponent", map[],
                       map["exploit_score" := Num(op.exploitScore), "predicted_severity" := Str(op.severity)]),
               ComponentId(op.purl), op.cves);
    }
  }

  lemma ReportIsNoOther(purl: string, hash: string)
    ensures ComponentId(purl) != ReportId("report:binary/" + hash) && ModelId(purl) != ReportId("report:binary/" + hash)
  {
    assert ComponentId(purl)[0] == 'S' && ModelId(purl)[0] == 'A' && ReportId("report:binary/" + hash)[0] == 'B';
  }

  lemma {:induction false} CveEdges(s: Store, comp: string, cves: seq<string>)
    ensures s.LinkCves(comp, cves).edges
         == s.edges + seq(|cves|, i requires 0 <= i < |cves| =>
                Edge(comp, "Vulnerability:" + cves[i], "HAS_VULNERABILITY", map[]))
  {
    hide Store.Merge;
    if cves != [] {
      CveEdges(s, comp, cves[..|cves| - 1]);
    }
  }

  // ---------- the nodes of one call ----------

  /** The call writes one node and leaves all others alone: the node is replaced. */
  ghost predicate Replaces(s: Store, s': Store, id: string, nodeLabel: string, props: Properties) {
    s'.nodes == s.nodes[id := NodeRecord(nodeLabel, props)]
  }

  /** A node that is stored keeps its label and gets the properties given over those it has; a missing one is
      created with `initial` and gets them over that. */
  ghost predicate Updates(nodes: map<string, NodeRecord>, nodes': map<string, NodeRecord>, id: string,
                          nodeLabel: string, initial: Properties, given: Properties)
  {
    nodes' == nodes[id := if id in nodes then NodeRecord(nodes[id].nodeLabel, nodes[id].properties + given)
                          else NodeRecord(nodeLabel, initial + given)]
  }

  /** The identity that a call mentions is stored, and carries its name and type. */
  ghost predicate Identifies(nodes: map<string, NodeRecord>, nodes': map<string, NodeRecord>, name: string) {
    Updates(nodes, nodes', "Identity:" + name, "Identity", map["name" := Str(name)],
            map["name" := Str(name), "stix_type" := Str("identity")])
  }

  lemma IdentityOfCall(s: Store, name: string, score: Option<int>, tier: Option<string>)
    ensures Updates(s.nodes, Apply(s, CreateIdentity(name, score, tier)).nodes, "Identity:" + name, "Identity",
                    map["name" := Str(name)],
                    map["name" := Str(name), "stix_type" := Str("identity")]
                      + (if score.Some? then map["security_score" := Int(score.value)] else map[])
                      + (if tier.Some? then map["risk_tier" := Str(tier.value)] else map[]))
  {
  }

  lemma ActorOfCall(s: Store, actor: string, identity: string, confidence: real, now: real)
    ensures Replaces(s, Apply(s, AddThreatActor(actor)), "ThreatActor:" + actor, "ThreatActor",
                     map["name" := Str(actor), "stix_type" := Str("threat-actor")])
    ensures Identifies(Apply(s, AddThreatActor(actor)).nodes,
                       Apply(s, LinkThreat(actor, identity, confidence, now)).nodes, identity)
  {
    NothingGiven(identity);
    hide IdentityProps;
  }

  lemma NothingGiven(name: string)
    ensures IdentityProps(name, None, None) == map["name" := Str(name), "stix_type" := Str("identity")]
  {
  }

  lemma OwnerOfCall(s: Store, owner: string)
    ensures Identifies(s.nodes, Apply(s, CreateIdentity(owner, None, None)).nodes, owner)
  {
    NothingGiven(owner);
    hide IdentityProps;
  }

  /** A component is stored with its own fields and what is known of its origin, a model with what is known of
      its architecture; where nothing is known there is a default. The owner is stored too. */
  lemma ComponentOfCall(s: Store, owner: string, name: string, version: string, purl: string, origin: string,
                        prov: Properties, now: real)
    ensures var s' := Apply(s, AddComponent(owner, name, version, purl, origin, prov, now));
            var comp := if purl != "" then purl else "pkg:generic/" + name + "@" + version;
            && Identifies(s.nodes, Apply(s, CreateIdentity(owner, None, None)).nodes, owner)
            && Replaces(Apply(s, CreateIdentity(owner, None, None)), s', "SoftwareComponent:" + comp,
                        "SoftwareComponent",
                        map["name" := Str(name), "version" := Str(version), "purl" := Str(comp),
                            "has_provenance" := if "has_provenance" in prov then prov["has_provenance"]
                                else Flag(false),
                            "signature_verified" :=
                              if "signature_verified" in prov then prov["signature_verified"] else Flag(false),
                            "slsa_level" := if "slsa_level" in prov then prov["slsa_level"] else Null])
  {
    NothingGiven(owner);
    hide IdentityProps;
  }

  lemma ModelFields(name: string, version: string, purl: string, arch: Properties, signed: bool)
    ensures ModelProps(name, version, purl, arch, signed)
         == map["name" := Str(name), "version" := Str(version), "purl" := Str(purl),
                "arch_name" := if "name" in arch then arch["name"] else Str("unknown"),
                "parameters_count" := if "parameters_count" in arch then arch["parameters_count"] else Null,
                "layers_count" := if "layers_count" in arch then arch["layers_count"] else Null,
                "framework" := if "framework" in arch then arch["framework"] else Str("PyTorch"),
                "signature_verified" := Flag(signed)]
  {
  }

  lemma ModelPut(s: Store, owner: string, name: string, version: string, arch: Properties, signed: bool, now: real)
    ensures Replaces(Apply(s, CreateIdentity(owner, None, None)),
                     Apply(s, AddModel(owner, name, version, arch, signed, now)),
                     "AIModel:pkg:ml/" + name + "@" + version, "AIModel",
                     ModelProps(name, version, "pkg:ml/" + name + "@" + version, arch, signed))
  {
    hide ModelProps, ModelId, IdentityId, IdentityProps, Store.Merge;
    ModelIdIs(name, version);
  }

  lemma ModelOfCall(s: Store, owner: string, name: string, version: string, arch: Properties, signed: bool, now: real)
    ensures var s' := Apply(s, AddModel(owner, name, version, arch, signed, now));
            && Identifies(s.nodes, Apply(s, CreateIdentity(owner, None, None)).nodes, owner)
            && Replaces(Apply(s, CreateIdentity(owner, None, None)), s', "AIModel:pkg:ml/" + name + "@" + version,
                        "AIModel",
                        map["name" := Str(name), "version" := Str(version),
                            "purl" := Str("pkg:ml/" + name + "@" + version),
                            "arch_name" := if "name" in arch then arch["name"] else Str("unknown"),
                            "parameters_count" := if "parameters_count" in arch then arch["parameters_count"] else Null,
                            "layers_count" := if "layers_count" in arch then arch["layers_count"] else Null,
                            "framework" := if "framework" in arch then arch["framework"] else Str("PyTorch"),
                            "signature_verified" := Flag(signed)])
  {
    hide Apply, Replaces, ModelProps, Identifies;
    OwnerOfCall(s, owner);
    ModelFields(name, version, "pkg:ml/" + name + "@" + version, arch, signed);
    ModelPut(s, owner, name, version, arch, signed, now);
  }

  /** A device keeps what it has, a data set and a report are replaced, and a dependency is only created when it
      is missing. */
  lemma DeviceOfCall(s: Store, ip: string, ports: seq<int>, cves: seq<string>, now: real)
    ensures Updates(s.nodes, Apply(s, AddDevice(ip, ports, cves, now)).nodes, "Device:" + ip, "Device",
                    map["id" := Str(ip)],
                    map["open_ports" := Ints(ports), "cves" := List(cves), "last_seen" := Num(now)])
  {
  }

  lemma DependencyOfCall(s: Store, model: string, name: string, version: string, purl: string, now: real)
    ensures var dep := if purl != "" then purl else "pkg:generic/" + name + "@" + version;
            Updates(s.nodes, Apply(s, LinkModelDependency(model, name, version, purl, now)).nodes,
                    "SoftwareComponent:" + dep, "SoftwareComponent",
                    map["name" := Str(name), "version" := Str(version), "purl" := Str(dep)], map[])
  {
  }

  lemma DatasetFields(name: string, sizeGb: Option<real>, license: Option<string>, sha256: Option<string>,
                      url: Option<string>)
    ensures DatasetProps(name, sizeGb, license, sha256, url)
         == map["name" := Str(name), "stix_type" := Str("dataset"),
                "size_gb" := if sizeGb.Some? then Num(sizeGb.value) else Null,
                "license" := if license.Some? then Str(license.value) else Null,
                "hash_sha256" := if sha256.Some? then Str(sha256.value) else Null,
                "source_url" := if url.Some? then Str(url.value) else Null]
  {
  }

  lemma DatasetPut(s: Store, model: string, name: string, sizeGb: Option<real>, license: Option<string>,
                   sha256: Option<string>, url: Option<string>, now: real)
    ensures Replaces(s, Apply(s, AddDataset(model, name, sizeGb, license, sha256, url, now)),
                     "Dataset:pkg:dataset/" + name, "Dataset", DatasetProps(name, sizeGb, license, sha256, url))
  {
    hide DatasetProps, DatasetId, ModelId;
    DatasetIdIs(name);
  }

  lemma DatasetOfCall(s: Store, model: string, name: string, sizeGb: Option<real>, license: Option<string>,
                      sha256: Option<string>, url: Option<string>, now: real)
    ensures Replaces(s, Apply(s, AddDataset(model, name, sizeGb, license, sha256, url, now)),
                     "Dataset:pkg:dataset/" + name, "Dataset",
                     map["name" := Str(name), "stix_type" := Str("dataset"),
                         "size_gb" := if sizeGb.Some? then Num(sizeGb.value) else Null,
                         "license" := if license.Some? then Str(license.value) else Null,
                         "hash_sha256" := if sha256.Some? then Str(sha256.value) else Null,
                         "source_url" := if url.Some? then Str(url.value) else Null])
  {
    hide Apply, Replaces, DatasetProps;
    DatasetFields(name, sizeGb, license, sha256, url);
    DatasetPut(s, model, name, sizeGb, license, sha256, url, now);
  }

  lemma ReportFields(hash: string, f: Finding, now: real)
    ensures ReportProps(hash, f, now)
         == map["hash" := Str(hash), "status" := Str(f.status),
                "threat_name" := if f.threatName.Some? then Str(f.threatName.value) else Null,
                "trust_factor" := Int(f.trustFactor), "malware_probability" := Num(f.malwareProb),
                "is_malicious" := Flag(f.malicious), "features_json" := Str(f.features), "timestamp" := Num(now)]
  {
  }

  lemma ReportPut(s: Store, purl: string, hash: string, f: Finding, now: real)
    ensures Replaces(s, Apply(s, AddReport(purl, hash, f, now)), "BinaryAnalysisReport:report:binary/" + hash,
                     "BinaryAnalysisReport", ReportProps(hash, f, now))
  {
    hide ReportProps, ReportId, ComponentId, ModelId;
    ReportIdIs(hash);
  }

  lemma ReportOfCall(s: Store, purl: string, hash: string, f: Finding, now: real)
    ensures Replaces(s, Apply(s, AddReport(purl, hash, f, now)), "BinaryAnalysisReport:report:binary/" + hash,
                     "BinaryAnalysisReport",
                     map["hash" := Str(hash), "status" := Str(f.status),
                         "threat_name" := if f.threatName.Some? then Str(f.threatName.value) else Null,
                         "trust_factor" := Int(f.trustFactor), "malware_probability" := Num(f.malwareProb),
                         "is_malicious" := Flag(f.malicious), "features_json" := Str(f.features),
                         "timestamp" := Num(now)])
  {
    hide Apply, Replaces, ReportProps;
    ReportFields(hash, f, now);
    ReportPut(s, purl, hash, f, now);
  }

  /** Linking a device creates the missing ends. */
  lemma DeviceLinkOfCall(s: Store, device: string, purl: string, cves: seq<string>, now: real)
    ensures exists nodes ::
              && Updates(s.nodes, nodes, "Device:" + device, "Device", map["id" := Str(device)], map[])
              && Updates(nodes, Apply(s, LinkDevice(device, purl, cves, now)).nodes, "SoftwareComponent:" + purl,
                         "SoftwareComponent", map["purl" := Str(purl)], map[])
  {
    var middle := s.Merge(DeviceId(device), "Device", map["id" := Str(device)], map[]);
    assert Updates(s.nodes, middle.nodes, "Device:" + device, "Device", map["id" := Str(device)], map[]);
  }

  ghost predicate NamesCve(cves: seq<string>, id: string) {
    exists i :: 0 <= i < |cves| && id == "Vulnerability:" + cves[i]
  }

  ghost predicate StoredCve(nodes: map<string, NodeRecord>, cve: string) {
    "Vulnerability:" + cve in nodes
        && nodes["Vulnerability:" + cve] == NodeRecord("Vulnerability", map["id" := Str(cve)])
  }

  /** The nodes of the CVEs are stored, those that were missing with their id; nothing else changes. */
  ghost predicate CvesStored(nodes: map<string, NodeRecord>, nodes': map<string, NodeRecord>, cves: seq<string>) {
    && (forall id :: id in nodes' <==> id in nodes || NamesCve(cves, id))
    && (forall id :: id in nodes ==> nodes'[id] == nodes[id])
    && (forall i :: 0 <= i < |cves| && "Vulnerability:" + cves[i] !in nodes ==> StoredCve(nodes', cves[i]))
  }

  /** Linking vulnerabilities sets the two scores of a stored component, and creates the vulnerabilities
      that are missing; the component's other properties and all other nodes stay. */
  lemma VulnerabilitiesOfCall(s: Store, purl: string, cves: seq<string>, exploitScore: real, severity: string)
    requires cves != [] && "SoftwareComponent:" + purl in s.nodes
    ensures exists nodes ::
              && Updates(s.nodes, nodes, "SoftwareComponent:" + purl, "SoftwareComponent", map[],
                         map["exploit_score" := Num(exploitScore), "predicted_severity" := Str(severity)])
              && CvesStored(nodes, Apply(s, LinkVulnerabilities(purl, cves, exploitScore, severity)).nodes, cves)
  {
    hide Store.LinkCves, CvesStored;
    var scored := s.Merge(ComponentId(purl), "SoftwareComponent", map[],
                          map["exploit_score" := Num(exploitScore), "predicted_severity" := Str(severity)]);
    assert Updates(s.nodes, scored.nodes, "SoftwareComponent:" + purl, "SoftwareComponent", map[],
                   map["exploit_score" := Num(exploitScore), "predicted_severity" := Str(severity)]);
    CveNodes(scored, ComponentId(purl), cves);
  }

  lemma {:induction false} CveNodes(s: Store, comp: string, cves: seq<string>)
    ensures CvesStored(s.nodes, s.LinkCves(comp, cves).nodes, cves)
  {
    hide CvesStored, Store.Merge;
    if cves == [] {
      NoCves(s.nodes);
    } else {
      var n := |cves| - 1;
      var before := s.LinkCves(comp, cves[..n]);
      CveNodes(s, comp, cves[..n]);
      EnsureNode(before, VulnerabilityId(cves[n]), "Vulnerability", map["id" := Str(cves[n])]);
      OneMoreCve(s.nodes, before.nodes, cves[..n], cves[n]);
      assert cves[..n] + [cves[n]] == cves;
    }
  }

  lemma NoCves(nodes: map<string, NodeRecord>)
    ensures CvesStored(nodes, nodes, [])
  {
  }

  lemma OneMoreCve(nodes: map<string, NodeRecord>, nodes': map<string, NodeRecord>, cves: seq<string>, cve: string)
    requires CvesStored(nodes, nodes', cves)
    ensures var id := "Vulnerability:" + cve;
            CvesStored(nodes, if id in nodes' then nodes' else
                         nodes'[id := NodeRecord("Vulnerability", map["id" := Str(cve)])], cves + [cve])
  {
    var id := "Vulnerability:" + cve;
    var more := if id in nodes' then nodes' else nodes'[id := NodeRecord("Vulnerability", map["id" := Str(cve)])];
    NamesOneMore(cves, cve);
    hide NamesCve;
    forall i | 0 <= i < |cves + [cve]| && "Vulnerability:" + (cves + [cve])[i] !in nodes
      ensures StoredCve(more, (cves + [cve])[i])
    {
      SameCve(nodes, nodes', cves, cve, i);
    }
  }

  lemma NamesOneMore(cves: seq<string>, cve: string)
    ensures forall id :: NamesCve(cves + [cve], id) <==> NamesCve(cves, id) || id == "Vulnerability:" + cve
  {
    assert (cves + [cve])[|cves|] == cve;
    forall id | NamesCve(cves, id)
      ensures NamesCve(cves + [cve], id)
    {
      var i :| 0 <= i < |cves| && id == "Vulnerability:" + cves[i];
      assert (cves + [cve])[i] == cves[i];
    }
  }

  lemma SameCve(nodes: map<string, NodeRecord>, nodes': map<string, NodeRecord>, cves: seq<string>, cve: string, i: nat)
    requires CvesStored(nodes, nodes', cves) && i < |cves + [cve]| && "Vulnerability:" + (cves + [cve])[i] !in nodes
    ensures var id, name := "Vulnerability:" + (cves + [cve])[i], (cves + [cve])[i];
            && (id in nodes' ==> StoredCve(nodes', name))
            && (id !in nodes' ==> name == cve)
  {
    var id := "Vulnerability:" + (cves + [cve])[i];
    if i < |cves| {
      assert (cves + [cve])[i] == cves[i];
      assert NamesCve(cves, id);
    } else if NamesCve(cves, id) {
      var k :| 0 <= k < |cves| && id == "Vulnerability:" + cves[k];
      assert id[14..] == cves[k] && id[14..] == cve;
    }
  }

  // ---------- which way edges run ----------

  /** The kind of an edge says where it starts and where it ends. */
  ghost predicate RunsItsWay(e: Edge) {
    || (e.kind == "TARGETS" && "ThreatActor:" <= e.source && "Identity:" <= e.target)
    || (e.kind == "DEVELOPED" && "Identity:" <= e.source
        && ("SoftwareComponent:" <= e.target || "AIModel:" <= e.target))
    || (e.kind == "HAS_VULNERABILITY" && "SoftwareComponent:" <= e.source && "Vulnerability:" <= e.target)
    || (e.kind == "RUNS" && "Device:" <= e.source && "SoftwareComponent:" <= e.target)
    || (e.kind == "TRAINED_ON" && "AIModel:" <= e.source && "Dataset:" <= e.target)
    || (e.kind == "DEPENDS_ON" && "AIModel:" <= e.source && "SoftwareComponent:" <= e.target)
    || (e.kind == "HAS_ANALYSIS_REPORT" && ("SoftwareComponent:" <= e.source || "AIModel:" <= e.source)
        && "BinaryAnalysisReport:" <= e.target)
  }

  /** The edges of the call run their way. */
  ghost predicate NewOnesRunTheirWay(edges: seq<Edge>, edges': seq<Edge>) {
    forall k :: |edges| <= k < |edges'| ==> RunsItsWay(edges'[k])
  }

  lemma CallsRunTheirWay(nodes: map<string, NodeRecord>, edges: seq<Edge>, edges': seq<Edge>, op: Operation)
    requires EdgesAdded(nodes, edges, edges', op)
    ensures NewOnesRunTheirWay(edges, edges')
  {
    match op
    case LinkVulnerabilities(_, _, _, _) => VulnerabilitiesRun(nodes, edges, edges', op);
    case AddReport(_, _, _, _) => ReportsRun(nodes, edges, edges', op);
    case AddDataset(_, _, _, _, _, _, _) => DatasetsRun(nodes, edges, edges', op);
    case AddModel(_, _, _, _, _, _) => ModelsRun(nodes, edges, edges', op);
    case AddComponent(_, _, _, _, _, _, _) => ComponentsRun(nodes, edges, edges', op);
    case LinkModelDependency(_, _, _, _, _) => ComponentsRun(nodes, edges, edges', op);
    case _ => LinksRun(nodes, edges, edges', op);
  }

  lemma LinksRun(nodes: map<string, NodeRecord>, edges: seq<Edge>, edges': seq<Edge>, op: Operation)
    requires EdgesAdded(nodes, edges, edges', op)
    requires op.CreateIdentity? || op.AddThreatActor? || op.AddDevice? || op.LinkThreat? || op.LinkDevice?
    ensures NewOnesRunTheirWay(edges, edges')
  {
  }

  lemma ComponentsRun(nodes: map<string, NodeRecord>, edges: seq<Edge>, edges': seq<Edge>, op: Operation)
    requires EdgesAdded(nodes, edges, edges', op) && (op.AddComponent? || op.LinkModelDependency?)
    ensures NewOnesRunTheirWay(edges, edges')
  {
  }

  lemma ModelsRun(nodes: map<string, NodeRecord>, edges: seq<Edge>, edges': seq<Edge>, op: Operation)
    requires EdgesAdded(nodes, edges, edges', op) && op.AddModel?
    ensures NewOnesRunTheirWay(edges, edges')
  {
    assert "AIModel:" + ("pkg:ml/" + op.name + "@" + op.version) == "AIModel:pkg:ml/" + op.name + "@" + op.version;
  }

  lemma DatasetsRun(nodes: map<string, NodeRecord>, edges: seq<Edge>, edges': seq<Edge>, op: Operation)
    requires EdgesAdded(nodes, edges, edges', op) && op.AddDataset?
    ensures NewOnesRunTheirWay(edges, edges')
  {
    assert "Dataset:" + ("pkg:dataset/" + op.name) == "Dataset:pkg:dataset/" + op.name;
  }

  lemma ReportsRun(nodes: map<string, NodeRecord>, edges: seq<Edge>, edges': seq<Edge>, op: Operation)
    requires EdgesAdded(nodes, edges, edges', op) && op.AddReport?
    ensures NewOnesRunTheirWay(edges, edges')
  {
    assert "BinaryAnalysisReport:" + ("report:binary/" + op.hash) == "BinaryAnalysisReport:report:binary/" + op.hash;
  }

  lemma VulnerabilitiesRun(nodes: map<string, NodeRecord>, edges: seq<Edge>, edges': seq<Edge>, op: Operation)
    requires EdgesAdded(nodes, edges, edges', op) && op.LinkVulnerabilities?
    ensures NewOnesRunTheirWay(edges, edges')
  {
    hide RunsItsWay;
    forall k | |edges| <= k < |edges'|
      ensures RunsItsWay(edges'[k])
    {
      Affects(edges'[k], op.purl, op.cves[k - |edges|]);
    }
  }

  lemma Affects(e: Edge, purl: string, cve: string)
    requires e.source == "SoftwareComponent:" + purl && e.target == "Vulnerability:" + cve
               && e.kind == "HAS_VULNERABILITY"
    ensures RunsItsWay(e)
  {
  }

  /** In every run every edge runs its way. */
  lemma {:induction false} EdgesRunTheirWay(ops: seq<Operation>)
    ensures forall e :: e in Run(EMPTY_STORE, ops).edges ==> RunsItsWay(e)
  {
    hide Apply, RunsItsWay, EdgesAdded;
    if ops != [] {
      var n := |ops| - 1;
      var s := Run(EMPTY_STORE, ops[..n]);
      EdgesRunTheirWay(ops[..n]);
      EdgesOfCall(s, ops[n]);
      CallsRunTheirWay(s.nodes, s.edges, Apply(s, ops[n]).edges, ops[n]);
      EdgesOfOperation(s, ops[n]);
    }
  }

  /** Threat actors and devices, identities, models, components, and what nothing leads on from. */
  ghost function Layer(id: string): nat {
    if |id| < 2 then 0
    else if id[0] == 'I' then 1
    else if id[0] == 'A' then 2
    else if id[0] == 'S' then 3
    else if id[0] == 'V' || id[0] == 'B' || (id[0] == 'D' && id[1] == 'a') then 4
    else 0
  }

  lemma EdgesLeadUp(e: Edge)
    requires RunsItsWay(e)
    ensures Layer(e.source) < Layer(e.target)
  {
  }

  lemma LastStep(edges: seq<Edge>, root: string, v: string, d: nat) returns (e: Edge)
    requires d > 0 && v in Reach(edges, root, d) && v !in Reach(edges, root, d - 1)
    ensures e in edges && e.source in Reach(edges, root, d - 1) && e.target == v
  {
    var i :| 0 <= i < |edges| && edges[i].source in Reach(edges, root, d - 1) && edges[i].target == v;
    e := edges[i];
  }

  /** Whatever is reached from an id lies in a higher layer. */
  lemma {:induction false} ReachedIsHigher(ops: seq<Operation>, root: string, v: string, d: nat)
    requires v in Reach(Run(EMPTY_STORE, ops).edges, root, d)
    ensures v == root || Layer(root) < Layer(v)
    decreases d
  {
    hide RunsItsWay, Layer, Run;
    var edges := Run(EMPTY_STORE, ops).edges;
    if d > 0 {
      hide Reach;
      if v in Reach(edges, root, d - 1) {
        ReachedIsHigher(ops, root, v, d - 1);
      } else {
        var e := LastStep(edges, root, v, d);
        ReachedIsHigher(ops, root, e.source, d - 1);
        EdgesRunTheirWay(ops);
        EdgesLeadUp(e);
      }
    }
  }

  /** The graph has no cycles: of two ids each of which is reached from the other there is only one. */
  lemma GraphIsAcyclic(ops: seq<Operation>, u: string, v: string, c: nat, d: nat)
    requires v in Reach(Run(EMPTY_STORE, ops).edges, u, c) && u in Reach(Run(EMPTY_STORE, ops).edges, v, d)
    ensures u == v
    ensures !Step(Run(EMPTY_STORE, ops).edges, u, v)
  {
    hide Reach, Layer, RunsItsWay, Run;
    ReachedIsHigher(ops, u, v, c);
    ReachedIsHigher(ops, v, u, d);
    EdgesRunTheirWay(ops);
    var edges := Run(EMPTY_STORE, ops).edges;
    if i :| 0 <= i < |edges| && edges[i].source == u && edges[i].target == v {
      EdgesLeadUp(edges[i]);
    }
  }

  // ---------- what a query answers ----------

  lemma {:induction false} EdgesStay(ops: seq<Operation>, n: nat)
    requires n <= |ops|
    ensures Run(EMPTY_STORE, ops[..n]).edges <= Run(EMPTY_STORE, ops).edges
    ensures Run(EMPTY_STORE, ops[..n]).nodes.Keys <= Run(EMPTY_STORE, ops).nodes.Keys
    decreases |ops|
  {
    hide Apply;
    if n < |ops| {
      assert ops[..|ops| - 1][..n] == ops[..n];
      EdgesStay(ops[..|ops| - 1], n);
      EdgesOfOperation(Run(EMPTY_STORE, ops[..|ops| - 1]), ops[|ops| - 1]);
    } else {
      assert ops[..n] == ops;
    }
  }

  /** The store right after the call with index `i`. */
  lemma AfterCall(ops: seq<Operation>, i: nat)
    requires i < |ops|
    ensures Run(EMPTY_STORE, ops[..i + 1]) == Apply(Run(EMPTY_STORE, ops[..i]), ops[i])
    ensures forall e :: e in Apply(Run(EMPTY_STORE, ops[..i]), ops[i]).edges ==>
              e in Run(EMPTY_STORE, ops).edges && e.target in Reach(Run(EMPTY_STORE, ops).edges, e.source, 1)
  {
    hide Apply;
    assert ops[..i + 1][..i] == ops[..i];
    EdgesStay(ops, i + 1);
    forall e | e in Apply(Run(EMPTY_STORE, ops[..i]), ops[i]).edges
      ensures e in Run(EMPTY_STORE, ops).edges && e.target in Reach(Run(EMPTY_STORE, ops).edges, e.source, 1)
    {
      EdgeFromReached(Run(EMPTY_STORE, ops).edges, e.source, e, 0);
    }
  }

  /** The answer to a query of depth one or more lists both ends of every edge from the root, and the edge. */
  lemma {:induction false} AnswerHolds(ops: seq<Operation>, e: Edge, d: int, sub: SubgraphResult)
    requires var s := Run(EMPTY_STORE, ops);
             e in s.edges && d >= 1 && IsSubgraph(s.nodes, s.edges, e.source, d, sub)
    ensures Listed(sub.nodes, e.target) && e in sub.edges
  {
    hide Run, Reach;
    var s := Run(EMPTY_STORE, ops);
    RunIsSound(ops);
    RootReached(s.edges, e.source);
    EdgeFromReached(s.edges, e.source, e, 0);
    ReachMonotone(s.edges, e.source, 1, d);
    ReachMonotone(s.edges, e.source, 0, d - 1);
    EdgesFromCount(s.edges, Expanded(s.edges, e.source, d), e);
    assert e in multiset(sub.edges);
  }

  lemma ListedIff(nodes: map<string, NodeRecord>, edges: seq<Edge>, root: string, d: int, sub: SubgraphResult,
                  v: string)
    requires IsSubgraph(nodes, edges, root, d, sub)
    ensures Listed(sub.nodes, v) <==>
            v in nodes && exists w :: IsWalk(edges, root, v, w) && (|w| == 1 || |w| - 1 <= d)
  {
    hide Reach, NoNodeTwice, StoredRecords, ByDistance, Listed, EdgesFrom, Expanded, IsWalk;
    ReachIsDistance(edges, root, v, Depth(d));
    if w :| IsWalk(edges, root, v, w) && |w| <= Depth(d) + 1 {
      NotEmpty(edges, root, v, w);
    }
  }

  lemma NotEmpty(edges: seq<Edge>, root: string, v: string, w: seq<string>)
    requires IsWalk(edges, root, v, w)
    ensures w != []
  {
  }

  lemma ReturnedAs(nodes: map<string, NodeRecord>, edges: seq<Edge>, root: string, d: int, sub: SubgraphResult, e: Edge)
    requires IsSubgraph(nodes, edges, root, d, sub)
    ensures multiset(sub.edges)[e] == if e.source in Expanded(edges, root, d) then multiset(edges)[e] else 0
    ensures e.source in Expanded(edges, root, d) <==> exists w :: IsWalk(edges, root, e.source, w) && |w| - 1 < d
  {
    hide Reach, NoNodeTwice, StoredRecords, ByDistance, Listed, EdgesFrom, IsWalk;
    EdgesFromCount(edges, Expanded(edges, root, d), e);
    if d > 0 {
      ReachIsDistance(edges, root, e.source, d - 1);
    } else if w :| IsWalk(edges, root, e.source, w) && |w| - 1 < d {
      NotEmpty(edges, root, e.source, w);
    }
  }

  /** The answer lists an id if and only if it is stored and a walk of at most `d` edges leads to it from the root,
      and returns an edge as often as it is stored if a walk of fewer than `d` edges leads to its source, and
      otherwise not at all. A depth below zero counts as zero. */
  lemma {:induction false} AnswerIsNeighbourhood(nodes: map<string, NodeRecord>, edges: seq<Edge>, root: string, d: int,
                                                 sub: SubgraphResult)
    requires IsSubgraph(nodes, edges, root, d, sub)
    ensures forall v :: Listed(sub.nodes, v) <==>
              v in nodes && exists w :: IsWalk(edges, root, v, w) && (|w| == 1 || |w| - 1 <= d)
    ensures forall e :: multiset(sub.edges)[e] == multiset(edges)[e] || multiset(sub.edges)[e] == 0
    ensures forall e :: e in sub.edges <==>
              e in edges && exists w :: IsWalk(edges, root, e.source, w) && |w| - 1 < d
  {
    hide IsSubgraph, Listed, IsWalk, Expanded;
    forall v
      ensures Listed(sub.nodes, v) <==>
              v in nodes && exists w :: IsWalk(edges, root, v, w) && (|w| == 1 || |w| - 1 <= d)
    {
      ListedIff(nodes, edges, root, d, sub, v);
    }
    forall e
      ensures multiset(sub.edges)[e] == multiset(edges)[e] || multiset(sub.edges)[e] == 0
      ensures e in sub.edges <==> e in edges && exists w :: IsWalk(edges, root, e.source, w) && |w| - 1 < d
    {
      ReturnedAs(nodes, edges, root, d, sub, e);
      assert e in sub.edges <==> e in multiset(sub.edges);
      assert e in edges <==> e in multiset(edges);
    }
  }

  lemma RootReached(edges: seq<Edge>, root: string)
    ensures root in Reach(edges, root, 0)
  {
  }

  /** A component added for an owner is found from the owner, whatever is done to the store afterwards, and so
      is the edge that runs from the owner to it. */
  lemma {:induction false} ComponentIsFound(ops: seq<Operation>, i: nat, owner: string, name: string, version: string,
                                            purl: string, origin: string, prov: Properties, now: real, d: int,
                                            sub: SubgraphResult)
    requires i < |ops| && ops[i] == AddComponent(owner, name, version, purl, origin, prov, now) && d >= 1
    requires IsSubgraph(Run(EMPTY_STORE, ops).nodes, Run(EMPTY_STORE, ops).edges, "Identity:" + owner, d, sub)
    ensures var comp := if purl != "" then purl else "pkg:generic/" + name + "@" + version;
            && Listed(sub.nodes, "SoftwareComponent:" + comp)
            && Edge("Identity:" + owner, "SoftwareComponent:" + comp, "DEVELOPED",
                    map["source" := Str(origin), "timestamp" := Num(now)]) in sub.edges
  {
    hide Apply, IsSubgraph, Run;
    var comp := if purl != "" then purl else "pkg:generic/" + name + "@" + version;
    var e := Edge("Identity:" + owner, "SoftwareComponent:" + comp, "DEVELOPED",
                  map["source" := Str(origin), "timestamp" := Num(now)]);
    EdgesOfCall(Run(EMPTY_STORE, ops[..i]), ops[i]);
    AfterCall(ops, i);
    AnswerHolds(ops, e, d, sub);
  }

  /** So is an AI model. */
  lemma {:induction false} ModelIsFound(ops: seq<Operation>, i: nat, owner: string, name: string, version: string,
                                        arch: Properties, signed: bool, now: real, d: int, sub: SubgraphResult)
    requires i < |ops| && ops[i] == AddModel(owner, name, version, arch, signed, now) && d >= 1
    requires IsSubgraph(Run(EMPTY_STORE, ops).nodes, Run(EMPTY_STORE, ops).edges, "Identity:" + owner, d, sub)
    ensures Listed(sub.nodes, "AIModel:pkg:ml/" + name + "@" + version)
    ensures Edge("Identity:" + owner, "AIModel:pkg:ml/" + name + "@" + version, "DEVELOPED",
                 map["source" := Str("MBOM"), "timestamp" := Num(now)]) in sub.edges
  {
    hide Apply, IsSubgraph, Run;
    var e := Edge("Identity:" + owner, "AIModel:pkg:ml/" + name + "@" + version, "DEVELOPED",
                  map["source" := Str("MBOM"), "timestamp" := Num(now)]);
    EdgesOfCall(Run(EMPTY_STORE, ops[..i]), ops[i]);
    AfterCall(ops, i);
    AnswerHolds(ops, e, d, sub);
  }

  /** Every linking call leaves its target one step from its source, whatever is done afterwards: an identity from
      the actor, a component from the device, a data set and a dependency from the model, the vulnerabilities
      from a component that was stored, and a report from the component, else from the model. */
  lemma {:induction false} LinksAreReached(ops: seq<Operation>, i: nat)
    requires i < |ops|
    ensures var edges, stored := Run(EMPTY_STORE, ops).edges, Run(EMPTY_STORE, ops[..i]).nodes;
            match ops[i]
            case LinkThreat(actor, identity, _, _) => "Identity:" + identity in Reach(edges, "ThreatActor:" + actor, 1)
            case LinkDevice(device, purl, _, _) => "SoftwareComponent:" + purl in Reach(edges, "Device:" + device, 1)
            case AddDataset(model, name, _, _, _, _, _) =>
              "Dataset:pkg:dataset/" + name in Reach(edges, "AIModel:" + model, 1)
            case LinkModelDependency(model, name, version, purl, _) =>
              var dep := if purl != "" then purl else "pkg:generic/" + name + "@" + version;
              "SoftwareComponent:" + dep in Reach(edges, "AIModel:" + model, 1)
            case LinkVulnerabilities(purl, cves, _, _) =>
              "SoftwareComponent:" + purl in stored ==>
              forall k :: 0 <= k < |cves| ==>
                "Vulnerability:" + cves[k] in Reach(edges, "SoftwareComponent:" + purl, 1)
            case AddReport(purl, hash, _, _) =>
              var report := "BinaryAnalysisReport:report:binary/" + hash;
              && ("SoftwareComponent:" + purl in stored ==> report in Reach(edges, "SoftwareComponent:" + purl, 1))
              && ("SoftwareComponent:" + purl !in stored && "AIModel:" + purl in stored ==>
                    report in Reach(edges, "AIModel:" + purl, 1))
            case _ => true
  {
    hide Apply, Run, Reach;
    var s := Run(EMPTY_STORE, ops[..i]);
    EdgesOfCall(s, ops[i]);
    AfterCall(ops, i);
    var edges := Apply(s, ops[i]).edges;
    FirstNew(s.edges, edges);
    match ops[i]
    case LinkVulnerabilities(purl, cves, _, _) =>
      forall k | 0 <= k < |cves| && "SoftwareComponent:" + purl in s.nodes
        ensures "Vulnerability:" + cves[k] in Reach(Run(EMPTY_STORE, ops).edges, "SoftwareComponent:" + purl, 1)
      {
        var e := edges[|s.edges| + k];
        assert e == Edge("SoftwareComponent:" + purl, "Vulnerability:" + cves[k], "HAS_VULNERABILITY", map[]);
        assert e in edges;
      }
    case _ =>
  }

  lemma FirstNew(edges: seq<Edge>, edges': seq<Edge>)
    ensures |edges| < |edges'| ==> edges'[|edges|] in edges'
  {
  }

  lemma OneLayerUp(edges: seq<Edge>, root: string, e: Edge)
    requires e in edges && RunsItsWay(e) && 1 <= Layer(e.source) && e.source in Reach(edges, root, Layer(e.source) - 1)
    ensures 1 <= Layer(e.target) && e.target in Reach(edges, root, Layer(e.target) - 1)
  {
    EdgesLeadUp(e);
    hide Reach, Layer, RunsItsWay;
    EdgeFromReached(edges, root, e, Layer(e.source) - 1);
    ReachMonotone(edges, root, Layer(e.source), Layer(e.target) - 1);
  }

  lemma IdentityLayer(name: string)
    ensures Layer("Identity:" + name) == 1
  {
  }

  /** What is reached from an identity is reached in as many steps as it lies layers above. */
  lemma {:induction false} ReachedByLayer(ops: seq<Operation>, name: string, v: string, d: nat)
    requires v in Reach(Run(EMPTY_STORE, ops).edges, "Identity:" + name, d)
    ensures 1 <= Layer(v) && v in Reach(Run(EMPTY_STORE, ops).edges, "Identity:" + name, Layer(v) - 1)
    decreases d
  {
    hide RunsItsWay, Layer, Run;
    var root, edges := "Identity:" + name, Run(EMPTY_STORE, ops).edges;
    IdentityLayer(name);
    if d > 0 {
      hide Reach;
      if v in Reach(edges, root, d - 1) {
        ReachedByLayer(ops, name, v, d - 1);
      } else {
        var e := LastStep(edges, root, v, d);
        ReachedByLayer(ops, name, e.source, d - 1);
        EdgesRunTheirWay(ops);
        OneLayerUp(edges, root, e);
      }
    }
  }

  lemma LayersEnd(v: string)
    ensures Layer(v) <= 4
  {
  }

  /** Nothing is more than three steps from an identity, so a query deeper than the default depth of four answers
      no more than one of that depth. */
  lemma {:induction false} DeeperIsNoMore(ops: seq<Operation>, name: string, d: int, sub: SubgraphResult)
    requires d >= 4
    ensures var s := Run(EMPTY_STORE, ops);
            && Reach(s.edges, "Identity:" + name, d) == Reach(s.edges, "Identity:" + name, 3)
            && (IsSubgraph(s.nodes, s.edges, "Identity:" + name, d, sub) <==>
                IsSubgraph(s.nodes, s.edges, "Identity:" + name, 4, sub))
  {
    hide Run, Reach, Layer, ByDistance, Listed, EdgesFrom;
    NoFartherThanThree(ops, name, d);
    NoFartherThanThree(ops, name, d - 1);
    NoFartherThanThree(ops, name, 4);
  }

  lemma NoFartherThanThree(ops: seq<Operation>, name: string, d: nat)
    requires d >= 3
    ensures Reach(Run(EMPTY_STORE, ops).edges, "Identity:" + name, d)
         == Reach(Run(EMPTY_STORE, ops).edges, "Identity:" + name, 3)
  {
    hide Run, Reach, Layer;
    var root, edges := "Identity:" + name, Run(EMPTY_STORE, ops).edges;
    ReachMonotone(edges, root, 3, d);
    forall v | v in Reach(edges, root, d)
      ensures v in Reach(edges, root, 3)
    {
      ReachedByLayer(ops, name, v, d);
      LayersEnd(v);
      ReachMonotone(edges, root, Layer(v) - 1, 3);
    }
  }
}
