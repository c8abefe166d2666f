/**
 agentic_execution/discovery_engine.py: the depth-bounded recursive discovery of vendors. There is
 no visited set, so a vendor is recorded once for every way of reaching it.
 */
module DiscoveryEngine {
  import opened Prelude

  datatype Dependency = Dependency(kind: string, name: string, version: Option<string>)

  /** The answers of the reconnaissance, scanning and composition services. */
  datatype Services = Services(
    dns: string -> seq<string>,
    ports: string -> seq<int>,
    cves: (string, seq<int>) -> seq<string>,
    dependencies: string -> seq<Dependency>)

  /** One element of `discovered_topology`. */
  datatype Entry = Entry(vendor: string, depth: int, dns: seq<string>, cves: seq<string>, dependencies: seq<Dependency>)

  // ---------- what is recorded ----------

  ghost function CvesOf(s: Services, ips: seq<string>): seq<string> {
    if ips == [] then []
    else CvesOf(s, ips[..|ips| - 1]) + s.cves(ips[|ips| - 1], s.ports(ips[|ips| - 1]))
  }

  ghost function EntryOf(s: Services, vendor: string, depth: int): Entry {
    Entry(vendor, depth, s.dns(vendor), CvesOf(s, s.dns(vendor)), s.dependencies(vendor))
  }

  ghost function Traversal(s: Services, vendor: string, maxDepth: int, depth: int): seq<Entry>
    decreases maxDepth - depth, 1, 0
  {
    if depth >= maxDepth then []
    else [EntryOf(s, vendor, depth)] + TraversalOver(s, s.dependencies(vendor), maxDepth, depth + 1)
  }

  ghost function TraversalOver(s: Services, deps: seq<Dependency>, maxDepth: int, depth: int): seq<Entry>
    decreases maxDepth - depth, 2, |deps|
  {
    if deps == [] then []
    else
      var n := |deps| - 1;
      TraversalOver(s, deps[..n], maxDepth, depth)
        + (if deps[n].kind == "vendor" then Traversal(s, deps[n].name, maxDepth, depth) else [])
  }

  lemma TraversalBegins(s: Services, vendor: string, maxDepth: int, depth: int)
    ensures Traversal(s, vendor, maxDepth, depth)
         == if depth >= maxDepth then []
            else [EntryOf(s, vendor, depth)] + TraversalOver(s, s.dependencies(vendor), maxDepth, depth + 1)
    ensures TraversalOver(s, [], maxDepth, depth + 1) == []
  {
  }

  lemma TraversalGrows(s: Services, deps: seq<Dependency>, i: nat, maxDepth: int, depth: int)
    requires i < |deps|
    ensures TraversalOver(s, deps[..i + 1], maxDepth, depth)
         == TraversalOver(s, deps[..i], maxDepth, depth)
            + (if deps[i].kind == "vendor" then Traversal(s, deps[i].name, maxDepth, depth) else [])
  {
    assert deps[..i + 1][..i] == deps[..i];
  }

  class DiscoveryOrchestrator {
    const services: Services
    var discoveredTopology: seq<Entry>

    constructor (services: Services)
      ensures this.services == services && discoveredTopology == []
    {
      this.services := services;
      discoveredTopology := [];
    }

    method ScanAll(ips: seq<string>) returns (discovered: seq<string>)
      ensures discovered == CvesOf(services, ips)
    {
      discovered := [];
      for i := 0 to |ips|
        invariant discovered == CvesOf(services, ips[..i])
      {
        var ports := services.ports(ips[i]);
        var cves := services.cves(ips[i], ports);
        assert ips[..i + 1][..i] == ips[..i];
        discovered := discovered + cves;
      }
      assert ips[..|ips|] == ips;
    }

    method RecursiveTraverse(seedVendor: string, maxDepth: int, currentDepth: int)
      modifies this
      ensures discoveredTopology == old(discoveredTopology) + Traversal(services, seedVendor, maxDepth, currentDepth)
      decreases maxDepth - currentDepth
    {
      hide CvesOf, Traversal, TraversalOver;
      TraversalBegins(services, seedVendor, maxDepth, currentDepth);
      if currentDepth >= maxDepth {
        return;
      }
      var dns := services.dns(seedVendor);
      var discoveredCves := ScanAll(dns);
      var dependencies := services.dependencies(seedVendor);
      var nodeData := Entry(seedVendor, currentDepth, dns, discoveredCves, dependencies);
      discoveredTopology := discoveredTopology + [nodeData];
      ghost var before := discoveredTopology;
      assert dependencies[..0] == [];
      for i := 0 to |dependencies|
        invariant discoveredTopology
               == before + TraversalOver(services, dependencies[..i], maxDepth, currentDepth + 1)
      {
        TraversalGrows(services, dependencies, i, maxDepth, currentDepth + 1);
        if dependencies[i].kind == "vendor" {
          RecursiveTraverse(dependencies[i].name, maxDepth, currentDepth + 1);
        }
      }
      assert dependencies[..|dependencies|] == dependencies;
    }
  }

  // ---------- which vendors are visited, and how often ----------

  /** The number of walks of `steps` dependency steps from one vendor to another. */
  ghost function WalkCount(s: Services, from: string, to: string, steps: nat): nat
    decreases steps, 1, 0
  {
    if steps == 0 then (if from == to then 1 else 0)
    else WalkCountOver(s, s.dependencies(from), to, steps - 1)
  }

  ghost function WalkCountOver(s: Services, deps: seq<Dependency>, to: string, steps: nat): nat
    decreases steps, 2, |deps|
  {
    if deps == [] then 0
    else
      var n := |deps| - 1;
      WalkCountOver(s, deps[..n], to, steps)
          + (if deps[n].kind == "vendor" then WalkCount(s, deps[n].name, to, steps) else 0)
  }

  /** How often a vendor is recorded at a depth. */
  ghost function Recorded(es: seq<Entry>, vendor: string, depth: int): nat {
    if es == [] then 0
    else
      var n := |es| - 1;
      Recorded(es[..n], vendor, depth) + (if es[n].vendor == vendor && es[n].depth == depth then 1 else 0)
  }

  lemma {:induction false} RecordedConcat(a: seq<Entry>, b: seq<Entry>, vendor: string, depth: int)
    ensures Recorded(a + b, vendor, depth) == Recorded(a, vendor, depth) + Recorded(b, vendor, depth)
    decreases |b|
  {
    if b == [] {
      assert a + b == a;
    } else {
      assert (a + b)[..|a + b| - 1] == a + b[..|b| - 1];
      RecordedConcat(a, b[..|b| - 1], vendor, depth);
    }
  }

  lemma {:induction false} RecordedNothingBelow(s: Services, vendor: string, maxDepth: int, depth: int, v: string,
                                                d: int)
    requires d < depth
    ensures Recorded(Traversal(s, vendor, maxDepth, depth), v, d) == 0
    decreases maxDepth - depth, 1, 0
  {
    if depth < maxDepth {
      RecordedNothingBelowOver(s, s.dependencies(vendor), maxDepth, depth + 1, v, d);
      RecordedConcat([EntryOf(s, vendor, depth)], TraversalOver(s, s.dependencies(vendor), maxDepth, depth + 1), v, d);
    }
  }

  lemma {:induction false} RecordedNothingBelowOver(s: Services, deps: seq<Dependency>, maxDepth: int, depth: int,
                                                    v: string, d: int)
    requires d < depth
    ensures Recorded(TraversalOver(s, deps, maxDepth, depth), v, d) == 0
    decreases maxDepth - depth, 2, |deps|
  {
    if deps != [] {
      var n := |deps| - 1;
      RecordedNothingBelowOver(s, deps[..n], maxDepth, depth, v, d);
      if deps[n].kind == "vendor" {
        RecordedNothingBelow(s, deps[n].name, maxDepth, depth, v, d);
      }
      RecordedConcat(TraversalOver(s, deps[..n], maxDepth, depth),
                     if deps[n].kind == "vendor" then Traversal(s, deps[n].name, maxDepth, depth) else [], v, d);
    }
  }

  /** A vendor is recorded at a depth once for every walk of that many steps, as long as the depth
      is below the limit; cyclic dependencies included. */
  lemma {:induction false} RecordedIsWalkCount(s: Services, seed: string, maxDepth: int, depth: int, v: string,
                                               steps: nat)
    ensures Recorded(Traversal(s, seed, maxDepth, depth), v, depth + steps)
         == if depth + steps < maxDepth then WalkCount(s, seed, v, steps) else 0
    decreases maxDepth - depth, 1, 0
  {
    if depth < maxDepth {
      var first, rest := [EntryOf(s, seed, depth)], TraversalOver(s, s.dependencies(seed), maxDepth, depth + 1);
      RecordedConcat(first, rest, v, depth + steps);
      assert first[..0] == [];
      if steps == 0 {
        RecordedNothingBelowOver(s, s.dependencies(seed), maxDepth, depth + 1, v, depth);
      } else {
        RecordedIsWalkCountOver(s, s.dependencies(seed), maxDepth, depth + 1, v, steps - 1);
      }
    }
  }

  lemma {:induction false} RecordedIsWalkCountOver(s: Services, deps: seq<Dependency>, maxDepth: int, depth: int,
                                                   v: string, steps: nat)
    ensures Recorded(TraversalOver(s, deps, maxDepth, depth), v, depth + steps)
         == if depth + steps < maxDepth then WalkCountOver(s, deps, v, steps) else 0
    decreases maxDepth - depth, 2, |deps|
  {
    if deps != [] {
      var n := |deps| - 1;
      RecordedIsWalkCountOver(s, deps[..n], maxDepth, depth, v, steps);
      if deps[n].kind == "vendor" {
        RecordedIsWalkCount(s, deps[n].name, maxDepth, depth, v, steps);
      }
      RecordedConcat(TraversalOver(s, deps[..n], maxDepth, depth),
                     if deps[n].kind == "vendor" then Traversal(s, deps[n].name, maxDepth, depth) else [],
                     v, depth + steps);
    }
  }

  ghost predicate VendorDependency(s: Services, u: string, v: string) {
    exists i :: 0 <= i < |s.dependencies(u)| && s.dependencies(u)[i].kind == "vendor" && s.dependencies(u)[i].name == v
  }

  /** `w` is a walk along vendor dependencies. */
  ghost predicate IsWalk(s: Services, w: seq<string>)
    decreases |w|
  {
    w != [] && (|w| > 1 ==> VendorDependency(s, w[0], w[1]) && IsWalk(s, w[1..]))
  }

  lemma {:induction false} CountOverPositive(s: Services, deps: seq<Dependency>, to: string, steps: nat)
    ensures WalkCountOver(s, deps, to, steps) > 0 <==>
            exists i :: 0 <= i < |deps| && deps[i].kind == "vendor" && WalkCount(s, deps[i].name, to, steps) > 0
    decreases |deps|
  {
    if deps != [] {
      var n := |deps| - 1;
      CountOverPositive(s, deps[..n], to, steps);
      assert forall i :: 0 <= i < n ==> deps[..n][i] == deps[i];
    }
  }

  ghost predicate WalkBetween(s: Services, w: seq<string>, from: string, to: string, steps: nat) {
    IsWalk(s, w) && |w| == steps + 1 && w[0] == from && w[steps] == to
  }

  lemma {:induction false} WalkFromCount(s: Services, from: string, to: string, steps: nat) returns (w: seq<string>)
    requires WalkCount(s, from, to, steps) > 0
    ensures WalkBetween(s, w, from, to, steps)
    decreases steps
  {
    if steps == 0 {
      w := [from];
    } else {
      CountOverPositive(s, s.dependencies(from), to, steps - 1);
      var i :| 0 <= i < |s.dependencies(from)| && s.dependencies(from)[i].kind == "vendor"
            && WalkCount(s, s.dependencies(from)[i].name, to, steps - 1) > 0;
      var tail := WalkFromCount(s, s.dependencies(from)[i].name, to, steps - 1);
      w := [from] + tail;
      assert w[1..] == tail;
    }
  }

  lemma {:induction false} CountFromWalk(s: Services, w: seq<string>, from: string, to: string, steps: nat)
    requires WalkBetween(s, w, from, to, steps)
    ensures WalkCount(s, from, to, steps) > 0
    decreases steps
  {
    if steps > 0 {
      CountFromWalk(s, w[1..], w[1], to, steps - 1);
      var i :| 0 <= i < |s.dependencies(from)| && s.dependencies(from)[i].kind == "vendor"
            && s.dependencies(from)[i].name == w[1];
      CountOverPositive(s, s.dependencies(from), to, steps - 1);
    }
  }

  lemma {:induction false} RecordedPositive(es: seq<Entry>, vendor: string, depth: int)
    ensures Recorded(es, vendor, depth) > 0 <==>
              exists i :: 0 <= i < |es| && es[i].vendor == vendor && es[i].depth == depth
  {
    if es != [] {
      var n := |es| - 1;
      RecordedPositive(es[..n], vendor, depth);
      assert forall i :: 0 <= i < n ==> es[..n][i] == es[i];
    }
  }

  /** The vendors visited from a seed are exactly those at some dependency distance below the limit,
      and each is recorded at the length of a walk that leads to it. */
  lemma VisitsExactlyTheReachable(s: Services, seed: string, maxDepth: int, v: string, d: nat)
    ensures (exists i :: 0 <= i < |Traversal(s, seed, maxDepth, 0)|
               && Traversal(s, seed, maxDepth, 0)[i].vendor == v && Traversal(s, seed, maxDepth, 0)[i].depth == d)
       <==> d < maxDepth && exists w :: WalkBetween(s, w, seed, v, d)
  {
    var es := Traversal(s, seed, maxDepth, 0);
    RecordedPositive(es, v, d);
    RecordedIsWalkCount(s, seed, maxDepth, 0, v, d);
    if WalkCount(s, seed, v, d) > 0 {
      var w := WalkFromCount(s, seed, v, d);
    }
    if w :| WalkBetween(s, w, seed, v, d) {
      CountFromWalk(s, w, seed, v, d);
    }
  }

  /** The CVEs of addresses are those of each, found on its own ports, in order. */
  lemma {:induction false} CvesOfEach(s: Services, a: seq<string>, b: seq<string>)
    ensures CvesOf(s, a + b) == CvesOf(s, a) + CvesOf(s, b)
    ensures forall ip :: CvesOf(s, [ip]) == s.cves(ip, s.ports(ip))
    decreases |b|
  {
    assert forall ip: string :: [ip][..0] == [];
    assert forall cves: seq<string> :: [] + cves == cves;
    if b == [] {
      assert a + b == a && CvesOf(s, a) + [] == CvesOf(s, a);
    } else {
      assert (a + b)[..|a + b| - 1] == a + b[..|b| - 1];
      CvesOfEach(s, a, b[..|b| - 1]);
    }
  }

  /** A vendor comes before what it depends on, and its dependencies in order, those that are no vendors left out. */
  lemma {:induction false} SeedComesFirst(s: Services, vendor: string, maxDepth: int, depth: int)
    requires depth < maxDepth
    ensures var es := Traversal(s, vendor, maxDepth, depth);
            && es != [] && es[0].vendor == vendor && es[0].depth == depth
            && es[1..] == TraversalOver(s, s.dependencies(vendor), maxDepth, depth + 1)
  {
  }

  lemma {:induction false} DependenciesInOrder(s: Services, a: seq<Dependency>, b: seq<Dependency>, maxDepth: int,
                                               depth: int)
    ensures TraversalOver(s, a + b, maxDepth, depth)
         == TraversalOver(s, a, maxDepth, depth) + TraversalOver(s, b, maxDepth, depth)
    ensures forall d: Dependency :: TraversalOver(s, [d], maxDepth, depth)
              == if d.kind == "vendor" then Traversal(s, d.name, maxDepth, depth) else []
    decreases |b|
  {
    hide Traversal;
    forall d: Dependency
      ensures TraversalOver(s, [d], maxDepth, depth)
           == if d.kind == "vendor" then Traversal(s, d.name, maxDepth, depth) else []
    {
      assert [d][..0] == [];
      assert forall es: seq<Entry> :: [] + es == es;
    }
    if b == [] {
      assert a + b == a;
    } else {
      assert (a + b)[..|a + b| - 1] == a + b[..|b| - 1];
      DependenciesInOrder(s, a, b[..|b| - 1], maxDepth, depth);
    }
  }

  /** A record holds what the services answer for its vendor. */
  ghost predicate Faithful(s: Services, e: Entry) {
    && e.dns == s.dns(e.vendor) && e.dependencies == s.dependencies(e.vendor)
    && e.cves == CvesOf(s, s.dns(e.vendor))
  }

  /** Every record of a discovery is faithful. */
  lemma {:induction false} RecordsAreFaithful(s: Services, vendor: string, maxDepth: int, depth: int)
    ensures forall e :: e in Traversal(s, vendor, maxDepth, depth) ==> Faithful(s, e)
    decreases maxDepth - depth, 1, 0
  {
    if depth < maxDepth {
      RecordsAreFaithfulOver(s, s.dependencies(vendor), maxDepth, depth + 1);
    }
  }

  lemma {:induction false} RecordsAreFaithfulOver(s: Services, deps: seq<Dependency>, maxDepth: int, depth: int)
    ensures forall e :: e in TraversalOver(s, deps, maxDepth, depth) ==> Faithful(s, e)
    decreases maxDepth - depth, 2, |deps|
  {
    if deps != [] {
      var n := |deps| - 1;
      RecordsAreFaithfulOver(s, deps[..n], maxDepth, depth);
      if deps[n].kind == "vendor" {
        RecordsAreFaithful(s, deps[n].name, maxDepth, depth);
      }
    }
  }
}
