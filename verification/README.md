# Verified model of the DARIP risk fabric

This project models the parts of the DARIP repository that carry an algorithm or a state machine, and
proves in Dafny what they promise. `dafny verify dfyconfig.toml` checks all of it.

| module | what it models |
|---|---|
| `DiGraphs` | the networkx digraph: node attributes, ordered predecessors, paths, topological orders |
| `CausalInference`, `CausalEffect` | noisy-or propagation over a supply chain, do-interventions, the average causal effect |
| `RiskAlgorithms` | the Bayesian overlay, a second implementation of the same equations |
| `RiskLaws` | what a risk map says of one node in plain arithmetic: its CVEs, its suppliers, one more of either |
| `DiscoveryEngine`, `GraphBuilder`, `DiscoveredRisk` | depth-bounded discovery of vendors, the graph built from what it records, and the risks on it |
| `Subgraph`, `GraphClient`, `GraphLaws` | the in-memory knowledge graph, its operations and the breadth-first query, and what each call leaves there in literal identifiers |
| `JobModels`, `RateLimiter`, `SchedulerSteps`, `SchedulerDelay`, `BudgetLaws`, `Scheduler` | jobs and their order, token buckets, the worker loop on values, calls that start late, when a bucket grants, and the objects the loop changes in place |
| `Smpc` | additive secret sharing |
| `AuditLedger` | the hash-chained ledger |
| `Orchestrator` | the supervisor graph with its human approval gate |
| `BaseConnector` | the circuit breaker, and the request loop with pacing and retries |
| `Secrets` | the sliding-window limit and the secret cache |
| `RemediationEngine`, `GuidedWorkflow` | multi-role approvals, and workflows that wait for evidence |
| `Rbac` | wildcard policies with overriding denials |

How it is modelled. Floating-point numbers are reals. Clock readings, random draws, digests, answers of
language models, executors and HTTP or Vault clients, and the results of library calls (topological
sort, the element a priority queue delivers) are parameters; a predicate states what the library or
the environment promises about them. Objects that the source updates in place are classes whose methods
are proved to do what a function on values does; the lemmas about runs are about those functions.
Products that only get in the way of a proof are hidden with `hide`.

What turned out not to hold of the code, with an input that shows it and the exact condition under which
it does hold:

- The scheduler drops a job without an entry in its log when a comparison of the job's times raises. That is
  so when its time carries a time zone, once it is taken, and when exactly one end of its window is set, or
  both are and one carries a time zone, once it is taken when due (`SchedulerSteps.UnusableJobVanishes`,
  `SchedulerSteps.DroppedIff`). When no added job is such, the jobs added are the jobs queued and executed
  (`SchedulerSteps.UsableJobsConserved`).
- The element that the queue delivers is minimal as long as no job object is put in twice; the second entry of
  one that is changes while it is queued (`Scheduler.QueuedTwiceNotMinimal`).
- Capacity plus refill bound the executor calls of every window, counted at the readings of the clock that
  admit them, even if the clock goes back (`SchedulerSteps.CallsWithinBudget`). Counted when the executor is
  entered, the bound holds of all runs if and only if no time passes in between; with a delay, some run has
  one call more, and the refill of the delay makes up for it (`SchedulerDelay.DelayBreaksBudget`,
  `SchedulerDelay.PlainBudgetIff`, `SchedulerSteps.PromptStartsWithinBudget`).
- A bucket that was full once does not grant whenever its capacity and the refill since then cover one more
  grant: what exceeded the capacity in between is lost (`BudgetLaws.FullBucketNotEnough`). It grants if and
  only if every window that ends with the request has room for it (`BudgetLaws.GrantedIff`).
- The built graph can have a cycle although no vendor depends on itself, when a component's
  `name@version` is also the name of a vendor (`GraphBuilder.ClashBreaksDag`); the graph is a DAG if and
  only if the relation that counts such components as vendors has no cycle (`GraphBuilder.BuiltGraphIsDag`).
- The source of an edge can be missing in the in-memory graph: data sets and model dependencies are hung
  on AI models that nobody need add (`GraphClient.DanglingModel`). After a run both ends of every edge
  are stored if and only if each of these models is added by a call (`GraphClient.FullIntegrityOfRunIff`).
- A circuit breaker with a threshold of zero or below starts CLOSED (`BaseConnector.ClosedRuleIff`).
- A guided workflow that is advanced before it is started passes its first step over
  (`GuidedWorkflow.UnstartedSkipsEvidence`); it completes with all evidence if and only if the first step
  requires none or shares its key with a later step that does (`GuidedWorkflow.UnstartedCompleteIff`).
- Evidence is stored by step id, so steps with one id overwrite each other's: every run keeps each step's
  own evidence if and only if these ids are distinct (`GuidedWorkflow.KeptInAllRunsIff`).
- A playbook that needs approval runs more than once when a handler raises, since the execution stays
  pending (`RemediationEngine.RaisingRunsTwice`); an approval starts it again if and only if every required
  role had approved already, which is so exactly after a handler has raised (`RemediationEngine.ApprovalStartsIff`).
- The denial that keeps auditors from writing does not match a name with a line feed before its end; an
  auditor may write if and only if they are an admin too and the name is such
  (`Rbac.DenialBypassed`, `Rbac.AuditorWritesIff`).
- The ledger's verifier does not cover the content of block 0 nor the end of the ledger, which can be cut off
  or written anew (`AuditLedger.TamperNoticedIff`, `AuditLedger.GenesisIsNotCovered`,
  `AuditLedger.TruncationIsNotNoticed`, `AuditLedger.RewrittenSuffixNotNoticed`).
- Appending can break an intact ledger: an event is hashed as it was given and checked as the file gives it
  back, and keys that are not strings may sort differently then. With a collision-free digest the ledger
  verifies after any appends if and only if it did before and every event comes back as it was hashed
  (`AuditLedger.RunChainedIff`).
- The limit on secret requests, at most 30 in any span shorter than a minute, is kept for all clocks that go
  back by at most `d` if and only if `d` is zero (`Secrets.ClockBackBreaksLimit`, `Secrets.LimitKeptIff`).

## Model

| member | source | states |
|---|---|---|
| DiGraphs.AcyclicIffSortable | predictive_inference/causal_inference.py:22-27 | a graph has a topological order if and only if it has no directed cycle, so the acyclicity test and the sort agree |
| DiGraphs.PathIncreases | predictive_inference/causal_inference.py:27 | along a directed path positions in a predecessors-first order strictly increase |
| DiGraphs.AddNodeKeeps | predictive_inference/graph_builder.py:25 | adding a node writes the attributes given over those it has, and leaves every other node, every edge and their attributes as they are |
| DiGraphs.AddEdgeKeeps | predictive_inference/graph_builder.py:36 | adding an edge writes that edge with its relation and weight, and leaves every other edge and all nodes as they are |
| CausalInference.SafeFromParents | predictive_inference/causal_inference.py:36-45 | the loop over parents computes the product over all parents of the chance that they pass nothing on, never reading the default risk |
| CausalInference.NodeRisk | predictive_inference/causal_inference.py:31-48 | a node is safe with the product of the chances that it is safe from itself and from its parents |
| CausalInference.ComputeObservationalRisk | predictive_inference/causal_inference.py:16-50 | on a DAG the map solves every node's structural equation, whatever the topological order; otherwise it is empty |
| CausalInference.ComputeInterventionalRisk | predictive_inference/causal_inference.py:52-88 | the same with forced nodes taking their forced value and ignoring their parents |
| CausalInference.SolutionUnique | predictive_inference/causal_inference.py:26-50 | the structural equations have one solution, so all topological orders give the same risks |
| CausalInference.ForcingToOwnValues | predictive_inference/causal_inference.py:63-88 | forcing any set of nodes to the values they have anyway changes no risk; with no interventions this is the observational map |
| CausalInference.RisksAreProbabilities | predictive_inference/causal_inference.py:31-48 | with parameters in [0,1] every risk is in [0,1] |
| CausalInference.RiskMonotone | predictive_inference/causal_inference.py:63-88 | raising forced values, adding CVEs and adding or strengthening edges never lowers any risk |
| CausalInference.AddedEdgeNeverLowers | predictive_inference/causal_inference.py:75-86 | an added edge that keeps the graph acyclic never lowers a risk |
| CausalInference.AddedCveNeverLowers | predictive_inference/causal_inference.py:69-73 | a further CVE never lowers a risk |
| CausalInference.SupplierOrderIrrelevant | predictive_inference/causal_inference.py:36-45 | the order in which parents are stored does not matter |
| CausalInference.SafeAntitone | predictive_inference/causal_inference.py:37-45 | more, heavier and riskier parents leave less safety |
| CausalEffect.PathsListed | predictive_inference/causal_inference.py:75-83 | the enumeration used for path sums lists exactly the directed paths between two nodes, each once |
| CausalEffect.EffectAtMostPathSum | predictive_inference/causal_inference.py:90-99 | the causal effect is in [0,1] and at most the sum over all directed paths of the product of (1-u) times weight times causal strength, a bound that a chain meets |
| CausalEffect.EffectAtMostStrengthSum | predictive_inference/causal_inference.py:90-99 | hence it is at most the sum over all directed paths of the product of weight times causal strength |
| CausalEffect.NoPathNoEffect | predictive_inference/causal_inference.py:90-99 | without a directed path the effect is 0 |
| CausalEffect.EffectPositiveIff | predictive_inference/causal_inference.py:90-99 | there is an effect if and only if some directed path of positive weight leads to the target |
| CausalEffect.EffectOnChain | predictive_inference/causal_inference.py:90-99 | on a single chain the effect is exactly the product of (1-u) times weight times causal strength |
| CausalEffect.SafetyGap | predictive_inference/causal_inference.py:39-47 | raising the parents' risks costs at most the sum of their differences in impact |
| CausalEffect.EstimateCausalEffect | predictive_inference/causal_inference.py:90-99 | the estimate is the difference of the two unique solutions, 0 on a cyclic graph, keeps the bounds above, and is positive if and only if a path of positive weight leads to the target |
| RiskAlgorithms.UpstreamSafety | predictive_inference/risk_algorithms.py:74-84 | the overlay's loop computes the same product as the causal model's |
| RiskAlgorithms.EvaluatePosteriorProbabilities | predictive_inference/risk_algorithms.py:56-93 | the posteriors solve the structural equations of the causal model whose strength is the attenuation |
| RiskAlgorithms.OverlayIsScm | predictive_inference/risk_algorithms.py:65-93 | with attenuation equal to causal strength the overlay equals the causal model |
| RiskLaws.RootRisk | predictive_inference/causal_inference.py:27-48 | an unforced node without suppliers has the base risk and 0.2 for every CVE, at most 0.99 |
| RiskLaws.OneSupplierRisk | predictive_inference/causal_inference.py:31-48 | with one supplier its chance to be safe is the product of that and one minus the supplier's risk times weight (1.0 when missing) times causal strength |
| RiskLaws.CveScalesSafety | predictive_inference/causal_inference.py:31-48 | below the cap a further CVE scales the chance to be safe by (1 - base - 0.2(n+1)) to (1 - base - 0.2n) |
| RiskLaws.CveRaisesRiskIff | predictive_inference/causal_inference.py:63-86 | a further CVE raises its node's risk if and only if the node is not forced, the cap is not reached, and no supplier is certain to pass a compromise on |
| RiskLaws.SupplierScalesSafety | predictive_inference/causal_inference.py:75-86 | a further supplier multiplies the chance to be safe by the chance that it passes nothing on |
| RiskLaws.PosteriorRoot | predictive_inference/risk_algorithms.py:67-90 | the overlay's posterior of a node without predecessors is the base risk and 0.2 for every CVE, at most 0.99 |
| RiskLaws.PosteriorOneSupplier | predictive_inference/risk_algorithms.py:74-90 | with one predecessor its chance to be safe is the product of that and one minus the predecessor's posterior times weight times attenuation |
| RiskLaws.PosteriorCve | predictive_inference/risk_algorithms.py:67-90 | a further CVE raises a posterior under the same condition and scales it in the same proportion |
| DiscoveryEngine.DiscoveryOrchestrator.ScanAll | agentic_execution/discovery_engine.py:99-104 | the CVEs found are those of every address in order |
| DiscoveryEngine.DiscoveryOrchestrator.RecursiveTraverse | agentic_execution/discovery_engine.py:90-120 | the recursion ends on any dependencies and appends exactly the traversal of the seed |
| DiscoveryEngine.RecordedIsWalkCount | agentic_execution/discovery_engine.py:90-120 | a vendor is recorded at a depth below the limit once for every dependency walk of that length, cycles included |
| DiscoveryEngine.VisitsExactlyTheReachable | agentic_execution/discovery_engine.py:90-120 | the vendors visited are exactly those that some walk shorter than the limit reaches |
| DiscoveryEngine.RecordsAreFaithful | agentic_execution/discovery_engine.py:109-115 | every record holds what the services answer for its vendor |
| DiscoveryEngine.CvesOfEach | agentic_execution/discovery_engine.py:99-104 | the CVEs of addresses are those of each address on its own ports, in order |
| DiscoveryEngine.SeedComesFirst | agentic_execution/discovery_engine.py:90-120 | the first record is the seed's, then come those of what it depends on |
| DiscoveryEngine.DependenciesInOrder | agentic_execution/discovery_engine.py:117-120 | dependencies are followed in order, and those that are no vendors left out |
| GraphBuilder.SupplyChainGraph.AddEntry | predictive_inference/graph_builder.py:20-43 | one entry adds its vendor, its dependencies and their edges with the weights and all attributes of their kind, and nothing else |
| GraphBuilder.SupplyChainGraph.BuildFromTopology | predictive_inference/graph_builder.py:15-46 | nodes, edges, weights and attributes are exactly those of the last mention in the topology, over what was there before |
| GraphBuilder.GraphHasWhatIsListed | predictive_inference/graph_builder.py:19-43 | the graph has an edge to a vendor from exactly the vendors and name@version components its entries list, and exactly their nodes |
| GraphBuilder.LastMentionDecides | predictive_inference/graph_builder.py:24-43 | the last mention gives a vendor edge SUPPLIES with weight 1.0 or a component edge RUNS with weight 0.8, the node its kind, a component its name and version, and the entry's vendor its depth and CVEs |
| GraphBuilder.UnmentionedStays | predictive_inference/graph_builder.py:19-43 | what an entry does not mention stays as it was |
| GraphBuilder.OrderAndRepetitionIrrelevant | predictive_inference/graph_builder.py:19-43 | node and edge sets do not depend on the order or repetition of entries |
| GraphBuilder.BuiltGraphSuitsModel | predictive_inference/graph_builder.py:36-43 | the weights written are probabilities, as the causal model needs |
| GraphBuilder.BuiltGraphIsDag | predictive_inference/graph_builder.py:19-43 | the graph is a DAG if and only if the supply relation, components that name vendors included, has no cycle |
| GraphBuilder.DagIffVendorsAcyclic | predictive_inference/graph_builder.py:19-43 | unless a component's identifier names a vendor, the graph is a DAG if and only if no vendor depends on itself |
| GraphBuilder.ClashBreaksDag | predictive_inference/graph_builder.py:38-43 | with such a clash the graph can be cyclic although no vendor depends on a vendor |
| DiscoveredRisk.RiskIgnoresOrder | predictive_inference/graph_builder.py:19-43 | topologies with the same entries, agreeing on each vendor, give one risk map, whatever their order and repetitions |
| DiscoveredRisk.DiscoveredRiskIsUnique | agentic_execution/discovery_engine.py:90-120 | so the records of a discovery, in any order, lead to one risk map, with or without interventions |
| Subgraph.ReachIsDistance | semantic_fusion/graph_client.py:589-608 | an id is in the d-th reach set if and only if a walk of at most d edges leads to it |
| Subgraph.NearerIsVisited | semantic_fusion/graph_client.py:589-608 | everything closer to the root than the head of the queue has been visited |
| Subgraph.HeadAtItsDistance | semantic_fusion/graph_client.py:590-593 | an id that leaves the queue for the first time leaves it at its distance |
| Subgraph.VisitKeeps | semantic_fusion/graph_client.py:590-608 | visiting the head and appending its targets keeps the search invariant |
| Subgraph.SkipKeeps | semantic_fusion/graph_client.py:590-592 | skipping a visited id keeps the search invariant |
| Subgraph.ResultIsSubgraph | semantic_fusion/graph_client.py:584-610 | when the queue is empty what was collected is the subgraph asked for |
| GraphClient.Client.Expand | semantic_fusion/graph_client.py:602-608 | expanding an id reports each of its edges once, in order, and queues their targets one level deeper |
| GraphClient.Client.GetNthPartySubgraph | semantic_fusion/graph_client.py:557-610 | the query ends on any graph and returns each stored node within the depth once, by distance, and each edge whose source is nearer than the depth as often as it is stored |
| GraphClient.Client.CreateIdentity | semantic_fusion/graph_client.py:59-82 | merges the given properties into the identity and returns them |
| GraphClient.Client.AddThreatActor | semantic_fusion/graph_client.py:84-96 | replaces the actor's node |
| GraphClient.Client.LinkThreatToIdentity | semantic_fusion/graph_client.py:98-113 | creates both ends and links them |
| GraphClient.Client.AddComponent | semantic_fusion/graph_client.py:115-166 | creates owner and component under its purl or generated one, and links them |
| GraphClient.Client.LinkVulnerabilitiesToComponent | semantic_fusion/graph_client.py:168-203 | only for a stored component and a non-empty list, sets its scores and links every CVE |
| GraphClient.Client.LinkEach | semantic_fusion/graph_client.py:193-202 | the loop over CVEs creates missing nodes and adds one edge for each |
| GraphClient.Client.AddDeviceAndVulnerabilities | semantic_fusion/graph_client.py:205-225 | creates or updates the device |
| GraphClient.Client.LinkDeviceToComponent | semantic_fusion/graph_client.py:227-251 | creates missing ends and links them |
| GraphClient.Client.AddAiModel | semantic_fusion/graph_client.py:253-311 | creates owner and model and links them |
| GraphClient.Client.AddDataset | semantic_fusion/graph_client.py:313-349 | stores the data set and hangs it on the model, stored or not |
| GraphClient.Client.LinkModelDependency | semantic_fusion/graph_client.py:351-382 | creates the missing dependency and hangs it on the model, stored or not |
| GraphClient.Client.AddBinaryAnalysisReport | semantic_fusion/graph_client.py:384-427 | stores the report and links it from the component, else from the model, else not at all |
| GraphClient.ApplyKeepsSound | semantic_fusion/graph_client.py:59-427 | every operation keeps every edge's target stored, and its source unless it is an AI model |
| GraphClient.RunIsSound | semantic_fusion/graph_client.py:59-427 | so does any sequence of operations from the empty store |
| GraphClient.NodesStay | semantic_fusion/graph_client.py:59-427 | no operation removes a node |
| GraphClient.FullIntegrityIff | semantic_fusion/graph_client.py:313-382 | an operation keeps both ends of every edge stored if and only if the model it assumes is stored |
| GraphClient.FullIntegrityOfRunIff | semantic_fusion/graph_client.py:313-382 | after a run both ends of every edge are stored if and only if every model that a data set or a dependency was hung on is added by some call |
| GraphClient.DanglingModel | semantic_fusion/graph_client.py:344-348 | a data set for a model nobody stored leaves an edge without a source |
| GraphClient.AnswersAreClosed | semantic_fusion/graph_client.py:584-610 | both ends of every edge returned from an identity are among the returned nodes |
| GraphClient.ReachableAnswersAreClosed | semantic_fusion/graph_client.py:584-610 | that holds after any operations on the empty store |
| GraphLaws.EdgesOfCall | semantic_fusion/graph_client.py:59-427 | each call appends exactly its own edges, with literal ends, kind and properties, or none |
| GraphLaws.IdentityOfCall | semantic_fusion/graph_client.py:59-82 | an identity keeps what it has and gets its name, type, and the score and tier given |
| GraphLaws.ActorOfCall | semantic_fusion/graph_client.py:84-113 | a threat actor is replaced by its name and type, and the identity it is linked to is stored |
| GraphLaws.ComponentOfCall | semantic_fusion/graph_client.py:115-166 | a component is replaced by its own fields and what is known of its origin, else the defaults, and its owner is stored |
| GraphLaws.ModelOfCall | semantic_fusion/graph_client.py:253-311 | a model is replaced by its own fields and what is known of its architecture, else the defaults, and its owner is stored |
| GraphLaws.DeviceOfCall | semantic_fusion/graph_client.py:205-225 | a device keeps what it has and gets its ports, CVEs and time |
| GraphLaws.DeviceLinkOfCall | semantic_fusion/graph_client.py:227-251 | linking a device creates the missing ends and leaves stored ones alone |
| GraphLaws.DependencyOfCall | semantic_fusion/graph_client.py:351-382 | a dependency is created when it is missing and otherwise left alone |
| GraphLaws.DatasetOfCall | semantic_fusion/graph_client.py:313-349 | a data set is replaced by the fields given, null where nothing is |
| GraphLaws.ReportOfCall | semantic_fusion/graph_client.py:384-427 | a report is replaced by its finding |
| GraphLaws.VulnerabilitiesOfCall | semantic_fusion/graph_client.py:189-203 | the component gets its two scores, missing vulnerabilities are created, and nothing else changes |
| GraphLaws.EdgesRunTheirWay | semantic_fusion/graph_client.py:59-427 | in every run the kind of an edge says where it starts and where it ends, so that no edge runs the other way |
| GraphLaws.GraphIsAcyclic | semantic_fusion/graph_client.py:59-427 | of two ids each reached from the other there is only one |
| GraphLaws.ComponentIsFound | semantic_fusion/graph_client.py:115-166 | whatever is done afterwards, a query from the owner of depth one or more lists the component and returns the DEVELOPED edge from the owner to it |
| GraphLaws.ModelIsFound | semantic_fusion/graph_client.py:253-311 | the same of an AI model |
| GraphLaws.LinksAreReached | semantic_fusion/graph_client.py:98-427 | every linking call leaves its target one step from the end the call starts at |
| GraphLaws.AnswerIsNeighbourhood | semantic_fusion/graph_client.py:584-610 | the answer lists an id if and only if it is stored and a walk within the depth leads to it, and an edge if and only if a shorter walk leads to its source, as often as it is stored |
| GraphLaws.DeeperIsNoMore | semantic_fusion/graph_client.py:557-610 | nothing is more than three steps from an identity, so a query deeper than the default answers no more than the default |
| JobModels.LessIsStrictWeakOrder | orchestration/models.py:28-32 | the order of jobs is a strict weak order, as a priority queue needs |
| JobModels.MinimalMeans | orchestration/models.py:28-32 | a minimal job is one than which none is more urgent, and none as urgent is scheduled earlier |
| RateLimiter.Limiter.Consume | orchestration/scheduler.py:22-31 | the bucket refills by the elapsed time up to its capacity and grants if and only if it holds enough |
| RateLimiter.RefillComposes | orchestration/scheduler.py:23-26 | refilling on the way makes no difference |
| RateLimiter.RefusalLeavesNoTrace | orchestration/scheduler.py:22-31 | a refused request changes no later answer and no later state |
| RateLimiter.OnlyGrantsMatter | orchestration/scheduler.py:22-31 | leaving out all refused requests of a history, the rest is granted again and the buckets agree |
| RateLimiter.GrantPaced | orchestration/scheduler.py:22-31 | a grant that is used keeps every window within the capacity and the refill rate times its length, whatever the clock reads |
| RateLimiter.StartsCount | orchestration/scheduler.py:208-224 | uses that start after their grant and before the next one number at most one more in any window |
| SchedulerSteps.WindowIsAnArc | orchestration/scheduler.py:118-130 | a time is inside the window if and only if the clock face turning from the start meets it before the end, over midnight or not |
| SchedulerSteps.NoWindowNoLimit | orchestration/scheduler.py:118-121 | a job without a window is always inside |
| SchedulerSteps.LostIff | orchestration/scheduler.py:118-193 | an iteration drops its job if and only if the job's time carries a zone, or it is due and its window has one end only or an end with a zone |
| SchedulerSteps.UnusableJobVanishes | orchestration/scheduler.py:251-253 | such a job is gone after one iteration without an entry in the log |
| SchedulerSteps.CalledIff | orchestration/scheduler.py:175-224 | the executor is called if and only if the job is due, in its window, not held back by the model, and let through by both buckets, each of which gives a token |
| SchedulerSteps.CallOutcome | orchestration/scheduler.py:221-245 | a failed call puts the job back 2^n seconds and the jitter later, at most 1.5 times 2^n, a successful one finishes it, and the log says so |
| Prelude.Pow2Adds | orchestration/scheduler.py:231 | the power of two of the backoffs: two to the first is two, and exponents add up |
| SchedulerSteps.HeldBack | orchestration/scheduler.py:175-202 | a job not due goes back as it is, one outside its window for 60 seconds, one the model holds back for as long as the model says, and no limiter is asked |
| SchedulerSteps.RefusedByLimiter | orchestration/scheduler.py:204-219 | a job a limiter refuses is put back for 5 seconds; the domain's token is gone even when the IP refuses, and the IP is not asked when the domain refuses |
| SchedulerSteps.IterateMoves | orchestration/scheduler.py:170-247 | an iteration puts its job in exactly one place, with at most one log entry of its own |
| SchedulerSteps.JobsConserved | orchestration/scheduler.py:170-253 | after any run the jobs added are those queued, executed and dropped |
| SchedulerSteps.UsableJobsConserved | orchestration/scheduler.py:170-253 | when no comparison of an added job's times raises, the jobs added are the jobs queued and executed |
| SchedulerSteps.DroppedIff | orchestration/scheduler.py:175-193 | an added job is dropped if and only if its time carries a zone and it has been taken, or its window raises and it has been taken when due |
| SchedulerSteps.UnusableNeverExecuted | orchestration/scheduler.py:175-193 | a job added with times whose comparison raises is never executed |
| SchedulerSteps.ForemostJobBlocks | orchestration/scheduler.py:173-184 | a job before all others that is more than a second ahead holds them up: nothing is executed, logged or dropped and no limiter asked until its time comes |
| SchedulerSteps.LogAccountsForAttempts | orchestration/scheduler.py:132-138 | each job's attempts are its "backoff" and "executed" entries, and exactly the executed jobs have one "executed" entry |
| SchedulerSteps.CallsWithinBudget | orchestration/scheduler.py:204-224 | over any events and whatever the clock reads, the calls admitted in any window for one domain, or one source IP, are at most the capacity plus the refill rate times the length of the window |
| SchedulerSteps.StartsWithinBudget | orchestration/scheduler.py:204-224 | while the clock does not go back, the calls entered in a window are at most one more, per domain and per source IP |
| SchedulerSteps.PromptStartsWithinBudget | orchestration/scheduler.py:204-224 | when every call is made within a delay of its admission, they are within capacity plus refill of a window longer by the delay |
| SchedulerDelay.DelayBreaksBudget | orchestration/scheduler.py:204-224 | for every positive delay some run exceeds capacity plus refill in a window, for a domain and for an IP |
| SchedulerDelay.PlainBudgetIff | orchestration/scheduler.py:204-224 | the plain bound holds of all runs, counted when the executor is entered, if and only if the delay is zero |
| BudgetLaws.GrantedIff | orchestration/scheduler.py:16-31 | while the clock does not go back a request is granted if and only if, counting it, no window that ends with it holds more grants than the capacity plus the refill rate times its length |
| BudgetLaws.FullBucketNotEnough | orchestration/scheduler.py:22-31 | room in the window since the bucket was full first is not enough: what exceeds the capacity is lost |
| BudgetLaws.ModeBudget | orchestration/scheduler.py:99-100 | in slow mode a window holds at most 10 calls and 0.5 for every second, otherwise 100 and 10 for every second |
| BudgetLaws.ModeGrantedIff | orchestration/scheduler.py:99-100 | in the numbers of the mode, a request is granted if and only if every window that ends with it has room |
| BudgetLaws.FreshKeysAdmitted | orchestration/scheduler.py:108-224 | a first call for a domain from a new source IP is let through at once and leaves each bucket one token short of full |
| Scheduler.IntelligentScheduler.AddJob | orchestration/scheduler.py:140-145 | puts a job into the queue |
| Scheduler.IntelligentScheduler.Take | orchestration/scheduler.py:173 | the job delivered is minimal as the jobs are now, because no queued job has changed since it was put |
| Scheduler.QueuedTwiceNotMinimal | orchestration/scheduler.py:170-193 | with one job object in the queue twice, the element delivered is not minimal as the jobs are now |
| Scheduler.IntelligentScheduler.LogDecision | orchestration/scheduler.py:132-138 | appends one entry |
| Scheduler.IntelligentScheduler.Postpone | orchestration/scheduler.py:190-193 | logs, sets the new time on the job and puts it back |
| Scheduler.IntelligentScheduler.GetTargetLimiter | orchestration/scheduler.py:108-111 | finds the limiter of a domain or creates a full one |
| Scheduler.IntelligentScheduler.GetIpLimiter | orchestration/scheduler.py:113-116 | finds the limiter of a source IP or creates a full one |
| Scheduler.IntelligentScheduler.CountAttempt | orchestration/scheduler.py:220-224 | a call of the executor is an attempt of the job |
| Scheduler.IntelligentScheduler.Execute | orchestration/scheduler.py:221-247 | counts the attempt, and finishes the job or backs off |
| Scheduler.IntelligentScheduler.Admit | orchestration/scheduler.py:204-247 | asks the domain's limiter, then the IP's, and executes when both grant |
| Scheduler.IntelligentScheduler.AdmitFromIp | orchestration/scheduler.py:214-247 | asks the IP's limiter, and executes when it grants |
| Scheduler.IntelligentScheduler.WorkOnce | orchestration/scheduler.py:170-253 | one iteration on the objects does what the step on values does, when no job object is queued twice, and keeps that |
| Smpc.SecureMultiPartyComputation.GenerateShares | predictive_inference/smpc.py:17-36 | the shares are the draws and the one that completes them; too few parties or a modulo below one is an error |
| Smpc.SecureMultiPartyComputation.SecureAggregate | predictive_inference/smpc.py:38-54 | the result is the sum of all shares modulo the modulus, of whatever sign; a modulus of zero is an error |
| Smpc.SumConcat | predictive_inference/smpc.py:45-53 | the sum of one number is the number, and that of two lists the sum of theirs |
| Smpc.TotalConcat | predictive_inference/smpc.py:45-53 | the total of one row is its sum, and that of two tables the sum of theirs |
| Smpc.FloorModIsRemainder | predictive_inference/smpc.py:49-53 | the remainder is congruent to the dividend and lies between zero and the modulus |
| Smpc.SharesReconstruct | predictive_inference/smpc.py:25-36 | the draws come first, the shares are in range and sum to the secret, whatever was drawn |
| Smpc.RedistributionKeepsTotal | predictive_inference/smpc.py:38-43 | handing shares out by party exchanges the double sum |
| Smpc.AggregateIsSumOfSecrets | predictive_inference/smpc.py:38-54 | the aggregate of redistributed shares is the sum of the secrets |
| Smpc.ExactlyOneCompletion | predictive_inference/smpc.py:32-34 | for any fixed other shares and any value exactly one share in range reconstructs it |
| Smpc.ViewHidesSecret | predictive_inference/smpc.py:17-36 | whatever the secret, exactly one sequence of draws leads to a given view of all shares but one |
| AuditLedger.ImmutableAuditLedger.EnsureLedgerExists | governance/audit_ledger.py:19-31 | a missing file gets the genesis block, an existing one stays |
| AuditLedger.GenesisIs | governance/audit_ledger.py:21-29 | the first block has index 0, the event of its kind, 64 zeros before it, and its own digest |
| AuditLedger.ImmutableAuditLedger.AppendEvent | governance/audit_ledger.py:41-60 | returns the block chained to the last, with the event, the time and its own digest, and appends it as the file gives it back |
| AuditLedger.ImmutableAuditLedger.VerifyIntegrity | governance/audit_ledger.py:62-80 | true if and only if every block from index 1 names the hash before it and carries its own digest, or there is no file |
| AuditLedger.RunKeeps | governance/audit_ledger.py:41-60 | appends keep the old ledger as a prefix and block i at index i, never mend a broken chain, and keep an intact one when every event comes back as it was hashed |
| AuditLedger.RunHolds | governance/audit_ledger.py:46-57 | every call has its block, in order, with its event as reloaded, its time and the hash of the block before |
| AuditLedger.FromGenesis | governance/audit_ledger.py:19-60 | from genesis any events that come back as they were hashed verify |
| AuditLedger.RunChainedIff | governance/audit_ledger.py:33-80 | with a collision-free digest a ledger verifies after appends if and only if it did before and every event comes back as it was hashed |
| AuditLedger.SameLastHash | governance/audit_ledger.py:62-80 | two verifying ledgers of one length and one last hash agree from block 1 on, or exhibit a collision of the digest |
| AuditLedger.LastHashCommits | governance/audit_ledger.py:62-80 | with an injective digest they have one last hash if and only if they agree from block 1 on and on the hash of block 0 |
| AuditLedger.TamperNoticedIff | governance/audit_ledger.py:70-78 | replacing any one block is noticed always in the middle, for the first of several when its hash changes, and for the last when it does not continue the ledger |
| AuditLedger.GenesisIsNotCovered | governance/audit_ledger.py:70-78 | block 0 can be rewritten under its hash |
| AuditLedger.TruncationIsNotNoticed | governance/audit_ledger.py:70-80 | a prefix of a verifying ledger verifies |
| AuditLedger.RewrittenSuffixNotNoticed | governance/audit_ledger.py:41-80 | whatever comes back as it was hashed can follow a prefix of a verifying ledger, so any suffix can be replaced |
| Orchestrator.SupervisorNode | agentic_execution/orchestrator.py:63-100 | the human gate is chosen if and only if approval is required and missing; otherwise the first worker named, else, before three messages, the first of compliance, discovery and assessment that nobody mentioned |
| Orchestrator.StepsOfGraph | agentic_execution/orchestrator.py:112-190 | a request begins a run at the supervisor with the flags cleared and what was said kept, unless the thread waits; an approval lets it go on; the supervisor sends it where it says; a worker leads back to the supervisor |
| Orchestrator.StepKeepsInv | agentic_execution/orchestrator.py:121-190 | every step of the graph and every service call keeps the gate's invariant |
| Orchestrator.NoWorkBeforeApproval | agentic_execution/orchestrator.py:84-108 | after a marked answer no worker runs in that run unless the approval node has run in it |
| Orchestrator.MarkedIff | agentic_execution/agents.py:97-102 | a worker is marked if and only if its answer carries the marker or some message before it does |
| Orchestrator.MessagesAreSaid | agentic_execution/agents.py:90-102 | the conversation holds every request and every answer, in order |
| Orchestrator.EscalatesIff | agentic_execution/orchestrator.py:84-87 | the supervisor sends a thread to wait for approval if and only if a worker was marked in its run and the approval node has not run in it |
| Orchestrator.WaitsForApproval | agentic_execution/orchestrator.py:154-158 | a thread that waits for approval stays as it is, whatever is asked of it, until it is approved |
| Orchestrator.ContainsIff | agentic_execution/agents.py:99 | a text is in another if and only if the other is it with something before and after |
| Orchestrator.HumanRunsOnlyOnApproval | agentic_execution/orchestrator.py:147-190 | the approval node runs once for each approval of a waiting thread and never otherwise |
| BaseConnector.CircuitBreaker.RecordFailure | data_ingestion/passive/base_connector.py:30-35 | counts the failure and opens at the threshold |
| BaseConnector.CircuitBreaker.RecordSuccess | data_ingestion/passive/base_connector.py:37-41 | closes and clears the count |
| BaseConnector.CircuitBreaker.CanExecute | data_ingestion/passive/base_connector.py:43-53 | refuses if and only if, since the last success, at least as many failures as allowed have come, the last no longer ago than the timeout, and nobody has asked since when that had passed |
| BaseConnector.RefusedIff | data_ingestion/passive/base_connector.py:30-53 | over any calls the breaker refuses exactly the requests that the history of its calls says it should, and none once the timeout has passed since the last failure |
| BaseConnector.ClosedIffBelowThreshold | data_ingestion/passive/base_connector.py:30-53 | with a positive threshold the breaker is CLOSED exactly while the failures since the last success are below it |
| BaseConnector.ClosedRuleIff | data_ingestion/passive/base_connector.py:23-28 | that holds in all reachable states if and only if the threshold is positive |
| BaseConnector.BackoffIs | data_ingestion/passive/base_connector.py:86-90 | a backoff is two to the number of the attempt and the jitter, at most 60 seconds |
| BaseConnector.RequestMeans | data_ingestion/passive/base_connector.py:124-186 | attempts go on while outcomes are temporary and some are left, and the last one decides the answer |
| BaseConnector.ReportsMean | data_ingestion/passive/base_connector.py:137-170 | the breaker learns of each failed attempt with its time and of a response, whatever it holds, as a success |
| BaseConnector.BackoffWithinLimits | data_ingestion/passive/base_connector.py:86-90 | the total backoff is at most 60 seconds a retry and at most 1.1 times (2^retries - 1) |
| BaseConnector.BaseAPIConnector.RateLimit | data_ingestion/passive/base_connector.py:76-84 | the new stamp is at least the minimal interval after the last |
| BaseConnector.BaseAPIConnector.Settle | data_ingestion/passive/base_connector.py:126-170 | an outcome ends the request or is retried, and the breaker learns of it, as its kind says |
| BaseConnector.BaseAPIConnector.SpacedStamps | data_ingestion/passive/base_connector.py:124-125 | attempts are at least the minimal interval apart, from the request before on |
| BaseConnector.BaseAPIConnector.BackoffsAreWaited | data_ingestion/passive/base_connector.py:169-175 | each retry comes at least its backoff after the attempt before |
| BaseConnector.BaseAPIConnector.ExecuteRequest | data_ingestion/passive/base_connector.py:92-196 | fails fast if and only if the breaker refuses, never once the timeout has passed since the last failure; otherwise at most max_retries + 1 attempts, spaced, each after its backoff, with the answer and the reports they lead to |
| Secrets.RecentOfRecent | core/secrets.py:55-58 | pruning a pruned list is pruning the whole history |
| Secrets.RecentConcat | core/secrets.py:56 | pruning keeps the order, and of each reading keeps those less than 60 seconds old |
| Secrets.AtMostThirtyPerMinute | core/secrets.py:52-63 | at most 30 requests are granted in any span shorter than a minute |
| Secrets.PruningIsSafe | core/secrets.py:52-63 | while the clock does not go back, the pruned list grants what the whole history would, at most 30 in any span shorter than a minute |
| Secrets.GrantedIffFew | core/secrets.py:52-63 | while the clock does not go back a request is granted if and only if fewer than 30 were in the minute that ends with it |
| Secrets.ClockBackBreaksLimit | core/secrets.py:52-63 | when it goes back by however little, 31 requests can be granted in a span shorter than a minute |
| Secrets.LimitKeptIff | core/secrets.py:52-63 | the limit is kept for all clocks that go back by at most d if and only if d is zero |
| Secrets.VaultSecretManager.CheckRateLimit | core/secrets.py:52-63 | a request is granted if and only if the pruned list holds fewer than 30; while the clock has not gone back, that list is the grant history of the last minute |
| Secrets.VaultSecretManager.GetSecret | core/secrets.py:65-99 | an unexpired entry is returned and otherwise the Vault's answer, which is cached; while the clock has not gone back, a hit is the last value fetched, less than the lifetime ago |
| RemediationEngine.Remediation.ExecuteAutomatedPlaybook | remediation/engine.py:120-139 | succeeds if and only if every action is registered and succeeds, and raises if and only if the first handler that does not succeed raises |
| RemediationEngine.Remediation.StartGuidedWorkflow | remediation/engine.py:141-145 | creates a workflow, registers it under its identifier and starts it, leaving all others alone |
| RemediationEngine.Remediation.GetWorkflow | remediation/engine.py:147-148 | returns the workflow registered under an identifier, if there is one |
| RemediationEngine.Remediation.ProcessInsight | remediation/engine.py:76-118 | runs, submits for approval, or starts a guided workflow, as the playbook says, and tells success if and only if every action is registered and succeeds, an exception if and only if the first handler that does not succeed raises, and failure otherwise |
| RemediationEngine.Remediation.ApproveAction | remediation/engine.py:150-173 | records a required role, runs the playbook when all have approved and tells how it went, otherwise which roles are missing, and closes the execution unless a handler raises |
| RemediationEngine.Remediation.RejectAction | remediation/engine.py:175-184 | closes a pending execution |
| RemediationEngine.RunIsLawful | remediation/engine.py:94-184 | in every reachable state the required roles are non-empty and the approved ones among them, a proper part exactly while no handler of the execution has raised |
| RemediationEngine.StartsWhenAllApproved | remediation/engine.py:150-184 | a playbook is started only after every required role approved, in any order, never after a rejection, and once it has run nothing more happens to it |
| RemediationEngine.StartedAgainOnlyAfterCrash | remediation/engine.py:150-168 | it is started a second time only when a handler raised at the first |
| RemediationEngine.ApprovalStartsIff | remediation/engine.py:158-168 | an approval starts the playbook if and only if all other required roles have approved, and again if and only if a handler has raised |
| RemediationEngine.NotFoundIff | remediation/engine.py:154-155 | an approver is told that there is no such execution if and only if it was never submitted, has run, or was refused |
| RemediationEngine.ApprovalAnswers | remediation/engine.py:157-173 | otherwise that the role is none of those submitted, or which of the others are missing, if any; when none is, the playbook is run, and the execution is closed unless a handler raises |
| RemediationEngine.PendingWasSubmitted | remediation/engine.py:94-104 | a pending execution holds the playbook it was submitted with and needs the roles that playbook names, else the analyst |
| RemediationEngine.RaisingRunsTwice | remediation/engine.py:163-167 | an execution whose handler raises runs again at the next approval |
| RemediationEngine.WorkflowsStayOrderly | remediation/engine.py:141-148 | every workflow the engine started, after any calls on it, has its mode determined by its step, and all its evidence when it is COMPLETED |
| GuidedWorkflow.Workflow.Begin | remediation/workflows/guided_workflow.py:29-32 | starting evaluates the first step |
| GuidedWorkflow.Workflow.Advance | remediation/workflows/guided_workflow.py:54-64 | moves on unless evidence is waited for |
| GuidedWorkflow.Workflow.SubmitEvidence | remediation/workflows/guided_workflow.py:66-84 | stores evidence under the step's id and moves on, only while it is waited for |
| GuidedWorkflow.StartedStaysOrderly | remediation/workflows/guided_workflow.py:29-84 | the state is determined by the current step, and COMPLETED implies evidence for every step that requires it |
| GuidedWorkflow.NeverFails | remediation/workflows/guided_workflow.py:74 | no sequence of calls runs off the end of the steps |
| GuidedWorkflow.SubmissionIsStored | remediation/workflows/guided_workflow.py:66-84 | evidence waited for is stored under the id of the current step, or "step_" and its number, and the workflow moves on |
| GuidedWorkflow.DigitsRead | remediation/workflows/guided_workflow.py:75 | the digits of a number read as the number, so steps without an id have different keys |
| GuidedWorkflow.UnstartedSkipsEvidence | remediation/workflows/guided_workflow.py:58-64 | a workflow advanced before its start completes without the first step's evidence |
| GuidedWorkflow.UnstartedCompleteIff | remediation/workflows/guided_workflow.py:54-84 | a workflow advanced before its start completes with all evidence if and only if the first step requires none or its key is used by a later step that does |
| GuidedWorkflow.UnstartedStaysPending | remediation/workflows/guided_workflow.py:34-52 | a step without evidence leaves the mode as it is, so a workflow that only passes such steps and was never started is still PENDING |
| GuidedWorkflow.OwnEvidenceKeptIff | remediation/workflows/guided_workflow.py:66-84 | each step's own evidence is kept if and only if steps with one key were given the same |
| GuidedWorkflow.KeptInAllRunsIff | remediation/workflows/guided_workflow.py:75-78 | that is so in every started run if and only if the steps that require evidence have different keys |
| Rbac.MatchIffSplits | governance/rbac.py:49-53 | a pattern matches exactly the targets that split along its literal pieces with one-line texts between them |
| Rbac.AppliesIff | governance/rbac.py:68-71 | a policy applies if and only if one of its actions matches the action and one of its resources the resource |
| Rbac.JudgePolicies | governance/rbac.py:67-75 | the policies of one role deny, allow or say nothing |
| Rbac.IsAuthorized | governance/rbac.py:56-77 | true if and only if some policy of some held role allows and none denies |
| Rbac.OrderIrrelevant | governance/rbac.py:62-77 | the answer does not depend on the order or repetition of held roles |
| Rbac.AuthorizedByTable | governance/rbac.py:14-77 | what the roles permit and forbid, action by action, for any set of held roles and any resource |
| Rbac.AuditorWritesIff | governance/rbac.py:14-53 | whoever holds the auditor role may write if and only if they are an admin too and the name has a line feed before its end |
| Rbac.DenialBypassed | governance/rbac.py:48-53 | an auditor who is an admin too may write a name of two lines |

## Left out

- Scheduler.IntelligentScheduler.WorkOnce: requires that no job object is in the queue twice; the second entry would change with the first.
- SchedulerSteps.LogAccountsForAttempts: for runs in which job identifiers are unique, as generated ones are.
- SchedulerSteps.JobsConserved: an iteration is one step; jobs added while it waits count as added before or after it, and an iteration cut off by `stop` is not modelled. Nor are jobs of one priority of which some times carry a zone and some do not: the queue itself raises when it compares them.
- CausalInference.ComputeInterventionalRisk: floats are reals, so rounding is not captured; the acyclicity test and the sort are library calls, described by what they promise.
- Scheduler.IntelligentScheduler.Postpone: dates that overflow after dozens of doublings of the backoff are not modelled.
- Rbac.MatchIffSplits: characters of a pattern other than the star stand for themselves; the role table uses no others that a regular expression reads differently.
- AuditLedger.ImmutableAuditLedger.AppendEvent: the file is a list of blocks; the text of an event, when it is hashed and when it has been loaded again, is a parameter. An event without a JSON text, which fails before anything is written, and blocks with keys missing are not modelled.
- GraphClient.Client.AddDataset: a returned dictionary that the caller changes later is not modelled.
- GraphClient.Client.AddBinaryAnalysisReport: the text of the feature dictionary is a parameter.
- Orchestrator.SupervisorNode: the text that Python shows of a message is a parameter; the names searched for have no separator of the list in them.
- RemediationEngine.Remediation.ProcessInsight: the choice of the playbook and the update of the learned policy are not modelled.
- Orchestrator.NoWorkBeforeApproval: one thread at a time; a graph that stops in the middle may go on or start anew, which the steps allow.
- Neo4j, Kafka, Faust, Spark, HTTP, gRPC, GraphQL and the connectors: input and output, or code not in the repository.
- PageRank, the learned schedule and the neural models: their numbers come from libraries.
- `get_prioritized_risks` and the remediation texts: a formula and fixed strings.
- The reinforcement-learning policy, `simulate_insight`, SBOM and MBOM parsers, data minimisation: one arithmetic step or field copying.
