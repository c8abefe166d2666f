/**
 remediation/engine.py: playbooks that run at once, playbooks that wait until every required role has
 approved them, and guided workflows. The selected playbook, fresh identifiers and the answers of
 the action handlers are parameters.
 */
module RemediationEngine {
  import opened Prelude
  import GW = GuidedWorkflow

  const KNOWN_ACTIONS := {"network_segmentation", "soar_integration", "vendor_communication", "compensating_controls"}

  /** The steps of an automated playbook are its actions, those of a guided one its workflow steps. */
  datatype Playbook = Playbook(
    id: string, kind: string, actions: seq<string>, steps: seq<GW.WorkflowStep>, requiresApproval: bool,
        approvalRoles: seq<string>)

  datatype Pending = Pending(playbook: Playbook, approved: set<string>, required: set<string>)

  datatype Status =
    NoPlaybookFound | AwaitingApproval(id: string) | Succeeded | Failed | Guided(id: string) | UnknownType
    | NotFound | InvalidRole | AwaitingFurther(remaining: set<string>) | Rejected | Exception

  /** `set(approval_roles or ["SOC_ANALYST"])` */
  function RequiredRoles(p: Playbook): set<string> {
    if p.approvalRoles == [] then {"SOC_ANALYST"} else set r | r in p.approvalRoles
  }

  // ---------- running a playbook ----------

  /** What the handler of an action does when it is called. */
  datatype Reply = Succeeds | Fails | Raises

  datatype Outcome = Done(success: bool) | Raised

  /** The action is registered and its handler succeeds, so that the next one is tried. */
  predicate Passes(p: Playbook, replies: nat -> Reply, i: nat)
    requires i < |p.actions|
  {
    p.actions[i] in KNOWN_ACTIONS && replies(i) == Succeeds
  }

  function OutcomeFrom(p: Playbook, replies: nat -> Reply, i: nat): Outcome
    requires i <= |p.actions|
    decreases |p.actions| - i
  {
    if i == |p.actions| then Done(true)
    else if p.actions[i] !in KNOWN_ACTIONS then Done(false)
    else
      match replies(i)
      case Raises => Raised
      case Fails => Done(false)
      case Succeeds => OutcomeFrom(p, replies, i + 1)
  }

  /** The first action that does not pass decides. */
  lemma {:induction false} FirstDecides(p: Playbook, replies: nat -> Reply, i: nat, k: nat)
    requires i <= k < |p.actions| && !Passes(p, replies, k)
    requires forall j :: i <= j < k ==> Passes(p, replies, j)
    ensures OutcomeFrom(p, replies, i) == if p.actions[k] in KNOWN_ACTIONS && replies(k) == Raises then Raised
              else Done(false)
    decreases k - i
  {
    if i < k {
      assert Passes(p, replies, i);
      FirstDecides(p, replies, i + 1, k);
    }
  }

  lemma {:induction false} AllPass(p: Playbook, replies: nat -> Reply, i: nat)
    requires i <= |p.actions|
    requires forall j :: i <= j < |p.actions| ==> Passes(p, replies, j)
    ensures OutcomeFrom(p, replies, i) == Done(true)
    decreases |p.actions| - i
  {
    if i < |p.actions| {
      assert Passes(p, replies, i);
      AllPass(p, replies, i + 1);
    }
  }

  /** The handler of action `i` is reached, and raises. */
  ghost predicate RaisesAt(p: Playbook, replies: nat -> Reply, i: int)
  {
    && 0 <= i < |p.actions| && p.actions[i] in KNOWN_ACTIONS && replies(i) == Raises
    && forall j :: 0 <= j < i ==> Passes(p, replies, j)
  }

  lemma OnlyFirstRaises(p: Playbook, replies: nat -> Reply, k: nat)
    requires k < |p.actions| && !Passes(p, replies, k) && forall j :: 0 <= j < k ==> Passes(p, replies, j)
    ensures (exists i :: RaisesAt(p, replies, i)) <==> RaisesAt(p, replies, k)
  {
    forall i | i != k
      ensures !RaisesAt(p, replies, i)
    {
      if 0 <= i < k {
        assert Passes(p, replies, i);
      }
    }
  }

  lemma NoneRaises(p: Playbook, replies: nat -> Reply)
    requires forall j :: 0 <= j < |p.actions| ==> Passes(p, replies, j)
    ensures !exists i :: RaisesAt(p, replies, i)
  {
    forall i
      ensures !RaisesAt(p, replies, i)
    {
      if 0 <= i < |p.actions| {
        assert Passes(p, replies, i);
      }
    }
  }

  function OutcomeOf(p: Playbook, replies: nat -> Reply): Outcome {
    OutcomeFrom(p, replies, 0)
  }

  function StatusOf(o: Outcome): Status {
    match o
    case Done(success) => if success then Succeeded else Failed
    case Raised => Exception
  }

  /** What the caller is told of a playbook that was run: success when every action is one of the four registered
      ones and its handler succeeds, an exception when the first handler that does not succeed raises, and
      failure otherwise. */
  ghost predicate TellsOf(p: Playbook, replies: nat -> Reply, status: Status) {
    && (status == Succeeded <==>
        forall i :: 0 <= i < |p.actions| ==>
          p.actions[i] in {"network_segmentation", "soar_integration", "vendor_communication", "compensating_controls"}
          && replies(i) == Succeeds)
    && (status == Exception <==> exists i :: RaisesAt(p, replies, i))
    && (status == Succeeded || status == Exception || status == Failed)
  }

  lemma StatusTells(p: Playbook, replies: nat -> Reply)
    ensures TellsOf(p, replies, StatusOf(OutcomeOf(p, replies)))
    ensures OutcomeOf(p, replies) == Raised ==> TellsOf(p, replies, Exception)
  {
    if k :| 0 <= k < |p.actions| && !Passes(p, replies, k) && forall j :: 0 <= j < k ==> Passes(p, replies, j) {
      FirstDecides(p, replies, 0, k);
      OnlyFirstRaises(p, replies, k);
    } else {
      FirstFailure(p, replies);
      AllPass(p, replies, 0);
      NoneRaises(p, replies);
      forall i | 0 <= i < |p.actions|
        ensures p.actions[i] in KNOWN_ACTIONS && replies(i) == Succeeds
      {
        assert Passes(p, replies, i);
      }
    }
  }

  /** When some action does not pass, one is the first. */
  lemma FirstFailure(p: Playbook, replies: nat -> Reply)
    requires forall k :: 0 <= k < |p.actions| ==>
               Passes(p, replies, k) || exists j :: 0 <= j < k && !Passes(p, replies, j)
    ensures forall k :: 0 <= k < |p.actions| ==> Passes(p, replies, k)
  {
    var i := 0;
    while i < |p.actions|
      invariant 0 <= i <= |p.actions|
      invariant forall k :: 0 <= k < i ==> Passes(p, replies, k)
    {
      i := i + 1;
    }
  }

  // ---------- the engine as a value ----------

  /** What has happened to the executions that need approval. */
  datatype Happening =
    | Submitted(id: string, required: set<string>)
    | Approved(id: string, role: string)
    | Ran(id: string)
    | Crashed(id: string)
    | Refused(id: string)

  datatype Engine = Engine(pending: map<string, Pending>, workflows: map<string, GW.Snapshot>, history: seq<Happening>)

  /** `Guide` is a call on a workflow that `get_workflow` returned. */
  datatype Event =
    | Process(id: string, selected: Option<Playbook>, replies: nat -> Reply)
    | Approve(id: string, role: string, replies: nat -> Reply)
    | Reject(id: string)
    | Guide(id: string, call: GW.Call)

  function StartedWorkflow(p: Playbook): GW.Snapshot {
    GW.Evaluated(GW.New(p.steps).(mode := GW.IN_PROGRESS))
  }

  function Processed(e: Engine, id: string, p: Playbook, replies: nat -> Reply): (Engine, Status) {
    if p.kind == "automated" then
      if p.requiresApproval then
        (e.(pending := e.pending[id := Pending(p, {}, RequiredRoles(p))],
            history := e.history + [Submitted(id, RequiredRoles(p))]),
         AwaitingApproval(id))
      else (e, StatusOf(OutcomeOf(p, replies)))
    else if p.kind == "guided" then (e.(workflows := e.workflows[id := StartedWorkflow(p)]), Guided(id))
    else (e, UnknownType)
  }

  /** The role of an approver that is required: when it was the last, the playbook is run, and the
      execution is closed unless a handler raises. */
  function ApprovedBy(e: Engine, id: string, role: string, replies: nat -> Reply): (Engine, Status)
    requires id in e.pending
  {
    var p := e.pending[id];
    var p' := p.(approved := p.approved + {role});
    if p.required <= p'.approved then
      var outcome := OutcomeOf(p.playbook, replies);
      if outcome == Raised then
        (e.(pending := e.pending[id := p'], history := e.history + [Approved(id, role), Crashed(id)]), Exception)
      else (e.(pending := e.pending - {id}, history := e.history + [Approved(id, role), Ran(id)]), StatusOf(outcome))
    else (e.(pending := e.pending[id := p'], history := e.history + [Approved(id, role)]),
          AwaitingFurther(p.required - p'.approved))
  }

  function Step(e: Engine, ev: Event): (Engine, Status) {
    match ev
    case Process(id, selected, replies) =>
      if selected.None? then (e, NoPlaybookFound) else Processed(e, id, selected.value, replies)
    case Approve(id, role, replies) =>
      if id !in e.pending then (e, NotFound)
      else if role !in e.pending[id].required then (e, InvalidRole)
      else ApprovedBy(e, id, role, replies)
    case Reject(id) =>
      if id !in e.pending then (e, NotFound)
      else (e.(pending := e.pending - {id}, history := e.history + [Refused(id)]), Rejected)
    case Guide(id, call) =>
      if id !in e.workflows then (e, NotFound)
      else if GW.Step(e.workflows[id], call).None? then (e, Exception)
      else (e.(workflows := e.workflows[id := GW.Step(e.workflows[id], call).value]), Guided(id))
  }

  /** What an approver is told. */
  ghost predicate ToldToApprover(pending: map<string, Pending>, id: string, role: string, replies: nat -> Reply,
                                 status: Status)
  {
    && (status == NotFound <==> id !in pending)
    && (id in pending ==>
          var p := pending[id];
          && (status == InvalidRole <==> role !in p.required)
          && (role in p.required ==>
                if p.required - p.approved <= {role} then TellsOf(p.playbook, replies, status)
                else status == AwaitingFurther(p.required - p.approved - {role})))
  }

  lemma ApprovalTells(e: Engine, id: string, role: string, replies: nat -> Reply)
    ensures ToldToApprover(e.pending, id, role, replies, Step(e, Approve(id, role, replies)).1)
  {
    hide OutcomeOf, TellsOf;
    if id in e.pending {
      var p := e.pending[id];
      StatusTells(p.playbook, replies);
      assert p.required <= p.approved + {role} <==> p.required - p.approved <= {role};
      assert p.required - (p.approved + {role}) == p.required - p.approved - {role};
    }
  }

  // ---------- the object ----------

  ghost function Snapshots(workflows: map<string, GW.Workflow>): (r: map<string, GW.Snapshot>)
    reads workflows.Values
    ensures r.Keys == workflows.Keys
    ensures forall k :: k in workflows ==> r[k] == workflows[k].State()
  {
    map k | k in workflows :: workflows[k].State()
  }

  class Remediation {
    var pendingApprovals: map<string, Pending>
    var activeWorkflows: map<string, GW.Workflow>
    ghost var history: seq<Happening>

    ghost function State(): Engine
      reads this, activeWorkflows.Values
    {
      Engine(pendingApprovals, Snapshots(activeWorkflows), history)
    }

    constructor ()
      ensures State() == Engine(map[], map[], [])
    {
      pendingApprovals, activeWorkflows, history := map[], map[], [];
    }

    /** The loop over the steps; `replies` are what the handlers do. Raised stands for an exception. */
    method ExecuteAutomatedPlaybook(playbook: Playbook, replies: nat -> Reply) returns (outcome: Outcome)
      ensures outcome == OutcomeOf(playbook, replies)
      ensures outcome == Done(true) <==> forall i :: 0 <= i < |playbook.actions| ==> Passes(playbook, replies, i)
      ensures outcome == Raised <==> exists i :: RaisesAt(playbook, replies, i)
    {
      for i := 0 to |playbook.actions|
        invariant forall j :: 0 <= j < i ==> Passes(playbook, replies, j)
      {
        if !Passes(playbook, replies, i) {
          FirstDecides(playbook, replies, 0, i);
          OnlyFirstRaises(playbook, replies, i);
        }
        if playbook.actions[i] !in KNOWN_ACTIONS {
          return Done(false);
        }
        match replies(i) {
          case Raises => return Raised;
          case Fails => return Done(false);
          case Succeeds =>
        }
      }
      AllPass(playbook, replies, 0);
      NoneRaises(playbook, replies);
      return Done(true);
    }

    /** `_start_guided_workflow`: created, registered under its identifier, and started. */
    method StartGuidedWorkflow(id: string, playbook: Playbook) returns (workflow: GW.Workflow)
      modifies this`activeWorkflows
      ensures fresh(workflow) && activeWorkflows == old(activeWorkflows)[id := workflow]
      ensures workflow.steps == playbook.steps && workflow.currentStepIndex == 0 && workflow.evidenceStore == map[]
      ensures State() == old(State()).(workflows := old(State()).workflows[id := StartedWorkflow(playbook)])
    {
      workflow := new GW.Workflow(playbook.steps);
      activeWorkflows := activeWorkflows[id := workflow];
      workflow.Begin();
      assert Snapshots(activeWorkflows) == old(Snapshots(activeWorkflows))[id := StartedWorkflow(playbook)];
    }

    method GetWorkflow(id: string) returns (workflow: Option<GW.Workflow>)
      ensures workflow.Some? <==> id in activeWorkflows
      ensures workflow.Some? ==> workflow.value == activeWorkflows[id]
    {
      return if id in activeWorkflows then Some(activeWorkflows[id]) else None;
    }

    method ProcessInsight(id: string, selected: Option<Playbook>, replies: nat -> Reply) returns (status: Status)
      modifies this
      ensures (State(), status) == Step(old(State()), Process(id, selected, replies))
      ensures selected.None? ==> status == NoPlaybookFound
      ensures selected.Some? && selected.value.kind == "automated" ==>
                if selected.value.requiresApproval then
                  && status == AwaitingApproval(id)
                  && id in pendingApprovals && pendingApprovals[id].playbook == selected.value
                  && pendingApprovals[id].approved == {}
                  && history == old(history) + [Submitted(id, pendingApprovals[id].required)]
                else TellsOf(selected.value, replies, status) && State() == old(State())
      ensures selected.Some? && selected.value.kind != "automated" ==>
                if selected.value.kind == "guided" then
                  status == Guided(id) && id in activeWorkflows && activeWorkflows[id].steps == selected.value.steps
                else status == UnknownType && State() == old(State())
    {
      hide OutcomeOf, RequiredRoles, StartedWorkflow, TellsOf, StatusOf;
      if selected.None? {
        return NoPlaybookFound;
      }
      var playbook := selected.value;
      if playbook.kind == "automated" {
        if playbook.requiresApproval {
          var required := RequiredRoles(playbook);
          pendingApprovals := pendingApprovals[id := Pending(playbook, {}, required)];
          history := history + [Submitted(id, required)];
          return AwaitingApproval(id);
        }
        var outcome := ExecuteAutomatedPlaybook(playbook, replies);
        StatusTells(playbook, replies);
        return StatusOf(outcome);
      } else if playbook.kind == "guided" {
        var _ := StartGuidedWorkflow(id, playbook);
        return Guided(id);
      }
      return UnknownType;
    }

    method ApproveAction(id: string, role: string, replies: nat -> Reply) returns (status: Status)
      modifies this`pendingApprovals, this`history
      ensures (State(), status) == Step(old(State()), Approve(id, role, replies))
      ensures ToldToApprover(old(pendingApprovals), id, role, replies, status)
    {
      hide OutcomeOf, ToldToApprover, StatusOf;
      ApprovalTells(State(), id, role, replies);
      if id !in pendingApprovals {
        return NotFound;
      }
      var pending := pendingApprovals[id];
      if role in pending.required {
        pending := pending.(approved := pending.approved + {role});
        pendingApprovals := pendingApprovals[id := pending];
        if pending.required <= pending.approved {
          var outcome := ExecuteAutomatedPlaybook(pending.playbook, replies);
          if outcome == Raised {
            history := history + [Approved(id, role), Crashed(id)];
            return Exception;
          }
          pendingApprovals := pendingApprovals - {id};
          history := history + [Approved(id, role), Ran(id)];
          assert pendingApprovals == old(pendingApprovals) - {id};
          return StatusOf(outcome);
        }
        history := history + [Approved(id, role)];
        return AwaitingFurther(pending.required - pending.approved);
      }
      return InvalidRole;
    }

    method RejectAction(id: string) returns (status: Status)
      modifies this`pendingApprovals, this`history
      ensures (State(), status) == Step(old(State()), Reject(id))
      ensures status == if id in old(pendingApprovals) then Rejected else NotFound
      ensures pendingApprovals == old(pendingApprovals) - {id}
    {
      if id !in pendingApprovals {
        return NotFound;
      }
      pendingApprovals := pendingApprovals - {id};
      history := history + [Refused(id)];
      return Rejected;
    }
  }

  // ---------- what a lawful history is ----------

  /** Where one execution stands: a playbook that has run or was refused is closed; one whose handler
      raised goes on waiting. */
  datatype Case = Unseen | Waiting(required: set<string>, approved: set<string>, crashed: bool) | Closed | Broken

  /** One entry of the history, read strictly: anything out of order breaks the case. */
  ghost function Advance(c: Case, h: Happening): Case {
    match h
    case Submitted(_, required) => if c == Unseen then Waiting(required, {}, false) else Broken
    case Approved(_, role) =>
      if c.Waiting? && role in c.required then c.(approved := c.approved + {role}) else Broken
    case Ran(_) => if c.Waiting? && c.required <= c.approved then Closed else Broken
    case Crashed(_) => if c.Waiting? && c.required <= c.approved then c.(crashed := true) else Broken
    case Refused(_) => if c.Waiting? then Closed else Broken
  }

  ghost function CaseOf(history: seq<Happening>, id: string): Case {
    if history == [] then Unseen
    else
      var n := |history| - 1;
      if history[n].id == id then Advance(CaseOf(history[..n], id), history[n]) else CaseOf(history[..n], id)
  }

  /** The execution waits, some role is required, and all have approved if and only if a handler has
      raised. */
  ghost predicate PendingAs(p: Pending, c: Case) {
    && c.Waiting? && c.required == p.required && c.approved == p.approved
    && p.required != {} && p.approved <= p.required
    && (p.approved == p.required <==> c.crashed)
  }

  /** No case is broken, and the pending executions are the waiting cases. */
  ghost predicate LawfulAt(e: Engine, id: string) {
    && CaseOf(e.history, id) != Broken
    && (id in e.pending <==> CaseOf(e.history, id).Waiting?)
    && (id in e.pending ==> PendingAs(e.pending[id], CaseOf(e.history, id)))
  }

  ghost predicate Lawful(e: Engine) {
    forall id :: LawfulAt(e, id)
  }

  lemma CaseAfter(history: seq<Happening>, h: Happening, id: string)
    ensures CaseOf(history + [h], id) == if h.id == id then Advance(CaseOf(history, id), h) else CaseOf(history, id)
  {
    assert (history + [h])[..|history|] == history;
  }

  lemma CaseAfterTwo(history: seq<Happening>, h: Happening, h': Happening, id: string)
    requires h.id == h'.id
    ensures CaseOf(history + [h, h'], id)
         == if h.id == id then Advance(Advance(CaseOf(history, id), h), h') else CaseOf(history, id)
  {
    assert history + [h, h'] == history + [h] + [h'];
    CaseAfter(history, h, id);
    CaseAfter(history + [h], h', id);
  }

  lemma SomeRoleRequired(p: Playbook)
    ensures RequiredRoles(p) != {}
  {
    if p.approvalRoles != [] {
      assert p.approvalRoles[0] in RequiredRoles(p);
    } else {
      assert "SOC_ANALYST" in RequiredRoles(p);
    }
  }

  /** Identifiers are fresh: one that is submitted has not been seen before. */
  ghost predicate FreshId(e: Engine, ev: Event) {
    ev.Process? ==> CaseOf(e.history, ev.id) == Unseen
  }

  lemma ProcessKeepsLawful(e: Engine, id: string, p: Playbook, replies: nat -> Reply, k: string)
    requires LawfulAt(e, k) && CaseOf(e.history, id) == Unseen
    ensures LawfulAt(Processed(e, id, p, replies).0, k)
  {
    hide CaseOf, OutcomeOf;
    if p.kind == "automated" && p.requiresApproval {
      SomeRoleRequired(p);
      hide RequiredRoles;
      CaseAfter(e.history, Submitted(id, RequiredRoles(p)), k);
    }
  }

  lemma ApproveKeepsLawful(e: Engine, id: string, role: string, replies: nat -> Reply, k: string)
    requires LawfulAt(e, k) && id in e.pending && role in e.pending[id].required
    ensures LawfulAt(ApprovedBy(e, id, role, replies).0, k)
  {
    hide CaseOf, OutcomeOf;
    CaseAfter(e.history, Approved(id, role), k);
    CaseAfterTwo(e.history, Approved(id, role), Crashed(id), k);
    CaseAfterTwo(e.history, Approved(id, role), Ran(id), k);
  }

  lemma {:induction false} StepKeepsLawful(e: Engine, ev: Event)
    requires Lawful(e) && FreshId(e, ev)
    ensures Lawful(Step(e, ev).0)
  {
    hide CaseOf, Processed, ApprovedBy;
    forall k
      ensures LawfulAt(Step(e, ev).0, k)
    {
      assert LawfulAt(e, k);
      match ev
      case Process(id, selected, replies) =>
        if selected.Some? {
          ProcessKeepsLawful(e, id, selected.value, replies, k);
        }
      case Approve(id, role, replies) =>
        if id in e.pending && role in e.pending[id].required {
          ApproveKeepsLawful(e, id, role, replies, k);
        }
      case Reject(id) => CaseAfter(e.history, Refused(id), k);
      case Guide(_, _) =>
    }
  }

  ghost function After(events: seq<Event>): Engine {
    if events == [] then Engine(map[], map[], [])
    else Step(After(events[..|events| - 1]), events[|events| - 1]).0
  }

  ghost predicate IsRun(events: seq<Event>) {
    events == [] ||
    (IsRun(events[..|events| - 1]) && FreshId(After(events[..|events| - 1]), events[|events| - 1]))
  }

  /** In every reachable state each pending execution has some required role, and its approved roles
      are among the required ones: a proper part of them unless a handler has raised. */
  lemma {:induction false} RunIsLawful(events: seq<Event>)
    requires IsRun(events)
    ensures Lawful(After(events))
    ensures forall id :: id in After(events).pending ==>
              && After(events).pending[id].required != {}
              && After(events).pending[id].approved <= After(events).pending[id].required
              && (After(events).pending[id].approved < After(events).pending[id].required <==>
                  Crashed(id) !in After(events).history)
  {
    hide Step, CaseOf, FreshId;
    if events == [] {
      NothingPending();
    } else {
      RunIsLawful(events[..|events| - 1]);
      StepKeepsLawful(After(events[..|events| - 1]), events[|events| - 1]);
    }
    forall id | id in After(events).pending
      ensures PendingAs(After(events).pending[id], CaseOf(After(events).history, id))
      ensures CaseOf(After(events).history, id).crashed <==> Crashed(id) in After(events).history
    {
      assert LawfulAt(After(events), id);
      WaitingCrashed(After(events).history, id);
    }
  }

  lemma NothingPending()
    ensures Lawful(Engine(map[], map[], []))
  {
  }

  // ---------- what it means that no case is broken ----------

  lemma {:induction false} WaitingCrashed(history: seq<Happening>, id: string)
    requires CaseOf(history, id) != Broken
    ensures CaseOf(history, id).Waiting? ==> (CaseOf(history, id).crashed <==> Crashed(id) in history)
    ensures CaseOf(history, id) == Unseen ==> forall i :: 0 <= i < |history| ==> history[i].id != id
  {
    if history != [] {
      WaitingCrashed(history[..|history| - 1], id);
      assert history == history[..|history| - 1] + [history[|history| - 1]];
    }
  }

  lemma {:induction false} NeverBrokenBefore(history: seq<Happening>, id: string, n: nat)
    requires CaseOf(history, id) != Broken && n <= |history|
    ensures CaseOf(history[..n], id) != Broken
    decreases |history|
  {
    if n < |history| {
      assert history[..|history| - 1][..n] == history[..n];
      NeverBrokenBefore(history[..|history| - 1], id, n);
    } else {
      assert history[..n] == history;
    }
  }

  lemma {:induction false} WaitingMeansApproved(history: seq<Happening>, id: string, role: string) returns (j: nat)
    requires CaseOf(history, id).Waiting? && role in CaseOf(history, id).approved
    ensures j < |history| && history[j] == Approved(id, role)
  {
    var n := |history| - 1;
    if history[n] == Approved(id, role) {
      j := n;
    } else {
      j := WaitingMeansApproved(history[..n], id, role);
    }
  }

  lemma {:induction false} SubmittedRoles(history: seq<Happening>, id: string) returns (j: nat)
    requires CaseOf(history, id).Waiting?
    ensures j < |history| && history[j] == Submitted(id, CaseOf(history, id).required)
  {
    var n := |history| - 1;
    if history[n].id == id && history[n].Submitted? {
      j := n;
    } else {
      j := SubmittedRoles(history[..n], id);
    }
  }

  lemma {:induction false} ClosedStaysClosed(history: seq<Happening>, id: string, i: nat)
    requires CaseOf(history, id) != Broken && i < |history| && history[i].id == id
               && (history[i].Ran? || history[i].Refused?)
    ensures CaseOf(history, id) == Closed
    ensures forall k :: i < k < |history| ==> history[k].id != id
    decreases |history|
  {
    var n := |history| - 1;
    if i < n {
      ClosedStaysClosed(history[..n], id, i);
      assert forall k :: i < k < n ==> history[k] == history[..n][k];
    }
  }

  /** What the history says of an execution whose entries are in order. */
  ghost predicate ToldBy(history: seq<Happening>, id: string, c: Case) {
    && (c == Closed <==> Ran(id) in history || Refused(id) in history)
    && (c == Unseen <==> forall required :: Submitted(id, required) !in history)
    && (c.Waiting? ==>
          && (forall role :: role in c.approved <==> Approved(id, role) in history)
          && (forall required :: Submitted(id, required) in history <==> required == c.required))
  }

  lemma ToldByNext(history: seq<Happening>, h: Happening, id: string)
    requires ToldBy(history, id, CaseOf(history, id)) && CaseOf(history + [h], id) != Broken
    requires CaseOf(history, id) == Unseen ==> forall x :: x in history ==> x.id != id
    ensures ToldBy(history + [h], id, CaseOf(history + [h], id))
    ensures CaseOf(history + [h], id) == Unseen ==> forall x :: x in history + [h] ==> x.id != id
  {
    hide CaseOf;
    CaseAfter(history, h, id);
    assert forall x :: x in history + [h] <==> x in history || x == h;
  }

  lemma {:induction false} HistoryTells(history: seq<Happening>, id: string)
    requires CaseOf(history, id) != Broken
    ensures ToldBy(history, id, CaseOf(history, id))
    ensures CaseOf(history, id) == Unseen ==> forall x :: x in history ==> x.id != id
  {
    hide ToldBy, Advance;
    if history == [] {
      NothingTold(id);
    } else {
      var n := |history| - 1;
      NeverBrokenBefore(history, id, n);
      HistoryTells(history[..n], id);
      ToldByNext(history[..n], history[n], id);
      assert history[..n] + [history[n]] == history;
    }
  }

  lemma NothingTold(id: string)
    ensures ToldBy([], id, Unseen)
  {
  }

  /** The roles, other than the one approving now, that an execution was submitted with and that have not
      approved it. */
  ghost function Missing(history: seq<Happening>, id: string, required: set<string>, role: string): set<string> {
    set r | r in required && r != role && Approved(id, r) !in history
  }

  /** Over any run, an approver is told that there is no such execution if and only if it was never submitted, has
      run, or was refused. */
  lemma {:induction false} NotFoundIff(events: seq<Event>, id: string, role: string, replies: nat -> Reply)
    requires IsRun(events)
    ensures var h, status := After(events).history, Step(After(events), Approve(id, role, replies)).1;
            status == NotFound <==>
            Ran(id) in h || Refused(id) in h || forall required :: Submitted(id, required) !in h
  {
    hide CaseOf, IsRun, After, TellsOf, ToldBy;
    RunIsLawful(events);
    var e := After(events);
    assert LawfulAt(e, id);
    HistoryTells(e.history, id);
    ApprovalTells(e, id, role, replies);
    if id in e.pending {
      RestIs(e.history, id, role, CaseOf(e.history, id));
    } else {
      NotWaiting(e.history, id, CaseOf(e.history, id));
    }
  }

  /** Otherwise that the role is none of those it was submitted with, or which of the others have not approved
      yet, if any. When none is missing, the playbook is run, and the approver is told how it went. */
  lemma {:induction false} ApprovalAnswers(events: seq<Event>, id: string, required: set<string>, role: string,
                                           replies: nat -> Reply)
    requires IsRun(events) && Submitted(id, required) in After(events).history
    requires Ran(id) !in After(events).history && Refused(id) !in After(events).history
    ensures id in After(events).pending
    ensures var e := After(events);
            var status, missing := Step(e, Approve(id, role, replies)).1, Missing(e.history, id, required, role);
            && (status == InvalidRole <==> role !in required)
            && (status.AwaitingFurther? <==> role in required && missing != {})
            && (status.AwaitingFurther? ==> status.remaining == missing)
            && (role in required && missing == {} ==> TellsOf(e.pending[id].playbook, replies, status))
    ensures var e, e' := After(events), Step(After(events), Approve(id, role, replies)).0;
            && (role !in required ==> e' == e)
            && (role in required ==> Approved(id, role) in e'.history)
            && (role in required ==>
                  (id in e'.pending <==>
                   Missing(e.history, id, required, role) != {}
                   || exists i :: RaisesAt(e.pending[id].playbook, replies, i)))
  {
    hide CaseOf, IsRun, After, TellsOf, ToldBy;
    RunIsLawful(events);
    var e := After(events);
    assert LawfulAt(e, id);
    HistoryTells(e.history, id);
    if id !in e.pending {
      NotWaiting(e.history, id, CaseOf(e.history, id));
    }
    ApprovalTells(e, id, role, replies);
    RestIs(e.history, id, role, CaseOf(e.history, id));
    NeverAwaiting(e.pending[id].playbook, replies, Step(e, Approve(id, role, replies)).1);
    if role in required {
      ApprovalRecorded(e, id, role, replies);
    }
  }

  lemma ApprovalRecorded(e: Engine, id: string, role: string, replies: nat -> Reply)
    requires id in e.pending && role in e.pending[id].required
    ensures var e', p := Step(e, Approve(id, role, replies)).0, e.pending[id];
            && Approved(id, role) in e'.history
            && (id in e'.pending <==>
                p.required - p.approved - {role} != {} || exists i :: RaisesAt(p.playbook, replies, i))
  {
    hide OutcomeOf, TellsOf, RaisesAt;
    var p := e.pending[id];
    assert forall h: Happening, rest :: h in e.history + [h] + rest;
    assert p.required <= p.approved + {role} <==> p.required - p.approved - {role} == {};
    RaisedIff(p.playbook, replies);
  }

  lemma RaisedIff(p: Playbook, replies: nat -> Reply)
    ensures OutcomeOf(p, replies) == Raised <==> exists i :: RaisesAt(p, replies, i)
  {
    hide RaisesAt;
    StatusTells(p, replies);
  }

  lemma NeverAwaiting(p: Playbook, replies: nat -> Reply, status: Status)
    ensures TellsOf(p, replies, status) ==> !status.AwaitingFurther? && status != InvalidRole
  {
  }

  /** The execution was submitted with the playbook it holds, an automated one that needs approval, and needs the
      roles that the playbook names, or else the analyst's. */
  ghost predicate SubmittedBy(ev: Event, id: string, p: Pending) {
    && ev.Process? && ev.id == id && ev.selected == Some(p.playbook)
    && p.playbook.kind == "automated" && p.playbook.requiresApproval
    && p.required == if p.playbook.approvalRoles == [] then {"SOC_ANALYST"} else set r | r in p.playbook.approvalRoles
  }

  lemma {:induction false} PendingWasSubmitted(events: seq<Event>, id: string) returns (i: nat)
    requires id in After(events).pending
    ensures i < |events| && SubmittedBy(events[i], id, After(events).pending[id])
  {
    hide GW.Step, OutcomeOf, StartedWorkflow;
    var n := |events| - 1;
    var before := After(events[..n]);
    if events[n].Process? && events[n].id == id
        && (id !in before.pending || After(events).pending[id] != before.pending[id]) {
      i := n;
    } else {
      i := PendingWasSubmitted(events[..n], id);
    }
  }

  lemma NotWaiting(history: seq<Happening>, id: string, c: Case)
    requires ToldBy(history, id, c) && !c.Waiting? && c != Broken
    ensures Ran(id) in history || Refused(id) in history || forall required :: Submitted(id, required) !in history
  {
  }

  lemma RestIs(history: seq<Happening>, id: string, role: string, c: Case)
    requires ToldBy(history, id, c) && c.Waiting?
    ensures Ran(id) !in history && Refused(id) !in history
    ensures forall required :: Submitted(id, required) in history <==> required == c.required
    ensures Submitted(id, c.required) in history
    ensures Missing(history, id, c.required, role) == c.required - c.approved - {role}
  {
  }

  /** The playbook was begun: it ran to its end, or a handler raised. */
  ghost predicate StartsAt(history: seq<Happening>, i: int, id: string) {
    0 <= i < |history| && (history[i] == Ran(id) || history[i] == Crashed(id))
  }

  /** A playbook that needs approval is started only after every role it was submitted with has
      approved, in whatever order, and after it has run, or was refused, nothing happens to it. */
  lemma StartsWhenAllApproved(events: seq<Event>, i: nat, id: string)
    requires IsRun(events) && StartsAt(After(events).history, i, id)
    ensures exists j, required :: 0 <= j < i && After(events).history[j] == Submitted(id, required)
              && forall role :: role in required ==>
                  exists k :: 0 <= k < i && After(events).history[k] == Approved(id, role)
    ensures forall k :: 0 <= k < i ==> After(events).history[k] != Ran(id) && After(events).history[k] != Refused(id)
    ensures After(events).history[i] == Ran(id) ==> forall k :: i < k < |After(events).history| ==>
              After(events).history[k].id != id
  {
    RunIsLawful(events);
    var h := After(events).history;
    assert LawfulAt(After(events), id);
    NeverBrokenBefore(h, id, i + 1);
    assert h[..i + 1][..i] == h[..i];
    var c := CaseOf(h[..i], id);
    var j := SubmittedRoles(h[..i], id);
    assert h[j] == Submitted(id, c.required);
    forall role | role in c.required
      ensures exists k :: 0 <= k < i && h[k] == Approved(id, role)
    {
      var k := WaitingMeansApproved(h[..i], id, role);
      assert h[k] == Approved(id, role);
    }
    if h[i] == Ran(id) {
      ClosedStaysClosed(h, id, i);
    }
    forall k | 0 <= k < i
      ensures h[k] != Ran(id) && h[k] != Refused(id)
    {
      if h[k] == Ran(id) || h[k] == Refused(id) {
        ClosedStaysClosed(h, id, k);
      }
    }
  }

  /** A playbook runs to its end at most once, and is started a second time only when a handler raised
      at the first. */
  lemma StartedAgainOnlyAfterCrash(events: seq<Event>, i: nat, k: nat, id: string)
    requires IsRun(events) && i < k && StartsAt(After(events).history, i, id) && StartsAt(After(events).history, k, id)
    ensures After(events).history[i] == Crashed(id)
  {
    StartsWhenAllApproved(events, k, id);
  }

  /** An approval of a pending execution starts its playbook if and only if every other required role
      has approved; and it starts it again if and only if that role had approved as well, which is
      so exactly when a handler has raised. */
  lemma ApprovalStartsIff(events: seq<Event>, id: string, role: string, replies: nat -> Reply)
    requires IsRun(events) && id in After(events).pending && role in After(events).pending[id].required
    ensures var e := After(events);
            var p, h' := e.pending[id], Step(e, Approve(id, role, replies)).0.history;
            && (StartsAt(h', |h'| - 1, id) <==> p.required - {role} <= p.approved)
            && ((exists i :: StartsAt(e.history, i, id)) <==> p.approved == p.required)
            && (p.approved == p.required <==> Crashed(id) in e.history)
  {
    hide Step, CaseOf, OutcomeOf;
    RunIsLawful(events);
    var e := After(events);
    assert LawfulAt(e, id);
    ApprovalEnds(e, id, role, replies);
    if i :| StartsAt(e.history, i, id) {
      if e.history[i] == Ran(id) {
        ClosedStaysClosed(e.history, id, i);
      }
    }
    if Crashed(id) in e.history {
      var i :| 0 <= i < |e.history| && e.history[i] == Crashed(id);
      assert StartsAt(e.history, i, id);
    }
  }

  lemma ApprovalEnds(e: Engine, id: string, role: string, replies: nat -> Reply)
    requires id in e.pending && role in e.pending[id].required
    ensures var h' := Step(e, Approve(id, role, replies)).0.history;
            StartsAt(h', |h'| - 1, id) <==> e.pending[id].required - {role} <= e.pending[id].approved
  {
    hide OutcomeOf;
  }

  function SecondRaises(i: nat): Reply {
    if i == 1 then Raises else Succeeds
  }

  function AllSucceed(i: nat): Reply {
    Succeeds
  }

  /** The failing case: the only required role approves, a handler raises, the role approves again, and
      the playbook, whose first action has been carried out before, runs a second time. */
  lemma RaisingRunsTwice(id: string)
    ensures var p := Playbook("pb", "automated", ["soar_integration", "vendor_communication"], [], true, []);
            var events := [Process(id, Some(p), SecondRaises), Approve(id, "SOC_ANALYST", SecondRaises),
                           Approve(id, "SOC_ANALYST", AllSucceed)];
            && IsRun(events)
            && StartsAt(After(events).history, 2, id) && StartsAt(After(events).history, 4, id)
  {
    var p := Playbook("pb", "automated", ["soar_integration", "vendor_communication"], [], true, []);
    var e1, e2, e3 := Process(id, Some(p), SecondRaises), Approve(id, "SOC_ANALYST", SecondRaises),
          Approve(id, "SOC_ANALYST", AllSucceed);
    OneMore([], e1);
    OneMore([e1], e2);
    OneMore([e1, e2], e3);
    assert [] + [e1] == [e1] && [e1] + [e2] == [e1, e2] && [e1, e2] + [e3] == [e1, e2, e3];
    assert OutcomeFrom(p, SecondRaises, 1) == Raised;
    assert OutcomeFrom(p, AllSucceed, 2) == Done(true);
    hide After, IsRun, OutcomeFrom;
    var s1, s2, s3 := After([e1]), After([e1, e2]), After([e1, e2, e3]);
    assert s1.history == [Submitted(id, {"SOC_ANALYST"})] && id in s1.pending
             && s1.pending[id] == Pending(p, {}, {"SOC_ANALYST"});
    assert s2.history == s1.history + [Approved(id, "SOC_ANALYST"), Crashed(id)];
    assert s3.history == s2.history + [Approved(id, "SOC_ANALYST"), Ran(id)];
  }

  lemma OneMore(events: seq<Event>, ev: Event)
    ensures After(events + [ev]) == Step(After(events), ev).0
    ensures IsRun(events + [ev]) <==> IsRun(events) && FreshId(After(events), ev)
    ensures After([]) == Engine(map[], map[], []) && IsRun([])
  {
    hide Step;
    assert (events + [ev])[..|events|] == events;
  }

  // ---------- guided workflows ----------

  /** Every workflow that the engine started stays orderly under any calls on it: its mode is determined
      by its step, and when it is COMPLETED every step that requires evidence has it. */
  lemma {:induction false} WorkflowsStayOrderly(events: seq<Event>)
    ensures forall id :: id in After(events).workflows ==>
              && GW.Orderly(After(events).workflows[id])
              && (After(events).workflows[id].mode == GW.COMPLETED ==> GW.EvidenceComplete(After(events).workflows[id]))
  {
    hide GW.Step, ApprovedBy;
    if events != [] {
      var n := |events| - 1;
      WorkflowsStayOrderly(events[..n]);
      WorkflowStep(After(events[..n]), events[n]);
    }
    forall id | id in After(events).workflows && After(events).workflows[id].mode == GW.COMPLETED
      ensures GW.EvidenceComplete(After(events).workflows[id])
    {
      CompletedHasEvidence(After(events).workflows[id]);
    }
  }

  ghost predicate AllOrderly(workflows: map<string, GW.Snapshot>) {
    forall id :: id in workflows ==> GW.Orderly(workflows[id])
  }

  lemma WorkflowStep(e: Engine, ev: Event)
    requires AllOrderly(e.workflows)
    ensures AllOrderly(Step(e, ev).0.workflows)
  {
    hide GW.Orderly, OutcomeOf, RequiredRoles;
    match ev
    case Process(id, selected, _) =>
      if selected.Some? {
        StartedIsOrderly(selected.value);
      }
    case Guide(id, call) =>
      if id in e.workflows {
        GW.StepKeepsOrderly(e.workflows[id], call);
      }
    case _ =>
  }

  lemma StartedIsOrderly(p: Playbook)
    ensures GW.Orderly(StartedWorkflow(p))
  {
  }

  lemma CompletedHasEvidence(s: GW.Snapshot)
    requires GW.Orderly(s) && s.mode == GW.COMPLETED
    ensures GW.EvidenceComplete(s)
  {
  }
}
