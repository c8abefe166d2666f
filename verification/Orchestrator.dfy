/**
 agentic_execution/orchestrator.py and agents.py: the supervisor graph with its human approval gate,
 as a state machine over one checkpointed thread. Every answer of a language model is a parameter.
 */
module Orchestrator {
  datatype Worker = Discovery | Assessment | Remediation | Compliance

  datatype Route = ToWorker(worker: Worker) | ToHuman | Finish

  /** A message: its content, and the text that Python shows of it with all its metadata. */
  datatype Message = Message(content: string, shown: string)

  datatype AgentState = AgentState(messages: seq<Message>, requiresApproval: bool, humanApproved: bool)

  const MARKER := "REQUIRES_HUMAN_APPROVAL"

  /** `members + ["FINISH"]` with the upper-case names that the supervisor looks for. */
  const OPTIONS: seq<(string, Route)> := [
    ("DISCOVERY_AGENT", ToWorker(Discovery)), ("ASSESSMENT_AGENT", ToWorker(Assessment)),
    ("REMEDIATION_AGENT", ToWorker(Remediation)), ("COMPLIANCE_AGENT", ToWorker(Compliance)), ("FINISH", Finish)]

  predicate PartAt(s: string, part: string, i: int) {
    0 <= i <= |s| - |part| && s[i..i + |part|] == part
  }

  /** `part in s` */
  predicate Contains(s: string, part: string) {
    exists i :: 0 <= i <= |s| && PartAt(s, part, i)
  }

  /** `part in str(messages)`, for a part without the separators between messages. */
  predicate Mentioned(messages: seq<Message>, part: string) {
    exists i :: 0 <= i < |messages| && Contains(messages[i].shown, part)
  }

  // ---------- the nodes ----------

  /** `agent_node`: the response is appended, and the approval flag is raised and never lowered. */
  function AgentNode(s: AgentState, response: Message): AgentState {
    AgentState(s.messages + [response],
               s.requiresApproval || Contains(response.content, MARKER) || Mentioned(s.messages, MARKER),
               s.humanApproved)
  }

  function HumanApprovalNode(s: AgentState): AgentState {
    s.(humanApproved := true)
  }

  ghost predicate Gated(s: AgentState) {
    s.requiresApproval && !s.humanApproved
  }

  /** The position of the first option that the answer names, or the number of options. */
  ghost function FirstNamed(content: string, k: nat): nat
    requires k <= |OPTIONS|
    decreases |OPTIONS| - k
  {
    if k == |OPTIONS| || Contains(content, OPTIONS[k].0) then k else FirstNamed(content, k + 1)
  }

  /** Where the answer alone would lead. */
  ghost function Named(content: string): Route {
    var k := FirstNamed(content, 0);
    if k < |OPTIONS| then OPTIONS[k].1 else Finish
  }

  lemma NamedIs(content: string)
    ensures Named(content) ==
            if Contains(content, "DISCOVERY_AGENT") then ToWorker(Discovery)
            else if Contains(content, "ASSESSMENT_AGENT") then ToWorker(Assessment)
            else if Contains(content, "REMEDIATION_AGENT") then ToWorker(Remediation)
            else if Contains(content, "COMPLIANCE_AGENT") then ToWorker(Compliance)
            else Finish
  {
    hide Contains;
    assert FirstNamed(content, 4) == if Contains(content, OPTIONS[4].0) then 4 else FirstNamed(content, 5);
    assert FirstNamed(content, 2) == if Contains(content, OPTIONS[2].0) then 2 else FirstNamed(content, 3);
    assert FirstNamed(content, 0) == if Contains(content, OPTIONS[0].0) then 0 else FirstNamed(content, 1);
  }

  /** A text is part of another when the other is it with something before and something after it. */
  lemma ContainsIff(s: string, part: string)
    ensures Contains(s, part) <==> exists before, after :: s == before + part + after
  {
    if i :| 0 <= i <= |s| && PartAt(s, part, i) {
      assert s == s[..i] + part + s[i + |part|..];
    }
    if before, after :| s == before + part + after {
      assert PartAt(s, part, |before|);
    }
  }

  /** `supervisor_node`; `content` is the stripped upper-case answer of the model. The human gate comes first;
      then the first worker that the answer names; and when it names none, at the beginning of a conversation,
      the first of three workers that nobody has mentioned. */
  method SupervisorNode(s: AgentState, content: string) returns (next: Route)
    ensures next == ToHuman <==> s.requiresApproval && !s.humanApproved
    ensures !s.requiresApproval || s.humanApproved ==>
              next == if Contains(content, "DISCOVERY_AGENT") then ToWorker(Discovery)
                      else if Contains(content, "ASSESSMENT_AGENT") then ToWorker(Assessment)
                      else if Contains(content, "REMEDIATION_AGENT") then ToWorker(Remediation)
                      else if Contains(content, "COMPLIANCE_AGENT") then ToWorker(Compliance)
                      else if |s.messages| >= 3 then Finish
                      else if !Mentioned(s.messages, "compliance_agent") then ToWorker(Compliance)
                      else if !Mentioned(s.messages, "discovery_agent") then ToWorker(Discovery)
                      else if !Mentioned(s.messages, "assessment_agent") then ToWorker(Assessment)
                      else Finish
  {
    hide Contains, Mentioned;
    NamedIs(content);
    next := Finish;
    var k := 0;
    while k < |OPTIONS|
      invariant 0 <= k <= |OPTIONS|
      invariant next == Finish && FirstNamed(content, 0) == FirstNamed(content, k)
    {
      if Contains(content, OPTIONS[k].0) {
        next := OPTIONS[k].1;
        break;
      }
      k := k + 1;
    }
    assert next == Named(content) && next != ToHuman;
    if s.requiresApproval && !s.humanApproved {
      next := ToHuman;
    } else if next == Finish && |s.messages| < 3 {
      if !Mentioned(s.messages, "compliance_agent") {
        next := ToWorker(Compliance);
      } else if !Mentioned(s.messages, "discovery_agent") {
        next := ToWorker(Discovery);
      } else if !Mentioned(s.messages, "assessment_agent") {
        next := ToWorker(Assessment);
      }
    }
  }

  // ---------- the graph ----------

  /** Where the thread stands; `AtHuman` is the interrupt before the approval node. */
  datatype Point = NotStarted | AtSupervisor | AtWorker(worker: Worker) | AtHuman | Ended

  /** What has been executed. A worker is `marked` when its response, or a message before it, holds the
      marker. */
  datatype Action = Began(request: Message) | RanWorker(worker: Worker, response: Message, marked: bool) | RanHuman

  datatype Thread = Thread(state: AgentState, at: Point, history: seq<Action>)

  const NEW_THREAD := Thread(AgentState([], false, false), NotStarted, [])

  /** A call of the service, or one step of the running graph. */
  datatype Event = Run(request: Message) | Approve | Route(next: Route) | Work(response: Message)

  function Target(r: Route): Point {
    match r
    case ToWorker(w) => AtWorker(w)
    case ToHuman => AtHuman
    case Finish => Ended
  }

  /** The supervisor's choice is any that its contract allows. */
  ghost predicate Allowed(t: Thread, e: Event) {
    match e
    case Route(next) => t.at == AtSupervisor && (next == ToHuman <==> Gated(t.state))
    case Work(_) => t.at.AtWorker?
    case _ => true
  }

  /** `run_agentic_workflow` leaves a thread that waits for approval alone and otherwise starts from
      the entry point with the flags cleared; `approve_workflow` lets the approval node run when the
      thread waits before it. */
  function Step(t: Thread, e: Event): Thread {
    match e
    case Run(request) =>
      if t.at == AtHuman then t
      else Thread(AgentState(t.state.messages + [request], false, false), AtSupervisor, t.history + [Began(request)])
    case Approve =>
      if t.at == AtHuman then Thread(HumanApprovalNode(t.state), AtSupervisor, t.history + [RanHuman]) else t
    case Route(next) => t.(at := Target(next))
    case Work(response) =>
      if t.at.AtWorker? then
        var s := AgentNode(t.state, response);
        var marked := Contains(response.content, MARKER) || Mentioned(t.state.messages, MARKER);
        Thread(s, AtSupervisor, t.history + [RanWorker(t.at.worker, response, marked)])
      else t
  }

  /** A request begins a new run at the supervisor, with the flags cleared and what was said kept, unless the thread
      waits for approval; an approval lets the waiting thread go on to the supervisor; the supervisor sends it where it
      says; and a worker's answer leads back to the supervisor. */
  lemma StepsOfGraph(t: Thread, request: Message, worker: Worker, response: Message)
    ensures var said := t.state.messages + [request];
            Step(t, Run(request)) == if t.at == AtHuman then t
                                     else Thread(AgentState(said, false, false), AtSupervisor,
                                                 t.history + [Began(request)])
    ensures Step(t, Approve) == if t.at != AtHuman then t
                                else Thread(t.state.(humanApproved := true), AtSupervisor, t.history + [RanHuman])
    ensures Step(t, Event.Route(ToWorker(worker))) == t.(at := AtWorker(worker))
    ensures Step(t, Event.Route(ToHuman)) == t.(at := AtHuman)
    ensures Step(t, Event.Route(Finish)) == t.(at := Ended)
    ensures var t' := Step(t, Work(response));
            t.at == AtWorker(worker) ==>
              && t'.at == AtSupervisor && t'.state.messages == t.state.messages + [response]
              && t'.state.humanApproved == t.state.humanApproved
              && exists marked :: t'.history == t.history + [RanWorker(worker, response, marked)]
  {
    hide Contains, Mentioned;
  }

  ghost function After(events: seq<Event>): Thread {
    if events == [] then NEW_THREAD else Step(After(events[..|events| - 1]), events[|events| - 1])
  }

  ghost predicate IsTrace(events: seq<Event>) {
    events == [] ||
    (IsTrace(events[..|events| - 1]) && Allowed(After(events[..|events| - 1]), events[|events| - 1]))
  }

  // ---------- the gate ----------

  /** A marked worker has run since the run began. */
  ghost predicate MarkedInRun(h: seq<Action>) {
    h != [] && !h[|h| - 1].Began?
    && ((h[|h| - 1].RanWorker? && h[|h| - 1].marked) || MarkedInRun(h[..|h| - 1]))
  }

  /** The approval node has run since the run began. */
  ghost predicate ApprovedInRun(h: seq<Action>) {
    h != [] && !h[|h| - 1].Began? && (h[|h| - 1] == RanHuman || ApprovedInRun(h[..|h| - 1]))
  }

  /** At no point of the history did a worker run while its run was marked and not approved. */
  ghost predicate GateRespected(h: seq<Action>) {
    h == [] ||
    (GateRespected(h[..|h| - 1])
     && (h[|h| - 1].RanWorker? && MarkedInRun(h[..|h| - 1]) ==> ApprovedInRun(h[..|h| - 1])))
  }

  ghost predicate Inv(t: Thread) {
    && (MarkedInRun(t.history) <==> t.state.requiresApproval)
    && (t.state.humanApproved <==> ApprovedInRun(t.history))
    && (t.at.AtWorker? ==> !Gated(t.state))
    && (t.at == AtHuman ==> Gated(t.state))
    && GateRespected(t.history)
  }

  /** What one more action changes. */
  lemma OneMoreAction(h: seq<Action>, a: Action)
    ensures MarkedInRun(h + [a]) <==> !a.Began? && ((a.RanWorker? && a.marked) || MarkedInRun(h))
    ensures ApprovedInRun(h + [a]) <==> !a.Began? && (a == RanHuman || ApprovedInRun(h))
    ensures GateRespected(h + [a]) <==> GateRespected(h) && (a.RanWorker? && MarkedInRun(h) ==> ApprovedInRun(h))
  {
    assert (h + [a])[..|h|] == h;
  }

  lemma StepKeepsInv(t: Thread, e: Event)
    requires Inv(t) && Allowed(t, e)
    ensures Inv(Step(t, e))
  {
    hide Contains, Mentioned, MarkedInRun, ApprovedInRun, GateRespected;
    var h, h' := t.history, Step(t, e).history;
    if |h'| > |h| {
      OneMoreAction(h, h'[|h|]);
    }
  }

  lemma {:induction false} TraceKeepsInv(events: seq<Event>)
    requires IsTrace(events)
    ensures Inv(After(events))
  {
    if events != [] {
      var n := |events| - 1;
      TraceKeepsInv(events[..n]);
      StepKeepsInv(After(events[..n]), events[n]);
    }
  }

  ghost predicate SameRun(h: seq<Action>, i: nat, j: nat) {
    i <= j < |h| && forall k :: i < k <= j ==> !h[k].Began?
  }

  lemma {:induction false} MarkedFrom(h: seq<Action>, i: nat)
    requires i < |h| && SameRun(h, i, |h| - 1) && h[i].RanWorker? && h[i].marked
    ensures MarkedInRun(h)
    decreases |h|
  {
    if i < |h| - 1 {
      MarkedFrom(h[..|h| - 1], i);
    }
  }

  lemma {:induction false} ApprovalOf(h: seq<Action>) returns (k: nat)
    requires ApprovedInRun(h)
    ensures k < |h| && h[k] == RanHuman && SameRun(h, k, |h| - 1)
    decreases |h|
  {
    if h[|h| - 1] == RanHuman {
      k := |h| - 1;
    } else {
      k := ApprovalOf(h[..|h| - 1]);
    }
  }

  lemma {:induction false} GateAt(h: seq<Action>, j: nat)
    requires GateRespected(h) && j < |h| && h[j].RanWorker? && MarkedInRun(h[..j])
    ensures ApprovedInRun(h[..j])
    decreases |h|
  {
    if j < |h| - 1 {
      assert h[..|h| - 1][..j] == h[..j];
      GateAt(h[..|h| - 1], j);
    }
  }

  /** Once a worker's answer carries the marker, or the messages do when it answers, no worker runs
      later in that run unless the approval node has run in it before. */
  lemma NoWorkBeforeApproval(events: seq<Event>, i: nat, j: nat) returns (k: nat)
    requires IsTrace(events)
    requires i < j && SameRun(After(events).history, i, j)
    requires After(events).history[i].RanWorker? && After(events).history[i].marked
    requires After(events).history[j].RanWorker?
    ensures k < j && After(events).history[k] == RanHuman && SameRun(After(events).history, k, j)
  {
    TraceKeepsInv(events);
    var h := After(events).history;
    MarkedFrom(h[..j], i);
    GateAt(h, j);
    k := ApprovalOf(h[..j]);
    assert forall m :: k < m < j ==> h[m] == h[..j][m];
  }

  /** What has been said, requests and answers, when these actions have been executed. */
  ghost function Said(h: seq<Action>): seq<Message> {
    if h == [] then []
    else
      var n := |h| - 1;
      Said(h[..n])
        + (if h[n].Began? then [h[n].request] else if h[n].RanWorker? then [h[n].response] else [])
  }

  lemma SaidMore(h: seq<Action>, a: Action)
    ensures Said(h + [a])
         == Said(h) + (if a.Began? then [a.request] else if a.RanWorker? then [a.response] else [])
  {
    assert (h + [a])[..|h|] == h;
  }

  lemma SaidStep(t: Thread, e: Event)
    requires t.state.messages == Said(t.history)
    ensures Step(t, e).state.messages == Said(Step(t, e).history)
  {
    hide Contains, Mentioned, Said;
    var h, h' := t.history, Step(t, e).history;
    if |h'| > |h| {
      SaidMore(h, h'[|h|]);
    }
  }

  /** The conversation holds every request and every answer, in order. */
  lemma {:induction false} MessagesAreSaid(events: seq<Event>)
    ensures After(events).state.messages == Said(After(events).history)
  {
    hide Step;
    if events != [] {
      MessagesAreSaid(events[..|events| - 1]);
      SaidStep(After(events[..|events| - 1]), events[|events| - 1]);
    }
  }

  /** A worker is marked if and only if its answer carries the marker or some message before it does. */
  lemma {:induction false} MarkedIff(events: seq<Event>, i: nat)
    requires i < |After(events).history| && After(events).history[i].RanWorker?
    ensures var h := After(events).history;
            h[i].marked <==>
            || Contains(h[i].response.content, "REQUIRES_HUMAN_APPROVAL")
            || exists m :: 0 <= m < |Said(h[..i])| && Contains(Said(h[..i])[m].shown, "REQUIRES_HUMAN_APPROVAL")
    decreases |events|
  {
    hide Contains;
    var n := |events| - 1;
    var h := After(events).history;
    if events != [] {
      var before := After(events[..n]);
      assert before.history <= h;
      if i < |before.history| {
        assert before.history[..i] == h[..i];
        MarkedIff(events[..n], i);
      } else {
        assert h[..i] == before.history;
        MessagesAreSaid(events[..n]);
      }
    }
  }

  /** After any steps, the supervisor sends the thread to wait for approval if and only if a worker has been marked
      in its run and the approval node has not run in it. */
  lemma EscalatesIff(events: seq<Event>, next: Route)
    requires IsTrace(events + [Event.Route(next)])
    ensures After(events + [Event.Route(next)]).at == AtHuman <==>
            MarkedInRun(After(events).history) && !ApprovedInRun(After(events).history)
  {
    assert (events + [Event.Route(next)])[..|events|] == events;
    TraceKeepsInv(events);
  }

  /** A thread that waits for approval stays as it is, whatever is asked of it, until it is approved. */
  lemma {:induction false} WaitsForApproval(events: seq<Event>, later: seq<Event>)
    requires IsTrace(events + later) && After(events).at == AtHuman
    requires forall i :: 0 <= i < |later| ==> later[i] != Approve
    ensures After(events + later) == After(events)
    decreases |later|
  {
    hide Contains, Mentioned;
    if later == [] {
      assert events + later == events;
    } else {
      var n := |later| - 1;
      assert (events + later)[..|events| + n] == events + later[..n];
      WaitsForApproval(events, later[..n]);
    }
  }

  ghost function Count(h: seq<Action>): nat {
    if h == [] then 0 else Count(h[..|h| - 1]) + (if h[|h| - 1] == RanHuman then 1 else 0)
  }

  ghost function Approvals(events: seq<Event>): nat {
    if events == [] then 0
    else
      var n := |events| - 1;
      Approvals(events[..n]) + (if events[n] == Approve && After(events[..n]).at == AtHuman then 1 else 0)
  }

  lemma CountStep(t: Thread, e: Event)
    ensures Count(Step(t, e).history) == Count(t.history) + (if e == Approve && t.at == AtHuman then 1 else 0)
  {
    hide AgentNode, HumanApprovalNode, Contains, Mentioned;
    var h, h' := t.history, Step(t, e).history;
    if |h'| > |h| {
      assert h'[..|h|] == h;
    }
  }

  /** The approval node runs once for every approval of a waiting thread, and never otherwise. */
  lemma {:induction false} HumanRunsOnlyOnApproval(events: seq<Event>)
    ensures Count(After(events).history) == Approvals(events)
  {
    hide Step, Count;
    if events != [] {
      var n := |events| - 1;
      HumanRunsOnlyOnApproval(events[..n]);
      CountStep(After(events[..n]), events[n]);
    } else {
      NothingRun();
    }
  }

  lemma NothingRun()
    ensures Count(NEW_THREAD.history) == 0
  {
  }
}
