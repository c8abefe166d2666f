/**
 remediation/workflows/guided_workflow.py: the step-by-step workflow that waits for evidence.
 */
module GuidedWorkflow {
  import opened Prelude

  datatype Mode = PENDING | IN_PROGRESS | WAITING_EVIDENCE | COMPLETED

  /** One step of a playbook; the id may be missing. */
  datatype WorkflowStep = WorkflowStep(stepId: Option<string>, requiresEvidence: bool)

  datatype Snapshot = Snapshot(steps: seq<WorkflowStep>, index: nat, mode: Mode, evidence: map<string, string>)

  function Digits(n: nat): string {
    if n < 10 then ["0123456789"[n]] else Digits(n / 10) + ["0123456789"[n % 10]]
  }

  /** `current_step.get("step_id", f"step_{index}")` */
  function KeyOf(steps: seq<WorkflowStep>, i: nat): string
    requires i < |steps|
  {
    steps[i].stepId.GetOr("step_" + Digits(i))
  }

  /** The number that a text of digits stands for. */
  ghost function Value(digits: string): int {
    if digits == "" then 0
    else 10 * Value(digits[..|digits| - 1]) + (digits[|digits| - 1] as int - '0' as int)
  }

  /** The digits of a number stand for the number, so that steps without an id have different keys. */
  lemma {:induction false} DigitsRead(n: nat)
    ensures Value(Digits(n)) == n && forall i :: 0 <= i < |Digits(n)| ==> '0' <= Digits(n)[i] <= '9'
  {
    if n >= 10 {
      DigitsRead(n / 10);
      assert Digits(n)[..|Digits(n)| - 1] == Digits(n / 10);
    } else {
      assert Digits(n)[..0] == "";
    }
  }

  datatype Call = Start | Advance | Submit(data: string)

  /** `_evaluate_current_step`: a step without evidence leaves the mode as it is. */
  function Evaluated(s: Snapshot): Snapshot {
    if s.index >= |s.steps| then s.(mode := COMPLETED)
    else if s.steps[s.index].requiresEvidence then s.(mode := WAITING_EVIDENCE)
    else s
  }

  /** None when the code fails on the index of the current step. */
  function Step(s: Snapshot, c: Call): Option<Snapshot> {
    match c
    case Start => Some(Evaluated(s.(mode := IN_PROGRESS)))
    case Advance => Some(if s.mode == WAITING_EVIDENCE then s else Evaluated(s.(index := s.index + 1)))
    case Submit(data) =>
      if s.mode != WAITING_EVIDENCE then Some(s)
      else if s.index >= |s.steps| then None
      else Some(Evaluated(s.(evidence := s.evidence[KeyOf(s.steps, s.index) := data], mode := IN_PROGRESS,
                             index := s.index + 1)))
  }

  class Workflow {
    const steps: seq<WorkflowStep>
    var currentStepIndex: nat
    var mode: Mode
    var evidenceStore: map<string, string>

    ghost function State(): Snapshot
      reads this
    {
      Snapshot(steps, currentStepIndex, mode, evidenceStore)
    }

    constructor (steps: seq<WorkflowStep>)
      ensures State() == New(steps)
    {
      this.steps := steps;
      currentStepIndex, mode, evidenceStore := 0, PENDING, map[];
    }

    method Begin()
      modifies this
      ensures Some(State()) == Step(old(State()), Start)
    {
      mode := IN_PROGRESS;
      EvaluateCurrentStep();
    }

    method EvaluateCurrentStep()
      modifies this`mode
      ensures State() == Evaluated(old(State()))
    {
      if currentStepIndex >= |steps| {
        mode := COMPLETED;
        return;
      }
      if steps[currentStepIndex].requiresEvidence {
        mode := WAITING_EVIDENCE;
      }
    }

    method Advance() returns (advanced: bool)
      modifies this
      ensures advanced <==> old(mode) != WAITING_EVIDENCE
      ensures Some(State()) == Step(old(State()), Call.Advance)
    {
      if mode == WAITING_EVIDENCE {
        return false;
      }
      currentStepIndex := currentStepIndex + 1;
      EvaluateCurrentStep();
      return true;
    }

    method SubmitEvidence(data: string) returns (accepted: bool)
      requires Step(State(), Submit(data)).Some?
      modifies this
      ensures accepted <==> old(mode) == WAITING_EVIDENCE
      ensures Some(State()) == Step(old(State()), Submit(data))
    {
      if mode != WAITING_EVIDENCE {
        return false;
      }
      evidenceStore := evidenceStore[KeyOf(steps, currentStepIndex) := data];
      mode := IN_PROGRESS;
      currentStepIndex := currentStepIndex + 1;
      EvaluateCurrentStep();
      return true;
    }
  }

  // ---------- runs ----------

  function New(steps: seq<WorkflowStep>): Snapshot {
    Snapshot(steps, 0, PENDING, map[])
  }

  ghost function After(s: Snapshot, calls: seq<Call>): Option<Snapshot> {
    if calls == [] then Some(s)
    else
      var before := After(s, calls[..|calls| - 1]);
      if before.None? then None else Step(before.value, calls[|calls| - 1])
  }

  /** What the mode is at a step, whatever happened before. */
  ghost function ModeAt(steps: seq<WorkflowStep>, index: nat): Mode {
    if index >= |steps| then COMPLETED
    else if steps[index].requiresEvidence then WAITING_EVIDENCE
    else IN_PROGRESS
  }

  /** The mode is determined by the current step, and every step passed has its evidence. */
  ghost predicate Orderly(s: Snapshot) {
    && s.mode == ModeAt(s.steps, s.index)
    && forall i :: 0 <= i < s.index && i < |s.steps| && s.steps[i].requiresEvidence ==> KeyOf(s.steps, i) in s.evidence
  }

  lemma StepKeepsOrderly(s: Snapshot, c: Call)
    requires Orderly(s)
    ensures Step(s, c).Some? && Orderly(Step(s, c).value) && Step(s, c).value.steps == s.steps
  {
    hide KeyOf;
  }

  /** For a started workflow, after any calls: no call fails, the mode is determined by the current
      step, and when it is COMPLETED every step that requires evidence has it. */
  lemma {:induction false} StartedStaysOrderly(steps: seq<WorkflowStep>, calls: seq<Call>)
    ensures After(New(steps), [Start] + calls).Some?
    ensures var s := After(New(steps), [Start] + calls).value;
            && s.steps == steps && Orderly(s)
            && (s.mode == COMPLETED ==> forall i :: 0 <= i < |steps| && steps[i].requiresEvidence ==>
                KeyOf(steps, i) in s.evidence)
    decreases |calls|
  {
    hide KeyOf;
    var n := |calls| - 1;
    assert ([Start] + calls)[..|calls|] == if calls == [] then [] else [Start] + calls[..n];
    if calls != [] {
      StartedStaysOrderly(steps, calls[..n]);
      StepKeepsOrderly(After(New(steps), [Start] + calls[..n]).value, calls[n]);
    }
  }

  /** No sequence of calls on a new workflow, started or not, runs off the end of the steps. */
  lemma {:induction false} NeverFails(steps: seq<WorkflowStep>, calls: seq<Call>)
    ensures After(New(steps), calls).Some?
    ensures var s := After(New(steps), calls).value;
            s.steps == steps && (s.mode == WAITING_EVIDENCE ==> s.index < |steps| && steps[s.index].requiresEvidence)
  {
    hide KeyOf;
    if calls != [] {
      NeverFails(steps, calls[..|calls| - 1]);
    }
  }

  /** After any calls, evidence that is submitted while it is waited for is stored under the id of the current step,
      or under "step_" and its number when it has none, and the workflow moves to the next step. */
  lemma SubmissionIsStored(steps: seq<WorkflowStep>, calls: seq<Call>, data: string)
    requires After(New(steps), calls).Some? && After(New(steps), calls).value.mode == WAITING_EVIDENCE
    ensures var s := After(New(steps), calls).value;
            var s' := After(New(steps), calls + [Submit(data)]);
            && s.index < |steps| && s'.Some? && s'.value.index == s.index + 1
            && var id := steps[s.index].stepId;
               s'.value.evidence == s.evidence[(if id.Some? then id.value else "step_" + Digits(s.index)) := data]
  {
    hide Digits;
    NeverFails(steps, calls);
    assert (calls + [Submit(data)])[..|calls|] == calls;
  }

  // ---------- whose evidence is kept ----------

  /** The evidence accepted for each step. */
  ghost function Given(s: Snapshot, calls: seq<Call>): map<nat, string> {
    if calls == [] then map[]
    else
      var n := |calls| - 1;
      var before := After(s, calls[..n]);
      if before.Some? && before.value.mode == WAITING_EVIDENCE && calls[n].Submit?
      then Given(s, calls[..n])[before.value.index := calls[n].data]
      else Given(s, calls[..n])
  }

  /** The first call that is not a submission: a new workflow ignores submissions. */
  ghost function FirstMove(calls: seq<Call>): Option<Call> {
    if calls == [] then None
    else
      var n := |calls| - 1;
      if FirstMove(calls[..n]).Some? then FirstMove(calls[..n])
      else if calls[n].Submit? then None else Some(calls[n])
  }

  /** The evidence given under a key for the last of the first `n` steps that has it. */
  ghost function LastGiven(steps: seq<WorkflowStep>, given: map<nat, string>, n: nat, key: string): Option<string>
    requires n <= |steps|
  {
    if n == 0 then None
    else if n - 1 in given && KeyOf(steps, n - 1) == key then Some(given[n - 1])
    else LastGiven(steps, given, n - 1, key)
  }

  ghost function Stored(evidence: map<string, string>, key: string): Option<string> {
    if key in evidence then Some(evidence[key]) else None
  }

  /** A workflow that moved from step `first` on: the steps passed that require evidence are those
      it was given for, and the last given under each key is stored. */
  ghost predicate Accounted(s: Snapshot, given: map<nat, string>, first: nat) {
    && first <= s.index
    && (s.mode == WAITING_EVIDENCE <==> s.index < |s.steps| && s.steps[s.index].requiresEvidence)
    && (s.mode == COMPLETED <==> s.index >= |s.steps|)
    && (forall i :: i in given <==> first <= i < s.index && i < |s.steps| && s.steps[i].requiresEvidence)
    && (forall key :: Stored(s.evidence, key) == LastGiven(s.steps, given, |s.steps|, key))
  }

  lemma {:induction false} LastGivenGrows(steps: seq<WorkflowStep>, given: map<nat, string>, n: nat, key: string,
                                          k: nat, data: string)
    requires n <= |steps| && k < |steps| && forall i :: i in given ==> i < k
    ensures LastGiven(steps, given[k := data], n, key)
         == if k < n && KeyOf(steps, k) == key then Some(data) else LastGiven(steps, given, n, key)
  {
    hide KeyOf;
    if n > 0 {
      LastGivenGrows(steps, given, n - 1, key, k, data);
    }
  }

  lemma {:induction false} LastGivenIff(steps: seq<WorkflowStep>, given: map<nat, string>, n: nat, key: string)
    requires n <= |steps|
    ensures LastGiven(steps, given, n, key).Some? <==> exists i :: 0 <= i < n && i in given && KeyOf(steps, i) == key
  {
    hide KeyOf;
    if n > 0 {
      LastGivenIff(steps, given, n - 1, key);
    }
  }

  lemma StepKeepsAccounted(s: Snapshot, c: Call, given: map<nat, string>, first: nat)
    requires Accounted(s, given, first)
    ensures Step(s, c).Some? && Step(s, c).value.steps == s.steps
    ensures Accounted(Step(s, c).value,
                      if s.mode == WAITING_EVIDENCE && c.Submit? then given[s.index := c.data] else given, first)
  {
    hide KeyOf, LastGiven;
    if s.mode == WAITING_EVIDENCE && c.Submit? {
      var evidence, given' := s.evidence[KeyOf(s.steps, s.index) := c.data], given[s.index := c.data];
      forall key
        ensures Stored(evidence, key) == LastGiven(s.steps, given', |s.steps|, key)
      {
        LastGivenGrows(s.steps, given, |s.steps|, key, s.index, c.data);
      }
    }
  }

  /** The step at which a workflow begins to move. */
  ghost function FirstStep(calls: seq<Call>): nat {
    if FirstMove(calls) == Some(Start) then 0 else 1
  }

  lemma {:induction false} RunIsAccounted(steps: seq<WorkflowStep>, calls: seq<Call>)
    ensures After(New(steps), calls).Some? && After(New(steps), calls).value.steps == steps
    ensures FirstMove(calls) == None ==>
              After(New(steps), calls).value == New(steps) && Given(New(steps), calls) == map[]
    ensures FirstMove(calls).Some? ==>
              Accounted(After(New(steps), calls).value, Given(New(steps), calls), FirstStep(calls))
    ensures FirstMove(calls).Some? ==> FirstMove(calls) == Some(Start) || FirstMove(calls) == Some(Advance)
  {
    hide Accounted, KeyOf;
    if calls != [] {
      var n := |calls| - 1;
      RunIsAccounted(steps, calls[..n]);
      if FirstMove(calls[..n]).Some? {
        StepKeepsAccounted(After(New(steps), calls[..n]).value, calls[n], Given(New(steps), calls[..n]),
                           FirstStep(calls[..n]));
      } else {
        MoveIsAccounted(steps, calls[n]);
      }
    }
  }

  lemma MoveIsAccounted(steps: seq<WorkflowStep>, c: Call)
    ensures Step(New(steps), c).Some? && Step(New(steps), c).value.steps == steps
    ensures c.Submit? ==> Step(New(steps), c).value == New(steps)
    ensures !c.Submit? ==> Accounted(Step(New(steps), c).value, map[], if c == Start then 0 else 1)
  {
    hide LastGiven;
    forall key
      ensures LastGiven(steps, map[], |steps|, key) == None
    {
      LastGivenIff(steps, map[], |steps|, key);
    }
  }

  /** Every step that requires evidence has some stored under its key. */
  ghost predicate EvidenceComplete(s: Snapshot) {
    forall i :: 0 <= i < |s.steps| && s.steps[i].requiresEvidence ==> KeyOf(s.steps, i) in s.evidence
  }

  /** A step after the first requires evidence under the key of the first. */
  ghost predicate KeyUsedAgain(steps: seq<WorkflowStep>)
    requires steps != []
  {
    exists j :: 0 < j < |steps| && steps[j].requiresEvidence && KeyOf(steps, j) == KeyOf(steps, 0)
  }

  /** A workflow that is advanced before it is started, and completes, has all its evidence if and only
      if its first step requires none or shares its key with a later step that does. */
  lemma UnstartedCompleteIff(steps: seq<WorkflowStep>, calls: seq<Call>)
    requires FirstMove(calls) == Some(Advance) && After(New(steps), calls).Some?
    requires After(New(steps), calls).value.mode == COMPLETED
    ensures EvidenceComplete(After(New(steps), calls).value) <==>
            steps == [] || !steps[0].requiresEvidence || KeyUsedAgain(steps)
  {
    hide KeyOf, LastGiven, After, Given, FirstMove;
    RunIsAccounted(steps, calls);
    var s, given := After(New(steps), calls).value, Given(New(steps), calls);
    forall key
      ensures key in s.evidence <==> exists i :: 0 <= i < |steps| && i in given && KeyOf(steps, i) == key
    {
      LastGivenIff(steps, given, |steps|, key);
      assert Stored(s.evidence, key) == LastGiven(steps, given, |steps|, key);
    }
    if steps != [] && KeyUsedAgain(steps) {
      var j :| 0 < j < |steps| && steps[j].requiresEvidence && KeyOf(steps, j) == KeyOf(steps, 0);
      assert j in given;
    }
    forall i | 0 < i < |steps| && steps[i].requiresEvidence
      ensures KeyOf(steps, i) in s.evidence
    {
      assert i in given;
    }
  }

  /** The failing case: without a start the workflow completes with no evidence for its only step. */
  lemma UnstartedSkipsEvidence(id: string)
    ensures After(New([WorkflowStep(Some(id), true)]), [Advance])
         == Some(Snapshot([WorkflowStep(Some(id), true)], 1, COMPLETED, map[]))
  {
    assert [Advance][..0] == [];
  }

  function Advances(n: nat): seq<Call> {
    seq(n, _ => Advance)
  }

  /** A step without evidence leaves the mode as it is: a workflow that was never started, and has only passed over
      its first step and such steps, is still PENDING. */
  lemma {:induction false} UnstartedStaysPending(steps: seq<WorkflowStep>, n: nat)
    requires n < |steps| && forall i :: 0 < i <= n ==> !steps[i].requiresEvidence
    ensures After(New(steps), Advances(n)) == Some(Snapshot(steps, n, PENDING, map[]))
  {
    if n > 0 {
      UnstartedStaysPending(steps, n - 1);
      assert Advances(n)[..n - 1] == Advances(n - 1);
    }
  }

  /** What was submitted for each step is what is stored under its key. */
  ghost predicate OwnEvidenceKept(s: Snapshot, given: map<nat, string>) {
    forall i :: i in given && i < |s.steps| ==> Stored(s.evidence, KeyOf(s.steps, i)) == Some(given[i])
  }

  /** Steps that share a key were given the same evidence. */
  ghost predicate SameUnderSameKey(steps: seq<WorkflowStep>, given: map<nat, string>) {
    forall i, j :: i in given && j in given && i < j < |steps| && KeyOf(steps, i) == KeyOf(steps, j) ==>
             given[i] == given[j]
  }

  /** Each step's own evidence is kept if and only if steps that share a key were given the same. */
  lemma {:induction false} OwnEvidenceKeptIff(steps: seq<WorkflowStep>, calls: seq<Call>)
    requires FirstMove(calls).Some? && After(New(steps), calls).Some?
    ensures OwnEvidenceKept(After(New(steps), calls).value, Given(New(steps), calls))
       <==> SameUnderSameKey(steps, Given(New(steps), calls))
  {
    hide KeyOf, LastGiven, After, Given, FirstMove;
    RunIsAccounted(steps, calls);
    var s, given := After(New(steps), calls).value, Given(New(steps), calls);
    if SameUnderSameKey(steps, given) {
      forall i | i in given && i < |steps|
        ensures Stored(s.evidence, KeyOf(steps, i)) == Some(given[i])
      {
        var j := LastUnderKey(steps, given, |steps|, i);
      }
    }
  }

  lemma {:induction false} LastUnderKey(steps: seq<WorkflowStep>, given: map<nat, string>, n: nat, i: nat)
      returns (j: nat)
    requires i < n <= |steps| && i in given
    ensures i <= j < n && j in given && KeyOf(steps, j) == KeyOf(steps, i)
    ensures LastGiven(steps, given, n, KeyOf(steps, i)) == Some(given[j])
  {
    hide KeyOf;
    if n - 1 in given && KeyOf(steps, n - 1) == KeyOf(steps, i) {
      j := n - 1;
    } else {
      j := LastUnderKey(steps, given, n - 1, i);
    }
  }

  ghost predicate DistinctKeys(steps: seq<WorkflowStep>) {
    forall i, j :: 0 <= i < j < |steps| && steps[i].requiresEvidence && steps[j].requiresEvidence ==>
      KeyOf(steps, i) != KeyOf(steps, j)
  }

  ghost predicate KeptInAllRuns(steps: seq<WorkflowStep>) {
    forall calls :: FirstMove(calls) == Some(Start) ==>
      OwnEvidenceKept(After(New(steps), calls).GetOr(New(steps)), Given(New(steps), calls))
  }

  function DataOf(i: nat): string {
    seq(i, _ => 'x')
  }

  function WalkCall(steps: seq<WorkflowStep>, n: nat): Call
    requires n < |steps|
  {
    if steps[n].requiresEvidence then Submit(DataOf(n)) else Advance
  }

  /** A run through the first `n` steps that submits something different for each. */
  ghost function Walk(steps: seq<WorkflowStep>, n: nat): seq<Call>
    requires n <= |steps|
  {
    if n == 0 then [Start] else Walk(steps, n - 1) + [WalkCall(steps, n - 1)]
  }

  /** The first `n` steps are passed, each with its own evidence. */
  ghost predicate Walked(steps: seq<WorkflowStep>, s: Option<Snapshot>, given: map<nat, string>, n: nat) {
    && s.Some? && s.value.steps == steps && s.value.index == n && s.value.mode == ModeAt(steps, n)
    && n <= |steps| && forall i :: 0 <= i < n && steps[i].requiresEvidence ==> i in given && given[i] == DataOf(i)
  }

  lemma {:induction false} WalkReaches(steps: seq<WorkflowStep>, n: nat)
    requires n <= |steps|
    ensures FirstMove(Walk(steps, n)) == Some(Start) && After(New(steps), Walk(steps, n)).Some?
    ensures Walked(steps, After(New(steps), Walk(steps, n)), Given(New(steps), Walk(steps, n)), n)
  {
    hide Walked, Step, After, Given, FirstMove;
    if n == 0 {
      WalkBegins(steps);
    } else {
      var before := Walk(steps, n - 1);
      WalkReaches(steps, n - 1);
      LastCall(New(steps), before, WalkCall(steps, n - 1));
      WalkStep(steps, After(New(steps), before), Given(New(steps), before), n - 1);
    }
  }

  lemma WalkBegins(steps: seq<WorkflowStep>)
    ensures FirstMove([Start]) == Some(Start) && After(New(steps), [Start]).Some?
    ensures Walked(steps, After(New(steps), [Start]), Given(New(steps), [Start]), 0)
  {
    assert [Start][..0] == [];
  }

  lemma WalkStep(steps: seq<WorkflowStep>, s: Option<Snapshot>, given: map<nat, string>, n: nat)
    requires n < |steps| && Walked(steps, s, given, n)
    ensures Step(s.value, WalkCall(steps, n)).Some?
    ensures Walked(steps, Step(s.value, WalkCall(steps, n)),
                   if s.value.mode == WAITING_EVIDENCE && WalkCall(steps, n).Submit?
                   then given[s.value.index := WalkCall(steps, n).data] else given, n + 1)
  {
    hide KeyOf, DataOf;
  }

  lemma LastCall(s: Snapshot, before: seq<Call>, c: Call)
    ensures After(s, before + [c]) == if After(s, before).None? then None else Step(After(s, before).value, c)
    ensures Given(s, before + [c])
         == if After(s, before).Some? && After(s, before).value.mode == WAITING_EVIDENCE && c.Submit?
            then Given(s, before)[After(s, before).value.index := c.data] else Given(s, before)
    ensures FirstMove(before).Some? ==> FirstMove(before + [c]) == FirstMove(before)
  {
    hide Step;
    assert (before + [c])[..|before|] == before;
  }

  /** Evidence is stored by key: every started run keeps each step's own evidence if and only if the
      steps that require it have different keys. */
  lemma KeptInAllRunsIff(steps: seq<WorkflowStep>)
    ensures KeptInAllRuns(steps) <==> DistinctKeys(steps)
  {
    hide KeyOf, After, Given, FirstMove, OwnEvidenceKept;
    if DistinctKeys(steps) {
      forall calls | FirstMove(calls) == Some(Start)
        ensures OwnEvidenceKept(After(New(steps), calls).GetOr(New(steps)), Given(New(steps), calls))
      {
        RunIsAccounted(steps, calls);
        OwnEvidenceKeptIff(steps, calls);
      }
    } else {
      var calls := Walk(steps, |steps|);
      WalkReaches(steps, |steps|);
      OwnEvidenceKeptIff(steps, calls);
      var i, j :| 0 <= i < j < |steps| && steps[i].requiresEvidence && steps[j].requiresEvidence
                  && KeyOf(steps, i) == KeyOf(steps, j);
      assert |DataOf(i)| == i && |DataOf(j)| == j;
    }
  }
}
