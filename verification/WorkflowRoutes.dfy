/**
  Where the answers of the outside world lead a pipeline, and where they do not (ai-agents/ops_agent/workflow.py):
  what suppressed and resolved alerts leave behind, what each path through the graph writes, and what a gate holds.
*/
module WorkflowRoutes {
  import opened Prelude
  import opened PipelineModels
  import opened PolicyRegistry
  import opened TaskStore
  import opened Workflow

  // ---------------------------------------------------------------- a pipeline that has ended

  ghost predicate HasEnded(w: World, k: nat) {
    k < |w.pipelines| && w.pipelines[k].node.End?
  }

  lemma EndedStep(w: World, k: nat, a: Action)
    requires w.policies.Valid() && HasEnded(w, k)
    ensures HasEnded(Next(w, a), k) && Next(w, a).pipelines[k] == w.pipelines[k]
    ensures a.Advance? && a.k == k ==> Next(w, a) == w
  {
    if a.Advance? && a.k == k {
      assert w.pipelines[k := w.pipelines[k]] == w.pipelines;
    }
  }

  /** A pipeline that has ended stays as it is, whatever else happens. */
  lemma {:induction false} EndIsFinal(w: World, k: nat, actions: seq<Action>)
    requires w.policies.Valid() && HasEnded(w, k)
    ensures HasEnded(Workflow.Run(w, actions), k) && Workflow.Run(w, actions).pipelines[k] == w.pipelines[k]
    decreases |actions|
  {
    if actions != [] {
      EndIsFinal(w, k, actions[..|actions| - 1]);
      EndedStep(Workflow.Run(w, actions[..|actions| - 1]), k, actions[|actions| - 1]);
    }
  }

  /** After `m` steps pipeline `k` is `p`, and advancing it then changes nothing at all. */
  ghost predicate DoneAt(w: World, actions: seq<Action>, m: nat, k: nat, p: Pipeline)
    requires w.policies.Valid() && m <= |actions|
  {
    var e := Workflow.Run(w, actions[..m]);
    && HasEnded(e, k) && e.pipelines[k] == p
    && (m < |actions| && actions[m].Advance? && actions[m].k == k ==> Next(e, actions[m]) == e)
  }

  /** From step `n` on the pipeline is done. */
  ghost predicate DoneAs(w: World, actions: seq<Action>, n: nat, k: nat, p: Pipeline)
    requires w.policies.Valid()
  {
    forall m: nat :: n < m <= |actions| ==> DoneAt(w, actions, m, k, p)
  }

  lemma DoneHere(w: World, actions: seq<Action>, m: nat, k: nat, e: World)
    requires w.policies.Valid() && m <= |actions| && e == Workflow.Run(w, actions[..m]) && HasEnded(e, k)
    ensures DoneAt(w, actions, m, k, e.pipelines[k])
  {
    if m < |actions| { EndedStep(e, k, actions[m]); }
  }

  lemma {:induction false} EndedAfter(w: World, actions: seq<Action>, n: nat, m: nat, k: nat, p: Pipeline)
    requires w.policies.Valid() && n < m <= |actions| && DoneAt(w, actions, n + 1, k, p)
    ensures DoneAt(w, actions, m, k, p)
    decreases m
  {
    if m > n + 1 {
      EndedAfter(w, actions, n, m - 1, k, p);
      StepOfRun(w, actions, m - 1);
      EndedStep(Workflow.Run(w, actions[..m - 1]), k, actions[m - 1]);
      DoneHere(w, actions, m, k, Workflow.Run(w, actions[..m]));
    }
  }

  lemma EndsFor(w: World, actions: seq<Action>, n: nat, k: nat, p: Pipeline)
    requires w.policies.Valid() && n < |actions| && DoneAt(w, actions, n + 1, k, p)
    ensures DoneAs(w, actions, n, k, p)
  {
    forall m: nat | n < m <= |actions|
      ensures DoneAt(w, actions, m, k, p)
    {
      EndedAfter(w, actions, n, m, k, p);
    }
  }

  lemma StepOfRun(w: World, actions: seq<Action>, n: nat)
    requires w.policies.Valid() && n < |actions|
    ensures Workflow.Run(w, actions[..n]).policies.Valid()
    ensures Workflow.Run(w, actions[..n + 1]) == Next(Workflow.Run(w, actions[..n]), actions[n])
  {
    assert actions[..n + 1][..n] == actions[..n];
  }

  // ---------------------------------------------------------------- what every pipeline carries

  predicate NeedsNoFix(fix: Fix) { fix.fixType == "no_action" }

  predicate SkipsValidation(fix: Fix) { fix.fixType == "escalate_human" || fix.risk == "high" }

  /** What a pipeline has at each node: a task once one is opened, a fix once one is known, and from where. */
  predicate Carries(p: Pipeline) {
    match p.node
    case CheckIntents => p.task.None? && p.fix.None? && p.fastPath.None?
    case PolicyFastPath => p.task.None? && p.fix.None? && p.fastPath.None?
    case NoAiGate => p.task.None? && p.fix.None? && p.fastPath.None?
    case Investigate => p.task.None? && p.fix.None? && p.fastPath.None?
    case Investigating => p.task.Some? && p.fix.None? && p.fastPath.None?
    case ProposeFix => p.task.Some? && p.fix.None? && p.fastPath.None?
    case Validate => p.task.Some? && p.fix.Some? && p.fastPath.None? && !NeedsNoFix(p.fix.value) && !SkipsValidation(p.fix.value)
    case LowConfidenceGate => p.fix.None? && p.fastPath.None?
    case End => true
    case _ => p.task.Some? && p.fix.Some? && (p.fastPath.None? ==> !NeedsNoFix(p.fix.value))
  }

  /** The gate's content is the proposed fix with the maintenance flag and the decision's policy and level. */
  ghost predicate GateHolds(w: World, p: Pipeline, d: AutonomyDecision) {
    p.task.Some? && p.fix.Some? && ContentOf(w, p.task.value) == Gate(p.fix.value, p.doNotAutoExecute, d.policyId, d.level)
  }

  ghost predicate Sound(w: World, p: Pipeline) {
    && Carries(p)
    && match p.node
       case RecordGate(d) => GateHolds(w, p, d)
       case CommitGate(d) => GateHolds(w, p, d)
       case _ => true
  }

  ghost predicate AllSound(w: World) {
    forall k :: 0 <= k < |w.pipelines| ==> Sound(w, w.pipelines[k])
  }

  lemma AdvanceCarries(w: World, p: Pipeline, input: Input)
    requires w.policies.Valid() && Carries(p)
    ensures Carries(AdvancePipeline(w, p, input).1)
  {
  }

  lemma AdvanceHolds(w: World, p: Pipeline, input: Input)
    requires w.policies.Valid() && Sound(w, p)
    ensures Sound(AdvancePipeline(w, p, input).0, AdvancePipeline(w, p, input).1)
  {
    AdvanceCarries(w, p, input);
  }

  /** Other pipelines' gates keep their content. */
  lemma OthersHold(w: World, k: nat, l: nat, input: Input)
    requires Inv(w) && AllSound(w) && k < |w.pipelines| && l < |w.pipelines| && k != l
    ensures Sound(AdvancePipeline(w, w.pipelines[k], input).0, w.pipelines[l])
  {
    var p, q := w.pipelines[k], w.pipelines[l];
    AdvanceKeepsInv(w, k, input);
    assert PipelineInv(w, q) && Sound(w, q);
    assert PipelineEffect(w, AdvancePipeline(w, p, input).0, p.task);
  }

  lemma NextKeepsSound(w: World, a: Action)
    requires Inv(w) && AllSound(w)
    ensures AllSound(Next(w, a))
  {
    var w' := Next(w, a);
    if a.Advance? && a.k < |w.pipelines| {
      forall l | 0 <= l < |w'.pipelines|
        ensures Sound(w', w'.pipelines[l])
      {
        if l == a.k { AdvanceHolds(w, w.pipelines[l], a.input); } else { OthersHold(w, a.k, l, a.input); }
      }
    } else {
      forall l | 0 <= l < |w'.pipelines|
        ensures Sound(w', w'.pipelines[l])
      {
        if l < |w.pipelines| { assert Sound(w, w.pipelines[l]); }
      }
    }
  }

  lemma {:induction false} RunFromSound(w: World, actions: seq<Action>)
    requires Inv(w) && AllSound(w)
    ensures Inv(Workflow.Run(w, actions)) && AllSound(Workflow.Run(w, actions))
    decreases |actions|
  {
    RunKeepsInv(w, actions);
    if actions != [] {
      var front := actions[..|actions| - 1];
      RunFromSound(w, front);
      NextKeepsSound(Workflow.Run(w, front), actions[|actions| - 1]);
    }
  }

  /** In every run each pipeline has at its node what the graph brings there, and each gate in progress holds its fix. */
  lemma RunKeepsSound(policies: PolicyTable, now: int, actions: seq<Action>)
    requires policies.Valid()
    ensures Inv(Workflow.Run(Initial(policies, now), actions)) && AllSound(Workflow.Run(Initial(policies, now), actions))
  {
    RunFromSound(Initial(policies, now), actions);
  }

  // ---------------------------------------------------------------- answers that end a pipeline

  /** Step `n` of the run gives pipeline `k`, which is then `p`, this answer. */
  ghost predicate Answered(w: World, actions: seq<Action>, n: nat, k: nat, p: Pipeline, input: Input)
    requires w.policies.Valid()
  {
    && n < |actions| && actions[n] == Advance(k, input)
    && k < |Workflow.Run(w, actions[..n]).pipelines| && Workflow.Run(w, actions[..n]).pipelines[k] == p
  }

  /** The answer ends pipeline `k`, leaves the content alone and writes these events about its task. */
  ghost predicate EndsWriting(before: World, after: World, k: nat, p: Pipeline, kinds: seq<EventKind>) {
    && k < |before.pipelines| && after.pipelines == before.pipelines[k := p] && p.node.End?
    && after.content == before.content && after.resumes == before.resumes
    && after.store.events == before.store.events + if p.task.Some? then EventsOf(p.task.value, kinds) else []
  }

  function EventsOf(id: TaskId, kinds: seq<EventKind>): (events: seq<Event>)
    ensures |events| == |kinds| && forall i :: 0 <= i < |events| ==> events[i] == Event(id, kinds[i])
  {
    seq(|kinds|, i requires 0 <= i < |kinds| => Event(id, kinds[i]))
  }

  /** The pipeline ends at step `n`, writing just these events, and does nothing ever after. */
  ghost predicate EndsFromHere(w: World, actions: seq<Action>, n: nat, k: nat, p: Pipeline, kinds: seq<EventKind>)
    requires w.policies.Valid() && n < |actions|
  {
    && EndsWriting(Workflow.Run(w, actions[..n]), Workflow.Run(w, actions[..n + 1]), k, p, kinds)
    && DoneAs(w, actions, n, k, p)
  }

  lemma EndsFromStep(w: World, actions: seq<Action>, n: nat, k: nat, p: Pipeline, kinds: seq<EventKind>)
    requires w.policies.Valid() && n < |actions|
    requires Workflow.Run(w, actions[..n]).policies.Valid()
    requires EndsWriting(Workflow.Run(w, actions[..n]), Next(Workflow.Run(w, actions[..n]), actions[n]), k, p, kinds)
    ensures EndsFromHere(w, actions, n, k, p, kinds)
  {
    StepOfRun(w, actions, n);
    DoneHere(w, actions, n + 1, k, Workflow.Run(w, actions[..n + 1]));
    EndsFor(w, actions, n, k, p);
  }

  /** A suppressed alert never gets a task: its pipeline ends on the spot and writes nothing, then or later. */
  lemma SuppressedGetsNoTask(policies: PolicyTable, now: int, actions: seq<Action>, n: nat, k: nat, p: Pipeline)
    requires policies.Valid() && Answered(Initial(policies, now), actions, n, k, p, SuppressIntent) && p.node.CheckIntents?
    ensures p.task == None
    ensures Workflow.Run(Initial(policies, now), actions[..n + 1]).store == Workflow.Run(Initial(policies, now), actions[..n]).store
    ensures EndsFromHere(Initial(policies, now), actions, n, k, p.(node := End), [])
  {
    var w := Initial(policies, now);
    RunKeepsSound(policies, now, actions[..n]);
    assert Sound(Workflow.Run(w, actions[..n]), p);
    StepOfRun(w, actions, n);
    SuppressedStep(Workflow.Run(w, actions[..n]), k, p);
    EndsFromStep(w, actions, n, k, p.(node := End), []);
  }

  lemma SuppressedStep(w: World, k: nat, p: Pipeline)
    requires w.policies.Valid() && k < |w.pipelines| && w.pipelines[k] == p && p.node.CheckIntents? && p.task.None?
    ensures Next(w, Advance(k, SuppressIntent)).store == w.store
    ensures EndsWriting(w, Next(w, Advance(k, SuppressIntent)), k, p.(node := End), [])
  {
    assert w.store.events + [] == w.store.events;
  }

  /** Where nothing needs doing the task is completed and the pipeline ends: no gate, no approval from it, then or later. */
  lemma NoActionReachesNoGate(w: World, actions: seq<Action>, n: nat, k: nat, p: Pipeline)
    requires w.policies.Valid() && Answered(w, actions, n, k, p, NoActionNeeded) && p.node.Investigating? && p.task.Some?
    ensures EndsFromHere(w, actions, n, k, p.(node := End), [Completed, Noted(OtherNote("rca_complete"))])
  {
    StepOfRun(w, actions, n);
    NoActionStep(Workflow.Run(w, actions[..n]), k, p);
    EndsFromStep(w, actions, n, k, p.(node := End), [Completed, Noted(OtherNote("rca_complete"))]);
  }

  lemma NoActionStep(w: World, k: nat, p: Pipeline)
    requires w.policies.Valid() && k < |w.pipelines| && w.pipelines[k] == p && p.node.Investigating? && p.task.Some?
    ensures EndsWriting(w, Next(w, Advance(k, NoActionNeeded)), k, p.(node := End), [Completed, Noted(OtherNote("rca_complete"))])
  {
    var id := p.task.value;
    assert EventsOf(id, [Completed, Noted(OtherNote("rca_complete"))]) == [Event(id, Completed), Event(id, Noted(OtherNote("rca_complete")))];
  }

  /** Neither does a proposal that changes nothing. */
  lemma NoFixReachesNoGate(w: World, actions: seq<Action>, n: nat, k: nat, p: Pipeline, fix: Fix)
    requires w.policies.Valid() && Answered(w, actions, n, k, p, Proposed(fix)) && p.node.ProposeFix? && fix.fixType == "no_action"
    ensures EndsFromHere(w, actions, n, k, p.(node := End, fix := Some(fix)), [])
  {
    StepOfRun(w, actions, n);
    NoFixStep(Workflow.Run(w, actions[..n]), k, p, fix);
    EndsFromStep(w, actions, n, k, p.(node := End, fix := Some(fix)), []);
  }

  lemma NoFixStep(w: World, k: nat, p: Pipeline, fix: Fix)
    requires w.policies.Valid() && k < |w.pipelines| && w.pipelines[k] == p && p.node.ProposeFix? && fix.fixType == "no_action"
    ensures EndsWriting(w, Next(w, Advance(k, Proposed(fix))), k, p.(node := End, fix := Some(fix)), [])
  {
    assert w.store.events + [] == w.store.events;
    assert p.task.Some? ==> EventsOf(p.task.value, []) == [];
  }

  /** Without budget the investigation fails its task and ends. */
  lemma NoBudgetFailsTask(w: World, actions: seq<Action>, n: nat, k: nat, p: Pipeline)
    requires w.policies.Valid() && Answered(w, actions, n, k, p, BudgetExceeded) && p.node.Investigating? && p.task.Some?
    ensures EndsFromHere(w, actions, n, k, p.(node := End), [TaskFailed])
  {
    StepOfRun(w, actions, n);
    NoBudgetStep(Workflow.Run(w, actions[..n]), k, p);
    EndsFromStep(w, actions, n, k, p.(node := End), [TaskFailed]);
  }

  lemma NoBudgetStep(w: World, k: nat, p: Pipeline)
    requires w.policies.Valid() && k < |w.pipelines| && w.pipelines[k] == p && p.node.Investigating? && p.task.Some?
    ensures EndsWriting(w, Next(w, Advance(k, BudgetExceeded)), k, p.(node := End), [TaskFailed])
  {
    assert EventsOf(p.task.value, [TaskFailed]) == [Event(p.task.value, TaskFailed)];
  }

  // ---------------------------------------------------------------- uninterrupted walks through the graph

  /** One pipeline given a list of answers. */
  ghost function Walk(w: World, p: Pipeline, inputs: seq<Input>): (World, Pipeline)
    requires w.policies.Valid()
    decreases |inputs|
  {
    if inputs == [] then (w, p)
    else
      var (w', p') := AdvancePipeline(w, p, inputs[0]);
      Walk(w', p', inputs[1..])
  }

  function NewPipeline(alertname: string, inMaintenance: bool): Pipeline {
    Pipeline(CheckIntents, None, None, None, inMaintenance, alertname)
  }

  /** The store has these events more, and the task, opened on the way, is left in this status with plain content. */
  ghost predicate Leaves(w: World, w': World, id: TaskId, kinds: seq<EventKind>, status: Status, content: Content) {
    && w'.store.events == w.store.events + EventsOf(id, kinds)
    && HasStatus(w'.store, id, status)
    && (forall other :: other != id ==> (other in w'.store.tasks <==> other in w.store.tasks))
    && (forall other :: other != id && other in w.store.tasks ==> w'.store.tasks[other] == w.store.tasks[other])
    && w'.content == w.content[id := content]
  }

  lemma WalkOne(w: World, p: Pipeline, input: Input, rest: seq<Input>)
    requires w.policies.Valid()
    ensures var (w', p') := AdvancePipeline(w, p, input);
            Walk(w, p, [input] + rest) == Walk(w', p', rest)
  {
    assert ([input] + rest)[1..] == rest;
  }

  lemma OpenLeaves(w: World, id: TaskId)
    requires Unused(w, id)
    ensures Leaves(w, w.(store := Open(w.store, id), content := w.content[id := Plain]), id, [Created, TaskClaimed, Started], Running, Plain)
  {
    assert EventsOf(id, [Created, TaskClaimed, Started]) == [Event(id, Created), Event(id, TaskClaimed), Event(id, Started)];
  }

  lemma ParkLeaves(w: World, id: TaskId)
    requires Unused(w, id)
    ensures Leaves(w, w.(store := Park(w.store, id), content := w.content[id := Plain]), id,
                   [Created, Noted(OtherNote("no_ai_skipped")), ApprovalRequested], AwaitingApproval, Plain)
  {
    var kinds := [Created, Noted(OtherNote("no_ai_skipped")), ApprovalRequested];
    assert EventsOf(id, kinds) == [Event(id, kinds[0]), Event(id, kinds[1]), Event(id, kinds[2])];
  }

  /** One more event about the task, and its status and content after it. */
  lemma LeavesOneMore(w: World, w': World, w'': World, id: TaskId, kinds: seq<EventKind>, before: Status, kind: EventKind, status: Status,
                      was: Content, content: Content)
    requires Leaves(w, w', id, kinds, before, was)
    requires w''.store.events == w'.store.events + [Event(id, kind)]
    requires HasStatus(w''.store, id, status) && w''.store.tasks.Keys == w'.store.tasks.Keys
    requires forall other :: other != id && other in w'.store.tasks ==> w''.store.tasks[other] == w'.store.tasks[other]
    requires w''.content == w'.content[id := content]
    ensures Leaves(w, w'', id, kinds + [kind], status, content)
  {
    assert EventsOf(id, kinds + [kind]) == EventsOf(id, kinds) + [Event(id, kind)];
  }

  /** Without AI and without a fast path the alert becomes a task that waits for a human, with no fix attached. */
  lemma NoAiWaitsForHuman(w: World, alertname: string, inMaintenance: bool, id: TaskId)
    requires w.policies.Valid() && Unused(w, id)
    ensures var (w', p') := Walk(w, NewPipeline(alertname, inMaintenance), [NoIntent, NoConditions(false), Opened(id)]);
            && p' == NewPipeline(alertname, inMaintenance).(node := End, task := Some(id))
            && Leaves(w, w', id, [Created, Noted(OtherNote("no_ai_skipped")), ApprovalRequested], AwaitingApproval, Plain)
  {
    var p := NewPipeline(alertname, inMaintenance);
    WalkOne(w, p, NoIntent, [NoConditions(false), Opened(id)]);
    WalkOne(w, p.(node := PolicyFastPath), NoConditions(false), [Opened(id)]);
    WalkOne(w, p.(node := NoAiGate), Opened(id), []);
    ParkLeaves(w, id);
  }

  /** A resolved fast path opens its task, names its policy and goes straight to the gate with the policy's fix. */
  lemma FastPathGoesToGate(w: World, alertname: string, inMaintenance: bool, policyId: PolicyId, fix: Fix, id: TaskId)
    requires w.policies.Valid() && Unused(w, id)
    ensures var (w', p') := Walk(w, NewPipeline(alertname, inMaintenance), [NoIntent, ConditionsPassed(policyId, fix, id)]);
            && p' == Pipeline(DecideGate, Some(id), Some(fix), Some(policyId), inMaintenance, alertname)
            && Leaves(w, w', id, [Created, TaskClaimed, Started, Noted(FastPathResolved(Some(policyId)))], Running, Plain)
  {
    var p := NewPipeline(alertname, inMaintenance);
    var opened' := w.(store := Open(w.store, id), content := w.content[id := Plain]);
    WalkOne(w, p, NoIntent, [ConditionsPassed(policyId, fix, id)]);
    WalkOne(w, p.(node := PolicyFastPath), ConditionsPassed(policyId, fix, id), []);
    OpenLeaves(w, id);
    var w' := AdvancePipeline(w, p.(node := PolicyFastPath), ConditionsPassed(policyId, fix, id)).0;
    LeavesOneMore(w, opened', w', id, [Created, TaskClaimed, Started], Running, Noted(FastPathResolved(Some(policyId))), Running, Plain, Plain);
    assert [Created, TaskClaimed, Started] + [Noted(FastPathResolved(Some(policyId)))] ==
           [Created, TaskClaimed, Started, Noted(FastPathResolved(Some(policyId)))];
  }

  /** An investigation runs on a task of its own. */
  lemma InvestigationOpens(w: World, alertname: string, inMaintenance: bool, id: TaskId)
    requires w.policies.Valid() && Unused(w, id)
    ensures var (w', p') := Walk(w, NewPipeline(alertname, inMaintenance), [NoIntent, NoConditions(true), Opened(id)]);
            && p' == NewPipeline(alertname, inMaintenance).(node := Investigating, task := Some(id))
            && Leaves(w, w', id, [Created, TaskClaimed, Started], Running, Plain)
  {
    var p := NewPipeline(alertname, inMaintenance);
    WalkOne(w, p, NoIntent, [NoConditions(true), Opened(id)]);
    WalkOne(w, p.(node := PolicyFastPath), NoConditions(true), [Opened(id)]);
    WalkOne(w, p.(node := Investigate), Opened(id), []);
    OpenLeaves(w, id);
  }

  lemma ConcludeLeaves(w: World, w': World, id: TaskId)
    requires Leaves(w, w', id, [Created, TaskClaimed, Started], Running, Plain)
    ensures Leaves(w, w'.(store := Conclude(w'.store, id)), id,
                   [Created, TaskClaimed, Started, Completed, Noted(OtherNote("rca_complete"))], Complete, Plain)
  {
    var kinds := [Created, TaskClaimed, Started];
    var done := w'.(store := Step(w'.store, CompleteTask(id)));
    var noted := w'.(store := Conclude(w'.store, id));
    LeavesOneMore(w, w', done, id, kinds, Running, Completed, Complete, Plain, Plain);
    LeavesOneMore(w, done, noted, id, kinds + [Completed], Complete, Noted(OtherNote("rca_complete")), Complete, Plain, Plain);
    assert kinds + [Completed] + [Noted(OtherNote("rca_complete"))] ==
           [Created, TaskClaimed, Started, Completed, Noted(OtherNote("rca_complete"))];
  }

  /** The node a proposal leads to: risky and human fixes go to the gate at once, the others by way of validation. */
  function AfterProposal(fix: Fix): Node {
    if NeedsNoFix(fix) then End else if SkipsValidation(fix) then DecideGate else Validate
  }

  /** A diagnosis completes the task and asks for a fix, which the pipeline then carries to the gate. */
  lemma DiagnosisLeadsToProposal(w: World, p: Pipeline, w0: World, id: TaskId, fix: Fix)
    requires w.policies.Valid() && p.node.Investigating? && p.task == Some(id) && p.fix.None?
    requires Leaves(w0, w, id, [Created, TaskClaimed, Started], Running, Plain)
    ensures var (w', p') := Walk(w, p, [Diagnosed, Proposed(fix)]);
            && p' == p.(node := AfterProposal(fix), fix := Some(fix))
            && Leaves(w0, w', id, [Created, TaskClaimed, Started, Completed, Noted(OtherNote("rca_complete"))], Complete, Plain)
  {
    var w' := w.(store := Conclude(w.store, id));
    WalkOne(w, p, Diagnosed, [Proposed(fix)]);
    WalkOne(w', p.(node := ProposeFix), Proposed(fix), []);
    ConcludeLeaves(w0, w, id);
  }

  /** Validation ends at the gate whatever it finds, with the same fix. */
  lemma ValidationLeadsToGate(w: World, p: Pipeline, input: Input)
    requires w.policies.Valid() && p.node.Validate?
    ensures AdvancePipeline(w, p, input) == (w, p.(node := DecideGate))
  {
  }

  /** The low-confidence gate parks the task it is given. */
  lemma LowConfidenceParks(w0: World, w: World, p: Pipeline, id: TaskId, kinds: seq<EventKind>, status: Status, input: Input)
    requires w.policies.Valid() && p.node.LowConfidenceGate? && p.task == Some(id)
    requires Leaves(w0, w, id, kinds, status, Plain)
    ensures var (w', p') := Walk(w, p, [input]);
            p' == p.(node := End) && Leaves(w0, w', id, kinds + [ApprovalRequested], AwaitingApproval, LowConfidence)
  {
    WalkOne(w, p, input, []);
    LeavesOneMore(w0, w, AdvancePipeline(w, p, input).0, id, kinds, status, ApprovalRequested, AwaitingApproval, Plain, LowConfidence);
  }

  /** A doubtful diagnosis waits for a human without a fix. */
  lemma DoubtWaitsForHuman(w: World, p: Pipeline, w0: World, id: TaskId, input: Input)
    requires w.policies.Valid() && p.node.Investigating? && p.task == Some(id)
    requires Leaves(w0, w, id, [Created, TaskClaimed, Started], Running, Plain)
    ensures var (w', p') := Walk(w, p, [Doubted, input]);
            && p' == p.(node := End)
            && Leaves(w0, w', id, [Created, TaskClaimed, Started, Completed, Noted(OtherNote("rca_complete")), ApprovalRequested],
                      AwaitingApproval, LowConfidence)
  {
    var more := [Created, TaskClaimed, Started, Completed, Noted(OtherNote("rca_complete"))];
    WalkOne(w, p, Doubted, [input]);
    ConcludeLeaves(w0, w, id);
    LowConfidenceParks(w0, w.(store := Conclude(w.store, id)), p.(node := LowConfidenceGate), id, more, Complete, input);
    assert more + [ApprovalRequested] == [Created, TaskClaimed, Started, Completed, Noted(OtherNote("rca_complete")), ApprovalRequested];
  }

  /** So does an investigation that breaks, its task not completed. */
  lemma BreakageWaitsForHuman(w: World, p: Pipeline, w0: World, id: TaskId, input: Input)
    requires w.policies.Valid() && p.node.Investigating? && p.task == Some(id)
    requires Leaves(w0, w, id, [Created, TaskClaimed, Started], Running, Plain)
    ensures var (w', p') := Walk(w, p, [Broken, input]);
            && p' == p.(node := End)
            && Leaves(w0, w', id, [Created, TaskClaimed, Started, ApprovalRequested], AwaitingApproval, LowConfidence)
  {
    var kinds := [Created, TaskClaimed, Started];
    WalkOne(w, p, Broken, [input]);
    LowConfidenceParks(w0, w, p.(node := LowConfidenceGate), id, kinds, Running, input);
    assert kinds + [ApprovalRequested] == [Created, TaskClaimed, Started, ApprovalRequested];
  }

  // ---------------------------------------------------------------- what gates hold, over runs

  predicate AtGate(n: Node) { n.RecordGate? || n.CommitGate? || n.End? }

  /** Pipeline `k` made this gate: it carries the fix and the maintenance flag that the gate shows. */
  ghost predicate MadeBy(w: World, id: TaskId, k: nat) {
    && k < |w.pipelines| && AtGate(w.pipelines[k].node) && w.pipelines[k].task == Some(id)
    && ContentOf(w, id).Gate? && w.pipelines[k].fix == Some(ContentOf(w, id).fix)
    && w.pipelines[k].doNotAutoExecute == ContentOf(w, id).flagged
  }

  ghost predicate GatesMade(w: World) {
    forall id :: ContentOf(w, id).Gate? ==> exists k: nat :: MadeBy(w, id, k)
  }

  lemma AdvanceGateContent(w: World, p: Pipeline, input: Input, id: TaskId)
    requires w.policies.Valid() && Sound(w, p)
    ensures var (w', p') := AdvancePipeline(w, p, input);
            ContentOf(w', id) == ContentOf(w, id)
            || !ContentOf(w', id).Gate?
            || (p'.node.RecordGate? && p'.task == Some(id) && p'.fix == Some(ContentOf(w', id).fix)
                && p'.doNotAutoExecute == ContentOf(w', id).flagged)
  {
  }

  lemma GateStays(w: World, p: Pipeline, input: Input)
    requires w.policies.Valid() && Sound(w, p) && AtGate(p.node)
    ensures var (w', p') := AdvancePipeline(w, p, input);
            AtGate(p'.node) && p'.task == p.task && p'.fix == p.fix && p'.doNotAutoExecute == p.doNotAutoExecute && w'.content == w.content
  {
  }

  lemma AdvanceKeepsMade(w: World, k: nat, input: Input, id: TaskId)
    requires Inv(w) && AllSound(w) && GatesMade(w) && k < |w.pipelines|
    requires ContentOf(Next(w, Advance(k, input)), id).Gate?
    ensures exists l: nat :: MadeBy(Next(w, Advance(k, input)), id, l)
  {
    var p := w.pipelines[k];
    var w' := Next(w, Advance(k, input));
    assert Sound(w, p);
    AdvanceGateContent(w, p, input, id);
    if ContentOf(w', id) == ContentOf(w, id) {
      var l: nat :| MadeBy(w, id, l);
      if l == k { GateStays(w, p, input); }
      assert MadeBy(w', id, l);
    } else {
      assert MadeBy(w', id, k);
    }
  }

  lemma NextKeepsMade(w: World, a: Action)
    requires Inv(w) && AllSound(w) && GatesMade(w)
    ensures GatesMade(Next(w, a))
  {
    var w' := Next(w, a);
    forall id | ContentOf(w', id).Gate?
      ensures exists k: nat :: MadeBy(w', id, k)
    {
      if a.Advance? && a.k < |w.pipelines| {
        AdvanceKeepsMade(w, a.k, a.input, id);
      } else {
        assert w'.content == w.content && |w.pipelines| <= |w'.pipelines|;
        assert ContentOf(w, id).Gate?;
        var k: nat :| MadeBy(w, id, k);
        assert w'.pipelines[k] == w.pipelines[k];
        assert MadeBy(w', id, k);
      }
    }
  }

  lemma {:induction false} RunFromMade(w: World, actions: seq<Action>)
    requires Inv(w) && AllSound(w) && GatesMade(w)
    ensures GatesMade(Workflow.Run(w, actions))
    decreases |actions|
  {
    if actions != [] {
      var front := actions[..|actions| - 1];
      RunFromMade(w, front);
      RunFromSound(w, front);
      NextKeepsMade(Workflow.Run(w, front), actions[|actions| - 1]);
    }
  }

  /** In every run each gate shows the fix and the maintenance flag of the pipeline that made it. */
  lemma RunMakesGates(policies: PolicyTable, now: int, actions: seq<Action>)
    requires policies.Valid()
    ensures GatesMade(Workflow.Run(Initial(policies, now), actions))
  {
    RunFromMade(Initial(policies, now), actions);
  }

  lemma FlagStep(w: World, a: Action, k: nat)
    requires w.policies.Valid() && k < |w.pipelines|
    ensures k < |Next(w, a).pipelines| && Next(w, a).pipelines[k].doNotAutoExecute == w.pipelines[k].doNotAutoExecute
  {
  }

  lemma {:induction false} FlagIsKept(w: World, actions: seq<Action>, k: nat)
    requires w.policies.Valid() && k < |w.pipelines|
    ensures var e := Workflow.Run(w, actions); k < |e.pipelines| && e.pipelines[k].doNotAutoExecute == w.pipelines[k].doNotAutoExecute
    decreases |actions|
  {
    if actions != [] {
      FlagIsKept(w, actions[..|actions| - 1], k);
      FlagStep(Workflow.Run(w, actions[..|actions| - 1]), actions[|actions| - 1], k);
    }
  }

  lemma FlaggedPipelineIsNotApproved(w: World, k: nat)
    requires Inv(w) && GatesMade(w) && k < |w.pipelines| && w.pipelines[k].doNotAutoExecute && w.pipelines[k].task.Some?
    ensures !Has(w.store.events, Event(w.pipelines[k].task.value, Approved(true)))
  {
    var id := w.pipelines[k].task.value;
    if Has(w.store.events, Event(id, Approved(true))) {
      assert ContentOf(w, id).Gate? && !IsFlagged(ContentOf(w, id));
      var l: nat :| MadeBy(w, id, l);
    }
  }

  /** The task of a pipeline started in a maintenance window is never approved by the system, whatever else happens. */
  lemma MaintenanceIsNeverAutoApproved(policies: PolicyTable, now: int, before: seq<Action>, alertname: string, after: seq<Action>)
    requires policies.Valid()
    ensures var w := Workflow.Run(Initial(policies, now), before);
            var e := Workflow.Run(Next(w, StartPipeline(alertname, true)), after);
            && Next(w, StartPipeline(alertname, true)).pipelines == w.pipelines + [NewPipeline(alertname, true)]
            && |w.pipelines| < |e.pipelines|
            && (e.pipelines[|w.pipelines|].task.Some? ==>
                  !Has(e.store.events, Event(e.pipelines[|w.pipelines|].task.value, Approved(true))))
  {
    var w := Workflow.Run(Initial(policies, now), before);
    RunKeepsSound(policies, now, before);
    RunMakesGates(policies, now, before);
    var a := StartPipeline(alertname, true);
    NextKeepsInv(w, a);
    NextKeepsSound(w, a);
    NextKeepsMade(w, a);
    RunFromSound(Next(w, a), after);
    RunFromMade(Next(w, a), after);
    FlagIsKept(Next(w, a), after, |w.pipelines|);
    var e := Workflow.Run(Next(w, a), after);
    if e.pipelines[|w.pipelines|].task.Some? {
      FlaggedPipelineIsNotApproved(e, |w.pipelines|);
    }
  }

  // ---------------------------------------------------------------- what a resume decides

  /** There are commands to apply: the gate's, or the operator's. */
  predicate HasCommands(c: Content, operatorCommands: string) {
    operatorCommands != "" || (c.Gate? && c.fix.commands != "none" && c.fix.fixType != "no_action")
  }

  /** The resume goes on to act: the task is approved and is a remediation, or has commands and has not been started. */
  predicate Acts(events: seq<Event>, id: TaskId, c: Content, operatorCommands: string) {
    && (Event(id, Approved(true)) in events || Event(id, Approved(false)) in events)
    && (IsRemediation(c) || (Event(id, Noted(ExecutionStarted)) !in events && HasCommands(c, operatorCommands)))
  }

  /** A resume executes exactly when it acts and the gate is not flagged, and is suppressed exactly when it is. */
  lemma ResumeDecidesIff(events: seq<Event>, id: TaskId, c: Content, operatorCommands: string)
    ensures var d, flagged := ResumeDecision(events, id, c, operatorCommands), c.Gate? && c.flagged;
            && (d == Some(Execute) <==> Acts(events, id, c, operatorCommands) && !flagged)
            && (d == Some(Suppress) <==> Acts(events, id, c, operatorCommands) && flagged)
            && (d == Some(ReportNothing) <==>
                  HasApproval(events, id) && !IsRemediation(c) && !HasCommands(c, operatorCommands)
                  && Event(id, Noted(ExecutionStarted)) !in events)
  {
  }

  /** No resume of the task begins with commands of an operator. */
  ghost predicate NoOverrides(actions: seq<Action>, id: TaskId) {
    forall n :: 0 <= n < |actions| && actions[n].BeginResume? && actions[n].task == id ==> actions[n].operatorCommands == ""
  }

  ghost predicate Unexecuted(w: World, w': World, id: TaskId) {
    ContentOf(w', id) == ContentOf(w, id) && Idle(w', id) && Executions(w', id) == Executions(w, id)
  }

  lemma AdvanceExecutesNothing(w: World, k: nat, input: Input, id: TaskId)
    requires Inv(w) && Idle(w, id) && ContentOf(w, id) != Plain && k < |w.pipelines|
    ensures Unexecuted(w, Next(w, Advance(k, input)), id)
  {
    AdvanceKeepsInv(w, k, input);
    assert PipelineEffect(w, AdvancePipeline(w, w.pipelines[k], input).0, w.pipelines[k].task);
  }

  lemma FinishExecutesNothing(w: World, i: nat, id: TaskId)
    requires w.policies.Valid() && Idle(w, id) && i < |w.resumes|
    ensures Unexecuted(w, Next(w, FinishResume(i)), id)
  {
    var r := w.resumes[i];
    AppendCount(w.store.events, Event(r.task, Noted(OutcomeNote(r.outcome))), id, Noted(ExecutionStarted));
    RestIsIdle(w.resumes, i, id);
    FinishAppends(w, i);
  }

  lemma BeginExecutesNothing(w: World, task: TaskId, commands: string, id: TaskId)
    requires w.policies.Valid() && Idle(w, id)
    requires task == id ==> ResumeDecision(w.store.events, id, ContentOf(w, id), commands) != Some(Execute)
    ensures Unexecuted(w, Next(w, BeginResume(task, commands)), id)
  {
    var w' := Next(w, BeginResume(task, commands));
    forall i | 0 <= i < |w'.resumes| && w'.resumes[i].task == id
      ensures !w'.resumes[i].outcome.Execute?
    {
      if i < |w.resumes| { assert w'.resumes[i] == w.resumes[i]; }
    }
  }

  lemma StepExecutesNothing(w: World, a: Action, id: TaskId)
    requires Inv(w) && Idle(w, id) && ContentOf(w, id) != Plain
    requires a.BeginResume? && a.task == id ==>
               ResumeDecision(w.store.events, id, ContentOf(w, id), a.operatorCommands) != Some(Execute)
    ensures Unexecuted(w, Next(w, a), id)
  {
    match a
    case Advance(k, input) => if k < |w.pipelines| { AdvanceExecutesNothing(w, k, input, id); }
    case FinishResume(i) => if i < |w.resumes| { FinishExecutesNothing(w, i, id); }
    case BeginResume(task, commands) => BeginExecutesNothing(w, task, commands, id);
    case Environment(op) => if Outside(op) { QuietStep(w.store, op); }
    case _ =>
  }

  /** A gate with nothing to apply is never executed, however often it is approved and resumed, unless an operator gives commands. */
  lemma {:induction false} NothingToApplyNeverExecutes(w: World, actions: seq<Action>, id: TaskId)
    requires Inv(w) && Idle(w, id) && ContentOf(w, id) != Plain
    requires !IsRemediation(ContentOf(w, id)) && !HasCommands(ContentOf(w, id), "") && NoOverrides(actions, id)
    ensures Unexecuted(w, Workflow.Run(w, actions), id)
    decreases |actions|
  {
    if actions != [] {
      var n := |actions| - 1;
      var front := actions[..n];
      assert forall m :: 0 <= m < n ==> front[m] == actions[m];
      NothingToApplyNeverExecutes(w, front, id);
      RunKeepsInv(w, front);
      var before := Workflow.Run(w, front);
      ResumeDecidesIff(before.store.events, id, ContentOf(before, id), "");
      StepExecutesNothing(before, actions[n], id);
    }
  }
}
