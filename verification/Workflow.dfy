/**
  The incident pipeline (ai-agents/ops_agent/workflow.py) as a step system over
  the task store: Phase 1 walks a graph of nodes that ends in a gate, Phase 2
  resumes an approved task.  Every step is one store transaction (or a few by
  the same thread that no other step depends on); steps of different pipelines,
  of resumes and of the API interleave freely.  LLM output, intents, condition
  checks and budgets are inputs of the steps.
*/
module Workflow {
  import opened Prelude
  import opened PipelineModels
  import opened PolicyRegistry
  import opened TaskStore

  datatype Fix = Fix(fixType: string, commands: string, risk: string, confidence: string)

  /** `state["fix_proposal"] or {}` with the defaults of the gate. */
  const NO_FIX := Fix("config_change", "none", "medium", "low")

  /** The part of a task's content that Phase 2 reads. */
  datatype Content =
    | Plain
    | Gate(fix: Fix, flagged: bool, policyId: Option<PolicyId>, level: Level)
    | LowConfidence

  datatype Node =
    | CheckIntents | PolicyFastPath | NoAiGate | Investigate | Investigating | ProposeFix | Validate
    | DecideGate | RecordGate(decision: AutonomyDecision) | CommitGate(decision: AutonomyDecision)
    | LowConfidenceGate | End

  /** One run of the graph. */
  datatype Pipeline = Pipeline(
    node: Node,
    task: Option<TaskId>,
    fix: Option<Fix>,
    fastPath: Option<PolicyId>,
    doNotAutoExecute: bool,
    alertname: string)

  /** What the outside world answers a node. */
  datatype Input =
    | NoIntent | SuppressIntent | EscalateIntent
    | ConditionsPassed(policyId: PolicyId, fix: Fix, newTask: TaskId) | NoConditions(aiEnabled: bool)
    | Opened(newTask: TaskId)
    | BudgetExceeded | NoActionNeeded | Diagnosed | Doubted | Broken
    | Proposed(fix: Fix)
    | GateContext(deviceRole: string, environment: string, priorSuccesses: int)
    | Proceed

  /** What a resume that has read its task will do next. */
  datatype Outcome = ReportNothing | Suppress | Execute

  datatype Resume = Resume(task: TaskId, outcome: Outcome)

  datatype World = World(
    store: Store,
    content: map<TaskId, Content>,
    policies: PolicyTable,
    now: int,
    pipelines: seq<Pipeline>,
    resumes: seq<Resume>)

  datatype Action =
    | StartPipeline(alertname: string, inMaintenance: bool)
    | Advance(k: nat, input: Input)
    | BeginResume(task: TaskId, operatorCommands: string)
    | FinishResume(i: nat)
    | Environment(op: Op)
    | ChangePolicies(table: PolicyTable)
    | Tick(elapsed: nat)

  // ---------------------------------------------------------------- Phase 1

  function ContentOf(w: World, id: TaskId): Content {
    if id in w.content then w.content[id] else Plain
  }

  /** Task ids are random; a new one has no row, no content and no events. */
  ghost predicate Unused(w: World, id: TaskId) {
    && id !in w.store.tasks && id !in w.content
    && (forall i :: 0 <= i < |w.store.events| ==> w.store.events[i].task != id)
    && (forall i :: 0 <= i < |w.resumes| ==> w.resumes[i].task != id)
  }

  /** Create, claim and start a task, as the investigating nodes do. */
  ghost function Open(s: Store, id: TaskId): Store {
    Step(Step(Step(s, CreateTask(id, Rca, None, None)), ClaimTask(id)), StartTask(id))
  }

  /** Create a task that waits for a human, as `_node_no_ai_gate` does. */
  ghost function Park(s: Store, id: TaskId): Store {
    Step(Step(Step(s, CreateTask(id, Rca, None, None)), AddEvent(id, Noted(OtherNote("no_ai_skipped")))), RequestApproval(id))
  }

  /** Complete the investigation's task and note it. */
  ghost function Conclude(s: Store, id: TaskId): Store {
    Step(Step(s, CompleteTask(id)), AddEvent(id, Noted(OtherNote("rca_complete"))))
  }

  /** The decision of `_node_create_approval_gate`: the fast-path policy's own level if the policy still exists,
      otherwise a fresh query. */
  function GateDecision(policies: PolicyTable, now: int, p: Pipeline, deviceRole: string, environment: string,
                        prior: int): AutonomyDecision
    requires policies.Valid()
  {
    var fix := if p.fix.Some? then p.fix.value else NO_FIX;
    if p.fastPath.Some? && p.fastPath.value in policies.rows then
      var policy := policies.rows[p.fastPath.value];
      AutonomyDecision(policy.level, LevelIndex(policy.level) <= 3, LevelIndex(policy.level) >= 4, Some(policy.id))
    else
      Decide(policies, Context(fix.fixType, deviceRole, environment, fix.confidence, fix.risk, prior, p.alertname), now)
  }

  /** One step of one pipeline; inputs that do not answer the node leave everything as it is. */
  ghost function AdvancePipeline(w: World, p: Pipeline, input: Input): (r: (World, Pipeline))
    requires w.policies.Valid()
    ensures r.0.policies == w.policies
  {
    match p.node
    case CheckIntents =>
      (w, match input
          case SuppressIntent => p.(node := End)
          case EscalateIntent => p.(node := LowConfidenceGate)
          case NoIntent => p.(node := PolicyFastPath)
          case _ => p)
    case PolicyFastPath =>
      (match input
       // The policy comes from a list read before its conditions were checked; it may have changed or gone since.
       case ConditionsPassed(policyId, fix, id) =>
         if !Unused(w, id) then (w, p) else
         (w.(store := Step(Open(w.store, id), AddEvent(id, Noted(FastPathResolved(Some(policyId))))),
             content := w.content[id := Plain]),
          p.(node := DecideGate, task := Some(id), fix := Some(fix), fastPath := Some(policyId)))
       case NoConditions(aiEnabled) => (w, p.(node := if aiEnabled then Investigate else NoAiGate))
       case _ => (w, p))
    case NoAiGate =>
      (match input
       case Opened(id) =>
         if !Unused(w, id) then (w, p) else
         (w.(store := Park(w.store, id), content := w.content[id := Plain]),
          p.(node := End, task := Some(id)))
       case _ => (w, p))
    case Investigate =>
      (match input
       case Opened(id) =>
         if !Unused(w, id) then (w, p) else
         (w.(store := Open(w.store, id), content := w.content[id := Plain]),
          p.(node := Investigating, task := Some(id)))
       case _ => (w, p))
    case Investigating =>
      if p.task.None? then (w, p) else
      var id := p.task.value;
      (match input
       case BudgetExceeded => (w.(store := Step(w.store, FailTask(id))), p.(node := End))
       case NoActionNeeded => (w.(store := Conclude(w.store, id)), p.(node := End))
       case Diagnosed => (w.(store := Conclude(w.store, id)), p.(node := ProposeFix))
       // Low confidence; an investigation that breaks is escalated without completing the task.
       case Doubted => (w.(store := Conclude(w.store, id)), p.(node := LowConfidenceGate))
       case Broken => (w, p.(node := LowConfidenceGate))
       case _ => (w, p))
    case ProposeFix =>
      (match input
       case Proposed(fix) =>
         (w, p.(node := if fix.fixType == "no_action" then End
                        else if fix.fixType == "escalate_human" || fix.risk == "high" then DecideGate
                        else Validate,
                fix := Some(fix)))
       case BudgetExceeded => (w, p.(node := End))
       case _ => (w, p))
    case Validate => (w, p.(node := DecideGate))
    case DecideGate =>
      (match input
       case GateContext(role, environment, prior) =>
         if p.task.None? then (w, p.(node := End)) else
         var d := GateDecision(w.policies, w.now, p, role, environment, prior);
         var fix := if p.fix.Some? then p.fix.value else NO_FIX;
         (w.(content := w.content[p.task.value := Gate(fix, p.doNotAutoExecute, d.policyId, d.level)]),
          p.(node := RecordGate(d)))
       case _ => (w, p))
    case RecordGate(d) =>
      if p.task.None? then (w, p.(node := End)) else
      var note := if d.allowExecution && !p.doNotAutoExecute then AutoApproved(d.policyId, d.level) else ApprovalPolicy(d.policyId, d.level);
      (w.(store := Step(w.store, AddEvent(p.task.value, Noted(note)))), p.(node := CommitGate(d)))
    case CommitGate(d) =>
      if p.task.None? then (w, p.(node := End)) else
      (w.(store := Step(w.store, if d.allowExecution && !p.doNotAutoExecute then ApproveTask(p.task.value, true)
                                 else RequestApproval(p.task.value))),
       p.(node := End))
    case LowConfidenceGate =>
      // Without a task the statements match nothing and the event insert fails: no gate appears.
      if p.task.None? then (w, p.(node := End)) else
      (w.(content := w.content[p.task.value := LowConfidence], store := Step(w.store, RequestApproval(p.task.value))),
       p.(node := End))
    case End => (w, p)
  }

  // ---------------------------------------------------------------- Phase 2

  predicate Has(events: seq<Event>, e: Event) {
    e in events
  }

  predicate HasApproval(events: seq<Event>, id: TaskId) {
    Has(events, Event(id, Approved(true))) || Has(events, Event(id, Approved(false)))
  }

  predicate IsRemediation(c: Content) {
    c.Gate? && c.fix.fixType == "config_remediation"
  }

  predicate IsFlagged(c: Content) {
    c.Gate? && c.flagged
  }

  predicate NothingToApply(c: Content) {
    !c.Gate? || c.fix.commands == "none" || c.fix.fixType == "no_action"
  }

  /** What `resume_execution` decides from the one snapshot it reads; None when it returns at once. */
  function ResumeDecision(events: seq<Event>, id: TaskId, c: Content, operatorCommands: string): Option<Outcome> {
    if !HasApproval(events, id) then None
    else if IsRemediation(c) then Some(if IsFlagged(c) then Suppress else Execute)
    else if Has(events, Event(id, Noted(ExecutionStarted))) then None
    else if NothingToApply(c) && operatorCommands == "" then Some(ReportNothing)
    else if IsFlagged(c) then Some(Suppress)
    else Some(Execute)
  }

  function OutcomeNote(o: Outcome): Note {
    match o
    case ReportNothing => NothingToExecute
    case Suppress => ExecutionSuppressed
    case Execute => ExecutionStarted
  }

  // ---------------------------------------------------------------- the system

  /** Store operations that the API, the poller and other agents may run at any time: anything but clearing the
      queue, approving as the system, and forging the pipeline's own notes. */
  predicate Outside(op: Op) {
    match op
    case ClearAll => false
    case ApproveTask(_, bySystem) => !bySystem
    case AddEvent(_, kind) => kind.Noted? && !kind.note.AutoApproved? && !kind.note.ExecutionStarted?
    case _ => true
  }

  ghost function Next(w: World, a: Action): World
    requires w.policies.Valid()
  {
    match a
    case StartPipeline(alertname, inMaintenance) =>
      w.(pipelines := w.pipelines + [Pipeline(CheckIntents, None, None, None, inMaintenance, alertname)])
    case Advance(k, input) =>
      if k >= |w.pipelines| then w else
      var (w', p') := AdvancePipeline(w, w.pipelines[k], input);
      w'.(pipelines := w.pipelines[k := p'])
    case BeginResume(task, operatorCommands) =>
      if task !in w.store.tasks then w else
      (match ResumeDecision(w.store.events, task, ContentOf(w, task), operatorCommands)
       case None => w
       case Some(o) => w.(resumes := w.resumes + [Resume(task, o)]))
    case FinishResume(i) =>
      if i >= |w.resumes| then w else
      var r := w.resumes[i];
      w.(store := Step(w.store, AddEvent(r.task, Noted(OutcomeNote(r.outcome)))),
         resumes := w.resumes[..i] + w.resumes[i + 1..])
    case Environment(op) => if Outside(op) then w.(store := Step(w.store, op)) else w
    case ChangePolicies(table) => if table.Valid() then w.(policies := table) else w
    case Tick(elapsed) => w.(now := w.now + elapsed)
  }

  ghost function Run(w: World, actions: seq<Action>): (r: World)
    requires w.policies.Valid()
    ensures r.policies.Valid()
  {
    if actions == [] then w else
    var before := Run(w, actions[..|actions| - 1]);
    NextKeepsPolicies(before, actions[|actions| - 1]);
    Next(before, actions[|actions| - 1])
  }

  lemma NextKeepsPolicies(w: World, a: Action)
    requires w.policies.Valid()
    ensures Next(w, a).policies.Valid()
  {
  }

  // ---------------------------------------------------------------- what the event log shows

  /** `auto_approved` was recorded with a policy id at L4 or above. */
  ghost predicate HasAutoApproval(events: seq<Event>, id: TaskId) {
    exists pid, level :: LevelIndex(level) >= 4 && Has(events, Event(id, Noted(AutoApproved(Some(pid), level))))
  }

  /** Executions need an approval before them; system approvals need an automatic one. */
  ghost predicate Justified(before: seq<Event>, e: Event) {
    && (e.kind == Noted(ExecutionStarted) ==> HasApproval(before, e.task))
    && (e.kind == Approved(true) ==> HasAutoApproval(before, e.task))
  }

  ghost predicate LogInv(events: seq<Event>) {
    forall i :: 0 <= i < |events| ==> Justified(events[..i], events[i])
  }

  lemma AppendLog(events: seq<Event>, e: Event)
    requires LogInv(events) && Justified(events, e)
    ensures LogInv(events + [e])
  {
    forall i | 0 <= i < |events + [e]|
      ensures Justified((events + [e])[..i], (events + [e])[i])
    {
      assert i < |events| ==> (events + [e])[..i] == events[..i];
      assert (events + [e])[..|events|] == events;
    }
  }

  lemma {:induction false} CountedIffPresent(events: seq<Event>, e: Event)
    ensures Count(events, e.task, e.kind) > 0 <==> Has(events, e)
  {
    if events != [] {
      CountedIffPresent(events[..|events| - 1], e);
      assert events == events[..|events| - 1] + [events[|events| - 1]];
    }
  }

  /** An operation whose event, if any, starts no execution and is no system approval. */
  predicate Quiet(op: Op) {
    match op
    case ClearAll => false
    case ApproveTask(_, bySystem) => !bySystem
    case AddEvent(_, kind) => kind != Noted(ExecutionStarted) && kind != Approved(true)
    case _ => true
  }

  /** The log grew, and by nothing that matters to executions or system approvals. */
  ghost predicate QuietGrowth(a: seq<Event>, b: seq<Event>) {
    && a <= b
    && (LogInv(a) ==> LogInv(b))
    && (forall id :: Count(b, id, Noted(ExecutionStarted)) == Count(a, id, Noted(ExecutionStarted)))
    && (forall id :: Has(b, Event(id, Approved(true))) ==> Has(a, Event(id, Approved(true))))
  }

  lemma QuietStep(s: Store, op: Op)
    requires Quiet(op)
    ensures QuietGrowth(s.events, Step(s, op).events)
  {
    StepAppends(s, op);
    if Step(s, op).events != s.events { QuietAppend(s.events, EventOf(op)); }
  }

  lemma QuietAppend(events: seq<Event>, e: Event)
    requires e.kind != Noted(ExecutionStarted) && e.kind != Approved(true)
    ensures QuietGrowth(events, events + [e])
  {
    AppendCounts(events, e);
    if LogInv(events) { AppendLog(events, e); }
  }

  lemma QuietOpen(s: Store, id: TaskId)
    ensures QuietGrowth(s.events, Open(s, id).events)
  {
    var s1 := Step(s, CreateTask(id, Rca, None, None));
    var s2 := Step(s1, ClaimTask(id));
    QuietStep(s, CreateTask(id, Rca, None, None));
    QuietStep(s1, ClaimTask(id));
    QuietStep(s2, StartTask(id));
  }

  lemma QuietGrowthChains(a: seq<Event>, b: seq<Event>, c: seq<Event>)
    requires QuietGrowth(a, b) && QuietGrowth(b, c)
    ensures QuietGrowth(a, c)
  {
  }

  lemma QuietPark(s: Store, id: TaskId)
    ensures QuietGrowth(s.events, Park(s, id).events)
  {
    var s1 := Step(s, CreateTask(id, Rca, None, None));
    var s2 := Step(s1, AddEvent(id, Noted(OtherNote("no_ai_skipped"))));
    QuietStep(s, CreateTask(id, Rca, None, None));
    QuietStep(s1, AddEvent(id, Noted(OtherNote("no_ai_skipped"))));
    QuietStep(s2, RequestApproval(id));
    QuietGrowthChains(s.events, s1.events, s2.events);
  }

  lemma QuietConclude(s: Store, id: TaskId)
    ensures QuietGrowth(s.events, Conclude(s, id).events)
  {
    QuietStep(s, CompleteTask(id));
    QuietStep(Step(s, CompleteTask(id)), AddEvent(id, Noted(OtherNote("rca_complete"))));
  }

  lemma HasGrows(a: seq<Event>, b: seq<Event>, id: TaskId)
    requires a <= b
    ensures HasApproval(a, id) ==> HasApproval(b, id)
    ensures HasAutoApproval(a, id) ==> HasAutoApproval(b, id)
  {
    forall e | e in a
      ensures e in b
    {
      var i :| 0 <= i < |a| && a[i] == e;
      assert b[i] == e;
    }
  }

  // ---------------------------------------------------------------- the invariant

  /** The decision in hand is a justified one, and the gate's content carries it and the maintenance flag. */
  ghost predicate GateReady(w: World, p: Pipeline, d: AutonomyDecision) {
    && p.task.Some?
    && (d.allowExecution ==> d.policyId.Some? && LevelIndex(d.level) >= 4)
    && ContentOf(w, p.task.value).Gate? && ContentOf(w, p.task.value).flagged == p.doNotAutoExecute
  }

  ghost predicate PipelineInv(w: World, p: Pipeline) {
    && (p.task.Some? ==> p.task.value in w.content)
    && match p.node
       case RecordGate(d) => GateReady(w, p, d)
       case CommitGate(d) => GateReady(w, p, d)
                             && (d.allowExecution && !p.doNotAutoExecute ==> HasAutoApproval(w.store.events, p.task.value))
       case End => true
       case _ => p.task.Some? ==> w.content[p.task.value] == Plain
  }

  ghost predicate Owned(pipelines: seq<Pipeline>) {
    forall k, l :: 0 <= k < l < |pipelines| && pipelines[k].task.Some? ==> pipelines[k].task != pipelines[l].task
  }

  ghost predicate Inv(w: World) {
    && w.policies.Valid()
    && LogInv(w.store.events)
    && (forall id :: Has(w.store.events, Event(id, Approved(true))) ==> ContentOf(w, id).Gate? && !IsFlagged(ContentOf(w, id)))
    && (forall i :: 0 <= i < |w.resumes| && w.resumes[i].outcome.Execute? ==> HasApproval(w.store.events, w.resumes[i].task))
    && Owned(w.pipelines)
    && (forall k :: 0 <= k < |w.pipelines| ==> PipelineInv(w, w.pipelines[k]))
  }

  /** What a pipeline step does to the world it shares: the log grows by no execution, the only content it rewrites
      is its own task's `Plain` one, and a new task starts `Plain`. */
  ghost predicate PipelineEffect(w: World, w': World, own: Option<TaskId>) {
    && w'.resumes == w.resumes && w'.policies == w.policies
    && w.store.events <= w'.store.events
    && (forall id :: Count(w'.store.events, id, Noted(ExecutionStarted)) == Count(w.store.events, id, Noted(ExecutionStarted)))
    && (forall id :: id in w.content ==>
          id in w'.content && (w'.content[id] == w.content[id] || (own == Some(id) && w.content[id] == Plain)))
    && (forall id :: id in w'.content && id !in w.content ==> w'.content[id] == Plain)
  }

  /** A step of pipeline `k` that only touches its own task keeps the invariant. */
  lemma PipelineStepKeeps(w: World, k: nat, w': World, p': Pipeline)
    requires Inv(w) && k < |w.pipelines|
    requires PipelineEffect(w, w', w.pipelines[k].task)
    requires LogInv(w'.store.events)
    requires forall id :: Has(w'.store.events, Event(id, Approved(true)))
                          ==> ContentOf(w', id).Gate? && !IsFlagged(ContentOf(w', id))
    requires p'.task == w.pipelines[k].task || (p'.task.Some? && p'.task.value !in w.content)
    requires PipelineInv(w', p')
    ensures Inv(w'.(pipelines := w.pipelines[k := p']))
  {
    var w'' := w'.(pipelines := w.pipelines[k := p']);
    forall l | 0 <= l < |w.pipelines|
      ensures PipelineInv(w'', w''.pipelines[l])
    {
      if l != k {
        var q := w.pipelines[l];
        assert PipelineInv(w, q);
        if q.task.Some? {
          HasGrows(w.store.events, w'.store.events, q.task.value);
          assert q.task != w.pipelines[k].task;
        }
      }
    }
    forall i | 0 <= i < |w.resumes| && w.resumes[i].outcome.Execute?
      ensures HasApproval(w'.store.events, w.resumes[i].task)
    {
      HasGrows(w.store.events, w'.store.events, w.resumes[i].task);
    }
    forall i, j | 0 <= i < j < |w''.pipelines| && w''.pipelines[i].task.Some?
      ensures w''.pipelines[i].task != w''.pipelines[j].task
    {
      assert PipelineInv(w, w.pipelines[i]) && PipelineInv(w, w.pipelines[j]);
    }
  }

  /** A step that opens a task of its own. */
  lemma OpeningKeeps(w: World, k: nat, id: TaskId, s: Store, p': Pipeline)
    requires Inv(w) && k < |w.pipelines| && Unused(w, id)
    requires QuietGrowth(w.store.events, s.events)
    requires p'.task == Some(id) && !p'.node.RecordGate? && !p'.node.CommitGate?
    ensures var w' := w.(store := s, content := w.content[id := Plain]);
            Inv(w'.(pipelines := w.pipelines[k := p'])) && PipelineEffect(w, w', w.pipelines[k].task)
  {
    PipelineStepKeeps(w, k, w.(store := s, content := w.content[id := Plain]), p');
  }

  /** A step that only writes quiet events for its own task. */
  lemma QuietKeeps(w: World, k: nat, s: Store, p': Pipeline)
    requires Inv(w) && k < |w.pipelines|
    requires QuietGrowth(w.store.events, s.events)
    requires p'.task == w.pipelines[k].task && PipelineInv(w.(store := s), p')
    ensures var w' := w.(store := s);
            Inv(w'.(pipelines := w.pipelines[k := p'])) && PipelineEffect(w, w', w.pipelines[k].task)
  {
    PipelineStepKeeps(w, k, w.(store := s), p');
  }

  /** Nodes that leave store and content alone. */
  lemma SilentAdvance(w: World, k: nat, input: Input)
    requires Inv(w) && k < |w.pipelines|
    requires var n := w.pipelines[k].node; n.CheckIntents? || n.ProposeFix? || n.Validate? || n.End?
    ensures Inv(Next(w, Advance(k, input)))
    ensures PipelineEffect(w, AdvancePipeline(w, w.pipelines[k], input).0, w.pipelines[k].task)
  {
    var p := w.pipelines[k];
    var (w', p') := AdvancePipeline(w, p, input);
    assert PipelineInv(w, p);
    assert w' == w && p'.task == p.task && !p'.node.RecordGate? && !p'.node.CommitGate?;
    assert p.node.End? ==> p' == p;
    QuietKeeps(w, k, w.store, p');
  }

  lemma FastPathAdvance(w: World, k: nat, input: Input)
    requires Inv(w) && k < |w.pipelines| && w.pipelines[k].node.PolicyFastPath?
    ensures Inv(Next(w, Advance(k, input)))
    ensures PipelineEffect(w, AdvancePipeline(w, w.pipelines[k], input).0, w.pipelines[k].task)
  {
    var p := w.pipelines[k];
    var (w', p') := AdvancePipeline(w, p, input);
    assert PipelineInv(w, p);
    if !input.ConditionsPassed? || !Unused(w, input.newTask) {
      QuietKeeps(w, k, w.store, p');
    } else {
      var id := input.newTask;
      var resolved := AddEvent(id, Noted(FastPathResolved(Some(input.policyId))));
      var begun := Open(w.store, id);
      QuietOpen(w.store, id);
      QuietStep(begun, resolved);
      QuietGrowthChains(w.store.events, begun.events, Step(begun, resolved).events);
      OpeningKeeps(w, k, id, Step(begun, resolved), p');
    }
  }

  lemma NoAiAdvance(w: World, k: nat, input: Input)
    requires Inv(w) && k < |w.pipelines| && w.pipelines[k].node.NoAiGate?
    ensures Inv(Next(w, Advance(k, input)))
    ensures PipelineEffect(w, AdvancePipeline(w, w.pipelines[k], input).0, w.pipelines[k].task)
  {
    var p := w.pipelines[k];
    assert PipelineInv(w, p);
    if input.Opened? && Unused(w, input.newTask) {
      QuietPark(w.store, input.newTask);
      OpeningKeeps(w, k, input.newTask, Park(w.store, input.newTask), AdvancePipeline(w, p, input).1);
    } else {
      QuietKeeps(w, k, w.store, p);
    }
  }

  lemma InvestigateAdvance(w: World, k: nat, input: Input)
    requires Inv(w) && k < |w.pipelines| && w.pipelines[k].node.Investigate?
    ensures Inv(Next(w, Advance(k, input)))
    ensures PipelineEffect(w, AdvancePipeline(w, w.pipelines[k], input).0, w.pipelines[k].task)
  {
    var p := w.pipelines[k];
    assert PipelineInv(w, p);
    if input.Opened? && Unused(w, input.newTask) {
      QuietOpen(w.store, input.newTask);
      OpeningKeeps(w, k, input.newTask, Open(w.store, input.newTask), AdvancePipeline(w, p, input).1);
    } else {
      QuietKeeps(w, k, w.store, p);
    }
  }

  lemma InvestigatingAdvance(w: World, k: nat, input: Input)
    requires Inv(w) && k < |w.pipelines| && w.pipelines[k].node.Investigating?
    ensures Inv(Next(w, Advance(k, input)))
    ensures PipelineEffect(w, AdvancePipeline(w, w.pipelines[k], input).0, w.pipelines[k].task)
  {
    var p := w.pipelines[k];
    var (w', p') := AdvancePipeline(w, p, input);
    assert PipelineInv(w, p);
    if p.task.Some? && input.BudgetExceeded? {
      QuietStep(w.store, FailTask(p.task.value));
    } else if p.task.Some? && (input.NoActionNeeded? || input.Diagnosed? || input.Doubted?) {
      QuietConclude(w.store, p.task.value);
    }
    QuietKeeps(w, k, w'.store, p');
  }

  /** Giving a task that is still `Plain` its content touches nothing else: no system approval can stand on it. */
  lemma PlainIsReplaced(w: World, id: TaskId, c: Content)
    requires Inv(w) && id in w.content && w.content[id] == Plain
    ensures var w' := w.(content := w.content[id := c]);
            && PipelineEffect(w, w', Some(id))
            && forall t :: Has(w'.store.events, Event(t, Approved(true))) ==> ContentOf(w', t).Gate? && !IsFlagged(ContentOf(w', t))
  {
    assert !Has(w.store.events, Event(id, Approved(true)));
  }

  lemma GateIsReady(w: World, p: Pipeline, role: string, environment: string, prior: int)
    requires w.policies.Valid() && p.node.DecideGate? && p.task.Some?
    ensures var (w', p') := AdvancePipeline(w, p, GateContext(role, environment, prior));
            && p'.node.RecordGate? && p'.task == p.task && PipelineInv(w', p')
            && w' == w.(content := w.content[p.task.value := w'.content[p.task.value]])
  {
    GateDecisionIsJustified(w.policies, w.now, p, role, environment, prior);
  }

  lemma DecideAdvance(w: World, k: nat, input: Input)
    requires Inv(w) && k < |w.pipelines| && w.pipelines[k].node.DecideGate?
    ensures Inv(Next(w, Advance(k, input)))
    ensures PipelineEffect(w, AdvancePipeline(w, w.pipelines[k], input).0, w.pipelines[k].task)
  {
    var p := w.pipelines[k];
    var (w', p') := AdvancePipeline(w, p, input);
    assert PipelineInv(w, p);
    if input.GateContext? && p.task.Some? {
      var id := p.task.value;
      GateIsReady(w, p, input.deviceRole, input.environment, input.priorSuccesses);
      PlainIsReplaced(w, id, w'.content[id]);
      PipelineStepKeeps(w, k, w', p');
    } else {
      QuietKeeps(w, k, w.store, p');
    }
  }

  lemma RecordAdvance(w: World, k: nat, input: Input)
    requires Inv(w) && k < |w.pipelines| && w.pipelines[k].node.RecordGate?
    ensures Inv(Next(w, Advance(k, input)))
    ensures PipelineEffect(w, AdvancePipeline(w, w.pipelines[k], input).0, w.pipelines[k].task)
  {
    var p := w.pipelines[k];
    var (w', p') := AdvancePipeline(w, p, input);
    assert PipelineInv(w, p);
    var id, d := p.task.value, p.node.decision;
    QuietStep(w.store, AddEvent(id, Noted(AutoApproved(d.policyId, d.level))));
    QuietStep(w.store, AddEvent(id, Noted(ApprovalPolicy(d.policyId, d.level))));
    if d.allowExecution && !p.doNotAutoExecute {
      assert Has(w'.store.events, Event(id, Noted(AutoApproved(Some(d.policyId.value), d.level))));
    }
    PipelineStepKeeps(w, k, w', p');
  }

  lemma SystemApprovalAppend(events: seq<Event>, id: TaskId)
    requires LogInv(events) && HasAutoApproval(events, id)
    ensures var e := Event(id, Approved(true));
            && LogInv(events + [e])
            && (forall t :: Count(events + [e], t, Noted(ExecutionStarted)) == Count(events, t, Noted(ExecutionStarted)))
            && (forall t :: Has(events + [e], Event(t, Approved(true))) ==> Has(events, Event(t, Approved(true))) || t == id)
  {
    AppendLog(events, Event(id, Approved(true)));
    AppendCounts(events, Event(id, Approved(true)));
  }

  /** A system approval is justified the moment it is written. */
  lemma CommitAdvance(w: World, k: nat, input: Input)
    requires Inv(w) && k < |w.pipelines| && w.pipelines[k].node.CommitGate?
    ensures Inv(Next(w, Advance(k, input)))
    ensures PipelineEffect(w, AdvancePipeline(w, w.pipelines[k], input).0, w.pipelines[k].task)
  {
    var p := w.pipelines[k];
    var (w', p') := AdvancePipeline(w, p, input);
    assert PipelineInv(w, p);
    if p.node.decision.allowExecution && !p.doNotAutoExecute {
      SystemApprovalAppend(w.store.events, p.task.value);
    } else {
      QuietStep(w.store, RequestApproval(p.task.value));
    }
    PipelineStepKeeps(w, k, w', p');
  }

  lemma LowConfidenceAdvance(w: World, k: nat, input: Input)
    requires Inv(w) && k < |w.pipelines| && w.pipelines[k].node.LowConfidenceGate?
    ensures Inv(Next(w, Advance(k, input)))
    ensures PipelineEffect(w, AdvancePipeline(w, w.pipelines[k], input).0, w.pipelines[k].task)
  {
    var p := w.pipelines[k];
    var (w', p') := AdvancePipeline(w, p, input);
    assert PipelineInv(w, p);
    if p.task.Some? { QuietStep(w.store, RequestApproval(p.task.value)); }
    PipelineStepKeeps(w, k, w', p');
  }

  /** The policy a gate decision rests on: the fast-path policy while it exists, whatever its expiry, otherwise the
      best enabled match, which must not have expired. */
  ghost predicate Backs(policies: PolicyTable, now: int, p: Pipeline, c: Context, id: PolicyId)
    requires policies.Valid()
  {
    && id in policies.rows && LevelIndex(policies.rows[id].level) >= 4
    && (p.fastPath == Some(id)
        || ((p.fastPath.None? || p.fastPath.value !in policies.rows)
            && Chosen(policies, c) == Some(policies.rows[id]) && !Expired(policies.rows[id], now)))
  }

  /** Automatic execution is decided exactly when an existing policy at L4 or above backs it, and names that policy. */
  lemma GateDecisionIsJustified(policies: PolicyTable, now: int, p: Pipeline, role: string, environment: string,
                                prior: int)
    requires policies.Valid()
    ensures var d := GateDecision(policies, now, p, role, environment, prior);
            var fix := if p.fix.Some? then p.fix.value else NO_FIX;
            var c := Context(fix.fixType, role, environment, fix.confidence, fix.risk, prior, p.alertname);
            && (d.allowExecution <==> exists id :: Backs(policies, now, p, c, id))
            && (d.allowExecution ==> d.policyId.Some? && Backs(policies, now, p, c, d.policyId.value) && LevelIndex(d.level) >= 4)
            && (d.allowExecution <==> !d.requiresApproval)
            && (p.fastPath.Some? && p.fastPath.value in policies.rows ==>
                  d.policyId == p.fastPath && d.level == policies.rows[p.fastPath.value].level)
  {
    var fix := if p.fix.Some? then p.fix.value else NO_FIX;
    var c := Context(fix.fixType, role, environment, fix.confidence, fix.risk, prior, p.alertname);
    var d := GateDecision(policies, now, p, role, environment, prior);
    DecideAllowsIff(policies, c, now);
    if d.allowExecution { assert Backs(policies, now, p, c, d.policyId.value); }
  }

  /** Steps that only append one event, none of it a system approval. */
  lemma AppendingKeeps(w: World, w': World, resumes: seq<Resume>)
    requires Inv(w)
    requires w' == w.(store := w'.store, resumes := resumes)
    requires w.store.events <= w'.store.events && LogInv(w'.store.events)
    requires forall id :: Has(w'.store.events, Event(id, Approved(true))) ==> Has(w.store.events, Event(id, Approved(true)))
    requires forall i :: 0 <= i < |resumes| && resumes[i].outcome.Execute? ==> HasApproval(w.store.events, resumes[i].task)
    ensures Inv(w')
  {
    forall k | 0 <= k < |w.pipelines|
      ensures PipelineInv(w', w.pipelines[k])
    {
      assert PipelineInv(w, w.pipelines[k]);
      if w.pipelines[k].task.Some? { HasGrows(w.store.events, w'.store.events, w.pipelines[k].task.value); }
    }
    forall i | 0 <= i < |resumes| && resumes[i].outcome.Execute?
      ensures HasApproval(w'.store.events, resumes[i].task)
    {
      HasGrows(w.store.events, w'.store.events, resumes[i].task);
    }
  }

  lemma FinishKeeps(w: World, i: nat)
    requires Inv(w) && i < |w.resumes|
    ensures Inv(Next(w, FinishResume(i)))
  {
    var r := w.resumes[i];
    var e := Event(r.task, Noted(OutcomeNote(r.outcome)));
    AppendLog(w.store.events, e);
    AppendingKeeps(w, Next(w, FinishResume(i)), w.resumes[..i] + w.resumes[i + 1..]);
  }

  lemma AdvanceKeepsInv(w: World, k: nat, input: Input)
    requires Inv(w) && k < |w.pipelines|
    ensures Inv(Next(w, Advance(k, input)))
    ensures PipelineEffect(w, AdvancePipeline(w, w.pipelines[k], input).0, w.pipelines[k].task)
  {
    match w.pipelines[k].node
    case PolicyFastPath => FastPathAdvance(w, k, input);
    case NoAiGate => NoAiAdvance(w, k, input);
    case Investigate => InvestigateAdvance(w, k, input);
    case Investigating => InvestigatingAdvance(w, k, input);
    case DecideGate => DecideAdvance(w, k, input);
    case RecordGate(_) => RecordAdvance(w, k, input);
    case CommitGate(_) => CommitAdvance(w, k, input);
    case LowConfidenceGate => LowConfidenceAdvance(w, k, input);
    case _ => SilentAdvance(w, k, input);
  }

  lemma NextKeepsInv(w: World, a: Action)
    requires Inv(w)
    ensures Inv(Next(w, a))
  {
    match a
    case StartPipeline(_, _) =>
      var w' := Next(w, a);
      forall k | 0 <= k < |w.pipelines| ensures PipelineInv(w', w.pipelines[k]) { assert PipelineInv(w, w.pipelines[k]); }
    case Advance(k, input) =>
      if k < |w.pipelines| { AdvanceKeepsInv(w, k, input); }
    case BeginResume(task, commands) =>
      AppendingKeeps(w, Next(w, a), Next(w, a).resumes);
    case FinishResume(i) =>
      if i < |w.resumes| { FinishKeeps(w, i); }
    case Environment(op) =>
      if Outside(op) {
        QuietStep(w.store, op);
        AppendingKeeps(w, Next(w, a), w.resumes);
      }
    case ChangePolicies(_) =>
      var w' := Next(w, a);
      forall k | 0 <= k < |w.pipelines| ensures PipelineInv(w', w.pipelines[k]) { assert PipelineInv(w, w.pipelines[k]); }
    case Tick(_) =>
      var w' := Next(w, a);
      forall k | 0 <= k < |w.pipelines| ensures PipelineInv(w', w.pipelines[k]) { assert PipelineInv(w, w.pipelines[k]); }
  }

  ghost function Initial(policies: PolicyTable, now: int): World {
    World(EMPTY, map[], policies, now, [], [])
  }

  lemma {:induction false} RunKeepsInv(w: World, actions: seq<Action>)
    requires Inv(w)
    ensures Inv(Run(w, actions))
    decreases |actions|
  {
    if actions != [] {
      RunKeepsInv(w, actions[..|actions| - 1]);
      NextKeepsInv(Run(w, actions[..|actions| - 1]), actions[|actions| - 1]);
    }
  }

  // ---------------------------------------------------------------- which policies stand behind automatic approvals

  predicate IsAutoNote(e: Event) { e.kind.Noted? && e.kind.note.AutoApproved? }

  /** No automatic approval was noted in between. */
  ghost predicate NoNewAutoNote(a: seq<Event>, b: seq<Event>) {
    forall e :: Has(b, e) && IsAutoNote(e) ==> Has(a, e)
  }

  lemma StepNotesNothing(s: Store, op: Op)
    requires !op.ClearAll? && !IsAutoNote(EventOf(op))
    ensures NoNewAutoNote(s.events, Step(s, op).events)
  {
    StepAppends(s, op);
  }

  lemma OpenNotesNothing(s: Store, id: TaskId)
    ensures NoNewAutoNote(s.events, Open(s, id).events)
  {
    var s1 := Step(s, CreateTask(id, Rca, None, None));
    StepNotesNothing(s, CreateTask(id, Rca, None, None));
    StepNotesNothing(s1, ClaimTask(id));
    StepNotesNothing(Step(s1, ClaimTask(id)), StartTask(id));
  }

  lemma ParkNotesNothing(s: Store, id: TaskId)
    ensures NoNewAutoNote(s.events, Park(s, id).events)
  {
    var s1 := Step(s, CreateTask(id, Rca, None, None));
    var skipped := AddEvent(id, Noted(OtherNote("no_ai_skipped")));
    StepNotesNothing(s, CreateTask(id, Rca, None, None));
    StepNotesNothing(s1, skipped);
    StepNotesNothing(Step(s1, skipped), RequestApproval(id));
  }

  lemma ConcludeNotesNothing(s: Store, id: TaskId)
    ensures NoNewAutoNote(s.events, Conclude(s, id).events)
  {
    StepNotesNothing(s, CompleteTask(id));
    StepNotesNothing(Step(s, CompleteTask(id)), AddEvent(id, Noted(OtherNote("rca_complete"))));
  }

  /** Only recording a gate's decision notes an automatic approval, and it is the decision's. */
  ghost predicate NotesOwnDecision(w: World, p: Pipeline, w': World) {
    forall e :: Has(w'.store.events, e) && IsAutoNote(e) && !Has(w.store.events, e) ==>
      && p.node.RecordGate? && p.node.decision.allowExecution
      && e.kind.note == AutoApproved(p.node.decision.policyId, p.node.decision.level)
  }

  lemma FastPathNotes(w: World, p: Pipeline, input: Input)
    requires w.policies.Valid() && p.node.PolicyFastPath?
    ensures NotesOwnDecision(w, p, AdvancePipeline(w, p, input).0)
  {
    if input.ConditionsPassed? {
      var begun, resolved := Open(w.store, input.newTask), AddEvent(input.newTask, Noted(FastPathResolved(Some(input.policyId))));
      OpenNotesNothing(w.store, input.newTask);
      StepNotesNothing(begun, resolved);
    }
  }

  lemma InvestigatingNotes(w: World, p: Pipeline, input: Input)
    requires w.policies.Valid() && p.node.Investigating?
    ensures NotesOwnDecision(w, p, AdvancePipeline(w, p, input).0)
  {
    if p.task.Some? {
      StepNotesNothing(w.store, FailTask(p.task.value));
      ConcludeNotesNothing(w.store, p.task.value);
    }
  }

  lemma CommitNotes(w: World, p: Pipeline, input: Input)
    requires w.policies.Valid() && (p.node.CommitGate? || p.node.LowConfidenceGate?)
    ensures NotesOwnDecision(w, p, AdvancePipeline(w, p, input).0)
  {
    if p.task.Some? {
      StepNotesNothing(w.store, ApproveTask(p.task.value, true));
      StepNotesNothing(w.store, RequestApproval(p.task.value));
    }
  }

  lemma AdvanceNotes(w: World, p: Pipeline, input: Input)
    requires w.policies.Valid()
    ensures NotesOwnDecision(w, p, AdvancePipeline(w, p, input).0)
  {
    match p.node
    case PolicyFastPath => FastPathNotes(w, p, input);
    case NoAiGate =>
      if input.Opened? { ParkNotesNothing(w.store, input.newTask); }
    case Investigate =>
      if input.Opened? { OpenNotesNothing(w.store, input.newTask); }
    case Investigating => InvestigatingNotes(w, p, input);
    case CommitGate(_) => CommitNotes(w, p, input);
    case LowConfidenceGate => CommitNotes(w, p, input);
    case _ =>
  }

  /** The table has the policy at this level. */
  predicate HasLevel(table: PolicyTable, id: PolicyId, level: Level) {
    id in table.rows && table.rows[id].level == level && LevelIndex(level) >= 4
  }

  /** An executable decision names a policy that is at the decision's level, L4 or above. */
  lemma DecisionHasPolicy(policies: PolicyTable, now: int, p: Pipeline, role: string, environment: string, prior: int)
    requires policies.Valid()
    ensures var d := GateDecision(policies, now, p, role, environment, prior);
            d.allowExecution ==> d.policyId.Some? && HasLevel(policies, d.policyId.value, d.level)
  {
  }

  type Holdings = iset<(PolicyId, Level)>

  ghost predicate DecisionHeld(d: AutonomyDecision, held: Holdings) {
    d.allowExecution ==> d.policyId.Some? && (d.policyId.value, d.level) in held
  }

  ghost predicate NoteHeld(e: Event, held: Holdings) {
    IsAutoNote(e) ==> e.kind.note.policyId.Some? && (e.kind.note.policyId.value, e.kind.note.level) in held
  }

  ghost predicate PipelineHeld(p: Pipeline, held: Holdings) {
    match p.node
    case RecordGate(d) => DecisionHeld(d, held)
    case CommitGate(d) => DecisionHeld(d, held)
    case _ => true
  }

  /** Every automatic approval noted or about to be noted names a policy and level in `held`. */
  ghost predicate AllHeld(w: World, held: Holdings) {
    && (forall e :: Has(w.store.events, e) ==> NoteHeld(e, held))
    && (forall k :: 0 <= k < |w.pipelines| ==> PipelineHeld(w.pipelines[k], held))
  }

  lemma AdvanceHeld(w: World, p: Pipeline, input: Input, held: Holdings)
    requires w.policies.Valid() && PipelineHeld(p, held)
    requires forall id, level :: HasLevel(w.policies, id, level) ==> (id, level) in held
    ensures PipelineHeld(AdvancePipeline(w, p, input).1, held)
  {
    if p.node.DecideGate? && input.GateContext? {
      DecisionHasPolicy(w.policies, w.now, p, input.deviceRole, input.environment, input.priorSuccesses);
    }
  }

  lemma NextHeld(w: World, a: Action, held: Holdings)
    requires w.policies.Valid() && AllHeld(w, held)
    requires forall id, level :: HasLevel(w.policies, id, level) ==> (id, level) in held
    ensures AllHeld(Next(w, a), held)
  {
    match a
    case Advance(k, input) =>
      if k < |w.pipelines| {
        var p := w.pipelines[k];
        AdvanceNotes(w, p, input);
        AdvanceHeld(w, p, input, held);
        forall e | Has(AdvancePipeline(w, p, input).0.store.events, e)
          ensures NoteHeld(e, held)
        {
        }
      }
    case Environment(op) =>
      if Outside(op) { StepNotesNothing(w.store, op); }
    case _ =>
  }

  /** The policies, with their levels of L4 or above, that the table has had before or after some action of the run. */
  ghost function EverHad(w: World, actions: seq<Action>): Holdings
    requires w.policies.Valid()
  {
    iset id: PolicyId, level: Level |
      exists n :: 0 <= n <= |actions| && HasLevel(Run(w, actions[..n]).policies, id, level) :: (id, level)
  }

  lemma {:induction false} RunHeld(policies: PolicyTable, now: int, actions: seq<Action>)
    requires policies.Valid()
    ensures var w := Initial(policies, now);
            AllHeld(Run(w, actions), EverHad(w, actions))
    decreases |actions|
  {
    var w := Initial(policies, now);
    if actions != [] {
      var front := actions[..|actions| - 1];
      RunHeld(policies, now, front);
      EverHadGrows(w, actions);
      var before := Run(w, front);
      AllHeldGrows(before, EverHad(w, front), EverHad(w, actions));
      NextHeld(before, actions[|actions| - 1], EverHad(w, actions));
    }
  }

  lemma AllHeldGrows(w: World, held: Holdings, more: Holdings)
    requires AllHeld(w, held) && held <= more
    ensures AllHeld(w, more)
  {
    forall e | Has(w.store.events, e)
      ensures NoteHeld(e, more)
    {
      assert NoteHeld(e, held);
    }
    forall k | 0 <= k < |w.pipelines|
      ensures PipelineHeld(w.pipelines[k], more)
    {
      assert PipelineHeld(w.pipelines[k], held);
    }
  }

  lemma EverHadGrows(w: World, actions: seq<Action>)
    requires w.policies.Valid() && actions != []
    ensures var front := actions[..|actions| - 1];
            && EverHad(w, front) <= EverHad(w, actions)
            && forall id, level :: HasLevel(Run(w, front).policies, id, level) ==> (id, level) in EverHad(w, actions)
  {
    var m := |actions| - 1;
    var front := actions[..m];
    forall id, level, n | 0 <= n <= m && HasLevel(Run(w, front[..n]).policies, id, level)
      ensures (id, level) in EverHad(w, actions)
    {
      assert front[..n] == actions[..n];
    }
    assert front[..m] == front;
  }

  // ---------------------------------------------------------------- results over whole runs

  /** An execution needs an earlier approval of its task. */
  ghost predicate ApprovedBefore(events: seq<Event>, i: nat)
    requires i < |events|
  {
    exists j :: 0 <= j < i && events[j].task == events[i].task && events[j].kind.Approved?
  }

  /** An earlier note for the task names a policy and a level, and the run's table has had that policy at that level, L4 or above. */
  ghost predicate PolicyStoodBehind(w: World, actions: seq<Action>, events: seq<Event>, i: nat)
    requires w.policies.Valid() && i < |events|
  {
    exists j, id, level, n ::
      && 0 <= j < i && events[j] == Event(events[i].task, Noted(AutoApproved(Some(id), level)))
      && 0 <= n <= |actions| && HasLevel(Run(w, actions[..n]).policies, id, level)
  }

  /**
    In every run from an empty queue: an execution starts only after an approval of its task, and the system approves
    only after noting a policy the table has had at that level, L4 or above, and never a task whose gate is flagged.
  */
  lemma RunIsSafe(policies: PolicyTable, now: int, actions: seq<Action>)
    requires policies.Valid()
    ensures var w := Run(Initial(policies, now), actions);
            var events := w.store.events;
            && (forall i: nat :: i < |events| && events[i].kind == Noted(ExecutionStarted) ==> ApprovedBefore(events, i))
            && (forall i: nat :: i < |events| && events[i].kind == Approved(true) ==>
                  PolicyStoodBehind(Initial(policies, now), actions, events, i) && !IsFlagged(ContentOf(w, events[i].task)))
  {
    RunKeepsInv(Initial(policies, now), actions);
    RunHeld(policies, now, actions);
    var w := Run(Initial(policies, now), actions);
    var events := w.store.events;
    forall i: nat | i < |events| && events[i].kind == Noted(ExecutionStarted)
      ensures ApprovedBefore(events, i)
    {
      ExecutionIsApproved(events, i);
    }
    forall i: nat | i < |events| && events[i].kind == Approved(true)
      ensures PolicyStoodBehind(Initial(policies, now), actions, events, i) && !IsFlagged(ContentOf(w, events[i].task))
    {
      SystemApprovalIsBacked(Initial(policies, now), actions, i);
      assert Has(events, Event(events[i].task, Approved(true)));
    }
  }

  lemma ExecutionIsApproved(events: seq<Event>, i: nat)
    requires LogInv(events) && i < |events| && events[i].kind == Noted(ExecutionStarted)
    ensures ApprovedBefore(events, i)
  {
    assert Justified(events[..i], events[i]);
    var e := if Has(events[..i], Event(events[i].task, Approved(true))) then Event(events[i].task, Approved(true))
             else Event(events[i].task, Approved(false));
    var j :| 0 <= j < i && events[..i][j] == e;
    assert events[j].kind.Approved?;
  }

  /** A justified system approval follows a note that names a policy and level in `held`. */
  lemma ApprovalFollowsNote(events: seq<Event>, i: nat, held: Holdings) returns (j: nat, id: PolicyId, level: Level)
    requires i < |events| && events[i].kind == Approved(true) && Justified(events[..i], events[i])
    requires forall e :: Has(events, e) ==> NoteHeld(e, held)
    ensures j < i && events[j] == Event(events[i].task, Noted(AutoApproved(Some(id), level))) && (id, level) in held
  {
    id, level :| LevelIndex(level) >= 4 && Has(events[..i], Event(events[i].task, Noted(AutoApproved(Some(id), level))));
    var note := Event(events[i].task, Noted(AutoApproved(Some(id), level)));
    j :| 0 <= j < i && events[..i][j] == note;
    assert events[j] == note;
    assert Has(events, note) && NoteHeld(note, held);
  }

  lemma SystemApprovalIsBacked(w: World, actions: seq<Action>, i: nat)
    requires w.policies.Valid()
    requires var e := Run(w, actions); LogInv(e.store.events) && AllHeld(e, EverHad(w, actions))
    requires var events := Run(w, actions).store.events; i < |events| && events[i].kind == Approved(true)
    ensures PolicyStoodBehind(w, actions, Run(w, actions).store.events, i)
  {
    var j, id, level := ApprovalFollowsNote(Run(w, actions).store.events, i, EverHad(w, actions));
    var n :| 0 <= n <= |actions| && HasLevel(Run(w, actions[..n]).policies, id, level);
  }

  ghost predicate NoneExecutes(resumes: seq<Resume>, id: TaskId) {
    forall i :: 0 <= i < |resumes| && resumes[i].task == id ==> !resumes[i].outcome.Execute?
  }

  ghost predicate Idle(w: World, id: TaskId) { NoneExecutes(w.resumes, id) }

  lemma RestIsIdle(resumes: seq<Resume>, i: nat, id: TaskId)
    requires i < |resumes| && NoneExecutes(resumes, id)
    ensures NoneExecutes(resumes[..i] + resumes[i + 1..], id)
  {
    var rest := resumes[..i] + resumes[i + 1..];
    assert forall j :: 0 <= j < |rest| ==> rest[j] == resumes[if j < i then j else j + 1];
  }

  lemma FlagStopsAdvance(w: World, k: nat, input: Input, id: TaskId)
    requires Inv(w) && IsFlagged(ContentOf(w, id)) && Idle(w, id) && k < |w.pipelines|
    ensures var w' := Next(w, Advance(k, input));
            && IsFlagged(ContentOf(w', id)) && Idle(w', id)
            && Count(w'.store.events, id, Noted(ExecutionStarted)) == Count(w.store.events, id, Noted(ExecutionStarted))
  {
    AdvanceKeepsInv(w, k, input);
    assert PipelineEffect(w, AdvancePipeline(w, w.pipelines[k], input).0, w.pipelines[k].task);
  }

  lemma FlagStopsFinish(w: World, i: nat, id: TaskId)
    requires w.policies.Valid() && IsFlagged(ContentOf(w, id)) && Idle(w, id) && i < |w.resumes|
    ensures var w' := Next(w, FinishResume(i));
            && IsFlagged(ContentOf(w', id)) && Idle(w', id)
            && Count(w'.store.events, id, Noted(ExecutionStarted)) == Count(w.store.events, id, Noted(ExecutionStarted))
  {
    var r := w.resumes[i];
    AppendCount(w.store.events, Event(r.task, Noted(OutcomeNote(r.outcome))), id, Noted(ExecutionStarted));
    RestIsIdle(w.resumes, i, id);
  }

  lemma FlagStopsStep(w: World, a: Action, id: TaskId)
    requires Inv(w) && IsFlagged(ContentOf(w, id)) && Idle(w, id)
    ensures var w' := Next(w, a);
            && IsFlagged(ContentOf(w', id)) && Idle(w', id)
            && Count(w'.store.events, id, Noted(ExecutionStarted)) == Count(w.store.events, id, Noted(ExecutionStarted))
  {
    match a
    case Advance(k, input) =>
      if k < |w.pipelines| { FlagStopsAdvance(w, k, input, id); }
    case FinishResume(i) =>
      if i < |w.resumes| { FlagStopsFinish(w, i, id); }
    case Environment(op) =>
      if Outside(op) { QuietStep(w.store, op); }
    case _ =>
  }

  /** Once a gate carries the maintenance flag it keeps it, and no resume begun afterwards starts an execution. */
  lemma {:induction false} FlaggedTaskNeverExecutes(w: World, actions: seq<Action>, id: TaskId)
    requires Inv(w) && IsFlagged(ContentOf(w, id)) && Idle(w, id)
    ensures var w' := Run(w, actions);
            && IsFlagged(ContentOf(w', id)) && Idle(w', id)
            && Count(w'.store.events, id, Noted(ExecutionStarted)) == Count(w.store.events, id, Noted(ExecutionStarted))
    decreases |actions|
  {
    if actions != [] {
      var n := |actions| - 1;
      FlaggedTaskNeverExecutes(w, actions[..n], id);
      RunKeepsInv(w, actions[..n]);
      FlagStopsStep(Run(w, actions[..n]), actions[n], id);
    }
  }

  // ---------------------------------------------------------------- at most one execution

  function Executions(w: World, id: TaskId): nat { Count(w.store.events, id, Noted(ExecutionStarted)) }

  /** A task whose fix is not a compliance remediation has been executed at most once. */
  ghost predicate AtMostOnce(w: World) {
    forall id :: !IsRemediation(ContentOf(w, id)) ==> Executions(w, id) <= 1
  }

  predicate InFlight(w: World, id: TaskId) { Resume(id, Execute) in w.resumes }

  /** A resume decides to execute such a task while another that has decided so is in flight. */
  predicate Clashes(w: World, a: Action) {
    && a.BeginResume? && a.task in w.store.tasks && !IsRemediation(ContentOf(w, a.task))
    && ResumeDecision(w.store.events, a.task, ContentOf(w, a.task), a.operatorCommands) == Some(Execute)
    && InFlight(w, a.task)
  }

  /** Executions of such a task, started or decided on by a resume in flight, are at most one. */
  ghost predicate OnceAt(w: World, id: TaskId) {
    !IsRemediation(ContentOf(w, id)) ==> Executions(w, id) + multiset(w.resumes)[Resume(id, Execute)] <= 1
  }

  ghost predicate Once(w: World) {
    forall id :: OnceAt(w, id)
  }

  lemma AdvanceKeepsOnce(w: World, k: nat, input: Input, id: TaskId)
    requires Inv(w) && OnceAt(w, id) && k < |w.pipelines|
    ensures OnceAt(Next(w, Advance(k, input)), id)
  {
    AdvanceKeepsInv(w, k, input);
    var w' := AdvancePipeline(w, w.pipelines[k], input).0;
    assert PipelineEffect(w, w', w.pipelines[k].task);
    assert IsRemediation(ContentOf(w, id)) ==> IsRemediation(ContentOf(w', id));
  }

  lemma BeginKeepsOnce(w: World, task: TaskId, commands: string, id: TaskId)
    requires OnceAt(w, id) && !Clashes(w, BeginResume(task, commands)) && w.policies.Valid()
    ensures OnceAt(Next(w, BeginResume(task, commands)), id)
  {
    CountedIffPresent(w.store.events, Event(task, Noted(ExecutionStarted)));
    var w' := Next(w, BeginResume(task, commands));
    if w'.resumes != w.resumes {
      var r := w'.resumes[|w.resumes|];
      assert w'.resumes == w.resumes + [r];
      assert InFlight(w, task) <==> multiset(w.resumes)[Resume(task, Execute)] > 0;
    }
  }

  lemma WithoutOne(resumes: seq<Resume>, i: nat)
    requires i < |resumes|
    ensures multiset(resumes[..i] + resumes[i + 1..]) == multiset(resumes) - multiset{resumes[i]}
  {
    assert resumes == resumes[..i] + [resumes[i]] + resumes[i + 1..];
  }

  /** Finishing a resume turns a decision to execute into an execution, one for one. */
  lemma FinishedIsExecuted(events: seq<Event>, resumes: seq<Resume>, i: nat, id: TaskId)
    requires i < |resumes|
    ensures var r := resumes[i];
            var after := events + [Event(r.task, Noted(OutcomeNote(r.outcome)))];
            Count(after, id, Noted(ExecutionStarted)) + multiset(resumes[..i] + resumes[i + 1..])[Resume(id, Execute)]
              == Count(events, id, Noted(ExecutionStarted)) + multiset(resumes)[Resume(id, Execute)]
  {
    var r := resumes[i];
    WithoutOne(resumes, i);
    AppendCount(events, Event(r.task, Noted(OutcomeNote(r.outcome))), id, Noted(ExecutionStarted));
    assert r in resumes;
  }

  lemma FinishAppends(w: World, i: nat)
    requires w.policies.Valid() && i < |w.resumes|
    ensures var r := w.resumes[i];
            var w' := Next(w, FinishResume(i));
            && w'.resumes == w.resumes[..i] + w.resumes[i + 1..]
            && w'.store.events == w.store.events + [Event(r.task, Noted(OutcomeNote(r.outcome)))]
            && w'.content == w.content && w'.policies == w.policies
  {
  }

  lemma FinishKeepsOnce(w: World, i: nat, id: TaskId)
    requires OnceAt(w, id) && i < |w.resumes| && w.policies.Valid()
    ensures OnceAt(Next(w, FinishResume(i)), id)
  {
    FinishAppends(w, i);
    FinishedIsExecuted(w.store.events, w.resumes, i, id);
  }

  lemma NextKeepsOnceAt(w: World, a: Action, id: TaskId)
    requires Inv(w) && OnceAt(w, id) && !Clashes(w, a)
    ensures OnceAt(Next(w, a), id)
  {
    match a
    case Advance(k, input) =>
      if k < |w.pipelines| { AdvanceKeepsOnce(w, k, input, id); }
    case BeginResume(task, commands) => BeginKeepsOnce(w, task, commands, id);
    case FinishResume(i) =>
      if i < |w.resumes| { FinishKeepsOnce(w, i, id); }
    case Environment(op) =>
      if Outside(op) { QuietStep(w.store, op); }
    case _ =>
  }

  lemma NextKeepsOnce(w: World, a: Action)
    requires Inv(w) && Once(w) && !Clashes(w, a)
    ensures Once(Next(w, a))
  {
    forall id
      ensures OnceAt(Next(w, a), id)
    {
      assert OnceAt(w, id);
      NextKeepsOnceAt(w, a, id);
    }
  }

  lemma OnceIsAtMostOnce(w: World)
    requires Once(w)
    ensures AtMostOnce(w)
  {
    forall id | !IsRemediation(ContentOf(w, id))
      ensures Executions(w, id) <= 1
    {
      assert OnceAt(w, id);
    }
  }

  ghost predicate NeverClashes(w: World, actions: seq<Action>)
    requires w.policies.Valid()
  {
    forall n :: 0 <= n < |actions| ==> !Clashes(Run(w, actions[..n]), actions[n])
  }

  lemma {:induction false} NeverClashesKeepsOnce(w: World, actions: seq<Action>)
    requires Inv(w) && Once(w) && NeverClashes(w, actions)
    ensures Once(Run(w, actions))
    decreases |actions|
  {
    if actions != [] {
      var m := |actions| - 1;
      forall n | 0 <= n < m
        ensures !Clashes(Run(w, actions[..m][..n]), actions[..m][n])
      {
        assert actions[..m][..n] == actions[..n];
      }
      NeverClashesKeepsOnce(w, actions[..m]);
      RunKeepsInv(w, actions[..m]);
      NextKeepsOnce(Run(w, actions[..m]), actions[m]);
    }
  }

  predicate OnlyFinishes(actions: seq<Action>) {
    forall n :: 0 <= n < |actions| ==> actions[n].FinishResume?
  }

  lemma RunTwo(w: World, a: Action, b: Action)
    requires w.policies.Valid()
    ensures Next(w, a).policies.Valid() && Run(w, [a, b]) == Next(Next(w, a), b)
  {
    NextKeepsPolicies(w, a);
    assert [a, b][..1] == [a] && [a][..0] == [];
    assert Run(w, [a]) == Next(w, a);
  }

  /** Finishing the two resumes of a clash executes the task twice more. */
  lemma ClashExecutesTwice(w: World, a: Action) returns (finishes: seq<Action>)
    requires w.policies.Valid() && Clashes(w, a)
    ensures OnlyFinishes(finishes) && Next(w, a).policies.Valid()
    ensures var end := Run(Next(w, a), finishes);
            Executions(end, a.task) == Executions(w, a.task) + 2 && !IsRemediation(ContentOf(end, a.task))
  {
    var r := Resume(a.task, Execute);
    var i :| 0 <= i < |w.resumes| && w.resumes[i] == r;
    var last := |w.resumes|;
    var one := Next(w, a);
    assert one == w.(resumes := w.resumes + [r]);
    FinishAppends(one, last);
    var two := Next(one, FinishResume(last));
    assert two.resumes == w.resumes;
    FinishAppends(two, i);
    var e := Event(a.task, Noted(ExecutionStarted));
    AppendCount(w.store.events, e, a.task, e.kind);
    AppendCount(w.store.events + [e], e, a.task, e.kind);
    finishes := [FinishResume(last), FinishResume(i)];
    RunTwo(one, FinishResume(last), FinishResume(i));
  }

  /** Whatever resumes are in flight after any part of the run, finishing them keeps executions at most one. */
  ghost predicate StaysAtMostOnce(w: World, actions: seq<Action>)
    requires w.policies.Valid()
  {
    forall n, finishes :: 0 <= n <= |actions| && OnlyFinishes(finishes) ==> AtMostOnce(Run(Run(w, actions[..n]), finishes))
  }

  /** Executions are at most one per task, in a run and in all its completions, if and only if the run never clashes. */
  lemma ExecutesAtMostOnceIff(policies: PolicyTable, now: int, actions: seq<Action>)
    requires policies.Valid()
    ensures var w := Initial(policies, now);
            StaysAtMostOnce(w, actions) <==> NeverClashes(w, actions)
  {
    var w := Initial(policies, now);
    if NeverClashes(w, actions) {
      forall n, finishes | 0 <= n <= |actions| && OnlyFinishes(finishes)
        ensures AtMostOnce(Run(Run(w, actions[..n]), finishes))
      {
        CompletionStaysOnce(w, actions, n, finishes);
      }
    } else {
      var n :| 0 <= n < |actions| && Clashes(Run(w, actions[..n]), actions[n]);
      var finishes := ClashExecutesTwice(Run(w, actions[..n]), actions[n]);
      assert actions[..n + 1][..n] == actions[..n];
      assert Run(w, actions[..n + 1]) == Next(Run(w, actions[..n]), actions[n]);
      assert !AtMostOnce(Run(Run(w, actions[..n + 1]), finishes));
    }
  }

  lemma CompletionStaysOnce(w: World, actions: seq<Action>, n: nat, finishes: seq<Action>)
    requires Inv(w) && Once(w) && NeverClashes(w, actions) && n <= |actions| && OnlyFinishes(finishes)
    ensures AtMostOnce(Run(Run(w, actions[..n]), finishes))
  {
    forall m | 0 <= m < n
      ensures !Clashes(Run(w, actions[..n][..m]), actions[..n][m])
    {
      assert actions[..n][..m] == actions[..m];
    }
    NeverClashesKeepsOnce(w, actions[..n]);
    RunKeepsInv(w, actions[..n]);
    NeverClashesKeepsOnce(Run(w, actions[..n]), finishes);
    OnceIsAtMostOnce(Run(Run(w, actions[..n]), finishes));
  }

  /** No resume of the task is in flight when one begins. */
  predicate NonOverlapping(w: World, a: Action) {
    a.BeginResume? ==> forall r :: r in w.resumes ==> r.task != a.task
  }

  lemma NoOverlapNoClash(w: World, a: Action)
    requires NonOverlapping(w, a)
    ensures !Clashes(w, a)
  {
  }

  ghost predicate NeverOverlaps(w: World, actions: seq<Action>)
    requires w.policies.Valid()
  {
    forall n :: 0 <= n < |actions| ==> NonOverlapping(Run(w, actions[..n]), actions[n])
  }

  lemma NoOverlapNeverClashes(w: World, actions: seq<Action>)
    requires w.policies.Valid() && NeverOverlaps(w, actions)
    ensures NeverClashes(w, actions)
  {
    forall n | 0 <= n < |actions|
      ensures !Clashes(Run(w, actions[..n]), actions[n])
    {
      NoOverlapNoClash(Run(w, actions[..n]), actions[n]);
    }
  }

  lemma NeverClashesIsAtMostOnce(w: World, actions: seq<Action>)
    requires Inv(w) && Once(w) && NeverClashes(w, actions)
    ensures AtMostOnce(Run(w, actions))
  {
    NeverClashesKeepsOnce(w, actions);
    OnceIsAtMostOnce(Run(w, actions));
  }

  /** In particular, resumes of one task that never overlap execute it at most once. */
  lemma ExecutesAtMostOnce(policies: PolicyTable, now: int, actions: seq<Action>)
    requires policies.Valid()
    requires NeverOverlaps(Initial(policies, now), actions)
    ensures AtMostOnce(Run(Initial(policies, now), actions))
  {
    var w := Initial(policies, now);
    NoOverlapNeverClashes(w, actions);
    NeverClashesIsAtMostOnce(w, actions);
  }

  /** Two human resumes of one approved task, both begun before either has marked its start. */
  function DoubleResume(id: TaskId, commands: string): seq<Action> {
    [Environment(CreateTask(id, Rca, None, None)), Environment(ApproveTask(id, false)),
     BeginResume(id, commands), BeginResume(id, commands)]
  }

  /** Such a run clashes, whatever the policies: the double execution is reachable from the empty queue. */
  lemma ClashIsReachable(policies: PolicyTable, now: int, id: TaskId, commands: string)
    requires policies.Valid() && commands != ""
    ensures !NeverClashes(Initial(policies, now), DoubleResume(id, commands))
  {
    var w, actions := Initial(policies, now), DoubleResume(id, commands);
    var created := Next(w, actions[0]);
    var approved := Next(created, actions[1]);
    var begun := Next(approved, actions[2]);
    assert actions[..3] == [actions[0], actions[1], actions[2]];
    assert actions[..3][..2] == [actions[0], actions[1]];
    RunTwo(w, actions[0], actions[1]);
    assert Run(w, actions[..3]) == begun;
    assert approved.store.events == [Event(id, Created), Event(id, Approved(false))];
    assert approved.store.events[1] == Event(id, Approved(false));
    assert ResumeDecision(approved.store.events, id, Plain, commands) == Some(Execute);
    assert begun == approved.(resumes := [Resume(id, Execute)]);
    assert Clashes(Run(w, actions[..3]), actions[3]);
  }

  // ---------------------------------------------------------------- the shape of Phase 1

  /** Distance to the end of the graph. */
  function Rank(n: Node): nat {
    match n
    case CheckIntents => 9
    case PolicyFastPath => 8
    case Investigate => 7
    case Investigating => 6
    case ProposeFix => 5
    case Validate => 4
    case DecideGate => 3
    case RecordGate(_) => 2
    case CommitGate(_) => 1
    case NoAiGate => 1
    case LowConfidenceGate => 1
    case End => 0
  }

  /** Every step either changes nothing at all or moves strictly towards the end of the graph. */
  lemma GraphIsAcyclic(w: World, p: Pipeline, input: Input)
    requires w.policies.Valid()
    ensures var (w', p') := AdvancePipeline(w, p, input);
            (w', p') == (w, p) || Rank(p'.node) < Rank(p.node)
  {
  }

  /** A standing `escalate` intent ends the run before any task exists, so no gate appears. */
  lemma EscalationMakesNoGate(w: World, alertname: string, maintenance: bool, input: Input)
    requires w.policies.Valid()
    ensures var p := Pipeline(CheckIntents, None, None, None, maintenance, alertname);
            var (w1, p1) := AdvancePipeline(w, p, EscalateIntent);
            AdvancePipeline(w1, p1, input) == (w, p.(node := End))
  {
  }

  /** What an undisturbed gate leaves behind. */
  ghost function GateWrites(s: Store, id: TaskId, d: AutonomyDecision, doNotAutoExecute: bool): Store {
    if d.allowExecution && !doNotAutoExecute then
      Step(Step(s, AddEvent(id, Noted(AutoApproved(d.policyId, d.level)))), ApproveTask(id, true))
    else
      Step(Step(s, AddEvent(id, Noted(ApprovalPolicy(d.policyId, d.level)))), RequestApproval(id))
  }

  lemma GateDecides(w: World, p: Pipeline, role: string, environment: string, prior: int)
    requires w.policies.Valid() && p.node.DecideGate? && p.task.Some?
    ensures var d := GateDecision(w.policies, w.now, p, role, environment, prior);
            var (w', p') := AdvancePipeline(w, p, GateContext(role, environment, prior));
            && p' == p.(node := RecordGate(d)) && w'.store == w.store
            && IsFlagged(ContentOf(w', p.task.value)) == p.doNotAutoExecute
  {
  }

  lemma GateRecordsAndCommits(w: World, p: Pipeline, i1: Input, i2: Input)
    requires w.policies.Valid() && p.node.RecordGate? && p.task.Some?
    ensures var (w1, p1) := AdvancePipeline(w, p, i1);
            var (w2, p2) := AdvancePipeline(w1, p1, i2);
            && p2.node == End && w2.content == w.content
            && w2.store == GateWrites(w.store, p.task.value, p.node.decision, p.doNotAutoExecute)
            && (p.task.value in w.store.tasks ==>
                  HasStatus(w2.store, p.task.value,
                            if p.node.decision.allowExecution && !p.doNotAutoExecute then Complete else AwaitingApproval))
  {
    var d := p.node.decision;
    var (w1, p1) := AdvancePipeline(w, p, i1);
    assert p1 == p.(node := CommitGate(d));
  }

  /** A gate reached with a task always settles it: approved by the system exactly when the decision allows
      execution and the task is not flagged, otherwise left awaiting approval. */
  lemma GateSettlesTask(w: World, p: Pipeline, role: string, environment: string, prior: int, i1: Input, i2: Input)
    requires w.policies.Valid() && p.node.DecideGate? && p.task.Some? && p.task.value in w.store.tasks
    ensures var (w1, p1) := AdvancePipeline(w, p, GateContext(role, environment, prior));
            var (w2, p2) := AdvancePipeline(w1, p1, i1);
            var (w3, p3) := AdvancePipeline(w2, p2, i2);
            var d := GateDecision(w.policies, w.now, p, role, environment, prior);
            && p3.node == End && w3.store == GateWrites(w.store, p.task.value, d, p.doNotAutoExecute)
            && HasStatus(w3.store, p.task.value, if d.allowExecution && !p.doNotAutoExecute then Complete else AwaitingApproval)
            && IsFlagged(ContentOf(w3, p.task.value)) == p.doNotAutoExecute
  {
    GateDecides(w, p, role, environment, prior);
    var (w1, p1) := AdvancePipeline(w, p, GateContext(role, environment, prior));
    GateRecordsAndCommits(w1, p1, i1, i2);
  }

  // ---------------------------------------------------------------- the two entry points that write

  /** A human supplied the commands an empty proposal lacks; the override is noted before anything else. */
  predicate Overrides(c: Content, operatorCommands: string) {
    !IsRemediation(c) && NothingToApply(c) && operatorCommands != ""
  }

  const OVERRIDE := OtherNote("operator_commands_override")

  class IncidentWorkflow {
    const ts: TaskStore
    var content: map<TaskId, Content>

    constructor (ts: TaskStore)
      ensures this.ts == ts && content == map[]
    {
      this.ts := ts;
      content := map[];
    }

    /** `_node_create_approval_gate`, run to its end without interruption. */
    method CreateApprovalGate(policies: PolicyTable, now: int, p: Pipeline, deviceRole: string, environment: string,
                              prior: int)
      returns (auto: bool)
      requires policies.Valid() && p.node.DecideGate? && p.task.Some?
      modifies this, ts
      ensures var d := GateDecision(policies, now, p, deviceRole, environment, prior);
              && ts.Contents() == GateWrites(old(ts.Contents()), p.task.value, d, p.doNotAutoExecute)
              && content == old(content)[p.task.value :=
                   Gate(if p.fix.Some? then p.fix.value else NO_FIX, p.doNotAutoExecute, d.policyId, d.level)]
      ensures auto == (GateDecision(policies, now, p, deviceRole, environment, prior).allowExecution && !p.doNotAutoExecute)
    {
      var fix := if p.fix.Some? then p.fix.value else NO_FIX;
      var decision;
      if p.fastPath.Some? && p.fastPath.value in policies.rows {
        var policy := policies.rows[p.fastPath.value];
        var idx := LevelIndex(policy.level);
        decision := AutonomyDecision(policy.level, idx <= 3, idx >= 4, Some(policy.id));
      } else {
        decision := Decide(policies, Context(fix.fixType, deviceRole, environment, fix.confidence, fix.risk, prior, p.alertname), now);
      }
      auto := decision.allowExecution && !p.doNotAutoExecute;
      var id := p.task.value;
      content := content[id := Gate(fix, p.doNotAutoExecute, decision.policyId, decision.level)];
      if auto {
        ts.AddEvent(id, Noted(AutoApproved(decision.policyId, decision.level)));
        ts.ApproveTask(id, true);
      } else {
        ts.AddEvent(id, Noted(ApprovalPolicy(decision.policyId, decision.level)));
        ts.RequestApproval(id);
      }
    }

    /** `resume_execution`, up to where it reports, suppresses or starts. */
    method ResumeExecution(id: TaskId, operatorCommands: string)
      modifies ts
      ensures ts.tasks == old(ts.tasks)
      ensures var c := if id in content then content[id] else Plain;
              ts.events == old(ts.events) +
                if id !in ts.tasks then [] else
                match ResumeDecision(old(ts.events), id, c, operatorCommands)
                case None => []
                case Some(o) => (if Overrides(c, operatorCommands) then [Event(id, Noted(OVERRIDE))] else [])
                                + [Event(id, Noted(OutcomeNote(o)))]
    {
      if id !in ts.tasks { return; }
      if !HasApproval(ts.events, id) { return; }
      var c := if id in content then content[id] else Plain;
      if c.Gate? && c.fix.fixType == "config_remediation" {
        if c.flagged {
          ts.AddEvent(id, Noted(ExecutionSuppressed));
        } else {
          ts.AddEvent(id, Noted(ExecutionStarted));
        }
        return;
      }
      if Has(ts.events, Event(id, Noted(ExecutionStarted))) { return; }
      var commands := if c.Gate? then c.fix.commands else "none";
      if commands == "none" || (c.Gate? && c.fix.fixType == "no_action") {
        if operatorCommands != "" {
          ts.AddEvent(id, Noted(OVERRIDE));
        } else {
          ts.AddEvent(id, Noted(NothingToExecute));
          return;
        }
      }
      if c.Gate? && c.flagged {
        ts.AddEvent(id, Noted(ExecutionSuppressed));
        return;
      }
      ts.AddEvent(id, Noted(ExecutionStarted));
    }
  }
}
