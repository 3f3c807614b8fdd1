/**
  The task table and its event log (ai-agents/shared/task_store.py).

  Each operation is one transaction: a row update and, for most, one appended
  event.  Statements that match no row change no row, as in SQL, and their
  event is still inserted.
*/
module TaskStore {
  import opened Prelude
  import opened PipelineModels

  type TaskId = string

  datatype Status = Pending | Claimed | Running | AwaitingApproval | Complete | Failed | Rejected

  datatype TaskType = Rca | FixProposal | Validation | ApprovalGate | Incident

  /** Lifecycle events, written by the store itself, and notes, written through `add_event`. */
  datatype EventKind =
    | Created | TaskClaimed | Started | Completed | TaskFailed | ApprovalRequested | Approved(bySystem: bool)
    | TaskRejected | RetryScheduled | IncidentClosed | IncidentResolved
    | Noted(note: Note)

  datatype Note =
    | AutoApproved(policyId: Option<PolicyId>, level: Level)
    | ApprovalPolicy(policyId: Option<PolicyId>, level: Level)
    | FastPathResolved(policyId: Option<PolicyId>)
    | ExecutionStarted | ExecutionSuppressed | NothingToExecute | TaskLinked
    | OtherNote(name: string)

  datatype Event = Event(task: TaskId, kind: EventKind)

  datatype Row = Row(kind: TaskType, status: Status, parent: Option<TaskId>, incident: Option<TaskId>, retryCount: nat)

  datatype Store = Store(tasks: map<TaskId, Row>, events: seq<Event>)

  const EMPTY := Store(map[], [])

  datatype Op =
    | CreateTask(id: TaskId, kind: TaskType, parent: Option<TaskId>, memberOf: Option<TaskId>)
    | ClaimTask(id: TaskId)
    | StartTask(id: TaskId)
    | CompleteTask(id: TaskId)
    | FailTask(id: TaskId)
    | RequestApproval(id: TaskId)
    | ApproveTask(id: TaskId, bySystem: bool)
    | RejectRow(id: TaskId)
    | MaybeCloseIncident(incident: TaskId)
    | CloseIncident(id: TaskId)
    | RetryTask(id: TaskId)
    | LinkTask(id: TaskId, incident: TaskId)
    | AddEvent(id: TaskId, event: EventKind)
    | ClearAll

  predicate Terminal(s: Status) { s.Complete? || s.Rejected? || s.Failed? }

  predicate HasStatus(s: Store, id: TaskId, status: Status) {
    id in s.tasks && s.tasks[id].status == status
  }

  // ---------------------------------------------------------------- transactions

  /** `UPDATE ... SET status` for one id, then `INSERT INTO task_events`. */
  function Move(s: Store, id: TaskId, status: Status, kind: EventKind): Store {
    Store(if id in s.tasks then s.tasks[id := s.tasks[id].(status := status)] else s.tasks, s.events + [Event(id, kind)])
  }

  /** The RCA rows of an incident. */
  predicate Sibling(s: Store, incident: TaskId, id: TaskId) {
    id in s.tasks && s.tasks[id].kind.Rca? && s.tasks[id].incident == Some(incident)
  }

  /** The incident is open, it has RCA rows, and all of them have finished. */
  ghost predicate ReadyToClose(s: Store, incident: TaskId) {
    && incident in s.tasks && !Terminal(s.tasks[incident].status)
    && (exists id :: Sibling(s, incident, id))
    && (forall id :: Sibling(s, incident, id) ==> Terminal(s.tasks[id].status))
  }

  ghost function Step(s: Store, op: Op): Store {
    match op
    case CreateTask(id, kind, parent, incident) =>
      if id in s.tasks then s
      else Store(s.tasks[id := Row(kind, Pending, parent, incident, 0)], s.events + [Event(id, Created)])
    case ClaimTask(id) => if HasStatus(s, id, Pending) then Move(s, id, Claimed, TaskClaimed) else s
    case StartTask(id) => Move(s, id, Running, Started)
    case CompleteTask(id) => Move(s, id, Complete, Completed)
    case FailTask(id) => Move(s, id, Failed, TaskFailed)
    case RequestApproval(id) => Move(s, id, AwaitingApproval, ApprovalRequested)
    case ApproveTask(id, bySystem) => Move(s, id, Complete, Approved(bySystem))
    case RejectRow(id) => Move(s, id, Rejected, TaskRejected)
    case MaybeCloseIncident(inc) => if ReadyToClose(s, inc) then Move(s, inc, Rejected, IncidentClosed) else s
    case CloseIncident(id) => Move(s, id, Complete, IncidentResolved)
    case RetryTask(id) =>
      if HasStatus(s, id, Failed) && s.tasks[id].retryCount < 2 then
        var m := Move(s, id, Pending, RetryScheduled);
        m.(tasks := m.tasks[id := m.tasks[id].(retryCount := s.tasks[id].retryCount + 1)])
      else s
    case LinkTask(id, inc) =>
      Store(if id in s.tasks then s.tasks[id := s.tasks[id].(incident := Some(inc))] else s.tasks,
            s.events + [Event(inc, Noted(TaskLinked))])
    case AddEvent(id, kind) => s.(events := s.events + [Event(id, kind)])
    case ClearAll => EMPTY
  }

  ghost function Run(s: Store, ops: seq<Op>): Store {
    if ops == [] then s else Step(Run(s, ops[..|ops| - 1]), ops[|ops| - 1])
  }

  // ---------------------------------------------------------------- event sourcing

  /** The status an event leaves a task in. */
  function After(status: Status, kind: EventKind): Status {
    match kind
    case Created => Pending
    case TaskClaimed => Claimed
    case Started => Running
    case Completed => Complete
    case TaskFailed => Failed
    case ApprovalRequested => AwaitingApproval
    case Approved(_) => Complete
    case TaskRejected => Rejected
    case RetryScheduled => Pending
    case IncidentClosed => Rejected
    case IncidentResolved => Complete
    case Noted(_) => status
  }

  function Replay(events: seq<Event>, id: TaskId): Status {
    if events == [] then Pending else
    var before := Replay(events[..|events| - 1], id);
    var last := events[|events| - 1];
    if last.task == id then After(before, last.kind) else before
  }

  function Count(events: seq<Event>, id: TaskId, kind: EventKind): nat {
    if events == [] then 0 else
    Count(events[..|events| - 1], id, kind) + if events[|events| - 1] == Event(id, kind) then 1 else 0
  }

  ghost predicate SourcedAt(s: Store, id: TaskId) {
    id in s.tasks ==> s.tasks[id].status == Replay(s.events, id)
  }

  ghost predicate Sourced(s: Store) {
    forall id :: SourcedAt(s, id)
  }

  ghost predicate CountedAt(s: Store, id: TaskId) {
    if id in s.tasks then
      && s.tasks[id].retryCount == Count(s.events, id, RetryScheduled) <= 2
      && Count(s.events, id, TaskClaimed) + (if s.tasks[id].status.Pending? then 1 else 0) <= 1 + s.tasks[id].retryCount
    else Count(s.events, id, RetryScheduled) == 0 && Count(s.events, id, TaskClaimed) == 0
  }

  /** Retries are counted by their events and capped, and each pending epoch is claimed at most once. */
  ghost predicate Counted(s: Store) {
    forall id :: CountedAt(s, id)
  }

  lemma AppendCounts(events: seq<Event>, e: Event)
    ensures forall id :: Replay(events + [e], id) == if e.task == id then After(Replay(events, id), e.kind) else Replay(events, id)
    ensures forall id, k :: Count(events + [e], id, k) == Count(events, id, k) + if e == Event(id, k) then 1 else 0
  {
    assert (events + [e])[..|events|] == events;
  }

  /** `add_event` is only ever given names that are not lifecycle names. */
  predicate PlainEvents(op: Op) {
    op.AddEvent? ==> op.event.Noted?
  }

  /** The event an operation writes when it writes one. */
  function EventOf(op: Op): Event
    requires !op.ClearAll?
  {
    match op
    case CreateTask(id, _, _, _) => Event(id, Created)
    case ClaimTask(id) => Event(id, TaskClaimed)
    case StartTask(id) => Event(id, Started)
    case CompleteTask(id) => Event(id, Completed)
    case FailTask(id) => Event(id, TaskFailed)
    case RequestApproval(id) => Event(id, ApprovalRequested)
    case ApproveTask(id, bySystem) => Event(id, Approved(bySystem))
    case RejectRow(id) => Event(id, TaskRejected)
    case MaybeCloseIncident(inc) => Event(inc, IncidentClosed)
    case CloseIncident(id) => Event(id, IncidentResolved)
    case RetryTask(id) => Event(id, RetryScheduled)
    case LinkTask(_, inc) => Event(inc, Noted(TaskLinked))
    case AddEvent(id, kind) => Event(id, kind)
  }

  /** The guard of an operation; the others always go through. */
  ghost predicate GoesThrough(s: Store, op: Op) {
    match op
    case CreateTask(id, _, _, _) => id !in s.tasks
    case ClaimTask(id) => HasStatus(s, id, Pending)
    case RetryTask(id) => HasStatus(s, id, Failed) && s.tasks[id].retryCount < 2
    case MaybeCloseIncident(inc) => ReadyToClose(s, inc)
    case _ => true
  }

  /** The log is append-only: one event where the guard holds, none where it fails. */
  lemma StepAppends(s: Store, op: Op)
    requires !op.ClearAll?
    ensures Step(s, op).events == if GoesThrough(s, op) then s.events + [EventOf(op)] else s.events
  {
    match op
    case CreateTask(_, _, _, _) =>
    case _ =>
  }

  /** What one operation does to one task: nothing where its guard fails, otherwise what its event says. */
  ghost predicate RowEffect(s: Store, op: Op, id: TaskId)
    requires !op.ClearAll?
  {
    var s' := Step(s, op);
    var e := EventOf(op);
    if !GoesThrough(s, op) then s' == s
    else
       (&& s'.events == s.events + [e]
        && (id in s'.tasks <==> id in s.tasks || e == Event(id, Created))
        && (id in s.tasks ==>
              && s'.tasks[id].status == (if e.task == id then After(s.tasks[id].status, e.kind) else s.tasks[id].status)
              && s'.tasks[id].retryCount == s.tasks[id].retryCount + (if e == Event(id, RetryScheduled) then 1 else 0)
              && s'.tasks[id].incident == (if op.LinkTask? && op.id == id then Some(op.incident) else s.tasks[id].incident)
              && s'.tasks[id].parent == s.tasks[id].parent && s'.tasks[id].kind == s.tasks[id].kind)
        && (e == Event(id, Created) ==>
              id !in s.tasks && op.CreateTask? && s'.tasks[id] == Row(op.kind, Pending, op.parent, op.memberOf, 0))
        && (e == Event(id, TaskClaimed) ==> HasStatus(s, id, Pending))
        && (e == Event(id, RetryScheduled) ==> HasStatus(s, id, Failed) && s.tasks[id].retryCount < 2))
  }

  lemma GuardedRow(s: Store, op: Op, id: TaskId)
    requires op.CreateTask? || op.ClaimTask? || op.RetryTask?
    ensures RowEffect(s, op, id)
  {
  }

  lemma OtherRow(s: Store, op: Op, id: TaskId)
    requires PlainEvents(op) && !op.ClearAll?
    requires op.LinkTask? || op.AddEvent? || op.MaybeCloseIncident?
    ensures RowEffect(s, op, id)
  {
  }

  lemma MovedRow(s: Store, op: Op, id: TaskId)
    requires op.StartTask? || op.CompleteTask? || op.FailTask? || op.RequestApproval? || op.ApproveTask? || op.RejectRow? || op.CloseIncident?
    ensures RowEffect(s, op, id)
  {
  }

  /** Every operation does to every row what its event says, and nothing exactly where its guard fails. */
  lemma StepRow(s: Store, op: Op, id: TaskId)
    requires PlainEvents(op) && !op.ClearAll?
    ensures RowEffect(s, op, id)
  {
    if op.CreateTask? || op.ClaimTask? || op.RetryTask? {
      GuardedRow(s, op, id);
    } else if op.LinkTask? || op.AddEvent? || op.MaybeCloseIncident? {
      OtherRow(s, op, id);
    } else {
      MovedRow(s, op, id);
    }
  }

  lemma AppendCount(events: seq<Event>, e: Event, id: TaskId, k: EventKind)
    ensures Replay(events + [e], id) == if e.task == id then After(Replay(events, id), e.kind) else Replay(events, id)
    ensures Count(events + [e], id, k) == Count(events, id, k) + if e == Event(id, k) then 1 else 0
  {
    AppendCounts(events, e);
  }

  lemma StepKeepsSourced(s: Store, op: Op)
    requires Sourced(s) && PlainEvents(op)
    ensures Sourced(Step(s, op))
  {
    if !op.ClearAll? {
      forall id
        ensures SourcedAt(Step(s, op), id)
      {
        assert SourcedAt(s, id);
        StepRow(s, op, id);
        AppendCount(s.events, EventOf(op), id, Created);
      }
    }
  }

  lemma StepKeepsCountedAt(s: Store, op: Op, id: TaskId)
    requires CountedAt(s, id) && PlainEvents(op) && !op.ClearAll?
    ensures CountedAt(Step(s, op), id)
  {
    StepRow(s, op, id);
    AppendCount(s.events, EventOf(op), id, RetryScheduled);
    AppendCount(s.events, EventOf(op), id, TaskClaimed);
  }

  lemma StepKeepsCounted(s: Store, op: Op)
    requires Counted(s) && PlainEvents(op)
    ensures Counted(Step(s, op))
  {
    if !op.ClearAll? {
      forall id
        ensures CountedAt(Step(s, op), id)
      {
        StepKeepsCountedAt(s, op, id);
      }
    }
  }

  /** Whatever operations run in whatever order, status and retries are functions of the event log,
      and a task is claimed at most three times. */
  lemma {:induction false} RunIsEventSourced(ops: seq<Op>)
    requires forall i :: 0 <= i < |ops| ==> PlainEvents(ops[i])
    ensures var s := Run(EMPTY, ops);
            && Sourced(s) && Counted(s)
            && forall id :: Count(s.events, id, TaskClaimed) <= 3
    decreases |ops|
  {
    if ops != [] {
      RunIsEventSourced(ops[..|ops| - 1]);
      StepKeepsSourced(Run(EMPTY, ops[..|ops| - 1]), ops[|ops| - 1]);
      StepKeepsCounted(Run(EMPTY, ops[..|ops| - 1]), ops[|ops| - 1]);
    }
    forall id
      ensures Count(Run(EMPTY, ops).events, id, TaskClaimed) <= 3
    {
      assert CountedAt(Run(EMPTY, ops), id);
    }
  }

  // ---------------------------------------------------------------- claims

  /** A claim of a pending task: the answer is True, exactly for one of two claims in a row. */
  lemma ClaimTakes(s: Store, id: TaskId)
    requires HasStatus(s, id, Pending)
    ensures var after := Step(s, ClaimTask(id));
            && HasStatus(after, id, Claimed) && !HasStatus(after, id, Pending)
            && Count(after.events, id, TaskClaimed) == Count(s.events, id, TaskClaimed) + 1
            && Step(after, ClaimTask(id)) == after
  {
    AppendCount(s.events, Event(id, TaskClaimed), id, TaskClaimed);
  }

  /** Operation `i` of the run is a claim of `id` that succeeds. */
  ghost predicate WinsClaim(s: Store, ops: seq<Op>, i: nat, id: TaskId)
    requires i < |ops|
  {
    ops[i] == ClaimTask(id) && HasStatus(Run(s, ops[..i]), id, Pending)
  }

  /** The claims of `id` that succeeded since the queue was last cleared. */
  ghost function ClaimsWon(ops: seq<Op>, id: TaskId): nat {
    if ops == [] then 0
    else
      var front, last := ops[..|ops| - 1], ops[|ops| - 1];
      if last.ClearAll? then 0
      else ClaimsWon(front, id) + if last == ClaimTask(id) && HasStatus(Run(EMPTY, front), id, Pending) then 1 else 0
  }

  lemma StepClaims(s: Store, op: Op, id: TaskId)
    requires PlainEvents(op) && !op.ClearAll?
    ensures Count(Step(s, op).events, id, TaskClaimed) ==
            Count(s.events, id, TaskClaimed) + if op == ClaimTask(id) && HasStatus(s, id, Pending) then 1 else 0
  {
    StepRow(s, op, id);
    AppendCount(s.events, EventOf(op), id, TaskClaimed);
  }

  /** Successful claims and claim events are one and the same. */
  lemma {:induction false} ClaimsAreEvents(ops: seq<Op>, id: TaskId)
    requires forall i :: 0 <= i < |ops| ==> PlainEvents(ops[i])
    ensures ClaimsWon(ops, id) == Count(Run(EMPTY, ops).events, id, TaskClaimed)
    decreases |ops|
  {
    if ops != [] {
      var front, last := ops[..|ops| - 1], ops[|ops| - 1];
      ClaimsAreEvents(front, id);
      if !last.ClearAll? {
        StepClaims(Run(EMPTY, front), last, id);
      }
    }
  }

  /** Only a retry, or creating it, makes a task pending. */
  lemma BecomesPending(s: Store, op: Op, id: TaskId)
    requires !HasStatus(s, id, Pending) && HasStatus(Step(s, op), id, Pending)
    ensures op == RetryTask(id) || (op.CreateTask? && op.id == id)
  {
  }

  /** Operation `k` puts the task back into the queue. */
  ghost predicate Requeues(s: Store, ops: seq<Op>, k: nat, id: TaskId)
    requires k < |ops|
  {
    && (ops[k] == RetryTask(id) || (ops[k].CreateTask? && ops[k].id == id))
    && !HasStatus(Run(s, ops[..k]), id, Pending) && HasStatus(Run(s, ops[..k + 1]), id, Pending)
  }

  lemma {:induction false} PendingAgain(s: Store, ops: seq<Op>, i: nat, j: nat, id: TaskId)
    requires i < j <= |ops|
    requires !HasStatus(Run(s, ops[..i + 1]), id, Pending) && HasStatus(Run(s, ops[..j]), id, Pending)
    ensures exists k: nat :: i < k < j && Requeues(s, ops, k, id)
    decreases j
  {
    assert ops[..j][..j - 1] == ops[..j - 1];
    if HasStatus(Run(s, ops[..j - 1]), id, Pending) {
      PendingAgain(s, ops, i, j - 1, id);
    } else {
      BecomesPending(Run(s, ops[..j - 1]), ops[j - 1], id);
      assert Requeues(s, ops, j - 1, id);
    }
  }

  lemma NotPendingAfterClaim(s: Store, ops: seq<Op>, i: nat, id: TaskId)
    requires i < |ops| && WinsClaim(s, ops, i, id)
    ensures !HasStatus(Run(s, ops[..i + 1]), id, Pending)
  {
    ClaimTakes(Run(s, ops[..i]), id);
    assert ops[..i + 1][..i] == ops[..i];
  }

  /** Whoever claims: between two successful claims of a task something put it back into the queue. */
  lemma ClaimedOncePerEpoch(s: Store, ops: seq<Op>, i: nat, j: nat, id: TaskId)
    requires i < j < |ops| && WinsClaim(s, ops, i, id) && WinsClaim(s, ops, j, id)
    ensures exists k: nat :: i < k < j && Requeues(s, ops, k, id)
  {
    NotPendingAfterClaim(s, ops, i, id);
    PendingAgain(s, ops, i, j, id);
  }

  /** Without the restriction, `add_event` breaks the replay exactly when its name would move the status. */
  lemma AddEventKeepsSourcedIff(s: Store, id: TaskId, kind: EventKind)
    requires Sourced(s) && id in s.tasks
    ensures Sourced(Step(s, AddEvent(id, kind))) <==> After(s.tasks[id].status, kind) == s.tasks[id].status
  {
    var s' := Step(s, AddEvent(id, kind));
    assert SourcedAt(s, id);
    forall other
      ensures SourcedAt(s', other) <==> other != id || After(s.tasks[id].status, kind) == s.tasks[id].status
    {
      assert SourcedAt(s, other);
      AppendCount(s.events, Event(id, kind), other, kind);
    }
    if Sourced(s') {
      assert SourcedAt(s', id);
    }
  }

  // ---------------------------------------------------------------- closing an incident under concurrent rejects

  /** A `reject_task` call: before its first transaction, between the two, or finished. */
  datatype Phase = Waiting | Between | Finished

  /** Concurrent calls of `reject_task` for RCAs of one incident. */
  datatype Rejects = Rejects(store: Store, target: seq<TaskId>, phase: seq<Phase>)

  ghost function RejectStep(r: Rejects, incident: TaskId, thread: nat): Rejects
    requires thread < |r.phase| == |r.target|
  {
    match r.phase[thread]
    case Waiting => Rejects(Step(r.store, RejectRow(r.target[thread])), r.target, r.phase[thread := Between])
    case Between => Rejects(Step(r.store, MaybeCloseIncident(incident)), r.target, r.phase[thread := Finished])
    case Finished => r
  }

  ghost function RejectRun(r: Rejects, incident: TaskId, schedule: seq<nat>): Rejects
    requires |r.phase| == |r.target|
    requires forall i :: 0 <= i < |schedule| ==> schedule[i] < |r.target|
    ensures |RejectRun(r, incident, schedule).phase| == |r.phase| && RejectRun(r, incident, schedule).target == r.target
  {
    if schedule == [] then r else
    RejectStep(RejectRun(r, incident, schedule[..|schedule| - 1]), incident, schedule[|schedule| - 1])
  }

  predicate Done(s: Store, id: TaskId) {
    id in s.tasks && Terminal(s.tasks[id].status)
  }

  ghost predicate AllSiblingsDone(s: Store, incident: TaskId) {
    forall id :: Sibling(s, incident, id) ==> Terminal(s.tasks[id].status)
  }

  /** Calls that reject RCAs of an open incident; none of them has started. */
  ghost predicate Fresh(r: Rejects, incident: TaskId) {
    && |r.phase| == |r.target|
    && incident in r.store.tasks && !Terminal(r.store.tasks[incident].status) && r.store.tasks[incident].kind.Incident?
    && (forall t :: 0 <= t < |r.target| ==> Sibling(r.store, incident, r.target[t]))
    && (forall t :: 0 <= t < |r.phase| ==> r.phase[t].Waiting?)
    && Count(r.store.events, incident, IncidentClosed) == 0
  }

  /** What holds between any two transactions, started from `r0`. */
  ghost predicate ClosureInv(r0: Rejects, r: Rejects, incident: TaskId) {
    && |r.phase| == |r.target| && r.target == r0.target
    && incident in r.store.tasks && r.store.tasks[incident].kind.Incident?
    && (forall id :: Sibling(r.store, incident, id) <==> Sibling(r0.store, incident, id))
    && (forall id :: Sibling(r0.store, incident, id) && Terminal(r0.store.tasks[id].status) ==> Terminal(r.store.tasks[id].status))
    && (forall t :: 0 <= t < |r.target| && !r.phase[t].Waiting? ==> Done(r.store, r.target[t]))
    && Count(r.store.events, incident, IncidentClosed) == (if Terminal(r.store.tasks[incident].status) then 1 else 0)
    && (Terminal(r.store.tasks[incident].status) ==> AllSiblingsDone(r.store, incident))
    && ((exists t :: 0 <= t < |r.phase| && r.phase[t].Finished?) && AllSiblingsDone(r.store, incident) ==>
          Terminal(r.store.tasks[incident].status) || exists t :: 0 <= t < |r.phase| && r.phase[t].Between?)
  }

  lemma RejectingKeepsClosureInv(r0: Rejects, r: Rejects, incident: TaskId, thread: nat)
    requires ClosureInv(r0, r, incident) && thread < |r.phase| && r.phase[thread].Waiting?
    requires Sibling(r0.store, incident, r.target[thread])
    ensures ClosureInv(r0, RejectStep(r, incident, thread), incident)
  {
    var r' := RejectStep(r, incident, thread);
    AppendCount(r.store.events, Event(r.target[thread], TaskRejected), incident, IncidentClosed);
    assert Sibling(r.store, incident, r.target[thread]);
    assert r'.phase[thread].Between?;
  }

  /** The second transaction finds the incident not ready, so it changes nothing but the phase. */
  lemma NotReadyKeepsClosureInv(r0: Rejects, r: Rejects, incident: TaskId, thread: nat)
    requires ClosureInv(r0, r, incident) && thread < |r.phase| && r.phase[thread].Between?
    requires Sibling(r0.store, incident, r.target[thread])
    requires !ReadyToClose(r.store, incident)
    ensures ClosureInv(r0, RejectStep(r, incident, thread), incident)
  {
    assert Sibling(r.store, incident, r.target[thread]);
    assert AllSiblingsDone(r.store, incident) ==> Terminal(r.store.tasks[incident].status);
  }

  /** Closing an incident changes its own row alone, and that is no RCA. */
  lemma ClosingTouchesIncident(s: Store, incident: TaskId)
    requires ReadyToClose(s, incident) && s.tasks[incident].kind.Incident?
    ensures var s' := Step(s, MaybeCloseIncident(incident));
            && s'.events == s.events + [Event(incident, IncidentClosed)]
            && s'.tasks == s.tasks[incident := s.tasks[incident].(status := Rejected)]
            && (forall id :: Sibling(s', incident, id) <==> Sibling(s, incident, id))
            && AllSiblingsDone(s', incident)
            && (forall id :: Done(s, id) ==> Done(s', id))
  {
  }

  lemma ReadyKeepsClosureInv(r0: Rejects, r: Rejects, incident: TaskId, thread: nat)
    requires ClosureInv(r0, r, incident) && thread < |r.phase| && r.phase[thread].Between?
    requires ReadyToClose(r.store, incident)
    requires Sibling(r0.store, incident, r.target[thread])
    ensures ClosureInv(r0, RejectStep(r, incident, thread), incident)
  {
    var r' := RejectStep(r, incident, thread);
    ClosingTouchesIncident(r.store, incident);
    AppendCount(r.store.events, Event(incident, IncidentClosed), incident, IncidentClosed);
    forall t | 0 <= t < |r.target| && !r'.phase[t].Waiting?
      ensures Done(r'.store, r.target[t])
    {
      assert !r.phase[t].Waiting?;
    }
  }

  lemma ClosureStep(r0: Rejects, r: Rejects, incident: TaskId, thread: nat)
    requires ClosureInv(r0, r, incident) && thread < |r.phase|
    requires forall t :: 0 <= t < |r.target| ==> Sibling(r0.store, incident, r.target[t])
    ensures ClosureInv(r0, RejectStep(r, incident, thread), incident)
  {
    match r.phase[thread]
    case Waiting => RejectingKeepsClosureInv(r0, r, incident, thread);
    case Between =>
      if ReadyToClose(r.store, incident) {
        ReadyKeepsClosureInv(r0, r, incident, thread);
      } else {
        NotReadyKeepsClosureInv(r0, r, incident, thread);
      }
    case Finished =>
  }

  lemma {:induction false} RejectRunKeepsClosureInv(r0: Rejects, incident: TaskId, schedule: seq<nat>)
    requires Fresh(r0, incident)
    requires forall i :: 0 <= i < |schedule| ==> schedule[i] < |r0.target|
    ensures ClosureInv(r0, RejectRun(r0, incident, schedule), incident)
    decreases |schedule|
  {
    if schedule != [] {
      var n := |schedule| - 1;
      RejectRunKeepsClosureInv(r0, incident, schedule[..n]);
      ClosureStep(r0, RejectRun(r0, incident, schedule[..n]), incident, schedule[n]);
    }
  }

  /** Every sibling was finished at the start or is the target of one of the calls. */
  ghost predicate CoversSiblings(r0: Rejects, incident: TaskId) {
    r0.target != [] && forall id :: Sibling(r0.store, incident, id) ==> Done(r0.store, id) || id in r0.target
  }

  /** In any interleaving of rejects the incident is never closed while a sibling is unfinished, and once all
      calls have finished and left no sibling open it is closed, by exactly one event. */
  lemma NoLostClosure(r0: Rejects, incident: TaskId, schedule: seq<nat>)
    requires Fresh(r0, incident)
    requires forall i :: 0 <= i < |schedule| ==> schedule[i] < |r0.target|
    ensures var r := RejectRun(r0, incident, schedule);
            && (Done(r.store, incident) ==> AllSiblingsDone(r.store, incident))
            && Count(r.store.events, incident, IncidentClosed) <= 1
            && (CoversSiblings(r0, incident) && (forall t :: 0 <= t < |r.phase| ==> r.phase[t].Finished?)
                ==> Done(r.store, incident) && Count(r.store.events, incident, IncidentClosed) == 1)
  {
    RejectRunKeepsClosureInv(r0, incident, schedule);
    var r := RejectRun(r0, incident, schedule);
    if CoversSiblings(r0, incident) && forall t :: 0 <= t < |r.phase| ==> r.phase[t].Finished? {
      AllFinished(r0, r, incident);
    }
  }

  lemma AllFinished(r0: Rejects, r: Rejects, incident: TaskId)
    requires ClosureInv(r0, r, incident) && CoversSiblings(r0, incident)
    requires forall t :: 0 <= t < |r.phase| ==> r.phase[t].Finished?
    ensures Done(r.store, incident)
  {
    assert r.phase[0].Finished?;
    forall id | Sibling(r.store, incident, id)
      ensures Terminal(r.store.tasks[id].status)
    {
      if !Done(r0.store, id) {
        var t :| 0 <= t < |r0.target| && r0.target[t] == id;
        assert !r.phase[t].Waiting?;
      }
    }
  }

  // ---------------------------------------------------------------- parents

  function FirstCreated(events: seq<Event>, id: TaskId): nat {
    if events == [] || events[0] == Event(id, Created) then 0 else 1 + FirstCreated(events[1..], id)
  }

  /** Stored parents were created before their children, so walking up ends. */
  ghost predicate ParentsOlder(s: Store) {
    forall id :: id in s.tasks && s.tasks[id].parent.Some? && s.tasks[id].parent.value in s.tasks
      ==> FirstCreated(s.events, s.tasks[id].parent.value) < FirstCreated(s.events, id)
  }

  /** The stored tasks are those with a creation event, and a task's parent is stored and older. */
  ghost predicate ParentKnownAt(s: Store, id: TaskId) {
    && (id in s.tasks <==> FirstCreated(s.events, id) < |s.events|)
    && (id in s.tasks && s.tasks[id].parent.Some? ==>
          s.tasks[id].parent.value in s.tasks
          && FirstCreated(s.events, s.tasks[id].parent.value) < FirstCreated(s.events, id))
  }

  ghost predicate ParentsKnown(s: Store) {
    forall id :: ParentKnownAt(s, id)
  }

  lemma KnownParentsAreOlder(s: Store)
    requires ParentsKnown(s)
    ensures ParentsOlder(s)
  {
    forall id | id in s.tasks && s.tasks[id].parent.Some?
      ensures FirstCreated(s.events, s.tasks[id].parent.value) < FirstCreated(s.events, id)
    {
      assert ParentKnownAt(s, id);
    }
  }

  lemma {:induction false} FirstCreatedAppend(events: seq<Event>, e: Event, id: TaskId)
    ensures FirstCreated(events, id) <= |events|
    ensures FirstCreated(events + [e], id) ==
            if FirstCreated(events, id) < |events| then FirstCreated(events, id)
            else if e == Event(id, Created) then |events| else |events| + 1
    decreases |events|
  {
    if events != [] && events[0] != Event(id, Created) {
      FirstCreatedAppend(events[1..], e, id);
      assert (events + [e])[1..] == events[1..] + [e];
    }
  }

  /** `create_task` is given an existing parent or none. */
  predicate KnownParent(s: Store, op: Op) {
    op.CreateTask? && op.parent.Some? ==> op.parent.value in s.tasks
  }

  lemma StepKeepsParentsKnownAt(s: Store, op: Op, id: TaskId)
    requires ParentsKnown(s) && PlainEvents(op) && KnownParent(s, op) && !op.ClearAll?
    ensures ParentKnownAt(Step(s, op), id)
  {
    StepRow(s, op, id);
    FirstCreatedAppend(s.events, EventOf(op), id);
    assert ParentKnownAt(s, id);
    var s' := Step(s, op);
    if id in s'.tasks && s'.tasks[id].parent.Some? {
      var parent := s'.tasks[id].parent.value;
      assert ParentKnownAt(s, parent);
      StepRow(s, op, parent);
      FirstCreatedAppend(s.events, EventOf(op), parent);
    }
  }

  lemma StepKeepsParentsKnown(s: Store, op: Op)
    requires ParentsKnown(s) && PlainEvents(op) && KnownParent(s, op)
    ensures ParentsKnown(Step(s, op))
  {
    if !op.ClearAll? {
      forall id
        ensures ParentKnownAt(Step(s, op), id)
      {
        StepKeepsParentsKnownAt(s, op, id);
      }
    }
  }

  /** Every task of the run was created under an existing parent or none. */
  ghost predicate KnownParents(ops: seq<Op>) {
    ops == []
    || (KnownParents(ops[..|ops| - 1]) && KnownParent(Run(EMPTY, ops[..|ops| - 1]), ops[|ops| - 1]))
  }

  /** After any such run, walking up the parents ends. */
  lemma {:induction false} RunKnowsParents(ops: seq<Op>)
    requires KnownParents(ops)
    requires forall i :: 0 <= i < |ops| ==> PlainEvents(ops[i])
    ensures ParentsKnown(Run(EMPTY, ops)) && ParentsOlder(Run(EMPTY, ops))
    decreases |ops|
  {
    if ops != [] {
      RunKnowsParents(ops[..|ops| - 1]);
      StepKeepsParentsKnown(Run(EMPTY, ops[..|ops| - 1]), ops[|ops| - 1]);
    }
    KnownParentsAreOlder(Run(EMPTY, ops));
  }

  /** `chain` runs from a task without a stored parent down to `id`, each task the parent of the next. */
  predicate IsChain(s: Store, chain: seq<TaskId>, id: TaskId) {
    && chain != [] && chain[|chain| - 1] == id
    && (forall i :: 0 <= i < |chain| ==> chain[i] in s.tasks)
    && (forall i :: 0 <= i < |chain| - 1 ==> s.tasks[chain[i + 1]].parent == Some(chain[i]))
  }

  // ---------------------------------------------------------------- the store

  class TaskStore {
    var tasks: map<TaskId, Row>
    var events: seq<Event>

    constructor ()
      ensures Contents() == EMPTY
    {
      tasks := map[];
      events := [];
    }

    ghost function Contents(): Store
      reads this
    {
      Store(tasks, events)
    }

    method SetStatus(id: TaskId, status: Status)
      modifies this`tasks
      ensures tasks == if id in old(tasks) then old(tasks)[id := old(tasks)[id].(status := status)] else old(tasks)
    {
      if id in tasks {
        tasks := tasks[id := tasks[id].(status := status)];
      }
    }

    method AddEvent(id: TaskId, kind: EventKind)
      modifies this`events
      ensures Contents() == Step(old(Contents()), Op.AddEvent(id, kind))
    {
      events := events + [Event(id, kind)];
    }

    /** A second insert of the same id violates the primary key and writes nothing. */
    method CreateTask(id: TaskId, kind: TaskType, parent: Option<TaskId>, incident: Option<TaskId>) returns (ok: bool)
      modifies this
      ensures Contents() == Step(old(Contents()), Op.CreateTask(id, kind, parent, incident))
      ensures ok == (id !in old(tasks))
    {
      if id in tasks { return false; }
      tasks := tasks[id := Row(kind, Pending, parent, incident, 0)];
      AddEvent(id, Created);
      return true;
    }

    method ClaimTask(id: TaskId) returns (ok: bool)
      modifies this
      ensures Contents() == Step(old(Contents()), Op.ClaimTask(id))
      ensures ok == HasStatus(old(Contents()), id, Pending)
      ensures ok ==> HasStatus(Contents(), id, Claimed) && events == old(events) + [Event(id, TaskClaimed)]
      ensures !ok ==> tasks == old(tasks) && events == old(events)
    {
      if id !in tasks || tasks[id].status != Pending { return false; }
      SetStatus(id, Claimed);
      AddEvent(id, TaskClaimed);
      return true;
    }

    method StartTask(id: TaskId)
      modifies this
      ensures Contents() == Step(old(Contents()), Op.StartTask(id))
      ensures (id in tasks <==> id in old(tasks)) && (id in tasks ==> tasks[id].status == Running)
      ensures events == old(events) + [Event(id, Started)]
    {
      SetStatus(id, Running);
      AddEvent(id, Started);
    }

    method CompleteTask(id: TaskId)
      modifies this
      ensures Contents() == Step(old(Contents()), Op.CompleteTask(id))
      ensures (id in tasks <==> id in old(tasks)) && (id in tasks ==> tasks[id].status == Complete)
      ensures events == old(events) + [Event(id, Completed)]
    {
      SetStatus(id, Complete);
      AddEvent(id, Completed);
    }

    method FailTask(id: TaskId)
      modifies this
      ensures Contents() == Step(old(Contents()), Op.FailTask(id))
      ensures (id in tasks <==> id in old(tasks)) && (id in tasks ==> tasks[id].status == Failed)
      ensures events == old(events) + [Event(id, TaskFailed)]
    {
      SetStatus(id, Failed);
      AddEvent(id, TaskFailed);
    }

    method RequestApproval(id: TaskId)
      modifies this
      ensures Contents() == Step(old(Contents()), Op.RequestApproval(id))
      ensures (id in tasks <==> id in old(tasks)) && (id in tasks ==> tasks[id].status == AwaitingApproval)
      ensures events == old(events) + [Event(id, ApprovalRequested)]
    {
      SetStatus(id, AwaitingApproval);
      AddEvent(id, ApprovalRequested);
    }

    method ApproveTask(id: TaskId, bySystem: bool)
      modifies this
      ensures Contents() == Step(old(Contents()), Op.ApproveTask(id, bySystem))
      ensures (id in tasks <==> id in old(tasks)) && (id in tasks ==> tasks[id].status == Complete)
      ensures events == old(events) + [Event(id, Approved(bySystem))]
    {
      SetStatus(id, Complete);
      AddEvent(id, Approved(bySystem));
    }

    /** Two transactions; the incident is looked at only after the first has committed. */
    method RejectTask(id: TaskId)
      modifies this
      ensures var rejected := Step(old(Contents()), RejectRow(id));
              var incident := if id in old(tasks) then old(tasks)[id].incident else None;
              Contents() == if incident.Some? then Step(rejected, Op.MaybeCloseIncident(incident.value)) else rejected
    {
      var incident := if id in tasks then tasks[id].incident else None;
      SetStatus(id, Rejected);
      AddEvent(id, TaskRejected);
      if incident.Some? {
        MaybeCloseIncident(incident.value);
      }
    }

    method MaybeCloseIncident(incident: TaskId)
      modifies this
      ensures Contents() == Step(old(Contents()), Op.MaybeCloseIncident(incident))
    {
      if incident !in tasks || Terminal(tasks[incident].status) { return; }
      var rcas := set id | id in tasks && tasks[id].kind.Rca? && tasks[id].incident == Some(incident);
      assert forall id :: Sibling(Contents(), incident, id) <==> id in rcas;
      if rcas == {} { return; }
      var todo := rcas;
      while todo != {}
        invariant todo <= rcas
        invariant forall id :: id in rcas - todo ==> Terminal(tasks[id].status)
        decreases |todo|
      {
        var id :| id in todo;
        if !Terminal(tasks[id].status) { return; }
        todo := todo - {id};
      }
      SetStatus(incident, Rejected);
      AddEvent(incident, IncidentClosed);
    }

    method CloseIncident(id: TaskId)
      modifies this
      ensures Contents() == Step(old(Contents()), Op.CloseIncident(id))
      ensures (id in tasks <==> id in old(tasks)) && (id in tasks ==> tasks[id].status == Complete)
      ensures events == old(events) + [Event(id, IncidentResolved)]
    {
      SetStatus(id, Complete);
      AddEvent(id, IncidentResolved);
    }

    method RetryTask(id: TaskId) returns (ok: bool)
      modifies this
      ensures Contents() == Step(old(Contents()), Op.RetryTask(id))
      ensures ok == (HasStatus(old(Contents()), id, Failed) && old(tasks)[id].retryCount < 2)
    {
      if id !in tasks || tasks[id].status != Failed { return false; }
      if tasks[id].retryCount >= 2 { return false; }
      var newCount := tasks[id].retryCount + 1;
      tasks := tasks[id := tasks[id].(status := Pending, retryCount := newCount)];
      AddEvent(id, RetryScheduled);
      return true;
    }

    method LinkTaskToIncident(id: TaskId, incident: TaskId)
      modifies this
      ensures Contents() == Step(old(Contents()), LinkTask(id, incident))
    {
      if id in tasks {
        tasks := tasks[id := tasks[id].(incident := Some(incident))];
      }
      AddEvent(incident, Noted(TaskLinked));
    }

    method ClearAllTasks() returns (count: nat)
      modifies this
      ensures Contents() == Step(old(Contents()), ClearAll) && count == |old(tasks)|
    {
      count := |tasks|;
      events := [];
      tasks := map[];
    }

    /** Walk up the parents, putting each in front. */
    method GetTaskChain(id: TaskId) returns (chain: seq<TaskId>)
      requires ParentsOlder(Contents())
      ensures if id in tasks then
                IsChain(Contents(), chain, id)
                && (tasks[chain[0]].parent.Some? ==> tasks[chain[0]].parent.value !in tasks)
              else chain == []
    {
      chain := [];
      var current := Some(id);
      while current.Some?
        invariant chain != [] ==> IsChain(Contents(), chain, id) && current == tasks[chain[0]].parent
        invariant chain == [] ==> current == Some(id)
        decreases if current.None? then 0 else if current.value in tasks then 2 + FirstCreated(events, current.value) else 1
      {
        if current.value !in tasks { break; }
        chain := [current.value] + chain;
        current := tasks[current.value].parent;
      }
    }
  }
}
