/**
  Outcome history, promotion and demotion (ai-agents/shared/learning_engine.py,
  with `record_policy_outcome` and `get_policy_performance` of
  ai-agents/shared/task_store.py).

  Rows are kept in insertion order and time is a counter.  `log` records every
  level change with the number of rows present when it happened.
*/
module LearningEngine {
  import opened Prelude
  import opened PipelineModels
  import opened PolicyRegistry

  /** `alert_resolved` is true, false or unknown. */
  datatype Outcome = Outcome(policyId: Option<PolicyId>, resolved: Option<bool>)

  datatype Change =
    | Promoted(id: PolicyId, time: int, rows: nat)
    | Demoted(id: PolicyId, time: int, rows: nat)

  datatype State = State(table: PolicyTable, history: seq<Outcome>, now: int, log: seq<Change>)

  datatype Config = Config(threshold: nat, demoteOnFailure: bool, ttl: nat)

  datatype Op =
    | Record(policyId: Option<PolicyId>, resolved: Option<bool>)
    | PromotionSweep
    | DemotionSweep
    | Tick(elapsed: nat)

  // ---------------------------------------------------------------- history

  /** The rows of one policy, oldest first. */
  function RowsOf(h: seq<Outcome>, id: PolicyId): seq<Outcome> {
    if h == [] then [] else
    RowsOf(h[..|h| - 1], id) + if h[|h| - 1].policyId == Some(id) then [h[|h| - 1]] else []
  }

  predicate Success(o: Outcome) { o.resolved == Some(true) }

  /** Length of the run of successes at the end of `rows`. */
  function TrailingSuccesses(rows: seq<Outcome>): (n: nat)
    ensures n <= |rows|
  {
    if rows == [] || !Success(rows[|rows| - 1]) then 0 else 1 + TrailingSuccesses(rows[..|rows| - 1])
  }

  function LastRows(rows: seq<Outcome>, limit: nat): seq<Outcome> {
    if |rows| <= limit then rows else rows[|rows| - limit..]
  }

  /** `get_policy_performance`: newest first, at most `limit` rows. */
  function Performance(h: seq<Outcome>, id: PolicyId, limit: nat): (r: seq<Outcome>)
    ensures var last := LastRows(RowsOf(h, id), limit);
            |r| == |last| && forall i :: 0 <= i < |r| ==> r[i] == last[|last| - 1 - i]
  {
    var last := LastRows(RowsOf(h, id), limit);
    seq(|last|, i requires 0 <= i < |last| => last[|last| - 1 - i])
  }

  function CountSuccesses(h: seq<Outcome>, id: PolicyId): nat {
    if h == [] then 0 else
    CountSuccesses(h[..|h| - 1], id) + if h[|h| - 1].policyId == Some(id) && Success(h[|h| - 1]) then 1 else 0
  }

  /** The bounded window sees the trailing run up to its own size. */
  lemma {:induction false} WindowedRun(rows: seq<Outcome>, limit: nat)
    ensures var n := TrailingSuccesses(rows);
            TrailingSuccesses(LastRows(rows, limit)) == if n <= limit then n else limit
    decreases |rows|
  {
    if |rows| > limit > 0 {
      var front, w := rows[..|rows| - 1], LastRows(rows, limit);
      assert w[|w| - 1] == rows[|rows| - 1];
      if Success(rows[|rows| - 1]) {
        WindowedRun(front, limit - 1);
        assert w[..|w| - 1] == LastRows(front, limit - 1);
      }
    }
  }

  /** The window of `threshold + 5` rows decides promotion exactly as the whole history would. */
  lemma WindowDecidesLikeFullHistory(rows: seq<Outcome>, threshold: nat)
    ensures TrailingSuccesses(LastRows(rows, threshold + 5)) >= threshold <==> TrailingSuccesses(rows) >= threshold
  {
    WindowedRun(rows, threshold + 5);
  }

  /** Every failed row of `id` in `h` is followed by at least `threshold` successes of `id`. */
  ghost predicate Earned(h: seq<Outcome>, id: PolicyId, threshold: nat) {
    forall i :: 0 <= i < |h| && h[i].policyId == Some(id) && !Success(h[i])
                ==> CountSuccesses(h[i + 1..], id) >= threshold
  }

  /** A failure at `i` confines the trailing run to the successes recorded after it. */
  lemma {:induction false} RunAfterFailure(h: seq<Outcome>, id: PolicyId, i: nat)
    requires i < |h| && h[i].policyId == Some(id) && !Success(h[i])
    ensures TrailingSuccesses(RowsOf(h, id)) <= CountSuccesses(h[i + 1..], id)
    decreases |h|
  {
    var n := |h| - 1;
    var front, rows := h[..n], RowsOf(h, id);
    if i < n {
      RunAfterFailure(front, id, i);
      var after := h[i + 1..];
      assert after[..|after| - 1] == front[i + 1..] && after[|after| - 1] == h[n];
      if h[n].policyId == Some(id) {
        assert rows[..|rows| - 1] == RowsOf(front, id);
      } else {
        assert rows == RowsOf(front, id);
      }
    }
  }

  lemma LongRunIsEarned(h: seq<Outcome>, id: PolicyId, threshold: nat)
    requires TrailingSuccesses(RowsOf(h, id)) >= threshold
    ensures Earned(h, id, threshold)
  {
    forall i | 0 <= i < |h| && h[i].policyId == Some(id) && !Success(h[i])
      ensures CountSuccesses(h[i + 1..], id) >= threshold
    {
      RunAfterFailure(h, id, i);
    }
  }

  // ---------------------------------------------------------------- steps

  function ConsecutiveSuccesses(s: State, c: Config, id: PolicyId): nat {
    TrailingSuccesses(LastRows(RowsOf(s.history, id), c.threshold + 5))
  }

  function PromoteStep(s: State, c: Config, id: PolicyId): State {
    if !CanPromote(s.table, id) then s else
    s.(table := Promote(s.table, id, s.now, c.ttl), log := s.log + [Promoted(id, s.now, |s.history|)])
  }

  function DemoteStep(s: State, id: PolicyId): State {
    if !CanDemote(s.table, id) then s else
    s.(table := Demote(s.table, id), log := s.log + [Demoted(id, s.now, |s.history|)])
  }

  function PromoteIfEarned(s: State, c: Config, id: PolicyId): State {
    if ConsecutiveSuccesses(s, c, id) >= c.threshold then PromoteStep(s, c, id) else s
  }

  function DemoteIfFailed(s: State, id: PolicyId): State {
    var rows := RowsOf(s.history, id);
    if rows != [] && rows[|rows| - 1].resolved == Some(false) then DemoteStep(s, id) else s
  }

  function RecordStep(s: State, c: Config, policyId: Option<PolicyId>, resolved: Option<bool>): State {
    var s' := s.(history := s.history + [Outcome(policyId, resolved)]);
    if policyId.None? then s'
    else if resolved == Some(false) && c.demoteOnFailure then DemoteStep(s', policyId.value)
    else if resolved == Some(true) then PromoteIfEarned(s', c, policyId.value)
    else s'
  }

  function PromoteAll(s: State, c: Config, ids: seq<PolicyId>): State {
    if ids == [] then s else PromoteIfEarned(PromoteAll(s, c, ids[..|ids| - 1]), c, ids[|ids| - 1])
  }

  function DemoteAll(s: State, ids: seq<PolicyId>): State {
    if ids == [] then s else DemoteIfFailed(DemoteAll(s, ids[..|ids| - 1]), ids[|ids| - 1])
  }

  function Step(s: State, c: Config, op: Op): State {
    match op
    case Record(id, resolved) => RecordStep(s, c, id, resolved)
    case PromotionSweep => PromoteAll(s, c, s.table.order)
    case DemotionSweep => DemoteAll(s, s.table.order)
    case Tick(d) => s.(now := s.now + d)
  }

  function Run(s: State, c: Config, ops: seq<Op>): State {
    if ops == [] then s else Step(Run(s, c, ops[..|ops| - 1]), c, ops[|ops| - 1])
  }

  // ---------------------------------------------------------------- invariants of every run

  /** The most recent level change of `id`. */
  function LastChange(log: seq<Change>, id: PolicyId): Option<Change> {
    if log == [] then None
    else if log[|log| - 1].id == id then Some(log[|log| - 1])
    else LastChange(log[..|log| - 1], id)
  }

  /** How far automation may have taken one policy from where the run started. */
  ghost predicate PolicyInv(s: State, c: Config, before: Policy, id: PolicyId)
    requires id in s.table.rows
  {
    var p := s.table.rows[id];
    var was, at := LevelIndex(before.level), LevelIndex(p.level);
    && p == before.(level := p.level, expiry := p.expiry)
    && (at == 5 ==> was == 5)
    && (!p.promotable ==> at <= was)
    && (at >= 1 || at >= was)
    && (was <= 3 && before.expiry == Never && at >= 4 ==> at == 4 && EarnedLevel(s, c, id))
  }

  /** The last change of `id` was a promotion, and its expiry is that promotion's time to live. */
  ghost predicate EarnedLevel(s: State, c: Config, id: PolicyId)
    requires id in s.table.rows
  {
    match LastChange(s.log, id)
    case Some(Promoted(_, t, _)) => t <= s.now && s.table.rows[id].expiry == At(t + c.ttl)
    case _ => false
  }

  ghost predicate Inv(s: State, c: Config, start: PolicyTable) {
    && s.table.order == start.order && s.table.rows.Keys == start.rows.Keys
    && (forall id :: id in start.rows ==> PolicyInv(s, c, start.rows[id], id))
    && (forall k :: 0 <= k < |s.log| && s.log[k].Promoted? ==>
          s.log[k].rows <= |s.history| && Earned(s.history[..s.log[k].rows], s.log[k].id, c.threshold))
  }

  lemma PromoteStepKeepsPolicy(s: State, c: Config, before: Policy, id: PolicyId, other: PolicyId)
    requires other in s.table.rows && PolicyInv(s, c, before, other)
    ensures PolicyInv(PromoteStep(s, c, id), c, before, other)
  {
    var s' := PromoteStep(s, c, id);
    if s' != s { assert s'.log[..|s'.log| - 1] == s.log; }
  }

  lemma DemoteStepKeepsPolicy(s: State, c: Config, before: Policy, id: PolicyId, other: PolicyId)
    requires other in s.table.rows && PolicyInv(s, c, before, other)
    ensures PolicyInv(DemoteStep(s, id), c, before, other)
  {
    var s' := DemoteStep(s, id);
    if s' != s { assert s'.log[..|s'.log| - 1] == s.log; }
  }

  lemma PromoteStepKeeps(s: State, c: Config, start: PolicyTable, id: PolicyId)
    requires Inv(s, c, start) && Earned(s.history, id, c.threshold)
    ensures Inv(PromoteStep(s, c, id), c, start)
  {
    assert s.history[..|s.history|] == s.history;
    forall other | other in start.rows
      ensures PolicyInv(PromoteStep(s, c, id), c, start.rows[other], other)
    {
      PromoteStepKeepsPolicy(s, c, start.rows[other], id, other);
    }
  }

  lemma DemoteStepKeeps(s: State, c: Config, start: PolicyTable, id: PolicyId)
    requires Inv(s, c, start)
    ensures Inv(DemoteStep(s, id), c, start)
  {
    forall other | other in start.rows
      ensures PolicyInv(DemoteStep(s, id), c, start.rows[other], other)
    {
      DemoteStepKeepsPolicy(s, c, start.rows[other], id, other);
    }
  }

  lemma PromoteIfEarnedKeeps(s: State, c: Config, start: PolicyTable, id: PolicyId)
    requires Inv(s, c, start)
    ensures Inv(PromoteIfEarned(s, c, id), c, start)
  {
    if ConsecutiveSuccesses(s, c, id) >= c.threshold {
      WindowDecidesLikeFullHistory(RowsOf(s.history, id), c.threshold);
      LongRunIsEarned(s.history, id, c.threshold);
      PromoteStepKeeps(s, c, start, id);
    }
  }

  lemma {:induction false} SweepKeeps(s: State, c: Config, start: PolicyTable, ids: seq<PolicyId>)
    requires Inv(s, c, start)
    ensures Inv(PromoteAll(s, c, ids), c, start) && Inv(DemoteAll(s, ids), c, start)
    decreases |ids|
  {
    if ids != [] {
      SweepKeeps(s, c, start, ids[..|ids| - 1]);
      PromoteIfEarnedKeeps(PromoteAll(s, c, ids[..|ids| - 1]), c, start, ids[|ids| - 1]);
      DemoteStepKeeps(DemoteAll(s, ids[..|ids| - 1]), c, start, ids[|ids| - 1]);
    }
  }

  lemma AppendKeeps(s: State, c: Config, start: PolicyTable, o: Outcome)
    requires Inv(s, c, start)
    ensures Inv(s.(history := s.history + [o]), c, start)
  {
    var h := s.history + [o];
    assert forall n :: 0 <= n <= |s.history| ==> h[..n] == s.history[..n];
    var s' := s.(history := h);
    forall id | id in start.rows
      ensures PolicyInv(s', c, start.rows[id], id)
    {
      assert PolicyInv(s, c, start.rows[id], id);
    }
  }

  lemma RecordKeeps(s: State, c: Config, start: PolicyTable, id: Option<PolicyId>, resolved: Option<bool>)
    requires Inv(s, c, start)
    ensures Inv(RecordStep(s, c, id, resolved), c, start)
  {
    AppendKeeps(s, c, start, Outcome(id, resolved));
    var s' := s.(history := s.history + [Outcome(id, resolved)]);
    if id.Some? {
      DemoteStepKeeps(s', c, start, id.value);
      PromoteIfEarnedKeeps(s', c, start, id.value);
    }
  }

  lemma TickKeeps(s: State, c: Config, start: PolicyTable, d: nat)
    requires Inv(s, c, start)
    ensures Inv(s.(now := s.now + d), c, start)
  {
    forall id | id in start.rows
      ensures PolicyInv(s.(now := s.now + d), c, start.rows[id], id)
    {
      assert PolicyInv(s, c, start.rows[id], id);
    }
  }

  lemma StepKeeps(s: State, c: Config, start: PolicyTable, op: Op)
    requires Inv(s, c, start)
    ensures Inv(Step(s, c, op), c, start)
  {
    match op
    case Record(id, resolved) => RecordKeeps(s, c, start, id, resolved);
    case PromotionSweep => SweepKeeps(s, c, start, s.table.order);
    case DemotionSweep => SweepKeeps(s, c, start, s.table.order);
    case Tick(d) => TickKeeps(s, c, start, d);
  }

  /** In every run of outcomes, sweeps and clock ticks: automation never reaches L5, never raises a
      non-promotable policy, never drops one below min(start, L1), every automatic L4 is backed by a
      live promotion, and every promotion was preceded by `threshold` successes since the last failure. */
  lemma {:induction false} RunKeepsInv(s: State, c: Config, ops: seq<Op>)
    requires s.log == []
    ensures Inv(Run(s, c, ops), c, s.table)
    decreases |ops|
  {
    if ops != [] {
      RunKeepsInv(s, c, ops[..|ops| - 1]);
      StepKeeps(Run(s, c, ops[..|ops| - 1]), c, s.table, ops[|ops| - 1]);
    }
  }

  lemma InvKeepsValid(s: State, c: Config, start: PolicyTable)
    requires Inv(s, c, start) && start.Valid()
    ensures s.table.Valid()
  {
    forall id | id in s.table.rows
      ensures s.table.rows[id].id == id
    {
      assert PolicyInv(s, c, start.rows[id], id);
    }
  }

  /** A policy that started at L3 or below without an expiry auto-executes only inside the lifetime
      of a promotion that no later change has undone. */
  lemma AutoExecutionNeedsLivePromotion(s: State, c: Config, ops: seq<Op>, ctx: Context, id: PolicyId)
    requires s.log == [] && s.table.Valid()
    requires id in s.table.rows && LevelIndex(s.table.rows[id].level) <= 3 && s.table.rows[id].expiry == Never
    ensures var e := Run(s, c, ops);
            && e.table.Valid()
            && (Decide(e.table, ctx, e.now).allowExecution && Decide(e.table, ctx, e.now).policyId == Some(id)
                ==> match LastChange(e.log, id)
                    case Some(Promoted(_, t, _)) => t <= e.now <= t + c.ttl
                    case _ => false)
  {
    RunKeepsInv(s, c, ops);
    var e := Run(s, c, ops);
    InvKeepsValid(e, c, s.table);
    var d := Decide(e.table, ctx, e.now);
    if d.allowExecution && d.policyId == Some(id) {
      LivePromotion(e, c, s.table.rows[id], ctx, id);
    }
  }

  lemma LivePromotion(e: State, c: Config, before: Policy, ctx: Context, id: PolicyId)
    requires e.table.Valid() && id in e.table.rows && PolicyInv(e, c, before, id)
    requires LevelIndex(before.level) <= 3 && before.expiry == Never
    requires Decide(e.table, ctx, e.now).allowExecution && Decide(e.table, ctx, e.now).policyId == Some(id)
    ensures match LastChange(e.log, id)
            case Some(Promoted(_, t, _)) => t <= e.now <= t + c.ttl
            case _ => false
  {
    DecideAllowsIff(e.table, ctx, e.now);
  }

  /** Between a recorded failure and any later promotion of the policy lie at least `threshold` successes. */
  lemma PromotionNeedsSuccessesSinceFailure(s: State, c: Config, ops: seq<Op>, k: nat, i: nat)
    requires s.log == []
    requires k < |Run(s, c, ops).log| && Run(s, c, ops).log[k].Promoted? && i < Run(s, c, ops).log[k].rows
    ensures var e := Run(s, c, ops);
            var change := e.log[k];
            change.rows <= |e.history| &&
            (e.history[i].policyId == Some(change.id) && !Success(e.history[i])
             ==> CountSuccesses(e.history[i + 1..change.rows], change.id) >= c.threshold)
  {
    RunKeepsInv(s, c, ops);
    var e := Run(s, c, ops);
    var h := e.history[..e.log[k].rows];
    assert Earned(h, e.log[k].id, c.threshold);
    assert h[i] == e.history[i] && h[i + 1..] == e.history[i + 1..e.log[k].rows];
  }

  // ---------------------------------------------------------------- what a sweep does

  /** A sweep of state `s` promotes this policy. */
  predicate DuePromotion(s: State, c: Config, id: PolicyId) {
    CanPromote(s.table, id) && ConsecutiveSuccesses(s, c, id) >= c.threshold
  }

  /** A sweep of state `s` demotes this policy: the newest outcome is a failure. */
  predicate DueDemotion(s: State, id: PolicyId) {
    var rows := RowsOf(s.history, id);
    CanDemote(s.table, id) && rows != [] && rows[|rows| - 1].resolved == Some(false)
  }

  function AllDuePromotion(s: State, c: Config, ids: seq<PolicyId>): seq<PolicyId> {
    if ids == [] then []
    else
      var last := ids[|ids| - 1];
      AllDuePromotion(s, c, ids[..|ids| - 1]) + if DuePromotion(s, c, last) then [last] else []
  }

  function AllDueDemotion(s: State, ids: seq<PolicyId>): seq<PolicyId> {
    if ids == [] then []
    else
      var last := ids[|ids| - 1];
      AllDueDemotion(s, ids[..|ids| - 1]) + if DueDemotion(s, last) then [last] else []
  }

  /** The row of a policy after one promotion, respectively one demotion. */
  function PromotedRow(s: State, c: Config, id: PolicyId): Policy
    requires CanPromote(s.table, id)
  {
    var p := s.table.rows[id];
    p.(level := LEVEL_ORDER[LevelIndex(p.level) + 1], expiry := At(s.now + c.ttl))
  }

  function DemotedRow(s: State, id: PolicyId): Policy
    requires CanDemote(s.table, id)
  {
    var p := s.table.rows[id];
    p.(level := LEVEL_ORDER[LevelIndex(p.level) - 1], expiry := Never)
  }

  /** Nothing but rows and log differ. */
  ghost predicate SameButRows(s: State, e: State) {
    e.history == s.history && e.now == s.now && e.table.order == s.table.order && e.table.rows.Keys == s.table.rows.Keys
  }

  /** What is due depends on the policy's own row and the history alone. */
  lemma DueAlike(s: State, e: State, c: Config, id: PolicyId)
    requires SameButRows(s, e) && id in s.table.rows && e.table.rows[id] == s.table.rows[id]
    ensures DuePromotion(e, c, id) == DuePromotion(s, c, id)
    ensures DuePromotion(s, c, id) ==> PromotedRow(e, c, id) == PromotedRow(s, c, id)
    ensures DueDemotion(e, id) == DueDemotion(s, id)
    ensures DueDemotion(s, id) ==> DemotedRow(e, id) == DemotedRow(s, id)
  {
  }

  lemma OnePromotion(s: State, c: Config, one: PolicyId, id: PolicyId)
    requires id in s.table.rows
    ensures var e := PromoteIfEarned(s, c, one);
            && SameButRows(s, e)
            && e.table.rows[id] == if id == one && DuePromotion(s, c, id) then PromotedRow(s, c, id) else s.table.rows[id]
  {
  }

  lemma OneDemotion(s: State, one: PolicyId, id: PolicyId)
    requires id in s.table.rows
    ensures var e := DemoteIfFailed(s, one);
            && SameButRows(s, e)
            && e.table.rows[id] == if id == one && DueDemotion(s, id) then DemotedRow(s, id) else s.table.rows[id]
  {
  }

  /** A promotion sweep over distinct policies promotes each one once, exactly when it is due before the sweep. */
  lemma {:induction false} SweepPromotesExactly(s: State, c: Config, ids: seq<PolicyId>, id: PolicyId)
    requires NoDuplicates(ids) && id in s.table.rows
    ensures var e := PromoteAll(s, c, ids);
            && SameButRows(s, e)
            && e.table.rows[id] == if id in ids && DuePromotion(s, c, id) then PromotedRow(s, c, id) else s.table.rows[id]
    decreases |ids|
  {
    if ids != [] {
      var front, last := ids[..|ids| - 1], ids[|ids| - 1];
      var before := PromoteAll(s, c, front);
      SweepPromotesExactly(s, c, front, id);
      assert id in ids <==> id in front || id == last by { assert ids == front + [last]; }
      OnePromotion(before, c, last, id);
      if id == last {
        DueAlike(s, before, c, id);
      }
    }
  }

  /** A demotion sweep over distinct policies demotes each one once, exactly when it is due before the sweep. */
  lemma {:induction false} SweepDemotesExactly(s: State, ids: seq<PolicyId>, id: PolicyId)
    requires NoDuplicates(ids) && id in s.table.rows
    ensures var e := DemoteAll(s, ids);
            && SameButRows(s, e)
            && e.table.rows[id] == if id in ids && DueDemotion(s, id) then DemotedRow(s, id) else s.table.rows[id]
    decreases |ids|
  {
    if ids != [] {
      var front, last := ids[..|ids| - 1], ids[|ids| - 1];
      var before := DemoteAll(s, front);
      SweepDemotesExactly(s, front, id);
      assert id in ids <==> id in front || id == last by { assert ids == front + [last]; }
      OneDemotion(before, last, id);
      if id == last {
        DueAlike(s, before, Config(0, false, 0), id);
      }
    }
  }

  /**
    The same successes can be spent twice: right after the promotion an outcome earned, a sweep promotes
    the policy again exactly when the first promotion left it below L4.
  */
  lemma SweepReusesEvidence(s: State, c: Config, id: PolicyId, s1: State, s2: State)
    requires s.table.Valid() && id in s.table.rows && DuePromotion(s, c, id)
    requires s1 == PromoteIfEarned(s, c, id) && s2 == Step(s1, c, PromotionSweep)
    ensures s2.history == s.history && id in s2.table.rows
    ensures var was := LevelIndex(s.table.rows[id].level);
            LevelIndex(s2.table.rows[id].level) == was + if was <= 2 then 2 else 1
  {
    OnePromotion(s, c, id, id);
    DueAgain(s, s1, c, id);
    SweepPromotesExactly(s1, c, s1.table.order, id);
  }

  lemma DueAgain(s: State, s1: State, c: Config, id: PolicyId)
    requires id in s.table.rows && DuePromotion(s, c, id)
    requires SameButRows(s, s1) && s1.table.rows[id] == PromotedRow(s, c, id)
    ensures var was := LevelIndex(s.table.rows[id].level);
            && LevelIndex(s1.table.rows[id].level) == was + 1
            && (DuePromotion(s1, c, id) <==> was <= 2)
            && (was <= 2 ==> LevelIndex(PromotedRow(s1, c, id).level) == was + 2)
  {
    LevelOfIndex(LevelIndex(s.table.rows[id].level) + 1);
    if LevelIndex(s.table.rows[id].level) <= 2 {
      LevelOfIndex(LevelIndex(s.table.rows[id].level) + 2);
    }
  }

  lemma LevelOfIndex(i: nat)
    requires i <= 5
    ensures LevelIndex(LEVEL_ORDER[i]) == i
  {
  }

  /** One round of the promotion sweep's loop: the policy is due in the loop exactly when it was due before it. */
  lemma PromotionRound(s: State, c: Config, ids: seq<PolicyId>, i: nat)
    requires i < |ids| && NoDuplicates(ids) && ids[i] in s.table.rows
    ensures var before := PromoteAll(s, c, ids[..i]);
            && ids[i] in before.table.rows
            && DuePromotion(before, c, ids[i]) == DuePromotion(s, c, ids[i])
            && PromoteAll(s, c, ids[..i + 1]) == PromoteIfEarned(before, c, ids[i])
    ensures AllDuePromotion(s, c, ids[..i + 1]) ==
            AllDuePromotion(s, c, ids[..i]) + if DuePromotion(s, c, ids[i]) then [ids[i]] else []
  {
    assert ids[..i + 1][..i] == ids[..i];
    SweepPromotesExactly(s, c, ids[..i], ids[i]);
    DueAlike(s, PromoteAll(s, c, ids[..i]), c, ids[i]);
  }

  lemma DemotionRound(s: State, ids: seq<PolicyId>, i: nat)
    requires i < |ids| && NoDuplicates(ids) && ids[i] in s.table.rows
    ensures var before := DemoteAll(s, ids[..i]);
            && ids[i] in before.table.rows
            && DueDemotion(before, ids[i]) == DueDemotion(s, ids[i])
            && DemoteAll(s, ids[..i + 1]) == DemoteIfFailed(before, ids[i])
    ensures AllDueDemotion(s, ids[..i + 1]) ==
            AllDueDemotion(s, ids[..i]) + if DueDemotion(s, ids[i]) then [ids[i]] else []
  {
    assert ids[..i + 1][..i] == ids[..i];
    SweepDemotesExactly(s, ids[..i], ids[i]);
    DueAlike(s, DemoteAll(s, ids[..i]), Config(0, false, 0), ids[i]);
  }

  // ---------------------------------------------------------------- what one outcome does

  /** The newest rows of the policy hold at least `n` successes and nothing else. */
  ghost predicate EndsInSuccesses(h: seq<Outcome>, id: PolicyId, n: nat) {
    exists from: nat :: RunFrom(h, id, n, from)
  }

  ghost predicate RunFrom(h: seq<Outcome>, id: PolicyId, n: nat, from: nat) {
    && from <= |h| && CountSuccesses(h[from..], id) >= n
    && forall i | from <= i < |h| && h[i].policyId == Some(id) :: Success(h[i])
  }

  lemma CountOneMore(h: seq<Outcome>, id: PolicyId, from: nat)
    requires from < |h|
    ensures CountSuccesses(h[from..], id) ==
            CountSuccesses(h[..|h| - 1][from..], id) + if h[|h| - 1].policyId == Some(id) && Success(h[|h| - 1]) then 1 else 0
  {
    assert h[from..][..|h| - 1 - from] == h[..|h| - 1][from..];
  }

  lemma {:induction false} TrailingEndsInSuccesses(h: seq<Outcome>, id: PolicyId, n: nat)
    requires TrailingSuccesses(RowsOf(h, id)) >= n
    ensures EndsInSuccesses(h, id, n)
    decreases |h|
  {
    if n == 0 {
      assert RunFrom(h, id, 0, |h|);
    } else {
      var front, last := h[..|h| - 1], h[|h| - 1];
      var fewer: nat := if last.policyId == Some(id) then n - 1 else n;
      assert last.policyId == Some(id) ==> RowsOf(h, id)[..|RowsOf(h, id)| - 1] == RowsOf(front, id);
      assert last.policyId != Some(id) ==> RowsOf(h, id) == RowsOf(front, id);
      TrailingEndsInSuccesses(front, id, fewer);
      var from: nat :| RunFrom(front, id, fewer, from);
      CountOneMore(h, id, from);
      assert RunFrom(h, id, n, from);
    }
  }

  lemma {:induction false} EndsInSuccessesIsTrailing(h: seq<Outcome>, id: PolicyId, n: nat, from: nat)
    requires RunFrom(h, id, n, from)
    ensures TrailingSuccesses(RowsOf(h, id)) >= n
    decreases |h|
  {
    if from == |h| {
      assert h[from..] == [];
    } else {
      var front, last := h[..|h| - 1], h[|h| - 1];
      CountOneMore(h, id, from);
      if last.policyId == Some(id) {
        assert Success(last);
        assert RowsOf(h, id)[..|RowsOf(h, id)| - 1] == RowsOf(front, id);
        if n > 0 {
          EndsInSuccessesIsTrailing(front, id, n - 1, from);
        }
      } else {
        assert RowsOf(h, id) == RowsOf(front, id);
        EndsInSuccessesIsTrailing(front, id, n, from);
      }
    }
  }

  lemma TrailingIffEndsInSuccesses(h: seq<Outcome>, id: PolicyId, n: nat)
    ensures TrailingSuccesses(RowsOf(h, id)) >= n <==> EndsInSuccesses(h, id, n)
  {
    if TrailingSuccesses(RowsOf(h, id)) >= n {
      TrailingEndsInSuccesses(h, id, n);
    } else if EndsInSuccesses(h, id, n) {
      var from: nat :| RunFrom(h, id, n, from);
      EndsInSuccessesIsTrailing(h, id, n, from);
    }
  }

  /** The engine's window finds enough successes exactly when the history ends in that many. */
  lemma EnoughIffEndsInSuccesses(s: State, c: Config, id: PolicyId)
    ensures ConsecutiveSuccesses(s, c, id) >= c.threshold <==> EndsInSuccesses(s.history, id, c.threshold)
  {
    WindowDecidesLikeFullHistory(RowsOf(s.history, id), c.threshold);
    TrailingIffEndsInSuccesses(s.history, id, c.threshold);
  }

  /** One level down, without expiry. */
  ghost predicate IsDemoted(p: Policy, after: Policy) {
    after == p.(level := after.level, expiry := Never) && LevelIndex(after.level) == LevelIndex(p.level) - 1
  }

  /** One level up, until the time to live runs out. */
  ghost predicate IsPromoted(p: Policy, after: Policy, now: int, ttl: nat) {
    after == p.(level := after.level, expiry := At(now + ttl)) && LevelIndex(after.level) == LevelIndex(p.level) + 1
  }

  /** A failure of the policy itself, with demotion switched on. */
  predicate CountsAgainst(c: Config, policyId: Option<PolicyId>, resolved: Option<bool>, id: PolicyId) {
    policyId == Some(id) && resolved == Some(false) && c.demoteOnFailure
  }

  /** A success of the policy itself that completes a run of `threshold`. */
  ghost predicate CompletesRun(s: State, c: Config, policyId: Option<PolicyId>, resolved: Option<bool>, id: PolicyId) {
    && policyId == Some(id) && resolved == Some(true)
    && EndsInSuccesses(s.history + [Outcome(policyId, resolved)], id, c.threshold)
  }

  lemma DemoteStepRow(s: State, one: PolicyId, id: PolicyId)
    requires id in s.table.rows
    ensures var e := DemoteStep(s, one);
            && SameButRows(s, e)
            && if one == id && LevelIndex(s.table.rows[id].level) > 1 then IsDemoted(s.table.rows[id], e.table.rows[id])
               else e.table.rows[id] == s.table.rows[id]
  {
    var at := LevelIndex(s.table.rows[id].level);
    if at > 1 { LevelOfIndex(at - 1); }
  }

  lemma PromoteStepRow(s: State, c: Config, one: PolicyId, id: PolicyId)
    requires id in s.table.rows
    ensures var e := PromoteStep(s, c, one);
            && SameButRows(s, e)
            && if one == id && s.table.rows[id].promotable && LevelIndex(s.table.rows[id].level) < 4 then
                 IsPromoted(s.table.rows[id], e.table.rows[id], s.now, c.ttl)
               else e.table.rows[id] == s.table.rows[id]
  {
    var at := LevelIndex(s.table.rows[id].level);
    if at < 4 { LevelOfIndex(at + 1); }
  }

  /**
    One recorded outcome: a failure demotes its policy if that is above L1, a success that completes a run promotes
    its policy if that is promotable and below L4, and nothing else changes any row.
  */
  lemma OutcomeMovesRow(s: State, c: Config, policyId: Option<PolicyId>, resolved: Option<bool>, id: PolicyId)
    requires id in s.table.rows
    ensures var e := Step(s, c, Record(policyId, resolved));
            var p, at := s.table.rows[id], LevelIndex(s.table.rows[id].level);
            && e.history == s.history + [Outcome(policyId, resolved)] && e.now == s.now
            && e.table.order == s.table.order && e.table.rows.Keys == s.table.rows.Keys
            && if CountsAgainst(c, policyId, resolved, id) && at > 1 then IsDemoted(p, e.table.rows[id])
               else if CompletesRun(s, c, policyId, resolved, id) && p.promotable && at < 4 then
                 IsPromoted(p, e.table.rows[id], s.now, c.ttl)
               else e.table.rows[id] == p
  {
    var recorded := s.(history := s.history + [Outcome(policyId, resolved)]);
    EnoughIffEndsInSuccesses(recorded, c, id);
    if policyId.Some? {
      DemoteStepRow(recorded, policyId.value, id);
      PromoteStepRow(recorded, c, policyId.value, id);
    }
  }

  ghost predicate PromotedSince(log: seq<Change>, from: nat, id: PolicyId) {
    exists k :: from <= k < |log| && log[k].Promoted? && log[k].id == id
  }

  /** The log has grown, and without a promotion of the policy its level has not risen to L4. */
  ghost predicate StaysDown(s: State, start: seq<Change>, id: PolicyId) {
    && start <= s.log && id in s.table.rows
    && (LevelIndex(s.table.rows[id].level) <= 3 || PromotedSince(s.log, |start|, id))
  }

  lemma PromoteStepStaysDown(s: State, c: Config, start: seq<Change>, one: PolicyId, id: PolicyId)
    requires StaysDown(s, start, id)
    ensures StaysDown(PromoteStep(s, c, one), start, id)
  {
    var e := PromoteStep(s, c, one);
    if e != s {
      assert e.log[|s.log|] == Promoted(one, s.now, |s.history|);
      assert PromotedSince(s.log, |start|, id) ==> PromotedSince(e.log, |start|, id) by {
        assert forall k :: 0 <= k < |s.log| ==> e.log[k] == s.log[k];
      }
      assert one == id ==> PromotedSince(e.log, |start|, id);
    }
  }

  lemma DemoteStepStaysDown(s: State, start: seq<Change>, one: PolicyId, id: PolicyId)
    requires StaysDown(s, start, id)
    ensures StaysDown(DemoteStep(s, one), start, id)
  {
    var e := DemoteStep(s, one);
    if e != s {
      assert forall k :: 0 <= k < |s.log| ==> e.log[k] == s.log[k];
      assert PromotedSince(s.log, |start|, id) ==> PromotedSince(e.log, |start|, id);
      LevelOfIndex(LevelIndex(s.table.rows[one].level) - 1);
    }
  }

  lemma {:induction false} SweepStaysDown(s: State, c: Config, start: seq<Change>, ids: seq<PolicyId>, id: PolicyId)
    requires StaysDown(s, start, id)
    ensures StaysDown(PromoteAll(s, c, ids), start, id) && StaysDown(DemoteAll(s, ids), start, id)
    decreases |ids|
  {
    if ids != [] {
      var front, last := ids[..|ids| - 1], ids[|ids| - 1];
      SweepStaysDown(s, c, start, front, id);
      PromoteStepStaysDown(PromoteAll(s, c, front), c, start, last, id);
      DemoteStepStaysDown(DemoteAll(s, front), start, last, id);
    }
  }

  lemma StepStaysDown(s: State, c: Config, start: seq<Change>, op: Op, id: PolicyId)
    requires StaysDown(s, start, id)
    ensures StaysDown(Step(s, c, op), start, id)
  {
    match op
    case Record(policyId, resolved) =>
      var recorded := s.(history := s.history + [Outcome(policyId, resolved)]);
      if policyId.Some? {
        PromoteStepStaysDown(recorded, c, start, policyId.value, id);
        DemoteStepStaysDown(recorded, start, policyId.value, id);
      }
    case PromotionSweep => SweepStaysDown(s, c, start, s.table.order, id);
    case DemotionSweep => SweepStaysDown(s, c, start, s.table.order, id);
    case Tick(_) =>
  }

  lemma {:induction false} RunStaysDown(s: State, c: Config, start: seq<Change>, ops: seq<Op>, id: PolicyId)
    requires StaysDown(s, start, id)
    ensures StaysDown(Run(s, c, ops), start, id)
    decreases |ops|
  {
    if ops != [] {
      RunStaysDown(s, c, start, ops[..|ops| - 1], id);
      StepStaysDown(Run(s, c, ops[..|ops| - 1]), c, start, ops[|ops| - 1], id);
    }
  }

  /** After a failed outcome a policy at L4 or below backs no automatic decision until it has been promoted again. */
  lemma FailedPolicyWaits(s: State, c: Config, id: PolicyId, ops: seq<Op>, ctx: Context)
    requires id in s.table.rows && LevelIndex(s.table.rows[id].level) <= 4 && c.demoteOnFailure
    ensures var failed := Step(s, c, Record(Some(id), Some(false)));
            var e := Run(failed, c, ops);
            && |failed.log| <= |e.log|
            && (e.table.Valid() && Decide(e.table, ctx, e.now).allowExecution && Decide(e.table, ctx, e.now).policyId == Some(id)
                ==> PromotedSince(e.log, |failed.log|, id))
  {
    var failed := Step(s, c, Record(Some(id), Some(false)));
    OutcomeMovesRow(s, c, Some(id), Some(false), id);
    RunStaysDown(failed, c, failed.log, ops, id);
    var e := Run(failed, c, ops);
    if e.table.Valid() {
      DecideAllowsIff(e.table, ctx, e.now);
    }
  }

  // ---------------------------------------------------------------- the engine

  class LearningEngine {
    var state: State
    const config: Config

    constructor (state: State, config: Config)
      ensures this.state == state && this.config == config
    {
      this.state := state;
      this.config := config;
    }

    /** `_consecutive_successes`: count from the newest row, stop at the first that is not a success. */
    method CountConsecutive(id: PolicyId) returns (count: nat)
      ensures count == ConsecutiveSuccesses(state, config, id)
    {
      var outcomes := Performance(state.history, id, config.threshold + 5);
      ghost var last := LastRows(RowsOf(state.history, id), config.threshold + 5);
      count := 0;
      assert last[..|last|] == last;
      for i := 0 to |outcomes|
        invariant count == i
        invariant TrailingSuccesses(last) == count + TrailingSuccesses(last[..|last| - i])
      {
        if outcomes[i].resolved != Some(true) { break; }
        assert last[..|last| - i][..|last| - i - 1] == last[..|last| - i - 1];
        count := count + 1;
      }
    }

    /** `promote` on the engine's registry: the level afterwards, nothing for an unknown policy. */
    method PromoteOne(id: PolicyId) returns (level: Option<Level>)
      modifies this`state
      ensures state == PromoteStep(old(state), config, id)
      ensures level == if id in state.table.rows then Some(state.table.rows[id].level) else None
    {
      if CanPromote(state.table, id) {
        state := state.(table := Promote(state.table, id, state.now, config.ttl),
                        log := state.log + [Promoted(id, state.now, |state.history|)]);
      }
      level := if id in state.table.rows then Some(state.table.rows[id].level) else None;
    }

    method DemoteOne(id: PolicyId) returns (level: Option<Level>)
      modifies this`state
      ensures state == DemoteStep(old(state), id)
      ensures level == if id in state.table.rows then Some(state.table.rows[id].level) else None
    {
      if CanDemote(state.table, id) {
        state := state.(table := Demote(state.table, id),
                        log := state.log + [Demoted(id, state.now, |state.history|)]);
      }
      level := if id in state.table.rows then Some(state.table.rows[id].level) else None;
    }

    method RecordOutcome(policyId: Option<PolicyId>, resolved: Option<bool>)
      modifies this`state
      ensures state == Step(old(state), config, Record(policyId, resolved))
    {
      state := state.(history := state.history + [Outcome(policyId, resolved)]);
      if policyId.None? { return; }
      if resolved == Some(false) && config.demoteOnFailure {
        var _ := DemoteOne(policyId.value);
        return;
      }
      if resolved == Some(true) {
        var consecutive := CountConsecutive(policyId.value);
        if consecutive >= config.threshold {
          var _ := PromoteOne(policyId.value);
        }
      }
    }

    /** The promotion sweep's body for one policy, and whether its level changed. */
    method ConsiderPromotion(id: PolicyId) returns (changed: bool)
      requires id in state.table.rows
      modifies this`state
      ensures state == PromoteIfEarned(old(state), config, id)
      ensures changed == DuePromotion(old(state), config, id)
    {
      var was := state.table.rows[id].level;
      var consecutive := CountConsecutive(id);
      if consecutive < config.threshold { return false; }
      var level := PromoteOne(id);
      changed := level.Some? && level.value != was;
    }

    /** The demotion sweep's body for one policy, and whether its level changed. */
    method ConsiderDemotion(id: PolicyId) returns (changed: bool)
      requires id in state.table.rows
      modifies this`state
      ensures state == DemoteIfFailed(old(state), id)
      ensures changed == DueDemotion(old(state), id)
    {
      var was := state.table.rows[id].level;
      var outcomes := Performance(state.history, id, 1);
      if outcomes == [] || outcomes[0].resolved != Some(false) { return false; }
      var level := DemoteOne(id);
      changed := level.Some? && level.value != was;
    }

    /** The sweep returns the policies it promoted, in list order. */
    method EvaluatePromotions() returns (promoted: seq<PolicyId>)
      requires state.table.Valid()
      modifies this`state
      ensures state == Step(old(state), config, PromotionSweep)
      ensures promoted == AllDuePromotion(old(state), config, old(state).table.order)
    {
      promoted := [];
      ghost var start := state;
      var ids := state.table.order;
      for i := 0 to |ids|
        invariant state == PromoteAll(start, config, ids[..i])
        invariant promoted == AllDuePromotion(start, config, ids[..i])
      {
        assert ids[i] in ids;
        PromotionRound(start, config, ids, i);
        var changed := ConsiderPromotion(ids[i]);
        if changed { promoted := promoted + [ids[i]]; }
      }
      assert ids[..|ids|] == ids;
    }

    /** The sweep returns the policies it demoted, in list order. */
    method EvaluateDemotions() returns (demoted: seq<PolicyId>)
      requires state.table.Valid()
      modifies this`state
      ensures state == Step(old(state), config, DemotionSweep)
      ensures demoted == AllDueDemotion(old(state), old(state).table.order)
    {
      demoted := [];
      ghost var start := state;
      var ids := state.table.order;
      for i := 0 to |ids|
        invariant state == DemoteAll(start, ids[..i])
        invariant demoted == AllDueDemotion(start, ids[..i])
      {
        assert ids[i] in ids;
        DemotionRound(start, ids, i);
        var changed := ConsiderDemotion(ids[i]);
        if changed { demoted := demoted + [ids[i]]; }
      }
      assert ids[..|ids|] == ids;
    }
  }
}
