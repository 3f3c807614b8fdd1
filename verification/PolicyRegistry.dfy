/**
  Policy selection, and promotion and demotion of autonomy levels
  (ai-agents/shared/policy_registry.py).
*/
module PolicyRegistry {
  import opened Prelude
  import opened PipelineModels

  /** The stored expiry timestamp: absent, a time, or text that does not parse. */
  datatype Expiry = Never | At(time: int) | Malformed

  datatype Policy = Policy(
    id: PolicyId,
    alertname: string,
    fixType: string,
    deviceRole: string,
    environment: string,
    minConfidence: string,
    maxRisk: string,
    minPriorSuccesses: int,
    level: Level,
    enabled: bool,
    promotable: bool,
    hasConditions: bool,
    expiry: Expiry)

  /** The `action_policies` rows of one tenant; `order` is newest first. */
  datatype PolicyTable = PolicyTable(order: seq<PolicyId>, rows: map<PolicyId, Policy>) {
    ghost predicate Valid() {
      && NoDuplicates(order)
      && (forall id :: id in order <==> id in rows)
      && (forall id :: id in rows ==> rows[id].id == id)
    }

    /** `list_policies`. */
    function List(): (ps: seq<Policy>)
      requires Valid()
      ensures |ps| == |order|
      ensures forall i :: 0 <= i < |ps| ==> order[i] in rows && ps[i] == rows[order[i]]
    {
      seq(|order|, i requires 0 <= i < |order| => assert order[i] in order; rows[order[i]])
    }
  }

  /** What `query` is asked about. */
  datatype Context = Context(
    fixType: string,
    deviceRole: string,
    environment: string,
    confidence: string,
    risk: string,
    priorSuccesses: int,
    alertname: string)

  function ConfidenceRank(c: string): nat {
    if c == "medium" then 1 else if c == "high" || c == "certain" then 2 else 0
  }

  function RiskRank(r: string): nat {
    if r == "low" then 0 else if r == "medium" then 1 else 2
  }

  /** An empty filter field matches anything. */
  predicate FieldMatches(filter: string, value: string) {
    filter == "" || filter == value
  }

  predicate Eligible(p: Policy, c: Context) {
    && ConfidenceRank(p.minConfidence) <= ConfidenceRank(c.confidence)
    && RiskRank(c.risk) <= RiskRank(p.maxRisk)
    && p.minPriorSuccesses <= c.priorSuccesses
    && FieldMatches(p.alertname, c.alertname)
    && FieldMatches(p.fixType, c.fixType)
    && FieldMatches(p.deviceRole, c.deviceRole)
    && FieldMatches(p.environment, c.environment)
  }

  function Score(p: Policy): nat {
    (if p.alertname != "" then 8 else 0) + (if p.fixType != "" then 4 else 0)
    + (if p.deviceRole != "" then 2 else 0) + (if p.environment != "" then 1 else 0)
  }

  predicate NamesOrOpen(filter: string, value: string) { filter != "" ==> value == filter }

  /** In words: confidence and risk within the policy's bounds, where unknown labels are low confidence and high risk. */
  lemma EligibleIff(p: Policy, c: Context)
    ensures Eligible(p, c) <==>
            && (p.minConfidence in {"high", "certain"} ==> c.confidence in {"high", "certain"})
            && (p.minConfidence == "medium" ==> c.confidence in {"medium", "high", "certain"})
            && (p.maxRisk == "low" ==> c.risk == "low")
            && (p.maxRisk == "medium" ==> c.risk in {"low", "medium"})
            && p.minPriorSuccesses <= c.priorSuccesses
            && NamesOrOpen(p.alertname, c.alertname) && NamesOrOpen(p.fixType, c.fixType)
            && NamesOrOpen(p.deviceRole, c.deviceRole) && NamesOrOpen(p.environment, c.environment)
  {
  }

  // ---------------------------------------------------------------- selection

  /** The index the selection loop ends with. */
  function BestIndex(ps: seq<Policy>, c: Context): (r: Option<nat>)
    ensures r.Some? ==> r.value < |ps|
  {
    if ps == [] then None else
    var n := |ps| - 1;
    var best := BestIndex(ps[..n], c);
    if Eligible(ps[n], c) && (best.None? || Score(ps[best.value]) < Score(ps[n])) then Some(n) else best
  }

  /** `p` names a field that `q` leaves open, and they agree on every more important field. */
  predicate MoreSpecific(p: Policy, q: Policy) {
    if (p.alertname != "") != (q.alertname != "") then p.alertname != ""
    else if (p.fixType != "") != (q.fixType != "") then p.fixType != ""
    else if (p.deviceRole != "") != (q.deviceRole != "") then p.deviceRole != ""
    else p.environment != "" && q.environment == ""
  }

  predicate SameFilters(p: Policy, q: Policy) {
    p.alertname == q.alertname && p.fixType == q.fixType && p.deviceRole == q.deviceRole && p.environment == q.environment
  }

  /** The weights 8/4/2/1 order eligible policies lexicographically, and a tie means the same filter. */
  lemma ScoreIsLexicographic(p: Policy, q: Policy, c: Context)
    ensures Score(p) > Score(q) <==> MoreSpecific(p, q)
    ensures Eligible(p, c) && Eligible(q, c) && Score(p) == Score(q) ==> SameFilters(p, q)
  {
    assert p.alertname != "" || p.alertname == "";
    assert q.fixType != "" || q.fixType == "";
  }

  /** No policy is eligible. */
  ghost predicate NoneEligible(ps: seq<Policy>, c: Context) {
    forall i :: 0 <= i < |ps| ==> !Eligible(ps[i], c)
  }

  /** `k` is eligible, nothing eligible is more specific, and everything eligible before it is less specific. */
  ghost predicate IsBest(ps: seq<Policy>, c: Context, k: nat) {
    && k < |ps| && Eligible(ps[k], c)
    && (forall i :: 0 <= i < |ps| && Eligible(ps[i], c) ==> !MoreSpecific(ps[i], ps[k]))
    && (forall i :: 0 <= i < k && Eligible(ps[i], c) ==> MoreSpecific(ps[k], ps[i]))
  }

  lemma {:induction false} BestIndexIsBest(ps: seq<Policy>, c: Context)
    ensures match BestIndex(ps, c) case None => NoneEligible(ps, c) case Some(k) => IsBest(ps, c, k)
  {
    if ps != [] {
      var n := |ps| - 1;
      BestIndexIsBest(ps[..n], c);
      assert forall i :: 0 <= i < n ==> ps[..n][i] == ps[i];
      forall p: Policy, q: Policy
        ensures Score(p) > Score(q) <==> MoreSpecific(p, q)
      {
        ScoreIsLexicographic(p, q, c);
      }
    }
  }

  /** At most one index can be best, so the two descriptions agree in both directions. */
  lemma BestIsUnique(ps: seq<Policy>, c: Context, k: nat)
    ensures BestIndex(ps, c) == Some(k) <==> IsBest(ps, c, k)
    ensures BestIndex(ps, c) == None <==> NoneEligible(ps, c)
  {
    BestIndexIsBest(ps, c);
  }

  predicate AtLeastAsSafe(c: Context, d: Context) {
    && d.fixType == c.fixType && d.deviceRole == c.deviceRole && d.environment == c.environment && d.alertname == c.alertname
    && ConfidenceRank(c.confidence) <= ConfidenceRank(d.confidence)
    && RiskRank(d.risk) <= RiskRank(c.risk)
    && c.priorSuccesses <= d.priorSuccesses
  }

  /** More confidence, less risk or more prior successes never loses specificity. */
  lemma SaferNeverLessSpecific(ps: seq<Policy>, c: Context, d: Context)
    requires AtLeastAsSafe(c, d) && BestIndex(ps, c).Some?
    ensures BestIndex(ps, d).Some?
    ensures !MoreSpecific(ps[BestIndex(ps, c).value], ps[BestIndex(ps, d).value])
  {
    BestIndexIsBest(ps, c);
    BestIndexIsBest(ps, d);
    assert Eligible(ps[BestIndex(ps, c).value], d);
  }

  // ---------------------------------------------------------------- query

  function EnabledOnly(ps: seq<Policy>): (r: seq<Policy>)
    ensures forall p :: p in r <==> p in ps && p.enabled
  {
    if ps == [] then [] else
    var front, last := ps[..|ps| - 1], ps[|ps| - 1];
    EnabledOnly(front) + if last.enabled then [last] else []
  }

  predicate Expired(p: Policy, now: int) {
    p.expiry.At? && now > p.expiry.time
  }

  /** The policy `query` settles on. */
  function Chosen(table: PolicyTable, c: Context): (r: Option<Policy>)
    requires table.Valid()
    ensures r.Some? ==> r.value.id in table.rows && table.rows[r.value.id] == r.value && r.value.enabled && Eligible(r.value, c)
  {
    var ps := EnabledOnly(table.List());
    BestIndexIsBest(ps, c);
    match BestIndex(ps, c)
    case None => None
    case Some(k) => assert ps[k] in ps; Some(ps[k])
  }

  predicate Fits(p: Policy, c: Context) { p.enabled && Eligible(p, c) }

  /** The first of the highest-scoring enabled and eligible policies. */
  ghost predicate Leads(ps: seq<Policy>, c: Context, i: nat) {
    && i < |ps| && Fits(ps[i], c)
    && (forall j :: 0 <= j < |ps| && Fits(ps[j], c) ==> Score(ps[j]) <= Score(ps[i]))
    && (forall j :: 0 <= j < i && Fits(ps[j], c) ==> Score(ps[j]) < Score(ps[i]))
  }

  lemma LeadsOnward(ps: seq<Policy>, c: Context, i: nat)
    requires ps != [] && Leads(ps[..|ps| - 1], c, i)
    ensures var last := ps[|ps| - 1];
            if Fits(last, c) && Score(ps[i]) < Score(last) then Leads(ps, c, |ps| - 1) else Leads(ps, c, i)
  {
    assert forall j :: 0 <= j < |ps| - 1 ==> ps[..|ps| - 1][j] == ps[j];
  }

  ghost predicate LedBy(ps: seq<Policy>, c: Context, best: Option<Policy>) {
    match best
    case None => forall i :: 0 <= i < |ps| ==> !Fits(ps[i], c)
    case Some(p) => exists i: nat :: Leads(ps, c, i) && ps[i] == p
  }

  function Better(best: Option<Policy>, p: Policy, c: Context): Option<Policy> {
    if Fits(p, c) && (best.None? || Score(best.value) < Score(p)) then Some(p) else best
  }

  lemma LedByOneMore(ps: seq<Policy>, c: Context, best: Option<Policy>)
    requires ps != [] && LedBy(ps[..|ps| - 1], c, best)
    ensures LedBy(ps, c, Better(best, ps[|ps| - 1], c))
  {
    var front, last := ps[..|ps| - 1], ps[|ps| - 1];
    assert forall j :: 0 <= j < |front| ==> front[j] == ps[j];
    if best.Some? {
      var i: nat :| Leads(front, c, i) && front[i] == best.value;
      LeadsOnward(ps, c, i);
    } else if Fits(last, c) {
      assert Leads(ps, c, |front|);
    }
  }

  function BestPolicy(ps: seq<Policy>, c: Context): Option<Policy> {
    match BestIndex(ps, c) case None => None case Some(k) => Some(ps[k])
  }

  lemma BestOfAppended(ps: seq<Policy>, p: Policy, c: Context)
    requires p.enabled
    ensures BestPolicy(ps + [p], c) == Better(BestPolicy(ps, c), p, c)
  {
    var more := ps + [p];
    assert more[..|more| - 1] == ps && more[|more| - 1] == p;
  }

  lemma BestEnabledOneMore(ps: seq<Policy>, c: Context)
    requires ps != []
    ensures BestPolicy(EnabledOnly(ps), c) == Better(BestPolicy(EnabledOnly(ps[..|ps| - 1]), c), ps[|ps| - 1], c)
  {
    if ps[|ps| - 1].enabled {
      BestOfAppended(EnabledOnly(ps[..|ps| - 1]), ps[|ps| - 1], c);
    } else {
      assert EnabledOnly(ps) == EnabledOnly(ps[..|ps| - 1]);
    }
  }

  /** Leaving out the disabled policies does not change who leads. */
  lemma {:induction false} BestEnabledLeads(ps: seq<Policy>, c: Context)
    ensures LedBy(ps, c, BestPolicy(EnabledOnly(ps), c))
    decreases |ps|
  {
    if ps != [] {
      BestEnabledLeads(ps[..|ps| - 1], c);
      BestEnabledOneMore(ps, c);
      LedByOneMore(ps, c, BestPolicy(EnabledOnly(ps[..|ps| - 1]), c));
    }
  }

  /** The `i`-th newest policy is enabled and eligible, no such policy is more specific, and every newer one is less specific. */
  ghost predicate Governs(table: PolicyTable, c: Context, i: nat)
    requires table.Valid()
  {
    var ps := table.List();
    && i < |ps| && Fits(ps[i], c)
    && (forall j :: 0 <= j < |ps| && Fits(ps[j], c) ==> !MoreSpecific(ps[j], ps[i]))
    && (forall j :: 0 <= j < i && Fits(ps[j], c) ==> MoreSpecific(ps[i], ps[j]))
  }

  /** The policy that decides, told from the table: the most specific one, and the newest among equally specific ones. */
  lemma NewestMostSpecificGoverns(table: PolicyTable, c: Context)
    requires table.Valid()
    ensures match Chosen(table, c)
            case None => forall p :: p in table.List() ==> !Fits(p, c)
            case Some(p) => exists i: nat :: Governs(table, c, i) && p == table.List()[i]
  {
    var ps := table.List();
    BestEnabledLeads(ps, c);
    forall p: Policy, q: Policy
      ensures Score(p) > Score(q) <==> MoreSpecific(p, q)
    {
      ScoreIsLexicographic(p, q, c);
    }
    if Chosen(table, c).Some? {
      var i: nat :| Leads(ps, c, i) && ps[i] == Chosen(table, c).value;
      assert Governs(table, c, i);
    }
  }

  /** And that position is the only one: whatever governs is what `query` settles on. */
  lemma WhatGovernsIsChosen(table: PolicyTable, c: Context, i: nat)
    requires table.Valid() && Governs(table, c, i)
    ensures Chosen(table, c) == Some(table.List()[i])
  {
    NewestMostSpecificGoverns(table, c);
    if Chosen(table, c).Some? {
      var j: nat :| Governs(table, c, j) && Chosen(table, c).value == table.List()[j];
      assert !(i < j) && !(j < i);
    }
  }

  const DEFAULT_DECISION := AutonomyDecision(L2, true, false, None)

  function Decide(table: PolicyTable, c: Context, now: int): AutonomyDecision
    requires table.Valid()
  {
    match Chosen(table, c)
    case None => DEFAULT_DECISION
    case Some(p) =>
      var idx := LevelIndex(p.level);
      if idx >= 4 && Expired(p, now) then AutonomyDecision(L2, true, false, Some(p.id))
      else AutonomyDecision(p.level, idx <= 3, idx >= 4, Some(p.id))
  }

  /** Execution is allowed exactly when the best enabled match is at L4 or above and not past its expiry;
      approval is asked for in every other case, and never both. */
  lemma DecideAllowsIff(table: PolicyTable, c: Context, now: int)
    requires table.Valid()
    ensures var d := Decide(table, c, now);
            && (d.allowExecution <==> exists id :: id in table.rows && Chosen(table, c) == Some(table.rows[id])
                                                   && LevelIndex(table.rows[id].level) >= 4
                                                   && (table.rows[id].expiry.At? ==> now <= table.rows[id].expiry.time))
            && (d.allowExecution <==> !d.requiresApproval)
            && (d.allowExecution ==> d.policyId.Some? && d.policyId.value in table.rows
                                     && LevelIndex(table.rows[d.policyId.value].level) >= 4)
  {
    if Chosen(table, c).Some? {
      assert table.rows[Chosen(table, c).value.id] == Chosen(table, c).value;
    }
  }

  /** The decision names the governing policy and its level, or L2 past the expiry of a level of L4 or above. */
  lemma DecisionNamesGoverning(table: PolicyTable, c: Context, now: int, i: nat)
    requires table.Valid() && Governs(table, c, i)
    ensures var d, p := Decide(table, c, now), table.List()[i];
            && d.policyId == Some(table.order[i])
            && d.level == (if LevelIndex(p.level) >= 4 && p.expiry.At? && now > p.expiry.time then L2 else p.level)
            && (d.allowExecution <==> LevelIndex(d.level) >= 4) && (d.requiresApproval <==> LevelIndex(d.level) < 4)
  {
    WhatGovernsIsChosen(table, c, i);
  }

  // ---------------------------------------------------------------- promotion and demotion

  predicate CanPromote(table: PolicyTable, id: PolicyId) {
    id in table.rows && table.rows[id].promotable && LevelIndex(table.rows[id].level) < 4
  }

  predicate CanDemote(table: PolicyTable, id: PolicyId) {
    id in table.rows && LevelIndex(table.rows[id].level) > 1
  }

  function Promote(table: PolicyTable, id: PolicyId, now: int, ttl: nat): PolicyTable {
    if !CanPromote(table, id) then table else
    var p := table.rows[id];
    table.(rows := table.rows[id := p.(level := LEVEL_ORDER[LevelIndex(p.level) + 1], expiry := At(now + ttl))])
  }

  function Demote(table: PolicyTable, id: PolicyId): PolicyTable {
    if !CanDemote(table, id) then table else
    var p := table.rows[id];
    table.(rows := table.rows[id := p.(level := LEVEL_ORDER[LevelIndex(p.level) - 1], expiry := Never)])
  }

  class PolicyRegistry {
    var table: PolicyTable
    const ttl: nat

    constructor (table: PolicyTable, ttl: nat)
      requires table.Valid()
      ensures this.table == table && this.ttl == ttl
    {
      this.table := table;
      this.ttl := ttl;
    }

    /** `_find_best_match`: the loop keeps the best policy so far and its score. */
    static method FindBestMatch(ps: seq<Policy>, c: Context) returns (best: Option<Policy>)
      ensures match best
              case None => NoneEligible(ps, c)
              case Some(p) => exists k: nat :: IsBest(ps, c, k) && ps[k] == p
      ensures best == match BestIndex(ps, c) case None => None case Some(k) => Some(ps[k])
    {
      best := None;
      var bestScore := -1;
      for i := 0 to |ps|
        invariant best == match BestIndex(ps[..i], c) case None => None case Some(k) => Some(ps[k])
        invariant bestScore == match best case None => -1 case Some(p) => Score(p)
      {
        var p := ps[i];
        assert ps[..i + 1][..i] == ps[..i];
        if ConfidenceRank(c.confidence) < ConfidenceRank(p.minConfidence) { continue; }
        if RiskRank(c.risk) > RiskRank(p.maxRisk) { continue; }
        if c.priorSuccesses < p.minPriorSuccesses { continue; }
        var score := 0;
        if p.alertname != "" {
          if p.alertname != c.alertname { continue; }
          score := score + 8;
        }
        if p.fixType != "" {
          if p.fixType != c.fixType { continue; }
          score := score + 4;
        }
        if p.deviceRole != "" {
          if p.deviceRole != c.deviceRole { continue; }
          score := score + 2;
        }
        if p.environment != "" {
          if p.environment != c.environment { continue; }
          score := score + 1;
        }
        if score > bestScore {
          bestScore := score;
          best := Some(p);
        }
      }
      assert ps[..|ps|] == ps;
      BestIndexIsBest(ps, c);
    }

    method Query(c: Context, now: int) returns (d: AutonomyDecision)
      requires table.Valid()
      ensures d == Decide(table, c, now)
    {
      var enabled := EnabledOnly(table.List());
      var candidate := FindBestMatch(enabled, c);
      if candidate.None? { return DEFAULT_DECISION; }
      var p := candidate.value;
      var idx := LevelIndex(p.level);
      if p.expiry != Never && idx >= 4 {
        if p.expiry.At? && now > p.expiry.time {
          return AutonomyDecision(L2, true, false, Some(p.id));
        }
      }
      return AutonomyDecision(p.level, idx <= 3, idx >= 4, Some(p.id));
    }

    method PromotePolicy(id: PolicyId, now: int) returns (level: Option<Level>)
      requires table.Valid()
      modifies this`table
      ensures table == Promote(old(table), id, now, ttl) && table.Valid()
      ensures level == if id in table.rows then Some(table.rows[id].level) else None
    {
      if id !in table.rows { return None; }
      var p := table.rows[id];
      if !p.promotable { return Some(p.level); }
      var idx := LevelIndex(p.level);
      if idx >= 4 { return Some(p.level); }
      var newLevel := LEVEL_ORDER[idx + 1];
      table := table.(rows := table.rows[id := p.(level := newLevel, expiry := At(now + ttl))]);
      return Some(newLevel);
    }

    method DemotePolicy(id: PolicyId) returns (level: Option<Level>)
      requires table.Valid()
      modifies this`table
      ensures table == Demote(old(table), id) && table.Valid()
      ensures level == if id in table.rows then Some(table.rows[id].level) else None
    {
      if id !in table.rows { return None; }
      var p := table.rows[id];
      var idx := LevelIndex(p.level);
      if idx <= 1 { return Some(p.level); }
      var newLevel := LEVEL_ORDER[idx - 1];
      table := table.(rows := table.rows[id := p.(level := newLevel, expiry := Never)]);
      return Some(newLevel);
    }
  }
}
