/**
  The programmatic fast path: which policies are tried, in what order, and when
  one resolves an alert (`get_fast_path_policies` in ai-agents/shared/policy_registry.py,
  `resolve` in ai-agents/shared/policy_resolver.py, the loop of
  `_node_policy_fast_path` in ai-agents/ops_agent/workflow.py).

  What a condition check answers, and whether the templates render, are inputs.
*/
module PolicyResolver {
  import opened Prelude
  import opened PolicyRegistry

  // ---------------------------------------------------------------- candidates

  /** Enabled, with conditions, for this alert and role; under `strict` an unknown role fits no role-specific policy. */
  predicate Candidate(p: Policy, alertname: string, deviceRole: string, strict: bool) {
    && p.enabled && p.hasConditions
    && FieldMatches(p.alertname, alertname)
    && (p.deviceRole != "" ==> p.deviceRole == deviceRole || (!strict && deviceRole == ""))
  }

  function Specificity(p: Policy): nat {
    (if p.alertname != "" then 1 else 0) + (if p.deviceRole != "" then 1 else 0)
  }

  /** Positions with a property, ascending. */
  function Where(ps: seq<Policy>, f: Policy -> bool): (r: seq<nat>)
    ensures forall i :: i in r <==> 0 <= i < |ps| && f(ps[i])
    ensures forall a, b | 0 <= a < b < |r| :: r[a] < r[b]
  {
    if ps == [] then []
    else
      var last := |ps| - 1;
      var r := Where(ps[..last], f);
      assert forall a | 0 <= a < |r| :: r[a] in r;
      if f(ps[last]) then r + [last] else r
  }

  function Rated(alertname: string, deviceRole: string, strict: bool, specificity: nat): Policy -> bool {
    p => Candidate(p, alertname, deviceRole, strict) && Specificity(p) == specificity
  }

  /** The candidates by falling specificity, in list order within one specificity: what the stable sort leaves. */
  function FastPath(ps: seq<Policy>, alertname: string, deviceRole: string, strict: bool): seq<nat> {
    Where(ps, Rated(alertname, deviceRole, strict, 2))
    + Where(ps, Rated(alertname, deviceRole, strict, 1))
    + Where(ps, Rated(alertname, deviceRole, strict, 0))
  }

  /** Position `i` is tried before position `j`. */
  predicate Before(ps: seq<Policy>, i: nat, j: nat)
    requires i < |ps| && j < |ps|
  {
    Specificity(ps[i]) > Specificity(ps[j]) || (Specificity(ps[i]) == Specificity(ps[j]) && i < j)
  }

  lemma FastPathIsOrdered(ps: seq<Policy>, alertname: string, deviceRole: string, strict: bool)
    ensures var r := FastPath(ps, alertname, deviceRole, strict);
            && (forall i :: i in r <==> 0 <= i < |ps| && Candidate(ps[i], alertname, deviceRole, strict))
            && (forall i | 0 <= i < |r| :: r[i] < |ps|)
            && (forall a, b | 0 <= a < b < |r| :: Before(ps, r[a], r[b]))
  {
    var two, one, zero := Where(ps, Rated(alertname, deviceRole, strict, 2)), Where(ps, Rated(alertname, deviceRole, strict, 1)),
                          Where(ps, Rated(alertname, deviceRole, strict, 0));
    var r := FastPath(ps, alertname, deviceRole, strict);
    assert forall i :: i in r <==> i in two || i in one || i in zero;
    forall a | 0 <= a < |r|
      ensures r[a] < |ps|
      ensures Specificity(ps[r[a]]) == if a < |two| then 2 else if a < |two| + |one| then 1 else 0
    {
      assert if a < |two| then r[a] in two else if a < |two| + |one| then r[a] in one else r[a] in zero;
    }
  }

  /** Told without `Candidate`: the fast path offers the enabled policies with conditions for any alert or this one and
      any role or this one; when the role is not known, without `strict`, those for any role. */
  lemma FastPathOffers(ps: seq<Policy>, alertname: string, deviceRole: string, strict: bool, i: nat)
    ensures i in FastPath(ps, alertname, deviceRole, strict) <==>
            && i < |ps| && ps[i].enabled && ps[i].hasConditions && ps[i].alertname in {"", alertname}
            && (ps[i].deviceRole in {"", deviceRole} || (deviceRole == "" && !strict))
  {
    FastPathIsOrdered(ps, alertname, deviceRole, strict);
  }

  // ---------------------------------------------------------------- resolving

  /** One condition check: true, false, or an exception. */
  datatype Verdict = Passes | Fails | Raises

  /** What one policy's conditions answer and whether its templates render. */
  datatype Trial = Trial(verdicts: seq<Verdict>, renders: bool)

  predicate Resolves(t: Trial) {
    t.verdicts != [] && (forall v | v in t.verdicts :: v == Passes) && t.renders
  }

  /** `resolve`: the number of conditions matched, or nothing; `asked` counts the checks made. */
  method Resolve(t: Trial) returns (matched: Option<nat>, asked: nat)
    ensures matched == if Resolves(t) then Some(|t.verdicts|) else None
    ensures asked <= |t.verdicts|
    ensures forall i | 0 <= i < asked - 1 :: t.verdicts[i] == Passes
    ensures asked < |t.verdicts| ==> asked > 0 && t.verdicts[asked - 1] != Passes
  {
    asked := 0;
    while asked < |t.verdicts|
      invariant asked <= |t.verdicts|
      invariant forall i | 0 <= i < asked :: t.verdicts[i] == Passes
    {
      var verdict := t.verdicts[asked];
      asked := asked + 1;
      if verdict != Passes {
        assert verdict in t.verdicts;
        return None, asked;
      }
    }
    if t.verdicts == [] || !t.renders { return None, asked; }
    return Some(|t.verdicts|), asked;
  }

  // ---------------------------------------------------------------- the first candidate that resolves

  /** Candidate `w` resolves the alert, and every other candidate that would is tried after it. */
  ghost predicate IsWinner(ps: seq<Policy>, trials: Policy -> Trial, alertname: string, deviceRole: string, w: nat) {
    && w < |ps| && Candidate(ps[w], alertname, deviceRole, true) && Resolves(trials(ps[w]))
    && forall j | 0 <= j < |ps| && j != w && Candidate(ps[j], alertname, deviceRole, true) && Resolves(trials(ps[j])) ::
         Before(ps, w, j)
  }

  /** Enabled, with conditions, for any alert or this one, for any role or this one. */
  predicate IsUsable(p: Policy, alertname: string, deviceRole: string) {
    p.enabled && p.hasConditions && p.alertname in {"", alertname} && p.deviceRole in {"", deviceRole}
  }

  /** Both policies name an alert and a role, or just one of the two, or neither. */
  predicate AsSpecific(p: Policy, q: Policy) {
    && ((p.alertname != "" && p.deviceRole != "") <==> (q.alertname != "" && q.deviceRole != ""))
    && ((p.alertname != "" || p.deviceRole != "") <==> (q.alertname != "" || q.deviceRole != ""))
  }

  lemma UsableIff(p: Policy, alertname: string, deviceRole: string)
    ensures Candidate(p, alertname, deviceRole, true) <==> IsUsable(p, alertname, deviceRole)
  {
  }

  lemma WinnerIsMostSpecific(ps: seq<Policy>, trials: Policy -> Trial, alertname: string, deviceRole: string, w: nat, j: nat)
    requires IsWinner(ps, trials, alertname, deviceRole, w)
    requires j < |ps| && IsUsable(ps[j], alertname, deviceRole) && Resolves(trials(ps[j]))
    ensures ps[j].alertname != "" && ps[j].deviceRole != "" ==> ps[w].alertname != "" && ps[w].deviceRole != ""
    ensures ps[j].alertname != "" || ps[j].deviceRole != "" ==> ps[w].alertname != "" || ps[w].deviceRole != ""
    ensures AsSpecific(ps[w], ps[j]) ==> w <= j
  {
    UsableIff(ps[j], alertname, deviceRole);
    assert j != w ==> Before(ps, w, j);
  }

  /** The workflow's fast path finds the most specific resolving policy, the first listed among equals, and none only when none resolves. */
  method TryFastPath(ps: seq<Policy>, trials: Policy -> Trial, alertname: string,
                     deviceRole: string) returns (winner: Option<nat>)
    ensures winner.Some? ==> IsWinner(ps, trials, alertname, deviceRole, winner.value)
    ensures winner.None? ==> forall j | 0 <= j < |ps| :: !(Candidate(ps[j], alertname, deviceRole, true) && Resolves(trials(ps[j])))
    ensures winner.Some? ==> IsUsable(ps[winner.value], alertname, deviceRole)
    ensures winner.Some? ==>
              var w := ps[winner.value];
              forall j | 0 <= j < |ps| && IsUsable(ps[j], alertname, deviceRole) && Resolves(trials(ps[j])) ::
                var p := ps[j];
                && (p.alertname != "" && p.deviceRole != "" ==> w.alertname != "" && w.deviceRole != "")
                && (p.alertname != "" || p.deviceRole != "" ==> w.alertname != "" || w.deviceRole != "")
                && (AsSpecific(w, p) ==> winner.value <= j)
    ensures winner.None? ==>
              forall p | p in ps && IsUsable(p, alertname, deviceRole) ::
                !Resolves(trials(p))
  {
    var candidates := FastPath(ps, alertname, deviceRole, true);
    FastPathIsOrdered(ps, alertname, deviceRole, true);
    for k := 0 to |candidates|
      invariant forall a | 0 <= a < k :: !Resolves(trials(ps[candidates[a]]))
    {
      var matched, _ := Resolve(trials(ps[candidates[k]]));
      if matched.Some? {
        assert candidates[k] in candidates;
        forall j | 0 <= j < |ps| && j != candidates[k] && Candidate(ps[j], alertname, deviceRole, true) && Resolves(trials(ps[j]))
          ensures Before(ps, candidates[k], j)
        {
          assert j in candidates;
          var b :| 0 <= b < |candidates| && candidates[b] == j;
          assert b > k;
        }
        UsableIff(ps[candidates[k]], alertname, deviceRole);
        forall j | 0 <= j < |ps| && IsUsable(ps[j], alertname, deviceRole) && Resolves(trials(ps[j])) {
          WinnerIsMostSpecific(ps, trials, alertname, deviceRole, candidates[k], j);
        }
        return Some(candidates[k]);
      }
    }
    forall p | p in ps && IsUsable(p, alertname, deviceRole)
      ensures !Resolves(trials(p))
    {
      UsableIff(p, alertname, deviceRole);
    }
    return None;
  }
}
