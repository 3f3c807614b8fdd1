/**
  What a plan says of the apply that follows it: exactly when it announces the
  same actions, and exactly when it also announces them under the same
  identities (nautobot/data_loader/load_data.py).
*/
module PlanAndApply {
  import opened Prelude
  import opened LoadData
  import opened Reconcile

  /** The ids a plan makes up, one for each request that creates. */
  function MadeUp(reqs: seq<Request>): (made: seq<string>)
    ensures |made| == |reqs|
    ensures forall i | 0 <= i < |reqs| :: made[i] == PlannedId(reqs[i].kind, i + 1) && IsPlaceholder(made[i])
  {
    seq(|reqs|, i requires 0 <= i < |reqs| => PlannedId(reqs[i].kind, i + 1))
  }

  /** A value of the plan and the value of the apply in its place: the same, or a made-up id and the server's. */
  ghost predicate StandsFor(made: seq<string>, newIds: seq<string>, planned: Value, applied: Value)
    requires |made| == |newIds|
  {
    planned == applied || exists j :: 0 <= j < |made| && planned == VText(made[j]) && applied == VText(newIds[j])
  }

  /** A value no stored attribute compares equal to, and that is not taken for an absent one. */
  ghost predicate Unstored(eq: Equality, start: seq<Obj>, v: Value) {
    && !eq(VNone, v)
    && forall o, k | o in start && k in o.attrs :: !eq(o.attrs[k], v) && !eq(IdOrSelf(o.attrs[k]), v)
  }

  /** Neither the ids the server gives out nor those the plan makes up are in the store yet. */
  ghost predicate Unforeseen(eq: Equality, start: seq<Obj>, made: seq<string>, newIds: seq<string>) {
    && (forall j | 0 <= j < |made| :: Unstored(eq, start, VText(made[j])))
    && (forall j | 0 <= j < |newIds| :: Unstored(eq, start, VText(newIds[j])))
  }

  // ---------------------------------------------------------------- one call

  ghost predicate AllStandFor(made: seq<string>, newIds: seq<string>, planned: map<string, Value>, applied: map<string, Value>)
    requires |made| == |newIds|
  {
    && planned.Keys == applied.Keys
    && forall k | k in planned :: StandsFor(made, newIds, planned[k], applied[k])
  }

  ghost predicate CallStandsFor(made: seq<string>, newIds: seq<string>, planned: Call, applied: Call)
    requires |made| == |newIds|
  {
    && AllStandFor(made, newIds, planned.filter, applied.filter)
    && AllStandFor(made, newIds, planned.data, applied.data)
    && planned == applied.(filter := planned.filter, data := planned.data)
  }

  /** A stored attribute compares with a planned value as with the value applied later, and with a made-up id never. */
  lemma ComparesAlike(eq: Equality, start: seq<Obj>, made: seq<string>, newIds: seq<string>, o: Obj, k: string,
                      planned: Value, applied: Value)
    requires |made| == |newIds| && Unforeseen(eq, start, made, newIds)
    requires o in start && StandsFor(made, newIds, planned, applied)
    ensures eq(Get(o.attrs, k), planned) == eq(Get(o.attrs, k), applied)
    ensures planned != applied ==> !eq(Get(o.attrs, k), applied) && !eq(IdOrSelf(Get(o.attrs, k)), applied)
  {
    if planned != applied {
      var j :| 0 <= j < |made| && planned == VText(made[j]) && applied == VText(newIds[j]);
      assert Unstored(eq, start, VText(made[j])) && Unstored(eq, start, VText(newIds[j]));
    }
  }

  /**
    Where the plan goes wrong: a filter value looks like a placeholder, so the plan does not search,
    but the search would have found an object.
  */
  predicate Misjudges(eq: Equality, start: seq<Obj>, planned: Call, applied: Call) {
    FilterHasPlaceholder(planned) && First(eq, start, applied) < |start|
  }

  /** A call whose filter holds a made-up id finds nothing when the server's id is in its place. */
  lemma DependantFindsNothing(eq: Equality, start: seq<Obj>, made: seq<string>, newIds: seq<string>, planned: Call,
                              applied: Call, k: string)
    requires |made| == |newIds| && Unforeseen(eq, start, made, newIds)
    requires AllStandFor(made, newIds, planned.filter, applied.filter)
    requires k in planned.filter && planned.filter[k] != applied.filter[k]
    ensures First(eq, start, applied) == |start|
  {
    forall o | o in start
      ensures !Matches(eq, o, applied)
    {
      ComparesAlike(eq, start, made, newIds, o, AttributeOf(k), planned.filter[k], applied.filter[k]);
      assert !eq(Actual(o, k), applied.filter[k]);
    }
  }

  lemma SamePosition(eq: Equality, start: seq<Obj>, made: seq<string>, newIds: seq<string>, planned: Call, applied: Call)
    requires |made| == |newIds| && Unforeseen(eq, start, made, newIds)
    requires forall j | 0 <= j < |made| :: IsPlaceholder(made[j])
    requires CallStandsFor(made, newIds, planned, applied)
    ensures Position(eq, true, start, planned) ==
            if Misjudges(eq, start, planned, applied) then |start| else First(eq, start, applied)
  {
    if k :| k in planned.filter && planned.filter[k] != applied.filter[k] {
      DependantFindsNothing(eq, start, made, newIds, planned, applied, k);
      assert ContainsPlaceholder(planned.filter[k]);
      assert FilterHasPlaceholder(planned);
    } else {
      assert planned.filter == applied.filter;
      forall o | o in start
        ensures Matches(eq, o, planned) == Matches(eq, o, applied)
      {
      }
    }
  }

  lemma SameDiff(eq: Equality, start: seq<Obj>, made: seq<string>, newIds: seq<string>, o: Obj, planned: Call, applied: Call)
    requires |made| == |newIds| && Unforeseen(eq, start, made, newIds)
    requires CallStandsFor(made, newIds, planned, applied)
    requires o in start
    ensures Diff(eq, o, planned) == Diff(eq, o, applied)
  {
    forall k | k in Keys(planned)
      ensures eq(Get(o.attrs, k), Get(planned.data, k)) == eq(Get(o.attrs, k), Get(applied.data, k))
    {
      if k in planned.data {
        ComparesAlike(eq, start, made, newIds, o, k, planned.data[k], applied.data[k]);
      }
    }
  }

  lemma UpdateKeepsId(eq: Equality, o: Obj, c: Call)
    requires LeavesIdAlone(c)
    ensures Id(Patched(o, c, Diff(eq, o, c))) == Id(o)
  {
    assert "id" !in Diff(eq, o, c);
  }

  /** What the two must agree on, beside the identity. */
  datatype Shape = Shape(verb: Verb, kind: string, fields: set<string>)

  function ShapeOf(a: Action): Shape { Shape(a.verb, a.kind, a.fields) }

  /** The ids the two steps return: a made-up one and the server's for a create, else the same. */
  ghost predicate IdsMatch(plan: Action, planned: Value, made: string, applied: Value, newId: string) {
    if plan.verb.Create? then planned == VText(made) && applied == VText(newId) else planned == applied
  }

  /** One plan step has the shape of the apply step if and only if it does not misjudge the call; it never writes. */
  lemma StepsAgreeIff(eq: Equality, render: Rendering, start: seq<Obj>, calls: seq<Call>, made: seq<string>,
                      newIds: seq<string>, n: nat, store: seq<Obj>, planned: Call)
    requires n < |calls| == |newIds| == |made|
    requires Separated(eq, start, calls, newIds)
    requires Traced(eq, start, calls, newIds, n, store)
    requires Unforeseen(eq, start, made, newIds)
    requires forall j | 0 <= j < |made| :: IsPlaceholder(made[j])
    requires CallStandsFor(made, newIds, planned, calls[n])
    ensures var plan := Reconciled(eq, render, true, start, planned, made[n]);
            var apply := Reconciled(eq, render, false, store, calls[n], newIds[n]);
            && plan.store == start
            && (ShapeOf(plan.action) == ShapeOf(apply.action) <==> !Misjudges(eq, start, planned, calls[n]))
            && (!Misjudges(eq, start, planned, calls[n]) ==>
                  IdsMatch(plan.action, plan.result, made[n], apply.result, newIds[n]))
  {
    var p := First(eq, start, calls[n]);
    SamePosition(eq, start, made, newIds, planned, calls[n]);
    FirstUndisturbed(eq, start, calls, newIds, n, store);
    if p < |start| {
      SameDiff(eq, start, made, newIds, start[p], planned, calls[n]);
      UpdateKeepsId(eq, start[p], calls[n]);
    }
  }

  // ---------------------------------------------------------------- a whole pass

  /** The call request `i` makes in a plan. */
  function PlannedCall(eq: Equality, render: Rendering, start: seq<Obj>, reqs: seq<Request>, newIds: seq<string>, i: nat): Call
    requires i < |reqs| == |newIds|
  {
    CallOf(reqs[i], Pass(eq, render, true, start, reqs, newIds, i).ids)
  }

  predicate MisjudgedAt(eq: Equality, render: Rendering, start: seq<Obj>, reqs: seq<Request>, newIds: seq<string>, i: nat)
    requires i < |reqs| == |newIds|
  {
    Misjudges(eq, start, PlannedCall(eq, render, start, reqs, newIds, i), CallAt(eq, render, start, reqs, newIds, i))
  }

  /** Which requests of the plan are misjudged. */
  function Misjudged(eq: Equality, render: Rendering, start: seq<Obj>, reqs: seq<Request>, newIds: seq<string>): (marks: seq<bool>)
    requires |reqs| == |newIds|
    ensures |marks| == |reqs|
  {
    seq(|reqs|, i requires 0 <= i < |reqs| => MisjudgedAt(eq, render, start, reqs, newIds, i))
  }

  /** After the same number of requests: same shapes, nothing written, matching ids. */
  ghost predicate InStep(start: seq<Obj>, made: seq<string>, newIds: seq<string>, plan: Progress, apply: Progress)
    requires |made| == |newIds|
  {
    && plan.store == start
    && |plan.actions| == |apply.actions| == |plan.ids| == |apply.ids| <= |made|
    && (forall i | 0 <= i < |plan.actions| :: ShapeOf(plan.actions[i]) == ShapeOf(apply.actions[i]))
    && (forall i | 0 <= i < |plan.ids| :: IdsMatch(plan.actions[i], plan.ids[i], made[i], apply.ids[i], newIds[i]))
  }

  lemma ResolvedStandFor(start: seq<Obj>, made: seq<string>, newIds: seq<string>, plan: Progress, apply: Progress,
                         m: map<string, Term>)
    requires |made| == |newIds| && InStep(start, made, newIds, plan, apply)
    ensures AllStandFor(made, newIds, ResolveAll(m, plan.ids), ResolveAll(m, apply.ids))
  {
    forall k | k in m
      ensures StandsFor(made, newIds, Resolve(m[k], plan.ids), Resolve(m[k], apply.ids))
    {
      if m[k].IdOf? && m[k].k < |plan.ids| {
        assert IdsMatch(plan.actions[m[k].k], plan.ids[m[k].k], made[m[k].k], apply.ids[m[k].k], newIds[m[k].k]);
      }
    }
  }

  lemma StaysInStep(start: seq<Obj>, made: seq<string>, newIds: seq<string>, plan: Progress, apply: Progress,
                    planned: Outcome, applied: Outcome)
    requires |made| == |newIds| && InStep(start, made, newIds, plan, apply) && |plan.ids| < |made|
    requires planned.store == start
    requires ShapeOf(planned.action) == ShapeOf(applied.action)
    requires IdsMatch(planned.action, planned.result, made[|plan.ids|], applied.result, newIds[|plan.ids|])
    ensures InStep(start, made, newIds,
                   Progress(planned.store, plan.actions + [planned.action], plan.ids + [planned.result]),
                   Progress(applied.store, apply.actions + [applied.action], apply.ids + [applied.result]))
  {
  }

  /** The step after `i` requests that went in step. */
  lemma NextStepsAgreeIff(eq: Equality, render: Rendering, start: seq<Obj>, reqs: seq<Request>, newIds: seq<string>,
                          i: nat, plan: Progress, apply: Progress)
    requires i < |reqs| == |newIds|
    requires Separated(eq, start, Calls(eq, render, start, reqs, newIds), newIds)
    requires Unforeseen(eq, start, MadeUp(reqs), newIds)
    requires plan == Pass(eq, render, true, start, reqs, newIds, i)
    requires apply == Pass(eq, render, false, start, reqs, newIds, i)
    requires InStep(start, MadeUp(reqs), newIds, plan, apply)
    ensures var made := MadeUp(reqs);
            var p := Reconciled(eq, render, true, start, CallOf(reqs[i], plan.ids), made[i]);
            var a := Reconciled(eq, render, false, apply.store, CallOf(reqs[i], apply.ids), newIds[i]);
            && p.store == start
            && (ShapeOf(p.action) == ShapeOf(a.action) <==> !MisjudgedAt(eq, render, start, reqs, newIds, i))
            && (!MisjudgedAt(eq, render, start, reqs, newIds, i) ==> IdsMatch(p.action, p.result, made[i], a.result, newIds[i]))
  {
    var made, calls := MadeUp(reqs), Calls(eq, render, start, reqs, newIds);
    ResolvedStandFor(start, made, newIds, plan, apply, reqs[i].filter);
    ResolvedStandFor(start, made, newIds, plan, apply, reqs[i].data);
    PassIsTraced(eq, render, start, reqs, newIds, i);
    assert calls[i] == CallOf(reqs[i], apply.ids);
    StepsAgreeIff(eq, render, start, calls, made, newIds, i, apply.store, CallOf(reqs[i], plan.ids));
  }

  lemma PrefixOfMarks(marks: seq<bool>, n: nat)
    requires 0 < n <= |marks|
    ensures true !in marks[..n] <==> true !in marks[..n - 1] && !marks[n - 1]
  {
    assert marks[..n] == marks[..n - 1] + [marks[n - 1]];
  }

  lemma {:induction false} PlanStaysInStep(eq: Equality, render: Rendering, start: seq<Obj>, reqs: seq<Request>,
                                           newIds: seq<string>, n: nat)
    requires n <= |reqs| == |newIds|
    requires Separated(eq, start, Calls(eq, render, start, reqs, newIds), newIds)
    requires Unforeseen(eq, start, MadeUp(reqs), newIds)
    requires true !in Misjudged(eq, render, start, reqs, newIds)[..n]
    ensures InStep(start, MadeUp(reqs), newIds, Pass(eq, render, true, start, reqs, newIds, n),
                   Pass(eq, render, false, start, reqs, newIds, n))
  {
    if n > 0 {
      var i, made := n - 1, MadeUp(reqs);
      PrefixOfMarks(Misjudged(eq, render, start, reqs, newIds), n);
      PlanStaysInStep(eq, render, start, reqs, newIds, i);
      var plan := Pass(eq, render, true, start, reqs, newIds, i);
      var apply := Pass(eq, render, false, start, reqs, newIds, i);
      NextStepsAgreeIff(eq, render, start, reqs, newIds, i, plan, apply);
      var p := Reconciled(eq, render, true, start, CallOf(reqs[i], plan.ids), made[i]);
      var a := Reconciled(eq, render, false, apply.store, CallOf(reqs[i], apply.ids), newIds[i]);
      PassUnfolds(eq, render, true, start, reqs, newIds, i, plan, p);
      PassUnfolds(eq, render, false, start, reqs, newIds, i, apply, a);
      StaysInStep(start, made, newIds, plan, apply, p, a);
    }
  }

  // ---------------------------------------------------------------- the plan as a whole

  /** A plan writes nothing, whatever it is asked. */
  lemma {:induction false} PlanWritesNothing(eq: Equality, render: Rendering, start: seq<Obj>, reqs: seq<Request>,
                                             newIds: seq<string>, n: nat)
    requires n <= |reqs| == |newIds|
    ensures Pass(eq, render, true, start, reqs, newIds, n).store == start
  {
    if n > 0 {
      PlanWritesNothing(eq, render, start, reqs, newIds, n - 1);
    }
  }

  /** The actions recorded after each number of requests. */
  function ActionsOver(eq: Equality, render: Rendering, plan: bool, start: seq<Obj>, reqs: seq<Request>, newIds: seq<string>)
    : (h: seq<seq<Action>>)
    requires |reqs| == |newIds|
    ensures |h| == |reqs| + 1
    ensures forall i | 0 <= i <= |reqs| :: h[i] == Pass(eq, render, plan, start, reqs, newIds, i).actions && |h[i]| == i
  {
    seq(|reqs| + 1, i requires 0 <= i <= |reqs| => Pass(eq, render, plan, start, reqs, newIds, i).actions)
  }

  lemma ActionsGrow(eq: Equality, render: Rendering, plan: bool, start: seq<Obj>, reqs: seq<Request>, newIds: seq<string>,
                    m: nat, n: nat)
    requires m <= n <= |reqs| == |newIds|
    ensures Pass(eq, render, plan, start, reqs, newIds, n).actions[..m] == Pass(eq, render, plan, start, reqs, newIds, m).actions
  {
    var actions := ActionsOver(eq, render, plan, start, reqs, newIds);
    forall i | 0 < i < |actions|
      ensures actions[i][..i - 1] == actions[i - 1]
    {
      PassExtends(eq, render, plan, start, reqs, newIds, i);
    }
    GrowAlong(actions, m, n);
  }

  /** The action recorded for request `i` is that of its call, made with the ids obtained so far. */
  lemma ActionOf(eq: Equality, render: Rendering, plan: bool, start: seq<Obj>, reqs: seq<Request>, newIds: seq<string>, i: nat)
    requires i < |reqs| == |newIds|
    ensures var s := Pass(eq, render, plan, start, reqs, newIds, i);
            Pass(eq, render, plan, start, reqs, newIds, |reqs|).actions[i]
            == Reconciled(eq, render, plan, s.store, CallOf(reqs[i], s.ids), if plan then MadeUp(reqs)[i] else newIds[i]).action
  {
    var s := Pass(eq, render, plan, start, reqs, newIds, i);
    var out := Reconciled(eq, render, plan, s.store, CallOf(reqs[i], s.ids), if plan then MadeUp(reqs)[i] else newIds[i]);
    PassUnfolds(eq, render, plan, start, reqs, newIds, i, s, out);
    ActionsGrow(eq, render, plan, start, reqs, newIds, i + 1, |reqs|);
    assert Pass(eq, render, plan, start, reqs, newIds, |reqs|).actions[..i + 1][i] == out.action;
  }

  /** As long as nothing has been misjudged, the shapes recorded for the next request agree exactly when it is not either. */
  lemma ShapesAgreeAtIff(eq: Equality, render: Rendering, start: seq<Obj>, reqs: seq<Request>, newIds: seq<string>, i: nat)
    requires i < |reqs| == |newIds|
    requires Separated(eq, start, Calls(eq, render, start, reqs, newIds), newIds)
    requires Unforeseen(eq, start, MadeUp(reqs), newIds)
    requires true !in Misjudged(eq, render, start, reqs, newIds)[..i]
    ensures ShapeOf(Pass(eq, render, true, start, reqs, newIds, |reqs|).actions[i])
            == ShapeOf(Pass(eq, render, false, start, reqs, newIds, |reqs|).actions[i])
            <==> !Misjudged(eq, render, start, reqs, newIds)[i]
  {
    PlanStaysInStep(eq, render, start, reqs, newIds, i);
    NextStepsAgreeIff(eq, render, start, reqs, newIds, i, Pass(eq, render, true, start, reqs, newIds, i),
                      Pass(eq, render, false, start, reqs, newIds, i));
    ActionOf(eq, render, true, start, reqs, newIds, i);
    ActionOf(eq, render, false, start, reqs, newIds, i);
  }

  ghost predicate SameShapes(a: seq<Action>, b: seq<Action>)
    requires |a| == |b|
  {
    forall i | 0 <= i < |a| :: ShapeOf(a[i]) == ShapeOf(b[i])
  }

  /** Marks that are right about the first difference are right about whether there is one. */
  lemma {:induction false} FirstDifference(same: seq<bool>, marks: seq<bool>, n: nat)
    requires n <= |same| == |marks|
    requires forall i | 0 <= i < n && true !in marks[..i] :: same[i] == !marks[i]
    ensures false !in same[..n] <==> true !in marks[..n]
  {
    if n > 0 {
      FirstDifference(same, marks, n - 1);
      PrefixOfMarks(marks, n);
      assert same[..n] == same[..n - 1] + [same[n - 1]];
    }
  }

  function Agreements(a: seq<Action>, b: seq<Action>): (same: seq<bool>)
    requires |a| == |b|
    ensures |same| == |a|
  {
    seq(|a|, i requires 0 <= i < |a| => ShapeOf(a[i]) == ShapeOf(b[i]))
  }

  lemma SameShapesIff(a: seq<Action>, b: seq<Action>)
    requires |a| == |b|
    ensures SameShapes(a, b) <==> false !in Agreements(a, b)
  {
    var same := Agreements(a, b);
    forall i | 0 <= i < |a|
      ensures same[i] == (ShapeOf(a[i]) == ShapeOf(b[i])) && same[i] in same
    {
    }
  }

  /**
    A plan writes nothing and predicts the apply, request by request, in verb, type and changed fields, also for
    requests that depend on objects it only has made-up ids for, if and only if it misjudges none: no request whose
    filter holds a text that looks like a placeholder would find an object.
  */
  lemma PlanPredictsApplyIff(str: Value -> string, render: Rendering, start: seq<Obj>, reqs: seq<Request>, newIds: seq<string>)
    requires |reqs| == |newIds|
    requires Separated(EqualBy(str), start, Calls(EqualBy(str), render, start, reqs, newIds), newIds)
    requires Unforeseen(EqualBy(str), start, MadeUp(reqs), newIds)
    ensures var plan := Pass(EqualBy(str), render, true, start, reqs, newIds, |reqs|);
            var apply := Pass(EqualBy(str), render, false, start, reqs, newIds, |reqs|);
            && plan.store == start
            && (SameShapes(plan.actions, apply.actions) <==> true !in Misjudged(EqualBy(str), render, start, reqs, newIds))
  {
    var eq := EqualBy(str);
    PlanWritesNothing(eq, render, start, reqs, newIds, |reqs|);
    var plan := Pass(eq, render, true, start, reqs, newIds, |reqs|).actions;
    var apply := Pass(eq, render, false, start, reqs, newIds, |reqs|).actions;
    var same, marks := Agreements(plan, apply), Misjudged(eq, render, start, reqs, newIds);
    forall i | 0 <= i < |reqs| && true !in marks[..i]
      ensures same[i] == !marks[i]
    {
      ShapesAgreeAtIff(eq, render, start, reqs, newIds, i);
    }
    FirstDifference(same, marks, |reqs|);
    assert same[..|reqs|] == same && marks[..|reqs|] == marks;
    SameShapesIff(plan, apply);
  }

  // ---------------------------------------------------------------- identities

  predicate Named(r: Request) { r.identity.Some? && r.identity.value != "" }

  /** The filter refers to an object that the plan creates. */
  predicate RefersToNew(r: Request, plan: seq<Action>) {
    exists k | k in r.filter :: r.filter[k].IdOf? && r.filter[k].k < |plan| && plan[r.filter[k].k].verb.Create?
  }

  lemma RecordsIdentity(eq: Equality, render: Rendering, plan: bool, store: seq<Obj>, c: Call, newId: string)
    ensures Reconciled(eq, render, plan, store, c, newId).action.identity == IdentityOf(render, c)
  {
  }

  /** A resolved filter is the same in plan and apply exactly when it refers to no object the plan creates. */
  lemma SameFilterIff(start: seq<Obj>, made: seq<string>, newIds: seq<string>, plan: Progress, apply: Progress, r: Request)
    requires |made| == |newIds| && InStep(start, made, newIds, plan, apply)
    requires forall j | 0 <= j < |made| :: IsPlaceholder(made[j]) && !IsPlaceholder(newIds[j])
    ensures ResolveAll(r.filter, plan.ids) == ResolveAll(r.filter, apply.ids) <==> !RefersToNew(r, plan.actions)
  {
    forall k | k in r.filter
      ensures Resolve(r.filter[k], plan.ids) == Resolve(r.filter[k], apply.ids) <==>
              !(r.filter[k].IdOf? && r.filter[k].k < |plan.actions| && plan.actions[r.filter[k].k].verb.Create?)
    {
      if r.filter[k].IdOf? && r.filter[k].k < |plan.ids| {
        var j := r.filter[k].k;
        assert IdsMatch(plan.actions[j], plan.ids[j], made[j], apply.ids[j], newIds[j]);
      }
    }
    if RefersToNew(r, plan.actions) {
      var k :| k in r.filter && r.filter[k].IdOf? && r.filter[k].k < |plan.actions| && plan.actions[r.filter[k].k].verb.Create?;
      assert ResolveAll(r.filter, plan.ids)[k] != ResolveAll(r.filter, apply.ids)[k];
    }
  }

  /** The request goes by its filter, and that refers to an object the plan creates. */
  predicate LosesIdentity(eq: Equality, render: Rendering, start: seq<Obj>, reqs: seq<Request>, newIds: seq<string>, i: nat)
    requires i < |reqs| == |newIds|
  {
    !Named(reqs[i]) && RefersToNew(reqs[i], Pass(eq, render, true, start, reqs, newIds, i).actions)
  }

  /** Which requests do. */
  function Losing(eq: Equality, render: Rendering, start: seq<Obj>, reqs: seq<Request>, newIds: seq<string>): (marks: seq<bool>)
    requires |reqs| == |newIds|
    ensures |marks| == |reqs|
  {
    seq(|reqs|, i requires 0 <= i < |reqs| => LosesIdentity(eq, render, start, reqs, newIds, i))
  }

  /** The text of the two filters shows whether they differ. */
  predicate TellsApart(render: Rendering, f: map<string, Value>, g: map<string, Value>) {
    render(f) == render(g) ==> f == g
  }

  /** The text of a request's filter shows whether plan and apply resolve it differently. */
  predicate FilterTextTells(eq: Equality, render: Rendering, start: seq<Obj>, reqs: seq<Request>, newIds: seq<string>, i: nat)
    requires i < |reqs| == |newIds|
  {
    TellsApart(render, PlannedCall(eq, render, start, reqs, newIds, i).filter, CallAt(eq, render, start, reqs, newIds, i).filter)
  }

  /** The request is recorded under the same identity exactly when it has one of its own or refers to nothing the plan creates. */
  lemma IdentityAgreesAtIff(eq: Equality, render: Rendering, start: seq<Obj>, reqs: seq<Request>, newIds: seq<string>, i: nat)
    requires i < |reqs| == |newIds|
    requires Separated(eq, start, Calls(eq, render, start, reqs, newIds), newIds)
    requires Unforeseen(eq, start, MadeUp(reqs), newIds)
    requires true !in Misjudged(eq, render, start, reqs, newIds)[..i]
    requires forall j | 0 <= j < |newIds| :: !IsPlaceholder(newIds[j])
    requires FilterTextTells(eq, render, start, reqs, newIds, i)
    ensures Pass(eq, render, true, start, reqs, newIds, |reqs|).actions[i].identity
            == Pass(eq, render, false, start, reqs, newIds, |reqs|).actions[i].identity
            <==> !Losing(eq, render, start, reqs, newIds)[i]
  {
    var plan := Pass(eq, render, true, start, reqs, newIds, i);
    var apply := Pass(eq, render, false, start, reqs, newIds, i);
    PlanStaysInStep(eq, render, start, reqs, newIds, i);
    SameFilterIff(start, MadeUp(reqs), newIds, plan, apply, reqs[i]);
    ActionOf(eq, render, true, start, reqs, newIds, i);
    ActionOf(eq, render, false, start, reqs, newIds, i);
    RecordsIdentity(eq, render, true, plan.store, CallOf(reqs[i], plan.ids), MadeUp(reqs)[i]);
    RecordsIdentity(eq, render, false, apply.store, CallOf(reqs[i], apply.ids), newIds[i]);
  }

  ghost predicate SameIdentities(a: seq<Action>, b: seq<Action>)
    requires |a| == |b|
  {
    forall i | 0 <= i < |a| :: a[i].identity == b[i].identity
  }

  /**
    A plan that misjudges nothing announces every action under the apply's identity if and only if every request
    without an identity of its own refers, in its filter, to no object the plan creates.
  */
  lemma PlanKeepsIdentitiesIff(str: Value -> string, render: Rendering, start: seq<Obj>, reqs: seq<Request>, newIds: seq<string>)
    requires |reqs| == |newIds|
    requires Separated(EqualBy(str), start, Calls(EqualBy(str), render, start, reqs, newIds), newIds)
    requires Unforeseen(EqualBy(str), start, MadeUp(reqs), newIds)
    requires true !in Misjudged(EqualBy(str), render, start, reqs, newIds)
    requires forall j | 0 <= j < |newIds| :: !IsPlaceholder(newIds[j])
    requires forall i | 0 <= i < |reqs| :: FilterTextTells(EqualBy(str), render, start, reqs, newIds, i)
    ensures SameIdentities(Pass(EqualBy(str), render, true, start, reqs, newIds, |reqs|).actions,
                           Pass(EqualBy(str), render, false, start, reqs, newIds, |reqs|).actions)
            <==> true !in Losing(EqualBy(str), render, start, reqs, newIds)
  {
    var eq := EqualBy(str);
    var plan := Pass(eq, render, true, start, reqs, newIds, |reqs|).actions;
    var apply := Pass(eq, render, false, start, reqs, newIds, |reqs|).actions;
    var marks, losing := Misjudged(eq, render, start, reqs, newIds), Losing(eq, render, start, reqs, newIds);
    forall i | 0 <= i < |reqs|
      ensures plan[i].identity == apply[i].identity <==> !losing[i]
    {
      assert forall j | 0 <= j < i :: marks[j] in marks;
      IdentityAgreesAtIff(eq, render, start, reqs, newIds, i);
    }
    IdentitiesByMarks(plan, apply, losing);
  }

  lemma IdentitiesByMarks(a: seq<Action>, b: seq<Action>, losing: seq<bool>)
    requires |a| == |b| == |losing|
    requires forall i | 0 <= i < |a| :: a[i].identity == b[i].identity <==> !losing[i]
    ensures SameIdentities(a, b) <==> true !in losing
  {
    assert forall i | 0 <= i < |a| :: losing[i] in losing;
  }

  // ---------------------------------------------------------------- what goes wrong

  /** A desired name that itself starts with "planned-" is announced as a create although the object exists. */
  lemma PlaceholderNameMisleadsThePlan(str: Value -> string, render: Rendering, newId: string)
    ensures var name := VText("planned-site");
            var start := [Created(NamedCall(name, VNone), "17")];
            var reqs := [NamedRequest(name, VNone)];
            && Pass(EqualBy(str), render, true, start, reqs, [newId], 1).actions[0].verb == Create
            && Pass(EqualBy(str), render, false, start, reqs, [newId], 1).actions[0].verb == Noop
  {
    var name := VText("planned-site");
    var c := NamedCall(name, VNone);
    var o := Created(c, "17");
    var reqs := [NamedRequest(name, VNone)];
    ComparisonIsLawful(str);
    NamedCallOf(name, VNone, []);
    NamedStep(EqualBy(str), render, o, name, VNone, newId);
    assert Pass(EqualBy(str), render, false, [o], reqs, [newId], 0) == Progress([o], [], []);
    assert Pass(EqualBy(str), render, true, [o], reqs, [newId], 0) == Progress([o], [], []);
    assert "name" in c.filter && ContainsPlaceholder(c.filter["name"]);
    assert FilterHasPlaceholder(c);
  }

  /** A device, and an interface on it that is recorded under its filter. */
  function DeviceRequest(name: Value): Request {
    Request("dcim.devices", map["name" := Lit(name)], map["name" := Lit(name)], "Device", Some("d"), true, {})
  }

  function InterfaceRequest(name: Value): Request {
    Request("dcim.interfaces", map["device_id" := IdOf(0), "name" := Lit(name)],
            map["device" := IdOf(0), "name" := Lit(name)], "object", None, true, {})
  }

  lemma CreatesFirst(eq: Equality, render: Rendering, plan: bool, name: Value, r: Request, newIds: seq<string>)
    requires |newIds| == 2
    ensures var reqs := [DeviceRequest(name), r];
            var id := if plan then MadeUp(reqs)[0] else newIds[0];
            var s := Pass(eq, render, plan, [], reqs, newIds, 1);
            s.ids == [VText(id)] && |s.actions| == 1 && s.actions[0].verb == Create
  {
    var reqs := [DeviceRequest(name), r];
    assert Pass(eq, render, plan, [], reqs, newIds, 0) == Progress([], [], []);
  }

  lemma InterfaceFilters(iface: Value, x: Value, y: Value)
    requires x != y
    ensures CallOf(InterfaceRequest(iface), [x]).filter != CallOf(InterfaceRequest(iface), [y]).filter
    ensures IdentityIsFilter(CallOf(InterfaceRequest(iface), [x])) && IdentityIsFilter(CallOf(InterfaceRequest(iface), [y]))
  {
    assert CallOf(InterfaceRequest(iface), [x]).filter["device_id"] == x;
    assert CallOf(InterfaceRequest(iface), [y]).filter["device_id"] == y;
  }

  predicate IdentityIsFilter(c: Call) { c.identity.None? }

  lemma InterfaceIdentity(eq: Equality, render: Rendering, plan: bool, name: Value, iface: Value, newIds: seq<string>)
    requires |newIds| == 2
    ensures var reqs := [DeviceRequest(name), InterfaceRequest(iface)];
            Pass(eq, render, plan, [], reqs, newIds, 2).actions[1].identity
            == IdentityOf(render, CallOf(reqs[1], [VText(if plan then MadeUp(reqs)[0] else newIds[0])]))
  {
    var reqs := [DeviceRequest(name), InterfaceRequest(iface)];
    CreatesFirst(eq, render, plan, name, reqs[1], newIds);
    ActionOf(eq, render, plan, [], reqs, newIds, 1);
    var s := Pass(eq, render, plan, [], reqs, newIds, 1);
    RecordsIdentity(eq, render, plan, s.store, CallOf(reqs[1], s.ids), if plan then MadeUp(reqs)[1] else newIds[1]);
  }

  /** An interface on a device the plan creates: the plan's filter, and so its identity, holds the made-up device id. */
  lemma InterfaceOnNewDevice(eq: Equality, render: Rendering, name: Value, iface: Value, newIds: seq<string>)
    requires |newIds| == 2 && !IsPlaceholder(newIds[0])
    requires forall f, g :: TellsApart(render, f, g)
    ensures var reqs := [DeviceRequest(name), InterfaceRequest(iface)];
            Pass(eq, render, true, [], reqs, newIds, 2).actions[1].identity
            != Pass(eq, render, false, [], reqs, newIds, 2).actions[1].identity
  {
    var made := MadeUp([DeviceRequest(name), InterfaceRequest(iface)])[0];
    var r := InterfaceRequest(iface);
    InterfaceIdentity(eq, render, true, name, iface, newIds);
    InterfaceIdentity(eq, render, false, name, iface, newIds);
    InterfaceFilters(iface, VText(made), VText(newIds[0]));
    assert TellsApart(render, CallOf(r, [VText(made)]).filter, CallOf(r, [VText(newIds[0])]).filter);
  }
}
