/**
  What an apply pass guarantees: a second pass, or a plan, right after it finds
  nothing to do (nautobot/data_loader/load_data.py).
*/
module Reconcile {
  import opened Prelude
  import opened LoadData

  /** What call `c`, made against the store `start`, leaves behind. */
  function Written(eq: Equality, start: seq<Obj>, c: Call, newId: string): Obj {
    var p := First(eq, start, c);
    if p == |start| then Created(c, newId)
    else if !c.updateExisting || Diff(eq, start[p], c) == {} then start[p]
    else Patched(start[p], c, Diff(eq, start[p], c))
  }

  ghost predicate AtMostOneMatch(eq: Equality, o: Obj, calls: seq<Call>) {
    forall i, j | 0 <= i < |calls| && 0 <= j < |calls| && Matches(eq, o, calls[i]) && Matches(eq, o, calls[j]) :: i == j
  }

  /** The server, not the payload, chooses ids. */
  predicate LeavesIdAlone(c: Call) { "id" !in c.data && "id" !in c.compareKeys }

  /**
    The filters tell the calls apart: what call `i` writes matches filter `i` and no
    other, and no object of the starting store matches two filters.
  */
  ghost predicate Separated(eq: Equality, start: seq<Obj>, calls: seq<Call>, newIds: seq<string>)
    requires |calls| == |newIds|
  {
    && (forall i | 0 <= i < |calls| :: LeavesIdAlone(calls[i]))
    && (forall p | 0 <= p < |start| :: AtMostOneMatch(eq, start[p], calls))
    && (forall i, j | 0 <= i < |calls| && 0 <= j < |calls| ::
          Matches(eq, Written(eq, start, calls[i], newIds[i]), calls[j]) <==> i == j)
  }

  /** The calls of an apply pass, references replaced by the ids that pass obtains. */
  ghost function Calls(eq: Equality, render: Rendering, start: seq<Obj>, reqs: seq<Request>, newIds: seq<string>): (calls: seq<Call>)
    requires |reqs| == |newIds|
    ensures |calls| == |reqs|
  {
    seq(|reqs|, i requires 0 <= i < |reqs| => CallAt(eq, render, start, reqs, newIds, i))
  }

  // ---------------------------------------------------------------- one call

  lemma AnUpdateSettles(eq: Equality, o: Obj, c: Call)
    requires forall v :: eq(v, v)
    ensures Diff(eq, Patched(o, c, Diff(eq, o, c)), c) == {}
  {
    var fields := Diff(eq, o, c);
    var after := Patched(o, c, fields);
    forall k | k in Keys(c)
      ensures eq(Get(after.attrs, k), Get(c.data, k))
    {
      if k in fields {
        assert Get(after.attrs, k) == Get(c.data, k);
      } else {
        assert Get(after.attrs, k) == Get(o.attrs, k);
      }
    }
  }

  lemma ACreateSettles(eq: Equality, c: Call, newId: string)
    requires forall v :: eq(v, v)
    requires LeavesIdAlone(c)
    ensures Diff(eq, Created(c, newId), c) == {}
  {
    forall k | k in Keys(c)
      ensures Get(Created(c, newId).attrs, k) == Get(c.data, k)
    {
      assert k != "id";
    }
  }

  /** One call leaves nothing for itself to change: the same call on what it wrote is a noop. */
  lemma WrittenIsSettled(eq: Equality, start: seq<Obj>, c: Call, newId: string)
    requires forall v :: eq(v, v)
    requires LeavesIdAlone(c)
    ensures c.updateExisting ==> Diff(eq, Written(eq, start, c, newId), c) == {}
  {
    var p := First(eq, start, c);
    if p == |start| {
      ACreateSettles(eq, c, newId);
    } else {
      AnUpdateSettles(eq, start[p], c);
    }
  }

  // ---------------------------------------------------------------- where the objects of a store come from

  ghost predicate ComesFrom(eq: Equality, start: seq<Obj>, c: Call, newId: string, q: nat, o: Obj) {
    o == Written(eq, start, c, newId) && (q < |start| ==> First(eq, start, c) == q)
  }

  /** Object `q` is the one it was at the start, or what one of the first `n` calls wrote. */
  ghost predicate Origin(eq: Equality, start: seq<Obj>, calls: seq<Call>, newIds: seq<string>, n: nat, q: nat, o: Obj)
    requires n <= |calls| == |newIds|
  {
    || (q < |start| && o == start[q])
    || exists j | 0 <= j < n :: ComesFrom(eq, start, calls[j], newIds[j], q, o)
  }

  ghost predicate Traced(eq: Equality, start: seq<Obj>, calls: seq<Call>, newIds: seq<string>, n: nat, store: seq<Obj>)
    requires n <= |calls| == |newIds|
  {
    && |start| <= |store|
    && forall q | 0 <= q < |store| :: Origin(eq, start, calls, newIds, n, q, store[q])
  }

  lemma OriginOfMatch(eq: Equality, start: seq<Obj>, calls: seq<Call>, newIds: seq<string>, n: nat, q: nat, o: Obj,
                      i: nat)
    requires n <= |calls| == |newIds| && i < |calls|
    requires Separated(eq, start, calls, newIds)
    requires Origin(eq, start, calls, newIds, n, q, o)
    ensures Matches(eq, o, calls[i]) ==>
              || (q < |start| && o == start[q])
              || (i < n && ComesFrom(eq, start, calls[i], newIds[i], q, o))
    ensures n <= i && q < |start| ==> (Matches(eq, o, calls[i]) <==> Matches(eq, start[q], calls[i]))
  {
    if !(q < |start| && o == start[q]) {
      var j :| 0 <= j < n && ComesFrom(eq, start, calls[j], newIds[j], q, o);
      if q < |start| {
        assert Matches(eq, start[q], calls[j]);
        assert AtMostOneMatch(eq, start[q], calls);
      }
    }
  }

  /** Earlier calls do not disturb which object call `n` works on. */
  lemma FirstUndisturbed(eq: Equality, start: seq<Obj>, calls: seq<Call>, newIds: seq<string>, n: nat, store: seq<Obj>)
    requires n < |calls| == |newIds|
    requires Separated(eq, start, calls, newIds)
    requires Traced(eq, start, calls, newIds, n, store)
    ensures var p := First(eq, start, calls[n]);
            First(eq, store, calls[n]) == (if p < |start| then p else |store|)
            && (p < |start| ==> store[p] == start[p])
  {
    var c := calls[n];
    forall q | 0 <= q < |store|
      ensures Matches(eq, store[q], c) ==> q < |start| && store[q] == start[q]
      ensures q < |start| ==> (Matches(eq, store[q], c) <==> Matches(eq, start[q], c))
    {
      assert Origin(eq, start, calls, newIds, n, q, store[q]);
      OriginOfMatch(eq, start, calls, newIds, n, q, store[q], n);
    }
  }

  /** One apply step keeps the trace and puts what it wrote at the position it worked on. */
  lemma StepKeepsTrace(eq: Equality, render: Rendering, start: seq<Obj>, calls: seq<Call>, newIds: seq<string>, n: nat, store: seq<Obj>)
    requires n < |calls| == |newIds|
    requires Separated(eq, start, calls, newIds)
    requires Traced(eq, start, calls, newIds, n, store)
    ensures var out := Reconciled(eq, render, false, store, calls[n], newIds[n]);
            var h := First(eq, store, calls[n]);
            && Traced(eq, start, calls, newIds, n + 1, out.store)
            && h < |out.store| && out.store[h] == Written(eq, start, calls[n], newIds[n])
            && |store| <= |out.store|
            && (forall q | 0 <= q < |store| && q != h :: out.store[q] == store[q])
            && out.result == Id(Written(eq, start, calls[n], newIds[n]))
  {
    FirstUndisturbed(eq, start, calls, newIds, n, store);
    var out := Reconciled(eq, render, false, store, calls[n], newIds[n]);
    var h := First(eq, store, calls[n]);
    forall q | 0 <= q < |out.store|
      ensures Origin(eq, start, calls, newIds, n + 1, q, out.store[q])
    {
      if q == h {
        assert ComesFrom(eq, start, calls[n], newIds[n], q, out.store[q]);
      } else {
        assert Origin(eq, start, calls, newIds, n, q, store[q]);
      }
    }
  }

  // ---------------------------------------------------------------- a whole apply pass

  ghost predicate Follows(eq: Equality, render: Rendering, calls: seq<Call>, newIds: seq<string>, stores: seq<seq<Obj>>, i: nat)
    requires i < |calls| == |newIds| == |stores| - 1
  {
    stores[i + 1] == Reconciled(eq, render, false, stores[i], calls[i], newIds[i]).store
  }

  /** The stores an apply pass goes through. */
  ghost predicate IsApplyRun(eq: Equality, render: Rendering, start: seq<Obj>, calls: seq<Call>, newIds: seq<string>,
                             stores: seq<seq<Obj>>) {
    && |calls| == |newIds| == |stores| - 1
    && stores[0] == start
    && forall i | 0 <= i < |calls| :: Follows(eq, render, calls, newIds, stores, i)
  }

  lemma {:induction false} RunIsTraced(eq: Equality, render: Rendering, start: seq<Obj>, calls: seq<Call>, newIds: seq<string>,
                                       stores: seq<seq<Obj>>, n: nat)
    requires IsApplyRun(eq, render, start, calls, newIds, stores) && n <= |calls|
    requires Separated(eq, start, calls, newIds)
    ensures Traced(eq, start, calls, newIds, n, stores[n])
  {
    if n > 0 {
      RunIsTraced(eq, render, start, calls, newIds, stores, n - 1);
      StepKeepsTrace(eq, render, start, calls, newIds, n - 1, stores[n - 1]);
      assert Follows(eq, render, calls, newIds, stores, n - 1);
    }
  }

  /** A later call does not touch what call `j` wrote. */
  lemma LaterCallSpares(eq: Equality, render: Rendering, start: seq<Obj>, calls: seq<Call>, newIds: seq<string>, j: nat, n: nat,
                        store: seq<Obj>, h: nat)
    requires j < n < |calls| == |newIds|
    requires Separated(eq, start, calls, newIds)
    requires Traced(eq, start, calls, newIds, n, store)
    requires h < |store| && store[h] == Written(eq, start, calls[j], newIds[j])
    ensures var after := Reconciled(eq, render, false, store, calls[n], newIds[n]).store;
            h < |after| && after[h] == store[h]
  {
    assert !Matches(eq, store[h], calls[n]);
    StepKeepsTrace(eq, render, start, calls, newIds, n, store);
  }

  /** What call `j` wrote is still there, at the position it worked on, after any later calls. */
  lemma {:induction false} WrittenStays(eq: Equality, render: Rendering, start: seq<Obj>, calls: seq<Call>, newIds: seq<string>,
                                        stores: seq<seq<Obj>>, j: nat, n: nat)
    requires IsApplyRun(eq, render, start, calls, newIds, stores) && j < n <= |calls|
    requires Separated(eq, start, calls, newIds)
    ensures var h := First(eq, stores[j], calls[j]);
            h < |stores[n]| && stores[n][h] == Written(eq, start, calls[j], newIds[j])
    decreases n
  {
    var i := n - 1;
    RunIsTraced(eq, render, start, calls, newIds, stores, i);
    assert Follows(eq, render, calls, newIds, stores, i);
    if j == i {
      StepKeepsTrace(eq, render, start, calls, newIds, i, stores[i]);
    } else {
      WrittenStays(eq, render, start, calls, newIds, stores, j, i);
      LaterCallSpares(eq, render, start, calls, newIds, j, i, stores[i], First(eq, stores[j], calls[j]));
    }
  }

  /** The stores of an apply pass. */
  ghost function Stores(eq: Equality, render: Rendering, start: seq<Obj>, reqs: seq<Request>, newIds: seq<string>): (stores: seq<seq<Obj>>)
    requires |reqs| == |newIds|
    ensures |stores| == |reqs| + 1
  {
    seq(|reqs| + 1, i requires 0 <= i < |reqs| + 1 => Pass(eq, render, false, start, reqs, newIds, i).store)
  }

  lemma PassIsARun(eq: Equality, render: Rendering, start: seq<Obj>, reqs: seq<Request>, newIds: seq<string>)
    requires |reqs| == |newIds|
    ensures IsApplyRun(eq, render, start, Calls(eq, render, start, reqs, newIds), newIds, Stores(eq, render, start, reqs, newIds))
  {
    forall i | 0 <= i < |reqs|
      ensures Follows(eq, render, Calls(eq, render, start, reqs, newIds), newIds, Stores(eq, render, start, reqs, newIds), i)
    {
      var s := Pass(eq, render, false, start, reqs, newIds, i);
      PassUnfolds(eq, render, false, start, reqs, newIds, i, s, Reconciled(eq, render, false, s.store, CallOf(reqs[i], s.ids), newIds[i]));
    }
  }

  lemma PassIsTraced(eq: Equality, render: Rendering, start: seq<Obj>, reqs: seq<Request>, newIds: seq<string>, n: nat)
    requires n <= |reqs| == |newIds|
    requires Separated(eq, start, Calls(eq, render, start, reqs, newIds), newIds)
    ensures Traced(eq, start, Calls(eq, render, start, reqs, newIds), newIds, n, Pass(eq, render, false, start, reqs, newIds, n).store)
  {
    PassIsARun(eq, render, start, reqs, newIds);
    RunIsTraced(eq, render, start, Calls(eq, render, start, reqs, newIds), newIds, Stores(eq, render, start, reqs, newIds), n);
  }

  /** The ids obtained after each number of requests. */
  function IdsOver(eq: Equality, render: Rendering, plan: bool, start: seq<Obj>, reqs: seq<Request>, newIds: seq<string>): (h: seq<seq<Value>>)
    requires |reqs| == |newIds|
    ensures |h| == |reqs| + 1
    ensures forall i | 0 <= i <= |reqs| :: h[i] == Pass(eq, render, plan, start, reqs, newIds, i).ids && |h[i]| == i
  {
    seq(|reqs| + 1, i requires 0 <= i <= |reqs| => Pass(eq, render, plan, start, reqs, newIds, i).ids)
  }

  lemma PassExtends(eq: Equality, render: Rendering, plan: bool, start: seq<Obj>, reqs: seq<Request>, newIds: seq<string>, n: nat)
    requires 0 < n <= |reqs| == |newIds|
    ensures Pass(eq, render, plan, start, reqs, newIds, n).ids[..n - 1] == Pass(eq, render, plan, start, reqs, newIds, n - 1).ids
    ensures Pass(eq, render, plan, start, reqs, newIds, n).actions[..n - 1]
            == Pass(eq, render, plan, start, reqs, newIds, n - 1).actions
  {
  }

  lemma {:induction false} GrowAlong<T>(ids: seq<seq<T>>, m: nat, n: nat)
    requires m <= n < |ids|
    requires forall i | 0 <= i < |ids| :: |ids[i]| == i
    requires forall i | 0 < i < |ids| :: ids[i][..i - 1] == ids[i - 1]
    ensures ids[n][..m] == ids[m]
  {
    if m < n {
      GrowAlong(ids, m, n - 1);
      assert ids[n][..n - 1][..m] == ids[n][..m];
    }
  }

  /** A pass only ever appends to the ids it has obtained. */
  lemma IdsGrow(eq: Equality, render: Rendering, plan: bool, start: seq<Obj>, reqs: seq<Request>, newIds: seq<string>, m: nat, n: nat)
    requires m <= n <= |reqs| == |newIds|
    ensures Pass(eq, render, plan, start, reqs, newIds, n).ids[..m] == Pass(eq, render, plan, start, reqs, newIds, m).ids
  {
    var ids := IdsOver(eq, render, plan, start, reqs, newIds);
    forall i | 0 < i < |ids|
      ensures ids[i][..i - 1] == ids[i - 1]
    {
      PassExtends(eq, render, plan, start, reqs, newIds, i);
    }
    GrowAlong(ids, m, n);
  }

  /** The id a call returned is that of what it wrote. */
  lemma ReturnedIsWritten(eq: Equality, render: Rendering, start: seq<Obj>, reqs: seq<Request>, newIds: seq<string>, j: nat)
    requires j < |reqs| == |newIds|
    requires Separated(eq, start, Calls(eq, render, start, reqs, newIds), newIds)
    ensures Pass(eq, render, false, start, reqs, newIds, j + 1).ids[j] == Id(Written(eq, start, CallAt(eq, render, start, reqs, newIds, j), newIds[j]))
  {
    PassIsTraced(eq, render, start, reqs, newIds, j);
    StepKeepsTrace(eq, render, start, Calls(eq, render, start, reqs, newIds), newIds, j, Pass(eq, render, false, start, reqs, newIds, j).store);
  }

  lemma ReturnedStays(eq: Equality, render: Rendering, start: seq<Obj>, reqs: seq<Request>, newIds: seq<string>, j: nat)
    requires j < |reqs| == |newIds|
    ensures Pass(eq, render, false, start, reqs, newIds, |reqs|).ids[j] == Pass(eq, render, false, start, reqs, newIds, j + 1).ids[j]
  {
    IdsGrow(eq, render, false, start, reqs, newIds, j + 1, |reqs|);
  }

  // ---------------------------------------------------------------- the second pass

  /** In the store an apply pass leaves, the first match of call `i` holds what call `i` wrote. */
  lemma FindsWhatItWrote(eq: Equality, render: Rendering, start: seq<Obj>, calls: seq<Call>, newIds: seq<string>, stores: seq<seq<Obj>>,
                         i: nat)
    requires IsApplyRun(eq, render, start, calls, newIds, stores) && i < |calls|
    requires Separated(eq, start, calls, newIds)
    ensures var done := stores[|calls|];
            var f := First(eq, done, calls[i]);
            f < |done| && done[f] == Written(eq, start, calls[i], newIds[i])
  {
    var done := stores[|calls|];
    var c := calls[i];
    WrittenStays(eq, render, start, calls, newIds, stores, i, |calls|);
    assert Matches(eq, done[First(eq, stores[i], c)], c);
    var f := First(eq, done, c);
    RunIsTraced(eq, render, start, calls, newIds, stores, |calls|);
    assert Origin(eq, start, calls, newIds, |calls|, f, done[f]);
    OriginOfMatch(eq, start, calls, newIds, |calls|, f, done[f], i);
    RunIsTraced(eq, render, start, calls, newIds, stores, i);
    FirstUndisturbed(eq, start, calls, newIds, i, stores[i]);
  }

  lemma SettledCallIsIdle(eq: Equality, render: Rendering, plan: bool, done: seq<Obj>, c: Call, newId: string, o: Obj)
    requires var f := First(eq, done, c); f < |done| && done[f] == o
    requires plan ==> !FilterHasPlaceholder(c)
    requires c.updateExisting ==> Diff(eq, o, c) == {}
    ensures var out := Reconciled(eq, render, plan, done, c, newId);
            out.store == done && out.action.verb == Noop && out.result == Id(o)
  {
  }

  ghost predicate AllNoop(actions: seq<Action>) {
    forall a | a in actions :: a.verb == Noop
  }

  ghost predicate NoPlaceholderFilters(calls: seq<Call>) {
    forall i | 0 <= i < |calls| :: !FilterHasPlaceholder(calls[i])
  }

  lemma SecondStepIsIdle(eq: Equality, render: Rendering, plan: bool, start: seq<Obj>, reqs: seq<Request>, newIds: seq<string>, i: nat,
                         newId: string)
    requires i < |reqs| == |newIds|
    requires forall v :: eq(v, v)
    requires Separated(eq, start, Calls(eq, render, start, reqs, newIds), newIds)
    requires plan ==> NoPlaceholderFilters(Calls(eq, render, start, reqs, newIds))
    ensures var first := Pass(eq, render, false, start, reqs, newIds, |reqs|);
            var out := Reconciled(eq, render, plan, first.store, CallOf(reqs[i], first.ids[..i]), newId);
            out.store == first.store && out.action.verb == Noop && out.result == first.ids[i]
  {
    var c := CallAt(eq, render, start, reqs, newIds, i);
    var calls := Calls(eq, render, start, reqs, newIds);
    assert calls[i] == c;
    IdsGrow(eq, render, false, start, reqs, newIds, i, |reqs|);
    PassIsARun(eq, render, start, reqs, newIds);
    FindsWhatItWrote(eq, render, start, calls, newIds, Stores(eq, render, start, reqs, newIds), i);
    WrittenIsSettled(eq, start, c, newIds[i]);
    SettledCallIsIdle(eq, render, plan, Pass(eq, render, false, start, reqs, newIds, |reqs|).store, c, newId,
                      Written(eq, start, c, newIds[i]));
    ReturnedIsWritten(eq, render, start, reqs, newIds, i);
    ReturnedStays(eq, render, start, reqs, newIds, i);
  }

  /** A state that has done nothing but repeat the first `|p.ids|` results of an earlier pass. */
  ghost predicate Idle(first: Progress, p: Progress) {
    && p.store == first.store
    && |p.ids| <= |first.ids| && p.ids == first.ids[..|p.ids|]
    && AllNoop(p.actions)
  }

  lemma StaysIdle(first: Progress, p: Progress, out: Outcome)
    requires Idle(first, p) && |p.ids| < |first.ids|
    requires out.store == first.store && out.action.verb == Noop && out.result == first.ids[|p.ids|]
    ensures Idle(first, Progress(out.store, p.actions + [out.action], p.ids + [out.result]))
  {
  }

  lemma SecondStepStaysIdle(eq: Equality, render: Rendering, plan: bool, start: seq<Obj>, reqs: seq<Request>, newIds: seq<string>,
                            first: Progress, p: Progress, newId: string)
    requires |p.ids| < |reqs| == |newIds|
    requires forall v :: eq(v, v)
    requires Separated(eq, start, Calls(eq, render, start, reqs, newIds), newIds)
    requires plan ==> NoPlaceholderFilters(Calls(eq, render, start, reqs, newIds))
    requires first == Pass(eq, render, false, start, reqs, newIds, |reqs|)
    requires Idle(first, p)
    ensures var out := Reconciled(eq, render, plan, p.store, CallOf(reqs[|p.ids|], p.ids), newId);
            Idle(first, Progress(out.store, p.actions + [out.action], p.ids + [out.result]))
  {
    SecondStepIsIdle(eq, render, plan, start, reqs, newIds, |p.ids|, newId);
    StaysIdle(first, p, Reconciled(eq, render, plan, p.store, CallOf(reqs[|p.ids|], p.ids), newId));
  }

  lemma {:induction false} SecondPassIsIdle(eq: Equality, render: Rendering, plan: bool, start: seq<Obj>, reqs: seq<Request>,
                                            newIds: seq<string>, first: Progress, again: seq<string>, n: nat)
    requires n <= |reqs| == |newIds| == |again|
    requires forall v :: eq(v, v)
    requires Separated(eq, start, Calls(eq, render, start, reqs, newIds), newIds)
    requires plan ==> NoPlaceholderFilters(Calls(eq, render, start, reqs, newIds))
    requires first == Pass(eq, render, false, start, reqs, newIds, |reqs|)
    ensures Idle(first, Pass(eq, render, plan, first.store, reqs, again, n))
  {
    if n > 0 {
      SecondPassIsIdle(eq, render, plan, start, reqs, newIds, first, again, n - 1);
      SecondStepStaysIdle(eq, render, plan, start, reqs, newIds, first, Pass(eq, render, plan, first.store, reqs, again, n - 1),
                          if plan then PlannedId(reqs[n - 1].kind, n) else again[n - 1]);
    }
  }

  /** Applying is idempotent: a second apply pass over what the first left changes nothing and records only noops. */
  lemma ApplyIsIdempotent(str: Value -> string, render: Rendering, start: seq<Obj>, reqs: seq<Request>, newIds: seq<string>,
                          again: seq<string>)
    requires |reqs| == |newIds| == |again|
    requires Separated(EqualBy(str), start, Calls(EqualBy(str), render, start, reqs, newIds), newIds)
    ensures var first := Pass(EqualBy(str), render, false, start, reqs, newIds, |reqs|);
            var second := Pass(EqualBy(str), render, false, first.store, reqs, again, |reqs|);
            && second.store == first.store
            && second.ids == first.ids
            && AllNoop(second.actions)
  {
    var eq := EqualBy(str);
    ComparisonIsLawful(str);
    SecondPassIsIdle(eq, render, false, start, reqs, newIds, Pass(eq, render, false, start, reqs, newIds, |reqs|), again, |reqs|);
  }

  /** A plan made right after an apply finds nothing to do. */
  lemma PlanAfterApplyIsEmpty(str: Value -> string, render: Rendering, start: seq<Obj>, reqs: seq<Request>, newIds: seq<string>)
    requires |reqs| == |newIds|
    requires Separated(EqualBy(str), start, Calls(EqualBy(str), render, start, reqs, newIds), newIds)
    requires NoPlaceholderFilters(Calls(EqualBy(str), render, start, reqs, newIds))
    ensures var first := Pass(EqualBy(str), render, false, start, reqs, newIds, |reqs|);
            AllNoop(Pass(EqualBy(str), render, true, first.store, reqs, newIds, |reqs|).actions)
  {
    var eq := EqualBy(str);
    ComparisonIsLawful(str);
    SecondPassIsIdle(eq, render, true, start, reqs, newIds, Pass(eq, render, false, start, reqs, newIds, |reqs|), newIds, |reqs|);
  }

  // ---------------------------------------------------------------- a condition on filters and payloads

  /** Every filter value is also in the payload, under the attribute the filter looks at. */
  ghost predicate SelfIdentifying(c: Call) {
    forall k | k in c.filter ::
      AttributeOf(k) in c.data && c.data[AttributeOf(k)] == c.filter[k] && !c.filter[k].VNone?
  }

  ghost predicate FiltersDiffer(eq: Equality, c: Call, d: Call) {
    exists k | k in c.filter :: k in d.filter && !eq(Seen(k, c.filter[k]), d.filter[k])
  }

  /** Calls on different endpoints, or on one endpoint by the same filter keys and with non-matching values. */
  ghost predicate ToldApart(eq: Equality, c: Call, d: Call) {
    c.endpoint == d.endpoint ==> c.filter.Keys == d.filter.Keys && FiltersDiffer(eq, c, d)
  }

  lemma UpdateKeepsIdentity(eq: Equality, o: Obj, c: Call, k: string)
    requires Lawful(eq) && SelfIdentifying(c)
    requires Matches(eq, o, c) && k in c.filter
    ensures Actual(Patched(o, c, Diff(eq, o, c)), k) == Actual(o, k)
  {
    var a := AttributeOf(k);
    assert eq(Seen(k, Get(o.attrs, a)), c.data[a]);
    assert eq(Get(o.attrs, a), c.data[a]);
    assert a !in Diff(eq, o, c);
  }

  /** An update never changes which filters over the same keys an object matches. */
  lemma WrittenMatchesLikeBefore(eq: Equality, start: seq<Obj>, c: Call, newId: string, d: Call)
    requires Lawful(eq) && SelfIdentifying(c)
    requires First(eq, start, c) < |start|
    requires c.endpoint == d.endpoint ==> c.filter.Keys == d.filter.Keys
    ensures Matches(eq, Written(eq, start, c, newId), d) <==> Matches(eq, start[First(eq, start, c)], d)
  {
    var o := start[First(eq, start, c)];
    forall k | k in c.filter
      ensures Actual(Patched(o, c, Diff(eq, o, c)), k) == Actual(o, k)
    {
      UpdateKeepsIdentity(eq, o, c, k);
    }
  }

  lemma CreatedMatches(eq: Equality, c: Call, newId: string, d: Call)
    requires Lawful(eq) && SelfIdentifying(c)
    ensures Matches(eq, Created(c, newId), c)
    ensures ToldApart(eq, c, d) ==> !Matches(eq, Created(c, newId), d)
  {
    forall k | k in c.filter
      ensures Actual(Created(c, newId), k) == Seen(k, c.filter[k])
    {
    }
  }

  /** Requests with pairwise non-matching identity filters are separated. */
  lemma IdentityFiltersSeparate(eq: Equality, start: seq<Obj>, calls: seq<Call>, newIds: seq<string>)
    requires |calls| == |newIds| && Lawful(eq)
    requires forall i | 0 <= i < |calls| :: LeavesIdAlone(calls[i]) && SelfIdentifying(calls[i])
    requires forall i, j | 0 <= i < |calls| && 0 <= j < |calls| && i != j :: ToldApart(eq, calls[i], calls[j])
    requires forall p | 0 <= p < |start| :: AtMostOneMatch(eq, start[p], calls)
    ensures Separated(eq, start, calls, newIds)
  {
    forall i, j | 0 <= i < |calls| && 0 <= j < |calls|
      ensures Matches(eq, Written(eq, start, calls[i], newIds[i]), calls[j]) <==> i == j
    {
      var p := First(eq, start, calls[i]);
      if p == |start| {
        CreatedMatches(eq, calls[i], newIds[i], calls[j]);
      } else {
        assert i != j ==> ToldApart(eq, calls[i], calls[j]);
        WrittenMatchesLikeBefore(eq, start, calls[i], newIds[i], calls[j]);
        assert AtMostOneMatch(eq, start[p], calls);
      }
    }
  }

  // ---------------------------------------------------------------- the conditions are needed

  function NamedRequest(name: Value, description: Value): Request {
    Request("extras.roles", map["name" := Lit(name)], map["name" := Lit(name), "description" := Lit(description)],
            "Role", Some("r"), true, {})
  }

  function NamedCall(name: Value, description: Value): Call {
    Call("extras.roles", map["name" := name], map["name" := name, "description" := description], "Role", Some("r"), true, {})
  }

  lemma NamedCallOf(name: Value, description: Value, ids: seq<Value>)
    ensures CallOf(NamedRequest(name, description), ids) == NamedCall(name, description)
  {
  }

  lemma NamedMatches(eq: Equality, o: Obj, name: Value, description: Value)
    requires forall v :: eq(v, v)
    requires o.endpoint == "extras.roles" && Get(o.attrs, "name") == name
    ensures First(eq, [o], NamedCall(name, description)) == 0
  {
    var c := NamedCall(name, description);
    assert !IsRelationKey("name") by { assert "name"[1..] == "ame"; }
    assert Actual(o, "name") == name;
    assert Matches(eq, o, c);
    assert First(eq, [o], c) == 0;
  }

  lemma NamedDiff(eq: Equality, o: Obj, name: Value, description: Value)
    requires forall v :: eq(v, v)
    requires Get(o.attrs, "name") == name
    ensures Diff(eq, o, NamedCall(name, description)) ==
            if eq(Get(o.attrs, "description"), description) then {} else {"description"}
  {
    var c := NamedCall(name, description);
    assert Keys(c) == {"name", "description"};
    assert "name" !in Diff(eq, o, c);
    assert "description" in Diff(eq, o, c) <==> !eq(Get(o.attrs, "description"), description);
  }

  /** A named call on a store whose one object has the name sets the description exactly when it differs. */
  lemma NamedStep(eq: Equality, render: Rendering, o: Obj, name: Value, description: Value, newId: string)
    requires forall v :: eq(v, v)
    requires o.endpoint == "extras.roles" && Get(o.attrs, "name") == name
    ensures var out := Reconciled(eq, render, false, [o], NamedCall(name, description), newId);
            && out.action.verb == (if eq(Get(o.attrs, "description"), description) then Noop else Update)
            && |out.store| == 1 && out.store[0].endpoint == o.endpoint && Get(out.store[0].attrs, "name") == name
            && Get(out.store[0].attrs, "description") ==
                 if eq(Get(o.attrs, "description"), description) then Get(o.attrs, "description") else description
  {
    NamedMatches(eq, o, name, description);
    NamedDiff(eq, o, name, description);
  }

  /**
    Two requests with one filter and different payloads overwrite each other: a pass over
    what they left updates twice, and leaves it ready for the next pass to do the same.
  */
  lemma ClashingFiltersNeverSettle(eq: Equality, render: Rendering, o: Obj, name: Value, x: Value, y: Value, newIds: seq<string>)
    requires |newIds| == 2
    requires forall v :: eq(v, v)
    requires !eq(x, y) && !eq(y, x)
    requires o.endpoint == "extras.roles" && Get(o.attrs, "name") == name && Get(o.attrs, "description") == y
    ensures var pass := Pass(eq, render, false, [o], [NamedRequest(name, x), NamedRequest(name, y)], newIds, 2);
            && pass.actions[0].verb == Update && pass.actions[1].verb == Update
            && |pass.store| == 1 && pass.store[0].endpoint == o.endpoint
            && Get(pass.store[0].attrs, "name") == name && Get(pass.store[0].attrs, "description") == y
  {
    var reqs := [NamedRequest(name, x), NamedRequest(name, y)];
    assert Pass(eq, render, false, [o], reqs, newIds, 0) == Progress([o], [], []);
    NamedCallOf(name, x, []);
    NamedStep(eq, render, o, name, x, newIds[0]);
    var one := Pass(eq, render, false, [o], reqs, newIds, 1);
    NamedCallOf(name, y, one.ids);
    assert one.store == [one.store[0]];
    NamedStep(eq, render, one.store[0], name, y, newIds[1]);
  }
}
