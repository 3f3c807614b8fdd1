/**
  The reconciler's core: comparing values, `create_or_get` and
  `update_if_needed`, in apply and in plan mode, without snapshot or prefetch
  caches (nautobot/data_loader/load_data.py).

  `str` stands for Python's `str`; the results hold whatever it renders.
*/
module LoadData {
  import opened Prelude
  import opened Text

  datatype Value =
    | VNone
    | VText(s: string)
    | VInt(n: int)
    | VBool(b: bool)
    | VList(items: seq<Value>)
    | VDict(entries: map<string, Value>)
    | VRecord(id: string, labels: map<string, string>)

  // ---------------------------------------------------------------- comparing values

  function LowerCase(s: string): string {
    seq(|s|, i requires 0 <= i < |s| => if 'A' <= s[i] <= 'Z' then s[i] - 'A' + 'a' else s[i])
  }

  function Fold(s: string): string { LowerCase(Strip(s)) }

  /** Order of text by code points. */
  predicate TextLess(a: string, b: string) {
    b != "" && (a == "" || a[0] < b[0] || (a[0] == b[0] && TextLess(a[1..], b[1..])))
  }

  function Insert(str: Value -> string, x: Value, sorted: seq<Value>): seq<Value> {
    if sorted == [] || TextLess(str(x), str(sorted[0])) then [x] + sorted
    else [sorted[0]] + Insert(str, x, sorted[1..])
  }

  function Sort(str: Value -> string, items: seq<Value>): seq<Value> {
    if items == [] then [] else Insert(str, items[0], Sort(str, items[1..]))
  }

  /** `_normalize_for_compare`: records and dicts shrink to an id or value, lists lose their order. */
  function Normalize(str: Value -> string, v: Value): Value {
    match v
    case VRecord(id, _) => VText(id)
    case VDict(entries) =>
      if "id" in entries then entries["id"]
      else if "value" in entries && |entries| <= 2 then entries["value"]
      else VDict(map k | k in entries :: Normalize(str, entries[k]))
    case VList(items) => VList(Sort(str, seq(|items|, i requires 0 <= i < |items| => Normalize(str, items[i]))))
    case _ => v
  }

  const LABELS := {"value", "name", "label", "slug"}

  /** A choice or related object whose value, name, label or slug is the desired text, up to case and outer spaces. */
  predicate LabelMatches(current: Value, desired: string) {
    match current
    case VRecord(_, labels) => exists k :: k in LABELS && k in labels && Fold(labels[k]) == Fold(desired)
    case VDict(entries) => exists k :: k in LABELS && k in entries && entries[k].VText? && Fold(entries[k].s) == Fold(desired)
    case _ => false
  }

  predicate IsEmptyOptional(v: Value) { v == VText("") || v == VList([]) }

  /** Python's `==` takes True for 1 and False for 0, inside lists and dicts as well. */
  function AsNumber(v: Value): Value {
    match v
    case VBool(b) => VInt(if b then 1 else 0)
    case VList(items) => VList(seq(|items|, i requires 0 <= i < |items| => AsNumber(items[i])))
    case VDict(entries) => VDict(map k | k in entries :: AsNumber(entries[k]))
    case _ => v
  }

  /** `_values_equal`. */
  predicate ValuesEqual(str: Value -> string, current: Value, desired: Value) {
    || (current.VNone? && IsEmptyOptional(desired))
    || (desired.VNone? && IsEmptyOptional(current))
    || (desired.VText? && LabelMatches(current, desired.s))
    || var c, d := Normalize(str, current), Normalize(str, desired);
       AsNumber(c) == AsNumber(d) || str(c) == str(d) || (c.VText? && d.VText? && Fold(c.s) == Fold(d.s))
  }

  type Equality = (Value, Value) -> bool

  /** The value comparison as a relation, the only thing the reconciler below asks of values. */
  function EqualBy(str: Value -> string): Equality {
    (current, desired) => ValuesEqual(str, current, desired)
  }

  /** `getattr(rel_obj, "id", rel_obj)`. */
  function IdOrSelf(v: Value): Value {
    if v.VRecord? then VText(v.id) else v
  }

  /** Every value equals itself, and a related object equals what its id equals (unless that is None). */
  ghost predicate Lawful(eq: Equality) {
    && (forall v :: eq(v, v) && eq(IdOrSelf(v), v))
    && (forall v: Value, d: Value | !d.VNone? && eq(IdOrSelf(v), d) :: eq(v, d))
  }

  lemma ComparisonIsLawful(str: Value -> string)
    ensures Lawful(EqualBy(str))
  {
    forall v: Value, d: Value | !d.VNone? && EqualBy(str)(IdOrSelf(v), d)
      ensures EqualBy(str)(v, d)
    {
      if v.VRecord? {
        assert Normalize(str, IdOrSelf(v)) == Normalize(str, v);
        assert !LabelMatches(IdOrSelf(v), if d.VText? then d.s else "");
      }
    }
  }

  // ---------------------------------------------------------------- objects and requests

  /** An inventory object; its id is the attribute "id". */
  datatype Obj = Obj(endpoint: string, attrs: map<string, Value>)

  /** The arguments of one `create_or_get`; no compare keys means all payload keys. */
  datatype Call = Call(endpoint: string, filter: map<string, Value>, data: map<string, Value>,
                       kind: string, identity: Option<string>, updateExisting: bool, compareKeys: set<string>)

  datatype Verb = Create | Update | Noop

  datatype Action = Action(verb: Verb, kind: string, identity: string, fields: set<string>, objectId: Value)

  /** `str(filter_kwargs)`. */
  type Rendering = map<string, Value> -> string

  /** The identity a call is recorded under: its own, or the text of its filter. */
  function IdentityOf(render: Rendering, c: Call): string {
    if c.identity.Some? && c.identity.value != "" then c.identity.value else render(c.filter)
  }

  /** `getattr(obj, key, None)` and `payload.get(key)`. */
  function Get(m: map<string, Value>, k: string): Value {
    if k in m then m[k] else VNone
  }

  function Id(o: Obj): Value { Get(o.attrs, "id") }

  predicate IsRelationKey(k: string) { |k| >= 3 && k[|k| - 3..] == "_id" }

  /** The attribute a filter key looks at: `device` for `device_id`. */
  function AttributeOf(k: string): string {
    if IsRelationKey(k) then k[..|k| - 3] else k
  }

  /** What a filter key sees of an attribute value. */
  function Seen(k: string, v: Value): Value {
    if IsRelationKey(k) then IdOrSelf(v) else v
  }

  function Actual(o: Obj, k: string): Value { Seen(k, Get(o.attrs, AttributeOf(k))) }

  /** `_object_matches_filter` on an object of the endpoint. */
  predicate Matches(eq: Equality, o: Obj, c: Call) {
    o.endpoint == c.endpoint && forall k | k in c.filter :: eq(Actual(o, k), c.filter[k])
  }

  /** Position of the first matching object in server order, the length when there is none. */
  function First(eq: Equality, store: seq<Obj>, c: Call): (p: nat)
    ensures p <= |store|
    ensures forall q | 0 <= q < p :: !Matches(eq, store[q], c)
    ensures p < |store| ==> Matches(eq, store[p], c)
  {
    if store == [] then 0
    else
      var last := |store| - 1;
      var p := First(eq, store[..last], c);
      if p < last || Matches(eq, store[last], c) then p else last + 1
  }

  function Keys(c: Call): set<string> {
    if c.compareKeys == {} then c.data.Keys else c.compareKeys
  }

  /** The fields of `update_if_needed`'s patch. */
  function Diff(eq: Equality, o: Obj, c: Call): set<string> {
    set k | k in Keys(c) && !eq(Get(o.attrs, k), Get(c.data, k))
  }

  function Patched(o: Obj, c: Call, fields: set<string>): Obj {
    o.(attrs := o.attrs + map k | k in fields :: Get(c.data, k))
  }

  /** The object a create makes: the payload as sent, with an id. */
  function Created(c: Call, newId: string): Obj {
    Obj(c.endpoint, map["id" := VText(newId)] + c.data)
  }

  // ---------------------------------------------------------------- one call

  predicate IsPlaceholder(s: string) { "planned-" <= s }

  /** `_contains_planned_placeholder`. */
  predicate ContainsPlaceholder(v: Value) {
    match v
    case VText(s) => IsPlaceholder(s)
    case VList(items) => exists i | 0 <= i < |items| :: ContainsPlaceholder(items[i])
    case VDict(entries) => exists k | k in entries :: ContainsPlaceholder(entries[k])
    case _ => false
  }

  predicate FilterHasPlaceholder(c: Call) {
    exists k | k in c.filter :: ContainsPlaceholder(c.filter[k])
  }

  /** The position `create_or_get` works on, the length when it creates. */
  function Position(eq: Equality, plan: bool, store: seq<Obj>, c: Call): (p: nat)
    ensures p <= |store|
  {
    if plan && FilterHasPlaceholder(c) then |store| else First(eq, store, c)
  }

  datatype Outcome = Outcome(store: seq<Obj>, action: Action, result: Value)

  /** `create_or_get` and, inside it, `update_if_needed`: new store, recorded action, id of the object returned. */
  function Reconciled(eq: Equality, render: Rendering, plan: bool, store: seq<Obj>, c: Call, newId: string): Outcome {
    var p := Position(eq, plan, store, c);
    if p == |store| then
      var o := Created(c, newId);
      Outcome(if plan then store else store + [o], Action(Create, c.kind, IdentityOf(render, c), c.data.Keys, Id(o)), Id(o))
    else if !c.updateExisting then
      Outcome(store, Action(Noop, c.kind, IdentityOf(render, c), {}, VNone), Id(store[p]))
    else
      var fields := Diff(eq, store[p], c);
      if fields == {} then
        Outcome(store, Action(Noop, c.kind, IdentityOf(render, c), {}, Id(store[p])), Id(store[p]))
      else
        var o := if plan then store[p] else Patched(store[p], c, fields);
        Outcome(store[p := o], Action(Update, c.kind, IdentityOf(render, c), fields, Id(o)), Id(o))
  }

  // ---------------------------------------------------------------- a pass over the desired state

  /** A value known in advance, or the id of the object an earlier request returned. */
  datatype Term = Lit(v: Value) | IdOf(k: nat)

  datatype Request = Request(endpoint: string, filter: map<string, Term>, data: map<string, Term>,
                             kind: string, identity: Option<string>, updateExisting: bool, compareKeys: set<string>)

  function Resolve(t: Term, ids: seq<Value>): Value {
    match t
    case Lit(v) => v
    case IdOf(k) => if k < |ids| then ids[k] else VNone
  }

  function ResolveAll(m: map<string, Term>, ids: seq<Value>): map<string, Value> {
    map k | k in m :: Resolve(m[k], ids)
  }

  function CallOf(r: Request, ids: seq<Value>): Call {
    Call(r.endpoint, ResolveAll(r.filter, ids), ResolveAll(r.data, ids), r.kind, r.identity, r.updateExisting, r.compareKeys)
  }

  function Digits(n: nat): string {
    if n < 10 then [(n as char) + '0'] else Digits(n / 10) + [((n % 10) as char) + '0']
  }

  function PlannedId(kind: string, n: nat): string { "planned-" + kind + "-" + Digits(n) }

  datatype Progress = Progress(store: seq<Obj>, actions: seq<Action>, ids: seq<Value>)

  /** The state after the first `n` requests; `newIds` are the ids the server gives out, one for each request that creates. */
  function Pass(eq: Equality, render: Rendering, plan: bool, start: seq<Obj>, reqs: seq<Request>, newIds: seq<string>,
                n: nat): (s: Progress)
    requires n <= |reqs| == |newIds|
    ensures |s.actions| == |s.ids| == n
  {
    if n == 0 then Progress(start, [], [])
    else
      var s := Pass(eq, render, plan, start, reqs, newIds, n - 1);
      var newId := if plan then PlannedId(reqs[n - 1].kind, n) else newIds[n - 1];
      var out := Reconciled(eq, render, plan, s.store, CallOf(reqs[n - 1], s.ids), newId);
      Progress(out.store, s.actions + [out.action], s.ids + [out.result])
  }

  lemma PassUnfolds(eq: Equality, render: Rendering, plan: bool, start: seq<Obj>, reqs: seq<Request>, newIds: seq<string>, i: nat,
                    s: Progress, out: Outcome)
    requires i < |reqs| == |newIds|
    requires s == Pass(eq, render, plan, start, reqs, newIds, i)
    requires out == Reconciled(eq, render, plan, s.store, CallOf(reqs[i], s.ids), if plan then PlannedId(reqs[i].kind, i + 1) else newIds[i])
    ensures Pass(eq, render, plan, start, reqs, newIds, i + 1) == Progress(out.store, s.actions + [out.action], s.ids + [out.result])
  {
  }

  /** The call request `j` makes in an apply pass. */
  function CallAt(eq: Equality, render: Rendering, start: seq<Obj>, reqs: seq<Request>, newIds: seq<string>, j: nat): Call
    requires j < |reqs| == |newIds|
  {
    CallOf(reqs[j], Pass(eq, render, false, start, reqs, newIds, j).ids)
  }

  // ---------------------------------------------------------------- the loader

  class NautobotDataLoader {
    const str: Value -> string
    const render: Rendering
    const isPlan: bool
    /** The inventory's objects, in the order the server lists them. */
    var server: seq<Obj>
    var actions: seq<Action>

    constructor (str: Value -> string, render: Rendering, mode: string, server: seq<Obj>)
      ensures this.str == str && this.render == render && isPlan == (mode == "plan") && this.server == server && actions == []
    {
      this.str, this.render := str, render;
      this.isPlan := mode == "plan";
      this.server := server;
      this.actions := [];
    }

    function Equal(): Equality { EqualBy(str) }

    method ObjectMatchesFilter(o: Obj, filter: map<string, Value>) returns (r: bool)
      ensures r <==> forall k | k in filter :: ValuesEqual(str, Actual(o, k), filter[k])
    {
      var todo := filter.Keys;
      while todo != {}
        invariant todo <= filter.Keys
        invariant forall k | k in filter && k !in todo :: ValuesEqual(str, Actual(o, k), filter[k])
      {
        var k :| k in todo;
        if !ValuesEqual(str, Actual(o, k), filter[k]) { return false; }
        todo := todo - {k};
      }
      return true;
    }

    /** The first object of the endpoint that matches, if any: what `existing[0]` is. */
    method FindExisting(c: Call) returns (p: nat)
      ensures p == First(Equal(), server, c)
    {
      p := 0;
      while p < |server|
        invariant p <= |server|
        invariant forall q | 0 <= q < p :: !Matches(Equal(), server[q], c)
      {
        if server[p].endpoint == c.endpoint {
          var found := ObjectMatchesFilter(server[p], c.filter);
          if found { return; }
        }
        p := p + 1;
      }
    }

    /** Compares the keys with the object at `p`, patches what differs (not in a plan) and records the action. */
    method UpdateIfNeeded(p: nat, c: Call)
      requires p < |server|
      modifies `server, `actions
      ensures var fields := Diff(Equal(), old(server[p]), c);
              var o := if isPlan || fields == {} then old(server[p]) else Patched(old(server[p]), c, fields);
              && server == old(server)[p := o]
              && actions == old(actions) + [Action(if fields == {} then Noop else Update, c.kind, IdentityOf(render, c), fields, Id(o))]
    {
      var fields: set<string> := {};
      var todo := Keys(c);
      while todo != {}
        invariant todo <= Keys(c)
        invariant fields == set k | k in Keys(c) && k !in todo && !Equal()(Get(server[p].attrs, k), Get(c.data, k))
      {
        var k :| k in todo;
        if !ValuesEqual(str, Get(server[p].attrs, k), Get(c.data, k)) {
          fields := fields + {k};
        }
        todo := todo - {k};
      }
      assert fields == Diff(Equal(), server[p], c);
      if fields == {} {
        actions := actions + [Action(Noop, c.kind, IdentityOf(render, c), {}, Id(server[p]))];
        return;
      }
      if !isPlan {
        server := server[p := Patched(server[p], c, fields)];
      }
      actions := actions + [Action(Update, c.kind, IdentityOf(render, c), fields, Id(server[p]))];
    }

    /** `newId` is the id the server would give a new object; a plan makes up its own. */
    method CreateOrGet(c: Call, newId: string) returns (result: Value)
      modifies `server, `actions
      ensures var id := if isPlan then PlannedId(c.kind, |old(actions)| + 1) else newId;
              var out := Reconciled(Equal(), render, isPlan, old(server), c, id);
              && server == out.store
              && actions == old(actions) + [out.action]
              && result == out.result
    {
      var p := |server|;
      if !(isPlan && FilterHasPlaceholder(c)) {
        p := FindExisting(c);
      }
      if p < |server| {
        if c.updateExisting {
          UpdateIfNeeded(p, c);
        } else {
          actions := actions + [Action(Noop, c.kind, IdentityOf(render, c), {}, VNone)];
        }
        return Id(server[p]);
      }
      var o := Created(c, if isPlan then PlannedId(c.kind, |actions| + 1) else newId);
      if !isPlan {
        server := server + [o];
      }
      actions := actions + [Action(Create, c.kind, IdentityOf(render, c), c.data.Keys, Id(o))];
      return Id(o);
    }

    /** A pass over the desired state: the requests in order, each with the ids the earlier ones returned. */
    method Run(reqs: seq<Request>, newIds: seq<string>) returns (ids: seq<Value>)
      requires |reqs| == |newIds|
      requires actions == []
      modifies `server, `actions
      ensures var done := Pass(Equal(), render, isPlan, old(server), reqs, newIds, |reqs|);
              server == done.store && actions == done.actions && ids == done.ids
    {
      ids := [];
      ghost var eq, start := Equal(), server;
      ghost var done := Progress(server, [], []);
      for i := 0 to |reqs|
        invariant done == Progress(server, actions, ids)
        invariant done == Pass(eq, render, isPlan, start, reqs, newIds, i)
      {
        ghost var id := if isPlan then PlannedId(reqs[i].kind, i + 1) else newIds[i];
        ghost var out := Reconciled(eq, render, isPlan, done.store, CallOf(reqs[i], done.ids), id);
        PassUnfolds(eq, render, isPlan, start, reqs, newIds, i, done, out);
        var result := CreateOrGet(CallOf(reqs[i], ids), newIds[i]);
        ids := ids + [result];
        done := Progress(out.store, done.actions + [out.action], done.ids + [out.result]);
      }
    }
  }
}
