/**
  The loader's prefetch and filter caches, which must not show
  (nautobot/data_loader/load_data.py).

  `Passes` stands for one endpoint filter: what the server returns for it and the
  loader's own comparison accepts. An endpoint is identified by a name.
*/
module LoaderCache {
  import opened Prelude
  import opened LoadData
  import opened Text
  import opened ListOrder

  type Filter = map<string, Value>
  type FilterKey = map<string, string>

  /** Python's `str`, and the server's own idea of which objects a filter selects. */
  datatype Env = Env(str: Value -> string, serves: (Obj, Filter) -> bool)

  datatype Caches = Caches(server: map<string, seq<Obj>>,
                           prefetch: map<string, Option<seq<Obj>>>,
                           filters: map<(string, FilterKey), seq<Obj>>)

  /** How fetching a whole endpoint turns out. */
  datatype Fetch = AllPages | FirstPage | Unreachable

  const PAGE := 1000

  function Fetched(fetch: Fetch, objs: seq<Obj>): Option<seq<Obj>> {
    match fetch
    case AllPages => Some(objs)
    case FirstPage => Some(if |objs| <= PAGE then objs else objs[..PAGE])
    case Unreachable => None
  }

  function Objects(c: Caches, e: string): seq<Obj> {
    if e in c.server then c.server[e] else []
  }

  /** `_object_matches_filter`. */
  predicate Accepts(env: Env, o: Obj, f: Filter) {
    forall k | k in f :: ValuesEqual(env.str, Actual(o, k), f[k])
  }

  predicate Passes(env: Env, o: Obj, f: Filter) { env.serves(o, f) && Accepts(env, o, f) }

  function Keep(objs: seq<Obj>, p: Obj -> bool): (r: seq<Obj>)
    ensures forall o :: o in r <==> o in objs && p(o)
  {
    if objs == [] then []
    else
      var rest := Keep(objs[..|objs| - 1], p);
      if p(objs[|objs| - 1]) then rest + [objs[|objs| - 1]] else rest
  }

  function Selects(env: Env, f: Filter): Obj -> bool { o => Passes(env, o, f) }

  function Matching(env: Env, f: Filter): Obj -> bool { o => Accepts(env, o, f) }

  function Other(id: Value): Obj -> bool { o => Id(o) != id }

  /** What a query sent to the server now returns. */
  function Live(env: Env, c: Caches, e: string, f: Filter): seq<Obj> {
    Keep(Objects(c, e), Selects(env, f))
  }

  /** `_filter_cache_key`. */
  function KeyOf(env: Env, f: Filter): FilterKey {
    map k | k in f :: env.str(Normalize(env.str, f[k]))
  }

  // ---------------------------------------------------------------- the operations

  /** `_get_prefetched_objects`. */
  function Prefetched(c: Caches, enabled: bool, e: string, fetch: Fetch): (Caches, Option<seq<Obj>>) {
    if !enabled then (c, None)
    else if e in c.prefetch then (c, c.prefetch[e])
    else (c.(prefetch := c.prefetch[e := Fetched(fetch, Objects(c, e))]), Fetched(fetch, Objects(c, e)))
  }

  /** `_cached_live_filter`. */
  function LiveFiltered(env: Env, c: Caches, e: string, f: Filter): (Caches, seq<Obj>) {
    var key := (e, KeyOf(env, f));
    if key in c.filters then (c, c.filters[key])
    else (c.(filters := c.filters[key := Live(env, c, e, f)]), Live(env, c, e, f))
  }

  /** `_clear_filter_cache_for_endpoint`. */
  function Forget(c: Caches, e: string): Caches {
    c.(filters := map key | key in c.filters && key.0 != e :: c.filters[key])
  }

  /** The objects `create_or_get` finds without snapshot: the prefetched ones, else a live query. */
  function Existing(env: Env, c: Caches, enabled: bool, e: string, f: Filter, fetch: Fetch): (Caches, seq<Obj>) {
    var (d, objs) := Prefetched(c, enabled, e, fetch);
    if objs.Some? && Keep(objs.value, Matching(env, f)) != [] then (d, Keep(objs.value, Matching(env, f)))
    else LiveFiltered(env, d, e, f)
  }

  function FirstWithId(objs: seq<Obj>, id: Value): (i: nat)
    ensures i <= |objs|
    ensures forall j | 0 <= j < i :: Id(objs[j]) != id
    ensures i < |objs| ==> Id(objs[i]) == id
  {
    if objs == [] then 0
    else if Id(objs[0]) == id then 0
    else 1 + FirstWithId(objs[1..], id)
  }

  /** The list after `_upsert_prefetch_object`. */
  function Upserted(objs: seq<Obj>, o: Obj): seq<Obj> {
    var i := FirstWithId(objs, Id(o));
    if Id(o).VNone? || i == |objs| then objs + [o] else objs[i := o]
  }

  function Without(objs: seq<Obj>, id: Value): seq<Obj> {
    Keep(objs, Other(id))
  }

  function Upsert(c: Caches, enabled: bool, e: string, o: Obj, fetch: Fetch): Caches {
    var (d, objs) := Prefetched(c, enabled, e, fetch);
    Forget(if objs.None? then d else d.(prefetch := d.prefetch[e := Some(Upserted(objs.value, o))]), e)
  }

  /** `_remove_prefetch_object`: an object without id leaves a prefetching loader's caches as they are. */
  function Remove(c: Caches, enabled: bool, e: string, o: Obj, fetch: Fetch): Caches {
    var (d, objs) := Prefetched(c, enabled, e, fetch);
    if objs.None? then Forget(d, e)
    else if Id(o).VNone? then d
    else Forget(d.(prefetch := d.prefetch[e := Some(Without(objs.value, Id(o)))]), e)
  }

  // ---------------------------------------------------------------- runs

  /**
    `Find` is a lookup by `create_or_get`; the others are its create (on the server and in the caches), the create
    of a plan (in the caches only) and a prune's delete.
  */
  datatype Op =
    | Query(e: string, f: Filter)
    | Find(e: string, f: Filter, fetch: Fetch)
    | Make(e: string, o: Obj, fetch: Fetch)
    | Plan(e: string, o: Obj, fetch: Fetch)
    | Drop(e: string, o: Obj, fetch: Fetch)

  /** The state once the server has done its part. */
  function Served(c: Caches, op: Op): Caches {
    match op
    case Make(e, o, _) => c.(server := c.server[e := Objects(c, e) + [o]])
    case Drop(e, o, _) => c.(server := c.server[e := Without(Objects(c, e), Id(o))])
    case _ => c
  }

  function Step(env: Env, c: Caches, enabled: bool, op: Op): (Caches, seq<Obj>) {
    var d := Served(c, op);
    match op
    case Query(e, f) => LiveFiltered(env, d, e, f)
    case Find(e, f, fetch) => Existing(env, d, enabled, e, f, fetch)
    case Make(e, o, fetch) => (Upsert(d, enabled, e, o, fetch), [])
    case Plan(e, o, fetch) => (Upsert(d, enabled, e, o, fetch), [])
    case Drop(e, o, fetch) => (Remove(d, enabled, e, o, fetch), [])
  }

  function Run(env: Env, c: Caches, enabled: bool, ops: seq<Op>): Caches {
    if ops == [] then c
    else Step(env, Run(env, c, enabled, ops[..|ops| - 1]), enabled, ops[|ops| - 1]).0
  }

  /** Filters that share a cache key select the same objects. */
  ghost predicate Faithful(env: Env, used: set<Filter>) {
    forall f, g | f in used && g in used && KeyOf(env, f) == KeyOf(env, g) ::
      forall o :: Passes(env, o, f) == Passes(env, o, g)
  }

  ghost predicate Uses(used: set<Filter>, op: Op) {
    (op.Query? || op.Find?) ==> op.f in used
  }

  /** While prefetching, only objects with ids are deleted. */
  ghost predicate HasId(enabled: bool, op: Op) { enabled && op.Drop? ==> !Id(op.o).VNone? }

  // ---------------------------------------------------------------- the filter cache

  ghost predicate EntryIsLive(env: Env, c: Caches, used: set<Filter>, e: string, key: FilterKey) {
    (e, key) in c.filters ==>
      exists f :: f in used && KeyOf(env, f) == key && c.filters[(e, key)] == Live(env, c, e, f)
  }

  /** Every cached result is what the server would return now. */
  ghost predicate Coherent(env: Env, c: Caches, used: set<Filter>) {
    forall e, key :: EntryIsLive(env, c, used, e, key)
  }

  lemma {:induction false} KeepAlike(objs: seq<Obj>, p: Obj -> bool, q: Obj -> bool)
    requires forall o | o in objs :: p(o) == q(o)
    ensures Keep(objs, p) == Keep(objs, q)
  {
    if objs != [] {
      KeepAlike(objs[..|objs| - 1], p, q);
    }
  }

  /** A cached live query returns what a live query would return, and keeps the cache coherent. */
  lemma QueryIsLive(env: Env, c: Caches, used: set<Filter>, e: string, f: Filter)
    requires Coherent(env, c, used) && Faithful(env, used) && f in used
    ensures LiveFiltered(env, c, e, f).1 == Live(env, c, e, f)
    ensures Coherent(env, LiveFiltered(env, c, e, f).0, used)
  {
    var key := KeyOf(env, f);
    assert EntryIsLive(env, c, used, e, key);
    if (e, key) in c.filters {
      var g :| g in used && KeyOf(env, g) == key && c.filters[(e, key)] == Live(env, c, e, g);
      KeepAlike(Objects(c, e), Selects(env, g), Selects(env, f));
    } else {
      var d := LiveFiltered(env, c, e, f).0;
      forall e', key'
        ensures EntryIsLive(env, d, used, e', key')
      {
        assert EntryIsLive(env, c, used, e', key');
        if (e', key') == (e, key) {
          assert d.filters[(e, key)] == Live(env, d, e, f);
        }
      }
    }
  }

  /** A change confined to one endpoint, with that endpoint's entries dropped, keeps the cache coherent. */
  lemma ForgettingIsCoherent(env: Env, c: Caches, used: set<Filter>, e: string, d: Caches)
    requires Coherent(env, c, used)
    requires d.filters == Forget(c, e).filters
    requires forall e' | e' != e :: Objects(d, e') == Objects(c, e')
    ensures Coherent(env, d, used)
  {
    forall e', key
      ensures EntryIsLive(env, d, used, e', key)
    {
      assert EntryIsLive(env, c, used, e', key);
      if (e', key) in d.filters {
        var f :| f in used && KeyOf(env, f) == key && c.filters[(e', key)] == Live(env, c, e', f);
        assert d.filters[(e', key)] == Live(env, d, e', f);
      }
    }
  }

  lemma PrefetchIsCoherent(env: Env, c: Caches, used: set<Filter>, enabled: bool, e: string, fetch: Fetch)
    requires Coherent(env, c, used)
    ensures Coherent(env, Prefetched(c, enabled, e, fetch).0, used)
  {
    var d := Prefetched(c, enabled, e, fetch).0;
    forall e', key
      ensures EntryIsLive(env, d, used, e', key)
    {
      assert EntryIsLive(env, c, used, e', key);
      if (e', key) in d.filters {
        var f :| f in used && KeyOf(env, f) == key && c.filters[(e', key)] == Live(env, c, e', f);
        assert d.filters[(e', key)] == Live(env, d, e', f);
      }
    }
  }

  lemma MakeIsCoherent(env: Env, c: Caches, used: set<Filter>, enabled: bool, e: string, o: Obj, fetch: Fetch)
    requires Coherent(env, c, used)
    ensures Coherent(env, Step(env, c, enabled, Make(e, o, fetch)).0, used)
  {
    ForgettingIsCoherent(env, c, used, e, Step(env, c, enabled, Make(e, o, fetch)).0);
  }

  lemma PlanIsCoherent(env: Env, c: Caches, used: set<Filter>, enabled: bool, e: string, o: Obj, fetch: Fetch)
    requires Coherent(env, c, used)
    ensures Coherent(env, Step(env, c, enabled, Plan(e, o, fetch)).0, used)
  {
    ForgettingIsCoherent(env, c, used, e, Step(env, c, enabled, Plan(e, o, fetch)).0);
  }

  lemma DropIsCoherent(env: Env, c: Caches, used: set<Filter>, enabled: bool, e: string, o: Obj, fetch: Fetch)
    requires Coherent(env, c, used)
    requires HasId(enabled, Drop(e, o, fetch))
    ensures Coherent(env, Step(env, c, enabled, Drop(e, o, fetch)).0, used)
  {
    ForgettingIsCoherent(env, c, used, e, Step(env, c, enabled, Drop(e, o, fetch)).0);
  }

  lemma StepKeepsCoherent(env: Env, c: Caches, used: set<Filter>, enabled: bool, op: Op)
    requires Coherent(env, c, used) && Faithful(env, used)
    requires Uses(used, op) && HasId(enabled, op)
    ensures Coherent(env, Step(env, c, enabled, op).0, used)
  {
    match op
    case Query(e, f) => QueryIsLive(env, c, used, e, f);
    case Find(e, f, fetch) =>
      PrefetchIsCoherent(env, c, used, enabled, e, fetch);
      QueryIsLive(env, Prefetched(c, enabled, e, fetch).0, used, e, f);
    case Make(e, o, fetch) => MakeIsCoherent(env, c, used, enabled, e, o, fetch);
    case Plan(e, o, fetch) => PlanIsCoherent(env, c, used, enabled, e, o, fetch);
    case Drop(e, o, fetch) => DropIsCoherent(env, c, used, enabled, e, o, fetch);
  }

  lemma {:induction false} RunKeepsCoherent(env: Env, c: Caches, used: set<Filter>, enabled: bool, ops: seq<Op>)
    requires Coherent(env, c, used) && Faithful(env, used)
    requires forall op | op in ops :: Uses(used, op) && HasId(enabled, op)
    ensures Coherent(env, Run(env, c, enabled, ops), used)
  {
    if ops != [] {
      RunKeepsCoherent(env, c, used, enabled, ops[..|ops| - 1]);
      StepKeepsCoherent(env, Run(env, c, enabled, ops[..|ops| - 1]), used, enabled, ops[|ops| - 1]);
    }
  }

  /** After any creates, planned creates, lookups and deletes, every cached live query equals a live query, on every endpoint. */
  lemma CachedQueryEqualsLiveQuery(env: Env, server: map<string, seq<Obj>>, enabled: bool, ops: seq<Op>,
                                   used: set<Filter>, e: string, f: Filter)
    requires Faithful(env, used) && f in used
    requires forall op | op in ops :: Uses(used, op) && HasId(enabled, op)
    ensures var c := Run(env, Caches(server, map[], map[]), enabled, ops);
            LiveFiltered(env, c, e, f).1 == Live(env, c, e, f)
  {
    RunKeepsCoherent(env, Caches(server, map[], map[]), used, enabled, ops);
    QueryIsLive(env, Run(env, Caches(server, map[], map[]), enabled, ops), used, e, f);
  }

  // ---------------------------------------------------------------- asked once

  lemma FetchedStays(env: Env, c: Caches, op: Op, e: string)
    requires e in c.prefetch
    ensures e in Step(env, c, true, op).0.prefetch
  {
  }

  lemma {:induction false} FetchedStaysOverRuns(env: Env, c: Caches, ops: seq<Op>, e: string)
    requires e in c.prefetch
    ensures e in Run(env, c, true, ops).prefetch
  {
    if ops != [] {
      FetchedStaysOverRuns(env, c, ops[..|ops| - 1], e);
      FetchedStays(env, Run(env, c, true, ops[..|ops| - 1]), ops[|ops| - 1], e);
    }
  }

  /** An endpoint is fetched at most once in a run: whatever a second fetch would give is never seen. */
  lemma FetchedOnce(env: Env, c: Caches, ops: seq<Op>, e: string, first: Fetch, second: Fetch, third: Fetch)
    ensures var d := Run(env, Prefetched(c, true, e, first).0, true, ops);
            Prefetched(d, true, e, second) == Prefetched(d, true, e, third)
  {
    FetchedStaysOverRuns(env, Prefetched(c, true, e, first).0, ops, e);
  }

  ghost predicate Holds(c: Caches, e: string, key: FilterKey, answer: seq<Obj>) {
    (e, key) in c.filters && c.filters[(e, key)] == answer
  }

  lemma StepKeepsAnswer(env: Env, c: Caches, enabled: bool, op: Op, e: string, key: FilterKey, answer: seq<Obj>)
    requires Holds(c, e, key, answer) && (op.e == e ==> op.Query? || op.Find?)
    ensures Holds(Step(env, c, enabled, op).0, e, key, answer)
  {
  }

  lemma {:induction false} AnswerStays(env: Env, c: Caches, enabled: bool, ops: seq<Op>, e: string, key: FilterKey, answer: seq<Obj>)
    requires Holds(c, e, key, answer)
    requires forall op | op in ops && op.e == e :: op.Query? || op.Find?
    ensures Holds(Run(env, c, enabled, ops), e, key, answer)
  {
    if ops != [] {
      AnswerStays(env, c, enabled, ops[..|ops| - 1], e, key, answer);
      StepKeepsAnswer(env, Run(env, c, enabled, ops[..|ops| - 1]), enabled, ops[|ops| - 1], e, key, answer);
    }
  }

  /** A query is sent once until the endpoint's objects change: lookups in between, and changes of other endpoints,
      leave its answer in place, and the server is not asked again. */
  lemma AskedOnce(env: Env, c: Caches, enabled: bool, e: string, f: Filter, ops: seq<Op>, server: map<string, seq<Obj>>)
    requires forall op | op in ops && op.e == e :: op.Query? || op.Find?
    ensures var (d, answer) := LiveFiltered(env, c, e, f);
            LiveFiltered(env, Run(env, d, enabled, ops).(server := server), e, f).1 == answer
  {
    var (d, answer) := LiveFiltered(env, c, e, f);
    AnswerStays(env, d, enabled, ops, e, KeyOf(env, f), answer);
  }

  // ---------------------------------------------------------------- when the cache key is faithful

  lemma KeepOne(o: Obj, p: Obj -> bool)
    ensures Keep([o], p) == if p(o) then [o] else []
  {
    assert [o][..0] == [];
  }

  /** Filters of text values never share a key unless they are equal, as Python's `str` leaves text alone. */
  lemma TextFiltersAreFaithful(env: Env, used: set<Filter>)
    requires forall s :: env.str(VText(s)) == s
    requires forall f: Filter, k | f in used && k in f :: f[k].VText?
    ensures Faithful(env, used)
  {
    forall f, g | f in used && g in used && KeyOf(env, f) == KeyOf(env, g)
      ensures f == g
    {
      assert f.Keys == KeyOf(env, f).Keys == KeyOf(env, g).Keys == g.Keys;
      forall k | k in f
        ensures f[k] == g[k]
      {
        assert KeyOf(env, f)[k] == f[k].s;
        assert KeyOf(env, g)[k] == g[k].s;
      }
    }
  }

  /**
    A filter that shares its key with one already asked gets that one's answer. The number 5 and the
    text "5" share a key, but the stored text " 5" equals only the latter.
  */
  lemma SharedKeyGivesWrongAnswer(env: Env, e: string, o: Obj, f: Filter, g: Filter)
    requires KeyOf(env, f) == KeyOf(env, g)
    requires Passes(env, o, g) && !Passes(env, o, f)
    ensures var asked := LiveFiltered(env, Caches(map[e := [o]], map[], map[]), e, g).0;
            LiveFiltered(env, asked, e, f).1 == [o] && Live(env, asked, e, f) == []
  {
    KeepOne(o, Selects(env, f));
    KeepOne(o, Selects(env, g));
  }

  lemma NumberAndTextShareKey(env: Env, o: Obj)
    requires forall x, f :: env.serves(x, f)
    requires env.str(VInt(5)) == "5" && forall s :: env.str(VText(s)) == s
    requires Get(o.attrs, "vid") == VText(" 5")
    ensures var f, g := map["vid" := VInt(5)], map["vid" := VText("5")];
            KeyOf(env, f) == KeyOf(env, g) && Passes(env, o, g) && !Passes(env, o, f)
  {
    var f, g := map["vid" := VInt(5)], map["vid" := VText("5")];
    assert Actual(o, "vid") == VText(" 5") by { assert !IsRelationKey("vid"); }
    assert Fold(" 5") == Fold("5") by { assert Strip(" 5") == "5" == Strip("5"); }
    assert !ValuesEqual(env.str, VText(" 5"), VInt(5)) by { assert " 5"[0] == ' '; }
    assert "vid" in f;
  }

  /** A related object and the text of its id share a key, and so do lists that differ in order alone. */
  lemma RecordAndIdShareKey(env: Env, k: string, id: string, labels: map<string, string>)
    ensures KeyOf(env, map[k := VRecord(id, labels)]) == KeyOf(env, map[k := VText(id)])
  {
  }

  lemma ReorderedListsShareKey(env: Env, k: string, a: seq<Value>, b: seq<Value>)
    requires multiset(Normalized(env.str, a)) == multiset(Normalized(env.str, b))
    requires RendersApart(env.str, multiset(Normalized(env.str, a)))
    ensures KeyOf(env, map[k := VList(a)]) == KeyOf(env, map[k := VList(b)])
  {
    SortIgnoresOrder(env.str, Normalized(env.str, a), Normalized(env.str, b));
    assert Normalize(env.str, VList(a)) == VList(Sort(env.str, Normalized(env.str, a)));
    assert Normalize(env.str, VList(b)) == VList(Sort(env.str, Normalized(env.str, b)));
  }

  /** Where only the first page could be fetched, a match on it hides all matches beyond it. */
  lemma FirstPageHidesTheRest(env: Env, c: Caches, e: string, f: Filter, o: Obj, i: nat)
    requires e !in c.prefetch && i < 1000 < |Objects(c, e)| && Objects(c, e)[i] == o && Accepts(env, o, f)
    ensures var found := Existing(env, c, true, e, f, FirstPage).1;
            o in found && forall x | x in found :: x in Objects(c, e)[..1000] && Accepts(env, x, f)
  {
    assert Objects(c, e)[..1000][i] == o;
    assert o in Keep(Objects(c, e)[..1000], Matching(env, f));
  }

  lemma {:induction false} NothingKept(objs: seq<Obj>, p: Obj -> bool)
    requires forall o | o in objs :: !p(o)
    ensures Keep(objs, p) == []
  {
    if objs != [] { NothingKept(objs[..|objs| - 1], p); }
  }

  /** Without a match on it the server is asked, so the others are still found. */
  lemma BeyondFirstPageIsAsked(env: Env, c: Caches, e: string, f: Filter)
    requires e !in c.prefetch && (e, KeyOf(env, f)) !in c.filters && |Objects(c, e)| > 1000
    requires forall i | 0 <= i < 1000 :: !Accepts(env, Objects(c, e)[i], f)
    ensures Existing(env, c, true, e, f, FirstPage).1 == Live(env, c, e, f)
  {
    var page := Objects(c, e)[..1000];
    assert forall x :: x in page ==> !Accepts(env, x, f);
    NothingKept(page, Matching(env, f));
  }

  lemma {:induction false} KeepWithin(objs: seq<Obj>, p: Obj -> bool, q: Obj -> bool)
    requires forall o | o in objs && p(o) :: q(o)
    ensures Keep(Keep(objs, q), p) == Keep(objs, p)
  {
    if objs != [] {
      var last := objs[|objs| - 1];
      KeepWithin(objs[..|objs| - 1], p, q);
      var rest := Keep(objs[..|objs| - 1], q);
      assert (rest + [last])[..|rest|] == rest;
    }
  }

  /** The deleted object has no id and the endpoint's list is there to take it from. */
  predicate ReturnsEarly(c: Caches, enabled: bool, e: string, o: Obj, fetch: Fetch) {
    Id(o).VNone? && Prefetched(Served(c, Drop(e, o, fetch)), enabled, e, fetch).1.Some?
  }

  /** After a delete a cached answer is still right, unless the delete returns early and the answer holds objects without id. */
  lemma DeleteShowsIff(env: Env, c: Caches, enabled: bool, e: string, o: Obj, fetch: Fetch, f: Filter)
    requires (e, KeyOf(env, f)) in c.filters && c.filters[(e, KeyOf(env, f))] == Live(env, c, e, f)
    ensures var after := Step(env, c, enabled, Drop(e, o, fetch)).0;
            LiveFiltered(env, after, e, f).1 == Live(env, after, e, f) <==>
            !(ReturnsEarly(c, enabled, e, o, fetch) && exists x :: x in Live(env, c, e, f) && Id(x).VNone?)
  {
    var after := Step(env, c, enabled, Drop(e, o, fetch)).0;
    if ReturnsEarly(c, enabled, e, o, fetch) {
      assert Objects(after, e) == Without(Objects(c, e), VNone);
      if x :| x in Live(env, c, e, f) && Id(x).VNone? {
        assert x !in Live(env, after, e, f);
      } else {
        KeepWithin(Objects(c, e), Selects(env, f), Other(VNone));
      }
    }
  }

  /** So the cached answer can still hold the deleted object. */
  lemma DroppingWithoutIdGoesStale(env: Env, e: string, o: Obj, f: Filter)
    requires Id(o).VNone? && Passes(env, o, f)
    ensures var asked := LiveFiltered(env, Caches(map[e := [o]], map[], map[]), e, f).0;
            var after := Step(env, asked, true, Drop(e, o, AllPages)).0;
            LiveFiltered(env, after, e, f).1 != Live(env, after, e, f)
  {
    var asked := LiveFiltered(env, Caches(map[e := [o]], map[], map[]), e, f).0;
    assert o in Live(env, asked, e, f);
    DeleteShowsIff(env, asked, true, e, o, AllPages, f);
  }

  // ---------------------------------------------------------------- the prefetched lists

  ghost predicate DistinctIds(objs: seq<Obj>) {
    && (forall o | o in objs :: !Id(o).VNone?)
    && (forall i, j | 0 <= i < j < |objs| :: Id(objs[i]) != Id(objs[j]))
  }

  /** The prefetched list of an endpoint, if any, is the server's. */
  ghost predicate MirrorsAt(c: Caches, e: string) {
    && DistinctIds(Objects(c, e))
    && (e in c.prefetch && c.prefetch[e].Some? ==> c.prefetch[e].value == Objects(c, e))
  }

  /** Whatever is prefetched is what the server has, in the server's order. */
  ghost predicate Mirrors(c: Caches, enabled: bool) {
    && (!enabled ==> c.prefetch == map[])
    && forall e :: MirrorsAt(c, e)
  }

  /** A fetch, if there is one, gets everything or fails: a single page is enough when it holds all objects. */
  ghost predicate Whole(c: Caches, enabled: bool, e: string, fetch: Fetch) {
    enabled && e !in c.prefetch && fetch.FirstPage? ==> |Objects(c, e)| <= PAGE
  }

  /** In apply mode: the server gives a new object an id of its own, and fetching gets everything or fails. */
  ghost predicate Orderly(c: Caches, enabled: bool, op: Op) {
    && (op.Make? ==> !Id(op.o).VNone? && forall x | x in Objects(c, op.e) :: Id(x) != Id(op.o))
    && (!op.Query? ==> Whole(Served(c, op), enabled, op.e, op.fetch))
    && !op.Plan?
    && HasId(enabled, op)
  }

  lemma {:induction false} NotYetThere(objs: seq<Obj>, o: Obj)
    requires !Id(o).VNone? && forall x | x in objs :: Id(x) != Id(o)
    ensures FirstWithId(objs, Id(o)) == |objs|
    ensures Upserted(objs, o) == objs + [o] == Upserted(objs + [o], o)
  {
    assert FirstWithId(objs + [o], Id(o)) == |objs| by {
      assert (objs + [o])[|objs|] == o;
    }
  }

  lemma {:induction false} KeepAll(objs: seq<Obj>, p: Obj -> bool)
    requires forall o | o in objs :: p(o)
    ensures Keep(objs, p) == objs
  {
    if objs != [] {
      KeepAll(objs[..|objs| - 1], p);
    }
  }

  lemma {:induction false} KeepDistinct(objs: seq<Obj>, p: Obj -> bool)
    requires DistinctIds(objs)
    ensures DistinctIds(Keep(objs, p))
  {
    if objs != [] {
      var front := objs[..|objs| - 1];
      KeepDistinct(front, p);
      var rest := Keep(front, p);
      forall i | 0 <= i < |rest|
        ensures Id(rest[i]) != Id(objs[|objs| - 1])
      {
        assert rest[i] in front;
      }
    }
  }

  /** A change confined to one endpoint. */
  lemma ElsewhereUnchanged(c: Caches, enabled: bool, d: Caches, e: string)
    requires Mirrors(c, enabled)
    requires !enabled ==> d.prefetch == map[]
    requires MirrorsAt(d, e)
    requires forall e' | e' != e :: Objects(d, e') == Objects(c, e')
    requires forall e' | e' != e && e' in d.prefetch :: e' in c.prefetch && d.prefetch[e'] == c.prefetch[e']
    ensures Mirrors(d, enabled)
  {
    forall e'
      ensures MirrorsAt(d, e')
    {
      assert MirrorsAt(c, e');
    }
  }

  lemma MakeMirrors(env: Env, c: Caches, enabled: bool, e: string, o: Obj, fetch: Fetch)
    requires Mirrors(c, enabled) && Orderly(c, enabled, Make(e, o, fetch))
    ensures Mirrors(Step(env, c, enabled, Make(e, o, fetch)).0, enabled)
  {
    var d := Step(env, c, enabled, Make(e, o, fetch)).0;
    NotYetThere(Objects(c, e), o);
    assert MirrorsAt(c, e);
    assert Objects(d, e) == Objects(c, e) + [o];
    assert DistinctIds(Objects(d, e));
    ElsewhereUnchanged(c, enabled, d, e);
  }

  lemma WithoutTwice(objs: seq<Obj>, id: Value)
    ensures Without(Without(objs, id), id) == Without(objs, id)
    ensures DistinctIds(objs) ==> DistinctIds(Without(objs, id))
  {
    KeepAll(Without(objs, id), Other(id));
    if DistinctIds(objs) {
      KeepDistinct(objs, Other(id));
    }
  }

  lemma DropMirrors(env: Env, c: Caches, enabled: bool, e: string, o: Obj, fetch: Fetch)
    requires Mirrors(c, enabled) && Orderly(c, enabled, Drop(e, o, fetch))
    ensures Mirrors(Step(env, c, enabled, Drop(e, o, fetch)).0, enabled)
  {
    var d := Step(env, c, enabled, Drop(e, o, fetch)).0;
    WithoutTwice(Objects(c, e), Id(o));
    assert MirrorsAt(c, e);
    assert Objects(d, e) == Without(Objects(c, e), Id(o));
    ElsewhereUnchanged(c, enabled, d, e);
  }

  lemma FindMirrors(env: Env, c: Caches, enabled: bool, e: string, f: Filter, fetch: Fetch)
    requires Mirrors(c, enabled) && Whole(c, enabled, e, fetch)
    ensures Mirrors(Existing(env, c, enabled, e, f, fetch).0, enabled)
  {
    var d := Prefetched(c, enabled, e, fetch).0;
    assert MirrorsAt(c, e);
    ElsewhereUnchanged(c, enabled, d, e);
    QueryMirrors(env, d, enabled, e, f);
  }

  lemma QueryMirrors(env: Env, c: Caches, enabled: bool, e: string, f: Filter)
    requires Mirrors(c, enabled)
    ensures Mirrors(LiveFiltered(env, c, e, f).0, enabled)
  {
    assert MirrorsAt(c, e);
    ElsewhereUnchanged(c, enabled, LiveFiltered(env, c, e, f).0, e);
  }

  lemma StepMirrors(env: Env, c: Caches, enabled: bool, op: Op)
    requires Mirrors(c, enabled) && Orderly(c, enabled, op)
    ensures Mirrors(Step(env, c, enabled, op).0, enabled)
  {
    match op
    case Query(e, f) => QueryMirrors(env, c, enabled, e, f);
    case Find(e, f, fetch) => FindMirrors(env, c, enabled, e, f, fetch);
    case Make(e, o, fetch) => MakeMirrors(env, c, enabled, e, o, fetch);
    case Drop(e, o, fetch) => DropMirrors(env, c, enabled, e, o, fetch);
  }

  /** `create_or_get` finds, through both caches, exactly the matching objects in server order. */
  lemma FindIsAScan(env: Env, c: Caches, used: set<Filter>, enabled: bool, e: string, f: Filter, fetch: Fetch)
    requires Coherent(env, c, used) && Faithful(env, used) && f in used
    requires Mirrors(c, enabled) && Whole(c, enabled, e, fetch)
    requires forall o :: Accepts(env, o, f) ==> env.serves(o, f)
    ensures Existing(env, c, enabled, e, f, fetch).1 == Keep(Objects(c, e), Matching(env, f))
  {
    var (d, objs) := Prefetched(c, enabled, e, fetch);
    PrefetchIsCoherent(env, c, used, enabled, e, fetch);
    QueryIsLive(env, d, used, e, f);
    KeepAlike(Objects(c, e), Selects(env, f), Matching(env, f));
    assert MirrorsAt(c, e);
    assert Live(env, d, e, f) == Live(env, c, e, f);
  }

  ghost predicate OrderlyRun(env: Env, c: Caches, enabled: bool, ops: seq<Op>) {
    forall i | 0 <= i < |ops| :: Orderly(Run(env, c, enabled, ops[..i]), enabled, ops[i])
  }

  lemma {:induction false} RunMirrors(env: Env, c: Caches, enabled: bool, ops: seq<Op>)
    requires Mirrors(c, enabled) && OrderlyRun(env, c, enabled, ops)
    ensures Mirrors(Run(env, c, enabled, ops), enabled)
  {
    if ops != [] {
      var front := ops[..|ops| - 1];
      forall i | 0 <= i < |front|
        ensures Orderly(Run(env, c, enabled, front[..i]), enabled, front[i])
      {
        assert front[..i] == ops[..i];
      }
      RunMirrors(env, c, enabled, front);
      StepMirrors(env, Run(env, c, enabled, front), enabled, ops[|ops| - 1]);
    }
  }

  /** Over any run of an apply from empty caches, lookups behave as if there were no caches. */
  lemma CachesDoNotShow(env: Env, server: map<string, seq<Obj>>, enabled: bool, ops: seq<Op>, used: set<Filter>,
                        e: string, f: Filter, fetch: Fetch)
    requires Faithful(env, used) && f in used
    requires forall op | op in ops :: Uses(used, op)
    requires Whole(Run(env, Caches(server, map[], map[]), enabled, ops), enabled, e, fetch)
    requires forall o :: Accepts(env, o, f) ==> env.serves(o, f)
    requires (forall e :: DistinctIds(Objects(Caches(server, map[], map[]), e))) && OrderlyRun(env, Caches(server, map[], map[]), enabled, ops)
    ensures var c := Run(env, Caches(server, map[], map[]), enabled, ops);
            Existing(env, c, enabled, e, f, fetch).1 == Keep(Objects(c, e), Matching(env, f))
  {
    var c := Caches(server, map[], map[]);
    forall op | op in ops
      ensures HasId(enabled, op)
    {
      var i :| 0 <= i < |ops| && ops[i] == op;
      assert Orderly(Run(env, c, enabled, ops[..i]), enabled, ops[i]);
    }
    RunKeepsCoherent(env, c, used, enabled, ops);
    assert forall e :: MirrorsAt(c, e);
    RunMirrors(env, c, enabled, ops);
    FindIsAScan(env, Run(env, c, enabled, ops), used, enabled, e, f, fetch);
  }

  // ---------------------------------------------------------------- the loader's caches

  class LoaderCache {
    const env: Env
    const prefetchEnabled: bool
    var server: map<string, seq<Obj>>
    var prefetchCache: map<string, Option<seq<Obj>>>
    var filterCache: map<(string, FilterKey), seq<Obj>>

    function State(): Caches
      reads this
    {
      Caches(server, prefetchCache, filterCache)
    }

    constructor (env: Env, prefetchEnabled: bool, server: map<string, seq<Obj>>)
      ensures this.env == env && this.prefetchEnabled == prefetchEnabled
      ensures State() == Caches(server, map[], map[])
    {
      this.env, this.prefetchEnabled := env, prefetchEnabled;
      this.server, this.prefetchCache, this.filterCache := server, map[], map[];
    }

    /** A list comprehension over objects. */
    static method Comprehension(objs: seq<Obj>, p: Obj -> bool) returns (r: seq<Obj>)
      ensures r == Keep(objs, p)
    {
      r := [];
      for i := 0 to |objs|
        invariant r == Keep(objs[..i], p)
      {
        assert objs[..i + 1][..i] == objs[..i];
        if p(objs[i]) {
          r := r + [objs[i]];
        }
      }
      assert objs[..|objs|] == objs;
    }

    method GetPrefetchedObjects(e: string, fetch: Fetch) returns (objs: Option<seq<Obj>>)
      modifies `prefetchCache
      ensures (State(), objs) == Prefetched(old(State()), prefetchEnabled, e, fetch)
    {
      if !prefetchEnabled { return None; }
      if e in prefetchCache { return prefetchCache[e]; }
      objs := Fetched(fetch, Objects(State(), e));
      prefetchCache := prefetchCache[e := objs];
    }

    method CachedLiveFilter(e: string, f: Filter) returns (results: seq<Obj>)
      modifies `filterCache
      ensures (State(), results) == LiveFiltered(env, old(State()), e, f)
    {
      var key := (e, KeyOf(env, f));
      if key in filterCache { return filterCache[key]; }
      results := Comprehension(Objects(State(), e), Selects(env, f));
      filterCache := filterCache[key := results];
    }

    method CachedFilter(e: string, f: Filter, fetch: Fetch) returns (results: Option<seq<Obj>>)
      modifies `prefetchCache
      ensures var (c, objs) := Prefetched(old(State()), prefetchEnabled, e, fetch);
              State() == c && results == if objs.None? then None else Some(Keep(objs.value, Matching(env, f)))
    {
      var objs := GetPrefetchedObjects(e, fetch);
      if objs.None? { return None; }
      var kept := Comprehension(objs.value, Matching(env, f));
      results := Some(kept);
    }

    /** The lookup in `create_or_get`. */
    method FindExisting(e: string, f: Filter, fetch: Fetch) returns (existing: seq<Obj>)
      modifies `prefetchCache, `filterCache
      ensures (State(), existing) == Existing(env, old(State()), prefetchEnabled, e, f, fetch)
    {
      var cached := CachedFilter(e, f, fetch);
      if cached.Some? && cached.value != [] { return cached.value; }
      existing := CachedLiveFilter(e, f);
    }

    method ClearFilterCacheForEndpoint(e: string)
      modifies `filterCache
      ensures State() == Forget(old(State()), e)
    {
      filterCache := map key | key in filterCache && key.0 != e :: filterCache[key];
    }

    method UpsertPrefetchObject(e: string, o: Obj, fetch: Fetch)
      modifies `prefetchCache, `filterCache
      ensures State() == Upsert(old(State()), prefetchEnabled, e, o, fetch)
    {
      var objs := GetPrefetchedObjects(e, fetch);
      if objs.None? {
        ClearFilterCacheForEndpoint(e);
        return;
      }
      if Id(o).VNone? {
        prefetchCache := prefetchCache[e := Some(objs.value + [o])];
        ClearFilterCacheForEndpoint(e);
        return;
      }
      var i := 0;
      while i < |objs.value|
        invariant i <= |objs.value|
        invariant forall j | 0 <= j < i :: Id(objs.value[j]) != Id(o)
      {
        if Id(objs.value[i]) == Id(o) {
          prefetchCache := prefetchCache[e := Some(objs.value[i := o])];
          ClearFilterCacheForEndpoint(e);
          return;
        }
        i := i + 1;
      }
      prefetchCache := prefetchCache[e := Some(objs.value + [o])];
      ClearFilterCacheForEndpoint(e);
    }

    method RemovePrefetchObject(e: string, o: Obj, fetch: Fetch)
      modifies `prefetchCache, `filterCache
      ensures State() == Remove(old(State()), prefetchEnabled, e, o, fetch)
    {
      var objs := GetPrefetchedObjects(e, fetch);
      if objs.None? {
        ClearFilterCacheForEndpoint(e);
        return;
      }
      if Id(o).VNone? { return; }
      var left := Comprehension(objs.value, Other(Id(o)));
      prefetchCache := prefetchCache[e := Some(left)];
      ClearFilterCacheForEndpoint(e);
    }

    /** The create in `create_or_get`: the server's, then the caches'. */
    method Create(e: string, o: Obj, fetch: Fetch)
      modifies this
      ensures State() == Step(env, old(State()), prefetchEnabled, Make(e, o, fetch)).0
    {
      server := server[e := Objects(State(), e) + [o]];
      UpsertPrefetchObject(e, o, fetch);
    }

    /** A delete as every prune does it: the server's, then the caches'. */
    method Delete(e: string, o: Obj, fetch: Fetch)
      modifies this
      ensures State() == Step(env, old(State()), prefetchEnabled, Drop(e, o, fetch)).0
    {
      server := server[e := Without(Objects(State(), e), Id(o))];
      RemovePrefetchObject(e, o, fetch);
    }
  }
}
