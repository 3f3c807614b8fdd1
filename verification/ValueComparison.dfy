/**
  When two values compare equal, told without `_values_equal`, and what that means for a lookup and for an
  update (nautobot/data_loader/load_data.py). Python's `str` leaves text alone and tells numbers apart.
*/
module ValueComparison {
  import opened Prelude
  import opened Text
  import opened LoadData
  import opened ListOrder

  ghost predicate LeavesText(str: Value -> string) {
    forall s :: str(VText(s)) == s
  }

  // ---------------------------------------------------------------- text up to case and outer spaces

  /** The same character, or the two cases of one letter. */
  predicate SameLetter(a: char, b: char) {
    a == b || ('A' <= a <= 'Z' && b == a - 'A' + 'a') || ('A' <= b <= 'Z' && a == b - 'A' + 'a')
  }

  /** Folding forgets outer spaces and case, and nothing else. */
  lemma FoldsAlikeIff(a: string, b: string)
    ensures Fold(a) == Fold(b) <==>
            |Strip(a)| == |Strip(b)| && forall k :: 0 <= k < |Strip(a)| ==> SameLetter(Strip(a)[k], Strip(b)[k])
  {
    var x, y := Strip(a), Strip(b);
    assert |Fold(a)| == |x| && |Fold(b)| == |y|;
    if Fold(a) == Fold(b) {
      forall k | 0 <= k < |x|
        ensures SameLetter(x[k], y[k])
      {
        assert Fold(a)[k] == Fold(b)[k];
      }
    }
  }

  // ---------------------------------------------------------------- scalars

  /** Two texts are equal exactly when they are up to case and outer spaces. */
  lemma TextsEqualIff(str: Value -> string, a: string, b: string)
    requires LeavesText(str)
    ensures EqualBy(str)(VText(a), VText(b)) <==> Fold(a) == Fold(b)
  {
  }

  lemma NumbersEqualIff(str: Value -> string, a: int, b: int)
    requires forall m: int, n: int :: str(VInt(m)) == str(VInt(n)) ==> m == n
    ensures EqualBy(str)(VInt(a), VInt(b)) <==> a == b
  {
  }

  lemma TextEqualsNumberIff(str: Value -> string, s: string, n: int)
    requires LeavesText(str)
    ensures EqualBy(str)(VText(s), VInt(n)) <==> s == str(VInt(n))
    ensures EqualBy(str)(VInt(n), VText(s)) <==> s == str(VInt(n))
  {
  }

  lemma FlagEqualsNumberIff(str: Value -> string, b: bool, n: int)
    requires str(VBool(b)) != str(VInt(n))
    ensures EqualBy(str)(VBool(b), VInt(n)) <==> n == if b then 1 else 0
  {
  }

  lemma FlagsEqualIff(str: Value -> string, a: bool, b: bool)
    requires str(VBool(true)) != str(VBool(false))
    ensures EqualBy(str)(VBool(a), VBool(b)) <==> a == b
  {
  }

  /** An absent value equals the empty text, and the text that `None` renders as. */
  lemma NoneEqualsTextIff(str: Value -> string, s: string)
    requires LeavesText(str)
    ensures EqualBy(str)(VNone, VText(s)) <==> s == "" || s == str(VNone)
    ensures EqualBy(str)(VText(s), VNone) <==> s == "" || s == str(VNone)
  {
  }

  // ---------------------------------------------------------------- related objects and choices

  /** A related object equals its id and each of its labels, up to case and outer spaces, and no other text. */
  lemma RecordEqualsTextIff(str: Value -> string, id: string, labels: map<string, string>, s: string)
    requires LeavesText(str)
    ensures EqualBy(str)(VRecord(id, labels), VText(s)) <==>
            Fold(id) == Fold(s) || exists k :: k in {"value", "name", "label", "slug"} && k in labels && Fold(labels[k]) == Fold(s)
  {
  }

  lemma RecordsEqualIff(str: Value -> string, id: string, labels: map<string, string>, other: string, more: map<string, string>)
    requires LeavesText(str)
    ensures EqualBy(str)(VRecord(id, labels), VRecord(other, more)) <==> Fold(id) == Fold(other)
  {
  }

  /** A choice, a value with a label, equals the text of either. */
  lemma ChoiceEqualsTextIff(str: Value -> string, value: string, text: string, s: string)
    requires LeavesText(str)
    ensures EqualBy(str)(VDict(map["value" := VText(value), "label" := VText(text)]), VText(s)) <==>
            Fold(value) == Fold(s) || Fold(text) == Fold(s)
  {
    var entries := map["value" := VText(value), "label" := VText(text)];
    assert "id" !in entries && |entries| == 2;
    assert Normalize(str, VDict(entries)) == VText(value);
    assert "value" in LABELS && "label" in LABELS;
    assert entries["value"] == VText(value) && entries["label"] == VText(text);
  }

  /** One of the four labels of a mapping is the text, up to case and outer spaces. */
  predicate HasLabel(entries: map<string, Value>, s: string) {
    exists k :: k in {"value", "name", "label", "slug"} && k in entries && entries[k].VText? && Fold(entries[k].s) == Fold(s)
  }

  /** A mapping with an id equals the text of that id or of a label. */
  lemma IdentifiedEqualsTextIff(str: Value -> string, entries: map<string, Value>, id: string, s: string)
    requires LeavesText(str) && "id" in entries && entries["id"] == VText(id)
    ensures EqualBy(str)(VDict(entries), VText(s)) <==> Fold(id) == Fold(s) || HasLabel(entries, s)
  {
    assert Normalize(str, VDict(entries)) == VText(id);
  }

  /** A small mapping with a value stands for it; a larger one equals a text only by a label, or as a whole. */
  lemma MappingEqualsTextIff(str: Value -> string, entries: map<string, Value>, s: string)
    requires LeavesText(str) && "id" !in entries && "value" in entries
    ensures EqualBy(str)(VDict(entries), VText(s)) <==>
            || HasLabel(entries, s)
            || if |entries| <= 2 then Shows(str, entries["value"], s)
               else str(VDict(map k | k in entries :: Normalize(str, entries[k]))) == s
  {
    var d := Normalize(str, VDict(entries));
    assert |entries| <= 2 ==> d == entries["value"];
    assert |entries| > 2 ==> d == VDict(map k | k in entries :: Normalize(str, entries[k]));
  }

  /** The value is the text up to case and outer spaces, or renders as it. */
  predicate Shows(str: Value -> string, v: Value, s: string) {
    if v.VText? then Fold(v.s) == Fold(s) else str(v) == s
  }

  predicate PlainMapping(entries: map<string, Value>) {
    "id" !in entries && "value" !in entries && forall k | k in entries :: entries[k].VText?
  }

  lemma NormalizedMapping(str: Value -> string, entries: map<string, Value>)
    requires PlainMapping(entries)
    ensures Normalize(str, VDict(entries)) == VDict(entries) == AsNumber(VDict(entries))
  {
    assert (map k | k in entries :: Normalize(str, entries[k])) == entries;
    assert (map k | k in entries :: AsNumber(entries[k])) == entries;
  }

  /** Mappings of texts, without id or value, exactly when they are the same, letter for letter. */
  lemma MappingsEqualIff(str: Value -> string, a: map<string, Value>, b: map<string, Value>)
    requires PlainMapping(a) && PlainMapping(b)
    requires str(VDict(a)) == str(VDict(b)) ==> a == b
    ensures EqualBy(str)(VDict(a), VDict(b)) <==> a == b
  {
    NormalizedMapping(str, a);
    NormalizedMapping(str, b);
  }

  // ---------------------------------------------------------------- lists

  function Texts(items: seq<string>): (vs: seq<Value>)
    ensures |vs| == |items| && forall i | 0 <= i < |items| :: vs[i] == VText(items[i])
  {
    seq(|items|, i requires 0 <= i < |items| => VText(items[i]))
  }

  predicate AllText(vs: seq<Value>) {
    forall i | 0 <= i < |vs| :: vs[i].VText?
  }

  lemma {:induction false} InsertKeeps(str: Value -> string, x: Value, s: seq<Value>)
    ensures multiset(Insert(str, x, s)) == multiset([x] + s)
  {
    if s != [] && !TextLess(str(x), str(s[0])) {
      InsertKeeps(str, x, s[1..]);
      assert s == [s[0]] + s[1..];
    }
  }

  /** Sorting neither drops nor adds anything. */
  lemma {:induction false} SortKeeps(str: Value -> string, items: seq<Value>)
    ensures multiset(Sort(str, items)) == multiset(items)
  {
    if items != [] {
      SortKeeps(str, items[1..]);
      InsertKeeps(str, items[0], Sort(str, items[1..]));
      assert items == [items[0]] + items[1..];
    }
  }

  lemma SortedIsText(str: Value -> string, items: seq<Value>)
    requires AllText(items)
    ensures AllText(Sort(str, items))
  {
    SortKeeps(str, items);
    var sorted := Sort(str, items);
    forall i | 0 <= i < |sorted|
      ensures sorted[i].VText?
    {
      assert sorted[i] in multiset(sorted);
      assert sorted[i] in multiset(items);
    }
  }

  lemma NormalizedTexts(str: Value -> string, items: seq<string>)
    ensures Normalize(str, VList(Texts(items))) == VList(Sort(str, Texts(items)))
    ensures Normalized(str, Texts(items)) == Texts(items)
  {
    assert Normalized(str, Texts(items)) == Texts(items);
  }

  lemma NumbersOfTexts(vs: seq<Value>)
    requires AllText(vs)
    ensures AsNumber(VList(vs)) == VList(vs)
  {
    assert seq(|vs|, i requires 0 <= i < |vs| => AsNumber(vs[i])) == vs;
  }

  lemma SameSorted(str: Value -> string, a: seq<string>, b: seq<string>)
    requires EqualBy(str)(VList(Texts(a)), VList(Texts(b)))
    requires forall x, y | AllText(x) && AllText(y) && str(VList(x)) == str(VList(y)) :: x == y
    ensures Sort(str, Texts(a)) == Sort(str, Texts(b))
  {
    NormalizedTexts(str, a);
    NormalizedTexts(str, b);
    SortedIsText(str, Texts(a));
    SortedIsText(str, Texts(b));
    NumbersOfTexts(Sort(str, Texts(a)));
    NumbersOfTexts(Sort(str, Texts(b)));
  }

  /** An absent value equals the empty list and, as no list renders as `None`, no other. */
  lemma NoneEqualsListIff(str: Value -> string, items: seq<Value>)
    requires forall vs :: str(VList(vs)) != str(VNone)
    ensures EqualBy(str)(VNone, VList(items)) <==> items == []
    ensures EqualBy(str)(VList(items), VNone) <==> items == []
  {
    assert Normalize(str, VList(items)).VList?;
  }

  lemma TextsRenderApart(str: Value -> string, a: seq<string>)
    requires LeavesText(str)
    ensures RendersApart(str, multiset(Texts(a)))
  {
    forall x, y | x in multiset(Texts(a)) && y in multiset(Texts(a)) && str(x) == str(y)
      ensures x == y
    {
      assert x in Texts(a) && y in Texts(a);
    }
  }

  /** Lists of texts are equal exactly when they hold the same texts, each as often, letter for letter. */
  lemma TextListsEqualIff(str: Value -> string, a: seq<string>, b: seq<string>)
    requires LeavesText(str)
    requires forall x, y | AllText(x) && AllText(y) && str(VList(x)) == str(VList(y)) :: x == y
    ensures EqualBy(str)(VList(Texts(a)), VList(Texts(b))) <==> multiset(Texts(a)) == multiset(Texts(b))
  {
    if EqualBy(str)(VList(Texts(a)), VList(Texts(b))) {
      SameSorted(str, a, b);
      SortKeeps(str, Texts(a));
      SortKeeps(str, Texts(b));
    } else if multiset(Texts(a)) == multiset(Texts(b)) {
      NormalizedTexts(str, a);
      NormalizedTexts(str, b);
      TextsRenderApart(str, a);
      ListsCompareAsMultisets(str, Texts(a), Texts(b));
      assert false;
    }
  }

  // ---------------------------------------------------------------- lookups

  /** A filter of texts finds an object with those texts, up to case and outer spaces, and no other. */
  lemma TextFilterMatchesIff(str: Value -> string, o: Obj, c: Call)
    requires LeavesText(str)
    requires forall k | k in c.filter :: c.filter[k].VText? && Actual(o, k).VText?
    ensures Matches(EqualBy(str), o, c) <==>
            o.endpoint == c.endpoint && forall k | k in c.filter :: Fold(Actual(o, k).s) == Fold(c.filter[k].s)
  {
    forall k | k in c.filter
      ensures EqualBy(str)(Actual(o, k), c.filter[k]) <==> Fold(Actual(o, k).s) == Fold(c.filter[k].s)
    {
      TextsEqualIff(str, Actual(o, k).s, c.filter[k].s);
    }
  }

  /** A filter on `device_id` looks at the id of the related device. */
  lemma RelationFilterMatchesIff(str: Value -> string, o: Obj, c: Call, base: string, id: string, labels: map<string, string>, s: string)
    requires LeavesText(str)
    requires c.filter == map[base + "_id" := VText(s)] && Get(o.attrs, base) == VRecord(id, labels)
    ensures Matches(EqualBy(str), o, c) <==> o.endpoint == c.endpoint && Fold(id) == Fold(s)
  {
    var k := base + "_id";
    assert k[|k| - 3..] == "_id" && k[..|k| - 3] == base;
    assert Actual(o, k) == VText(id);
    assert k in c.filter && c.filter[k] == VText(s);
    TextsEqualIff(str, id, s);
  }

  // ---------------------------------------------------------------- what an update achieves

  /** The keys a call compares: those it names, or all of the payload when it names none. */
  predicate Compared(c: Call, k: string) {
    if c.compareKeys == {} then k in c.data else k in c.compareKeys
  }

  /** The loader works on the object at `p` and may update it. */
  predicate Updates(eq: Equality, plan: bool, store: seq<Obj>, c: Call, p: nat) {
    c.updateExisting && Position(eq, plan, store, c) == p < |store|
  }

  /**
    A stored text that differs from the payload's, beyond case and outer spaces, is reported in an update and, in an
    apply, replaced; one that does not is left as it is and not reported.
  */
  lemma DifferingTextIsUpdated(str: Value -> string, render: Rendering, plan: bool, store: seq<Obj>, c: Call, newId: string,
                               p: nat, k: string, s: string, d: string)
    requires LeavesText(str)
    requires Updates(EqualBy(str), plan, store, c, p)
    requires Compared(c, k) && Get(c.data, k) == VText(d) && Get(store[p].attrs, k) == VText(s)
    ensures var out := Reconciled(EqualBy(str), render, plan, store, c, newId);
            && (k in out.action.fields <==> Fold(s) != Fold(d))
            && (Fold(s) != Fold(d) ==> out.action.verb == Update)
            && p < |out.store|
            && Get(out.store[p].attrs, k) == VText(if Fold(s) != Fold(d) && !plan then d else s)
  {
    TextsEqualIff(str, s, d);
    assert k in Diff(EqualBy(str), store[p], c) <==> Fold(s) != Fold(d);
  }

  /** After an apply every text compared is the payload's, up to case and outer spaces, where text was stored. */
  lemma AppliedTextsAgree(str: Value -> string, render: Rendering, store: seq<Obj>, c: Call, newId: string, p: nat)
    requires LeavesText(str)
    requires Updates(EqualBy(str), false, store, c, p)
    ensures var out := Reconciled(EqualBy(str), render, false, store, c, newId);
            && p < |out.store|
            && forall k | Compared(c, k) && Get(c.data, k).VText? && Get(store[p].attrs, k).VText? ::
                 Get(out.store[p].attrs, k).VText? && Fold(Get(out.store[p].attrs, k).s) == Fold(Get(c.data, k).s)
  {
    var out := Reconciled(EqualBy(str), render, false, store, c, newId);
    forall k | Compared(c, k) && Get(c.data, k).VText? && Get(store[p].attrs, k).VText?
      ensures Get(out.store[p].attrs, k).VText? && Fold(Get(out.store[p].attrs, k).s) == Fold(Get(c.data, k).s)
    {
      DifferingTextIsUpdated(str, render, false, store, c, newId, p, k, Get(store[p].attrs, k).s, Get(c.data, k).s);
    }
  }

  // ---------------------------------------------------------------- what an action tells

  /** The object is the payload, with the server's id if the payload leaves that open. */
  predicate IsPayload(o: Obj, c: Call, newId: string) {
    && o.endpoint == c.endpoint && o.attrs.Keys == c.data.Keys + {"id"}
    && (forall k | k in c.data :: o.attrs[k] == c.data[k])
    && ("id" !in c.data ==> o.attrs["id"] == VText(newId))
  }

  /** The fields hold the payload's values and the rest is as before. */
  predicate IsPatched(before: Obj, after: Obj, c: Call, fields: set<string>) {
    && after.endpoint == before.endpoint && after.attrs.Keys == before.attrs.Keys + fields
    && (forall k | k in fields :: after.attrs[k] == Get(c.data, k))
    && (forall k | k in before.attrs && k !in fields :: after.attrs[k] == before.attrs[k])
  }

  /** What the recorded action says is what happened to the store: in an apply it is carried out, in a plan nothing is. */
  lemma ActionTellsTheChange(eq: Equality, render: Rendering, plan: bool, store: seq<Obj>, c: Call, newId: string)
    ensures var out := Reconciled(eq, render, plan, store, c, newId);
            var p := Position(eq, plan, store, c);
            && (plan ==> out.store == store)
            && (!plan ==> p < |out.store| && out.result == Id(out.store[p]))
            && out.action.kind == c.kind
            && out.action.identity == (match c.identity case Some(s) => if s != "" then s else render(c.filter) case None => render(c.filter))
            && match out.action.verb
               case Create =>
                 && p == |store| && out.action.fields == c.data.Keys
                 && (!plan ==> |out.store| == |store| + 1 && out.store[..|store|] == store && IsPayload(out.store[|store|], c, newId))
               case Noop => p < |store| && out.action.fields == {} && out.store == store
               case Update =>
                 && p < |store| && c.updateExisting && out.action.fields != {}
                 && (forall k | k in out.action.fields :: Compared(c, k))
                 && |out.store| == |store|
                 && (forall q | 0 <= q < |store| && q != p :: out.store[q] == store[q])
                 && (!plan ==> IsPatched(store[p], out.store[p], c, out.action.fields))
  {
  }
}
