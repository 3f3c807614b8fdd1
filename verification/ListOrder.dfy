/** Comparing lists: `_values_equal` does not see the order of a list (nautobot/data_loader/load_data.py). */
module ListOrder {
  import opened LoadData

  lemma {:induction false} TextOrderIsTotal(a: string, b: string)
    ensures TextLess(a, b) || a == b || TextLess(b, a)
    ensures !(TextLess(a, b) && TextLess(b, a))
  {
    if a != "" && b != "" && a[0] == b[0] {
      TextOrderIsTotal(a[1..], b[1..]);
      if a[1..] == b[1..] {
        assert a == [a[0]] + a[1..] && b == [b[0]] + b[1..];
      }
    }
  }

  lemma {:induction false} TextOrderIsTransitive(a: string, b: string, c: string)
    requires TextLess(a, b) && TextLess(b, c)
    ensures TextLess(a, c)
  {
    if a != "" && a[0] == b[0] == c[0] {
      TextOrderIsTransitive(a[1..], b[1..], c[1..]);
    }
  }

  /** Values that render alike are alike. */
  ghost predicate RendersApart(str: Value -> string, items: multiset<Value>) {
    forall x, y | x in items && y in items && str(x) == str(y) :: x == y
  }

  lemma {:induction false} InsertCommutes(str: Value -> string, x: Value, y: Value, s: seq<Value>)
    requires TextLess(str(x), str(y))
    ensures Insert(str, x, Insert(str, y, s)) == Insert(str, y, Insert(str, x, s))
  {
    TextOrderIsTotal(str(x), str(y));
    if s != [] {
      if TextLess(str(y), str(s[0])) {
        TextOrderIsTransitive(str(x), str(y), str(s[0]));
      } else if !TextLess(str(x), str(s[0])) {
        InsertCommutes(str, x, y, s[1..]);
      }
    }
  }

  lemma InsertSwaps(str: Value -> string, x: Value, y: Value, s: seq<Value>)
    requires str(x) == str(y) ==> x == y
    ensures Insert(str, x, Insert(str, y, s)) == Insert(str, y, Insert(str, x, s))
  {
    TextOrderIsTotal(str(x), str(y));
    if TextLess(str(x), str(y)) {
      InsertCommutes(str, x, y, s);
    } else if TextLess(str(y), str(x)) {
      InsertCommutes(str, y, x, s);
    }
  }

  /** An item may be inserted last, wherever it stands in the list. */
  lemma {:induction false} InsertLast(str: Value -> string, items: seq<Value>, i: nat)
    requires i < |items|
    requires forall j | 0 <= j < |items| && str(items[j]) == str(items[i]) :: items[j] == items[i]
    ensures Sort(str, items) == Insert(str, items[i], Sort(str, items[..i] + items[i + 1..]))
  {
    if i == 0 {
      assert items[..0] + items[1..] == items[1..];
    } else {
      var tail := items[1..];
      InsertLast(str, tail, i - 1);
      var rest := items[..i] + items[i + 1..];
      assert rest[0] == items[0] && rest[1..] == tail[..i - 1] + tail[i..];
      InsertSwaps(str, items[i], items[0], Sort(str, rest[1..]));
    }
  }

  lemma WithoutOne(items: seq<Value>, i: nat)
    requires i < |items|
    ensures multiset(items) == multiset{items[i]} + multiset(items[..i] + items[i + 1..])
  {
    assert items == items[..i] + [items[i]] + items[i + 1..];
  }

  lemma Cancel(x: Value, a: multiset<Value>, b: multiset<Value>)
    requires multiset{x} + a == multiset{x} + b
    ensures a == b
  {
    assert (multiset{x} + a) - multiset{x} == a;
    assert (multiset{x} + b) - multiset{x} == b;
  }

  lemma FewerRenderApart(str: Value -> string, items: multiset<Value>, fewer: multiset<Value>)
    requires fewer <= items && RendersApart(str, items)
    ensures RendersApart(str, fewer)
  {
    forall x | x in fewer
      ensures x in items
    {
    }
  }

  lemma AloneInList(str: Value -> string, items: seq<Value>, i: nat)
    requires i < |items| && RendersApart(str, multiset(items))
    ensures forall j | 0 <= j < |items| && str(items[j]) == str(items[i]) :: items[j] == items[i]
  {
    assert forall j | 0 <= j < |items| :: items[j] in multiset(items);
  }

  /** The head of one list is somewhere in the other, and the rests have the same elements. */
  lemma TakeHead(a: seq<Value>, b: seq<Value>) returns (i: nat)
    requires a != [] && multiset(a) == multiset(b)
    ensures i < |b| && b[i] == a[0]
    ensures multiset(a[1..]) == multiset(b[..i] + b[i + 1..]) <= multiset(a)
  {
    assert a[0] in multiset(b);
    i :| 0 <= i < |b| && b[i] == a[0];
    var rest := b[..i] + b[i + 1..];
    WithoutOne(a, 0);
    WithoutOne(b, i);
    assert a[..0] + a[1..] == a[1..];
    Cancel(a[0], multiset(a[1..]), multiset(rest));
  }

  /** The order a list is sorted from does not matter. */
  lemma {:induction false} SortIgnoresOrder(str: Value -> string, a: seq<Value>, b: seq<Value>)
    requires multiset(a) == multiset(b)
    requires RendersApart(str, multiset(a))
    ensures Sort(str, a) == Sort(str, b)
    decreases |a|
  {
    if a == [] {
      assert |multiset(b)| == 0;
    } else {
      var i := TakeHead(a, b);
      FewerRenderApart(str, multiset(a), multiset(a[1..]));
      SortIgnoresOrder(str, a[1..], b[..i] + b[i + 1..]);
      AloneInList(str, b, i);
      InsertLast(str, b, i);
    }
  }

  function Normalized(str: Value -> string, items: seq<Value>): seq<Value> {
    seq(|items|, i requires 0 <= i < |items| => Normalize(str, items[i]))
  }

  /** Two lists with the same elements, each as often, compare equal in whatever order they are. */
  lemma ListsCompareAsMultisets(str: Value -> string, a: seq<Value>, b: seq<Value>)
    requires multiset(Normalized(str, a)) == multiset(Normalized(str, b))
    requires RendersApart(str, multiset(Normalized(str, a)))
    ensures ValuesEqual(str, VList(a), VList(b))
  {
    SortIgnoresOrder(str, Normalized(str, a), Normalized(str, b));
    assert Normalize(str, VList(a)) == VList(Sort(str, Normalized(str, a)));
    assert Normalize(str, VList(b)) == VList(Sort(str, Normalized(str, b)));
  }
}
