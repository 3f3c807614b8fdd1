/**
  The ids a plan makes up: no two objects share one, and a plan recognises them
  wherever they stand in a filter (nautobot/data_loader/load_data.py).
*/
module Placeholders {
  import opened Prelude
  import opened LoadData
  import opened PlanAndApply

  // ---------------------------------------------------------------- made-up ids differ

  predicate IsNumeral(c: char) { '0' <= c <= '9' }

  lemma {:induction false} DigitsAreNumerals(n: nat)
    ensures |Digits(n)| > 0 && forall k | 0 <= k < |Digits(n)| :: IsNumeral(Digits(n)[k])
  {
    if n >= 10 { DigitsAreNumerals(n / 10); }
  }

  lemma LastDigit(n: nat)
    ensures |Digits(n)| > 0 && Digits(n)[|Digits(n)| - 1] == ((n % 10) as char) + '0'
    ensures n >= 10 ==> Digits(n)[..|Digits(n)| - 1] == Digits(n / 10) && |Digits(n / 10)| > 0
    ensures n < 10 ==> |Digits(n)| == 1
  {
    DigitsAreNumerals(n);
    if n >= 10 { DigitsAreNumerals(n / 10); }
  }

  lemma {:induction false} DigitsDiffer(n: nat, m: nat)
    requires Digits(n) == Digits(m)
    ensures n == m
    decreases n
  {
    LastDigit(n);
    LastDigit(m);
    if n >= 10 {
      DigitsDiffer(n / 10, m / 10);
    }
  }

  /** The part of an id from the last dash on. */
  lemma EndsAtLastDash(a: string, b: string, c: string, d: string)
    requires a + "-" + b == c + "-" + d
    requires '-' !in b && '-' !in d
    ensures a == c && b == d
  {
    var s := a + "-" + b;
    assert s[|a|] == '-' && s[|c|] == '-';
    assert forall k | |a| < k < |s| :: s[k] == b[k - |a| - 1];
    assert forall k | |c| < k < |s| :: s[k] == d[k - |c| - 1];
    assert |a| == |c|;
    assert a == s[..|a|] == c && b == s[|a| + 1..] == d;
  }

  lemma DashesAreNone(n: nat)
    ensures '-' !in Digits(n)
  {
    DigitsAreNumerals(n);
  }

  /** Made-up ids tell type and number. */
  lemma PlannedIdsDiffer(kind: string, n: nat, other: string, m: nat)
    ensures PlannedId(kind, n) == PlannedId(other, m) <==> kind == other && n == m
    ensures IsPlaceholder(PlannedId(kind, n))
  {
    assert PlannedId(kind, n)[..8] == "planned-";
    if PlannedId(kind, n) == PlannedId(other, m) {
      DashesAreNone(n);
      DashesAreNone(m);
      assert ("planned-" + kind) + "-" + Digits(n) == PlannedId(kind, n);
      EndsAtLastDash("planned-" + kind, Digits(n), "planned-" + other, Digits(m));
      DigitsDiffer(n, m);
      assert kind == ("planned-" + kind)[8..] && other == ("planned-" + other)[8..];
    }
  }

  /** So no two objects of one plan get the same id. */
  lemma MadeUpIdsDiffer(reqs: seq<Request>)
    ensures NoDuplicates(MadeUp(reqs))
  {
    forall i, j | 0 <= i < j < |reqs|
      ensures MadeUp(reqs)[i] != MadeUp(reqs)[j]
    {
      PlannedIdsDiffer(reqs[i].kind, i + 1, reqs[j].kind, j + 1);
    }
  }

  // ---------------------------------------------------------------- recognising them

  /** The text stands somewhere in the value: as it is, in a list or as the value of a key, at any depth. */
  predicate Occurs(s: string, v: Value) {
    match v
    case VText(t) => t == s
    case VList(items) => exists i | 0 <= i < |items| :: Occurs(s, items[i])
    case VDict(entries) => exists k | k in entries :: Occurs(s, entries[k])
    case _ => false
  }

  predicate IsMadeUpIn(s: string, v: Value) { "planned-" <= s && Occurs(s, v) }

  lemma OccursInItem(s: string, items: seq<Value>, i: nat)
    requires i < |items| && IsMadeUpIn(s, items[i])
    ensures IsMadeUpIn(s, VList(items))
  {
  }

  lemma OccursInEntry(s: string, entries: map<string, Value>, k: string)
    requires k in entries && IsMadeUpIn(s, entries[k])
    ensures IsMadeUpIn(s, VDict(entries))
  {
  }

  /** A text in the value that starts like a placeholder is recognised at any depth. */
  lemma {:induction false} PlaceholderIsSeen(s: string, v: Value)
    requires IsMadeUpIn(s, v)
    ensures ContainsPlaceholder(v)
  {
    match v
    case VText(t) =>
    case VList(items) =>
      var i :| 0 <= i < |items| && Occurs(s, items[i]);
      PlaceholderIsSeen(s, items[i]);
    case VDict(entries) =>
      var k :| k in entries && Occurs(s, entries[k]);
      PlaceholderIsSeen(s, entries[k]);
  }

  /** And nothing else is. */
  lemma {:induction false} SeenIsPlaceholder(v: Value) returns (s: string)
    requires ContainsPlaceholder(v)
    ensures IsMadeUpIn(s, v)
  {
    match v
    case VText(t) => s := t;
    case VList(items) =>
      var i :| 0 <= i < |items| && ContainsPlaceholder(items[i]);
      s := SeenIsPlaceholder(items[i]);
      OccursInItem(s, items, i);
    case VDict(entries) =>
      var k :| k in entries && ContainsPlaceholder(entries[k]);
      s := SeenIsPlaceholder(entries[k]);
      OccursInEntry(s, entries, k);
  }

  /** With such a text in its filter, at any depth, a call is planned as a create, whatever is stored. */
  lemma PlaceholderIsPlannedAsCreate(eq: Equality, render: Rendering, store: seq<Obj>, c: Call, newId: string, k: string, s: string)
    requires k in c.filter && IsMadeUpIn(s, c.filter[k])
    ensures Reconciled(eq, render, true, store, c, newId).action.verb == Create
  {
    PlaceholderIsSeen(s, c.filter[k]);
  }

  /** And without one a plan works on what an apply works on. */
  lemma WithoutPlaceholderPlansSearch(eq: Equality, store: seq<Obj>, c: Call)
    requires forall k, s | k in c.filter :: !IsMadeUpIn(s, c.filter[k])
    ensures Position(eq, true, store, c) == First(eq, store, c)
  {
    if FilterHasPlaceholder(c) {
      var k :| k in c.filter && ContainsPlaceholder(c.filter[k]);
      var s := SeenIsPlaceholder(c.filter[k]);
      assert false;
    }
  }
}
