/**
  Filling templates in: `_fmt` replaces one key after the other, which comes to
  the same as putting all values in at once, also beside other braces such as
  PromQL selectors (ai-agents/shared/policy_resolver.py).
*/
module TemplateFilling {
  import opened Prelude
  import opened Text
  import opened PolicyTemplates

  /** A template is words and keys. */
  datatype Part = Words(text: string) | Key(name: string)

  type Context = seq<(string, string)>

  /** The keys of the context are distinct words. */
  ghost predicate IsDict(ctx: Context) {
    && (forall i | 0 <= i < |ctx| :: IsKey(ctx[i].0))
    && (forall i, j | 0 <= i < j < |ctx| :: ctx[i].0 != ctx[j].0)
  }

  predicate IsKey(s: string) {
    forall k | 0 <= k < |s| :: IsWord(s[k])
  }

  function Braced(s: string): string { "{" + s + "}" }

  function ValueOf(ctx: Context, key: string): Option<string> {
    if ctx == [] then None
    else if ctx[|ctx| - 1].0 == key then Some(ctx[|ctx| - 1].1)
    else ValueOf(ctx[..|ctx| - 1], key)
  }

  /** One part with the values of the context in place; a key the context lacks stays as it is written. */
  function FilledPart(p: Part, ctx: Context): string {
    match p
    case Words(text) => text
    case Key(name) => (match ValueOf(ctx, name) case Some(v) => v case None => Braced(name))
  }

  function Filled(parts: seq<Part>, ctx: Context): string {
    if parts == [] then "" else FilledPart(parts[0], ctx) + Filled(parts[1..], ctx)
  }

  /** The brace at `p` is followed, before any closing one, by something no key holds. */
  ghost predicate Closes(s: string, p: nat) {
    exists q :: p < q < |s| && !IsWord(s[q]) && s[q] != '}' && forall r | p < r < q :: s[r] != '}'
  }

  /** No brace in the text, whatever follows the text, can open a key. */
  ghost predicate Harmless(s: string) {
    forall p: nat | p < |s| && s[p] == '{' :: Closes(s, p)
  }

  ghost predicate HarmlessPart(p: Part) {
    match p
    case Words(text) => Harmless(text)
    case Key(name) => IsKey(name)
  }

  ghost predicate HarmlessParts(parts: seq<Part>) {
    forall k | 0 <= k < |parts| :: HarmlessPart(parts[k])
  }

  ghost predicate HarmlessValues(ctx: Context) {
    forall i | 0 <= i < |ctx| :: Harmless(ctx[i].1)
  }

  lemma Differs(s: string, p: nat, b: string, m: nat)
    requires m < |b| && p + m < |s| && s[p + m] != b[m]
    ensures !StartsAt(s, p, b)
  {
    if p + |b| <= |s| { assert s[p..p + |b|][m] == s[p + m]; }
  }

  lemma NoKeyStarts(t: string, rest: string, key: string, p: nat)
    requires Harmless(t) && IsKey(key) && p < |t|
    ensures !StartsAt(t + rest, p, Braced(key))
  {
    var s, b := t + rest, Braced(key);
    assert s[p] == t[p] && b[0] == '{';
    if t[p] != '{' {
      Differs(s, p, b, 0);
    } else {
      var q :| p < q < |t| && !IsWord(t[q]) && t[q] != '}' && forall r | p < r < q :: t[r] != '}';
      if q <= p + |key| {
        assert b[q - p] == key[q - p - 1];
        Differs(s, p, b, q - p);
      } else {
        assert b[|key| + 1] == '}' && s[p + |key| + 1] == t[p + |key| + 1];
        Differs(s, p, b, |key| + 1);
      }
    }
  }

  lemma CopiesHarmless(t: string, rest: string, key: string, v: string)
    requires Harmless(t) && IsKey(key)
    ensures Replace(t + rest, Braced(key), v) == t + Replace(rest, Braced(key), v)
  {
    forall p | 0 <= p < |t|
      ensures !StartsAt(t + rest, p, Braced(key))
    {
      NoKeyStarts(t, rest, key, p);
    }
    ReplaceCopies(t, rest, Braced(key), v);
  }

  lemma OtherKeyDoesNotStart(other: string, rest: string, key: string, p: nat)
    requires IsKey(other) && IsKey(key) && other != key && p < |Braced(other)|
    ensures !StartsAt(Braced(other) + rest, p, Braced(key))
  {
    var o, b := Braced(other), Braced(key);
    var s := o + rest;
    assert o[|other| + 1] == '}' && b[|key| + 1] == '}';
    if p > 0 {
      assert p <= |other| ==> o[p] == other[p - 1];
      Differs(s, p, b, 0);
    } else if |key| < |other| {
      assert o[|key| + 1] == other[|key|];
      Differs(s, 0, b, |key| + 1);
    } else if |other| < |key| {
      assert b[|other| + 1] == key[|other|];
      Differs(s, 0, b, |other| + 1);
    } else {
      var m :| 0 <= m < |key| && key[m] != other[m];
      assert b[m + 1] == key[m] && o[m + 1] == other[m];
      Differs(s, 0, b, m + 1);
    }
  }

  lemma CopiesOtherKey(other: string, rest: string, key: string, v: string)
    requires IsKey(other) && IsKey(key) && other != key
    ensures Replace(Braced(other) + rest, Braced(key), v) == Braced(other) + Replace(rest, Braced(key), v)
  {
    forall p | 0 <= p < |Braced(other)|
      ensures !StartsAt(Braced(other) + rest, p, Braced(key))
    {
      OtherKeyDoesNotStart(other, rest, key, p);
    }
    ReplaceCopies(Braced(other), rest, Braced(key), v);
  }

  lemma ReplacesKey(rest: string, key: string, v: string)
    ensures Replace(Braced(key) + rest, Braced(key), v) == v + Replace(rest, Braced(key), v)
  {
    var s, b := Braced(key) + rest, Braced(key);
    assert s[..|b|] == b && s[|b|..] == rest;
  }

  lemma {:induction false} ValueIsListed(ctx: Context, key: string)
    requires HarmlessValues(ctx) && ValueOf(ctx, key).Some?
    ensures Harmless(ValueOf(ctx, key).value)
    ensures exists i :: 0 <= i < |ctx| && ctx[i].0 == key
    decreases |ctx|
  {
    var n := |ctx| - 1;
    if ctx[n].0 != key {
      ValueIsListed(ctx[..n], key);
      var i :| 0 <= i < n && ctx[..n][i].0 == key;
      assert ctx[i].0 == key;
    }
  }

  /** Replacing a further key in one part and what follows it. */
  lemma PartStep(p: Part, rest: string, ctx: Context, key: string, v: string)
    requires HarmlessPart(p) && HarmlessValues(ctx) && IsKey(key) && ValueOf(ctx, key).None?
    ensures Replace(FilledPart(p, ctx) + rest, Braced(key), v) ==
            FilledPart(p, ctx + [(key, v)]) + Replace(rest, Braced(key), v)
  {
    var more := ctx + [(key, v)];
    assert more[..|ctx|] == ctx;
    match p
    case Words(text) => CopiesHarmless(text, rest, key, v);
    case Key(name) =>
      if ValueOf(ctx, name).Some? {
        ValueIsListed(ctx, name);
        CopiesHarmless(ValueOf(ctx, name).value, rest, key, v);
      } else if name == key {
        ReplacesKey(rest, key, v);
      } else {
        CopiesOtherKey(name, rest, key, v);
      }
  }

  lemma {:induction false} OneMoreKey(parts: seq<Part>, ctx: Context, key: string, v: string)
    requires HarmlessParts(parts) && HarmlessValues(ctx) && IsKey(key) && ValueOf(ctx, key).None?
    ensures Replace(Filled(parts, ctx), Braced(key), v) == Filled(parts, ctx + [(key, v)])
    decreases |parts|
  {
    if parts != [] {
      OneMoreKey(parts[1..], ctx, key, v);
      PartStep(parts[0], Filled(parts[1..], ctx), ctx, key, v);
    }
  }

  lemma NewKeyHasNoValue(ctx: Context, n: nat)
    requires IsDict(ctx) && HarmlessValues(ctx) && n < |ctx|
    ensures ValueOf(ctx[..n], ctx[n].0).None?
  {
    if ValueOf(ctx[..n], ctx[n].0).Some? {
      ValueIsListed(ctx[..n], ctx[n].0);
    }
  }

  /** Filling key by key puts every value in its place, at once. */
  lemma {:induction false} FillsEveryKey(parts: seq<Part>, ctx: Context)
    requires HarmlessParts(parts) && IsDict(ctx) && HarmlessValues(ctx)
    ensures Fill(Filled(parts, []), ctx) == Filled(parts, ctx)
    decreases |ctx|
  {
    if ctx != [] {
      var n := |ctx| - 1;
      FillsEveryKey(parts, ctx[..n]);
      NewKeyHasNoValue(ctx, n);
      OneMoreKey(parts, ctx[..n], ctx[n].0, ctx[n].1);
      assert ctx == ctx[..n] + [ctx[n]];
    }
  }

  lemma {:induction false} FilledAlike(parts: seq<Part>, ctx: Context, other: Context)
    requires forall key :: ValueOf(ctx, key) == ValueOf(other, key)
    ensures Filled(parts, ctx) == Filled(parts, other)
    decreases |parts|
  {
    if parts != [] { FilledAlike(parts[1..], ctx, other); }
  }

  /** So the order of the keys does not matter. */
  lemma FillIgnoresOrder(parts: seq<Part>, ctx: Context, other: Context)
    requires HarmlessParts(parts) && IsDict(ctx) && HarmlessValues(ctx) && IsDict(other) && HarmlessValues(other)
    requires forall key :: ValueOf(ctx, key) == ValueOf(other, key)
    ensures Fill(Filled(parts, []), ctx) == Fill(Filled(parts, []), other)
  {
    FillsEveryKey(parts, ctx);
    FillsEveryKey(parts, other);
    FilledAlike(parts, ctx, other);
  }

  /** A value that spells a later key is filled in again. */
  lemma ValueIsFilledAgain(first: string, second: string, v: string)
    ensures Fill(Braced(first), [(first, Braced(second)), (second, v)]) == v
  {
    var ctx := [(first, Braced(second)), (second, v)];
    assert ctx[..1] == [ctx[0]] && [ctx[0]][..0] == [];
    ReplacesKey("", first, Braced(second));
    ReplacesKey("", second, v);
    assert Braced(first) + "" == Braced(first) && Braced(second) + "" == Braced(second);
    assert Fill(Braced(first), [ctx[0]]) == Replace(Fill(Braced(first), []), Braced(first), Braced(second)) == Braced(second);
  }

  lemma SelectorStart(metric: string, tag: string)
    requires IsKey(metric) && IsKey(tag)
    ensures Harmless(metric + "{" + tag + "=\"")
  {
    var s := metric + "{" + tag + "=\"";
    var q := |metric| + 1 + |tag|;
    assert s[q] == '=';
    assert forall p | 0 <= p < |metric| :: s[p] == metric[p];
    assert forall p | |metric| < p < q :: s[p] == tag[p - |metric| - 1];
    assert s[q + 1] == '\"';
    assert Closes(s, |metric|);
  }

  /** The braces of a selector are harmless, around a key as well. */
  lemma SelectorIsHarmless(metric: string, tag: string)
    requires IsKey(metric) && IsKey(tag)
    ensures HarmlessParts([Words(metric + "{" + tag + "=\""), Key("device"), Words("\"}")])
  {
    SelectorStart(metric, tag);
  }
}
