/**
  The state file's resource table after a run (`build_state_snapshot` and
  `_resource_address` in nautobot/data_loader/load_data.py).
*/
module StateSnapshot {
  import opened Prelude
  import opened Text
  import opened LoadData

  datatype RunAction = Delete(kind: string, identity: string) | Other(kind: string, identity: string, verb: string, objectId: Option<string>)

  datatype Resource = Resource(kind: string, identity: string, objectId: Option<string>, lastAction: string)

  /** `_resource_address`. */
  function Address(kind: string, identity: string): string {
    LowerCase(kind) + "." +
    Replace(Replace(Replace(Replace(Replace(identity, " ", "_"), ":", "_"), "<->", "__"), "/", "_"), ".", "_")
  }

  /** The characters an address does not keep. */
  function Kept(c: char): char {
    if c == ' ' || c == ':' || c == '/' || c == '.' then '_' else c
  }

  function ReplacedBy(s: string, c: char): string {
    seq(|s|, k requires 0 <= k < |s| => if s[k] == c then '_' else s[k])
  }

  lemma {:induction false} ReplaceOne(s: string, c: char)
    ensures Replace(s, [c], "_") == ReplacedBy(s, c)
    decreases |s|
  {
    if s != [] {
      ReplaceOne(s[1..], c);
      assert s[..1] == [c] <==> s[0] == c;
      assert ReplacedBy(s, c) == [if s[0] == c then '_' else s[0]] + ReplacedBy(s[1..], c);
    }
  }

  lemma {:induction false} ReplaceNone(s: string, old_: string, new_: string)
    requires old_ != [] && old_[0] !in s
    ensures Replace(s, old_, new_) == s
    decreases |s|
  {
    if |s| >= |old_| {
      assert s[..|old_|][0] == s[0];
      ReplaceNone(s[1..], old_, new_);
    }
  }

  /** Without an arrow in it, an identity keeps every character but the four. */
  lemma AddressKeeps(kind: string, identity: string)
    requires '<' !in identity
    ensures Address(kind, identity) == LowerCase(kind) + "." + seq(|identity|, k requires 0 <= k < |identity| => Kept(identity[k]))
  {
    var a := ReplacedBy(identity, ' ');
    var b := ReplacedBy(a, ':');
    var c := ReplacedBy(b, '/');
    ReplaceOne(identity, ' ');
    ReplaceOne(a, ':');
    ReplaceNone(b, "<->", "__");
    ReplaceOne(b, '/');
    ReplaceOne(c, '.');
    assert ReplacedBy(c, '.') == seq(|identity|, k requires 0 <= k < |identity| => Kept(identity[k]));
  }

  /** Two objects share an address exactly when their types are alike and their identities differ in the four characters alone. */
  lemma AddressesCoincideIff(kind: string, identity: string, other: string, name: string)
    requires '<' !in identity && '<' !in name && '.' !in LowerCase(kind) && '.' !in LowerCase(other)
    ensures Address(kind, identity) == Address(other, name) <==>
            && LowerCase(kind) == LowerCase(other) && |identity| == |name|
            && forall k :: 0 <= k < |name| ==> Kept(identity[k]) == Kept(name[k])
  {
    AddressKeeps(kind, identity);
    AddressKeeps(other, name);
    var a, b := seq(|identity|, k requires 0 <= k < |identity| => Kept(identity[k])), seq(|name|, k requires 0 <= k < |name| => Kept(name[k]));
    DottedPairs(LowerCase(kind), a, LowerCase(other), b);
    if a == b {
      forall k | 0 <= k < |name|
        ensures Kept(identity[k]) == Kept(name[k])
      {
        assert a[k] == b[k];
      }
    }
  }

  /** A first part without a dot ends at the first dot. */
  lemma DottedPairs(a: string, b: string, c: string, d: string)
    requires '.' !in a && '.' !in c
    ensures a + "." + b == c + "." + d <==> a == c && b == d
  {
    if a + "." + b == c + "." + d {
      var s := a + "." + b;
      assert s[|a|] == '.' && s[|c|] == '.';
      assert |a| <= |c| by { assert forall k :: 0 <= k < |a| ==> s[k] == a[k]; }
      assert |c| <= |a| by { assert forall k :: 0 <= k < |c| ==> s[k] == c[k]; }
      assert a == s[..|a|] && c == s[..|c|];
      assert b == s[|a| + 1..] && d == s[|c| + 1..];
    }
  }

  function AddressOf(a: RunAction): string { Address(a.kind, a.identity) }

  function Entry(a: RunAction): Resource
    requires a.Other?
  {
    Resource(a.kind, a.identity, a.objectId, a.verb)
  }

  /** Position `i` holds the last action on an address. */
  ghost predicate IsLastOn(actions: seq<RunAction>, address: string, i: nat) {
    && i < |actions| && AddressOf(actions[i]) == address
    && forall j | i < j < |actions| :: AddressOf(actions[j]) != address
  }

  /** What the table says of one address: the last action on it, or what it said before when there was none. */
  ghost predicate Reflects(previous: map<string, Resource>, actions: seq<RunAction>, resources: map<string, Resource>,
                           address: string) {
    && (forall i: nat | IsLastOn(actions, address, i) ::
          if actions[i].Delete? then address !in resources
          else
            && address in resources
            && var a := actions[i]; resources[address] == Resource(a.kind, a.identity, a.objectId, a.verb))
    && ((forall i: nat :: !IsLastOn(actions, address, i)) ==>
          (address in resources <==> address in previous)
          && (address in previous ==> resources[address] == previous[address]))
  }

  /** The loop's body. */
  function Record(resources: map<string, Resource>, a: RunAction): map<string, Resource> {
    if a.Delete? then resources - {AddressOf(a)} else resources[AddressOf(a) := Entry(a)]
  }

  lemma LastOnLonger(actions: seq<RunAction>, n: nat, address: string, i: nat)
    requires n < |actions|
    ensures IsLastOn(actions[..n + 1], address, i) <==>
            if AddressOf(actions[n]) == address then i == n else IsLastOn(actions[..n], address, i)
  {
    var more, less := actions[..n + 1], actions[..n];
    assert more[n] == actions[n];
    assert forall j | 0 <= j < n :: more[j] == less[j];
  }

  lemma OwnActionTells(previous: map<string, Resource>, actions: seq<RunAction>, n: nat, before: map<string, Resource>)
    requires n < |actions|
    ensures Reflects(previous, actions[..n + 1], Record(before, actions[n]), AddressOf(actions[n]))
  {
    var address := AddressOf(actions[n]);
    LastOnLonger(actions, n, address, n);
    assert IsLastOn(actions[..n + 1], address, n);
  }

  lemma OtherActionKeeps(previous: map<string, Resource>, actions: seq<RunAction>, n: nat, before: map<string, Resource>,
                         address: string)
    requires n < |actions| && AddressOf(actions[n]) != address
    requires Reflects(previous, actions[..n], before, address)
    ensures Reflects(previous, actions[..n + 1], Record(before, actions[n]), address)
  {
    forall i: nat
      ensures IsLastOn(actions[..n + 1], address, i) <==> IsLastOn(actions[..n], address, i)
    {
      LastOnLonger(actions, n, address, i);
    }
  }

  lemma OneMoreAction(previous: map<string, Resource>, actions: seq<RunAction>, n: nat, before: map<string, Resource>,
                      address: string)
    requires n < |actions|
    requires Reflects(previous, actions[..n], before, address)
    ensures Reflects(previous, actions[..n + 1], Record(before, actions[n]), address)
  {
    if AddressOf(actions[n]) == address {
      OwnActionTells(previous, actions, n, before);
    } else {
      OtherActionKeeps(previous, actions, n, before, address);
    }
  }

  ghost predicate ReflectsAll(previous: map<string, Resource>, actions: seq<RunAction>,
                              resources: map<string, Resource>) {
    forall address :: Reflects(previous, actions, resources, address)
  }

  lemma OneMoreActionForAll(previous: map<string, Resource>, actions: seq<RunAction>, n: nat,
                            before: map<string, Resource>)
    requires n < |actions|
    requires ReflectsAll(previous, actions[..n], before)
    ensures ReflectsAll(previous, actions[..n + 1], Record(before, actions[n]))
  {
    var longer, after := actions[..n + 1], Record(before, actions[n]);
    forall address
      ensures Reflects(previous, longer, after, address)
    {
      OneMoreAction(previous, actions, n, before, address);
    }
  }

  /** The table says of every address what the last action on it says, and keeps the rest. */
  method BuildStateSnapshot(previous: map<string, Resource>,
                            actions: seq<RunAction>) returns (resources: map<string, Resource>)
    ensures ReflectsAll(previous, actions, resources)
  {
    resources := previous;
    for n := 0 to |actions|
      invariant ReflectsAll(previous, actions[..n], resources)
    {
      OneMoreActionForAll(previous, actions, n, resources);
      resources := Record(resources, actions[n]);
    }
    assert actions[..|actions|] == actions;
  }

  /** Identities that differ only in the replaced characters share an address, so deleting one object drops the other's entry. */
  lemma DeleteDropsNamesake(previous: map<string, Resource>, kept: RunAction, gone: RunAction,
                            resources: map<string, Resource>)
    requires kept.Other? && gone.Delete?
    requires AddressOf(kept) == AddressOf(gone)
    requires Reflects(previous, [kept, gone], resources, AddressOf(kept))
    ensures AddressOf(kept) !in resources
  {
    assert IsLastOn([kept, gone], AddressOf(kept), 1);
  }

  lemma NamesakesShareAddress(kind: string)
    ensures Address(kind, "a b") == Address(kind, "a_b")
  {
    assert Replace("a b", " ", "_") == "a_b" == Replace("a_b", " ", "_") by {
      assert "a b"[..1] == "a" && "a b"[1..] == " b" && " b"[..1] == " " && " b"[1..] == "b" && "b"[..1] == "b" && "b"[1..] == "";
      assert "a_b"[..1] == "a" && "a_b"[1..] == "_b" && "_b"[..1] == "_" && "_b"[1..] == "b";
      assert Replace("", " ", "_") == "";
      assert Replace("b", " ", "_") == "b";
      assert Replace(" b", " ", "_") == "_b" == Replace("_b", " ", "_");
    }
  }
}
