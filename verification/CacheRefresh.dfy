/**
  The snapshot's indexes and the lookup that uses them: `_build_indexes`
  (nautobot/data_loader/cache_refresh.py) and `_snapshot_lookup_by_identity`
  (nautobot/data_loader/load_data.py). `str` stands for Python's `str`.
*/
module CacheRefresh {
  import opened Prelude
  import opened LoadData

  /** A serialized object. */
  type Record = map<string, Value>

  type Indexes = map<string, map<string, seq<int>>>

  const INDEXED_KEYS := ["id", "name", "model", "prefix", "vid", "address", "slug"]

  /** The record has `text` under `key`. */
  predicate Has(str: Value -> string, r: Record, key: string, text: string) {
    !Get(r, key).VNone? && str(Get(r, key)) == text
  }

  /** All positions whose record has `text` under `key`, ascending. */
  function Positions(str: Value -> string, objects: seq<Record>, key: string, text: string): (ps: seq<int>)
    ensures forall p :: p in ps <==> 0 <= p < |objects| && Has(str, objects[p], key, text)
    ensures forall i, j | 0 <= i < j < |ps| :: ps[i] < ps[j]
  {
    if objects == [] then []
    else
      var last := |objects| - 1;
      var ps := Positions(str, objects[..last], key, text);
      assert forall i | 0 <= i < |ps| :: ps[i] in ps;
      if Has(str, objects[last], key, text) then ps + [last] else ps
  }

  /** `indexes.get(key, {}).get(text, [])`. */
  function Bucket(indexes: Indexes, key: string, text: string): seq<int> {
    if key in indexes && text in indexes[key] then indexes[key][text] else []
  }

  ghost predicate Indexed(str: Value -> string, objects: seq<Record>, indexes: Indexes, key: string) {
    forall text :: Bucket(indexes, key, text) == Positions(str, objects, key, text)
  }

  /** `indexes[key].setdefault(text, []).append(p)`. */
  function Append(indexes: Indexes, key: string, text: string, p: int): Indexes {
    indexes[key := (if key in indexes then indexes[key] else map[])[text := Bucket(indexes, key, text) + [p]]]
  }

  /** Recording the last object under one key brings that key up to date and touches no other. */
  lemma RecordingIndexes(str: Value -> string, objects: seq<Record>, indexes: Indexes, key: string)
    requires |objects| > 0
    requires Indexed(str, objects[..|objects| - 1], indexes, key)
    ensures var r := objects[|objects| - 1];
            Indexed(str, objects, if Get(r, key).VNone? then indexes else Append(indexes, key, str(Get(r, key)), |objects| - 1), key)
  {
    var last := |objects| - 1;
    var value := Get(objects[last], key);
    forall text
      ensures Bucket(if value.VNone? then indexes else Append(indexes, key, str(value), last), key, text) ==
              Positions(str, objects, key, text)
    {
      assert Bucket(indexes, key, text) == Positions(str, objects[..last], key, text);
    }
  }

  lemma RecordingElsewhere(str: Value -> string, objects: seq<Record>, indexes: Indexes, key: string, text: string,
                           p: int, other: string)
    requires Indexed(str, objects, indexes, other) && other != key
    ensures Indexed(str, objects, Append(indexes, key, text, p), other)
  {
    forall t
      ensures Bucket(Append(indexes, key, text, p), other, t) == Bucket(indexes, other, t)
    {
    }
  }

  lemma KeysAreDistinct()
    ensures NoDuplicates(INDEXED_KEYS)
  {
    assert forall i | 0 <= i < 7 :: INDEXED_KEYS[i][0] in "inmpvas";
    assert INDEXED_KEYS[0][0] == 'i';
    assert INDEXED_KEYS[1][0] == 'n';
    assert INDEXED_KEYS[2][0] == 'm';
    assert INDEXED_KEYS[3][0] == 'p';
    assert INDEXED_KEYS[4][0] == 'v';
    assert INDEXED_KEYS[5][0] == 'a';
    assert INDEXED_KEYS[6][0] == 's';
  }

  /** The first `j` keys are indexed for all objects, the others for all but the last. */
  ghost predicate PartlyIndexed(str: Value -> string, objects: seq<Record>, keys: seq<string>, indexes: Indexes, j: nat)
    requires |objects| > 0
  {
    && (forall i | 0 <= i < j && i < |keys| :: Indexed(str, objects, indexes, keys[i]))
    && (forall i | j <= i < |keys| :: Indexed(str, objects[..|objects| - 1], indexes, keys[i]))
  }

  lemma OneMoreKey(str: Value -> string, objects: seq<Record>, keys: seq<string>, indexes: Indexes, j: nat)
    requires |objects| > 0 && j < |keys| && NoDuplicates(keys)
    requires PartlyIndexed(str, objects, keys, indexes, j)
    ensures var last := |objects| - 1;
            var value := Get(objects[last], keys[j]);
            PartlyIndexed(str, objects, keys, if value.VNone? then indexes else Append(indexes, keys[j], str(value), last), j + 1)
  {
    var last := |objects| - 1;
    var before := objects[..last];
    var key := keys[j];
    var value := Get(objects[last], key);
    RecordingIndexes(str, objects, indexes, key);
    if !value.VNone? {
      var after := Append(indexes, key, str(value), last);
      forall i | 0 <= i < j
        ensures Indexed(str, objects, after, keys[i])
      {
        RecordingElsewhere(str, objects, indexes, key, str(value), last, keys[i]);
      }
      forall i | j < i < |keys|
        ensures Indexed(str, before, after, keys[i])
      {
        RecordingElsewhere(str, before, indexes, key, str(value), last, keys[i]);
      }
    }
  }

  ghost predicate AllIndexed(str: Value -> string, objects: seq<Record>, keys: seq<string>, indexes: Indexes) {
    forall i | 0 <= i < |keys| :: Indexed(str, objects, indexes, keys[i])
  }

  /** The inner loop: records the last object under each key. */
  method IndexLast(str: Value -> string, objects: seq<Record>, keys: seq<string>,
                   before: Indexes) returns (indexes: Indexes)
    requires |objects| > 0 && NoDuplicates(keys)
    requires AllIndexed(str, objects[..|objects| - 1], keys, before)
    ensures AllIndexed(str, objects, keys, indexes)
  {
    indexes := before;
    for j := 0 to |keys|
      invariant PartlyIndexed(str, objects, keys, indexes, j)
    {
      OneMoreKey(str, objects, keys, indexes, j);
      var value := Get(objects[|objects| - 1], keys[j]);
      if !value.VNone? {
        indexes := Append(indexes, keys[j], str(value), |objects| - 1);
      }
    }
  }

  /** For any distinct keys, every key is indexed by the positions of each of its texts. */
  method BuildIndexesOver(str: Value -> string, objects: seq<Record>, keys: seq<string>) returns (indexes: Indexes)
    requires NoDuplicates(keys)
    ensures AllIndexed(str, objects, keys, indexes)
  {
    indexes := map k | k in keys :: map[];
    for idx := 0 to |objects|
      invariant AllIndexed(str, objects[..idx], keys, indexes)
    {
      assert objects[..idx + 1][..idx] == objects[..idx];
      indexes := IndexLast(str, objects[..idx + 1], keys, indexes);
    }
    assert objects[..|objects|] == objects;
  }

  method BuildIndexes(str: Value -> string, objects: seq<Record>) returns (indexes: Indexes)
    ensures AllIndexed(str, objects, INDEXED_KEYS, indexes)
  {
    KeysAreDistinct();
    indexes := BuildIndexesOver(str, objects, INDEXED_KEYS);
  }

  // ---------------------------------------------------------------- lookups

  /** The key each object type is looked up by. */
  function LookupKey(objectType: string): (key: Option<string>)
    ensures key.Some? ==> key.value in INDEXED_KEYS
  {
    if objectType in ["LocationType", "Location", "Role", "Manufacturer", "Platform", "Namespace",
                      "ConfigContext", "Secret", "SecretsGroup", "Device"] then Some(INDEXED_KEYS[1])
    else if objectType == "DeviceType" then Some(INDEXED_KEYS[2])
    else if objectType == "Prefix" then Some(INDEXED_KEYS[3])
    else if objectType == "VLAN" then Some(INDEXED_KEYS[4])
    else None
  }

  /** The types with an index, and the key each is found by. */
  const FOUND_BY := map["LocationType" := "name", "Location" := "name", "Role" := "name", "Manufacturer" := "name",
                        "Platform" := "name", "Namespace" := "name", "ConfigContext" := "name", "Secret" := "name",
                        "SecretsGroup" := "name", "Device" := "name", "DeviceType" := "model", "Prefix" := "prefix", "VLAN" := "vid"]

  lemma KeyOfType(objectType: string)
    ensures LookupKey(objectType) == if objectType in FOUND_BY then Some(FOUND_BY[objectType]) else None
  {
  }

  /** The first record, in snapshot order, with the identity under the key. */
  ghost predicate IsFirstMatch(str: Value -> string, objects: seq<Record>, key: string, identity: string,
                               found: Option<nat>) {
    match found
    case None => forall q | 0 <= q < |objects| :: !Has(str, objects[q], key, identity)
    case Some(p) =>
      && p < |objects| && Has(str, objects[p], key, identity)
      && forall q | 0 <= q < p :: !Has(str, objects[q], key, identity)
  }

  /** What the loop over an index bucket returns, whatever the bucket holds. */
  function FirstInRange(positions: seq<int>, n: nat): (found: Option<nat>)
    ensures found.Some? ==> found.value < n && found.value in positions
    ensures found.None? ==> forall p | p in positions :: !(0 <= p < n)
  {
    if positions == [] then None
    else if 0 <= positions[0] < n then Some(positions[0])
    else
      assert forall p :: p in positions ==> p == positions[0] || p in positions[1..];
      FirstInRange(positions[1..], n)
  }

  /** `_snapshot_lookup_by_identity` on a snapshot section, as the position of the record it returns. */
  function LookupByIdentity(objects: seq<Record>, indexes: Indexes, objectType: string, identity: string): Option<nat> {
    match LookupKey(objectType)
    case None => None
    case Some(key) => FirstInRange(Bucket(indexes, key, identity), |objects|)
  }

  method SnapshotLookupByIdentity(objects: seq<Record>, indexes: Indexes, objectType: string, identity: string)
    returns (found: Option<nat>)
    ensures found == LookupByIdentity(objects, indexes, objectType, identity)
  {
    var key := LookupKey(objectType);
    if key.None? { return None; }
    var positions := Bucket(indexes, key.value, identity);
    var i := 0;
    while i < |positions|
      invariant i <= |positions|
      invariant FirstInRange(positions, |objects|) == FirstInRange(positions[i..], |objects|)
    {
      var p := positions[i];
      if 0 <= p < |objects| { return Some(p); }
      i := i + 1;
    }
    return None;
  }

  /** Looking up through the indexes finds exactly what a linear scan over the snapshot finds first. */
  lemma LookupIsALinearScan(str: Value -> string, objects: seq<Record>, indexes: Indexes, objectType: string,
                            identity: string)
    requires objectType in FOUND_BY
    requires AllIndexed(str, objects, INDEXED_KEYS, indexes)
    ensures IsFirstMatch(str, objects, FOUND_BY[objectType], identity, LookupByIdentity(objects, indexes, objectType, identity))
  {
    KeyOfType(objectType);
    var key := LookupKey(objectType).value;
    var ps := Positions(str, objects, key, identity);
    assert Bucket(indexes, key, identity) == ps;
    if ps != [] {
      assert ps[0] in ps;
      assert forall p :: p in ps ==> ps[0] <= p;
    }
  }

  /** A first match is unique, so the lookup and any other first-match scan return the same record. */
  lemma FirstMatchIsUnique(str: Value -> string, objects: seq<Record>, key: string, identity: string, a: Option<nat>,
                           b: Option<nat>)
    requires IsFirstMatch(str, objects, key, identity, a) && IsFirstMatch(str, objects, key, identity, b)
    ensures a == b
  {
    if a.Some? && b.Some? {
      assert !(a.value < b.value) && !(b.value < a.value);
    }
  }

  /** Custom fields are never found: their type has no lookup key, so the code that would scan for them is not reached. */
  lemma CustomFieldsAreNeverFound(objects: seq<Record>, indexes: Indexes, identity: string)
    ensures LookupByIdentity(objects, indexes, "CustomField", identity) == None
  {
  }
}
