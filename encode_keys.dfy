/**
 * The key layer of `encodeJson`: the reserved top-level names, seeding the
 * key pool with the preset keys, `collectKeys` over the normalised value, and
 * the decision whether the key dictionary is worth applying.
 *
 * The key pool is an `InternPool` with prefix `k`. `SeedPresets` and
 * `CollectKeys` are the source's loops; each is proved to leave the pool as
 * adding a list of keys in order would (`AdmittedPresets`,
 * `CollectedKeys`), and the lemmas say which ids those keys receive.
 */
module EncodeKeys {
  import opened Wrappers
  import opened Json
  import Pool
  import Sorting
  import Strings
  import Errors

  /** The names a TOX document uses at its top level; data may not use them as keys. */
  const ReservedKeys: seq<string> := ["$schemaVersion", "$meta", "$dict", "$pathDict", "$valDict", "$shapes", "data"]

  predicate Reserved(k: string) { k in ReservedKeys }

  // ---------------------------------------------------------------------------
  // Preset keys
  // ---------------------------------------------------------------------------

  /** The preset keys the lenient loop adds: the non-reserved ones, in order. */
  function AdmittedPresets(presets: seq<string>): seq<string>
    decreases |presets|
  {
    if presets == [] then []
    else
      var init := AdmittedPresets(presets[..|presets| - 1]);
      var last := presets[|presets| - 1];
      if Reserved(last) then init else init + [last]
  }

  /** The admitted keys are exactly the preset keys that are not reserved. */
  lemma {:induction false} AdmittedPresetsMembers(presets: seq<string>)
    ensures forall k :: k in AdmittedPresets(presets) <==> k in presets && !Reserved(k)
    decreases |presets|
  {
    if presets != [] {
      var n := |presets| - 1;
      AdmittedPresetsMembers(presets[..n]);
      assert presets == presets[..n] + [presets[n]];
    }
  }

  /** The index of the first reserved preset key, if any. */
  function FirstReserved(presets: seq<string>): (r: Option<nat>)
    ensures r.Some? ==> r.value < |presets| && Reserved(presets[r.value])
    ensures r.Some? ==> forall j :: 0 <= j < r.value ==> !Reserved(presets[j])
    ensures r.None? <==> forall j :: 0 <= j < |presets| ==> !Reserved(presets[j])
  {
    if presets == [] then None
    else if Reserved(presets[0]) then Some(0)
    else
      var r := FirstReserved(presets[1..]);
      assert forall j :: 1 <= j < |presets| ==> presets[j] == presets[1..][j - 1];
      if r.Some? then Some(r.value + 1) else None
  }

  /** The error for a reserved preset key at index `i`. */
  function PresetViolation(presets: seq<string>, i: nat): (e: Errors.ToxError)
    requires i < |presets|
    ensures e.code == Errors.StrictModeViolation
  {
    Errors.ToxError(Errors.StrictModeViolation,
      "Reserved key '" + presets[i] + "' cannot be used in preset",
      "presetKeys[" + Strings.NatToString(i) + "]")
  }

  /**
   * The preset loop: a reserved key stops a strict encode with an error and
   * is skipped by a lenient one; every other key is added to the pool.
   */
  method SeedPresets(pool: Pool.InternPool, presets: seq<string>, strict: bool) returns (err: Option<Errors.ToxError>)
    requires pool.Valid()
    modifies pool
    ensures pool.Valid()
    ensures err.Some? <==> strict && FirstReserved(presets).Some?
    ensures err.Some? ==> err.value == PresetViolation(presets, FirstReserved(presets).value)
    ensures err.None? ==> pool.entries == Pool.AddedAll(pool.prefix, old(pool.entries), AdmittedPresets(presets))
  {
    ghost var start := pool.entries;
    ghost var done: seq<string> := [];
    var i := 0;
    while i < |presets|
      invariant 0 <= i <= |presets|
      invariant done == AdmittedPresets(presets[..i])
      invariant pool.Valid() && pool.entries == Pool.AddedAll(pool.prefix, start, done)
      invariant strict ==> forall j :: 0 <= j < i ==> !Reserved(presets[j])
    {
      var key := presets[i];
      AdmittedStep(presets, i);
      if Reserved(key) {
        if strict {
          FirstReservedAt(presets, i);
          return Some(PresetViolation(presets, i));
        }
      } else {
        assert strict ==> forall j :: 0 <= j < i + 1 ==> !Reserved(presets[j]);
        AddNext(pool, key, start, done);
        done := done + [key];
      }
      i := i + 1;
    }
    assert presets[..i] == presets;
    return None;
  }

  /** One more preset key: admitted unless reserved. */
  lemma AdmittedStep(presets: seq<string>, i: nat)
    requires i < |presets|
    ensures AdmittedPresets(presets[..i + 1]) ==
      if Reserved(presets[i]) then AdmittedPresets(presets[..i]) else AdmittedPresets(presets[..i]) + [presets[i]]
  {
    assert presets[..i + 1][..i] == presets[..i];
  }

  /** The key reported is the first reserved one. */
  lemma FirstReservedAt(presets: seq<string>, i: nat)
    requires i < |presets| && Reserved(presets[i])
    requires forall j :: 0 <= j < i ==> !Reserved(presets[j])
    ensures FirstReserved(presets) == Some(i)
  {
  }

  /** `pool.add(key)` after the values `done`: the pool is then as if `done + [key]` had been added. */
  method AddNext(pool: Pool.InternPool, key: string, ghost start: seq<Pool.Entry>, ghost done: seq<string>)
    requires pool.Valid() && pool.entries == Pool.AddedAll(pool.prefix, start, done)
    modifies pool
    ensures pool.Valid() && pool.entries == Pool.AddedAll(pool.prefix, start, done + [key])
  {
    var _ := pool.Add(key);
    Pool.AddedAllSnoc(pool.prefix, start, done, key);
  }

  /**
   * Distinct preset keys get the ids k1, k2, ... in order, and adding the
   * data keys afterwards never changes them.
   */
  lemma PresetIdsFirst(presets: seq<string>, dataKeys: seq<string>, i: nat)
    requires Sorting.Distinct(AdmittedPresets(presets))
    requires i < |AdmittedPresets(presets)|
    ensures var seeded := Pool.AddedAll('k', [], AdmittedPresets(presets));
      Pool.IdOf(Pool.AddedAll('k', seeded, dataKeys), AdmittedPresets(presets)[i]) == Some(Pool.IdFor('k', i + 1))
  {
    var admitted := AdmittedPresets(presets);
    var seeded := Pool.AddedAll('k', [], admitted);
    Pool.AddedAllDistinct('k', admitted);
    assert seeded[i].value == admitted[i];
    Pool.IdOfPosition('k', seeded, i);
    Pool.AddedAllKeepsIds('k', seeded, dataKeys, admitted[i]);
  }

  // ---------------------------------------------------------------------------
  // collectKeys
  // ---------------------------------------------------------------------------

  /** The keys `collectKeys` adds, in the order it adds them: each object's non-reserved keys, depth first. */
  function CollectedKeys(v: Json): seq<string>
    decreases v, 1
  {
    match v
    case Arr(items) => CollectedItems(items)
    case Obj(fields) => CollectedFields(fields)
    case _ => []
  }

  function CollectedItems(items: seq<Json>): seq<string>
    decreases items, 0
  {
    if items == [] then []
    else
      var last := items[|items| - 1];
      CollectedItems(items[..|items| - 1]) + CollectedKeys(last)
  }

  function CollectedFields(fields: Fields): seq<string>
    decreases fields, 0
  {
    if fields == [] then []
    else
      var last := fields[|fields| - 1];
      assert last in fields && last.1 < last;
      CollectedFields(fields[..|fields| - 1]) + OwnKey(last.0) + CollectedKeys(last.1)
  }

  /** The key itself, unless it is reserved. */
  function OwnKey(k: string): seq<string>
  {
    if Reserved(k) then [] else [k]
  }

  /** `collectKeys(value)`: add every non-reserved key of every object, depth first. */
  method CollectKeys(pool: Pool.InternPool, value: Json)
    requires pool.Valid()
    modifies pool
    ensures pool.Valid()
    ensures pool.entries == Pool.AddedAll(pool.prefix, old(pool.entries), CollectedKeys(value))
    decreases value, 1
  {
    ghost var start := pool.entries;
    ghost var done: seq<string> := [];
    match value {
      case Arr(items) =>
        var i := 0;
        while i < |items|
          invariant 0 <= i <= |items|
          invariant done == CollectedItems(items[..i])
          invariant pool.Valid() && pool.entries == Pool.AddedAll(pool.prefix, start, done)
        {
          ItemsStep(items, i);
          CollectNext(pool, items[i], start, done);
          done := done + CollectedKeys(items[i]);
          i := i + 1;
        }
        assert items[..i] == items;
      case Obj(fields) =>
        var i := 0;
        while i < |fields|
          invariant 0 <= i <= |fields|
          invariant done == CollectedFields(fields[..i])
          invariant pool.Valid() && pool.entries == Pool.AddedAll(pool.prefix, start, done)
        {
          var (key, val) := fields[i];
          FieldsStep(fields, i);
          ghost var mid := done + OwnKey(key);
          if !Reserved(key) {
            AddNext(pool, key, start, done);
          } else {
            assert mid == done;
          }
          assert fields[i] in fields && val < fields[i];
          CollectNext(pool, val, start, mid);
          done := mid + CollectedKeys(val);
          i := i + 1;
        }
        assert fields[..i] == fields;
      case _ =>
    }
  }

  /** `collectKeys(v)` after the keys `done`: the pool is then as if `done + CollectedKeys(v)` had been added. */
  method CollectNext(pool: Pool.InternPool, v: Json, ghost start: seq<Pool.Entry>, ghost done: seq<string>)
    requires pool.Valid() && pool.entries == Pool.AddedAll(pool.prefix, start, done)
    modifies pool
    ensures pool.Valid() && pool.entries == Pool.AddedAll(pool.prefix, start, done + CollectedKeys(v))
    decreases v, 2
  {
    CollectKeys(pool, v);
    Pool.AddedAllAppend(pool.prefix, start, done, CollectedKeys(v));
  }

  lemma ItemsStep(items: seq<Json>, i: nat)
    requires i < |items|
    ensures CollectedItems(items[..i + 1]) == CollectedItems(items[..i]) + CollectedKeys(items[i])
  {
    assert items[..i + 1][..i] == items[..i];
  }

  lemma FieldsStep(fields: Fields, i: nat)
    requires i < |fields|
    ensures CollectedFields(fields[..i + 1]) ==
      CollectedFields(fields[..i]) + OwnKey(fields[i].0) + CollectedKeys(fields[i].1)
  {
    assert fields[..i + 1][..i] == fields[..i];
  }

  /** Every non-reserved key of every object in `v` has an id in the pool `entries`. */
  predicate KeysPooled(entries: seq<Pool.Entry>, v: Json)
    decreases v
  {
    match v
    case Arr(items) => forall i :: 0 <= i < |items| ==> KeysPooled(entries, items[i])
    case Obj(fields) =>
      forall i :: 0 <= i < |fields| ==>
        (!Reserved(fields[i].0) ==> Pool.IdOf(entries, fields[i].0).Some?) && KeysPooled(entries, fields[i].1)
    case _ => true
  }

  lemma {:induction false} CollectedItemsContain(items: seq<Json>, i: nat)
    requires i < |items|
    ensures forall k :: k in CollectedKeys(items[i]) ==> k in CollectedItems(items)
    decreases |items|
  {
    var n := |items| - 1;
    if i < n {
      assert items[..n][i] == items[i];
      CollectedItemsContain(items[..n], i);
    }
  }

  lemma {:induction false} CollectedFieldsContain(fields: Fields, i: nat)
    requires i < |fields|
    ensures !Reserved(fields[i].0) ==> fields[i].0 in CollectedFields(fields)
    ensures forall k :: k in CollectedKeys(fields[i].1) ==> k in CollectedFields(fields)
    decreases |fields|
  {
    var n := |fields| - 1;
    if i < n {
      assert fields[..n][i] == fields[i];
      CollectedFieldsContain(fields[..n], i);
    }
  }

  /** A pool holding every collected key holds every non-reserved key of the value. */
  lemma {:induction false} CollectedKeysPooled(entries: seq<Pool.Entry>, v: Json)
    requires forall k :: k in CollectedKeys(v) ==> Pool.IdOf(entries, k).Some?
    ensures KeysPooled(entries, v)
    decreases v
  {
    match v
    case Arr(items) =>
      forall i | 0 <= i < |items| ensures KeysPooled(entries, items[i]) {
        CollectedItemsContain(items, i);
        CollectedKeysPooled(entries, items[i]);
      }
    case Obj(fields) =>
      forall i | 0 <= i < |fields|
        ensures (!Reserved(fields[i].0) ==> Pool.IdOf(entries, fields[i].0).Some?) && KeysPooled(entries, fields[i].1)
      {
        assert fields[i] in fields && fields[i].1 < fields[i];
        CollectedFieldsContain(fields, i);
        CollectedKeysPooled(entries, fields[i].1);
      }
    case _ =>
  }

  /** After `collectKeys`, every non-reserved key of the value has an id. */
  lemma CollectKeysPoolsAll(entries: seq<Pool.Entry>, v: Json)
    requires Pool.WellFormed('k', entries)
    ensures KeysPooled(Pool.AddedAll('k', entries, CollectedKeys(v)), v)
  {
    var keys := CollectedKeys(v);
    var after := Pool.AddedAll('k', entries, keys);
    Pool.AddedAllIds('k', entries, keys);
    forall k | k in keys ensures Pool.IdOf(after, k).Some? {
      var i :| 0 <= i < |keys| && keys[i] == k;
    }
    CollectedKeysPooled(after, v);
  }

  // ---------------------------------------------------------------------------
  // The dictionary decision
  // ---------------------------------------------------------------------------

  /**
   * `shouldUseDict` as the source computes it: forced by `compact` when the
   * dictionary is non-empty; otherwise only for data of at least 2000
   * characters whose overhead (150 + the dictionary's JSON length) is under
   * 30% of the data's length; and never for smaller data without `compact`.
   */
  function UseDict(compact: bool, dictSize: nat, dataSize: nat, dictJsonLen: nat): bool
  {
    var first :=
      if compact && dictSize > 0 then true
      else if dictSize > 0 && dataSize >= 2000 then 10 * (150 + dictJsonLen) < 3 * dataSize
      else false;
    if dataSize < 2000 && !compact then false else first
  }

  /** The dictionary is applied exactly when it is non-empty and forced or worth it. */
  lemma UseDictCharacterised(compact: bool, dictSize: nat, dataSize: nat, dictJsonLen: nat)
    ensures UseDict(compact, dictSize, dataSize, dictJsonLen) <==>
      dictSize > 0 && (compact || (dataSize >= 2000 && 10 * (150 + dictJsonLen) < 3 * dataSize))
    ensures dataSize < 2000 && !compact ==> !UseDict(compact, dictSize, dataSize, dictJsonLen)
  {
  }
}
