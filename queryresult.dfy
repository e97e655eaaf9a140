/**
 * The query-result adapter (`packages/tox-adapters/src/mind/queryResult.ts`):
 * the preset selection of `toToxQueryResult` and `sortSpecialArrays`, which
 * puts `edges`, `importers` and `externals` of the nested `result` object in
 * a fixed order before the result is encoded.
 *
 * Values are `JsValue`s, so the identity of every object and array is its
 * `ref`. `{ ...result }` is a new object (`copyRef`) over the same members;
 * the nested `result` object is the caller's own, sorted in place, so it keeps
 * its `ref` and so do the `edges` and `importers` arrays sorted in place;
 * `sortedExternals` is a new object (`externalsRef`) whose value arrays are
 * the old ones, sorted in place. `Member(fields, k)` is `obj[k]`.
 */
module QueryResult {
  import opened Wrappers
  import opened JsValues
  import Strings
  import Sorting
  import StringSort
  import EncodeKeys
  import EncodePaths
  import Encode
  import Json

  // ---------------------------------------------------------------------------
  // Members of plain objects
  // ---------------------------------------------------------------------------

  /** `obj[k]` on a plain object: the value of its member `k`, `undefined` without one. */
  function Member(fields: seq<(string, JsValue)>, k: string): (r: JsValue)
    ensures k !in JsKeys(fields) ==> r == JUndefined
  {
    if k in JsKeys(fields) then fields[KeyIndex(fields, k)].1 else JUndefined
  }

  /** `v.k` on any value: of the values modelled only plain objects have members. */
  function Field(v: JsValue, k: string): JsValue
  {
    if v.JObject? then Member(v.fields, k) else JUndefined
  }

  /** `obj[k] = value` for a key the object has: the member keeps its place. */
  function SetProp(fields: seq<(string, JsValue)>, k: string, value: JsValue): (r: seq<(string, JsValue)>)
    requires k in JsKeys(fields)
    ensures JsKeys(r) == JsKeys(fields)
  {
    var r := fields[KeyIndex(fields, k) := (k, value)];
    assert forall i :: 0 <= i < |r| ==> JsKeys(r)[i] == JsKeys(fields)[i];
    r
  }

  /** Two indices that both hold the first occurrence of a key are the same. */
  lemma FirstIndexUnique(fields: seq<(string, JsValue)>, k: string, i: nat)
    requires i < |fields| && fields[i].0 == k
    requires forall j :: 0 <= j < i ==> fields[j].0 != k
    ensures k in JsKeys(fields) && KeyIndex(fields, k) == i
  {
    assert JsKeys(fields)[i] == k;
  }

  /** After the assignment, `obj[k]` is the new value and every other member reads as before. */
  lemma SetPropMember(fields: seq<(string, JsValue)>, k: string, value: JsValue, k2: string)
    requires k in JsKeys(fields)
    ensures Member(SetProp(fields, k, value), k2) == if k2 == k then value else Member(fields, k2)
  {
    var r := SetProp(fields, k, value);
    if k2 in JsKeys(fields) {
      var i := KeyIndex(fields, k2);
      FirstIndexUnique(r, k2, i);
    }
  }

  // ---------------------------------------------------------------------------
  // The three orders
  // ---------------------------------------------------------------------------

  /** `x || ''` on a member declared as a string: the text, or "" for anything else. */
  function Text(v: JsValue): string
  {
    if v.JString? then v.s else ""
  }

  predicate LocaleLe(a: string, b: string)
  {
    a == b || Strings.LocaleLess(a, b)
  }

  /** Lexicographic order on three texts, each compared by localeCompare. */
  predicate TripleLe(x: (string, string, string), y: (string, string, string))
  {
    if x.0 != y.0 then Strings.LocaleLess(x.0, y.0)
    else if x.1 != y.1 then Strings.LocaleLess(x.1, y.1)
    else LocaleLe(x.2, y.2)
  }

  lemma TripleLeTotal(x: (string, string, string), y: (string, string, string))
    ensures TripleLe(x, y) || TripleLe(y, x)
  {
    Strings.LocaleTotal(x.0, y.0);
    Strings.LocaleTotal(x.1, y.1);
    Strings.LocaleTotal(x.2, y.2);
  }

  lemma LocaleLessTransitive(a: string, b: string, c: string)
    requires Strings.LocaleLess(a, b) && Strings.LocaleLess(b, c)
    ensures Strings.LocaleLess(a, c) && a != c
  {
    Strings.LocaleTransitive(a, b, c);
    Strings.LocaleIrreflexive(a);
  }

  lemma TripleLeTransitive(x: (string, string, string), y: (string, string, string), z: (string, string, string))
    requires TripleLe(x, y) && TripleLe(y, z)
    ensures TripleLe(x, z)
  {
    if x.0 != y.0 && y.0 != z.0 {
      LocaleLessTransitive(x.0, y.0, z.0);
    } else if x.0 == y.0 && y.0 == z.0 {
      if x.1 != y.1 && y.1 != z.1 {
        LocaleLessTransitive(x.1, y.1, z.1);
      } else if x.1 == y.1 && y.1 == z.1 {
        if x.2 != y.2 && y.2 != z.2 {
          LocaleLessTransitive(x.2, y.2, z.2);
        }
      }
    }
  }

  /** What the edge comparator compares: `from`, `to` and `type || ''`. */
  function EdgeKey(e: JsValue): (string, string, string)
  {
    (Text(Field(e, "from")), Text(Field(e, "to")), Text(Field(e, "type")))
  }

  /** The edge comparator returns at most 0: by `from`, then `to`, then `type || ''`. */
  predicate EdgeLe(a: JsValue, b: JsValue)
  {
    TripleLe(EdgeKey(a), EdgeKey(b))
  }

  /** The importer comparator returns at most 0: by `file || ''`. */
  predicate ImporterLe(a: JsValue, b: JsValue)
  {
    LocaleLe(Text(Field(a, "file")), Text(Field(b, "file")))
  }

  /** `sort()` without a comparator: by the elements' string forms, code unit by code unit. */
  predicate ItemLe(a: JsValue, b: JsValue)
  {
    Strings.CodeUnitLe(ToStr(a), ToStr(b))
  }

  lemma EdgeLeTotal()
    ensures Sorting.TotalPreorder(EdgeLe)
  {
    forall a, b ensures EdgeLe(a, b) || EdgeLe(b, a) {
      TripleLeTotal(EdgeKey(a), EdgeKey(b));
    }
    forall a, b, c | EdgeLe(a, b) && EdgeLe(b, c) ensures EdgeLe(a, c) {
      TripleLeTransitive(EdgeKey(a), EdgeKey(b), EdgeKey(c));
    }
  }

  lemma ImporterLeTotal()
    ensures Sorting.TotalPreorder(ImporterLe)
  {
    forall a, b ensures ImporterLe(a, b) || ImporterLe(b, a) {
      Strings.LocaleTotal(Text(Field(a, "file")), Text(Field(b, "file")));
    }
    forall a, b, c | ImporterLe(a, b) && ImporterLe(b, c) ensures ImporterLe(a, c) {
      var (x, y, z) := (Text(Field(a, "file")), Text(Field(b, "file")), Text(Field(c, "file")));
      if x != y && y != z {
        Strings.LocaleTransitive(x, y, z);
      }
    }
  }

  lemma ItemLeTotal()
    ensures Sorting.TotalPreorder(ItemLe)
  {
    forall a, b ensures ItemLe(a, b) || ItemLe(b, a) {
      Strings.CodeUnitTotal(ToStr(a), ToStr(b));
    }
    forall a, b, c | ItemLe(a, b) && ItemLe(b, c) ensures ItemLe(a, c) {
      if ToStr(a) != ToStr(b) && ToStr(b) != ToStr(c) {
        Strings.CodeUnitTransitive(ToStr(a), ToStr(b), ToStr(c));
      }
    }
  }

  /** `edges.sort(...)`: ordered by the edge comparator, the same edges. */
  function SortedEdges(items: seq<JsValue>): (r: seq<JsValue>)
    ensures Sorting.SortedBy(r, EdgeLe)
    ensures multiset(r) == multiset(items)
  {
    EdgeLeTotal();
    Sorting.SortBy(items, EdgeLe)
  }

  /** The edge sort is stable: edges with equal `from`, `to` and `type` keep their old order. */
  lemma SortedEdgesStable(items: seq<JsValue>)
    ensures forall x :: Sorting.TiesWith(SortedEdges(items), x, EdgeLe) == Sorting.TiesWith(items, x, EdgeLe)
  {
    EdgeLeTotal();
    Sorting.SortByStable(items, EdgeLe);
  }

  /** `importers.sort(...)`: ordered by `file`, the same importers. */
  function SortedImporters(items: seq<JsValue>): (r: seq<JsValue>)
    ensures Sorting.SortedBy(r, ImporterLe)
    ensures multiset(r) == multiset(items)
  {
    ImporterLeTotal();
    Sorting.SortBy(items, ImporterLe)
  }

  /** The importer sort is stable: importers with equal files keep their old order. */
  lemma SortedImportersStable(items: seq<JsValue>)
    ensures forall x :: Sorting.TiesWith(SortedImporters(items), x, ImporterLe) == Sorting.TiesWith(items, x, ImporterLe)
  {
    ImporterLeTotal();
    Sorting.SortByStable(items, ImporterLe);
  }

  /** `arr.sort()`: the same array, ordered by the items' string forms, with the same items. */
  function SortedArray(v: JsValue): (r: JsValue)
    requires v.JArray?
    ensures r.JArray? && r.ref == v.ref
    ensures Sorting.SortedBy(r.items, ItemLe) && multiset(r.items) == multiset(v.items)
  {
    ItemLeTotal();
    JArray(v.ref, Sorting.SortBy(v.items, ItemLe))
  }

  /** `arr.sort()` is stable: items with the same string form keep their old order. */
  lemma SortedArrayStable(v: JsValue)
    requires v.JArray?
    ensures forall x :: Sorting.TiesWith(SortedArray(v).items, x, ItemLe) == Sorting.TiesWith(v.items, x, ItemLe)
  {
    ItemLeTotal();
    Sorting.SortByStable(v.items, ItemLe);
  }

  // ---------------------------------------------------------------------------
  // sortSpecialArrays
  // ---------------------------------------------------------------------------

  /**
   * How `sortSpecialArrays` ends: normally with a value, or with the
   * TypeError that `externals[key]!.sort()` throws when that member is not
   * an array. Nothing in `toToxQueryResult` catches it.
   */
  datatype Completion<T> = Normal(value: T) | TypeErrorThrown

  /** `v && typeof v === 'object'`: an array, a Date, a Map or Set, or a plain object. */
  predicate TruthyObject(v: JsValue)
  {
    JsTruthy(v) && TypeOf(v) == "object"
  }

  /**
   * The keys `Object.keys` lists for such a value, each with the member it
   * reads: a plain object's own members, an array's indices in decimal, and
   * nothing for a Date, a Map or a Set.
   */
  function OwnEntries(v: JsValue): seq<(string, JsValue)>
    requires TruthyObject(v)
  {
    match v
    case JObject(_, fields) => fields
    case JArray(_, items) => seq(|items|, i requires 0 <= i < |items| => (Strings.NatToString(i), items[i]))
    case _ => []
  }

  /** Every key reads an array, so every `externals[key]!.sort()` call returns. */
  predicate MembersAreArrays(entries: seq<(string, JsValue)>)
  {
    forall i :: 0 <= i < |entries| ==> Member(entries, entries[i].0).JArray?
  }

  /** A key of the object that reads something other than an array makes the predicate false. */
  lemma NotMemberArray(entries: seq<(string, JsValue)>, k: string)
    requires k in JsKeys(entries) && !Member(entries, k).JArray?
    ensures !MembersAreArrays(entries)
  {
    var i := KeyIndex(entries, k);
  }

  /** `externals[key]` for a key of an object whose keys all read arrays. */
  function ArrayMember(entries: seq<(string, JsValue)>, k: string): (r: JsValue)
    requires MembersAreArrays(entries) && k in JsKeys(entries)
    ensures r.JArray? && r == Member(entries, k)
  {
    var i := KeyIndex(entries, k);
    assert entries[i].0 == k;
    Member(entries, k)
  }

  /**
   * The members of `sortedExternals`: for each key of
   * `Object.keys(externals).sort()`, in that order, `externals[key].sort()`.
   */
  function SortedExternals(entries: seq<(string, JsValue)>): (r: seq<(string, JsValue)>)
    requires MembersAreArrays(entries)
    ensures |r| == |entries|
  {
    var keys := StringSort.SortStrings(JsKeys(entries));
    assert |multiset(keys)| == |keys|;
    seq(|keys|, i requires 0 <= i < |keys| => (keys[i], SortedArray(ArrayMember(entries, keys[i]))))
  }

  /** Member `j` of `sortedExternals`: the `j`-th sorted key with its array sorted. */
  lemma SortedExternalsAt(entries: seq<(string, JsValue)>, j: nat)
    requires MembersAreArrays(entries) && j < |entries|
    ensures var keys := StringSort.SortStrings(JsKeys(entries));
      keys[j] in JsKeys(entries) && Member(entries, keys[j]).JArray?
      && SortedExternals(entries)[j] == (keys[j], SortedArray(Member(entries, keys[j])))
  {
    var keys := StringSort.SortStrings(JsKeys(entries));
    assert |multiset(keys)| == |keys|;
    assert keys[j] in multiset(keys);
  }

  /**
   * The loop of `sortSpecialArrays` filling `sortedExternals`. The sorted keys
   * are distinct, so each assignment adds a member at the end; the first key
   * whose member is not an array ends the loop with the TypeError.
   */
  method SortExternals(entries: seq<(string, JsValue)>) returns (r: Completion<seq<(string, JsValue)>>)
    ensures r == if MembersAreArrays(entries) then Normal(SortedExternals(entries)) else TypeErrorThrown
  {
    var keys := StringSort.SortStrings(JsKeys(entries));
    assert |multiset(keys)| == |keys|;
    var sortedExternals: seq<(string, JsValue)> := [];
    for i := 0 to |keys|
      invariant |sortedExternals| == i
      invariant forall j :: 0 <= j < i ==>
        Member(entries, keys[j]).JArray? && sortedExternals[j] == (keys[j], SortedArray(Member(entries, keys[j])))
    {
      var key := keys[i];
      var value := Member(entries, key);
      if !value.JArray? {
        NotMemberArray(entries, key);
        return TypeErrorThrown;
      }
      sortedExternals := sortedExternals + [(key, SortedArray(value))];
    }
    assert MembersAreArrays(entries) by {
      forall i | 0 <= i < |entries| ensures Member(entries, entries[i].0).JArray? {
        assert JsKeys(entries)[i] == entries[i].0;
        assert entries[i].0 in multiset(keys);
        var j :| 0 <= j < |keys| && keys[j] == entries[i].0;
      }
    }
    forall j | 0 <= j < |keys| ensures sortedExternals[j] == SortedExternals(entries)[j] {
      SortedExternalsAt(entries, j);
    }
    assert |keys| == |SortedExternals(entries)|;
    assert sortedExternals == SortedExternals(entries);
    r := Normal(sortedExternals);
  }

  /** `if (Array.isArray(res.edges)) res.edges = res.edges.sort(...)`. */
  function EdgesStep(fields: seq<(string, JsValue)>): (r: seq<(string, JsValue)>)
    ensures JsKeys(r) == JsKeys(fields)
  {
    var edges := Member(fields, "edges");
    if edges.JArray? then SetProp(fields, "edges", JArray(edges.ref, SortedEdges(edges.items))) else fields
  }

  /** `if (Array.isArray(res.importers)) res.importers = res.importers.sort(...)`. */
  function ImportersStep(fields: seq<(string, JsValue)>): (r: seq<(string, JsValue)>)
    ensures JsKeys(r) == JsKeys(fields)
  {
    var importers := Member(fields, "importers");
    if importers.JArray? then SetProp(fields, "importers", JArray(importers.ref, SortedImporters(importers.items)))
    else fields
  }

  /**
   * `res.externals = sortedExternals` when `externals` is a truthy object of
   * any kind; it throws exactly when one of its keys reads something that is
   * not an array.
   */
  function ExternalsStep(fields: seq<(string, JsValue)>, externalsRef: nat): (r: Completion<seq<(string, JsValue)>>)
    ensures r.Normal? ==> JsKeys(r.value) == JsKeys(fields)
    ensures var externals := Member(fields, "externals");
      r.TypeErrorThrown? <==> TruthyObject(externals) && !MembersAreArrays(OwnEntries(externals))
  {
    var externals := Member(fields, "externals");
    if TruthyObject(externals) then
      var entries := OwnEntries(externals);
      if MembersAreArrays(entries) then
        Normal(SetProp(fields, "externals", JObject(externalsRef, SortedExternals(entries))))
      else TypeErrorThrown
    else Normal(fields)
  }

  /** The nested `result` object after the three steps, unless the last one throws. */
  function SortedInner(fields: seq<(string, JsValue)>, externalsRef: nat): (r: Completion<seq<(string, JsValue)>>)
    ensures r.Normal? ==> JsKeys(r.value) == JsKeys(fields)
  {
    ExternalsStep(ImportersStep(EdgesStep(fields)), externalsRef)
  }

  /**
   * `sortSpecialArrays(result)`: the shallow copy, whose `result` member is
   * the caller's nested object with its arrays sorted. Of the truthy values
   * `typeof` calls "object", only a plain object has the three members.
   */
  function SortedSpecial(result: JsValue, copyRef: nat, externalsRef: nat): (r: Completion<JsValue>)
    requires result.JObject?
    ensures r.Normal? ==>
      r.value.JObject? && r.value.ref == copyRef && JsKeys(r.value.fields) == JsKeys(result.fields)
  {
    var res := Member(result.fields, "result");
    if res.JObject? then
      match SortedInner(res.fields, externalsRef)
      case Normal(inner) => Normal(JObject(copyRef, SetProp(result.fields, "result", JObject(res.ref, inner))))
      case TypeErrorThrown => TypeErrorThrown
    else Normal(JObject(copyRef, result.fields))
  }

  /** The steps on the nested object, in place. */
  method SortInner(res: seq<(string, JsValue)>, externalsRef: nat) returns (r: Completion<seq<(string, JsValue)>>)
    ensures r == SortedInner(res, externalsRef)
  {
    var fields := SortEdges(res);
    fields := SortImporters(fields);
    r := RebuildExternals(fields, externalsRef);
  }

  method SortEdges(res: seq<(string, JsValue)>) returns (fields: seq<(string, JsValue)>)
    ensures fields == EdgesStep(res)
  {
    fields := res;
    var edges := Member(fields, "edges");
    if edges.JArray? {
      fields := SetProp(fields, "edges", JArray(edges.ref, SortedEdges(edges.items)));
    }
  }

  method SortImporters(res: seq<(string, JsValue)>) returns (fields: seq<(string, JsValue)>)
    ensures fields == ImportersStep(res)
  {
    fields := res;
    var importers := Member(fields, "importers");
    if importers.JArray? {
      fields := SetProp(fields, "importers", JArray(importers.ref, SortedImporters(importers.items)));
    }
  }

  method RebuildExternals(res: seq<(string, JsValue)>, externalsRef: nat) returns (r: Completion<seq<(string, JsValue)>>)
    ensures r == ExternalsStep(res, externalsRef)
  {
    var externals := Member(res, "externals");
    if JsTruthy(externals) && TypeOf(externals) == "object" {
      var sortedExternals := SortExternals(OwnEntries(externals));
      if sortedExternals.TypeErrorThrown? {
        return TypeErrorThrown;
      }
      r := Normal(SetProp(res, "externals", JObject(externalsRef, sortedExternals.value)));
    } else {
      r := Normal(res);
    }
  }

  /** Of the values the truthy-object test admits, the plain objects are the ones with members. */
  lemma ObjectTest(v: JsValue)
    ensures (JsTruthy(v) && TypeOf(v) == "object" && v.JObject?) <==> v.JObject?
  {
  }

  /** `sortSpecialArrays` as the source runs it. */
  method SortSpecialArrays(result: JsValue, copyRef: nat, externalsRef: nat) returns (sorted: Completion<JsValue>)
    requires result.JObject?
    ensures sorted == SortedSpecial(result, copyRef, externalsRef)
  {
    var copy := JObject(copyRef, result.fields);
    sorted := Normal(copy);
    var res := Member(copy.fields, "result");
    ObjectTest(res);
    if JsTruthy(res) && TypeOf(res) == "object" && res.JObject? {
      var inner := SortInner(res.fields, externalsRef);
      if inner.TypeErrorThrown? {
        return TypeErrorThrown;
      }
      sorted := Normal(JObject(copyRef, SetProp(copy.fields, "result", JObject(res.ref, inner.value))));
    }
  }

  // ---------------------------------------------------------------------------
  // What sortSpecialArrays promises
  // ---------------------------------------------------------------------------

  /** Setting a member to the value it already holds changes nothing. */
  lemma SetPropSame(fields: seq<(string, JsValue)>, k: string)
    requires k in JsKeys(fields)
    ensures SetProp(fields, k, Member(fields, k)) == fields
  {
  }

  /** A second assignment to the same member overrides the first. */
  lemma SetPropTwice(fields: seq<(string, JsValue)>, k: string, v: JsValue, w: JsValue)
    requires k in JsKeys(fields)
    ensures SetProp(SetProp(fields, k, v), k, w) == SetProp(fields, k, w)
  {
    FirstIndexUnique(SetProp(fields, k, v), k, KeyIndex(fields, k));
  }

  /** The first two steps leave `externals` as it was. */
  lemma ExternalsUntouched(fields: seq<(string, JsValue)>)
    ensures Member(ImportersStep(EdgesStep(fields)), "externals") == Member(fields, "externals")
  {
    var edges := Member(fields, "edges");
    if edges.JArray? {
      SetPropMember(fields, "edges", JArray(edges.ref, SortedEdges(edges.items)), "externals");
    }
    var afterEdges := EdgesStep(fields);
    var importers := Member(afterEdges, "importers");
    if importers.JArray? {
      SetPropMember(afterEdges, "importers", JArray(importers.ref, SortedImporters(importers.items)), "externals");
    }
  }

  /**
   * The nested object after the three steps. They throw exactly when
   * `externals` is a truthy object with a key that reads something other than
   * an array. Otherwise `edges` and `importers`, when arrays, are the same
   * arrays sorted; `externals`, when a truthy object, is the new object of
   * sorted arrays under its sorted keys; every other member is as it was.
   */
  lemma InnerMember(fields: seq<(string, JsValue)>, externalsRef: nat, k: string)
    ensures var externals := Member(fields, "externals");
      SortedInner(fields, externalsRef).TypeErrorThrown? <==>
        TruthyObject(externals) && !MembersAreArrays(OwnEntries(externals))
    ensures var edges := Member(fields, "edges");
      var importers := Member(fields, "importers");
      var externals := Member(fields, "externals");
      SortedInner(fields, externalsRef).Normal? ==>
        Member(SortedInner(fields, externalsRef).value, k) ==
          if k == "edges" && edges.JArray? then JArray(edges.ref, SortedEdges(edges.items))
          else if k == "importers" && importers.JArray? then JArray(importers.ref, SortedImporters(importers.items))
          else if k == "externals" && TruthyObject(externals) then
            JObject(externalsRef, SortedExternals(OwnEntries(externals)))
          else Member(fields, k)
  {
    ExternalsUntouched(fields);
    var edges := Member(fields, "edges");
    var afterEdges := EdgesStep(fields);
    if edges.JArray? {
      SetPropMember(fields, "edges", JArray(edges.ref, SortedEdges(edges.items)), k);
      SetPropMember(fields, "edges", JArray(edges.ref, SortedEdges(edges.items)), "importers");
    }
    var importers := Member(afterEdges, "importers");
    var afterImporters := ImportersStep(afterEdges);
    if importers.JArray? {
      SetPropMember(afterEdges, "importers", JArray(importers.ref, SortedImporters(importers.items)), k);
    }
    var externals := Member(afterImporters, "externals");
    if TruthyObject(externals) && MembersAreArrays(OwnEntries(externals)) {
      SetPropMember(afterImporters, "externals", JObject(externalsRef, SortedExternals(OwnEntries(externals))), k);
    }
  }

  /**
   * The edges, when an array and when the steps return, end up ordered by
   * `from`, `to` and `type`: the same array holding the same edges, edges
   * that tie in their old order.
   */
  lemma EdgesOrdered(fields: seq<(string, JsValue)>, externalsRef: nat)
    requires Member(fields, "edges").JArray? && SortedInner(fields, externalsRef).Normal?
    ensures var before := Member(fields, "edges");
      var after := Member(SortedInner(fields, externalsRef).value, "edges");
      && after.JArray? && after.ref == before.ref
      && Sorting.SortedBy(after.items, EdgeLe)
      && multiset(after.items) == multiset(before.items)
      && forall x :: Sorting.TiesWith(after.items, x, EdgeLe) == Sorting.TiesWith(before.items, x, EdgeLe)
  {
    InnerMember(fields, externalsRef, "edges");
    SortedEdgesStable(Member(fields, "edges").items);
  }

  /**
   * The importers, when an array and when the steps return, end up ordered
   * by `file`: the same array holding the same importers, those with equal
   * files in their old order.
   */
  lemma ImportersOrdered(fields: seq<(string, JsValue)>, externalsRef: nat)
    requires Member(fields, "importers").JArray? && SortedInner(fields, externalsRef).Normal?
    ensures var before := Member(fields, "importers");
      var after := Member(SortedInner(fields, externalsRef).value, "importers");
      && after.JArray? && after.ref == before.ref
      && Sorting.SortedBy(after.items, ImporterLe)
      && multiset(after.items) == multiset(before.items)
      && forall x :: Sorting.TiesWith(after.items, x, ImporterLe) == Sorting.TiesWith(before.items, x, ImporterLe)
  {
    InnerMember(fields, externalsRef, "importers");
    SortedImportersStable(Member(fields, "importers").items);
  }

  /**
   * `sortedExternals` has the keys of `externals` in code-unit order, and
   * under each key the array `externals` had there, sorted.
   */
  lemma ExternalsEntries(entries: seq<(string, JsValue)>)
    requires MembersAreArrays(entries)
    ensures var r := SortedExternals(entries);
      && Sorting.SortedBy(JsKeys(r), Strings.CodeUnitLe)
      && multiset(JsKeys(r)) == multiset(JsKeys(entries))
      && forall k :: k in JsKeys(entries) ==> Member(r, k) == SortedArray(ArrayMember(entries, k))
  {
    var keys := StringSort.SortStrings(JsKeys(entries));
    var r := SortedExternals(entries);
    assert JsKeys(r) == keys;
    forall k | k in JsKeys(entries) ensures Member(r, k) == SortedArray(ArrayMember(entries, k)) {
      assert k in keys;
      var i := KeyIndex(r, k);
      assert r[i] == (keys[i], SortedArray(ArrayMember(entries, keys[i])));
    }
  }

  /**
   * The externals, when a truthy object whose keys all read arrays, are
   * replaced by a new object of sorted keys and sorted arrays.
   */
  lemma ExternalsOrdered(fields: seq<(string, JsValue)>, externalsRef: nat)
    requires TruthyObject(Member(fields, "externals"))
    requires MembersAreArrays(OwnEntries(Member(fields, "externals")))
    ensures SortedInner(fields, externalsRef).Normal?
    ensures var before := OwnEntries(Member(fields, "externals"));
      var after := Member(SortedInner(fields, externalsRef).value, "externals");
      && after.JObject? && after.ref == externalsRef
      && Sorting.SortedBy(JsKeys(after.fields), Strings.CodeUnitLe)
      && multiset(JsKeys(after.fields)) == multiset(JsKeys(before))
      && forall k :: k in JsKeys(before) ==> Member(after.fields, k) == SortedArray(ArrayMember(before, k))
  {
    InnerMember(fields, externalsRef, "externals");
    ExternalsEntries(OwnEntries(Member(fields, "externals")));
  }

  /** A Date, Map or Set `externals` has no keys, so it becomes an empty object. */
  lemma ExternalsWithoutKeys(fields: seq<(string, JsValue)>, externalsRef: nat)
    requires var externals := Member(fields, "externals"); externals.JDate? || externals.JCollection?
    ensures SortedInner(fields, externalsRef).Normal?
    ensures Member(SortedInner(fields, externalsRef).value, "externals") == JObject(externalsRef, [])
  {
    ExternalsUntouched(fields);
    var pre := ImportersStep(EdgesStep(fields));
    assert SortedInner(fields, externalsRef) == ExternalsStep(pre, externalsRef);
    ExternalsStepMember(pre, externalsRef);
    assert SortedExternals(OwnEntries(Member(fields, "externals"))) == [];
  }


  /** What the last step leaves under `externals` when it returns. */
  lemma ExternalsStepMember(pre: seq<(string, JsValue)>, externalsRef: nat)
    ensures var externals := Member(pre, "externals");
      ExternalsStep(pre, externalsRef).Normal? && TruthyObject(externals) ==>
        && MembersAreArrays(OwnEntries(externals))
        && Member(ExternalsStep(pre, externalsRef).value, "externals")
          == JObject(externalsRef, SortedExternals(OwnEntries(externals)))
  {
    var externals := Member(pre, "externals");
    if TruthyObject(externals) && MembersAreArrays(OwnEntries(externals)) {
      SetPropMember(pre, "externals", JObject(externalsRef, SortedExternals(OwnEntries(externals))), "externals");
    }
  }

  /** An array `externals` throws exactly when one of its items is not an array. */
  lemma ExternalsFromArrayThrows(fields: seq<(string, JsValue)>, externalsRef: nat)
    requires Member(fields, "externals").JArray?
    ensures var items := Member(fields, "externals").items;
      SortedInner(fields, externalsRef).Normal? <==> forall i :: 0 <= i < |items| ==> items[i].JArray?
  {
    var externals := Member(fields, "externals");
    ExternalsUntouched(fields);
    ArrayEntries(externals.ref, externals.items);
  }

  /** An array `externals` that does not throw is rebuilt under its indices, each array sorted. */
  lemma ExternalsFromArray(fields: seq<(string, JsValue)>, externalsRef: nat)
    requires Member(fields, "externals").JArray? && SortedInner(fields, externalsRef).Normal?
    ensures var items := Member(fields, "externals").items; forall i :: 0 <= i < |items| ==> items[i].JArray?
    ensures var items := Member(fields, "externals").items;
      var after := Member(SortedInner(fields, externalsRef).value, "externals");
      && after.JObject? && |after.fields| == |items|
      && forall i :: 0 <= i < |items| ==> Member(after.fields, Strings.NatToString(i)) == SortedArray(items[i])
  {
    var externals := Member(fields, "externals");
    ExternalsFromArrayThrows(fields, externalsRef);
    ExternalsUntouched(fields);
    var pre := ImportersStep(EdgesStep(fields));
    assert SortedInner(fields, externalsRef) == ExternalsStep(pre, externalsRef);
    ExternalsStepMember(pre, externalsRef);
    ArrayEntries(externals.ref, externals.items);
    var entries := OwnEntries(externals);
    ExternalsEntries(entries);
    forall i | 0 <= i < |externals.items|
      ensures Member(SortedExternals(entries), Strings.NatToString(i)) == SortedArray(externals.items[i])
    {
      assert JsKeys(entries)[i] == Strings.NatToString(i);
    }
  }

  /** An array's entries are its items under their decimal indices; all read arrays exactly when all items are arrays. */
  lemma ArrayEntries(ref: nat, items: seq<JsValue>)
    ensures var entries := OwnEntries(JArray(ref, items));
      (MembersAreArrays(entries) <==> forall i :: 0 <= i < |items| ==> items[i].JArray?)
      && forall i :: 0 <= i < |items| ==>
        entries[i].0 == Strings.NatToString(i) && Member(entries, Strings.NatToString(i)) == items[i]
  {
    forall i | 0 <= i < |items|
      ensures OwnEntries(JArray(ref, items))[i].0 == Strings.NatToString(i)
      ensures Member(OwnEntries(JArray(ref, items)), Strings.NatToString(i)) == items[i]
    {
      IndexKey(ref, items, i);
    }
  }

  /** The index keys of an array are distinct, so index `i` reads item `i`. */
  lemma IndexKey(ref: nat, items: seq<JsValue>, i: nat)
    requires i < |items|
    ensures var entries := OwnEntries(JArray(ref, items));
      JsKeys(entries)[i] == Strings.NatToString(i) && Member(entries, Strings.NatToString(i)) == items[i]
  {
    var entries := OwnEntries(JArray(ref, items));
    var key := Strings.NatToString(i);
    assert JsKeys(entries)[i] == key;
    forall j | 0 <= j < i ensures entries[j].0 != key {
      if entries[j].0 == key {
        Strings.NatToStringInjective(j, i);
      }
    }
    FirstIndexUnique(entries, key, i);
  }

  /**
   * The shallow copy has the caller's members, except that `result`, when a
   * plain object, is that same object (same `ref`) with its arrays sorted;
   * the copy throws exactly when the steps on that object throw.
   */
  lemma CopyMember(result: JsValue, copyRef: nat, externalsRef: nat, k: string)
    requires result.JObject?
    ensures var res := Member(result.fields, "result");
      SortedSpecial(result, copyRef, externalsRef).TypeErrorThrown? <==>
        res.JObject? && SortedInner(res.fields, externalsRef).TypeErrorThrown?
    ensures var res := Member(result.fields, "result");
      SortedSpecial(result, copyRef, externalsRef).Normal? ==>
        Member(SortedSpecial(result, copyRef, externalsRef).value.fields, k) ==
          if k == "result" && res.JObject? then JObject(res.ref, SortedInner(res.fields, externalsRef).value)
          else Member(result.fields, k)
  {
    var res := Member(result.fields, "result");
    if res.JObject? && SortedInner(res.fields, externalsRef).Normal? {
      SetPropMember(result.fields, "result", JObject(res.ref, SortedInner(res.fields, externalsRef).value), k);
    }
  }

  // ---------------------------------------------------------------------------
  // Sorting twice
  // ---------------------------------------------------------------------------

  lemma SortedArrayTwice(v: JsValue)
    requires v.JArray?
    ensures SortedArray(SortedArray(v)) == SortedArray(v)
  {
    ItemLeTotal();
    Sorting.SortBySorted(SortedArray(v).items, ItemLe);
  }

  /** `sortedExternals` is keyed by the sorted keys, each reading an array. */
  lemma SortedExternalsKeys(entries: seq<(string, JsValue)>)
    requires MembersAreArrays(entries)
    ensures JsKeys(SortedExternals(entries)) == StringSort.SortStrings(JsKeys(entries))
    ensures MembersAreArrays(SortedExternals(entries))
  {
    var keys := StringSort.SortStrings(JsKeys(entries));
    var r := SortedExternals(entries);
    forall i | 0 <= i < |r| ensures r[i].0 == keys[i] && r[i].1.JArray? {
      SortedExternalsAt(entries, i);
    }
    forall i | 0 <= i < |r| ensures Member(r, r[i].0).JArray? {
      assert JsKeys(r)[i] == r[i].0;
      var j := KeyIndex(r, r[i].0);
    }
  }

  lemma ExternalsTwice(entries: seq<(string, JsValue)>)
    requires MembersAreArrays(entries)
    ensures MembersAreArrays(SortedExternals(entries))
    ensures SortedExternals(SortedExternals(entries)) == SortedExternals(entries)
  {
    var keys := StringSort.SortStrings(JsKeys(entries));
    var r := SortedExternals(entries);
    SortedExternalsKeys(entries);
    StringSort.SortStringsSorted(keys);
    forall i | 0 <= i < |r| ensures SortedExternals(r)[i] == r[i] {
      SortedExternalsAt(r, i);
      var j := KeyIndex(r, keys[i]);
      SortedExternalsAt(entries, i);
      SortedExternalsAt(entries, j);
      SortedArrayTwice(Member(entries, keys[j]));
    }
    assert |SortedExternals(r)| == |r|;
  }

  /** The edges the steps return are already sorted. */
  lemma EdgesSettled(fields: seq<(string, JsValue)>, externalsRef: nat)
    requires SortedInner(fields, externalsRef).Normal?
    ensures var once := SortedInner(fields, externalsRef).value; EdgesStep(once) == once
  {
    var once := SortedInner(fields, externalsRef).value;
    var edges := Member(once, "edges");
    if edges.JArray? {
      InnerMember(fields, externalsRef, "edges");
      EdgeLeTotal();
      Sorting.SortBySorted(edges.items, EdgeLe);
      SetPropSame(once, "edges");
    }
  }

  /** The importers the steps return are already sorted. */
  lemma ImportersSettled(fields: seq<(string, JsValue)>, externalsRef: nat)
    requires SortedInner(fields, externalsRef).Normal?
    ensures var once := SortedInner(fields, externalsRef).value; ImportersStep(once) == once
  {
    var once := SortedInner(fields, externalsRef).value;
    var importers := Member(once, "importers");
    if importers.JArray? {
      InnerMember(fields, externalsRef, "importers");
      ImporterLeTotal();
      Sorting.SortBySorted(importers.items, ImporterLe);
      SetPropSame(once, "importers");
    }
  }

  /** The externals the steps return are rebuilt to themselves. */
  lemma ExternalsSettled(fields: seq<(string, JsValue)>, externalsRef: nat)
    requires SortedInner(fields, externalsRef).Normal?
    ensures var once := SortedInner(fields, externalsRef).value; ExternalsStep(once, externalsRef) == Normal(once)
  {
    var once := SortedInner(fields, externalsRef).value;
    InnerMember(fields, externalsRef, "externals");
    var original := Member(fields, "externals");
    if TruthyObject(original) {
      ExternalsTwice(OwnEntries(original));
      SetPropSame(once, "externals");
    }
  }

  /** The steps settle: when they return, running them on their own output changes nothing. */
  lemma InnerTwice(fields: seq<(string, JsValue)>, externalsRef: nat)
    requires SortedInner(fields, externalsRef).Normal?
    ensures SortedInner(SortedInner(fields, externalsRef).value, externalsRef) == SortedInner(fields, externalsRef)
  {
    EdgesSettled(fields, externalsRef);
    ImportersSettled(fields, externalsRef);
    ExternalsSettled(fields, externalsRef);
  }

  /** Sorting the special arrays of an already sorted result changes nothing but the copy's identity. */
  lemma SortSpecialTwice(result: JsValue, copyRef: nat, copyRef2: nat, externalsRef: nat)
    requires result.JObject? && SortedSpecial(result, copyRef, externalsRef).Normal?
    ensures SortedSpecial(SortedSpecial(result, copyRef, externalsRef).value, copyRef2, externalsRef)
      == SortedSpecial(result, copyRef2, externalsRef)
  {
    var res := Member(result.fields, "result");
    CopyMember(result, copyRef, externalsRef, "result");
    if res.JObject? {
      var inner := JObject(res.ref, SortedInner(res.fields, externalsRef).value);
      InnerTwice(res.fields, externalsRef);
      SetPropTwice(result.fields, "result", inner, inner);
    }
  }

  // ---------------------------------------------------------------------------
  // toToxQueryResult
  // ---------------------------------------------------------------------------

  /** `DEFAULT_PRESET_KEYS`, the key names a query result is made of. */
  const DefaultPresetKeys: seq<string> := [
    "edges", "from", "to", "type", "importers", "externals", "exports", "file",
    "package", "count", "summary", "paths", "meta", "query", "params", "result"]

  const MindPreset: string := "mind-v1"

  /** `ToToxQueryResultOptions`; an omitted `preset` is `None`, omitted flags are `false`. */
  datatype QueryOptions = QueryOptions(preset: Option<string>, compact: bool, strict: bool)

  /** The `preset` label after its default. */
  function PresetLabel(opts: QueryOptions): string
  {
    if opts.preset.Some? then opts.preset.value else MindPreset
  }

  /**
   * The preset keys. `loaded` stands for reading the file a label other than
   * `mind-v1` names: the string array it holds, or `None` when it cannot be
   * read or parsed or holds no array.
   */
  function PresetKeysFor(presetName: string, loaded: Option<seq<string>>): seq<string>
  {
    if presetName == MindPreset then DefaultPresetKeys
    else if presetName != "" && loaded.Some? then loaded.value
    else DefaultPresetKeys
  }

  /** The options handed to `encodeJson`: only `mind-v1` is passed on as `preset`. */
  function EncodeOptionsFor(opts: QueryOptions, loaded: Option<seq<string>>): Encode.Options
  {
    var presetName := PresetLabel(opts);
    Encode.Options(
      PresetKeysFor(presetName, loaded), opts.compact, opts.strict,
      if presetName == MindPreset then MindPreset else "",
      EncodePaths.Auto, EncodePaths.Auto)
  }

  /** `toToxQueryResult(result, opts)`: sort the special arrays, then encode; a TypeError from sorting escapes. */
  function Converted(
    opts: QueryOptions, loaded: Option<seq<string>>, env: Encode.Environment,
    result: JsValue, copyRef: nat, externalsRef: nat): Completion<Encode.EncodeResult>
    requires result.JObject?
  {
    match SortedSpecial(result, copyRef, externalsRef)
    case Normal(sorted) => Normal(Encode.EncodeSpec(EncodeOptionsFor(opts, loaded), env, sorted))
    case TypeErrorThrown => TypeErrorThrown
  }

  /** `toToxQueryResult` as the source runs it. */
  method ToToxQueryResult(
    opts: QueryOptions, loaded: Option<seq<string>>, env: Encode.Environment,
    result: JsValue, copyRef: nat, externalsRef: nat) returns (r: Completion<Encode.EncodeResult>)
    requires result.JObject?
    ensures r == Converted(opts, loaded, env, result, copyRef, externalsRef)
  {
    var preset := if opts.preset.Some? then opts.preset.value else MindPreset;
    var presetKeys := DefaultPresetKeys;
    if preset == MindPreset {
      presetKeys := DefaultPresetKeys;
    } else if preset != "" && preset != MindPreset {
      presetKeys := if loaded.Some? then loaded.value else DefaultPresetKeys;
    }
    var sortedResult := SortSpecialArrays(result, copyRef, externalsRef);
    if sortedResult.TypeErrorThrown? {
      return TypeErrorThrown;
    }
    var encodeOpts := Encode.Options(
      presetKeys, opts.compact, opts.strict, if preset == MindPreset then MindPreset else "",
      EncodePaths.Auto, EncodePaths.Auto);
    var encoded := Encode.EncodeJson(encodeOpts, env, sortedResult.value);
    r := Normal(encoded);
  }

  /**
   * The default preset seeds the default keys whatever a preset file would
   * hold, and none of them is reserved, so strict mode never rejects them.
   */
  lemma DefaultPresetSeeded(opts: QueryOptions, loaded: Option<seq<string>>)
    requires PresetLabel(opts) == MindPreset
    ensures EncodeOptionsFor(opts, loaded).presetKeys == DefaultPresetKeys
    ensures EncodeKeys.FirstReserved(DefaultPresetKeys).None?
  {
    forall j | 0 <= j < |DefaultPresetKeys| ensures !EncodeKeys.Reserved(DefaultPresetKeys[j]) {
      assert DefaultPresetKeys[j][0] != '$';
      assert DefaultPresetKeys[j] != "data";
    }
  }

  /** A successful conversion records `preset` in `$meta` exactly for `mind-v1`, and then as `mind-v1`. */
  lemma PresetRecordedOnlyForDefault(
    opts: QueryOptions, loaded: Option<seq<string>>, env: Encode.Environment,
    result: JsValue, copyRef: nat, externalsRef: nat)
    requires result.JObject?
    requires Converted(opts, loaded, env, result, copyRef, externalsRef).Normal?
    requires Converted(opts, loaded, env, result, copyRef, externalsRef).value.Ok?
    ensures var meta := Json.Get(Converted(opts, loaded, env, result, copyRef, externalsRef).value.doc, "$meta");
      && meta.Some?
      && (Json.HasKey(meta.value, "preset") <==> PresetLabel(opts) == MindPreset)
      && (PresetLabel(opts) == MindPreset ==> Json.Get(meta.value, "preset") == Some(Json.Str(MindPreset)))
  {
    Encode.PresetRecorded(EncodeOptionsFor(opts, loaded), env, SortedSpecial(result, copyRef, externalsRef).value);
  }
}
