/**
 * The interning pool shared by the key, path-segment and shape pools.
 *
 * StringPool, KeyPool, both PathPools and ShapePool differ only in the letter
 * their ids start with (`s`, `k`, `p`, `s`), so one class parameterised by
 * that prefix stands for all of them. The pool's JavaScript Map is the
 * sequence `entries`, in insertion order; `idCounter` is the next number to
 * hand out. Because entries are never removed except all at once by `Clear`,
 * the entry inserted i-th always carries the id prefix + (i + 1).
 */
module Pool {
  import opened Wrappers
  import Strings
  import Sorting
  import Json

  datatype Entry = Entry(id: string, value: string, frequency: nat)

  /** The id a pool with this prefix hands out for counter value `n`. */
  function IdFor(prefix: char, n: nat): (r: string)
    ensures |r| >= 2 && r[0] == prefix && Strings.AllDigits(r[1..])
  {
    [prefix] + Strings.NatToString(n)
  }

  lemma IdForInjective(prefix: char, a: nat, b: nat)
    requires IdFor(prefix, a) == IdFor(prefix, b)
    ensures a == b
  {
    assert IdFor(prefix, a)[1..] == Strings.NatToString(a);
    assert IdFor(prefix, b)[1..] == Strings.NatToString(b);
    Strings.NatToStringInjective(a, b);
  }

  /** The entries of a pool that has handed out `n` ids since it was last cleared. */
  ghost predicate WellFormed(prefix: char, entries: seq<Entry>)
  {
    && (forall i :: 0 <= i < |entries| ==> entries[i].id == IdFor(prefix, i + 1))
    && (forall i :: 0 <= i < |entries| ==> entries[i].frequency >= 1)
    && (forall i, j :: 0 <= i < j < |entries| ==> entries[i].value != entries[j].value)
  }

  /** The position of the entry for `value` (`Map.get`). */
  function FindValue(entries: seq<Entry>, value: string): (r: Option<nat>)
    ensures r.Some? ==> r.value < |entries| && entries[r.value].value == value
    ensures r.None? ==> forall i :: 0 <= i < |entries| ==> entries[i].value != value
  {
    if entries == [] then None
    else if entries[|entries| - 1].value == value then Some(|entries| - 1)
    else FindValue(entries[..|entries| - 1], value)
  }

  /** The first entry whose id is `id`, as the scan in `get` finds it. */
  function FindId(entries: seq<Entry>, id: string): (r: Option<nat>)
    ensures r.Some? ==> r.value < |entries| && entries[r.value].id == id
    ensures r.Some? ==> forall i :: 0 <= i < r.value ==> entries[i].id != id
    ensures r.None? ==> forall i :: 0 <= i < |entries| ==> entries[i].id != id
  {
    if entries == [] then None
    else if entries[0].id == id then Some(0)
    else
      var r := FindId(entries[1..], id);
      if r.Some? then Some(r.value + 1) else None
  }

  /** `getId(value)` over a snapshot of the entries. */
  function IdOf(entries: seq<Entry>, value: string): Option<string>
  {
    var i := FindValue(entries, value);
    if i.Some? then Some(entries[i.value].id) else None
  }

  /** `get(id)` over a snapshot of the entries. */
  function ValueOf(entries: seq<Entry>, id: string): Option<string>
  {
    var i := FindId(entries, id);
    if i.Some? then Some(entries[i.value].value) else None
  }

  function Values(entries: seq<Entry>): (r: seq<string>)
    ensures |r| == |entries|
    ensures forall i :: 0 <= i < |entries| ==> r[i] == entries[i].value
  {
    if entries == [] then [] else [entries[0].value] + Values(entries[1..])
  }

  lemma IdsDistinct(prefix: char, entries: seq<Entry>)
    requires WellFormed(prefix, entries)
    ensures forall i, j :: 0 <= i < j < |entries| ==> entries[i].id != entries[j].id
  {
    forall i, j | 0 <= i < j < |entries| ensures entries[i].id != entries[j].id {
      if entries[i].id == entries[j].id { IdForInjective(prefix, i + 1, j + 1); }
    }
  }

  /**
   * Ids and values are in bijection: the id issued for a value resolves back
   * to that value, and every id that resolves names the value it resolves to.
   */
  lemma {:induction false} IdValueBijection(prefix: char, entries: seq<Entry>, value: string, id: string)
    requires WellFormed(prefix, entries)
    ensures IdOf(entries, value).Some? <==> value in Values(entries)
    ensures IdOf(entries, value) == Some(id) ==> ValueOf(entries, id) == Some(value)
    ensures ValueOf(entries, id) == Some(value) ==> IdOf(entries, value) == Some(id)
  {
    IdsDistinct(prefix, entries);
    var vi := FindValue(entries, value);
    var ii := FindId(entries, id);
    if vi.Some? {
      assert Values(entries)[vi.value] == value;
      if ii.Some? {
        assert entries[vi.value].id == id ==> vi.value == ii.value;
        assert entries[ii.value].value == value ==> vi.value == ii.value;
      }
    } else {
      forall k | 0 <= k < |entries| ensures Values(entries)[k] != value {}
    }
  }

  /**
   * The order of `getSortedEntries`: frequency descending, then value by
   * localeCompare, then id by localeCompare.
   */
  predicate EntryLe(a: Entry, b: Entry)
  {
    || a.frequency > b.frequency
    || (a.frequency == b.frequency && Strings.LocaleLess(a.value, b.value))
    || (a.frequency == b.frequency && a.value == b.value && Strings.LocaleLess(a.id, b.id))
    || a == b
  }

  lemma EntryLeIsTotalOrder()
    ensures Sorting.TotalPreorder(EntryLe)
    ensures Sorting.Antisymmetric(EntryLe)
  {
    forall a: Entry, b: Entry ensures EntryLe(a, b) || EntryLe(b, a) {
      Strings.LocaleTotal(a.value, b.value);
      Strings.LocaleTotal(a.id, b.id);
    }
    forall a: Entry, b: Entry, c: Entry | EntryLe(a, b) && EntryLe(b, c) ensures EntryLe(a, c) {
      if Strings.LocaleLess(a.value, b.value) && Strings.LocaleLess(b.value, c.value) {
        Strings.LocaleTransitive(a.value, b.value, c.value);
      }
      if Strings.LocaleLess(a.id, b.id) && Strings.LocaleLess(b.id, c.id) {
        Strings.LocaleTransitive(a.id, b.id, c.id);
      }
    }
    forall a: Entry, b: Entry | EntryLe(a, b) && EntryLe(b, a) ensures a == b {
      if Strings.LocaleLess(a.value, b.value) { Strings.LocaleAsymmetric(a.value, b.value); }
      if Strings.LocaleLess(b.value, a.value) { Strings.LocaleAsymmetric(b.value, a.value); }
      if Strings.LocaleLess(a.id, b.id) { Strings.LocaleAsymmetric(a.id, b.id); }
      if Strings.LocaleLess(b.id, a.id) { Strings.LocaleAsymmetric(b.id, a.id); }
    }
  }

  /** `getSortedEntries()` over a snapshot of the entries. */
  function SortedEntries(entries: seq<Entry>): (r: seq<Entry>)
    ensures Sorting.SortedBy(r, EntryLe)
    ensures multiset(r) == multiset(entries)
  {
    EntryLeIsTotalOrder();
    Sorting.SortBy(entries, EntryLe)
  }

  /** The object `toDict()` builds: one `id: value` member per sorted entry. */
  function DictFields(sorted: seq<Entry>): (r: Json.Fields)
    ensures |r| == |sorted|
    ensures forall i :: 0 <= i < |sorted| ==> r[i] == (sorted[i].id, Json.Str(sorted[i].value))
  {
    if sorted == [] then [] else [(sorted[0].id, Json.Str(sorted[0].value))] + DictFields(sorted[1..])
  }

  /**
   * The dictionary maps exactly the issued ids, one member per entry, each to
   * the value it was issued for, in the order of `getSortedEntries`.
   */
  lemma DictMapsIssuedIds(prefix: char, entries: seq<Entry>)
    requires WellFormed(prefix, entries)
    ensures var d := DictFields(SortedEntries(entries));
      && |d| == |entries|
      && Json.DistinctKeys(d)
      && (forall i :: 0 <= i < |entries| ==>
            Json.Lookup(d, entries[i].id) == Some(Json.Str(entries[i].value)))
      && (forall k :: k in Json.Keys(d) ==> exists i :: 0 <= i < |entries| && entries[i].id == k)
  {
    SortedLength(entries);
    SortedIdsDistinct(prefix, entries);
    DictLookups(prefix, entries);
    DictKeysIssued(entries);
  }

  lemma SortedLength(entries: seq<Entry>)
    ensures |SortedEntries(entries)| == |entries|
  {
    assert |multiset(SortedEntries(entries))| == |multiset(entries)|;
  }

  lemma SortedIdsDistinct(prefix: char, entries: seq<Entry>)
    requires WellFormed(prefix, entries)
    ensures DistinctIds(SortedEntries(entries))
  {
    IdsDistinct(prefix, entries);
    SortKeepsIdsDistinct(entries);
  }

  lemma DictLookups(prefix: char, entries: seq<Entry>)
    requires WellFormed(prefix, entries)
    ensures forall i :: 0 <= i < |entries| ==>
      Json.Lookup(DictFields(SortedEntries(entries)), entries[i].id) == Some(Json.Str(entries[i].value))
  {
    SortedIdsDistinct(prefix, entries);
    forall i | 0 <= i < |entries|
      ensures Json.Lookup(DictFields(SortedEntries(entries)), entries[i].id) == Some(Json.Str(entries[i].value))
    {
      DictLookupAt(entries, i);
    }
  }

  lemma DictLookupAt(entries: seq<Entry>, i: nat)
    requires DistinctIds(SortedEntries(entries))
    requires i < |entries|
    ensures Json.Lookup(DictFields(SortedEntries(entries)), entries[i].id) == Some(Json.Str(entries[i].value))
  {
    var s := SortedEntries(entries);
    assert entries[i] in multiset(s);
    var m :| 0 <= m < |s| && s[m] == entries[i];
    Json.LookupDistinct(DictFields(s), m);
  }

  lemma DictKeysIssued(entries: seq<Entry>)
    ensures forall k :: k in Json.Keys(DictFields(SortedEntries(entries))) ==>
      exists i :: 0 <= i < |entries| && entries[i].id == k
  {
    var s := SortedEntries(entries);
    var d := DictFields(s);
    forall k | k in Json.Keys(d) ensures exists i :: 0 <= i < |entries| && entries[i].id == k {
      var m :| 0 <= m < |d| && Json.Keys(d)[m] == k;
      assert s[m] in multiset(entries);
      var a :| 0 <= a < |entries| && entries[a] == s[m];
    }
  }

  /** The id of entry `i` is not among the keys written before it, and it is appended. */
  lemma DictPrefixStep(sorted: seq<Entry>, i: nat)
    requires DistinctIds(sorted)
    requires i < |sorted|
    ensures sorted[i].id !in Json.Keys(DictFields(sorted[..i]))
    ensures DictFields(sorted[..i + 1]) == DictFields(sorted[..i]) + [(sorted[i].id, Json.Str(sorted[i].value))]
  {
    var d := DictFields(sorted[..i]);
    forall k | 0 <= k < i ensures Json.Keys(d)[k] != sorted[i].id {
      assert d[k] == (sorted[k].id, Json.Str(sorted[k].value));
    }
    assert sorted[..i + 1] == sorted[..i] + [sorted[i]];
    DictFieldsAppend(sorted[..i], sorted[i]);
  }

  predicate DistinctIds(s: seq<Entry>)
  {
    forall i, j :: 0 <= i < j < |s| ==> s[i].id != s[j].id
  }

  lemma {:induction false} InsertKeepsIdsDistinct(x: Entry, s: seq<Entry>)
    requires Sorting.TotalPreorder(EntryLe)
    requires Sorting.SortedBy(s, EntryLe)
    requires DistinctIds(s)
    requires forall e :: e in s ==> e.id != x.id
    ensures DistinctIds(Sorting.InsertBy(x, s, EntryLe))
    decreases |s|
  {
    if s != [] && !EntryLe(x, s[0]) {
      var rest := Sorting.InsertBy(x, s[1..], EntryLe);
      InsertKeepsIdsDistinct(x, s[1..]);
      forall e | e in rest ensures e.id != s[0].id {
        assert e in multiset(rest);
        if e != x { assert e in multiset(s[1..]); assert e in s[1..]; }
      }
      assert Sorting.InsertBy(x, s, EntryLe) == [s[0]] + rest;
    }
  }

  lemma {:induction false} SortKeepsIdsDistinct(s: seq<Entry>)
    requires DistinctIds(s)
    ensures DistinctIds(SortedEntries(s))
    decreases |s|
  {
    EntryLeIsTotalOrder();
    if s != [] {
      SortKeepsIdsDistinct(s[1..]);
      var r := Sorting.SortBy(s[1..], EntryLe);
      forall e | e in r ensures e.id != s[0].id {
        assert e in multiset(r);
        assert e in multiset(s[1..]);
        assert e in s[1..];
      }
      InsertKeepsIdsDistinct(s[0], r);
    }
  }


  /** An interning pool: value -> {id, frequency}, ids prefix + counter. */
  class InternPool {
    const prefix: char
    var entries: seq<Entry>
    var idCounter: nat

    ghost predicate Valid()
      reads this
    {
      idCounter == |entries| + 1 && WellFormed(prefix, entries)
    }

    constructor (prefix: char)
      ensures Valid()
      ensures this.prefix == prefix && entries == [] && idCounter == 1
    {
      this.prefix := prefix;
      entries := [];
      idCounter := 1;
    }

    /** `size()`. */
    function Size(): nat
      reads this
    {
      |entries|
    }

    /** `getId(value)`: defined exactly for the values added since the last clear. */
    function GetId(value: string): (r: Option<string>)
      reads this
      requires Valid()
      ensures r.Some? <==> value in Values(entries)
      ensures r.Some? ==> exists i :: 0 <= i < |entries| && entries[i].value == value && r.value == IdFor(prefix, i + 1)
    {
      IdValueBijection(prefix, entries, value, "");
      IdOf(entries, value)
    }

    /**
     * `add(value)`: a value already present keeps its id and gains one in
     * frequency; a new value is appended with frequency 1 and the next id.
     */
    method Add(value: string) returns (id: string)
      requires Valid()
      modifies this
      ensures Valid()
      ensures entries == Added(prefix, old(entries), value)
      ensures IdOf(entries, value) == Some(id)
      ensures old(IdOf(entries, value)).Some? ==> id == old(IdOf(entries, value)).value
      ensures old(IdOf(entries, value)).None? ==> id == IdFor(prefix, old(idCounter))
    {
      var found := FindValue(entries, value);
      AddedKeepsWellFormed(prefix, entries, value);
      if found.Some? {
        id := entries[found.value].id;
      } else {
        id := IdFor(prefix, idCounter);
        idCounter := idCounter + 1;
      }
      entries := Added(prefix, entries, value);
    }

    /** `get(id)`: scan the entries in insertion order for the id. */
    method Get(id: string) returns (r: Option<string>)
      requires Valid()
      ensures r.Some? <==> exists i :: 0 <= i < |entries| && entries[i].id == id
      ensures r.Some? ==> exists i :: 0 <= i < |entries| && entries[i].id == id && entries[i].value == r.value
      ensures r == ValueOf(entries, id)
    {
      var i := 0;
      while i < |entries|
        invariant 0 <= i <= |entries|
        invariant forall k :: 0 <= k < i ==> entries[k].id != id
      {
        if entries[i].id == id {
          return Some(entries[i].value);
        }
        i := i + 1;
      }
      return None;
    }

    /** `getSortedEntries()`. */
    function GetSortedEntries(): (r: seq<Entry>)
      reads this
      ensures Sorting.SortedBy(r, EntryLe)
      ensures multiset(r) == multiset(entries)
    {
      SortedEntries(entries)
    }

    /** `toDict()`: fill a fresh object with `id: value` in sorted order. */
    method ToDict() returns (dict: Json.Fields)
      requires Valid()
      ensures dict == DictFields(SortedEntries(entries))
    {
      var sorted := SortedEntries(entries);
      SortedIdsDistinct(prefix, entries);
      dict := [];
      var i := 0;
      while i < |sorted|
        invariant 0 <= i <= |sorted|
        invariant dict == DictFields(sorted[..i])
      {
        DictPrefixStep(sorted, i);
        Json.AssignFresh(dict, sorted[i].id, Json.Str(sorted[i].value));
        dict := Json.Assign(dict, sorted[i].id, Json.Str(sorted[i].value));
        i := i + 1;
      }
      assert sorted[..|sorted|] == sorted;
    }

    /** `clear()`: drop every entry and restart the counter at 1. */
    method Clear()
      modifies this
      ensures Valid() && entries == [] && idCounter == 1
    {
      entries := [];
      idCounter := 1;
    }
  }

  /**
   * The entries after `add(value)`: a value already present keeps its id and
   * gains one in frequency; a new value is appended with frequency 1 and the
   * next id.
   */
  function Added(prefix: char, entries: seq<Entry>, value: string): seq<Entry>
  {
    var found := FindValue(entries, value);
    if found.Some? then
      var hit := entries[found.value];
      entries[found.value := Entry(hit.id, hit.value, hit.frequency + 1)]
    else
      entries + [Entry(IdFor(prefix, |entries| + 1), value, 1)]
  }

  /**
   * Adding keeps the pool well formed, adds the value to the pool's values if
   * it was not there, keeps every id already issued, and the value then has an
   * id: its old one, or the next one.
   */
  lemma AddedKeepsWellFormed(prefix: char, entries: seq<Entry>, value: string)
    requires WellFormed(prefix, entries)
    ensures var e := Added(prefix, entries, value);
      && WellFormed(prefix, e)
      && Values(e) == (if value in Values(entries) then Values(entries) else Values(entries) + [value])
      && (forall i :: 0 <= i < |entries| ==> e[i].id == entries[i].id && e[i].value == entries[i].value)
      && (IdOf(entries, value).Some? ==> IdOf(e, value) == IdOf(entries, value))
      && (IdOf(entries, value).None? ==> IdOf(e, value) == Some(IdFor(prefix, |entries| + 1)))
  {
    if FindValue(entries, value).Some? {
      AddedExisting(prefix, entries, value);
    } else {
      AddedNew(prefix, entries, value);
    }
  }

  lemma AddedExisting(prefix: char, entries: seq<Entry>, value: string)
    requires WellFormed(prefix, entries)
    requires FindValue(entries, value).Some?
    ensures var e := Added(prefix, entries, value);
      && WellFormed(prefix, e)
      && value in Values(entries)
      && Values(e) == Values(entries)
      && (forall i :: 0 <= i < |entries| ==> e[i].id == entries[i].id && e[i].value == entries[i].value)
      && IdOf(e, value) == IdOf(entries, value)
  {
    AddedExistingShape(prefix, entries, value);
    AddedExistingId(prefix, entries, value);
  }

  lemma AddedExistingShape(prefix: char, entries: seq<Entry>, value: string)
    requires WellFormed(prefix, entries)
    requires FindValue(entries, value).Some?
    ensures var e := Added(prefix, entries, value);
      && WellFormed(prefix, e)
      && value in Values(entries)
      && Values(e) == Values(entries)
      && (forall i :: 0 <= i < |entries| ==> e[i].id == entries[i].id && e[i].value == entries[i].value)
  {
    AddedExistingKeeps(prefix, entries, value);
    AddedExistingWellFormed(prefix, entries, value);
    AddedExistingValues(prefix, entries, value);
  }

  /** Raising a frequency keeps every id and value in place. */
  lemma AddedExistingKeeps(prefix: char, entries: seq<Entry>, value: string)
    requires FindValue(entries, value).Some?
    ensures var e := Added(prefix, entries, value);
      && |e| == |entries|
      && (forall i :: 0 <= i < |entries| ==> e[i].id == entries[i].id && e[i].value == entries[i].value)
  {
    AddedUnfolds(prefix, entries, value);
  }

  lemma AddedExistingWellFormed(prefix: char, entries: seq<Entry>, value: string)
    requires WellFormed(prefix, entries)
    requires FindValue(entries, value).Some?
    ensures WellFormed(prefix, Added(prefix, entries, value))
  {
    AddedExistingKeeps(prefix, entries, value);
    var e := Added(prefix, entries, value);
    AddedUnfolds(prefix, entries, value);
    assert forall i :: 0 <= i < |e| ==> e[i].frequency >= 1;
  }

  lemma AddedExistingValues(prefix: char, entries: seq<Entry>, value: string)
    requires FindValue(entries, value).Some?
    ensures value in Values(entries)
    ensures Values(Added(prefix, entries, value)) == Values(entries)
  {
    AddedExistingKeeps(prefix, entries, value);
    var i := FindValue(entries, value).value;
    assert Values(entries)[i] == value;
    assert Values(Added(prefix, entries, value)) == Values(entries);
  }

  lemma AddedExistingId(prefix: char, entries: seq<Entry>, value: string)
    requires FindValue(entries, value).Some?
    ensures IdOf(Added(prefix, entries, value), value) == IdOf(entries, value)
  {
    var i := FindValue(entries, value).value;
    var e := entries[i := Entry(entries[i].id, entries[i].value, entries[i].frequency + 1)];
    AddedUnfolds(prefix, entries, value);
    assert forall k :: 0 <= k < |e| ==> e[k].value == entries[k].value;
    FindValueSameValues(entries, e, value);
  }

  /** The two shapes of `Added`, stated without any well-formedness in scope. */
  lemma AddedUnfolds(prefix: char, entries: seq<Entry>, value: string)
    ensures var found := FindValue(entries, value);
      found.Some? ==>
        Added(prefix, entries, value) ==
        entries[found.value := Entry(entries[found.value].id, entries[found.value].value, entries[found.value].frequency + 1)]
    ensures FindValue(entries, value).None? ==>
      Added(prefix, entries, value) == entries + [Entry(IdFor(prefix, |entries| + 1), value, 1)]
  {
  }

  lemma AddedNew(prefix: char, entries: seq<Entry>, value: string)
    requires WellFormed(prefix, entries)
    requires FindValue(entries, value).None?
    ensures var e := Added(prefix, entries, value);
      && WellFormed(prefix, e)
      && value !in Values(entries)
      && Values(e) == Values(entries) + [value]
      && (forall i :: 0 <= i < |entries| ==> e[i].id == entries[i].id && e[i].value == entries[i].value)
      && IdOf(e, value) == Some(IdFor(prefix, |entries| + 1))
  {
    AddedUnfolds(prefix, entries, value);
    AppendWellFormed(prefix, entries, value);
    ValuesAppend(entries, value);
    FindValueSnoc(entries, Entry(IdFor(prefix, |entries| + 1), value, 1), value);
  }

  /** The search runs from the newest entry, so an appended entry is checked first. */
  lemma FindValueSnoc(entries: seq<Entry>, x: Entry, value: string)
    ensures FindValue(entries + [x], value) == if x.value == value then Some(|entries|) else FindValue(entries, value)
  {
    assert (entries + [x])[..|entries|] == entries;
  }

  lemma AppendWellFormed(prefix: char, entries: seq<Entry>, value: string)
    requires WellFormed(prefix, entries)
    requires forall k :: 0 <= k < |entries| ==> entries[k].value != value
    ensures WellFormed(prefix, entries + [Entry(IdFor(prefix, |entries| + 1), value, 1)])
  {
    var e := entries + [Entry(IdFor(prefix, |entries| + 1), value, 1)];
    forall i, j | 0 <= i < j < |e| ensures e[i].value != e[j].value {
      assert e[i] == entries[i];
    }
  }

  lemma ValuesAppend(entries: seq<Entry>, value: string)
    requires forall k :: 0 <= k < |entries| ==> entries[k].value != value
    ensures value !in Values(entries)
    ensures forall x :: Values(entries + [Entry(x, value, 1)]) == Values(entries) + [value]
  {
    forall k | 0 <= k < |entries| ensures Values(entries)[k] != value {}
    forall x ensures Values(entries + [Entry(x, value, 1)]) == Values(entries) + [value] {
      var e := entries + [Entry(x, value, 1)];
      assert Values(e) == Values(entries) + [value];
    }
  }

  /** Adding one value leaves the id of every other value as it was. */
  lemma AddedOtherIdOf(prefix: char, entries: seq<Entry>, v: string, w: string)
    requires w != v
    ensures IdOf(Added(prefix, entries, v), w) == IdOf(entries, w)
  {
    var found := FindValue(entries, v);
    AddedUnfolds(prefix, entries, v);
    if found.Some? {
      var e := Added(prefix, entries, v);
      assert forall k :: 0 <= k < |entries| ==> e[k].value == entries[k].value && e[k].id == entries[k].id;
      FindValueSameValues(entries, e, w);
    } else {
      FindValueSnoc(entries, Entry(IdFor(prefix, |entries| + 1), v, 1), w);
    }
  }

  /**
   * Adding a value with no id gives it the next id; adding one that has an
   * id keeps it. Every other value keeps its id, or its lack of one.
   */
  lemma AddedIdOf(prefix: char, entries: seq<Entry>, v: string, w: string)
    requires WellFormed(prefix, entries)
    ensures IdOf(Added(prefix, entries, v), w) ==
      if w == v && IdOf(entries, v).None? then Some(IdFor(prefix, |entries| + 1)) else IdOf(entries, w)
  {
    if w == v {
      AddedKeepsWellFormed(prefix, entries, v);
    } else {
      AddedOtherIdOf(prefix, entries, v, w);
    }
  }

  /** The entries after adding each of `values` in turn. */
  function AddedAll(prefix: char, entries: seq<Entry>, values: seq<string>): seq<Entry>
    decreases |values|
  {
    if values == [] then entries
    else Added(prefix, AddedAll(prefix, entries, values[..|values| - 1]), values[|values| - 1])
  }

  lemma {:induction false} AddedAllWellFormed(prefix: char, entries: seq<Entry>, values: seq<string>)
    requires WellFormed(prefix, entries)
    ensures WellFormed(prefix, AddedAll(prefix, entries, values))
    decreases |values|
  {
    if values != [] {
      AddedAllWellFormed(prefix, entries, values[..|values| - 1]);
      AddedKeepsWellFormed(prefix, AddedAll(prefix, entries, values[..|values| - 1]), values[|values| - 1]);
    }
  }

  /** Adding values never changes an id already issued. */
  lemma {:induction false} AddedAllKeepsIds(prefix: char, entries: seq<Entry>, values: seq<string>, w: string)
    requires WellFormed(prefix, entries)
    requires IdOf(entries, w).Some?
    ensures IdOf(AddedAll(prefix, entries, values), w) == IdOf(entries, w)
    decreases |values|
  {
    if values != [] {
      var mid := AddedAll(prefix, entries, values[..|values| - 1]);
      AddedAllKeepsIds(prefix, entries, values[..|values| - 1], w);
      AddedAllWellFormed(prefix, entries, values[..|values| - 1]);
      AddedIdOf(prefix, mid, values[|values| - 1], w);
    }
  }

  /** After adding a list of values, every value in the list has an id. */
  lemma {:induction false} AddedAllIds(prefix: char, entries: seq<Entry>, values: seq<string>)
    requires WellFormed(prefix, entries)
    ensures forall i :: 0 <= i < |values| ==> IdOf(AddedAll(prefix, entries, values), values[i]).Some?
    decreases |values|
  {
    if values != [] {
      var init := values[..|values| - 1];
      var last := values[|values| - 1];
      var mid := AddedAll(prefix, entries, init);
      AddedAllIds(prefix, entries, init);
      AddedAllWellFormed(prefix, entries, init);
      AddedKeepsWellFormed(prefix, mid, last);
      forall i | 0 <= i < |values| ensures IdOf(AddedAll(prefix, entries, values), values[i]).Some? {
        if i < |values| - 1 {
          assert values[i] == init[i];
          AddedIdOf(prefix, mid, last, values[i]);
        }
      }
    }
  }

  /** Adding one more value after a list. */
  lemma AddedAllSnoc(prefix: char, entries: seq<Entry>, values: seq<string>, x: string)
    ensures AddedAll(prefix, entries, values + [x]) == Added(prefix, AddedAll(prefix, entries, values), x)
  {
    assert (values + [x])[..|values|] == values;
  }

  /** Adding `a` and then `b` is adding `a + b`. */
  lemma {:induction false} AddedAllAppend(prefix: char, entries: seq<Entry>, a: seq<string>, b: seq<string>)
    ensures AddedAll(prefix, entries, a + b) == AddedAll(prefix, AddedAll(prefix, entries, a), b)
    decreases |b|
  {
    if b == [] {
      assert a + b == a;
    } else {
      var init := b[..|b| - 1];
      var last := b[|b| - 1];
      assert a + b == (a + init) + [last];
      assert b == init + [last];
      AddedAllAppend(prefix, entries, a, init);
      AddedAllSnoc(prefix, entries, a + init, last);
      AddedAllSnoc(prefix, AddedAll(prefix, entries, a), init, last);
    }
  }

  /** Adding a value the pool does not hold appends it. */
  lemma AddedFreshValue(prefix: char, mid: seq<Entry>, init: seq<string>, last: string)
    requires WellFormed(prefix, mid) && Values(mid) == init && last !in init
    ensures WellFormed(prefix, Added(prefix, mid, last))
    ensures Values(Added(prefix, mid, last)) == init + [last]
  {
    forall k | 0 <= k < |mid| ensures mid[k].value != last {
      assert mid[k].value == Values(mid)[k];
    }
    AddedUnfolds(prefix, mid, last);
    AppendWellFormed(prefix, mid, last);
    ValuesAppend(mid, last);
  }

  /** Dropping the last of distinct values leaves them distinct, and the last is not among them. */
  lemma DistinctInitLast(values: seq<string>)
    requires Sorting.Distinct(values) && values != []
    ensures Sorting.Distinct(values[..|values| - 1])
    ensures values[|values| - 1] !in values[..|values| - 1]
  {
    var init := values[..|values| - 1];
    forall j | 0 <= j < |init| ensures init[j] != values[|values| - 1] {
      assert values[j] == init[j];
    }
  }

  /** Distinct values added to an empty pool are stored in order, with ids prefix + 1, prefix + 2, ... */
  lemma {:induction false} AddedAllDistinct(prefix: char, values: seq<string>)
    requires Sorting.Distinct(values)
    ensures WellFormed(prefix, AddedAll(prefix, [], values))
    ensures Values(AddedAll(prefix, [], values)) == values
    decreases |values|
  {
    if values != [] {
      var init := values[..|values| - 1];
      var last := values[|values| - 1];
      DistinctInitLast(values);
      AddedAllDistinct(prefix, init);
      AddedFreshValue(prefix, AddedAll(prefix, [], init), init, last);
      assert init + [last] == values;
    }
  }

  /** In a well-formed pool, the value stored i-th has the id prefix + (i + 1). */
  lemma IdOfPosition(prefix: char, entries: seq<Entry>, i: nat)
    requires WellFormed(prefix, entries)
    requires i < |entries|
    ensures IdOf(entries, entries[i].value) == Some(IdFor(prefix, i + 1))
  {
    var j := FindValue(entries, entries[i].value);
    assert j.Some?;
    assert j.value == i;
  }

  /** `FindValue` only looks at the values. */
  lemma {:induction false} FindValueSameValues(a: seq<Entry>, b: seq<Entry>, value: string)
    requires |a| == |b|
    requires forall k :: 0 <= k < |a| ==> a[k].value == b[k].value
    ensures FindValue(a, value) == FindValue(b, value)
    decreases |a|
  {
    if a != [] {
      FindValueSameValues(a[..|a| - 1], b[..|b| - 1], value);
    }
  }

  lemma {:induction false} DictFieldsAppend(s: seq<Entry>, e: Entry)
    ensures DictFields(s + [e]) == DictFields(s) + [(e.id, Json.Str(e.value))]
  {
    var l := DictFields(s + [e]);
    var r := DictFields(s) + [(e.id, Json.Str(e.value))];
    assert |l| == |r|;
    forall i | 0 <= i < |l| ensures l[i] == r[i] {
      if i < |s| { assert (s + [e])[i] == s[i]; }
    }
  }

  /** After `clear()` the pool is empty and the next new value gets prefix + "1". */
  method ClearThenAdd(pool: InternPool, value: string) returns (id: string)
    requires pool.Valid()
    modifies pool
    ensures pool.Valid() && pool.Size() == 1
    ensures id == [pool.prefix] + "1"
  {
    pool.Clear();
    id := pool.Add(value);
  }
}
