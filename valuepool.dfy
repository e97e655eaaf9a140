/**
 * ValuePool: interning of repeated scalar values under ids `v1`, `v2`, ...
 * Unlike the string pools it admits a new value only when its estimated JSON
 * size makes interning worthwhile, and it keys entries by a type-tagged text
 * so that values of different types never share an entry.
 */
module ValuePools {
  import opened Wrappers
  import Strings
  import Sorting
  import opened JsValues

  // ---------------------------------------------------------------------------
  // The pure helpers: value key and size estimates
  // ---------------------------------------------------------------------------

  /** The values `add` refuses outright: `null`, functions and objects. */
  predicate NeverInterned(v: JsValue)
  {
    v.JNull? || TypeOf(v) == "function" || TypeOf(v) == "object"
  }

  /** The type tag of a value's key. */
  function KeyTag(v: JsValue): string
  {
    if v.JBool? then "bool"
    else if v.JNum? || v.JNonFinite? then "number"
    else if v.JString? then "string"
    else "unknown"
  }

  /** The text after the tag: `String(value)`. */
  function KeyPayload(v: JsValue): string
  {
    ToStr(v)
  }

  /** `getValueKey(value)`. */
  function ValueKey(v: JsValue): string
  {
    if v.JNull? then "null" else KeyTag(v) + ":" + KeyPayload(v)
  }

  /** `estimateValueSize(value)`: the length of the value's JSON text, estimated. */
  function EstimatedSize(v: JsValue): nat
  {
    match v
    case JNull => 4
    case JBool(b) => if b then 4 else 5
    case JNum(n) => |Strings.IntToString(n)|
    case JNonFinite(k) => |NonFiniteText(k)|
    case JString(s) => Strings.Utf16Length(s) + 2
    case _ => 10
  }

  /** `estimateIdSize(id)`: the id and its two quotes. */
  function EstimatedIdSize(id: string): nat
  {
    |id| + 2
  }

  /** The id size `add` assumes for a new value: that of `"v1"`. */
  const AssumedIdSize: nat := 3

  /** The id of the n-th admitted value. */
  function ValueId(n: nat): string
  {
    "v" + Strings.NatToString(n)
  }

  // ---------------------------------------------------------------------------
  // Keys separate types
  // ---------------------------------------------------------------------------

  /** In `t + ":" + p` with no colon in `t`, the first colon is at |t|. */
  lemma FirstColon(t: string, p: string)
    requires ':' !in t
    ensures (t + ":" + p)[|t|] == ':'
    ensures forall k :: 0 <= k < |t| ==> (t + ":" + p)[k] != ':'
  {
    forall k | 0 <= k < |t| ensures (t + ":" + p)[k] != ':' {
      assert (t + ":" + p)[k] == t[k];
    }
  }

  lemma TaggedTextInjective(t1: string, p1: string, t2: string, p2: string)
    requires ':' !in t1 && ':' !in t2
    requires t1 + ":" + p1 == t2 + ":" + p2
    ensures t1 == t2 && p1 == p2
  {
    var s := t1 + ":" + p1;
    FirstColon(t1, p1);
    FirstColon(t2, p2);
    assert |t1| == |t2|;
    assert t1 == s[..|t1|] == t2;
    assert p1 == s[|t1| + 1..] == p2;
  }

  /** The last character of a payload tells apart the kinds sharing a tag. */
  lemma PayloadLastChar(v: JsValue)
    requires !NeverInterned(v) && !v.JBool? && !v.JString?
    ensures |KeyPayload(v)| >= 1
    ensures v.JNum? || v.JBigInt? <==> Strings.IsDigit(KeyPayload(v)[|KeyPayload(v)| - 1])
    ensures v.JSymbol? <==> KeyPayload(v)[|KeyPayload(v)| - 1] == ')'
  {
    match v
    case JNum(n) => Strings.IntToStringEndsInDigit(n);
    case JBigInt(n) => Strings.IntToStringEndsInDigit(n);
    case JSymbol(_, d) =>
      var t := "Symbol(" + d + ")";
      assert t[|t| - 1] == ')';
    case _ =>
  }

  /**
   * Two internable values share a key only when they are equal, or are two
   * symbols with the same description. In particular values of different
   * types never share an entry.
   */
  lemma ValueKeyInjective(a: JsValue, b: JsValue)
    requires !NeverInterned(a) && !NeverInterned(b)
    requires ValueKey(a) == ValueKey(b)
    ensures TypeOf(a) == TypeOf(b)
    ensures a == b || (a.JSymbol? && b.JSymbol? && a.description == b.description)
  {
    TaggedTextInjective(KeyTag(a), KeyPayload(a), KeyTag(b), KeyPayload(b));
    if KeyTag(a) == "number" {
      NumberPayloadInjective(a, b);
    } else if KeyTag(a) == "unknown" {
      UnknownPayloadInjective(a, b);
    }
  }

  /** Two numbers with the same printed text are the same number. */
  lemma NumberPayloadInjective(a: JsValue, b: JsValue)
    requires !NeverInterned(a) && !NeverInterned(b)
    requires KeyTag(a) == KeyTag(b) == "number"
    requires KeyPayload(a) == KeyPayload(b)
    ensures a == b
  {
    if a.JNum? && b.JNum? {
      Strings.IntToStringInjective(a.n, b.n);
    } else if a.JNum? || b.JNum? {
      PayloadLastChar(a);
      PayloadLastChar(b);
    }
  }

  /** Among bigints and symbols, the printed text tells the value apart. */
  lemma UnknownPayloadInjective(a: JsValue, b: JsValue)
    requires !NeverInterned(a) && !NeverInterned(b)
    requires KeyTag(a) == KeyTag(b) == "unknown"
    requires KeyPayload(a) == KeyPayload(b)
    ensures TypeOf(a) == TypeOf(b)
    ensures a == b || (a.JSymbol? && b.JSymbol? && a.description == b.description)
  {
    var p := KeyPayload(a);
    PayloadLastChar(a);
    PayloadLastChar(b);
    if a.JBigInt? && b.JBigInt? {
      Strings.IntToStringInjective(a.big, b.big);
    } else if a.JSymbol? && b.JSymbol? {
      assert a.description == p[7..|p| - 1] == b.description;
    }
  }

  /** Values with the same key have the same size estimate. */
  lemma SameKeySameSize(a: JsValue, b: JsValue)
    requires !NeverInterned(a) && !NeverInterned(b)
    requires ValueKey(a) == ValueKey(b)
    ensures EstimatedSize(a) == EstimatedSize(b)
  {
    ValueKeyInjective(a, b);
  }

  // ---------------------------------------------------------------------------
  // The pool's state and `add` as a function of it
  // ---------------------------------------------------------------------------

  datatype ValueEntry = ValueEntry(key: string, id: string, value: JsValue, frequency: nat, estimatedSavings: int)

  /** Worth interning when first seen: bigger than an id plus one. */
  predicate Admissible(v: JsValue)
  {
    !NeverInterned(v) && EstimatedSize(v) > AssumedIdSize + 1
  }

  /**
   * The entries as the Map holds them, in insertion order: the i-th admitted
   * value has id `v<i+1>`, is stored under its own key, was admissible, and
   * no key occurs twice.
   */
  predicate WellFormed(entries: seq<ValueEntry>)
  {
    && (forall i :: 0 <= i < |entries| ==>
          && entries[i].id == ValueId(i + 1)
          && entries[i].key == ValueKey(entries[i].value)
          && Admissible(entries[i].value)
          && entries[i].frequency >= 1)
    && (forall i, j :: 0 <= i < j < |entries| ==> entries[i].key != entries[j].key)
  }

  /** `this.entries.get(key)`: the position of the entry stored under `key`. */
  function FindKey(entries: seq<ValueEntry>, key: string): (r: Option<nat>)
    ensures r.Some? ==> r.value < |entries| && entries[r.value].key == key
    ensures r.None? <==> forall i :: 0 <= i < |entries| ==> entries[i].key != key
  {
    if entries == [] then None
    else if entries[|entries| - 1].key == key then Some(|entries| - 1)
    else FindKey(entries[..|entries| - 1], key)
  }

  /**
   * An entry seen once more: one more occurrence, and the savings re-estimated
   * against the entry's actual id.
   */
  function Recounted(e: ValueEntry, v: JsValue): ValueEntry
  {
    ValueEntry(e.key, e.id, e.value, e.frequency + 1, EstimatedSize(v) - EstimatedIdSize(e.id))
  }

  datatype AddOutcome = AddOutcome(entries: seq<ValueEntry>, idCounter: nat, id: Option<string>)

  /** What `add(value)` does to the entries and the counter, and what it returns. */
  function AddValue(entries: seq<ValueEntry>, idCounter: nat, v: JsValue): AddOutcome
  {
    if NeverInterned(v) then AddOutcome(entries, idCounter, None)
    else
      var key := ValueKey(v);
      var found := FindKey(entries, key);
      if found.Some? then
        var e := entries[found.value];
        AddOutcome(entries[found.value := Recounted(e, v)], idCounter, Some(e.id))
      else if EstimatedSize(v) <= AssumedIdSize + 1 then AddOutcome(entries, idCounter, None)
      else
        var id := ValueId(idCounter);
        AddOutcome(entries + [ValueEntry(key, id, v, 1, EstimatedSize(v) - AssumedIdSize)], idCounter + 1, Some(id))
  }

  /** A well-formed pool whose counter is the next id number. */
  predicate Consistent(entries: seq<ValueEntry>, idCounter: nat)
  {
    WellFormed(entries) && idCounter == |entries| + 1
  }

  /** Counting a pooled value again changes neither its id, key nor value. */
  lemma BumpKeepsWellFormed(entries: seq<ValueEntry>, i: nat, e': ValueEntry)
    requires WellFormed(entries)
    requires i < |entries|
    requires e'.id == entries[i].id && e'.key == entries[i].key && e'.value == entries[i].value
    requires e'.frequency >= 1
    ensures WellFormed(entries[i := e'])
  {
  }

  /** Appending an admissible value under a fresh key and the next id. */
  lemma AppendKeepsWellFormed(entries: seq<ValueEntry>, e: ValueEntry)
    requires WellFormed(entries)
    requires e.id == ValueId(|entries| + 1) && e.key == ValueKey(e.value) && Admissible(e.value)
    requires e.frequency >= 1
    requires forall i :: 0 <= i < |entries| ==> entries[i].key != e.key
    ensures WellFormed(entries + [e])
  {
    AppendEntriesValid(entries, e);
    AppendKeysDistinct(entries, e);
  }

  lemma AppendEntriesValid(entries: seq<ValueEntry>, e: ValueEntry)
    requires forall i :: 0 <= i < |entries| ==>
      && entries[i].id == ValueId(i + 1)
      && entries[i].key == ValueKey(entries[i].value)
      && Admissible(entries[i].value)
      && entries[i].frequency >= 1
    requires e.id == ValueId(|entries| + 1) && e.key == ValueKey(e.value) && Admissible(e.value)
    requires e.frequency >= 1
    ensures var n := entries + [e];
      forall i :: 0 <= i < |n| ==>
        && n[i].id == ValueId(i + 1)
        && n[i].key == ValueKey(n[i].value)
        && Admissible(n[i].value)
        && n[i].frequency >= 1
  {
    var n := entries + [e];
    forall i | 0 <= i < |n|
      ensures n[i].id == ValueId(i + 1) && n[i].key == ValueKey(n[i].value)
      ensures Admissible(n[i].value) && n[i].frequency >= 1
    {
      if i < |entries| {
        assert n[i] == entries[i];
      }
    }
  }

  lemma AppendKeysDistinct(entries: seq<ValueEntry>, e: ValueEntry)
    requires forall i, j :: 0 <= i < j < |entries| ==> entries[i].key != entries[j].key
    requires forall i :: 0 <= i < |entries| ==> entries[i].key != e.key
    ensures var n := entries + [e];
      forall i, j :: 0 <= i < j < |n| ==> n[i].key != n[j].key
  {
    var n := entries + [e];
    forall i, j | 0 <= i < j < |n|
      ensures n[i].key != n[j].key
    {
      assert n[i] == entries[i];
    }
  }

  lemma AddKeepsConsistent(entries: seq<ValueEntry>, idCounter: nat, v: JsValue)
    requires Consistent(entries, idCounter)
    ensures var o := AddValue(entries, idCounter, v); Consistent(o.entries, o.idCounter)
  {
    if !NeverInterned(v) {
      var found := FindKey(entries, ValueKey(v));
      if found.Some? {
        var e := entries[found.value];
        BumpKeepsWellFormed(entries, found.value,
          Recounted(e, v));
      } else if EstimatedSize(v) > AssumedIdSize + 1 {
        AppendKeepsWellFormed(entries,
          ValueEntry(ValueKey(v), ValueId(idCounter), v, 1, EstimatedSize(v) - AssumedIdSize));
      }
    }
  }

  /**
   * `add` returns null exactly for `null`, functions, objects and values that
   * are neither pooled nor bigger than 4; such a call leaves the pool as it was.
   */
  lemma AddRejectsExactly(entries: seq<ValueEntry>, idCounter: nat, v: JsValue)
    requires Consistent(entries, idCounter)
    ensures var o := AddValue(entries, idCounter, v);
      o.id.None? <==> !Admissible(v)
    ensures var o := AddValue(entries, idCounter, v);
      o.id.None? ==> o.entries == entries && o.idCounter == idCounter
  {
    if !NeverInterned(v) {
      var found := FindKey(entries, ValueKey(v));
      if found.Some? {
        var w := entries[found.value].value;
        assert Admissible(w);
        SameKeySameSize(v, w);
      }
    }
  }

  /** Re-adding a pooled value returns its id, counts it once more and adds nothing. */
  lemma ReAddReturnsSameId(entries: seq<ValueEntry>, idCounter: nat, v: JsValue, i: nat)
    requires Consistent(entries, idCounter)
    requires i < |entries| && entries[i].key == ValueKey(v) && !NeverInterned(v)
    ensures var o := AddValue(entries, idCounter, v);
      && o.id == Some(entries[i].id)
      && |o.entries| == |entries|
      && o.idCounter == idCounter
      && o.entries[i].frequency == entries[i].frequency + 1
      && (forall j :: 0 <= j < |entries| && j != i ==> o.entries[j] == entries[j])
  {
    var found := FindKey(entries, ValueKey(v));
    assert found.Some?;
    assert entries[found.value].key == entries[i].key;
    assert found.value == i;
  }

  /** The outcome of a run of `add` calls. */
  function AddValues(entries: seq<ValueEntry>, idCounter: nat, vs: seq<JsValue>): AddOutcome
    decreases |vs|
  {
    if vs == [] then AddOutcome(entries, idCounter, None)
    else
      var o := AddValue(entries, idCounter, vs[0]);
      AddValues(o.entries, o.idCounter, vs[1..])
  }

  lemma {:induction false} AddValuesKeepsConsistent(entries: seq<ValueEntry>, idCounter: nat, vs: seq<JsValue>)
    requires Consistent(entries, idCounter)
    ensures var o := AddValues(entries, idCounter, vs); Consistent(o.entries, o.idCounter)
    decreases |vs|
  {
    if vs != [] {
      AddKeepsConsistent(entries, idCounter, vs[0]);
      var o := AddValue(entries, idCounter, vs[0]);
      AddValuesKeepsConsistent(o.entries, o.idCounter, vs[1..]);
    }
  }

  /**
   * A value `add` rejects once is rejected by every later `add`, however often
   * it or anything else is added in between.
   */
  lemma RejectedForever(entries: seq<ValueEntry>, idCounter: nat, v: JsValue, between: seq<JsValue>)
    requires Consistent(entries, idCounter)
    requires AddValue(entries, idCounter, v).id.None?
    ensures var o := AddValues(entries, idCounter, between);
      AddValue(o.entries, o.idCounter, v).id.None?
  {
    AddRejectsExactly(entries, idCounter, v);
    AddValuesKeepsConsistent(entries, idCounter, between);
    var o := AddValues(entries, idCounter, between);
    AddRejectsExactly(o.entries, o.idCounter, v);
  }

  /** Admitted values get `v1`, `v2`, ... in the order they are first admitted. */
  lemma AdmittedInOrder(entries: seq<ValueEntry>, idCounter: nat, v: JsValue)
    requires Consistent(entries, idCounter)
    requires FindKey(entries, ValueKey(v)).None? && Admissible(v)
    ensures var o := AddValue(entries, idCounter, v);
      && o.id == Some(ValueId(|entries| + 1))
      && o.entries == entries + [ValueEntry(ValueKey(v), ValueId(|entries| + 1), v, 1, EstimatedSize(v) - AssumedIdSize)]
  {
  }

  // ---------------------------------------------------------------------------
  // Lookups, sorting and the dictionary
  // ---------------------------------------------------------------------------

  /** `getId(value)`: the id stored under the value's key. */
  function IdOfValue(entries: seq<ValueEntry>, v: JsValue): (r: Option<string>)
    ensures r.Some? <==> exists i :: 0 <= i < |entries| && entries[i].key == ValueKey(v)
  {
    var found := FindKey(entries, ValueKey(v));
    if found.Some? then Some(entries[found.value].id) else None
  }

  /** `get(id)`: the value of the first entry with that id, in Map order. */
  function ValueOfId(entries: seq<ValueEntry>, id: string): (r: Option<JsValue>)
    ensures r.Some? <==> exists i :: 0 <= i < |entries| && entries[i].id == id
  {
    if entries == [] then None
    else if entries[0].id == id then Some(entries[0].value)
    else ValueOfId(entries[1..], id)
  }

  /** No id occurs twice. */
  predicate DistinctIds(entries: seq<ValueEntry>)
  {
    forall i, j :: 0 <= i < j < |entries| ==> entries[i].id != entries[j].id
  }

  lemma ValueIdsDiffer(a: nat, b: nat)
    requires a != b
    ensures ValueId(a) != ValueId(b)
  {
    if ValueId(a) == ValueId(b) {
      assert Strings.NatToString(a) == ValueId(a)[1..];
      assert Strings.NatToString(b) == ValueId(b)[1..];
      Strings.NatToStringInjective(a, b);
    }
  }

  lemma WellFormedIdsDistinct(entries: seq<ValueEntry>)
    requires WellFormed(entries)
    ensures DistinctIds(entries)
  {
    forall i, j | 0 <= i < j < |entries| ensures entries[i].id != entries[j].id {
      ValueIdsDiffer(i + 1, j + 1);
    }
  }

  lemma {:induction false} ValueOfIdAt(entries: seq<ValueEntry>, i: nat)
    requires DistinctIds(entries)
    requires i < |entries|
    ensures ValueOfId(entries, entries[i].id) == Some(entries[i].value)
    decreases i
  {
    if i > 0 {
      assert entries[0].id != entries[i].id;
      assert entries[1..][i - 1] == entries[i];
      ValueOfIdAt(entries[1..], i - 1);
    }
  }

  /**
   * `get(getId(v))` is the value pooled under v's key: v itself, or for a
   * symbol the first symbol pooled with the same description.
   */
  lemma GetOfGetId(entries: seq<ValueEntry>, idCounter: nat, v: JsValue)
    requires Consistent(entries, idCounter)
    requires !NeverInterned(v)
    requires IdOfValue(entries, v).Some?
    ensures var w := ValueOfId(entries, IdOfValue(entries, v).value);
      && w.Some?
      && (w.value == v || (v.JSymbol? && w.value.JSymbol? && w.value.description == v.description))
  {
    var i := FindKey(entries, ValueKey(v)).value;
    WellFormedIdsDistinct(entries);
    ValueOfIdAt(entries, i);
    ValueKeyInjective(entries[i].value, v);
  }

  /** The comparator of `getSortedEntries`: frequency descending, then key by localeCompare. */
  predicate EntryLe(a: ValueEntry, b: ValueEntry)
  {
    a.frequency > b.frequency
    || (a.frequency == b.frequency && (a.key == b.key || Strings.LocaleLess(a.key, b.key)))
  }

  lemma EntryLeIsTotalPreorder()
    ensures Sorting.TotalPreorder(EntryLe)
  {
    forall a: ValueEntry, b: ValueEntry ensures EntryLe(a, b) || EntryLe(b, a) {
      Strings.LocaleTotal(a.key, b.key);
    }
    forall a: ValueEntry, b: ValueEntry, c: ValueEntry | EntryLe(a, b) && EntryLe(b, c) ensures EntryLe(a, c) {
      if a.frequency == b.frequency == c.frequency && Strings.LocaleLess(a.key, b.key) && Strings.LocaleLess(b.key, c.key) {
        Strings.LocaleTransitive(a.key, b.key, c.key);
      }
    }
  }

  /** `getSortedEntries()`: a permutation of the entries in comparator order. */
  function SortedEntries(entries: seq<ValueEntry>): (r: seq<ValueEntry>)
    ensures Sorting.SortedBy(r, EntryLe)
    ensures multiset(r) == multiset(entries)
  {
    EntryLeIsTotalPreorder();
    Sorting.SortBy(entries, EntryLe)
  }

  /** The default thresholds of `toDict`. */
  const DefaultMinFrequency: nat := 8
  const DefaultMinAvgSavings: int := 3

  /** Frequent enough and saving enough to go into the dictionary. */
  predicate Selected(e: ValueEntry, minFrequency: int, minAvgSavings: int)
  {
    e.frequency >= minFrequency && e.estimatedSavings >= minAvgSavings
  }

  /** The members `toDict` writes, from sorted entries, in order. */
  function DictMembers(sorted: seq<ValueEntry>, minFrequency: int, minAvgSavings: int): seq<(string, JsValue)>
  {
    if sorted == [] then []
    else
      var init := DictMembers(sorted[..|sorted| - 1], minFrequency, minAvgSavings);
      var e := sorted[|sorted| - 1];
      if Selected(e, minFrequency, minAvgSavings) then init + [(e.id, e.value)] else init
  }

  /**
   * A member is in the dictionary exactly when some entry passing both
   * thresholds has that id and value.
   */
  lemma {:induction false} DictMembersExact(sorted: seq<ValueEntry>, minFrequency: int, minAvgSavings: int, m: (string, JsValue))
    ensures m in DictMembers(sorted, minFrequency, minAvgSavings) <==>
      exists e :: e in sorted && Selected(e, minFrequency, minAvgSavings) && m == (e.id, e.value)
    decreases |sorted|
  {
    if sorted != [] {
      var init := sorted[..|sorted| - 1];
      DictMembersExact(init, minFrequency, minAvgSavings, m);
      assert sorted == init + [sorted[|sorted| - 1]];
    }
  }

  /**
   * `toDict(minFrequency, minAvgSavings)` of a pool holds exactly the pooled
   * values passing both thresholds, each under its id.
   */
  lemma ToDictExact(entries: seq<ValueEntry>, minFrequency: int, minAvgSavings: int, m: (string, JsValue))
    ensures m in DictMembers(SortedEntries(entries), minFrequency, minAvgSavings) <==>
      exists i :: 0 <= i < |entries| && Selected(entries[i], minFrequency, minAvgSavings) && m == (entries[i].id, entries[i].value)
  {
    var s := SortedEntries(entries);
    DictMembersExact(s, minFrequency, minAvgSavings, m);
    forall e ensures e in s <==> e in entries {
      assert e in s <==> e in multiset(s);
      assert e in entries <==> e in multiset(entries);
    }
  }

  // ---------------------------------------------------------------------------
  // The class
  // ---------------------------------------------------------------------------

  class ValuePool {
    var entries: seq<ValueEntry>
    var idCounter: nat

    ghost predicate Valid()
      reads this
    {
      Consistent(entries, idCounter)
    }

    constructor()
      ensures Valid() && entries == []
    {
      entries := [];
      idCounter := 1;
    }

    /** `add(value)`. */
    method Add(v: JsValue) returns (id: Option<string>)
      requires Valid()
      modifies this
      ensures Valid()
      ensures AddOutcome(entries, idCounter, id) == AddValue(old(entries), old(idCounter), v)
    {
      AddKeepsConsistent(entries, idCounter, v);
      ghost var o := AddValue(entries, idCounter, v);
      if NeverInterned(v) {
        return None;
      }
      var key := ValueKey(v);
      var existing := FindKey(entries, key);
      if existing.Some? {
        var e := entries[existing.value];
        var bumped := entries[existing.value := Recounted(e, v)];
        assert o == AddOutcome(bumped, idCounter, Some(e.id));
        entries := bumped;
        return Some(e.id);
      }
      var valueSize: int := EstimatedSize(v);
      var idSize: int := AssumedIdSize;
      if valueSize <= idSize + 1 {
        return None;
      }
      var newId := ValueId(idCounter);
      var appended := entries + [ValueEntry(key, newId, v, 1, valueSize - idSize)];
      assert o == AddOutcome(appended, idCounter + 1, Some(newId));
      idCounter := idCounter + 1;
      entries := appended;
      return Some(newId);
    }

    /** `getId(value)`. */
    function GetId(v: JsValue): (r: Option<string>)
      reads this
      requires Valid()
      ensures r.Some? <==> exists i :: 0 <= i < |entries| && entries[i].key == ValueKey(v)
    {
      IdOfValue(entries, v)
    }

    /** `get(id)`: scan the entries in Map order. */
    method Get(id: string) returns (r: Option<JsValue>)
      requires Valid()
      ensures r == ValueOfId(entries, id)
    {
      var i := 0;
      while i < |entries|
        invariant 0 <= i <= |entries|
        invariant ValueOfId(entries, id) == ValueOfId(entries[i..], id)
      {
        assert entries[i..][1..] == entries[i + 1..];
        if entries[i].id == id {
          return Some(entries[i].value);
        }
        i := i + 1;
      }
      return None;
    }

    /** `toDict(minFrequency, minAvgSavings)`. */
    method ToDict(minFrequency: int, minAvgSavings: int) returns (dict: seq<(string, JsValue)>)
      requires Valid()
      ensures dict == DictMembers(SortedEntries(entries), minFrequency, minAvgSavings)
    {
      var sorted := SortedEntries(entries);
      dict := [];
      var i := 0;
      while i < |sorted|
        invariant 0 <= i <= |sorted|
        invariant dict == DictMembers(sorted[..i], minFrequency, minAvgSavings)
      {
        assert sorted[..i + 1][..i] == sorted[..i];
        if sorted[i].frequency >= minFrequency && sorted[i].estimatedSavings >= minAvgSavings {
          dict := dict + [(sorted[i].id, sorted[i].value)];
        }
        i := i + 1;
      }
      assert sorted[..i] == sorted;
    }
  }
}
