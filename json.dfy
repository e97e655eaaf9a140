/**
 * JSON-shaped values as the codec sees them after normalisation, and the
 * JavaScript object operations the source performs on them.
 *
 * Numbers are integers. Objects keep their fields in insertion order, as
 * JavaScript objects do for keys that are not array indices; every object the
 * codec builds is built with `Assign` (the statement `o[k] = v`), so its keys
 * are distinct.
 */
module Json {
  import opened Wrappers
  import Strings

  datatype Json =
    | Null
    | Bool(b: bool)
    | Num(n: int)
    | Str(s: string)
    | Arr(items: seq<Json>)
    | Obj(fields: seq<(string, Json)>)

  type Fields = seq<(string, Json)>

  // ---------------------------------------------------------------------------
  // Field lists
  // ---------------------------------------------------------------------------

  /** The keys of an object, in order (`Object.keys`). */
  function Keys(fields: Fields): (r: seq<string>)
    ensures |r| == |fields|
    ensures forall i :: 0 <= i < |fields| ==> r[i] == fields[i].0
  {
    if fields == [] then [] else [fields[0].0] + Keys(fields[1..])
  }

  /** The value stored under `k` (`o[k]` for an own property), if any. */
  function Lookup(fields: Fields, k: string): (r: Option<Json>)
    ensures r.Some? <==> k in Keys(fields)
  {
    if fields == [] then None
    else if fields[0].0 == k then Some(fields[0].1)
    else Lookup(fields[1..], k)
  }

  /** No key occurs twice. */
  predicate DistinctKeys(fields: Fields)
  {
    forall i, j :: 0 <= i < j < |fields| ==> fields[i].0 != fields[j].0
  }

  /** The statement `o[k] = v`: overwrite an existing key in place, else append. */
  function Assign(fields: Fields, k: string, v: Json): (r: Fields)
    ensures |r| == if k in Keys(fields) then |fields| else |fields| + 1
  {
    if fields == [] then [(k, v)]
    else if fields[0].0 == k then [(k, v)] + fields[1..]
    else [fields[0]] + Assign(fields[1..], k, v)
  }

  /** After `o[k] = v`, `o[k]` reads `v`. */
  lemma {:induction false} AssignLookup(fields: Fields, k: string, v: Json)
    ensures Lookup(Assign(fields, k, v), k) == Some(v)
  {
    if fields != [] && fields[0].0 != k {
      AssignLookup(fields[1..], k, v);
    }
  }

  /** After `o[k] = v`, every other key reads as before. */
  lemma {:induction false} AssignLookupOther(fields: Fields, k: string, v: Json, k': string)
    requires k' != k
    ensures Lookup(Assign(fields, k, v), k') == Lookup(fields, k')
  {
    if fields != [] && fields[0].0 != k {
      AssignLookupOther(fields[1..], k, v, k');
    }
  }

  /** `o[k] = v` keeps the key list when `k` was present and appends `k` otherwise. */
  lemma {:induction false} AssignKeys(fields: Fields, k: string, v: Json)
    ensures Keys(Assign(fields, k, v)) == if k in Keys(fields) then Keys(fields) else Keys(fields) + [k]
  {
    if fields != [] {
      assert Keys(fields) == [fields[0].0] + Keys(fields[1..]);
      if fields[0].0 == k {
        assert Keys([(k, v)] + fields[1..]) == Keys(fields);
      } else {
        var rest := Assign(fields[1..], k, v);
        AssignKeys(fields[1..], k, v);
        assert Keys([fields[0]] + rest) == [fields[0].0] + Keys(rest);
      }
    }
  }

  /** Assignment keeps the keys of an object distinct. */
  lemma AssignDistinct(fields: Fields, k: string, v: Json)
    requires DistinctKeys(fields)
    ensures DistinctKeys(Assign(fields, k, v))
  {
    AssignKeys(fields, k, v);
    var r := Assign(fields, k, v);
    var ks := Keys(r);
    assert forall i :: 0 <= i < |r| ==> r[i].0 == ks[i];
    if k in Keys(fields) {
      assert ks == Keys(fields);
    } else {
      assert ks == Keys(fields) + [k];
      forall i, j | 0 <= i < j < |r| ensures r[i].0 != r[j].0 {
        if j == |fields| {
          assert ks[i] == fields[i].0;
          assert ks[i] in Keys(fields);
        }
      }
    }
  }

  /** Reading a key of joined members: the first part's member wins. */
  lemma {:induction false} LookupAppend(a: Fields, b: Fields, k: string)
    ensures Lookup(a + b, k) == if k in Keys(a) then Lookup(a, k) else Lookup(b, k)
    decreases |a|
  {
    if a != [] {
      assert (a + b)[1..] == a[1..] + b;
      LookupAppend(a[1..], b, k);
    } else {
      assert a + b == b;
    }
  }

  lemma AssignFresh(fields: Fields, k: string, v: Json)
    requires k !in Keys(fields)
    ensures Assign(fields, k, v) == fields + [(k, v)]
  {
    if fields != [] {
      assert k != fields[0].0;
      assert Keys(fields) == [fields[0].0] + Keys(fields[1..]);
      AssignFresh(fields[1..], k, v);
      assert fields == [fields[0]] + fields[1..];
    }
  }

  /** With distinct keys, every member is found by its own key. */
  lemma {:induction false} LookupDistinct(d: Fields, m: nat)
    requires m < |d|
    requires DistinctKeys(d)
    ensures Lookup(d, d[m].0) == Some(d[m].1)
    decreases m
  {
    if m > 0 {
      assert d[0].0 != d[m].0;
      LookupDistinct(d[1..], m - 1);
    }
  }

  /** Every object anywhere in the value has distinct keys. */
  predicate WellKeyed(j: Json)
  {
    match j
    case Arr(items) => forall i :: 0 <= i < |items| ==> WellKeyed(items[i])
    case Obj(fields) =>
      DistinctKeys(fields) && forall i :: 0 <= i < |fields| ==> WellKeyed(fields[i].1)
    case _ => true
  }

  /** Property read `j[k]` on a value: only objects have own properties here. */
  function Get(j: Json, k: string): Option<Json>
  {
    if j.Obj? then Lookup(j.fields, k) else None
  }

  /** The test `k in j` of the source for an object value. */
  predicate HasKey(j: Json, k: string)
  {
    j.Obj? && k in Keys(j.fields)
  }

  /** JavaScript truthiness. */
  predicate Truthy(j: Json)
  {
    match j
    case Null => false
    case Bool(b) => b
    case Num(n) => n != 0
    case Str(s) => s != ""
    case _ => true
  }

  /** Truthiness of a property that may be `undefined`. */
  predicate TruthyOpt(o: Option<Json>)
  {
    o.Some? && Truthy(o.value)
  }

  // ---------------------------------------------------------------------------
  // Serialisation: JSON.stringify
  // ---------------------------------------------------------------------------

  /** The body of a JSON string literal: quote and backslash are escaped. */
  function Escape(s: string): (r: string)
    ensures |r| >= |s|
  {
    if s == [] then ""
    else if s[0] == '"' then "\\\"" + Escape(s[1..])
    else if s[0] == '\\' then "\\\\" + Escape(s[1..])
    else [s[0]] + Escape(s[1..])
  }

  /** A JSON string literal. */
  function Quote(s: string): (r: string)
    ensures |r| >= |s| + 2
  {
    "\"" + Escape(s) + "\""
  }

  /** `JSON.stringify(j)`. */
  function JsonText(j: Json): (r: string)
    ensures |r| >= 1
    decreases j
  {
    match j
    case Null => "null"
    case Bool(b) => if b then "true" else "false"
    case Num(n) => Strings.IntToString(n)
    case Str(s) => Quote(s)
    case Arr(items) => "[" + ItemsText(items) + "]"
    case Obj(fields) => "{" + FieldsText(fields) + "}"
  }

  function ItemsText(items: seq<Json>): string
    decreases items
  {
    if items == [] then ""
    else if |items| == 1 then JsonText(items[0])
    else JsonText(items[0]) + "," + ItemsText(items[1..])
  }

  function FieldsText(fields: Fields): string
    decreases fields
  {
    if fields == [] then ""
    else
      var (k, v) := fields[0];
      assert fields[0] in fields && v < fields[0];
      var member := Quote(k) + ":" + JsonText(v);
      if |fields| == 1 then member else member + "," + FieldsText(fields[1..])
  }

  /** `JSON.stringify(j).length`, the size measure of every heuristic, in UTF-16 code units. */
  function JsonLen(j: Json): (r: nat)
    ensures r >= |JsonText(j)| >= 1
  {
    Strings.Utf16Length(JsonText(j))
  }

  // ---------------------------------------------------------------------------
  // String conversion: `${v}` and String(v)
  // ---------------------------------------------------------------------------

  function JsString(j: Json): string
    decreases j
  {
    match j
    case Null => "null"
    case Bool(b) => if b then "true" else "false"
    case Num(n) => Strings.IntToString(n)
    case Str(s) => s
    case Arr(items) => JoinedItems(items)
    case Obj(_) => "[object Object]"
  }

  /** `Array.prototype.join(",")`: null elements print as empty text. */
  function JoinedItems(items: seq<Json>): string
    decreases items
  {
    if items == [] then ""
    else
      var head := if items[0].Null? then "" else JsString(items[0]);
      if |items| == 1 then head else head + "," + JoinedItems(items[1..])
  }

  /** `${v}` for a value that may be `undefined`. */
  function OptString(o: Option<Json>): string
  {
    if o.Some? then JsString(o.value) else "undefined"
  }
}
