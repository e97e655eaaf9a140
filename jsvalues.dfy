/**
 * Arbitrary JavaScript values as the normaliser and the value pool receive
 * them. Values with an identity (objects, arrays, dates, functions, symbols,
 * Map and Set instances) carry a reference number: two occurrences with the
 * same reference are the same object. A cyclic structure is represented by a
 * finite unfolding in which the repeated object occurs again with its
 * reference.
 */
module JsValues {
  import Strings

  datatype NonFinite = NaN | PositiveInfinity | NegativeInfinity

  datatype JsValue =
    | JUndefined
    | JNull
    | JBool(b: bool)
    | JNum(n: int)
    | JNonFinite(kind: NonFinite)
    | JBigInt(big: int)
    | JString(s: string)
    | JSymbol(ref: nat, description: string)
    /** A function and its source text, which is what `String(f)` gives. */
    | JFunction(ref: nat, source: string)
    /** A valid Date: `toISOString()` and `String(d)`. */
    | JDate(ref: nat, iso: string, text: string)
    | JArray(ref: nat, items: seq<JsValue>)
    /** A plain object; `fields` lists `Object.keys` in order with the values. */
    | JObject(ref: nat, fields: seq<(string, JsValue)>)
    /** A Map or Set instance; `ctorName` is `value.constructor.name`. */
    | JCollection(ref: nat, ctorName: string)

  /** `String(x)` for a non-finite number. */
  function NonFiniteText(k: NonFinite): string
  {
    match k
    case NaN => "NaN"
    case PositiveInfinity => "Infinity"
    case NegativeInfinity => "-Infinity"
  }

  /** `typeof value`. */
  function TypeOf(v: JsValue): string
  {
    match v
    case JUndefined => "undefined"
    case JBool(_) => "boolean"
    case JNum(_) => "number"
    case JNonFinite(_) => "number"
    case JBigInt(_) => "bigint"
    case JString(_) => "string"
    case JSymbol(_, _) => "symbol"
    case JFunction(_, _) => "function"
    case _ => "object"
  }

  /** JavaScript truthiness (`ToBoolean`). */
  predicate JsTruthy(v: JsValue)
  {
    match v
    case JUndefined => false
    case JNull => false
    case JBool(b) => b
    case JNum(n) => n != 0
    case JNonFinite(k) => k != NaN
    case JBigInt(n) => n != 0
    case JString(s) => s != ""
    case _ => true
  }

  /** `String(value)`. Elements of an array print through `join(",")`. */
  function ToStr(v: JsValue): string
  {
    match v
    case JUndefined => "undefined"
    case JNull => "null"
    case JBool(b) => if b then "true" else "false"
    case JNum(n) => Strings.IntToString(n)
    case JNonFinite(k) => NonFiniteText(k)
    case JBigInt(n) => Strings.IntToString(n)
    case JString(s) => s
    case JSymbol(_, d) => "Symbol(" + d + ")"
    case JFunction(_, src) => src
    case JDate(_, _, text) => text
    case JArray(_, items) => JoinItems(items)
    case JObject(_, _) => "[object Object]"
    case JCollection(_, name) => "[object " + name + "]"
  }

  /** `items.join(",")`: `null` and `undefined` elements print as nothing. */
  function JoinItems(items: seq<JsValue>): string
    decreases items
  {
    if items == [] then ""
    else
      var head := if items[0].JNull? || items[0].JUndefined? then "" else ToStr(items[0]);
      if |items| == 1 then head else head + "," + JoinItems(items[1..])
  }

  /** `Object.keys(obj)` of a plain object. */
  function JsKeys(fields: seq<(string, JsValue)>): (r: seq<string>)
    ensures |r| == |fields|
    ensures forall i :: 0 <= i < |fields| ==> r[i] == fields[i].0
  {
    if fields == [] then [] else [fields[0].0] + JsKeys(fields[1..])
  }

  /** Where `obj[key]` is found: the first field with that key. */
  function KeyIndex(fields: seq<(string, JsValue)>, k: string): (r: nat)
    requires k in JsKeys(fields)
    ensures r < |fields| && fields[r].0 == k
    ensures forall j :: 0 <= j < r ==> fields[j].0 != k
  {
    if fields[0].0 == k then 0 else 1 + KeyIndex(fields[1..], k)
  }

  /** No key occurs twice, as for the own keys of any JavaScript object. */
  predicate JsDistinctKeys(fields: seq<(string, JsValue)>)
  {
    forall i, j :: 0 <= i < j < |fields| ==> fields[i].0 != fields[j].0
  }
}
