/**
 * `decodeJson(toxJson, strict)`: check the schema version, then rebuild the
 * data with every object key looked up in the key dictionary `$dict`.
 *
 * The lookup `dict[key]` reads a JavaScript property: an own member of the
 * dictionary object or, failing that, a member every object inherits from
 * Object.prototype; and the key is replaced only when the value read is
 * truthy. `AsWrittenKey` is that rule. `CorrectedKey` reads own string
 * members only, which is what a dictionary from ids to keys calls for. The
 * two differ on an empty original key and on keys named like the members of
 * Object.prototype.
 */
module Decode {
  import opened Wrappers
  import opened Json
  import Errors

  // ---------------------------------------------------------------------------
  // Reading the dictionary
  // ---------------------------------------------------------------------------

  /** The members every plain object inherits from Object.prototype. */
  const InheritedNames: seq<string> := [
    "constructor", "__defineGetter__", "__defineSetter__", "hasOwnProperty",
    "__lookupGetter__", "__lookupSetter__", "isPrototypeOf", "propertyIsEnumerable",
    "toString", "valueOf", "__proto__", "toLocaleString"]

  /**
   * `String(Object.prototype[name])`: the text of a built-in function, or of
   * the prototype object itself for `__proto__`.
   */
  function InheritedText(name: string): (r: Option<string>)
    ensures r.Some? <==> name in InheritedNames
    ensures r.Some? ==> r.value != name && r.value != ""
  {
    if name !in InheritedNames then None
    else if name == "__proto__" then Some("[object Object]")
    else if name == "constructor" then Some("function Object() { [native code] }")
    else
      var t := "function " + name + "() { [native code] }";
      assert t[0] == 'f' && |t| > |name|;
      Some(t)
  }

  /** An own member of the dictionary; a dictionary that is not an object has none here. */
  function OwnEntry(dict: Json, key: string): Option<Json>
  {
    if dict.Obj? then Lookup(dict.fields, key) else None
  }

  /**
   * `if (dict[key]) originalKey = dict[key]`, with the property key the
   * assignment `result[originalKey]` turns the value into.
   */
  function AsWrittenKey(dict: Json, key: string): (r: string)
    ensures OwnEntry(dict, key).Some? && OwnEntry(dict, key).value.Str? && OwnEntry(dict, key).value.s != ""
      ==> r == OwnEntry(dict, key).value.s
    ensures OwnEntry(dict, key).None? && key !in InheritedNames ==> r == key
    ensures OwnEntry(dict, key).None? && key in InheritedNames ==> r != key
    ensures OwnEntry(dict, key) == Some(Str("")) ==> r == key
  {
    var own := OwnEntry(dict, key);
    if own.Some? then (if Truthy(own.value) then JsString(own.value) else key)
    else if key in InheritedNames then InheritedText(key).value
    else key
  }

  /** The key an id stands for: an own string member of the dictionary, whatever its text. */
  function CorrectedKey(dict: Json, key: string): (r: string)
    ensures OwnEntry(dict, key).Some? && OwnEntry(dict, key).value.Str? ==> r == OwnEntry(dict, key).value.s
    ensures OwnEntry(dict, key).None? ==> r == key
  {
    var own := OwnEntry(dict, key);
    if own.Some? && own.value.Str? then own.value.s else key
  }

  // ---------------------------------------------------------------------------
  // resolve
  // ---------------------------------------------------------------------------

  /**
   * `resolve(value)` with the key rule `rule` over the dictionary `dict`: scalars (id-looking strings
   * included) are returned as they are, arrays element by element, and
   * objects are rebuilt member by member.
   */
  function Resolve(rule: (Json, string) -> string, dict: Json, v: Json): (r: Json)
    ensures !v.Arr? && !v.Obj? ==> r == v
    ensures v.Arr? ==> r.Arr? && |r.items| == |v.items|
    ensures v.Obj? ==> r.Obj?
    decreases v, 1
  {
    match v
    case Arr(items) => Arr(seq(|items|, i requires 0 <= i < |items| => Resolve(rule, dict, items[i])))
    case Obj(fields) => Obj(ResolveFields(rule, dict, fields))
    case _ => v
  }

  /** The loop over `Object.entries(obj)`: `result[rule(dict, key)] = resolve(val)`, in order. */
  function ResolveFields(rule: (Json, string) -> string, dict: Json, fields: Fields): (r: Fields)
    decreases fields, 0
  {
    if fields == [] then []
    else
      var last := fields[|fields| - 1];
      assert last in fields && last.1 < last;
      var init := ResolveFields(rule, dict, fields[..|fields| - 1]);
      Assign(init, rule(dict, last.0), Resolve(rule, dict, last.1))
  }

  /** One member more: the rebuilt object is the old one with that member assigned. */
  lemma ResolveFieldsSnoc(rule: (Json, string) -> string, dict: Json, fields: Fields)
    requires fields != []
    ensures var last := fields[|fields| - 1];
      ResolveFields(rule, dict, fields)
        == Assign(ResolveFields(rule, dict, fields[..|fields| - 1]), rule(dict, last.0), Resolve(rule, dict, last.1))
  {
  }

  /** A name is present exactly when some key resolves to it. */
  lemma {:induction false} ResolveFieldsHas(rule: (Json, string) -> string, dict: Json, fields: Fields, name: string)
    ensures Lookup(ResolveFields(rule, dict, fields), name).Some? <==>
      exists i :: 0 <= i < |fields| && rule(dict, fields[i].0) == name
    decreases |fields|
  {
    if fields != [] {
      var n := |fields| - 1;
      var init := fields[..n];
      var k := rule(dict, fields[n].0);
      ResolveFieldsHas(rule, dict, init, name);
      ResolveFieldsSnoc(rule, dict, fields);
      AssignHas(ResolveFields(rule, dict, init), k, Resolve(rule, dict, fields[n].1), name);
      assert fields == init + [fields[n]];
      SnocExists(rule, dict, init, fields[n], name);
    }
  }

  lemma AssignHas(acc: Fields, k: string, v: Json, name: string)
    ensures Lookup(Assign(acc, k, v), name).Some? <==> Lookup(acc, name).Some? || k == name
  {
    AssignKeys(acc, k, v);
  }

  lemma SnocExists(rule: (Json, string) -> string, dict: Json, init: Fields, last: (string, Json), name: string)
    ensures var fields := init + [last];
      (exists i :: 0 <= i < |fields| && rule(dict, fields[i].0) == name) <==>
        (exists i :: 0 <= i < |init| && rule(dict, init[i].0) == name) || rule(dict, last.0) == name
  {
    var fields := init + [last];
    if exists i :: 0 <= i < |fields| && rule(dict, fields[i].0) == name {
      var i :| 0 <= i < |fields| && rule(dict, fields[i].0) == name;
      if i < |init| { assert init[i] == fields[i]; }
    }
    if exists i :: 0 <= i < |init| && rule(dict, init[i].0) == name {
      var i :| 0 <= i < |init| && rule(dict, init[i].0) == name;
      assert init[i] == fields[i];
    }
    if rule(dict, last.0) == name {
      assert fields[|init|] == last;
    }
  }

  /**
   * A resolved name holds the value of the LAST member whose key resolves to
   * it: when two keys resolve to the same name, the later one wins.
   */
  lemma {:induction false} ResolveFieldsLookup(rule: (Json, string) -> string, dict: Json, fields: Fields, i: nat)
    requires i < |fields|
    requires forall j :: i < j < |fields| ==> rule(dict, fields[j].0) != rule(dict, fields[i].0)
    ensures Lookup(ResolveFields(rule, dict, fields), rule(dict, fields[i].0)) == Some(Resolve(rule, dict, fields[i].1))
    decreases |fields|
  {
    var n := |fields| - 1;
    var init := fields[..n];
    var last := fields[n];
    var name := rule(dict, fields[i].0);
    var acc := ResolveFields(rule, dict, init);
    ResolveFieldsSnoc(rule, dict, fields);
    if i == n {
      AssignLookup(acc, name, Resolve(rule, dict, last.1));
    } else {
      assert init[i] == fields[i];
      assert forall j :: i < j < |init| ==> init[j] == fields[j];
      ResolveFieldsLookup(rule, dict, init, i);
      assert rule(dict, last.0) != name;
      AssignLookupOther(acc, rule(dict, last.0), Resolve(rule, dict, last.1), name);
    }
  }

  // ---------------------------------------------------------------------------
  // decodeJson
  // ---------------------------------------------------------------------------

  /** `toxJson.$dict || {}`. */
  function DictOf(doc: Json): Json
  {
    var d := Get(doc, "$dict");
    if TruthyOpt(d) then d.value else Obj([])
  }

  /**
   * The decoder with the dictionary rule `rule`. A `null` document makes the
   * version read throw, which the catch turns into a decode error; any other
   * document without `$schemaVersion` "1.0" is refused. The result is
   * `undefined` (None) when the document has no `data`.
   */
  function DecodeBy(doc: Json, rule: (Json, string) -> string): (r: Result<Option<Json>, Errors.ToxError>)
    ensures r.Failure? <==> doc.Null? || Get(doc, "$schemaVersion") != Some(Str("1.0"))
    ensures r.Failure? && !doc.Null? ==>
      r.error.code == Errors.IncompatibleVersion && r.error.hint == "$schemaVersion"
    ensures r.Failure? && doc.Null? ==> r.error.code == Errors.DecodeError
    ensures r.Success? ==> (r.value.Some? <==> HasKey(doc, "data"))
  {
    if doc.Null? then
      Failure(Errors.ToxError(Errors.DecodeError, "Cannot read properties of null (reading '$schemaVersion')", ""))
    else if Get(doc, "$schemaVersion") != Some(Str("1.0")) then
      var msg := "Unsupported schema version: " + OptString(Get(doc, "$schemaVersion"));
      Failure(Errors.ToxError(Errors.IncompatibleVersion, msg, "$schemaVersion"))
    else
      var dict := DictOf(doc);
      var data := Get(doc, "data");
      Success(if data.Some? then Some(Resolve(rule, dict, data.value)) else None)
  }

  /** What decoding gives, read off the parts of a document with the supported version. */
  lemma DecodeByParts(doc: Json, rule: (Json, string) -> string, dict: Json, data: Json)
    requires doc.Obj? && Get(doc, "$schemaVersion") == Some(Str("1.0"))
    requires Get(doc, "data") == Some(data) && DictOf(doc) == dict
    ensures DecodeBy(doc, rule) == Success(Some(Resolve(rule, dict, data)))
  {
  }

  /** `decodeJson(toxJson, strict)` as written; `strict` is never read. */
  function DecodeJson(doc: Json, strict: bool): Result<Option<Json>, Errors.ToxError>
  {
    DecodeBy(doc, AsWrittenKey)
  }

  /** The decoder with the dictionary read as own string members only. */
  function DecodeJsonCorrected(doc: Json, strict: bool): Result<Option<Json>, Errors.ToxError>
  {
    DecodeBy(doc, CorrectedKey)
  }

  /** The `strict` flag never changes the outcome. */
  lemma StrictIgnored(doc: Json)
    ensures DecodeJson(doc, true) == DecodeJson(doc, false)
    ensures DecodeJsonCorrected(doc, true) == DecodeJsonCorrected(doc, false)
  {
  }

  // ---------------------------------------------------------------------------
  // Decoding without a dictionary
  // ---------------------------------------------------------------------------

  /** Every object key anywhere in `v` is left alone by the key rule. */
  predicate KeysFixed(rule: (Json, string) -> string, dict: Json, v: Json)
    decreases v
  {
    match v
    case Arr(items) => forall i :: 0 <= i < |items| ==> KeysFixed(rule, dict, items[i])
    case Obj(fields) => forall i :: 0 <= i < |fields| ==> rule(dict, fields[i].0) == fields[i].0 && KeysFixed(rule, dict, fields[i].1)
    case _ => true
  }

  /** A key rule that leaves every key of a well-keyed value alone rebuilds the value exactly. */
  lemma {:induction false} ResolveIdentity(rule: (Json, string) -> string, dict: Json, v: Json)
    requires WellKeyed(v) && KeysFixed(rule, dict, v)
    ensures Resolve(rule, dict, v) == v
    decreases v, 1
  {
    match v
    case Arr(items) =>
      forall i | 0 <= i < |items| ensures Resolve(rule, dict, items[i]) == items[i] {
        ResolveIdentity(rule, dict, items[i]);
      }
    case Obj(fields) =>
      ResolveFieldsIdentity(rule, dict, fields);
    case _ =>
  }

  lemma {:induction false} ResolveFieldsIdentity(rule: (Json, string) -> string, dict: Json, fields: Fields)
    requires DistinctKeys(fields)
    requires forall i :: 0 <= i < |fields| ==> WellKeyed(fields[i].1)
    requires forall i :: 0 <= i < |fields| ==> rule(dict, fields[i].0) == fields[i].0 && KeysFixed(rule, dict, fields[i].1)
    ensures ResolveFields(rule, dict, fields) == fields
    decreases fields, 0
  {
    if fields != [] {
      var n := |fields| - 1;
      var init := fields[..n];
      var last := fields[n];
      assert last in fields && last.1 < last;
      ResolveFieldsIdentity(rule, dict, init);
      ResolveIdentity(rule, dict, last.1);
      assert last.0 !in Keys(init) by {
        forall j | 0 <= j < |init| ensures Keys(init)[j] != last.0 {
          assert fields[j].0 != fields[n].0;
        }
      }
      AssignFresh(init, last.0, last.1);
      assert init + [last] == fields;
    }
  }

  /** No object key anywhere in `v` names a member of Object.prototype. */
  predicate NoInheritedKeys(v: Json)
    decreases v
  {
    match v
    case Arr(items) => forall i :: 0 <= i < |items| ==> NoInheritedKeys(items[i])
    case Obj(fields) => forall i :: 0 <= i < |fields| ==> fields[i].0 !in InheritedNames && NoInheritedKeys(fields[i].1)
    case _ => true
  }

  lemma {:induction false} NoInheritedKeysFixed(v: Json)
    requires NoInheritedKeys(v)
    ensures KeysFixed(AsWrittenKey, Obj([]), v)
    decreases v
  {
    match v
    case Arr(items) =>
      forall i | 0 <= i < |items| ensures KeysFixed(AsWrittenKey, Obj([]), items[i]) {
        NoInheritedKeysFixed(items[i]);
      }
    case Obj(fields) =>
      forall i | 0 <= i < |fields| ensures KeysFixed(AsWrittenKey, Obj([]), fields[i].1) {
        assert fields[i] in fields && fields[i].1 < fields[i];
        NoInheritedKeysFixed(fields[i].1);
      }
    case _ =>
  }

  lemma {:induction false} AllKeysFixedCorrected(v: Json)
    ensures KeysFixed(CorrectedKey, Obj([]), v)
    decreases v
  {
    match v
    case Arr(items) =>
      forall i | 0 <= i < |items| ensures KeysFixed(CorrectedKey, Obj([]), items[i]) {
        AllKeysFixedCorrected(items[i]);
      }
    case Obj(fields) =>
      forall i | 0 <= i < |fields| ensures KeysFixed(CorrectedKey, Obj([]), fields[i].1) {
        assert fields[i] in fields && fields[i].1 < fields[i];
        AllKeysFixedCorrected(fields[i].1);
      }
    case _ =>
  }

  /** A version-1.0 document whose `$dict` is absent or falsy. */
  predicate PlainDocument(doc: Json)
  {
    && Get(doc, "$schemaVersion") == Some(Str("1.0"))
    && !TruthyOpt(Get(doc, "$dict"))
    && HasKey(doc, "data")
  }

  /**
   * Without a dictionary the decoder returns the data as it is, provided no
   * key is named like a member of Object.prototype.
   */
  lemma NoDictionaryDecodesToData(doc: Json, strict: bool)
    requires PlainDocument(doc)
    requires WellKeyed(Get(doc, "data").value) && NoInheritedKeys(Get(doc, "data").value)
    ensures DecodeJson(doc, strict) == Success(Get(doc, "data"))
  {
    var data := Get(doc, "data").value;
    assert DictOf(doc) == Obj([]);
    NoInheritedKeysFixed(data);
    ResolveIdentity(AsWrittenKey, Obj([]), data);
  }

  /** With the dictionary read as own members, no-dictionary decoding is the identity outright. */
  lemma NoDictionaryDecodesToDataCorrected(doc: Json, strict: bool)
    requires PlainDocument(doc)
    requires WellKeyed(Get(doc, "data").value)
    ensures DecodeJsonCorrected(doc, strict) == Success(Get(doc, "data"))
  {
    var data := Get(doc, "data").value;
    assert DictOf(doc) == Obj([]);
    AllKeysFixedCorrected(data);
    ResolveIdentity(CorrectedKey, Obj([]), data);
  }

  // ---------------------------------------------------------------------------
  // Where the dictionary read goes wrong
  // ---------------------------------------------------------------------------

  /**
   * The parts of the document the encoder writes for `{"": 1}` with the
   * dictionary forced on that decoding reads (`$meta` is not read).
   */
  function EmptyKeyDocument(): Json
  {
    Obj([("$schemaVersion", Str("1.0")), ("$dict", Obj([("k1", Str(""))])), ("data", Obj([("k1", Num(1))]))])
  }

  lemma EmptyKeyDocumentParts()
    ensures DictOf(EmptyKeyDocument()) == Obj([("k1", Str(""))])
    ensures Get(EmptyKeyDocument(), "data") == Some(Obj([("k1", Num(1))]))
    ensures Get(EmptyKeyDocument(), "$schemaVersion") == Some(Str("1.0"))
  {
    var fs := EmptyKeyDocument().fields;
    assert Lookup(fs, "$dict") == Lookup(fs[1..], "$dict");
    assert Lookup(fs, "data") == Lookup(fs[2..], "data");
  }

  /**
   * An id whose entry is the empty key (the encoder pools "" like any other
   * key) is not resolved: the falsy entry leaves the id in place.
   */
  lemma EmptyKeyNotRestored()
    ensures DecodeJson(EmptyKeyDocument(), false) == Success(Some(Obj([("k1", Num(1))])))
  {
    var dict := Obj([("k1", Str(""))]);
    EmptyKeyDocumentParts();
    assert OwnEntry(dict, "k1") == Some(Str(""));
    var fields := [("k1", Num(1))];
    assert fields[..0] == [];
    assert ResolveFields(AsWrittenKey, dict, fields) == [("k1", Num(1))];
  }

  /** Read as own string members, the same entry restores the empty key. */
  lemma EmptyKeyRestoredCorrected()
    ensures DecodeJsonCorrected(EmptyKeyDocument(), false) == Success(Some(Obj([("", Num(1))])))
  {
    var dict := Obj([("k1", Str(""))]);
    EmptyKeyDocumentParts();
    assert OwnEntry(dict, "k1") == Some(Str(""));
    var fields := [("k1", Num(1))];
    assert fields[..0] == [];
    assert ResolveFields(CorrectedKey, dict, fields) == [("", Num(1))];
  }

  /**
   * Without any dictionary, a key named like an Object.prototype member is
   * still rewritten: `{"constructor": 1}` decodes to a key holding the text
   * of the Object function.
   */
  lemma ConstructorKeyRewritten()
    ensures var doc := Obj([("$schemaVersion", Str("1.0")), ("data", Obj([("constructor", Num(1))]))]);
      && DecodeJson(doc, false) == Success(Some(Obj([("function Object() { [native code] }", Num(1))])))
      && DecodeJsonCorrected(doc, false) == Success(Some(Obj([("constructor", Num(1))])))
  {
    var doc := Obj([("$schemaVersion", Str("1.0")), ("data", Obj([("constructor", Num(1))]))]);
    assert Get(doc, "$dict") == None;
    assert Get(doc, "data") == Some(Obj([("constructor", Num(1))]));
    var fields := [("constructor", Num(1))];
    assert fields[..0] == [];
    assert "constructor" in InheritedNames;
    assert ResolveFields(AsWrittenKey, Obj([]), fields) == [("function Object() { [native code] }", Num(1))];
    assert ResolveFields(CorrectedKey, Obj([]), fields) == fields;
  }
}
