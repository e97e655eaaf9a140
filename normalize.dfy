/**
 * `normalize(obj, opts)`: the canonical form of an arbitrary JavaScript value
 * under a depth limit, an array-length limit and a key budget shared by the
 * whole call, with revisit detection by object identity.
 *
 * `NormValue` is the specification of the inner `normalizeValue`: it takes the
 * call's state (the `visited` set of object references and the running
 * `keyCount`) and returns the result together with the new state. Its result
 * is IN-BAND, exactly as in the source: an error is an ordinary object
 * `{value: null, error: {code, message, hint}}`, and the callers recognise it
 * by the tests `'error' in r` and `'value' in r`, which a data object with
 * such a key passes as well (see `DataValueKeyCollapses`).
 *
 * The call's shared `visited` set and `keyCount` are threaded through the
 * recursion as a `State` value, updated at the points and in the order the
 * source updates them.
 */
module Normalization {
  import opened Wrappers
  import opened Json
  import opened JsValues
  import Strings
  import Sorting
  import StringSort
  import Errors

  /**
   * The options `normalize` reads. The defaults of `maxDepth`, `maxKeys` and
   * `maxArrayLength` come from a constants file that is not part of this
   * model, so the limits are always given.
   */
  datatype Options = Options(sortKeys: bool, strict: bool, maxDepth: nat, maxKeys: nat, maxArrayLength: nat)

  /** `opts = {}` apart from the limits: keys sorted, lenient. */
  function DefaultOptions(maxDepth: nat, maxKeys: nat, maxArrayLength: nat): (o: Options)
    ensures o.sortKeys && !o.strict
  {
    Options(true, false, maxDepth, maxKeys, maxArrayLength)
  }

  /** The state shared by one call: the objects seen so far and the keys counted. */
  datatype State = State(visited: set<nat>, keyCount: nat)

  /** `{value, error?}` as `normalize` returns it; `None` is `undefined`. */
  datatype NormalizeResult = NormalizeResult(value: Option<Json>, error: Option<Json>)

  // ---------------------------------------------------------------------------
  // In-band results
  // ---------------------------------------------------------------------------

  function ErrorObject(code: Errors.ErrorCode, message: string, hint: string): Json
  {
    Obj([("code", Str(Errors.CodeText(code))), ("message", Str(message)), ("hint", Str(hint))])
  }

  /** The wrapper `{value: null, error: {code, message, hint}}`. */
  function ErrorWrapper(code: Errors.ErrorCode, message: string, hint: string): (r: Json)
    ensures HasKey(r, "error") && Get(r, "error") == Some(ErrorObject(code, message, hint))
    ensures HasKey(r, "value") && Get(r, "value") == Some(Null)
  {
    var fs := [("value", Null), ("error", ErrorObject(code, message, hint))];
    assert Keys(fs) == ["value", "error"];
    assert Lookup(fs, "error") == Lookup(fs[1..], "error");
    Obj(fs)
  }

  /** What a rejected node becomes: the error wrapper when strict, else null. */
  function Reject(opts: Options, code: Errors.ErrorCode, message: string, path: string): (r: Json)
    ensures opts.strict ==> r == ErrorWrapper(code, message, path)
    ensures !opts.strict ==> r == Null
  {
    if opts.strict then ErrorWrapper(code, message, path) else Null
  }

  /** `r && typeof r === 'object' && 'value' in r ? r.value : r`. */
  function Unwrap(r: Json): Json
  {
    if HasKey(r, "value") then Get(r, "value").value else r
  }

  function UnwrapAll(rs: seq<Json>): (out: seq<Json>)
    ensures |out| == |rs|
    ensures forall i :: 0 <= i < |rs| ==> out[i] == Unwrap(rs[i])
  {
    if rs == [] then [] else [Unwrap(rs[0])] + UnwrapAll(rs[1..])
  }

  /** `normalized.find(r => r && typeof r === 'object' && 'error' in r)`. */
  function FirstError(rs: seq<Json>): (r: Option<Json>)
    ensures r.Some? <==> exists i :: 0 <= i < |rs| && HasKey(rs[i], "error")
    ensures r.Some? ==> exists i :: (0 <= i < |rs| && rs[i] == r.value && HasKey(r.value, "error")
      && forall j :: 0 <= j < i ==> !HasKey(rs[j], "error"))
  {
    if rs == [] then None
    else if HasKey(rs[0], "error") then Some(rs[0])
    else
      var rest := FirstError(rs[1..]);
      assert forall i :: 1 <= i < |rs| ==> rs[i] == rs[1..][i - 1];
      if rest.Some? then
        ghost var i :| (0 <= i < |rs[1..]| && rs[1..][i] == rest.value && HasKey(rest.value, "error")
          && forall j :: 0 <= j < i ==> !HasKey(rs[1..][j], "error"));
        assert rs[i + 1] == rest.value;
        rest
      else rest
  }

  // ---------------------------------------------------------------------------
  // Raw values returned without normalisation
  // ---------------------------------------------------------------------------

  /** Values that JSON leaves out of an object and writes as null in an array. */
  predicate Unrepresentable(v: JsValue)
  {
    v.JUndefined? || v.JFunction? || v.JSymbol?
  }

  /**
   * The JSON reading of a raw value, as it appears in the output when the
   * lenient array truncation hands elements back without normalising them.
   */
  function JsonView(v: JsValue): Json
    decreases v
  {
    match v
    case JUndefined => Null
    case JNull => Null
    case JBool(b) => Bool(b)
    case JNum(n) => Num(n)
    case JNonFinite(_) => Null
    case JBigInt(_) => Null
    case JString(s) => Str(s)
    case JSymbol(_, _) => Null
    case JFunction(_, _) => Null
    case JDate(_, iso, _) => Str(iso)
    case JArray(_, items) => Arr(ViewItems(items))
    case JObject(_, fields) => Obj(ViewFields(fields))
    case JCollection(_, _) => Obj([])
  }

  function ViewItems(items: seq<JsValue>): (r: seq<Json>)
    ensures |r| == |items|
    decreases items
  {
    if items == [] then [] else [JsonView(items[0])] + ViewItems(items[1..])
  }

  function ViewFields(fields: seq<(string, JsValue)>): Fields
    decreases fields
  {
    if fields == [] then []
    else
      var (k, x) := fields[0];
      assert fields[0] in fields && x < fields[0];
      var rest := ViewFields(fields[1..]);
      if Unrepresentable(x) then rest else [(k, JsonView(x))] + rest
  }

  /**
   * A raw value `JSON.stringify` and a recursive walk can get through: no
   * BigInt anywhere inside it, and no object or array that contains one of
   * the objects or arrays `open` enclosing it.
   */
  predicate Stringifiable(v: JsValue, open: set<nat>)
    decreases v
  {
    match v
    case JBigInt(_) => false
    case JArray(ref, items) => ref !in open && forall i :: 0 <= i < |items| ==> Stringifiable(items[i], open + {ref})
    case JObject(ref, fields) =>
      ref !in open && forall i :: 0 <= i < |fields| ==> Stringifiable(fields[i].1, open + {ref})
    case _ => true
  }

  /**
   * Every array longer than `maxArrayLength` keeps, in the items the lenient
   * truncation hands back raw, only values that can be written as JSON
   * without throwing.
   */
  predicate RawItemsStringifiable(maxArrayLength: nat, v: JsValue, open: set<nat>)
    decreases v
  {
    match v
    case JArray(ref, items) =>
      if |items| > maxArrayLength then
        forall i :: 0 <= i < maxArrayLength ==> Stringifiable(items[i], open + {ref})
      else forall i :: 0 <= i < |items| ==> RawItemsStringifiable(maxArrayLength, items[i], open + {ref})
    case JObject(ref, fields) =>
      forall i :: 0 <= i < |fields| ==> RawItemsStringifiable(maxArrayLength, fields[i].1, open + {ref})
    case _ => true
  }

  // ---------------------------------------------------------------------------
  // normalizeValue
  // ---------------------------------------------------------------------------

  function ElementPath(path: string, index: nat): string
  {
    path + "[" + Strings.NatToString(index) + "]"
  }

  function MemberPath(path: string, key: string): string
  {
    path + "." + key
  }

  /** The end index `keys.slice(0, end)` stops at, for a possibly negative `end`. */
  function SliceEnd(len: nat, end: int): (r: nat)
    ensures r <= len
    ensures 0 <= end <= len ==> r == end
  {
    if end < 0 then (if len + end < 0 then 0 else len + end)
    else if end > len then len
    else end
  }

  /** The key order of the main loop: sorted when `sortKeys`, else as given. */
  function OrderKeys(opts: Options, keys: seq<string>): (r: seq<string>)
    ensures forall k :: k in r <==> k in keys
    ensures |r| == |keys|
  {
    if opts.sortKeys then StringSort.SortStrings(keys) else keys
  }

  /** `normalizeValue(v, path, depth)` from state `st`: the result and the new state. */
  function NormValue(opts: Options, v: JsValue, path: string, depth: nat, st: State): (Json, State)
    decreases v, 0
  {
    if depth > opts.maxDepth then
      var msg := "Maximum depth exceeded: " + Strings.NatToString(depth) + " > " + Strings.NatToString(opts.maxDepth);
      (Reject(opts, Errors.LimitExceeded, msg, path), st)
    else
      match v
      case JArray(_, items) => NormArray(opts, items, path, depth, st)
      case JObject(ref, fields) => NormObject(opts, ref, fields, path, depth, st)
      case _ => NormLeaf(opts, v, path, st)
  }

  /** The cases of `normalizeValue` that do not recurse. */
  function NormLeaf(opts: Options, v: JsValue, path: string, st: State): (Json, State)
    requires !v.JArray? && !v.JObject?
  {
    match v
    case JUndefined => (Null, st)
    case JNull => (Null, st)
    case JBool(b) => (Bool(b), st)
    case JNum(n) => (Num(n), st)
    case JNonFinite(k) =>
      (Reject(opts, Errors.UnsupportedType, "Unsupported number value: " + NonFiniteText(k), path), st)
    case JString(s) => (Str(s), st)
    case JDate(_, iso, _) => (Str(iso), st)
    case JBigInt(_) => (Reject(opts, Errors.UnsupportedType, "BigInt is not supported", path), st)
    case JFunction(_, _) => (Reject(opts, Errors.UnsupportedType, "function is not supported", path), st)
    case JSymbol(_, _) => (Reject(opts, Errors.UnsupportedType, "symbol is not supported", path), st)
    case JCollection(ref, ctorName) =>
      if ref in st.visited then
        (Reject(opts, Errors.UnsupportedType, "Circular reference detected", path), st)
      else
        (Reject(opts, Errors.UnsupportedType, ctorName + " is not supported", path),
         State(st.visited + {ref}, st.keyCount))
  }

  /** An array within the depth limit. */
  function NormArray(opts: Options, items: seq<JsValue>, path: string, depth: nat, st: State): (Json, State)
    decreases items, 1
  {
    if |items| > opts.maxArrayLength then
      if opts.strict then
        var msg := "Array length " + Strings.NatToString(|items|) + " exceeds maximum "
          + Strings.NatToString(opts.maxArrayLength);
        (ErrorWrapper(Errors.LimitExceeded, msg, path), st)
      else (Arr(ViewItems(items[..opts.maxArrayLength])), st)
    else
      var (results, st') := NormItems(opts, items, path, 0, depth, st);
      var firstError := FirstError(results);
      if firstError.Some? && opts.strict then (firstError.value, st')
      else (Arr(UnwrapAll(results)), st')
  }

  /** A plain object within the depth limit. */
  function NormObject(opts: Options, ref: nat, fields: seq<(string, JsValue)>, path: string, depth: nat, st: State)
    : (Json, State)
    decreases fields, |fields| + 1
  {
    if ref in st.visited then
      (Reject(opts, Errors.UnsupportedType, "Circular reference detected", path), st)
    else
      var seen := st.visited + {ref};
      var keys := JsKeys(fields);
      if st.keyCount + |keys| > opts.maxKeys then
        if opts.strict then
          var msg := "Key count " + Strings.NatToString(st.keyCount + |keys|) + " exceeds maximum "
            + Strings.NatToString(opts.maxKeys);
          (ErrorWrapper(Errors.LimitExceeded, msg, path), State(seen, st.keyCount))
        else
          var kept := keys[..SliceEnd(|keys|, opts.maxKeys - st.keyCount)];
          NormPartial(opts, fields, kept, path, depth, State(seen, st.keyCount), [])
      else
        NormFields(opts, fields, OrderKeys(opts, keys), path, depth, State(seen, st.keyCount + |keys|), [])
  }

  /** `value.map((item, index) => normalizeValue(item, path[index], depth + 1))`. */
  function NormItems(opts: Options, items: seq<JsValue>, path: string, index: nat, depth: nat, st: State)
    : (r: (seq<Json>, State))
    ensures |r.0| == |items|
    decreases items, 0
  {
    if items == [] then ([], st)
    else
      var (head, st1) := NormValue(opts, items[0], ElementPath(path, index), depth + 1, st);
      var (rest, st2) := NormItems(opts, items[1..], path, index + 1, depth, st1);
      ([head] + rest, st2)
  }

  /** The main key loop: stop at the first error when strict, else store the unwrapped child. */
  function NormFields(opts: Options, fields: seq<(string, JsValue)>, keys: seq<string>, path: string,
                      depth: nat, st: State, acc: Fields): (Json, State)
    requires forall k :: k in keys ==> k in JsKeys(fields)
    requires |keys| <= |fields|
    decreases fields, |keys|
  {
    if keys == [] then (Obj(acc), st)
    else
      var i := KeyIndex(fields, keys[0]);
      var x := fields[i].1;
      assert fields[i] in fields && x < fields[i];
      var (child, st1) := NormValue(opts, x, MemberPath(path, keys[0]), depth + 1, st);
      if opts.strict && HasKey(child, "error") then (child, st1)
      else NormFields(opts, fields, keys[1..], path, depth, st1, Assign(acc, keys[0], Unwrap(child)))
  }

  /** The lenient partial object: the kept keys in their own order, no error check. */
  function NormPartial(opts: Options, fields: seq<(string, JsValue)>, keys: seq<string>, path: string,
                       depth: nat, st: State, acc: Fields): (Json, State)
    requires forall k :: k in keys ==> k in JsKeys(fields)
    requires |keys| <= |fields|
    decreases fields, |keys|
  {
    if keys == [] then (Obj(acc), st)
    else
      var i := KeyIndex(fields, keys[0]);
      var x := fields[i].1;
      assert fields[i] in fields && x < fields[i];
      var (child, st1) := NormValue(opts, x, MemberPath(path, keys[0]), depth + 1, st);
      NormPartial(opts, fields, keys[1..], path, depth, st1, Assign(acc, keys[0], Unwrap(child)))
  }

  /** `normalize(obj, opts)`: run from the root and interpret the in-band result. */
  function Normalize(opts: Options, v: JsValue): NormalizeResult
  {
    var r := NormValue(opts, v, "<root>", 0, State({}, 0)).0;
    if opts.strict && HasKey(r, "error") then NormalizeResult(Some(Null), Get(r, "error"))
    else if HasKey(r, "error") then NormalizeResult(Get(r, "value"), None)
    else NormalizeResult(Some(r), None)
  }
}
