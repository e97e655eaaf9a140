/**
 * What `normalize` promises, proved about its specification `NormValue`.
 *
 * The central fact is `PlainNormalizes`. Plain JSON data that fits the
 * limits, has no object reached twice, and uses no key named "value" or
 * "error" normalises to its canonical form `Canon`: the same tree with every
 * object's keys in sorted order. Neither mode reports an error for it. The
 * other lemmas cover the rejection paths, the state the traversal threads,
 * and the places where the in-band error wrappers are confused with data.
 */
module NormalizeFacts {
  import opened Wrappers
  import opened Json
  import opened JsValues
  import Strings
  import Sorting
  import StringSort
  import Errors
  import opened Normalization

  // ---------------------------------------------------------------------------
  // Reading the in-band results
  // ---------------------------------------------------------------------------

  /** `r` is the wrapper `{value: null, error: {code, message, hint}}` with this code and hint. */
  predicate ReportsError(r: Json, code: Errors.ErrorCode, hint: string)
  {
    && r.Obj? && |r.fields| == 2 && r.fields[0] == ("value", Null) && r.fields[1].0 == "error"
    && var e := r.fields[1].1;
       && e.Obj? && |e.fields| == 3
       && e.fields[0] == ("code", Str(Errors.CodeText(code)))
       && e.fields[1].0 == "message" && e.fields[1].1.Str?
       && e.fields[2] == ("hint", Str(hint))
  }

  // ---------------------------------------------------------------------------
  // Scalars and rejected values
  // ---------------------------------------------------------------------------

  /** Values that normalise to null (lenient) or UNSUPPORTED_TYPE (strict). */
  predicate Unsupported(v: JsValue, st: State)
  {
    v.JNonFinite? || v.JBigInt? || v.JFunction? || v.JSymbol?
    || (v.JCollection? && v.ref !in st.visited)
  }

  /** null and undefined become null; booleans, integers and strings are kept. */
  lemma ScalarsPassThrough(opts: Options, b: bool, n: int, s: string)
    ensures Normalize(opts, JUndefined) == NormalizeResult(Some(Null), None)
    ensures Normalize(opts, JNull) == NormalizeResult(Some(Null), None)
    ensures Normalize(opts, JBool(b)) == NormalizeResult(Some(Bool(b)), None)
    ensures Normalize(opts, JNum(n)) == NormalizeResult(Some(Num(n)), None)
    ensures Normalize(opts, JString(s)) == NormalizeResult(Some(Str(s)), None)
  {
  }

  /** Unsupported values are null when lenient and UNSUPPORTED_TYPE at their path when strict. */
  lemma UnsupportedRejected(opts: Options, v: JsValue, path: string, depth: nat, st: State)
    requires depth <= opts.maxDepth
    requires Unsupported(v, st)
    ensures !opts.strict ==> NormValue(opts, v, path, depth, st).0 == Null
    ensures opts.strict ==> ReportsError(NormValue(opts, v, path, depth, st).0, Errors.UnsupportedType, path)
  {
    var r := NormValue(opts, v, path, depth, st).0;
    assert NormValue(opts, v, path, depth, st) == NormLeaf(opts, v, path, st);
    var msg := match v
      case JNonFinite(k) => "Unsupported number value: " + NonFiniteText(k)
      case JBigInt(_) => "BigInt is not supported"
      case JFunction(_, _) => "function is not supported"
      case JSymbol(_, _) => "symbol is not supported"
      case JCollection(_, name) => name + " is not supported"
      case _ => "";
    assert r == Reject(opts, Errors.UnsupportedType, msg, path);
  }

  /** At the root, strict mode turns an unsupported value into `{value: null, error}`. */
  lemma UnsupportedRootStrict(opts: Options, v: JsValue)
    requires opts.strict
    requires Unsupported(v, State({}, 0))
    ensures Normalize(opts, v).value == Some(Null)
    ensures Normalize(opts, v).error.Some?
    ensures Get(Normalize(opts, v).error.value, "code") == Some(Str(Errors.CodeText(Errors.UnsupportedType)))
  {
    var r := NormValue(opts, v, "<root>", 0, State({}, 0)).0;
    UnsupportedRejected(opts, v, "<root>", 0, State({}, 0));
    var fs := r.fields[1].1.fields;
    assert Keys(r.fields) == ["value", "error"];
    assert Lookup(r.fields, "error") == Some(r.fields[1].1);
    assert Lookup(fs, "code") == Some(Str(Errors.CodeText(Errors.UnsupportedType)));
  }

  /** A node deeper than `maxDepth` is null or LIMIT_EXCEEDED, and nothing is counted or visited. */
  lemma DepthLimit(opts: Options, v: JsValue, path: string, depth: nat, st: State)
    requires depth > opts.maxDepth
    ensures NormValue(opts, v, path, depth, st).1 == st
    ensures !opts.strict ==> NormValue(opts, v, path, depth, st).0 == Null
    ensures opts.strict ==> ReportsError(NormValue(opts, v, path, depth, st).0, Errors.LimitExceeded, path)
  {
  }

  /**
   * An array longer than `maxArrayLength`: LIMIT_EXCEEDED when strict; when
   * lenient its first `maxArrayLength` elements exactly as they are, without
   * normalisation, so nothing is counted or visited.
   */
  lemma ArrayLengthLimit(opts: Options, ref: nat, items: seq<JsValue>, path: string, depth: nat, st: State)
    requires depth <= opts.maxDepth
    requires |items| > opts.maxArrayLength
    ensures NormValue(opts, JArray(ref, items), path, depth, st).1 == st
    ensures !opts.strict ==>
      NormValue(opts, JArray(ref, items), path, depth, st).0 == Arr(ViewItems(items[..opts.maxArrayLength]))
    ensures opts.strict ==>
      ReportsError(NormValue(opts, JArray(ref, items), path, depth, st).0, Errors.LimitExceeded, path)
  {
  }

  /** An object or Map/Set already visited in this call is null or UNSUPPORTED_TYPE, state unchanged. */
  lemma RevisitRejected(opts: Options, v: JsValue, path: string, depth: nat, st: State)
    requires depth <= opts.maxDepth
    requires (v.JObject? || v.JCollection?) && v.ref in st.visited
    ensures NormValue(opts, v, path, depth, st).1 == st
    ensures !opts.strict ==> NormValue(opts, v, path, depth, st).0 == Null
    ensures opts.strict ==>
      NormValue(opts, v, path, depth, st).0 == ErrorWrapper(Errors.UnsupportedType, "Circular reference detected", path)
  {
  }

  /**
   * `visited` is never cleared: a plain object that occurs twice in an array,
   * without any cycle, is kept the first time and taken for a cycle the
   * second: nulled when lenient, reported as circular when strict.
   */
  lemma SharedReferenceNulled(opts: Options, a: nat, shared: JsValue)
    requires shared.JObject? && PlainData(shared) && TreeShaped(shared) && Fits(opts, shared, 1)
    requires KeyTotal(shared) <= opts.maxKeys && opts.maxArrayLength >= 2
    ensures !opts.strict ==>
      Normalize(opts, JArray(a, [shared, shared])) == NormalizeResult(Some(Arr([Canon(opts, shared), Null])), None)
    ensures opts.strict ==>
      Normalize(opts, JArray(a, [shared, shared]))
        == NormalizeResult(Some(Null), Some(ErrorObject(Errors.UnsupportedType, "Circular reference detected",
                                                         ElementPath("<root>", 1))))
  {
    var second := Reject(opts, Errors.UnsupportedType, "Circular reference detected", ElementPath("<root>", 1));
    var results := [Canon(opts, shared), second];
    var rv := NormValue(opts, JArray(a, [shared, shared]), "<root>", 0, State({}, 0)).0;
    SharedItems(opts, shared);
    CanonNotWrapper(opts, shared);
    assert rv == NormArray(opts, [shared, shared], "<root>", 0, State({}, 0)).0;
    assert results[1..] == [second];
    if opts.strict {
      assert FirstError(results) == FirstError(results[1..]);
      assert FirstError(results) == Some(second);
      assert rv == second;
    } else {
      assert results[1..][1..] == [];
      assert FirstError(results) == None;
      assert UnwrapAll(results) == [Canon(opts, shared), Null];
      assert rv == Arr([Canon(opts, shared), Null]);
    }
  }

  /** The two walks over the shared object: kept the first time, rejected the second. */
  lemma SharedItems(opts: Options, shared: JsValue)
    requires shared.JObject? && PlainData(shared) && TreeShaped(shared) && Fits(opts, shared, 1)
    requires KeyTotal(shared) <= opts.maxKeys
    ensures var st := State(ObjRefs(shared), KeyTotal(shared));
      NormItems(opts, [shared, shared], "<root>", 0, 0, State({}, 0))
        == ([Canon(opts, shared), Reject(opts, Errors.UnsupportedType, "Circular reference detected",
                                         ElementPath("<root>", 1))], st)
  {
    var st0, st := State({}, 0), State(ObjRefs(shared), KeyTotal(shared));
    var second := Reject(opts, Errors.UnsupportedType, "Circular reference detected", ElementPath("<root>", 1));
    SharedFirst(opts, shared);
    SharedSecond(opts, shared);
    assert [shared, shared][1..] == [shared];
    var r0 := NormItems(opts, [shared, shared], "<root>", 0, 0, st0);
    assert r0.0 == [Canon(opts, shared)] + [second];
    assert [Canon(opts, shared)] + [second] == [Canon(opts, shared), second];
  }

  /** The first walk keeps the object and marks all of it visited. */
  lemma SharedFirst(opts: Options, shared: JsValue)
    requires shared.JObject? && PlainData(shared) && TreeShaped(shared) && Fits(opts, shared, 1)
    requires KeyTotal(shared) <= opts.maxKeys
    ensures NormValue(opts, shared, ElementPath("<root>", 0), 1, State({}, 0))
      == (Canon(opts, shared), State(ObjRefs(shared), KeyTotal(shared)))
  {
    PlainNormalizes(opts, shared, ElementPath("<root>", 0), 1, State({}, 0));
    assert {} + ObjRefs(shared) == ObjRefs(shared);
  }

  /** The second walk finds the object already visited. */
  lemma SharedSecond(opts: Options, shared: JsValue)
    requires shared.JObject? && Fits(opts, shared, 1)
    ensures var st := State(ObjRefs(shared), KeyTotal(shared));
      NormItems(opts, [shared], "<root>", 1, 0, st)
        == ([Reject(opts, Errors.UnsupportedType, "Circular reference detected", ElementPath("<root>", 1))], st)
  {
    var st := State(ObjRefs(shared), KeyTotal(shared));
    var p1 := ElementPath("<root>", 1);
    assert shared.ref in ObjRefs(shared);
    RevisitRejected(opts, shared, p1, 1, st);
    assert NormItems(opts, [], "<root>", 2, 0, st) == ([], st);
    assert [shared][1..] == [];
    var r := NormItems(opts, [shared], "<root>", 1, 0, st);
    assert r.0[0] == Reject(opts, Errors.UnsupportedType, "Circular reference detected", p1);
    assert r.0 == [r.0[0]] && r.1 == st;
  }

  /** Lenient mode never reports an error; strict mode reports one only with value null. */
  lemma ErrorsOnlyWhenStrict(opts: Options, v: JsValue)
    ensures !opts.strict ==> Normalize(opts, v).error == None
    ensures Normalize(opts, v).error.Some? ==> Normalize(opts, v).value == Some(Null)
  {
  }

  // ---------------------------------------------------------------------------
  // The threaded state
  // ---------------------------------------------------------------------------

  /** The state only grows: objects stay visited and the key count never falls. */
  predicate Grows(st: State, st': State)
  {
    st.visited <= st'.visited && st.keyCount <= st'.keyCount
  }

  /**
   * The traversal only grows the state, and a key count within `maxKeys`
   * stays within it: the budget is checked before every object is counted.
   */
  lemma {:induction false} StateBounded(opts: Options, v: JsValue, path: string, depth: nat, st: State)
    ensures Grows(st, NormValue(opts, v, path, depth, st).1)
    ensures st.keyCount <= opts.maxKeys ==> NormValue(opts, v, path, depth, st).1.keyCount <= opts.maxKeys
    decreases v, 0
  {
    if depth <= opts.maxDepth {
      match v
      case JArray(_, items) =>
        if |items| <= opts.maxArrayLength {
          ItemsStateBounded(opts, items, path, 0, depth, st);
        }
      case JObject(ref, fields) =>
        if ref !in st.visited {
          assert NormValue(opts, v, path, depth, st) == NormObject(opts, ref, fields, path, depth, st);
          ObjectStateBounded(opts, ref, fields, path, depth, st);
        }
      case _ =>
    }
  }

  lemma {:induction false} ObjectStateBounded(opts: Options, ref: nat, fields: seq<(string, JsValue)>, path: string,
                                              depth: nat, st: State)
    requires ref !in st.visited
    ensures Grows(st, NormObject(opts, ref, fields, path, depth, st).1)
    ensures st.keyCount <= opts.maxKeys ==> NormObject(opts, ref, fields, path, depth, st).1.keyCount <= opts.maxKeys
    decreases fields, |fields| + 1
  {
    var seen := st.visited + {ref};
    var keys := JsKeys(fields);
    if st.keyCount + |keys| > opts.maxKeys {
      if !opts.strict {
        var kept := keys[..SliceEnd(|keys|, opts.maxKeys - st.keyCount)];
        PartialStateBounded(opts, fields, kept, path, depth, State(seen, st.keyCount), []);
      }
    } else {
      FieldsStateBounded(opts, fields, OrderKeys(opts, keys), path, depth, State(seen, st.keyCount + |keys|), []);
    }
  }

  lemma {:induction false} ItemsStateBounded(opts: Options, items: seq<JsValue>, path: string, index: nat,
                                             depth: nat, st: State)
    ensures Grows(st, NormItems(opts, items, path, index, depth, st).1)
    ensures st.keyCount <= opts.maxKeys ==> NormItems(opts, items, path, index, depth, st).1.keyCount <= opts.maxKeys
    decreases items, 0
  {
    if items != [] {
      var st1 := NormValue(opts, items[0], ElementPath(path, index), depth + 1, st).1;
      StateBounded(opts, items[0], ElementPath(path, index), depth + 1, st);
      ItemsStateBounded(opts, items[1..], path, index + 1, depth, st1);
    }
  }

  lemma {:induction false} FieldsStateBounded(opts: Options, fields: seq<(string, JsValue)>, keys: seq<string>,
                                              path: string, depth: nat, st: State, acc: Fields)
    requires forall k :: k in keys ==> k in JsKeys(fields)
    requires |keys| <= |fields|
    ensures Grows(st, NormFields(opts, fields, keys, path, depth, st, acc).1)
    ensures st.keyCount <= opts.maxKeys ==> NormFields(opts, fields, keys, path, depth, st, acc).1.keyCount <= opts.maxKeys
    decreases fields, |keys|
  {
    if keys != [] {
      var i := KeyIndex(fields, keys[0]);
      var x := fields[i].1;
      assert fields[i] in fields && x < fields[i];
      var (child, st1) := NormValue(opts, x, MemberPath(path, keys[0]), depth + 1, st);
      StateBounded(opts, x, MemberPath(path, keys[0]), depth + 1, st);
      if !(opts.strict && HasKey(child, "error")) {
        FieldsStateBounded(opts, fields, keys[1..], path, depth, st1, Assign(acc, keys[0], Unwrap(child)));
      }
    }
  }

  lemma {:induction false} PartialStateBounded(opts: Options, fields: seq<(string, JsValue)>, keys: seq<string>,
                                               path: string, depth: nat, st: State, acc: Fields)
    requires forall k :: k in keys ==> k in JsKeys(fields)
    requires |keys| <= |fields|
    ensures Grows(st, NormPartial(opts, fields, keys, path, depth, st, acc).1)
    ensures st.keyCount <= opts.maxKeys ==> NormPartial(opts, fields, keys, path, depth, st, acc).1.keyCount <= opts.maxKeys
    decreases fields, |keys|
  {
    if keys != [] {
      var i := KeyIndex(fields, keys[0]);
      var x := fields[i].1;
      assert fields[i] in fields && x < fields[i];
      var (child, st1) := NormValue(opts, x, MemberPath(path, keys[0]), depth + 1, st);
      StateBounded(opts, x, MemberPath(path, keys[0]), depth + 1, st);
      PartialStateBounded(opts, fields, keys[1..], path, depth, st1, Assign(acc, keys[0], Unwrap(child)));
    }
  }

  /** Over a whole call the key count never exceeds `maxKeys`. */
  lemma KeyCountWithinBudget(opts: Options, v: JsValue)
    ensures NormValue(opts, v, "<root>", 0, State({}, 0)).1.keyCount <= opts.maxKeys
  {
    StateBounded(opts, v, "<root>", 0, State({}, 0));
  }

  // ---------------------------------------------------------------------------
  // The key-budget overflow: a partial object in the source's own key order
  // ---------------------------------------------------------------------------

  lemma {:induction false} PartialKeys(opts: Options, fields: seq<(string, JsValue)>, keys: seq<string>,
                                       path: string, depth: nat, st: State, acc: Fields)
    requires forall k :: k in keys ==> k in JsKeys(fields)
    requires |keys| <= |fields|
    requires Sorting.Distinct(keys)
    requires forall k :: k in keys ==> k !in Keys(acc)
    ensures NormPartial(opts, fields, keys, path, depth, st, acc).0.Obj?
    ensures Keys(NormPartial(opts, fields, keys, path, depth, st, acc).0.fields) == Keys(acc) + keys
    decreases |keys|
  {
    if keys != [] {
      var i := KeyIndex(fields, keys[0]);
      var (child, st1) := NormValue(opts, fields[i].1, MemberPath(path, keys[0]), depth + 1, st);
      var acc' := Assign(acc, keys[0], Unwrap(child));
      PartialFresh(keys, acc, Unwrap(child));
      PartialKeys(opts, fields, keys[1..], path, depth, st1, acc');
      SplitFirst(Keys(acc), keys);
    }
  }

  /** Writing the first key keeps the rest of the keys fresh. */
  lemma PartialFresh(keys: seq<string>, acc: Fields, v: Json)
    requires keys != []
    requires Sorting.Distinct(keys)
    requires forall k :: k in keys ==> k !in Keys(acc)
    ensures Keys(Assign(acc, keys[0], v)) == Keys(acc) + [keys[0]]
    ensures forall k :: k in keys[1..] ==> k !in Keys(Assign(acc, keys[0], v))
    ensures Sorting.Distinct(keys[1..])
  {
    AssignKeys(acc, keys[0], v);
    forall k | k in keys[1..] ensures k !in Keys(Assign(acc, keys[0], v)) {
      var j :| 1 <= j < |keys| && keys[j] == k;
      assert keys[0] != keys[j];
    }
  }

  lemma SplitFirst<T>(front: seq<T>, s: seq<T>)
    requires s != []
    ensures front + [s[0]] + s[1..] == front + s
  {
    assert s == [s[0]] + s[1..];
  }

  /**
   * When an object's keys would overflow the budget, lenient mode returns an
   * object of its first `maxKeys - keyCount` keys in their original, unsorted
   * order, and does not count them.
   */
  lemma KeyBudgetOverflow(opts: Options, ref: nat, fields: seq<(string, JsValue)>, path: string,
                          depth: nat, st: State)
    requires depth <= opts.maxDepth && ref !in st.visited
    requires JsDistinctKeys(fields)
    requires st.keyCount <= opts.maxKeys < st.keyCount + |fields|
    ensures var r := NormValue(opts, JObject(ref, fields), path, depth, st).0;
      if opts.strict then ReportsError(r, Errors.LimitExceeded, path)
      else r.Obj? && Keys(r.fields) == JsKeys(fields)[..opts.maxKeys - st.keyCount]
  {
    if !opts.strict {
      var keys := JsKeys(fields);
      var kept := keys[..opts.maxKeys - st.keyCount];
      assert Sorting.Distinct(kept);
      assert NormValue(opts, JObject(ref, fields), path, depth, st) == NormObject(opts, ref, fields, path, depth, st);
      PartialKeys(opts, fields, kept, path, depth, State(st.visited + {ref}, st.keyCount), []);
    }
  }

  // ---------------------------------------------------------------------------
  // Plain data and its canonical form
  // ---------------------------------------------------------------------------

  /** The value stored under a key, `obj[key]`. */
  function Child(fields: seq<(string, JsValue)>, k: string): JsValue
    requires k in JsKeys(fields)
  {
    fields[KeyIndex(fields, k)].1
  }

  /** JSON data with no key named "value" or "error" (they would be read as wrappers). */
  predicate PlainData(v: JsValue)
    decreases v
  {
    match v
    case JNull => true
    case JBool(_) => true
    case JNum(_) => true
    case JString(_) => true
    case JArray(_, items) => forall i :: 0 <= i < |items| ==> PlainData(items[i])
    case JObject(_, fields) =>
      && JsDistinctKeys(fields)
      && "value" !in JsKeys(fields) && "error" !in JsKeys(fields)
      && forall i :: 0 <= i < |fields| ==> PlainData(fields[i].1)
    case _ => false
  }

  /** The references of the objects (and Map/Set instances) in a value. */
  function ObjRefs(v: JsValue): set<nat>
    decreases v
  {
    match v
    case JArray(_, items) => ItemsRefs(items)
    case JObject(ref, fields) => {ref} + KeysRefs(fields, JsKeys(fields))
    case JCollection(ref, _) => {ref}
    case _ => {}
  }

  function ItemsRefs(items: seq<JsValue>): set<nat>
    decreases items
  {
    if items == [] then {} else ObjRefs(items[0]) + ItemsRefs(items[1..])
  }

  function KeysRefs(fields: seq<(string, JsValue)>, keys: seq<string>): set<nat>
    requires forall k :: k in keys ==> k in JsKeys(fields)
    decreases fields, |keys|
  {
    if keys == [] then {}
    else
      var i := KeyIndex(fields, keys[0]);
      assert fields[i] in fields && fields[i].1 < fields[i];
      ObjRefs(fields[i].1) + KeysRefs(fields, keys[1..])
  }

  /** The number of object keys in a value: what `keyCount` adds up. */
  function KeyTotal(v: JsValue): nat
    decreases v
  {
    match v
    case JArray(_, items) => ItemsTotal(items)
    case JObject(_, fields) => |fields| + KeysTotal(fields, JsKeys(fields))
    case _ => 0
  }

  function ItemsTotal(items: seq<JsValue>): nat
    decreases items
  {
    if items == [] then 0 else KeyTotal(items[0]) + ItemsTotal(items[1..])
  }

  function KeysTotal(fields: seq<(string, JsValue)>, keys: seq<string>): nat
    requires forall k :: k in keys ==> k in JsKeys(fields)
    decreases fields, |keys|
  {
    if keys == [] then 0
    else
      var i := KeyIndex(fields, keys[0]);
      assert fields[i] in fields && fields[i].1 < fields[i];
      KeyTotal(fields[i].1) + KeysTotal(fields, keys[1..])
  }

  /** No object is reached twice: sibling subtrees share no object, nor contain their parent. */
  predicate TreeShaped(v: JsValue)
    decreases v
  {
    match v
    case JArray(_, items) =>
      && (forall i :: 0 <= i < |items| ==> TreeShaped(items[i]))
      && (forall i, j :: 0 <= i < j < |items| ==> ObjRefs(items[i]) !! ObjRefs(items[j]))
    case JObject(ref, fields) =>
      && ref !in KeysRefs(fields, JsKeys(fields))
      && (forall i :: 0 <= i < |fields| ==> TreeShaped(fields[i].1))
      && (forall i, j :: 0 <= i < j < |fields| ==> ObjRefs(fields[i].1) !! ObjRefs(fields[j].1))
    case _ => true
  }

  /** Every node is within `maxDepth` and every array within `maxArrayLength`. */
  predicate Fits(opts: Options, v: JsValue, depth: nat)
    decreases v
  {
    && depth <= opts.maxDepth
    && match v
       case JArray(_, items) =>
         |items| <= opts.maxArrayLength && forall i :: 0 <= i < |items| ==> Fits(opts, items[i], depth + 1)
       case JObject(_, fields) => forall i :: 0 <= i < |fields| ==> Fits(opts, fields[i].1, depth + 1)
       case _ => true
  }

  /** The canonical form: the same data, each object's keys in the order `sortKeys` asks for. */
  function Canon(opts: Options, v: JsValue): Json
    decreases v
  {
    match v
    case JBool(b) => Bool(b)
    case JNum(n) => Num(n)
    case JString(s) => Str(s)
    case JArray(_, items) => Arr(CanonItems(opts, items))
    case JObject(_, fields) => Obj(CanonMembers(opts, fields, OrderKeys(opts, JsKeys(fields))))
    case _ => Null
  }

  function CanonItems(opts: Options, items: seq<JsValue>): (r: seq<Json>)
    ensures |r| == |items|
    decreases items
  {
    if items == [] then [] else [Canon(opts, items[0])] + CanonItems(opts, items[1..])
  }

  function CanonMembers(opts: Options, fields: seq<(string, JsValue)>, keys: seq<string>): (r: Fields)
    requires forall k :: k in keys ==> k in JsKeys(fields)
    ensures |r| == |keys|
    ensures forall i :: 0 <= i < |keys| ==> r[i].0 == keys[i]
    decreases fields, |keys|
  {
    if keys == [] then []
    else
      var i := KeyIndex(fields, keys[0]);
      assert fields[i] in fields && fields[i].1 < fields[i];
      [(keys[0], Canon(opts, fields[i].1))] + CanonMembers(opts, fields, keys[1..])
  }

  /** A canonical object has exactly its keys, ordered as `sortKeys` asks. */
  lemma CanonKeys(opts: Options, ref: nat, fields: seq<(string, JsValue)>)
    ensures Canon(opts, JObject(ref, fields)).Obj?
    ensures Keys(Canon(opts, JObject(ref, fields)).fields) == OrderKeys(opts, JsKeys(fields))
    ensures opts.sortKeys ==> Sorting.SortedBy(Keys(Canon(opts, JObject(ref, fields)).fields), Strings.CodeUnitLe)
  {
  }

  /** The canonical form of plain data is never read as a wrapper. */
  lemma CanonNotWrapper(opts: Options, v: JsValue)
    requires PlainData(v)
    ensures !HasKey(Canon(opts, v), "error") && !HasKey(Canon(opts, v), "value")
    ensures Unwrap(Canon(opts, v)) == Canon(opts, v)
  {
    if v.JObject? {
      CanonKeys(opts, v.ref, v.fields);
    }
  }

  lemma {:induction false} KeysRefsMembers(fields: seq<(string, JsValue)>, keys: seq<string>, x: nat)
    requires forall k :: k in keys ==> k in JsKeys(fields)
    ensures x in KeysRefs(fields, keys) <==> exists k :: k in keys && x in ObjRefs(Child(fields, k))
    decreases |keys|
  {
    if keys != [] {
      KeysRefsMembers(fields, keys[1..], x);
      assert KeysRefs(fields, keys) == ObjRefs(Child(fields, keys[0])) + KeysRefs(fields, keys[1..]);
      if x in ObjRefs(Child(fields, keys[0])) {
        assert keys[0] in keys;
      } else if x in KeysRefs(fields, keys[1..]) {
        var k :| k in keys[1..] && x in ObjRefs(Child(fields, k));
        assert k in keys;
      }
      if exists k :: k in keys && x in ObjRefs(Child(fields, k)) {
        var k :| k in keys && x in ObjRefs(Child(fields, k));
        if k != keys[0] {
          assert k in keys[1..];
        }
      }
    }
  }

  /** The objects below a key list do not depend on the order of the keys. */
  lemma KeysRefsOrderFree(fields: seq<(string, JsValue)>, a: seq<string>, b: seq<string>)
    requires forall k :: k in a ==> k in JsKeys(fields)
    requires forall k :: k in a <==> k in b
    ensures KeysRefs(fields, a) == KeysRefs(fields, b)
  {
    forall x ensures x in KeysRefs(fields, a) <==> x in KeysRefs(fields, b) {
      KeysRefsMembers(fields, a, x);
      KeysRefsMembers(fields, b, x);
    }
  }

  lemma {:induction false} KeysTotalAppend(fields: seq<(string, JsValue)>, a: seq<string>, b: seq<string>)
    requires forall k :: k in a + b ==> k in JsKeys(fields)
    ensures KeysTotal(fields, a + b) == KeysTotal(fields, a) + KeysTotal(fields, b)
    decreases |a|
  {
    if a != [] {
      assert (a + b)[0] == a[0];
      assert (a + b)[1..] == a[1..] + b;
      forall k | k in a[1..] + b ensures k in JsKeys(fields) {
        assert k in a + b;
      }
      KeysTotalAppend(fields, a[1..], b);
    } else {
      assert a + b == b;
    }
  }

  /** The key total does not depend on the order of the keys. */
  lemma {:induction false} KeysTotalOrderFree(fields: seq<(string, JsValue)>, a: seq<string>, b: seq<string>)
    requires forall k :: k in a ==> k in JsKeys(fields)
    requires forall k :: k in b ==> k in JsKeys(fields)
    requires multiset(a) == multiset(b)
    ensures KeysTotal(fields, a) == KeysTotal(fields, b)
    decreases |a|
  {
    if a == [] {
      assert b == [] by { assert |b| == |multiset(b)| == 0; }
    } else {
      assert a[0] in multiset(b);
      var j :| 0 <= j < |b| && b[j] == a[0];
      var b' := b[..j] + b[j + 1..];
      RemoveAtMultiset(a, b, j);
      KeysTotalRemoveAt(fields, b, j);
      assert KeysTotal(fields, a) == KeysTotal(fields, [a[0]]) + KeysTotal(fields, a[1..]) by {
        assert a == [a[0]] + a[1..];
        KeysTotalAppend(fields, [a[0]], a[1..]);
      }
      forall k | k in a[1..] ensures k in JsKeys(fields) { assert k in a; }
      KeysTotalOrderFree(fields, a[1..], b');
    }
  }

  /** Taking the first of `a` and its match `b[j]` away leaves equal multisets. */
  lemma RemoveAtMultiset(a: seq<string>, b: seq<string>, j: nat)
    requires a != [] && j < |b| && b[j] == a[0]
    requires multiset(a) == multiset(b)
    ensures multiset(a[1..]) == multiset(b[..j] + b[j + 1..])
    ensures forall k :: k in b[..j] + b[j + 1..] ==> k in b
  {
    var front, back := b[..j], b[j + 1..];
    assert b == front + [b[j]] + back;
    assert a == [a[0]] + a[1..];
    assert multiset(b) == multiset(front) + multiset{b[j]} + multiset(back);
    assert multiset(front + back) == multiset(front) + multiset(back);
    assert multiset(a) == multiset{a[0]} + multiset(a[1..]);
    assert multiset(a[1..]) == multiset(a) - multiset{a[0]};
    forall k | k in front + back ensures k in b {
      if k in front { assert k in b; } else { assert k in back; }
    }
  }

  /** The key total of `b` is that of `b[j]` plus that of the rest. */
  lemma KeysTotalRemoveAt(fields: seq<(string, JsValue)>, b: seq<string>, j: nat)
    requires forall k :: k in b ==> k in JsKeys(fields)
    requires j < |b|
    ensures KeysTotal(fields, b) == KeysTotal(fields, [b[j]]) + KeysTotal(fields, b[..j] + b[j + 1..])
  {
    var front, back := b[..j], b[j + 1..];
    assert b == front + [b[j]] + back;
    forall k | k in front + [b[j]] + back ensures k in JsKeys(fields) { assert k in b; }
    forall k | k in front + back ensures k in JsKeys(fields) {
      if k in front { assert k in b; } else { assert k in b; }
    }
    KeysTotalAppend(fields, front + [b[j]], back);
    KeysTotalAppend(fields, front, [b[j]]);
    KeysTotalAppend(fields, front, back);
  }

  /** Objects in none of the items are in none of their union. */
  lemma {:induction false} ItemsRefsDisjoint(items: seq<JsValue>, other: set<nat>)
    requires forall i :: 0 <= i < |items| ==> ObjRefs(items[i]) !! other
    ensures ItemsRefs(items) !! other
    decreases |items|
  {
    if items != [] {
      assert forall i :: 0 <= i < |items[1..]| ==> items[1..][i] == items[i + 1];
      ItemsRefsDisjoint(items[1..], other);
    }
  }

  /** Objects under none of the keys are in none of their union. */
  lemma {:induction false} KeysRefsDisjoint(fields: seq<(string, JsValue)>, keys: seq<string>, other: set<nat>)
    requires forall k :: k in keys ==> k in JsKeys(fields)
    requires forall k :: k in keys ==> ObjRefs(Child(fields, k)) !! other
    ensures KeysRefs(fields, keys) !! other
    decreases |keys|
  {
    if keys != [] {
      assert keys[0] in keys;
      KeysRefsDisjoint(fields, keys[1..], other);
    }
  }

  /** Plain items normalise to their canonical forms, visiting and counting exactly their objects. */
  lemma {:induction false} PlainItems(opts: Options, items: seq<JsValue>, path: string, index: nat, depth: nat, st: State)
    requires forall i :: 0 <= i < |items| ==> PlainData(items[i]) && TreeShaped(items[i]) && Fits(opts, items[i], depth + 1)
    requires forall i, j :: 0 <= i < j < |items| ==> ObjRefs(items[i]) !! ObjRefs(items[j])
    requires ItemsRefs(items) !! st.visited
    requires st.keyCount + ItemsTotal(items) <= opts.maxKeys
    ensures NormItems(opts, items, path, index, depth, st)
      == (CanonItems(opts, items), State(st.visited + ItemsRefs(items), st.keyCount + ItemsTotal(items)))
    decreases items, 0
  {
    if items != [] {
      var head, rest := items[0], items[1..];
      assert forall i :: 0 <= i < |rest| ==> rest[i] == items[i + 1];
      PlainNormalizes(opts, head, ElementPath(path, index), depth + 1, st);
      var st1 := State(st.visited + ObjRefs(head), st.keyCount + KeyTotal(head));
      ItemsRefsDisjoint(rest, ObjRefs(head));
      PlainItems(opts, rest, path, index + 1, depth, st1);
      assert st1.visited + ItemsRefs(rest) == st.visited + ItemsRefs(items);
    } else {
      assert st.visited + ItemsRefs(items) == st.visited;
    }
  }

  /** Plain data within the limits, with no object reached twice. */
  predicate Good(opts: Options, v: JsValue, depth: nat)
  {
    PlainData(v) && TreeShaped(v) && Fits(opts, v, depth)
  }

  /** One round of the main key loop on a plain member appends its canonical form. */
  lemma PlainFieldsStep(opts: Options, fields: seq<(string, JsValue)>, keys: seq<string>, path: string,
                        depth: nat, st: State, acc: Fields)
    requires keys != []
    requires forall k :: k in keys ==> k in JsKeys(fields)
    requires |keys| <= |fields|
    requires Good(opts, Child(fields, keys[0]), depth + 1)
    requires ObjRefs(Child(fields, keys[0])) !! st.visited
    requires st.keyCount + KeyTotal(Child(fields, keys[0])) <= opts.maxKeys
    requires keys[0] !in Keys(acc)
    ensures var x := Child(fields, keys[0]);
      NormFields(opts, fields, keys, path, depth, st, acc)
      == NormFields(opts, fields, keys[1..], path, depth,
                    State(st.visited + ObjRefs(x), st.keyCount + KeyTotal(x)), acc + [(keys[0], Canon(opts, x))])
    decreases fields, |keys|, 0
  {
    var k := keys[0];
    var i := KeyIndex(fields, k);
    var x := Child(fields, k);
    assert x == fields[i].1 && fields[i] in fields && fields[i].1 < fields[i];
    PlainNormalizes(opts, x, MemberPath(path, k), depth + 1, st);
    CanonNotWrapper(opts, x);
    AssignFresh(acc, k, Canon(opts, x));
  }

  /** Every listed member is good, checked one key at a time. */
  predicate AllGood(opts: Options, fields: seq<(string, JsValue)>, keys: seq<string>, depth: nat)
    requires forall k :: k in keys ==> k in JsKeys(fields)
    decreases |keys|
  {
    keys == [] || (Good(opts, Child(fields, keys[0]), depth + 1) && AllGood(opts, fields, keys[1..], depth))
  }

  /** No listed member shares an object with a member listed after it. */
  predicate Separate(fields: seq<(string, JsValue)>, keys: seq<string>)
    requires forall k :: k in keys ==> k in JsKeys(fields)
    decreases |keys|
  {
    keys == [] || (ObjRefs(Child(fields, keys[0])) !! KeysRefs(fields, keys[1..]) && Separate(fields, keys[1..]))
  }

  /** The keys are distinct and none of them is among `names`. */
  predicate FreshKeys(keys: seq<string>, names: seq<string>)
    decreases |keys|
  {
    keys == [] || (keys[0] !in names && FreshKeys(keys[1..], names + [keys[0]]))
  }

  lemma {:induction false} AllGoodFrom(opts: Options, fields: seq<(string, JsValue)>, keys: seq<string>, depth: nat)
    requires forall k :: k in keys ==> k in JsKeys(fields)
    requires forall a :: 0 <= a < |keys| ==> Good(opts, Child(fields, keys[a]), depth + 1)
    ensures AllGood(opts, fields, keys, depth)
    decreases |keys|
  {
    if keys != [] {
      assert forall k' :: k' in keys[1..] ==> k' in keys;
      assert forall a :: 0 <= a < |keys[1..]| ==> keys[1..][a] == keys[a + 1];
      AllGoodFrom(opts, fields, keys[1..], depth);
    }
  }

  lemma {:induction false} SeparateFrom(fields: seq<(string, JsValue)>, keys: seq<string>)
    requires forall k :: k in keys ==> k in JsKeys(fields)
    requires forall a, b :: 0 <= a < b < |keys| ==> ObjRefs(Child(fields, keys[a])) !! ObjRefs(Child(fields, keys[b]))
    ensures Separate(fields, keys)
    decreases |keys|
  {
    if keys != [] {
      var rest := keys[1..];
      assert forall k' :: k' in rest ==> k' in keys;
      assert forall a :: 0 <= a < |rest| ==> rest[a] == keys[a + 1];
      var x := Child(fields, keys[0]);
      forall k' | k' in rest ensures ObjRefs(Child(fields, k')) !! ObjRefs(x) {
        var b :| 0 <= b < |rest| && rest[b] == k';
        assert ObjRefs(Child(fields, keys[0])) !! ObjRefs(Child(fields, keys[b + 1]));
      }
      KeysRefsDisjoint(fields, rest, ObjRefs(x));
      SeparateFrom(fields, rest);
    }
  }

  lemma {:induction false} FreshFrom(keys: seq<string>, names: seq<string>)
    requires Sorting.Distinct(keys)
    requires forall a :: 0 <= a < |keys| ==> keys[a] !in names
    ensures FreshKeys(keys, names)
    decreases |keys|
  {
    if keys != [] {
      var rest := keys[1..];
      forall a | 0 <= a < |rest| ensures rest[a] !in names + [keys[0]] {
        assert rest[a] == keys[a + 1] && keys[0] != keys[a + 1];
      }
      FreshFrom(rest, names + [keys[0]]);
    }
  }

  /** The objects and key counts of the members split into the first and the rest. */
  lemma PlainTailTotals(fields: seq<(string, JsValue)>, keys: seq<string>)
    requires keys != []
    requires forall k :: k in keys ==> k in JsKeys(fields)
    ensures forall k :: k in keys[1..] ==> k in JsKeys(fields)
    ensures KeysRefs(fields, keys) == ObjRefs(Child(fields, keys[0])) + KeysRefs(fields, keys[1..])
    ensures KeysTotal(fields, keys) == KeyTotal(Child(fields, keys[0])) + KeysTotal(fields, keys[1..])
  {
    assert forall k' :: k' in keys[1..] ==> k' in keys;
  }

  /** The first canonical member followed by the rest is all of them. */
  lemma CanonMembersFirst(opts: Options, fields: seq<(string, JsValue)>, keys: seq<string>, acc: Fields)
    requires keys != []
    requires forall k :: k in keys ==> k in JsKeys(fields)
    ensures forall k :: k in keys[1..] ==> k in JsKeys(fields)
    ensures acc + [(keys[0], Canon(opts, Child(fields, keys[0])))] + CanonMembers(opts, fields, keys[1..])
      == acc + CanonMembers(opts, fields, keys)
  {
    assert forall k' :: k' in keys[1..] ==> k' in keys;
    var cm := CanonMembers(opts, fields, keys);
    assert cm[0] == (keys[0], Canon(opts, Child(fields, keys[0])));
    assert cm[1..] == CanonMembers(opts, fields, keys[1..]);
    SplitFirst(acc, cm);
  }

  /** Appending a member adds its key to the keys. */
  lemma KeysAppend(acc: Fields, k: string, c: Json)
    ensures Keys(acc + [(k, c)]) == Keys(acc) + [k]
  {
    assert Keys(acc + [(k, c)])[|acc|] == k;
  }

  /** The main key loop over plain members yields their canonical forms in loop order. */
  lemma {:induction false} PlainFields(opts: Options, fields: seq<(string, JsValue)>, keys: seq<string>, path: string,
                                       depth: nat, st: State, acc: Fields)
    requires forall k :: k in keys ==> k in JsKeys(fields)
    requires |keys| <= |fields|
    requires AllGood(opts, fields, keys, depth)
    requires Separate(fields, keys)
    requires KeysRefs(fields, keys) !! st.visited
    requires st.keyCount + KeysTotal(fields, keys) <= opts.maxKeys
    requires FreshKeys(keys, Keys(acc))
    ensures NormFields(opts, fields, keys, path, depth, st, acc).0 == Obj(acc + CanonMembers(opts, fields, keys))
    ensures NormFields(opts, fields, keys, path, depth, st, acc).1.visited == st.visited + KeysRefs(fields, keys)
    ensures NormFields(opts, fields, keys, path, depth, st, acc).1.keyCount == st.keyCount + KeysTotal(fields, keys)
    decreases fields, |keys|, 2
  {
    if keys != [] {
      PlainFieldsRest(opts, fields, keys, depth, st, acc);
      PlainFieldsCons(opts, fields, keys, path, depth, st, acc);
    } else {
      assert st.visited + KeysRefs(fields, keys) == st.visited;
      assert acc + CanonMembers(opts, fields, keys) == acc;
    }
  }

  /** After one round, the rest of the keys meet the conditions of `PlainFields` again. */
  lemma PlainFieldsRest(opts: Options, fields: seq<(string, JsValue)>, keys: seq<string>,
                        depth: nat, st: State, acc: Fields)
    requires keys != []
    requires forall k :: k in keys ==> k in JsKeys(fields)
    requires AllGood(opts, fields, keys, depth)
    requires Separate(fields, keys)
    requires KeysRefs(fields, keys) !! st.visited
    requires st.keyCount + KeysTotal(fields, keys) <= opts.maxKeys
    requires FreshKeys(keys, Keys(acc))
    ensures forall k :: k in keys[1..] ==> k in JsKeys(fields)
    ensures var x := Child(fields, keys[0]);
      var st1 := State(st.visited + ObjRefs(x), st.keyCount + KeyTotal(x));
      && Good(opts, x, depth + 1)
      && ObjRefs(x) !! st.visited
      && st.keyCount + KeyTotal(x) <= opts.maxKeys
      && keys[0] !in Keys(acc)
      && AllGood(opts, fields, keys[1..], depth)
      && Separate(fields, keys[1..])
      && KeysRefs(fields, keys[1..]) !! st1.visited
      && st1.keyCount + KeysTotal(fields, keys[1..]) <= opts.maxKeys
      && FreshKeys(keys[1..], Keys(acc + [(keys[0], Canon(opts, x))]))
      && st1.visited + KeysRefs(fields, keys[1..]) == st.visited + KeysRefs(fields, keys)
      && st1.keyCount + KeysTotal(fields, keys[1..]) == st.keyCount + KeysTotal(fields, keys)
  {
    var x := Child(fields, keys[0]);
    PlainTailTotals(fields, keys);
    KeysAppend(acc, keys[0], Canon(opts, x));
  }

  /** `PlainFields` for a non-empty key list: one round, then the rest of the loop. */
  lemma {:induction false} PlainFieldsCons(opts: Options, fields: seq<(string, JsValue)>, keys: seq<string>,
                                           path: string, depth: nat, st: State, acc: Fields)
    requires keys != []
    requires forall k :: k in keys ==> k in JsKeys(fields)
    requires forall k :: k in keys[1..] ==> k in JsKeys(fields)
    requires |keys| <= |fields|
    requires var x := Child(fields, keys[0]);
      var st1 := State(st.visited + ObjRefs(x), st.keyCount + KeyTotal(x));
      && Good(opts, x, depth + 1)
      && ObjRefs(x) !! st.visited
      && st.keyCount + KeyTotal(x) <= opts.maxKeys
      && keys[0] !in Keys(acc)
      && AllGood(opts, fields, keys[1..], depth)
      && Separate(fields, keys[1..])
      && KeysRefs(fields, keys[1..]) !! st1.visited
      && st1.keyCount + KeysTotal(fields, keys[1..]) <= opts.maxKeys
      && FreshKeys(keys[1..], Keys(acc + [(keys[0], Canon(opts, x))]))
      && st1.visited + KeysRefs(fields, keys[1..]) == st.visited + KeysRefs(fields, keys)
      && st1.keyCount + KeysTotal(fields, keys[1..]) == st.keyCount + KeysTotal(fields, keys)
    ensures NormFields(opts, fields, keys, path, depth, st, acc).0 == Obj(acc + CanonMembers(opts, fields, keys))
    ensures NormFields(opts, fields, keys, path, depth, st, acc).1.visited == st.visited + KeysRefs(fields, keys)
    ensures NormFields(opts, fields, keys, path, depth, st, acc).1.keyCount == st.keyCount + KeysTotal(fields, keys)
    decreases fields, |keys|, 1
  {
    var x := Child(fields, keys[0]);
    var st1 := State(st.visited + ObjRefs(x), st.keyCount + KeyTotal(x));
    var acc' := acc + [(keys[0], Canon(opts, x))];
    PlainFieldsStep(opts, fields, keys, path, depth, st, acc);
    PlainFields(opts, fields, keys[1..], path, depth, st1, acc');
    CanonMembersFirst(opts, fields, keys, acc);
  }

  /**
   * Plain data within the limits, with no object reached twice and none
   * visited before, normalises to its canonical form: every object with its
   * keys sorted (when `sortKeys`) and each key mapped to the normalised
   * original value. Exactly its objects are visited and its keys counted.
   */
  lemma {:induction false} PlainNormalizes(opts: Options, v: JsValue, path: string, depth: nat, st: State)
    requires PlainData(v) && TreeShaped(v) && Fits(opts, v, depth)
    requires ObjRefs(v) !! st.visited
    requires st.keyCount + KeyTotal(v) <= opts.maxKeys
    ensures NormValue(opts, v, path, depth, st)
      == (Canon(opts, v), State(st.visited + ObjRefs(v), st.keyCount + KeyTotal(v)))
    decreases v, 0
  {
    if v.JArray? {
      assert NormValue(opts, v, path, depth, st) == NormArray(opts, v.items, path, depth, st);
      PlainArray(opts, v.items, path, depth, st);
    } else if v.JObject? {
      assert NormValue(opts, v, path, depth, st) == NormObject(opts, v.ref, v.fields, path, depth, st);
      PlainObject(opts, v.ref, v.fields, path, depth, st);
    } else {
      assert NormValue(opts, v, path, depth, st) == NormLeaf(opts, v, path, st);
      assert st.visited + ObjRefs(v) == st.visited;
    }
  }

  lemma {:induction false} PlainArray(opts: Options, items: seq<JsValue>, path: string, depth: nat, st: State)
    requires forall i :: 0 <= i < |items| ==> PlainData(items[i]) && TreeShaped(items[i]) && Fits(opts, items[i], depth + 1)
    requires forall i, j :: 0 <= i < j < |items| ==> ObjRefs(items[i]) !! ObjRefs(items[j])
    requires |items| <= opts.maxArrayLength
    requires ItemsRefs(items) !! st.visited
    requires st.keyCount + ItemsTotal(items) <= opts.maxKeys
    ensures NormArray(opts, items, path, depth, st)
      == (Arr(CanonItems(opts, items)), State(st.visited + ItemsRefs(items), st.keyCount + ItemsTotal(items)))
    decreases items, 1
  {
    PlainItems(opts, items, path, 0, depth, st);
    var canon := CanonItems(opts, items);
    forall i | 0 <= i < |items| ensures !HasKey(canon[i], "error") && Unwrap(canon[i]) == canon[i] {
      CanonItemsAt(opts, items, i);
      CanonNotWrapper(opts, items[i]);
    }
    assert UnwrapAll(canon) == canon;
    assert FirstError(canon) == None;
  }

  /** The members of a plain object, in loop order, meet the conditions of `PlainFields`. */
  lemma PlainObjectMembers(opts: Options, ref: nat, fields: seq<(string, JsValue)>, depth: nat)
    requires PlainData(JObject(ref, fields)) && TreeShaped(JObject(ref, fields)) && Fits(opts, JObject(ref, fields), depth)
    ensures var ordered := OrderKeys(opts, JsKeys(fields));
      && (forall k :: k in ordered ==> k in JsKeys(fields))
      && |ordered| == |fields|
      && AllGood(opts, fields, ordered, depth)
      && Separate(fields, ordered)
      && FreshKeys(ordered, Keys([]))
  {
    var keys := JsKeys(fields);
    var ordered := OrderKeys(opts, keys);
    assert Sorting.Distinct(keys);
    OrderedKeysPermute(opts, fields);
    assert |ordered| == |fields| by {
      assert |multiset(ordered)| == |multiset(keys)|;
    }
    if opts.sortKeys {
      Sorting.DistinctPermutation(keys, ordered);
    }
    ChildrenGood(opts, ref, fields, ordered, depth);
    ChildrenSeparate(ref, fields, ordered);
    FreshFrom(ordered, []);
  }

  /** Every member named in `ordered` of a plain, tree-shaped, fitting object is itself so. */
  lemma ChildrenGood(opts: Options, ref: nat, fields: seq<(string, JsValue)>, ordered: seq<string>, depth: nat)
    requires PlainData(JObject(ref, fields)) && TreeShaped(JObject(ref, fields)) && Fits(opts, JObject(ref, fields), depth)
    requires forall k :: k in ordered ==> k in JsKeys(fields)
    ensures AllGood(opts, fields, ordered, depth)
  {
    forall a | 0 <= a < |ordered| ensures Good(opts, Child(fields, ordered[a]), depth + 1) {
      var i := KeyIndex(fields, ordered[a]);
      assert fields[i] in fields;
    }
    AllGoodFrom(opts, fields, ordered, depth);
  }

  /** Distinct member names of a tree-shaped object name members that share no object. */
  lemma ChildrenSeparate(ref: nat, fields: seq<(string, JsValue)>, ordered: seq<string>)
    requires TreeShaped(JObject(ref, fields)) && Sorting.Distinct(ordered)
    requires forall k :: k in ordered ==> k in JsKeys(fields)
    ensures Separate(fields, ordered)
  {
    forall a, b | 0 <= a < b < |ordered|
      ensures ObjRefs(Child(fields, ordered[a])) !! ObjRefs(Child(fields, ordered[b]))
    {
      var i1, i2 := KeyIndex(fields, ordered[a]), KeyIndex(fields, ordered[b]);
      assert ordered[a] != ordered[b];
      MembersDisjoint(ref, fields, i1, i2);
    }
    SeparateFrom(fields, ordered);
  }

  /** Two members of a tree-shaped object share no object. */
  lemma MembersDisjoint(ref: nat, fields: seq<(string, JsValue)>, i: nat, j: nat)
    requires TreeShaped(JObject(ref, fields)) && i < |fields| && j < |fields| && i != j
    ensures ObjRefs(fields[i].1) !! ObjRefs(fields[j].1)
  {
    if i > j {
      assert ObjRefs(fields[j].1) !! ObjRefs(fields[i].1);
    }
  }

  /** The objects and key counts of a plain object do not depend on the loop order. */
  lemma PlainObjectTotals(opts: Options, ref: nat, fields: seq<(string, JsValue)>, st: State)
    requires PlainData(JObject(ref, fields)) && TreeShaped(JObject(ref, fields))
    requires ObjRefs(JObject(ref, fields)) !! st.visited
    ensures forall k :: k in OrderKeys(opts, JsKeys(fields)) ==> k in JsKeys(fields)
    ensures KeysRefs(fields, OrderKeys(opts, JsKeys(fields))) == KeysRefs(fields, JsKeys(fields))
    ensures KeysRefs(fields, OrderKeys(opts, JsKeys(fields))) !! st.visited + {ref}
    ensures st.visited + {ref} + KeysRefs(fields, OrderKeys(opts, JsKeys(fields)))
      == st.visited + ObjRefs(JObject(ref, fields))
    ensures |JsKeys(fields)| + KeysTotal(fields, OrderKeys(opts, JsKeys(fields))) == KeyTotal(JObject(ref, fields))
  {
    OrderedKeysPermute(opts, fields);
    PlainObjectRefs(opts, ref, fields, st);
    KeysTotalOrderFree(fields, JsKeys(fields), OrderKeys(opts, JsKeys(fields)));
  }

  /** The loop order is a permutation of the object's own keys. */
  lemma OrderedKeysPermute(opts: Options, fields: seq<(string, JsValue)>)
    requires JsDistinctKeys(fields)
    ensures multiset(OrderKeys(opts, JsKeys(fields))) == multiset(JsKeys(fields))
    ensures forall k :: k in OrderKeys(opts, JsKeys(fields)) <==> k in JsKeys(fields)
  {
    var keys := JsKeys(fields);
    var ordered := OrderKeys(opts, keys);
    assert Sorting.Distinct(keys);
    if opts.sortKeys {
      Sorting.DistinctPermutation(keys, ordered);
    }
    forall k ensures k in ordered <==> k in keys {
      assert k in ordered <==> k in multiset(ordered);
      assert k in keys <==> k in multiset(keys);
    }
  }

  lemma PlainObjectRefs(opts: Options, ref: nat, fields: seq<(string, JsValue)>, st: State)
    requires PlainData(JObject(ref, fields)) && TreeShaped(JObject(ref, fields))
    requires ObjRefs(JObject(ref, fields)) !! st.visited
    requires forall k :: k in OrderKeys(opts, JsKeys(fields)) <==> k in JsKeys(fields)
    ensures KeysRefs(fields, OrderKeys(opts, JsKeys(fields))) == KeysRefs(fields, JsKeys(fields))
    ensures KeysRefs(fields, OrderKeys(opts, JsKeys(fields))) !! st.visited + {ref}
    ensures st.visited + {ref} + KeysRefs(fields, OrderKeys(opts, JsKeys(fields)))
      == st.visited + ObjRefs(JObject(ref, fields))
  {
    KeysRefsOrderFree(fields, JsKeys(fields), OrderKeys(opts, JsKeys(fields)));
  }

  lemma {:induction false} PlainObject(opts: Options, ref: nat, fields: seq<(string, JsValue)>, path: string,
                                       depth: nat, st: State)
    requires PlainData(JObject(ref, fields)) && TreeShaped(JObject(ref, fields)) && Fits(opts, JObject(ref, fields), depth)
    requires ObjRefs(JObject(ref, fields)) !! st.visited
    requires st.keyCount + KeyTotal(JObject(ref, fields)) <= opts.maxKeys
    ensures NormObject(opts, ref, fields, path, depth, st).0 == Canon(opts, JObject(ref, fields))
    ensures NormObject(opts, ref, fields, path, depth, st).1.visited == st.visited + ObjRefs(JObject(ref, fields))
    ensures NormObject(opts, ref, fields, path, depth, st).1.keyCount == st.keyCount + KeyTotal(JObject(ref, fields))
    decreases fields, |fields| + 1
  {
    var ordered := OrderKeys(opts, JsKeys(fields));
    var st1 := State(st.visited + {ref}, st.keyCount + |JsKeys(fields)|);
    PlainObjectReady(opts, ref, fields, depth, st);
    PlainFields(opts, fields, ordered, path, depth, st1, []);
    PlainObjectAssemble(opts, ref, fields, path, depth, st);
  }

  /** Everything the members' walk and the final assembly need of a plain object. */
  lemma PlainObjectReady(opts: Options, ref: nat, fields: seq<(string, JsValue)>, depth: nat, st: State)
    requires PlainData(JObject(ref, fields)) && TreeShaped(JObject(ref, fields)) && Fits(opts, JObject(ref, fields), depth)
    requires ObjRefs(JObject(ref, fields)) !! st.visited
    requires st.keyCount + KeyTotal(JObject(ref, fields)) <= opts.maxKeys
    ensures var ordered := OrderKeys(opts, JsKeys(fields));
      var st1 := State(st.visited + {ref}, st.keyCount + |JsKeys(fields)|);
      && (forall k :: k in ordered ==> k in JsKeys(fields))
      && |ordered| <= |fields|
      && AllGood(opts, fields, ordered, depth)
      && Separate(fields, ordered)
      && KeysRefs(fields, ordered) !! st1.visited
      && st1.keyCount + KeysTotal(fields, ordered) <= opts.maxKeys
      && FreshKeys(ordered, Keys([]))
      && ref !in st.visited
      && st.keyCount + |JsKeys(fields)| <= opts.maxKeys
      && st.visited + {ref} + KeysRefs(fields, ordered) == st.visited + ObjRefs(JObject(ref, fields))
      && |JsKeys(fields)| + KeysTotal(fields, ordered) == KeyTotal(JObject(ref, fields))
  {
    PlainObjectMembers(opts, ref, fields, depth);
    PlainObjectTotals(opts, ref, fields, st);
    assert ref in ObjRefs(JObject(ref, fields));
  }

  /** The object's result is its members' result, which the members' walk supplies. */
  lemma PlainObjectAssemble(opts: Options, ref: nat, fields: seq<(string, JsValue)>, path: string, depth: nat, st: State)
    requires ref !in st.visited
    requires st.keyCount + |JsKeys(fields)| <= opts.maxKeys
    requires forall k :: k in OrderKeys(opts, JsKeys(fields)) ==> k in JsKeys(fields)
    requires var ordered := OrderKeys(opts, JsKeys(fields));
      var r := NormFields(opts, fields, ordered, path, depth, State(st.visited + {ref}, st.keyCount + |JsKeys(fields)|), []);
      && r.0 == Obj([] + CanonMembers(opts, fields, ordered))
      && r.1.visited == st.visited + {ref} + KeysRefs(fields, ordered)
      && r.1.keyCount == st.keyCount + |JsKeys(fields)| + KeysTotal(fields, ordered)
    requires st.visited + {ref} + KeysRefs(fields, OrderKeys(opts, JsKeys(fields)))
      == st.visited + ObjRefs(JObject(ref, fields))
    requires |JsKeys(fields)| + KeysTotal(fields, OrderKeys(opts, JsKeys(fields))) == KeyTotal(JObject(ref, fields))
    ensures NormObject(opts, ref, fields, path, depth, st).0 == Canon(opts, JObject(ref, fields))
    ensures NormObject(opts, ref, fields, path, depth, st).1.visited == st.visited + ObjRefs(JObject(ref, fields))
    ensures NormObject(opts, ref, fields, path, depth, st).1.keyCount == st.keyCount + KeyTotal(JObject(ref, fields))
  {
    var ordered := OrderKeys(opts, JsKeys(fields));
    ObjectWithinBudget(opts, ref, fields, path, depth, st);
    assert [] + CanonMembers(opts, fields, ordered) == CanonMembers(opts, fields, ordered);
    assert Canon(opts, JObject(ref, fields)) == Obj(CanonMembers(opts, fields, ordered));
  }

  /** A fresh object whose keys fit the budget is walked member by member in loop order. */
  lemma ObjectWithinBudget(opts: Options, ref: nat, fields: seq<(string, JsValue)>, path: string, depth: nat, st: State)
    requires ref !in st.visited
    requires st.keyCount + |JsKeys(fields)| <= opts.maxKeys
    ensures var r := NormFields(opts, fields, OrderKeys(opts, JsKeys(fields)), path, depth,
                                State(st.visited + {ref}, st.keyCount + |JsKeys(fields)|), []);
      && NormObject(opts, ref, fields, path, depth, st).0 == r.0
      && NormObject(opts, ref, fields, path, depth, st).1.visited == r.1.visited
      && NormObject(opts, ref, fields, path, depth, st).1.keyCount == r.1.keyCount
  {
  }

  lemma CanonItemsAt(opts: Options, items: seq<JsValue>, i: nat)
    requires i < |items|
    ensures CanonItems(opts, items)[i] == Canon(opts, items[i])
  {
    if i > 0 {
      CanonItemsAt(opts, items[1..], i - 1);
    }
  }

  lemma {:induction false} CanonMembersAt(opts: Options, fields: seq<(string, JsValue)>, keys: seq<string>, i: nat)
    requires forall k :: k in keys ==> k in JsKeys(fields)
    requires i < |keys|
    ensures CanonMembers(opts, fields, keys)[i].1 == Canon(opts, Child(fields, keys[i]))
    decreases i
  {
    if i > 0 {
      assert forall k' :: k' in keys[1..] ==> k' in keys;
      CanonMembersAt(opts, fields, keys[1..], i - 1);
    }
  }

  /** The canonical form of plain data has distinct keys in every object. */
  lemma {:induction false} CanonWellKeyed(opts: Options, v: JsValue)
    requires PlainData(v)
    ensures WellKeyed(Canon(opts, v))
    decreases v
  {
    match v
    case JArray(_, items) =>
      var r := CanonItems(opts, items);
      forall i | 0 <= i < |items| ensures WellKeyed(r[i]) {
        CanonItemsAt(opts, items, i);
        CanonWellKeyed(opts, items[i]);
      }
    case JObject(ref, fields) =>
      var keys := OrderKeys(opts, JsKeys(fields));
      var r := CanonMembers(opts, fields, keys);
      OrderedKeysPermute(opts, fields);
      assert Sorting.Distinct(JsKeys(fields));
      Sorting.DistinctPermutation(JsKeys(fields), keys);
      assert DistinctKeys(r) by {
        forall i, j | 0 <= i < j < |r| ensures r[i].0 != r[j].0 {
          assert r[i].0 == keys[i] && r[j].0 == keys[j];
        }
      }
      forall i | 0 <= i < |r| ensures WellKeyed(r[i].1) {
        CanonMembersAt(opts, fields, keys, i);
        var m := KeyIndex(fields, keys[i]);
        assert fields[m] in fields && fields[m].1 < fields[m];
        CanonWellKeyed(opts, fields[m].1);
      }
    case _ =>
  }

  /**
   * For plain data within the limits, neither mode reports an error and the
   * value is the canonical form.
   */
  lemma PlainNormalizeResult(opts: Options, v: JsValue)
    requires PlainData(v) && TreeShaped(v) && Fits(opts, v, 0)
    requires KeyTotal(v) <= opts.maxKeys
    ensures Normalize(opts, v) == NormalizeResult(Some(Canon(opts, v)), None)
  {
    PlainNormalizes(opts, v, "<root>", 0, State({}, 0));
    CanonNotWrapper(opts, v);
  }

  // ---------------------------------------------------------------------------
  // Member order does not matter
  // ---------------------------------------------------------------------------

  /**
   * The same data written with its members in another order, at every depth:
   * arrays item by item, objects with the same keys, each key holding the
   * same data up to order. Object identities may differ.
   */
  predicate SameUpToOrder(v: JsValue, w: JsValue)
    decreases v
  {
    match v
    case JArray(_, items) =>
      && w.JArray? && |w.items| == |items|
      && forall i :: 0 <= i < |items| ==> SameUpToOrder(items[i], w.items[i])
    case JObject(_, fields) =>
      && w.JObject? && multiset(JsKeys(fields)) == multiset(JsKeys(w.fields))
      && forall i :: 0 <= i < |fields| ==>
        fields[i].0 in JsKeys(w.fields) && SameUpToOrder(fields[i].1, Child(w.fields, fields[i].0))
    case _ => v == w
  }

  /**
   * With `sortKeys`, the canonical form does not depend on the order in
   * which the members of any object were written.
   */
  lemma {:induction false} CanonOrderFree(opts: Options, v: JsValue, w: JsValue)
    requires opts.sortKeys && SameUpToOrder(v, w)
    ensures Canon(opts, v) == Canon(opts, w)
    decreases v, 2
  {
    match v
    case JArray(ref, items) => ArrayOrderFree(opts, ref, items, w);
    case JObject(ref, fields) => ObjectOrderFree(opts, ref, fields, w);
    case _ =>
  }

  lemma {:induction false} ArrayOrderFree(opts: Options, ref: nat, items: seq<JsValue>, w: JsValue)
    requires opts.sortKeys && SameUpToOrder(JArray(ref, items), w)
    ensures Canon(opts, JArray(ref, items)) == Canon(opts, w)
    decreases items, 1
  {
    var others := w.items;
    ItemsOrderFree(opts, items, others);
    assert Canon(opts, w) == Arr(CanonItems(opts, others));
  }

  lemma {:induction false} ObjectOrderFree(opts: Options, ref: nat, fields: seq<(string, JsValue)>, w: JsValue)
    requires opts.sortKeys && SameUpToOrder(JObject(ref, fields), w)
    ensures Canon(opts, JObject(ref, fields)) == Canon(opts, w)
    decreases fields, 1
  {
    SameObject(ref, fields, w);
    var others := w.fields;
    MembersOrderFree(opts, fields, others);
    CanonObject(opts, w);
  }

  lemma SameObject(ref: nat, fields: seq<(string, JsValue)>, w: JsValue)
    requires SameUpToOrder(JObject(ref, fields), w)
    ensures w.JObject? && multiset(JsKeys(fields)) == multiset(JsKeys(w.fields))
    ensures forall i :: 0 <= i < |fields| ==>
      fields[i].0 in JsKeys(w.fields) && SameUpToOrder(fields[i].1, Child(w.fields, fields[i].0))
  {
  }

  lemma CanonObject(opts: Options, w: JsValue)
    requires w.JObject?
    ensures Canon(opts, w) == Obj(CanonMembers(opts, w.fields, OrderKeys(opts, JsKeys(w.fields))))
  {
  }

  lemma {:induction false} ItemsOrderFree(opts: Options, items: seq<JsValue>, others: seq<JsValue>)
    requires opts.sortKeys && |others| == |items|
    requires forall i :: 0 <= i < |items| ==> SameUpToOrder(items[i], others[i])
    ensures CanonItems(opts, items) == CanonItems(opts, others)
    decreases items, 0
  {
    var a, b := CanonItems(opts, items), CanonItems(opts, others);
    forall i | 0 <= i < |items| ensures a[i] == b[i] {
      CanonItemsAt(opts, items, i);
      CanonItemsAt(opts, others, i);
      CanonOrderFree(opts, items[i], others[i]);
    }
  }

  lemma {:induction false} MembersOrderFree(opts: Options, fields: seq<(string, JsValue)>, others: seq<(string, JsValue)>)
    requires opts.sortKeys && multiset(JsKeys(fields)) == multiset(JsKeys(others))
    requires forall i :: 0 <= i < |fields| ==>
      fields[i].0 in JsKeys(others) && SameUpToOrder(fields[i].1, Child(others, fields[i].0))
    ensures CanonMembers(opts, fields, OrderKeys(opts, JsKeys(fields)))
      == CanonMembers(opts, others, OrderKeys(opts, JsKeys(others)))
    decreases fields, 0
  {
    StringSort.SortStringsOrderFree(JsKeys(fields), JsKeys(others));
    var keys := OrderKeys(opts, JsKeys(fields));
    assert keys == OrderKeys(opts, JsKeys(others));
    var a, b := CanonMembers(opts, fields, keys), CanonMembers(opts, others, keys);
    forall i | 0 <= i < |keys| ensures a[i] == b[i] {
      CanonMembersAt(opts, fields, keys, i);
      CanonMembersAt(opts, others, keys, i);
      var m := KeyIndex(fields, keys[i]);
      assert fields[m] in fields && fields[m].1 < fields[m];
      CanonOrderFree(opts, fields[m].1, Child(others, keys[i]));
    }
  }

  // ---------------------------------------------------------------------------
  // Wrappers confused with data
  // ---------------------------------------------------------------------------

  /** A nested data object with a "value" key collapses to that field. */
  lemma DataValueKeyCollapses(opts: Options)
    requires opts.maxDepth >= 2 && opts.maxKeys >= 2
    ensures
      var inner := JObject(2, [("value", JNum(5))]);
      Normalize(opts, JObject(1, [("a", inner)])) == NormalizeResult(Some(Obj([("a", Num(5))])), None)
  {
    var inner := JObject(2, [("value", JNum(5))]);
    var outer := JObject(1, [("a", inner)]);
    var st2 := State({1, 2}, 2);
    DataValueInner(opts);
    assert Unwrap(Obj([("value", Num(5))])) == Num(5);
    assert JsKeys([("a", inner)]) == ["a"];
    assert OrderKeys(opts, ["a"]) == ["a"];
    assert NormFields(opts, [("a", inner)], [], "<root>", 0, st2, [("a", Num(5))]) == (Obj([("a", Num(5))]), st2);
    assert NormFields(opts, [("a", inner)], ["a"], "<root>", 0, State({1}, 1), []) == (Obj([("a", Num(5))]), st2);
    assert State({}, 0).visited + {1} == {1};
    assert NormObject(opts, 1, [("a", inner)], "<root>", 0, State({}, 0)) == (Obj([("a", Num(5))]), st2);
    assert NormValue(opts, outer, "<root>", 0, State({}, 0)).0 == Obj([("a", Num(5))]);
    assert !HasKey(Obj([("a", Num(5))]), "error");
  }

  /** The inner object `{value: 5}` normalises to itself, one level down. */
  lemma DataValueInner(opts: Options)
    requires opts.maxDepth >= 2 && opts.maxKeys >= 2
    ensures NormValue(opts, JObject(2, [("value", JNum(5))]), MemberPath("<root>", "a"), 1, State({1}, 1))
      == (Obj([("value", Num(5))]), State({1, 2}, 2))
  {
    var inner := JObject(2, [("value", JNum(5))]);
    assert JsKeys([("value", JNum(5))]) == ["value"];
    assert OrderKeys(opts, ["value"]) == ["value"];
    var path := MemberPath("<root>", "a");
    var st2 := State({1, 2}, 2);
    assert NormValue(opts, JNum(5), MemberPath(path, "value"), 2, st2) == (Num(5), st2);
    assert NormFields(opts, [("value", JNum(5))], [], path, 1, st2, [("value", Num(5))])
      == (Obj([("value", Num(5))]), st2);
    assert NormFields(opts, [("value", JNum(5))], ["value"], path, 1, st2, []) == (Obj([("value", Num(5))]), st2);
    assert State({1}, 1).visited + {2} == {1, 2};
    assert NormObject(opts, 2, [("value", JNum(5))], path, 1, State({1}, 1)) == (Obj([("value", Num(5))]), st2);
  }

  /**
   * A root data object whose member is named "error" is taken for the
   * in-band error wrapper: lenient mode reads its absent "value" member and
   * returns `undefined`; strict mode reports the member's value as the error.
   */
  lemma RootErrorKeyMisread(opts: Options, ref: nat, x: JsValue)
    requires PlainData(x) && TreeShaped(x) && Fits(opts, x, 1)
    requires ref !in ObjRefs(x) && 1 + KeyTotal(x) <= opts.maxKeys
    ensures !opts.strict ==> Normalize(opts, JObject(ref, [("error", x)])) == NormalizeResult(None, None)
    ensures opts.strict ==>
      Normalize(opts, JObject(ref, [("error", x)])) == NormalizeResult(Some(Null), Some(Canon(opts, x)))
  {
    var o := Obj([("error", Canon(opts, x))]);
    RootErrorObject(opts, ref, x);
    assert Keys(o.fields) == ["error"];
    assert Get(o, "error") == Some(Canon(opts, x));
    assert Get(o, "value") == None by {
      assert Lookup(o.fields, "value") == Lookup([], "value");
    }
  }

  /** The root walk keeps the "error" member as it keeps any plain member. */
  lemma RootErrorObject(opts: Options, ref: nat, x: JsValue)
    requires PlainData(x) && TreeShaped(x) && Fits(opts, x, 1)
    requires ref !in ObjRefs(x) && 1 + KeyTotal(x) <= opts.maxKeys
    ensures NormValue(opts, JObject(ref, [("error", x)]), "<root>", 0, State({}, 0)).0
      == Obj([("error", Canon(opts, x))])
  {
    var fields := [("error", x)];
    assert JsKeys(fields) == ["error"];
    SingleKeyOrdered(opts, "error");
    assert {} + {ref} == {ref};
    RootErrorFields(opts, ref, x);
    assert NormObject(opts, ref, fields, "<root>", 0, State({}, 0)).0
      == NormFields(opts, fields, ["error"], "<root>", 0, State({ref}, 1), []).0;
  }

  /** A single key is its own order, sorted or not. */
  lemma SingleKeyOrdered(opts: Options, k: string)
    ensures OrderKeys(opts, [k]) == [k]
  {
    var ordered := OrderKeys(opts, [k]);
    assert ordered[0] in ordered;
  }

  /** The member loop over the one "error" member stores its canonical value. */
  lemma RootErrorFields(opts: Options, ref: nat, x: JsValue)
    requires PlainData(x) && TreeShaped(x) && Fits(opts, x, 1)
    requires ref !in ObjRefs(x) && 1 + KeyTotal(x) <= opts.maxKeys
    requires JsKeys([("error", x)]) == ["error"]
    ensures NormFields(opts, [("error", x)], ["error"], "<root>", 0, State({ref}, 1), []).0
      == Obj([("error", Canon(opts, x))])
  {
    var fields := [("error", x)];
    var cx := Canon(opts, x);
    var st1 := State({ref}, 1);
    PlainNormalizes(opts, x, MemberPath("<root>", "error"), 1, st1);
    CanonNotWrapper(opts, x);
    var st2 := State({ref} + ObjRefs(x), 1 + KeyTotal(x));
    assert Assign([], "error", cx) == [("error", cx)];
    assert NormFields(opts, fields, [], "<root>", 0, st2, [("error", cx)]) == (Obj([("error", cx)]), st2);
  }
}
