/**
 * The shape layer of `encodeJson`: `analyzeArrays` walks the normalised
 * value, and for each array of at least ten objects whose shapes are at
 * least 80% uniform it pools the most common shape, turns the objects of
 * that shape into rows, and, when forced or when the estimated savings beat
 * the dictionary's size, records the rows under the array's path.
 *
 * The walk is specified by the function `Analyze` over a `ShapeState` (the
 * pool's entries, the table of encoded arrays, and the decision), and the
 * class `ShapeAnalysis` holds the variables the source's closure updates.
 */
module EncodeShapes {
  import opened Wrappers
  import opened Json
  import opened Ratios
  import Pool
  import Shapes
  import Strings
  import EncodePaths

  /** The `{ shapeId, rows }` stored for an encoded array. */
  datatype Encoded = Encoded(shapeId: string, rows: seq<seq<Json>>)

  /** `shapePoolDecision`; `arrayName` is "" while it is undefined. */
  datatype ShapeDecision = ShapeDecision(enabled: bool, arrayName: string, n: nat, uniformity: Ratio, savings: int)

  const NoDecision := ShapeDecision(false, "", 0, Ratio(0, 1), 0)

  /** What the walk updates: the pool, `shapeEncodedArrays`, `shouldUseShapePool` and the decision. */
  datatype ShapeState = ShapeState(entries: seq<Pool.Entry>, table: map<string, Encoded>, used: bool, decision: ShapeDecision)

  const Initial := ShapeState([], map[], false, NoDecision)

  // ---------------------------------------------------------------------------
  // Objects, shapes and the most common shape of one array
  // ---------------------------------------------------------------------------

  /** `value.filter(isPlainObject)`: the members of the object items, in order. */
  function PlainObjects(items: seq<Json>): (r: seq<Fields>)
    ensures |r| <= |items|
  {
    if items == [] then []
    else
      var last := items[|items| - 1];
      PlainObjects(items[..|items| - 1]) + (if last.Obj? then [last.fields] else [])
  }

  /** `objects.map(deriveShape)`. */
  function ShapesOf(objects: seq<Fields>): (r: seq<seq<string>>)
    ensures |r| == |objects|
    ensures forall i :: 0 <= i < |objects| ==> r[i] == Shapes.DeriveShape(objects[i])
  {
    seq(|objects|, i requires 0 <= i < |objects| => Shapes.DeriveShape(objects[i]))
  }

  /** The first position from `from` whose key occurs `m` times, or `|keys|`. */
  function FirstReaching(keys: seq<string>, m: nat, from: nat): (r: nat)
    requires from <= |keys|
    ensures from <= r <= |keys|
    ensures r < |keys| ==> Shapes.Occurrences(keys, keys[r]) == m
    ensures forall j :: from <= j < r ==> Shapes.Occurrences(keys, keys[j]) != m
    decreases |keys| - from
  {
    if from == |keys| then from
    else if Shapes.Occurrences(keys, keys[from]) == m then from
    else FirstReaching(keys, m, from + 1)
  }

  /** The shape with the largest count; among equals, the one seen first. */
  function MostCommon(shapes: seq<seq<string>>): seq<string>
    requires shapes != []
  {
    var keys := Shapes.ShapeKeys(shapes);
    var m := Shapes.MostCommonCount(shapes);
    var i := FirstReaching(keys, m, 0);
    if i < |shapes| then shapes[i] else shapes[0]
  }

  /**
   * `MostCommon` occurs `MostCommonCount` times, no shape occurs more often,
   * and every shape that occurs as often appears no earlier than it.
   */
  lemma MostCommonIsMostCommon(shapes: seq<seq<string>>)
    requires shapes != []
    ensures var keys := Shapes.ShapeKeys(shapes);
      && MostCommon(shapes) in shapes
      && Shapes.Occurrences(keys, Shapes.ShapeKey(MostCommon(shapes))) == Shapes.MostCommonCount(shapes)
      && (forall j :: 0 <= j < |shapes| ==> Shapes.Occurrences(keys, keys[j]) <= Shapes.MostCommonCount(shapes))
      && (forall j :: 0 <= j < |shapes| && Shapes.Occurrences(keys, keys[j]) == Shapes.MostCommonCount(shapes) ==>
            exists i :: 0 <= i <= j && shapes[i] == MostCommon(shapes))
  {
    var keys := Shapes.ShapeKeys(shapes);
    var m := Shapes.MostCommonCount(shapes);
    var i := FirstReaching(keys, m, 0);
    assert i < |shapes| by {
      var q :| 0 <= q < |keys| && m == Shapes.Occurrences(keys, keys[q]);
    }
    Shapes.ShapeKeysAt(shapes, i);
    forall j | 0 <= j < |shapes| && Shapes.Occurrences(keys, keys[j]) == m
      ensures exists i' :: 0 <= i' <= j && shapes[i'] == MostCommon(shapes)
    {
      assert i <= j;
    }
  }

  /** Two different keys occur together at most `|keys|` times. */
  lemma {:induction false} OccurrencesDisjoint(keys: seq<string>, x: string, y: string)
    requires x != y
    ensures Shapes.Occurrences(keys, x) + Shapes.Occurrences(keys, y) <= |keys|
    decreases |keys|
  {
    if keys != [] {
      OccurrencesDisjoint(keys[..|keys| - 1], x, y);
    }
  }

  /** A shape occurring more than half the time is the most common one. */
  lemma MajorityUnique(shapes: seq<seq<string>>, a: seq<string>)
    requires shapes != []
    requires 2 * Shapes.MostCommonCount(shapes) > |shapes|
    requires Shapes.Occurrences(Shapes.ShapeKeys(shapes), Shapes.ShapeKey(a)) == Shapes.MostCommonCount(shapes)
    ensures a == MostCommon(shapes)
  {
    var keys := Shapes.ShapeKeys(shapes);
    var b := MostCommon(shapes);
    MostCommonIsMostCommon(shapes);
    if Shapes.ShapeKey(a) != Shapes.ShapeKey(b) {
      OccurrencesDisjoint(keys, Shapes.ShapeKey(a), Shapes.ShapeKey(b));
      assert false;
    }
    Shapes.ShapeKeyInjective(a, b);
  }

  /**
   * The two loops that pick `mostCommon`: count each shape key in a map kept
   * in insertion order, then, starting from the first shape with count 1,
   * take every later entry whose count is strictly larger. After the
   * uniformity gate the most common shape is a strict majority, so the scan
   * finds `MostCommon`.
   */
  method MostCommonShape(shapes: seq<seq<string>>) returns (shape: seq<string>)
    requires shapes != []
    requires 2 * Shapes.MostCommonCount(shapes) > |shapes|
    ensures shape == MostCommon(shapes)
  {
    var keys := Shapes.ShapeKeys(shapes);
    var counts, shapeOf, order := CountShapes(shapes);
    shape := ScanCounts(shapes, counts, shapeOf, order);
    MajorityUnique(shapes, shape);
  }

  /** The counting loop: each key's count, a shape for each key, and the keys in insertion order. */
  method CountShapes(shapes: seq<seq<string>>) returns (counts: map<string, nat>, shapeOf: map<string, seq<string>>, order: seq<string>)
    requires shapes != []
    ensures Shapes.Counted(Shapes.ShapeKeys(shapes), |shapes|, counts, order)
    ensures forall k :: k in shapeOf <==> k in counts
    ensures forall k :: k in shapeOf ==> Shapes.ShapeKey(shapeOf[k]) == k
    ensures order != [] && order[0] == Shapes.ShapeKey(shapes[0])
  {
    var keys := Shapes.ShapeKeys(shapes);
    counts, shapeOf, order := map[], map[], [];
    var i := 0;
    while i < |shapes|
      invariant 0 <= i <= |shapes|
      invariant Shapes.Counted(keys, i, counts, order)
      invariant forall k :: k in shapeOf <==> k in counts
      invariant forall k :: k in shapeOf ==> Shapes.ShapeKey(shapeOf[k]) == k
      invariant i == 0 ==> order == [] && counts == map[]
      invariant i > 0 ==> order != [] && order[0] == keys[0]
    {
      var shapeKey := keys[i];
      Shapes.ShapeKeysAt(shapes, i);
      Shapes.CountStep(keys, i, counts, order);
      var count := if shapeKey in counts then counts[shapeKey] else 0;
      order := if shapeKey in counts then order else order + [shapeKey];
      shapeOf := if shapeKey in counts then shapeOf else shapeOf[shapeKey := shapes[i]];
      counts := counts[shapeKey := count + 1];
      i := i + 1;
    }
    Shapes.ShapeKeysAt(shapes, 0);
  }

  /**
   * The scan over the map's entries: start from the first shape with count 1
   * and take each entry whose count is strictly larger. The shape found has
   * the largest count.
   */
  method ScanCounts(shapes: seq<seq<string>>, counts: map<string, nat>, shapeOf: map<string, seq<string>>, order: seq<string>)
    returns (shape: seq<string>)
    requires shapes != []
    requires Shapes.Counted(Shapes.ShapeKeys(shapes), |shapes|, counts, order)
    requires forall k :: k in shapeOf <==> k in counts
    requires forall k :: k in shapeOf ==> Shapes.ShapeKey(shapeOf[k]) == k
    requires order != [] && order[0] == Shapes.ShapeKey(shapes[0])
    ensures Shapes.Occurrences(Shapes.ShapeKeys(shapes), Shapes.ShapeKey(shape)) == Shapes.MostCommonCount(shapes)
  {
    ghost var keys := Shapes.ShapeKeys(shapes);
    assert keys[..|shapes|] == keys;
    assert counts[order[0]] >= 1 by { Shapes.ShapeKeysAt(shapes, 0); assert keys[0] in keys; }
    shape := shapes[0];
    var best: nat := 1;
    var t := 0;
    while t < |order|
      invariant 0 <= t <= |order|
      invariant Shapes.ShapeKey(shape) in counts
      invariant forall u :: 0 <= u < t ==> counts[order[u]] <= best
      invariant t == 0 ==> shape == shapes[0] && best == 1
      invariant t > 0 ==> counts[Shapes.ShapeKey(shape)] == best
    {
      if counts[order[t]] > best {
        shape := shapeOf[order[t]];
        best := counts[order[t]];
      }
      t := t + 1;
    }
    var u :| 0 <= u < |order| && order[u] == Shapes.ShapeKey(shape);
    Shapes.LargestCount(keys, counts, order, best);
  }

  // ---------------------------------------------------------------------------
  // Rows
  // ---------------------------------------------------------------------------

  /** `obj[key]`, where a missing member reads as `undefined` and is written as `null`. */
  function Member(fields: Fields, key: string): Json
  {
    match Lookup(fields, key)
    case Some(v) => v
    case None => Null
  }

  /** `mostCommon.shape.map((key) => obj[key])`. */
  function RowOf(fields: Fields, shape: seq<string>): (r: seq<Json>)
    ensures |r| == |shape|
  {
    seq(|shape|, k requires 0 <= k < |shape| => Member(fields, shape[k]))
  }

  /** The rows of the objects whose shape is `shape`, in order. */
  function Rows(objects: seq<Fields>, shape: seq<string>): seq<seq<Json>>
  {
    if objects == [] then []
    else
      var last := objects[|objects| - 1];
      Rows(objects[..|objects| - 1], shape)
        + (if Shapes.DeriveShape(last) == shape then [RowOf(last, shape)] else [])
  }

  /**
   * A row of an object of the shape holds, at each position, the object's
   * own value for the key the shape has there, and it has one entry per
   * member.
   */
  lemma RowOfShape(fields: Fields, shape: seq<string>)
    requires Shapes.DeriveShape(fields) == shape
    ensures |RowOf(fields, shape)| == |fields|
    ensures forall k :: 0 <= k < |shape| ==> Lookup(fields, shape[k]) == Some(RowOf(fields, shape)[k])
  {
    assert multiset(shape) == multiset(Keys(fields));
    assert |shape| == |multiset(shape)| == |multiset(Keys(fields))| == |fields|;
    forall k | 0 <= k < |shape| ensures Lookup(fields, shape[k]) == Some(RowOf(fields, shape)[k]) {
      assert shape[k] in multiset(Keys(fields));
    }
  }

  lemma ShapeKeysPrefix(shapes: seq<seq<string>>, n: nat)
    requires n <= |shapes|
    ensures Shapes.ShapeKeys(shapes[..n]) == Shapes.ShapeKeys(shapes)[..n]
  {
    forall i | 0 <= i < n ensures Shapes.ShapeKeys(shapes[..n])[i] == Shapes.ShapeKeys(shapes)[i] {
      Shapes.ShapeKeysAt(shapes[..n], i);
      Shapes.ShapeKeysAt(shapes, i);
    }
  }

  /** Counting one more shape adds one exactly when it is the shape counted. */
  lemma ShapeKeysSnoc(shapes: seq<seq<string>>, n: nat, shape: seq<string>)
    requires n < |shapes|
    ensures Shapes.Occurrences(Shapes.ShapeKeys(shapes[..n + 1]), Shapes.ShapeKey(shape))
      == Shapes.Occurrences(Shapes.ShapeKeys(shapes[..n]), Shapes.ShapeKey(shape)) + (if shapes[n] == shape then 1 else 0)
  {
    var keys := Shapes.ShapeKeys(shapes[..n + 1]);
    ShapeKeysPrefix(shapes[..n + 1], n);
    assert shapes[..n + 1][..n] == shapes[..n];
    Shapes.ShapeKeysAt(shapes[..n + 1], n);
    if keys[n] == Shapes.ShapeKey(shape) {
      Shapes.ShapeKeyInjective(shapes[n], shape);
    }
    assert keys[..n + 1] == keys;
    Shapes.OccurrencesStep(keys, n, Shapes.ShapeKey(shape));
  }

  /** The shapes of a prefix of the objects are a prefix of their shapes. */
  lemma ShapesOfPrefix(objects: seq<Fields>, n: nat)
    requires n <= |objects|
    ensures ShapesOf(objects[..n]) == ShapesOf(objects)[..n]
  {
  }

  /** One row per object of the shape: the count is the shape's number of occurrences. */
  lemma {:induction false} RowsCount(objects: seq<Fields>, shape: seq<string>)
    ensures |Rows(objects, shape)| == Shapes.Occurrences(Shapes.ShapeKeys(ShapesOf(objects)), Shapes.ShapeKey(shape))
    decreases |objects|
  {
    if objects != [] {
      var n := |objects| - 1;
      RowsCount(objects[..n], shape);
      ShapesOfPrefix(objects, n);
      ShapesOfPrefix(objects, n + 1);
      assert objects[..n + 1] == objects;
      ShapeKeysSnoc(ShapesOf(objects), n, shape);
    }
  }

  /** The rows of one more object. */
  lemma RowsSnoc(objects: seq<Fields>, i: nat, shape: seq<string>)
    requires i < |objects|
    ensures Rows(objects[..i + 1], shape) == Rows(objects[..i], shape)
      + (if Shapes.DeriveShape(objects[i]) == shape then [RowOf(objects[i], shape)] else [])
  {
    assert objects[..i + 1][..i] == objects[..i];
  }

  /**
   * The rows loop: each object whose shape has the same JSON text as the
   * most common one becomes a row.
   */
  method CollectRows(objects: seq<Fields>, shape: seq<string>) returns (rows: seq<seq<Json>>)
    ensures rows == Rows(objects, shape)
  {
    rows := [];
    var i := 0;
    while i < |objects|
      invariant 0 <= i <= |objects|
      invariant rows == Rows(objects[..i], shape)
    {
      RowsSnoc(objects, i, shape);
      var objShape := Shapes.DeriveShape(objects[i]);
      if Shapes.ShapeKey(objShape) == Shapes.ShapeKey(shape) {
        Shapes.ShapeKeyInjective(objShape, shape);
        rows := rows + [RowOf(objects[i], shape)];
      } else {
        assert objShape != shape;
      }
      i := i + 1;
    }
    assert objects[..i] == objects;
  }

  // ---------------------------------------------------------------------------
  // The size estimate
  // ---------------------------------------------------------------------------

  function ObjectsJson(objects: seq<Fields>): seq<Json>
  {
    seq(|objects|, i requires 0 <= i < |objects| => Obj(objects[i]))
  }

  function RowsJson(rows: seq<seq<Json>>): seq<Json>
  {
    seq(|rows|, i requires 0 <= i < |rows| => Arr(rows[i]))
  }

  /** `{ $shape: shapeId, rows }`, the form an encoded array takes. */
  function TupleJson(shapeId: string, rows: seq<seq<Json>>): Json
  {
    Obj([("$shape", Str(shapeId)), ("rows", Arr(RowsJson(rows)))])
  }

  /** `{ [shapeId]: mostCommon.shape }`. */
  function ShapeDictJson(shapeId: string, shape: seq<string>): Json
  {
    Obj([(shapeId, Shapes.ShapeJson(shape))])
  }

  /** `originalSize - tupleSize - shapeDictSize`. */
  function ShapeSavings(objects: seq<Fields>, shapeId: string, rows: seq<seq<Json>>, shape: seq<string>): int
  {
    JsonLen(Arr(ObjectsJson(objects))) - JsonLen(TupleJson(shapeId, rows)) - JsonLen(ShapeDictJson(shapeId, shape))
  }

  // ---------------------------------------------------------------------------
  // analyzeArrays, as a function
  // ---------------------------------------------------------------------------

  /** An id `add` hands out is found again. */
  lemma AddedHasId(prefix: char, entries: seq<Pool.Entry>, value: string)
    ensures Pool.IdOf(Pool.Added(prefix, entries, value), value).Some?
  {
    Pool.AddedUnfolds(prefix, entries, value);
    var e := Pool.Added(prefix, entries, value);
    var found := Pool.FindValue(entries, value);
    if found.Some? {
      assert e[found.value].value == value;
    } else {
      assert e[|entries|].value == value;
    }
  }

  /**
   * The arrays `analyzeArrays` converts: the first item is an object, at least
   * ten items are objects, and their shapes are at least 80% uniform.
   */
  predicate Eligible(items: seq<Json>)
  {
    && |items| > 0 && items[0].Obj?
    && |PlainObjects(items)| >= 10
    && var u := Shapes.Uniformity(ShapesOf(PlainObjects(items)));
       5 * u.num >= 4 * u.den
  }

  /** The pool, table and decision after looking at one array, before its items. */
  function ArrayStep(mode: EncodePaths.Mode, items: seq<Json>, path: string, parentKey: string, st: ShapeState): ShapeState
  {
    if Eligible(items) then EncodeStep(mode, PlainObjects(items), path, parentKey, st) else st
  }

  /** Pool the most common shape of the objects, build its rows, and record them if worthwhile. */
  function EncodeStep(mode: EncodePaths.Mode, objects: seq<Fields>, path: string, parentKey: string, st: ShapeState): ShapeState
    requires objects != []
  {
    var shapes := ShapesOf(objects);
    var mostCommon := MostCommon(shapes);
    var key := Shapes.ShapeKey(mostCommon);
    var entries := Pool.Added('s', st.entries, key);
    AddedHasId('s', st.entries, key);
    var shapeId := Pool.IdOf(entries, key).value;
    Record(mode, objects, mostCommon, shapeId, Rows(objects, mostCommon), path, parentKey, Shapes.Uniformity(shapes),
      st.(entries := entries))
  }

  /** `EncodeStep` is `Record` after the most common shape is pooled under `shapeId`. */
  lemma EncodeStepRecords(mode: EncodePaths.Mode, objects: seq<Fields>, path: string, parentKey: string,
                          st: ShapeState, shapeId: string, entries: seq<Pool.Entry>)
    requires objects != []
    requires entries == Pool.Added('s', st.entries, Shapes.ShapeKey(MostCommon(ShapesOf(objects))))
    requires Pool.IdOf(entries, Shapes.ShapeKey(MostCommon(ShapesOf(objects)))) == Some(shapeId)
    ensures EncodeStep(mode, objects, path, parentKey, st)
      == Record(mode, objects, MostCommon(ShapesOf(objects)), shapeId, Rows(objects, MostCommon(ShapesOf(objects))),
                path, parentKey, Shapes.Uniformity(ShapesOf(objects)), st.(entries := entries))
  {
  }

  /**
   * With `enableShapePool === true`, or in auto mode with ten rows and savings
   * above the dictionary's size, record the rows under `path` and the decision.
   */
  function Record(mode: EncodePaths.Mode, objects: seq<Fields>, shape: seq<string>, shapeId: string,
                  rows: seq<seq<Json>>, path: string, parentKey: string, uniformity: Ratio, st: ShapeState): ShapeState
  {
    if mode.On? || (mode.Auto? && |rows| >= 10) then
      var savings := ShapeSavings(objects, shapeId, rows, shape);
      if mode.On? || savings > JsonLen(ShapeDictJson(shapeId, shape)) then
        ShapeState(st.entries, st.table[path := Encoded(shapeId, rows)], true,
          ShapeDecision(true, if parentKey != "" then parentKey else path, |rows|, uniformity, savings))
      else st
    else st
  }

  /** The path of an array item. */
  function ItemPath(path: string, index: nat): string
  {
    path + "[" + Strings.NatToString(index) + "]"
  }

  /** The path of an object member: the key alone at the root. */
  function MemberPath(path: string, key: string): string
  {
    if path == "<root>" then key else path + "." + key
  }

  /** `analyzeArrays(value, path, parentKey)` as a function of the state before it. */
  function Analyze(mode: EncodePaths.Mode, v: Json, path: string, parentKey: string, st: ShapeState): ShapeState
    decreases v, 1
  {
    match v
    case Arr(items) => AnalyzeItems(mode, items, path, parentKey, ArrayStep(mode, items, path, parentKey, st))
    case Obj(fields) => AnalyzeFields(mode, fields, path, st)
    case _ => st
  }

  function AnalyzeItems(mode: EncodePaths.Mode, items: seq<Json>, path: string, parentKey: string, st: ShapeState): ShapeState
    decreases items, 0
  {
    if items == [] then st
    else
      var n := |items| - 1;
      Analyze(mode, items[n], ItemPath(path, n), parentKey, AnalyzeItems(mode, items[..n], path, parentKey, st))
  }

  function AnalyzeFields(mode: EncodePaths.Mode, fields: Fields, path: string, st: ShapeState): ShapeState
    decreases fields, 0
  {
    if fields == [] then st
    else
      var n := |fields| - 1;
      assert fields[n] in fields && fields[n].1 < fields[n];
      Analyze(mode, fields[n].1, MemberPath(path, fields[n].0), fields[n].0,
        AnalyzeFields(mode, fields[..n], path, st))
  }

  // ---------------------------------------------------------------------------
  // What the walk guarantees
  // ---------------------------------------------------------------------------

  /**
   * The pool is used exactly when some array was encoded; the decision is
   * then enabled and counts at least eight rows, and is untouched otherwise;
   * every encoded array has at least eight rows.
   */
  predicate Consistent(st: ShapeState)
  {
    && (st.used <==> st.table != map[])
    && (st.used <==> st.decision.enabled)
    && (!st.used ==> st.decision == NoDecision)
    && (st.used ==> st.decision.n >= 8)
    && (forall p :: p in st.table ==> |st.table[p].rows| >= 8)
  }

  /** Past the uniformity gate there are at least eight rows, all of the most common shape. */
  lemma GateRows(objects: seq<Fields>)
    requires |objects| >= 10
    requires var u := Shapes.Uniformity(ShapesOf(objects)); 5 * u.num >= 4 * u.den
    ensures |Rows(objects, MostCommon(ShapesOf(objects)))| == Shapes.MostCommonCount(ShapesOf(objects)) >= 8
  {
    var shapes := ShapesOf(objects);
    MostCommonIsMostCommon(shapes);
    RowsCount(objects, MostCommon(shapes));
  }

  lemma RecordConsistent(mode: EncodePaths.Mode, objects: seq<Fields>, shape: seq<string>, shapeId: string,
                          rows: seq<seq<Json>>, path: string, parentKey: string, uniformity: Ratio, st: ShapeState)
    requires Consistent(st) && |rows| >= 8
    ensures Consistent(Record(mode, objects, shape, shapeId, rows, path, parentKey, uniformity, st))
  {
    var r := Record(mode, objects, shape, shapeId, rows, path, parentKey, uniformity, st);
    if r.used && !st.used {
      assert path in r.table;
    }
  }

  lemma ArrayStepConsistent(mode: EncodePaths.Mode, items: seq<Json>, path: string, parentKey: string, st: ShapeState)
    requires Consistent(st)
    ensures Consistent(ArrayStep(mode, items, path, parentKey, st))
  {
    if Eligible(items) {
      var objects := PlainObjects(items);
      var shapes := ShapesOf(objects);
      var mostCommon := MostCommon(shapes);
      var entries := Pool.Added('s', st.entries, Shapes.ShapeKey(mostCommon));
      AddedHasId('s', st.entries, Shapes.ShapeKey(mostCommon));
      GateRows(objects);
      RecordConsistent(mode, objects, mostCommon, Pool.IdOf(entries, Shapes.ShapeKey(mostCommon)).value,
        Rows(objects, mostCommon), path, parentKey, Shapes.Uniformity(shapes), st.(entries := entries));
    }
  }

  lemma {:induction false} AnalyzeConsistent(mode: EncodePaths.Mode, v: Json, path: string, parentKey: string, st: ShapeState)
    requires Consistent(st)
    ensures Consistent(Analyze(mode, v, path, parentKey, st))
    decreases v, 1
  {
    match v
    case Arr(items) =>
      ArrayStepConsistent(mode, items, path, parentKey, st);
      AnalyzeItemsConsistent(mode, items, path, parentKey, ArrayStep(mode, items, path, parentKey, st));
    case Obj(fields) =>
      AnalyzeFieldsConsistent(mode, fields, path, st);
    case _ =>
  }

  lemma {:induction false} AnalyzeItemsConsistent(mode: EncodePaths.Mode, items: seq<Json>, path: string, parentKey: string, st: ShapeState)
    requires Consistent(st)
    ensures Consistent(AnalyzeItems(mode, items, path, parentKey, st))
    decreases items, 0
  {
    if items != [] {
      var n := |items| - 1;
      AnalyzeItemsConsistent(mode, items[..n], path, parentKey, st);
      AnalyzeConsistent(mode, items[n], ItemPath(path, n), parentKey, AnalyzeItems(mode, items[..n], path, parentKey, st));
    }
  }

  lemma {:induction false} AnalyzeFieldsConsistent(mode: EncodePaths.Mode, fields: Fields, path: string, st: ShapeState)
    requires Consistent(st)
    ensures Consistent(AnalyzeFields(mode, fields, path, st))
    decreases fields, 0
  {
    if fields != [] {
      var n := |fields| - 1;
      assert fields[n] in fields && fields[n].1 < fields[n];
      AnalyzeFieldsConsistent(mode, fields[..n], path, st);
      AnalyzeConsistent(mode, fields[n].1, MemberPath(path, fields[n].0), fields[n].0,
        AnalyzeFields(mode, fields[..n], path, st));
    }
  }

  /** The shape pool is well formed and holds nothing but shape keys. */
  ghost predicate PoolOfShapes(st: ShapeState)
  {
    Pool.WellFormed('s', st.entries) && Shapes.AllShapeKeys(st.entries)
  }

  /** Adding the key of a shape keeps a pool of shape keys one. */
  lemma AddedShapeKey(entries: seq<Pool.Entry>, shape: seq<string>)
    requires Pool.WellFormed('s', entries) && Shapes.AllShapeKeys(entries)
    ensures var e := Pool.Added('s', entries, Shapes.ShapeKey(shape));
      Pool.WellFormed('s', e) && Shapes.AllShapeKeys(e)
  {
    var key := Shapes.ShapeKey(shape);
    Pool.AddedKeepsWellFormed('s', entries, key);
    Pool.AddedUnfolds('s', entries, key);
    Shapes.ParseShapeKeyRoundTrip(shape);
  }

  lemma ArrayStepPool(mode: EncodePaths.Mode, items: seq<Json>, path: string, parentKey: string, st: ShapeState)
    requires PoolOfShapes(st)
    ensures PoolOfShapes(ArrayStep(mode, items, path, parentKey, st))
  {
    if Eligible(items) {
      AddedShapeKey(st.entries, MostCommon(ShapesOf(PlainObjects(items))));
    }
  }

  lemma {:induction false} AnalyzePool(mode: EncodePaths.Mode, v: Json, path: string, parentKey: string, st: ShapeState)
    requires PoolOfShapes(st)
    ensures PoolOfShapes(Analyze(mode, v, path, parentKey, st))
    decreases v, 1
  {
    match v
    case Arr(items) =>
      ArrayStepPool(mode, items, path, parentKey, st);
      AnalyzeItemsPool(mode, items, path, parentKey, ArrayStep(mode, items, path, parentKey, st));
    case Obj(fields) =>
      AnalyzeFieldsPool(mode, fields, path, st);
    case _ =>
  }

  lemma {:induction false} AnalyzeItemsPool(mode: EncodePaths.Mode, items: seq<Json>, path: string, parentKey: string, st: ShapeState)
    requires PoolOfShapes(st)
    ensures PoolOfShapes(AnalyzeItems(mode, items, path, parentKey, st))
    decreases items, 0
  {
    if items != [] {
      var n := |items| - 1;
      AnalyzeItemsPool(mode, items[..n], path, parentKey, st);
      AnalyzePool(mode, items[n], ItemPath(path, n), parentKey, AnalyzeItems(mode, items[..n], path, parentKey, st));
    }
  }

  lemma {:induction false} AnalyzeFieldsPool(mode: EncodePaths.Mode, fields: Fields, path: string, st: ShapeState)
    requires PoolOfShapes(st)
    ensures PoolOfShapes(AnalyzeFields(mode, fields, path, st))
    decreases fields, 0
  {
    if fields != [] {
      var n := |fields| - 1;
      assert fields[n] in fields && fields[n].1 < fields[n];
      AnalyzeFieldsPool(mode, fields[..n], path, st);
      AnalyzePool(mode, fields[n].1, MemberPath(path, fields[n].0), fields[n].0,
        AnalyzeFields(mode, fields[..n], path, st));
    }
  }

  // ---------------------------------------------------------------------------
  // analyzeArrays, as the source runs it
  // ---------------------------------------------------------------------------

  /** The variables `analyzeArrays` updates, together with the shape pool. */
  class ShapeAnalysis {
    const mode: EncodePaths.Mode
    const pool: Pool.InternPool
    var table: map<string, Encoded>
    var used: bool
    var decision: ShapeDecision

    ghost predicate Valid()
      reads this, pool
    {
      pool.Valid() && pool.prefix == 's'
    }

    function State(): ShapeState
      reads this, pool
    {
      ShapeState(pool.entries, table, used, decision)
    }

    /** A fresh `ShapePool` and the initial decision. */
    constructor (mode: EncodePaths.Mode)
      ensures Valid() && fresh(pool)
      ensures this.mode == mode && State() == Initial
    {
      this.mode := mode;
      pool := new Pool.InternPool('s');
      table := map[];
      used := false;
      decision := NoDecision;
    }

    /** `analyzeArrays(value, path, parentKey)`. */
    method AnalyzeArrays(value: Json, path: string, parentKey: string)
      requires Valid()
      modifies this, pool
      ensures Valid()
      ensures State() == Analyze(mode, value, path, parentKey, old(State()))
      decreases value, 1
    {
      match value {
        case Arr(items) =>
          EncodeArray(items, path, parentKey);
          AnalyzeEach(items, path, parentKey);
        case Obj(fields) =>
          AnalyzeMembers(fields, path);
        case _ =>
      }
    }

    /** `value.forEach((item, idx) => analyzeArrays(item, path[idx], parentKey))`. */
    method AnalyzeEach(items: seq<Json>, path: string, parentKey: string)
      requires Valid()
      modifies this, pool
      ensures Valid()
      ensures State() == AnalyzeItems(mode, items, path, parentKey, old(State()))
      decreases items, 0
    {
      ghost var st := State();
      var i := 0;
      while i < |items|
        invariant 0 <= i <= |items|
        invariant Valid()
        invariant State() == AnalyzeItems(mode, items[..i], path, parentKey, st)
      {
        assert items[..i + 1][..i] == items[..i];
        AnalyzeArrays(items[i], ItemPath(path, i), parentKey);
        i := i + 1;
      }
      assert items[..i] == items;
    }

    /** `for (const [key, val] of Object.entries(value)) analyzeArrays(val, path.key, key)`. */
    method AnalyzeMembers(fields: Fields, path: string)
      requires Valid()
      modifies this, pool
      ensures Valid()
      ensures State() == AnalyzeFields(mode, fields, path, old(State()))
      decreases fields, 0
    {
      ghost var st := State();
      var i := 0;
      while i < |fields|
        invariant 0 <= i <= |fields|
        invariant Valid()
        invariant State() == AnalyzeFields(mode, fields[..i], path, st)
      {
        assert fields[..i + 1][..i] == fields[..i];
        var (key, val) := fields[i];
        assert fields[i] in fields && val < fields[i];
        AnalyzeArrays(val, MemberPath(path, key), key);
        i := i + 1;
      }
      assert fields[..i] == fields;
    }

    /** The part of `analyzeArrays` that looks at one array before its items. */
    method EncodeArray(items: seq<Json>, path: string, parentKey: string)
      requires Valid()
      modifies this, pool
      ensures Valid()
      ensures State() == ArrayStep(mode, items, path, parentKey, old(State()))
    {
      if |items| > 0 && items[0].Obj? {
        var objects := PlainObjects(items);
        if |objects| >= 10 {
          var shapes := ShapesOf(objects);
          var uniformity := Shapes.CalculateUniformity(shapes);
          if 5 * uniformity.num >= 4 * uniformity.den {
            EncodeObjects(objects, shapes, uniformity, path, parentKey);
          }
        }
      }
    }

    /** Past the gate: pool the most common shape, build the rows, record them if worthwhile. */
    method EncodeObjects(objects: seq<Fields>, shapes: seq<seq<string>>, uniformity: Ratio, path: string, parentKey: string)
      requires Valid()
      requires |objects| >= 10 && shapes == ShapesOf(objects)
      requires uniformity == Shapes.Uniformity(shapes) && 5 * uniformity.num >= 4 * uniformity.den
      modifies this, pool
      ensures Valid()
      ensures State() == EncodeStep(mode, objects, path, parentKey, old(State()))
    {
      ghost var st := State();
      var mostCommon := MostCommonShape(shapes);
      var shapeId := Shapes.AddShape(pool, mostCommon);
      ghost var added := State();
      var rows := CollectRows(objects, mostCommon);
      RecordRows(objects, mostCommon, shapeId, rows, path, parentKey, uniformity);
      EncodeStepRecords(mode, objects, path, parentKey, st, shapeId, added.entries);
    }

    /** The size estimate and the final decision for one array. */
    method RecordRows(objects: seq<Fields>, shape: seq<string>, shapeId: string, rows: seq<seq<Json>>,
                      path: string, parentKey: string, uniformity: Ratio)
      requires Valid()
      modifies this
      ensures Valid()
      ensures State() == Record(mode, objects, shape, shapeId, rows, path, parentKey, uniformity, old(State()))
    {
      if mode.On? || (mode.Auto? && |rows| >= 10) {
        var savings := ShapeSavings(objects, shapeId, rows, shape);
        if mode.On? || savings > JsonLen(ShapeDictJson(shapeId, shape)) {
          used := true;
          decision := ShapeDecision(true, if parentKey != "" then parentKey else path, |rows|, uniformity, savings);
          table := table[path := Encoded(shapeId, rows)];
        }
      }
    }
  }
}
