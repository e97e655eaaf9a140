/**
 * Shapes: the sorted key list of an object, how uniform a list of shapes is,
 * and the ShapePool, which interns a shape through its JSON text in an `s`
 * interning pool.
 */
module Shapes {
  import opened Wrappers
  import Strings
  import Sorting
  import Json
  import Pool
  import opened Ratios

  // ---------------------------------------------------------------------------
  // deriveShape
  // ---------------------------------------------------------------------------

  /** The comparator `(a, b) => a.localeCompare(b)` as an order. */
  predicate LocaleLe(a: string, b: string) { a == b || Strings.LocaleLess(a, b) }

  lemma LocaleLeIsTotalOrder()
    ensures Sorting.TotalPreorder(LocaleLe)
    ensures Sorting.Antisymmetric(LocaleLe)
  {
    forall a: string, b: string ensures LocaleLe(a, b) || LocaleLe(b, a) {
      Strings.LocaleTotal(a, b);
    }
    forall a: string, b: string, c: string | LocaleLe(a, b) && LocaleLe(b, c) ensures LocaleLe(a, c) {
      if Strings.LocaleLess(a, b) && Strings.LocaleLess(b, c) { Strings.LocaleTransitive(a, b, c); }
    }
    forall a: string, b: string | LocaleLe(a, b) && LocaleLe(b, a) ensures a == b {
      if Strings.LocaleLess(a, b) { Strings.LocaleAsymmetric(a, b); }
    }
  }

  /** `deriveShape(obj)`: the object's keys sorted by localeCompare. */
  function DeriveShape(fields: Json.Fields): (r: seq<string>)
    ensures Sorting.SortedBy(r, LocaleLe)
    ensures multiset(r) == multiset(Json.Keys(fields))
  {
    LocaleLeIsTotalOrder();
    Sorting.SortBy(Json.Keys(fields), LocaleLe)
  }

  /**
   * Objects with the same keys, in whatever order, have the same shape: the
   * shape does not depend on insertion order.
   */
  lemma DeriveShapeOrderFree(a: Json.Fields, b: Json.Fields)
    requires multiset(Json.Keys(a)) == multiset(Json.Keys(b))
    ensures DeriveShape(a) == DeriveShape(b)
  {
    LocaleLeIsTotalOrder();
    Sorting.SortByPermutationInvariant(Json.Keys(a), Json.Keys(b), LocaleLe);
  }

  // ---------------------------------------------------------------------------
  // The shape key: JSON.stringify of a list of strings, and its parser
  // ---------------------------------------------------------------------------

  function StrItems(shape: seq<string>): (r: seq<Json.Json>)
    ensures |r| == |shape|
    ensures forall i :: 0 <= i < |shape| ==> r[i] == Json.Str(shape[i])
  {
    if shape == [] then [] else [Json.Str(shape[0])] + StrItems(shape[1..])
  }

  /** A shape as the JSON value `toShapesDict` stores. */
  function ShapeJson(shape: seq<string>): Json.Json
  {
    Json.Arr(StrItems(shape))
  }

  /** `JSON.stringify(shape)`, the key a shape is pooled under. */
  function ShapeKey(shape: seq<string>): string
  {
    Json.JsonText(ShapeJson(shape))
  }

  /**
   * Read a string literal's body up to its closing quote: the text and what
   * follows the quote.
   */
  function ParseStr(s: string): (r: Option<(string, string)>)
    ensures r.Some? ==> |r.value.1| < |s|
    decreases |s|
  {
    if s == [] then None
    else if s[0] == '"' then Some(("", s[1..]))
    else if s[0] == '\\' then
      if |s| >= 2 && (s[1] == '"' || s[1] == '\\') then
        var rest := ParseStr(s[2..]);
        if rest.Some? then Some(([s[1]] + rest.value.0, rest.value.1)) else None
      else None
    else
      var rest := ParseStr(s[1..]);
      if rest.Some? then Some(([s[0]] + rest.value.0, rest.value.1)) else None
  }

  /** Read `"a","b",...]` (the text after `[`) into its strings. */
  function ParseItems(s: string): Option<seq<string>>
    decreases |s|
  {
    if |s| >= 1 && s[0] == '"' then
      var head := ParseStr(s[1..]);
      if head.None? then None
      else
        var (x, r) := head.value;
        if r == "]" then Some([x])
        else if |r| >= 1 && r[0] == ',' then
          var tail := ParseItems(r[1..]);
          if tail.Some? then Some([x] + tail.value) else None
        else None
    else None
  }

  /**
   * Reads the text `JSON.stringify` writes for an array of strings: `[`, the
   * quoted strings separated by commas, `]`. Any other text is a failure,
   * although `JSON.parse` also accepts whitespace, `\u` escapes and values
   * that are not arrays.
   */
  function ParseShapeKey(s: string): Option<seq<string>>
  {
    if s == "[]" then Some([])
    else if |s| >= 1 && s[0] == '[' then ParseItems(s[1..])
    else None
  }

  lemma {:induction false} ParseStrEscaped(x: string, rest: string)
    ensures ParseStr(Json.Escape(x) + "\"" + rest) == Some((x, rest))
    decreases |x|
  {
    var s := Json.Escape(x) + "\"" + rest;
    if x == [] {
      assert s == "\"" + rest;
      assert s[1..] == rest;
    } else {
      ParseStrEscaped(x[1..], rest);
      assert x == [x[0]] + x[1..];
      if x[0] == '"' || x[0] == '\\' {
        EscapedSpecial(x, rest);
      } else {
        EscapedPlain(x, rest);
      }
    }
  }

  /** The escaped text of a string that starts with a quote or backslash. */
  lemma EscapedSpecial(x: string, rest: string)
    requires x != [] && (x[0] == '"' || x[0] == '\\')
    ensures var s := Json.Escape(x) + "\"" + rest;
      |s| >= 2 && s[0] == '\\' && s[1] == x[0] && s[2..] == Json.Escape(x[1..]) + "\"" + rest
  {
    var e := Json.Escape(x[1..]);
    var s := Json.Escape(x) + "\"" + rest;
    assert Json.Escape(x) == ['\\', x[0]] + e;
    assert s == ['\\', x[0]] + (e + "\"" + rest);
  }

  /** The escaped text of a string that starts with an ordinary character. */
  lemma EscapedPlain(x: string, rest: string)
    requires x != [] && x[0] != '"' && x[0] != '\\'
    ensures var s := Json.Escape(x) + "\"" + rest;
      s[0] == x[0] && s[1..] == Json.Escape(x[1..]) + "\"" + rest
  {
    var s := Json.Escape(x) + "\"" + rest;
    var tail := Json.Escape(x[1..]) + "\"" + rest;
    assert Json.Escape(x) == [x[0]] + Json.Escape(x[1..]);
    assert s == [x[0]] + tail;
  }

  lemma {:induction false} ParseItemsText(shape: seq<string>)
    requires shape != []
    ensures ParseItems(Json.ItemsText(StrItems(shape)) + "]") == Some(shape)
    decreases |shape|
  {
    var x := shape[0];
    if |shape| == 1 {
      var t := Json.Escape(x) + "\"" + "]";
      ItemsTextOne(x);
      ParseStrEscaped(x, "]");
      assert shape == [x];
    } else {
      var rest := Json.ItemsText(StrItems(shape[1..]));
      var t := Json.Escape(x) + "\"" + ("," + rest + "]");
      ItemsTextMore(shape);
      ParseStrEscaped(x, "," + rest + "]");
      assert ("," + rest + "]")[1..] == rest + "]";
      ParseItemsText(shape[1..]);
      assert shape == [x] + shape[1..];
    }
  }

  /** The text of one string item, closed, opens with a quote. */
  lemma ItemsTextOne(x: string)
    ensures var t := Json.Escape(x) + "\"" + "]";
      && Json.ItemsText(StrItems([x])) + "]" == "\"" + t
      && ("\"" + t)[1..] == t
  {
    assert Json.ItemsText(StrItems([x])) == Json.Quote(x);
  }

  /** The text of several string items is the first, a comma, and the rest. */
  lemma ItemsTextMore(shape: seq<string>)
    requires |shape| >= 2
    ensures var t := Json.Escape(shape[0]) + "\"" + ("," + Json.ItemsText(StrItems(shape[1..])) + "]");
      && Json.ItemsText(StrItems(shape)) + "]" == "\"" + t
      && ("\"" + t)[1..] == t
  {
    var items := StrItems(shape);
    assert items[1..] == StrItems(shape[1..]);
    var rest := Json.ItemsText(items[1..]);
    var q := Json.Escape(shape[0]);
    assert Json.JsonText(items[0]) == "\"" + q + "\"";
    assert Json.ItemsText(items) == "\"" + q + "\"" + "," + rest;
    Regroup(q, rest);
  }

  lemma Regroup(q: string, rest: string)
    ensures "\"" + q + "\"" + "," + rest + "]" == "\"" + (q + "\"" + ("," + rest + "]"))
    ensures ("\"" + (q + "\"" + ("," + rest + "]")))[1..] == q + "\"" + ("," + rest + "]")
  {
    var l := "\"" + q + "\"" + "," + rest + "]";
    var r := "\"" + (q + "\"" + ("," + rest + "]"));
    assert |l| == |r|;
    forall i | 0 <= i < |l| ensures l[i] == r[i] {
    }
  }

  /** Parsing a shape key gives back the shape. */
  lemma ParseShapeKeyRoundTrip(shape: seq<string>)
    ensures ParseShapeKey(ShapeKey(shape)) == Some(shape)
  {
    if shape == [] {
      assert ShapeKey(shape) == "[]";
    } else {
      var body := Json.ItemsText(StrItems(shape));
      assert ShapeKey(shape) == "[" + body + "]";
      ParseItemsText(shape);
      assert |"[" + body + "]"| >= 3 by { assert |body| >= 1 by { assert StrItems(shape) != []; } }
      assert ("[" + body + "]")[1..] == body + "]";
    }
  }

  /** Distinct shapes have distinct keys. */
  lemma ShapeKeyInjective(a: seq<string>, b: seq<string>)
    requires ShapeKey(a) == ShapeKey(b)
    ensures a == b
  {
    ParseShapeKeyRoundTrip(a);
    ParseShapeKeyRoundTrip(b);
  }

  // ---------------------------------------------------------------------------
  // calculateUniformity
  // ---------------------------------------------------------------------------

  /** How many of `keys` equal `k`. */
  function Occurrences(keys: seq<string>, k: string): (r: nat)
    ensures r <= |keys|
    ensures k in keys ==> r >= 1
    ensures k !in keys ==> r == 0
    decreases |keys|
  {
    if keys == [] then 0
    else Occurrences(keys[..|keys| - 1], k) + (if keys[|keys| - 1] == k then 1 else 0)
  }

  /** The largest number of occurrences among `candidates`. */
  function MaxOccurrences(keys: seq<string>, candidates: seq<string>): (r: nat)
    ensures forall i :: 0 <= i < |candidates| ==> Occurrences(keys, candidates[i]) <= r
    ensures candidates != [] ==> exists i :: 0 <= i < |candidates| && r == Occurrences(keys, candidates[i])
    ensures candidates == [] ==> r == 0
  {
    if candidates == [] then 0
    else
      var rest := MaxOccurrences(keys, candidates[1..]);
      var here := Occurrences(keys, candidates[0]);
      if here >= rest then here
      else
        assert candidates[1..] != [];
        rest
  }

  /** The key of every shape, in order. */
  function ShapeKeys(shapes: seq<seq<string>>): (r: seq<string>)
    ensures |r| == |shapes|
  {
    if shapes == [] then [] else [ShapeKey(shapes[0])] + ShapeKeys(shapes[1..])
  }

  lemma {:induction false} ShapeKeysAt(shapes: seq<seq<string>>, i: nat)
    requires i < |shapes|
    ensures ShapeKeys(shapes)[i] == ShapeKey(shapes[i])
    decreases i
  {
    if i > 0 { ShapeKeysAt(shapes[1..], i - 1); }
  }

  /** The count of the most common shape. */
  function MostCommonCount(shapes: seq<seq<string>>): nat
  {
    MaxOccurrences(ShapeKeys(shapes), ShapeKeys(shapes))
  }

  /** `calculateUniformity(shapes)` as the exact fraction it computes. */
  function Uniformity(shapes: seq<seq<string>>): Ratio
  {
    if shapes == [] then Ratio(1, 1) else Ratio(MostCommonCount(shapes), |shapes|)
  }

  /** An attained upper bound of the counts is the most common count. */
  lemma MaxCharacterised(keys: seq<string>, m: nat)
    requires forall i :: 0 <= i < |keys| ==> Occurrences(keys, keys[i]) <= m
    requires exists i :: 0 <= i < |keys| && m == Occurrences(keys, keys[i])
    ensures m == MaxOccurrences(keys, keys)
  {
  }

  lemma OccurrencesStep(keys: seq<string>, i: nat, k: string)
    requires i < |keys|
    ensures Occurrences(keys[..i + 1], k) == Occurrences(keys[..i], k) + (if keys[i] == k then 1 else 0)
  {
    assert keys[..i + 1][..i] == keys[..i];
  }

  /**
   * `counts` holds, for each key among the first `i`, how often it occurs
   * there, and `order` lists the same keys (the map's iteration order).
   */
  ghost predicate Counted(keys: seq<string>, i: nat, counts: map<string, nat>, order: seq<string>)
    requires i <= |keys|
  {
    && (forall k :: k in counts <==> k in keys[..i])
    && (forall k :: k in counts <==> k in order)
    && (forall k :: k in counts ==> counts[k] == Occurrences(keys[..i], k))
  }

  /** One step of the counting loop keeps the counts exact. */
  lemma CountStep(keys: seq<string>, i: nat, counts: map<string, nat>, order: seq<string>)
    requires i < |keys|
    requires Counted(keys, i, counts, order)
    ensures var c := if keys[i] in counts then counts[keys[i]] else 0;
      Counted(keys, i + 1, counts[keys[i] := c + 1], if keys[i] in counts then order else order + [keys[i]])
  {
    forall k ensures Occurrences(keys[..i + 1], k) == Occurrences(keys[..i], k) + (if keys[i] == k then 1 else 0) {
      OccurrencesStep(keys, i, k);
    }
    assert keys[..i + 1] == keys[..i] + [keys[i]];
    if keys[i] !in counts {
      assert Occurrences(keys[..i], keys[i]) == 0;
    }
  }

  /** The largest count of the finished map is the most common count. */
  lemma LargestCount(keys: seq<string>, counts: map<string, nat>, order: seq<string>, m: nat)
    requires Counted(keys, |keys|, counts, order)
    requires forall t :: 0 <= t < |order| ==> counts[order[t]] <= m
    requires exists t :: 0 <= t < |order| && m == counts[order[t]]
    ensures m == MaxOccurrences(keys, keys)
  {
    assert keys[..|keys|] == keys;
    forall q | 0 <= q < |keys| ensures Occurrences(keys, keys[q]) <= m {
      assert keys[q] in order;
      var t :| 0 <= t < |order| && order[t] == keys[q];
    }
    var t :| 0 <= t < |order| && m == counts[order[t]];
    assert order[t] in keys;
    var q :| 0 <= q < |keys| && keys[q] == order[t];
    MaxCharacterised(keys, m);
  }

  /**
   * `calculateUniformity(shapes)`: count each shape key in a map (kept with its
   * insertion order, as a JavaScript Map iterates), then take the largest
   * count. The result is the count of the most common shape over the number of
   * shapes, and 1 for no shapes.
   */
  method CalculateUniformity(shapes: seq<seq<string>>) returns (r: Ratio)
    ensures r == Uniformity(shapes)
  {
    if |shapes| == 0 {
      return Ratio(1, 1);
    }
    var keys := ShapeKeys(shapes);
    var counts: map<string, nat> := map[];
    var order: seq<string> := [];
    var i := 0;
    while i < |shapes|
      invariant 0 <= i <= |shapes|
      invariant Counted(keys, i, counts, order)
    {
      var shapeKey := keys[i];
      CountStep(keys, i, counts, order);
      var count := if shapeKey in counts then counts[shapeKey] else 0;
      order := if shapeKey in counts then order else order + [shapeKey];
      counts := counts[shapeKey := count + 1];
      i := i + 1;
    }
    var maxCount := LargestCountOf(counts, order);
    assert order != [] by { assert keys[0] in keys[..i]; }
    LargestCount(keys, counts, order, maxCount);
    return Ratio(maxCount, |shapes|);
  }

  /** The loop over the map's values that keeps the largest count (0 for none). */
  method LargestCountOf(counts: map<string, nat>, order: seq<string>) returns (maxCount: nat)
    requires forall t :: 0 <= t < |order| ==> order[t] in counts
    ensures forall t :: 0 <= t < |order| ==> counts[order[t]] <= maxCount
    ensures order != [] ==> exists t :: 0 <= t < |order| && maxCount == counts[order[t]]
    ensures order == [] ==> maxCount == 0
  {
    maxCount := 0;
    var j := 0;
    while j < |order|
      invariant 0 <= j <= |order|
      invariant forall t :: 0 <= t < j ==> counts[order[t]] <= maxCount
      invariant j > 0 ==> exists t :: 0 <= t < j && maxCount == counts[order[t]]
      invariant j == 0 ==> maxCount == 0
    {
      maxCount := if counts[order[j]] > maxCount then counts[order[j]] else maxCount;
      j := j + 1;
    }
  }

  /** Occurrences of a key that is everywhere is the length. */
  lemma {:induction false} OccurrencesAll(keys: seq<string>, k: string)
    requires forall i :: 0 <= i < |keys| ==> keys[i] == k
    ensures Occurrences(keys, k) == |keys|
    decreases |keys|
  {
    if keys != [] { OccurrencesAll(keys[..|keys| - 1], k); }
  }

  /** A key other than some element occurs fewer times than the length. */
  lemma {:induction false} OccurrencesMissing(keys: seq<string>, k: string, j: nat)
    requires j < |keys| && keys[j] != k
    ensures Occurrences(keys, k) < |keys|
    decreases |keys|
  {
    if j < |keys| - 1 {
      OccurrencesMissing(keys[..|keys| - 1], k, j);
    } else {
      assert Occurrences(keys[..|keys| - 1], k) <= |keys| - 1;
    }
  }

  /**
   * For a non-empty list the uniformity lies in [1/n, 1], and it is 1 exactly
   * when every shape is the same.
   */
  lemma UniformityBounds(shapes: seq<seq<string>>)
    requires shapes != []
    ensures var u := Uniformity(shapes);
      && u.den == |shapes|
      && 1 <= u.num <= u.den
      && (u.num == u.den <==> forall i :: 0 <= i < |shapes| ==> shapes[i] == shapes[0])
  {
    var keys := ShapeKeys(shapes);
    var m := MostCommonCount(shapes);
    assert Occurrences(keys, keys[0]) >= 1 by { assert keys[0] in keys; }
    if forall i :: 0 <= i < |shapes| ==> shapes[i] == shapes[0] {
      forall i | 0 <= i < |keys| ensures keys[i] == keys[0] {
        ShapeKeysAt(shapes, i);
        ShapeKeysAt(shapes, 0);
      }
      OccurrencesAll(keys, keys[0]);
    } else {
      var j :| 0 <= j < |shapes| && shapes[j] != shapes[0];
      var q :| 0 <= q < |keys| && m == Occurrences(keys, keys[q]);
      var d := if shapes[j] != shapes[q] then j else 0;
      assert shapes[d] != shapes[q];
      assert keys[d] != keys[q] by {
        ShapeKeysAt(shapes, d);
        ShapeKeysAt(shapes, q);
        if keys[d] == keys[q] { ShapeKeyInjective(shapes[d], shapes[q]); }
      }
      OccurrencesMissing(keys, keys[q], d);
    }
  }

  // ---------------------------------------------------------------------------
  // ShapePool
  // ---------------------------------------------------------------------------

  /** `addShape(shape)`: pool the shape's key. */
  method AddShape(pool: Pool.InternPool, shape: seq<string>) returns (id: string)
    requires pool.Valid()
    modifies pool
    ensures pool.Valid()
    ensures pool.entries == Pool.Added(pool.prefix, old(pool.entries), ShapeKey(shape))
    ensures Pool.IdOf(pool.entries, ShapeKey(shape)) == Some(id)
  {
    id := pool.Add(ShapeKey(shape));
  }

  /** `getShapeId(shape)`: the id of the shape's key, without adding it. */
  function GetShapeId(pool: Pool.InternPool, shape: seq<string>): (r: Option<string>)
    reads pool
    requires pool.Valid()
    ensures r.Some? <==> ShapeKey(shape) in Pool.Values(pool.entries)
  {
    pool.GetId(ShapeKey(shape))
  }

  /** What `getShape(id)` returns for a snapshot of the pool's entries. */
  function ShapeOf(entries: seq<Pool.Entry>, id: string): Option<seq<string>>
  {
    var key := Pool.ValueOf(entries, id);
    if key.None? || key.value == "" then None else ParseShapeKey(key.value)
  }

  /** `getShape(id)`: look the key up, then parse it. */
  method GetShape(pool: Pool.InternPool, id: string) returns (r: Option<seq<string>>)
    requires pool.Valid()
    ensures r == ShapeOf(pool.entries, id)
  {
    var key := pool.Get(id);
    if key.None? || key.value == "" {
      return None;
    }
    return ParseShapeKey(key.value);
  }

  /**
   * Equal key lists get the same id and distinct key lists distinct ids; the
   * id of a shape resolves back to the shape.
   */
  lemma ShapeIdsFaithful(prefix: char, entries: seq<Pool.Entry>, a: seq<string>, b: seq<string>)
    requires Pool.WellFormed(prefix, entries)
    ensures Pool.IdOf(entries, ShapeKey(a)).Some? && Pool.IdOf(entries, ShapeKey(a)) == Pool.IdOf(entries, ShapeKey(b))
      ==> a == b
    ensures Pool.IdOf(entries, ShapeKey(a)).Some? ==> ShapeOf(entries, Pool.IdOf(entries, ShapeKey(a)).value) == Some(a)
  {
    var ia := Pool.IdOf(entries, ShapeKey(a));
    if ia.Some? {
      Pool.IdValueBijection(prefix, entries, ShapeKey(a), ia.value);
      Pool.IdValueBijection(prefix, entries, ShapeKey(b), ia.value);
      ParseShapeKeyRoundTrip(a);
      if Pool.IdOf(entries, ShapeKey(b)) == ia {
        ShapeKeyInjective(a, b);
      }
    }
  }

  /** `getShape(addShape(shape))` is the shape. */
  lemma AddShapeThenGetShape(prefix: char, entries: seq<Pool.Entry>, shape: seq<string>)
    requires Pool.WellFormed(prefix, entries)
    ensures var after := Pool.Added(prefix, entries, ShapeKey(shape));
      Pool.IdOf(after, ShapeKey(shape)).Some?
      && ShapeOf(after, Pool.IdOf(after, ShapeKey(shape)).value) == Some(shape)
  {
    var after := Pool.Added(prefix, entries, ShapeKey(shape));
    Pool.AddedKeepsWellFormed(prefix, entries, ShapeKey(shape));
    ShapeIdsFaithful(prefix, after, shape, shape);
  }

  /** The object `toShapesDict` builds from sorted entries, skipping unparsable ones. */
  function ShapesDictFields(sorted: seq<Pool.Entry>): Json.Fields
  {
    if sorted == [] then []
    else
      var init := ShapesDictFields(sorted[..|sorted| - 1]);
      var last := sorted[|sorted| - 1];
      var shape := ParseShapeKey(last.value);
      if shape.Some? then Json.Assign(init, last.id, ShapeJson(shape.value)) else init
  }

  /** `toShapesDict()`: parse each sorted entry and store it under its id. */
  method ToShapesDict(pool: Pool.InternPool) returns (dict: Json.Fields)
    requires pool.Valid()
    ensures dict == ShapesDictFields(Pool.SortedEntries(pool.entries))
  {
    var sorted := Pool.SortedEntries(pool.entries);
    dict := [];
    var i := 0;
    while i < |sorted|
      invariant 0 <= i <= |sorted|
      invariant dict == ShapesDictFields(sorted[..i])
    {
      assert sorted[..i + 1][..i] == sorted[..i];
      var shape := ParseShapeKey(sorted[i].value);
      if shape.Some? {
        dict := Json.Assign(dict, sorted[i].id, ShapeJson(shape.value));
      }
      i := i + 1;
    }
    assert sorted[..i] == sorted;
  }

  /** Every entry of the pool is the key of some shape. */
  predicate AllShapeKeys(entries: seq<Pool.Entry>)
  {
    forall i :: 0 <= i < |entries| ==> ParseShapeKey(entries[i].value).Some?
  }

  /** The member `toShapesDict` writes for one entry of shape keys. */
  function ShapeMember(e: Pool.Entry): (string, Json.Json)
  {
    var shape := ParseShapeKey(e.value);
    (e.id, ShapeJson(if shape.Some? then shape.value else []))
  }

  /** With distinct ids and only shape keys, each entry appends one member. */
  lemma {:induction false} ShapesDictMembers(sorted: seq<Pool.Entry>)
    requires Pool.DistinctIds(sorted)
    requires AllShapeKeys(sorted)
    ensures |ShapesDictFields(sorted)| == |sorted|
    ensures forall i :: 0 <= i < |sorted| ==> ShapesDictFields(sorted)[i] == ShapeMember(sorted[i])
    decreases |sorted|
  {
    if sorted != [] {
      var init := sorted[..|sorted| - 1];
      var last := sorted[|sorted| - 1];
      ShapesInit(sorted);
      ShapesDictMembers(init);
      ShapesDictFresh(init, last);
      ShapesDictAssemble(sorted, init);
    }
  }

  /** Dropping the last entry keeps ids distinct and every value a shape key. */
  lemma ShapesInit(sorted: seq<Pool.Entry>)
    requires sorted != []
    requires Pool.DistinctIds(sorted)
    requires AllShapeKeys(sorted)
    ensures Pool.DistinctIds(sorted[..|sorted| - 1]) && AllShapeKeys(sorted[..|sorted| - 1])
    ensures ParseShapeKey(sorted[|sorted| - 1].value).Some?
    ensures forall i :: 0 <= i < |sorted| - 1 ==> sorted[i].id != sorted[|sorted| - 1].id
  {
  }

  /** An id none of the entries has is not a key of their dictionary. */
  lemma ShapesDictFresh(init: seq<Pool.Entry>, last: Pool.Entry)
    requires |ShapesDictFields(init)| == |init|
    requires forall i :: 0 <= i < |init| ==> ShapesDictFields(init)[i] == ShapeMember(init[i])
    requires forall i :: 0 <= i < |init| ==> init[i].id != last.id
    ensures last.id !in Json.Keys(ShapesDictFields(init))
  {
    var d := ShapesDictFields(init);
    forall j | 0 <= j < |d| ensures Json.Keys(d)[j] != last.id {
      assert d[j] == ShapeMember(init[j]);
    }
  }

  /** Members for the entries before the last, then the last one's, are members for all. */
  lemma ShapesDictAssemble(sorted: seq<Pool.Entry>, init: seq<Pool.Entry>)
    requires sorted != [] && init == sorted[..|sorted| - 1]
    requires |ShapesDictFields(init)| == |init|
    requires forall i :: 0 <= i < |init| ==> ShapesDictFields(init)[i] == ShapeMember(init[i])
    requires ParseShapeKey(sorted[|sorted| - 1].value).Some?
    requires sorted[|sorted| - 1].id !in Json.Keys(ShapesDictFields(init))
    ensures |ShapesDictFields(sorted)| == |sorted|
    ensures forall i :: 0 <= i < |sorted| ==> ShapesDictFields(sorted)[i] == ShapeMember(sorted[i])
  {
    var d := ShapesDictFields(init);
    ShapesDictSnoc(sorted);
    forall i | 0 <= i < |sorted| ensures ShapesDictFields(sorted)[i] == ShapeMember(sorted[i]) {
      if i < |init| {
        assert sorted[i] == init[i];
        assert ShapesDictFields(sorted)[i] == d[i];
      }
    }
  }

  /** A shape entry whose id is new appends its member. */
  lemma ShapesDictSnoc(sorted: seq<Pool.Entry>)
    requires sorted != []
    requires ParseShapeKey(sorted[|sorted| - 1].value).Some?
    requires sorted[|sorted| - 1].id !in Json.Keys(ShapesDictFields(sorted[..|sorted| - 1]))
    ensures ShapesDictFields(sorted) == ShapesDictFields(sorted[..|sorted| - 1]) + [ShapeMember(sorted[|sorted| - 1])]
  {
    var last := sorted[|sorted| - 1];
    Json.AssignFresh(ShapesDictFields(sorted[..|sorted| - 1]), last.id, ShapeMember(last).1);
  }

  /**
   * `toShapesDict()` on a pool of shape keys has one member per distinct shape,
   * mapping its id to the key list it was added with.
   */
  lemma ShapesDictExact(prefix: char, entries: seq<Pool.Entry>)
    requires Pool.WellFormed(prefix, entries)
    requires AllShapeKeys(entries)
    ensures var d := ShapesDictFields(Pool.SortedEntries(entries));
      && |d| == |entries|
      && forall i :: 0 <= i < |entries| ==>
           Json.Lookup(d, entries[i].id) == Some(ShapeJson(ParseShapeKey(entries[i].value).value))
  {
    var s := Pool.SortedEntries(entries);
    SortedShapeEntries(prefix, entries);
    ShapesDictFound(s);
    forall i | 0 <= i < |entries| ensures
      Json.Lookup(ShapesDictFields(s), entries[i].id) == Some(ShapeJson(ParseShapeKey(entries[i].value).value))
    {
      assert entries[i] in multiset(s);
      var m :| 0 <= m < |s| && s[m] == entries[i];
    }
  }

  /** The sorted entries of a pool of shape keys are shape keys with distinct ids. */
  lemma SortedShapeEntries(prefix: char, entries: seq<Pool.Entry>)
    requires Pool.WellFormed(prefix, entries)
    requires AllShapeKeys(entries)
    ensures var s := Pool.SortedEntries(entries);
      |s| == |entries| && Pool.DistinctIds(s) && AllShapeKeys(s)
  {
    var s := Pool.SortedEntries(entries);
    Pool.IdsDistinct(prefix, entries);
    Pool.SortKeepsIdsDistinct(entries);
    assert |s| == |entries| by { assert |multiset(s)| == |multiset(entries)|; }
    forall i | 0 <= i < |s| ensures ParseShapeKey(s[i].value).Some? {
      assert s[i] in multiset(entries);
      var a :| 0 <= a < |entries| && entries[a] == s[i];
    }
  }

  /** Every sorted entry is found in the dictionary under its id. */
  lemma ShapesDictFound(s: seq<Pool.Entry>)
    requires Pool.DistinctIds(s) && AllShapeKeys(s)
    ensures |ShapesDictFields(s)| == |s|
    ensures forall m :: 0 <= m < |s| ==>
      Json.Lookup(ShapesDictFields(s), s[m].id) == Some(ShapeJson(ParseShapeKey(s[m].value).value))
  {
    ShapesDictMembers(s);
    var d := ShapesDictFields(s);
    assert Json.DistinctKeys(d) by {
      forall i, j | 0 <= i < j < |d| ensures d[i].0 != d[j].0 {
        assert d[i].0 == s[i].id && d[j].0 == s[j].id;
      }
    }
    forall m | 0 <= m < |s| ensures Json.Lookup(d, s[m].id) == Some(ShapeJson(ParseShapeKey(s[m].value).value)) {
      Json.LookupDistinct(d, m);
    }
  }
}
