/**
 * `replaceKeys(value, path)`, the last pass of `encodeJson`: object keys
 * become their ids from the key pool when the dictionary is in use,
 * path-like strings become the ids of their segments when the path pool is
 * in use, arrays recorded by the shape analysis become `{ $shape, rows }`,
 * and a reserved key in the data is an error in strict mode and skipped
 * otherwise.
 *
 * The pass throws on the first reserved key it meets in strict mode; the
 * model returns that error as a `Failure`, and the first failure in
 * traversal order wins, as the throw does.
 */
module Rewrite {
  import opened Wrappers
  import opened Json
  import Errors
  import Pool
  import Paths
  import Shapes
  import EncodeKeys
  import EncodeShapes
  import Decode

  /** What `replaceKeys` reads from the enclosing `encodeJson`. */
  datatype Context = Context(
    strict: bool,
    useDict: bool,                                 // shouldUseDict
    keys: seq<Pool.Entry>,                         // the key pool
    usePaths: bool,                                // shouldUsePathPool
    paths: seq<Pool.Entry>,                        // the path pool
    table: map<string, EncodeShapes.Encoded>)      // shapeEncodedArrays

  // ---------------------------------------------------------------------------
  // Termination: each step makes the path longer, and the rows of an encoded
  // array are rewritten under a path longer than every recorded one.
  // ---------------------------------------------------------------------------

  /** How deep a path is: "<root>" is the top, any other path its length plus one. */
  ghost function Level(path: string): nat
  {
    if path == "<root>" then 0 else |path| + 1
  }

  ghost function MaxLevel(paths: set<string>): (r: nat)
    ensures forall p :: p in paths ==> Level(p) <= r
    decreases paths
  {
    if paths == {} then 0
    else
      var p :| p in paths;
      var rest := MaxLevel(paths - {p});
      if Level(p) > rest then Level(p) else rest
  }

  /** How many more encoded arrays a rewrite at `path` can still meet along one branch. */
  ghost function Budget(table: map<string, EncodeShapes.Encoded>, path: string): nat
  {
    var m := MaxLevel(table.Keys);
    if Level(path) <= m then m + 1 - Level(path) else 0
  }

  /** The path under which the items of the rows are rewritten. */
  function RowPath(path: string): string
  {
    path + "[row]"
  }

  lemma EndsInBracket(p: string)
    requires p != [] && p[|p| - 1] == ']'
    ensures p != "<root>"
  {
    assert "<root>"[5] == '>';
  }

  lemma ItemDeeper(table: map<string, EncodeShapes.Encoded>, path: string, i: nat)
    ensures Budget(table, EncodeShapes.ItemPath(path, i)) <= Budget(table, path)
  {
    var p := EncodeShapes.ItemPath(path, i);
    assert p[|p| - 1] == ']';
    EndsInBracket(p);
  }

  lemma MemberDeeper(table: map<string, EncodeShapes.Encoded>, path: string, key: string)
    ensures Budget(table, EncodeShapes.MemberPath(path, key)) <= Budget(table, path)
  {
    if path != "<root>" {
      var p := path + "." + key;
      assert p[|path|] == '.';
      assert forall i :: 0 <= i < |"<root>"| ==> "<root>"[i] != '.';
    }
  }

  lemma RowsDeeper(table: map<string, EncodeShapes.Encoded>, path: string)
    requires path in table
    ensures Budget(table, RowPath(path)) < Budget(table, path)
  {
    var p := RowPath(path);
    assert p[|p| - 1] == ']';
    EndsInBracket(p);
  }

  // ---------------------------------------------------------------------------
  // replaceKeys
  // ---------------------------------------------------------------------------

  /** The key written for `key`: its id when the dictionary is in use and has one. */
  function OutKey(ctx: Context, key: string): string
  {
    if ctx.useDict then
      match Pool.IdOf(ctx.keys, key)
      case Some(id) => id
      case None => key
    else key
  }

  /** The error thrown for a reserved key in strict mode; the path becomes the hint. */
  function ReservedInData(key: string, path: string): Errors.ToxError
  {
    Errors.ToxError(Errors.StrictModeViolation, "Reserved key '" + key + "' found in data", path + "." + key)
  }

  /** `replaceKeys(v, path)`. Only strict mode fails, and only with a strict-mode violation. */
  function Replace(ctx: Context, v: Json, path: string): (r: Result<Json, Errors.ToxError>)
    ensures r.Failure? ==> ctx.strict && r.error.code == Errors.StrictModeViolation
    decreases Budget(ctx.table, path), v, 2
  {
    match v
    case Str(s) =>
      if ctx.usePaths && Paths.IsLikelyPath(s) then
        Success(Arr(Shapes.StrItems(Paths.SegmentIds(ctx.paths, Paths.SplitPath(s)))))
      else Success(v)
    case Arr(items) =>
      if path in ctx.table then
        var encoded := ctx.table[path];
        RowsDeeper(ctx.table, path);
        var rows := ReplaceRows(ctx, encoded.rows, |encoded.rows|, RowPath(path));
        if rows.Failure? then Failure(rows.error)
        else Success(EncodeShapes.TupleJson(encoded.shapeId, rows.value))
      else
        var r := ReplaceItems(ctx, items, path);
        if r.Failure? then Failure(r.error) else Success(Arr(r.value))
    case Obj(fields) =>
      var r := ReplaceFields(ctx, fields, path);
      if r.Failure? then Failure(r.error) else Success(Obj(r.value))
    case _ => Success(v)
  }

  /** `value.map((item, idx) => replaceKeys(item, path[idx]))`. */
  function ReplaceItems(ctx: Context, items: seq<Json>, path: string): (r: Result<seq<Json>, Errors.ToxError>)
    ensures r.Success? ==> |r.value| == |items|
    ensures r.Failure? ==> ctx.strict && r.error.code == Errors.StrictModeViolation
    decreases Budget(ctx.table, path), items, 1
  {
    if items == [] then Success([])
    else
      var n := |items| - 1;
      var init := ReplaceItems(ctx, items[..n], path);
      if init.Failure? then init
      else
        ItemDeeper(ctx.table, path, n);
        var last := Replace(ctx, items[n], EncodeShapes.ItemPath(path, n));
        if last.Failure? then Failure(last.error) else Success(init.value + [last.value])
  }

  /** `encoded.rows.map((row) => ...)` over the first `k` rows, every item under the path `path[row]`. */
  function ReplaceRows(ctx: Context, rows: seq<seq<Json>>, k: nat, path: string): (r: Result<seq<seq<Json>>, Errors.ToxError>)
    requires k <= |rows|
    ensures r.Success? ==> |r.value| == k
    ensures r.Failure? ==> ctx.strict && r.error.code == Errors.StrictModeViolation
    decreases Budget(ctx.table, path), EncodeShapes.RowsJson(rows), 1, k
  {
    if k == 0 then Success([])
    else
      var init := ReplaceRows(ctx, rows, k - 1, path);
      if init.Failure? then init
      else
        assert EncodeShapes.RowsJson(rows)[k - 1] == Arr(rows[k - 1]);
        var last := ReplaceRow(ctx, rows[k - 1], path);
        if last.Failure? then Failure(last.error) else Success(init.value + [last.value])
  }

  /** `row.map((item) => replaceKeys(item, path))`. */
  function ReplaceRow(ctx: Context, row: seq<Json>, path: string): (r: Result<seq<Json>, Errors.ToxError>)
    ensures r.Success? ==> |r.value| == |row|
    ensures r.Failure? ==> ctx.strict && r.error.code == Errors.StrictModeViolation
    decreases Budget(ctx.table, path), row, 1
  {
    if row == [] then Success([])
    else
      var n := |row| - 1;
      var init := ReplaceRow(ctx, row[..n], path);
      if init.Failure? then init
      else
        var last := Replace(ctx, row[n], path);
        if last.Failure? then Failure(last.error) else Success(init.value + [last.value])
  }

  /**
   * The loop over `Object.entries(obj)`: a reserved key fails in strict mode
   * and is skipped otherwise; any other key is written as `OutKey`, with its
   * value rewritten under `MemberPath`.
   */
  function ReplaceFields(ctx: Context, fields: Fields, path: string): (r: Result<Fields, Errors.ToxError>)
    ensures r.Failure? ==> ctx.strict && r.error.code == Errors.StrictModeViolation
    decreases Budget(ctx.table, path), fields, 1
  {
    if fields == [] then Success([])
    else
      var n := |fields| - 1;
      var key := fields[n].0;
      var init := ReplaceFields(ctx, fields[..n], path);
      if init.Failure? then init
      else if EncodeKeys.Reserved(key) then
        if ctx.strict then Failure(ReservedInData(key, path)) else init
      else
        assert fields[n] in fields && fields[n].1 < fields[n];
        MemberDeeper(ctx.table, path, key);
        var r := Replace(ctx, fields[n].1, EncodeShapes.MemberPath(path, key));
        if r.Failure? then Failure(r.error) else Success(Assign(init.value, OutKey(ctx, key), r.value))
  }

  // ---------------------------------------------------------------------------
  // When the rewrite fails
  // ---------------------------------------------------------------------------

  /** Some object key anywhere in `v` is reserved. */
  predicate HasReserved(v: Json)
    decreases v
  {
    match v
    case Arr(items) => exists i :: 0 <= i < |items| && HasReserved(items[i])
    case Obj(fields) => exists i :: 0 <= i < |fields| && (EncodeKeys.Reserved(fields[i].0) || HasReserved(fields[i].1))
    case _ => false
  }

  /** With no encoded arrays, the rewrite fails exactly in strict mode on data holding a reserved key. */
  lemma {:induction false} FailsIffReserved(ctx: Context, v: Json, path: string)
    requires ctx.table == map[]
    ensures Replace(ctx, v, path).Failure? <==> ctx.strict && HasReserved(v)
    decreases v, 1
  {
    match v
    case Arr(items) =>
      ItemsFailIffReserved(ctx, items, path);
      assert HasReserved(v) == SomeItemReserved(items);
    case Obj(fields) =>
      FieldsFailIffReserved(ctx, fields, path);
      assert HasReserved(v) == SomeMemberReserved(fields);
    case _ =>
  }

  /** Some item holds a reserved key. */
  predicate SomeItemReserved(items: seq<Json>)
  {
    exists i :: 0 <= i < |items| && HasReserved(items[i])
  }

  /** A member whose key is reserved or whose value holds a reserved key. */
  predicate ReservedMember(member: (string, Json))
  {
    EncodeKeys.Reserved(member.0) || HasReserved(member.1)
  }

  /** Some member has or holds a reserved key. */
  predicate SomeMemberReserved(fields: Fields)
  {
    exists i :: 0 <= i < |fields| && ReservedMember(fields[i])
  }

  lemma SomeItemReservedSnoc(items: seq<Json>)
    requires items != []
    ensures SomeItemReserved(items) <==>
      SomeItemReserved(items[..|items| - 1]) || HasReserved(items[|items| - 1])
  {
    var n := |items| - 1;
    if SomeItemReserved(items) {
      var i :| 0 <= i < |items| && HasReserved(items[i]);
      if i < n { assert items[..n][i] == items[i]; }
    }
    if SomeItemReserved(items[..n]) {
      var i :| 0 <= i < n && HasReserved(items[..n][i]);
      assert items[i] == items[..n][i];
    }
  }

  lemma SomeMemberReservedSnoc(fields: Fields)
    requires fields != []
    ensures SomeMemberReserved(fields) <==>
      SomeMemberReserved(fields[..|fields| - 1]) || ReservedMember(fields[|fields| - 1])
  {
    var n := |fields| - 1;
    if SomeMemberReserved(fields) {
      var i :| 0 <= i < |fields| && ReservedMember(fields[i]);
      if i < n { assert fields[..n][i] == fields[i]; }
    }
    if SomeMemberReserved(fields[..n]) {
      var i :| 0 <= i < n && ReservedMember(fields[..n][i]);
      assert fields[i] == fields[..n][i];
    }
  }

  lemma {:induction false} ItemsFailIffReserved(ctx: Context, items: seq<Json>, path: string)
    requires ctx.table == map[]
    ensures ReplaceItems(ctx, items, path).Failure? <==> ctx.strict && SomeItemReserved(items)
    decreases items, 0
  {
    if items != [] {
      var n := |items| - 1;
      ItemsFailIffReserved(ctx, items[..n], path);
      FailsIffReserved(ctx, items[n], EncodeShapes.ItemPath(path, n));
      SomeItemReservedSnoc(items);
    }
  }

  lemma {:induction false} FieldsFailIffReserved(ctx: Context, fields: Fields, path: string)
    requires ctx.table == map[]
    ensures ReplaceFields(ctx, fields, path).Failure? <==> ctx.strict && SomeMemberReserved(fields)
    decreases fields, 0
  {
    if fields != [] {
      var n := |fields| - 1;
      assert fields[n] in fields && fields[n].1 < fields[n];
      FieldsFailIffReserved(ctx, fields[..n], path);
      FailsIffReserved(ctx, fields[n].1, EncodeShapes.MemberPath(path, fields[n].0));
      SomeMemberReservedSnoc(fields);
    }
  }

  /** In strict mode a reserved key of the top-level object is reported with its path as the hint. */
  lemma ReservedRootKey(ctx: Context, key: string, v: Json)
    requires ctx.strict && EncodeKeys.Reserved(key)
    ensures Replace(ctx, Obj([(key, v)]), "<root>")
      == Failure(Errors.ToxError(Errors.StrictModeViolation, "Reserved key '" + key + "' found in data", "<root>." + key))
  {
    var fields := [(key, v)];
    assert fields[..0] == [];
    assert ReplaceFields(ctx, fields[..0], "<root>") == Success([]);
    assert ReplaceFields(ctx, fields, "<root>") == Failure(ReservedInData(key, "<root>"));
    assert "<root>" + "." + key == "<root>." + key;
  }

  // ---------------------------------------------------------------------------
  // Without dictionary, path pool or encoded arrays the data is unchanged
  // ---------------------------------------------------------------------------

  lemma {:induction false} ReplaceIdentity(ctx: Context, v: Json, path: string)
    requires !ctx.useDict && !ctx.usePaths && ctx.table == map[]
    requires WellKeyed(v) && !HasReserved(v)
    ensures Replace(ctx, v, path) == Success(v)
    decreases v, 1
  {
    match v
    case Arr(items) => ItemsIdentity(ctx, items, path);
    case Obj(fields) => FieldsIdentity(ctx, fields, path);
    case _ =>
  }

  lemma {:induction false} ItemsIdentity(ctx: Context, items: seq<Json>, path: string)
    requires !ctx.useDict && !ctx.usePaths && ctx.table == map[]
    requires forall i :: 0 <= i < |items| ==> WellKeyed(items[i]) && !HasReserved(items[i])
    ensures ReplaceItems(ctx, items, path) == Success(items)
    decreases items, 0
  {
    if items != [] {
      var n := |items| - 1;
      ItemsIdentity(ctx, items[..n], path);
      ReplaceIdentity(ctx, items[n], EncodeShapes.ItemPath(path, n));
      assert items[..n] + [items[n]] == items;
    }
  }

  lemma {:induction false} FieldsIdentity(ctx: Context, fields: Fields, path: string)
    requires !ctx.useDict && !ctx.usePaths && ctx.table == map[]
    requires DistinctKeys(fields)
    requires forall i :: 0 <= i < |fields| ==>
      !EncodeKeys.Reserved(fields[i].0) && WellKeyed(fields[i].1) && !HasReserved(fields[i].1)
    ensures ReplaceFields(ctx, fields, path) == Success(fields)
    decreases fields, 0
  {
    if fields != [] {
      var n := |fields| - 1;
      var init := fields[..n];
      assert fields[n] in fields && fields[n].1 < fields[n];
      FieldsIdentity(ctx, init, path);
      ReplaceIdentity(ctx, fields[n].1, EncodeShapes.MemberPath(path, fields[n].0));
      assert fields[n].0 !in Keys(init) by {
        forall j | 0 <= j < |init| ensures Keys(init)[j] != fields[n].0 {
          assert fields[j].0 != fields[n].0;
        }
      }
      AssignFresh(init, fields[n].0, fields[n].1);
      assert init + [fields[n]] == fields;
    }
  }

  // ---------------------------------------------------------------------------
  // With the dictionary, decoding undoes the rewrite
  // ---------------------------------------------------------------------------

  /**
   * Every object key anywhere in `v` has an id in `keys`, and the key rule
   * maps that id back to the key.
   */
  predicate ResolvesBack(rule: (Json, string) -> string, dict: Json, keys: seq<Pool.Entry>, v: Json)
    decreases v
  {
    match v
    case Arr(items) => forall i :: 0 <= i < |items| ==> ResolvesBack(rule, dict, keys, items[i])
    case Obj(fields) =>
      forall i :: 0 <= i < |fields| ==>
        && Pool.IdOf(keys, fields[i].0).Some?
        && rule(dict, Pool.IdOf(keys, fields[i].0).value) == fields[i].0
        && ResolvesBack(rule, dict, keys, fields[i].1)
    case _ => true
  }

  /** The settings under which decoding is meant to undo the rewrite. */
  ghost predicate KeysOnly(ctx: Context)
  {
    ctx.useDict && !ctx.usePaths && ctx.table == map[] && Pool.WellFormed('k', ctx.keys)
  }

  /** Different pooled keys have different ids. */
  lemma OutKeysDistinct(ctx: Context, a: string, b: string)
    requires KeysOnly(ctx)
    requires Pool.IdOf(ctx.keys, a).Some? && Pool.IdOf(ctx.keys, b).Some? && a != b
    ensures OutKey(ctx, a) != OutKey(ctx, b)
  {
    Pool.IdValueBijection('k', ctx.keys, a, Pool.IdOf(ctx.keys, a).value);
    Pool.IdValueBijection('k', ctx.keys, b, Pool.IdOf(ctx.keys, b).value);
  }

  /**
   * Rewriting with the dictionary and then resolving with a rule that maps
   * ids back gives the value again.
   */
  lemma {:induction false} ResolveUndoesReplace(ctx: Context, rule: (Json, string) -> string, dict: Json, v: Json, path: string)
    requires KeysOnly(ctx)
    requires WellKeyed(v) && !HasReserved(v) && ResolvesBack(rule, dict, ctx.keys, v)
    ensures Replace(ctx, v, path).Success?
    ensures Decode.Resolve(rule, dict, Replace(ctx, v, path).value) == v
    decreases v, 2
  {
    match v
    case Arr(_) => ArrayUndone(ctx, rule, dict, v, path);
    case Obj(_) => ObjectUndone(ctx, rule, dict, v, path);
    case _ =>
  }

  lemma {:induction false} ArrayUndone(ctx: Context, rule: (Json, string) -> string, dict: Json, v: Json, path: string)
    requires KeysOnly(ctx) && v.Arr?
    requires WellKeyed(v) && !HasReserved(v) && ResolvesBack(rule, dict, ctx.keys, v)
    ensures Replace(ctx, v, path).Success?
    ensures Decode.Resolve(rule, dict, Replace(ctx, v, path).value) == v
    decreases v, 1
  {
    ItemsUndone(ctx, rule, dict, v.items, path);
  }

  lemma {:induction false} ObjectUndone(ctx: Context, rule: (Json, string) -> string, dict: Json, v: Json, path: string)
    requires KeysOnly(ctx) && v.Obj?
    requires WellKeyed(v) && !HasReserved(v) && ResolvesBack(rule, dict, ctx.keys, v)
    ensures Replace(ctx, v, path).Success?
    ensures Decode.Resolve(rule, dict, Replace(ctx, v, path).value) == v
    decreases v, 1
  {
    MembersUndoable(ctx, rule, dict, v.fields);
    FieldsUndone(ctx, rule, dict, v.fields, path);
  }

  /** The members of an object that satisfies the round-trip conditions satisfy them one by one. */
  lemma MembersUndoable(ctx: Context, rule: (Json, string) -> string, dict: Json, fields: Fields)
    requires WellKeyed(Obj(fields)) && !HasReserved(Obj(fields)) && ResolvesBack(rule, dict, ctx.keys, Obj(fields))
    ensures DistinctKeys(fields)
    ensures forall i :: 0 <= i < |fields| ==> Undoable(ctx, rule, dict, fields[i])
  {
    forall i | 0 <= i < |fields| ensures Undoable(ctx, rule, dict, fields[i]) {
      assert !ReservedMember(fields[i]);
    }
  }

  lemma {:induction false} ItemsUndone(ctx: Context, rule: (Json, string) -> string, dict: Json, items: seq<Json>, path: string)
    requires KeysOnly(ctx)
    requires forall i :: 0 <= i < |items| ==>
      WellKeyed(items[i]) && !HasReserved(items[i]) && ResolvesBack(rule, dict, ctx.keys, items[i])
    ensures ReplaceItems(ctx, items, path).Success?
    ensures var out := ReplaceItems(ctx, items, path).value;
      forall i :: 0 <= i < |items| ==> Decode.Resolve(rule, dict, out[i]) == items[i]
    decreases items, 0
  {
    if items != [] {
      var n := |items| - 1;
      ItemsUndone(ctx, rule, dict, items[..n], path);
      ResolveUndoesReplace(ctx, rule, dict, items[n], EncodeShapes.ItemPath(path, n));
      var out := ReplaceItems(ctx, items, path).value;
      var init := ReplaceItems(ctx, items[..n], path).value;
      forall i | 0 <= i < |items| ensures Decode.Resolve(rule, dict, out[i]) == items[i] {
        if i < n {
          assert out[i] == init[i] && items[i] == items[..n][i];
        }
      }
    }
  }

  /** A member the rewrite keeps and decoding restores: its key is not reserved and maps back from its id. */
  predicate Undoable(ctx: Context, rule: (Json, string) -> string, dict: Json, member: (string, Json))
  {
    && !EncodeKeys.Reserved(member.0)
    && Pool.IdOf(ctx.keys, member.0).Some?
    && rule(dict, Pool.IdOf(ctx.keys, member.0).value) == member.0
    && WellKeyed(member.1) && !HasReserved(member.1) && ResolvesBack(rule, dict, ctx.keys, member.1)
  }

  /** The rewritten members: each key's id with its rewritten value, in order. */
  lemma {:induction false} FieldsUndone(ctx: Context, rule: (Json, string) -> string, dict: Json, fields: Fields, path: string)
    requires KeysOnly(ctx)
    requires DistinctKeys(fields)
    requires forall i :: 0 <= i < |fields| ==> Undoable(ctx, rule, dict, fields[i])
    ensures ReplaceFields(ctx, fields, path).Success?
    ensures var out := ReplaceFields(ctx, fields, path).value;
      && KeysWritten(ctx, fields, out)
      && Decode.ResolveFields(rule, dict, out) == fields
    decreases fields, 0
  {
    if fields != [] {
      var n := |fields| - 1;
      var init := fields[..n];
      var key := fields[n].0;
      assert fields[n] in fields && fields[n].1 < fields[n];
      FieldsUndone(ctx, rule, dict, init, path);
      ResolveUndoesReplace(ctx, rule, dict, fields[n].1, EncodeShapes.MemberPath(path, key));
      assert forall i :: 0 <= i < n ==> init[i] == fields[i];
      var outInit := ReplaceFields(ctx, init, path).value;
      var r := Replace(ctx, fields[n].1, EncodeShapes.MemberPath(path, key)).value;
      ReplaceFieldsSnoc(ctx, fields, path);
      FreshOutKey(ctx, fields, outInit);
      AssignFresh(outInit, OutKey(ctx, key), r);
      UndoneStep(rule, dict, fields, outInit, OutKey(ctx, key), r);
      KeysWrittenSnoc(ctx, fields, outInit, r);
    }
  }

  /** The written keys are the members' `OutKey`s, in order. */
  predicate KeysWritten(ctx: Context, fields: Fields, out: Fields)
  {
    |out| == |fields| && forall i :: 0 <= i < |fields| ==> out[i].0 == OutKey(ctx, fields[i].0)
  }

  lemma KeysWrittenSnoc(ctx: Context, fields: Fields, outInit: Fields, r: Json)
    requires fields != [] && KeysWritten(ctx, fields[..|fields| - 1], outInit)
    ensures KeysWritten(ctx, fields, outInit + [(OutKey(ctx, fields[|fields| - 1].0), r)])
  {
    var n := |fields| - 1;
    assert forall i :: 0 <= i < n ==> fields[..n][i] == fields[i];
  }

  /** A kept member more: the rewritten members are the earlier ones with this one assigned. */
  lemma ReplaceFieldsSnoc(ctx: Context, fields: Fields, path: string)
    requires fields != [] && !EncodeKeys.Reserved(fields[|fields| - 1].0)
    requires ReplaceFields(ctx, fields[..|fields| - 1], path).Success?
    requires Replace(ctx, fields[|fields| - 1].1, EncodeShapes.MemberPath(path, fields[|fields| - 1].0)).Success?
    ensures ReplaceFields(ctx, fields, path) == Success(Assign(
      ReplaceFields(ctx, fields[..|fields| - 1], path).value,
      OutKey(ctx, fields[|fields| - 1].0),
      Replace(ctx, fields[|fields| - 1].1, EncodeShapes.MemberPath(path, fields[|fields| - 1].0)).value))
  {
  }

  /** One member more: resolving the rewritten members with the new one appended gives the members back. */
  lemma UndoneStep(rule: (Json, string) -> string, dict: Json, fields: Fields, outInit: Fields, id: string, r: Json)
    requires fields != [] && DistinctKeys(fields)
    requires Decode.ResolveFields(rule, dict, outInit) == fields[..|fields| - 1]
    requires rule(dict, id) == fields[|fields| - 1].0
    requires Decode.Resolve(rule, dict, r) == fields[|fields| - 1].1
    ensures Decode.ResolveFields(rule, dict, outInit + [(id, r)]) == fields
  {
    var n := |fields| - 1;
    var init := fields[..n];
    var key := fields[n].0;
    var out := outInit + [(id, r)];
    assert out[..|out| - 1] == outInit;
    Decode.ResolveFieldsSnoc(rule, dict, out);
    assert key !in Keys(init) by {
      forall j | 0 <= j < |init| ensures Keys(init)[j] != key {
        assert fields[j].0 != fields[n].0;
      }
    }
    AssignFresh(init, key, fields[n].1);
    assert init + [fields[n]] == fields;
  }

  /** The id of the last key is not among the ids written for the earlier ones. */
  lemma FreshOutKey(ctx: Context, fields: Fields, outInit: Fields)
    requires KeysOnly(ctx) && fields != [] && DistinctKeys(fields)
    requires forall i :: 0 <= i < |fields| ==> Pool.IdOf(ctx.keys, fields[i].0).Some?
    requires KeysWritten(ctx, fields[..|fields| - 1], outInit)
    ensures OutKey(ctx, fields[|fields| - 1].0) !in Keys(outInit)
  {
    var n := |fields| - 1;
    forall j | 0 <= j < n ensures Keys(outInit)[j] != OutKey(ctx, fields[n].0) {
      assert fields[..n][j] == fields[j];
      OutKeysDistinct(ctx, fields[j].0, fields[n].0);
    }
  }

  // ---------------------------------------------------------------------------
  // Path-like strings
  // ---------------------------------------------------------------------------

  /**
   * A path-like string becomes the ids of its segments, and when the path
   * pool holds every segment, `getPath` of those ids joins the segments back;
   * for a path without leading, trailing or doubled separators that is the
   * string with its backslashes turned into slashes.
   */
  lemma PathLeafRestores(ctx: Context, s: string, path: string)
    requires ctx.usePaths && Paths.IsLikelyPath(s)
    requires Pool.WellFormed('p', ctx.paths)
    requires forall k :: 0 <= k < |Paths.SplitPath(s)| ==> Pool.IdOf(ctx.paths, Paths.SplitPath(s)[k]).Some?
    ensures var ids := Paths.SegmentIds(ctx.paths, Paths.SplitPath(s));
      && Replace(ctx, Str(s), path) == Success(Arr(Shapes.StrItems(ids)))
      && Paths.ResolveIds(ctx.paths, ids) == Paths.SplitPath(s)
      && (Paths.CleanPath(s) ==> Paths.JoinPath(Paths.ResolveIds(ctx.paths, ids)) == Paths.Slashes(s))
  {
    var segments := Paths.SplitPath(s);
    var ids := Paths.SegmentIds(ctx.paths, segments);
    forall i | 0 <= i < |ids| ensures Paths.ResolveIds(ctx.paths, ids)[i] == segments[i] {
      Pool.IdValueBijection('p', ctx.paths, segments[i], ids[i]);
    }
    if Paths.CleanPath(s) {
      Paths.SplitJoinRoundTrip(s);
    }
  }
}
