/**
 * `toToxAST` and `fromToxAST` of tox-core's entry point: wrap the normalised
 * value in a `ToxAST`, and read it back, replacing pooled strings.
 *
 * The string pool is a record from ids to strings; the model keeps its own
 * entries only (`map<string, string>`), so a lookup of a name inherited from
 * Object.prototype is not modelled.
 */
module ToxAst {
  import opened Wrappers
  import opened Json
  import opened JsValues
  import opened Normalization
  import NormalizeFacts
  import Errors

  /** `{value, stringPool?}`; a `value` of `undefined` is `None`. */
  datatype ToxAst = ToxAst(value: Option<Json>, stringPool: Option<map<string, string>>)

  // ---------------------------------------------------------------------------
  // toToxAST
  // ---------------------------------------------------------------------------

  /** The message of the thrown `Error`: `${error.code}: ${error.message}`. */
  function ErrorText(error: Json): string
  {
    OptString(Get(error, "code")) + ": " + OptString(Get(error, "message"))
  }

  /** What `toToxAST` makes of a `normalize` result: throw on a truthy error, else wrap the value. */
  function Wrap(normalized: NormalizeResult): (r: Result<ToxAst, string>)
    ensures r.Failure? <==> TruthyOpt(normalized.error)
    ensures r.Success? ==> r.value.value == normalized.value && r.value.stringPool.None?
  {
    if TruthyOpt(normalized.error) then Failure(ErrorText(normalized.error.value))
    else Success(ToxAst(normalized.value, None))
  }

  /** `toToxAST(input, opts)`. */
  function ToToxAST(opts: Options, input: JsValue): Result<ToxAst, string>
  {
    Wrap(Normalize(opts, input))
  }

  /** Lenient conversion never throws. */
  lemma LenientNeverThrows(opts: Options, input: JsValue)
    requires !opts.strict
    ensures ToToxAST(opts, input) == Success(ToxAst(Normalize(opts, input).value, None))
  {
    NormalizeFacts.ErrorsOnlyWhenStrict(opts, input);
  }

  /** An error reported in the standard form is thrown as "CODE: message". */
  lemma ReportedErrorThrown(normalized: NormalizeResult, code: Errors.ErrorCode, message: string, hint: string)
    requires normalized.error == Some(ErrorObject(code, message, hint))
    ensures Wrap(normalized) == Failure(Errors.CodeText(code) + ": " + message)
  {
    ErrorObjectText(code, message, hint);
  }

  lemma ErrorObjectText(code: Errors.ErrorCode, message: string, hint: string)
    ensures ErrorText(ErrorObject(code, message, hint)) == Errors.CodeText(code) + ": " + message
  {
    var e := ErrorObject(code, message, hint);
    assert Get(e, "code") == Some(Str(Errors.CodeText(code)));
    assert Get(e, "message") == Some(Str(message)) by {
      assert Lookup(e.fields, "message") == Lookup(e.fields[1..], "message");
    }
  }

  /**
   * A strict root object whose member is named "error" is read as a failed
   * result: a truthy member value is thrown, as "undefined: undefined" unless
   * it is an object, and a falsy one gives the value null.
   */
  lemma RootErrorKeyThrows(opts: Options, ref: nat, x: JsValue)
    requires opts.strict
    requires NormalizeFacts.PlainData(x) && NormalizeFacts.TreeShaped(x) && NormalizeFacts.Fits(opts, x, 1)
    requires ref !in NormalizeFacts.ObjRefs(x) && 1 + NormalizeFacts.KeyTotal(x) <= opts.maxKeys
    ensures var e := NormalizeFacts.Canon(opts, x);
      Truthy(e) ==> ToToxAST(opts, JObject(ref, [("error", x)])) == Failure(ErrorText(e))
    ensures var e := NormalizeFacts.Canon(opts, x);
      Truthy(e) && !e.Obj? ==> ToToxAST(opts, JObject(ref, [("error", x)])) == Failure("undefined: undefined")
    ensures var e := NormalizeFacts.Canon(opts, x);
      !Truthy(e) ==> ToToxAST(opts, JObject(ref, [("error", x)])) == Success(ToxAst(Some(Null), None))
  {
    var e := NormalizeFacts.Canon(opts, x);
    NormalizeFacts.RootErrorKeyMisread(opts, ref, x);
    if !e.Obj? {
      assert Get(e, "code") == None && Get(e, "message") == None;
      assert ErrorText(e) == "undefined: undefined";
    }
  }

  // ---------------------------------------------------------------------------
  // fromToxAST
  // ---------------------------------------------------------------------------

  /** `stringPool[val]` when the pool is present, `val` is a string and the entry is truthy. */
  function PoolEntry(pool: Option<map<string, string>>, v: Json): (r: Option<string>)
    ensures r.Some? <==> pool.Some? && v.Str? && v.s in pool.value && pool.value[v.s] != ""
    ensures r.Some? ==> r.value == pool.value[v.s] && r.value != ""
  {
    if pool.Some? && v.Str? && v.s in pool.value && pool.value[v.s] != "" then Some(pool.value[v.s]) else None
  }

  /** `resolveValue(value)`: scalars as they are, arrays element by element, objects member by member. */
  function ResolveValue(pool: Option<map<string, string>>, v: Json): (r: Json)
    ensures !v.Arr? && !v.Obj? ==> r == v
    ensures v.Arr? ==> r.Arr? && |r.items| == |v.items|
    ensures v.Obj? ==> r.Obj?
    decreases v, 1
  {
    match v
    case Arr(items) => Arr(seq(|items|, i requires 0 <= i < |items| => ResolveValue(pool, items[i])))
    case Obj(fields) => Obj(ResolveMembers(pool, fields))
    case _ => v
  }

  /** The value stored for one member: the pooled string, or the member resolved. */
  function MemberValue(pool: Option<map<string, string>>, v: Json): Json
    decreases v, 2
  {
    var entry := PoolEntry(pool, v);
    if entry.Some? then Str(entry.value) else ResolveValue(pool, v)
  }

  /** The loop over `Object.entries(obj)`: `resolved[key] = ...`, in order. */
  function ResolveMembers(pool: Option<map<string, string>>, fields: Fields): Fields
    decreases fields, 0
  {
    if fields == [] then []
    else
      var last := fields[|fields| - 1];
      assert last in fields && last.1 < last;
      Assign(ResolveMembers(pool, fields[..|fields| - 1]), last.0, MemberValue(pool, last.1))
  }

  /** `fromToxAST(ast)`. */
  function FromToxAST(ast: ToxAst): (r: Option<Json>)
    ensures r.Some? <==> ast.value.Some?
  {
    if ast.value.Some? then Some(ResolveValue(ast.stringPool, ast.value.value)) else None
  }

  /**
   * On an object with distinct keys the rebuilt object has the same keys in
   * the same order, and each member holds the pooled string or its resolved
   * value.
   */
  lemma {:induction false} ResolveMembersPointwise(pool: Option<map<string, string>>, fields: Fields)
    requires DistinctKeys(fields)
    ensures |ResolveMembers(pool, fields)| == |fields|
    ensures forall i :: 0 <= i < |fields| ==>
      ResolveMembers(pool, fields)[i] == (fields[i].0, MemberValue(pool, fields[i].1))
    decreases |fields|
  {
    if fields != [] {
      var n := |fields| - 1;
      var init := fields[..n];
      var last := fields[n];
      var acc := ResolveMembers(pool, init);
      ResolveMembersPointwise(pool, init);
      assert last.0 !in Keys(acc) by {
        forall j | 0 <= j < |acc| ensures Keys(acc)[j] != last.0 {
          assert acc[j].0 == fields[j].0;
        }
      }
      AssignFresh(acc, last.0, MemberValue(pool, last.1));
    }
  }

  /** Keys are never translated: a rebuilt object has exactly the original key list. */
  lemma KeysNeverTranslated(pool: Option<map<string, string>>, fields: Fields)
    requires DistinctKeys(fields)
    ensures Keys(ResolveMembers(pool, fields)) == Keys(fields)
  {
    ResolveMembersPointwise(pool, fields);
  }

  /**
   * A member whose value is a string with a non-empty pool entry holds that
   * entry; every other member holds its own value resolved.
   */
  lemma PooledMemberReplaced(pool: Option<map<string, string>>, fields: Fields, i: nat)
    requires DistinctKeys(fields) && i < |fields|
    ensures PoolEntry(pool, fields[i].1).Some? ==>
      Lookup(ResolveMembers(pool, fields), fields[i].0) == Some(Str(pool.value[fields[i].1.s]))
    ensures PoolEntry(pool, fields[i].1).None? ==>
      Lookup(ResolveMembers(pool, fields), fields[i].0) == Some(ResolveValue(pool, fields[i].1))
  {
    ResolveMembersPointwise(pool, fields);
    var r := ResolveMembers(pool, fields);
    assert DistinctKeys(r) by {
      forall a, b | 0 <= a < b < |r| ensures r[a].0 != r[b].0 {
        assert r[a].0 == fields[a].0 && r[b].0 == fields[b].0;
      }
    }
    LookupDistinct(r, i);
  }

  /** Array elements are never looked up: an array of pooled ids comes back as it is. */
  lemma ArrayItemsNotLookedUp(pool: Option<map<string, string>>, items: seq<Json>)
    requires forall i :: 0 <= i < |items| ==> items[i].Str?
    ensures ResolveValue(pool, Arr(items)) == Arr(items)
  {
    var r := ResolveValue(pool, Arr(items));
    assert r.items == items by {
      forall i | 0 <= i < |items| ensures r.items[i] == items[i] {
        assert r.items[i] == ResolveValue(pool, items[i]);
      }
    }
  }

  /** Without a pool, `fromToxAST` rebuilds a well-keyed value exactly. */
  lemma {:induction false} NoPoolIdentity(v: Json)
    requires WellKeyed(v)
    ensures ResolveValue(None, v) == v
    decreases v, 1
  {
    match v
    case Arr(items) =>
      forall i | 0 <= i < |items| ensures ResolveValue(None, items[i]) == items[i] {
        NoPoolIdentity(items[i]);
      }
    case Obj(fields) =>
      NoPoolMembersIdentity(fields);
    case _ =>
  }

  lemma {:induction false} NoPoolMembersIdentity(fields: Fields)
    requires DistinctKeys(fields)
    requires forall i :: 0 <= i < |fields| ==> WellKeyed(fields[i].1)
    ensures ResolveMembers(None, fields) == fields
    decreases fields, 0
  {
    ResolveMembersPointwise(None, fields);
    var r := ResolveMembers(None, fields);
    forall i | 0 <= i < |fields| ensures r[i] == fields[i] {
      assert fields[i] in fields && fields[i].1 < fields[i];
      NoPoolIdentity(fields[i].1);
    }
  }

  /**
   * Without a pool, reading back what `toToxAST` produced gives the
   * normalised value, whenever that value is well keyed.
   */
  lemma RoundTrip(opts: Options, input: JsValue)
    requires ToToxAST(opts, input).Success?
    requires var n := Normalize(opts, input).value; n.Some? ==> WellKeyed(n.value)
    ensures FromToxAST(ToToxAST(opts, input).value) == Normalize(opts, input).value
  {
    var n := Normalize(opts, input).value;
    if n.Some? {
      NoPoolIdentity(n.value);
    }
  }

  /** For plain data within the limits the round trip gives back the canonical form. */
  lemma PlainRoundTrip(opts: Options, input: JsValue)
    requires NormalizeFacts.PlainData(input) && NormalizeFacts.TreeShaped(input)
    requires NormalizeFacts.Fits(opts, input, 0) && NormalizeFacts.KeyTotal(input) <= opts.maxKeys
    ensures ToToxAST(opts, input).Success?
    ensures FromToxAST(ToToxAST(opts, input).value) == Some(NormalizeFacts.Canon(opts, input))
  {
    NormalizeFacts.PlainNormalizeResult(opts, input);
    NormalizeFacts.CanonWellKeyed(opts, input);
    RoundTrip(opts, input);
  }
}
