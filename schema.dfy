/**
 * `getToxJsonSchema()`: the JSON Schema (draft-07) of a TOX JSON document,
 * read as a validity predicate on documents.
 *
 * A document is an object with `$schemaVersion` "1.0", a `$meta` object and
 * `data`; the optional dictionaries have id keys (`^[ksp][0-9]+$` for `$dict`,
 * `^p`, `^s`, `^v` for the others) and no property outside the listed ones
 * is allowed, at the top level or in `$meta`.
 */
module Schema {
  import opened Wrappers
  import opened Json
  import Strings
  import Pool
  import Decode
  import Shapes

  /** A key matching `^[letters][0-9]+$`. */
  predicate IdKey(letters: string, k: string)
  {
    |k| >= 2 && k[0] in letters && Strings.AllDigits(k[1..])
  }

  /** An object whose every member has an id key and a string value. */
  predicate StringDictionary(letters: string, d: Json)
  {
    d.Obj? && forall i :: 0 <= i < |d.fields| ==> IdKey(letters, d.fields[i].0) && d.fields[i].1.Str?
  }

  predicate StringList(v: Json)
  {
    v.Arr? && forall i :: 0 <= i < |v.items| ==> v.items[i].Str?
  }

  /** `$shapes`: `s` ids to lists of strings. */
  predicate ShapesDictionary(d: Json)
  {
    d.Obj? && forall i :: 0 <= i < |d.fields| ==> IdKey("s", d.fields[i].0) && StringList(d.fields[i].1)
  }

  /** `$valDict`: `v` ids to values of any kind. */
  predicate ValueDictionary(d: Json)
  {
    d.Obj? && forall i :: 0 <= i < |d.fields| ==> IdKey("v", d.fields[i].0)
  }

  /** The properties `$meta` allows. */
  const MetaKeys: seq<string> := ["generatedAt", "producer", "preset"]

  /** `$meta`: `generatedAt` and `producer` required, only the three string properties allowed. */
  predicate MetaValid(m: Json)
  {
    && m.Obj?
    && HasKey(m, "generatedAt") && HasKey(m, "producer")
    && forall i :: 0 <= i < |m.fields| ==> m.fields[i].0 in MetaKeys && m.fields[i].1.Str?
  }

  /** The constraint the schema puts on one top-level property; unknown properties fail. */
  predicate MemberValid(key: string, v: Json)
  {
    if key == "$schemaVersion" then v == Str("1.0")
    else if key == "$meta" then MetaValid(v)
    else if key == "$dict" then StringDictionary("ksp", v)
    else if key == "$pathDict" then StringDictionary("p", v)
    else if key == "$shapes" then ShapesDictionary(v)
    else if key == "$valDict" then ValueDictionary(v)
    else key == "data"
  }

  /** A document the schema accepts. */
  predicate Valid(doc: Json)
  {
    && doc.Obj?
    && HasKey(doc, "$schemaVersion") && HasKey(doc, "$meta") && HasKey(doc, "data")
    && forall i :: 0 <= i < |doc.fields| ==> MemberValid(doc.fields[i].0, doc.fields[i].1)
  }

  /** What `o[k]` reads is one of the members stored under `k`. */
  lemma {:induction false} LookupIsMember(fields: Fields, k: string)
    requires k in Keys(fields)
    ensures exists i :: 0 <= i < |fields| && fields[i] == (k, Lookup(fields, k).value)
  {
    if fields[0].0 != k {
      LookupIsMember(fields[1..], k);
      var i :| 0 <= i < |fields[1..]| && fields[1..][i] == (k, Lookup(fields[1..], k).value);
      assert fields[i + 1] == fields[1..][i];
    } else {
      assert fields[0] == (k, Lookup(fields, k).value);
    }
  }

  /** A valid document always passes the decoder's version gate and has data to decode. */
  lemma ValidDecodes(doc: Json, strict: bool)
    requires Valid(doc)
    ensures Decode.DecodeJson(doc, strict).Success? && Decode.DecodeJson(doc, strict).value.Some?
    ensures Decode.DecodeJsonCorrected(doc, strict).Success? && Decode.DecodeJsonCorrected(doc, strict).value.Some?
  {
    LookupIsMember(doc.fields, "$schemaVersion");
    var i :| 0 <= i < |doc.fields| && doc.fields[i] == ("$schemaVersion", Lookup(doc.fields, "$schemaVersion").value);
    assert MemberValid(doc.fields[i].0, doc.fields[i].1);
  }

  /**
   * The dictionary a key, string or path-segment pool writes (`toDict()`)
   * passes the `$dict` pattern: every id is the pool's letter and a decimal
   * counter, and every value is a string.
   */
  lemma PoolDictionaryValid(prefix: char, entries: seq<Pool.Entry>)
    requires prefix in "ksp"
    requires Pool.WellFormed(prefix, entries)
    ensures StringDictionary("ksp", Obj(Pool.DictFields(Pool.SortedEntries(entries))))
    ensures prefix == 'p' ==> StringDictionary("p", Obj(Pool.DictFields(Pool.SortedEntries(entries))))
  {
    var s := Pool.SortedEntries(entries);
    var d := Pool.DictFields(s);
    forall m | 0 <= m < |d| ensures IdKey("ksp", d[m].0) && d[m].0[0] == prefix && d[m].1.Str? {
      Pool.SortedLength(entries);
      assert s[m] in multiset(entries);
      var a :| 0 <= a < |entries| && entries[a] == s[m];
      assert d[m].0 == Pool.IdFor(prefix, a + 1);
    }
  }

  // ---------------------------------------------------------------------------
  // The schema with the `$meta` members the encoder writes
  // ---------------------------------------------------------------------------

  /**
   * One `$meta` member as the document type declares it: the three strings,
   * the two timings as numbers, and `features` and `decisions` as objects.
   */
  predicate MetaMemberCorrected(key: string, v: Json)
  {
    if key in MetaKeys then v.Str?
    else if key == "encodeMs" || key == "decodeMs" then v.Num?
    else if key == "features" || key == "decisions" then v.Obj?
    else false
  }

  predicate MetaMembersCorrected(fields: Fields)
  {
    forall i :: 0 <= i < |fields| ==> MetaMemberCorrected(fields[i].0, fields[i].1)
  }

  /** `$meta` with the members the document type declares. */
  predicate MetaValidCorrected(m: Json)
  {
    && m.Obj?
    && HasKey(m, "generatedAt") && HasKey(m, "producer")
    && MetaMembersCorrected(m.fields)
  }

  lemma MetaMembersAppend(a: Fields, b: Fields)
    requires MetaMembersCorrected(a) && MetaMembersCorrected(b)
    ensures MetaMembersCorrected(a + b)
  {
    forall i | 0 <= i < |a + b| ensures MetaMemberCorrected((a + b)[i].0, (a + b)[i].1) {
      if i >= |a| { assert (a + b)[i] == b[i - |a|]; }
    }
  }

  predicate MemberValidCorrected(key: string, v: Json)
  {
    if key == "$meta" then MetaValidCorrected(v) else MemberValid(key, v)
  }

  /** Every top-level member passes the corrected constraints. */
  predicate MembersValidCorrected(fields: Fields)
  {
    forall i :: 0 <= i < |fields| ==> MemberValidCorrected(fields[i].0, fields[i].1)
  }

  /** A document the schema accepts once `$meta` admits what the encoder writes. */
  predicate ValidCorrected(doc: Json)
  {
    && doc.Obj?
    && HasKey(doc, "$schemaVersion") && HasKey(doc, "$meta") && HasKey(doc, "data")
    && MembersValidCorrected(doc.fields)
  }

  /** The corrected schema differs from the published one only in `$meta`. */
  lemma CorrectedOnlyWidensMeta(doc: Json)
    ensures Valid(doc) ==> ValidCorrected(doc)
  {
    if Valid(doc) {
      forall i | 0 <= i < |doc.fields| ensures MemberValidCorrected(doc.fields[i].0, doc.fields[i].1) {
        assert MemberValid(doc.fields[i].0, doc.fields[i].1);
      }
    }
  }

  lemma MembersValidAppend(a: Fields, b: Fields)
    requires MembersValidCorrected(a) && MembersValidCorrected(b)
    ensures MembersValidCorrected(a + b)
  {
    forall i | 0 <= i < |a + b| ensures MemberValidCorrected((a + b)[i].0, (a + b)[i].1) {
      if i >= |a| { assert (a + b)[i] == b[i - |a|]; }
    }
  }

  /** Shape dictionaries written from a pool of shape keys pass `$shapes`. */
  lemma PoolShapesValid(entries: seq<Pool.Entry>)
    requires Pool.WellFormed('s', entries) && Shapes.AllShapeKeys(entries)
    ensures ShapesDictionary(Obj(Shapes.ShapesDictFields(Pool.SortedEntries(entries))))
  {
    var s := Pool.SortedEntries(entries);
    Shapes.SortedShapeEntries('s', entries);
    Shapes.ShapesDictMembers(s);
    var d := Shapes.ShapesDictFields(s);
    forall m | 0 <= m < |d| ensures IdKey("s", d[m].0) && StringList(d[m].1) {
      assert d[m] == Shapes.ShapeMember(s[m]);
      assert s[m] in multiset(entries);
      var a :| 0 <= a < |entries| && entries[a] == s[m];
      assert d[m].0 == Pool.IdFor('s', a + 1);
    }
  }
}
