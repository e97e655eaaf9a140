/**
 * `encodeJson(obj, opts)`: normalise the value with sorted keys, seed the key
 * pool with the preset keys, pool every data key, decide whether the key
 * dictionary, the path pool and the shape pool are applied, rewrite the data
 * with `replaceKeys`, and assemble the document with `$schemaVersion`,
 * `$meta`, the dictionaries in use and `data`.
 *
 * `EncodeSpec` is the whole encoder as a function of its input, its options
 * and the two clock readings; `EncodeJson` is the encoder as the source runs
 * it, filling the pools in place, and is proved to compute `EncodeSpec`. The
 * lemmas state what a caller can rely on: when it fails, how the document is
 * laid out, when the dictionary is applied, and that decoding gives the
 * normalised value back when neither the path nor the shape layer fired.
 */
module Encode {
  import opened Wrappers
  import opened Json
  import JsValues
  import Errors
  import Pool
  import Shapes
  import Paths
  import Normalization
  import NormalizeFacts
  import EncodeKeys
  import EncodePaths
  import EncodeShapes
  import Rewrite
  import Decode
  import Schema
  import Strings

  // ---------------------------------------------------------------------------
  // Options, environment and result
  // ---------------------------------------------------------------------------

  /**
   * The options `encodeJson` reads. `preset` "" stands for an absent preset
   * (both are falsy); `debug`, `enableValuePool`, `columnarThreshold` and
   * `adaptive` are never read by the source and are not represented.
   */
  datatype Options = Options(
    presetKeys: seq<string>,
    compact: bool,
    strict: bool,
    preset: string,
    pathMode: EncodePaths.Mode,      // enablePathPool, 'auto' by default
    shapeMode: EncodePaths.Mode)     // enableShapePool, 'auto' by default

  /** The defaults: no presets, not compact, lenient, both pools on 'auto'. */
  const DefaultOptions := Options([], false, false, "", EncodePaths.Auto, EncodePaths.Auto)

  /**
   * What the model takes as given: the limits `normalize` falls back to
   * (their values live in a constants file that is not part of this model),
   * and the two clock readings, `generatedAt` and the rounded `encodeMs`.
   */
  datatype Environment = Environment(maxDepth: nat, maxKeys: nat, maxArrayLength: nat, generatedAt: string, encodeMs: int)

  /**
   * `{ ok: false, code, message, hint }` or `{ ok: true, result }`. The error
   * fields are whatever was read from the error object, `None` for `undefined`.
   */
  datatype EncodeResult = Failed(code: Option<Json>, message: Option<Json>, hint: Option<Json>) | Ok(doc: Json)

  const Producer: string := "kb-tox@0.1.0"

  /** `normalize(obj, { sortKeys: true, strict })`. */
  function NormalizeOptions(opts: Options, env: Environment): (o: Normalization.Options)
    ensures o.sortKeys && o.strict == opts.strict
  {
    Normalization.Options(true, opts.strict, env.maxDepth, env.maxKeys, env.maxArrayLength)
  }

  /** An error the encoder returns or throws itself, as the result reports it. */
  function Thrown(e: Errors.ToxError): EncodeResult
  {
    Failed(Some(Str(Errors.CodeText(e.code))), Some(Str(e.message)), Some(Str(e.hint)))
  }

  /** `normalized.error.code`, `.message` and `.hint`, read off the reported error. */
  function Reported(error: Json): EncodeResult
  {
    Failed(Get(error, "code"), Get(error, "message"), Get(error, "hint"))
  }

  /**
   * An undefined normalised value (a lenient root object with an `error` key
   * and no `value` key) makes `JSON.stringify(undefined).length` throw a
   * TypeError, which the catch reports as an encode error without a hint.
   */
  const UndefinedData := Failed(Some(Str(Errors.CodeText(Errors.EncodeError))),
    Some(Str("Cannot read properties of undefined (reading 'length')")), None)

  // ---------------------------------------------------------------------------
  // The three layers
  // ---------------------------------------------------------------------------

  /** The key pool, its dictionary and `shouldUseDict`. */
  datatype KeyLayer = KeyLayer(entries: seq<Pool.Entry>, dict: Fields, useDict: bool)

  /** The path pool, its dictionary and `pathPoolDecision`. */
  datatype PathLayer = PathLayer(entries: seq<Pool.Entry>, dict: Fields, decision: EncodePaths.PathDecision)

  /** The shape analysis and `shapesDict` (empty when the pool is not used). */
  datatype ShapeLayer = ShapeLayer(state: EncodeShapes.ShapeState, dict: Fields)

  /** The key pool after the admitted presets and then every data key, and the dictionary decision. */
  function KeyLayerOf(opts: Options, data: Json): KeyLayer
  {
    var seeded := Pool.AddedAll('k', [], EncodeKeys.AdmittedPresets(opts.presetKeys));
    var entries := Pool.AddedAll('k', seeded, EncodeKeys.CollectedKeys(data));
    var dict := Pool.DictFields(Pool.SortedEntries(entries));
    KeyLayer(entries, dict, EncodeKeys.UseDict(opts.compact, |dict|, JsonLen(data), JsonLen(Obj(dict))))
  }

  /** The path pool is built only when wanted; once built, the decision weighs its dictionary. */
  function PathLayerOf(mode: EncodePaths.Mode, data: Json): PathLayer
  {
    var stats := Paths.AnalyzePaths(data);
    if EncodePaths.PathPoolWanted(mode, stats) then
      var entries := Pool.AddedAll('p', [], EncodePaths.CollectedSegments(data));
      var dict := Pool.DictFields(Pool.SortedEntries(entries));
      PathLayer(entries, dict, EncodePaths.DecidePathPool(mode, stats, dict))
    else PathLayer([], [], EncodePaths.NotBuilt)
  }

  /** The shape analysis runs unless the pool is switched off. */
  function ShapeLayerOf(mode: EncodePaths.Mode, data: Json): ShapeLayer
  {
    if mode.Off? then ShapeLayer(EncodeShapes.Initial, [])
    else
      var st := EncodeShapes.Analyze(mode, data, "<root>", "", EncodeShapes.Initial);
      ShapeLayer(st, if st.used then Shapes.ShapesDictFields(Pool.SortedEntries(st.entries)) else [])
  }

  /** What `replaceKeys` reads from the three layers. */
  function ContextOf(opts: Options, keys: KeyLayer, paths: PathLayer, shapes: ShapeLayer): Rewrite.Context
  {
    Rewrite.Context(opts.strict, keys.useDict, keys.entries, paths.decision.enabled, paths.entries, shapes.state.table)
  }

  // ---------------------------------------------------------------------------
  // The document
  // ---------------------------------------------------------------------------

  /** `pathPoolDecision` without its two floating-point ratios. */
  function PathDecisionJson(d: EncodePaths.PathDecision): Json
  {
    Obj([("enabled", Bool(d.enabled)), ("savings", Num(d.savings))])
  }

  /** `shapePoolDecision` without its floating-point uniformity. */
  function ShapeDecisionJson(d: EncodeShapes.ShapeDecision): Json
  {
    Obj([("enabled", Bool(d.enabled)), ("arrayName", Str(d.arrayName)), ("n", Num(d.n)), ("savings", Num(d.savings))])
  }

  /** `features`: the pools that were applied. */
  function Features(paths: PathLayer, shapes: ShapeLayer): Fields
  {
    (if paths.decision.enabled then [("pathPool", Bool(true))] else [])
    + (if shapes.state.used then [("shapePool", Bool(true))] else [])
  }

  /** `decisions`: the path decision unless that pool is off, the shape decision once it counted rows. */
  function Decisions(opts: Options, paths: PathLayer, shapes: ShapeLayer): Fields
  {
    (if !opts.pathMode.Off? then [("pathPool", PathDecisionJson(paths.decision))] else [])
    + (if !opts.shapeMode.Off? && shapes.state.decision.n > 0 then [("shapePool", ShapeDecisionJson(shapes.state.decision))] else [])
  }

  /** `$meta`, with `preset`, `features` and `decisions` only when non-empty. */
  function MetaOf(generatedAt: string, encodeMs: int, preset: string, features: Fields, decisions: Fields): Json
  {
    Obj([("generatedAt", Str(generatedAt)), ("producer", Str(Producer)), ("encodeMs", Num(encodeMs))]
      + (if preset != "" then [("preset", Str(preset))] else [])
      + (if features != [] then [("features", Obj(features))] else [])
      + (if decisions != [] then [("decisions", Obj(decisions))] else []))
  }

  /** The `$meta` of one encode. */
  function Meta(opts: Options, env: Environment, paths: PathLayer, shapes: ShapeLayer): Json
  {
    MetaOf(env.generatedAt, env.encodeMs, opts.preset, Features(paths, shapes), Decisions(opts, paths, shapes))
  }

  /** `$dict`, `$pathDict` and `$shapes`, each only when its layer is applied and non-empty. */
  function Dictionaries(keys: KeyLayer, paths: PathLayer, shapes: ShapeLayer): Fields
  {
    (if keys.useDict && keys.dict != [] then [("$dict", Obj(keys.dict))] else [])
    + (if paths.decision.enabled && paths.dict != [] then [("$pathDict", Obj(paths.dict))] else [])
    + (if shapes.state.used && shapes.dict != [] then [("$shapes", Obj(shapes.dict))] else [])
  }

  /** The members ahead of the dictionaries. */
  function Head(opts: Options, env: Environment, paths: PathLayer, shapes: ShapeLayer): Fields
  {
    [("$schemaVersion", Str("1.0")), ("$meta", Meta(opts, env, paths, shapes))]
  }

  function Document(opts: Options, env: Environment, keys: KeyLayer, paths: PathLayer, shapes: ShapeLayer, data: Json): Json
  {
    Obj(Head(opts, env, paths, shapes) + Dictionaries(keys, paths, shapes) + [("data", data)])
  }

  // ---------------------------------------------------------------------------
  // encodeJson
  // ---------------------------------------------------------------------------

  /** Everything after the normalised value is known to be defined. */
  function EncodeData(opts: Options, env: Environment, data: Json): EncodeResult
  {
    var keys := KeyLayerOf(opts, data);
    var paths := PathLayerOf(opts.pathMode, data);
    var shapes := ShapeLayerOf(opts.shapeMode, data);
    match Rewrite.Replace(ContextOf(opts, keys, paths, shapes), data, "<root>")
    case Failure(e) => Thrown(e)
    case Success(out) => Ok(Document(opts, env, keys, paths, shapes, out))
  }

  /**
   * `encodeJson(obj, opts)`: a reported normalisation error first, then a
   * reserved preset key in strict mode, then an undefined normalised value,
   * and otherwise the document or the error `replaceKeys` throws.
   */
  function EncodeSpec(opts: Options, env: Environment, input: JsValues.JsValue): EncodeResult
  {
    var normalized := Normalization.Normalize(NormalizeOptions(opts, env), input);
    if TruthyOpt(normalized.error) then Reported(normalized.error.value)
    else if opts.strict && EncodeKeys.FirstReserved(opts.presetKeys).Some? then
      Thrown(EncodeKeys.PresetViolation(opts.presetKeys, EncodeKeys.FirstReserved(opts.presetKeys).value))
    else if normalized.value.None? then UndefinedData
    else EncodeData(opts, env, normalized.value.value)
  }

  /** `encodeJson` as the source runs it, with the pools filled in place. */
  method EncodeJson(opts: Options, env: Environment, input: JsValues.JsValue) returns (r: EncodeResult)
    ensures r == EncodeSpec(opts, env, input)
  {
    var normalized := Normalization.Normalize(NormalizeOptions(opts, env), input);
    if TruthyOpt(normalized.error) {
      return Reported(normalized.error.value);
    }
    var keyPool := new Pool.InternPool('k');
    var err := EncodeKeys.SeedPresets(keyPool, opts.presetKeys, opts.strict);
    if err.Some? {
      return Thrown(err.value);
    }
    if normalized.value.None? {
      return UndefinedData;
    }
    var data := normalized.value.value;
    EncodeKeys.CollectKeys(keyPool, data);
    var dict := keyPool.ToDict();
    var keys := KeyLayer(keyPool.entries, dict, EncodeKeys.UseDict(opts.compact, |dict|, JsonLen(data), JsonLen(Obj(dict))));
    var paths := BuildPathLayer(opts.pathMode, data);
    var shapes := BuildShapeLayer(opts.shapeMode, data);
    var out := Rewrite.Replace(ContextOf(opts, keys, paths, shapes), data, "<root>");
    if out.Failure? {
      return Thrown(out.error);
    }
    return Ok(Document(opts, env, keys, paths, shapes, out.value));
  }

  /** `analyzePaths`, and when wanted a fresh `PathPool`, `collectPaths`, `toDict` and the decision. */
  method BuildPathLayer(mode: EncodePaths.Mode, data: Json) returns (layer: PathLayer)
    ensures layer == PathLayerOf(mode, data)
  {
    var stats := Paths.AnalyzePaths(data);
    if !EncodePaths.PathPoolWanted(mode, stats) {
      return PathLayer([], [], EncodePaths.NotBuilt);
    }
    var pool := new Pool.InternPool('p');
    EncodePaths.CollectPaths(pool, data);
    var dict := pool.ToDict();
    return PathLayer(pool.entries, dict, EncodePaths.DecidePathPool(mode, stats, dict));
  }

  /** A fresh `ShapePool`, `analyzeArrays(normalized.value)` and, when used, `toShapesDict()`. */
  method BuildShapeLayer(mode: EncodePaths.Mode, data: Json) returns (layer: ShapeLayer)
    ensures layer == ShapeLayerOf(mode, data)
  {
    if mode.Off? {
      return ShapeLayer(EncodeShapes.Initial, []);
    }
    var analysis := new EncodeShapes.ShapeAnalysis(mode);
    analysis.AnalyzeArrays(data, "<root>", "");
    var dict: Fields := [];
    if analysis.used {
      dict := Shapes.ToShapesDict(analysis.pool);
    }
    return ShapeLayer(analysis.State(), dict);
  }

  // ---------------------------------------------------------------------------
  // How the document is laid out
  // ---------------------------------------------------------------------------

  /** Looking a key up past a member that may or may not be there. */
  lemma OptionalLookup(present: bool, k0: string, v0: Json, rest: Fields, k: string)
    ensures Lookup((if present then [(k0, v0)] else []) + rest, k)
      == if present && k == k0 then Some(v0) else Lookup(rest, k)
  {
    if present {
      assert ([(k0, v0)] + rest)[1..] == rest;
    } else {
      assert [] + rest == rest;
    }
  }

  /** Looking a key up in the dictionaries followed by `data`. */
  lemma DictionariesLookup(keys: KeyLayer, paths: PathLayer, shapes: ShapeLayer, data: Json, k: string)
    ensures Lookup(Dictionaries(keys, paths, shapes) + [("data", data)], k) ==
      if keys.useDict && keys.dict != [] && k == "$dict" then Some(Obj(keys.dict))
      else if paths.decision.enabled && paths.dict != [] && k == "$pathDict" then Some(Obj(paths.dict))
      else if shapes.state.used && shapes.dict != [] && k == "$shapes" then Some(Obj(shapes.dict))
      else if k == "data" then Some(data)
      else None
  {
    var p1 := keys.useDict && keys.dict != [];
    var p2 := paths.decision.enabled && paths.dict != [];
    var p3 := shapes.state.used && shapes.dict != [];
    var d1: Fields := if p1 then [("$dict", Obj(keys.dict))] else [];
    var d2: Fields := if p2 then [("$pathDict", Obj(paths.dict))] else [];
    var d3: Fields := if p3 then [("$shapes", Obj(shapes.dict))] else [];
    var tail: Fields := [("data", data)];
    assert Dictionaries(keys, paths, shapes) == d1 + d2 + d3;
    Regroup(d1, d2, d3, tail);
    OptionalLookup(p1, "$dict", Obj(keys.dict), d2 + (d3 + tail), k);
    OptionalLookup(p2, "$pathDict", Obj(paths.dict), d3 + tail, k);
    OptionalLookup(p3, "$shapes", Obj(shapes.dict), tail, k);
    OptionalLookup(true, "data", data, [], k);
    assert tail == [("data", data)] + [];
  }

  lemma Regroup(a: Fields, b: Fields, c: Fields, d: Fields)
    ensures a + b + c + d == a + (b + (c + d))
  {
  }

  /** Looking a key up past the two head members. */
  lemma HeadLookup(version: Json, meta: Json, rest: Fields, k: string)
    ensures Lookup([("$schemaVersion", version), ("$meta", meta)] + rest, k) ==
      if k == "$schemaVersion" then Some(version) else if k == "$meta" then Some(meta) else Lookup(rest, k)
  {
    assert [("$schemaVersion", version), ("$meta", meta)] + rest == [("$schemaVersion", version)] + ([("$meta", meta)] + rest);
    OptionalLookup(true, "$schemaVersion", version, [("$meta", meta)] + rest, k);
    OptionalLookup(true, "$meta", meta, rest, k);
  }

  /** What reading each top-level member of the document gives. */
  lemma DocumentParts(opts: Options, env: Environment, keys: KeyLayer, paths: PathLayer, shapes: ShapeLayer, data: Json)
    ensures var doc := Document(opts, env, keys, paths, shapes, data);
      && Get(doc, "$schemaVersion") == Some(Str("1.0"))
      && Get(doc, "$meta") == Some(Meta(opts, env, paths, shapes))
      && Get(doc, "data") == Some(data)
      && Get(doc, "$dict") == (if keys.useDict && keys.dict != [] then Some(Obj(keys.dict)) else None)
      && (HasKey(doc, "$pathDict") <==> paths.decision.enabled && paths.dict != [])
      && (HasKey(doc, "$shapes") <==> shapes.state.used && shapes.dict != [])
  {
    var meta := Meta(opts, env, paths, shapes);
    var rest := Dictionaries(keys, paths, shapes) + [("data", data)];
    assert Document(opts, env, keys, paths, shapes, data).fields == [("$schemaVersion", Str("1.0")), ("$meta", meta)] + rest;
    HeadLookup(Str("1.0"), meta, rest, "$schemaVersion");
    HeadLookup(Str("1.0"), meta, rest, "$meta");
    HeadLookup(Str("1.0"), meta, rest, "data");
    HeadLookup(Str("1.0"), meta, rest, "$dict");
    HeadLookup(Str("1.0"), meta, rest, "$pathDict");
    HeadLookup(Str("1.0"), meta, rest, "$shapes");
    DictionariesLookup(keys, paths, shapes, data, "data");
    DictionariesLookup(keys, paths, shapes, data, "$dict");
    DictionariesLookup(keys, paths, shapes, data, "$pathDict");
    DictionariesLookup(keys, paths, shapes, data, "$shapes");
  }

  /** `$meta` records the clock readings and the producer, and the preset when one was named. */
  lemma MetaParts(generatedAt: string, encodeMs: int, preset: string, features: Fields, decisions: Fields)
    ensures var meta := MetaOf(generatedAt, encodeMs, preset, features, decisions);
      && Get(meta, "generatedAt") == Some(Str(generatedAt))
      && Get(meta, "producer") == Some(Str(Producer))
      && Get(meta, "encodeMs") == Some(Num(encodeMs))
      && (HasKey(meta, "preset") <==> preset != "")
  {
    var f: Fields := if features != [] then [("features", Obj(features))] else [];
    var d: Fields := if decisions != [] then [("decisions", Obj(decisions))] else [];
    var rest := (if preset != "" then [("preset", Str(preset))] else []) + (f + d);
    var tail := [("producer", Str(Producer))] + ([("encodeMs", Num(encodeMs))] + rest);
    assert MetaOf(generatedAt, encodeMs, preset, features, decisions).fields == [("generatedAt", Str(generatedAt))] + tail;
    OptionalLookup(true, "generatedAt", Str(generatedAt), tail, "producer");
    OptionalLookup(true, "generatedAt", Str(generatedAt), tail, "encodeMs");
    OptionalLookup(true, "generatedAt", Str(generatedAt), tail, "preset");
    OptionalLookup(true, "producer", Str(Producer), [("encodeMs", Num(encodeMs))] + rest, "encodeMs");
    OptionalLookup(true, "producer", Str(Producer), [("encodeMs", Num(encodeMs))] + rest, "preset");
    OptionalLookup(true, "encodeMs", Num(encodeMs), rest, "preset");
    OptionalLookup(preset != "", "preset", Str(preset), f + d, "preset");
    OptionalLookup(features != [], "features", Obj(features), d, "preset");
    OptionalLookup(decisions != [], "decisions", Obj(decisions), [], "preset");
    assert d == d + [];
  }
  /** The `preset` member of the meta is the label when one is given. */
  lemma MetaPreset(generatedAt: string, encodeMs: int, preset: string, features: Fields, decisions: Fields)
    requires preset != ""
    ensures Get(MetaOf(generatedAt, encodeMs, preset, features, decisions), "preset") == Some(Str(preset))
  {
    var f: Fields := if features != [] then [("features", Obj(features))] else [];
    var d: Fields := if decisions != [] then [("decisions", Obj(decisions))] else [];
    var rest := [("preset", Str(preset))] + (f + d);
    var tail := [("producer", Str(Producer))] + ([("encodeMs", Num(encodeMs))] + rest);
    assert MetaOf(generatedAt, encodeMs, preset, features, decisions).fields == [("generatedAt", Str(generatedAt))] + tail;
    OptionalLookup(true, "generatedAt", Str(generatedAt), tail, "preset");
    OptionalLookup(true, "producer", Str(Producer), [("encodeMs", Num(encodeMs))] + rest, "preset");
    OptionalLookup(true, "encodeMs", Num(encodeMs), rest, "preset");
    OptionalLookup(true, "preset", Str(preset), f + d, "preset");
  }


  /** Once the rewrite succeeds, the encoder returns the assembled document. */
  lemma EncodedAs(opts: Options, env: Environment, data: Json, out: Json)
    requires Rewrite.Replace(ContextOf(opts, KeyLayerOf(opts, data), PathLayerOf(opts.pathMode, data), ShapeLayerOf(opts.shapeMode, data)),
      data, "<root>") == Success(out)
    ensures EncodeData(opts, env, data) ==
      Ok(Document(opts, env, KeyLayerOf(opts, data), PathLayerOf(opts.pathMode, data), ShapeLayerOf(opts.shapeMode, data), out))
  {
  }

  /** Decoding an assembled document resolves its data against `$dict` when it is there. */
  lemma DecodedDocument(opts: Options, env: Environment, keys: KeyLayer, paths: PathLayer, shapes: ShapeLayer, out: Json,
                        rule: (Json, string) -> string)
    ensures Decode.DecodeBy(Document(opts, env, keys, paths, shapes, out), rule) ==
      Success(Some(Decode.Resolve(rule, if keys.useDict && keys.dict != [] then Obj(keys.dict) else Obj([]), out)))
  {
    var doc := Document(opts, env, keys, paths, shapes, out);
    var dict := if keys.useDict && keys.dict != [] then Obj(keys.dict) else Obj([]);
    DocumentParts(opts, env, keys, paths, shapes, out);
    assert doc.Obj?;
    assert Decode.DictOf(doc) == dict;
    Decode.DecodeByParts(doc, rule, dict, out);
  }

  /**
   * A document the encoder returns has version "1.0", the producer, the
   * rewritten data, `$dict` exactly when the dictionary was applied (which is
   * when it is non-empty and forced by `compact` or worth it on data of at
   * least 2000 characters), and `$pathDict` or `$shapes` only when that layer
   * was applied.
   */
  lemma DocumentLayout(opts: Options, env: Environment, data: Json)
    requires EncodeData(opts, env, data).Ok?
    ensures var doc := EncodeData(opts, env, data).doc;
      var keys := KeyLayerOf(opts, data);
      var ctx := ContextOf(opts, keys, PathLayerOf(opts.pathMode, data), ShapeLayerOf(opts.shapeMode, data));
      && Get(doc, "$schemaVersion") == Some(Str("1.0"))
      && Get(Get(doc, "$meta").value, "producer") == Some(Str(Producer))
      && Get(doc, "data") == Some(Rewrite.Replace(ctx, data, "<root>").value)
      && (HasKey(doc, "$dict") <==>
            keys.dict != [] && (opts.compact || (JsonLen(data) >= 2000 && 10 * (150 + JsonLen(Obj(keys.dict))) < 3 * JsonLen(data))))
      && (HasKey(doc, "$dict") ==> Get(doc, "$dict") == Some(Obj(keys.dict)))
      && (HasKey(doc, "$pathDict") ==> PathLayerOf(opts.pathMode, data).decision.enabled)
      && (HasKey(doc, "$shapes") ==> ShapeLayerOf(opts.shapeMode, data).state.used)
  {
    var keys := KeyLayerOf(opts, data);
    var paths := PathLayerOf(opts.pathMode, data);
    var shapes := ShapeLayerOf(opts.shapeMode, data);
    var out := Rewrite.Replace(ContextOf(opts, keys, paths, shapes), data, "<root>").value;
    DocumentParts(opts, env, keys, paths, shapes, out);
    MetaParts(env.generatedAt, env.encodeMs, opts.preset, Features(paths, shapes), Decisions(opts, paths, shapes));
    EncodeKeys.UseDictCharacterised(opts.compact, |keys.dict|, JsonLen(data), JsonLen(Obj(keys.dict)));
  }

  /**
   * A successful encode records the `preset` option in `$meta` exactly when
   * it was given (a non-empty label), and records it as given.
   */
  lemma PresetRecorded(opts: Options, env: Environment, input: JsValues.JsValue)
    requires EncodeSpec(opts, env, input).Ok?
    ensures var meta := Get(EncodeSpec(opts, env, input).doc, "$meta");
      && meta.Some?
      && (HasKey(meta.value, "preset") <==> opts.preset != "")
      && (opts.preset != "" ==> Get(meta.value, "preset") == Some(Str(opts.preset)))
  {
    var data := Normalization.Normalize(NormalizeOptions(opts, env), input).value.value;
    var keys := KeyLayerOf(opts, data);
    var paths := PathLayerOf(opts.pathMode, data);
    var shapes := ShapeLayerOf(opts.shapeMode, data);
    var out := Rewrite.Replace(ContextOf(opts, keys, paths, shapes), data, "<root>").value;
    assert EncodeSpec(opts, env, input) == Ok(Document(opts, env, keys, paths, shapes, out));
    DocumentParts(opts, env, keys, paths, shapes, out);
    MetaParts(env.generatedAt, env.encodeMs, opts.preset, Features(paths, shapes), Decisions(opts, paths, shapes));
    if opts.preset != "" {
      MetaPreset(env.generatedAt, env.encodeMs, opts.preset, Features(paths, shapes), Decisions(opts, paths, shapes));
    }
  }

  // ---------------------------------------------------------------------------
  // When encoding fails
  // ---------------------------------------------------------------------------

  /**
   * In strict mode, once normalisation reports nothing, the first reserved
   * preset key stops the encode with a strict-mode violation whose hint is
   * `presetKeys[i]`.
   */
  lemma ReservedPresetRejected(opts: Options, env: Environment, input: JsValues.JsValue, i: nat)
    requires !TruthyOpt(Normalization.Normalize(NormalizeOptions(opts, env), input).error)
    requires opts.strict && i < |opts.presetKeys| && EncodeKeys.Reserved(opts.presetKeys[i])
    requires forall j :: 0 <= j < i ==> !EncodeKeys.Reserved(opts.presetKeys[j])
    ensures EncodeSpec(opts, env, input) == Failed(
      Some(Str(Errors.CodeText(Errors.StrictModeViolation))),
      Some(Str("Reserved key '" + opts.presetKeys[i] + "' cannot be used in preset")),
      Some(Str("presetKeys[" + Strings.NatToString(i) + "]")))
  {
    EncodeKeys.FirstReservedAt(opts.presetKeys, i);
  }

  /**
   * A lenient encode of a defined value never fails: reserved keys, in the
   * presets or in the data, are skipped rather than reported. Items a long
   * array hands back raw must be writable as JSON; a BigInt or a cycle among
   * them makes the encoder fail with `ENCODE_ERROR`.
   */
  lemma LenientNeverFails(opts: Options, env: Environment, input: JsValues.JsValue)
    requires !opts.strict
    requires Normalization.Normalize(NormalizeOptions(opts, env), input).value.Some?
    requires Normalization.RawItemsStringifiable(env.maxArrayLength, input, {})
    ensures EncodeSpec(opts, env, input).Ok?
  {
    NormalizeFacts.ErrorsOnlyWhenStrict(NormalizeOptions(opts, env), input);
  }

  /**
   * Two inputs holding the same plain data within the limits, the members of
   * their objects written in different orders, encode to the same document:
   * the encoder sorts every object's keys before anything else sees them.
   */
  lemma EncodeOrderFree(opts: Options, env: Environment, v: JsValues.JsValue, w: JsValues.JsValue)
    requires var n := NormalizeOptions(opts, env);
      && NormalizeFacts.PlainData(v) && NormalizeFacts.TreeShaped(v)
      && NormalizeFacts.Fits(n, v, 0) && NormalizeFacts.KeyTotal(v) <= n.maxKeys
    requires var n := NormalizeOptions(opts, env);
      && NormalizeFacts.PlainData(w) && NormalizeFacts.TreeShaped(w)
      && NormalizeFacts.Fits(n, w, 0) && NormalizeFacts.KeyTotal(w) <= n.maxKeys
    requires NormalizeFacts.SameUpToOrder(v, w)
    ensures EncodeSpec(opts, env, v) == EncodeSpec(opts, env, w)
  {
    var n := NormalizeOptions(opts, env);
    NormalizeFacts.PlainNormalizeResult(n, v);
    NormalizeFacts.PlainNormalizeResult(n, w);
    NormalizeFacts.CanonOrderFree(n, v, w);
  }

  /**
   * Without an encoded array, a strict encode of data holding a reserved key
   * anywhere fails with a strict-mode violation, and data without one is
   * encoded.
   */
  lemma StrictReservedData(opts: Options, env: Environment, data: Json)
    requires opts.strict
    requires ShapeLayerOf(opts.shapeMode, data).state.table == map[]
    ensures EncodeData(opts, env, data).Failed? <==> Rewrite.HasReserved(data)
    ensures EncodeData(opts, env, data).Failed? ==>
      EncodeData(opts, env, data).code == Some(Str(Errors.CodeText(Errors.StrictModeViolation)))
  {
    var ctx := ContextOf(opts, KeyLayerOf(opts, data), PathLayerOf(opts.pathMode, data), ShapeLayerOf(opts.shapeMode, data));
    Rewrite.FailsIffReserved(ctx, data, "<root>");
  }

  // ---------------------------------------------------------------------------
  // Decoding gives the value back
  // ---------------------------------------------------------------------------

  /** The key pool is well formed and holds every non-reserved key of the data. */
  lemma KeyPoolFacts(opts: Options, data: Json)
    ensures Pool.WellFormed('k', KeyLayerOf(opts, data).entries)
    ensures EncodeKeys.KeysPooled(KeyLayerOf(opts, data).entries, data)
  {
    var seeded := Pool.AddedAll('k', [], EncodeKeys.AdmittedPresets(opts.presetKeys));
    Pool.AddedAllWellFormed('k', [], EncodeKeys.AdmittedPresets(opts.presetKeys));
    Pool.AddedAllWellFormed('k', seeded, EncodeKeys.CollectedKeys(data));
    EncodeKeys.CollectKeysPoolsAll(seeded, data);
  }

  /** The dictionary of a key pool maps the id of every pooled key back to the key. */
  lemma DictNamesKey(entries: seq<Pool.Entry>, key: string)
    requires Pool.WellFormed('k', entries) && Pool.IdOf(entries, key).Some?
    ensures Lookup(Pool.DictFields(Pool.SortedEntries(entries)), Pool.IdOf(entries, key).value) == Some(Str(key))
  {
    Pool.DictLookups('k', entries);
    var i := Pool.FindValue(entries, key).value;
    assert entries[i].id == Pool.IdOf(entries, key).value;
  }

  /** No object anywhere in `v` has the empty key. */
  predicate NoEmptyKey(v: Json)
    decreases v
  {
    match v
    case Arr(items) => forall i :: 0 <= i < |items| ==> NoEmptyKey(items[i])
    case Obj(fields) => forall i :: 0 <= i < |fields| ==> fields[i].0 != "" && NoEmptyKey(fields[i].1)
    case _ => true
  }

  /**
   * With every key pooled and none reserved, the dictionary resolves every
   * id back to its key when read as own string members, and also as the
   * decoder reads it when no key is empty.
   */
  lemma {:induction false} PooledResolvesBack(entries: seq<Pool.Entry>, v: Json)
    requires Pool.WellFormed('k', entries)
    requires EncodeKeys.KeysPooled(entries, v) && !Rewrite.HasReserved(v)
    ensures Rewrite.ResolvesBack(Decode.CorrectedKey, Obj(Pool.DictFields(Pool.SortedEntries(entries))), entries, v)
    ensures NoEmptyKey(v) ==>
      Rewrite.ResolvesBack(Decode.AsWrittenKey, Obj(Pool.DictFields(Pool.SortedEntries(entries))), entries, v)
    decreases v
  {
    var dict := Obj(Pool.DictFields(Pool.SortedEntries(entries)));
    match v
    case Arr(items) =>
      forall i | 0 <= i < |items|
        ensures Rewrite.ResolvesBack(Decode.CorrectedKey, dict, entries, items[i])
        ensures NoEmptyKey(v) ==> Rewrite.ResolvesBack(Decode.AsWrittenKey, dict, entries, items[i])
      {
        assert !Rewrite.HasReserved(items[i]);
        PooledResolvesBack(entries, items[i]);
      }
    case Obj(fields) =>
      forall i | 0 <= i < |fields|
        ensures Pool.IdOf(entries, fields[i].0).Some?
        ensures Decode.CorrectedKey(dict, Pool.IdOf(entries, fields[i].0).value) == fields[i].0
        ensures Rewrite.ResolvesBack(Decode.CorrectedKey, dict, entries, fields[i].1)
        ensures NoEmptyKey(v) ==> Decode.AsWrittenKey(dict, Pool.IdOf(entries, fields[i].0).value) == fields[i].0
        ensures NoEmptyKey(v) ==> Rewrite.ResolvesBack(Decode.AsWrittenKey, dict, entries, fields[i].1)
      {
        assert !Rewrite.ReservedMember(fields[i]);
        assert fields[i] in fields && fields[i].1 < fields[i];
        DictNamesKey(entries, fields[i].0);
        PooledResolvesBack(entries, fields[i].1);
      }
    case _ =>
  }

  /**
   * The key-dictionary round trip: for well-keyed data without reserved keys,
   * where neither the path pool nor the shape pool fired, the encode succeeds
   * and decoding (with the dictionary read as own string members) gives the
   * data back, whether or not the dictionary was applied.
   */
  lemma RoundTrip(opts: Options, env: Environment, data: Json, strict: bool)
    requires WellKeyed(data) && !Rewrite.HasReserved(data)
    requires !PathLayerOf(opts.pathMode, data).decision.enabled
    requires ShapeLayerOf(opts.shapeMode, data).state.table == map[]
    ensures EncodeData(opts, env, data).Ok?
    ensures Decode.DecodeJsonCorrected(EncodeData(opts, env, data).doc, strict) == Success(Some(data))
  {
    var keys := KeyLayerOf(opts, data);
    var paths := PathLayerOf(opts.pathMode, data);
    var shapes := ShapeLayerOf(opts.shapeMode, data);
    var ctx := ContextOf(opts, keys, paths, shapes);
    KeyPoolFacts(opts, data);
    if keys.useDict {
      EncodeKeys.UseDictCharacterised(opts.compact, |keys.dict|, JsonLen(data), JsonLen(Obj(keys.dict)));
      var dict := Obj(keys.dict);
      PooledResolvesBack(keys.entries, data);
      Rewrite.ResolveUndoesReplace(ctx, Decode.CorrectedKey, dict, data, "<root>");
      var out := Rewrite.Replace(ctx, data, "<root>").value;
      DocumentParts(opts, env, keys, paths, shapes, out);
      assert Decode.DictOf(Document(opts, env, keys, paths, shapes, out)) == dict;
    } else {
      Rewrite.ReplaceIdentity(ctx, data, "<root>");
      DocumentParts(opts, env, keys, paths, shapes, data);
      Decode.NoDictionaryDecodesToDataCorrected(Document(opts, env, keys, paths, shapes, data), strict);
    }
  }

  /**
   * The same round trip through the decoder as written holds only for data
   * without an empty key (an id mapped to "" is falsy and left in place) and
   * without a key named like an Object.prototype member (such a key is
   * rewritten even without a dictionary).
   */
  lemma RoundTripAsWritten(opts: Options, env: Environment, data: Json, strict: bool)
    requires WellKeyed(data) && !Rewrite.HasReserved(data)
    requires NoEmptyKey(data) && Decode.NoInheritedKeys(data)
    requires !PathLayerOf(opts.pathMode, data).decision.enabled
    requires ShapeLayerOf(opts.shapeMode, data).state.table == map[]
    ensures EncodeData(opts, env, data).Ok?
    ensures Decode.DecodeJson(EncodeData(opts, env, data).doc, strict) == Success(Some(data))
  {
    var keys := KeyLayerOf(opts, data);
    var paths := PathLayerOf(opts.pathMode, data);
    var shapes := ShapeLayerOf(opts.shapeMode, data);
    var ctx := ContextOf(opts, keys, paths, shapes);
    KeyPoolFacts(opts, data);
    if keys.useDict {
      EncodeKeys.UseDictCharacterised(opts.compact, |keys.dict|, JsonLen(data), JsonLen(Obj(keys.dict)));
      var dict := Obj(keys.dict);
      PooledResolvesBack(keys.entries, data);
      Rewrite.ResolveUndoesReplace(ctx, Decode.AsWrittenKey, dict, data, "<root>");
      var out := Rewrite.Replace(ctx, data, "<root>").value;
      DocumentParts(opts, env, keys, paths, shapes, out);
      assert Decode.DictOf(Document(opts, env, keys, paths, shapes, out)) == dict;
    } else {
      Rewrite.ReplaceIdentity(ctx, data, "<root>");
      DocumentParts(opts, env, keys, paths, shapes, data);
      Decode.NoDictionaryDecodesToData(Document(opts, env, keys, paths, shapes, data), strict);
    }
  }

  /**
   * From the caller's side: plain data that fits the limits normalises to its
   * canonical form, and when that form has no reserved key and neither the
   * path nor the shape layer fires, decoding the encoded document gives it
   * back.
   */
  lemma InputRoundTrip(opts: Options, env: Environment, v: JsValues.JsValue, strict: bool)
    requires NormalizeFacts.PlainData(v) && NormalizeFacts.TreeShaped(v)
    requires NormalizeFacts.Fits(NormalizeOptions(opts, env), v, 0) && NormalizeFacts.KeyTotal(v) <= env.maxKeys
    requires !(opts.strict && EncodeKeys.FirstReserved(opts.presetKeys).Some?)
    requires var canon := NormalizeFacts.Canon(NormalizeOptions(opts, env), v);
      && !Rewrite.HasReserved(canon)
      && !PathLayerOf(opts.pathMode, canon).decision.enabled
      && ShapeLayerOf(opts.shapeMode, canon).state.table == map[]
    ensures EncodeSpec(opts, env, v).Ok?
    ensures Decode.DecodeJsonCorrected(EncodeSpec(opts, env, v).doc, strict)
      == Success(Some(NormalizeFacts.Canon(NormalizeOptions(opts, env), v)))
  {
    var nopts := NormalizeOptions(opts, env);
    NormalizeFacts.PlainNormalizeResult(nopts, v);
    NormalizeFacts.CanonWellKeyed(nopts, v);
    RoundTrip(opts, env, NormalizeFacts.Canon(nopts, v), strict);
  }

  // ---------------------------------------------------------------------------
  // The empty key
  // ---------------------------------------------------------------------------

  /** A non-reserved member key of the data gets a non-empty id, and the dictionary names the key under it. */
  lemma MemberKeyPooled(opts: Options, data: Json, i: nat)
    requires data.Obj? && i < |data.fields| && !EncodeKeys.Reserved(data.fields[i].0)
    ensures var keys := KeyLayerOf(opts, data);
      var key := data.fields[i].0;
      && Pool.IdOf(keys.entries, key).Some?
      && Pool.IdOf(keys.entries, key).value != ""
      && Lookup(keys.dict, Pool.IdOf(keys.entries, key).value) == Some(Str(key))
      && keys.dict != []
  {
    var keys := KeyLayerOf(opts, data);
    var key := data.fields[i].0;
    KeyPoolFacts(opts, data);
    assert Pool.IdOf(keys.entries, key).Some?;
    var j := Pool.FindValue(keys.entries, key).value;
    assert keys.entries[j].id == Pool.IdFor('k', j + 1);
    DictNamesKey(keys.entries, key);
    Pool.SortedLength(keys.entries);
  }

  /** Forced, the dictionary is applied and maps the empty key's id, which is not empty, to "". */
  lemma EmptyKeyPooled(opts: Options, n: int)
    requires opts.compact
    ensures var keys := KeyLayerOf(opts, Obj([("", Num(n))]));
      && keys.useDict
      && Pool.IdOf(keys.entries, "").Some?
      && Pool.IdOf(keys.entries, "").value != ""
      && Lookup(keys.dict, Pool.IdOf(keys.entries, "").value) == Some(Str(""))
  {
    assert !EncodeKeys.Reserved("");
    OneKeyPooled(opts, "", n);
  }

  lemma OneKeyPooled(opts: Options, key: string, n: int)
    requires opts.compact && !EncodeKeys.Reserved(key)
    ensures var keys := KeyLayerOf(opts, Obj([(key, Num(n))]));
      && keys.useDict
      && Pool.IdOf(keys.entries, key).Some?
      && Pool.IdOf(keys.entries, key).value != ""
      && Lookup(keys.dict, Pool.IdOf(keys.entries, key).value) == Some(Str(key))
  {
    var data := Obj([(key, Num(n))]);
    assert data.fields[0].0 == key;
    MemberKeyPooled(opts, data, 0);
    CompactUsesDict(opts, data);
  }

  /** Forced compact mode applies a non-empty dictionary, whatever the sizes. */
  lemma CompactUsesDict(opts: Options, data: Json)
    requires opts.compact && KeyLayerOf(opts, data).dict != []
    ensures KeyLayerOf(opts, data).useDict
  {
    var keys := KeyLayerOf(opts, data);
    EncodeKeys.UseDictCharacterised(opts.compact, |keys.dict|, JsonLen(data), JsonLen(Obj(keys.dict)));
  }

  /** With the dictionary applied, a one-member object gets its key's id. */
  lemma OneMemberReplaced(ctx: Rewrite.Context, key: string, n: int, path: string)
    requires ctx.useDict && !EncodeKeys.Reserved(key) && Pool.IdOf(ctx.keys, key).Some?
    ensures Rewrite.Replace(ctx, Obj([(key, Num(n))]), path) == Success(Obj([(Pool.IdOf(ctx.keys, key).value, Num(n))]))
  {
    var fields := [(key, Num(n))];
    assert fields[..0] == [];
    assert Rewrite.ReplaceFields(ctx, [], path) == Success([]);
    assert Rewrite.Replace(ctx, Num(n), EncodeShapes.MemberPath(path, key)) == Success(Num(n));
    assert Rewrite.OutKey(ctx, key) == Pool.IdOf(ctx.keys, key).value;
    assert Rewrite.ReplaceFields(ctx, fields, path) == Success(Assign([], Pool.IdOf(ctx.keys, key).value, Num(n)));
  }

  /** An id whose entry is "" stays in place as written, and becomes "" when read as an own string member. */
  lemma FalsyEntryResolved(dict: Fields, id: string, n: int)
    requires Lookup(dict, id) == Some(Str(""))
    ensures Decode.Resolve(Decode.AsWrittenKey, Obj(dict), Obj([(id, Num(n))])) == Obj([(id, Num(n))])
    ensures Decode.Resolve(Decode.CorrectedKey, Obj(dict), Obj([(id, Num(n))])) == Obj([("", Num(n))])
  {
    var fields := [(id, Num(n))];
    assert fields[..0] == [];
    assert Decode.OwnEntry(Obj(dict), id) == Some(Str(""));
    assert Decode.AsWrittenKey(Obj(dict), id) == id;
    assert Decode.CorrectedKey(Obj(dict), id) == "";
    assert Decode.ResolveFields(Decode.AsWrittenKey, Obj(dict), fields) == Assign([], id, Num(n));
    assert Decode.ResolveFields(Decode.CorrectedKey, Obj(dict), fields) == Assign([], "", Num(n));
  }

  /** Forced, `{"": n}` is written with its key replaced by the empty key's id. */
  lemma EmptyKeyEncodedAs(opts: Options, env: Environment, n: int)
    requires opts.compact && opts.pathMode.Off? && opts.shapeMode.Off?
    ensures var data := Obj([("", Num(n))]);
      var keys := KeyLayerOf(opts, data);
      && Pool.IdOf(keys.entries, "").Some?
      && EncodeData(opts, env, data) ==
           Ok(Document(opts, env, keys, PathLayerOf(opts.pathMode, data), ShapeLayerOf(opts.shapeMode, data),
                       Obj([(Pool.IdOf(keys.entries, "").value, Num(n))])))
  {
    assert !EncodeKeys.Reserved("");
    OneKeyEncodedAs(opts, env, "", n);
  }

  lemma OneKeyEncodedAs(opts: Options, env: Environment, key: string, n: int)
    requires opts.compact && opts.pathMode.Off? && opts.shapeMode.Off? && !EncodeKeys.Reserved(key)
    ensures var data := Obj([(key, Num(n))]);
      var keys := KeyLayerOf(opts, data);
      && Pool.IdOf(keys.entries, key).Some?
      && EncodeData(opts, env, data) ==
           Ok(Document(opts, env, keys, PathLayerOf(opts.pathMode, data), ShapeLayerOf(opts.shapeMode, data),
                       Obj([(Pool.IdOf(keys.entries, key).value, Num(n))])))
  {
    var data := Obj([(key, Num(n))]);
    var keys := KeyLayerOf(opts, data);
    var paths := PathLayerOf(opts.pathMode, data);
    var shapes := ShapeLayerOf(opts.shapeMode, data);
    OneKeyPooled(opts, key, n);
    OneMemberReplaced(ContextOf(opts, keys, paths, shapes), key, n, "<root>");
    EncodedAs(opts, env, data, Obj([(Pool.IdOf(keys.entries, key).value, Num(n))]));
  }

  /**
   * Encoding `{"": n}` with the dictionary forced and both pools off, then
   * decoding it as written, does not give the value back: the empty key is
   * pooled under an id whose entry "" is falsy, so the decoder leaves the id
   * in place. Read as own string members, the same document gives `{"": n}`
   * back.
   */
  lemma EmptyKeyLostByEncoder(opts: Options, env: Environment, n: int, strict: bool)
    requires opts.compact && opts.pathMode.Off? && opts.shapeMode.Off?
    ensures Pool.IdOf(KeyLayerOf(opts, Obj([("", Num(n))])).entries, "").Some?
    ensures EncodeData(opts, env, Obj([("", Num(n))])).Ok?
    ensures var id := Pool.IdOf(KeyLayerOf(opts, Obj([("", Num(n))])).entries, "").value;
      var doc := EncodeData(opts, env, Obj([("", Num(n))])).doc;
      && id != ""
      && Decode.DecodeJson(doc, strict) == Success(Some(Obj([(id, Num(n))])))
      && Decode.DecodeJsonCorrected(doc, strict) == Success(Some(Obj([("", Num(n))])))
  {
    EmptyKeyPooled(opts, n);
    EmptyKeyEncodedAs(opts, env, n);
    var data := Obj([("", Num(n))]);
    var keys := KeyLayerOf(opts, data);
    var id := Pool.IdOf(keys.entries, "").value;
    var out := Obj([(id, Num(n))]);
    DecodedDocument(opts, env, keys, PathLayerOf(opts.pathMode, data), ShapeLayerOf(opts.shapeMode, data), out, Decode.AsWrittenKey);
    DecodedDocument(opts, env, keys, PathLayerOf(opts.pathMode, data), ShapeLayerOf(opts.shapeMode, data), out, Decode.CorrectedKey);
    FalsyEntryResolved(keys.dict, id, n);
  }

  // ---------------------------------------------------------------------------
  // The published schema and the documents the encoder writes
  // ---------------------------------------------------------------------------

  /** The three members `$meta` always starts with: `encodeMs` is outside the published schema's list. */
  lemma MetaBaseAgainstSchema(generatedAt: string, encodeMs: int)
    ensures var base: Fields := [("generatedAt", Str(generatedAt)), ("producer", Str(Producer)), ("encodeMs", Num(encodeMs))];
      && base[2].0 !in Schema.MetaKeys
      && Schema.MetaMembersCorrected(base)
  {
    assert "encodeMs" != "producer" by { assert "encodeMs"[0] != "producer"[0]; }
    assert Schema.MetaMemberCorrected("encodeMs", Num(encodeMs));
  }

  /**
   * `$meta` always holds the number `encodeMs`, which the schema's `$meta`
   * (only `generatedAt`, `producer` and `preset`, all strings) refuses; the
   * members the document type declares admit it.
   */
  lemma MetaAgainstSchema(generatedAt: string, encodeMs: int, preset: string, features: Fields, decisions: Fields)
    ensures !Schema.MetaValid(MetaOf(generatedAt, encodeMs, preset, features, decisions))
    ensures Schema.MetaValidCorrected(MetaOf(generatedAt, encodeMs, preset, features, decisions))
  {
    var meta := MetaOf(generatedAt, encodeMs, preset, features, decisions);
    var base: Fields := [("generatedAt", Str(generatedAt)), ("producer", Str(Producer)), ("encodeMs", Num(encodeMs))];
    var pr: Fields := if preset != "" then [("preset", Str(preset))] else [];
    var f: Fields := if features != [] then [("features", Obj(features))] else [];
    var d: Fields := if decisions != [] then [("decisions", Obj(decisions))] else [];
    assert meta.fields == base + pr + f + d;
    MetaBaseAgainstSchema(generatedAt, encodeMs);
    assert meta.fields[2] == base[2];
    assert Keys(meta.fields)[0] == "generatedAt" && Keys(meta.fields)[1] == "producer";
    Schema.MetaMembersAppend(base, pr);
    Schema.MetaMembersAppend(base + pr, f);
    Schema.MetaMembersAppend(base + pr + f, d);
  }

  /** The key dictionary passes the `$dict` pattern. */
  lemma KeyDictAgainstSchema(opts: Options, data: Json)
    ensures Schema.StringDictionary("ksp", Obj(KeyLayerOf(opts, data).dict))
  {
    KeyPoolFacts(opts, data);
    Schema.PoolDictionaryValid('k', KeyLayerOf(opts, data).entries);
  }

  /** The path dictionary passes the `$pathDict` pattern. */
  lemma PathDictAgainstSchema(mode: EncodePaths.Mode, data: Json)
    ensures Schema.StringDictionary("p", Obj(PathLayerOf(mode, data).dict))
  {
    Pool.AddedAllWellFormed('p', [], EncodePaths.CollectedSegments(data));
    Schema.PoolDictionaryValid('p', Pool.AddedAll('p', [], EncodePaths.CollectedSegments(data)));
  }

  /** The shape dictionary passes the `$shapes` pattern. */
  lemma ShapeDictAgainstSchema(mode: EncodePaths.Mode, data: Json)
    ensures Schema.ShapesDictionary(Obj(ShapeLayerOf(mode, data).dict))
  {
    if !mode.Off? {
      var st := EncodeShapes.Analyze(mode, data, "<root>", "", EncodeShapes.Initial);
      EncodeShapes.AnalyzePool(mode, data, "<root>", "", EncodeShapes.Initial);
      Schema.PoolShapesValid(st.entries);
    }
  }

  /** The dictionaries in use, each passing its pattern, pass as top-level members. */
  lemma DictionariesAgainstSchema(keys: KeyLayer, paths: PathLayer, shapes: ShapeLayer)
    requires Schema.StringDictionary("ksp", Obj(keys.dict))
    requires Schema.StringDictionary("p", Obj(paths.dict))
    requires Schema.ShapesDictionary(Obj(shapes.dict))
    ensures Schema.MembersValidCorrected(Dictionaries(keys, paths, shapes))
  {
    var d1: Fields := if keys.useDict && keys.dict != [] then [("$dict", Obj(keys.dict))] else [];
    var d2: Fields := if paths.decision.enabled && paths.dict != [] then [("$pathDict", Obj(paths.dict))] else [];
    var d3: Fields := if shapes.state.used && shapes.dict != [] then [("$shapes", Obj(shapes.dict))] else [];
    assert Schema.MembersValidCorrected(d1);
    assert Schema.MembersValidCorrected(d2);
    assert Schema.MembersValidCorrected(d3);
    Schema.MembersValidAppend(d1, d2);
    Schema.MembersValidAppend(d1 + d2, d3);
  }

  /** A document with a refused `$meta` is refused; with valid members it passes once corrected. */
  lemma AssembledAgainstSchema(meta: Json, dicts: Fields, out: Json)
    requires !Schema.MetaValid(meta) && Schema.MetaValidCorrected(meta)
    requires Schema.MembersValidCorrected(dicts)
    ensures !Schema.Valid(Obj([("$schemaVersion", Str("1.0")), ("$meta", meta)] + dicts + [("data", out)]))
    ensures Schema.ValidCorrected(Obj([("$schemaVersion", Str("1.0")), ("$meta", meta)] + dicts + [("data", out)]))
  {
    var head: Fields := [("$schemaVersion", Str("1.0")), ("$meta", meta)];
    var tail: Fields := [("data", out)];
    var fields := head + dicts + tail;
    assert fields[1] == ("$meta", meta);
    assert !Schema.MemberValid(fields[1].0, fields[1].1);
    assert Keys(fields)[0] == "$schemaVersion" && Keys(fields)[1] == "$meta" && Keys(fields)[|fields| - 1] == "data";
    assert Schema.MembersValidCorrected(head);
    assert Schema.MembersValidCorrected(tail);
    Schema.MembersValidAppend(head, dicts);
    Schema.MembersValidAppend(head + dicts, tail);
  }

  /**
   * No document the encoder returns passes the published schema, because of
   * `$meta.encodeMs`; every one passes it once `$meta` admits the members
   * the document type declares.
   */
  lemma EncoderOutputAgainstSchema(opts: Options, env: Environment, input: JsValues.JsValue)
    requires EncodeSpec(opts, env, input).Ok?
    ensures !Schema.Valid(EncodeSpec(opts, env, input).doc)
    ensures Schema.ValidCorrected(EncodeSpec(opts, env, input).doc)
  {
    var data := Normalization.Normalize(NormalizeOptions(opts, env), input).value.value;
    var keys := KeyLayerOf(opts, data);
    var paths := PathLayerOf(opts.pathMode, data);
    var shapes := ShapeLayerOf(opts.shapeMode, data);
    var out := Rewrite.Replace(ContextOf(opts, keys, paths, shapes), data, "<root>").value;
    assert EncodeSpec(opts, env, input) == Ok(Document(opts, env, keys, paths, shapes, out));
    KeyDictAgainstSchema(opts, data);
    PathDictAgainstSchema(opts.pathMode, data);
    ShapeDictAgainstSchema(opts.shapeMode, data);
    DictionariesAgainstSchema(keys, paths, shapes);
    MetaAgainstSchema(env.generatedAt, env.encodeMs, opts.preset, Features(paths, shapes), Decisions(opts, paths, shapes));
    AssembledAgainstSchema(Meta(opts, env, paths, shapes), Dictionaries(keys, paths, shapes), out);
  }
}
