# TOX codec core, modelled in Dafny

TOX compresses JSON-shaped trees. First it normalises a JavaScript value into
plain JSON. Then it interns repeated object keys, path segments and object
shapes into dictionaries with short prefixed ids (`k1`, `p3`, `s2`, …). It
rewrites the tree to use those ids, and it writes a document with
`$schemaVersion`, `$meta`, the dictionaries and `data`. The decoder undoes the
key dictionary. This project models that core and proves properties of it:

- **Interning pools** (`pool.ts`; the path and shape pools in `path.ts` and
  `shape.ts`; `value-pool.ts`).
  - `Pool.InternPool` is one class for the string, key and path pools. It is
    parameterised by the id prefix letter and holds the insertion-ordered
    entries and the id counter that `add` and `clear` update in place.
  - `ValuePools.ValuePool` holds the value pool, with its size-based admission
    rule and type-tagged keys.
  - The proved invariants:
    - ids are unique and never reassigned;
    - `get` and `getId` are inverse;
    - the sorted entries are a sorted permutation;
    - `toDict` maps exactly the issued ids.
- **Path and shape utilities** (`Paths`, `Shapes`):
  - `splitPath`/`joinPath` and their round trip;
  - `isLikelyPath`;
  - the `analyzePaths` counters;
  - `deriveShape`;
  - the injective shape key;
  - `calculateUniformity`, whose counting loop is a method proved against a
    counting function.
- **Normaliser** (`Normalization`, with the theorems in `NormalizeFacts`).
  - The input is a JavaScript value with object identities (`JsValues`).
  - The traversal threads the `visited` set and the cumulative key count, as
    `normalize.ts` does, under the depth, array-length and key-budget limits.
  - It has a strict and a lenient mode.
  - Results are in-band wrappers, so the data/wrapper confusions of the
    source are reproduced rather than repaired. For example, a data object
    with a `value` key collapses to that member.
- **`toToxAST` / `fromToxAST`** (`ToxAst`) from `tox-core/src/index.ts`.
- **JSON codec.**
  - `EncodeKeys`: preset seeding and key collection.
  - `EncodePaths`: the path-pool decision.
  - `EncodeShapes`: the `analyzeArrays` class with its pools and its map of
    encoded arrays.
  - `Rewrite`: the `replaceKeys` pass.
  - `Encode`: document assembly, and `encodeJson` as a method proved equal to
    a specification function.
  - `Decode`: `decodeJson`.
  - `Schema`: the published JSON Schema as a validity predicate.
  - The headline theorem `Encode.RoundTrip`: when neither the path nor the
    shape layer fired, decoding an encoded value gives the normalised value
    back. It holds for the corrected key lookup. `Encode.RoundTripAsWritten`
    proves it for the lookup as written when, in addition, no key is empty
    and no key is named like an `Object.prototype` member.
- **Mind adapters.**
  - `Canonicalize` models `path-canonicalization.ts`: the longest common
    directory prefix as a loop, path collection with its `seen` set, and the
    prefix stripping.
  - `QueryResult` models `queryResult.ts`: the in-place sorting of `edges`,
    `importers` and `externals`, and the preset choice of
    `toToxQueryResult`.

Supporting modules:
- `Json`: the JSON datatype, with insertion-ordered objects built through
  JavaScript property assignment.
- `Strings`: decimal text, the UTF-16 encoding JavaScript stores strings in,
  and the two string orders. `localeCompare` is a case-folding order; the
  default `sort()` compares UTF-16 code units, so a character above U+FFFF
  (stored as a surrogate pair) sorts before U+FFFF.
- `Sorting`: a stable insertion sort with its permutation, stability and
  uniqueness lemmas.
- `Ratios`: the floating-point thresholds as exact integer
  cross-multiplication.
- `Errors` and `Wrappers`: the error records and the result types.

Numbers are integers. `JSON.stringify(..).length` is the number of UTF-16
code units in the text the model's `Json.JsonText` writes, which escapes only
`"` and `\`.

## Model

| member | source | states |
|---|---|---|
| Strings.Utf16Injective | packages/tox-core/src/normalize.ts:217 | two strings with the same UTF-16 code units are equal, so `keys.sort()` orders distinct keys strictly |
| Strings.CodeUnitTotal | packages/tox-core/src/normalize.ts:217 | of two different strings, one comes first in UTF-16 code-unit order |
| Strings.SurrogatesSortFirst | packages/tox-adapters/src/mind/queryResult.ts:104 | a character above U+FFFF sorts before U+FFFF in code-unit order, although its code point is larger, and counts as two code units |
| Sorting.SortByStable | packages/tox-adapters/src/mind/queryResult.ts:86-90 | sorting keeps elements that tie in their old relative order, as `Array.prototype.sort` does |
| Sorting.SortedStableUnique | packages/tox-adapters/src/mind/queryResult.ts:86-90 | two sorted sequences that list the elements of every tie in the same order are equal, so a stable sort's result is fully determined |
| Json.JsonLen | packages/tox-codec-json/src/encode.ts:165-166 | `JSON.stringify(..).length` counts UTF-16 code units, at least one per character of the text |
| Pool.IdFor | packages/tox-core/src/pool.ts:25 | an id is the pool's prefix letter followed by the counter's decimal digits |
| Pool.IdForInjective | packages/tox-core/src/pool.ts:25 | different counter values give different ids, so ids issued by one pool never repeat |
| Pool.FindValue | packages/tox-core/src/pool.ts:19 | `entries.get(value)` finds the entry holding `value`, or reports that no entry holds it |
| Pool.FindId | packages/tox-core/src/pool.ts:38-45 | the scan in `get` returns the first entry whose id matches, or none when no entry has that id |
| Pool.IdsDistinct | packages/tox-core/src/pool.ts:18-33 | in a pool built by `add`, no two entries share an id |
| Pool.IdValueBijection | packages/tox-core/src/pool.ts:38-52 | `getId(value)` is defined exactly for the stored values, and `get` and `getId` are inverse to each other |
| Pool.EntryLeIsTotalOrder | packages/tox-core/src/pool.ts:58-70 | the comparator (frequency descending, then value, then id by `localeCompare`) is a total, antisymmetric order |
| Pool.SortedEntries | packages/tox-core/src/pool.ts:57-71 | `getSortedEntries` returns a sorted permutation of the entries |
| Pool.DictFields | packages/tox-core/src/pool.ts:76-82 | `toDict` writes one `id: value` member per sorted entry, in sorted order |
| Pool.DictMapsIssuedIds | packages/tox-core/src/pool.ts:76-82 | the dictionary has exactly one member per entry, its keys are distinct, each issued id maps to its value, and every key is an issued id |
| Pool.SortKeepsIdsDistinct | packages/tox-core/src/pool.ts:57-71 | sorting keeps the ids distinct, so no member of `toDict` overwrites another |
| Pool.InternPool.constructor | packages/tox-core/src/pool.ts:11-13 | a new pool is empty and its counter starts at 1 |
| Pool.InternPool.GetId | packages/tox-core/src/pool.ts:50-52 | returns an id exactly when the value is stored, and that id is prefix plus the value's insertion position |
| Pool.InternPool.Add | packages/tox-core/src/pool.ts:18-33 | a stored value keeps its id and its frequency goes up by one; a new value is appended with id prefix plus the old counter; the pool stays well formed |
| Pool.InternPool.Get | packages/tox-core/src/pool.ts:38-45 | returns the value of an entry with that id, and returns none exactly when no entry has the id |
| Pool.InternPool.GetSortedEntries | packages/tox-core/src/pool.ts:57-71 | a sorted permutation of the pool's entries |
| Pool.InternPool.ToDict | packages/tox-core/src/pool.ts:76-82 | the loop builds the dictionary of the sorted entries, member by member |
| Pool.InternPool.Clear | packages/tox-core/src/pool.ts:87-90 | the pool is empty again and its counter is back at 1 |
| Pool.AddedKeepsWellFormed | packages/tox-core/src/pool.ts:18-33 | `add` keeps the pool well formed, keeps every earlier id and value, appends the value only when it is new, and gives it the next id |
| Pool.AddedOtherIdOf | packages/tox-core/src/pool.ts:18-33 | adding one value leaves the id of every other value unchanged |
| Pool.AddedIdOf | packages/tox-core/src/pool.ts:18-33 | after `add(v)`, the id of w is the next id when w is v and v was new; otherwise it is w's old id |
| Pool.AddedAllKeepsIds | packages/tox-core/src/pool.ts:18-33 | any sequence of adds keeps every id already issued |
| Pool.AddedAllIds | packages/tox-core/src/pool.ts:18-33 | after adding a list of values, every value in the list has an id |
| Pool.AddedAllAppend | packages/tox-core/src/pool.ts:18-33 | adding `a` and then `b` is the same as adding `a + b` |
| Pool.AddedAllDistinct | packages/tox-core/src/pool.ts:18-33 | distinct values added to an empty pool are stored in insertion order, which is why the ids are stable |
| Pool.IdOfPosition | packages/tox-core/src/pool.ts:25 | the value stored i-th has id prefix + (i + 1) |
| Pool.ClearThenAdd | packages/tox-core/src/pool.ts:87-90 | after `clear()`, the next new value gets id prefix + "1" |
| Paths.Slashes | packages/tox-core/src/path.ts:18 | every backslash becomes a slash and every other character is kept |
| Paths.SplitOn | packages/tox-core/src/path.ts:21 | `split('/')` yields at least one piece, and no piece contains the separator |
| Paths.JoinSplitOn | packages/tox-core/src/path.ts:21-36 | joining the pieces of a split with the same separator gives back the original string |
| Paths.SplitOnJoin | packages/tox-core/src/path.ts:21-36 | splitting what was joined on a character no segment holds gives the segments back |
| Paths.NonEmpty | packages/tox-core/src/path.ts:21 | the filter keeps only non-empty pieces, and leaves a list with no empty piece unchanged |
| Paths.SplitPath | packages/tox-core/src/path.ts:12-24 | the empty path has no segments, and no segment is empty or contains either separator |
| Paths.JoinPathBasics | packages/tox-core/src/path.ts:30-37 | joining no segments gives "", and joining one segment gives that segment |
| Paths.CleanSplitHasNoEmptyPiece | packages/tox-core/src/path.ts:21 | a path with no leading, trailing or doubled slash splits into non-empty pieces only |
| Paths.SplitJoinRoundTrip | packages/tox-core/src/path.ts:12-37 | for a non-empty path with no leading, trailing or doubled separator, `joinPath(splitPath(p))` is p with backslashes turned into slashes |
| Paths.IsLikelyPathCharacterised | packages/tox-core/src/path.ts:46-67 | `isLikelyPath` holds exactly for a non-empty string with a separator or a known extension (case-insensitive); the leading-directory test never decides anything |
| Paths.AddPath | packages/tox-core/src/path.ts:101-104 | adds each segment in turn, returns each segment's id in the updated pool, and keeps every id a segment already had |
| Paths.KeepsPooledIds | packages/tox-core/src/path.ts:101-104 | adding a path's segments never changes an id already issued |
| Paths.GetPath | packages/tox-core/src/path.ts:109-112 | the path joins the segments the ids stand for, keeping an unknown id as itself |
| Paths.PathRoundTrip | packages/tox-core/src/path.ts:101-112 | `getPath(addPath(p))` resolves to exactly the segments of p |
| Paths.GetPathIds | packages/tox-core/src/path.ts:117-130 | returns null exactly when some segment is not pooled; otherwise returns the id of every segment, in order |
| Paths.TallyValuePaired | packages/tox-core/src/path.ts:160-197 | the walk never counts more paths than strings, and it never decreases the string count |
| Paths.PathsRatioBounded | packages/tox-core/src/path.ts:148-206 | `pathsCount <= totalStrings`, `pathsRatio` lies in [0, 1] and is 0 when there are no strings, and `avgSegments` is 0 when there are no paths |
| Paths.PathKeyWithScalarCountedTwice | packages/tox-core/src/path.ts:172-195 | for any path-like key k holding a number, boolean or null, `analyzePaths({k: v})` counts k twice, once by its object and once by its leaf: 2 paths, 2 strings, twice k's segments |
| Paths.JoinSplitPath | packages/tox-core/src/path.ts:12-37 | `splitPath(joinPath(segments))` gives back any list of non-empty segments that hold neither separator |
| Shapes.LocaleLeIsTotalOrder | packages/tox-core/src/shape.ts:12 | the `localeCompare` order on keys is total and antisymmetric |
| Shapes.DeriveShape | packages/tox-core/src/shape.ts:11-13 | a shape is the object's keys, sorted by `localeCompare`, as a permutation of those keys |
| Shapes.DeriveShapeOrderFree | packages/tox-core/src/shape.ts:11-13 | two objects with the same keys in any order have the same shape |
| Shapes.ParseStrEscaped | packages/tox-core/src/shape.ts:64 | the string parser reads back exactly what the escaping in `JSON.stringify` wrote |
| Shapes.ParseShapeKeyRoundTrip | packages/tox-core/src/shape.ts:51-64 | `JSON.parse(JSON.stringify(shape))` gives the shape back |
| Shapes.ShapeKeyInjective | packages/tox-core/src/shape.ts:27-51 | two shapes with the same `JSON.stringify` key are equal |
| Shapes.Occurrences | packages/tox-core/src/shape.ts:25-30 | the count of a shape key is at most the number of shapes, at least 1 for a present key, and 0 for an absent one |
| Shapes.MaxOccurrences | packages/tox-core/src/shape.ts:33-36 | the maximum is at least every candidate's count and equals one of them (or 0 when there are no candidates) |
| Shapes.CountStep | packages/tox-core/src/shape.ts:26-30 | one pass of the counting loop keeps the map of counts exact for the prefix it has read |
| Shapes.CalculateUniformity | packages/tox-core/src/shape.ts:19-39 | the loops compute the most common shape's count over the number of shapes, and 1 for no shapes |
| Shapes.LargestCountOf | packages/tox-core/src/shape.ts:33-36 | the maximum loop returns a value at least every count and equal to one of them, or 0 when the map is empty |
| Shapes.UniformityBounds | packages/tox-core/src/shape.ts:15-39 | for a non-empty list the uniformity is at least one shape's share and at most 1, and it is exactly 1 when every shape is the same |
| Shapes.AddShape | packages/tox-core/src/shape.ts:49-53 | adds the shape's JSON key to the pool and returns the id now stored for it |
| Shapes.GetShapeId | packages/tox-core/src/shape.ts:73-76 | returns an id exactly when the shape's key is pooled |
| Shapes.GetShape | packages/tox-core/src/shape.ts:58-68 | returns the parsed shape stored under the id, or undefined when the id is unknown or the value does not parse |
| Shapes.ShapeIdsFaithful | packages/tox-core/src/shape.ts:49-76 | two shapes with the same id are equal, and `getShape` of a shape's id gives the shape back |
| Shapes.AddShapeThenGetShape | packages/tox-core/src/shape.ts:49-68 | after `addShape(s)`, `getShape` of its id is s |
| Shapes.ToShapesDict | packages/tox-core/src/shape.ts:104-115 | the loop builds one member per sorted entry that parses, skipping those that do not |
| Shapes.ShapesDictExact | packages/tox-core/src/shape.ts:104-115 | in a pool filled by `addShape`, the dictionary has one member per shape, and each id maps to its shape as a JSON array |
| ValuePools.TaggedTextInjective | packages/tox-core/src/value-pool.ts:120-144 | two `tag:payload` keys with colon-free tags are equal only when both tag and payload are |
| ValuePools.PayloadLastChar | packages/tox-core/src/value-pool.ts:138-143 | the last character of a key's payload tells numbers (a digit) and symbols (a parenthesis) apart from the other `unknown:` values |
| ValuePools.ValueKeyInjective | packages/tox-core/src/value-pool.ts:120-144 | values that `add` may intern and that share a key have the same type and are equal (symbols only up to their description) |
| ValuePools.NumberPayloadInjective | packages/tox-core/src/value-pool.ts:127-139 | two numbers with the same `number:` payload are the same number, non-finite ones included |
| ValuePools.UnknownPayloadInjective | packages/tox-core/src/value-pool.ts:143 | two `unknown:` values with the same payload have the same type and are equal up to a symbol's description |
| ValuePools.SameKeySameSize | packages/tox-core/src/value-pool.ts:149-164 | values that share a key have the same estimated size |
| ValuePools.FindKey | packages/tox-core/src/value-pool.ts:34 | `entries.get(key)` finds the entry stored under key, or none exactly when no entry has it |
| ValuePools.AddKeepsConsistent | packages/tox-core/src/value-pool.ts:25-62 | `add` keeps the entries well formed (ids v1, v2, ... in insertion order, one entry per key, each value admissible) and the counter one past the last id |
| ValuePools.AddRejectsExactly | packages/tox-core/src/value-pool.ts:27-51 | `add` returns null exactly for null, functions, objects and values whose estimated size is at most 4, and then it changes nothing |
| ValuePools.ReAddReturnsSameId | packages/tox-core/src/value-pool.ts:34-42 | adding a pooled value again returns its id, raises its frequency by one, and leaves every other entry and the counter unchanged |
| ValuePools.AddValuesKeepsConsistent | packages/tox-core/src/value-pool.ts:25-62 | any sequence of adds keeps the pool consistent |
| ValuePools.RejectedForever | packages/tox-core/src/value-pool.ts:25-62 | a value `add` refuses is refused again after any further adds |
| ValuePools.AdmittedInOrder | packages/tox-core/src/value-pool.ts:44-61 | a new admissible value is appended with the next id, frequency 1 and savings of its size minus 3 |
| ValuePools.IdOfValue | packages/tox-core/src/value-pool.ts:67-71 | `getId` finds an id exactly when an entry has the value's key |
| ValuePools.ValueOfId | packages/tox-core/src/value-pool.ts:76-83 | `get` finds a value exactly when an entry has that id |
| ValuePools.ValueIdsDiffer | packages/tox-core/src/value-pool.ts:53 | different counter values give different ids |
| ValuePools.ValueOfIdAt | packages/tox-core/src/value-pool.ts:76-83 | with distinct ids, `get` of an entry's id returns that entry's value |
| ValuePools.GetOfGetId | packages/tox-core/src/value-pool.ts:67-83 | `get(getId(v))` is v again (a symbol up to its description) |
| ValuePools.EntryLeIsTotalPreorder | packages/tox-core/src/value-pool.ts:89-95 | the comparator (frequency descending, then key by `localeCompare`) is a total preorder |
| ValuePools.SortedEntries | packages/tox-core/src/value-pool.ts:88-96 | `getSortedEntries` is a sorted permutation of the entries |
| ValuePools.ToDictExact | packages/tox-core/src/value-pool.ts:104-115 | a member is in the dictionary exactly when it is `id: value` of an entry at least as frequent as `minFrequency` and saving at least `minAvgSavings` |
| ValuePools.ValuePool.constructor | packages/tox-core/src/value-pool.ts:17-19 | a new pool is empty and consistent |
| ValuePools.ValuePool.Add | packages/tox-core/src/value-pool.ts:25-62 | the method updates the entries and the counter, and returns the id, all as the `add` function describes |
| ValuePools.ValuePool.GetId | packages/tox-core/src/value-pool.ts:67-71 | returns an id exactly when an entry has the value's key |
| ValuePools.ValuePool.Get | packages/tox-core/src/value-pool.ts:76-83 | the scan returns the value of the first entry with that id |
| ValuePools.ValuePool.ToDict | packages/tox-core/src/value-pool.ts:104-115 | the loop keeps exactly the selected sorted entries, in sorted order |
| Normalization.DefaultOptions | packages/tox-core/src/normalize.ts:22-28 | by default keys are sorted and the mode is lenient |
| Normalization.ErrorWrapper | packages/tox-core/src/normalize.ts:37-44 | an error result is an object with `value: null` and an `error` member holding code, message and hint |
| Normalization.Reject | packages/tox-core/src/normalize.ts:36-69 | an unsupported input gives the error wrapper in strict mode and `null` otherwise |
| Normalization.UnwrapAll | packages/tox-core/src/normalize.ts:144-149 | every item holding a `value` member is replaced by that member, and the other items are kept |
| Normalization.FirstError | packages/tox-core/src/normalize.ts:139 | finds an item exactly when some item has an `error` member, and then it is the first such item |
| Normalization.SliceEnd | packages/tox-core/src/normalize.ts:127 | `slice`'s end is clamped to the length, and an end within range is kept |
| Normalization.OrderKeys | packages/tox-core/src/normalize.ts:217 | the keys are sorted or kept as they are, always with the same keys and the same count |
| NormalizeFacts.ScalarsPassThrough | packages/tox-core/src/normalize.ts:49-77 | `undefined` and `null` become `null`; booleans, finite numbers and strings pass through unchanged, with no error |
| NormalizeFacts.UnsupportedRejected | packages/tox-core/src/normalize.ts:55-184 | non-finite numbers, BigInts, functions, symbols, Maps and Sets become `null`, or in strict mode an UNSUPPORTED_TYPE error at that path |
| NormalizeFacts.UnsupportedRootStrict | packages/tox-core/src/normalize.ts:246-256 | in strict mode an unsupported root yields `value: null` and the error with code UNSUPPORTED_TYPE |
| NormalizeFacts.DepthLimit | packages/tox-core/src/normalize.ts:35-47 | beyond `maxDepth` the value becomes `null`, or a LIMIT_EXCEEDED error in strict mode, and the state is unchanged |
| NormalizeFacts.ArrayLengthLimit | packages/tox-core/src/normalize.ts:116-128 | an array longer than `maxArrayLength` is a LIMIT_EXCEEDED error in strict mode; in lenient mode it is cut to its first items, handed back without normalisation and without touching `visited` or the key count (the raw items are read through `Normalization.JsonView`) |
| NormalizeFacts.RevisitRejected | packages/tox-core/src/normalize.ts:155-167 | an object met a second time becomes `null`, or the "Circular reference detected" error in strict mode |
| NormalizeFacts.SharedReferenceNulled | packages/tox-core/src/normalize.ts:155-169 | `visited` is never cleared: for any plain object within the limits held twice by a root array (no cycle), the first item is its canonical form and the second is `null` when lenient; when strict the whole result is a "Circular reference detected" error at `<root>[1]` |
| NormalizeFacts.ErrorsOnlyWhenStrict | packages/tox-core/src/normalize.ts:246-263 | lenient mode never reports an error, and a reported error always comes with `value: null` |
| NormalizeFacts.StateBounded | packages/tox-core/src/normalize.ts:155-214 | walking a value only adds to `visited` and `keyCount`, and never takes `keyCount` past `maxKeys` |
| NormalizeFacts.KeyCountWithinBudget | packages/tox-core/src/normalize.ts:190-214 | a whole normalisation never counts more than `maxKeys` keys |
| NormalizeFacts.PartialKeys | packages/tox-core/src/normalize.ts:202-211 | the partial object has an object member for each key that was kept, in order |
| NormalizeFacts.KeyBudgetOverflow | packages/tox-core/src/normalize.ts:190-212 | an object that overflows the key budget gives a LIMIT_EXCEEDED error in strict mode, and otherwise an object keeping only its first `maxKeys - keyCount` keys |
| NormalizeFacts.CanonKeys | packages/tox-core/src/normalize.ts:217-240 | a normalised object has the source object's keys in `OrderKeys` order, sorted by UTF-16 code units when `sortKeys` is set |
| NormalizeFacts.CanonNotWrapper | packages/tox-core/src/normalize.ts:233-237 | the canonical form of plain data has neither an `error` nor a `value` member, so unwrapping leaves it unchanged |
| NormalizeFacts.PlainNormalizes | packages/tox-core/src/normalize.ts:33-244 | plain data within the limits, with no shared objects, normalises to its canonical form, adds its objects to `visited`, and adds its key total to `keyCount` |
| NormalizeFacts.PlainArray | packages/tox-core/src/normalize.ts:115-150 | an array of plain data within the limits normalises item by item to canonical forms |
| NormalizeFacts.PlainObject | packages/tox-core/src/normalize.ts:153-241 | a plain object within the limits normalises to its canonical form, with members in `OrderKeys` order |
| NormalizeFacts.OrderedKeysPermute | packages/tox-core/src/normalize.ts:217 | the ordered keys are a permutation of the object's keys |
| NormalizeFacts.CanonWellKeyed | packages/tox-core/src/normalize.ts:219-240 | a canonical object never repeats a key, at any depth |
| NormalizeFacts.CanonOrderFree | packages/tox-core/src/normalize.ts:213-240 | with `sortKeys`, two values equal up to the order of the members of every object have the same canonical form |
| NormalizeFacts.ArrayOrderFree | packages/tox-core/src/normalize.ts:130-147 | with `sortKeys`, an array and any data equal to it up to member order have the same canonical form |
| NormalizeFacts.ObjectOrderFree | packages/tox-core/src/normalize.ts:213-240 | with `sortKeys`, an object and any data equal to it up to member order have the same canonical form |
| NormalizeFacts.ItemsOrderFree | packages/tox-core/src/normalize.ts:130-147 | arrays whose items are pairwise equal up to member order have the same canonical items |
| NormalizeFacts.MembersOrderFree | packages/tox-core/src/normalize.ts:213-240 | objects with the same keys in any order, each holding data equal up to member order, have the same canonical members |
| NormalizeFacts.PlainNormalizeResult | packages/tox-core/src/normalize.ts:18-264 | `normalize` of plain data within the limits returns its canonical form with no error |
| NormalizeFacts.DataValueKeyCollapses | packages/tox-core/src/normalize.ts:233-237 | a nested data object whose only key is `value` (`{a: {value: 5}}`) is collapsed into its value (`{a: 5}`), because the unwrap test cannot tell data from an error wrapper |
| NormalizeFacts.RootErrorKeyMisread | packages/tox-core/src/normalize.ts:249-263 | a root data object whose one member is `error`, holding any plain value x, is taken for an error: lenient mode returns value `undefined` and no error, strict mode value `null` and x's canonical form as the error |
| ToxAst.Wrap | packages/tox-core/src/index.ts:26-36 | `toToxAST` throws exactly when `normalize` reported an error, and otherwise returns the normalised value with no string pool |
| ToxAst.LenientNeverThrows | packages/tox-core/src/index.ts:26-36 | in lenient mode `toToxAST` never throws |
| ToxAst.ReportedErrorThrown | packages/tox-core/src/index.ts:29-31 | a reported error is thrown with the message `code: message` |
| ToxAst.RootErrorKeyThrows | packages/tox-core/src/index.ts:29-31 | in strict mode, a root data object `{error: x}` makes `toToxAST` throw the text of x when x is truthy ("undefined: undefined" when x is not an object) and return value `null` when x is falsy |
| ToxAst.PoolEntry | packages/tox-core/src/index.ts:57-58 | a member is replaced exactly when its value is a string naming an own pool entry whose text is non-empty (truthy), and then by that text |
| ToxAst.ResolveValue | packages/tox-core/src/index.ts:42-70 | scalars are returned unchanged, arrays keep their length, and objects stay objects |
| ToxAst.FromToxAST | packages/tox-core/src/index.ts:41-73 | there is a result exactly when the AST holds a value |
| ToxAst.ResolveMembersPointwise | packages/tox-core/src/index.ts:55-67 | each member keeps its key and position and gets its resolved value |
| ToxAst.KeysNeverTranslated | packages/tox-core/src/index.ts:55-67 | resolving never renames a key |
| ToxAst.PooledMemberReplaced | packages/tox-core/src/index.ts:57-61 | a pooled string member becomes its pool text, and every other member is resolved recursively |
| ToxAst.ArrayItemsNotLookedUp | packages/tox-core/src/index.ts:47-48 | strings directly inside arrays are never looked up in the pool |
| ToxAst.NoPoolIdentity | packages/tox-core/src/index.ts:63-67 | with no string pool, `fromToxAST` returns the value unchanged |
| ToxAst.RoundTrip | packages/tox-core/src/index.ts:26-73 | `fromToxAST(toToxAST(x))` is the normalised x |
| ToxAst.PlainRoundTrip | packages/tox-core/src/index.ts:26-73 | for plain data within the limits, `toToxAST` succeeds and `fromToxAST` gives back its canonical form |
| Decode.InheritedText | packages/tox-codec-json/src/decode.ts:50-51 | the names `Object.prototype` provides (`constructor`, `toString`, ...) have a truthy value, and their text is neither empty nor the name itself |
| Decode.AsWrittenKey | packages/tox-codec-json/src/decode.ts:49-52 | as written: a key becomes its dictionary entry when that entry is truthy; an entry "" leaves the key as it is; a key missing from the dictionary but named like an inherited member is still rewritten |
| Decode.CorrectedKey | packages/tox-codec-json/src/decode.ts:49-52 | corrected: a key becomes its own string entry (even ""), and a key with no own entry is kept |
| Decode.Resolve | packages/tox-codec-json/src/decode.ts:35-58 | scalars are returned unchanged, arrays keep their length, and objects stay objects |
| Decode.ResolveFieldsHas | packages/tox-codec-json/src/decode.ts:47-55 | the resolved object has a member named n exactly when some key is rewritten to n |
| Decode.ResolveFieldsLookup | packages/tox-codec-json/src/decode.ts:47-55 | when no later key maps to the same name, the resolved member is the resolved value of that key (a later duplicate overwrites an earlier one) |
| Decode.DecodeBy | packages/tox-codec-json/src/decode.ts:19-74 | decoding fails exactly when the version is not "1.0" (INCOMPATIBLE_VERSION, hint `$schemaVersion`) or the document is null (DECODE_ERROR from the catch); otherwise it succeeds with a result exactly when `data` is present |
| Decode.StrictIgnored | packages/tox-codec-json/src/decode.ts:19 | the `strict` flag never changes the result |
| Decode.ResolveIdentity | packages/tox-codec-json/src/decode.ts:35-58 | a value whose keys all map to themselves resolves to itself |
| Decode.NoInheritedKeysFixed | packages/tox-codec-json/src/decode.ts:32-50 | with no `$dict`, every key that is not an inherited member name is left alone |
| Decode.AllKeysFixedCorrected | packages/tox-codec-json/src/decode.ts:32-50 | with the corrected lookup and no `$dict`, every key is left alone |
| Decode.NoDictionaryDecodesToData | packages/tox-codec-json/src/decode.ts:19-65 | a document with no dictionary decodes to its `data` unchanged, provided no key is an inherited member name |
| Decode.NoDictionaryDecodesToDataCorrected | packages/tox-codec-json/src/decode.ts:19-65 | with the corrected lookup, a document with no dictionary always decodes to its `data` unchanged |
| Decode.EmptyKeyNotRestored | packages/tox-codec-json/src/decode.ts:50 | a dictionary entry `k1: ""` is falsy, so the key `k1` is not translated back to "" |
| Decode.EmptyKeyRestoredCorrected | packages/tox-codec-json/src/decode.ts:50 | the corrected lookup translates `k1` back to "" |
| Decode.ConstructorKeyRewritten | packages/tox-codec-json/src/decode.ts:32-51 | as written, a data key `constructor` with no `$dict` is renamed to the text of `Object`; the corrected decoder keeps it |
| EncodeKeys.AdmittedPresetsMembers | packages/tox-codec-json/src/encode.ts:119-133 | in lenient mode the preset keys pooled are exactly the preset keys that are not reserved |
| EncodeKeys.FirstReserved | packages/tox-codec-json/src/encode.ts:119-121 | finds the first reserved preset key, or none exactly when no preset key is reserved |
| EncodeKeys.PresetViolation | packages/tox-codec-json/src/encode.ts:123-128 | a reserved preset key is reported as STRICT_MODE_VIOLATION |
| EncodeKeys.SeedPresets | packages/tox-codec-json/src/encode.ts:116-133 | the loop fails exactly in strict mode when some preset key is reserved, reporting the first one; otherwise it adds the admitted preset keys to the pool in order |
| EncodeKeys.PresetIdsFirst | packages/tox-codec-json/src/encode.ts:118-133 | distinct admitted preset keys get ids k1, k2, ... in preset order, whatever data keys are added after them |
| EncodeKeys.CollectKeys | packages/tox-codec-json/src/encode.ts:136-157 | walking the value adds every non-reserved object key to the pool, in walk order |
| EncodeKeys.CollectKeysPoolsAll | packages/tox-codec-json/src/encode.ts:136-157 | after the walk, every non-reserved key that occurs anywhere in the data has an id |
| EncodeKeys.UseDictCharacterised | packages/tox-codec-json/src/encode.ts:164-191 | the dictionary is used exactly when it is non-empty and either compact mode is on, or the data text has at least 2000 characters and the overhead (150 + dictionary text) is below 30% of it; it is never used below 2000 characters without compact mode |
| EncodePaths.NoPathsNotWanted | packages/tox-codec-json/src/encode.ts:205-209 | in auto mode, data with no path-like strings never enables the path pool |
| EncodePaths.CollectPaths | packages/tox-codec-json/src/encode.ts:213-228 | walking the value adds the segments of every path-like string value to the pool, in walk order |
| EncodePaths.CollectPathsPoolsAll | packages/tox-codec-json/src/encode.ts:213-228 | after the walk, every segment of every path-like string value has an id |
| EncodePaths.DecidePathPool | packages/tox-codec-json/src/encode.ts:233-254 | the recorded savings are 30 per path, less 3 per segment and the dictionary text; the pool is enabled when forced, or when the savings exceed the dictionary text |
| EncodePaths.AutoNeedsSavings | packages/tox-codec-json/src/encode.ts:236-250 | in auto mode the pool is enabled only when 30 * paths exceeds 3 * segments plus twice the dictionary text, and never when there are no paths |
| EncodeShapes.PlainObjects | packages/tox-codec-json/src/encode.ts:282-284 | the filter keeps only the plain objects among the items |
| EncodeShapes.ShapesOf | packages/tox-codec-json/src/encode.ts:288 | one derived shape per object, in order |
| EncodeShapes.MostCommonIsMostCommon | packages/tox-codec-json/src/encode.ts:294-310 | the chosen shape occurs among the shapes, no shape occurs more often, and no shape that reaches the maximum count appears before its first occurrence |
| EncodeShapes.OccurrencesDisjoint | packages/tox-codec-json/src/encode.ts:294-303 | two different shape keys together occur at most as often as there are shapes |
| EncodeShapes.MajorityUnique | packages/tox-codec-json/src/encode.ts:292-310 | past the 80% gate the most common shape is a strict majority, so it is unique and tie-breaking never matters |
| EncodeShapes.MostCommonShape | packages/tox-codec-json/src/encode.ts:294-310 | the counting loop and the scan for the largest count return the most common shape |
| EncodeShapes.CountShapes | packages/tox-codec-json/src/encode.ts:294-303 | the map counts each shape key exactly, keeps each key's shape, and lists keys in first-seen order |
| EncodeShapes.ScanCounts | packages/tox-codec-json/src/encode.ts:305-310 | the scan returns a shape whose count is the largest count |
| EncodeShapes.RowOf | packages/tox-codec-json/src/encode.ts:322 | a row has one value per key of the shape |
| EncodeShapes.RowOfShape | packages/tox-codec-json/src/encode.ts:318-323 | for an object of that shape, the row holds the object's value for each key, in shape order |
| EncodeShapes.RowsCount | packages/tox-codec-json/src/encode.ts:317-325 | the number of rows is the number of objects with the chosen shape |
| EncodeShapes.CollectRows | packages/tox-codec-json/src/encode.ts:317-325 | the loop builds one row per object of the chosen shape, in order, skipping the others |
| EncodeShapes.GateRows | packages/tox-codec-json/src/encode.ts:286-325 | with at least ten objects and uniformity at least 0.8, there are at least eight rows, all of the most common shape |
| EncodeShapes.AnalyzeConsistent | packages/tox-codec-json/src/encode.ts:274-360 | the walk keeps its state consistent: the pool is used exactly when some array was encoded, the decision is then enabled, and every encoded array has at least eight rows |
| EncodeShapes.AnalyzePool | packages/tox-codec-json/src/encode.ts:274-360 | the walk keeps the shape pool well formed and holding only shape keys |
| EncodeShapes.ShapeAnalysis.constructor | packages/tox-codec-json/src/encode.ts:258-272 | a fresh shape pool, an empty table and the initial decision |
| EncodeShapes.ShapeAnalysis.AnalyzeArrays | packages/tox-codec-json/src/encode.ts:274-360 | the recursive walk updates the pool, the table and the decision as the `Analyze` function describes |
| EncodeShapes.ShapeAnalysis.EncodeArray | packages/tox-codec-json/src/encode.ts:281-347 | an eligible array (first item an object, at least ten objects, uniformity at least 0.8) is encoded; any other array leaves the state unchanged |
| EncodeShapes.ShapeAnalysis.EncodeObjects | packages/tox-codec-json/src/encode.ts:292-344 | pools the most common shape, builds its rows, and records them as `EncodeStep` describes |
| EncodeShapes.ShapeAnalysis.RecordRows | packages/tox-codec-json/src/encode.ts:327-343 | the rows are recorded under the array's path when forced, or in auto mode with ten rows and savings above the dictionary's size; otherwise nothing changes |
| Rewrite.RowsDeeper | packages/tox-codec-json/src/encode.ts:383-388 | rewriting an encoded array's rows under `path[row]` never looks up an encoded array again at that path, so the rewrite terminates |
| Rewrite.Replace | packages/tox-codec-json/src/encode.ts:370-423 | `replaceKeys` fails only in strict mode, and then with STRICT_MODE_VIOLATION |
| Rewrite.ReplaceItems | packages/tox-codec-json/src/encode.ts:391 | an array keeps its length |
| Rewrite.ReplaceRow | packages/tox-codec-json/src/encode.ts:387 | a row keeps its length |
| Rewrite.FailsIffReserved | packages/tox-codec-json/src/encode.ts:396-405 | with no shape table, rewriting fails exactly in strict mode when a reserved key occurs somewhere in the data |
| Rewrite.ReservedRootKey | packages/tox-codec-json/src/encode.ts:397-403 | a reserved key at the root is reported with the message "Reserved key '...' found in data" and the path `<root>.key` |
| Rewrite.ReplaceIdentity | packages/tox-codec-json/src/encode.ts:370-423 | with no dictionary, no path pool and no shape table, data without reserved keys is returned unchanged |
| Rewrite.OutKeysDistinct | packages/tox-codec-json/src/encode.ts:410-416 | two different pooled keys are written under different ids |
| Rewrite.ResolveUndoesReplace | packages/tox-codec-json/src/encode.ts:370-423 | when only the dictionary is in use and decoding maps every id back to its key, decoding undoes the key rewriting |
| Rewrite.FieldsUndone | packages/tox-codec-json/src/encode.ts:396-420 | each member is written under its id, and decoding the rewritten members gives back the original members |
| Rewrite.PathLeafRestores | packages/tox-codec-json/src/encode.ts:373-377 | a path-like string becomes the array of its segment ids, those ids resolve back to its segments, and for a clean path they join back into it |
| Encode.NormalizeOptions | packages/tox-codec-json/src/encode.ts:101-104 | the encoder always normalises with sorted keys and passes its own `strict` flag on |
| Encode.EncodeJson | packages/tox-codec-json/src/encode.ts:82-470 | the encoder, with its pools filled in place, computes exactly what `EncodeSpec` describes: a reported error, a rejected preset, an undefined value, the thrown rewrite error, or the document |
| Encode.BuildPathLayer | packages/tox-codec-json/src/encode.ts:193-255 | the path pool is built only when wanted, and then its dictionary and decision are those of the path layer |
| Encode.BuildShapeLayer | packages/tox-codec-json/src/encode.ts:257-367 | the shape analysis runs unless the pool is off, and the shapes dictionary is built only when the pool was used |
| Encode.DocumentParts | packages/tox-codec-json/src/encode.ts:442-456 | the document has version "1.0", its `$meta`, and its `data`; `$dict`, `$pathDict` and `$shapes` appear exactly when their layer is applied and non-empty |
| Encode.MetaParts | packages/tox-codec-json/src/encode.ts:444-451 | `$meta` records `generatedAt`, the producer `kb-tox@0.1.0` and `encodeMs`, and it has a `preset` exactly when the preset is non-empty |
| Encode.MetaPreset | packages/tox-codec-json/src/encode.ts:448 | a non-empty preset is recorded as it was given |
| Encode.DecodedDocument | packages/tox-codec-json/src/decode.ts:19-65 | decoding an encoder document always succeeds, and it resolves `data` against `$dict` when that is present |
| Encode.DocumentLayout | packages/tox-codec-json/src/encode.ts:442-456 | a successful document has version "1.0" and the producer, its `data` is the rewritten value, and `$dict` is present exactly under the dictionary rule (non-empty and compact, or at least 2000 characters with overhead below 30%), holding the key dictionary |
| Encode.PresetRecorded | packages/tox-codec-json/src/encode.ts:448 | every successful encode has `$meta`, and it records `preset` exactly when the option is non-empty |
| Encode.ReservedPresetRejected | packages/tox-codec-json/src/encode.ts:119-128 | in strict mode the first reserved preset key fails the encode with STRICT_MODE_VIOLATION, the message "Reserved key '...' cannot be used in preset" and the hint `presetKeys[i]` |
| Encode.LenientNeverFails | packages/tox-codec-json/src/encode.ts:82-470 | in lenient mode every input whose normalised value is defined, and whose long arrays hand back raw items that can be written as JSON, encodes successfully |
| Encode.EncodeOrderFree | packages/tox-codec-json/src/encode.ts:100-104 | two plain inputs within the limits that differ only in the order of members, at any depth, encode to the same document |
| Encode.StrictReservedData | packages/tox-codec-json/src/encode.ts:396-405 | in strict mode, with no array shape-encoded, the encode fails exactly when a reserved key occurs in the data, and then with STRICT_MODE_VIOLATION |
| Encode.KeyPoolFacts | packages/tox-codec-json/src/encode.ts:116-157 | the key pool is well formed and holds every non-reserved data key |
| Encode.DictNamesKey | packages/tox-codec-json/src/encode.ts:160 | the key dictionary maps each pooled key's id back to the key |
| Encode.RoundTrip | packages/tox-codec-json/src/encode.ts:82-470 | with the corrected decoder, decoding the document gives the normalised data back, when it has no reserved key and neither the path nor the shape layer fired |
| Encode.RoundTripAsWritten | packages/tox-codec-json/src/decode.ts:19-74 | the decoder as written gives the data back under the same conditions, and also when no key is "" or an inherited member name |
| Encode.InputRoundTrip | packages/tox-codec-json/src/encode.ts:82-470 | for plain input within the limits, encoding succeeds and decoding gives back its canonical form |
| Encode.EmptyKeyPooled | packages/tox-codec-json/src/encode.ts:149-171 | in compact mode, the key "" is pooled under a non-empty id that the dictionary maps to "" |
| Encode.OneMemberReplaced | packages/tox-codec-json/src/encode.ts:410-416 | a pooled key is written under its id |
| Encode.FalsyEntryResolved | packages/tox-codec-json/src/decode.ts:50-52 | an id whose dictionary entry is "" is left as it is by the decoder as written, and turned back into "" by the corrected one |
| Encode.EmptyKeyLostByEncoder | packages/tox-codec-json/src/decode.ts:50 | `{"": n}` encoded in compact mode decodes to `{k1: n}` as written, and back to `{"": n}` with the corrected decoder |
| Encode.MetaAgainstSchema | packages/tox-codec-json/src/schema.ts:14-30 | every `$meta` the encoder writes is rejected by the published schema (it has `encodeMs`), and accepted by the corrected schema |
| Encode.KeyDictAgainstSchema | packages/tox-codec-json/src/schema.ts:31-39 | the key dictionary satisfies the schema's string-dictionary rule |
| Encode.PathDictAgainstSchema | packages/tox-codec-json/src/schema.ts:40-49 | the path dictionary satisfies the schema's string-dictionary rule |
| Encode.ShapeDictAgainstSchema | packages/tox-codec-json/src/schema.ts:50-62 | the shapes dictionary satisfies the schema's array-of-strings rule |
| Encode.EncoderOutputAgainstSchema | packages/tox-codec-json/src/schema.ts:29 | no document the encoder produces validates against the published schema, and every one validates against the corrected schema |
| Schema.ValidDecodes | packages/tox-codec-json/src/schema.ts:4-79 | every document the schema accepts decodes successfully to a value, with either key lookup |
| Schema.PoolDictionaryValid | packages/tox-codec-json/src/schema.ts:31-49 | the dictionary of a key, string or path pool has only `[ksp]<digits>` keys and string values, and a path pool's only `p<digits>` keys |
| Schema.CorrectedOnlyWidensMeta | packages/tox-codec-json/src/encode.ts:23-51 | the corrected schema, whose `$meta` admits what the `ToxJson` type declares, accepts every document the published schema accepts |
| Schema.PoolShapesValid | packages/tox-codec-json/src/schema.ts:50-62 | the dictionary of a shape pool has only `s<digits>` keys and arrays of strings as values |
| Canonicalize.SplitOn | packages/tox-adapters/src/mind/path-canonicalization.ts:30 | `split('/')` yields at least one piece, no piece holds a slash, and a string without a slash is its own single piece |
| Canonicalize.JoinSplit | packages/tox-adapters/src/mind/path-canonicalization.ts:30-49 | joining the pieces of a split with "/" gives the string back |
| Canonicalize.SplitCount | packages/tox-adapters/src/mind/path-canonicalization.ts:20-30 | a string contains a slash exactly when it splits into two or more pieces |
| Canonicalize.JoinPrefix | packages/tox-adapters/src/mind/path-canonicalization.ts:49 | the first d pieces joined, followed by "/", begin the whole joined string |
| Canonicalize.DirectoryPart | packages/tox-adapters/src/mind/path-canonicalization.ts:12-17 | a single string's prefix is its part up to and including the last slash: a prefix of it, empty exactly when it has no slash, ending in a slash otherwise, with no slash after it |
| Canonicalize.PathLike | packages/tox-adapters/src/mind/path-canonicalization.ts:20 | the filter keeps exactly the strings that contain a slash |
| Canonicalize.PathLikeCount | packages/tox-adapters/src/mind/path-canonicalization.ts:20 | the filter keeps every copy of a string with a slash and no copy of any other string |
| Canonicalize.SegmentArrays | packages/tox-adapters/src/mind/path-canonicalization.ts:30 | one segment array per sorted string, in order |
| Canonicalize.Segmented | packages/tox-adapters/src/mind/path-canonicalization.ts:20-30 | one segment array per string with a slash |
| Canonicalize.SegmentedOrderFree | packages/tox-adapters/src/mind/path-canonicalization.ts:25 | because the strings are sorted first, the segment arrays do not depend on the input order |
| Canonicalize.CommonDepth | packages/tox-adapters/src/mind/path-canonicalization.ts:33-42 | the loop stops at the first depth where the first array has no segment, its segment is empty, or some array differs, and every depth before it agrees |
| Canonicalize.DepthShared | packages/tox-adapters/src/mind/path-canonicalization.ts:33-42 | every array has at least the common depth of segments, none of them empty, and all arrays share the same leading segments |
| Canonicalize.CommonPrefixOf | packages/tox-adapters/src/mind/path-canonicalization.ts:10-51 | no strings give ""; the prefix is either "" or ends in a slash |
| Canonicalize.LongestCommonPrefix | packages/tox-adapters/src/mind/path-canonicalization.ts:10-51 | the method with its search loop computes the specified prefix |
| Canonicalize.SeparatorlessIgnored | packages/tox-adapters/src/mind/path-canonicalization.ts:19-22 | with two or more strings, adding a string without a slash never changes the prefix |
| Canonicalize.PrefixEmpty | packages/tox-adapters/src/mind/path-canonicalization.ts:45-47 | with two or more strings, the prefix is "" exactly when no leading segment is shared |
| Canonicalize.PrefixSegments | packages/tox-adapters/src/mind/path-canonicalization.ts:44-50 | the prefix is the shared leading segments of every path-like string, joined by "/" and followed by "/" |
| Canonicalize.PrefixMaximal | packages/tox-adapters/src/mind/path-canonicalization.ts:33-42 | the prefix cannot be extended: for any next segment, some path-like string does not continue with it |
| Canonicalize.PrefixBegins | packages/tox-adapters/src/mind/path-canonicalization.ts:44-50 | the prefix begins every path-like string that has more segments than the prefix; a string that is the prefix without its final slash is not covered |
| Canonicalize.PrefixOrderFree | packages/tox-adapters/src/mind/path-canonicalization.ts:24-25 | the prefix does not depend on the order of the strings |
| Canonicalize.CollectAllPaths | packages/tox-adapters/src/mind/path-canonicalization.ts:56-88 | the recursive method leaves in `paths` and `seen` what the `Collect` function describes; an object is remembered in `seen` by the text of its constructor name (`Object` unless an own `constructor` object has a truthy `name`), `_`, and its key count |
| Canonicalize.ObjectIdParts | packages/tox-adapters/src/mind/path-canonicalization.ts:72 | two objects get the same `seen` text exactly when their constructor names are the same text and they have as many keys |
| Canonicalize.SameSuffixSplit | packages/tox-adapters/src/mind/path-canonicalization.ts:72 | a name, `_` and a run of digits can be split back in only one way, so the id text determines the name and the count |
| Canonicalize.CollectExtends | packages/tox-adapters/src/mind/path-canonicalization.ts:56-88 | collecting only appends to `paths` and only adds to `seen` |
| Canonicalize.AllPathsLikely | packages/tox-adapters/src/mind/path-canonicalization.ts:58-95 | every collected string passes the module's own path test (a slash, or one of eight extensions, case-sensitive) |
| Canonicalize.SameKeyCountSkipped | packages/tox-adapters/src/mind/path-canonicalization.ts:72-76 | an object with the same constructor-name text and as many keys as one visited before it is skipped, so none of its paths are collected |
| Canonicalize.UnseenIdVisited | packages/tox-adapters/src/mind/path-canonicalization.ts:72-86 | an object whose id is not yet in `seen` is visited: its id is added and its members are collected after what came before |
| Canonicalize.Strip | packages/tox-adapters/src/mind/path-canonicalization.ts:102-125 | a path-like string that begins with the prefix loses it; any other string is kept |
| Canonicalize.Transform | packages/tox-adapters/src/mind/path-canonicalization.ts:100-132 | arrays stay arrays of the same length, objects stay objects, and scalars other than strings are unchanged |
| Canonicalize.TransformIdentity | packages/tox-adapters/src/mind/path-canonicalization.ts:100-132 | a value with no path-like string or key under the prefix is returned unchanged |
| Canonicalize.CanonicalizePaths | packages/tox-adapters/src/mind/path-canonicalization.ts:138-163 | without a prefix the data is returned unchanged; a reported prefix is non-empty and ends in a slash |
| Canonicalize.CanonicalizeCharacterised | packages/tox-adapters/src/mind/path-canonicalization.ts:138-163 | a prefix is reported exactly when some path was collected and they share a prefix, and it is that prefix; data with nothing under the prefix comes back unchanged |
| Canonicalize.ConstructorNameCollected | packages/tox-adapters/src/mind/path-canonicalization.ts:138-163 | for `{"constructor": {"name": p}}` with a slash in p, the root's id is `p_1` and the inner object's `Object_1`, so both are visited: p is the one path, its directory is reported as the prefix and stripped from it |
| QueryResult.Member | packages/tox-adapters/src/mind/queryResult.ts:82-85 | reading a member that an object does not have gives `undefined` |
| QueryResult.SetProp | packages/tox-adapters/src/mind/queryResult.ts:86-107 | assigning to an existing member keeps the object's keys and their order |
| QueryResult.SetPropMember | packages/tox-adapters/src/mind/queryResult.ts:86-107 | after the assignment the member reads as the new value and every other member reads as before |
| QueryResult.SetPropSame | packages/tox-adapters/src/mind/queryResult.ts:86-95 | writing back a member's own value leaves the object as it was |
| QueryResult.SetPropTwice | packages/tox-adapters/src/mind/queryResult.ts:86-107 | of two assignments to one member, only the second one remains |
| QueryResult.TripleLeTotal | packages/tox-adapters/src/mind/queryResult.ts:86-90 | the edge comparator on (from, to, type) ranks any two edges one way or the other |
| QueryResult.TripleLeTransitive | packages/tox-adapters/src/mind/queryResult.ts:86-90 | the edge comparator is transitive |
| QueryResult.EdgeLeTotal | packages/tox-adapters/src/mind/queryResult.ts:86-90 | the edge order is a total preorder, so sorting by it is well defined |
| QueryResult.ImporterLeTotal | packages/tox-adapters/src/mind/queryResult.ts:95-97 | the importer order by `file` (missing as "") is a total preorder |
| QueryResult.ItemLeTotal | packages/tox-adapters/src/mind/queryResult.ts:105 | the default `sort()` order, by the UTF-16 code units of the string forms, is a total preorder |
| QueryResult.SortedEdges | packages/tox-adapters/src/mind/queryResult.ts:86-90 | the sorted edges are ordered by (from, to, type) and are a permutation of the input edges |
| QueryResult.SortedEdgesStable | packages/tox-adapters/src/mind/queryResult.ts:86-90 | edges that tie on (from, to, type) keep their relative order |
| QueryResult.SortedImporters | packages/tox-adapters/src/mind/queryResult.ts:95-97 | the sorted importers are ordered by file and are a permutation of the input |
| QueryResult.SortedImportersStable | packages/tox-adapters/src/mind/queryResult.ts:95-97 | importers with equal files keep their relative order |
| QueryResult.SortedArray | packages/tox-adapters/src/mind/queryResult.ts:105 | an array is sorted in place: the same array, now ordered by string form, holding the same items |
| QueryResult.SortedArrayStable | packages/tox-adapters/src/mind/queryResult.ts:105 | items with the same string form keep their relative order |
| QueryResult.SortedExternals | packages/tox-adapters/src/mind/queryResult.ts:102-107 | when every key reads an array, the rebuilt externals object has one entry per key of the original |
| QueryResult.SortExternals | packages/tox-adapters/src/mind/queryResult.ts:102-107 | the loop over the sorted keys builds the specified externals object, or throws the TypeError exactly when some key reads something other than an array |
| QueryResult.SortedExternalsAt | packages/tox-adapters/src/mind/queryResult.ts:104-105 | member j of the rebuilt object is the j-th sorted key with its array sorted |
| QueryResult.SortedExternalsKeys | packages/tox-adapters/src/mind/queryResult.ts:104-105 | the rebuilt object is keyed by the sorted keys, each reading an array |
| QueryResult.NotMemberArray | packages/tox-adapters/src/mind/queryResult.ts:105 | a key that reads something other than an array makes `.sort()` fail |
| QueryResult.EdgesStep | packages/tox-adapters/src/mind/queryResult.ts:85-91 | sorting `edges` keeps the result object's keys |
| QueryResult.ImportersStep | packages/tox-adapters/src/mind/queryResult.ts:94-98 | sorting `importers` keeps the result object's keys |
| QueryResult.ExternalsStep | packages/tox-adapters/src/mind/queryResult.ts:101-108 | replacing `externals` keeps the result object's keys, and throws exactly when `externals` is a truthy object with a key that reads something other than an array |
| QueryResult.SortedInner | packages/tox-adapters/src/mind/queryResult.ts:84-108 | the three steps together keep the result object's keys |
| QueryResult.SortedSpecial | packages/tox-adapters/src/mind/queryResult.ts:78-112 | when it returns, the answer is a fresh copy of the query result with the same keys |
| QueryResult.SortEdges | packages/tox-adapters/src/mind/queryResult.ts:85-91 | the edges step as the source runs it |
| QueryResult.SortImporters | packages/tox-adapters/src/mind/queryResult.ts:94-98 | the importers step as the source runs it |
| QueryResult.RebuildExternals | packages/tox-adapters/src/mind/queryResult.ts:101-108 | the externals step as the source runs it, for any truthy object: a plain object, an array, a Date, a Map or a Set |
| QueryResult.SortInner | packages/tox-adapters/src/mind/queryResult.ts:84-108 | the three steps in order compute the specified inner result |
| QueryResult.SortSpecialArrays | packages/tox-adapters/src/mind/queryResult.ts:78-112 | the whole method computes the specified sorted copy |
| QueryResult.InnerMember | packages/tox-adapters/src/mind/queryResult.ts:84-108 | the steps throw exactly when a key of a truthy-object `externals` reads a non-array; otherwise `edges`, `importers` and `externals` read as their sorted forms when they have the expected kind, and every other member is unchanged |
| QueryResult.EdgesOrdered | packages/tox-adapters/src/mind/queryResult.ts:85-91 | an `edges` array stays the same array, now ordered by (from, to, type), with the same edges and ties in their old order |
| QueryResult.ImportersOrdered | packages/tox-adapters/src/mind/queryResult.ts:94-98 | an `importers` array stays the same array, now ordered by file, with the same entries and ties in their old order |
| QueryResult.ExternalsEntries | packages/tox-adapters/src/mind/queryResult.ts:102-107 | the rebuilt externals list their keys in UTF-16 code-unit order, the same keys as before, each with its array sorted |
| QueryResult.ExternalsOrdered | packages/tox-adapters/src/mind/queryResult.ts:101-108 | a truthy-object `externals` whose keys all read arrays does not throw, and is replaced by a new object whose keys are ordered and whose arrays are sorted |
| QueryResult.ExternalsStepMember | packages/tox-adapters/src/mind/queryResult.ts:101-108 | when the externals step returns on a truthy object, `externals` reads as the new object of sorted arrays |
| QueryResult.ExternalsWithoutKeys | packages/tox-adapters/src/mind/queryResult.ts:101-107 | a Date, Map or Set `externals` has no keys, so it becomes an empty new object |
| QueryResult.ExternalsFromArrayThrows | packages/tox-adapters/src/mind/queryResult.ts:101-107 | an array `externals` throws exactly when one of its items is not an array |
| QueryResult.ExternalsFromArray | packages/tox-adapters/src/mind/queryResult.ts:101-107 | an array `externals` that does not throw becomes an object with one member per index, the decimal index mapping to that item sorted |
| QueryResult.ArrayEntries | packages/tox-adapters/src/mind/queryResult.ts:104 | an array's keys are its decimal indices, each reading its item; all read arrays exactly when all items are arrays |
| QueryResult.IndexKey | packages/tox-adapters/src/mind/queryResult.ts:104-105 | index i of an array is its i-th key and reads item i |
| QueryResult.CopyMember | packages/tox-adapters/src/mind/queryResult.ts:79-111 | the copy throws exactly when the steps on an object `result` throw; otherwise it differs from the input only in `result`, and only when `result` is an object |
| QueryResult.SortedArrayTwice | packages/tox-adapters/src/mind/queryResult.ts:105 | sorting an array a second time changes nothing |
| QueryResult.ExternalsTwice | packages/tox-adapters/src/mind/queryResult.ts:102-107 | rebuilding the externals a second time changes nothing |
| QueryResult.InnerTwice | packages/tox-adapters/src/mind/queryResult.ts:84-108 | when the steps return, running them again on their output changes nothing |
| QueryResult.EdgesSettled | packages/tox-adapters/src/mind/queryResult.ts:85-91 | the edges the steps return are already sorted |
| QueryResult.ImportersSettled | packages/tox-adapters/src/mind/queryResult.ts:94-98 | the importers the steps return are already sorted |
| QueryResult.ExternalsSettled | packages/tox-adapters/src/mind/queryResult.ts:101-108 | the externals the steps return are rebuilt to themselves |
| QueryResult.SortSpecialTwice | packages/tox-adapters/src/mind/queryResult.ts:78-112 | the special sort is idempotent: when it returns, sorting its output again gives the same object |
| QueryResult.ToToxQueryResult | packages/tox-adapters/src/mind/queryResult.ts:38-73 | the conversion picks the preset keys, sorts the special arrays (ending with the TypeError when that sort throws), then encodes with the given flags |
| QueryResult.DefaultPresetSeeded | packages/tox-adapters/src/mind/queryResult.ts:10-48 | the default preset seeds the sixteen default keys, none of them reserved, whatever a preset file holds |
| QueryResult.PresetRecordedOnlyForDefault | packages/tox-adapters/src/mind/queryResult.ts:69 | an encoded document records `preset` in `$meta` exactly when the preset is `mind-v1`, and then records it as "mind-v1" |

## Left out

- Numbers are integers. Floating-point arithmetic, `-0`, the text of non-integral numbers and `String(number)` for large magnitudes are not modelled; a number's decimal text is its integer digits.
- The ratio thresholds (0.3, 0.15, 0.8, the average segment count) are compared exactly, by integer cross-multiplication. JavaScript compares doubles, so inputs that sit exactly on a boundary may be classified differently.
- `JSON.stringify(..).length` is the number of UTF-16 code units of `Json.JsonText`, which escapes only `"` and `\`. Control characters are not escaped as JavaScript would. A string holding a lone surrogate cannot be represented, because a Dafny `char` is a Unicode scalar value.
- `localeCompare` is a fixed case-folding order (letters compared without case, ties broken with lower case first). The ICU collation the runtime uses is not modelled. The default `sort()` order is exact: UTF-16 code units.
- Normalization: object keys that look like array indices are not listed first. The `__proto__` key gets no special treatment. An invalid `Date` is not modelled. A BigInt the normaliser meets is rejected or nulled as in the source; its text is not modelled.
- Normalization.JsonView: the lenient truncation of a long array hands back its first items raw, and the model reads them as JSON. The source keeps the raw values, which differs in four ways. A raw Date is written by `JSON.stringify` as its ISO text, but `replaceKeys` turns it into `{}`; the model gives the ISO text. A raw BigInt makes `JSON.stringify` throw, so the encode fails with ENCODE_ERROR; the model gives `null`. Object members holding `undefined`, a function or a symbol are dropped by the model but their keys are still pooled by `collectKeys`. A raw value that contains one of its own ancestors makes the walk recurse without end; the model cannot express that shape.
- NormalizeFacts.RootErrorKeyMisread: proved for a root object whose only member is `error`. An object with further members is misread the same way (lenient mode returns its `value` member, if any), but no lemma states that.
- ToxAst.RootErrorKeyThrows: proved for a root object whose only member is `error`, as for `NormalizeFacts.RootErrorKeyMisread`.
- Shapes.GetShape: parses only text of the form `addShape` writes, `JSON.stringify` of a string array: no whitespace, and no escapes but `\"` and `\\`. `ShapePool.add` is public and can pool other text, such as `[ "a" ]`, `["\u0061"]` or `1`. `JSON.parse` reads such text and the source returns the value; the model returns undefined.
- Shapes.ToShapesDict: reads each pooled value with the same parser as `Shapes.GetShape`. An entry in another form that `JSON.parse` accepts gets a member in the source's dictionary, holding the parsed value, which may not be an array; the model drops it.
- NormalizeFacts.ArrayLengthLimit: states the truncated items as `Normalization.JsonView` reads them, with the differences listed for `Normalization.JsonView`.
- Encode.LenientNeverFails: stated only when the raw items of every truncated array can be written as JSON (`Normalization.RawItemsStringifiable`: no BigInt and no cycle among them), because the source fails with ENCODE_ERROR otherwise.
- Normalization: `visited` and the key count are threaded as values, not as a shared mutable set and counter. The order in which they are updated is the source's.
- Normalization: the limits in `limits.ts` (maximum depth, array length, key count) are parameters. `limits.ts` is not part of this model.
- Encode.EncodeSpec: the clock readings `generatedAt` and `encodeMs` are inputs (`Encode.Environment`), not clock reads.
- Encode.Decisions: the floating-point members of the decisions record (`pathsRatio`, `avgSegments`, `uniformity`) are not written. The boolean and integer members are.
- Encode.EncodeSpec: the options `debug`, `enableValuePool`, `columnarThreshold` and `adaptive` are never read by the encoder, so they are not represented. No columnar layout and no value-pool wiring are modelled, because none exists in the encoder.
- Decode.DecodeJson: like the source, it reverses only the key dictionary. `$pathDict`, `$shapes` and `$valDict` are never applied, so the round-trip theorems require that neither the path layer nor the shape layer fired.
- EncodeShapes.ShapeAnalysis: arrays are recorded under their dotted path, as in the source. Distinct arrays whose paths print the same (a key `a.b` next to a nested `a` → `b`) can collide. No lemma states this.
- Decode.AsWrittenKey: of the inherited `Object.prototype` members only the named ones with their function text are modelled. A truthy `$dict` that is not an object (an array, a string, a number) is treated as having no own members.
- Schema.Valid: the `date-time` format of `$meta.generatedAt` is not checked.
- Encode.EncodeOrderFree: stated for plain data within the limits only. An object that exhausts the key budget keeps its first keys in their original order (normalize.ts:202-211), so in lenient mode the outcome can then depend on key order.
- Two encodes of the same query result agree once `generatedAt` and `encodeMs` are fixed, because `QueryResult.Converted` is a function of its inputs. No further lemma states it.
- QueryResult: a comparator that throws (a missing `from` or `to` compared with a present one) is not modelled; such members compare as "". `sort()` places `undefined` elements last; the model compares them by their string form.
- QueryResult.ToToxQueryResult: reading the preset file is the parameter `loaded` (the string array the file holds, or none). A file that holds an array of non-strings is not modelled.
- QueryResult.SortedEdges: its own contract states the order and the permutation only; the order of tied edges (equal `from`, `to` and `type`) is stated separately by `QueryResult.SortedEdgesStable`.
- QueryResult.SortedImporters: its own contract states the order and the permutation only; the order of importers with equal `file` is stated separately by `QueryResult.SortedImportersStable`.
- QueryResult.SortedSpecial: when `.sort()` throws, the model returns only the TypeError. In the source, the changes made before the throw stay visible to the caller: `edges` and `importers` sorted in place, and the `externals` arrays sorted before the failing key. A query result that is not an object is excluded by the precondition, because the source's callers pass only objects.
- QueryResult.SortedExternals: a JavaScript object lists integer-like keys first, in numeric order, whatever order they were assigned in. The model keeps the sorted string order, so for keys such as "10" and "2" (an array `externals` of more than ten items) its member order differs.
- QueryResult.SortedSpecial: aliasing is modelled only through object references. Sorting in place on an array reachable from elsewhere shows up only under that array's reference.
- ToxAst.PoolEntry: the pool is modelled as its own entries. In the source, `ast.stringPool[val]` also reads the members every object inherits from `Object.prototype` (`toString`, `constructor`, `__proto__`, …). Those are truthy, so a string member naming one is replaced by a function or by the prototype object. The model leaves such a member resolved as a string.
- Canonicalize.Transform: the identity-based `transformed` set is not modelled. The model's values are trees, which never revisit a node.
- Canonicalize.CtorName: the constructor name is the own `constructor` member's truthy own `name`, as JavaScript text. A `name` object with its own non-function `toString`, which makes the template literal throw, is not modelled; it is read as `[object Object]`. Numbers are integers throughout the model, so only an integer `name` is turned into text.
- Decode.ResolveFields, ToxAst.ResolveMembers, Canonicalize.TransformFields and Rewrite.ReplaceFields: the source builds each object with `result[key] = …`. A JavaScript object lists integer-like keys first, in numeric order, and `"__proto__"` sets the prototype instead of creating a member. The model keeps assignment order and treats `__proto__` as an ordinary key.
- `hash.ts` (SHA-256 through `node:crypto`) and `estimateTokens` (a call into another package, with float scaling) are not modelled.
- `toToxQueryResult`'s inverse `fromToxQueryResult` is `decodeJson` followed by a cast. It is not modelled separately.
- The command-line tool, the benchmarks, the release manifest and the analytics are not modelled. They are I/O and presentation.

## Findings

| source | as written | input that shows it | evidently intended | confidence | as-written member | corrected member |
|---|---|---|---|---|---|---|
| packages/tox-codec-json/src/decode.ts:50 | `if (dict[key])` skips an entry that is the empty string, so an id pooled for the empty key is left in place | `{"": n}` encoded with `compact` and no path or shape layer: the decoder returns `{"k1": n}` | an entry is applied whenever the dictionary has it, so `{"": n}` comes back | not executed | Decode.EmptyKeyNotRestored, Encode.EmptyKeyLostByEncoder | Decode.EmptyKeyRestoredCorrected, Encode.RoundTrip |
| packages/tox-codec-json/src/decode.ts:32-50 | `dict[key]` also reads inherited `Object.prototype` members, which are truthy, even when there is no `$dict` | `{"$schemaVersion": "1.0", "data": {"constructor": 1}}`: the key is replaced by the text of the `Object` function | only own string members of `$dict` rename keys | not executed | Decode.ConstructorKeyRewritten | Decode.NoDictionaryDecodesToDataCorrected |
| packages/tox-codec-json/src/schema.ts:29 | `$meta` allows only `generatedAt`, `producer` and `preset`, but the encoder always writes `encodeMs` (encode.ts:447) | any document the encoder returns | the schema admits the `$meta` members the encoder writes | not executed | Encode.EncoderOutputAgainstSchema | Schema.CorrectedOnlyWidensMeta |
