/**
 * Path segment pooling: splitting and joining paths, the path-likeness
 * heuristic, the PathPool operations layered on the interning pool, and the
 * path statistics the encoder's path-pool decision reads.
 */
module Paths {
  import opened Wrappers
  import Strings
  import Json
  import Pool
  import opened Ratios

  // ---------------------------------------------------------------------------
  // splitPath / joinPath
  // ---------------------------------------------------------------------------

  predicate IsSep(c: char) { c == '/' || c == '\\' }

  /** `path.replace(/\\/g, '/')`. */
  function Slashes(s: string): (r: string)
    ensures |r| == |s|
    ensures forall i :: 0 <= i < |s| ==> r[i] == (if s[i] == '\\' then '/' else s[i])
  {
    if s == [] then [] else [if s[0] == '\\' then '/' else s[0]] + Slashes(s[1..])
  }

  /** Index of the first occurrence of `c` in `s`, which contains it. */
  function IndexOf(s: string, c: char): (r: nat)
    requires c in s
    ensures r < |s| && s[r] == c && c !in s[..r]
  {
    if s[0] == c then 0
    else
      assert s == [s[0]] + s[1..];
      var r := IndexOf(s[1..], c) + 1;
      assert s[..r] == [s[0]] + s[1..][..r - 1];
      r
  }

  /** `s.split(c)`: the pieces between occurrences of `c`, empty pieces included. */
  function SplitOn(s: string, c: char): (r: seq<string>)
    ensures |r| >= 1
    ensures forall i :: 0 <= i < |r| ==> c !in r[i]
    decreases |s|
  {
    if c !in s then [s]
    else
      var i := IndexOf(s, c);
      [s[..i]] + SplitOn(s[i + 1..], c)
  }

  /** `segments.join(c)`. */
  function JoinWith(segments: seq<string>, c: char): string
  {
    if segments == [] then ""
    else if |segments| == 1 then segments[0]
    else segments[0] + [c] + JoinWith(segments[1..], c)
  }

  /** Splitting and joining on the same character give back the string. */
  lemma {:induction false} JoinSplitOn(s: string, c: char)
    ensures JoinWith(SplitOn(s, c), c) == s
    decreases |s|
  {
    if c in s {
      var i := IndexOf(s, c);
      var rest := SplitOn(s[i + 1..], c);
      assert SplitOn(s, c) == [s[..i]] + rest;
      JoinSplitOn(s[i + 1..], c);
      JoinCons(s[..i], rest, c);
      assert s == s[..i] + [c] + s[i + 1..];
    }
  }

  lemma JoinCons(first: string, rest: seq<string>, c: char)
    requires rest != []
    ensures JoinWith([first] + rest, c) == first + [c] + JoinWith(rest, c)
  {
    assert ([first] + rest)[1..] == rest;
  }

  /** A character absent from the string is absent from every piece. */
  lemma {:induction false} SplitOnKeepsOut(s: string, c: char, d: char)
    requires d !in s
    ensures forall i :: 0 <= i < |SplitOn(s, c)| ==> d !in SplitOn(s, c)[i]
    decreases |s|
  {
    if c in s {
      var i := IndexOf(s, c);
      assert s == s[..i] + [c] + s[i + 1..];
      SplitOnKeepsOut(s[i + 1..], c, d);
    }
  }

  /** `.filter((seg) => seg.length > 0)`. */
  function NonEmpty(segments: seq<string>): (r: seq<string>)
    ensures forall i :: 0 <= i < |r| ==> r[i] != "" && r[i] in segments
    ensures (forall i :: 0 <= i < |segments| ==> segments[i] != "") ==> r == segments
  {
    if segments == [] then []
    else if segments[0] == "" then NonEmpty(segments[1..])
    else [segments[0]] + NonEmpty(segments[1..])
  }

  /**
   * `splitPath(path)`: the empty path has no segments; otherwise the
   * non-empty pieces between separators, either separator counting.
   */
  function SplitPath(path: string): (r: seq<string>)
    ensures path == "" ==> r == []
    ensures forall i :: 0 <= i < |r| ==> r[i] != "" && '/' !in r[i] && '\\' !in r[i]
  {
    if path == "" then []
    else
      var pieces := SplitOn(Slashes(path), '/');
      SplitOnKeepsOut(Slashes(path), '/', '\\');
      NonEmpty(pieces)
  }

  /** `joinPath(segments)`. */
  function JoinPath(segments: seq<string>): string
  {
    if |segments| == 0 then "" else JoinWith(segments, '/')
  }

  lemma JoinPathBasics(x: string)
    ensures JoinPath([]) == ""
    ensures JoinPath([x]) == x
  {
  }

  /** Splitting what was joined on a character no segment holds gives the segments back. */
  lemma {:induction false} SplitOnJoin(segments: seq<string>, c: char)
    requires segments != []
    requires forall i :: 0 <= i < |segments| ==> c !in segments[i]
    ensures SplitOn(JoinWith(segments, c), c) == segments
    decreases |segments|
  {
    if |segments| > 1 {
      var first := segments[0];
      var rest := JoinWith(segments[1..], c);
      var s := first + [c] + rest;
      assert JoinWith(segments, c) == s;
      assert s[|first|] == c && s[..|first|] == first && s[|first| + 1..] == rest;
      SplitOnJoin(segments[1..], c);
    }
  }

  /** A character no segment holds, other than the separator, is not in the joined string. */
  lemma {:induction false} JoinWithKeepsOut(segments: seq<string>, c: char, d: char)
    requires d != c
    requires forall i :: 0 <= i < |segments| ==> d !in segments[i]
    ensures d !in JoinWith(segments, c)
    decreases |segments|
  {
    if |segments| > 1 {
      JoinWithKeepsOut(segments[1..], c, d);
    }
  }

  /**
   * `splitPath(joinPath(segments))` gives back segments that are non-empty
   * and hold neither separator.
   */
  lemma JoinSplitPath(segments: seq<string>)
    requires forall i :: 0 <= i < |segments| ==> segments[i] != "" && !('/' in segments[i]) && !('\\' in segments[i])
    ensures SplitPath(JoinPath(segments)) == segments
  {
    if segments != [] {
      var p := JoinWith(segments, '/');
      assert |p| >= |segments[0]| > 0;
      JoinWithKeepsOut(segments, '/', '\\');
      assert Slashes(p) == p;
      SplitOnJoin(segments, '/');
    }
  }

  /** No leading, trailing or doubled separators, and not empty. */
  predicate CleanPath(p: string)
  {
    && p != ""
    && !IsSep(p[0])
    && !IsSep(p[|p| - 1])
    && forall i :: 0 <= i < |p| - 1 ==> !(IsSep(p[i]) && IsSep(p[i + 1]))
  }

  /** The same, for a string whose only separator is `/`. */
  predicate CleanSlashed(t: string)
  {
    && t != ""
    && t[0] != '/'
    && t[|t| - 1] != '/'
    && forall i :: 0 <= i < |t| - 1 ==> !(t[i] == '/' && t[i + 1] == '/')
  }

  lemma {:induction false} CleanSplitHasNoEmptyPiece(t: string)
    requires CleanSlashed(t)
    ensures forall i :: 0 <= i < |SplitOn(t, '/')| ==> SplitOn(t, '/')[i] != ""
    decreases |t|
  {
    if '/' in t {
      var i := IndexOf(t, '/');
      var rest := t[i + 1..];
      assert i > 0;
      assert i < |t| - 1;
      assert rest[0] == t[i + 1];
      assert t[i + 1] != '/' by { assert !(t[i] == '/' && t[i + 1] == '/'); }
      assert forall k :: 0 <= k < |rest| ==> rest[k] == t[i + 1 + k];
      CleanSplitHasNoEmptyPiece(rest);
    }
  }

  /**
   * For a path with no leading, trailing or doubled separators, joining its
   * segments gives back the path with every backslash turned into a slash.
   */
  lemma SplitJoinRoundTrip(p: string)
    requires CleanPath(p)
    ensures JoinPath(SplitPath(p)) == Slashes(p)
  {
    var t := Slashes(p);
    assert CleanSlashed(t) by {
      forall i | 0 <= i < |t| - 1 ensures !(t[i] == '/' && t[i + 1] == '/') {
        assert !(IsSep(p[i]) && IsSep(p[i + 1]));
      }
    }
    CleanSplitHasNoEmptyPiece(t);
    JoinSplitOn(t, '/');
  }

  // ---------------------------------------------------------------------------
  // isLikelyPath
  // ---------------------------------------------------------------------------

  /** The extensions of the case-insensitive file-extension test. */
  const Extensions: seq<string> :=
    ["ts", "js", "json", "md", "tsx", "jsx", "mjs", "cjs", "yaml", "yml", "txt", "csv"]

  /** The directory names of the leading-directory test. */
  const RootDirs: seq<string> :=
    ["packages", "src", "dist", "lib", "test", "tests", "docs", "node_modules", ".kb", "apps"]

  /** `/\.(ts|js|...|csv)$/i`: ASCII letters compare case-insensitively. */
  predicate HasExtension(s: string)
  {
    exists i :: 0 <= i < |Extensions| && Strings.EndsWith(Strings.Fold(s), "." + Extensions[i])
  }

  /** `/^(packages|src|...|apps)\//`. */
  predicate HasRootDir(s: string)
  {
    exists i :: 0 <= i < |RootDirs| && Strings.StartsWith(s, RootDirs[i] + "/")
  }

  predicate HasSep(s: string) { '/' in s || '\\' in s }

  /** `isLikelyPath(str)`, test by test in the source's order. */
  predicate IsLikelyPath(s: string)
  {
    if |s| == 0 then false
    else if HasSep(s) then true
    else if HasExtension(s) then true
    else if HasRootDir(s) then true
    else false
  }

  /**
   * The empty string is never a path and a string with either separator
   * always is; the leading-directory test can never decide, because every
   * string it accepts contains a slash and was accepted already.
   */
  lemma IsLikelyPathCharacterised(s: string)
    ensures IsLikelyPath(s) <==> s != "" && (HasSep(s) || HasExtension(s))
    ensures s == "" ==> !IsLikelyPath(s)
    ensures HasSep(s) ==> IsLikelyPath(s)
  {
    if HasRootDir(s) {
      var i :| 0 <= i < |RootDirs| && Strings.StartsWith(s, RootDirs[i] + "/");
      var d := RootDirs[i] + "/";
      assert s[|d| - 1] == '/' by { assert s[..|d|] == d; }
    }
  }

  // ---------------------------------------------------------------------------
  // PathPool
  // ---------------------------------------------------------------------------

  /** The ids `addPath` returns: the pool's id for each segment, in order. */
  function SegmentIds(entries: seq<Pool.Entry>, segments: seq<string>): (r: seq<string>)
    ensures |r| == |segments|
  {
    seq(|segments|, i requires 0 <= i < |segments| =>
      var id := Pool.IdOf(entries, segments[i]); if id.Some? then id.value else "")
  }

  /** What `getPath` joins: each id resolved by `SegmentOf`. */
  function ResolveIds(entries: seq<Pool.Entry>, ids: seq<string>): (r: seq<string>)
    ensures |r| == |ids|
  {
    seq(|ids|, i requires 0 <= i < |ids| => SegmentOf(entries, ids[i]))
  }

  /**
   * `addPath(path)`: add each segment to the pool in turn and return their
   * ids. A segment already pooled keeps its id.
   */
  method AddPath(pool: Pool.InternPool, path: string) returns (ids: seq<string>)
    requires pool.Valid()
    modifies pool
    ensures pool.Valid()
    ensures pool.entries == Pool.AddedAll(pool.prefix, old(pool.entries), SplitPath(path))
    ensures ids == SegmentIds(pool.entries, SplitPath(path))
    ensures forall i :: 0 <= i < |ids| ==> Pool.IdOf(pool.entries, SplitPath(path)[i]) == Some(ids[i])
    ensures forall i :: 0 <= i < |ids| && old(Pool.IdOf(pool.entries, SplitPath(path)[i])).Some? ==>
      Some(ids[i]) == old(Pool.IdOf(pool.entries, SplitPath(path)[i]))
  {
    var segments := SplitPath(path);
    ghost var start := pool.entries;
    ids := [];
    var i := 0;
    while i < |segments|
      invariant 0 <= i <= |segments| && |ids| == i
      invariant pool.Valid()
      invariant pool.entries == Pool.AddedAll(pool.prefix, start, segments[..i])
      invariant forall k :: 0 <= k < i ==> Pool.IdOf(pool.entries, segments[k]) == Some(ids[k])
    {
      var id := AddSegment(pool, start, segments, ids);
      ids := ids + [id];
      i := i + 1;
    }
    assert segments[..i] == segments;
    assert ids == SegmentIds(pool.entries, segments);
    KeepsPooledIds(pool.prefix, start, segments);
  }

  /** One turn of `addPath`'s loop: the next segment is added and its id joins the others. */
  method AddSegment(pool: Pool.InternPool, ghost start: seq<Pool.Entry>, segments: seq<string>, ids: seq<string>)
    returns (id: string)
    requires pool.Valid() && |ids| < |segments|
    requires pool.entries == Pool.AddedAll(pool.prefix, start, segments[..|ids|])
    requires forall k :: 0 <= k < |ids| ==> Pool.IdOf(pool.entries, segments[k]) == Some(ids[k])
    modifies pool
    ensures pool.Valid()
    ensures pool.entries == Pool.AddedAll(pool.prefix, start, segments[..|ids| + 1])
    ensures forall k :: 0 <= k < |ids| + 1 ==> Pool.IdOf(pool.entries, segments[k]) == Some((ids + [id])[k])
  {
    var i := |ids|;
    AddKeepsEarlierIds(pool.prefix, pool.entries, segments, ids);
    Pool.AddedAllSnoc(pool.prefix, start, segments[..i], segments[i]);
    assert segments[..i + 1] == segments[..i] + [segments[i]];
    id := pool.Add(segments[i]);
    IdsExtend(pool.entries, segments, ids, id);
  }

  /** Adding the next segment keeps the ids of the segments before it. */
  lemma AddKeepsEarlierIds(prefix: char, before: seq<Pool.Entry>, segments: seq<string>, ids: seq<string>)
    requires Pool.WellFormed(prefix, before)
    requires |ids| < |segments|
    requires forall k :: 0 <= k < |ids| ==> Pool.IdOf(before, segments[k]) == Some(ids[k])
    ensures forall k :: 0 <= k < |ids| ==>
      Pool.IdOf(Pool.Added(prefix, before, segments[|ids|]), segments[k]) == Some(ids[k])
  {
    forall k | 0 <= k < |ids|
      ensures Pool.IdOf(Pool.Added(prefix, before, segments[|ids|]), segments[k]) == Some(ids[k])
    {
      Pool.AddedIdOf(prefix, before, segments[|ids|], segments[k]);
    }
  }

  /** The ids found so far, extended by the id of the next segment. */
  lemma IdsExtend(entries: seq<Pool.Entry>, segments: seq<string>, ids: seq<string>, id: string)
    requires |ids| < |segments|
    requires forall k :: 0 <= k < |ids| ==> Pool.IdOf(entries, segments[k]) == Some(ids[k])
    requires Pool.IdOf(entries, segments[|ids|]) == Some(id)
    ensures forall k :: 0 <= k < |ids| + 1 ==> Pool.IdOf(entries, segments[k]) == Some((ids + [id])[k])
  {
  }

  lemma KeepsPooledIds(prefix: char, start: seq<Pool.Entry>, segments: seq<string>)
    requires Pool.WellFormed(prefix, start)
    ensures forall k :: 0 <= k < |segments| && Pool.IdOf(start, segments[k]).Some? ==>
      Pool.IdOf(Pool.AddedAll(prefix, start, segments), segments[k]) == Pool.IdOf(start, segments[k])
  {
    forall k | 0 <= k < |segments| && Pool.IdOf(start, segments[k]).Some?
      ensures Pool.IdOf(Pool.AddedAll(prefix, start, segments), segments[k]) == Pool.IdOf(start, segments[k])
    {
      Pool.AddedAllKeepsIds(prefix, start, segments, segments[k]);
    }
  }

  /** What `getPath` makes of one id: its pooled value if non-empty, else the id. */
  function SegmentOf(entries: seq<Pool.Entry>, id: string): string
  {
    var v := Pool.ValueOf(entries, id);
    if v.Some? && v.value != "" then v.value else id
  }

  /** `getPath(segmentIds)`. */
  method GetPath(pool: Pool.InternPool, segmentIds: seq<string>) returns (path: string)
    requires pool.Valid()
    ensures path == JoinPath(ResolveIds(pool.entries, segmentIds))
  {
    var segments: seq<string> := [];
    var i := 0;
    while i < |segmentIds|
      invariant 0 <= i <= |segmentIds| && |segments| == i
      invariant forall k :: 0 <= k < i ==> segments[k] == SegmentOf(pool.entries, segmentIds[k])
    {
      var v := pool.Get(segmentIds[i]);
      segments := segments + [if v.Some? && v.value != "" then v.value else segmentIds[i]];
      i := i + 1;
    }
    assert segments == ResolveIds(pool.entries, segmentIds);
    path := JoinPath(segments);
  }

  /**
   * The ids of a path resolve back to its segments: `getPath(addPath(p))` is
   * `joinPath(splitPath(p))`.
   */
  lemma PathRoundTrip(prefix: char, entries: seq<Pool.Entry>, path: string)
    requires Pool.WellFormed(prefix, entries)
    ensures var after := Pool.AddedAll(prefix, entries, SplitPath(path));
      ResolveIds(after, SegmentIds(after, SplitPath(path))) == SplitPath(path)
  {
    var segments := SplitPath(path);
    var after := Pool.AddedAll(prefix, entries, segments);
    Pool.AddedAllWellFormed(prefix, entries, segments);
    Pool.AddedAllIds(prefix, entries, segments);
    var ids := SegmentIds(after, segments);
    var back := ResolveIds(after, ids);
    forall i | 0 <= i < |ids| ensures back[i] == segments[i] {
      Pool.IdValueBijection(prefix, after, segments[i], ids[i]);
    }
    assert back == segments;
  }

  /**
   * `getPathIds(path)`: the ids of the path's segments if every segment is
   * pooled, else null. It only reads the pool.
   */
  method GetPathIds(pool: Pool.InternPool, path: string) returns (r: Option<seq<string>>)
    requires pool.Valid()
    ensures r.None? ==> exists i :: 0 <= i < |SplitPath(path)| && Pool.IdOf(pool.entries, SplitPath(path)[i]).None?
    ensures r.Some? ==> r.value == SegmentIds(pool.entries, SplitPath(path))
    ensures r.Some? ==> forall i :: 0 <= i < |r.value| ==> Pool.IdOf(pool.entries, SplitPath(path)[i]) == Some(r.value[i])
  {
    var segments := SplitPath(path);
    var ids: seq<string> := [];
    var i := 0;
    while i < |segments|
      invariant 0 <= i <= |segments| && |ids| == i
      invariant forall k :: 0 <= k < i ==> Pool.IdOf(pool.entries, segments[k]) == Some(ids[k])
    {
      var id := pool.GetId(segments[i]);
      if id.None? {
        assert Pool.IdOf(pool.entries, segments[i]).None?;
        return None;
      }
      IdsExtend(pool.entries, segments, ids, id.value);
      ids := ids + [id.value];
      i := i + 1;
    }
    assert ids == SegmentIds(pool.entries, segments);
    return Some(ids);
  }

  // ---------------------------------------------------------------------------
  // analyzePaths
  // ---------------------------------------------------------------------------

  /** The counters `analyzePaths` accumulates while it walks the value. */
  datatype Tally = Tally(pathsCount: nat, totalStrings: nat, totalSegments: nat, segments: set<string>)

  /** One path-like string counted: a string, a path and its segments. */
  function CountPath(t: Tally, s: string): Tally
  {
    Tally(t.pathsCount + 1, t.totalStrings + 1, t.totalSegments + |SplitPath(s)|,
          t.segments + set i | 0 <= i < |SplitPath(s)| :: SplitPath(s)[i])
  }

  /**
   * `traverse(value, key)`: a leaf counts a string value, and then a path-like
   * key again (a path-like key with a scalar value is counted twice: once by
   * its object, once here); arrays walk their items without a key; objects
   * count each path-like key and walk its value under that key.
   */
  function TallyValue(v: Json.Json, key: Option<string>, t: Tally): Tally
    decreases v, 1
  {
    if v.Arr? then TallyItems(v.items, t)
    else if v.Obj? then TallyFields(v.fields, t)
    else
      var t1 := if v.Str? then (if IsLikelyPath(v.s) then CountPath(t, v.s)
                                else t.(totalStrings := t.totalStrings + 1))
                else t;
      if key.Some? && key.value != "" && IsLikelyPath(key.value) then CountPath(t1, key.value) else t1
  }

  function TallyItems(items: seq<Json.Json>, t: Tally): Tally
    decreases items, 0
  {
    if items == [] then t else TallyItems(items[1..], TallyValue(items[0], None, t))
  }

  function TallyFields(fields: Json.Fields, t: Tally): Tally
    decreases fields, 0
  {
    if fields == [] then t
    else
      var (k, v) := fields[0];
      assert fields[0] in fields && v < fields[0];
      var t1 := if IsLikelyPath(k) then CountPath(t, k) else t;
      TallyFields(fields[1..], TallyValue(v, Some(k), t1))
  }

  datatype PathStats = PathStats(
    pathsCount: nat, totalStrings: nat, pathsRatio: Ratio,
    totalSegments: nat, avgSegments: Ratio, uniqueSegments: nat)

  /** `analyzePaths(obj)`: a ratio with a zero denominator is reported as 0. */
  function AnalyzePaths(obj: Json.Json): PathStats
  {
    var t := TallyValue(obj, None, Tally(0, 0, 0, {}));
    PathStats(
      t.pathsCount, t.totalStrings,
      if t.totalStrings > 0 then Ratio(t.pathsCount, t.totalStrings) else Ratio(0, 1),
      t.totalSegments,
      if t.pathsCount > 0 then Ratio(t.totalSegments, t.pathsCount) else Ratio(0, 1),
      |t.segments|)
  }

  /** Every count of a path is paired with a count of a string. */
  predicate Paired(t: Tally) { t.pathsCount <= t.totalStrings }

  lemma {:induction false} TallyValuePaired(v: Json.Json, key: Option<string>, t: Tally)
    requires Paired(t)
    ensures Paired(TallyValue(v, key, t))
    ensures TallyValue(v, key, t).totalStrings >= t.totalStrings
    decreases v, 1
  {
    if v.Arr? {
      TallyItemsPaired(v.items, t);
    } else if v.Obj? {
      TallyFieldsPaired(v.fields, t);
    }
  }

  lemma {:induction false} TallyItemsPaired(items: seq<Json.Json>, t: Tally)
    requires Paired(t)
    ensures Paired(TallyItems(items, t))
    ensures TallyItems(items, t).totalStrings >= t.totalStrings
    decreases items, 0
  {
    if items != [] {
      TallyValuePaired(items[0], None, t);
      TallyItemsPaired(items[1..], TallyValue(items[0], None, t));
    }
  }

  lemma {:induction false} TallyFieldsPaired(fields: Json.Fields, t: Tally)
    requires Paired(t)
    ensures Paired(TallyFields(fields, t))
    ensures TallyFields(fields, t).totalStrings >= t.totalStrings
    decreases fields, 0
  {
    if fields != [] {
      var (k, v) := fields[0];
      assert fields[0] in fields && v < fields[0];
      var t1 := if IsLikelyPath(k) then CountPath(t, k) else t;
      TallyValuePaired(v, Some(k), t1);
      TallyFieldsPaired(fields[1..], TallyValue(v, Some(k), t1));
    }
  }

  /**
   * The paths ratio lies in [0, 1], and both ratios are 0 exactly when their
   * denominator count is 0.
   */
  lemma PathsRatioBounded(obj: Json.Json)
    ensures var s := AnalyzePaths(obj);
      && s.pathsCount <= s.totalStrings
      && s.pathsRatio.den > 0 && s.pathsRatio.num <= s.pathsRatio.den
      && (s.totalStrings == 0 ==> s.pathsRatio.num == 0)
      && (s.pathsCount == 0 ==> s.avgSegments.num == 0)
      && s.avgSegments.den > 0
  {
    TallyValuePaired(obj, None, Tally(0, 0, 0, {}));
  }

  /**
   * A path-like key whose value is a scalar is counted as two paths: once
   * by the object that holds it and once by the leaf it labels.
   */
  lemma PathKeyWithScalarCountedTwice(k: string, v: Json.Json)
    requires IsLikelyPath(k)
    requires v.Num? || v.Bool? || v.Null?
    ensures var s := AnalyzePaths(Json.Obj([(k, v)]));
      && s.pathsCount == 2 && s.totalStrings == 2
      && s.totalSegments == 2 * |SplitPath(k)|
      && s.uniqueSegments == |set i | 0 <= i < |SplitPath(k)| :: SplitPath(k)[i]|
  {
    var t0 := Tally(0, 0, 0, {});
    var t1 := CountPath(t0, k);
    var t2 := TallyValue(v, Some(k), t1);
    assert t2 == CountPath(t1, k);
    assert TallyFields([(k, v)], t0) == TallyFields([], t2);
    assert TallyValue(Json.Obj([(k, v)]), None, t0) == t2;
  }

}
