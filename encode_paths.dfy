/**
 * The path layer of `encodeJson`: whether to build a path pool, the
 * `collectPaths` walk that fills it, and whether the pool is then worth
 * applying.
 *
 * `enablePathPool` and `enableShapePool` are `true`, `false` or `'auto'`;
 * `Mode` names the three. The heuristics compare floating-point ratios; the
 * model compares the exact fractions by cross-multiplication.
 */
module EncodePaths {
  import opened Wrappers
  import opened Json
  import Pool
  import Paths

  /** `true`, `false` or `'auto'`. */
  datatype Mode = On | Off | Auto

  // ---------------------------------------------------------------------------
  // Whether to build the pool
  // ---------------------------------------------------------------------------

  /** `enablePathPool === true || (auto && pathsRatio >= 0.15 && avgSegments >= 3)`. */
  predicate PathPoolWanted(mode: Mode, stats: Paths.PathStats)
  {
    || mode.On?
    || (mode.Auto?
        && 100 * stats.pathsRatio.num >= 15 * stats.pathsRatio.den
        && stats.avgSegments.num >= 3 * stats.avgSegments.den)
  }

  /** A value with no path-like string is never pooled in auto mode, since its ratio is 0. */
  lemma NoPathsNotWanted(v: Json)
    requires Paths.AnalyzePaths(v).pathsCount == 0
    ensures !PathPoolWanted(Auto, Paths.AnalyzePaths(v))
  {
  }

  // ---------------------------------------------------------------------------
  // collectPaths
  // ---------------------------------------------------------------------------

  /**
   * The segments `collectPaths` adds, in the order it adds them: each
   * path-like string leaf split into its segments, object values in member
   * order, array items in index order.
   */
  function CollectedSegments(v: Json): seq<string>
    decreases v, 1
  {
    match v
    case Str(s) => if Paths.IsLikelyPath(s) then Paths.SplitPath(s) else []
    case Arr(items) => SegmentsOfItems(items)
    case Obj(fields) => SegmentsOfFields(fields)
    case _ => []
  }

  function SegmentsOfItems(items: seq<Json>): seq<string>
    decreases items, 0
  {
    if items == [] then []
    else SegmentsOfItems(items[..|items| - 1]) + CollectedSegments(items[|items| - 1])
  }

  function SegmentsOfFields(fields: Fields): seq<string>
    decreases fields, 0
  {
    if fields == [] then []
    else
      var last := fields[|fields| - 1];
      assert last in fields && last.1 < last;
      SegmentsOfFields(fields[..|fields| - 1]) + CollectedSegments(last.1)
  }

  /** `collectPaths(value)`: add the segments of every path-like string leaf. */
  method CollectPaths(pool: Pool.InternPool, value: Json)
    requires pool.Valid()
    modifies pool
    ensures pool.Valid()
    ensures pool.entries == Pool.AddedAll(pool.prefix, old(pool.entries), CollectedSegments(value))
    decreases value, 1
  {
    match value {
      case Str(s) =>
        if Paths.IsLikelyPath(s) {
          var _ := Paths.AddPath(pool, s);
        }
      case Arr(_) => CollectItems(pool, value);
      case Obj(_) => CollectFields(pool, value);
      case _ =>
    }
  }

  /** The array branch of `collectPaths`: each item in turn. */
  method CollectItems(pool: Pool.InternPool, value: Json)
    requires pool.Valid() && value.Arr?
    modifies pool
    ensures pool.Valid()
    ensures pool.entries == Pool.AddedAll(pool.prefix, old(pool.entries), SegmentsOfItems(value.items))
    decreases value, 0
  {
    var items := value.items;
    ghost var start := pool.entries;
    ghost var done: seq<string> := [];
    var i := 0;
    while i < |items|
      invariant 0 <= i <= |items|
      invariant done == SegmentsOfItems(items[..i])
      invariant pool.Valid() && pool.entries == Pool.AddedAll(pool.prefix, start, done)
    {
      assert items[..i + 1][..i] == items[..i];
      CollectNext(pool, items[i], start, done);
      done := done + CollectedSegments(items[i]);
      i := i + 1;
    }
    assert items[..i] == items;
  }

  /** The object branch of `collectPaths`: each member's value in turn. */
  method CollectFields(pool: Pool.InternPool, value: Json)
    requires pool.Valid() && value.Obj?
    modifies pool
    ensures pool.Valid()
    ensures pool.entries == Pool.AddedAll(pool.prefix, old(pool.entries), SegmentsOfFields(value.fields))
    decreases value, 0
  {
    var fields := value.fields;
    ghost var start := pool.entries;
    ghost var done: seq<string> := [];
    var i := 0;
    while i < |fields|
      invariant 0 <= i <= |fields|
      invariant done == SegmentsOfFields(fields[..i])
      invariant pool.Valid() && pool.entries == Pool.AddedAll(pool.prefix, start, done)
    {
      assert fields[..i + 1][..i] == fields[..i];
      assert fields[i] in fields && fields[i].1 < fields[i];
      CollectNext(pool, fields[i].1, start, done);
      done := done + CollectedSegments(fields[i].1);
      i := i + 1;
    }
    assert fields[..i] == fields;
  }

  /** `collectPaths(v)` after the segments `done`. */
  method CollectNext(pool: Pool.InternPool, v: Json, ghost start: seq<Pool.Entry>, ghost done: seq<string>)
    requires pool.Valid() && pool.entries == Pool.AddedAll(pool.prefix, start, done)
    modifies pool
    ensures pool.Valid() && pool.entries == Pool.AddedAll(pool.prefix, start, done + CollectedSegments(v))
    decreases v, 2
  {
    CollectPaths(pool, v);
    Pool.AddedAllAppend(pool.prefix, start, done, CollectedSegments(v));
  }

  // ---------------------------------------------------------------------------
  // Every path leaf is pooled
  // ---------------------------------------------------------------------------

  /**
   * Every path-like string leaf reached through arrays and object values has
   * an id for each of its segments in `entries`.
   */
  predicate PathsPooled(entries: seq<Pool.Entry>, v: Json)
    decreases v
  {
    match v
    case Str(s) => Paths.IsLikelyPath(s) ==> forall k :: 0 <= k < |Paths.SplitPath(s)| ==> Pool.IdOf(entries, Paths.SplitPath(s)[k]).Some?
    case Arr(items) => forall i :: 0 <= i < |items| ==> PathsPooled(entries, items[i])
    case Obj(fields) => forall i :: 0 <= i < |fields| ==> PathsPooled(entries, fields[i].1)
    case _ => true
  }

  lemma {:induction false} SegmentsOfItemsContain(items: seq<Json>, i: nat)
    requires i < |items|
    ensures forall k :: k in CollectedSegments(items[i]) ==> k in SegmentsOfItems(items)
    decreases |items|
  {
    var n := |items| - 1;
    if i < n {
      assert items[..n][i] == items[i];
      SegmentsOfItemsContain(items[..n], i);
    }
  }

  lemma {:induction false} SegmentsOfFieldsContain(fields: Fields, i: nat)
    requires i < |fields|
    ensures forall k :: k in CollectedSegments(fields[i].1) ==> k in SegmentsOfFields(fields)
    decreases |fields|
  {
    var n := |fields| - 1;
    if i < n {
      assert fields[..n][i] == fields[i];
      SegmentsOfFieldsContain(fields[..n], i);
    }
  }

  lemma {:induction false} CollectedSegmentsPooled(entries: seq<Pool.Entry>, v: Json)
    requires forall k :: k in CollectedSegments(v) ==> Pool.IdOf(entries, k).Some?
    ensures PathsPooled(entries, v)
    decreases v
  {
    match v
    case Str(s) =>
      if Paths.IsLikelyPath(s) {
        forall k | 0 <= k < |Paths.SplitPath(s)| ensures Pool.IdOf(entries, Paths.SplitPath(s)[k]).Some? {
          assert Paths.SplitPath(s)[k] in CollectedSegments(v);
        }
      }
    case Arr(items) =>
      forall i | 0 <= i < |items| ensures PathsPooled(entries, items[i]) {
        SegmentsOfItemsContain(items, i);
        CollectedSegmentsPooled(entries, items[i]);
      }
    case Obj(fields) =>
      forall i | 0 <= i < |fields| ensures PathsPooled(entries, fields[i].1) {
        assert fields[i] in fields && fields[i].1 < fields[i];
        SegmentsOfFieldsContain(fields, i);
        CollectedSegmentsPooled(entries, fields[i].1);
      }
    case _ =>
  }

  /**
   * After `collectPaths`, every segment of every path-like leaf has an id, so
   * the `addPath` calls of the rewrite only return ids already issued.
   */
  lemma CollectPathsPoolsAll(entries: seq<Pool.Entry>, v: Json)
    requires Pool.WellFormed('p', entries)
    ensures PathsPooled(Pool.AddedAll('p', entries, CollectedSegments(v)), v)
  {
    var segs := CollectedSegments(v);
    var after := Pool.AddedAll('p', entries, segs);
    Pool.AddedAllIds('p', entries, segs);
    forall k | k in segs ensures Pool.IdOf(after, k).Some? {
      var i :| 0 <= i < |segs| && segs[i] == k;
    }
    CollectedSegmentsPooled(after, v);
  }

  // ---------------------------------------------------------------------------
  // Whether to apply the pool
  // ---------------------------------------------------------------------------

  /** `pathPoolDecision` without its two floating-point ratios. */
  datatype PathDecision = PathDecision(enabled: bool, savings: int)

  /** `30 * pathsCount - 3 * totalSegments - JSON.stringify(pathDict).length`. */
  function PathSavings(stats: Paths.PathStats, pathDict: Fields): int
  {
    30 * stats.pathsCount - 3 * stats.totalSegments - JsonLen(Obj(pathDict))
  }

  /**
   * The decision for a pool that was built: forced on, or on when the
   * estimated savings exceed the dictionary's JSON length.
   */
  function DecidePathPool(mode: Mode, stats: Paths.PathStats, pathDict: Fields): (d: PathDecision)
    ensures d.savings == PathSavings(stats, pathDict)
    ensures d.enabled <==> mode.On? || PathSavings(stats, pathDict) > JsonLen(Obj(pathDict))
  {
    var overhead := JsonLen(Obj(pathDict));
    var savings := PathSavings(stats, pathDict);
    if mode.On? then PathDecision(true, savings)
    else if savings > overhead then PathDecision(true, savings)
    else PathDecision(false, savings)
  }

  /** The decision when no pool was built. */
  const NotBuilt := PathDecision(false, 0)

  /**
   * In auto mode the pool is applied only when the savings estimate beats
   * twice the dictionary's length; an empty dictionary (no path-like strings)
   * is never applied unless forced.
   */
  lemma AutoNeedsSavings(stats: Paths.PathStats, pathDict: Fields)
    ensures DecidePathPool(Auto, stats, pathDict).enabled ==>
      30 * stats.pathsCount > 3 * stats.totalSegments + 2 * JsonLen(Obj(pathDict))
    ensures stats.pathsCount == 0 ==> !DecidePathPool(Auto, stats, pathDict).enabled
  {
  }
}
