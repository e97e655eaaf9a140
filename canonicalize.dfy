/**
 * Path canonicalisation for query results
 * (`packages/tox-adapters/src/mind/path-canonicalization.ts`): find the
 * directory prefix shared by the path-like strings of a result and strip it.
 *
 * `CommonPrefixOf` is `longestCommonPrefix` as a function and
 * `LongestCommonPrefix` the loop the source runs, proved to compute it;
 * `Collect` is what `collectAllPaths` gathers, with `CollectAllPaths` the
 * traversal filling the accumulator and the `seen` set; `Transform` is
 * `transformPaths` and `CanonicalizePaths` the whole step.
 */
module Canonicalize {
  import opened Wrappers
  import opened Json
  import Strings
  import StringSort

  // ---------------------------------------------------------------------------
  // String.prototype.split and Array.prototype.join on one separator
  // ---------------------------------------------------------------------------

  /** `s.split(c)`: the pieces between the separators, empty ones included. */
  function SplitOn(s: string, c: char): (r: seq<string>)
    ensures |r| >= 1
    ensures forall i :: 0 <= i < |r| ==> c !in r[i]
    ensures c !in s ==> r == [s]
    decreases |s|
  {
    if s == [] then [""]
    else
      assert s == s[..|s| - 1] + [s[|s| - 1]];
      SplitStep(SplitOn(s[..|s| - 1], c), c, s[|s| - 1])
  }

  /** The pieces after one more character: a new empty piece, or a longer last one. */
  function SplitStep(init: seq<string>, c: char, x: char): seq<string>
    requires |init| >= 1
  {
    if x == c then init + [""]
    else init[..|init| - 1] + [init[|init| - 1] + [x]]
  }

  /** `segs.join(c)`. */
  function JoinWith(segs: seq<string>, c: char): string
  {
    if |segs| == 0 then ""
    else if |segs| == 1 then segs[0]
    else JoinWith(segs[..|segs| - 1], c) + [c] + segs[|segs| - 1]
  }

  /** Joining the pieces of a split gives the string back. */
  lemma {:induction false} JoinSplit(s: string, c: char)
    ensures JoinWith(SplitOn(s, c), c) == s
    decreases |s|
  {
    if s != [] {
      var t, x := s[..|s| - 1], s[|s| - 1];
      JoinSplit(t, c);
      JoinSplitStep(SplitOn(t, c), t, c, x);
      assert SplitOn(s, c) == SplitStep(SplitOn(t, c), c, x);
      assert s == t + [x];
    }
  }

  /** One more character, separator or not, keeps the join equal to the text. */
  lemma JoinSplitStep(init: seq<string>, t: string, c: char, x: char)
    requires |init| >= 1 && JoinWith(init, c) == t
    ensures JoinWith(SplitStep(init, c, x), c) == t + [x]
  {
    if x == c {
      JoinAppendEmpty(init, c);
    } else {
      JoinExtendLast(init, c, x);
    }
  }

  /** A trailing empty piece adds one separator. */
  lemma JoinAppendEmpty(segs: seq<string>, c: char)
    requires |segs| >= 1
    ensures JoinWith(segs + [""], c) == JoinWith(segs, c) + [c]
  {
    assert (segs + [""])[..|segs|] == segs;
  }

  /** A character added to the last piece lands at the end of the join. */
  lemma JoinExtendLast(segs: seq<string>, c: char, x: char)
    requires |segs| >= 1
    ensures JoinWith(segs[..|segs| - 1] + [segs[|segs| - 1] + [x]], c) == JoinWith(segs, c) + [x]
  {
    var n := |segs|;
    var r := segs[..n - 1] + [segs[n - 1] + [x]];
    assert r[..n - 1] == segs[..n - 1];
  }

  /** A string holds the separator exactly when it splits into more than one piece. */
  lemma {:induction false} SplitCount(s: string, c: char)
    ensures c in s <==> |SplitOn(s, c)| >= 2
    decreases |s|
  {
    if s != [] {
      SplitCount(s[..|s| - 1], c);
      assert c in s <==> c in s[..|s| - 1] || s[|s| - 1] == c by {
        assert s == s[..|s| - 1] + [s[|s| - 1]];
      }
    }
  }

  /** The first `d` pieces, joined and followed by the separator, begin the whole. */
  lemma {:induction false} JoinPrefix(segs: seq<string>, d: nat, c: char)
    requires 1 <= d < |segs|
    ensures Strings.StartsWith(JoinWith(segs, c), JoinWith(segs[..d], c) + [c])
    decreases |segs|
  {
    var n := |segs|;
    var head := JoinWith(segs[..d], c) + [c];
    var init := JoinWith(segs[..n - 1], c);
    assert JoinWith(segs, c) == init + [c] + segs[n - 1];
    if d < n - 1 {
      JoinPrefix(segs[..n - 1], d, c);
      assert segs[..n - 1][..d] == segs[..d];
      assert (init + [c] + segs[n - 1])[..|head|] == init[..|head|];
    } else {
      assert segs[..n - 1] == segs[..d];
      assert (init + [c] + segs[n - 1])[..|head|] == head;
    }
  }

  // ---------------------------------------------------------------------------
  // longestCommonPrefix
  // ---------------------------------------------------------------------------

  /** `str.substring(0, lastIndexOf('/') + 1)`: the directory part, or "" without a '/'. */
  function DirectoryPart(s: string): (r: string)
    ensures Strings.StartsWith(s, r)
    ensures r == "" <==> '/' !in s
    ensures r != "" ==> r[|r| - 1] == '/'
    ensures '/' !in s[|r|..]
  {
    var i := Strings.LastIndexOf(s, '/');
    if i >= 0 then s[..i + 1] else ""
  }

  /** `strings.filter(s => s.includes('/'))`. */
  function PathLike(strings: seq<string>): (r: seq<string>)
    ensures forall x :: x in r <==> x in strings && '/' in x
  {
    if strings == [] then []
    else
      var n := |strings| - 1;
      assert strings == strings[..n] + [strings[n]];
      PathLike(strings[..n]) + (if '/' in strings[n] then [strings[n]] else [])
  }

  /** The filter keeps every copy of a path-like string and nothing else. */
  lemma {:induction false} PathLikeCount(strings: seq<string>, x: string)
    ensures multiset(PathLike(strings))[x] == if '/' in x then multiset(strings)[x] else 0
  {
    if strings != [] {
      var n := |strings| - 1;
      PathLikeCount(strings[..n], x);
      assert strings == strings[..n] + [strings[n]];
    }
  }

  lemma PathLikeOrderFree(a: seq<string>, b: seq<string>)
    requires multiset(a) == multiset(b)
    ensures multiset(PathLike(a)) == multiset(PathLike(b))
  {
    forall x: string ensures multiset(PathLike(a))[x] == multiset(PathLike(b))[x] {
      PathLikeCount(a, x);
      PathLikeCount(b, x);
    }
  }

  /** `sorted.map(p => p.split('/'))`. */
  function SegmentArrays(sorted: seq<string>): (r: seq<seq<string>>)
    ensures |r| == |sorted|
    ensures forall i :: 0 <= i < |sorted| ==> r[i] == SplitOn(sorted[i], '/')
  {
    seq(|sorted|, i requires 0 <= i < |sorted| => SplitOn(sorted[i], '/'))
  }

  /** The segment arrays the loop walks: the path-like strings, sorted by code unit, split on '/'. */
  function Segmented(strings: seq<string>): (r: seq<seq<string>>)
    ensures |r| == |PathLike(strings)|
  {
    var sorted := StringSort.SortStrings(PathLike(strings));
    assert |multiset(sorted)| == |sorted|;
    SegmentArrays(sorted)
  }

  /** Every path-like string has its segment array among those the loop walks ... */
  lemma SegmentedHas(strings: seq<string>, s: string)
    requires s in strings && '/' in s
    ensures exists k :: 0 <= k < |Segmented(strings)| && Segmented(strings)[k] == SplitOn(s, '/')
  {
    var sorted := StringSort.SortStrings(PathLike(strings));
    assert s in PathLike(strings);
    assert s in sorted;
    var k :| 0 <= k < |sorted| && sorted[k] == s;
    assert Segmented(strings)[k] == SplitOn(s, '/');
  }

  /** ... and every array it walks is that of a path-like string. */
  lemma SegmentedFrom(strings: seq<string>, k: nat)
    requires k < |Segmented(strings)|
    ensures exists s :: s in strings && '/' in s && Segmented(strings)[k] == SplitOn(s, '/')
  {
    var sorted := StringSort.SortStrings(PathLike(strings));
    assert sorted[k] in sorted;
    assert sorted[k] in PathLike(strings);
    assert Segmented(strings)[k] == SplitOn(sorted[k], '/');
  }

  lemma SegmentedOrderFree(a: seq<string>, b: seq<string>)
    requires multiset(a) == multiset(b)
    ensures Segmented(a) == Segmented(b)
  {
    PathLikeOrderFree(a, b);
    StringSort.SortStringsOrderFree(PathLike(a), PathLike(b));
  }

  /**
   * One more turn of the loop: the first array has a non-empty segment at
   * `d` and every array has that same segment there.
   */
  predicate Agree(arrays: seq<seq<string>>, d: nat)
    requires |arrays| > 0
  {
    && d < |arrays[0]| && arrays[0][d] != ""
    && forall k :: 0 <= k < |arrays| ==> d < |arrays[k]| && arrays[k][d] == arrays[0][d]
  }

  /** The depth the loop stops at when it starts at `d`. */
  function CommonDepth(arrays: seq<seq<string>>, d: nat): (r: nat)
    requires |arrays| > 0
    ensures d <= r
    ensures d <= |arrays[0]| ==> r <= |arrays[0]|
    ensures forall e :: d <= e < r ==> Agree(arrays, e)
    ensures !Agree(arrays, r)
    decreases |arrays[0]| - d
  {
    if Agree(arrays, d) then CommonDepth(arrays, d + 1) else d
  }

  /** Below the depth reached, every array holds the first array's non-empty segments. */
  lemma DepthShared(arrays: seq<seq<string>>, k: nat)
    requires k < |arrays|
    ensures var depth := CommonDepth(arrays, 0);
      && depth <= |arrays[k]|
      && (forall i :: 0 <= i < depth ==> arrays[k][i] != "")
      && arrays[k][..depth] == arrays[0][..depth]
  {
    var depth := CommonDepth(arrays, 0);
    if depth > 0 {
      assert Agree(arrays, depth - 1);
    }
    forall i | 0 <= i < depth ensures arrays[k][i] == arrays[0][i] && arrays[0][i] != "" {
      assert Agree(arrays, i);
    }
  }

  /** The number of leading segments the path-like strings share. */
  function SharedDepth(strings: seq<string>): nat
  {
    var arrays := Segmented(strings);
    if |arrays| == 0 then 0 else CommonDepth(arrays, 0)
  }

  /** `longestCommonPrefix(strings)`. */
  function CommonPrefixOf(strings: seq<string>): (r: string)
    ensures |strings| == 0 ==> r == ""
    ensures r == "" || r[|r| - 1] == '/'
  {
    if |strings| == 0 then ""
    else if |strings| == 1 then DirectoryPart(strings[0])
    else
      var arrays := Segmented(strings);
      if |arrays| == 0 then ""
      else
        var depth := CommonDepth(arrays, 0);
        if depth == 0 then "" else JoinWith(arrays[0][..depth], '/') + "/"
  }

  /** `longestCommonPrefix` as the source runs it: a loop deepening `commonDepth`. */
  method LongestCommonPrefix(strings: seq<string>) returns (r: string)
    ensures r == CommonPrefixOf(strings)
  {
    if |strings| == 0 {
      return "";
    }
    if |strings| == 1 {
      var str := strings[0];
      var lastSlash := Strings.LastIndexOf(str, '/');
      return if lastSlash >= 0 then str[..lastSlash + 1] else "";
    }
    var pathLike := PathLike(strings);
    if |pathLike| == 0 {
      return "";
    }
    var sorted := StringSort.SortStrings(pathLike);
    var segmentArrays := SegmentArrays(sorted);
    assert segmentArrays == Segmented(strings);
    var commonDepth := 0;
    while true
      invariant CommonDepth(segmentArrays, commonDepth) == CommonDepth(segmentArrays, 0)
      decreases |segmentArrays[0]| - commonDepth
    {
      if commonDepth >= |segmentArrays[0]| || segmentArrays[0][commonDepth] == "" {
        assert !Agree(segmentArrays, commonDepth);
        break;
      }
      var seg := segmentArrays[0][commonDepth];
      var allSame := forall k :: 0 <= k < |segmentArrays| ==>
        commonDepth < |segmentArrays[k]| && segmentArrays[k][commonDepth] == seg;
      if !allSame {
        assert !Agree(segmentArrays, commonDepth);
        break;
      }
      commonDepth := commonDepth + 1;
    }
    assert commonDepth == CommonDepth(segmentArrays, 0);
    if commonDepth == 0 {
      return "";
    }
    r := JoinWith(segmentArrays[0][..commonDepth], '/') + "/";
  }

  /** With two or more strings of which none holds a '/', there is no prefix. */
  lemma NoSeparatorNoPrefix(strings: seq<string>)
    requires |strings| >= 2
    requires forall i :: 0 <= i < |strings| ==> '/' !in strings[i]
    ensures CommonPrefixOf(strings) == ""
  {
  }

  /** A string without a '/' does not change the prefix of two or more strings. */
  lemma SeparatorlessIgnored(strings: seq<string>, extra: string)
    requires |strings| >= 2 && '/' !in extra
    ensures CommonPrefixOf(strings + [extra]) == CommonPrefixOf(strings)
  {
    var n := |strings|;
    assert (strings + [extra])[..n] == strings;
    assert PathLike(strings + [extra]) == PathLike(strings);
    assert Segmented(strings + [extra]) == Segmented(strings);
  }

  /** The prefix of two or more strings is "" exactly when the path-like ones share no leading segment. */
  lemma PrefixEmpty(strings: seq<string>)
    requires |strings| >= 2
    ensures CommonPrefixOf(strings) == "" <==> SharedDepth(strings) == 0
  {
  }

  /**
   * Otherwise it is the first `SharedDepth` segments of any path-like
   * string, none of them empty, joined by '/' with a trailing '/'.
   */
  lemma PrefixSegments(strings: seq<string>, s: string)
    requires |strings| >= 2 && s in strings && '/' in s
    ensures SharedDepth(strings) <= |SplitOn(s, '/')|
    ensures forall i :: 0 <= i < SharedDepth(strings) ==> SplitOn(s, '/')[i] != ""
    ensures SharedDepth(strings) > 0 ==>
      CommonPrefixOf(strings) == JoinWith(SplitOn(s, '/')[..SharedDepth(strings)], '/') + "/"
  {
    SegmentedHas(strings, s);
    var arrays := Segmented(strings);
    var k :| 0 <= k < |arrays| && arrays[k] == SplitOn(s, '/');
    DepthShared(arrays, k);
  }

  /**
   * The loop stops at the first depth where no non-empty segment is shared:
   * for any candidate segment some path-like string lacks it there.
   */
  lemma PrefixMaximal(strings: seq<string>, seg: string)
    requires PathLike(strings) != [] && seg != ""
    ensures exists s :: (s in strings && '/' in s &&
      !(SharedDepth(strings) < |SplitOn(s, '/')| && SplitOn(s, '/')[SharedDepth(strings)] == seg))
  {
    var arrays := Segmented(strings);
    var d := SharedDepth(strings);
    assert !Agree(arrays, d);
    var k: nat := 0;
    if d < |arrays[0]| && arrays[0][d] != "" && arrays[0][d] == seg {
      k :| 0 <= k < |arrays| && !(d < |arrays[k]| && arrays[k][d] == arrays[0][d]);
    }
    SegmentedFrom(strings, k);
    var s :| s in strings && '/' in s && arrays[k] == SplitOn(s, '/');
    assert !(d < |SplitOn(s, '/')| && SplitOn(s, '/')[d] == seg);
  }

  /** The prefix begins every path-like string that has more segments than it. */
  lemma PrefixBegins(strings: seq<string>, s: string)
    requires |strings| >= 2 && s in strings && '/' in s
    requires CommonPrefixOf(strings) != "" && SharedDepth(strings) < |SplitOn(s, '/')|
    ensures Strings.StartsWith(s, CommonPrefixOf(strings))
  {
    PrefixEmpty(strings);
    PrefixSegments(strings, s);
    JoinSplit(s, '/');
    JoinPrefix(SplitOn(s, '/'), SharedDepth(strings), '/');
  }

  /** The result does not depend on the order of the strings. */
  lemma PrefixOrderFree(a: seq<string>, b: seq<string>)
    requires multiset(a) == multiset(b)
    ensures CommonPrefixOf(a) == CommonPrefixOf(b)
  {
    assert |a| == |multiset(a)| == |multiset(b)| == |b|;
    if |a| == 1 {
      assert a[0] in multiset(b);
      assert b == [a[0]];
    } else if |a| >= 2 {
      SegmentedOrderFree(a, b);
    }
  }

  // ---------------------------------------------------------------------------
  // collectAllPaths
  // ---------------------------------------------------------------------------

  /** The local `isLikelyPath`: a '/' anywhere, or one of the listed file extensions at the end. */
  predicate LikelyPath(s: string)
  {
    || '/' in s
    || Strings.EndsWith(s, ".ts") || Strings.EndsWith(s, ".js")
    || Strings.EndsWith(s, ".tsx") || Strings.EndsWith(s, ".jsx")
    || Strings.EndsWith(s, ".json") || Strings.EndsWith(s, ".md")
    || Strings.EndsWith(s, ".yml") || Strings.EndsWith(s, ".yaml")
  }

  /**
   * `obj.constructor?.name || 'Object'` as text, for a plain object. An own
   * `constructor` member that is an object with a truthy own `name` gives
   * the text of that name; any other `constructor` has no `name`, and
   * without an own member the inherited `Object` is found.
   */
  function CtorName(fields: Fields): (r: string)
    ensures Lookup(fields, "constructor").None? ==> r == "Object"
  {
    var c := Lookup(fields, "constructor");
    if c.Some? && c.value.Obj? then
      var name := Lookup(c.value.fields, "name");
      if name.Some? && Truthy(name.value) then JsString(name.value) else "Object"
    else "Object"
  }

  /** The text an object is remembered by in `seen`: its constructor name, `_`, its key count. */
  function ObjectId(fields: Fields): string
  {
    CtorName(fields) + "_" + Strings.NatToString(|fields|)
  }

  /** Two objects share a `seen` entry exactly when their names and their key counts agree. */
  lemma ObjectIdParts(a: Fields, b: Fields)
    ensures ObjectId(a) == ObjectId(b) <==> CtorName(a) == CtorName(b) && |a| == |b|
  {
    if ObjectId(a) == ObjectId(b) {
      SameSuffixSplit(CtorName(a), Strings.NatToString(|a|), CtorName(b), Strings.NatToString(|b|));
      Strings.NatToStringInjective(|a|, |b|);
    }
  }

  /** Text ending in `_` and then digits splits there in one way only. */
  lemma SameSuffixSplit(n1: string, d1: string, n2: string, d2: string)
    requires Strings.AllDigits(d1) && Strings.AllDigits(d2)
    requires n1 + "_" + d1 == n2 + "_" + d2
    ensures n1 == n2 && d1 == d2
  {
    var s := n1 + "_" + d1;
    assert s[|n1|] == '_' && s[|n2|] == '_';
    assert |n1| == |n2|;
    assert n1 == s[..|n1|] == n2;
    assert d1 == s[|n1| + 1..] == d2;
  }

  /** The accumulator and the `seen` set of object ids. */
  datatype Collected = Collected(paths: seq<string>, seen: set<string>)

  /** What `collectAllPaths(v, paths, seen)` leaves in its two accumulators. */
  function Collect(v: Json, st: Collected): Collected
    decreases v, 1
  {
    match v
    case Str(s) => if LikelyPath(s) then Collected(st.paths + [s], st.seen) else st
    case Arr(items) => CollectItems(items, st)
    case Obj(fields) =>
      if ObjectId(fields) in st.seen then st
      else CollectFields(fields, Collected(st.paths, st.seen + {ObjectId(fields)}))
    case _ => st
  }

  function CollectItems(items: seq<Json>, st: Collected): Collected
    decreases items, 0
  {
    if items == [] then st
    else Collect(items[|items| - 1], CollectItems(items[..|items| - 1], st))
  }

  /** The key when it looks like a path, then whatever its value holds. */
  function CollectMember(member: (string, Json), st: Collected): Collected
    decreases member, 0
  {
    var withKey := if LikelyPath(member.0) then Collected(st.paths + [member.0], st.seen) else st;
    Collect(member.1, withKey)
  }

  function CollectFields(fields: Fields, st: Collected): Collected
    decreases fields, 0
  {
    if fields == [] then st
    else
      var last := fields[|fields| - 1];
      assert last in fields;
      CollectMember(last, CollectFields(fields[..|fields| - 1], st))
  }

  /** `collectAllPaths(obj)`: from an empty list and an empty set. */
  function AllPaths(v: Json): seq<string>
  {
    Collect(v, Collected([], {})).paths
  }

  /** `collectAllPaths` as the source runs it, pushing into `paths` and adding to `seen`. */
  method CollectAllPaths(v: Json, paths: seq<string>, seen: set<string>) returns (paths': seq<string>, seen': set<string>)
    ensures Collected(paths', seen') == Collect(v, Collected(paths, seen))
    decreases v, 1
  {
    paths', seen' := paths, seen;
    match v {
      case Str(s) =>
        if LikelyPath(s) {
          paths' := paths' + [s];
        }
      case Arr(items) =>
        var i := 0;
        while i < |items|
          invariant 0 <= i <= |items|
          invariant Collected(paths', seen') == CollectItems(items[..i], Collected(paths, seen))
        {
          assert items[..i + 1][..i] == items[..i];
          paths', seen' := CollectAllPaths(items[i], paths', seen');
          i := i + 1;
        }
        assert items[..i] == items;
      case Obj(fields) =>
        var id := ObjectId(fields);
        if id in seen' {
          return;
        }
        seen' := seen' + {id};
        ghost var start := Collected(paths', seen');
        var i := 0;
        while i < |fields|
          invariant 0 <= i <= |fields|
          invariant Collected(paths', seen') == CollectFields(fields[..i], start)
        {
          assert fields[..i + 1][..i] == fields[..i];
          var (key, value) := fields[i];
          if LikelyPath(key) {
            paths' := paths' + [key];
          }
          assert fields[i] in fields && value < fields[i];
          paths', seen' := CollectAllPaths(value, paths', seen');
          i := i + 1;
        }
        assert fields[..i] == fields;
      case _ =>
    }
  }

  /**
   * The traversal only ever appends to the list and adds to the set, and
   * everything it appends looks like a path.
   */
  predicate Extends(st: Collected, st': Collected)
  {
    && st.seen <= st'.seen
    && |st.paths| <= |st'.paths| && st'.paths[..|st.paths|] == st.paths
    && forall i :: |st.paths| <= i < |st'.paths| ==> LikelyPath(st'.paths[i])
  }

  lemma ExtendsTransitive(a: Collected, b: Collected, c: Collected)
    requires Extends(a, b) && Extends(b, c)
    ensures Extends(a, c)
  {
    assert c.paths[..|b.paths|][..|a.paths|] == c.paths[..|a.paths|];
    forall i | |a.paths| <= i < |c.paths| ensures LikelyPath(c.paths[i]) {
      if i < |b.paths| { assert c.paths[i] == b.paths[i]; }
    }
  }

  lemma {:induction false} CollectExtends(v: Json, st: Collected)
    ensures Extends(st, Collect(v, st))
    decreases v, 1
  {
    match v
    case Arr(items) => ItemsExtend(items, st);
    case Obj(fields) =>
      if ObjectId(fields) !in st.seen {
        var st1 := Collected(st.paths, st.seen + {ObjectId(fields)});
        FieldsExtend(fields, st1);
        ExtendsTransitive(st, st1, Collect(v, st));
      }
    case _ =>
  }

  lemma {:induction false} ItemsExtend(items: seq<Json>, st: Collected)
    ensures Extends(st, CollectItems(items, st))
    decreases items, 0
  {
    if items != [] {
      var mid := CollectItems(items[..|items| - 1], st);
      ItemsExtend(items[..|items| - 1], st);
      CollectExtends(items[|items| - 1], mid);
      ExtendsTransitive(st, mid, CollectItems(items, st));
    }
  }

  lemma {:induction false} FieldsExtend(fields: Fields, st: Collected)
    ensures Extends(st, CollectFields(fields, st))
    decreases fields, 0
  {
    if fields != [] {
      var last := fields[|fields| - 1];
      assert last in fields && last.1 < last;
      var mid := CollectFields(fields[..|fields| - 1], st);
      FieldsExtend(fields[..|fields| - 1], st);
      var withKey := if LikelyPath(last.0) then Collected(mid.paths + [last.0], mid.seen) else mid;
      assert Extends(mid, withKey);
      CollectExtends(last.1, withKey);
      assert CollectFields(fields, st) == Collect(last.1, withKey);
      ExtendsTransitive(mid, withKey, CollectFields(fields, st));
      ExtendsTransitive(st, mid, CollectFields(fields, st));
    }
  }

  /** Every string `collectAllPaths` returns looks like a path. */
  lemma AllPathsLikely(v: Json)
    ensures forall i :: 0 <= i < |AllPaths(v)| ==> LikelyPath(AllPaths(v)[i])
  {
    CollectExtends(v, Collected([], {}));
  }

  /**
   * Objects are told apart only by constructor name and key count: once an
   * object has been visited, a later object with the same name and as many
   * keys contributes nothing, whatever it holds.
   */
  lemma SameKeyCountSkipped(a: Fields, b: Fields, st: Collected)
    requires CtorName(a) == CtorName(b) && |a| == |b|
    ensures CollectItems([Obj(a), Obj(b)], st) == Collect(Obj(a), st)
  {
    var first := Collect(Obj(a), st);
    assert [Obj(a), Obj(b)][..1] == [Obj(a)];
    assert [Obj(a)][..0] == [];
    assert CollectItems([Obj(a)], st) == first;
    if ObjectId(a) !in st.seen {
      FieldsExtend(a, Collected(st.paths, st.seen + {ObjectId(a)}));
    }
    assert ObjectId(b) in first.seen;
  }

  /**
   * An object whose id the walk has not met is visited: its members are
   * collected after whatever came before it.
   */
  lemma UnseenIdVisited(a: Fields, b: Fields, st: Collected)
    requires ObjectId(b) !in Collect(Obj(a), st).seen
    ensures var first := Collect(Obj(a), st);
      CollectItems([Obj(a), Obj(b)], st)
        == CollectFields(b, Collected(first.paths, first.seen + {ObjectId(b)}))
  {
    var first := Collect(Obj(a), st);
    assert [Obj(a), Obj(b)][..1] == [Obj(a)];
    assert [Obj(a)][..0] == [];
    assert CollectItems([Obj(a)], st) == first;
    assert CollectItems([Obj(a), Obj(b)], st) == Collect(Obj(b), first);
  }

  // ---------------------------------------------------------------------------
  // transformPaths and canonicalizePaths
  // ---------------------------------------------------------------------------

  /** A path-like string that starts with the prefix loses it; anything else stays. */
  function Strip(s: string, prefix: string): (r: string)
    ensures LikelyPath(s) && Strings.StartsWith(s, prefix) ==> prefix + r == s
    ensures !(LikelyPath(s) && Strings.StartsWith(s, prefix)) ==> r == s
  {
    if LikelyPath(s) && Strings.StartsWith(s, prefix) then s[|prefix|..] else s
  }

  /** `transformPaths(obj, prefix)` on a tree: strings and keys stripped, arrays and objects rebuilt. */
  function Transform(v: Json, prefix: string): (r: Json)
    ensures v.Arr? <==> r.Arr?
    ensures v.Arr? ==> |r.items| == |v.items|
    ensures v.Obj? <==> r.Obj?
    ensures !v.Str? && !v.Arr? && !v.Obj? ==> r == v
    decreases v, 1
  {
    match v
    case Str(s) => Str(Strip(s, prefix))
    case Arr(items) => Arr(seq(|items|, i requires 0 <= i < |items| => Transform(items[i], prefix)))
    case Obj(fields) => Obj(TransformFields(fields, prefix))
    case _ => v
  }

  /** The loop `result[newKey] = transformPaths(value)`, in order: a later key that strips to the same name wins. */
  function TransformFields(fields: Fields, prefix: string): Fields
    decreases fields, 0
  {
    if fields == [] then []
    else
      var last := fields[|fields| - 1];
      assert last in fields && last.1 < last;
      Assign(TransformFields(fields[..|fields| - 1], prefix), Strip(last.0, prefix), Transform(last.1, prefix))
  }

  /** No path-like string or key anywhere in `v` starts with the prefix. */
  predicate Untouched(v: Json, prefix: string)
    decreases v
  {
    match v
    case Str(s) => !(LikelyPath(s) && Strings.StartsWith(s, prefix))
    case Arr(items) => forall i :: 0 <= i < |items| ==> Untouched(items[i], prefix)
    case Obj(fields) => forall i :: 0 <= i < |fields| ==>
      !(LikelyPath(fields[i].0) && Strings.StartsWith(fields[i].0, prefix)) && Untouched(fields[i].1, prefix)
    case _ => true
  }

  /** With nothing to strip, the transformation rebuilds a well-keyed value exactly. */
  lemma {:induction false} TransformIdentity(v: Json, prefix: string)
    requires WellKeyed(v) && Untouched(v, prefix)
    ensures Transform(v, prefix) == v
    decreases v, 1
  {
    match v
    case Arr(items) =>
      forall i | 0 <= i < |items| ensures Transform(items[i], prefix) == items[i] {
        TransformIdentity(items[i], prefix);
      }
    case Obj(fields) =>
      TransformFieldsIdentity(fields, prefix);
    case _ =>
  }

  lemma {:induction false} TransformFieldsIdentity(fields: Fields, prefix: string)
    requires DistinctKeys(fields)
    requires forall i :: 0 <= i < |fields| ==> WellKeyed(fields[i].1)
    requires forall i :: 0 <= i < |fields| ==>
      !(LikelyPath(fields[i].0) && Strings.StartsWith(fields[i].0, prefix)) && Untouched(fields[i].1, prefix)
    ensures TransformFields(fields, prefix) == fields
    decreases fields, 0
  {
    if fields != [] {
      var n := |fields| - 1;
      var init := fields[..n];
      var last := fields[n];
      assert last in fields && last.1 < last;
      TransformFieldsIdentity(init, prefix);
      TransformIdentity(last.1, prefix);
      assert last.0 !in Keys(init) by {
        forall j | 0 <= j < |init| ensures Keys(init)[j] != last.0 {
          assert fields[j].0 != fields[n].0;
        }
      }
      AssignFresh(init, last.0, last.1);
      assert init + [last] == fields;
    }
  }

  /** `canonicalizePaths(result)`: the data, and the prefix when one was stripped. */
  datatype Canonical = Canonical(data: Json, pathPrefix: Option<string>)

  function CanonicalizePaths(result: Json): (r: Canonical)
    ensures r.pathPrefix.None? ==> r.data == result
    ensures r.pathPrefix.Some? ==> r.pathPrefix.value != "" && r.pathPrefix.value[|r.pathPrefix.value| - 1] == '/'
  {
    var allPaths := AllPaths(result);
    if |allPaths| == 0 then Canonical(result, None)
    else
      var commonPrefix := CommonPrefixOf(allPaths);
      if commonPrefix == "" then Canonical(result, None)
      else Canonical(Transform(result, commonPrefix), Some(commonPrefix))
  }

  /**
   * A prefix is reported exactly when some path was collected and they share
   * a directory; it is then what was stripped, and a result in which nothing
   * starts with it comes back unchanged.
   */
  lemma CanonicalizeCharacterised(result: Json)
    ensures var r := CanonicalizePaths(result);
      && (r.pathPrefix.Some? <==> AllPaths(result) != [] && CommonPrefixOf(AllPaths(result)) != "")
      && (r.pathPrefix.Some? ==> r.pathPrefix.value == CommonPrefixOf(AllPaths(result)))
      && (r.pathPrefix.Some? && WellKeyed(result) && Untouched(result, r.pathPrefix.value) ==> r.data == result)
  {
    var r := CanonicalizePaths(result);
    if r.pathPrefix.Some? && WellKeyed(result) && Untouched(result, r.pathPrefix.value) {
      TransformIdentity(result, r.pathPrefix.value);
    }
  }

  /**
   * An own `constructor` whose `name` is a path gives the root the id
   * `<path>_1`, unlike the nested object's `Object_1`, so the nested object
   * is visited: the path is collected, its directory reported as the prefix
   * and stripped from it.
   */
  lemma ConstructorNameCollected(p: string)
    requires '/' in p
    ensures var v := Obj([("constructor", Obj([("name", Str(p))]))]);
      && AllPaths(v) == [p]
      && CanonicalizePaths(v)
         == Canonical(Obj([("constructor", Obj([("name", Str(p[|DirectoryPart(p)|..]))]))]), Some(DirectoryPart(p)))
  {
    var prefix := DirectoryPart(p);
    assert LikelyPath(p);
    ConstructorExampleCollected(p);
    ConstructorExampleTransformed(p, prefix);
    assert CommonPrefixOf([p]) == prefix;
  }

  /** The walk over the example visits both objects and collects the one path. */
  lemma ConstructorExampleCollected(p: string)
    requires '/' in p
    ensures AllPaths(Obj([("constructor", Obj([("name", Str(p))]))])) == [p]
  {
    KeysNotPaths();
    ConstructorIds(p);
    NestedCollected("constructor", "name", p);
  }

  /** Two nested one-member objects with distinct ids: the inner path is collected. */
  lemma NestedCollected(outerKey: string, innerKey: string, p: string)
    requires !LikelyPath(outerKey) && !LikelyPath(innerKey) && LikelyPath(p)
    requires ObjectId([(outerKey, Obj([(innerKey, Str(p))]))]) != ObjectId([(innerKey, Str(p))])
    ensures AllPaths(Obj([(outerKey, Obj([(innerKey, Str(p))]))])) == [p]
  {
    var inner := [(innerKey, Str(p))];
    var root := [(outerKey, Obj(inner))];
    OneMemberVisited(outerKey, Obj(inner), Collected([], {}));
    var st1 := Collected([], {} + {ObjectId(root)});
    OneMemberVisited(innerKey, Str(p), st1);
  }

  /** A one-member object with an unseen id: its value is walked with the id added. */
  lemma OneMemberVisited(k: string, x: Json, st: Collected)
    requires !LikelyPath(k) && ObjectId([(k, x)]) !in st.seen
    ensures Collect(Obj([(k, x)]), st) == Collect(x, Collected(st.paths, st.seen + {ObjectId([(k, x)])}))
  {
    var fields := [(k, x)];
    var st1 := Collected(st.paths, st.seen + {ObjectId(fields)});
    assert fields[..0] == [];
    assert CollectMember(fields[0], st1) == Collect(x, st1);
    assert CollectFields(fields, st1) == CollectMember(fields[0], CollectFields([], st1));
  }

  /** Stripping the prefix from the example touches only the path. */
  lemma ConstructorExampleTransformed(p: string, prefix: string)
    requires '/' in p && Strings.StartsWith(p, prefix)
    ensures Transform(Obj([("constructor", Obj([("name", Str(p))]))]), prefix)
      == Obj([("constructor", Obj([("name", Str(p[|prefix|..]))]))])
  {
    KeysNotPaths();
    NestedTransformed("constructor", "name", p, prefix);
  }

  /** Two nested one-member objects under non-path keys: only the inner path is stripped. */
  lemma NestedTransformed(outerKey: string, innerKey: string, p: string, prefix: string)
    requires !LikelyPath(outerKey) && !LikelyPath(innerKey) && LikelyPath(p) && Strings.StartsWith(p, prefix)
    ensures Transform(Obj([(outerKey, Obj([(innerKey, Str(p))]))]), prefix)
      == Obj([(outerKey, Obj([(innerKey, Str(p[|prefix|..]))]))])
  {
    var inner := [(innerKey, Str(p))];
    var root := [(outerKey, Obj(inner))];
    var inner' := Obj([(innerKey, Str(p[|prefix|..]))]);
    assert inner[..0] == [] && root[..0] == [];
    assert Strip(p, prefix) == p[|prefix|..] && Strip(innerKey, prefix) == innerKey;
    assert TransformFields(inner, prefix) == Assign([], innerKey, Str(p[|prefix|..]));
    assert Transform(Obj(inner), prefix) == inner';
    assert Strip(outerKey, prefix) == outerKey;
    assert TransformFields(root, prefix) == Assign([], outerKey, inner');
  }

  /** The two keys of the example are not paths. */
  lemma KeysNotPaths()
    ensures !LikelyPath("constructor") && !LikelyPath("name")
  {
    NotPathByLastChar("constructor");
    NotPathByLastChar("name");
  }

  /** A string with no '/' whose last character ends none of the extensions is not a path. */
  lemma NotPathByLastChar(s: string)
    requires s != [] && '/' !in s
    requires s[|s| - 1] != 's' && s[|s| - 1] != 'x' && s[|s| - 1] != 'n'
    requires s[|s| - 1] != 'd' && s[|s| - 1] != 'l'
    ensures !LikelyPath(s)
  {
    forall t | t in [".ts", ".js", ".tsx", ".jsx", ".json", ".md", ".yml", ".yaml"]
      ensures !Strings.EndsWith(s, t)
    {
      if Strings.EndsWith(s, t) {
        EndsWithLast(s, t);
      }
    }
  }

  lemma EndsWithLast(s: string, t: string)
    requires t != [] && Strings.EndsWith(s, t)
    ensures s[|s| - 1] == t[|t| - 1]
  {
    assert s[|s| - |t|..][|t| - 1] == s[|s| - 1];
  }

  /** The example's root is remembered under its path name, the nested object as `Object`. */
  lemma ConstructorIds(p: string)
    requires '/' in p
    ensures CtorName([("constructor", Obj([("name", Str(p))]))]) == p
    ensures CtorName([("name", Str(p))]) == "Object"
    ensures ObjectId([("constructor", Obj([("name", Str(p))]))]) != ObjectId([("name", Str(p))])
  {
    assert Lookup([("name", Str(p))], "constructor") == None;
    assert '/' !in "Object";
    ObjectIdParts([("constructor", Obj([("name", Str(p))]))], [("name", Str(p))]);
  }
}
