/**
 * The model of `Array.prototype.sort(comparator)`: a stable sort by a total
 * preorder. JavaScript leaves the algorithm to the engine but requires
 * stability (ES2019); insertion sort is one stable sort (`SortByStable`), and
 * every stable sort by the same comparator gives the same result
 * (`SortedStableUnique`).
 */
module Sorting {

  /** `le` is total and transitive: a comparator JavaScript can sort with. */
  ghost predicate TotalPreorder<T(!new)>(le: (T, T) -> bool)
  {
    && (forall a, b :: le(a, b) || le(b, a))
    && (forall a, b, c :: le(a, b) && le(b, c) ==> le(a, c))
  }

  /** Every earlier element is at most every later one. */
  ghost predicate SortedBy<T>(s: seq<T>, le: (T, T) -> bool)
  {
    forall i, j :: 0 <= i < j < |s| ==> le(s[i], s[j])
  }

  /** Insert `x` before the first element it does not exceed. */
  function InsertBy<T(!new)>(x: T, s: seq<T>, le: (T, T) -> bool): (r: seq<T>)
    requires TotalPreorder(le)
    requires SortedBy(s, le)
    ensures SortedBy(r, le)
    ensures multiset(r) == multiset(s) + multiset{x}
    ensures |r| == |s| + 1
  {
    if s == [] then [x]
    else if le(x, s[0]) then [x] + s
    else
      var rest := InsertBy(x, s[1..], le);
      assert s == [s[0]] + s[1..];
      assert le(s[0], x);
      assert forall k :: 0 <= k < |rest| ==> le(s[0], rest[k]) by {
        forall k | 0 <= k < |rest| ensures le(s[0], rest[k]) {
          assert rest[k] in multiset(rest);
          if rest[k] != x {
            assert rest[k] in multiset(s[1..]);
            var m :| 0 <= m < |s[1..]| && s[1..][m] == rest[k];
            assert s[m + 1] == rest[k];
          }
        }
      }
      [s[0]] + rest
  }

  /** The elements of `s` in the order `le` prescribes. */
  function SortBy<T(!new)>(s: seq<T>, le: (T, T) -> bool): (r: seq<T>)
    requires TotalPreorder(le)
    ensures SortedBy(r, le)
    ensures multiset(r) == multiset(s)
    ensures |r| == |s|
  {
    if s == [] then []
    else
      assert s == [s[0]] + s[1..];
      InsertBy(s[0], SortBy(s[1..], le), le)
  }

  /** An element of the sorted sequence comes from the input and vice versa. */
  lemma SortByMembers<T(!new)>(s: seq<T>, le: (T, T) -> bool)
    requires TotalPreorder(le)
    ensures forall x :: x in SortBy(s, le) <==> x in s
  {
    var r := SortBy(s, le);
    forall x ensures x in r <==> x in s {
      assert x in r <==> x in multiset(r);
      assert x in s <==> x in multiset(s);
    }
  }

  /** `le` is antisymmetric: only equal values are mutually at most each other. */
  ghost predicate Antisymmetric<T(!new)>(le: (T, T) -> bool)
  {
    forall a, b :: le(a, b) && le(b, a) ==> a == b
  }

  /**
   * Under an antisymmetric order, a sorted permutation is unique: the result of
   * sorting does not depend on the order the input arrived in.
   */
  lemma {:induction false} SortedPermutationUnique<T(!new)>(a: seq<T>, b: seq<T>, le: (T, T) -> bool)
    requires TotalPreorder(le) && Antisymmetric(le)
    requires SortedBy(a, le) && SortedBy(b, le)
    requires multiset(a) == multiset(b)
    ensures a == b
    decreases |a|
  {
    if a != [] {
      SortedHeadsAgree(a, b, le);
      TailMultisets(a, b);
      SortedTail(a, le);
      SortedTail(b, le);
      SortedPermutationUnique(a[1..], b[1..], le);
    }
  }

  /** Two sorted permutations of each other start with the same element. */
  lemma SortedHeadsAgree<T(!new)>(a: seq<T>, b: seq<T>, le: (T, T) -> bool)
    requires TotalPreorder(le) && Antisymmetric(le)
    requires SortedBy(a, le) && SortedBy(b, le)
    requires multiset(a) == multiset(b) && a != []
    ensures b != [] && a[0] == b[0]
  {
    assert |b| == |a| by { assert |multiset(a)| == |multiset(b)|; }
    assert a[0] in multiset(b);
    assert b[0] in multiset(a);
    var i :| 0 <= i < |b| && b[i] == a[0];
    var j :| 0 <= j < |a| && a[j] == b[0];
    assert le(b[0], b[i]) && le(a[0], a[j]);
    assert a[0] == b[0];
  }

  lemma TailMultisets<T>(a: seq<T>, b: seq<T>)
    requires a != [] && b != [] && a[0] == b[0]
    requires multiset(a) == multiset(b)
    ensures multiset(a[1..]) == multiset(b[1..])
  {
    assert a == [a[0]] + a[1..] && b == [b[0]] + b[1..];
    assert multiset(a) == multiset{a[0]} + multiset(a[1..]);
    assert multiset(b) == multiset{b[0]} + multiset(b[1..]);
    assert multiset(a[1..]) == multiset(a) - multiset{a[0]};
    assert multiset(b[1..]) == multiset(b) - multiset{b[0]};
  }

  lemma SortedTail<T>(a: seq<T>, le: (T, T) -> bool)
    requires SortedBy(a, le) && a != []
    ensures SortedBy(a[1..], le)
  {
    forall i, j | 0 <= i < j < |a[1..]| ensures le(a[1..][i], a[1..][j]) {
      assert a[1..][i] == a[i + 1] && a[1..][j] == a[j + 1];
    }
  }

  /** Sorting two permutations of each other gives the same sequence. */
  lemma SortByPermutationInvariant<T(!new)>(a: seq<T>, b: seq<T>, le: (T, T) -> bool)
    requires TotalPreorder(le) && Antisymmetric(le)
    requires multiset(a) == multiset(b)
    ensures SortBy(a, le) == SortBy(b, le)
  {
    SortedPermutationUnique(SortBy(a, le), SortBy(b, le), le);
  }

  /** Sorting what is already sorted changes nothing. */
  lemma {:induction false} SortBySorted<T(!new)>(s: seq<T>, le: (T, T) -> bool)
    requires TotalPreorder(le) && SortedBy(s, le)
    ensures SortBy(s, le) == s
  {
    if s != [] {
      SortedTail(s, le);
      SortBySorted(s[1..], le);
      if |s| > 1 {
        assert le(s[0], s[1..][0]);
      }
      InsertByFront(s[0], s[1..], le);
      assert s == [s[0]] + s[1..];
    }
  }

  /** An element no larger than the head of a sorted sequence is inserted in front. */
  lemma InsertByFront<T(!new)>(x: T, s: seq<T>, le: (T, T) -> bool)
    requires TotalPreorder(le) && SortedBy(s, le)
    requires s != [] ==> le(x, s[0])
    ensures InsertBy(x, s, le) == [x] + s
  {
  }

  // ---------------------------------------------------------------------------
  // Stability
  // ---------------------------------------------------------------------------

  /** `a` and `b` tie: the comparator returns 0 for them. */
  predicate Ties<T>(le: (T, T) -> bool, a: T, b: T)
  {
    le(a, b) && le(b, a)
  }

  /** The elements of `s` that tie with `x`, in their order in `s`. */
  function TiesWith<T>(s: seq<T>, x: T, le: (T, T) -> bool): (r: seq<T>)
    ensures |r| <= |s|
    ensures forall y :: y in r ==> y in s && Ties(le, y, x)
  {
    if s == [] then [] else (if Ties(le, s[0], x) then [s[0]] else []) + TiesWith(s[1..], x, le)
  }

  lemma TiesWithCons<T>(h: T, t: seq<T>, x: T, le: (T, T) -> bool)
    ensures TiesWith([h] + t, x, le) == (if Ties(le, h, x) then [h] else []) + TiesWith(t, x, le)
  {
    assert ([h] + t)[0] == h && ([h] + t)[1..] == t;
  }

  /** Inserting `y` puts it before every element it ties with. */
  lemma {:induction false} InsertByTies<T(!new)>(y: T, s: seq<T>, x: T, le: (T, T) -> bool)
    requires TotalPreorder(le) && SortedBy(s, le)
    ensures TiesWith(InsertBy(y, s, le), x, le) == (if Ties(le, y, x) then [y] else []) + TiesWith(s, x, le)
  {
    if s == [] {
      TiesWithCons(y, [], x, le);
    } else if le(y, s[0]) {
      TiesWithCons(y, s, x, le);
    } else {
      SortedTail(s, le);
      var rest := InsertBy(y, s[1..], le);
      assert InsertBy(y, s, le) == [s[0]] + rest;
      InsertByTies(y, s[1..], x, le);
      TiesWithCons(s[0], rest, x, le);
      TiesWithCons(s[0], s[1..], x, le);
      assert s == [s[0]] + s[1..];
      var h := s[0];
      assert Ties(le, h, x) && Ties(le, y, x) ==> le(y, x) && le(x, h);
    }
  }

  /** The sort is stable: the elements that tie with any `x` keep their input order. */
  lemma {:induction false} SortByTies<T(!new)>(s: seq<T>, x: T, le: (T, T) -> bool)
    requires TotalPreorder(le)
    ensures TiesWith(SortBy(s, le), x, le) == TiesWith(s, x, le)
  {
    if s != [] {
      SortByTies(s[1..], x, le);
      InsertByTies(s[0], SortBy(s[1..], le), x, le);
    }
  }

  lemma SortByStable<T(!new)>(s: seq<T>, le: (T, T) -> bool)
    requires TotalPreorder(le)
    ensures forall x :: TiesWith(SortBy(s, le), x, le) == TiesWith(s, x, le)
  {
    forall x ensures TiesWith(SortBy(s, le), x, le) == TiesWith(s, x, le) {
      SortByTies(s, x, le);
    }
  }

  /**
   * A sorted sequence that keeps the order of every class of tied elements of
   * another sorted sequence is that sequence: a stable sort has one result.
   */
  lemma {:induction false} SortedStableUnique<T(!new)>(a: seq<T>, b: seq<T>, le: (T, T) -> bool)
    requires TotalPreorder(le)
    requires SortedBy(a, le) && SortedBy(b, le)
    requires forall x :: TiesWith(a, x, le) == TiesWith(b, x, le)
    ensures a == b
    decreases |a| + |b|
  {
    if a != [] {
      StableHeadsAgree(a, b, le);
      StableTailsTie(a, b, le);
      SortedTail(a, le);
      SortedTail(b, le);
      SortedStableUnique(a[1..], b[1..], le);
      assert a == [a[0]] + a[1..] && b == [b[0]] + b[1..];
    } else if b != [] {
      HeadTies(b, le);
      assert false;
    }
  }

  /** Two sorted sequences with the same classes of ties start with the same element. */
  lemma StableHeadsAgree<T(!new)>(a: seq<T>, b: seq<T>, le: (T, T) -> bool)
    requires TotalPreorder(le)
    requires SortedBy(a, le) && SortedBy(b, le) && a != []
    requires forall x :: TiesWith(a, x, le) == TiesWith(b, x, le)
    ensures b != [] && a[0] == b[0]
  {
    assert TiesWith(a, a[0], le)[0] == a[0];
    assert b != [] && a[0] in b;
    assert b[0] in TiesWith(b, b[0], le);
    assert b[0] in a;
    assert Ties(le, a[0], b[0]);
    assert TiesWith(b, a[0], le)[0] == b[0];
    assert TiesWith(a, a[0], le) == TiesWith(b, a[0], le);
  }

  /** With the same head, the tails have the same classes of ties. */
  lemma StableTailsTie<T>(a: seq<T>, b: seq<T>, le: (T, T) -> bool)
    requires a != [] && b != [] && a[0] == b[0]
    requires forall x :: TiesWith(a, x, le) == TiesWith(b, x, le)
    ensures forall x :: TiesWith(a[1..], x, le) == TiesWith(b[1..], x, le)
  {
    forall x ensures TiesWith(a[1..], x, le) == TiesWith(b[1..], x, le) {
      var p := if Ties(le, a[0], x) then [a[0]] else [];
      assert TiesWith(a, x, le) == p + TiesWith(a[1..], x, le);
      assert TiesWith(b, x, le) == p + TiesWith(b[1..], x, le);
      assert TiesWith(a, x, le) == TiesWith(b, x, le);
      assert TiesWith(a[1..], x, le) == TiesWith(a, x, le)[|p|..];
      assert TiesWith(b[1..], x, le) == TiesWith(b, x, le)[|p|..];
    }
  }

  /** The first element of a sequence ties with itself, so it heads its own class. */
  lemma HeadTies<T(!new)>(s: seq<T>, le: (T, T) -> bool)
    ensures TotalPreorder(le) && s != [] ==> TiesWith(s, s[0], le) != [] && TiesWith(s, s[0], le)[0] == s[0]
  {
  }

  /** No element occurs twice. */
  predicate Distinct<T(==)>(s: seq<T>)
  {
    forall i, j :: 0 <= i < j < |s| ==> s[i] != s[j]
  }

  lemma {:induction false} DistinctCountsOnce<T>(s: seq<T>, x: T)
    requires Distinct(s)
    ensures multiset(s)[x] <= 1
  {
    if s != [] {
      assert s == [s[0]] + s[1..];
      assert Distinct(s[1..]);
      DistinctCountsOnce(s[1..], x);
      if x == s[0] {
        assert x !in s[1..];
      }
    }
  }

  lemma RepeatCountsTwice<T>(s: seq<T>, i: nat, j: nat)
    requires i < j < |s|
    ensures s[i] == s[j] ==> multiset(s)[s[i]] >= 2
  {
    assert s == s[..j] + [s[j]] + s[j + 1..];
    assert s[i] == s[..j][i];
    assert s[i] in multiset(s[..j]);
  }

  /** A permutation of a list without repeats has none either. */
  lemma DistinctPermutation<T>(a: seq<T>, b: seq<T>)
    requires multiset(a) == multiset(b)
    requires Distinct(a)
    ensures Distinct(b)
  {
    forall i, j | 0 <= i < j < |b| ensures b[i] != b[j] {
      DistinctCountsOnce(a, b[i]);
      RepeatCountsTwice(b, i, j);
    }
  }
}


/** `Array.prototype.sort()` on strings: ascending by UTF-16 code units. */
module StringSort {
  import Strings
  import Sorting

  lemma CodeUnitLeIsTotalOrder()
    ensures Sorting.TotalPreorder(Strings.CodeUnitLe)
    ensures Sorting.Antisymmetric(Strings.CodeUnitLe)
  {
    forall a: string, b: string ensures Strings.CodeUnitLe(a, b) || Strings.CodeUnitLe(b, a) {
      Strings.CodeUnitTotal(a, b);
    }
    forall a: string, b: string, c: string | Strings.CodeUnitLe(a, b) && Strings.CodeUnitLe(b, c)
      ensures Strings.CodeUnitLe(a, c)
    {
      if Strings.CodeUnitLess(a, b) && Strings.CodeUnitLess(b, c) { Strings.CodeUnitTransitive(a, b, c); }
    }
    forall a: string, b: string | Strings.CodeUnitLe(a, b) && Strings.CodeUnitLe(b, a) ensures a == b {
      if Strings.CodeUnitLess(a, b) { Strings.CodeUnitAsymmetric(a, b); }
    }
  }

  /** `strings.sort()`: the same strings, in ascending code-unit order. */
  function SortStrings(s: seq<string>): (r: seq<string>)
    ensures Sorting.SortedBy(r, Strings.CodeUnitLe)
    ensures multiset(r) == multiset(s)
    ensures forall x :: x in r <==> x in s
  {
    CodeUnitLeIsTotalOrder();
    Sorting.SortByMembers(s, Strings.CodeUnitLe);
    Sorting.SortBy(s, Strings.CodeUnitLe)
  }

  /** Sorting does not depend on the order of the input. */
  lemma SortStringsOrderFree(a: seq<string>, b: seq<string>)
    requires multiset(a) == multiset(b)
    ensures SortStrings(a) == SortStrings(b)
  {
    CodeUnitLeIsTotalOrder();
    Sorting.SortByPermutationInvariant(a, b, Strings.CodeUnitLe);
  }

  /** Sorting keys that are already in code-unit order leaves them as they are. */
  lemma SortStringsSorted(s: seq<string>)
    requires Sorting.SortedBy(s, Strings.CodeUnitLe)
    ensures SortStrings(s) == s
  {
    CodeUnitLeIsTotalOrder();
    Sorting.SortBySorted(s, Strings.CodeUnitLe);
  }
}
