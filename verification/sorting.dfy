/**
 * `Array.prototype.sort` with a consistent comparator. The sort is stable
 * (ECMAScript 2019 onwards), and a stable sort by a total preorder has exactly
 * one possible result, so an insertion sort on sequences describes it exactly.
 * The comparator is given as `le(a, b)`, meaning `compare(a, b) <= 0`.
 */
module Sorting {

  ghost predicate TotalPreorder<T(!new)>(le: (T, T) -> bool) {
    && (forall a, b :: le(a, b) || le(b, a))
    && (forall a, b, c :: le(a, b) && le(b, c) ==> le(a, c))
  }

  ghost predicate SortedBy<T>(s: seq<T>, le: (T, T) -> bool) {
    forall i, j :: 0 <= i < j < |s| ==> le(s[i], s[j])
  }

  /** Inserts `x` before the first element it does not come after. */
  function InsertSorted<T>(x: T, s: seq<T>, le: (T, T) -> bool): (r: seq<T>)
    ensures multiset(r) == multiset(s) + multiset{x}
  {
    if |s| == 0 then [x]
    else if le(x, s[0]) then [x] + s
    else
      assert s == [s[0]] + s[1..];
      [s[0]] + InsertSorted(x, s[1..], le)
  }

  function SortBy<T>(s: seq<T>, le: (T, T) -> bool): (r: seq<T>)
    ensures multiset(r) == multiset(s)
  {
    if |s| == 0 then []
    else
      assert s == [s[0]] + s[1..];
      InsertSorted(s[0], SortBy(s[1..], le), le)
  }

  lemma {:induction false} InsertKeepsSorted<T(!new)>(x: T, s: seq<T>, le: (T, T) -> bool)
    requires TotalPreorder(le)
    requires SortedBy(s, le)
    ensures SortedBy(InsertSorted(x, s, le), le)
  {
    if |s| > 0 && !le(x, s[0]) {
      SortedTail(s, le);
      InsertKeepsSorted(x, s[1..], le);
      HeadBoundsInsert(x, s, le);
      ConsSorted(s[0], InsertSorted(x, s[1..], le), le);
    }
  }

  /** When `x` goes after the head, the head still comes first. */
  lemma HeadBoundsInsert<T(!new)>(x: T, s: seq<T>, le: (T, T) -> bool)
    requires TotalPreorder(le) && SortedBy(s, le)
    requires |s| > 0 && !le(x, s[0])
    ensures forall y :: y in InsertSorted(x, s[1..], le) ==> le(s[0], y)
  {
    var t := InsertSorted(x, s[1..], le);
    forall y | y in t ensures le(s[0], y) {
      assert y in multiset(t);
      if y != x {
        assert y in multiset(s[1..]);
        var j :| 0 <= j < |s[1..]| && s[1..][j] == y;
        assert s[j + 1] == y;
      }
    }
  }

  /** A first element below every other one keeps a sorted sequence sorted. */
  lemma ConsSorted<T>(a: T, t: seq<T>, le: (T, T) -> bool)
    requires SortedBy(t, le)
    requires forall y :: y in t ==> le(a, y)
    ensures SortedBy([a] + t, le)
  {
    var r := [a] + t;
    forall i, j | 0 <= i < j < |r| ensures le(r[i], r[j]) {
      if i == 0 {
        assert r[j] in t;
      } else {
        assert r[i] == t[i - 1] && r[j] == t[j - 1];
      }
    }
  }

  /** The sorted order is non-decreasing under `le`. */
  lemma {:induction false} SortBySorted<T(!new)>(s: seq<T>, le: (T, T) -> bool)
    requires TotalPreorder(le)
    ensures SortedBy(SortBy(s, le), le)
  {
    if |s| > 0 {
      SortBySorted(s[1..], le);
      InsertKeepsSorted(s[0], SortBy(s[1..], le), le);
    }
  }

  /** Ascending day numbers: the order `sort()` gives `yyyy-MM-dd` strings. */
  function IntLe(): (int, int) -> bool { (a: int, b: int) => a <= b }

  lemma IntLeTotalPreorder()
    ensures TotalPreorder(IntLe())
  {
  }

  /** The last element of a sorted non-empty sequence is one of its greatest. */
  lemma SortByLastIsGreatest<T(!new)>(s: seq<T>, le: (T, T) -> bool)
    requires TotalPreorder(le) && |s| > 0
    ensures |SortBy(s, le)| == |s|
    ensures SortBy(s, le)[|s| - 1] in s
    ensures forall i :: 0 <= i < |s| ==> le(s[i], SortBy(s, le)[|s| - 1])
  {
    var d := SortBy(s, le);
    assert |d| == |multiset(d)| == |multiset(s)| == |s|;
    assert d[|s| - 1] in multiset(d);
    SortBySorted(s, le);
    LastOfSortedIsGreatest(d, s, le);
  }

  /** The last element of a sorted arrangement of `s` comes after every element of `s`. */
  lemma LastOfSortedIsGreatest<T(!new)>(d: seq<T>, s: seq<T>, le: (T, T) -> bool)
    requires TotalPreorder(le) && SortedBy(d, le) && |d| > 0 && multiset(d) == multiset(s)
    ensures forall i :: 0 <= i < |s| ==> le(s[i], d[|d| - 1])
  {
    forall i | 0 <= i < |s| ensures le(s[i], d[|d| - 1]) {
      assert s[i] in multiset(d);
      var k :| 0 <= k < |d| && d[k] == s[i];
    }
  }

  /** The elements of `s` equivalent to `c` under `le`, in order. */
  function Equivalents<T>(s: seq<T>, c: T, le: (T, T) -> bool): seq<T>
  {
    if |s| == 0 then []
    else (if le(s[0], c) && le(c, s[0]) then [s[0]] else []) + Equivalents(s[1..], c, le)
  }

  lemma SortedTail<T>(s: seq<T>, le: (T, T) -> bool)
    requires |s| > 0 && SortedBy(s, le)
    ensures SortedBy(s[1..], le)
  {
    forall i, j | 0 <= i < j < |s[1..]| ensures le(s[1..][i], s[1..][j]) {
      assert s[1..][i] == s[i + 1] && s[1..][j] == s[j + 1];
    }
  }

  lemma EquivalentsCons<T>(y: T, s: seq<T>, c: T, le: (T, T) -> bool)
    ensures Equivalents([y] + s, c, le) == (if le(y, c) && le(c, y) then [y] else []) + Equivalents(s, c, le)
  {
    assert ([y] + s)[1..] == s;
  }

  lemma {:induction false} InsertEquivalents<T(!new)>(x: T, s: seq<T>, c: T, le: (T, T) -> bool)
    requires TotalPreorder(le)
    requires SortedBy(s, le)
    ensures Equivalents(InsertSorted(x, s, le), c, le)
         == (if le(x, c) && le(c, x) then [x] else []) + Equivalents(s, c, le)
  {
    if |s| == 0 {
      EquivalentsCons(x, s, c, le);
    } else if le(x, s[0]) {
      EquivalentsCons(x, s, c, le);
    } else {
      var t := InsertSorted(x, s[1..], le);
      assert InsertSorted(x, s, le) == [s[0]] + t;
      SortedTail(s, le);
      InsertEquivalents(x, s[1..], c, le);
      EquivalentsCons(s[0], t, c, le);
      EquivalentsCons(s[0], s[1..], c, le);
      assert [s[0]] + s[1..] == s;
      // s[0] strictly precedes x, so the two are never both equivalent to c
      NotBothEquivalent(x, s[0], c, le);
      EmptySwap(if le(x, c) && le(c, x) then [x] else [], if le(s[0], c) && le(c, s[0]) then [s[0]] else [],
        Equivalents(s[1..], c, le));
    }
  }

  lemma NotBothEquivalent<T(!new)>(x: T, y: T, c: T, le: (T, T) -> bool)
    requires TotalPreorder(le) && !le(x, y)
    ensures !(le(x, c) && le(c, x) && le(y, c) && le(c, y))
  {
  }

  lemma EmptySwap<T>(a: seq<T>, b: seq<T>, rest: seq<T>)
    requires a == [] || b == []
    ensures b + (a + rest) == a + (b + rest)
  {
  }

  /**
   * Stability: the elements of any equivalence class keep their input order,
   * so the result is the unique stable sort of `s`.
   */
  lemma {:induction false} SortByStable<T(!new)>(s: seq<T>, c: T, le: (T, T) -> bool)
    requires TotalPreorder(le)
    ensures Equivalents(SortBy(s, le), c, le) == Equivalents(s, c, le)
  {
    if |s| > 0 {
      SortByStable(s[1..], c, le);
      SortBySorted(s[1..], le);
      InsertEquivalents(s[0], SortBy(s[1..], le), c, le);
    }
  }
}
