/**
 * `Array.prototype.filter` and `Array.prototype.map` on sequences, with the
 * facts the pipelines rely on: filtering keeps exactly the elements that pass,
 * in their original order, and distributes over concatenation.
 */
module Seqs {

  function Filter<T>(s: seq<T>, p: T -> bool): (r: seq<T>)
    ensures |r| <= |s|
    ensures forall i :: 0 <= i < |r| ==> r[i] in s && p(r[i])
    ensures forall i :: 0 <= i < |s| && p(s[i]) ==> s[i] in r
  {
    if |s| == 0 then []
    else
      var init := s[..|s| - 1];
      var last := s[|s| - 1];
      assert s == init + [last];
      Filter(init, p) + (if p(last) then [last] else [])
  }

  function Map<T, U>(s: seq<T>, f: T -> U): (r: seq<U>)
    ensures |r| == |s|
    ensures forall i :: 0 <= i < |s| ==> r[i] == f(s[i])
  {
    if |s| == 0 then [] else Map(s[..|s| - 1], f) + [f(s[|s| - 1])]
  }

  /** `map` with a callback that is only defined on the elements it is given. */
  function MapWhere<T, U>(s: seq<T>, f: T --> U): (r: seq<U>)
    requires forall i :: 0 <= i < |s| ==> f.requires(s[i])
    ensures |r| == |s|
    ensures forall i :: 0 <= i < |s| ==> r[i] == f(s[i])
  {
    if |s| == 0 then [] else MapWhere(s[..|s| - 1], f) + [f(s[|s| - 1])]
  }

  /** JavaScript's `slice(-n)` for `n > 0`: the last `n` elements, or all of them. */
  function Last<T>(s: seq<T>, n: nat): (r: seq<T>)
    requires n > 0
    ensures |r| == if n < |s| then n else |s|
    ensures r == s[|s| - |r|..]
  {
    if n >= |s| then s else s[|s| - n..]
  }

  /** The last `m` elements are the tail of the last `n`, for `m <= n`. */
  lemma LastOfLast<T>(s: seq<T>, m: nat, n: nat)
    requires 0 < m <= n
    ensures |Last(s, m)| <= |Last(s, n)|
    ensures forall i :: 0 <= i < |Last(s, m)| ==> Last(s, m)[i] == Last(s, n)[|Last(s, n)| - |Last(s, m)| + i]
    ensures forall x :: x in Last(s, m) ==> x in Last(s, n)
  {
    forall x | x in Last(s, m) ensures x in Last(s, n) {
      var i :| 0 <= i < |Last(s, m)| && Last(s, m)[i] == x;
      assert Last(s, n)[|Last(s, n)| - |Last(s, m)| + i] == x;
    }
  }

  /** Where element `i` of the last `m` sits among the last `n`, for `m <= n`. */
  lemma LastIndexInLast<T>(s: seq<T>, m: nat, n: nat, i: nat)
    requires 0 < m <= n && i < |Last(s, m)|
    ensures |Last(s, n)| - |Last(s, m)| + i < |Last(s, n)|
    ensures Last(s, m)[i] == Last(s, n)[|Last(s, n)| - |Last(s, m)| + i]
  {
  }

  /** An element of the last `m` satisfying `p` is one of the last `n`, for `m <= n`. */
  lemma {:induction false} ExistsInLongerLast<T>(s: seq<T>, m: nat, n: nat, p: T -> bool)
    requires 0 < m <= n
    ensures (exists i :: 0 <= i < |Last(s, m)| && p(Last(s, m)[i]))
        ==> (exists j :: 0 <= j < |Last(s, n)| && p(Last(s, n)[j]))
  {
    var lm, ln := Last(s, m), Last(s, n);
    if exists i :: 0 <= i < |lm| && p(lm[i]) {
      var i :| 0 <= i < |lm| && p(lm[i]);
      LastIndexInLast(s, m, n, i);
      var j := |ln| - |lm| + i;
      assert 0 <= j < |ln| && p(ln[j]);
    }
  }

  /** Taking the last `m` of the last `n` is taking the last `m`, for `m <= n`. */
  lemma LastOfLastIsLast<T>(s: seq<T>, m: nat, n: nat)
    requires 0 < m <= n
    ensures Last(Last(s, n), m) == Last(s, m)
  {
  }

  /** A window no longer than the sequence's suffix `b` does not reach into `a`. */
  lemma LastOfConcat<T>(a: seq<T>, b: seq<T>, n: nat)
    requires 0 < n <= |b|
    ensures Last(a + b, n) == Last(b, n)
  {
  }

  /** Filtering a concatenation filters each part: the survivors keep their relative order. */
  lemma {:induction false} FilterConcat<T>(a: seq<T>, b: seq<T>, p: T -> bool)
    ensures Filter(a + b, p) == Filter(a, p) + Filter(b, p)
  {
    if |b| == 0 {
      assert a + b == a;
    } else {
      var b' := b[..|b| - 1];
      assert (a + b)[..|a + b| - 1] == a + b';
      FilterConcat(a, b', p);
    }
  }

  /** Filtering one more element of a prefix. */
  lemma FilterPrefixStep<T>(s: seq<T>, i: nat, p: T -> bool)
    requires i < |s|
    ensures Filter(s[..i + 1], p) == Filter(s[..i], p) + (if p(s[i]) then [s[i]] else [])
  {
    assert s[..i + 1][..i] == s[..i];
  }

  /** Filtering one more element of a suffix. */
  lemma FilterSuffixStep<T>(s: seq<T>, i: nat, p: T -> bool)
    requires i < |s|
    ensures Filter(s[i..], p) == (if p(s[i]) then [s[i]] else []) + Filter(s[i + 1..], p)
  {
    assert s[i..] == [s[i]] + s[i + 1..];
    FilterConcat([s[i]], s[i + 1..], p);
    assert [s[i]][..0] == [];
  }

  /** Nothing is dropped when every element passes. */
  lemma {:induction false} FilterAllPass<T>(s: seq<T>, p: T -> bool)
    requires forall i :: 0 <= i < |s| ==> p(s[i])
    ensures Filter(s, p) == s
  {
    if |s| > 0 {
      FilterAllPass(s[..|s| - 1], p);
    }
  }

  /** Two filters in a row are one filter by the conjunction. */
  lemma {:induction false} FilterFilter<T>(s: seq<T>, p: T -> bool, q: T -> bool, pq: T -> bool)
    requires forall x :: pq(x) == (p(x) && q(x))
    ensures Filter(Filter(s, p), q) == Filter(s, pq)
  {
    if |s| > 0 {
      var init := s[..|s| - 1];
      var last := s[|s| - 1];
      FilterFilter(init, p, q, pq);
      FilterConcat(Filter(init, p), if p(last) then [last] else [], q);
    }
  }

  /** Filters that agree on every element of `s` keep the same elements. */
  lemma {:induction false} FilterSameOn<T>(s: seq<T>, p: T -> bool, q: T -> bool)
    requires forall i :: 0 <= i < |s| ==> p(s[i]) == q(s[i])
    ensures Filter(s, p) == Filter(s, q)
  {
    if |s| > 0 {
      FilterSameOn(s[..|s| - 1], p, q);
    }
  }

  /** Mapping one more element. */
  lemma MapSnoc<T, U>(s: seq<T>, x: T, f: T -> U)
    ensures Map(s + [x], f) == Map(s, f) + [f(x)]
  {
    assert (s + [x])[..|s|] == s;
  }

  /** Mapping twice by a function that is idempotent on the elements is mapping once. */
  lemma MapIdempotent<T>(s: seq<T>, f: T -> T)
    requires forall i :: 0 <= i < |s| ==> f(f(s[i])) == f(s[i])
    ensures Map(Map(s, f), f) == Map(s, f)
  {
  }

  /** Mapping a concatenation maps each part. */
  lemma MapConcat<T, U>(a: seq<T>, b: seq<T>, f: T -> U)
    ensures Map(a + b, f) == Map(a, f) + Map(b, f)
  {
  }
}
