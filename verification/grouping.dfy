/**
 * Ordered group-by over a sequence, as the engine builds it with a JavaScript
 * object used as a dictionary: for every element, look up the entry of its key,
 * create it on first sight (appending it, so entries stay in first-seen order),
 * then fold the element into that entry's accumulator.
 *
 * The incremental construction `GroupAll` is related to an independent
 * description: one entry per distinct key in first-occurrence order
 * (`Dedup(Map(xs, key))`), each holding the accumulation of exactly the elements
 * with that key, in input order (`Accumulate(Select(xs, key, k))`).
 */
module Grouping {
  import opened Seqs

  datatype Entry<K, A> = Entry(key: K, acc: A)

  /** The keys of a list of entries, in entry order. */
  function EntryKeys<K(==), A>(gs: seq<Entry<K, A>>): (ks: seq<K>)
    ensures |ks| == |gs|
    ensures forall i :: 0 <= i < |gs| ==> ks[i] == gs[i].key
  {
    if |gs| == 0 then [] else EntryKeys(gs[..|gs| - 1]) + [gs[|gs| - 1].key]
  }

  ghost predicate Distinct<K>(ks: seq<K>) {
    forall i, j :: 0 <= i < j < |ks| ==> ks[i] != ks[j]
  }

  /** The first occurrence of every value, in order of first occurrence. */
  function Dedup<K(==)>(ks: seq<K>): (d: seq<K>)
    ensures Distinct(d)
    ensures forall i :: 0 <= i < |d| ==> d[i] in ks
    ensures forall i :: 0 <= i < |ks| ==> ks[i] in d
  {
    if |ks| == 0 then []
    else
      var d := Dedup(ks[..|ks| - 1]);
      assert forall i :: 0 <= i < |ks| - 1 ==> ks[i] == ks[..|ks| - 1][i];
      if ks[|ks| - 1] in d then d else d + [ks[|ks| - 1]]
  }

  /** The elements whose key is `k`, in input order. */
  function Select<X, K(==)>(xs: seq<X>, key: X -> K, k: K): (s: seq<X>)
    ensures |s| <= |xs|
    ensures forall x :: x in s ==> x in xs && key(x) == k
    ensures forall i :: 0 <= i < |xs| && key(xs[i]) == k ==> xs[i] in s
  {
    if |xs| == 0 then []
    else
      var rest := Select(xs[..|xs| - 1], key, k);
      assert forall i :: 0 <= i < |xs| - 1 ==> xs[i] == xs[..|xs| - 1][i];
      if key(xs[|xs| - 1]) == k then rest + [xs[|xs| - 1]] else rest
  }

  /**
   * The accumulator of a group: created from the group's first element by
   * `init`, then every element of the group (the first one included) is folded
   * in with `add`.
   */
  function Accumulate<X, A>(ss: seq<X>, init: X -> A, add: (A, X) -> A): A
    requires |ss| > 0
  {
    if |ss| == 1 then add(init(ss[0]), ss[0])
    else add(Accumulate(ss[..|ss| - 1], init, add), ss[|ss| - 1])
  }

  /** Index of the entry with key `k`, or `|gs|` when there is none. */
  function Find<K(==), A>(gs: seq<Entry<K, A>>, k: K): (i: nat)
    ensures i <= |gs|
    ensures i < |gs| ==> gs[i].key == k
    ensures forall j :: 0 <= j < i ==> gs[j].key != k
  {
    if |gs| == 0 then 0
    else if gs[0].key == k then 0
    else 1 + Find(gs[1..], k)
  }

  /** One step of the forEach: ensure the entry of `x`'s key, fold `x` into it. */
  function Insert<X, K(==), A>(gs: seq<Entry<K, A>>, x: X, key: X -> K, init: X -> A, add: (A, X) -> A)
    : (r: seq<Entry<K, A>>)
  {
    var i := Find(gs, key(x));
    if i < |gs| then gs[i := Entry(key(x), add(gs[i].acc, x))]
    else gs + [Entry(key(x), add(init(x), x))]
  }

  /** The whole forEach over `xs`, starting from an empty dictionary. */
  function GroupAll<X, K(==), A>(xs: seq<X>, key: X -> K, init: X -> A, add: (A, X) -> A)
    : seq<Entry<K, A>>
  {
    if |xs| == 0 then []
    else Insert(GroupAll(xs[..|xs| - 1], key, init, add), xs[|xs| - 1], key, init, add)
  }

  /** `gs` is the ordered grouping of `xs` by `key`, each entry accumulated by `init`/`add`. */
  ghost predicate IsGrouping<X, K, A>(xs: seq<X>, key: X -> K, init: X -> A, add: (A, X) -> A,
                                     gs: seq<Entry<K, A>>)
  {
    && EntryKeys(gs) == Dedup(Map(xs, key))
    && forall i :: 0 <= i < |gs| ==>
         |Select(xs, key, gs[i].key)| > 0
         && gs[i].acc == Accumulate(Select(xs, key, gs[i].key), init, add)
  }

  lemma SelectEmptyWhenAbsent<X, K>(xs: seq<X>, key: X -> K, k: K)
    requires k !in Map(xs, key)
    ensures Select(xs, key, k) == []
  {
  }

  lemma SelectSnoc<X, K>(xs: seq<X>, x: X, key: X -> K, k: K)
    ensures Select(xs + [x], key, k) == Select(xs, key, k) + (if key(x) == k then [x] else [])
  {
    assert (xs + [x])[..|xs|] == xs;
  }

  lemma DedupSnoc<K>(ks: seq<K>, k: K)
    ensures Dedup(ks + [k]) == if k in ks then Dedup(ks) else Dedup(ks) + [k]
  {
    assert (ks + [k])[..|ks|] == ks;
  }

  lemma EntryKeysDistinct<K, A>(gs: seq<Entry<K, A>>, i: nat, j: nat)
    requires Distinct(EntryKeys(gs))
    requires i < |gs| && j < |gs| && i != j
    ensures gs[i].key != gs[j].key
  {
    var ks := EntryKeys(gs);
    assert ks[i] == gs[i].key && ks[j] == gs[j].key;
    if i < j {
      assert ks[i] != ks[j];
    } else {
      assert ks[j] != ks[i];
    }
  }

  lemma EntryKeysUpdate<K, A>(gs: seq<Entry<K, A>>, i: nat, e: Entry<K, A>)
    requires i < |gs| && e.key == gs[i].key
    ensures EntryKeys(gs[i := e]) == EntryKeys(gs)
  {
    var a, b := EntryKeys(gs[i := e]), EntryKeys(gs);
    assert |a| == |b|;
    forall j | 0 <= j < |a| ensures a[j] == b[j] {
    }
  }

  lemma AccumulateSnoc<X, A>(s: seq<X>, x: X, init: X -> A, add: (A, X) -> A)
    requires |s| > 0
    ensures Accumulate(s + [x], init, add) == add(Accumulate(s, init, add), x)
  {
    assert (s + [x])[..|s + [x]| - 1] == s;
  }

  /** Inserting an element whose key already has an entry. */
  lemma InsertExisting<X, K, A>(
    xs: seq<X>, x: X, key: X -> K, init: X -> A, add: (A, X) -> A, gs: seq<Entry<K, A>>)
    requires IsGrouping(xs, key, init, add, gs)
    requires Find(gs, key(x)) < |gs|
    ensures IsGrouping(xs + [x], key, init, add, Insert(gs, x, key, init, add))
  {
    var ys := xs + [x];
    var k := key(x);
    var i := Find(gs, k);
    var r := Insert(gs, x, key, init, add);
    var e := Entry(k, add(gs[i].acc, x));
    assert r == gs[i := e];
    ExistingKeys(xs, x, key, gs, i, e);
    forall j | 0 <= j < |r|
      ensures |Select(ys, key, r[j].key)| > 0
      ensures r[j].acc == Accumulate(Select(ys, key, r[j].key), init, add)
    {
      ExistingEntry(xs, x, key, init, add, gs, i, j);
    }
  }

  /** Updating the entry of an existing key keeps the keys those of `xs + [x]`. */
  lemma ExistingKeys<X, K, A>(xs: seq<X>, x: X, key: X -> K, gs: seq<Entry<K, A>>, i: nat, e: Entry<K, A>)
    requires EntryKeys(gs) == Dedup(Map(xs, key))
    requires i < |gs| && gs[i].key == key(x) == e.key
    ensures EntryKeys(gs[i := e]) == Dedup(Map(xs + [x], key))
  {
    EntryKeysUpdate(gs, i, e);
    assert key(x) in EntryKeys(gs) by {
      assert EntryKeys(gs)[i] == key(x);
    }
    MapSnoc(xs, x, key);
    DedupSnoc(Map(xs, key), key(x));
  }

  /** Entry `j` after updating entry `i`, the one of `x`'s key. */
  lemma ExistingEntry<X, K, A>(
    xs: seq<X>, x: X, key: X -> K, init: X -> A, add: (A, X) -> A, gs: seq<Entry<K, A>>, i: nat, j: nat)
    requires IsGrouping(xs, key, init, add, gs)
    requires i == Find(gs, key(x)) < |gs| && j < |gs|
    ensures var r := gs[i := Entry(key(x), add(gs[i].acc, x))];
      && |Select(xs + [x], key, r[j].key)| > 0
      && r[j].acc == Accumulate(Select(xs + [x], key, r[j].key), init, add)
  {
    var r := gs[i := Entry(key(x), add(gs[i].acc, x))];
    SelectSnoc(xs, x, key, r[j].key);
    if j == i {
      AccumulateSnoc(Select(xs, key, key(x)), x, init, add);
    } else {
      EntryKeysDistinct(gs, i, j);
      assert r[j] == gs[j];
    }
  }

  /** Inserting an element whose key is seen for the first time. */
  lemma InsertNew<X, K, A>(
    xs: seq<X>, x: X, key: X -> K, init: X -> A, add: (A, X) -> A, gs: seq<Entry<K, A>>)
    requires IsGrouping(xs, key, init, add, gs)
    requires Find(gs, key(x)) == |gs|
    ensures IsGrouping(xs + [x], key, init, add, Insert(gs, x, key, init, add))
  {
    var ys := xs + [x];
    var r := Insert(gs, x, key, init, add);
    var e := Entry(key(x), add(init(x), x));
    assert r == gs + [e];
    NewKeys(xs, x, key, gs, e);
    forall j | 0 <= j < |r|
      ensures |Select(ys, key, r[j].key)| > 0
      ensures r[j].acc == Accumulate(Select(ys, key, r[j].key), init, add)
    {
      NewEntry(xs, x, key, init, add, gs, j);
    }
  }

  /** Appending the entry of a new key appends that key to the keys of `xs + [x]`. */
  lemma NewKeys<X, K, A>(xs: seq<X>, x: X, key: X -> K, gs: seq<Entry<K, A>>, e: Entry<K, A>)
    requires EntryKeys(gs) == Dedup(Map(xs, key))
    requires Find(gs, key(x)) == |gs| && e.key == key(x)
    ensures EntryKeys(gs + [e]) == Dedup(Map(xs + [x], key))
  {
    assert key(x) !in EntryKeys(gs);
    assert key(x) !in Map(xs, key);
    MapSnoc(xs, x, key);
    DedupSnoc(Map(xs, key), key(x));
    assert (gs + [e])[..|gs|] == gs;
  }

  /** Entry `j` after appending the entry of `x`'s new key. */
  lemma NewEntry<X, K, A>(
    xs: seq<X>, x: X, key: X -> K, init: X -> A, add: (A, X) -> A, gs: seq<Entry<K, A>>, j: nat)
    requires IsGrouping(xs, key, init, add, gs)
    requires Find(gs, key(x)) == |gs| && j <= |gs|
    ensures var r := gs + [Entry(key(x), add(init(x), x))];
      && |Select(xs + [x], key, r[j].key)| > 0
      && r[j].acc == Accumulate(Select(xs + [x], key, r[j].key), init, add)
  {
    var r := gs + [Entry(key(x), add(init(x), x))];
    SelectSnoc(xs, x, key, r[j].key);
    if j < |gs| {
      assert r[j] == gs[j];
      assert gs[j].key != key(x);
    } else {
      assert key(x) !in EntryKeys(gs);
      assert key(x) !in Map(xs, key);
      SelectEmptyWhenAbsent(xs, key, key(x));
    }
  }

  /** Inserting into a grouping of `xs` yields the grouping of `xs + [x]`. */
  lemma InsertExtendsGrouping<X, K, A>(
    xs: seq<X>, x: X, key: X -> K, init: X -> A, add: (A, X) -> A, gs: seq<Entry<K, A>>)
    requires IsGrouping(xs, key, init, add, gs)
    ensures IsGrouping(xs + [x], key, init, add, Insert(gs, x, key, init, add))
  {
    if Find(gs, key(x)) < |gs| {
      InsertExisting(xs, x, key, init, add, gs);
    } else {
      InsertNew(xs, x, key, init, add, gs);
    }
  }

  /**
   * The incremental construction is the ordered grouping: one entry per
   * distinct key, in first-occurrence order, accumulating exactly the elements
   * of that key in input order.
   */
  lemma {:induction false} GroupAllIsGrouping<X, K, A>(
    xs: seq<X>, key: X -> K, init: X -> A, add: (A, X) -> A)
    ensures IsGrouping(xs, key, init, add, GroupAll(xs, key, init, add))
  {
    if |xs| == 0 {
    } else {
      var p := xs[..|xs| - 1];
      GroupAllIsGrouping(p, key, init, add);
      InsertExtendsGrouping(p, xs[|xs| - 1], key, init, add, GroupAll(p, key, init, add));
      assert p + [xs[|xs| - 1]] == xs;
    }
  }
  /** `Object.values` of the dictionary: the accumulators in entry order. */
  function Values<K, A>(gs: seq<Entry<K, A>>): (vs: seq<A>)
    ensures |vs| == |gs|
    ensures forall i :: 0 <= i < |gs| ==> vs[i] == gs[i].acc
  {
    if |gs| == 0 then [] else Values(gs[..|gs| - 1]) + [gs[|gs| - 1].acc]
  }

  /** A non-empty input yields at least one group. */
  lemma GroupAllNonEmpty<X, K, A>(xs: seq<X>, key: X -> K, init: X -> A, add: (A, X) -> A)
    requires |xs| > 0
    ensures |GroupAll(xs, key, init, add)| > 0
  {
  }

  /** Total size of all accumulators, for a size measure `size`. */
  function SumOf<K, A>(gs: seq<Entry<K, A>>, size: A -> nat): nat
  {
    if |gs| == 0 then 0 else SumOf(gs[..|gs| - 1], size) + size(gs[|gs| - 1].acc)
  }

  lemma {:induction false} SumOfUpdate<K, A>(gs: seq<Entry<K, A>>, i: nat, e: Entry<K, A>, size: A -> nat)
    requires i < |gs|
    ensures SumOf(gs[i := e], size) + size(gs[i].acc) == SumOf(gs, size) + size(e.acc)
  {
    var last := |gs| - 1;
    if i < last {
      assert gs[i := e][..last] == gs[..last][i := e];
      SumOfUpdate(gs[..last], i, e, size);
    } else {
      assert gs[i := e][..last] == gs[..last];
    }
  }

  lemma SumOfSnoc<K, A>(gs: seq<Entry<K, A>>, e: Entry<K, A>, size: A -> nat)
    ensures SumOf(gs + [e], size) == SumOf(gs, size) + size(e.acc)
  {
    assert (gs + [e])[..|gs|] == gs;
  }

  /** Each insertion adds one to the total when folding one element adds one to a size. */
  lemma InsertAddsOne<X, K, A(!new)>(gs: seq<Entry<K, A>>, x: X, key: X -> K, init: X -> A,
                               add: (A, X) -> A, size: A -> nat)
    requires size(init(x)) == 0
    requires forall a :: size(add(a, x)) == size(a) + 1
    ensures SumOf(Insert(gs, x, key, init, add), size) == SumOf(gs, size) + 1
  {
    var i := Find(gs, key(x));
    if i < |gs| {
      SumOfUpdate(gs, i, Entry(key(x), add(gs[i].acc, x)), size);
    } else {
      SumOfSnoc(gs, Entry(key(x), add(init(x), x)), size);
    }
  }

  /** Nothing is lost or duplicated: the sizes of all groups add up to the input length. */
  lemma {:induction false} GroupAllSize<X(!new), K, A(!new)>(xs: seq<X>, key: X -> K, init: X -> A,
                                                 add: (A, X) -> A, size: A -> nat)
    requires forall x :: size(init(x)) == 0
    requires forall a, x :: size(add(a, x)) == size(a) + 1
    ensures SumOf(GroupAll(xs, key, init, add), size) == |xs|
  {
    if |xs| > 0 {
      var p := xs[..|xs| - 1];
      GroupAllSize(p, key, init, add, size);
      InsertAddsOne(GroupAll(p, key, init, add), xs[|xs| - 1], key, init, add, size);
    }
  }
}
