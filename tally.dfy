/** A JavaScript object used as a dictionary from string keys, as the
    analytics code builds it (`map[k] = (map[k] || 0) + 1`,
    `if (!map[k]) map[k] = {...}`), and a store `$group` stage. Keys are kept
    in order of first insertion, which is the order `Object.entries` reports
    them in for non-numeric keys. */
module Tally {
  import opened Common
  import Seqs

  datatype Entry<V> = Entry(name: string, val: V)

  function Names<V>(es: seq<Entry<V>>): (r: seq<string>)
    ensures |r| == |es|
    ensures forall i :: 0 <= i < |es| ==> r[i] == es[i].name
  {
    if es == [] then [] else [es[0].name] + Names(es[1..])
  }

  /** `map[k]`: the value stored under `k`, `None` when `k` is absent. */
  function Find<V>(es: seq<Entry<V>>, k: string): (r: Option<V>)
    ensures r.None? <==> k !in Names(es)
  {
    if es == [] then None
    else if es[0].name == k then Some(es[0].val)
    else Find(es[1..], k)
  }

  /** With distinct keys, `Find` returns the entry stored under the key. */
  lemma {:induction false} FindAt<V>(es: seq<Entry<V>>, i: int)
    requires Seqs.Distinct(Names(es))
    requires 0 <= i < |es|
    ensures Find(es, es[i].name) == Some(es[i].val)
  {
    if i > 0 {
      assert Names(es[1..]) == Names(es)[1..];
      FindAt(es[1..], i - 1);
    }
  }

  /** `map[k] = add(map[k] ?? init, x)`: a new key goes at the end, an
      existing one keeps its place, and no other key's value changes. */
  function Upsert<T, V>(es: seq<Entry<V>>, k: string, init: V, add: (V, T) -> V, x: T): (r: seq<Entry<V>>)
    ensures Names(r) == if k in Names(es) then Names(es) else Names(es) + [k]
    ensures Find(r, k) == Some(add(Find(es, k).GetOr(init), x))
    ensures forall j :: j != k ==> Find(r, j) == Find(es, j)
  {
    if es == [] then [Entry(k, add(init, x))]
    else if es[0].name == k then [Entry(k, add(es[0].val, x))] + es[1..]
    else
      var rest := Upsert(es[1..], k, init, add, x);
      assert Names([es[0]] + rest) == [es[0].name] + Names(rest);
      [es[0]] + rest
  }

  /** The key of every element, in order: `xs.map(key)`. */
  function Keys<T>(xs: seq<T>, key: T -> string): (r: seq<string>)
    ensures |r| == |xs|
    ensures forall i :: 0 <= i < |xs| ==> r[i] == key(xs[i])
  {
    seq(|xs|, i requires 0 <= i < |xs| => key(xs[i]))
  }

  /** The value accumulated under key `k`: `add` folded, from `init`, over the
      elements whose key is `k`, in order. */
  function FoldKey<T, V>(xs: seq<T>, key: T -> string, k: string, init: V, add: (V, T) -> V): V {
    if xs == [] then init
    else
      var p := FoldKey(xs[..|xs| - 1], key, k, init, add);
      var x := xs[|xs| - 1];
      if key(x) == k then add(p, x) else p
  }

  /** One pass over `xs` accumulating per key: each element updates the value
      of its key with `add`, a key seen for the first time starting at
      `init`. */
  function GroupBy<T, V>(xs: seq<T>, key: T -> string, init: V, add: (V, T) -> V): (r: seq<Entry<V>>)
    ensures Names(r) == Seqs.Dedup(Keys(xs, key))
  {
    if xs == [] then []
    else
      var xs' := xs[..|xs| - 1];
      var x := xs[|xs| - 1];
      assert Keys(xs, key) == Keys(xs', key) + [key(x)];
      var g := GroupBy(xs', key, init, add);
      Upsert(g, key(x), init, add, x)
  }

  /** The value under each key is the fold of `add` over that key's
      elements; a key no element carries is absent. */
  lemma {:induction false} GroupByFind<T, V>(xs: seq<T>, key: T -> string, init: V, add: (V, T) -> V, k: string)
    ensures Find(GroupBy(xs, key, init, add), k)
         == if k in Keys(xs, key) then Some(FoldKey(xs, key, k, init, add)) else None
  {
    if xs != [] {
      var xs' := xs[..|xs| - 1];
      var x := xs[|xs| - 1];
      assert Keys(xs, key) == Keys(xs', key) + [key(x)];
      GroupByFind(xs', key, init, add, k);
      if k !in Keys(xs', key) {
        FoldKeyAbsent(xs', key, init, add, k);
      }
    }
  }

  lemma {:induction false} FoldKeyAbsent<T, V>(xs: seq<T>, key: T -> string, init: V, add: (V, T) -> V, k: string)
    requires k !in Keys(xs, key)
    ensures FoldKey(xs, key, k, init, add) == init
  {
    if xs != [] {
      var xs' := xs[..|xs| - 1];
      assert Keys(xs, key) == Keys(xs', key) + [key(xs[|xs| - 1])];
      FoldKeyAbsent(xs', key, init, add, k);
    }
  }

  /** Keys stay distinct: a dictionary never holds a key twice. */
  lemma GroupByDistinct<T, V>(xs: seq<T>, key: T -> string, init: V, add: (V, T) -> V)
    ensures Seqs.Distinct(Names(GroupBy(xs, key, init, add)))
  {
  }

  /** The entry at position `i` holds its key's fold. */
  lemma GroupByAt<T, V>(xs: seq<T>, key: T -> string, init: V, add: (V, T) -> V, i: int)
    requires 0 <= i < |GroupBy(xs, key, init, add)|
    ensures var e := GroupBy(xs, key, init, add)[i];
            e.name in Keys(xs, key) && e.val == FoldKey(xs, key, e.name, init, add)
  {
    var g := GroupBy(xs, key, init, add);
    FindAt(g, i);
    GroupByFind(xs, key, init, add, g[i].name);
  }

  /** Reordering records whose keys are distinct keeps the keys distinct. */
  lemma DistinctKeysPermutation<T>(a: seq<T>, b: seq<T>, key: T -> string)
    requires multiset(a) == multiset(b)
    requires Seqs.Distinct(Keys(a, key))
    ensures Seqs.Distinct(Keys(b, key))
  {
    Seqs.DistinctPermutation(a, b);
    forall i, j | 0 <= i < j < |b| ensures key(b[i]) != key(b[j]) {
      assert b[i] in multiset(a) && b[j] in multiset(a);
      var p :| 0 <= p < |a| && a[p] == b[i];
      var q :| 0 <= q < |a| && a[q] == b[j];
      if p < q {
        assert Keys(a, key)[p] != Keys(a, key)[q];
      } else if q < p {
        assert Keys(a, key)[q] != Keys(a, key)[p];
      }
    }
  }

  function NameOf<V>(e: Entry<V>): string {
    e.name
  }

  lemma NamesAreKeys<V>(es: seq<Entry<V>>)
    ensures Names(es) == Keys(es, NameOf)
  {
  }

  // ---------------------------------------------------------------------------
  // Sums over the values

  /** `Object.values(map).reduce((a, v) => a + m(v), 0)`. */
  function SumVals<V>(es: seq<Entry<V>>, m: V -> int): int {
    if es == [] then 0 else m(es[0].val) + SumVals(es[1..], m)
  }

  lemma {:induction false} SumValsConcat<V>(a: seq<Entry<V>>, b: seq<Entry<V>>, m: V -> int)
    ensures SumVals(a + b, m) == SumVals(a, m) + SumVals(b, m)
  {
    if a == [] {
      assert a + b == b;
    } else {
      assert (a + b)[1..] == a[1..] + b;
      SumValsConcat(a[1..], b, m);
    }
  }

  /** Taking out the entry at `i` takes its measure out of the sum. */
  lemma SumValsRemove<V>(b: seq<Entry<V>>, i: int, m: V -> int)
    requires 0 <= i < |b|
    ensures SumVals(b, m) == SumVals(b[..i] + b[i + 1..], m) + m(b[i].val)
  {
    assert b == b[..i] + ([b[i]] + b[i + 1..]);
    SumValsConcat(b[..i], [b[i]] + b[i + 1..], m);
    SumValsConcat(b[..i], b[i + 1..], m);
    assert ([b[i]] + b[i + 1..])[1..] == b[i + 1..];
  }

  /** Reordering the entries (a sort) keeps every sum. */
  lemma {:induction false} SumValsPermutation<V>(a: seq<Entry<V>>, b: seq<Entry<V>>, m: V -> int)
    requires multiset(a) == multiset(b)
    ensures SumVals(a, m) == SumVals(b, m)
  {
    if a != [] {
      assert a[0] in multiset(b);
      var i :| 0 <= i < |b| && b[i] == a[0];
      Seqs.MultisetRemove(a, b, i);
      SumValsPermutation(a[1..], b[..i] + b[i + 1..], m);
      SumValsRemove(b, i, m);
    }
  }

  /** Updating one value by a step of `d` moves the sum by `d`. */
  lemma {:induction false} UpsertSum<T, V>(es: seq<Entry<V>>, k: string, init: V, add: (V, T) -> V, x: T, m: V -> int, d: int)
    requires m(init) == 0
    requires forall v :: m(add(v, x)) == m(v) + d
    ensures SumVals(Upsert(es, k, init, add, x), m) == SumVals(es, m) + d
  {
    if es != [] && es[0].name != k {
      UpsertSum(es[1..], k, init, add, x, m, d);
      var rest := Upsert(es[1..], k, init, add, x);
      assert ([es[0]] + rest)[1..] == rest;
    } else if es != [] {
      assert ([Entry(k, add(es[0].val, x))] + es[1..])[1..] == es[1..];
    }
  }

  /** When `add` moves a measure `m` of the value by `w(x)`, the measures of
      all groups add up to the weights of all elements. */
  lemma {:induction false} GroupBySum<T, V>(xs: seq<T>, key: T -> string, init: V, add: (V, T) -> V, m: V -> int, w: T -> int)
    requires m(init) == 0
    requires forall v, x :: m(add(v, x)) == m(v) + w(x)
    ensures SumVals(GroupBy(xs, key, init, add), m) == Seqs.SumBy(xs, w)
  {
    if xs != [] {
      var xs' := xs[..|xs| - 1];
      var x := xs[|xs| - 1];
      GroupBySum(xs', key, init, add, m, w);
      UpsertSum(GroupBy(xs', key, init, add), key(x), init, add, x, m, w(x));
      Seqs.SumBySnoc(xs, w);
    }
  }

  // ---------------------------------------------------------------------------
  // Counting: `map[k] = (map[k] || 0) + 1`

  /** `(map[k] || 0) + 1`. */
  function Inc<T>(v: nat, x: T): nat {
    v + 1
  }

  function Count(v: nat): int {
    v
  }

  /** How many elements carry key `k`. */
  function Occurrences<T>(xs: seq<T>, key: T -> string, k: string): (n: nat)
    ensures n <= |xs|
    ensures n > 0 <==> k in Keys(xs, key)
  {
    if xs == [] then 0
    else
      var xs' := xs[..|xs| - 1];
      assert Keys(xs, key) == Keys(xs', key) + [key(xs[|xs| - 1])];
      Occurrences(xs', key, k) + (if key(xs[|xs| - 1]) == k then 1 else 0)
  }

  /** `xs.forEach(x => map[key(x)] = (map[key(x)] || 0) + 1)`. */
  function CountBy<T>(xs: seq<T>, key: T -> string): seq<Entry<nat>> {
    GroupBy(xs, key, 0, Inc)
  }

  /** The counter under `k` is the number of elements with key `k`. */
  lemma {:induction false} CountByFind<T>(xs: seq<T>, key: T -> string, k: string)
    ensures Find(CountBy(xs, key), k) == if k in Keys(xs, key) then Some(Occurrences(xs, key, k)) else None
  {
    GroupByFind(xs, key, 0, Inc, k);
    CountFold(xs, key, k);
  }

  lemma {:induction false} CountFold<T>(xs: seq<T>, key: T -> string, k: string)
    ensures FoldKey(xs, key, k, 0, Inc) == Occurrences(xs, key, k)
  {
    if xs != [] {
      CountFold(xs[..|xs| - 1], key, k);
    }
  }

  /** The counters add up to the number of elements counted. */
  lemma CountByTotal<T>(xs: seq<T>, key: T -> string)
    ensures SumVals(CountBy(xs, key), Count) == |xs|
  {
    GroupBySum(xs, key, 0, Inc, Count, Seqs.One);
    Seqs.SumByOne(xs);
  }

  /** Counting nothing gives the empty dictionary, and only then. */
  lemma CountByEmpty<T>(xs: seq<T>, key: T -> string)
    ensures CountBy(xs, key) == [] <==> xs == []
  {
    if xs != [] {
      assert key(xs[0]) in Keys(xs, key);
      CountByFind(xs, key, key(xs[0]));
    }
  }

  /** The counting loop: `const m = {}; xs.forEach(x => { m[key(x)] =
      (m[key(x)] || 0) + 1; })`. */
  method CountEach<T>(xs: seq<T>, key: T -> string) returns (m: seq<Entry<nat>>)
    ensures m == CountBy(xs, key)
  {
    m := [];
    for i := 0 to |xs|
      invariant m == CountBy(xs[..i], key)
    {
      CountByStep(xs, key, i);
      m := Upsert(m, key(xs[i]), 0, Inc, xs[i]);
    }
    assert xs[..|xs|] == xs;
  }

  /** Grouping one more element updates its key's accumulator. */
  lemma GroupByAppend<T, V>(xs: seq<T>, x: T, key: T -> string, init: V, add: (V, T) -> V)
    ensures GroupBy(xs + [x], key, init, add) == Upsert(GroupBy(xs, key, init, add), key(x), init, add, x)
  {
    var p := xs + [x];
    assert p[..|p| - 1] == xs && p[|p| - 1] == x;
  }

  /** Counting one more element updates its key's counter. */
  lemma CountByStep<T>(xs: seq<T>, key: T -> string, i: nat)
    requires i < |xs|
    ensures CountBy(xs[..i + 1], key) == Upsert(CountBy(xs[..i], key), key(xs[i]), 0, Inc, xs[i])
  {
    var p := xs[..i + 1];
    assert p[..|p| - 1] == xs[..i] && p[|p| - 1] == xs[i];
  }
}
