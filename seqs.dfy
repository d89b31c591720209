/** Sequence operations behind the source's `filter`, `Array.prototype.sort`
    (stable since ES2019), `[...new Set(xs)]` and the default string sort. */
module Seqs {

  /** `s.filter(p)`. */
  function Filter<T(!new)>(s: seq<T>, p: T -> bool): (r: seq<T>)
    ensures |r| <= |s|
    ensures forall x :: x in r <==> x in s && p(x)
  {
    if s == [] then []
    else (if p(s[0]) then [s[0]] else []) + Filter(s[1..], p)
  }

  lemma {:induction false} FilterConcat<T(!new)>(a: seq<T>, b: seq<T>, p: T -> bool)
    ensures Filter(a + b, p) == Filter(a, p) + Filter(b, p)
  {
    if a == [] {
      assert a + b == b;
    } else {
      assert (a + b)[1..] == a[1..] + b;
      FilterConcat(a[1..], b, p);
    }
  }

  /** Filtering keeps everything when everything qualifies. */
  lemma {:induction false} FilterKeepsAll<T(!new)>(s: seq<T>, p: T -> bool)
    requires forall i :: 0 <= i < |s| ==> p(s[i])
    ensures Filter(s, p) == s
  {
    if s != [] {
      FilterKeepsAll(s[1..], p);
    }
  }

  /** Filtering by a conjunction is filtering twice. */
  lemma {:induction false} FilterConj<T(!new)>(s: seq<T>, p: T -> bool, q: T -> bool, pq: T -> bool)
    requires forall x :: pq(x) == (p(x) && q(x))
    ensures Filter(s, pq) == Filter(Filter(s, p), q)
  {
    if s != [] {
      FilterConj(s[1..], p, q, pq);
      FilterConcat(if p(s[0]) then [s[0]] else [], Filter(s[1..], p), q);
    }
  }

  /** How many elements of `s` satisfy `p`, counted without building the
      filtered sequence. */
  function KeptCount<T>(s: seq<T>, p: T -> bool): nat {
    if s == [] then 0 else (if p(s[0]) then 1 else 0) + KeptCount(s[1..], p)
  }

  lemma {:induction false} KeptCountLength<T(!new)>(s: seq<T>, p: T -> bool)
    ensures KeptCount(s, p) == |Filter(s, p)|
  {
    if s != [] {
      KeptCountLength(s[1..], p);
    }
  }

  /** Where the `i`-th kept element sits in the input. */
  function FilterPos<T>(s: seq<T>, p: T -> bool, i: nat): (k: nat)
    requires i < KeptCount(s, p)
    ensures k < |s| && p(s[k])
  {
    if p(s[0]) then
      if i == 0 then 0 else 1 + FilterPos(s[1..], p, i - 1)
    else 1 + FilterPos(s[1..], p, i)
  }

  /** The `i`-th kept element is the one at `FilterPos`. */
  lemma {:induction false} FilterPosAt<T(!new)>(s: seq<T>, p: T -> bool, i: nat)
    requires i < KeptCount(s, p)
    ensures i < |Filter(s, p)| && s[FilterPos(s, p, i)] == Filter(s, p)[i]
  {
    KeptCountLength(s, p);
    var rest := Filter(s[1..], p);
    if p(s[0]) {
      assert Filter(s, p) == [s[0]] + rest;
      if i > 0 {
        FilterPosAt(s[1..], p, i - 1);
      }
    } else {
      assert Filter(s, p) == rest;
      FilterPosAt(s[1..], p, i);
    }
  }

  /** Filtering keeps the order of what it keeps. */
  lemma {:induction false} FilterPosMonotone<T>(s: seq<T>, p: T -> bool, i: nat, j: nat)
    requires i < j < KeptCount(s, p)
    ensures FilterPos(s, p, i) < FilterPos(s, p, j)
  {
    if p(s[0]) {
      if i > 0 {
        FilterPosMonotone(s[1..], p, i - 1, j - 1);
      }
    } else {
      FilterPosMonotone(s[1..], p, i, j);
    }
  }

  /** Number of elements satisfying `p`: `s.filter(p).length`. */
  function Count<T(!new)>(s: seq<T>, p: T -> bool): (n: nat)
    ensures n <= |s|
  {
    |Filter(s, p)|
  }

  lemma CountAppend<T(!new)>(s: seq<T>, x: T, p: T -> bool)
    ensures Count(s + [x], p) == Count(s, p) + (if p(x) then 1 else 0)
  {
    FilterConcat(s, [x], p);
  }

  /** `CountAppend` read from the end of a non-empty sequence. */
  lemma CountLast<T(!new)>(s: seq<T>, p: T -> bool)
    requires s != []
    ensures Count(s, p) == Count(s[..|s| - 1], p) + (if p(s[|s| - 1]) then 1 else 0)
  {
    assert s == s[..|s| - 1] + [s[|s| - 1]];
    CountAppend(s[..|s| - 1], s[|s| - 1], p);
  }

  /** `s.reduce((a, x) => a + w(x), 0)`. */
  function SumBy<T>(s: seq<T>, w: T -> int): int {
    if s == [] then 0 else w(s[0]) + SumBy(s[1..], w)
  }

  lemma {:induction false} SumByConcat<T>(a: seq<T>, b: seq<T>, w: T -> int)
    ensures SumBy(a + b, w) == SumBy(a, w) + SumBy(b, w)
  {
    if a == [] {
      assert a + b == b;
    } else {
      assert (a + b)[1..] == a[1..] + b;
      SumByConcat(a[1..], b, w);
    }
  }

  lemma SumBySnoc<T>(s: seq<T>, w: T -> int)
    requires s != []
    ensures SumBy(s, w) == SumBy(s[..|s| - 1], w) + w(s[|s| - 1])
  {
    assert s == s[..|s| - 1] + [s[|s| - 1]];
    SumByConcat(s[..|s| - 1], [s[|s| - 1]], w);
  }

  /** Removing from two equal multisets an element they share. */
  lemma MultisetRemove<T>(a: seq<T>, b: seq<T>, i: int)
    requires multiset(a) == multiset(b) && a != []
    requires 0 <= i < |b| && b[i] == a[0]
    ensures multiset(b[..i] + b[i + 1..]) == multiset(a[1..])
  {
    assert b == b[..i] + [b[i]] + b[i + 1..];
    assert a == [a[0]] + a[1..];
    calc {
      multiset(b[..i] + b[i + 1..]);
      multiset(b[..i]) + multiset(b[i + 1..]);
      multiset(b) - multiset{b[i]};
      multiset(a) - multiset{a[0]};
      multiset(a[1..]);
    }
  }

  function One<T>(x: T): int {
    1
  }

  lemma {:induction false} SumByOne<T>(s: seq<T>)
    ensures SumBy(s, One) == |s|
  {
    if s != [] {
      SumByOne(s[1..]);
    }
  }

  ghost predicate Distinct<T>(s: seq<T>) {
    forall i, j :: 0 <= i < j < |s| ==> s[i] != s[j]
  }

  lemma {:induction false} DistinctMultiplicity<T>(s: seq<T>, x: T)
    requires Distinct(s)
    ensures multiset(s)[x] <= 1
  {
    if s != [] {
      assert s == [s[0]] + s[1..];
      DistinctMultiplicity(s[1..], x);
      if s[0] == x {
        assert x !in s[1..];
      }
    }
  }

  lemma RepeatMultiplicity<T>(s: seq<T>, i: int, j: int)
    requires 0 <= i < j < |s| && s[i] == s[j]
    ensures multiset(s)[s[i]] >= 2
  {
    assert s == s[..j] + [s[j]] + s[j + 1..];
    assert s[i] in s[..j];
  }

  /** A permutation of a sequence without repetitions has none either. */
  lemma DistinctPermutation<T>(a: seq<T>, b: seq<T>)
    requires multiset(a) == multiset(b) && Distinct(a)
    ensures Distinct(b)
  {
    forall i, j | 0 <= i < j < |b| ensures b[i] != b[j] {
      if b[i] == b[j] {
        RepeatMultiplicity(b, i, j);
        DistinctMultiplicity(a, b[i]);
      }
    }
  }

  // ---------------------------------------------------------------------------
  // Stable sort by an integer key

  predicate SortedBy<T>(s: seq<T>, key: T -> int) {
    forall i, j :: 0 <= i < j < |s| ==> key(s[i]) <= key(s[j])
  }

  /** The elements of `s` whose key is `k`, in their order in `s`. */
  function KeyRun<T>(s: seq<T>, key: T -> int, k: int): seq<T> {
    if s == [] then []
    else (if key(s[0]) == k then [s[0]] else []) + KeyRun(s[1..], key, k)
  }

  /** Inserts `x` before the first element whose key is not smaller. */
  function InsertByKey<T>(x: T, r: seq<T>, key: T -> int): (o: seq<T>)
    ensures multiset(o) == multiset(r) + multiset{x}
    ensures |o| == |r| + 1
  {
    if r == [] || key(x) <= key(r[0]) then [x] + r
    else
      assert r == [r[0]] + r[1..];
      [r[0]] + InsertByKey(x, r[1..], key)
  }

  lemma {:induction false} InsertByKeySorted<T>(x: T, r: seq<T>, key: T -> int)
    requires SortedBy(r, key)
    ensures SortedBy(InsertByKey(x, r, key), key)
  {
    if r != [] && key(x) > key(r[0]) {
      var rest := InsertByKey(x, r[1..], key);
      InsertByKeySorted(x, r[1..], key);
      forall j | 0 <= j < |rest| ensures key(r[0]) <= key(rest[j]) {
        assert rest[j] in multiset(rest);
        if rest[j] != x {
          assert rest[j] in multiset(r[1..]);
          assert rest[j] in r[1..];
        }
      }
      var o := [r[0]] + rest;
      assert forall j :: 1 <= j < |o| ==> o[j] == rest[j - 1];
    }
  }

  /** Inserting `x` adds it at the front of its key's run and leaves the
      other runs alone. */
  lemma {:induction false} InsertByKeyRun<T>(x: T, r: seq<T>, key: T -> int, k: int)
    ensures KeyRun(InsertByKey(x, r, key), key, k)
         == (if key(x) == k then [x] else []) + KeyRun(r, key, k)
  {
    if r == [] || key(x) <= key(r[0]) {
      assert ([x] + r)[1..] == r;
    } else {
      var t := InsertByKey(x, r[1..], key);
      InsertByKeyRun(x, r[1..], key, k);
      var o := [r[0]] + t;
      assert InsertByKey(x, r, key) == o;
      assert o[0] == r[0] && o[1..] == t;
      var head := if key(r[0]) == k then [r[0]] else [];
      var mine := if key(x) == k then [x] else [];
      assert KeyRun(o, key, k) == head + (mine + KeyRun(r[1..], key, k));
      assert head == [] || mine == [];
      assert head + (mine + KeyRun(r[1..], key, k)) == mine + (head + KeyRun(r[1..], key, k));
    }
  }

  /** `s.sort((a, b) => key(a) - key(b))` with a stable sort. */
  function SortByKey<T>(s: seq<T>, key: T -> int): (r: seq<T>)
    ensures SortedBy(r, key)
    ensures multiset(r) == multiset(s)
    ensures |r| == |s|
  {
    if s == [] then []
    else
      assert s == [s[0]] + s[1..];
      InsertByKeySorted(s[0], SortByKey(s[1..], key), key);
      InsertByKey(s[0], SortByKey(s[1..], key), key)
  }

  /** Stability: among elements with equal keys the input order survives. */
  lemma {:induction false} SortByKeyStable<T>(s: seq<T>, key: T -> int, k: int)
    ensures KeyRun(SortByKey(s, key), key, k) == KeyRun(s, key, k)
  {
    if s != [] {
      SortByKeyStable(s[1..], key, k);
      InsertByKeyRun(s[0], SortByKey(s[1..], key), key, k);
    }
  }

  lemma {:induction false} KeyRunConcat<T>(a: seq<T>, b: seq<T>, key: T -> int, k: int)
    ensures KeyRun(a + b, key, k) == KeyRun(a, key, k) + KeyRun(b, key, k)
  {
    if a == [] {
      assert a + b == b;
    } else {
      var ab := a + b;
      assert ab[0] == a[0] && ab[1..] == a[1..] + b;
      KeyRunConcat(a[1..], b, key, k);
      var h := if key(a[0]) == k then [a[0]] else [];
      assert KeyRun(ab, key, k) == h + KeyRun(a[1..] + b, key, k);
      assert KeyRun(a, key, k) == h + KeyRun(a[1..], key, k);
    }
  }

  // ---------------------------------------------------------------------------
  // Strings in the default sort order, taken here character by character

  /** `a <= b` in lexicographic character order. */
  predicate StrLe(a: string, b: string) {
    if a == [] then true
    else if b == [] then false
    else if a[0] != b[0] then a[0] < b[0]
    else StrLe(a[1..], b[1..])
  }

  lemma StrLeTotal(a: string, b: string)
    ensures StrLe(a, b) || StrLe(b, a)
  {
  }

  lemma StrLeAntisymmetric(a: string, b: string)
    requires StrLe(a, b) && StrLe(b, a)
    ensures a == b
  {
    if a != [] && b != [] {
      StrLeAntisymmetric(a[1..], b[1..]);
      assert a == [a[0]] + a[1..] && b == [b[0]] + b[1..];
    }
  }

  lemma StrLeTransitive(a: string, b: string, c: string)
    requires StrLe(a, b) && StrLe(b, c)
    ensures StrLe(a, c)
  {
    if a != [] && b != [] && c != [] && a[0] == b[0] == c[0] {
      StrLeTransitive(a[1..], b[1..], c[1..]);
    }
  }

  predicate SortedStrings(s: seq<string>) {
    forall i, j :: 0 <= i < j < |s| ==> StrLe(s[i], s[j])
  }

  function InsertString(x: string, r: seq<string>): (o: seq<string>)
    requires SortedStrings(r)
    ensures SortedStrings(o)
    ensures |o| == |r| + 1
    ensures forall y :: y in o <==> y == x || y in r
    ensures x !in r && Distinct(r) ==> Distinct(o)
  {
    if r == [] || StrLe(x, r[0]) then
      assert forall j :: 0 <= j < |r| ==> StrLe(x, r[j]) by {
        forall j | 0 <= j < |r| ensures StrLe(x, r[j]) {
          if j > 0 { StrLeTransitive(x, r[0], r[j]); }
        }
      }
      ConsSorted(x, r);
      [x] + r
    else
      StrLeTotal(x, r[0]);
      assert r == [r[0]] + r[1..];
      var rest := InsertString(x, r[1..]);
      forall j | 0 <= j < |rest| ensures StrLe(r[0], rest[j]) {
        assert rest[j] in rest;
        if rest[j] != x {
          var m :| 0 <= m < |r[1..]| && r[1..][m] == rest[j];
          assert r[m + 1] == rest[j];
        }
      }
      ConsSorted(r[0], rest);
      assert x !in r && Distinct(r) ==> r[0] !in rest by {
        if x !in r && Distinct(r) {
          assert r[0] !in r[1..];
        }
      }
      [r[0]] + rest
  }

  /** A string no greater than every element of a sorted list can head it;
      a string absent from a list without repetitions can head it. */
  lemma ConsSorted(h: string, rest: seq<string>)
    requires SortedStrings(rest) && forall j :: 0 <= j < |rest| ==> StrLe(h, rest[j])
    ensures SortedStrings([h] + rest)
    ensures h !in rest && Distinct(rest) ==> Distinct([h] + rest)
  {
    var o := [h] + rest;
    assert forall j :: 1 <= j < |o| ==> o[j] == rest[j - 1];
  }

  /** `[...s].sort()` on strings. */
  function SortStrings(s: seq<string>): (r: seq<string>)
    ensures SortedStrings(r)
    ensures |r| == |s|
    ensures forall y :: y in r <==> y in s
    ensures Distinct(s) ==> Distinct(r)
  {
    if s == [] then []
    else
      assert forall y :: y in s[1..] ==> y in s;
      assert s == [s[0]] + s[1..];
      InsertString(s[0], SortStrings(s[1..]))
  }

  /** Sorted distinct strings are strictly increasing. */
  lemma SortedDistinctStrictly(s: seq<string>, i: int, j: int)
    requires SortedStrings(s) && Distinct(s)
    requires 0 <= i < j < |s|
    ensures StrLe(s[i], s[j]) && !StrLe(s[j], s[i])
  {
    if StrLe(s[j], s[i]) {
      StrLeAntisymmetric(s[i], s[j]);
    }
  }

  // ---------------------------------------------------------------------------
  // [...new Set(s)]

  /** The distinct elements of `s` in order of first appearance. */
  function Dedup<T(!new,==)>(s: seq<T>): (r: seq<T>)
    ensures Distinct(r)
    ensures forall x :: x in r <==> x in s
    ensures |r| <= |s|
  {
    if s == [] then []
    else
      var d := Dedup(s[..|s| - 1]);
      var x := s[|s| - 1];
      assert forall y :: y in s <==> y in s[..|s| - 1] || y == x by {
        assert s == s[..|s| - 1] + [x];
      }
      if x in d then d else d + [x]
  }

  /** Where `x` first occurs in `s`: `s.indexOf(x)`. */
  function FirstIndex<T(==)>(s: seq<T>, x: T): (i: nat)
    requires x in s
    ensures i < |s| && s[i] == x
    ensures forall j :: 0 <= j < i ==> s[j] != x
  {
    if s[0] == x then 0 else 1 + FirstIndex(s[1..], x)
  }

  /** Appending leaves the first occurrence of an element already present
      where it was, and puts a new element's first occurrence at the end. */
  lemma FirstIndexAppend<T>(p: seq<T>, x: T, y: T)
    requires y in p + [x]
    ensures y in p ==> FirstIndex(p + [x], y) == FirstIndex(p, y)
    ensures y !in p ==> FirstIndex(p + [x], y) == |p|
  {
    var s := p + [x];
    assert forall j :: 0 <= j < |p| ==> s[j] == p[j];
    if y in p {
      var b := FirstIndex(p, y);
      assert s[b] == y;
    }
  }

  /** `[...new Set(s)]` lists the elements in the order of their first
      occurrence in `s`. */
  lemma {:induction false} DedupFirstAppearance<T(!new)>(s: seq<T>)
    ensures forall i, j :: 0 <= i < j < |Dedup(s)| ==> FirstIndex(s, Dedup(s)[i]) < FirstIndex(s, Dedup(s)[j])
  {
    if s != [] {
      var p, x := s[..|s| - 1], s[|s| - 1];
      DedupFirstAppearance(p);
      assert s == p + [x];
      var d, r := Dedup(p), Dedup(s);
      forall i, j | 0 <= i < j < |r| ensures FirstIndex(s, r[i]) < FirstIndex(s, r[j]) {
        assert r[i] in d;
        FirstIndexAppend(p, x, r[i]);
        FirstIndexAppend(p, x, r[j]);
        if j < |d| {
          assert r[j] in d;
        }
      }
    }
  }
}
