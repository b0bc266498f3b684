/**
 * The relational operators the pipeline's SQL statements are built from,
 * over tables represented as sequences of rows: WHERE (Filter), SELECT
 * (Project), SUM, DISTINCT, GROUP BY, ORDER BY (SortBy) and the
 * `QUALIFY ROW_NUMBER() OVER (PARTITION BY k ORDER BY r DESC) = 1`
 * survivorship rule (LatestPerKey).
 */
module Relational {
  import opened Wrappers

  /** One output row of a GROUP BY: the group key and its aggregate. */
  datatype Row<K, V> = Row(key: K, value: V)

  function RowKey<K, V>(r: Row<K, V>): K { r.key }

  function RowValue<K>(r: Row<K, real>): real { r.value }

  predicate NoDup<T(==)>(s: seq<T>) {
    forall i, j :: 0 <= i < j < |s| ==> s[i] != s[j]
  }

  // ---------------------------------------------------------------- WHERE

  /** The rows of `s` that satisfy `p`, in their original order. */
  function Filter<T(==,!new)>(p: T -> bool, s: seq<T>): (r: seq<T>)
    ensures |r| <= |s|
    ensures forall x :: x in r <==> x in s && p(x)
    ensures multiset(r) <= multiset(s)
  {
    if s == [] then []
    else
      assert s == [s[0]] + s[1..];
      if p(s[0]) then [s[0]] + Filter(p, s[1..]) else Filter(p, s[1..])
  }

  lemma {:induction false} FilterConcat<T(!new)>(p: T -> bool, a: seq<T>, b: seq<T>)
    ensures Filter(p, a + b) == Filter(p, a) + Filter(p, b)
  {
    if a == [] {
      assert a + b == b;
    } else {
      assert (a + b)[0] == a[0];
      assert (a + b)[1..] == a[1..] + b;
      FilterConcat(p, a[1..], b);
    }
  }

  /** A filter every row passes keeps the table as it is. */
  lemma {:induction false} FilterAll<T(!new)>(p: T -> bool, s: seq<T>)
    requires forall i :: 0 <= i < |s| ==> p(s[i])
    ensures Filter(p, s) == s
  {
    if s != [] {
      assert p(s[0]);
      FilterAll(p, s[1..]);
    }
  }

  /** A filter no row passes keeps nothing. */
  lemma {:induction false} FilterNone<T(!new)>(p: T -> bool, s: seq<T>)
    requires forall i :: 0 <= i < |s| ==> !p(s[i])
    ensures Filter(p, s) == []
  {
    if s != [] {
      assert !p(s[0]);
      FilterNone(p, s[1..]);
    }
  }

  /** Filtering twice with the same predicate is filtering once. */
  lemma {:induction false} FilterIdempotent<T(!new)>(p: T -> bool, s: seq<T>)
    ensures Filter(p, Filter(p, s)) == Filter(p, s)
  {
    if s != [] {
      FilterIdempotent(p, s[1..]);
    }
  }

  /**
   * Two complementary WHERE clauses split a table: every row lands in
   * exactly one of the two results.
   */
  lemma FilterPartition<T(!new)>(p: T -> bool, q: T -> bool, s: seq<T>)
    requires forall x :: q(x) == !p(x)
    ensures multiset(Filter(p, s)) + multiset(Filter(q, s)) == multiset(s)
    ensures |Filter(p, s)| + |Filter(q, s)| == |s|
  {
    FilterSplit(p, q, s);
    assert |multiset(Filter(p, s)) + multiset(Filter(q, s))| == |multiset(s)|;
  }

  lemma {:induction false} FilterSplit<T(!new)>(p: T -> bool, q: T -> bool, s: seq<T>)
    requires forall x :: q(x) == !p(x)
    ensures multiset(Filter(p, s)) + multiset(Filter(q, s)) == multiset(s)
  {
    if s != [] {
      var x, t := s[0], s[1..];
      FilterSplit(p, q, t);
      assert s == [x] + t;
      if p(x) {
        assert Filter(p, s) == [x] + Filter(p, t);
        assert Filter(q, s) == Filter(q, t);
      } else {
        assert Filter(q, s) == [x] + Filter(q, t);
        assert Filter(p, s) == Filter(p, t);
      }
    }
  }

  // --------------------------------------------------------------- SELECT

  /** `SELECT f(row)` over every row, keeping the order. */
  function Project<T, U>(f: T -> U, s: seq<T>): (r: seq<U>)
    ensures |r| == |s|
    ensures forall i :: 0 <= i < |s| ==> r[i] == f(s[i])
  {
    if s == [] then [] else [f(s[0])] + Project(f, s[1..])
  }

  /** A projection of two tables one after the other is their projections one after the other. */
  lemma ProjectConcat<T, U>(f: T -> U, a: seq<T>, b: seq<T>)
    ensures Project(f, a + b) == Project(f, a) + Project(f, b)
  {
    var l, r := Project(f, a + b), Project(f, a) + Project(f, b);
    assert |l| == |r|;
    forall i | 0 <= i < |l| ensures l[i] == r[i] {
      if i < |a| { assert (a + b)[i] == a[i]; } else { assert (a + b)[i] == b[i - |a|]; }
    }
  }

  lemma ProjectMember<T, U>(f: T -> U, s: seq<T>, y: U)
    requires y in Project(f, s)
    ensures exists x :: x in s && f(x) == y
  {
    var i :| 0 <= i < |s| && Project(f, s)[i] == y;
    assert s[i] in s;
  }

  lemma ProjectOf<T, U>(f: T -> U, s: seq<T>, x: T)
    requires x in s
    ensures f(x) in Project(f, s)
  {
    var i :| 0 <= i < |s| && s[i] == x;
    assert Project(f, s)[i] == f(x);
  }

  // ------------------------------------------------------------------ SUM

  /** `SUM(f(row))` over a table; the empty sum is 0 here (a grouped SUM never sees an empty group). */
  function Sum<T>(f: T -> real, s: seq<T>): real {
    if s == [] then 0.0 else f(s[0]) + Sum(f, s[1..])
  }

  lemma {:induction false} SumConcat<T>(f: T -> real, a: seq<T>, b: seq<T>)
    ensures Sum(f, a + b) == Sum(f, a) + Sum(f, b)
  {
    if a == [] {
      assert a + b == b;
    } else {
      assert (a + b)[0] == a[0];
      assert (a + b)[1..] == a[1..] + b;
      SumConcat(f, a[1..], b);
    }
  }

  /** A sum does not depend on the order of the rows. */
  lemma {:induction false} SumPermutation<T(!new)>(f: T -> real, a: seq<T>, b: seq<T>)
    requires multiset(a) == multiset(b)
    ensures Sum(f, a) == Sum(f, b)
  {
    if a != [] {
      assert a[0] in multiset(b);
      var i :| 0 <= i < |b| && b[i] == a[0];
      var rest := b[..i] + b[i + 1..];
      MultisetRemove(b, i);
      assert a == [a[0]] + a[1..];
      assert multiset(a[1..]) == multiset(a) - multiset{a[0]};
      SumPermutation(f, a[1..], rest);
      SumRemove(f, b, i);
    }
  }

  lemma MultisetRemove<T>(b: seq<T>, i: int)
    requires 0 <= i < |b|
    ensures multiset(b[..i] + b[i + 1..]) == multiset(b) - multiset{b[i]}
  {
    assert b == b[..i] + [b[i]] + b[i + 1..];
    assert multiset(b) == multiset(b[..i]) + multiset{b[i]} + multiset(b[i + 1..]);
  }

  lemma SumRemove<T>(f: T -> real, b: seq<T>, i: int)
    requires 0 <= i < |b|
    ensures Sum(f, b) == f(b[i]) + Sum(f, b[..i] + b[i + 1..])
  {
    assert b == b[..i] + [b[i]] + b[i + 1..];
    SumConcat(f, b[..i] + [b[i]], b[i + 1..]);
    SumConcat(f, b[..i], [b[i]]);
    SumConcat(f, b[..i], b[i + 1..]);
    assert Sum(f, [b[i]]) == f(b[i]) by { assert [b[i]][1..] == []; }
  }

  // ------------------------------------------------------------- DISTINCT

  /** `SELECT DISTINCT`: every value once (its last occurrence is kept). */
  function Distinct<T(==,!new)>(s: seq<T>): (r: seq<T>)
    ensures NoDup(r)
    ensures forall x :: x in r <==> x in s
  {
    if s == [] then []
    else if s[0] in s[1..] then Distinct(s[1..])
    else [s[0]] + Distinct(s[1..])
  }

  /** `COUNT(DISTINCT x)` is the number of different values of x. */
  lemma {:induction false} DistinctCount<T(!new)>(s: seq<T>)
    ensures |Distinct(s)| == |set x | x in s|
  {
    if s != [] {
      DistinctCount(s[1..]);
      var tail := set x | x in s[1..];
      if s[0] in s[1..] {
        assert (set x | x in s) == tail;
      } else {
        assert (set x | x in s) == tail + {s[0]};
      }
    }
  }

  // ------------------------------------------------- aggregates over NULL

  /** The non-NULL values of a column, in order. */
  function NonNull<T(!new)>(s: seq<Option<T>>): (r: seq<T>)
    ensures |r| <= |s|
    ensures forall x :: x in r <==> Some(x) in s
  {
    if s == [] then []
    else
      assert forall y :: y in s <==> y == s[0] || y in s[1..];
      match s[0]
      case None => NonNull(s[1..])
      case Some(x) => [x] + NonNull(s[1..])
  }

  /** `COUNT(DISTINCT x)`: the number of different non-NULL values. */
  function CountDistinct<T(==,!new)>(s: seq<Option<T>>): nat {
    |Distinct(NonNull(s))|
  }

  lemma CountDistinctIsSetSize<T(!new)>(s: seq<Option<T>>)
    ensures CountDistinct(s) == |set o | o in s && o.Some? :: o.value|
  {
    DistinctCount(NonNull(s));
    assert (set x | x in NonNull(s)) == (set o | o in s && o.Some? :: o.value);
  }

  lemma CountDistinctZero<T(!new)>(s: seq<Option<T>>)
    ensures CountDistinct(s) == 0 <==> forall i :: 0 <= i < |s| ==> s[i].None?
  {
    if CountDistinct(s) != 0 {
      var x := Distinct(NonNull(s))[0];
      assert x in Distinct(NonNull(s));
      var i :| 0 <= i < |s| && s[i] == Some(x);
    }
  }

  /** `x` added to itself `n` times. */
  function Repeated(x: real, n: nat): real {
    if n == 0 then 0.0 else x + Repeated(x, n - 1)
  }

  /** A sum of equal terms is the term times their number. */
  lemma {:induction false} RepeatedIsProduct(x: real, n: nat)
    ensures Repeated(x, n) == x * (n as real)
  {
    if n != 0 {
      RepeatedIsProduct(x, n - 1);
    }
  }

  /** A column that holds the same value `c` on every row sums to `c` repeated once per row. */
  lemma {:induction false} SumConstant<T>(f: T -> real, s: seq<T>, c: real)
    requires forall i :: 0 <= i < |s| ==> f(s[i]) == c
    ensures Sum(f, s) == Repeated(c, |s|)
  {
    if s != [] {
      assert forall i :: 0 <= i < |s[1..]| ==> s[1..][i] == s[i + 1];
      SumConstant(f, s[1..], c);
    }
  }

  function RealOf(x: real): real { x }

  /** `SUM(x)`: NULL when no value is non-NULL, otherwise the sum of the non-NULL values. */
  function SqlSum(s: seq<Option<real>>): (r: Option<real>)
    ensures r.None? <==> forall i :: 0 <= i < |s| ==> s[i].None?
    ensures r.Some? ==> r.value == Sum(RealOf, NonNull(s))
  {
    if NonNull(s) == [] then None
    else
      assert exists i :: 0 <= i < |s| && s[i].Some? by {
        var x := NonNull(s)[0];
        assert x in NonNull(s);
        var i :| 0 <= i < |s| && s[i] == Some(x);
      }
      Some(Sum(RealOf, NonNull(s)))
  }

  /** `AVG(x)`: NULL when no value is non-NULL, otherwise the mean of the non-NULL values. */
  function SqlAvg(s: seq<Option<real>>): (r: Option<real>)
    ensures r.None? <==> NonNull(s) == []
    ensures r.Some? ==> r.value * (|NonNull(s)| as real) == Sum(RealOf, NonNull(s))
  {
    if NonNull(s) == [] then None
    else Some(Sum(RealOf, NonNull(s)) / (|NonNull(s)| as real))
  }

  /** `MIN(x)`: NULL when no value is non-NULL, otherwise the least non-NULL value. */
  function SqlMin(s: seq<Option<int>>): (r: Option<int>)
    ensures r.None? <==> forall i :: 0 <= i < |s| ==> s[i].None?
    ensures r.Some? ==> r in s && forall i :: 0 <= i < |s| && s[i].Some? ==> r.value <= s[i].value
  {
    if s == [] then None
    else
      var rest := SqlMin(s[1..]);
      assert forall i :: 1 <= i < |s| ==> s[i] == s[1..][i - 1];
      match (s[0], rest)
      case (None, _) => rest
      case (Some(x), None) => s[0]
      case (Some(x), Some(y)) => if x <= y then s[0] else rest
  }

  // ------------------------------------------------------------- GROUP BY

  /** The rows of `s` whose key is `key`: one group of a GROUP BY. */
  function WithKey<T(==,!new), K(==)>(k: T -> K, key: K, s: seq<T>): (r: seq<T>)
    ensures forall x :: x in r <==> x in s && k(x) == key
  {
    if s == [] then []
    else if k(s[0]) == key then [s[0]] + WithKey(k, key, s[1..])
    else WithKey(k, key, s[1..])
  }

  /** The rows of `s` whose key is not `key`. */
  function WithoutKey<T(==,!new), K(==)>(k: T -> K, key: K, s: seq<T>): (r: seq<T>)
    ensures forall x :: x in r <==> x in s && k(x) != key
  {
    if s == [] then []
    else if k(s[0]) != key then [s[0]] + WithoutKey(k, key, s[1..])
    else WithoutKey(k, key, s[1..])
  }

  lemma {:induction false} WithKeyOfWithout<T(!new), K(!new)>(k: T -> K, key: K, other: K, s: seq<T>)
    requires key != other
    ensures WithKey(k, key, WithoutKey(k, other, s)) == WithKey(k, key, s)
  {
    if s != [] {
      WithKeyOfWithout(k, key, other, s[1..]);
    }
  }

  /** Grouping distributes over concatenation: the group of `a + b` is the group of `a` followed by that of `b`. */
  lemma {:induction false} WithKeyConcat<T(!new), K(!new)>(k: T -> K, key: K, a: seq<T>, b: seq<T>)
    ensures WithKey(k, key, a + b) == WithKey(k, key, a) + WithKey(k, key, b)
  {
    if a != [] {
      assert (a + b)[0] == a[0] && (a + b)[1..] == a[1..] + b;
      WithKeyConcat(k, key, a[1..], b);
    } else {
      assert a + b == b;
    }
  }

  /** A table whose rows all carry `key` is its own group, and its group under any other key is empty. */
  lemma {:induction false} WithKeyUniform<T(!new), K(!new)>(k: T -> K, key: K, other: K, s: seq<T>)
    requires forall i :: 0 <= i < |s| ==> k(s[i]) == key
    ensures WithKey(k, key, s) == s
    ensures key != other ==> WithKey(k, other, s) == []
  {
    if s != [] {
      WithKeyUniform(k, key, other, s[1..]);
      assert [s[0]] + s[1..] == s;
    }
  }

  lemma {:induction false} SumSplitByKey<T(!new), K(!new)>(f: T -> real, k: T -> K, key: K, s: seq<T>)
    ensures Sum(f, s) == Sum(f, WithKey(k, key, s)) + Sum(f, WithoutKey(k, key, s))
  {
    if s != [] {
      SumSplitByKey(f, k, key, s[1..]);
    }
  }

  /** `SELECT key, agg(group) ... GROUP BY key`, one row per entry of `keys`. */
  function GroupBy<T(==,!new), K(==,!new), V>(k: T -> K, agg: seq<T> -> V, s: seq<T>, keys: seq<K>): (r: seq<Row<K, V>>)
    ensures |r| == |keys|
    ensures forall i :: 0 <= i < |keys| ==> r[i] == Row(keys[i], agg(WithKey(k, keys[i], s)))
  {
    if keys == [] then []
    else [Row(keys[0], agg(WithKey(k, keys[0], s)))] + GroupBy(k, agg, s, keys[1..])
  }

  /** `SELECT key, SUM(f(row)) ... GROUP BY key`, one row per entry of `keys`. */
  function GroupSum<T(==,!new), K(==,!new)>(f: T -> real, k: T -> K, s: seq<T>, keys: seq<K>): (r: seq<Row<K, real>>)
    ensures |r| == |keys|
    ensures forall i :: 0 <= i < |keys| ==> r[i] == Row(keys[i], Sum(f, WithKey(k, keys[i], s)))
  {
    if keys == [] then []
    else [Row(keys[0], Sum(f, WithKey(k, keys[0], s)))] + GroupSum(f, k, s, keys[1..])
  }

  lemma GroupSumSameGroups<T(!new), K(!new)>(f: T -> real, k: T -> K, s: seq<T>, s': seq<T>, keys: seq<K>)
    requires forall i :: 0 <= i < |keys| ==> WithKey(k, keys[i], s) == WithKey(k, keys[i], s')
    ensures GroupSum(f, k, s, keys) == GroupSum(f, k, s', keys)
  {
  }

  /**
   * Adding up the groups of a GROUP BY gives the total of the whole table,
   * whatever the grouping key, when every key occurs once.
   */
  lemma {:induction false} GroupSumTotal<T(!new), K(!new)>(f: T -> real, k: T -> K, s: seq<T>, keys: seq<K>)
    requires NoDup(keys)
    requires forall x :: x in s ==> k(x) in keys
    ensures Sum(RowValue, GroupSum(f, k, s, keys)) == Sum(f, s)
    decreases |keys|
  {
    if keys == [] {
      assert s == [];
    } else {
      var rest := WithoutKey(k, keys[0], s);
      forall i | 0 <= i < |keys[1..]|
        ensures WithKey(k, keys[1..][i], s) == WithKey(k, keys[1..][i], rest)
      {
        assert keys[1..][i] == keys[i + 1];
        WithKeyOfWithout(k, keys[i + 1], keys[0], s);
      }
      GroupSumSameGroups(f, k, s, rest, keys[1..]);
      assert NoDup(keys[1..]);
      forall x | x in rest
        ensures k(x) in keys[1..]
      {
        assert k(x) in keys && k(x) != keys[0];
      }
      GroupSumTotal(f, k, rest, keys[1..]);
      SumSplitByKey(f, k, keys[0], s);
      GroupSumFirst(f, k, s, keys);
    }
  }

  lemma GroupSumFirst<T(!new), K(!new)>(f: T -> real, k: T -> K, s: seq<T>, keys: seq<K>)
    requires keys != []
    ensures Sum(RowValue, GroupSum(f, k, s, keys))
         == Sum(f, WithKey(k, keys[0], s)) + Sum(RowValue, GroupSum(f, k, s, keys[1..]))
  {
    var r := GroupSum(f, k, s, keys);
    assert r[1..] == GroupSum(f, k, s, keys[1..]);
    assert RowValue(r[0]) == Sum(f, WithKey(k, keys[0], s));
  }

  // ------------------------------------------------------------- ORDER BY

  /** `le` is a total preorder: the shape every ORDER BY comparison has. */
  ghost predicate TotalPreorder<T(!new)>(le: (T, T) -> bool) {
    && (forall a, b :: le(a, b) || le(b, a))
    && (forall a, b, c :: le(a, b) && le(b, c) ==> le(a, c))
  }

  ghost predicate Antisymmetric<T(!new)>(le: (T, T) -> bool) {
    forall a, b :: le(a, b) && le(b, a) ==> a == b
  }

  predicate SortedBy<T>(le: (T, T) -> bool, s: seq<T>) {
    forall i, j :: 0 <= i < j < |s| ==> le(s[i], s[j])
  }

  /** Insert `x` before the first element it does not come after. */
  function Insert<T(==,!new)>(le: (T, T) -> bool, x: T, s: seq<T>): (r: seq<T>)
    ensures multiset(r) == multiset(s) + multiset{x}
  {
    if s == [] then [x]
    else
      assert s == [s[0]] + s[1..];
      if le(x, s[0]) then [x] + s else [s[0]] + Insert(le, x, s[1..])
  }

  lemma {:induction false} InsertSorted<T(!new)>(le: (T, T) -> bool, x: T, s: seq<T>)
    requires TotalPreorder(le) && SortedBy(le, s)
    ensures SortedBy(le, Insert(le, x, s))
  {
    if s != [] && !le(x, s[0]) {
      var tail := Insert(le, x, s[1..]);
      InsertSorted(le, x, s[1..]);
      assert s == [s[0]] + s[1..];
      forall y | y in tail ensures le(s[0], y) {
        assert y in multiset(tail);
        if y != x {
          assert y in multiset(s[1..]);
        }
      }
      SortedCons(le, s[0], tail);
    }
  }

  /** A sorted sequence stays sorted under a head that comes before all of it. */
  lemma SortedCons<T>(le: (T, T) -> bool, h: T, tail: seq<T>)
    requires SortedBy(le, tail) && forall y :: y in tail ==> le(h, y)
    ensures SortedBy(le, [h] + tail)
  {
    var r := [h] + tail;
    forall i, j | 0 <= i < j < |r| ensures le(r[i], r[j]) {
      assert r[j] == tail[j - 1];
      if i > 0 {
        assert r[i] == tail[i - 1];
      }
    }
  }

  /** `ORDER BY` with the comparison `le`: a permutation of `s` (a stable insertion sort). */
  function SortBy<T(==,!new)>(le: (T, T) -> bool, s: seq<T>): (r: seq<T>)
    ensures multiset(r) == multiset(s)
    ensures |r| == |s|
  {
    if s == [] then []
    else
      assert s == [s[0]] + s[1..];
      Insert(le, s[0], SortBy(le, s[1..]))
  }

  /** The result of ORDER BY is in order. */
  lemma {:induction false} SortBySorted<T(!new)>(le: (T, T) -> bool, s: seq<T>)
    requires TotalPreorder(le)
    ensures SortedBy(le, SortBy(le, s))
  {
    if s != [] {
      SortBySorted(le, s[1..]);
      InsertSorted(le, s[0], SortBy(le, s[1..]));
    }
  }

  lemma SortByMembers<T(!new)>(le: (T, T) -> bool, s: seq<T>)
    ensures forall x :: x in SortBy(le, s) <==> x in s
  {
    forall x ensures x in SortBy(le, s) <==> x in s {
      assert x in SortBy(le, s) <==> x in multiset(SortBy(le, s));
      assert x in s <==> x in multiset(s);
    }
  }

  /** Reordering keeps the rows pairwise different. */
  lemma {:induction false} NoDupPermutation<T(!new)>(a: seq<T>, b: seq<T>)
    requires multiset(a) == multiset(b)
    requires NoDup(a)
    ensures NoDup(b)
  {
    forall i, j | 0 <= i < j < |b| ensures b[i] != b[j] {
      if b[i] == b[j] {
        assert b == b[..i] + [b[i]] + b[i + 1..j] + [b[j]] + b[j + 1..];
        assert multiset(b)[b[i]] >= 2;
        MultiplicityAtMostOne(a, b[i]);
        assert false;
      }
    }
  }

  lemma {:induction false} MultiplicityAtMostOne<T(!new)>(a: seq<T>, x: T)
    requires NoDup(a)
    ensures multiset(a)[x] <= 1
  {
    if a != [] {
      assert a == [a[0]] + a[1..];
      assert NoDup(a[1..]);
      MultiplicityAtMostOne(a[1..], x);
      if a[0] == x {
        assert x !in a[1..];
      }
    }
  }

  /** A sorted sequence without repeats under an antisymmetric order is strictly increasing. */
  lemma StrictlySorted<T(!new)>(le: (T, T) -> bool, s: seq<T>)
    requires Antisymmetric(le) && SortedBy(le, s) && NoDup(s)
    ensures forall i, j :: 0 <= i < j < |s| ==> le(s[i], s[j]) && !le(s[j], s[i])
  {
  }

  /** The keys of a GROUP BY in ORDER BY order: every key once, in order. */
  lemma GroupKeysFacts<T(!new), K(!new)>(le: (K, K) -> bool, key: T -> K, s: seq<T>)
    requires TotalPreorder(le)
    ensures NoDup(SortBy(le, Distinct(Project(key, s))))
    ensures SortedBy(le, SortBy(le, Distinct(Project(key, s))))
    ensures forall k :: k in SortBy(le, Distinct(Project(key, s))) <==> k in Project(key, s)
  {
    var d := Distinct(Project(key, s));
    NoDupPermutation(d, SortBy(le, d));
    SortBySorted(le, d);
    SortByMembers(le, d);
  }

  /** The keys of a GROUP BY's rows are the keys it was asked for. */
  lemma GroupByKeys<T(!new), K(!new), V>(k: T -> K, agg: seq<T> -> V, s: seq<T>, keys: seq<K>)
    ensures Project(RowKey, GroupBy(k, agg, s, keys)) == keys
  {
  }

  lemma GroupSumKeys<T(!new), K(!new)>(f: T -> real, k: T -> K, s: seq<T>, keys: seq<K>)
    ensures Project(RowKey, GroupSum(f, k, s, keys)) == keys
  {
  }

  /**
   * Reordering grouped rows keeps one row per key: the keys stay pairwise
   * different and the same keys remain, and every row is an original row.
   */
  lemma SortedRowKeys<K(!new), V(!new)>(le: (Row<K, V>, Row<K, V>) -> bool, rows: seq<Row<K, V>>)
    requires NoDup(Project(RowKey, rows))
    ensures NoDup(Project(RowKey, SortBy(le, rows)))
    ensures forall k :: k in Project(RowKey, SortBy(le, rows)) <==> k in Project(RowKey, rows)
    ensures forall r :: r in SortBy(le, rows) <==> r in rows
  {
    var sorted := SortBy(le, rows);
    SortByMembers(le, rows);
    assert NoDup(rows) by {
      forall i, j | 0 <= i < j < |rows| ensures rows[i] != rows[j] {
        assert Project(RowKey, rows)[i] != Project(RowKey, rows)[j];
      }
    }
    NoDupPermutation(rows, sorted);
    forall i, j | 0 <= i < j < |sorted| ensures sorted[i].key != sorted[j].key {
      assert sorted[i] in rows && sorted[j] in rows;
    }
    forall k ensures k in Project(RowKey, sorted) <==> k in Project(RowKey, rows) {
      if k in Project(RowKey, sorted) {
        ProjectMember(RowKey, sorted, k);
        var r :| r in sorted && RowKey(r) == k;
        ProjectOf(RowKey, rows, r);
      }
      if k in Project(RowKey, rows) {
        ProjectMember(RowKey, rows, k);
        var r :| r in rows && RowKey(r) == k;
        ProjectOf(RowKey, sorted, r);
      }
    }
  }

  // -------------------------------------------------- QUALIFY ROW_NUMBER()

  /** `a` ranks strictly below `b` in `ORDER BY r DESC`; NULL ranks below every value. */
  predicate RankLt(a: Option<int>, b: Option<int>) {
    match (a, b)
    case (None, Some(_)) => true
    case (Some(x), Some(y)) => x < y
    case _ => false
  }

  /**
   * The row ranked first in one partition: greatest rank, and on equal ranks
   * the earliest row.
   */
  function Best<T(==)>(rank: T -> Option<int>, g: seq<T>): (b: T)
    requires |g| > 0
    ensures b in g
    ensures forall x :: x in g ==> !RankLt(rank(b), rank(x))
    ensures exists j :: 0 <= j < |g| && g[j] == b && forall i :: 0 <= i < j ==> RankLt(rank(g[i]), rank(b))
  {
    if |g| == 1 then g[0]
    else
      var b := Best(rank, g[1..]);
      if RankLt(rank(g[0]), rank(b)) then
        assert forall x :: x in g ==> x == g[0] || x in g[1..];
        ghost var j :| 0 <= j < |g[1..]| && g[1..][j] == b && forall i :: 0 <= i < j ==> RankLt(rank(g[1..][i]), rank(b));
        assert g[j + 1] == b;
        b
      else
        assert forall x :: x in g[1..] ==> !RankLt(rank(g[0]), rank(x)) by {
          forall x | x in g[1..] ensures !RankLt(rank(g[0]), rank(x)) {
            RankNotLtTransitive(rank(g[0]), rank(b), rank(x));
          }
        }
        assert forall x :: x in g ==> x == g[0] || x in g[1..];
        g[0]
  }

  lemma RankNotLtTransitive(a: Option<int>, b: Option<int>, c: Option<int>)
    requires !RankLt(a, b) && !RankLt(b, c)
    ensures !RankLt(a, c)
  {
  }

  function Survivors<T(==,!new), K(==,!new)>(key: T -> K, rank: T -> Option<int>, s: seq<T>, keys: seq<K>): (r: seq<T>)
    requires forall i :: 0 <= i < |keys| ==> |WithKey(key, keys[i], s)| > 0
    ensures |r| == |keys|
    ensures forall i :: 0 <= i < |keys| ==> r[i] == Best(rank, WithKey(key, keys[i], s))
  {
    seq(|keys|, i requires 0 <= i < |keys| => Best(rank, WithKey(key, keys[i], s)))
  }

  lemma KeyHasGroup<T(!new), K(!new)>(key: T -> K, s: seq<T>, k0: K)
    requires k0 in Project(key, s)
    ensures |WithKey(key, k0, s)| > 0
  {
    ProjectMember(key, s, k0);
    var x :| x in s && key(x) == k0;
    assert x in WithKey(key, k0, s);
  }

  /**
   * `QUALIFY ROW_NUMBER() OVER (PARTITION BY key ORDER BY rank DESC) = 1`:
   * one survivor per distinct key, the row with the greatest rank (NULL
   * lowest) and, among equal ranks, the earliest.
   */
  function LatestPerKey<T(==,!new), K(==,!new)>(key: T -> K, rank: T -> Option<int>, s: seq<T>): (r: seq<T>)
  {
    var keys := Distinct(Project(key, s));
    assert forall i :: 0 <= i < |keys| ==> |WithKey(key, keys[i], s)| > 0 by {
      forall i | 0 <= i < |keys| ensures |WithKey(key, keys[i], s)| > 0 {
        KeyHasGroup(key, s, keys[i]);
      }
    }
    Survivors(key, rank, s, keys)
  }

  lemma LatestPerKeyKeys<T(!new), K(!new)>(key: T -> K, rank: T -> Option<int>, s: seq<T>)
    ensures Project(key, LatestPerKey(key, rank, s)) == Distinct(Project(key, s))
  {
    var keys := Distinct(Project(key, s));
    var r := LatestPerKey(key, rank, s);
    forall i | 0 <= i < |r| ensures key(r[i]) == keys[i] {
      KeyHasGroup(key, s, keys[i]);
      assert r[i] in WithKey(key, keys[i], s);
    }
  }

  /** The different values `key` takes on the rows of `s`. */
  ghost function KeysOf<T, K>(key: T -> K, s: seq<T>): set<K> {
    set x | x in s :: key(x)
  }

  lemma ProjectKeySet<T(!new), K(!new)>(key: T -> K, s: seq<T>)
    ensures (set y | y in Project(key, s)) == KeysOf(key, s)
  {
    forall y | y in Project(key, s) ensures y in (set x | x in s :: key(x)) {
      ProjectMember(key, s, y);
    }
    forall x | x in s ensures key(x) in Project(key, s) {
      ProjectOf(key, s, x);
    }
  }

  /**
   * Exactly one survivor per key: the survivors' keys are pairwise different,
   * every key of the input has a survivor, and there are as many survivors
   * as distinct keys.
   */
  lemma LatestPerKeyUnique<T(!new), K(!new)>(key: T -> K, rank: T -> Option<int>, s: seq<T>)
    ensures NoDup(Project(key, LatestPerKey(key, rank, s)))
    ensures forall x :: x in s ==> key(x) in Project(key, LatestPerKey(key, rank, s))
    ensures |LatestPerKey(key, rank, s)| == |KeysOf(key, s)|
  {
    LatestPerKeyKeys(key, rank, s);
    forall x | x in s ensures key(x) in Project(key, LatestPerKey(key, rank, s)) {
      ProjectOf(key, s, x);
    }
    DistinctCount(Project(key, s));
    ProjectKeySet(key, s);
  }

  /** Every survivor is an input row that no row of its partition outranks. */
  lemma LatestPerKeyIsLatest<T(!new), K(!new)>(key: T -> K, rank: T -> Option<int>, s: seq<T>, y: T)
    requires y in LatestPerKey(key, rank, s)
    ensures y in s
    ensures forall x :: x in s && key(x) == key(y) ==> !RankLt(rank(y), rank(x))
  {
    var keys := Distinct(Project(key, s));
    var r := LatestPerKey(key, rank, s);
    var i :| 0 <= i < |r| && r[i] == y;
    KeyHasGroup(key, s, keys[i]);
    assert y in WithKey(key, keys[i], s);
  }
}
