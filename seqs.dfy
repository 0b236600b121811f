/**
 * Filter, sum, count and group-by over finite record sequences: the shapes of Array.prototype
 * filter/reduce and of MongoDB's $match/$group/$sum stages.
 */
module Seqs {
  import opened Wrappers

  function Filter<T>(s: seq<T>, p: T -> bool): (r: seq<T>)
    ensures |r| <= |s|
    ensures forall i :: 0 <= i < |r| ==> p(r[i]) && r[i] in s
    ensures forall i :: 0 <= i < |s| && p(s[i]) ==> s[i] in r
    ensures multiset(r) <= multiset(s)
  {
    if s == [] then []
    else
      assert s == [s[0]] + s[1..];
      (if p(s[0]) then [s[0]] else []) + Filter(s[1..], p)
  }

  lemma FilterMembers<T>(s: seq<T>, p: T -> bool)
    ensures forall x :: x in Filter(s, p) ==> x in s && p(x)
  {
    forall x | x in Filter(s, p) ensures x in s && p(x) {
      var i :| 0 <= i < |Filter(s, p)| && Filter(s, p)[i] == x;
    }
  }

  /** Filtering depends only on which records the predicate keeps. */
  lemma {:induction false} FilterExt<T>(s: seq<T>, p: T -> bool, q: T -> bool)
    requires forall x :: x in s ==> p(x) == q(x)
    ensures Filter(s, p) == Filter(s, q)
  {
    if s != [] {
      assert s[0] in s;
      forall x | x in s[1..] ensures p(x) == q(x) {
        assert x in s;
      }
      FilterExt(s[1..], p, q);
    }
  }

  /** `filter(p).length`. */
  function Count<T>(s: seq<T>, p: T -> bool): nat {
    |Filter(s, p)|
  }

  /** `reduce((sum, x) => sum + f(x), 0)`. */
  function SumBy<T>(s: seq<T>, f: T -> int): int {
    if s == [] then 0 else f(s[0]) + SumBy(s[1..], f)
  }

  function Unit<T>(x: T): int { 1 }

  predicate Distinct<T(==)>(s: seq<T>) {
    forall i, j :: 0 <= i < j < |s| ==> s[i] != s[j]
  }

  lemma {:induction false} FilterAppend<T>(a: seq<T>, b: seq<T>, p: T -> bool)
    ensures Filter(a + b, p) == Filter(a, p) + Filter(b, p)
  {
    if a == [] {
      assert a + b == b;
    } else {
      assert (a + b)[1..] == a[1..] + b;
      FilterAppend(a[1..], b, p);
    }
  }

  lemma {:induction false} SumByAppend<T>(a: seq<T>, b: seq<T>, f: T -> int)
    ensures SumBy(a + b, f) == SumBy(a, f) + SumBy(b, f)
  {
    if a == [] {
      assert a + b == b;
    } else {
      assert (a + b)[1..] == a[1..] + b;
      SumByAppend(a[1..], b, f);
    }
  }

  lemma SumBySnoc<T>(a: seq<T>, x: T, f: T -> int)
    ensures SumBy(a + [x], f) == SumBy(a, f) + f(x)
  {
    SumByAppend(a, [x], f);
  }

  /** `s` without its element at index `i`. */
  function RemoveAt<T>(s: seq<T>, i: nat): (r: seq<T>)
    requires i < |s|
    ensures |r| == |s| - 1
  {
    s[..i] + s[i+1..]
  }

  /** The records after the removed one move down by one place. */
  lemma RemoveAtIndex<T>(s: seq<T>, i: nat)
    requires i < |s|
    ensures forall j :: 0 <= j < i ==> RemoveAt(s, i)[j] == s[j]
    ensures forall j :: i <= j < |s| - 1 ==> RemoveAt(s, i)[j] == s[j + 1]
  {
  }

  lemma RemoveAtMembers<T>(s: seq<T>, i: nat)
    requires i < |s|
    ensures forall x :: x in RemoveAt(s, i) ==> x in s
  {
    forall x | x in RemoveAt(s, i) ensures x in s {
      var j :| 0 <= j < |RemoveAt(s, i)| && RemoveAt(s, i)[j] == x;
      RemoveAtIndex(s, i);
      if j >= i {
        assert x == s[j + 1];
      }
    }
  }

  lemma RemoveAtMultiset<T>(s: seq<T>, i: nat)
    requires i < |s|
    ensures multiset(RemoveAt(s, i)) == multiset(s) - multiset{s[i]}
  {
    assert s == s[..i] + [s[i]] + s[i+1..];
    assert multiset(s) == multiset(s[..i]) + multiset{s[i]} + multiset(s[i+1..]);
  }

  lemma {:induction false} RemoveAtSum<T>(s: seq<T>, i: nat, f: T -> int)
    requires i < |s|
    ensures SumBy(s, f) == f(s[i]) + SumBy(RemoveAt(s, i), f)
  {
    if i == 0 {
      assert RemoveAt(s, 0) == s[1..];
    } else {
      var rest := RemoveAt(s[1..], i - 1);
      RemoveAtSum(s[1..], i - 1, f);
      assert RemoveAt(s, i) == [s[0]] + rest;
      assert ([s[0]] + rest)[1..] == rest;
    }
  }

  /** Replacing one record changes a sum by the difference of its two terms. */
  lemma SumByReplace<T>(s: seq<T>, k: nat, x: T, f: T -> int)
    requires k < |s|
    ensures SumBy(s[k := x], f) == SumBy(s, f) - f(s[k]) + f(x)
  {
    var t := s[k := x];
    RemoveAtSum(s, k, f);
    RemoveAtSum(t, k, f);
    assert RemoveAt(t, k) == RemoveAt(s, k);
  }

  /** A sum does not depend on the order of the records. */
  lemma {:induction false} SumByPermutation<T>(a: seq<T>, b: seq<T>, f: T -> int)
    requires multiset(a) == multiset(b)
    ensures SumBy(a, f) == SumBy(b, f)
    decreases |a|
  {
    if a == [] {
      assert |b| == |multiset(b)| == 0;
    } else {
      var x := a[0];
      assert x in multiset(b);
      var i :| 0 <= i < |b| && b[i] == x;
      RemoveAtMultiset(b, i);
      RemoveAtMultiset(a, 0);
      assert RemoveAt(a, 0) == a[1..];
      SumByPermutation(a[1..], RemoveAt(b, i), f);
      RemoveAtSum(b, i, f);
    }
  }

  /** `f` where `p` holds and 0 elsewhere. */
  function Masked<T>(p: T -> bool, f: T -> int): T -> int {
    x => if p(x) then f(x) else 0
  }

  lemma {:induction false} SumByFilter<T>(s: seq<T>, p: T -> bool, f: T -> int)
    ensures SumBy(Filter(s, p), f) == SumBy(s, Masked(p, f))
  {
    if s != [] {
      SumByFilter(s[1..], p, f);
      SumByAppend(if p(s[0]) then [s[0]] else [], Filter(s[1..], p), f);
    }
  }

  lemma {:induction false} SumByUnit<T>(s: seq<T>)
    ensures SumBy(s, Unit) == |s|
  {
    if s != [] {
      SumByUnit(s[1..]);
    }
  }

  lemma {:induction false} SumByNonNegative<T>(s: seq<T>, f: T -> int)
    requires forall x :: x in s ==> f(x) >= 0
    ensures SumBy(s, f) >= 0
  {
    if s != [] {
      SumByNonNegative(s[1..], f);
    }
  }

  lemma {:induction false} SumByMonotone<T>(s: seq<T>, f: T -> int, g: T -> int)
    requires forall x :: x in s ==> f(x) <= g(x)
    ensures SumBy(s, f) <= SumBy(s, g)
  {
    if s != [] {
      SumByMonotone(s[1..], f, g);
    }
  }

  /** A record is kept exactly when it is in the sequence and the predicate holds for it. */
  lemma FilterIff<T>(s: seq<T>, p: T -> bool)
    ensures forall x :: x in Filter(s, p) <==> x in s && p(x)
  {
    FilterMembers(s, p);
    forall x | x in s && p(x) ensures x in Filter(s, p) {
      var i :| 0 <= i < |s| && s[i] == x;
    }
  }

  /** A filter that keeps more records keeps at least as much of a non-negative field. */
  lemma SumByFilterImplies<T>(s: seq<T>, p: T -> bool, q: T -> bool, f: T -> int)
    requires forall x :: x in s && p(x) ==> q(x)
    requires forall x :: x in s && q(x) ==> f(x) >= 0
    ensures SumBy(Filter(s, p), f) <= SumBy(Filter(s, q), f)
  {
    SumByFilter(s, p, f);
    SumByFilter(s, q, f);
    SumByMonotone(s, Masked(p, f), Masked(q, f));
  }

  /** A filter that keeps more records counts at least as many. */
  lemma CountImplies<T>(s: seq<T>, p: T -> bool, q: T -> bool)
    requires forall x :: x in s && p(x) ==> q(x)
    ensures Count(s, p) <= Count(s, q)
  {
    SumByFilterImplies(s, p, q, Unit);
    SumByUnit(Filter(s, p));
    SumByUnit(Filter(s, q));
  }

  lemma {:induction false} SumByDifference<T>(s: seq<T>, f: T -> int, g: T -> int, h: T -> int)
    requires forall x :: x in s ==> h(x) == f(x) - g(x)
    ensures SumBy(s, h) == SumBy(s, f) - SumBy(s, g)
  {
    if s != [] {
      SumByDifference(s[1..], f, g, h);
    }
  }

  lemma SumByEmptyFilter<T>(s: seq<T>, p: T -> bool, f: T -> int)
    requires forall x :: x in s ==> !p(x)
    ensures Filter(s, p) == [] && SumBy(Filter(s, p), f) == 0
  {
  }

  lemma CountPermutation<T>(a: seq<T>, b: seq<T>, p: T -> bool)
    requires multiset(a) == multiset(b)
    ensures Count(a, p) == Count(b, p)
  {
    SumByFilter(a, p, Unit);
    SumByFilter(b, p, Unit);
    SumByUnit(Filter(a, p));
    SumByUnit(Filter(b, p));
    SumByPermutation(a, b, Masked(p, Unit));
  }

  /** A filter that every record passes keeps the sequence as it is. */
  lemma {:induction false} FilterAll<T>(s: seq<T>, p: T -> bool)
    requires forall x :: x in s ==> p(x)
    ensures Filter(s, p) == s
  {
    if s != [] {
      var t := s[1..];
      assert p(s[0]) by {
        assert s[0] in s;
      }
      forall x | x in t ensures p(x) {
        assert x in s;
      }
      FilterAll(t, p);
      assert Filter(s, p) == [s[0]] + t;
    }
  }

  /** No element occurs twice in a sequence without duplicates. */
  lemma {:induction false} DistinctMultiplicity<T>(s: seq<T>, x: T)
    requires Distinct(s)
    ensures multiset(s)[x] <= 1
  {
    if s != [] {
      assert s == [s[0]] + s[1..];
      assert Distinct(s[1..]) by {
        forall i, j | 0 <= i < j < |s[1..]| ensures s[1..][i] != s[1..][j] {
          assert s[1..][i] == s[i + 1] && s[1..][j] == s[j + 1];
        }
      }
      DistinctMultiplicity(s[1..], x);
      if x == s[0] {
        assert x !in s[1..] by {
          forall i | 0 <= i < |s[1..]| ensures s[1..][i] != x {
            assert s[1..][i] == s[i + 1];
          }
        }
      }
    }
  }

  /** A reordering of a sequence without duplicates has none. */
  lemma DistinctPermutation<T>(a: seq<T>, b: seq<T>)
    requires Distinct(a) && multiset(a) == multiset(b)
    ensures Distinct(b)
  {
    forall i, j | 0 <= i < j < |b| ensures b[i] != b[j] {
      if b[i] == b[j] {
        assert b == b[..j] + b[j..];
        assert b[i] in b[..j] && b[j] in b[j..];
        assert multiset(b)[b[i]] == multiset(b[..j])[b[i]] + multiset(b[j..])[b[i]];
        DistinctMultiplicity(a, b[i]);
        assert false;
      }
    }
  }

  /** `find`/`findIndex`: the first index whose record satisfies `p`. */
  function IndexOf<T>(s: seq<T>, p: T -> bool): (r: Option<nat>)
    ensures r.Some? ==> r.value < |s| && p(s[r.value])
    ensures r.Some? ==> forall j :: 0 <= j < r.value ==> !p(s[j])
    ensures r.None? <==> forall j :: 0 <= j < |s| ==> !p(s[j])
  {
    if s == [] then None
    else if p(s[0]) then Some(0)
    else
      match IndexOf(s[1..], p)
      case None => None
      case Some(k) => Some(k + 1)
  }

  /** `.limit(n)` / `.slice(0, n)` */
  function Take<T>(s: seq<T>, n: nat): (r: seq<T>)
    ensures |r| == if |s| <= n then |s| else n
    ensures r == s[..|r|]
  {
    if |s| <= n then s else s[..n]
  }

  /** `map(f)` */
  function Map<T, U>(s: seq<T>, f: T -> U): (r: seq<U>)
    ensures |r| == |s| && forall i :: 0 <= i < |s| ==> r[i] == f(s[i])
  {
    if s == [] then [] else [f(s[0])] + Map(s[1..], f)
  }

  /** Every element of a mapped sequence is the image of an element of the original. */
  lemma MapMembers<T, U>(s: seq<T>, f: T -> U)
    ensures forall y :: y in Map(s, f) ==> exists x :: x in s && y == f(x)
  {
    forall y | y in Map(s, f) ensures exists x :: x in s && y == f(x) {
      var i :| 0 <= i < |s| && Map(s, f)[i] == y;
      assert s[i] in s;
    }
  }

  /** Filtering twice is filtering by both predicates. */
  lemma {:induction false} FilterFilter<T>(s: seq<T>, p: T -> bool, q: T -> bool, pq: T -> bool)
    requires forall x :: pq(x) == (p(x) && q(x))
    ensures Filter(Filter(s, p), q) == Filter(s, pq)
  {
    if s != [] {
      FilterFilter(s[1..], p, q, pq);
      FilterAppend(if p(s[0]) then [s[0]] else [], Filter(s[1..], p), q);
    }
  }

  // ---------------------------------------------------------------------------------------
  // Collections keyed by a unique field (`_id`, or a field with a unique index).

  predicate UniqueBy<T, K(==)>(s: seq<T>, key: T -> K) {
    forall i, j :: 0 <= i < j < |s| ==> key(s[i]) != key(s[j])
  }

  predicate KeyAbsent<T, K(==)>(s: seq<T>, key: T -> K, k: K) {
    forall i :: 0 <= i < |s| ==> key(s[i]) != k
  }

  /** A key that is present stays present after an append. */
  lemma KeyPresentAppend<T, K>(s: seq<T>, key: T -> K, x: T, k: K)
    requires !KeyAbsent(s, key, k)
    ensures !KeyAbsent(s + [x], key, k)
  {
    var i :| 0 <= i < |s| && key(s[i]) == k;
    assert (s + [x])[i] == s[i];
  }

  lemma UniqueByAppend<T, K>(s: seq<T>, key: T -> K, x: T)
    requires UniqueBy(s, key) && KeyAbsent(s, key, key(x))
    ensures UniqueBy(s + [x], key)
  {
    var r := s + [x];
    forall i, j | 0 <= i < j < |r| ensures key(r[i]) != key(r[j]) {
      if j < |s| {
        assert r[i] == s[i] && r[j] == s[j];
      } else {
        assert r[i] == s[i];
      }
    }
  }

  lemma UniqueByReplace<T, K>(s: seq<T>, key: T -> K, k: nat, x: T)
    requires UniqueBy(s, key) && k < |s| && key(x) == key(s[k])
    ensures UniqueBy(s[k := x], key)
  {
  }

  /** No record other than the one at `k` has key `v`. */
  predicate KeyFreeExcept<T, K(==)>(s: seq<T>, key: T -> K, k: nat, v: K) {
    forall i :: 0 <= i < |s| && i != k ==> key(s[i]) != v
  }

  /** Rewriting a record to a key no other record has keeps the keys unique. */
  lemma UniqueByReplaceFresh<T, K>(s: seq<T>, key: T -> K, k: nat, x: T)
    requires UniqueBy(s, key) && k < |s| && KeyFreeExcept(s, key, k, key(x))
    ensures UniqueBy(s[k := x], key)
  {
  }

  lemma UniqueByRemove<T, K>(s: seq<T>, key: T -> K, k: nat)
    requires UniqueBy(s, key) && k < |s|
    ensures UniqueBy(RemoveAt(s, k), key)
  {
    var r := RemoveAt(s, k);
    forall i, j | 0 <= i < j < |r| ensures key(r[i]) != key(r[j]) {
      var i', j' := if i < k then i else i + 1, if j < k then j else j + 1;
      assert r[i] == s[i'] && r[j] == s[j'];
    }
  }

  /** In a collection with unique keys, the record with key `key(s[k])` is the one at `k`. */
  lemma UniqueByIndex<T, K>(s: seq<T>, key: T -> K, k: nat, k': nat)
    requires UniqueBy(s, key) && k < |s| && k' < |s| && key(s[k]) == key(s[k'])
    ensures k == k'
  {
  }

  // ---------------------------------------------------------------------------------------
  // Group-by: the distinct keys of a sequence and the per-key sums of a $group stage.

  /** The distinct keys of `s`, in order of first occurrence. */
  function KeysOf<T, K(==)>(s: seq<T>, key: T -> K): (ks: seq<K>)
    ensures Distinct(ks)
    ensures forall i :: 0 <= i < |s| ==> key(s[i]) in ks
    ensures forall k :: k in ks ==> exists i :: 0 <= i < |s| && key(s[i]) == k
  {
    if s == [] then []
    else
      var init := s[..|s| - 1];
      var last := s[|s| - 1];
      assert s == init + [last];
      var ks := KeysOf(init, key);
      if key(last) in ks then ks else ks + [key(last)]
  }

  /** `$sum` of `f` over the records of group `k`. */
  function SumWhere<T, K(==)>(s: seq<T>, key: T -> K, k: K, f: T -> int): int {
    if s == [] then 0
    else (if key(s[0]) == k then f(s[0]) else 0) + SumWhere(s[1..], key, k, f)
  }

  /** `$sum: 1` over the records of group `k`. */
  function CountWhere<T, K(==)>(s: seq<T>, key: T -> K, k: K): int {
    SumWhere(s, key, k, Unit)
  }

  /** The total of the group sums over the keys `ks`. */
  function GroupTotal<T, K(==)>(s: seq<T>, key: T -> K, f: T -> int, ks: seq<K>): int {
    if ks == [] then 0 else SumWhere(s, key, ks[0], f) + GroupTotal(s, key, f, ks[1..])
  }

  /** What one record adds to the group totals over `ks`. */
  function Hits<T, K(==)>(x: T, key: T -> K, f: T -> int, ks: seq<K>): int {
    if ks == [] then 0 else (if key(x) == ks[0] then f(x) else 0) + Hits(x, key, f, ks[1..])
  }

  lemma {:induction false} HitsAbsent<T, K>(x: T, key: T -> K, f: T -> int, ks: seq<K>)
    requires key(x) !in ks
    ensures Hits(x, key, f, ks) == 0
  {
    if ks != [] {
      HitsAbsent(x, key, f, ks[1..]);
    }
  }

  lemma {:induction false} HitsOnce<T, K>(x: T, key: T -> K, f: T -> int, ks: seq<K>)
    requires Distinct(ks) && key(x) in ks
    ensures Hits(x, key, f, ks) == f(x)
  {
    if ks[0] == key(x) {
      assert key(x) !in ks[1..] by {
        forall j | 0 <= j < |ks[1..]| ensures ks[1..][j] != key(x) {
          assert ks[1..][j] == ks[j + 1];
        }
      }
      HitsAbsent(x, key, f, ks[1..]);
    } else {
      HitsOnce(x, key, f, ks[1..]);
    }
  }

  lemma {:induction false} GroupTotalEmpty<T, K>(s: seq<T>, key: T -> K, f: T -> int, ks: seq<K>)
    requires s == []
    ensures GroupTotal(s, key, f, ks) == 0
  {
    if ks != [] {
      GroupTotalEmpty(s, key, f, ks[1..]);
    }
  }

  lemma {:induction false} GroupTotalCons<T, K>(s: seq<T>, key: T -> K, f: T -> int, ks: seq<K>)
    requires s != []
    ensures GroupTotal(s, key, f, ks) == Hits(s[0], key, f, ks) + GroupTotal(s[1..], key, f, ks)
  {
    if ks != [] {
      GroupTotalCons(s, key, f, ks[1..]);
    }
  }

  /**
   * The grand total over distinct group keys that cover every record is the plain total:
   * summing the per-group sums counts every record exactly once.
   */
  lemma {:induction false} GroupTotalIsSum<T, K>(s: seq<T>, key: T -> K, f: T -> int, ks: seq<K>)
    requires Distinct(ks)
    requires forall x :: x in s ==> key(x) in ks
    ensures GroupTotal(s, key, f, ks) == SumBy(s, f)
  {
    if s == [] {
      GroupTotalEmpty(s, key, f, ks);
    } else {
      GroupTotalCons(s, key, f, ks);
      HitsOnce(s[0], key, f, ks);
      assert forall x :: x in s[1..] ==> x in s;
      GroupTotalIsSum(s[1..], key, f, ks);
    }
  }

  lemma {:induction false} SumWhereAbsent<T, K>(s: seq<T>, key: T -> K, k: K, f: T -> int)
    requires forall x :: x in s ==> key(x) != k
    ensures SumWhere(s, key, k, f) == 0
  {
    if s != [] {
      assert forall x :: x in s[1..] ==> x in s;
      SumWhereAbsent(s[1..], key, k, f);
    }
  }

  /** The records of group `k`. */
  function KeyIs<T, K(==)>(key: T -> K, k: K): T -> bool {
    x => key(x) == k
  }

  /** A group sum is the sum over the records that carry the key. */
  lemma {:induction false} SumWhereIsFilteredSum<T, K>(s: seq<T>, key: T -> K, k: K, f: T -> int)
    ensures SumWhere(s, key, k, f) == SumBy(Filter(s, KeyIs(key, k)), f)
  {
    if s != [] {
      SumWhereIsFilteredSum(s[1..], key, k, f);
      var p := KeyIs(key, k);
      SumByAppend(if p(s[0]) then [s[0]] else [], Filter(s[1..], p), f);
    }
  }

  lemma CountWhereIsCount<T, K>(s: seq<T>, key: T -> K, k: K)
    ensures CountWhere(s, key, k) == Count(s, KeyIs(key, k))
  {
    SumWhereIsFilteredSum(s, key, k, Unit);
    SumByUnit(Filter(s, KeyIs(key, k)));
  }

  /** Summing one row per key, where each row carries its group's sum, is summing the groups. */
  lemma {:induction false} SumOverKeys<T, K, R>(s: seq<T>, key: T -> K, f: T -> int, ks: seq<K>, row: K -> R, g: R -> int)
    requires forall k :: k in ks ==> g(row(k)) == SumWhere(s, key, k, f)
    ensures SumBy(Map(ks, row), g) == GroupTotal(s, key, f, ks)
  {
    if ks != [] {
      assert Map(ks, row)[1..] == Map(ks[1..], row);
      assert ks[0] in ks;
      forall k | k in ks[1..] ensures g(row(k)) == SumWhere(s, key, k, f) {
        assert k in ks;
      }
      SumOverKeys(s, key, f, ks[1..], row, g);
    }
  }

  /**
   * A `$group` stage followed by a `reduce` over its rows: when every row carries the `$sum`
   * of its group, the rows add up to the sum over all records.
   */
  lemma GroupedTotal<T, K, R>(s: seq<T>, key: T -> K, f: T -> int, row: K -> R, g: R -> int)
    requires forall k {:trigger SumWhere(s, key, k, f)} :: g(row(k)) == SumWhere(s, key, k, f)
    ensures SumBy(Map(KeysOf(s, key), row), g) == SumBy(s, f)
  {
    var ks := KeysOf(s, key);
    forall k | k in ks ensures g(row(k)) == SumWhere(s, key, k, f) {
      assert SumWhere(s, key, k, f) == SumWhere(s, key, k, f);
    }
    SumOverKeys(s, key, f, ks, row, g);
    forall x | x in s ensures key(x) in ks {
      var i :| 0 <= i < |s| && s[i] == x;
    }
    GroupTotalIsSum(s, key, f, ks);
  }
}
