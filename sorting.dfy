/**
 * Sorting and paging as the queries use them: `.sort(...)`, the `$sort` stage and
 * `.skip((page - 1) * limit).limit(limit)` with `pages = Math.ceil(total / limit)`.
 */
module Sorting {
  import opened Seqs

  /** A comparison that the sort can use: total and transitive. */
  ghost predicate TotalPreorder<T(!new)>(le: (T, T) -> bool) {
    (forall a, b :: le(a, b) || le(b, a)) &&
    (forall a, b, c :: le(a, b) && le(b, c) ==> le(a, c))
  }

  predicate SortedBy<T>(s: seq<T>, le: (T, T) -> bool) {
    forall i, j :: 0 <= i < j < |s| ==> le(s[i], s[j])
  }

  /** Insert `x` before the first element it does not follow. */
  function Insert<T>(x: T, s: seq<T>, le: (T, T) -> bool): (r: seq<T>)
    ensures multiset(r) == multiset(s) + multiset{x}
    ensures |r| == |s| + 1
  {
    if s == [] then [x]
    else if le(x, s[0]) then [x] + s
    else
      assert s == [s[0]] + s[1..];
      [s[0]] + Insert(x, s[1..], le)
  }

  /** An insertion sort: the records of `s` in the order `le`. */
  function SortBy<T>(s: seq<T>, le: (T, T) -> bool): (r: seq<T>)
    ensures multiset(r) == multiset(s)
    ensures |r| == |s|
  {
    if s == [] then []
    else
      assert s == [s[0]] + s[1..];
      Insert(s[0], SortBy(s[1..], le), le)
  }

  /** The sort keeps exactly the records it was given. */
  lemma SortByMembers<T>(s: seq<T>, le: (T, T) -> bool)
    ensures forall x :: x in SortBy(s, le) <==> x in s
  {
    forall x ensures x in SortBy(s, le) <==> x in s {
      assert x in SortBy(s, le) <==> x in multiset(SortBy(s, le));
      assert x in s <==> x in multiset(s);
    }
  }

  /** The insertion adds `x` and nothing else. */
  lemma InsertMembers<T>(x: T, s: seq<T>, le: (T, T) -> bool)
    ensures forall y :: y in Insert(x, s, le) ==> y == x || y in s
  {
    forall y | y in Insert(x, s, le) ensures y == x || y in s {
      assert y in multiset(Insert(x, s, le));
    }
  }

  /** A head that precedes every element of a sorted tail gives a sorted sequence. */
  lemma ConsSorted<T>(h: T, t: seq<T>, le: (T, T) -> bool)
    requires SortedBy(t, le) && forall j :: 0 <= j < |t| ==> le(h, t[j])
    ensures SortedBy([h] + t, le)
  {
    var r := [h] + t;
    forall i, j | 0 <= i < j < |r| ensures le(r[i], r[j]) {
      assert r[j] == t[j - 1];
      if i > 0 {
        assert r[i] == t[i - 1];
      }
    }
  }

  lemma TailSorted<T>(s: seq<T>, le: (T, T) -> bool)
    requires s != [] && SortedBy(s, le)
    ensures SortedBy(s[1..], le)
    ensures forall j :: 0 <= j < |s[1..]| ==> le(s[0], s[1..][j])
  {
    forall i, j | 0 <= i < j < |s[1..]| ensures le(s[1..][i], s[1..][j]) {
      assert s[1..][i] == s[i + 1] && s[1..][j] == s[j + 1];
    }
    forall j | 0 <= j < |s[1..]| ensures le(s[0], s[1..][j]) {
      assert s[1..][j] == s[j + 1];
    }
  }

  lemma {:induction false} InsertSorted<T(!new)>(x: T, s: seq<T>, le: (T, T) -> bool)
    requires TotalPreorder(le) && SortedBy(s, le)
    ensures SortedBy(Insert(x, s, le), le)
  {
    if s == [] {
    } else if le(x, s[0]) {
      forall j | 0 <= j < |s| ensures le(x, s[j]) {
        if j > 0 {
          assert le(s[0], s[j]);
        }
      }
      ConsSorted(x, s, le);
    } else {
      TailSorted(s, le);
      InsertSorted(x, s[1..], le);
      InsertMembers(x, s[1..], le);
      var rest := Insert(x, s[1..], le);
      forall j | 0 <= j < |rest| ensures le(s[0], rest[j]) {
        assert rest[j] in rest;
        if rest[j] != x {
          var k :| 0 <= k < |s[1..]| && s[1..][k] == rest[j];
        }
      }
      ConsSorted(s[0], rest, le);
    }
  }

  /** The sort's result is ordered by `le`, and a permutation of its input (SortBy's ensures). */
  lemma {:induction false} SortBySorted<T(!new)>(s: seq<T>, le: (T, T) -> bool)
    requires TotalPreorder(le)
    ensures SortedBy(SortBy(s, le), le)
  {
    if s != [] {
      SortBySorted(s[1..], le);
      InsertSorted(s[0], SortBy(s[1..], le), le);
    }
  }

  // ---------------------------------------------------------------------------------------
  // The orders the queries use.

  /** `{ key: 1 }` */
  function Ascending<T>(key: T -> int): (T, T) -> bool {
    (a, b) => key(a) <= key(b)
  }

  /** `{ key: -1 }` */
  function Descending<T>(key: T -> int): (T, T) -> bool {
    (a, b) => key(a) >= key(b)
  }

  lemma AscendingTotal<T(!new)>(key: T -> int)
    ensures TotalPreorder(Ascending(key))
  {
  }

  lemma DescendingTotal<T(!new)>(key: T -> int)
    ensures TotalPreorder(Descending(key))
  {
  }

  /** The head of an ascending sort is a record with the least key. */
  lemma SortedHead<T(!new)>(s: seq<T>, key: T -> int)
    ensures var r := SortBy(s, Ascending(key));
      (r != [] <==> s != []) &&
      (r != [] ==> r[0] in s && forall x :: x in s ==> key(r[0]) <= key(x))
  {
    var r := SortBy(s, Ascending(key));
    AscendingTotal(key);
    SortBySorted(s, Ascending(key));
    SortByMembers(s, Ascending(key));
    if r != [] {
      forall x | x in s ensures key(r[0]) <= key(x) {
        var j :| 0 <= j < |r| && r[j] == x;
        if j > 0 {
          assert Ascending(key)(r[0], r[j]);
        }
      }
    }
  }

  /** Binary string order, which is how MongoDB and `Array.prototype.sort` compare strings. */
  predicate LexLe(a: string, b: string) {
    a == [] || (b != [] && (a[0] < b[0] || (a[0] == b[0] && LexLe(a[1..], b[1..]))))
  }

  lemma {:induction false} LexLeTotal(a: string, b: string)
    ensures LexLe(a, b) || LexLe(b, a)
  {
    if a != [] && b != [] && a[0] == b[0] {
      LexLeTotal(a[1..], b[1..]);
    }
  }

  lemma {:induction false} LexLeTransitive(a: string, b: string, c: string)
    requires LexLe(a, b) && LexLe(b, c)
    ensures LexLe(a, c)
  {
    if a != [] && a[0] == b[0] && b[0] == c[0] {
      LexLeTransitive(a[1..], b[1..], c[1..]);
    }
  }

  lemma {:induction false} LexLeAntisymmetric(a: string, b: string)
    requires LexLe(a, b) && LexLe(b, a)
    ensures a == b
  {
    if a != [] {
      LexLeAntisymmetric(a[1..], b[1..]);
      assert a == [a[0]] + a[1..] && b == [b[0]] + b[1..];
    }
  }

  /** `{ key: 1 }` on a string field. */
  function AscendingText<T>(key: T -> string): (T, T) -> bool {
    (a, b) => LexLe(key(a), key(b))
  }

  lemma AscendingTextTotal<T(!new)>(key: T -> string)
    ensures TotalPreorder(AscendingText(key))
  {
    forall a: T, b: T ensures LexLe(key(a), key(b)) || LexLe(key(b), key(a)) {
      LexLeTotal(key(a), key(b));
    }
    forall a: T, b: T, c: T | LexLe(key(a), key(b)) && LexLe(key(b), key(c))
      ensures LexLe(key(a), key(c))
    {
      LexLeTransitive(key(a), key(b), key(c));
    }
  }

  /** `{ first: 1, second: 1 }`: an int key first, then a string key. */
  function AscendingThen<T>(first: T -> int, second: T -> string): (T, T) -> bool {
    (a, b) => first(a) < first(b) || (first(a) == first(b) && LexLe(second(a), second(b)))
  }

  lemma AscendingThenTotal<T(!new)>(first: T -> int, second: T -> string)
    ensures TotalPreorder(AscendingThen(first, second))
  {
    forall a: T, b: T ensures LexLe(second(a), second(b)) || LexLe(second(b), second(a)) {
      LexLeTotal(second(a), second(b));
    }
    forall a: T, b: T, c: T | LexLe(second(a), second(b)) && LexLe(second(b), second(c))
      ensures LexLe(second(a), second(c))
    {
      LexLeTransitive(second(a), second(b), second(c));
    }
  }

  // ---------------------------------------------------------------------------------------
  // Paging.

  /** The `page` and `limit` query parameters, as the positive numbers the queries expect. */
  type Positive = n: int | n >= 1 witness 1

  function Min(a: int, b: int): int { if a <= b then a else b }

  /** `.skip((page - 1) * limit).limit(limit)` */
  function PageOf<T>(s: seq<T>, page: Positive, limit: Positive): (r: seq<T>)
    ensures |r| <= limit
    ensures (page - 1) * limit >= |s| ==> r == []
    ensures (page - 1) * limit < |s| ==> (page - 1) * limit + |r| <= |s|
    ensures forall i :: 0 <= i < |r| ==> r[i] == s[(page - 1) * limit + i]
  {
    MulMonotone(0, page - 1, limit);
    Window(s, (page - 1) * limit, limit)
  }

  /** The at most `limit` elements after the first `skip`. */
  function Window<T>(s: seq<T>, skip: nat, limit: nat): (r: seq<T>)
    ensures |r| <= limit
    ensures skip >= |s| ==> r == []
    ensures skip < |s| ==> skip + |r| <= |s|
    ensures forall i :: 0 <= i < |r| ==> r[i] == s[skip + i]
  {
    if skip >= |s| then [] else s[skip..Min(skip + limit, |s|)]
  }

  /** `Math.ceil(total / limit)` */
  function PageCount(total: nat, limit: Positive): (pages: nat)
    ensures total == 0 ==> pages == 0
    ensures total > 0 ==> (pages - 1) * limit < total <= pages * limit
  {
    var q := (total + limit - 1) / limit;
    assert q * limit <= total + limit - 1 < (q + 1) * limit;
    q
  }

  lemma MulMonotone(a: int, b: int, c: nat)
    requires a <= b
    ensures a * c <= b * c
  {
  }

  /** Record `i` is shown on page `i / limit + 1`, at position `i % limit`, and that page exists. */
  lemma OnPage<T>(s: seq<T>, i: nat, limit: Positive) returns (page: Positive)
    requires i < |s|
    ensures page == i / limit + 1 && page <= PageCount(|s|, limit)
    ensures i % limit < |PageOf(s, page, limit)| && PageOf(s, page, limit)[i % limit] == s[i]
  {
    page := PageExists(|s|, i, limit);
    var skip := PageStart(s, i, limit);
    var w := Window(s, skip, limit);
    assert i % limit < |w| by {
      if |w| <= i % limit {
        WindowShort(s, skip, limit);
      }
    }
  }

  /** The page of record `i` starts `i % limit` records before it. */
  lemma PageStart<T>(s: seq<T>, i: nat, limit: Positive) returns (skip: nat)
    ensures skip + i % limit == i && PageOf(s, i / limit + 1, limit) == Window(s, skip, limit)
  {
    var q := i / limit;
    MulMonotone(0, q, limit);
    skip := q * limit;
  }

  /** A window shorter than `limit` runs to the end of the list. */
  lemma WindowShort<T>(s: seq<T>, skip: nat, limit: nat)
    requires skip < |s| && |Window(s, skip, limit)| < limit
    ensures skip + |Window(s, skip, limit)| == |s|
  {
  }

  /** Record `i` of `total` lies on one of the `PageCount` pages. */
  lemma PageExists(total: nat, i: nat, limit: Positive) returns (page: Positive)
    requires i < total
    ensures page == i / limit + 1 && page <= PageCount(total, limit)
  {
    var q, n := i / limit, PageCount(total, limit);
    assert q * limit <= i;
    if q >= n {
      MulMonotone(n, q, limit);
      assert false;
    }
    page := q + 1;
  }

  /** A page of a sorted list is itself sorted. */
  lemma PageSorted<T>(s: seq<T>, page: Positive, limit: Positive, le: (T, T) -> bool)
    requires SortedBy(s, le)
    ensures SortedBy(PageOf(s, page, limit), le)
  {
    var r := PageOf(s, page, limit);
    forall i, j | 0 <= i < j < |r| ensures le(r[i], r[j]) {
      assert r[i] == s[(page - 1) * limit + i] && r[j] == s[(page - 1) * limit + j];
    }
  }

  /** A list response: one page of rows and the `{ total, page, pages }` pagination block. */
  datatype Paged<T> = Paged(data: seq<T>, total: nat, page: int, pages: nat)

  function Paginate<T>(rows: seq<T>, page: Positive, limit: Positive): Paged<T> {
    Paged(PageOf(rows, page, limit), |rows|, page, PageCount(|rows|, limit))
  }

  /**
   * A list query: the records `p` keeps, in the order `le`, one page of them, with the
   * count of all matches and the number of pages.
   */
  function ListQuery<T>(s: seq<T>, p: T -> bool, le: (T, T) -> bool, page: Positive, limit: Positive): (r: Paged<T>)
    ensures |r.data| <= limit && r.page == page
    ensures r.total == Count(s, p) && r.pages == PageCount(r.total, limit)
    ensures forall x :: x in r.data ==> x in s && p(x)
  {
    var matching := Filter(s, p);
    SortByMembers(matching, le);
    FilterMembers(s, p);
    PageMembers(SortBy(matching, le), page, limit);
    Paginate(SortBy(matching, le), page, limit)
  }

  lemma PageMembers<T>(s: seq<T>, page: Positive, limit: Positive)
    ensures forall x :: x in PageOf(s, page, limit) ==> x in s
  {
    var r := PageOf(s, page, limit);
    forall x | x in r ensures x in s {
      var i :| 0 <= i < |r| && r[i] == x;
      assert x == s[(page - 1) * limit + i];
    }
  }

  /** Every page of a list query is in the query's order. */
  lemma ListQuerySorted<T(!new)>(s: seq<T>, p: T -> bool, le: (T, T) -> bool, page: Positive, limit: Positive)
    requires TotalPreorder(le)
    ensures SortedBy(ListQuery(s, p, le, page, limit).data, le)
  {
    SortBySorted(Filter(s, p), le);
    PageSorted(SortBy(Filter(s, p), le), page, limit, le);
  }

  /**
   * Nothing the predicate keeps is lost: every matching record is on one of the query's
   * `pages` pages (the page of its place in the sorted matches).
   */
  lemma ListQueryComplete<T>(s: seq<T>, p: T -> bool, le: (T, T) -> bool, limit: Positive, x: T)
    requires x in s && p(x)
    ensures exists page: Positive :: page <= ListQuery(s, p, le, page, limit).pages && x in ListQuery(s, p, le, page, limit).data
  {
    var sorted := SortBy(Filter(s, p), le);
    var i := SortedIndexOf(s, p, le, x);
    var page := ShownOn(sorted, i, limit);
    ListQueryPage(s, p, le, page, limit);
    assert page <= ListQuery(s, p, le, page, limit).pages && x in ListQuery(s, p, le, page, limit).data;
  }

  /** `OnPage` without the arithmetic: record `i` is on some existing page. */
  lemma ShownOn<T>(s: seq<T>, i: nat, limit: Positive) returns (page: Positive)
    requires i < |s|
    ensures page <= PageCount(|s|, limit) && s[i] in PageOf(s, page, limit)
  {
    page := OnPage(s, i, limit);
    assert PageOf(s, page, limit)[i % limit] == s[i];
  }

  /** A matching record has a place in the sorted matches. */
  lemma SortedIndexOf<T>(s: seq<T>, p: T -> bool, le: (T, T) -> bool, x: T) returns (i: nat)
    requires x in s && p(x)
    ensures i < |SortBy(Filter(s, p), le)| && SortBy(Filter(s, p), le)[i] == x
  {
    var matching := Filter(s, p);
    var sorted := SortBy(matching, le);
    var j :| 0 <= j < |s| && s[j] == x;
    assert x in matching;
    assert x in multiset(matching);
    assert x in multiset(sorted);
    i :| 0 <= i < |sorted| && sorted[i] == x;
  }

  /** A page of a list query is that page of the sorted matches, out of `PageCount` pages. */
  lemma ListQueryPage<T>(s: seq<T>, p: T -> bool, le: (T, T) -> bool, page: Positive, limit: Positive)
    ensures ListQuery(s, p, le, page, limit).data == PageOf(SortBy(Filter(s, p), le), page, limit)
    ensures ListQuery(s, p, le, page, limit).pages == PageCount(|SortBy(Filter(s, p), le)|, limit)
  {
  }

  /** A list query depends only on which records its predicate keeps. */
  lemma ListQueryExt<T>(s: seq<T>, p: T -> bool, q: T -> bool, le: (T, T) -> bool, page: Positive, limit: Positive)
    requires forall x :: x in s ==> p(x) == q(x)
    ensures ListQuery(s, p, le, page, limit) == ListQuery(s, q, le, page, limit)
  {
    FilterExt(s, p, q);
  }
}
