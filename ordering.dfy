/**
 * What `ORDER BY` promises of the rows a query returns: they are the same
 * rows, and they are sorted by the comparison. The store's own sort is not
 * part of the program; `SortBy` is a reference definition (a stable
 * insertion sort) that the table model uses to produce one such order.
 */
module Ordering {
  import opened Common

  /** A comparison `ORDER BY` can sort by: total and transitive. */
  ghost predicate TotalPreorder<T(!new)>(le: (T, T) -> bool) {
    && (forall a, b :: le(a, b) || le(b, a))
    && (forall a, b, c :: le(a, b) && le(b, c) ==> le(a, c))
  }

  predicate Sorted<T>(s: seq<T>, le: (T, T) -> bool) {
    forall i, j | 0 <= i < j < |s| :: le(s[i], s[j])
  }

  /** Put `x` before the first element it is not after. */
  function Insert<T>(x: T, s: seq<T>, le: (T, T) -> bool): (r: seq<T>)
    ensures multiset(r) == multiset(s) + multiset{x}
  {
    if s == [] then [x]
    else if le(x, s[0]) then [x] + s
    else
      assert s == [s[0]] + s[1..];
      [s[0]] + Insert(x, s[1..], le)
  }

  /** The rows in the order `ORDER BY` gives them; equal keys keep the scan order. */
  function SortBy<T>(s: seq<T>, le: (T, T) -> bool): (r: seq<T>)
    ensures multiset(r) == multiset(s)
  {
    if s == [] then []
    else
      assert s == [s[0]] + s[1..];
      Insert(s[0], SortBy(s[1..], le), le)
  }

  lemma {:induction false} InsertSorted<T(!new)>(x: T, s: seq<T>, le: (T, T) -> bool)
    requires TotalPreorder(le) && Sorted(s, le)
    ensures Sorted(Insert(x, s, le), le)
  {
    if s != [] && !le(x, s[0]) {
      var rest := Insert(x, s[1..], le);
      InsertSorted(x, s[1..], le);
      assert le(s[0], x);
      forall y | y in rest
        ensures le(s[0], y)
      {
        assert y in multiset(rest);
        if y != x {
          assert y in multiset(s[1..]);
          var k :| 0 <= k < |s[1..]| && s[1..][k] == y;
          assert s[k + 1] == y;
        }
      }
      var r := [s[0]] + rest;
      forall i, j | 0 <= i < j < |r|
        ensures le(r[i], r[j])
      {
        if i == 0 {
          assert r[j] == rest[j - 1];
          assert r[j] in rest;
        } else {
          assert r[i] == rest[i - 1] && r[j] == rest[j - 1];
        }
      }
    }
  }

  /** The rows `SortBy` returns are sorted. */
  lemma {:induction false} SortBySorted<T(!new)>(s: seq<T>, le: (T, T) -> bool)
    requires TotalPreorder(le)
    ensures Sorted(SortBy(s, le), le)
  {
    if s != [] {
      SortBySorted(s[1..], le);
      InsertSorted(s[0], SortBy(s[1..], le), le);
    }
  }

  // ----- the column orders -----

  /** MySQL's comparison of two strings, taken as code-unit lexicographic order. */
  predicate StringLe(a: string, b: string) {
    if a == [] then true
    else if b == [] then false
    else a[0] < b[0] || (a[0] == b[0] && StringLe(a[1..], b[1..]))
  }

  lemma {:induction false} StringLeTotal(a: string, b: string)
    ensures StringLe(a, b) || StringLe(b, a)
  {
    if a != [] && b != [] && a[0] == b[0] {
      StringLeTotal(a[1..], b[1..]);
    }
  }

  lemma {:induction false} StringLeTransitive(a: string, b: string, c: string)
    requires StringLe(a, b) && StringLe(b, c)
    ensures StringLe(a, c)
  {
    if a != [] && b != [] && c != [] && a[0] == b[0] && b[0] == c[0] {
      StringLeTransitive(a[1..], b[1..], c[1..]);
    }
  }

  /** `ORDER BY col` on a nullable text column: NULL sorts first. */
  predicate NullsFirstLe(a: Option<string>, b: Option<string>) {
    match a
    case None => true
    case Some(x) => b.Some? && StringLe(x, b.value)
  }

  /** `ORDER BY col DESC` on a nullable time column: latest first, NULL last. */
  predicate NullsLastDescLe(a: Option<nat>, b: Option<nat>) {
    match b
    case None => true
    case Some(y) => a.Some? && a.value >= y
  }

  lemma NullsFirstLeIsTotalPreorder()
    ensures TotalPreorder(NullsFirstLe)
  {
    forall a: Option<string>, b: Option<string>
      ensures NullsFirstLe(a, b) || NullsFirstLe(b, a)
    {
      if a.Some? && b.Some? {
        StringLeTotal(a.value, b.value);
      }
    }
    forall a: Option<string>, b: Option<string>, c: Option<string> | NullsFirstLe(a, b) && NullsFirstLe(b, c)
      ensures NullsFirstLe(a, c)
    {
      if a.Some? {
        StringLeTransitive(a.value, b.value, c.value);
      }
    }
  }

  lemma NullsLastDescLeIsTotalPreorder()
    ensures TotalPreorder(NullsLastDescLe)
  {
  }
}
