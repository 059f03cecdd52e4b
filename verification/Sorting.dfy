/** What WHERE, ORDER BY and LIMIT mean on a table given as a sequence of rows. */
module Sorting {

  function Filter<T>(s: seq<T>, p: T -> bool): seq<T> {
    if s == [] then [] else (if p(s[0]) then [s[0]] else []) + Filter(s[1..], p)
  }

  function Insert<T>(x: T, s: seq<T>, less: (T, T) -> bool): seq<T> {
    if s == [] then [x]
    else if less(x, s[0]) then [x] + s
    else [s[0]] + Insert(x, s[1..], less)
  }

  function SortBy<T>(s: seq<T>, less: (T, T) -> bool): seq<T> {
    if s == [] then [] else Insert(s[0], SortBy(s[1..], less), less)
  }

  function Reverse<T>(s: seq<T>): (r: seq<T>)
    ensures |r| == |s| && forall i :: 0 <= i < |s| ==> r[i] == s[|s| - 1 - i]
  {
    seq(|s|, i requires 0 <= i < |s| => s[|s| - 1 - i])
  }

  predicate Distinct<T(==)>(s: seq<T>) {
    forall i, j :: 0 <= i < j < |s| ==> s[i] != s[j]
  }

  ghost predicate Sorted<T>(s: seq<T>, less: (T, T) -> bool) {
    forall i, j :: 0 <= i < j < |s| ==> less(s[i], s[j])
  }

  /** `less` orders the members of `s` strictly and leaves no two of them undecided. */
  ghost predicate StrictTotal<T(!new)>(s: seq<T>, less: (T, T) -> bool) {
    && (forall a, b :: a in s && b in s ==> !(less(a, b) && less(b, a)))
    && (forall a, b :: a in s && b in s && a != b ==> less(a, b) || less(b, a))
    && (forall a, b, c :: a in s && b in s && c in s && less(a, b) && less(b, c) ==> less(a, c))
  }

  lemma StrictTotalOnSubset<T(!new)>(s: seq<T>, t: seq<T>, less: (T, T) -> bool)
    requires StrictTotal(s, less) && forall x :: x in t ==> x in s
    ensures StrictTotal(t, less)
  {
  }

  lemma ReverseMembers<T(!new)>(s: seq<T>)
    ensures forall x :: x in Reverse(s) <==> x in s
  {
    forall x | x in s ensures x in Reverse(s) {
      var i :| 0 <= i < |s| && s[i] == x;
      assert Reverse(s)[|s| - 1 - i] == x;
    }
  }

  lemma ReverseTake<T>(s: seq<T>, n: nat)
    requires n <= |s|
    ensures Reverse(Reverse(s)[..n]) == s[|s| - n..]
  {
  }

  lemma SortedReverse<T(!new)>(s: seq<T>, less: (T, T) -> bool, converse: (T, T) -> bool)
    requires Sorted(s, less)
    requires forall a, b :: a in s && b in s ==> (converse(a, b) <==> less(b, a))
    ensures Sorted(Reverse(s), converse)
  {
    var r := Reverse(s);
    forall i, j | 0 <= i < j < |r| ensures converse(r[i], r[j]) {
      assert less(s[|s| - 1 - j], s[|s| - 1 - i]);
    }
  }

  lemma {:induction false} FilterMembers<T>(s: seq<T>, p: T -> bool)
    ensures forall x :: x in Filter(s, p) <==> x in s && p(x)
    ensures Distinct(s) ==> Distinct(Filter(s, p))
  {
    if s != [] {
      FilterMembers(s[1..], p);
      assert s == [s[0]] + s[1..];
      if Distinct(s) {
        assert s[0] !in s[1..];
      }
    }
  }

  lemma {:induction false} InsertSorted<T(!new)>(x: T, s: seq<T>, less: (T, T) -> bool)
    requires StrictTotal([x] + s, less) && Sorted(s, less) && x !in s
    ensures Sorted(Insert(x, s, less), less)
    ensures forall y :: y in Insert(x, s, less) <==> y == x || y in s
  {
    if s != [] && !less(x, s[0]) {
      assert s == [s[0]] + s[1..];
      assert forall y :: y in [x] + s[1..] ==> y in [x] + s;
      InsertSorted(x, s[1..], less);
      assert s[0] in [x] + s && x in [x] + s;
      var rest := Insert(x, s[1..], less);
      forall j | 0 <= j < |rest| ensures less(s[0], rest[j]) {
        assert rest[j] in rest;
      }
    } else if s != [] {
      forall j | 0 <= j < |s| ensures less(x, s[j]) {
        assert x in [x] + s && s[0] in [x] + s && s[j] in [x] + s;
      }
    }
  }

  lemma {:induction false} SortBySorts<T(!new)>(s: seq<T>, less: (T, T) -> bool)
    requires StrictTotal(s, less) && Distinct(s)
    ensures Sorted(SortBy(s, less), less)
    ensures forall x :: x in SortBy(s, less) <==> x in s
  {
    if s != [] {
      assert s == [s[0]] + s[1..];
      SortBySorts(s[1..], less);
      assert s[0] !in s[1..];
      InsertSorted(s[0], SortBy(s[1..], less), less);
    }
  }

  lemma {:induction false} SortByLength<T>(s: seq<T>, less: (T, T) -> bool)
    ensures |SortBy(s, less)| == |s|
  {
    if s != [] {
      SortByLength(s[1..], less);
      InsertLength(s[0], SortBy(s[1..], less), less);
    }
  }

  lemma {:induction false} InsertLength<T>(x: T, s: seq<T>, less: (T, T) -> bool)
    ensures |Insert(x, s, less)| == |s| + 1
  {
    if s != [] && !less(x, s[0]) {
      InsertLength(x, s[1..], less);
    }
  }

  /** A strict order leaves one way to sort a set of rows. */
  lemma {:induction false} SortedIsUnique<T(!new)>(s: seq<T>, t: seq<T>, less: (T, T) -> bool)
    requires Sorted(s, less) && Sorted(t, less)
    requires forall x :: x in s <==> x in t
    requires forall a, b :: a in s && b in s ==> !(less(a, b) && less(b, a))
    ensures s == t
  {
    if s == [] {
      assert forall i :: 0 <= i < |t| ==> t[i] in s;
    } else {
      assert s[0] in t && t[0] in s;
      assert s[0] == t[0];
      assert !less(s[0], s[0]);
      assert forall j :: 1 <= j < |s| ==> less(s[0], s[j]);
      assert forall j :: 1 <= j < |t| ==> less(t[0], t[j]);
      forall x ensures x in s[1..] <==> x in t[1..] {
        assert x in s <==> x == s[0] || x in s[1..];
        assert x in t <==> x == t[0] || x in t[1..];
      }
      SortedIsUnique(s[1..], t[1..], less);
    }
  }
}
