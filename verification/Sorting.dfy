/** Sorting by a strict order, and the uniqueness of sorted listings on which every
    canonical listing of the program rests. */
module Sorting {

  /** A strict weak order: what a comparison passed to a library sort has to be. */
  ghost predicate StrictWeak<T(!new)>(less: (T, T) -> bool) {
    && (forall x, y :: less(x, y) ==> !less(y, x))
    && (forall x, y, z :: less(x, z) ==> less(x, y) || less(y, z))
  }

  /** A strict total order: incomparable elements are identical. */
  ghost predicate StrictTotal<T(!new)>(less: (T, T) -> bool) {
    && StrictWeak(less)
    && (forall x, y :: x == y || less(x, y) || less(y, x))
  }

  ghost predicate Sorted<T>(less: (T, T) -> bool, s: seq<T>) {
    forall i, j | 0 <= i < j < |s| :: !less(s[j], s[i])
  }

  ghost predicate StrictlySorted<T>(less: (T, T) -> bool, s: seq<T>) {
    forall i, j | 0 <= i < j < |s| :: less(s[i], s[j])
  }

  function Insert<T>(less: (T, T) -> bool, x: T, s: seq<T>): (r: seq<T>)
    ensures multiset(r) == multiset{x} + multiset(s)
  {
    if s == [] then [x]
    else if less(s[0], x) then
      assert s == [s[0]] + s[1..];
      [s[0]] + Insert(less, x, s[1..])
    else [x] + s
  }

  lemma InsertedIs<T(!new)>(less: (T, T) -> bool, x: T, s: seq<T>, y: T)
    ensures y in Insert(less, x, s) <==> y == x || y in s
  {
    hide Insert;
    assert y in Insert(less, x, s) <==> y in multiset(Insert(less, x, s));
  }

  /** A sorted permutation of `s`. */
  function Sort<T>(less: (T, T) -> bool, s: seq<T>): (r: seq<T>)
    ensures multiset(r) == multiset(s)
  {
    if s == [] then [] else
      assert s == [s[0]] + s[1..];
      Insert(less, s[0], Sort(less, s[1..]))
  }

  lemma {:induction false} InsertSorts<T(!new)>(less: (T, T) -> bool, x: T, s: seq<T>)
    requires StrictWeak(less) && Sorted(less, s)
    ensures Sorted(less, Insert(less, x, s))
  {
    if s == [] {
    } else if less(s[0], x) {
      InsertSorts(less, x, s[1..]);
      var r := Insert(less, x, s[1..]);
      forall j | 0 <= j < |r| ensures !less(r[j], s[0]) { InsertedIs(less, x, s[1..], r[j]); }
    }
  }

  lemma {:induction false} SortSorts<T(!new)>(less: (T, T) -> bool, s: seq<T>)
    requires StrictWeak(less)
    ensures Sorted(less, Sort(less, s))
  {
    if s != [] {
      SortSorts(less, s[1..]);
      InsertSorts(less, s[0], Sort(less, s[1..]));
    }
  }

  lemma {:induction false} SortOfSorted<T>(less: (T, T) -> bool, s: seq<T>)
    requires Sorted(less, s)
    ensures Sort(less, s) == s
  {
    if s != [] { SortOfSorted(less, s[1..]); }
  }

  /** Two strictly sorted sequences with the same elements are the same sequence. */
  lemma {:induction false} StrictlySortedUnique<T(!new)>(less: (T, T) -> bool, s: seq<T>, t: seq<T>)
    requires StrictWeak(less)
    requires StrictlySorted(less, s) && StrictlySorted(less, t)
    requires forall x :: x in s <==> x in t
    ensures s == t
  {
    if s == [] {
      assert forall k | 0 <= k < |t| :: t[k] in t;
    } else {
      assert s[0] in t;
      assert t[0] in s;
      assert s[0] == t[0];
      forall x ensures x in s[1..] <==> x in t[1..] {
        if x in s[1..] {
          assert x in s && less(s[0], x);
          assert x in t && x != t[0];
        }
        if x in t[1..] {
          assert x in t && less(t[0], x);
          assert x in s && x != s[0];
        }
      }
      StrictlySortedUnique(less, s[1..], t[1..]);
    }
  }

  /** No two elements tie. */
  ghost predicate Comparable<T>(less: (T, T) -> bool, s: seq<T>) {
    forall i, j | 0 <= i < j < |s| :: less(s[i], s[j]) || less(s[j], s[i])
  }

  /** Sorting elements of which no two tie leaves none out of place. */
  lemma SortStrictly<T(!new)>(less: (T, T) -> bool, s: seq<T>)
    requires StrictWeak(less) && Comparable(less, s)
    ensures StrictlySorted(less, Sort(less, s))
    ensures forall x :: x in Sort(less, s) <==> x in s
  {
    SortSorts(less, s);
    var r := Sort(less, s);
    SameElements(r, s);
    DistinctMultiset(s);
    forall i, j | 0 <= i < j < |r| ensures less(r[i], r[j]) {
      if r[i] == r[j] { TwiceInMultiset(r, i, j); }
      assert r[i] in s && r[j] in s;
    }
  }

  lemma SameElements<T>(s: seq<T>, t: seq<T>)
    requires multiset(s) == multiset(t)
    ensures forall x :: x in s <==> x in t
  {
    forall x ensures x in s <==> x in t {
      assert x in s <==> x in multiset(s);
      assert x in t <==> x in multiset(t);
    }
  }

  lemma {:induction false} DistinctMultiset<T>(s: seq<T>)
    requires forall i, j | 0 <= i < j < |s| :: s[i] != s[j]
    ensures forall x :: multiset(s)[x] <= 1
  {
    if s != [] {
      DistinctMultiset(s[1..]);
      assert s == [s[0]] + s[1..];
      assert s[0] !in s[1..];
      assert s[0] !in multiset(s[1..]);
    }
  }

  lemma TwiceInMultiset<T>(s: seq<T>, i: nat, j: nat)
    requires i < j < |s| && s[i] == s[j]
    ensures multiset(s)[s[i]] >= 2
  {
    assert s == s[..j] + [s[j]] + s[j + 1..];
    assert s[i] in s[..j];
    assert s[i] in multiset(s[..j]);
  }

  /** Drops every element equal to its predecessor. */
  function Compact<T(==,!new)>(s: seq<T>): (r: seq<T>)
    ensures forall k :: k in r <==> k in s
    ensures s != [] ==> r != [] && r[0] == s[0]
  {
    if |s| <= 1 then s
    else if s[0] == s[1] then
      var r := Compact(s[1..]);
      assert s == [s[0]] + s[1..];
      r
    else
      assert s == [s[0]] + s[1..];
      [s[0]] + Compact(s[1..])
  }

  lemma {:induction false} CompactSorted<T(!new)>(less: (T, T) -> bool, s: seq<T>)
    requires StrictTotal(less) && Sorted(less, s)
    ensures StrictlySorted(less, Compact(s))
  {
    if |s| > 1 {
      CompactSorted(less, s[1..]);
      if s[0] != s[1] {
        var r := Compact(s[1..]);
        forall j | 0 <= j < |r| ensures less(s[0], r[j]) {
          assert r[j] in s[1..];
        }
      }
    }
  }

  /** The elements of `s`, each once, in order. */
  function Listing<T(==,!new)>(less: (T, T) -> bool, s: seq<T>): seq<T> { Compact(Sort(less, s)) }

  lemma ListingLists<T(!new)>(less: (T, T) -> bool, s: seq<T>)
    requires StrictTotal(less)
    ensures StrictlySorted(less, Listing(less, s))
    ensures forall x :: x in Listing(less, s) <==> x in s
  {
    SortSorts(less, s);
    CompactSorted(less, Sort(less, s));
    SameElements(Sort(less, s), s);
  }

  /** `listing` has the elements of `all`, each once, in order. */
  ghost predicate Lists<T(!new)>(less: (T, T) -> bool, listing: seq<T>, all: set<T>) {
    StrictlySorted(less, listing) && forall x :: x in listing <==> x in all
  }

  lemma {:induction false} ListingExists<T(!new)>(less: (T, T) -> bool, all: set<T>)
    requires StrictTotal(less)
    ensures exists listing :: Lists(less, listing, all)
  {
    if all == {} {
      assert Lists(less, [], all);
    } else {
      var x :| x in all;
      ListingExists(less, all - {x});
      var rest :| Lists(less, rest, all - {x});
      ListingLists(less, [x] + rest);
      assert Lists(less, Listing(less, [x] + rest), all);
    }
  }

  ghost function Listed<T(!new)>(less: (T, T) -> bool, all: set<T>): (listing: seq<T>)
    requires StrictTotal(less)
    ensures Lists(less, listing, all)
  {
    ListingExists(less, all);
    var listing :| Lists(less, listing, all);
    listing
  }
}
