/** A stable sort, the way `sorted` orders a list. */
module Sorting {
  /** `leads` is total and transitive; `leads(a, b)` lets `a` stand before `b`. */
  ghost predicate Ordering<T(!new)>(leads: (T, T) -> bool) {
    && (forall a, b :: leads(a, b) || leads(b, a))
    && (forall a, b, c :: leads(a, b) && leads(b, c) ==> leads(a, c))
  }

  ghost predicate Ordered<T>(s: seq<T>, leads: (T, T) -> bool) {
    forall i, j :: 0 <= i < j < |s| ==> leads(s[i], s[j])
  }

  function Insert<T>(x: T, s: seq<T>, leads: (T, T) -> bool): (r: seq<T>)
    ensures |r| == |s| + 1
  {
    if s == [] || leads(x, s[0]) then [x] + s else [s[0]] + Insert(x, s[1..], leads)
  }

  function Sort<T>(s: seq<T>, leads: (T, T) -> bool): (r: seq<T>)
    ensures |r| == |s|
  {
    if s == [] then [] else Insert(s[0], Sort(s[1..], leads), leads)
  }

  lemma {:induction false} InsertKeepsElements<T>(x: T, s: seq<T>, leads: (T, T) -> bool)
    ensures multiset(Insert(x, s, leads)) == multiset(s) + multiset{x}
  {
    if s != [] && !leads(x, s[0]) {
      InsertKeepsElements(x, s[1..], leads);
      assert s == [s[0]] + s[1..];
    }
  }

  lemma {:induction false} InsertMembers<T>(x: T, s: seq<T>, leads: (T, T) -> bool, y: T)
    requires y in Insert(x, s, leads)
    ensures y == x || y in s
  {
    if s != [] && !leads(x, s[0]) && y != s[0] {
      InsertMembers(x, s[1..], leads, y);
    }
  }

  lemma OrderedCons<T>(head: T, s: seq<T>, leads: (T, T) -> bool)
    requires Ordered(s, leads) && forall y :: y in s ==> leads(head, y)
    ensures Ordered([head] + s, leads)
  {
  }

  lemma {:induction false} InsertOrdered<T(!new)>(x: T, s: seq<T>, leads: (T, T) -> bool)
    requires Ordering(leads) && Ordered(s, leads)
    ensures Ordered(Insert(x, s, leads), leads)
  {
    if s == [] || leads(x, s[0]) {
      OrderedCons(x, s, leads);
    } else {
      InsertOrdered(x, s[1..], leads);
      forall y | y in Insert(x, s[1..], leads)
        ensures leads(s[0], y)
      {
        InsertMembers(x, s[1..], leads, y);
      }
      OrderedCons(s[0], Insert(x, s[1..], leads), leads);
    }
  }

  predicate Tied<T>(a: T, b: T, leads: (T, T) -> bool) {
    leads(a, b) && leads(b, a)
  }

  /** The elements tied with `x`, in order. */
  function TiesOf<T>(x: T, s: seq<T>, leads: (T, T) -> bool): seq<T> {
    if s == [] then [] else (if Tied(x, s[0], leads) then [s[0]] else []) + TiesOf(x, s[1..], leads)
  }

  lemma {:induction false} InsertKeepsTies<T(!new)>(x: T, y: T, s: seq<T>, leads: (T, T) -> bool)
    requires Ordering(leads)
    ensures TiesOf(x, Insert(y, s, leads), leads) == TiesOf(x, [y] + s, leads)
  {
    if s != [] && !leads(y, s[0]) {
      InsertKeepsTies(x, y, s[1..], leads);
      var rest := Insert(y, s[1..], leads);
      assert ([s[0]] + rest)[1..] == rest && ([y] + s[1..])[1..] == s[1..] && ([y] + s)[1..] == s;
    }
  }

  /** Sorted, nothing lost or repeated, and ties left in the order they came. */
  lemma {:induction false} SortIsStable<T(!new)>(s: seq<T>, leads: (T, T) -> bool)
    requires Ordering(leads)
    ensures Ordered(Sort(s, leads), leads) && multiset(Sort(s, leads)) == multiset(s)
    ensures forall x :: TiesOf(x, Sort(s, leads), leads) == TiesOf(x, s, leads)
  {
    if s != [] {
      SortIsStable(s[1..], leads);
      var rest := Sort(s[1..], leads);
      InsertOrdered(s[0], rest, leads);
      InsertKeepsElements(s[0], rest, leads);
      assert s == [s[0]] + s[1..];
      forall x
        ensures TiesOf(x, Sort(s, leads), leads) == TiesOf(x, s, leads)
      {
        InsertKeepsTies(x, s[0], rest, leads);
        assert ([s[0]] + rest)[1..] == rest;
      }
    }
  }
}
