/** Linear-interpolation percentiles over exact reals (`percentile`). */
module Percentile {
  import opened Wrappers
  import Sorting

  ghost predicate Ascending(s: seq<real>) {
    forall i, j :: 0 <= i < j < |s| ==> s[i] <= s[j]
  }

  predicate AtMost(a: real, b: real) {
    a <= b
  }

  /** `sorted(values)`. */
  function Sort(values: seq<real>): (r: seq<real>)
    ensures |r| == |values|
  {
    Sorting.Sort(values, AtMost)
  }

  lemma SortIsSorting(values: seq<real>)
    ensures Ascending(Sort(values))
    ensures multiset(Sort(values)) == multiset(values)
  {
    Sorting.SortIsStable(values, AtMost);
    var sorted := Sort(values);
    forall i, j | 0 <= i < j < |sorted|
      ensures sorted[i] <= sorted[j]
    {
      assert AtMost(sorted[i], sorted[j]);
    }
  }

  function Floor(x: real): int {
    x.Floor
  }

  function Ceil(x: real): int {
    -((-x).Floor)
  }

  /** The interpolated value at position `pos` of an ascending, non-empty list. */
  function At(clean: seq<real>, pos: real): real
    requires clean != [] && 0.0 <= pos <= (|clean| - 1) as real
  {
    var lo, hi := Floor(pos), Ceil(pos);
    if lo == hi then clean[lo]
    else
      var frac := pos - lo as real;
      clean[lo] * (1.0 - frac) + clean[hi] * frac
  }

  lemma Scaled(top: real, q: real, r: real)
    requires 0.0 <= top && 0.0 <= q <= r <= 1.0
    ensures 0.0 <= top * q <= top * r <= top
  {
  }

  /** `pos`: the share `q` of the way to the last index. */
  function Position(top: real, q: real): (pos: real)
    requires 0.0 <= top && 0.0 <= q <= 1.0
    ensures 0.0 <= pos <= top
  {
    Scaled(top, q, q);
    top * q
  }

  lemma PositionIsMonotone(top: real, q: real, r: real)
    requires 0.0 <= top && 0.0 <= q <= r <= 1.0
    ensures Position(top, q) <= Position(top, r)
  {
    Scaled(top, q, r);
  }

  function Percentile(values: seq<real>, q: real): Option<real>
    requires 0.0 <= q <= 1.0
  {
    if values == [] then None
    else
      var clean := Sort(values);
      if |clean| == 1 then Some(clean[0]) else Some(At(clean, Position((|clean| - 1) as real, q)))
  }

  /** A convex combination lies between its ends and grows with its weight. */
  lemma Between(a: real, b: real, f: real, g: real)
    requires a <= b && 0.0 <= f <= g <= 1.0
    ensures a <= a * (1.0 - f) + b * f <= a * (1.0 - g) + b * g <= b
  {
    assert a * (1.0 - f) + b * f == a + (b - a) * f;
    assert a * (1.0 - g) + b * g == a + (b - a) * g;
    assert (b - a) * 0.0 <= (b - a) * f <= (b - a) * g <= (b - a) * 1.0;
  }

  /** On its own segment the interpolation stays between the two neighbours. */
  lemma WithinSegment(clean: seq<real>, pos: real)
    requires Ascending(clean)
    requires clean != [] && 0.0 <= pos <= (|clean| - 1) as real
    ensures 0 <= Floor(pos) <= Ceil(pos) < |clean|
    ensures clean[Floor(pos)] <= At(clean, pos) <= clean[Ceil(pos)]
  {
    var lo, hi := Floor(pos), Ceil(pos);
    if lo != hi {
      Between(clean[lo], clean[hi], pos - lo as real, pos - lo as real);
    }
  }

  /** Moving right never lowers the value, inside a segment or across any number of them. */
  lemma AtIsMonotone(clean: seq<real>, p: real, r: real)
    requires Ascending(clean)
    requires clean != [] && 0.0 <= p <= r <= (|clean| - 1) as real
    ensures At(clean, p) <= At(clean, r)
  {
    WithinSegment(clean, p);
    WithinSegment(clean, r);
    if Floor(p) == Floor(r) && Ceil(p) == Ceil(r) && Floor(p) != Ceil(p) {
      Between(clean[Floor(p)], clean[Ceil(p)], p - Floor(p) as real, r - Floor(r) as real);
    } else {
      assert Ceil(p) <= Floor(r) || Floor(p) == Ceil(p);
    }
  }

  lemma PercentileIsMonotone(values: seq<real>, q: real, r: real)
    requires values != [] && 0.0 <= q <= r <= 1.0
    ensures Percentile(values, q).value <= Percentile(values, r).value
  {
    var clean := Sort(values);
    SortIsSorting(values);
    if |clean| > 1 {
      var top := (|clean| - 1) as real;
      PositionIsMonotone(top, q, r);
      AtIsMonotone(clean, Position(top, q), Position(top, r));
    }
  }

  ghost predicate IsMinimum(values: seq<real>, x: real) {
    x in values && forall y :: y in values ==> x <= y
  }

  ghost predicate IsMaximum(values: seq<real>, x: real) {
    x in values && forall y :: y in values ==> y <= x
  }

  lemma SameMembers(a: seq<real>, b: seq<real>, x: real)
    requires multiset(a) == multiset(b)
    ensures x in a <==> x in b
  {
    assert x in a <==> x in multiset(a);
    assert x in b <==> x in multiset(b);
  }

  lemma AscendingEnds(clean: seq<real>, values: seq<real>)
    requires Ascending(clean) && multiset(clean) == multiset(values)
    requires clean != []
    ensures IsMinimum(values, clean[0])
    ensures IsMaximum(values, clean[|clean| - 1])
  {
    SameMembers(clean, values, clean[0]);
    SameMembers(clean, values, clean[|clean| - 1]);
    forall y | y in values
      ensures clean[0] <= y <= clean[|clean| - 1]
    {
      SameMembers(clean, values, y);
      var i :| 0 <= i < |clean| && clean[i] == y;
    }
  }

  lemma SortedEnds(values: seq<real>)
    requires values != []
    ensures IsMinimum(values, Sort(values)[0])
    ensures IsMaximum(values, Sort(values)[|values| - 1])
  {
    SortIsSorting(values);
    AscendingEnds(Sort(values), values);
  }

  lemma AtEnds(clean: seq<real>)
    requires clean != []
    ensures At(clean, 0.0) == clean[0]
    ensures At(clean, (|clean| - 1) as real) == clean[|clean| - 1]
  {
    assert Floor(0.0) == 0 == Ceil(0.0);
    var top := (|clean| - 1) as real;
    assert Floor(top) == |clean| - 1 == Ceil(top);
  }

  lemma PositionAtEnds(top: real)
    requires 0.0 <= top
    ensures Position(top, 0.0) == 0.0 && Position(top, 1.0) == top
  {
    assert top * 0.0 == 0.0 && top * 1.0 == top;
  }

  lemma PercentileAtEnds(values: seq<real>)
    requires values != []
    ensures Percentile(values, 0.0) == Some(Sort(values)[0])
    ensures Percentile(values, 1.0) == Some(Sort(values)[|values| - 1])
  {
    var clean := Sort(values);
    AtEnds(clean);
    PositionAtEnds((|clean| - 1) as real);
  }

  /** The extremes are reached at 0 and 1, and every percentile lies between them. */
  lemma PercentileRange(values: seq<real>, q: real)
    requires values != [] && 0.0 <= q <= 1.0
    ensures IsMinimum(values, Percentile(values, 0.0).value)
    ensures IsMaximum(values, Percentile(values, 1.0).value)
    ensures Percentile(values, 0.0).value <= Percentile(values, q).value <= Percentile(values, 1.0).value
  {
    SortedEnds(values);
    PercentileAtEnds(values);
    PercentileIsMonotone(values, 0.0, q);
    PercentileIsMonotone(values, q, 1.0);
  }

  lemma SameHead(a: seq<real>, b: seq<real>)
    requires Ascending(a) && Ascending(b)
    requires multiset(a) == multiset(b) && a != []
    ensures b != [] && a[0] == b[0]
  {
    assert a[0] in multiset(b);
    assert b[0] in multiset(a);
  }

  lemma SameTail(a: seq<real>, b: seq<real>)
    requires a != [] && b != [] && a[0] == b[0]
    requires multiset(a) == multiset(b)
    ensures multiset(a[1..]) == multiset(b[1..])
  {
    assert a == [a[0]] + a[1..] && b == [b[0]] + b[1..];
    assert multiset(a[1..]) == multiset(a) - multiset{a[0]};
    assert multiset(b[1..]) == multiset(b) - multiset{b[0]};
  }

  /** Two ascending lists with the same elements are the same list. */
  lemma {:induction false} AscendingIsUnique(a: seq<real>, b: seq<real>)
    requires Ascending(a) && Ascending(b)
    requires multiset(a) == multiset(b)
    ensures a == b
  {
    if a == [] {
      assert |multiset(a)| == |multiset(b)|;
    } else {
      SameHead(a, b);
      SameTail(a, b);
      AscendingIsUnique(a[1..], b[1..]);
      assert a == [a[0]] + a[1..] && b == [b[0]] + b[1..];
    }
  }

  lemma OrderDoesNotMatter(values: seq<real>, shuffled: seq<real>, q: real)
    requires multiset(values) == multiset(shuffled)
    requires 0.0 <= q <= 1.0
    ensures Percentile(values, q) == Percentile(shuffled, q)
  {
    SortIsSorting(values);
    SortIsSorting(shuffled);
    AscendingIsUnique(Sort(values), Sort(shuffled));
  }

  /** How many of the values satisfy `p`. */
  function Count(values: seq<real>, p: real -> bool): (n: nat)
    ensures n <= |values|
  {
    if values == [] then 0 else (if p(values[0]) then 1 else 0) + Count(values[1..], p)
  }

  lemma {:induction false} CountInsert(x: real, s: seq<real>, p: real -> bool)
    ensures Count(Sorting.Insert(x, s, AtMost), p) == Count(s, p) + (if p(x) then 1 else 0)
  {
    if s != [] && !AtMost(x, s[0]) {
      CountInsert(x, s[1..], p);
      assert ([s[0]] + Sorting.Insert(x, s[1..], AtMost))[1..] == Sorting.Insert(x, s[1..], AtMost);
    } else {
      assert ([x] + s)[1..] == s;
    }
  }

  lemma {:induction false} CountSort(values: seq<real>, p: real -> bool)
    ensures Count(Sort(values), p) == Count(values, p)
  {
    if values != [] {
      CountSort(values[1..], p);
      CountInsert(values[0], Sort(values[1..]), p);
    }
  }

  lemma {:induction false} CountConcat(a: seq<real>, b: seq<real>, p: real -> bool)
    ensures Count(a + b, p) == Count(a, p) + Count(b, p)
  {
    if a == [] {
      assert a + b == b;
    } else {
      CountConcat(a[1..], b, p);
      assert (a + b)[1..] == a[1..] + b;
    }
  }

  lemma {:induction false} CountAll(s: seq<real>, p: real -> bool)
    requires forall i :: 0 <= i < |s| ==> p(s[i])
    ensures Count(s, p) == |s|
  {
    if s != [] {
      CountAll(s[1..], p);
    }
  }

  lemma {:induction false} CountNone(s: seq<real>, p: real -> bool)
    requires forall i :: 0 <= i < |s| ==> !p(s[i])
    ensures Count(s, p) == 0
  {
    if s != [] {
      CountNone(s[1..], p);
    }
  }

  lemma {:induction false} CountGrows(s: seq<real>, p: real -> bool, r: real -> bool)
    requires forall x :: p(x) ==> r(x)
    ensures Count(s, p) <= Count(s, r)
  {
    if s != [] {
      CountGrows(s[1..], p, r);
    }
  }

  function Below(x: real): real -> bool {
    (y: real) => y < x
  }

  function UpTo(x: real): real -> bool {
    (y: real) => y <= x
  }

  /** `x` is the value with exactly `k` values before it, in any ascending order of the values. */
  predicate Ranked(values: seq<real>, k: nat, x: real) {
    Count(values, Below(x)) <= k < Count(values, UpTo(x))
  }

  lemma RankIsUnique(values: seq<real>, k: nat, x: real, y: real)
    requires Ranked(values, k, x) && Ranked(values, k, y)
    ensures x == y
  {
    if x < y {
      CountGrows(values, UpTo(x), Below(y));
    } else if y < x {
      CountGrows(values, UpTo(y), Below(x));
    }
  }

  lemma AscendingRanks(clean: seq<real>, k: nat)
    requires Ascending(clean) && k < |clean|
    ensures Ranked(clean, k, clean[k])
  {
    var x := clean[k];
    assert clean == clean[..k + 1] + clean[k + 1..] && clean == clean[..k] + clean[k..];
    CountConcat(clean[..k + 1], clean[k + 1..], UpTo(x));
    CountAll(clean[..k + 1], UpTo(x));
    CountConcat(clean[..k], clean[k..], Below(x));
    CountNone(clean[k..], Below(x));
  }

  /** Every rank is held by one value, the one sorting puts there. */
  lemma RankedIsSorted(values: seq<real>, k: nat, x: real)
    requires k < |values|
    ensures Ranked(values, k, x) <==> x == Sort(values)[k]
  {
    var clean := Sort(values);
    SortIsSorting(values);
    AscendingRanks(clean, k);
    CountSort(values, Below(clean[k]));
    CountSort(values, UpTo(clean[k]));
    if Ranked(values, k, x) {
      RankIsUnique(values, k, x, clean[k]);
    }
  }

  lemma AtOnLine(clean: seq<real>, k: nat, pos: real)
    requires k + 1 < |clean| && k as real <= pos <= (k + 1) as real
    ensures 0.0 <= pos <= (|clean| - 1) as real
    ensures At(clean, pos) == Along(clean[k], clean[k + 1], pos - k as real)
  {
    assert (k + 1) as real == k as real + 1.0;
    if pos == k as real {
      assert Floor(pos) == k == Ceil(pos);
    } else if pos == (k + 1) as real {
      assert Floor(pos) == k + 1 == Ceil(pos);
    } else {
      assert Floor(pos) == k && Ceil(pos) == k + 1;
      OnLine(clean[k], clean[k + 1], pos - k as real);
    }
  }

  /** The value a share `f` of the way from `a` to `b`. */
  function Along(a: real, b: real, f: real): real {
    a + (b - a) * f
  }

  lemma OnLine(a: real, b: real, f: real)
    ensures a * (1.0 - f) + b * f == Along(a, b, f)
  {
  }

  /**
   * Linear interpolation: for a share `q` whose position lies from `k` to `k + 1`, the percentile lies
   * on the straight line from the value of rank `k` to the value of rank `k + 1`.
   */
  lemma PercentileOnLine(values: seq<real>, q: real, k: nat, a: real, b: real)
    requires 0.0 <= q <= 1.0 && k + 1 < |values|
    requires k as real <= (|values| - 1) as real * q <= (k + 1) as real
    requires Ranked(values, k, a) && Ranked(values, k + 1, b)
    ensures Percentile(values, q) == Some(Along(a, b, (|values| - 1) as real * q - k as real))
  {
    RankedIsSorted(values, k, a);
    RankedIsSorted(values, k + 1, b);
    var clean, pos := Sort(values), Position((|values| - 1) as real, q);
    AtOnLine(clean, k, pos);
    assert Percentile(values, q) == Some(At(clean, pos));
  }

  lemma PercentileOfOne(x: real, q: real)
    requires 0.0 <= q <= 1.0
    ensures Percentile([x], q) == Some(x)
  {
  }
}
