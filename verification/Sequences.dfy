/** Order-preserving filtering and deduplication, and splitting at slashes. */
module Sequences {
  function Filter<T(!new)>(s: seq<T>, keep: T -> bool): seq<T> {
    if s == [] then [] else (if keep(s[0]) then [s[0]] else []) + Filter(s[1..], keep)
  }

  lemma {:induction false} FilterMembers<T(!new)>(s: seq<T>, keep: T -> bool)
    ensures forall x :: x in Filter(s, keep) <==> x in s && keep(x)
  {
    if s != [] {
      FilterMembers(s[1..], keep);
      assert s == [s[0]] + s[1..];
    }
  }

  lemma {:induction false} FilterConcat<T(!new)>(a: seq<T>, b: seq<T>, keep: T -> bool)
    ensures Filter(a + b, keep) == Filter(a, keep) + Filter(b, keep)
  {
    if a == [] {
      assert a + b == b;
    } else {
      FilterConcat(a[1..], b, keep);
      assert (a + b)[1..] == a[1..] + b;
      Regroup(if keep(a[0]) then [a[0]] else [], Filter(a[1..], keep), Filter(b, keep));
    }
  }

  lemma Regroup<T>(a: seq<T>, b: seq<T>, c: seq<T>)
    ensures a + (b + c) == a + b + c
  {
  }

  /** Each element is kept or dropped on its own, in its place. */
  lemma FilterAround<T(!new)>(before: seq<T>, x: T, after: seq<T>, keep: T -> bool)
    ensures Filter(before + [x] + after, keep)
            == Filter(before, keep) + (if keep(x) then [x] else []) + Filter(after, keep)
  {
    FilterConcat(before + [x], after, keep);
    FilterConcat(before, [x], keep);
    assert [x][1..] == [];
  }

  lemma {:induction false} FilterAll<T(!new)>(s: seq<T>, keep: T -> bool)
    requires forall i :: 0 <= i < |s| ==> keep(s[i])
    ensures Filter(s, keep) == s
  {
    if s != [] {
      FilterAll(s[1..], keep);
    }
  }

  predicate NoDuplicates<T(==)>(s: seq<T>) {
    forall i, j :: 0 <= i < j < |s| ==> s[i] != s[j]
  }

  lemma {:induction false} FilterKeepsDistinct<T(!new)>(s: seq<T>, keep: T -> bool)
    requires NoDuplicates(s)
    ensures NoDuplicates(Filter(s, keep))
  {
    if s != [] {
      FilterKeepsDistinct(s[1..], keep);
      FilterMembers(s[1..], keep);
      assert s[0] !in s[1..];
    }
  }

  /** The first occurrence of every element, in order. */
  function Dedupe<T(==,!new)>(s: seq<T>): (r: seq<T>)
    ensures forall x :: x in r <==> x in s
    ensures NoDuplicates(r)
    ensures r == [] <==> s == []
  {
    if s == [] then []
    else
      var last := |s| - 1;
      assert s == s[..last] + [s[last]];
      if s[last] in s[..last] then Dedupe(s[..last]) else Dedupe(s[..last]) + [s[last]]
  }

  lemma {:induction false} DedupeIsIdentity<T(!new)>(s: seq<T>)
    requires NoDuplicates(s)
    ensures Dedupe(s) == s
  {
    if s != [] {
      var last := |s| - 1;
      DedupeIsIdentity(s[..last]);
      assert s == s[..last] + [s[last]];
      assert s[last] !in s[..last];
    }
  }

  /** Later elements leave what was kept of the earlier ones in its place: first occurrences, in order. */
  lemma {:induction false} DedupeGrows<T(!new)>(s: seq<T>, n: nat)
    requires n <= |s|
    ensures Dedupe(s[..n]) <= Dedupe(s)
  {
    if n == |s| {
      assert s[..n] == s;
    } else {
      var front := s[..|s| - 1];
      DedupeGrows(front, n);
      assert front[..n] == s[..n];
    }
  }

  /** The `seen` set of the source: `insert` says whether the element is new. */
  method DedupeSeen<T(==,!new)>(s: seq<T>) returns (r: seq<T>)
    ensures r == Dedupe(s)
  {
    var seen: set<T> := {};
    r := [];
    for i := 0 to |s|
      invariant r == Dedupe(s[..i])
      invariant forall x :: x in seen <==> x in s[..i]
    {
      assert s[..i + 1] == s[..i] + [s[i]];
      assert s[..i + 1][..i] == s[..i];
      if s[i] !in seen {
        seen := seen + {s[i]};
        r := r + [s[i]];
      }
    }
    assert s[..|s|] == s;
  }

  function Map<A, B>(s: seq<A>, f: A -> B): (r: seq<B>)
    ensures |r| == |s|
    ensures forall i :: 0 <= i < |s| ==> r[i] == f(s[i])
  {
    if s == [] then [] else [f(s[0])] + Map(s[1..], f)
  }

  function Flatten<T>(s: seq<seq<T>>): seq<T> {
    if s == [] then [] else s[0] + Flatten(s[1..])
  }

  /** `str::split('/')`. */
  function Split(name: string): (parts: seq<string>)
    ensures parts != []
    ensures forall i :: 0 <= i < |parts| ==> '/' !in parts[i]
  {
    if name == "" then [""]
    else
      var rest := Split(name[1..]);
      if name[0] == '/' then [""] + rest else [[name[0]] + rest[0]] + rest[1..]
  }

  lemma SplitCons(c: char, rest: string)
    ensures Split([c] + rest) == if c == '/' then [""] + Split(rest) else [[c] + Split(rest)[0]] + Split(rest)[1..]
  {
    assert ([c] + rest)[1..] == rest;
  }

  lemma {:induction false} SplitPlain(name: string)
    requires '/' !in name
    ensures Split(name) == [name]
  {
    if name != "" {
      assert forall c :: c in name[1..] ==> c in name;
      SplitPlain(name[1..]);
      assert name[0] in name && [name[0]] + name[1..] == name;
    }
  }

  function AppendLast(parts: seq<string>, suffix: string): seq<string>
    requires parts != []
  {
    parts[..|parts| - 1] + [parts[|parts| - 1] + suffix]
  }

  lemma AppendLastCons(c: char, parts: seq<string>, suffix: string)
    requires parts != []
    ensures AppendLast([""] + parts, suffix) == [""] + AppendLast(parts, suffix)
    ensures var grown := AppendLast(parts, suffix);
            AppendLast([[c] + parts[0]] + parts[1..], suffix) == [[c] + grown[0]] + grown[1..]
  {
    var grown := AppendLast(parts, suffix);
    if |parts| == 1 {
      assert [c] + (parts[0] + suffix) == [c] + parts[0] + suffix;
    } else {
      assert grown[0] == parts[0];
    }
  }

  /** A suffix without a slash goes to the last piece. */
  lemma {:induction false} SplitAppend(name: string, suffix: string)
    requires '/' !in suffix
    ensures Split(name + suffix) == AppendLast(Split(name), suffix)
  {
    if name == "" {
      assert name + suffix == suffix;
      SplitPlain(suffix);
    } else {
      SplitAppend(name[1..], suffix);
      assert name + suffix == [name[0]] + (name[1..] + suffix);
      SplitCons(name[0], name[1..] + suffix);
      SplitCons(name[0], name[1..]);
      AppendLastCons(name[0], Split(name[1..]), suffix);
      assert name == [name[0]] + name[1..];
    }
  }
}
