/** The ordered-snippet check of the workflow contracts (`require_ordered`). */
module RequireOrdered {
  import opened Wrappers

  predicate OccursAt(text: string, snippet: string, at: nat) {
    at + |snippet| <= |text| && text[at..at + |snippet|] == snippet
  }

  /** `str::find` from `cursor` on: the leftmost occurrence, or none at all. */
  method FindFrom(text: string, snippet: string, cursor: nat) returns (found: Option<nat>)
    requires cursor <= |text|
    ensures found.Some? ==> cursor <= found.value && OccursAt(text, snippet, found.value)
    ensures found.Some? ==> forall k: nat :: cursor <= k < found.value ==> !OccursAt(text, snippet, k)
    ensures found.None? ==> forall k: nat :: cursor <= k ==> !OccursAt(text, snippet, k)
  {
    var k := cursor;
    while k + |snippet| <= |text|
      invariant cursor <= k
      invariant forall j: nat :: cursor <= j < k ==> !OccursAt(text, snippet, j)
    {
      if text[k..k + |snippet|] == snippet {
        return Some(k);
      }
      k := k + 1;
    }
    return None;
  }

  /** `spots` places every snippet in `text`, in order, from `start` on, no two overlapping. */
  ghost predicate Placement(text: string, snippets: seq<string>, start: nat, spots: seq<nat>) {
    && |spots| == |snippets|
    && (forall i :: 0 <= i < |spots| ==> OccursAt(text, snippets[i], spots[i]))
    && (|spots| > 0 ==> start <= spots[0])
    && (forall i, j :: 0 <= i < j < |spots| ==> spots[i] + |snippets[i]| <= spots[j])
  }

  ghost predicate Placeable(text: string, snippets: seq<string>, start: nat) {
    exists spots :: Placement(text, snippets, start, spots)
  }

  lemma FirstMustOccur(text: string, snippets: seq<string>, start: nat)
    requires snippets != []
    ensures Placeable(text, snippets, start) ==> exists k: nat :: start <= k && OccursAt(text, snippets[0], k)
  {
    if Placeable(text, snippets, start) {
      var spots :| Placement(text, snippets, start, spots);
      assert OccursAt(text, snippets[0], spots[0]);
    }
  }

  lemma DropFirst(text: string, snippets: seq<string>, start: nat, leftmost: nat, spots: seq<nat>)
    requires snippets != []
    requires forall k: nat :: start <= k < leftmost ==> !OccursAt(text, snippets[0], k)
    requires Placement(text, snippets, start, spots)
    ensures Placement(text, snippets[1..], leftmost + |snippets[0]|, spots[1..])
  {
    assert leftmost <= spots[0] by {
      assert OccursAt(text, snippets[0], spots[0]);
    }
    forall i | 0 <= i < |spots[1..]|
      ensures OccursAt(text, snippets[1..][i], spots[1..][i])
    {
      assert OccursAt(text, snippets[i + 1], spots[i + 1]);
    }
  }

  lemma PrependFirst(text: string, snippets: seq<string>, start: nat, first: nat, rest: seq<nat>)
    requires snippets != []
    requires start <= first && OccursAt(text, snippets[0], first)
    requires Placement(text, snippets[1..], first + |snippets[0]|, rest)
    ensures Placement(text, snippets, start, [first] + rest)
  {
    var spots := [first] + rest;
    forall i, j | 0 <= i < j < |spots|
      ensures spots[i] + |snippets[i]| <= spots[j]
    {
      if i > 0 {
        assert rest[i - 1] + |snippets[1..][i - 1]| <= rest[j - 1];
      } else if j > 1 {
        assert rest[0] + |snippets[1..][0]| <= rest[j - 1];
      }
    }
  }

  /** Moving the first snippet to its leftmost occurrence never loses a placement of the rest. */
  lemma LeftmostFirst(text: string, snippets: seq<string>, start: nat, leftmost: nat)
    requires snippets != []
    requires start <= leftmost && OccursAt(text, snippets[0], leftmost)
    requires forall k: nat :: start <= k < leftmost ==> !OccursAt(text, snippets[0], k)
    ensures Placeable(text, snippets, start)
            <==> Placeable(text, snippets[1..], leftmost + |snippets[0]|)
  {
    if spots :| Placement(text, snippets, start, spots) {
      DropFirst(text, snippets, start, leftmost, spots);
    }
    var others, next := snippets[1..], leftmost + |snippets[0]|;
    if rest :| Placement(text, others, next, rest) {
      PrependFirst(text, snippets, start, leftmost, rest);
    }
  }

  /**
   * The greedy scan with a single moving cursor. It accepts exactly the texts for which some
   * choice of in-order, non-overlapping occurrences exists; a rejection names the first snippet
   * such that no choice of occurrences covers the snippets up to and including it.
   */
  method RequireOrdered(text: string, snippets: seq<string>) returns (r: Result<(), nat>)
    ensures r.Ok? <==> Placeable(text, snippets, 0)
    ensures r.Err? ==> r.error < |snippets|
    ensures r.Err? ==> Placeable(text, snippets[..r.error], 0)
    ensures r.Err? ==> !Placeable(text, snippets[..r.error + 1], 0)
  {
    var cursor: nat := 0;
    var i := 0;
    while i < |snippets|
      invariant 0 <= i <= |snippets|
      invariant cursor <= |text|
      invariant forall n :: i <= n <= |snippets| ==>
                  (Placeable(text, snippets[..n], 0) <==> Placeable(text, snippets[i..n], cursor))
    {
      var found := FindFrom(text, snippets[i], cursor);
      if found.None? {
        forall n | i < n <= |snippets|
          ensures !Placeable(text, snippets[..n], 0)
        {
          FirstMustOccur(text, snippets[i..n], cursor);
        }
        assert snippets[i..i] == [] && Placement(text, [], cursor, []);
        assert snippets[..|snippets|] == snippets;
        return Err(i);
      }
      forall n | i + 1 <= n <= |snippets|
        ensures Placeable(text, snippets[..n], 0)
                <==> Placeable(text, snippets[i + 1..n], found.value + |snippets[i]|)
      {
        LeftmostFirst(text, snippets[i..n], cursor, found.value);
        assert snippets[i..n][1..] == snippets[i + 1..n];
      }
      cursor := found.value + |snippets[i]|;
      i := i + 1;
    }
    assert snippets[i..|snippets|] == [] && Placement(text, [], cursor, []);
    assert snippets[..|snippets|] == snippets;
    return Ok(());
  }
}
