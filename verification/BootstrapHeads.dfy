/** Keeping the current heads of a bootstrap configuration (`preserve_current_heads`). */
module BootstrapHeads {
  import opened Wrappers

  /** A field that is absent or not a string reads as None. */
  datatype Entry = Entry(
    studyId: Option<string>, experimentId: Option<string>, currentRevisionId: Option<string>,
    revisionId: Option<string>, currentHeadId: Option<string>)

  /** `hasParent`: a parent id is given and is not null. */
  datatype Head = Head(
    studyId: Option<string>, experimentId: Option<string>, revisionId: Option<string>,
    hasParent: bool, headId: Option<string>, createdAt: Option<string>)

  /** Either list may be missing. */
  datatype Snapshot = Snapshot(entries: Option<seq<Entry>>, heads: Option<seq<Head>>)

  function EntryKey(entry: Entry): (string, string, string) {
    var current := entry.currentRevisionId.GetOr("");
    (entry.studyId.GetOr(""), entry.experimentId.GetOr(""),
     if current == "" then entry.revisionId.GetOr("") else current)
  }

  /** The directory's first entry for the key decides, even when it names no head. */
  function FirstLive(entries: seq<Entry>, key: (string, string, string)): Option<string> {
    if entries == [] then None
    else if EntryKey(entries[0]) == key then entries[0].currentHeadId
    else FirstLive(entries[1..], key)
  }

  function LiveHead(snapshot: Snapshot, target: Entry): Option<string> {
    if snapshot.entries.None? then None else FirstLive(snapshot.entries.value, EntryKey(target))
  }

  /** The order of strings: by code points, a prefix first. */
  predicate LexLess(a: string, b: string) {
    b != "" && (a == "" || a[0] < b[0] || (a[0] == b[0] && LexLess(a[1..], b[1..])))
  }

  /** Heads are ranked by creation time, then by id. */
  predicate RanksBelow(a: Head, b: Head) {
    var ta, tb := a.createdAt.GetOr(""), b.createdAt.GetOr("");
    LexLess(ta, tb) || (ta == tb && LexLess(a.headId.GetOr(""), b.headId.GetOr("")))
  }

  predicate VisibleRoot(head: Head, key: (string, string, string)) {
    && (head.studyId.GetOr(""), head.experimentId.GetOr(""), head.revisionId.GetOr("")) == key
    && !head.hasParent
    && head.headId.Some?
  }

  /** `max_by_key` over the visible roots: of equals the last. */
  function GreatestRoot(heads: seq<Head>, key: (string, string, string)): Option<Head> {
    if heads == [] then None
    else
      var last := heads[|heads| - 1];
      var best := GreatestRoot(heads[..|heads| - 1], key);
      if VisibleRoot(last, key) && (best.None? || !RanksBelow(last, best.value)) then Some(last) else best
  }

  function RecoverRoot(snapshot: Snapshot, target: Entry): Option<string> {
    if snapshot.heads.None? then None
    else
      var best := GreatestRoot(snapshot.heads.value, EntryKey(target));
      if best.Some? then best.value.headId else None
  }

  datatype Source = Kept | Preserved(id: string) | Recovered(id: string) | Unfilled

  function SourceOf(snapshot: Snapshot, recoverRoots: bool, entry: Entry): Source {
    if entry.currentHeadId.Some? then Kept
    else if LiveHead(snapshot, entry).Some? then Preserved(LiveHead(snapshot, entry).value)
    else if recoverRoots && RecoverRoot(snapshot, entry).Some? then Recovered(RecoverRoot(snapshot, entry).value)
    else Unfilled
  }

  function Fill(snapshot: Snapshot, recoverRoots: bool, entry: Entry): Entry {
    match SourceOf(snapshot, recoverRoots, entry)
    case Preserved(id) => entry.(currentHeadId := Some(id))
    case Recovered(id) => entry.(currentHeadId := Some(id))
    case _ => entry
  }

  function CountPreserved(snapshot: Snapshot, recoverRoots: bool, entries: seq<Entry>): nat {
    if entries == [] then 0
    else
      var last := |entries| - 1;
      CountPreserved(snapshot, recoverRoots, entries[..last])
      + (if SourceOf(snapshot, recoverRoots, entries[last]).Preserved? then 1 else 0)
  }

  function CountRecovered(snapshot: Snapshot, recoverRoots: bool, entries: seq<Entry>): nat {
    if entries == [] then 0
    else
      var last := |entries| - 1;
      CountRecovered(snapshot, recoverRoots, entries[..last])
      + (if SourceOf(snapshot, recoverRoots, entries[last]).Recovered? then 1 else 0)
  }

  class Config {
    /** `auth.directory_entries`, when the configuration has it. */
    var entries: Option<seq<Entry>>

    constructor (entries: Option<seq<Entry>>)
      ensures this.entries == entries
    {
      this.entries := entries;
    }

    /** Fill in place, counting what each source filled. */
    method PreserveCurrentHeads(snapshot: Snapshot, recoverRoots: bool) returns (preserved: nat, recovered: nat)
      modifies this
      ensures old(entries).None? ==> entries.None? && preserved == recovered == 0
      ensures old(entries).Some? ==>
                && entries.Some? && |entries.value| == |old(entries).value|
                && (forall i :: 0 <= i < |entries.value| ==>
                      entries.value[i] == Fill(snapshot, recoverRoots, old(entries).value[i]))
                && preserved == CountPreserved(snapshot, recoverRoots, old(entries).value)
                && recovered == CountRecovered(snapshot, recoverRoots, old(entries).value)
    {
      preserved, recovered := 0, 0;
      if entries.None? {
        return;
      }
      ghost var before := entries.value;
      var n := |entries.value|;
      for i := 0 to n
        invariant entries.Some? && |entries.value| == n == |before|
        invariant forall k :: 0 <= k < i ==> entries.value[k] == Fill(snapshot, recoverRoots, before[k])
        invariant forall k :: i <= k < n ==> entries.value[k] == before[k]
        invariant preserved == CountPreserved(snapshot, recoverRoots, before[..i])
        invariant recovered == CountRecovered(snapshot, recoverRoots, before[..i])
      {
        assert before[..i + 1][..i] == before[..i];
        var entry := entries.value[i];
        if entry.currentHeadId.Some? {
          continue;
        }
        var live := LiveHead(snapshot, entry);
        if live.Some? {
          entries := Some(entries.value[i := entry.(currentHeadId := live)]);
          preserved := preserved + 1;
        } else if recoverRoots {
          var root := RecoverRoot(snapshot, entry);
          if root.Some? {
            entries := Some(entries.value[i := entry.(currentHeadId := root)]);
            recovered := recovered + 1;
          }
        }
      }
      assert before[..n] == before;
    }
  }

  /** An entry with a head keeps it, and a filled entry is settled: the next run would keep or leave it as it is. */
  lemma FillSettles(snapshot: Snapshot, recoverRoots: bool, entry: Entry)
    ensures entry.currentHeadId.Some? ==> Fill(snapshot, recoverRoots, entry) == entry
    ensures EntryKey(Fill(snapshot, recoverRoots, entry)) == EntryKey(entry)
    ensures SourceOf(snapshot, recoverRoots, Fill(snapshot, recoverRoots, entry)) in {Kept, Unfilled}
  {
  }

  /** A second run on the same snapshot changes nothing and reports 0/0. */
  lemma {:induction false} SecondRun(snapshot: Snapshot, recoverRoots: bool, before: seq<Entry>, after: seq<Entry>)
    requires |after| == |before|
    requires forall i :: 0 <= i < |after| ==> after[i] == Fill(snapshot, recoverRoots, before[i])
    ensures CountPreserved(snapshot, recoverRoots, after) == CountRecovered(snapshot, recoverRoots, after) == 0
    ensures forall i :: 0 <= i < |after| ==> Fill(snapshot, recoverRoots, after[i]) == after[i]
  {
    if after != [] {
      var last := |after| - 1;
      SecondRun(snapshot, recoverRoots, before[..last], after[..last]);
      FillSettles(snapshot, recoverRoots, before[last]);
    }
  }

  lemma {:induction false} LexTotal(a: string, b: string)
    ensures LexLess(a, b) || a == b || LexLess(b, a)
    ensures !(LexLess(a, b) && (a == b || LexLess(b, a)))
  {
    if a != "" && b != "" && a[0] == b[0] {
      LexTotal(a[1..], b[1..]);
      assert a == [a[0]] + a[1..] && b == [b[0]] + b[1..];
    }
  }

  lemma {:induction false} LexTransitive(a: string, b: string, c: string)
    requires LexLess(a, b) && LexLess(b, c)
    ensures LexLess(a, c)
  {
    if a != "" && a[0] == b[0] == c[0] {
      LexTransitive(a[1..], b[1..], c[1..]);
    }
  }

  lemma RankOrder(a: Head, b: Head, c: Head)
    ensures RanksBelow(a, b) && RanksBelow(b, c) ==> RanksBelow(a, c)
    ensures !RanksBelow(a, b) && !RanksBelow(b, a) ==>
              a.createdAt.GetOr("") == b.createdAt.GetOr("") && a.headId.GetOr("") == b.headId.GetOr("")
    ensures !(RanksBelow(a, b) && RanksBelow(b, a))
  {
    var ta, tb, tc := a.createdAt.GetOr(""), b.createdAt.GetOr(""), c.createdAt.GetOr("");
    var ia, ib, ic := a.headId.GetOr(""), b.headId.GetOr(""), c.headId.GetOr("");
    LexTotal(ta, tb);
    LexTotal(ia, ib);
    if LexLess(ta, tb) && LexLess(tb, tc) {
      LexTransitive(ta, tb, tc);
    }
    if LexLess(ia, ib) && LexLess(ib, ic) {
      LexTransitive(ia, ib, ic);
    }
  }

  /** Not below is transitive as well: the order is total. */
  lemma NotBelowTransitive(a: Head, b: Head, c: Head)
    requires !RanksBelow(a, b) && !RanksBelow(b, c)
    ensures !RanksBelow(a, c)
  {
    if RanksBelow(a, c) {
      RankOrder(a, b, c);
      RankOrder(b, c, a);
      RankOrder(b, a, c);
    }
  }

  ghost predicate IsGreatest(heads: seq<Head>, key: (string, string, string), best: Head) {
    && best in heads && VisibleRoot(best, key)
    && forall h :: h in heads && VisibleRoot(h, key) ==> !RanksBelow(best, h)
  }

  /** What is recovered is the greatest visible root for the key; nothing is recovered only without one. */
  lemma {:induction false} GreatestRootIsGreatest(heads: seq<Head>, key: (string, string, string))
    ensures GreatestRoot(heads, key).None? <==> forall h :: h in heads ==> !VisibleRoot(h, key)
    ensures GreatestRoot(heads, key).Some? ==> IsGreatest(heads, key, GreatestRoot(heads, key).value)
  {
    if heads != [] {
      var front, last := heads[..|heads| - 1], heads[|heads| - 1];
      GreatestRootIsGreatest(front, key);
      assert heads == front + [last];
      var best := GreatestRoot(front, key);
      if VisibleRoot(last, key) && best.Some? {
        RankOrder(last, best.value, last);
        forall h | h in front && VisibleRoot(h, key) && !RanksBelow(last, best.value)
          ensures !RanksBelow(last, h)
        {
          NotBelowTransitive(last, best.value, h);
        }
      }
      RankOrder(last, last, last);
    }
  }

  /** The recovered id does not depend on how the snapshot orders its heads. */
  lemma RecoveryIgnoresOrder(snapshot: Snapshot, shuffled: Snapshot, target: Entry)
    requires snapshot.heads.Some? && shuffled.heads.Some?
    requires multiset(snapshot.heads.value) == multiset(shuffled.heads.value)
    ensures RecoverRoot(snapshot, target) == RecoverRoot(shuffled, target)
  {
    var a, b, key := snapshot.heads.value, shuffled.heads.value, EntryKey(target);
    GreatestRootIsGreatest(a, key);
    GreatestRootIsGreatest(b, key);
    assert forall h :: h in a <==> h in multiset(a);
    assert forall h :: h in b <==> h in multiset(b);
    if GreatestRoot(a, key).Some? {
      var x, y := GreatestRoot(a, key).value, GreatestRoot(b, key).value;
      assert x in b && y in a;
      RankOrder(x, y, x);
    }
  }

  /** A field reads as `s`; what is missing reads as nothing. */
  predicate ReadsAs(field: Option<string>, s: string) {
    field == Some(s) || (field == None && s == "")
  }

  /** The entry's revision is its current one; only without one its plain one. */
  predicate RevisionIs(entry: Entry, revision: string) {
    if ReadsAs(entry.currentRevisionId, "") then ReadsAs(entry.revisionId, revision)
    else entry.currentRevisionId == Some(revision)
  }

  /** Two entries of one study, one experiment and one revision. */
  ghost predicate SameTarget(a: Entry, b: Entry) {
    && (exists study :: ReadsAs(a.studyId, study) && ReadsAs(b.studyId, study))
    && (exists experiment :: ReadsAs(a.experimentId, experiment) && ReadsAs(b.experimentId, experiment))
    && (exists revision :: RevisionIs(a, revision) && RevisionIs(b, revision))
  }

  lemma KeyReads(entry: Entry)
    ensures var (study, experiment, revision) := EntryKey(entry);
            ReadsAs(entry.studyId, study) && ReadsAs(entry.experimentId, experiment) && RevisionIs(entry, revision)
  {
  }

  lemma SameTargetIff(a: Entry, b: Entry)
    ensures SameTarget(a, b) <==> EntryKey(a) == EntryKey(b)
  {
    KeyReads(a);
    KeyReads(b);
  }

  /** Entry `i` of the directory is the first for the target. */
  ghost predicate FirstFor(entries: seq<Entry>, target: Entry, i: nat) {
    i < |entries| && SameTarget(entries[i], target) && forall j: nat :: j < i ==> !SameTarget(entries[j], target)
  }

  lemma {:induction false} FirstLiveIff(entries: seq<Entry>, target: Entry, id: string)
    ensures FirstLive(entries, EntryKey(target)) == Some(id) <==>
              exists i: nat :: FirstFor(entries, target, i) && entries[i].currentHeadId == Some(id)
  {
    if entries != [] {
      SameTargetIff(entries[0], target);
      if EntryKey(entries[0]) == EntryKey(target) {
        assert forall i: nat :: FirstFor(entries, target, i) ==> i == 0;
        assert FirstFor(entries, target, 0);
      } else {
        FirstLiveIff(entries[1..], target, id);
        forall i: nat
          ensures FirstFor(entries, target, i + 1) <==> FirstFor(entries[1..], target, i)
        {
          FirstForShifts(entries, target, i);
        }
        if i: nat :| FirstFor(entries, target, i) && entries[i].currentHeadId == Some(id) {
          assert FirstFor(entries[1..], target, i - 1);
        }
        if i: nat :| FirstFor(entries[1..], target, i) && entries[1..][i].currentHeadId == Some(id) {
          assert FirstFor(entries, target, i + 1);
        }
      }
    }
  }

  lemma FirstForShifts(entries: seq<Entry>, target: Entry, i: nat)
    requires entries != [] && !SameTarget(entries[0], target)
    ensures FirstFor(entries, target, i + 1) <==> FirstFor(entries[1..], target, i)
  {
    if FirstFor(entries, target, i + 1) {
      forall j: nat | j < i
        ensures !SameTarget(entries[1..][j], target)
      {
        assert entries[1..][j] == entries[j + 1];
      }
    }
    if FirstFor(entries[1..], target, i) {
      forall j: nat | j < i + 1
        ensures !SameTarget(entries[j], target)
      {
        assert j > 0 ==> entries[j] == entries[1..][j - 1];
      }
    }
  }

  /** Which entry a preserved id comes from: the directory's first of the same study, experiment and revision. */
  lemma PreservedIff(snapshot: Snapshot, recoverRoots: bool, entry: Entry, id: string)
    ensures SourceOf(snapshot, recoverRoots, entry) == Preserved(id) <==>
              && entry.currentHeadId == None && snapshot.entries.Some?
              && exists i: nat :: FirstFor(snapshot.entries.value, entry, i)
                                  && snapshot.entries.value[i].currentHeadId == Some(id)
  {
    if snapshot.entries.Some? {
      FirstLiveIff(snapshot.entries.value, entry, id);
    }
  }

  /** A root of the target's study, experiment and revision, with an id and without a parent. */
  ghost predicate RootOf(head: Head, target: Entry) {
    && (exists study :: ReadsAs(head.studyId, study) && ReadsAs(target.studyId, study))
    && (exists experiment :: ReadsAs(head.experimentId, experiment) && ReadsAs(target.experimentId, experiment))
    && (exists revision :: ReadsAs(head.revisionId, revision) && RevisionIs(target, revision))
    && !head.hasParent && head.headId.Some?
  }

  lemma RootOfIff(head: Head, target: Entry)
    ensures RootOf(head, target) <==> VisibleRoot(head, EntryKey(target))
  {
    KeyReads(target);
    assert ReadsAs(head.studyId, head.studyId.GetOr("")) && ReadsAs(head.experimentId, head.experimentId.GetOr(""))
           && ReadsAs(head.revisionId, head.revisionId.GetOr(""));
  }

  /** `a` stands before `b` in a dictionary: they part at `k`, or `a` ends there. */
  predicate PartsAt(a: string, b: string, k: nat) {
    && k <= |a| && k < |b| && a[..k] == b[..k]
    && (k == |a| || a[k] < b[k])
  }

  lemma SameStart(a: string, b: string, k: nat)
    requires PartsAt(a, b, k)
    ensures k > 0 ==> a[0] == b[0]
  {
    if k > 0 {
      assert a[0] == a[..k][0] && b[0] == b[..k][0];
    }
  }

  lemma {:induction false} LexMeans(a: string, b: string)
    ensures LexLess(a, b) <==> exists k: nat :: PartsAt(a, b, k)
  {
    if b == "" {
    } else if a == "" || a[0] != b[0] {
      assert a == "" || a[0] < b[0] ==> PartsAt(a, b, 0);
      forall k: nat | PartsAt(a, b, k)
        ensures k == 0
      {
        SameStart(a, b, k);
      }
    } else {
      LexMeans(a[1..], b[1..]);
      if k: nat :| PartsAt(a[1..], b[1..], k) {
        PartsBehind(a, b, k);
      }
      if k: nat :| PartsAt(a, b, k) {
        assert k > 0;
        PartsBehind(a, b, k - 1);
      }
    }
  }

  lemma PartsBehind(a: string, b: string, k: nat)
    requires a != "" && b != "" && a[0] == b[0]
    ensures PartsAt(a, b, k + 1) <==> PartsAt(a[1..], b[1..], k)
  {
    if k < |a| && k < |b| {
      assert a[..k + 1] == [a[0]] + a[1..][..k] && b[..k + 1] == [b[0]] + b[1..][..k];
    }
  }

  /** Which of two heads ranks higher: the one created later, of those created together the one with the later id. */
  lemma RanksMeans(a: Head, b: Head, createdA: string, createdB: string, idA: string, idB: string)
    requires ReadsAs(a.createdAt, createdA) && ReadsAs(b.createdAt, createdB)
    requires ReadsAs(a.headId, idA) && ReadsAs(b.headId, idB)
    ensures RanksBelow(a, b) <==>
              || (exists k: nat :: PartsAt(createdA, createdB, k))
              || (createdA == createdB && exists k: nat :: PartsAt(idA, idB, k))
  {
    LexMeans(createdA, createdB);
    LexMeans(idA, idB);
  }

  /** What a recovered id comes from: a root no other root of the target was created after. */
  lemma RecoveredMeans(snapshot: Snapshot, recoverRoots: bool, entry: Entry, id: string)
    requires SourceOf(snapshot, recoverRoots, entry) == Recovered(id)
    ensures recoverRoots && entry.currentHeadId == None && LiveHead(snapshot, entry) == None && snapshot.heads.Some?
    ensures exists root :: root in snapshot.heads.value && RootOf(root, entry) && root.headId == Some(id)
              && forall head :: head in snapshot.heads.value && RootOf(head, entry) ==> !RanksBelow(root, head)
  {
    var heads, key := snapshot.heads.value, EntryKey(entry);
    GreatestRootIsGreatest(heads, key);
    var root := GreatestRoot(heads, key).value;
    RootOfIff(root, entry);
    forall head | head in heads && RootOf(head, entry)
      ensures !RanksBelow(root, head)
    {
      RootOfIff(head, entry);
    }
  }

  /** Nothing is filled in only if there was nothing to fill in with. */
  lemma UnfilledMeans(snapshot: Snapshot, recoverRoots: bool, entry: Entry)
    requires SourceOf(snapshot, recoverRoots, entry) == Unfilled
    ensures entry.currentHeadId == None && LiveHead(snapshot, entry) == None
    ensures recoverRoots && snapshot.heads.Some? ==>
              forall head :: head in snapshot.heads.value ==> !RootOf(head, entry)
  {
    if recoverRoots && snapshot.heads.Some? {
      GreatestRootIsGreatest(snapshot.heads.value, EntryKey(entry));
      forall head | head in snapshot.heads.value
        ensures !RootOf(head, entry)
      {
        RootOfIff(head, entry);
      }
    }
  }

  /** Only the head is filled in, with the id of the source. */
  lemma FillMeans(snapshot: Snapshot, recoverRoots: bool, entry: Entry)
    ensures var filled, source := Fill(snapshot, recoverRoots, entry), SourceOf(snapshot, recoverRoots, entry);
            && filled.(currentHeadId := None) == entry.(currentHeadId := None)
            && (source == Kept || source == Unfilled ==> filled.currentHeadId == entry.currentHeadId)
            && forall id :: source == Preserved(id) || source == Recovered(id) ==> filled.currentHeadId == Some(id)
  {
  }
}
