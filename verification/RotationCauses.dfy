/** When a rotation must succeed, and what each of its errors means. */
module RotationCauses {
  import opened Wrappers
  import opened FileSystem
  import opened AtomicWrite
  import opened PathNames
  import opened Confinement
  import opened StagedRotation

  datatype Failure =
    | OutputExists | KeyUnusable | StagingUnavailable | InputUnreadable
    | SigningFailed | PayloadChanged | VerificationFailed | WriteFailed | NoContentId | InstallFailed

  predicate IsInput(t: Tree<Document>, path: Path) {
    path in t && t[path].File? && t[path].content.BundleDoc?
  }

  function InputAt(t: Tree<Document>, path: Path): Bundle
    requires IsInput(t, path)
  {
    t[path].content.bundle
  }

  /** The inputs that were there from the start were read as they were. */
  ghost predicate ReadFrom(before: Tree<Document>, bundles: seq<Path>, read: seq<Bundle>) {
    && |read| <= |bundles|
    && forall i :: 0 <= i < |read| && bundles[i] in before ==> before[bundles[i]] == File(BundleDoc(read[i]))
  }

  /** The way to a bundle's file meets no prior file, no other bundle's file and not the manifest. */
  ghost predicate ClearWay(before: Tree<Document>, out: Path, pid: string, ids: set<string>, id: string)
    requires out != []
  {
    var staging := Staging(out, pid);
    && Harmless(out, pid, id) && staging <= BundleHome(staging, id)
    && Open(before, BundleWay(staging, id))
    && staging + [MANIFEST_NAME] !in BundleWay(staging, id)
    && TempPath(staging, MANIFEST_NAME, pid) !in BundleWay(staging, id)
    && forall other :: other in ids ==>
         BundlePath(staging, other) !in BundleWay(staging, id)
         && BundleTemp(staging, other, pid) !in BundleWay(staging, id)
  }

  /** Nothing on the disk or among the ids stands in the way of any of the writes. */
  ghost predicate Clear(before: Tree<Document>, out: Path, pid: string, ids: set<string>)
    requires out != []
  {
    forall id :: id in ids ==> ClearWay(before, out, pid, ids, id)
  }

  lemma ClearSubset(before: Tree<Document>, out: Path, pid: string, ids: set<string>, fewer: set<string>)
    requires out != [] && Clear(before, out, pid, ids) && fewer <= ids
    ensures Clear(before, out, pid, fewer)
  {
    forall id | id in fewer
      ensures ClearWay(before, out, pid, fewer, id)
    {
      assert ClearWay(before, out, pid, ids, id);
    }
  }

  /** Ids without a slash stand in no one's way. */
  lemma PlainIsClear(before: Tree<Document>, out: Path, pid: string, ids: set<string>)
    requires out != [] && forall id :: id in ids ==> Plain(id)
    requires Open(before, Prefixes(Staging(out, pid)))
    ensures Clear(before, out, pid, ids)
  {
    var staging := Staging(out, pid);
    forall id | id in ids
      ensures ClearWay(before, out, pid, ids, id)
    {
      PlainIsHarmless(out, pid, id);
      PlainTarget(staging, id);
      forall p | p in Prefixes(staging)
        ensures |p| <= |staging|
      {
        PrefixesMeans(staging, p);
      }
      forall other | other in ids
        ensures |BundlePath(staging, other)| > |staging| && |BundleTemp(staging, other, pid)| > |staging|
      {
        PlainTarget(staging, other);
      }
    }
  }

  /** A file that has appeared in the staging directory is a bundle's, a directory is on some bundle's way. */
  lemma StagedNode(t: Tree<Document>, staging: Path, ids: set<string>, p: Path) returns (id: string)
    requires Sparse(t, staging, staging, ids, {}) && p in t && staging < p
    ensures id in ids
    ensures if t[p].File? then p == staging + Place(staging, id) else p in BundleWay(staging, id)
  {
    id :| id in ids && Accounted(t, staging, staging, id, p);
    assert staging + p[|staging|..] == p;
  }

  lemma WayStaysOpen(
    before: Tree<Document>, t: Tree<Document>, out: Path, pid: string, all: set<string>, ids: set<string>, id: string)
    requires out != [] && Clear(before, out, pid, all) && ids <= all && id in all
    requires Within(before, t, Staging(out, pid), out) && Leads(t, Staging(out, pid))
    requires Sparse(t, Staging(out, pid), Staging(out, pid), ids, {})
    ensures Open(t, BundleWay(Staging(out, pid), id))
  {
    var staging := Staging(out, pid);
    assert ClearWay(before, out, pid, all, id);
    forall p | p in BundleWay(staging, id) && p in t
      ensures t[p].Directory?
    {
      if staging < p {
        var other := StagedNode(t, staging, ids, p);
        assert ClearWay(before, out, pid, all, other);
        PlaceMeans(staging, other);
      } else if staging <= p {
        assert staging[..|staging|] == p;
      }
    }
  }

  lemma NeverADirectory(
    before: Tree<Document>, t: Tree<Document>, out: Path, pid: string, all: set<string>, ids: set<string>, p: Path)
    requires out != [] && ids <= all && Sparse(t, Staging(out, pid), Staging(out, pid), ids, {})
    requires Staging(out, pid) < p && forall other :: other in all ==> p !in BundleWay(Staging(out, pid), other)
    ensures p in t ==> t[p].File?
  {
    if p in t {
      var other := StagedNode(t, Staging(out, pid), ids, p);
    }
  }

  /** Where everything is clear, the next bundle can be written. */
  lemma ClearIsWritable(
    before: Tree<Document>, t: Tree<Document>, out: Path, pid: string, all: set<string>, ids: set<string>, id: string)
    requires out != [] && Clear(before, out, pid, all) && ids <= all && id in all
    requires Within(before, t, Staging(out, pid), out) && Leads(t, Staging(out, pid))
    requires Sparse(t, Staging(out, pid), Staging(out, pid), ids, {})
    ensures var staging := Staging(out, pid);
            Writable(t, BundleWay(staging, id), BundleTemp(staging, id, pid), BundlePath(staging, id))
  {
    var staging := Staging(out, pid);
    assert ClearWay(before, out, pid, all, id);
    forall other | other in all
      ensures BundlePath(staging, id) !in BundleWay(staging, other)
      ensures BundleTemp(staging, id, pid) !in BundleWay(staging, other)
    {
      assert ClearWay(before, out, pid, all, other);
    }
    WayStaysOpen(before, t, out, pid, all, ids, id);
    WithWayMeans(t, BundleWay(staging, id));
    NeverADirectory(before, t, out, pid, all, ids, BundlePath(staging, id));
    NeverADirectory(before, t, out, pid, all, ids, BundleTemp(staging, id, pid));
  }

  /** And so can the manifest, which the installation then renames. */
  lemma ClearManifest(
    before: Tree<Document>, t: Tree<Document>, out: Path, pid: string, ids: set<string>)
    requires out != [] && Clear(before, out, pid, ids) && Leads(t, Staging(out, pid))
    requires Sparse(t, Staging(out, pid), Staging(out, pid), ids, {})
    ensures var staging := Staging(out, pid);
            Writable(t, Prefixes(staging), TempPath(staging, MANIFEST_NAME, pid), staging + [MANIFEST_NAME])
  {
    var staging := Staging(out, pid);
    PrefixesThere(t, staging);
    forall p | p in Prefixes(staging) && p in t
      ensures t[p].Directory?
    {
      PrefixesMeans(staging, p);
      assert staging[..|p|] == p;
    }
    forall other | other in ids
      ensures staging + [MANIFEST_NAME] !in BundleWay(staging, other)
      ensures TempPath(staging, MANIFEST_NAME, pid) !in BundleWay(staging, other)
    {
      assert ClearWay(before, out, pid, ids, other);
    }
    NeverADirectory(before, t, out, pid, ids, ids, staging + [MANIFEST_NAME]);
    NeverADirectory(before, t, out, pid, ids, ids, TempPath(staging, MANIFEST_NAME, pid));
  }

  /** The authority signs the bundle at any time, faithfully and verifiably, and can name what it signed. */
  ghost predicate Reliable(authority: Authority, b: Bundle) {
    forall now: nat ::
      var signed := authority.sign(b, now);
      && signed.Some? && signed.value.payload == b.payload
      && authority.verifies(signed.value) && authority.contentId(signed.value).Some?
  }

  predicate SignedAt(authority: Authority, b: Bundle, now: nat, signed: Option<Bundle>) {
    authority.sign(b, now) == signed
  }

  ghost predicate SignedOnce(authority: Authority, b: Bundle, signed: Option<Bundle>) {
    exists now: nat :: SignedAt(authority, b, now, signed)
  }

  /** What signing the last bundle read made of it, at some time. */
  ghost predicate SignedTo(authority: Authority, read: seq<Bundle>, signed: Option<Bundle>) {
    read != [] && SignedOnce(authority, read[|read| - 1], signed)
  }

  /**
   * What an error means: a fault that was met, or something to be seen in the inputs, the authority
   * and the disk as they were before the rotation. `read` lists the bundles read, the last of them
   * the one the error is about.
   */
  ghost predicate Cause(
    before: Tree<Document>, authority: Authority, bundles: seq<Path>, out: Path, pid: string,
    read: seq<Bundle>, faults: set<Fault>, failure: Failure)
    requires out != []
  {
    match failure
    case OutputExists => out in before
    case KeyUnusable => KeyFault in faults
    case StagingUnavailable =>
      CreateFault in faults || Staging(out, pid) in before || !Open(before, Prefixes(Parent(out)))
    case InputUnreadable =>
      || ReadFault in faults
      || (|read| < |bundles| && !IsInput(before, bundles[|read|]))
      || !AllHarmless(out, pid, read)
    case SigningFailed => SignedTo(authority, read, None)
    case PayloadChanged =>
      exists b :: SignedTo(authority, read, Some(b)) && b.payload != read[|read| - 1].payload
    case VerificationFailed =>
      exists b :: SignedTo(authority, read, Some(b)) && b.payload == read[|read| - 1].payload && !authority.verifies(b)
    case NoContentId =>
      exists b :: SignedTo(authority, read, Some(b)) && authority.verifies(b) && authority.contentId(b).None?
    case WriteFailed => WriteFaulted(faults) || !Clear(before, out, pid, Ids(read))
    case InstallFailed => WriteFaulted(faults) || !Clear(before, out, pid, Ids(read))
  }

  function InputIds(before: Tree<Document>, bundles: seq<Path>): set<string>
    requires forall path :: path in bundles ==> IsInput(before, path)
  {
    set path | path in bundles :: InputAt(before, path).payload.revisionId
  }

  /** A rotation nothing speaks against. */
  ghost predicate Smooth(before: Tree<Document>, authority: Authority, bundles: seq<Path>, out: Path, pid: string)
    requires out != []
  {
    && out !in before && Staging(out, pid) !in before && Open(before, Prefixes(Parent(out)))
    && (forall path :: path in bundles ==> IsInput(before, path))
    && (forall path :: path in bundles ==> Reliable(authority, InputAt(before, path)))
    && Clear(before, out, pid, InputIds(before, bundles))
  }

  /** Bundle files with plain ids, a free output and a free staging directory are all a smooth rotation needs. */
  lemma PlainIsSmooth(before: Tree<Document>, authority: Authority, bundles: seq<Path>, out: Path, pid: string)
    requires out != [] && out !in before && Staging(out, pid) !in before && Open(before, Prefixes(Parent(out)))
    requires forall path :: path in bundles ==>
               IsInput(before, path) && Plain(InputAt(before, path).payload.revisionId)
               && Reliable(authority, InputAt(before, path))
    ensures Smooth(before, authority, bundles, out, pid)
  {
    StagingBesideOutput(out, pid);
    forall p | p in Prefixes(Staging(out, pid)) && p in before
      ensures before[p].Directory?
    {
      PrefixesMeans(Staging(out, pid), p);
      PrefixesMeans(Parent(out), p);
      assert p == Staging(out, pid) || p <= Parent(out);
    }
    PlainIsClear(before, out, pid, InputIds(before, bundles));
  }

  lemma ReadsInputs(before: Tree<Document>, bundles: seq<Path>, read: seq<Bundle>, i: nat)
    requires ReadFrom(before, bundles, read) && i < |read|
    requires forall path :: path in bundles ==> IsInput(before, path)
    ensures bundles[i] in bundles && read[i] == InputAt(before, bundles[i])
  {
  }

  lemma ReadIdsAreInputs(before: Tree<Document>, bundles: seq<Path>, read: seq<Bundle>)
    requires ReadFrom(before, bundles, read)
    requires forall path :: path in bundles ==> IsInput(before, path)
    ensures Ids(read) <= InputIds(before, bundles)
  {
    forall id | id in Ids(read)
      ensures id in InputIds(before, bundles)
    {
      var i :| 0 <= i < |read| && read[i].payload.revisionId == id;
      ReadsInputs(before, bundles, read, i);
    }
  }

  lemma SmoothIsHarmless(
    before: Tree<Document>, authority: Authority, bundles: seq<Path>, out: Path, pid: string, read: seq<Bundle>)
    requires out != [] && Smooth(before, authority, bundles, out, pid) && ReadFrom(before, bundles, read)
    ensures AllHarmless(out, pid, read) && Clear(before, out, pid, Ids(read))
  {
    ReadIdsAreInputs(before, bundles, read);
    ClearSubset(before, out, pid, InputIds(before, bundles), Ids(read));
    forall b | b in read
      ensures Harmless(out, pid, b.payload.revisionId)
    {
      assert b.payload.revisionId in Ids(read);
      assert ClearWay(before, out, pid, Ids(read), b.payload.revisionId);
    }
  }

  lemma ReliableIsNotCaused(authority: Authority, read: seq<Bundle>, signed: Option<Bundle>)
    requires SignedTo(authority, read, signed) && Reliable(authority, read[|read| - 1])
    ensures signed.Some? && signed.value.payload == read[|read| - 1].payload
    ensures authority.verifies(signed.value) && authority.contentId(signed.value).Some?
  {
    var now: nat :| SignedAt(authority, read[|read| - 1], now, signed);
    assert authority.sign(read[|read| - 1], now) == signed;
  }

  /** Without a fault nothing can cause an error in a smooth rotation. */
  lemma SmoothIsNotCaused(
    before: Tree<Document>, authority: Authority, bundles: seq<Path>, out: Path, pid: string,
    read: seq<Bundle>, failure: Failure)
    requires out != [] && Smooth(before, authority, bundles, out, pid) && ReadFrom(before, bundles, read)
    ensures !Cause(before, authority, bundles, out, pid, read, {}, failure)
  {
    SmoothIsHarmless(before, authority, bundles, out, pid, read);
    if read != [] {
      ReadsInputs(before, bundles, read, |read| - 1);
      forall signed | SignedTo(authority, read, signed)
        ensures signed.Some? && signed.value.payload == read[|read| - 1].payload
        ensures authority.verifies(signed.value) && authority.contentId(signed.value).Some?
      {
        ReliableIsNotCaused(authority, read, signed);
      }
    }
    if |read| < |bundles| {
      assert bundles[|read|] in bundles;
    }
  }
}
