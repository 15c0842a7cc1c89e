/** What a rotation's directory holds, bundle by bundle, and what its one rename carries over. */
module StagedRotation {
  import opened Wrappers
  import opened FileSystem
  import opened AtomicWrite
  import opened PathNames
  import opened Confinement

  /** What the authority signs; it contains the revision id. */
  datatype Payload = Payload(revisionId: string, body: string)

  datatype Bundle = Bundle(payload: Payload, signer: string, signature: string)

  datatype Manifest = Manifest(
    rotatedAt: nat, previousSigners: set<string>, newSigner: string, contracts: map<string, string>)

  datatype Document = BundleDoc(bundle: Bundle) | ManifestDoc(manifest: Manifest) | Torn | Other(text: string)

  /** The new authority key. Nothing is assumed of it: signing may fail or tamper, verification may refuse. */
  datatype Authority = Authority(
    name: string,
    sign: (Bundle, nat) -> Option<Bundle>,
    verifies: Bundle -> bool,
    contentId: Bundle -> Option<string>)

  function Ids(read: seq<Bundle>): set<string> {
    set b | b in read :: b.payload.revisionId
  }

  function Signers(read: seq<Bundle>): set<string> {
    set b | b in read :: b.signer
  }

  ghost predicate AllHarmless(out: Path, pid: string, read: seq<Bundle>)
    requires out != []
  {
    forall b :: b in read ==> Harmless(out, pid, b.payload.revisionId)
  }

  /** No two ids go to one file. */
  ghost predicate Apart(staging: Path, ids: set<string>) {
    forall a, b :: a in ids && b in ids && BundlePath(staging, a) == BundlePath(staging, b) ==> a == b
  }

  /** Ids without a slash never share a file. */
  lemma PlainIsApart(staging: Path, ids: set<string>)
    requires forall id :: id in ids ==> Plain(id)
    ensures Apart(staging, ids)
  {
    forall a, b | a in ids && b in ids && BundlePath(staging, a) == BundlePath(staging, b)
      ensures a == b
    {
      PlainTarget(staging, a);
      PlainTarget(staging, b);
      assert BundlePath(staging, a)[|staging|] == FileName(a);
      assert BundlePath(staging, b)[|staging|] == FileName(b);
      assert FileName(a)[..|a|] == a && FileName(b)[..|b|] == b;
    }
  }

  /** The ids "x" and "./x" do. */
  lemma DotSlashNotApart(staging: Path, id: string)
    requires Plain(id)
    ensures !Apart(staging, {id, "./" + id})
  {
    DotSlashShares(staging, id);
    assert |"./" + id| != |id|;
  }

  /** `b` is the last of the bundles read that has revision id `id`. */
  ghost predicate IsLastWith(read: seq<Bundle>, id: string, b: Bundle) {
    exists i :: 0 <= i < |read| && read[i] == b && b.payload.revisionId == id
                && forall j :: i < j < |read| ==> read[j].payload.revisionId != id
  }

  lemma LastWithSnoc(read: seq<Bundle>, next: Bundle, id: string, b: Bundle)
    requires if id == next.payload.revisionId then b == next else IsLastWith(read, id, b)
    ensures IsLastWith(read + [next], id, b)
  {
    var longer := read + [next];
    if id == next.payload.revisionId {
      assert longer[|read|] == b;
    } else {
      var i :| 0 <= i < |read| && read[i] == b && b.payload.revisionId == id
               && forall j :: i < j < |read| ==> read[j].payload.revisionId != id;
      assert longer[i] == b;
    }
  }

  /** The re-signed bundle for `id`: the payload of the last input with that id, under the new key. */
  ghost predicate Resigned(authority: Authority, read: seq<Bundle>, id: string, b: Bundle) {
    && authority.verifies(b)
    && b.payload.revisionId == id
    && exists original :: IsLastWith(read, id, original) && b.payload == original.payload
  }

  ghost predicate TrackedAt(authority: Authority, read: seq<Bundle>, id: string, b: Bundle, contentId: string) {
    Resigned(authority, read, id, b) && authority.contentId(b) == Some(contentId)
  }

  /** The signed bundles and the content ids collected so far are those of the inputs read so far. */
  ghost predicate Tracks(
    authority: Authority, read: seq<Bundle>, signed: map<string, Bundle>, contracts: map<string, string>)
  {
    && signed.Keys == Ids(read)
    && contracts.Keys == Ids(read)
    && forall id :: id in signed && id in contracts ==> TrackedAt(authority, read, id, signed[id], contracts[id])
  }

  lemma ResignedSnoc(authority: Authority, read: seq<Bundle>, next: Bundle, id: string, b: Bundle)
    requires if id == next.payload.revisionId
             then authority.verifies(b) && b.payload == next.payload
             else Resigned(authority, read, id, b)
    ensures Resigned(authority, read + [next], id, b)
  {
    if id == next.payload.revisionId {
      LastWithSnoc(read, next, id, next);
    } else {
      var last :| IsLastWith(read, id, last) && b.payload == last.payload;
      LastWithSnoc(read, next, id, last);
    }
  }

  lemma IdsSnoc(read: seq<Bundle>, next: Bundle)
    ensures Ids(read + [next]) == Ids(read) + {next.payload.revisionId}
    ensures Signers(read + [next]) == Signers(read) + {next.signer}
  {
    assert forall b :: b in read + [next] <==> b in read || b == next;
  }

  lemma TrackedSnoc(
    authority: Authority, read: seq<Bundle>, original: Bundle, id: string, b: Bundle, contentId: string)
    requires if id == original.payload.revisionId
             then b.payload == original.payload && authority.verifies(b) && authority.contentId(b) == Some(contentId)
             else TrackedAt(authority, read, id, b, contentId)
    ensures TrackedAt(authority, read + [original], id, b, contentId)
  {
    ResignedSnoc(authority, read, original, id, b);
  }

  lemma TracksSnoc(
    authority: Authority, read: seq<Bundle>, signed: map<string, Bundle>, contracts: map<string, string>,
    original: Bundle, b: Bundle, contentId: string)
    requires Tracks(authority, read, signed, contracts)
    requires b.payload == original.payload && authority.verifies(b) && authority.contentId(b) == Some(contentId)
    ensures var id := b.payload.revisionId;
            Tracks(authority, read + [original], signed[id := b], contracts[id := contentId])
  {
    var id := b.payload.revisionId;
    var nextSigned, nextContracts := signed[id := b], contracts[id := contentId];
    IdsSnoc(read, original);
    assert nextSigned.Keys == signed.Keys + {id} && nextContracts.Keys == contracts.Keys + {id};
    forall other | other in nextSigned && other in nextContracts
      ensures TrackedAt(authority, read + [original], other, nextSigned[other], nextContracts[other])
    {
      TrackedSnoc(authority, read, original, other, nextSigned[other], nextContracts[other]);
    }
  }

  /** Where a bundle's file is, seen from the staging directory. */
  function Place(staging: Path, id: string): Path {
    var path := BundlePath(staging, id);
    if staging <= path then path[|staging|..] else []
  }

  lemma PlaceMeans(staging: Path, id: string)
    requires staging <= BundleHome(staging, id)
    ensures Place(staging, id) != [] && staging + Place(staging, id) == BundlePath(staging, id)
  {
  }

  /** `p` is the bundle file of `id`, or a directory on the way to it. */
  ghost predicate Accounted(t: Tree<Document>, dir: Path, staging: Path, id: string, p: Path)
    requires p in t && dir <= p
  {
    || (t[p].File? && p == dir + Place(staging, id))
    || (t[p].Directory? && staging + p[|dir|..] in BundleWay(staging, id))
  }

  /** Besides the files of `ids` and the directories on their ways, `dir` holds only what `extra` allows. */
  ghost predicate Sparse(t: Tree<Document>, dir: Path, staging: Path, ids: set<string>, extra: set<Path>) {
    forall p :: p in t && dir < p && p !in extra ==> exists id :: id in ids && Accounted(t, dir, staging, id, p)
  }

  ghost predicate HasFile(t: Tree<Document>, p: Path, doc: Document) {
    p in t && t[p] == File(doc)
  }

  /** `dir` holds the file of every signed bundle. */
  ghost predicate Holding(t: Tree<Document>, dir: Path, staging: Path, signed: map<string, Bundle>) {
    forall id :: id in signed ==> HasFile(t, dir + Place(staging, id), BundleDoc(signed[id]))
  }

  ghost predicate CompleteWith(
    t: Tree<Document>, dir: Path, staging: Path, authority: Authority, read: seq<Bundle>, m: Manifest,
    signed: map<string, Bundle>)
  {
    && dir in t && t[dir].Directory?
    && Sparse(t, dir, staging, Ids(read), {dir + [MANIFEST_NAME]})
    && Holding(t, dir, staging, signed)
    && Tracks(authority, read, signed, m.contracts)
    && HasFile(t, dir + [MANIFEST_NAME], ManifestDoc(m))
    && m.previousSigners == Signers(read)
    && m.newSigner == authority.name
  }

  /**
   * A complete rotation in `dir`: one file per distinct revision id, each holding the last input
   * with that id re-signed, and a manifest naming exactly those ids with the content ids of the
   * files that are there. Besides them only the directories the ids themselves name, and no
   * temporary file.
   */
  ghost predicate Complete(
    t: Tree<Document>, dir: Path, staging: Path, authority: Authority, read: seq<Bundle>, m: Manifest)
  {
    exists signed :: CompleteWith(t, dir, staging, authority, read, m, signed)
  }

  lemma OneFileOneId(
    t: Tree<Document>, p: Path, authority: Authority, read: seq<Bundle>,
    a: string, x: Bundle, contentOfX: string, b: string, y: Bundle, contentOfY: string)
    requires HasFile(t, p, BundleDoc(x)) && HasFile(t, p, BundleDoc(y))
    requires TrackedAt(authority, read, a, x, contentOfX) && TrackedAt(authority, read, b, y, contentOfY)
    ensures a == b
  {
  }

  lemma HoldingMeansApart(
    t: Tree<Document>, dir: Path, staging: Path, authority: Authority, read: seq<Bundle>,
    signed: map<string, Bundle>, contracts: map<string, string>, a: string, b: string)
    requires Holding(t, dir, staging, signed) && Tracks(authority, read, signed, contracts)
    requires a in Ids(read) && b in Ids(read) && Place(staging, a) == Place(staging, b)
    ensures a == b
  {
    var p := dir + Place(staging, a);
    assert a in signed && HasFile(t, p, BundleDoc(signed[a])) && a in contracts;
    assert b in signed && HasFile(t, p, BundleDoc(signed[b])) && b in contracts;
    OneFileOneId(t, p, authority, read, a, signed[a], contracts[a], b, signed[b], contracts[b]);
  }

  /** Ids that share a file cannot both have theirs. */
  lemma CompleteMeansApart(
    t: Tree<Document>, dir: Path, staging: Path, authority: Authority, read: seq<Bundle>, m: Manifest)
    requires Complete(t, dir, staging, authority, read, m)
    ensures Apart(staging, Ids(read))
  {
    var signed :| CompleteWith(t, dir, staging, authority, read, m, signed);
    AllApart(t, dir, staging, authority, read, signed, m.contracts);
  }

  lemma AllApart(
    t: Tree<Document>, dir: Path, staging: Path, authority: Authority, read: seq<Bundle>,
    signed: map<string, Bundle>, contracts: map<string, string>)
    requires Holding(t, dir, staging, signed) && Tracks(authority, read, signed, contracts)
    ensures Apart(staging, Ids(read))
  {
    forall a, b | a in Ids(read) && b in Ids(read) && BundlePath(staging, a) == BundlePath(staging, b)
      ensures a == b
    {
      HoldingMeansApart(t, dir, staging, authority, read, signed, contracts, a, b);
    }
  }

  lemma DamagedIsNotComplete(
    before: Tree<Document>, now: Tree<Document>, out: Path, staging: Path, authority: Authority, read: seq<Bundle>,
    m: Manifest)
    requires Damaged(before, now, out) && Untouched(before, now)
    ensures !OutputAbsent(now, out) && !Complete(now, out, staging, authority, read, m)
  {
    var manifest := out + [MANIFEST_NAME];
    assert out < manifest;
    forall signed
      ensures !CompleteWith(now, out, staging, authority, read, m, signed)
    {
      assert manifest in now ==> now[manifest].Directory?;
    }
  }

  /**
   * The failure is real: for an id that is not harmless there is a disk from which some state of
   * writing its bundle has lost a file from before, or shows an output that is not complete.
   */
  lemma HarmfulIsUnsafe(out: Path, pid: string, b: Bundle, authority: Authority, read: seq<Bundle>)
    returns (before: Tree<Document>, now: Tree<Document>)
    requires out != [] && !Harmless(out, pid, b.payload.revisionId)
    ensures Prior(before, out, pid)
    ensures now in FreshStates(before, out, pid, b.payload.revisionId, BundleDoc(b), Torn)
    ensures Untouched(before, now) ==>
              && !OutputAbsent(now, out)
              && forall m :: !Complete(now, out, Staging(out, pid), authority, read, m)
  {
    var k;
    before, k := HarmfulDamages(out, pid, b.payload.revisionId, BundleDoc(b), Torn);
    now := FreshStates(before, out, pid, b.payload.revisionId, BundleDoc(b), Torn)[k];
    if Untouched(before, now) {
      forall m
        ensures !OutputAbsent(now, out) && !Complete(now, out, Staging(out, pid), authority, read, m)
      {
        DamagedIsNotComplete(before, now, out, Staging(out, pid), authority, read, m);
      }
      DamagedIsNotComplete(before, now, out, Staging(out, pid), authority, read, Manifest(0, {}, "", map[]));
    }
  }

  /** Ends of names: temporaries end in a digit, bundle files in their suffix. */
  lemma NamesDiffer(name: string, pid: string, id: string)
    requires Decimal(pid)
    ensures TempName(name, pid) != Leaf(FileName(id))
    ensures Leaf(FileName(id)) != MANIFEST_NAME
    ensures TempName(name, pid) != MANIFEST_NAME
  {
    var temp, file := TempName(name, pid), Leaf(FileName(id));
    LeafOfFile(id);
    assert temp[|temp| - 1] == pid[|pid| - 1];
    assert file[|file| - 1] == BUNDLE_SUFFIX[|BUNDLE_SUFFIX| - 1] == 'n';
    assert MANIFEST_NAME[|MANIFEST_NAME| - 1] == 'n';
    assert |BUNDLE_SUFFIX| == 23 && |MANIFEST_NAME| == 22;
  }

  /** A bundle file is no temporary and not the manifest, wherever these are. */
  lemma PathsDiffer(staging: Path, home: Path, name: string, pid: string, id: string)
    requires Decimal(pid)
    ensures TempPath(home, name, pid) != BundlePath(staging, id)
    ensures home + [MANIFEST_NAME] != BundlePath(staging, id)
  {
    NamesDiffer(name, pid, id);
    var path := BundlePath(staging, id);
    assert path[|path| - 1] == Leaf(FileName(id));
    assert TempPath(home, name, pid)[|home|] == TempName(name, pid);
    assert (home + [MANIFEST_NAME])[|home|] == MANIFEST_NAME;
  }

  /** A write that succeeds is inside, because a blocked one fails. */
  lemma WritableIsInside(t: Tree<Document>, out: Path, pid: string, id: string)
    requires out != [] && Harmless(out, pid, id) && Leads(t, Staging(out, pid))
    requires var staging := Staging(out, pid);
             Writable(t, BundleWay(staging, id), BundleTemp(staging, id, pid), BundlePath(staging, id))
    ensures Staging(out, pid) <= BundleHome(Staging(out, pid), id)
  {
    var staging := Staging(out, pid);
    if Blocked(staging, id, pid) {
      BlockedTemp(t, staging, id, pid);
    }
  }

  /** Writing one bundle keeps everything else in the staging directory accounted for. */
  lemma StageKeepsSparse(
    t: Tree<Document>, staging: Path, ids: set<string>, id: string, pid: string, doc: Document)
    requires Sparse(t, staging, staging, ids, {}) && staging <= BundleHome(staging, id)
    ensures Sparse(Written(t, BundleWay(staging, id), BundleTemp(staging, id, pid), BundlePath(staging, id), doc),
                   staging, staging, ids + {id}, {})
  {
    var way, temp, path := BundleWay(staging, id), BundleTemp(staging, id, pid), BundlePath(staging, id);
    var after := Written(t, way, temp, path, doc);
    PlaceMeans(staging, id);
    WithWayMeans(t, way);
    forall p | p in after && staging < p
      ensures exists other :: other in ids + {id} && Accounted(after, staging, staging, other, p)
    {
      if p == path || p !in t {
        assert staging + p[|staging|..] == p;
        assert Accounted(after, staging, staging, id, p);
      } else {
        var other :| other in ids && Accounted(t, staging, staging, other, p);
        assert Accounted(after, staging, staging, other, p);
      }
    }
  }

  /** A file that is there is in the staging directory, not the directory itself. */
  lemma HeldPlace(t: Tree<Document>, staging: Path, id: string, doc: Document)
    requires Leads(t, staging) && HasFile(t, staging + Place(staging, id), doc)
    ensures staging + Place(staging, id) == BundlePath(staging, id)
  {
    assert staging[..|staging|] == staging && staging + [] == staging;
  }

  lemma WrittenKeepsFile(
    t: Tree<Document>, way: seq<Path>, temp: Path, path: Path, doc: Document, p: Path, held: Document)
    requires HasFile(t, p, held) && p != temp && p != path
    ensures HasFile(Written(t, way, temp, path, doc), p, held)
  {
    WithWayMeans(t, way);
  }

  /** And, where no two ids share a file, keeps every other bundle's file. */
  lemma StageKeepsHolding(
    t: Tree<Document>, staging: Path, signed: map<string, Bundle>, id: string, pid: string, b: Bundle)
    requires Decimal(pid) && Leads(t, staging) && staging <= BundleHome(staging, id)
    requires Holding(t, staging, staging, signed) && Apart(staging, signed.Keys + {id})
    ensures Holding(Written(t, BundleWay(staging, id), BundleTemp(staging, id, pid), BundlePath(staging, id),
                            BundleDoc(b)),
                    staging, staging, signed[id := b])
  {
    var way, temp, path := BundleWay(staging, id), BundleTemp(staging, id, pid), BundlePath(staging, id);
    var after := Written(t, way, temp, path, BundleDoc(b));
    forall other | other in signed[id := b]
      ensures HasFile(after, staging + Place(staging, other), BundleDoc(signed[id := b][other]))
    {
      if other == id {
        PlaceMeans(staging, id);
      } else {
        HeldPlace(t, staging, other, BundleDoc(signed[other]));
        PathsDiffer(staging, BundleHome(staging, id), Leaf(FileName(id)), pid, other);
        WrittenKeepsFile(t, way, temp, path, BundleDoc(b), BundlePath(staging, other), BundleDoc(signed[other]));
      }
    }
  }

  /** The tree after the manifest was written into the staging directory. */
  function WithManifest(t: Tree<Document>, staging: Path, m: Manifest, pid: string): Tree<Document> {
    (t - {TempPath(staging, MANIFEST_NAME, pid)})[staging + [MANIFEST_NAME] := File(ManifestDoc(m))]
  }

  lemma ManifestKeepsSparse(t: Tree<Document>, staging: Path, ids: set<string>, m: Manifest, pid: string)
    requires Sparse(t, staging, staging, ids, {})
    ensures Sparse(WithManifest(t, staging, m, pid), staging, staging, ids, {staging + [MANIFEST_NAME]})
  {
    var after := WithManifest(t, staging, m, pid);
    forall p | p in after && staging < p && p !in {staging + [MANIFEST_NAME]}
      ensures exists id :: id in ids && Accounted(after, staging, staging, id, p)
    {
      var id :| id in ids && Accounted(t, staging, staging, id, p);
      assert Accounted(after, staging, staging, id, p);
    }
  }

  lemma ManifestKeepsFile(t: Tree<Document>, staging: Path, m: Manifest, pid: string, p: Path, held: Document)
    requires HasFile(t, p, held)
    requires p != TempPath(staging, MANIFEST_NAME, pid) && p != staging + [MANIFEST_NAME]
    ensures HasFile(WithManifest(t, staging, m, pid), p, held)
  {
  }

  lemma ManifestKeepsHolding(
    t: Tree<Document>, staging: Path, signed: map<string, Bundle>, m: Manifest, pid: string)
    requires Decimal(pid) && Leads(t, staging) && Holding(t, staging, staging, signed)
    ensures Holding(WithManifest(t, staging, m, pid), staging, staging, signed)
  {
    forall id | id in signed
      ensures HasFile(WithManifest(t, staging, m, pid), staging + Place(staging, id), BundleDoc(signed[id]))
    {
      HeldPlace(t, staging, id, BundleDoc(signed[id]));
      PathsDiffer(staging, staging, MANIFEST_NAME, pid, id);
      ManifestKeepsFile(t, staging, m, pid, BundlePath(staging, id), BundleDoc(signed[id]));
    }
  }

  /** The manifest is written last: it collides with no bundle and completes a staged directory. */
  lemma ManifestCompletes(
    t: Tree<Document>, staging: Path, authority: Authority, pid: string, m: Manifest,
    read: seq<Bundle>, signed: map<string, Bundle>)
    requires Decimal(pid) && Leads(t, staging)
    requires Sparse(t, staging, staging, Ids(read), {}) && Holding(t, staging, staging, signed)
    requires Tracks(authority, read, signed, m.contracts)
    requires m.previousSigners == Signers(read) && m.newSigner == authority.name
    requires !(TempPath(staging, MANIFEST_NAME, pid) in t && t[TempPath(staging, MANIFEST_NAME, pid)].Directory?)
    ensures Complete(WithManifest(t, staging, m, pid), staging, staging, authority, read, m)
  {
    ManifestKeepsSparse(t, staging, Ids(read), m, pid);
    ManifestKeepsHolding(t, staging, signed, m, pid);
    assert staging[..|staging|] == staging;
    assert CompleteWith(WithManifest(t, staging, m, pid), staging, staging, authority, read, m, signed);
  }

  lemma PrefixesThere(t: Tree<Document>, path: Path)
    requires Leads(t, path)
    ensures WithWay(t, Prefixes(path)) == t && Passage(t, Prefixes(path)) == []
  {
    PassageThere(t, Prefixes(path), []);
    assert Prefixes(path) + [] == Prefixes(path);
  }

  /** The rename adds nothing: whatever lies below `to` was accounted for below `from`. */
  lemma MoveKeepsSparse(t: Tree<Document>, from: Path, to: Path, staging: Path, ids: set<string>, name: string)
    requires Sparse(t, from, staging, ids, {from + [name]})
    requires forall p :: p in t ==> !(to <= p)
    ensures Sparse(Moved(t, from, to), to, staging, ids, {to + [name]})
  {
    var after := Moved(t, from, to);
    forall q | q in after && to < q && q !in {to + [name]}
      ensures exists id :: id in ids && Accounted(after, to, staging, id, q)
    {
      var p := MovedBack(t, from, to, q);
      RelocatedBelow(from, to, [name]);
      RelocatedBelow(from, to, p[|from|..]);
      assert p == from + p[|from|..] && q[|to|..] == p[|from|..];
      var id :| id in ids && Accounted(t, from, staging, id, p);
      assert Accounted(after, to, staging, id, q);
    }
  }

  lemma MoveKeepsFile(t: Tree<Document>, from: Path, to: Path, rest: Path, doc: Document)
    requires HasFile(t, from + rest, doc)
    ensures HasFile(Moved(t, from, to), to + rest, doc)
  {
    MovedAlong(t, from, to, from + rest);
    RelocatedBelow(from, to, rest);
  }

  /** The rename carries a complete directory over as it is. */
  lemma MoveKeepsComplete(
    t: Tree<Document>, from: Path, to: Path, staging: Path, authority: Authority, read: seq<Bundle>, m: Manifest)
    requires Complete(t, from, staging, authority, read, m)
    requires forall p :: p in t ==> !(to <= p)
    ensures Complete(Moved(t, from, to), to, staging, authority, read, m)
  {
    var signed :| CompleteWith(t, from, staging, authority, read, m, signed);
    var after := Moved(t, from, to);
    MoveKeepsSparse(t, from, to, staging, Ids(read), MANIFEST_NAME);
    MoveKeepsFile(t, from, to, [MANIFEST_NAME], ManifestDoc(m));
    forall id | id in signed
      ensures HasFile(after, to + Place(staging, id), BundleDoc(signed[id]))
    {
      MoveKeepsFile(t, from, to, Place(staging, id), BundleDoc(signed[id]));
    }
    MovedAlong(t, from, to, from);
    assert Relocated(from, from, to) == to;
    assert CompleteWith(after, to, staging, authority, read, m, signed);
  }

  /** The one rename turns an absent output into a complete one and touches no prior file. */
  lemma RenamePublishes(
    before: Tree<Document>, staged: Tree<Document>, out: Path, staging: Path,
    authority: Authority, read: seq<Bundle>, m: Manifest)
    requires Closed(before) && out !in before && staging !in before
    requires Untouched(before, staged) && OutputAbsent(staged, out)
    ensures Untouched(before, Moved(staged - {out}, staging, out))
    ensures Complete(staged, staging, staging, authority, read, m) ==>
              Complete(Moved(staged - {out}, staging, out), out, staging, authority, read, m)
  {
    assert staged - {out} == staged;
    InstalledIsUntouched(before, staged, out, staging);
    if Complete(staged, staging, staging, authority, read, m) {
      MoveKeepsComplete(staged, staging, out, staging, authority, read, m);
    }
  }

  lemma InstalledIsUntouched(before: Tree<Document>, now: Tree<Document>, out: Path, staging: Path)
    requires Closed(before) && out !in before && staging !in before && Untouched(before, now)
    ensures Untouched(before, Moved(now, staging, out))
  {
    forall p | p in before
      ensures p in Moved(now, staging, out) && Moved(now, staging, out)[p] == before[p]
    {
      if staging <= p {
        NothingBelow(before, staging, p);
      }
      if out <= p {
        NothingBelow(before, out, p);
      }
    }
  }
}
