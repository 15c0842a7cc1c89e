/** Signature rotation of revision contracts (`rotate_revision_contracts`). */
module RevisionContracts {
  import opened Wrappers
  import opened FileSystem
  import opened AtomicWrite
  import opened PathNames
  import opened Confinement
  import opened StagedRotation
  import opened RotationCauses

  /** What a crash before the last step may leave: everything from before, and no output. */
  ghost predicate Concealed(before: Tree<Document>, now: Tree<Document>, out: Path) {
    Untouched(before, now) && OutputAbsent(now, out)
  }

  /** Every state recorded since `since`, up to position `upto`, is concealed. */
  ghost predicate ConcealedUntil(
    before: Tree<Document>, since: nat, trace: seq<Tree<Document>>, upto: nat, out: Path)
  {
    upto <= |trace| && forall k :: since <= k < upto ==> Concealed(before, trace[k], out)
  }

  /** The states of writing one re-signed bundle, from `t`. */
  ghost function StatesOf(t: Tree<Document>, out: Path, pid: string, b: Bundle): seq<Tree<Document>>
    requires out != []
  {
    BundleStates(t, Staging(out, pid), b.payload.revisionId, pid, BundleDoc(b), Torn)
  }

  /** The present state and every one recorded since `since` keep to the staging directory. */
  ghost predicate Quiet(
    before: Tree<Document>, since: nat, trace: seq<Tree<Document>>, tree: Tree<Document>, staging: Path, out: Path)
  {
    && since <= |trace|
    && Within(before, tree, staging, out)
    && AllWithin(before, trace[since..], staging, out)
  }

  lemma QuietThen(
    before: Tree<Document>, since: nat, trace0: seq<Tree<Document>>, tree0: Tree<Document>,
    states: seq<Tree<Document>>, n: nat, trace: seq<Tree<Document>>, tree: Tree<Document>, staging: Path, out: Path)
    requires Quiet(before, since, trace0, tree0, staging, out)
    requires Began(tree0, trace0, states, n, trace, tree) && AllWithin(tree0, states, staging, out)
    ensures Quiet(before, since, trace, tree, staging, out)
  {
    AllWithinThen(before, tree0, trace0[since..], states[..n], staging, out);
    assert trace[since..] == trace0[since..] + states[..n];
    if n > 0 {
      WithinTransitive(before, tree0, states[n - 1], staging, out);
    }
  }

  lemma QuietIsConcealed(
    before: Tree<Document>, since: nat, trace: seq<Tree<Document>>, tree: Tree<Document>, out: Path, pid: string)
    requires out != [] && Closed(before) && out !in before && Staging(out, pid) !in before
    requires Quiet(before, since, trace, tree, Staging(out, pid), out)
    ensures Concealed(before, tree, out) && ConcealedUntil(before, since, trace, |trace|, out)
  {
    StagingBesideOutput(out, pid);
    StagingIsSafe(before, tree, out, Staging(out, pid));
    forall k | since <= k < |trace|
      ensures Concealed(before, trace[k], out)
    {
      assert trace[k] == trace[since..][k - since];
      StagingIsSafe(before, trace[k], out, Staging(out, pid));
    }
  }

  /** The state a trace is in just before position `c`. */
  function StateBefore(start: Tree<Document>, since: nat, trace: seq<Tree<Document>>, c: nat): Tree<Document>
    requires c <= |trace|
  {
    if since < c then trace[c - 1] else start
  }

  ghost predicate FirstStateOf(
    t: Tree<Document>, now: Tree<Document>, out: Path, pid: string, original: Bundle, b: Bundle)
    requires out != []
  {
    b.payload == original.payload && StatesOf(t, out, pid, b) != [] && StatesOf(t, out, pid, b)[0] == now
  }

  /** Position `c` is the first step of writing a bundle whose id is not harmless. */
  ghost predicate HarmfulStart(
    start: Tree<Document>, since: nat, trace: seq<Tree<Document>>, c: nat, out: Path, pid: string, read: seq<Bundle>)
    requires out != []
  {
    && since <= c < |trace|
    && exists j, b :: 0 <= j < |read| && !Harmless(out, pid, read[j].payload.revisionId)
                      && FirstStateOf(StateBefore(start, since, trace, c), trace[c], out, pid, read[j], b)
  }

  lemma HarmfulStartStays(
    start: Tree<Document>, since: nat, trace0: seq<Tree<Document>>, trace: seq<Tree<Document>>, c: nat,
    out: Path, pid: string, read0: seq<Bundle>, read: seq<Bundle>)
    requires out != [] && trace0 <= trace && read0 <= read
    requires HarmfulStart(start, since, trace0, c, out, pid, read0)
    ensures HarmfulStart(start, since, trace, c, out, pid, read)
  {
    assert StateBefore(start, since, trace0, c) == StateBefore(start, since, trace, c) && trace[c] == trace0[c];
    var j, b :| 0 <= j < |read0| && !Harmless(out, pid, read0[j].payload.revisionId)
                && FirstStateOf(StateBefore(start, since, trace0, c), trace0[c], out, pid, read0[j], b);
    assert read[j] == read0[j];
  }

  /**
   * Everything is quiet, up to `breach` if there is one: there the writing of a bundle that is not
   * harmless takes its first step.
   */
  ghost predicate Watched(
    before: Tree<Document>, since: nat, trace: seq<Tree<Document>>, tree: Tree<Document>,
    out: Path, pid: string, read: seq<Bundle>, breach: Option<nat>)
    requires out != []
  {
    match breach
    case None => Quiet(before, since, trace, tree, Staging(out, pid), out)
    case Some(c) =>
      && HarmfulStart(before, since, trace, c, out, pid, read)
      && AllWithin(before, trace[since..c], Staging(out, pid), out)
  }

  lemma WatchedReads(
    before: Tree<Document>, since: nat, trace: seq<Tree<Document>>, tree: Tree<Document>,
    out: Path, pid: string, read: seq<Bundle>, next: Bundle, breach: Option<nat>)
    requires out != [] && Watched(before, since, trace, tree, out, pid, read, breach)
    ensures Watched(before, since, trace, tree, out, pid, read + [next], breach)
  {
    if breach.Some? {
      HarmfulStartStays(before, since, trace, trace, breach.value, out, pid, read, read + [next]);
    }
  }

  /** A write of a bundle that is not harmless breaches the watch with its first step. */
  lemma BreachStarts(
    before: Tree<Document>, since: nat, trace0: seq<Tree<Document>>, tree0: Tree<Document>,
    out: Path, pid: string, read: seq<Bundle>, b: Bundle, n: nat, trace: seq<Tree<Document>>, tree: Tree<Document>)
    requires out != [] && read != [] && b.payload == read[|read| - 1].payload
    requires since <= |trace0| && tree0 == StateBefore(before, since, trace0, |trace0|)
    requires Began(tree0, trace0, StatesOf(tree0, out, pid, b), n, trace, tree) && n > 0
    requires !Harmless(out, pid, b.payload.revisionId)
    ensures HarmfulStart(before, since, trace, |trace0|, out, pid, read)
  {
    var c := |trace0|;
    assert trace[c] == StatesOf(tree0, out, pid, b)[0];
    assert StateBefore(before, since, trace, c) == tree0;
    assert FirstStateOf(StateBefore(before, since, trace, c), trace[c], out, pid, read[|read| - 1], b);
  }

  lemma QuietPrefix(
    before: Tree<Document>, since: nat, trace0: seq<Tree<Document>>, tree0: Tree<Document>,
    trace: seq<Tree<Document>>, c: nat, staging: Path, out: Path)
    requires since <= c <= |trace0| && trace0 <= trace && AllWithin(before, trace0[since..c], staging, out)
    ensures AllWithin(before, trace[since..c], staging, out)
  {
    assert trace[since..c] == trace0[since..c];
  }

  /** Where the watch is breached after a write, if it is. */
  function NextBreach(breach: Option<nat>, harmless: bool, n: nat, at: nat): Option<nat> {
    if breach.None? && !harmless && n > 0 then Some(at) else breach
  }

  /** What a write does to the watch, given what its states do. */
  lemma WatchedWrites(
    before: Tree<Document>, since: nat, trace0: seq<Tree<Document>>, tree0: Tree<Document>,
    out: Path, pid: string, read: seq<Bundle>, states: seq<Tree<Document>>, harmless: bool, n: nat,
    trace: seq<Tree<Document>>, tree: Tree<Document>, breach: Option<nat>)
    requires out != [] && since <= |trace0|
    requires Watched(before, since, trace0, tree0, out, pid, read, breach)
    requires Began(tree0, trace0, states, n, trace, tree)
    requires harmless ==> AllWithin(tree0, states, Staging(out, pid), out)
    requires !harmless && n > 0 ==> HarmfulStart(before, since, trace, |trace0|, out, pid, read)
    ensures Watched(before, since, trace, tree, out, pid, read, NextBreach(breach, harmless, n, |trace0|))
  {
    var staging := Staging(out, pid);
    if breach.Some? {
      HarmfulStartStays(before, since, trace0, trace, breach.value, out, pid, read, read);
      QuietPrefix(before, since, trace0, tree0, trace, breach.value, staging, out);
    } else if harmless {
      QuietThen(before, since, trace0, tree0, states, n, trace, tree, staging, out);
    } else if n == 0 {
      assert trace == trace0 && tree == tree0;
    } else {
      assert trace0[since..|trace0|] == trace0[since..];
      QuietPrefix(before, since, trace0, tree0, trace, |trace0|, staging, out);
    }
  }

  lemma BundleWrites(
    before: Tree<Document>, since: nat, trace0: seq<Tree<Document>>, tree0: Tree<Document>,
    out: Path, pid: string, read: seq<Bundle>, b: Bundle, n: nat,
    trace: seq<Tree<Document>>, tree: Tree<Document>, breach: Option<nat>)
    requires out != [] && read != [] && b.payload == read[|read| - 1].payload
    requires Leads(tree0, Staging(out, pid))
    requires since <= |trace0| && tree0 == StateBefore(before, since, trace0, |trace0|)
    requires Watched(before, since, trace0, tree0, out, pid, read, breach)
    requires Began(tree0, trace0, StatesOf(tree0, out, pid, b), n, trace, tree)
    ensures Watched(before, since, trace, tree, out, pid, read,
                    NextBreach(breach, Harmless(out, pid, b.payload.revisionId), n, |trace0|))
  {
    var harmless := Harmless(out, pid, b.payload.revisionId);
    if harmless {
      ConfinedWrite(tree0, out, pid, b.payload.revisionId, BundleDoc(b), Torn);
    } else if n > 0 {
      BreachStarts(before, since, trace0, tree0, out, pid, read, b, n, trace, tree);
    }
    WatchedWrites(before, since, trace0, tree0, out, pid, read, StatesOf(tree0, out, pid, b), harmless, n,
                  trace, tree, breach);
  }

  lemma ReadFromSnoc(
    before: Tree<Document>, tree: Tree<Document>, staging: Path, out: Path,
    bundles: seq<Path>, read: seq<Bundle>, next: Bundle)
    requires Within(before, tree, staging, out) && Closed(before) && staging !in before
    requires ReadFrom(before, bundles, read) && |read| < |bundles|
    requires bundles[|read|] in tree && tree[bundles[|read|]] == File(BundleDoc(next))
    ensures ReadFrom(before, bundles, read + [next])
  {
    var p := bundles[|read|];
    if staging <= p {
      NothingBelow(before, staging, p);
    }
  }

  /** Re-sign one bundle and check the result: same payload, and it verifies under the new key. */
  method Resign(authority: Authority, original: Bundle) returns (r: Result<Bundle, Failure>, ghost now: nat)
    ensures r.Ok? ==>
              && authority.sign(original, now) == Some(r.value)
              && r.value.payload == original.payload && authority.verifies(r.value)
    ensures r.Err? ==> r.error in {SigningFailed, PayloadChanged, VerificationFailed}
    ensures r == Err(SigningFailed) ==> authority.sign(original, now) == None
    ensures r == Err(PayloadChanged) ==>
              authority.sign(original, now).Some? && authority.sign(original, now).value.payload != original.payload
    ensures r == Err(VerificationFailed) ==>
              && authority.sign(original, now).Some?
              && authority.sign(original, now).value.payload == original.payload
              && !authority.verifies(authority.sign(original, now).value)
  {
    var clock: nat := *;
    now := clock;
    var resigned := authority.sign(original, clock);
    if resigned == None {
      return Err(SigningFailed), now;
    }
    if resigned.value.payload != original.payload {
      return Err(PayloadChanged), now;
    }
    if !authority.verifies(resigned.value) {
      return Err(VerificationFailed), now;
    }
    return Ok(resigned.value), now;
  }

  lemma SignedCause(
    before: Tree<Document>, authority: Authority, bundles: seq<Path>, out: Path, pid: string,
    read: seq<Bundle>, faults: set<Fault>, original: Bundle, now: nat, failure: Failure)
    requires out != [] && read != [] && read[|read| - 1] == original
    requires match failure
             case SigningFailed => authority.sign(original, now) == None
             case PayloadChanged =>
               authority.sign(original, now).Some? && authority.sign(original, now).value.payload != original.payload
             case VerificationFailed =>
               && authority.sign(original, now).Some?
               && authority.sign(original, now).value.payload == original.payload
               && !authority.verifies(authority.sign(original, now).value)
             case NoContentId =>
               && authority.sign(original, now).Some? && authority.verifies(authority.sign(original, now).value)
               && authority.contentId(authority.sign(original, now).value).None?
             case _ => false
    ensures Cause(before, authority, bundles, out, pid, read, faults, failure)
  {
    var signed := authority.sign(original, now);
    assert SignedAt(authority, original, now, signed);
    assert SignedTo(authority, read, signed);
  }

  /** What the loop has staged when every write so far kept to the staging directory. */
  ghost predicate Progress(
    tree: Tree<Document>, staging: Path, authority: Authority,
    read: seq<Bundle>, signed: map<string, Bundle>, contracts: map<string, string>)
  {
    && Sparse(tree, staging, staging, Ids(read), {})
    && (Apart(staging, Ids(read)) ==> Holding(tree, staging, staging, signed))
    && Tracks(authority, read, signed, contracts)
  }

  lemma ProgressSnoc(
    tree: Tree<Document>, now: Tree<Document>, out: Path, authority: Authority,
    read: seq<Bundle>, signed: map<string, Bundle>, contracts: map<string, string>,
    original: Bundle, b: Bundle, contentId: string, pid: string)
    requires out != [] && Decimal(pid) && Leads(tree, Staging(out, pid))
    requires Progress(tree, Staging(out, pid), authority, read, signed, contracts)
    requires b.payload == original.payload && authority.verifies(b) && authority.contentId(b) == Some(contentId)
    requires StagedFrom(tree, now, out, pid, b)
    ensures var id := b.payload.revisionId;
            Progress(now, Staging(out, pid), authority, read + [original], signed[id := b], contracts[id := contentId])
  {
    var staging, id := Staging(out, pid), b.payload.revisionId;
    WritableIsInside(tree, out, pid, id);
    IdsSnoc(read, original);
    TracksSnoc(authority, read, signed, contracts, original, b, contentId);
    StageKeepsSparse(tree, staging, Ids(read), id, pid, BundleDoc(b));
    if Apart(staging, Ids(read + [original])) {
      assert Apart(staging, Ids(read));
      StageKeepsHolding(tree, staging, signed, id, pid, b);
    }
  }

  /** Write one re-signed bundle where its id says, seen from the staging directory. */
  method StageBundle(disk: Disk<Document>, bundle: Bundle, out: Path, pid: string) returns (ok: bool, ghost n: nat)
    requires out != [] && Leads(disk.tree, Staging(out, pid))
    modifies disk
    ensures Leads(disk.tree, Staging(out, pid))
    ensures var states := StatesOf(old(disk.tree), out, pid, bundle);
            && Began(old(disk.tree), old(disk.trace), states, n, disk.trace, disk.tree)
            && (ok ==> n == |states| > 0)
    ensures var staging, id := Staging(out, pid), bundle.payload.revisionId;
            var way, temp, path := BundleWay(staging, id), BundleTemp(staging, id, pid), BundlePath(staging, id);
            ok ==>
              && Writable(old(disk.tree), way, temp, path)
              && disk.tree == Written(old(disk.tree), way, temp, path, BundleDoc(bundle))
    ensures var staging, id := Staging(out, pid), bundle.payload.revisionId;
            !ok ==>
              || WriteFaulted(disk.faults)
              || !Writable(old(disk.tree), BundleWay(staging, id), BundleTemp(staging, id, pid),
                           BundlePath(staging, id))
    ensures old(disk.faults) <= disk.faults
  {
    var staging, name := Staging(out, pid), FileName(bundle.payload.revisionId);
    ok, n := AtomicWriteJson(
      disk, Way(staging, name), Home(staging, name), Leaf(name), BundleDoc(bundle), Torn, pid);
    LeadsKept(old(disk.tree), Way(staging, name), BundleTemp(staging, bundle.payload.revisionId, pid),
              BundlePath(staging, bundle.payload.revisionId), BundleDoc(bundle), n, staging);
    if ok {
      FirstFileState(old(disk.tree), Way(staging, name), BundleTemp(staging, bundle.payload.revisionId, pid),
                     BundlePath(staging, bundle.payload.revisionId), BundleDoc(bundle), Torn);
    }
  }

  lemma LeadsKept(
    t: Tree<Document>, way: seq<Path>, temp: Path, path: Path, doc: Document, n: nat, p: Path)
    requires n <= |WriteStates(t, way, temp, path, doc, Torn)| && Leads(t, p)
    ensures Leads(Latest(t, WriteStates(t, way, temp, path, doc, Torn)[..n]), p)
  {
    var now := Latest(t, WriteStates(t, way, temp, path, doc, Torn)[..n]);
    forall i | 0 <= i <= |p|
      ensures p[..i] in now && now[p[..i]].Directory?
    {
      WriteKeepsDirectories(t, way, temp, path, doc, Torn, n, p[..i]);
    }
  }

  /** The bundle was written, harmlessly and all the way. */
  ghost predicate StagedFrom(t: Tree<Document>, now: Tree<Document>, out: Path, pid: string, b: Bundle)
    requires out != []
  {
    var staging, id := Staging(out, pid), b.payload.revisionId;
    var way, temp, path := BundleWay(staging, id), BundleTemp(staging, id, pid), BundlePath(staging, id);
    && Harmless(out, pid, id)
    && Writable(t, way, temp, path)
    && now == Written(t, way, temp, path, BundleDoc(b))
  }

  /** One of the bundles read is not harmless, and up to it all were read as they were. */
  ghost predicate HarmfulInput(
    before: Tree<Document>, out: Path, pid: string, bundles: seq<Path>, read: seq<Bundle>)
    requires out != []
  {
    exists j :: 0 <= j < |read| && !Harmless(out, pid, read[j].payload.revisionId)
                && ReadFrom(before, bundles, read[..j + 1])
  }

  lemma HarmfulInputStays(
    before: Tree<Document>, out: Path, pid: string, bundles: seq<Path>, read: seq<Bundle>, next: Bundle)
    requires out != [] && HarmfulInput(before, out, pid, bundles, read)
    ensures HarmfulInput(before, out, pid, bundles, read + [next])
  {
    var j :| 0 <= j < |read| && !Harmless(out, pid, read[j].payload.revisionId)
             && ReadFrom(before, bundles, read[..j + 1]);
    var more := read + [next];
    assert more[..j + 1] == read[..j + 1] && more[j] == read[j];
  }

  lemma HarmfulInputStarts(
    before: Tree<Document>, out: Path, pid: string, bundles: seq<Path>, read: seq<Bundle>)
    requires out != [] && read != [] && !Harmless(out, pid, read[|read| - 1].payload.revisionId)
    requires ReadFrom(before, bundles, read)
    ensures HarmfulInput(before, out, pid, bundles, read)
  {
    assert read[..|read| - 1 + 1] == read;
  }

  /** Where the loop stands after reading an input, whatever becomes of it. */
  ghost predicate Reading(
    before: Tree<Document>, since: nat, trace: seq<Tree<Document>>, tree: Tree<Document>, out: Path, pid: string,
    bundles: seq<Path>, read: seq<Bundle>, breach: Option<nat>)
    requires out != []
  {
    && since <= |trace| && tree == StateBefore(before, since, trace, |trace|)
    && Leads(tree, Staging(out, pid))
    && Watched(before, since, trace, tree, out, pid, read, breach)
    && (AllHarmless(out, pid, read) ==> breach.None?)
    && (breach.None? ==> ReadFrom(before, bundles, read))
    && (breach.Some? ==> HarmfulInput(before, out, pid, bundles, read))
  }

  /** Where it stands when all inputs read were staged. */
  ghost predicate Staged(
    tree: Tree<Document>, out: Path, pid: string, authority: Authority, read: seq<Bundle>, breach: Option<nat>,
    signed: map<string, Bundle>, contracts: map<string, string>)
    requires out != []
  {
    breach.None? ==>
      AllHarmless(out, pid, read) && Progress(tree, Staging(out, pid), authority, read, signed, contracts)
  }

  lemma ReadStep(
    before: Tree<Document>, since: nat, trace: seq<Tree<Document>>, tree: Tree<Document>, out: Path, pid: string,
    bundles: seq<Path>, read: seq<Bundle>, breach: Option<nat>, next: Bundle)
    requires out != [] && Closed(before) && Staging(out, pid) !in before && |read| < |bundles|
    requires Reading(before, since, trace, tree, out, pid, bundles, read, breach)
    requires bundles[|read|] in tree && tree[bundles[|read|]] == File(BundleDoc(next))
    ensures Reading(before, since, trace, tree, out, pid, bundles, read + [next], breach)
  {
    WatchedReads(before, since, trace, tree, out, pid, read, next, breach);
    AllHarmlessSnoc(out, pid, read, next);
    if breach.None? {
      ReadFromSnoc(before, tree, Staging(out, pid), out, bundles, read, next);
    } else {
      HarmfulInputStays(before, out, pid, bundles, read, next);
    }
  }

  /** Stage the last bundle read, with an eye on what it does to the disk. */
  method StageWatched(
    disk: Disk<Document>, bundle: Bundle, out: Path, pid: string,
    ghost before: Tree<Document>, ghost since: nat, ghost bundles: seq<Path>, ghost read: seq<Bundle>,
    ghost breach0: Option<nat>)
    returns (ok: bool, ghost breach: Option<nat>)
    requires out != [] && read != [] && bundle.payload == read[|read| - 1].payload
    requires Reading(before, since, disk.trace, disk.tree, out, pid, bundles, read, breach0)
    modifies disk
    ensures old(disk.trace) <= disk.trace
    ensures Reading(before, since, disk.trace, disk.tree, out, pid, bundles, read, breach)
    ensures breach0.Some? ==> breach.Some?
    ensures ok && breach.None? ==> StagedFrom(old(disk.tree), disk.tree, out, pid, bundle)
    ensures old(disk.faults) <= disk.faults
    ensures var staging, id := Staging(out, pid), bundle.payload.revisionId;
            !ok ==>
              || WriteFaulted(disk.faults)
              || !Writable(old(disk.tree), BundleWay(staging, id), BundleTemp(staging, id, pid),
                           BundlePath(staging, id))
  {
    ghost var n;
    ok, n := StageBundle(disk, bundle, out, pid);
    ghost var harmless := Harmless(out, pid, bundle.payload.revisionId);
    StateAfter(before, since, old(disk.trace), old(disk.tree), StatesOf(old(disk.tree), out, pid, bundle), n,
               disk.trace, disk.tree);
    BundleWrites(before, since, old(disk.trace), old(disk.tree), out, pid, read, bundle, n,
                 disk.trace, disk.tree, breach0);
    breach := NextBreach(breach0, harmless, n, |old(disk.trace)|);
    assert AllHarmless(out, pid, read) ==> harmless;
    if breach.Some? && breach0.None? {
      HarmfulInputStarts(before, out, pid, bundles, read);
    }
  }

  lemma StageStep(
    tree: Tree<Document>, now: Tree<Document>, out: Path, pid: string, authority: Authority,
    read: seq<Bundle>, breach0: Option<nat>, breach: Option<nat>,
    signed: map<string, Bundle>, contracts: map<string, string>, original: Bundle, b: Bundle, contentId: string)
    requires out != [] && Decimal(pid) && Leads(tree, Staging(out, pid))
    requires Staged(tree, out, pid, authority, read, breach0, signed, contracts)
    requires b.payload == original.payload && authority.verifies(b) && authority.contentId(b) == Some(contentId)
    requires breach0.Some? ==> breach.Some?
    requires breach.None? ==> StagedFrom(tree, now, out, pid, b)
    ensures var id := b.payload.revisionId;
            Staged(now, out, pid, authority, read + [original], breach, signed[id := b], contracts[id := contentId])
  {
    if breach.None? {
      AllHarmlessSnoc(out, pid, read, original);
      ProgressSnoc(tree, now, out, authority, read, signed, contracts, original, b, contentId, pid);
    }
  }

  lemma AllHarmlessSnoc(out: Path, pid: string, read: seq<Bundle>, next: Bundle)
    requires out != []
    ensures AllHarmless(out, pid, read + [next]) <==>
              AllHarmless(out, pid, read) && Harmless(out, pid, next.payload.revisionId)
  {
    assert forall b :: b in read + [next] <==> b in read || b == next;
  }

  lemma StateAfter(
    before: Tree<Document>, since: nat, trace0: seq<Tree<Document>>, tree0: Tree<Document>,
    states: seq<Tree<Document>>, n: nat, trace: seq<Tree<Document>>, tree: Tree<Document>)
    requires since <= |trace0| && tree0 == StateBefore(before, since, trace0, |trace0|)
    requires Began(tree0, trace0, states, n, trace, tree)
    ensures since <= |trace| && tree == StateBefore(before, since, trace, |trace|)
  {
  }

  /** A write that failed without a fault had something in its way from the start. */
  lemma WriteCause(
    before: Tree<Document>, since: nat, trace: seq<Tree<Document>>, tree: Tree<Document>, authority: Authority,
    bundles: seq<Path>, out: Path, pid: string, read: seq<Bundle>, breach: Option<nat>,
    signed: map<string, Bundle>, contracts: map<string, string>, original: Bundle)
    requires out != [] && Reading(before, since, trace, tree, out, pid, bundles, read + [original], breach)
    requires Staged(tree, out, pid, authority, read, breach, signed, contracts)
    requires var staging, id := Staging(out, pid), original.payload.revisionId;
             !Writable(tree, BundleWay(staging, id), BundleTemp(staging, id, pid), BundlePath(staging, id))
    ensures !Clear(before, out, pid, Ids(read + [original]))
  {
    var all := Ids(read + [original]);
    IdsSnoc(read, original);
    if Clear(before, out, pid, all) {
      ClearIsHarmless(before, out, pid, read + [original]);
      ClearIsWritable(before, tree, out, pid, all, Ids(read), original.payload.revisionId);
    }
  }

  lemma ClearIsHarmless(before: Tree<Document>, out: Path, pid: string, read: seq<Bundle>)
    requires out != [] && Clear(before, out, pid, Ids(read))
    ensures AllHarmless(out, pid, read)
  {
    forall b | b in read
      ensures Harmless(out, pid, b.payload.revisionId)
    {
      assert ClearWay(before, out, pid, Ids(read), b.payload.revisionId);
    }
  }

  /** An input that could not be read, without a fault, was no bundle file from the start. */
  lemma ReadCause(
    before: Tree<Document>, since: nat, trace: seq<Tree<Document>>, tree: Tree<Document>,
    bundles: seq<Path>, out: Path, pid: string, read: seq<Bundle>, breach: Option<nat>)
    requires out != [] && Closed(before) && Staging(out, pid) !in before && |read| < |bundles|
    requires Reading(before, since, trace, tree, out, pid, bundles, read, breach)
    requires !IsInput(tree, bundles[|read|])
    ensures !IsInput(before, bundles[|read|]) || !AllHarmless(out, pid, read)
  {
    var p, staging := bundles[|read|], Staging(out, pid);
    if p in before && staging <= p {
      NothingBelow(before, staging, p);
    }
  }

  /** Read one input and re-sign it. */
  method ReadInput(
    disk: Disk<Document>, authority: Authority, bundles: seq<Path>, i: nat, out: Path, pid: string,
    ghost before: Tree<Document>, ghost since: nat, ghost read0: seq<Bundle>, ghost breach: Option<nat>)
    returns (r: Result<(Bundle, Bundle), Failure>, ghost read: seq<Bundle>, ghost now: nat)
    requires out != [] && Closed(before) && Staging(out, pid) !in before && |read0| == i < |bundles|
    requires Reading(before, since, disk.trace, disk.tree, out, pid, bundles, read0, breach)
    modifies disk`faults
    ensures Reading(before, since, disk.trace, disk.tree, out, pid, bundles, read, breach)
    ensures old(disk.faults) <= disk.faults
    ensures r.Ok? ==>
              var (original, b) := r.value;
              && read == read0 + [original] && b.payload == original.payload && authority.verifies(b)
              && authority.sign(original, now) == Some(b)
    ensures r.Err? ==> r.error in {InputUnreadable, SigningFailed, PayloadChanged, VerificationFailed}
    ensures r.Err? ==> Cause(before, authority, bundles, out, pid, read, disk.faults, r.error)
  {
    read, now := read0, 0;
    if !IsInput(disk.tree, bundles[i]) {
      ReadCause(before, since, disk.trace, disk.tree, bundles, out, pid, read0, breach);
      return Err(InputUnreadable), read, now;
    }
    var readable: bool := *;
    if !readable {
      disk.Raise(ReadFault);
      return Err(InputUnreadable), read, now;
    }
    var original := InputAt(disk.tree, bundles[i]);
    ReadStep(before, since, disk.trace, disk.tree, out, pid, bundles, read0, breach, original);
    read := read0 + [original];
    var resigned;
    resigned, now := Resign(authority, original);
    if resigned.Err? {
      SignedCause(before, authority, bundles, out, pid, read, disk.faults, original, now, resigned.error);
      return Err(resigned.error), read, now;
    }
    return Ok((original, resigned.value)), read, now;
  }

  /** The errors of the loop, after which the staging directory is removed. */
  predicate InLoop(failure: Failure) {
    failure in {InputUnreadable, SigningFailed, PayloadChanged, VerificationFailed, WriteFailed, NoContentId}
  }

  /** One turn of the loop: read, re-sign, check, write. */
  method StageInput(
    disk: Disk<Document>, authority: Authority, bundles: seq<Path>, i: nat, out: Path, pid: string,
    ghost before: Tree<Document>, ghost since: nat, ghost read0: seq<Bundle>, ghost breach0: Option<nat>,
    ghost signed: map<string, Bundle>, ghost contracts: map<string, string>)
    returns (
      r: Result<(Bundle, string), Failure>, signer: string, ghost read: seq<Bundle>, ghost breach: Option<nat>)
    requires out != [] && Decimal(pid) && Closed(before) && Staging(out, pid) !in before && |read0| == i < |bundles|
    requires Reading(before, since, disk.trace, disk.tree, out, pid, bundles, read0, breach0)
    requires Staged(disk.tree, out, pid, authority, read0, breach0, signed, contracts)
    modifies disk
    ensures old(disk.trace) <= disk.trace
    ensures Reading(before, since, disk.trace, disk.tree, out, pid, bundles, read, breach)
    ensures r.Ok? ==>
              && |read| == i + 1 && Signers(read) == Signers(read0) + {signer}
              && var (b, contentId) := r.value;
                 Staged(disk.tree, out, pid, authority, read, breach,
                        signed[b.payload.revisionId := b], contracts[b.payload.revisionId := contentId])
    ensures old(disk.faults) <= disk.faults
    ensures r.Err? ==> InLoop(r.error) && Cause(before, authority, bundles, out, pid, read, disk.faults, r.error)
  {
    breach, signer := breach0, "";
    var input;
    ghost var now;
    input, read, now := ReadInput(disk, authority, bundles, i, out, pid, before, since, read0, breach0);
    if input.Err? {
      return Err(input.error), signer, read, breach;
    }
    var (original, b) := input.value;
    IdsSnoc(read0, original);
    signer := original.signer;
    var ok;
    ok, breach := StageWatched(disk, b, out, pid, before, since, bundles, read, breach0);
    if !ok {
      if !WriteFaulted(disk.faults) {
        WriteCause(before, since, old(disk.trace), old(disk.tree), authority, bundles, out, pid, read0, breach0,
                   signed, contracts, original);
      }
      return Err(WriteFailed), signer, read, breach;
    }
    var contentId := authority.contentId(b);
    if !contentId.Some? {
      SignedCause(before, authority, bundles, out, pid, read, disk.faults, original, now, NoContentId);
      return Err(NoContentId), signer, read, breach;
    }
    StageStep(old(disk.tree), disk.tree, out, pid, authority, read0, breach0, breach, signed, contracts,
              original, b, contentId.value);
    return Ok((b, contentId.value)), signer, read, breach;
  }

  /** The loop over the inputs, and the manifest it collects. */
  method StageBundles(
    disk: Disk<Document>, authority: Authority, bundles: seq<Path>, out: Path, pid: string,
    ghost before: Tree<Document>, ghost since: nat)
    returns (
      result: Result<Manifest, Failure>, ghost read: seq<Bundle>, ghost signed: map<string, Bundle>,
      ghost breach: Option<nat>)
    requires out != [] && Decimal(pid) && Closed(before) && Staging(out, pid) !in before
    requires Reading(before, since, disk.trace, disk.tree, out, pid, bundles, [], None)
    requires Staged(disk.tree, out, pid, authority, [], None, map[], map[])
    modifies disk
    ensures old(disk.trace) <= disk.trace
    ensures Reading(before, since, disk.trace, disk.tree, out, pid, bundles, read, breach)
    ensures result.Ok? ==>
              && |read| == |bundles|
              && result.value.previousSigners == Signers(read) && result.value.newSigner == authority.name
              && Staged(disk.tree, out, pid, authority, read, breach, signed, result.value.contracts)
    ensures old(disk.faults) <= disk.faults
    ensures result.Err? ==>
              InLoop(result.error) && Cause(before, authority, bundles, out, pid, read, disk.faults, result.error)
  {
    read, signed, breach := [], map[], None;
    var previousSigners: set<string> := {};
    var contracts: map<string, string> := map[];
    for i := 0 to |bundles|
      invariant old(disk.trace) <= disk.trace && old(disk.faults) <= disk.faults
      invariant |read| == i && previousSigners == Signers(read)
      invariant Reading(before, since, disk.trace, disk.tree, out, pid, bundles, read, breach)
      invariant Staged(disk.tree, out, pid, authority, read, breach, signed, contracts)
    {
      var staged, signer;
      staged, signer, read, breach := StageInput(
        disk, authority, bundles, i, out, pid, before, since, read, breach, signed, contracts);
      if staged.Err? {
        return Err(staged.error), read, signed, breach;
      }
      var (bundle, contentId) := staged.value;
      previousSigners := previousSigners + {signer};
      contracts := contracts[bundle.payload.revisionId := contentId];
      signed := signed[bundle.payload.revisionId := bundle];
    }
    var rotatedAt: nat := *;
    return Ok(Manifest(rotatedAt, previousSigners, authority.name, contracts)), read, signed, breach;
  }

  lemma ParentLeads(t: Tree<Document>, path: Path)
    requires Closed(t) && path in t && path != []
    ensures Leads(t, Parent(path))
  {
    ClosedLeads(t, path);
    forall i | 0 <= i <= |Parent(path)|
      ensures Parent(path)[..i] in t && t[Parent(path)[..i]].Directory?
    {
      assert Parent(path)[..i] == path[..i];
    }
  }

  lemma NothingToPrepare(before: Tree<Document>, out: Path, pid: string)
    requires out != [] && Closed(before) && Staging(out, pid) in before
    ensures Passage(before, Prefixes(Parent(Staging(out, pid)))) == []
  {
    ParentLeads(before, Staging(out, pid));
    PrefixesThere(before, Parent(Staging(out, pid)));
  }

  /** Create the directory the output and the staging directory sit in. */
  method CreateParent(disk: Disk<Document>, out: Path, pid: string) returns (ok: bool)
    requires out != []
    modifies disk
    ensures old(disk.trace) <= disk.trace
    ensures Quiet(old(disk.tree), |old(disk.trace)|, disk.trace, disk.tree, Staging(out, pid), out)
    ensures disk.tree == StateBefore(old(disk.tree), |old(disk.trace)|, disk.trace, |disk.trace|)
    ensures Closed(old(disk.tree)) && Staging(out, pid) in old(disk.tree) ==>
              disk.tree == old(disk.tree) && disk.trace == old(disk.trace)
    ensures var way := Prefixes(Parent(Staging(out, pid)));
            && (ok ==> Open(old(disk.tree), way) && disk.tree == WithWay(old(disk.tree), way))
            && (!ok ==> !Open(old(disk.tree), way) || CreateFault in disk.faults)
    ensures old(disk.faults) <= disk.faults
  {
    ghost var n;
    ok, n := disk.CreateDirAll(Prefixes(Parent(Staging(out, pid))));
    PreparedIsQuiet(old(disk.tree), out, pid, n);
    ghost var states := Passage(old(disk.tree), Prefixes(Parent(Staging(out, pid))))[..n];
    assert disk.trace[|old(disk.trace)|..] == states;
    if Closed(old(disk.tree)) && Staging(out, pid) in old(disk.tree) {
      NothingToPrepare(old(disk.tree), out, pid);
    }
  }

  /** Create the parent and an empty staging directory that did not exist before. */
  method PrepareStaging(disk: Disk<Document>, out: Path, pid: string) returns (ok: bool)
    requires out != [] && Closed(disk.tree)
    modifies disk
    ensures old(disk.trace) <= disk.trace
    ensures Quiet(old(disk.tree), |old(disk.trace)|, disk.trace, disk.tree, Staging(out, pid), out)
    ensures disk.tree == StateBefore(old(disk.tree), |old(disk.trace)|, disk.trace, |disk.trace|)
    ensures Staging(out, pid) in old(disk.tree) ==>
              !ok && disk.tree == old(disk.tree) && disk.trace == old(disk.trace)
    ensures ok ==> Leads(disk.tree, Staging(out, pid))
    ensures ok ==> forall p :: p in disk.tree ==> !(Staging(out, pid) < p)
    ensures old(disk.faults) <= disk.faults
    ensures !ok ==> || CreateFault in disk.faults || Staging(out, pid) in old(disk.tree)
                    || !Open(old(disk.tree), Prefixes(Parent(out)))
  {
    var staging := Staging(out, pid);
    StagingBesideOutput(out, pid);
    ok := CreateParent(disk, out, pid);
    if !ok || staging in disk.tree {
      if ok {
        StagingWasThere(old(disk.tree), disk.tree, out, pid);
      }
      return false;
    }
    ghost var made, tree1 := disk.trace, disk.tree;
    ok := disk.CreateDir(staging);
    if ok {
      StagingNotBefore(old(disk.tree), tree1, out, pid);
      NewDirectoryLeads(old(disk.tree), disk.tree, staging);
      NewDirectoryIsQuiet(old(disk.tree), |old(disk.trace)|, made, tree1, disk.trace, disk.tree, staging, out);
    }
  }

  lemma StagingWasThere(before: Tree<Document>, now: Tree<Document>, out: Path, pid: string)
    requires out != [] && now == WithWay(before, Prefixes(Parent(Staging(out, pid)))) && Staging(out, pid) in now
    ensures Staging(out, pid) in before
  {
    WithWayMeans(before, Prefixes(Parent(Staging(out, pid))));
    StagingBesideOutput(out, pid);
    forall p | p in Prefixes(Parent(Staging(out, pid)))
      ensures p != Staging(out, pid)
    {
      PrefixesMeans(Parent(Staging(out, pid)), p);
    }
  }

  lemma StagingNotBefore(before: Tree<Document>, now: Tree<Document>, out: Path, pid: string)
    requires out != [] && now == WithWay(before, Prefixes(Parent(Staging(out, pid)))) && Staging(out, pid) !in now
    ensures Staging(out, pid) !in before
  {
    WithWayMeans(before, Prefixes(Parent(Staging(out, pid))));
  }

  /** Creating the parent of the staging directory is quiet at every step. */
  lemma PreparedIsQuiet(before: Tree<Document>, out: Path, pid: string, n: nat)
    requires out != [] && n <= |Passage(before, Prefixes(Parent(Staging(out, pid))))|
    ensures var states := Passage(before, Prefixes(Parent(Staging(out, pid))))[..n];
            && AllWithin(before, states, Staging(out, pid), out)
            && Within(before, Latest(before, states), Staging(out, pid), out)
  {
    PrefixesAvoid(out, pid);
    PassageWithin(before, Prefixes(Parent(Staging(out, pid))), Staging(out, pid), out);
  }

  lemma NewDirectoryIsQuiet(
    before: Tree<Document>, since: nat, made: seq<Tree<Document>>, tree1: Tree<Document>,
    trace: seq<Tree<Document>>, tree: Tree<Document>, staging: Path, out: Path)
    requires Quiet(before, since, made, tree1, staging, out)
    requires tree == tree1[staging := Directory] && trace == made + [tree]
    ensures Quiet(before, since, trace, tree, staging, out)
  {
    assert trace[since..] == made[since..] + [tree];
  }

  lemma PrefixesAvoid(out: Path, pid: string)
    requires out != []
    ensures forall p :: p in Prefixes(Parent(Staging(out, pid))) ==> !(out <= p)
  {
    StagingBesideOutput(out, pid);
    forall p | p in Prefixes(Parent(out))
      ensures !(out <= p)
    {
      PrefixesMeans(Parent(out), p);
    }
  }

  lemma NewDirectoryLeads(before: Tree<Document>, now: Tree<Document>, staging: Path)
    requires Closed(before) && staging !in before && staging != []
    requires now == WithWay(before, Prefixes(Parent(staging)))[staging := Directory]
    requires Open(before, Prefixes(Parent(staging)))
    ensures Leads(now, staging) && forall p :: p in now ==> !(staging < p)
  {
    WithWayMeans(before, Prefixes(Parent(staging)));
    forall i | 0 <= i <= |staging|
      ensures staging[..i] in now && now[staging[..i]].Directory?
    {
      assert i == |staging| ==> staging[..i] == staging;
      assert i < |staging| ==> staging[..i] == Parent(staging)[..i] == Prefixes(Parent(staging))[i];
    }
    forall p | p in now
      ensures !(staging < p)
    {
      if staging < p && p in before {
        NothingBelow(before, staging, p);
      } else if staging < p {
        PrefixesMeans(Parent(staging), p);
      }
    }
  }

  lemma ManifestWithin(t: Tree<Document>, staging: Path, out: Path, m: Manifest, pid: string)
    requires Leads(t, staging)
    ensures AllWithin(
              t,
              WriteStates(t, Prefixes(staging), TempPath(staging, MANIFEST_NAME, pid), staging + [MANIFEST_NAME],
                          ManifestDoc(m), Torn),
              staging, out)
  {
    PrefixesThere(t, staging);
    FilesWithin(t, TempPath(staging, MANIFEST_NAME, pid), staging + [MANIFEST_NAME], ManifestDoc(m), Torn,
                staging, out);
  }

  /** What the written manifest makes of a staged directory. */
  lemma ManifestStep(
    t: Tree<Document>, now: Tree<Document>, staging: Path, authority: Authority, pid: string, m: Manifest,
    read: seq<Bundle>, signed: map<string, Bundle>)
    requires Decimal(pid) && Leads(t, staging) && Progress(t, staging, authority, read, signed, m.contracts)
    requires m.previousSigners == Signers(read) && m.newSigner == authority.name
    requires ManifestFrom(t, now, staging, m, pid)
    ensures Apart(staging, Ids(read)) ==> Complete(now, staging, staging, authority, read, m)
  {
    PrefixesThere(t, staging);
    if Apart(staging, Ids(read)) {
      ManifestCompletes(t, staging, authority, pid, m, read, signed);
    }
  }

  lemma ConcealedLonger(
    before: Tree<Document>, since: nat, trace0: seq<Tree<Document>>, trace: seq<Tree<Document>>, out: Path)
    requires trace0 <= trace && ConcealedUntil(before, since, trace0, |trace0|, out)
    ensures ConcealedUntil(before, since, trace, |trace0|, out)
  {
  }

  method WriteManifest(
    disk: Disk<Document>, ghost authority: Authority, out: Path, pid: string, manifest: Manifest,
    ghost quiet: bool, ghost before: Tree<Document>, ghost since: nat,
    ghost read: seq<Bundle>, ghost signed: map<string, Bundle>)
    returns (ok: bool)
    requires out != [] && Decimal(pid) && Leads(disk.tree, Staging(out, pid))
    requires Closed(before) && out !in before && Staging(out, pid) !in before
    requires quiet ==> Quiet(before, since, disk.trace, disk.tree, Staging(out, pid), out)
    requires quiet ==> Progress(disk.tree, Staging(out, pid), authority, read, signed, manifest.contracts)
    requires manifest.previousSigners == Signers(read) && manifest.newSigner == authority.name
    modifies disk
    ensures old(disk.trace) <= disk.trace
    ensures quiet ==>
              && since <= |disk.trace| && ConcealedUntil(before, since, disk.trace, |disk.trace|, out)
              && Concealed(before, disk.tree, out)
    ensures quiet && ok && Apart(Staging(out, pid), Ids(read)) ==>
              Complete(disk.tree, Staging(out, pid), Staging(out, pid), authority, read, manifest)
    ensures old(disk.faults) <= disk.faults && (ok ==> Leads(disk.tree, Staging(out, pid)))
    ensures quiet && !ok ==> WriteFaulted(disk.faults) || !Clear(before, out, pid, Ids(read))
  {
    var staging := Staging(out, pid);
    ghost var n;
    ok, n := AtomicWriteJson(disk, Prefixes(staging), staging, MANIFEST_NAME, ManifestDoc(manifest), Torn, pid);
    if quiet {
      ManifestIsQuiet(before, since, old(disk.trace), old(disk.tree), out, pid, manifest, n, disk.trace, disk.tree);
      QuietIsConcealed(before, since, disk.trace, disk.tree, out, pid);
      if ok {
        ManifestStep(old(disk.tree), disk.tree, staging, authority, pid, manifest, read, signed);
      } else if Clear(before, out, pid, Ids(read)) {
        ClearManifest(before, old(disk.tree), out, pid, Ids(read));
      }
    }
    LeadsKept(old(disk.tree), Prefixes(staging), TempPath(staging, MANIFEST_NAME, pid), staging + [MANIFEST_NAME],
              ManifestDoc(manifest), n, staging);
  }

  /** The manifest was written all the way. */
  ghost predicate ManifestFrom(
    t: Tree<Document>, now: Tree<Document>, staging: Path, m: Manifest, pid: string)
  {
    var temp, path := TempPath(staging, MANIFEST_NAME, pid), staging + [MANIFEST_NAME];
    && Writable(t, Prefixes(staging), temp, path)
    && now == Written(t, Prefixes(staging), temp, path, ManifestDoc(m))
  }

  lemma ManifestIsQuiet(
    before: Tree<Document>, since: nat, trace0: seq<Tree<Document>>, tree0: Tree<Document>, out: Path, pid: string,
    m: Manifest, n: nat, trace: seq<Tree<Document>>, tree: Tree<Document>)
    requires out != [] && Leads(tree0, Staging(out, pid))
    requires Quiet(before, since, trace0, tree0, Staging(out, pid), out)
    requires var staging := Staging(out, pid);
             var states := WriteStates(tree0, Prefixes(staging), TempPath(staging, MANIFEST_NAME, pid),
                                       staging + [MANIFEST_NAME], ManifestDoc(m), Torn);
             Began(tree0, trace0, states, n, trace, tree)
    ensures Quiet(before, since, trace, tree, Staging(out, pid), out)
  {
    var staging := Staging(out, pid);
    var states := WriteStates(tree0, Prefixes(staging), TempPath(staging, MANIFEST_NAME, pid),
                              staging + [MANIFEST_NAME], ManifestDoc(m), Torn);
    ManifestWithin(tree0, staging, out, m, pid);
    QuietThen(before, since, trace0, tree0, states, n, trace, tree, staging, out);
  }

  lemma Published(
    before: Tree<Document>, staged: Tree<Document>, now: Tree<Document>, out: Path, staging: Path,
    authority: Authority, read: seq<Bundle>, m: Manifest)
    requires Closed(before) && out !in before && staging !in before && Concealed(before, staged, out)
    requires now == Moved(staged - {out}, staging, out)
    requires Apart(staging, Ids(read)) ==> Complete(staged, staging, staging, authority, read, m)
    ensures Untouched(before, now)
    ensures Complete(now, out, staging, authority, read, m) <==> Apart(staging, Ids(read))
  {
    RenamePublishes(before, staged, out, staging, authority, read, m);
    if Complete(now, out, staging, authority, read, m) {
      CompleteMeansApart(now, out, staging, authority, read, m);
    }
  }

  lemma ShrunkIsQuiet(
    before: Tree<Document>, since: nat, trace0: seq<Tree<Document>>, tree0: Tree<Document>,
    trace: seq<Tree<Document>>, tree: Tree<Document>, staging: Path, out: Path)
    requires Quiet(before, since, trace0, tree0, staging, out)
    requires trace0 <= trace && Shrunk(tree0, tree, staging)
    requires forall k :: |trace0| <= k < |trace| ==> Shrunk(tree0, trace[k], staging)
    ensures Quiet(before, since, trace, tree, staging, out)
  {
    WithinTransitive(before, tree0, tree, staging, out);
    var more := trace[|trace0|..];
    forall k | 0 <= k < |more|
      ensures Within(tree0, more[k], staging, out)
    {
      assert more[k] == trace[|trace0| + k];
    }
    AllWithinThen(before, tree0, trace0[since..], more, staging, out);
    assert trace[since..] == trace0[since..] + more;
  }

  lemma WatchedIsConcealed(
    before: Tree<Document>, since: nat, trace0: seq<Tree<Document>>, tree0: Tree<Document>, trace: seq<Tree<Document>>,
    out: Path, pid: string, read: seq<Bundle>, breach: Option<nat>)
    requires out != [] && Closed(before) && out !in before && Staging(out, pid) !in before
    requires Watched(before, since, trace0, tree0, out, pid, read, breach) && breach.Some? && trace0 <= trace
    ensures HarmfulStart(before, since, trace, breach.value, out, pid, read)
    ensures ConcealedUntil(before, since, trace, breach.value, out)
  {
    HarmfulStartStays(before, since, trace0, trace, breach.value, out, pid, read, read);
    StagingBesideOutput(out, pid);
    forall k | since <= k < breach.value
      ensures Concealed(before, trace[k], out)
    {
      assert trace[k] == trace0[since..breach.value][k - since];
      StagingIsSafe(before, trace[k], out, Staging(out, pid));
    }
  }

  /**
   * What a rotation leaves. `breach` is where the writing of a bundle that is not harmless takes its
   * first step, if one does. Up to there, in every state a crash or an error may leave, all files
   * from before are as they were and the output is absent. Without a breach that holds until the one
   * rename of a successful run, which publishes a rotation that is complete for exactly the inputs
   * given, unless two of their ids share a file.
   */
  ghost predicate Outcome(
    before: Tree<Document>, since: nat, trace: seq<Tree<Document>>, tree: Tree<Document>, authority: Authority,
    bundles: seq<Path>, out: Path, pid: string, r: Result<Manifest, Failure>, read: seq<Bundle>, breach: Option<nat>)
    requires out != []
  {
    && (AllHarmless(out, pid, read) ==> breach.None?)
    && (breach.Some? ==>
          && HarmfulStart(before, since, trace, breach.value, out, pid, read)
          && HarmfulInput(before, out, pid, bundles, read)
          && ConcealedUntil(before, since, trace, breach.value, out))
    && (breach.None? ==> ReadFrom(before, bundles, read))
    && (breach.None? && r.Err? ==>
          ConcealedUntil(before, since, trace, |trace|, out) && Concealed(before, tree, out))
    && (breach.None? && r.Ok? ==>
          && |read| == |bundles| && since < |trace|
          && ConcealedUntil(before, since, trace, |trace| - 1, out)
          && trace[|trace| - 1] == tree && Untouched(before, tree)
          && (Complete(tree, out, Staging(out, pid), authority, read, r.value)
              <==> Apart(Staging(out, pid), Ids(read))))
  }

  lemma StoppedOutcome(
    before: Tree<Document>, since: nat, trace: seq<Tree<Document>>, tree: Tree<Document>, authority: Authority,
    bundles: seq<Path>, out: Path, pid: string, failure: Failure)
    requires out != [] && Closed(before) && out !in before
    requires Quiet(before, since, trace, tree, Staging(out, pid), out)
    requires Staging(out, pid) in before ==> tree == before && since == |trace|
    ensures Outcome(before, since, trace, tree, authority, bundles, out, pid, Err(failure), [], None)
  {
    if Staging(out, pid) in before {
      ClosedAbsent(before, out);
    } else {
      QuietIsConcealed(before, since, trace, tree, out, pid);
    }
  }

  lemma FailedOutcome(
    before: Tree<Document>, since: nat, trace0: seq<Tree<Document>>, tree0: Tree<Document>,
    trace: seq<Tree<Document>>, tree: Tree<Document>, authority: Authority,
    bundles: seq<Path>, out: Path, pid: string, failure: Failure, read: seq<Bundle>, breach: Option<nat>)
    requires out != [] && Closed(before) && out !in before && Staging(out, pid) !in before
    requires Reading(before, since, trace0, tree0, out, pid, bundles, read, breach)
    requires trace0 <= trace && Shrunk(tree0, tree, Staging(out, pid))
    requires forall k :: |trace0| <= k < |trace| ==> Shrunk(tree0, trace[k], Staging(out, pid))
    ensures Outcome(before, since, trace, tree, authority, bundles, out, pid, Err(failure), read, breach)
  {
    if breach.None? {
      ShrunkIsQuiet(before, since, trace0, tree0, trace, tree, Staging(out, pid), out);
      QuietIsConcealed(before, since, trace, tree, out, pid);
    } else {
      BreachedOutcome(before, since, trace0, tree0, trace, tree, authority, bundles, out, pid, Err(failure),
                      read, breach);
    }
  }

  lemma CauseStays(
    before: Tree<Document>, authority: Authority, bundles: seq<Path>, out: Path, pid: string,
    read: seq<Bundle>, faults: set<Fault>, more: set<Fault>, failure: Failure)
    requires out != [] && Cause(before, authority, bundles, out, pid, read, faults, failure) && faults <= more
    ensures Cause(before, authority, bundles, out, pid, read, more, failure)
  {
  }

  /** Remove what was staged and report the failure. */
  method CleanUp(
    disk: Disk<Document>, out: Path, pid: string, failure: Failure, ghost authority: Authority,
    ghost before: Tree<Document>, ghost since: nat, ghost bundles: seq<Path>, ghost read: seq<Bundle>,
    ghost breach: Option<nat>)
    requires out != [] && Closed(before) && out !in before && Staging(out, pid) !in before
    requires Reading(before, since, disk.trace, disk.tree, out, pid, bundles, read, breach)
    requires Cause(before, authority, bundles, out, pid, read, disk.faults, failure)
    modifies disk
    ensures old(disk.trace) <= disk.trace && old(disk.faults) <= disk.faults
    ensures Outcome(before, since, disk.trace, disk.tree, authority, bundles, out, pid, Err(failure), read, breach)
    ensures Cause(before, authority, bundles, out, pid, read, disk.faults, failure)
    ensures RemoveFault in disk.faults || forall p :: p in disk.tree ==> !(Staging(out, pid) <= p)
  {
    var removed := disk.RemoveDirAll(Staging(out, pid));
    FailedOutcome(before, since, old(disk.trace), old(disk.tree), disk.trace, disk.tree, authority, bundles, out, pid,
                  failure, read, breach);
    CauseStays(before, authority, bundles, out, pid, read, old(disk.faults), disk.faults, failure);
  }

  /** The one rename turns a concealed disk with a staged rotation into a published one. */
  lemma FinishedOutcome(
    before: Tree<Document>, since: nat, trace0: seq<Tree<Document>>, tree0: Tree<Document>,
    trace: seq<Tree<Document>>, tree: Tree<Document>, authority: Authority,
    bundles: seq<Path>, out: Path, pid: string, manifest: Manifest, read: seq<Bundle>)
    requires out != [] && Closed(before) && out !in before && Staging(out, pid) !in before
    requires since <= |trace0| && ConcealedUntil(before, since, trace0, |trace0|, out) && Concealed(before, tree0, out)
    requires Apart(Staging(out, pid), Ids(read)) ==>
               Complete(tree0, Staging(out, pid), Staging(out, pid), authority, read, manifest)
    requires tree == Moved(tree0 - {out}, Staging(out, pid), out) && trace == trace0 + [tree]
    requires |read| == |bundles| && ReadFrom(before, bundles, read)
    ensures Outcome(before, since, trace, tree, authority, bundles, out, pid, Ok(manifest), read, None)
  {
    Published(before, tree0, tree, out, Staging(out, pid), authority, read, manifest);
    ConcealedLonger(before, since, trace0, trace, out);
  }

  /** Write the manifest and publish; an error leaves the staging directory behind. */
  method Install(
    disk: Disk<Document>, authority: Authority, out: Path, pid: string, manifest: Manifest,
    ghost before: Tree<Document>, ghost since: nat, ghost bundles: seq<Path>, ghost read: seq<Bundle>,
    ghost breach: Option<nat>, ghost signed: map<string, Bundle>)
    returns (r: Result<Manifest, Failure>)
    requires out != [] && Decimal(pid) && Closed(before) && out !in before && Staging(out, pid) !in before
    requires Reading(before, since, disk.trace, disk.tree, out, pid, bundles, read, breach)
    requires Staged(disk.tree, out, pid, authority, read, breach, signed, manifest.contracts)
    requires |read| == |bundles| && manifest.previousSigners == Signers(read) && manifest.newSigner == authority.name
    modifies disk
    ensures old(disk.trace) <= disk.trace && (r.Ok? ==> r.value == manifest)
    ensures Outcome(before, since, disk.trace, disk.tree, authority, bundles, out, pid, r, read, breach)
    ensures old(disk.faults) <= disk.faults
    ensures r.Err? ==>
              r.error == InstallFailed && Cause(before, authority, bundles, out, pid, read, disk.faults, InstallFailed)
  {
    var ok := WriteManifest(disk, authority, out, pid, manifest, breach.None?, before, since, read, signed);
    ghost var tree1, trace1 := disk.tree, disk.trace;
    r := Err(InstallFailed);
    if breach.Some? {
      BreachedIsNotClear(before, since, old(disk.trace), old(disk.tree), out, pid, bundles, read, breach);
    }
    if ok {
      RenameCause(disk.tree, out, pid);
      ok := disk.RenameDirectory(Staging(out, pid), out);
      r := if ok then Ok(manifest) else Err(InstallFailed);
    }
    if breach.Some? {
      BreachedOutcome(before, since, old(disk.trace), old(disk.tree), disk.trace, disk.tree, authority, bundles,
                      out, pid, r, read, breach);
    } else if ok {
      FinishedOutcome(before, since, trace1, tree1, disk.trace, disk.tree, authority, bundles, out, pid,
                      manifest, read);
    }
  }

  lemma BreachedIsNotClear(
    before: Tree<Document>, since: nat, trace: seq<Tree<Document>>, tree: Tree<Document>, out: Path, pid: string,
    bundles: seq<Path>, read: seq<Bundle>, breach: Option<nat>)
    requires out != [] && Reading(before, since, trace, tree, out, pid, bundles, read, breach) && breach.Some?
    ensures !Clear(before, out, pid, Ids(read))
  {
    if Clear(before, out, pid, Ids(read)) {
      ClearIsHarmless(before, out, pid, read);
    }
  }

  /** With the output absent nothing but a fault can stop the one rename. */
  lemma RenameCause(t: Tree<Document>, out: Path, pid: string)
    requires out != [] && Leads(t, Staging(out, pid))
    ensures Staging(out, pid) in t && t[Staging(out, pid)].Directory? && !(Staging(out, pid) <= out)
  {
    var staging := Staging(out, pid);
    StagingBesideOutput(out, pid);
    assert staging[..|staging|] == staging;
  }

  lemma BreachedOutcome(
    before: Tree<Document>, since: nat, trace0: seq<Tree<Document>>, tree0: Tree<Document>,
    trace: seq<Tree<Document>>, tree: Tree<Document>, authority: Authority, bundles: seq<Path>,
    out: Path, pid: string, r: Result<Manifest, Failure>, read: seq<Bundle>, breach: Option<nat>)
    requires out != [] && Closed(before) && out !in before && Staging(out, pid) !in before
    requires Reading(before, since, trace0, tree0, out, pid, bundles, read, breach) && breach.Some?
    requires trace0 <= trace
    ensures Outcome(before, since, trace, tree, authority, bundles, out, pid, r, read, breach)
  {
    WatchedIsConcealed(before, since, trace0, tree0, trace, out, pid, read, breach);
  }

  lemma PreparedStarts(
    before: Tree<Document>, since: nat, trace: seq<Tree<Document>>, tree: Tree<Document>, authority: Authority,
    bundles: seq<Path>, out: Path, pid: string)
    requires out != [] && Quiet(before, since, trace, tree, Staging(out, pid), out)
    requires tree == StateBefore(before, since, trace, |trace|) && Leads(tree, Staging(out, pid))
    requires forall p :: p in tree ==> !(Staging(out, pid) < p)
    ensures Reading(before, since, trace, tree, out, pid, bundles, [], None)
    ensures Staged(tree, out, pid, authority, [], None, map[], map[])
  {
  }

  lemma ClosedAbsent(t: Tree<Document>, out: Path)
    requires Closed(t) && out !in t
    ensures OutputAbsent(t, out)
  {
    forall p | out <= p
      ensures p !in t
    {
      NothingBelow(t, out, p);
    }
  }

  /** Stage every input; then install what was staged, or remove it. */
  method StageAndInstall(
    disk: Disk<Document>, authority: Authority, bundles: seq<Path>, out: Path, pid: string,
    ghost before: Tree<Document>, ghost since: nat)
    returns (r: Result<Manifest, Failure>, ghost read: seq<Bundle>, ghost breach: Option<nat>)
    requires out != [] && Decimal(pid) && Closed(before) && out !in before && Staging(out, pid) !in before
    requires Reading(before, since, disk.trace, disk.tree, out, pid, bundles, [], None)
    requires Staged(disk.tree, out, pid, authority, [], None, map[], map[])
    modifies disk
    ensures old(disk.trace) <= disk.trace && old(disk.faults) <= disk.faults
    ensures Outcome(before, since, disk.trace, disk.tree, authority, bundles, out, pid, r, read, breach)
    ensures r.Err? ==> Cause(before, authority, bundles, out, pid, read, disk.faults, r.error)
    ensures r.Err? && InLoop(r.error) ==>
              RemoveFault in disk.faults || forall p :: p in disk.tree ==> !(Staging(out, pid) <= p)
  {
    ghost var signed;
    r, read, signed, breach := StageBundles(disk, authority, bundles, out, pid, before, since);
    if r.Err? {
      CleanUp(disk, out, pid, r.error, authority, before, since, bundles, read, breach);
    } else {
      r := Install(disk, authority, out, pid, r.value, before, since, bundles, read, breach, signed);
    }
  }

  /** The rotation once the output is known to be absent. */
  method Rotate(
    disk: Disk<Document>, authority: Authority, bundles: seq<Path>, outputDir: Path, pid: string)
    returns (r: Result<Manifest, Failure>, ghost read: seq<Bundle>, ghost breach: Option<nat>)
    requires Closed(disk.tree) && Decimal(pid) && outputDir !in disk.tree
    modifies disk
    ensures old(disk.trace) <= disk.trace && old(disk.faults) <= disk.faults
    ensures Outcome(old(disk.tree), |old(disk.trace)|, disk.trace, disk.tree, authority, bundles, outputDir, pid,
                    r, read, breach)
    ensures r.Err? ==> Cause(old(disk.tree), authority, bundles, outputDir, pid, read, disk.faults, r.error)
    ensures r.Err? && InLoop(r.error) ==>
              RemoveFault in disk.faults || forall p :: p in disk.tree ==> !(Staging(outputDir, pid) <= p)
  {
    read, breach := [], None;
    ghost var before, since := disk.tree, |disk.trace|;
    var keyUsable: bool := *;
    if !keyUsable {
      disk.Raise(KeyFault);
      StoppedOutcome(before, since, disk.trace, disk.tree, authority, bundles, outputDir, pid, KeyUnusable);
      return Err(KeyUnusable), read, breach;
    }
    var ok := PrepareStaging(disk, outputDir, pid);
    if !ok {
      StoppedOutcome(before, since, disk.trace, disk.tree, authority, bundles, outputDir, pid, StagingUnavailable);
      return Err(StagingUnavailable), read, breach;
    }
    PreparedStarts(before, since, disk.trace, disk.tree, authority, bundles, outputDir, pid);
    r, read, breach := StageAndInstall(disk, authority, bundles, outputDir, pid, before, since);
  }

  lemma SmoothReads(
    before: Tree<Document>, since: nat, trace: seq<Tree<Document>>, tree: Tree<Document>, authority: Authority,
    bundles: seq<Path>, out: Path, pid: string, r: Result<Manifest, Failure>, read: seq<Bundle>, breach: Option<nat>)
    requires out != [] && Outcome(before, since, trace, tree, authority, bundles, out, pid, r, read, breach)
    requires Smooth(before, authority, bundles, out, pid)
    ensures ReadFrom(before, bundles, read)
  {
    if breach.Some? {
      var j :| 0 <= j < |read| && !Harmless(out, pid, read[j].payload.revisionId)
               && ReadFrom(before, bundles, read[..j + 1]);
      assert read[..j + 1][j] == read[j];
      SmoothIsHarmless(before, authority, bundles, out, pid, read[..j + 1]);
    }
  }

  /**
   * The whole rotation. `read` lists the bundles read, in order. Every error has its cause, and a
   * rotation nothing speaks against succeeds unless a fault was met.
   */
  method RotateRevisionContracts(
    disk: Disk<Document>, authority: Authority, bundles: seq<Path>, outputDir: Path, pid: string)
    returns (r: Result<Manifest, Failure>, ghost read: seq<Bundle>, ghost breach: Option<nat>)
    requires Closed(disk.tree) && Decimal(pid)
    modifies disk
    ensures old(disk.trace) <= disk.trace
    ensures outputDir in old(disk.tree) ==>
              r == Err(OutputExists) && disk.tree == old(disk.tree) && disk.trace == old(disk.trace)
    ensures outputDir !in old(disk.tree) ==>
              Outcome(old(disk.tree), |old(disk.trace)|, disk.trace, disk.tree, authority, bundles, outputDir, pid,
                      r, read, breach)
    ensures outputDir !in old(disk.tree) && r.Err? ==>
              Cause(old(disk.tree), authority, bundles, outputDir, pid, read, disk.faults, r.error)
    ensures outputDir !in old(disk.tree) && r.Err? && InLoop(r.error) ==>
              RemoveFault in disk.faults || forall p :: p in disk.tree ==> !(Staging(outputDir, pid) <= p)
    ensures outputDir !in old(disk.tree) && Smooth(old(disk.tree), authority, bundles, outputDir, pid) ==>
              r.Ok? || disk.faults != {}
  {
    disk.ClearFaults();
    read, breach := [], None;
    if outputDir in disk.tree {
      return Err(OutputExists), read, breach;
    }
    r, read, breach := Rotate(disk, authority, bundles, outputDir, pid);
    if r.Err? && disk.faults == {} && Smooth(old(disk.tree), authority, bundles, outputDir, pid) {
      SmoothReads(old(disk.tree), |old(disk.trace)|, disk.trace, disk.tree, authority, bundles, outputDir, pid, r,
                  read, breach);
      SmoothIsNotCaused(old(disk.tree), authority, bundles, outputDir, pid, read, r.error);
    }
  }
}
